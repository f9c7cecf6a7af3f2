/** The decisions inside the student dashboard handlers (dashboard/routes.py):
    the seven-slot weekly hours window, the goal probability and status, the
    known/to-learn skill split, and the strong/weak course lists. */
module DashboardView {
  import opened Wrappers
  import opened Sequences
  import opened PyStrings
  import opened Records

  // ---------------------------------------------------------------------
  // Weekly hours
  // ---------------------------------------------------------------------

  /** Number of slots in the weekly chart. */
  const WeekDays := 7

  function Zeros(n: nat): (r: seq<real>)
    ensures |r| == n && forall i :: 0 <= i < n ==> r[i] == 0.0
  {
    seq(n, _ => 0.0)
  }

  /** `[act.hours for act in acts]`. */
  function Hours(acts: seq<StudyActivity>): (r: seq<real>)
    ensures |r| == |acts| && forall i :: 0 <= i < |acts| ==> r[i] == acts[i].hours
  {
    seq(|acts|, i requires 0 <= i < |acts| => acts[i].hours)
  }

  /** The weekly_hours list for activities given in date order: the hours of the
      last seven, padded at the front with zeros to seven slots. */
  method WeeklyHours(activities: seq<StudyActivity>) returns (weekly: seq<real>)
    ensures |weekly| == WeekDays
    ensures var m := if |activities| < WeekDays then |activities| else WeekDays;
      weekly == Zeros(WeekDays - m) + Hours(activities[|activities| - m..])
  {
    weekly := Zeros(WeekDays);
    if |activities| > 0 {
      var recentActs := TakeLast(activities, WeekDays);
      weekly := Hours(recentActs);
      ghost var padding := 0;
      while |weekly| < WeekDays
        invariant |weekly| <= WeekDays
        invariant weekly == Zeros(padding) + Hours(recentActs)
        decreases WeekDays - |weekly|
      {
        weekly := [0.0] + weekly;
        padding := padding + 1;
      }
    } else {
      assert Hours(activities[0..]) == [];
    }
  }

  // ---------------------------------------------------------------------
  // Goal probability and status
  // ---------------------------------------------------------------------

  /** The probability bucket for the gap between target and current GPA. */
  function GoalBucket(diff: real): (p: int)
    ensures p == 99 || p == 85 || p == 60 || p == 40
  {
    if diff <= 0.0 then 99
    else if diff < 0.2 then 85
    else if diff < 0.5 then 60
    else 40
  }

  /** goal_prob: 50 unless both the metric's target GPA and the student's current
      CGPA are truthy, else the bucket of their difference. `metricTarget` is
      None when there is no AcademicMetric row. */
  function GoalProbability(metricTarget: Option<Option<real>>, currentCgpa: Option<real>): (p: int)
    ensures !(metricTarget.Some? && TruthyReal(metricTarget.value) && TruthyReal(currentCgpa)) ==> p == 50
    ensures metricTarget.Some? && TruthyReal(metricTarget.value) && TruthyReal(currentCgpa) ==>
      p == GoalBucket(metricTarget.value.value - currentCgpa.value)
  {
    if metricTarget.Some? && TruthyReal(metricTarget.value) && TruthyReal(currentCgpa) then
      GoalBucket(metricTarget.value.value - currentCgpa.value)
    else 50
  }

  /** The bucket never rises as the gap grows. */
  lemma GoalBucketMonotone(d1: real, d2: real)
    requires d1 <= d2
    ensures GoalBucket(d2) <= GoalBucket(d1)
  {
  }

  /** The "status" shown on the dashboard. */
  function Status(goalProb: int): string {
    if goalProb > 70 then "On Track" else "At Risk"
  }

  /** The student is On Track exactly when the goal bucket is 85 or 99. */
  lemma OnTrackExactly(metricTarget: Option<Option<real>>, currentCgpa: Option<real>)
    ensures var p := GoalProbability(metricTarget, currentCgpa);
      Status(p) == "On Track" <==> (p == 85 || p == 99)
  {
  }

  /** On Track means the gap is below 0.2 (a target at or below the CGPA included). */
  lemma OnTrackMeansSmallGap(target: real, cgpa: real)
    requires target != 0.0 && cgpa != 0.0
    ensures Status(GoalProbability(Some(Some(target)), Some(cgpa))) == "On Track" <==> target - cgpa < 0.2
  {
  }

  // ---------------------------------------------------------------------
  // Known / to-learn skills
  // ---------------------------------------------------------------------

  /** Names of the skills whose is_target flag equals `target`, in order. */
  function NamesWhere(skills: seq<StudentSkill>, target: bool): seq<string> {
    if skills == [] then []
    else (if skills[0].isTarget == target then [skills[0].skillName] else []) + NamesWhere(skills[1..], target)
  }

  /** skills_known: `[s.skill_name for s in skills if not s.is_target]`. */
  function SkillsKnown(skills: seq<StudentSkill>): seq<string> {
    NamesWhere(skills, false)
  }

  /** skills_todo: `[s.skill_name for s in skills if s.is_target]`. */
  function SkillsTodo(skills: seq<StudentSkill>): seq<string> {
    NamesWhere(skills, true)
  }

  /** The two lists split the skill names between them: together they hold every
      name exactly as often as the skill list does, and each keeps the original order. */
  lemma SkillsPartition(skills: seq<StudentSkill>)
    ensures multiset(SkillsKnown(skills)) + multiset(SkillsTodo(skills)) == multiset(SkillNames(skills))
    ensures IsSubsequence(SkillsKnown(skills), SkillNames(skills))
    ensures IsSubsequence(SkillsTodo(skills), SkillNames(skills))
  {
    SplitCounts(skills);
    NamesWhereInOrder(skills, false);
    NamesWhereInOrder(skills, true);
  }

  lemma {:induction false} SplitCounts(skills: seq<StudentSkill>)
    ensures multiset(NamesWhere(skills, false)) + multiset(NamesWhere(skills, true)) == multiset(SkillNames(skills))
    decreases |skills|
  {
    if skills != [] {
      SplitCounts(skills[1..]);
      assert SkillNames(skills) == [skills[0].skillName] + SkillNames(skills[1..]);
    }
  }

  lemma {:induction false} NamesWhereInOrder(skills: seq<StudentSkill>, target: bool)
    ensures IsSubsequence(NamesWhere(skills, target), SkillNames(skills))
    decreases |skills|
  {
    if skills != [] {
      NamesWhereInOrder(skills[1..], target);
      var names := SkillNames(skills);
      assert names == [skills[0].skillName] + SkillNames(skills[1..]);
      if skills[0].isTarget == target {
        var sub := NamesWhere(skills, target);
        assert sub[0] == names[0];
        assert sub[1..] == NamesWhere(skills[1..], target);
        assert names[1..] == SkillNames(skills[1..]);
      } else {
        assert NamesWhere(skills, target) == [] + NamesWhere(skills[1..], target);
        assert [] + NamesWhere(skills[1..], target) == NamesWhere(skills[1..], target);
        SubsequenceCons(NamesWhere(skills[1..], target), SkillNames(skills[1..]), skills[0].skillName);
      }
    }
  }

  /** A skill's name lands in the list its flag selects. */
  lemma {:induction false} SkillsKnownMembers(skills: seq<StudentSkill>, i: nat)
    requires i < |skills|
    ensures !skills[i].isTarget ==> skills[i].skillName in SkillsKnown(skills)
    ensures skills[i].isTarget ==> skills[i].skillName in SkillsTodo(skills)
    decreases i
  {
    if i > 0 {
      SkillsKnownMembers(skills[1..], i - 1);
    }
  }

  // ---------------------------------------------------------------------
  // Course lists of the analytics API
  // ---------------------------------------------------------------------

  /** `[{"name": c.course_name, "grade": c.grade} for c in courses if c.course_type == t]`. */
  function CourseList(courses: seq<StudentCourse>, t: string): (r: seq<(string, Option<string>)>)
    ensures |r| == |CoursesOfType(courses, t)|
    ensures forall i :: 0 <= i < |r| ==>
      r[i] == (CoursesOfType(courses, t)[i].courseName, CoursesOfType(courses, t)[i].grade)
  {
    var rows := CoursesOfType(courses, t);
    seq(|rows|, i requires 0 <= i < |rows| => (rows[i].courseName, rows[i].grade))
  }
}
