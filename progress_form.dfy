/** The progress form handler (update_progress in dashboard/routes.py): it
    replaces the student's courses, career interests, skills and study
    activities with rows built from the submitted form. The form is a map from
    field name to text; a float parser (Python's `float()`) is a parameter,
    returning None where Python raises ValueError. */
module ProgressForm {
  import opened Wrappers
  import opened PyStrings
  import opened Records
  import opened DashboardView

  type Form = map<string, string>

  /** `request.form.get(key)`. */
  function FormGet(form: Form, key: string): Option<string> {
    if key in form then Some(form[key]) else None
  }

  /** `request.form.get(key, default)`. */
  function FormGetOr(form: Form, key: string, default: string): string {
    if key in form then form[key] else default
  }

  const SubjectSlots := 3
  const CareerSlots := 2
  const Days: seq<string> := ["mon", "tue", "wed", "thu", "fri", "sat", "sun"]

  // ---------------------------------------------------------------------
  // Courses: subject_i / score_i for i = 1..3
  // ---------------------------------------------------------------------

  /** The grade stored with a course. */
  function Grade(score: int): (g: string)
    ensures g == "A" || g == "B"
    ensures g == "A" <==> score > 80
  {
    if score > 80 then "A" else "B"
  }

  /** The rows slot `i` of the course section adds: one strong course when both
      the subject and the score are non-empty, none otherwise. */
  function CourseSlot(form: Form, i: nat): seq<StudentCourse> {
    var sub := FormGet(form, "subject_" + NatToString(i));
    var score := FormGet(form, "score_" + NatToString(i));
    if Truthy(sub) && Truthy(score) then
      var v := ParseIntOrZero(score.value);
      [StudentCourse(sub.value, Some("strong"), Some(Grade(v)), Some(v))]
    else []
  }

  /** The course rows of slots 1..n, in slot order. */
  function CourseRows(form: Form, n: nat): (r: seq<StudentCourse>)
    ensures |r| <= n
  {
    if n == 0 then [] else CourseRows(form, n - 1) + CourseSlot(form, n)
  }

  // ---------------------------------------------------------------------
  // Career interests: role_i / match_i for i = 1..2
  // ---------------------------------------------------------------------

  function CareerSlot(form: Form, i: nat): seq<CareerInterest> {
    var role := FormGet(form, "role_" + NatToString(i));
    var matchText := FormGet(form, "match_" + NatToString(i));
    if Truthy(role) && Truthy(matchText) then [CareerInterest(role.value, ParseIntOrZero(matchText.value))]
    else []
  }

  function CareerRows(form: Form, n: nat): (r: seq<CareerInterest>)
    ensures |r| <= n
  {
    if n == 0 then [] else CareerRows(form, n - 1) + CareerSlot(form, n)
  }

  // ---------------------------------------------------------------------
  // Skills: comma-separated skills_known and skills_todo
  // ---------------------------------------------------------------------

  /** The stripped non-blank pieces, in order. */
  function KeptPieces(pieces: seq<string>): seq<string> {
    if pieces == [] then []
    else
      var last := Strip(pieces[|pieces| - 1]);
      KeptPieces(pieces[..|pieces| - 1]) + (if last != "" then [last] else [])
  }

  /** One skill row per kept piece, with the given is_target flag. */
  function SkillRowsFor(pieces: seq<string>, isTarget: bool): seq<StudentSkill> {
    if pieces == [] then []
    else
      var last := Strip(pieces[|pieces| - 1]);
      SkillRowsFor(pieces[..|pieces| - 1], isTarget) +
      (if last != "" then [StudentSkill(last, isTarget)] else [])
  }

  /** The skill rows of the whole form: known skills first, then skills to learn. */
  function SkillRows(form: Form): seq<StudentSkill> {
    SkillRowsFor(Split(FormGetOr(form, "skills_known", ""), ','), false) +
    SkillRowsFor(Split(FormGetOr(form, "skills_todo", ""), ','), true)
  }

  // ---------------------------------------------------------------------
  // Study hours and the two GPA fields
  // ---------------------------------------------------------------------

  /** `float(h) if h and h.strip() else 0.0`, with a ValueError giving 0.0. */
  function HoursOrZero(h: Option<string>, parseFloat: string -> Option<real>): real {
    if Truthy(h) && Strip(h.value) != "" then parseFloat(h.value).GetOr(0.0) else 0.0
  }

  /** `float(request.form.get(key) or 0)`: None where float() raises, which
      aborts the request. */
  function FormFloat(v: Option<string>, parseFloat: string -> Option<real>): Option<real> {
    if Truthy(v) then parseFloat(v.value) else Some(0.0)
  }

  /** The study rows of the given days, one per day, in order. */
  function ActivityRowsFor(form: Form, days: seq<string>, parseFloat: string -> Option<real>): (r: seq<StudyActivity>)
    ensures |r| == |days|
    ensures forall j :: 0 <= j < |days| ==> r[j].hours == HoursOrZero(FormGet(form, "h_" + days[j]), parseFloat)
  {
    if days == [] then []
    else ActivityRowsFor(form, days[..|days| - 1], parseFloat) +
         [StudyActivity(HoursOrZero(FormGet(form, "h_" + days[|days| - 1]), parseFloat))]
  }

  /** The rows of the study section, one per weekday. */
  function ActivityRows(form: Form, parseFloat: string -> Option<real>): (r: seq<StudyActivity>)
    ensures |r| == 7
    ensures forall j :: 0 <= j < 7 ==> r[j].hours == HoursOrZero(FormGet(form, "h_" + Days[j]), parseFloat)
  {
    ActivityRowsFor(form, Days, parseFloat)
  }

  // ---------------------------------------------------------------------
  // The student's stored rows
  // ---------------------------------------------------------------------

  /** SQLite stores an INTEGER column in 64 bits; binding a Python int outside
      this range raises OverflowError. */
  const Int64Min := -0x8000_0000_0000_0000
  const Int64Max := 0x7FFF_FFFF_FFFF_FFFF

  predicate FitsInt64(x: int) {
    Int64Min <= x <= Int64Max
  }

  /** Every score and match score of the new rows can be bound to its column. */
  predicate RowsStorable(courses: seq<StudentCourse>, careers: seq<CareerInterest>) {
    (forall i :: 0 <= i < |courses| ==> FitsInt64(courses[i].score.GetOr(0))) &&
    (forall i :: 0 <= i < |careers| ==> FitsInt64(careers[i].matchScore))
  }

  class StudentRecords {
    var university: Option<string>
    var department: Option<string>
    var currentCgpa: Option<real>
    var targetGpa: Option<real>
    var courses: seq<StudentCourse>
    var careers: seq<CareerInterest>
    var skills: seq<StudentSkill>
    var activities: seq<StudyActivity>

    constructor ()
      ensures university == None && department == None
      ensures currentCgpa == None && targetGpa == None
      ensures courses == [] && careers == [] && skills == [] && activities == []
    {
      university, department := None, None;
      currentCgpa, targetGpa := None, None;
      courses, careers, skills, activities := [], [], [], [];
    }

    /** The POST branch of update_progress. When either GPA field does not
        parse, or a parsed score or match does not fit its 64-bit column, the
        request fails before the commit and nothing is stored. */
    method UpdateProgress(form: Form, parseFloat: string -> Option<real>) returns (committed: bool)
      modifies this
      ensures committed <==>
        FormFloat(FormGet(form, "current_cgpa"), parseFloat).Some? &&
        FormFloat(FormGet(form, "target_gpa"), parseFloat).Some? &&
        RowsStorable(CourseRows(form, SubjectSlots), CareerRows(form, CareerSlots))
      ensures committed ==>
        university == FormGet(form, "university") && department == FormGet(form, "department") &&
        currentCgpa == FormFloat(FormGet(form, "current_cgpa"), parseFloat) &&
        targetGpa == FormFloat(FormGet(form, "target_gpa"), parseFloat)
      ensures committed ==> courses == CourseRows(form, SubjectSlots) && careers == CareerRows(form, CareerSlots)
      ensures committed ==> skills == SkillRows(form) && activities == ActivityRows(form, parseFloat)
      ensures !committed ==> unchanged(this)
    {
      var cgpa := FormFloat(FormGet(form, "current_cgpa"), parseFloat);
      var target := FormFloat(FormGet(form, "target_gpa"), parseFloat);
      if cgpa.None? || target.None? {
        return false;
      }
      var c := BuildCourses(form);
      var k := BuildCareers(form);
      if !RowsStorable(c, k) {
        return false;
      }
      var sk := BuildSkills(form);
      var act := BuildActivities(form, parseFloat);
      Commit(FormGet(form, "university"), FormGet(form, "department"), cgpa, target, c, k, sk, act);
      committed := true;
    }

    /** db.session.commit(): the new profile fields and rows replace the old ones. */
    method Commit(uni: Option<string>, dept: Option<string>, cgpa: Option<real>, target: Option<real>,
                  c: seq<StudentCourse>, k: seq<CareerInterest>, sk: seq<StudentSkill>, act: seq<StudyActivity>)
      modifies this
      ensures university == uni && department == dept && currentCgpa == cgpa && targetGpa == target
      ensures courses == c && careers == k && skills == sk && activities == act
    {
      university, department, currentCgpa, targetGpa := uni, dept, cgpa, target;
      courses, careers, skills, activities := c, k, sk, act;
    }
  }

  /** The course rows of update_progress that replace the deleted ones, one
      per filled subject slot. */
  method BuildCourses(form: Form) returns (rows: seq<StudentCourse>)
    ensures rows == CourseRows(form, SubjectSlots)
  {
    rows := [];
    for i := 1 to SubjectSlots + 1
      invariant rows == CourseRows(form, i - 1)
    {
      var sub := FormGet(form, "subject_" + NatToString(i));
      var score := FormGet(form, "score_" + NatToString(i));
      if Truthy(sub) && Truthy(score) {
        var scoreVal := ParseIntOrZero(score.value);
        var grade := Grade(scoreVal);
        rows := rows + [StudentCourse(sub.value, Some("strong"), Some(grade), Some(scoreVal))];
      }
    }
  }

  /** The career interests of update_progress that replace the deleted ones,
      one per filled role slot. */
  method BuildCareers(form: Form) returns (rows: seq<CareerInterest>)
    ensures rows == CareerRows(form, CareerSlots)
  {
    rows := [];
    for i := 1 to CareerSlots + 1
      invariant rows == CareerRows(form, i - 1)
    {
      var role := FormGet(form, "role_" + NatToString(i));
      var matchText := FormGet(form, "match_" + NatToString(i));
      if Truthy(role) && Truthy(matchText) {
        rows := rows + [CareerInterest(role.value, ParseIntOrZero(matchText.value))];
      }
    }
  }

  /** The skill rows of update_progress that replace the deleted ones, the
      known skills first and then the skills to learn. */
  method BuildSkills(form: Form) returns (rows: seq<StudentSkill>)
    ensures rows == SkillRows(form)
  {
    var known := Split(FormGetOr(form, "skills_known", ""), ',');
    var todo := Split(FormGetOr(form, "skills_todo", ""), ',');
    rows := AddSkillRows([], known, false);
    rows := AddSkillRows(rows, todo, true);
  }

  /** One skill row per stripped non-blank piece, appended to `rows` in order. */
  method AddSkillRows(rows: seq<StudentSkill>, pieces: seq<string>, isTarget: bool) returns (r: seq<StudentSkill>)
    ensures r == rows + SkillRowsFor(pieces, isTarget)
  {
    r := rows;
    for k := 0 to |pieces|
      invariant r == rows + SkillRowsFor(pieces[..k], isTarget)
    {
      assert pieces[..k + 1][..k] == pieces[..k];
      var name := Strip(pieces[k]);
      if name != "" {
        r := r + [StudentSkill(name, isTarget)];
      }
    }
    assert pieces[..|pieces|] == pieces;
  }

  /** The study activities of update_progress that replace the deleted ones,
      one per weekday. */
  method BuildActivities(form: Form, parseFloat: string -> Option<real>) returns (rows: seq<StudyActivity>)
    ensures rows == ActivityRows(form, parseFloat)
  {
    rows := [];
    for idx := 0 to |Days|
      invariant rows == ActivityRowsFor(form, Days[..idx], parseFloat)
    {
      assert Days[..idx + 1][..idx] == Days[..idx];
      var hVal := FormGet(form, "h_" + Days[idx]);
      rows := rows + [StudyActivity(HoursOrZero(hVal, parseFloat))];
    }
    assert Days[..|Days|] == Days;
  }

  // ---------------------------------------------------------------------
  // Properties of the stored rows
  // ---------------------------------------------------------------------

  /** A course slot stores a row exactly when both of its fields are non-empty;
      the row is a strong course carrying the parsed score and its grade. */
  lemma CourseSlotSpec(form: Form, i: nat)
    ensures var sub := FormGet(form, "subject_" + NatToString(i));
            var score := FormGet(form, "score_" + NatToString(i));
            var r := CourseSlot(form, i);
            (|r| == 1 <==> Truthy(sub) && Truthy(score)) && |r| <= 1 &&
            (|r| == 1 ==>
               r[0].courseName == sub.value && r[0].courseType == Some("strong") &&
               r[0].score == Some(ParseIntOrZero(score.value)) &&
               (r[0].grade == Some("A") <==> ParseIntOrZero(score.value) > 80))
  {
  }

  /** Every stored course is a strong course with a non-empty name whose grade
      is "A" exactly when its score is above 80. */
  lemma {:induction false} CourseRowsWellFormed(form: Form, n: nat)
    ensures forall c :: c in CourseRows(form, n) ==>
      c.courseName != "" && c.courseType == Some("strong") && c.score.Some? &&
      (c.grade == Some("A") <==> c.score.value > 80) && (c.grade == Some("A") || c.grade == Some("B"))
  {
    if n > 0 {
      CourseRowsWellFormed(form, n - 1);
    }
  }

  /** A score typed as a decimal integer within the digit limit is stored as
      that integer. */
  lemma ScoreRoundTrip(form: Form, i: nat, n: int)
    requires Truthy(FormGet(form, "subject_" + NatToString(i)))
    requires FormGet(form, "score_" + NatToString(i)) == Some(IntToString(n))
    requires |NatToString(if n < 0 then -n else n)| <= MaxStrDigits
    ensures CourseSlot(form, i)[0].score == Some(n)
  {
    ParseIntToString(n);
    assert IntToString(n) != "" by {
      if n < 0 { assert IntToString(n)[0] == '-'; } else { assert |NatToString(n)| >= 1; }
    }
  }

  /** A first-slot score beyond the 64-bit range cannot be stored, so the form
      is not committed. */
  lemma OversizedScoreNotStorable(form: Form, n: int)
    requires Truthy(FormGet(form, "subject_1"))
    requires FormGet(form, "score_1") == Some(IntToString(n))
    requires n > Int64Max && |NatToString(n)| <= MaxStrDigits
    ensures !RowsStorable(CourseRows(form, SubjectSlots), CareerRows(form, CareerSlots))
  {
    assert NatToString(1) == "1";
    assert "subject_" + NatToString(1) == "subject_1";
    assert "score_" + NatToString(1) == "score_1";
    ScoreRoundTrip(form, 1, n);
    var first := CourseSlot(form, 1);
    assert CourseRows(form, 1) == first;
    assert CourseRows(form, 2) == first + CourseSlot(form, 2);
    var rows := CourseRows(form, SubjectSlots);
    assert rows == first + CourseSlot(form, 2) + CourseSlot(form, 3);
    assert rows[0] == first[0];
  }

  /** Score text that is not an integer is stored as a score of 0. */
  lemma UnparsedTextIsZero(form: Form, i: nat)
    requires Truthy(FormGet(form, "subject_" + NatToString(i)))
    requires Truthy(FormGet(form, "score_" + NatToString(i)))
    requires ParseInt(FormGet(form, "score_" + NatToString(i)).value).None?
    ensures CourseSlot(form, i)[0].score == Some(0)
  {
  }

  /** A score typed as "\U{1C}85" is stored as 0: `int()` does not skip the
      file separator that `str.strip()` would. */
  lemma SeparatorScoreIsZero(form: Form, i: nat)
    requires Truthy(FormGet(form, "subject_" + NatToString(i)))
    requires FormGet(form, "score_" + NatToString(i)) == Some("\U{1C}85")
    ensures CourseSlot(form, i)[0].score == Some(0)
  {
    SeparatorExample();
    UnparsedTextIsZero(form, i);
  }

  /** A role slot stores a row exactly when both the role and the match text are
      non-empty; the row holds the role and the parsed match, 0 when `int()` raises. */
  lemma CareerSlotSpec(form: Form, i: nat)
    ensures var role := FormGet(form, "role_" + NatToString(i));
            var matchText := FormGet(form, "match_" + NatToString(i));
            var r := CareerSlot(form, i);
            (|r| == 1 <==> Truthy(role) && Truthy(matchText)) && |r| <= 1 &&
            (|r| == 1 ==> r[0] == CareerInterest(role.value, ParseIntOrZero(matchText.value)))
  {
  }

  /** Match text that is not an integer is stored as a match score of 0. */
  lemma UnparsedMatchIsZero(form: Form, i: nat)
    requires Truthy(FormGet(form, "role_" + NatToString(i)))
    requires Truthy(FormGet(form, "match_" + NatToString(i)))
    requires ParseInt(FormGet(form, "match_" + NatToString(i)).value).None?
    ensures CareerSlot(form, i)[0].matchScore == 0
  {
  }

  /** A day whose hours field is missing or blank is stored with 0.0 hours. */
  lemma BlankHoursAreZero(form: Form, parseFloat: string -> Option<real>, j: nat)
    requires j < 7
    requires "h_" + Days[j] !in form || Strip(form["h_" + Days[j]]) == ""
    ensures ActivityRows(form, parseFloat)[j].hours == 0.0
  {
  }

  /** A day whose hours text does not parse as a float is stored with 0.0 hours. */
  lemma UnparsedHoursAreZero(form: Form, parseFloat: string -> Option<real>, j: nat)
    requires j < 7
    requires "h_" + Days[j] in form && parseFloat(form["h_" + Days[j]]).None?
    ensures ActivityRows(form, parseFloat)[j].hours == 0.0
  {
  }

  /** Every career interest has a non-empty role. */
  lemma {:induction false} CareerRowsWellFormed(form: Form, n: nat)
    ensures forall c :: c in CareerRows(form, n) ==> c.roleName != ""
  {
    if n > 0 {
      CareerRowsWellFormed(form, n - 1);
    }
  }

  /** A stored skill name is a non-blank piece of the input: non-empty, free of
      commas, and without surrounding whitespace. */
  lemma {:induction false} SkillRowsWellFormed(pieces: seq<string>, isTarget: bool)
    requires forall i, k :: 0 <= i < |pieces| && 0 <= k < |pieces[i]| ==> pieces[i][k] != ','
    ensures forall s :: s in SkillRowsFor(pieces, isTarget) ==>
      s.isTarget == isTarget && s.skillName != "" && Strip(s.skillName) == s.skillName &&
      forall k :: 0 <= k < |s.skillName| ==> s.skillName[k] != ','
    decreases |pieces|
  {
    if pieces != [] {
      var n := |pieces| - 1;
      SkillRowsWellFormed(pieces[..n], isTarget);
      var last := Strip(pieces[n]);
      StripIdempotent(pieces[n]);
      forall k | 0 <= k < |last| ensures last[k] != ',' {
        assert last[k] == pieces[n][LeadingSpaces(pieces[n]) + k];
      }
    }
  }

  /** Every skill name the form stores is non-empty, free of commas and without
      surrounding whitespace, and carries its section's flag. */
  lemma StoredSkillsWellFormed(form: Form)
    ensures forall s :: s in SkillRows(form) ==>
      s.skillName != "" && Strip(s.skillName) == s.skillName &&
      (forall k :: 0 <= k < |s.skillName| ==> s.skillName[k] != ',')
  {
    var known := Split(FormGetOr(form, "skills_known", ""), ',');
    var todo := Split(FormGetOr(form, "skills_todo", ""), ',');
    SplitPiecesFree(FormGetOr(form, "skills_known", ""), ',');
    SplitPiecesFree(FormGetOr(form, "skills_todo", ""), ',');
    SkillRowsWellFormed(known, false);
    SkillRowsWellFormed(todo, true);
  }

  lemma {:induction false} NamesWhereAppend(a: seq<StudentSkill>, b: seq<StudentSkill>, target: bool)
    ensures NamesWhere(a + b, target) == NamesWhere(a, target) + NamesWhere(b, target)
    decreases |a|
  {
    if a == [] {
      assert a + b == b;
    } else {
      assert (a + b)[1..] == a[1..] + b;
      NamesWhereAppend(a[1..], b, target);
    }
  }

  lemma {:induction false} NamesOfSkillRows(pieces: seq<string>, isTarget: bool)
    ensures NamesWhere(SkillRowsFor(pieces, isTarget), isTarget) == KeptPieces(pieces)
    ensures NamesWhere(SkillRowsFor(pieces, isTarget), !isTarget) == []
    decreases |pieces|
  {
    if pieces != [] {
      var n := |pieces| - 1;
      var last := Strip(pieces[n]);
      var tail := if last != "" then [StudentSkill(last, isTarget)] else [];
      NamesOfSkillRows(pieces[..n], isTarget);
      NamesWhereAppend(SkillRowsFor(pieces[..n], isTarget), tail, isTarget);
      NamesWhereAppend(SkillRowsFor(pieces[..n], isTarget), tail, !isTarget);
    }
  }

  /** What the dashboard shows after the form is stored: skills_known lists the
      non-blank pieces of the skills_known field and skills_todo those of the
      skills_todo field, each stripped and in input order. */
  lemma DashboardShowsFormSkills(form: Form)
    ensures SkillsKnown(SkillRows(form)) == KeptPieces(Split(FormGetOr(form, "skills_known", ""), ','))
    ensures SkillsTodo(SkillRows(form)) == KeptPieces(Split(FormGetOr(form, "skills_todo", ""), ','))
  {
    var known := SkillRowsFor(Split(FormGetOr(form, "skills_known", ""), ','), false);
    var todo := SkillRowsFor(Split(FormGetOr(form, "skills_todo", ""), ','), true);
    NamesWhereAppend(known, todo, false);
    NamesWhereAppend(known, todo, true);
    NamesOfSkillRows(Split(FormGetOr(form, "skills_known", ""), ','), false);
    NamesOfSkillRows(Split(FormGetOr(form, "skills_todo", ""), ','), true);
  }

  /** Leaving target_gpa empty stores 0.0, which the dashboard treats as "no
      target": the goal probability is then 50 and the status At Risk. */
  lemma EmptyTargetGivesDefaultGoal(form: Form, parseFloat: string -> Option<real>, cgpa: Option<real>)
    requires !Truthy(FormGet(form, "target_gpa"))
    ensures FormFloat(FormGet(form, "target_gpa"), parseFloat) == Some(0.0)
    ensures GoalProbability(Some(FormFloat(FormGet(form, "target_gpa"), parseFloat)), cgpa) == 50
    ensures Status(GoalProbability(Some(FormFloat(FormGet(form, "target_gpa"), parseFloat)), cgpa)) == "At Risk"
  {
  }
}
