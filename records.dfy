/** The stored rows the analytics and dashboard code read, reduced to the
    columns they use (models.py). */
module Records {
  import opened Wrappers
  import opened Sequences

  /** A StudentSkill row: `isTarget` marks a skill the student wants to learn. */
  datatype StudentSkill = StudentSkill(skillName: string, isTarget: bool)

  /** A StudentCourse row; `courseType` is 'strong', 'weak', 'average' or missing. */
  datatype StudentCourse = StudentCourse(
    courseName: string, courseType: Option<string>, grade: Option<string>, score: Option<int>)

  /** A CareerInterest row. */
  datatype CareerInterest = CareerInterest(roleName: string, matchScore: int)

  /** A StudyActivity row, without its date. */
  datatype StudyActivity = StudyActivity(hours: real)

  /** `[s.skill_name for s in skills]`. */
  function SkillNames(skills: seq<StudentSkill>): (r: seq<string>)
    ensures |r| == |skills|
    ensures forall i :: 0 <= i < |r| ==> r[i] == skills[i].skillName
  {
    if skills == [] then [] else [skills[0].skillName] + SkillNames(skills[1..])
  }

  /** `[c.course_name for c in courses]`. */
  function CourseNames(courses: seq<StudentCourse>): (r: seq<string>)
    ensures |r| == |courses|
    ensures forall i :: 0 <= i < |r| ==> r[i] == courses[i].courseName
  {
    if courses == [] then [] else [courses[0].courseName] + CourseNames(courses[1..])
  }

  /** `c.course_type == t`; a missing type equals no string. */
  predicate HasType(c: StudentCourse, t: string) {
    c.courseType == Some(t)
  }

  /** `[c for c in courses if c.course_type == t]`. */
  function CoursesOfType(courses: seq<StudentCourse>, t: string): seq<StudentCourse> {
    Filter(courses, c => HasType(c, t))
  }

  /** A type filter keeps exactly the courses of that type, each as often as it
      occurs, in their order. */
  lemma CoursesOfTypeSpec(courses: seq<StudentCourse>, t: string)
    ensures forall c :: c in CoursesOfType(courses, t) <==> c in courses && HasType(c, t)
    ensures IsSubsequence(CoursesOfType(courses, t), courses)
    ensures forall c :: multiset(CoursesOfType(courses, t))[c] == if HasType(c, t) then multiset(courses)[c] else 0
  {
    var r := CoursesOfType(courses, t);
    forall c | c in r ensures c in courses && HasType(c, t) {
      var i :| 0 <= i < |r| && r[i] == c;
    }
    forall c | c in courses && HasType(c, t) ensures c in r {
      var i :| 0 <= i < |courses| && courses[i] == c;
    }
    FilterIsSubsequence(courses, c => HasType(c, t));
    FilterMultiset(courses, c => HasType(c, t));
  }

  /** The 'strong' and 'weak' lists the analytics API returns never share a row. */
  lemma StrongWeakDisjoint(courses: seq<StudentCourse>)
    ensures forall c :: c in CoursesOfType(courses, "strong") ==> c !in CoursesOfType(courses, "weak")
  {
    CoursesOfTypeSpec(courses, "strong");
    CoursesOfTypeSpec(courses, "weak");
  }
}
