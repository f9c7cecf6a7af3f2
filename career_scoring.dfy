/** Career-interest scoring, top-field selection and skill recommendations
    (ml/analytics_engine.py). The random perturbation `np.random.randint(-5, 15)`
    is an injected sequence `noise`, one draw per field in table order. */
module CareerScoring {
  import opened Sequences
  import opened PyStrings
  import opened Records

  /** One entry of the career table: a field and the keywords that indicate it. */
  datatype CareerField = CareerField(name: string, keywords: seq<string>)

  /** The engine's ordered field table. */
  const CareerKeywords: seq<CareerField> := [
    CareerField("Software Development", ["Python", "Java", "C++", "JavaScript", "React", "Node.js",
                                         "Software Engineering", "Data Structures", "Algorithms"]),
    CareerField("Data Science", ["Python", "SQL", "Data Analysis", "Machine Learning", "Statistics",
                                 "Calculus", "Linear Algebra"]),
    CareerField("AI/ML", ["Python", "Machine Learning", "Artificial Intelligence", "Calculus",
                          "Linear Algebra", "Data Analysis"]),
    CareerField("Cloud Computing", ["AWS", "Docker", "Kubernetes", "Computer Networks",
                                    "Operating Systems", "Linux"]),
    CareerField("Cybersecurity", ["Cybersecurity", "Networks", "Cryptography", "Linux", "Operating Systems"]),
    CareerField("Web Development", ["JavaScript", "React", "Node.js", "HTML", "CSS", "Web Development"]),
    CareerField("DevOps", ["Docker", "Kubernetes", "AWS", "Linux", "Scripting", "CI/CD"])
  ]

  /** Points for a student skill equal to a keyword, and for a (strong course, keyword) substring match. */
  const SkillWeight := 15
  const CourseWeight := 10
  /** Bounds of `np.random.randint(-5, 15)`: -5 up to 14 inclusive. */
  const NoiseLow := -5
  const NoiseHigh := 14

  /** A score entry, in the order of the table. */
  datatype FieldScore = FieldScore(field: string, score: int)

  /** One noise draw per field, each within randint's range. */
  predicate ValidNoise(noise: seq<int>) {
    |noise| == |CareerKeywords| && forall i :: 0 <= i < |noise| ==> NoiseLow <= noise[i] <= NoiseHigh
  }

  /** Number of student skills (with repetition) that equal one of the keywords. */
  function SkillHits(skills: seq<string>, keywords: seq<string>): nat {
    if skills == [] then 0
    else SkillHits(skills[..|skills| - 1], keywords) + (if skills[|skills| - 1] in keywords then 1 else 0)
  }

  /** Number of keywords that occur as a substring of one course name. */
  function KeywordHits(course: string, keywords: seq<string>): nat {
    if keywords == [] then 0
    else KeywordHits(course, keywords[..|keywords| - 1]) +
         (if IsSubstring(keywords[|keywords| - 1], course) then 1 else 0)
  }

  /** Number of (course, keyword) pairs with the keyword a substring of the course name. */
  function CourseHits(courses: seq<string>, keywords: seq<string>): nat {
    if courses == [] then 0
    else CourseHits(courses[..|courses| - 1], keywords) + KeywordHits(courses[|courses| - 1], keywords)
  }

  /** The accumulated score of a field before the cap. */
  function RawScore(skills: seq<string>, strongCourses: seq<string>, keywords: seq<string>): nat {
    SkillWeight * SkillHits(skills, keywords) + CourseWeight * CourseHits(strongCourses, keywords)
  }

  /** Cap at 100, add the perturbation, cap at 100 again, floor at 0. */
  function FinalScore(raw: int, noise: int): (r: int)
    ensures 0 <= r <= 100
    ensures NoiseLow <= noise <= NoiseHigh && raw >= 0 ==>
      (if raw < 100 then raw else 100) + NoiseLow <= r &&
      r <= (if raw < 100 then raw else 100) + NoiseHigh
  {
    var capped := if raw < 100 then raw else 100;
    var perturbed := if 100 < capped + noise then 100 else capped + noise;
    if 0 < perturbed then perturbed else 0
  }

  /** The score list analyze_career_interests returns, as a function of the inputs. */
  function InterestScores(skills: seq<string>, strongCourses: seq<string>, noise: seq<int>): (r: seq<FieldScore>)
    requires |noise| == |CareerKeywords|
    ensures |r| == |CareerKeywords|
    ensures forall i :: 0 <= i < |r| ==> r[i].field == CareerKeywords[i].name
    ensures forall i :: 0 <= i < |r| ==> 0 <= r[i].score <= 100
  {
    seq(|CareerKeywords|, i requires 0 <= i < |CareerKeywords| =>
      FieldScore(CareerKeywords[i].name,
                 FinalScore(RawScore(skills, strongCourses, CareerKeywords[i].keywords), noise[i])))
  }

  /** `[c.course_name for c in courses if c.course_type == 'strong']`. */
  function StrongCourseNames(courses: seq<StudentCourse>): seq<string> {
    CourseNames(CoursesOfType(courses, "strong"))
  }

  /** analyze_career_interests: the student's skill names and strong course
      names, scored by one pass over the table. */
  method AnalyzeCareerInterests(skills: seq<StudentSkill>, courses: seq<StudentCourse>, noise: seq<int>)
    returns (scores: seq<FieldScore>)
    requires |noise| == |CareerKeywords|
    ensures scores == InterestScores(SkillNames(skills), StrongCourseNames(courses), noise)
  {
    var studentSkills := SkillNames(skills);
    var strongCourses := StrongCourseNames(courses);
    scores := ScoreFields(studentSkills, strongCourses, noise);
  }

  /** The loop over the table, one noise draw per field. */
  method ScoreFields(studentSkills: seq<string>, strongCourses: seq<string>, noise: seq<int>)
    returns (scores: seq<FieldScore>)
    requires |noise| == |CareerKeywords|
    ensures scores == InterestScores(studentSkills, strongCourses, noise)
  {
    scores := [];
    for f := 0 to |CareerKeywords|
      invariant |scores| == f
      invariant forall i :: 0 <= i < f ==>
        scores[i] == InterestScores(studentSkills, strongCourses, noise)[i]
    {
      var score := AccumulateScore(studentSkills, strongCourses, CareerKeywords[f].keywords);
      var normalized := if score < 100 then score else 100;
      normalized := if 100 < normalized + noise[f] then 100 else normalized + noise[f];
      scores := scores + [FieldScore(CareerKeywords[f].name, if 0 < normalized then normalized else 0)];
    }
  }

  /** The body of the per-field loop: 15 per matching skill, then 10 per
      (strong course, keyword) substring match. */
  method AccumulateScore(studentSkills: seq<string>, strongCourses: seq<string>, keywords: seq<string>)
    returns (score: int)
    ensures score == RawScore(studentSkills, strongCourses, keywords)
  {
    score := 0;
    for j := 0 to |studentSkills|
      invariant score == SkillWeight * SkillHits(studentSkills[..j], keywords)
    {
      assert studentSkills[..j + 1][..j] == studentSkills[..j];
      if studentSkills[j] in keywords {
        score := score + SkillWeight;
      }
    }
    assert studentSkills[..|studentSkills|] == studentSkills;
    for c := 0 to |strongCourses|
      invariant score == SkillWeight * SkillHits(studentSkills, keywords) +
                         CourseWeight * CourseHits(strongCourses[..c], keywords)
    {
      assert strongCourses[..c + 1][..c] == strongCourses[..c];
      var course := strongCourses[c];
      for k := 0 to |keywords|
        invariant score == SkillWeight * SkillHits(studentSkills, keywords) +
                           CourseWeight * CourseHits(strongCourses[..c], keywords) +
                           CourseWeight * KeywordHits(course, keywords[..k])
      {
        assert keywords[..k + 1][..k] == keywords[..k];
        if IsSubstring(keywords[k], course) {
          score := score + CourseWeight;
        }
      }
      assert keywords[..|keywords|] == keywords;
    }
    assert strongCourses[..|strongCourses|] == strongCourses;
  }

  // ---------------------------------------------------------------------
  // Properties of the scores
  // ---------------------------------------------------------------------

  /** The table names each field once, so the score map has one entry per field. */
  lemma FieldNamesDistinct()
    ensures forall i, j :: 0 <= i < j < |CareerKeywords| ==> CareerKeywords[i].name != CareerKeywords[j].name
  {
  }

  /** The skill match count is the number of skill positions whose name is a keyword. */
  lemma {:induction false} SkillHitsCounts(skills: seq<string>, keywords: seq<string>)
    ensures SkillHits(skills, keywords) == |set i | 0 <= i < |skills| && skills[i] in keywords|
    decreases |skills|
  {
    if skills != [] {
      var n := |skills| - 1;
      var p := skills[..n];
      SkillHitsCounts(p, keywords);
      var before := set i | 0 <= i < n && p[i] in keywords;
      var after := set i | 0 <= i < |skills| && skills[i] in keywords;
      if skills[n] in keywords {
        assert after == before + {n};
      } else {
        assert after == before;
      }
    }
  }

  /** Each course name contributes the number of keyword positions found in it. */
  lemma {:induction false} KeywordHitsCounts(course: string, keywords: seq<string>)
    ensures KeywordHits(course, keywords) == |set j | 0 <= j < |keywords| && IsSubstring(keywords[j], course)|
    decreases |keywords|
  {
    if keywords != [] {
      var n := |keywords| - 1;
      var p := keywords[..n];
      KeywordHitsCounts(course, p);
      var before := set j | 0 <= j < n && IsSubstring(p[j], course);
      var after := set j | 0 <= j < |keywords| && IsSubstring(keywords[j], course);
      if IsSubstring(keywords[n], course) {
        assert after == before + {n};
      } else {
        assert after == before;
      }
    }
  }

  /** The (course, keyword) pairs of course position `n` whose keyword occurs in the course. */
  function PairsAt(n: nat, course: string, keywords: seq<string>): set<(int, int)> {
    set j | 0 <= j < |keywords| && IsSubstring(keywords[j], course) :: (n, j)
  }

  lemma {:induction false} PairsAtCount(n: nat, course: string, keywords: seq<string>)
    ensures |PairsAt(n, course, keywords)| == KeywordHits(course, keywords)
    decreases |keywords|
  {
    if keywords != [] {
      var m := |keywords| - 1;
      var p := keywords[..m];
      PairsAtCount(n, course, p);
      if IsSubstring(keywords[m], course) {
        assert PairsAt(n, course, keywords) == PairsAt(n, course, p) + {(n, m)};
      } else {
        assert PairsAt(n, course, keywords) == PairsAt(n, course, p);
      }
    }
  }

  /** The course match count is the number of (course position, keyword position)
      pairs whose keyword occurs in the course name. */
  lemma {:induction false} CourseHitsCounts(courses: seq<string>, keywords: seq<string>)
    ensures CourseHits(courses, keywords) ==
      |set i, j | 0 <= i < |courses| && 0 <= j < |keywords| && IsSubstring(keywords[j], courses[i]) :: (i, j)|
    decreases |courses|
  {
    if courses != [] {
      var n := |courses| - 1;
      var p := courses[..n];
      CourseHitsCounts(p, keywords);
      var before := set i, j | 0 <= i < |p| && 0 <= j < |keywords| && IsSubstring(keywords[j], p[i]) :: (i, j);
      var after := set i, j | 0 <= i < |courses| && 0 <= j < |keywords| &&
                              IsSubstring(keywords[j], courses[i]) :: (i, j);
      var row := PairsAt(n, courses[n], keywords);
      assert after == before + row;
      assert before !! row;
      PairsAtCount(n, courses[n], keywords);
    }
  }

  /** Every field's score lies within the perturbation band around the capped raw score. */
  lemma ScoreWithinNoiseBand(skills: seq<string>, strongCourses: seq<string>, noise: seq<int>, i: nat)
    requires ValidNoise(noise)
    requires i < |CareerKeywords|
    ensures var raw := RawScore(skills, strongCourses, CareerKeywords[i].keywords);
            var capped := if raw < 100 then raw else 100;
            var s := InterestScores(skills, strongCourses, noise)[i].score;
            0 <= s <= 100 && capped - 5 <= s <= capped + 14
  {
  }

  /** Adding or removing a course whose type is not 'strong' changes no score. */
  lemma NonStrongCourseIgnored(skills: seq<StudentSkill>, before: seq<StudentCourse>, c: StudentCourse,
                               after: seq<StudentCourse>, noise: seq<int>)
    requires |noise| == |CareerKeywords|
    requires !HasType(c, "strong")
    ensures InterestScores(SkillNames(skills), StrongCourseNames(before + [c] + after), noise) ==
            InterestScores(SkillNames(skills), StrongCourseNames(before + after), noise)
  {
    FilterRejected(before, c, after, c => HasType(c, "strong"));
  }

  /** A student with skills Python and SQL and no strong course scores 30 before
      perturbation in Data Science. */
  lemma DataScienceExample()
    ensures RawScore(["Python", "SQL"], [], CareerKeywords[1].keywords) == 30
  {
    var kw := CareerKeywords[1].keywords;
    assert "Python" in kw by { assert kw[0] == "Python"; }
    assert "SQL" in kw by { assert kw[1] == "SQL"; }
    assert ["Python", "SQL"][..1] == ["Python"];
    assert ["Python"][..0] == [];
    assert SkillHits(["Python"], kw) == 1;
    assert SkillHits(["Python", "SQL"], kw) == 2;
  }

  // ---------------------------------------------------------------------
  // Top field: `max(career_scores, key=career_scores.get)`
  // ---------------------------------------------------------------------

  /** Index of the first maximal score, scanning in table order and replacing
      the candidate only on a strictly greater score. */
  function FirstMaxIndex(scores: seq<FieldScore>): (k: nat)
    requires |scores| > 0
    ensures k < |scores|
    ensures forall j :: 0 <= j < |scores| ==> scores[j].score <= scores[k].score
    ensures forall j :: 0 <= j < k ==> scores[j].score < scores[k].score
  {
    if |scores| == 1 then 0
    else
      var k := FirstMaxIndex(scores[..|scores| - 1]);
      if scores[|scores| - 1].score > scores[k].score then |scores| - 1 else k
  }

  /** The name of the top field. */
  function TopCareer(scores: seq<FieldScore>): string
    requires |scores| > 0
  {
    scores[FirstMaxIndex(scores)].field
  }

  // ---------------------------------------------------------------------
  // Recommendations
  // ---------------------------------------------------------------------

  /** `self.career_keywords.get(field, [])`. */
  function KeywordsOf(field: string): (r: seq<string>)
    ensures forall i :: 0 <= i < |CareerKeywords| && CareerKeywords[i].name == field ==>
      r == CareerKeywords[i].keywords
    ensures (forall i :: 0 <= i < |CareerKeywords| ==> CareerKeywords[i].name != field) ==> r == []
  {
    FieldNamesDistinct();
    LookUp(CareerKeywords, field)
  }

  function LookUp(table: seq<CareerField>, field: string): (r: seq<string>)
    ensures forall i :: (0 <= i < |table| && table[i].name == field &&
      (forall j :: 0 <= j < i ==> table[j].name != field)) ==> r == table[i].keywords
    ensures (forall i :: 0 <= i < |table| ==> table[i].name != field) ==> r == []
  {
    if table == [] then []
    else if table[0].name == field then table[0].keywords
    else LookUp(table[1..], field)
  }

  /** `[skill for skill in needed if skill not in known]`. */
  function MissingSkills(needed: seq<string>, known: seq<string>): seq<string> {
    Filter(needed, k => k !in known)
  }

  /** The recommendation list: the missing keywords of the top field, at most five. */
  function Recommendations(topField: string, known: seq<string>): seq<string> {
    Take(MissingSkills(KeywordsOf(topField), known), 5)
  }

  /** What the recommendation list is: at most five keywords of the field that the
      student does not have, in the field's own order, and all of them when there
      are at most five. */
  lemma RecommendationsSpec(topField: string, known: seq<string>)
    ensures var r := Recommendations(topField, known);
      |r| <= 5 &&
      (forall i :: 0 <= i < |r| ==> r[i] in KeywordsOf(topField) && r[i] !in known) &&
      IsSubsequence(r, KeywordsOf(topField)) &&
      r == MissingSkills(KeywordsOf(topField), known)[..|r|] &&
      (|MissingSkills(KeywordsOf(topField), known)| <= 5 ==> r == MissingSkills(KeywordsOf(topField), known))
  {
    var needed := KeywordsOf(topField);
    var missing := MissingSkills(needed, known);
    var r := Recommendations(topField, known);
    FilterIsSubsequence(needed, k => k !in known);
    PrefixOfSubsequence(missing, needed, |r|);
  }

  /** Fewer than five recommendations means every missing keyword was recommended. */
  lemma RecommendationsComplete(topField: string, known: seq<string>, k: string)
    ensures |Recommendations(topField, known)| < 5 && k in KeywordsOf(topField) && k !in known ==>
      k in Recommendations(topField, known)
  {
    var needed := KeywordsOf(topField);
    if |Recommendations(topField, known)| < 5 && k in needed && k !in known {
      var i :| 0 <= i < |needed| && needed[i] == k;
    }
  }

  /** Keywords Python, SQL, Statistics with known skill Python give SQL then Statistics. */
  lemma MissingSkillsExample()
    ensures Take(MissingSkills(["Python", "SQL", "Statistics"], ["Python"]), 5) == ["SQL", "Statistics"]
  {
    var needed := ["Python", "SQL", "Statistics"];
    assert needed[1..] == ["SQL", "Statistics"];
    assert needed[1..][1..] == ["Statistics"];
    assert MissingSkills(["Statistics"], ["Python"]) == ["Statistics"];
    assert MissingSkills(["SQL", "Statistics"], ["Python"]) == ["SQL", "Statistics"];
  }
}
