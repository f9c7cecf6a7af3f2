/** The insight report (AnalyticsEngine.generate_insight_report) and the
    AnalyticsResult table it writes: one snapshot per student, fetched or
    created, then overwritten field by field. */
module InsightReport {
  import opened Wrappers
  import opened Sequences
  import opened Records
  import opened GpaPrediction
  import opened CareerScoring

  /** An AnalyticsResult row. `lastUpdated` is set only when the row is inserted. */
  datatype Snapshot = Snapshot(
    predictedNextGpa: real,
    careerPredictions: seq<FieldScore>,
    skillRecommendations: seq<string>,
    lastUpdated: int)

  /** What the engine reads for one student. */
  datatype StudentData = StudentData(
    semesterGpas: Option<seq<real>>, skills: seq<StudentSkill>, courses: seq<StudentCourse>)

  /** The dictionary generate_insight_report returns. */
  datatype Report = Report(predictedGpa: real, careerScores: seq<FieldScore>, recommendations: seq<string>)

  /** The report as a function of the student's data and the noise draws. */
  function ReportFor(data: StudentData, noise: seq<int>): (r: Report)
    requires |noise| == |CareerKeywords|
    ensures |r.careerScores| == |CareerKeywords|
    ensures |r.recommendations| <= 5
  {
    var scores := InterestScores(SkillNames(data.skills), StrongCourseNames(data.courses), noise);
    Report(PredictNextGpa(data.semesterGpas), scores,
           Recommendations(TopCareer(scores), SkillNames(data.skills)))
  }

  /** Fetch-or-create followed by field assignment, on the table as a map from student id. */
  function Upsert(store: map<int, Snapshot>, studentId: int, report: Report, now: int): (r: map<int, Snapshot>)
    ensures r.Keys == store.Keys + {studentId}
    ensures forall id :: id in store && id != studentId ==> r[id] == store[id]
    ensures r[studentId].predictedNextGpa == report.predictedGpa
    ensures r[studentId].careerPredictions == report.careerScores
    ensures r[studentId].skillRecommendations == report.recommendations
    ensures r[studentId].lastUpdated == if studentId in store then store[studentId].lastUpdated else now
  {
    var row := if studentId in store then store[studentId] else Snapshot(0.0, [], [], now);
    store[studentId := row.(predictedNextGpa := report.predictedGpa,
                            careerPredictions := report.careerScores,
                            skillRecommendations := report.recommendations)]
  }

  /** Regenerating keeps a single snapshot: the second report replaces the first
      one's values and the first insertion time stays. */
  lemma UpsertTwice(store: map<int, Snapshot>, studentId: int, first: Report, second: Report, t1: int, t2: int)
    ensures Upsert(Upsert(store, studentId, first, t1), studentId, second, t2) == Upsert(store, studentId, second, t1)
  {
    var a := Upsert(Upsert(store, studentId, first, t1), studentId, second, t2);
    var b := Upsert(store, studentId, second, t1);
    assert a.Keys == b.Keys;
    forall id | id in a ensures a[id] == b[id] {
    }
  }

  /** The AnalyticsResult store. */
  class AnalyticsStore {
    var results: map<int, Snapshot>

    constructor ()
      ensures results == map[]
    {
      results := map[];
    }

    /** generate_insight_report(student_id) with the clock reading `now` used
        as the insert default of last_updated. */
    method GenerateInsightReport(studentId: int, data: StudentData, noise: seq<int>, now: int)
      returns (report: Report)
      requires |noise| == |CareerKeywords|
      modifies this
      ensures report == ReportFor(data, noise)
      ensures results == Upsert(old(results), studentId, report, now)
    {
      var predictedGpa := PredictNextGpa(data.semesterGpas);
      var careerScores := AnalyzeCareerInterests(data.skills, data.courses, noise);

      var analytics: Snapshot;
      if studentId in results {
        analytics := results[studentId];
      } else {
        analytics := Snapshot(0.0, [], [], now);
      }
      analytics := analytics.(predictedNextGpa := predictedGpa, careerPredictions := careerScores);

      var topCareer := TopCareer(careerScores);
      var neededSkills := KeywordsOf(topCareer);
      var studentSkills := SkillNames(data.skills);
      var recommendations := Take(MissingSkills(neededSkills, studentSkills), 5);
      analytics := analytics.(skillRecommendations := recommendations);

      results := results[studentId := analytics];
      report := Report(predictedGpa, careerScores, recommendations);
    }
  }

  // ---------------------------------------------------------------------
  // Properties of one report
  // ---------------------------------------------------------------------

  /** The recommended skills are keywords of a top-scoring field, and that field
      is the first in table order with the maximal score. */
  lemma ReportTopField(data: StudentData, noise: seq<int>)
    requires |noise| == |CareerKeywords|
    ensures var r := ReportFor(data, noise);
      var k := FirstMaxIndex(r.careerScores);
      (forall j :: 0 <= j < |r.careerScores| ==> r.careerScores[j].score <= r.careerScores[k].score) &&
      (forall j :: 0 <= j < k ==> r.careerScores[j].score < r.careerScores[k].score) &&
      (forall i :: 0 <= i < |r.recommendations| ==>
         r.recommendations[i] in CareerKeywords[k].keywords &&
         r.recommendations[i] !in SkillNames(data.skills))
  {
    var r := ReportFor(data, noise);
    var k := FirstMaxIndex(r.careerScores);
    var top := TopCareer(r.careerScores);
    assert top == CareerKeywords[k].name;
    FieldNamesDistinct();
    assert KeywordsOf(top) == CareerKeywords[k].keywords;
    RecommendationsSpec(top, SkillNames(data.skills));
  }

  lemma {:induction false} NothingKnownMissesAll(needed: seq<string>)
    ensures MissingSkills(needed, []) == needed
    decreases |needed|
  {
    if needed != [] {
      NothingKnownMissesAll(needed[1..]);
      assert [needed[0]] + needed[1..] == needed;
    }
  }

  /** With no skills and no strong courses every raw score is 0, so each final
      score is the noise draw floored at 0. */
  lemma EmptyStudentScores(noise: seq<int>)
    requires ValidNoise(noise)
    ensures forall i :: 0 <= i < |CareerKeywords| ==>
      InterestScores([], [], noise)[i].score == (if noise[i] > 0 then noise[i] else 0)
  {
    forall i | 0 <= i < |CareerKeywords|
      ensures InterestScores([], [], noise)[i].score == (if noise[i] > 0 then noise[i] else 0)
    {
      assert RawScore([], [], CareerKeywords[i].keywords) == 0;
    }
  }

  /** Every field of the table lists at least five keywords. */
  lemma FieldsHaveFiveKeywords()
    ensures forall i :: 0 <= i < |CareerKeywords| ==> |CareerKeywords[i].keywords| >= 5
  {
  }

  /** A student with no history, no skills and no courses still gets a full
      report: GPA 0.0, every score the floored noise draw, and the first five
      keywords of the top field as recommendations. */
  lemma EmptyStudentReport(noise: seq<int>)
    requires ValidNoise(noise)
    ensures var r := ReportFor(StudentData(None, [], []), noise);
      r.predictedGpa == 0.0 &&
      (forall i :: 0 <= i < |r.careerScores| ==> r.careerScores[i].score == (if noise[i] > 0 then noise[i] else 0)) &&
      |r.recommendations| == 5 &&
      r.recommendations == KeywordsOf(TopCareer(r.careerScores))[..5]
  {
    assert SkillNames([]) == [];
    assert StrongCourseNames([]) == [] by {
      assert CoursesOfType([], "strong") == [];
    }
    var scores := InterestScores([], [], noise);
    EmptyStudentScores(noise);
    var k := FirstMaxIndex(scores);
    assert TopCareer(scores) == CareerKeywords[k].name;
    NoSkillsRecommendations(k);
  }

  /** With no skills, the recommendations for a field are its first five keywords. */
  lemma NoSkillsRecommendations(k: nat)
    requires k < |CareerKeywords|
    ensures |Recommendations(CareerKeywords[k].name, [])| == 5
    ensures Recommendations(CareerKeywords[k].name, []) == KeywordsOf(CareerKeywords[k].name)[..5]
  {
    var kw := CareerKeywords[k].keywords;
    FieldNamesDistinct();
    assert KeywordsOf(CareerKeywords[k].name) == kw;
    FieldsHaveFiveKeywords();
    NothingKnownMissesAll(kw);
  }
}
