/** Per-student progress statistics (student-insight-system/dashboard/student_stats.py):
    attendance percentage and trend, assignment completion, quiz and exam
    averages, and the overall performance trend. The database queries become
    input sequences; percentages are exact reals, without the rounding to one
    decimal place. */
module StudentStats {
  import opened Wrappers
  import opened Sequences
  import opened PyStrings
  import opened GpaPrediction

  datatype Trend = Improving | Declining | Stable | Unknown

  /** The shared classification rule: more than 5 above the earlier value is
      improving, more than 5 below it is declining, anything else is stable. */
  function Classify(recent: real, previous: real): (t: Trend)
    ensures t != Unknown
  {
    if recent > previous + 5.0 then Improving
    else if recent < previous - 5.0 then Declining
    else Stable
  }

  /** Exactly one of the three verdicts holds, and each has its own range. */
  lemma ClassifyCases(recent: real, previous: real)
    ensures Classify(recent, previous) == Improving <==> recent - previous > 5.0
    ensures Classify(recent, previous) == Declining <==> previous - recent > 5.0
    ensures Classify(recent, previous) == Stable <==> -5.0 <= recent - previous <= 5.0
  {
  }

  /** Arithmetic mean, 0.0 for an empty list (`sum(xs) / len(xs) if xs else 0`). */
  function Mean(xs: seq<real>): real {
    if xs == [] then 0.0 else Sum(xs) / |xs| as real
  }

  lemma {:induction false} SumBounds(xs: seq<real>, lo: real, hi: real)
    requires forall i :: 0 <= i < |xs| ==> lo <= xs[i] <= hi
    ensures lo * |xs| as real <= Sum(xs) <= hi * |xs| as real
    decreases |xs|
  {
    if xs != [] {
      SumBounds(xs[..|xs| - 1], lo, hi);
    }
  }

  /** Dividing by a positive count keeps a value between the scaled bounds. */
  lemma DivBounds(s: real, n: real, lo: real, hi: real)
    requires 0.0 < n
    requires lo * n <= s <= hi * n
    ensures lo <= s / n <= hi
  {
    var q := s / n;
    assert q * n == s;
    assert (q - lo) * n >= 0.0;
    assert (hi - q) * n >= 0.0;
  }

  /** A mean of values in [lo, hi] lies in [lo, hi]. */
  lemma MeanBounds(xs: seq<real>, lo: real, hi: real)
    requires xs != []
    requires forall i :: 0 <= i < |xs| ==> lo <= xs[i] <= hi
    ensures lo <= Mean(xs) <= hi
  {
    SumBounds(xs, lo, hi);
    DivBounds(Sum(xs), |xs| as real, lo, hi);
  }

  // ---------------------------------------------------------------------
  // Attendance
  // ---------------------------------------------------------------------

  datatype AttendanceRecord = AttendanceRecord(date: int, status: string)

  predicate IsPresent(r: AttendanceRecord) {
    r.status == "present"
  }

  /** The attendance summary. `recent` is absent from the result for a student
      without records. */
  datatype AttendanceStats = AttendanceStats(
    percentage: real, trend: Trend, total: nat, present: nat, recent: Option<seq<AttendanceRecord>>)

  /** Present records among ten, as a percentage. */
  function TenPercent(records: seq<AttendanceRecord>): real {
    (Count(records, IsPresent) as real / 10.0) * 100.0
  }

  /** The trend of the 20 newest records: the newest ten against the ten before. */
  function AttendanceTrend(newest: seq<AttendanceRecord>): Trend {
    if |newest| >= 20 then Classify(TenPercent(newest[..10]), TenPercent(newest[10..20]))
    else Unknown
  }

  /** The quotient of two counts: it scales back to `part`, it is at most 1
      when `part <= whole`, and it is 1 exactly when they are equal. */
  lemma Quotient(part: nat, whole: nat)
    requires 0 < whole
    ensures (part as real / whole as real) * whole as real == part as real
    ensures 0.0 <= part as real / whole as real
    ensures part <= whole ==> part as real / whole as real <= 1.0
    ensures part as real / whole as real == 1.0 <==> part == whole
  {
    var q := part as real / whole as real;
    assert q * whole as real == part as real;
    if part <= whole {
      assert (1.0 - q) * whole as real >= 0.0;
    }
  }

  /** `(part / whole) * 100`: the share of `part` in `whole` as a percentage. */
  function Percent(part: nat, whole: nat): (p: real)
    requires 0 < whole
    ensures 0.0 <= p
    ensures p * whole as real == part as real * 100.0
    ensures part <= whole ==> p <= 100.0
    ensures p == 100.0 <==> part == whole
  {
    Quotient(part, whole);
    (part as real / whole as real) * 100.0
  }

  /** Shares of the same whole add up. */
  lemma PercentAdd(a: nat, b: nat, whole: nat)
    requires 0 < whole
    ensures Percent(a, whole) + Percent(b, whole) == Percent(a + b, whole)
  {
    var pa, pb, pab := Percent(a, whole), Percent(b, whole), Percent(a + b, whole);
    var w := whole as real;
    assert (pa + pb) * w == pab * w;
    assert (pa + pb - pab) * w == 0.0;
  }

  /** calculate_attendance_stats over the student's records given newest first. */
  function AttendanceStatsOf(records: seq<AttendanceRecord>): (r: AttendanceStats)
    ensures records == [] ==> r == AttendanceStats(0.0, Unknown, 0, 0, None)
    ensures r.total == |records| && r.present == Count(records, IsPresent) && r.present <= r.total
    ensures 0.0 <= r.percentage <= 100.0
    ensures records != [] ==> r.percentage == Percent(r.present, r.total)
    ensures |records| < 20 ==> r.trend == Unknown
    ensures records != [] ==> r.recent == Some(Take(records, 5))
  {
    if records == [] then AttendanceStats(0.0, Unknown, 0, 0, None)
    else
      var total := |records|;
      var present := Count(records, IsPresent);
      var newest := Take(records, 20);
      assert Take(newest, 5) == Take(records, 5);
      AttendanceStats(Percent(present, total), AttendanceTrend(newest),
                      total, present, Some(Take(newest, 5)))
  }

  /** Both percentages are multiples of 10, so the trend just compares the two
      present counts: improving when the newer ten have more, declining when
      fewer, stable when equal. */
  lemma AttendanceTrendByCounts(records: seq<AttendanceRecord>)
    requires |records| >= 20
    ensures var a, b := Count(records[..10], IsPresent), Count(records[10..20], IsPresent);
      var t := AttendanceStatsOf(records).trend;
      (t == Improving <==> a > b) && (t == Declining <==> a < b) && (t == Stable <==> a == b)
  {
    var newest := Take(records, 20);
    assert newest[..10] == records[..10];
    assert newest[10..20] == records[10..20];
    var a, b := Count(records[..10], IsPresent), Count(records[10..20], IsPresent);
    assert TenPercent(records[..10]) == 10.0 * a as real;
    assert TenPercent(records[10..20]) == 10.0 * b as real;
  }

  /** The percentage is 100 exactly when every record is present. */
  lemma FullAttendance(records: seq<AttendanceRecord>)
    requires records != []
    ensures AttendanceStatsOf(records).percentage == 100.0 <==>
      forall i :: 0 <= i < |records| ==> IsPresent(records[i])
  {
    CountAll(records, IsPresent);
  }

  // ---------------------------------------------------------------------
  // Assignments
  // ---------------------------------------------------------------------

  datatype Submission = Submission(status: string, score: Option<real>)

  predicate IsCompleted(s: Submission) {
    s.status == "submitted" || s.status == "late"
  }

  /** The submitted scores that are not None, in order. */
  function Scores(subs: seq<Submission>): seq<real> {
    if subs == [] then []
    else Scores(subs[..|subs| - 1]) +
         (if subs[|subs| - 1].score.Some? then [subs[|subs| - 1].score.value] else [])
  }

  datatype AssignmentStats = AssignmentStats(
    completionRate: real, avgScore: real, pending: int, recent: seq<Submission>)

  /** calculate_assignment_stats: `totalAssignments` counts every assignment in
      the system, `submissions` are the student's, newest first. */
  function AssignmentStatsOf(totalAssignments: nat, submissions: seq<Submission>): (r: AssignmentStats)
    ensures totalAssignments == 0 ==> r == AssignmentStats(0.0, 0.0, 0, [])
    ensures totalAssignments > 0 ==>
      r.pending + Count(submissions, IsCompleted) == totalAssignments &&
      r.completionRate == Percent(Count(submissions, IsCompleted), totalAssignments) &&
      r.avgScore == Mean(Scores(submissions)) &&
      r.recent == Take(submissions, 5)
  {
    if totalAssignments == 0 then AssignmentStats(0.0, 0.0, 0, [])
    else
      var completed := Count(submissions, IsCompleted);
      AssignmentStats(Percent(completed, totalAssignments),
                      Mean(Scores(submissions)), totalAssignments - completed, Take(submissions, 5))
  }

  /** `s.score == x` for a submission `s`. */
  function HasScore(x: real): Submission -> bool {
    (s: Submission) => s.score == Some(x)
  }

  lemma {:induction false} ScoreOccurrences(subs: seq<Submission>, x: real)
    ensures multiset(Scores(subs))[x] == Count(subs, HasScore(x))
    decreases |subs|
  {
    if subs != [] {
      ScoreOccurrences(subs[..|subs| - 1], x);
    }
  }

  /** Scores keeps exactly the present scores, each as often as it was submitted. */
  lemma {:induction false} ScoresCount(subs: seq<Submission>)
    ensures |Scores(subs)| == Count(subs, (s: Submission) => s.score.Some?)
    ensures forall x :: x in Scores(subs) <==> exists i :: 0 <= i < |subs| && subs[i].score == Some(x)
    ensures forall x :: multiset(Scores(subs))[x] == Count(subs, HasScore(x))
    decreases |subs|
  {
    forall x ensures multiset(Scores(subs))[x] == Count(subs, HasScore(x)) {
      ScoreOccurrences(subs, x);
    }
    if subs != [] {
      var n := |subs| - 1;
      ScoresCount(subs[..n]);
      forall x ensures x in Scores(subs) <==> exists i :: 0 <= i < |subs| && subs[i].score == Some(x) {
        if x in Scores(subs[..n]) {
          var i :| 0 <= i < n && subs[..n][i].score == Some(x);
          assert subs[i].score == Some(x);
        }
        if i :| 0 <= i < |subs| && subs[i].score == Some(x) {
          if i < n {
            assert subs[..n][i].score == Some(x);
          }
        }
      }
    }
  }

  /** With every score in 0..100 the average is in 0..100, and the completion
      rate is at most 100 when the student has no more completed submissions
      than there are assignments. */
  lemma AssignmentBounds(totalAssignments: nat, submissions: seq<Submission>)
    requires forall i :: 0 <= i < |submissions| && submissions[i].score.Some? ==>
      0.0 <= submissions[i].score.value <= 100.0
    ensures var r := AssignmentStatsOf(totalAssignments, submissions);
      0.0 <= r.avgScore <= 100.0 && 0.0 <= r.completionRate &&
      (Count(submissions, IsCompleted) <= totalAssignments ==> r.completionRate <= 100.0 && r.pending >= 0)
  {
    var xs := Scores(submissions);
    ScoresCount(submissions);
    if xs != [] {
      forall i | 0 <= i < |xs| ensures 0.0 <= xs[i] <= 100.0 {
        assert xs[i] in xs;
      }
      MeanBounds(xs, 0.0, 100.0);
    }
  }

  // ---------------------------------------------------------------------
  // Assessments
  // ---------------------------------------------------------------------

  /** An assessment result; `assessmentType` is None when its assessment row is missing. */
  datatype AssessmentResult = AssessmentResult(
    assessmentType: Option<string>, percentage: Option<real>, score: Option<real>)

  /** `result.percentage if result.percentage else result.score`. */
  function ReportedValue(r: AssessmentResult): Option<real> {
    if TruthyReal(r.percentage) then r.percentage else r.score
  }

  /** The values appended for results of assessment type `t`, in order. */
  function ValuesOfType(results: seq<AssessmentResult>, t: string): seq<Option<real>> {
    if results == [] then []
    else
      var last := results[|results| - 1];
      ValuesOfType(results[..|results| - 1], t) +
      (if last.assessmentType == Some(t) then [ReportedValue(last)] else [])
  }

  /** The list of values when none is None; Python's `sum` raises on a None. */
  function AllPresent(values: seq<Option<real>>): (r: Option<seq<real>>)
    ensures r.Some? <==> forall i :: 0 <= i < |values| ==> values[i].Some?
    ensures r.Some? ==> (|r.value| == |values| &&
      forall i :: 0 <= i < |values| ==> values[i] == Some(r.value[i]))
  {
    if values == [] then Some([])
    else
      var init := AllPresent(values[..|values| - 1]);
      var last := values[|values| - 1];
      if init.Some? && last.Some? then Some(init.value + [last.value])
      else
        assert !(forall i :: 0 <= i < |values| ==> values[i].Some?) by {
          if init.None? {
            var k :| 0 <= k < |values| - 1 && values[..|values| - 1][k].None?;
            assert values[k].None?;
          }
        }
        None
  }

  /** The average of one list, None when a None value makes `sum` raise. */
  function AverageOf(values: seq<Option<real>>): Option<real> {
    if values == [] then Some(0.0)
    else match AllPresent(values)
      case None => None
      case Some(xs) => Some(Mean(xs))
  }

  datatype AssessmentStats = AssessmentStats(quizAvg: real, examAvg: real, recent: seq<AssessmentResult>)

  /** The results newest first (the id-descending queries), limited to `n`. */
  function NewestFirst(results: seq<AssessmentResult>, n: nat): (r: seq<AssessmentResult>)
    ensures |r| == if |results| <= n then |results| else n
    ensures forall i :: 0 <= i < |r| ==> r[i] == results[|results| - 1 - i]
  {
    Reverse(TakeLast(results, n))
  }

  /** The statistics of results given in id order; None where the source raises. */
  function AssessmentStatsOf(results: seq<AssessmentResult>): Option<AssessmentStats> {
    var quiz := AverageOf(ValuesOfType(results, "quiz"));
    var exam := AverageOf(ValuesOfType(results, "exam"));
    if quiz.Some? && exam.Some? then Some(AssessmentStats(quiz.value, exam.value, NewestFirst(results, 5)))
    else None
  }

  /** calculate_assessment_stats: one pass over the results, appending each
      quiz or exam value to its list. */
  method CalculateAssessmentStats(results: seq<AssessmentResult>) returns (stats: Option<AssessmentStats>)
    ensures stats == AssessmentStatsOf(results)
  {
    var quizScores: seq<Option<real>> := [];
    var examScores: seq<Option<real>> := [];
    for k := 0 to |results|
      invariant quizScores == ValuesOfType(results[..k], "quiz")
      invariant examScores == ValuesOfType(results[..k], "exam")
    {
      assert results[..k + 1][..k] == results[..k];
      var result := results[k];
      if result.assessmentType.Some? {
        if result.assessmentType.value == "quiz" {
          quizScores := quizScores + [ReportedValue(result)];
        } else if result.assessmentType.value == "exam" {
          examScores := examScores + [ReportedValue(result)];
        }
      }
    }
    assert results[..|results|] == results;
    var quizAvg := AverageOf(quizScores);
    var examAvg := AverageOf(examScores);
    if quizAvg.None? || examAvg.None? {
      return None;
    }
    stats := Some(AssessmentStats(quizAvg.value, examAvg.value, NewestFirst(results, 5)));
  }

  lemma {:induction false} ValuesOfTypeAppend(a: seq<AssessmentResult>, b: seq<AssessmentResult>, t: string)
    ensures ValuesOfType(a + b, t) == ValuesOfType(a, t) + ValuesOfType(b, t)
    decreases |b|
  {
    if b == [] {
      assert a + b == a;
    } else {
      var n := |b| - 1;
      assert (a + b)[..|a + b| - 1] == a + b[..n];
      ValuesOfTypeAppend(a, b[..n], t);
    }
  }

  /** A result of another type (or without an assessment) adds nothing to the list of type `t`. */
  lemma OtherTypesIgnored(a: seq<AssessmentResult>, x: AssessmentResult, b: seq<AssessmentResult>, t: string)
    requires x.assessmentType != Some(t)
    ensures ValuesOfType(a + [x] + b, t) == ValuesOfType(a + b, t)
  {
    ValuesOfTypeAppend(a + [x], b, t);
    ValuesOfTypeAppend(a, [x], t);
    ValuesOfTypeAppend(a, b, t);
    assert ValuesOfType([x], t) == [] by {
      assert [x][..0] == [];
    }
  }

  /** A result of type `t` whose reported value is `v`. */
  function Reports(t: string, v: Option<real>): AssessmentResult -> bool {
    (r: AssessmentResult) => r.assessmentType == Some(t) && ReportedValue(r) == v
  }

  lemma {:induction false} ValueOccurrences(results: seq<AssessmentResult>, t: string, v: Option<real>)
    ensures multiset(ValuesOfType(results, t))[v] == Count(results, Reports(t, v))
    decreases |results|
  {
    if results != [] {
      ValueOccurrences(results[..|results| - 1], t, v);
    }
  }

  /** The list of type `t` has one entry per result of that type, and each entry
      is the percentage when it is truthy and the score otherwise; each value
      occurs once per result of that type reporting it. */
  lemma {:induction false} ValuesOfTypeSpec(results: seq<AssessmentResult>, t: string)
    ensures |ValuesOfType(results, t)| == Count(results, (r: AssessmentResult) => r.assessmentType == Some(t))
    ensures forall v :: v in ValuesOfType(results, t) ==>
      exists i :: 0 <= i < |results| && results[i].assessmentType == Some(t) && v == ReportedValue(results[i])
    ensures forall v :: multiset(ValuesOfType(results, t))[v] == Count(results, Reports(t, v))
    decreases |results|
  {
    forall v ensures multiset(ValuesOfType(results, t))[v] == Count(results, Reports(t, v)) {
      ValueOccurrences(results, t, v);
    }
    if results != [] {
      var n := |results| - 1;
      ValuesOfTypeSpec(results[..n], t);
      forall v | v in ValuesOfType(results, t)
        ensures exists i :: 0 <= i < |results| && results[i].assessmentType == Some(t) && v == ReportedValue(results[i])
      {
        if v in ValuesOfType(results[..n], t) {
          var i :| 0 <= i < n && results[..n][i].assessmentType == Some(t) && v == ReportedValue(results[..n][i]);
          assert results[i] == results[..n][i];
        } else {
          assert results[n].assessmentType == Some(t) && v == ReportedValue(results[n]);
        }
      }
    }
  }

  /** The values of type `t` can all be summed exactly when every result of that
      type reports a value. */
  lemma {:induction false} ValuesOfTypePresent(results: seq<AssessmentResult>, t: string)
    ensures AllPresent(ValuesOfType(results, t)).Some? <==>
      forall i :: 0 <= i < |results| && results[i].assessmentType == Some(t) ==> ReportedValue(results[i]).Some?
    decreases |results|
  {
    if results != [] {
      var n := |results| - 1;
      ValuesOfTypePresent(results[..n], t);
      assert forall i :: 0 <= i < n ==> results[..n][i] == results[i];
      var vs := ValuesOfType(results, t);
      var init := ValuesOfType(results[..n], t);
      assert vs == init + (if results[n].assessmentType == Some(t) then [ReportedValue(results[n])] else []);
      assert forall i :: 0 <= i < |init| ==> vs[i] == init[i];
    }
  }

  /** The statistics exist (nothing raises) exactly when every quiz and every exam
      result reports a value. */
  lemma AssessmentStatsDefined(results: seq<AssessmentResult>)
    ensures AssessmentStatsOf(results).Some? <==>
      forall i :: 0 <= i < |results| ==>
        (results[i].assessmentType == Some("quiz") || results[i].assessmentType == Some("exam") ==>
         ReportedValue(results[i]).Some?)
  {
    ValuesOfTypePresent(results, "quiz");
    ValuesOfTypePresent(results, "exam");
  }

  /** Without quizzes the quiz average is 0, whatever the exams hold. */
  lemma NoQuizzesAverageZero(results: seq<AssessmentResult>)
    requires forall i :: 0 <= i < |results| ==> results[i].assessmentType != Some("quiz")
    ensures AssessmentStatsOf(results).Some? ==> AssessmentStatsOf(results).value.quizAvg == 0.0
  {
    ValuesOfTypeSpec(results, "quiz");
    var isQuiz := (r: AssessmentResult) => r.assessmentType == Some("quiz");
    CountIndices(results, isQuiz);
    assert (set i | 0 <= i < |results| && isQuiz(results[i])) == {};
  }

  /** A quiz result with neither a truthy percentage nor a score puts None in
      the list, and the average raises. */
  lemma MissingQuizValueRaises(a: seq<AssessmentResult>, x: AssessmentResult, b: seq<AssessmentResult>)
    requires x.assessmentType == Some("quiz") && !TruthyReal(x.percentage) && x.score.None?
    ensures AssessmentStatsOf(a + [x] + b).None?
  {
    ValuesOfTypeAppend(a + [x], b, "quiz");
    ValuesOfTypeAppend(a, [x], "quiz");
    assert ValuesOfType([x], "quiz") == [None] by {
      assert [x][..0] == [];
    }
    var pre := ValuesOfType(a, "quiz");
    var vs := pre + [None] + ValuesOfType(b, "quiz");
    assert ValuesOfType(a + [x] + b, "quiz") == vs;
    assert vs[|pre|] == None;
    assert AllPresent(vs).None?;
  }

  /** When every result reports a value in 0..100, nothing raises and the quiz
      average is in 0..100. */
  lemma QuizAverageBounds(results: seq<AssessmentResult>)
    requires forall i :: 0 <= i < |results| ==>
      ReportedValue(results[i]).Some? && 0.0 <= ReportedValue(results[i]).value <= 100.0
    ensures AssessmentStatsOf(results).Some?
    ensures 0.0 <= AssessmentStatsOf(results).value.quizAvg <= 100.0
  {
    AssessmentStatsDefined(results);
    var vs := ValuesOfType(results, "quiz");
    if vs != [] {
      ValuesOfTypeSpec(results, "quiz");
      var xs := AllPresent(vs).value;
      forall j | 0 <= j < |xs| ensures 0.0 <= xs[j] <= 100.0 {
        assert vs[j] in vs;
        var i :| 0 <= i < |results| && results[i].assessmentType == Some("quiz") && vs[j] == ReportedValue(results[i]);
        assert ReportedValue(results[i]) == Some(xs[j]);
      }
      MeanBounds(xs, 0.0, 100.0);
    }
  }

  // ---------------------------------------------------------------------
  // Overall performance trend
  // ---------------------------------------------------------------------

  /** `r.percentage or r.score or 0`. */
  function TrendValue(r: AssessmentResult): real {
    if TruthyReal(r.percentage) then r.percentage.value
    else if TruthyReal(r.score) then r.score.value
    else 0.0
  }

  function Sum3(rs: seq<AssessmentResult>): real
    requires |rs| == 3
  {
    TrendValue(rs[0]) + TrendValue(rs[1]) + TrendValue(rs[2])
  }

  /** calculate_performance_trend over results given in id order: the three
      newest against the three before them. */
  function PerformanceTrend(results: seq<AssessmentResult>): (t: Trend)
    ensures |results| < 6 <==> t == Unknown
  {
    var newest := NewestFirst(results, 6);
    if |newest| < 6 then Unknown
    else Classify(Sum3(newest[..3]) / 3.0, Sum3(newest[3..6]) / 3.0)
  }

  /** On sums the averages' 5-point gap is a 15-point gap. */
  lemma PerformanceTrendBySums(results: seq<AssessmentResult>)
    requires |results| >= 6
    ensures var newest := NewestFirst(results, 6);
      var a, b := Sum3(newest[..3]), Sum3(newest[3..6]);
      var t := PerformanceTrend(results);
      (t == Improving <==> a > b + 15.0) && (t == Declining <==> a < b - 15.0) &&
      (t == Stable <==> b - 15.0 <= a <= b + 15.0)
  {
  }

  /** Only the six newest results matter: older history never changes the trend. */
  lemma PerformanceTrendIgnoresOlder(older: seq<AssessmentResult>, results: seq<AssessmentResult>)
    requires |results| >= 6
    ensures PerformanceTrend(older + results) == PerformanceTrend(results)
  {
    var all := older + results;
    var p, q := NewestFirst(all, 6), NewestFirst(results, 6);
    assert forall i :: 0 <= i < 6 ==> p[i] == q[i] by {
      forall i | 0 <= i < 6 ensures p[i] == q[i] {
        assert all[|all| - 1 - i] == results[|results| - 1 - i];
      }
    }
    assert p == q;
  }
}
