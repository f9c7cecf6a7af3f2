/** Class-level summaries for the teacher views
    (student-insight-system/dashboard/utils.py): status counts, the class and
    section distributions, and the per-student academic summary. */
module OverviewStats {
  import opened Wrappers
  import opened Sequences
  import opened PyStrings
  import opened StudentStats

  /** The StudentProfile columns the summaries read. */
  datatype Student = Student(classLevel: Option<string>, section: Option<string>, performanceStatus: Option<string>)

  /** The dictionary calculate_student_overview_stats returns. `subjectDistribution`
      is present only for an empty student list. */
  datatype Overview = Overview(
    totalStudents: nat, goodCount: nat, averageCount: nat, atRiskCount: nat, alertsCount: nat,
    goodPercent: real, averagePercent: real, atRiskPercent: real,
    classDistribution: map<string, nat>, sectionDistribution: map<string, nat>,
    subjectDistribution: Option<map<string, nat>>)

  /** `sum(1 for s in students if s.performance_status == status)`. */
  function StatusCount(students: seq<Student>, status: string): nat {
    Count(students, (s: Student) => s.performanceStatus == Some(status))
  }

  /** `len(alerts) if alerts else 0`. */
  function AlertsCount(alerts: Option<seq<int>>): (n: nat)
    ensures alerts.None? ==> n == 0
    ensures alerts.Some? ==> n == |alerts.value|
  {
    if alerts.Some? && alerts.value != [] then |alerts.value| else 0
  }

  /** The class distribution's key for a student: its class level when truthy. */
  function ClassKey(s: Student): Option<string> {
    if Truthy(s.classLevel) then Some(s.classLevel.value) else None
  }

  /** The section distribution's key: "class-section" when both are truthy. */
  function SectionKey(s: Student): Option<string> {
    if Truthy(s.classLevel) && Truthy(s.section) then Some(s.classLevel.value + "-" + s.section.value) else None
  }

  /** `d[k] = d.get(k, 0) + 1`. */
  function Inc(d: map<string, nat>, k: string): map<string, nat> {
    d[k := (if k in d then d[k] else 0) + 1]
  }

  /** The counts per key of the students that have one, in list order. */
  function Distribution(students: seq<Student>, key: Student -> Option<string>): map<string, nat> {
    if students == [] then map[]
    else
      var d := Distribution(students[..|students| - 1], key);
      var k := key(students[|students| - 1]);
      if k.Some? then Inc(d, k.value) else d
  }

  /** calculate_student_overview_stats as a function of its inputs. */
  function OverviewOf(students: seq<Student>, alerts: Option<seq<int>>): (r: Overview)
    ensures students == [] ==>
      r == Overview(0, 0, 0, 0, 0, 0.0, 0.0, 0.0, map[], map[], Some(map[]))
    ensures students != [] ==> r.subjectDistribution.None? && r.totalStudents == |students|
  {
    var total := |students|;
    if total == 0 then Overview(0, 0, 0, 0, 0, 0.0, 0.0, 0.0, map[], map[], Some(map[]))
    else
      var good := StatusCount(students, "good");
      var average := StatusCount(students, "average");
      var atRisk := StatusCount(students, "at-risk");
      Overview(total, good, average, atRisk, AlertsCount(alerts),
               Percent(good, total),
               Percent(average, total),
               Percent(atRisk, total),
               Distribution(students, ClassKey), Distribution(students, SectionKey), None)
  }

  /** calculate_student_overview_stats: the counts, then two passes building
      the class and section distributions in place. */
  method CalculateOverviewStats(students: seq<Student>, alerts: Option<seq<int>>) returns (r: Overview)
    ensures r == OverviewOf(students, alerts)
  {
    var totalStudents := |students|;
    if totalStudents == 0 {
      return Overview(0, 0, 0, 0, 0, 0.0, 0.0, 0.0, map[], map[], Some(map[]));
    }
    var goodCount := StatusCount(students, "good");
    var averageCount := StatusCount(students, "average");
    var atRiskCount := StatusCount(students, "at-risk");
    var alertsCount := AlertsCount(alerts);

    var classDistribution: map<string, nat> := map[];
    for i := 0 to |students|
      invariant classDistribution == Distribution(students[..i], ClassKey)
    {
      assert students[..i + 1][..i] == students[..i];
      var s := students[i];
      if Truthy(s.classLevel) {
        var c := s.classLevel.value;
        classDistribution := classDistribution[c := (if c in classDistribution then classDistribution[c] else 0) + 1];
      }
    }
    assert students[..|students|] == students;

    var sectionDistribution: map<string, nat> := map[];
    for i := 0 to |students|
      invariant sectionDistribution == Distribution(students[..i], SectionKey)
    {
      assert students[..i + 1][..i] == students[..i];
      var s := students[i];
      if Truthy(s.classLevel) && Truthy(s.section) {
        var key := s.classLevel.value + "-" + s.section.value;
        sectionDistribution := sectionDistribution[key := (if key in sectionDistribution then sectionDistribution[key] else 0) + 1];
      }
    }

    r := Overview(totalStudents, goodCount, averageCount, atRiskCount, alertsCount,
                  Percent(goodCount, totalStudents),
                  Percent(averageCount, totalStudents),
                  Percent(atRiskCount, totalStudents),
                  classDistribution, sectionDistribution, None);
  }

  // ---------------------------------------------------------------------
  // Properties of the distributions
  // ---------------------------------------------------------------------

  /** Students whose key is `k`. */
  function HasKey(key: Student -> Option<string>, k: string): Student -> bool {
    (s: Student) => key(s) == Some(k)
  }

  /** Students in class `c`. */
  function InClass(c: string): Student -> bool {
    (s: Student) => s.classLevel == Some(c)
  }

  predicate HasClass(s: Student) {
    Truthy(s.classLevel)
  }

  predicate HasClassAndSection(s: Student) {
    Truthy(s.classLevel) && Truthy(s.section)
  }

  /** A key's entry is the number of students carrying that key, and a key is
      present exactly when at least one student carries it. */
  lemma {:induction false} DistributionCounts(students: seq<Student>, key: Student -> Option<string>, k: string)
    ensures k in Distribution(students, key) <==> Count(students, HasKey(key, k)) > 0
    ensures k in Distribution(students, key) ==> Distribution(students, key)[k] == Count(students, HasKey(key, k))
    decreases |students|
  {
    if students != [] {
      DistributionCounts(students[..|students| - 1], key, k);
    }
  }

  /** The sum of a map's values. */
  ghost function SumValues(d: map<string, nat>): nat
    decreases |d|
  {
    if d == map[] then 0
    else
      var k :| k in d;
      d[k] + SumValues(d - {k})
  }

  lemma SumValuesRemove(d: map<string, nat>, k: string)
    requires k in d
    ensures SumValues(d) == d[k] + SumValues(d - {k})
    decreases |d|
  {
    var j :| j in d && SumValues(d) == d[j] + SumValues(d - {j});
    if j != k {
      SumValuesRemove(d - {j}, k);
      SumValuesRemove(d - {k}, j);
      assert (d - {j}) - {k} == (d - {k}) - {j};
    }
  }

  lemma SumValuesInc(d: map<string, nat>, k: string)
    ensures SumValues(Inc(d, k)) == SumValues(d) + 1
  {
    var e := Inc(d, k);
    SumValuesRemove(e, k);
    if k in d {
      SumValuesRemove(d, k);
      assert e - {k} == d - {k};
    } else {
      assert e - {k} == d;
    }
  }

  /** The values of a distribution add up to the number of students that have
      a key (`has` says which students do). */
  lemma {:induction false} DistributionTotal(students: seq<Student>, key: Student -> Option<string>, has: Student -> bool)
    requires forall s :: has(s) == key(s).Some?
    ensures SumValues(Distribution(students, key)) == Count(students, has)
    decreases |students|
  {
    if students == [] {
      assert SumValues(map[]) == 0;
    } else {
      var n := |students| - 1;
      DistributionTotal(students[..n], key, has);
      var k := key(students[n]);
      if k.Some? {
        SumValuesInc(Distribution(students[..n], key), k.value);
      }
    }
  }

  lemma {:induction false} SameCount(students: seq<Student>, p: Student -> bool, q: Student -> bool)
    requires forall i :: 0 <= i < |students| ==> p(students[i]) == q(students[i])
    ensures Count(students, p) == Count(students, q)
    decreases |students|
  {
    if students != [] {
      SameCount(students[..|students| - 1], p, q);
    }
  }

  /** class_distribution[c] is the number of students in class c, only truthy
      class levels appear, and the values add up to the students with a class. */
  lemma ClassDistributionSpec(students: seq<Student>, c: string)
    ensures var d := OverviewOf(students, None).classDistribution;
      (c in d ==> c != "" && d[c] == Count(students, InClass(c))) &&
      (c !in d && c != "" ==> Count(students, InClass(c)) == 0) &&
      SumValues(d) == Count(students, HasClass)
  {
    DistributionTotal(students, ClassKey, HasClass);
    DistributionCounts(students, ClassKey, c);
    if c == "" {
      SameCount(students, HasKey(ClassKey, c), (s: Student) => false);
      CountAll(students, (s: Student) => !false);
    } else {
      SameCount(students, HasKey(ClassKey, c), InClass(c));
    }
    if students == [] {
      assert Distribution(students, ClassKey) == map[];
    }
  }

  /** section_distribution counts only students that also count in
      class_distribution, so its total never exceeds the class total. */
  lemma SectionWithinClass(students: seq<Student>)
    ensures var r := OverviewOf(students, None);
      SumValues(r.sectionDistribution) == Count(students, HasClassAndSection) &&
      SumValues(r.sectionDistribution) <= SumValues(r.classDistribution)
  {
    DistributionTotal(students, ClassKey, HasClass);
    DistributionTotal(students, SectionKey, HasClassAndSection);
    CountMonotone(students, HasClassAndSection, HasClass);
    if students == [] {
      assert Distribution(students, ClassKey) == map[];
      assert Distribution(students, SectionKey) == map[];
    }
  }

  /** A section key is the student's class level, a dash and the section. */
  lemma SectionKeysSpec(students: seq<Student>, k: string)
    requires k in OverviewOf(students, None).sectionDistribution
    ensures exists i :: (0 <= i < |students| && SectionKey(students[i]) == Some(k) &&
      k == students[i].classLevel.value + "-" + students[i].section.value)
  {
    assert students != [];
    assert k in Distribution(students, SectionKey);
    DistributionCounts(students, SectionKey, k);
    var i := CountWitness(students, HasKey(SectionKey, k));
    assert SectionKey(students[i]) == Some(k);
  }

  // ---------------------------------------------------------------------
  // Properties of the status counts
  // ---------------------------------------------------------------------

  /** Each student has at most one status, so the three counts add up to at
      most the number of students. */
  lemma {:induction false} StatusCountsBound(students: seq<Student>)
    ensures StatusCount(students, "good") + StatusCount(students, "average") + StatusCount(students, "at-risk") <= |students|
    decreases |students|
  {
    if students != [] {
      StatusCountsBound(students[..|students| - 1]);
    }
  }

  /** The three percentages lie in 0..100 and add up to at most 100. */
  lemma PercentagesBound(students: seq<Student>, alerts: Option<seq<int>>)
    requires students != []
    ensures var r := OverviewOf(students, alerts);
      0.0 <= r.goodPercent <= 100.0 && 0.0 <= r.averagePercent <= 100.0 && 0.0 <= r.atRiskPercent <= 100.0 &&
      r.goodPercent + r.averagePercent + r.atRiskPercent <= 100.0
  {
    var n := |students|;
    var g, a, k := StatusCount(students, "good"), StatusCount(students, "average"), StatusCount(students, "at-risk");
    StatusCountsBound(students);
    PercentAdd(g, a, n);
    PercentAdd(g + a, k, n);
  }

  // ---------------------------------------------------------------------
  // Academic summary
  // ---------------------------------------------------------------------

  /** The StudentProfile fields get_student_academic_summary reports;
      `metric` stands for the related AcademicMetric row, by id. */
  datatype Profile = Profile(
    id: int, fullName: Option<string>, currentCgpa: Option<real>, department: Option<string>,
    classLevel: Option<string>, section: Option<string>, performanceStatus: Option<string>, metric: Option<int>)

  datatype SummaryValue = IntValue(i: int) | TextValue(t: Option<string>) | RealValue(x: Option<real>) | MetricValue(m: Option<int>)

  const SummaryKeys: set<string> := {"id", "name", "cgpa", "department", "class_level", "section", "status", "metric"}

  /** get_student_academic_summary: the empty dictionary without a student,
      otherwise the eight fields of the profile. */
  function AcademicSummary(student: Option<Profile>): (r: map<string, SummaryValue>)
    ensures student.None? ==> r == map[]
    ensures student.Some? ==> r.Keys == SummaryKeys && |r| == 8
    ensures student.Some? ==>
      r["id"] == IntValue(student.value.id) && r["name"] == TextValue(student.value.fullName) &&
      r["cgpa"] == RealValue(student.value.currentCgpa) && r["status"] == TextValue(student.value.performanceStatus) &&
      r["class_level"] == TextValue(student.value.classLevel) && r["section"] == TextValue(student.value.section) &&
      r["department"] == TextValue(student.value.department) && r["metric"] == MetricValue(student.value.metric)
  {
    match student
    case None => map[]
    case Some(p) =>
      map["id" := IntValue(p.id), "name" := TextValue(p.fullName), "cgpa" := RealValue(p.currentCgpa),
          "department" := TextValue(p.department), "class_level" := TextValue(p.classLevel),
          "section" := TextValue(p.section), "status" := TextValue(p.performanceStatus),
          "metric" := MetricValue(p.metric)]
  }
}
