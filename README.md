# Student insight analytics in Dafny

This project models the decision logic of a student-performance dashboard and
proves properties of it:

- The **analytics engine** (`AnalyticsEngine`), in three parts:
  - It extrapolates the next semester GPA from the GPA history, using a
    least-squares line clamped to 0..4.
  - It scores the seven career fields of its keyword table. A skill that is a
    keyword scores 15 points. A keyword found in a strong course name scores
    10 points. The score is capped at 100, takes a random perturbation, and is
    bounded to 0..100.
  - It writes one insight snapshot per student: the predicted GPA, the scores,
    and at most five recommended skills. The recommendations are the keywords
    of the first top-scoring field that the student lacks.
- The **student dashboard and progress form** handlers:
  - the seven-slot weekly hours chart;
  - the goal probability buckets and the On Track / At Risk status;
  - the known / to-learn skill split;
  - the strong and weak course lists;
  - the form handler that replaces a student's courses, career interests,
    skills and study activities.
- The **teacher-side statistics** of a student:
  - attendance percentage and trend;
  - assignment completion and average;
  - quiz and exam averages;
  - the performance trend.
- The **class overview** counts and distributions, and the per-student academic
  summary.

How the pieces are modelled:

- **Pure computations** are Dafny functions over datatypes. Each has lemmas
  about what it means.
- **Loops in the source** are methods with loop invariants, each proved equal
  to the specifying function:
  - `ScoreFields` and `AccumulateScore`;
  - `WeeklyHours`;
  - `BuildCourses`, `BuildCareers`, `BuildSkills` with `AddSkillRows`, and
    `BuildActivities`, the loops of the progress form handler;
  - `CalculateAssessmentStats`;
  - `CalculateOverviewStats`.
- **Stored rows** the handlers update in place are fields of two classes.
  `AnalyticsStore` holds the AnalyticsResult table. `StudentRecords` holds one
  student's stored rows.

Python semantics are written out where the code relies on them:

- truthiness of optional strings and numbers;
- `str.strip` over the Unicode whitespace characters;
- `str.split(",")`;
- `int()`, which returns None where Python raises ValueError, including on
  a digit body longer than CPython's 4300-digit conversion limit; it skips
  surrounding whitespace except U+001C..U+001F, which `str.isspace` counts
  as whitespace but CPython's integer parser does not skip;
- a substring test;
- `max(d, key=d.get)`, which picks the first maximum in insertion order;
- dictionaries in insertion order, as sequences.

Files:

- `wrappers.dfy`: `Option`.
- `sequences.dfy`: filters, prefixes and suffixes, counting, reversal.
- `py_strings.dfy`: the Python string operations above.
- `records.dfy`: the StudentSkill, StudentCourse, CareerInterest and StudyActivity rows.
- `gpa_prediction.dfy`: the GPA trend predictor.
- `career_scoring.dfy`: the career-interest scorer, the top-field choice and the recommendations.
- `insight_report.dfy`: the insight report and its upsert into the snapshot table.
- `dashboard_view.dfy`: the decisions of the student dashboard and the analytics API.
- `progress_form.dfy`: the progress form handler.
- `student_stats.dfy`: attendance, assignment, assessment and performance statistics.
- `overview_stats.dfy`: class overview statistics and the academic summary.

### Where the code and its description differ

The model follows the code in each case:

- The recommendation list is never empty for lack of data. The top field is
  always a key of the keyword table, so a student with no skills gets that
  field's first five keywords (`InsightReport.EmptyStudentReport`).
- The engine reports no error for an unknown student id. Missing rows read as
  empty data.
- The code has no skill-risk scorer. Nothing in the model corresponds to one.
- A single recorded GPA is returned as stored. It is neither clamped nor
  rounded.
- Every StudentSkill row counts toward the career scores, including rows the
  student marked as "to learn". Recommendations likewise exclude to-learn skills.

## Model

| member | source | states |
|---|---|---|
| PyStrings.StripSpec | dashboard/routes.py:245-246 | the result is the slice of the input between its leading and trailing whitespace, and everything before and after it is whitespace; it is empty exactly when the input is all whitespace, and otherwise neither end is whitespace |
| PyStrings.StripIdempotent | dashboard/routes.py:245-246 | the stored (stripped) skill name strips to itself |
| PyStrings.Split | dashboard/routes.py:243 | splitting yields at least one piece and no piece contains the separator |
| PyStrings.JoinSplit | dashboard/routes.py:243 | joining the pieces with the separator gives back the submitted text |
| PyStrings.SplitJoin | dashboard/routes.py:243 | splitting a join of separator-free pieces gives back those pieces |
| PyStrings.ParseInt | dashboard/routes.py:217-220 | `int()` succeeds only on text that contains a digit |
| PyStrings.SeparatorBeforeRejected | dashboard/routes.py:217-220 | U+001C..U+001F are whitespace to `str.strip` but not to `int()`: text starting with one of them raises ValueError and is stored as 0 |
| PyStrings.SeparatorAfterRejected | dashboard/routes.py:217-220 | text ending with one of U+001C..U+001F raises ValueError in `int()` and is stored as 0 |
| PyStrings.SeparatorExample | dashboard/routes.py:217-220 | "\x1c85" strips to "85" but `int()` rejects it, so it is stored as 0 |
| PyStrings.TooManyDigitsRejected | dashboard/routes.py:217-220 | a digit body of more than 4300 digits raises ValueError in `int()`, so it is stored as 0 |
| PyStrings.ParseIntOrZero | dashboard/routes.py:217-220 | the parsed integer when `int()` succeeds, 0 when it raises ValueError |
| PyStrings.ParseIntToString | dashboard/routes.py:217-218 | `int(str(n)) == n` for every integer n of at most 4300 digits (beyond that `str(n)` raises) |
| PyStrings.ParseIntBlank | dashboard/routes.py:217-220 | blank score text raises ValueError and is stored as 0 |
| Sequences.Filter | ml/analytics_engine.py:89 | the comprehension keeps only elements satisfying the condition, keeps every one of them, and has exactly as many entries as the input has satisfying positions |
| Sequences.FilterMultiset | ml/analytics_engine.py:89 | the comprehension keeps each satisfying value exactly as often as it occurs in the input, and no other value |
| Sequences.FilterIsSubsequence | ml/analytics_engine.py:89 | a comprehension with a condition keeps the input order |
| Sequences.Take | ml/analytics_engine.py:89 | `s[:n]` is the prefix of length min(n, len(s)) |
| Sequences.TakeLast | dashboard/routes.py:114 | `s[-n:]` is the suffix of length min(n, len(s)) |
| Sequences.CountIndices | student-insight-system/dashboard/student_stats.py:23-24 | `sum(1 for r in rs if p(r))` is the number of positions whose element satisfies p |
| Records.SkillNames | ml/analytics_engine.py:43 | one skill name per StudentSkill row, in row order |
| Records.CourseNames | ml/analytics_engine.py:44 | one course name per StudentCourse row, in row order |
| Records.CoursesOfTypeSpec | dashboard/routes.py:321-322 | a course is listed exactly when it is one of the student's courses and has that course_type, as often as it occurs there, in the stored order |
| Records.StrongWeakDisjoint | dashboard/routes.py:321-322 | no course is both in the strong list and in the weak list |
| GpaPrediction.SquaredDeviationsPositive | ml/analytics_engine.py:28-32 | with two or more semesters the regression's denominator is positive, so the fit is defined |
| GpaPrediction.Clamp | ml/analytics_engine.py:36 | the result is in 0..4, is the prediction when that is in range, and the nearer bound otherwise |
| GpaPrediction.PredictNextGpa | ml/analytics_engine.py:18-36 | no metric row or an empty history gives 0.0; one GPA is returned as is; two or more give the least-squares value at the next index, clamped to 0..4 |
| GpaPrediction.LeastSquaresOnLine | ml/analytics_engine.py:28-35 | when the history lies on a line a + b·i the fit predicts a + b·n for the next semester |
| GpaPrediction.PredictOnLine | ml/analytics_engine.py:28-36 | a linear history whose next point is in 0..4 is predicted exactly |
| GpaPrediction.PredictFlat | ml/analytics_engine.py:28-36 | a constant history in 0..4 predicts that constant |
| GpaPrediction.PredictSteadyRise | ml/analytics_engine.py:28-36 | 3.0, 3.2, 3.4, 3.6 predicts 3.8 |
| CareerScoring.FieldNamesDistinct | ml/analytics_engine.py:8-16 | the seven fields of the keyword table have distinct names, so the score dictionary has one entry per field |
| CareerScoring.FinalScore | ml/analytics_engine.py:63-67 | a final score is in 0..100 and, for a draw in -5..14, within the draw's band around the capped raw score |
| CareerScoring.InterestScores | ml/analytics_engine.py:47-69 | one score per field, in table order, each in 0..100 |
| CareerScoring.AnalyzeCareerInterests | ml/analytics_engine.py:38-69 | returns the interest scores of the student's skill names and strong course names |
| CareerScoring.ScoreFields | ml/analytics_engine.py:47-69 | the loop over the table returns the interest scores of the given skill and course names, one noise draw per field |
| CareerScoring.AccumulateScore | ml/analytics_engine.py:49-60 | the per-field loops accumulate 15 per matching skill plus 10 per (strong course, keyword) substring match |
| CareerScoring.SkillHitsCounts | ml/analytics_engine.py:52-54 | the skill matches are the skill positions whose name is one of the field's keywords, duplicates included |
| CareerScoring.KeywordHitsCounts | ml/analytics_engine.py:58-60 | a course contributes one match per keyword position that occurs inside its name |
| CareerScoring.CourseHitsCounts | ml/analytics_engine.py:57-60 | the course matches are the (course, keyword) position pairs with the keyword a substring of the course name |
| CareerScoring.ScoreWithinNoiseBand | ml/analytics_engine.py:62-67 | each field's score lies in 0..100 and between the capped raw score minus 5 and plus 14 |
| CareerScoring.NonStrongCourseIgnored | ml/analytics_engine.py:44 | adding a course whose type is not 'strong' changes no score |
| CareerScoring.DataScienceExample | ml/analytics_engine.py:52-54 | skills Python and SQL give Data Science a raw score of 30 |
| CareerScoring.FirstMaxIndex | ml/analytics_engine.py:85 | the chosen field has the largest score and every earlier field scores strictly less (first maximum wins) |
| CareerScoring.KeywordsOf | ml/analytics_engine.py:86 | a field of the table yields its own keywords, any other name yields an empty list |
| CareerScoring.LookUp | ml/analytics_engine.py:86 | the keywords of the first entry with that name, or an empty list when there is none |
| CareerScoring.RecommendationsSpec | ml/analytics_engine.py:89 | at most five recommendations, all keywords of the field the student lacks, in the field's order, the first ones of the full missing list, and all of it when at most five are missing |
| CareerScoring.RecommendationsComplete | ml/analytics_engine.py:89 | with fewer than five recommendations, every missing keyword of the field is recommended |
| CareerScoring.MissingSkillsExample | ml/analytics_engine.py:89 | keywords Python, SQL, Statistics with known skill Python recommend SQL then Statistics |
| InsightReport.ReportFor | ml/analytics_engine.py:71-99 | the report has one score per field and at most five recommendations |
| InsightReport.Upsert | ml/analytics_engine.py:77-93 | the table gains the student's key and no other; rows of other students are unchanged; the student's row holds the new prediction, scores and recommendations, and keeps its insertion time if it already existed |
| InsightReport.UpsertTwice | ml/analytics_engine.py:77-93 | regenerating overwrites the one snapshot: two reports in a row leave what the second alone leaves, with the first insertion time |
| InsightReport.AnalyticsStore.GenerateInsightReport | ml/analytics_engine.py:71-99 | the returned report is the report of the student's data, and the table afterwards is the upsert of that report into the table before |
| InsightReport.ReportTopField | ml/analytics_engine.py:85-89 | the recommended skills are keywords, not already known, of the first field with the maximal score |
| InsightReport.NothingKnownMissesAll | ml/analytics_engine.py:89 | a student with no skills misses every keyword |
| InsightReport.EmptyStudentScores | ml/analytics_engine.py:38-69 | with no skills and no strong courses every score is the noise draw floored at 0 |
| InsightReport.FieldsHaveFiveKeywords | ml/analytics_engine.py:8-16 | every field lists at least five keywords |
| InsightReport.EmptyStudentReport | ml/analytics_engine.py:71-99 | a student with no data gets GPA 0.0, floored noise as scores, and exactly the top field's first five keywords |
| DashboardView.WeeklyHours | dashboard/routes.py:111-118 | seven slots: the hours of the last seven activities, front-padded with zeros |
| DashboardView.GoalBucket | dashboard/routes.py:123-127 | the goal probability is one of 99, 85, 60, 40 |
| DashboardView.GoalProbability | dashboard/routes.py:121-127 | 50 unless the metric row exists and both target GPA and current CGPA are truthy, else the bucket of their difference |
| DashboardView.GoalBucketMonotone | dashboard/routes.py:123-127 | a larger gap never gives a larger probability |
| DashboardView.OnTrackExactly | dashboard/routes.py:138 | the status is On Track exactly when the probability is 85 or 99 |
| DashboardView.OnTrackMeansSmallGap | dashboard/routes.py:121-138 | with both GPAs set, On Track holds exactly when the target exceeds the CGPA by less than 0.2 |
| DashboardView.SkillsPartition | dashboard/routes.py:130-131 | the known and to-learn lists together hold every skill name as often as the rows do, each in row order |
| DashboardView.SkillsKnownMembers | dashboard/routes.py:130-131 | a skill's name appears in the list its is_target flag selects |
| DashboardView.CourseList | dashboard/routes.py:321-322 | one (name, grade) entry per course of the requested type, in order |
| ProgressForm.Grade | dashboard/routes.py:222 | the grade is "A" exactly when the score is above 80, else "B" |
| ProgressForm.CourseRows | dashboard/routes.py:213-224 | at most one course per subject slot |
| ProgressForm.CareerRows | dashboard/routes.py:228-238 | at most one career interest per role slot |
| ProgressForm.CareerSlotSpec | dashboard/routes.py:230-237 | a role slot stores a row exactly when role and match are both non-empty, and the row holds the role and `int(match)`, or 0 where `int()` raises |
| ProgressForm.UnparsedMatchIsZero | dashboard/routes.py:232-235 | match text that is not an integer is stored as match score 0 |
| ProgressForm.ActivityRowsFor | dashboard/routes.py:255-266 | one study activity per given day, in order, whose hours are `float(h_<day>)` when that field is non-blank, and 0.0 when it is missing, blank or `float()` raises |
| ProgressForm.ActivityRows | dashboard/routes.py:255-266 | exactly seven study activities, Monday to Sunday, row j holding the hours of the j-th weekday field or 0.0 |
| ProgressForm.BlankHoursAreZero | dashboard/routes.py:256-258 | a missing or blank hours field stores 0.0 hours for that day |
| ProgressForm.UnparsedHoursAreZero | dashboard/routes.py:257-260 | hours text that `float()` rejects stores 0.0 hours for that day |
| ProgressForm.StudentRecords.UpdateProgress | dashboard/routes.py:199-268 | commits exactly when both GPA fields convert and every parsed score and match fits SQLite's 64-bit INTEGER; then profile fields, target GPA, courses, careers, skills and activities are all replaced by what the form determines; otherwise nothing changes |
| ProgressForm.StudentRecords.Commit | dashboard/routes.py:199-209 | every profile field, the target GPA and each of the four row lists afterwards holds the value passed for it |
| ProgressForm.BuildCourses | dashboard/routes.py:211-224 | the loop over the three subject slots builds `CourseRows(form, 3)`: the slots' courses in slot order |
| ProgressForm.BuildCareers | dashboard/routes.py:226-238 | the loop over the two role slots builds `CareerRows(form, 2)`: the slots' career interests in slot order |
| ProgressForm.BuildSkills | dashboard/routes.py:240-251 | the rows built are `SkillRows(form)`: the known skills' rows followed by the to-learn skills' rows |
| ProgressForm.AddSkillRows | dashboard/routes.py:243-251 | the loop appends to the given rows exactly `SkillRowsFor(pieces, flag)`: one row per stripped non-blank piece, in order |
| ProgressForm.BuildActivities | dashboard/routes.py:253-266 | the loop over the seven weekdays builds `ActivityRows(form, parseFloat)` |
| ProgressForm.CourseSlotSpec | dashboard/routes.py:214-224 | a slot stores a course exactly when subject and score are both non-empty, as a strong course with the parsed score and its grade |
| ProgressForm.CourseRowsWellFormed | dashboard/routes.py:213-224 | every stored course is strong, has a name, a score, and grade "A" exactly when the score is above 80 |
| ProgressForm.ScoreRoundTrip | dashboard/routes.py:217-218 | a score typed as a decimal integer of at most 4300 digits is stored as that integer |
| ProgressForm.OversizedScoreNotStorable | dashboard/routes.py:217-224 | a first-slot score beyond the 64-bit range makes the new rows unstorable, so nothing is committed |
| ProgressForm.UnparsedTextIsZero | dashboard/routes.py:217-220 | score text that is not an integer is stored as 0 |
| ProgressForm.SeparatorScoreIsZero | dashboard/routes.py:214-220 | a score submitted as "\x1c85" is stored as 0 |
| ProgressForm.CareerRowsWellFormed | dashboard/routes.py:228-238 | every stored career interest has a non-empty role |
| ProgressForm.StoredSkillsWellFormed | dashboard/routes.py:240-251 | every skill name the form stores is non-empty, contains no comma and has no surrounding whitespace |
| ProgressForm.SkillRowsWellFormed | dashboard/routes.py:243-251 | every stored skill name is non-empty, free of commas and without surrounding whitespace, with the section's flag |
| ProgressForm.NamesOfSkillRows | dashboard/routes.py:243-251 | the names of the rows built from one field are that field's stripped non-blank pieces |
| ProgressForm.DashboardShowsFormSkills | dashboard/routes.py:240-251 | after storing the form, the dashboard's known and to-learn lists are the stripped non-blank pieces of the two form fields, in input order |
| ProgressForm.EmptyTargetGivesDefaultGoal | dashboard/routes.py:209 | an empty target GPA is stored as 0.0, giving goal probability 50 and status At Risk |
| StudentStats.Classify | student-insight-system/dashboard/student_stats.py:29-34 | comparing two known percentages always yields a trend |
| StudentStats.ClassifyCases | student-insight-system/dashboard/student_stats.py:29-34 | improving exactly when the newer value exceeds the older by more than 5, declining when it falls short by more than 5, stable otherwise |
| StudentStats.MeanBounds | student-insight-system/dashboard/student_stats.py:63 | the average of values within bounds is within those bounds |
| StudentStats.AttendanceStatsOf | student-insight-system/dashboard/student_stats.py:5-44 | no records gives zeros and unknown trend; otherwise the totals, present ≤ total, a percentage in 0..100 with percentage·total = present·100, an unknown trend below 20 records, and the five newest as recent |
| StudentStats.AttendanceTrendByCounts | student-insight-system/dashboard/student_stats.py:19-34 | with 20 records the trend compares the present counts of the newest ten and the ten before: improving exactly when more, declining when fewer, stable when equal |
| StudentStats.FullAttendance | student-insight-system/dashboard/student_stats.py:13-14 | the percentage is 100 exactly when every record is present |
| StudentStats.AssignmentStatsOf | student-insight-system/dashboard/student_stats.py:46-76 | no assignments gives zeros; otherwise pending + completed = total, rate·total = completed·100, the average of the present scores, and the five newest submissions |
| StudentStats.ScoresCount | student-insight-system/dashboard/student_stats.py:62 | the score list holds exactly the present scores, one per submission that has one, each value as often as submissions carry it |
| StudentStats.ScoreOccurrences | student-insight-system/dashboard/student_stats.py:62 | a value occurs in the score list once per submission with that score |
| StudentStats.AssignmentBounds | student-insight-system/dashboard/student_stats.py:59-65 | scores in 0..100 keep the average in 0..100; the rate is at most 100 and pending non-negative when completed submissions do not outnumber assignments |
| StudentStats.AllPresent | student-insight-system/dashboard/student_stats.py:95-96 | the values can be summed exactly when none is None, and then they are the values themselves |
| StudentStats.NewestFirst | student-insight-system/dashboard/student_stats.py:98-100 | the id-descending query gives the last n results in reverse order |
| StudentStats.CalculateAssessmentStats | student-insight-system/dashboard/student_stats.py:78-106 | the loop's quiz and exam lists give the averages and recent results of `AssessmentStatsOf`, or the error where a None value makes the sum raise |
| StudentStats.OtherTypesIgnored | student-insight-system/dashboard/student_stats.py:87-93 | a result of another or a missing assessment type adds nothing to a list |
| StudentStats.ValuesOfTypeSpec | student-insight-system/dashboard/student_stats.py:87-93 | a type's list has one value per result of that type, each that result's reported value, each value as often as results of that type report it |
| StudentStats.ValueOccurrences | student-insight-system/dashboard/student_stats.py:87-93 | a value occurs in a type's list once per result of that type reporting it |
| StudentStats.ValuesOfTypePresent | student-insight-system/dashboard/student_stats.py:87-96 | a type's values can all be summed exactly when every result of that type reports a value |
| StudentStats.AssessmentStatsDefined | student-insight-system/dashboard/student_stats.py:87-96 | the assessment statistics exist (no `sum` raises) exactly when every quiz and exam result reports a value |
| StudentStats.NoQuizzesAverageZero | student-insight-system/dashboard/student_stats.py:95 | with no quiz results the quiz average, when the statistics exist, is 0 |
| StudentStats.MissingQuizValueRaises | student-insight-system/dashboard/student_stats.py:91-95 | a quiz result with neither a truthy percentage nor a score makes the computation raise |
| StudentStats.QuizAverageBounds | student-insight-system/dashboard/student_stats.py:95 | when every result reports a value in 0..100, the statistics exist and the quiz average is in 0..100 |
| StudentStats.PerformanceTrend | student-insight-system/dashboard/student_stats.py:108-130 | the trend is unknown exactly when there are fewer than six results |
| StudentStats.PerformanceTrendBySums | student-insight-system/dashboard/student_stats.py:122-130 | the trend compares the sums of the newest three and the three before with a 15-point margin |
| StudentStats.PerformanceTrendIgnoresOlder | student-insight-system/dashboard/student_stats.py:112-114 | results older than the newest six never change the trend |
| OverviewStats.AlertsCount | student-insight-system/dashboard/utils.py:27 | the number of alerts, 0 when none were passed |
| OverviewStats.OverviewOf | student-insight-system/dashboard/utils.py:3-53 | an empty list gives all zeros and empty distributions including the subject one; otherwise the total is the number of students and there is no subject distribution |
| OverviewStats.CalculateOverviewStats | student-insight-system/dashboard/utils.py:3-53 | the loops building the two distributions give `OverviewOf` of the students and alerts |
| OverviewStats.DistributionCounts | student-insight-system/dashboard/utils.py:30-40 | a key is present exactly when some student has it, and maps to the number of such students |
| OverviewStats.DistributionTotal | student-insight-system/dashboard/utils.py:30-40 | a distribution's counts add up to the number of students that have a key |
| OverviewStats.ClassDistributionSpec | student-insight-system/dashboard/utils.py:30-33 | class_distribution maps each non-empty class level to its number of students, omits only absent ones, and totals the students with a class |
| OverviewStats.SectionWithinClass | student-insight-system/dashboard/utils.py:36-40 | the section distribution totals the students with both class and section, never more than the class distribution |
| OverviewStats.SectionKeysSpec | student-insight-system/dashboard/utils.py:36-40 | every section key is some student's class level, a dash and section |
| OverviewStats.StatusCountsBound | student-insight-system/dashboard/utils.py:23-25 | the three status counts add up to at most the number of students |
| OverviewStats.PercentagesBound | student-insight-system/dashboard/utils.py:48-50 | each status percentage is in 0..100 and the three add up to at most 100 |
| OverviewStats.AcademicSummary | student-insight-system/dashboard/utils.py:55-71 | no student gives the empty dictionary; a student gives exactly the eight keys holding its fields |

## Left out

- Database access, Flask routing, JWT claims, redirects, templates and JSON (de)serialisation are left out. The model receives the rows a query would return, as sequences, and returns the dictionaries as datatypes.
- The order of query results is a parameter. Attendance records and assignment submissions are passed newest first, as the ordered queries return them. Assessment results are passed in id order, and `StudentStats.NewestFirst` gives the id-descending view. The dashboard's study activities are passed in date order. The seven rows stored by the form all share one `datetime.utcnow()`-based date, and their order among themselves is not modelled.
- `np.random.randint(-5, 15)` becomes an injected sequence of seven draws. `CareerScoring.ValidNoise` states their range, -5 to 14.
- Floating point is not modelled; values are exact reals.
- `GpaPrediction.PredictNextGpa`: the scikit-learn fit is replaced by the closed-form least-squares formula over exact reals, and the final `round(..., 2)` is not modelled.
- `StudentStats.AttendanceStatsOf`, `StudentStats.AssignmentStatsOf`, `StudentStats.AssessmentStatsOf` and `OverviewStats.OverviewOf`: their `round(..., 1)` is not modelled. The contracts state the unrounded values.
- `float()` is an injected parser `parseFloat`, which returns None where Python raises ValueError. A ValueError from the two GPA fields aborts the request, and nothing is stored.
- `int()` is modelled for ASCII digits, an optional sign, underscores between digits and surrounding whitespace other than U+001C..U+001F. Other Unicode digits are not accepted.
- PyStrings.ParseInt: the digit limit is CPython's default of 4300. A limit changed through `PYTHONINTMAXSTRDIGITS` or `sys.set_int_max_str_digits`, and Python releases that predate the limit, are not modelled.
- The creation of a missing student profile and metric row on the first form submission (dashboard/routes.py:190-197, 205-208) is not modelled. `StudentRecords` is the student's already existing stored state, and `targetGpa` stands for the metric's target_gpa.
- The dashboard's other template fields are pure field mapping with `or` defaults and are not modelled, except the status. So are the analytics API's fallback response without a metric row, and its cgpa, rank and credits fields.
- The Gemini-based report, the seeding and maintenance scripts and the teacher views outside the two utility functions are not part of this model.
- `Assessment.query.get` is modelled by an optional assessment type on each result. None means the assessment row does not exist.
- The ORM relationship `student.academic_metrics` is represented by an optional metric id.
- `StudentStats.AssignmentBounds`: the completion rate can exceed 100 and `pending` can be negative when a student has more completed submissions than there are assignments. The bound is stated only under that condition, because the code does not deduplicate submissions.
