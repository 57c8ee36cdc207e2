# School risk manager API: a Dafny model of its core services

The system is an API that helps a school watch over its students. For each
student it computes a risk score from three signals:

- the trend of their grades over two 90-day windows;
- their attendance rate over the last 90 days;
- their negative behaviour events over the last 90 days.

It stores the score with the level of each indicator. Around that engine sit
the school's other services:

- school settings, including the two risk thresholds;
- classes;
- a CSV student importer;
- parent issues with comment threads;
- student action plans with items;
- a dashboard overview;
- the monthly director report: its figures, its stored file, its listing
  and its download;
- the global HTTP exception filter that turns thrown exceptions into JSON
  error responses and log lines.

This project models those services in Dafny and proves what they promise.

How the model is laid out:

- **Pure code becomes functions.** The calculators, the scoring rule, the
  level mapping, the merges of update bodies into stored rows and the
  exception filter are functions and lemmas.
- **Services become classes.** Each service that reads and writes the
  database is a class. Its fields are the tables it touches, each a `seq`
  of rows or a `map` keyed by id. Its methods reassign those fields exactly
  as the service's sequence of queries does.
- **Methods are proved against specification functions.** Every method's
  `ensures` ties its result and the new tables to those functions. Lemmas
  then prove what the code promises about the functions: the
  school-before-global definition lookup, replace-not-accumulate of
  indicator values, the idempotence of a school-wide recalculation, the
  closedAt stamping, the error-list bookkeeping of the importer, the
  page-window arithmetic, and the round trip of the report file path.

Conventions:

- **Row ids are positions** in their table. A school id is a `nat`, and the
  report file path writes it in decimal.
- **Dates are milliseconds since the epoch.** "Now", the clock's timestamp
  string and the report's random id are parameters. The code calls
  `new Date()` once per student during a school-wide recalculation. The
  model passes one instant to the whole run, so every student of a run gets
  the same calculation time.
- **Grades are exact rationals** (`real`). The attendance tiers compare the
  present count with the total by integer cross-multiplication, and a lemma
  proves that this agrees with the 0.8 and 0.9 rate thresholds.
- **Request fields use `Patch<T>`** (`Undefined | Null | Value`) where the
  code tells `undefined` apart from `null`: `??` against `!== undefined`.
- **Enum values live in parameters.** The database schema is not part of
  this model, so the lists of issue statuses and priorities are parameters
  of the report service. The enums keep a catch-all constructor for values
  the code never names. A catch-all value is never spelt like a named one:
  `OtherStatus("RESOLVED")` is not a row the database can hold. The model
  takes that as given rather than checking it, so a predicate such as
  `Dashboard.IssueOpen` decides by constructor.

Behaviours of the code worth noting:

- **No transactions.** Recalculating a student deletes its indicator
  values, inserts the new ones and upserts the score row as three separate
  writes, with no transaction around them.
- **Recalculation stops at the first failure.** A school-wide run has no
  per-student error handling, so a failure would end the whole run. Only
  students of the school are in scope, so the model's run never fails.
- **Definitions are not protected against duplicates.**
  `ensureIndicatorDefinitions` finds each definition, then creates it if
  missing, with no uniqueness guard. The model proves that one sequential
  call creates a definition only for a name that resolved to nothing, and
  that a second call creates none.
- **The settings thresholds do not feed the score.** The level mapping uses
  the fixed bounds 30 and 60. The per-school thresholds are validated and
  stored, and nothing else reads them.

## Model

| member | source | states |
|---|---|---|
| Common.Paginate | apps/api/src/parent-issues/parent-issues.service.ts:22-24 | page and size default to 1 and 20 unless given positive; skip is (page - 1) * size |
| Common.Coalesce | apps/api/src/settings/settings.service.ts:66-67 | `field ?? fallback`: a sent value wins; an absent or null field gives the fallback |
| Common.PageOf | apps/api/src/risk/risk.service.ts:56-57 | `skip`/`take`: the j-th row of the page is row skip + j of the ordered list, and the page holds exactly min(size, rows left after skip) rows, none when skip is past the end |
| Common.RowOnExactlyOnePage | apps/api/src/parent-issues/parent-issues.service.ts:22-24 | row i of an ordered list appears on the page `PageOf` returns for page p, at position i - skip, exactly when p = i / size + 1, so pages neither overlap nor leave gaps |
| Common.WindowOfRow | apps/api/src/parent-issues/parent-issues.service.ts:22-24 | position i lies in the window [skip, skip + size) exactly when the page is i / size + 1 |
| Common.DecimalRoundTrip | apps/api/src/reports/reports.service.ts:165 | the decimal rendering of an id reads back as the same number |
| Common.Decimal | apps/api/src/common/filters/http-exception.filter.ts:37 | `${n}`: one or more decimal digits, a single digit exactly for n < 10, and no leading zero otherwise |
| Common.LastCountOfUniqueKey | apps/api/src/dashboard/dashboard.service.ts:31-36 | with one grouped row per key, folding the rows leaves each key's own count |
| Common.SortBy | apps/api/src/risk/risk.service.ts:53-55 | an `orderBy` result is sorted by the given order and a permutation of its input |
| Grouping.OccurrencesPositive | apps/api/src/reports/reports.service.ts:82-86 | a key is counted at least once exactly when some row holds it |
| Grouping.Distinct | apps/api/src/reports/reports.service.ts:82-86 | the group keys are pairwise different and are exactly the keys of the rows |
| Grouping.GroupCount | apps/api/src/reports/reports.service.ts:82-86 | `groupBy`: one row per distinct key, holding that key's number of rows |
| Grouping.GroupCountFolds | apps/api/src/dashboard/dashboard.service.ts:31-36 | folding the grouped rows gives every key its number of rows, and 0 to an absent key |
| Grouping.DistributionDefaultsToZero | apps/api/src/reports/reports.service.ts:130-140 | an enum value with no grouped row stays at 0 in the record |
| Grouping.DistributionCountsRows | apps/api/src/reports/reports.service.ts:130-162 | when all data keys are enum values, the record holds exactly the enum values, each with its number of rows |
| Grouping.FillDistribution | apps/api/src/reports/reports.service.ts:130-140 | the `reduce` that zeroes every enum value, followed by the `forEach` over grouped rows, builds the distribution record |
| Risk.MapScoreToLevel | apps/api/src/risk/risk.service.ts:271-275 | GREEN iff score <= 30, YELLOW iff 30 < score <= 60, RED iff score > 60 |
| Risk.LevelMonotone | apps/api/src/risk/risk.service.ts:271-275 | a higher score never maps to a lower level |
| Risk.CalculateGradeDelta | apps/api/src/risk/risk.service.ts:277-293 | the two averages are the means of the grades in the current window (on or after its start) and the previous one (before it, on or after the earlier start); delta = previous - current |
| Risk.WindowsDisjoint | apps/api/src/risk/risk.service.ts:283-286 | no assessment is counted in both windows |
| Risk.WindowsPartitionRead | apps/api/src/risk/risk.service.ts:156-158 | every assessment the query reads (since the previous start) lands in exactly one window |
| Risk.NoAssessmentsNoDelta | apps/api/src/risk/risk.service.ts:288 | with no assessment in either window both means are 0, so the delta is 0 and the tier GREEN |
| Risk.MeanBounds | apps/api/src/risk/risk.service.ts:288 | the mean of a non-empty grade list lies between the list's bounds |
| Risk.CalculateAttendanceRate | apps/api/src/risk/risk.service.ts:295-300 | the rate is the number of PRESENT records over the number of records (LATE is not present) |
| Risk.AttendanceTierByRate | apps/api/src/risk/risk.service.ts:197-217 | the integer tiers are those of the rate: RED iff rate < 0.8, YELLOW iff 0.8 <= rate < 0.9, GREEN iff rate >= 0.9 |
| Risk.NoAttendanceIsGreen | apps/api/src/risk/risk.service.ts:296 | no attendance records gives a rate of 1 and tier GREEN |
| Risk.CalculateBehavior | apps/api/src/risk/risk.service.ts:302-310 | the count is the number of INCIDENT or WARNING events of MEDIUM or HIGH severity; hasHigh implies a count of at least 1 |
| Risk.HasHighMeansHighNegativeEvent | apps/api/src/risk/risk.service.ts:308 | hasHigh holds exactly when some negative event is HIGH |
| Risk.NonNegativeEventIgnored | apps/api/src/risk/risk.service.ts:303-306 | praise and low-severity events change neither the count nor hasHigh |
| Risk.HasHighNeverDecidesTier | apps/api/src/risk/risk.service.ts:219-239 | for calculator output the `\|\| hasHigh` disjunct never changes the behaviour tier |
| Risk.Clamp | apps/api/src/risk/risk.service.ts:245 | the result lies in [0, 100] and equals the input when the input already does |
| Risk.CompositeScore | apps/api/src/risk/risk.service.ts:176-245 | the composite score always lies in [0, 100] |
| Risk.SaturationOnlyAtAllRedWithHigh | apps/api/src/risk/risk.service.ts:179-245 | the raw sum is at most 110; it exceeds 100 iff all tiers are RED and hasHigh, and only then does the clamp cut it, to exactly 100 |
| Risk.ScoreMonotoneInTiers | apps/api/src/risk/risk.service.ts:179-245 | raising any tier never lowers the composite score |
| Risk.Indicators | apps/api/src/risk/risk.service.ts:177-239 | three indicator levels, named grade delta, attendance and behaviour, in that order |
| Risk.ScoreIndicators | apps/api/src/risk/risk.service.ts:176-245 | the running score and the pushed indicator list of the if/else chains equal the composite score and the indicator list |
| Risk.Assess | apps/api/src/risk/risk.service.ts:150-247 | the score lies in [0, 100], the level is the mapping of the score, and the three indicators come in order |
| Risk.ScenarioMixedSignals | apps/api/src/risk/risk.service.ts:179-247 | a grade drop of 1.5, attendance of exactly 0.8 and one MEDIUM incident score 35 + 20 + 20 = 75, level RED |
| Risk.ScenarioAllGreen | apps/api/src/risk/risk.service.ts:204-247 | a rate of exactly 0.9 is GREEN; all-green signals score 0, level GREEN |
| RiskRecompute.FindDefinition | apps/api/src/risk/risk.service.ts:328-334 | `findFirst`: the first definition of that name and scope, and None only when there is none |
| RiskRecompute.Resolve | apps/api/src/risk/risk.service.ts:328-334 | a resolved id names a definition of that name, scoped to the school or global |
| RiskRecompute.ResolvePrefersSchool | apps/api/src/risk/risk.service.ts:328-334 | a school-scoped definition wins whenever one exists; the lookup fails only when neither a school-scoped nor a global one exists |
| RiskRecompute.ResolveAppendOther | apps/api/src/risk/risk.service.ts:335-344 | creating a definition of another name does not change how a name resolves |
| RiskRecompute.ResolveAppendCreated | apps/api/src/risk/risk.service.ts:335-344 | a created school-scoped definition is what its name resolves to afterwards |
| RiskRecompute.EnsureDefinitions | apps/api/src/risk/risk.service.ts:312-348 | the loop only appends to the definition table, and everything it appends is scoped to the school |
| RiskRecompute.EnsureDefinitionsKeys | apps/api/src/risk/risk.service.ts:345 | every listed name gets an id, and the mapping gains no other key |
| RiskRecompute.EnsureDefinitionsResolves | apps/api/src/risk/risk.service.ts:328-345 | each returned id is the definition its name resolves to in the table afterwards |
| RiskRecompute.EnsureDefinitionsKeepsResolved | apps/api/src/risk/risk.service.ts:328-344 | a name that resolved before still resolves to the same definition |
| RiskRecompute.EnsureDefinitionsCreatesOnlyMissing | apps/api/src/risk/risk.service.ts:335-344 | a row is created only for a listed name that resolved to nothing, and with that name |
| RiskRecompute.EnsureDefinitionsWhenResolved | apps/api/src/risk/risk.service.ts:328-345 | when every name already resolves, nothing is created and each name maps to its resolved id |
| RiskRecompute.EnsureDefinitionsIdempotent | apps/api/src/risk/risk.service.ts:312-348 | a second call right after the first creates nothing and returns the same mapping |
| RiskRecompute.CanonicalIds | apps/api/src/risk/risk.service.ts:312-348 | the returned mapping has exactly the three indicator names |
| RiskRecompute.CanonicalIdsResolve | apps/api/src/risk/risk.service.ts:249-256 | each id the calculation stores names the definition its indicator resolves to afterwards |
| RiskRecompute.NewValueRows | apps/api/src/risk/risk.service.ts:252-260 | one value row per computed indicator, for the student, pointing at the indicator's definition, with its level and value |
| RiskRecompute.ReplaceLeavesOnlyNewRows | apps/api/src/risk/risk.service.ts:251-260 | after delete-then-insert the student has exactly the new rows |
| RiskRecompute.ReplaceValues | apps/api/src/risk/risk.service.ts:251-260 | `deleteMany` then `createMany`: the other students' rows plus the new rows, which come last, and no row of the student survives from before |
| RiskRecompute.ReplaceKeepsOtherStudents | apps/api/src/risk/risk.service.ts:251 | other students' value rows are untouched |
| RiskRecompute.ReplaceTwiceIsOnce | apps/api/src/risk/risk.service.ts:251-260 | replacing twice with the same rows is replacing once: three rows, never six |
| RiskRecompute.ScopeIds | apps/api/src/risk/risk.service.ts:127-132 | every student in the run belongs to the school |
| RiskRecompute.Entries | apps/api/src/risk/risk.service.ts:79-83 | one entry per value row, with its definition's name, value and level |
| RiskRecompute.DetailedEntries | apps/api/src/risk/risk.service.ts:116-121 | one entry per value row, with its definition's name and the row's value, level and calculation time |
| RiskRecompute.RecentEvents | apps/api/src/risk/risk.service.ts:94-97 | min(5, number of the student's events) of the student's own events, newest first, drawn without repetition from them (sub-multiset), and no left-out event of the student is later than a kept one |
| RiskRecompute.PrefixIsLatest | apps/api/src/risk/risk.service.ts:94-97 | `take` after a newest-first `orderBy` keeps events of the list, and none it drops is later than one it keeps |
| RiskRecompute.DateDescPairwise | apps/api/src/risk/risk.service.ts:95 | a list ordered newest first pair by pair is ordered newest first between any two positions |
| RiskRecompute.GroupStep | apps/api/src/risk/risk.service.ts:67-70 | one more value row appends its entry to its own student's list and to no other |
| RiskRecompute.StoredRowsKnown | apps/api/src/risk/risk.service.ts:249-260 | after a calculation every value row still points at an existing definition |
| RiskRecompute.AssessAll | apps/api/src/risk/risk.service.ts:134-137 | each student's assessment in the run is the calculation of that student at that moment |
| RiskRecompute.RecalculateAllStep | apps/api/src/risk/risk.service.ts:135-138 | one more student of the run adds exactly one calculation step |
| RiskRecompute.CalculateStepStores | apps/api/src/risk/risk.service.ts:249-266 | one calculation stores the new score row and exactly the new value rows for the student; every other student keeps theirs |
| RiskRecompute.CalculateStep | apps/api/src/risk/risk.service.ts:249-266 | one calculation only appends definitions, adds exactly that student to the scored students, and gives them a score row with the assessed score and level (that every other student keeps their rows is `CalculateStepStores`) |
| RiskRecompute.RecalculateAll | apps/api/src/risk/risk.service.ts:134-139 | a run only appends definitions and removes no student's score row (what each student then holds is `RecalculateAllStored` and `RecalculateAllUntouched`) |
| RiskRecompute.RecalculateAllSound | apps/api/src/risk/risk.service.ts:126-140 | after a school-wide run each student of the run has a fresh score row and value rows, everyone else is untouched, and the definitions are ensured once |
| RiskRecompute.RecalculateAllDefinitions | apps/api/src/risk/risk.service.ts:134-139 | an empty run keeps the definition table; any other run leaves it as one `ensureIndicatorDefinitions` call does |
| RiskRecompute.RecalculateAllStored | apps/api/src/risk/risk.service.ts:134-139 | each student of the run holds the score row and indicator values of a fresh calculation, with the definition ids of the table the run started from |
| RiskRecompute.RecalculateAllUntouched | apps/api/src/risk/risk.service.ts:134-139 | a student outside the run keeps exactly the score row (or its absence) and value rows they had |
| RiskRecompute.RecalculateTwiceStoresSame | apps/api/src/risk/risk.service.ts:126-140 | running the recalculation twice on the same signals leaves every student's stored rows as one run does |
| RiskRecompute.RiskService.constructor | apps/api/src/risk/risk.service.ts:26 | the service starts over the given tables, with no value or score rows |
| RiskRecompute.RiskService.EnsureIndicatorDefinitions | apps/api/src/risk/risk.service.ts:312-348 | the new definition table and the returned mapping are those of the lookup-or-create loop |
| RiskRecompute.RiskService.CalculateRiskForStudent | apps/api/src/risk/risk.service.ts:142-269 | a student outside the school is NotFound and writes nothing; otherwise it returns the assessed score and level and performs exactly one calculation step |
| RiskRecompute.RiskService.StoreCalculation | apps/api/src/risk/risk.service.ts:249-266 | ensure definitions, replace the student's value rows, upsert the score row; the stored rows stay consistent |
| RiskRecompute.RiskService.RecalculateRiskForSchool | apps/api/src/risk/risk.service.ts:126-140 | returns the number of students in scope; the tables are those of calculating each of them in order |
| RiskRecompute.RiskService.RecalculateNext | apps/api/src/risk/risk.service.ts:135-138 | one loop iteration extends the run by the next student |
| RiskRecompute.RiskService.RankedStudents | apps/api/src/risk/risk.service.ts:40-55 | exactly the scored students of the school that pass the level and class filters when given: each listed one passes, each passing one is listed, and the length is their count; highest score first |
| RiskRecompute.RiskService.GroupByStudent | apps/api/src/risk/risk.service.ts:66-70 | each student's list holds exactly that student's value rows of the page, in table order |
| RiskRecompute.RiskService.ListRiskStudents | apps/api/src/risk/risk.service.ts:28-85 | one row per student on the requested page of the ranking (the page of `RankedStudents` at skip/take), each with that student's stored score and all of their indicator entries |
| RiskRecompute.RiskService.RowsOf | apps/api/src/risk/risk.service.ts:72-84 | one response row per ranked student, in order, with their own indicator entries |
| RiskRecompute.RiskService.GetRiskForStudent | apps/api/src/risk/risk.service.ts:87-124 | NotFound iff the student is not in the school; otherwise the stored score (or none), the stored indicator values with name, value, level and time, and the five latest events as `RecentEvents` characterises them |
| Settings.MergeThresholds | apps/api/src/settings/settings.service.ts:42-45 | a threshold sent as a number replaces the stored one; left out or sent as null, the stored one stays |
| Settings.CheckThresholds | apps/api/src/settings/settings.service.ts:47-60 | passes iff both thresholds are set, 0 <= green < yellow < 100; otherwise the first failing check's message, in code order |
| Settings.UpdateError | apps/api/src/settings/settings.service.ts:41-60 | no error when no threshold is touched; otherwise an error iff the merged pair is invalid |
| Settings.SettingsService.constructor | apps/api/src/settings/settings.service.ts:7 | the service starts over the given schools and settings |
| Settings.SettingsService.StoredThresholds | apps/api/src/settings/settings.service.ts:24-27 | a school without a settings row reads null for both thresholds |
| Settings.SettingsService.GetSchoolSettings | apps/api/src/settings/settings.service.ts:9-29 | NotFound iff the school is unknown; otherwise its name, city, type and stored thresholds |
| Settings.SettingsService.UpdateSchoolSettings | apps/api/src/settings/settings.service.ts:31-88 | a rejected update writes nothing; otherwise the school row changes only if a name or city is sent, the settings row only if a threshold is sent, and stored thresholds are always valid |
| Settings.SingleThresholdMergesWithStored | apps/api/src/settings/settings.service.ts:42-60 | sending only green keeps the stored yellow, and the pair is checked against it |
| Settings.GreenAboveYellowRefused | apps/api/test/settings.service.test.js:44-51 | green 70 with yellow 60 is refused with the ordering message |
| Settings.NullThresholdWithoutStoredRefused | apps/api/src/settings/settings.service.ts:41-50 | null for a threshold with nothing stored counts as an update and is refused: both must be set |
| Classes.NameLeTotal | apps/api/src/classes/classes.service.ts:11 | any two class names are ordered one way or the other |
| Classes.FindClass | apps/api/src/classes/classes.service.ts:30 | the first class of the school with that name, and None only when there is none |
| Classes.FindClassAppend | apps/api/src/classes/classes.service.ts:29-33 | creating classes never changes a lookup that already found one |
| Classes.ClassesService.constructor | apps/api/src/classes/classes.service.ts:6 | the service starts over the given classes |
| Classes.ClassesService.ListClasses | apps/api/src/classes/classes.service.ts:8-19 | exactly the school's classes, each once, in ascending order of name |
| Classes.ClassesService.GetClassOrThrow | apps/api/src/classes/classes.service.ts:21-27 | NotFound iff no class with that id belongs to the school; otherwise that class |
| Classes.ClassesService.GetOrCreateByName | apps/api/src/classes/classes.service.ts:29-33 | an existing class is returned untouched; otherwise one row with only school and name is appended; afterwards the name finds the returned id |
| Classes.CreatedClassIsFound | apps/api/src/classes/classes.service.ts:29-33 | after a creation, the next lookup of that name finds the new class |
| ParentIssues.FilterOf | apps/api/src/parent-issues/parent-issues.service.ts:25-33 | school, status, priority and student pass through as given; a class filter exists iff a class id is given |
| ParentIssues.Ordered | apps/api/src/parent-issues/parent-issues.service.ts:36-46 | exactly the issues the filter selects, each once, newest first; their number is the count query's |
| ParentIssues.PageIds | apps/api/src/parent-issues/parent-issues.service.ts:35-47 | the page is the window from position skip of the ordered selection, with exactly min(size, selected issues left after skip) ids |
| ParentIssues.PageIdsMatchNewestFirst | apps/api/src/parent-issues/parent-issues.service.ts:36-45 | every issue on a page matches the filter, and the page is newest first |
| ParentIssues.WindowOfSelection | apps/api/src/parent-issues/parent-issues.service.ts:42-44 | the page `PageOf` cuts from a newest-first selection of matching issues is itself one: in range, matching, newest first |
| ParentIssues.StudentRefOf | apps/api/src/parent-issues/parent-issues.service.ts:59-66 | a student reference is present exactly when the issue names an existing student, and then names that student (class id only, see Left out) |
| ParentIssues.UserRefOf | apps/api/src/parent-issues/parent-issues.service.ts:67-69 | an assignee is present exactly when the user exists, and shows the user's email as name |
| ParentIssues.SummaryOf | apps/api/src/parent-issues/parent-issues.service.ts:53-70 | a summary carries the issue's id, title, status, priority and creation time, its student reference and its assignee |
| ParentIssues.Summaries | apps/api/src/parent-issues/parent-issues.service.ts:53 | one summary per id, in order |
| ParentIssues.NewIssue | apps/api/src/parent-issues/parent-issues.service.ts:135-145 | status NEW, unassigned, not closed; a missing description, category or priority becomes '', OTHER or MEDIUM |
| ParentIssues.Merge | apps/api/src/parent-issues/parent-issues.service.ts:161-175 | fields left out keep their value; the assignee is replaced when sent, so null unassigns; closedAt becomes now exactly when the new status is RESOLVED or CLOSED_NO_ACTION |
| ParentIssues.Thread | apps/api/src/parent-issues/parent-issues.service.ts:80-83 | exactly the issue's comments: each listed one is the issue's, each of the issue's is listed, and the length is their count; oldest first |
| ParentIssues.CommentViews | apps/api/src/parent-issues/parent-issues.service.ts:112-117 | one view per comment, in order, with its id, text, time and author |
| ParentIssues.IssueDetailOf | apps/api/src/parent-issues/parent-issues.service.ts:87-118 | the issue, its student reference, its assignee, and a thread holding every comment of the issue, only those and each once, oldest first by the rows' creation times; each comment view carries that row's text, time and author |
| ParentIssues.AppendCommentCounts | apps/api/src/parent-issues/parent-issues.service.ts:181-190 | a new comment lengthens its own issue's thread by one and no other thread |
| ParentIssues.ParentIssuesService.constructor | apps/api/src/parent-issues/parent-issues.service.ts:11 | the service starts over the given tables |
| ParentIssues.ParentIssuesService.ListIssues | apps/api/src/parent-issues/parent-issues.service.ts:13-72 | the total counts the same selection the page is taken from; the items are the summaries of the page |
| ParentIssues.ParentIssuesService.GetIssue | apps/api/src/parent-issues/parent-issues.service.ts:74-119 | NotFound iff the issue is not the school's; otherwise the issue, its student reference, its assignee and its whole comment thread: every comment of the issue and only those, as many as it has, oldest first, each with its row's text, time and author |
| ParentIssues.ParentIssuesService.CreateIssue | apps/api/src/parent-issues/parent-issues.service.ts:121-146 | a given student outside the school is NotFound and nothing is created; otherwise the new issue is appended |
| ParentIssues.ParentIssuesService.UpdateIssue | apps/api/src/parent-issues/parent-issues.service.ts:148-176 | an issue outside the school, or an assignee outside the school, is NotFound and nothing changes; otherwise only that issue becomes the merged row |
| ParentIssues.ParentIssuesService.AddComment | apps/api/src/parent-issues/parent-issues.service.ts:178-191 | only an issue of the school can be commented on; the comment joins the end of its thread |
| ParentIssues.NoClassIdNoClassFilter | apps/api/src/parent-issues/parent-issues.service.ts:25-33 | without a class id an issue matches on school, status, priority and student alone |
| ParentIssues.ClassIdRequiresStudentInClass | apps/api/src/parent-issues/parent-issues.service.ts:31-33 | with a class id only issues about a student of that class match |
| ParentIssues.SecondPageOfFive | apps/api/test/parent-issues.service.test.js:42-43 | page 2 of size 5 skips 5 and takes 5 |
| ParentIssues.CreateDefaults | apps/api/test/parent-issues.service.test.js:72-75 | a title-only issue is NEW, OTHER, MEDIUM, with an empty description |
| ParentIssues.EmptyUpdateKeepsIssue | apps/api/src/parent-issues/parent-issues.service.ts:163-173 | an empty update body leaves the issue as it was |
| ParentIssues.MergeIdempotent | apps/api/src/parent-issues/parent-issues.service.ts:161-175 | applying the same update twice at the same moment is applying it once |
| ParentIssues.ReopenKeepsClosedAt | apps/api/src/parent-issues/parent-issues.service.ts:170-173 | reopening keeps the old closedAt; closing again stamps the new moment |
| ParentIssues.ClosingUpdateStampsClosedAt | apps/api/src/parent-issues/parent-issues.service.ts:170-173 | a closing update leaves a closing status with closedAt set to now |
| ActionPlans.Tally | apps/api/src/action-plans/action-plans.service.ts:29-34 | the three counters together never exceed the number of items |
| ActionPlans.TallyCountsEveryNamedItem | apps/api/src/action-plans/action-plans.service.ts:30-34 | when every item is TODO, IN_PROGRESS or DONE, the counters add up to the number of items |
| ActionPlans.TallyIsCount | apps/api/src/action-plans/action-plans.service.ts:29-34 | each counter is the number of items with its status |
| ActionPlans.TallyItems | apps/api/src/action-plans/action-plans.service.ts:29-34 | the loop's counters are the tally |
| ActionPlans.NormalizeDueDate | apps/api/src/action-plans/action-plans.service.ts:190-194 | undefined stays undefined, null stays null, a date is kept, a string is parsed |
| ActionPlans.ApplyDueDate | apps/api/src/action-plans/action-plans.service.ts:179-181 | undefined keeps the stored date, null clears it, a date replaces it |
| ActionPlans.PlanItemStatuses | apps/api/src/action-plans/action-plans.service.ts:24 | at most one status per item of the table; `PlanItemStatusesCount` gives each status's number of occurrences |
| ActionPlans.PlanItemStatusesCount | apps/api/src/action-plans/action-plans.service.ts:24-34 | each status occurs among the statuses handed to the tally exactly as often as the plan has items in that status |
| ActionPlans.StudentPlans | apps/api/src/action-plans/action-plans.service.ts:22-26 | exactly the student's plans: each listed one is the student's, each of the student's is listed, and the length is their count; newest first |
| ActionPlans.PlanItems | apps/api/src/action-plans/action-plans.service.ts:54-57 | exactly the plan's items: each listed one is the plan's, each of the plan's is listed, and the length is their count; oldest first |
| ActionPlans.AccountOf | apps/api/src/action-plans/action-plans.service.ts:53 | an account is present exactly when the user exists |
| ActionPlans.ItemViews | apps/api/src/action-plans/action-plans.service.ts:71-77 | one view per item, in order, each carrying its row's id, description, status, due date and owner |
| ActionPlans.PlanDetailOf | apps/api/src/action-plans/action-plans.service.ts:64-78 | the plan's goal, status, creation time and creator, and views of every item of the plan, only those and each once, oldest first, each carrying its row's description, status, due date and owner |
| ActionPlans.MergePlan | apps/api/src/action-plans/action-plans.service.ts:108-114 | a given goal or status replaces the stored one; the rest of the plan is unchanged |
| ActionPlans.MergeItem | apps/api/src/action-plans/action-plans.service.ts:168-187 | a given description or status replaces the stored one; the owner is the settled one; the due date follows ApplyDueDate |
| ActionPlans.ActionPlansService.constructor | apps/api/src/action-plans/action-plans.service.ts:11 | the service starts over the given tables |
| ActionPlans.ActionPlansService.ListForStudent | apps/api/src/action-plans/action-plans.service.ts:13-44 | NotFound iff the student is not the school's; otherwise one summary per plan of `StudentPlans` (every plan of the student, each once, newest first), with the tally of that plan's items |
| ActionPlans.ActionPlansService.GetPlan | apps/api/src/action-plans/action-plans.service.ts:46-79 | NotFound iff the plan's student is not the school's; otherwise the plan's goal, status, creation time and creator and all its items: every item of the plan and only those, as many as it has, oldest first, each with its row's description, status, due date and owner |
| ActionPlans.ActionPlansService.CreatePlan | apps/api/src/action-plans/action-plans.service.ts:81-98 | a student outside the school is NotFound and nothing is created; otherwise an OPEN plan by the caller is appended |
| ActionPlans.ActionPlansService.UpdatePlan | apps/api/src/action-plans/action-plans.service.ts:100-115 | a plan outside the school is NotFound; otherwise only that plan becomes the merged row |
| ActionPlans.ActionPlansService.AddItem | apps/api/src/action-plans/action-plans.service.ts:117-146 | a plan outside the school, or an owner (the caller by default) outside it, is NotFound and nothing is created; otherwise the item is appended, with a due date only when one is sent |
| ActionPlans.ActionPlansService.UpdateItem | apps/api/src/action-plans/action-plans.service.ts:148-188 | an item outside the school, or a given owner outside it, is NotFound and nothing changes; otherwise only that item becomes the merged row |
| ActionPlans.StatusOnlyUpdateKeepsGoal | apps/api/test/action-plans.service.test.js:90-91 | moving an OPEN plan to IN_PROGRESS keeps its goal |
| ActionPlans.MergePlanIdempotent | apps/api/src/action-plans/action-plans.service.ts:108-114 | applying a plan update twice is applying it once |
| ActionPlans.EmptyItemUpdateKeepsItem | apps/api/src/action-plans/action-plans.service.ts:156-181 | an empty item update leaves the item as it was |
| ActionPlans.DueDateNullClearsTextParses | apps/api/src/action-plans/action-plans.service.ts:179-181 | a due date of null clears the stored one; a date string stores the parsed date |
| Importer.RowFailure | apps/api/src/importer/import.service.ts:39-62 | an incomplete row fails with "Missing required fields"; a complete row fails exactly when creating its student fails |
| Importer.ErrorsOf | apps/api/src/importer/import.service.ts:29-62 | at most one error per row, numbered from 1, in increasing row order |
| Importer.CreatedRecords | apps/api/src/importer/import.service.ts:52-59 | created rows plus errors account for every row, and every created row is complete |
| Importer.ErrorsExplained | apps/api/src/importer/import.service.ts:40 | each error entry is the failure of the row it names |
| Importer.FailingRowListed | apps/api/src/importer/import.service.ts:40-61 | every failing row has its entry in the error list |
| Importer.RowStep | apps/api/src/importer/import.service.ts:32-63 | one more row adds either one error or one created record |
| Importer.StudentOf | apps/api/src/importer/import.service.ts:52-58 | the created student has the school, the class, the names and the external id of the row |
| Importer.StudentsMatchGrowClasses | apps/api/src/importer/import.service.ts:45-50 | creating classes never invalidates the students already imported |
| Importer.StudentsMatchAppend | apps/api/src/importer/import.service.ts:52-59 | a created student joins the table in row order, in a class of the school with the row's class name |
| Importer.KeepFound | apps/api/src/importer/import.service.ts:45-50 | cached class ids stay correct while classes are only appended |
| Importer.ImportService.constructor | apps/api/src/importer/import.service.ts:15-18 | the service starts over the given classes service and students |
| Importer.ImportService.ClassFor | apps/api/src/importer/import.service.ts:45-50 | the class of the school with that name; a cache hit creates nothing; a miss is looked up once and cached |
| Importer.ImportService.ImportRow | apps/api/src/importer/import.service.ts:33-62 | one row keeps the loop's bookkeeping: errors, created count, student table, class table and cache |
| Importer.ImportService.ImportStudents | apps/api/src/importer/import.service.ts:20-66 | every row is processed; created plus errors equals processed; the errors and created students follow each row's outcome in order; classes are only appended; each class name is looked up at most once |
| Dashboard.SchoolLevels | apps/api/src/dashboard/dashboard.service.ts:12-16 | one level per scored student of the school |
| Dashboard.StudentsTotal | apps/api/src/dashboard/dashboard.service.ts:11 | the count is positive exactly when the school has a student, and never exceeds the student table |
| Dashboard.OpenIssues | apps/api/src/dashboard/dashboard.service.ts:17-22 | the count is positive exactly when the school has an issue in neither RESOLVED nor CLOSED_NO_ACTION |
| Dashboard.ActivePlans | apps/api/src/dashboard/dashboard.service.ts:23-28 | the count is positive exactly when a student of the school has an OPEN or IN_PROGRESS plan |
| Dashboard.FoldRiskCounts | apps/api/src/dashboard/dashboard.service.ts:31-36 | the loop's record gives each level the count of its last grouped row, 0 without one |
| Dashboard.GetOverview | apps/api/src/dashboard/dashboard.service.ts:9-44 | students of the school; per level, the number of the school's students scored at it; open issues; active plans |
| Dashboard.FoldRowSetsOwnLevel | apps/api/src/dashboard/dashboard.service.ts:33-35 | a grouped row sets its own level's field and no other |
| Dashboard.AbsentLevelIsZero | apps/api/src/dashboard/dashboard.service.ts:31 | a level with no grouped row stays 0 |
| Dashboard.MissingLevelStaysZero | apps/api/src/dashboard/dashboard.service.ts:31-36 | rows GREEN 5 and RED 2 give green 5, yellow 0, red 2 |
| Dashboard.NewIssueIsOpen | apps/api/src/dashboard/dashboard.service.ts:17-22 | a newly created issue adds one to the school's open issues |
| Dashboard.ClosingIssueLeavesOpenCount | apps/api/src/dashboard/dashboard.service.ts:17-22 | resolving or closing an open issue takes one off the count |
| Dashboard.CreatedPlanIsActive | apps/api/src/dashboard/dashboard.service.ts:23-28 | a new OPEN plan for a student of the school adds one active plan |
| Reports.DaysCeil | apps/api/src/reports/reports.service.ts:57 | the rounded-up day count d satisfies (d - 1) days < span <= d days |
| Reports.PeriodCheck | apps/api/src/reports/reports.service.ts:53-60 | a reversed period is refused first; otherwise accepted iff the span is at most 366 days |
| Reports.GenerationError | apps/api/src/reports/reports.service.ts:53-65 | the period is checked before the school: a period error wins; otherwise "School not found" for an unknown school; no error exactly when the period is valid and the school exists |
| Reports.EqualDatesAccepted | apps/api/src/reports/reports.service.ts:53-60 | a period whose start equals its end is accepted |
| Reports.PeriodLimitIsSharp | apps/api/src/reports/reports.service.ts:57-60 | exactly 366 days is accepted; one millisecond more is refused |
| Reports.JanuaryPeriodAccepted | apps/api/test/reports.service.test.js:83-84 | the January 2024 period is accepted |
| Reports.FilePathDeterminesReport | apps/api/src/reports/reports.service.ts:165 | two reports share a file path only with the same school and the same id |
| Reports.FilePath | apps/api/src/reports/reports.service.ts:165 | the path starts with "reports/", ends with ".pdf", and holds the report id just before the extension |
| Reports.PathPartsDetermined | apps/api/src/reports/reports.service.ts:165 | a path of that shape determines its digits and its report id |
| Reports.NewReport | apps/api/src/reports/reports.service.ts:184-194 | the inserted row has the report id, the school, type MONTHLY_DIRECTOR, the period, the caller or null, and the file path built from school and id |
| Reports.Statuses | apps/api/src/reports/reports.service.ts:100-107 | the grouped key of each issue is its status |
| Reports.Priorities | apps/api/src/reports/reports.service.ts:108-115 | the grouped key of each issue is its priority |
| Reports.DirectorDataOf | apps/api/src/reports/reports.service.ts:71-162 | the report names the school and period; every count is at most the size of its table; each record has an entry for every enum value |
| Reports.CollectDirectorData | apps/api/src/reports/reports.service.ts:71-162 | the gathered figures are the report's figures for the school and period |
| Reports.RiskRecordCountsLevels | apps/api/src/reports/reports.service.ts:130-140 | the risk record has exactly the three levels, each with its number of students |
| Reports.RiskDistributionCountsLevels | apps/api/src/reports/reports.service.ts:82-86 | the report's risk record gives each level the number of the school's scored students at it, the same figures the dashboard shows |
| Reports.IssueStatusCountsPeriod | apps/api/src/reports/reports.service.ts:100-107 | the status record holds exactly the schema's statuses, each with the number of the period's issues in it |
| Reports.IssuePriorityCountsPeriod | apps/api/src/reports/reports.service.ts:108-115 | the priority record holds exactly the schema's priorities, each with the number of the period's issues at it |
| Reports.GroupedRiskRowsExample | apps/api/test/reports.service.test.js:33-36 | grouped rows GREEN 5 and RED 2 give the record GREEN 5, YELLOW 0, RED 2 |
| Reports.OrderedReports | apps/api/src/reports/reports.service.ts:213-226 | exactly the school's reports (of the type, when given): each listed one matches, each match is listed, and the length is their count; newest first |
| Reports.Summaries | apps/api/src/reports/reports.service.ts:218-233 | one summary per id, in order |
| Reports.FindReport | apps/api/src/reports/reports.service.ts:244-246 | the first report with that id in the school; None iff there is none |
| Reports.ReportsService.constructor | apps/api/src/reports/reports.service.ts:26 | the service starts over the given tables, storage and enum lists |
| Reports.ReportsService.GenerateMonthlyDirectorReport | apps/api/src/reports/reports.service.ts:47-201 | a refused period or unknown school writes nothing; otherwise the figures are written at the report's path and one row named after that file is appended |
| Reports.ReportsService.StoreReport | apps/api/src/reports/reports.service.ts:164-194 | writes the figures at the report's path and appends the report row |
| Reports.ReportsService.GenerateReport | apps/api/src/reports/reports.service.ts:28-45 | any type but the monthly director report is a BadRequest and writes nothing; otherwise as the generation |
| Reports.ReportsService.ListReports | apps/api/src/reports/reports.service.ts:203-241 | the total counts the school's matching reports and equals the length of the ordered list; the items are the requested page of that list, newest first |
| Reports.ReportsService.GetReportDownload | apps/api/src/reports/reports.service.ts:243-260 | no report in the school is "Report not found"; a found report whose file is missing is "Report file not found"; a found report whose file is present is returned with the storage path of its file |
| Reports.GeneratedReportDownloads | apps/api/src/reports/reports.service.ts:164-194 | after generation, downloading the new report by its id in its school succeeds with that report and its file's storage path |
| HttpFilter.ExtractMessage | apps/api/src/common/filters/http-exception.filter.ts:48-62 | a string body wins, then an object body's `message` (whatever it holds), then the Error's message, then "Internal server error" |
| HttpFilter.Catch | apps/api/src/common/filters/http-exception.filter.ts:15-46 | an HttpException keeps its status and anything else is 500; the payload carries that status, the extracted message, the URL and the timestamp; an error log (with the stack exactly for an Error) from 500 up, a warning below, both reading "method url -> status" |
| HttpFilter.PayloadEchoesRequest | apps/api/src/common/filters/http-exception.filter.ts:20-35 | the payload carries the response status, the request URL and the clock's timestamp; an HttpException keeps its own status |
| HttpFilter.UnexpectedExceptionIs500 | apps/api/src/common/filters/http-exception.filter.ts:20-43 | anything but an HttpException is a 500 logged as an error, with the Error's message and stack or the fixed text |
| HttpFilter.StringBodyIsTheMessage | apps/api/src/common/filters/http-exception.filter.ts:49-51 | a string body is the message, even an empty one |
| HttpFilter.ObjectMessagePassesThrough | apps/api/src/common/filters/http-exception.filter.ts:53-55 | an object body's `message` passes through unchanged, lists included |
| HttpFilter.BodyWithoutMessageUsesErrorMessage | apps/api/src/common/filters/http-exception.filter.ts:57-59 | a body without a message falls back to the exception's own message |
| HttpFilter.LogLevelFollowsStatus | apps/api/src/common/filters/http-exception.filter.ts:39-43 | an error log iff the status is at least 500; a warning iff below |
| HttpFilter.LogLineNamesStatus | apps/api/src/common/filters/http-exception.filter.ts:37 | the log line is "method url -> " followed by the status in decimal, which reads back as the status |

## Left out

- **Database access.** Prisma is not modelled: connections, the
  `$transaction` of the issue list, concurrency between requests and
  storage failures are all out. Every query is a function over the tables
  held in a service's fields. A school-wide recalculation therefore never
  meets a failing write.
- **Files and PDF rendering.** PDF rendering, `mkdir`, and file-system
  failures other than a missing file are out. The storage directory is a
  map from path to the figures written there, and `fs.access` is a key
  lookup.
- Reports.ReportsService.FullPath: `path.join` normalises the joined path
  (apps/api/src/reports/reports.service.ts:166, :252). The model joins the
  storage root and the stored relative path with a plain `/`, so `..`
  segments and doubled separators are not resolved. `FilePath` likewise
  concatenates the segments that `path.posix.join` joins at line 165; a
  UUID report id and a decimal school id contain no separator, so nothing
  there needs normalising.
- **Runtime values become parameters.** The clock, `randomUUID` (the
  report id) and the `Date` string parser (`parseDate`) are parameters.
  Every `new Date()` of one call is the single instant `now`.
- **Calendar arithmetic.** Windows are `now - 90 * 86400000` ms and so on;
  the local-time `setDate` arithmetic and daylight-saving days are out.
- **Floating point and invalid dates.** IEEE rounding of grade means and of
  the attendance rate is not modelled, and neither are `NaN` page
  parameters or invalid dates.
- **Out-of-scope API layers.** Authentication, guards, controllers and DTO
  validation are out. The reports controller's own repetition of the
  period check is among them.
- **CSV parsing.** Records arrive parsed and trimmed, with a missing column
  as None.
- **Logging.** The report service's logger lines (`formatDate`) are out.
  The filter's log line is modelled as data, and nothing writes it
  anywhere.
- **Row detail not modelled.** `updatedAt` columns are out. `createdAt`
  defaults are the `now` parameter. Nest's derivation of
  `HttpException.message` from its response is out: the message is a field
  of the exception.
- **Result order of `groupBy`.** The database gives no order; the model
  returns groups in order of first appearance. The folds proved here give
  the same record for any order of distinct keys.
- **Schema enums.** Statuses, priorities and their value lists come from
  the database schema, which is not part of this model. The lists the
  report's records start from are parameters; the values the code never
  names are catch-all constructors.
- **Ids.** String ids are positions, so an empty-string id (falsy in
  `if (dto.ownerUserId)` and `if (!classId)`) cannot occur.
- Classes.ClassesService.ListClasses: names are ordered by code point.
  The database orders `orderBy: { name: 'asc' }`
  (apps/api/src/classes/classes.service.ts:11) by its collation, whose
  treatment of case and accents is not captured.
- ParentIssues.StudentRefOf: the student reference carries the class id.
  The code returns the class as `{ id, name }`, or `null` without a class
  (apps/api/src/parent-issues/parent-issues.service.ts:64, :105). The issues
  service here does not hold the class table, so the class name is not
  modelled, and every student has a class.
- Risk.CalculateGradeDelta: means are exact rationals, not IEEE doubles, so
  rounding at the 1.0 and 0.5 tier bounds is not captured.
- Risk.CalculateAttendanceRate: the rate is the exact fraction
  present / total rather than a double.
- Importer.ImportService.ImportStudents: only the student creation may
  fail. A failure of the class lookup or creation, which the same `catch`
  would also record against the row, is not modelled. The code inserts with
  `createMany({ skipDuplicates: true })`
  (apps/api/src/students/students.service.ts:37) and still counts the row
  as created. A row that collides with a unique key is skipped by the
  database. The unique keys belong to the schema, which is not part of this
  model, so the model always inserts a created row.
- RiskRecompute.RiskService.RecalculateRiskForSchool: always succeeds,
  because no write can fail in the model. The code's abort of the run on
  the first failing student is not captured.
- Reports.ReportsService.GenerateMonthlyDirectorReport: writing the file
  cannot fail. An orphan file left when the report row insert fails is not
  captured.
