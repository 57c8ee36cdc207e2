/**
 * The pure half of the student risk-scoring engine: the three indicator
 * calculators (grade trend, attendance rate, negative behaviour events), the
 * tier of each indicator, the composite score with its fixed point
 * contributions and saturation at 100, and the mapping of a score to a level.
 *
 * Grades are exact rationals (`real`); the attendance tiers compare by integer
 * cross-multiplication and are proved to agree with the rate's thresholds.
 * Dates are milliseconds since the epoch.
 */
module Risk {
  import opened Common

  const DefaultPeriodDays: int := 90
  const DayMs: int := 86400000

  datatype RiskLevel = Green | Yellow | Red
  datatype AttendanceStatus = Present | Absent | Late | JustifiedAbsent
  datatype BehaviorType = Praise | Incident | Warning
  datatype BehaviorSeverity = Low | Medium | High

  datatype Assessment = Assessment(studentId: nat, grade: real, date: int)
  datatype AttendanceRecord = AttendanceRecord(studentId: nat, status: AttendanceStatus, date: int)
  datatype BehaviorEvent = BehaviorEvent(studentId: nat, kind: BehaviorType, severity: BehaviorSeverity, date: int)

  // ---------------------------------------------------------------------------
  // Level of a composite score.

  function MapScoreToLevel(score: int): (level: RiskLevel)
    ensures level == Green <==> score <= 30
    ensures level == Yellow <==> 30 < score <= 60
    ensures level == Red <==> score > 60
  {
    if score <= 30 then Green
    else if score <= 60 then Yellow
    else Red
  }

  function Rank(level: RiskLevel): nat
  {
    match level
    case Green => 0
    case Yellow => 1
    case Red => 2
  }

  /** A higher score never maps to a lower level. */
  lemma LevelMonotone(a: int, b: int)
    requires a <= b
    ensures Rank(MapScoreToLevel(a)) <= Rank(MapScoreToLevel(b))
  {
  }

  // ---------------------------------------------------------------------------
  // Grade delta: the previous 90-day window's mean grade minus the current one's.

  /** The current window: on or after `currentStart`. */
  function CurrentWindow(currentStart: int): Assessment -> bool
  {
    (a: Assessment) => a.date >= currentStart
  }

  /** The previous window: from `previousStart` up to, not including, `currentStart`. */
  function PreviousWindow(currentStart: int, previousStart: int): Assessment -> bool
  {
    (a: Assessment) => a.date < currentStart && a.date >= previousStart
  }

  /** What the assessment query reads: everything on or after `previousStart`. */
  function AssessedSince(previousStart: int): Assessment -> bool
  {
    (a: Assessment) => a.date >= previousStart
  }

  function Grades(s: seq<Assessment>): (g: seq<real>)
    ensures |g| == |s|
    ensures forall i :: 0 <= i < |s| ==> g[i] == s[i].grade
  {
    seq(|s|, i requires 0 <= i < |s| => s[i].grade)
  }

  function Sum(s: seq<real>): real
  {
    if s == [] then 0.0 else Sum(s[..|s| - 1]) + s[|s| - 1]
  }

  /** The arithmetic mean; an empty list has mean 0. */
  function Mean(s: seq<real>): real
  {
    if |s| == 0 then 0.0 else Sum(s) / (|s| as real)
  }

  datatype GradeDelta = GradeDelta(avgCurrent: real, avgPrev: real, delta: real)

  function CalculateGradeDelta(assessments: seq<Assessment>, currentStart: int, previousStart: int): (g: GradeDelta)
    ensures g.avgCurrent == Mean(Grades(Filter(assessments, CurrentWindow(currentStart))))
    ensures g.avgPrev == Mean(Grades(Filter(assessments, PreviousWindow(currentStart, previousStart))))
    ensures g.delta == g.avgPrev - g.avgCurrent
  {
    var currentGrades := Grades(Filter(assessments, CurrentWindow(currentStart)));
    var prevGrades := Grades(Filter(assessments, PreviousWindow(currentStart, previousStart)));
    var avgCurrent := Mean(currentGrades);
    var avgPrev := Mean(prevGrades);
    GradeDelta(avgCurrent, avgPrev, avgPrev - avgCurrent)
  }

  /** No assessment is in both windows. */
  lemma WindowsDisjoint(a: Assessment, currentStart: int, previousStart: int)
    ensures !(CurrentWindow(currentStart)(a) && PreviousWindow(currentStart, previousStart)(a))
  {
  }

  /**
   * The two windows split what the query read: each assessment dated on or
   * after `previousStart` lands in exactly one of them.
   */
  lemma {:induction false} WindowsPartitionRead(s: seq<Assessment>, currentStart: int, previousStart: int)
    requires previousStart <= currentStart
    ensures multiset(Filter(s, CurrentWindow(currentStart))) + multiset(Filter(s, PreviousWindow(currentStart, previousStart)))
         == multiset(Filter(s, AssessedSince(previousStart)))
    decreases |s|
  {
    if s != [] {
      WindowsPartitionRead(s[1..], currentStart, previousStart);
    }
  }

  /** With no assessment in either window both means are 0, so the delta is 0 (tier GREEN). */
  lemma NoAssessmentsNoDelta(assessments: seq<Assessment>, currentStart: int, previousStart: int)
    requires forall i :: 0 <= i < |assessments| ==> assessments[i].date < previousStart
    requires previousStart <= currentStart
    ensures CalculateGradeDelta(assessments, currentStart, previousStart).delta == 0.0
    ensures GradeTier(CalculateGradeDelta(assessments, currentStart, previousStart).delta) == Green
  {
    FilterNoneEmpty(assessments, CurrentWindow(currentStart));
    FilterNoneEmpty(assessments, PreviousWindow(currentStart, previousStart));
  }

  lemma {:induction false} SumBounds(s: seq<real>, lo: real, hi: real)
    requires forall i :: 0 <= i < |s| ==> lo <= s[i] <= hi
    ensures (|s| as real) * lo <= Sum(s) <= (|s| as real) * hi
    decreases |s|
  {
    if s != [] {
      SumBounds(s[..|s| - 1], lo, hi);
    }
  }

  /** The mean of a non-empty list of grades lies between its bounds. */
  lemma MeanBounds(s: seq<real>, lo: real, hi: real)
    requires |s| > 0
    requires forall i :: 0 <= i < |s| ==> lo <= s[i] <= hi
    ensures lo <= Mean(s) <= hi
  {
    SumBounds(s, lo, hi);
    var n := |s| as real;
    assert Mean(s) == Sum(s) / n;
    assert n * lo <= Sum(s) <= n * hi;
    DivideBounds(Sum(s), n, lo, hi);
  }

  lemma DivideBounds(x: real, n: real, lo: real, hi: real)
    requires n > 0.0 && n * lo <= x <= n * hi
    ensures lo <= x / n <= hi
  {
    assert x / n * n == x;
  }

  function GradeTier(delta: real): (t: RiskLevel)
  {
    if delta >= 1.0 then Red
    else if delta >= 0.5 then Yellow
    else Green
  }

  // ---------------------------------------------------------------------------
  // Attendance rate: present records over all records, 1 when there are none.

  function IsPresent(): AttendanceRecord -> bool
  {
    (a: AttendanceRecord) => a.status == Present
  }

  /** The rate as a fraction present / total; only PRESENT counts as present (LATE does not). */
  datatype AttendanceRate = AttendanceRate(present: nat, total: nat)

  function CalculateAttendanceRate(attendance: seq<AttendanceRecord>): (r: AttendanceRate)
    ensures r.total == |attendance|
    ensures r.present == Count(attendance, IsPresent())
    ensures r.present <= r.total
  {
    AttendanceRate(Count(attendance, IsPresent()), |attendance|)
  }

  /** The rate's value as the code computes it: 1 for no records, else present / total. */
  function RateValue(r: AttendanceRate): real
  {
    if r.total == 0 then 1.0 else (r.present as real) / (r.total as real)
  }

  /** RED below 80 %, YELLOW below 90 %, GREEN otherwise, compared without division. */
  function AttendanceTier(r: AttendanceRate): RiskLevel
  {
    if r.present * 10 < 8 * r.total then Red
    else if r.present * 10 < 9 * r.total then Yellow
    else Green
  }

  /**
   * The cross-multiplied tiers are the tiers of the rate: rate < 0.8 is RED,
   * 0.8 <= rate < 0.9 is YELLOW, anything else (a rate of exactly 0.9, or no
   * records at all) is GREEN.
   */
  lemma AttendanceTierByRate(r: AttendanceRate)
    ensures AttendanceTier(r) == Red <==> RateValue(r) < 0.8
    ensures AttendanceTier(r) == Yellow <==> 0.8 <= RateValue(r) < 0.9
    ensures AttendanceTier(r) == Green <==> RateValue(r) >= 0.9
  {
    if r.total > 0 {
      var p, t := r.present as real, r.total as real;
      var v := p / t;
      assert v * t == p;
      LessThanFraction(p, t, 0.8);
      LessThanFraction(p, t, 0.9);
    }
  }

  lemma LessThanFraction(p: real, t: real, c: real)
    requires t > 0.0
    ensures p / t < c <==> p < c * t
  {
    assert p / t * t == p;
    if p / t < c {
      assert p / t * t < c * t;
    }
    if p < c * t {
      assert p / t < c * t / t;
    }
  }

  /** No attendance records: rate 1, tier GREEN. */
  lemma NoAttendanceIsGreen()
    ensures RateValue(CalculateAttendanceRate([])) == 1.0
    ensures AttendanceTier(CalculateAttendanceRate([])) == Green
  {
  }

  // ---------------------------------------------------------------------------
  // Behaviour: INCIDENT or WARNING events of MEDIUM or HIGH severity are negative.

  predicate IsNegative(e: BehaviorEvent)
  {
    (e.kind == Incident || e.kind == Warning) && (e.severity == Medium || e.severity == High)
  }

  function NegativeEvent(): BehaviorEvent -> bool
  {
    (e: BehaviorEvent) => IsNegative(e)
  }

  datatype BehaviorSummary = BehaviorSummary(negativeCount: nat, hasHigh: bool)

  function CalculateBehavior(events: seq<BehaviorEvent>): (b: BehaviorSummary)
    ensures b.negativeCount == Count(events, NegativeEvent())
    ensures b.hasHigh ==> b.negativeCount >= 1
  {
    var negative := Filter(events, NegativeEvent());
    BehaviorSummary(|negative|, exists i :: 0 <= i < |negative| && negative[i].severity == High)
  }

  /** `hasHigh` holds exactly when some negative event has HIGH severity. */
  lemma HasHighMeansHighNegativeEvent(events: seq<BehaviorEvent>)
    ensures CalculateBehavior(events).hasHigh
        <==> exists i :: 0 <= i < |events| && IsNegative(events[i]) && events[i].severity == High
  {
    var negative := Filter(events, NegativeEvent());
    if exists i :: 0 <= i < |events| && IsNegative(events[i]) && events[i].severity == High {
      var i :| 0 <= i < |events| && IsNegative(events[i]) && events[i].severity == High;
      FilterKeeps(events, NegativeEvent(), events[i]);
      var j :| 0 <= j < |negative| && negative[j] == events[i];
      assert negative[j].severity == High;
    }
    if CalculateBehavior(events).hasHigh {
      var j :| 0 <= j < |negative| && negative[j].severity == High;
      assert negative[j] in events;
      var i :| 0 <= i < |events| && events[i] == negative[j];
      assert IsNegative(events[i]) && events[i].severity == High;
    }
  }

  /** An event that is not negative (praise, or low severity) changes nothing. */
  lemma {:induction false} NonNegativeEventIgnored(events: seq<BehaviorEvent>, e: BehaviorEvent)
    requires !IsNegative(e)
    ensures CalculateBehavior(events + [e]) == CalculateBehavior(events)
  {
    FilterConcat(events, [e], NegativeEvent());
    assert Filter([e], NegativeEvent()) == [];
    assert Filter(events + [e], NegativeEvent()) == Filter(events, NegativeEvent());
  }

  function BehaviorTier(b: BehaviorSummary): RiskLevel
  {
    if b.negativeCount >= 3 then Red
    else if b.negativeCount >= 1 || b.hasHigh then Yellow
    else Green
  }

  /** For summaries the calculator produces, the `|| hasHigh` disjunct never changes the tier. */
  lemma HasHighNeverDecidesTier(events: seq<BehaviorEvent>)
    ensures var b := CalculateBehavior(events);
      BehaviorTier(b) == (if b.negativeCount >= 3 then Red else if b.negativeCount >= 1 then Yellow else Green)
  {
  }

  // ---------------------------------------------------------------------------
  // Composite score.

  /** Points of one tier: RED gives `redPoints`, YELLOW 20, GREEN 0. */
  function TierPoints(tier: RiskLevel, redPoints: nat): nat
  {
    match tier
    case Red => redPoints
    case Yellow => 20
    case Green => 0
  }

  /** The sum before saturation: grade 35/20/0, attendance 35/20/0, behaviour 30/20/0, +10 for a HIGH event. */
  function RawScore(gradeTier: RiskLevel, attendanceTier: RiskLevel, behaviorTier: RiskLevel, hasHigh: bool): nat
  {
    TierPoints(gradeTier, 35) + TierPoints(attendanceTier, 35) + TierPoints(behaviorTier, 30)
      + (if hasHigh then 10 else 0)
  }

  /** `Math.min(100, Math.max(0, score))`. */
  function Clamp(score: int): (r: int)
    ensures 0 <= r <= 100
    ensures 0 <= score <= 100 ==> r == score
  {
    if score > 100 then 100 else if score < 0 then 0 else score
  }

  function CompositeScore(g: GradeDelta, r: AttendanceRate, b: BehaviorSummary): (score: int)
    ensures 0 <= score <= 100
  {
    Clamp(RawScore(GradeTier(g.delta), AttendanceTier(r), BehaviorTier(b), b.hasHigh))
  }

  /**
   * The raw sum is at most 110 and exceeds 100 only when all three tiers are
   * RED and a HIGH event was seen; then, and only then, saturation applies and
   * the score is exactly 100.
   */
  lemma SaturationOnlyAtAllRedWithHigh(gt: RiskLevel, at: RiskLevel, bt: RiskLevel, hasHigh: bool)
    ensures RawScore(gt, at, bt, hasHigh) <= 110
    ensures RawScore(gt, at, bt, hasHigh) > 100 <==> gt == Red && at == Red && bt == Red && hasHigh
    ensures gt == Red && at == Red && bt == Red && hasHigh ==> Clamp(RawScore(gt, at, bt, hasHigh)) == 100
    ensures !(gt == Red && at == Red && bt == Red && hasHigh) ==> Clamp(RawScore(gt, at, bt, hasHigh)) == RawScore(gt, at, bt, hasHigh)
  {
  }

  /** Raising any one tier never lowers the composite score. */
  lemma ScoreMonotoneInTiers(gt: RiskLevel, at: RiskLevel, bt: RiskLevel, gt': RiskLevel, at': RiskLevel, bt': RiskLevel, hasHigh: bool)
    requires Rank(gt) <= Rank(gt') && Rank(at) <= Rank(at') && Rank(bt) <= Rank(bt')
    ensures Clamp(RawScore(gt, at, bt, hasHigh)) <= Clamp(RawScore(gt', at', bt', hasHigh))
  {
  }

  // ---------------------------------------------------------------------------
  // The three indicator values written per student.

  const GradeDeltaName: string := "delta_average_grade"
  const AttendanceName: string := "attendance_rate"
  const BehaviorName: string := "negative_events_count"
  const IndicatorNames: seq<string> := [GradeDeltaName, AttendanceName, BehaviorName]

  datatype IndicatorValue =
    | DeltaValue(delta: real)
    | RateOf(rate: real)
    | BehaviorValue(negativeCount: nat, hasHigh: bool)

  datatype IndicatorLevel = IndicatorLevel(name: string, level: RiskLevel, value: IndicatorValue)

  /** The indicator list `calculateRiskForStudent` builds, in push order. */
  function Indicators(g: GradeDelta, r: AttendanceRate, b: BehaviorSummary): (ind: seq<IndicatorLevel>)
    ensures |ind| == 3
    ensures forall i :: 0 <= i < 3 ==> ind[i].name == IndicatorNames[i]
  {
    [ IndicatorLevel(GradeDeltaName, GradeTier(g.delta), DeltaValue(g.delta)),
      IndicatorLevel(AttendanceName, AttendanceTier(r), RateOf(RateValue(r))),
      IndicatorLevel(BehaviorName, BehaviorTier(b), BehaviorValue(b.negativeCount, b.hasHigh)) ]
  }

  /**
   * The scoring block of `calculateRiskForStudent`: a running score and a list
   * of indicator levels, one if/else-if/else chain per signal, the +10 for a
   * HIGH event, then the clamp.
   */
  method ScoreIndicators(g: GradeDelta, r: AttendanceRate, b: BehaviorSummary)
    returns (score: int, indicatorLevels: seq<IndicatorLevel>)
    ensures score == CompositeScore(g, r, b)
    ensures indicatorLevels == Indicators(g, r, b)
  {
    score := 0;
    indicatorLevels := [];
    var delta := g.delta;
    if delta >= 1.0 {
      score := score + 35;
      indicatorLevels := indicatorLevels + [IndicatorLevel(GradeDeltaName, Red, DeltaValue(delta))];
    } else if delta >= 0.5 {
      score := score + 20;
      indicatorLevels := indicatorLevels + [IndicatorLevel(GradeDeltaName, Yellow, DeltaValue(delta))];
    } else {
      indicatorLevels := indicatorLevels + [IndicatorLevel(GradeDeltaName, Green, DeltaValue(delta))];
    }

    var rate := RateValue(r);
    AttendanceTierByRate(r);
    if rate < 0.8 {
      score := score + 35;
      indicatorLevels := indicatorLevels + [IndicatorLevel(AttendanceName, Red, RateOf(rate))];
    } else if rate < 0.9 {
      score := score + 20;
      indicatorLevels := indicatorLevels + [IndicatorLevel(AttendanceName, Yellow, RateOf(rate))];
    } else {
      indicatorLevels := indicatorLevels + [IndicatorLevel(AttendanceName, Green, RateOf(rate))];
    }

    var value := BehaviorValue(b.negativeCount, b.hasHigh);
    if b.negativeCount >= 3 {
      score := score + 30;
      indicatorLevels := indicatorLevels + [IndicatorLevel(BehaviorName, Red, value)];
    } else if b.negativeCount >= 1 || b.hasHigh {
      score := score + 20;
      indicatorLevels := indicatorLevels + [IndicatorLevel(BehaviorName, Yellow, value)];
    } else {
      indicatorLevels := indicatorLevels + [IndicatorLevel(BehaviorName, Green, value)];
    }

    if b.hasHigh {
      score := score + 10;
    }

    score := if score > 100 then 100 else if score < 0 then 0 else score;
  }

  // ---------------------------------------------------------------------------
  // One student's assessment from the raw signal tables and "now".

  function CurrentStart(now: int): int
  {
    now - DefaultPeriodDays * DayMs
  }

  function PreviousStart(now: int): int
  {
    CurrentStart(now) - DefaultPeriodDays * DayMs
  }

  function AssessmentsOf(studentId: nat, since: int): Assessment -> bool
  {
    (a: Assessment) => a.studentId == studentId && a.date >= since
  }

  function AttendanceOf(studentId: nat, since: int): AttendanceRecord -> bool
  {
    (a: AttendanceRecord) => a.studentId == studentId && a.date >= since
  }

  function EventsOf(studentId: nat, since: int): BehaviorEvent -> bool
  {
    (e: BehaviorEvent) => e.studentId == studentId && e.date >= since
  }

  datatype RiskAssessment = RiskAssessment(score: int, level: RiskLevel, indicators: seq<IndicatorLevel>)

  /**
   * Assessments are read from 180 days back, attendance and behaviour from 90
   * days back; the score and level follow from the three indicators.
   */
  function Assess(assessments: seq<Assessment>, attendance: seq<AttendanceRecord>, events: seq<BehaviorEvent>,
                  studentId: nat, now: int): (ra: RiskAssessment)
    ensures 0 <= ra.score <= 100
    ensures ra.level == MapScoreToLevel(ra.score)
    ensures |ra.indicators| == 3
    ensures forall i :: 0 <= i < 3 ==> ra.indicators[i].name == IndicatorNames[i]
  {
    var currentStart := CurrentStart(now);
    var previousStart := PreviousStart(now);
    var g := CalculateGradeDelta(Filter(assessments, AssessmentsOf(studentId, previousStart)), currentStart, previousStart);
    var r := CalculateAttendanceRate(Filter(attendance, AttendanceOf(studentId, currentStart)));
    var b := CalculateBehavior(Filter(events, EventsOf(studentId, currentStart)));
    var score := CompositeScore(g, r, b);
    RiskAssessment(score, MapScoreToLevel(score), Indicators(g, r, b))
  }

  // ---------------------------------------------------------------------------
  // Worked scenarios.

  /**
   * Previous mean 4.0, current mean 2.5 (delta 1.5, RED +35); 8 of 10 present
   * (exactly 0.8, YELLOW +20, not RED); one MEDIUM incident (YELLOW +20):
   * 75, level RED.
   */
  lemma ScenarioMixedSignals()
    ensures var g := GradeDelta(2.5, 4.0, 1.5);
            var r := AttendanceRate(8, 10);
            var b := CalculateBehavior([BehaviorEvent(0, Incident, Medium, 0)]);
            GradeTier(g.delta) == Red && AttendanceTier(r) == Yellow && BehaviorTier(b) == Yellow
            && CompositeScore(g, r, b) == 75 && MapScoreToLevel(CompositeScore(g, r, b)) == Red
  {
    var b := CalculateBehavior([BehaviorEvent(0, Incident, Medium, 0)]);
    assert Filter([BehaviorEvent(0, Incident, Medium, 0)], NegativeEvent()) == [BehaviorEvent(0, Incident, Medium, 0)];
    assert b == BehaviorSummary(1, false);
  }

  /** A rate of exactly 0.9 (9 of 10) is GREEN; all-green inputs score 0, level GREEN. */
  lemma ScenarioAllGreen()
    ensures AttendanceTier(AttendanceRate(9, 10)) == Green
    ensures var g := GradeDelta(3.0, 3.2, 0.2);
            var r := AttendanceRate(19, 20);
            var b := CalculateBehavior([]);
            CompositeScore(g, r, b) == 0 && MapScoreToLevel(CompositeScore(g, r, b)) == Green
  {
  }
}
