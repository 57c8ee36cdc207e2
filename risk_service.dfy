/**
 * The stateful half of the risk engine: the risk tables (indicator
 * definitions, per-student indicator values, per-student score rows) and the
 * signal tables it reads, kept in one object whose methods are the service's
 * operations. "Now" is a parameter; the writes after a calculation are the
 * sequential updates the code performs (delete the student's values, insert
 * the new ones, upsert the score row), with no transaction around them.
 */
module RiskRecompute {
  import opened Common
  import opened Risk

  /** A RiskIndicatorDefinition row; `schoolId` None is a global definition. Its id is its position. */
  datatype Definition = Definition(name: string, schoolId: Option<nat>, description: string)

  datatype DefinitionSpec = DefinitionSpec(name: string, description: string)

  /** The three definitions `ensureIndicatorDefinitions` walks through, in order. */
  const CanonicalDefinitions: seq<DefinitionSpec> := [
    DefinitionSpec(GradeDeltaName, "Change in average grade (prev - current)"),
    DefinitionSpec(AttendanceName, "Attendance rate in the period"),
    DefinitionSpec(BehaviorName, "Negative behavior events count")
  ]

  /** A RiskIndicatorValue row. */
  datatype ValueRow = ValueRow(studentId: nat, indicatorId: nat, value: IndicatorValue, level: RiskLevel, calculatedAt: int)

  /** A RiskScore row; the table holds at most one per student (it is keyed by student id). */
  datatype ScoreRow = ScoreRow(score: int, level: RiskLevel, calculatedAt: int)

  datatype Calculation = Calculation(studentId: nat, student: Student, score: int, level: RiskLevel)

  // ---------------------------------------------------------------------------
  // Indicator definitions: school-scoped first, then global, else created school-scoped.

  /** `findFirst({ where: { name, schoolId: scope } })`: the first matching row. */
  function FindDefinition(defs: seq<Definition>, name: string, scope: Option<nat>): (r: Option<nat>)
    ensures r.Some? ==> DefinitionAt(defs, r.value, name, scope)
    ensures r.Some? ==> forall j :: 0 <= j < r.value ==> !DefinitionAt(defs, j, name, scope)
    ensures r.None? ==> forall j :: 0 <= j < |defs| ==> !DefinitionAt(defs, j, name, scope)
    decreases |defs|
  {
    if defs == [] then None
    else
      var init := defs[..|defs| - 1];
      assert forall j :: 0 <= j < |init| ==> (DefinitionAt(init, j, name, scope) <==> DefinitionAt(defs, j, name, scope));
      match FindDefinition(init, name, scope)
      case Some(i) => Some(i)
      case None =>
        if DefinitionAt(defs, |defs| - 1, name, scope) then Some(|defs| - 1) else None
  }

  /** Row `j` is a definition of `name` in `scope`. */
  predicate DefinitionAt(defs: seq<Definition>, j: nat, name: string, scope: Option<nat>)
  {
    j < |defs| && defs[j].name == name && defs[j].schoolId == scope
  }

  /** The definition the code uses for `name`: a school-scoped one if any, else a global one. */
  function Resolve(defs: seq<Definition>, name: string, schoolId: nat): (r: Option<nat>)
    ensures r.Some? ==> r.value < |defs| && defs[r.value].name == name
    ensures r.Some? ==> defs[r.value].schoolId == Some(schoolId) || defs[r.value].schoolId == None
  {
    match FindDefinition(defs, name, Some(schoolId))
    case Some(i) => Some(i)
    case None => FindDefinition(defs, name, None)
  }

  /**
   * A school-scoped definition always wins over a global one, and the lookup
   * finds nothing only when neither exists.
   */
  lemma ResolvePrefersSchool(defs: seq<Definition>, name: string, schoolId: nat)
    ensures (exists j :: 0 <= j < |defs| && defs[j].name == name && defs[j].schoolId == Some(schoolId))
            ==> Resolve(defs, name, schoolId).Some? && defs[Resolve(defs, name, schoolId).value].schoolId == Some(schoolId)
    ensures Resolve(defs, name, schoolId).None?
            <==> forall j :: 0 <= j < |defs| && defs[j].name == name
                             ==> defs[j].schoolId != Some(schoolId) && defs[j].schoolId != None
  {
    if j :| 0 <= j < |defs| && defs[j].name == name && defs[j].schoolId == Some(schoolId) {
      assert DefinitionAt(defs, j, name, Some(schoolId));
    }
    if Resolve(defs, name, schoolId).None? {
      forall j | 0 <= j < |defs| && defs[j].name == name
        ensures defs[j].schoolId != Some(schoolId) && defs[j].schoolId != None
      {
        assert !DefinitionAt(defs, j, name, Some(schoolId)) && !DefinitionAt(defs, j, name, None);
      }
    }
  }

  lemma FindDefinitionAppend(defs: seq<Definition>, d: Definition, name: string, scope: Option<nat>)
    ensures FindDefinition(defs + [d], name, scope)
         == if FindDefinition(defs, name, scope).Some? then FindDefinition(defs, name, scope)
            else if d.name == name && d.schoolId == scope then Some(|defs|)
            else None
  {
    assert (defs + [d])[..|defs|] == defs;
  }

  /** Appending a definition of another name does not change how `name` resolves. */
  lemma ResolveAppendOther(defs: seq<Definition>, d: Definition, name: string, schoolId: nat)
    requires d.name != name
    ensures Resolve(defs + [d], name, schoolId) == Resolve(defs, name, schoolId)
  {
    FindDefinitionAppend(defs, d, name, Some(schoolId));
    FindDefinitionAppend(defs, d, name, None);
  }

  /** A created school-scoped definition is what its name resolves to afterwards. */
  lemma ResolveAppendCreated(defs: seq<Definition>, name: string, description: string, schoolId: nat)
    requires Resolve(defs, name, schoolId).None?
    ensures Resolve(defs + [Definition(name, Some(schoolId), description)], name, schoolId) == Some(|defs|)
  {
    FindDefinitionAppend(defs, Definition(name, Some(schoolId), description), name, Some(schoolId));
  }

  function NamesOf(specs: seq<DefinitionSpec>): set<string>
  {
    set i | 0 <= i < |specs| :: specs[i].name
  }

  lemma NamesOfCons(specs: seq<DefinitionSpec>)
    requires specs != []
    ensures NamesOf(specs) == {specs[0].name} + NamesOf(specs[1..])
  {
    forall n | n in NamesOf(specs) ensures n in {specs[0].name} + NamesOf(specs[1..]) {
      var i :| 0 <= i < |specs| && specs[i].name == n;
      if i > 0 { assert specs[1..][i - 1].name == n; }
    }
    forall n | n in NamesOf(specs[1..]) ensures n in NamesOf(specs) {
      var i :| 0 <= i < |specs[1..]| && specs[1..][i].name == n;
      assert specs[i + 1].name == n;
    }
  }

  /**
   * The loop of `ensureIndicatorDefinitions` as a function: the definition
   * table afterwards and the name-to-id mapping. It only appends, and what it
   * appends is school-scoped.
   */
  function EnsureDefinitions(defs: seq<Definition>, mapping: map<string, nat>, specs: seq<DefinitionSpec>, schoolId: nat)
    : (r: (seq<Definition>, map<string, nat>))
    ensures |defs| <= |r.0| && r.0[..|defs|] == defs
    ensures forall k :: |defs| <= k < |r.0| ==> r.0[k].schoolId == Some(schoolId)
    decreases |specs|
  {
    if specs == [] then (defs, mapping)
    else
      var def := specs[0];
      match Resolve(defs, def.name, schoolId)
      case Some(id) => EnsureDefinitions(defs, mapping[def.name := id], specs[1..], schoolId)
      case None =>
        var defs1 := defs + [Definition(def.name, Some(schoolId), def.description)];
        var r := EnsureDefinitions(defs1, mapping[def.name := |defs|], specs[1..], schoolId);
        assert r.0[..|defs|] == r.0[..|defs1|][..|defs|];
        r
  }

  /** Every name in the mapping resolves to its id in the table. */
  ghost predicate MappingResolves(defs: seq<Definition>, mapping: map<string, nat>, schoolId: nat)
  {
    forall n :: n in mapping ==> Resolve(defs, n, schoolId) == Some(mapping[n])
  }

  /** Every name of the specs gets an id, and nothing else is added to the mapping. */
  lemma {:induction false} EnsureDefinitionsKeys(defs: seq<Definition>, mapping: map<string, nat>,
                                                 specs: seq<DefinitionSpec>, schoolId: nat)
    ensures EnsureDefinitions(defs, mapping, specs, schoolId).1.Keys == mapping.Keys + NamesOf(specs)
    decreases |specs|
  {
    if specs != [] {
      var def := specs[0];
      NamesOfCons(specs);
      match Resolve(defs, def.name, schoolId)
      case Some(id) =>
        EnsureDefinitionsKeys(defs, mapping[def.name := id], specs[1..], schoolId);
      case None =>
        var d := Definition(def.name, Some(schoolId), def.description);
        EnsureDefinitionsKeys(defs + [d], mapping[def.name := |defs|], specs[1..], schoolId);
    }
  }

  /** The id each name gets is what the name resolves to in the table afterwards. */
  lemma {:induction false} EnsureDefinitionsResolves(defs: seq<Definition>, mapping: map<string, nat>,
                                                     specs: seq<DefinitionSpec>, schoolId: nat)
    requires MappingResolves(defs, mapping, schoolId)
    ensures MappingResolves(EnsureDefinitions(defs, mapping, specs, schoolId).0,
                            EnsureDefinitions(defs, mapping, specs, schoolId).1, schoolId)
    decreases |specs|
  {
    if specs != [] {
      var def := specs[0];
      match Resolve(defs, def.name, schoolId)
      case Some(id) =>
        EnsureDefinitionsResolves(defs, mapping[def.name := id], specs[1..], schoolId);
      case None =>
        var d := Definition(def.name, Some(schoolId), def.description);
        ResolveAppendCreated(defs, def.name, def.description, schoolId);
        forall n | n in mapping
          ensures Resolve(defs + [d], n, schoolId) == Some(mapping[n])
        {
          ResolveAppendOther(defs, d, n, schoolId);
        }
        EnsureDefinitionsResolves(defs + [d], mapping[def.name := |defs|], specs[1..], schoolId);
    }
  }

  /** Every name that resolved in `defs` resolves to the same definition in `defs'`. */
  ghost predicate KeepsResolutions(defs: seq<Definition>, defs': seq<Definition>, schoolId: nat)
  {
    forall n :: Resolve(defs, n, schoolId).Some? ==> Resolve(defs', n, schoolId) == Resolve(defs, n, schoolId)
  }

  /** A name that already resolved (school-scoped first, global second) keeps that definition. */
  lemma {:induction false} EnsureDefinitionsKeepsResolved(defs: seq<Definition>, mapping: map<string, nat>,
                                                          specs: seq<DefinitionSpec>, schoolId: nat)
    ensures KeepsResolutions(defs, EnsureDefinitions(defs, mapping, specs, schoolId).0, schoolId)
    decreases |specs|
  {
    if specs != [] {
      var def := specs[0];
      match Resolve(defs, def.name, schoolId)
      case Some(id) =>
        EnsureDefinitionsKeepsResolved(defs, mapping[def.name := id], specs[1..], schoolId);
      case None =>
        var d := Definition(def.name, Some(schoolId), def.description);
        var defs1 := defs + [d];
        forall n | Resolve(defs, n, schoolId).Some?
          ensures Resolve(defs1, n, schoolId) == Resolve(defs, n, schoolId)
        {
          ResolveAppendOther(defs, d, n, schoolId);
        }
        EnsureDefinitionsKeepsResolved(defs1, mapping[def.name := |defs|], specs[1..], schoolId);
    }
  }

  /** Every row past the old table carries one of the names and a name that resolved to nothing. */
  ghost predicate CreatedOnlyFor(defs: seq<Definition>, defs': seq<Definition>, names: set<string>, schoolId: nat)
  {
    forall k :: |defs| <= k < |defs'| ==> defs'[k].name in names && Resolve(defs, defs'[k].name, schoolId).None?
  }

  /** A row is created only for a name of the list that resolved to nothing. */
  lemma {:induction false} EnsureDefinitionsCreatesOnlyMissing(defs: seq<Definition>, mapping: map<string, nat>,
                                                               specs: seq<DefinitionSpec>, schoolId: nat)
    ensures CreatedOnlyFor(defs, EnsureDefinitions(defs, mapping, specs, schoolId).0, NamesOf(specs), schoolId)
    decreases |specs|
  {
    if specs != [] {
      var def := specs[0];
      NamesOfCons(specs);
      match Resolve(defs, def.name, schoolId)
      case Some(id) =>
        assert EnsureDefinitions(defs, mapping, specs, schoolId)
            == EnsureDefinitions(defs, mapping[def.name := id], specs[1..], schoolId);
        EnsureDefinitionsCreatesOnlyMissing(defs, mapping[def.name := id], specs[1..], schoolId);
      case None =>
        var d := Definition(def.name, Some(schoolId), def.description);
        var defs1 := defs + [d];
        var defs' := EnsureDefinitions(defs1, mapping[def.name := |defs|], specs[1..], schoolId).0;
        assert EnsureDefinitions(defs, mapping, specs, schoolId).0 == defs';
        EnsureDefinitionsCreatesOnlyMissing(defs1, mapping[def.name := |defs|], specs[1..], schoolId);
        assert CreatedOnlyFor(defs1, defs', NamesOf(specs[1..]), schoolId);
        forall k | |defs| <= k < |defs'|
          ensures defs'[k].name in NamesOf(specs) && Resolve(defs, defs'[k].name, schoolId).None?
        {
          if k == |defs| {
            assert defs'[k] == defs'[..|defs1|][k] == d;
          } else {
            var n := defs'[k].name;
            assert n in NamesOf(specs[1..]) && Resolve(defs1, n, schoolId).None?;
            if n != def.name {
              ResolveAppendOther(defs, d, n, schoolId);
            }
          }
        }
    }
  }

  /** When every name already resolves, nothing is created and each name maps to its resolved id. */
  lemma {:induction false} EnsureDefinitionsWhenResolved(defs: seq<Definition>, mapping: map<string, nat>,
                                                         specs: seq<DefinitionSpec>, schoolId: nat)
    requires forall i :: 0 <= i < |specs| ==> Resolve(defs, specs[i].name, schoolId).Some?
    ensures var r := EnsureDefinitions(defs, mapping, specs, schoolId);
      && r.0 == defs
      && r.1.Keys == mapping.Keys + NamesOf(specs)
      && (forall n :: n in NamesOf(specs) ==> r.1[n] == Resolve(defs, n, schoolId).value)
      && (forall n :: n in mapping && n !in NamesOf(specs) ==> r.1[n] == mapping[n])
    decreases |specs|
  {
    if specs != [] {
      var def := specs[0];
      NamesOfCons(specs);
      assert forall i :: 0 <= i < |specs[1..]| ==> specs[1..][i] == specs[i + 1];
      EnsureDefinitionsWhenResolved(defs, mapping[def.name := Resolve(defs, def.name, schoolId).value], specs[1..], schoolId);
    }
  }

  /** A second call right after the first creates nothing and returns the same mapping. */
  lemma EnsureDefinitionsIdempotent(defs: seq<Definition>, specs: seq<DefinitionSpec>, schoolId: nat)
    ensures var first := EnsureDefinitions(defs, map[], specs, schoolId);
            EnsureDefinitions(first.0, map[], specs, schoolId) == first
  {
    var first := EnsureDefinitions(defs, map[], specs, schoolId);
    EnsureDefinitionsKeys(defs, map[], specs, schoolId);
    EnsureDefinitionsResolves(defs, map[], specs, schoolId);
    forall i | 0 <= i < |specs| ensures Resolve(first.0, specs[i].name, schoolId).Some? {
      assert specs[i].name in NamesOf(specs);
    }
    EnsureDefinitionsWhenResolved(first.0, map[], specs, schoolId);
    var second := EnsureDefinitions(first.0, map[], specs, schoolId);
    forall n | n in first.1
      ensures n in second.1 && second.1[n] == first.1[n]
    {
      assert Resolve(first.0, n, schoolId) == Some(first.1[n]);
    }
    assert second.1 == first.1;
  }

  /** The ids `ensureIndicatorDefinitions` returns for a school, given the table before the call: one per indicator. */
  function CanonicalIds(defs: seq<Definition>, schoolId: nat): (ids: map<string, nat>)
    ensures ids.Keys == {GradeDeltaName, AttendanceName, BehaviorName}
  {
    EnsureDefinitionsKeys(defs, map[], CanonicalDefinitions, schoolId);
    assert NamesOf(CanonicalDefinitions) == {GradeDeltaName, AttendanceName, BehaviorName} by {
      assert CanonicalDefinitions[0].name == GradeDeltaName;
      assert CanonicalDefinitions[1].name == AttendanceName;
      assert CanonicalDefinitions[2].name == BehaviorName;
    }
    EnsureDefinitions(defs, map[], CanonicalDefinitions, schoolId).1
  }

  /** Each id returned is the definition its name resolves to in the table afterwards. */
  lemma CanonicalIdsResolve(defs: seq<Definition>, schoolId: nat)
    ensures MappingResolves(EnsureDefinitions(defs, map[], CanonicalDefinitions, schoolId).0, CanonicalIds(defs, schoolId), schoolId)
  {
    EnsureDefinitionsResolves(defs, map[], CanonicalDefinitions, schoolId);
  }

  // ---------------------------------------------------------------------------
  // Replacing a student's indicator values: deleteMany, then createMany.

  function OfStudent(studentId: nat): ValueRow -> bool
  {
    (v: ValueRow) => v.studentId == studentId
  }

  function NotOfStudent(studentId: nat): ValueRow -> bool
  {
    (v: ValueRow) => v.studentId != studentId
  }

  function ReplaceValues(values: seq<ValueRow>, studentId: nat, rows: seq<ValueRow>): (r: seq<ValueRow>)
    ensures |r| == Count(values, NotOfStudent(studentId)) + |rows|
    ensures r[|r| - |rows|..] == rows
    ensures forall v :: v in r ==> v in rows || (v in values && v.studentId != studentId)
  {
    Filter(values, NotOfStudent(studentId)) + rows
  }

  /** The rows `createMany` inserts: one per computed indicator, pointing at its definition. */
  function NewValueRows(studentId: nat, indicators: seq<IndicatorLevel>, mapping: map<string, nat>, now: int): (rows: seq<ValueRow>)
    requires forall i :: 0 <= i < |indicators| ==> indicators[i].name in mapping
    ensures |rows| == |indicators|
    ensures forall i :: 0 <= i < |rows| ==> rows[i].studentId == studentId
    ensures forall i :: 0 <= i < |rows| ==>
              rows[i].indicatorId == mapping[indicators[i].name] && rows[i].level == indicators[i].level
              && rows[i].value == indicators[i].value
  {
    seq(|indicators|, i requires 0 <= i < |indicators| =>
      ValueRow(studentId, mapping[indicators[i].name], indicators[i].value, indicators[i].level, now))
  }

  /** After the replacement the student has exactly the new rows. */
  lemma ReplaceLeavesOnlyNewRows(values: seq<ValueRow>, studentId: nat, rows: seq<ValueRow>)
    requires forall i :: 0 <= i < |rows| ==> rows[i].studentId == studentId
    ensures Filter(ReplaceValues(values, studentId, rows), OfStudent(studentId)) == rows
  {
    var kept := Filter(values, NotOfStudent(studentId));
    FilterConcat(kept, rows, OfStudent(studentId));
    assert forall i :: 0 <= i < |kept| ==> kept[i] in kept;
    FilterNoneEmpty(kept, OfStudent(studentId));
    FilterAllSame(rows, OfStudent(studentId));
  }

  /** Other students' rows are untouched. */
  lemma ReplaceKeepsOtherStudents(values: seq<ValueRow>, studentId: nat, rows: seq<ValueRow>, other: nat)
    requires other != studentId
    requires forall i :: 0 <= i < |rows| ==> rows[i].studentId == studentId
    ensures Filter(ReplaceValues(values, studentId, rows), OfStudent(other)) == Filter(values, OfStudent(other))
  {
    var kept := Filter(values, NotOfStudent(studentId));
    FilterConcat(kept, rows, OfStudent(other));
    FilterFilter(values, NotOfStudent(studentId), OfStudent(other));
    FilterNoneEmpty(rows, OfStudent(other));
  }

  /** Replacing twice with the same rows is replacing once: a rerun leaves three rows, not six. */
  lemma ReplaceTwiceIsOnce(values: seq<ValueRow>, studentId: nat, rows: seq<ValueRow>)
    requires forall i :: 0 <= i < |rows| ==> rows[i].studentId == studentId
    ensures ReplaceValues(ReplaceValues(values, studentId, rows), studentId, rows) == ReplaceValues(values, studentId, rows)
  {
    var kept := Filter(values, NotOfStudent(studentId));
    FilterConcat(kept, rows, NotOfStudent(studentId));
    FilterFilter(values, NotOfStudent(studentId), NotOfStudent(studentId));
    FilterNoneEmpty(rows, NotOfStudent(studentId));
  }

  // ---------------------------------------------------------------------------
  // Scope of a school-wide run and of the list endpoint.

  /** `student.findMany({ where: { schoolId, classId: classId ?? undefined } })`. */
  function InScope(students: seq<Student>, schoolId: nat, classId: Option<nat>): nat -> bool
  {
    (k: nat) => k < |students| && students[k].schoolId == schoolId
                && (classId.None? || students[k].classId == classId.value)
  }

  function ScopeIds(students: seq<Student>, schoolId: nat, classId: Option<nat>): (ids: seq<nat>)
    ensures forall k :: k in ids ==> StudentInSchool(students, k, schoolId)
  {
    Filter(Indices(|students|), InScope(students, schoolId, classId))
  }

  function ScoreOf(scores: map<nat, ScoreRow>, k: nat): int
  {
    if k in scores then scores[k].score else 0
  }

  /** `orderBy: { score: 'desc' }`. */
  function ByScoreDesc(scores: map<nat, ScoreRow>): (nat, nat) -> bool
  {
    (a: nat, b: nat) => ScoreOf(scores, a) >= ScoreOf(scores, b)
  }

  /** The `where` of the score query: a score row, the level if given, the student in the school and class. */
  function Listed(students: seq<Student>, scores: map<nat, ScoreRow>, schoolId: nat, classId: Option<nat>,
                  level: Option<RiskLevel>): nat -> bool
  {
    (k: nat) => k in scores && (level.None? || scores[k].level == level.value) && InScope(students, schoolId, classId)(k)
  }

  function InIds(ids: seq<nat>): ValueRow -> bool
  {
    (v: ValueRow) => v.studentId in ids
  }

  datatype IndicatorEntry = IndicatorEntry(name: string, value: IndicatorValue, level: RiskLevel)

  datatype DetailedEntry = DetailedEntry(name: string, value: IndicatorValue, level: RiskLevel, calculatedAt: int)

  datatype RiskStudentRow = RiskStudentRow(studentId: nat, firstName: string, lastName: string, classId: nat,
                                           score: int, level: RiskLevel, indicators: seq<IndicatorEntry>)

  datatype StudentRisk = StudentRisk(studentId: nat, student: Student, score: Option<ScoreRow>,
                                     indicators: seq<DetailedEntry>, recentBehaviorEvents: seq<BehaviorEvent>)

  predicate KnownIndicators(defs: seq<Definition>, rows: seq<ValueRow>)
  {
    forall v :: v in rows ==> v.indicatorId < |defs|
  }

  /** Value rows joined with their definition's name, as the list endpoint returns them. */
  function Entries(defs: seq<Definition>, rows: seq<ValueRow>): (e: seq<IndicatorEntry>)
    requires KnownIndicators(defs, rows)
    ensures |e| == |rows|
    ensures forall i :: 0 <= i < |rows| ==>
              e[i].name == defs[rows[i].indicatorId].name && e[i].level == rows[i].level && e[i].value == rows[i].value
    decreases |rows|
  {
    if rows == [] then []
    else
      var v := rows[|rows| - 1];
      Entries(defs, rows[..|rows| - 1]) + [IndicatorEntry(defs[v.indicatorId].name, v.value, v.level)]
  }

  lemma EntriesAppend(defs: seq<Definition>, rows: seq<ValueRow>, v: ValueRow)
    requires KnownIndicators(defs, rows) && v.indicatorId < |defs|
    ensures KnownIndicators(defs, rows + [v])
    ensures Entries(defs, rows + [v]) == Entries(defs, rows) + [IndicatorEntry(defs[v.indicatorId].name, v.value, v.level)]
  {
    assert (rows + [v])[..|rows|] == rows;
  }

  /** Value rows joined with their definition's name, with the time they were computed. */
  function DetailedEntries(defs: seq<Definition>, rows: seq<ValueRow>): (e: seq<DetailedEntry>)
    requires KnownIndicators(defs, rows)
    ensures |e| == |rows|
    ensures forall i :: 0 <= i < |rows| ==>
              e[i].name == defs[rows[i].indicatorId].name && e[i].value == rows[i].value && e[i].level == rows[i].level
              && e[i].calculatedAt == rows[i].calculatedAt
  {
    seq(|rows|, i requires 0 <= i < |rows| =>
      DetailedEntry(defs[rows[i].indicatorId].name, rows[i].value, rows[i].level, rows[i].calculatedAt))
  }

  function EventsOfStudent(studentId: nat): BehaviorEvent -> bool
  {
    (e: BehaviorEvent) => e.studentId == studentId
  }

  /** `orderBy: { date: 'desc' }`. */
  function ByDateDesc(): (BehaviorEvent, BehaviorEvent) -> bool
  {
    (a: BehaviorEvent, b: BehaviorEvent) => a.date >= b.date
  }

  function Lookup(byStudent: map<nat, seq<IndicatorEntry>>, k: nat): seq<IndicatorEntry>
  {
    if k in byStudent then byStudent[k] else []
  }

  // ---------------------------------------------------------------------------

  class RiskService {
    var students: seq<Student>
    var assessments: seq<Assessment>
    var attendance: seq<AttendanceRecord>
    var behaviorEvents: seq<BehaviorEvent>
    var definitions: seq<Definition>
    var values: seq<ValueRow>
    var scores: map<nat, ScoreRow>

    /** Score rows agree with the level mapping and lie in [0, 100]; value rows point at existing definitions. */
    ghost predicate Valid()
      reads this
    {
      && (forall k :: k in scores ==> 0 <= scores[k].score <= 100 && scores[k].level == MapScoreToLevel(scores[k].score))
      && KnownIndicators(definitions, values)
    }

    constructor (students: seq<Student>, assessments: seq<Assessment>, attendance: seq<AttendanceRecord>,
                 behaviorEvents: seq<BehaviorEvent>, definitions: seq<Definition>)
      ensures Valid()
      ensures this.students == students && this.assessments == assessments && this.attendance == attendance
      ensures this.behaviorEvents == behaviorEvents && this.definitions == definitions
      ensures values == [] && scores == map[]
    {
      this.students := students;
      this.assessments := assessments;
      this.attendance := attendance;
      this.behaviorEvents := behaviorEvents;
      this.definitions := definitions;
      values := [];
      scores := map[];
    }

    method EnsureIndicatorDefinitions(schoolId: nat) returns (mapping: map<string, nat>)
      modifies this`definitions
      ensures (definitions, mapping) == EnsureDefinitions(old(definitions), map[], CanonicalDefinitions, schoolId)
    {
      mapping := map[];
      for i := 0 to |CanonicalDefinitions|
        invariant EnsureDefinitions(definitions, mapping, CanonicalDefinitions[i..], schoolId)
               == EnsureDefinitions(old(definitions), map[], CanonicalDefinitions, schoolId)
      {
        var def := CanonicalDefinitions[i];
        assert CanonicalDefinitions[i..][1..] == CanonicalDefinitions[i + 1..];
        var existing := FindDefinition(definitions, def.name, Some(schoolId));
        if existing.None? {
          existing := FindDefinition(definitions, def.name, None);
        }
        var id: nat;
        if existing.Some? {
          id := existing.value;
        } else {
          id := |definitions|;
          definitions := definitions + [Definition(def.name, Some(schoolId), def.description)];
        }
        mapping := mapping[def.name := id];
      }
    }

    /** The risk tables as a value. */
    function RiskTables(): Tables
      reads this
    {
      Tables(definitions, values, scores)
    }

    method CalculateRiskForStudent(studentId: nat, schoolId: nat, now: int) returns (r: Result<Calculation>)
      requires Valid()
      modifies this`definitions, this`values, this`scores
      ensures Valid()
      ensures !StudentInSchool(students, studentId, schoolId) ==>
        r == Err(NotFound("Student not found")) && RiskTables() == old(RiskTables())
      ensures StudentInSchool(students, studentId, schoolId) ==>
        var ra := Assess(assessments, attendance, behaviorEvents, studentId, now);
        && r == Ok(Calculation(studentId, students[studentId], ra.score, ra.level))
        && RiskTables() == CalculateStep(old(RiskTables()), studentId, ra, schoolId, now)
    {
      if !(studentId < |students| && students[studentId].schoolId == schoolId) {
        return Err(NotFound("Student not found"));
      }
      var student := students[studentId];

      var currentStart := now - DefaultPeriodDays * DayMs;
      var previousStart := currentStart - DefaultPeriodDays * DayMs;

      var studentAssessments := Filter(assessments, AssessmentsOf(studentId, previousStart));
      var g := CalculateGradeDelta(studentAssessments, currentStart, previousStart);
      var studentAttendance := Filter(attendance, AttendanceOf(studentId, currentStart));
      var attendanceRate := CalculateAttendanceRate(studentAttendance);
      var events := Filter(behaviorEvents, EventsOf(studentId, currentStart));
      var b := CalculateBehavior(events);

      var score, indicatorLevels := ScoreIndicators(g, attendanceRate, b);
      var level := MapScoreToLevel(score);
      assert RiskAssessment(score, level, indicatorLevels) == Assess(assessments, attendance, behaviorEvents, studentId, now);

      StoreCalculation(studentId, student.schoolId, RiskAssessment(score, level, indicatorLevels), now);
      r := Ok(Calculation(studentId, student, score, level));
    }

    /**
     * The writes after a calculation: the indicator definitions are ensured,
     * the student's value rows replaced by the new ones and the score row upserted.
     */
    method StoreCalculation(studentId: nat, schoolId: nat, ra: RiskAssessment, now: int)
      requires Valid() && Complete(ra) && 0 <= ra.score <= 100
      modifies this`definitions, this`values, this`scores
      ensures Valid()
      ensures RiskTables() == CalculateStep(old(RiskTables()), studentId, ra, schoolId, now)
    {
      ghost var before := definitions;
      var definitionIds := EnsureIndicatorDefinitions(schoolId);
      assert definitionIds == CanonicalIds(before, schoolId);

      var rows := NewValueRows(studentId, ra.indicators, definitionIds, now);
      StoredRowsKnown(before, schoolId, values, studentId, rows);
      values := Filter(values, NotOfStudent(studentId));
      values := values + rows;

      scores := scores[studentId := ScoreRow(ra.score, ra.level, now)];
    }

    method RecalculateRiskForSchool(schoolId: nat, classId: Option<nat>, now: int) returns (r: Result<nat>)
      requires Valid()
      modifies this`definitions, this`values, this`scores
      ensures Valid()
      ensures r == Ok(|ScopeIds(students, schoolId, classId)|)
      ensures RiskTables() == RecalculateAll(old(RiskTables()), AssessAll(assessments, attendance, behaviorEvents, now),
                                             ScopeIds(students, schoolId, classId), schoolId, now)
    {
      var scope := ScopeIds(students, schoolId, classId);
      ghost var assess := AssessAll(assessments, attendance, behaviorEvents, now);
      ghost var t0 := RiskTables();
      var processed := 0;
      for i := 0 to |scope|
        invariant Valid()
        invariant processed == i
        invariant RiskTables() == RecalculateAll(t0, assess, scope[..i], schoolId, now)
      {
        // Every student of the scope belongs to the school, so the calculation cannot throw here.
        assert scope[i] in scope;
        RecalculateNext(scope, i, schoolId, now, t0, assess);
        processed := processed + 1;
      }
      assert scope[..|scope|] == scope;
      r := Ok(processed);
    }

    /** The loop body of `recalculateRiskForSchool`: the calculation for the next student of the run. */
    method RecalculateNext(scope: seq<nat>, i: nat, schoolId: nat, now: int, ghost t0: Tables, ghost assess: nat -> RiskAssessment)
      requires Valid()
      requires i < |scope| && StudentInSchool(students, scope[i], schoolId)
      requires forall k :: Complete(assess(k))
      requires assess(scope[i]) == Assess(assessments, attendance, behaviorEvents, scope[i], now)
      requires RiskTables() == RecalculateAll(t0, assess, scope[..i], schoolId, now)
      modifies this`definitions, this`values, this`scores
      ensures Valid()
      ensures RiskTables() == RecalculateAll(t0, assess, scope[..i + 1], schoolId, now)
    {
      RecalculateAllStep(t0, assess, scope, i, schoolId, now);
      var outcome := CalculateRiskForStudent(scope[i], schoolId, now);
    }

    /** The ids the score query returns before paging: filtered, highest score first. */
    function RankedStudents(schoolId: nat, classId: Option<nat>, level: Option<RiskLevel>): (ids: seq<nat>)
      reads this
      ensures forall k :: k in ids ==>
                && k in scores && StudentInSchool(students, k, schoolId)
                && (level.None? || scores[k].level == level.value)
                && (classId.None? || students[k].classId == classId.value)
      ensures SortedBy(ids, ByScoreDesc(scores))
      ensures forall k ::
                (&& 0 <= k < |students| && k in scores && students[k].schoolId == schoolId
                 && (level.None? || scores[k].level == level.value)
                 && (classId.None? || students[k].classId == classId.value)) ==> k in ids
      ensures |ids| == Count(Indices(|students|), Listed(students, scores, schoolId, classId, level))
    {
      var candidates := Filter(Indices(|students|), Listed(students, scores, schoolId, classId, level));
      assert Total(ByScoreDesc(scores));
      var ids := SortBy(candidates, ByScoreDesc(scores));
      assert |ids| == |multiset(ids)| == |multiset(candidates)| == |candidates|;
      forall k | 0 <= k < |students| && k in scores && students[k].schoolId == schoolId
                 && (level.None? || scores[k].level == level.value)
                 && (classId.None? || students[k].classId == classId.value)
        ensures k in ids
      {
        assert Indices(|students|)[k] == k;
        assert InScope(students, schoolId, classId)(k);
        assert Listed(students, scores, schoolId, classId, level)(k);
        FilterKeeps<nat>(Indices(|students|), Listed(students, scores, schoolId, classId, level), k);
        assert k in multiset(ids);
      }
      forall k | k in ids
        ensures k in scores && StudentInSchool(students, k, schoolId)
        ensures (level.None? || scores[k].level == level.value) && (classId.None? || students[k].classId == classId.value)
      {
        assert k in multiset(candidates);
        assert Listed(students, scores, schoolId, classId, level)(k);
        assert InScope(students, schoolId, classId)(k);
      }
      ids
    }

    /** The `forEach` that groups the page's indicator values by student, in table order. */
    method GroupByStudent(pageValues: seq<ValueRow>) returns (byStudent: map<nat, seq<IndicatorEntry>>)
      requires KnownIndicators(definitions, pageValues)
      ensures forall k: nat :: Lookup(byStudent, k) == Entries(definitions, Filter(pageValues, OfStudent(k)))
    {
      byStudent := map[];
      for i := 0 to |pageValues|
        invariant KnownIndicators(definitions, pageValues[..i])
        invariant forall k: nat :: Lookup(byStudent, k) == Entries(definitions, Filter(pageValues[..i], OfStudent(k)))
      {
        var v := pageValues[i];
        assert pageValues[..i + 1] == pageValues[..i] + [v];
        GroupStep(definitions, pageValues[..i], v, byStudent);
        byStudent := byStudent[v.studentId := Lookup(byStudent, v.studentId) + [IndicatorEntry(definitions[v.indicatorId].name, v.value, v.level)]];
      }
      assert pageValues[..|pageValues|] == pageValues;
    }

    /** One row of the list endpoint: the student's name and class, the score row and the indicator entries. */
    function RowOf(studentId: nat, indicators: seq<IndicatorEntry>): RiskStudentRow
      reads this
      requires studentId < |students| && studentId in scores
    {
      var student := students[studentId];
      RiskStudentRow(studentId, student.firstName, student.lastName, student.classId,
                     scores[studentId].score, scores[studentId].level, indicators)
    }

    method ListRiskStudents(schoolId: nat, classId: Option<nat>, level: Option<RiskLevel>,
                            page: Option<int>, pageSize: Option<int>) returns (rows: seq<RiskStudentRow>)
      requires Valid()
      ensures var ids: seq<nat> := PageOf(RankedStudents(schoolId, classId, level), Paginate(page, pageSize));
        && |rows| == |ids|
        && forall j :: 0 <= j < |rows| ==>
             && ids[j] in scores && ids[j] < |students|
             && rows[j] == RowOf(ids[j], Entries(definitions, Filter(values, OfStudent(ids[j]))))
    {
      var w := Paginate(page, pageSize);
      var ranked := RankedStudents(schoolId, classId, level);
      var ids := PageOf(ranked, w);

      var pageValues := Filter(values, InIds(ids));
      var byStudent := GroupByStudent(pageValues);
      forall j | 0 <= j < |ids|
        ensures ids[j] < |students| && ids[j] in scores
        ensures Lookup(byStudent, ids[j]) == Entries(definitions, Filter(values, OfStudent(ids[j])))
      {
        assert ids[j] in ranked && ids[j] in ids;
        FilterFilter(values, InIds(ids), OfStudent(ids[j]));
      }
      rows := RowsOf(ids, byStudent);
    }

    /** The `riskScores.map` that builds the response rows. */
    method RowsOf(ids: seq<nat>, byStudent: map<nat, seq<IndicatorEntry>>) returns (rows: seq<RiskStudentRow>)
      requires Valid()
      requires forall j :: 0 <= j < |ids| ==> ids[j] < |students| && ids[j] in scores
      requires forall j :: 0 <= j < |ids| ==> Lookup(byStudent, ids[j]) == Entries(definitions, Filter(values, OfStudent(ids[j])))
      ensures |rows| == |ids|
      ensures forall j :: 0 <= j < |rows| ==> rows[j] == RowOf(ids[j], Entries(definitions, Filter(values, OfStudent(ids[j]))))
    {
      rows := [];
      for j := 0 to |ids|
        invariant |rows| == j
        invariant forall i :: 0 <= i < j ==> rows[i] == RowOf(ids[i], Entries(definitions, Filter(values, OfStudent(ids[i]))))
      {
        rows := rows + [RowOf(ids[j], Lookup(byStudent, ids[j]))];
      }
    }

    /** `getRiskForStudent`: the stored score, the stored indicator values and the five latest behaviour events. */
    function GetRiskForStudent(studentId: nat, schoolId: nat): (r: Result<StudentRisk>)
      requires Valid()
      reads this
      ensures !StudentInSchool(students, studentId, schoolId) ==> r == Err(NotFound("Student not found"))
      ensures StudentInSchool(students, studentId, schoolId) ==>
        && r.Ok?
        && r.value.student == students[studentId]
        && r.value.score == (if studentId in scores then Some(scores[studentId]) else None)
        && r.value.indicators == DetailedEntries(definitions, Filter(values, OfStudent(studentId)))
        && r.value.recentBehaviorEvents == RecentEvents(behaviorEvents, studentId)
    {
      if !(studentId < |students| && students[studentId].schoolId == schoolId) then
        Err(NotFound("Student not found"))
      else
        Ok(StudentRisk(studentId, students[studentId], if studentId in scores then Some(scores[studentId]) else None,
                       DetailedEntries(definitions, Filter(values, OfStudent(studentId))),
                       RecentEvents(behaviorEvents, studentId)))
    }
  }

  /**
   * `behaviorEvents: { orderBy: { date: 'desc' }, take: 5 }` for one student:
   * at most five of the student's own events, newest first, and no event of
   * the student that is left out is later than one that is kept.
   */
  function RecentEvents(events: seq<BehaviorEvent>, studentId: nat): (recent: seq<BehaviorEvent>)
    ensures |recent| == Min(5, Count(events, EventsOfStudent(studentId)))
    ensures SortedBy(recent, ByDateDesc())
    ensures forall e :: e in recent ==> e in events && e.studentId == studentId
    ensures multiset(recent) <= multiset(Filter(events, EventsOfStudent(studentId)))
    ensures forall e, j :: e in multiset(Filter(events, EventsOfStudent(studentId))) - multiset(recent) && 0 <= j < |recent| ==>
              e.date <= recent[j].date
  {
    assert Total(ByDateDesc());
    var own := Filter(events, EventsOfStudent(studentId));
    var latest := SortBy(own, ByDateDesc());
    assert |latest| == |multiset(latest)| == |multiset(own)| == |own|;
    var m := if |latest| <= 5 then |latest| else 5;
    PrefixIsLatest(latest, m);
    OwnEventsOf(events, studentId, latest[..m]);
    latest[..m]
  }

  /** The first m events of a newest-first list are among its events, and none of the others is later. */
  lemma PrefixIsLatest(latest: seq<BehaviorEvent>, m: nat)
    requires SortedBy(latest, ByDateDesc()) && m <= |latest|
    ensures multiset(latest[..m]) <= multiset(latest)
    ensures forall e, j :: e in multiset(latest) - multiset(latest[..m]) && 0 <= j < m ==> e.date <= latest[..m][j].date
    ensures SortedBy(latest[..m], ByDateDesc())
  {
    var recent := latest[..m];
    assert latest == recent + latest[m..];
    assert multiset(latest) == multiset(recent) + multiset(latest[m..]);
    DateDescPairwise(latest);
    forall e, j | e in multiset(latest) - multiset(recent) && 0 <= j < m
      ensures e.date <= recent[j].date
    {
      assert e in latest[m..];
      var i :| m <= i < |latest| && latest[i] == e;
      assert recent[j] == latest[j];
    }
  }

  /** Events drawn from the student's own events are events of the table, of that student. */
  lemma OwnEventsOf(events: seq<BehaviorEvent>, studentId: nat, recent: seq<BehaviorEvent>)
    requires multiset(recent) <= multiset(Filter(events, EventsOfStudent(studentId)))
    ensures forall e :: e in recent ==> e in events && e.studentId == studentId
  {
    forall e | e in recent
      ensures e in events && e.studentId == studentId
    {
      assert e in multiset(recent);
      assert e in Filter(events, EventsOfStudent(studentId));
      assert EventsOfStudent(studentId)(e);
    }
  }

  /** A list sorted newest first by adjacent pairs is sorted newest first between any two positions. */
  lemma {:induction false} DateDescPairwise(s: seq<BehaviorEvent>)
    requires SortedBy(s, ByDateDesc())
    ensures forall i, j :: 0 <= i < j < |s| ==> s[i].date >= s[j].date
    decreases |s|
  {
    if |s| > 1 {
      var rest := s[1..];
      assert SortedBy(rest, ByDateDesc()) by {
        forall i | 0 < i < |rest|
          ensures ByDateDesc()(rest[i - 1], rest[i])
        {
          assert ByDateDesc()(s[i], s[i + 1]);
        }
      }
      DateDescPairwise(rest);
      forall i, j | 0 <= i < j < |s|
        ensures s[i].date >= s[j].date
      {
        assert ByDateDesc()(s[0], s[1]);
        if i > 0 {
          assert s[i] == rest[i - 1] && s[j] == rest[j - 1];
        } else if j > 1 {
          assert s[1] == rest[0] && s[j] == rest[j - 1];
        }
      }
    }
  }

  /** Adding one value row to the grouping appends its entry to its own student's list only. */
  lemma GroupStep(defs: seq<Definition>, prefix: seq<ValueRow>, v: ValueRow, byStudent: map<nat, seq<IndicatorEntry>>)
    requires KnownIndicators(defs, prefix) && v.indicatorId < |defs|
    requires forall k: nat :: Lookup(byStudent, k) == Entries(defs, Filter(prefix, OfStudent(k)))
    ensures KnownIndicators(defs, prefix + [v])
    ensures var grouped := byStudent[v.studentId := Lookup(byStudent, v.studentId) + [IndicatorEntry(defs[v.indicatorId].name, v.value, v.level)]];
            forall k: nat :: Lookup(grouped, k) == Entries(defs, Filter(prefix + [v], OfStudent(k)))
  {
    var entry := IndicatorEntry(defs[v.indicatorId].name, v.value, v.level);
    var grouped := byStudent[v.studentId := Lookup(byStudent, v.studentId) + [entry]];
    forall k: nat
      ensures Lookup(grouped, k) == Entries(defs, Filter(prefix + [v], OfStudent(k)))
    {
      var before := Filter(prefix, OfStudent(k));
      FilterConcat(prefix, [v], OfStudent(k));
      if k == v.studentId {
        assert Filter([v], OfStudent(k)) == [v];
        EntriesAppend(defs, before, v);
      } else {
        assert Filter([v], OfStudent(k)) == [];
        assert before + [] == before;
      }
    }
  }

  function Min(a: int, b: int): int
  {
    if a <= b then a else b
  }

  /** What a calculation stores keeps every value row pointing at an existing definition. */
  lemma StoredRowsKnown(defs: seq<Definition>, schoolId: nat, values: seq<ValueRow>, studentId: nat, rows: seq<ValueRow>)
    requires KnownIndicators(defs, values)
    requires forall v :: v in rows ==> v.indicatorId in CanonicalIds(defs, schoolId).Values
    ensures var defs' := EnsureDefinitions(defs, map[], CanonicalDefinitions, schoolId).0;
            KnownIndicators(defs', Filter(values, NotOfStudent(studentId)) + rows)
  {
    CanonicalIdsResolve(defs, schoolId);
  }

  /** The score row a calculation at `now` stores. */
  function ScoreRowOf(ra: RiskAssessment, now: int): (row: ScoreRow)
    requires ra.level == MapScoreToLevel(ra.score)
    ensures row.level == MapScoreToLevel(row.score) && row.calculatedAt == now
  {
    ScoreRow(ra.score, ra.level, now)
  }

  /** The value rows a calculation at `now` stores, one per indicator, pointing at the given definition ids. */
  function ValueRowsOf(studentId: nat, ra: RiskAssessment, ids: map<string, nat>, now: int): (rows: seq<ValueRow>)
    requires forall i :: 0 <= i < |ra.indicators| ==> ra.indicators[i].name in ids
    ensures |rows| == |ra.indicators|
    ensures forall i :: 0 <= i < |rows| ==> rows[i].studentId == studentId && rows[i].calculatedAt == now
  {
    NewValueRows(studentId, ra.indicators, ids, now)
  }

  /** The stored score row and value rows of student `k` are the given ones. */
  ghost predicate Stored(values: seq<ValueRow>, scores: map<nat, ScoreRow>, k: nat, score: ScoreRow, rows: seq<ValueRow>)
  {
    k in scores && scores[k] == score && Filter(values, OfStudent(k)) == rows
  }

  /** Student `k` has the same stored rows as in the earlier tables. */
  ghost predicate Untouched(values: seq<ValueRow>, scores: map<nat, ScoreRow>,
                            values0: seq<ValueRow>, scores0: map<nat, ScoreRow>, k: nat)
  {
    && Filter(values, OfStudent(k)) == Filter(values0, OfStudent(k))
    && (k in scores <==> k in scores0)
    && (k in scores ==> scores[k] == scores0[k])
  }

  /** The risk tables a calculation writes. */
  datatype Tables = Tables(definitions: seq<Definition>, values: seq<ValueRow>, scores: map<nat, ScoreRow>)

  /** An assessment as `Assess` produces it: a consistent level and the three indicators in order. */
  predicate Complete(ra: RiskAssessment)
  {
    && ra.level == MapScoreToLevel(ra.score)
    && |ra.indicators| == 3
    && forall i :: 0 <= i < 3 ==> ra.indicators[i].name == IndicatorNames[i]
  }

  /** Every student's assessment from the given signal tables at `now`. */
  function AssessAll(assessments: seq<Assessment>, attendance: seq<AttendanceRecord>, events: seq<BehaviorEvent>,
                     now: int): (assess: nat -> RiskAssessment)
    ensures forall k :: assess(k) == Assess(assessments, attendance, events, k, now)
    ensures forall k :: Complete(assess(k))
  {
    (k: nat) => Assess(assessments, attendance, events, k, now)
  }

  /** The risk tables after `calculateRiskForStudent` succeeds for a student of the school with assessment `ra`. */
  function CalculateStep(t: Tables, studentId: nat, ra: RiskAssessment, schoolId: nat, now: int): (t': Tables)
    requires Complete(ra)
    ensures |t.definitions| <= |t'.definitions| && t'.definitions[..|t.definitions|] == t.definitions
    ensures t'.scores.Keys == t.scores.Keys + {studentId}
    ensures t'.scores[studentId].score == ra.score && t'.scores[studentId].level == ra.level
  {
    Tables(EnsureDefinitions(t.definitions, map[], CanonicalDefinitions, schoolId).0,
           ReplaceValues(t.values, studentId, ValueRowsOf(studentId, ra, CanonicalIds(t.definitions, schoolId), now)),
           t.scores[studentId := ScoreRowOf(ra, now)])
  }

  /** The risk tables after `recalculateRiskForSchool` has gone through `ids` in order. */
  function RecalculateAll(t: Tables, assess: nat -> RiskAssessment, ids: seq<nat>, schoolId: nat, now: int): (t': Tables)
    requires forall k :: Complete(assess(k))
    ensures |t.definitions| <= |t'.definitions| && t'.definitions[..|t.definitions|] == t.definitions
    ensures t.scores.Keys <= t'.scores.Keys
    decreases |ids|
  {
    if ids == [] then t
    else CalculateStep(RecalculateAll(t, assess, ids[..|ids| - 1], schoolId, now), ids[|ids| - 1], assess(ids[|ids| - 1]), schoolId, now)
  }

  /** One more student of the run is one more calculation step. */
  lemma RecalculateAllStep(t: Tables, assess: nat -> RiskAssessment, ids: seq<nat>, i: nat, schoolId: nat, now: int)
    requires forall k :: Complete(assess(k))
    requires i < |ids|
    ensures RecalculateAll(t, assess, ids[..i + 1], schoolId, now)
         == CalculateStep(RecalculateAll(t, assess, ids[..i], schoolId, now), ids[i], assess(ids[i]), schoolId, now)
  {
    assert ids[..i + 1][..i] == ids[..i];
  }

  /**
   * One calculation: the student has exactly the new rows and the new score
   * row; every other student keeps what they had.
   */
  lemma CalculateStepStores(t: Tables, studentId: nat, ra: RiskAssessment, schoolId: nat, now: int)
    requires Complete(ra)
    ensures var t' := CalculateStep(t, studentId, ra, schoolId, now);
            && Stored(t'.values, t'.scores, studentId, ScoreRowOf(ra, now),
                      ValueRowsOf(studentId, ra, CanonicalIds(t.definitions, schoolId), now))
            && forall k :: k != studentId ==> Untouched(t'.values, t'.scores, t.values, t.scores, k)
  {
    var rows := ValueRowsOf(studentId, ra, CanonicalIds(t.definitions, schoolId), now);
    ReplaceLeavesOnlyNewRows(t.values, studentId, rows);
    forall k | k != studentId
      ensures Filter(ReplaceValues(t.values, studentId, rows), OfStudent(k)) == Filter(t.values, OfStudent(k))
    {
      ReplaceKeepsOtherStudents(t.values, studentId, rows, k);
    }
  }

  /**
   * What a school-wide run leaves behind: each student of the run has the
   * score row and the indicator values of a fresh calculation (with the
   * definition ids the first calculation settled), every other student keeps
   * their rows, and the definition table is extended once.
   */
  lemma RecalculateAllSound(t: Tables, assess: nat -> RiskAssessment, ids: seq<nat>, schoolId: nat, now: int)
    requires forall k :: Complete(assess(k))
    ensures var t' := RecalculateAll(t, assess, ids, schoolId, now);
      && (ids == [] ==> t'.definitions == t.definitions)
      && (ids != [] ==> t'.definitions == EnsureDefinitions(t.definitions, map[], CanonicalDefinitions, schoolId).0)
      && (forall k :: k in ids ==>
            Stored(t'.values, t'.scores, k, ScoreRowOf(assess(k), now),
                   ValueRowsOf(k, assess(k), CanonicalIds(t.definitions, schoolId), now)))
      && (forall k :: k !in ids ==> Untouched(t'.values, t'.scores, t.values, t.scores, k))
  {
    RecalculateAllDefinitions(t, assess, ids, schoolId, now);
    RecalculateAllStored(t, assess, ids, schoolId, now);
    RecalculateAllUntouched(t, assess, ids, schoolId, now);
  }

  /** The definition table is extended by the first calculation of a run and left alone by the others. */
  lemma {:induction false} RecalculateAllDefinitions(t: Tables, assess: nat -> RiskAssessment, ids: seq<nat>, schoolId: nat,
                                                     now: int)
    requires forall k :: Complete(assess(k))
    ensures var t' := RecalculateAll(t, assess, ids, schoolId, now);
      && (ids == [] ==> t'.definitions == t.definitions)
      && (ids != [] ==> t'.definitions == EnsureDefinitions(t.definitions, map[], CanonicalDefinitions, schoolId).0)
    decreases |ids|
  {
    if ids != [] {
      var front := ids[..|ids| - 1];
      RecalculateAllDefinitions(t, assess, front, schoolId, now);
      EnsureDefinitionsIdempotent(t.definitions, CanonicalDefinitions, schoolId);
    }
  }

  /** Each student of the run holds the rows of a fresh calculation. */
  lemma {:induction false} RecalculateAllStored(t: Tables, assess: nat -> RiskAssessment, ids: seq<nat>, schoolId: nat, now: int)
    requires forall k :: Complete(assess(k))
    ensures var t' := RecalculateAll(t, assess, ids, schoolId, now);
      forall k :: k in ids ==>
        Stored(t'.values, t'.scores, k, ScoreRowOf(assess(k), now),
               ValueRowsOf(k, assess(k), CanonicalIds(t.definitions, schoolId), now))
    decreases |ids|
  {
    if ids != [] {
      var front := ids[..|ids| - 1];
      var last := ids[|ids| - 1];
      assert ids == front + [last];
      RecalculateAllStored(t, assess, front, schoolId, now);
      RecalculateAllDefinitions(t, assess, front, schoolId, now);
      var prev := RecalculateAll(t, assess, front, schoolId, now);
      EnsureDefinitionsIdempotent(t.definitions, CanonicalDefinitions, schoolId);
      assert CanonicalIds(prev.definitions, schoolId) == CanonicalIds(t.definitions, schoolId);
      CalculateStepStores(prev, last, assess(last), schoolId, now);
      var t' := CalculateStep(prev, last, assess(last), schoolId, now);
      var ids0 := CanonicalIds(t.definitions, schoolId);
      forall k | k in ids
        ensures Stored(t'.values, t'.scores, k, ScoreRowOf(assess(k), now), ValueRowsOf(k, assess(k), ids0, now))
      {
        if k != last {
          assert k in front;
          assert Stored(prev.values, prev.scores, k, ScoreRowOf(assess(k), now), ValueRowsOf(k, assess(k), ids0, now));
          assert Untouched(t'.values, t'.scores, prev.values, prev.scores, k);
        }
      }
    }
  }

  /** A student outside the run keeps the rows they had. */
  lemma {:induction false} RecalculateAllUntouched(t: Tables, assess: nat -> RiskAssessment, ids: seq<nat>, schoolId: nat,
                                                   now: int)
    requires forall k :: Complete(assess(k))
    ensures var t' := RecalculateAll(t, assess, ids, schoolId, now);
      forall k :: k !in ids ==> Untouched(t'.values, t'.scores, t.values, t.scores, k)
    decreases |ids|
  {
    if ids != [] {
      var front := ids[..|ids| - 1];
      var last := ids[|ids| - 1];
      assert ids == front + [last];
      RecalculateAllUntouched(t, assess, front, schoolId, now);
      var prev := RecalculateAll(t, assess, front, schoolId, now);
      CalculateStepStores(prev, last, assess(last), schoolId, now);
      var t' := CalculateStep(prev, last, assess(last), schoolId, now);
      forall k | k !in ids
        ensures Untouched(t'.values, t'.scores, t.values, t.scores, k)
      {
        assert k !in front && k != last;
        assert Untouched(prev.values, prev.scores, t.values, t.scores, k);
        assert Untouched(t'.values, t'.scores, prev.values, prev.scores, k);
      }
    }
  }

  /**
   * Running the school-wide recalculation twice with the same signals stores
   * the same rows for every student as running it once: values are replaced,
   * never accumulated.
   */
  lemma RecalculateTwiceStoresSame(t: Tables, assess: nat -> RiskAssessment, ids: seq<nat>, schoolId: nat, now: int)
    requires forall k :: Complete(assess(k))
    ensures var once := RecalculateAll(t, assess, ids, schoolId, now);
            var twice := RecalculateAll(once, assess, ids, schoolId, now);
            forall k :: Untouched(twice.values, twice.scores, once.values, once.scores, k)
  {
    var once := RecalculateAll(t, assess, ids, schoolId, now);
    RecalculateAllSound(t, assess, ids, schoolId, now);
    RecalculateAllSound(once, assess, ids, schoolId, now);
    if ids != [] {
      EnsureDefinitionsIdempotent(t.definitions, CanonicalDefinitions, schoolId);
      assert CanonicalIds(once.definitions, schoolId) == CanonicalIds(t.definitions, schoolId);
    }
  }
}
