/**
 * Student import: a list of CSV records (class name, first name, last name,
 * external id), processed row by row. A row without a class name, first name
 * or last name is an error; otherwise its class is found or created (once per
 * class name and call, through a cache) and the student is created, and a
 * failure of that creation is recorded against the row without stopping the
 * import.
 */
module Importer {
  import opened Common
  import opened Classes

  /** A parsed record; the parser has already trimmed every field, and a missing column is None. */
  datatype CsvRecord = CsvRecord(className: Option<string>, firstName: Option<string>, lastName: Option<string>,
                                 externalId: Option<string>)

  datatype RowError = RowError(row: nat, error: string)

  datatype ImportResult = ImportResult(processed: nat, created: nat, errors: seq<RowError>)

  /**
   * What the student creation does for a row number: None when it succeeds,
   * Some(message) when it throws, with None for an error without a message.
   */
  type CreateFailure = nat -> Option<Option<string>>

  const MissingFields := "Missing required fields"
  const UnknownError := "Unknown error"

  /** A field is given when it is present and not empty (`!field` is false). */
  predicate Present(field: Option<string>)
  {
    field.Some? && field.value != ""
  }

  predicate Complete(record: CsvRecord)
  {
    Present(record.className) && Present(record.firstName) && Present(record.lastName)
  }

  /** The error recorded for row number `row`, if any. */
  function RowFailure(record: CsvRecord, row: nat, failure: CreateFailure): (e: Option<string>)
    ensures !Complete(record) ==> e == Some(MissingFields)
    ensures Complete(record) ==> (e.None? <==> failure(row).None?)
  {
    if !Complete(record) then Some(MissingFields)
    else match failure(row)
      case None => None
      case Some(message) => Some(if message.Some? then message.value else UnknownError)
  }

  /** The error list of an import of these records: one entry per failing row, in row order, numbered from 1. */
  function ErrorsOf(records: seq<CsvRecord>, failure: CreateFailure): (errors: seq<RowError>)
    ensures |errors| <= |records|
    ensures forall j :: 0 <= j < |errors| ==> 1 <= errors[j].row <= |records|
    ensures forall i, j :: 0 <= i < j < |errors| ==> errors[i].row < errors[j].row
    decreases |records|
  {
    if records == [] then []
    else
      var n := |records|;
      var earlier := ErrorsOf(records[..n - 1], failure);
      match RowFailure(records[n - 1], n, failure)
      case None => earlier
      case Some(e) => earlier + [RowError(n, e)]
  }

  /** The records a student is created from, in row order. */
  function CreatedRecords(records: seq<CsvRecord>, failure: CreateFailure): (created: seq<CsvRecord>)
    ensures |created| + |ErrorsOf(records, failure)| == |records|
    ensures forall c :: 0 <= c < |created| ==> Complete(created[c])
    decreases |records|
  {
    if records == [] then []
    else
      var n := |records|;
      var earlier := CreatedRecords(records[..n - 1], failure);
      if RowFailure(records[n - 1], n, failure).None? then earlier + [records[n - 1]] else earlier
  }

  /** Each entry of the error list is the error of the row it names. */
  lemma {:induction false} ErrorsExplained(records: seq<CsvRecord>, failure: CreateFailure)
    ensures forall e :: e in ErrorsOf(records, failure) ==>
              1 <= e.row <= |records| && RowFailure(records[e.row - 1], e.row, failure) == Some(e.error)
    decreases |records|
  {
    if records != [] {
      var n := |records|;
      var init := records[..n - 1];
      var earlier := ErrorsOf(init, failure);
      ErrorsExplained(init, failure);
      forall e | e in earlier
        ensures 1 <= e.row <= n && RowFailure(records[e.row - 1], e.row, failure) == Some(e.error)
      {
        assert init[e.row - 1] == records[e.row - 1];
      }
    }
  }

  /** Every failing row has its entry in the error list. */
  lemma {:induction false} FailingRowListed(records: seq<CsvRecord>, failure: CreateFailure, i: nat)
    requires i < |records| && RowFailure(records[i], i + 1, failure).Some?
    ensures RowError(i + 1, RowFailure(records[i], i + 1, failure).value) in ErrorsOf(records, failure)
    decreases |records|
  {
    var n := |records|;
    if i < n - 1 {
      assert records[..n - 1][i] == records[i];
      FailingRowListed(records[..n - 1], failure, i);
    }
  }

  /** One more row extends the error list or the created records, as that row's outcome says. */
  lemma RowStep(records: seq<CsvRecord>, failure: CreateFailure, k: nat)
    requires k < |records|
    ensures var e := RowFailure(records[k], k + 1, failure);
      && (e.Some? ==> ErrorsOf(records[..k + 1], failure) == ErrorsOf(records[..k], failure) + [RowError(k + 1, e.value)]
                      && CreatedRecords(records[..k + 1], failure) == CreatedRecords(records[..k], failure))
      && (e.None? ==> ErrorsOf(records[..k + 1], failure) == ErrorsOf(records[..k], failure)
                      && CreatedRecords(records[..k + 1], failure) == CreatedRecords(records[..k], failure) + [records[k]])
  {
    assert records[..k + 1][..k] == records[..k];
    assert records[..k + 1][k] == records[k];
  }

  /** The student a created record becomes, in the class `classId`. */
  function StudentOf(schoolId: nat, classId: nat, record: CsvRecord): (s: Student)
    requires Complete(record)
    ensures s.schoolId == schoolId && s.classId == classId && s.externalId == record.externalId
    ensures s.firstName == record.firstName.value && s.lastName == record.lastName.value
  {
    Student(schoolId, classId, record.firstName.value, record.lastName.value, record.externalId)
  }

  /** Every cached class id is the class a lookup of its name finds. */
  ghost predicate CacheSound(cache: map<string, nat>, classes: seq<ClassRow>, schoolId: nat)
  {
    forall name :: name in cache ==> FindClass(classes, schoolId, name) == Some(cache[name])
  }

  /** The names looked up so far are the cached names, each looked up once. */
  ghost predicate LookedUpOnce(cache: map<string, nat>, lookups: seq<string>)
  {
    && (forall name :: name in cache <==> name in lookups)
    && (forall i, j :: 0 <= i < j < |lookups| ==> lookups[i] != lookups[j])
  }

  /** The class names of the complete records. */
  function CompleteClassNames(records: seq<CsvRecord>): set<string>
  {
    set i | 0 <= i < |records| && Complete(records[i]) :: records[i].className.value
  }

  /** Row `origin[j]` is a complete record whose class name is the j-th name looked up. */
  ghost predicate LookupOrigins(lookups: seq<string>, origin: seq<nat>, records: seq<CsvRecord>, k: nat)
  {
    && |origin| == |lookups|
    && forall j :: 0 <= j < |origin| ==>
         origin[j] < k && origin[j] < |records| && Complete(records[origin[j]])
         && records[origin[j]].className == Some(lookups[j])
  }

  predicate Extends<T(==)>(before: seq<T>, after: seq<T>)
  {
    |before| <= |after| && after[..|before|] == before
  }

  lemma ExtendsTrans<T>(a: seq<T>, b: seq<T>, c: seq<T>)
    requires Extends(a, b) && Extends(b, c)
    ensures Extends(a, c)
  {
    assert c[..|a|] == c[..|b|][..|a|];
  }

  /**
   * The student table is the old one followed by one student per created
   * record, in order, each in a class of the school with the record's class name.
   */
  ghost predicate StudentsMatch(students: seq<Student>, students0: seq<Student>, created: seq<CsvRecord>,
                                classes: seq<ClassRow>, schoolId: nat)
  {
    && Extends(students0, students) && |students| == |students0| + |created|
    && forall c :: 0 <= c < |created| ==>
         && Complete(created[c])
         && var s := students[|students0| + c];
            s == StudentOf(schoolId, s.classId, created[c]) && Named(classes, s.classId, schoolId, created[c].className.value)
  }

  lemma StudentsMatchGrowClasses(students: seq<Student>, students0: seq<Student>, created: seq<CsvRecord>,
                                 before: seq<ClassRow>, after: seq<ClassRow>, schoolId: nat)
    requires StudentsMatch(students, students0, created, before, schoolId) && Extends(before, after)
    ensures StudentsMatch(students, students0, created, after, schoolId)
  {
    forall k | 0 <= k < |before|
      ensures after[k] == before[k]
    {
      assert after[..|before|][k] == before[k];
    }
  }

  lemma StudentsMatchAppend(students: seq<Student>, students0: seq<Student>, created: seq<CsvRecord>,
                            classes: seq<ClassRow>, schoolId: nat, classId: nat, record: CsvRecord)
    requires StudentsMatch(students, students0, created, classes, schoolId)
    requires Complete(record) && Named(classes, classId, schoolId, record.className.value)
    ensures StudentsMatch(students + [StudentOf(schoolId, classId, record)], students0, created + [record], classes, schoolId)
  {
    var next := students + [StudentOf(schoolId, classId, record)];
    assert next[..|students0|] == students[..|students0|];
    forall c | 0 <= c < |created| + 1
      ensures Complete((created + [record])[c])
      ensures var s := next[|students0| + c];
              s == StudentOf(schoolId, s.classId, (created + [record])[c])
              && Named(classes, s.classId, schoolId, (created + [record])[c].className.value)
    {
      if c < |created| {
        assert next[|students0| + c] == students[|students0| + c];
      }
    }
  }

  /** What the import loop keeps after its first `k` rows. */
  ghost predicate Progress(students: seq<Student>, students0: seq<Student>, classes: seq<ClassRow>,
                           classes0: seq<ClassRow>, schoolId: nat, records: seq<CsvRecord>, failure: CreateFailure,
                           k: nat, errors: seq<RowError>, created: nat, cache: map<string, nat>,
                           lookups: seq<string>, origin: seq<nat>)
  {
    && k <= |records|
    && errors == ErrorsOf(records[..k], failure)
    && created == |CreatedRecords(records[..k], failure)|
    && StudentsMatch(students, students0, CreatedRecords(records[..k], failure), classes, schoolId)
    && Extends(classes0, classes)
    && CacheSound(cache, classes, schoolId) && LookedUpOnce(cache, lookups)
    && LookupOrigins(lookups, origin, records, k)
  }

  class ImportService {
    const classesService: ClassesService
    var students: seq<Student>

    constructor (classesService: ClassesService, students: seq<Student>)
      ensures this.classesService == classesService && this.students == students
    {
      this.classesService := classesService;
      this.students := students;
    }

    /**
     * `classCache.get(className)`, and on a miss `getOrCreateByName` followed
     * by `classCache.set`: the class of the school with that name.
     */
    method ClassFor(schoolId: nat, className: string, cache: map<string, nat>, ghost lookups: seq<string>)
      returns (classId: nat, cache': map<string, nat>, ghost lookups': seq<string>)
      modifies classesService
      requires CacheSound(cache, classesService.classes, schoolId) && LookedUpOnce(cache, lookups)
      ensures Named(classesService.classes, classId, schoolId, className)
      ensures CacheSound(cache', classesService.classes, schoolId) && LookedUpOnce(cache', lookups')
      ensures Extends(old(classesService.classes), classesService.classes)
      ensures className in cache ==> classesService.classes == old(classesService.classes) && lookups' == lookups
      ensures className !in cache ==> lookups' == lookups + [className]
    {
      if className in cache {
        return cache[className], cache, lookups;
      }
      ghost var before := classesService.classes;
      classId := classesService.GetOrCreateByName(schoolId, className);
      KeepFound(before, classesService.classes, schoolId, cache);
      cache' := cache[className := classId];
      lookups' := lookups + [className];
    }

    /**
     * One row of the import loop: `row` is the row number (`processed` after
     * its increment). A row missing a field gets the "Missing required fields"
     * error; otherwise its class is found or created and the student created,
     * and a creation failure becomes the row's error.
     */
    method ImportRow(schoolId: nat, records: seq<CsvRecord>, failure: CreateFailure, k: nat, row: nat,
                     errors: seq<RowError>, created: nat, cache: map<string, nat>,
                     ghost lookups: seq<string>, ghost origin: seq<nat>,
                     ghost students0: seq<Student>, ghost classes0: seq<ClassRow>)
      returns (errors': seq<RowError>, created': nat, cache': map<string, nat>,
               ghost lookups': seq<string>, ghost origin': seq<nat>)
      modifies this, classesService
      requires k < |records| && row == k + 1
      requires Progress(students, students0, classesService.classes, classes0, schoolId, records, failure,
                        k, errors, created, cache, lookups, origin)
      ensures Progress(students, students0, classesService.classes, classes0, schoolId, records, failure,
                       k + 1, errors', created', cache', lookups', origin')
    {
      RowStep(records, failure, k);
      ghost var createdBefore := CreatedRecords(records[..k], failure);
      var record := records[k];
      if !Present(record.className) || !Present(record.firstName) || !Present(record.lastName) {
        assert RowFailure(record, row, failure) == Some(MissingFields);
        return errors + [RowError(row, MissingFields)], created, cache, lookups, origin;
      }
      var className := record.className.value;

      ghost var classesBefore := classesService.classes;
      var classId;
      classId, cache', lookups' := ClassFor(schoolId, className, cache, lookups);
      origin' := if lookups' != lookups then origin + [k] else origin;
      ExtendsTrans(classes0, classesBefore, classesService.classes);
      StudentsMatchGrowClasses(students, students0, createdBefore, classesBefore, classesService.classes, schoolId);

      var outcome := failure(row);
      if outcome.None? {
        assert RowFailure(record, row, failure).None?;
        StudentsMatchAppend(students, students0, createdBefore, classesService.classes, schoolId, classId, record);
        students := students + [StudentOf(schoolId, classId, record)];
        errors', created' := errors, created + 1;
      } else {
        var message := if outcome.value.Some? then outcome.value.value else UnknownError;
        assert RowFailure(record, row, failure) == Some(message);
        errors', created' := errors + [RowError(row, message)], created;
      }
    }

    /**
     * Imports the records: every row is counted, every row either creates a
     * student or adds exactly one error, and a class name is looked up at most
     * once per call (`lookups` lists the names looked up, in order).
     */
    method ImportStudents(schoolId: nat, records: seq<CsvRecord>, failure: CreateFailure)
      returns (r: ImportResult, ghost lookups: seq<string>)
      modifies this, classesService
      ensures r.processed == |records|
      ensures r.errors == ErrorsOf(records, failure)
      ensures r.created == |CreatedRecords(records, failure)| && r.created + |r.errors| == r.processed
      ensures StudentsMatch(students, old(students), CreatedRecords(records, failure), classesService.classes, schoolId)
      ensures Extends(old(classesService.classes), classesService.classes)
      ensures forall i, j :: 0 <= i < j < |lookups| ==> lookups[i] != lookups[j]
      ensures forall j :: 0 <= j < |lookups| ==> lookups[j] in CompleteClassNames(records)
    {
      var processed := 0;
      var created := 0;
      var errors: seq<RowError> := [];
      var classCache: map<string, nat> := map[];
      lookups := [];
      ghost var students0 := students;
      ghost var classes0 := classesService.classes;
      ghost var origin: seq<nat> := [];

      for k := 0 to |records|
        invariant processed == k
        invariant Progress(students, students0, classesService.classes, classes0, schoolId, records, failure,
                           k, errors, created, classCache, lookups, origin)
      {
        processed := processed + 1;
        errors, created, classCache, lookups, origin :=
          ImportRow(schoolId, records, failure, k, processed, errors, created, classCache, lookups, origin,
                    students0, classes0);
      }
      assert records[..|records|] == records;
      forall j | 0 <= j < |lookups|
        ensures lookups[j] in CompleteClassNames(records)
      {
        assert records[origin[j]].className.value == lookups[j];
      }
      r := ImportResult(processed, created, errors);
    }
  }

  /** Classes only appended to: every cached name still finds its cached class. */
  lemma KeepFound(before: seq<ClassRow>, after: seq<ClassRow>, schoolId: nat, cache: map<string, nat>)
    requires after == before || (|after| == |before| + 1 && after[..|before|] == before)
    requires CacheSound(cache, before, schoolId)
    ensures CacheSound(cache, after, schoolId)
  {
    forall name | name in cache
      ensures FindClass(after, schoolId, name) == Some(cache[name])
    {
      if after != before {
        FindClassAppend(before, after[|before|..], schoolId, name);
        assert before + after[|before|..] == after;
      }
    }
  }
}
