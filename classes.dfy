/**
 * School classes: listing a school's classes by name, looking one up within
 * the school, and getting a class by name or creating it when the school has
 * none of that name.
 */
module Classes {
  import opened Common

  datatype ClassRow = ClassRow(schoolId: nat, name: string, yearLevel: Option<int>, homeroomTeacherId: Option<nat>)

  const ClassNotFound := "Class not found"

  /** Ascending order of names, character by character; a prefix comes first. */
  predicate NameLe(a: string, b: string)
    decreases |a|
  {
    a == [] || (b != [] && (a[0] < b[0] || (a[0] == b[0] && NameLe(a[1..], b[1..]))))
  }

  lemma {:induction false} NameLeTotal(a: string, b: string)
    ensures NameLe(a, b) || NameLe(b, a)
    decreases |a|
  {
    if a != [] && b != [] && a[0] == b[0] {
      NameLeTotal(a[1..], b[1..]);
    }
  }

  function NameAt(classes: seq<ClassRow>, k: nat): string
  {
    if k < |classes| then classes[k].name else ""
  }

  function ByName(classes: seq<ClassRow>): (nat, nat) -> bool
  {
    (a: nat, b: nat) => NameLe(NameAt(classes, a), NameAt(classes, b))
  }

  function OfSchool(classes: seq<ClassRow>, schoolId: nat): nat -> bool
  {
    (k: nat) => k < |classes| && classes[k].schoolId == schoolId
  }

  predicate Named(classes: seq<ClassRow>, k: nat, schoolId: nat, name: string)
  {
    k < |classes| && classes[k].schoolId == schoolId && classes[k].name == name
  }

  /** `findFirst({ where: { schoolId, name } })`: the first class of the school with that name, if any. */
  function FindClass(classes: seq<ClassRow>, schoolId: nat, name: string): (r: Option<nat>)
    ensures r.Some? ==> Named(classes, r.value, schoolId, name)
    ensures r.Some? ==> forall k :: 0 <= k < r.value ==> !Named(classes, k, schoolId, name)
    ensures r.None? ==> forall k :: 0 <= k < |classes| ==> !Named(classes, k, schoolId, name)
    decreases |classes|
  {
    if classes == [] then None
    else
      var init := classes[..|classes| - 1];
      assert forall k :: 0 <= k < |init| ==> (Named(init, k, schoolId, name) <==> Named(classes, k, schoolId, name));
      var earlier := FindClass(init, schoolId, name);
      if earlier.Some? then earlier
      else if Named(classes, |classes| - 1, schoolId, name) then Some(|classes| - 1)
      else None
  }

  /** Appending rows never changes which class a lookup finds when it found one before. */
  lemma {:induction false} FindClassAppend(classes: seq<ClassRow>, more: seq<ClassRow>, schoolId: nat, name: string)
    requires FindClass(classes, schoolId, name).Some?
    ensures FindClass(classes + more, schoolId, name) == FindClass(classes, schoolId, name)
    decreases |more|
  {
    if more == [] {
      assert classes + more == classes;
    } else {
      var init := classes + more[..|more| - 1];
      assert (classes + more)[..|classes + more| - 1] == init;
      FindClassAppend(classes, more[..|more| - 1], schoolId, name);
      var k := FindClass(classes, schoolId, name).value;
      assert Named(init, k, schoolId, name) && Named(classes + more, k, schoolId, name);
    }
  }

  class ClassesService {
    var classes: seq<ClassRow>

    constructor (classes: seq<ClassRow>)
      ensures this.classes == classes
    {
      this.classes := classes;
    }

    /** The ids of the school's classes, in ascending order of name. */
    function ListClasses(schoolId: nat): (ids: seq<nat>)
      reads this
      ensures forall j :: 0 <= j < |ids| ==> ids[j] < |classes| && classes[ids[j]].schoolId == schoolId
      ensures forall k :: 0 <= k < |classes| && classes[k].schoolId == schoolId ==> k in ids
      ensures |ids| == Count(Indices(|classes|), OfSchool(classes, schoolId))
      ensures forall j :: 0 < j < |ids| ==> NameLe(classes[ids[j - 1]].name, classes[ids[j]].name)
    {
      var rows := classes;
      var own: seq<nat> := Filter(Indices(|rows|), OfSchool(rows, schoolId));
      forall a: nat, b: nat
        ensures ByName(rows)(a, b) || ByName(rows)(b, a)
      {
        NameLeTotal(NameAt(rows, a), NameAt(rows, b));
      }
      var ids: seq<nat> := SortBy(own, ByName(rows));
      forall j | 0 <= j < |ids|
        ensures ids[j] < |rows| && rows[ids[j]].schoolId == schoolId
      {
        assert ids[j] in multiset(own);
        assert OfSchool(rows, schoolId)(ids[j]);
      }
      forall j | 0 < j < |ids|
        ensures NameLe(rows[ids[j - 1]].name, rows[ids[j]].name)
      {
        assert ByName(rows)(ids[j - 1], ids[j]);
      }
      forall k | 0 <= k < |rows| && rows[k].schoolId == schoolId
        ensures k in ids
      {
        assert Indices(|rows|)[k] == k;
        assert OfSchool(rows, schoolId)(k);
        FilterKeeps<nat>(Indices(|rows|), OfSchool(rows, schoolId), k);
        assert k in multiset(ids);
      }
      ids
    }

    function GetClassOrThrow(schoolId: nat, id: nat): (r: Result<ClassRow>)
      reads this
      ensures !(id < |classes| && classes[id].schoolId == schoolId) <==> r == Err(NotFound(ClassNotFound))
      ensures r.Ok? ==> r.value == classes[id] && r.value.schoolId == schoolId
    {
      if id < |classes| && classes[id].schoolId == schoolId then Ok(classes[id]) else Err(NotFound(ClassNotFound))
    }

    /**
     * The school's class of that name; created, with only the school and the
     * name set, when there is none. Afterwards a lookup of the name finds it.
     */
    method GetOrCreateByName(schoolId: nat, name: string) returns (id: nat)
      modifies this
      ensures FindClass(old(classes), schoolId, name).Some? ==>
        id == FindClass(old(classes), schoolId, name).value && classes == old(classes)
      ensures FindClass(old(classes), schoolId, name).None? ==>
        id == |old(classes)| && classes == old(classes) + [ClassRow(schoolId, name, None, None)]
      ensures FindClass(classes, schoolId, name) == Some(id)
    {
      var existing := FindClass(classes, schoolId, name);
      if existing.Some? {
        return existing.value;
      }
      id := |classes|;
      var before := classes;
      classes := classes + [ClassRow(schoolId, name, None, None)];
      assert classes[..|classes| - 1] == before;
    }
  }

  /** Creating a class of a name the school lacked makes the next lookup, and so the next call, find it. */
  lemma {:induction false} CreatedClassIsFound(classes: seq<ClassRow>, schoolId: nat, name: string)
    requires FindClass(classes, schoolId, name).None?
    ensures FindClass(classes + [ClassRow(schoolId, name, None, None)], schoolId, name) == Some(|classes|)
  {
    assert (classes + [ClassRow(schoolId, name, None, None)])[..|classes|] == classes;
  }
}
