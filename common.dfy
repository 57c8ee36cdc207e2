/**
 * Shared vocabulary of the school-administration services: optional values,
 * request-body fields, the two exception kinds the services throw, the
 * page/pageSize/skip convention of every list endpoint, and small generic
 * helpers over the in-memory tables (filtering, counting, sorting, folding
 * grouped counts).
 */
module Common {

  datatype Option<T> = None | Some(value: T)

  /** A field of a JSON request body: left out, sent as `null`, or sent with a value. */
  datatype Patch<T> = Undefined | Null | Value(value: T)

  /** `field ?? fallback`: both `undefined` and `null` fall back. */
  function Coalesce<T>(field: Patch<T>, fallback: T): (r: T)
    ensures field.Value? ==> r == field.value
    ensures !field.Value? ==> r == fallback
  {
    if field.Value? then field.value else fallback
  }

  /** `field ?? fallback` where the fallback is itself nullable. */
  function CoalesceOption<T>(field: Patch<T>, fallback: Option<T>): (r: Option<T>)
    ensures field.Value? ==> r == Some(field.value)
    ensures !field.Value? ==> r == fallback
  {
    if field.Value? then Some(field.value) else fallback
  }

  /** The exceptions the services throw (NestJS NotFoundException and BadRequestException). */
  datatype Error = NotFound(message: string) | BadRequest(message: string)

  datatype Result<T> = Ok(value: T) | Err(error: Error)

  /** A student row as the services see it; its id is its position in the student table. */
  datatype Student = Student(schoolId: nat, classId: nat, firstName: string, lastName: string, externalId: Option<string>)

  /** A user row; only the school it belongs to matters to the services modelled here. */
  datatype User = User(schoolId: nat, email: string)

  predicate StudentInSchool(students: seq<Student>, studentId: nat, schoolId: nat)
  {
    studentId < |students| && students[studentId].schoolId == schoolId
  }

  predicate UserInSchool(users: seq<User>, userId: nat, schoolId: nat)
  {
    userId < |users| && users[userId].schoolId == schoolId
  }

  // ---------------------------------------------------------------------------
  // Pagination: `page && page > 0 ? page : 1`, `pageSize && pageSize > 0 ? pageSize : 20`,
  // `skip = (page - 1) * pageSize`, `take = pageSize`.

  const DefaultPageSize: int := 20

  datatype PageWindow = PageWindow(page: int, pageSize: int, skip: int)

  function Paginate(page: Option<int>, pageSize: Option<int>): (w: PageWindow)
    ensures w.page >= 1 && w.pageSize >= 1 && w.skip >= 0
    ensures page.Some? && page.value > 0 ==> w.page == page.value
    ensures !(page.Some? && page.value > 0) ==> w.page == 1
    ensures pageSize.Some? && pageSize.value > 0 ==> w.pageSize == pageSize.value
    ensures !(pageSize.Some? && pageSize.value > 0) ==> w.pageSize == DefaultPageSize
    ensures w.skip == (w.page - 1) * w.pageSize
  {
    var p := if page.Some? && page.value > 0 then page.value else 1;
    var s := if pageSize.Some? && pageSize.value > 0 then pageSize.value else DefaultPageSize;
    PageWindow(p, s, (p - 1) * s)
  }

  /** The rows a query with `skip` and `take` returns from an already filtered and ordered list. */
  function PageOf<T>(rows: seq<T>, w: PageWindow): (r: seq<T>)
    requires w.skip >= 0 && w.pageSize >= 1
    ensures |r| <= w.pageSize
    ensures w.skip + |r| <= |rows| || r == []
    ensures forall j :: 0 <= j < |r| ==> w.skip + j < |rows| && r[j] == rows[w.skip + j]
    ensures w.skip + w.pageSize <= |rows| ==> |r| == w.pageSize
    ensures |r| == if w.skip >= |rows| then 0 else if |rows| - w.skip < w.pageSize then |rows| - w.skip else w.pageSize
  {
    if w.skip >= |rows| then []
    else if w.skip + w.pageSize <= |rows| then rows[w.skip..w.skip + w.pageSize]
    else rows[w.skip..]
  }

  /**
   * With skip = (page - 1) * pageSize, the row at position i of the ordered
   * list is on exactly one page: page i / pageSize + 1, at position
   * i - skip of that page.
   */
  lemma RowOnExactlyOnePage<T>(rows: seq<T>, page: Option<int>, pageSize: Option<int>, i: nat)
    requires i < |rows|
    ensures var w := Paginate(page, pageSize);
            var r := PageOf(rows, w);
            (w.skip <= i && i - w.skip < |r| && r[i - w.skip] == rows[i]) <==> w.page == i / w.pageSize + 1
  {
    RowOnWindowPage(rows, Paginate(page, pageSize), i);
  }

  /** RowOnExactlyOnePage for any window whose skip is (page - 1) * pageSize. */
  lemma RowOnWindowPage<T>(rows: seq<T>, w: PageWindow, i: nat)
    requires w.page >= 1 && w.pageSize >= 1 && w.skip == (w.page - 1) * w.pageSize && i < |rows|
    ensures var r := PageOf(rows, w);
            (w.skip <= i && i - w.skip < |r| && r[i - w.skip] == rows[i]) <==> w.page == i / w.pageSize + 1
  {
    WindowOfRow(w, i);
    PageHoldsRow(rows, w, i);
  }

  /** A row is on the page exactly when its position falls in the window. */
  lemma PageHoldsRow<T>(rows: seq<T>, w: PageWindow, i: nat)
    requires w.skip >= 0 && w.pageSize >= 1 && i < |rows|
    ensures var r := PageOf(rows, w);
            (w.skip <= i && i - w.skip < |r| && r[i - w.skip] == rows[i]) <==> w.skip <= i < w.skip + w.pageSize
  {
    var r := PageOf(rows, w);
    if w.skip <= i < w.skip + w.pageSize {
      assert w.skip < |rows| && i - w.skip < |r|;
      assert r[i - w.skip] == rows[w.skip + (i - w.skip)];
    }
  }

  /** The window arithmetic behind RowOnExactlyOnePage. */
  lemma WindowOfRow(w: PageWindow, i: nat)
    requires w.page >= 1 && w.pageSize >= 1 && w.skip == (w.page - 1) * w.pageSize
    ensures w.skip <= i < w.skip + w.pageSize <==> w.page == i / w.pageSize + 1
  {
    var s := w.pageSize;
    var q, r := i / s, i % s;
    assert i == q * s + r && 0 <= r < s;
    if w.page == q + 1 {
      assert w.skip == q * s;
    } else if w.page <= q {
      assert w.skip + s == w.page * s;
      MulMonotone(w.page, q, s);
    } else {
      assert w.page - 1 >= q + 1;
      MulMonotone(q + 1, w.page - 1, s);
    }
  }

  lemma MulMonotone(a: int, b: int, s: int)
    requires a <= b && s >= 0
    ensures a * s <= b * s
  {
  }

  // ---------------------------------------------------------------------------
  // Decimal rendering of a number, as `${n}` produces it.

  function DigitChar(d: nat): (c: char)
    requires d < 10
    ensures '0' <= c <= '9' && c as int - '0' as int == d
  {
    ('0' as int + d) as char
  }

  function Decimal(n: nat): (s: string)
    ensures 1 <= |s| && forall i :: 0 <= i < |s| ==> '0' <= s[i] <= '9'
    ensures |s| == 1 <==> n < 10
    ensures |s| > 1 ==> s[0] != '0'
    decreases n
  {
    if n < 10 then [DigitChar(n)] else Decimal(n / 10) + [DigitChar(n % 10)]
  }

  /** The number a string of decimal digits denotes. */
  function ParseDecimal(s: string): nat
    requires forall i :: 0 <= i < |s| ==> '0' <= s[i] <= '9'
    decreases |s|
  {
    if s == [] then 0
    else ParseDecimal(s[..|s| - 1]) * 10 + (s[|s| - 1] as int - '0' as int)
  }

  /** Rendering loses nothing: the digits read back as the number. */
  lemma {:induction false} DecimalRoundTrip(n: nat)
    ensures ParseDecimal(Decimal(n)) == n
    decreases n
  {
    if n >= 10 {
      DecimalRoundTrip(n / 10);
      var s := Decimal(n);
      assert s[..|s| - 1] == Decimal(n / 10);
    }
  }

  // ---------------------------------------------------------------------------
  // Filtering and counting (the `where` of a query, `.filter`, `.length`, `count`).

  function Filter<T>(s: seq<T>, keep: T -> bool): (r: seq<T>)
    ensures |r| <= |s|
    ensures forall x :: x in r ==> x in s && keep(x)
    decreases |s|
  {
    if s == [] then []
    else if keep(s[0]) then [s[0]] + Filter(s[1..], keep)
    else Filter(s[1..], keep)
  }

  lemma {:induction false} FilterConcat<T>(a: seq<T>, b: seq<T>, keep: T -> bool)
    ensures Filter(a + b, keep) == Filter(a, keep) + Filter(b, keep)
    decreases |a|
  {
    if a == [] {
      assert a + b == b;
    } else {
      assert (a + b)[1..] == a[1..] + b;
      FilterConcat(a[1..], b, keep);
    }
  }

  /** Every element of the list that passes the test survives the filter. */
  lemma {:induction false} FilterKeeps<T>(s: seq<T>, keep: T -> bool, x: T)
    requires x in s && keep(x)
    ensures x in Filter(s, keep)
    decreases |s|
  {
    if s[0] != x {
      FilterKeeps(s[1..], keep, x);
    }
  }

  /** A filter that every element passes returns the list unchanged. */
  lemma {:induction false} FilterAllSame<T>(s: seq<T>, keep: T -> bool)
    requires forall i :: 0 <= i < |s| ==> keep(s[i])
    ensures Filter(s, keep) == s
    decreases |s|
  {
    if s != [] {
      FilterAllSame(s[1..], keep);
    }
  }

  lemma {:induction false} FilterNoneEmpty<T>(s: seq<T>, keep: T -> bool)
    requires forall i :: 0 <= i < |s| ==> !keep(s[i])
    ensures Filter(s, keep) == []
    decreases |s|
  {
    if s != [] {
      FilterNoneEmpty(s[1..], keep);
    }
  }

  /** Filtering twice, where the second test implies the first, is filtering once by the second. */
  lemma {:induction false} FilterFilter<T>(s: seq<T>, first: T -> bool, second: T -> bool)
    requires forall x :: second(x) ==> first(x)
    ensures Filter(Filter(s, first), second) == Filter(s, second)
    decreases |s|
  {
    if s != [] {
      FilterFilter(s[1..], first, second);
    }
  }

  /** Two tests that agree on every element of the list filter it alike. */
  lemma {:induction false} FilterSameOn<T>(s: seq<T>, f: T -> bool, g: T -> bool)
    requires forall i :: 0 <= i < |s| ==> f(s[i]) == g(s[i])
    ensures Filter(s, f) == Filter(s, g)
    decreases |s|
  {
    if s != [] {
      assert f(s[0]) == g(s[0]);
      FilterSameOn(s[1..], f, g);
    }
  }

  /** The ids 0 .. n-1 of a table of n rows, in table order. */
  function Indices(n: nat): (r: seq<nat>)
    ensures |r| == n
    ensures forall i :: 0 <= i < n ==> r[i] == i
  {
    if n == 0 then [] else Indices(n - 1) + [n - 1]
  }

  function Count<T>(s: seq<T>, keep: T -> bool): (n: nat)
    ensures n <= |s|
  {
    |Filter(s, keep)|
  }

  /**
   * Any reordering of the ids that pass a test holds exactly those ids: each
   * of them, nothing else, and as many as the count says.
   */
  lemma SelectedIds(n: nat, keep: nat -> bool, ids: seq<nat>)
    requires multiset(ids) == multiset(Filter(Indices(n), keep))
    ensures |ids| == Count(Indices(n), keep)
    ensures forall j :: 0 <= j < |ids| ==> ids[j] < n && keep(ids[j])
    ensures forall k :: 0 <= k < n && keep(k) ==> k in ids
  {
    var all := Indices(n);
    var sel := Filter(all, keep);
    assert |ids| == |multiset(ids)| == |multiset(sel)| == |sel|;
    forall j | 0 <= j < |ids|
      ensures ids[j] < n && keep(ids[j])
    {
      assert ids[j] in multiset(sel);
      assert ids[j] in all;
    }
    forall k | 0 <= k < n && keep(k)
      ensures k in ids
    {
      assert all[k] == k;
      FilterKeeps<nat>(all, keep, k);
      assert k in multiset(ids);
    }
  }

  /**
   * Counting over the ids of a table with one more row: the count over the
   * shorter table (with a test that agrees on its ids), plus the new row when
   * it passes.
   */
  lemma CountIndicesStep(n: nat, keep: nat -> bool, keepBefore: nat -> bool)
    requires n >= 1
    requires forall i :: 0 <= i < n - 1 ==> keep(i) == keepBefore(i)
    ensures Count(Indices(n), keep) == Count(Indices(n - 1), keepBefore) + (if keep(n - 1) then 1 else 0)
  {
    var before := Indices(n - 1);
    var newest: seq<nat> := [n - 1];
    assert Indices(n) == before + newest;
    FilterConcat(before, newest, keep);
    forall i | 0 <= i < |before|
      ensures keep(before[i]) == keepBefore(before[i])
    {
      assert before[i] == i;
    }
    FilterSameOn(before, keep, keepBefore);
    if keep(n - 1) {
      assert Filter(newest, keep) == newest;
    } else {
      assert Filter(newest, keep) == [];
    }
  }

  /** One more row adds one to the count exactly when it passes the test. */
  lemma CountAppend<T>(s: seq<T>, x: T, keep: T -> bool)
    ensures Count(s + [x], keep) == Count(s, keep) + (if keep(x) then 1 else 0)
  {
    FilterConcat(s, [x], keep);
  }

  /** Replacing one row changes the count only by what the old and the new row contribute. */
  lemma {:induction false} CountUpdate<T>(s: seq<T>, k: nat, x: T, keep: T -> bool)
    requires k < |s|
    ensures Count(s[k := x], keep) + (if keep(s[k]) then 1 else 0) == Count(s, keep) + (if keep(x) then 1 else 0)
    decreases |s|
  {
    var t := s[k := x];
    if k == 0 {
      assert t[1..] == s[1..];
    } else {
      assert t[1..] == s[1..][k - 1 := x];
      CountUpdate(s[1..], k - 1, x, keep);
    }
  }

  /** Some element passes the test exactly when the count is positive. */
  lemma {:induction false} CountPositive<T>(s: seq<T>, keep: T -> bool)
    ensures Count(s, keep) > 0 <==> exists i :: 0 <= i < |s| && keep(s[i])
    decreases |s|
  {
    if s != [] {
      CountPositive(s[1..], keep);
      if keep(s[0]) {
        assert keep(s[0]);
      } else {
        assert forall i :: 1 <= i < |s| ==> s[i] == s[1..][i - 1];
        if exists i :: 0 <= i < |s| && keep(s[i]) {
          var i :| 0 <= i < |s| && keep(s[i]);
          assert keep(s[1..][i - 1]);
        }
      }
    }
  }

  // ---------------------------------------------------------------------------
  // Ordering (`orderBy`): a stable insertion sort by a total "comes no later than" relation.

  ghost predicate Total<T(!new)>(before: (T, T) -> bool)
  {
    forall a, b :: before(a, b) || before(b, a)
  }

  predicate SortedBy<T>(s: seq<T>, before: (T, T) -> bool)
  {
    forall i :: 0 < i < |s| ==> before(s[i - 1], s[i])
  }

  function Insert<T(!new)>(x: T, s: seq<T>, before: (T, T) -> bool): (r: seq<T>)
    requires Total(before)
    ensures multiset(r) == multiset(s) + multiset{x}
    ensures |r| == |s| + 1
    ensures r[0] == x || (s != [] && r[0] == s[0])
    ensures SortedBy(s, before) ==> SortedBy(r, before)
    decreases |s|
  {
    if s == [] then [x]
    else if before(x, s[0]) then [x] + s
    else
      assert s == [s[0]] + s[1..];
      [s[0]] + Insert(x, s[1..], before)
  }

  function SortBy<T(!new)>(s: seq<T>, before: (T, T) -> bool): (r: seq<T>)
    requires Total(before)
    ensures SortedBy(r, before)
    ensures multiset(r) == multiset(s)
    decreases |s|
  {
    if s == [] then []
    else
      assert s == [s[0]] + s[1..];
      Insert(s[0], SortBy(s[1..], before), before)
  }

  // ---------------------------------------------------------------------------
  // Grouped counts (`groupBy` rows folded into a record): the last row for a key wins,
  // a key without rows keeps its initial 0.

  function LastCount<K(==)>(rows: seq<(K, nat)>, key: K): (n: nat)
    ensures (forall i :: 0 <= i < |rows| ==> rows[i].0 != key) ==> n == 0
    ensures (exists i :: 0 <= i < |rows| && rows[i].0 == key && n == rows[i].1) || n == 0
    decreases |rows|
  {
    if rows == [] then 0
    else if rows[|rows| - 1].0 == key then rows[|rows| - 1].1
    else LastCount(rows[..|rows| - 1], key)
  }

  /** With one row per key, as `groupBy` returns them, the folded value is that row's count. */
  lemma {:induction false} LastCountOfUniqueKey<K>(rows: seq<(K, nat)>, i: nat)
    requires i < |rows|
    requires forall a, b :: 0 <= a < b < |rows| ==> rows[a].0 != rows[b].0
    ensures LastCount(rows, rows[i].0) == rows[i].1
    decreases |rows|
  {
    if i < |rows| - 1 {
      LastCountOfUniqueKey(rows[..|rows| - 1], i);
    }
  }
}
