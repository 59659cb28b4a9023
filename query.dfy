/**
 * What the services ask of Prisma, as functions over a table held as a sequence of rows:
 * `findFirst`/`findUnique` (the first row a `where` accepts), `findMany` with a `where` filter,
 * `orderBy: { createdAt: 'desc' }`, `skip` and `take`, and `count` (the length of the filtered rows).
 */
module Query {
  import opened Wrappers

  function Min(a: int, b: int): int { if a <= b then a else b }
  function Max(a: int, b: int): int { if a >= b then a else b }

  /** `findFirst({ where })`: some row the filter accepts, here the first one in table order. */
  function FindFirst<T>(s: seq<T>, p: T -> bool): (r: Option<T>)
    ensures r.Some? <==> exists i :: 0 <= i < |s| && p(s[i])
    ensures r.Some? ==> r.value in s && p(r.value)
  {
    if s == [] then None
    else if p(s[0]) then Some(s[0])
    else FindFirst(s[1..], p)
  }

  /** A row appended after rows the filter rejects is the one `findFirst` finds. */
  lemma {:induction false} FindFirstAfterMisses<T>(s: seq<T>, x: T, p: T -> bool)
    requires forall i :: 0 <= i < |s| ==> !p(s[i])
    requires p(x)
    ensures FindFirst(s + [x], p) == Some(x)
  {
    if s == [] {
      assert s + [x] == [x];
    } else {
      assert (s + [x])[1..] == s[1..] + [x];
      FindFirstAfterMisses(s[1..], x, p);
    }
  }

  /** `findMany({ where })` without ordering: the rows the filter accepts, in table order. */
  function Filter<T>(s: seq<T>, p: T -> bool): (r: seq<T>)
    ensures |r| <= |s|
    ensures r == [] <==> forall i :: 0 <= i < |s| ==> !p(s[i])
    ensures (forall i :: 0 <= i < |s| ==> p(s[i])) ==> r == s
    ensures forall i :: 0 <= i < |r| ==> r[i] in s && p(r[i])
    ensures forall i :: 0 <= i < |s| && p(s[i]) ==> s[i] in r
  {
    if s == [] then []
    else (if p(s[0]) then [s[0]] else []) + Filter(s[1..], p)
  }

  /** One step of filtering, counted as a multiset: the head row if it is accepted, then the filtered tail. */
  lemma FilterStepMultiset<T>(s: seq<T>, p: T -> bool)
    requires s != []
    ensures multiset(Filter(s, p)) == multiset(if p(s[0]) then [s[0]] else []) + multiset(Filter(s[1..], p))
  {
  }

  /** A non-empty table counted as a multiset is its first row plus the rest. */
  lemma TableStepMultiset<T>(s: seq<T>)
    requires s != []
    ensures multiset(s) == multiset{s[0]} + multiset(s[1..])
  {
    assert s == [s[0]] + s[1..];
  }

  /** Filtering keeps each accepted row as often as the table holds it, and no rejected row at all. */
  lemma {:induction false} FilterMultiset<T>(s: seq<T>, p: T -> bool, x: T)
    ensures multiset(Filter(s, p))[x] == if p(x) then multiset(s)[x] else 0
  {
    if s != [] {
      FilterMultiset(s[1..], p, x);
      FilterStepMultiset(s, p);
      TableStepMultiset(s);
    }
  }

  /** Filtering is determined by what the filter says of the rows present. */
  lemma {:induction false} FilterCongruent<T>(s: seq<T>, p: T -> bool, q: T -> bool)
    requires forall i :: 0 <= i < |s| ==> p(s[i]) == q(s[i])
    ensures Filter(s, p) == Filter(s, q)
  {
    if s != [] {
      FilterCongruent(s[1..], p, q);
    }
  }

  /** Filtering a table with a row appended filters the old table, then the new row. */
  lemma {:induction false} FilterAppend<T>(s: seq<T>, x: T, p: T -> bool)
    ensures Filter(s + [x], p) == Filter(s, p) + (if p(x) then [x] else [])
  {
    if s == [] {
      assert s + [x] == [x];
    } else {
      assert (s + [x])[1..] == s[1..] + [x];
      FilterAppend(s[1..], x, p);
    }
  }

  /** `orderBy: { createdAt: 'desc' }`: every row is at least as recent as each row after it. */
  predicate NewestFirst<T>(s: seq<T>, key: T -> nat) {
    forall i, j :: 0 <= i < j < |s| ==> key(s[i]) >= key(s[j])
  }

  /** A row at least as recent as the head of an ordered listing can go in front of it. */
  lemma PrependNewest<T>(y: T, s: seq<T>, key: T -> nat)
    requires NewestFirst(s, key)
    requires s == [] || key(y) >= key(s[0])
    ensures NewestFirst([y] + s, key)
  {
    var r := [y] + s;
    forall i, j | 0 <= i < j < |r| ensures key(r[i]) >= key(r[j]) {
      if i == 0 && j > 1 {
        assert r[1] == s[0] && r[j] == s[j - 1];
      }
    }
  }

  function InsertByNewest<T>(x: T, s: seq<T>, key: T -> nat): (r: seq<T>)
    requires NewestFirst(s, key)
    ensures |r| == |s| + 1
    ensures r[0] == x || (s != [] && r[0] == s[0])
    ensures NewestFirst(r, key)
    ensures multiset(r) == multiset(s) + multiset{x}
  {
    if s == [] || key(x) >= key(s[0]) then
      PrependNewest(x, s, key);
      [x] + s
    else
      var rest := InsertByNewest(x, s[1..], key);
      PrependNewest(s[0], rest, key);
      PrependKeepsRows(s, rest, x);
      [s[0]] + rest
  }

  /** Putting the head of `s` back in front of its tail with `x` inserted gives the rows of `s` and `x`. */
  lemma PrependKeepsRows<T>(s: seq<T>, rest: seq<T>, x: T)
    requires s != []
    requires multiset(rest) == multiset(s[1..]) + multiset{x}
    ensures multiset([s[0]] + rest) == multiset(s) + multiset{x}
  {
    assert s == [s[0]] + s[1..];
  }

  /**
   * The ordered result of `findMany`: the same rows, newest first. The database leaves the order of rows
   * with equal timestamps unspecified; this insertion sort keeps them in table order, and nothing below
   * depends on that choice.
   */
  function SortByNewest<T>(s: seq<T>, key: T -> nat): (r: seq<T>)
    ensures NewestFirst(r, key)
    ensures multiset(r) == multiset(s)
    ensures |r| == |s|
  {
    if s == [] then []
    else
      assert s == [s[0]] + s[1..];
      InsertByNewest(s[0], SortByNewest(s[1..], key), key)
  }

  /** `skip: offset, take: limit`: the rows at positions offset .. offset + limit - 1 that exist. */
  function Window<T>(s: seq<T>, offset: nat, limit: nat): (r: seq<T>)
    ensures |r| == Min(limit, Max(0, |s| - offset))
    ensures forall i :: 0 <= i < |r| ==> r[i] == s[offset + i]
  {
    if offset >= |s| then [] else s[offset .. Min(offset + limit, |s|)]
  }

  /** A window of an ordered listing is ordered, and holds only rows of the listing. */
  lemma WindowKeepsOrder<T>(s: seq<T>, offset: nat, limit: nat, key: T -> nat)
    requires NewestFirst(s, key)
    ensures NewestFirst(Window(s, offset, limit), key)
    ensures forall i :: 0 <= i < |Window(s, offset, limit)| ==> Window(s, offset, limit)[i] in s
  {
    var w := Window(s, offset, limit);
    forall i, j | 0 <= i < j < |w| ensures key(w[i]) >= key(w[j]) {
      assert w[i] == s[offset + i] && w[j] == s[offset + j];
    }
    forall i | 0 <= i < |w| ensures w[i] in s {
      assert w[i] == s[offset + i];
    }
  }

  /** A window takes each row at most as often as the listing holds it. */
  lemma WindowWithin<T>(s: seq<T>, offset: nat, limit: nat)
    ensures multiset(Window(s, offset, limit)) <= multiset(s)
  {
    if offset < |s| {
      var hi := Min(offset + limit, |s|);
      assert s == s[..offset] + s[offset..hi] + s[hi..];
    }
  }

  /** `page` is the window of some newest-first arrangement of exactly the rows of `rows`. */
  ghost predicate IsNewestWindow<T(!new)>(page: seq<T>, rows: seq<T>, key: T -> nat, offset: nat, limit: nat) {
    exists sorted :: NewestFirst(sorted, key) && multiset(sorted) == multiset(rows) && page == Window(sorted, offset, limit)
  }

  /** A window of the newest-first arrangement takes only rows of the listing, each at most as often as it is there. */
  lemma SortedWindowWithin<T>(rows: seq<T>, key: T -> nat, offset: nat, limit: nat)
    ensures multiset(Window(SortByNewest(rows, key), offset, limit)) <= multiset(rows)
    ensures forall i :: 0 <= i < |Window(SortByNewest(rows, key), offset, limit)| ==> Window(SortByNewest(rows, key), offset, limit)[i] in rows
  {
    var sorted := SortByNewest(rows, key);
    var page := Window(sorted, offset, limit);
    WindowWithin(sorted, offset, limit);
    forall i | 0 <= i < |page| ensures page[i] in rows {
      assert page[i] in multiset(page);
    }
  }

  lemma SortedWindowIsNewest<T(!new)>(rows: seq<T>, key: T -> nat, offset: nat, limit: nat)
    ensures IsNewestWindow(Window(SortByNewest(rows, key), offset, limit), rows, key, offset, limit)
  {
    var sorted := SortByNewest(rows, key);
    assert NewestFirst(sorted, key) && multiset(sorted) == multiset(rows);
  }

  /**
   * `findMany({ where, orderBy: { createdAt: 'desc' }, skip: offset, take: limit })` over the rows the `where`
   * already selected: the window of some newest-first arrangement of exactly those rows. Rows with equal
   * timestamps may come in any order.
   */
  function NewestPage<T(!new)>(rows: seq<T>, key: T -> nat, offset: nat, limit: nat): (page: seq<T>)
    ensures IsNewestWindow(page, rows, key, offset, limit)
    ensures NewestFirst(page, key)
    ensures |page| == Min(limit, Max(0, |rows| - offset))
    ensures multiset(page) <= multiset(rows)
    ensures forall i :: 0 <= i < |page| ==> page[i] in rows
  {
    var sorted := SortByNewest(rows, key);
    WindowKeepsOrder(sorted, offset, limit, key);
    SortedWindowWithin(rows, key, offset, limit);
    SortedWindowIsNewest(rows, key, offset, limit);
    Window(sorted, offset, limit)
  }

  /** A first page long enough for every row starts with the row strictly newer than all others. */
  lemma FullPageStartsWithNewest<T(!new)>(rows: seq<T>, key: T -> nat, limit: nat, newest: T)
    requires |rows| <= limit
    requires newest in rows
    requires forall i :: 0 <= i < |rows| && rows[i] != newest ==> key(rows[i]) < key(newest)
    ensures |NewestPage(rows, key, 0, limit)| == |rows|
    ensures NewestPage(rows, key, 0, limit)[0] == newest
  {
    var page := NewestPage(rows, key, 0, limit);
    var missing := multiset(rows) - multiset(page);
    assert |missing| == 0;
    assert newest in multiset(page);
    var k :| 0 <= k < |page| && page[k] == newest;
    assert page[0] in rows;
  }
}
