/**
 * internal/recon/sample.go: a reproducible sample across the tables, and the
 * field-by-field comparison with the index.
 */
module Sampling {
  import opened Common
  import opened Decimal

  datatype SampleRow = SampleRow(
    messageID: string, messageSeq: int, channelID: string, channelType: int, spaceID: string,
    visibles: seq<string>, signal: bool)

  datatype DocFields = DocFields(
    messageID: int, messageSeq: nat, channelID: string, channelType: nat, spaceID: string, visibles: seq<string>)

  const DEFAULT_MAX_DETAILS := 50

  // ---- string order ----

  /** Code point order, which is the byte order of UTF-8 text. */
  predicate Less(a: string, b: string)
    decreases |a|
  {
    b != "" && (a == "" || a[0] < b[0] || (a[0] == b[0] && Less(a[1..], b[1..])))
  }

  lemma {:induction false} LessTotal(a: string, b: string)
    ensures Less(a, b) || a == b || Less(b, a)
    ensures !(Less(a, b) && Less(b, a)) && !Less(a, a)
    decreases |a|
  {
    if a != "" {
      LessTotal(a[1..], a[1..]);
      if b != "" {
        LessTotal(a[1..], b[1..]);
        assert a[0] == b[0] && a[1..] == b[1..] ==> a == [a[0]] + a[1..] == b;
      }
    }
  }

  lemma {:induction false} LessTrans(a: string, b: string, c: string)
    requires Less(a, b) && Less(b, c)
    ensures Less(a, c)
    decreases |a|
  {
    if a != "" && a[0] == b[0] && b[0] == c[0] {
      LessTrans(a[1..], b[1..], c[1..]);
    }
  }

  // ---- sorting ----

  /** Stands for the library sort: by key, with ties kept apart. */
  function Insert<T>(x: T, key: T -> string, s: seq<T>): seq<T> {
    if s == [] || Less(key(x), key(s[0])) then [x] + s else [s[0]] + Insert(x, key, s[1..])
  }

  function Sorted<T>(s: seq<T>, key: T -> string): seq<T> {
    if s == [] then [] else Insert(s[0], key, Sorted(s[1..], key))
  }

  ghost predicate InOrder<T>(s: seq<T>, key: T -> string) {
    forall i, j :: 0 <= i < j < |s| ==> !Less(key(s[j]), key(s[i]))
  }

  lemma {:induction false} InsertElements<T>(x: T, key: T -> string, s: seq<T>)
    ensures multiset(Insert(x, key, s)) == multiset(s) + multiset{x}
  {
    if s != [] && !Less(key(x), key(s[0])) {
      InsertElements(x, key, s[1..]);
      assert s == [s[0]] + s[1..];
    }
  }

  lemma {:induction false} InsertInOrder<T>(x: T, key: T -> string, s: seq<T>)
    requires InOrder(s, key)
    ensures InOrder(Insert(x, key, s), key)
  {
    if s == [] || Less(key(x), key(s[0])) {
      forall y | y in s ensures !Less(key(y), key(x)) {
        HeadIsLeast(s, key, y);
        NotBefore(key(x), key(s[0]), key(y));
      }
      ConsInOrder(x, key, s);
    } else {
      var t := Insert(x, key, s[1..]);
      assert InOrder(s[1..], key);
      InsertInOrder(x, key, s[1..]);
      forall y | y in t ensures !Less(key(y), key(s[0])) {
        InsertMembers(x, key, s[1..], y);
        if y != x {
          HeadIsLeast(s, key, y);
        }
      }
      ConsInOrder(s[0], key, t);
    }
  }

  lemma InsertMembers<T>(x: T, key: T -> string, s: seq<T>, y: T)
    requires y in Insert(x, key, s)
    ensures y == x || y in s
  {
  }

  lemma HeadIsLeast<T>(s: seq<T>, key: T -> string, y: T)
    requires InOrder(s, key) && y in s
    ensures !Less(key(y), key(s[0]))
  {
    LessTotal(key(y), key(y));
  }

  lemma ConsInOrder<T>(x: T, key: T -> string, s: seq<T>)
    requires InOrder(s, key) && forall y :: y in s ==> !Less(key(y), key(x))
    ensures InOrder([x] + s, key)
  {
  }

  lemma NotBefore(a: string, b: string, c: string)
    requires Less(a, b) && !Less(c, b)
    ensures !Less(c, a)
  {
  }

  lemma {:induction false} SortedIsSorted<T>(s: seq<T>, key: T -> string)
    ensures InOrder(Sorted(s, key), key) && multiset(Sorted(s, key)) == multiset(s)
  {
    if s != [] {
      SortedIsSorted(s[1..], key);
      InsertInOrder(s[0], key, Sorted(s[1..], key));
      InsertElements(s[0], key, Sorted(s[1..], key));
      assert s == [s[0]] + s[1..];
    }
  }

  // ---- sameStringSet ----

  function Itself(): string -> string {
    (s: string) => s
  }

  /** Two ordered lists with the same elements are the same list. */
  lemma {:induction false} OrderedUnique(a: seq<string>, b: seq<string>)
    requires InOrder(a, Itself()) && InOrder(b, Itself()) && multiset(a) == multiset(b)
    ensures a == b
  {
    SameSize(a, b);
    if a != [] {
      assert a[0] in multiset(b) && b[0] in multiset(a);
      HeadIsLeast(a, Itself(), b[0]);
      HeadIsLeast(b, Itself(), a[0]);
      LessTotal(a[0], b[0]);
      TailElements(a);
      TailElements(b);
      OrderedUnique(a[1..], b[1..]);
      assert a == [a[0]] + a[1..] && b == [b[0]] + b[1..];
    }
  }

  lemma TailElements(a: seq<string>)
    requires a != [] && InOrder(a, Itself())
    ensures multiset(a[1..]) == multiset(a) - multiset{a[0]} && InOrder(a[1..], Itself())
  {
    assert a == [a[0]] + a[1..];
  }

  lemma SameSorted(a: seq<string>, b: seq<string>)
    ensures Sorted(a, Itself()) == Sorted(b, Itself()) <==> multiset(a) == multiset(b)
    ensures |Sorted(a, Itself())| == |a| && |Sorted(b, Itself())| == |b|
  {
    SortedIsSorted(a, Itself());
    SortedIsSorted(b, Itself());
    SameSize(a, Sorted(a, Itself()));
    SameSize(b, Sorted(b, Itself()));
    if multiset(a) == multiset(b) {
      OrderedUnique(Sorted(a, Itself()), Sorted(b, Itself()));
    }
  }

  /** sameStringSet compares with repetition: it is equality of multisets, not of sets. */
  method SameStringSet(a: seq<string>, b: seq<string>) returns (same: bool)
    ensures same <==> multiset(a) == multiset(b)
  {
    SameSize(a, b);
    SameSorted(a, b);
    if |a| != |b| {
      return false;
    }
    var as', bs := Sorted(a, Itself()), Sorted(b, Itself());
    for i := 0 to |as'|
      invariant forall k :: 0 <= k < i ==> as'[k] == bs[k]
    {
      if as'[i] != bs[i] {
        return false;
      }
    }
    return true;
  }

  lemma SameSize(a: seq<string>, b: seq<string>)
    ensures multiset(a) == multiset(b) ==> |a| == |b|
  {
    assert |multiset(a)| == |a| && |multiset(b)| == |b|;
  }

  /** For lists without repetition that is equality of sets, as documented. */
  lemma SetsWhenDistinct(a: seq<string>, b: seq<string>)
    requires forall i, j :: 0 <= i < j < |a| ==> a[i] != a[j]
    requires forall i, j :: 0 <= i < j < |b| ==> b[i] != b[j]
    ensures multiset(a) == multiset(b) <==> (set x | x in a) == (set x | x in b)
  {
    OncePerElement(a);
    OncePerElement(b);
    var as', bs := set x | x in a, set x | x in b;
    if multiset(a) == multiset(b) {
      forall x ensures x in as' <==> x in bs {
        assert multiset(a)[x] == multiset(b)[x];
      }
    }
    if as' == bs {
      forall x ensures multiset(a)[x] == multiset(b)[x] {
        assert x in as' <==> x in bs;
      }
      assert multiset(a) == multiset(b);
    }
  }

  lemma {:induction false} OncePerElement(a: seq<string>)
    requires forall i, j :: 0 <= i < j < |a| ==> a[i] != a[j]
    ensures forall x :: multiset(a)[x] == if x in a then 1 else 0
  {
    if a != [] {
      OncePerElement(a[1..]);
      assert a == [a[0]] + a[1..];
      assert a[0] !in a[1..];
    }
  }

  // ---- sampling across tables ----

  function IdOf(): SampleRow -> string {
    (r: SampleRow) => r.messageID
  }

  function Pool(rows: seq<SampleRow>): set<SampleRow> {
    set r | r in rows
  }

  ghost predicate Ascending(r: seq<SampleRow>) {
    forall i, j :: 0 <= i < j < |r| ==> Less(r[i].messageID, r[j].messageID)
  }

  /** r begins the pool: in id order, and every other row comes after all of r. */
  ghost predicate Leads(pool: set<SampleRow>, r: seq<SampleRow>) {
    && Ascending(r) && Pool(r) <= pool
    && forall y, i :: y in pool && y !in r && 0 <= i < |r| ==> Less(r[i].messageID, y.messageID)
  }

  function Min(a: nat, b: nat): nat {
    if a <= b then a else b
  }

  /** The first k rows of a pool. */
  ghost predicate FirstRows(pool: set<SampleRow>, k: nat, r: seq<SampleRow>) {
    Leads(pool, r) && |r| == Min(k, |pool|)
  }

  lemma {:induction false} AscendingSize(r: seq<SampleRow>)
    requires Ascending(r)
    ensures |Pool(r)| == |r|
  {
    if r != [] {
      var n := |r| - 1;
      AscendingSize(r[..n]);
      assert r == r[..n] + [r[n]];
      LessTotal(r[n].messageID, r[n].messageID);
      assert r[n] !in r[..n];
      assert Pool(r) == Pool(r[..n]) + {r[n]};
    }
  }

  /** A pool has only one list of first k rows. */
  lemma FirstRowsUnique(pool: set<SampleRow>, k: nat, r: seq<SampleRow>, r': seq<SampleRow>, i: nat)
    requires FirstRows(pool, k, r) && FirstRows(pool, k, r') && i < |r|
    ensures i < |r'| && r[i] == r'[i]
    decreases i
  {
    forall h | 0 <= h < i ensures r[h] == r'[h] {
      FirstRowsUnique(pool, k, r, r', h);
    }
    AscendingSize(r);
    AscendingSize(r');
    ComesFirst(pool, r, r', i);
    ComesFirst(pool, r', r, i);
    LessTotal(r[i].messageID, r'[i].messageID);
  }

  lemma ComesFirst(pool: set<SampleRow>, r: seq<SampleRow>, r': seq<SampleRow>, i: nat)
    requires Leads(pool, r) && Leads(pool, r') && i < |r| && i < |r'|
    requires forall h :: 0 <= h < i ==> r[h] == r'[h]
    ensures r[i] == r'[i] || Less(r[i].messageID, r'[i].messageID)
  {
    assert r'[i] in Pool(r');
    LessTotal(r'[i].messageID, r'[i].messageID);
    assert forall h :: 0 <= h < i ==> r[h] != r'[i];
  }

  /** Rows of the list that come before y. */
  ghost function Below(all: seq<SampleRow>, y: SampleRow): set<SampleRow> {
    set x | x in all && Less(x.messageID, y.messageID)
  }

  /** Enough of the pool was gathered: whatever is missing has k gathered rows before it. */
  ghost predicate Gathered(pool: set<SampleRow>, k: nat, all: seq<SampleRow>) {
    Pool(all) <= pool && forall y :: y in pool && y !in all ==> |Below(all, y)| >= k
  }

  lemma SameBelow(a: seq<SampleRow>, b: seq<SampleRow>, y: SampleRow)
    requires Pool(a) == Pool(b)
    ensures Below(a, y) == Below(b, y)
  {
    forall x ensures x in a <==> x in b {
      assert x in a <==> x in Pool(a);
      assert x in b <==> x in Pool(b);
    }
  }

  lemma GatheredTogether(p: set<SampleRow>, q: set<SampleRow>, k: nat, a: seq<SampleRow>, b: seq<SampleRow>)
    requires Gathered(p, k, a) && Gathered(q, k, b)
    ensures Gathered(p + q, k, a + b)
  {
    assert Pool(a + b) == Pool(a) + Pool(b);
    forall y | y in p + q && y !in a + b ensures |Below(a + b, y)| >= k {
      assert Below(a + b, y) == Below(a, y) + Below(b, y);
      if y in p {
        Larger(Below(a, y), Below(a + b, y));
      } else {
        Larger(Below(b, y), Below(a + b, y));
      }
    }
  }

  lemma Larger<A>(xs: set<A>, ys: set<A>)
    ensures xs <= ys ==> |xs| <= |ys|
  {
    assert xs <= ys ==> ys == xs + (ys - xs);
  }

  lemma LeadsGathers(pool: set<SampleRow>, k: nat, r: seq<SampleRow>)
    requires FirstRows(pool, k, r)
    ensures Gathered(pool, k, r)
  {
    AscendingSize(r);
    forall y | y in pool && y !in r ensures |Below(r, y)| >= k {
      assert Below(r, y) == Pool(r);
      Larger(Pool(r) + {y}, pool);
    }
  }

  /** The first k of what was gathered are the first k of the pool. */
  lemma FirstOfGathered(pool: set<SampleRow>, k: nat, all: seq<SampleRow>, sorted: seq<SampleRow>)
    requires Gathered(pool, k, all) && Ascending(sorted) && Pool(sorted) == Pool(all)
    ensures FirstRows(pool, k, Take(sorted, k))
  {
    var r := Take(sorted, k);
    AscendingSize(sorted);
    assert Pool(r) <= Pool(sorted);
    forall y, i | y in pool && y !in r && 0 <= i < |r| ensures Less(r[i].messageID, y.messageID) {
      assert r[i] == sorted[i];
      if y in sorted {
        var j :| 0 <= j < |sorted| && sorted[j] == y;
        assert j >= |r|;
      } else {
        assert y !in Pool(all);
        SameBelow(sorted, all, y);
        BeforeMissing(sorted, y, k, i);
      }
    }
    Larger(Pool(all), pool);
    if |sorted| < k {
      forall y | y in pool ensures y in Pool(all) {
        if y !in all {
          Larger(Below(all, y), Pool(all));
        }
      }
      assert Pool(all) == pool;
    }
  }

  /** With k rows before y, each of the first k rows is before y. */
  lemma BeforeMissing(sorted: seq<SampleRow>, y: SampleRow, k: nat, i: nat)
    requires Ascending(sorted) && i < k && i < |sorted| && |Below(sorted, y)| >= k
    ensures Less(sorted[i].messageID, y.messageID)
  {
    forall x | x in Below(sorted, y) ensures Less(sorted[i].messageID, y.messageID) || x in Pool(sorted[..i]) {
      var j :| 0 <= j < |sorted| && sorted[j] == x;
      if j > i {
        LessTrans(sorted[i].messageID, x.messageID, y.messageID);
      } else if j < i {
        assert sorted[..i][j] == x;
      }
    }
    Larger(Below(sorted, y), Pool(sorted[..i]));
    AscendingSize(sorted[..i]);
  }

  // ---- the reader ----

  /** One table's answer: rows of the window by id, at most k. */
  function Query(shard: seq<SampleRow>, k: nat): seq<SampleRow> {
    Take(Sorted(shard, IdOf()), k)
  }

  function Concat(shards: seq<seq<SampleRow>>): seq<SampleRow> {
    if shards == [] then [] else Concat(shards[..|shards| - 1]) + shards[|shards| - 1]
  }

  /** Every row of the window once, with an id of its own. */
  ghost predicate OneEach(rows: seq<SampleRow>) {
    forall i, j :: 0 <= i < j < |rows| ==> rows[i].messageID != rows[j].messageID
  }

  lemma SortedAscending(rows: seq<SampleRow>)
    requires OneEach(rows)
    ensures Ascending(Sorted(rows, IdOf())) && Pool(Sorted(rows, IdOf())) == Pool(rows)
  {
    var s := Sorted(rows, IdOf());
    SortedIsSorted(rows, IdOf());
    forall r ensures r in s <==> r in rows {
      assert r in s <==> r in multiset(s);
      assert r in rows <==> r in multiset(rows);
    }
    SameIdsApart(rows, s);
    forall i, j | 0 <= i < j < |s| ensures Less(s[i].messageID, s[j].messageID) {
      LessTotal(s[i].messageID, s[j].messageID);
      assert !Less(IdOf()(s[j]), IdOf()(s[i]));
    }
  }

  /** A rearrangement of rows with distinct ids has distinct ids. */
  lemma SameIdsApart(rows: seq<SampleRow>, s: seq<SampleRow>)
    requires OneEach(rows) && multiset(s) == multiset(rows)
    ensures OneEach(s)
  {
    forall i, j | 0 <= i < j < |s| ensures s[i].messageID != s[j].messageID {
      assert s[i] in multiset(rows) && s[j] in multiset(rows);
      var p :| 0 <= p < |rows| && rows[p] == s[i];
      var q :| 0 <= q < |rows| && rows[q] == s[j];
      if p == q {
        TwiceInS(s, i, j);
        OnceInRows(rows, s[i]);
      }
    }
  }

  lemma TwiceInS(s: seq<SampleRow>, i: nat, j: nat)
    requires i < j < |s| && s[i] == s[j]
    ensures multiset(s)[s[i]] >= 2
  {
    assert s == s[..i] + [s[i]] + s[i + 1..j] + [s[j]] + s[j + 1..];
  }

  lemma {:induction false} OnceInRows(rows: seq<SampleRow>, r: SampleRow)
    requires OneEach(rows)
    ensures multiset(rows)[r] <= 1
  {
    if rows != [] {
      var n := |rows| - 1;
      OnceInRows(rows[..n], r);
      assert rows == rows[..n] + [rows[n]];
      assert r == rows[n] ==> r !in rows[..n];
    }
  }

  lemma QueryGathers(shard: seq<SampleRow>, k: nat)
    requires OneEach(shard)
    ensures Gathered(Pool(shard), k, Query(shard, k))
  {
    SortedAscending(shard);
    FirstOfGathered(Pool(shard), k, shard, Sorted(shard, IdOf()));
    LeadsGathers(Pool(shard), k, Query(shard, k));
  }

  /** SampleRows: the first rows of every table, merged, sorted and cut, are the first rows of the window. */
  method SampleRows(ctx: Context, shards: seq<seq<SampleRow>>, limit: int) returns (ok: bool, rows: seq<SampleRow>)
    requires OneEach(Concat(shards))
    modifies ctx`faults
    ensures ctx.Since(ctx.fuel, old(ctx.faults), ok)
    ensures ok && limit > 0 ==> FirstRows(Pool(Concat(shards)), limit, rows)
    ensures ok && limit <= 0 ==> rows == []
  {
    if limit <= 0 {
      return true, [];
    }
    var all := [];
    for t := 0 to |shards|
      invariant Gathered(Pool(Concat(shards[..t])), limit, all) && OneEach(all) && ctx.faults == old(ctx.faults)
    {
      ok := ctx.Try();
      if !ok {
        return false, [];
      }
      ConcatStep(shards, t);
      ghost var before := all;
      all := all + Query(shards[t], limit);
      MoreGathered(Concat(shards[..t]), shards[t], limit, before);
    }
    assert shards[..|shards|] == shards;
    SortedAscending(all);
    FirstOfGathered(Pool(Concat(shards)), limit, all, Sorted(all, IdOf()));
    return true, Take(Sorted(all, IdOf()), limit);
  }

  lemma ConcatStep(shards: seq<seq<SampleRow>>, t: nat)
    requires t < |shards| && OneEach(Concat(shards))
    ensures Concat(shards[..t + 1]) == Concat(shards[..t]) + shards[t] && OneEach(Concat(shards[..t + 1]))
  {
    ConcatTake(shards, t);
    ConcatApart(shards, t + 1);
  }

  lemma ConcatTake(shards: seq<seq<SampleRow>>, t: nat)
    requires t < |shards|
    ensures Concat(shards[..t + 1]) == Concat(shards[..t]) + shards[t]
  {
    ConcatSnoc(shards[..t], shards[t]);
    assert shards[..t + 1] == shards[..t] + [shards[t]];
  }

  lemma ConcatApart(shards: seq<seq<SampleRow>>, t: nat)
    requires t <= |shards| && OneEach(Concat(shards))
    ensures OneEach(Concat(shards[..t]))
  {
    ConcatPrefix(shards, t);
    OneEachPrefix(Concat(shards[..t]), Concat(shards));
  }

  lemma ConcatSnoc(shards: seq<seq<SampleRow>>, shard: seq<SampleRow>)
    ensures Concat(shards + [shard]) == Concat(shards) + shard
  {
  }

  lemma OneEachPrefix(a: seq<SampleRow>, b: seq<SampleRow>)
    requires a <= b && OneEach(b)
    ensures OneEach(a)
  {
  }

  lemma {:induction false} ConcatPrefix(shards: seq<seq<SampleRow>>, t: nat)
    requires t <= |shards|
    ensures Concat(shards[..t]) <= Concat(shards)
  {
    if t == |shards| {
      assert shards[..t] == shards;
    } else {
      ConcatPrefix(shards[..|shards| - 1], t);
      assert shards[..|shards| - 1][..t] == shards[..t];
    }
  }

  lemma MoreGathered(a: seq<SampleRow>, b: seq<SampleRow>, k: nat, all: seq<SampleRow>)
    requires OneEach(a + b) && OneEach(all) && Gathered(Pool(a), k, all)
    ensures Gathered(Pool(a + b), k, all + Query(b, k)) && OneEach(all + Query(b, k))
  {
    var q := Query(b, k);
    SecondHalf(a, b);
    QueryGathers(b, k);
    QueryApart(b, k);
    assert Pool(a + b) == Pool(a) + Pool(b);
    GatheredTogether(Pool(a), Pool(b), k, all, q);
    forall i, j | 0 <= i < |all| && 0 <= j < |q| ensures all[i].messageID != q[j].messageID {
      assert all[i] in Pool(all) && q[j] in Pool(q);
      IdsApart(a, b, all[i], q[j]);
    }
  }

  lemma SecondHalf(a: seq<SampleRow>, b: seq<SampleRow>)
    requires OneEach(a + b)
    ensures OneEach(b)
  {
    assert forall i :: 0 <= i < |b| ==> (a + b)[|a| + i] == b[i];
  }

  lemma IdsApart(a: seq<SampleRow>, b: seq<SampleRow>, x: SampleRow, y: SampleRow)
    requires OneEach(a + b) && x in a && y in b
    ensures x.messageID != y.messageID
  {
    var p :| 0 <= p < |a| && a[p] == x;
    var r :| 0 <= r < |b| && b[r] == y;
    assert (a + b)[p] == a[p] && (a + b)[|a| + r] == b[r];
  }

  lemma QueryApart(shard: seq<SampleRow>, k: nat)
    requires OneEach(shard)
    ensures OneEach(Query(shard, k))
  {
    SortedIsSorted(shard, IdOf());
    SameIdsApart(shard, Sorted(shard, IdOf()));
  }

  // ---- the comparison ----

  datatype Detail = Detail(messageID: string, field: string)

  datatype SampleResult = SampleResult(sampled: nat, missing: nat, mismatch: nat, details: seq<Detail>)

  function SameSet(a: seq<string>, b: seq<string>): bool {
    |a| == |b| && Sorted(a, Itself()) == Sorted(b, Itself())
  }

  function Differs(name: string, r: SampleRow, differs: bool): seq<Detail> {
    if differs then [Detail(r.messageID, name)] else []
  }

  /** compareRow: the fields that differ; of encrypted rows the visibility is not compared. */
  function CompareRow(r: SampleRow, d: DocFields): seq<Detail> {
    Differs("messageId", r, r.messageID != FormatInt(d.messageID))
    + Differs("messageSeq", r, FormatInt(r.messageSeq) != FormatInt(d.messageSeq))
    + Differs("channelId", r, r.channelID != d.channelID)
    + Differs("channelType", r, r.channelType != d.channelType)
    + Differs("spaceId", r, !r.signal && r.spaceID != d.spaceID)
    + Differs("visibles", r, !r.signal && !SameSet(r.visibles, d.visibles))
  }

  /** Every field the reader depends on agrees; the visibility of an encrypted row is left to the reader. */
  ghost predicate Agrees(r: SampleRow, d: DocFields) {
    && r.messageID == FormatInt(d.messageID) && r.messageSeq == d.messageSeq
    && r.channelID == d.channelID && r.channelType == d.channelType
    && (!r.signal ==> r.spaceID == d.spaceID && multiset(r.visibles) == multiset(d.visibles))
  }

  /** A row passes exactly when every reader-critical field agrees, visibles as multisets. */
  lemma CompareRowMeans(r: SampleRow, d: DocFields)
    ensures CompareRow(r, d) == [] <==> Agrees(r, d)
  {
    if FormatInt(r.messageSeq) == FormatInt(d.messageSeq) {
      FormatIntInjective(r.messageSeq, d.messageSeq);
    }
    SameSorted(r.visibles, d.visibles);
    SameSize(r.visibles, d.visibles);
  }

  /** Each detail names the row and one field that differs. */
  lemma CompareRowNames(r: SampleRow, d: DocFields, detail: Detail)
    ensures detail in CompareRow(r, d) <==>
              detail.messageID == r.messageID &&
              match detail.field
              case "messageId" => r.messageID != FormatInt(d.messageID)
              case "messageSeq" => r.messageSeq != d.messageSeq
              case "channelId" => r.channelID != d.channelID
              case "channelType" => r.channelType != d.channelType
              case "spaceId" => !r.signal && r.spaceID != d.spaceID
              case "visibles" => !r.signal && multiset(r.visibles) != multiset(d.visibles)
              case _ => false
  {
    if FormatInt(r.messageSeq) == FormatInt(d.messageSeq) {
      FormatIntInjective(r.messageSeq, d.messageSeq);
    }
    SameSorted(r.visibles, d.visibles);
    SameSize(r.visibles, d.visibles);
  }

  /** What a row of the sample is reported for: no document, or the fields of it that differ. */
  function DetailsOf(r: SampleRow, docs: map<string, DocFields>): seq<Detail> {
    if r.messageID in docs then CompareRow(r, docs[r.messageID]) else [Detail(r.messageID, "_doc")]
  }

  function AllDetails(rows: seq<SampleRow>, docs: map<string, DocFields>, n: nat): seq<Detail>
    requires n <= |rows|
  {
    if n == 0 then [] else AllDetails(rows, docs, n - 1) + DetailsOf(rows[n - 1], docs)
  }

  predicate Comparable(r: SampleRow, excluded: set<string>) {
    r.messageID != "" && r.messageID !in excluded
  }

  ghost function Candidates(pool: set<SampleRow>, excluded: set<string>): set<SampleRow> {
    set r | r in pool && r.messageID != "" && r.messageID !in excluded
  }

  function Kept(rows: seq<SampleRow>, excluded: set<string>): seq<SampleRow> {
    if rows == [] then []
    else
      var last := rows[|rows| - 1];
      Kept(rows[..|rows| - 1], excluded) + if Comparable(last, excluded) then [last] else []
  }

  ghost function SkippedIds(rows: seq<SampleRow>, excluded: set<string>): set<string> {
    set r | r in rows && r.messageID in excluded :: r.messageID
  }

  /** Exactly the comparable rows are kept... */
  lemma {:induction false} KeptMembers(rows: seq<SampleRow>, excluded: set<string>, r: SampleRow)
    ensures r in Kept(rows, excluded) <==> r in rows && Comparable(r, excluded)
  {
    if rows != [] {
      var n := |rows| - 1;
      KeptMembers(rows[..n], excluded, r);
      assert rows == rows[..n] + [rows[n]];
    }
  }

  /** ...in their order. */
  lemma {:induction false} KeptAscending(rows: seq<SampleRow>, excluded: set<string>)
    requires Ascending(rows)
    ensures Ascending(Kept(rows, excluded))
  {
    if rows != [] {
      var n := |rows| - 1;
      KeptAscending(rows[..n], excluded);
      var kept := Kept(rows[..n], excluded);
      forall i | 0 <= i < |kept| ensures Less(kept[i].messageID, rows[n].messageID) {
        KeptMembers(rows[..n], excluded, kept[i]);
        var j :| 0 <= j < n && rows[j] == kept[i];
      }
      AppendAscending(kept, rows[n]);
    }
  }

  lemma AppendAscending(r: seq<SampleRow>, last: SampleRow)
    requires Ascending(r) && forall i :: 0 <= i < |r| ==> Less(r[i].messageID, last.messageID)
    ensures Ascending(r + [last])
  {
  }

  lemma KeptRows(rows: seq<SampleRow>, excluded: set<string>)
    requires Ascending(rows)
    ensures Ascending(Kept(rows, excluded)) && Pool(Kept(rows, excluded)) == Candidates(Pool(rows), excluded)
  {
    KeptAscending(rows, excluded);
    forall r ensures r in Pool(Kept(rows, excluded)) <==> r in Candidates(Pool(rows), excluded) {
      KeptMembers(rows, excluded, r);
    }
  }

  /** Every row that has an id is kept or accounted for by an excluded id. */
  lemma {:induction false} KeptCount(rows: seq<SampleRow>, excluded: set<string>)
    requires Ascending(rows) && forall r :: r in rows ==> r.messageID != ""
    ensures |rows| == |Kept(rows, excluded)| + |SkippedIds(rows, excluded)|
  {
    if rows != [] {
      var n := |rows| - 1;
      var init, last := rows[..n], rows[n];
      KeptCount(init, excluded);
      assert rows == init + [last];
      if last.messageID in excluded {
        assert SkippedIds(rows, excluded) == SkippedIds(init, excluded) + {last.messageID};
        NotYetSkipped(init, last, excluded);
      } else {
        assert SkippedIds(rows, excluded) == SkippedIds(init, excluded);
      }
    }
  }

  lemma NotYetSkipped(init: seq<SampleRow>, last: SampleRow, excluded: set<string>)
    requires Ascending(init + [last])
    ensures last.messageID !in SkippedIds(init, excluded)
  {
    forall r | r in init ensures r.messageID != last.messageID {
      var j :| 0 <= j < |init| && init[j] == r;
      assert (init + [last])[j] == r && (init + [last])[|init|] == last;
      LessTotal(r.messageID, last.messageID);
    }
  }

  /**
   * Oversampling by the number of excluded ids: what is left is the beginning of the
   * comparable rows, and unless a row has no id, exactly the first limit of them.
   */
  lemma Oversampling(pool: set<SampleRow>, excluded: set<string>, limit: nat, rows: seq<SampleRow>)
    requires FirstRows(pool, limit + |excluded|, rows)
    ensures Leads(Candidates(pool, excluded), Take(Kept(rows, excluded), limit))
    ensures (forall r :: r in pool ==> r.messageID != "") ==>
              FirstRows(Candidates(pool, excluded), limit, Take(Kept(rows, excluded), limit))
  {
    var kept, cands := Kept(rows, excluded), Candidates(pool, excluded);
    KeptRows(rows, excluded);
    if forall r :: r in pool ==> r.messageID != "" {
      assert forall r :: r in rows ==> r in Pool(rows);
      KeptCount(rows, excluded);
    }
    forall y, i | y in cands && y !in kept && 0 <= i < |kept| ensures Less(kept[i].messageID, y.messageID) {
      assert kept[i] in Pool(kept);
      assert y !in Pool(kept) && y !in rows;
      var j :| 0 <= j < |rows| && rows[j] == kept[i];
    }
    assert Leads(cands, kept);
    LeadsTake(cands, kept, limit);
    AscendingSize(rows);
    AscendingSize(kept);
    Larger(SkippedIds(rows, excluded), excluded);
    Larger(Pool(kept), cands);
    if |pool| <= limit + |excluded| {
      SameSizeSame(Pool(rows), pool);
    }
  }

  lemma SameSizeSame<A>(xs: set<A>, ys: set<A>)
    requires xs <= ys && |xs| == |ys|
    ensures xs == ys
  {
    assert ys == xs + (ys - xs);
  }

  lemma LeadsTake(pool: set<SampleRow>, r: seq<SampleRow>, k: nat)
    requires Leads(pool, r)
    ensures Leads(pool, Take(r, k))
  {
  }

  predicate Missing(rows: seq<SampleRow>, docs: map<string, DocFields>, i: nat) {
    i < |rows| && rows[i].messageID !in docs
  }

  ghost predicate Mismatched(rows: seq<SampleRow>, docs: map<string, DocFields>, i: nat) {
    i < |rows| && rows[i].messageID in docs && !Agrees(rows[i], docs[rows[i].messageID])
  }

  /** The places of the first n rows without a document... */
  ghost function MissingAt(rows: seq<SampleRow>, docs: map<string, DocFields>, n: nat): set<nat> {
    set i: nat | i < n && Missing(rows, docs, i)
  }

  /** ...and of those whose document disagrees. */
  ghost function MismatchAt(rows: seq<SampleRow>, docs: map<string, DocFields>, n: nat): set<nat> {
    set i: nat | i < n && Mismatched(rows, docs, i)
  }

  lemma MissingNext(rows: seq<SampleRow>, docs: map<string, DocFields>, n: nat)
    ensures |MissingAt(rows, docs, n + 1)| == |MissingAt(rows, docs, n)| + if Missing(rows, docs, n) then 1 else 0
  {
    var was := MissingAt(rows, docs, n);
    assert n !in was;
    assert MissingAt(rows, docs, n + 1) == if Missing(rows, docs, n) then was + {n} else was;
  }

  lemma MismatchNext(rows: seq<SampleRow>, docs: map<string, DocFields>, n: nat)
    ensures |MismatchAt(rows, docs, n + 1)| == |MismatchAt(rows, docs, n)| + if Mismatched(rows, docs, n) then 1 else 0
  {
    var was := MismatchAt(rows, docs, n);
    assert n !in was;
    assert MismatchAt(rows, docs, n + 1) == if Mismatched(rows, docs, n) then was + {n} else was;
  }

  /**
   * CompareSamplesExcluding. What is compared are the first comparable rows of the
   * window, and the result counts them by their verdict; details are kept up to a cap.
   */
  method CompareSamplesExcluding(ctx: Context, shards: seq<seq<SampleRow>>, docs: map<string, DocFields>, limit: int,
                                 maxDetails: int, excluded: set<string>)
    returns (ok: bool, res: SampleResult, ghost compared: seq<SampleRow>)
    requires OneEach(Concat(shards))
    modifies ctx`faults
    ensures ctx.Since(ctx.fuel, old(ctx.faults), ok)
    ensures ok && limit > 0 ==> Leads(Candidates(Pool(Concat(shards)), excluded), compared)
    ensures ok && limit > 0 && (forall r :: r in Pool(Concat(shards)) ==> r.messageID != "") ==>
              FirstRows(Candidates(Pool(Concat(shards)), excluded), limit, compared)
    ensures ok ==> res.sampled == |compared| && res.missing == |MissingAt(compared, docs, |compared|)|
                   && res.mismatch == |MismatchAt(compared, docs, |compared|)|
    ensures ok ==> (res.details == [] <==> res.missing == 0 && res.mismatch == 0)
    ensures ok ==> res.details == Take(AllDetails(compared, docs, |compared|), if maxDetails <= 0 then 50 else maxDetails)
  {
    var cap := if maxDetails <= 0 then DEFAULT_MAX_DETAILS else maxDetails;
    res, compared := SampleResult(0, 0, 0, []), [];
    if limit <= 0 {
      return true, res, [];
    }
    var rows;
    ok, rows := SampleRows(ctx, shards, limit + |excluded|);
    if !ok {
      return;
    }
    Oversampling(Pool(Concat(shards)), excluded, limit, rows);
    var cmp := Select(rows, excluded, limit);
    compared := cmp;
    if |cmp| > 0 {
      ok := ctx.Try();
      if !ok {
        return;
      }
    }
    res := CompareRows(cmp, docs, cap);
  }

  /** One row more in the result: missing, differing, or in order. */
  ghost predicate OneMore(r: SampleRow, docs: map<string, DocFields>, cap: int, was: SampleResult, res: SampleResult)
    requires cap > 0
  {
    && res.sampled == was.sampled + 1
    && res.missing == was.missing + (if r.messageID in docs then 0 else 1)
    && res.mismatch == was.mismatch + (if r.messageID in docs && !Agrees(r, docs[r.messageID]) then 1 else 0)
    && res.details == AddDetails(was.details, DetailsOf(r, docs), cap)
    && (DetailsOf(r, docs) == [] <==> res.missing == was.missing && res.mismatch == was.mismatch)
  }

  /** The result of the first n rows of the sample. */
  ghost predicate Tallied(rows: seq<SampleRow>, docs: map<string, DocFields>, cap: int, n: nat, res: SampleResult) {
    && n <= |rows| && res.sampled == n && res.missing == |MissingAt(rows, docs, n)|
    && res.mismatch == |MismatchAt(rows, docs, n)| && (res.details == [] <==> res.missing == 0 && res.mismatch == 0)
    && cap > 0 && res.details == Take(AllDetails(rows, docs, n), cap)
  }

  lemma TalliedNext(rows: seq<SampleRow>, docs: map<string, DocFields>, cap: int, n: nat, was: SampleResult,
                    res: SampleResult)
    requires n < |rows| && Tallied(rows, docs, cap, n, was) && OneMore(rows[n], docs, cap, was, res)
    ensures Tallied(rows, docs, cap, n + 1, res)
  {
    MissingNext(rows, docs, n);
    MismatchNext(rows, docs, n);
    AddedDetails(AllDetails(rows, docs, n), DetailsOf(rows[n], docs), cap);
  }

  /** One row of the sample compared. */
  method CompareOne(r: SampleRow, docs: map<string, DocFields>, cap: int, was: SampleResult) returns (res: SampleResult)
    requires cap > 0
    ensures OneMore(r, docs, cap, was, res)
  {
    if r.messageID !in docs {
      return SampleResult(was.sampled + 1, was.missing + 1, was.mismatch,
                          AddDetails(was.details, [Detail(r.messageID, "_doc")], cap));
    }
    var dets := CompareRow(r, docs[r.messageID]);
    CompareRowMeans(r, docs[r.messageID]);
    res := SampleResult(was.sampled + 1, was.missing, was.mismatch + if |dets| > 0 then 1 else 0,
                        AddDetails(was.details, dets, cap));
  }

  /** The comparing loop. */
  method CompareRows(cmp: seq<SampleRow>, docs: map<string, DocFields>, cap: int) returns (res: SampleResult)
    requires cap > 0
    ensures res.sampled == |cmp| && res.missing == |MissingAt(cmp, docs, |cmp|)|
    ensures res.mismatch == |MismatchAt(cmp, docs, |cmp|)|
    ensures (res.details == [] <==> res.missing == 0 && res.mismatch == 0)
    ensures res.details == Take(AllDetails(cmp, docs, |cmp|), cap)
  {
    res := SampleResult(0, 0, 0, []);
    assert MissingAt(cmp, docs, 0) == {} && MismatchAt(cmp, docs, 0) == {};
    for i := 0 to |cmp|
      invariant Tallied(cmp, docs, cap, i, res)
    {
      ghost var was := res;
      res := CompareOne(cmp[i], docs, cap, res);
      TalliedNext(cmp, docs, cap, i, was, res);
    }
  }

  lemma AddedDetails(all: seq<Detail>, more: seq<Detail>, cap: int)
    requires cap > 0
    ensures AddDetails(Take(all, cap), more, cap) == Take(all + more, cap)
  {
  }

  /** addDetail, for each: nothing is kept beyond the cap. */
  function AddDetails(kept: seq<Detail>, more: seq<Detail>, cap: int): (r: seq<Detail>)
    requires cap > 0
    ensures r == [] <==> kept == [] && more == []
    ensures kept <= r && (|kept| <= cap ==> |r| <= cap)
  {
    kept + if |kept| >= cap then [] else Take(more, cap - |kept|)
  }

  /** The first limit comparable rows. */
  method Select(rows: seq<SampleRow>, excluded: set<string>, limit: nat) returns (cmp: seq<SampleRow>)
    requires limit > 0
    ensures cmp == Take(Kept(rows, excluded), limit)
  {
    cmp := [];
    for i := 0 to |rows|
      invariant cmp == Kept(rows[..i], excluded) && |cmp| < limit
    {
      assert rows[..i + 1][..i] == rows[..i];
      if Comparable(rows[i], excluded) {
        cmp := cmp + [rows[i]];
        if |cmp| >= limit {
          KeptPrefix(rows, i + 1, excluded);
          return;
        }
      }
    }
    assert rows[..|rows|] == rows;
  }

  lemma {:induction false} KeptPrefix(rows: seq<SampleRow>, n: nat, excluded: set<string>)
    requires n <= |rows|
    ensures Kept(rows[..n], excluded) <= Kept(rows, excluded)
  {
    if n == |rows| {
      assert rows[..n] == rows;
    } else {
      KeptPrefix(rows[..|rows| - 1], n, excluded);
      assert rows[..|rows| - 1][..n] == rows[..n];
    }
  }
}
