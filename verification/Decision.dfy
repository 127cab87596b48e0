/**
 * The commit decision shared, line for line, by internal/consumer/decision.go
 * and internal/fileextract/decision.go: for every partition of a batch, the last
 * message of its contiguous settled prefix.
 */
module Decision {
  import opened Common

  datatype Fetched = Fetched(topic: string, partition: int, offset: int, key: Bytes, value: Bytes)

  datatype Disposition = DispOK | DispDLQResolved | DispTransient

  datatype PartKey = PartKey(topic: string, partition: int)

  function KeyOf(m: Fetched): PartKey {
    PartKey(m.topic, m.partition)
  }

  ghost predicate DistinctOffsets(batch: seq<Fetched>) {
    forall i, j :: 0 <= i < j < |batch| && KeyOf(batch[i]) == KeyOf(batch[j]) ==> batch[i].offset != batch[j].offset
  }

  /** Nothing pending in i's partition at or below i's offset. */
  ghost predicate Crossable(batch: seq<Fetched>, disp: seq<Disposition>, i: int)
    requires 0 <= i < |batch| == |disp|
  {
    forall j :: 0 <= j < |batch| && KeyOf(batch[j]) == KeyOf(batch[i]) && batch[j].offset <= batch[i].offset
      ==> disp[j] != DispTransient
  }

  /** The greatest crossable offset of its partition. */
  ghost predicate IsPoint(batch: seq<Fetched>, disp: seq<Disposition>, i: int)
    requires 0 <= i < |batch| == |disp|
  {
    && Crossable(batch, disp, i)
    && forall j :: 0 <= j < |batch| && KeyOf(batch[j]) == KeyOf(batch[i]) && Crossable(batch, disp, j)
         ==> batch[j].offset <= batch[i].offset
  }

  /** The lowest offset of its partition. */
  ghost predicate IsHead(batch: seq<Fetched>, i: int)
    requires 0 <= i < |batch|
  {
    forall j :: 0 <= j < |batch| && KeyOf(batch[j]) == KeyOf(batch[i]) ==> batch[i].offset <= batch[j].offset
  }

  method HasTransient(disp: seq<Disposition>) returns (r: bool)
    ensures r <==> exists i :: 0 <= i < |disp| && disp[i] == DispTransient
  {
    for i := 0 to |disp|
      invariant forall k :: 0 <= k < i ==> disp[k] != DispTransient
    {
      if disp[i] == DispTransient {
        return true;
      }
    }
    return false;
  }

  ghost predicate InBatch(batch: seq<Fetched>, idxs: seq<nat>) {
    forall k :: 0 <= k < |idxs| ==> idxs[k] < |batch|
  }

  /** Positions of one partition, gathered and put in offset order. */
  ghost predicate Gathered(batch: seq<Fetched>, key: PartKey, idxs: seq<nat>) {
    && InBatch(batch, idxs)
    && (forall k :: 0 <= k < |idxs| ==> KeyOf(batch[idxs[k]]) == key)
    && (forall i :: 0 <= i < |batch| && KeyOf(batch[i]) == key ==> i in idxs)
  }

  ghost predicate InOffsetOrder(batch: seq<Fetched>, idxs: seq<nat>)
    requires InBatch(batch, idxs)
  {
    forall j, k :: 0 <= j < k < |idxs| ==> batch[idxs[j]].offset <= batch[idxs[k]].offset
  }

  /** Stands for the library sort of one partition's positions. */
  method SortByOffset(batch: seq<Fetched>, idxs: seq<nat>) returns (sorted: seq<nat>)
    requires InBatch(batch, idxs)
    ensures InBatch(batch, sorted) && InOffsetOrder(batch, sorted)
    ensures multiset(sorted) == multiset(idxs)
  {
    sorted := [];
    for n := 0 to |idxs|
      invariant InBatch(batch, sorted) && InOffsetOrder(batch, sorted)
      invariant multiset(sorted) == multiset(idxs[..n])
    {
      var p := InsertPlace(batch, sorted, idxs[n]);
      InsertKeepsOrder(batch, sorted, p, idxs[n]);
      InsertKeepsElements(sorted, p, idxs, n);
      sorted := InsertAt(sorted, p, idxs[n]);
    }
    assert idxs[..|idxs|] == idxs;
  }

  /** Where x goes: behind everything that is not after it. */
  method InsertPlace(batch: seq<Fetched>, sorted: seq<nat>, x: nat) returns (p: nat)
    requires InBatch(batch, sorted) && x < |batch|
    ensures p <= |sorted|
    ensures p > 0 ==> batch[sorted[p - 1]].offset <= batch[x].offset
    ensures p < |sorted| ==> batch[sorted[p]].offset > batch[x].offset
  {
    p := |sorted|;
    while p > 0 && batch[sorted[p - 1]].offset > batch[x].offset
      invariant p <= |sorted|
      invariant p < |sorted| ==> batch[sorted[p]].offset > batch[x].offset
    {
      p := p - 1;
    }
  }

  function InsertAt(s: seq<nat>, p: nat, x: nat): seq<nat>
    requires p <= |s|
  {
    s[..p] + [x] + s[p..]
  }

  lemma InsertKeepsOrder(batch: seq<Fetched>, s: seq<nat>, p: nat, x: nat)
    requires InBatch(batch, s) && InOffsetOrder(batch, s) && x < |batch| && p <= |s|
    requires p > 0 ==> batch[s[p - 1]].offset <= batch[x].offset
    requires p < |s| ==> batch[s[p]].offset > batch[x].offset
    ensures InBatch(batch, InsertAt(s, p, x)) && InOffsetOrder(batch, InsertAt(s, p, x))
  {
    var t := InsertAt(s, p, x);
    forall j, k | 0 <= j < k < |t| ensures batch[t[j]].offset <= batch[t[k]].offset {
      InsertedBefore(batch, s, p, x, j, k);
    }
  }

  lemma InsertedBefore(batch: seq<Fetched>, s: seq<nat>, p: nat, x: nat, j: nat, k: nat)
    requires InBatch(batch, s) && InOffsetOrder(batch, s) && x < |batch| && p <= |s| && j < k <= |s|
    requires p > 0 ==> batch[s[p - 1]].offset <= batch[x].offset
    requires p < |s| ==> batch[s[p]].offset > batch[x].offset
    ensures InsertAt(s, p, x)[j] < |batch| && InsertAt(s, p, x)[k] < |batch|
    ensures batch[InsertAt(s, p, x)[j]].offset <= batch[InsertAt(s, p, x)[k]].offset
  {
  }

  lemma InsertKeepsElements(s: seq<nat>, p: nat, idxs: seq<nat>, n: nat)
    requires p <= |s| && n < |idxs| && multiset(s) == multiset(idxs[..n])
    ensures multiset(InsertAt(s, p, idxs[n])) == multiset(idxs[..n + 1])
  {
    assert s == s[..p] + s[p..];
    assert idxs[..n + 1] == idxs[..n] + [idxs[n]];
  }

  /** What a scan of one partition answers: the position of its commit point, or -1. */
  ghost predicate PointOf(batch: seq<Fetched>, disp: seq<Disposition>, key: PartKey, last: int)
    requires |batch| == |disp|
  {
    && -1 <= last < |batch|
    && if last >= 0 then KeyOf(batch[last]) == key && IsPoint(batch, disp, last)
       else forall i :: 0 <= i < |batch| && KeyOf(batch[i]) == key ==> !Crossable(batch, disp, i)
  }

  /** The scan over one partition: stop at the first pending message. */
  method LastPrefix(batch: seq<Fetched>, disp: seq<Disposition>, key: PartKey, idxs: seq<nat>) returns (last: int)
    requires |batch| == |disp| && DistinctOffsets(batch)
    requires Gathered(batch, key, idxs) && InOffsetOrder(batch, idxs)
    ensures PointOf(batch, disp, key, last)
  {
    last := -1;
    var n := 0;
    while n < |idxs| && disp[idxs[n]] != DispTransient
      invariant 0 <= n <= |idxs|
      invariant last == if n == 0 then -1 else idxs[n - 1]
      invariant SettledUpTo(disp, idxs, n)
    {
      last := idxs[n];
      n := n + 1;
    }
    PrefixIsPoint(batch, disp, key, idxs, n);
  }

  ghost predicate SettledUpTo(disp: seq<Disposition>, idxs: seq<nat>, n: nat) {
    forall k :: 0 <= k < n && k < |idxs| && idxs[k] < |disp| ==> disp[idxs[k]] != DispTransient
  }

  lemma PrefixIsPoint(batch: seq<Fetched>, disp: seq<Disposition>, key: PartKey, idxs: seq<nat>, n: nat)
    requires |batch| == |disp| && DistinctOffsets(batch)
    requires Gathered(batch, key, idxs) && InOffsetOrder(batch, idxs) && n <= |idxs|
    requires SettledUpTo(disp, idxs, n)
    requires n < |idxs| ==> disp[idxs[n]] == DispTransient
    ensures PointOf(batch, disp, key, if n == 0 then -1 else idxs[n - 1])
  {
  }

  /** The positions of every partition that occurs in the batch. */
  method GroupByPartition(batch: seq<Fetched>) returns (byPart: map<PartKey, seq<nat>>)
    ensures Grouped(batch, byPart)
  {
    byPart := map[];
    for i := 0 to |batch|
      invariant Grouped(batch[..i], byPart)
    {
      var k := KeyOf(batch[i]);
      var before := if k in byPart then byPart[k] else [];
      GroupedNext(batch, i, byPart, before);
      byPart := byPart[k := before + [i]];
    }
    assert batch[..|batch|] == batch;
  }

  ghost predicate Grouped(batch: seq<Fetched>, byPart: map<PartKey, seq<nat>>) {
    && (forall k :: k in byPart ==> Gathered(batch, k, byPart[k]))
    && (forall i :: 0 <= i < |batch| ==> KeyOf(batch[i]) in byPart)
  }

  lemma GroupedNext(batch: seq<Fetched>, i: nat, byPart: map<PartKey, seq<nat>>, before: seq<nat>)
    requires i < |batch| && Grouped(batch[..i], byPart)
    requires before == if KeyOf(batch[i]) in byPart then byPart[KeyOf(batch[i])] else []
    ensures Grouped(batch[..i + 1], byPart[KeyOf(batch[i]) := before + [i]])
  {
  }

  ghost predicate IsPointMessage(batch: seq<Fetched>, disp: seq<Disposition>, m: Fetched)
    requires |batch| == |disp|
  {
    exists i :: 0 <= i < |batch| && IsPoint(batch, disp, i) && batch[i] == m
  }

  /** points holds the commit points of exactly the partitions that are not in todo. */
  ghost predicate PointsOutside(batch: seq<Fetched>, disp: seq<Disposition>, todo: set<PartKey>, points: seq<Fetched>)
    requires |batch| == |disp|
  {
    && (forall n :: 0 <= n < |points| ==> KeyOf(points[n]) !in todo && IsPointMessage(batch, disp, points[n]))
    && (forall i :: 0 <= i < |batch| && KeyOf(batch[i]) !in todo && IsPoint(batch, disp, i) ==> batch[i] in points)
    && (forall j, k :: 0 <= j < k < |points| ==> KeyOf(points[j]) != KeyOf(points[k]))
  }

  /**
   * partitionCommitPoints. Partitions are visited in an arbitrary order; the
   * result holds exactly the commit point of every partition that has one, once.
   */
  method PartitionCommitPoints(batch: seq<Fetched>, disp: seq<Disposition>) returns (points: seq<Fetched>)
    requires |batch| == |disp| && DistinctOffsets(batch)
    ensures PointsOutside(batch, disp, {}, points)
  {
    var byPart := GroupByPartition(batch);
    points := [];
    var todo := byPart.Keys;
    while todo != {}
      invariant todo <= byPart.Keys
      invariant PointsOutside(batch, disp, todo, points)
      decreases |todo|
    {
      var k :| k in todo;
      var idxs := SortByOffset(batch, byPart[k]);
      SameMembers(idxs, byPart[k]);
      assert Gathered(batch, k, idxs) by {
        assert forall n :: 0 <= n < |idxs| ==> idxs[n] in byPart[k];
      }
      var last := LastPrefix(batch, disp, k, idxs);
      PointsStep(batch, disp, todo, points, k, last);
      todo := todo - {k};
      if last >= 0 {
        points := points + [batch[last]];
      }
    }
  }

  lemma PointsStep(batch: seq<Fetched>, disp: seq<Disposition>, todo: set<PartKey>, points: seq<Fetched>,
                   k: PartKey, last: int)
    requires |batch| == |disp| && DistinctOffsets(batch) && k in todo
    requires PointsOutside(batch, disp, todo, points) && PointOf(batch, disp, k, last)
    ensures PointsOutside(batch, disp, todo - {k}, if last >= 0 then points + [batch[last]] else points)
  {
    var points' := if last >= 0 then points + [batch[last]] else points;
    assert last >= 0 ==> IsPointMessage(batch, disp, batch[last]);
    assert forall n :: 0 <= n < |points| ==> KeyOf(points[n]) != k;
    forall i | 0 <= i < |batch| && KeyOf(batch[i]) !in todo - {k} && IsPoint(batch, disp, i)
      ensures batch[i] in points'
    {
      if KeyOf(batch[i]) == k {
        assert Crossable(batch, disp, i);
        PointIsUnique(batch, disp, last, i);
        assert batch[i] == points'[|points|];
      } else {
        assert batch[i] in points;
      }
    }
  }

  lemma SameMembers(a: seq<nat>, b: seq<nat>)
    requires multiset(a) == multiset(b)
    ensures forall x :: x in a <==> x in b
  {
    forall x ensures x in a <==> x in b {
      assert x in a <==> x in multiset(a);
      assert x in b <==> x in multiset(b);
    }
  }

  lemma PointIsUnique(batch: seq<Fetched>, disp: seq<Disposition>, i: nat, j: nat)
    requires |batch| == |disp| && DistinctOffsets(batch) && i < |batch| && j < |batch|
    requires KeyOf(batch[i]) == KeyOf(batch[j]) && IsPoint(batch, disp, i) && IsPoint(batch, disp, j)
    ensures i == j
  {
  }

  /** A partition has a commit point unless its lowest message is pending. */
  lemma PointUnlessHeadPending(batch: seq<Fetched>, disp: seq<Disposition>, head: nat)
    requires |batch| == |disp| && DistinctOffsets(batch) && head < |batch| && IsHead(batch, head)
    ensures (exists i :: 0 <= i < |batch| && KeyOf(batch[i]) == KeyOf(batch[head]) && IsPoint(batch, disp, i))
            <==> disp[head] != DispTransient
  {
    if disp[head] != DispTransient {
      assert Crossable(batch, disp, head);
      var i := TopCrossable(batch, disp, head, 0);
    }
  }

  /** Climb from a crossable position to the greatest crossable one of its partition. */
  lemma TopCrossable(batch: seq<Fetched>, disp: seq<Disposition>, i: nat, from: nat) returns (top: nat)
    requires |batch| == |disp| && i < |batch| && from <= |batch| && Crossable(batch, disp, i)
    requires forall j :: 0 <= j < from && KeyOf(batch[j]) == KeyOf(batch[i]) && Crossable(batch, disp, j)
               ==> batch[j].offset <= batch[i].offset
    ensures top < |batch| && KeyOf(batch[top]) == KeyOf(batch[i]) && IsPoint(batch, disp, top)
    decreases |batch| - from
  {
    if from == |batch| {
      top := i;
    } else if KeyOf(batch[from]) == KeyOf(batch[i]) && Crossable(batch, disp, from)
              && batch[from].offset > batch[i].offset {
      top := TopCrossable(batch, disp, from, from + 1);
    } else {
      top := TopCrossable(batch, disp, i, from + 1);
    }
  }

  /** As messages settle and never reopen, the commit point of a partition never goes back. */
  lemma PointsOnlyAdvance(batch: seq<Fetched>, disp: seq<Disposition>, disp': seq<Disposition>, i: nat, i': nat)
    requires |batch| == |disp| == |disp'| && i < |batch| && i' < |batch|
    requires forall k :: 0 <= k < |batch| && disp[k] != DispTransient ==> disp'[k] != DispTransient
    requires KeyOf(batch[i]) == KeyOf(batch[i']) && IsPoint(batch, disp, i) && IsPoint(batch, disp', i')
    ensures batch[i].offset <= batch[i'].offset
  {
  }
}
