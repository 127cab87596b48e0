/**
 * One topic read by one consumer group: an immutable log per partition, the
 * committed offsets that outlive a process, and the read positions that do not.
 */
module Kafka {
  import opened Common
  import opened Decision

  datatype Entry = Entry(key: Bytes, value: Bytes)

  datatype Log = Log(topic: string, parts: map<int, seq<Entry>>) {
    /** The message at an offset; offsets count from 0 without holes. */
    function At(p: int, o: nat): Fetched
      requires p in parts && o < |parts[p]|
    {
      Fetched(topic, p, o, parts[p][o].key, parts[p][o].value)
    }
  }

  type Marks = map<int, nat>

  ghost predicate Bounded(log: Log, marks: Marks) {
    marks.Keys == log.parts.Keys && forall p :: p in marks ==> marks[p] <= |log.parts[p]|
  }

  /** Every message below its partition's mark satisfies done. */
  ghost predicate AllBelow(log: Log, marks: Marks, done: Fetched -> bool)
    requires Bounded(log, marks)
  {
    forall p: int, o: nat :: p in marks && o < marks[p] ==> done(log.At(p, o))
  }

  ghost predicate Inside(log: Log, base: Marks, pos: Marks, m: Fetched) {
    && m.partition in log.parts && m.partition in base && m.partition in pos
    && 0 <= m.offset < |log.parts[m.partition]| && m == log.At(m.partition, m.offset)
    && base[m.partition] <= m.offset < pos[m.partition]
  }

  /** The batch is exactly what lies between two sets of marks, each message once. */
  ghost predicate Span(log: Log, base: Marks, pos: Marks, batch: seq<Fetched>) {
    && Bounded(log, base) && Bounded(log, pos) && DistinctOffsets(batch)
    && (forall p :: p in pos ==> base[p] <= pos[p])
    && (forall i :: 0 <= i < |batch| ==> Inside(log, base, pos, batch[i]))
    && (forall p: int, o: nat :: p in pos && base[p] <= o < pos[p] ==> log.At(p, o) in batch)
  }

  lemma EmptySpan(log: Log, pos: Marks)
    requires Bounded(log, pos)
    ensures Span(log, pos, pos, [])
  {
  }

  lemma SpanNext(log: Log, base: Marks, pos: Marks, batch: seq<Fetched>, p: int)
    requires Span(log, base, pos, batch) && p in pos && pos[p] < |log.parts[p]|
    ensures Span(log, base, pos[p := pos[p] + 1], batch + [log.At(p, pos[p])])
  {
  }

  /** What the messages of a batch that are no longer pending satisfy. */
  ghost predicate SettledAre(batch: seq<Fetched>, disp: seq<Disposition>, done: Fetched -> bool)
    requires |batch| == |disp|
  {
    forall i :: 0 <= i < |batch| && disp[i] != DispTransient ==> done(batch[i])
  }

  /** Everything at or below a crossable message is done, when everything below the batch is. */
  lemma CrossableIsSafe(log: Log, base: Marks, pos: Marks, batch: seq<Fetched>, disp: seq<Disposition>,
                        done: Fetched -> bool, i: nat, o: nat)
    requires Span(log, base, pos, batch) && |batch| == |disp| && i < |batch| && o <= batch[i].offset
    requires AllBelow(log, base, done) && SettledAre(batch, disp, done) && Crossable(batch, disp, i)
    ensures Inside(log, base, pos, batch[i]) && done(log.At(batch[i].partition, o))
  {
  }

  /** A committed mark inside a batch: just past a crossable message. */
  ghost predicate Reached(batch: seq<Fetched>, disp: seq<Disposition>, p: int, mark: nat)
    requires |batch| == |disp|
  {
    exists i :: 0 <= i < |batch| && batch[i].partition == p && batch[i].offset + 1 == mark && Crossable(batch, disp, i)
  }

  /** Where the committed marks stand while a batch is worked on: at most at its base, or at a mark reached. */
  ghost predicate CommittedAt(log: Log, base: Marks, batch: seq<Fetched>, disp: seq<Disposition>, marks: Marks)
    requires |batch| == |disp| && Bounded(log, base)
  {
    && Bounded(log, marks)
    && forall p :: p in marks ==> marks[p] <= base[p] || Reached(batch, disp, p, marks[p])
  }

  lemma CommittedIsSafe(log: Log, base: Marks, pos: Marks, batch: seq<Fetched>, disp: seq<Disposition>,
                        done: Fetched -> bool, marks: Marks)
    requires Span(log, base, pos, batch) && |batch| == |disp| && CommittedAt(log, base, batch, disp, marks)
    requires AllBelow(log, base, done) && SettledAre(batch, disp, done)
    ensures AllBelow(log, marks, done)
    ensures forall p :: p in marks ==> marks[p] <= pos[p]
  {
  }

  /** Committing a commit point never takes a partition back. */
  lemma PointAdvances(log: Log, base: Marks, pos: Marks, batch: seq<Fetched>, disp: seq<Disposition>, marks: Marks,
                      i: nat)
    requires Span(log, base, pos, batch) && |batch| == |disp| && i < |batch| && IsPoint(batch, disp, i)
    requires CommittedAt(log, base, batch, disp, marks)
    ensures Inside(log, base, pos, batch[i]) && marks[batch[i].partition] <= batch[i].offset + 1
    ensures batch[i].offset + 1 <= pos[batch[i].partition]
    ensures CommittedAt(log, base, batch, disp, marks[batch[i].partition := batch[i].offset + 1])
  {
    var p := batch[i].partition;
    assert Inside(log, base, pos, batch[i]);
    if marks[p] > base[p] {
      MarkBelowPoint(log, base, pos, batch, disp, marks[p], i);
    }
    assert Reached(batch, disp, p, batch[i].offset + 1);
  }

  lemma MarkBelowPoint(log: Log, base: Marks, pos: Marks, batch: seq<Fetched>, disp: seq<Disposition>, mark: nat, i: nat)
    requires Span(log, base, pos, batch) && |batch| == |disp| && i < |batch| && IsPoint(batch, disp, i)
    requires Reached(batch, disp, batch[i].partition, mark)
    ensures mark <= batch[i].offset + 1
  {
  }

  /** A batch wholly settled and committed to its points is committed to its end, in each partition. */
  lemma SettledReachesEnd(log: Log, base: Marks, pos: Marks, batch: seq<Fetched>, disp: seq<Disposition>, marks: Marks)
    requires Span(log, base, pos, batch) && |batch| == |disp| && CommittedAt(log, base, batch, disp, marks)
    requires forall k :: 0 <= k < |batch| ==> disp[k] != DispTransient
    requires PointsCovered(batch, disp, marks)
    ensures forall p :: p in pos && base[p] < pos[p] ==> marks[p] == pos[p]
  {
    forall p | p in pos && base[p] < pos[p] ensures marks[p] == pos[p] {
      TopCovered(log, base, pos, batch, disp, marks, p);
      MarkInside(log, base, pos, batch, disp, marks, p);
    }
  }

  lemma EndEverywhere(base: Marks, pos: Marks, marks: Marks)
    requires base.Keys == pos.Keys && NotBehind(base, marks)
    requires forall p :: p in pos ==> base[p] <= pos[p] && marks[p] <= pos[p]
    requires forall p :: p in pos && base[p] < pos[p] ==> marks[p] == pos[p]
    ensures marks == pos
  {
    assert marks.Keys == pos.Keys;
    forall p | p in pos ensures marks[p] == pos[p] {
      assert p in base && base[p] <= marks[p];
    }
  }

  /** The last message of a partition is a commit point once all is settled. */
  lemma TopCovered(log: Log, base: Marks, pos: Marks, batch: seq<Fetched>, disp: seq<Disposition>, marks: Marks, p: int)
    requires Span(log, base, pos, batch) && |batch| == |disp| && p in pos && base[p] < pos[p]
    requires forall k :: 0 <= k < |batch| ==> disp[k] != DispTransient
    requires PointsCovered(batch, disp, marks)
    ensures p in marks && marks[p] >= pos[p]
  {
    var top := log.At(p, pos[p] - 1);
    assert top in batch;
    var i :| 0 <= i < |batch| && batch[i] == top;
    forall j | 0 <= j < |batch| && KeyOf(batch[j]) == KeyOf(top) ensures batch[j].offset <= top.offset {
      assert Inside(log, base, pos, batch[j]);
    }
    assert IsPoint(batch, disp, i);
    assert CoveredBy(batch[i], marks);
  }

  lemma MarkInside(log: Log, base: Marks, pos: Marks, batch: seq<Fetched>, disp: seq<Disposition>, marks: Marks, p: int)
    requires Span(log, base, pos, batch) && |batch| == |disp| && CommittedAt(log, base, batch, disp, marks)
    requires p in marks
    ensures marks[p] <= pos[p]
  {
  }

  ghost predicate NotBehind(from: Marks, to: Marks) {
    from.Keys == to.Keys && forall p :: p in from ==> from[p] <= to[p]
  }

  ghost predicate PointsCovered(batch: seq<Fetched>, disp: seq<Disposition>, marks: Marks)
    requires |batch| == |disp|
  {
    forall i :: 0 <= i < |batch| && IsPoint(batch, disp, i) ==> CoveredBy(batch[i], marks)
  }

  ghost predicate CoveredBy(m: Fetched, marks: Marks) {
    m.partition in marks && m.offset < marks[m.partition]
  }

  ghost predicate AllCovered(points: seq<Fetched>, marks: Marks) {
    forall k :: 0 <= k < |points| ==> CoveredBy(points[k], marks)
  }

  lemma CoveredNext(points: seq<Fetched>, n: nat, marks: Marks, marks': Marks)
    requires n < |points| && AllCovered(points[..n], marks) && NotBehind(marks, marks') && CoveredBy(points[n], marks')
    ensures AllCovered(points[..n + 1], marks')
  {
  }

  lemma AllPointsCovered(batch: seq<Fetched>, disp: seq<Disposition>, points: seq<Fetched>, marks: Marks)
    requires |batch| == |disp| && PointsOutside(batch, disp, {}, points)
    requires AllCovered(points, marks)
    ensures PointsCovered(batch, disp, marks)
  {
  }

  datatype FetchResult = Got(m: Fetched) | TimedOut | Failed

  class Broker {
    const log: Log
    var committed: Marks
    var position: Marks
    /** How many fetches failed, and how many timed out. */
    ghost var failures: nat
    ghost var timeouts: nat

    ghost predicate Valid() reads this {
      && Bounded(log, committed) && Bounded(log, position)
      && forall p :: p in committed ==> committed[p] <= position[p]
    }

    /** A process starts reading where the group last committed. */
    method Restart()
      requires Valid()
      modifies this`position
      ensures Valid() && position == committed
    {
      position := committed;
    }

    method Fetch() returns (r: FetchResult)
      requires Valid()
      modifies this`position, this`failures, this`timeouts
      ensures Valid()
      ensures match r
              case Got(m) =>
                var p := m.partition;
                && p in old(position) && old(position)[p] < |log.parts[p]|
                && m == log.At(p, old(position)[p]) && position == old(position)[p := old(position)[p] + 1]
              case _ => position == old(position)
      ensures failures == old(failures) + if r.Failed? then 1 else 0
      ensures timeouts == old(timeouts) + if r.TimedOut? then 1 else 0
    {
      var p: int, got: bool, late: bool := *, *, *;
      if got && p in position && p in log.parts && position[p] < |log.parts[p]| {
        r := Got(log.At(p, position[p]));
        position := position[p := position[p] + 1];
      } else if late {
        r, timeouts := TimedOut, timeouts + 1;
      } else {
        r, failures := Failed, failures + 1;
      }
    }

    /** One fetch added to a batch. */
    method FetchOnto(ghost base: Marks, batch: seq<Fetched>) returns (r: FetchResult, batch': seq<Fetched>)
      requires Valid() && Span(log, base, position, batch)
      modifies this`position, this`failures, this`timeouts
      ensures Valid() && Span(log, base, position, batch')
      ensures r.Got? ==> |batch'| == |batch| + 1
      ensures !r.Got? ==> batch' == batch && position == old(position)
      ensures failures == old(failures) + if r.Failed? then 1 else 0
      ensures timeouts == old(timeouts) + if r.TimedOut? then 1 else 0
    {
      r := Fetch();
      batch' := batch;
      if r.Got? {
        SpanNext(log, base, old(position), batch, r.m.partition);
        batch' := batch + [r.m];
      }
    }

    /** Commits up to and including a message; a failed commit may or may not have been applied. */
    method Commit(ctx: Context, m: Fetched) returns (ok: bool)
      requires 0 <= m.offset
      modifies this`committed, ctx`faults
      ensures ctx.Since(ctx.fuel, old(ctx.faults), ok)
      ensures committed == old(committed) || committed == old(committed)[m.partition := m.offset + 1]
      ensures ok ==> committed == old(committed)[m.partition := m.offset + 1]
    {
      ok := ctx.Try();
      var applied := *;
      if ok || applied {
        committed := committed[m.partition := m.offset + 1];
      }
    }

    method CommitPoint(ctx: Context, batch: seq<Fetched>, disp: seq<Disposition>, ghost base: Marks, point: Fetched)
      returns (ok: bool)
      requires Valid() && Span(log, base, position, batch) && |batch| == |disp|
      requires CommittedAt(log, base, batch, disp, committed) && IsPointMessage(batch, disp, point)
      modifies this`committed, ctx`faults
      ensures ctx.Since(ctx.fuel, old(ctx.faults), ok)
      ensures Valid() && CommittedAt(log, base, batch, disp, committed) && NotBehind(old(committed), committed)
      ensures ok ==> CoveredBy(point, committed)
    {
      ghost var i :| 0 <= i < |batch| && IsPoint(batch, disp, i) && batch[i] == point;
      PointAdvances(log, base, position, batch, disp, committed, i);
      ok := Commit(ctx, point);
    }

    /** commitPrefixes: the commit points in an arbitrary order, up to the first failure. */
    method CommitPrefixes(ctx: Context, batch: seq<Fetched>, disp: seq<Disposition>, ghost base: Marks)
      returns (ok: bool)
      requires Valid() && Span(log, base, position, batch) && |batch| == |disp|
      requires CommittedAt(log, base, batch, disp, committed)
      modifies this`committed, ctx`faults
      ensures ctx.Since(ctx.fuel, old(ctx.faults), ok)
      ensures Valid() && CommittedAt(log, base, batch, disp, committed) && NotBehind(old(committed), committed)
      ensures ok ==> PointsCovered(batch, disp, committed)
    {
      var points := PartitionCommitPoints(batch, disp);
      for n := 0 to |points|
        invariant Valid() && CommittedAt(log, base, batch, disp, committed) && NotBehind(old(committed), committed)
        invariant AllCovered(points[..n], committed) && ctx.Since(ctx.fuel, old(ctx.faults), true)
      {
        ghost var before := committed;
        ok := CommitPoint(ctx, batch, disp, base, points[n]);
        if !ok {
          return;
        }
        CoveredNext(points, n, before, committed);
      }
      ok := true;
      assert points[..|points|] == points;
      AllPointsCovered(batch, disp, points, committed);
    }
  }
}
