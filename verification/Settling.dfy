/**
 * Working on one batch: pending messages settle one by one and never reopen,
 * and what was done for other messages stays done. Shared by both consumers.
 */
module Settling {
  import opened Decision
  import opened Kafka

  type Done = Fetched -> bool

  function Spot(m: Fetched): (int, int) {
    (m.partition, m.offset)
  }

  function Spots(batch: seq<Fetched>): set<(int, int)> {
    set i | 0 <= i < |batch| :: Spot(batch[i])
  }

  ghost predicate SameTopic(batch: seq<Fetched>) {
    forall i, j :: 0 <= i < j < |batch| ==> batch[i].topic == batch[j].topic
  }

  /** What was done stays done, except perhaps for the touched messages. */
  ghost predicate KeepsDone(done: Done, done': Done, touched: set<(int, int)>) {
    forall m :: done(m) && Spot(m) !in touched ==> done'(m)
  }

  /** Settled messages stay as they are. */
  ghost predicate NeverReopened(disp: seq<Disposition>, disp': seq<Disposition>) {
    |disp| == |disp'| && forall k :: 0 <= k < |disp| && disp[k] != DispTransient ==> disp'[k] == disp[k]
  }

  /** What a pass over a batch keeps. */
  ghost predicate Progress(batch: seq<Fetched>, disp: seq<Disposition>, disp': seq<Disposition>, done: Done, done': Done,
                           changed: bool)
  {
    && |disp'| == |batch| && NeverReopened(disp, disp') && KeepsDone(done, done', Spots(batch))
    && SettledAre(batch, disp', done') && (!changed ==> disp' == disp)
  }

  /** Settling message i leaves the others as they were. */
  lemma SettleOne(batch: seq<Fetched>, disp: seq<Disposition>, done: Done, done': Done, i: nat, to: Disposition)
    requires |batch| == |disp| && i < |batch| && SameTopic(batch) && DistinctOffsets(batch)
    requires SettledAre(batch, disp, done) && KeepsDone(done, done', {Spot(batch[i])})
    requires to != DispTransient ==> done'(batch[i])
    ensures SettledAre(batch, disp[i := to], done')
  {
  }

  lemma ProgressStep(batch: seq<Fetched>, disp: seq<Disposition>, disp': seq<Disposition>, done: Done, done': Done,
                     changed: bool, done'': Done, i: nat, to: Disposition)
    requires SameTopic(batch) && DistinctOffsets(batch) && Progress(batch, disp, disp', done, done', changed)
    requires i < |batch| && disp'[i] == DispTransient && KeepsDone(done', done'', {Spot(batch[i])})
    requires to != DispTransient ==> done''(batch[i])
    ensures Progress(batch, disp, disp'[i := to], done, done'', changed || to != DispTransient)
  {
  }

  lemma ProgressChain(batch: seq<Fetched>, d: seq<Disposition>, d': seq<Disposition>, d'': seq<Disposition>,
                      done: Done, done': Done, done'': Done, c: bool, c': bool)
    requires Progress(batch, d, d', done, done', c) && Progress(batch, d', d'', done', done'', c')
    ensures Progress(batch, d, d'', done, done'', c || c')
  {
  }

  /** Work outside the batch. */
  lemma ProgressElsewhere(batch: seq<Fetched>, disp: seq<Disposition>, done: Done, done': Done)
    requires |batch| == |disp| && SettledAre(batch, disp, done) && KeepsDone(done, done', {})
    ensures Progress(batch, disp, disp, done, done', false)
  {
  }

  /** After a pass: what was below the batch and what was committed still stands. */
  lemma AfterPass(log: Log, base: Marks, pos: Marks, batch: seq<Fetched>, d: seq<Disposition>, d': seq<Disposition>,
                  done: Done, done': Done, changed: bool, marks: Marks)
    requires Span(log, base, pos, batch) && |d| == |batch| && Progress(batch, d, d', done, done', changed)
    requires AllBelow(log, base, done) && CommittedAt(log, base, batch, d, marks)
    ensures AllBelow(log, base, done') && CommittedAt(log, base, batch, d', marks)
    ensures AllBelow(log, marks, done')
  {
  }

  lemma SpanTopic(log: Log, base: Marks, pos: Marks, batch: seq<Fetched>)
    requires Span(log, base, pos, batch)
    ensures SameTopic(batch)
  {
  }
}
