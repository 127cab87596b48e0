/**
 * Any number of producer replicas over one shard, with no help from the run
 * lock. Steps interleave freely: inserts and commits, the clock, a replica's
 * tick, its read transaction, its two produces and its compare-and-swap, and a
 * replica stopping at any point (lock lost, error, crash).
 *
 * Time is real; the database reports whole seconds, both for created_at and for
 * the stability cutoff. The operating assumption is hold: every insert
 * transaction closes in strictly less than hold seconds.
 */
module ProducerProtocol {
  import opened Common
  import opened Contract
  import opened Chunk
  import Tick
  import Keyset

  datatype Status = Open | Committed | Aborted

  datatype Tx = Tx(row: Row, begun: real, status: Status)

  datatype Stage = ProducingMain | ProducingDLQ | Advancing

  /** Where a replica is in its tick: rows is the stable prefix it is delivering past base. */
  datatype Replica =
    | Idle
    | InTick(cutoff: int)
    | Holding(cutoff: int, base: int, rows: seq<Row>, stage: Stage)

  datatype State = State(
    now: real, txs: seq<Tx>, cursor: int, main: set<Message>, dlq: set<Envelope>, replicas: map<nat, Replica>)

  datatype Config = Config(lag: int, hold: real, batch: nat, route: Row -> Routed)

  datatype Step =
    | Insert(row: Row)
    | Commit(k: nat)
    | Abort(k: nat)
    | Pass(t: real)
    | StartTick(r: nat)
    | Read(r: nat)
    | ProduceMain(r: nat, landed: set<Message>, ok: bool)
    | ProduceDLQ(r: nat, envs: set<Envelope>, ok: bool)
    | Advance(r: nat, ok: bool)
    | Stop(r: nat)

  function At(s: State, r: nat): Replica {
    if r in s.replicas then s.replicas[r] else Idle
  }

  function Put(s: State, r: nat, x: Replica): State {
    s.(replicas := s.replicas[r := x])
  }

  /** The rows a reader sees: committed ones, in id order. */
  function Visible(txs: seq<Tx>): seq<Row> {
    if txs == [] then []
    else
      var n := |txs| - 1;
      Visible(txs[..n]) + if txs[n].status == Committed then [txs[n].row] else []
  }

  function SetOf<T>(s: seq<T>): set<T> {
    set x | x in s
  }

  /** The stable prefix of the next batch past the cursor. */
  function NextPrefix(c: Config, s: State, cutoff: int): seq<Row> {
    StablePrefix(Take(Keyset.After(Visible(s.txs), s.cursor), c.batch), cutoff)
  }

  ghost predicate Next(c: Config, s: State, step: Step, s': State) {
    match step
    case Insert(row) =>
      && row.createdUnix == s.now.Floor && row.id > 0
      && (s.txs != [] ==> row.id > s.txs[|s.txs| - 1].row.id)
      && s' == s.(txs := s.txs + [Tx(row, s.now, Open)])
    case Commit(k) =>
      k < |s.txs| && s.txs[k].status == Open && s' == s.(txs := s.txs[k := s.txs[k].(status := Committed)])
    case Abort(k) =>
      k < |s.txs| && s.txs[k].status == Open && s' == s.(txs := s.txs[k := s.txs[k].(status := Aborted)])
    case Pass(t) =>
      && t >= s.now
      && (forall k :: 0 <= k < |s.txs| && s.txs[k].status == Open ==> t - s.txs[k].begun < c.hold)
      && s' == s.(now := t)
    case StartTick(r) =>
      At(s, r).Idle? && s' == Put(s, r, InTick(s.now.Floor - c.lag))
    case Read(r) =>
      var x := At(s, r);
      && x.InTick?
      && var rows := NextPrefix(c, s, x.cutoff);
         s' == Put(s, r, if rows == [] then Idle else Holding(x.cutoff, s.cursor, rows, ProducingMain))
    case ProduceMain(r, landed, ok) =>
      var x := At(s, r);
      && x.Holding? && x.stage == ProducingMain
      && landed <= SetOf(MainOf(c.route, x.rows)) && (ok ==> landed == SetOf(MainOf(c.route, x.rows)))
      && s' == Put(s.(main := s.main + landed), r, if ok then x.(stage := ProducingDLQ) else Idle)
    case ProduceDLQ(r, envs, ok) =>
      var x := At(s, r);
      && x.Holding? && x.stage == ProducingDLQ
      && envs <= SetOf(DeadOf(c.route, x.rows)) && (ok ==> envs == SetOf(DeadOf(c.route, x.rows)))
      && s' == Put(s.(dlq := s.dlq + envs), r, if ok then x.(stage := Advancing) else Idle)
    case Advance(r, ok) =>
      var x := At(s, r);
      && x.Holding? && x.stage == Advancing && x.rows != []
      && (if s.cursor == x.base
          then s' == Put(s.(cursor := x.rows[|x.rows| - 1].id), r,
                         if ok && |x.rows| == c.batch then InTick(x.cutoff) else Idle)
          else s' == Put(s, r, Idle))
    case Stop(r) =>
      s' == Put(s, r, Idle)
  }

  const Init := State(0.0, [], 0, {}, {}, map[])

  ghost predicate IsRun(c: Config, run: seq<State>, steps: seq<Step>) {
    && |run| == |steps| + 1 && run[0] == Init
    && forall i :: 0 <= i < |steps| ==> Next(c, run[i], steps[i], run[i + 1])
  }

  ghost predicate Delivered(c: Config, s: State, row: Row) {
    match c.route(row)
    case ToMain(m) => m in s.main
    case ToDLQ(e) => e in s.dlq
  }

  /** No visible row at or below the cursor is missing from the stream its routing names. */
  ghost predicate Safe(c: Config, s: State) {
    forall k :: 0 <= k < |s.txs| && s.txs[k].status == Committed && s.txs[k].row.id <= s.cursor
      ==> Delivered(c, s, s.txs[k].row)
  }

  ghost predicate AlwaysSafe(c: Config) {
    forall run, steps :: IsRun(c, run, steps) ==>
      forall i :: 0 <= i < |run| ==> Safe(c, run[i])
  }

  // ---- the invariant ----

  ghost predicate TxsOK(c: Config, s: State) {
    && (forall j, k :: 0 <= j < k < |s.txs| ==>
          s.txs[j].row.id < s.txs[k].row.id && s.txs[j].begun <= s.txs[k].begun)
    && (forall k :: 0 <= k < |s.txs| ==>
          && s.txs[k].row.id > 0 && s.txs[k].begun <= s.now && s.txs[k].row.createdUnix == s.txs[k].begun.Floor
          && (s.txs[k].status == Open ==> s.now - s.txs[k].begun < c.hold))
  }

  /** Everything still alive at or below a watermark is committed and delivered. */
  ghost predicate Settled(c: Config, s: State) {
    forall k :: 0 <= k < |s.txs| && s.txs[k].status != Aborted && s.txs[k].row.id <= s.cursor
      ==> s.txs[k].status == Committed && Delivered(c, s, s.txs[k].row)
  }

  /** Everything still alive between base and the last row held is committed and held. */
  ghost predicate Complete(s: State, base: int, rows: seq<Row>) {
    && rows != [] && rows[|rows| - 1].id > base
    && forall k :: 0 <= k < |s.txs| && s.txs[k].status != Aborted && base < s.txs[k].row.id <= rows[|rows| - 1].id
         ==> s.txs[k].status == Committed && s.txs[k].row in rows
  }

  ghost predicate ReplicaOK(c: Config, s: State, x: Replica) {
    && (!x.Idle? ==> x.cutoff <= s.now.Floor - c.lag)
    && (x.Holding? ==>
          && Complete(s, x.base, x.rows)
          && (x.stage != ProducingMain ==> SetOf(MainOf(c.route, x.rows)) <= s.main)
          && (x.stage == Advancing ==> SetOf(DeadOf(c.route, x.rows)) <= s.dlq)
          && LastTx(s, x.rows))
  }

  /** The last held row is one of the inserted ones, so later inserts get higher ids. */
  ghost predicate LastTx(s: State, rows: seq<Row>) {
    rows != [] && exists k :: 0 <= k < |s.txs| && s.txs[k].row == rows[|rows| - 1]
  }

  ghost predicate CursorKnown(s: State) {
    s.cursor == 0 || exists k :: 0 <= k < |s.txs| && s.txs[k].row.id == s.cursor
  }

  ghost predicate Inv(c: Config, s: State) {
    && TxsOK(c, s) && Settled(c, s) && CursorKnown(s)
    && forall r :: r in s.replicas ==> ReplicaOK(c, s, s.replicas[r])
  }

  /** The assumption that makes the gate sound: one second of slack for whole-second clocks. */
  ghost predicate HoldFits(c: Config) {
    c.hold <= (c.lag - 1) as real
  }

  // ---- reading ----

  lemma {:induction false} VisibleRows(txs: seq<Tx>)
    requires forall j, k :: 0 <= j < k < |txs| ==> txs[j].row.id < txs[k].row.id
    ensures Keyset.Ascending(Visible(txs))
    ensures forall row :: row in Visible(txs) <==>
              exists k :: 0 <= k < |txs| && txs[k].status == Committed && txs[k].row == row
  {
    if txs != [] {
      var n := |txs| - 1;
      var v := Visible(txs[..n]);
      VisibleRows(txs[..n]);
      assert forall k :: 0 <= k < n ==> txs[..n][k] == txs[k];
      forall i | 0 <= i < |v| ensures v[i].id < txs[n].row.id {
        assert v[i] in v;
      }
    }
  }

  /** A read hands over every visible row from the cursor to the last row it hands over. */
  lemma PrefixHasVisible(c: Config, s: State, cutoff: int, row: Row)
    requires Keyset.Ascending(Visible(s.txs)) && NextPrefix(c, s, cutoff) != []
    ensures var rows := NextPrefix(c, s, cutoff);
            var last := rows[|rows| - 1];
            && last in Visible(s.txs) && last.createdUnix <= cutoff && last.id > s.cursor
            && (row in Visible(s.txs) && s.cursor < row.id <= last.id ==> row in rows)
  {
    var all := Visible(s.txs);
    var p := Tick.BatchIsSlice(all, s.cursor, c.batch, cutoff);
    SliceHas(all, p, |NextPrefix(c, s, cutoff)|, s.cursor, row);
  }

  lemma SliceHas(all: seq<Row>, p: nat, n: nat, cursor: int, row: Row)
    requires Keyset.Ascending(all) && Keyset.IsPlace(all, cursor, p) && 0 < n && p + n <= |all|
    ensures all[p + n - 1] in all && all[p + n - 1].id > cursor && all[p..p + n][n - 1] == all[p + n - 1]
    ensures row in all && cursor < row.id <= all[p + n - 1].id ==> row in all[p..p + n]
  {
  }

  /** What a read hands over is complete. */
  lemma ReadIsComplete(c: Config, s: State, cutoff: int)
    requires HoldFits(c) && TxsOK(c, s) && cutoff <= s.now.Floor - c.lag
    requires NextPrefix(c, s, cutoff) != []
    ensures Complete(s, s.cursor, NextPrefix(c, s, cutoff)) && LastTx(s, NextPrefix(c, s, cutoff))
  {
    VisibleRows(s.txs);
    var rows := NextPrefix(c, s, cutoff);
    var last := rows[|rows| - 1];
    PrefixHasVisible(c, s, cutoff, last);
    forall k | 0 <= k < |s.txs| && s.txs[k].status != Aborted && s.cursor < s.txs[k].row.id <= last.id
      ensures s.txs[k].status == Committed && s.txs[k].row in rows
    {
      OpenAboveStable(c, s, cutoff, k, last);
      PrefixHasVisible(c, s, cutoff, s.txs[k].row);
    }
  }

  /** No open transaction has an id at or below a row that a reader finds stable. */
  lemma OpenAboveStable(c: Config, s: State, cutoff: int, k: nat, last: Row)
    requires HoldFits(c) && TxsOK(c, s) && cutoff <= s.now.Floor - c.lag
    requires k < |s.txs| && s.txs[k].row.id <= last.id
    requires last.createdUnix <= cutoff
    requires exists l :: 0 <= l < |s.txs| && s.txs[l].status == Committed && s.txs[l].row == last
    ensures s.txs[k].status != Open
  {
  }

  // ---- preservation, step by step ----

  lemma DeliveredRow(c: Config, s: State, rows: seq<Row>, row: Row)
    requires row in rows
    requires SetOf(MainOf(c.route, rows)) <= s.main && SetOf(DeadOf(c.route, rows)) <= s.dlq
    ensures Delivered(c, s, row)
  {
  }

  lemma AdvanceKeeps(c: Config, s: State, x: Replica)
    requires Inv(c, s) && x.Holding? && x.stage == Advancing && ReplicaOK(c, s, x) && s.cursor == x.base
    ensures Settled(c, s.(cursor := x.rows[|x.rows| - 1].id))
  {
    var s' := s.(cursor := x.rows[|x.rows| - 1].id);
    forall k | 0 <= k < |s.txs| && s.txs[k].status != Aborted && s.txs[k].row.id <= s'.cursor
      ensures s.txs[k].status == Committed && Delivered(c, s', s.txs[k].row)
    {
      if s.txs[k].row.id > s.cursor {
        DeliveredRow(c, s', x.rows, s.txs[k].row);
      } else {
        assert Delivered(c, s, s.txs[k].row);
      }
    }
  }

  /** Changing the transactions keeps the invariant when nothing alive at or below a known row changes. */
  lemma TxsKeep(c: Config, s: State, s': State)
    requires Inv(c, s) && s' == s.(txs := s'.txs) && TxsOK(c, s') && |s.txs| <= |s'.txs|
    requires forall k :: 0 <= k < |s.txs| ==>
               s'.txs[k].row == s.txs[k].row && (s'.txs[k].status == s.txs[k].status || s.txs[k].status == Open)
    ensures Inv(c, s')
  {
    assert CursorKnown(s') by {
      if s.cursor != 0 {
        var k :| 0 <= k < |s.txs| && s.txs[k].row.id == s.cursor;
        assert s'.txs[k].row.id == s'.cursor;
      }
    }
    assert Settled(c, s') by {
      forall k | 0 <= k < |s'.txs| && s'.txs[k].status != Aborted && s'.txs[k].row.id <= s'.cursor
        ensures s'.txs[k].status == Committed && Delivered(c, s', s'.txs[k].row)
      {
        assert k < |s.txs|;
        assert Delivered(c, s, s.txs[k].row);
      }
    }
    forall r | r in s'.replicas ensures ReplicaOK(c, s', s'.replicas[r]) {
      var x := s.replicas[r];
      assert ReplicaOK(c, s, x);
      if x.Holding? {
        HoldingKeeps(s, s', x);
      }
    }
  }

  lemma HoldingKeeps(s: State, s': State, x: Replica)
    requires x.Holding? && Complete(s, x.base, x.rows) && LastTx(s, x.rows)
    requires |s.txs| <= |s'.txs|
    requires forall j, k :: 0 <= j < k < |s'.txs| ==> s'.txs[j].row.id < s'.txs[k].row.id
    requires forall k :: 0 <= k < |s.txs| ==>
               s'.txs[k].row == s.txs[k].row && (s'.txs[k].status == s.txs[k].status || s.txs[k].status == Open)
    ensures Complete(s', x.base, x.rows) && LastTx(s', x.rows)
  {
  }

  /** Growing the topics, moving the clock or one replica keeps what the others hold. */
  lemma OthersKeep(c: Config, s: State, s': State, x: Replica)
    requires ReplicaOK(c, s, x)
    requires s'.txs == s.txs && s.main <= s'.main && s.dlq <= s'.dlq && s.now <= s'.now
    ensures ReplicaOK(c, s', x)
  {
  }

  lemma SettledKeeps(c: Config, s: State, s': State)
    requires Settled(c, s) && s'.txs == s.txs && s'.cursor == s.cursor && s.main <= s'.main && s.dlq <= s'.dlq
    ensures Settled(c, s')
  {
  }

  lemma PutKeeps(c: Config, s: State, s': State, r: nat, x: Replica)
    requires Inv(c, s) && s'.txs == s.txs && s.main <= s'.main && s.dlq <= s'.dlq && s'.now == s.now
    requires s'.replicas == s.replicas[r := x]
    requires Settled(c, s') && CursorKnown(s') && ReplicaOK(c, s', x)
    ensures Inv(c, s')
  {
  }

  lemma ReadKeeps(c: Config, s: State, r: nat, s': State)
    requires HoldFits(c) && Inv(c, s) && Next(c, s, Read(r), s')
    ensures Inv(c, s')
  {
    var x := At(s, r);
    assert ReplicaOK(c, s, x);
    if NextPrefix(c, s, x.cutoff) != [] {
      ReadIsComplete(c, s, x.cutoff);
    }
    SettledKeeps(c, s, s');
    PutKeeps(c, s, s', r, s'.replicas[r]);
  }

  lemma AdvanceStepKeeps(c: Config, s: State, r: nat, ok: bool, s': State)
    requires Inv(c, s) && Next(c, s, Advance(r, ok), s')
    ensures Inv(c, s') && s'.cursor >= s.cursor
  {
    var x := At(s, r);
    assert ReplicaOK(c, s, x);
    if s.cursor == x.base {
      AdvanceKeeps(c, s, x);
      SettledKeeps(c, s.(cursor := s'.cursor), s');
      var l :| 0 <= l < |s.txs| && s.txs[l].row == x.rows[|x.rows| - 1];
      assert s'.txs[l].row.id == s'.cursor;
    } else {
      SettledKeeps(c, s, s');
    }
    PutKeeps(c, s, s', r, s'.replicas[r]);
  }

  lemma DeliveryKeeps(c: Config, s: State, step: Step, s': State)
    requires Inv(c, s) && Next(c, s, step, s')
    requires step.StartTick? || step.ProduceMain? || step.ProduceDLQ? || step.Stop?
    ensures Inv(c, s') && s'.cursor == s.cursor
  {
    assert ReplicaOK(c, s, At(s, step.r));
    SettledKeeps(c, s, s');
    PutKeeps(c, s, s', step.r, s'.replicas[step.r]);
  }

  lemma TimeKeeps(c: Config, s: State, t: real, s': State)
    requires Inv(c, s) && Next(c, s, Pass(t), s')
    ensures Inv(c, s')
  {
    SettledKeeps(c, s, s');
    forall r | r in s'.replicas ensures ReplicaOK(c, s', s'.replicas[r]) {
      OthersKeep(c, s, s', s.replicas[r]);
    }
  }

  lemma InsertKeeps(c: Config, s: State, row: Row, s': State)
    requires c.hold > 0.0 && Inv(c, s) && Next(c, s, Insert(row), s')
    ensures Inv(c, s')
  {
    forall j, k | 0 <= j < k < |s'.txs|
      ensures s'.txs[j].row.id < s'.txs[k].row.id && s'.txs[j].begun <= s'.txs[k].begun
    {
      if k == |s.txs| {
        assert s.txs[j].row.id <= s.txs[k - 1].row.id;
      }
    }
    TxsKeep(c, s, s');
  }

  lemma CloseKeeps(c: Config, s: State, step: Step, s': State)
    requires Inv(c, s) && Next(c, s, step, s') && (step.Commit? || step.Abort?)
    ensures Inv(c, s') && s'.cursor == s.cursor
  {
    TxsKeep(c, s, s');
  }

  lemma StepKeeps(c: Config, s: State, step: Step, s': State)
    requires HoldFits(c) && c.hold > 0.0 && Inv(c, s) && Next(c, s, step, s')
    ensures Inv(c, s') && s'.cursor >= s.cursor
  {
    match step
    case Insert(row) => InsertKeeps(c, s, row, s');
    case Commit(k) => CloseKeeps(c, s, step, s');
    case Abort(k) => CloseKeeps(c, s, step, s');
    case Pass(t) => TimeKeeps(c, s, t, s');
    case Read(r) => ReadKeeps(c, s, r, s');
    case Advance(r, ok) => AdvanceStepKeeps(c, s, r, ok, s');
    case _ => DeliveryKeeps(c, s, step, s');
  }

  // ---- the theorem ----

  lemma {:induction false} RunKeeps(c: Config, run: seq<State>, steps: seq<Step>, i: nat)
    requires HoldFits(c) && c.hold > 0.0 && IsRun(c, run, steps) && i < |run|
    ensures Inv(c, run[i])
    ensures i > 0 ==> run[i - 1].cursor <= run[i].cursor
  {
    if i > 0 {
      RunKeeps(c, run, steps, i - 1);
      StepKeeps(c, run[i - 1], steps[i - 1], run[i]);
    }
  }

  /** In every run the cursor only grows. */
  lemma {:induction false} CursorOnlyGrows(c: Config, run: seq<State>, steps: seq<Step>, i: nat, j: nat)
    requires HoldFits(c) && c.hold > 0.0 && IsRun(c, run, steps) && i <= j < |run|
    ensures run[i].cursor <= run[j].cursor
  {
    if i < j {
      CursorOnlyGrows(c, run, steps, i, j - 1);
      RunKeeps(c, run, steps, j);
    }
  }

  lemma SafeWhenHoldFits(c: Config)
    requires c.hold > 0.0 && HoldFits(c)
    ensures AlwaysSafe(c)
  {
    forall run, steps, i | IsRun(c, run, steps) && 0 <= i < |run| ensures Safe(c, run[i]) {
      RunKeeps(c, run, steps, i);
    }
  }

  // ---- the assumption is exact ----

  /** An encrypted row created in a given second. */
  function EarlyRow(id: int, messageID: string, second: int): Row {
    Row(id, messageID, id, "", "", |messageID|, true, id, second, second, [])
  }

  /**
   * Row 1 is inserted late in second 0 and stays open; row 2, inserted right
   * after it, commits, is found stable when the clock reads lag, and takes the
   * cursor past row 1, which then commits within its allowed time.
   */
  function Skipping(c: Config, t1: real, t2: real): seq<State> {
    var a, b := EarlyRow(1, "1", t1.Floor), EarlyRow(2, "2", t1.Floor);
    var cutoff := t2.Floor - c.lag;
    var s1 := Init.(now := t1);
    var s2 := s1.(txs := [Tx(a, t1, Open)]);
    var s3 := s1.(txs := [Tx(a, t1, Open), Tx(b, t1, Open)]);
    var s4 := s1.(txs := [Tx(a, t1, Open), Tx(b, t1, Committed)]);
    var s5 := s4.(now := t2);
    var s6 := Put(s5, 0, InTick(cutoff));
    var s7 := Put(s6, 0, Holding(cutoff, 0, [b], ProducingMain));
    var s8 := Put(s7.(main := SetOf(MainOf(c.route, [b]))), 0, Holding(cutoff, 0, [b], ProducingDLQ));
    var s9 := Put(s8.(dlq := SetOf(DeadOf(c.route, [b]))), 0, Holding(cutoff, 0, [b], Advancing));
    var s10 := Put(s9.(cursor := 2), 0, Idle);
    var s11 := s10.(txs := [Tx(a, t1, Committed), Tx(b, t1, Committed)]);
    [Init, s1, s2, s3, s4, s5, s6, s7, s8, s9, s10, s11]
  }

  function SkippingSteps(c: Config, t1: real, t2: real): seq<Step> {
    var a, b := EarlyRow(1, "1", t1.Floor), EarlyRow(2, "2", t1.Floor);
    [Pass(t1), Insert(a), Insert(b), Commit(1), Pass(t2), StartTick(0), Read(0),
     ProduceMain(0, SetOf(MainOf(c.route, [b])), true), ProduceDLQ(0, SetOf(DeadOf(c.route, [b])), true),
     Advance(0, false), Commit(0)]
  }

  lemma SkippingRead(c: Config, s: State, t: real, cutoff: int)
    requires c.batch > 0 && cutoff >= t.Floor && s.cursor == 0
    requires s.txs == [Tx(EarlyRow(1, "1", t.Floor), t, Open), Tx(EarlyRow(2, "2", t.Floor), t, Committed)]
    ensures NextPrefix(c, s, cutoff) == [EarlyRow(2, "2", t.Floor)]
  {
    SecondVisible(s.txs[0], s.txs[1]);
    FirstTaken(c, s, EarlyRow(2, "2", t.Floor), cutoff);
  }

  lemma SecondVisible(a: Tx, b: Tx)
    requires a.status == Open && b.status == Committed
    ensures Visible([a, b]) == [b.row]
  {
    assert [a, b][..1] == [a] && [a][..0] == [];
    assert Visible([a]) == [];
  }

  lemma FirstTaken(c: Config, s: State, row: Row, cutoff: int)
    requires c.batch > 0 && Visible(s.txs) == [row] && row.id > s.cursor && row.createdUnix <= cutoff
    ensures NextPrefix(c, s, cutoff) == [row]
  {
  }

  lemma SkippingIsRun(c: Config, t1: real, t2: real)
    requires c.batch > 0 && 0.0 <= t1 < 1.0 && t1 <= t2 && t2 - t1 < c.hold && t2.Floor >= c.lag
    ensures IsRun(c, Skipping(c, t1, t2), SkippingSteps(c, t1, t2))
  {
    var run, steps := Skipping(c, t1, t2), SkippingSteps(c, t1, t2);
    SkippingRead(c, run[6], t1, t2.Floor - c.lag);
    forall i | 0 <= i < |steps| ensures Next(c, run[i], steps[i], run[i + 1]) {
      SkippingNext(c, t1, t2, i);
    }
  }

  lemma SkippingNext(c: Config, t1: real, t2: real, i: nat)
    requires c.batch > 0 && 0.0 <= t1 < 1.0 && t1 <= t2 && t2 - t1 < c.hold && t2.Floor >= c.lag
    requires i < |SkippingSteps(c, t1, t2)|
    ensures Next(c, Skipping(c, t1, t2)[i], SkippingSteps(c, t1, t2)[i], Skipping(c, t1, t2)[i + 1])
  {
    if i < 5 {
      SkippingStarts(c, t1, t2, i);
    } else if i == 6 {
      SkippingRead(c, Skipping(c, t1, t2)[6], t1, t2.Floor - c.lag);
    } else {
      SkippingEnds(c, t1, t2, i);
    }
  }

  lemma SkippingStarts(c: Config, t1: real, t2: real, i: nat)
    requires c.batch > 0 && 0.0 <= t1 < 1.0 && t1 <= t2 && t2 - t1 < c.hold && i < 5
    ensures Next(c, Skipping(c, t1, t2)[i], SkippingSteps(c, t1, t2)[i], Skipping(c, t1, t2)[i + 1])
  {
  }

  lemma SkippingEnds(c: Config, t1: real, t2: real, i: nat)
    requires c.batch > 0 && 0.0 <= t1 < 1.0 && t1 <= t2 && t2 - t1 < c.hold && 5 <= i < 11 && i != 6
    ensures Next(c, Skipping(c, t1, t2)[i], SkippingSteps(c, t1, t2)[i], Skipping(c, t1, t2)[i + 1])
  {
  }

  /** Two rows with different ids never share a delivery. */
  lemma RoutesDiffer(lib: Lib, table: string, a: Row, b: Row)
    requires a.id != b.id && a.messageID != b.messageID
    ensures Route(lib, table, a) != Route(lib, table, b)
  {
  }

  lemma SkippingIsUnsafe(c: Config, lib: Lib, table: string, t1: real, t2: real)
    requires c.route == Router(lib, table)
    ensures !Safe(c, Skipping(c, t1, t2)[11])
  {
    var a, b := EarlyRow(1, "1", t1.Floor), EarlyRow(2, "2", t1.Floor);
    RoutesDiffer(lib, table, a, b);
    var s := Skipping(c, t1, t2)[11];
    assert s.txs[0].row == a;
    PlanStep(c.route, [b], 0);
    assert [b][..1] == [b] && [b][..0] == [];
    assert s.main == SetOf(MainOf(c.route, [b])) && s.dlq == SetOf(DeadOf(c.route, [b]));
    assert !Delivered(c, s, a);
  }

  /**
   * The lag assumption, exactly: no run of any replicas ever skips a visible
   * row if and only if inserts close at least one second faster than the lag.
   */
  lemma SafeIffHoldFits(c: Config, lib: Lib, table: string)
    requires c.batch > 0 && c.hold > 0.0 && c.route == Router(lib, table)
    ensures AlwaysSafe(c) <==> c.hold <= (c.lag - 1) as real
  {
    if HoldFits(c) {
      SafeWhenHoldFits(c);
    } else {
      var over := c.hold - (c.lag - 1) as real;
      var e := if over < 1.0 then over else 1.0;
      var t1 := 1.0 - e / 2.0;
      var t2 := if c.lag <= 0 then t1 else c.lag as real;
      SkippingIsRun(c, t1, t2);
      SkippingIsUnsafe(c, lib, table, t1, t2);
    }
  }
}
