/**
 * internal/backfill: every row of every shard goes to the index or to the spill
 * file; the spill is synced before the checkpoint moves, so that what the durable
 * checkpoint covers is never lost.
 */
module Backfill {
  import opened Common
  import opened Decimal
  import opened Contract
  import opened Keyset
  import opened BulkWriter
  import opened EsDoc
  import opened DocEnrich
  import opened Spill

  const DEFAULT_BATCH_SIZE: nat := 1000
  const REASON_REJECTED := "permanent_es_reject"

  /**
   * What a run works on: the tables, what becomes of a row and the estimated sizes.
   * The index may answer anything; when it is fixed, it makes up its mind about each
   * document once and for all, as accepts says, and the counts below are exact.
   */
  datatype Env = Env(
    shards: map<string, seq<Row>>, load: Row -> Loaded, size: BulkWriter.Codec<Doc>, fixed: bool, accepts: Doc -> bool)

  ghost predicate Honest(env: Env, server: Server<Doc>) {
    env.fixed ==> Fair(server, env.accepts)
  }

  /** Documents that may be in the index. */
  predicate Takes(env: Env, d: Doc) {
    env.fixed ==> env.accepts(d)
  }

  ghost predicate ShardsOK(env: Env) {
    forall t {:trigger ShardOK(env, t)} :: ShardOK(env, t)
  }

  ghost predicate ShardOK(env: Env, t: string) {
    t in env.shards ==> Ascending(env.shards[t]) && forall k :: 0 <= k < |env.shards[t]| ==> env.shards[t][k].id > 0
  }

  /** A record accounts for the row: one of its message, or, without a message id, one of its table and id. */
  ghost predicate InSpill(t: string, row: Row, spilled: set<Rec>) {
    Accounts(spilled, row.messageID, t, row.id)
  }

  predicate Fits(env: Env, f: Family<Doc>) {
    EncodedDocSize(env.size, f) <= MAX_BULK_BODY_BYTES
  }

  predicate Whole(env: Env, f: Family<Doc>) {
    Accepted(env.size, env.accepts, f)
  }

  /** Rows that end up in the index; all others end up in the spill. */
  predicate RowIndexed(env: Env, row: Row) {
    env.load(row).Indexable? && Whole(env, env.load(row).fam)
  }

  /** A row that may end in the spill. */
  predicate MayDie(env: Env, row: Row) {
    env.fixed ==> !RowIndexed(env, row)
  }

  /** A table that can be read: its name is safe and it exists. */
  predicate Readable(env: Env, table: string) {
    SafeTableName(table) && table in env.shards
  }

  ghost predicate AllReadable(env: Env, tables: seq<string>) {
    forall n :: 0 <= n < |tables| ==> Readable(env, tables[n])
  }

  ghost predicate FamilyIn(f: Family<Doc>, landed: set<Doc>) {
    f.parent in landed && forall j :: 0 <= j < |f.children| ==> f.children[j] in landed
  }

  /** Where a finished row must be: in the index or in the spill. */
  ghost predicate RowDone(env: Env, t: string, row: Row, landed: set<Doc>, spilled: set<Rec>) {
    match env.load(row)
    case Spillable(_) => InSpill(t, row, spilled)
    case Indexable(f, _) =>
      && (FamilyIn(f, landed) || InSpill(t, row, spilled))
      && (env.fixed ==> FamilyDone(env, t, row, f, landed, spilled))
  }

  /** With a fixed index: a family it accepts is in it; of any other only the parent can be, if that alone is accepted. */
  ghost predicate FamilyDone(env: Env, t: string, row: Row, f: Family<Doc>, landed: set<Doc>, spilled: set<Rec>) {
    if Whole(env, f) then FamilyIn(f, landed)
    else InSpill(t, row, spilled) && (Fits(env, f) && env.accepts(f.parent) ==> f.parent in landed)
  }

  ghost predicate RowDoneAt(env: Env, t: string, k: int, landed: set<Doc>, spilled: set<Rec>) {
    t in env.shards && 0 <= k < |env.shards[t]| && RowDone(env, t, env.shards[t][k], landed, spilled)
  }

  /** Every row at or below its table's mark is done. */
  ghost predicate Covered(env: Env, marks: map<string, int>, landed: set<Doc>, spilled: set<Rec>) {
    forall t, k {:trigger RowDoneAt(env, t, k, landed, spilled)} ::
      t in env.shards && 0 <= k < |env.shards[t]| && env.shards[t][k].id <= CursorOf(marks, t) ==>
        RowDoneAt(env, t, k, landed, spilled)
  }

  ghost predicate RowOf(env: Env, t: string, row: Row) {
    t in env.shards && row in env.shards[t]
  }

  /** Only members of fitting families of the tables are in the index. */
  ghost predicate LandedOK(env: Env, landed: set<Doc>) {
    forall d {:trigger FromSomeRow(env, d)} :: d in landed ==> FromSomeRow(env, d)
  }

  ghost predicate FromSomeRow(env: Env, d: Doc) {
    exists t, row :: RowOf(env, t, row) && LandsFrom(env, row, d)
  }

  ghost predicate LandsFrom(env: Env, row: Row, d: Doc) {
    && env.load(row).Indexable? && Fits(env, env.load(row).fam) && Takes(env, d)
    && (d == env.load(row).fam.parent || d in env.load(row).fam.children)
  }

  /** Only rows of the tables are in the spill, each under its own key and time. */
  ghost predicate RecsOK(env: Env, recs: seq<Rec>) {
    forall n {:trigger OfSomeRow(env, recs[n])} :: 0 <= n < |recs| ==> OfSomeRow(env, recs[n])
  }

  ghost predicate OfSomeRow(env: Env, r: Rec) {
    exists t, row :: RowOf(env, t, row) && RecordOf(env, t, row, r)
  }

  ghost predicate RecordOf(env: Env, t: string, row: Row, r: Rec) {
    && MayDie(env, row) && r.table == t && r.id == row.id && r.messageID == row.messageID
    && r.payload == row.payload && r.createdAt == row.createdUnix && r.reason == DeadFor(env, row)
  }

  /** Why a row is dead: what stopped its conversion, or the refusal of the index. */
  function DeadFor(env: Env, row: Row): string {
    match env.load(row)
    case Spillable(reason) => if reason == "" then "backfill_payload_unparseable" else reason
    case Indexable(_, _) => "permanent_es_reject"
  }

  lemma CoveredGrows(env: Env, marks: map<string, int>, landed: set<Doc>, spilled: set<Rec>, landed': set<Doc>,
                     spilled': set<Rec>)
    requires Covered(env, marks, landed, spilled) && landed <= landed' && spilled <= spilled'
    ensures Covered(env, marks, landed', spilled')
  {
    forall t, k | t in env.shards && 0 <= k < |env.shards[t]| && env.shards[t][k].id <= CursorOf(marks, t)
      ensures RowDoneAt(env, t, k, landed', spilled')
    {
      assert RowDoneAt(env, t, k, landed, spilled);
    }
  }

  lemma SpillGrows(recs: seq<Rec>, recs': seq<Rec>)
    requires recs <= recs'
    ensures RecsIn(recs) <= RecsIn(recs')
  {
    forall n | 0 <= n < |recs| ensures recs[n] in RecsIn(recs') {
      assert recs'[n] == recs[n];
    }
  }

  // ---- the index ----

  class Index {
    const env: Env
    const server: Server<Doc>
    var calls: nat
    ghost var landed: set<Doc>
    /** How many requests there were, and how many of them have left a document to be sent again. */
    ghost var requests: nat
    ghost var openRequests: nat

    constructor (env: Env, server: Server<Doc>)
      ensures this.env == env && this.server == server && landed == {}
    {
      this.env, this.server, calls, landed, requests, openRequests := env, server, 0, {}, 0, 0;
    }

    /**
     * The bulk writer against the server. What is acknowledged is in the index; of
     * what is sent, more may be there, since replies get lost.
     */
    method BulkDocs(docs: seq<Family<Doc>>) returns (out: seq<BulkItemResult>, err: bool)
      requires Honest(env, server)
      modifies this
      ensures |out| == |docs|
      ensures old(landed) <= landed && landed <= old(landed) + Landable(env, docs)
      ensures forall i :: 0 <= i < |docs| ==> Verdict(env, docs[i], out[i], landed)
      ensures requests == old(requests) + 1
      ensures openRequests == old(openRequests) + if err || LeavesOpen(out) then 1 else 0
    {
      ghost var cuts;
      out, err, cuts := BulkWriter.BulkDocs(env.size, docs, server, calls);
      calls, requests := calls + |docs|, requests + 1;
      openRequests := openRequests + if err || LeavesOpen(out) then 1 else 0;
      ghost var lost: set<Doc> := *;
      landed := landed + (set d | d in Landable(env, docs) && (d in lost || Acknowledged(server, d)));
      forall i | 0 <= i < |docs| ensures Verdict(env, docs[i], out[i], landed) {
        if env.fixed {
          FairVerdict(env.size, docs, server, old(calls), cuts, out, env.accepts, i);
        }
        OkMeansAcknowledged(env.size, docs, server, old(calls), cuts, out, i);
        MembersLandable(env, docs, i);
      }
    }
  }

  ghost predicate LeavesOpen(results: seq<BulkItemResult>) {
    exists i :: 0 <= i < |results| && RetryLater(results[i])
  }

  /** What a result tells about its family. */
  ghost predicate Verdict(env: Env, f: Family<Doc>, res: BulkItemResult, landed: set<Doc>) {
    && (res.ok ==> FamilyIn(f, landed))
    && (env.fixed ==> FixedVerdict(env, f, res, landed))
  }

  ghost predicate FixedVerdict(env: Env, f: Family<Doc>, res: BulkItemResult, landed: set<Doc>) {
    && (res.ok ==> Whole(env, f))
    && (res.Permanent() ==> !res.ok && !Whole(env, f))
    && (res.Permanent() && Fits(env, f) && env.accepts(f.parent) ==> f.parent in landed)
  }

  /** The members of the families that are sent, as far as the index can take them. */
  ghost function Landable(env: Env, docs: seq<Family<Doc>>): set<Doc> {
    set i, d | 0 <= i < |docs| && Fits(env, docs[i]) && Takes(env, d) && d in [docs[i].parent] + docs[i].children :: d
  }

  lemma MembersLandable(env: Env, docs: seq<Family<Doc>>, i: nat)
    requires i < |docs|
    ensures Fits(env, docs[i]) && Takes(env, docs[i].parent) ==> docs[i].parent in Landable(env, docs)
    ensures forall j :: 0 <= j < |docs[i].children| && Fits(env, docs[i]) && Takes(env, docs[i].children[j]) ==>
              docs[i].children[j] in Landable(env, docs)
  {
  }

  // ---- the checkpoint ----

  ghost predicate NoHigher(a: map<string, int>, b: map<string, int>) {
    forall t :: CursorOf(a, t) <= CursorOf(b, t)
  }

  /**
   * internal/backfill/checkpoint.go. written is the file as it stands; after a crash
   * it may revert to older, the last one whose directory entry was synced.
   */
  class CheckpointStore {
    var lastID: map<string, int>
    var written: map<string, int>
    var older: map<string, int>

    ghost predicate Valid() reads this {
      NoHigher(older, written)
    }

    /** A fresh process loads the file, whichever version survived. */
    method Open()
      requires Valid()
      modifies this
      ensures Valid() && lastID == written == older && NoHigher(written, old(written))
    {
      var reverted := *;
      if reverted {
        written := older;
      }
      lastID, older := written, written;
    }

    function Get(table: string): int reads this {
      CursorOf(lastID, table)
    }

    /** Advance: only forward; when it cannot be persisted, memory rolls back though the file may have changed. */
    method Advance(ctx: Context, table: string, newID: int) returns (ok: bool)
      requires Valid() && lastID == written
      modifies this, ctx`faults
      ensures ctx.Since(ctx.fuel, old(ctx.faults), ok)
      ensures Valid() && (ok ==> lastID == written)
      ensures written == old(written) || (newID > CursorOf(old(lastID), table) && written == old(written)[table := newID])
      ensures ok ==> Get(table) == if newID > CursorOf(old(lastID), table) then newID else CursorOf(old(lastID), table)
      ensures !ok ==> lastID == old(lastID) || forall t :: CursorOf(lastID, t) == CursorOf(old(lastID), t)
    {
      if newID <= CursorOf(lastID, table) {
        return true;
      }
      var prev := CursorOf(lastID, table);
      lastID := lastID[table := newID];
      ok := Persist(ctx);
      if !ok {
        lastID := lastID[table := prev];
      }
    }

    /** persistLocked: may fail before the rename, or after it with the directory not yet synced. */
    method Persist(ctx: Context) returns (ok: bool)
      requires NoHigher(older, written) && NoHigher(written, lastID)
      modifies this`written, this`older, ctx`faults
      ensures ctx.Since(ctx.fuel, old(ctx.faults), ok)
      ensures Valid() && (written == old(written) || written == lastID)
      ensures ok ==> written == older == lastID
    {
      ok := ctx.Try();
      var renamed := *;
      if ok || renamed {
        written := lastID;
      }
      if ok {
        older := lastID;
      }
    }
  }

  // ---- the runner ----

  datatype Stats = Stats(read: int, indexed: int, rawExcluded: int, dlq: int, dlqPayload: int, dlqPermanent: int)

  /** Between two readings of the counters: every row counted once, dead ones also by their cause. */
  predicate Balanced(s: Stats, s': Stats) {
    && s'.read - s.read == (s'.indexed - s.indexed) + (s'.dlq - s.dlq)
    && s'.dlq - s.dlq == (s'.dlqPayload - s.dlqPayload) + (s'.dlqPermanent - s.dlqPermanent)
  }

  datatype MainItem = MainItem(row: Row, fam: Family<Doc>)

  /** How many rows of a run belong in the index. */
  function CountIndexed(env: Env, rows: seq<Row>): nat {
    if rows == [] then 0
    else CountIndexed(env, rows[..|rows| - 1]) + if RowIndexed(env, rows[|rows| - 1]) then 1 else 0
  }

  function CountWhole(env: Env, items: seq<MainItem>): nat {
    if items == [] then 0
    else CountWhole(env, items[..|items| - 1]) + if Whole(env, items[|items| - 1].fam) then 1 else 0
  }

  /** How many rows of a run become documents without a searchable body. */
  function CountRaw(env: Env, rows: seq<Row>): nat {
    if rows == [] then 0
    else
      var last := env.load(rows[|rows| - 1]);
      CountRaw(env, rows[..|rows| - 1]) + if last.Indexable? && last.rawExcluded then 1 else 0
  }

  lemma {:induction false} CountIndexedAppend(env: Env, a: seq<Row>, b: seq<Row>)
    ensures CountIndexed(env, a + b) == CountIndexed(env, a) + CountIndexed(env, b)
    ensures CountRaw(env, a + b) == CountRaw(env, a) + CountRaw(env, b)
  {
    if b == [] {
      assert a + b == a;
    } else {
      assert (a + b)[..|a + b| - 1] == a + b[..|b| - 1];
      CountIndexedAppend(env, a, b[..|b| - 1]);
    }
  }

  ghost predicate ItemsOf(env: Env, t: string, items: seq<MainItem>) {
    forall n :: 0 <= n < |items| ==> ItemOf(env, t, items[n])
  }

  ghost predicate ItemOf(env: Env, t: string, item: MainItem) {
    RowOf(env, t, item.row) && env.load(item.row).Indexable? && env.load(item.row).fam == item.fam
  }

  class Runner {
    const env: Env
    const index: Index
    const cp: CheckpointStore
    const spill: DLQSpill
    const ctx: Context
    const batchSize: nat

    constructor (env: Env, index: Index, cp: CheckpointStore, spill: DLQSpill, ctx: Context, batchSize: int)
      ensures this.env == env && this.index == index && this.cp == cp && this.spill == spill && this.ctx == ctx
      ensures this.batchSize == if batchSize <= 0 then DEFAULT_BATCH_SIZE else batchSize
    {
      this.env, this.index, this.cp, this.spill, this.ctx := env, index, cp, spill, ctx;
      this.batchSize := if batchSize <= 0 then DEFAULT_BATCH_SIZE else batchSize;
    }

    ghost predicate Consistent() reads index, spill, spill.disk {
      && spill.Valid() && index.env == env && Honest(env, index.server)
      && LandedOK(env, index.landed) && RecsOK(env, spill.recs)
    }

    ghost predicate Ready() reads index, spill, spill.disk {
      Consistent() && spill.open && !spill.torn
    }

    ghost function Done(t: string, row: Row): bool reads index, spill {
      RowDone(env, t, row, index.landed, RecsIn(spill.recs))
    }

    /** One dead row into the spill. */
    method Spill(table: string, row: Row, reason: string) returns (ok: bool)
      requires Ready() && RowOf(env, table, row) && MayDie(env, row) && ReasonOr(reason) == DeadFor(env, row)
      modifies spill, spill.disk, ctx`faults
      ensures ctx.Since(ctx.fuel, old(ctx.faults), ok)
      ensures Consistent() && spill.open && (ok ==> Ready() && InSpill(table, row, RecsIn(spill.recs)))
      ensures spill.disk.safe == old(spill.disk.safe) && RecsIn(old(spill.recs)) <= RecsIn(spill.recs)
    {
      var now := *;
      var rec := Rec(reason, table, row.id, row.messageID, row.payload, row.createdUnix, 0);
      ghost var before := spill.recs;
      ok := spill.Write(ctx, rec, now);
      SpillGrows(before, spill.recs);
      RecsNext(env, table, row, before, Stamped(rec, now));
    }

    /** The inner loop of writeMain: read the results of one request, keep what must be retried. */
    method Settle(table: string, remaining: seq<MainItem>, results: seq<BulkItemResult>, s0: Stats)
      returns (ok: bool, next: seq<MainItem>, s: Stats)
      requires Ready() && ItemsOf(env, table, remaining) && |results| == |remaining|
      requires forall i :: 0 <= i < |remaining| ==> Verdict(env, remaining[i].fam, results[i], index.landed)
      modifies spill, spill.disk, ctx`faults
      ensures ctx.Since(ctx.fuel, old(ctx.faults), ok) && (ok && next != [] ==> LeavesOpen(results))
      ensures Consistent() && spill.open && spill.disk.safe == old(spill.disk.safe)
      ensures RecsIn(old(spill.recs)) <= RecsIn(spill.recs)
      ensures ok ==> Ready() && Retried(table, remaining, next)
      ensures ok ==> Counted(s0, s, remaining, next)
    {
      next, s := [], s0;
      for i := 0 to |results|
        invariant Ready() && spill.disk.safe == old(spill.disk.safe) && RecsIn(old(spill.recs)) <= RecsIn(spill.recs)
        invariant Retried(table, remaining[..i], next) && Counted(s0, s, remaining[..i], next)
        invariant ctx.Since(ctx.fuel, old(ctx.faults), true) && (next != [] ==> LeavesOpen(results))
      {
        assert remaining[..i + 1] == remaining[..i] + [remaining[i]];
        ghost var spilled, wasNext, was := RecsIn(spill.recs), next, s;
        assert ItemOf(env, table, remaining[i]) && Verdict(env, remaining[i].fam, results[i], index.landed);
        var again;
        ok, again, s := SettleOne(table, remaining[i], results[i], s);
        if !ok {
          return;
        }
        if again {
          next := next + [remaining[i]];
        }
        RetriedNext(env, table, remaining[..i], wasNext, remaining[i], next, index.landed, spilled, RecsIn(spill.recs));
        CountedNext(env, s0, was, s, remaining[..i], wasNext, remaining[i], next);
      }
      assert remaining[..|results|] == remaining;
      ok := true;
    }

    /** One result read: indexed, dead, or to be tried again. */
    method SettleOne(table: string, item: MainItem, res: BulkItemResult, s0: Stats)
      returns (ok: bool, again: bool, s: Stats)
      requires Ready() && ItemOf(env, table, item) && Verdict(env, item.fam, res, index.landed)
      modifies spill, spill.disk, ctx`faults
      ensures ctx.Since(ctx.fuel, old(ctx.faults), ok) && (again ==> RetryLater(res))
      ensures Consistent() && spill.open && spill.disk.safe == old(spill.disk.safe)
      ensures RecsIn(old(spill.recs)) <= RecsIn(spill.recs)
      ensures ok ==> Ready() && (again || Done(table, item.row))
      ensures ok ==> if again then s == s0 else OneMore(env, s0, s, item)
    {
      ok, again, s := true, false, s0;
      if res.ok {
        s := s0.(indexed := s0.indexed + 1);
      } else if res.Permanent() {
        ok := Spill(table, item.row, REASON_REJECTED);
        s := s0.(dlq := s0.dlq + 1, dlqPermanent := s0.dlqPermanent + 1);
      } else {
        again := true;
      }
    }

    /**
     * writeMain: until every item is indexed or dead. Batch-level failures retry the
     * whole rest; another request is made only after one that left something open.
     */
    method WriteMain(table: string, main: seq<MainItem>, s0: Stats) returns (ok: bool, s: Stats)
      requires Ready() && ItemsOf(env, table, main)
      modifies index, spill, spill.disk, ctx
      ensures Consistent() && spill.open && spill.disk.safe == old(spill.disk.safe)
      ensures RecsIn(old(spill.recs)) <= RecsIn(spill.recs)
      ensures old(index.landed) <= index.landed && ctx.Since(old(ctx.fuel), old(ctx.faults), ok)
      ensures Asked(old(index.requests), old(index.openRequests))
      ensures ok ==> Ready() && Retried(table, main, []) && Counted(s0, s, main, [])
    {
      s := s0;
      var remaining := main;
      while |remaining| > 0
        invariant Ready() && spill.disk.safe == old(spill.disk.safe) && RecsIn(old(spill.recs)) <= RecsIn(spill.recs)
        invariant old(index.landed) <= index.landed && ctx.Since(old(ctx.fuel), old(ctx.faults), true)
        invariant Asked(old(index.requests), old(index.openRequests))
        invariant remaining != [] ==> index.requests - old(index.requests) <= index.openRequests - old(index.openRequests)
        invariant Retried(table, main, remaining) && Counted(s0, s, main, remaining)
        decreases ctx.fuel
      {
        var stop := ctx.Err();
        if stop {
          return false, s;
        }
        ghost var left, was, landed, spilled := remaining, s, index.landed, RecsIn(spill.recs);
        ok, remaining, s := SendOnce(table, remaining, s);
        if !ok {
          return;
        }
        RetriedChain(env, table, main, left, remaining, landed, spilled, index.landed, RecsIn(spill.recs));
        CountedChain(env, s0, was, s, main, left, remaining);
      }
      ok := true;
    }

    /** At most one more request than those that left something open. */
    ghost predicate Asked(requests: nat, openRequests: nat) reads index {
      openRequests <= index.openRequests && index.requests - requests <= index.openRequests - openRequests + 1
    }

    /** One attempt of writeMain at what remains. */
    method SendOnce(table: string, remaining: seq<MainItem>, s0: Stats) returns (ok: bool, next: seq<MainItem>, s: Stats)
      requires Ready() && ItemsOf(env, table, remaining)
      modifies index, spill, spill.disk, ctx`faults
      ensures ctx.Since(ctx.fuel, old(ctx.faults), ok) && index.requests == old(index.requests) + 1
      ensures old(index.openRequests) + (if ok && next != [] then 1 else 0) <= index.openRequests
      ensures Consistent() && spill.open && spill.disk.safe == old(spill.disk.safe)
      ensures RecsIn(old(spill.recs)) <= RecsIn(spill.recs)
      ensures old(index.landed) <= index.landed
      ensures ok ==> Ready() && Retried(table, remaining, next) && Counted(s0, s, remaining, next)
    {
      var docs := seq(|remaining|, i requires 0 <= i < |remaining| => remaining[i].fam);
      ghost var landed := index.landed;
      var results, err := index.BulkDocs(docs);
      LandedNext(env, table, remaining, docs, landed, index.landed);
      if err {
        return true, remaining, s0;
      }
      ok, next, s := Settle(table, remaining, results, s0);
    }

    /** processBatch: dead rows to the spill, the others to the index. */
    method ProcessBatch(table: string, rows: seq<Row>, s0: Stats) returns (ok: bool, s: Stats)
      requires Ready() && forall h :: 0 <= h < |rows| ==> RowOf(env, table, rows[h])
      modifies index, spill, spill.disk, ctx
      ensures ctx.Since(old(ctx.fuel), old(ctx.faults), ok) && Asked(old(index.requests), old(index.openRequests))
      ensures Consistent() && spill.open && spill.disk.safe == old(spill.disk.safe)
      ensures RecsIn(old(spill.recs)) <= RecsIn(spill.recs)
      ensures old(index.landed) <= index.landed
      ensures ok ==> Ready() && RowsDone(env, table, rows, index.landed, RecsIn(spill.recs))
      ensures ok ==> FullCount(env, rows, s0, s)
    {
      var main;
      ok, main, s := Load(table, rows, s0);
      if !ok {
        return;
      }
      ghost var recs := spill.recs;
      ok, s := WriteMain(table, main, s);
      if ok {
        LoadedDone(env, table, rows, main, index.landed, RecsIn(recs), RecsIn(spill.recs));
      }
    }

    /** The first loop of processBatch. */
    method Load(table: string, rows: seq<Row>, s0: Stats) returns (ok: bool, main: seq<MainItem>, s: Stats)
      requires Ready() && forall h :: 0 <= h < |rows| ==> RowOf(env, table, rows[h])
      modifies spill, spill.disk, ctx`faults
      ensures ctx.Since(ctx.fuel, old(ctx.faults), ok)
      ensures Consistent() && spill.open && spill.disk.safe == old(spill.disk.safe)
      ensures RecsIn(old(spill.recs)) <= RecsIn(spill.recs)
      ensures ok ==> Ready() && AllLoaded(env, table, rows, main, RecsIn(spill.recs))
      ensures ok ==> LoadCounted(env, s0, s, |rows|, rows, main)
    {
      s, main := s0.(read := s0.read + |rows|), [];
      for i := 0 to |rows|
        invariant Ready() && spill.disk.safe == old(spill.disk.safe) && RecsIn(old(spill.recs)) <= RecsIn(spill.recs)
        invariant AllLoaded(env, table, rows[..i], main, RecsIn(spill.recs))
        invariant LoadCounted(env, s0, s, |rows|, rows[..i], main) && ctx.faults == old(ctx.faults)
      {
        ghost var was, wasMain, recs := s, main, spill.recs;
        ok, main, s := LoadOne(table, rows[i], main, s);
        if !ok {
          return;
        }
        LoadedNext(env, table, rows, i, wasMain, main, RecsIn(recs), RecsIn(spill.recs), s0, was, s);
      }
      assert rows[..|rows|] == rows;
      ok := true;
    }

    /** One row: to the spill, or to what is to be sent. */
    method LoadOne(table: string, row: Row, main: seq<MainItem>, s: Stats)
      returns (ok: bool, main': seq<MainItem>, s': Stats)
      requires Ready() && RowOf(env, table, row)
      modifies spill, spill.disk, ctx`faults
      ensures ctx.Since(ctx.fuel, old(ctx.faults), ok)
      ensures Consistent() && spill.open && spill.disk.safe == old(spill.disk.safe)
      ensures RecsIn(old(spill.recs)) <= RecsIn(spill.recs)
      ensures ok ==> Ready() && LoadedOne(env, table, row, main, main', s, s', RecsIn(spill.recs))
    {
      ok, main', s' := true, main, s;
      match env.load(row) {
        case Spillable(reason) =>
          ok := Spill(table, row, reason);
          s' := s.(dlq := s.dlq + 1, dlqPayload := s.dlqPayload + 1);
        case Indexable(fam, rawExcluded) =>
          s' := s.(rawExcluded := s.rawExcluded + if rawExcluded then 1 else 0);
          main' := main + [MainItem(row, fam)];
      }
    }

    /** The durable state: all that the checkpoint file covers is in the index or in the safe part of the spill. */
    ghost predicate Durable() reads cp, index, spill.disk {
      cp.Valid() && Covered(env, cp.written, index.landed, RecsIn(spill.disk.safe))
    }

    /** One turn of runTable, from place from of the table. */
    method RunBatch(table: string, after: int, s0: Stats, ghost from: nat)
      returns (ok: bool, more: bool, last: int, s: Stats, ghost to: nat)
      requires Ready() && Durable() && ShardsOK(env) && cp.lastID == cp.written && after == cp.Get(table)
      requires batchSize > 0 && (table in env.shards ==> IsPlace(env.shards[table], after, from))
      modifies index, spill, spill.disk, ctx, cp
      ensures Consistent() && spill.open && Durable() && NoHigher(old(cp.written), cp.written)
      ensures Went(table, old(ctx.fuel), old(ctx.faults), ok)
      ensures ok ==> Ready() && cp.lastID == cp.written && last == cp.Get(table)
      ensures ok ==> Moved(env, table, more, last, from, to, s0, s)
    {
      more, s, last, to := false, s0, after, from;
      var rows;
      ok, rows := ReadBatch(table, after, from);
      assert Ready() && Durable();
      if ok {
        if |rows| > 0 {
          more, last, to := true, rows[|rows| - 1].id, from + |rows|;
          ok, s := Turn(table, rows, s0, from);
        } else {
          MovedNone(env, table, after, from, s0);
        }
      }
    }

    /** All went well, or there was a fault outside, or the table cannot be read. */
    ghost predicate Went(table: string, fuel0: nat, faults0: nat, ok: bool) reads ctx {
      ctx.Since(fuel0, faults0, ok) || (!ok && !Readable(env, table) && ctx.Since(fuel0, faults0, true))
    }

    /** A turn with rows to do: wait for the rate limit, process them, then make it durable. */
    method Turn(table: string, rows: seq<Row>, s0: Stats, ghost from: nat) returns (ok: bool, s: Stats)
      requires Ready() && Durable() && ShardsOK(env) && cp.lastID == cp.written
      requires NextRows(env, table, from, rows) && rows != [] && IsPlace(env.shards[table], cp.Get(table), from)
      modifies index, spill, spill.disk, ctx, cp
      ensures Consistent() && spill.open && Durable() && NoHigher(old(cp.written), cp.written)
      ensures ctx.Since(old(ctx.fuel), old(ctx.faults), ok)
      ensures ok ==> Ready() && cp.lastID == cp.written && cp.Get(table) == rows[|rows| - 1].id
      ensures ok ==> Moved(env, table, true, rows[|rows| - 1].id, from, from + |rows|, s0, s)
    {
      s := s0;
      ok := ctx.Try();
      if ok {
        ok, s := ProcessAndSecure(table, rows, s0, from);
      }
      if ok {
        MovedOver(env, table, from, rows, s0, s);
      }
    }

    method ProcessAndSecure(table: string, rows: seq<Row>, s0: Stats, ghost from: nat) returns (ok: bool, s: Stats)
      requires Ready() && Durable() && ShardsOK(env) && cp.lastID == cp.written
      requires NextRows(env, table, from, rows) && rows != [] && IsPlace(env.shards[table], cp.Get(table), from)
      modifies index, spill, spill.disk, ctx, cp
      ensures Consistent() && spill.open && Durable() && NoHigher(old(cp.written), cp.written)
      ensures ctx.Since(old(ctx.fuel), old(ctx.faults), ok)
      ensures ok ==> Ready() && cp.lastID == cp.written && cp.Get(table) == rows[|rows| - 1].id
      ensures ok ==> FullCount(env, rows, s0, s)
    {
      ghost var landed, safe := index.landed, spill.disk.safe;
      ok, s := ProcessBatch(table, rows, s0);
      CoveredGrows(env, cp.written, landed, RecsIn(safe), index.landed, RecsIn(safe));
      assert Durable();
      if ok {
        ok := Secure(table, rows, from);
      }
    }

    /** The end of a turn: the spill synced first, the checkpoint moved after. */
    method Secure(table: string, rows: seq<Row>, ghost from: nat) returns (ok: bool)
      requires Ready() && Durable() && ShardsOK(env) && cp.lastID == cp.written
      requires NextRows(env, table, from, rows) && rows != [] && IsPlace(env.shards[table], cp.Get(table), from)
      requires RowsDone(env, table, rows, index.landed, RecsIn(spill.recs))
      modifies spill, spill.disk, cp, ctx`faults
      ensures ctx.Since(ctx.fuel, old(ctx.faults), ok)
      ensures Ready() && Durable() && NoHigher(old(cp.written), cp.written)
      ensures ok ==> cp.lastID == cp.written && cp.Get(table) == rows[|rows| - 1].id
    {
      ok := SyncSpill();
      if ok {
        CoverNext(env, cp.written, table, from, from + |rows|, rows, index.landed, RecsIn(spill.recs));
        NextRow(env, table, from, from + |rows|);
        ok := MoveMark(table, rows[|rows| - 1].id);
      }
    }

    /** The checkpoint moved to a mark up to which all is safe. */
    method MoveMark(table: string, last: int) returns (ok: bool)
      requires Durable() && cp.lastID == cp.written && last > cp.Get(table)
      requires Covered(env, cp.written[table := last], index.landed, RecsIn(spill.disk.safe))
      modifies cp, ctx`faults
      ensures ctx.Since(ctx.fuel, old(ctx.faults), ok) && Durable() && NoHigher(old(cp.written), cp.written)
      ensures ok ==> cp.lastID == cp.written && cp.Get(table) == last
    {
      ok := cp.Advance(ctx, table, last);
    }

    /** The spill synced: all of it safe, or the durable state as it was. */
    method SyncSpill() returns (ok: bool)
      requires Ready() && Durable()
      modifies spill`syncedLen, spill.disk, ctx`faults
      ensures ctx.Since(ctx.fuel, old(ctx.faults), ok)
      ensures Ready() && Durable() && (ok ==> spill.disk.safe == spill.recs)
    {
      ghost var safe := spill.disk.safe;
      ok := spill.Sync(ctx);
      SpillGrows(safe, spill.recs);
      CoveredGrows(env, cp.written, index.landed, RecsIn(safe), index.landed, RecsIn(spill.disk.safe));
    }

    /** The next rows of a table in id order, at most a batch; none only at its end. */
    method ReadBatch(table: string, after: int, ghost from: nat) returns (ok: bool, rows: seq<Row>)
      requires ShardsOK(env) && (table in env.shards ==> IsPlace(env.shards[table], after, from)) && batchSize > 0
      modifies ctx`faults
      ensures Went(table, ctx.fuel, old(ctx.faults), ok)
      ensures ok ==> NextRows(env, table, from, rows) && |rows| <= batchSize
      ensures ok ==> |rows| == batchSize || from + |rows| == |env.shards[table]|
    {
      ok := SafeTableName(table) && table in env.shards;
      if ok {
        ok := ctx.Try();
      }
      if !ok {
        return false, [];
      }
      assert ShardOK(env, table);
      AfterAt(env.shards[table], after, from);
      rows := Take(After(env.shards[table], after), batchSize);
    }

    /**
     * runTable: from the checkpoint to the end of the table. However it ends, the
     * durable state covers; when it ends well, every row was counted in its class. It
     * ends badly only for a fault outside or a table that cannot be read.
     */
    method RunTable(table: string, s0: Stats) returns (ok: bool, s: Stats, ghost start: nat)
      requires Ready() && Durable() && ShardsOK(env) && cp.lastID == cp.written && batchSize > 0
      modifies index, spill, spill.disk, ctx, cp
      ensures Consistent() && spill.open && Durable() && NoHigher(old(cp.written), cp.written)
      ensures Went(table, old(ctx.fuel), old(ctx.faults), ok)
      ensures ok ==> Ready() && cp.lastID == cp.written && AtEnd(env, table, cp.written)
      ensures ok ==> Position(env, table, old(cp.Get(table)), start, cp.Get(table), |env.shards[table]|, s0, s)
    {
      s := s0;
      var first := cp.Get(table);
      var after := first;
      start := PositionStart(env, table, first, s);
      ghost var place := start;
      while true
        invariant Ready() && Durable() && cp.lastID == cp.written && after == cp.Get(table)
        invariant NoHigher(old(cp.written), cp.written) && ctx.Since(old(ctx.fuel), old(ctx.faults), true)
        invariant Position(env, table, first, start, after, place, s0, s)
        decreases Remainder(env, table, place)
      {
        var stop := ctx.Err();
        if stop {
          return false, s, start;
        }
        ghost var was, from := s, place;
        var more;
        ok, more, after, s, place := RunBatch(table, after, s, from);
        if !ok || !more {
          return;
        }
        PositionNext(env, table, first, start, after, from, place, s0, was, s);
      }
    }

    /** Run: the tables one after the other. */
    method Run(tables: seq<string>, s0: Stats) returns (ok: bool, total: Stats)
      requires Ready() && Durable() && ShardsOK(env) && cp.lastID == cp.written && batchSize > 0
      modifies index, spill, spill.disk, ctx, cp
      ensures Consistent() && spill.open && Durable()
      ensures old(ctx.faults) <= ctx.faults && (ok || ctx.faults > old(ctx.faults) || !AllReadable(env, tables))
      ensures ok ==> AllAtEnd(env, tables, |tables|, cp.written) && Balanced(s0, total)
    {
      total := s0;
      var started := ctx.Try();
      if !started {
        return false, total;
      }
      for i := 0 to |tables|
        invariant Ready() && Durable() && cp.lastID == cp.written && Balanced(s0, total)
        invariant ctx.faults == old(ctx.faults)
        invariant AllAtEnd(env, tables, i, cp.written)
      {
        ghost var marks, was, start := cp.written, total, 0;
        ok, total, start := RunTable(tables[i], total);
        if !ok {
          assert Went(tables[i], ctx.fuel, old(ctx.faults), false);
          return;
        }
        StillAtEnd(env, tables, i, marks, cp.written);
      }
      ok := true;
    }

    /** What is not done is retried, and nothing else. */
    ghost predicate Retried(table: string, items: seq<MainItem>, next: seq<MainItem>) reads index, spill {
      AllRetried(env, table, items, next, index.landed, RecsIn(spill.recs))
    }

    ghost predicate Counted(s: Stats, s': Stats, items: seq<MainItem>, next: seq<MainItem>) {
      AllCounted(env, s, s', items, next)
    }
  }

  /** Marks that only rise keep finished tables finished. */
  lemma StillAtEnd(env: Env, tables: seq<string>, i: nat, marks: map<string, int>, marks': map<string, int>)
    requires NoHigher(marks, marks') && i < |tables| && AllAtEnd(env, tables, i, marks) && AtEnd(env, tables[i], marks')
    ensures AllAtEnd(env, tables, i + 1, marks')
  {
  }

  /** The marks have passed every row of the first tables. */
  ghost predicate AllAtEnd(env: Env, tables: seq<string>, n: nat, marks: map<string, int>) {
    forall i :: 0 <= i < n && i < |tables| ==> AtEnd(env, tables[i], marks)
  }

  ghost predicate AllRetried(env: Env, t: string, items: seq<MainItem>, next: seq<MainItem>, landed: set<Doc>,
                             spilled: set<Rec>)
  {
    && ItemsOf(env, t, next)
    && forall i :: 0 <= i < |items| ==> items[i] in next || RowDone(env, t, items[i].row, landed, spilled)
  }

  /** Between items and what is left of them: the accepted ones were counted as indexed, the others as dead. */
  ghost predicate AllCounted(env: Env, s: Stats, s': Stats, items: seq<MainItem>, next: seq<MainItem>) {
    && (env.fixed ==> s'.indexed - s.indexed + CountWhole(env, next) == CountWhole(env, items))
    && (s'.indexed - s.indexed) + (s'.dlq - s.dlq) + |next| == |items|
    && s'.dlq - s.dlq == s'.dlqPermanent - s.dlqPermanent && s'.read == s.read && s'.dlqPayload == s.dlqPayload
    && s'.rawExcluded == s.rawExcluded
  }

  ghost predicate AllLoaded(env: Env, t: string, rows: seq<Row>, main: seq<MainItem>, spilled: set<Rec>) {
    && ItemsOf(env, t, main)
    && forall h :: 0 <= h < |rows| ==>
         match env.load(rows[h])
         case Spillable(_) => InSpill(t, rows[h], spilled)
         case Indexable(f, _) => MainItem(rows[h], f) in main
  }

  ghost predicate LoadCounted(env: Env, s: Stats, s': Stats, read: nat, rows: seq<Row>, main: seq<MainItem>) {
    && s'.read == s.read + read && s'.indexed == s.indexed && s'.dlqPermanent == s.dlqPermanent
    && s'.dlq - s.dlq == s'.dlqPayload - s.dlqPayload && s'.rawExcluded - s.rawExcluded == CountRaw(env, rows)
    && s'.dlq - s.dlq + |main| == |rows| && CountWhole(env, main) == CountIndexed(env, rows)
  }

  /** What becomes of one row at first. */
  ghost predicate LoadedOne(env: Env, t: string, row: Row, main: seq<MainItem>, main': seq<MainItem>, s: Stats,
                            s': Stats, spilled: set<Rec>)
  {
    match env.load(row)
    case Spillable(_) =>
      main' == main && InSpill(t, row, spilled) && s' == s.(dlq := s.dlq + 1, dlqPayload := s.dlqPayload + 1)
    case Indexable(f, raw) =>
      main' == main + [MainItem(row, f)] && s' == s.(rawExcluded := s.rawExcluded + if raw then 1 else 0)
  }

  lemma LoadedNext(env: Env, t: string, rows: seq<Row>, i: nat, main: seq<MainItem>, main': seq<MainItem>,
                   spilled: set<Rec>, spilled': set<Rec>, s0: Stats, s: Stats, s': Stats)
    requires i < |rows| && RowOf(env, t, rows[i]) && spilled <= spilled'
    requires AllLoaded(env, t, rows[..i], main, spilled) && LoadCounted(env, s0, s, |rows|, rows[..i], main)
    requires LoadedOne(env, t, rows[i], main, main', s, s', spilled')
    ensures AllLoaded(env, t, rows[..i + 1], main', spilled') && LoadCounted(env, s0, s', |rows|, rows[..i + 1], main')
  {
    assert rows[..i + 1] == rows[..i] + [rows[i]];
    AllLoadedNext(env, t, rows[..i], main, rows[i], main', spilled, spilled', s, s');
    LoadCountedNext(env, t, s0, s, s', |rows|, rows[..i], main, rows[i], main', spilled');
  }

  lemma AllLoadedNext(env: Env, t: string, rows: seq<Row>, main: seq<MainItem>, row: Row, main': seq<MainItem>,
                      spilled: set<Rec>, spilled': set<Rec>, s: Stats, s': Stats)
    requires AllLoaded(env, t, rows, main, spilled) && spilled <= spilled' && RowOf(env, t, row)
    requires LoadedOne(env, t, row, main, main', s, s', spilled')
    ensures AllLoaded(env, t, rows + [row], main', spilled')
  {
  }

  lemma LoadCountedNext(env: Env, t: string, s0: Stats, s: Stats, s': Stats, read: nat, rows: seq<Row>,
                        main: seq<MainItem>, row: Row, main': seq<MainItem>, spilled: set<Rec>)
    requires LoadCounted(env, s0, s, read, rows, main) && LoadedOne(env, t, row, main, main', s, s', spilled)
    ensures LoadCounted(env, s0, s', read, rows + [row], main')
  {
  }

  ghost predicate RowsDone(env: Env, t: string, rows: seq<Row>, landed: set<Doc>, spilled: set<Rec>) {
    forall h :: 0 <= h < |rows| ==> RowDone(env, t, rows[h], landed, spilled)
  }

  lemma LoadedDone(env: Env, t: string, rows: seq<Row>, main: seq<MainItem>, landed: set<Doc>, spilled: set<Rec>,
                   spilled': set<Rec>)
    requires AllLoaded(env, t, rows, main, spilled) && spilled <= spilled'
    requires AllRetried(env, t, main, [], landed, spilled')
    ensures RowsDone(env, t, rows, landed, spilled')
  {
  }

  /** The mark has passed every row of its table. */
  ghost predicate AtEnd(env: Env, t: string, marks: map<string, int>) {
    t in env.shards && IsPlace(env.shards[t], CursorOf(marks, t), |env.shards[t]|)
  }

  /** All rows of a run counted, each in its class. */
  ghost predicate FullCount(env: Env, rows: seq<Row>, s: Stats, s': Stats) {
    && Balanced(s, s') && s'.read - s.read == |rows| && s'.rawExcluded - s.rawExcluded == CountRaw(env, rows)
    && (env.fixed ==> s'.indexed - s.indexed == CountIndexed(env, rows))
  }

  /** The counts of the rows between two places of a shard. */
  ghost predicate Tally(env: Env, shard: seq<Row>, from: nat, to: nat, s: Stats, s': Stats) {
    from <= to <= |shard| && FullCount(env, shard[from..to], s, s')
  }

  /** Where a table run stands: first and after are its cursors, start and place their places. */
  ghost predicate Position(env: Env, t: string, first: int, start: nat, after: int, place: nat, s0: Stats, s: Stats) {
    t in env.shards ==>
      && IsPlace(env.shards[t], first, start) && IsPlace(env.shards[t], after, place)
      && Tally(env, env.shards[t], start, place, s0, s)
  }

  /** rows are those of the table from a place on; none only when the place is its end. */
  ghost predicate NextRows(env: Env, t: string, from: nat, rows: seq<Row>) {
    && t in env.shards && from + |rows| <= |env.shards[t]| && rows == env.shards[t][from..from + |rows|]
    && (rows == [] ==> from == |env.shards[t]|)
  }

  /** What a turn did: moved on over rows it counted, or found none. */
  ghost predicate Moved(env: Env, t: string, more: bool, last: int, from: nat, to: nat, s0: Stats, s: Stats) {
    && t in env.shards && IsPlace(env.shards[t], last, to)
    && if more then from < to && Tally(env, env.shards[t], from, to, s0, s)
       else from == to == |env.shards[t]| && s == s0
  }

  lemma MovedOver(env: Env, t: string, from: nat, rows: seq<Row>, s0: Stats, s: Stats)
    requires ShardsOK(env) && NextRows(env, t, from, rows) && rows != [] && FullCount(env, rows, s0, s)
    ensures Moved(env, t, true, rows[|rows| - 1].id, from, from + |rows|, s0, s)
  {
    NextRow(env, t, from, from + |rows|);
  }

  lemma MovedNone(env: Env, t: string, after: int, from: nat, s: Stats)
    requires NextRows(env, t, from, []) && IsPlace(env.shards[t], after, from)
    ensures Moved(env, t, false, after, from, from, s, s)
  {
  }

  ghost function Remainder(env: Env, t: string, place: nat): int {
    if t in env.shards then |env.shards[t]| - place else 0
  }

  lemma PositionStart(env: Env, t: string, first: int, s: Stats) returns (start: nat)
    ensures Position(env, t, first, start, first, start, s, s)
  {
    start := 0;
    if t in env.shards {
      start := PlaceOf(env.shards[t], first);
      TallyStart(env, env.shards[t], start, s);
    }
  }

  lemma PositionNext(env: Env, t: string, first: int, start: nat, last: int, from: nat, to: nat, s0: Stats, s: Stats,
                     s': Stats)
    requires t in env.shards ==> IsPlace(env.shards[t], first, start) && Tally(env, env.shards[t], start, from, s0, s)
    requires Moved(env, t, true, last, from, to, s, s')
    ensures Position(env, t, first, start, last, to, s0, s') && 0 <= Remainder(env, t, to) < Remainder(env, t, from)
  {
    TallyNext(env, env.shards[t], start, from, to, s0, s, s');
  }

  lemma TallyStart(env: Env, shard: seq<Row>, from: nat, s: Stats)
    requires from <= |shard|
    ensures Tally(env, shard, from, from, s, s)
  {
  }

  lemma TallyNext(env: Env, shard: seq<Row>, from: nat, mid: nat, to: nat, s: Stats, s': Stats, s'': Stats)
    requires Tally(env, shard, from, mid, s, s') && Tally(env, shard, mid, to, s', s'')
    ensures Tally(env, shard, from, to, s, s'')
  {
    assert shard[from..to] == shard[from..mid] + shard[mid..to];
    CountIndexedAppend(env, shard[from..mid], shard[mid..to]);
  }

  lemma NextRow(env: Env, t: string, from: nat, to: nat)
    requires ShardsOK(env) && t in env.shards && from < to <= |env.shards[t]|
    ensures IsPlace(env.shards[t], env.shards[t][to - 1].id, to)
    ensures forall cursor :: IsPlace(env.shards[t], cursor, from) ==> env.shards[t][to - 1].id > cursor
  {
    assert ShardOK(env, t);
    NextPlace(env.shards[t], from, to);
  }

  /** With the batch done, the mark may move to its last row. */
  lemma CoverNext(env: Env, marks: map<string, int>, t: string, from: nat, to: nat, rows: seq<Row>, landed: set<Doc>,
                  spilled: set<Rec>)
    requires Covered(env, marks, landed, spilled) && ShardsOK(env) && t in env.shards && from < to <= |env.shards[t]|
    requires IsPlace(env.shards[t], CursorOf(marks, t), from)
    requires NextRows(env, t, from, rows) && to == from + |rows| && RowsDone(env, t, rows, landed, spilled)
    ensures rows[|rows| - 1] == env.shards[t][to - 1]
    ensures Covered(env, marks[t := rows[|rows| - 1].id], landed, spilled)
  {
    var shard := env.shards[t];
    assert ShardOK(env, t);
    var marks' := marks[t := shard[to - 1].id];
    forall u, k | u in env.shards && 0 <= k < |env.shards[u]| && env.shards[u][k].id <= CursorOf(marks', u)
      ensures RowDoneAt(env, u, k, landed, spilled)
    {
      if u == t && k >= from {
        assert k < to && rows[k - from] == shard[k];
      } else {
        assert RowDoneAt(env, u, k, landed, spilled);
      }
    }
  }

  lemma RetriedChain(env: Env, t: string, main: seq<MainItem>, left: seq<MainItem>, next: seq<MainItem>,
                     landed: set<Doc>, spilled: set<Rec>, landed': set<Doc>, spilled': set<Rec>)
    requires AllRetried(env, t, main, left, landed, spilled) && AllRetried(env, t, left, next, landed', spilled')
    requires landed <= landed' && spilled <= spilled'
    ensures AllRetried(env, t, main, next, landed', spilled')
  {
  }

  lemma CountedChain(env: Env, s: Stats, s': Stats, s'': Stats, main: seq<MainItem>, left: seq<MainItem>,
                     next: seq<MainItem>)
    requires AllCounted(env, s, s', main, left) && AllCounted(env, s', s'', left, next)
    ensures AllCounted(env, s, s'', main, next)
  {
  }

  /** What a request leaves in the index comes from the rows of its items. */
  lemma LandedNext(env: Env, t: string, items: seq<MainItem>, docs: seq<Family<Doc>>, landed: set<Doc>,
                   landed': set<Doc>)
    requires ItemsOf(env, t, items) && |docs| == |items| && forall i :: 0 <= i < |docs| ==> docs[i] == items[i].fam
    requires LandedOK(env, landed) && landed' <= landed + Landable(env, docs)
    ensures LandedOK(env, landed')
  {
  }

  lemma RetriedNext(env: Env, t: string, items: seq<MainItem>, next: seq<MainItem>, item: MainItem, next': seq<MainItem>,
                    landed: set<Doc>, spilled: set<Rec>, spilled': set<Rec>)
    requires AllRetried(env, t, items, next, landed, spilled) && spilled <= spilled' && ItemOf(env, t, item)
    requires next' == next + [item] || (next' == next && RowDone(env, t, item.row, landed, spilled'))
    ensures AllRetried(env, t, items + [item], next', landed, spilled')
  {
  }

  /** One more item counted, in its class when the index is fixed. */
  ghost predicate OneMore(env: Env, s: Stats, s': Stats, item: MainItem) {
    || ((env.fixed ==> Whole(env, item.fam)) && s' == s.(indexed := s.indexed + 1))
    || ((env.fixed ==> !Whole(env, item.fam)) && s' == s.(dlq := s.dlq + 1, dlqPermanent := s.dlqPermanent + 1))
  }

  lemma CountedNext(env: Env, s0: Stats, s: Stats, s': Stats, items: seq<MainItem>, next: seq<MainItem>,
                    item: MainItem, next': seq<MainItem>)
    requires AllCounted(env, s0, s, items, next)
    requires (next' == next + [item] && s' == s) || (next' == next && OneMore(env, s, s', item))
    ensures AllCounted(env, s0, s', items + [item], next')
  {
  }

  lemma RecsNext(env: Env, t: string, row: Row, recs: seq<Rec>, r: Rec)
    requires RecsOK(env, recs) && RowOf(env, t, row) && RecordOf(env, t, row, r)
    ensures RecsOK(env, recs + [r]) && InSpill(t, row, RecsIn(recs + [r]))
  {
    assert (recs + [r])[|recs|] == r;
    assert r in RecsIn(recs + [r]) && SameRow(r, row.messageID, t, row.id);
  }

  // ---- crashes and resumed runs ----

  /** What outlives a process: the spill directory, the checkpoint file and the index. */
  ghost predicate OutsideOK(env: Env, c: Spill.Codec, disk: Disk, cp: CheckpointStore, index: Index)
    reads disk, cp, index
  {
    && Sound(c) && disk.Valid(c) && cp.Valid() && index.env == env && Honest(env, index.server)
    && LandedOK(env, index.landed) && RecsOK(env, disk.records)
    && Covered(env, cp.written, index.landed, RecsIn(disk.safe))
  }

  lemma RecsPrefix(env: Env, recs: seq<Rec>, recs': seq<Rec>)
    requires RecsOK(env, recs') && recs <= recs'
    ensures RecsOK(env, recs)
  {
  }

  lemma CoveredLower(env: Env, marks: map<string, int>, marks': map<string, int>, landed: set<Doc>, spilled: set<Rec>)
    requires Covered(env, marks, landed, spilled) && NoHigher(marks', marks)
    ensures Covered(env, marks', landed, spilled)
  {
  }

  /**
   * One life: after a crash at any point, reopen the spill and the checkpoint and
   * run. Whatever happens, what outlives the process stays sound; a successful run
   * leaves the ledger of a finished backfill, and a run fails only for a fault
   * outside or a table that cannot be read.
   */
  method Life(env: Env, c: Spill.Codec, disk: Disk, cp: CheckpointStore, index: Index, ctx: Context,
              tables: seq<string>, batchSize: int, s0: Stats) returns (ok: bool, spill: DLQSpill?, total: Stats)
    requires OutsideOK(env, c, disk, cp, index) && ShardsOK(env)
    modifies disk, cp, index, ctx
    ensures OutsideOK(env, c, disk, cp, index)
    ensures old(ctx.faults) <= ctx.faults && (ok || ctx.faults > old(ctx.faults) || !AllReadable(env, tables))
    ensures ok ==> Balanced(s0, total)
    ensures ok ==> spill != null && spill.Valid() && RecsOK(env, spill.recs)
                   && forall n :: 0 <= n < |tables| ==> TableDone(env, tables[n], index.landed, RecsIn(spill.recs))
  {
    ok, total := false, s0;
    ghost var recs, safe, marks := disk.records, disk.safe, cp.written;
    disk.Crash(c);
    RecsPrefix(env, disk.records, recs);
    spill := Reopen(env, c, disk, cp, index, ctx);
    if spill == null {
      return;
    }
    var r := new Runner(env, index, cp, spill, ctx, batchSize);
    ok, total := r.Run(tables, s0);
    RecsPrefix(env, disk.records, spill.recs);
    if ok {
      SpillGrows(disk.safe, spill.recs);
      CoveredGrows(env, cp.written, index.landed, RecsIn(disk.safe), index.landed, RecsIn(spill.recs));
      forall n | 0 <= n < |tables| ensures TableDone(env, tables[n], index.landed, RecsIn(spill.recs)) {
        assert AtEnd(env, tables[n], cp.written);
        EndMeansDone(env, tables[n], cp.written, index.landed, RecsIn(spill.recs));
      }
    }
  }

  /** Reopening after a crash. */
  method Reopen(env: Env, c: Spill.Codec, disk: Disk, cp: CheckpointStore, index: Index, ctx: Context)
    returns (spill: DLQSpill?)
    requires OutsideOK(env, c, disk, cp, index)
    modifies disk, cp, ctx`faults
    ensures ctx.Since(ctx.fuel, old(ctx.faults), spill != null)
    ensures OutsideOK(env, c, disk, cp, index) && cp.lastID == cp.written
    ensures spill != null ==> fresh(spill) && spill.Valid() && spill.open && !spill.torn
    ensures spill != null ==> spill.c == c && spill.disk == disk && RecsOK(env, spill.recs)
  {
    ghost var safe, marks := disk.safe, cp.written;
    spill := OpenDLQSpill(c, disk, ctx);
    SpillGrows(safe, disk.safe);
    CoveredGrows(env, marks, index.landed, RecsIn(safe), index.landed, RecsIn(disk.safe));
    cp.Open();
    CoveredLower(env, marks, cp.written, index.landed, RecsIn(disk.safe));
  }

  ghost predicate TableDone(env: Env, t: string, landed: set<Doc>, spilled: set<Rec>) {
    t in env.shards && RowsDone(env, t, env.shards[t], landed, spilled)
  }

  lemma EndMeansDone(env: Env, t: string, marks: map<string, int>, landed: set<Doc>, spilled: set<Rec>)
    requires Covered(env, marks, landed, spilled) && AtEnd(env, t, marks) && ShardsOK(env)
    ensures TableDone(env, t, landed, spilled)
  {
    assert ShardOK(env, t);
    forall k | 0 <= k < |env.shards[t]| ensures RowDone(env, t, env.shards[t][k], landed, spilled) {
      assert RowDoneAt(env, t, k, landed, spilled);
    }
  }

  // ---- whose record accounts for a row ----

  /** The row's own record: its message id, or its table and id when it has none. */
  ghost predicate Stands(t: string, row: Row, spilled: set<Rec>) {
    exists r :: r in spilled && SameRow(r, row.messageID, t, row.id)
  }

  /** A row without a message id whose table and id are spelled by the message id of another row. */
  predicate Clash(t: string, row: Row, other: Row) {
    row.messageID == "" && other.messageID == t + ":" + FormatInt(row.id)
  }

  ghost predicate NoClash(env: Env) {
    forall t, row, u, other {:trigger RowOf(env, t, row), RowOf(env, u, other)} ::
      RowOf(env, t, row) && RowOf(env, u, other) && MayDie(env, row) && MayDie(env, other) ==> !Clash(t, row, other)
  }

  /** A spill that accounts for a dead row holds its own record. */
  ghost predicate OwnRecord(env: Env, recs: seq<Rec>, t: string, row: Row) {
    RecsOK(env, recs) && RowOf(env, t, row) && MayDie(env, row) && InSpill(t, row, RecsIn(recs)) ==>
      Stands(t, row, RecsIn(recs))
  }

  /** Every accounted row has its own record, whatever the spill holds, exactly when no two rows clash. */
  lemma OwnRecordsExactly(env: Env)
    ensures (forall recs, t, row :: OwnRecord(env, recs, t, row)) <==> NoClash(env)
  {
    if NoClash(env) {
      forall recs, t, row ensures OwnRecord(env, recs, t, row) {
        NotShadowed(env, recs, t, row);
      }
    } else {
      var t, row, u, other :| RowOf(env, t, row) && RowOf(env, u, other) && MayDie(env, row) && MayDie(env, other)
                              && Clash(t, row, other);
      var recs := ShadowedRow(env, t, row, u, other);
      assert !OwnRecord(env, recs, t, row);
    }
  }

  lemma NotShadowed(env: Env, recs: seq<Rec>, t: string, row: Row)
    requires NoClash(env)
    ensures OwnRecord(env, recs, t, row)
  {
    if RecsOK(env, recs) && RowOf(env, t, row) && MayDie(env, row) && InSpill(t, row, RecsIn(recs)) {
      var r :| r in RecsIn(recs) && (SameRow(r, row.messageID, t, row.id) || Shadows(r, row.messageID, t, row.id));
      var n :| 0 <= n < |recs| && recs[n] == r;
      assert OfSomeRow(env, recs[n]);
      var u, other :| RowOf(env, u, other) && RecordOf(env, u, other, r);
      assert !Clash(t, row, other) && !Clash(u, other, row);
    }
  }

  /** The spill of the other row alone accounts for the row, so nothing is ever written for it. */
  lemma ShadowedRow(env: Env, t: string, row: Row, u: string, other: Row) returns (recs: seq<Rec>)
    requires RowOf(env, t, row) && RowOf(env, u, other) && MayDie(env, other) && Clash(t, row, other)
    ensures RecsOK(env, recs) && InSpill(t, row, RecsIn(recs)) && !Stands(t, row, RecsIn(recs))
  {
    var r := Rec(DeadFor(env, other), u, other.id, other.messageID, other.payload, other.createdUnix, 0);
    RecsNext(env, u, other, [], r);
    recs := [] + [r];
    assert recs[0] == r && r in RecsIn(recs) && Shadows(r, row.messageID, t, row.id);
    assert other.messageID[|t|] == ':';
  }

  /** Message ids without a colon never clash. */
  lemma IdsWithoutColon(env: Env)
    requires forall t, row :: RowOf(env, t, row) ==> ':' !in row.messageID
    ensures NoClash(env)
  {
    forall t, row, u, other | RowOf(env, t, row) && RowOf(env, u, other) ensures !Clash(t, row, other) {
      assert (t + ":" + FormatInt(row.id))[|t|] == ':';
    }
  }

  /** Without a clash, every row of a finished table is in the index or has its own record in the spill. */
  lemma FinishedRows(env: Env, t: string, landed: set<Doc>, recs: seq<Rec>, k: nat)
    requires NoClash(env) && RecsOK(env, recs) && TableDone(env, t, landed, RecsIn(recs)) && k < |env.shards[t]|
    ensures var row := env.shards[t][k];
            || (env.load(row).Indexable? && FamilyIn(env.load(row).fam, landed))
            || Stands(t, row, RecsIn(recs))
  {
    var row := env.shards[t][k];
    assert RowDone(env, t, row, landed, RecsIn(recs)) && RowOf(env, t, row);
    NotShadowed(env, recs, t, row);
  }
}
