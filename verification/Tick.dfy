/**
 * internal/producer/etl.go with one writer: the chunked tick loop over a store
 * and a sink. Any store or sink call may fail; a tick without failures has the
 * effect of the one-shot plan of every table.
 */
module Tick {
  import opened Common
  import opened Contract
  import opened Chunk
  import opened Keyset

  class Store {
    const shards: map<string, seq<Row>>
    const now: int
    var cursors: map<string, int>

    ghost predicate Valid() reads this {
      forall t :: t in shards ==> Ascending(shards[t])
    }

    /** A table the store works on: its name is safe and it exists. */
    predicate Readable(table: string) {
      SafeTableName(table) && table in shards
    }

    method EnsureCursor(ctx: Context, table: string) returns (ok: bool)
      modifies this, ctx`faults
      ensures if Readable(table) then ctx.Since(ctx.fuel, old(ctx.faults), ok)
              else !ok && ctx.faults == old(ctx.faults)
      ensures ok ==> cursors == if table in old(cursors) then old(cursors) else old(cursors)[table := 0]
      ensures !ok ==> cursors == old(cursors)
    {
      ok := SafeTableName(table) && table in shards;
      if ok {
        ok := ctx.Try();
      }
      if ok && table !in cursors {
        cursors := cursors[table := 0];
      }
    }

    /** The next rows after the cursor, at most batch of them. */
    method ReadStableBatchTx(ctx: Context, table: string, batch: nat) returns (ok: bool, cursor: int, rows: seq<Row>)
      modifies ctx`faults
      ensures Readable(table) && table in cursors ==> ctx.Since(ctx.fuel, old(ctx.faults), ok)
      ensures ok ==> table in cursors && table in shards && cursor == cursors[table]
      ensures ok ==> rows == Take(After(shards[table], cursor), batch)
    {
      ok, cursor, rows := false, 0, [];
      if !SafeTableName(table) || table !in cursors || table !in shards {
        return;
      }
      ok := ctx.Try();
      if !ok {
        return;
      }
      cursor := cursors[table];
      var shard := shards[table];
      var first := Passed(shard, cursor);
      while first + |rows| < |shard| && |rows| < batch
        invariant |rows| <= batch && first + |rows| <= |shard|
        invariant rows == shard[first..first + |rows|]
        decreases batch - |rows|
      {
        rows := rows + [shard[first + |rows|]];
      }
    }

    /** The compare-and-swap; a failed call may or may not have been applied. */
    method AdvanceCursor(ctx: Context, table: string, expected: int, newID: int) returns (ok: bool, advanced: bool)
      modifies this, ctx`faults
      ensures ctx.Since(ctx.fuel, old(ctx.faults), ok)
      ensures advanced ==> table in old(cursors) && old(cursors)[table] == expected
      ensures ok && !advanced ==> !(table in old(cursors) && old(cursors)[table] == expected)
      ensures ok ==> cursors == if advanced then old(cursors)[table := newID] else old(cursors)
      ensures cursors == old(cursors) ||
              (table in old(cursors) && old(cursors)[table] == expected && cursors == old(cursors)[table := newID])
    {
      ok := ctx.Try();
      advanced := *;
      var hit := table in cursors && cursors[table] == expected;
      advanced := hit && (ok || advanced);
      if advanced {
        cursors := cursors[table := newID];
      }
    }
  }

  /** The run lock shared by all replicas: taken, or held by another one. */
  class RunLock {
    ghost var misses: nat

    method Acquire() returns (held: bool)
      modifies this
      ensures misses == old(misses) + if held then 0 else 1
    {
      held := *;
      if !held {
        misses := misses + 1;
      }
    }
  }

  class Sink {
    var main: seq<Message>
    var dlq: seq<Envelope>

    method ProduceBatch(ctx: Context, msgs: seq<Message>) returns (ok: bool)
      modifies this`main, ctx`faults
      ensures ctx.Since(ctx.fuel, old(ctx.faults), ok)
      ensures old(main) <= main <= old(main) + msgs
      ensures ok ==> main == old(main) + msgs
    {
      ok := ctx.Try();
      main := main + if ok then msgs else msgs[..|msgs| / 2];
    }

    method ProduceDLQ(ctx: Context, envs: seq<Envelope>) returns (ok: bool)
      modifies this`dlq, ctx`faults
      ensures ctx.Since(ctx.fuel, old(ctx.faults), ok)
      ensures old(dlq) <= dlq <= old(dlq) + envs
      ensures ok ==> dlq == old(dlq) + envs
    {
      ok := ctx.Try();
      dlq := dlq + if ok then envs else envs[..|envs| / 2];
    }
  }

  // ---- the one-shot specification ----

  /** The routing of every table, as a value. */
  type Routes = string -> Row -> Routed

  datatype State = State(cursors: map<string, int>, main: seq<Message>, dlq: seq<Envelope>)

  /** Delivering a run of rows of one table and moving its cursor over them. */
  function Deliver(route: Row -> Routed, table: string, rows: seq<Row>, s: State): State {
    State(if rows == [] then s.cursors else s.cursors[table := rows[|rows| - 1].id],
          s.main + MainOf(route, rows), s.dlq + DeadOf(route, rows))
  }

  /** One table planned in one go: everything stable after its cursor, which is created at 0. */
  function AfterTable(route: Row -> Routed, shard: seq<Row>, cutoff: int, table: string, s: State): State {
    var cursor := CursorOf(s.cursors, table);
    Deliver(route, table, StablePrefix(After(shard, cursor), cutoff), s.(cursors := s.cursors[table := cursor]))
  }

  function Shard(shards: map<string, seq<Row>>, table: string): seq<Row> {
    if table in shards then shards[table] else []
  }

  /** The first n tables of a tick, planned one after the other. */
  function AfterTick(routes: Routes, shards: map<string, seq<Row>>, cutoff: int, tables: seq<string>, n: nat,
                     s: State): State
    requires n <= |tables|
  {
    if n == 0 then s
    else
      var t := tables[n - 1];
      AfterTable(routes(t), Shard(shards, t), cutoff, t, AfterTick(routes, shards, cutoff, tables, n - 1, s))
  }

  ghost predicate Delivered(routed: Routed, s: State) {
    match routed
    case ToMain(m) => m in s.main
    case ToDLQ(e) => e in s.dlq
  }

  ghost predicate DeliveredAt(route: Row -> Routed, shard: seq<Row>, k: int, s: State) {
    0 <= k < |shard| && Delivered(route(shard[k]), s)
  }

  /** No gap in one table: every row the cursor moved over is in the stream its routing names. */
  ghost predicate TableNoGap(route: Row -> Routed, shard: seq<Row>, from: int, to: int, s: State) {
    forall k {:trigger DeliveredAt(route, shard, k, s)} ::
      0 <= k < |shard| && from < shard[k].id <= to ==> DeliveredAt(route, shard, k, s)
  }

  ghost predicate NoGap(routes: Routes, shards: map<string, seq<Row>>, from: map<string, int>, s: State) {
    forall t :: t in shards ==>
      TableNoGap(routes(t), shards[t], CursorOf(from, t), CursorOf(s.cursors, t), s)
  }

  /** The stable part of a batch against the stable part of all remaining rows. */
  lemma StableOfTake(rows: seq<Row>, cutoff: int, n: nat)
    ensures var head := StablePrefix(Take(rows, n), cutoff);
            && head <= rows && |head| <= n
            && StablePrefix(rows, cutoff) == head + StablePrefix(rows[|head|..], cutoff)
            && (|head| < n ==> StablePrefix(rows[|head|..], cutoff) == [])
  {
  }

  lemma DeliverAppend(route: Row -> Routed, table: string, a: seq<Row>, b: seq<Row>, s: State)
    ensures Deliver(route, table, a + b, s) == Deliver(route, table, b, Deliver(route, table, a, s))
  {
    PlanAppend(route, a, b);
    if b == [] {
      assert a + b == a;
    } else {
      assert (a + b)[|a + b| - 1] == b[|b| - 1];
      if a != [] {
        assert s.cursors[table := a[|a| - 1].id][table := b[|b| - 1].id] == s.cursors[table := b[|b| - 1].id];
      }
    }
  }

  /** The rows one chunk delivers. */
  function ChunkRows(shard: seq<Row>, cutoff: int, table: string, batch: nat, cursors: map<string, int>): seq<Row> {
    StablePrefix(Take(After(shard, CursorOf(cursors, table)), batch), cutoff)
  }

  /** Where a chunk leaves the cursor, and what is stable behind it. */
  lemma ChunkPosition(shard: seq<Row>, cutoff: int, table: string, batch: nat, cursors: map<string, int>)
    requires Ascending(shard) && table in cursors && batch > 0
    ensures var c, chunk := cursors[table], ChunkRows(shard, cutoff, table, batch, cursors);
            var c' := if chunk == [] then c else chunk[|chunk| - 1].id;
            var rest := StablePrefix(After(shard, c'), cutoff);
            && |chunk| <= batch
            && StablePrefix(After(shard, c), cutoff) == chunk + rest
            && (|chunk| < batch ==> rest == [])
            && (|chunk| == batch ==> |After(shard, c')| < |After(shard, c)|)
  {
    var c, chunk := cursors[table], ChunkRows(shard, cutoff, table, batch, cursors);
    StableOfTake(After(shard, c), cutoff, batch);
    if chunk != [] {
      Remaining(shard, c, |chunk| - 1);
    }
  }

  /** Delivering a chunk and then planning the rest is planning everything at once. */
  lemma ChunkThenRest(route: Row -> Routed, shard: seq<Row>, cutoff: int, table: string, batch: nat, s: State)
    requires Ascending(shard) && table in s.cursors && batch > 0
    ensures var chunk := ChunkRows(shard, cutoff, table, batch, s.cursors);
            var s' := Deliver(route, table, chunk, s);
            && AfterTable(route, shard, cutoff, table, s') == AfterTable(route, shard, cutoff, table, s)
            && (|chunk| < batch ==> AfterTable(route, shard, cutoff, table, s') == s')
  {
    var chunk := ChunkRows(shard, cutoff, table, batch, s.cursors);
    var s' := Deliver(route, table, chunk, s);
    ChunkPosition(shard, cutoff, table, batch, s.cursors);
    var rest := StablePrefix(After(shard, s'.cursors[table]), cutoff);
    DeliverAppend(route, table, chunk, rest, s);
    DeliverNothing(route, table, s');
    UpdateSame(s.cursors, table);
    UpdateSame(s'.cursors, table);
  }

  /** A table planned to its unstable tail has nothing left to deliver at the same cutoff. */
  lemma SecondPlanDeliversNothing(route: Row -> Routed, shard: seq<Row>, cutoff: int, table: string, s: State)
    requires Ascending(shard)
    ensures var s' := AfterTable(route, shard, cutoff, table, s);
            && StablePrefix(After(shard, s'.cursors[table]), cutoff) == []
            && AfterTable(route, shard, cutoff, table, s') == s'
  {
    var c := CursorOf(s.cursors, table);
    var cursors := s.cursors[table := c];
    var s' := AfterTable(route, shard, cutoff, table, s);
    ChunkPosition(shard, cutoff, table, |After(shard, c)| + 1, cursors);
    DeliverNothing(route, table, s');
    UpdateSame(s'.cursors, table);
  }

  lemma DeliverNothing(route: Row -> Routed, table: string, s: State)
    ensures Deliver(route, table, [], s) == s
  {
  }

  // ---- the loop ----

  /** A chunk either leaves the cursor alone or delivers its rows and moves over exactly them. */
  ghost predicate ChunkEffect(route: Row -> Routed, table: string, chunk: seq<Row>, s: State, s': State) {
    && s.main <= s'.main && s.dlq <= s'.dlq
    && (s'.cursors == s.cursors || (chunk != [] && s' == Deliver(route, table, chunk, s)))
  }

  /** A stable batch is the run of rows that begins where the cursor stands. */
  lemma BatchIsSlice(rows: seq<Row>, cursor: int, batch: nat, cutoff: int) returns (p: nat)
    ensures var chunk := StablePrefix(Take(After(rows, cursor), batch), cutoff);
            IsPlace(rows, cursor, p) && p + |chunk| <= |rows| && chunk == rows[p..p + |chunk|]
  {
    p := PlaceOf(rows, cursor);
    var n := |StablePrefix(Take(After(rows, cursor), batch), cutoff)|;
    assert rows[p..][..n] == rows[p..p + n];
  }

  /** Delivering the rows from place p and moving the cursor over them leaves no gap. */
  lemma SliceKeepsNoGap(route: Row -> Routed, shard: seq<Row>, from: int, p: nat, n: nat, c: int, s: State, s': State)
    requires Ascending(shard) && IsPlace(shard, c, p) && 0 < n && p + n <= |shard|
    requires TableNoGap(route, shard, from, c, s) && s.main <= s'.main && s.dlq <= s'.dlq
    requires s'.main == s.main + MainOf(route, shard[p..p + n]) && s'.dlq == s.dlq + DeadOf(route, shard[p..p + n])
    ensures TableNoGap(route, shard, from, shard[p + n - 1].id, s') && shard[p + n - 1].id > c
  {
    forall k | 0 <= k < |shard| && from < shard[k].id <= shard[p + n - 1].id ensures DeliveredAt(route, shard, k, s') {
      if k >= p {
        assert shard[p..p + n][k - p] == shard[k];
        PlannedRowDelivered(route, shard[p..p + n], k - p);
      } else {
        assert shard[k].id <= c && DeliveredAt(route, shard, k, s);
      }
    }
  }

  lemma MoreDelivered(route: Row -> Routed, shard: seq<Row>, from: int, to: int, s: State, s': State)
    requires TableNoGap(route, shard, from, to, s) && s.main <= s'.main && s.dlq <= s'.dlq
    ensures TableNoGap(route, shard, from, to, s')
  {
    forall k | 0 <= k < |shard| && from < shard[k].id <= to ensures DeliveredAt(route, shard, k, s') {
      assert DeliveredAt(route, shard, k, s);
    }
  }

  lemma ChunkKeepsNoGap(route: Row -> Routed, shard: seq<Row>, from: int, table: string, p: nat, chunk: seq<Row>,
                        s: State, s': State)
    requires table in s.cursors && Ascending(shard) && TableNoGap(route, shard, from, s.cursors[table], s)
    requires IsPlace(shard, s.cursors[table], p) && p + |chunk| <= |shard| && chunk == shard[p..p + |chunk|]
    requires ChunkEffect(route, table, chunk, s, s')
    ensures table in s'.cursors && s'.cursors[table] >= s.cursors[table]
    ensures TableNoGap(route, shard, from, s'.cursors[table], s')
  {
    if s'.cursors != s.cursors {
      SliceKeepsNoGap(route, shard, from, p, |chunk|, s.cursors[table], s, s');
    } else {
      MoreDelivered(route, shard, from, s.cursors[table], s, s');
    }
  }

  lemma ChunkKeepsAllNoGap(routes: Routes, shards: map<string, seq<Row>>, from: map<string, int>, table: string,
                           batch: nat, cutoff: int, s: State, s': State)
    requires table in shards && table in s.cursors && Ascending(shards[table])
    requires NoGap(routes, shards, from, s)
    requires ChunkEffect(routes(table), table, ChunkRows(shards[table], cutoff, table, batch, s.cursors), s, s')
    ensures NoGap(routes, shards, from, s') && Onward(s.cursors, s'.cursors)
  {
    var from1 := CursorOf(from, table);
    assert TableNoGap(routes(table), shards[table], from1, s.cursors[table], s);
    var p := BatchIsSlice(shards[table], s.cursors[table], batch, cutoff);
    ChunkKeepsNoGap(routes(table), shards[table], from1, table, p,
                    ChunkRows(shards[table], cutoff, table, batch, s.cursors), s, s');
    forall t | t in shards
      ensures TableNoGap(routes(t), shards[t], CursorOf(from, t), CursorOf(s'.cursors, t), s')
    {
      assert TableNoGap(routes(t), shards[t], CursorOf(from, t), CursorOf(s.cursors, t), s);
      if t != table {
        MoreDelivered(routes(t), shards[t], CursorOf(from, t), CursorOf(s.cursors, t), s, s');
      }
    }
  }

  /** No cursor goes back. */
  ghost predicate Onward(a: map<string, int>, b: map<string, int>) {
    forall t :: CursorOf(a, t) <= CursorOf(b, t)
  }

  /** After a chunk the plan of the table is the same, and either it is carried out or rows were passed. */
  ghost predicate ChunkDone(route: Row -> Routed, shard: seq<Row>, cutoff: int, table: string, s: State, s': State,
                            done: bool)
    requires table in s.cursors && table in s'.cursors
  {
    && AfterTable(route, shard, cutoff, table, s') == AfterTable(route, shard, cutoff, table, s)
    && if done then AfterTable(route, shard, cutoff, table, s') == s'
       else |After(shard, s'.cursors[table])| < |After(shard, s.cursors[table])|
  }

  lemma ChunkEnds(route: Row -> Routed, shard: seq<Row>, cutoff: int, table: string, batch: nat, s: State, s': State,
                  n: nat)
    requires Ascending(shard) && table in s.cursors && batch > 0
    requires n == |ChunkRows(shard, cutoff, table, batch, s.cursors)|
    requires s' == Deliver(route, table, ChunkRows(shard, cutoff, table, batch, s.cursors), s)
    ensures table in s'.cursors && ChunkDone(route, shard, cutoff, table, s, s', n < batch)
  {
    ChunkPosition(shard, cutoff, table, batch, s.cursors);
    ChunkThenRest(route, shard, cutoff, table, batch, s);
  }

  lemma CreatedCursor(routes: Routes, shards: map<string, seq<Row>>, from: map<string, int>, cutoff: int,
                      table: string, s: State, s': State)
    requires table in shards
    requires s' == s.(cursors := if table in s.cursors then s.cursors else s.cursors[table := 0])
    ensures forall t :: CursorOf(s'.cursors, t) == CursorOf(s.cursors, t)
    ensures NoGap(routes, shards, from, s) ==> NoGap(routes, shards, from, s')
    ensures AfterTable(routes(table), shards[table], cutoff, table, s')
         == AfterTable(routes(table), shards[table], cutoff, table, s)
  {
    var c := CursorOf(s.cursors, table);
    assert s'.cursors[table := c] == s.cursors[table := c];
    if NoGap(routes, shards, from, s) {
      forall t | t in shards
        ensures TableNoGap(routes(t), shards[t], CursorOf(from, t), CursorOf(s'.cursors, t), s')
      {
        assert TableNoGap(routes(t), shards[t], CursorOf(from, t), CursorOf(s.cursors, t), s);
        MoreDelivered(routes(t), shards[t], CursorOf(from, t), CursorOf(s.cursors, t), s, s');
      }
    }
  }

  /** The extractor, with its collaborators and its in-process re-entrancy flag. */
  class ETL {
    const lib: Lib
    const store: Store
    const sink: Sink
    const lag: int
    const batch: nat
    const ctx: Context
    const lock: RunLock
    var running: bool
    ghost const routes: Routes

    constructor (lib: Lib, store: Store, sink: Sink, lag: int, batch: nat, ctx: Context, lock: RunLock)
      requires batch > 0 && store.Valid()
      ensures Valid() && !running
      ensures this.lib == lib && this.store == store && this.sink == sink && this.lag == lag && this.batch == batch
      ensures this.ctx == ctx && this.lock == lock
    {
      this.lib, this.store, this.sink, this.lag, this.batch, this.ctx := lib, store, sink, lag, batch, ctx;
      this.lock, running := lock, false;
      routes := t => Router(lib, t);
    }

    ghost predicate Valid() reads store {
      && batch > 0 && store.Valid()
      && forall t {:trigger Router(lib, t)} :: routes(t) == Router(lib, t)
    }

    /** What the outside world can see: the cursors and the two topics. */
    ghost function World(): State reads store, sink {
      State(store.cursors, sink.main, sink.dlq)
    }

    /**
     * RunIncremental: one locked round. A round that finds another one running
     * in the process, or loses the run lock, does nothing.
     */
    method RunIncremental(tables: seq<string>) returns (ok: bool, ghost ran: bool)
      requires Valid()
      modifies this, store, sink, ctx, lock
      ensures Valid() && running == old(running)
      ensures old(running) ==> ok && !ran
      ensures !ran ==> old(running) || lock.misses == old(lock.misses) + 1
      ensures Went(tables, old(ctx.faults), ok)
      ensures !ran ==> World() == old(World())
      ensures ok && ran ==> World() == AfterTick(routes, store.shards, store.now - lag, tables, |tables|, old(World()))
      ensures NoGap(routes, store.shards, old(World()).cursors, World())
    {
      if running {
        return true, false;
      }
      running := true;
      var locked := lock.Acquire();
      ok, ran := true, locked;
      if locked {
        ok := RunTick(tables);
      }
      running := false;
    }

    /** All went well, or there was a fault outside, or a table cannot be read. */
    ghost predicate Went(tables: seq<string>, faults0: nat, ok: bool) reads ctx {
      || ctx.faults == faults0 + (if ok then 0 else 1)
      || (!ok && ctx.faults == faults0 && exists n :: 0 <= n < |tables| && !store.Readable(tables[n]))
    }

    /**
     * runTick. Without a failure the chunked loops do what the one-shot plan of
     * each table does, whatever the batch size; with failures no row is skipped.
     */
    method RunTick(tables: seq<string>) returns (ok: bool)
      requires Valid()
      modifies store, sink, ctx
      ensures Went(tables, old(ctx.faults), ok)
      ensures ok ==> World() == AfterTick(routes, store.shards, store.now - lag, tables, |tables|, old(World()))
      ensures NoGap(routes, store.shards, old(World()).cursors, World())
      ensures Onward(old(World()).cursors, World().cursors)
    {
      ok := ctx.Try();
      if ok {
        ok := RunTables(tables, store.now - lag);
      }
    }

    /** The tables of a tick, one after the other. */
    method RunTables(tables: seq<string>, cutoff: int) returns (ok: bool)
      requires Valid()
      modifies store, sink, ctx
      ensures Went(tables, old(ctx.faults), ok)
      ensures ok ==> World() == AfterTick(routes, store.shards, cutoff, tables, |tables|, old(World()))
      ensures NoGap(routes, store.shards, old(World()).cursors, World())
      ensures Onward(old(World()).cursors, World().cursors)
    {
      for i := 0 to |tables|
        invariant World() == AfterTick(routes, store.shards, cutoff, tables, i, old(World()))
        invariant NoGap(routes, store.shards, old(World()).cursors, World())
        invariant Onward(old(World()).cursors, World().cursors) && ctx.faults == old(ctx.faults)
      {
        ok := RunTable(tables[i], cutoff, old(World()).cursors);
        if !ok {
          assert Went(tables, old(ctx.faults), false);
          return;
        }
      }
      ok := true;
    }

    /** One table of runTick: create its cursor row, then chunk until the unstable tail. */
    method RunTable(table: string, cutoff: int, ghost from: map<string, int>) returns (ok: bool)
      requires Valid() && NoGap(routes, store.shards, from, World())
      modifies store, sink, ctx
      ensures if store.Readable(table) then ctx.faults == old(ctx.faults) + if ok then 0 else 1
              else !ok && ctx.faults == old(ctx.faults)
      ensures ok ==> table in store.shards
                     && World() == AfterTable(routes(table), store.shards[table], cutoff, table, old(World()))
      ensures NoGap(routes, store.shards, from, World()) && Onward(old(World()).cursors, World().cursors)
    {
      ok := store.EnsureCursor(ctx, table);
      if !ok {
        return;
      }
      CreatedCursor(routes, store.shards, from, cutoff, table, old(World()), World());
      ok := RunChunks(table, cutoff, from);
    }

    /** The chunk loop of one table. */
    method RunChunks(table: string, cutoff: int, ghost from: map<string, int>) returns (ok: bool)
      requires Valid() && NoGap(routes, store.shards, from, World())
      requires store.Readable(table) && table in store.cursors
      modifies store, sink, ctx
      ensures ctx.faults == old(ctx.faults) + if ok then 0 else 1
      ensures ok ==> World() == AfterTable(routes(table), store.shards[table], cutoff, table, old(World()))
      ensures NoGap(routes, store.shards, from, World()) && Onward(old(World()).cursors, World().cursors)
    {
      ghost var init, shard := World(), store.shards[table];
      var done := false;
      while !done
        invariant table in store.cursors && ctx.faults == old(ctx.faults)
        invariant AfterTable(routes(table), shard, cutoff, table, World())
               == AfterTable(routes(table), shard, cutoff, table, init)
        invariant done ==> AfterTable(routes(table), shard, cutoff, table, init) == World()
        invariant NoGap(routes, store.shards, from, World()) && Onward(init.cursors, World().cursors)
        decreases !done, |After(shard, store.cursors[table])|
      {
        ok := ctx.Try();
        if !ok {
          return;
        }
        ok, done := NextChunk(table, cutoff, from);
        if !ok {
          return;
        }
      }
      ok := true;
    }

    /** One turn of the chunk loop: what is left to plan stays the same, or nothing is left. */
    method NextChunk(table: string, cutoff: int, ghost from: map<string, int>) returns (ok: bool, done: bool)
      requires Valid() && NoGap(routes, store.shards, from, World())
      requires store.Readable(table) && table in store.cursors
      modifies store, sink, ctx
      ensures ctx.faults == old(ctx.faults) + if ok then 0 else 1
      ensures NoGap(routes, store.shards, from, World()) && Onward(old(World()).cursors, World().cursors)
      ensures ok ==> table in store.cursors && ChunkDone(routes(table), store.shards[table], cutoff, table,
                                                         old(World()), World(), done)
    {
      ghost var s := World();
      var n;
      ok, n := RunChunk(table, cutoff);
      ChunkKeepsAllNoGap(routes, store.shards, from, table, batch, cutoff, s, World());
      done := n < batch;
      if ok {
        ChunkEnds(routes(table), store.shards[table], cutoff, table, batch, s, World(), n);
      }
    }

    /** runChunk: the rows of the chunk delivered, then the cursor moved over them. */
    method RunChunk(table: string, cutoff: int) returns (ok: bool, n: nat)
      requires Valid() && store.Readable(table) && table in store.cursors
      modifies store, sink, ctx
      ensures ctx.faults == old(ctx.faults) + if ok then 0 else 1
      ensures var chunk := ChunkRows(store.shards[table], cutoff, table, batch, old(store.cursors));
              && (ok ==> n == |chunk| && World() == Deliver(routes(table), table, chunk, old(World())))
              && ChunkEffect(routes(table), table, chunk, old(World()), World())
    {
      n := 0;
      var cursor, rows;
      ok, cursor, rows := store.ReadStableBatchTx(ctx, table, batch);
      if !ok {
        return;
      }
      DeliverNothing(routes(table), table, World());
      if |rows| == 0 {
        return true, 0;
      }
      var plan := PlanChunk(lib, table, rows, cutoff);
      if !plan.advanced {
        return true, 0;
      }
      ok := sink.ProduceBatch(ctx, plan.main);
      if !ok {
        return;
      }
      ok := sink.ProduceDLQ(ctx, plan.dlq);
      if !ok {
        return;
      }
      ok := ctx.Try();
      if !ok {
        return;
      }
      var advanced;
      ok, advanced := store.AdvanceCursor(ctx, table, cursor, plan.maxID);
      if !ok || !advanced {
        return;
      }
      return true, plan.stableCount;
    }
  }
}
