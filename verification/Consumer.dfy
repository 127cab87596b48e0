/**
 * internal/consumer: one batch at a time, retried in place until every message
 * is indexed or dead-lettered; offsets advance only over settled prefixes.
 */
module Consumer {
  import opened Common
  import opened Json
  import opened Contract
  import opened Decision
  import opened Kafka
  import opened Settling
  import opened Dlq
  import opened BulkWriter

  const DEFAULT_BATCH_SIZE: nat := 500
  const REASON_SCHEMA := "unknown_schema_version"
  const REASON_VISIBILITY := "visibility_untrusted"
  const REASON_PERMANENT := "permanent_4xx"

  /** The library calls of this side: message syntax and the visibility parser. */
  datatype Reader = Reader(decode: Bytes -> Option<Message>, visibility: Json -> Option<Visibility>)

  datatype Prepared = Index(msg: Message) | Poison(reason: string)

  /** Schema check, then the visibility pre-check of messages that carry a raw payload. */
  function Prepare(rd: Reader, value: Bytes): Prepared {
    match rd.decode(value)
    case None => Poison(REASON_SCHEMA)
    case Some(msg) =>
      if msg.schemaVersion != SCHEMA_VERSION then Poison(REASON_SCHEMA)
      else match msg.rawPayload
        case None => Index(msg)
        case Some(raw) =>
          match rd.visibility(raw)
          case None => Poison(REASON_VISIBILITY)
          case Some(v) => Index(msg.(spaceID := v.spaceID, visibles := v.visibles))
  }

  /** Safe to index: the known schema, and the visibility its own payload grants. */
  ghost predicate Trusted(rd: Reader, msg: Message) {
    && msg.schemaVersion == SCHEMA_VERSION
    && (msg.rawPayload.Some? ==> rd.visibility(msg.rawPayload.value) == Some(Visibility(msg.spaceID, msg.visibles)))
  }

  /** Exactly the decodable messages of the known schema with a trusted payload are indexed, with that trust. */
  lemma PrepareExactly(rd: Reader, value: Bytes)
    ensures Prepare(rd, value).Index? <==>
              && rd.decode(value).Some? && rd.decode(value).value.schemaVersion == SCHEMA_VERSION
              && (rd.decode(value).value.rawPayload.Some? ==> rd.visibility(rd.decode(value).value.rawPayload.value).Some?)
    ensures Prepare(rd, value).Index? ==>
              var m := Prepare(rd, value).msg;
              Trusted(rd, m) && m == rd.decode(value).value.(spaceID := m.spaceID, visibles := m.visibles)
    ensures Prepare(rd, value) == Poison("unknown_schema_version") <==>
              rd.decode(value).None? || rd.decode(value).value.schemaVersion != SCHEMA_VERSION
    ensures Prepare(rd, value).Poison? ==> Prepare(rd, value).reason in {"unknown_schema_version", "visibility_untrusted"}
  {
  }

  ghost predicate OnlyTrusted(rd: Reader, sent: set<Message>) {
    forall msg :: msg in sent ==> Trusted(rd, msg)
  }

  /** A record states why its message is dead: its own defect, or a permanent refusal. */
  ghost function ConsumerWhy(rd: Reader): Why {
    (m: Fetched, reason: string, status: int) =>
      match Prepare(rd, m.value)
      case Poison(r) => reason == r && status == 0
      case Index(_) => reason == REASON_PERMANENT && 400 <= status < 500 && status !in {409, 429}
  }

  datatype World = World(acked: set<Message>, dead: Dead)

  /** Indexed, or dead-lettered with a sound record. */
  ghost predicate Handled(rd: Reader, w: World, m: Fetched) {
    || (Prepare(rd, m.value).Index? && Prepare(rd, m.value).msg in w.acked)
    || Recorded(ConsumerWhy(rd), w.dead, m)
  }

  ghost function DoneIn(rd: Reader, w: World): Fetched -> bool {
    m => Handled(rd, w, m)
  }

  ghost predicate Grows(w: World, w': World, touched: set<(int, int)>) {
    w.acked <= w'.acked && Keeps(w.dead, w'.dead, touched)
  }

  lemma GrowthKeeps(rd: Reader, w: World, w': World, touched: set<(int, int)>)
    requires Grows(w, w', touched)
    ensures KeepsDone(DoneIn(rd, w), DoneIn(rd, w'), touched)
  {
  }

  /** The j-th message sent has no reply, or one that is neither a success nor a refusal for good. */
  predicate Open(replies: seq<BulkItemResult>, j: nat) {
    j >= |replies| || RetryLater(replies[j])
  }

  ghost predicate SomeOpen(msgs: seq<Message>, replies: seq<BulkItemResult>) {
    exists j :: 0 <= j < |msgs| && Open(replies, j)
  }

  /** The bulk writer as this side sees it: any results, of any length. */
  class Writer {
    var acked: set<Message>
    /** Every message ever handed over. */
    ghost var sent: set<Message>
    /** The last call: what was handed over and what came back. */
    ghost var lastSent: seq<Message>
    ghost var replies: seq<BulkItemResult>
    /** How many calls there were, and how many of them left a message open. */
    ghost var calls: nat
    ghost var openCalls: nat

    method Bulk(msgs: seq<Message>) returns (res: seq<BulkItemResult>)
      modifies this
      ensures old(acked) <= acked
      ensures forall j :: 0 <= j < |msgs| && j < |res| && res[j].ok ==> msgs[j] in acked
      ensures sent == old(sent) + set j | 0 <= j < |msgs| :: msgs[j]
      ensures lastSent == msgs && replies == res && calls == old(calls) + 1
      ensures openCalls == old(openCalls) + if SomeOpen(msgs, res) then 1 else 0
    {
      res := *;
      acked := acked + set j | 0 <= j < |msgs| && j < |res| && res[j].ok :: msgs[j];
      sent := sent + set j | 0 <= j < |msgs| :: msgs[j];
      lastSent, replies, calls := msgs, res, calls + 1;
      openCalls := openCalls + if SomeOpen(msgs, res) then 1 else 0;
    }
  }

  /** classifyBulk on a message that passed its checks. */
  function ClassifyBulk(res: BulkItemResult): Disposition {
    if res.ok then DispOK else if res.Permanent() then DispDLQResolved else DispTransient
  }

  /** The messages to send: each the prepared form of a pending message, at most once. */
  ghost predicate Bulkable(prepared: seq<Prepared>, disp: seq<Disposition>, toBulk: seq<Message>, bulkIdx: seq<nat>)
    requires |prepared| == |disp|
  {
    && |toBulk| == |bulkIdx|
    && (forall j :: 0 <= j < |bulkIdx| ==>
          bulkIdx[j] < |prepared| && disp[bulkIdx[j]] == DispTransient && prepared[bulkIdx[j]] == Index(toBulk[j]))
    && (forall j, k :: 0 <= j < k < |bulkIdx| ==> bulkIdx[j] != bulkIdx[k])
  }

  /** Of the first n messages, those that are pending and not poison are among the ones to send. */
  ghost predicate Complete(prepared: seq<Prepared>, disp: seq<Disposition>, n: nat, bulkIdx: seq<nat>)
    requires n <= |prepared| == |disp|
  {
    forall i: nat :: i < n && disp[i] == DispTransient && prepared[i].Index? ==> i in bulkIdx
  }

  /** No poison is pending. */
  ghost predicate NoPoison(prepared: seq<Prepared>, disp: seq<Disposition>)
    requires |prepared| == |disp|
  {
    forall i :: 0 <= i < |prepared| && disp[i] == DispTransient ==> prepared[i].Index?
  }

  /** Message i was sent, as the j-th of its call, and its own reply leaves it open. */
  ghost predicate Awaits(prepared: seq<Prepared>, i: nat, sent: seq<Message>, replies: seq<BulkItemResult>, j: nat)
    requires i < |prepared|
  {
    j < |sent| && prepared[i] == Index(sent[j]) && Open(replies, j)
  }

  /** Every pending message was sent and awaits a final reply. */
  ghost predicate Explained(prepared: seq<Prepared>, disp: seq<Disposition>, sent: seq<Message>,
                            replies: seq<BulkItemResult>)
    requires |prepared| == |disp|
  {
    forall i :: 0 <= i < |prepared| && disp[i] == DispTransient ==> exists j :: Awaits(prepared, i, sent, replies, j)
  }

  /** Where the messages before place n stand in the reading of the replies. */
  ghost predicate ReadUpTo(disp: seq<Disposition>, bulkIdx: seq<nat>, n: nat, replies: seq<BulkItemResult>) {
    forall k :: 0 <= k < n && k < |bulkIdx| && bulkIdx[k] < |disp| && disp[bulkIdx[k]] == DispTransient ==>
      Open(replies, k)
  }

  lemma AllExplained(prepared: seq<Prepared>, d: seq<Disposition>, d': seq<Disposition>, toBulk: seq<Message>,
                     bulkIdx: seq<nat>, replies: seq<BulkItemResult>)
    requires |prepared| == |d| && NeverReopened(d, d') && NoPoison(prepared, d)
    requires Bulkable(prepared, d, toBulk, bulkIdx) && Complete(prepared, d, |d|, bulkIdx)
    requires ReadUpTo(d', bulkIdx, |bulkIdx|, replies)
    ensures Explained(prepared, d', toBulk, replies)
    ensures DispTransient in d' ==> SomeOpen(toBulk, replies)
  {
    forall i | 0 <= i < |prepared| && d'[i] == DispTransient ensures exists j :: Awaits(prepared, i, toBulk, replies, j) {
      var j :| 0 <= j < |bulkIdx| && bulkIdx[j] == i;
      assert Awaits(prepared, i, toBulk, replies, j);
    }
  }

  class Processor {
    const rd: Reader
    const broker: Broker
    const writer: Writer
    const dlq: Handler
    const ctx: Context
    const batchSize: nat

    constructor (rd: Reader, broker: Broker, writer: Writer, dlq: Handler, ctx: Context, batchSize: int)
      ensures this.rd == rd && this.broker == broker && this.writer == writer && this.dlq == dlq && this.ctx == ctx
      ensures this.batchSize == if batchSize <= 0 then DEFAULT_BATCH_SIZE else batchSize
    {
      this.rd, this.broker, this.writer, this.dlq, this.ctx := rd, broker, writer, dlq, ctx;
      this.batchSize := if batchSize <= 0 then DEFAULT_BATCH_SIZE else batchSize;
    }

    ghost function State(): World reads writer, dlq {
      World(writer.acked, dlq.State())
    }

    ghost function Now(): Done reads writer, dlq {
      DoneIn(rd, State())
    }

    /** Everything below the committed offsets is indexed, in the DLQ topic or in a spill file. */
    ghost predicate CommittedHandled() reads broker, writer, dlq {
      broker.Valid() && AllBelow(broker.log, broker.committed, Now())
    }

    method RoutePoison(m: Fetched, status: int, reason: string) returns (ok: bool)
      requires ConsumerWhy(rd)(m, reason, status)
      modifies dlq, ctx
      ensures KeepsDone(old(Now()), Now(), {Spot(m)}) && ctx.Since(old(ctx.fuel), old(ctx.faults), ok)
      ensures ok ==> Handled(rd, State(), m)
      ensures ok ==> |dlq.accepted| == |old(dlq.accepted)| + 1 && old(dlq.accepted) <= dlq.accepted
                     && var r := dlq.accepted[|old(dlq.accepted)|];
                        && Names(r, m) && r.reason == reason && r.status == status
                        && r.value == if |m.value| > 700_000 then None else Some(m.value)
    {
      var rec := BuildRecord(reason, m, status, None);
      ghost var resorted, w := false, State();
      ok, resorted := dlq.Send(ctx, rec);
      GrowthKeeps(rd, w, State(), {Spot(m)});
      if ok {
        LandedIsRecorded(ConsumerWhy(rd), dlq.State(), rec, m);
      }
    }

    /** Either poison loop of resolvePass: pending messages with this defect go to the DLQ. */
    method RoutePoisons(batch: seq<Fetched>, prepared: seq<Prepared>, disp: array<Disposition>, reason: string)
      returns (ok: bool, changed: bool)
      requires |batch| == |prepared| == disp.Length && SameTopic(batch) && DistinctOffsets(batch)
      requires forall i :: 0 <= i < |batch| ==> prepared[i] == Prepare(rd, batch[i].value)
      requires SettledAre(batch, disp[..], Now())
      modifies disp, dlq, ctx
      ensures Progress(batch, old(disp[..]), disp[..], old(Now()), Now(), changed)
      ensures ctx.Since(old(ctx.fuel), old(ctx.faults), ok)
      ensures ok ==> forall i :: 0 <= i < |batch| && prepared[i] == Poison(reason) ==> disp[i] != DispTransient
    {
      changed := false;
      for i := 0 to |batch|
        invariant Progress(batch, old(disp[..]), disp[..], old(Now()), Now(), changed)
        invariant ctx.Since(old(ctx.fuel), old(ctx.faults), true)
        invariant forall k :: 0 <= k < i && prepared[k] == Poison(reason) ==> disp[k] != DispTransient
      {
        if disp[i] == DispTransient && prepared[i] == Poison(reason) {
          ghost var w, d := Now(), disp[..];
          ok := RoutePoison(batch[i], 0, reason);
          ProgressStep(batch, old(disp[..]), d, old(Now()), w, changed, Now(), i,
                       if ok then DispDLQResolved else DispTransient);
          if !ok {
            assert d[i := DispTransient] == d;
            return;
          }
          disp[i] := DispDLQResolved;
          assert disp[..] == d[i := DispDLQResolved];
          changed := true;
        }
      }
      ok := true;
    }

    /** The pending messages that are not poison, in order, with their positions. */
    method Collect(batch: seq<Fetched>, prepared: seq<Prepared>, disp: seq<Disposition>)
      returns (toBulk: seq<Message>, bulkIdx: seq<nat>)
      requires |batch| == |prepared| == |disp|
      requires forall i :: 0 <= i < |batch| ==> prepared[i] == Prepare(rd, batch[i].value)
      ensures Bulkable(prepared, disp, toBulk, bulkIdx) && Complete(prepared, disp, |disp|, bulkIdx)
      ensures forall j :: 0 <= j < |toBulk| ==> Trusted(rd, toBulk[j])
    {
      toBulk, bulkIdx := [], [];
      for i := 0 to |batch|
        invariant Bulkable(prepared, disp, toBulk, bulkIdx) && Complete(prepared, disp, i, bulkIdx)
        invariant forall j :: 0 <= j < |bulkIdx| ==> bulkIdx[j] < i
        invariant forall j :: 0 <= j < |toBulk| ==> Trusted(rd, toBulk[j])
      {
        if disp[i] == DispTransient && prepared[i].Index? {
          toBulk, bulkIdx := toBulk + [prepared[i].msg], bulkIdx + [i];
          assert bulkIdx[|bulkIdx| - 1] == i;
        }
      }
    }

    /** The bulk part of resolvePass: index what is left, and dead-letter permanent refusals. */
    method IndexPending(batch: seq<Fetched>, prepared: seq<Prepared>, disp: array<Disposition>)
      returns (ok: bool, changed: bool)
      requires |batch| == |prepared| == disp.Length && SameTopic(batch) && DistinctOffsets(batch)
      requires forall i :: 0 <= i < |batch| ==> prepared[i] == Prepare(rd, batch[i].value)
      requires SettledAre(batch, disp[..], Now()) && OnlyTrusted(rd, writer.sent) && NoPoison(prepared, disp[..])
      modifies disp, writer, dlq, ctx
      ensures Progress(batch, old(disp[..]), disp[..], old(Now()), Now(), changed)
      ensures ctx.Since(old(ctx.fuel), old(ctx.faults), ok) && OnlyTrusted(rd, writer.sent)
      ensures Asked(old(writer.calls), old(writer.openCalls), ok && DispTransient in disp[..])
      ensures ok ==> Explained(prepared, disp[..], writer.lastSent, writer.replies)
    {
      changed := false;
      ghost var d0, w0 := disp[..], Now();
      var toBulk, bulkIdx := Collect(batch, prepared, disp[..]);
      if |toBulk| == 0 {
        AllExplained(prepared, d0, d0, toBulk, bulkIdx, []);
        return true, false;
      }
      ghost var w := State();
      var bulkRes := writer.Bulk(toBulk);
      GrowthKeeps(rd, w, State(), {});
      ProgressElsewhere(batch, d0, w0, Now());
      ghost var w1 := Now();
      ok, changed := ReadAll(batch, prepared, disp, toBulk, bulkIdx, bulkRes);
      ProgressChain(batch, d0, d0, disp[..], w0, w1, Now(), false, changed);
      if ok {
        AllExplained(prepared, d0, disp[..], toBulk, bulkIdx, bulkRes);
      }
    }

    /** The replies read one after the other. */
    method ReadAll(batch: seq<Fetched>, prepared: seq<Prepared>, disp: array<Disposition>, toBulk: seq<Message>,
                   bulkIdx: seq<nat>, bulkRes: seq<BulkItemResult>) returns (ok: bool, changed: bool)
      requires |batch| == |prepared| == disp.Length && SameTopic(batch) && DistinctOffsets(batch)
      requires forall i :: 0 <= i < |batch| ==> prepared[i] == Prepare(rd, batch[i].value)
      requires SettledAre(batch, disp[..], Now()) && Bulkable(prepared, disp[..], toBulk, bulkIdx)
      requires Taken(toBulk, bulkRes)
      modifies disp, dlq, ctx
      ensures Progress(batch, old(disp[..]), disp[..], old(Now()), Now(), changed)
      ensures ctx.Since(old(ctx.fuel), old(ctx.faults), ok)
      ensures ok ==> ReadUpTo(disp[..], bulkIdx, |bulkIdx|, bulkRes)
    {
      changed := false;
      ProgressElsewhere(batch, disp[..], Now(), Now());
      for j := 0 to |bulkIdx|
        invariant Progress(batch, old(disp[..]), disp[..], old(Now()), Now(), changed)
        invariant ctx.Since(old(ctx.fuel), old(ctx.faults), true) && ReadUpTo(disp[..], bulkIdx, j, bulkRes)
        invariant forall k :: j <= k < |bulkIdx| ==> disp[bulkIdx[k]] == DispTransient
      {
        ghost var w, d := Now(), disp[..];
        var to;
        ok, to := Read(batch, bulkIdx[j], toBulk[j], bulkRes, j);
        ProgressStep(batch, old(disp[..]), d, old(Now()), w, changed, Now(), bulkIdx[j], to);
        disp[bulkIdx[j]] := to;
        assert disp[..] == d[bulkIdx[j] := to];
        changed := changed || to != DispTransient;
        if !ok {
          return;
        }
      }
      ok := true;
    }

    /** What the replies call a success is in the index. */
    ghost predicate Taken(toBulk: seq<Message>, bulkRes: seq<BulkItemResult>) reads writer {
      forall k :: 0 <= k < |toBulk| && k < |bulkRes| && bulkRes[k].ok ==> toBulk[k] in writer.acked
    }

    /** The j-th reply read, for message idx of the batch. */
    method Read(batch: seq<Fetched>, idx: nat, msg: Message, bulkRes: seq<BulkItemResult>, j: nat)
      returns (ok: bool, to: Disposition)
      requires idx < |batch| && Prepare(rd, batch[idx].value) == Index(msg)
      requires j < |bulkRes| && bulkRes[j].ok ==> msg in writer.acked
      modifies dlq, ctx
      ensures KeepsDone(old(Now()), Now(), {Spot(batch[idx])}) && ctx.Since(old(ctx.fuel), old(ctx.faults), ok)
      ensures to != DispTransient ==> Handled(rd, State(), batch[idx])
      ensures ok && to == DispTransient ==> Open(bulkRes, j)
    {
      var res := if j < |bulkRes| then bulkRes[j] else BulkItemResult(msg.messageID, false, 0);
      to := ClassifyBulk(res);
      ok := true;
      if to == DispDLQResolved {
        ok := RoutePoison(batch[idx], res.status, REASON_PERMANENT);
        to := if ok then to else DispTransient;
      }
    }

    /** Since an earlier moment: at most one call, and one that left a message open if so it is said. */
    ghost predicate Asked(calls: nat, openCalls: nat, open: bool) reads writer {
      && calls <= writer.calls <= calls + 1 && openCalls <= writer.openCalls
      && (open ==> writer.calls == calls + 1 && writer.openCalls == openCalls + 1)
    }

    /**
     * resolvePass: one pass over the pending messages of a batch. What it leaves
     * pending it has sent, and the reply to that very message was not final.
     */
    method ResolvePass(batch: seq<Fetched>, prepared: seq<Prepared>, disp: array<Disposition>)
      returns (ok: bool, changed: bool)
      requires |batch| == |prepared| == disp.Length && SameTopic(batch) && DistinctOffsets(batch)
      requires forall i :: 0 <= i < |batch| ==> prepared[i] == Prepare(rd, batch[i].value)
      requires SettledAre(batch, disp[..], Now()) && OnlyTrusted(rd, writer.sent)
      modifies disp, writer, dlq, ctx
      ensures Progress(batch, old(disp[..]), disp[..], old(Now()), Now(), changed)
      ensures ctx.Since(old(ctx.fuel), old(ctx.faults), ok) && OnlyTrusted(rd, writer.sent)
      ensures Asked(old(writer.calls), old(writer.openCalls), ok && DispTransient in disp[..])
      ensures ok ==> Explained(prepared, disp[..], writer.lastSent, writer.replies)
    {
      ghost var d0, w0 := disp[..], Now();
      ok, changed := RoutePoisons(batch, prepared, disp, REASON_SCHEMA);
      if ok {
        ghost var d1, w1, c1 := disp[..], Now(), changed;
        var more;
        ok, more := RoutePoisons(batch, prepared, disp, REASON_VISIBILITY);
        ProgressChain(batch, d0, d1, disp[..], w0, w1, Now(), c1, more);
        changed := changed || more;
      }
      if ok {
        ghost var d2, w2, c2 := disp[..], Now(), changed;
        var more;
        ok, more := IndexPending(batch, prepared, disp);
        ProgressChain(batch, d0, d2, disp[..], w0, w2, Now(), c2, more);
        changed := changed || more;
      }
    }

    /**
     * processBatch. However it ends, what is committed is handled and no
     * partition went back; when it ends well, the whole batch is committed. It ends
     * badly only for a fault outside, and calls the index again only after a call
     * that left a message open.
     */
    method ProcessBatch(batch: seq<Fetched>, ghost base: Marks) returns (ok: bool)
      requires batch != [] && CommittedHandled() && base == broker.committed
      requires Span(broker.log, base, broker.position, batch) && OnlyTrusted(rd, writer.sent)
      modifies broker`committed, writer, dlq, ctx
      ensures CommittedHandled() && OnlyTrusted(rd, writer.sent)
      ensures NotBehind(old(broker.committed), broker.committed)
      ensures ctx.Since(old(ctx.fuel), old(ctx.faults), ok) && (ok ==> ctx.fuel < old(ctx.fuel))
      ensures writer.calls - old(writer.calls) <= writer.openCalls - old(writer.openCalls) + 1
      ensures ok ==> broker.committed == broker.position
    {
      var prepared := PrepareAll(batch);
      var disp := new Disposition[|batch|](_ => DispTransient);
      SpanTopic(broker.log, base, broker.position, batch);
      assert disp[0] == DispTransient;
      var done := false;
      while !done
        invariant fresh(disp) && disp.Length == |batch|
        invariant Midway(base, batch, disp[..]) && NotBehind(old(broker.committed), broker.committed)
        invariant CommittedHandled()
        invariant if done then broker.committed == broker.position else DispTransient in disp[..]
        invariant ctx.Since(old(ctx.fuel), old(ctx.faults), true) && (done ==> ctx.fuel < old(ctx.fuel))
        invariant writer.calls - old(writer.calls) <= writer.openCalls - old(writer.openCalls) + if done then 1 else 0
        decreases !done, ctx.fuel
      {
        var stop := ctx.Err();
        if stop {
          return false;
        }
        ok, done := Round(batch, prepared, disp, base);
        if !ok {
          return;
        }
      }
      ok := true;
    }

    /** The state between two passes over a batch. */
    ghost predicate Midway(base: Marks, batch: seq<Fetched>, d: seq<Disposition>) reads broker, writer, dlq {
      && NotBehind(base, broker.committed)
      && |d| == |batch| && broker.Valid() && Span(broker.log, base, broker.position, batch)
      && AllBelow(broker.log, base, Now()) && SettledAre(batch, d, Now())
      && CommittedAt(broker.log, base, batch, d, broker.committed) && OnlyTrusted(rd, writer.sent)
    }

    /** One turn of the loop in processBatch: a pass, the commits it allows, and the test for the end. */
    method Round(batch: seq<Fetched>, prepared: seq<Prepared>, disp: array<Disposition>, ghost base: Marks)
      returns (ok: bool, done: bool)
      requires disp.Length == |batch| == |prepared| && Midway(base, batch, disp[..]) && DispTransient in disp[..]
      requires SameTopic(batch)
      requires forall i :: 0 <= i < |batch| ==> prepared[i] == Prepare(rd, batch[i].value)
      modifies disp, broker`committed, writer, dlq, ctx
      ensures Midway(base, batch, disp[..]) && CommittedHandled() && NotBehind(old(broker.committed), broker.committed)
      ensures ctx.Since(old(ctx.fuel), old(ctx.faults), ok)
      ensures Asked(old(writer.calls), old(writer.openCalls), ok && !done)
      ensures ok ==> if done then broker.committed == broker.position else DispTransient in disp[..]
    {
      ghost var d, w := disp[..], Now();
      var changed;
      ok, changed := ResolvePass(batch, prepared, disp);
      done := false;
      AfterPass(broker.log, base, broker.position, batch, d, disp[..], w, Now(), changed, broker.committed);
      if ok {
        ok, done := CommitRound(batch, disp[..], base, changed);
      }
    }

    /** The commits a pass allows, and the test for the end. */
    method CommitRound(batch: seq<Fetched>, d: seq<Disposition>, ghost base: Marks, changed: bool)
      returns (ok: bool, done: bool)
      requires Midway(base, batch, d) && CommittedHandled() && (changed || DispTransient in d)
      modifies broker`committed, ctx`faults
      ensures Midway(base, batch, d) && CommittedHandled() && NotBehind(old(broker.committed), broker.committed)
      ensures ctx.Since(ctx.fuel, old(ctx.faults), ok) && (done ==> ok)
      ensures ok ==> if done then broker.committed == broker.position else DispTransient in d
    {
      ok, done := true, false;
      if changed {
        ok := broker.CommitPrefixes(ctx, batch, d, base);
        CommittedIsSafe(broker.log, base, broker.position, batch, d, Now(), broker.committed);
      }
      if ok {
        var pending := HasTransient(d);
        done := !pending;
        if done {
          SettledReachesEnd(broker.log, base, broker.position, batch, d, broker.committed);
          EndEverywhere(base, broker.position, broker.committed);
        }
      }
    }

    method PrepareAll(batch: seq<Fetched>) returns (prepared: seq<Prepared>)
      ensures |prepared| == |batch|
      ensures forall i :: 0 <= i < |batch| ==> prepared[i] == Prepare(rd, batch[i].value)
    {
      prepared := [];
      for i := 0 to |batch|
        invariant |prepared| == i
        invariant forall k :: 0 <= k < i ==> prepared[k] == Prepare(rd, batch[k].value)
      {
        prepared := prepared + [Prepare(rd, batch[i].value)];
      }
    }

    /** fetchBatch: whatever arrived before the batch was full or a later fetch failed. */
    method FetchBatch() returns (ok: bool, batch: seq<Fetched>)
      requires broker.Valid()
      modifies broker`position, broker`failures, broker`timeouts, ctx`faults
      ensures ctx.Since(ctx.fuel, old(ctx.faults), ok)
      ensures broker.Valid() && Span(broker.log, old(broker.position), broker.position, batch)
      ensures if ok then 1 <= |batch| <= batchSize || |batch| == 1 else batch == []
      ensures broker.failures + broker.timeouts
              == old(broker.failures + broker.timeouts) + if ok && |batch| >= batchSize then 0 else 1
    {
      EmptySpan(broker.log, broker.position);
      ghost var base := broker.position;
      var r;
      r, batch := broker.FetchOnto(base, []);
      if !r.Got? {
        ctx.faults := ctx.faults + 1;
        return false, [];
      }
      while |batch| < batchSize
        invariant broker.Valid() && Span(broker.log, base, broker.position, batch)
        invariant 1 <= |batch| <= batchSize || |batch| == 1
        invariant broker.failures + broker.timeouts == old(broker.failures + broker.timeouts)
        invariant ctx.faults == old(ctx.faults)
        decreases batchSize - |batch|
      {
        r, batch := broker.FetchOnto(base, batch);
        if !r.Got? {
          break;
        }
      }
      ok := true;
    }

    /**
     * Run: batches until a fault outside ends it. What it fetched between batches is
     * all committed.
     */
    method Run()
      requires CommittedHandled() && broker.position == broker.committed && OnlyTrusted(rd, writer.sent)
      modifies broker, writer, dlq, ctx
      ensures CommittedHandled() && OnlyTrusted(rd, writer.sent)
      ensures NotBehind(old(broker.committed), broker.committed)
      ensures ctx.faults == old(ctx.faults) + 1
    {
      while true
        invariant CommittedHandled() && broker.position == broker.committed && OnlyTrusted(rd, writer.sent)
        invariant NotBehind(old(broker.committed), broker.committed) && ctx.faults == old(ctx.faults)
        decreases ctx.fuel
      {
        var stop := ctx.Err();
        if stop {
          return;
        }
        ghost var base := broker.committed;
        var ok, batch := FetchBatch();
        if !ok {
          return;
        }
        ok := ProcessBatch(batch, base);
        if !ok {
          return;
        }
      }
    }
  }

  /**
   * Any number of lives of the worker, each ended by a fault. A crash is an end of
   * Run: whatever was written stays, and the next life is served again from the
   * committed offsets.
   */
  method Lives(p: Processor, lives: nat)
    requires p.CommittedHandled() && OnlyTrusted(p.rd, p.writer.sent)
    modifies p.broker, p.writer, p.dlq, p.ctx
    ensures p.CommittedHandled() && OnlyTrusted(p.rd, p.writer.sent)
    ensures NotBehind(old(p.broker.committed), p.broker.committed) && p.ctx.faults == old(p.ctx.faults) + lives
  {
    for n := 0 to lives
      invariant p.CommittedHandled() && OnlyTrusted(p.rd, p.writer.sent)
      invariant NotBehind(old(p.broker.committed), p.broker.committed) && p.ctx.faults == old(p.ctx.faults) + n
    {
      p.broker.Restart();
      p.Run();
    }
  }
}
