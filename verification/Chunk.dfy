/**
 * internal/producer/chunk.go: the delivery plan for one batch of rows. The
 * stability gate cuts the batch, every row of the prefix goes to exactly one
 * stream, and the cursor may advance to the last row of the prefix only.
 */
module Chunk {
  import opened Common
  import opened Contract
  import opened Extract

  const MAX_KAFKA_MESSAGE_BYTES: nat := 1_000_000
  const MAX_DLQ_RAW_PAYLOAD_BYTES: nat := 700_000
  const REASON_OVERSIZE := "producer_oversize_truncated"
  const PAYLOAD_TRUNCATED_NOTE :=
    "payload_truncated:true (oversize; replay must re-fetch from source by shard_table+source_id)"

  datatype Envelope = Envelope(
    reason: string, shardTable: string, sourceID: int, messageID: string, channelID: string,
    channelType: nat, rawPayload: Option<Bytes>, detail: string, createdAt: int, msgTimestamp: int)

  datatype Routed = ToMain(msg: Message) | ToDLQ(env: Envelope)

  datatype Plan = Plan(main: seq<Message>, dlq: seq<Envelope>, stableCount: nat, maxID: int, advanced: bool)

  function NewEnvelope(table: string, row: Row, reason: string): Envelope {
    var tooBig := |row.payload| > MAX_DLQ_RAW_PAYLOAD_BYTES;
    Envelope(reason, table, row.id, row.messageID, row.channelID, row.channelType,
             if tooBig then None else Some(row.payload),
             if tooBig then PAYLOAD_TRUNCATED_NOTE else "", row.createdUnix, row.timestamp)
  }

  function NewOversizeEnvelope(table: string, row: Row): Envelope {
    Envelope(REASON_OVERSIZE, table, row.id, row.messageID, row.channelID, row.channelType,
             None, PAYLOAD_TRUNCATED_NOTE, row.createdUnix, row.timestamp)
  }

  /** The body to send, or None when it stays oversized without its raw payload. */
  function DegradeIfOversized(lib: Lib, msg: Message): Option<Message> {
    if lib.wireSize(msg) <= MAX_KAFKA_MESSAGE_BYTES then Some(msg)
    else
      var bare := msg.(rawPayload := None);
      if lib.wireSize(bare) <= MAX_KAFKA_MESSAGE_BYTES then Some(bare) else None
  }

  /** Where one row goes. */
  function Route(lib: Lib, table: string, row: Row): (r: Routed)
    ensures r.ToMain? ==> lib.wireSize(r.msg) <= MAX_KAFKA_MESSAGE_BYTES && r.msg.messageID == row.messageID
    ensures r.ToDLQ? ==> r.env.shardTable == table && r.env.sourceID == row.id
    ensures r.ToDLQ? && r.env.rawPayload.Some? ==>
              r.env.rawPayload.value == row.payload && |row.payload| <= MAX_DLQ_RAW_PAYLOAD_BYTES
  {
    var (msg, outcome) := ProducerExtract(lib, row);
    if outcome.OutcomeDLQ? then ToDLQ(NewEnvelope(table, row, outcome.reason))
    else match DegradeIfOversized(lib, msg)
      case Some(m) => ToMain(m)
      case None => ToDLQ(NewOversizeEnvelope(table, row))
  }

  /** A dead row's envelope locates the row and says why; it keeps the payload unless that is too large or dropped. */
  ghost predicate Locates(env: Envelope, table: string, row: Row, reason: string, keep: bool) {
    && env.reason == reason && env.shardTable == table && env.sourceID == row.id && env.messageID == row.messageID
    && env.channelID == row.channelID && env.channelType == row.channelType
    && env.createdAt == row.createdUnix && env.msgTimestamp == row.timestamp
    && env.rawPayload == (if keep then Some(row.payload) else None)
    && (env.detail == "" <==> keep)
  }

  /**
   * A message goes out as extracted when it fits, without its payload when only that
   * fits, and else is dead without its payload; a row that could not be extracted is
   * dead for that reason, with its payload when it is not too large.
   */
  lemma RouteExactly(lib: Lib, table: string, row: Row)
    ensures var (msg, outcome) := ProducerExtract(lib, row);
            var bare := msg.(rawPayload := None);
            match outcome
            case OutcomeDLQ(reason) =>
              Route(lib, table, row).ToDLQ?
              && Locates(Route(lib, table, row).env, table, row, reason, |row.payload| <= 700_000)
            case _ =>
              if lib.wireSize(msg) <= 1_000_000 then Route(lib, table, row) == ToMain(msg)
              else if lib.wireSize(bare) <= 1_000_000 then Route(lib, table, row) == ToMain(bare)
              else Route(lib, table, row).ToDLQ?
                   && Locates(Route(lib, table, row).env, table, row, "producer_oversize_truncated", false)
  {
  }

  /** The routing of one table's rows, as a value. */
  function Router(lib: Lib, table: string): Row -> Routed {
    row => Route(lib, table, row)
  }

  /** The first place from i on whose row is too recent. */
  function StableFrom(rows: seq<Row>, cutoff: int, i: nat): (n: nat)
    requires i <= |rows|
    ensures i <= n <= |rows|
    ensures forall k :: i <= k < n ==> rows[k].createdUnix <= cutoff
    ensures n < |rows| ==> rows[n].createdUnix > cutoff
    decreases |rows| - i
  {
    if i == |rows| || rows[i].createdUnix > cutoff then i else StableFrom(rows, cutoff, i + 1)
  }

  /** The longest prefix of rows all created at or before the cutoff. */
  function StablePrefix(rows: seq<Row>, cutoff: int): (r: seq<Row>)
    ensures r <= rows
    ensures forall k :: 0 <= k < |r| ==> r[k].createdUnix <= cutoff
    ensures |r| < |rows| ==> rows[|r|].createdUnix > cutoff
  {
    rows[..StableFrom(rows, cutoff, 0)]
  }

  function MainOf(route: Row -> Routed, rows: seq<Row>): seq<Message> {
    if rows == [] then []
    else
      var r := route(rows[|rows| - 1]);
      MainOf(route, rows[..|rows| - 1]) + if r.ToMain? then [r.msg] else []
  }

  function DeadOf(route: Row -> Routed, rows: seq<Row>): seq<Envelope> {
    if rows == [] then []
    else
      var r := route(rows[|rows| - 1]);
      DeadOf(route, rows[..|rows| - 1]) + if r.ToDLQ? then [r.env] else []
  }

  /** planChunk. Its result is the plan of the stable prefix, built row by row. */
  method PlanChunk(lib: Lib, table: string, rows: seq<Row>, cutoff: int) returns (plan: Plan)
    ensures var stable := StablePrefix(rows, cutoff);
            && plan.stableCount == |stable|
            && plan.main == MainOf(Router(lib, table), stable)
            && plan.dlq == DeadOf(Router(lib, table), stable)
            && plan.advanced == (stable != [])
            && plan.maxID == if stable == [] then 0 else stable[|stable| - 1].id
  {
    var stable := StablePrefix(rows, cutoff);
    plan := Plan([], [], |stable|, 0, false);
    if |stable| == 0 {
      return;
    }
    var main: seq<Message>, dlq: seq<Envelope> := [], [];
    for i := 0 to |stable|
      invariant main == MainOf(Router(lib, table), stable[..i])
      invariant dlq == DeadOf(Router(lib, table), stable[..i])
    {
      var row := stable[i];
      assert Router(lib, table)(row) == Route(lib, table, row);
      PlanStep(Router(lib, table), stable, i);
      var (msg, outcome) := ProducerExtract(lib, row);
      if outcome.OutcomeDLQ? {
        dlq := dlq + [NewEnvelope(table, row, outcome.reason)];
      } else {
        var degraded := DegradeIfOversized(lib, msg);
        if degraded.None? {
          dlq := dlq + [NewOversizeEnvelope(table, row)];
        } else {
          main := main + [degraded.value];
        }
      }
    }
    assert stable[..|stable|] == stable;
    plan := Plan(main, dlq, |stable|, stable[|stable| - 1].id, true);
  }

  lemma PlanStep(route: Row -> Routed, rows: seq<Row>, i: nat)
    requires i < |rows|
    ensures MainOf(route, rows[..i + 1]) == MainOf(route, rows[..i]) +
              match route(rows[i]) { case ToMain(m) => [m] case ToDLQ(_) => [] }
    ensures DeadOf(route, rows[..i + 1]) == DeadOf(route, rows[..i]) +
              match route(rows[i]) { case ToMain(_) => [] case ToDLQ(e) => [e] }
  {
    assert rows[..i + 1][..i] == rows[..i];
  }

  // ---- what a plan means, row by row ----

  /** Positions of the rows of one stream, ascending. */
  function MainAt(route: Row -> Routed, rows: seq<Row>): (r: seq<nat>)
    ensures forall k :: 0 <= k < |r| ==> r[k] < |rows|
  {
    if rows == [] then []
    else
      var n := |rows| - 1;
      MainAt(route, rows[..n]) + if route(rows[n]).ToMain? then [n] else []
  }

  function DeadAt(route: Row -> Routed, rows: seq<Row>): (r: seq<nat>)
    ensures forall k :: 0 <= k < |r| ==> r[k] < |rows|
  {
    if rows == [] then []
    else
      var n := |rows| - 1;
      DeadAt(route, rows[..n]) + if route(rows[n]).ToDLQ? then [n] else []
  }

  /**
   * Every row is delivered once, to one stream: the two position lists are
   * strictly increasing, disjoint and cover all rows.
   */
  lemma {:induction false} PlanPartition(route: Row -> Routed, rows: seq<Row>)
    ensures var at, dead := MainAt(route, rows), DeadAt(route, rows);
            && |at| + |dead| == |rows|
            && (forall j, k :: 0 <= j < k < |at| ==> at[j] < at[k])
            && (forall j, k :: 0 <= j < k < |dead| ==> dead[j] < dead[k])
            && (forall n :: 0 <= n < |rows| ==> (n in at <==> n !in dead))
  {
    if rows != [] {
      var n := |rows| - 1;
      PlanPartition(route, rows[..n]);
      var at, dead := MainAt(route, rows[..n]), DeadAt(route, rows[..n]);
      var toMain := route(rows[n]).ToMain?;
      assert MainAt(route, rows) == at + if toMain then [n] else [];
      assert DeadAt(route, rows) == dead + if toMain then [] else [n];
    }
  }

  /**
   * The k-th message of a stream is the routing of the row at its k-th position.
   */
  lemma {:induction false} PlanRouting(route: Row -> Routed, rows: seq<Row>)
    ensures var at, main := MainAt(route, rows), MainOf(route, rows);
            && |main| == |at|
            && forall k :: 0 <= k < |at| ==>
                 route(rows[at[k]]) == ToMain(main[k])
    ensures var dead, dlq := DeadAt(route, rows), DeadOf(route, rows);
            && |dlq| == |dead|
            && forall k :: 0 <= k < |dead| ==> route(rows[dead[k]]) == ToDLQ(dlq[k])
  {
    if rows != [] {
      var n := |rows| - 1;
      PlanRouting(route, rows[..n]);
    }
  }

  /** Each row of a planned prefix is in the stream its routing names. */
  lemma {:induction false} PlannedRowDelivered(route: Row -> Routed, rows: seq<Row>, n: nat)
    requires n < |rows|
    ensures match route(rows[n])
            case ToMain(m) => m in MainOf(route, rows)
            case ToDLQ(e) => e in DeadOf(route, rows)
  {
    if n < |rows| - 1 {
      PlannedRowDelivered(route, rows[..|rows| - 1], n);
    }
  }

  lemma {:induction false} PlanAppend(route: Row -> Routed, a: seq<Row>, b: seq<Row>)
    ensures MainOf(route, a + b) == MainOf(route, a) + MainOf(route, b)
    ensures DeadOf(route, a + b) == DeadOf(route, a) + DeadOf(route, b)
  {
    if b == [] {
      assert a + b == a;
    } else {
      var n := |b| - 1;
      PlanAppend(route, a, b[..n]);
      assert (a + b)[..|a + b| - 1] == a + b[..n];
    }
  }

  /** No planned main message exceeds the Kafka limit. */
  lemma MainMessagesFit(lib: Lib, table: string, rows: seq<Row>, m: Message)
    requires m in MainOf(Router(lib, table), rows)
    ensures lib.wireSize(m) <= MAX_KAFKA_MESSAGE_BYTES
  {
  }
}
