/**
 * The dead-letter handler of both consumers: bounded attempts on the topic,
 * then a spill file, or a hard stop when spilling is off or fails.
 */
module Dlq {
  import opened Common
  import opened Decision
  import opened Kafka

  const MAX_DLQ_RAW_VALUE_BYTES: nat := 700_000

  datatype DlqRecord = DlqRecord(
    reason: string, topic: string, partition: int, offset: int, key: Bytes, value: Option<Bytes>,
    truncated: bool, status: int)

  /** The value travels whole unless it is too large; then the caller says what is left of it. */
  function BuildRecord(reason: string, m: Fetched, status: int, cut: Option<Bytes>): DlqRecord {
    var tooBig := |m.value| > MAX_DLQ_RAW_VALUE_BYTES;
    DlqRecord(reason, m.topic, m.partition, m.offset, m.key, if tooBig then cut else Some(m.value), tooBig, status)
  }

  /** A spill file is named by partition, offset and second; None is a file left broken. */
  datatype SpillName = SpillName(partition: int, offset: int, spilledAt: int)

  datatype Dead = Dead(topic: seq<DlqRecord>, files: map<SpillName, Option<DlqRecord>>)

  /** The record identifies the message and carries its value, or says that it was cut. */
  ghost predicate Names(r: DlqRecord, m: Fetched) {
    && r.topic == m.topic && r.partition == m.partition && r.offset == m.offset && r.key == m.key
    && (r.truncated <==> |m.value| > MAX_DLQ_RAW_VALUE_BYTES)
    && (if r.truncated then r.value.Some? ==> r.value.value == Take(m.value, MAX_DLQ_RAW_VALUE_BYTES)
        else r.value == Some(m.value))
  }

  /** Which reason and status a message may be recorded with. */
  type Why = (Fetched, string, int) -> bool

  ghost predicate Accounts(why: Why, r: DlqRecord, m: Fetched) {
    Names(r, m) && why(m, r.reason, r.status)
  }

  ghost predicate InTopic(why: Why, d: Dead, m: Fetched) {
    exists n :: 0 <= n < |d.topic| && Accounts(why, d.topic[n], m)
  }

  ghost predicate InFile(why: Why, d: Dead, m: Fetched) {
    exists n :: n in d.files && n.partition == m.partition && n.offset == m.offset
                && d.files[n].Some? && Accounts(why, d.files[n].value, m)
  }

  /** The message has a sound record that an operator can find. */
  ghost predicate Recorded(why: Why, d: Dead, m: Fetched) {
    InTopic(why, d, m) || InFile(why, d, m)
  }

  /** Nothing recorded is lost, except spill files of the messages in touched. */
  ghost predicate Keeps(d: Dead, d': Dead, touched: set<(int, int)>) {
    && d.topic <= d'.topic
    && forall n :: n in d.files && (n.partition, n.offset) !in touched ==> n in d'.files && d'.files[n] == d.files[n]
  }

  lemma RecordedKeeps(why: Why, d: Dead, d': Dead, touched: set<(int, int)>, m: Fetched)
    requires Keeps(d, d', touched) && (m.partition, m.offset) !in touched && Recorded(why, d, m)
    ensures Recorded(why, d', m)
  {
  }

  /** The record stands in the topic, last, or in a file of its own. */
  ghost predicate Landed(d: Dead, rec: DlqRecord) {
    || (d.topic != [] && d.topic[|d.topic| - 1] == rec)
    || exists n :: n in d.files && n.partition == rec.partition && n.offset == rec.offset && d.files[n] == Some(rec)
  }

  lemma LandedIsRecorded(why: Why, d: Dead, rec: DlqRecord, m: Fetched)
    requires Landed(d, rec) && Accounts(why, rec, m)
    ensures Recorded(why, d, m)
  {
  }

  class Handler {
    const maxRetries: int
    const spillDir: bool
    /** Which records can be encoded. */
    const encodes: DlqRecord -> bool
    var topic: seq<DlqRecord>
    var files: map<SpillName, Option<DlqRecord>>
    /** The records Send has answered for, in order. */
    ghost var accepted: seq<DlqRecord>
    /** How many produces to the topic failed. */
    ghost var refusals: nat

    ghost function State(): Dead reads this {
      Dead(topic, files)
    }

    /** The first try and the retries. */
    function Attempts(): nat {
      if maxRetries < 0 then 0 else maxRetries + 1
    }

    /** A failed produce may still have reached the topic. */
    method WriteDLQ(rec: DlqRecord) returns (ok: bool)
      modifies this`topic, this`refusals
      ensures topic == old(topic) || topic == old(topic) + [rec]
      ensures ok ==> topic == old(topic) + [rec]
      ensures refusals == old(refusals) + if ok then 0 else 1
    {
      ok := *;
      var applied := *;
      if ok || applied {
        topic := topic + [rec];
      }
      if !ok {
        refusals := refusals + 1;
      }
    }

    /**
     * Send: true when the record is in the topic or in a spill file. The spill file
     * is resorted to exactly when every attempt on the topic was refused or the
     * record cannot be encoded; short of that Send fails only when it is stopped.
     */
    method Send(ctx: Context, rec: DlqRecord) returns (ok: bool, ghost resorted: bool)
      modifies this, ctx
      ensures ctx.Since(old(ctx.fuel), old(ctx.faults), ok)
      ensures Keeps(old(State()), State(), {(rec.partition, rec.offset)})
      ensures ok ==> Landed(State(), rec)
      ensures accepted == if ok then old(accepted) + [rec] else old(accepted)
      ensures resorted <==> !encodes(rec) || refusals == old(refusals) + Attempts()
      ensures old(refusals) <= refusals <= old(refusals) + Attempts()
      ensures !encodes(rec) ==> topic == old(topic)
      ensures !resorted ==> files == old(files) && (ok ==> topic != [] && topic[|topic| - 1] == rec)
      ensures resorted && !spillDir ==> !ok
    {
      resorted := !encodes(rec);
      if encodes(rec) {
        var attempt := 0;
        while attempt <= maxRetries
          invariant attempt <= Attempts() && refusals == old(refusals) + attempt
          invariant ctx.Since(old(ctx.fuel), old(ctx.faults), true)
          invariant files == old(files) && accepted == old(accepted) && old(topic) <= topic
          decreases maxRetries - attempt
        {
          var stop := ctx.Err();
          if stop {
            return false, false;
          }
          if attempt > 0 {
            var slept := ctx.Try();
            if !slept {
              return false, false;
            }
          }
          ok := WriteDLQ(rec);
          if ok {
            accepted := accepted + [rec];
            return true, false;
          }
          attempt := attempt + 1;
        }
      }
      resorted := true;
      ok := Escape(ctx, rec);
      if ok {
        accepted := accepted + [rec];
      }
    }

    /** escape: with a spill directory, write the record to its own file; without one, a hard stop. */
    method Escape(ctx: Context, rec: DlqRecord) returns (ok: bool)
      modifies this`files, ctx`faults
      ensures ctx.Since(ctx.fuel, old(ctx.faults), ok)
      ensures Keeps(old(State()), State(), {(rec.partition, rec.offset)})
      ensures ok ==> spillDir && exists n :: n in files && n.partition == rec.partition && n.offset == rec.offset
                                             && files[n] == Some(rec)
      ensures !spillDir ==> !ok && files == old(files)
    {
      if !spillDir {
        ctx.faults := ctx.faults + 1;
        return false;
      }
      ok := ctx.Try();
      if ok {
        var spilledAt := *;
        var name := SpillName(rec.partition, rec.offset, spilledAt);
        ok := ctx.Try();
        files := files[name := if ok then Some(rec) else None];
        assert ok ==> files[name] == Some(rec);
      }
    }
  }
}
