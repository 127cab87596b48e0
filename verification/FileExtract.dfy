/**
 * internal/fileextract: the bounded retry machine. Every pending message gets at
 * most a fixed number of attempts, then a dead-letter record; offsets advance
 * over settled prefixes. A fetch that fails in mid-batch drops what it had.
 */
module FileExtract {
  import opened Common
  import opened Json
  import opened Contract
  import opened Decision
  import opened Kafka
  import opened Settling
  import opened Dlq

  const PAYLOAD_TYPE_FILE := 8
  const DEFAULT_MAX_RETRIES: nat := 10
  const DEFAULT_BATCH_SIZE: nat := 50
  const REASON_PARSE := "parse_error"
  const REASON_OS_PERMANENT := "os_permanent"
  const REASON_RETRY_EXHAUSTED := "retry_exhausted"
  const EXTRACT_REASONS := {
    "oversize", "blacklist_ext", "download_failed", "extract_timeout", "encrypted", "empty_extract",
    "extract_error", "invalid_url"}

  datatype FilePayload = FilePayload(url: string, name: string, extension: string, size: int)

  type Decoder = Bytes -> Option<Message>

  /** extractContentTypeFile: a payload object whose type is the exact integer of a file. */
  function ContentTypeFile(raw: Option<Json>): Option<FilePayload> {
    match raw
    case Some(Obj(o)) =>
      if Get(o, "type").Num? && Get(o, "type").exact == Some(PAYLOAD_TYPE_FILE)
      then Some(FilePayload(OrEmpty(GetStr(o, "url")), OrEmpty(GetStr(o, "name")), OrEmpty(GetStr(o, "extension")),
                            if Get(o, "size").Num? && Get(o, "size").exact.Some? then Get(o, "size").exact.value else 0))
      else None
    case _ => None
  }

  function OrEmpty(s: Option<string>): string {
    if s.Some? then s.value else ""
  }

  /** What a message asks for. */
  datatype Job = Unreadable | NoFile | File(messageID: string, file: FilePayload)

  function JobOf(decode: Decoder, value: Bytes): Job {
    match decode(value)
    case None => Unreadable
    case Some(msg) =>
      match ContentTypeFile(msg.rawPayload)
      case None => NoFile
      case Some(fp) => File(msg.messageID, fp)
  }

  /** A file job is exactly a decodable message whose payload is an object of the plain integer type 8. */
  lemma JobExactly(decode: Decoder, value: Bytes)
    ensures JobOf(decode, value).Unreadable? <==> decode(value).None?
    ensures JobOf(decode, value).File? <==>
              && decode(value).Some? && decode(value).value.rawPayload.Some? && decode(value).value.rawPayload.value.Obj?
              && var t := Get(decode(value).value.rawPayload.value.fields, "type"); t.Num? && t.exact == Some(8)
    ensures JobOf(decode, value).File? ==>
              var o, fp := decode(value).value.rawPayload.value.fields, JobOf(decode, value).file;
              && JobOf(decode, value).messageID == decode(value).value.messageID
              && fp.url == (if Get(o, "url").Str? then Get(o, "url").s else "")
              && fp.name == (if Get(o, "name").Str? then Get(o, "name").s else "")
              && fp.extension == (if Get(o, "extension").Str? then Get(o, "extension").s else "")
              && (Get(o, "size").Num? && Get(o, "size").exact.Some? ==> fp.size == Get(o, "size").exact.value)
  {
  }

  /** A record states why: unreadable, or a file that was refused or given up on. */
  ghost function FileWhy(decode: Decoder): Why {
    (m: Fetched, reason: string, status: int) =>
      match JobOf(decode, m.value)
      case Unreadable => reason == REASON_PARSE
      case NoFile => false
      case File(_, _) => reason in EXTRACT_REASONS + {REASON_OS_PERMANENT, REASON_RETRY_EXHAUSTED}
  }

  datatype World = World(written: set<(string, FilePayload)>, dead: Dead)

  /** No file, or its content is written, or it has a sound record. */
  ghost predicate Handled(decode: Decoder, w: World, m: Fetched) {
    var job := JobOf(decode, m.value);
    || job.NoFile?
    || (job.File? && (job.messageID, job.file) in w.written)
    || Recorded(FileWhy(decode), w.dead, m)
  }

  /** Handled, or dropped by a failed fetch. */
  ghost function DoneIn(decode: Decoder, w: World, dropped: set<Fetched>): Done {
    m => Handled(decode, w, m) || m in dropped
  }

  lemma GrowthKeeps(decode: Decoder, w: World, w': World, dropped: set<Fetched>, touched: set<(int, int)>)
    requires w.written <= w'.written && Keeps(w.dead, w'.dead, touched)
    ensures KeepsDone(DoneIn(decode, w, dropped), DoneIn(decode, w', dropped), touched)
  {
  }

  datatype Outcome = OutcomeOK | OutcomeDLQ | OutcomeTransient | OutcomeFatal

  /** How the extractor may answer for a file. */
  datatype Extraction = Written | Refused(reason: string) | OSPermanent | TryAgain

  type Answers = map<(int, int), seq<Extraction>>

  function AnswersAt(answers: Answers, spot: (int, int)): seq<Extraction> {
    if spot in answers then answers[spot] else []
  }

  /** Download, extraction and write of one file: any outcome. */
  class Extractor {
    var written: set<(string, FilePayload)>
    /** What was answered for each message since its batch was taken up, in order. */
    ghost var answers: Answers

    ghost method NewBatch()
      modifies this`answers
      ensures answers == map[]
    {
      answers := map[];
    }

    method ExtractAndWrite(messageID: string, fp: FilePayload, ghost spot: (int, int)) returns (r: Extraction)
      modifies this
      ensures old(written) <= written
      ensures r == Written ==> (messageID, fp) in written
      ensures r.Refused? ==> r.reason in EXTRACT_REASONS
      ensures answers == old(answers)[spot := AnswersAt(old(answers), spot) + [r]]
    {
      var done := *;
      r := *;
      if r.Refused? && r.reason !in EXTRACT_REASONS {
        r := TryAgain;
      }
      if done || r == Written {
        written := written + {(messageID, fp)};
      }
      answers := answers[spot := AnswersAt(answers, spot) + [r]];
    }
  }

  // ---- what became of each message, and why ----

  predicate AllAgain(a: seq<Extraction>) {
    forall k :: 0 <= k < |a| ==> a[k] == TryAgain
  }

  /** Answers that asked for another try, but for the last one. */
  predicate Ends(a: seq<Extraction>, last: Extraction) {
    Unfinished(a) && a != [] && a[|a| - 1] == last
  }

  predicate Unfinished(a: seq<Extraction>) {
    forall k :: 0 <= k < |a| - 1 ==> a[k] == TryAgain
  }

  /** Why a file is dead: every allowed attempt asked for another, or the last answer was that very refusal. */
  predicate DeadFor(job: Job, maxRetries: nat, a: seq<Extraction>, reason: string) {
    match job
    case Unreadable => reason == "parse_error" && a == []
    case NoFile => false
    case File(_, _) =>
      || (reason == "retry_exhausted" && AllAgain(a) && |a| == maxRetries)
      || (reason == "os_permanent" && Ends(a, OSPermanent))
      || Ends(a, Refused(reason))
  }

  /** How a message stands after the answers it got; reason is that of its record if it is dead. */
  predicate StandsAs(job: Job, maxRetries: nat, disp: Disposition, a: seq<Extraction>, reason: string) {
    && |a| <= maxRetries
    && match disp
       case DispOK => if job.File? then Ends(a, Written) else job.NoFile? && a == []
       case DispDLQResolved => DeadFor(job, maxRetries, a, reason)
       case DispTransient => Unfinished(a)
  }

  /** The records that stand for one place of the log, in order. */
  function RecordsAt(recs: seq<DlqRecord>, spot: (int, int)): seq<DlqRecord> {
    if recs == [] then []
    else
      var r := recs[|recs| - 1];
      RecordsAt(recs[..|recs| - 1], spot) + if (r.partition, r.offset) == spot then [r] else []
  }

  /** The record of a message holds its value, or the head of one that is too large. */
  ghost predicate HoldsHead(rec: DlqRecord, m: Fetched) {
    Names(rec, m) && rec.value == Some(Take(m.value, 700_000)) && rec.status == 0
  }

  /** One message: a dead one has exactly one new record, which says why; any other has none. */
  ghost predicate Told(decode: Decoder, maxRetries: nat, m: Fetched, disp: Disposition, a: seq<Extraction>,
                       before: seq<DlqRecord>, now: seq<DlqRecord>)
  {
    if disp == DispDLQResolved then
      && |now| == |before| + 1 && before <= now && HoldsHead(now[|before|], m)
      && StandsAs(JobOf(decode, m.value), maxRetries, disp, a, now[|before|].reason)
    else now == before && StandsAs(JobOf(decode, m.value), maxRetries, disp, a, "")
  }

  /** The whole batch, with the records accepted before and now. */
  ghost predicate Tells(decode: Decoder, maxRetries: nat, batch: seq<Fetched>, disp: seq<Disposition>,
                        acc0: seq<DlqRecord>, acc: seq<DlqRecord>, answers: Answers)
    requires |batch| == |disp|
  {
    forall i :: 0 <= i < |batch| ==>
      Told(decode, maxRetries, batch[i], disp[i], AnswersAt(answers, Spot(batch[i])),
           RecordsAt(acc0, Spot(batch[i])), RecordsAt(acc, Spot(batch[i])))
  }

  ghost predicate OnlyAt(answers: Answers, answers': Answers, spot: (int, int)) {
    forall s :: s != spot ==> AnswersAt(answers', s) == AnswersAt(answers, s)
  }

  lemma TellsStep(decode: Decoder, maxRetries: nat, batch: seq<Fetched>, disp: seq<Disposition>,
                  acc0: seq<DlqRecord>, acc: seq<DlqRecord>, answers: Answers, i: nat, to: Disposition,
                  rec: DlqRecord, acc': seq<DlqRecord>, answers': Answers)
    requires |batch| == |disp| && i < |batch| && SameTopic(batch) && DistinctOffsets(batch)
    requires Tells(decode, maxRetries, batch, disp, acc0, acc, answers) && disp[i] == DispTransient
    requires HoldsHead(rec, batch[i]) && acc' == if to == DispDLQResolved then acc + [rec] else acc
    requires OnlyAt(answers, answers', Spot(batch[i]))
    requires StandsAs(JobOf(decode, batch[i].value), maxRetries, to, AnswersAt(answers', Spot(batch[i])), rec.reason)
    ensures Tells(decode, maxRetries, batch, disp[i := to], acc0, acc', answers')
  {
    assert (acc + [rec])[..|acc|] == acc;
    forall k | 0 <= k < |batch|
      ensures Told(decode, maxRetries, batch[k], disp[i := to][k], AnswersAt(answers', Spot(batch[k])),
                   RecordsAt(acc0, Spot(batch[k])), RecordsAt(acc', Spot(batch[k])))
    {
      assert k != i ==> Spot(batch[k]) != Spot(batch[i]);
      assert Told(decode, maxRetries, batch[k], disp[k], AnswersAt(answers, Spot(batch[k])),
                  RecordsAt(acc0, Spot(batch[k])), RecordsAt(acc, Spot(batch[k])));
    }
  }

  class Processor {
    const decode: Decoder
    const broker: Broker
    const extractor: Extractor
    const dlq: Handler
    const ctx: Context
    const batchSize: nat
    const maxRetries: nat
    /** Messages lost from a batch by a failed fetch. */
    ghost var dropped: set<Fetched>

    constructor (decode: Decoder, broker: Broker, extractor: Extractor, dlq: Handler, ctx: Context,
                 batchSize: int, maxRetries: int)
      ensures this.decode == decode && this.broker == broker && this.extractor == extractor
      ensures this.dlq == dlq && this.ctx == ctx && dropped == {}
      ensures this.batchSize == if batchSize <= 0 then DEFAULT_BATCH_SIZE else batchSize
      ensures this.maxRetries == if maxRetries <= 0 then DEFAULT_MAX_RETRIES else maxRetries
    {
      this.decode, this.broker, this.extractor, this.dlq, this.ctx := decode, broker, extractor, dlq, ctx;
      this.batchSize := if batchSize <= 0 then DEFAULT_BATCH_SIZE else batchSize;
      this.maxRetries := if maxRetries <= 0 then DEFAULT_MAX_RETRIES else maxRetries;
      dropped := {};
    }

    ghost function State(): World reads extractor, dlq {
      World(extractor.written, dlq.State())
    }

    ghost function Now(): Done reads this, extractor, dlq {
      DoneIn(decode, State(), dropped)
    }

    /** Everything below the committed offsets is handled, or was dropped by a failed fetch. */
    ghost predicate CommittedDone() reads this, broker, extractor, dlq {
      broker.Valid() && AllBelow(broker.log, broker.committed, Now())
    }

    /** writeDLQ: the record keeps the head of a value that is too large. */
    method WriteDLQ(m: Fetched, reason: string) returns (ok: bool)
      requires FileWhy(decode)(m, reason, 0)
      modifies dlq, ctx
      ensures KeepsDone(old(Now()), Now(), {Spot(m)}) && ctx.Since(old(ctx.fuel), old(ctx.faults), ok)
      ensures ok ==> Handled(decode, State(), m)
      ensures dlq.accepted == if ok then old(dlq.accepted) + [RecordOf(m, reason)] else old(dlq.accepted)
    {
      var rec := RecordOf(m, reason);
      ghost var resorted, w := false, State();
      ok, resorted := dlq.Send(ctx, rec);
      GrowthKeeps(decode, w, State(), dropped, {Spot(m)});
      if ok {
        LandedIsRecorded(FileWhy(decode), dlq.State(), rec, m);
      }
    }

    /** What the extractor answered for a message of the batch. */
    ghost function Answered(m: Fetched): seq<Extraction> reads extractor {
      AnswersAt(extractor.answers, Spot(m))
    }

    /** How a message stands after its turn. */
    ghost predicate TurnedOut(m: Fetched, outcome: Outcome, rec: DlqRecord) reads extractor {
      && HoldsHead(rec, m) && StandsAs(JobOf(decode, m.value), maxRetries, DispOf(outcome), Answered(m), rec.reason)
      && (outcome == OutcomeTransient ==> AllAgain(Answered(m)) && JobOf(decode, m.value).File?)
    }

    /** The part of attemptOne that asks the extractor: what its answer calls for. */
    method Ask(m: Fetched, messageID: string, fp: FilePayload) returns (outcome: Outcome, reason: string)
      requires JobOf(decode, m.value) == File(messageID, fp)
      requires AllAgain(Answered(m)) && |Answered(m)| < maxRetries
      modifies extractor
      ensures KeepsDone(old(Now()), Now(), {}) && OnlyAt(old(extractor.answers), extractor.answers, Spot(m))
      ensures |Answered(m)| == |old(Answered(m))| + 1 && outcome != OutcomeFatal
      ensures StandsAs(JobOf(decode, m.value), maxRetries, DispOf(outcome), Answered(m), reason)
      ensures outcome == OutcomeOK ==> Handled(decode, State(), m)
      ensures outcome == OutcomeDLQ ==> FileWhy(decode)(m, reason, 0)
      ensures outcome == OutcomeTransient ==> AllAgain(Answered(m))
    {
      ghost var w := State();
      var r := extractor.ExtractAndWrite(messageID, fp, Spot(m));
      GrowthKeeps(decode, w, State(), dropped, {});
      match r {
        case TryAgain => return OutcomeTransient, "";
        case Written => return OutcomeOK, "";
        case OSPermanent => return OutcomeDLQ, REASON_OS_PERMANENT;
        case Refused(why) => return OutcomeDLQ, why;
      }
    }

    /** attemptOne: one try at one message, which asks the extractor once if it is a file. */
    method AttemptOne(m: Fetched) returns (outcome: Outcome, ghost rec: DlqRecord)
      requires AllAgain(Answered(m)) && |Answered(m)| < maxRetries
      requires Answered(m) != [] ==> JobOf(decode, m.value).File?
      modifies extractor, dlq, ctx
      ensures ctx.Since(old(ctx.fuel), old(ctx.faults), outcome != OutcomeFatal)
      ensures KeepsDone(old(Now()), Now(), {Spot(m)}) && OnlyAt(old(extractor.answers), extractor.answers, Spot(m))
      ensures outcome == OutcomeOK || outcome == OutcomeDLQ ==> Handled(decode, State(), m)
      ensures TurnedOut(m, outcome, rec)
      ensures |Answered(m)| == |old(Answered(m))| + if JobOf(decode, m.value).File? then 1 else 0
      ensures dlq.accepted == if outcome == OutcomeDLQ then old(dlq.accepted) + [rec] else old(dlq.accepted)
    {
      var reason := "";
      outcome := OutcomeOK;
      match JobOf(decode, m.value) {
        case Unreadable => outcome, reason := OutcomeDLQ, REASON_PARSE;
        case NoFile =>
        case File(messageID, fp) => outcome, reason := Ask(m, messageID, fp);
      }
      rec := RecordOf(m, reason);
      if outcome == OutcomeDLQ {
        var ok := WriteDLQ(m, reason);
        outcome := if ok then OutcomeDLQ else OutcomeFatal;
      }
    }

    /**
     * One message's turn in a pass: try it, or give up on it exactly once its
     * attempts are used.
     */
    method Turn(m: Fetched, attempts: nat) returns (outcome: Outcome, ghost rec: DlqRecord)
      requires AllAgain(Answered(m)) && |Answered(m)| == attempts <= maxRetries
      requires maxRetries > 0 && (attempts > 0 ==> JobOf(decode, m.value).File?)
      modifies extractor, dlq, ctx
      ensures ctx.Since(old(ctx.fuel), old(ctx.faults), outcome != OutcomeFatal)
      ensures KeepsDone(old(Now()), Now(), {Spot(m)}) && OnlyAt(old(extractor.answers), extractor.answers, Spot(m))
      ensures outcome == OutcomeOK || outcome == OutcomeDLQ ==> Handled(decode, State(), m)
      ensures TurnedOut(m, outcome, rec)
      ensures outcome == OutcomeTransient ==> |Answered(m)| == attempts + 1
      ensures dlq.accepted == if outcome == OutcomeDLQ then old(dlq.accepted) + [rec] else old(dlq.accepted)
    {
      if attempts >= maxRetries {
        var ok := WriteDLQ(m, REASON_RETRY_EXHAUSTED);
        return if ok then OutcomeDLQ else OutcomeFatal, RecordOf(m, REASON_RETRY_EXHAUSTED);
      }
      if attempts > 0 {
        var slept := ctx.Try();
        if !slept {
          return OutcomeFatal, RecordOf(m, "");
        }
      }
      outcome, rec := AttemptOne(m);
    }

    /** One pass over the pending messages, which all have the same number of attempts behind them. */
    method Pass(batch: seq<Fetched>, disp: array<Disposition>, attempts: array<nat>, ghost round: nat,
                ghost acc0: seq<DlqRecord>) returns (ok: bool, changed: bool)
      requires disp.Length == attempts.Length == |batch| && SameTopic(batch) && DistinctOffsets(batch) && maxRetries > 0
      requires SettledAre(batch, disp[..], Now()) && Story(batch, disp[..], acc0)
      requires Counted(batch, disp[..], attempts[..], 0, round)
      modifies disp, attempts, extractor, dlq, ctx
      ensures Progress(batch, old(disp[..]), disp[..], old(Now()), Now(), changed)
      ensures Story(batch, disp[..], acc0) && ctx.Since(old(ctx.fuel), old(ctx.faults), ok)
      ensures ok ==> Counted(batch, disp[..], attempts[..], |batch|, round)
    {
      changed := false;
      ProgressElsewhere(batch, disp[..], Now(), Now());
      for i := 0 to |batch|
        invariant Progress(batch, old(disp[..]), disp[..], old(Now()), Now(), changed)
        invariant Story(batch, disp[..], acc0) && ctx.Since(old(ctx.fuel), old(ctx.faults), true)
        invariant Counted(batch, disp[..], attempts[..], i, round)
      {
        if disp[i] == DispTransient {
          ghost var d, was, c := disp[..], Now(), changed;
          var settled;
          ok, settled := TakeTurn(batch, disp, attempts, i, round, acc0);
          ProgressChain(batch, old(disp[..]), d, disp[..], old(Now()), was, Now(), c, settled);
          changed := changed || settled;
          if !ok {
            return;
          }
        }
      }
      ok := true;
    }

    /** The turn of message i, which is pending: its attempt counted, its outcome noted. */
    method TakeTurn(batch: seq<Fetched>, disp: array<Disposition>, attempts: array<nat>, i: nat, ghost round: nat,
                    ghost acc0: seq<DlqRecord>) returns (ok: bool, settled: bool)
      requires disp.Length == attempts.Length == |batch| && SameTopic(batch) && DistinctOffsets(batch) && maxRetries > 0
      requires i < |batch| && disp[i] == DispTransient
      requires SettledAre(batch, disp[..], Now()) && Story(batch, disp[..], acc0)
      requires Counted(batch, disp[..], attempts[..], i, round)
      modifies disp, attempts, extractor, dlq, ctx
      ensures Progress(batch, old(disp[..]), disp[..], old(Now()), Now(), settled)
      ensures Story(batch, disp[..], acc0) && ctx.Since(old(ctx.fuel), old(ctx.faults), ok)
      ensures ok ==> Counted(batch, disp[..], attempts[..], i + 1, round)
    {
      ghost var d, a, acc, was, answers := disp[..], attempts[..], dlq.accepted, Now(), extractor.answers;
      ghost var rec;
      var outcome;
      outcome, rec := Turn(batch[i], attempts[i]);
      if attempts[i] < maxRetries {
        attempts[i] := attempts[i] + 1;
      }
      var to := DispOf(outcome);
      ProgressElsewhere(batch, d, was, was);
      ProgressStep(batch, d, d, was, was, false, Now(), i, to);
      TellsStep(decode, maxRetries, batch, d, acc0, acc, answers, i, to, rec, dlq.accepted, extractor.answers);
      disp[i] := to;
      assert disp[..] == d[i := to] && attempts[..] == a[i := if a[i] < maxRetries then a[i] + 1 else a[i]];
      if outcome != OutcomeFatal {
        TriedStep(decode, batch, d, a, answers, i, round, maxRetries, to, attempts[..], extractor.answers);
      }
      return outcome != OutcomeFatal, to != DispTransient;
    }

    /** The state between two passes over a batch. */
    ghost predicate Midway(base: Marks, batch: seq<Fetched>, d: seq<Disposition>, acc0: seq<DlqRecord>)
      reads this, broker, extractor, dlq
    {
      && |d| == |batch| && broker.Valid() && Span(broker.log, base, broker.position, batch)
      && AllBelow(broker.log, base, Now()) && SettledAre(batch, d, Now())
      && CommittedAt(broker.log, base, batch, d, broker.committed) && Story(batch, d, acc0)
    }

    /** What became of every message of the batch so far, with the records accepted before it. */
    ghost predicate Story(batch: seq<Fetched>, d: seq<Disposition>, acc0: seq<DlqRecord>) reads extractor, dlq {
      |d| == |batch| && Tells(decode, maxRetries, batch, d, acc0, dlq.accepted, extractor.answers)
    }

    ghost predicate Counted(batch: seq<Fetched>, d: seq<Disposition>, a: seq<nat>, i: nat, round: nat) reads extractor {
      |d| == |a| == |batch| && Tried(decode, batch, d, a, extractor.answers, i, round, maxRetries)
    }

    /** One round: a pass and the commits it allows. */
    method Round(batch: seq<Fetched>, disp: array<Disposition>, attempts: array<nat>, ghost base: Marks,
                 ghost round: nat, ghost acc0: seq<DlqRecord>) returns (ok: bool, done: bool)
      requires disp.Length == attempts.Length == |batch| && SameTopic(batch) && Midway(base, batch, disp[..], acc0)
      requires maxRetries > 0
      requires Counted(batch, disp[..], attempts[..], 0, round) && DispTransient in disp[..]
      modifies disp, attempts, broker`committed, extractor, dlq, ctx
      ensures Midway(base, batch, disp[..], acc0) && CommittedDone() && NotBehind(old(broker.committed), broker.committed)
      ensures ctx.Since(old(ctx.fuel), old(ctx.faults), ok)
      ensures ok ==> Counted(batch, disp[..], attempts[..], |batch|, round)
      ensures ok ==> if done then Finished(batch, disp[..], broker.committed) else DispTransient in disp[..]
    {
      ghost var d, was := disp[..], Now();
      var changed;
      ok, changed := Pass(batch, disp, attempts, round, acc0);
      var d' := disp[..];
      done := false;
      AfterPass(broker.log, base, broker.position, batch, d, d', was, Now(), changed, broker.committed);
      assert Midway(base, batch, d', acc0);
      if ok {
        ok, done := CommitRound(batch, d', base, acc0, changed);
      }
      assert disp[..] == d';
    }

    /** The commits a pass allows, and the test for the end. */
    method CommitRound(batch: seq<Fetched>, d: seq<Disposition>, ghost base: Marks, ghost acc0: seq<DlqRecord>,
                       changed: bool) returns (ok: bool, done: bool)
      requires Midway(base, batch, d, acc0) && CommittedDone() && (changed || DispTransient in d)
      modifies broker`committed, ctx`faults
      ensures ctx.Since(ctx.fuel, old(ctx.faults), ok)
      ensures Midway(base, batch, d, acc0) && CommittedDone() && NotBehind(old(broker.committed), broker.committed)
      ensures ok ==> if done then Finished(batch, d, broker.committed) else DispTransient in d
    {
      ok, done := true, false;
      if changed {
        ok := broker.CommitPrefixes(ctx, batch, d, base);
        CommittedIsSafe(broker.log, base, broker.position, batch, d, Now(), broker.committed);
      }
      if ok {
        var pending := HasTransient(d);
        done := !pending;
        if done {
          BatchCovered(broker.log, base, broker.position, batch, d, broker.committed);
        }
      }
    }

    /**
     * processBatch: at most maxRetries + 1 rounds, whatever happens. A dead message
     * has one record, which says why: it was unreadable, the extractor refused it for
     * that reason, or asked for another try maxRetries times; any other has none. When
     * it ends well, every message is settled and each partition committed past its
     * last message. However it ends, no commit passed a pending message, and it ends
     * badly only for a fault outside.
     */
    method ProcessBatch(batch: seq<Fetched>, ghost base: Marks)
      returns (ok: bool, ghost verdicts: seq<Disposition>, ghost rounds: nat)
      requires batch != [] && Span(broker.log, base, broker.position, batch) && CommittedDone()
      requires AllBelow(broker.log, base, Now()) && forall p :: p in base ==> broker.committed[p] <= base[p]
      requires maxRetries > 0
      modifies broker`committed, extractor, dlq, ctx
      ensures CommittedDone() && NotBehind(old(broker.committed), broker.committed)
      ensures rounds <= maxRetries + 1 && ctx.Since(old(ctx.fuel), old(ctx.faults), ok)
      ensures |verdicts| == |batch|
      ensures Tells(decode, maxRetries, batch, verdicts, old(dlq.accepted), dlq.accepted, extractor.answers)
      ensures SettledAre(batch, verdicts, Now()) && CommittedAt(broker.log, base, batch, verdicts, broker.committed)
      ensures ok ==> Finished(batch, verdicts, broker.committed) && AllBelow(broker.log, broker.position, Now())
    {
      var disp := new Disposition[|batch|](_ => DispTransient);
      var attempts := new nat[|batch|](_ => 0);
      assert disp[0] == DispTransient;
      extractor.NewBatch();
      AtStart(decode, broker.log, base, broker.position, batch, disp[..], attempts[..], Now(), broker.committed,
              dlq.accepted, maxRetries);
      ok, rounds := Rounds(batch, disp, attempts, base);
      verdicts := disp[..];
      if ok {
        AllSettled(broker.log, base, broker.position, batch, disp[..], Now());
      }
    }

    /** The loop of processBatch. */
    method Rounds(batch: seq<Fetched>, disp: array<Disposition>, attempts: array<nat>, ghost base: Marks)
      returns (ok: bool, ghost rounds: nat)
      requires disp.Length == attempts.Length == |batch| && SameTopic(batch) && maxRetries > 0
      requires Midway(base, batch, disp[..], dlq.accepted) && CommittedDone() && DispTransient in disp[..]
      requires Counted(batch, disp[..], attempts[..], 0, 0)
      modifies disp, attempts, broker`committed, extractor, dlq, ctx
      ensures Midway(base, batch, disp[..], old(dlq.accepted)) && CommittedDone()
      ensures NotBehind(old(broker.committed), broker.committed)
      ensures rounds <= maxRetries + 1 && ctx.Since(old(ctx.fuel), old(ctx.faults), ok)
      ensures ok ==> Finished(batch, disp[..], broker.committed)
    {
      rounds := 0;
      var done := false;
      while !done
        invariant Midway(base, batch, disp[..], old(dlq.accepted)) && CommittedDone()
        invariant NotBehind(old(broker.committed), broker.committed)
        invariant rounds <= maxRetries + 1 && ctx.Since(old(ctx.fuel), old(ctx.faults), true)
        invariant if done then Finished(batch, disp[..], broker.committed) else DispTransient in disp[..]
        invariant !done ==> rounds <= maxRetries && Counted(batch, disp[..], attempts[..], 0, rounds)
        decreases !done, maxRetries + 1 - rounds
      {
        var stop := ctx.Err();
        if stop {
          return false, rounds;
        }
        ghost var round := rounds;
        rounds := rounds + 1;
        ok, done := Round(batch, disp, attempts, base, round, old(dlq.accepted));
        if !ok {
          return;
        }
        if !done {
          NextRound(decode, batch, disp[..], attempts[..], extractor.answers, round, maxRetries);
        }
      }
      ok := true;
    }

    /** fetchBatch: a timeout ends the batch; any other failure hands back what was read together with the error. */
    method FetchBatch() returns (ok: bool, batch: seq<Fetched>)
      requires broker.Valid()
      modifies broker`position, broker`failures, broker`timeouts
      ensures broker.Valid() && Span(broker.log, old(broker.position), broker.position, batch)
      ensures ok ==> batch != [] || batchSize == 0
      ensures broker.failures >= old(broker.failures) && (!ok && batch != [] ==> broker.failures > old(broker.failures))
      ensures broker.failures + broker.timeouts
              == old(broker.failures + broker.timeouts) + if |batch| >= batchSize then 0 else 1
    {
      EmptySpan(broker.log, broker.position);
      ghost var base := broker.position;
      batch := [];
      while |batch| < batchSize
        invariant broker.Valid() && Span(broker.log, base, broker.position, batch) && |batch| <= batchSize
        invariant broker.failures == old(broker.failures) && broker.timeouts == old(broker.timeouts)
        decreases batchSize - |batch|
      {
        var r;
        r, batch := broker.FetchOnto(base, batch);
        if !r.Got? {
          return |batch| > 0 && r.TimedOut?, batch;
        }
      }
      ok := true;
    }

    /**
     * Run. A batch cut short by a failed fetch is forgotten while its positions are
     * passed; without a failed fetch nothing is dropped and nothing is lost. It ends
     * only for a fault outside.
     */
    method Run()
      requires CommittedDone() && broker.position == broker.committed && maxRetries > 0
      modifies this`dropped, broker, extractor, dlq, ctx
      ensures CommittedDone() && NotBehind(old(broker.committed), broker.committed)
      ensures ctx.faults == old(ctx.faults) + 1 && DropsFor(old(dropped), old(broker.failures))
    {
      while true
        invariant CommittedDone() && AllBelow(broker.log, broker.position, Now())
        invariant NotBehind(old(broker.committed), broker.committed)
        invariant ctx.faults == old(ctx.faults) && DropsFor(old(dropped), old(broker.failures))
        decreases ctx.fuel
      {
        var stop := ctx.Err();
        if stop {
          return;
        }
        var ok := FetchAndProcess();
        if !ok {
          return;
        }
      }
    }

    /** Messages were dropped only by fetches that failed. */
    ghost predicate DropsFor(dropped0: set<Fetched>, failures0: nat) reads this, broker {
      && dropped0 <= dropped && failures0 <= broker.failures
      && (broker.failures == failures0 ==> dropped == dropped0)
    }

    /** One turn of Run. */
    method FetchAndProcess() returns (ok: bool)
      requires CommittedDone() && AllBelow(broker.log, broker.position, Now()) && maxRetries > 0
      modifies this`dropped, broker, extractor, dlq, ctx
      ensures CommittedDone() && NotBehind(old(broker.committed), broker.committed)
      ensures ctx.Since(old(ctx.fuel), old(ctx.faults), ok) && DropsFor(old(dropped), old(broker.failures))
      ensures ok ==> AllBelow(broker.log, broker.position, Now())
    {
      ghost var base, was := broker.position, Now();
      var batch;
      ok, batch := FetchBatch();
      if !ok {
        dropped := dropped + set m | m in batch;
        DropKeeps(broker.log, base, broker.position, batch, was, Now(), broker.committed);
        return true;
      }
      if |batch| > 0 {
        ghost var verdicts, rounds;
        ok, verdicts, rounds := ProcessBatch(batch, base);
      }
    }
  }

  function DispOf(outcome: Outcome): Disposition {
    match outcome
    case OutcomeOK => DispOK
    case OutcomeDLQ => DispDLQResolved
    case _ => DispTransient
  }

  function RecordOf(m: Fetched, reason: string): DlqRecord {
    BuildRecord(reason, m, 0, Some(Take(m.value, MAX_DLQ_RAW_VALUE_BYTES)))
  }

  /**
   * Pending messages before place i have had one attempt more than round, the others
   * round attempts; each attempt was answered by asking for another.
   */
  ghost predicate Tried(decode: Decoder, batch: seq<Fetched>, disp: seq<Disposition>, attempts: seq<nat>,
                        answers: Answers, i: nat, round: nat, maxRetries: nat)
    requires |batch| == |disp| == |attempts|
  {
    round <= maxRetries && forall k :: 0 <= k < |batch| && disp[k] == DispTransient ==>
      TriedOne(decode, batch[k], attempts[k], AnswersAt(answers, Spot(batch[k])), k < i, round, maxRetries)
  }

  ghost predicate TriedOne(decode: Decoder, m: Fetched, attempts: nat, a: seq<Extraction>, again: bool, round: nat,
                           maxRetries: nat)
  {
    && attempts == |a| == (if again then round + 1 else round) && AllAgain(a)
    && (attempts > 0 ==> JobOf(decode, m.value).File?)
    && (again ==> round < maxRetries)
  }

  lemma TriedStep(decode: Decoder, batch: seq<Fetched>, disp: seq<Disposition>, attempts: seq<nat>, answers: Answers,
                  i: nat, round: nat, maxRetries: nat, to: Disposition, attempts': seq<nat>, answers': Answers)
    requires |batch| == |disp| == |attempts| && i < |batch| && SameTopic(batch) && DistinctOffsets(batch)
    requires Tried(decode, batch, disp, attempts, answers, i, round, maxRetries) && disp[i] == DispTransient
    requires OnlyAt(answers, answers', Spot(batch[i]))
    requires attempts' == attempts[i := if attempts[i] < maxRetries then attempts[i] + 1 else attempts[i]]
    requires to == DispTransient ==>
               && JobOf(decode, batch[i].value).File? && AllAgain(AnswersAt(answers', Spot(batch[i])))
               && |AnswersAt(answers', Spot(batch[i]))| == attempts[i] + 1 <= maxRetries
    ensures Tried(decode, batch, disp[i := to], attempts', answers', i + 1, round, maxRetries)
  {
    forall k | 0 <= k < |batch| && disp[i := to][k] == DispTransient
      ensures TriedOne(decode, batch[k], attempts'[k], AnswersAt(answers', Spot(batch[k])), k < i + 1, round, maxRetries)
    {
      assert k != i ==> Spot(batch[k]) != Spot(batch[i]);
      assert TriedOne(decode, batch[k], attempts[k], AnswersAt(answers, Spot(batch[k])), k < i, round, maxRetries);
    }
  }

  lemma AtStart(decode: Decoder, log: Log, base: Marks, pos: Marks, batch: seq<Fetched>, disp: seq<Disposition>,
                attempts: seq<nat>, done: Done, marks: Marks, acc: seq<DlqRecord>, maxRetries: nat)
    requires Span(log, base, pos, batch) && Bounded(log, marks) && forall p :: p in base ==> marks[p] <= base[p]
    requires |disp| == |attempts| == |batch|
    requires forall i :: 0 <= i < |batch| ==> disp[i] == DispTransient && attempts[i] == 0
    ensures SameTopic(batch) && SettledAre(batch, disp, done) && CommittedAt(log, base, batch, disp, marks)
    ensures Tells(decode, maxRetries, batch, disp, acc, acc, map[])
    ensures Tried(decode, batch, disp, attempts, map[], 0, 0, maxRetries)
  {
  }

  /** After a pass that left something pending, another round is allowed. */
  lemma NextRound(decode: Decoder, batch: seq<Fetched>, disp: seq<Disposition>, attempts: seq<nat>, answers: Answers,
                  round: nat, maxRetries: nat)
    requires |batch| == |disp| == |attempts| && DispTransient in disp
    requires Tried(decode, batch, disp, attempts, answers, |batch|, round, maxRetries)
    ensures round + 1 <= maxRetries && Tried(decode, batch, disp, attempts, answers, 0, round + 1, maxRetries)
  {
  }

  /** All settled, and each partition committed past its last message of the batch. */
  ghost predicate Finished(batch: seq<Fetched>, disp: seq<Disposition>, marks: Marks) {
    && |disp| == |batch| && DispTransient !in disp
    && forall i :: 0 <= i < |batch| ==> CoveredBy(batch[i], marks)
  }

  lemma BatchCovered(log: Log, base: Marks, pos: Marks, batch: seq<Fetched>, disp: seq<Disposition>, marks: Marks)
    requires Span(log, base, pos, batch) && |batch| == |disp| && CommittedAt(log, base, batch, disp, marks)
    requires DispTransient !in disp && PointsCovered(batch, disp, marks)
    ensures Finished(batch, disp, marks)
  {
    SettledReachesEnd(log, base, pos, batch, disp, marks);
    forall i | 0 <= i < |batch| ensures CoveredBy(batch[i], marks) {
      assert Inside(log, base, pos, batch[i]);
    }
  }

  lemma AllSettled(log: Log, base: Marks, pos: Marks, batch: seq<Fetched>, disp: seq<Disposition>, done: Done)
    requires Span(log, base, pos, batch) && |batch| == |disp| && DispTransient !in disp
    requires AllBelow(log, base, done) && SettledAre(batch, disp, done)
    ensures AllBelow(log, pos, done)
  {
  }

  lemma DropKeeps(log: Log, base: Marks, pos: Marks, batch: seq<Fetched>, done: Done, done': Done, marks: Marks)
    requires Span(log, base, pos, batch) && Bounded(log, marks)
    requires AllBelow(log, base, done) && AllBelow(log, marks, done)
    requires forall m :: done(m) || m in batch ==> done'(m)
    ensures AllBelow(log, pos, done') && AllBelow(log, marks, done')
  {
  }

  /** Any number of lives of the worker, each ended by a fault and served again from the committed offsets. */
  method Lives(p: Processor, lives: nat)
    requires p.CommittedDone() && p.maxRetries > 0
    modifies p`dropped, p.broker, p.extractor, p.dlq, p.ctx
    ensures p.CommittedDone() && NotBehind(old(p.broker.committed), p.broker.committed)
    ensures p.DropsFor(old(p.dropped), old(p.broker.failures)) && p.ctx.faults == old(p.ctx.faults) + lives
  {
    for n := 0 to lives
      invariant p.CommittedDone() && NotBehind(old(p.broker.committed), p.broker.committed)
      invariant p.DropsFor(old(p.dropped), old(p.broker.failures)) && p.ctx.faults == old(p.ctx.faults) + n
    {
      p.broker.Restart();
      p.Run();
    }
  }

  // ---- the dropped batch ----

  /**
   * A batch read from base to mid is dropped and the next one, from mid to pos, is
   * worked on. What is then committed is handled exactly when no partition with a
   * dropped message was committed beyond base.
   */
  lemma LostExactlyWhenPassed(log: Log, base: Marks, mid: Marks, pos: Marks, lost: seq<Fetched>, batch: seq<Fetched>,
                              disp: seq<Disposition>, done: Done, marks: Marks)
    requires Span(log, base, mid, lost) && Span(log, mid, pos, batch) && |batch| == |disp|
    requires AllBelow(log, base, done) && SettledAre(batch, disp, done)
    requires forall k :: 0 <= k < |lost| ==> !done(lost[k])
    requires Bounded(log, marks)
    requires forall p :: p in marks ==> marks[p] <= base[p] || Reached(batch, disp, p, marks[p])
    ensures AllBelow(log, marks, done) <==>
              forall k :: 0 <= k < |lost| ==> NotPassed(base, marks, lost[k].partition)
  {
  }

  ghost predicate NotPassed(base: Marks, marks: Marks, p: int) {
    p in base && p in marks && marks[p] <= base[p]
  }

  /** Two messages: the first is dropped by a failed fetch, the second settles and is committed. */
  lemma DroppedMessageLost()
    ensures var log := Log("t", map[0 := [Entry([], []), Entry([], [])]]);
            var lost, batch := [log.At(0, 0)], [log.At(0, 1)];
            && Span(log, map[0 := 0], map[0 := 1], lost) && Span(log, map[0 := 1], map[0 := 2], batch)
            && IsPoint(batch, [DispOK], 0) && SettledAre(batch, [DispOK], m => m == batch[0])
            && !AllBelow(log, map[0 := 2], m => m == batch[0])
  {
    var log := Log("t", map[0 := [Entry([], []), Entry([], [])]]);
    var lost, batch := [log.At(0, 0)], [log.At(0, 1)];
    assert batch[0] in batch && lost[0] in lost;
    var done: Done := m => m == batch[0];
    assert !done(log.At(0, 0));
  }
}
