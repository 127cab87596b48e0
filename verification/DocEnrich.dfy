/**
 * internal/backfill/doc_enrich.go, and how the historical path relates to the
 * realtime one: the same row must give the same documents, or no document.
 */
module DocEnrich {
  import opened Common
  import opened Json
  import opened Contract
  import opened Decimal
  import opened Extract
  import opened Chunk
  import opened BulkWriter
  import opened EsDoc
  import opened Consumer

  const REASON_DOC_CONVERT := "doc_convert"

  /** What becomes of a row: documents, or a dead record with a reason. */
  datatype Loaded = Indexable(fam: Family<Doc>, rawExcluded: bool) | Spillable(reason: string)

  /** docFromRow: the backfill parses the visibility itself and fails closed. */
  function DocFromRow(lib: Lib, tx: Text, row: Row): Loaded {
    var (msg, outcome) := BackfillExtract(lib, row);
    if outcome.OutcomeDLQ? then Spillable(outcome.reason)
    else
      var enriched := if IsSignalEncrypted(row) then Some(msg) else Enrich(lib, msg, row);
      match enriched
      case None => Spillable(REASON_DOC_CONVERT)
      case Some(m) =>
        match DocFromMessage(tx, m)
        case None => Spillable(REASON_DOC_CONVERT)
        case Some(fam) => Indexable(fam, outcome.OutcomeRawExcluded?)
  }

  /** The message with its trusted visibility and its whole payload, or None when the ACL cannot be trusted. */
  function Enrich(lib: Lib, msg: Message, row: Row): Option<Message> {
    match lib.parse(row.payload)
    case None => None
    case Some(raw) =>
      match lib.visibility(raw)
      case None => None
      case Some(v) => Some(msg.(spaceID := v.spaceID, visibles := v.visibles, rawPayload := Some(raw)))
  }

  /**
   * A row is spilled exactly when its payload is no object with members, its
   * visibility cannot be trusted or its message id is no number; encrypted rows are
   * judged by the last alone. The others count as excluded unless they are texts.
   */
  lemma LoadedExactly(lib: Lib, tx: Text, row: Row)
    ensures var cipher := row.signal != 0 || row.settingSignalBit;
            var o := ParseObject(lib, row.payload);
            match DocFromRow(lib, tx, row)
            case Spillable(reason) =>
              if !cipher && o.None? then reason == "payload_parse"
              else
                && reason == "doc_convert"
                && (ParseInt(row.messageID).None? || (!cipher && lib.visibility(Obj(o.value)).None?))
            case Indexable(_, rawExcluded) =>
              && ParseInt(row.messageID).Some? && (cipher || (o.Some? && lib.visibility(Obj(o.value)).Some?))
              && (rawExcluded <==> cipher || PayloadType(o.value) != 1 || !Get(o.value, "content").Str?)
  {
  }

  /** The documents of a row on the historical path; None when it is dead-lettered. */
  function BackfillDocs(lib: Lib, tx: Text, row: Row): Option<Family<Doc>> {
    match DocFromRow(lib, tx, row)
    case Indexable(fam, _) => Some(fam)
    case Spillable(_) => None
  }

  /** The documents of a row on the realtime path: producer, wire, consumer checks, conversion. */
  function RealtimeDocs(lib: Lib, tx: Text, decode: Bytes -> Option<Message>, encode: Message -> Bytes, table: string,
                        row: Row): Option<Family<Doc>>
  {
    match Route(lib, table, row)
    case ToDLQ(_) => None
    case ToMain(m) =>
      match Prepare(Reader(decode, lib.visibility), encode(m))
      case Poison(_) => None
      case Index(msg) => DocFromMessage(tx, msg)
  }

  /** The message the backfill converts is the one the producer extracts. */
  lemma SameMessage(lib: Lib, row: Row)
    ensures var (pm, po) := ProducerExtract(lib, row);
            var (bm, bo) := BackfillExtract(lib, row);
            && (po.OutcomeDLQ? <==> bo.OutcomeDLQ? || (!IsSignalEncrypted(row) && Enrich(lib, bm, row).None?))
            && (!po.OutcomeDLQ? ==> Some(pm) == if IsSignalEncrypted(row) then Some(bm) else Enrich(lib, bm, row))
            && (!po.OutcomeDLQ? ==> pm.schemaVersion == SCHEMA_VERSION && (pm.rawPayload.Some? <==> !IsSignalEncrypted(row)))
            && (!po.OutcomeDLQ? && pm.rawPayload.Some? ==>
                  pm.rawPayload.value.Obj? && lib.visibility(pm.rawPayload.value) == Some(Visibility(pm.spaceID, pm.visibles)))
  {
  }

  /**
   * Both paths build the same documents with the same children, or none, for every
   * row whose message fits the Kafka limit or that the backfill dead-letters; and
   * for no other row, since an oversized message loses its payload or its place.
   */
  lemma PathsAgreeExactly(lib: Lib, tx: Text, decode: Bytes -> Option<Message>, encode: Message -> Bytes,
                          table: string, row: Row)
    requires forall m :: decode(encode(m)) == Some(m)
    ensures RealtimeDocs(lib, tx, decode, encode, table, row) == BackfillDocs(lib, tx, row) <==>
              BackfillDocs(lib, tx, row).None? || lib.wireSize(ProducerExtract(lib, row).0) <= MAX_KAFKA_MESSAGE_BYTES
  {
    SameMessage(lib, row);
    var (pm, po) := ProducerExtract(lib, row);
    if !po.OutcomeDLQ? {
      assert decode(encode(pm)) == Some(pm);
      var bare := pm.(rawPayload := None);
      assert decode(encode(bare)) == Some(bare);
      RawSurvives(tx, pm);
      RawSurvives(tx, bare);
    }
  }

  /** The document keeps the payload of its message, or has none when the message has none. */
  lemma RawSurvives(tx: Text, m: Message)
    ensures DocFromMessage(tx, m).Some? ==>
              DocFromMessage(tx, m).value.parent.payloadRaw ==
              if m.rawPayload.Some? && m.rawPayload.value.Obj? then m.rawPayload else None
    ensures DocFromMessage(tx, m).Some? <==> DocFromMessage(tx, m.(rawPayload := None)).Some?
  {
  }
}
