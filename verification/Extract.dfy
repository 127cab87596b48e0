/** Row extraction, as the realtime producer does it and as the backfill does it. */
module Extract {
  import opened Common
  import opened Json
  import opened Contract

  datatype Outcome = OutcomeOK | OutcomeRawExcluded | OutcomeDLQ(reason: string)

  const REASON_UNPARSEABLE := "producer_payload_unparseable"
  const REASON_VISIBILITY := "producer_visibility_untrusted"
  const REASON_BACKFILL := "payload_parse"

  function BaseMessage(row: Row): Message {
    Message(SCHEMA_VERSION, row.messageID, if row.messageSeq > 0 then row.messageSeq else 0,
            row.channelID, row.channelType, row.fromUID, row.timestamp, row.createdUnix, SOURCE_ETL,
            0, None, false, None, "", [])
  }

  /** The payload as a non-empty JSON object, or None: the shared "genuine anomaly" test. */
  function ParseObject(lib: Lib, payload: Bytes): Option<Object> {
    match lib.parse(payload)
    case Some(Obj(o)) => if o == map[] then None else Some(o)
    case _ => None
  }

  /** The type/content classification both extractors share once the payload parsed. */
  function Classify(msg: Message, o: Object): (Message, Outcome) {
    var m := msg.(contentType := PayloadType(o));
    if m.contentType != CONTENT_TYPE_TEXT then (m.(rawExcluded := true), OutcomeRawExcluded)
    else match GetStr(o, "content")
      case Some(c) => (m.(content := Some(c)), OutcomeOK)
      case None => (m.(rawExcluded := true), OutcomeRawExcluded)
  }

  /** internal/producer/extract.go: ships the raw payload and the trusted visibility. */
  function ProducerExtract(lib: Lib, row: Row): (Message, Outcome) {
    var msg := BaseMessage(row);
    if IsSignalEncrypted(row) then (msg.(rawExcluded := true), OutcomeRawExcluded)
    else match ParseObject(lib, row.payload)
      case None => (msg, OutcomeDLQ(REASON_UNPARSEABLE))
      case Some(o) =>
        match lib.visibility(Obj(o))
        case None => (msg.(rawPayload := Some(Obj(o))), OutcomeDLQ(REASON_VISIBILITY))
        case Some(v) =>
          Classify(msg.(rawPayload := Some(Obj(o)), spaceID := v.spaceID, visibles := v.visibles), o)
  }

  /** What both extractors take over from the row. */
  ghost predicate Carries(msg: Message, row: Row) {
    && msg.schemaVersion == 2 && msg.source == "etl_message_table"
    && msg.messageID == row.messageID && msg.messageSeq == (if row.messageSeq < 0 then 0 else row.messageSeq)
    && msg.channelID == row.channelID && msg.channelType == row.channelType && msg.fromUID == row.fromUID
    && msg.msgTimestamp == row.timestamp && msg.createdAt == row.createdUnix
  }

  /** What a plaintext payload becomes: a body when it is a text with a string content, excluded when not. */
  ghost predicate Typed(msg: Message, o: Object, outcome: Outcome) {
    && msg.contentType == (if Get(o, "type").Num? then Get(o, "type").trunc else 0)
    && if msg.contentType == 1 && Get(o, "content").Str?
       then outcome == OutcomeOK && msg.content == Some(Get(o, "content").s) && !msg.rawExcluded
       else outcome == OutcomeRawExcluded && msg.content == None && msg.rawExcluded
  }

  predicate HiddenByCipher(msg: Message, outcome: Outcome) {
    && outcome == OutcomeRawExcluded && msg.rawExcluded && msg.content == None && msg.rawPayload == None
    && msg.spaceID == "" && msg.visibles == []
  }

  /**
   * The producer: a row with either mark of encryption ships nothing of its payload;
   * any other ships it whole, under the visibility it grants, unless it is no object
   * with members or its visibility cannot be trusted.
   */
  lemma ProducerSorts(lib: Lib, row: Row)
    ensures var (msg, outcome) := ProducerExtract(lib, row);
            && Carries(msg, row)
            && if row.signal != 0 || row.settingSignalBit then HiddenByCipher(msg, outcome)
               else match lib.parse(row.payload)
                 case Some(Obj(o)) =>
                   if o == map[] then outcome == OutcomeDLQ("producer_payload_unparseable")
                   else (match lib.visibility(Obj(o))
                         case None => outcome == OutcomeDLQ("producer_visibility_untrusted")
                         case Some(v) => msg.rawPayload == Some(Obj(o)) && msg.spaceID == v.spaceID
                                         && msg.visibles == v.visibles && Typed(msg, o, outcome))
                 case _ => outcome == OutcomeDLQ("producer_payload_unparseable")
  {
  }

  /** The backfill: the same rows and the same texts, without payload and visibility. */
  lemma BackfillSorts(lib: Lib, row: Row)
    ensures var (msg, outcome) := BackfillExtract(lib, row);
            && Carries(msg, row) && msg.rawPayload == None && msg.spaceID == "" && msg.visibles == []
            && if row.signal != 0 || row.settingSignalBit then HiddenByCipher(msg, outcome)
               else match lib.parse(row.payload)
                 case Some(Obj(o)) =>
                   if o == map[] then outcome == OutcomeDLQ("payload_parse") else Typed(msg, o, outcome)
                 case _ => outcome == OutcomeDLQ("payload_parse")
  {
  }

  /** internal/backfill/extract.go: neither the payload nor the visibility is set here. */
  function BackfillExtract(lib: Lib, row: Row): (Message, Outcome) {
    var msg := BaseMessage(row);
    if IsSignalEncrypted(row) then (msg.(rawExcluded := true), OutcomeRawExcluded)
    else match ParseObject(lib, row.payload)
      case None => (msg, OutcomeDLQ(REASON_BACKFILL))
      case Some(o) => Classify(msg, o)
  }
}
