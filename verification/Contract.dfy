/**
 * The message contract between the producer and the consumers, the row it is
 * built from, and the shared library calls, which stay abstract: JSON syntax,
 * the visibility parser and the wire size of a message.
 */
module Contract {
  import opened Common
  import opened Json

  const SCHEMA_VERSION := 2
  const SOURCE_ETL := "etl_message_table"
  const CONTENT_TYPE_TEXT := 1

  /** One row of a message shard. messageSeq is signed here: the backfill reads it so. */
  datatype Row = Row(
    id: int, messageID: string, messageSeq: int, fromUID: string, channelID: string,
    channelType: nat, settingSignalBit: bool, signal: int,
    timestamp: int, createdUnix: int, payload: Bytes)

  datatype Message = Message(
    schemaVersion: int, messageID: string, messageSeq: nat, channelID: string, channelType: nat,
    fromUID: string, msgTimestamp: int, createdAt: int, source: string,
    contentType: int, content: Option<string>, rawExcluded: bool,
    rawPayload: Option<Json>, spaceID: string, visibles: seq<string>)

  datatype Visibility = Visibility(spaceID: string, visibles: seq<string>)

  /** parse: JSON text to tree. visibility: the fail-closed ACL parser. wireSize: bytes on the wire. */
  datatype Lib = Lib(
    parse: Bytes -> Option<Json>,
    visibility: Json -> Option<Visibility>,
    wireSize: Message -> nat)

  /** Encrypted when either historical mark is set. */
  predicate IsSignalEncrypted(row: Row) {
    row.signal != 0 || row.settingSignalBit
  }

  function PayloadType(o: Object): int {
    match Get(o, "type")
    case Num(_, trunc) => trunc
    case _ => 0
  }
}
