/**
 * internal/esindex: from a message to the document the reader understands, its
 * payload projection and the virtual children of a rich text.
 */
module EsDoc {
  import opened Common
  import opened Json
  import opened Contract
  import opened Decimal
  import opened BulkWriter

  const TYPE_TEXT := 1
  const TYPE_IMAGE := 2
  const TYPE_GIF := 3
  const TYPE_VOICE := 4
  const TYPE_VIDEO := 5
  const TYPE_FILE := 8
  const TYPE_MERGE_FORWARD := 11
  const TYPE_RICH_TEXT := 14
  const CHANNEL_PERSON := 1
  const MAX_INT32 := 0x7fff_ffff
  const VIDEO_EXTENSIONS := {"mp4", "avi", "mov", "mkv", "m4v", "flv", "wmv", "webm", "3gp", "ts"}
  const IMAGE_PLACEHOLDER := "[\U{56fe}\U{7247}]"
  const FILE_PLACEHOLDER := "[\U{6587}\U{4ef6}]"

  /** Text functions that depend on Unicode tables: lower case, and whether only blanks are left. */
  datatype Text = Text(lower: string -> string, blank: string -> bool)

  /** The stored fields; payload is what its struct marshals to, members at their zero value left out. */
  datatype Doc = Doc(
    schemaVersion: int, messageID: int, messageSeq: nat, from: string, to: string, channelID: string,
    channelType: nat, spaceID: string, visibles: seq<string>, timestamp: int, createdAt: int,
    rawExcluded: bool, source: string, payload: Option<Object>, payloadRaw: Option<Json>,
    parentMessageID: int, parentPayloadType: int, virtual: bool, subSeq: int, idOverride: string)

  /** The document key: a child's own composite key, or the decimal message id. */
  function IdString(d: Doc): string {
    if d.idOverride != "" then d.idOverride else FormatInt(d.messageID)
  }

  // ---- field readers ----

  function ExtractInt(o: Object, key: string): Option<int> {
    match Get(o, key)
    case Num(exact, _) => exact
    case _ => None
  }

  /** Also accepts a decimal string, as nested message ids are written. */
  function ExtractInt64(o: Object, key: string): Option<int> {
    match Get(o, key)
    case Num(exact, _) => exact
    case Str(s) => ParseInt(s)
    case _ => None
  }

  /** A dimension the index can store, or 0. */
  function ClampInt32(v: int): (r: int)
    ensures 0 <= r <= MAX_INT32 && (r != 0 ==> r == v) && (0 <= v <= MAX_INT32 ==> r == v)
  {
    if v < 0 || v > MAX_INT32 then 0 else v
  }

  function DimMember(o: Object, key: string): Object {
    match ExtractInt(o, key)
    case None => map[]
    case Some(v) => IntMember(key, ClampInt32(v))
  }

  function OptInt64Member(name: string, v: Option<int>): Object {
    if v.Some? then IntMember(name, v.value) else map[]
  }

  // ---- rich text ----

  /** richTextBlocks: the objects of an array, or one text block for a plain string. */
  function RichTextBlocks(content: Json): seq<Object> {
    match content
    case Arr(items) => ObjectsOf(items)
    case Str(v) => if v == "" then [] else [map["type" := Str("text"), "text" := Str(v)]]
    case _ => []
  }

  function ObjectsOf(items: seq<Json>): seq<Object> {
    if items == [] then []
    else
      var last := items[|items| - 1];
      ObjectsOf(items[..|items| - 1]) + if last.Obj? then [last.fields] else []
  }

  function TextOr(o: Object, key: string): string {
    var s := GetStr(o, key);
    if s.Some? then s.value else ""
  }

  function BlockPlain(blk: Object): string {
    if Get(blk, "type") == Str("image") then IMAGE_PLACEHOLDER
    else if Get(blk, "type") == Str("file") then FilePlain(TextOr(blk, "name"))
    else TextOr(blk, "text")
  }

  function FilePlain(name: string): string {
    if name != "" then FILE_PLACEHOLDER + " " + name else FILE_PLACEHOLDER
  }

  function RichTextPlain(blocks: seq<Object>): string {
    if blocks == [] then "" else RichTextPlain(blocks[..|blocks| - 1]) + BlockPlain(blocks[|blocks| - 1])
  }

  function NonEmpty(s: string): seq<string> {
    if s == "" then [] else [s]
  }

  function MediaNames(blocks: seq<Object>): seq<string> {
    if blocks == [] then []
    else
      var blk := blocks[|blocks| - 1];
      MediaNames(blocks[..|blocks| - 1]) +
      if Get(blk, "type") == Str("image") || Get(blk, "type") == Str("file")
      then NonEmpty(TextOr(blk, "name")) + NonEmpty(TextOr(blk, "caption"))
      else []
  }

  function JoinSpaces(parts: seq<string>): string {
    if parts == [] then ""
    else if |parts| == 1 then parts[0]
    else JoinSpaces(parts[..|parts| - 1]) + " " + parts[|parts| - 1]
  }

  function RichTextSearch(tx: Text, o: Object): string {
    var blocks := RichTextBlocks(Get(o, "content"));
    var plain := TextOr(o, "plain");
    JoinSpaces(NonEmpty(if tx.blank(plain) then RichTextPlain(blocks) else plain) + MediaNames(blocks))
  }

  // ---- forwarded messages ----

  function SearchText(tx: Text, o: Object, t: int): string {
    if t == TYPE_RICH_TEXT then RichTextSearch(tx, o)
    else if t == TYPE_TEXT then TextOr(o, "content")
    else if t == TYPE_IMAGE then JoinSpaces(NonEmpty(TextOr(o, "caption")) + NonEmpty(TextOr(o, "name")))
    else if t == TYPE_FILE then JoinSpaces(NonEmpty(TextOr(o, "name")) + NonEmpty(TextOr(o, "caption")))
    else ""
  }

  function ForwardedMsg(tx: Text, sub: Object): Object {
    var base := OptInt64Member("messageId", ExtractInt64(sub, "message_id"))
      + StrMember("from", GetStr(sub, "from_uid")) + OptInt64Member("timestamp", ExtractInt64(sub, "timestamp"));
    match Get(sub, "payload")
    case Obj(p) =>
      if ExtractInt(p, "type").None? then base
      else
        var t := ExtractInt(p, "type").value;
        base + IntMember("type", t) + StrMember("searchText", Some(SearchText(tx, p, t)))
    case _ => base
  }

  function ForwardedMsgs(tx: Text, subs: seq<Object>): seq<Json> {
    seq(|subs|, i requires 0 <= i < |subs| => Obj(ForwardedMsg(tx, subs[i])))
  }

  // ---- projection ----

  function SuffixStart(name: string): (n: nat)
    ensures n <= |name|
  {
    if name == "" || name[|name| - 1] == '.' then |name| else SuffixStart(name[..|name| - 1])
  }

  /** fileExt: the suffix of the name unless its dot is first or last, else the extension field. */
  function FileExt(tx: Text, extension: string, name: string): string {
    var n := SuffixStart(name);
    if 1 < n < |name| then tx.lower(name[n..]) else tx.lower(extension)
  }

  /** The typed members of a payload. */
  datatype Kind = KText | KImage | KGif | KVoice | KVideo | KFile | KMergeForward | KRichText

  function KindName(k: Kind): string {
    match k
    case KText => "text"
    case KImage => "image"
    case KGif => "gif"
    case KVoice => "voice"
    case KVideo => "video"
    case KFile => "file"
    case KMergeForward => "mergeForward"
    case KRichText => "richText"
  }

  datatype Part = Part(kind: Kind, fields: Object)

  /** The payload object: its type, and at most one typed member. */
  function PayloadObject(ty: int, part: Option<Part>): Object {
    map["type" := Num(Some(ty), ty)] +
    match part
    case None => map[]
    case Some(p) => map[KindName(p.kind) := Obj(p.fields)]
  }

  function FileObject(o: Object): (r: Object)
    ensures r.Keys <= {"url", "name", "caption", "size", "extension"}
  {
    StrMember("url", GetStr(o, "url")) + StrMember("name", GetStr(o, "name")) + StrMember("caption", GetStr(o, "caption"))
    + OptInt64Member("size", ExtractInt64(o, "size")) + StrMember("extension", GetStr(o, "extension"))
  }

  /** The typed part of the payload for a type, or nothing for an unknown type or an empty aggregate. */
  function TypedPart(tx: Text, o: Object, t: int): Option<Part> {
    var url := StrMember("url", GetStr(o, "url"));
    var name := StrMember("name", GetStr(o, "name"));
    var caption := StrMember("caption", GetStr(o, "caption"));
    if t == TYPE_TEXT then Some(Part(KText, StrMember("content", GetStr(o, "content"))))
    else if t == TYPE_IMAGE then Some(Part(KImage, url + caption + name + DimMember(o, "width") + DimMember(o, "height")))
    else if t == TYPE_GIF then Some(Part(KGif, url))
    else if t == TYPE_VOICE then Some(Part(KVoice, url))
    else if t == TYPE_VIDEO then
      Some(Part(KVideo, url + StrMember("cover", GetStr(o, "cover")) + DimMember(o, "width") + DimMember(o, "height")
                   + DimMember(o, "second")))
    else if t == TYPE_FILE then
      if FileExt(tx, TextOr(o, "extension"), TextOr(o, "name")) in VIDEO_EXTENSIONS then Some(Part(KVideo, url))
      else Some(Part(KFile, FileObject(o)))
    else if t == TYPE_MERGE_FORWARD then
      match Get(o, "msgs")
      case Arr(items) =>
        var msgs := ForwardedMsgs(tx, ObjectsOf(items));
        if msgs == [] then None
        else Some(Part(KMergeForward, IntMember("childCount", |msgs|) + map["msgs" := Arr(msgs)]))
      case _ => None
    else if t == TYPE_RICH_TEXT then
      var text := RichTextSearch(tx, o);
      if text == "" then None else Some(Part(KRichText, StrMember("searchText", Some(text))))
    else None
  }

  /** The type that is stored: a file whose name says video is stored as a video. */
  function StoredType(tx: Text, o: Object, t: int): int {
    if t == TYPE_FILE && FileExt(tx, TextOr(o, "extension"), TextOr(o, "name")) in VIDEO_EXTENSIONS
    then TYPE_VIDEO else t
  }

  datatype Projection = Projection(payload: Option<Object>, raw: Option<Json>, projected: bool)

  /** buildPayloadFromRaw. */
  function BuildPayloadFromRaw(tx: Text, raw: Json): Projection {
    match raw
    case Obj(o) =>
      (match ExtractInt(o, "type")
       case None => Projection(None, Some(raw), false)
       case Some(t) =>
         var part := TypedPart(tx, o, t);
         var ty := StoredType(tx, o, t);
         Projection(Some(PayloadObject(ty, part)), Some(raw), part.Some?))
    case _ => Projection(None, None, false)
  }

  /** buildPayload, for messages without a raw payload. */
  function BuildPayload(contentType: int, content: Option<string>): Object {
    PayloadObject(contentType,
                  if contentType == TYPE_TEXT && content.Some? && content.value != ""
                  then Some(Part(KText, StrMember("content", content))) else None)
  }

  function IndexOf(s: string, ch: char): (n: nat)
    ensures n <= |s| && (n < |s| ==> s[n] == ch)
    ensures forall k :: 0 <= k < n ==> s[k] != ch
  {
    if s == "" || s[0] == ch then 0 else 1 + IndexOf(s[1..], ch)
  }

  /** reversePeer: the other side of "a@b", or nothing when there are not exactly two parts. */
  function ReversePeer(channelID: string, from: string): string {
    var n := IndexOf(channelID, '@');
    if n == |channelID| || IndexOf(channelID[n + 1..], '@') < |channelID[n + 1..]| then ""
    else if from == channelID[..n] then channelID[n + 1..] else channelID[..n]
  }

  function BaseDoc(msg: Message, id: int): Doc {
    Doc(msg.schemaVersion, id, msg.messageSeq, msg.fromUID, "", msg.channelID, msg.channelType, msg.spaceID,
        msg.visibles, msg.msgTimestamp, msg.createdAt, msg.rawExcluded, msg.source, None, None, 0, 0, false, 0, "")
  }

  /** DocFromMessage: None when the message id is no number. */
  function DocFromMessage(tx: Text, msg: Message): Option<Family<Doc>> {
    match ParseInt(msg.messageID)
    case None => None
    case Some(id) =>
      var d := BaseDoc(msg, id);
      match msg.rawPayload
      case Some(raw) =>
        var p := BuildPayloadFromRaw(tx, raw);
        var to := if d.channelType == CHANNEL_PERSON then ReversePeer(d.channelID, d.from) else "";
        var parent := d.(payload := p.payload, payloadRaw := p.raw, to := to, rawExcluded := !p.projected);
        Some(Family(parent, RichTextDerivatives(parent)))
      case None =>
        if msg.rawExcluded then Some(Family(d, []))
        else Some(Family(d.(payload := Some(BuildPayload(msg.contentType, msg.content))), []))
  }

  // ---- children ----

  function ImageFromBlock(blk: Object): Object {
    StrMember("url", GetStr(blk, "url")) + StrMember("name", GetStr(blk, "name"))
    + DimMember(blk, "width") + DimMember(blk, "height")
  }

  predicate IsMediaBlock(blk: Object) {
    Get(blk, "type") == Str("image") && TextOr(blk, "url") != ""
  }

  /** deriveChild: the parent with its own payload, position and key. */
  function DeriveChild(parent: Doc, blk: Object, i: nat): Doc {
    parent.(payloadRaw := None, rawExcluded := false,
            payload := Some(PayloadObject(TYPE_IMAGE, Some(Part(KImage, ImageFromBlock(blk))))),
            parentMessageID := parent.messageID, parentPayloadType := TYPE_RICH_TEXT, virtual := true,
            subSeq := i + 1, idOverride := ChildId(parent.messageID, i))
  }

  function ChildId(messageID: int, i: nat): string {
    FormatInt(messageID) + "-rt" + FormatInt(i)
  }

  function ChildrenOf(parent: Doc, blocks: seq<Object>): seq<Doc> {
    if blocks == [] then []
    else
      var i := |blocks| - 1;
      ChildrenOf(parent, blocks[..i]) + if IsMediaBlock(blocks[i]) then [DeriveChild(parent, blocks[i], i)] else []
  }

  predicate IsRichText(parent: Doc) {
    && parent.payload.Some? && ExtractInt(parent.payload.value, "type") == Some(TYPE_RICH_TEXT)
    && parent.payloadRaw.Some? && parent.payloadRaw.value.Obj?
  }

  function RichTextDerivatives(parent: Doc): seq<Doc> {
    if !IsRichText(parent) then []
    else ChildrenOf(parent, RichTextBlocks(Get(parent.payloadRaw.value.fields, "content")))
  }

  // ---- what the documents of one message are ----

  /** Child d of a parent: same message, visibility and times, its own place and key. */
  ghost predicate IsChild(parent: Doc, d: Doc) {
    && d.virtual && d.subSeq >= 1 && d.idOverride == ChildId(parent.messageID, d.subSeq - 1)
    && d.messageID == parent.messageID == d.parentMessageID && d.parentPayloadType == TYPE_RICH_TEXT
    && d.visibles == parent.visibles && d.spaceID == parent.spaceID && d.channelID == parent.channelID
    && d.createdAt == parent.createdAt && d.timestamp == parent.timestamp && d.messageSeq == parent.messageSeq
    && d.from == parent.from && d.to == parent.to && d.channelType == parent.channelType
    && d.source == parent.source && d.schemaVersion == parent.schemaVersion
    && d.payloadRaw == None && !d.rawExcluded
  }

  lemma {:induction false} ChildrenAre(parent: Doc, blocks: seq<Object>)
    ensures forall j :: 0 <= j < |ChildrenOf(parent, blocks)| ==>
              IsChild(parent, ChildrenOf(parent, blocks)[j]) && ChildrenOf(parent, blocks)[j].subSeq <= |blocks|
    ensures forall j, k :: 0 <= j < k < |ChildrenOf(parent, blocks)| ==>
              ChildrenOf(parent, blocks)[j].subSeq < ChildrenOf(parent, blocks)[k].subSeq
  {
    if blocks != [] {
      ChildrenAre(parent, blocks[..|blocks| - 1]);
    }
  }

  /** An image with an address. */
  predicate HasImage(blk: Object) {
    Get(blk, "type") == Str("image") && Get(blk, "url").Str? && Get(blk, "url").s != ""
  }

  /** Every image block with an address has its child... */
  lemma {:induction false} ChildOfBlock(parent: Doc, blocks: seq<Object>, i: nat)
    requires i < |blocks| && HasImage(blocks[i])
    ensures DeriveChild(parent, blocks[i], i) in ChildrenOf(parent, blocks)
  {
    var n := |blocks| - 1;
    if i < n {
      ChildOfBlock(parent, blocks[..n], i);
    } else {
      assert ChildrenOf(parent, blocks)[|ChildrenOf(parent, blocks[..n])|] == DeriveChild(parent, blocks[n], n);
    }
  }

  /** ...and every child comes from the block at its own place. */
  lemma {:induction false} BlockOfChild(parent: Doc, blocks: seq<Object>, d: Doc)
    requires d in ChildrenOf(parent, blocks)
    ensures 1 <= d.subSeq <= |blocks| && HasImage(blocks[d.subSeq - 1])
    ensures d == DeriveChild(parent, blocks[d.subSeq - 1], d.subSeq - 1)
  {
    var n := |blocks| - 1;
    if d in ChildrenOf(parent, blocks[..n]) {
      BlockOfChild(parent, blocks[..n], d);
    }
  }

  lemma FamilyShape(tx: Text, msg: Message)
    requires DocFromMessage(tx, msg).Some?
    ensures var f := DocFromMessage(tx, msg).value;
            && ParseInt(msg.messageID) == Some(f.parent.messageID) && f.parent.subSeq == 0 && f.parent.idOverride == ""
            && !f.parent.virtual && f.parent.createdAt == msg.createdAt
            && f.parent.visibles == msg.visibles && f.parent.spaceID == msg.spaceID
            && (forall j :: 0 <= j < |f.children| ==> IsChild(f.parent, f.children[j]))
            && (forall j, k :: 0 <= j < k < |f.children| ==> f.children[j].subSeq < f.children[k].subSeq)
  {
    var f := DocFromMessage(tx, msg).value;
    if msg.rawPayload.Some? && IsRichText(f.parent) {
      ChildrenAre(f.parent, RichTextBlocks(Get(f.parent.payloadRaw.value.fields, "content")));
    }
  }

  /** The objects of a list, one by one and in order; nothing else of it. */
  lemma {:induction false} ObjectsOfAppend(a: seq<Json>, b: seq<Json>)
    ensures ObjectsOf(a + b) == ObjectsOf(a) + ObjectsOf(b)
    ensures forall j: Json :: ObjectsOf([j]) == if j.Obj? then [j.fields] else []
  {
    assert forall j: Json :: [j][..0] == [];
    if b == [] {
      assert a + b == a;
    } else {
      assert (a + b)[..|a + b| - 1] == a + b[..|b| - 1];
      ObjectsOfAppend(a, b[..|b| - 1]);
    }
  }

  /** The blocks of a rich text: the objects of its list, or one text when it is a plain string. */
  lemma BlocksAre(content: Json)
    ensures RichTextBlocks(content) ==
            if content.Arr? then ObjectsOf(content.items)
            else if content.Str? && content.s != "" then [map["type" := Str("text"), "text" := content]]
            else []
  {
  }

  lemma StoredAsRichText(tx: Text, o: Object, t: int)
    ensures ExtractInt(PayloadObject(StoredType(tx, o, t), TypedPart(tx, o, t)), "type") == Some(StoredType(tx, o, t))
    ensures StoredType(tx, o, t) == 14 <==> t == 14
  {
  }

  /** Only a rich text has children, and they come from its blocks. */
  lemma ChildrenFrom(tx: Text, msg: Message)
    requires DocFromMessage(tx, msg).Some?
    ensures var f := DocFromMessage(tx, msg).value;
            match msg.rawPayload
            case Some(Obj(o)) =>
              f.children == if ExtractInt(o, "type") == Some(14)
                            then ChildrenOf(f.parent, RichTextBlocks(Get(o, "content"))) else []
            case _ => f.children == []
  {
    match msg.rawPayload {
      case Some(Obj(o)) =>
        if ExtractInt(o, "type").Some? {
          StoredAsRichText(tx, o, ExtractInt(o, "type").value);
        }
      case _ =>
    }
  }

  /** There is a child for a block exactly when the block is an image with an address. */
  lemma ChildAtBlock(parent: Doc, blocks: seq<Object>, i: nat)
    requires i < |blocks|
    ensures HasImage(blocks[i]) <==> exists d :: d in ChildrenOf(parent, blocks) && d.subSeq == i + 1
  {
    if HasImage(blocks[i]) {
      ChildOfBlock(parent, blocks, i);
    }
    forall d | d in ChildrenOf(parent, blocks) && d.subSeq == i + 1 ensures HasImage(blocks[i]) {
      BlockOfChild(parent, blocks, d);
    }
  }

  // ---- keys ----

  lemma NoR(n: int)
    ensures 'r' !in FormatInt(n)
  {
  }

  /** A composite key gives back its message and its place. */
  lemma ChildIdInjective(m: int, i: nat, m': int, i': nat)
    requires ChildId(m, i) == ChildId(m', i')
    ensures m == m' && i == i'
  {
    NoR(m);
    NoR(m');
    FirstR(FormatInt(m), FormatInt(i));
    FirstR(FormatInt(m'), FormatInt(i'));
    var s, a, b := ChildId(m, i), FormatInt(m), FormatInt(m');
    assert a == s[..|a|] && b == s[..|b|];
    FormatIntInjective(m, m');
    assert FormatInt(i) == s[|a| + 3..] && FormatInt(i') == s[|b| + 3..];
    FormatIntInjective(i, i');
  }

  lemma FirstR(a: string, x: string)
    requires 'r' !in a
    ensures IndexOf(a + "-rt" + x, 'r') == |a| + 1
  {
    var s := a + "-rt" + x;
    assert s[|a| + 1] == 'r' && s[|a|] == '-';
    assert forall k :: 0 <= k < |a| ==> s[k] == a[k];
  }

  lemma ChildIdIsNoParentId(m: int, i: nat, n: int)
    ensures ChildId(m, i) != FormatInt(n)
  {
    NoR(n);
    assert ChildId(m, i)[|FormatInt(m)| + 1] == 'r';
  }

  /** A document of some message. */
  ghost predicate MemberOf(tx: Text, msg: Message, d: Doc) {
    DocFromMessage(tx, msg).Some? &&
    (d == DocFromMessage(tx, msg).value.parent || d in DocFromMessage(tx, msg).value.children)
  }

  lemma MemberShape(tx: Text, msg: Message, d: Doc)
    requires MemberOf(tx, msg, d)
    ensures ParseInt(msg.messageID) == Some(d.messageID) && d.subSeq >= 0
    ensures IdString(d) == if d.subSeq == 0 then FormatInt(d.messageID) else ChildId(d.messageID, d.subSeq - 1)
    ensures d.subSeq == 0 <==> d == DocFromMessage(tx, msg).value.parent
  {
    FamilyShape(tx, msg);
  }

  /** Within one message, the place determines the document. */
  lemma PlaceDetermines(tx: Text, msg: Message, d: Doc, e: Doc)
    requires MemberOf(tx, msg, d) && MemberOf(tx, msg, e) && d.subSeq == e.subSeq
    ensures d == e
  {
    FamilyShape(tx, msg);
    MemberShape(tx, msg, d);
    MemberShape(tx, msg, e);
    var f := DocFromMessage(tx, msg).value;
    if d.subSeq != 0 {
      var j :| 0 <= j < |f.children| && f.children[j] == d;
      var k :| 0 <= k < |f.children| && f.children[k] == e;
      assert j == k;
    }
  }

  /** The document key, and the pair (messageId, subSeq), tell apart all documents of one message... */
  lemma KeysDistinctWithin(tx: Text, msg: Message, d: Doc, e: Doc)
    requires MemberOf(tx, msg, d) && MemberOf(tx, msg, e)
    ensures IdString(d) == IdString(e) <==> d == e
    ensures (d.messageID, d.subSeq) == (e.messageID, e.subSeq) <==> d == e
  {
    MemberShape(tx, msg, d);
    MemberShape(tx, msg, e);
    if IdString(d) == IdString(e) {
      SameKey(d, e);
    }
    if d.subSeq == e.subSeq {
      PlaceDetermines(tx, msg, d, e);
    }
  }

  /** ...and of any two messages whose ids differ as numbers. */
  lemma KeysDistinctAcross(tx: Text, msg: Message, msg': Message, d: Doc, e: Doc)
    requires MemberOf(tx, msg, d) && MemberOf(tx, msg', e)
    requires ParseInt(msg.messageID) != ParseInt(msg'.messageID)
    ensures IdString(d) != IdString(e) && (d.messageID, d.subSeq) != (e.messageID, e.subSeq)
  {
    MemberShape(tx, msg, d);
    MemberShape(tx, msg', e);
    if IdString(d) == IdString(e) {
      SameKey(d, e);
    }
  }

  lemma SameKey(d: Doc, e: Doc)
    requires d.subSeq >= 0 && e.subSeq >= 0 && IdString(d) == IdString(e)
    requires IdString(d) == if d.subSeq == 0 then FormatInt(d.messageID) else ChildId(d.messageID, d.subSeq - 1)
    requires IdString(e) == if e.subSeq == 0 then FormatInt(e.messageID) else ChildId(e.messageID, e.subSeq - 1)
    ensures d.messageID == e.messageID && d.subSeq == e.subSeq
  {
    if d.subSeq == 0 && e.subSeq == 0 {
      FormatIntInjective(d.messageID, e.messageID);
    } else if d.subSeq != 0 && e.subSeq != 0 {
      ChildIdInjective(d.messageID, d.subSeq - 1, e.messageID, e.subSeq - 1);
    } else if d.subSeq == 0 {
      ChildIdIsNoParentId(e.messageID, e.subSeq - 1, d.messageID);
    } else {
      ChildIdIsNoParentId(d.messageID, d.subSeq - 1, e.messageID);
    }
  }

  /** The key of a parent parses to its message id, and is the id text itself exactly when that is canonical. */
  lemma ParentKey(tx: Text, msg: Message)
    requires DocFromMessage(tx, msg).Some?
    ensures var p := DocFromMessage(tx, msg).value.parent;
            && ParseInt(IdString(p)) == Some(p.messageID) == ParseInt(msg.messageID)
            && (IdString(p) == msg.messageID <==> Canonical(msg.messageID))
  {
    FamilyShape(tx, msg);
    ParseFormat(DocFromMessage(tx, msg).value.parent.messageID);
    FormatParse(msg.messageID);
  }

  /** The keys of a message and of its first million children are at most 29 characters. */
  lemma KeysAreShort(tx: Text, msg: Message, d: Doc)
    requires MemberOf(tx, msg, d) && d.subSeq <= 1_000_000
    ensures |IdString(d)| <= 29
  {
    MemberShape(tx, msg, d);
    Int64Length(d.messageID);
    if d.subSeq > 0 {
      Powers();
      FormatLength(d.subSeq - 1, 6);
    }
  }

  // ---- projection facts others rely on ----

  /** The projection never writes the fields the file extractor owns. */
  lemma NoFileContent(tx: Text, msg: Message, d: Doc)
    requires MemberOf(tx, msg, d) && d.payload.Some?
    ensures NoContent(d.payload.value)
  {
    var f := DocFromMessage(tx, msg).value;
    if d != f.parent {
      ChildPayload(f.parent, RichTextBlocks(Get(f.parent.payloadRaw.value.fields, "content")), d);
      FileOfPayload(TYPE_IMAGE, Some(Part(KImage, Get(d.payload.value, "image").fields)));
    } else if msg.rawPayload.Some? {
      ProjectedNoContent(tx, msg.rawPayload.value);
    } else {
      PlainNoContent(msg.contentType, msg.content);
    }
  }

  /** The file part of a payload, if any, has neither content nor content facts. */
  predicate NoContent(payload: Object) {
    Get(payload, "file").Obj? ==>
      "content" !in Get(payload, "file").fields && "contentMeta" !in Get(payload, "file").fields
  }

  lemma ProjectedNoContent(tx: Text, raw: Json)
    requires BuildPayloadFromRaw(tx, raw).payload.Some?
    ensures NoContent(BuildPayloadFromRaw(tx, raw).payload.value)
  {
    var t := ExtractInt(raw.fields, "type").value;
    FileOfPayload(StoredType(tx, raw.fields, t), TypedPart(tx, raw.fields, t));
  }

  lemma PlainNoContent(contentType: int, content: Option<string>)
    ensures NoContent(BuildPayload(contentType, content))
  {
    FileOfPayload(contentType, if contentType == TYPE_TEXT && content.Some? && content.value != ""
    then Some(Part(KText, StrMember("content", content))) else None);
  }

  lemma FileOfPayload(ty: int, part: Option<Part>)
    ensures "file" in PayloadObject(ty, part) <==> part.Some? && part.value.kind == KFile
    ensures part.Some? && part.value.kind == KFile ==> PayloadObject(ty, part)["file"] == Obj(part.value.fields)
  {
  }

  // ---- what the projection keeps of the raw payload ----

  /** A string comes over as it is; an empty one, or anything else, leaves the member out. */
  predicate Kept(part: Object, key: string, o: Object, from: string) {
    Holds(part, key, if Get(o, from).Str? && Get(o, from).s != "" then Get(o, from) else Null)
  }

  /** The member is there with that value, or, for no value, not there. */
  predicate Holds(part: Object, key: string, value: Json) {
    if value == Null then key !in part else key in part && part[key] == value
  }

  /** A dimension comes over when it is a positive 32-bit integer. */
  predicate DimKept(part: Object, key: string, o: Object) {
    Holds(part, key, match Get(o, key)
                     case Num(Some(v), _) => if 0 < v <= 0x7fff_ffff then Num(Some(v), v) else Null
                     case _ => Null)
  }

  /** A 64-bit number comes over, also when it is written as a decimal string. */
  predicate NumberKept(part: Object, key: string, o: Object, from: string) {
    Holds(part, key, match ExtractInt64(o, from)
                     case Some(v) => if v != 0 then Num(Some(v), v) else Null
                     case None => Null)
  }

  /** The member that holds the projection of a type. */
  function MemberName(t: int): string {
    if t == 1 then "text" else if t == 2 then "image" else if t == 3 then "gif" else if t == 4 then "voice"
    else if t == 5 then "video" else if t == 8 then "file" else if t == 11 then "mergeForward"
    else if t == 14 then "richText" else ""
  }

  /** A file message whose name or extension says video. */
  predicate VideoFile(tx: Text, o: Object) {
    FileExt(tx, TextOr(o, "extension"), TextOr(o, "name"))
    in {"mp4", "avi", "mov", "mkv", "m4v", "flv", "wmv", "webm", "3gp", "ts"}
  }

  /** The typed part of the payload of a raw message of type t. */
  ghost predicate PartKeeps(tx: Text, o: Object, t: int, part: Object) {
    && (t == 1 ==> Kept(part, "content", o, "content"))
    && (t in {2, 3, 4, 5, 8} ==> Kept(part, "url", o, "url"))
    && (t == 2 ==> Kept(part, "caption", o, "caption") && Kept(part, "name", o, "name")
                   && DimKept(part, "width", o) && DimKept(part, "height", o))
    && (t == 5 ==> Kept(part, "cover", o, "cover") && DimKept(part, "width", o) && DimKept(part, "height", o)
                   && DimKept(part, "second", o))
    && (t == 8 && !VideoFile(tx, o) ==>
          Kept(part, "name", o, "name") && Kept(part, "caption", o, "caption")
          && Kept(part, "extension", o, "extension") && NumberKept(part, "size", o, "size"))
    && (t == 11 ==> part == map["childCount" := Num(Some(|Forwards(o)|), |Forwards(o)|),
                                "msgs" := Arr(ForwardedMsgs(tx, Forwards(o)))])
    && (t == 14 ==> part == map["searchText" := Str(RichTextSearch(tx, o))])
  }

  /** The forwarded messages of a payload: the objects in its list. */
  function Forwards(o: Object): seq<Object> {
    if Get(o, "msgs").Arr? then ObjectsOf(Get(o, "msgs").items) else []
  }

  /** Which payloads have something to show: the plain types always, the composed ones unless they are empty. */
  predicate Shows(tx: Text, o: Object, t: int) {
    t in {1, 2, 3, 4, 5, 8} || (t == 11 && Forwards(o) != []) || (t == 14 && RichTextSearch(tx, o) != "")
  }

  /**
   * A typed raw payload becomes its type and, exactly when it has something to show,
   * the one member of that type, which keeps what the raw payload says. A file that
   * is a video counts as one. Whether there is such a member decides rawExcluded.
   */
  lemma ProjectionKeeps(tx: Text, o: Object, t: int)
    requires ExtractInt(o, "type") == Some(t)
    ensures var p := BuildPayloadFromRaw(tx, Obj(o));
            var ty := if t == 8 && VideoFile(tx, o) then 5 else t;
            && p.payload.Some? && p.raw == Some(Obj(o)) && Get(p.payload.value, "type") == Num(Some(ty), ty)
            && (p.projected <==> Shows(tx, o, t))
            && p.payload.value.Keys == (if Shows(tx, o, t) then {"type", MemberName(ty)} else {"type"})
            && (Shows(tx, o, t) ==> Get(p.payload.value, MemberName(ty)).Obj?
                                    && PartKeeps(tx, o, t, Get(p.payload.value, MemberName(ty)).fields))
  {
    PartIs(tx, o, t);
    if Shows(tx, o, t) {
      PartFields(tx, o, t);
    }
  }

  lemma PartIs(tx: Text, o: Object, t: int)
    ensures TypedPart(tx, o, t).Some? <==> Shows(tx, o, t)
    ensures StoredType(tx, o, t) == if t == 8 && VideoFile(tx, o) then 5 else t
    ensures Shows(tx, o, t) ==> KindName(TypedPart(tx, o, t).value.kind) == MemberName(StoredType(tx, o, t))
  {
  }

  lemma PartFields(tx: Text, o: Object, t: int)
    requires Shows(tx, o, t)
    ensures TypedPart(tx, o, t).Some? && PartKeeps(tx, o, t, TypedPart(tx, o, t).value.fields)
  {
    PartIs(tx, o, t);
    if t == 2 {
      ImageKeeps(o, StrMember("caption", GetStr(o, "caption")));
      StrAs(o, "caption", "caption");
    } else if t == 5 {
      VideoKeeps(o);
    } else if t == 8 {
      FilePart(tx, o);
    } else if t in {1, 3, 4} {
      StrAs(o, "content", "content");
      StrAs(o, "url", "url");
    }
  }

  lemma FilePart(tx: Text, o: Object)
    ensures TypedPart(tx, o, 8).Some? && PartKeeps(tx, o, 8, TypedPart(tx, o, 8).value.fields)
  {
    FileKeeps(o);
    StrAs(o, "url", "url");
  }

  /** A union of members under different names, read name by name. */
  lemma Union(a: Object, b: Object, c: Object, d: Object, e: Object, ka: string, kb: string, kc: string, kd: string,
              ke: string)
    requires a.Keys <= {ka} && b.Keys <= {kb} && c.Keys <= {kc} && d.Keys <= {kd} && e.Keys <= {ke}
    requires ka != kb && ka != kc && ka != kd && ka != ke && kb != kc && kb != kd && kb != ke
    requires kc != kd && kc != ke && kd != ke
    ensures var u := a + b + c + d + e;
            forall v :: && (Holds(u, ka, v) <==> Holds(a, ka, v)) && (Holds(u, kb, v) <==> Holds(b, kb, v))
                        && (Holds(u, kc, v) <==> Holds(c, kc, v)) && (Holds(u, kd, v) <==> Holds(d, kd, v))
                        && (Holds(u, ke, v) <==> Holds(e, ke, v))
  {
  }

  lemma DimIs(o: Object, key: string)
    ensures DimKept(DimMember(o, key), key, o) && DimMember(o, key).Keys <= {key}
  {
  }

  /** An image of a message, with its caption, or of a rich text, without. */
  lemma ImageKeeps(o: Object, caption: Object)
    requires caption.Keys <= {"caption"}
    ensures var part := StrMember("url", GetStr(o, "url")) + caption + StrMember("name", GetStr(o, "name"))
                        + DimMember(o, "width") + DimMember(o, "height");
            && Kept(part, "url", o, "url") && Kept(part, "name", o, "name") && DimKept(part, "width", o)
            && DimKept(part, "height", o) && Get(part, "caption") == Get(caption, "caption")
  {
    StrAs(o, "url", "url");
    StrAs(o, "name", "name");
    DimIs(o, "width");
    DimIs(o, "height");
    Union(StrMember("url", GetStr(o, "url")), caption, StrMember("name", GetStr(o, "name")), DimMember(o, "width"),
          DimMember(o, "height"), "url", "caption", "name", "width", "height");
  }

  lemma VideoKeeps(o: Object)
    ensures var part := StrMember("url", GetStr(o, "url")) + StrMember("cover", GetStr(o, "cover"))
                        + DimMember(o, "width") + DimMember(o, "height") + DimMember(o, "second");
            && Kept(part, "url", o, "url") && Kept(part, "cover", o, "cover") && DimKept(part, "width", o)
            && DimKept(part, "height", o) && DimKept(part, "second", o)
  {
    StrAs(o, "url", "url");
    StrAs(o, "cover", "cover");
    DimIs(o, "width");
    DimIs(o, "height");
    DimIs(o, "second");
    Union(StrMember("url", GetStr(o, "url")), StrMember("cover", GetStr(o, "cover")), DimMember(o, "width"),
          DimMember(o, "height"), DimMember(o, "second"), "url", "cover", "width", "height", "second");
  }

  lemma FileKeeps(o: Object)
    ensures Kept(FileObject(o), "url", o, "url") && Kept(FileObject(o), "name", o, "name")
    ensures Kept(FileObject(o), "caption", o, "caption") && Kept(FileObject(o), "extension", o, "extension")
    ensures NumberKept(FileObject(o), "size", o, "size")
  {
    StrAs(o, "url", "url");
    StrAs(o, "name", "name");
    StrAs(o, "caption", "caption");
    StrAs(o, "extension", "extension");
    NumberIs(o, "size", "size");
    Union(StrMember("url", GetStr(o, "url")), StrMember("name", GetStr(o, "name")),
          StrMember("caption", GetStr(o, "caption")), OptInt64Member("size", ExtractInt64(o, "size")),
          StrMember("extension", GetStr(o, "extension")), "url", "name", "caption", "size", "extension");
  }

  /** One forwarded message: its number, sender, time, type and searchable text. */
  lemma ForwardedKeeps(tx: Text, sub: Object)
    ensures var m := ForwardedMsg(tx, sub);
            && NumberKept(m, "messageId", sub, "message_id") && Kept(m, "from", sub, "from_uid")
            && NumberKept(m, "timestamp", sub, "timestamp")
            && match Get(sub, "payload")
               case Obj(p) => (match ExtractInt(p, "type")
                               case Some(t) =>
                                 && Holds(m, "type", if t == 0 then Null else Num(Some(t), t))
                                 && Holds(m, "searchText", if SearchText(tx, p, t) == "" then Null
                                                           else Str(SearchText(tx, p, t)))
                               case None => "type" !in m && "searchText" !in m)
               case _ => "type" !in m && "searchText" !in m
  {
    var id := OptInt64Member("messageId", ExtractInt64(sub, "message_id"));
    var from := StrMember("from", GetStr(sub, "from_uid"));
    var at := OptInt64Member("timestamp", ExtractInt64(sub, "timestamp"));
    NumberIs(sub, "messageId", "message_id");
    NumberIs(sub, "timestamp", "timestamp");
    StrAs(sub, "from", "from_uid");
    var type', text := ForwardedType(tx, sub);
    Union(id, from, at, type', text, "messageId", "from", "timestamp", "type", "searchText");
    assert id + from + at + map[] + map[] == id + from + at;
  }

  /** The type and text of a forwarded message, or neither. */
  lemma ForwardedType(tx: Text, sub: Object) returns (type': Object, text: Object)
    ensures type'.Keys <= {"type"} && text.Keys <= {"searchText"}
    ensures match Get(sub, "payload")
            case Obj(p) =>
              (match ExtractInt(p, "type")
               case Some(t) =>
                 type' == IntMember("type", t) && text == StrMember("searchText", Some(SearchText(tx, p, t)))
               case None => type' == map[] && text == map[])
            case _ => type' == map[] && text == map[]
  {
    type', text := map[], map[];
    match Get(sub, "payload") {
      case Obj(p) =>
        if ExtractInt(p, "type").Some? {
          var t := ExtractInt(p, "type").value;
          type', text := IntMember("type", t), StrMember("searchText", Some(SearchText(tx, p, t)));
        }
      case _ =>
    }
  }

  lemma NumberIs(o: Object, key: string, from: string)
    ensures OptInt64Member(key, ExtractInt64(o, from)).Keys <= {key}
    ensures NumberKept(OptInt64Member(key, ExtractInt64(o, from)), key, o, from)
  {
  }

  lemma StrAs(o: Object, key: string, from: string)
    ensures StrMember(key, GetStr(o, from)).Keys <= {key} && Kept(StrMember(key, GetStr(o, from)), key, o, from)
  {
  }

  // ---- what can be found in a composed text ----

  ghost predicate Within(word: string, text: string) {
    exists pre, post :: text == pre + word + post
  }

  lemma WithinLonger(word: string, text: string, before: string, after: string)
    requires Within(word, text)
    ensures Within(word, before + text + after)
  {
    var pre, post :| text == pre + word + post;
    assert before + text + after == (before + pre) + word + (post + after);
  }

  lemma {:induction false} PartWithin(parts: seq<string>, i: nat)
    requires i < |parts|
    ensures Within(parts[i], JoinSpaces(parts))
  {
    var n := |parts| - 1;
    var last := parts[n];
    if i == n {
      var before := if n == 0 then "" else JoinSpaces(parts[..n]) + " ";
      assert JoinSpaces(parts) == before + last + "";
    } else {
      PartWithin(parts[..n], i);
      WithinLonger(parts[i], JoinSpaces(parts[..n]), "", " " + last);
      assert JoinSpaces(parts) == "" + JoinSpaces(parts[..n]) + (" " + last);
    }
  }

  lemma {:induction false} NamedIn(blocks: seq<Object>, i: nat, word: string)
    requires i < |blocks| && Get(blocks[i], "type") in {Str("image"), Str("file")}
    requires word != "" && word in {TextOr(blocks[i], "name"), TextOr(blocks[i], "caption")}
    ensures word in MediaNames(blocks)
  {
    var n := |blocks| - 1;
    if i < n {
      NamedIn(blocks[..n], i, word);
    } else {
      var own := NonEmpty(TextOr(blocks[n], "name")) + NonEmpty(TextOr(blocks[n], "caption"));
      assert own[0] == word || own[|own| - 1] == word;
      assert MediaNames(blocks) == MediaNames(blocks[..n]) + own;
    }
  }

  lemma {:induction false} PlainAppend(a: seq<Object>, b: seq<Object>)
    ensures RichTextPlain(a + b) == RichTextPlain(a) + RichTextPlain(b)
  {
    if b == [] {
      assert a + b == a;
    } else {
      var n := |b| - 1;
      assert (a + b)[..|a + b| - 1] == a + b[..n] && (a + b)[|a + b| - 1] == b[n];
      PlainAppend(a, b[..n]);
      Regroup(RichTextPlain(a), RichTextPlain(b[..n]), BlockPlain(b[n]));
    }
  }

  lemma Regroup(x: string, y: string, z: string)
    ensures x + y + z == x + (y + z)
  {
  }

  lemma PlainSnoc(a: seq<Object>, blk: Object)
    ensures RichTextPlain(a + [blk]) == RichTextPlain(a) + BlockPlain(blk)
  {
    var s := a + [blk];
    assert s[..|s| - 1] == a && s[|s| - 1] == blk;
  }

  lemma PlainAround(a: seq<Object>, blk: Object, b: seq<Object>, all: seq<Object>)
    requires all == a + [blk] + b
    ensures Within(BlockPlain(blk), RichTextPlain(all))
  {
    PlainAppend(a + [blk], b);
    PlainSnoc(a, blk);
    IsWithin(RichTextPlain(a), BlockPlain(blk), RichTextPlain(b), RichTextPlain(all));
  }

  lemma IsWithin(pre: string, word: string, post: string, text: string)
    requires text == pre + word + post
    ensures Within(word, text)
  {
  }

  lemma Around(blocks: seq<Object>, i: nat)
    requires i < |blocks|
    ensures blocks == blocks[..i] + [blocks[i]] + blocks[i + 1..]
  {
  }

  /** A rich text can be found by the plain text it brings... */
  lemma PlainFound(tx: Text, o: Object)
    requires !tx.blank(TextOr(o, "plain"))
    ensures Within(TextOr(o, "plain"), RichTextSearch(tx, o))
  {
    var plain := TextOr(o, "plain");
    assert plain == "" + plain + "";
    BodyWithin(plain, plain, MediaNames(RichTextBlocks(Get(o, "content"))));
  }

  /** ...or, when it brings none, by the text of each block that is neither image nor file... */
  lemma BlockFound(tx: Text, o: Object, i: nat)
    requires tx.blank(TextOr(o, "plain")) && i < |RichTextBlocks(Get(o, "content"))|
    requires Get(RichTextBlocks(Get(o, "content"))[i], "type") !in {Str("image"), Str("file")}
    ensures Within(TextOr(RichTextBlocks(Get(o, "content"))[i], "text"), RichTextSearch(tx, o))
  {
    var blocks := RichTextBlocks(Get(o, "content"));
    Around(blocks, i);
    PlainAround(blocks[..i], blocks[i], blocks[i + 1..], blocks);
    BodyWithin(RichTextPlain(blocks), BlockPlain(blocks[i]), MediaNames(blocks));
  }

  /** A rich text that is a plain string is found by it, as a whole. */
  lemma StringFound(tx: Text, o: Object)
    requires tx.blank(TextOr(o, "plain")) && Get(o, "content").Str? && Get(o, "content").s != ""
    ensures RichTextSearch(tx, o) == Get(o, "content").s
  {
    var v := Get(o, "content").s;
    var blk := map["type" := Str("text"), "text" := Str(v)];
    BlocksAre(Get(o, "content"));
    assert Get(blk, "type") == Str("text") && Get(blk, "text") == Str(v);
    OneBlock(blk);
    assert NonEmpty(v) + [] == [v];
  }

  lemma OneBlock(blk: Object)
    requires Get(blk, "type") == Str("text")
    ensures RichTextPlain([blk]) == TextOr(blk, "text") && MediaNames([blk]) == []
  {
    assert [blk][..0] == [];
    assert RichTextPlain([blk]) == RichTextPlain([]) + BlockPlain(blk);
  }

  /** ...and always by the name and the caption of each of its images and files. */
  lemma NameFound(tx: Text, o: Object, i: nat, word: string)
    requires i < |RichTextBlocks(Get(o, "content"))| && word != ""
    requires var blk := RichTextBlocks(Get(o, "content"))[i];
             Get(blk, "type") in {Str("image"), Str("file")} && word in {TextOr(blk, "name"), TextOr(blk, "caption")}
    ensures Within(word, RichTextSearch(tx, o))
  {
    var blocks, plain := RichTextBlocks(Get(o, "content")), TextOr(o, "plain");
    NamedIn(blocks, i, word);
    WordWithin(NonEmpty(if tx.blank(plain) then RichTextPlain(blocks) else plain), MediaNames(blocks), word);
  }

  lemma WordWithin(body: seq<string>, names: seq<string>, word: string)
    requires word in names
    ensures Within(word, JoinSpaces(body + names))
  {
    var j :| 0 <= j < |names| && names[j] == word;
    PartWithin(body + names, |body| + j);
  }

  lemma BodyWithin(body: string, word: string, names: seq<string>)
    requires Within(word, body)
    ensures Within(word, JoinSpaces(NonEmpty(body) + names))
  {
    var parts := NonEmpty(body) + names;
    if body == "" {
      assert word == "" && JoinSpaces(parts) == "" + word + JoinSpaces(parts);
    } else {
      PartWithin(parts, 0);
      var pre, post :| JoinSpaces(parts) == pre + body + post;
      WithinLonger(word, body, pre, post);
    }
  }

  /** The text a forwarded message is found by: its content, its name and caption, or its rich text. */
  lemma ForwardedFound(tx: Text, p: Object, t: int)
    ensures t == 1 ==> SearchText(tx, p, t) == TextOr(p, "content")
    ensures t in {2, 8} ==> Within(TextOr(p, "name"), SearchText(tx, p, t))
    ensures t in {2, 8} ==> Within(TextOr(p, "caption"), SearchText(tx, p, t))
    ensures t == 14 ==> SearchText(tx, p, t) == RichTextSearch(tx, p)
    ensures t !in {1, 2, 8, 14} ==> SearchText(tx, p, t) == ""
  {
    var name, caption := TextOr(p, "name"), TextOr(p, "caption");
    if t == 2 {
      BothWithin(caption, name);
    } else if t == 8 {
      BothWithin(name, caption);
    }
  }

  lemma BothWithin(a: string, b: string)
    ensures Within(a, JoinSpaces(NonEmpty(a) + NonEmpty(b))) && Within(b, JoinSpaces(NonEmpty(a) + NonEmpty(b)))
  {
    var parts := NonEmpty(a) + NonEmpty(b);
    assert JoinSpaces(parts) == "" + "" + JoinSpaces(parts);
    if a != "" {
      PartWithin(parts, 0);
    }
    if b != "" {
      PartWithin(parts, |parts| - 1);
    }
  }

  // ---- the parent document ----

  /** The parent says who sent what when to whom, as the message does. */
  lemma ParentCarries(tx: Text, msg: Message)
    requires DocFromMessage(tx, msg).Some?
    ensures var p := DocFromMessage(tx, msg).value.parent;
            && p.from == msg.fromUID && p.channelID == msg.channelID && p.channelType == msg.channelType
            && p.messageSeq == msg.messageSeq && p.timestamp == msg.msgTimestamp && p.createdAt == msg.createdAt
            && p.source == msg.source && p.schemaVersion == msg.schemaVersion
            && p.spaceID == msg.spaceID && p.visibles == msg.visibles
    ensures var f := DocFromMessage(tx, msg).value;
            match msg.rawPayload
            case Some(raw) =>
              && f.parent.payloadRaw == (if raw.Obj? then Some(raw) else None)
              && (f.parent.payload.Some? <==> raw.Obj? && ExtractInt(raw.fields, "type").Some?)
              && (f.parent.payload.Some? ==> f.parent.payload == BuildPayloadFromRaw(tx, raw).payload)
              && (!f.parent.rawExcluded <==>
                    raw.Obj? && ExtractInt(raw.fields, "type").Some?
                    && Shows(tx, raw.fields, ExtractInt(raw.fields, "type").value))
              && f.parent.to == (if msg.channelType == 1 then ReversePeer(msg.channelID, msg.fromUID) else "")
            case None =>
              && f.children == [] && f.parent.payloadRaw == None && f.parent.rawExcluded == msg.rawExcluded
              && f.parent.to == ""
              && if msg.rawExcluded then f.parent.payload == None else PlainPayload(msg, f.parent.payload)
  {
    if msg.rawPayload.Some? && msg.rawPayload.value.Obj? {
      var o := msg.rawPayload.value.fields;
      if ExtractInt(o, "type").Some? {
        PartIs(tx, o, ExtractInt(o, "type").value);
      }
    }
  }

  /** Without a raw payload: the type, and the content of a text that has one. */
  predicate PlainPayload(msg: Message, payload: Option<Object>) {
    && payload.Some? && Get(payload.value, "type") == Num(Some(msg.contentType), msg.contentType)
    && if msg.contentType == 1 && msg.content.Some? && msg.content.value != ""
       then payload.value.Keys == {"type", "text"}
            && Get(payload.value, "text") == Obj(map["content" := Str(msg.content.value)])
       else payload.value.Keys == {"type"}
  }

  lemma FirstAt(a: string, b: string, ch: char)
    requires ch !in a
    ensures IndexOf(a + [ch] + b, ch) == |a|
  {
    var s := a + [ch] + b;
    assert s[|a|] == ch;
    assert forall k :: 0 <= k < |a| ==> s[k] == a[k];
  }

  /** The other side of a two-party channel, seen from either. */
  lemma PeerOf(a: string, b: string, from: string)
    requires '@' !in a && '@' !in b
    ensures ReversePeer(a + "@" + b, from) == if from == a then b else a
  {
    FirstAt(a, b, '@');
    var s := a + "@" + b;
    assert s[..|a|] == a && s[|a| + 1..] == b;
  }

  lemma {:induction false} SuffixIs(stem: string, ext: string)
    requires '.' !in ext
    ensures SuffixStart(stem + "." + ext) == |stem| + 1
  {
    var name := stem + "." + ext;
    if ext != "" {
      assert name[|name| - 1] == ext[|ext| - 1] != '.';
      assert name[..|name| - 1] == stem + "." + ext[..|ext| - 1];
      SuffixIs(stem, ext[..|ext| - 1]);
    }
  }

  /** The suffix of a name decides, if the name has both a stem and a suffix. */
  lemma SuffixDecides(tx: Text, extension: string, stem: string, ext: string)
    requires '.' !in ext
    ensures FileExt(tx, extension, stem + "." + ext) == tx.lower(if stem != "" && ext != "" then ext else extension)
  {
    SuffixIs(stem, ext);
    assert (stem + "." + ext)[|stem| + 1..] == ext;
  }

  /** The image of a block keeps its address, name and dimensions. */
  lemma BlockImage(blk: Object)
    requires HasImage(blk)
    ensures var img := ImageFromBlock(blk);
            && Get(img, "url") == Get(blk, "url") && Kept(img, "name", blk, "name")
            && DimKept(img, "width", blk) && DimKept(img, "height", blk)
  {
    ImageKeeps(blk, map[]);
    assert StrMember("url", GetStr(blk, "url")) + map[] == StrMember("url", GetStr(blk, "url"));
  }

  /** A child is an image: the address, name and dimensions of the block at its place. */
  lemma ChildPayload(parent: Doc, blocks: seq<Object>, d: Doc)
    requires d in ChildrenOf(parent, blocks)
    ensures 1 <= d.subSeq <= |blocks| && d.payload.Some?
    ensures var p, blk := d.payload.value, blocks[d.subSeq - 1];
            && p.Keys == {"type", "image"} && p["type"] == Num(Some(2), 2) && p["image"].Obj?
            && var img := p["image"].fields;
               && Get(img, "url") == Get(blk, "url") && Get(blk, "url").Str? && Kept(img, "name", blk, "name")
               && DimKept(img, "width", blk) && DimKept(img, "height", blk)
  {
    BlockOfChild(parent, blocks, d);
    BlockImage(blocks[d.subSeq - 1]);
  }
}
