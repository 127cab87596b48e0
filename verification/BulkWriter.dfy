/**
 * internal/esindex/writer.go: documents with their derived children, split into
 * requests by estimated size, sent to a server that may answer anything, and the
 * replies mapped back to one result per document.
 */
module BulkWriter {
  import opened Common

  /** A parent document and the children that travel with it. */
  datatype Family<+T> = Family(parent: T, children: seq<T>)

  /** id: the document key. json: encoded length, None when it cannot be encoded. */
  datatype Codec<!T> = Codec(id: T -> string, json: T -> Option<nat>)

  datatype BulkItemResult = BulkItemResult(messageID: string, ok: bool, status: int) {
    predicate Permanent() {
      IsPermanentStatus(status)
    }
  }

  /** One entry of a response: None when it carries no update action. */
  type Entry = Option<int>

  /** What a request comes back with: a batch-level failure, or entries. */
  datatype Reply = RequestFailed | Response(entries: seq<Entry>)

  /** Any server: its n-th answer may depend on n and on the documents sent. */
  type Server<!T> = (nat, seq<T>) -> Reply

  const MAX_BULK_BODY_BYTES: nat := 50 * 1024 * 1024
  const SCRIPT_BYTES: nat := 897
  const DOC_CONVERT_BAD_REQUEST := 400
  const REQUEST_ENTITY_TOO_LARGE := 413

  /** 4xx is poison, except the two codes that ask for a retry. */
  predicate IsPermanentStatus(status: int) {
    status != 429 && status != 409 && 400 <= status < 500
  }

  /** Neither written nor refused for good: to be sent again. */
  predicate RetryLater(res: BulkItemResult) {
    !res.ok && (res.status < 400 || res.status in {409, 429} || res.status >= 500)
  }

  function EncodedSingleDocSize<T>(c: Codec<T>, d: T): nat {
    match c.json(d)
    case None => 0
    case Some(n) => 80 + SCRIPT_BYTES + 2 * n + 120 + 2
  }

  function SizeOfAll<T>(c: Codec<T>, ds: seq<T>): nat {
    if ds == [] then 0 else SizeOfAll(c, ds[..|ds| - 1]) + EncodedSingleDocSize(c, ds[|ds| - 1])
  }

  function EncodedDocSize<T>(c: Codec<T>, f: Family<T>): nat {
    EncodedSingleDocSize(c, f.parent) + SizeOfAll(c, f.children)
  }

  function BatchSize<T>(c: Codec<T>, docs: seq<Family<T>>): nat {
    if docs == [] then 0 else BatchSize(c, docs[..|docs| - 1]) + EncodedDocSize(c, docs[|docs| - 1])
  }

  /** The request body: every parent followed by its children. */
  function Flatten<T>(docs: seq<Family<T>>): seq<T> {
    if docs == [] then []
    else
      var f := docs[|docs| - 1];
      Flatten(docs[..|docs| - 1]) + [f.parent] + f.children
  }

  // ---- splitting ----

  lemma BatchStep<T>(c: Codec<T>, docs: seq<Family<T>>, i: nat, j: nat)
    requires i <= j < |docs|
    ensures BatchSize(c, docs[i..j + 1]) == BatchSize(c, docs[i..j]) + EncodedDocSize(c, docs[j])
  {
    assert docs[i..j + 1][..j - i] == docs[i..j];
  }

  /** subBatchEnd: the longest run from start that fits, at least one document. */
  method SubBatchEnd<T>(c: Codec<T>, docs: seq<Family<T>>, start: nat) returns (end: nat)
    requires start < |docs|
    ensures start < end <= |docs|
    ensures BatchSize(c, docs[start..end]) <= MAX_BULK_BODY_BYTES || end == start + 1
    ensures end < |docs| ==> BatchSize(c, docs[start..end + 1]) > MAX_BULK_BODY_BYTES
  {
    var size := 0;
    for i := start to |docs|
      invariant size == BatchSize(c, docs[start..i])
      invariant i > start + 1 ==> size <= MAX_BULK_BODY_BYTES
    {
      BatchStep(c, docs, start, i);
      var ds := EncodedDocSize(c, docs[i]);
      if i > start && size + ds > MAX_BULK_BODY_BYTES {
        return i;
      }
      size := size + ds;
    }
    return |docs|;
  }

  // ---- what a request weighs ----

  /** The fixed texts around a document: the action line, the body line, and the script as JSON text. */
  const ACTION_LINE_BYTES: nat := 44
  const BODY_LINE_BYTES: nat := 94
  const SCRIPT_TEXT_BYTES: nat := 932

  /** The bytes of a document's two lines: its key once, its JSON twice. Keys need no escaping. */
  function WireBytes<T>(c: Codec<T>, d: T): nat {
    match c.json(d)
    case None => 0
    case Some(n) => ACTION_LINE_BYTES + |c.id(d)| + BODY_LINE_BYTES + SCRIPT_TEXT_BYTES + 2 * n
  }

  function BodyBytes<T>(c: Codec<T>, body: seq<T>): nat {
    if body == [] then 0 else BodyBytes(c, body[..|body| - 1]) + WireBytes(c, body[|body| - 1])
  }

  /** Keys of at most 29 characters. */
  predicate ShortKeys<T>(c: Codec<T>, body: seq<T>) {
    forall k :: 0 <= k < |body| ==> |c.id(body[k])| <= 29
  }

  lemma {:induction false} BodyBytesAppend<T>(c: Codec<T>, a: seq<T>, b: seq<T>)
    ensures BodyBytes(c, a + b) == BodyBytes(c, a) + BodyBytes(c, b)
  {
    if b == [] {
      assert a + b == a;
    } else {
      assert (a + b)[..|a + b| - 1] == a + b[..|b| - 1];
      BodyBytesAppend(c, a, b[..|b| - 1]);
    }
  }

  /** With short keys the estimate of a run of documents bounds its bytes, by at most 29 for each. */
  lemma {:induction false} SizeBounds<T>(c: Codec<T>, ds: seq<T>)
    requires ShortKeys(c, ds)
    ensures BodyBytes(c, ds) <= SizeOfAll(c, ds) <= BodyBytes(c, ds) + 29 * |ds|
  {
    if ds != [] {
      SizeBounds(c, ds[..|ds| - 1]);
    }
  }

  /**
   * The estimate of a batch is never below the request it becomes, children included,
   * and above it by at most 29 bytes for each document.
   */
  lemma {:induction false} EstimateBounds<T>(c: Codec<T>, docs: seq<Family<T>>)
    requires ShortKeys(c, Flatten(docs))
    ensures BodyBytes(c, Flatten(docs)) <= BatchSize(c, docs) <= BodyBytes(c, Flatten(docs)) + 29 * |Flatten(docs)|
  {
    if docs != [] {
      var n := |docs| - 1;
      var f, before := docs[n], Flatten(docs[..n]);
      assert Flatten(docs) == before + [f.parent] + f.children;
      forall k | 0 <= k < |before| ensures |c.id(before[k])| <= 29 {
        assert Flatten(docs)[k] == before[k];
      }
      forall k | 0 <= k < |f.children| ensures |c.id(f.children[k])| <= 29 {
        assert Flatten(docs)[|before| + 1 + k] == f.children[k];
      }
      assert Flatten(docs)[|before|] == f.parent;
      EstimateBounds(c, docs[..n]);
      SizeBounds(c, f.children);
      BodyBytesAppend(c, before + [f.parent], f.children);
      BodyBytesAppend(c, before, [f.parent]);
      assert [f.parent][..0] == [];
      assert BodyBytes(c, [f.parent]) == WireBytes(c, f.parent);
    }
  }

  /** No request exceeds 50 MiB, half of what the server takes. */
  lemma RequestFits<T>(c: Codec<T>, docs: seq<Family<T>>)
    requires ShortKeys(c, Flatten(docs)) && BatchSize(c, docs) <= MAX_BULK_BODY_BYTES
    ensures BodyBytes(c, Flatten(docs)) <= 52_428_800
  {
    EstimateBounds(c, docs);
  }

  /** A family is refused unsent only when its request would come close to 50 MiB. */
  lemma OnlyLargeRefused<T>(c: Codec<T>, f: Family<T>)
    requires ShortKeys(c, [f.parent] + f.children) && EncodedDocSize(c, f) > MAX_BULK_BODY_BYTES
    ensures BodyBytes(c, [f.parent] + f.children) > 52_428_800 - 29 * (1 + |f.children|)
  {
    var body := [f.parent] + f.children;
    assert |c.id(body[0])| <= 29;
    forall k | 0 <= k < |f.children| ensures |c.id(f.children[k])| <= 29 {
      assert body[k + 1] == f.children[k];
    }
    SizeBounds(c, f.children);
    BodyBytesAppend(c, [f.parent], f.children);
    assert [f.parent][..0] == [];
    assert BodyBytes(c, [f.parent]) == WireBytes(c, f.parent);
  }

  // ---- mapping one response ----

  predicate EntryOK(entries: seq<Entry>, k: nat) {
    k < |entries| && entries[k].Some? && 200 <= entries[k].value < 300
  }

  function EntryStatus(entries: seq<Entry>, k: nat): int {
    if k < |entries| && entries[k].Some? then entries[k].value else 0
  }

  /** bulkItemResult: a missing entry is never taken for success. */
  function ItemResult(id: string, entries: seq<Entry>, k: nat): BulkItemResult {
    BulkItemResult(id, EntryOK(entries, k), EntryStatus(entries, k))
  }

  /**
   * The verdict on a family whose entries start at o: success exactly when every
   * entry of the parent and its n children is present and 2xx, and otherwise the
   * status of the first entry that is not.
   */
  ghost predicate Judged(entries: seq<Entry>, o: nat, n: nat, res: BulkItemResult) {
    && (res.ok <==> forall k :: o <= k <= o + n ==> EntryOK(entries, k))
    && (res.ok ==> res.status == EntryStatus(entries, o))
    && (!res.ok ==> exists k: nat :: FirstFailure(entries, o, n, k) && res.status == EntryStatus(entries, k))
  }

  ghost predicate FirstFailure(entries: seq<Entry>, o: nat, n: nat, k: nat) {
    o <= k <= o + n && !EntryOK(entries, k) && forall j :: o <= j < k ==> EntryOK(entries, j)
  }

  /** The verdict on the i-th document of a request. */
  ghost predicate VerdictOn<T>(c: Codec<T>, docs: seq<Family<T>>, entries: seq<Entry>, i: nat, res: BulkItemResult)
    requires i < |docs|
  {
    res.messageID == c.id(docs[i].parent) && Judged(entries, |Flatten(docs[..i])|, |docs[i].children|, res)
  }

  /** mapBulkResults: a cursor over the response, one result per parent. */
  method MapBulkResults<T>(c: Codec<T>, docs: seq<Family<T>>, entries: seq<Entry>) returns (out: seq<BulkItemResult>)
    ensures |out| == |docs|
    ensures forall i :: 0 <= i < |docs| ==> VerdictOn(c, docs, entries, i, out[i])
  {
    out := [];
    var respIdx := 0;
    for i := 0 to |docs|
      invariant |out| == i && respIdx == |Flatten(docs[..i])|
      invariant forall h :: 0 <= h < i ==> VerdictOn(c, docs, entries, h, out[h])
    {
      var res;
      res, respIdx := JudgeFamily(c, docs[i], entries, respIdx);
      assert docs[..i + 1][..i] == docs[..i];
      out := out + [res];
    }
  }

  method JudgeFamily<T>(c: Codec<T>, f: Family<T>, entries: seq<Entry>, start: nat)
    returns (res: BulkItemResult, respIdx: nat)
    ensures respIdx == start + 1 + |f.children|
    ensures res.messageID == c.id(f.parent) && Judged(entries, start, |f.children|, res)
  {
    res := ItemResult(c.id(f.parent), entries, start);
    respIdx := start + 1;
    assert !res.ok ==> FirstFailure(entries, start, 0, start);
    for j := 0 to |f.children|
      invariant respIdx == start + 1 + j
      invariant res.messageID == c.id(f.parent) && Judged(entries, start, j, res)
    {
      var cr := ItemResult(c.id(f.children[j]), entries, respIdx);
      if res.ok && !cr.ok {
        assert FirstFailure(entries, start, j + 1, respIdx);
        res := res.(ok := false, status := cr.status);
      } else if !res.ok {
        ghost var k: nat :| FirstFailure(entries, start, j, k) && res.status == EntryStatus(entries, k);
        assert FirstFailure(entries, start, j + 1, k);
      }
      respIdx := respIdx + 1;
    }
  }

  // ---- one request ----

  function BatchFailure<T>(c: Codec<T>, docs: seq<Family<T>>): (r: seq<BulkItemResult>)
    ensures |r| == |docs|
    ensures forall i :: 0 <= i < |docs| ==> r[i] == BulkItemResult(c.id(docs[i].parent), false, 0)
  {
    seq(|docs|, i requires 0 <= i < |docs| => BulkItemResult(c.id(docs[i].parent), false, 0))
  }

  predicate Encodable<T>(c: Codec<T>, docs: seq<T>) {
    forall k :: 0 <= k < |docs| ==> c.json(docs[k]).Some?
  }

  /** What came of sending a run of documents: nothing usable, or a response. */
  function Outcome<T>(c: Codec<T>, docs: seq<Family<T>>, server: Server<T>, call: nat): Reply {
    if Encodable(c, Flatten(docs)) then server(call, Flatten(docs)) else RequestFailed
  }

  /** The result of the i-th document of a request: transient on a batch-level failure, else its verdict. */
  ghost predicate ResultOf<T>(c: Codec<T>, docs: seq<Family<T>>, reply: Reply, i: nat, res: BulkItemResult)
    requires i < |docs|
  {
    match reply
    case RequestFailed => res == BulkItemResult(c.id(docs[i].parent), false, 0)
    case Response(entries) => VerdictOn(c, docs, entries, i, res)
  }

  ghost predicate Answered<T>(c: Codec<T>, docs: seq<Family<T>>, reply: Reply, out: seq<BulkItemResult>) {
    && |out| == |docs|
    && forall i: nat {:trigger ResultOf(c, docs, reply, i, out[i])} :: i < |docs| ==> ResultOf(c, docs, reply, i, out[i])
  }

  method BulkOnce<T>(c: Codec<T>, docs: seq<Family<T>>, server: Server<T>, call: nat)
    returns (out: seq<BulkItemResult>, err: bool)
    ensures Answered(c, docs, Outcome(c, docs, server, call), out)
    ensures err <==> Outcome(c, docs, server, call).RequestFailed?
  {
    var body := Flatten(docs);
    if !Encodable(c, body) {
      return BatchFailure(c, docs), true;
    }
    match server(call, body) {
      case RequestFailed =>
        return BatchFailure(c, docs), true;
      case Response(entries) =>
        out := MapBulkResults(c, docs, entries);
        err := false;
    }
  }

  // ---- all requests ----

  predicate TooLarge<T>(c: Codec<T>, sub: seq<Family<T>>) {
    |sub| == 1 && EncodedDocSize(c, sub[0]) > MAX_BULK_BODY_BYTES
  }

  /** The run from..to got its results res: refused unsent when one too large document, else one full request. */
  ghost predicate Piece<T>(c: Codec<T>, docs: seq<Family<T>>, server: Server<T>, call: nat, from: nat, to: nat,
                           res: seq<BulkItemResult>)
  {
    && from < to <= |docs|
    && if TooLarge(c, docs[from..to])
       then res == [BulkItemResult(c.id(docs[from].parent), false, REQUEST_ENTITY_TOO_LARGE)]
       else && BatchSize(c, docs[from..to]) <= MAX_BULK_BODY_BYTES
            && (to < |docs| ==> BatchSize(c, docs[from..to + 1]) > MAX_BULK_BODY_BYTES)
            && Answered(c, docs[from..to], Outcome(c, docs[from..to], server, call), res)
  }

  ghost predicate PieceFailed<T>(c: Codec<T>, docs: seq<Family<T>>, server: Server<T>, call: nat, from: nat, to: nat) {
    && from < to <= |docs| && !TooLarge(c, docs[from..to])
    && Outcome(c, docs[from..to], server, call).RequestFailed?
  }

  /** The piece between two consecutive cuts, with its own slice of the results. */
  ghost predicate PieceAt<T>(c: Codec<T>, docs: seq<Family<T>>, server: Server<T>, first: nat, cuts: seq<nat>,
                             out: seq<BulkItemResult>, s: nat)
  {
    && s + 1 < |cuts| && cuts[s] <= cuts[s + 1] <= |out|
    && Piece(c, docs, server, first + s, cuts[s], cuts[s + 1], out[cuts[s]..cuts[s + 1]])
  }

  ghost predicate FailedAt<T>(c: Codec<T>, docs: seq<Family<T>>, server: Server<T>, first: nat, cuts: seq<nat>, s: nat) {
    s + 1 < |cuts| && PieceFailed(c, docs, server, first + s, cuts[s], cuts[s + 1])
  }

  /** The cuts split the documents answered so far, in order, into pieces. */
  ghost predicate Answers<T>(c: Codec<T>, docs: seq<Family<T>>, server: Server<T>, first: nat, cuts: seq<nat>,
                             out: seq<BulkItemResult>)
  {
    && cuts != [] && cuts[0] == 0 && cuts[|cuts| - 1] == |out|
    && forall s :: 0 <= s < |cuts| - 1 ==> PieceAt(c, docs, server, first, cuts, out, s)
  }

  ghost predicate SomeRequestFailed<T>(c: Codec<T>, docs: seq<Family<T>>, server: Server<T>, first: nat, cuts: seq<nat>) {
    exists s :: 0 <= s < |cuts| - 1 && FailedAt(c, docs, server, first, cuts, s)
  }

  lemma NextPiece<T>(c: Codec<T>, docs: seq<Family<T>>, server: Server<T>, first: nat, cuts: seq<nat>,
                     out: seq<BulkItemResult>, end: nat, res: seq<BulkItemResult>)
    requires Answers(c, docs, server, first, cuts, out) && end == |out| + |res|
    requires Piece(c, docs, server, first + |cuts| - 1, |out|, end, res)
    ensures Answers(c, docs, server, first, cuts + [end], out + res)
  {
    forall s | 0 <= s < |cuts| ensures PieceAt(c, docs, server, first, cuts + [end], out + res, s) {
      if s < |cuts| - 1 {
        OldPiece(c, docs, server, first, cuts, out, end, res, s);
      } else {
        NewPiece(c, docs, server, first, cuts, out, end, res);
      }
    }
  }

  lemma NewPiece<T>(c: Codec<T>, docs: seq<Family<T>>, server: Server<T>, first: nat, cuts: seq<nat>,
                    out: seq<BulkItemResult>, end: nat, res: seq<BulkItemResult>)
    requires cuts != [] && cuts[|cuts| - 1] == |out| && end == |out| + |res|
    requires Piece(c, docs, server, first + |cuts| - 1, |out|, end, res)
    ensures PieceAt(c, docs, server, first, cuts + [end], out + res, |cuts| - 1)
  {
  }

  lemma OldPiece<T>(c: Codec<T>, docs: seq<Family<T>>, server: Server<T>, first: nat, cuts: seq<nat>,
                    out: seq<BulkItemResult>, end: nat, res: seq<BulkItemResult>, s: nat)
    requires PieceAt(c, docs, server, first, cuts, out, s)
    ensures PieceAt(c, docs, server, first, cuts + [end], out + res, s)
  {
    assert (out + res)[cuts[s]..cuts[s + 1]] == out[cuts[s]..cuts[s + 1]];
  }

  lemma NextFailure<T>(c: Codec<T>, docs: seq<Family<T>>, server: Server<T>, first: nat, cuts: seq<nat>, end: nat)
    requires cuts != []
    ensures SomeRequestFailed(c, docs, server, first, cuts + [end]) <==>
              SomeRequestFailed(c, docs, server, first, cuts)
              || PieceFailed(c, docs, server, first + |cuts| - 1, cuts[|cuts| - 1], end)
  {
    assert forall s :: 0 <= s < |cuts| - 1 ==>
      FailedAt(c, docs, server, first, cuts + [end], s) == FailedAt(c, docs, server, first, cuts, s);
    assert FailedAt(c, docs, server, first, cuts + [end], |cuts| - 1)
        == PieceFailed(c, docs, server, first + |cuts| - 1, cuts[|cuts| - 1], end);
  }

  lemma BatchOfOne<T>(c: Codec<T>, docs: seq<Family<T>>, start: nat, end: nat)
    requires start < end <= |docs|
    ensures end == start + 1 ==> BatchSize(c, docs[start..end]) == EncodedDocSize(c, docs[start..end][0])
  {
  }

  /**
   * BulkDocs: one result per document, in order. Every request fits the limit
   * and cannot take one more document; a document too large on its own is
   * refused with a permanent status and never sent.
   */
  method BulkDocs<T>(c: Codec<T>, docs: seq<Family<T>>, server: Server<T>, first: nat)
    returns (out: seq<BulkItemResult>, err: bool, ghost cuts: seq<nat>)
    ensures |out| == |docs|
    ensures Answers(c, docs, server, first, cuts, out)
    ensures err <==> SomeRequestFailed(c, docs, server, first, cuts)
  {
    out, err, cuts := [], false, [0];
    var call := first;
    while |out| < |docs|
      invariant |out| <= |docs| && call == first + |cuts| - 1
      invariant Answers(c, docs, server, first, cuts, out)
      invariant err <==> SomeRequestFailed(c, docs, server, first, cuts)
      decreases |docs| - |out|
    {
      var end, res, e := SendNext(c, docs, |out|, server, call);
      NextPiece(c, docs, server, first, cuts, out, end, res);
      NextFailure(c, docs, server, first, cuts, end);
      out, err, call := out + res, err || e, call + 1;
      cuts := cuts + [end];
    }
  }

  /** One round of the loop in BulkDocs: cut the next piece and answer it. */
  method SendNext<T>(c: Codec<T>, docs: seq<Family<T>>, start: nat, server: Server<T>, call: nat)
    returns (end: nat, res: seq<BulkItemResult>, err: bool)
    requires start < |docs|
    ensures end == start + |res| && Piece(c, docs, server, call, start, end, res)
    ensures err <==> PieceFailed(c, docs, server, call, start, end)
  {
    end := SubBatchEnd(c, docs, start);
    BatchOfOne(c, docs, start, end);
    var sub := docs[start..end];
    if |sub| == 1 && EncodedDocSize(c, sub[0]) > MAX_BULK_BODY_BYTES {
      return end, [BulkItemResult(c.id(sub[0].parent), false, REQUEST_ENTITY_TOO_LARGE)], false;
    }
    res, err := BulkOnce(c, sub, server, call);
  }

  // ---- what a result means ----

  /** Every place lies between two consecutive cuts. */
  lemma {:induction false} CutAround(cuts: seq<nat>, i: nat, upTo: nat) returns (s: nat)
    requires upTo < |cuts| && cuts[0] == 0 && i < cuts[upTo]
    ensures s < upTo && cuts[s] <= i < cuts[s + 1]
  {
    if cuts[upTo - 1] <= i {
      s := upTo - 1;
    } else {
      s := CutAround(cuts, i, upTo - 1);
    }
  }

  /** The parent at o, its children right behind it. */
  ghost predicate Sits<T>(body: seq<T>, o: nat, f: Family<T>) {
    && o + |f.children| < |body| && body[o] == f.parent
    && forall j :: 0 <= j < |f.children| ==> body[o + 1 + j] == f.children[j]
  }

  /** Where a family sits in the request body. */
  lemma {:induction false} FlattenAt<T>(docs: seq<Family<T>>, i: nat)
    requires i < |docs|
    ensures Sits(Flatten(docs), |Flatten(docs[..i])|, docs[i])
  {
    if i < |docs| - 1 {
      FlattenAt(docs[..|docs| - 1], i);
      assert docs[..|docs| - 1][..i] == docs[..i];
    }
  }

  /** The result of the h-th document of a piece. */
  ghost predicate AnsweredIn<T>(c: Codec<T>, sub: seq<Family<T>>, reply: Reply, h: nat, res: BulkItemResult)
    requires h < |sub|
  {
    if TooLarge(c, sub) then res == BulkItemResult(c.id(sub[h].parent), false, REQUEST_ENTITY_TOO_LARGE)
    else BatchSize(c, sub) <= MAX_BULK_BODY_BYTES && ResultOf(c, sub, reply, h, res)
  }

  /** The piece the i-th document travelled in. */
  lemma PieceOf<T>(c: Codec<T>, docs: seq<Family<T>>, server: Server<T>, first: nat, cuts: seq<nat>,
                   out: seq<BulkItemResult>, i: nat) returns (s: nat)
    requires Answers(c, docs, server, first, cuts, out) && i < |out|
    ensures s + 1 < |cuts| && cuts[s] <= i < cuts[s + 1] && PieceAt(c, docs, server, first, cuts, out, s)
  {
    s := CutAround(cuts, i, |cuts| - 1);
  }

  /** The i-th result is that of the document's own piece. */
  lemma InPiece<T>(c: Codec<T>, docs: seq<Family<T>>, server: Server<T>, first: nat, cuts: seq<nat>,
                   out: seq<BulkItemResult>, s: nat, i: nat)
    requires PieceAt(c, docs, server, first, cuts, out, s) && cuts[s] <= i < cuts[s + 1]
    ensures cuts[s + 1] <= |docs| && i < |out|
    ensures var sub := docs[cuts[s]..cuts[s + 1]];
            AnsweredIn(c, sub, Outcome(c, sub, server, first + s), i - cuts[s], out[i])
  {
  }

  /** Some response of the server reported success for the document, at its own position. */
  ghost predicate Acknowledged<T(!new)>(server: Server<T>, d: T) {
    exists call: nat, body: seq<T>, k: nat :: AcknowledgedAt(server, d, call, body, k)
  }

  ghost predicate AcknowledgedAt<T>(server: Server<T>, d: T, call: nat, body: seq<T>, k: nat) {
    k < |body| && body[k] == d && server(call, body).Response? && k < |server(call, body).entries|
    && match server(call, body).entries[k]
       case Some(status) => 200 <= status < 300
       case None => false
  }

  /** A result is a success only when the server acknowledged the parent and every child. */
  lemma OkMeansAcknowledged<T(!new)>(c: Codec<T>, docs: seq<Family<T>>, server: Server<T>, first: nat, cuts: seq<nat>,
                                     out: seq<BulkItemResult>, i: nat)
    requires Answers(c, docs, server, first, cuts, out) && i < |out| == |docs|
    ensures out[i].messageID == c.id(docs[i].parent)
    ensures out[i].ok ==> Acknowledged(server, docs[i].parent) && EncodedDocSize(c, docs[i]) <= MAX_BULK_BODY_BYTES
    ensures out[i].ok ==> forall j :: 0 <= j < |docs[i].children| ==> Acknowledged(server, docs[i].children[j])
  {
    var s := PieceOf(c, docs, server, first, cuts, out, i);
    InPiece(c, docs, server, first, cuts, out, s, i);
    AcknowledgedInPiece(c, docs[cuts[s]..cuts[s + 1]], server, first + s, i - cuts[s], out[i]);
  }

  lemma AcknowledgedInPiece<T(!new)>(c: Codec<T>, sub: seq<Family<T>>, server: Server<T>, call: nat, h: nat,
                                     res: BulkItemResult)
    requires h < |sub| && AnsweredIn(c, sub, Outcome(c, sub, server, call), h, res)
    ensures res.messageID == c.id(sub[h].parent)
    ensures res.ok ==> Acknowledged(server, sub[h].parent) && EncodedDocSize(c, sub[h]) <= MAX_BULK_BODY_BYTES
    ensures res.ok ==> forall j :: 0 <= j < |sub[h].children| ==> Acknowledged(server, sub[h].children[j])
  {
    if res.ok {
      FitsAlone(c, sub, h);
      FlattenAt(sub, h);
      var body, o := Flatten(sub), |Flatten(sub[..h])|;
      var entries := server(call, body).entries;
      assert EntryOK(entries, o);
      assert AcknowledgedAt(server, sub[h].parent, call, body, o);
      forall j | 0 <= j < |sub[h].children| ensures Acknowledged(server, sub[h].children[j]) {
        assert EntryOK(entries, o + 1 + j);
        assert AcknowledgedAt(server, sub[h].children[j], call, body, o + 1 + j);
      }
    }
  }

  /** A server that never fails as a whole and gives each document its own fixed status. */
  ghost predicate FixedServer<T(!new)>(server: Server<T>, status: T -> int) {
    forall call, body :: FixedReply(server(call, body), status, body)
  }

  ghost predicate FixedReply<T>(reply: Reply, status: T -> int, body: seq<T>) {
    && reply.Response? && |reply.entries| == |body|
    && forall k :: 0 <= k < |body| ==> reply.entries[k] == Some(status(body[k]))
  }

  predicate Success(status: int) {
    200 <= status < 300
  }

  /** The status of the first refused document of a family, or of its parent. */
  function FamilyStatus<T>(status: T -> int, f: Family<T>): int {
    if !Success(status(f.parent)) then status(f.parent)
    else FirstRefused(status, f.children, status(f.parent))
  }

  function FirstRefused<T>(status: T -> int, ds: seq<T>, otherwise: int): (r: int)
    ensures (forall j :: 0 <= j < |ds| ==> Success(status(ds[j]))) ==> r == otherwise
    ensures forall j :: 0 <= j < |ds| && !Success(status(ds[j])) && (forall h :: 0 <= h < j ==> Success(status(ds[h])))
              ==> r == status(ds[j])
  {
    if ds == [] then otherwise
    else if !Success(status(ds[0])) then status(ds[0])
    else FirstRefused(status, ds[1..], otherwise)
  }

  /** How each document fares against such a server, whatever the batch it travels in. */
  function ExpectedResult<T>(c: Codec<T>, status: T -> int, f: Family<T>): BulkItemResult {
    if EncodedDocSize(c, f) > MAX_BULK_BODY_BYTES
    then BulkItemResult(c.id(f.parent), false, REQUEST_ENTITY_TOO_LARGE)
    else BulkItemResult(c.id(f.parent), Success(FamilyStatus(status, f)), FamilyStatus(status, f))
  }

  ghost predicate HasStatuses<T>(status: T -> int, f: Family<T>, entries: seq<Entry>, o: nat) {
    && o + |f.children| < |entries| && entries[o] == Some(status(f.parent))
    && forall j :: 0 <= j < |f.children| ==> entries[o + 1 + j] == Some(status(f.children[j]))
  }

  lemma JudgedFixed<T>(status: T -> int, f: Family<T>, entries: seq<Entry>, o: nat, res: BulkItemResult)
    requires Judged(entries, o, |f.children|, res) && HasStatuses(status, f, entries, o)
    ensures res.ok <==> Success(FamilyStatus(status, f))
    ensures res.status == FamilyStatus(status, f)
  {
    if res.ok {
      AllFine(status, f, entries, o);
    } else {
      ghost var k: nat :| FirstFailure(entries, o, |f.children|, k) && res.status == EntryStatus(entries, k);
      FirstFixed(status, f, entries, o, k);
    }
  }

  lemma AllFine<T>(status: T -> int, f: Family<T>, entries: seq<Entry>, o: nat)
    requires HasStatuses(status, f, entries, o) && forall k :: o <= k <= o + |f.children| ==> EntryOK(entries, k)
    ensures Success(FamilyStatus(status, f)) && FamilyStatus(status, f) == EntryStatus(entries, o)
  {
    assert EntryOK(entries, o);
    forall j | 0 <= j < |f.children| ensures Success(status(f.children[j])) {
      assert EntryOK(entries, o + 1 + j);
    }
  }

  lemma FirstFixed<T>(status: T -> int, f: Family<T>, entries: seq<Entry>, o: nat, k: nat)
    requires HasStatuses(status, f, entries, o) && FirstFailure(entries, o, |f.children|, k)
    ensures !Success(FamilyStatus(status, f)) && FamilyStatus(status, f) == EntryStatus(entries, k)
  {
    if k > o {
      assert EntryOK(entries, o);
      forall h | 0 <= h < k - o - 1 ensures Success(status(f.children[h])) {
        assert EntryOK(entries, o + 1 + h);
      }
      var j := k - o - 1;
      assert entries[o + 1 + j] == Some(status(f.children[j]));
    }
  }

  /** Against a fixed server, splitting is invisible: each result depends on its own family only. */
  lemma SplittingIsInvisible<T(!new)>(c: Codec<T>, docs: seq<Family<T>>, server: Server<T>, first: nat, cuts: seq<nat>,
                                      out: seq<BulkItemResult>, status: T -> int, i: nat)
    requires Answers(c, docs, server, first, cuts, out) && i < |out| == |docs|
    requires FixedServer(server, status) && Encodable(c, Flatten(docs))
    ensures out[i] == ExpectedResult(c, status, docs[i])
  {
    var s := PieceOf(c, docs, server, first, cuts, out, i);
    InPiece(c, docs, server, first, cuts, out, s, i);
    var from, to := cuts[s], cuts[s + 1];
    FlattenSlice(c, docs, from, to);
    FixedInPiece(c, docs[from..to], server, first + s, i - from, out[i], status);
  }

  lemma FixedInPiece<T(!new)>(c: Codec<T>, sub: seq<Family<T>>, server: Server<T>, call: nat, h: nat,
                              res: BulkItemResult, status: T -> int)
    requires h < |sub| && AnsweredIn(c, sub, Outcome(c, sub, server, call), h, res)
    requires FixedServer(server, status) && Encodable(c, Flatten(sub))
    ensures res == ExpectedResult(c, status, sub[h])
  {
    if !TooLarge(c, sub) {
      FitsAlone(c, sub, h);
      assert FixedReply(server(call, Flatten(sub)), status, Flatten(sub));
      FixedVerdict(c, status, sub, server(call, Flatten(sub)).entries, h, res);
    }
  }

  lemma FixedVerdict<T>(c: Codec<T>, status: T -> int, sub: seq<Family<T>>, entries: seq<Entry>, h: nat,
                        res: BulkItemResult)
    requires h < |sub| && VerdictOn(c, sub, entries, h, res) && FixedReply(Response(entries), status, Flatten(sub))
    ensures res == BulkItemResult(c.id(sub[h].parent), Success(FamilyStatus(status, sub[h])), FamilyStatus(status, sub[h]))
  {
    FlattenAt(sub, h);
    FixedStatuses(status, sub[h], Flatten(sub), entries, |Flatten(sub[..h])|);
    JudgedFixed(status, sub[h], entries, |Flatten(sub[..h])|, res);
  }

  lemma FixedStatuses<T>(status: T -> int, f: Family<T>, body: seq<T>, entries: seq<Entry>, o: nat)
    requires Sits(body, o, f) && FixedReply(Response(entries), status, body)
    ensures HasStatuses(status, f, entries, o)
  {
  }

  lemma {:induction false} FitsAlone<T>(c: Codec<T>, docs: seq<Family<T>>, i: nat)
    requires i < |docs|
    ensures EncodedDocSize(c, docs[i]) <= BatchSize(c, docs)
  {
    if i < |docs| - 1 {
      FitsAlone(c, docs[..|docs| - 1], i);
    }
  }

  /** A run of encodable documents is encodable. */
  lemma FlattenSlice<T>(c: Codec<T>, docs: seq<Family<T>>, from: nat, to: nat)
    requires from <= to <= |docs| && Encodable(c, Flatten(docs))
    ensures Encodable(c, Flatten(docs[from..to]))
  {
    FlattenSuffix(docs, to);
    FlattenSuffix(docs[..to], from);
    assert docs[..to][from..] == docs[from..to];
    EncodableParts(c, Flatten(docs[..to]), Flatten(docs[to..]));
    EncodableParts(c, Flatten(docs[..to][..from]), Flatten(docs[from..to]));
  }

  lemma EncodableParts<T>(c: Codec<T>, a: seq<T>, b: seq<T>)
    ensures Encodable(c, a + b) ==> Encodable(c, a) && Encodable(c, b)
  {
    if Encodable(c, a + b) {
      assert forall k :: 0 <= k < |a| ==> a[k] == (a + b)[k];
      assert forall k :: 0 <= k < |b| ==> b[k] == (a + b)[|a| + k];
    }
  }

  lemma {:induction false} FlattenSuffix<T>(docs: seq<Family<T>>, n: nat)
    requires n <= |docs|
    ensures Flatten(docs) == Flatten(docs[..n]) + Flatten(docs[n..])
  {
    if n == |docs| {
      assert docs[..n] == docs && docs[n..] == [];
    } else {
      var m := |docs| - 1;
      FlattenSuffix(docs[..m], n);
      assert docs[..m][..n] == docs[..n];
      assert docs[n..][..|docs[n..]| - 1] == docs[..m][n..];
      assert docs[n..][|docs[n..]| - 1] == docs[m];
    }
  }

  /** A server with a fixed taste: it may fail or stall at any time, but what it says for good is true. */
  ghost predicate Fair<T(!new)>(server: Server<T>, accepts: T -> bool) {
    forall call, body :: FairReply(server(call, body), accepts, body)
  }

  ghost predicate FairReply<T>(reply: Reply, accepts: T -> bool, body: seq<T>) {
    reply.Response? ==>
      forall k :: 0 <= k < |body| && k < |reply.entries| && reply.entries[k].Some? ==>
        FairStatus(reply.entries[k].value, accepts(body[k]))
  }

  /** 2xx only for what is accepted, 4xx but 409 and 429 only for what is not. */
  predicate FairStatus(status: int, accepted: bool) {
    && (200 <= status < 300 ==> accepted)
    && (400 <= status < 500 && status !in {409, 429} ==> !accepted)
  }

  /** A family that can be indexed whole: it fits a request and every member is accepted. */
  predicate Accepted<T>(c: Codec<T>, accepts: T -> bool, f: Family<T>) {
    && EncodedDocSize(c, f) <= MAX_BULK_BODY_BYTES && accepts(f.parent)
    && forall j :: 0 <= j < |f.children| ==> accepts(f.children[j])
  }

  /**
   * Against such a server a success means the whole family is accepted, a permanent
   * failure that it is not; then the parent was still indexed if it is accepted itself.
   */
  lemma FairVerdict<T(!new)>(c: Codec<T>, docs: seq<Family<T>>, server: Server<T>, first: nat, cuts: seq<nat>,
                             out: seq<BulkItemResult>, accepts: T -> bool, i: nat)
    requires Answers(c, docs, server, first, cuts, out) && i < |out| == |docs| && Fair(server, accepts)
    ensures out[i].ok ==> Accepted(c, accepts, docs[i])
    ensures out[i].Permanent() ==> !out[i].ok && !Accepted(c, accepts, docs[i])
    ensures out[i].Permanent() && EncodedDocSize(c, docs[i]) <= MAX_BULK_BODY_BYTES && accepts(docs[i].parent) ==>
              Acknowledged(server, docs[i].parent)
  {
    var s := PieceOf(c, docs, server, first, cuts, out, i);
    InPiece(c, docs, server, first, cuts, out, s, i);
    FairInPiece(c, docs[cuts[s]..cuts[s + 1]], server, first + s, i - cuts[s], out[i], accepts);
  }

  lemma FairInPiece<T(!new)>(c: Codec<T>, sub: seq<Family<T>>, server: Server<T>, call: nat, h: nat,
                             res: BulkItemResult, accepts: T -> bool)
    requires h < |sub| && AnsweredIn(c, sub, Outcome(c, sub, server, call), h, res) && Fair(server, accepts)
    ensures res.ok ==> Accepted(c, accepts, sub[h])
    ensures res.Permanent() ==> !res.ok && !Accepted(c, accepts, sub[h])
    ensures res.Permanent() && EncodedDocSize(c, sub[h]) <= MAX_BULK_BODY_BYTES && accepts(sub[h].parent) ==>
              Acknowledged(server, sub[h].parent)
  {
    var body := Flatten(sub);
    if !TooLarge(c, sub) && Outcome(c, sub, server, call).Response? {
      FitsAlone(c, sub, h);
      FlattenAt(sub, h);
      var entries, o := server(call, body).entries, |Flatten(sub[..h])|;
      assert FairReply(server(call, body), accepts, body);
      FairFamily(c, accepts, sub[h], body, entries, o, res);
      if EntryOK(entries, o) {
        assert AcknowledgedAt(server, sub[h].parent, call, body, o);
      }
    }
  }

  lemma FairFamily<T>(c: Codec<T>, accepts: T -> bool, f: Family<T>, body: seq<T>, entries: seq<Entry>, o: nat,
                      res: BulkItemResult)
    requires Sits(body, o, f) && FairReply(Response(entries), accepts, body) && Judged(entries, o, |f.children|, res)
    requires EncodedDocSize(c, f) <= MAX_BULK_BODY_BYTES
    ensures res.ok ==> Accepted(c, accepts, f)
    ensures res.Permanent() ==> !res.ok && !Accepted(c, accepts, f)
    ensures res.Permanent() && accepts(f.parent) ==> EntryOK(entries, o)
  {
    if res.ok {
      assert EntryOK(entries, o);
      forall j | 0 <= j < |f.children| ensures accepts(f.children[j]) {
        assert EntryOK(entries, o + 1 + j) && body[o + 1 + j] == f.children[j];
      }
    } else {
      ghost var k: nat :| FirstFailure(entries, o, |f.children|, k) && res.status == EntryStatus(entries, k);
      assert body[k] == if k == o then f.parent else f.children[k - o - 1];
    }
  }

  // ---- messages ----

  /** The convertible messages, as documents, and their positions. */
  function Converted<M, T>(convert: M -> Option<Family<T>>, msgs: seq<M>): seq<Family<T>> {
    if msgs == [] then []
    else
      var d := convert(msgs[|msgs| - 1]);
      Converted(convert, msgs[..|msgs| - 1]) + if d.Some? then [d.value] else []
  }

  lemma ConvertedStep<M, T>(convert: M -> Option<Family<T>>, msgs: seq<M>, i: nat)
    requires i < |msgs|
    ensures Converted(convert, msgs[..i + 1]) == Converted(convert, msgs[..i]) +
              match convert(msgs[i]) { case Some(d) => [d] case None => [] }
  {
    assert msgs[..i + 1][..i] == msgs[..i];
  }

  /** A message's place among the documents sent. */
  lemma {:induction false} ConvertedAt<M, T>(convert: M -> Option<Family<T>>, msgs: seq<M>, i: nat)
    requires i < |msgs| && convert(msgs[i]).Some?
    ensures var j := |Converted(convert, msgs[..i])|;
            j < |Converted(convert, msgs)| && Converted(convert, msgs)[j] == convert(msgs[i]).value
  {
    if i < |msgs| - 1 {
      ConvertedAt(convert, msgs[..|msgs| - 1], i);
      assert msgs[..|msgs| - 1][..i] == msgs[..i];
    }
  }

  /** The result of one message: its own refusal, or the result of its document under its own name. */
  predicate MessageResult<M, T>(name: M -> string, convert: M -> Option<Family<T>>, msgs: seq<M>, i: nat,
                                docRes: seq<BulkItemResult>, res: BulkItemResult)
    requires i < |msgs|
  {
    match convert(msgs[i])
    case None => res == BulkItemResult(name(msgs[i]), false, DOC_CONVERT_BAD_REQUEST)
    case Some(_) =>
      var j := |Converted(convert, msgs[..i])|;
      j < |docRes| && res == docRes[j].(messageID := name(msgs[i]))
  }

  /** Bulk: one result per message, in order; a message that is no document is refused on its own. */
  method Bulk<M, T>(c: Codec<T>, name: M -> string, convert: M -> Option<Family<T>>, msgs: seq<M>,
                    server: Server<T>, first: nat)
    returns (out: seq<BulkItemResult>, err: bool, ghost cuts: seq<nat>, ghost docRes: seq<BulkItemResult>)
    ensures |out| == |msgs| && |docRes| == |Converted(convert, msgs)|
    ensures Answers(c, Converted(convert, msgs), server, first, cuts, docRes)
    ensures forall i :: 0 <= i < |msgs| ==> MessageResult(name, convert, msgs, i, docRes, out[i])
    ensures err <==> SomeRequestFailed(c, Converted(convert, msgs), server, first, cuts)
  {
    var docs, docIdx;
    docs, docIdx, out := ConvertAll(name, convert, msgs);
    var res;
    res, err, cuts := BulkDocs(c, docs, server, first);
    docRes := res;
    for j := 0 to |docIdx|
      invariant |out| == |msgs|
      invariant forall h :: 0 <= h < |msgs| && Settled(convert, msgs, j, h) ==>
                  MessageResult(name, convert, msgs, h, docRes, out[h])
    {
      var i := docIdx[j];
      assert PlacedAt(convert, msgs, |msgs|, j, docIdx[j]);
      out := out[i := res[j].(messageID := name(msgs[i]))];
      SettleNext(convert, msgs, docIdx, j);
    }
    AllSettled(convert, msgs);
  }

  /** The first loop of Bulk. */
  method ConvertAll<M, T>(name: M -> string, convert: M -> Option<Family<T>>, msgs: seq<M>)
    returns (docs: seq<Family<T>>, docIdx: seq<nat>, out: seq<BulkItemResult>)
    ensures docs == Converted(convert, msgs) && |docIdx| == |docs| && |out| == |msgs|
    ensures Placed(convert, msgs, |msgs|, docIdx)
    ensures forall h :: 0 <= h < |msgs| && convert(msgs[h]).None? ==>
              out[h] == BulkItemResult(name(msgs[h]), false, DOC_CONVERT_BAD_REQUEST)
  {
    docs, docIdx, out := [], [], [];
    for i := 0 to |msgs|
      invariant docs == Converted(convert, msgs[..i]) && |docIdx| == |docs| && |out| == i
      invariant Placed(convert, msgs, i, docIdx)
      invariant forall h :: 0 <= h < i && convert(msgs[h]).None? ==>
                  out[h] == BulkItemResult(name(msgs[h]), false, DOC_CONVERT_BAD_REQUEST)
    {
      ConvertedStep(convert, msgs, i);
      PlacedNext(convert, msgs, i, docIdx);
      match convert(msgs[i]) {
        case None =>
          out := out + [BulkItemResult(name(msgs[i]), false, DOC_CONVERT_BAD_REQUEST)];
        case Some(d) =>
          docs, docIdx := docs + [d], docIdx + [i];
          out := out + [BulkItemResult("", false, 0)];
      }
    }
    assert msgs[..|msgs|] == msgs;
  }

  lemma SettleNext<M, T>(convert: M -> Option<Family<T>>, msgs: seq<M>, docIdx: seq<nat>, j: nat)
    requires j < |docIdx| && Placed(convert, msgs, |msgs|, docIdx)
    ensures forall h :: 0 <= h < |msgs| && h != docIdx[j] && Settled(convert, msgs, j + 1, h)
              ==> Settled(convert, msgs, j, h)
  {
    forall h | 0 <= h < |msgs| && h != docIdx[j] && Settled(convert, msgs, j + 1, h)
      ensures Settled(convert, msgs, j, h)
    {
      assert HasPlace(convert, msgs, h, docIdx);
    }
  }

  lemma AllSettled<M, T>(convert: M -> Option<Family<T>>, msgs: seq<M>)
    ensures forall h :: 0 <= h < |msgs| ==> Settled(convert, msgs, |Converted(convert, msgs)|, h)
  {
    forall h | 0 <= h < |msgs| ensures Settled(convert, msgs, |Converted(convert, msgs)|, h) {
      if convert(msgs[h]).Some? {
        ConvertedAt(convert, msgs, h);
      }
    }
  }

  /** A message reported as written is a document acknowledged whole; one that is no document is dead for good. */
  lemma MessageOkMeansAcknowledged<M, T(!new)>(c: Codec<T>, name: M -> string, convert: M -> Option<Family<T>>,
                                               msgs: seq<M>, server: Server<T>, first: nat, cuts: seq<nat>,
                                               docRes: seq<BulkItemResult>, i: nat, res: BulkItemResult)
    requires i < |msgs| && |docRes| == |Converted(convert, msgs)|
    requires Answers(c, Converted(convert, msgs), server, first, cuts, docRes)
    requires MessageResult(name, convert, msgs, i, docRes, res)
    ensures res.messageID == name(msgs[i]) && (convert(msgs[i]).None? ==> !res.ok && res.Permanent())
    ensures res.ok ==> convert(msgs[i]).Some? && Acknowledged(server, convert(msgs[i]).value.parent)
    ensures res.ok ==> forall j :: 0 <= j < |convert(msgs[i]).value.children| ==>
                         Acknowledged(server, convert(msgs[i]).value.children[j])
  {
    if convert(msgs[i]).Some? {
      ConvertedAt(convert, msgs, i);
      OkMeansAcknowledged(c, Converted(convert, msgs), server, first, cuts, docRes, |Converted(convert, msgs[..i])|);
    }
  }

  /** docIdx lists the places of the convertible messages among the first n. */
  ghost predicate Placed<M, T>(convert: M -> Option<Family<T>>, msgs: seq<M>, n: nat, docIdx: seq<nat>)
    requires n <= |msgs|
  {
    && (forall j {:trigger PlacedAt(convert, msgs, n, j, docIdx[j])} :: 0 <= j < |docIdx| ==>
          PlacedAt(convert, msgs, n, j, docIdx[j]))
    && (forall h {:trigger HasPlace(convert, msgs, h, docIdx)} :: 0 <= h < n ==> HasPlace(convert, msgs, h, docIdx))
  }

  ghost predicate PlacedAt<M, T>(convert: M -> Option<Family<T>>, msgs: seq<M>, n: nat, j: int, i: nat)
    requires n <= |msgs|
  {
    i < n && convert(msgs[i]).Some? && |Converted(convert, msgs[..i])| == j
  }

  ghost predicate HasPlace<M, T>(convert: M -> Option<Family<T>>, msgs: seq<M>, h: int, docIdx: seq<nat>)
    requires 0 <= h < |msgs|
  {
    convert(msgs[h]).Some? ==>
      var j := |Converted(convert, msgs[..h])|; j < |docIdx| && docIdx[j] == h
  }

  lemma PlacedNext<M, T>(convert: M -> Option<Family<T>>, msgs: seq<M>, n: nat, docIdx: seq<nat>)
    requires n < |msgs| && Placed(convert, msgs, n, docIdx) && |docIdx| == |Converted(convert, msgs[..n])|
    ensures Placed(convert, msgs, n + 1, if convert(msgs[n]).Some? then docIdx + [n] else docIdx)
  {
    var next := if convert(msgs[n]).Some? then docIdx + [n] else docIdx;
    forall j | 0 <= j < |next| ensures PlacedAt(convert, msgs, n + 1, j, next[j]) {
      if j < |docIdx| {
        assert PlacedAt(convert, msgs, n, j, docIdx[j]);
      }
    }
    forall h | 0 <= h < n + 1 ensures HasPlace(convert, msgs, h, next) {
      if h < n {
        assert HasPlace(convert, msgs, h, docIdx);
      }
    }
  }

  /** Whether message h has its final result once the first j document results are copied. */
  ghost predicate Settled<M, T>(convert: M -> Option<Family<T>>, msgs: seq<M>, j: nat, h: nat)
    requires h < |msgs|
  {
    convert(msgs[h]).Some? ==> |Converted(convert, msgs[..h])| < j
  }
}
