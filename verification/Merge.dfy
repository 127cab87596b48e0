/**
 * One stored document with two writers: internal/esindex/writer.go replaces it but
 * preserves the file content, internal/fileextract/oswriter.go merges content or a
 * tombstone into it and does nothing when it is missing.
 */
module Merge {
  import opened Common
  import opened Json
  import opened Contract
  import opened BulkWriter
  import opened EsDoc

  const TOMBSTONE_STATUS := "unextractable"

  /** The server's partial update: objects merge member by member, anything else is replaced. */
  function DeepMerge(a: Json, b: Json): Json
    decreases b
  {
    if a.Obj? && b.Obj? then
      Obj(map k | k in a.fields.Keys + b.fields.Keys ::
            if k !in b.fields then a.fields[k]
            else if k !in a.fields then b.fields[k]
            else DeepMerge(a.fields[k], b.fields[k]))
    else b
  }

  /** What the file extractor writes: the content, if any, and the facts about the extraction. */
  datatype Patch = Patch(content: Option<string>, meta: Object)

  function PatchFile(p: Patch): Object {
    (if p.content.Some? then map["content" := Str(p.content.value)] else map[]) + map["contentMeta" := Obj(p.meta)]
  }

  function PatchDoc(p: Patch): Object {
    map["payload" := Obj(map["file" := Obj(PatchFile(p))])]
  }

  /** UpdateContent and WriteTombstone on a stored document; None is a missing document. */
  function Update(stored: Option<Object>, p: Patch): Option<Object> {
    match stored
    case None => None
    case Some(src) => Some(DeepMerge(Obj(src), Obj(PatchDoc(p))).fields)
  }

  function ContentPatch(content: string, meta: Object): Patch {
    Patch(Some(content), meta)
  }

  function TombstonePatch(reason: string, extractedAt: int): Patch {
    Patch(None, map["status" := Str(TOMBSTONE_STATUS), "reason" := Str(reason)] + IntMember("extractedAt", extractedAt))
  }

  /** The object under a key, or an empty one. */
  function Inner(o: Object, key: string): Object {
    Fields(Get(o, key))
  }

  function Fields(j: Json): Object {
    if j.Obj? then j.fields else map[]
  }

  function FileOf(o: Object): Object {
    Inner(Inner(o, "payload"), "file")
  }

  function WithFile(o: Object, file: Object): Object {
    o["payload" := Obj(Inner(o, "payload")["file" := Obj(file)])]
  }

  function PutUnlessNull(o: Object, key: string, value: Json): Object {
    if value == Null then o else o[key := value]
  }

  function PutOwned(file: Object, content: Json, meta: Json): Object {
    PutUnlessNull(PutUnlessNull(file, "content", content), "contentMeta", meta)
  }

  /** The upsert script: replace everything, then put back the saved content and its facts. */
  function Upsert(stored: Option<Object>, doc: Object): Object {
    match stored
    case None => doc
    case Some(src) =>
      var content, meta := Get(FileOf(src), "content"), Get(FileOf(src), "contentMeta");
      if content == Null && meta == Null then doc else WithFile(doc, PutOwned(FileOf(doc), content, meta))
  }

  /** A document that brings no content of its own, as every document the indexer builds. */
  predicate OwnsNothing(doc: Object) {
    "content" !in FileOf(doc) && "contentMeta" !in FileOf(doc)
  }

  // ---- what the merge does to the file ----

  lemma MergeIntoEmpty(b: Json)
    requires b.Obj?
    ensures DeepMerge(Obj(map[]), b) == b
  {
  }

  lemma MergeOne(o: Object, key: string, b: Object)
    ensures DeepMerge(Obj(o), Obj(map[key := Obj(b)])) == Obj(o[key := DeepMerge(Obj(Inner(o, key)), Obj(b))])
  {
    MergeIntoEmpty(Obj(b));
    var r := DeepMerge(Obj(o), Obj(map[key := Obj(b)])).fields;
    assert r.Keys == o.Keys + {key};
    if key in o {
      assert r[key] == DeepMerge(o[key], Obj(b));
      assert !o[key].Obj? ==> Inner(o, key) == map[] && DeepMerge(o[key], Obj(b)) == Obj(b);
      assert o[key].Obj? ==> Obj(Inner(o, key)) == o[key];
    } else {
      assert r[key] == Obj(b);
    }
    assert r[key] == DeepMerge(Obj(Inner(o, key)), Obj(b));
    assert r == o[key := DeepMerge(Obj(Inner(o, key)), Obj(b))];
  }

  function MergedFile(file: Object, p: Patch): Object {
    DeepMerge(Obj(file), Obj(PatchFile(p))).fields
  }

  /** An update touches the file only. */
  lemma UpdateIsFileMerge(src: Object, p: Patch)
    ensures Update(Some(src), p) == Some(WithFile(src, MergedFile(FileOf(src), p)))
  {
    MergeOne(src, "payload", map["file" := Obj(PatchFile(p))]);
    MergeOne(Inner(src, "payload"), "file", PatchFile(p));
  }

  /** In the file, it sets the content if it brings one, and merges the facts. */
  lemma MergedFileIs(file: Object, p: Patch)
    ensures var facts := DeepMerge(Obj(Inner(file, "contentMeta")), Obj(p.meta));
            MergedFile(file, p) ==
            (if p.content.Some? then file["content" := Str(p.content.value)] else file)["contentMeta" := facts]
  {
    var r, patch := MergedFile(file, p), PatchFile(p);
    var base := if p.content.Some? then file["content" := Str(p.content.value)] else file;
    var facts := DeepMerge(Obj(Inner(file, "contentMeta")), Obj(p.meta));
    assert patch["contentMeta"] == Obj(p.meta);
    MemberMerge(file, patch, "contentMeta");
    MergeIntoEmpty(Obj(p.meta));
    forall k | k in base && k != "contentMeta" ensures k in r && r[k] == base[k] {
      MemberMerge(file, patch, k);
    }
    assert r.Keys == base.Keys + {"contentMeta"};
    assert r == base["contentMeta" := facts];
  }

  /** One member of a merge. */
  lemma MemberMerge(a: Object, b: Object, k: string)
    requires k in a || k in b
    ensures var r := DeepMerge(Obj(a), Obj(b)).fields;
            && k in r
            && r[k] == if k !in b then a[k]
                       else if k in a && a[k].Obj? then DeepMerge(a[k], b[k])
                       else b[k]
  {
  }

  // ---- the two writers commute ----

  lemma FileOfWithFile(o: Object, file: Object)
    ensures FileOf(WithFile(o, file)) == file
    ensures forall f :: WithFile(WithFile(o, file), f) == WithFile(o, f)
  {
    forall f ensures WithFile(WithFile(o, file), f) == WithFile(o, f) {
      var p := Inner(o, "payload");
      assert p["file" := Obj(file)]["file" := Obj(f)] == p["file" := Obj(f)];
      assert WithFile(WithFile(o, file), f) == o["payload" := Obj(p["file" := Obj(f)])];
    }
  }

  /** An update followed by an upsert restores what the update left in the file. */
  lemma OwnedAfterUpdate(src: Object, p: Patch)
    ensures var file := FileOf(Update(Some(src), p).value);
            && Get(file, "content") == (if p.content.Some? then Str(p.content.value) else Get(FileOf(src), "content"))
            && Get(file, "contentMeta") == DeepMerge(Obj(Inner(FileOf(src), "contentMeta")), Obj(p.meta))
  {
    UpdateIsFileMerge(src, p);
    FileOfWithFile(src, MergedFile(FileOf(src), p));
    MergedFileIs(FileOf(src), p);
  }

  lemma PutThenMerge(file: Object, content: Json, meta: Json, p: Patch)
    requires "content" !in file && "contentMeta" !in file
    ensures MergedFile(PutOwned(file, content, meta), p) ==
            PutOwned(file, if p.content.Some? then Str(p.content.value) else content,
                     DeepMerge(Obj(Fields(meta)), Obj(p.meta)))
  {
    var put := PutOwned(file, content, meta);
    MergedFileIs(put, p);
    OwnedOf(file, content, meta);
    var facts := DeepMerge(Obj(Fields(meta)), Obj(p.meta));
    if p.content.Some? {
      Overwrite(file, content, meta, Str(p.content.value), facts);
    } else {
      Overwrite(file, content, meta, content, facts);
    }
  }

  lemma OwnedOf(file: Object, content: Json, meta: Json)
    requires "content" !in file && "contentMeta" !in file
    ensures Get(PutOwned(file, content, meta), "content") == content
    ensures Get(PutOwned(file, content, meta), "contentMeta") == meta
  {
  }

  lemma Overwrite(file: Object, content: Json, meta: Json, content': Json, facts: Json)
    requires "content" !in file && "contentMeta" !in file && facts != Null
    requires content' == Null ==> content == Null
    ensures (if content' == Null then PutOwned(file, content, meta)
             else PutOwned(file, content, meta)["content" := content'])["contentMeta" := facts]
         == PutOwned(file, content', facts)
  {
  }

  /**
   * On an existing document an upsert of the indexer and an update of the extractor
   * commute, whatever is stored.
   */
  lemma WritersCommute(src: Object, doc: Object, p: Patch)
    requires OwnsNothing(doc)
    ensures Update(Some(Upsert(Some(src), doc)), p) == Some(Upsert(Update(Some(src), p), doc))
  {
    var content, meta := Get(FileOf(src), "content"), Get(FileOf(src), "contentMeta");
    var up := Upsert(Some(src), doc);
    UpdateIsFileMerge(up, p);
    OwnedAfterUpdate(src, p);
    PutThenMerge(FileOf(doc), content, meta, p);
    if content == Null && meta == Null {
      assert PutOwned(FileOf(doc), content, meta) == FileOf(doc);
    } else {
      FileOfWithFile(doc, PutOwned(FileOf(doc), content, meta));
    }
  }

  // ---- any interleaving ----

  datatype Op = Put(doc: Object) | Change(p: Patch)

  function Apply(stored: Option<Object>, op: Op): Option<Object> {
    match op
    case Put(doc) => Some(Upsert(stored, doc))
    case Change(p) => Update(stored, p)
  }

  function Run(stored: Option<Object>, ops: seq<Op>): Option<Object>
    decreases |ops|
  {
    if ops == [] then stored else Run(Apply(stored, ops[0]), ops[1..])
  }

  function PutsOf(ops: seq<Op>): seq<Op> {
    if ops == [] then [] else (if ops[0].Put? then [ops[0]] else []) + PutsOf(ops[1..])
  }

  function ChangesOf(ops: seq<Op>): seq<Op> {
    if ops == [] then [] else (if ops[0].Change? then [ops[0]] else []) + ChangesOf(ops[1..])
  }

  ghost predicate Clean(ops: seq<Op>) {
    forall n :: 0 <= n < |ops| && ops[n].Put? ==> OwnsNothing(ops[n].doc)
  }

  /** A change may be moved behind any upserts. */
  lemma {:induction false} ChangeBehindPuts(src: Object, p: Patch, puts: seq<Op>)
    requires Clean(puts) && ChangesOf(puts) == []
    ensures Run(Some(src), puts).Some?
    ensures Run(Update(Some(src), p), puts) == Update(Run(Some(src), puts), p)
    decreases |puts|
  {
    if puts != [] {
      assert OwnsNothing(puts[0].doc);
      WritersCommute(src, puts[0].doc, p);
      ChangeBehindPuts(Upsert(Some(src), puts[0].doc), p, puts[1..]);
    }
  }

  lemma {:induction false} PutsAreClean(ops: seq<Op>)
    requires Clean(ops)
    ensures Clean(PutsOf(ops)) && ChangesOf(PutsOf(ops)) == []
  {
    if ops != [] {
      assert Clean(ops[1..]);
      PutsAreClean(ops[1..]);
      assert PutsOf(ops) == if ops[0].Put? then [ops[0]] + PutsOf(ops[1..]) else PutsOf(ops[1..]);
      assert ops[0].Put? ==> PutsOf(ops)[1..] == PutsOf(ops[1..]);
    }
  }

  /**
   * Once a document exists, the final document of any interleaving is that of all
   * upserts in their order followed by all updates in theirs.
   */
  lemma {:induction false} InterleavingIrrelevant(src: Object, ops: seq<Op>)
    requires Clean(ops)
    ensures Run(Some(src), ops) == Run(Run(Some(src), PutsOf(ops)), ChangesOf(ops))
    decreases |ops|
  {
    if ops != [] {
      var op, rest := ops[0], ops[1..];
      assert Clean(rest);
      PutsAreClean(rest);
      var next := Apply(Some(src), op).value;
      InterleavingIrrelevant(next, rest);
      match op {
        case Put(doc) =>
          assert PutsOf(ops) == [op] + PutsOf(rest) && ([op] + PutsOf(rest))[1..] == PutsOf(rest);
          assert ChangesOf(ops) == ChangesOf(rest);
        case Change(p) =>
          ChangeBehindPuts(src, p, PutsOf(rest));
          assert PutsOf(ops) == PutsOf(rest);
          assert ChangesOf(ops) == [op] + ChangesOf(rest) && ([op] + ChangesOf(rest))[1..] == ChangesOf(rest);
      }
    }
  }

  /** Two runs with the same upserts in order and the same updates in order end alike. */
  lemma SameOrdersSameEnd(src: Object, ops: seq<Op>, ops': seq<Op>)
    requires Clean(ops) && Clean(ops') && PutsOf(ops) == PutsOf(ops') && ChangesOf(ops) == ChangesOf(ops')
    ensures Run(Some(src), ops) == Run(Some(src), ops')
  {
    InterleavingIrrelevant(src, ops);
    InterleavingIrrelevant(src, ops');
  }

  // ---- nothing is lost, repetition is harmless ----

  /** No upsert loses the content or the facts that are stored. */
  lemma UpsertKeepsOwned(src: Object, doc: Object)
    requires OwnsNothing(doc)
    ensures Get(FileOf(Upsert(Some(src), doc)), "content") == Get(FileOf(src), "content")
    ensures Get(FileOf(Upsert(Some(src), doc)), "contentMeta") == Get(FileOf(src), "contentMeta")
  {
  }

  predicate OwnsFile(src: Object) {
    Get(FileOf(src), "content") != Null || Get(FileOf(src), "contentMeta") != Null
  }

  /**
   * An upsert brings the whole new document: at every level everything is the new
   * document's but the two owned members of the file, and it is the new document
   * itself when the stored file owns neither.
   */
  lemma UpsertBrings(src: Object, doc: Object)
    requires OwnsNothing(doc)
    ensures var r := Upsert(Some(src), doc);
            && r - {"payload"} == doc - {"payload"}
            && Inner(r, "payload") - {"file"} == Inner(doc, "payload") - {"file"}
            && FileOf(r) - {"content", "contentMeta"} == FileOf(doc)
            && (r == doc <==> !OwnsFile(src))
  {
    var r, file := Upsert(Some(src), doc), FileOf(doc);
    if OwnsFile(src) {
      var owned := PutOwned(file, Get(FileOf(src), "content"), Get(FileOf(src), "contentMeta"));
      FileOfWithFile(doc, owned);
      assert owned - {"content", "contentMeta"} == file;
    } else {
      assert file - {"content", "contentMeta"} == file;
    }
  }

  /** Of what is stored, an upsert sees the two owned members and nothing else. */
  lemma UpsertForgetsTheRest(src: Object, src': Object, doc: Object)
    requires Get(FileOf(src), "content") == Get(FileOf(src'), "content")
    requires Get(FileOf(src), "contentMeta") == Get(FileOf(src'), "contentMeta")
    ensures Upsert(Some(src), doc) == Upsert(Some(src'), doc)
  {
  }

  /** A tombstone says why, and leaves the content alone. */
  lemma TombstoneWritten(src: Object, reason: string, at: int)
    ensures var file := FileOf(Update(Some(src), TombstonePatch(reason, at)).value);
            && Get(file, "content") == Get(FileOf(src), "content")
            && Get(Inner(file, "contentMeta"), "status") == Str("unextractable")
            && Get(Inner(file, "contentMeta"), "reason") == Str(reason)
            && (at != 0 ==> Get(Inner(file, "contentMeta"), "extractedAt") == Num(Some(at), at))
  {
    var p := TombstonePatch(reason, at);
    OwnedAfterUpdate(src, p);
    MemberMerge(Inner(FileOf(src), "contentMeta"), p.meta, "status");
    MemberMerge(Inner(FileOf(src), "contentMeta"), p.meta, "reason");
    if at != 0 {
      MemberMerge(Inner(FileOf(src), "contentMeta"), p.meta, "extractedAt");
    }
  }

  /** Only the last of several upserts counts; a redelivery changes nothing. */
  lemma LastUpsertWins(src: Object, doc: Object, doc': Object)
    requires OwnsNothing(doc) && OwnsNothing(doc')
    ensures Upsert(Some(Upsert(Some(src), doc)), doc') == Upsert(Some(src), doc')
  {
  }

  /** In any run the stored content is that of the last update that brought one. */
  lemma {:induction false} ContentSurvives(src: Object, ops: seq<Op>)
    requires Clean(ops)
    ensures Run(Some(src), ops).Some?
    ensures Get(FileOf(Run(Some(src), ops).value), "content") == LastContent(Get(FileOf(src), "content"), ops)
    decreases |ops|
  {
    if ops != [] {
      assert Clean(ops[1..]);
      match ops[0] {
        case Put(doc) => UpsertKeepsOwned(src, doc);
        case Change(p) => OwnedAfterUpdate(src, p);
      }
      ContentSurvives(Apply(Some(src), ops[0]).value, ops[1..]);
    }
  }

  function LastContent(content: Json, ops: seq<Op>): Json
    decreases |ops|
  {
    if ops == [] then content
    else LastContent(if ops[0].Change? && ops[0].p.content.Some? then Str(ops[0].p.content.value) else content, ops[1..])
  }

  /** Before a document exists, updates leave it missing. */
  lemma {:induction false} ChangesOnNothing(ops: seq<Op>)
    requires PutsOf(ops) == []
    ensures Run(None, ops) == None
  {
    if ops != [] {
      ChangesOnNothing(ops[1..]);
    }
  }

  /** A fact that an update does not name stays: extracted content does not clear an earlier tombstone. */
  lemma FactsStay(src: Object, p: Patch, key: string)
    requires key !in p.meta && key in Inner(FileOf(src), "contentMeta")
    ensures var facts := Inner(FileOf(Update(Some(src), p).value), "contentMeta");
            key in facts && facts[key] == Inner(FileOf(src), "contentMeta")[key]
  {
    OwnedAfterUpdate(src, p);
  }

  lemma TombstoneOutlivesContent(src: Object, reason: string, at: int, content: string, meta: Object)
    requires "status" !in meta
    ensures var dead := Update(Some(src), TombstonePatch(reason, at)).value;
            var file := FileOf(Update(Some(dead), ContentPatch(content, meta)).value);
            Get(file, "content") == Str(content) && Get(Inner(file, "contentMeta"), "status") == Str(TOMBSTONE_STATUS)
  {
    var t := TombstonePatch(reason, at);
    var dead := Update(Some(src), t).value;
    OwnedAfterUpdate(src, t);
    assert t.meta["status"] == Str(TOMBSTONE_STATUS);
    OwnedAfterUpdate(dead, ContentPatch(content, meta));
    FactsStay(dead, ContentPatch(content, meta), "status");
  }

  // ---- the indexer's documents ----

  /** Whatever else a document stores, one the indexer builds brings no content of its own. */
  lemma IndexerOwnsNothing(tx: Text, msg: Message, d: Doc, stored: Object)
    requires MemberOf(tx, msg, d)
    requires Get(stored, "payload") == if d.payload.Some? then Obj(d.payload.value) else Null
    ensures OwnsNothing(stored)
  {
    if d.payload.Some? && Get(d.payload.value, "file").Obj? {
      NoFileContent(tx, msg, d);
    }
  }
}
