/**
 * internal/backfill/dlq.go: an append-only file of dead records, a sidecar that
 * says how much of it is synced, and recovery after a crash that keeps the
 * fsynced prefix and leaves anything behind it.
 */
module Spill {
  import opened Common
  import opened Decimal

  const NEWLINE: byte := 10
  const DEFAULT_REASON := "backfill_payload_unparseable"

  datatype Rec = Rec(
    reason: string, table: string, id: int, messageID: string, payload: Bytes, createdAt: int, spilledAt: int)

  datatype Meta = Meta(createdAt: int, messageID: string)

  type Seen = map<string, Meta>

  /** Record text: an encoder, its decoder and the whitespace test. */
  datatype Codec = Codec(enc: Rec -> Bytes, dec: Bytes -> Option<Rec>, blank: Bytes -> bool)

  ghost predicate Sound(c: Codec) {
    forall r :: SoundOn(c, r)
  }

  ghost predicate SoundOn(c: Codec, r: Rec) {
    c.dec(c.enc(r)) == Some(r) && NEWLINE !in c.enc(r) && !c.blank(c.enc(r))
  }

  /** dedupKey: the message id, or table:id when it is empty. */
  function Key(r: Rec): string {
    DedupKey(r.messageID, r.table, r.id)
  }

  function DedupKey(messageID: string, table: string, id: int): string {
    if messageID != "" then messageID else table + ":" + FormatInt(id)
  }

  /** The record and a row mean one message: the same id, or neither has one and they are the same row of a table. */
  predicate SameRow(r: Rec, messageID: string, table: string, id: int) {
    r.messageID == messageID && (messageID == "" ==> r.table == table && r.id == id)
  }

  /** One of the two has no message id, and the other's id happens to spell its table and row id. */
  predicate Shadows(r: Rec, messageID: string, table: string, id: int) {
    || (messageID == "" && r.messageID == table + ":" + FormatInt(id))
    || (r.messageID == "" && messageID == r.table + ":" + FormatInt(r.id))
  }

  ghost predicate Accounts(recs: set<Rec>, messageID: string, table: string, id: int) {
    exists r :: r in recs && (SameRow(r, messageID, table, id) || Shadows(r, messageID, table, id))
  }

  function RecsIn(recs: seq<Rec>): set<Rec> {
    set n | 0 <= n < |recs| :: recs[n]
  }

  function MetaOf(r: Rec): Meta {
    Meta(r.createdAt, r.messageID)
  }

  function Line(c: Codec, r: Rec): Bytes {
    c.enc(r) + [NEWLINE]
  }

  /** The bytes of a run of records. */
  function Written(c: Codec, recs: seq<Rec>): Bytes {
    if recs == [] then [] else Line(c, recs[0]) + Written(c, recs[1..])
  }

  /** What the records account for, on top of what was seen before. */
  function Fold(recs: seq<Rec>, seen: Seen): Seen {
    if recs == [] then seen else Fold(recs[1..], seen[Key(recs[0]) := MetaOf(recs[0])])
  }

  function FirstNewline(b: Bytes): (n: nat)
    ensures n <= |b| && NEWLINE !in b[..n]
    ensures n < |b| ==> b[n] == NEWLINE
  {
    if b == [] || b[0] == NEWLINE then 0
    else
      assert b == [b[0]] + b[1..];
      1 + FirstNewline(b[1..])
  }

  /** Records line by line; None when a line is corrupt or unfinished. */
  function Parse(c: Codec, b: Bytes, seen: Seen): Option<Seen>
    decreases |b|
  {
    if b == [] then Some(seen)
    else
      var n := FirstNewline(b);
      if n == |b| then None
      else if c.blank(b[..n]) then Parse(c, b[n + 1..], seen)
      else match c.dec(b[..n])
        case None => None
        case Some(r) => Parse(c, b[n + 1..], seen[Key(r) := MetaOf(r)])
  }

  // ---- what a key identifies ----

  lemma LastColon(a: string, x: string, b: string, y: string)
    requires ':' !in x && ':' !in y && a + ":" + x == b + ":" + y
    ensures a == b && x == y
  {
    var s := a + ":" + x;
    NoneBehind(a, x);
    NoneBehind(b, y);
    assert s[|a|] == ':' && s[|b|] == ':';
    assert a == s[..|a|] && b == s[..|b|] && x == s[|a| + 1..] && y == s[|b| + 1..];
  }

  lemma NoneBehind(a: string, x: string)
    requires ':' !in x
    ensures forall k :: |a| < k < |a + ":" + x| ==> (a + ":" + x)[k] != ':'
  {
    forall k | |a| < k < |a + ":" + x| ensures (a + ":" + x)[k] != ':' {
      assert (a + ":" + x)[k] == x[k - |a| - 1];
    }
  }

  lemma NoColon(n: int)
    ensures ':' !in FormatInt(n)
  {
  }

  /** Records of equal keys are of one message, or one of them shadows the other; and only those have equal keys. */
  lemma KeyMeans(r: Rec, messageID: string, table: string, id: int)
    ensures Key(r) == DedupKey(messageID, table, id) <==>
              SameRow(r, messageID, table, id) || Shadows(r, messageID, table, id)
  {
    if r.messageID == "" && messageID == "" && Key(r) == DedupKey(messageID, table, id) {
      NoColon(r.id);
      NoColon(id);
      LastColon(r.table, FormatInt(r.id), table, FormatInt(id));
      FormatIntInjective(r.id, id);
    }
  }

  /** Where message ids hold no colon nothing is shadowed. */
  lemma NoColonNoShadow(r: Rec, messageID: string, table: string, id: int)
    requires ':' !in r.messageID && ':' !in messageID
    ensures !Shadows(r, messageID, table, id)
  {
    assert (table + ":" + FormatInt(id))[|table|] == ':';
    assert (r.table + ":" + FormatInt(r.id))[|r.table|] == ':';
  }

  /** A row is accounted for exactly when its key is seen. */
  lemma SeenMeans(recs: seq<Rec>, messageID: string, table: string, id: int)
    ensures DedupKey(messageID, table, id) in Fold(recs, map[]) <==> Accounts(RecsIn(recs), messageID, table, id)
  {
    FoldMeans(recs, map[], DedupKey(messageID, table, id));
    forall n | 0 <= n < |recs|
      ensures Key(recs[n]) == DedupKey(messageID, table, id) <==>
                SameRow(recs[n], messageID, table, id) || Shadows(recs[n], messageID, table, id)
    {
      KeyMeans(recs[n], messageID, table, id);
    }
  }

  // ---- writing and parsing are inverse ----

  lemma LineIsFirst(c: Codec, r: Rec, rest: Bytes)
    requires SoundOn(c, r)
    ensures FirstNewline(Line(c, r) + rest) == |c.enc(r)|
    ensures (Line(c, r) + rest)[..|c.enc(r)|] == c.enc(r)
    ensures (Line(c, r) + rest)[|c.enc(r)| + 1..] == rest
  {
    var b, n := Line(c, r) + rest, FirstNewline(Line(c, r) + rest);
    var e := |c.enc(r)|;
    assert b[e] == NEWLINE;
    assert b[..e] == c.enc(r);
    assert forall k :: 0 <= k < e ==> b[k] == c.enc(r)[k];
    assert forall k :: 0 <= k < n ==> b[k] == b[..n][k];
  }

  /** Parsing what was written, with anything behind it, accounts for exactly the records. */
  lemma {:induction false} ParseWritten(c: Codec, recs: seq<Rec>, tail: Bytes, seen: Seen)
    requires Sound(c)
    ensures Parse(c, Written(c, recs) + tail, seen) == Parse(c, tail, Fold(recs, seen))
  {
    if recs == [] {
      assert Written(c, recs) + tail == tail;
    } else {
      var r, rest := recs[0], Written(c, recs[1..]) + tail;
      assert SoundOn(c, r);
      assert Written(c, recs) + tail == Line(c, r) + rest;
      LineIsFirst(c, r, rest);
      ParseWritten(c, recs[1..], tail, seen[Key(r) := MetaOf(r)]);
    }
  }

  lemma SpillRoundTrip(c: Codec, recs: seq<Rec>)
    requires Sound(c)
    ensures Parse(c, Written(c, recs), map[]) == Some(Fold(recs, map[]))
  {
    ParseWritten(c, recs, [], map[]);
    assert Written(c, recs) + [] == Written(c, recs);
  }

  lemma {:induction false} WrittenAppend(c: Codec, recs: seq<Rec>, more: seq<Rec>)
    ensures Written(c, recs + more) == Written(c, recs) + Written(c, more)
  {
    if recs == [] {
      assert recs + more == more;
    } else {
      assert (recs + more)[1..] == recs[1..] + more;
      WrittenAppend(c, recs[1..], more);
    }
  }

  lemma {:induction false} FoldAppend(recs: seq<Rec>, r: Rec, seen: Seen)
    ensures Fold(recs + [r], seen) == Fold(recs, seen)[Key(r) := MetaOf(r)]
  {
    if recs == [] {
      assert Fold([r], seen) == Fold([], seen[Key(r) := MetaOf(r)]) by {
        assert [r][1..] == [];
      }
    } else {
      assert (recs + [r])[1..] == recs[1..] + [r];
      FoldAppend(recs[1..], r, seen[Key(recs[0]) := MetaOf(recs[0])]);
    }
  }

  /** The key set is the set of keys written, and each key holds the data of a record that has it. */
  lemma {:induction false} FoldMeans(recs: seq<Rec>, seen: Seen, k: string)
    ensures k in Fold(recs, seen) <==> k in seen || exists n :: 0 <= n < |recs| && Key(recs[n]) == k
    ensures k in Fold(recs, seen) ==>
              (k in seen && Fold(recs, seen)[k] == seen[k])
              || exists n :: 0 <= n < |recs| && Key(recs[n]) == k && MetaOf(recs[n]) == Fold(recs, seen)[k]
  {
    if recs != [] {
      var seen' := seen[Key(recs[0]) := MetaOf(recs[0])];
      FoldMeans(recs[1..], seen', k);
      if n :| 0 <= n < |recs[1..]| && Key(recs[1..][n]) == k && k in Fold(recs, seen)
              && MetaOf(recs[1..][n]) == Fold(recs, seen)[k] {
        assert recs[n + 1] == recs[1..][n];
      } else if n :| 0 <= n < |recs[1..]| && Key(recs[1..][n]) == k {
        assert recs[n + 1] == recs[1..][n];
      }
      if n :| 0 <= n < |recs| && Key(recs[n]) == k {
        if n > 0 {
          assert recs[1..][n - 1] == recs[n];
        }
      }
    }
  }

  /**
   * Why nothing may be written after a failed write: behind the torn bytes of an
   * unfinished line, the length that would be synced parses only if nothing was torn.
   */
  lemma WriteAfterTorn(c: Codec, recs: seq<Rec>, torn: Bytes, next: Rec)
    requires Sound(c) && NEWLINE !in torn
    ensures var file := Written(c, recs) + torn + Line(c, next);
            Parse(c, file[..|Written(c, recs)| + |Line(c, next)|], map[]).Some? <==> torn == []
  {
    assert SoundOn(c, next);
    var w, line := Written(c, recs), Line(c, next);
    var tail := (torn + line)[..|line|];
    assert (w + torn + line)[..|w| + |line|] == w + tail;
    ParseWritten(c, recs, tail, map[]);
    if torn == [] {
      assert tail == line + [];
      LineIsFirst(c, next, []);
    } else {
      assert forall k :: 0 <= k < |tail| ==> tail[k] == if k < |torn| then torn[k] else c.enc(next)[k - |torn|];
      assert NEWLINE !in tail;
    }
  }

  // ---- recovery, for any disk ----

  datatype Sidecar = Absent | Offset(n: int) | Garbage

  /** What a disk accounts for, or None when its durable state is lost or corrupt. */
  function Recover(c: Codec, sidecar: Sidecar, file: Option<Bytes>): Option<Seen> {
    match sidecar
    case Garbage => None
    case Absent => Some(map[])
    case Offset(n) =>
      if n < 0 then None
      else if n == 0 then Some(map[])
      else if file.None? || |file.value| < n then None
      else Parse(c, file.value[..n], map[])
  }

  ghost predicate DistinctKeys(recs: seq<Rec>) {
    forall i, j {:trigger Key(recs[i]), Key(recs[j])} :: 0 <= i < j < |recs| ==> Key(recs[i]) != Key(recs[j])
  }

  function Boundary(sidecar: Sidecar): nat {
    if sidecar.Offset? && sidecar.n >= 0 then sidecar.n else 0
  }

  predicate InWindow(m: Meta, from: int, to: int) {
    from <= m.createdAt <= to
  }

  function KeysInWindow(seen: Seen, from: int, to: int): set<string> {
    set k | k in seen && InWindow(seen[k], from, to)
  }

  /** The real message ids in the window; records without one cannot be matched and are left out. */
  function IdsInWindow(seen: Seen, from: int, to: int): set<string> {
    set k | k in seen && InWindow(seen[k], from, to) && seen[k].messageID != "" :: seen[k].messageID
  }

  /** parseSyncedSpillPrefix. */
  method ParseSyncedSpillPrefix(c: Codec, prefix: Bytes) returns (r: Option<Seen>)
    ensures r == Parse(c, prefix, map[])
  {
    var seen: Seen, rest := map[], prefix;
    while rest != []
      invariant Parse(c, prefix, map[]) == Parse(c, rest, seen)
      decreases |rest|
    {
      var n := FirstNewline(rest);
      if n == |rest| {
        return None;
      }
      var line := rest[..n];
      if !c.blank(line) {
        match c.dec(line) {
          case None => return None;
          case Some(rec) => seen := seen[Key(rec) := MetaOf(rec)];
        }
      }
      rest := rest[n + 1..];
    }
    return Some(seen);
  }

  /** LoadDLQMessageIDsInWindow, for the standalone check: it reads what recovery would read. */
  method LoadDLQMessageIDsInWindow(c: Codec, sidecar: Sidecar, file: Option<Bytes>, from: int, to: int)
    returns (ids: Option<set<string>>)
    ensures ids == match Recover(c, sidecar, file)
                   case None => None
                   case Some(seen) => Some(IdsInWindow(seen, from, to))
  {
    if sidecar.Garbage? || (sidecar.Offset? && sidecar.n < 0) {
      return None;
    }
    var synced := Boundary(sidecar);
    if synced == 0 {
      assert IdsInWindow(map[], from, to) == {};
      return Some({});
    }
    if file.None? || synced > |file.value| {
      return None;
    }
    var seen := ParseSyncedSpillPrefix(c, file.value[..synced]);
    if seen.None? {
      return None;
    }
    var out := CollectIds(seen.value, from, to);
    return Some(out);
  }

  method CollectIds(seen: Seen, from: int, to: int) returns (out: set<string>)
    ensures out == IdsInWindow(seen, from, to)
  {
    out := {};
    var todo := seen.Keys;
    while todo != {}
      invariant todo <= seen.Keys
      invariant out == set k | k in seen.Keys - todo && InWindow(seen[k], from, to) && seen[k].messageID != "" ::
                               seen[k].messageID
      decreases |todo|
    {
      var k :| k in todo;
      todo := todo - {k};
      if seen[k].messageID != "" && InWindow(seen[k], from, to) {
        out := out + {seen[k].messageID};
      }
    }
    assert seen.Keys - todo == seen.Keys;
  }

  // ---- the disk ----

  /**
   * The spill directory. durable is how much of the file a crash keeps for sure.
   * records are the whole records the sidecar covers; safe are those it covers
   * after any crash, since a renamed sidecar may revert until its directory is synced.
   */
  class Disk {
    var file: Option<Bytes>
    var sidecar: Sidecar
    var durable: nat
    var records: seq<Rec>
    var safe: seq<Rec>

    function Content(): Bytes reads this {
      if file.None? then [] else file.value
    }

    ghost predicate Valid(c: Codec) reads this {
      && safe <= records && DistinctKeys(records) && !sidecar.Garbage? && (sidecar.Offset? ==> sidecar.n >= 0)
      && Boundary(sidecar) == |Written(c, records)| <= durable <= |Content()|
      && Content()[..|Written(c, records)|] == Written(c, records)
    }

    /** A crash keeps the durable prefix of the file and leaves anything behind it. */
    method Crash(c: Codec)
      requires Sound(c) && Valid(c)
      modifies this
      ensures Valid(c) && safe == old(safe) && (records == safe || records == old(records))
    {
      var dirt: Bytes, reverted: bool, gone: bool := *, *, *;
      if reverted {
        SafeBytes(c, safe, records);
        records := safe;
        sidecar := Offset(|Written(c, safe)|);
      }
      var kept := Content()[..durable];
      assert kept[..|Written(c, records)|] == Content()[..|Written(c, records)|];
      file := if durable == 0 && gone then None else Some(kept + dirt);
      assert (kept + dirt)[..|Written(c, records)|] == kept[..|Written(c, records)|];
    }
  }

  lemma SafeBytes(c: Codec, safe: seq<Rec>, records: seq<Rec>)
    requires safe <= records
    ensures Written(c, safe) <= Written(c, records)
  {
  }

  /** On a valid disk recovery finds exactly the records the sidecar covers. */
  lemma RecoverValid(c: Codec, disk: Disk)
    requires Sound(c) && disk.Valid(c)
    ensures Recover(c, disk.sidecar, disk.file) == Some(Fold(disk.records, map[]))
  {
    SpillRoundTrip(c, disk.records);
    if Boundary(disk.sidecar) == 0 {
      NothingWritten(c, disk.records);
    }
  }

  lemma NothingWritten(c: Codec, recs: seq<Rec>)
    ensures Written(c, recs) == [] <==> recs == []
  {
  }

  lemma {:induction false} FoldCount(recs: seq<Rec>)
    requires DistinctKeys(recs)
    ensures |Fold(recs, map[])| == |recs|
  {
    if recs != [] {
      var n := |recs| - 1;
      var init, r := recs[..n], recs[n];
      assert recs == init + [r];
      FoldCount(init);
      FoldAppend(init, r, map[]);
      var seen := Fold(init, map[]);
      FoldMeans(init, map[], Key(r));
      assert Key(r) !in seen;
      assert seen[Key(r) := MetaOf(r)].Keys == seen.Keys + {Key(r)};
      assert |seen[Key(r) := MetaOf(r)].Keys| == |seen.Keys| + 1;
    }
  }

  class DLQSpill {
    const c: Codec
    const disk: Disk
    var seen: Seen
    var pendingLen: nat
    var syncedLen: nat
    var open: bool
    /** Every record in the file, in order: bookkeeping of the model. */
    var recs: seq<Rec>
    /** A write failed and may have left part of a line. */
    ghost var torn: bool

    ghost predicate Valid() reads this, disk {
      && Sound(c) && disk.Valid(c) && disk.records <= recs && DistinctKeys(recs)
      && seen == Fold(recs, map[])
      && pendingLen == |Written(c, recs)| <= |disk.Content()|
      && disk.Content()[..pendingLen] == Written(c, recs) && (!torn ==> |disk.Content()| == pendingLen)
      && syncedLen <= pendingLen && (syncedLen == pendingLen ==> disk.safe == recs)
    }

    /** For OpenDLQSpill only. */
    constructor (c: Codec, disk: Disk, seen: Seen, syncedLen: nat, recs: seq<Rec>)
      ensures this.c == c && this.disk == disk && this.seen == seen && pendingLen == syncedLen == this.syncedLen
      ensures syncedLen == this.syncedLen && open && this.recs == recs && !torn
    {
      this.c, this.disk, this.seen, this.pendingLen, this.syncedLen := c, disk, seen, syncedLen, syncedLen;
      this.open, this.recs, this.torn := true, recs, false;
    }

    /** Write: a row already accounted for is not written again; else one line is appended. */
    method Write(ctx: Context, rec: Rec, now: int) returns (ok: bool)
      requires Valid() && open && !torn
      modifies this, disk, ctx`faults
      ensures ctx.Since(ctx.fuel, old(ctx.faults), ok)
      ensures Valid() && open && disk.safe == old(disk.safe) && disk.records == old(disk.records)
      ensures ok ==> !torn
      ensures if Accounts(RecsIn(old(recs)), rec.messageID, rec.table, rec.id)
              then ok && recs == old(recs) && disk.Content() == old(disk.Content())
              else recs == if ok then old(recs) + [rec.(reason := ReasonOr(rec.reason), spilledAt := now)] else old(recs)
      ensures ReasonOr(rec.reason) == if rec.reason == "" then "backfill_payload_unparseable" else rec.reason
      ensures syncedLen == old(syncedLen)
    {
      var r := Stamped(rec, now);
      SeenMeans(recs, rec.messageID, rec.table, rec.id);
      if Key(rec) in seen {
        return true;
      }
      var line := Line(c, r);
      ok := ctx.Try();
      if !ok {
        var n: nat := *;
        TornKeeps(c, disk.Content(), Take(line, n), recs, disk.records);
        disk.file := Some(disk.Content() + Take(line, n));
        torn := true;
        return;
      }
      WrittenAppend(c, recs, [r]);
      assert Written(c, [r]) == line;
      NewKey(recs, r);
      TornKeeps(c, disk.Content(), line, recs, disk.records);
      disk.file := Some(disk.Content() + line);
      pendingLen := pendingLen + |line|;
      seen := seen[Key(r) := MetaOf(r)];
      recs := recs + [r];
    }

    /** Sync: fsync, then move the sidecar over everything written. On success all of it is safe. */
    method Sync(ctx: Context) returns (ok: bool)
      requires Valid()
      modifies this`syncedLen, disk, ctx`faults
      ensures ctx.Since(ctx.fuel, old(ctx.faults), ok)
      ensures Valid() && disk.Content() == old(disk.Content())
      ensures ok && open ==> disk.safe == recs
      ensures disk.safe == old(disk.safe) || disk.safe == recs
    {
      if !open || pendingLen == syncedLen {
        return true;
      }
      ok := ctx.Try();
      if !ok {
        return;
      }
      disk.durable := |disk.Content()|;
      ok := WriteSyncedOffset(ctx);
      if ok {
        syncedLen := pendingLen;
      }
    }

    /** writeSyncedOffset: may fail before the rename, or after it with the directory not yet synced. */
    method WriteSyncedOffset(ctx: Context) returns (ok: bool)
      requires Valid() && disk.durable == |disk.Content()|
      modifies disk, ctx`faults
      ensures ctx.Since(ctx.fuel, old(ctx.faults), ok)
      ensures Valid() && disk.Content() == old(disk.Content()) && disk.file == old(disk.file)
      ensures if ok then disk.safe == recs else disk.safe == old(disk.safe)
    {
      ok := ctx.Try();
      var renamed := *;
      if ok || renamed {
        assert disk.safe <= recs;
        disk.sidecar := Offset(pendingLen);
        disk.records := recs;
      }
      if ok {
        disk.safe := recs;
      }
    }

    method Close(ctx: Context) returns (ok: bool)
      requires Valid()
      modifies this`syncedLen, this`open, disk, ctx`faults
      ensures Valid() && !open && (!ok ==> ctx.faults > old(ctx.faults))
      ensures ok && old(open) ==> disk.safe == recs
      ensures disk.safe == old(disk.safe) || disk.safe == recs
    {
      if !open {
        return true;
      }
      ok := Sync(ctx);
      var closed := ctx.Try();
      ok := ok && closed;
      open := false;
    }

    /** Count: one per record. */
    method Count() returns (n: nat)
      requires Valid()
      ensures n == |recs|
    {
      FoldCount(recs);
      n := |seen|;
    }

    method CountInWindow(from: int, to: int) returns (n: nat)
      ensures n == |KeysInWindow(seen, from, to)|
    {
      n := 0;
      var todo := seen.Keys;
      ghost var counted: set<string> := {};
      while todo != {}
        invariant todo <= seen.Keys && n == |counted|
        invariant counted == set k | k in seen && k !in todo && InWindow(seen[k], from, to)
        decreases |todo|
      {
        var k :| k in todo;
        todo := todo - {k};
        if InWindow(seen[k], from, to) {
          n := n + 1;
          counted := counted + {k};
        }
      }
      assert counted == KeysInWindow(seen, from, to);
    }

    method MessageIDsInWindow(from: int, to: int) returns (out: set<string>)
      ensures out == IdsInWindow(seen, from, to)
    {
      out := CollectIds(seen, from, to);
    }
  }

  /**
   * Once everything written is synced, a reader of the directory sees exactly what
   * the handle accounts for; so the standalone loader returns its ids in any window.
   */
  lemma SyncedMeansAgreed(s: DLQSpill)
    requires s.Valid() && s.disk.records == s.recs
    ensures Recover(s.c, s.disk.sidecar, s.disk.file) == Some(s.seen)
  {
    RecoverValid(s.c, s.disk);
  }

  function Stamped(rec: Rec, now: int): Rec {
    rec.(reason := ReasonOr(rec.reason), spilledAt := now)
  }

  /** reasonOrDefault. */
  function ReasonOr(reason: string): string {
    if reason == "" then DEFAULT_REASON else reason
  }

  lemma TornKeeps(c: Codec, content: Bytes, more: Bytes, recs: seq<Rec>, records: seq<Rec>)
    requires |Written(c, recs)| <= |content| && content[..|Written(c, recs)|] == Written(c, recs) && records <= recs
    ensures (content + more)[..|Written(c, recs)|] == Written(c, recs)
    ensures |Written(c, records)| <= |Written(c, recs)|
    ensures (content + more)[..|Written(c, records)|] == content[..|Written(c, records)|]
    ensures content[..|Written(c, records)|] == Written(c, records)
  {
    SafeBytes(c, records, recs);
    assert (content + more)[..|Written(c, recs)|] == content[..|Written(c, recs)|];
  }

  lemma NewKey(recs: seq<Rec>, r: Rec)
    requires DistinctKeys(recs) && Key(r) !in Fold(recs, map[])
    ensures DistinctKeys(recs + [r])
    ensures Fold(recs + [r], map[]) == Fold(recs, map[])[Key(r) := MetaOf(r)]
  {
    FoldMeans(recs, map[], Key(r));
    FoldAppend(recs, r, map[]);
  }

  /**
   * OpenDLQSpill. On any disk it succeeds exactly when recovery does, unless the
   * disk fails it; on a valid disk it drops what was not synced and finds exactly
   * the synced records.
   */
  method OpenDLQSpill(c: Codec, disk: Disk, ctx: Context) returns (s: DLQSpill?)
    requires Sound(c)
    modifies disk, ctx`faults
    ensures old(ctx.faults) <= ctx.faults && (s != null ==> ctx.faults == old(ctx.faults))
    ensures s != null ==> fresh(s) && s.c == c && s.disk == disk && s.open && !s.torn
    ensures s != null ==> Some(s.seen) == Recover(c, old(disk.sidecar), old(disk.file))
    ensures ctx.faults == old(ctx.faults) ==> (s != null <==> Recover(c, old(disk.sidecar), old(disk.file)).Some?)
    ensures old(disk.Valid(c)) ==> disk.Valid(c) && disk.records == old(disk.records)
    ensures old(disk.Valid(c)) ==> disk.safe == old(disk.safe) || (disk.safe == disk.records && s != null)
    ensures old(disk.Valid(c)) && s != null ==> s.Valid() && s.recs == disk.records == disk.safe
    ensures old(disk.Valid(c)) ==> ctx.Since(ctx.fuel, old(ctx.faults), s != null)
  {
    s := null;
    if disk.Valid(c) {
      RecoverValid(c, disk);
    }
    var readable := ctx.Try();
    if !readable {
      return;
    }
    if disk.sidecar.Garbage? || (disk.sidecar.Offset? && disk.sidecar.n < 0) {
      return;
    }
    var synced := Boundary(disk.sidecar);
    var seen := RecoverAndLoad(c, disk, ctx, synced);
    if seen.None? {
      return;
    }
    var isOpen := ctx.Try();
    if !isOpen {
      return;
    }
    if disk.file.None? {
      disk.file := Some([]);
    }
    disk.safe := disk.records;
    s := new DLQSpill(c, disk, seen.value, synced, disk.records);
  }

  /** recoverAndLoad: cut the file at the synced length, then parse it strictly. */
  method RecoverAndLoad(c: Codec, disk: Disk, ctx: Context, synced: nat) returns (seen: Option<Seen>)
    requires synced == Boundary(disk.sidecar) && !disk.sidecar.Garbage? && (disk.sidecar.Offset? ==> disk.sidecar.n >= 0)
    modifies disk`file, disk`durable, ctx`faults
    ensures old(ctx.faults) <= ctx.faults <= old(ctx.faults) + 1 && (seen.Some? ==> ctx.faults == old(ctx.faults))
    ensures ctx.faults == old(ctx.faults) ==> seen == Recover(c, disk.sidecar, old(disk.file))
    ensures seen.Some? ==> disk.Content() == if old(disk.file).None? then [] else old(disk.Content())[..synced]
    ensures old(disk.Valid(c)) ==> disk.Valid(c)
  {
    var started := ctx.Try();
    if !started {
      return None;
    }
    match disk.file {
      case None =>
        return if synced != 0 then None else Some(map[]);
      case Some(content) =>
        if |content| < synced {
          return None;
        }
        disk.file := Some(content[..synced]);
        disk.durable := if disk.durable <= synced then disk.durable else synced;
        if synced == 0 {
          return Some(map[]);
        }
        var readable := ctx.Try();
        if !readable {
          return None;
        }
        seen := ParseSyncedSpillPrefix(c, content[..synced]);
    }
  }
}
