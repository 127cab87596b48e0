/**
 * The ledger of a finished backfill: over a fixed set of tables, what the index and
 * the spill hold in any time window against the source rows in it.
 */
module Ledger {
  import opened Common
  import opened Contract
  import Extract
  import opened BulkWriter
  import opened EsDoc
  import opened DocEnrich
  import opened Spill
  import opened Backfill
  import opened Recon

  /** A row with the table it is in. */
  datatype Src = Src(table: string, row: Row)

  ghost function Rows(env: Env): set<Src> {
    set t, k | t in env.shards && 0 <= k < |env.shards[t]| :: Src(t, env.shards[t][k])
  }

  predicate Between(x: int, from: int, to: int) {
    from <= x <= to
  }

  // ---- the four numbers of a window, as they are collected ----

  ghost function SourceIn(env: Env, from: int, to: int): set<Src> {
    set s | s in Rows(env) && Between(s.row.createdUnix, from, to)
  }

  /** The range filter sees a document only when its time is stored, and zero is not. */
  ghost function DocsIn(landed: set<Doc>, from: int, to: int): set<Doc> {
    set d | d in landed && !d.virtual && d.createdAt != 0 && Between(d.createdAt, from, to)
  }

  ghost function RawExcludedIn(landed: set<Doc>, from: int, to: int): set<Doc> {
    set d | d in landed && d.rawExcluded && d.createdAt != 0 && Between(d.createdAt, from, to)
  }

  ghost function CountsIn(env: Env, landed: set<Doc>, recs: seq<Rec>, from: int, to: int): Counts {
    Counts(|SourceIn(env, from, to)|, |DocsIn(landed, from, to)|, |RawExcludedIn(landed, from, to)|,
           |KeysInWindow(Fold(recs, map[]), from, to)|)
  }

  // ---- the two ways the balance can be off ----

  /** A refused family whose parent the index took all the same. */
  predicate Orphan(env: Env, row: Row) {
    && env.load(row).Indexable? && !Whole(env, env.load(row).fam)
    && Fits(env, env.load(row).fam) && env.accepts(env.load(row).fam.parent)
  }

  ghost function OrphansIn(env: Env, from: int, to: int): set<Src> {
    set s | s in SourceIn(env, from, to) && Orphan(env, s.row) && s.row.createdUnix != 0
  }

  /** Indexed rows the range filter cannot see. */
  ghost function UndatedIn(env: Env, from: int, to: int): set<Src> {
    set s | s in SourceIn(env, from, to) && RowIndexed(env, s.row) && s.row.createdUnix == 0
  }

  // ---- what a fixed, clean set of tables means ----

  /** What document conversion guarantees of a row: dated parent, virtual children that are never raw-excluded. */
  ghost predicate LoadOK(env: Env) {
    forall row :: env.load(row).Indexable? ==> LoadedOK(row, env.load(row).fam)
  }

  ghost predicate LoadedOK(row: Row, f: Family<Doc>) {
    && !f.parent.virtual && f.parent.createdAt == row.createdUnix
    && forall j :: 0 <= j < |f.children| ==> f.children[j].virtual && !f.children[j].rawExcluded
  }

  /**
   * No two rows share a message id, in the table or as documents, nor a table and id;
   * and none has a message id that spells the table and id of one without.
   */
  ghost predicate DistinctRows(env: Env) {
    forall a, b {:trigger Apart(env, a, b)} :: a in Rows(env) && b in Rows(env) && a != b ==> Apart(env, a, b)
  }

  predicate Apart(env: Env, a: Src, b: Src) {
    && (a.row.messageID != "" ==> a.row.messageID != b.row.messageID) && (a.table != b.table || a.row.id != b.row.id)
    && !Clash(a.table, a.row, b.row) && !Clash(b.table, b.row, a.row)
    && (env.load(a.row).Indexable? && env.load(b.row).Indexable? ==>
          env.load(a.row).fam.parent.messageID != env.load(b.row).fam.parent.messageID)
  }

  ghost predicate AllDone(env: Env, landed: set<Doc>, spilled: set<Rec>) {
    forall s :: s in Rows(env) ==> RowDone(env, s.table, s.row, landed, spilled)
  }

  /** The state a finished backfill leaves, whatever crashes and retries led to it. */
  ghost predicate Finished(env: Env, landed: set<Doc>, recs: seq<Rec>) {
    env.fixed && AllDone(env, landed, RecsIn(recs)) && LandedOK(env, landed) && RecsOK(env, recs) && DistinctKeys(recs)
  }

  // ---- counting ----

  lemma {:induction false} ImageSize<A, B>(xs: set<A>, f: A -> B, ys: set<B>)
    requires forall a, b :: a in xs && b in xs && a != b ==> f(a) != f(b)
    requires forall a :: a in xs ==> f(a) in ys
    requires forall y :: y in ys ==> exists a :: a in xs && f(a) == y
    ensures |xs| == |ys|
  {
    if xs == {} {
      assert ys == {};
    } else {
      var a :| a in xs;
      ImageSize(xs - {a}, f, ys - {f(a)});
    }
  }

  lemma SplitSize<A>(xs: set<A>, ys: set<A>, zs: set<A>)
    requires xs == ys + zs && ys !! zs
    ensures |xs| == |ys| + |zs|
  {
  }

  function ParentOf(env: Env, s: Src): Option<Doc> {
    match env.load(s.row)
    case Indexable(f, _) => Some(f.parent)
    case Spillable(_) => None
  }

  ghost function KeptIn(env: Env, from: int, to: int): set<Src> {
    set s | s in SourceIn(env, from, to) && s.row.createdUnix != 0 && (RowIndexed(env, s.row) || Orphan(env, s.row))
  }

  ghost function DeadIn(env: Env, from: int, to: int): set<Src> {
    set s | s in SourceIn(env, from, to) && !RowIndexed(env, s.row)
  }

  lemma RowIsSrc(env: Env, t: string, row: Row)
    requires RowOf(env, t, row)
    ensures Src(t, row) in Rows(env)
  {
  }

  /** The visible documents of the window are the parents of the rows kept in it. */
  lemma DocsAreParents(env: Env, landed: set<Doc>, recs: seq<Rec>, from: int, to: int)
    requires Finished(env, landed, recs) && LoadOK(env) && DistinctRows(env)
    ensures |DocsIn(landed, from, to)| == |KeptIn(env, from, to)|
  {
    var kept, docs := KeptIn(env, from, to), DocsIn(landed, from, to);
    var somes := set d | d in docs :: Some(d);
    forall s | s in kept ensures ParentOf(env, s) in somes {
      KeptParent(env, landed, recs, s);
    }
    forall y | y in somes ensures exists s :: s in kept && ParentOf(env, s) == y {
      var s := ParentRow(env, landed, y.value);
    }
    forall a, b | a in kept && b in kept && a != b ensures ParentOf(env, a) != ParentOf(env, b) {
      assert Apart(env, a, b);
    }
    ImageSize(kept, s => ParentOf(env, s), somes);
    ImageSize(docs, d => Some(d), somes);
  }

  lemma KeptParent(env: Env, landed: set<Doc>, recs: seq<Rec>, s: Src)
    requires Finished(env, landed, recs) && LoadOK(env) && s in Rows(env)
    requires RowIndexed(env, s.row) || Orphan(env, s.row)
    ensures env.load(s.row).Indexable? && LoadedOK(s.row, env.load(s.row).fam) && env.load(s.row).fam.parent in landed
  {
  }

  lemma ParentRow(env: Env, landed: set<Doc>, d: Doc) returns (s: Src)
    requires env.fixed && LandedOK(env, landed) && LoadOK(env) && d in landed && !d.virtual
    ensures s in Rows(env) && ParentOf(env, s) == Some(d) && d.createdAt == s.row.createdUnix
    ensures RowIndexed(env, s.row) || Orphan(env, s.row)
  {
    assert FromSomeRow(env, d);
    var t, row :| RowOf(env, t, row) && LandsFrom(env, row, d);
    RowIsSrc(env, t, row);
    s := Src(t, row);
    assert LoadedOK(row, env.load(row).fam);
  }

  function RowKey(s: Src): string {
    DedupKey(s.row.messageID, s.table, s.row.id)
  }

  lemma KeysTellApart(env: Env, a: Src, b: Src)
    requires DistinctRows(env) && a in Rows(env) && b in Rows(env) && RowKey(a) == RowKey(b)
    ensures a == b
  {
    if a != b {
      assert Apart(env, a, b);
      KeyMeans(Rec("", a.table, a.row.id, a.row.messageID, [], 0, 0), b.row.messageID, b.table, b.row.id);
    }
  }

  /** A dead row is accounted for under its key, and there with its own time and id. */
  lemma DeadIsSeen(env: Env, landed: set<Doc>, recs: seq<Rec>, s: Src)
    requires Finished(env, landed, recs) && DistinctRows(env) && s in Rows(env) && !RowIndexed(env, s.row)
    ensures var seen := Fold(recs, map[]);
            RowKey(s) in seen && seen[RowKey(s)] == Meta(s.row.createdUnix, s.row.messageID)
  {
    assert RowDone(env, s.table, s.row, landed, RecsIn(recs));
    SeenMeans(recs, s.row.messageID, s.table, s.row.id);
    var s' := DeadRecord(env, recs, RowKey(s));
    KeysTellApart(env, s, s');
  }

  /** The spill keys of the window are those of its dead rows. */
  lemma KeysAreDead(env: Env, landed: set<Doc>, recs: seq<Rec>, from: int, to: int)
    requires Finished(env, landed, recs) && DistinctRows(env)
    ensures |KeysInWindow(Fold(recs, map[]), from, to)| == |DeadIn(env, from, to)|
  {
    var dead, keys := DeadIn(env, from, to), KeysInWindow(Fold(recs, map[]), from, to);
    forall s | s in dead ensures RowKey(s) in keys {
      DeadIsSeen(env, landed, recs, s);
    }
    forall k | k in keys ensures exists s :: s in dead && RowKey(s) == k {
      var s := DeadRecord(env, recs, k);
    }
    forall a, b | a in dead && b in dead && a != b ensures RowKey(a) != RowKey(b) {
      if RowKey(a) == RowKey(b) {
        KeysTellApart(env, a, b);
      }
    }
    ImageSize(dead, (s: Src) => RowKey(s), keys);
  }

  /** The real ids of the window's spilled records are those of its dead rows that have one. */
  lemma IdsAreDead(env: Env, landed: set<Doc>, recs: seq<Rec>, from: int, to: int)
    requires Finished(env, landed, recs) && DistinctRows(env)
    ensures IdsInWindow(Fold(recs, map[]), from, to)
            == set s | s in DeadIn(env, from, to) && s.row.messageID != "" :: s.row.messageID
  {
    var seen := Fold(recs, map[]);
    forall s | s in DeadIn(env, from, to) && s.row.messageID != ""
      ensures s.row.messageID in IdsInWindow(seen, from, to)
    {
      DeadIsSeen(env, landed, recs, s);
    }
    forall k | k in KeysInWindow(seen, from, to)
      ensures exists s :: s in DeadIn(env, from, to) && s.row.messageID == seen[k].messageID
    {
      var s := DeadRecord(env, recs, k);
    }
  }

  /** The row behind an accounted key. */
  lemma DeadRecord(env: Env, recs: seq<Rec>, k: string) returns (s: Src)
    requires env.fixed && RecsOK(env, recs) && k in Fold(recs, map[])
    ensures s in Rows(env) && !RowIndexed(env, s.row) && RowKey(s) == k
    ensures Fold(recs, map[])[k] == Meta(s.row.createdUnix, s.row.messageID)
  {
    FoldMeans(recs, map[], k);
    var n :| 0 <= n < |recs| && Key(recs[n]) == k && MetaOf(recs[n]) == Fold(recs, map[])[k];
    assert OfSomeRow(env, recs[n]);
    var t, row :| RowOf(env, t, row) && RecordOf(env, t, row, recs[n]);
    RowIsSrc(env, t, row);
    s := Src(t, row);
  }

  /**
   * The ledger equation. After a finished backfill over tables with distinct ids,
   * in every window the checked balance is accepted and its difference is the number
   * of orphaned parents less the number of indexed rows without a date.
   */
  lemma LedgerEquation(env: Env, landed: set<Doc>, recs: seq<Rec>, from: int, to: int)
    requires Finished(env, landed, recs) && LoadOK(env) && DistinctRows(env)
    ensures var c := CountsIn(env, landed, recs, from, to);
            && c.Valid()
            && Reconcile(c).diff == |OrphansIn(env, from, to)| - |UndatedIn(env, from, to)|
  {
    DocsAreParents(env, landed, recs, from, to);
    KeysAreDead(env, landed, recs, from, to);
    DeadOrIndexed(env, from, to);
    DatedOrNot(env, from, to);
    IndexedOrOrphan(env, from, to);
    RawExcludedVisible(env, landed, from, to);
  }

  ghost function IndexedIn(env: Env, from: int, to: int): set<Src> {
    set s | s in SourceIn(env, from, to) && RowIndexed(env, s.row)
  }

  ghost function DatedIn(env: Env, from: int, to: int): set<Src> {
    set s | s in IndexedIn(env, from, to) && s.row.createdUnix != 0
  }

  lemma DeadOrIndexed(env: Env, from: int, to: int)
    ensures |SourceIn(env, from, to)| == |IndexedIn(env, from, to)| + |DeadIn(env, from, to)|
  {
    SplitSize(SourceIn(env, from, to), IndexedIn(env, from, to), DeadIn(env, from, to));
  }

  lemma DatedOrNot(env: Env, from: int, to: int)
    ensures |IndexedIn(env, from, to)| == |DatedIn(env, from, to)| + |UndatedIn(env, from, to)|
  {
    SplitSize(IndexedIn(env, from, to), DatedIn(env, from, to), UndatedIn(env, from, to));
  }

  lemma IndexedOrOrphan(env: Env, from: int, to: int)
    ensures |KeptIn(env, from, to)| == |DatedIn(env, from, to)| + |OrphansIn(env, from, to)|
  {
    var kept, dated, orphans := KeptIn(env, from, to), DatedIn(env, from, to), OrphansIn(env, from, to);
    forall s ensures s in kept <==> s in dated || s in orphans {
      assert Orphan(env, s.row) ==> !RowIndexed(env, s.row);
    }
    SplitSize(kept, dated, orphans);
  }

  lemma RawExcludedVisible(env: Env, landed: set<Doc>, from: int, to: int)
    requires LandedOK(env, landed) && LoadOK(env)
    ensures |RawExcludedIn(landed, from, to)| <= |DocsIn(landed, from, to)|
  {
    forall d | d in RawExcludedIn(landed, from, to) ensures d in DocsIn(landed, from, to) {
      assert FromSomeRow(env, d);
      var t, row :| RowOf(env, t, row) && LandsFrom(env, row, d);
      assert LoadedOK(row, env.load(row).fam);
    }
    SubsetSize(RawExcludedIn(landed, from, to), DocsIn(landed, from, to));
  }

  lemma SubsetSize<A>(xs: set<A>, ys: set<A>)
    requires xs <= ys
    ensures |xs| <= |ys|
  {
    SplitSize(ys, xs, ys - xs);
  }

  /** A window that starts after zero balances exactly when it holds no orphaned parent. */
  lemma LedgerBalances(env: Env, landed: set<Doc>, recs: seq<Rec>, from: int, to: int)
    requires Finished(env, landed, recs) && LoadOK(env) && DistinctRows(env) && from > 0
    ensures var report := ReconcileChecked(CountsIn(env, landed, recs, from, to));
            report.Some? && (report.value.ok <==> OrphansIn(env, from, to) == {})
  {
    LedgerEquation(env, landed, recs, from, to);
    assert UndatedIn(env, from, to) == {};
  }

  // ---- the whole job ----

  /** The real conversion satisfies what the ledger asks of it. */
  lemma ConversionIsLoadOK(lib: Lib, tx: Text, env: Env)
    requires forall row :: env.load(row) == DocFromRow(lib, tx, row)
    ensures LoadOK(env)
  {
    forall row | env.load(row).Indexable? ensures LoadedOK(row, env.load(row).fam) {
      ConvertedRow(lib, tx, row);
    }
  }

  lemma ConvertedRow(lib: Lib, tx: Text, row: Row)
    requires DocFromRow(lib, tx, row).Indexable?
    ensures LoadedOK(row, DocFromRow(lib, tx, row).fam)
  {
    var (msg, outcome) := Extract.BackfillExtract(lib, row);
    var m := if IsSignalEncrypted(row) then msg else Enrich(lib, msg, row).value;
    FamilyShape(tx, m);
  }

  lemma TablesCoverRows(env: Env, tables: seq<string>, landed: set<Doc>, spilled: set<Rec>)
    requires forall t :: t in env.shards ==> t in tables
    requires forall n :: 0 <= n < |tables| ==> TableDone(env, tables[n], landed, spilled)
    ensures AllDone(env, landed, spilled)
  {
  }

  /**
   * The job and its gate: lives that may crash anywhere, until one ends well; then
   * the window is counted and reconciled. The verdict is right whatever happened on
   * the way: OK exactly when no orphaned parent is in the window. A job that does not
   * finish has met a fault or a table that cannot be read.
   */
  method BackfillAndReconcile(env: Env, c: Spill.Codec, disk: Disk, cp: CheckpointStore, index: Index, ctx: Context,
                              tables: seq<string>, batchSize: int, lives: nat, from: int, to: int)
    returns (finished: bool, dlq: nat, ghost report: Option<Report>)
    requires OutsideOK(env, c, disk, cp, index) && ShardsOK(env) && LoadOK(env) && DistinctRows(env)
    requires from > 0 && env.fixed
    requires forall t :: t in env.shards ==> t in tables
    modifies disk, cp, index, ctx
    ensures OutsideOK(env, c, disk, cp, index)
    ensures finished || lives == 0 || ctx.faults > old(ctx.faults) || !AllReadable(env, tables)
    ensures finished ==> report.Some? && (report.value.ok <==> OrphansIn(env, from, to) == {})
    ensures finished ==> report.value.counts.dlq == dlq
    ensures finished ==> report.value.counts.esDocs == |DocsIn(index.landed, from, to)|
                         && report.value.counts.sourceRows == |SourceIn(env, from, to)|
                         && report.value.counts.rawExcluded == |RawExcludedIn(index.landed, from, to)|
  {
    finished, dlq, report := false, 0, None;
    var zero := Stats(0, 0, 0, 0, 0, 0);
    for n := 0 to lives
      invariant OutsideOK(env, c, disk, cp, index) && ctx.faults >= old(ctx.faults)
      invariant n == 0 || ctx.faults > old(ctx.faults) || !AllReadable(env, tables)
    {
      var ok, spill, total := Life(env, c, disk, cp, index, ctx, tables, batchSize, zero);
      if ok {
        dlq := spill.CountInWindow(from, to);
        TablesCoverRows(env, tables, index.landed, RecsIn(spill.recs));
        LedgerBalances(env, index.landed, spill.recs, from, to);
        report := ReconcileChecked(CountsIn(env, index.landed, spill.recs, from, to));
        return true, dlq, report;
      }
    }
  }
}
