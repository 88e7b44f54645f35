/** The documents and pending tables over every run of scans and of decisions made
    on the reconcile page: import_reconcile and ignore_reconcile of
    app/documents/routes.py. */
module Reconcile {
  import opened Options
  import opened Watcher
  import opened WatcherFacts

  datatype Tables = Tables(docs: seq<Document>, rows: seq<Pending>)

  /** What the page submits for an entry; None where the field is left blank. */
  datatype ImportForm = ImportForm(aircraft: Option<int>, category: Option<string>)

  /** `entry` is the place of an entry in the pending table. */
  datatype Step =
    | Scan(cfg: Config, disk: Disk)
    | Import(entry: int, form: ImportForm, categories: set<string>)
    | Ignore(entry: int)

  /** The document made of an entry. */
  function ImportedDocument(r: Pending, form: ImportForm, categories: set<string>): Document {
    var category := if form.category.Some? then form.category else r.category;
    Document(r.path, form.aircraft, if category.Some? && category.value in categories then category else None)
  }

  /** Importing adds a document and keeps the entry, as reconciled. Whether it was
      reconciled or ignored before is not looked at. */
  function ImportEntry(t: Tables, k: int, form: ImportForm, categories: set<string>): Tables {
    if 0 <= k < |t.rows| then
      Tables(t.docs + [ImportedDocument(t.rows[k], form, categories)], t.rows[k := t.rows[k].(reconciled := true)])
    else t
  }

  /** The document has the entry's file and the aircraft chosen, or none. It has the
      category chosen, or where none is, the entry's; unless that is no known one. */
  lemma ImportedAsChosen(r: Pending, form: ImportForm, categories: set<string>)
    ensures var d := ImportedDocument(r, form, categories);
            && d.path == r.path && d.aircraft == form.aircraft
            && (forall c :: form.category == Some(c) ==> d.category == if c in categories then Some(c) else None)
            && (forall c :: form.category.None? && r.category == Some(c) ==>
                  d.category == if c in categories then Some(c) else None)
            && (form.category.None? && r.category.None? ==> d.category.None?)
  {
  }

  function IgnoreEntry(t: Tables, k: int): Tables {
    if 0 <= k < |t.rows| then Tables(t.docs, t.rows[k := t.rows[k].(ignored := true)]) else t
  }

  /** Exactly the entry named is marked, and keeps all else; no entry, no change. */
  lemma EntryMarked(t: Tables, k: int, form: ImportForm, categories: set<string>)
    ensures 0 <= k && k < |t.rows| ==>
              var a, b := ImportEntry(t, k, form, categories), IgnoreEntry(t, k);
              && |a.rows| == |t.rows| == |b.rows|
              && a.rows[k] == t.rows[k].(reconciled := true) && b.rows[k] == t.rows[k].(ignored := true)
              && (forall m :: 0 <= m < |t.rows| && m != k ==> a.rows[m] == t.rows[m] == b.rows[m])
              && a.docs == t.docs + [ImportedDocument(t.rows[k], form, categories)] && b.docs == t.docs
    ensures k < 0 || k >= |t.rows| ==> ImportEntry(t, k, form, categories) == t && IgnoreEntry(t, k) == t
  {
  }

  ghost predicate Next(step: Step, t: Tables, t': Tables) {
    match step
    case Scan(cfg, disk) => IsScan(cfg, disk, t.docs, t.rows, t'.docs, t'.rows)
    case Import(k, form, categories) => t' == ImportEntry(t, k, form, categories)
    case Ignore(k) => t' == IgnoreEntry(t, k)
  }

  /** No path has two entries; an entry is reconciled exactly if its path has a document. */
  ghost predicate Sound(t: Tables) {
    && (forall f :: PendingCount(t.rows, f) <= 1)
    && (forall r :: r in t.rows ==> (r.reconciled <==> r.path in DocPaths(t.docs)))
  }

  // ---------------------------------------------------------------- One step

  lemma {:induction false} UpdateCounts(rows: seq<Pending>, k: nat, r: Pending, f: Path)
    requires k < |rows| && r.path == rows[k].path
    ensures PendingCount(rows[k := r], f) == PendingCount(rows, f)
  {
    var n := |rows| - 1;
    if k < n {
      UpdateCounts(rows[..n], k, r, f);
      assert rows[k := r][..n] == rows[..n][k := r];
    } else {
      assert rows[k := r][..n] == rows[..n];
    }
  }

  /** Two places of the table that hold one path count twice. */
  lemma {:induction false} CountedTwice(rows: seq<Pending>, k: nat, m: nat)
    requires k < m < |rows| && rows[k].path == rows[m].path
    ensures PendingCount(rows, rows[k].path) >= 2
  {
    var f, n := rows[k].path, |rows| - 1;
    if m < n {
      CountedTwice(rows[..n], k, m);
    } else {
      assert rows[..n][k].path in PendingPaths(rows[..n]);
      PendingCountZero(rows[..n], f);
    }
  }

  lemma ImportSound(t: Tables, k: int, form: ImportForm, categories: set<string>)
    requires Sound(t)
    ensures Sound(ImportEntry(t, k, form, categories))
  {
    if 0 <= k < |t.rows| {
      var t', r := ImportEntry(t, k, form, categories), t.rows[k];
      forall f
        ensures PendingCount(t'.rows, f) <= 1
      {
        UpdateCounts(t.rows, k, r.(reconciled := true), f);
      }
      DocPathsGrow(t.docs, ImportedDocument(r, form, categories));
      forall m | 0 <= m < |t.rows|
        ensures t'.rows[m].reconciled <==> t'.rows[m].path in DocPaths(t'.docs)
      {
        assert t.rows[m] in t.rows;
        if m < k && t.rows[m].path == r.path { CountedTwice(t.rows, m, k); }
        if k < m && t.rows[m].path == r.path { CountedTwice(t.rows, k, m); }
      }
    }
  }

  lemma IgnoreSound(t: Tables, k: int)
    requires Sound(t)
    ensures Sound(IgnoreEntry(t, k))
  {
    if 0 <= k < |t.rows| {
      var t', r := IgnoreEntry(t, k), t.rows[k];
      forall f
        ensures PendingCount(t'.rows, f) <= 1
      {
        UpdateCounts(t.rows, k, r.(ignored := true), f);
      }
      forall m | 0 <= m < |t.rows|
        ensures t'.rows[m].reconciled <==> t'.rows[m].path in DocPaths(t'.docs)
      {
        assert t.rows[m] in t.rows;
      }
    }
  }

  lemma ScanSound(cfg: Config, disk: Disk, t: Tables, t': Tables)
    requires Sound(t) && IsScan(cfg, disk, t.docs, t.rows, t'.docs, t'.rows)
    ensures Sound(t')
  {
    forall f
      ensures PendingCount(t'.rows, f) <= 1
    {
      PendingNeverRepeated(cfg, disk, t.docs, t.rows, t'.docs, t'.rows, f);
    }
    var todo, tenants := Untracked(cfg, disk, t.docs, t.rows), ScannedTenants(cfg, disk, cfg.tenants.Keys);
    var newDocs: seq<Document>, newRows: seq<Pending> :|
      && t'.docs == t.docs + newDocs && t'.rows == Keep(t.rows, tenants, disk) + newRows
      && AddsDocuments(cfg, newDocs, todo) && AddsPending(cfg, newRows, todo);
    hide AddsDocuments, AddsPending, DocPaths;
    KeepPaths(t.rows, tenants, disk);
    forall r | r in t'.rows
      ensures r.reconciled <==> r.path in DocPaths(t'.docs)
    {
      DocumentsGrow(t.docs, newDocs, r.path);
      if r in newRows {
        NewEntry(cfg, newDocs, newRows, todo, r);
      } else {
        assert r in t.rows;
        OldEntry(cfg, disk, t, newDocs, r);
      }
    }
  }

  lemma DocumentsGrow(docs: seq<Document>, more: seq<Document>, f: Path)
    ensures f in DocPaths(docs + more) <==> f in DocPaths(docs) || f in DocPaths(more)
  {
    DocCountConcat(docs, more, f);
    DocCountZero(docs + more, f);
    DocCountZero(docs, f);
    DocCountZero(more, f);
  }

  /** A file is queued because it cannot be imported. */
  lemma NewEntry(cfg: Config, newDocs: seq<Document>, newRows: seq<Pending>, todo: set<Path>, r: Pending)
    requires AddsDocuments(cfg, newDocs, todo) && AddsPending(cfg, newRows, todo) && r in newRows
    ensures r.path in todo && !r.reconciled && r.path !in DocPaths(newDocs)
  {
  }

  lemma OldEntry(cfg: Config, disk: Disk, t: Tables, newDocs: seq<Document>, r: Pending)
    requires AddsDocuments(cfg, newDocs, Untracked(cfg, disk, t.docs, t.rows)) && r in t.rows
    ensures r.path !in DocPaths(newDocs)
  {
    var k :| 0 <= k < |t.rows| && t.rows[k] == r;
    assert r.path in PendingPaths(t.rows);
  }

  /** Every step keeps the tables sound. */
  lemma StepSound(step: Step, t: Tables, t': Tables)
    requires Sound(t) && Next(step, t, t')
    ensures Sound(t')
  {
    hide Sound, IsScan;
    match step
    case Scan(cfg, disk) => ScanSound(cfg, disk, t, t');
    case Import(k, form, categories) => ImportSound(t, k, form, categories);
    case Ignore(k) => IgnoreSound(t, k);
  }

  // ---------------------------------------------------------------- Every run

  /** A run from empty tables. */
  ghost predicate IsRun(steps: seq<Step>, tables: seq<Tables>) {
    && |tables| == |steps| + 1 && tables[0] == Tables([], [])
    && forall n :: 0 <= n < |steps| ==> StepAt(steps, tables, n)
  }

  ghost predicate StepAt(steps: seq<Step>, tables: seq<Tables>, n: nat)
    requires n < |steps| && n + 1 < |tables|
  {
    Next(steps[n], tables[n], tables[n + 1])
  }

  /** The watcher knows a file from a document or from an entry not yet imported,
      never from both. */
  ghost predicate KnownOnce(t: Tables, f: Path) {
    (f in DocPaths(t.docs)) != (exists r :: r in t.rows && r.path == f && !r.reconciled)
  }

  /** Over every run, with files coming and going, entries imported and ignored: no
      path ever has two entries, and one with a document has no open entry. After a
      scan every eligible file is known, from a document or an entry but not both. */
  lemma {:induction false} EveryRunSound(steps: seq<Step>, tables: seq<Tables>, n: nat)
    requires IsRun(steps, tables) && n < |tables|
    ensures Sound(tables[n])
    ensures n > 0 && steps[n - 1].Scan? ==>
              forall f :: f in steps[n - 1].disk.files && Eligible(steps[n - 1].cfg, f) ==> KnownOnce(tables[n], f)
  {
    hide Next, Sound, KnownOnce;
    if n == 0 {
      assert Sound(tables[0]) by { EmptySound(); }
    } else {
      EveryRunSound(steps, tables, n - 1);
      assert StepAt(steps, tables, n - 1);
      StepSound(steps[n - 1], tables[n - 1], tables[n]);
      if steps[n - 1].Scan? {
        ScanKnowsAll(steps[n - 1].cfg, steps[n - 1].disk, tables[n - 1], tables[n]);
      }
    }
  }

  lemma EmptySound()
    ensures Sound(Tables([], []))
  {
  }

  lemma ScanKnowsAll(cfg: Config, disk: Disk, t: Tables, t': Tables)
    requires Sound(t') && Next(Scan(cfg, disk), t, t')
    ensures forall f :: f in disk.files && Eligible(cfg, f) ==> KnownOnce(t', f)
  {
    hide IsScan;
    forall f | f in disk.files && Eligible(cfg, f)
      ensures KnownOnce(t', f)
    {
      ScanTracksOnce(cfg, disk, t.docs, t.rows, t'.docs, t'.rows, f);
      DocCountZero(t'.docs, f);
      PendingCountZero(t'.rows, f);
      if f in PendingPaths(t'.rows) {
        var k :| 0 <= k < |t'.rows| && t'.rows[k].path == f;
        assert t'.rows[k] in t'.rows;
      }
    }
  }

  /** Importing an entry that was imported before. */
  ghost predicate Reimports(t: Tables, step: Step) {
    step.Import? && 0 <= step.entry < |t.rows| && t.rows[step.entry].reconciled
  }

  ghost predicate SingleDocuments(t: Tables) {
    forall f :: DocCount(t.docs, f) <= 1
  }

  /** A step makes a second document of a path exactly if it imports an entry again. */
  lemma StepSingle(step: Step, t: Tables, t': Tables)
    requires Sound(t) && SingleDocuments(t) && Next(step, t, t')
    ensures SingleDocuments(t') <==> !Reimports(t, step)
  {
    match step
    case Scan(cfg, disk) =>
      forall f
        ensures DocCount(t'.docs, f) <= 1
      {
        ScanDocuments(cfg, disk, t, t', f);
      }
    case Import(k, form, categories) =>
      if 0 <= k < |t.rows| {
        var r := t.rows[k];
        var doc := ImportedDocument(r, form, categories);
        assert r in t.rows;
        forall f
          ensures DocCount(t'.docs, f) == DocCount(t.docs, f) + if f == r.path then 1 else 0
        {
          assert t'.docs[..|t.docs|] == t.docs;
        }
        DocCountZero(t.docs, r.path);
        assert DocCount(t'.docs, r.path) <= 1 <==> !r.reconciled;
      }
    case Ignore(k) =>
  }

  lemma ScanDocuments(cfg: Config, disk: Disk, t: Tables, t': Tables, f: Path)
    requires IsScan(cfg, disk, t.docs, t.rows, t'.docs, t'.rows)
    ensures DocCount(t'.docs, f) <= if DocCount(t.docs, f) == 0 then 1 else DocCount(t.docs, f)
  {
    var todo, tenants := Untracked(cfg, disk, t.docs, t.rows), ScannedTenants(cfg, disk, cfg.tenants.Keys);
    var newDocs: seq<Document>, newRows: seq<Pending> :|
      && t'.docs == t.docs + newDocs && t'.rows == Keep(t.rows, tenants, disk) + newRows
      && AddsDocuments(cfg, newDocs, todo) && AddsPending(cfg, newRows, todo);
    DocCountConcat(t.docs, newDocs, f);
    DocCountOnce(newDocs, f);
    DocCountZero(newDocs, f);
    DocCountZero(t.docs, f);
  }

  /** Over every run no path ever has two documents, exactly if no entry is imported a
      second time. The page offers only open entries, but the route accepts any. */
  lemma OneDocumentPerPath(steps: seq<Step>, tables: seq<Tables>)
    requires IsRun(steps, tables)
    ensures (forall n :: 0 <= n < |tables| ==> SingleDocuments(tables[n]))
            <==> (forall n :: 0 <= n < |steps| ==> !Reimports(tables[n], steps[n]))
  {
    hide Next, SingleDocuments, Reimports;
    if forall n :: 0 <= n < |tables| ==> SingleDocuments(tables[n]) {
      forall n | 0 <= n < |steps|
        ensures !Reimports(tables[n], steps[n])
      {
        EveryRunSound(steps, tables, n);
        assert StepAt(steps, tables, n);
        StepSingle(steps[n], tables[n], tables[n + 1]);
      }
    }
    if forall n :: 0 <= n < |steps| ==> !Reimports(tables[n], steps[n]) {
      forall n | 0 <= n < |tables|
        ensures SingleDocuments(tables[n])
      {
        StaysSingle(steps, tables, n);
      }
    }
  }

  lemma {:induction false} StaysSingle(steps: seq<Step>, tables: seq<Tables>, n: nat)
    requires IsRun(steps, tables) && n < |tables|
    requires forall m :: 0 <= m < |steps| ==> !Reimports(tables[m], steps[m])
    ensures SingleDocuments(tables[n])
  {
    hide Next, Reimports;
    if n > 0 {
      StaysSingle(steps, tables, n - 1);
      EveryRunSound(steps, tables, n - 1);
      assert StepAt(steps, tables, n - 1);
      StepSingle(steps[n - 1], tables[n - 1], tables[n]);
    }
  }

  /** A file of a known tenant that is not recognised is queued. */
  lemma FirstScan(cfg: Config, f: Path)
    requires |f| == 2 && Eligible(cfg, f)
    ensures IsScan(cfg, Disk({f}, {[f[0]]}), [], [], [], [PendingFor(cfg, f)])
  {
    var disk, added := Disk({f}, {[f[0]]}), [PendingFor(cfg, f)];
    assert Untracked(cfg, disk, [], []) == {f};
    assert AddsDocuments(cfg, [], {f});
    assert added[0].path in PendingPaths(added);
    assert AddsPending(cfg, added, {f});
    assert [] + added == added && Keep([], ScannedTenants(cfg, disk, cfg.tenants.Keys), disk) == [];
    var none: seq<Document> := [];
    assert none == none + none;
  }

  /** The file queued by that scan and imported twice has two documents. */
  lemma ImportedTwice(cfg: Config, f: Path, form: ImportForm, categories: set<string>)
    returns (steps: seq<Step>, tables: seq<Tables>)
    requires |f| == 2 && Eligible(cfg, f)
    ensures IsRun(steps, tables) && DocCount(tables[|steps|].docs, f) == 2
  {
    var scan, again := Scan(cfg, Disk({f}, {[f[0]]})), Import(0, form, categories);
    var t0, t1 := Tables([], []), Tables([], [PendingFor(cfg, f)]);
    FirstScan(cfg, f);
    assert Next(scan, t0, t1);
    var entry := PendingFor(cfg, f);
    assert entry.path == f;
    hide Eligible, PendingFor, IsScan;
    var doc, t2, t3 := TwoImports(entry, form, categories);
    hide ImportEntry, ImportedDocument;
    assert Next(again, t1, t2) && Next(again, t2, t3);
    hide *;
    DocCountConcat([doc], [doc], f);
    OneDocument(doc);
    steps, tables := [scan, again, again], [t0, t1, t2, t3];
    ThreeSteps(steps, tables);
  }

  lemma TwoImports(entry: Pending, form: ImportForm, categories: set<string>)
    returns (doc: Document, t2: Tables, t3: Tables)
    ensures t2 == ImportEntry(Tables([], [entry]), 0, form, categories) && t3 == ImportEntry(t2, 0, form, categories)
    ensures t3.docs == [doc] + [doc] && doc.path == entry.path
  {
    doc := ImportedDocument(entry, form, categories);
    t2 := ImportEntry(Tables([], [entry]), 0, form, categories);
    t3 := ImportEntry(t2, 0, form, categories);
  }

  lemma OneDocument(doc: Document)
    ensures DocCount([doc], doc.path) == 1
  {
    assert [doc][..0] == [];
  }

  lemma ThreeSteps(steps: seq<Step>, tables: seq<Tables>)
    requires |steps| == 3 && |tables| == 4 && tables[0] == Tables([], [])
    requires Next(steps[0], tables[0], tables[1]) && Next(steps[1], tables[1], tables[2])
    requires Next(steps[2], tables[2], tables[3])
    ensures IsRun(steps, tables)
  {
    hide Next;
  }

  // ---------------------------------------------------------------- Decisions last

  /** The path has a document, or an entry that was ignored. */
  ghost predicate Settled(t: Tables, f: Path) {
    f in DocPaths(t.docs) || exists r :: r in t.rows && r.path == f && r.ignored
  }

  ghost predicate NoneOpen(rows: seq<Pending>, f: Path) {
    forall r :: r in rows && r.path == f ==> !r.Open()
  }

  lemma SettledNoneOpen(t: Tables, f: Path)
    requires Sound(t) && Settled(t, f)
    ensures NoneOpen(t.rows, f)
  {
    if f !in DocPaths(t.docs) {
      var k :| 0 <= k < |t.rows| && t.rows[k].path == f && t.rows[k].ignored;
      forall m | 0 <= m < |t.rows| && t.rows[m].path == f
        ensures !t.rows[m].Open()
      {
        if m < k { CountedTwice(t.rows, m, k); }
        if k < m { CountedTwice(t.rows, k, m); }
      }
    }
  }

  /** A scan drops open entries only. */
  lemma {:induction false} KeepSettled(rows: seq<Pending>, tenants: set<int>, disk: Disk, f: Path)
    requires NoneOpen(rows, f)
    ensures PendingCount(Keep(rows, tenants, disk), f) == PendingCount(rows, f)
    ensures forall r :: r in rows && r.path == f ==> r in Keep(rows, tenants, disk)
  {
    if rows != [] {
      var init, r := rows[..|rows| - 1], rows[|rows| - 1];
      assert rows == init + [r];
      KeepSettled(init, tenants, disk, f);
      PendingCountConcat(Keep(init, tenants, disk), [r], f);
      assert Keep(init, tenants, disk) + [] == Keep(init, tenants, disk);
      assert PendingCount([r], f) == if r.path == f then 1 else 0;
    }
  }

  /** A scan touches no row of a settled path. */
  lemma ScanSettled(cfg: Config, disk: Disk, t: Tables, t': Tables, f: Path)
    requires Sound(t) && Settled(t, f) && IsScan(cfg, disk, t.docs, t.rows, t'.docs, t'.rows)
    ensures Settled(t', f)
    ensures PendingCount(t'.rows, f) == PendingCount(t.rows, f) && DocCount(t'.docs, f) == DocCount(t.docs, f)
  {
    var todo, tenants := Untracked(cfg, disk, t.docs, t.rows), ScannedTenants(cfg, disk, cfg.tenants.Keys);
    var newDocs: seq<Document>, newRows: seq<Pending> :|
      && t'.docs == t.docs + newDocs && t'.rows == Keep(t.rows, tenants, disk) + newRows
      && AddsDocuments(cfg, newDocs, todo) && AddsPending(cfg, newRows, todo);
    SettledNoneOpen(t, f);
    KeepSettled(t.rows, tenants, disk, f);
    PendingCountConcat(Keep(t.rows, tenants, disk), newRows, f);
    DocCountConcat(t.docs, newDocs, f);
    SettledTracked(t, f);
    assert f !in todo;
    PendingCountZero(newRows, f);
    DocCountZero(newDocs, f);
    DocCountZero(t.docs, f);
    DocCountZero(t'.docs, f);
  }

  lemma SettledTracked(t: Tables, f: Path)
    requires Settled(t, f)
    ensures f in DocPaths(t.docs) || f in PendingPaths(t.rows)
  {
    if f !in DocPaths(t.docs) {
      var k :| 0 <= k < |t.rows| && t.rows[k].path == f;
    }
  }

  lemma StepSettled(step: Step, t: Tables, t': Tables, f: Path)
    requires Sound(t) && Settled(t, f) && Next(step, t, t')
    ensures Settled(t', f) && PendingCount(t'.rows, f) == PendingCount(t.rows, f)
    ensures !step.Import? ==> DocCount(t'.docs, f) == DocCount(t.docs, f)
  {
    match step
    case Scan(cfg, disk) => ScanSettled(cfg, disk, t, t', f);
    case Import(k, form, categories) =>
      if 0 <= k < |t.rows| {
        UpdateCounts(t.rows, k, t.rows[k].(reconciled := true), f);
        DocPathsGrow(t.docs, ImportedDocument(t.rows[k], form, categories));
        SettledUpdated(t, t', k, f);
      }
    case Ignore(k) =>
      if 0 <= k < |t.rows| {
        UpdateCounts(t.rows, k, t.rows[k].(ignored := true), f);
        SettledUpdated(t, t', k, f);
      }
  }

  lemma SettledUpdated(t: Tables, t': Tables, k: nat, f: Path)
    requires Settled(t, f) && DocPaths(t.docs) <= DocPaths(t'.docs) && k < |t.rows|
    requires |t'.rows| == |t.rows| && forall m :: 0 <= m < |t.rows| && m != k ==> t'.rows[m] == t.rows[m]
    requires t'.rows[k].path == t.rows[k].path && (t.rows[k].ignored ==> t'.rows[k].ignored)
    ensures Settled(t', f)
  {
    if f !in DocPaths(t.docs) {
      var m :| 0 <= m < |t.rows| && t.rows[m].path == f && t.rows[m].ignored;
      assert t'.rows[m] in t'.rows;
    }
  }

  /** A path once imported or ignored stays so, and is never queued again or dropped
      from the queue, whatever happens to its file. */
  lemma {:induction false} SettledStays(steps: seq<Step>, tables: seq<Tables>, n: nat, m: nat, f: Path)
    requires IsRun(steps, tables) && n <= m < |tables| && Settled(tables[n], f)
    ensures Settled(tables[m], f) && PendingCount(tables[m].rows, f) == PendingCount(tables[n].rows, f)
    decreases m
  {
    hide Next, Settled;
    if n < m {
      SettledStays(steps, tables, n, m - 1, f);
      EveryRunSound(steps, tables, m - 1);
      assert StepAt(steps, tables, m - 1);
      StepSettled(steps[m - 1], tables[m - 1], tables[m], f);
    }
  }
}
