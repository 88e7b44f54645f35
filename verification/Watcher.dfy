/** The file-sync scanner of app/sync_watcher.py: _scan_once, _process_file and
    _queue_pending over a disk, a documents table and a pending table. */
module Watcher {
  import opened Options

  /** A path relative to the upload folder, split at "/". */
  type Path = seq<string>

  datatype Disk = Disk(files: set<Path>, dirs: set<Path>)
  {
    /** os.path.exists. */
    predicate Exists(p: Path) {
      p in files || p in dirs
    }

    /** The folder that holds a file is a directory. */
    ghost predicate WellFormed() {
      forall f :: f in files && |f| >= 2 ==> [f[0]] in dirs
    }
  }

  datatype Document = Document(path: Path, aircraft: Option<int>, category: Option<string>)

  datatype Pending = Pending(path: Path, tenant: int, aircraft: Option<int>, category: Option<string>,
                             reconciled: bool, ignored: bool)
  {
    predicate Open() {
      !reconciled && !ignored
    }
  }

  datatype Tenant = Tenant(id: int, aircraftByReg: map<string, int>)

  /** Tenants by slug, the known categories, and the two text normalisations. */
  datatype Config = Config(tenants: map<string, Tenant>, categories: set<string>,
                           registration: string -> string, lower: string -> string)

  const APP_MANAGED := {"photos", "gps_logs"}

  predicate AppManaged(f: Path) {
    |f| >= 4 && f[2] in APP_MANAGED
  }

  predicate HiddenName(name: string) {
    name != "" && (name[0] == '.' || name[0] == '_')
  }

  /** A file the scanner is responsible for. */
  predicate Eligible(cfg: Config, f: Path) {
    |f| >= 2 && f[0] in cfg.tenants && !HiddenName(f[|f| - 1]) && !AppManaged(f)
  }

  function AircraftFor(cfg: Config, tenant: Tenant, f: Path): Option<int>
    requires |f| >= 4
  {
    var reg := cfg.registration(f[1]);
    if reg in tenant.aircraftByReg then Some(tenant.aircraftByReg[reg]) else None
  }

  function CategoryFor(cfg: Config, f: Path): Option<string>
    requires |f| >= 4
  {
    var cat := cfg.lower(f[2]);
    if cat in cfg.categories then Some(cat) else None
  }

  /** Aircraft and category are both recognised. */
  predicate Resolved(cfg: Config, f: Path)
    requires |f| >= 2 && f[0] in cfg.tenants
  {
    |f| >= 4 && AircraftFor(cfg, cfg.tenants[f[0]], f).Some? && CategoryFor(cfg, f).Some?
  }

  function DocumentFor(cfg: Config, f: Path): Document
    requires |f| >= 2 && f[0] in cfg.tenants && Resolved(cfg, f)
  {
    Document(f, AircraftFor(cfg, cfg.tenants[f[0]], f), CategoryFor(cfg, f))
  }

  function PendingFor(cfg: Config, f: Path): Pending
    requires |f| >= 2 && f[0] in cfg.tenants
  {
    var tenant := cfg.tenants[f[0]];
    if |f| < 4 then Pending(f, tenant.id, None, None, false, false)
    else Pending(f, tenant.id, AircraftFor(cfg, tenant, f), CategoryFor(cfg, f), false, false)
  }

  // ---------------------------------------------------------------- Specification

  /** The open entries of these tenants whose file is gone are dropped. */
  function Keep(rows: seq<Pending>, tenants: set<int>, disk: Disk): seq<Pending> {
    if rows == [] then []
    else
      var r := rows[|rows| - 1];
      Keep(rows[..|rows| - 1], tenants, disk)
      + if r.Open() && r.tenant in tenants && !disk.Exists(r.path) then [] else [r]
  }

  function DocPaths(docs: seq<Document>): set<Path> {
    set k | 0 <= k < |docs| :: docs[k].path
  }

  function PendingPaths(rows: seq<Pending>): set<Path> {
    set k | 0 <= k < |rows| :: rows[k].path
  }

  /** Eligible files no row knows of. */
  function Untracked(cfg: Config, disk: Disk, docs: seq<Document>, rows: seq<Pending>): set<Path> {
    set f | f in disk.files && Eligible(cfg, f) && f !in DocPaths(docs) && f !in PendingPaths(rows)
  }

  function ScannedTenants(cfg: Config, disk: Disk, slugs: set<string>): set<int> {
    set s | s in slugs && s in cfg.tenants && [s] in disk.dirs :: cfg.tenants[s].id
  }

  /** `added` holds exactly one document for each resolved path of `todo`. */
  ghost predicate AddsDocuments(cfg: Config, added: seq<Document>, todo: set<Path>) {
    && (forall k :: 0 <= k < |added| ==>
          var f := added[k].path;
          f in todo && |f| >= 2 && f[0] in cfg.tenants && Resolved(cfg, f) && added[k] == DocumentFor(cfg, f))
    && (forall k, m :: 0 <= k < m < |added| ==> added[k].path != added[m].path)
    && (forall f :: f in todo && |f| >= 2 && f[0] in cfg.tenants && Resolved(cfg, f) ==> f in DocPaths(added))
  }

  /** `added` holds exactly one open entry for each unresolved path of `todo`. */
  ghost predicate AddsPending(cfg: Config, added: seq<Pending>, todo: set<Path>) {
    && (forall k :: 0 <= k < |added| ==>
          var f := added[k].path;
          f in todo && |f| >= 2 && f[0] in cfg.tenants && !Resolved(cfg, f) && added[k] == PendingFor(cfg, f))
    && (forall k, m :: 0 <= k < m < |added| ==> added[k].path != added[m].path)
    && (forall f :: f in todo && |f| >= 2 && f[0] in cfg.tenants && !Resolved(cfg, f) ==> f in PendingPaths(added))
  }

  /** One scan: vanished entries dropped, each untracked file given one row. */
  ghost predicate IsScan(cfg: Config, disk: Disk, docs: seq<Document>, rows: seq<Pending>, docs': seq<Document>,
                         rows': seq<Pending>) {
    exists newDocs, newRows ::
      && docs' == docs + newDocs
      && rows' == Keep(rows, ScannedTenants(cfg, disk, cfg.tenants.Keys), disk) + newRows
      && AddsDocuments(cfg, newDocs, Untracked(cfg, disk, docs, rows))
      && AddsPending(cfg, newRows, Untracked(cfg, disk, docs, rows))
  }

  // ---------------------------------------------------------------- The code

  lemma AddDocument(cfg: Config, added: seq<Document>, todo: set<Path>, f: Path)
    requires AddsDocuments(cfg, added, todo) && f !in todo
    requires |f| >= 2 && f[0] in cfg.tenants && Resolved(cfg, f)
    ensures AddsDocuments(cfg, added + [DocumentFor(cfg, f)], todo + {f})
    ensures DocPaths(added + [DocumentFor(cfg, f)]) == DocPaths(added) + {f}
  {
    DocPathsGrow(added, DocumentFor(cfg, f));
  }

  lemma AddPending(cfg: Config, added: seq<Pending>, todo: set<Path>, f: Path)
    requires AddsPending(cfg, added, todo) && f !in todo
    requires |f| >= 2 && f[0] in cfg.tenants && !Resolved(cfg, f)
    ensures AddsPending(cfg, added + [PendingFor(cfg, f)], todo + {f})
  {
    PendingPathsGrow(added, [PendingFor(cfg, f)]);
    assert [PendingFor(cfg, f)][0].path == f;
  }

  lemma DocPathsGrow(docs: seq<Document>, d: Document)
    ensures DocPaths(docs + [d]) == DocPaths(docs) + {d.path}
  {
    var all := docs + [d];
    assert all[|docs|] == d;
    forall p | p in DocPaths(docs)
      ensures p in DocPaths(all)
    {
      var k :| 0 <= k < |docs| && docs[k].path == p;
      assert all[k].path == p;
    }
  }

  lemma PendingPathsGrow(rows: seq<Pending>, more: seq<Pending>)
    ensures PendingPaths(rows + more) == PendingPaths(rows) + PendingPaths(more)
  {
    var all := rows + more;
    forall p | p in PendingPaths(rows) + PendingPaths(more)
      ensures p in PendingPaths(all)
    {
      if p in PendingPaths(rows) {
        var k :| 0 <= k < |rows| && rows[k].path == p;
        assert all[k].path == p;
      } else {
        var k :| 0 <= k < |more| && more[k].path == p;
        assert all[|rows| + k].path == p;
      }
    }
  }

  lemma {:induction false} KeepConcat(a: seq<Pending>, b: seq<Pending>, tenants: set<int>, disk: Disk)
    ensures Keep(a + b, tenants, disk) == Keep(a, tenants, disk) + Keep(b, tenants, disk)
    decreases |b|
  {
    if b == [] {
      assert a + b == a;
    } else {
      assert (a + b)[..|a + b| - 1] == a + b[..|b| - 1];
      KeepConcat(a, b[..|b| - 1], tenants, disk);
    }
  }

  lemma {:induction false} KeepTwice(rows: seq<Pending>, s: set<int>, t: set<int>, disk: Disk)
    ensures Keep(Keep(rows, s, disk), t, disk) == Keep(rows, s + t, disk)
  {
    if rows != [] {
      var n := |rows| - 1;
      KeepTwice(rows[..n], s, t, disk);
      var r := rows[n];
      if r.Open() && r.tenant in s && !disk.Exists(r.path) {
        assert Keep(rows, s, disk) == Keep(rows[..n], s, disk);
      } else {
        KeepConcat(Keep(rows[..n], s, disk), [r], t, disk);
      }
    }
  }

  lemma {:induction false} KeepExisting(rows: seq<Pending>, tenants: set<int>, disk: Disk)
    requires forall r :: r in rows ==> disk.Exists(r.path)
    ensures Keep(rows, tenants, disk) == rows
  {
    if rows != [] {
      var init, r := rows[..|rows| - 1], rows[|rows| - 1];
      KeepExisting(init, tenants, disk);
      assert r in rows;
      assert Keep(rows, tenants, disk) == init + [r];
    }
  }

  lemma {:induction false} KeepPaths(rows: seq<Pending>, tenants: set<int>, disk: Disk)
    ensures forall r :: r in Keep(rows, tenants, disk) ==> r in rows
    ensures forall r :: r in rows && disk.Exists(r.path) ==> r in Keep(rows, tenants, disk)
    ensures forall r :: r in Keep(rows, tenants, disk) ==> !r.Open() || r.tenant !in tenants || disk.Exists(r.path)
  {
    if rows != [] {
      KeepPaths(rows[..|rows| - 1], tenants, disk);
    }
  }

  class Scanner {
    var documents: seq<Document>
    var pending: seq<Pending>

    constructor (documents: seq<Document>, pending: seq<Pending>)
      ensures this.documents == documents && this.pending == pending
    {
      this.documents, this.pending := documents, pending;
    }

    /** Drop the open entries of one tenant whose file no longer exists. */
    method DropVanished(tenant: int, disk: Disk) returns (dropped: set<Path>)
      modifies this`pending
      ensures pending == Keep(old(pending), {tenant}, disk)
      ensures forall p :: p in dropped ==> !disk.Exists(p)
    {
      dropped := {};
      var kept: seq<Pending> := [];
      for i := 0 to |pending|
        invariant pending == old(pending) && kept == Keep(pending[..i], {tenant}, disk)
        invariant forall p :: p in dropped ==> !disk.Exists(p)
      {
        assert pending[..i + 1][..i] == pending[..i];
        var r := pending[i];
        if !(r.Open() && r.tenant == tenant && !disk.Exists(r.path)) {
          kept := kept + [r];
        } else {
          dropped := dropped + {r.path};
        }
      }
      assert pending[..|pending|] == pending;
      pending := kept;
    }

    /** Import the file if its aircraft and category are recognised, else queue it. */
    method ProcessFile(cfg: Config, f: Path)
      requires |f| >= 2 && f[0] in cfg.tenants
      modifies this
      ensures Resolved(cfg, f) ==> documents == old(documents) + [DocumentFor(cfg, f)] && pending == old(pending)
      ensures !Resolved(cfg, f) ==> documents == old(documents) && pending == old(pending) + [PendingFor(cfg, f)]
    {
      var tenant := cfg.tenants[f[0]];
      if |f| < 4 {
        pending := pending + [Pending(f, tenant.id, None, None, false, false)];
        return;
      }
      var aircraft, category := AircraftFor(cfg, tenant, f), CategoryFor(cfg, f);
      if aircraft.Some? && category.Some? {
        documents := documents + [Document(f, aircraft, category)];
      } else {
        pending := pending + [Pending(f, tenant.id, aircraft, category, false, false)];
      }
    }

    /** Walk one tenant's folder. `tracked` is known_filenames and pending_filepaths. */
    method WalkTenant(cfg: Config, disk: Disk, slug: string, tracked0: set<Path>)
      returns (tracked: set<Path>, ghost newDocs: seq<Document>, ghost newRows: seq<Pending>)
      requires slug in cfg.tenants
      modifies this
      ensures documents == old(documents) + newDocs && pending == old(pending) + newRows
      ensures var todo := UntrackedOf(cfg, disk, slug, tracked0);
              tracked == tracked0 + todo && AddsDocuments(cfg, newDocs, todo) && AddsPending(cfg, newRows, todo)
    {
      hide AddsDocuments, AddsPending, Resolved, DocPaths, PendingPaths, DocumentFor, PendingFor, HiddenName,
        AppManaged;
      ghost var done: set<Path> := {};
      tracked, newDocs, newRows := tracked0, [], [];
      AddsNothing(cfg);
      var walk := set f | f in disk.files && |f| >= 2 && f[0] == slug;
      while walk != {}
        invariant forall f :: f in walk ==> f in disk.files && |f| >= 2 && f[0] == slug && f !in done
        invariant done <= UntrackedOf(cfg, disk, slug, tracked0)
        invariant forall f :: f in UntrackedOf(cfg, disk, slug, tracked0) ==> f in done || f in walk
        invariant tracked == tracked0 + done
        invariant documents == old(documents) + newDocs && pending == old(pending) + newRows
        invariant AddsDocuments(cfg, newDocs, done) && AddsPending(cfg, newRows, done)
        decreases walk
      {
        var f :| f in walk;
        walk := walk - {f};
        if HiddenName(f[|f| - 1]) || f in tracked || AppManaged(f) {
          continue;
        }
        ProcessFile(cfg, f);
        if Resolved(cfg, f) {
          AddDocument(cfg, newDocs, done, f);
          PendingUnchanged(cfg, newRows, done, f);
          newDocs := newDocs + [DocumentFor(cfg, f)];
        } else {
          AddPending(cfg, newRows, done, f);
          DocumentsUnchanged(cfg, newDocs, done, f);
          newRows := newRows + [PendingFor(cfg, f)];
        }
        tracked, done := tracked + {f}, done + {f};
      }
      assert done == UntrackedOf(cfg, disk, slug, tracked0);
    }

    /** One tenant's turn: drop its vanished entries, then walk its folder. */
    method ScanTenant(cfg: Config, disk: Disk, slug: string, tracked0: set<Path>, ghost docs0: seq<Document>,
                      ghost rows0: seq<Pending>, ghost slugs: set<string>)
      returns (tracked: set<Path>)
      requires disk.WellFormed() && slug in cfg.tenants && slug !in slugs
      requires Progress(cfg, disk, docs0, rows0, documents, pending, tracked0, slugs)
      modifies this
      ensures Progress(cfg, disk, docs0, rows0, documents, pending, tracked, slugs + {slug})
    {
      hide Progress;
      tracked := tracked0;
      if [slug] !in disk.dirs {
        NoFolder(cfg, disk, docs0, rows0, documents, pending, tracked, slugs, slug);
        return;
      }
      var dropped := DropVanished(cfg.tenants[slug].id, disk);
      tracked := tracked - dropped;
      ghost var kept, here := pending, UntrackedOf(cfg, disk, slug, tracked);
      ghost var newDocs, newRows;
      tracked, newDocs, newRows := WalkTenant(cfg, disk, slug, tracked);
      TenantScanned(cfg, disk, docs0, rows0, old(documents), old(pending), tracked0, dropped, slugs, slug, newDocs,
                    newRows);
    }

    /** One pass over all tenants; nothing happens unless the upload folder exists
        and this worker holds the lock. */
    method ScanOnce(cfg: Config, disk: Disk, ready: bool)
      requires disk.WellFormed()
      modifies this
      ensures ready ==> IsScan(cfg, disk, old(documents), old(pending), documents, pending)
      ensures !ready ==> documents == old(documents) && pending == old(pending)
    {
      if ready {
        ScanTenants(cfg, disk);
      }
    }

    /** The loop over the tenants. */
    method ScanTenants(cfg: Config, disk: Disk)
      requires disk.WellFormed()
      modifies this
      ensures IsScan(cfg, disk, old(documents), old(pending), documents, pending)
    {
      hide *;
      ghost var docs0, rows0 := documents, pending;
      var tracked := DocPaths(documents) + PendingPaths(pending);
      NothingScanned(cfg, disk, documents, pending);
      var slugs := cfg.tenants.Keys;
      var left := slugs;
      assert slugs - left == {};
      while left != {}
        invariant left <= slugs
        invariant Progress(cfg, disk, docs0, rows0, documents, pending, tracked, slugs - left)
        decreases left
      {
        var slug :| slug in left;
        ghost var scanned := slugs - left;
        tracked := ScanTenant(cfg, disk, slug, tracked, docs0, rows0, scanned);
        left := left - {slug};
        assert slugs - left == scanned + {slug};
      }
      assert slugs - left == slugs;
      ScanDone(cfg, disk, docs0, rows0, documents, pending, tracked);
    }
  }

  // ---------------------------------------------------------------- Progress of a scan

  /** The untracked files of some tenants. */
  ghost function Handled(cfg: Config, disk: Disk, docs: seq<Document>, rows: seq<Pending>,
                         slugs: set<string>): set<Path> {
    set f | f in Untracked(cfg, disk, docs, rows) && f[0] in slugs
  }

  ghost predicate Added(cfg: Config, disk: Disk, docs0: seq<Document>, rows0: seq<Pending>, docs: seq<Document>,
                        rows: seq<Pending>, slugs: set<string>, newDocs: seq<Document>, newRows: seq<Pending>)
  {
    && docs == docs0 + newDocs
    && rows == Keep(rows0, ScannedTenants(cfg, disk, slugs), disk) + newRows
    && AddsDocuments(cfg, newDocs, Handled(cfg, disk, docs0, rows0, slugs))
    && AddsPending(cfg, newRows, Handled(cfg, disk, docs0, rows0, slugs))
  }

  /** The tenants in `slugs` are scanned; `tracked` is exact for files on disk. */
  ghost predicate Progress(cfg: Config, disk: Disk, docs0: seq<Document>, rows0: seq<Pending>, docs: seq<Document>,
                           rows: seq<Pending>, tracked: set<Path>, slugs: set<string>)
  {
    && (exists newDocs, newRows :: Added(cfg, disk, docs0, rows0, docs, rows, slugs, newDocs, newRows))
    && Tracks(cfg, disk, docs0, rows0, tracked, slugs)
  }

  ghost predicate Tracks(cfg: Config, disk: Disk, docs0: seq<Document>, rows0: seq<Pending>, tracked: set<Path>,
                         slugs: set<string>) {
    forall f :: f in disk.files ==>
      (f in tracked <==>
         f in DocPaths(docs0) || f in PendingPaths(rows0) || f in Handled(cfg, disk, docs0, rows0, slugs))
  }

  /** The files of one tenant that `tracked` does not know. */
  ghost function UntrackedOf(cfg: Config, disk: Disk, slug: string, tracked: set<Path>): set<Path> {
    set f | f in disk.files && Eligible(cfg, f) && f[0] == slug && f !in tracked
  }

  lemma PendingUnchanged(cfg: Config, added: seq<Pending>, todo: set<Path>, f: Path)
    requires AddsPending(cfg, added, todo) && |f| >= 2 && f[0] in cfg.tenants && Resolved(cfg, f)
    ensures AddsPending(cfg, added, todo + {f})
  {
  }

  lemma DocumentsUnchanged(cfg: Config, added: seq<Document>, todo: set<Path>, f: Path)
    requires AddsDocuments(cfg, added, todo) && |f| >= 2 && f[0] in cfg.tenants && !Resolved(cfg, f)
    ensures AddsDocuments(cfg, added, todo + {f})
  {
  }

  lemma AddsNothing(cfg: Config)
    ensures AddsDocuments(cfg, [], {}) && AddsPending(cfg, [], {})
  {
  }

  lemma {:induction false} KeepAll(rows: seq<Pending>, disk: Disk)
    ensures Keep(rows, {}, disk) == rows
  {
    if rows != [] {
      var init, r := rows[..|rows| - 1], rows[|rows| - 1];
      KeepAll(init, disk);
      assert Keep(rows, {}, disk) == init + [r];
    }
  }

  lemma NothingScanned(cfg: Config, disk: Disk, docs: seq<Document>, rows: seq<Pending>)
    ensures Progress(cfg, disk, docs, rows, docs, rows, DocPaths(docs) + PendingPaths(rows), {})
  {
    AddsNothing(cfg);
    KeepAll(rows, disk);
    assert ScannedTenants(cfg, disk, {}) == {};
    assert Handled(cfg, disk, docs, rows, {}) == {};
    assert Added(cfg, disk, docs, rows, docs, rows, {}, [], []);
  }

  lemma ScanTenantNext(cfg: Config, disk: Disk, slugs: set<string>, slug: string)
    requires slug in cfg.tenants
    ensures ScannedTenants(cfg, disk, slugs + {slug})
            == ScannedTenants(cfg, disk, slugs) + if [slug] in disk.dirs then {cfg.tenants[slug].id} else {}
  {
  }

  /** A tenant without a folder has no files, and keeps its entries. */
  lemma NoFolder(cfg: Config, disk: Disk, docs0: seq<Document>, rows0: seq<Pending>, docs: seq<Document>,
                 rows: seq<Pending>, tracked: set<Path>, slugs: set<string>, slug: string)
    requires disk.WellFormed() && slug in cfg.tenants && [slug] !in disk.dirs
    requires Progress(cfg, disk, docs0, rows0, docs, rows, tracked, slugs)
    ensures Progress(cfg, disk, docs0, rows0, docs, rows, tracked, slugs + {slug})
  {
    hide AddsDocuments, AddsPending;
    var newDocs: seq<Document>, newRows: seq<Pending> :|
      Added(cfg, disk, docs0, rows0, docs, rows, slugs, newDocs, newRows);
    ScanTenantNext(cfg, disk, slugs, slug);
    assert ScannedTenants(cfg, disk, slugs + {slug}) == ScannedTenants(cfg, disk, slugs);
    assert Handled(cfg, disk, docs0, rows0, slugs + {slug}) == Handled(cfg, disk, docs0, rows0, slugs);
    assert Added(cfg, disk, docs0, rows0, docs, rows, slugs + {slug}, newDocs, newRows);
  }

  /** The files found under a tenant's folder are its untracked ones. */
  lemma FoundFiles(cfg: Config, disk: Disk, docs0: seq<Document>, rows0: seq<Pending>, tracked: set<Path>,
                   dropped: set<Path>, slugs: set<string>, slug: string)
    requires slug in cfg.tenants && slug !in slugs
    requires Tracks(cfg, disk, docs0, rows0, tracked, slugs)
    requires forall p :: p in dropped ==> !disk.Exists(p)
    ensures Tracks(cfg, disk, docs0, rows0, tracked - dropped + UntrackedOf(cfg, disk, slug, tracked - dropped),
                   slugs + {slug})
    ensures var here := UntrackedOf(cfg, disk, slug, tracked - dropped);
            && here !! Handled(cfg, disk, docs0, rows0, slugs)
            && Handled(cfg, disk, docs0, rows0, slugs + {slug}) == Handled(cfg, disk, docs0, rows0, slugs) + here
  {
  }

  /** After a tenant's turn: what it dropped, and what it added. */
  lemma TenantScanned(cfg: Config, disk: Disk, docs0: seq<Document>, rows0: seq<Pending>, docs: seq<Document>,
                      rows: seq<Pending>, tracked: set<Path>, dropped: set<Path>, slugs: set<string>, slug: string,
                      newDocs: seq<Document>, newRows: seq<Pending>)
    requires slug in cfg.tenants && [slug] in disk.dirs && slug !in slugs
    requires Progress(cfg, disk, docs0, rows0, docs, rows, tracked, slugs)
    requires forall p :: p in dropped ==> !disk.Exists(p)
    requires AddsDocuments(cfg, newDocs, UntrackedOf(cfg, disk, slug, tracked - dropped))
    requires AddsPending(cfg, newRows, UntrackedOf(cfg, disk, slug, tracked - dropped))
    ensures Progress(cfg, disk, docs0, rows0, docs + newDocs, Keep(rows, {cfg.tenants[slug].id}, disk) + newRows,
                     tracked - dropped + UntrackedOf(cfg, disk, slug, tracked - dropped), slugs + {slug})
  {
    hide Added, AddsDocuments, AddsPending, Tracks, UntrackedOf, Handled, Keep, ScannedTenants;
    FoundFiles(cfg, disk, docs0, rows0, tracked, dropped, slugs, slug);
    var oldDocs: seq<Document>, oldRows: seq<Pending> :|
      Added(cfg, disk, docs0, rows0, docs, rows, slugs, oldDocs, oldRows);
    RowsAdded(cfg, disk, docs0, rows0, docs, rows, tracked - dropped, slugs, slug, oldDocs, oldRows, newDocs, newRows);
  }

  /** The rows of a tenant's turn continue those added so far. */
  lemma RowsAdded(cfg: Config, disk: Disk, docs0: seq<Document>, rows0: seq<Pending>, docs: seq<Document>,
                  rows: seq<Pending>,
                  tracked: set<Path>, slugs: set<string>, slug: string, oldDocs: seq<Document>, oldRows: seq<Pending>,
                  newDocs: seq<Document>, newRows: seq<Pending>)
    requires slug in cfg.tenants && [slug] in disk.dirs
    requires Added(cfg, disk, docs0, rows0, docs, rows, slugs, oldDocs, oldRows)
    requires var here := UntrackedOf(cfg, disk, slug, tracked);
             && AddsDocuments(cfg, newDocs, here) && AddsPending(cfg, newRows, here)
             && here !! Handled(cfg, disk, docs0, rows0, slugs)
             && Handled(cfg, disk, docs0, rows0, slugs + {slug}) == Handled(cfg, disk, docs0, rows0, slugs) + here
    ensures Added(cfg, disk, docs0, rows0, docs + newDocs, Keep(rows, {cfg.tenants[slug].id}, disk) + newRows,
                  slugs + {slug}, oldDocs + newDocs, oldRows + newRows)
  {
    hide AddsDocuments, AddsPending, UntrackedOf, Handled, Keep, ScannedTenants;
    var here := UntrackedOf(cfg, disk, slug, tracked);
    KeptSoFar(cfg, disk, docs0, rows0, rows, slugs, slug, oldRows);
    DocumentsJoin(cfg, oldDocs, Handled(cfg, disk, docs0, rows0, slugs), newDocs, here);
    PendingJoin(cfg, oldRows, Handled(cfg, disk, docs0, rows0, slugs), newRows, here);
    assert (docs0 + oldDocs) + newDocs == docs0 + (oldDocs + newDocs);
    var kept := Keep(rows0, ScannedTenants(cfg, disk, slugs + {slug}), disk);
    assert (kept + oldRows) + newRows == kept + (oldRows + newRows);
  }

  /** Entries added by this scan exist on disk, so only old ones are dropped. */
  lemma KeptSoFar(cfg: Config, disk: Disk, docs0: seq<Document>, rows0: seq<Pending>, rows: seq<Pending>,
                  slugs: set<string>, slug: string, oldRows: seq<Pending>)
    requires slug in cfg.tenants && [slug] in disk.dirs
    requires rows == Keep(rows0, ScannedTenants(cfg, disk, slugs), disk) + oldRows
    requires AddsPending(cfg, oldRows, Handled(cfg, disk, docs0, rows0, slugs))
    ensures Keep(rows, {cfg.tenants[slug].id}, disk)
            == Keep(rows0, ScannedTenants(cfg, disk, slugs + {slug}), disk) + oldRows
  {
    var id, scanned := cfg.tenants[slug].id, ScannedTenants(cfg, disk, slugs);
    ScanTenantNext(cfg, disk, slugs, slug);
    NewRowsExist(cfg, disk, oldRows, Handled(cfg, disk, docs0, rows0, slugs));
    KeepConcat(Keep(rows0, scanned, disk), oldRows, {id}, disk);
    KeepTwice(rows0, scanned, {id}, disk);
    KeepExisting(oldRows, {id}, disk);
  }

  lemma DocumentsJoin(cfg: Config, a: seq<Document>, s: set<Path>, b: seq<Document>, t: set<Path>)
    requires AddsDocuments(cfg, a, s) && AddsDocuments(cfg, b, t) && s !! t
    ensures AddsDocuments(cfg, a + b, s + t)
  {
    forall p | p in DocPaths(a) + DocPaths(b)
      ensures p in DocPaths(a + b)
    {
      if p in DocPaths(a) {
        var k :| 0 <= k < |a| && a[k].path == p;
        assert (a + b)[k].path == p;
      } else {
        var k :| 0 <= k < |b| && b[k].path == p;
        assert (a + b)[|a| + k].path == p;
      }
    }
  }

  lemma PendingJoin(cfg: Config, a: seq<Pending>, s: set<Path>, b: seq<Pending>, t: set<Path>)
    requires AddsPending(cfg, a, s) && AddsPending(cfg, b, t) && s !! t
    ensures AddsPending(cfg, a + b, s + t)
  {
    PendingPathsGrow(a, b);
  }

  lemma NewRowsExist(cfg: Config, disk: Disk, rows: seq<Pending>, todo: set<Path>)
    requires AddsPending(cfg, rows, todo) && forall f :: f in todo ==> f in disk.files
    ensures forall r :: r in rows ==> disk.Exists(r.path)
  {
  }

  lemma ScanDone(cfg: Config, disk: Disk, docs0: seq<Document>, rows0: seq<Pending>, docs: seq<Document>,
                 rows: seq<Pending>, tracked: set<Path>)
    requires Progress(cfg, disk, docs0, rows0, docs, rows, tracked, cfg.tenants.Keys)
    ensures IsScan(cfg, disk, docs0, rows0, docs, rows)
  {
    hide AddsDocuments, AddsPending;
    var newDocs: seq<Document>, newRows: seq<Pending> :|
      Added(cfg, disk, docs0, rows0, docs, rows, cfg.tenants.Keys, newDocs, newRows);
    assert Handled(cfg, disk, docs0, rows0, cfg.tenants.Keys) == Untracked(cfg, disk, docs0, rows0);
  }
}
