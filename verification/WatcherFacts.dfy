/** What one scan does to the tables, and what a second one does after it. */
module WatcherFacts {
  import opened Options
  import opened Watcher

  function DocCount(docs: seq<Document>, f: Path): nat {
    if docs == [] then 0 else DocCount(docs[..|docs| - 1], f) + if docs[|docs| - 1].path == f then 1 else 0
  }

  function PendingCount(rows: seq<Pending>, f: Path): nat {
    if rows == [] then 0 else PendingCount(rows[..|rows| - 1], f) + if rows[|rows| - 1].path == f then 1 else 0
  }

  /** How many rows track a path. */
  function TrackedTimes(docs: seq<Document>, rows: seq<Pending>, f: Path): nat {
    DocCount(docs, f) + PendingCount(rows, f)
  }

  // ---------------------------------------------------------------- Counting

  lemma {:induction false} DocCountConcat(a: seq<Document>, b: seq<Document>, f: Path)
    ensures DocCount(a + b, f) == DocCount(a, f) + DocCount(b, f)
    decreases |b|
  {
    if b == [] {
      assert a + b == a;
    } else {
      assert (a + b)[..|a + b| - 1] == a + b[..|b| - 1];
      DocCountConcat(a, b[..|b| - 1], f);
    }
  }

  lemma {:induction false} PendingCountConcat(a: seq<Pending>, b: seq<Pending>, f: Path)
    ensures PendingCount(a + b, f) == PendingCount(a, f) + PendingCount(b, f)
    decreases |b|
  {
    if b == [] {
      assert a + b == a;
    } else {
      assert (a + b)[..|a + b| - 1] == a + b[..|b| - 1];
      PendingCountConcat(a, b[..|b| - 1], f);
    }
  }

  lemma {:induction false} DocCountZero(docs: seq<Document>, f: Path)
    ensures DocCount(docs, f) == 0 <==> f !in DocPaths(docs)
  {
    if docs != [] {
      var init, last := docs[..|docs| - 1], docs[|docs| - 1];
      DocCountZero(init, f);
      assert docs == init + [last];
      DocPathsGrow(init, last);
    }
  }

  lemma {:induction false} PendingCountZero(rows: seq<Pending>, f: Path)
    ensures PendingCount(rows, f) == 0 <==> f !in PendingPaths(rows)
  {
    if rows != [] {
      var init, last := rows[..|rows| - 1], rows[|rows| - 1];
      PendingCountZero(init, f);
      assert rows == init + [last];
      PendingPathsGrow(init, [last]);
      assert PendingPaths([last]) == {last.path} by { assert [last][0].path == last.path; }
    }
  }

  lemma {:induction false} DocCountOnce(docs: seq<Document>, f: Path)
    requires forall k, m :: 0 <= k < m < |docs| ==> docs[k].path != docs[m].path
    ensures DocCount(docs, f) <= 1
  {
    if docs != [] {
      var init := docs[..|docs| - 1];
      DocCountOnce(init, f);
      DocCountZero(init, f);
    }
  }

  lemma {:induction false} PendingCountOnce(rows: seq<Pending>, f: Path)
    requires forall k, m :: 0 <= k < m < |rows| ==> rows[k].path != rows[m].path
    ensures PendingCount(rows, f) <= 1
  {
    if rows != [] {
      var init := rows[..|rows| - 1];
      PendingCountOnce(init, f);
      PendingCountZero(init, f);
    }
  }

  lemma {:induction false} KeepCounts(rows: seq<Pending>, tenants: set<int>, disk: Disk, f: Path)
    ensures PendingCount(Keep(rows, tenants, disk), f) <= PendingCount(rows, f)
    ensures disk.Exists(f) ==> PendingCount(Keep(rows, tenants, disk), f) == PendingCount(rows, f)
  {
    if rows != [] {
      var init, r := rows[..|rows| - 1], rows[|rows| - 1];
      KeepCounts(init, tenants, disk, f);
      var kept := Keep(init, tenants, disk);
      assert Keep(rows, tenants, disk)
             == kept + if r.Open() && r.tenant in tenants && !disk.Exists(r.path) then [] else [r];
      hide Keep;
      PendingCountConcat(kept, [r], f);
      assert kept + [] == kept;
      assert PendingCount([r], f) == if r.path == f then 1 else 0;
    }
  }

  // ---------------------------------------------------------------- One scan

  /** How one scan changes the number of rows that track a path. */
  lemma ScanCounts(cfg: Config, disk: Disk, docs: seq<Document>, rows: seq<Pending>, docs': seq<Document>,
                   rows': seq<Pending>, f: Path)
    requires IsScan(cfg, disk, docs, rows, docs', rows')
    ensures f in Untracked(cfg, disk, docs, rows) ==>
              TrackedTimes(docs, rows, f) == 0 && TrackedTimes(docs', rows', f) == 1
    ensures f !in Untracked(cfg, disk, docs, rows) ==> TrackedTimes(docs', rows', f) <= TrackedTimes(docs, rows, f)
    ensures f !in Untracked(cfg, disk, docs, rows) && disk.Exists(f)
            ==> TrackedTimes(docs', rows', f) == TrackedTimes(docs, rows, f)
  {
    var todo := Untracked(cfg, disk, docs, rows);
    var kept := Keep(rows, ScannedTenants(cfg, disk, cfg.tenants.Keys), disk);
    var newDocs: seq<Document>, newRows: seq<Pending> :|
      && docs' == docs + newDocs && rows' == kept + newRows
      && AddsDocuments(cfg, newDocs, todo) && AddsPending(cfg, newRows, todo);
    DocCountConcat(docs, newDocs, f);
    PendingCountConcat(kept, newRows, f);
    KeepCounts(rows, ScannedTenants(cfg, disk, cfg.tenants.Keys), disk, f);
    NewRowsCount(cfg, newDocs, newRows, todo, f);
    DocCountZero(docs, f);
    PendingCountZero(rows, f);
  }

  /** The rows a scan adds track each of its files once, and nothing else. */
  lemma NewRowsCount(cfg: Config, newDocs: seq<Document>, newRows: seq<Pending>, todo: set<Path>, f: Path)
    requires AddsDocuments(cfg, newDocs, todo) && AddsPending(cfg, newRows, todo)
    requires forall p :: p in todo ==> |p| >= 2 && p[0] in cfg.tenants
    ensures TrackedTimes(newDocs, newRows, f) == if f in todo then 1 else 0
  {
    hide Resolved;
    DocCountZero(newDocs, f);
    PendingCountZero(newRows, f);
    DocCountOnce(newDocs, f);
    PendingCountOnce(newRows, f);
  }

  /** Whatever the tables held: a scan gives each eligible file that no row tracks
      exactly one row, leaves the rows of the others, and tracks no path anew that
      some row tracked already. */
  lemma ScanTracksOnce(cfg: Config, disk: Disk, docs: seq<Document>, rows: seq<Pending>, docs': seq<Document>,
                       rows': seq<Pending>, f: Path)
    requires IsScan(cfg, disk, docs, rows, docs', rows')
    ensures var before, after := TrackedTimes(docs, rows, f), TrackedTimes(docs', rows', f);
            && (f in disk.files && Eligible(cfg, f) ==> after == if before == 0 then 1 else before)
            && (before > 0 ==> after <= before)
            && (before == 0 && !(f in disk.files && Eligible(cfg, f)) ==> after == 0)
  {
    hide IsScan;
    ScanCounts(cfg, disk, docs, rows, docs', rows', f);
    DocCountZero(docs, f);
    PendingCountZero(rows, f);
  }

  /** No inserted entry repeats a path of the pending table, whatever it held. */
  lemma PendingNeverRepeated(cfg: Config, disk: Disk, docs: seq<Document>, rows: seq<Pending>, docs': seq<Document>,
                             rows': seq<Pending>, f: Path)
    requires IsScan(cfg, disk, docs, rows, docs', rows') && PendingCount(rows, f) <= 1
    ensures PendingCount(rows', f) <= 1
  {
    var todo := Untracked(cfg, disk, docs, rows);
    var kept := Keep(rows, ScannedTenants(cfg, disk, cfg.tenants.Keys), disk);
    var newDocs: seq<Document>, newRows: seq<Pending> :|
      && docs' == docs + newDocs && rows' == kept + newRows
      && AddsDocuments(cfg, newDocs, todo) && AddsPending(cfg, newRows, todo);
    PendingCountConcat(kept, newRows, f);
    KeepCounts(rows, ScannedTenants(cfg, disk, cfg.tenants.Keys), disk, f);
    PendingCountZero(rows, f);
    PendingCountZero(newRows, f);
    PendingCountOnce(newRows, f);
  }

  /** Scanning again with nothing changed inserts and deletes nothing. */
  lemma SecondScanIdle(cfg: Config, disk: Disk, docs: seq<Document>, rows: seq<Pending>,
                       docs1: seq<Document>, rows1: seq<Pending>, docs2: seq<Document>, rows2: seq<Pending>)
    requires IsScan(cfg, disk, docs, rows, docs1, rows1) && IsScan(cfg, disk, docs1, rows1, docs2, rows2)
    ensures docs2 == docs1 && rows2 == rows1
  {
    hide IsScan;
    assert Untracked(cfg, disk, docs1, rows1) == {} by {
      forall f | f in disk.files && Eligible(cfg, f)
        ensures f in DocPaths(docs1) || f in PendingPaths(rows1)
      {
        ScanCounts(cfg, disk, docs, rows, docs1, rows1, f);
        DocCountZero(docs, f);
        PendingCountZero(rows, f);
        DocCountZero(docs1, f);
        PendingCountZero(rows1, f);
      }
    }
    NothingVanishedLeft(cfg, disk, docs, rows, docs1, rows1);
    IdleScan(cfg, disk, docs1, rows1, docs2, rows2);
  }

  /** After a scan no open entry of a scanned tenant is without its file. */
  lemma NothingVanishedLeft(cfg: Config, disk: Disk, docs: seq<Document>, rows: seq<Pending>, docs1: seq<Document>,
                            rows1: seq<Pending>)
    requires IsScan(cfg, disk, docs, rows, docs1, rows1)
    ensures Keep(rows1, ScannedTenants(cfg, disk, cfg.tenants.Keys), disk) == rows1
  {
    var scanned := ScannedTenants(cfg, disk, cfg.tenants.Keys);
    var newDocs: seq<Document>, newRows: seq<Pending> :|
      && docs1 == docs + newDocs && rows1 == Keep(rows, scanned, disk) + newRows
      && AddsDocuments(cfg, newDocs, Untracked(cfg, disk, docs, rows))
        && AddsPending(cfg, newRows, Untracked(cfg, disk, docs, rows));
    assert forall r :: r in newRows ==> disk.Exists(r.path) by {
      NewRowsExist(cfg, disk, newRows, Untracked(cfg, disk, docs, rows));
    }
    hide AddsDocuments, AddsPending, Untracked, ScannedTenants;
    assert scanned + scanned == scanned;
    KeepConcat(Keep(rows, scanned, disk), newRows, scanned, disk);
    KeepTwice(rows, scanned, scanned, disk);
    KeepExisting(newRows, scanned, disk);
  }

  lemma IdleScan(cfg: Config, disk: Disk, docs: seq<Document>, rows: seq<Pending>, docs': seq<Document>,
                 rows': seq<Pending>)
    requires IsScan(cfg, disk, docs, rows, docs', rows') && Untracked(cfg, disk, docs, rows) == {}
    requires Keep(rows, ScannedTenants(cfg, disk, cfg.tenants.Keys), disk) == rows
    ensures docs' == docs && rows' == rows
  {
    var newDocs: seq<Document>, newRows: seq<Pending> :|
      && docs' == docs + newDocs && rows' == rows + newRows
      && AddsDocuments(cfg, newDocs, {}) && AddsPending(cfg, newRows, {});
    OneRowPerPath(cfg, newDocs, newRows, {});
  }

  /** Every added row is for a path to do. */
  lemma OneRowPerPath(cfg: Config, newDocs: seq<Document>, newRows: seq<Pending>, todo: set<Path>)
    requires AddsDocuments(cfg, newDocs, todo) && AddsPending(cfg, newRows, todo)
    ensures |newDocs| > 0 ==> newDocs[0].path in todo
    ensures |newRows| > 0 ==> newRows[0].path in todo
  {
  }

  // ---------------------------------------------------------------- Names

  /** In <hangar>/<registration>/<category>/..., the second level names the aircraft of
      the hangar, and the third the category. */
  ghost predicate Named(cfg: Config, f: Path, aircraft: int, category: string) {
    && |f| >= 4 && f[0] in cfg.tenants
    && cfg.registration(f[1]) in cfg.tenants[f[0]].aircraftByReg
    && cfg.tenants[f[0]].aircraftByReg[cfg.registration(f[1])] == aircraft
    && cfg.lower(f[2]) == category && category in cfg.categories
  }

  /** What a scan makes of a path: a document of the aircraft and the category that it
      names, if it names both, and otherwise an open entry of its hangar, with what it
      does name. */
  lemma RowsAsNamed(cfg: Config, f: Path)
    requires |f| >= 2 && f[0] in cfg.tenants
    ensures Resolved(cfg, f) <==> exists aircraft, category :: Named(cfg, f, aircraft, category)
    ensures forall aircraft, category :: Named(cfg, f, aircraft, category) ==>
              DocumentFor(cfg, f) == Document(f, Some(aircraft), Some(category))
    ensures !Resolved(cfg, f) ==>
              var r := PendingFor(cfg, f);
              && r.path == f && r.tenant == cfg.tenants[f[0]].id && r.Open()
              && (|f| < 4 ==> r.aircraft.None? && r.category.None?)
              && (|f| >= 4 ==>
                    && r.aircraft == (var reg := cfg.registration(f[1]);
                                      var known := cfg.tenants[f[0]].aircraftByReg;
                                      if reg in known then Some(known[reg]) else None)
                    && r.category == if cfg.lower(f[2]) in cfg.categories then Some(cfg.lower(f[2])) else None)
  {
    if Resolved(cfg, f) {
      assert Named(cfg, f, AircraftFor(cfg, cfg.tenants[f[0]], f).value, CategoryFor(cfg, f).value);
    }
  }

  /** The files a scan is responsible for: in a hangar's folder, not hidden, and not in
      a folder that the application manages itself. */
  lemma EligibleFiles(cfg: Config, f: Path)
    ensures Eligible(cfg, f) <==>
              && |f| >= 2 && f[0] in cfg.tenants
              && (var name := f[|f| - 1]; name != "" ==> name[0] != '.' && name[0] != '_')
              && (|f| >= 4 ==> f[2] != "photos" && f[2] != "gps_logs")
  {
  }
}
