/** The `FileTracker` object: each public operation as a method over the shared
    store, proved against the functions of `FileTracking` and `FileSync`. The walk
    of the project directory and the digest of a full path are parameters. */
module Tracker {
  import opened Wrappers
  import opened Seqs
  import opened Models
  import opened Store
  import opened FileTracking
  import opened FileSync

  /** The digest of each project-relative path. */
  function DigestsUnder(root: string, hashOf: string -> Option<Digest>): string -> Option<Digest> {
    (p: string) => Fresh(root, hashOf, p)
  }

  /** `scan_project_files`: the trackable files of the walk, as relative paths. */
  method ScanProjectFiles(root: string, walk: seq<WalkEntry>) returns (r: seq<string>)
    ensures r == Scan(root, walk)
  {
    r := [];
    var k := 0;
    while k < |walk|
      invariant 0 <= k <= |walk|
      invariant r == Scan(root, walk[..k])
    {
      var e := walk[k];
      ScanStep(root, walk, k);
      if Trackable(root, e) {
        r := r + [e.path];
      }
      k := k + 1;
    }
    assert walk[..k] == walk;
  }

  /** The loops of `get_changed_files`: new files first, then one entry per changed
      or deleted row. */
  method DiffFiles(rows: seq<FileTracked>, current: seq<string>, root: string, hashOf: string -> Option<Digest>)
    returns (r: seq<Change>)
    ensures r == ChangedFiles(rows, current, root, hashOf)
  {
    var tracked := PathSet(rows);
    r := [];
    var k := 0;
    while k < |current|
      invariant 0 <= k <= |current|
      invariant r == NewChanges(current[..k], tracked, root, hashOf)
    {
      var path := current[k];
      if path !in tracked {
        r := r + [New(path, Fresh(root, hashOf, path))];
      }
      assert current[..k + 1][..k] == current[..k];
      k := k + 1;
    }
    assert current[..k] == current;
    var news := r;
    var scanned := set p | p in current;
    var j := 0;
    while j < |rows|
      invariant 0 <= j <= |rows|
      invariant r == news + RowChanges(rows[..j], scanned, root, hashOf)
    {
      var row := rows[j];
      if row.path !in scanned {
        r := r + [Deleted(row.path, row.hash)];
      } else {
        var digest := Fresh(root, hashOf, row.path);
        if digest.Some? && digest.value != row.hash {
          r := r + [Modified(row.path, row.hash, digest.value)];
        }
      }
      assert rows[..j + 1][..j] == rows[..j];
      j := j + 1;
    }
    assert rows[..j] == rows;
  }

  /** The first loop of `sync_project_files`: insert, update or count each readable
      scanned file. */
  method TrackScanned(w0: Work, pid: Id, now: Timestamp, current: seq<string>, digestOf: string -> Option<Digest>)
    returns (w: Work)
    ensures w == TrackAll(w0, pid, now, current, digestOf)
  {
    w := w0;
    var k := 0;
    while k < |current|
      invariant 0 <= k <= |current|
      invariant w == TrackAll(w0, pid, now, current[..k], digestOf)
    {
      var path := current[k];
      var digest := digestOf(path);
      if digest.Some? {
        var found := FindFile(w.files, pid, path);
        if found.Some? {
          var i := found.value;
          if w.files[i].hash != digest.value {
            w := w.(files := w.files[i := w.files[i].(hash := digest.value, lastAnalyzed := now)],
                    stats := w.stats.(updated := w.stats.updated + 1));
          } else {
            w := w.(stats := w.stats.(unmodified := w.stats.unmodified + 1));
          }
        } else {
          w := w.(files := w.files + [FileTracked(w.nextId, pid, path, digest.value, now, None)],
                  nextId := w.nextId + 1,
                  stats := w.stats.(added := w.stats.added + 1));
        }
      }
      assert current[..k + 1] == current[..k] + [path];
      k := k + 1;
    }
    assert current[..k] == current;
  }

  /** One more row of the second loop is either counted as stale or kept. */
  lemma PruneStep(files: seq<FileTracked>, j: nat, pid: Id, current: seq<string>)
    requires j < |files|
    ensures var f := files[j];
      var stale := f.projectId == pid && f.path !in current;
      && Filter(files[..j + 1], Keep(pid, current)) == Filter(files[..j], Keep(pid, current)) + (if stale then [] else [f])
      && |Filter(files[..j + 1], Stale(pid, current))| == |Filter(files[..j], Stale(pid, current))| + (if stale then 1 else 0)
  {
    FilterStep(files, j, Keep(pid, current));
    FilterStep(files, j, Stale(pid, current));
  }

  /** The second loop of `sync_project_files`: drop and count the project's rows
      whose path was not scanned. */
  method PruneUnscanned(files: seq<FileTracked>, pid: Id, current: seq<string>)
    returns (kept: seq<FileTracked>, deleted: nat)
    ensures kept == Filter(files, Keep(pid, current))
    ensures deleted == |Filter(files, Stale(pid, current))|
  {
    kept := [];
    deleted := 0;
    var j := 0;
    while j < |files|
      invariant 0 <= j <= |files|
      invariant kept == Filter(files[..j], Keep(pid, current))
      invariant deleted == |Filter(files[..j], Stale(pid, current))|
    {
      var f := files[j];
      PruneStep(files, j, pid, current);
      if f.projectId == pid && f.path !in current {
        deleted := deleted + 1;
      } else {
        kept := kept + [f];
      }
      j := j + 1;
    }
    assert files[..j] == files;
  }

  /** The body of `sync_project_files` on the tables it reads: both loops and the
      commit check. */
  method SyncSession(t: Tables, pid: Id, current: seq<string>, digestOf: string -> Option<Digest>)
    returns (o: SyncOutcome)
    requires FilesValid(t.files, t.projects, t.nextFileId, t.clock)
    ensures o == SyncEffect(t, pid, current, digestOf)
    ensures o.result.Synced? ==> FilesValid(o.tables.files, t.projects, o.tables.nextFileId, o.tables.clock)
    ensures o.result.Synced? ==> o.tables == t.(files := o.tables.files, nextFileId := o.tables.nextFileId, clock := o.tables.clock)
    ensures o.tables.clock >= t.clock
  {
    var now := t.clock + 1;
    var w := TrackScanned(Work(t.files, t.nextFileId, Stats(0, 0, 0, 0)), pid, now, current, digestOf);
    var kept, deleted := PruneUnscanned(w.files, pid, current);
    if Committable(kept, t.projects) {
      o := SyncOutcome(t.(files := kept, nextFileId := w.nextId, clock := now), Synced(w.stats.(deleted := deleted)));
    } else {
      o := SyncOutcome(t, SyncError);
    }
    SyncShape(t, pid, current, digestOf);
    SyncCommitsValid(t, pid, current, digestOf);
  }

  class FileTracker {
    const db: Database

    constructor(db: Database)
      ensures this.db == db
    {
      this.db := db;
    }

    /** `get_changed_files`. */
    method GetChangedFiles(project: Project, walk: seq<WalkEntry>, hashOf: string -> Option<Digest>) returns (r: seq<Change>)
      ensures r == ChangedFiles(FilesOf(db.files, project.id), Scan(project.path, walk), project.path, hashOf)
    {
      var current := ScanProjectFiles(project.path, walk);
      r := DiffFiles(FilesOf(db.files, project.id), current, project.path, hashOf);
    }

    /** `update_file_tracking`. */
    method UpdateFileTracking(project: Project, path: string, hashOf: string -> Option<Digest>, insights: Option<string>)
      returns (changed: bool)
      requires db.Valid()
      modifies db
      ensures db.Valid()
      ensures var o := UpdateTrackingEffect(old(db.State()), project.id, path, Fresh(project.path, hashOf, path), insights);
        changed == o.changed && db.State() == o.tables
    {
      var t := db.State();
      var digest := Fresh(project.path, hashOf, path);
      UpdateTrackingValid(t, project.id, path, digest, insights);
      var o := UpdateTrackingEffect(t, project.id, path, digest, insights);
      changed := false;
      if digest.Some? {
        var found := FindFile(db.files, project.id, path);
        var now := db.clock + 1;
        if found.Some? {
          var i := found.value;
          var f := db.files[i];
          if f.hash != digest.value {
            var f' := f.(hash := digest.value, lastAnalyzed := now, insights := if Given(insights) then insights else f.insights);
            db.CommitFiles(db.files[i := f'], db.nextFileId, now);
            changed := true;
          }
        } else {
          var row := FileTracked(db.nextFileId, project.id, path, digest.value, now, insights);
          if FileFits(row) && HasProject(db.projects, project.id) {
            db.CommitFiles(db.files + [row], db.nextFileId + 1, now);
            changed := true;
          }
        }
      }
    }

    /** `sync_project_files`: the session's work, then one commit or a rollback. */
    method SyncProjectFiles(project: Project, walk: seq<WalkEntry>, hashOf: string -> Option<Digest>)
      returns (result: SyncResult)
      requires db.Valid()
      modifies db
      ensures db.Valid()
      ensures var o := SyncEffect(old(db.State()), project.id, Scan(project.path, walk), DigestsUnder(project.path, hashOf));
        result == o.result && db.State() == o.tables
    {
      var current := ScanProjectFiles(project.path, walk);
      var o := SyncSession(db.State(), project.id, current, DigestsUnder(project.path, hashOf));
      result := o.result;
      if result.Synced? {
        db.CommitFiles(o.tables.files, o.tables.nextFileId, o.tables.clock);
      }
    }

    /** `get_file_insights`. */
    method GetFileInsights(project: Project, path: string) returns (r: Option<string>)
      ensures r == FileInsights(db.files, project.id, path)
    {
      var found := FindFile(db.files, project.id, path);
      r := if found.Some? then db.files[found.value].insights else None;
    }

    /** `update_file_insights`. */
    method UpdateFileInsights(project: Project, path: string, insights: string) returns (ok: bool)
      requires db.Valid()
      modifies db
      ensures db.Valid()
      ensures var o := UpdateInsightsEffect(old(db.State()), project.id, path, insights);
        ok == o.changed && db.State() == o.tables
    {
      var t := db.State();
      UpdateInsightsValid(t, project.id, path, insights);
      var found := FindFile(db.files, project.id, path);
      ok := found.Some?;
      if ok {
        var i := found.value;
        var now := db.clock + 1;
        db.CommitFiles(db.files[i := db.files[i].(insights := Some(insights), lastAnalyzed := now)], db.nextFileId, now);
      }
    }
  }
}
