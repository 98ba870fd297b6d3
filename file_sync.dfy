/** `sync_project_files`: one session that first records every scanned file with a
    readable digest (insert when the project has no row for the path, update the
    digest and `last_analyzed` when it differs) and then deletes every row of the
    project whose path was not scanned, counting each case; the whole batch is
    committed at once or rolled back. `digestOf` gives the digest of a path relative
    to the project root, `None` when the file cannot be read. */
module FileSync {
  import opened Wrappers
  import opened Seqs
  import opened Models
  import opened Store

  datatype Stats = Stats(added: nat, updated: nat, unmodified: nat, deleted: nat)

  /** The returned dictionary: the four counters, or `{'error': 1}` after a rollback. */
  datatype SyncResult = Synced(stats: Stats) | SyncError

  /** The session's view of the file table while the first loop runs. */
  datatype Work = Work(files: seq<FileTracked>, nextId: Id, stats: Stats)

  function Readable(digestOf: string -> Option<Digest>): string -> bool {
    (p: string) => digestOf(p).Some?
  }

  /** One iteration of the first loop. */
  function TrackOne(w: Work, pid: Id, now: Timestamp, path: string, digestOf: string -> Option<Digest>): Work {
    match digestOf(path)
    case None => w
    case Some(h) =>
      match FirstWhere(w.files, FileAt(pid, path))
      case Some(i) =>
        if w.files[i].hash != h then
          w.(files := w.files[i := w.files[i].(hash := h, lastAnalyzed := now)],
             stats := w.stats.(updated := w.stats.updated + 1))
        else
          w.(stats := w.stats.(unmodified := w.stats.unmodified + 1))
      case None =>
        w.(files := w.files + [FileTracked(w.nextId, pid, path, h, now, None)],
           nextId := w.nextId + 1,
           stats := w.stats.(added := w.stats.added + 1))
  }

  /** The first loop over the scanned paths, in order. */
  function TrackAll(w: Work, pid: Id, now: Timestamp, paths: seq<string>, digestOf: string -> Option<Digest>): Work
    decreases |paths|
  {
    if paths == [] then w
    else TrackOne(TrackAll(w, pid, now, paths[..|paths| - 1], digestOf), pid, now, paths[|paths| - 1], digestOf)
  }

  /** A row that was there before the loop, as the loop leaves it. */
  function Touched(f: FileTracked, pid: Id, paths: seq<string>, digestOf: string -> Option<Digest>, now: Timestamp): (r: FileTracked)
    ensures r.id == f.id && r.projectId == f.projectId && r.path == f.path && r.insights == f.insights
  {
    var d := digestOf(f.path);
    if f.projectId == pid && f.path in paths && d.Some? && d.value != f.hash
    then f.(hash := d.value, lastAnalyzed := now)
    else f
  }

  /** A row the loop inserted with id `id`. */
  predicate Inserted(f: FileTracked, pid: Id, paths: seq<string>, digestOf: string -> Option<Digest>, now: Timestamp, id: Id) {
    f.path in paths && digestOf(f.path).Some? && f == FileTracked(id, pid, f.path, digestOf(f.path).value, now, None)
  }

  /** What the first loop has done to the table after seeing `paths`. */
  ghost predicate Shaped(w0: Work, w: Work, pid: Id, now: Timestamp, paths: seq<string>, digestOf: string -> Option<Digest>) {
    && |w0.files| <= |w.files|
    && w.nextId == w0.nextId + (|w.files| - |w0.files|)
    && UniqueKeys(w.files)
    && (forall i :: 0 <= i < |w0.files| ==> w.files[i] == Touched(w0.files[i], pid, paths, digestOf, now))
    && (forall i :: |w0.files| <= i < |w.files| ==> Inserted(w.files[i], pid, paths, digestOf, now, w0.nextId + (i - |w0.files|)))
    && (forall p :: p in paths && digestOf(p).Some? ==> exists i :: 0 <= i < |w.files| && w.files[i].projectId == pid && w.files[i].path == p)
  }

  lemma TrackOneStep(w0: Work, w: Work, pid: Id, now: Timestamp, init: seq<string>, p: string, digestOf: string -> Option<Digest>)
    requires UniqueKeys(w0.files)
    requires Shaped(w0, w, pid, now, init, digestOf)
    ensures Shaped(w0, TrackOne(w, pid, now, p, digestOf), pid, now, init + [p], digestOf)
  {
    if digestOf(p).None? {
      StepUnreadable(w0, w, pid, now, init, p, digestOf);
    } else if FirstWhere(w.files, FileAt(pid, p)).Some? {
      StepFound(w0, w, pid, now, init, p, digestOf, FirstWhere(w.files, FileAt(pid, p)).value);
    } else {
      StepInserted(w0, w, pid, now, init, p, digestOf);
    }
  }

  lemma StepUnreadable(w0: Work, w: Work, pid: Id, now: Timestamp, init: seq<string>, p: string, digestOf: string -> Option<Digest>)
    requires Shaped(w0, w, pid, now, init, digestOf)
    requires digestOf(p).None?
    ensures Shaped(w0, TrackOne(w, pid, now, p, digestOf), pid, now, init + [p], digestOf)
  {
    var paths := init + [p];
    assert forall x :: x in paths <==> x in init || x == p;
    forall i | 0 <= i < |w0.files| ensures w.files[i] == Touched(w0.files[i], pid, paths, digestOf, now) {
      assert Touched(w0.files[i], pid, paths, digestOf, now) == Touched(w0.files[i], pid, init, digestOf, now);
    }
  }

  lemma StepFound(w0: Work, w: Work, pid: Id, now: Timestamp, init: seq<string>, p: string, digestOf: string -> Option<Digest>, k: nat)
    requires UniqueKeys(w0.files)
    requires Shaped(w0, w, pid, now, init, digestOf)
    requires digestOf(p).Some? && FirstWhere(w.files, FileAt(pid, p)) == Some(k)
    ensures Shaped(w0, TrackOne(w, pid, now, p, digestOf), pid, now, init + [p], digestOf)
  {
    var w' := TrackOne(w, pid, now, p, digestOf);
    assert |w'.files| == |w.files| && w'.nextId == w.nextId;
    assert forall i :: 0 <= i < |w.files| ==> w'.files[i].projectId == w.files[i].projectId && w'.files[i].path == w.files[i].path;
    FoundTouched(w0, w, pid, now, init, p, digestOf, k);
    FoundInserted(w0, w, pid, now, init, p, digestOf, k);
    assert UniqueKeys(w'.files) by {
      assert forall i, j :: 0 <= i < j < |w'.files| ==> DifferentKeys(w.files[i], w.files[j]);
    }
    assert forall x :: x in init + [p] <==> x in init || x == p;
  }

  lemma FoundTouched(w0: Work, w: Work, pid: Id, now: Timestamp, init: seq<string>, p: string, digestOf: string -> Option<Digest>, k: nat)
    requires UniqueKeys(w0.files)
    requires |w0.files| <= |w.files|
    requires forall i :: 0 <= i < |w0.files| ==> w.files[i] == Touched(w0.files[i], pid, init, digestOf, now)
    requires forall i :: |w0.files| <= i < |w.files| ==> Inserted(w.files[i], pid, init, digestOf, now, w0.nextId + (i - |w0.files|))
    requires digestOf(p).Some? && FirstWhere(w.files, FileAt(pid, p)) == Some(k)
    ensures var w' := TrackOne(w, pid, now, p, digestOf);
      forall i :: 0 <= i < |w0.files| ==> w'.files[i] == Touched(w0.files[i], pid, init + [p], digestOf, now)
  {
    var paths := init + [p];
    var w' := TrackOne(w, pid, now, p, digestOf);
    assert forall x :: x in paths <==> x in init || x == p;
    assert w.files[k].projectId == pid && w.files[k].path == p;
    assert forall i :: 0 <= i < |w.files| && i != k ==> w'.files[i] == w.files[i];
    forall i | 0 <= i < |w0.files| ensures w'.files[i] == Touched(w0.files[i], pid, paths, digestOf, now) {
      if i != k {
        if i > k {
          assert DifferentKeys(w0.files[k], w0.files[i]);
        }
        assert Touched(w0.files[i], pid, paths, digestOf, now) == Touched(w0.files[i], pid, init, digestOf, now);
      }
    }
  }

  lemma FoundInserted(w0: Work, w: Work, pid: Id, now: Timestamp, init: seq<string>, p: string, digestOf: string -> Option<Digest>, k: nat)
    requires |w0.files| <= |w.files|
    requires forall i :: |w0.files| <= i < |w.files| ==> Inserted(w.files[i], pid, init, digestOf, now, w0.nextId + (i - |w0.files|))
    requires digestOf(p).Some? && FirstWhere(w.files, FileAt(pid, p)) == Some(k)
    ensures var w' := TrackOne(w, pid, now, p, digestOf);
      forall i :: |w0.files| <= i < |w'.files| ==> Inserted(w'.files[i], pid, init + [p], digestOf, now, w0.nextId + (i - |w0.files|))
  {
    var paths := init + [p];
    var w' := TrackOne(w, pid, now, p, digestOf);
    assert forall x :: x in init ==> x in paths;
    assert forall i :: 0 <= i < |w.files| && i != k ==> w'.files[i] == w.files[i];
    forall i | |w0.files| <= i < |w'.files| ensures Inserted(w'.files[i], pid, paths, digestOf, now, w0.nextId + (i - |w0.files|)) {
      assert Inserted(w.files[i], pid, init, digestOf, now, w0.nextId + (i - |w0.files|));
    }
  }

  /** A new row leaves the rows that were there before the loop as `Touched` says. */
  lemma InsertTouched(w0: Work, w: Work, pid: Id, now: Timestamp, init: seq<string>, p: string, digestOf: string -> Option<Digest>)
    requires |w0.files| <= |w.files|
    requires forall i :: 0 <= i < |w0.files| ==> w.files[i] == Touched(w0.files[i], pid, init, digestOf, now)
    requires digestOf(p).Some? && FirstWhere(w.files, FileAt(pid, p)).None?
    ensures var w' := TrackOne(w, pid, now, p, digestOf);
      |w.files| <= |w'.files| && forall i :: 0 <= i < |w0.files| ==> w'.files[i] == Touched(w0.files[i], pid, init + [p], digestOf, now)
  {
    var paths := init + [p];
    var w' := TrackOne(w, pid, now, p, digestOf);
    assert w'.files == w.files + [FileTracked(w.nextId, pid, p, digestOf(p).value, now, None)];
    forall i | 0 <= i < |w0.files| ensures w'.files[i] == Touched(w0.files[i], pid, paths, digestOf, now) {
      assert !FileAt(pid, p)(w.files[i]);
      assert w.files[i].projectId == w0.files[i].projectId && w.files[i].path == w0.files[i].path;
      assert w0.files[i].path in paths <==> w0.files[i].path in init || w0.files[i].path == p;
    }
  }

  /** A new row keeps the rows the loop appended earlier, and is one of them itself. */
  lemma InsertInserted(w0: Work, w: Work, pid: Id, now: Timestamp, init: seq<string>, p: string, digestOf: string -> Option<Digest>)
    requires |w0.files| <= |w.files| && w.nextId == w0.nextId + (|w.files| - |w0.files|)
    requires forall i :: |w0.files| <= i < |w.files| ==> Inserted(w.files[i], pid, init, digestOf, now, w0.nextId + (i - |w0.files|))
    requires digestOf(p).Some? && FirstWhere(w.files, FileAt(pid, p)).None?
    ensures var w' := TrackOne(w, pid, now, p, digestOf);
      forall i :: |w0.files| <= i < |w'.files| ==> Inserted(w'.files[i], pid, init + [p], digestOf, now, w0.nextId + (i - |w0.files|))
  {
    var paths := init + [p];
    var w' := TrackOne(w, pid, now, p, digestOf);
    var n0 := |w0.files|;
    assert w'.files == w.files + [FileTracked(w.nextId, pid, p, digestOf(p).value, now, None)];
    forall i | n0 <= i < |w'.files| ensures Inserted(w'.files[i], pid, paths, digestOf, now, w0.nextId + (i - n0)) {
      if i < |w.files| {
        assert Inserted(w.files[i], pid, init, digestOf, now, w0.nextId + (i - n0));
        assert w.files[i].path in init;
      }
    }
  }

  /** A path the project has no row for can be appended without breaking unique keys. */
  lemma InsertUnique(w: Work, pid: Id, now: Timestamp, p: string, digestOf: string -> Option<Digest>)
    requires UniqueKeys(w.files)
    requires digestOf(p).Some? && FirstWhere(w.files, FileAt(pid, p)).None?
    ensures UniqueKeys(TrackOne(w, pid, now, p, digestOf).files)
  {
    var row := FileTracked(w.nextId, pid, p, digestOf(p).value, now, None);
    var fs := w.files + [row];
    assert TrackOne(w, pid, now, p, digestOf).files == fs;
    forall i, j | 0 <= i < j < |fs| ensures DifferentKeys(fs[i], fs[j]) {
      if j == |w.files| {
        assert !FileAt(pid, p)(w.files[i]);
      } else {
        assert fs[i] == w.files[i] && fs[j] == w.files[j];
      }
    }
  }

  lemma StepInserted(w0: Work, w: Work, pid: Id, now: Timestamp, init: seq<string>, p: string, digestOf: string -> Option<Digest>)
    requires Shaped(w0, w, pid, now, init, digestOf)
    requires digestOf(p).Some? && FirstWhere(w.files, FileAt(pid, p)).None?
    ensures Shaped(w0, TrackOne(w, pid, now, p, digestOf), pid, now, init + [p], digestOf)
  {
    var paths := init + [p];
    var w' := TrackOne(w, pid, now, p, digestOf);
    InsertTouched(w0, w, pid, now, init, p, digestOf);
    InsertInserted(w0, w, pid, now, init, p, digestOf);
    InsertUnique(w, pid, now, p, digestOf);
    assert |w'.files| == |w.files| + 1 && w'.nextId == w.nextId + 1;
    assert w'.files[|w.files|].projectId == pid && w'.files[|w.files|].path == p;
    forall q | q in paths && digestOf(q).Some?
      ensures exists i :: 0 <= i < |w'.files| && w'.files[i].projectId == pid && w'.files[i].path == q
    {
      if q != p {
        assert q in init;
        var i :| 0 <= i < |w.files| && w.files[i].projectId == pid && w.files[i].path == q;
        assert w'.files[i] == w.files[i];
      }
    }
  }

  /** The shape the first loop leaves the table in, from any starting table whose
      keys are unique. */
  lemma {:induction false} TrackAllShape(w0: Work, pid: Id, now: Timestamp, paths: seq<string>, digestOf: string -> Option<Digest>)
    requires UniqueKeys(w0.files)
    ensures Shaped(w0, TrackAll(w0, pid, now, paths, digestOf), pid, now, paths, digestOf)
    decreases |paths|
  {
    if paths == [] {
      forall i | 0 <= i < |w0.files| ensures w0.files[i] == Touched(w0.files[i], pid, paths, digestOf, now) { }
    } else {
      var init := paths[..|paths| - 1];
      var p := paths[|paths| - 1];
      assert paths == init + [p];
      TrackAllShape(w0, pid, now, init, digestOf);
      TrackOneStep(w0, TrackAll(w0, pid, now, init, digestOf), pid, now, init, p, digestOf);
    }
  }

  /** One step counts a readable path once and an unreadable one not at all. */
  lemma TrackOneCounts(w: Work, pid: Id, now: Timestamp, p: string, digestOf: string -> Option<Digest>)
    ensures var w' := TrackOne(w, pid, now, p, digestOf);
      && w'.stats.added + w'.stats.updated + w'.stats.unmodified
         == w.stats.added + w.stats.updated + w.stats.unmodified + (if digestOf(p).Some? then 1 else 0)
      && |w.files| <= |w'.files|
      && w'.stats.added == w.stats.added + (|w'.files| - |w.files|)
      && w'.stats.deleted == w.stats.deleted
  {
  }

  /** Each readable scanned path is counted exactly once, as new, updated or unchanged,
      and the `new` counter is the number of rows appended. */
  lemma {:induction false} TrackAllCounts(w0: Work, pid: Id, now: Timestamp, paths: seq<string>, digestOf: string -> Option<Digest>)
    ensures var w := TrackAll(w0, pid, now, paths, digestOf);
      && w.stats.added + w.stats.updated + w.stats.unmodified
         == w0.stats.added + w0.stats.updated + w0.stats.unmodified + |Filter(paths, Readable(digestOf))|
      && |w0.files| <= |w.files|
      && w.stats.added == w0.stats.added + (|w.files| - |w0.files|)
      && w.stats.deleted == w0.stats.deleted
    decreases |paths|
  {
    if paths != [] {
      var init := paths[..|paths| - 1];
      var p := paths[|paths| - 1];
      assert paths == init + [p];
      TrackAllCounts(w0, pid, now, init, digestOf);
      TrackOneCounts(TrackAll(w0, pid, now, init, digestOf), pid, now, p, digestOf);
      FilterAppend(init, p, Readable(digestOf));
      assert Readable(digestOf)(p) == digestOf(p).Some?;
    }
  }

  // ---------------------------------------------------------------------
  // The second loop and the commit
  // ---------------------------------------------------------------------

  /** Rows the second loop keeps: other projects' rows and rows whose path was scanned. */
  function Keep(pid: Id, paths: seq<string>): FileTracked -> bool {
    (f: FileTracked) => f.projectId != pid || f.path in paths
  }

  /** Rows the second loop deletes and counts. */
  function Stale(pid: Id, paths: seq<string>): FileTracked -> bool {
    (f: FileTracked) => f.projectId == pid && f.path !in paths
  }

  /** The commit succeeds when every row fits its columns and names an existing project. */
  predicate Committable(rows: seq<FileTracked>, ps: seq<Project>) {
    forall i :: 0 <= i < |rows| ==> FileFits(rows[i]) && HasProject(ps, rows[i].projectId)
  }

  datatype SyncOutcome = SyncOutcome(tables: Tables, result: SyncResult)

  /** The whole of `sync_project_files` for the scanned `paths`; all writes of the
      session share one commit time. */
  function SyncEffect(t: Tables, pid: Id, paths: seq<string>, digestOf: string -> Option<Digest>): SyncOutcome {
    var now := t.clock + 1;
    var w := TrackAll(Work(t.files, t.nextFileId, Stats(0, 0, 0, 0)), pid, now, paths, digestOf);
    var kept := Filter(w.files, Keep(pid, paths));
    var deleted := |Filter(w.files, Stale(pid, paths))|;
    if Committable(kept, t.projects) then
      SyncOutcome(t.(files := kept, nextFileId := w.nextId, clock := now), Synced(w.stats.(deleted := deleted)))
    else
      SyncOutcome(t, SyncError)
  }

  /** The rows that were there before the first loop, as it leaves them. */
  lemma TrackAllKeepsOld(w0: Work, pid: Id, now: Timestamp, paths: seq<string>, digestOf: string -> Option<Digest>)
    requires UniqueKeys(w0.files)
    ensures var w := TrackAll(w0, pid, now, paths, digestOf);
      && |w0.files| <= |w.files|
      && forall i :: 0 <= i < |w0.files| ==> w.files[i] == Touched(w0.files[i], pid, paths, digestOf, now)
  {
    TrackAllShape(w0, pid, now, paths, digestOf);
  }

  /** The rows the first loop appends, with consecutive ids. */
  lemma TrackAllAdds(w0: Work, pid: Id, now: Timestamp, paths: seq<string>, digestOf: string -> Option<Digest>)
    requires UniqueKeys(w0.files)
    ensures var w := TrackAll(w0, pid, now, paths, digestOf);
      && |w0.files| <= |w.files|
      && w.nextId == w0.nextId + (|w.files| - |w0.files|)
      && forall i :: |w0.files| <= i < |w.files| ==> Inserted(w.files[i], pid, paths, digestOf, now, w0.nextId + (i - |w0.files|))
  {
    TrackAllShape(w0, pid, now, paths, digestOf);
  }

  /** Every readable scanned path has a row of the project after the first loop. */
  lemma TrackAllCovers(w0: Work, pid: Id, now: Timestamp, paths: seq<string>, digestOf: string -> Option<Digest>, q: string)
    requires UniqueKeys(w0.files)
    requires q in paths && digestOf(q).Some?
    ensures Tracks(TrackAll(w0, pid, now, paths, digestOf).files, pid, q)
  {
    var w := TrackAll(w0, pid, now, paths, digestOf);
    TrackAllShape(w0, pid, now, paths, digestOf);
    var i :| 0 <= i < |w.files| && w.files[i].projectId == pid && w.files[i].path == q;
    assert w.files[i] in w.files;
  }

  /** The rows of the project that the first loop did not touch are the stale rows of
      the original table. */
  lemma StaleRowsUntouched(t: Tables, pid: Id, paths: seq<string>, digestOf: string -> Option<Digest>)
    requires UniqueKeys(t.files)
    ensures var w := TrackAll(Work(t.files, t.nextFileId, Stats(0, 0, 0, 0)), pid, t.clock + 1, paths, digestOf);
      Filter(w.files, Stale(pid, paths)) == Filter(t.files, Stale(pid, paths))
  {
    var w0 := Work(t.files, t.nextFileId, Stats(0, 0, 0, 0));
    var w := TrackAll(w0, pid, t.clock + 1, paths, digestOf);
    TrackAllKeepsOld(w0, pid, t.clock + 1, paths, digestOf);
    TrackAllAdds(w0, pid, t.clock + 1, paths, digestOf);
    var n0 := |t.files|;
    assert w.files == w.files[..n0] + w.files[n0..];
    FilterConcat(w.files[..n0], w.files[n0..], Stale(pid, paths));
    FilterAgree(w.files[..n0], t.files, Stale(pid, paths));
    FilterAllOrNone(w.files[n0..], Stale(pid, paths));
  }

  /** The counters: every readable scanned path is counted once as new, updated or
      unchanged, and `deleted` is the number of the project's rows whose path was not
      scanned; a failed commit leaves the tables as they were. */
  lemma SyncCounts(t: Tables, pid: Id, paths: seq<string>, digestOf: string -> Option<Digest>)
    requires UniqueKeys(t.files)
    ensures var o := SyncEffect(t, pid, paths, digestOf);
      && (o.result.SyncError? ==> o.tables == t)
      && (o.result.Synced? ==>
            && o.result.stats.added + o.result.stats.updated + o.result.stats.unmodified == |Filter(paths, Readable(digestOf))|
            && o.result.stats.deleted == |Filter(t.files, Stale(pid, paths))|
            && o.result.stats.added == o.tables.nextFileId - t.nextFileId)
  {
    var w0 := Work(t.files, t.nextFileId, Stats(0, 0, 0, 0));
    TrackAllCounts(w0, pid, t.clock + 1, paths, digestOf);
    TrackAllAdds(w0, pid, t.clock + 1, paths, digestOf);
    StaleRowsUntouched(t, pid, paths, digestOf);
  }

  /** The project has a row for `path`. */
  predicate Tracks(fs: seq<FileTracked>, pid: Id, path: string) {
    exists f :: f in fs && f.projectId == pid && f.path == path
  }

  /** What one row of the synced table can be. */
  lemma SyncedRow(t: Tables, pid: Id, paths: seq<string>, digestOf: string -> Option<Digest>, f: FileTracked)
    requires UniqueKeys(t.files)
    requires var w := TrackAll(Work(t.files, t.nextFileId, Stats(0, 0, 0, 0)), pid, t.clock + 1, paths, digestOf);
      f in Filter(w.files, Keep(pid, paths))
    ensures f.projectId == pid ==> f.path in paths
    ensures f.projectId == pid ==> digestOf(f.path).Some? || Tracks(t.files, pid, f.path)
    ensures f.projectId == pid && digestOf(f.path).Some? ==> f.hash == digestOf(f.path).value
    ensures f.projectId != pid || digestOf(f.path).None? ==> f in t.files
  {
    var w0 := Work(t.files, t.nextFileId, Stats(0, 0, 0, 0));
    var w := TrackAll(w0, pid, t.clock + 1, paths, digestOf);
    TrackAllKeepsOld(w0, pid, t.clock + 1, paths, digestOf);
    TrackAllAdds(w0, pid, t.clock + 1, paths, digestOf);
    var kept := Filter(w.files, Keep(pid, paths));
    var k :| 0 <= k < |kept| && kept[k] == f;
    assert f in w.files && Keep(pid, paths)(f);
    var i :| 0 <= i < |w.files| && w.files[i] == f;
    if i < |t.files| {
      assert f == Touched(t.files[i], pid, paths, digestOf, t.clock + 1);
      assert t.files[i] in t.files;
    } else {
      assert Inserted(f, pid, paths, digestOf, t.clock + 1, t.nextFileId + (i - |t.files|));
    }
  }

  /** A readable scanned path is tracked after the first loop's rows are pruned. */
  lemma ReadablePathKept(t: Tables, pid: Id, paths: seq<string>, digestOf: string -> Option<Digest>, q: string)
    requires UniqueKeys(t.files)
    requires q in paths && digestOf(q).Some?
    ensures var w := TrackAll(Work(t.files, t.nextFileId, Stats(0, 0, 0, 0)), pid, t.clock + 1, paths, digestOf);
      Tracks(Filter(w.files, Keep(pid, paths)), pid, q)
  {
    var w0 := Work(t.files, t.nextFileId, Stats(0, 0, 0, 0));
    var w := TrackAll(w0, pid, t.clock + 1, paths, digestOf);
    TrackAllCovers(w0, pid, t.clock + 1, paths, digestOf, q);
    var f :| f in w.files && f.projectId == pid && f.path == q;
    var i :| 0 <= i < |w.files| && w.files[i] == f;
    assert Keep(pid, paths)(w.files[i]);
  }

  /** A scanned path the project already tracked is still tracked. */
  lemma TrackedPathKept(t: Tables, pid: Id, paths: seq<string>, digestOf: string -> Option<Digest>, q: string)
    requires UniqueKeys(t.files)
    requires q in paths && Tracks(t.files, pid, q)
    ensures var w := TrackAll(Work(t.files, t.nextFileId, Stats(0, 0, 0, 0)), pid, t.clock + 1, paths, digestOf);
      Tracks(Filter(w.files, Keep(pid, paths)), pid, q)
  {
    var w0 := Work(t.files, t.nextFileId, Stats(0, 0, 0, 0));
    var w := TrackAll(w0, pid, t.clock + 1, paths, digestOf);
    TrackAllKeepsOld(w0, pid, t.clock + 1, paths, digestOf);
    var f :| f in t.files && f.projectId == pid && f.path == q;
    var j :| 0 <= j < |t.files| && t.files[j] == f;
    assert w.files[j] == Touched(f, pid, paths, digestOf, t.clock + 1);
    assert Keep(pid, paths)(w.files[j]);
  }

  /** Whether one path is tracked after a sync. */
  lemma SyncTracksPath(t: Tables, pid: Id, paths: seq<string>, digestOf: string -> Option<Digest>, q: string)
    requires UniqueKeys(t.files)
    requires SyncEffect(t, pid, paths, digestOf).result.Synced?
    ensures Tracks(SyncEffect(t, pid, paths, digestOf).tables.files, pid, q)
        <==> q in paths && (digestOf(q).Some? || Tracks(t.files, pid, q))
  {
    var w := TrackAll(Work(t.files, t.nextFileId, Stats(0, 0, 0, 0)), pid, t.clock + 1, paths, digestOf);
    var kept := Filter(w.files, Keep(pid, paths));
    assert SyncEffect(t, pid, paths, digestOf).tables.files == kept;
    if Tracks(kept, pid, q) {
      var f :| f in kept && f.projectId == pid && f.path == q;
      SyncedRow(t, pid, paths, digestOf, f);
    }
    if q in paths && digestOf(q).Some? {
      ReadablePathKept(t, pid, paths, digestOf, q);
    }
    if q in paths && Tracks(t.files, pid, q) {
      TrackedPathKept(t, pid, paths, digestOf, q);
    }
  }

  /** After a sync the project tracks exactly the scanned paths that were tracked
      before or could be read; every readable one carries its current digest, and the
      row of an unreadable file is the row it had before. */
  lemma SyncTracked(t: Tables, pid: Id, paths: seq<string>, digestOf: string -> Option<Digest>)
    requires UniqueKeys(t.files)
    requires SyncEffect(t, pid, paths, digestOf).result.Synced?
    ensures var t' := SyncEffect(t, pid, paths, digestOf).tables;
      && (forall q :: Tracks(t'.files, pid, q) <==> q in paths && (digestOf(q).Some? || Tracks(t.files, pid, q)))
      && (forall f :: f in t'.files && f.projectId == pid && digestOf(f.path).Some? ==> f.hash == digestOf(f.path).value)
      && (forall f :: f in t'.files && f.projectId == pid && digestOf(f.path).None? ==> f in t.files)
  {
    var t' := SyncEffect(t, pid, paths, digestOf).tables;
    forall q ensures Tracks(t'.files, pid, q) <==> q in paths && (digestOf(q).Some? || Tracks(t.files, pid, q)) {
      SyncTracksPath(t, pid, paths, digestOf, q);
    }
    forall f | f in t'.files {
      SyncedRow(t, pid, paths, digestOf, f);
    }
  }

  /** The rows that were there before the loop: another project's rows are untouched. */
  lemma OldRowsOfOthers(w0: Work, pid: Id, now: Timestamp, paths: seq<string>, digestOf: string -> Option<Digest>, other: Id)
    requires UniqueKeys(w0.files) && other != pid
    ensures var w := TrackAll(w0, pid, now, paths, digestOf);
      |w0.files| <= |w.files| && Filter(w.files[..|w0.files|], FileOfProject(other)) == Filter(w0.files, FileOfProject(other))
  {
    var w := TrackAll(w0, pid, now, paths, digestOf);
    TrackAllKeepsOld(w0, pid, now, paths, digestOf);
    var before := w.files[..|w0.files|];
    forall i | 0 <= i < |before| && (FileOfProject(other)(before[i]) || FileOfProject(other)(w0.files[i]))
      ensures before[i] == w0.files[i]
    {
      assert before[i] == Touched(w0.files[i], pid, paths, digestOf, now);
    }
    FilterAgree(before, w0.files, FileOfProject(other));
  }

  /** The rows the loop appends all belong to the synced project. */
  lemma AddedRowsOfOthers(w0: Work, pid: Id, now: Timestamp, paths: seq<string>, digestOf: string -> Option<Digest>, other: Id)
    requires UniqueKeys(w0.files) && other != pid
    ensures var w := TrackAll(w0, pid, now, paths, digestOf);
      |w0.files| <= |w.files| && Filter(w.files[|w0.files|..], FileOfProject(other)) == []
  {
    var w := TrackAll(w0, pid, now, paths, digestOf);
    TrackAllAdds(w0, pid, now, paths, digestOf);
    var n0 := |w0.files|;
    var added := w.files[n0..];
    forall i | 0 <= i < |added| ensures !FileOfProject(other)(added[i]) {
      assert added[i] == w.files[n0 + i];
      assert Inserted(w.files[n0 + i], pid, paths, digestOf, now, w0.nextId + i);
    }
    FilterAllOrNone(added, FileOfProject(other));
  }

  /** The first loop leaves every other project's rows as they were. */
  lemma TrackAllOthers(w0: Work, pid: Id, now: Timestamp, paths: seq<string>, digestOf: string -> Option<Digest>, other: Id)
    requires UniqueKeys(w0.files) && other != pid
    ensures Filter(TrackAll(w0, pid, now, paths, digestOf).files, FileOfProject(other)) == Filter(w0.files, FileOfProject(other))
  {
    var w := TrackAll(w0, pid, now, paths, digestOf);
    OldRowsOfOthers(w0, pid, now, paths, digestOf, other);
    AddedRowsOfOthers(w0, pid, now, paths, digestOf, other);
    var n0 := |w0.files|;
    assert w.files == w.files[..n0] + w.files[n0..];
    FilterConcat(w.files[..n0], w.files[n0..], FileOfProject(other));
  }

  /** A sync leaves every other project's rows as they were. */
  lemma SyncOtherProjects(t: Tables, pid: Id, paths: seq<string>, digestOf: string -> Option<Digest>, other: Id)
    requires UniqueKeys(t.files) && other != pid
    ensures FilesOf(SyncEffect(t, pid, paths, digestOf).tables.files, other) == FilesOf(t.files, other)
  {
    var w0 := Work(t.files, t.nextFileId, Stats(0, 0, 0, 0));
    var w := TrackAll(w0, pid, t.clock + 1, paths, digestOf);
    var mine := FileOfProject(other);
    var o := SyncEffect(t, pid, paths, digestOf);
    if o.result.Synced? {
      assert o.tables.files == Filter(w.files, Keep(pid, paths));
      forall i | 0 <= i < |w.files| && mine(w.files[i]) ensures Keep(pid, paths)(w.files[i]) { }
      FilterFilter(w.files, Keep(pid, paths), mine);
      TrackAllOthers(w0, pid, t.clock + 1, paths, digestOf, other);
    } else {
      assert o.tables == t;
    }
  }

  function FileId(f: FileTracked): int { f.id }

  /** Every row after the first loop has an id below the next id and was analysed
      no later than the sync. */
  lemma TrackAllIdsBelow(t: Tables, pid: Id, paths: seq<string>, digestOf: string -> Option<Digest>)
    requires FilesValid(t.files, t.projects, t.nextFileId, t.clock)
    ensures var w := TrackAll(Work(t.files, t.nextFileId, Stats(0, 0, 0, 0)), pid, t.clock + 1, paths, digestOf);
      && t.nextFileId <= w.nextId
      && (forall i :: 0 <= i < |w.files| ==> 0 < w.files[i].id < w.nextId && w.files[i].lastAnalyzed <= t.clock + 1)
  {
    var w0 := Work(t.files, t.nextFileId, Stats(0, 0, 0, 0));
    var w := TrackAll(w0, pid, t.clock + 1, paths, digestOf);
    TrackAllKeepsOld(w0, pid, t.clock + 1, paths, digestOf);
    TrackAllAdds(w0, pid, t.clock + 1, paths, digestOf);
    var n0 := |t.files|;
    forall i | 0 <= i < |w.files| ensures 0 < w.files[i].id < w.nextId && w.files[i].lastAnalyzed <= t.clock + 1 {
      if i < n0 {
        assert w.files[i] == Touched(t.files[i], pid, paths, digestOf, t.clock + 1);
      } else {
        assert Inserted(w.files[i], pid, paths, digestOf, t.clock + 1, t.nextFileId + (i - n0));
      }
    }
  }

  /** The first loop keeps ids increasing along the table. */
  lemma TrackAllIdsIncreasing(t: Tables, pid: Id, paths: seq<string>, digestOf: string -> Option<Digest>)
    requires FilesValid(t.files, t.projects, t.nextFileId, t.clock)
    ensures Increasing(TrackAll(Work(t.files, t.nextFileId, Stats(0, 0, 0, 0)), pid, t.clock + 1, paths, digestOf).files, FileId)
  {
    var w0 := Work(t.files, t.nextFileId, Stats(0, 0, 0, 0));
    var w := TrackAll(w0, pid, t.clock + 1, paths, digestOf);
    TrackAllKeepsOld(w0, pid, t.clock + 1, paths, digestOf);
    TrackAllAdds(w0, pid, t.clock + 1, paths, digestOf);
    var n0 := |t.files|;
    forall i, j | 0 <= i < j < |w.files| ensures FileId(w.files[i]) < FileId(w.files[j]) {
      if j < n0 {
        assert w.files[i].id == t.files[i].id && w.files[j].id == t.files[j].id;
      } else if i < n0 {
        assert w.files[i].id == t.files[i].id;
        assert Inserted(w.files[j], pid, paths, digestOf, t.clock + 1, t.nextFileId + (j - n0));
      } else {
        assert Inserted(w.files[i], pid, paths, digestOf, t.clock + 1, t.nextFileId + (i - n0));
        assert Inserted(w.files[j], pid, paths, digestOf, t.clock + 1, t.nextFileId + (j - n0));
      }
    }
  }

  /** The first loop keeps (project, path) keys unique. */
  lemma TrackAllUnique(w0: Work, pid: Id, now: Timestamp, paths: seq<string>, digestOf: string -> Option<Digest>)
    requires UniqueKeys(w0.files)
    ensures UniqueKeys(TrackAll(w0, pid, now, paths, digestOf).files)
  {
    TrackAllShape(w0, pid, now, paths, digestOf);
  }

  lemma TrackAllRows(t: Tables, pid: Id, paths: seq<string>, digestOf: string -> Option<Digest>)
    requires FilesValid(t.files, t.projects, t.nextFileId, t.clock)
    ensures var w := TrackAll(Work(t.files, t.nextFileId, Stats(0, 0, 0, 0)), pid, t.clock + 1, paths, digestOf);
      && t.nextFileId <= w.nextId
      && UniqueKeys(w.files)
      && Increasing(w.files, FileId)
      && (forall i :: 0 <= i < |w.files| ==> 0 < w.files[i].id < w.nextId && w.files[i].lastAnalyzed <= t.clock + 1)
  {
    TrackAllIdsBelow(t, pid, paths, digestOf);
    TrackAllIdsIncreasing(t, pid, paths, digestOf);
    TrackAllUnique(Work(t.files, t.nextFileId, Stats(0, 0, 0, 0)), pid, t.clock + 1, paths, digestOf);
  }

  /** Any committable selection of rows with unique keys, increasing ids and ids and
      times in bounds is a valid file table. */
  lemma FilterRowsValid(fs: seq<FileTracked>, p: FileTracked -> bool, ps: seq<Project>, next: Id, clock: Timestamp)
    requires 0 < next && UniqueKeys(fs) && Increasing(fs, FileId)
    requires forall f :: f in fs ==> 0 < f.id < next && f.lastAnalyzed <= clock
    requires Committable(Filter(fs, p), ps)
    ensures FilesValid(Filter(fs, p), ps, next, clock)
  {
    var kept := Filter(fs, p);
    assert UniqueKeys(kept) by {
      FilterKeepsPairwise(fs, p, DifferentKeys);
    }
    assert forall i, j :: 0 <= i < j < |kept| ==> kept[i].id < kept[j].id by {
      FilterKeepsIncreasing(fs, p, FileId);
      forall i, j | 0 <= i < j < |kept| ensures kept[i].id < kept[j].id {
        assert FileId(kept[i]) < FileId(kept[j]);
      }
    }
    forall i | 0 <= i < |kept| ensures 0 < kept[i].id < next && kept[i].lastAnalyzed <= clock {
      assert kept[i] in fs;
    }
  }

  /** The rows a sync commits form a valid file table. */
  lemma KeptValid(t: Tables, pid: Id, paths: seq<string>, digestOf: string -> Option<Digest>)
    requires FilesValid(t.files, t.projects, t.nextFileId, t.clock)
    ensures var w := TrackAll(Work(t.files, t.nextFileId, Stats(0, 0, 0, 0)), pid, t.clock + 1, paths, digestOf);
      var kept := Filter(w.files, Keep(pid, paths));
      Committable(kept, t.projects) ==> FilesValid(kept, t.projects, w.nextId, t.clock + 1)
  {
    var w := TrackAll(Work(t.files, t.nextFileId, Stats(0, 0, 0, 0)), pid, t.clock + 1, paths, digestOf);
    if Committable(Filter(w.files, Keep(pid, paths)), t.projects) {
      TrackAllRows(t, pid, paths, digestOf);
      forall f | f in w.files ensures 0 < f.id < w.nextId && f.lastAnalyzed <= t.clock + 1 {
        var i :| 0 <= i < |w.files| && w.files[i] == f;
      }
      FilterRowsValid(w.files, Keep(pid, paths), t.projects, w.nextId, t.clock + 1);
    }
  }

  /** A committed sync replaces only the file table, its id counter and the clock;
      a refused one leaves the tables as they were. */
  lemma SyncShape(t: Tables, pid: Id, paths: seq<string>, digestOf: string -> Option<Digest>)
    ensures var o := SyncEffect(t, pid, paths, digestOf);
      && (o.result.Synced? ==> o.tables == t.(files := o.tables.files, nextFileId := o.tables.nextFileId, clock := t.clock + 1))
      && (o.result.SyncError? ==> o.tables == t)
  {
  }

  /** What a committed sync writes is a valid file table. */
  lemma SyncCommitsValid(t: Tables, pid: Id, paths: seq<string>, digestOf: string -> Option<Digest>)
    requires FilesValid(t.files, t.projects, t.nextFileId, t.clock)
    ensures var o := SyncEffect(t, pid, paths, digestOf);
      o.result.Synced? ==> FilesValid(o.tables.files, t.projects, o.tables.nextFileId, t.clock + 1)
  {
    KeptValid(t, pid, paths, digestOf);
  }

  /** A sync keeps the tables valid, unique (project, path) keys included. */
  lemma SyncValid(t: Tables, pid: Id, paths: seq<string>, digestOf: string -> Option<Digest>)
    requires TablesValid(t)
    ensures TablesValid(SyncEffect(t, pid, paths, digestOf).tables)
  {
    var o := SyncEffect(t, pid, paths, digestOf);
    SyncShape(t, pid, paths, digestOf);
    SyncCommitsValid(t, pid, paths, digestOf);
    if o.result.Synced? {
      FilesReplacedValid(t, o.tables.files, o.tables.nextFileId, t.clock + 1);
    }
  }

  /** When every readable path already has a row with its current digest, the first
      loop only counts them as unchanged. */
  lemma {:induction false} TrackAllStable(w: Work, pid: Id, now: Timestamp, paths: seq<string>, digestOf: string -> Option<Digest>)
    requires forall q :: q in paths && digestOf(q).Some? ==> Tracks(w.files, pid, q)
    requires forall f :: f in w.files && f.projectId == pid && digestOf(f.path).Some? ==> f.hash == digestOf(f.path).value
    ensures TrackAll(w, pid, now, paths, digestOf)
      == w.(stats := w.stats.(unmodified := w.stats.unmodified + |Filter(paths, Readable(digestOf))|))
    decreases |paths|
  {
    if paths != [] {
      var init := paths[..|paths| - 1];
      var p := paths[|paths| - 1];
      assert paths == init + [p];
      TrackAllStable(w, pid, now, init, digestOf);
      FilterAppend(init, p, Readable(digestOf));
      if digestOf(p).Some? {
        var f :| f in w.files && f.projectId == pid && f.path == p;
        var j :| 0 <= j < |w.files| && w.files[j] == f;
        assert FileAt(pid, p)(w.files[j]);
        var k := FirstWhere(w.files, FileAt(pid, p)).value;
        assert w.files[k] in w.files;
      }
    }
  }

  /** A second sync with nothing changed on disk reports no new, updated or deleted
      file, counts every readable file as unchanged and leaves the rows as they were. */
  lemma SyncIdempotent(t: Tables, pid: Id, paths: seq<string>, digestOf: string -> Option<Digest>)
    requires UniqueKeys(t.files)
    requires SyncEffect(t, pid, paths, digestOf).result.Synced?
    ensures var t1 := SyncEffect(t, pid, paths, digestOf).tables;
      var o2 := SyncEffect(t1, pid, paths, digestOf);
      && o2.result == Synced(Stats(0, 0, |Filter(paths, Readable(digestOf))|, 0))
      && o2.tables.files == t1.files
  {
    var t1 := SyncEffect(t, pid, paths, digestOf).tables;
    var w1 := TrackAll(Work(t.files, t.nextFileId, Stats(0, 0, 0, 0)), pid, t.clock + 1, paths, digestOf);
    assert t1.files == Filter(w1.files, Keep(pid, paths)) && Committable(t1.files, t.projects);
    assert t1.projects == t.projects;
    SyncTracked(t, pid, paths, digestOf);
    var w0 := Work(t1.files, t1.nextFileId, Stats(0, 0, 0, 0));
    TrackAllStable(w0, pid, t1.clock + 1, paths, digestOf);
    forall i | 0 <= i < |t1.files| ensures Keep(pid, paths)(t1.files[i]) && !Stale(pid, paths)(t1.files[i]) {
      var f := t1.files[i];
      if f.projectId == pid {
        assert Tracks(t1.files, pid, f.path);
      }
    }
    FilterAllOrNone(t1.files, Keep(pid, paths));
    FilterAllOrNone(t1.files, Stale(pid, paths));
  }
}
