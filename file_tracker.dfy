/** The file tracker: which walked files are worth tracking, the three-way
    difference between the tracked rows and the files on disk, and the sync that
    brings the rows up to date. The directory walk is given as a sequence of
    entries and the content hash as a function from a full path to an optional
    digest (`None` when the file cannot be read). */
module FileTracking {
  import opened Wrappers
  import opened Seqs
  import opened Strings
  import opened Models
  import opened Store

  const MAX_FILE_SIZE := 1024 * 1024

  const TRACKED_EXTENSIONS: set<string> := {
    ".py", ".js", ".ts", ".jsx", ".tsx", ".java", ".cpp", ".c", ".h",
    ".css", ".scss", ".html", ".vue", ".go", ".rs", ".rb", ".php",
    ".sql", ".md", ".txt", ".json", ".yaml", ".yml", ".toml", ".ini",
    ".sh", ".bat", ".ps1", ".dockerfile", ".gitignore", ".env"}

  const IGNORED_DIRS: set<string> := {
    "__pycache__", ".git", "node_modules", ".next", "dist", "build",
    ".vscode", ".idea", "venv", "env", ".env", "target", "vendor"}

  // ---------------------------------------------------------------------
  // Paths
  // ---------------------------------------------------------------------

  /** The path's components between slashes. pathlib's `parts` also drops empty
      and `.` components and spells the root `/`; none of those is an ignored name. */
  function Components(p: string): seq<string> {
    Split(p, '/', -1)
  }

  predicate IsDot(c: char) { c == '.' }

  /** pathlib's `suffix` of a final component: from its last dot, unless that dot
      is the first or the last character. */
  function Suffix(name: string): (r: string)
    ensures r != [] ==> 1 < |r| < |name| && r[0] == '.' && r == name[|name| - |r|..] && '.' !in r[1..]
    ensures r != [] ==> name[|name| - |r|] == '.'
    ensures r == [] ==> forall i :: 0 < i < |name| - 1 && name[i] == '.' ==> '.' in name[i + 1..]
  {
    match LastWhere(name, IsDot)
    case None => ""
    case Some(i) =>
      if 0 < i < |name| - 1 then
        assert forall k :: 0 <= k < |name| - i - 1 ==> name[i..][1..][k] == name[i + 1 + k];
        name[i..]
      else
        assert forall j :: 0 < j < |name| - 1 && name[j] == '.' ==> name[i] == name[j + 1..][i - j - 1];
        ""
  }

  /** `should_track_file`: an allowed (lower-cased) suffix, no ignored component,
      and a size of at most 1 MiB; `size` is `None` when `stat` fails. */
  predicate ShouldTrackFile(path: string, size: Option<nat>) {
    && Lower(Suffix(Basename(path))) in TRACKED_EXTENSIONS
    && (forall part :: part in Components(path) ==> part !in IGNORED_DIRS)
    && size.Some? && size.value <= MAX_FILE_SIZE
  }

  /** A name whose only dot is its first character has no suffix, so `.env` or
      `.gitignore` files are never tracked, whatever the allow-list says. */
  lemma DotNamesNeverTracked(path: string, size: Option<nat>)
    requires Basename(path) != [] && Basename(path)[0] == '.' && '.' !in Basename(path)[1..]
    ensures !ShouldTrackFile(path, size)
  {
    var name := Basename(path);
    assert forall i :: 0 < i < |name| ==> name[i] == name[1..][i - 1];
    NoSuffix(name);
  }

  lemma NoSuffix(name: string)
    requires forall i :: 0 < i < |name| ==> name[i] != '.'
    ensures Lower(Suffix(name)) !in TRACKED_EXTENSIONS
  {
    assert Lower([]) == [];
  }

  /** The ignore-list is checked against the whole joined path, so a project whose
      own location passes through an ignored name (say `/srv/build/app`) tracks nothing. */
  lemma IgnoredAncestorExcludesAll(root: string, rel: string, size: Option<nat>, part: string)
    requires part in Components(root) && part in IGNORED_DIRS
    requires rel == [] || rel[0] != '/'
    ensures !ShouldTrackFile(PathJoin(root, rel), size)
  {
    assert part != [];
    ComponentsOfJoin(root, rel);
    assert part in Components(PathJoin(root, rel));
  }

  /** A root ending in `/`: its components end with an empty one, which the join drops. */
  lemma ComponentsOfSlashRoot(a: string, rel: string)
    requires rel == [] || rel[0] != '/'
    ensures Components(a + ['/']) == Components(a) + [[]]
    ensures Components(PathJoin(a + ['/'], rel)) == Components(a) + Components(rel)
  {
    assert a + ['/'] == a + ['/'] + [];
    SplitConcat(a, [], '/');
    assert PathJoin(a + ['/'], rel) == a + ['/'] + rel;
    SplitConcat(a, rel, '/');
  }

  /** A root not ending in `/`: the join adds a separator. */
  lemma ComponentsOfPlainRoot(root: string, rel: string)
    requires root != [] && root[|root| - 1] != '/'
    requires rel == [] || rel[0] != '/'
    ensures Components(PathJoin(root, rel)) == Components(root) + Components(rel)
  {
    assert PathJoin(root, rel) == root + ['/'] + rel;
    SplitConcat(root, rel, '/');
  }

  /** Every non-empty component of the root is a component of a path joined onto it. */
  lemma ComponentsOfJoin(root: string, rel: string)
    requires rel == [] || rel[0] != '/'
    ensures forall part :: part in Components(root) && part != [] ==> part in Components(PathJoin(root, rel))
  {
    if root == [] {
      assert Components(root) == [[]];
    } else if root[|root| - 1] == '/' {
      var a := root[..|root| - 1];
      assert root == a + ['/'];
      ComponentsOfSlashRoot(a, rel);
    } else {
      ComponentsOfPlainRoot(root, rel);
    }
  }

  // ---------------------------------------------------------------------
  // Scanning
  // ---------------------------------------------------------------------

  /** One entry of the recursive walk: its path relative to the project root,
      whether it is a regular file, and its size (`None` when `stat` fails). */
  datatype WalkEntry = WalkEntry(path: string, isFile: bool, size: Option<nat>)

  predicate Trackable(root: string, e: WalkEntry) {
    e.isFile && ShouldTrackFile(PathJoin(root, e.path), e.size)
  }

  /** The relative paths of the trackable files, in walk order. */
  function Scan(root: string, walk: seq<WalkEntry>): (r: seq<string>)
    ensures |r| <= |walk|
  {
    if walk == [] then []
    else
      var init := walk[..|walk| - 1];
      var last := walk[|walk| - 1];
      assert walk == init + [last];
      Scan(root, init) + (if Trackable(root, last) then [last.path] else [])
  }

  lemma ScanAppend(root: string, walk: seq<WalkEntry>, e: WalkEntry)
    ensures Scan(root, walk + [e]) == Scan(root, walk) + (if Trackable(root, e) then [e.path] else [])
  {
    assert (walk + [e])[..|walk|] == walk;
  }

  lemma ScanStep(root: string, walk: seq<WalkEntry>, k: nat)
    requires k < |walk|
    ensures Scan(root, walk[..k + 1]) == Scan(root, walk[..k]) + (if Trackable(root, walk[k]) then [walk[k].path] else [])
  {
    assert walk[..k + 1] == walk[..k] + [walk[k]];
    ScanAppend(root, walk[..k], walk[k]);
  }

  /** The scan lists exactly the trackable files of the walk. */
  lemma {:induction false} ScanMembers(root: string, walk: seq<WalkEntry>)
    ensures forall p :: p in Scan(root, walk) <==> exists e :: e in walk && Trackable(root, e) && e.path == p
  {
    if walk != [] {
      var init := walk[..|walk| - 1];
      var last := walk[|walk| - 1];
      assert walk == init + [last];
      ScanMembers(root, init);
      assert forall e :: e in walk <==> e in init || e == last;
    }
  }

  // ---------------------------------------------------------------------
  // The three-way difference
  // ---------------------------------------------------------------------

  /** The digest of a project file, read through its full path. */
  function Fresh(root: string, hashOf: string -> Option<Digest>, path: string): Option<Digest> {
    hashOf(PathJoin(root, path))
  }

  datatype Change =
    | New(path: string, hash: Option<Digest>)
    | Modified(path: string, oldHash: Digest, newHash: Digest)
    | Deleted(path: string, lastHash: Digest)

  function PathSet(rows: seq<FileTracked>): set<string> {
    set r | r in rows :: r.path
  }

  /** One `new` entry per scanned path without a row (the digest may be missing). */
  function NewChanges(current: seq<string>, tracked: set<string>, root: string, hashOf: string -> Option<Digest>): (r: seq<Change>)
    ensures |r| <= |current|
  {
    if current == [] then []
    else
      var init := current[..|current| - 1];
      var p := current[|current| - 1];
      assert current == init + [p];
      NewChanges(init, tracked, root, hashOf)
      + (if p !in tracked then [New(p, Fresh(root, hashOf, p))] else [])
  }

  /** For each tracked row: `deleted` when its path was not scanned, `modified` when
      it was and a readable digest differs, nothing otherwise. */
  function RowChanges(rows: seq<FileTracked>, current: set<string>, root: string, hashOf: string -> Option<Digest>): (r: seq<Change>)
    ensures |r| <= |rows|
  {
    if rows == [] then []
    else
      var init := rows[..|rows| - 1];
      var row := rows[|rows| - 1];
      assert rows == init + [row];
      var digest := Fresh(root, hashOf, row.path);
      RowChanges(init, current, root, hashOf)
      + (if row.path !in current then [Deleted(row.path, row.hash)]
         else if digest.Some? && digest.value != row.hash then [Modified(row.path, row.hash, digest.value)]
         else [])
  }

  lemma {:induction false} NewChangesMembers(current: seq<string>, tracked: set<string>, root: string, hashOf: string -> Option<Digest>)
    ensures var r := NewChanges(current, tracked, root, hashOf);
      && (forall c :: c in r ==> c.New?)
      && (forall p, h :: New(p, h) in r <==> p in current && p !in tracked && h == Fresh(root, hashOf, p))
  {
    if current != [] {
      var init := current[..|current| - 1];
      var p := current[|current| - 1];
      assert current == init + [p];
      NewChangesMembers(init, tracked, root, hashOf);
      assert forall x :: x in current <==> x in init || x == p;
    }
  }

  lemma {:induction false} RowChangesMembers(rows: seq<FileTracked>, current: set<string>, root: string, hashOf: string -> Option<Digest>)
    ensures var r := RowChanges(rows, current, root, hashOf);
      && (forall c :: c in r ==> !c.New?)
      && (forall p, o, n :: Modified(p, o, n) in r <==>
            exists row :: row in rows && row.path == p && row.hash == o && p in current && Fresh(root, hashOf, p) == Some(n) && n != o)
      && (forall p, h :: Deleted(p, h) in r <==> exists row :: row in rows && row.path == p && row.hash == h && p !in current)
  {
    if rows != [] {
      var init := rows[..|rows| - 1];
      var row := rows[|rows| - 1];
      assert rows == init + [row];
      RowChangesMembers(init, current, root, hashOf);
      assert forall x :: x in rows <==> x in init || x == row;
    }
  }

  /** `get_changed_files` over the project's rows and the scanned paths. */
  function ChangedFiles(rows: seq<FileTracked>, current: seq<string>, root: string, hashOf: string -> Option<Digest>): seq<Change> {
    NewChanges(current, PathSet(rows), root, hashOf) + RowChanges(rows, (set p | p in current), root, hashOf)
  }

  /** The report holds exactly three groups: new = scanned minus tracked, deleted =
      tracked minus scanned, modified = tracked and scanned with a readable digest
      that differs; unchanged files and unreadable candidates are not reported. */
  lemma ChangedFilesClassify(rows: seq<FileTracked>, current: seq<string>, root: string, hashOf: string -> Option<Digest>)
    ensures var r := ChangedFiles(rows, current, root, hashOf);
      && (forall p, h :: New(p, h) in r <==> p in current && p !in PathSet(rows) && h == Fresh(root, hashOf, p))
      && (forall p, o, n :: Modified(p, o, n) in r <==>
            exists row :: row in rows && row.path == p && row.hash == o && p in current
                          && Fresh(root, hashOf, p) == Some(n) && n != o)
      && (forall p, h :: Deleted(p, h) in r <==> exists row :: row in rows && row.path == p && row.hash == h && p !in current)
  {
    var a := NewChanges(current, PathSet(rows), root, hashOf);
    var b := RowChanges(rows, (set p | p in current), root, hashOf);
    NewChangesMembers(current, PathSet(rows), root, hashOf);
    RowChangesMembers(rows, (set p | p in current), root, hashOf);
    assert forall c :: c in a + b <==> c in a || c in b;
  }

  /** The digest made of 64 copies of one hex digit. */
  function Repeated(c: char): (r: Digest)
    requires IsHexDigit(c)
    ensures |r| == 64 && forall i :: 0 <= i < 64 ==> r[i] == c
  {
    seq(64, _ => c)
  }

  const DIGEST_1 := Repeated('1')
  const DIGEST_2 := Repeated('2')
  const DIGEST_3 := Repeated('3')

  function ExampleHash(p: string): Option<Digest> {
    if p == "/p/a.py" then Some(DIGEST_1) else if p == "/p/c.py" then Some(DIGEST_3) else None
  }

  const EXAMPLE_ROWS := [FileTracked(1, 1, "a.py", DIGEST_1, 0, None), FileTracked(2, 1, "b.py", DIGEST_2, 0, None)]
  const EXAMPLE_SCAN := ["a.py", "c.py"]

  /** Tracked {a.py: 1, b.py: 2} against scanned {a.py: 1, c.py: 3}: c.py is new,
      b.py deleted, and nothing is modified. */
  lemma ChangedFilesExample()
    ensures ChangedFiles(EXAMPLE_ROWS, EXAMPLE_SCAN, "/p", ExampleHash) == [New("c.py", Some(DIGEST_3)), Deleted("b.py", DIGEST_2)]
  {
    ExampleNewChanges();
    ExampleRowChanges();
  }

  lemma ExampleNewChanges()
    ensures NewChanges(EXAMPLE_SCAN, PathSet(EXAMPLE_ROWS), "/p", ExampleHash) == [New("c.py", Some(DIGEST_3))]
  {
    var tracked := PathSet(EXAMPLE_ROWS);
    assert "a.py" in tracked && "c.py" !in tracked by {
      assert EXAMPLE_ROWS[0] in EXAMPLE_ROWS;
      assert forall r :: r in EXAMPLE_ROWS ==> r.path == "a.py" || r.path == "b.py";
    }
    assert PathJoin("/p", "c.py") == "/p/c.py";
    assert EXAMPLE_SCAN[..1] == ["a.py"] && ["a.py"][..0] == [];
    assert NewChanges(["a.py"], tracked, "/p", ExampleHash) == [];
  }

  lemma ExampleRowChanges()
    ensures RowChanges(EXAMPLE_ROWS, set p | p in EXAMPLE_SCAN, "/p", ExampleHash) == [Deleted("b.py", DIGEST_2)]
  {
    var scanned := set p | p in EXAMPLE_SCAN;
    assert "a.py" in scanned && "b.py" !in scanned;
    assert PathJoin("/p", "a.py") == "/p/a.py";
    assert EXAMPLE_ROWS[..1] == [EXAMPLE_ROWS[0]] && [EXAMPLE_ROWS[0]][..0] == [];
    assert RowChanges([EXAMPLE_ROWS[0]], scanned, "/p", ExampleHash) == [];
  }

  // ---------------------------------------------------------------------
  // One file's row
  // ---------------------------------------------------------------------

  /** The row `filter_by(project_id, path).first()` finds. */
  function FindFile(fs: seq<FileTracked>, pid: Id, path: string): (r: Option<nat>)
    ensures r.Some? ==> r.value < |fs| && fs[r.value].projectId == pid && fs[r.value].path == path
    ensures r.None? ==> forall i :: 0 <= i < |fs| ==> !(fs[i].projectId == pid && fs[i].path == path)
  {
    FirstWhere(fs, FileAt(pid, path))
  }

  /** Python's truthiness of an optional string argument. */
  predicate Given(s: Option<string>) { s.Some? && s.value != [] }

  datatype Tracked = Tracked(tables: Tables, changed: bool)

  /** `update_file_tracking` with the file's digest already read (`None` when it
      cannot be read): insert a row for an untracked path, refresh digest, time and
      (when given) insights when the digest differs, and report whether it did either. */
  function UpdateTrackingEffect(t: Tables, pid: Id, path: string, digest: Option<Digest>, insights: Option<string>): Tracked {
    var now := t.clock + 1;
    match digest
    case None => Tracked(t, false)
    case Some(h) =>
      match FindFile(t.files, pid, path)
      case Some(i) =>
        var f := t.files[i];
        if f.hash != h then
          var f' := f.(hash := h, lastAnalyzed := now, insights := if Given(insights) then insights else f.insights);
          Tracked(t.(files := t.files[i := f'], clock := now), true)
        else Tracked(t, false)
      case None =>
        var row := FileTracked(t.nextFileId, pid, path, h, now, insights);
        if FileFits(row) && HasProject(t.projects, pid) then
          Tracked(t.(files := t.files + [row], nextFileId := t.nextFileId + 1, clock := now), true)
        else Tracked(t, false)
  }

  /** The four outcomes: an unreadable file changes nothing; an untracked path gains
      exactly one row carrying the digest and the insights; a changed digest is
      recorded (insights only when given); an equal digest changes nothing, whatever
      insights are passed. */
  lemma UpdateTrackingCases(t: Tables, pid: Id, path: string, digest: Option<Digest>, insights: Option<string>)
    ensures var o := UpdateTrackingEffect(t, pid, path, digest, insights);
      && (!o.changed ==> o.tables == t)
      && (digest.None? ==> !o.changed)
      && (digest.Some? && FindFile(t.files, pid, path).None? ==>
            o.changed == (|path| <= FILE_PATH_LENGTH && HasProject(t.projects, pid))
            && (o.changed ==> o.tables.files == t.files + [FileTracked(t.nextFileId, pid, path, digest.value, t.clock + 1, insights)]))
      && (digest.Some? && FindFile(t.files, pid, path).Some? ==>
            var i := FindFile(t.files, pid, path).value;
            && o.changed == (t.files[i].hash != digest.value)
            && (o.changed ==>
                  && |o.tables.files| == |t.files|
                  && o.tables.files[i].hash == digest.value
                  && o.tables.files[i].lastAnalyzed == t.clock + 1
                  && o.tables.files[i].insights == (if Given(insights) then insights else t.files[i].insights)
                  && forall j :: 0 <= j < |t.files| && j != i ==> o.tables.files[j] == t.files[j]))
  {
  }

  /** Recording one file keeps the tables valid. */
  lemma UpdateTrackingValid(t: Tables, pid: Id, path: string, digest: Option<Digest>, insights: Option<string>)
    requires TablesValid(t)
    ensures TablesValid(UpdateTrackingEffect(t, pid, path, digest, insights).tables)
  {
    var o := UpdateTrackingEffect(t, pid, path, digest, insights);
    if o.changed {
      var now := t.clock + 1;
      assert FilesValid(o.tables.files, t.projects, o.tables.nextFileId, now) by {
        if FindFile(t.files, pid, path).Some? {
          RefreshedRowValid(t, FindFile(t.files, pid, path).value, o.tables.files);
        } else {
          InsertedRowValid(t, pid, path, o.tables.files);
        }
      }
      FilesReplacedValid(t, o.tables.files, o.tables.nextFileId, now);
      assert o.tables == t.(files := o.tables.files, nextFileId := o.tables.nextFileId, clock := now);
    }
  }

  /** Rewriting one row without touching its id, project or path keeps the file table valid. */
  lemma RefreshedRowValid(t: Tables, i: nat, fs: seq<FileTracked>)
    requires FilesValid(t.files, t.projects, t.nextFileId, t.clock)
    requires i < |t.files| && |fs| == |t.files|
    requires fs[i].id == t.files[i].id && fs[i].projectId == t.files[i].projectId && fs[i].path == t.files[i].path
    requires fs[i].lastAnalyzed <= t.clock + 1
    requires forall j :: 0 <= j < |fs| && j != i ==> fs[j] == t.files[j]
    ensures FilesValid(fs, t.projects, t.nextFileId, t.clock + 1)
  {
    assert forall j :: 0 <= j < |fs| ==> fs[j].id == t.files[j].id && fs[j].projectId == t.files[j].projectId && fs[j].path == t.files[j].path;
    assert forall j, k :: 0 <= j < k < |fs| ==> DifferentKeys(t.files[j], t.files[k]);
  }

  /** Appending a row with the next id for a path the project does not track keeps
      the file table valid. */
  lemma InsertedRowValid(t: Tables, pid: Id, path: string, fs: seq<FileTracked>)
    requires FilesValid(t.files, t.projects, t.nextFileId, t.clock)
    requires FindFile(t.files, pid, path).None?
    requires |fs| == |t.files| + 1 && fs[..|t.files|] == t.files
    requires fs[|t.files|].id == t.nextFileId && fs[|t.files|].projectId == pid && fs[|t.files|].path == path
    requires fs[|t.files|].lastAnalyzed <= t.clock + 1 && FileFits(fs[|t.files|]) && HasProject(t.projects, pid)
    ensures FilesValid(fs, t.projects, t.nextFileId + 1, t.clock + 1)
  {
    var n := |t.files|;
    assert forall j :: 0 <= j < n ==> fs[j] == t.files[j];
    forall j, k | 0 <= j < k < |fs| ensures DifferentKeys(fs[j], fs[k]) {
      if k < n {
        assert DifferentKeys(t.files[j], t.files[k]);
      }
    }
  }

  /** `get_file_insights`: the stored insights of the path's row, `None` without one. */
  function FileInsights(fs: seq<FileTracked>, pid: Id, path: string): Option<string> {
    match FindFile(fs, pid, path)
    case Some(i) => fs[i].insights
    case None => None
  }

  /** `update_file_insights`: overwrite the insights and the analysis time of a
      tracked path; an untracked path changes nothing and reports false. */
  function UpdateInsightsEffect(t: Tables, pid: Id, path: string, insights: string): Tracked {
    match FindFile(t.files, pid, path)
    case Some(i) =>
      var now := t.clock + 1;
      Tracked(t.(files := t.files[i := t.files[i].(insights := Some(insights), lastAnalyzed := now)], clock := now), true)
    case None => Tracked(t, false)
  }

  /** Insights written for a tracked path are what a later read returns; nothing else
      about the table changes, and an untracked path is left alone. */
  lemma InsightsRoundTrip(t: Tables, pid: Id, path: string, insights: string)
    ensures var o := UpdateInsightsEffect(t, pid, path, insights);
      && o.changed == FindFile(t.files, pid, path).Some?
      && (o.changed ==> FileInsights(o.tables.files, pid, path) == Some(insights))
      && (!o.changed ==> o.tables == t)
      && |o.tables.files| == |t.files|
      && (forall j :: 0 <= j < |t.files| && !(t.files[j].projectId == pid && t.files[j].path == path) ==> o.tables.files[j] == t.files[j])
  {
    var o := UpdateInsightsEffect(t, pid, path, insights);
    if o.changed {
      var i := FindFile(t.files, pid, path).value;
      var fs := o.tables.files;
      assert forall j :: 0 <= j < |fs| ==> FileAt(pid, path)(fs[j]) == FileAt(pid, path)(t.files[j]);
      assert FirstWhere(fs, FileAt(pid, path)) == Some(i) by {
        FirstWhereSameMatches(t.files, fs, FileAt(pid, path));
      }
    }
  }

  /** Updating the insights of a tracked path keeps the tables valid. */
  lemma UpdateInsightsValid(t: Tables, pid: Id, path: string, insights: string)
    requires TablesValid(t)
    ensures TablesValid(UpdateInsightsEffect(t, pid, path, insights).tables)
  {
    var o := UpdateInsightsEffect(t, pid, path, insights);
    match FindFile(t.files, pid, path)
    case Some(i) =>
      var fs := t.files[i := t.files[i].(insights := Some(insights), lastAnalyzed := t.clock + 1)];
      RefreshedRowValid(t, i, fs);
      FilesReplacedValid(t, fs, t.nextFileId, t.clock + 1);
      assert o.tables == t.(files := fs, nextFileId := t.nextFileId, clock := t.clock + 1);
    case None =>
      assert o.tables == t;
  }
}
