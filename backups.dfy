/** Backups of files about to be edited: each copy is named
    `<YYYYmmdd>_<HHMMSS>_<first 8 hex digits of its SHA-256>_<basename>` inside
    the project's `.ridge_backups` directory, listings parse those names back,
    and a cleanup removes copies older than a number of days. The directory's
    contents are given as a listing of entries; the copying and removing
    themselves are not modelled. */
module Backups {
  import opened Wrappers
  import opened Seqs
  import opened Strings
  import opened Models

  const BACKUP_DIR := ".ridge_backups"
  const SECONDS_PER_DAY := 86400
  const DEFAULT_DAYS_TO_KEEP := 7

  /** The backup directory of a project root. */
  function BackupDir(projectRoot: string): string {
    PathJoin(projectRoot, BACKUP_DIR)
  }

  // ---------------------------------------------------------------------
  // Names
  // ---------------------------------------------------------------------

  /** A local date and time, as `datetime.now()` gives it. */
  datatype Stamp = Stamp(year: nat, month: nat, day: nat, hour: nat, minute: nat, second: nat)

  predicate AllDigits(s: string) {
    forall k :: 0 <= k < |s| ==> IsDigit(s[k])
  }

  lemma DigitsConcat(a: string, b: string)
    requires AllDigits(a) && AllDigits(b)
    ensures AllDigits(a + b)
  {
    assert forall k :: |a| <= k < |a + b| ==> (a + b)[k] == b[k - |a|];
  }

  /** Digits are neither the field separator, a path separator nor a dot. */
  lemma DigitsExclude(s: string)
    requires AllDigits(s)
    ensures '_' !in s && '/' !in s && (s != [] ==> s[0] != '.')
  {
  }

  /** `n` in decimal, zero-padded (or cut) to its last `width` digits. */
  function Digits(n: nat, width: nat): (r: string)
    ensures |r| == width && AllDigits(r)
  {
    if width == 0 then []
    else
      var d := [('0' as int + n % 10) as char];
      DigitsConcat(Digits(n / 10, width - 1), d);
      Digits(n / 10, width - 1) + d
  }

  /** `%Y%m%d`. */
  function StampDate(t: Stamp): (r: string)
    ensures |r| == 8 && AllDigits(r)
  {
    DigitsConcat(Digits(t.year, 4), Digits(t.month, 2));
    DigitsConcat(Digits(t.year, 4) + Digits(t.month, 2), Digits(t.day, 2));
    Digits(t.year, 4) + Digits(t.month, 2) + Digits(t.day, 2)
  }

  /** `%H%M%S`. */
  function StampTime(t: Stamp): (r: string)
    ensures |r| == 6 && AllDigits(r)
  {
    DigitsConcat(Digits(t.hour, 2), Digits(t.minute, 2));
    DigitsConcat(Digits(t.hour, 2) + Digits(t.minute, 2), Digits(t.second, 2));
    Digits(t.hour, 2) + Digits(t.minute, 2) + Digits(t.second, 2)
  }

  /** `strftime("%Y%m%d_%H%M%S")`: the date and the time of day, fifteen
      characters whose only `_` is the ninth. */
  function FormatStamp(t: Stamp): (r: string)
    ensures |r| == 15 && r[8] == '_'
    ensures '_' !in r[..8] && '_' !in r[9..]
  {
    var r := StampDate(t) + "_" + StampTime(t);
    assert r[..8] == StampDate(t) && r[9..] == StampTime(t);
    DigitsExclude(StampDate(t));
    DigitsExclude(StampTime(t));
    r
  }

  /** The first eight hex digits of the file's digest. */
  function HashPrefix(h: Digest): (r: string)
    ensures |r| == 8 && '_' !in r && '/' !in r
  {
    assert forall k :: 0 <= k < 8 ==> IsHexDigit(h[k]);
    h[..8]
  }

  /** The name `create_backups` gives the copy of `filePath`: its parts joined by `_`. */
  function BackupName(t: Stamp, h: Digest, filePath: string): (r: string)
    ensures r == Fields(StampDate(t), StampTime(t), HashPrefix(h), Basename(filePath))
    ensures |r| == 25 + |Basename(filePath)|
    ensures r[0] != '.' && '/' !in r
  {
    DigitsExclude(StampDate(t));
    DigitsExclude(StampTime(t));
    FieldsShape(StampDate(t), StampTime(t), HashPrefix(h), Basename(filePath));
    Fields(StampDate(t), StampTime(t), HashPrefix(h), Basename(filePath))
  }

  /** Four fields joined by `_`. */
  function Fields(date: string, time: string, hash: string, base: string): string {
    date + "_" + (time + "_" + (hash + "_" + base))
  }

  lemma FieldsShape(date: string, time: string, hash: string, base: string)
    requires date != [] && date[0] != '.'
    requires '/' !in date && '/' !in time && '/' !in hash && '/' !in base
    ensures var r := Fields(date, time, hash, base);
      |r| == |date| + |time| + |hash| + |base| + 3 && r[0] != '.' && '/' !in r
  {
    var r := Fields(date, time, hash, base);
    assert r[0] == date[0];
  }

  /** Splitting four fields at most three times gives them back. */
  lemma SplitFields(date: string, time: string, hash: string, base: string)
    requires '_' !in date && '_' !in time && '_' !in hash
    ensures Split(Fields(date, time, hash, base), '_', 3) == [date, time, hash, base]
  {
    var rest := hash + "_" + base;
    assert Split(rest, '_', 1) == [hash, base] by {
      SplitField(hash, base, 1, [base]);
    }
    assert Split(time + "_" + rest, '_', 2) == [time, hash, base] by {
      SplitField(time, rest, 2, [hash, base]);
    }
    assert Fields(date, time, hash, base) == date + "_" + (time + "_" + rest);
    SplitField(date, time + "_" + rest, 3, [time, hash, base]);
  }

  /** One separator-free field in front of a split. */
  lemma SplitField(field: string, rest: string, maxsplit: nat, parts: seq<string>)
    requires '_' !in field && 0 < maxsplit && Split(rest, '_', maxsplit - 1) == parts
    ensures Split(field + "_" + rest, '_', maxsplit) == [field] + parts
  {
    SplitAt(field, rest, '_', maxsplit);
  }

  /** Splitting them at most twice leaves the last two joined. */
  lemma SplitFieldsTwice(date: string, time: string, hash: string, base: string)
    requires '_' !in date && '_' !in time
    ensures Split(Fields(date, time, hash, base), '_', 2) == [date, time, hash + "_" + base]
  {
    var rest := hash + "_" + base;
    SplitAt(date, time + "_" + rest, '_', 2);
    SplitAt(time, rest, '_', 1);
  }

  /** The outcome of `create_backups`: the backup's path, the
      `FileNotFoundError` raised for a missing source, or the `OSError` that
      opening the source to hash it raises (a directory, a file without read
      permission). */
  datatype Created = BackupPath(path: string) | FileNotFound(missing: string) | Unreadable(source: string)

  /** `create_backups(file_path)` at time `now`, for a source that does or does
      not exist and whose contents, when it can be read, hash to `digest.value`. */
  function CreateBackups(projectRoot: string, filePath: string, sourceExists: bool, digest: Option<Digest>, now: Stamp): (r: Created)
    ensures r.FileNotFound? <==> !sourceExists
    ensures r.FileNotFound? ==> r.missing == filePath
    ensures r.Unreadable? <==> sourceExists && digest.None?
    ensures r.Unreadable? ==> r.source == filePath
    ensures r.BackupPath? <==> sourceExists && digest.Some?
    ensures r.BackupPath? ==> Basename(r.path) == BackupName(now, digest.value, filePath)
    ensures r.BackupPath? ==> ParseBackupName(Basename(r.path)) == Some(Parsed(FormatStamp(now), Basename(filePath)))
    ensures r.BackupPath? ==>
      ParseAsWritten(Basename(r.path)) == Some(Parsed(StampDate(now), HashPrefix(digest.value) + "_" + Basename(filePath)))
  {
    if !sourceExists then FileNotFound(filePath)
    else if digest.None? then Unreadable(filePath)
    else
      var name := BackupName(now, digest.value, filePath);
      BasenameOfJoin(BackupDir(projectRoot), name);
      ParseRoundTrip(now, digest.value, filePath);
      AsWrittenLosesName(now, digest.value, filePath);
      BackupPath(PathJoin(BackupDir(projectRoot), name))
  }

  // ---------------------------------------------------------------------
  // Parsing names back
  // ---------------------------------------------------------------------

  /** What a listing reads out of a backup's name. */
  datatype Parsed = Parsed(timestamp: string, originalName: string)

  /** The parse `list_backups` performs: `split('_', 2)`, timestamp `parts[0]`,
      original name `parts[2]`. */
  function ParseAsWritten(name: string): Option<Parsed> {
    var parts := Split(name, '_', 2);
    if |parts| >= 3 then Some(Parsed(parts[0], parts[2])) else None
  }

  /** The parse the naming scheme calls for: the timestamp is the first two
      `_`-separated fields, the hash the third, the original name the rest. */
  function ParseBackupName(name: string): Option<Parsed> {
    var parts := Split(name, '_', 3);
    if |parts| >= 4 then Some(Parsed(parts[0] + "_" + parts[1], parts[3])) else None
  }

  /** For every backup name, the as-written parse yields only the date as the
      timestamp, and `<hash8>_<basename>` as the original name, which is never
      the basename. */
  lemma AsWrittenLosesName(t: Stamp, h: Digest, filePath: string)
    ensures ParseAsWritten(BackupName(t, h, filePath))
      == Some(Parsed(StampDate(t), HashPrefix(h) + "_" + Basename(filePath)))
    ensures ParseAsWritten(BackupName(t, h, filePath)).value.originalName != Basename(filePath)
    ensures ParseAsWritten(BackupName(t, h, filePath)).value.timestamp != FormatStamp(t)
  {
    var date, time, hash, base := StampDate(t), StampTime(t), HashPrefix(h), Basename(filePath);
    assert Split(BackupName(t, h, filePath), '_', 2) == [date, time, hash + "_" + base] by {
      DigitsExclude(date);
      DigitsExclude(time);
      SplitFieldsTwice(date, time, hash, base);
    }
    assert |hash + "_" + base| != |base|;
    assert |date| != |FormatStamp(t)|;
  }

  /** The corrected parse recovers the timestamp and the basename the name was
      built from. */
  lemma ParseRoundTrip(t: Stamp, h: Digest, filePath: string)
    ensures ParseBackupName(BackupName(t, h, filePath)) == Some(Parsed(FormatStamp(t), Basename(filePath)))
  {
    var date, time := StampDate(t), StampTime(t);
    DigitsExclude(date);
    DigitsExclude(time);
    ParseFields(date, time, HashPrefix(h), Basename(filePath));
    assert FormatStamp(t) == date + "_" + time;
  }

  lemma ParseFields(date: string, time: string, hash: string, base: string)
    requires '_' !in date && '_' !in time && '_' !in hash
    ensures ParseBackupName(Fields(date, time, hash, base)) == Some(Parsed(date + "_" + time, base))
  {
    SplitFields(date, time, hash, base);
  }

  // ---------------------------------------------------------------------
  // Listing
  // ---------------------------------------------------------------------

  /** An entry of the backup directory as `os.listdir` and `os.path` see it. */
  datatype Entry = Entry(name: string, isFile: bool, size: nat, atime: int)

  /** One row of `list_backups`' result. */
  datatype BackupInfo = BackupInfo(backupPath: string, originalName: string, timestamp: string, size: nat)

  /** Not a dot-file (such as the directory's `.gitignore`), and a regular file. */
  predicate Candidate(e: Entry) {
    !StartsWith(e.name, ".") && e.isFile
  }

  /** The basename a listing is restricted to: none when no path, or an empty one, is given. */
  function FilterName(filePath: Option<string>): (r: Option<string>)
    ensures r.Some? <==> filePath.Some? && filePath.value != []
  {
    if filePath.Some? && filePath.value != [] then Some(Basename(filePath.value)) else None
  }

  /** The row an entry contributes to a listing, if any. */
  function Info(backupDir: string, e: Entry, parse: string -> Option<Parsed>, filter: Option<string>): Option<BackupInfo> {
    if !Candidate(e) then None
    else match parse(e.name)
      case None => None
      case Some(p) =>
        if filter.Some? && filter.value != p.originalName then None
        else Some(BackupInfo(PathJoin(backupDir, e.name), p.originalName, p.timestamp, e.size))
  }

  /** The rows in directory order, before sorting. */
  function Found(backupDir: string, entries: seq<Entry>, parse: string -> Option<Parsed>, filter: Option<string>): (r: seq<BackupInfo>)
    ensures |r| <= |entries|
  {
    if entries == [] then []
    else
      var last := entries[|entries| - 1];
      var init := Found(backupDir, entries[..|entries| - 1], parse, filter);
      match Info(backupDir, last, parse, filter)
      case None => init
      case Some(b) => init + [b]
  }

  /** The sort key of `list_backups`, descending: `a` does not come after `b`. */
  function NewerOrSame(a: BackupInfo, b: BackupInfo): bool {
    !LexLess(a.timestamp, b.timestamp)
  }

  /** `list_backups(file_path)` with a given parse: none for a missing
      directory, otherwise the rows sorted newest first. */
  function Listing(backupDir: string, listing: Option<seq<Entry>>, filePath: Option<string>, parse: string -> Option<Parsed>): seq<BackupInfo> {
    if listing.None? then []
    else SortDesc(Found(backupDir, listing.value, parse, FilterName(filePath)), NewerOrSame)
  }

  /** Every row of a listing comes from a listed entry, and every qualifying
      entry gives a row. */
  lemma FoundMembers(backupDir: string, entries: seq<Entry>, parse: string -> Option<Parsed>, filter: Option<string>)
    ensures forall b :: b in Found(backupDir, entries, parse, filter) ==>
      exists i :: 0 <= i < |entries| && Info(backupDir, entries[i], parse, filter) == Some(b)
    ensures forall i :: 0 <= i < |entries| && Info(backupDir, entries[i], parse, filter).Some? ==>
      Info(backupDir, entries[i], parse, filter).value in Found(backupDir, entries, parse, filter)
  {
    FoundSound(backupDir, entries, parse, filter);
    FoundComplete(backupDir, entries, parse, filter);
  }

  /** The last entry adds its row, if it has one, after the rows of the others. */
  lemma FoundLast(backupDir: string, entries: seq<Entry>, parse: string -> Option<Parsed>, filter: Option<string>)
    requires entries != []
    ensures var info := Info(backupDir, entries[|entries| - 1], parse, filter);
      Found(backupDir, entries, parse, filter)
        == Found(backupDir, entries[..|entries| - 1], parse, filter) + (if info.Some? then [info.value] else [])
  {
  }

  lemma {:induction false} FoundSound(backupDir: string, entries: seq<Entry>, parse: string -> Option<Parsed>, filter: Option<string>)
    ensures forall b :: b in Found(backupDir, entries, parse, filter) ==>
      exists i :: 0 <= i < |entries| && Info(backupDir, entries[i], parse, filter) == Some(b)
    decreases |entries|
  {
    if entries != [] {
      var init := entries[..|entries| - 1];
      FoundSound(backupDir, init, parse, filter);
      FoundLast(backupDir, entries, parse, filter);
      forall b | b in Found(backupDir, entries, parse, filter)
        ensures exists i :: 0 <= i < |entries| && Info(backupDir, entries[i], parse, filter) == Some(b)
      {
        if b in Found(backupDir, init, parse, filter) {
          var i :| 0 <= i < |init| && Info(backupDir, init[i], parse, filter) == Some(b);
          assert entries[i] == init[i];
        } else {
          assert Info(backupDir, entries[|entries| - 1], parse, filter) == Some(b);
        }
      }
    }
  }

  lemma {:induction false} FoundComplete(backupDir: string, entries: seq<Entry>, parse: string -> Option<Parsed>, filter: Option<string>)
    ensures forall i :: 0 <= i < |entries| && Info(backupDir, entries[i], parse, filter).Some? ==>
      Info(backupDir, entries[i], parse, filter).value in Found(backupDir, entries, parse, filter)
    decreases |entries|
  {
    if entries != [] {
      var init := entries[..|entries| - 1];
      FoundComplete(backupDir, init, parse, filter);
      FoundLast(backupDir, entries, parse, filter);
      forall i | 0 <= i < |entries| && Info(backupDir, entries[i], parse, filter).Some?
        ensures Info(backupDir, entries[i], parse, filter).value in Found(backupDir, entries, parse, filter)
      {
        if i < |init| {
          assert entries[i] == init[i];
        }
      }
    }
  }

  lemma NewerOrSameTotal()
    ensures Total(NewerOrSame)
  {
    forall a: BackupInfo, b: BackupInfo ensures NewerOrSame(a, b) || NewerOrSame(b, a) {
      LexLessAsymmetric(a.timestamp, b.timestamp);
    }
  }

  /** A listing holds exactly the found rows, newest first. */
  lemma ListingSorted(backupDir: string, listing: Option<seq<Entry>>, filePath: Option<string>, parse: string -> Option<Parsed>)
    ensures SortedDesc(Listing(backupDir, listing, filePath, parse), NewerOrSame)
    ensures listing.Some? ==>
      multiset(Listing(backupDir, listing, filePath, parse)) == multiset(Found(backupDir, listing.value, parse, FilterName(filePath)))
  {
    if listing.Some? {
      NewerOrSameTotal();
      SortDescSorted(Found(backupDir, listing.value, parse, FilterName(filePath)), NewerOrSame);
    }
  }

  /** Listed by the path of the file it was made from, a backup is found by the
      corrected parse and missed by the as-written one. */
  lemma FilterFindsOwnBackup(backupDir: string, t: Stamp, h: Digest, filePath: string, size: nat, atime: int)
    requires filePath != []
    ensures var e := Entry(BackupName(t, h, filePath), true, size, atime);
      Info(backupDir, e, ParseAsWritten, FilterName(Some(filePath))).None? &&
      Info(backupDir, e, ParseBackupName, FilterName(Some(filePath)))
        == Some(BackupInfo(PathJoin(backupDir, e.name), Basename(filePath), FormatStamp(t), size))
  {
    var e := Entry(BackupName(t, h, filePath), true, size, atime);
    var filter := FilterName(Some(filePath));
    assert filter == Some(Basename(filePath));
    assert Candidate(e) by {
      assert e.name[..1][0] == e.name[0];
    }
    assert Info(backupDir, e, ParseAsWritten, filter).None? by {
      AsWrittenLosesName(t, h, filePath);
    }
    assert Info(backupDir, e, ParseBackupName, filter)
      == Some(BackupInfo(PathJoin(backupDir, e.name), Basename(filePath), FormatStamp(t), size)) by {
      ParseRoundTrip(t, h, filePath);
    }
  }

  /** `list_backups`: the loop over the directory with the `split('_', 2)`
      parse, then the sort. */
  method ListBackups(projectRoot: string, listing: Option<seq<Entry>>, filePath: Option<string> := None)
    returns (r: seq<BackupInfo>)
    ensures r == Listing(BackupDir(projectRoot), listing, filePath, ParseAsWritten)
  {
    if listing.None? {
      return [];
    }
    var found := Scan(BackupDir(projectRoot), listing.value, ParseAsWritten, FilterName(filePath));
    r := SortDesc(found, NewerOrSame);
  }

  /** `list_backups` with the parse that reads the names `create_backups` gives. */
  method ListBackupsCorrected(projectRoot: string, listing: Option<seq<Entry>>, filePath: Option<string> := None)
    returns (r: seq<BackupInfo>)
    ensures r == Listing(BackupDir(projectRoot), listing, filePath, ParseBackupName)
  {
    if listing.None? {
      return [];
    }
    var found := Scan(BackupDir(projectRoot), listing.value, ParseBackupName, FilterName(filePath));
    r := SortDesc(found, NewerOrSame);
  }

  /** The loop of `list_backups`: the rows of the entries, in directory order. */
  method Scan(dir: string, entries: seq<Entry>, parse: string -> Option<Parsed>, filter: Option<string>)
    returns (found: seq<BackupInfo>)
    ensures found == Found(dir, entries, parse, filter)
  {
    found := [];
    for i := 0 to |entries|
      invariant found == Found(dir, entries[..i], parse, filter)
    {
      assert entries[..i + 1][..i] == entries[..i];
      var info := Info(dir, entries[i], parse, filter);
      if info.Some? {
        found := found + [info.value];
      }
    }
    assert entries[..|entries|] == entries;
  }

  // ---------------------------------------------------------------------
  // Cleanup
  // ---------------------------------------------------------------------

  /** `now - timedelta(days=daysToKeep)`, in seconds. */
  function Cutoff(now: int, daysToKeep: int): int {
    now - daysToKeep * SECONDS_PER_DAY
  }

  /** An entry the cleanup removes: a non-dot regular file last accessed before the cutoff. */
  function Expired(cutoff: int): Entry -> bool {
    e => Candidate(e) && e.atime < cutoff
  }

  function Survives(cutoff: int): Entry -> bool {
    e => !Expired(cutoff)(e)
  }

  /** `cleanup_old_backups(days_to_keep)` at time `now`: the number of entries
      removed, and what is left of the directory. */
  method CleanupOldBackups(listing: Option<seq<Entry>>, now: int, daysToKeep: int := DEFAULT_DAYS_TO_KEEP)
    returns (count: nat, remaining: seq<Entry>)
    ensures listing.None? ==> count == 0 && remaining == []
    ensures listing.Some? ==> remaining == Filter(listing.value, Survives(Cutoff(now, daysToKeep)))
    ensures listing.Some? ==> count == |Filter(listing.value, Expired(Cutoff(now, daysToKeep)))|
  {
    if listing.None? {
      return 0, [];
    }
    var entries := listing.value;
    var cutoff := Cutoff(now, daysToKeep);
    count, remaining := 0, [];
    for i := 0 to |entries|
      invariant remaining == Filter(entries[..i], Survives(cutoff))
      invariant count == |Filter(entries[..i], Expired(cutoff))|
    {
      CleanupStep(entries, i, cutoff);
      if Expired(cutoff)(entries[i]) {
        count := count + 1;
      } else {
        remaining := remaining + [entries[i]];
      }
    }
    assert entries[..|entries|] == entries;
  }

  /** One more entry of the directory: it is either kept or counted. */
  lemma CleanupStep(entries: seq<Entry>, i: nat, cutoff: int)
    requires i < |entries|
    ensures Filter(entries[..i + 1], Survives(cutoff))
      == Filter(entries[..i], Survives(cutoff)) + (if Expired(cutoff)(entries[i]) then [] else [entries[i]])
    ensures |Filter(entries[..i + 1], Expired(cutoff))|
      == |Filter(entries[..i], Expired(cutoff))| + (if Expired(cutoff)(entries[i]) then 1 else 0)
  {
    FilterStep(entries, i, Survives(cutoff));
    FilterStep(entries, i, Expired(cutoff));
  }

  /** The cleanup removes exactly the entries it counts: dot-files and
      directories always stay, and what stays plus what is counted is the whole
      directory. */
  lemma CleanupAccounts(entries: seq<Entry>, cutoff: int)
    ensures |Filter(entries, Expired(cutoff))| + |Filter(entries, Survives(cutoff))| == |entries|
    ensures forall i :: 0 <= i < |entries| && !Candidate(entries[i]) ==> entries[i] in Filter(entries, Survives(cutoff))
  {
    var both := (e: Entry) => true;
    FilterSplitCount(entries, both, Expired(cutoff), Expired(cutoff), Survives(cutoff));
    FilterAllOrNone(entries, both);
  }

  /** Keeping backups for more days never removes more of them. */
  lemma {:induction false} LongerKeepRemovesFewer(entries: seq<Entry>, now: int, shorter: int, longer: int)
    requires shorter <= longer
    ensures |Filter(entries, Expired(Cutoff(now, longer)))| <= |Filter(entries, Expired(Cutoff(now, shorter)))|
    decreases |entries|
  {
    if entries != [] {
      LongerKeepRemovesFewer(entries[1..], now, shorter, longer);
    }
  }
}
