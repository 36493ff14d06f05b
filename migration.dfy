/**
 * `ResourceManager._migrate_legacy_cache_dir`: moves the files of an old cache
 * directory into the canonical one, keeping whichever copy is newer. Directories
 * are maps from entry name to what the entry is; the order in which
 * `iterdir()` lists the entries is left open (the loop picks any unvisited name).
 */
module Migration {
  import opened FileSystem

  datatype Entry = RegularFile(info: FileInfo) | NotAFile

  /** The legacy path: missing, something that is not a directory, or a directory. */
  datatype LegacyDir = Absent | NotADirectory | Directory(entries: map<string, Entry>)

  /** The four counters the source logs. */
  datatype Counters = Counters(moved: nat, replaced: nat, skipped: nat, failed: nat)

  datatype MigrationResult = MigrationResult(legacy: LegacyDir, target: map<string, FileInfo>, counters: Counters)

  /**
   * What becomes of one entry: a non-file is ignored; a file whose same-named
   * destination is at least as new is discarded; otherwise it is moved in, unless
   * `os.replace` raises (a name in `failing`), in which case it stays where it is.
   */
  datatype Fate = Ignored | Discarded | MovedIn | Stuck

  function FateOf(name: string, e: Entry, target: map<string, FileInfo>, failing: set<string>): Fate {
    match e
    case NotAFile => Ignored
    case RegularFile(info) =>
      if name in target && info.mtime <= target[name].mtime then Discarded
      else if name in failing then Stuck
      else MovedIn
  }

  /** The legacy file would overwrite an older destination (counted before the rename is tried). */
  predicate Replaces(name: string, e: Entry, target: map<string, FileInfo>) {
    e.RegularFile? && name in target && e.info.mtime > target[name].mtime
  }

  /** The legacy entries left once the names in `done` have been visited. */
  function SourceAfter(entries: map<string, Entry>, target: map<string, FileInfo>, failing: set<string>, done: set<string>): map<string, Entry> {
    map n | n in entries && (n !in done || FateOf(n, entries[n], target, failing) in {Ignored, Stuck}) :: entries[n]
  }

  predicate MovesIn(entries: map<string, Entry>, target: map<string, FileInfo>, failing: set<string>, done: set<string>, n: string) {
    n in done && n in entries && FateOf(n, entries[n], target, failing) == MovedIn
  }

  /** The destination directory once the names in `done` have been visited. */
  function TargetAfter(entries: map<string, Entry>, target: map<string, FileInfo>, failing: set<string>, done: set<string>): map<string, FileInfo> {
    map n | n in target.Keys + entries.Keys && (n in target || MovesIn(entries, target, failing, done, n)) ::
      if MovesIn(entries, target, failing, done, n) then entries[n].info else target[n]
  }

  function WithFate(entries: map<string, Entry>, target: map<string, FileInfo>, failing: set<string>, done: set<string>, fate: Fate): set<string> {
    set n | n in done && n in entries && FateOf(n, entries[n], target, failing) == fate
  }

  function Replacing(entries: map<string, Entry>, target: map<string, FileInfo>, done: set<string>): set<string> {
    set n | n in done && n in entries && Replaces(n, entries[n], target)
  }

  function CountersAfter(entries: map<string, Entry>, target: map<string, FileInfo>, failing: set<string>, done: set<string>): Counters {
    Counters(|WithFate(entries, target, failing, done, MovedIn)|, |Replacing(entries, target, done)|,
             |WithFate(entries, target, failing, done, Discarded)|, |WithFate(entries, target, failing, done, Stuck)|)
  }

  /**
   * The whole migration: nothing happens unless the legacy path is a directory
   * other than the target; afterwards the legacy directory is removed exactly
   * when no entry is left in it.
   */
  function Migrate(legacy: LegacyDir, sameAsTarget: bool, target: map<string, FileInfo>, failing: set<string>): MigrationResult {
    if !legacy.Directory? || sameAsTarget then MigrationResult(legacy, target, Counters(0, 0, 0, 0))
    else
      var entries := legacy.entries;
      var rest := SourceAfter(entries, target, failing, entries.Keys);
      MigrationResult(if rest == map[] then Absent else Directory(rest),
                      TargetAfter(entries, target, failing, entries.Keys),
                      CountersAfter(entries, target, failing, entries.Keys))
  }

  lemma CountStep(s: set<string>, n: string, t: set<string>)
    requires n !in s && (t == s || t == s + {n})
    ensures |t| == |s| + (if n in t then 1 else 0)
  {
  }

  /** Visiting one more name changes the three directory-level quantities by that name's fate only. */
  lemma SourceStep(entries: map<string, Entry>, target: map<string, FileInfo>, failing: set<string>, done: set<string>, name: string)
    requires name in entries && name !in done
    ensures SourceAfter(entries, target, failing, done + {name}) ==
      if FateOf(name, entries[name], target, failing) in {Discarded, MovedIn}
      then SourceAfter(entries, target, failing, done) - {name}
      else SourceAfter(entries, target, failing, done)
  {
  }

  lemma TargetStep(entries: map<string, Entry>, target: map<string, FileInfo>, failing: set<string>, done: set<string>, name: string)
    requires name in entries && name !in done
    ensures var before := TargetAfter(entries, target, failing, done);
      (name in before <==> name in target) && (name in target ==> before[name] == target[name])
    ensures TargetAfter(entries, target, failing, done + {name}) ==
      if FateOf(name, entries[name], target, failing) == MovedIn
      then TargetAfter(entries, target, failing, done)[name := entries[name].info]
      else TargetAfter(entries, target, failing, done)
  {
  }

  lemma FateCountStep(entries: map<string, Entry>, target: map<string, FileInfo>, failing: set<string>, done: set<string>, name: string, fate: Fate)
    requires name in entries && name !in done
    ensures |WithFate(entries, target, failing, done + {name}, fate)| ==
      |WithFate(entries, target, failing, done, fate)| + (if FateOf(name, entries[name], target, failing) == fate then 1 else 0)
  {
    var before := WithFate(entries, target, failing, done, fate);
    var after := WithFate(entries, target, failing, done + {name}, fate);
    if FateOf(name, entries[name], target, failing) == fate {
      assert after == before + {name};
    } else {
      assert after == before;
    }
    CountStep(before, name, after);
  }

  lemma ReplacingCountStep(entries: map<string, Entry>, target: map<string, FileInfo>, done: set<string>, name: string)
    requires name in entries && name !in done
    ensures |Replacing(entries, target, done + {name})| ==
      |Replacing(entries, target, done)| + (if Replaces(name, entries[name], target) then 1 else 0)
  {
    var before := Replacing(entries, target, done);
    var after := Replacing(entries, target, done + {name});
    if Replaces(name, entries[name], target) {
      assert after == before + {name};
    } else {
      assert after == before;
    }
    CountStep(before, name, after);
  }

  lemma CountersStep(entries: map<string, Entry>, target: map<string, FileInfo>, failing: set<string>, done: set<string>, name: string)
    requires name in entries && name !in done
    ensures var c := CountersAfter(entries, target, failing, done);
      var fate := FateOf(name, entries[name], target, failing);
      CountersAfter(entries, target, failing, done + {name}) ==
        Counters(c.moved + (if fate == MovedIn then 1 else 0),
                 c.replaced + (if Replaces(name, entries[name], target) then 1 else 0),
                 c.skipped + (if fate == Discarded then 1 else 0),
                 c.failed + (if fate == Stuck then 1 else 0))
  {
    FateCountStep(entries, target, failing, done, name, MovedIn);
    FateCountStep(entries, target, failing, done, name, Discarded);
    FateCountStep(entries, target, failing, done, name, Stuck);
    ReplacingCountStep(entries, target, done, name);
  }

  /**
   * The loop of the source. `sameAsTarget` is `legacy_dir.resolve() == target_dir.resolve()`;
   * `failing` are the names whose `os.replace` raises an error other than EXDEV
   * (a cross-device move is a copy that keeps the mtime followed by an unlink,
   * which ends in the same state as a rename).
   */
  method MigrateLegacyCacheDir(legacy: LegacyDir, sameAsTarget: bool, target: map<string, FileInfo>, failing: set<string>)
    returns (r: MigrationResult)
    ensures r == Migrate(legacy, sameAsTarget, target, failing)
  {
    if !legacy.Directory? || sameAsTarget {
      return MigrationResult(legacy, target, Counters(0, 0, 0, 0));
    }
    var entries := legacy.entries;
    var source := entries;
    var dest := target;
    var moved, replaced, skipped, failed := 0, 0, 0, 0;
    var todo := entries.Keys;
    while todo != {}
      invariant todo <= entries.Keys
      invariant source == SourceAfter(entries, target, failing, entries.Keys - todo)
      invariant dest == TargetAfter(entries, target, failing, entries.Keys - todo)
      invariant Counters(moved, replaced, skipped, failed) == CountersAfter(entries, target, failing, entries.Keys - todo)
      decreases todo
    {
      var name :| name in todo;
      ghost var done := entries.Keys - todo;
      assert entries.Keys - (todo - {name}) == done + {name};
      SourceStep(entries, target, failing, done, name);
      TargetStep(entries, target, failing, done, name);
      CountersStep(entries, target, failing, done, name);
      match entries[name] {
        case NotAFile =>
        case RegularFile(info) =>
          if name in dest && info.mtime <= dest[name].mtime {
            source := source - {name};
            skipped := skipped + 1;
          } else {
            if name in dest {
              replaced := replaced + 1;
            }
            if name in failing {
              failed := failed + 1;
            } else {
              dest := dest[name := info];
              source := source - {name};
              moved := moved + 1;
            }
          }
      }
      todo := todo - {name};
    }
    assert entries.Keys - todo == entries.Keys;
    var remaining := if source == map[] then Absent else Directory(source);
    return MigrationResult(remaining, dest, Counters(moved, replaced, skipped, failed));
  }

  /** The entries still in the legacy location (none when it is absent or not a directory). */
  function Remaining(d: LegacyDir): map<string, Entry> {
    if d.Directory? then d.entries else map[]
  }

  /**
   * Per name, the newer copy wins: a legacy file no newer than its destination is
   * dropped and the destination kept; a newer (or unmatched) one replaces it, unless
   * the rename fails, in which case both sides are left as they were.
   */
  lemma NewerCopyWins(legacy: LegacyDir, target: map<string, FileInfo>, failing: set<string>, name: string)
    requires legacy.Directory? && name in legacy.entries && legacy.entries[name].RegularFile?
    ensures var r := Migrate(legacy, false, target, failing);
      var info := legacy.entries[name].info;
      if name in target && info.mtime <= target[name].mtime then
        name !in Remaining(r.legacy) && name in r.target && r.target[name] == target[name]
      else if name in failing then
        name in Remaining(r.legacy) && Remaining(r.legacy)[name] == legacy.entries[name] &&
        (name in r.target <==> name in target) && (name in target ==> r.target[name] == target[name])
      else
        name !in Remaining(r.legacy) && name in r.target && r.target[name] == info
  {
    var entries := legacy.entries;
    var rest := SourceAfter(entries, target, failing, entries.Keys);
    if FateOf(name, entries[name], target, failing) == Stuck {
      assert name in rest;
    }
  }

  /** Destination files whose name has no legacy counterpart are untouched; no other name appears. */
  lemma OtherTargetsUntouched(legacy: LegacyDir, sameAsTarget: bool, target: map<string, FileInfo>, failing: set<string>)
    ensures var r := Migrate(legacy, sameAsTarget, target, failing);
      target.Keys <= r.target.Keys && r.target.Keys <= target.Keys + Remaining(legacy).Keys &&
      forall n :: n in target && n !in Remaining(legacy) ==> r.target[n] == target[n]
  {
  }

  /** Non-files are never touched, and the legacy directory disappears exactly when it was emptied. */
  lemma LegacyRemovedWhenEmptied(legacy: LegacyDir, target: map<string, FileInfo>, failing: set<string>)
    requires legacy.Directory?
    ensures var r := Migrate(legacy, false, target, failing);
      (r.legacy == Absent <==> forall n :: n in legacy.entries ==> FateOf(n, legacy.entries[n], target, failing) in {Discarded, MovedIn}) &&
      (forall n :: n in legacy.entries && legacy.entries[n] == NotAFile ==> n in Remaining(r.legacy)) &&
      (forall n :: n in Remaining(r.legacy) ==>
         n in legacy.entries && Remaining(r.legacy)[n] == legacy.entries[n] && (legacy.entries[n] == NotAFile || n in failing))
  {
    var entries := legacy.entries;
    var rest := SourceAfter(entries, target, failing, entries.Keys);
    if rest == map[] {
      forall n | n in entries
        ensures FateOf(n, entries[n], target, failing) in {Discarded, MovedIn}
      {
        assert n !in rest;
      }
    } else {
      var n :| n in rest;
      assert FateOf(n, entries[n], target, failing) in {Ignored, Stuck};
    }
  }

  lemma {:induction false} DisjointUnionSize(a: set<string>, b: set<string>)
    requires a !! b
    ensures |a + b| == |a| + |b|
    decreases |a|
  {
    if a != {} {
      var x :| x in a;
      DisjointUnionSize(a - {x}, b);
      assert (a - {x}) + b == (a + b) - {x};
    }
  }

  lemma {:induction false} SubsetSize(a: set<string>, b: set<string>)
    requires a <= b
    ensures |a| <= |b|
    decreases |b|
  {
    if b != {} {
      var x :| x in b;
      SubsetSize(a - {x}, b - {x});
    }
  }

  /**
   * The counters account for every regular file exactly once as moved, skipped or
   * failed, and `replaced` counts only among the files that were moved or failed.
   */
  lemma CountersPartitionFiles(legacy: LegacyDir, target: map<string, FileInfo>, failing: set<string>)
    requires legacy.Directory?
    ensures var c := Migrate(legacy, false, target, failing).counters;
      c.moved + c.skipped + c.failed == |set n | n in legacy.entries && legacy.entries[n].RegularFile?| &&
      c.replaced <= c.moved + c.failed
  {
    var entries := legacy.entries;
    var all := entries.Keys;
    var m := WithFate(entries, target, failing, all, MovedIn);
    var d := WithFate(entries, target, failing, all, Discarded);
    var st := WithFate(entries, target, failing, all, Stuck);
    assert Migrate(legacy, false, target, failing).counters == CountersAfter(entries, target, failing, all);
    FilesByFate(entries, target, failing);
    DisjointUnionSize(m, d);
    DisjointUnionSize(m + d, st);
    DisjointUnionSize(m, st);
    SubsetSize(Replacing(entries, target, all), m + st);
  }

  /** Each file has exactly one of the fates moved in, discarded and stuck; only moved or stuck files replace. */
  lemma FilesByFate(entries: map<string, Entry>, target: map<string, FileInfo>, failing: set<string>)
    ensures var m := WithFate(entries, target, failing, entries.Keys, MovedIn);
      var d := WithFate(entries, target, failing, entries.Keys, Discarded);
      var st := WithFate(entries, target, failing, entries.Keys, Stuck);
      && m !! d && m + d !! st && m !! st
      && m + d + st == (set n | n in entries && entries[n].RegularFile?)
      && Replacing(entries, target, entries.Keys) <= m + st
  {
  }

  /**
   * Running the migration a second time over what the first left behind changes
   * neither directory: only non-files and files whose rename fails are left, and
   * they meet the same fate again.
   */
  lemma {:induction false} MigrationIsIdempotent(legacy: LegacyDir, target: map<string, FileInfo>, failing: set<string>)
    ensures var r := Migrate(legacy, false, target, failing);
      var r2 := Migrate(r.legacy, false, r.target, failing);
      r2.legacy == r.legacy && r2.target == r.target
  {
    var r := Migrate(legacy, false, target, failing);
    if legacy.Directory? && r.legacy.Directory? {
      LegacyRemovedWhenEmptied(legacy, target, failing);
      var entries := legacy.entries;
      var rest := r.legacy.entries;
      forall n | n in rest
        ensures FateOf(n, rest[n], r.target, failing) in {Ignored, Stuck}
      {
        if rest[n].RegularFile? {
          NewerCopyWins(legacy, target, failing, n);
        }
      }
      NothingLeftToMove(rest, r.target, failing);
    }
  }

  /** Where every entry is ignored or stuck, a pass leaves both directories as they are. */
  lemma NothingLeftToMove(entries: map<string, Entry>, target: map<string, FileInfo>, failing: set<string>)
    requires forall n :: n in entries ==> FateOf(n, entries[n], target, failing) in {Ignored, Stuck}
    ensures SourceAfter(entries, target, failing, entries.Keys) == entries
    ensures TargetAfter(entries, target, failing, entries.Keys) == target
  {
    assert forall n :: !MovesIn(entries, target, failing, entries.Keys, n);
  }
}
