/** The cache manager itself: methods that change the disk file by file, proved against the cache
    specification, and against the crash points that the crash-safety theorem covers. */
module CacheManagers {
  import opened Wrappers
  import opened Strings
  import opened Sorting
  import opened Timestamps
  import Json
  import opened JsonText
  import opened JsonValues
  import opened ScriptCache
  import opened ScriptCacheRuns
  import opened CacheWalks

  // ----- sizes in bytes -----

  function Utf8Length(content: string): nat {
    if content == "" then 0
    else
      var c := content[|content| - 1] as int;
      Utf8Length(content[..|content| - 1])
        + (if c < 0x80 then 1 else if c < 0x800 then 2 else if c < 0x10000 then 3 else 4)
  }

  ghost function TotalSize(files: Files): nat {
    if files == map[] then 0
    else
      var path :| path in files;
      Utf8Length(files[path]) + TotalSize(files - {path})
  }

  lemma {:induction false} NoSize()
    ensures TotalSize(map[]) == 0
  {
  }

  /** In whatever order the files are added up. */
  lemma {:induction false} SizeWithout(files: Files, path: string)
    requires path in files
    ensures TotalSize(files) == Utf8Length(files[path]) + TotalSize(files - {path})
    decreases |files|
  {
    hide Utf8Length;
    var first :| first in files && TotalSize(files) == Utf8Length(files[first]) + TotalSize(files - {first});
    if first != path {
      assert (files - {first}).Keys == files.Keys - {first} && (files - {path}).Keys == files.Keys - {path};
      SizeWithout(files - {first}, path);
      SizeWithout(files - {path}, first);
      assert (files - {first}) - {path} == (files - {path}) - {first};
    }
  }

  /** One line of `get_cached_scripts`. */
  datatype Listed = Listed(name: Json.Value, version: Json.Value, cachedAt: Json.Value, size: nat,
                           repositoryType: Json.Value, metadata: Json.Value)

  /** What an entry of the given size contributes to the list: nothing if its marker lacks a member. */
  function ListedInfo(info: string, size: nat): Option<Listed> {
    var v := Json.Parse(info);
    if v.None? || !v.value.Object? then None
    else
      var d := v.value.members;
      var name, version, at := Lookup(d, "script_name"), Lookup(d, "version"), Lookup(d, "cached_at");
      if name.None? || version.None? || at.None? then None
      else Some(Listed(name.value, version.value, at.value, size,
                       Default(Lookup(d, "repository_type"), Str("unknown")),
                       Default(Lookup(d, "metadata"), Json.Object([]))))
  }

  ghost function ListedEntry(files: Files): Option<Listed> {
    if MARKER in files then ListedInfo(files[MARKER], TotalSize(files)) else None
  }

  ghost function Listing(disk: Disk, order: seq<Key>): seq<Listed>
    requires forall key | key in order :: key in disk
  {
    if order == [] then []
    else
      var last := |order| - 1;
      var line := ListedEntry(disk[order[last]]);
      Listing(disk, order[..last]) + (if line.Some? then [line.value] else [])
  }

  lemma {:induction false} EmptyListing(disk: Disk)
    ensures Listing(disk, []) == []
  {
  }

  lemma {:induction false} ListingMore(disk: Disk, order: seq<Key>, key: Key)
    requires key in disk && forall k | k in order :: k in disk
    ensures var line := ListedEntry(disk[key]);
      Listing(disk, order + [key]) == Listing(disk, order) + (if line.Some? then [line.value] else [])
  {
    hide ListedEntry;
    assert (order + [key])[..|order|] == order;
  }

  /** Which values Python's `<` compares with which: strings with strings and integers with integers (booleans
      are integers). Null and objects compare with nothing; fractions and lists are not part of this model. */
  datatype Kind = Words | Integers | Unordered | Beyond

  function KindOf(v: Json.Value): Kind {
    match v
    case Text(_) => Words
    case Number(lexeme) => if IntLiteral(lexeme).Some? then Integers else Beyond
    case True => Integers
    case False => Integers
    case Array(_) => Beyond
    case _ => Unordered
  }

  function SortKey(l: Listed): seq<int> {
    match l.cachedAt
    case Text(_) => Codes(AsString(l.cachedAt).value)
    case Number(lexeme) => if IntLiteral(lexeme).Some? then [IntLiteral(lexeme).value] else []
    case True => [1]
    case False => [0]
    case _ => []
  }

  function ByCachedAt(): (Listed, Listed) -> bool {
    (a, b) => LexLeq(SortKey(a), SortKey(b))
  }

  /** Every two lines can be compared. */
  predicate Comparable(lines: seq<Listed>) {
    || |lines| <= 1
    || (forall l | l in lines :: KindOf(l.cachedAt).Words?)
    || (forall l | l in lines :: KindOf(l.cachedAt).Integers?)
  }

  /** The sort by `cached_at`; None for the TypeError it raises when two lines cannot be compared. */
  function Sorted(lines: seq<Listed>): Option<seq<Listed>> {
    if Comparable(lines) then Some(SortDescending(ByCachedAt(), lines)) else None
  }

  ghost predicate Listable(files: Files) {
    var line := ListedEntry(files);
    line.Some? ==> !KindOf(line.value.cachedAt).Beyond?
  }

  /** Every entry once, in the order the directories happen to come. */
  ghost predicate Enumerates(order: seq<Key>, disk: Disk) {
    && (forall key :: key in order <==> key in disk)
    && forall i, j | 0 <= i < j < |order| :: order[i] != order[j]
  }

  class CacheManager {
    const settings: Settings
    var disk: Disk
    /** Every disk there has been before this one. */
    ghost var trace: seq<Disk>

    constructor (settings: Settings)
      ensures this.settings == settings && disk == map[] && trace == []
    {
      this.settings := settings;
      disk := map[];
      trace := [];
    }

    /** The only way the disk changes. */
    method Do(change: Change)
      requires Can(disk, change)
      modifies this
      ensures disk == Apply(old(disk), change) && trace == old(trace) + [old(disk)]
      ensures Walk(old(trace), old(disk), trace, disk)
    {
      WalkOnce(trace, disk, change);
      trace := trace + [disk];
      match change {
        case MakeDirectory(key) => disk := disk[key := map[]];
        case RemoveDirectory(key) => disk := disk - {key};
        case RemoveScript(name) => disk := map key | key in disk && key.name != name :: disk[key];
        case OpenFile(key, path) => disk := disk[key := disk[key][path := ""]];
        case Append(key, path, c) => disk := disk[key := disk[key][path := disk[key][path] + [c]]];
      }
    }

    /** `open(path, "w")` and the writes that follow. */
    method WriteFile(key: Key, path: string, content: string)
      requires key in disk
      modifies this
      ensures disk == Put(old(disk), key, path, content)
      ensures Walk(old(trace), old(disk), trace, disk)
      ensures forall i | |old(trace)| <= i < |trace| ::
        trace[i] == old(disk) || PartWritten(old(disk), key, path, content, trace[i])
    {
      hide Walk;
      ghost var before, earlier := disk, trace;
      var n := 0;
      Do(OpenFile(key, path));
      assert content[..0] == "";
      while n < |content|
        invariant 0 <= n <= |content| && disk == Put(before, key, path, content[..n])
        invariant Walk(earlier, before, trace, disk) && |earlier| <= |trace|
        invariant forall i | |earlier| <= i < |trace| ::
          trace[i] == before || PartWritten(before, key, path, content, trace[i])
      {
        ghost var mid, start := trace, disk;
        assert content[..n + 1] == content[..n] + [content[n]];
        Do(Append(key, path, content[n]));
        WalkJoins(earlier, before, mid, start, trace, disk);
        n := n + 1;
        assert disk[key] == before[key][path := content[..n]];
      }
      assert content[..n] == content;
    }

    /** `shutil.copytree`: a new directory, then the files one by one in any order. */
    method CopyTree(key: Key, files: Files)
      requires key !in disk
      modifies this
      ensures disk == old(disk)[key := files]
      ensures Walk(old(trace), old(disk), trace, disk)
      ensures forall i | |old(trace)| <= i < |trace| ::
        trace[i] == old(disk) || PartCopiedTo(old(disk), key, files, trace[i])
    {
      hide PartOf, PartCopiedTo, PartWritten, Put, CopiedSoFar, Walk;
      ghost var before, earlier := disk, trace;
      Do(MakeDirectory(key));
      var rest := files.Keys;
      CopyStarts(files);
      while rest != {}
        invariant rest <= files.Keys && disk == before[key := CopiedSoFar(files, rest)]
        invariant Walk(earlier, before, trace, disk) && |earlier| <= |trace|
        invariant forall i | |earlier| <= i < |trace| ::
                    trace[i] == before || PartCopiedTo(before, key, files, trace[i])
        decreases |rest|
      {
        var path :| path in rest;
        CopyStep(before, key, files, rest, path);
        ghost var mid, start := trace, disk;
        WriteFile(key, path, files[path]);
        WalkJoins(earlier, before, mid, start, trace, disk);
        WalkExtends(mid, start, trace, disk);
        forall i | |mid| <= i < |trace| ensures PartCopiedTo(before, key, files, trace[i]) {
          if trace[i] != start {
            CopyWritten(before, key, files, rest, path, trace[i]);
          }
        }
        rest := rest - {path};
      }
      CopyEnds(files);
    }

    /** `_is_cache_valid`; the exceptions it swallows are the reads that give None. */
    method IsCacheValid(key: Key, now: DateTime) returns (valid: bool)
      requires now.Valid()
      ensures valid == ScriptCache.IsCacheValid(settings, disk, key, now)
    {
      hide CachedAt, InfoEntryPoint, InfoHash, Micros;
      if key !in disk || METADATA !in disk[key] || MARKER !in disk[key] {
        return false;
      }
      var info := disk[key][MARKER];
      var at := CachedAt(info);
      CachedAtValid(info);
      if at.None? || Micros(now) - Micros(at.value) > Hours(settings.maxAge) {
        return false;
      }
      var entry := InfoEntryPoint(info);
      if entry.None? {
        return false;
      }
      if entry.value in disk[key] {
        var current := Some(settings.hash(disk[key][entry.value]));
        if current != InfoHash(info) {
          return false;
        }
      }
      return true;
    }

    /** `_save_cache_info`. */
    method SaveCacheInfo(key: Key, metadata: Metadata, stored: DateTime)
      requires key in disk
      modifies this
      ensures disk == Put(old(disk), key, MARKER, InfoText(settings, key, old(disk)[key], stored, metadata))
      ensures Walk(old(trace), old(disk), trace, disk)
      ensures forall i | |old(trace)| <= i < |trace| ::
        trace[i] == old(disk) ||
        PartWritten(old(disk), key, MARKER, InfoText(settings, key, old(disk)[key], stored, metadata), trace[i])
    {
      hide Dump, InfoValue, Walk, PartWritten;
      var fileHash :=
        if metadata.entryPoint in disk[key] then Some(settings.hash(disk[key][metadata.entryPoint])) else None;
      var info := InfoValue(settings, key, stored, metadata, fileHash);
      WriteFile(key, MARKER, Dump(info));
    }

    /** `mkdir` that does not mind if the directory is there. */
    method MakeSure(key: Key)
      modifies this
      ensures disk == old(disk)[key := FilesAt(old(disk), key)]
      ensures Walk(old(trace), old(disk), trace, disk)
      ensures forall i | |old(trace)| <= i < |trace| :: trace[i] == old(disk)
    {
      if key !in disk {
        Do(MakeDirectory(key));
      } else {
        WalkStands(trace, disk);
      }
    }

    /** The copy of a download into the version directory. */
    method CopyIn(key: Key, download: Download)
      modifies this
      ensures disk == old(disk)[key := Copied(FilesAt(old(disk), key), download)]
      ensures Walk(old(trace), old(disk), trace, disk)
      ensures download.Tree? ==>
        forall i | |old(trace)| <= i < |trace| :: CopyPasses(old(disk), key, download.files, trace[i])
    {
      hide PartCopiedTo, PartWritten, Walk;
      ghost var before, earlier := disk, trace;
      MakeSure(key);
      WalkExtends(earlier, before, trace, disk);
      ghost var t1, made := trace, disk;
      match download {
        case SingleFile(name, content) =>
          WriteFile(key, name, content);
          WalkJoins(earlier, before, t1, made, trace, disk);
        case Tree(files) =>
          Do(RemoveDirectory(key));
          WalkJoins(earlier, before, t1, made, trace, disk);
          assert disk == before - {key};
          ghost var t2, removed := trace, disk;
          CopyTree(key, files);
          WalkJoins(earlier, before, t2, removed, trace, disk);
          WalkExtends(t2, removed, trace, disk);
          forall i | |t2| <= i < |trace| ensures CopyPasses(before, key, files, trace[i]) {
            if trace[i] != removed {
              CopyAfterRemoval(before, key, files, trace[i]);
            }
          }
      }
    }

    /** What `get_script` does with a download, as far as `_save_cache_info`. */
    method Install(key: Key, download: Option<Download>, stored: DateTime) returns (r: Result)
      modifies this
      ensures (disk, r) == Store(settings, old(disk), key, download, stored)
      ensures Walk(old(trace), old(disk), trace, disk)
      ensures OnlyCuts(settings, old(disk), key, download, stored, old(trace), trace)
      ensures r.Failure? && download.Some? && download.value.Tree? ==>
        IsCut(settings, old(disk), key, download.value.files, stored, disk)
    {
      hide DefaultText, Dump, ParseMetadata, InfoValue, PartCopiedTo, PartWritten, IsCut, InfoText, Walk, CopyPasses;
      WalkStands(trace, disk);
      if download.None? {
        return Failure;
      }
      ghost var before, earlier := disk, trace;
      ghost var tree := if download.value.Tree? then download.value.files else map[];
      CopyIn(key, download.value);
      WalkExtends(earlier, before, trace, disk);
      ghost var copied, t1 := disk, trace;
      if METADATA !in disk[key] {
        WriteFile(key, METADATA, DefaultText(key, stored));
        WalkJoins(earlier, before, t1, copied, trace, disk);
        WalkExtends(t1, copied, trace, disk);
      }
      ghost var installed, t2 := disk, trace;
      ghost var files := WithMetadata(key, Copied(FilesAt(before, key), download.value), stored);
      assert installed == before[key := files];
      if download.value.Tree? {
        InstalledPasses(settings, before, key, tree, stored, |earlier|, t1, t2);
        InstalledIsCut(settings, before, key, tree, stored);
      }
      var metadata := ParseMetadata(disk[key][METADATA]);
      if metadata.None? {
        r := Failure;
      } else {
        SaveCacheInfo(key, metadata.value, stored);
        WalkJoins(earlier, before, t2, installed, trace, disk);
        WalkExtends(t2, installed, trace, disk);
        assert disk == before[key := files[MARKER := InfoText(settings, key, files, stored, metadata.value)]];
        r := Success(disk[key], metadata.value, false);
        if download.value.Tree? {
          forall i | |t2| <= i < |trace| ensures IsCut(settings, before, key, tree, stored, trace[i]) {
            if trace[i] != installed {
              InfoPartIsCut(settings, before, key, tree, stored, trace[i]);
            }
          }
        }
      }
    }

    /** `get_script`; `latest` is what the repository answers for the latest version. */
    method GetScript(name: string, version: Option<string>, latest: Option<string>, now: DateTime,
                     download: Option<Download>, stored: DateTime)
      returns (r: Result)
      requires now.Valid()
      modifies this
      ensures (disk, r) == Request(settings, old(disk), name, version, latest, now, download, stored)
      ensures Walk(old(trace), old(disk), trace, disk)
      ensures forall key | ResolveKey(name, version, latest) == Some(key) ::
        OnlyCuts(settings, old(disk), key, download, stored, old(trace), trace)
    {
      hide ResolveKey, OnlyCuts, Store, MetadataOf, ValidFiles, CachedAt, InfoEntryPoint, InfoHash, Micros, Committed,
           WithMetadata, Walk;
      WalkStands(trace, disk);
      var key := ResolveKey(name, version, latest);
      if key.None? {
        return Failure;
      }
      NothingCut(settings, disk, key.value, download, stored, trace);
      var valid := IsCacheValid(key.value, now);
      if valid {
        var metadata := MetadataOf(disk[key.value]);
        if metadata.None? {
          return Failure;
        }
        return Success(disk[key.value], metadata.value, true);
      }
      r := Install(key.value, download, stored);
    }

    /** `invalidate_cache`. */
    method InvalidateCache(name: string, version: Option<string>)
      modifies this
      ensures disk == Invalidate(old(disk), name, version)
      ensures Walk(old(trace), old(disk), trace, disk)
    {
      hide Walk;
      WalkStands(trace, disk);
      if version.Some? && version.value != "" {
        var key := Key(name, version.value);
        if key in disk {
          Do(RemoveDirectory(key));
        }
      } else if exists key :: key in disk && key.name == name {
        Do(RemoveScript(name));
      }
      assert disk == Invalidate(old(disk), name, version);
    }

    /** `cleanup_old_cache`: the directories of `cache_dir` one by one, and their subdirectories. */
    method CleanupOldCache(maxAgeHours: int, now: DateTime) returns (cleanedCount: nat)
      requires now.Valid()
      modifies this
      ensures disk == Cleaned(old(disk), maxAgeHours, now)
      ensures cleanedCount == |old(disk)| - |disk|
      ensures Walk(old(trace), old(disk), trace, disk)
    {
      hide Survives, Walk;
      cleanedCount := 0;
      ghost var before, earlier := disk, trace;
      WalkStands(trace, disk);
      var names := set key | key in disk :: key.name;
      while names != {}
        invariant forall key | key in before :: key.name in names ==> key in disk
        invariant forall key | key in before && key.name !in names ::
          key in disk <==> Survives(before[key], maxAgeHours, now)
        invariant disk.Keys <= before.Keys && forall key | key in disk :: disk[key] == before[key]
        invariant cleanedCount == |before| - |disk| && Walk(earlier, before, trace, disk)
        decreases |names|
      {
        var name :| name in names;
        ghost var mid, start := trace, disk;
        var removed := CleanupScript(name, maxAgeHours, now);
        WalkJoins(earlier, before, mid, start, trace, disk);
        cleanedCount := cleanedCount + removed;
        names := names - {name};
      }
      assert disk == Cleaned(before, maxAgeHours, now);
    }

    /** The inner loop of `cleanup_old_cache`, over the versions of one script. */
    method CleanupScript(name: string, maxAgeHours: int, now: DateTime) returns (removed: nat)
      requires now.Valid()
      modifies this
      ensures disk.Keys <= old(disk).Keys && forall key | key in disk :: disk[key] == old(disk)[key]
      ensures forall key | key in old(disk) ::
        key in disk <==> (key.name == name ==> Survives(old(disk)[key], maxAgeHours, now))
      ensures removed == |old(disk)| - |disk|
      ensures Walk(old(trace), old(disk), trace, disk)
    {
      hide CachedAt, Micros, Hours, Walk;
      removed := 0;
      ghost var before, earlier := disk, trace;
      WalkStands(trace, disk);
      var cutoff := Micros(now) - Hours(maxAgeHours);
      var versions := set key | key in disk && key.name == name :: key;
      while versions != {}
        invariant forall key | key in before ::
          key in disk <==> (key.name == name && key !in versions ==> Survives(before[key], maxAgeHours, now))
        invariant versions <= before.Keys && forall key | key in versions :: key.name == name
        invariant disk.Keys <= before.Keys && forall key | key in disk :: disk[key] == before[key]
        invariant removed == |before| - |disk| && Walk(earlier, before, trace, disk)
        decreases |versions|
      {
        var key :| key in versions;
        assert key in disk && disk[key] == before[key];
        versions := versions - {key};
        var stale := true;
        if MARKER in disk[key] {
          var at := CachedAt(disk[key][MARKER]);
          CachedAtValid(disk[key][MARKER]);
          stale := at.Some? && Micros(at.value) < cutoff;
        }
        if stale {
          assert (disk - {key}).Keys == disk.Keys - {key};
          ghost var mid, start := trace, disk;
          Do(RemoveDirectory(key));
          WalkJoins(earlier, before, mid, start, trace, disk);
          removed := removed + 1;
        }
      }
    }

    /** The sizes of all files below a version directory. */
    method DirectorySize(key: Key) returns (size: nat)
      requires key in disk
      ensures size == TotalSize(disk[key])
    {
      hide Utf8Length, TotalSize;
      size := 0;
      var rest := disk[key];
      while rest != map[]
        invariant size + TotalSize(rest) == TotalSize(disk[key])
        decreases |rest|
      {
        var path :| path in rest;
        SizeWithout(rest, path);
        size := size + Utf8Length(rest[path]);
        assert (rest - {path}).Keys == rest.Keys - {path};
        rest := rest - {path};
      }
      NoSize();
    }

    /** `get_cached_scripts`; None when its sort raises. */
    method GetCachedScripts() returns (scripts: Option<seq<Listed>>)
      requires forall key | key in disk :: Listable(disk[key])
      ensures exists order | Enumerates(order, disk) :: scripts == Sorted(Listing(disk, order))
    {
      hide ListedInfo, Listing, TotalSize, Sorted;
      var lines := [];
      ghost var order: seq<Key> := [];
      assert Listing(disk, []) == [] by { EmptyListing(disk); }
      var rest := disk.Keys;
      while rest != {}
        invariant rest <= disk.Keys && forall key :: key in order <==> key in disk && key !in rest
        invariant forall i, j | 0 <= i < j < |order| :: order[i] != order[j]
        invariant lines == Listing(disk, order)
        decreases |rest|
      {
        var key :| key in rest;
        if MARKER in disk[key] {
          var size := DirectorySize(key);
          var line := ListedInfo(disk[key][MARKER], size);
          if line.Some? {
            lines := lines + [line.value];
          }
        }
        ListingMore(disk, order, key);
        order := order + [key];
        rest := rest - {key};
      }
      assert Enumerates(order, disk);
      scripts := Sorted(lines);
    }
  }

  /** `ScriptDownloader.get_script`: a forced download first drops what is cached. */
  class ScriptDownloader {
    const cacheManager: CacheManager

    constructor (cacheManager: CacheManager)
      ensures this.cacheManager == cacheManager
    {
      this.cacheManager := cacheManager;
    }

    method GetScript(name: string, version: Option<string>, latest: Option<string>, forceDownload: bool, now: DateTime,
                     download: Option<Download>, stored: DateTime)
      returns (r: Result)
      requires now.Valid()
      modifies cacheManager
      ensures var start :=
          if forceDownload then Invalidate(old(cacheManager.disk), name, version) else old(cacheManager.disk);
        (cacheManager.disk, r) == Request(cacheManager.settings, start, name, version, latest, now, download, stored)
    {
      hide Request, ResolveKey, Invalidate, OnlyCuts;
      if forceDownload {
        cacheManager.InvalidateCache(name, version);
      }
      r := cacheManager.GetScript(name, version, latest, now, download, stored);
    }
  }
}
