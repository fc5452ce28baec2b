/** Whole runs of the script cache: gets, forced gets, invalidation, cleanup, edits of entry files
    and downloads cut off by a crash, in any order. The cache must agree with downloading. */
module ScriptCacheRuns {
  import opened Wrappers
  import opened Timestamps
  import opened ScriptCache
  import Json
  import opened JsonText

  // ----- what a direct download gives -----

  datatype Entry = Entry(path: string, content: Option<string>)

  function ContentAt(files: Files, path: string): Option<string> {
    if path in files then Some(files[path]) else None
  }

  /** The entry point a directory's metadata names, and the script in it. */
  function EntryOf(files: Files): Option<Entry> {
    match MetadataOf(files)
    case None => None
    case Some(m) => Some(Entry(m.entryPoint, ContentAt(files, m.entryPoint)))
  }

  /** The script a downloaded directory contains; without metadata it is main.py. */
  function Direct(tree: Files): Option<Entry> {
    if METADATA in tree then EntryOf(tree) else Some(Entry("main.py", ContentAt(tree, "main.py")))
  }

  function ResultEntry(r: Result): Entry
    requires r.Success?
  {
    Entry(r.metadata.entryPoint, ContentAt(r.files, r.metadata.entryPoint))
  }

  /** The repository: an unchanging directory for each name and version. */
  type Trees = map<Key, Files>

  /** Downloads bring no commit marker of their own and do not name it as their script. */
  predicate SoundTree(tree: Files) {
    MARKER !in tree && (Direct(tree).Some? ==> Direct(tree).value.path != MARKER)
  }

  predicate SoundTrees(trees: Trees) {
    forall key | key in trees :: SoundTree(trees[key])
  }

  ghost predicate Injective(hash: string -> string) {
    forall a, b :: hash(a) == hash(b) ==> a == b
  }

  lemma {:induction false} InstalledEntry(key: Key, tree: Files, at: DateTime)
    requires at.Valid()
    ensures EntryOf(WithMetadata(key, tree, at)) == Direct(tree)
  {
    hide ParseMetadata, Dump, DefaultText;
    SampleReads(key, at);
  }

  // ----- committed entries -----

  /** What the marker of a committed directory says. */
  lemma {:induction false} CommittedReads(s: Settings, key: Key, files: Files, at: DateTime, done: Files)
    requires at.Valid() && Committed(s, key, files, at) == Some(done)
    ensures MARKER in done && done == files[MARKER := done[MARKER]] && MetadataOf(files).Some?
    ensures var m := MetadataOf(files).value;
      && CachedAt(done[MARKER]) == Some(at)
      && InfoEntryPoint(done[MARKER]) == Some(m.entryPoint)
      && InfoHash(done[MARKER]) == HashOf(s, files, m.entryPoint)
  {
    hide ParseMetadata, Dump, InfoValue, CachedAt, InfoEntryPoint, InfoHash;
    var m := MetadataOf(files).value;
    ParsedMetadataWellFormed(files[METADATA]);
    InfoReads(s, key, at, m, HashOf(s, files, m.entryPoint));
  }

  /** Committing does not change which script a directory holds. */
  lemma {:induction false} CommittedEntry(s: Settings, key: Key, files: Files, at: DateTime, done: Files)
    requires Committed(s, key, files, at) == Some(done)
    requires EntryOf(files).Some? && EntryOf(files).value.path != MARKER
    ensures MetadataOf(done) == MetadataOf(files) && EntryOf(done) == EntryOf(files)
  {
    hide ParseMetadata, InfoText;
  }

  /** `files` is the committed download of `tree`, except perhaps for the content of its script. */
  ghost predicate Derived(s: Settings, key: Key, tree: Files, at: DateTime, files: Files) {
    at.Valid() && Direct(tree).Some? &&
    match Committed(s, key, WithMetadata(key, tree, at), at)
    case None => false
    case Some(done) =>
      && files.Keys == done.Keys
      && forall p | p in done && p != Direct(tree).value.path :: files[p] == done[p]
  }

  /** Every entry whose marker is JSON at all comes from a completed download. */
  ghost predicate GoodEntry(s: Settings, key: Key, tree: Files, files: Files) {
    MARKER in files && Json.Parse(files[MARKER]).Some? ==>
      CachedAt(files[MARKER]).Some? && Derived(s, key, tree, CachedAt(files[MARKER]).value, files)
  }

  ghost predicate GoodDisk(s: Settings, trees: Trees, disk: Disk) {
    forall key | key in disk :: key in trees && GoodEntry(s, key, trees[key], disk[key])
  }

  lemma {:induction false} ReadableParses(info: string)
    ensures CachedAt(info).Some? ==> Json.Parse(info).Some?
  {
  }

  /** A hit returns the committed directory unaltered: an altered script fails the hash check. */
  lemma {:induction false} HitAgrees(s: Settings, key: Key, tree: Files, files: Files, now: DateTime)
    requires Injective(s.hash) && SoundTree(tree) && now.Valid()
    requires GoodEntry(s, key, tree, files) && ValidFiles(s, files, now)
    ensures Committed(s, key, WithMetadata(key, tree, CachedAt(files[MARKER]).value), CachedAt(files[MARKER]).value)
            == Some(files)
    ensures MetadataOf(files).Some? && EntryOf(files) == Direct(tree)
  {
    hide ParseMetadata, CachedAt, InfoEntryPoint, InfoHash, InfoText, Dump, DefaultText, Expired, Json.Parse;
    ReadableParses(files[MARKER]);
    var at := CachedAt(files[MARKER]).value;
    var installed := WithMetadata(key, tree, at);
    var done := Committed(s, key, installed, at).value;
    InstalledEntry(key, tree, at);
    CommittedReads(s, key, installed, at, done);
    CommittedEntry(s, key, installed, at, done);
    var path := Direct(tree).value.path;
    assert path in files ==> files[path] == done[path];
    assert files == done;
  }

  /** A download that completes leaves the direct download, committed, whatever was there before. */
  lemma {:induction false} MissAgrees(s: Settings, disk: Disk, key: Key, tree: Files, stored: DateTime)
    requires SoundTree(tree) && stored.Valid()
    ensures var (after, r) := Store(s, disk, key, Some(Tree(tree)), stored);
      && key in after && GoodEntry(s, key, tree, after[key])
      && (r.Success? <==> Direct(tree).Some?)
      && (r.Success? ==> !r.hit && r.files == after[key] && Direct(tree) == Some(ResultEntry(r)))
  {
    hide ParseMetadata, CachedAt, InfoText, Dump, DefaultText, Json.Parse, InfoEntryPoint, InfoHash;
    var installed := WithMetadata(key, tree, stored);
    InstalledEntry(key, tree, stored);
    if MetadataOf(installed).Some? {
      var done := Committed(s, key, installed, stored).value;
      CommittedReads(s, key, installed, stored, done);
      CommittedEntry(s, key, installed, stored, done);
    }
  }

  // ----- downloads cut off -----

  /** Where a download can stop: the copy may have any part of the files, each cut anywhere. */
  datatype Cut =
    | BeforeDownload
    | DirectoryMade
    | DirectoryRemoved
    | PartCopied(part: Files)
    | MetadataPart(n: nat)
    | InfoPart(n: nat)

  /** Some of the files of `files`, each complete or cut short. */
  predicate PartOf(part: Files, files: Files) {
    forall p | p in part :: p in files && part[p] <= files[p]
  }

  predicate PossibleCut(s: Settings, key: Key, tree: Files, cut: Cut, stored: DateTime) {
    hide DefaultText, ParseMetadata, InfoValue;
    var installed := WithMetadata(key, tree, stored);
    match cut
    case PartCopied(part) => PartOf(part, tree)
    case MetadataPart(n) => METADATA !in tree && n <= |DefaultText(key, stored)|
    case InfoPart(n) =>
      MetadataOf(installed).Some? && n < |InfoText(s, key, installed, stored, MetadataOf(installed).value)|
    case _ => true
  }

  function CutDisk(s: Settings, disk: Disk, key: Key, tree: Files, cut: Cut, stored: DateTime): Disk
    requires PossibleCut(s, key, tree, cut, stored)
  {
    hide DefaultText, ParseMetadata, InfoValue;
    var installed := WithMetadata(key, tree, stored);
    match cut
    case BeforeDownload => disk
    case DirectoryMade => disk[key := FilesAt(disk, key)]
    case DirectoryRemoved => map k | k in disk && k != key :: disk[k]
    case PartCopied(part) => disk[key := part]
    case MetadataPart(n) => disk[key := tree[METADATA := DefaultText(key, stored)[..n]]]
    case InfoPart(n) =>
      disk[key := installed[MARKER := InfoText(s, key, installed, stored, MetadataOf(installed).value)[..n]]]
  }

  lemma {:induction false} UnreadableMarker(info: string)
    requires Json.Parse(info).None?
    ensures CachedAt(info).None?
  {
  }

  lemma {:induction false} CutInfo(s: Settings, key: Key, installed: Files, stored: DateTime, n: nat)
    requires MetadataOf(installed).Some? && n < |InfoText(s, key, installed, stored, MetadataOf(installed).value)|
    ensures var text := InfoText(s, key, installed, stored, MetadataOf(installed).value)[..n];
      Json.Parse(text).None? && CachedAt(text).None?
  {
    hide ParseMetadata, CachedAt, Dump, InfoValue, Json.Parse;
    var m := MetadataOf(installed).value;
    ParsedMetadataWellFormed(installed[METADATA]);
    InfoTruncated(s, key, stored, m, HashOf(s, installed, m.entryPoint), n);
    UnreadableMarker(InfoText(s, key, installed, stored, m)[..n]);
  }

  /** Only the entry of `key` has changed, if at all, and then it has no readable marker. */
  ghost predicate EntryCut(disk: Disk, after: Disk, key: Key) {
    hide CachedAt, Json.Parse;
    && (forall k | k != key :: (k in after <==> k in disk) && (k in disk ==> after[k] == disk[k]))
    && (key in after ==>
          (key in disk && after[key] == disk[key])
          || MARKER !in after[key]
          || (Json.Parse(after[key][MARKER]).None? && CachedAt(after[key][MARKER]).None?))
  }

  /** A cut-off download leaves the entry as it was, or one whose marker is missing or unreadable. */
  lemma {:induction false} CutEntry(s: Settings, disk: Disk, key: Key, tree: Files, cut: Cut, stored: DateTime)
    requires MARKER !in tree && PossibleCut(s, key, tree, cut, stored)
    ensures EntryCut(disk, CutDisk(s, disk, key, tree, cut, stored), key)
  {
    hide ParseMetadata, CachedAt, Dump, DefaultText, InfoValue, InfoText, Json.Parse;
    if cut.InfoPart? {
      CutInfo(s, key, WithMetadata(key, tree, stored), stored, cut.n);
    }
  }

  /** An entry that is invalid now stays invalid until it is written again. */
  lemma {:induction false} StaysInvalid(s: Settings, files: Files, now: DateTime, later: DateTime)
    requires now.Valid() && later.Valid() && Micros(now) <= Micros(later)
    requires !ValidFiles(s, files, now)
    ensures !ValidFiles(s, files, later)
  {
    hide CachedAt, InfoEntryPoint, InfoHash, Micros;
  }

  /** Crash safety: whatever point a miss is cut off at, the entry is not valid at any later time. */
  lemma {:induction false} CutNeverHits(s: Settings, disk: Disk, key: Key, tree: Files, cut: Cut,
                                        now: DateTime, stored: DateTime, later: DateTime)
    requires now.Valid() && later.Valid() && Micros(now) <= Micros(later)
    requires !IsCacheValid(s, disk, key, now)
    requires MARKER !in tree && PossibleCut(s, key, tree, cut, stored)
    ensures !IsCacheValid(s, CutDisk(s, disk, key, tree, cut, stored), key, later)
  {
    hide CachedAt, InfoEntryPoint, InfoHash, Micros, PossibleCut, CutDisk, WithMetadata;
    CutEntry(s, disk, key, tree, cut, stored);
    if key in disk {
      StaysInvalid(s, disk[key], now, later);
    }
  }

  // ----- events and runs -----

  /** `get_script` awaits its download, so other operations may run between its check and its
      writes: `Finish` is the second half of a miss whose check came earlier. */
  datatype Op =
    | Get(name: string, version: Option<string>, latest: Option<string>, force: bool, reachable: bool, stored: DateTime)
    | Finish(key: Key, reachable: bool, stored: DateTime)
    | GetCut(key: Key, cut: Cut, storing: DateTime)
    | FinishCut(key: Key, cut: Cut, storing: DateTime)
    | Tick
    | InvalidateOp(name: string, version: Option<string>)
    | CleanupOp(maxAgeHours: int)
    | EditEntry(key: Key, content: string)

  datatype Event = Event(now: DateTime, op: Op)

  ghost predicate Legal(s: Settings, trees: Trees, e: Event) {
    hide PossibleCut, Micros;
    && e.now.Valid()
    && (e.op.Get? ==> e.op.stored.Valid() && Micros(e.now) <= Micros(e.op.stored))
    && (e.op.Finish? ==> e.op.stored.Valid())
    && (e.op.GetCut? || e.op.FinishCut? ==>
          e.op.storing.Valid()
          && (e.op.key in trees ==> PossibleCut(s, e.op.key, trees[e.op.key], e.op.cut, e.op.storing)))
  }

  function Fetch(trees: Trees, key: Key, reachable: bool): Option<Download> {
    if reachable && key in trees then Some(Tree(trees[key])) else None
  }

  /** The key a get asks for. */
  function Wanted(op: Op): Option<Key> {
    match op
    case Get(name, version, latest, _, _, _) => ResolveKey(name, version, latest)
    case Finish(key, _, _) => Some(key)
    case _ => None
  }

  function FetchWanted(trees: Trees, op: Op): Option<Download>
    requires op.Get?
  {
    match Wanted(op)
    case None => None
    case Some(key) => Fetch(trees, key, op.reachable)
  }

  /** The disk a get works on: `force_download` invalidates first. */
  function Prepared(disk: Disk, op: Op): Disk
    requires op.Get?
  {
    if op.force then Invalidate(disk, op.name, op.version) else disk
  }

  ghost function Step(s: Settings, trees: Trees, disk: Disk, e: Event): (Disk, Option<Result>)
    requires Legal(s, trees, e)
  {
    hide PossibleCut, GetScript, Store, CutDisk, Cleaned, Direct, ResolveKey, IsCacheValid, Invalidate;
    match e.op
    case Get(name, version, latest, force, reachable, stored) =>
      var (after, r) := Request(s, Prepared(disk, e.op), name, version, latest, e.now,
                                FetchWanted(trees, e.op), stored);
      (after, Some(r))
    case Finish(key, reachable, stored) =>
      var (after, r) := Store(s, disk, key, Fetch(trees, key, reachable), stored);
      (after, Some(r))
    case GetCut(key, cut, storing) =>
      if IsCacheValid(s, disk, key, e.now) || key !in trees then (disk, None)
      else (CutDisk(s, disk, key, trees[key], cut, storing), None)
    case FinishCut(key, cut, storing) =>
      if key !in trees then (disk, None) else (CutDisk(s, disk, key, trees[key], cut, storing), None)
    case Tick => (disk, None)
    case InvalidateOp(name, version) => (Invalidate(disk, name, version), None)
    case CleanupOp(hours) => (Cleaned(disk, hours, e.now), None)
    case EditEntry(key, content) =>
      if key in disk && key in trees && Direct(trees[key]).Some? && Direct(trees[key]).value.path in disk[key]
      then (disk[key := disk[key][Direct(trees[key]).value.path := content]], None)
      else (disk, None)
  }

  ghost predicate LegalRun(s: Settings, trees: Trees, events: seq<Event>) {
    forall e | e in events :: Legal(s, trees, e)
  }

  ghost function RunDisk(s: Settings, trees: Trees, disk: Disk, events: seq<Event>): Disk
    requires LegalRun(s, trees, events)
    decreases |events|
  {
    hide Step, Legal;
    if events == [] then disk
    else RunDisk(s, trees, Step(s, trees, disk, events[0]).0, events[1..])
  }

  /** What each event of a run returns. */
  ghost function Outcomes(s: Settings, trees: Trees, disk: Disk, events: seq<Event>): (r: seq<Option<Result>>)
    requires LegalRun(s, trees, events)
    ensures |r| == |events|
    decreases |events|
  {
    hide Step, Legal;
    if events == [] then []
    else
      var (after, r) := Step(s, trees, disk, events[0]);
      [r] + Outcomes(s, trees, after, events[1..])
  }

  // ----- agreement with downloading -----

  predicate IsGet(op: Op) {
    op.Get? || op.Finish?
  }

  /** A get succeeds with the script a download would give, or fails because there is none to get. */
  ghost predicate Agrees(trees: Trees, op: Op, r: Option<Result>) {
    IsGet(op) ==>
      r.Some? &&
      var key := Wanted(op);
      if r.value.Success? then
        key.Some? && key.value in trees && Direct(trees[key.value]) == Some(ResultEntry(r.value))
      else
        key.None? || !op.reachable || key.value !in trees || Direct(trees[key.value]).None?
  }

  lemma {:induction false} StoreKeepsGood(s: Settings, trees: Trees, disk: Disk, key: Key, reachable: bool,
                                          stored: DateTime)
    requires SoundTrees(trees) && GoodDisk(s, trees, disk) && stored.Valid()
    ensures var (after, r) := Store(s, disk, key, Fetch(trees, key, reachable), stored);
      && GoodDisk(s, trees, after)
      && (if r.Success? then key in trees && Direct(trees[key]) == Some(ResultEntry(r))
          else !reachable || key !in trees || Direct(trees[key]).None?)
  {
    hide GoodEntry, Direct, Committed, WithMetadata, MetadataOf, SoundTree, ContentAt;
    if reachable && key in trees {
      MissAgrees(s, disk, key, trees[key], stored);
    }
  }

  lemma {:induction false} GetKeepsGood(s: Settings, trees: Trees, disk: Disk, key: Key, now: DateTime,
                                        reachable: bool, stored: DateTime)
    requires Injective(s.hash) && SoundTrees(trees) && GoodDisk(s, trees, disk) && now.Valid() && stored.Valid()
    ensures var (after, r) := GetScript(s, disk, key, now, Fetch(trees, key, reachable), stored);
      && GoodDisk(s, trees, after)
      && (if r.Success? then key in trees && Direct(trees[key]) == Some(ResultEntry(r))
          else !reachable || key !in trees || Direct(trees[key]).None?)
  {
    hide GoodEntry, Direct, ValidFiles, Committed, WithMetadata, MetadataOf, EntryOf, SoundTree, ContentAt;
    if IsCacheValid(s, disk, key, now) {
      HitAgrees(s, key, trees[key], disk[key], now);
      HitEntry(disk[key]);
    } else {
      StoreKeepsGood(s, trees, disk, key, reachable, stored);
    }
  }

  lemma {:induction false} HitEntry(files: Files)
    requires MetadataOf(files).Some?
    ensures EntryOf(files) == Some(ResultEntry(Success(files, MetadataOf(files).value, true)))
  {
    hide MetadataOf;
  }

  lemma {:induction false} EditKeepsGood(s: Settings, key: Key, tree: Files, files: Files, content: string)
    requires SoundTree(tree) && GoodEntry(s, key, tree, files)
    requires Direct(tree).Some? && Direct(tree).value.path in files
    ensures GoodEntry(s, key, tree, files[Direct(tree).value.path := content])
  {
    hide CachedAt, Committed, WithMetadata, Direct;
  }

  lemma {:induction false} CutKeepsGood(s: Settings, trees: Trees, disk: Disk, key: Key, cut: Cut, storing: DateTime)
    requires SoundTrees(trees) && GoodDisk(s, trees, disk) && key in trees
    requires PossibleCut(s, key, trees[key], cut, storing)
    ensures GoodDisk(s, trees, CutDisk(s, disk, key, trees[key], cut, storing))
  {
    hide CutDisk, PossibleCut, Derived, CachedAt, SoundTree;
    SoundHasNoMarker(trees[key]);
    CutEntry(s, disk, key, trees[key], cut, storing);
  }

  lemma {:induction false} StepAgrees(s: Settings, trees: Trees, disk: Disk, e: Event)
    requires Injective(s.hash) && SoundTrees(trees) && GoodDisk(s, trees, disk) && Legal(s, trees, e)
    ensures GoodDisk(s, trees, Step(s, trees, disk, e).0)
    ensures Agrees(trees, e.op, Step(s, trees, disk, e).1)
  {
    hide GetScript, Store, Direct, ResultEntry, ValidFiles, Survives, ResolveKey, CutDisk, PossibleCut, Derived,
         CachedAt, SoundTree;
    match e.op
    case Get(name, version, latest, force, reachable, stored) =>
      var key := ResolveKey(name, version, latest);
      if key.Some? {
        GetKeepsGood(s, trees, Prepared(disk, e.op), key.value, e.now, reachable, stored);
      }
    case Finish(key, reachable, stored) => StoreKeepsGood(s, trees, disk, key, reachable, stored);
    case GetCut(key, cut, storing) =>
      if key in trees {
        CutKeepsGood(s, trees, disk, key, cut, storing);
      }
    case FinishCut(key, cut, storing) =>
      if key in trees {
        CutKeepsGood(s, trees, disk, key, cut, storing);
      }
    case EditEntry(key, content) =>
      if key in disk && Direct(trees[key]).Some? && Direct(trees[key]).value.path in disk[key] {
        EditKeepsGood(s, key, trees[key], disk[key], content);
      }
    case _ =>
  }

  lemma {:induction false} SoundHasNoMarker(tree: Files)
    requires SoundTree(tree)
    ensures MARKER !in tree
  {
  }

  /** Refinement: in every run, every get agrees with downloading directly. */
  lemma {:induction false} RunAgrees(s: Settings, trees: Trees, disk: Disk, events: seq<Event>)
    requires Injective(s.hash) && SoundTrees(trees) && GoodDisk(s, trees, disk) && LegalRun(s, trees, events)
    ensures GoodDisk(s, trees, RunDisk(s, trees, disk, events))
    ensures forall i | 0 <= i < |events| :: Agrees(trees, events[i].op, Outcomes(s, trees, disk, events)[i])
    decreases |events|
  {
    hide Step, GoodDisk, Agrees, Legal;
    if events != [] {
      var after := Step(s, trees, disk, events[0]).0;
      StepAgrees(s, trees, disk, events[0]);
      RunAgrees(s, trees, after, events[1..]);
      forall i | 0 <= i < |events| ensures Agrees(trees, events[i].op, Outcomes(s, trees, disk, events)[i]) {
        if i > 0 {
          assert events[i] == events[1..][i - 1];
        }
      }
    }
  }

  /** In particular from an empty cache. */
  lemma {:induction false} EmptyIsGood(s: Settings, trees: Trees)
    ensures GoodDisk(s, trees, map[])
  {
  }

  /** A cache that starts empty never has to be anything but a download that is faster. */
  lemma {:induction false} FreshCacheAgrees(s: Settings, trees: Trees, events: seq<Event>)
    requires Injective(s.hash) && SoundTrees(trees) && LegalRun(s, trees, events)
    ensures forall i | 0 <= i < |events| :: Agrees(trees, events[i].op, Outcomes(s, trees, map[], events)[i])
  {
    hide Step, GoodDisk, Agrees, Legal;
    EmptyIsGood(s, trees);
    RunAgrees(s, trees, map[], events);
  }
}
