/** How long entries live: a stored script is a hit until it expires, and cleanup never changes
    what any later get returns. Also which edits of an entry make a hit differ from downloading. */
module ScriptCacheLifetimes {
  import opened Wrappers
  import opened Timestamps
  import Json
  import opened JsonText
  import opened JsonValues
  import opened ScriptCache
  import opened ScriptCacheRuns

  // ----- entries edited in place -----

  /** The marker is that of the committed download of `tree`; every other file may be anything, or gone. */
  ghost predicate MarkedFor(s: Settings, key: Key, tree: Files, at: DateTime, files: Files) {
    hide ParseMetadata, InfoText, DefaultText;
    && at.Valid() && Direct(tree).Some? && MARKER in files
    && match Committed(s, key, WithMetadata(key, tree, at), at)
       case None => false
       case Some(done) => MARKER in done && files[MARKER] == done[MARKER]
  }

  lemma {:induction false} MarkerReads(s: Settings, key: Key, tree: Files, at: DateTime, files: Files)
    requires MarkedFor(s, key, tree, at, files)
    ensures var path := Direct(tree).value.path;
      && InfoEntryPoint(files[MARKER]) == Some(path)
      && InfoHash(files[MARKER]) == HashOf(s, WithMetadata(key, tree, at), path)
    ensures ContentAt(WithMetadata(key, tree, at), Direct(tree).value.path) == Direct(tree).value.content
  {
    hide ParseMetadata, CachedAt, InfoEntryPoint, InfoHash, InfoText, Dump, DefaultText;
    var installed := WithMetadata(key, tree, at);
    InstalledEntry(key, tree, at);
    CommittedReads(s, key, installed, at, Committed(s, key, installed, at).value);
  }

  /** Under a sound marker the entry's script is the downloaded one, or is not there. */
  lemma {:induction false} ScriptKept(s: Settings, key: Key, tree: Files, at: DateTime, files: Files, now: DateTime)
    requires Injective(s.hash) && now.Valid() && MarkedFor(s, key, tree, at, files) && ValidFiles(s, files, now)
    ensures var path := Direct(tree).value.path; path in files ==> Some(files[path]) == Direct(tree).value.content
  {
    hide ParseMetadata, CachedAt, InfoEntryPoint, InfoHash, Expired, Committed, WithMetadata, Direct;
    MarkerReads(s, key, tree, at, files);
  }

  /** Exactly when a hit is right, with everything but the marker edited at will: the metadata must still name the
      downloaded script, and the script must be there if the download had it. Its content needs no condition. */
  lemma {:induction false} HitAgreesExactly(s: Settings, key: Key, tree: Files, at: DateTime, files: Files,
                                            now: DateTime)
    requires Injective(s.hash) && now.Valid() && MarkedFor(s, key, tree, at, files) && ValidFiles(s, files, now)
    ensures var path := Direct(tree).value.path;
      EntryOf(files) == Direct(tree) <==>
        && MetadataOf(files).Some? && MetadataOf(files).value.entryPoint == path
        && (path in tree ==> path in files)
  {
    hide ParseMetadata, CachedAt, InfoEntryPoint, InfoHash, Expired, Committed, WithMetadata, ValidFiles;
    ScriptKept(s, key, tree, at, files, now);
    MarkedDirect(s, key, tree, at, files);
  }

  lemma {:induction false} MarkedDirect(s: Settings, key: Key, tree: Files, at: DateTime, files: Files)
    requires MarkedFor(s, key, tree, at, files)
    ensures Direct(tree).Some? && Direct(tree).value.content == ContentAt(tree, Direct(tree).value.path)
  {
    hide ParseMetadata, Committed, WithMetadata;
  }

  /** Stored entries are so marked. */
  lemma {:induction false} StoredIsMarked(s: Settings, disk: Disk, key: Key, tree: Files, stored: DateTime)
    requires SoundTree(tree) && stored.Valid() && Direct(tree).Some?
    ensures var after := Store(s, disk, key, Some(Tree(tree)), stored).0;
      key in after && MarkedFor(s, key, tree, stored, after[key])
  {
    hide ParseMetadata, InfoText, DefaultText, Dump;
    InstalledEntry(key, tree, stored);
  }

  function WithText(disk: Disk, key: Key, text: string): Disk
    requires key in disk
  {
    disk[key := disk[key][METADATA := text]]
  }

  /** Editing `metadata.json` to name another script goes unnoticed: the entry stays a hit, and the hit gives
      that other script. */
  lemma {:induction false} RenamedHitIsWrong(s: Settings, disk: Disk, key: Key, tree: Files, at: DateTime, text: string,
                                             now: DateTime, download: Option<Download>, later: DateTime)
    requires key in disk && MarkedFor(s, key, tree, at, disk[key])
    requires now.Valid() && ValidFiles(s, disk[key], now) && Direct(tree).value.path != METADATA
    requires ParseMetadata(text).Some? && ParseMetadata(text).value.entryPoint != Direct(tree).value.path
    ensures var (after, r) := GetScript(s, WithText(disk, key, text), key, now, download, later);
      && r.Success? && r.hit && ResultEntry(r).path == ParseMetadata(text).value.entryPoint
      && Some(ResultEntry(r)) != Direct(tree)
  {
    hide ParseMetadata, ValidFiles, Store, Direct, MarkedFor, HashOf, WithMetadata, InfoEntryPoint, InfoHash, ContentAt;
    MarkerReads(s, key, tree, at, disk[key]);
    RenamedStaysValid(s, disk[key], text, now);
  }

  lemma {:induction false} RenamedStaysValid(s: Settings, files: Files, text: string, now: DateTime)
    requires now.Valid() && ValidFiles(s, files, now) && InfoEntryPoint(files[MARKER]) != Some(METADATA)
    ensures ValidFiles(s, files[METADATA := text], now)
  {
    hide CachedAt, InfoEntryPoint, InfoHash, Expired;
  }

  /** Such metadata: whatever entry point it names, it parses. */
  function Naming(entry: string): (v: Json.Value)
    ensures v.Object?
  {
    Json.Object([Field("name", Str("")), Field("version", Str("")), Field("description", Str("")),
                 Field("author", Str("")), Field("entry_point", Str(entry))])
  }

  lemma {:induction false} NamingReads(entry: string)
    ensures ParseMetadata(Dump(Naming(entry))).Some?
    ensures ParseMetadata(Dump(Naming(entry))).value.entryPoint == entry
  {
    hide StringBody, Unquote, Quote, Str, Field, Dump, Json.Parse, WellFormed, Lookup;
    NamingLookups(entry);
    LoadDump(Naming(entry));
    StrReads(entry);
  }

  const NAMING_KEYS: seq<string> := ["name", "version", "description", "author", "entry_point"]

  lemma {:induction false} NamingLookups(entry: string)
    ensures WellFormed(Naming(entry))
    ensures var d := Naming(entry).members;
      && Lookup(d, "name").Some? && Lookup(d, "version").Some? && Lookup(d, "description").Some?
      && Lookup(d, "author").Some? && Lookup(d, "created_at").None? && Lookup(d, "updated_at").None?
      && Lookup(d, "entry_point") == Some(Str(entry))
  {
    hide StringBody, Unquote, Quote, Str, Field, WellFormed, MemberOk, Lookup;
    var d := Naming(entry).members;
    StrFieldOk("name", "");
    StrFieldOk("version", "");
    StrFieldOk("description", "");
    StrFieldOk("author", "");
    StrFieldOk("entry_point", entry);
    ObjectOk(d);
    assert KeysAre(d, NAMING_KEYS);
    LookupKeys(d, NAMING_KEYS, 0);
    LookupKeys(d, NAMING_KEYS, 1);
    LookupKeys(d, NAMING_KEYS, 2);
    LookupKeys(d, NAMING_KEYS, 3);
    LookupKeys(d, NAMING_KEYS, 4);
    LookupMissing(d, "created_at");
    LookupMissing(d, "updated_at");
  }

  /** Deleting the script never makes a valid entry invalid. */
  lemma {:induction false} DeletionGoesUnnoticed(s: Settings, files: Files, now: DateTime)
    requires now.Valid() && ValidFiles(s, files, now)
    requires InfoEntryPoint(files[MARKER]).value != METADATA && InfoEntryPoint(files[MARKER]).value != MARKER
    ensures ValidFiles(s, map p | p in files && p != InfoEntryPoint(files[MARKER]).value :: files[p], now)
  {
    hide CachedAt, InfoEntryPoint, InfoHash;
  }

  // ----- store, then hit -----

  /** Events that leave the entry of `key` alone: no invalidation, edit or in-flight download of that
      very key, and cleanup only of what has expired anyway. */
  predicate Spares(s: Settings, key: Key, e: Event) {
    match e.op
    case Get(name, version, latest, force, reachable, stored) => force ==> !Invalidates(name, version, key)
    case Finish(k, reachable, stored) => k != key
    case GetCut(k, cut, storing) => true
    case FinishCut(k, cut, storing) => k != key
    case Tick => true
    case InvalidateOp(name, version) => !Invalidates(name, version, key)
    case CleanupOp(hours) => hours >= s.maxAge
    case EditEntry(k, content) => k != key
  }

  /** An entry that is valid from its own `cached_at` until that expires. */
  ghost predicate StoredAt(s: Settings, files: Files, at: DateTime) {
    && at.Valid() && METADATA in files && MARKER in files && MetadataOf(files).Some?
    && CachedAt(files[MARKER]) == Some(at)
    && forall now: DateTime | now.Valid() && !Expired(s, at, now) :: ValidFiles(s, files, now)
  }

  /** What a successful miss stores is such an entry. */
  lemma {:induction false} MissStores(s: Settings, disk: Disk, key: Key, tree: Files, stored: DateTime)
    requires SoundTree(tree) && stored.Valid() && Direct(tree).Some?
    ensures var (after, r) := Store(s, disk, key, Some(Tree(tree)), stored);
      r.Success? && key in after && StoredAt(s, after[key], stored)
  {
    hide ParseMetadata, CachedAt, InfoEntryPoint, InfoHash, InfoText, Dump, DefaultText, Micros;
    var installed := WithMetadata(key, tree, stored);
    InstalledEntry(key, tree, stored);
    var done := Committed(s, key, installed, stored).value;
    CommittedReads(s, key, installed, stored, done);
    CommittedEntry(s, key, installed, stored, done);
  }

  lemma {:induction false} SurvivesWhileFresh(s: Settings, files: Files, at: DateTime, now: DateTime, hours: int)
    requires StoredAt(s, files, at) && now.Valid() && !Expired(s, at, now) && hours >= s.maxAge
    ensures Survives(files, hours, now)
  {
    hide CachedAt, ValidFiles, Micros;
  }

  /** The result of a hit on `files`. */
  function HitOf(files: Files): Option<Result> {
    match MetadataOf(files)
    case None => None
    case Some(m) => Some(Success(files, m, true))
  }

  lemma {:induction false} StepSpares(s: Settings, trees: Trees, disk: Disk, e: Event, key: Key, at: DateTime)
    requires Legal(s, trees, e) && SoundTrees(trees)
    requires key in disk && StoredAt(s, disk[key], at) && !Expired(s, at, e.now) && Spares(s, key, e)
    ensures var (after, r) := Step(s, trees, disk, e);
      && key in after && after[key] == disk[key]
      && (IsGet(e.op) && Wanted(e.op) == Some(key) ==> r == HitOf(disk[key]))
  {
    hide CachedAt, ValidFiles, Expired, Survives, Direct, PossibleCut, CutDisk, WithMetadata, Committed, MetadataOf,
         ResolveKey;
    match e.op
    case GetCut(k, cut, storing) =>
      if k in trees && !IsCacheValid(s, disk, k, e.now) {
        SoundHasNoMarker(trees[k]);
        CutEntry(s, disk, k, trees[k], cut, storing);
      }
    case FinishCut(k, cut, storing) =>
      if k in trees {
        SoundHasNoMarker(trees[k]);
        CutEntry(s, disk, k, trees[k], cut, storing);
      }
    case CleanupOp(hours) => SurvivesWhileFresh(s, disk[key], at, e.now, hours);
    case _ =>
  }

  ghost predicate AllHit(s: Settings, trees: Trees, disk: Disk, events: seq<Event>, key: Key, hit: Option<Result>)
    requires LegalRun(s, trees, events)
  {
    hide Step, Legal, Wanted, IsGet;
    forall i | 0 <= i < |events| && IsGet(events[i].op) && Wanted(events[i].op) == Some(key) ::
      Outcomes(s, trees, disk, events)[i] == hit
  }

  ghost predicate AllSpare(s: Settings, events: seq<Event>, key: Key, at: DateTime)
    requires at.Valid()
  {
    forall e | e in events :: e.now.Valid() && !Expired(s, at, e.now) && Spares(s, key, e)
  }

  /** Once stored, every get of the key up to its maximum age is a hit and downloads nothing,
      whatever else happens, unless the entry itself is invalidated, edited or downloaded again. */
  lemma {:induction false} StoredThenHit(s: Settings, trees: Trees, disk: Disk, events: seq<Event>, key: Key,
                                         at: DateTime)
    requires LegalRun(s, trees, events) && SoundTrees(trees)
    requires at.Valid() && AllSpare(s, events, key, at) && key in disk && StoredAt(s, disk[key], at)
    ensures var after := RunDisk(s, trees, disk, events); key in after && after[key] == disk[key]
    ensures AllHit(s, trees, disk, events, key, HitOf(disk[key]))
    decreases |events|
  {
    hide Step, StoredAt, Spares, Expired, Legal, SoundTrees, HitOf, Wanted, IsGet;
    if events != [] {
      assert Legal(s, trees, events[0]) && Spares(s, key, events[0]);
      StepSpares(s, trees, disk, events[0], key, at);
      var after := Step(s, trees, disk, events[0]).0;
      StoredThenHit(s, trees, after, events[1..], key, at);
      forall i | 0 <= i < |events| && IsGet(events[i].op) && Wanted(events[i].op) == Some(key)
        ensures Outcomes(s, trees, disk, events)[i] == HitOf(disk[key])
      {
        if i > 0 {
          assert events[i] == events[1..][i - 1];
        }
      }
    }
  }

  /** The get that misses and stores. */
  lemma {:induction false} StepStores(s: Settings, trees: Trees, disk: Disk, e: Event, key: Key)
    requires Legal(s, trees, e) && SoundTrees(trees) && IsGet(e.op) && Wanted(e.op) == Some(key)
    requires var r := Step(s, trees, disk, e).1; r.Some? && r.value.Success? && !r.value.hit
    ensures key in Step(s, trees, disk, e).0 && StoredAt(s, Step(s, trees, disk, e).0[key], e.op.stored)
  {
    hide StoredAt, IsCacheValid, MetadataOf, Committed, WithMetadata, Direct, SoundTree, ResolveKey, Invalidate,
         PossibleCut, CutDisk, Cleaned, Copied, FilesAt, Micros;
    var d := if e.op.Get? then Prepared(disk, e.op) else disk;
    assert Step(s, trees, disk, e).0 == Store(s, d, key, Fetch(trees, key, e.op.reachable), e.op.stored).0;
    MissAgrees(s, d, key, trees[key], e.op.stored);
    MissStores(s, d, key, trees[key], e.op.stored);
  }

  /** End to end: after a get that downloaded, every later get of that key until `stored` plus the maximum age
      hits the very same files, across all operations that spare the entry. */
  lemma {:induction false} MissThenHits(s: Settings, trees: Trees, disk: Disk, e: Event, rest: seq<Event>, key: Key)
    requires Legal(s, trees, e) && LegalRun(s, trees, rest) && SoundTrees(trees)
    requires IsGet(e.op) && Wanted(e.op) == Some(key) && e.op.stored.Valid()
    requires var r := Step(s, trees, disk, e).1; r.Some? && r.value.Success? && !r.value.hit
    requires AllSpare(s, rest, key, e.op.stored)
    ensures var after := Step(s, trees, disk, e).0;
      key in after && AllHit(s, trees, after, rest, key, HitOf(after[key]))
  {
    hide Step, StoredAt, AllSpare, AllHit, HitOf, Legal, LegalRun, SoundTrees, Wanted;
    StepStores(s, trees, disk, e, key);
    StoredThenHit(s, trees, Step(s, trees, disk, e).0, rest, key, e.op.stored);
  }

  // ----- forced downloads -----

  /** A forced get never hits, with or without a version: what it could hit has been dropped first. */
  lemma {:induction false} ForcedNeverHits(s: Settings, disk: Disk, name: string, version: Option<string>,
                                           latest: Option<string>, now: DateTime, download: Option<Download>,
                                           stored: DateTime)
    requires now.Valid()
    ensures var r := Request(s, Invalidate(disk, name, version), name, version, latest, now, download, stored).1;
      r.Success? ==> !r.hit
  {
    hide ValidFiles, Committed, WithMetadata, MetadataOf, Copied;
    var key := ResolveKey(name, version, latest);
    if key.Some? {
      assert key.value !in Invalidate(disk, name, version);
    }
  }

  /** Without forcing, a get hits exactly when the entry is valid and its metadata can be read. */
  lemma {:induction false} HitsExactly(s: Settings, disk: Disk, key: Key, now: DateTime, download: Option<Download>,
                                       stored: DateTime)
    requires now.Valid()
    ensures var (after, r) := GetScript(s, disk, key, now, download, stored);
      && (r.Success? && r.hit <==> IsCacheValid(s, disk, key, now) && MetadataOf(disk[key]).Some?)
      && (IsCacheValid(s, disk, key, now) ==> after == disk)
      && (forall k | k != key :: (k in after <==> k in disk) && (k in disk ==> after[k] == disk[k]))
  {
    hide ValidFiles, Committed, WithMetadata, MetadataOf, Copied;
  }

  // ----- cleanup is transparent -----

  /** What cleanup keeps: an entry with no marker goes, one whose marker cannot be read stays, and any other
      stays exactly if its age is at most the limit. Kept entries are untouched. */
  lemma {:induction false} CleanupSurvivors(disk: Disk, hours: int, now: DateTime, key: Key)
    requires now.Valid() && key in disk
    ensures var kept := Cleaned(disk, hours, now);
      && (key in kept ==> kept[key] == disk[key])
      && (MARKER !in disk[key] ==> key !in kept)
      && (MARKER in disk[key] && CachedAt(disk[key][MARKER]).None? ==> key in kept)
      && (MARKER in disk[key] && CachedAt(disk[key][MARKER]).Some? ==>
            (key in kept <==> Micros(now) - Micros(CachedAt(disk[key][MARKER]).value) <= Hours(hours)))
  {
    if MARKER in disk[key] {
      CachedAtValid(disk[key][MARKER]);
    }
    hide CachedAt, Micros;
  }

  // ----- ages, told on the calendar -----

  /** An entry expires when it is later than `maxAge` hours after it was stored, not before. */
  lemma {:induction false} ExpiresOnCalendar(s: Settings, at: DateTime, now: DateTime)
    requires at.Valid() && now.Valid()
    ensures Expired(s, at, now) <==> Earlier(HoursLater(at, s.maxAge), now)
  {
    hide Micros, Earlier, HoursLater, Hours;
    OlderThan(at, s.maxAge, now);
  }

  /** With a maximum age of 24 hours: valid up to and including the same time on the next day, and no longer. */
  lemma {:induction false} ValidForOneDay(s: Settings, files: Files, at: DateTime, now: DateTime)
    requires s.maxAge == 24 && StoredAt(s, files, at) && now.Valid()
    ensures ValidFiles(s, files, now) <==> !Earlier(NextDay(at), now)
  {
    hide Earlier, HoursLater, NextDay, Expired, CachedAt, InfoEntryPoint, InfoHash;
    ExpiresOnCalendar(s, at, now);
    DayLater(at);
  }

  /** What cleanup keeps, told so: an entry no later than `hours` hours after it was stored. */
  lemma {:induction false} KeptOnCalendar(disk: Disk, hours: nat, now: DateTime, key: Key)
    requires now.Valid() && key in disk && MARKER in disk[key] && CachedAt(disk[key][MARKER]).Some?
    ensures var at := CachedAt(disk[key][MARKER]).value;
      key in Cleaned(disk, hours, now) <==> !Earlier(HoursLater(at, hours), now)
  {
    CachedAtValid(disk[key][MARKER]);
    hide CachedAt, Micros, Earlier, HoursLater, Hours;
    CleanupSurvivors(disk, hours, now, key);
    OlderThan(CachedAt(disk[key][MARKER]).value, hours, now);
  }

  /** An entry no get can hit any more, whatever happens to its script. */
  predicate Dead(s: Settings, disk: Disk, key: Key, now: DateTime)
    requires now.Valid()
  {
    key in disk && MARKER in disk[key] ==>
      var at := CachedAt(disk[key][MARKER]); at.Some? && at.value.Valid() && Expired(s, at.value, now)
  }

  predicate SameEntry(a: Disk, b: Disk, key: Key) {
    (key in a <==> key in b) && (key in a ==> a[key] == b[key])
  }

  predicate Paired(s: Settings, a: Disk, b: Disk, key: Key, now: DateTime)
    requires now.Valid()
  {
    SameEntry(a, b, key) || (Dead(s, a, key, now) && Dead(s, b, key, now))
  }

  /** Disks that differ in dead entries only. */
  ghost predicate SameLive(s: Settings, a: Disk, b: Disk, now: DateTime)
    requires now.Valid()
  {
    forall key :: Paired(s, a, b, key, now)
  }

  /** Events alike up to cleanup of what has expired anyway. */
  predicate Quiet(s: Settings, op: Op) {
    op.Tick? || (op.CleanupOp? && op.maxAgeHours >= s.maxAge)
  }

  predicate AlikeEvent(s: Settings, a: Event, b: Event) {
    a == b || (a.now == b.now && Quiet(s, a.op) && Quiet(s, b.op))
  }

  ghost predicate Alike(s: Settings, a: seq<Event>, b: seq<Event>) {
    |a| == |b| && forall i | 0 <= i < |a| :: AlikeEvent(s, a[i], b[i])
  }

  predicate Chronological(from: DateTime, events: seq<Event>)
    decreases |events|
  {
    events != [] ==>
      from.Valid() && events[0].now.Valid() && Micros(from) <= Micros(events[0].now)
      && Chronological(events[0].now, events[1..])
  }

  lemma {:induction false} DeadLater(s: Settings, disk: Disk, key: Key, now: DateTime, later: DateTime)
    requires now.Valid() && later.Valid() && Micros(now) <= Micros(later) && Dead(s, disk, key, now)
    ensures Dead(s, disk, key, later) && !IsCacheValid(s, disk, key, later)
  {
    hide CachedAt, InfoEntryPoint, InfoHash, Micros;
  }

  lemma {:induction false} SameLiveLater(s: Settings, a: Disk, b: Disk, now: DateTime, later: DateTime)
    requires now.Valid() && later.Valid() && Micros(now) <= Micros(later) && SameLive(s, a, b, now)
    ensures SameLive(s, a, b, later)
  {
    hide Dead, SameEntry, Micros;
    forall key ensures Paired(s, a, b, key, later) {
      assert Paired(s, a, b, key, now);
      if !SameEntry(a, b, key) {
        DeadLater(s, a, key, now, later);
        DeadLater(s, b, key, now, later);
      }
    }
  }

  /** What one cleanup does to one key: nothing, or it removes an entry that was dead already. */
  lemma {:induction false} CleanupEntry(s: Settings, disk: Disk, hours: int, now: DateTime, key: Key)
    requires now.Valid() && hours >= s.maxAge
    ensures Paired(s, Cleaned(disk, hours, now), disk, key, now)
  {
    hide CachedAt, Micros;
  }

  lemma {:induction false} QuietSame(s: Settings, trees: Trees, disk: Disk, e: Event)
    requires Legal(s, trees, e) && Quiet(s, e.op)
    ensures SameLive(s, Step(s, trees, disk, e).0, disk, e.now) && Step(s, trees, disk, e).1.None?
  {
    hide Paired, Cleaned, Micros, PossibleCut, GetScript, Store, CutDisk, Direct, ResolveKey, IsCacheValid, Invalidate;
    if e.op.CleanupOp? {
      forall key ensures Paired(s, Cleaned(disk, e.op.maxAgeHours, e.now), disk, key, e.now) {
        CleanupEntry(s, disk, e.op.maxAgeHours, e.now, key);
      }
    } else {
      SameDiskLive(s, disk, e.now);
    }
  }

  lemma {:induction false} SameLiveTransitive(s: Settings, a: Disk, b: Disk, c: Disk, now: DateTime)
    requires now.Valid() && SameLive(s, a, b, now) && SameLive(s, b, c, now)
    ensures SameLive(s, a, c, now)
  {
    hide CachedAt, Expired;
    forall key ensures Paired(s, a, c, key, now) {
      assert Paired(s, a, b, key, now) && Paired(s, b, c, key, now);
    }
  }

  lemma {:induction false} SameLiveSymmetric(s: Settings, a: Disk, b: Disk, now: DateTime)
    requires now.Valid() && SameLive(s, a, b, now)
    ensures SameLive(s, b, a, now)
  {
    hide Dead;
    forall key ensures Paired(s, b, a, key, now) {
      assert Paired(s, a, b, key, now);
    }
  }

  /** Two disks written alike at one key. */
  lemma {:induction false} WriteSame(s: Settings, a: Disk, b: Disk, key: Key, files: Files, now: DateTime)
    requires now.Valid() && SameLive(s, a, b, now)
    ensures SameLive(s, a[key := files], b[key := files], now)
  {
    hide CachedAt, Expired;
    var x, y := a[key := files], b[key := files];
    forall k ensures Paired(s, x, y, k, now) {
      assert Paired(s, a, b, k, now);
    }
  }

  lemma {:induction false} StoreSame(s: Settings, trees: Trees, a: Disk, b: Disk, key: Key, reachable: bool,
                                     stored: DateTime, now: DateTime)
    requires now.Valid() && SameLive(s, a, b, now)
    ensures var (x, r) := Store(s, a, key, Fetch(trees, key, reachable), stored);
            var (y, q) := Store(s, b, key, Fetch(trees, key, reachable), stored);
            r == q && SameLive(s, x, y, now)
  {
    hide SameLive, WithMetadata, Committed, MetadataOf;
    if reachable && key in trees {
      var files := WithMetadata(key, trees[key], stored);
      WriteSame(s, a, b, key, files, now);
      var done := Committed(s, key, files, stored);
      if done.Some? {
        WriteSame(s, a, b, key, done.value, now);
      }
    }
  }

  lemma {:induction false} InvalidateSame(s: Settings, a: Disk, b: Disk, name: string, version: Option<string>,
                                          now: DateTime)
    requires now.Valid() && SameLive(s, a, b, now)
    ensures SameLive(s, Invalidate(a, name, version), Invalidate(b, name, version), now)
  {
    hide CachedAt, Expired, Invalidates;
    forall key ensures Paired(s, Invalidate(a, name, version), Invalidate(b, name, version), key, now) {
      assert Paired(s, a, b, key, now);
    }
  }

  lemma {:induction false} CutSame(s: Settings, a: Disk, b: Disk, key: Key, tree: Files, cut: Cut, storing: DateTime,
                                   now: DateTime)
    requires now.Valid() && SameLive(s, a, b, now) && PossibleCut(s, key, tree, cut, storing)
    ensures SameLive(s, CutDisk(s, a, key, tree, cut, storing), CutDisk(s, b, key, tree, cut, storing), now)
  {
    hide Expired, CachedAt, WithMetadata, InfoText, MetadataOf, Dump, DefaultText;
    var x, y := CutDisk(s, a, key, tree, cut, storing), CutDisk(s, b, key, tree, cut, storing);
    forall k ensures Paired(s, x, y, k, now) {
      assert Paired(s, a, b, k, now);
    }
  }

  function Edited(disk: Disk, key: Key, path: string, content: string): Disk {
    if key in disk && path in disk[key] then disk[key := disk[key][path := content]] else disk
  }

  lemma {:induction false} EditSame(s: Settings, a: Disk, b: Disk, key: Key, path: string, content: string,
                                    now: DateTime)
    requires now.Valid() && SameLive(s, a, b, now) && path != MARKER
    ensures SameLive(s, Edited(a, key, path, content), Edited(b, key, path, content), now)
  {
    hide CachedAt, Expired;
    forall k ensures Paired(s, Edited(a, key, path, content), Edited(b, key, path, content), k, now) {
      assert Paired(s, a, b, k, now);
    }
  }

  lemma {:induction false} CheckSame(s: Settings, a: Disk, b: Disk, key: Key, now: DateTime)
    requires now.Valid() && SameLive(s, a, b, now)
    ensures IsCacheValid(s, a, key, now) == IsCacheValid(s, b, key, now)
    ensures IsCacheValid(s, a, key, now) ==> a[key] == b[key]
  {
    hide Dead, ValidFiles, Micros;
    assert Paired(s, a, b, key, now);
    if !SameEntry(a, b, key) {
      DeadLater(s, a, key, now, now);
      DeadLater(s, b, key, now, now);
    }
  }

  lemma {:induction false} GetSame(s: Settings, trees: Trees, a: Disk, b: Disk, key: Key, reachable: bool,
                                   stored: DateTime, now: DateTime)
    requires now.Valid() && SameLive(s, a, b, now)
    ensures var (x, r) := GetScript(s, a, key, now, Fetch(trees, key, reachable), stored);
            var (y, q) := GetScript(s, b, key, now, Fetch(trees, key, reachable), stored);
            r == q && SameLive(s, x, y, now)
  {
    hide SameLive, IsCacheValid, MetadataOf, Store;
    CheckSame(s, a, b, key, now);
    StoreSame(s, trees, a, b, key, reachable, stored, now);
  }

  /** One event on two disks that differ in dead entries only. */
  lemma {:induction false} StepSame(s: Settings, trees: Trees, a: Disk, b: Disk, e: Event)
    requires Legal(s, trees, e) && SoundTrees(trees) && SameLive(s, a, b, e.now)
    requires !e.op.CleanupOp?
    ensures SameLive(s, Step(s, trees, a, e).0, Step(s, trees, b, e).0, e.now)
    ensures Step(s, trees, a, e).1 == Step(s, trees, b, e).1
  {
    hide SameLive, GetScript, Store, Invalidate, CutDisk, PossibleCut, IsCacheValid, Direct, ResolveKey, Fetch;
    match e.op
    case Get(name, version, latest, force, reachable, stored) =>
      InvalidateSame(s, a, b, name, version, e.now);
      var key := ResolveKey(name, version, latest);
      if key.Some? {
        GetSame(s, trees, Prepared(a, e.op), Prepared(b, e.op), key.value, reachable, stored, e.now);
      }
    case Finish(key, reachable, stored) => StoreSame(s, trees, a, b, key, reachable, stored, e.now);
    case GetCut(key, cut, storing) =>
      CheckSame(s, a, b, key, e.now);
      if key in trees {
        CutSame(s, a, b, key, trees[key], cut, storing, e.now);
      }
    case FinishCut(key, cut, storing) =>
      if key in trees {
        CutSame(s, a, b, key, trees[key], cut, storing, e.now);
      }
    case InvalidateOp(name, version) => InvalidateSame(s, a, b, name, version, e.now);
    case EditEntry(key, content) =>
      if key in trees && Direct(trees[key]).Some? {
        EditSame(s, a, b, key, Direct(trees[key]).value.path, content, e.now);
      }
    case _ =>
  }

  lemma {:induction false} CleanupSame(s: Settings, a: Disk, b: Disk, hours: int, now: DateTime)
    requires now.Valid() && SameLive(s, a, b, now)
    ensures SameLive(s, Cleaned(a, hours, now), Cleaned(b, hours, now), now)
  {
    hide CachedAt, Expired, Micros;
    forall key ensures Paired(s, Cleaned(a, hours, now), Cleaned(b, hours, now), key, now) {
      assert Paired(s, a, b, key, now);
    }
  }

  lemma {:induction false} AlikeStep(s: Settings, trees: Trees, a: Disk, b: Disk, e: Event, f: Event)
    requires Legal(s, trees, e) && Legal(s, trees, f) && SoundTrees(trees)
    requires AlikeEvent(s, e, f) && SameLive(s, a, b, e.now)
    ensures SameLive(s, Step(s, trees, a, e).0, Step(s, trees, b, f).0, e.now)
    ensures Step(s, trees, a, e).1 == Step(s, trees, b, f).1
  {
    hide SameLive, Quiet, PossibleCut, Cleaned, CutDisk, Request, Store, Invalidate, Direct, IsCacheValid, Micros,
         FetchWanted;
    var x, y := Step(s, trees, a, e).0, Step(s, trees, b, f).0;
    if Quiet(s, e.op) && Quiet(s, f.op) && e.now == f.now {
      hide Step;
      QuietSame(s, trees, a, e);
      QuietSame(s, trees, b, f);
      SameLiveTransitive(s, x, a, b, e.now);
      SameLiveSymmetric(s, y, b, e.now);
      SameLiveTransitive(s, x, b, y, e.now);
    } else if e.op.CleanupOp? {
      CleanupSame(s, a, b, e.op.maxAgeHours, e.now);
    } else {
      hide Step;
      StepSame(s, trees, a, b, e);
    }
  }

  /** Cleanup is transparent: adding, dropping or moving the age of cleanups that keep at least
      `script_cache_max_age` changes no outcome of any other operation in the run. */
  lemma {:induction false} CleanupTransparent(s: Settings, trees: Trees, from: DateTime, a: Disk, b: Disk,
                                              events: seq<Event>, others: seq<Event>)
    requires LegalRun(s, trees, events) && LegalRun(s, trees, others) && SoundTrees(trees)
    requires Chronological(from, events) && Alike(s, events, others)
    requires from.Valid() && SameLive(s, a, b, from)
    ensures Outcomes(s, trees, a, events) == Outcomes(s, trees, b, others)
    decreases |events|
  {
    hide Step, SameLive, Legal, AlikeEvent, SoundTrees, Micros;
    if events != [] {
      var now := events[0].now;
      assert AlikeEvent(s, events[0], others[0]);
      assert Legal(s, trees, events[0]) && Legal(s, trees, others[0]);
      SameLiveLater(s, a, b, from, now);
      AlikeStep(s, trees, a, b, events[0], others[0]);
      assert forall i | 0 <= i < |events| - 1 :: events[1..][i] == events[i + 1] && others[1..][i] == others[i + 1];
      CleanupTransparent(s, trees, now, Step(s, trees, a, events[0]).0, Step(s, trees, b, others[0]).0,
                         events[1..], others[1..]);
    }
  }

  lemma {:induction false} SameDiskLive(s: Settings, disk: Disk, now: DateTime)
    requires now.Valid()
    ensures SameLive(s, disk, disk, now)
  {
    hide Dead;
    forall key ensures Paired(s, disk, disk, key, now) {
    }
  }
}
