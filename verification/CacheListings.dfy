/** What `get_cached_scripts` shows of the cache: one line for every committed entry, with the entry's own name,
    version, time, size, repository type and metadata, the newest first. */
module CacheListings {
  import opened Wrappers
  import opened Strings
  import opened Sorting
  import opened Timestamps
  import Json
  import opened JsonText
  import opened JsonValues
  import opened ScriptCache
  import opened ScriptCacheRuns
  import opened CacheManagers

  // ----- sizes -----

  /** A file takes one byte for each ASCII character, two up to U+07FF, three up to U+FFFF, else four. */
  lemma {:induction false} Bytes(content: string, c: char)
    ensures Utf8Length("") == 0
    ensures Utf8Length(content + [c]) == Utf8Length(content) + Utf8Length([c])
    ensures Utf8Length([c]) ==
      if c <= '\U{7f}' then 1 else if c <= '\U{7ff}' then 2 else if c <= '\U{ffff}' then 3 else 4
  {
    assert (content + [c])[..|content|] == content;
    assert [c][..0] == "";
  }

  /** An entry has the bytes of its files, each counted once. */
  lemma {:induction false} SizeAdds(files: Files, path: string, content: string)
    requires path !in files
    ensures TotalSize(map[]) == 0
    ensures TotalSize(files[path := content]) == TotalSize(files) + Utf8Length(content)
  {
    hide Utf8Length;
    SizeWithout(files[path := content], path);
    assert files[path := content] - {path} == files;
  }

  // ----- lines -----

  lemma {:induction false} ByCachedAtPreorder()
    ensures TotalPreorder(ByCachedAt())
  {
    hide LexLess, SortKey;
    var leq := ByCachedAt();
    forall a, b ensures leq(a, b) || leq(b, a) {
      LexLeqPreorder(SortKey(a), SortKey(b), []);
    }
    forall a, b, c ensures leq(a, b) && leq(b, c) ==> leq(a, c) {
      LexLeqPreorder(SortKey(a), SortKey(b), SortKey(c));
    }
  }

  /** A line whose `cached_at` is a printed time. */
  predicate Timed(l: Listed) {
    match AsString(l.cachedAt)
    case None => false
    case Some(text) => FromIsoFormat(text).Some? && text == IsoFormat(FromIsoFormat(text).value)
  }

  function TimeOf(l: Listed): (d: DateTime)
    requires Timed(l)
    ensures d.Valid()
  {
    FromIsoFormat(AsString(l.cachedAt).value).value
  }

  /** The line for an entry of `key`, stored at `at` with metadata `m`, `size` bytes large. */
  predicate IsLineOf(l: Listed, s: Settings, key: Key, at: DateTime, m: Metadata, size: nat) {
    && AsString(l.name) == Some(key.name) && AsString(l.version) == Some(key.version)
    && Timed(l) && TimeOf(l) == at && l.size == size
    && AsString(l.repositoryType) == Some(s.repositoryType) && Describes(l.metadata, m)
  }

  lemma {:induction false} InfoListed(s: Settings, key: Key, at: DateTime, m: Metadata, h: Option<string>, size: nat)
    requires at.Valid() && WellFormedMetadata(m)
    ensures var line := ListedInfo(Dump(InfoValue(s, key, at, m, h)), size);
      line.Some? && IsLineOf(line.value, s, key, at, m, size)
  {
    hide Dump, InfoValue, CachedAt, InfoEntryPoint, InfoHash, Lookup, IsoFormat, FromIsoFormat, Str, Json.Parse,
         Describes, WellFormed;
    InfoReads(s, key, at, m, h);
    InfoMembers(s, key, at, m, h);
    InfoShows(s, key, at, m, h);
    StrReads(key.name);
    StrReads(key.version);
    StrReads(s.repositoryType);
    StrReads(IsoFormat(at));
    IsoRoundTrip(at);
  }

  lemma {:induction false} CommittedListed(s: Settings, key: Key, installed: Files, at: DateTime, done: Files,
                                           files: Files)
    requires at.Valid() && Committed(s, key, installed, at) == Some(done) && MetadataOf(installed).Some?
    requires MARKER in files && MARKER in done && files[MARKER] == done[MARKER]
    ensures var line := ListedEntry(files);
      line.Some? && IsLineOf(line.value, s, key, at, MetadataOf(installed).value, TotalSize(files))
  {
    hide ParseMetadata, Dump, InfoValue, ListedInfo, IsLineOf, TotalSize;
    var m := MetadataOf(installed).value;
    ParsedMetadataWellFormed(installed[METADATA]);
    InfoListed(s, key, at, m, HashOf(s, installed, m.entryPoint), TotalSize(files));
  }

  /** Elsewhere the sort compares integers by value, and raises on a string beside anything else, and on nulls. */
  lemma {:induction false} SortsOrRaises(a: Listed, b: Listed)
    ensures a.cachedAt.Text? && !b.cachedAt.Text? ==> Sorted([a, b]).None?
    ensures a.cachedAt.Null? || a.cachedAt.Object? ==> Sorted([a, b]).None? && Sorted([a]) == Some([a])
    ensures a.cachedAt == Json.False && b.cachedAt == Json.True ==> Sorted([a, b]) == Some([b, a])
    ensures a.cachedAt.Number? && b.cachedAt.Number? ==>
      var m, n := IntLiteral(a.cachedAt.lexeme), IntLiteral(b.cachedAt.lexeme);
      m.Some? && n.Some? ==> Sorted([a, b]) == Some(if m.value < n.value then [b, a] else [a, b])
  {
    hide IntLiteral, AsString;
    var lines := [a, b];
    assert lines[0] == a && lines[1] == b;
    assert [b][1..] == [] && lines[1..] == [b] && [a][1..] == [];
    assert SortDescending(ByCachedAt(), [b]) == [b] && SortDescending(ByCachedAt(), [a]) == [a];
    assert Insert(ByCachedAt(), a, [b]) == if ByCachedAt()(b, a) then [a, b] else [b, a];
    assert SortDescending(ByCachedAt(), lines) == Insert(ByCachedAt(), a, [b]);
    if a.cachedAt.Number? && b.cachedAt.Number? {
      var m, n := IntLiteral(a.cachedAt.lexeme), IntLiteral(b.cachedAt.lexeme);
      if m.Some? && n.Some? {
        OneElement(m.value, n.value);
      }
    }
    OneElement(0, 1);
  }

  lemma {:induction false} OneElement(m: int, n: int)
    ensures LexLess([m], [n]) <==> m < n
    ensures LexLess([n], [m]) <==> n < m
  {
    assert [m][1..] == [] && [n][1..] == [];
  }

  // ----- entries -----

  /** The keys whose marker is complete. */
  function CommittedKeys(disk: Disk): set<Key> {
    set key | key in disk && MARKER in disk[key] && Json.Parse(disk[key][MARKER]).Some?
  }

  function StoredTime(files: Files): Option<DateTime> {
    if MARKER in files then CachedAt(files[MARKER]) else None
  }

  /** The line for `key`, from the repository's directory and the time in the marker. */
  ghost predicate IsLineFor(l: Listed, s: Settings, trees: Trees, disk: Disk, key: Key) {
    hide CachedAt, DefaultText, ParseMetadata, IsLineOf;
    && key in disk && key in trees && StoredTime(disk[key]).Some?
    && var at := StoredTime(disk[key]).value;
       var m := MetadataOf(WithMetadata(key, trees[key], at));
       m.Some? && IsLineOf(l, s, key, at, m.value, TotalSize(disk[key]))
  }

  /** On any disk the cache can reach, an entry has a line exactly if it is committed, and the line is its own. */
  lemma {:induction false} GoodListed(s: Settings, trees: Trees, disk: Disk, key: Key)
    requires SoundTrees(trees) && GoodDisk(s, trees, disk) && key in disk
    ensures ListedEntry(disk[key]).Some? <==> key in CommittedKeys(disk)
    ensures ListedEntry(disk[key]).Some? ==> IsLineFor(ListedEntry(disk[key]).value, s, trees, disk, key)
  {
    hide ParseMetadata, CachedAt, InfoText, Lookup, IsoFormat, FromIsoFormat, Json.Parse, WithMetadata, Direct,
         ListedEntry, IsLineOf, TotalSize, SoundTree;
    var files := disk[key];
    if key in CommittedKeys(disk) {
      assert GoodEntry(s, key, trees[key], files);
      var at := CachedAt(files[MARKER]).value;
      SoundPath(trees[key]);
      var installed := WithMetadata(key, trees[key], at);
      CommittedListed(s, key, installed, at, Committed(s, key, installed, at).value, files);
    } else {
      UnreadableUnlisted(files);
    }
  }

  lemma {:induction false} UnreadableUnlisted(files: Files)
    requires MARKER !in files || Json.Parse(files[MARKER]).None?
    ensures ListedEntry(files).None?
  {
    hide Json.Parse, TotalSize;
  }

  /** What a successful miss stores is listed at once, under its own name, version and time. */
  lemma {:induction false} StoredIsListed(s: Settings, disk: Disk, key: Key, tree: Files, stored: DateTime)
    requires SoundTree(tree) && stored.Valid() && Direct(tree).Some?
    ensures var after := Store(s, disk, key, Some(Tree(tree)), stored).0;
      && key in after && ListedEntry(after[key]).Some?
      && IsLineOf(ListedEntry(after[key]).value, s, key, stored,
                  MetadataOf(WithMetadata(key, tree, stored)).value, TotalSize(after[key]))
  {
    hide ParseMetadata, InfoText, DefaultText, Dump, ListedEntry, IsLineOf, TotalSize;
    InstalledEntry(key, tree, stored);
    var installed := WithMetadata(key, tree, stored);
    var done := Committed(s, key, installed, stored).value;
    CommittedListed(s, key, installed, stored, done, done);
  }

  lemma {:induction false} SoundPath(tree: Files)
    requires SoundTree(tree)
    ensures Direct(tree).Some? ==> Direct(tree).value.path != MARKER
  {
  }

  lemma {:induction false} LineTimed(s: Settings, trees: Trees, disk: Disk, key: Key)
    requires SoundTrees(trees) && GoodDisk(s, trees, disk) && key in disk
    ensures ListedEntry(disk[key]).Some? ==> Timed(ListedEntry(disk[key]).value)
    ensures Listable(disk[key])
  {
    hide ListedEntry, GoodDisk, Timed, SoundTree, StoredTime, KindOf;
    GoodListed(s, trees, disk, key);
    if ListedEntry(disk[key]).Some? {
      TimedIsText(ListedEntry(disk[key]).value);
    }
  }

  lemma {:induction false} ListingTimed(s: Settings, trees: Trees, disk: Disk, order: seq<Key>)
    requires SoundTrees(trees) && GoodDisk(s, trees, disk)
    requires forall key | key in order :: key in disk
    ensures forall l | l in Listing(disk, order) :: Timed(l)
  {
    hide ListedEntry, Timed, GoodDisk, SoundTree;
    if order != [] {
      var key := order[|order| - 1];
      ListingTimed(s, trees, disk, order[..|order| - 1]);
      LineTimed(s, trees, disk, key);
    }
  }

  ghost predicate NewestFirst(lines: seq<Listed>) {
    && (forall l | l in lines :: Timed(l))
    && forall i, j | 0 <= i < j < |lines| :: Micros(TimeOf(lines[j])) <= Micros(TimeOf(lines[i]))
  }

  /** The list is a rearrangement of all the entries' lines, in descending order of time. */
  ghost predicate CompleteNewestFirst(disk: Disk, order: seq<Key>)
    requires forall key | key in order :: key in disk
  {
    hide ListedEntry, Listable;
    match Sorted(Listing(disk, order))
    case None => false
    case Some(out) => multiset(out) == multiset(Listing(disk, order)) && NewestFirst(out)
  }

  // ----- the whole list -----

  lemma {:induction false} ListingHas(disk: Disk, order: seq<Key>, key: Key)
    requires (forall k | k in order :: k in disk) && key in order && ListedEntry(disk[key]).Some?
    ensures ListedEntry(disk[key]).value in Listing(disk, order)
  {
    hide ListedEntry;
    var last := |order| - 1;
    if order[last] != key {
      assert order == order[..last] + [order[last]];
      ListingHas(disk, order[..last], key);
    }
  }

  lemma {:induction false} ListingFrom(disk: Disk, order: seq<Key>, l: Listed) returns (key: Key)
    requires (forall k | k in order :: k in disk) && l in Listing(disk, order)
    ensures key in order && ListedEntry(disk[key]) == Some(l)
  {
    hide ListedEntry;
    var last := |order| - 1;
    if ListedEntry(disk[order[last]]) == Some(l) {
      key := order[last];
    } else {
      key := ListingFrom(disk, order[..last], l);
    }
  }

  function Among(order: seq<Key>, keys: set<Key>): set<Key> {
    set key | key in order && key in keys
  }

  lemma {:induction false} ListingLength(disk: Disk, order: seq<Key>, keys: set<Key>)
    requires forall k | k in order :: k in disk && (ListedEntry(disk[k]).Some? <==> k in keys)
    requires forall i, j | 0 <= i < j < |order| :: order[i] != order[j]
    ensures |Listing(disk, order)| == |Among(order, keys)|
  {
    hide ListedEntry;
    if order != [] {
      var last := |order| - 1;
      var init, key := order[..last], order[last];
      ListingLength(disk, init, keys);
      assert order == init + [key];
      assert key !in init;
      assert Among(order, keys) == Among(init, keys) + (if key in keys then {key} else {});
    }
  }

  /** Exactly one line for every committed entry and no other, each its entry's own. */
  ghost predicate ShowsEntries(s: Settings, trees: Trees, disk: Disk, lines: seq<Listed>) {
    hide IsLineFor, CommittedKeys;
    && |lines| == |CommittedKeys(disk)|
    && (forall key | key in CommittedKeys(disk) :: exists l :: l in lines && IsLineFor(l, s, trees, disk, key))
    && (forall l | l in lines :: exists key :: key in CommittedKeys(disk) && IsLineFor(l, s, trees, disk, key))
  }

  lemma {:induction false} LinesShow(s: Settings, trees: Trees, disk: Disk, order: seq<Key>)
    requires SoundTrees(trees) && GoodDisk(s, trees, disk) && Enumerates(order, disk)
    ensures ShowsEntries(s, trees, disk, Listing(disk, order))
  {
    hide ListedEntry, Listing, GoodDisk, IsLineFor, SoundTrees, CommittedKeys;
    var lines, keys := Listing(disk, order), CommittedKeys(disk);
    forall key | key in disk
      ensures ListedEntry(disk[key]).Some? <==> key in keys
      ensures ListedEntry(disk[key]).Some? ==> IsLineFor(ListedEntry(disk[key]).value, s, trees, disk, key)
    {
      GoodListed(s, trees, disk, key);
    }
    CommittedInside(disk);
    ListingLength(disk, order, keys);
    assert Among(order, keys) == keys;
    forall key | key in keys ensures exists l :: l in lines && IsLineFor(l, s, trees, disk, key) {
      ListingHas(disk, order, key);
      assert ListedEntry(disk[key]).value in lines;
    }
    forall l | l in lines ensures exists key :: key in keys && IsLineFor(l, s, trees, disk, key) {
      var key := ListingFrom(disk, order, l);
      assert key in keys;
    }
  }

  lemma {:induction false} CommittedInside(disk: Disk)
    ensures CommittedKeys(disk) <= disk.Keys
  {
    hide Json.Parse;
  }

  lemma {:induction false} ShowsPermuted(s: Settings, trees: Trees, disk: Disk, lines: seq<Listed>, out: seq<Listed>)
    requires ShowsEntries(s, trees, disk, lines) && multiset(out) == multiset(lines)
    ensures ShowsEntries(s, trees, disk, out)
  {
    hide IsLineFor, CommittedKeys;
    assert |out| == |multiset(out)| == |multiset(lines)| == |lines|;
    forall l ensures l in out <==> l in lines {
      assert l in multiset(out) <==> l in multiset(lines);
    }
  }

  /** The list does not raise, and shows the committed entries. */
  ghost predicate ListsEntries(s: Settings, trees: Trees, disk: Disk, order: seq<Key>)
    requires forall key | key in order :: key in disk
  {
    hide ListedEntry, Listing, ShowsEntries, SortDescending, Comparable;
    match Sorted(Listing(disk, order))
    case None => false
    case Some(out) => ShowsEntries(s, trees, disk, out)
  }

  /** `get_cached_scripts` on every disk the cache can reach: it does not raise, and shows every committed entry. */
  lemma {:induction false} ListingShowsEntries(s: Settings, trees: Trees, disk: Disk, order: seq<Key>)
    requires SoundTrees(trees) && GoodDisk(s, trees, disk) && Enumerates(order, disk)
    ensures ListsEntries(s, trees, disk, order)
  {
    hide ListedEntry, Listing, GoodDisk, ShowsEntries, SoundTrees, CommittedKeys, Sorted, NewestFirst;
    LinesShow(s, trees, disk, order);
    ListingIsChronological(s, trees, disk, order);
    ShowsPermuted(s, trees, disk, Listing(disk, order), Sorted(Listing(disk, order)).value);
  }

  /** `get_cached_scripts` on such a disk: nothing lost, and the newest first. */
  lemma {:induction false} ListingIsChronological(s: Settings, trees: Trees, disk: Disk, order: seq<Key>)
    requires SoundTrees(trees) && GoodDisk(s, trees, disk) && Enumerates(order, disk)
    ensures CompleteNewestFirst(disk, order)
  {
    hide ListedEntry, Timed, Listing, Micros, IsoFormat, FromIsoFormat, GoodDisk, SortKey, LexLess, KindOf;
    var lines := Listing(disk, order);
    var out := SortDescending(ByCachedAt(), lines);
    ByCachedAtPreorder();
    SortCorrect(ByCachedAt(), lines);
    ListingTimed(s, trees, disk, order);
    forall l | l in lines ensures KindOf(l.cachedAt).Words? {
      TimedIsText(l);
    }
    forall l | l in out ensures Timed(l) {
      assert l in multiset(lines);
    }
    forall i, j | 0 <= i < j < |out| ensures Micros(TimeOf(out[j])) <= Micros(TimeOf(out[i])) {
      assert ByCachedAt()(out[j], out[i]);
      TimedOrder(out[j], out[i]);
    }
  }

  lemma {:induction false} TimedIsText(l: Listed)
    requires Timed(l)
    ensures KindOf(l.cachedAt).Words? && SortKey(l) == Codes(AsString(l.cachedAt).value)
  {
  }

  lemma {:induction false} TimedOrder(a: Listed, b: Listed)
    requires Timed(a) && Timed(b)
    ensures LexLeq(SortKey(a), SortKey(b)) <==> Micros(TimeOf(a)) <= Micros(TimeOf(b))
  {
    hide Micros, IsoFormat, FromIsoFormat, SortKey, LexLess, AsString, Codes;
    TimedIsText(a);
    TimedIsText(b);
    IsoOrder(TimeOf(b), TimeOf(a));
  }
}
