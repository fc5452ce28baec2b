/** The disk as a sequence of single changes, and the crash points of a download among them. */
module CacheWalks {
  import opened Wrappers
  import opened Timestamps
  import opened JsonText
  import opened ScriptCache
  import opened ScriptCacheRuns

  function Put(disk: Disk, key: Key, path: string, content: string): Disk
    requires key in disk
  {
    disk[key := disk[key][path := content]]
  }

  // ----- single changes, and walks made of them -----

  /** The smallest things that happen to the disk: a directory comes or goes, or the directory of a whole
      script goes, or a file is opened for writing, which empties it, or grows by a character. */
  datatype Change =
    | MakeDirectory(key: Key)
    | RemoveDirectory(key: Key)
    | RemoveScript(name: string)
    | OpenFile(key: Key, path: string)
    | Append(key: Key, path: string, c: char)

  predicate Can(disk: Disk, change: Change) {
    match change
    case MakeDirectory(key) => key !in disk
    case RemoveDirectory(key) => key in disk
    case RemoveScript(name) => exists key :: key in disk && key.name == name
    case OpenFile(key, path) => key in disk
    case Append(key, path, c) => key in disk && path in disk[key]
  }

  function Apply(disk: Disk, change: Change): Disk
    requires Can(disk, change)
  {
    match change
    case MakeDirectory(key) => disk[key := map[]]
    case RemoveDirectory(key) => disk - {key}
    case RemoveScript(name) => map key | key in disk && key.name != name :: disk[key]
    case OpenFile(key, path) => Put(disk, key, path, "")
    case Append(key, path, c) => Put(disk, key, path, disk[key][path] + [c])
  }

  ghost predicate OneChange(a: Disk, b: Disk) {
    exists change :: Can(a, change) && b == Apply(a, change)
  }

  /** From `before`, one change at a time, through the disks that `trace` has beyond `earlier`, to `after`. */
  ghost predicate Walk(earlier: seq<Disk>, before: Disk, trace: seq<Disk>, after: Disk) {
    && earlier <= trace
    && var ds := trace[|earlier|..] + [after];
       ds[0] == before && forall i | 0 < i < |ds| :: OneChange(ds[i - 1], ds[i])
  }

  lemma {:induction false} WalkStands(earlier: seq<Disk>, before: Disk)
    ensures Walk(earlier, before, earlier, before)
  {
  }

  lemma {:induction false} WalkExtends(earlier: seq<Disk>, before: Disk, trace: seq<Disk>, after: Disk)
    requires Walk(earlier, before, trace, after)
    ensures earlier <= trace && |earlier| <= |trace| && forall i | 0 <= i < |earlier| :: trace[i] == earlier[i]
  {
  }

  lemma {:induction false} WalkOnce(trace: seq<Disk>, disk: Disk, change: Change)
    requires Can(disk, change)
    ensures Walk(trace, disk, trace + [disk], Apply(disk, change))
  {
    hide Can, Apply;
    assert (trace + [disk])[|trace|..] == [disk];
    assert OneChange(disk, Apply(disk, change));
  }

  lemma {:induction false} WalkJoins(earlier: seq<Disk>, before: Disk, mid: seq<Disk>, disk: Disk, trace: seq<Disk>,
                                     after: Disk)
    requires Walk(earlier, before, mid, disk) && Walk(mid, disk, trace, after)
    ensures Walk(earlier, before, trace, after)
  {
    hide OneChange;
    var xs, ys := mid[|earlier|..], trace[|mid|..] + [after];
    assert trace[|earlier|..] + [after] == xs + ys;
    forall i | 0 < i < |xs + ys| ensures OneChange((xs + ys)[i - 1], (xs + ys)[i]) {
      if i <= |xs| {
        assert (xs + [disk])[i - 1] == (xs + ys)[i - 1] && (xs + [disk])[i] == (xs + ys)[i];
      } else {
        assert (xs + ys)[i - 1] == ys[i - |xs| - 1] && (xs + ys)[i] == ys[i - |xs|];
      }
    }
  }

  // ----- the disks a download passes -----

  /** A disk on which the file at `path` has been written in part only. */
  ghost predicate PartWritten(disk: Disk, key: Key, path: string, content: string, d: Disk)
    requires key in disk
  {
    exists n: nat | n < |content| :: d == Put(disk, key, path, content[..n])
  }

  ghost predicate PartCopiedTo(disk: Disk, key: Key, files: Files, d: Disk) {
    exists part: Files | PartOf(part, files) :: d == disk[key := part]
  }

  /** The files of a copy whose paths in `rest` are still to come. */
  function CopiedSoFar(files: Files, rest: set<string>): Files {
    map p | p in files && p !in rest :: files[p]
  }

  lemma {:induction false} CopyStarts(files: Files)
    ensures CopiedSoFar(files, files.Keys) == map[]
  {
  }

  lemma {:induction false} CopyEnds(files: Files)
    ensures CopiedSoFar(files, {}) == files
  {
  }

  lemma {:induction false} CopyStep(before: Disk, key: Key, files: Files, rest: set<string>, path: string)
    requires path in rest && rest <= files.Keys
    ensures var disk := before[key := CopiedSoFar(files, rest)];
      && PartCopiedTo(before, key, files, disk)
      && Put(disk, key, path, files[path]) == before[key := CopiedSoFar(files, rest - {path})]
  {
    assert PartOf(CopiedSoFar(files, rest), files);
    assert CopiedSoFar(files, rest)[path := files[path]] == CopiedSoFar(files, rest - {path});
  }

  lemma {:induction false} CopyWritten(before: Disk, key: Key, files: Files, rest: set<string>, path: string, d: Disk)
    requires path in rest && rest <= files.Keys
    requires PartWritten(before[key := CopiedSoFar(files, rest)], key, path, files[path], d)
    ensures PartCopiedTo(before, key, files, d)
  {
    var disk := before[key := CopiedSoFar(files, rest)];
    var n: nat :| n < |files[path]| && d == Put(disk, key, path, files[path][..n]);
    var part := CopiedSoFar(files, rest)[path := files[path][..n]];
    assert PartOf(part, files) && d == before[key := part];
  }

  /** `d` is what some cut-off download leaves of `disk`. */
  ghost predicate IsCut(s: Settings, disk: Disk, key: Key, tree: Files, stored: DateTime, d: Disk) {
    exists cut | PossibleCut(s, key, tree, cut, stored) :: d == CutDisk(s, disk, key, tree, cut, stored)
  }

  /** Of a directory download, every disk passed is what some cut-off download leaves. */
  ghost predicate OnlyCuts(s: Settings, disk: Disk, key: Key, download: Option<Download>, stored: DateTime,
                           earlier: seq<Disk>, trace: seq<Disk>) {
    download.Some? && download.value.Tree? ==> AllCuts(s, disk, key, download.value.files, stored, trace, |earlier|)
  }

  lemma {:induction false} NothingCut(s: Settings, disk: Disk, key: Key, download: Option<Download>, stored: DateTime,
                                      trace: seq<Disk>)
    ensures OnlyCuts(s, disk, key, download, stored, trace, trace)
  {
  }

  lemma {:induction false} CopyIsCut(s: Settings, disk: Disk, key: Key, tree: Files, stored: DateTime, d: Disk)
    requires PartCopiedTo(disk, key, tree, d)
    ensures IsCut(s, disk, key, tree, stored, d)
  {
    hide DefaultText, Dump, MetadataOf, InfoText;
    var part: Files :| PartOf(part, tree) && d == disk[key := part];
    assert PossibleCut(s, key, tree, PartCopied(part), stored);
    assert d == CutDisk(s, disk, key, tree, PartCopied(part), stored);
  }

  lemma {:induction false} MetadataIsCut(s: Settings, disk: Disk, key: Key, tree: Files, stored: DateTime, n: nat)
    requires METADATA !in tree && n <= |DefaultText(key, stored)|
    ensures IsCut(s, disk, key, tree, stored, disk[key := tree[METADATA := DefaultText(key, stored)[..n]]])
  {
    hide DefaultText, Dump, MetadataOf, InfoText;
    assert PossibleCut(s, key, tree, MetadataPart(n), stored);
  }

  lemma {:induction false} InstalledIsCut(s: Settings, disk: Disk, key: Key, tree: Files, stored: DateTime)
    ensures IsCut(s, disk, key, tree, stored, disk[key := WithMetadata(key, tree, stored)])
  {
    hide DefaultText, Dump, MetadataOf, InfoText;
    if METADATA in tree {
      assert PossibleCut(s, key, tree, PartCopied(tree), stored);
      assert disk[key := tree] == CutDisk(s, disk, key, tree, PartCopied(tree), stored);
    } else {
      var text := DefaultText(key, stored);
      assert text[..|text|] == text;
      MetadataIsCut(s, disk, key, tree, stored, |text|);
    }
  }

  lemma {:induction false} InfoIsCut(s: Settings, disk: Disk, key: Key, tree: Files, stored: DateTime, n: nat)
    requires var installed := WithMetadata(key, tree, stored);
      MetadataOf(installed).Some? && n < |InfoText(s, key, installed, stored, MetadataOf(installed).value)|
    ensures var installed := WithMetadata(key, tree, stored);
      var text := InfoText(s, key, installed, stored, MetadataOf(installed).value);
      IsCut(s, disk, key, tree, stored, disk[key := installed[MARKER := text[..n]]])
  {
    hide DefaultText, Dump, MetadataOf, InfoText, WithMetadata;
    assert PossibleCut(s, key, tree, InfoPart(n), stored);
  }

  lemma {:induction false} CopyAfterRemoval(disk: Disk, key: Key, files: Files, d: Disk)
    requires PartCopiedTo(disk - {key}, key, files, d)
    ensures PartCopiedTo(disk, key, files, d)
  {
    var part: Files :| PartOf(part, files) && d == (disk - {key})[key := part];
    assert d == disk[key := part];
  }

  /** The disks on the way of a copy. */
  ghost predicate CopyPasses(disk: Disk, key: Key, tree: Files, d: Disk) {
    d == disk || d == disk[key := FilesAt(disk, key)] || d == disk - {key} || PartCopiedTo(disk, key, tree, d)
  }

  lemma {:induction false} CopyInIsCut(s: Settings, disk: Disk, key: Key, tree: Files, stored: DateTime, d: Disk)
    requires CopyPasses(disk, key, tree, d)
    ensures IsCut(s, disk, key, tree, stored, d)
  {
    hide DefaultText, Dump, MetadataOf, InfoText, PartCopiedTo;
    if d == disk {
      assert PossibleCut(s, key, tree, BeforeDownload, stored);
      assert d == CutDisk(s, disk, key, tree, BeforeDownload, stored);
    } else if d == disk[key := FilesAt(disk, key)] {
      assert PossibleCut(s, key, tree, DirectoryMade, stored);
      assert d == CutDisk(s, disk, key, tree, DirectoryMade, stored);
    } else if d == disk - {key} {
      assert PossibleCut(s, key, tree, DirectoryRemoved, stored);
      assert d == CutDisk(s, disk, key, tree, DirectoryRemoved, stored);
    } else {
      CopyIsCut(s, disk, key, tree, stored, d);
    }
  }

  lemma {:induction false} MetadataPartIsCut(s: Settings, disk: Disk, key: Key, tree: Files, stored: DateTime, d: Disk)
    requires METADATA !in tree
    requires PartWritten(disk[key := tree], key, METADATA, DefaultText(key, stored), d)
    ensures IsCut(s, disk, key, tree, stored, d)
  {
    hide DefaultText, Dump, IsCut;
    var text := DefaultText(key, stored);
    var n: nat :| n < |text| && d == Put(disk[key := tree], key, METADATA, text[..n]);
    MetadataIsCut(s, disk, key, tree, stored, n);
    assert d == disk[key := tree[METADATA := text[..n]]];
  }

  lemma {:induction false} InfoPartIsCut(s: Settings, disk: Disk, key: Key, tree: Files, stored: DateTime, d: Disk)
    requires MetadataOf(WithMetadata(key, tree, stored)).Some?
    requires var installed := WithMetadata(key, tree, stored);
      PartWritten(disk[key := installed], key, MARKER,
                  InfoText(s, key, installed, stored, MetadataOf(installed).value), d)
    ensures IsCut(s, disk, key, tree, stored, d)
  {
    hide InfoText, IsCut, WithMetadata, MetadataOf;
    var installed := WithMetadata(key, tree, stored);
    var text := InfoText(s, key, installed, stored, MetadataOf(installed).value);
    var n: nat :| n < |text| && d == Put(disk[key := installed], key, MARKER, text[..n]);
    InfoIsCut(s, disk, key, tree, stored, n);
    assert d == disk[key := installed[MARKER := text[..n]]];
  }

  lemma {:induction false} WholeCopyIsCut(s: Settings, disk: Disk, key: Key, tree: Files, stored: DateTime)
    ensures IsCut(s, disk, key, tree, stored, disk[key := tree])
  {
    hide IsCut;
    assert PartOf(tree, tree);
    CopyIsCut(s, disk, key, tree, stored, disk[key := tree]);
  }

  ghost predicate AllPass(disk: Disk, key: Key, tree: Files, trace: seq<Disk>, from: nat) {
    forall i | from <= i < |trace| :: CopyPasses(disk, key, tree, trace[i])
  }

  ghost predicate AllCuts(s: Settings, disk: Disk, key: Key, tree: Files, stored: DateTime, trace: seq<Disk>,
                          from: nat)
  {
    forall i | from <= i < |trace| :: IsCut(s, disk, key, tree, stored, trace[i])
  }

  /** While the default metadata is being written. */
  ghost predicate MetadataPasses(disk: Disk, key: Key, tree: Files, stored: DateTime, trace: seq<Disk>, from: nat) {
    forall i | from <= i < |trace| ::
      trace[i] == disk[key := tree] || PartWritten(disk[key := tree], key, METADATA, DefaultText(key, stored), trace[i])
  }

  /** The disks up to the complete default metadata. */
  lemma {:induction false} InstalledPasses(s: Settings, disk: Disk, key: Key, tree: Files, stored: DateTime, from: nat,
                                           mid: seq<Disk>, trace: seq<Disk>)
    requires from <= |mid| && mid <= trace
    requires AllPass(disk, key, tree, mid, from)
    requires if METADATA in tree then trace == mid else MetadataPasses(disk, key, tree, stored, trace, |mid|)
    ensures AllCuts(s, disk, key, tree, stored, trace, from)
  {
    hide IsCut, CopyPasses, PartWritten, DefaultText;
    forall i | from <= i < |trace| ensures IsCut(s, disk, key, tree, stored, trace[i]) {
      if i < |mid| {
        assert mid[i] == trace[i];
        CopyInIsCut(s, disk, key, tree, stored, trace[i]);
      } else if trace[i] == disk[key := tree] {
        WholeCopyIsCut(s, disk, key, tree, stored);
      } else {
        MetadataPartIsCut(s, disk, key, tree, stored, trace[i]);
      }
    }
  }

  /** No disk passed after `earlier` has a valid entry for `key`, now or later. */
  ghost predicate NeverHits(s: Settings, key: Key, earlier: seq<Disk>, trace: seq<Disk>, now: DateTime)
    requires now.Valid()
  {
    forall i, later: DateTime | |earlier| <= i < |trace| && later.Valid() && Micros(now) <= Micros(later) ::
      !IsCacheValid(s, trace[i], key, later)
  }

  /** Crash safety of a whole walk: stopped at any disk it passes, the entry is not valid at any later time. */
  lemma {:induction false} StoppedNeverHits(s: Settings, disk: Disk, key: Key, download: Download, stored: DateTime,
                                            earlier: seq<Disk>, trace: seq<Disk>, now: DateTime)
    requires now.Valid() && !IsCacheValid(s, disk, key, now)
    requires download.Tree? && MARKER !in download.files
    requires OnlyCuts(s, disk, key, Some(download), stored, earlier, trace)
    ensures NeverHits(s, key, earlier, trace, now)
  {
    hide IsCacheValid, PossibleCut, CutDisk, Micros;
    var tree := download.files;
    forall i, later: DateTime | |earlier| <= i < |trace| && later.Valid() && Micros(now) <= Micros(later)
      ensures !IsCacheValid(s, trace[i], key, later)
    {
      assert IsCut(s, disk, key, tree, stored, trace[i]);
      var cut :| PossibleCut(s, key, tree, cut, stored) && trace[i] == CutDisk(s, disk, key, tree, cut, stored);
      CutNeverHits(s, disk, key, tree, cut, now, stored, later);
    }
  }
}
