/** The cache rule by rule: which key a request means, when it downloads, what a download leaves, what an
    invalidation removes, and what metadata must say. */
module CacheRules {
  import opened Wrappers
  import opened Strings
  import opened Timestamps
  import Json
  import opened JsonText
  import opened JsonValues
  import opened ScriptCache
  import opened ScriptCacheLifetimes

  /** A version that is given and not empty is the one meant; otherwise the latest, and without any there is no
      script. */
  lemma {:induction false} KeyRequested(s: Settings, disk: Disk, name: string, version: Option<string>, latest: string,
                                        now: DateTime, download: Option<Download>, stored: DateTime)
    requires now.Valid()
    ensures version.Some? && version.value != "" ==>
      Request(s, disk, name, version, Some(latest), now, download, stored)
      == GetScript(s, disk, Key(name, version.value), now, download, stored)
    ensures version == None || version == Some("") ==>
      && Request(s, disk, name, version, None, now, download, stored) == (disk, Failure)
      && Request(s, disk, name, version, Some(""), now, download, stored) == (disk, Failure)
      && (latest != "" ==> Request(s, disk, name, version, Some(latest), now, download, stored)
                           == GetScript(s, disk, Key(name, latest), now, download, stored))
  {
    hide GetScript;
  }

  /** What makes a get download: no metadata, no readable marker, an age over the maximum, or a script that is there
      with another hash. */
  predicate Stale(s: Settings, files: Files, now: DateTime) {
    || METADATA !in files || MARKER !in files
    || CachedAt(files[MARKER]).None? || InfoEntryPoint(files[MARKER]).None?
    || Earlier(HoursLater(CachedAt(files[MARKER]).value, s.maxAge), now)
    || var path := InfoEntryPoint(files[MARKER]).value;
       path in files && InfoHash(files[MARKER]) != Some(s.hash(files[path]))
  }

  /** A get downloads exactly then; otherwise it gives what is there, if its metadata can be read. */
  lemma {:induction false} DownloadsExactly(s: Settings, disk: Disk, key: Key, now: DateTime,
                                            download: Option<Download>, stored: DateTime)
    requires now.Valid()
    ensures key !in disk || Stale(s, disk[key], now) ==>
      GetScript(s, disk, key, now, download, stored) == Store(s, disk, key, download, stored)
    ensures key in disk && !Stale(s, disk[key], now) ==>
      GetScript(s, disk, key, now, download, stored)
      == (disk, match MetadataOf(disk[key])
                case None => Failure
                case Some(m) => Success(disk[key], m, true))
  {
    hide CachedAt, InfoEntryPoint, InfoHash, Expired, Earlier, HoursLater, Store, MetadataOf;
    if key in disk && MARKER in disk[key] {
      CachedAtValid(disk[key][MARKER]);
      var at := CachedAt(disk[key][MARKER]);
      if at.Some? {
        ExpiresOnCalendar(s, at.value, now);
      }
    }
  }

  /** A single file is added to what the entry holds; a directory takes its place. */
  lemma {:induction false} DownloadsLand(present: Files, tree: Files, name: string, content: string, p: string)
    ensures Copied(present, Tree(tree)) == tree
    ensures var files := Copied(present, SingleFile(name, content));
      && files.Keys == present.Keys + {name} && files[name] == content
      && (p in present && p != name ==> files[p] == present[p])
  {
  }

  /** Invalidation removes the version it names, or every version if it names none, and leaves all else. */
  lemma {:induction false} InvalidationRemoves(disk: Disk, name: string, version: string, key: Key)
    ensures key in Invalidate(disk, name, None) <==> key in disk && key.name != name
    ensures key in Invalidate(disk, name, Some("")) <==> key in disk && key.name != name
    ensures version != "" ==>
      (key in Invalidate(disk, name, Some(version)) <==> key in disk && key != Key(name, version))
    ensures key in Invalidate(disk, name, None) ==> Invalidate(disk, name, None)[key] == disk[key]
    ensures key in Invalidate(disk, name, Some(version)) ==> Invalidate(disk, name, Some(version))[key] == disk[key]
  {
  }

  // ----- what metadata must say -----

  /** Dates may leave out the time, its minutes, its seconds or half of the fraction, and may have an offset. */
  lemma {:induction false} DatesRead(d: DateTime, t: string, offset: string)
    requires d.Valid() && IsOffset(offset)
    requires |t| in {10, 13, 16} && t <= IsoFormat(d)
    ensures IsMetadataDate(IsoFormat(d)) && IsMetadataDate(t)
    ensures IsMetadataDate(IsoFormat(d) + offset) && (|t| == 16 ==> IsMetadataDate(t + offset))
  {
    hide IsoFormat, FromIsoFormat;
    IsoRoundTrip(d);
    IsoLength(d);
    ShortRead(d, t);
    WithOffset(IsoFormat(d), offset);
    if |t| == 16 {
      WithOffset(t, offset);
    }
  }

  lemma {:induction false} Filled(y: string, m: string, d: string, h: string, n: string, s: string, f: string)
    requires |y| == 4 && |m| == |d| == |h| == |n| == |s| == 2
    ensures var t := Spelled(y, m, d, h, n, s, f);
      && |t| >= 19
      && FilledOut(t[..10]) == Spelled(y, m, d, "00", "00", "00", "")
      && FilledOut(t[..13]) == Spelled(y, m, d, h, "00", "00", "")
      && FilledOut(t[..16]) == Spelled(y, m, d, h, n, "00", "")
  {
    var t := Spelled(y, m, d, h, n, s, f);
    assert t[..10] == y + "-" + m + "-" + d;
    assert t[..13] == y + "-" + m + "-" + d + "T" + h;
    assert t[..16] == y + "-" + m + "-" + d + "T" + h + ":" + n;
    assert t[..10] + "T00:00:00" == Spelled(y, m, d, "00", "00", "00", "");
    assert t[..13] + ":00:00" == Spelled(y, m, d, h, "00", "00", "");
    assert t[..16] + ":00" == Spelled(y, m, d, h, n, "00", "");
  }

  /** The part of the time that is left out counts as zero. */
  lemma {:induction false} ShortIso(d: DateTime)
    ensures var t := IsoFormat(d);
      && |t| >= 19
      && FilledOut(t[..10]) == IsoFormat(DateTime(d.year, d.month, d.day, 0, 0, 0, 0))
      && FilledOut(t[..13]) == IsoFormat(DateTime(d.year, d.month, d.day, d.hour, 0, 0, 0))
      && FilledOut(t[..16]) == IsoFormat(DateTime(d.year, d.month, d.day, d.hour, d.minute, 0, 0))
  {
    PadPairs();
    assert Fraction(0) == "";
    hide IsoFormat, Pad, Spelled, FilledOut, Fraction;
    IsoSpelled(d);
    IsoSpelled(DateTime(d.year, d.month, d.day, 0, 0, 0, 0));
    IsoSpelled(DateTime(d.year, d.month, d.day, d.hour, 0, 0, 0));
    IsoSpelled(DateTime(d.year, d.month, d.day, d.hour, d.minute, 0, 0));
    Filled(Pad(d.year, 4), Pad(d.month, 2), Pad(d.day, 2), Pad(d.hour, 2), Pad(d.minute, 2), Pad(d.second, 2),
           Fraction(d.micro));
  }

  lemma {:induction false} ShortRead(d: DateTime, t: string)
    requires d.Valid() && |t| in {10, 13, 16} && t <= IsoFormat(d)
    ensures FromIsoFormat(FilledOut(t)).Some?
  {
    hide IsoFormat, FromIsoFormat, FilledOut;
    ShortIso(d);
    assert t == IsoFormat(d)[..|t|];
    IsoRoundTrip(DateTime(d.year, d.month, d.day, 0, 0, 0, 0));
    IsoRoundTrip(DateTime(d.year, d.month, d.day, d.hour, 0, 0, 0));
    IsoRoundTrip(DateTime(d.year, d.month, d.day, d.hour, d.minute, 0, 0));
  }

  lemma {:induction false} IsoLength(d: DateTime)
    ensures |IsoFormat(d)| == 19 || |IsoFormat(d)| == 26
  {
    IsoSpelled(d);
  }

  lemma {:induction false} WithOffset(t: string, offset: string)
    requires IsOffset(offset) && |t| > 10 && FromIsoFormat(FilledOut(t)).Some?
    ensures IsMetadataDate(t + offset)
  {
    hide FromIsoFormat;
    var s := t + offset;
    assert s[|s| - 6..] == offset && s[..|s| - 6] == t;
  }

  /** Nothing shorter than a date is one, nor is anything that does not begin with four digits and a dash. */
  lemma {:induction false} NoDate(t: string)
    requires |t| < 10 || !AllDigits(t[..4]) || t[4] != '-'
    ensures !IsMetadataDate(t)
  {
    hide Number;
    if |t| >= 10 {
      assert FilledOut(t)[0..4] == t[..4] && FilledOut(t)[4] == t[4];
      if |t| > 16 {
        var u := t[..|t| - 6];
        assert u[..4] == t[..4] && u[4] == t[4];
        assert FilledOut(u)[0..4] == u[..4] && FilledOut(u)[4] == u[4];
      }
    }
  }

  /** An object with a member for each of `keys`. */
  predicate HasAll(text: string, keys: seq<string>) {
    match Json.Parse(text)
    case None => false
    case Some(v) => v.Object? && forall k | k in keys :: Lookup(v.members, k).Some?
  }

  /** Metadata that can be read has a name, a version, a description and an author; without an entry point it means
      main.py, without a timeout 300 seconds, without dependencies none. */
  lemma {:induction false} MetadataHas(text: string)
    requires ParseMetadata(text).Some?
    ensures HasAll(text, ["name", "version", "description", "author"])
    ensures var d, m := Json.Parse(text).value.members, ParseMetadata(text).value;
      && Lookup(d, "name") == Some(m.name) && Lookup(d, "version") == Some(m.version)
      && Lookup(d, "description") == Some(m.description) && Lookup(d, "author") == Some(m.author)
      && Some(m.entryPoint) ==
           (match Lookup(d, "entry_point") case None => Some("main.py") case Some(e) => AsString(e))
      && m.timeout == (match Lookup(d, "timeout") case None => Json.Number("300") case Some(t) => t)
      && m.dependencies == (match Lookup(d, "dependencies") case None => Json.Array([]) case Some(x) => x)
  {
    hide Lookup, Json.Parse, AsString, Str, IsMetadataDate;
    StrReads("main.py");
  }

  /** Conversely an object with these four, readable dates and a string for an entry point is read. */
  lemma {:induction false} MetadataSuffices(text: string)
    requires HasAll(text, ["name", "version", "description", "author"])
    requires var d := Json.Parse(text).value.members;
      && DateOk(Lookup(d, "created_at")) && DateOk(Lookup(d, "updated_at"))
      && (Lookup(d, "entry_point").Some? ==> Lookup(d, "entry_point").value.Text?)
    ensures ParseMetadata(text).Some?
  {
    hide Lookup, Json.Parse, DateOk, Unquote, Str;
    var keys := ["name", "version", "description", "author"];
    assert keys[0] in keys && keys[1] in keys && keys[2] in keys && keys[3] in keys;
  }
}
