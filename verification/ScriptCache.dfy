/** The script cache on disk: what an entry is, when it is valid, and what each cache operation
    does to it. A version directory is a map from relative file paths to contents; `.cache_info`
    and `metadata.json` are real JSON texts in it. */
module ScriptCache {
  import opened Wrappers
  import opened Strings
  import opened Timestamps
  import Json
  import opened JsonText
  import opened JsonValues

  datatype Key = Key(name: string, version: string)

  type Files = map<string, string>

  type Disk = map<Key, Files>

  /** What the repository hands over: a directory, or one file. */
  datatype Download = Tree(files: Files) | SingleFile(name: string, content: string)

  /** `hash` stands for SHA-256 of a file's content; `maxAge` is script_cache_max_age in hours. */
  datatype Settings = Settings(hash: string -> string, maxAge: nat, repositoryType: string)

  const METADATA: string := "metadata.json"
  const MARKER: string := ".cache_info"

  // ----- metadata.json -----

  datatype Metadata = Metadata(name: Json.Value, version: Json.Value, description: Json.Value, author: Json.Value,
                               entryPoint: string, dependencies: Json.Value, timeout: Json.Value)

  function Default(v: Option<Json.Value>, other: Json.Value): Json.Value {
    if v.Some? then v.value else other
  }

  /** A shorter ISO form with what it leaves out: the time, its minutes, its seconds, or half of the fraction. */
  function FilledOut(t: string): string {
    if |t| == 10 then t + "T00:00:00"
    else if |t| == 13 then t + ":00:00"
    else if |t| == 16 then t + ":00"
    else if |t| == 23 then t + "000"
    else t
  }

  /** `+09:00` and the like. */
  predicate IsOffset(o: string) {
    && |o| == 6 && (o[0] == '+' || o[0] == '-') && o[3] == ':'
    && AllDigits(o[1..3]) && AllDigits(o[4..6]) && Number(o[1..3]) < 24 && Number(o[4..6]) < 60
  }

  /** What `_parse_datetime` accepts of a metadata date; only that it is accepted matters here. */
  predicate IsMetadataDate(t: string) {
    || FromIsoFormat(FilledOut(t)).Some?
    || (|t| > 16 && IsOffset(t[|t| - 6..]) && FromIsoFormat(FilledOut(t[..|t| - 6])).Some?)
  }

  predicate DateOk(v: Option<Json.Value>) {
    v.None? || (AsString(v.value).Some? && IsMetadataDate(AsString(v.value).value))
  }

  /** `parse_metadata_file`, with everything it raises as None. */
  function ParseMetadata(text: string): Option<Metadata> {
    var v := Json.Parse(text);
    if v.None? || !v.value.Object? then None
    else
      var d := v.value.members;
      var name, version := Lookup(d, "name"), Lookup(d, "version");
      var description, author := Lookup(d, "description"), Lookup(d, "author");
      var entry := AsString(Default(Lookup(d, "entry_point"), Str("main.py")));
      if name.None? || version.None? || description.None? || author.None?
         || !DateOk(Lookup(d, "created_at")) || !DateOk(Lookup(d, "updated_at")) || entry.None? then None
      else
        Some(Metadata(name.value, version.value, description.value, author.value, entry.value,
                      Default(Lookup(d, "dependencies"), Json.Array([])),
                      Default(Lookup(d, "timeout"), Json.Number("300"))))
  }

  function SampleParameters(): (v: Json.Value)
    ensures v.Object?
  {
    var url := Json.Object([
      Field("type", Str("string")), Field("required", Json.True),
      Field("description", Str("스크래핑할 URL"))]);
    var timeout := Json.Object([
      Field("type", Str("integer")), Field("required", Json.False),
      Field("default", Json.Number("30")), Field("description", Str("요청 타임아웃 (초)"))]);
    Json.Object([Field("url", url), Field("timeout", timeout)])
  }

  function SampleDependencies(): Json.Value {
    Json.Array([Str("requests>=2.25.0"), Str("beautifulsoup4>=4.9.0")])
  }

  function SampleTags(): Json.Value {
    Json.Array([Str("web-scraping"), Str("http")])
  }

  function SampleHead(key: Key, at: DateTime): seq<Json.Member> {
    [ Field("name", Str(key.name)),
      Field("version", Str(key.version)),
      Field("description", Str(key.name + " 스크래핑 스크립트")),
      Field("author", Str("Development Team")),
      Field("created_at", Str(IsoFormat(at))),
      Field("updated_at", Str(IsoFormat(at))),
      Field("python_version", Str(">=3.8")) ]
  }

  function SampleTail(): seq<Json.Member> {
    [ Field("dependencies", SampleDependencies()),
      Field("system_requirements", Json.Array([])),
      Field("entry_point", Str("main.py")),
      Field("timeout", Json.Number("300")),
      Field("memory_limit", Str("512MB")),
      Field("parameters", SampleParameters()),
      Field("tags", SampleTags()) ]
  }

  /** `create_sample_metadata` with the requested version. */
  function SampleMetadata(key: Key, at: DateTime): (v: Json.Value)
    ensures v.Object?
  {
    Json.Object(SampleHead(key, at) + SampleTail())
  }

  /** What `_create_default_metadata` writes. */
  function DefaultText(key: Key, at: DateTime): string {
    Dump(SampleMetadata(key, at))
  }

  // ----- .cache_info -----

  /** The object `_save_cache_info` writes. */
  function InfoValue(s: Settings, key: Key, at: DateTime, m: Metadata, fileHash: Option<string>): (v: Json.Value)
    ensures v.Object?
  {
    Json.Object([
      Field("script_name", Str(key.name)),
      Field("version", Str(key.version)),
      Field("cached_at", Str(IsoFormat(at))),
      Field("entry_point", Str(m.entryPoint)),
      Field("file_hash", if fileHash.Some? then Str(fileHash.value) else Json.Null),
      Field("repository_type", Str(s.repositoryType)),
      Field("metadata", Json.Object([
        Field("name", m.name),
        Field("description", m.description),
        Field("author", m.author),
        Field("dependencies", m.dependencies),
        Field("timeout", m.timeout)]))])
  }

  /** `cached_at` of an info text, when it can be read. */
  function CachedAt(info: string): Option<DateTime> {
    var v := Json.Parse(info);
    if v.None? || !v.value.Object? then None
    else
      var at := Lookup(v.value.members, "cached_at");
      if at.None? || AsString(at.value).None? then None else FromIsoFormat(AsString(at.value).value)
  }

  /** `entry_point` of an info text; None when it is not a path at all. */
  function InfoEntryPoint(info: string): Option<string> {
    var v := Json.Parse(info);
    if v.None? || !v.value.Object? then None
    else AsString(Default(Lookup(v.value.members, "entry_point"), Str("main.py")))
  }

  function InfoHash(info: string): Option<string> {
    var v := Json.Parse(info);
    if v.None? || !v.value.Object? then None
    else
      var h := Lookup(v.value.members, "file_hash");
      if h.None? then None else AsString(h.value)
  }

  function HashOf(s: Settings, files: Files, path: string): Option<string> {
    if path in files then Some(s.hash(files[path])) else None
  }

  // ----- validity -----

  predicate Expired(s: Settings, at: DateTime, now: DateTime)
    requires at.Valid() && now.Valid()
  {
    Micros(now) - Micros(at) > Hours(s.maxAge)
  }

  /** `_is_cache_valid` for the files of one version directory. */
  predicate ValidFiles(s: Settings, files: Files, now: DateTime)
    requires now.Valid()
  {
    && METADATA in files && MARKER in files
    && var info := files[MARKER];
       && CachedAt(info).Some?
       && CachedAt(info).value.Valid()
       && !Expired(s, CachedAt(info).value, now)
       && InfoEntryPoint(info).Some?
       && var entry := InfoEntryPoint(info).value;
          entry in files ==> HashOf(s, files, entry) == InfoHash(info)
  }

  predicate IsCacheValid(s: Settings, disk: Disk, key: Key, now: DateTime)
    requires now.Valid()
  {
    key in disk && ValidFiles(s, disk[key], now)
  }

  // ----- get_script -----

  /** `copy2` adds one file to what is there; `rmtree` and `copytree` replace the directory. */
  function Copied(present: Files, d: Download): Files {
    match d
    case Tree(files) => files
    case SingleFile(name, content) => present[name := content]
  }

  function WithMetadata(key: Key, files: Files, at: DateTime): Files {
    if METADATA in files then files else files[METADATA := DefaultText(key, at)]
  }

  function InfoText(s: Settings, key: Key, files: Files, at: DateTime, m: Metadata): string {
    Dump(InfoValue(s, key, at, m, HashOf(s, files, m.entryPoint)))
  }

  /** The metadata of a version directory, as far as it can be parsed. */
  function MetadataOf(files: Files): Option<Metadata> {
    if METADATA in files then ParseMetadata(files[METADATA]) else None
  }

  /** A directory with its commit marker. */
  function Committed(s: Settings, key: Key, files: Files, at: DateTime): Option<Files> {
    match MetadataOf(files)
    case None => None
    case Some(m) => Some(files[MARKER := InfoText(s, key, files, at, m)])
  }

  datatype Result = Failure | Success(files: Files, metadata: Metadata, hit: bool)

  function FilesAt(disk: Disk, key: Key): Files {
    if key in disk then disk[key] else map[]
  }

  /** The rest of `get_script` once a download has come back; `stored` is the time it is written. */
  function Store(s: Settings, disk: Disk, key: Key, download: Option<Download>, stored: DateTime): (Disk, Result) {
    if download.None? then (disk, Failure)
    else
      var files := WithMetadata(key, Copied(FilesAt(disk, key), download.value), stored);
      match Committed(s, key, files, stored)
      case None => (disk[key := files], Failure)
      case Some(done) => (disk[key := done], Success(done, MetadataOf(files).value, false))
  }

  /** `get_script`: `now` is the time of the check, `download` what the repository gives if it can. */
  function GetScript(s: Settings, disk: Disk, key: Key, now: DateTime, download: Option<Download>, stored: DateTime)
      : (Disk, Result)
    requires now.Valid()
  {
    if IsCacheValid(s, disk, key, now) then
      match MetadataOf(disk[key])
      case None => (disk, Failure)
      case Some(m) => (disk, Success(disk[key], m, true))
    else
      Store(s, disk, key, download, stored)
  }

  /** `if not version`: an absent or empty version means the latest. */
  function ResolveKey(name: string, version: Option<string>, latest: Option<string>): Option<Key> {
    if version.Some? && version.value != "" then Some(Key(name, version.value))
    else if latest.Some? && latest.value != "" then Some(Key(name, latest.value))
    else None
  }

  /** `get_script` from the name and version it is given; without any version it raises. */
  function Request(s: Settings, disk: Disk, name: string, version: Option<string>, latest: Option<string>,
                   now: DateTime, download: Option<Download>, stored: DateTime): (Disk, Result)
    requires now.Valid()
  {
    match ResolveKey(name, version, latest)
    case None => (disk, Failure)
    case Some(key) => GetScript(s, disk, key, now, download, stored)
  }

  // ----- the other operations -----

  predicate Invalidates(name: string, version: Option<string>, key: Key) {
    key.name == name && (version.None? || version.value == "" || key.version == version.value)
  }

  function Invalidate(disk: Disk, name: string, version: Option<string>): Disk {
    map key | key in disk && !Invalidates(name, version, key) :: disk[key]
  }

  /** What `cleanup_old_cache` keeps: readable and recent entries, and unreadable ones. */
  predicate Survives(files: Files, maxAgeHours: int, now: DateTime)
    requires now.Valid()
  {
    && MARKER in files
    && var at := CachedAt(files[MARKER]);
       at.None? || !at.value.Valid() || Micros(at.value) >= Micros(now) - Hours(maxAgeHours)
  }

  function Cleaned(disk: Disk, maxAgeHours: int, now: DateTime): Disk
    requires now.Valid()
  {
    map key | key in disk && Survives(disk[key], maxAgeHours, now) :: disk[key]
  }

  // ----- facts about what is written and read back -----

  lemma {:induction false} FromIsoValid(text: string)
    ensures FromIsoFormat(text).Some? ==> FromIsoFormat(text).value.Valid()
  {
  }

  lemma {:induction false} PrintedDateOk(d: DateTime)
    requires d.Valid()
    ensures DateOk(Some(Str(IsoFormat(d))))
  {
    hide IsoFormat, Str;
    StrReads(IsoFormat(d));
    IsoRoundTrip(d);
    assert IsoShape(IsoFormat(d));
  }

  lemma {:induction false} CachedAtValid(info: string)
    ensures CachedAt(info).Some? ==> CachedAt(info).value.Valid()
  {
  }

  lemma {:induction false} LookupWellFormed(members: seq<Json.Member>, key: string)
    requires forall m | m in members :: WellFormed(m.value)
    ensures Lookup(members, key).Some? ==> WellFormed(Lookup(members, key).value)
  {
    if members != [] {
      LookupWellFormed(members[..|members| - 1], key);
    }
  }

  ghost predicate WellFormedMetadata(m: Metadata) {
    WellFormed(m.name) && WellFormed(m.description) && WellFormed(m.author)
    && WellFormed(m.dependencies) && WellFormed(m.timeout)
  }

  lemma {:induction false} ParsedMetadataWellFormed(text: string)
    requires ParseMetadata(text).Some?
    ensures WellFormedMetadata(ParseMetadata(text).value)
  {
    LoadedWellFormed(text);
    var d := Json.Parse(text).value.members;
    LookupWellFormed(d, "name");
    LookupWellFormed(d, "description");
    LookupWellFormed(d, "author");
    LookupWellFormed(d, "dependencies");
    LookupWellFormed(d, "timeout");
    DigitsWellFormed("300");
  }

  const INFO_KEYS: seq<string> :=
    ["script_name", "version", "cached_at", "entry_point", "file_hash", "repository_type", "metadata"]

  lemma {:induction false} HashOk(h: Option<string>)
    ensures WellFormed(if h.Some? then Str(h.value) else Json.Null)
  {
    if h.Some? {
      StrReads(h.value);
    }
  }

  lemma {:induction false} AtomOk(v: Json.Value)
    requires v == Json.True || v == Json.False || v == Json.Array([])
    ensures WellFormed(v)
  {
  }

  lemma {:induction false} InfoFieldsOk(s: Settings, key: Key, at: DateTime, m: Metadata, h: Option<string>)
    requires WellFormedMetadata(m)
    ensures var d := InfoValue(s, key, at, m, h).members;
      KeysAre(d, INFO_KEYS) && forall k | 0 <= k < |d| :: MemberOk(d[k])
  {
    hide StringBody, Unquote, Quote, Str, Field, IsoFormat, WellFormed, MemberOk;
    var hash := if h.Some? then Str(h.value) else Json.Null;
    var nested := [Field("name", m.name), Field("description", m.description), Field("author", m.author),
                   Field("dependencies", m.dependencies), Field("timeout", m.timeout)];
    HashOk(h);
    FieldOk("name", m.name);
    FieldOk("description", m.description);
    FieldOk("author", m.author);
    FieldOk("dependencies", m.dependencies);
    FieldOk("timeout", m.timeout);
    ObjectOk(nested);
    StrFieldOk("script_name", key.name);
    StrFieldOk("version", key.version);
    StrFieldOk("cached_at", IsoFormat(at));
    StrFieldOk("entry_point", m.entryPoint);
    FieldOk("file_hash", hash);
    StrFieldOk("repository_type", s.repositoryType);
    FieldOk("metadata", Json.Object(nested));
  }

  lemma {:induction false} InfoWellFormed(s: Settings, key: Key, at: DateTime, m: Metadata, h: Option<string>)
    requires WellFormedMetadata(m)
    ensures var v := InfoValue(s, key, at, m, h); WellFormed(v) && KeysAre(v.members, INFO_KEYS)
  {
    InfoFieldsOk(s, key, at, m, h);
    hide WellFormed, InfoValue, KeysAre, MemberOk;
    ObjectOk(InfoValue(s, key, at, m, h).members);
  }

  /** The members that validity depends on. */
  lemma {:induction false} InfoMembers(s: Settings, key: Key, at: DateTime, m: Metadata, h: Option<string>)
    requires WellFormedMetadata(m)
    ensures var d := InfoValue(s, key, at, m, h).members;
      && Lookup(d, "cached_at") == Some(Str(IsoFormat(at)))
      && Lookup(d, "entry_point") == Some(Str(m.entryPoint))
      && Lookup(d, "file_hash") == Some(if h.Some? then Str(h.value) else Json.Null)
  {
    hide StringBody, Unquote, Quote, Str, Field, IsoFormat, Lookup, WellFormed;
    var d := InfoValue(s, key, at, m, h).members;
    InfoWellFormed(s, key, at, m, h);
    LookupKeys(d, INFO_KEYS, 2);
    LookupKeys(d, INFO_KEYS, 3);
    LookupKeys(d, INFO_KEYS, 4);
  }

  /** ... and those that the listing shows. */
  lemma {:induction false} InfoShows(s: Settings, key: Key, at: DateTime, m: Metadata, h: Option<string>)
    requires WellFormedMetadata(m)
    ensures var d := InfoValue(s, key, at, m, h).members;
      && Lookup(d, "script_name") == Some(Str(key.name))
      && Lookup(d, "version") == Some(Str(key.version))
      && Lookup(d, "repository_type") == Some(Str(s.repositoryType))
      && Lookup(d, "metadata").Some? && Describes(Lookup(d, "metadata").value, m)
  {
    hide StringBody, Unquote, Quote, Str, Field, IsoFormat, Lookup, WellFormed, Describes;
    var d := InfoValue(s, key, at, m, h).members;
    InfoWellFormed(s, key, at, m, h);
    LookupKeys(d, INFO_KEYS, 0);
    LookupKeys(d, INFO_KEYS, 1);
    LookupKeys(d, INFO_KEYS, 5);
    LookupKeys(d, INFO_KEYS, 6);
    NestedShows(m);
  }

  /** An object with the five members of the metadata that go into the marker. */
  predicate Describes(v: Json.Value, m: Metadata) {
    && v.Object?
    && Lookup(v.members, "name") == Some(m.name)
    && Lookup(v.members, "description") == Some(m.description)
    && Lookup(v.members, "author") == Some(m.author)
    && Lookup(v.members, "dependencies") == Some(m.dependencies)
    && Lookup(v.members, "timeout") == Some(m.timeout)
  }

  const NESTED_KEYS: seq<string> := ["name", "description", "author", "dependencies", "timeout"]

  lemma {:induction false} NestedShows(m: Metadata)
    requires WellFormedMetadata(m)
    ensures Describes(Json.Object([Field("name", m.name), Field("description", m.description),
                                   Field("author", m.author), Field("dependencies", m.dependencies),
                                   Field("timeout", m.timeout)]), m)
  {
    hide StringBody, Unquote, Quote, Field, WellFormed, Lookup;
    var nested := [Field("name", m.name), Field("description", m.description), Field("author", m.author),
                   Field("dependencies", m.dependencies), Field("timeout", m.timeout)];
    FieldOk("name", m.name);
    FieldOk("description", m.description);
    FieldOk("author", m.author);
    FieldOk("dependencies", m.dependencies);
    FieldOk("timeout", m.timeout);
    assert KeysAre(nested, NESTED_KEYS);
    LookupKeys(nested, NESTED_KEYS, 0);
    LookupKeys(nested, NESTED_KEYS, 1);
    LookupKeys(nested, NESTED_KEYS, 2);
    LookupKeys(nested, NESTED_KEYS, 3);
    LookupKeys(nested, NESTED_KEYS, 4);
  }

  /** A complete `.cache_info` reads back as what was stored. */
  lemma {:induction false} InfoReads(s: Settings, key: Key, at: DateTime, m: Metadata, h: Option<string>)
    requires at.Valid() && WellFormedMetadata(m)
    ensures var text := Dump(InfoValue(s, key, at, m, h));
      && Json.Parse(text) == Some(InfoValue(s, key, at, m, h))
      && CachedAt(text) == Some(at)
      && InfoEntryPoint(text) == Some(m.entryPoint)
      && InfoHash(text) == h
  {
    hide StringBody, Unquote, Quote, Str, Field, IsoFormat, FromIsoFormat, Lookup, WellFormed, InfoValue, Dump,
         Json.Parse;
    var v := InfoValue(s, key, at, m, h);
    InfoWellFormed(s, key, at, m, h);
    LoadDump(v);
    InfoMembers(s, key, at, m, h);
    StrReads(IsoFormat(at));
    StrReads(m.entryPoint);
    StrReads(if h.Some? then h.value else "");
    IsoRoundTrip(at);
  }

  /** A `.cache_info` cut off while being written reads as nothing. */
  lemma {:induction false} InfoTruncated(s: Settings, key: Key, at: DateTime, m: Metadata, h: Option<string>, n: nat)
    requires WellFormedMetadata(m) && n < |Dump(InfoValue(s, key, at, m, h))|
    ensures Json.Parse(Dump(InfoValue(s, key, at, m, h))[..n]).None?
  {
    hide WellFormed, InfoValue, Dump, Json.Parse;
    InfoWellFormed(s, key, at, m, h);
    LoadTruncated(InfoValue(s, key, at, m, h), n);
  }

  const HEAD_KEYS: seq<string> :=
    ["name", "version", "description", "author", "created_at", "updated_at", "python_version"]

  const TAIL_KEYS: seq<string> :=
    ["dependencies", "system_requirements", "entry_point", "timeout", "memory_limit", "parameters", "tags"]

  const SAMPLE_KEYS: seq<string> := HEAD_KEYS + TAIL_KEYS

  lemma {:induction false} SampleParametersOk()
    ensures WellFormed(SampleParameters())
  {
    hide StringBody, Unquote, Quote, Str, Field, WellFormed, MemberOk;
    var url := [Field("type", Str("string")), Field("required", Json.True),
                Field("description", Str("스크래핑할 URL"))];
    var timeout := [Field("type", Str("integer")), Field("required", Json.False),
                    Field("default", Json.Number("30")), Field("description", Str("요청 타임아웃 (초)"))];
    AtomOk(Json.True);
    AtomOk(Json.False);
    DigitsWellFormed("30");
    FieldOk("required", Json.True);
    FieldOk("required", Json.False);
    FieldOk("default", Json.Number("30"));
    StrFieldOk("type", "string");
    StrFieldOk("description", "스크래핑할 URL");
    StrFieldOk("type", "integer");
    StrFieldOk("description", "요청 타임아웃 (초)");
    ObjectOk(url);
    ObjectOk(timeout);
    FieldOk("url", Json.Object(url));
    FieldOk("timeout", Json.Object(timeout));
    ObjectOk([Field("url", Json.Object(url)), Field("timeout", Json.Object(timeout))]);
  }

  lemma {:induction false} PairOk(a: Json.Value, b: Json.Value)
    requires WellFormed(a) && WellFormed(b)
    ensures WellFormed(Json.Array([a, b]))
  {
  }

  lemma {:induction false} SampleListsOk()
    ensures WellFormed(SampleDependencies()) && WellFormed(SampleTags())
  {
    hide StringBody, Quote, Unquote, Str, WellFormed;
    StrReads("requests>=2.25.0");
    StrReads("beautifulsoup4>=4.9.0");
    StrReads("web-scraping");
    StrReads("http");
    PairOk(Str("requests>=2.25.0"), Str("beautifulsoup4>=4.9.0"));
    PairOk(Str("web-scraping"), Str("http"));
  }

  lemma {:induction false} SampleHeadOk(key: Key, at: DateTime)
    ensures var d := SampleHead(key, at);
      KeysAre(d, HEAD_KEYS) && forall k | 0 <= k < |d| :: MemberOk(d[k])
  {
    hide StringBody, Unquote, Quote, Str, Field, WellFormed, MemberOk, IsoFormat;
    StrFieldOk("name", key.name);
    StrFieldOk("version", key.version);
    StrFieldOk("description", key.name + " 스크래핑 스크립트");
    StrFieldOk("author", "Development Team");
    StrFieldOk("created_at", IsoFormat(at));
    StrFieldOk("updated_at", IsoFormat(at));
    StrFieldOk("python_version", ">=3.8");
  }

  lemma {:induction false} SampleTailOk()
    ensures var d := SampleTail();
      KeysAre(d, TAIL_KEYS) && forall k | 0 <= k < |d| :: MemberOk(d[k])
  {
    hide StringBody, Unquote, Quote, Str, Field, WellFormed, MemberOk;
    hide SampleDependencies, SampleParameters, SampleTags;
    SampleListsOk();
    SampleParametersOk();
    DigitsWellFormed("300");
    AtomOk(Json.Array([]));
    FieldOk("dependencies", SampleDependencies());
    FieldOk("system_requirements", Json.Array([]));
    StrFieldOk("entry_point", "main.py");
    FieldOk("timeout", Json.Number("300"));
    StrFieldOk("memory_limit", "512MB");
    FieldOk("parameters", SampleParameters());
    FieldOk("tags", SampleTags());
  }

  lemma {:induction false} SampleWellFormed(key: Key, at: DateTime)
    ensures WellFormed(SampleMetadata(key, at)) && KeysAre(SampleMetadata(key, at).members, SAMPLE_KEYS)
  {
    SampleHeadOk(key, at);
    SampleTailOk();
    hide WellFormed, MemberOk, SampleHead, SampleTail, Unquote;
    assert |SampleTail()| == 7;
    ObjectOk(SampleHead(key, at) + SampleTail());
  }

  /** The members that `parse_metadata_file` asks for. */
  predicate HasFields(d: seq<Json.Member>, key: Key, at: DateTime) {
    && Lookup(d, "name") == Some(Str(key.name)) && Lookup(d, "version") == Some(Str(key.version))
    && Lookup(d, "description").Some? && Lookup(d, "author").Some?
    && Lookup(d, "created_at") == Some(Str(IsoFormat(at)))
    && Lookup(d, "updated_at") == Some(Str(IsoFormat(at)))
    && Lookup(d, "entry_point") == Some(Str("main.py"))
  }

  lemma {:induction false} SampleMembers(key: Key, at: DateTime)
    ensures HasFields(SampleMetadata(key, at).members, key, at)
  {
    hide StringBody, Unquote, Quote, Str, Field, IsoFormat, Lookup, WellFormed;
    hide SampleParameters, SampleDependencies, SampleTags, KeysAre;
    var d := SampleMetadata(key, at).members;
    SampleWellFormed(key, at);
    SampleLookup(d, 0);
    SampleLookup(d, 1);
    SampleLookup(d, 2);
    SampleLookup(d, 3);
    SampleLookup(d, 4);
    SampleLookup(d, 5);
    SampleLookup(d, 9);
    assert d[9] == SampleTail()[2];
  }

  lemma {:induction false} SampleLookup(d: seq<Json.Member>, k: nat)
    requires KeysAre(d, SAMPLE_KEYS) && k < 14
    ensures |d| == 14 && Lookup(d, SAMPLE_KEYS[k]) == Some(d[k].value)
  {
    hide Lookup, Unquote;
    LookupKeys(d, SAMPLE_KEYS, k);
  }

  /** Default metadata always parses, with the requested name and version, and names main.py. */
  lemma {:induction false} SampleReads(key: Key, at: DateTime)
    requires at.Valid()
    ensures match ParseMetadata(DefaultText(key, at))
      case None => false
      case Some(m) =>
        m.entryPoint == "main.py" && AsString(m.name) == Some(key.name) && AsString(m.version) == Some(key.version)
  {
    hide DateOk, StringBody, Unquote, Quote, Str, Field, IsoFormat, FromIsoFormat, Lookup, WellFormed, SampleMetadata,
         Dump, Json.Parse;
    var v := SampleMetadata(key, at);
    SampleWellFormed(key, at);
    LoadDump(v);
    SampleMembers(key, at);
    PrintedDateOk(at);
    StrReads("main.py");
    StrReads(key.name);
    StrReads(key.version);
  }
}
