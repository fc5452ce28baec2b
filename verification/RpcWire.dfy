/** The texts that travel: `json.dumps` of a request and of a response, and what the other side reads from them. */
module RpcWire {
  import opened Wrappers
  import opened Strings
  import T = Timestamps
  import opened Json
  import opened JsonLocality
  import opened JsonText
  import opened JsonValues
  import opened RpcMessages
  import opened ScriptOutput

  // ----- strings in ASCII -----

  /** Everything but printable ASCII is escaped, beyond the first plane as a surrogate pair. */
  function AsciiEscape(c: char): (e: string)
    ensures e != ""
  {
    if c < ' ' || c == '"' || c == '\\' then EscapeChar(c)
    else if c <= '~' then [c]
    else if c as int < 0x10000 then "\\u" + Hex4(c as int)
    else "\\u" + Hex4(HighOf(c)) + "\\u" + Hex4(LowOf(c))
  }

  function HighOf(c: char): (code: nat)
    requires c as int >= 0x10000
    ensures IsHigh(code)
  {
    0xD800 + (c as int - 0x10000) / 0x400
  }

  function LowOf(c: char): (code: nat)
    requires c as int >= 0x10000
    ensures IsLow(code)
  {
    0xDC00 + (c as int - 0x10000) % 0x400
  }

  function AsciiQuote(s: string): string {
    if s == "" then "" else AsciiEscape(s[0]) + AsciiQuote(s[1..])
  }

  lemma {:induction false} PairReads(c: char)
    requires c as int >= 0x10000
    ensures Paired(HighOf(c), LowOf(c)) == c
  {
  }

  /** A surrogate pair is read as its character. */
  lemma {:induction false} UnquotePair(c: char, rest: string)
    requires c as int >= 0x10000
    ensures Unquote("\\u" + Hex4(HighOf(c)) + "\\u" + Hex4(LowOf(c)) + rest) == [c] + Unquote(rest)
  {
    hide Hex4, FourHex, HighOf, LowOf, Paired;
    var h, l := Hex4(HighOf(c)), Hex4(LowOf(c));
    var t := "\\u" + h + "\\u" + l + rest;
    FourHexReads(HighOf(c));
    FourHexReads(LowOf(c));
    PairReads(c);
    assert t[12..] == rest && t[2..6] == h && t[8..12] == l;
    assert t[2] == t[2..6][0] && t[3] == t[2..6][1] && t[4] == t[2..6][2] && t[5] == t[2..6][3];
    assert t[8] == t[8..12][0] && t[9] == t[8..12][1] && t[10] == t[8..12][2] && t[11] == t[8..12][3];
    assert EscapedCode(t, 6) == Some(LowOf(c));
  }

  lemma {:induction false} UnquoteAsciiEscape(c: char, rest: string)
    ensures Unquote(AsciiEscape(c) + rest) == [c] + Unquote(rest)
  {
    hide Unquote, EscapeChar;
    if c < ' ' || c == '"' || c == '\\' {
      UnquoteEscape(c, rest);
    } else if c <= '~' {
      PlainChar(c);
      UnquoteEscape(c, rest);
    } else if c as int < 0x10000 {
      UnquoteUnicode(c as int, rest);
    } else {
      UnquotePair(c, rest);
    }
  }

  lemma {:induction false} PlainChar(c: char)
    requires ' ' <= c && c != '"' && c != '\\'
    ensures EscapeChar(c) == [c]
  {
  }

  /** Reading undoes writing, for every string. */
  lemma {:induction false} UnquoteAscii(s: string)
    ensures Unquote(AsciiQuote(s)) == s
  {
    hide Unquote, AsciiEscape;
    if s == "" {
      NothingQuoted();
    } else {
      UnquoteAsciiEscape(s[0], AsciiQuote(s[1..]));
      UnquoteAscii(s[1..]);
    }
  }

  lemma {:induction false} NothingQuoted()
    ensures Unquote("") == ""
  {
  }

  lemma {:induction false} UnicodeStep(code: nat, rest: string)
    requires code < 0x10000 && StringBody(rest)
    ensures StringBody("\\u" + Hex4(code) + rest)
  {
    var e := "\\u" + Hex4(code);
    var t := e + rest + "\"";
    var u := rest + "\"";
    assert t[|e|..|t|] == u[0..|u|];
    SliceAgrees(u, 0, |u|, t, |e|);
    LocalString(u, 0, |u|, t, |e|);
    hide HexDigit;
    HexReads(code / 0x1000);
    HexReads(code / 0x100 % 16);
    HexReads(code / 16 % 16);
    HexReads(code % 16);
    assert t[2] == Hex4(code)[0] && t[3] == Hex4(code)[1] && t[4] == Hex4(code)[2] && t[5] == Hex4(code)[3];
    assert StringEnd(t, 0) == StringEnd(t, |e|);
  }

  lemma {:induction false} AsciiStep(c: char, rest: string)
    requires StringBody(rest)
    ensures StringBody(AsciiEscape(c) + rest)
  {
    hide StringBody, EscapeChar, Hex4, HighOf, LowOf;
    if c < ' ' || c == '"' || c == '\\' {
      EscapeStep(c, rest);
    } else if c <= '~' {
      PlainChar(c);
      EscapeStep(c, rest);
    } else if c as int < 0x10000 {
      UnicodeStep(c as int, rest);
    } else {
      UnicodeStep(LowOf(c), rest);
      UnicodeStep(HighOf(c), "\\u" + Hex4(LowOf(c)) + rest);
      assert "\\u" + Hex4(HighOf(c)) + "\\u" + Hex4(LowOf(c)) + rest
          == "\\u" + Hex4(HighOf(c)) + ("\\u" + Hex4(LowOf(c)) + rest);
    }
  }

  lemma {:induction false} AsciiIsBody(s: string)
    ensures StringBody(AsciiQuote(s))
  {
    hide AsciiEscape;
    if s == "" {
      assert StringBody("");
    } else {
      AsciiIsBody(s[1..]);
      AsciiStep(s[0], AsciiQuote(s[1..]));
    }
  }

  // ----- members -----

  function WireText(s: string): (v: Value)
    ensures v.Text?
  {
    Value.Text(AsciiQuote(s))
  }

  function WireField(key: string, v: Value): (m: Member)
    ensures m.value == v
  {
    Member(AsciiQuote(key), v)
  }

  lemma {:induction false} WireTextReads(s: string)
    ensures AsString(WireText(s)) == Some(s) && WellFormed(WireText(s))
  {
    UnquoteAscii(s);
    AsciiIsBody(s);
  }

  lemma {:induction false} WireFieldOk(key: string, v: Value)
    requires WellFormed(v)
    ensures MemberOk(WireField(key, v)) && Unquote(WireField(key, v).key) == key
  {
    UnquoteAscii(key);
    AsciiIsBody(key);
  }

  /** An optional string, None as null. */
  function WireOption(s: Option<string>): Value {
    if s.Some? then WireText(s.value) else Null
  }

  lemma {:induction false} WireOptionOk(s: Option<string>)
    ensures WellFormed(WireOption(s)) && OptionalText(Some(WireOption(s))) == Some(s)
  {
    if s.Some? {
      WireTextReads(s.value);
    }
  }

  /** An `Optional[str]` field: None when the value does not fit, Some(None) when it is absent or null. */
  function OptionalText(v: Option<Value>): Option<Option<string>> {
    if v.None? || v.value.Null? then Some(None)
    else if AsString(v.value).Some? then Some(AsString(v.value)) else None
  }

  lemma {:induction false} DecimalReads(n: nat)
    ensures var d := DecimalNat(n); d != "" && AllDigits(d) && T.Number(d) == n && (n > 0 ==> d[0] != '0')
    ensures n < 10 ==> |DecimalNat(n)| == 1
  {
    var d := DecimalNat(n);
    if n < 10 {
      assert d[..0] == "" && T.Number("") == 0;
    } else {
      DecimalReads(n / 10);
      assert d[..|d| - 1] == DecimalNat(n / 10);
      assert n / 10 > 0;
    }
  }

  /** The decimal text of an integer denotes it. */
  lemma {:induction false} DecimalDenotes(n: int)
    ensures IntLiteral(Decimal(n)) == Some(n)
  {
    hide DecimalNat;
    DecimalReads(if n < 0 then -n else n);
    if n < 0 {
      assert Decimal(n)[1..] == DecimalNat(-n);
    }
  }

  lemma {:induction false} DecimalOk(n: nat)
    ensures WellFormed(Number(DecimalNat(n))) && IntLiteral(DecimalNat(n)) == Some(n)
  {
    hide DecimalNat;
    DecimalReads(n);
    var d := DecimalNat(n);
    assert forall i | 0 <= i < |d| :: IsDigit(d[i]);
    DigitsWellFormed(d);
  }

  // ----- requests -----

  /** What `call_async` puts into a message. The parameters are a value as it was loaded; strings in it keep
      the escapes they came with. */
  function RequestValue(r: Request): (v: Value)
    requires r.task.timeout >= 0
    ensures v.Object?
  {
    Object([
      WireField("request_id", WireText(r.requestId)),
      WireField("script_name", WireText(r.task.scriptName)),
      WireField("script_version", WireOption(r.task.scriptVersion)),
      WireField("parameters", r.task.parameters),
      WireField("timeout", Number(DecimalNat(r.task.timeout))),
      WireField("created_at", WireText(T.IsoFormat(r.createdAt)))])
  }

  function RequestText(r: Request): string
    requires r.task.timeout >= 0
  {
    Dumps(RequestValue(r))
  }

  /** A field as `request_data` holds it. */
  function FieldOf(v: Option<Value>): FieldValue {
    if v.None? then Missing
    else
      match AsString(v.value)
      case Some(s) => FieldValue.Text(s)
      case None => OtherType
  }

  /** The other fields, with the model's defaults for absent ones. */
  function TaskOf(d: seq<Member>): Option<Task> {
    var name, version := Lookup(d, "script_name"), OptionalText(Lookup(d, "script_version"));
    var parameters, timeout := Lookup(d, "parameters"), Lookup(d, "timeout");
    var seconds := if timeout.None? then Some(300)
                   else if timeout.value.Number? then IntLiteral(timeout.value.lexeme) else None;
    if name.None? || AsString(name.value).None? || version.None? || seconds.None?
       || (parameters.Some? && !parameters.value.Object?) then None
    else
      Some(Task(AsString(name.value).value, version.value,
                if parameters.Some? then parameters.value else Object([]), seconds.value))
  }

  /** A body that names a script and nothing else asks for its latest version, without parameters, for 300 seconds. */
  lemma {:induction false} NameAlone(d: seq<Member>, name: string)
    requires Lookup(d, "script_name") == Some(Str(name)) && Lookup(d, "script_version").None?
    requires Lookup(d, "parameters").None? && Lookup(d, "timeout").None?
    ensures TaskOf(d) == Some(Task(name, None, Object([]), 300))
  {
    hide Lookup, AsString, Str;
    StrReads(name);
  }

  /** What a worker loads from a message body. */
  function BodyOf(text: string): Body {
    match Parse(text)
    case None => NotJson
    case Some(v) =>
      if !v.Object? then NotObject
      else Fields(FieldOf(Lookup(v.members, "request_id")), FieldOf(Lookup(v.members, "created_at")), TaskOf(v.members))
  }

  const REQUEST_KEYS: seq<string> := ["request_id", "script_name", "script_version", "parameters", "timeout",
                                      "created_at"]

  lemma {:induction false} RequestFieldsOk(r: Request)
    requires r.task.timeout >= 0 && WellFormed(r.task.parameters)
    ensures var d := RequestValue(r).members;
      KeysAre(d, REQUEST_KEYS) && forall k | 0 <= k < |d| :: MemberOk(d[k])
  {
    hide StringBody, Unquote, AsciiQuote, WireText, WireField, WireOption, T.IsoFormat, WellFormed, MemberOk,
         DecimalNat;
    WireTextReads(r.requestId);
    WireTextReads(r.task.scriptName);
    WireTextReads(T.IsoFormat(r.createdAt));
    WireOptionOk(r.task.scriptVersion);
    DecimalOk(r.task.timeout);
    WireFieldOk("request_id", WireText(r.requestId));
    WireFieldOk("script_name", WireText(r.task.scriptName));
    WireFieldOk("script_version", WireOption(r.task.scriptVersion));
    WireFieldOk("parameters", r.task.parameters);
    WireFieldOk("timeout", Number(DecimalNat(r.task.timeout)));
    WireFieldOk("created_at", WireText(T.IsoFormat(r.createdAt)));
  }

  lemma {:induction false} RequestLoads(r: Request)
    requires r.task.timeout >= 0 && WellFormed(r.task.parameters)
    ensures Parse(RequestText(r)) == Some(RequestValue(r))
    ensures KeysAre(RequestValue(r).members, REQUEST_KEYS)
  {
    RequestFieldsOk(r);
    hide WellFormed, MemberOk, Parse, Dumps, KeysAre, RequestValue;
    ObjectOk(RequestValue(r).members);
    LoadDump(RequestValue(r));
  }

  lemma {:induction false} RequestLookups(r: Request)
    requires r.task.timeout >= 0 && KeysAre(RequestValue(r).members, REQUEST_KEYS)
    ensures var d := RequestValue(r).members;
      && Lookup(d, "request_id") == Some(WireText(r.requestId))
      && Lookup(d, "script_name") == Some(WireText(r.task.scriptName))
      && Lookup(d, "script_version") == Some(WireOption(r.task.scriptVersion))
      && Lookup(d, "parameters") == Some(r.task.parameters)
      && Lookup(d, "timeout") == Some(Number(DecimalNat(r.task.timeout)))
      && Lookup(d, "created_at") == Some(WireText(T.IsoFormat(r.createdAt)))
  {
    hide Unquote, AsciiQuote, WireText, WireOption, T.IsoFormat, DecimalNat, Lookup, KeysAre;
    var d := RequestValue(r).members;
    LookupKeys(d, REQUEST_KEYS, 0);
    LookupKeys(d, REQUEST_KEYS, 1);
    LookupKeys(d, REQUEST_KEYS, 2);
    LookupKeys(d, REQUEST_KEYS, 3);
    LookupKeys(d, REQUEST_KEYS, 4);
    LookupKeys(d, REQUEST_KEYS, 5);
  }

  /** From text to text: a worker that loads what the gateway dumped has exactly the request in hand. */
  lemma {:induction false} RequestRoundTrip(r: Request, freshId: string, now: T.DateTime)
    requires r.Valid() && WellFormed(r.task.parameters)
    ensures BodyOf(RequestText(r)) == Encode(r)
    ensures Decode(BodyOf(RequestText(r)), freshId, now) == Accepted(r)
  {
    hide Unquote, AsciiQuote, WireText, WireOption, T.IsoFormat, DecimalNat, Lookup, KeysAre, Parse, RequestText,
         WellFormed, RequestValue, IntLiteral, Decode, AsString, OptionalText;
    RequestLoads(r);
    RequestLookups(r);
    WireTextReads(r.requestId);
    WireTextReads(r.task.scriptName);
    WireTextReads(T.IsoFormat(r.createdAt));
    WireOptionOk(r.task.scriptVersion);
    DecimalOk(r.task.timeout);
    DecodeEncode(r, freshId, now);
  }

  // ----- responses -----

  function StatusName(status: Status): string {
    match status
    case Completed => "completed"
    case Failed => "failed"
  }

  /** What `_send_response` puts into a message; `seconds` is the execution time as Python prints it. */
  function ResponseValue(r: Response, seconds: string, completedAt: Option<T.DateTime>): (v: Value)
    ensures v.Object?
  {
    Object([
      WireField("request_id", WireText(r.requestId)),
      WireField("status", WireText(StatusName(r.status))),
      WireField("data", if r.data.Some? then r.data.value else Null),
      WireField("error", WireOption(r.error)),
      WireField("execution_time", Number(seconds)),
      WireField("completed_at", WireOption(if completedAt.Some? then Some(T.IsoFormat(completedAt.value)) else None))])
  }

  function ResponseText(r: Response, seconds: string, completedAt: Option<T.DateTime>): string {
    Dumps(ResponseValue(r, seconds, completedAt))
  }

  /** `ScrapingResponse(**json.loads(body))`, with everything it raises as None; of the status values only the two
      that workers send. */
  function ReadResponse(text: string): Option<Response> {
    match Parse(text)
    case None => None
    case Some(v) => if v.Object? then ResponseOf(v.members) else None
  }

  function ResponseOf(d: seq<Member>): Option<Response> {
    var id, status, error := OptionalText(Lookup(d, "request_id")), OptionalText(Lookup(d, "status")),
      OptionalText(Lookup(d, "error"));
    var data, seconds, completedAt := Lookup(d, "data"), Lookup(d, "execution_time"),
      OptionalText(Lookup(d, "completed_at"));
    if id.None? || id.value.None? || status.None? || status.value.None? || error.None? || completedAt.None? then None
    else if status.value.value != "completed" && status.value.value != "failed" then None
    else if data.Some? && !data.value.Null? && !data.value.Object? then None
    else if seconds.Some? && !(seconds.value.Number? && !("-" <= seconds.value.lexeme)) then None
    else if completedAt.value.Some? && T.FromIsoFormat(completedAt.value.value).None? then None
    else
      Some(Response(id.value.value, if status.value.value == "completed" then Completed else Failed,
                    if data.Some? && data.value.Object? then data else None, error.value))
  }

  const RESPONSE_KEYS: seq<string> := ["request_id", "status", "data", "error", "execution_time", "completed_at"]

  /** Data that is an object, and a time that is not negative. */
  ghost predicate Sendable(r: Response, seconds: string, completedAt: Option<T.DateTime>) {
    && (r.data.Some? ==> r.data.value.Object? && WellFormed(r.data.value))
    && WellFormed(Number(seconds)) && !("-" <= seconds)
    && (completedAt.Some? ==> completedAt.value.Valid())
  }

  lemma {:induction false} NullOk()
    ensures WellFormed(Null)
  {
  }

  lemma {:induction false} ResponseFieldsOk(r: Response, seconds: string, completedAt: Option<T.DateTime>)
    requires Sendable(r, seconds, completedAt)
    ensures var d := ResponseValue(r, seconds, completedAt).members;
      KeysAre(d, RESPONSE_KEYS) && forall k | 0 <= k < |d| :: MemberOk(d[k])
  {
    hide StringBody, Unquote, AsciiQuote, WireText, WireField, WireOption, T.IsoFormat, WellFormed, MemberOk,
         StatusName;
    var at := if completedAt.Some? then Some(T.IsoFormat(completedAt.value)) else None;
    NullOk();
    WireTextReads(r.requestId);
    WireTextReads(StatusName(r.status));
    WireOptionOk(r.error);
    WireOptionOk(at);
    WireFieldOk("request_id", WireText(r.requestId));
    WireFieldOk("status", WireText(StatusName(r.status)));
    WireFieldOk("data", if r.data.Some? then r.data.value else Null);
    WireFieldOk("error", WireOption(r.error));
    WireFieldOk("execution_time", Number(seconds));
    WireFieldOk("completed_at", WireOption(at));
  }

  lemma {:induction false} ResponseLoads(r: Response, seconds: string, completedAt: Option<T.DateTime>)
    requires Sendable(r, seconds, completedAt)
    ensures Parse(ResponseText(r, seconds, completedAt)) == Some(ResponseValue(r, seconds, completedAt))
    ensures KeysAre(ResponseValue(r, seconds, completedAt).members, RESPONSE_KEYS)
  {
    ResponseFieldsOk(r, seconds, completedAt);
    hide WellFormed, MemberOk, Parse, Dumps, KeysAre, ResponseValue, Sendable;
    ObjectOk(ResponseValue(r, seconds, completedAt).members);
    LoadDump(ResponseValue(r, seconds, completedAt));
  }

  lemma {:induction false} ResponseLookups(r: Response, seconds: string, completedAt: Option<T.DateTime>)
    requires KeysAre(ResponseValue(r, seconds, completedAt).members, RESPONSE_KEYS)
    ensures var d := ResponseValue(r, seconds, completedAt).members;
      && Lookup(d, "request_id") == Some(WireText(r.requestId))
      && Lookup(d, "status") == Some(WireText(StatusName(r.status)))
      && Lookup(d, "data") == Some(if r.data.Some? then r.data.value else Null)
      && Lookup(d, "error") == Some(WireOption(r.error))
      && Lookup(d, "execution_time") == Some(Number(seconds))
      && Lookup(d, "completed_at")
        == Some(WireOption(if completedAt.Some? then Some(T.IsoFormat(completedAt.value)) else None))
  {
    hide Unquote, AsciiQuote, WireText, WireOption, T.IsoFormat, StatusName, Lookup, KeysAre;
    var d := ResponseValue(r, seconds, completedAt).members;
    LookupKeys(d, RESPONSE_KEYS, 0);
    LookupKeys(d, RESPONSE_KEYS, 1);
    LookupKeys(d, RESPONSE_KEYS, 2);
    LookupKeys(d, RESPONSE_KEYS, 3);
    LookupKeys(d, RESPONSE_KEYS, 4);
    LookupKeys(d, RESPONSE_KEYS, 5);
  }

  /** The words for the status, the id and the error under their names: what anyone else who reads the text finds. */
  lemma {:induction false} ResponseShows(r: Response, seconds: string, completedAt: Option<T.DateTime>)
    requires Sendable(r, seconds, completedAt)
    ensures var d := ResponseValue(r, seconds, completedAt).members;
      && Lookup(d, "request_id").Some? && AsString(Lookup(d, "request_id").value) == Some(r.requestId)
      && Lookup(d, "status").Some?
      && AsString(Lookup(d, "status").value) == Some(if r.status == Completed then "completed" else "failed")
  {
    hide Unquote, AsciiQuote, WireText, Lookup, KeysAre, Parse, ResponseText, WellFormed, ResponseValue, Sendable,
         AsString;
    ResponseLoads(r, seconds, completedAt);
    ResponseLookups(r, seconds, completedAt);
    WireTextReads(r.requestId);
    WireTextReads(StatusName(r.status));
  }

  /** Quoted texts are printable ASCII, whatever they quote. */
  lemma {:induction false} QuotedIsAscii(s: string)
    ensures forall c | c in AsciiQuote(s) :: ' ' <= c <= '~'
  {
    if s != "" {
      QuotedIsAscii(s[1..]);
      EscapedIsAscii(s[0]);
    }
  }

  lemma {:induction false} EscapedIsAscii(c: char)
    ensures forall x | x in AsciiEscape(c) :: ' ' <= x <= '~'
  {
    forall n: nat | n < 16 ensures ' ' <= HexDigit(n) <= '~' {
    }
  }

  lemma {:induction false} TextIsOptional(s: string)
    ensures OptionalText(Some(WireText(s))) == Some(Some(s))
  {
    WireTextReads(s);
  }

  /** From text to text: the gateway reads exactly the response that the worker sent. */
  lemma {:induction false} ResponseRoundTrip(r: Response, seconds: string, completedAt: Option<T.DateTime>)
    requires Sendable(r, seconds, completedAt)
    ensures ReadResponse(ResponseText(r, seconds, completedAt)) == Some(r)
  {
    hide Unquote, AsciiQuote, WireText, WireOption, T.IsoFormat, T.FromIsoFormat, Lookup, KeysAre, Parse, ResponseText,
         WellFormed, ResponseValue, OptionalText;
    ResponseLoads(r, seconds, completedAt);
    ResponseLookups(r, seconds, completedAt);
    TextIsOptional(r.requestId);
    TextIsOptional(StatusName(r.status));
    WireOptionOk(r.error);
    WireOptionOk(if completedAt.Some? then Some(T.IsoFormat(completedAt.value)) else None);
    if completedAt.Some? {
      T.IsoRoundTrip(completedAt.value);
    }
  }

  /** Whatever a script prints, its result can be sent. */
  lemma {:induction false} OutputWellFormed(stdout: string)
    ensures WellFormed(ParseScriptOutput(stdout))
  {
    hide Parse, Strip, WellFormed, LastJsonLine;
    var text := JsonText.Quote(Strip(stdout));
    QuoteIsBody(Strip(stdout));
    TextOk(text);
    WrappedOk("output", Value.Text(text));
    EmptyOk();
    var lines := Split(Strip(stdout), '\n');
    if Parse(stdout).Some? {
      LoadedWellFormed(stdout);
      WrappedOk("result", Parse(stdout).value);
    }
    LastLineWellFormed(lines);
    if LastJsonLine(lines).Some? {
      WrappedOk("result", LastJsonLine(lines).value);
    }
  }

  lemma {:induction false} LastLineWellFormed(lines: seq<string>)
    ensures LastJsonLine(lines).Some? ==> WellFormed(LastJsonLine(lines).value)
  {
    hide Parse, Strip, WellFormed;
    if lines != [] {
      LastLineWellFormed(lines[..|lines| - 1]);
      if Parse(lines[|lines| - 1]).Some? {
        LoadedWellFormed(lines[|lines| - 1]);
      }
    }
  }

  lemma {:induction false} TextOk(raw: string)
    requires StringBody(raw)
    ensures WellFormed(Value.Text(raw))
  {
  }

  lemma {:induction false} EmptyOk()
    ensures WellFormed(Object([]))
  {
  }

  lemma {:induction false} WrappedOk(key: string, v: Value)
    requires WellFormed(v) && (key == "result" || key == "output")
    ensures WellFormed(Object([Member(key, v)]))
  {
    assert Quote(key) == key by { PlainKey(key); }
    QuoteIsBody(key);
  }

  lemma {:induction false} PlainKey(key: string)
    requires forall i | 0 <= i < |key| :: 'a' <= key[i] <= 'z'
    ensures Quote(key) == key
  {
    if key != "" {
      PlainKey(key[1..]);
      assert [key[0]] + key[1..] == key;
    }
  }

  /** Every response a script run leads to arrives as it was built. */
  lemma {:induction false} ResultArrives(requestId: string, run: Execution, seconds: string,
                                         completedAt: Option<T.DateTime>)
    requires WellFormed(Number(seconds)) && !("-" <= seconds) && (completedAt.Some? ==> completedAt.value.Valid())
    ensures ReadResponse(ResponseText(BuildResponse(requestId, run), seconds, completedAt))
      == Some(BuildResponse(requestId, run))
  {
    hide ReadResponse, ResponseText, ParseScriptOutput, WellFormed, ErrorMessage;
    if run.Exited? {
      OutputWellFormed(run.stdout);
      OutputIsDict(run.stdout);
    }
    ResponseRoundTrip(BuildResponse(requestId, run), seconds, completedAt);
  }
}
