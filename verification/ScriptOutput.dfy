/** How the executor reads a finished script: the result object from its standard output, the
    error message from its standard error, and the response built from them. */
module ScriptOutput {
  import opened Wrappers
  import opened Strings
  import opened Json
  import opened JsonNesting
  import opened JsonLocality
  import JsonText

  // ----- standard output -----

  /** Results that are not objects are wrapped. */
  function AsDict(v: Value): Value {
    if v.Object? then v else Object([Member("result", v)])
  }

  /** The bottom-up search for a line that is JSON. */
  function LastJsonLine(lines: seq<string>): Option<Value> {
    if lines == [] then None
    else
      var line := lines[|lines| - 1];
      if Strip(line) != "" && Parse(line).Some? then Parse(line) else LastJsonLine(lines[..|lines| - 1])
  }

  function ParseScriptOutput(stdout: string): Value {
    if Strip(stdout) == "" then Object([])
    else if Parse(stdout).Some? then AsDict(Parse(stdout).value)
    else
      match LastJsonLine(Split(Strip(stdout), '\n'))
      case Some(v) => AsDict(v)
      case None => Object([Member("output", Text(JsonText.Quote(Strip(stdout))))])
  }

  /** White space alone is not JSON, so the blank-line test never changes the search. */
  lemma {:induction false} BlankIsNotJson(line: string)
    requires Strip(line) == ""
    ensures Parse(line).None?
  {
    var left, right := StripSplits(line);
    assert line == left + right;
    SkipWsMaximal(line, 0);
    var i := SkipWs(line, 0);
    if i < |line| {
      assert IsSpace(line[i]);
      SpaceStartsNoValue(line, i);
    }
  }

  lemma {:induction false} SpaceStartsNoValue(t: string, i: nat)
    requires i < |t| && IsSpace(t[i])
    ensures ParseValue(t, i).NoValue?
  {
    JsonText.WordFirst(t, i, Word(t[i]));
    LiteralStep(t, i);
  }

  /** The search finds the last line that is JSON, and fails only when no line is. */
  lemma {:induction false} LastJsonLineFinds(lines: seq<string>)
    ensures match LastJsonLine(lines)
      case Some(v) => exists k | 0 <= k < |lines| :: Parse(lines[k]) == Some(v) &&
                        forall m | k < m < |lines| :: Parse(lines[m]).None?
      case None => forall m | 0 <= m < |lines| :: Parse(lines[m]).None?
  {
    hide Parse, Strip;
    if lines != [] {
      var n := |lines| - 1;
      if Strip(lines[n]) == "" {
        BlankIsNotJson(lines[n]);
      }
      if Parse(lines[n]).None? {
        LastJsonLineFinds(lines[..n]);
        var v := LastJsonLine(lines[..n]);
        if v.Some? {
          var k :| 0 <= k < n && Parse(lines[..n][k]) == v && forall m | k < m < n :: Parse(lines[..n][m]).None?;
          forall m | k < m < |lines| ensures Parse(lines[m]).None? {
            if m < n {
              assert lines[..n][m] == lines[m];
            }
          }
          assert Parse(lines[k]) == v;
        } else {
          forall m | 0 <= m < |lines| ensures Parse(lines[m]).None? {
            if m < n {
              assert lines[..n][m] == lines[m];
            }
          }
        }
      }
    }
  }

  /** What a script prints: anything, ended by a line break, then one object on a line of its own, which may be
      indented. */
  predicate LogThenObject(pre: string, indent: string, obj: string, tail: string) {
    && (pre != "" ==> pre[|pre| - 1] == '\n')
    && (forall k | 0 <= k < |indent| :: IsWs(indent[k])) && '\n' !in indent
    && IsObjectText(obj) && '\n' !in obj
    && AllSpace(tail)
  }

  /** Where the object of a text stands, parsing gives the object's own value. */
  lemma {:induction false} ObjectParsesInPlace(t: string, q: nat, obj: string)
    requires IsObjectText(obj) && q + |obj| <= |t| && t[q..q + |obj|] == obj
    requires q + |obj| < |t| ==> IsSpace(t[q + |obj|])
    ensures ParseValue(t, q) == ValueTo(Parse(obj).value, q + |obj|)
  {
    ObjectTextParses(obj);
    assert obj[0..|obj|] == obj;
    SliceAgrees(obj, 0, |obj|, t, q);
    LocalValue(obj, 0, t, q, Parse(obj).value, |obj|);
  }

  lemma {:induction false} SkipsTo(t: string, q: nat)
    requires q < |t| && SkipWs(t, 0) <= q && !IsWs(t[q]) && forall k | SkipWs(t, 0) <= k < q :: IsWs(t[k])
    ensures SkipWs(t, 0) == q
  {
    SkipWsMaximal(t, 0);
  }

  /** If the whole output is JSON, it is the object. */
  lemma {:induction false} WholeOutput(t: string, b: nat, q: nat, obj: string)
    requires b <= q && q + |obj| <= |t| && t[q..q + |obj|] == obj && IsObjectText(obj)
    requires forall k | q + |obj| <= k < |t| :: IsSpace(t[k])
    requires forall k | b <= k < q :: IsWs(t[k])
    requires b > 0 ==> t[b - 1] == '\n'
    requires Parse(t).Some?
    ensures Parse(t) == Parse(obj)
  {
    assert t[q] == t[q..q + |obj|][0] == '{';
    if b > 0 {
      assert EndsWithObject(t, b - 1, q, obj);
      ValueStartsAfterBreak(t, b - 1, q, obj);
    }
    SkipWsMaximal(t, 0);
    SkipsTo(t, q);
    ObjectParsesInPlace(t, q, obj);
  }

  /** An indented object is JSON of its own. */
  lemma {:induction false} IndentedParses(indent: string, obj: string)
    requires IsObjectText(obj) && forall k | 0 <= k < |indent| :: IsWs(indent[k])
    ensures Parse(indent + obj) == Parse(obj) && Strip(indent + obj) != ""
  {
    var t := indent + obj;
    var q := |indent|;
    assert t[q..q + |obj|] == obj && t[q] == obj[0];
    SkipWsMaximal(t, 0);
    SkipsTo(t, q);
    ObjectParsesInPlace(t, q, obj);
    ObjectTextParses(obj);
    assert Stripped(obj) && AllSpace(indent);
    StripUnique(indent, obj, "");
    assert indent + obj + "" == t;
  }

  lemma {:induction false} LastPart(pre: string, left: string, body: string, obj: string)
    requires pre == left + body && (pre != "" ==> pre[|pre| - 1] == '\n') && '\n' !in obj
    ensures var lines := Split(body + obj, '\n'); lines[|lines| - 1] == obj
  {
    hide Split;
    if body == "" {
      assert body + obj == obj;
      SplitSingle(obj, '\n');
    } else {
      assert body[|body| - 1] == pre[|pre| - 1] == '\n';
      var a := body[..|body| - 1];
      assert body + obj == a + ['\n'] + obj;
      SplitLast(a, '\n', obj);
    }
  }

  /** Otherwise the object is the last line of the stripped output, perhaps indented. */
  lemma {:induction false} LastLineIsObject(pre: string, indent: string, obj: string, tail: string)
    requires LogThenObject(pre, indent, obj, tail)
    ensures var lines := Split(Strip(pre + indent + obj + tail), '\n');
      lines[|lines| - 1] == obj || lines[|lines| - 1] == indent + obj
    ensures Strip(pre + indent + obj + tail) != ""
  {
    assert AllSpace(indent) && Stripped(obj) && obj != "";
    hide IsSpace;
    var left := LeftStripSplits(pre);
    var body := LeftStrip(pre);
    hide Parse, Split, Strip, LeftStrip, IsObjectText;
    if body == "" {
      assert AllSpace(left + indent) && pre == left;
      assert pre + indent + obj + tail == (left + indent) + obj + tail;
      StripUnique(left + indent, obj, tail);
      SplitSingle(obj, '\n');
    } else {
      var core := body + (indent + obj);
      assert Stripped(core) by { assert core[0] == body[0] && core[|core| - 1] == obj[|obj| - 1]; }
      assert pre + indent + obj + tail == left + core + tail;
      StripUnique(left, core, tail);
      LastPart(pre, left, body, indent + obj);
    }
  }

  lemma {:induction false} TailIsSpace(head: string, tail: string)
    requires AllSpace(tail)
    ensures forall k | |head| <= k < |head + tail| :: IsSpace((head + tail)[k])
  {
    assert forall k | |head| <= k < |head + tail| :: (head + tail)[k] == tail[k - |head|];
  }

  /** Whatever is logged first, an object printed on the last line is the result. */
  lemma {:induction false} LastObjectWins(pre: string, indent: string, obj: string, tail: string)
    requires LogThenObject(pre, indent, obj, tail)
    ensures Some(ParseScriptOutput(pre + indent + obj + tail)) == Parse(obj)
  {
    hide Parse, Split, Strip, IsObjectText, AllSpace;
    var t := pre + indent + obj + tail;
    var b, q := |pre|, |pre| + |indent|;
    LastLineIsObject(pre, indent, obj, tail);
    ObjectTextParses(obj);
    IndentedParses(indent, obj);
    ObjectNotBlank(obj);
    if Parse(t).Some? {
      assert t[q..q + |obj|] == obj;
      TailIsSpace(pre + indent + obj, tail);
      assert b > 0 ==> t[b - 1] == pre[b - 1];
      assert forall k | b <= k < q :: t[k] == indent[k - b];
      WholeOutput(t, b, q, obj);
    }
  }

  lemma {:induction false} ObjectNotBlank(obj: string)
    requires IsObjectText(obj)
    ensures Strip(obj) != "" && Parse(obj).Some?
  {
    assert Stripped(obj);
    StripUnique("", obj, "");
    assert "" + obj + "" == obj;
  }

  // ----- standard error -----

  function DecimalNat(n: nat): string {
    if n < 10 then ['0' + n as char] else DecimalNat(n / 10) + ['0' + (n % 10) as char]
  }

  function Decimal(n: int): string {
    if n < 0 then "-" + DecimalNat(-n) else DecimalNat(n)
  }

  function ExitMessage(returnCode: int): string {
    "스크립트 실행 실패 (종료코드: " + Decimal(returnCode) + ")"
  }

  /** The simple form: the last line of the stripped text, or the exit code. */
  function ErrorMessage(stderr: string, returnCode: int): string {
    if Strip(stderr) == "" then ExitMessage(returnCode)
    else Strip(LastLine(Strip(stderr)))
  }

  predicate IsTraceback(line: string) { "Traceback" <= line }

  lemma {:induction false} JoinEndsWithLast(parts: seq<string>, sep: char) returns (a: string)
    requires |parts| >= 1
    ensures Join(parts, sep) == a + parts[|parts| - 1]
    ensures a != "" ==> a[|a| - 1] == sep
  {
    if |parts| == 1 {
      a := "";
    } else {
      var rest := JoinEndsWithLast(parts[1..], sep);
      a := parts[0] + [sep] + rest;
      assert parts[1..][|parts[1..]| - 1] == parts[|parts| - 1];
    }
  }

  function LastLine(s: string): string {
    var lines := Split(s, '\n');
    lines[|lines| - 1]
  }

  lemma {:induction false} LastLineSplits(s: string) returns (a: string)
    ensures s == a + LastLine(s) && (a != "" ==> a[|a| - 1] == '\n')
    ensures '\n' !in LastLine(s)
  {
    SplitJoin(s, '\n');
    a := JoinEndsWithLast(Split(s, '\n'), '\n');
    assert LastLine(s) in Split(s, '\n');
  }

  lemma {:induction false} NonSpaceEnd(a: string, last: string)
    requires a != "" ==> a[|a| - 1] == '\n'
    requires a + last != "" && !IsSpace((a + last)[|a + last| - 1])
    ensures last != "" && !IsSpace(last[|last| - 1])
  {
    assert last == "" ==> a + last == a;
  }

  lemma {:induction false} NonSpaceEndNotBlank(s: string)
    requires s != "" && !IsSpace(s[|s| - 1])
    ensures Strip(s) != ""
  {
    var l, r := StripSplits(s);
    hide Strip;
    assert Strip(s) == "" ==> s == l + r;
    assert AllSpace(l + r);
  }

  lemma {:induction false} Regroup(pre: string, a: string, l: string, m: string, r: string, post: string)
    ensures pre + (a + (l + m + r)) + post == (pre + a) + l + m + (r + post)
  {
  }

  lemma {:induction false} NotInMiddle(l: string, m: string, r: string, c: char)
    requires c !in l + m + r
    ensures c !in m
  {
    forall k | 0 <= k < |m| ensures m[k] != c {
      assert m[k] == (l + m + r)[|l| + k];
    }
  }

  /** `_extract_error_message`: the scan for tracebacks always ends at the last line. */
  method ExtractErrorMessage(stderr: string, returnCode: int) returns (message: string)
    ensures message == ErrorMessage(stderr, returnCode)
  {
    if stderr != "" && Strip(stderr) != "" {
      var lines := Split(Strip(stderr), '\n');
      var errorLines := [];
      var inTraceback := false;
      for n := 0 to |lines|
        invariant inTraceback == (errorLines != [])
        invariant errorLines != [] ==> n > 0 && errorLines[|errorLines| - 1] == lines[n - 1]
      {
        if IsTraceback(lines[n]) {
          inTraceback := true;
          errorLines := [lines[n]];
        } else if inTraceback {
          errorLines := errorLines + [lines[n]];
        }
      }
      if errorLines != [] {
        var lastLine := Strip(errorLines[|errorLines| - 1]);
        if lastLine != "" {
          return lastLine;
        }
      }
      return Strip(lines[|lines| - 1]);
    }
    return ExitMessage(returnCode);
  }

  /** On non-blank text the message is the last line, stripped and not empty. */
  lemma {:induction false} ErrorMessageIsLastLine(stderr: string, returnCode: int)
    returns (before: string, left: string, after: string)
    requires Strip(stderr) != ""
    ensures var m := ErrorMessage(stderr, returnCode);
      && m != "" && Stripped(m) && '\n' !in m
      && stderr == before + left + m + after && AllSpace(left) && AllSpace(after)
    ensures AllSpace(before) || before[|before| - 1] == '\n'
  {
    var s := Strip(stderr);
    var pre, post := StripSplits(stderr);
    var a := LastLineSplits(s);
    var last := LastLine(s);
    hide Strip, LastLine;
    NonSpaceEnd(a, last);
    NonSpaceEndNotBlank(last);
    var l, r := StripSplits(last);
    var m := Strip(last);
    NotInMiddle(l, m, r, '\n');
    Regroup(pre, a, l, m, r, post);
    before, left, after := pre + a, l, r + post;
    if a == "" {
      assert before == pre;
    }
  }

  // ----- responses -----

  datatype Status = Completed | Failed

  datatype Response = Response(requestId: string, status: Status, data: Option<Value>, error: Option<string>)

  /** How running a script can end: the exits of `execute_scraping_request`. */
  datatype Execution =
    | Exited(returnCode: int, stdout: string, stderr: string)
    | ScriptError(message: string)
    | Unexpected(message: string)

  function FailedResponse(requestId: string, error: string): Response {
    Response(requestId, Failed, None, Some(error))
  }

  function BuildResponse(requestId: string, run: Execution): Response {
    match run
    case Exited(code, stdout, stderr) =>
      if code == 0 then Response(requestId, Completed, Some(ParseScriptOutput(stdout)), None)
      else FailedResponse(requestId, ErrorMessage(stderr, code))
    case ScriptError(message) => FailedResponse(requestId, message)
    case Unexpected(message) => FailedResponse(requestId, "예기치 않은 오류: " + message)
  }

  lemma {:induction false} OutputIsDict(stdout: string)
    ensures ParseScriptOutput(stdout).Object?
  {
  }

  /** Every exit answers the request it was given: with an object on success, an error otherwise. */
  lemma {:induction false} ResponseShape(requestId: string, run: Execution)
    ensures var r := BuildResponse(requestId, run);
      && r.requestId == requestId
      && (r.status == Completed <==> run.Exited? && run.returnCode == 0)
      && (r.status == Completed <==> r.error.None?)
      && (r.status == Completed <==> r.data.Some? && r.data.value.Object?)
  {
    if run.Exited? {
      OutputIsDict(run.stdout);
    }
  }

  // ----- what a response says, told from the texts alone -----

  /** An object as it is, anything else under "result". */
  predicate Wraps(data: Value, v: Value) {
    if v.Object? then data == v else data == Object([Member("result", v)])
  }

  /** Line `k` is the last one that is JSON. */
  ghost predicate LastJsonAt(lines: seq<string>, k: int) {
    0 <= k < |lines| && Parse(lines[k]).Some? && forall m | k < m < |lines| :: Parse(lines[m]).None?
  }

  /** The whole output if it is JSON, else its last JSON line, else the text itself; nothing for blank output. */
  ghost predicate IsResultOf(data: Value, stdout: string) {
    var lines := Split(Strip(stdout), '\n');
    && (AllSpace(stdout) ==> data == Object([]))
    && (Parse(stdout).Some? ==> Wraps(data, Parse(stdout).value))
    && (Parse(stdout).None? ==>
          forall k | 0 <= k < |lines| && LastJsonAt(lines, k) :: Wraps(data, Parse(lines[k]).value))
    && (Parse(stdout).None? && !AllSpace(stdout) && (forall m | 0 <= m < |lines| :: Parse(lines[m]).None?) ==>
          exists raw :: data == Object([Member("output", Text(raw))]) && JsonText.Unquote(raw) == Strip(stdout))
    && (forall pre, indent, obj, tail | LogThenObject(pre, indent, obj, tail) && stdout == pre + indent + obj + tail ::
          Parse(obj) == Some(data))
  }

  /** `message` is the last line of what is not blank in `stderr`, without the blanks around it. */
  ghost predicate IsLastLine(message: string, stderr: string, before: string, left: string, after: string) {
    && message != "" && Stripped(message) && '\n' !in message
    && stderr == before + left + message + after && AllSpace(left) && AllSpace(after)
    && (AllSpace(before) || before[|before| - 1] == '\n')
  }

  ghost predicate IsErrorOf(message: string, stderr: string, returnCode: int) {
    if AllSpace(stderr) then message == "스크립트 실행 실패 (종료코드: " + Decimal(returnCode) + ")"
    else exists before, left, after :: IsLastLine(message, stderr, before, left, after)
  }

  /** Exit code 0: completed with the result of the standard output; any other way to end: failed with its message. */
  ghost predicate Reports(r: Response, requestId: string, run: Execution) {
    r.requestId == requestId &&
    match run
    case Exited(code, stdout, stderr) =>
      if code == 0 then r.status == Completed && r.error == None && r.data.Some? && IsResultOf(r.data.value, stdout)
      else r.status == Failed && r.data == None && r.error.Some? && IsErrorOf(r.error.value, stderr, code)
    case ScriptError(message) => r.status == Failed && r.data == None && r.error == Some(message)
    case Unexpected(message) => r.status == Failed && r.data == None && r.error == Some("예기치 않은 오류: " + message)
  }

  lemma {:induction false} BlankStrips(s: string)
    ensures AllSpace(s) <==> Strip(s) == ""
  {
    hide IsSpace, Strip;
    if AllSpace(s) {
      assert s + "" + "" == s;
      StripUnique(s, "", "");
    } else {
      var left, right := StripSplits(s);
      assert Strip(s) == "" ==> s == left + right;
    }
  }

  lemma {:induction false} BlankIsNoObject(pre: string, indent: string, obj: string, tail: string)
    requires LogThenObject(pre, indent, obj, tail)
    ensures !AllSpace(pre + indent + obj + tail)
  {
    hide IsObjectText, AllSpace, Parse, Strip, Split;
    LastLineIsObject(pre, indent, obj, tail);
    BlankStrips(pre + indent + obj + tail);
  }

  lemma {:induction false} LastJsonWins(lines: seq<string>, k: int)
    requires LastJsonAt(lines, k)
    ensures LastJsonLine(lines) == Parse(lines[k])
  {
    hide Parse, Strip;
    LastJsonLineFinds(lines);
  }

  lemma {:induction false} NoJsonLine(lines: seq<string>)
    requires forall m | 0 <= m < |lines| :: Parse(lines[m]).None?
    ensures LastJsonLine(lines).None?
  {
    hide Parse, Strip;
    LastJsonLineFinds(lines);
  }

  lemma {:induction false} OutputIsResult(stdout: string)
    ensures IsResultOf(ParseScriptOutput(stdout), stdout)
  {
    hide Parse, Strip, Split, LastJsonLine, AllSpace, IsObjectText, LogThenObject, LastJsonAt, JsonText.Unquote,
         JsonText.Quote;
    var lines := Split(Strip(stdout), '\n');
    var data := ParseScriptOutput(stdout);
    BlankStrips(stdout);
    if Strip(stdout) == "" {
      BlankIsNotJson(stdout);
      BlankLines(stdout);
    }
    forall k | 0 <= k < |lines| && LastJsonAt(lines, k)
      ensures LastJsonLine(lines) == Parse(lines[k]) && Parse(lines[k]).Some?
    {
      LastJsonWins(lines, k);
      LastJsonParses(lines, k);
    }
    if forall m | 0 <= m < |lines| :: Parse(lines[m]).None? {
      NoJsonLine(lines);
      JsonText.UnquoteQuote(Strip(stdout));
    }
    forall pre, indent, obj, tail | LogThenObject(pre, indent, obj, tail) && stdout == pre + indent + obj + tail
      ensures Parse(obj) == Some(data)
    {
      LastObjectWins(pre, indent, obj, tail);
    }
  }

  lemma {:induction false} LastJsonParses(lines: seq<string>, k: int)
    requires LastJsonAt(lines, k)
    ensures 0 <= k < |lines| && Parse(lines[k]).Some?
  {
    hide Parse;
  }

  /** Blank output has no JSON line. */
  lemma {:induction false} BlankLines(stdout: string)
    requires Strip(stdout) == ""
    ensures forall k :: !LastJsonAt(Split(Strip(stdout), '\n'), k)
  {
    hide Parse;
    assert Split("", '\n') == [""];
    assert Strip("") == "";
    BlankIsNotJson("");
  }

  lemma {:induction false} LastLineFound(message: string, stderr: string, before: string, left: string, after: string)
    requires IsLastLine(message, stderr, before, left, after)
    ensures exists b, l, a :: IsLastLine(message, stderr, b, l, a)
  {
    hide IsLastLine;
  }

  lemma {:induction false} MessageIsError(stderr: string, returnCode: int)
    ensures IsErrorOf(ErrorMessage(stderr, returnCode), stderr, returnCode)
  {
    hide Strip, AllSpace, LastLine, Stripped;
    BlankStrips(stderr);
    if Strip(stderr) != "" {
      var before, left, after := ErrorMessageIsLastLine(stderr, returnCode);
      LastLineFound(ErrorMessage(stderr, returnCode), stderr, before, left, after);
    }
  }

  /** Every response reports the run it is built from. */
  lemma {:induction false} BuildReports(requestId: string, run: Execution)
    ensures Reports(BuildResponse(requestId, run), requestId, run)
  {
    hide ParseScriptOutput, ErrorMessage, IsResultOf, IsErrorOf;
    if run.Exited? {
      OutputIsResult(run.stdout);
      MessageIsError(run.stderr, run.returnCode);
    }
  }
}
