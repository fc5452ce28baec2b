/** `ProcessManager`: one script run with its timeout and the SIGTERM, wait, SIGKILL ladder, on a clock.
    Seconds are reals; delays of the event loop belong to the overhead of the deadline theorem. */
module Processes {
  import opened Wrappers
  import opened ScriptOutput

  datatype Signal = SigTerm | SigKill

  datatype Sent = Sent(at: real, signal: Signal)

  /** What `communicate` brings when it completes: `at` seconds after the start. */
  datatype Output = Output(at: real, returnCode: int, stdout: Option<string>, stderr: Option<string>)

  /** How a process behaves if the timeout leaves it alone (the memory monitor may end it): when it exits, how long
      after a SIGTERM it would exit, and when its pipes are at end of file, if ever. */
  datatype Behaviour = Behaviour(exits: Option<real>, obeys: Option<real>, output: Option<Output>) {
    predicate Possible() {
      && (exits.Some? ==> exits.value >= 0.0)
      && (obeys.Some? ==> obeys.value >= 0.0)
      && (output.Some? ==> exits.Some? && exits.value <= output.value.at)
    }
  }

  /** `timeout or settings.process_timeout`. */
  function EffectiveTimeout(requested: nat, processTimeout: nat): nat {
    if requested == 0 then processTimeout else requested
  }

  const GRACE: real := 5.0

  /** Gone by `t` seconds after its start, without any signal. */
  predicate ExitedBy(b: Behaviour, t: real) {
    b.exits.Some? && b.exits.value <= t
  }

  /** The seconds `execute_script` takes. */
  function Elapsed(b: Behaviour, timeout: nat): real {
    if b.output.Some? && b.output.value.at <= timeout as real then b.output.value.at
    else timeout as real + (if ExitedBy(b, timeout as real) then 0.0 else GRACE)
  }

  /** The signals it sends to a process started at `start`. */
  function Signals(b: Behaviour, timeout: nat, start: real): seq<Sent> {
    var t := timeout as real;
    if (b.output.Some? && b.output.value.at <= t) || ExitedBy(b, t) then []
    else [Sent(start + t, SigTerm)]
         + (if ExitedBy(b, t + GRACE) || (b.obeys.Some? && b.obeys.value <= GRACE) then []
            else [Sent(start + t + GRACE, SigKill)])
  }

  function ProcessError(message: string): Execution {
    ScriptError("프로세스 생성 오류: " + message)
  }

  function TimeoutMessage(timeout: nat): string {
    "스크립트 실행 타임아웃: " + DecimalNat(timeout) + "초"
  }

  /** How it ends: with the output, or an error naming the timeout or what went wrong in decoding. */
  function Ending(b: Behaviour, timeout: nat, decodeError: string): Execution {
    if b.output.Some? && b.output.value.at <= timeout as real then
      var o := b.output.value;
      if o.stdout.Some? && o.stderr.Some? then Exited(o.returnCode, o.stdout.value, o.stderr.value)
      else ProcessError("스크립트 실행 오류: " + decodeError)
    else ProcessError(TimeoutMessage(timeout))
  }

  /** Its output came before the timeout. */
  predicate OutputInTime(b: Behaviour, timeout: nat) {
    b.output.Some? && b.output.value.at <= timeout as real
  }

  predicate Decodes(b: Behaviour) {
    b.output.Some? && b.output.value.stdout.Some? && b.output.value.stderr.Some?
  }

  /** What the run of a process comes to: its own return code and texts if they came in time and decode, else the
      error that says what went wrong. */
  predicate Tells(run: Execution, b: Behaviour, timeout: nat, decodeError: string) {
    && (OutputInTime(b, timeout) && Decodes(b) ==>
          && run.Exited? && run.returnCode == b.output.value.returnCode
          && Some(run.stdout) == b.output.value.stdout && Some(run.stderr) == b.output.value.stderr)
    && (OutputInTime(b, timeout) && !Decodes(b) ==>
          run == ScriptError("프로세스 생성 오류: 스크립트 실행 오류: " + decodeError))
    && (!OutputInTime(b, timeout) ==>
          run == ScriptError("프로세스 생성 오류: 스크립트 실행 타임아웃: " + DecimalNat(timeout) + "초"))
  }

  /** The ladder: a run with its output in time takes as long as that and gets no signal. Any other takes the timeout,
      and if the process is not gone by then a SIGTERM and five seconds more, and a SIGKILL after these exactly if it
      is not gone then either. */
  lemma {:induction false} LadderMeans(b: Behaviour, timeout: nat, start: real, decodeError: string)
    requires b.Possible()
    ensures Tells(Ending(b, timeout, decodeError), b, timeout, decodeError)
    ensures OutputInTime(b, timeout) ==> Elapsed(b, timeout) == b.output.value.at
    ensures !OutputInTime(b, timeout) ==>
      Elapsed(b, timeout) == timeout as real + (if ExitedBy(b, timeout as real) then 0.0 else 5.0)
    ensures Elapsed(b, timeout) <= timeout as real + 5.0
    ensures var sent, end := Signals(b, timeout, start), start + timeout as real;
      && (ExitedBy(b, timeout as real) ==> sent == [])
      && (!ExitedBy(b, timeout as real) ==> sent != [] && sent[0] == Sent(end, SigTerm) && |sent| <= 2)
      && (|sent| == 2 ==> sent[1] == Sent(end + 5.0, SigKill))
      && (|sent| == 2 <==>
            !ExitedBy(b, timeout as real + 5.0) && !(b.obeys.Some? && b.obeys.value <= 5.0))
  {
    assert "프로세스 생성 오류: " + ("스크립트 실행 오류: " + decodeError) == "프로세스 생성 오류: 스크립트 실행 오류: " + decodeError;
    assert "프로세스 생성 오류: " + ("스크립트 실행 타임아웃: " + DecimalNat(timeout) + "초")
        == "프로세스 생성 오류: 스크립트 실행 타임아웃: " + DecimalNat(timeout) + "초";
  }

  class ProcessManager {
    var activeProcesses: map<string, nat>
    var clock: real
    var signals: seq<Sent>

    constructor (now: real)
      ensures activeProcesses == map[] && clock == now && signals == []
    {
      activeProcesses, clock, signals := map[], now, [];
    }

    function GetActiveProcessCount(): nat
      reads this
    {
      |activeProcesses|
    }

    /** Time that passes in other work. */
    method Wait(seconds: real)
      modifies this`clock
      ensures clock == old(clock) + seconds
    {
      clock := clock + seconds;
    }

    method Started(processId: string, pid: nat)
      modifies this`activeProcesses
      ensures activeProcesses == old(activeProcesses)[processId := pid]
    {
      activeProcesses := activeProcesses[processId := pid];
    }

    /** The `finally` clause of `execute_script`. */
    method Ended(processId: string)
      modifies this`activeProcesses
      ensures activeProcesses == old(activeProcesses) - {processId}
    {
      if processId in activeProcesses {
        activeProcesses := activeProcesses - {processId};
      }
      assert activeProcesses == old(activeProcesses) - {processId};
    }

    /** `_terminate_process` for a process started at `start`. */
    method TerminateProcess(b: Behaviour, start: real)
      modifies this`clock, this`signals
      ensures ExitedBy(b, old(clock) - start) ==> clock == old(clock) && signals == old(signals)
      ensures !ExitedBy(b, old(clock) - start) ==>
        clock == old(clock) + GRACE && signals == old(signals) + [Sent(old(clock), SigTerm)]
          + (if ExitedBy(b, clock - start) || (b.obeys.Some? && b.obeys.value <= GRACE) then []
            else [Sent(clock, SigKill)])
    {
      if !ExitedBy(b, clock - start) {
        signals := signals + [Sent(clock, SigTerm)];
        clock := clock + GRACE;
        var obeyed := b.obeys.Some? && b.obeys.value <= GRACE;
        if !ExitedBy(b, clock - start) && !obeyed {
          signals := signals + [Sent(clock, SigKill)];
        }
      }
    }

    /** `execute_script` from the start of the process on. */
    method ExecuteScript(processId: string, pid: nat, b: Behaviour, timeout: nat, decodeError: string)
      returns (run: Execution)
      requires b.Possible()
      modifies this
      ensures run == Ending(b, timeout, decodeError) && Tells(run, b, timeout, decodeError)
      ensures clock == old(clock) + Elapsed(b, timeout)
      ensures signals == old(signals) + Signals(b, timeout, old(clock))
      ensures activeProcesses == old(activeProcesses) - {processId}
    {
      hide Tells;
      LadderMeans(b, timeout, clock, decodeError);
      var start := clock;
      Started(processId, pid);
      if b.output.Some? && b.output.value.at <= timeout as real {
        var o := b.output.value;
        clock := start + o.at;
        if o.stdout.Some? && o.stderr.Some? {
          run := Exited(o.returnCode, o.stdout.value, o.stderr.value);
        } else {
          TerminateProcess(b, start);
          run := ProcessError("스크립트 실행 오류: " + decodeError);
        }
      } else {
        clock := start + timeout as real;
        TerminateProcess(b, start);
        run := ProcessError(TimeoutMessage(timeout));
      }
      Ended(processId);
      assert activeProcesses == old(activeProcesses) - {processId};
    }
  }
}
