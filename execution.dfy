// One agent invocation: the command line it is launched with and the outcome
// record built from how the child process ended. The process itself (launch,
// reading its output, signals) is outside the model; how it ended is an input.
module Execution {

  import opened Text
  import opened Wrappers

  /** The agent's command line: `agent-tars run --input <instruction> [--debug]`. */
  function Command(input: string, debug: bool): (cmd: seq<string>)
    ensures |cmd| == if debug then 5 else 4
    ensures cmd[..3] == ["agent-tars", "run", "--input"] && cmd[3] == input
    ensures debug ==> cmd[4] == "--debug"
  {
    ["agent-tars", "run", "--input", input] + (if debug then ["--debug"] else [])
  }

  /** The outcome record: `{success, stdout, stderr, returncode}`. */
  datatype Outcome = Outcome(success: bool, stdout: string, stderr: string, returncode: int)

  /** The invariant of every outcome record. */
  predicate Consistent(o: Outcome) {
    o.success == (o.returncode == 0)
  }

  /**
   * How a streamed run ended: the child exited with a return code; the user
   * interrupted the read loop; or an exception was raised (at launch or
   * while reading) with the given text.
   */
  datatype StreamEnd = Exited(returncode: int) | Interrupted | Raised(message: string)

  /** A streamed run: the non-empty lines read before it ended, and how it ended. */
  datatype Stream = Stream(lines: seq<string>, end: StreamEnd)

  const InterruptMessage: string := "Task interrupted by user (Ctrl+C)"
  const ErrorPrefix: string := "Error executing command: "

  /**
   * `run_agent_tars_realtime`. Standard error is merged into standard
   * output. A normal exit keeps all lines and the return code; an interrupt
   * keeps the lines read so far with return code -2; an exception keeps no
   * output, reports the exception text and return code -1.
   */
  function RealtimeOutcome(s: Stream): (o: Outcome)
    ensures Consistent(o)
    ensures s.end.Exited? ==> o.returncode == s.end.returncode && o.stdout == Concat(s.lines) && o.stderr == ""
    ensures s.end.Interrupted? ==>
      !o.success && o.returncode == -2 && o.stdout == Concat(s.lines) && o.stderr == InterruptMessage
    ensures s.end.Raised? ==>
      !o.success && o.returncode == -1 && o.stdout == "" && o.stderr == ErrorPrefix + s.end.message
  {
    match s.end
    case Exited(code) => Outcome(code == 0, Concat(s.lines), "", code)
    case Interrupted => Outcome(false, Concat(s.lines), InterruptMessage, -2)
    case Raised(message) => Outcome(false, "", ErrorPrefix + message, -1)
  }

  /** Which of the three endings an outcome record reports. */
  datatype EndKind = Normal | Cancelled | Failed

  /**
   * Reads the ending back from a streamed outcome: the sentinel return code
   * together with the text in `stderr`.
   */
  function KindOf(o: Outcome): EndKind {
    if o.returncode == -2 && o.stderr == InterruptMessage then Cancelled
    else if o.returncode == -1 && StartsWith(o.stderr, ErrorPrefix) then Failed
    else Normal
  }

  function KindOfEnd(e: StreamEnd): EndKind {
    match e
    case Exited(_) => Normal
    case Interrupted => Cancelled
    case Raised(_) => Failed
  }

  /**
   * The ending of a streamed run can be told from its outcome record, even
   * when the child itself exits with -1 or -2 (its `stderr` is then empty),
   * and an interrupted outcome keeps every line read before the interrupt.
   */
  lemma RealtimeEndingRecoverable(s: Stream)
    ensures KindOf(RealtimeOutcome(s)) == KindOfEnd(s.end)
    ensures s.end.Interrupted? ==>
      forall k :: 0 <= k < |s.lines| ==> Contains(RealtimeOutcome(s).stdout, s.lines[k])
  {
    var o := RealtimeOutcome(s);
    if s.end.Raised? {
      assert o.stderr[..|ErrorPrefix|] == ErrorPrefix;
    }
    ConcatContainsEach(s.lines);
  }

  /**
   * How a captured (non-streamed) run ended: completed with its return code
   * and both output streams, timed out, or raised an exception.
   */
  datatype CapturedEnd = Completed(returncode: int, stdout: string, stderr: string) | TimedOut | Errored(message: string)

  const TimeoutLead: string := "Task timed out after "
  const TimeoutTail: string := " seconds"

  /**
   * `run_agent_tars`. Completion keeps both streams and the return code; a
   * timeout and an exception both give return code -1 with no output, the
   * first naming the timeout in seconds, the second the exception text.
   */
  function CapturedOutcome(e: CapturedEnd, timeout: int): (o: Outcome)
    ensures Consistent(o)
    ensures e.Completed? ==> o == Outcome(e.returncode == 0, e.stdout, e.stderr, e.returncode)
    ensures e.TimedOut? ==>
      && !o.success && o.returncode == -1 && o.stdout == ""
      && StartsWith(o.stderr, TimeoutLead) && EndsWith(o.stderr, TimeoutTail)
    ensures e.Errored? ==> !o.success && o.returncode == -1 && o.stdout == "" && o.stderr == ErrorPrefix + e.message
  {
    match e
    case Completed(code, out, err) => Outcome(code == 0, out, err, code)
    case TimedOut => Outcome(false, "", TimeoutLead + IntToDecimal(timeout) + TimeoutTail, -1)
    case Errored(message) => Outcome(false, "", ErrorPrefix + message, -1)
  }

  /** The number of seconds a timeout message names, if it is one. */
  function TimeoutNamed(stderr: string): Option<int> {
    if |TimeoutLead| + |TimeoutTail| <= |stderr| && StartsWith(stderr, TimeoutLead) && EndsWith(stderr, TimeoutTail)
    then ParseInt(stderr[|TimeoutLead|..|stderr| - |TimeoutTail|])
    else None
  }

  /** A timed-out outcome names exactly the configured timeout. */
  lemma TimeoutMessageNamesTimeout(timeout: int)
    ensures TimeoutNamed(CapturedOutcome(TimedOut, timeout).stderr) == Some(timeout)
  {
    var digits := IntToDecimal(timeout);
    var msg := TimeoutLead + digits + TimeoutTail;
    assert msg[|TimeoutLead|..|msg| - |TimeoutTail|] == digits;
    IntDecimalRoundTrip(timeout);
  }
}
