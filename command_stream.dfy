/** What the two test shells share: a finished execution, the exit code it
    reports, and the chunks the simulated terminal stream yields, bracketed by
    the shell-integration markers of command start and command end. */
module CommandStream {

  datatype Option<+T> = None | Some(value: T)

  /** Shell-integration escape sequence announcing that a command's output begins. */
  const CommandStart: string := "\U{001B}]633;C\U{0007}"
  /** Shell-integration escape sequence announcing that a command finished. */
  const CommandEnd: string := "\U{001B}]633;D\U{0007}"

  /** A finished synchronous execution. A failure carries what the process
      wrote to standard output, if that was captured, and its exit status, if
      it had one (a process killed by a signal has none). */
  datatype Execution =
    | Completed(output: string)
    | Failed(stdout: Option<string>, status: Option<int>)

  /** The captured output: everything on success, the standard output (or
      nothing) on failure. */
  function RealOutput(e: Execution): (r: string)
    ensures e.Completed? ==> r == e.output
    ensures e.Failed? && e.stdout.Some? ==> r == e.stdout.value
    ensures e.Failed? && e.stdout.None? ==> r == []
  {
    match e
    case Completed(output) => output
    case Failed(stdout, _) => if stdout.Some? then stdout.value else []
  }

  /** The exit code reported: 0 on success; on failure the status, where a
      missing or zero status falls back to 1. */
  function ExitCode(e: Execution): (code: int)
    ensures e.Failed? && e.status.Some? && e.status.value != 0 ==> code == e.status.value
  {
    match e
    case Completed(_) => 0
    case Failed(_, status) => if status.Some? && status.value != 0 then status.value else 1
  }

  /** An execution reports exit code 0 exactly when it completed: a failure is
      never mistaken for success. */
  lemma ZeroExitMeansCompleted(e: Execution)
    ensures ExitCode(e) == 0 <==> e.Completed?
    ensures e.Failed? && (e.status.None? || e.status.value == 0) ==> ExitCode(e) == 1
  {
  }

  /** The stream's chunks: the start marker, the (transformed) output only when
      the captured output is not empty, and the end marker. */
  function Chunks(raw: string, shown: string): (r: seq<string>)
    ensures 2 <= |r| <= 3 && r[0] == CommandStart && r[|r| - 1] == CommandEnd
    ensures |r| == 3 <==> raw != []
    ensures |r| == 3 ==> r[1] == shown
  {
    [CommandStart] + (if |raw| > 0 then [shown] else []) + [CommandEnd]
  }

  /** The concatenation of a sequence of chunks. */
  function Joined(chunks: seq<string>): string {
    if chunks == [] then [] else chunks[0] + Joined(chunks[1..])
  }

  /** Read as one text, the stream is the output between the two markers,
      provided an empty output is shown as empty. */
  lemma ChunksJoin(raw: string, shown: string)
    requires raw == [] ==> shown == []
    ensures Joined(Chunks(raw, shown)) == CommandStart + shown + CommandEnd
  {
    var r := Chunks(raw, shown);
    var last := Joined([CommandEnd]);
    assert last == CommandEnd by {
      assert [CommandEnd][1..] == [];
      assert last == CommandEnd + Joined([]);
    }
    if raw == [] {
      assert r[1..] == [CommandEnd];
    } else {
      assert r[1..][1..] == [CommandEnd];
      assert Joined(r[1..]) == shown + last;
    }
  }
}
