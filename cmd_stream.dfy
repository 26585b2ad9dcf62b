/** The CMD test stream: a POSIX-style test command is rewritten into a CMD
    equivalent by an ordered first-match chain, run as `cmd.exe /c`, and its
    output streamed as captured (Windows line endings kept). */
module CmdStream {
  import opened CommandStream
  import JsString

  // ---------------------------------------------------------------------------
  // The rewriting chain as a table

  /** A test on the command: equality with a text, or containing it. */
  datatype Guard = Is(text: string) | Includes(text: string) | Either(left: Guard, right: Guard)

  predicate Holds(guard: Guard, command: string) {
    match guard
    case Is(text) => command == text
    case Includes(text) => JsString.Contains(command, text)
    case Either(left, right) => Holds(left, command) || Holds(right, command)
  }

  datatype Rule = Rule(guard: Guard, replacement: string)

  /** The fixed rewrites, in the order they are tried. */
  const Rules: seq<Rule> := [
    Rule(Is("echo a"), "echo a"),
    Rule(Either(Is("/bin/echo -n a"), Includes("echo -n a")), "echo|set /p=a"),
    Rule(Includes("printf \"a\\nb\\n\""), "echo a && echo b"),
    Rule(Either(Includes("exit 0"), Is("true")), "exit /b 0"),
    Rule(Either(Includes("exit 1"), Is("false")), "exit /b 1"),
    Rule(Includes("exit 2"), "exit /b 2"),
    Rule(Includes("nonexistentcommand"), "nonexistentcommand"),
    Rule(Either(Includes("bash -c 'kill $$'"), Includes("kill")), "exit /b 143"),
    Rule(Includes("kill -SIGSEGV"), "exit /b 139")
  ]

  /** Position of the SIGTERM rule and of the SIGSEGV rule in the table. */
  const KillRule: nat := 7
  const SegfaultRule: nat := 8

  /** The first rule at or after `from` whose guard holds. */
  function FirstFiring(command: string, from: nat): (r: Option<nat>)
    ensures r.Some? ==> from <= r.value < |Rules| && Holds(Rules[r.value].guard, command)
    ensures r.Some? ==> forall j :: from <= j < r.value ==> !Holds(Rules[j].guard, command)
    ensures r.None? ==> forall j :: from <= j < |Rules| ==> !Holds(Rules[j].guard, command)
    decreases |Rules| - from
  {
    if from >= |Rules| then None
    else if Holds(Rules[from].guard, command) then Some(from)
    else FirstFiring(command, from + 1)
  }

  // ---------------------------------------------------------------------------
  // The `yes "X" | head -n N` pattern

  /** The character classes the pattern uses: `\s`, `\d` and `[^"]`. */
  datatype CharClass = Space | Digit | NotQuote

  predicate InClass(c: char, cls: CharClass) {
    match cls
    case Space => JsString.IsWhitespace(c)
    case Digit => '0' <= c <= '9'
    case NotQuote => c != '"'
  }

  /** The end of the longest run of `cls` characters starting at `i`. */
  function RunEnd(s: string, i: nat, cls: CharClass): (j: nat)
    requires i <= |s|
    ensures i <= j <= |s|
    ensures forall k :: i <= k < j ==> InClass(s[k], cls)
    ensures j < |s| ==> !InClass(s[j], cls)
    decreases |s| - i
  {
    if i < |s| && InClass(s[i], cls) then RunEnd(s, i + 1, cls) else i
  }

  /** The two captures: the repeated text and the line count. */
  datatype YesHead = YesHead(repeated: string, lines: string)

  predicate WellFormed(m: YesHead) {
    m.repeated != [] && m.lines != [] &&
    (forall k :: 0 <= k < |m.repeated| ==> m.repeated[k] != '"') &&
    (forall k :: 0 <= k < |m.lines| ==> '0' <= m.lines[k] <= '9')
  }

  /** `\s+` followed by the text `token` at the start of `t`; the result is
      what follows the token. */
  function SpacedToken(t: string, token: string): (r: Option<string>)
    ensures r.Some? ==> |r.value| < |t|
  {
    var c := RunEnd(t, 0, Space);
    if c == 0 || !JsString.OccursAt(t, token, c) then None else Some(t[c + |token|..])
  }

  /** `\s+(\d+)` at the start of `t`; the result is the captured digits. */
  function SpacedCount(t: string): (r: Option<string>)
    ensures r.Some? ==> r.value != [] && forall k :: 0 <= k < |r.value| ==> '0' <= r.value[k] <= '9'
  {
    var f := RunEnd(t, 0, Space);
    if f == 0 then None
    else
      var g := RunEnd(t, f, Digit);
      if g == f then None
      else
        assert forall k :: 0 <= k < g - f ==> t[f..g][k] == t[f + k];
        Some(t[f..g])
  }

  /** `\s+\|\s+head\s+-n\s+(\d+)` at the start of `t` (the text after the
      closing quote); the result is the captured count. */
  function AfterQuote(t: string): (r: Option<string>)
    ensures r.Some? ==> r.value != [] && forall k :: 0 <= k < |r.value| ==> '0' <= r.value[k] <= '9'
  {
    match SpacedToken(t, "|")
    case None => None
    case Some(v) =>
      match SpacedToken(v, "head")
      case None => None
      case Some(w) =>
        match SpacedToken(w, "-n")
        case None => None
        case Some(x) => SpacedCount(x)
  }

  /** `\s+"([^"]+)"` followed by the rest of the pattern, at the start of `t`
      (the text after `yes`). */
  function AfterYes(t: string): (r: Option<YesHead>)
    ensures r.Some? ==> WellFormed(r.value)
  {
    match SpacedToken(t, "\"")
    case None => None
    case Some(u) =>
      var b := RunEnd(u, 0, NotQuote);
      if b == 0 || b == |u| then None
      else
        match AfterQuote(u[b + 1..])
        case Some(lines) =>
          assert forall k :: 0 <= k < b ==> u[..b][k] == u[k];
          Some(YesHead(u[..b], lines))
        case None => None
  }

  /** Matching the pattern at position `i`. Every `+` in it is followed by a
      character its class excludes, so each run is taken whole and no
      backtracking can produce another match. */
  function YesHeadAt(s: string, i: nat): (r: Option<YesHead>)
    requires i <= |s|
    ensures r.Some? ==> WellFormed(r.value) && JsString.OccursAt(s, "yes", i)
  {
    if JsString.OccursAt(s, "yes", i) then AfterYes(s[i + 3..]) else None
  }

  /** The leftmost match at or after `from`, as `String.prototype.match` finds it. */
  function SearchYesHead(s: string, from: nat): (r: Option<YesHead>)
    requires from <= |s|
    ensures r.Some? ==> WellFormed(r.value) && JsString.Contains(s, "yes")
    decreases |s| - from
  {
    match YesHeadAt(s, from)
    case Some(m) => Some(m)
    case None => if from == |s| then None else SearchYesHead(s, from + 1)
  }

  /** The command the pattern recognises, written with single spaces. */
  function YesHeadCommand(m: YesHead): string {
    "yes \"" + m.repeated + "\" | head -n " + m.lines
  }

  /** The CMD loop that prints the text the given number of times. */
  function ForLoop(m: YesHead): string {
    "for /L %i in (1,1," + m.lines + ") do @echo " + m.repeated
  }

  // ---------------------------------------------------------------------------
  // The rewrite

  /** The CMD equivalent of a test command: the first matching rewrite wins;
      a command matching none is passed through unchanged. */
  function ToCmdCommand(command: string): (r: string)
    ensures command == "true" ==> r == "exit /b 0"
    ensures command == "false" ==> r == "exit /b 1"
    ensures JsString.Contains(command, "kill -SIGSEGV") ==> r != "exit /b 139"
  {
    KillTestCatchesSegfault(command);
    if command == "echo a" then "echo a"
    else if command == "/bin/echo -n a" || JsString.Contains(command, "echo -n a") then "echo|set /p=a"
    else if JsString.Contains(command, "printf \"a\\nb\\n\"") then "echo a && echo b"
    else if JsString.Contains(command, "exit 0") || command == "true" then "exit /b 0"
    else if JsString.Contains(command, "exit 1") || command == "false" then "exit /b 1"
    else if JsString.Contains(command, "exit 2") then "exit /b 2"
    else if JsString.Contains(command, "nonexistentcommand") then "nonexistentcommand"
    else if JsString.Contains(command, "bash -c 'kill $$'") || JsString.Contains(command, "kill") then "exit /b 143"
    else if JsString.Contains(command, "kill -SIGSEGV") then "exit /b 139"
    else if JsString.Contains(command, "yes") && JsString.Contains(command, "head") then
      match SearchYesHead(command, 0)
      case Some(m) => ForLoop(m)
      case None => command
    else command
  }

  /** A command holding `kill -SIGSEGV` passes the `kill` test before it. */
  lemma KillTestCatchesSegfault(command: string)
    ensures JsString.Contains(command, "kill -SIGSEGV") ==> JsString.Contains(command, "kill")
  {
    if JsString.Contains(command, "kill -SIGSEGV") {
      var i :| 0 <= i <= |command| && JsString.OccursAt(command, "kill -SIGSEGV", i);
      JsString.OccursWithin(command, "kill -SIGSEGV", "kill", i, 0);
    }
  }

  /** Each rule's guard is the corresponding test of the rewrite. */
  lemma GuardsMean(command: string)
    ensures Holds(Rules[0].guard, command) <==> (command == "echo a")
    ensures Holds(Rules[1].guard, command) <==> (command == "/bin/echo -n a" || JsString.Contains(command, "echo -n a"))
    ensures Holds(Rules[2].guard, command) <==> (JsString.Contains(command, "printf \"a\\nb\\n\""))
    ensures Holds(Rules[3].guard, command) <==> (JsString.Contains(command, "exit 0") || command == "true")
    ensures Holds(Rules[4].guard, command) <==> (JsString.Contains(command, "exit 1") || command == "false")
    ensures Holds(Rules[5].guard, command) <==> (JsString.Contains(command, "exit 2"))
    ensures Holds(Rules[6].guard, command) <==> (JsString.Contains(command, "nonexistentcommand"))
    ensures Holds(Rules[7].guard, command) <==> (JsString.Contains(command, "bash -c 'kill $$'") || JsString.Contains(command, "kill"))
    ensures Holds(Rules[8].guard, command) <==> (JsString.Contains(command, "kill -SIGSEGV"))
  {
  }

  /** The rewrite is the table read top to bottom: the first rule whose guard
      holds gives the result; when none holds, a recognised `yes | head`
      command becomes a loop and anything else is kept. */
  lemma RewriteFollowsTable(command: string)
    ensures FirstFiring(command, 0).Some? ==>
      ToCmdCommand(command) == Rules[FirstFiring(command, 0).value].replacement
    ensures (FirstFiring(command, 0).None? && SearchYesHead(command, 0).Some? &&
      JsString.Contains(command, "head")) ==> ToCmdCommand(command) == ForLoop(SearchYesHead(command, 0).value)
    ensures (FirstFiring(command, 0).None? &&
      (SearchYesHead(command, 0).None? || !JsString.Contains(command, "head"))) ==> ToCmdCommand(command) == command
  {
    GuardsMean(command);
    if command == "echo a" {
      assert FirstFiring(command, 0) == Some(0);
    } else if command == "/bin/echo -n a" || JsString.Contains(command, "echo -n a") {
      assert FirstFiring(command, 0) == FirstFiring(command, 1) == Some(1);
    } else if JsString.Contains(command, "printf \"a\\nb\\n\"") {
      assert FirstFiring(command, 0) == FirstFiring(command, 1) == FirstFiring(command, 2) == Some(2);
    } else if JsString.Contains(command, "exit 0") || command == "true" {
      assert FirstFiring(command, 0) == FirstFiring(command, 1) == FirstFiring(command, 2) == FirstFiring(command, 3) == Some(3);
    } else if JsString.Contains(command, "exit 1") || command == "false" {
      assert FirstFiring(command, 0) == FirstFiring(command, 1) == FirstFiring(command, 2) == FirstFiring(command, 3) == FirstFiring(command, 4) == Some(4);
    } else if JsString.Contains(command, "exit 2") {
      assert FirstFiring(command, 0) == FirstFiring(command, 1) == FirstFiring(command, 2) == FirstFiring(command, 3) == FirstFiring(command, 4) == FirstFiring(command, 5) == Some(5);
    } else if JsString.Contains(command, "nonexistentcommand") {
      assert FirstFiring(command, 0) == FirstFiring(command, 1) == FirstFiring(command, 2) == FirstFiring(command, 3) == FirstFiring(command, 4) == FirstFiring(command, 5) == FirstFiring(command, 6) == Some(6);
    } else if JsString.Contains(command, "bash -c 'kill $$'") || JsString.Contains(command, "kill") {
      assert FirstFiring(command, 0) == FirstFiring(command, 1) == FirstFiring(command, 2) == FirstFiring(command, 3) == FirstFiring(command, 4) == FirstFiring(command, 5) == FirstFiring(command, 6) == FirstFiring(command, 7) == Some(7);
    } else if JsString.Contains(command, "kill -SIGSEGV") {
      assert FirstFiring(command, 0) == FirstFiring(command, 1) == FirstFiring(command, 2) == FirstFiring(command, 3) == FirstFiring(command, 4) == FirstFiring(command, 5) == FirstFiring(command, 6) == FirstFiring(command, 7) == FirstFiring(command, 8) == Some(8);
    } else {
      assert FirstFiring(command, 0) == FirstFiring(command, 1) == FirstFiring(command, 2) == FirstFiring(command, 3) == FirstFiring(command, 4) == FirstFiring(command, 5) == FirstFiring(command, 6) == FirstFiring(command, 7) == FirstFiring(command, 8) == FirstFiring(command, 9) == None;
    }
  }

  /** Any command mentioning `kill` stops at the SIGTERM rule, so the SIGSEGV
      rule after it never fires: the only command rewritten to the SIGSEGV
      code is that code itself. */
  lemma SegfaultRuleUnreachable(command: string)
    ensures FirstFiring(command, 0) != Some(SegfaultRule)
    ensures ToCmdCommand(command) == "exit /b 139" ==> command == "exit /b 139"
  {
    KillTestCatchesSegfault(command);
    if JsString.Contains(command, "kill -SIGSEGV") {
      assert Holds(Rules[KillRule].guard, command);
    }
    RewriteFollowsTable(command);
    if SearchYesHead(command, 0).Some? {
      assert ForLoop(SearchYesHead(command, 0).value)[0] == 'f';
    }
  }

  /** `echo a` is kept; an `echo -n a` becomes CMD's newline-free echo. */
  lemma EchoRewrites(command: string)
    ensures ToCmdCommand("echo a") == "echo a"
    ensures command == "/bin/echo -n a" || JsString.Contains(command, "echo -n a") ==>
      ToCmdCommand(command) == "echo|set /p=a"
  {
    if JsString.Contains(command, "echo -n a") {
      assert |command| >= 9;
    }
  }

  /** A single space before a character outside the class is a run of one. */
  lemma OneSpace(t: string)
    requires |t| >= 2 && t[0] == ' ' && !JsString.IsWhitespace(t[1])
    ensures RunEnd(t, 0, Space) == 1
  {
  }

  /** The end of a run is where the class first fails. */
  lemma {:induction false} RunEndStops(s: string, i: nat, cls: CharClass, j: nat)
    requires i <= j <= |s|
    requires forall k :: i <= k < j ==> InClass(s[k], cls)
    requires j < |s| ==> !InClass(s[j], cls)
    ensures RunEnd(s, i, cls) == j
    decreases |s| - i
  {
    if i < j {
      RunEndStops(s, i + 1, cls, j);
    }
  }

  /** One space and then the token is recognised, leaving what follows. */
  lemma SpacedTokenRecognised(token: string, rest: string)
    requires token != [] && !JsString.IsWhitespace(token[0])
    ensures SpacedToken(" " + token + rest, token) == Some(rest)
  {
    var t := " " + (token + rest);
    assert t == " " + token + rest;
    OneSpace(t);
    assert t[1..1 + |token|] == token && t[1 + |token|..] == rest;
  }

  /** One space and then a maximal run of digits is recognised as the count. */
  lemma SpacedCountRecognised(lines: string, rest: string)
    requires lines != [] && forall k :: 0 <= k < |lines| ==> '0' <= lines[k] <= '9'
    requires rest == [] || !('0' <= rest[0] <= '9')
    ensures SpacedCount(" " + lines + rest) == Some(lines)
  {
    var x := " " + lines + rest;
    assert x[1] == lines[0];
    OneSpace(x);
    forall k | 1 <= k < 1 + |lines| ensures InClass(x[k], Digit) {
      assert x[k] == lines[k - 1];
    }
    RunEndStops(x, 1, Digit, 1 + |lines|);
    assert x[1..1 + |lines|] == lines;
  }

  /** The pipe into `head -n N`, written with single spaces, yields the count `N`. */
  lemma AfterQuoteRecognised(lines: string, rest: string)
    requires lines != [] && forall k :: 0 <= k < |lines| ==> '0' <= lines[k] <= '9'
    requires rest == [] || !('0' <= rest[0] <= '9')
    ensures AfterQuote(" | head -n " + lines + rest) == Some(lines)
  {
    var x := " " + lines + rest;
    var w := " " + "-n" + x;
    var v := " " + "head" + w;
    var t := " " + "|" + v;
    assert AfterQuote(t) == Some(lines) by {
      SpacedTokenRecognised("|", v);
      SpacedTokenRecognised("head", w);
      SpacedTokenRecognised("-n", x);
      SpacedCountRecognised(lines, rest);
    }
    RegroupTail(lines, rest);
  }

  /** The pipe text split into the pieces the matcher consumes one by one. */
  lemma RegroupTail(lines: string, rest: string)
    ensures " | head -n " + lines + rest == " " + "|" + (" " + "head" + (" " + "-n" + (" " + lines + rest)))
  {
  }

  /** A run of characters other than `"` ends at the quote after it. */
  lemma QuotedRun(repeated: string, tail: string)
    requires repeated != [] && forall k :: 0 <= k < |repeated| ==> repeated[k] != '"'
    ensures var u := repeated + "\"" + tail;
      RunEnd(u, 0, NotQuote) == |repeated| && u[..|repeated|] == repeated && u[|repeated| + 1..] == tail
  {
    var u := repeated + "\"" + tail;
    forall k | 0 <= k < |repeated| ensures InClass(u[k], NotQuote) {
      assert u[k] == repeated[k];
    }
    RunEndStops(u, 0, NotQuote, |repeated|);
  }

  /** The text after `yes` split into the quoted part and the pipe text. */
  lemma Regroup(repeated: string, lines: string, rest: string)
    ensures " \"" + repeated + "\" | head -n " + lines + rest ==
      " " + "\"" + (repeated + "\"" + (" | head -n " + lines + rest))
  {
  }

  /** The text after `yes`, written with single spaces, yields both captures. */
  lemma AfterYesRecognised(m: YesHead, rest: string)
    requires WellFormed(m)
    requires rest == [] || !('0' <= rest[0] <= '9')
    ensures AfterYes(" \"" + m.repeated + "\" | head -n " + m.lines + rest) == Some(m)
  {
    var tail := " | head -n " + m.lines + rest;
    var u := m.repeated + "\"" + tail;
    var t := " " + "\"" + u;
    assert AfterYes(t) == Some(m) by {
      SpacedTokenRecognised("\"", u);
      QuotedRun(m.repeated, tail);
      AfterQuoteRecognised(m.lines, rest);
    }
    Regroup(m.repeated, m.lines, rest);
  }

  /** A well-formed `yes "X" | head -n N` command, followed by anything that
      does not extend the count, is recognised at its start with captures X
      and N. */
  lemma YesHeadRecognised(m: YesHead, rest: string)
    requires WellFormed(m)
    requires rest == [] || !('0' <= rest[0] <= '9')
    ensures YesHeadAt(YesHeadCommand(m) + rest, 0) == Some(m)
    ensures SearchYesHead(YesHeadCommand(m) + rest, 0) == Some(m)
  {
    var t := " \"" + m.repeated + "\" | head -n " + m.lines + rest;
    var s := YesHeadCommand(m) + rest;
    assert s == "yes" + t by {
      SplitYes(m, rest);
    }
    assert JsString.OccursAt(s, "yes", 0) && s[3..] == t by {
      assert ("yes" + t)[..3] == "yes" && ("yes" + t)[3..] == t;
    }
    assert YesHeadAt(s, 0) == Some(m) by {
      AfterYesRecognised(m, rest);
    }
  }

  /** The command split after its leading `yes`. */
  lemma SplitYes(m: YesHead, rest: string)
    ensures YesHeadCommand(m) + rest == "yes" + (" \"" + m.repeated + "\" | head -n " + m.lines + rest)
  {
  }

  /** A well-formed `yes "X" | head -n N` command that no earlier rule catches
      becomes the CMD loop printing X N times. */
  lemma YesHeadBecomesLoop(m: YesHead)
    requires WellFormed(m)
    requires FirstFiring(YesHeadCommand(m), 0).None?
    ensures ToCmdCommand(YesHeadCommand(m)) == ForLoop(m)
  {
    var s := YesHeadCommand(m);
    assert s + [] == s;
    YesHeadRecognised(m, []);
    MentionsHead(m);
    RewriteFollowsTable(s);
  }

  /** The recognised command passes the `head` test that guards the pattern. */
  lemma MentionsHead(m: YesHead)
    ensures JsString.Contains(YesHeadCommand(m), "head")
  {
    var s := YesHeadCommand(m);
    var n := |m.repeated|;
    assert s == ("yes \"" + m.repeated + "\" | ") + ("head" + " -n " + m.lines);
    assert s[9 + n..13 + n] == "head";
    assert JsString.OccursAt(s, "head", 9 + n);
  }

  // ---------------------------------------------------------------------------
  // The stream

  /** The line run, the chunks streamed and the exit code reported for one
      execution of `command`. */
  datatype CmdRun = CmdRun(line: string, chunks: seq<string>, exitCode: int)

  function CreateCmdCommandStream(command: string, execution: Execution): (r: CmdRun)
    ensures 2 <= |r.chunks| && r.chunks[0] == CommandStart && r.chunks[|r.chunks| - 1] == CommandEnd
    ensures |r.chunks| == 3 <==> RealOutput(execution) != []
    ensures r.exitCode == 0 <==> execution.Completed?
  {
    ZeroExitMeansCompleted(execution);
    var output := RealOutput(execution);
    CmdRun("cmd.exe /c " + ToCmdCommand(command), Chunks(output, output), ExitCode(execution))
  }

  /** CMD runs the rewritten command; read as one text, the stream is the
      output exactly as captured between the two markers; the exit code is 0
      exactly when the command completed. */
  lemma CmdStreamText(command: string, execution: Execution)
    ensures var r := CreateCmdCommandStream(command, execution);
      r.line == "cmd.exe /c " + ToCmdCommand(command) &&
      Joined(r.chunks) == CommandStart + RealOutput(execution) + CommandEnd &&
      (r.exitCode == 0 <==> execution.Completed?)
  {
    ChunksJoin(RealOutput(execution), RealOutput(execution));
    ZeroExitMeansCompleted(execution);
  }
}
