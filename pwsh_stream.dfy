/** The PowerShell test stream: the command is wrapped in single quotes for a
    POSIX shell, which hands it to `pwsh`; the captured output has its CRLF
    line endings normalised before it is streamed. */
module PwshStream {
  import opened CommandStream

  // ---------------------------------------------------------------------------
  // Quoting the command

  /** `'\''`: close the quoted string, an escaped quote, reopen the string. */
  const EscapedQuote: string := "'\\''"

  /** Every single quote replaced by `'\''`; every other character kept. */
  function EscapeSingleQuotes(command: string): (r: string)
    ensures |r| >= |command|
    ensures (forall i :: 0 <= i < |command| ==> command[i] != '\'') ==> r == command
  {
    if command == [] then []
    else if command[0] == '\'' then EscapedQuote + EscapeSingleQuotes(command[1..])
    else [command[0]] + EscapeSingleQuotes(command[1..])
  }

  const PwshPrefix: string := "pwsh -NoProfile -NonInteractive -Command "

  /** The line handed to the shell: `pwsh` with the escaped command as one
      single-quoted argument. */
  function ShellLine(command: string): (r: string)
    ensures |r| == |PwshPrefix| + |EscapeSingleQuotes(command)| + 2
    ensures r[..|PwshPrefix|] == PwshPrefix && r[|PwshPrefix|] == '\'' && r[|r| - 1] == '\''
  {
    PwshPrefix + "'" + EscapeSingleQuotes(command) + "'"
  }

  /** Quote removal as a POSIX shell performs it on one word: outside quotes
      a backslash keeps the next character literally and a single quote opens
      a quoted run; inside, every character is literal up to the closing quote. */
  function Unquote(word: string, quoted: bool): string
    decreases |word|
  {
    if word == [] then []
    else if quoted then
      if word[0] == '\'' then Unquote(word[1..], false) else [word[0]] + Unquote(word[1..], true)
    else if word[0] == '\'' then Unquote(word[1..], true)
    else if word[0] == '\\' && |word| >= 2 then [word[1]] + Unquote(word[2..], false)
    else [word[0]] + Unquote(word[1..], false)
  }

  /** Concatenation regrouped. */
  lemma Associative(x: string, y: string, z: string)
    ensures x + (y + z) == (x + y) + z
  {
  }

  /** Outside quotes, a single quote opens a quoted run. */
  lemma UnquoteOpen(rest: string)
    ensures Unquote("'" + rest, false) == Unquote(rest, true)
  {
    assert ("'" + rest)[1..] == rest;
  }

  /** Inside quotes, a single quote closes the quoted run. */
  lemma UnquoteClose(rest: string)
    ensures Unquote("'" + rest, true) == Unquote(rest, false)
  {
    assert ("'" + rest)[1..] == rest;
  }

  /** Outside quotes, a backslash keeps the next character literally. */
  lemma UnquoteBackslash(c: char, rest: string)
    ensures Unquote(['\\', c] + rest, false) == [c] + Unquote(rest, false)
  {
    assert (['\\', c] + rest)[2..] == rest;
  }

  /** Inside quotes, any character but a single quote is literal. */
  lemma UnquoteLiteral(c: char, rest: string)
    requires c != '\''
    ensures Unquote([c] + rest, true) == [c] + Unquote(rest, true)
  {
    assert ([c] + rest)[1..] == rest;
  }

  lemma EscapedQuoteSplit(rest: string)
    ensures EscapedQuote + rest == "'" + (['\\', '\''] + ("'" + rest))
  {
  }

  lemma {:induction false} UnquoteEscaped(command: string)
    ensures Unquote(EscapeSingleQuotes(command) + "'", true) == command
    decreases |command|
  {
    if command == [] {
      assert EscapeSingleQuotes(command) + "'" == "'" + [];
      UnquoteClose([]);
    } else {
      var c0, c1 := command[0], command[1..];
      var rest := EscapeSingleQuotes(c1) + "'";
      assert [c0] + c1 == command;
      if c0 == '\'' {
        calc {
          Unquote(EscapeSingleQuotes(command) + "'", true);
        == { Associative(EscapedQuote, EscapeSingleQuotes(c1), "'"); }
          Unquote(EscapedQuote + rest, true);
        == { EscapedQuoteSplit(rest); UnquoteClose(['\\', '\''] + ("'" + rest)); }
          Unquote(['\\', '\''] + ("'" + rest), false);
        == { UnquoteBackslash('\'', "'" + rest); }
          "'" + Unquote("'" + rest, false);
        == { UnquoteOpen(rest); }
          "'" + Unquote(rest, true);
        == { UnquoteEscaped(c1); }
          [c0] + c1;
        }
      } else {
        calc {
          Unquote(EscapeSingleQuotes(command) + "'", true);
        == { Associative([c0], EscapeSingleQuotes(c1), "'"); }
          Unquote([c0] + rest, true);
        == { UnquoteLiteral(c0, rest); }
          [c0] + Unquote(rest, true);
        == { UnquoteEscaped(c1); }
          [c0] + c1;
        }
      }
    }
  }

  /** The shell reads the quoted argument back as exactly the original
      command, whatever quotes it contains. */
  lemma ShellLineQuotesCommand(command: string)
    ensures ShellLine(command) == PwshPrefix + ("'" + EscapeSingleQuotes(command) + "'")
    ensures Unquote("'" + EscapeSingleQuotes(command) + "'", false) == command
  {
    var e := EscapeSingleQuotes(command);
    assert ShellLine(command) == PwshPrefix + ("'" + e + "'") by {
      Associative(PwshPrefix + "'", e, "'");
      Associative(PwshPrefix, "'", e + "'");
      Associative("'", e, "'");
    }
    calc {
      Unquote("'" + e + "'", false);
    == { Associative("'", e, "'"); }
      Unquote("'" + (e + "'"), false);
    == { UnquoteOpen(e + "'"); }
      Unquote(e + "'", true);
    == { UnquoteEscaped(command); }
      command;
    }
  }

  // ---------------------------------------------------------------------------
  // Normalising line endings

  /** Every `\r\n` replaced by `\n`, scanning left to right. */
  function NormalizeCrlf(s: string): (r: string)
    ensures |r| <= |s|
    ensures r == [] <==> s == []
  {
    if s == [] then []
    else if |s| >= 2 && s[0] == '\r' && s[1] == '\n' then "\n" + NormalizeCrlf(s[2..])
    else [s[0]] + NormalizeCrlf(s[1..])
  }

  /** The text with its carriage returns removed. */
  function WithoutCr(s: string): (r: string)
    ensures forall i :: 0 <= i < |r| ==> r[i] != '\r'
  {
    if s == [] then []
    else if s[0] == '\r' then WithoutCr(s[1..])
    else [s[0]] + WithoutCr(s[1..])
  }

  /** Number of `\r\n` pairs in the text. */
  function CrlfCount(s: string): nat {
    if |s| < 2 then 0
    else if s[0] == '\r' && s[1] == '\n' then 1 + CrlfCount(s[2..])
    else CrlfCount(s[1..])
  }

  /** Normalising only deletes carriage returns, one per `\r\n` pair; every
      other character, every line feed included, survives in order. */
  lemma {:induction false} NormalizeOnlyDropsCarriageReturns(s: string)
    ensures WithoutCr(NormalizeCrlf(s)) == WithoutCr(s)
    ensures |NormalizeCrlf(s)| == |s| - CrlfCount(s)
    decreases |s|
  {
    if s == [] {
    } else if |s| >= 2 && s[0] == '\r' && s[1] == '\n' {
      NormalizeOnlyDropsCarriageReturns(s[2..]);
      var t := NormalizeCrlf(s[2..]);
      assert ("\n" + t)[1..] == t;
      assert s[1..][1..] == s[2..];
    } else {
      NormalizeOnlyDropsCarriageReturns(s[1..]);
      assert ([s[0]] + NormalizeCrlf(s[1..]))[1..] == NormalizeCrlf(s[1..]);
      if |s| >= 2 {
        assert CrlfCount(s) == CrlfCount(s[1..]);
      }
    }
  }

  /** Output without carriage returns is streamed unchanged. */
  lemma {:induction false} NormalizeWithoutCarriageReturn(s: string)
    requires forall i :: 0 <= i < |s| ==> s[i] != '\r'
    ensures NormalizeCrlf(s) == s
    decreases |s|
  {
    if s != [] {
      assert forall i :: 0 <= i < |s[1..]| ==> s[1..][i] != '\r' by {
        forall i | 0 <= i < |s[1..]| ensures s[1..][i] != '\r' {
          assert s[1..][i] == s[i + 1];
        }
      }
      NormalizeWithoutCarriageReturn(s[1..]);
      assert [s[0]] + s[1..] == s;
    }
  }

  /** A leading `\r\n` pair becomes `\n`. */
  lemma NormalizePair(s: string)
    ensures NormalizeCrlf("\r\n" + s) == "\n" + NormalizeCrlf(s)
  {
    assert ("\r\n" + s)[2..] == s;
  }

  /** A leading character that does not start a `\r\n` pair is kept. */
  lemma NormalizeCons(c: char, s: string)
    requires c != '\r' || s == [] || s[0] != '\n'
    ensures NormalizeCrlf([c] + s) == [c] + NormalizeCrlf(s)
  {
    assert ([c] + s)[1..] == s;
  }

  /** Normalising works piece by piece as long as a piece does not end in the
      middle of a `\r\n` pair. */
  lemma {:induction false} NormalizeConcat(a: string, b: string)
    requires a == [] || a[|a| - 1] != '\r'
    ensures NormalizeCrlf(a + b) == NormalizeCrlf(a) + NormalizeCrlf(b)
    decreases |a|
  {
    if a == [] {
      assert a + b == b;
    } else if |a| >= 2 && a[0] == '\r' && a[1] == '\n' {
      var a2 := a[2..];
      assert a == "\r\n" + a2;
      assert a + b == "\r\n" + (a2 + b);
      calc {
        NormalizeCrlf(a + b);
      == { NormalizePair(a2 + b); }
        "\n" + NormalizeCrlf(a2 + b);
      == { NormalizeConcat(a2, b); }
        "\n" + (NormalizeCrlf(a2) + NormalizeCrlf(b));
      == { Associative("\n", NormalizeCrlf(a2), NormalizeCrlf(b)); }
        ("\n" + NormalizeCrlf(a2)) + NormalizeCrlf(b);
      == { NormalizePair(a2); }
        NormalizeCrlf(a) + NormalizeCrlf(b);
      }
    } else {
      var a1 := a[1..];
      assert a == [a[0]] + a1;
      assert a + b == [a[0]] + (a1 + b);
      assert a[0] != '\r' || (a1 != [] && a1[0] != '\n' && (a1 + b)[0] == a1[0]);
      calc {
        NormalizeCrlf(a + b);
      == { NormalizeCons(a[0], a1 + b); }
        [a[0]] + NormalizeCrlf(a1 + b);
      == { NormalizeConcat(a1, b); }
        [a[0]] + (NormalizeCrlf(a1) + NormalizeCrlf(b));
      == { Associative([a[0]], NormalizeCrlf(a1), NormalizeCrlf(b)); }
        ([a[0]] + NormalizeCrlf(a1)) + NormalizeCrlf(b);
      == { NormalizeCons(a[0], a1); }
        NormalizeCrlf(a) + NormalizeCrlf(b);
      }
    }
  }

  /** A single replacement pass leaves a pair that it itself formed: the result
      of normalising `\r\r\n` is again `\r\n`. */
  lemma NormalizeIsSinglePass()
    ensures NormalizeCrlf("\r\r\n") == "\r\n"
  {
    assert NormalizeCrlf("\n") == "\n";
  }

  // ---------------------------------------------------------------------------
  // The stream

  /** The line run, the chunks streamed and the exit code reported for one
      execution of `command`. */
  datatype PwshRun = PwshRun(line: string, chunks: seq<string>, exitCode: int)

  function CreatePowerShellStream(command: string, execution: Execution): (r: PwshRun)
    ensures 2 <= |r.chunks| && r.chunks[0] == CommandStart && r.chunks[|r.chunks| - 1] == CommandEnd
    ensures |r.chunks| == 3 <==> RealOutput(execution) != []
    ensures |r.chunks| == 3 ==> r.chunks[1] == NormalizeCrlf(RealOutput(execution))
    ensures r.exitCode == 0 <==> execution.Completed?
  {
    ZeroExitMeansCompleted(execution);
    var output := RealOutput(execution);
    PwshRun(ShellLine(command), Chunks(output, NormalizeCrlf(output)), ExitCode(execution))
  }

  /** The shell runs `pwsh` with exactly the command as its argument; read as
      one text, the stream is the normalised output between the two markers;
      the exit code is 0 exactly when the command completed. */
  lemma PowerShellStreamText(command: string, execution: Execution)
    ensures var r := CreatePowerShellStream(command, execution);
      r.line[..|PwshPrefix|] == PwshPrefix &&
      Unquote(r.line[|PwshPrefix|..], false) == command &&
      Joined(r.chunks) == CommandStart + NormalizeCrlf(RealOutput(execution)) + CommandEnd &&
      (r.exitCode == 0 <==> execution.Completed?)
  {
    ShellLineQuotesCommand(command);
    var line := ShellLine(command);
    assert line[|PwshPrefix|..] == "'" + EscapeSingleQuotes(command) + "'";
    ChunksJoin(RealOutput(execution), NormalizeCrlf(RealOutput(execution)));
    ZeroExitMeansCompleted(execution);
  }
}
