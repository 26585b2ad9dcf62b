/** What the streaming parser guarantees: the shape of its variables between
    characters, the stability of completed blocks while a reply streams in,
    the opacity of fenced code, and how parameters, log entries and leading
    tags end up in the parsed blocks. */
module AssistantMessageProperties {
  import opened JsString
  import opened LogEntrySchema
  import opened AssistantMessage

  // ---------------------------------------------------------------------------
  // The parser's invariant

  /** Between two characters at most one block is open, an open block is still
      partial, a parameter is only pending inside a tool use, and every block
      already emitted is complete. */
  predicate Consistent(st: ParserState) {
    && (st.currentTextContent.Some? ==>
          st.currentToolUse.None? && st.currentLogEntry.None? && st.currentTextContent.value.partial)
    && (st.currentToolUse.Some? ==> st.currentLogEntry.None? && st.currentToolUse.value.partial)
    && (st.currentLogEntry.Some? ==> st.currentLogEntry.value.partial)
    && (st.currentParamName.Some? ==> st.currentToolUse.Some?)
    && (forall k :: 0 <= k < |st.contentBlocks| ==> !IsPartial(st.contentBlocks[k]))
  }

  /** One character keeps the invariant and appends at most one block. */
  lemma StepKeepsConsistent(vocabulary: Vocabulary, st: ParserState, c: char)
    requires Consistent(st)
    ensures Consistent(Step(vocabulary, st, c))
    ensures st.contentBlocks <= Step(vocabulary, st, c).contentBlocks
    ensures |Step(vocabulary, st, c).contentBlocks| <= |st.contentBlocks| + 1
  {
    var acc := st.accumulator + [c];
    if EndsWith(acc, CodeFence) || st.insideCodeBlock {
    } else if st.currentToolUse.Some? && st.currentParamName.Some? {
    } else if st.currentToolUse.Some? {
      var r := ProcessToolUse(vocabulary, st.currentToolUse.value, st.currentToolUseStartIndex, acc);
      assert !IsPartial(Tool(st.currentToolUse.value.(partial := false)));
    } else if st.currentLogEntry.Some? {
    } else if DetectLogEntryStart(acc, st.currentTextContent).Some? {
    } else if DetectToolUseStart(vocabulary, acc, st.currentTextContent).Some? {
    } else {
    }
  }

  /** The invariant holds after every prefix of a reply, from the initial state on. */
  lemma {:induction false} RunKeepsConsistent(vocabulary: Vocabulary, st: ParserState, w: string)
    requires Consistent(st)
    ensures Consistent(RunFrom(vocabulary, st, w))
    decreases |w|
  {
    if w != [] {
      RunKeepsConsistent(vocabulary, st, w[..|w| - 1]);
      StepKeepsConsistent(vocabulary, RunFrom(vocabulary, st, w[..|w| - 1]), w[|w| - 1]);
    }
  }

  /** At the end of any reply, at most one block is still open. */
  lemma AtMostOneOpenBlock(vocabulary: Vocabulary, message: string)
    ensures var st := Run(vocabulary, message);
      (if st.currentTextContent.Some? then 1 else 0) + (if st.currentToolUse.Some? then 1 else 0)
        + (if st.currentLogEntry.Some? then 1 else 0) <= 1
    ensures Run(vocabulary, message).currentParamName.Some? ==> Run(vocabulary, message).currentToolUse.Some?
  {
    RunKeepsConsistent(vocabulary, Initial, message);
  }

  /** In a parsed reply only the last block can be partial, and it is partial
      exactly when the reply ended inside a block. */
  lemma OnlyLastBlockPartial(vocabulary: Vocabulary, message: string)
    ensures var r := Parse(vocabulary, message);
      forall k :: 0 <= k < |r| ==>
        (IsPartial(r[k]) <==> k == |r| - 1 && HasOpenBlock(Run(vocabulary, message)))
  {
    RunKeepsConsistent(vocabulary, Initial, message);
    var st := Run(vocabulary, message);
    var r := Parse(vocabulary, message);
    forall k | 0 <= k < |st.contentBlocks|
      ensures r[k] == st.contentBlocks[k]
    {
      assert r[..|st.contentBlocks|][k] == r[k];
    }
  }

  // ---------------------------------------------------------------------------
  // Streaming

  /** Reading `u` and then `v` is reading `u + v`. */
  lemma {:induction false} RunFromAppend(vocabulary: Vocabulary, st: ParserState, u: string, v: string)
    ensures RunFrom(vocabulary, st, u + v) == RunFrom(vocabulary, RunFrom(vocabulary, st, u), v)
    decreases |v|
  {
    if v == [] {
      assert u + v == u;
    } else {
      RunFromAppend(vocabulary, st, u, v[..|v| - 1]);
      assert (u + v)[..|u + v| - 1] == u + v[..|v| - 1];
    }
  }

  /** Blocks are only ever appended: reading more never changes or removes one. */
  lemma {:induction false} BlocksOnlyAppended(vocabulary: Vocabulary, st: ParserState, w: string)
    ensures st.contentBlocks <= RunFrom(vocabulary, st, w).contentBlocks
    decreases |w|
  {
    if w != [] {
      BlocksOnlyAppended(vocabulary, st, w[..|w| - 1]);
      StepCases(vocabulary, RunFrom(vocabulary, st, w[..|w| - 1]), w[|w| - 1]);
    }
  }

  /** As a reply streams in and is parsed again, every block completed in an
      earlier prefix keeps its place and its value in the later parse. */
  lemma CompletedBlocksAreStable(vocabulary: Vocabulary, message: string, n: nat)
    requires n <= |message|
    ensures Run(vocabulary, message[..n]).contentBlocks <= Run(vocabulary, message).contentBlocks
    ensures var done := Run(vocabulary, message[..n]).contentBlocks;
      forall k :: 0 <= k < |done| ==>
        k < |Parse(vocabulary, message)| && Parse(vocabulary, message)[k] == Parse(vocabulary, message[..n])[k]
  {
    assert message == message[..n] + message[n..];
    RunFromAppend(vocabulary, Initial, message[..n], message[n..]);
    BlocksOnlyAppended(vocabulary, Run(vocabulary, message[..n]), message[n..]);
    var done := Run(vocabulary, message[..n]).contentBlocks;
    var all := Run(vocabulary, message).contentBlocks;
    var p := Parse(vocabulary, message[..n]);
    var q := Parse(vocabulary, message);
    forall k | 0 <= k < |done|
      ensures k < |q| && q[k] == p[k]
    {
      assert p[..|done|][k] == p[k];
      assert q[..|all|][k] == q[k];
    }
  }

  // ---------------------------------------------------------------------------
  // Character-level facts used below

  lemma FenceEndsWithBacktick(s: string)
    ensures EndsWith(s, CodeFence) ==> s[|s| - 1] == '`'
  {
  }

  lemma OpenTagEndsWithAngle(s: string, name: string)
    ensures EndsWith(s, OpenTag(name)) ==> s[|s| - 1] == '>'
  {
    if EndsWith(s, OpenTag(name)) {
      assert s[|s| - |OpenTag(name)|..][|OpenTag(name)| - 1] == s[|s| - 1];
    }
  }

  /** A shorter opening tag ending `<name>` starts at a `<` inside `name`. */
  lemma OpenTagSuffixStart(name: string, other: string)
    requires EndsWith(OpenTag(name), OpenTag(other)) && |other| < |name|
    ensures name[|name| - |other| - 1] == '<'
  {
    var s := OpenTag(name);
    var t := OpenTag(other);
    assert s[|s| - |t|..][0] == t[0];
  }

  /** An opening tag that ends `<name>`, where `name` has no `<`, is `<name>` itself. */
  lemma OpenTagSuffixIsWhole(name: string, other: string)
    requires forall k :: 0 <= k < |name| ==> name[k] != '<'
    requires EndsWith(OpenTag(name), OpenTag(other))
    ensures |OpenTag(other)| == |OpenTag(name)|
  {
    if |other| < |name| {
      OpenTagSuffixStart(name, other);
    }
  }

  /** A character that is not `>` closes no opening tag. */
  lemma NoTagOpens(vocabulary: Vocabulary, accumulator: string, text: Option<TextContent>)
    requires |accumulator| > 0 && accumulator[|accumulator| - 1] != '>'
    ensures DetectLogEntryStart(accumulator, text).None?
    ensures DetectToolUseStart(vocabulary, accumulator, text).None?
  {
    OpenTagEndsWithAngle(accumulator, LogEntryTagName);
    forall k | 0 <= k < |vocabulary.toolNames|
      ensures !EndsWith(accumulator, OpenTag(vocabulary.toolNames[k]))
    {
      OpenTagEndsWithAngle(accumulator, vocabulary.toolNames[k]);
    }
  }

  // ---------------------------------------------------------------------------
  // Growing a word by its last character

  /** The state after `w` is one step from the state after all of `w` but its last character. */
  lemma RunFromLast(vocabulary: Vocabulary, st: ParserState, w: string, before: ParserState)
    requires w != [] && RunFrom(vocabulary, st, w[..|w| - 1]) == before
    ensures RunFrom(vocabulary, st, w) == Step(vocabulary, before, w[|w| - 1])
  {
  }

  lemma AppendLast(acc: string, w: string)
    requires w != []
    ensures (acc + w[..|w| - 1]) + [w[|w| - 1]] == acc + w
  {
    assert w[..|w| - 1] + [w[|w| - 1]] == w;
  }

  /** When no nonempty prefix of `w`, appended to `acc`, ends with `tag`, neither
      does one of `w` less its last character, and neither does all of `w`. */
  lemma AppendedPrefixesAvoid(acc: string, w: string, shorter: string, tag: string)
    requires w != [] && shorter == w[..|w| - 1]
    requires forall k :: 0 < k <= |w| ==> !EndsWith(acc + w[..k], tag)
    ensures forall k :: 0 < k <= |shorter| ==> !EndsWith(acc + shorter[..k], tag)
    ensures !EndsWith(acc + w, tag)
  {
    forall k | 0 < k <= |shorter|
      ensures !EndsWith(acc + shorter[..k], tag)
    {
      assert shorter[..k] == w[..k];
    }
    assert w[..|w|] == w;
  }

  /** When no nonempty prefix of `w` ends with `tag`, neither does one of `w`
      less its last character, and neither does all of `w`. */
  lemma PrefixesAvoid(w: string, shorter: string, tag: string)
    requires w != [] && shorter == w[..|w| - 1]
    requires forall k :: 0 < k <= |w| ==> !EndsWith(w[..k], tag)
    ensures forall k :: 0 < k <= |shorter| ==> !EndsWith(shorter[..k], tag)
    ensures !EndsWith(w, tag)
  {
    forall k | 0 < k <= |shorter|
      ensures !EndsWith(shorter[..k], tag)
    {
      assert shorter[..k] == w[..k];
    }
    assert w[..|w|] == w;
  }

  /** The same for the proper prefixes of a word that does end with `tag`. */
  lemma ProperPrefixesAvoid(w: string, shorter: string, tag: string)
    requires w != [] && shorter == w[..|w| - 1]
    requires forall k :: 0 < k < |w| ==> !EndsWith(w[..k], tag)
    ensures forall k :: 0 < k <= |shorter| ==> !EndsWith(shorter[..k], tag)
  {
    forall k | 0 < k <= |shorter|
      ensures !EndsWith(shorter[..k], tag)
    {
      assert shorter[..k] == w[..k];
    }
  }

  /** After a text ending with `>`, a word holding no fence never leaves the
      accumulator ending with one. */
  lemma NoFenceAfterTag(acc: string, w: string)
    requires |acc| > 0 && acc[|acc| - 1] == '>'
    requires !Contains(w, CodeFence)
    ensures forall k :: 0 < k <= |w| ==> !EndsWith(acc + w[..k], CodeFence)
  {
    forall k | 0 < k <= |w|
      ensures !EndsWith(acc + w[..k], CodeFence)
    {
      var s := acc + w[..k];
      if EndsWith(s, CodeFence) {
        if k >= |CodeFence| {
          assert w[k - |CodeFence|..k] == s[|s| - |CodeFence|..];
          assert OccursAt(w, CodeFence, k - |CodeFence|);
        } else {
          EndsWithChar(s, CodeFence, |CodeFence| - 1 - k);
        }
      }
    }
  }

  // ---------------------------------------------------------------------------
  // One character, branch by branch

  /** Inside a code block, a character that does not complete a fence is only accumulated. */
  lemma CodeCharStep(vocabulary: Vocabulary, st: ParserState, c: char)
    requires st.insideCodeBlock && !EndsWith(st.accumulator + [c], CodeFence)
    ensures Step(vocabulary, st, c) == st.(accumulator := st.accumulator + [c])
  {
  }

  /** Inside a parameter, a character that does not complete a fence either
      completes the parameter or is only accumulated. */
  lemma ParamCharStep(vocabulary: Vocabulary, st: ParserState, c: char)
    requires !st.insideCodeBlock && st.currentToolUse.Some? && st.currentParamName.Some?
    requires !EndsWith(st.accumulator + [c], CodeFence)
    ensures var acc := st.accumulator + [c];
      var r := ParseToolParam(st.currentToolUse.value, st.currentParamName.value, st.currentParamValueStartIndex, acc);
      Step(vocabulary, st, c) ==
        st.(accumulator := acc, currentToolUse := Some(r.toolUse),
            currentParamName := if r.completed then None else st.currentParamName)
  {
  }

  /** Inside a log entry, a character that does not complete a fence either
      completes the entry or is only accumulated. */
  lemma LogCharStep(vocabulary: Vocabulary, st: ParserState, c: char)
    requires !st.insideCodeBlock && st.currentToolUse.None? && st.currentLogEntry.Some?
    requires !EndsWith(st.accumulator + [c], CodeFence)
    ensures var acc := st.accumulator + [c];
      var r := ProcessLogEntry(st.currentLogEntry.value, st.currentLogEntryStartIndex, acc);
      Step(vocabulary, st, c) ==
        if r.completed then
          st.(accumulator := acc, contentBlocks := st.contentBlocks + [Log(r.logEntry)], currentLogEntry := None)
        else
          st.(accumulator := acc, currentLogEntry := Some(r.logEntry))
  {
  }

  /** Outside code, tools and log entries, a character other than `>` and the
      backtick extends the pending text, or starts one where it was read. */
  lemma TextCharStep(vocabulary: Vocabulary, st: ParserState, c: char)
    requires !st.insideCodeBlock && st.currentToolUse.None? && st.currentLogEntry.None? && c != '`' && c != '>'
    ensures var acc := st.accumulator + [c];
      var start := if st.currentTextContent.None? then |st.accumulator| else st.currentTextContentStartIndex;
      Step(vocabulary, st, c) ==
        st.(accumulator := acc, currentTextContentStartIndex := start,
            currentTextContent := Some(CreateTextContent(start, acc)))
  {
    FenceEndsWithBacktick(st.accumulator + [c]);
    NoTagOpens(vocabulary, st.accumulator + [c], st.currentTextContent);
  }

  /** `<log_entry>` read outside code, tools and log entries opens an empty
      partial log entry and closes the pending text, less the tag's first
      characters. */
  lemma LogEntryTagStep(vocabulary: Vocabulary, st: ParserState, c: char)
    requires !st.insideCodeBlock && st.currentToolUse.None? && st.currentLogEntry.None? && c != '`'
    requires EndsWith(st.accumulator + [c], OpenTag(LogEntryTagName))
    ensures var acc := st.accumulator + [c];
      Step(vocabulary, st, c) ==
        st.(accumulator := acc, currentLogEntry := Some(LogDirective("", Info, true)),
            currentLogEntryStartIndex := |acc|, currentTextContent := None,
            contentBlocks := st.contentBlocks + TextBlocks(CloseText(st.currentTextContent, OpenTag(LogEntryTagName))))
  {
    FenceEndsWithBacktick(st.accumulator + [c]);
  }

  /** An opening tool tag read outside code, tools and log entries (and not
      ending `<log_entry>`) opens the first listed tool whose tag it ends, and
      closes the pending text, less the tag's first characters. */
  lemma ToolTagStep(vocabulary: Vocabulary, st: ParserState, c: char)
    requires !st.insideCodeBlock && st.currentToolUse.None? && st.currentLogEntry.None? && c != '`'
    requires !EndsWith(st.accumulator + [c], OpenTag(LogEntryTagName))
    requires DetectToolUseStart(vocabulary, st.accumulator + [c], st.currentTextContent).Some?
    ensures var acc := st.accumulator + [c];
      var opening := DetectToolUseStart(vocabulary, acc, st.currentTextContent).value;
      Step(vocabulary, st, c) ==
        st.(accumulator := acc, currentToolUse := Some(opening.toolUse), currentToolUseStartIndex := |acc|,
            currentTextContent := None,
            contentBlocks := st.contentBlocks + TextBlocks(CloseText(st.currentTextContent, OpenTag(opening.toolUse.name))))
  {
    FenceEndsWithBacktick(st.accumulator + [c]);
  }

  // ---------------------------------------------------------------------------
  // Fenced code

  /** Inside a code block, until the accumulator ends with a fence again, the
      parser only accumulates: no tag is recognised and no block changes. */
  lemma {:induction false} CodeBlockIsOpaque(vocabulary: Vocabulary, st: ParserState, w: string)
    requires st.insideCodeBlock
    requires forall k :: 0 < k <= |w| ==> !EndsWith(st.accumulator + w[..k], CodeFence)
    ensures RunFrom(vocabulary, st, w) == st.(accumulator := st.accumulator + w)
    decreases |w|
  {
    if w != [] {
      var w' := w[..|w| - 1];
      var c := w[|w| - 1];
      AppendedPrefixesAvoid(st.accumulator, w, w', CodeFence);
      CodeBlockIsOpaque(vocabulary, st, w');
      var before := st.(accumulator := st.accumulator + w');
      RunFromLast(vocabulary, st, w, before);
      AppendLast(st.accumulator, w);
      CodeCharStep(vocabulary, before, c);
    }
  }

  // ---------------------------------------------------------------------------
  // Text

  /** Outside code, tools and log entries, characters other than `>` and the
      backtick extend the pending text block, which starts where the first of
      them was read and holds the trimmed text since. */
  lemma {:induction false} TextAccumulates(vocabulary: Vocabulary, st: ParserState, w: string)
    requires !st.insideCodeBlock && st.currentToolUse.None? && st.currentLogEntry.None?
    requires w != []
    requires forall k :: 0 <= k < |w| ==> w[k] != '`' && w[k] != '>'
    ensures var start := if st.currentTextContent.None? then |st.accumulator| else st.currentTextContentStartIndex;
      RunFrom(vocabulary, st, w) ==
        st.(accumulator := st.accumulator + w, currentTextContentStartIndex := start,
            currentTextContent := Some(CreateTextContent(start, st.accumulator + w)))
    decreases |w|
  {
    var start := if st.currentTextContent.None? then |st.accumulator| else st.currentTextContentStartIndex;
    var w' := w[..|w| - 1];
    var c := w[|w| - 1];
    assert w' + [c] == w;
    var before := if w' == [] then st
                  else st.(accumulator := st.accumulator + w', currentTextContentStartIndex := start,
                           currentTextContent := Some(CreateTextContent(start, st.accumulator + w')));
    if w' != [] {
      TextAccumulates(vocabulary, st, w');
    }
    assert RunFrom(vocabulary, st, w') == before;
    var acc := before.accumulator + [c];
    assert acc == st.accumulator + w;
    TextCharStep(vocabulary, before, c);
  }

  /** Before its `>`, a leading opening tag is read as text. */
  lemma LeadingTagText(vocabulary: Vocabulary, name: string)
    requires forall k :: 0 <= k < |name| ==> name[k] != '<' && name[k] != '>' && name[k] != '`'
    ensures var u := OpenTag(name)[..|OpenTag(name)| - 1];
      Run(vocabulary, u) ==
        Initial.(accumulator := u, currentTextContentStartIndex := 0, currentTextContent := Some(CreateTextContent(0, u)))
  {
    var u := OpenTag(name)[..|OpenTag(name)| - 1];
    assert u == "<" + name;
    TextAccumulates(vocabulary, Initial, u);
  }

  /** Closing a text no longer than the tag less one character leaves it empty. */
  lemma ShortTextClosesEmpty(text: TextContent, tag: string)
    requires |tag| > 1 && |text.content| <= |tag| - 1
    ensures CloseText(Some(text), tag) == Some(TextContent("", false))
  {
  }

  /** Reading an opening tag `<name>` at the start of a reply closes the text
      read so far, which is the tag less its `>`, into an empty complete block. */
  lemma LeadingOpenTag(vocabulary: Vocabulary, name: string)
    requires name == LogEntryTagName || name in vocabulary.toolNames
    requires forall k :: 0 <= k < |name| ==> name[k] != '<' && name[k] != '>' && name[k] != '`'
    ensures Run(vocabulary, OpenTag(name)).contentBlocks == [Text(TextContent("", false))]
  {
    var tag := OpenTag(name);
    var u := tag[..|tag| - 1];
    LeadingTagText(vocabulary, name);
    var text := CreateTextContent(0, u);
    var before := Run(vocabulary, u);
    assert Run(vocabulary, tag) == Step(vocabulary, before, '>') by {
      assert u + ['>'] == tag;
    }
    if EndsWith(tag, OpenTag(LogEntryTagName)) {
      LogEntryTagClosesShortText(vocabulary, before, name);
    } else {
      ToolTagClosesShortText(vocabulary, before, name);
    }
  }

  /** The log-entry branch of `LeadingOpenTag`: the `>` of `<log_entry>` closes
      a pending text no longer than the tag less one character into an empty block. */
  lemma LogEntryTagClosesShortText(vocabulary: Vocabulary, st: ParserState, name: string)
    requires forall k :: 0 <= k < |name| ==> name[k] != '<'
    requires !st.insideCodeBlock && st.currentToolUse.None? && st.currentLogEntry.None?
    requires st.currentTextContent.Some? && |st.currentTextContent.value.content| <= |name| + 1
    requires st.accumulator + ['>'] == OpenTag(name)
    requires EndsWith(OpenTag(name), OpenTag(LogEntryTagName))
    ensures Step(vocabulary, st, '>').contentBlocks == st.contentBlocks + [Text(TextContent("", false))]
  {
    LogEntryTagStep(vocabulary, st, '>');
    OpenTagSuffixIsWhole(name, LogEntryTagName);
    ShortTextClosesEmpty(st.currentTextContent.value, OpenTag(LogEntryTagName));
  }

  /** The tool branch of `LeadingOpenTag`: the `>` of a tool's opening tag
      closes a pending text no longer than the tag less one character into an
      empty block. */
  lemma ToolTagClosesShortText(vocabulary: Vocabulary, st: ParserState, name: string)
    requires name in vocabulary.toolNames
    requires forall k :: 0 <= k < |name| ==> name[k] != '<'
    requires !st.insideCodeBlock && st.currentToolUse.None? && st.currentLogEntry.None?
    requires st.currentTextContent.Some? && |st.currentTextContent.value.content| <= |name| + 1
    requires st.accumulator + ['>'] == OpenTag(name)
    requires !EndsWith(OpenTag(name), OpenTag(LogEntryTagName))
    ensures Step(vocabulary, st, '>').contentBlocks == st.contentBlocks + [Text(TextContent("", false))]
  {
    var tag := OpenTag(name);
    var k :| 0 <= k < |vocabulary.toolNames| && vocabulary.toolNames[k] == name;
    assert EndsWith(tag, OpenTag(vocabulary.toolNames[k]));
    ToolTagStep(vocabulary, st, '>');
    var opening := DetectToolUseStart(vocabulary, tag, st.currentTextContent).value;
    OpenTagSuffixIsWhole(name, opening.toolUse.name);
    ShortTextClosesEmpty(st.currentTextContent.value, OpenTag(opening.toolUse.name));
  }

  /** A reply that opens with a tool tag or `<log_entry>` starts with an empty,
      complete text block: the tag's characters are cut from the text it closes. */
  lemma LeadingTagYieldsEmptyText(vocabulary: Vocabulary, name: string, rest: string)
    requires name == LogEntryTagName || name in vocabulary.toolNames
    requires forall k :: 0 <= k < |name| ==> name[k] != '<' && name[k] != '>' && name[k] != '`'
    ensures var r := Parse(vocabulary, OpenTag(name) + rest);
      |r| > 0 && r[0] == Text(TextContent("", false))
  {
    var tag := OpenTag(name);
    LeadingOpenTag(vocabulary, name);
    RunFromAppend(vocabulary, Initial, tag, rest);
    BlocksOnlyAppended(vocabulary, Run(vocabulary, tag), rest);
    var r := Parse(vocabulary, tag + rest);
    assert r[..|Run(vocabulary, tag + rest).contentBlocks|][0] == r[0];
  }

  // ---------------------------------------------------------------------------
  // Tool parameters

  /** While a parameter's closing tag has not appeared, only the accumulator grows. */
  lemma {:induction false} ParamPending(vocabulary: Vocabulary, st: ParserState, w: string)
    requires !st.insideCodeBlock && st.currentToolUse.Some? && st.currentParamName.Some?
    requires st.currentParamValueStartIndex == |st.accumulator|
    requires forall k :: 0 < k <= |w| ==> !EndsWith(st.accumulator + w[..k], CodeFence)
    requires forall k :: 0 < k <= |w| ==> !EndsWith(w[..k], CloseTag(st.currentParamName.value))
    ensures RunFrom(vocabulary, st, w) == st.(accumulator := st.accumulator + w)
    decreases |w|
  {
    if w != [] {
      var w' := w[..|w| - 1];
      var c := w[|w| - 1];
      PrefixesAvoid(w, w', CloseTag(st.currentParamName.value));
      AppendedPrefixesAvoid(st.accumulator, w, w', CodeFence);
      ParamPending(vocabulary, st, w');
      var before := st.(accumulator := st.accumulator + w');
      RunFromLast(vocabulary, st, w, before);
      AppendLast(st.accumulator, w);
      assert Slice(st.accumulator + w, st.currentParamValueStartIndex) == w;
      ParamCharStep(vocabulary, before, c);
    }
  }

  /** A parameter's value runs from just after its opening tag to the first
      occurrence of its closing tag, and is stored trimmed; the parameter is
      then no longer pending and nothing else changes. */
  lemma ParamValueEndsAtFirstClosingTag(vocabulary: Vocabulary, st: ParserState, w: string)
    requires !st.insideCodeBlock && st.currentToolUse.Some? && st.currentParamName.Some?
    requires st.currentParamValueStartIndex == |st.accumulator|
    requires forall k :: 0 < k <= |w| ==> !EndsWith(st.accumulator + w[..k], CodeFence)
    requires EndsWith(w, CloseTag(st.currentParamName.value))
    requires forall k :: 0 < k < |w| ==> !EndsWith(w[..k], CloseTag(st.currentParamName.value))
    ensures var p := st.currentParamName.value;
      var toolUse := st.currentToolUse.value;
      RunFrom(vocabulary, st, w) ==
        st.(accumulator := st.accumulator + w, currentParamName := None,
            currentToolUse := Some(toolUse.(params := toolUse.params[p := Trim(w[..|w| - |CloseTag(p)|])])))
  {
    var w' := w[..|w| - 1];
    var c := w[|w| - 1];
    ProperPrefixesAvoid(w, w', CloseTag(st.currentParamName.value));
    AppendedPrefixesAvoid(st.accumulator, w, w', CodeFence);
    ParamPending(vocabulary, st, w');
    var before := st.(accumulator := st.accumulator + w');
    RunFromLast(vocabulary, st, w, before);
    AppendLast(st.accumulator, w);
    assert Slice(st.accumulator + w, st.currentParamValueStartIndex) == w;
    ParamCharStep(vocabulary, before, c);
  }

  // ---------------------------------------------------------------------------
  // Log entries

  /** While `</log_entry>` has not appeared, only the accumulator grows. */
  lemma {:induction false} LogEntryPending(vocabulary: Vocabulary, st: ParserState, w: string)
    requires !st.insideCodeBlock && st.currentToolUse.None? && st.currentLogEntry.Some?
    requires st.currentLogEntryStartIndex == |st.accumulator|
    requires forall k :: 0 < k <= |w| ==> !EndsWith(st.accumulator + w[..k], CodeFence)
    requires forall k :: 0 < k <= |w| ==> !EndsWith(w[..k], CloseTag(LogEntryTagName))
    ensures RunFrom(vocabulary, st, w) == st.(accumulator := st.accumulator + w)
    decreases |w|
  {
    if w != [] {
      var w' := w[..|w| - 1];
      var c := w[|w| - 1];
      PrefixesAvoid(w, w', CloseTag(LogEntryTagName));
      AppendedPrefixesAvoid(st.accumulator, w, w', CodeFence);
      LogEntryPending(vocabulary, st, w');
      var before := st.(accumulator := st.accumulator + w');
      RunFromLast(vocabulary, st, w, before);
      AppendLast(st.accumulator, w);
      assert Slice(st.accumulator + w, st.currentLogEntryStartIndex) == w;
      LogCharStep(vocabulary, before, c);
    }
  }

  /** A log entry ends at the first `</log_entry>` after its opening tag; it is
      emitted complete, with the first `<message>` value (or its old message) and
      the level named by the first `<level>` value (or its old level). */
  lemma LogEntryEndsAtFirstClosingTag(vocabulary: Vocabulary, st: ParserState, w: string)
    requires !st.insideCodeBlock && st.currentToolUse.None? && st.currentLogEntry.Some?
    requires st.currentLogEntryStartIndex == |st.accumulator|
    requires forall k :: 0 < k <= |w| ==> !EndsWith(st.accumulator + w[..k], CodeFence)
    requires EndsWith(w, CloseTag(LogEntryTagName))
    requires forall k :: 0 < k < |w| ==> !EndsWith(w[..k], CloseTag(LogEntryTagName))
    ensures var logEntry := st.currentLogEntry.value;
      var message := match TagValue(w, MessageTagName) case Some(m) => m case None => logEntry.message;
      var level := LevelOf(TagValue(w, LevelTagName), logEntry.level);
      RunFrom(vocabulary, st, w) ==
        st.(accumulator := st.accumulator + w, currentLogEntry := None,
            contentBlocks := st.contentBlocks + [Log(LogDirective(message, level, false))])
  {
    var w' := w[..|w| - 1];
    var c := w[|w| - 1];
    ProperPrefixesAvoid(w, w', CloseTag(LogEntryTagName));
    AppendedPrefixesAvoid(st.accumulator, w, w', CodeFence);
    LogEntryPending(vocabulary, st, w');
    var before := st.(accumulator := st.accumulator + w');
    RunFromLast(vocabulary, st, w, before);
    AppendLast(st.accumulator, w);
    assert Slice(st.accumulator + w, st.currentLogEntryStartIndex) == w;
    LogCharStep(vocabulary, before, c);
  }

  /** The parser's variables right after a reply's leading `<log_entry>`. */
  lemma LeadingLogEntryTag(vocabulary: Vocabulary)
    ensures Run(vocabulary, OpenTag(LogEntryTagName)) ==
      ParserState([Text(TextContent("", false))], None, 0, None, 0, Some(LogDirective("", Info, true)),
                  |OpenTag(LogEntryTagName)|, None, 0, OpenTag(LogEntryTagName), false)
  {
    var tag := OpenTag(LogEntryTagName);
    var u := tag[..|tag| - 1];
    TextAccumulates(vocabulary, Initial, u);
    var before := RunFrom(vocabulary, Initial, u);
    assert u + ['>'] == tag;
    assert EndsWith(tag, OpenTag(LogEntryTagName));
    LogEntryTagStep(vocabulary, before, '>');
  }

  /** A reply made of one log entry, `<log_entry>` followed by a text `w` that
      ends at its first `</log_entry>`, parses to an empty text block followed
      by the complete entry, its message and level read from the entry's tags. */
  lemma LogEntryReply(vocabulary: Vocabulary, w: string)
    requires !Contains(w, CodeFence)
    requires EndsWith(w, CloseTag(LogEntryTagName))
    requires forall k :: 0 < k < |w| ==> !EndsWith(w[..k], CloseTag(LogEntryTagName))
    ensures var message := match TagValue(w, MessageTagName) case Some(m) => m case None => "";
      Parse(vocabulary, OpenTag(LogEntryTagName) + w) ==
        [Text(TextContent("", false)), Log(LogDirective(message, LevelOf(TagValue(w, LevelTagName), Info), false))]
  {
    var tag := OpenTag(LogEntryTagName);
    LeadingLogEntryTag(vocabulary);
    RunFromAppend(vocabulary, Initial, tag, w);
    NoFenceAfterTag(tag, w);
    LogEntryEndsAtFirstClosingTag(vocabulary, Run(vocabulary, tag), w);
  }


  /** A reply cut off inside its only log entry parses to an empty text block
      followed by the partial entry, whose message and level are read from the
      text received so far by the source's end-anchored patterns. */
  lemma UnterminatedLogEntryReply(vocabulary: Vocabulary, body: string)
    requires !Contains(body, CodeFence)
    requires forall k :: 0 < k <= |body| ==> !EndsWith(body[..k], CloseTag(LogEntryTagName))
    ensures var message := match PartialTagValueAsWritten(body, MessageTagName) case Some(m) => m case None => "";
      Parse(vocabulary, OpenTag(LogEntryTagName) + body) ==
        [Text(TextContent("", false)),
         Log(LogDirective(message, LevelOf(PartialTagValueAsWritten(body, LevelTagName), Info), true))]
  {
    var tag := OpenTag(LogEntryTagName);
    LeadingLogEntryTag(vocabulary);
    RunFromAppend(vocabulary, Initial, tag, body);
    NoFenceAfterTag(tag, body);
    LogEntryPending(vocabulary, Run(vocabulary, tag), body);
    var st := Run(vocabulary, tag + body);
    assert Slice(st.accumulator, st.currentLogEntryStartIndex) == body;
  }

  // ---------------------------------------------------------------------------
  // Findings

  /** `</content></content>` holds no `<content>`, so the intended guard rejects it. */
  lemma NoContentOpenTag(accumulator: string)
    requires accumulator == CloseTag(ContentName) + CloseTag(ContentName)
    ensures !Contains(accumulator, OpenTag(ContentName))
    ensures JsIndexOf(accumulator, OpenTag(ContentName)) == -1
    ensures ContentBetween(accumulator).None?
  {
    forall k | 0 <= k <= |accumulator|
      ensures !OccursAt(accumulator, OpenTag(ContentName), k)
    {
      OccurrenceStart(accumulator, OpenTag(ContentName), k);
    }
  }

  /** In `</content></content>` the last `</content>` starts at 10. */
  lemma LastContentCloseTag(accumulator: string)
    requires accumulator == CloseTag(ContentName) + CloseTag(ContentName)
    ensures JsLastIndexOf(accumulator, CloseTag(ContentName)) == 10
    ensures EndsWith(accumulator, CloseTag(ContentName))
    ensures accumulator[8..10] == "t>" && Trim(accumulator[8..10]) == "t>"
  {
    assert accumulator[10..] == CloseTag(ContentName);
    assert OccursAt(accumulator, CloseTag(ContentName), 10);
  }

  /** As written, the write_to_file special case fires on a tool text with no
      `<content>` at all: the start index is -1 + 9, and the content becomes
      the two characters before the last `</content>`. */
  lemma WriteToFileGuardIsDead(toolUse: ToolUse, accumulator: string)
    requires toolUse == ToolUse(WriteToFileName, map[], true)
    requires accumulator == CloseTag(ContentName) + CloseTag(ContentName)
    ensures !Contains(accumulator, OpenTag(ContentName))
    ensures HandleWriteToFileContentAsWritten(toolUse, 0, accumulator).params == map[ContentName := "t>"]
  {
    NoContentOpenTag(accumulator);
    LastContentCloseTag(accumulator);
    assert Slice(accumulator, 0) == accumulator;
  }

  /** The intended special case leaves the same tool use alone. */
  lemma WriteToFileWithoutContentTagUnchanged(toolUse: ToolUse, accumulator: string)
    requires toolUse == ToolUse(WriteToFileName, map[], true)
    requires accumulator == CloseTag(ContentName) + CloseTag(ContentName)
    ensures HandleWriteToFileContent(toolUse, 0, accumulator) == toolUse
  {
    NoContentOpenTag(accumulator);
    assert Slice(accumulator, 0) == accumulator;
  }

  /** `</message>` has no `<` after its first character, so an occurrence of it
      cannot start inside `m` and end inside the closing tag that follows `m`. */
  lemma CloseTagHasOneAngle(d: int)
    requires 0 < d < |CloseTag(MessageTagName)|
    ensures CloseTag(MessageTagName)[d] != '<'
  {
    assert CloseTag(MessageTagName) == "</message>";
  }

  /** The first `</message>` after `<message>m` is the one right after `m` when
      `m` holds no `</message>` of its own. */
  lemma CloseAfterMessage(m: string, tail: string)
    requires !Contains(m, CloseTag(MessageTagName))
    ensures var s := OpenTag(MessageTagName) + m + CloseTag(MessageTagName) + tail;
      IndexOf(s, CloseTag(MessageTagName), |OpenTag(MessageTagName)|) == Some(|OpenTag(MessageTagName)| + |m|)
  {
    var open := OpenTag(MessageTagName);
    var close := CloseTag(MessageTagName);
    var s := open + m + close + tail;
    var e := |open| + |m|;
    assert s[e..e + |close|] == close;
    forall k | |open| <= k < e
      ensures !OccursAt(s, close, k)
    {
      if k + |close| <= e {
        assert s[k..k + |close|] == m[k - |open|..k - |open| + |close|];
        assert !OccursAt(m, close, k - |open|);
      } else {
        CloseTagHasOneAngle(e - k);
        assert s[e] == close[0];
      }
    }
    FirstOccurrence(s, close, |open|, e);
  }

  /** In `<message>m</message>` followed by anything, where `m` holds no `</message>`,
      the first message pair encloses `m`. */
  lemma MessageEnclosed(m: string, tail: string)
    requires !Contains(m, CloseTag(MessageTagName))
    ensures var s := OpenTag(MessageTagName) + m + CloseTag(MessageTagName) + tail;
      FirstEnclosed(s, OpenTag(MessageTagName), CloseTag(MessageTagName)) ==
        Some(Span(|OpenTag(MessageTagName)|, |OpenTag(MessageTagName)| + |m|))
  {
    var open := OpenTag(MessageTagName);
    var s := open + m + CloseTag(MessageTagName) + tail;
    assert s[..|open|] == open;
    FirstOccurrence(s, open, 0, 0);
    CloseAfterMessage(m, tail);
  }

  /** The completed value of `<message>m</message>` followed by anything is `m`,
      trimmed, when `m` holds no `</message>` of its own. */
  lemma MessageSpan(m: string, tail: string)
    requires !Contains(m, CloseTag(MessageTagName))
    ensures var s := OpenTag(MessageTagName) + m + CloseTag(MessageTagName) + tail;
      TagValue(s, MessageTagName) == Some(Trim(m))
  {
    var open := OpenTag(MessageTagName);
    var s := open + m + CloseTag(MessageTagName) + tail;
    MessageEnclosed(m, tail);
    assert s[|open|..|open| + |m|] == m;
  }

  /** As written, the partial message of an unterminated entry whose message is
      already closed and followed by more text keeps the closing tag and all
      that follows, e.g. `a</message><level>warn</level>` for the entry text
      `<message>a</message><level>warn</level>`. */
  lemma PartialMessageKeepsClosingTag(m: string, tail: string)
    requires |m| > 0 && !IsWhitespace(m[0]) && !IsWhitespace(m[|m| - 1])
    requires |tail| >= |CloseTag(MessageTagName)| && !EndsWith(tail, CloseTag(MessageTagName))
    requires !IsWhitespace(tail[|tail| - 1])
    ensures var s := OpenTag(MessageTagName) + m + CloseTag(MessageTagName) + tail;
      PartialTagValueAsWritten(s, MessageTagName) == Some(m + CloseTag(MessageTagName) + tail)
  {
    var open := OpenTag(MessageTagName);
    var close := CloseTag(MessageTagName);
    var s := open + m + close + tail;
    var rest := m + close + tail;
    assert s == open + rest;
    assert s[..|open|] == open;
    FirstOccurrence(s, open, 0, 0);
    assert s[|open|..] == rest;
    assert rest[|rest| - |close|..] == tail[|tail| - |close|..];
    assert rest[0] == m[0] && rest[|rest| - 1] == tail[|tail| - 1];
    TrimOfTrimmed(rest);
  }

  /** The intended partial message of the same entry is the closed message. */
  lemma PartialMessageStopsAtClosingTag(m: string, tail: string)
    requires |m| > 0 && !IsWhitespace(m[0]) && !IsWhitespace(m[|m| - 1])
    requires !Contains(m, CloseTag(MessageTagName))
    ensures var s := OpenTag(MessageTagName) + m + CloseTag(MessageTagName) + tail;
      PartialTagValue(s, MessageTagName) == Some(m)
  {
    MessageSpan(m, tail);
    TrimOfTrimmed(m);
  }

  /** Through the whole parser: a reply cut off in a log entry whose message is
      closed and followed by more text, such as `<log_entry><message>m</message><level>warn`,
      yields a partial entry whose message runs on past `</message>`. */
  lemma UnterminatedMessageRunsOn(vocabulary: Vocabulary, m: string, tail: string, body: string)
    requires |m| > 0 && !IsWhitespace(m[0]) && !IsWhitespace(m[|m| - 1])
    requires |tail| >= |CloseTag(MessageTagName)| && !EndsWith(tail, CloseTag(MessageTagName))
    requires !IsWhitespace(tail[|tail| - 1])
    requires body == OpenTag(MessageTagName) + m + CloseTag(MessageTagName) + tail
    requires !Contains(body, CodeFence)
    requires forall k :: 0 < k <= |body| ==> !EndsWith(body[..k], CloseTag(LogEntryTagName))
    ensures var r := Parse(vocabulary, OpenTag(LogEntryTagName) + body);
      |r| == 2 && r[1].Log? && r[1].logEntry.partial &&
      r[1].logEntry.message == m + CloseTag(MessageTagName) + tail
  {
    UnterminatedLogEntryReply(vocabulary, body);
    PartialMessageKeepsClosingTag(m, tail);
  }
}
