/** The streaming parser that turns an assistant's reply into an ordered list of
    content blocks: plain text, tool uses (`<tool><param>value</param></tool>`) and
    log entries (`<log_entry><message>..</message><level>..</level></log_entry>`).

    The reply is read one character at a time into an accumulator.  `Step` is the
    effect of one character on the parser's variables, `Run` folds it over a
    prefix of the reply, and `FinalizePartialContent` flushes the block that is
    still open at the end.  `ParseAssistantMessage` is the loop itself, proved to
    compute `Parse`. */
module AssistantMessage {
  import opened JsString
  import opened LogEntrySchema

  datatype TextContent = TextContent(content: string, partial: bool)

  datatype ToolUse = ToolUse(name: string, params: map<string, string>, partial: bool)

  datatype LogDirective = LogDirective(message: string, level: LogLevel, partial: bool)

  datatype AssistantMessageContent =
    | Text(text: TextContent)
    | Tool(toolUse: ToolUse)
    | Log(logEntry: LogDirective)

  predicate IsPartial(block: AssistantMessageContent) {
    match block
    case Text(t) => t.partial
    case Tool(u) => u.partial
    case Log(l) => l.partial
  }

  /** The tool names and tool parameter names the parser recognises, in the order
      in which their opening tags are tried. */
  datatype Vocabulary = Vocabulary(toolNames: seq<string>, toolParamNames: seq<string>)

  function OpenTag(name: string): string { "<" + name + ">" }

  function CloseTag(name: string): string { "</" + name + ">" }

  const LogEntryTagName := "log_entry"
  const MessageTagName := "message"
  const LevelTagName := "level"
  const CodeFence := "```"
  const WriteToFileName := "write_to_file"
  const ContentName := "content"

  // ---------------------------------------------------------------------------
  // Tag extraction inside a log entry

  /** Where the text between the first `open` and the first `close` after it lies:
      the lazy match `open(.*?)close` with `.` matching line breaks. */
  datatype Span = Span(start: nat, end: nat)

  function FirstEnclosed(s: string, open: string, close: string): (r: Option<Span>)
    ensures r.Some? ==> |open| <= r.value.start <= r.value.end <= |s|
    ensures r.Some? ==> OccursAt(s, open, r.value.start - |open|) && OccursAt(s, close, r.value.end)
    ensures r.Some? ==> forall k :: 0 <= k < r.value.start - |open| ==> !OccursAt(s, open, k)
    ensures r.Some? ==> forall k :: r.value.start <= k < r.value.end ==> !OccursAt(s, close, k)
    ensures r.None? <==>
      || IndexOf(s, open, 0).None?
      || IndexOf(s, close, IndexOf(s, open, 0).value + |open|).None?
  {
    match IndexOf(s, open, 0)
    case None => None
    case Some(p) =>
      match IndexOf(s, close, p + |open|)
      case None => None
      case Some(q) => Some(Span(p + |open|, q))
  }

  /** The trimmed text of the first `<name>..</name>` pair, if any. */
  function TagValue(s: string, name: string): (r: Option<string>)
    ensures r.Some? <==> FirstEnclosed(s, OpenTag(name), CloseTag(name)).Some?
    ensures r.Some? ==> (var sp := FirstEnclosed(s, OpenTag(name), CloseTag(name)).value;
                         r.value == Trim(s[sp.start..sp.end]))
  {
    match FirstEnclosed(s, OpenTag(name), CloseTag(name))
    case None => None
    case Some(sp) => Some(Trim(s[sp.start..sp.end]))
  }

  /** The level named by a tag value, when the trimmed value is one of the four levels. */
  function LevelOf(value: Option<string>, current: LogLevel): (r: LogLevel)
    ensures r != current ==> value.Some? && LevelFromName(value.value) == Some(r)
    ensures value.Some? && LevelFromName(value.value).Some? ==> LevelName(r) == value.value
  {
    match value
    case Some(v) => (match LevelFromName(v) case Some(l) => l case None => current)
    case None => current
  }

  // ---------------------------------------------------------------------------
  // Per-character helpers

  datatype ParamStep = ParamStep(completed: bool, toolUse: ToolUse)

  /** A parameter value accumulates until the text since its opening tag ends
      with the parameter's closing tag; it is then stored trimmed. */
  function ParseToolParam(toolUse: ToolUse, paramName: string, valueStart: nat, accumulator: string): (r: ParamStep)
    ensures r.completed <==> EndsWith(Slice(accumulator, valueStart), CloseTag(paramName))
    ensures r.toolUse.name == toolUse.name && r.toolUse.partial == toolUse.partial
    ensures !r.completed ==> r.toolUse == toolUse
    ensures r.completed ==>
      (var value := Slice(accumulator, valueStart);
       r.toolUse.params == toolUse.params[paramName := Trim(value[..|value| - |CloseTag(paramName)|])])
  {
    var value := Slice(accumulator, valueStart);
    var closing := CloseTag(paramName);
    if EndsWith(value, closing) then
      ParamStep(true, toolUse.(params := toolUse.params[paramName := Trim(DropLast(value, |closing|))]))
    else
      ParamStep(false, toolUse)
  }

  /** The `write_to_file` content special case as the source writes it: the start
      index is `indexOf(<content>) + 9`, so its `!== -1` test can never fail.
      With a `<content>` in the tool's text it does what `HandleWriteToFileContent`
      does; without one, the content is taken from index 8 (that is, -1 + 9). */
  function HandleWriteToFileContentAsWritten(toolUse: ToolUse, toolStart: nat, accumulator: string): (r: ToolUse)
    ensures r.name == toolUse.name && r.partial == toolUse.partial
    ensures r.params.Keys <= toolUse.params.Keys + {ContentName}
    ensures forall k :: k in toolUse.params && k != ContentName ==> k in r.params && r.params[k] == toolUse.params[k]
    ensures r != toolUse ==> toolUse.name == WriteToFileName && EndsWith(accumulator, CloseTag(ContentName))
    ensures Contains(Slice(accumulator, toolStart), OpenTag(ContentName)) ==>
      r == HandleWriteToFileContent(toolUse, toolStart, accumulator)
    ensures toolUse.name == WriteToFileName && EndsWith(accumulator, CloseTag(ContentName)) &&
            !Contains(Slice(accumulator, toolStart), OpenTag(ContentName)) ==>
      (var toolContent := Slice(accumulator, toolStart);
       var last := JsLastIndexOf(toolContent, CloseTag(ContentName));
       if last > |OpenTag(ContentName)| - 1
       then r.params == toolUse.params[ContentName := Trim(toolContent[|OpenTag(ContentName)| - 1..last])]
       else r == toolUse)
  {
    var openTag := OpenTag(ContentName);
    var closeTag := CloseTag(ContentName);
    if toolUse.name == WriteToFileName && EndsWith(accumulator, closeTag) then
      var toolContent := Slice(accumulator, toolStart);
      var contentStartIndex := JsIndexOf(toolContent, openTag) + |openTag|;
      var contentEndIndex := JsLastIndexOf(toolContent, closeTag);
      if contentStartIndex != -1 && contentEndIndex != -1 && contentEndIndex > contentStartIndex then
        toolUse.(params := toolUse.params[ContentName := Trim(toolContent[contentStartIndex..contentEndIndex])])
      else
        toolUse
    else
      toolUse
  }

  /** The text between the first `<content>` and the last `</content>` of a tool's
      text, when the first lies before the last. */
  function ContentBetween(toolContent: string): (r: Option<Span>)
    ensures r.Some? ==>
      && |OpenTag(ContentName)| <= r.value.start < r.value.end <= |toolContent|
      && OccursAt(toolContent, OpenTag(ContentName), r.value.start - |OpenTag(ContentName)|)
      && OccursAt(toolContent, CloseTag(ContentName), r.value.end)
    ensures r.Some? ==> forall k :: 0 <= k < r.value.start - |OpenTag(ContentName)| ==> !OccursAt(toolContent, OpenTag(ContentName), k)
    ensures r.Some? ==> forall k :: r.value.end < k ==> !OccursAt(toolContent, CloseTag(ContentName), k)
    ensures r.None? ==>
      || !Contains(toolContent, OpenTag(ContentName))
      || !Contains(toolContent, CloseTag(ContentName))
      || JsLastIndexOf(toolContent, CloseTag(ContentName)) <= JsIndexOf(toolContent, OpenTag(ContentName)) + |OpenTag(ContentName)|
  {
    var openIndex := JsIndexOf(toolContent, OpenTag(ContentName));
    var closeIndex := JsLastIndexOf(toolContent, CloseTag(ContentName));
    if openIndex != -1 && closeIndex != -1 && closeIndex > openIndex + |OpenTag(ContentName)| then
      Some(Span(openIndex + |OpenTag(ContentName)|, closeIndex))
    else
      None
  }

  /** The `write_to_file` content special case with the intended guard: once the
      accumulator ends with `</content>`, the content parameter becomes the trimmed
      text between the tool's first `<content>` and its last `</content>`, and is
      left alone when there is no `<content>`. */
  function HandleWriteToFileContent(toolUse: ToolUse, toolStart: nat, accumulator: string): (r: ToolUse)
    ensures r.name == toolUse.name && r.partial == toolUse.partial
    ensures r.params.Keys <= toolUse.params.Keys + {ContentName}
    ensures forall k :: k in toolUse.params && k != ContentName ==> k in r.params && r.params[k] == toolUse.params[k]
    ensures r != toolUse ==>
      && toolUse.name == WriteToFileName
      && EndsWith(accumulator, CloseTag(ContentName))
      && ContentBetween(Slice(accumulator, toolStart)).Some?
    ensures toolUse.name == WriteToFileName && EndsWith(accumulator, CloseTag(ContentName)) ==>
      match ContentBetween(Slice(accumulator, toolStart))
      case Some(sp) => r.params == toolUse.params[ContentName := Trim(Slice(accumulator, toolStart)[sp.start..sp.end])]
      case None => r == toolUse
  {
    if toolUse.name == WriteToFileName && EndsWith(accumulator, CloseTag(ContentName)) then
      var toolContent := Slice(accumulator, toolStart);
      match ContentBetween(toolContent)
      case Some(sp) => toolUse.(params := toolUse.params[ContentName := Trim(toolContent[sp.start..sp.end])])
      case None => toolUse
    else
      toolUse
  }

  /** The position in `names` of the first name whose opening tag ends `accumulator`. */
  function FirstOpenTag(names: seq<string>, accumulator: string, from: nat := 0): (r: Option<nat>)
    requires from <= |names|
    ensures r.Some? ==> from <= r.value < |names| && EndsWith(accumulator, OpenTag(names[r.value]))
    ensures r.Some? ==> forall k :: from <= k < r.value ==> !EndsWith(accumulator, OpenTag(names[k]))
    ensures r.None? <==> forall k :: from <= k < |names| ==> !EndsWith(accumulator, OpenTag(names[k]))
    decreases |names| - from
  {
    if from == |names| then None
    else if EndsWith(accumulator, OpenTag(names[from])) then Some(from)
    else FirstOpenTag(names, accumulator, from + 1)
  }

  datatype ToolStep = ToolStep(completed: bool, toolUse: ToolUse, newParamName: Option<string>, newParamStart: nat)

  /** One character inside a tool use but outside any parameter: the tool closes,
      or a parameter opens (first listed name wins), or the write_to_file content
      special case applies. */
  function ProcessToolUse(vocabulary: Vocabulary, toolUse: ToolUse, toolStart: nat, accumulator: string): (r: ToolStep)
    ensures r.completed <==> EndsWith(Slice(accumulator, toolStart), CloseTag(toolUse.name))
    ensures r.completed ==> r.toolUse == toolUse.(partial := false) && r.newParamName.None?
    ensures r.newParamName.Some? ==>
      && r.newParamName.value in vocabulary.toolParamNames
      && EndsWith(accumulator, OpenTag(r.newParamName.value))
      && r.newParamStart == |accumulator|
      && r.toolUse == toolUse
    ensures !r.completed && r.newParamName.None? ==>
      && (forall p :: p in vocabulary.toolParamNames ==> !EndsWith(accumulator, OpenTag(p)))
      && r.toolUse == HandleWriteToFileContentAsWritten(toolUse, toolStart, accumulator)
  {
    if EndsWith(Slice(accumulator, toolStart), CloseTag(toolUse.name)) then
      ToolStep(true, toolUse.(partial := false), None, 0)
    else
      match FirstOpenTag(vocabulary.toolParamNames, accumulator)
      case Some(k) => ToolStep(false, toolUse, Some(vocabulary.toolParamNames[k]), |accumulator|)
      case None => ToolStep(false, HandleWriteToFileContentAsWritten(toolUse, toolStart, accumulator), None, 0)
  }

  datatype LogStep = LogStep(completed: bool, logEntry: LogDirective)

  /** One character inside a log entry: when the entry's text ends with
      `</log_entry>` it is complete, its message is the first `<message>` value
      and its level the first `<level>` value when that names a level. */
  function ProcessLogEntry(logEntry: LogDirective, logStart: nat, accumulator: string): (r: LogStep)
    ensures r.completed <==> EndsWith(Slice(accumulator, logStart), CloseTag(LogEntryTagName))
    ensures !r.completed ==> r.logEntry == logEntry
    ensures r.completed ==> !r.logEntry.partial
    ensures r.completed ==>
      (var value := Slice(accumulator, logStart);
       && r.logEntry.message == (match TagValue(value, MessageTagName) case Some(m) => m case None => logEntry.message)
       && r.logEntry.level == LevelOf(TagValue(value, LevelTagName), logEntry.level))
  {
    var value := Slice(accumulator, logStart);
    if EndsWith(value, CloseTag(LogEntryTagName)) then
      var message := match TagValue(value, MessageTagName) case Some(m) => m case None => logEntry.message;
      LogStep(true, LogDirective(message, LevelOf(TagValue(value, LevelTagName), logEntry.level), false))
    else
      LogStep(false, logEntry)
  }

  /** A text block covering the accumulator from `startIndex`, trimmed, still partial. */
  function CreateTextContent(startIndex: nat, accumulator: string): (r: TextContent)
    ensures r.partial
    ensures r.content == Trim(Slice(accumulator, startIndex))
  {
    TextContent(Trim(Slice(accumulator, startIndex)), true)
  }

  /** The pending text, closed because an opening tag `tag` has just been read:
      the tag's first |tag| - 1 characters, already in the text, are cut off. */
  function CloseText(text: Option<TextContent>, tag: string): (r: Option<TextContent>)
    requires |tag| > 1
    ensures r.Some? <==> text.Some?
    ensures r.Some? ==> !r.value.partial && r.value.content == Trim(DropLast(text.value.content, |tag| - 1))
  {
    match text
    case None => None
    case Some(t) => Some(TextContent(Trim(DropLast(t.content, |tag| - 1)), false))
  }

  datatype LogEntryStart = LogEntryStart(logEntry: LogDirective, closedText: Option<TextContent>)

  function DetectLogEntryStart(accumulator: string, currentText: Option<TextContent>): (r: Option<LogEntryStart>)
    ensures r.Some? <==> EndsWith(accumulator, OpenTag(LogEntryTagName))
    ensures r.Some? ==> r.value.logEntry == LogDirective("", Info, true)
    ensures r.Some? ==> r.value.closedText == CloseText(currentText, OpenTag(LogEntryTagName))
  {
    if EndsWith(accumulator, OpenTag(LogEntryTagName)) then
      Some(LogEntryStart(LogDirective("", Info, true), CloseText(currentText, OpenTag(LogEntryTagName))))
    else
      None
  }

  datatype ToolUseStart = ToolUseStart(toolUse: ToolUse, closedText: Option<TextContent>)

  function DetectToolUseStart(vocabulary: Vocabulary, accumulator: string, currentText: Option<TextContent>): (r: Option<ToolUseStart>)
    ensures r.Some? <==> exists k :: 0 <= k < |vocabulary.toolNames| && EndsWith(accumulator, OpenTag(vocabulary.toolNames[k]))
    ensures r.Some? ==>
      && r.value.toolUse.name in vocabulary.toolNames
      && EndsWith(accumulator, OpenTag(r.value.toolUse.name))
      && r.value.toolUse.params == map[]
      && r.value.toolUse.partial
    ensures r.Some? ==> r.value.closedText == CloseText(currentText, OpenTag(r.value.toolUse.name))
  {
    match FirstOpenTag(vocabulary.toolNames, accumulator)
    case None => None
    case Some(k) =>
      var name := vocabulary.toolNames[k];
      Some(ToolUseStart(ToolUse(name, map[], true), CloseText(currentText, OpenTag(name))))
  }

  function TextBlocks(text: Option<TextContent>): seq<AssistantMessageContent> {
    match text
    case None => []
    case Some(t) => [Text(t)]
  }

  // ---------------------------------------------------------------------------
  // The parser's variables and their evolution

  datatype ParserState = ParserState(
    contentBlocks: seq<AssistantMessageContent>,
    currentTextContent: Option<TextContent>,
    currentTextContentStartIndex: nat,
    currentToolUse: Option<ToolUse>,
    currentToolUseStartIndex: nat,
    currentLogEntry: Option<LogDirective>,
    currentLogEntryStartIndex: nat,
    currentParamName: Option<string>,
    currentParamValueStartIndex: nat,
    accumulator: string,
    insideCodeBlock: bool)

  const Initial := ParserState([], None, 0, None, 0, None, 0, None, 0, "", false)

  /** The effect of reading one more character `c`. */
  function Step(vocabulary: Vocabulary, st: ParserState, c: char): ParserState {
    var accumulator := st.accumulator + [c];
    if EndsWith(accumulator, CodeFence) then
      st.(accumulator := accumulator, insideCodeBlock := !st.insideCodeBlock)
    else if st.insideCodeBlock then
      st.(accumulator := accumulator)
    else if st.currentToolUse.Some? && st.currentParamName.Some? then
      var r := ParseToolParam(st.currentToolUse.value, st.currentParamName.value, st.currentParamValueStartIndex, accumulator);
      st.(accumulator := accumulator, currentToolUse := Some(r.toolUse),
          currentParamName := if r.completed then None else st.currentParamName)
    else if st.currentToolUse.Some? then
      var r := ProcessToolUse(vocabulary, st.currentToolUse.value, st.currentToolUseStartIndex, accumulator);
      if r.completed then
        st.(accumulator := accumulator, contentBlocks := st.contentBlocks + [Tool(r.toolUse)], currentToolUse := None)
      else if r.newParamName.Some? then
        st.(accumulator := accumulator, currentToolUse := Some(r.toolUse),
            currentParamName := r.newParamName, currentParamValueStartIndex := r.newParamStart)
      else
        st.(accumulator := accumulator, currentToolUse := Some(r.toolUse))
    else if st.currentLogEntry.Some? then
      var r := ProcessLogEntry(st.currentLogEntry.value, st.currentLogEntryStartIndex, accumulator);
      if r.completed then
        st.(accumulator := accumulator, contentBlocks := st.contentBlocks + [Log(r.logEntry)], currentLogEntry := None)
      else
        st.(accumulator := accumulator, currentLogEntry := Some(r.logEntry))
    else
      match DetectLogEntryStart(accumulator, st.currentTextContent)
      case Some(opening) =>
        st.(accumulator := accumulator, currentLogEntry := Some(opening.logEntry),
            currentLogEntryStartIndex := |accumulator|,
            contentBlocks := st.contentBlocks + TextBlocks(opening.closedText), currentTextContent := None)
      case None =>
        match DetectToolUseStart(vocabulary, accumulator, st.currentTextContent)
        case Some(opening) =>
          st.(accumulator := accumulator, currentToolUse := Some(opening.toolUse),
              currentToolUseStartIndex := |accumulator|,
              contentBlocks := st.contentBlocks + TextBlocks(opening.closedText), currentTextContent := None)
        case None =>
          var start := if st.currentTextContent.None? then |accumulator| - 1 else st.currentTextContentStartIndex;
          st.(accumulator := accumulator, currentTextContentStartIndex := start,
              currentTextContent := Some(CreateTextContent(start, accumulator)))
  }

  /** The parser's variables after reading `w` starting from `st`. */
  function RunFrom(vocabulary: Vocabulary, st: ParserState, w: string): ParserState
    decreases |w|
  {
    if w == [] then st else Step(vocabulary, RunFrom(vocabulary, st, w[..|w| - 1]), w[|w| - 1])
  }

  function Run(vocabulary: Vocabulary, message: string): ParserState {
    RunFrom(vocabulary, Initial, message)
  }

  lemma RunSnoc(vocabulary: Vocabulary, message: string, i: nat)
    requires i < |message|
    ensures Run(vocabulary, message[..i + 1]) == Step(vocabulary, Run(vocabulary, message[..i]), message[i])
  {
    assert message[..i + 1][..i] == message[..i];
  }

  /** `Step` branch by branch, in the order the loop body tests its conditions. */
  lemma StepCases(vocabulary: Vocabulary, st: ParserState, c: char)
    ensures var acc := st.accumulator + [c];
      EndsWith(acc, CodeFence) ==>
        Step(vocabulary, st, c) == st.(accumulator := acc, insideCodeBlock := !st.insideCodeBlock)
    ensures var acc := st.accumulator + [c];
      !EndsWith(acc, CodeFence) && st.insideCodeBlock ==>
        Step(vocabulary, st, c) == st.(accumulator := acc)
    ensures var acc := st.accumulator + [c];
      !EndsWith(acc, CodeFence) && !st.insideCodeBlock && st.currentToolUse.Some? && st.currentParamName.Some? ==>
        var r := ParseToolParam(st.currentToolUse.value, st.currentParamName.value, st.currentParamValueStartIndex, acc);
        Step(vocabulary, st, c) == st.(accumulator := acc, currentToolUse := Some(r.toolUse),
                                       currentParamName := if r.completed then None else st.currentParamName)
    ensures var acc := st.accumulator + [c];
      !EndsWith(acc, CodeFence) && !st.insideCodeBlock && st.currentToolUse.Some? && st.currentParamName.None? ==>
        var r := ProcessToolUse(vocabulary, st.currentToolUse.value, st.currentToolUseStartIndex, acc);
        Step(vocabulary, st, c) ==
          if r.completed then
            st.(accumulator := acc, contentBlocks := st.contentBlocks + [Tool(r.toolUse)], currentToolUse := None)
          else if r.newParamName.Some? then
            st.(accumulator := acc, currentToolUse := Some(r.toolUse),
                currentParamName := r.newParamName, currentParamValueStartIndex := r.newParamStart)
          else
            st.(accumulator := acc, currentToolUse := Some(r.toolUse))
    ensures var acc := st.accumulator + [c];
      !EndsWith(acc, CodeFence) && !st.insideCodeBlock && st.currentToolUse.None? && st.currentLogEntry.Some? ==>
        var r := ProcessLogEntry(st.currentLogEntry.value, st.currentLogEntryStartIndex, acc);
        Step(vocabulary, st, c) ==
          if r.completed then
            st.(accumulator := acc, contentBlocks := st.contentBlocks + [Log(r.logEntry)], currentLogEntry := None)
          else
            st.(accumulator := acc, currentLogEntry := Some(r.logEntry))
    ensures var acc := st.accumulator + [c];
      !EndsWith(acc, CodeFence) && !st.insideCodeBlock && st.currentToolUse.None? && st.currentLogEntry.None? &&
      DetectLogEntryStart(acc, st.currentTextContent).Some? ==>
        var opening := DetectLogEntryStart(acc, st.currentTextContent).value;
        Step(vocabulary, st, c) ==
          st.(accumulator := acc, currentLogEntry := Some(opening.logEntry), currentLogEntryStartIndex := |acc|,
              contentBlocks := st.contentBlocks + TextBlocks(opening.closedText), currentTextContent := None)
    ensures var acc := st.accumulator + [c];
      !EndsWith(acc, CodeFence) && !st.insideCodeBlock && st.currentToolUse.None? && st.currentLogEntry.None? &&
      DetectLogEntryStart(acc, st.currentTextContent).None? &&
      DetectToolUseStart(vocabulary, acc, st.currentTextContent).Some? ==>
        var opening := DetectToolUseStart(vocabulary, acc, st.currentTextContent).value;
        Step(vocabulary, st, c) ==
          st.(accumulator := acc, currentToolUse := Some(opening.toolUse), currentToolUseStartIndex := |acc|,
              contentBlocks := st.contentBlocks + TextBlocks(opening.closedText), currentTextContent := None)
    ensures var acc := st.accumulator + [c];
      !EndsWith(acc, CodeFence) && !st.insideCodeBlock && st.currentToolUse.None? && st.currentLogEntry.None? &&
      DetectLogEntryStart(acc, st.currentTextContent).None? &&
      DetectToolUseStart(vocabulary, acc, st.currentTextContent).None? ==>
        var start := if st.currentTextContent.None? then |acc| - 1 else st.currentTextContentStartIndex;
        Step(vocabulary, st, c) ==
          st.(accumulator := acc, currentTextContentStartIndex := start,
              currentTextContent := Some(CreateTextContent(start, acc)))
  {
  }

  /** The text after the first occurrence of `open`, if there is one. */
  function AfterFirst(s: string, open: string): (r: Option<string>)
    ensures r.Some? <==> IndexOf(s, open, 0).Some?
    ensures r.Some? ==> |r.value| + |open| <= |s| && OccursAt(s, open, |s| - |r.value| - |open|)
    ensures r.Some? ==> r.value == s[IndexOf(s, open, 0).value + |open|..]
  {
    match IndexOf(s, open, 0)
    case None => None
    case Some(p) => Some(s[p + |open|..])
  }

  /** The partial value of a tag in an unterminated log entry as the source
      writes it, `<name>(.*?)(?:</name>)?$`: everything after the first `<name>`,
      less a `</name>` only when it is the very end of the text. */
  function PartialTagValueAsWritten(s: string, name: string): (r: Option<string>)
    ensures r.Some? <==> IndexOf(s, OpenTag(name), 0).Some?
    ensures r.Some? ==> |AfterFirst(s, OpenTag(name)).value| >= |r.value|
  {
    match AfterFirst(s, OpenTag(name))
    case None => None
    case Some(rest) =>
      if EndsWith(rest, CloseTag(name)) then Some(Trim(DropLast(rest, |CloseTag(name)|)))
      else Some(Trim(rest))
  }

  /** The partial value of a tag in an unterminated log entry, as intended: the
      value of the first closed `<name>..</name>` pair when there is one, and
      otherwise everything after the first `<name>`, trimmed. */
  function PartialTagValue(s: string, name: string): (r: Option<string>)
    ensures r.Some? <==> IndexOf(s, OpenTag(name), 0).Some?
    ensures TagValue(s, name).Some? ==> r == TagValue(s, name)
    ensures TagValue(s, name).None? && r.Some? ==> r.value == Trim(AfterFirst(s, OpenTag(name)).value)
  {
    match TagValue(s, name)
    case Some(v) => Some(v)
    case None =>
      match AfterFirst(s, OpenTag(name))
      case None => None
      case Some(rest) => Some(Trim(rest))
  }

  /** The source's partial value agrees with the intended one when no `</name>`
      follows the first `<name>`. */
  lemma PartialValuesAgreeUnclosed(s: string, name: string)
    requires FirstEnclosed(s, OpenTag(name), CloseTag(name)).None?
    ensures PartialTagValueAsWritten(s, name) == PartialTagValue(s, name)
  {
    var open := OpenTag(name);
    var close := CloseTag(name);
    if IndexOf(s, open, 0).Some? {
      var p := IndexOf(s, open, 0).value;
      var rest := AfterFirst(s, open).value;
      assert rest == s[p + |open|..];
      assert IndexOf(s, close, p + |open|).None?;
      if EndsWith(rest, close) {
        assert s[|s| - |close|..] == rest[|rest| - |close|..];
        assert OccursAt(s, close, |s| - |close|);
        assert false;
      }
      assert PartialTagValueAsWritten(s, name) == Some(Trim(rest));
    }
  }

  /** ... and when the first `</name>` after the first `<name>` ends the text. */
  lemma PartialValuesAgreeClosedAtEnd(s: string, name: string)
    requires FirstEnclosed(s, OpenTag(name), CloseTag(name)).Some?
    requires FirstEnclosed(s, OpenTag(name), CloseTag(name)).value.end + |CloseTag(name)| == |s|
    ensures PartialTagValueAsWritten(s, name) == PartialTagValue(s, name)
  {
    var open := OpenTag(name);
    var close := CloseTag(name);
    var sp := FirstEnclosed(s, open, close).value;
    var rest := AfterFirst(s, open).value;
    assert rest == s[sp.start..];
    assert rest[|rest| - |close|..] == s[sp.end..];
    assert EndsWith(rest, close);
    assert DropLast(rest, |close|) == s[sp.start..sp.end];
    assert TagValue(s, name) == Some(Trim(s[sp.start..sp.end]));
  }

  predicate HasOpenBlock(st: ParserState) {
    st.currentToolUse.Some? || st.currentLogEntry.Some? || st.currentTextContent.Some?
  }

  /** At the end of the reply, the block still open (tool first, then log entry,
      then text) is appended as it stands, with a pending parameter or the log
      entry's partial message and level filled in. */
  function FinalizePartialContent(st: ParserState): (r: seq<AssistantMessageContent>)
    ensures |r| == |st.contentBlocks| + (if HasOpenBlock(st) then 1 else 0)
    ensures r[..|st.contentBlocks|] == st.contentBlocks
    ensures st.currentToolUse.Some? ==>
      && r[|r| - 1].Tool?
      && r[|r| - 1].toolUse.name == st.currentToolUse.value.name
      && r[|r| - 1].toolUse.partial == st.currentToolUse.value.partial
      && r[|r| - 1].toolUse.params ==
           if st.currentParamName.None? then st.currentToolUse.value.params
           else st.currentToolUse.value.params[st.currentParamName.value :=
                  Trim(Slice(st.accumulator, st.currentParamValueStartIndex))]
    ensures st.currentToolUse.None? && st.currentLogEntry.Some? ==>
      (var value := Slice(st.accumulator, st.currentLogEntryStartIndex);
       && r[|r| - 1].Log?
       && r[|r| - 1].logEntry.partial == st.currentLogEntry.value.partial
       && r[|r| - 1].logEntry.message ==
            (match PartialTagValueAsWritten(value, MessageTagName) case Some(m) => m case None => st.currentLogEntry.value.message)
       && r[|r| - 1].logEntry.level == LevelOf(PartialTagValueAsWritten(value, LevelTagName), st.currentLogEntry.value.level))
    ensures st.currentToolUse.None? && st.currentLogEntry.None? && st.currentTextContent.Some? ==>
      r[|r| - 1] == Text(st.currentTextContent.value)
  {
    if st.currentToolUse.Some? then
      var toolUse := st.currentToolUse.value;
      var toolUse' :=
        if st.currentParamName.Some? then
          toolUse.(params := toolUse.params[st.currentParamName.value :=
                     Trim(Slice(st.accumulator, st.currentParamValueStartIndex))])
        else toolUse;
      st.contentBlocks + [Tool(toolUse')]
    else if st.currentLogEntry.Some? then
      var logEntry := st.currentLogEntry.value;
      var partialContent := Slice(st.accumulator, st.currentLogEntryStartIndex);
      var message := match PartialTagValueAsWritten(partialContent, MessageTagName) case Some(m) => m case None => logEntry.message;
      var level := LevelOf(PartialTagValueAsWritten(partialContent, LevelTagName), logEntry.level);
      st.contentBlocks + [Log(logEntry.(message := message, level := level))]
    else if st.currentTextContent.Some? then
      st.contentBlocks + [Text(st.currentTextContent.value)]
    else
      st.contentBlocks
  }

  /** The blocks of a whole reply. */
  function Parse(vocabulary: Vocabulary, message: string): seq<AssistantMessageContent> {
    FinalizePartialContent(Run(vocabulary, message))
  }

  /** The parser loop, with the source's variables. */
  method ParseAssistantMessage(vocabulary: Vocabulary, assistantMessage: string)
    returns (contentBlocks: seq<AssistantMessageContent>)
    ensures contentBlocks == Parse(vocabulary, assistantMessage)
  {
    contentBlocks := [];
    var currentTextContent: Option<TextContent> := None;
    var currentTextContentStartIndex: nat := 0;
    var currentToolUse: Option<ToolUse> := None;
    var currentToolUseStartIndex: nat := 0;
    var currentLogEntry: Option<LogDirective> := None;
    var currentLogEntryStartIndex: nat := 0;
    var currentParamName: Option<string> := None;
    var currentParamValueStartIndex: nat := 0;
    var accumulator := "";
    var insideCodeBlock := false;

    for i := 0 to |assistantMessage|
      invariant |accumulator| == i
      invariant Run(vocabulary, assistantMessage[..i]) ==
        ParserState(contentBlocks, currentTextContent, currentTextContentStartIndex,
                    currentToolUse, currentToolUseStartIndex, currentLogEntry, currentLogEntryStartIndex,
                    currentParamName, currentParamValueStartIndex, accumulator, insideCodeBlock)
    {
      RunSnoc(vocabulary, assistantMessage, i);
      StepCases(vocabulary, ParserState(contentBlocks, currentTextContent, currentTextContentStartIndex,
                    currentToolUse, currentToolUseStartIndex, currentLogEntry, currentLogEntryStartIndex,
                    currentParamName, currentParamValueStartIndex, accumulator, insideCodeBlock), assistantMessage[i]);
      var ch := assistantMessage[i];
      accumulator := accumulator + [ch];

      if EndsWith(accumulator, CodeFence) {
        insideCodeBlock := !insideCodeBlock;
        continue;
      }

      if insideCodeBlock {
        continue;
      }

      if currentToolUse.Some? && currentParamName.Some? {
        var result := ParseToolParam(currentToolUse.value, currentParamName.value, currentParamValueStartIndex, accumulator);
        currentToolUse := Some(result.toolUse);
        if result.completed {
          currentParamName := None;
        }
        continue;
      }

      if currentToolUse.Some? {
        var result := ProcessToolUse(vocabulary, currentToolUse.value, currentToolUseStartIndex, accumulator);
        if result.completed {
          currentToolUse := Some(result.toolUse);
          contentBlocks := contentBlocks + [Tool(currentToolUse.value)];
          currentToolUse := None;
        } else {
          currentToolUse := Some(result.toolUse);
          if result.newParamName.Some? {
            currentParamName := result.newParamName;
            currentParamValueStartIndex := result.newParamStart;
          }
        }
        continue;
      }

      if currentLogEntry.Some? {
        var result := ProcessLogEntry(currentLogEntry.value, currentLogEntryStartIndex, accumulator);
        currentLogEntry := Some(result.logEntry);
        if result.completed {
          contentBlocks := contentBlocks + [Log(currentLogEntry.value)];
          currentLogEntry := None;
        }
        continue;
      }

      var logEntryResult := DetectLogEntryStart(accumulator, currentTextContent);
      if logEntryResult.Some? {
        currentLogEntry := Some(logEntryResult.value.logEntry);
        currentLogEntryStartIndex := |accumulator|;
        if logEntryResult.value.closedText.Some? {
          currentTextContent := logEntryResult.value.closedText;
          contentBlocks := contentBlocks + [Text(currentTextContent.value)];
          currentTextContent := None;
        }
        continue;
      }

      var toolUseResult := DetectToolUseStart(vocabulary, accumulator, currentTextContent);
      if toolUseResult.Some? {
        currentToolUse := Some(toolUseResult.value.toolUse);
        currentToolUseStartIndex := |accumulator|;
        if toolUseResult.value.closedText.Some? {
          currentTextContent := toolUseResult.value.closedText;
          contentBlocks := contentBlocks + [Text(currentTextContent.value)];
          currentTextContent := None;
        }
        continue;
      }

      if currentTextContent.None? {
        currentTextContentStartIndex := i;
      }
      currentTextContent := Some(CreateTextContent(currentTextContentStartIndex, accumulator));
    }

    assert assistantMessage[..|assistantMessage|] == assistantMessage;
    contentBlocks := FinalizePartialContent(
      ParserState(contentBlocks, currentTextContent, currentTextContentStartIndex,
                  currentToolUse, currentToolUseStartIndex, currentLogEntry, currentLogEntryStartIndex,
                  currentParamName, currentParamValueStartIndex, accumulator, insideCodeBlock));
  }
}
