/** The log-entry schema: the four log levels and the validation rule for the
    parameters of a log entry (a string message, and an optional level that
    defaults to "info"). */
module LogEntrySchema {
  import opened JsString

  datatype LogLevel = Debug | Info | Warn | Error

  /** The levels in their declared order. */
  const LogLevels: seq<LogLevel> := [Debug, Info, Warn, Error]

  function LevelName(level: LogLevel): string {
    match level
    case Debug => "debug"
    case Info => "info"
    case Warn => "warn"
    case Error => "error"
  }

  /** Exact, case-sensitive lookup of a level by its name: the membership test
      `logLevels.includes(name)` together with the level it selects. */
  function LevelFromName(name: string): (r: Option<LogLevel>)
    ensures r.Some? <==> name in ["debug", "info", "warn", "error"]
    ensures r.Some? ==> LevelName(r.value) == name
  {
    if name == "debug" then Some(Debug)
    else if name == "info" then Some(Info)
    else if name == "warn" then Some(Warn)
    else if name == "error" then Some(Error)
    else None
  }

  /** Naming a level and looking the name up gives the level back, and the
      declared list holds every level exactly once. */
  lemma LevelNamesRoundTrip(level: LogLevel)
    ensures LevelFromName(LevelName(level)) == Some(level)
    ensures level in LogLevels
    ensures forall i, j :: 0 <= i < j < |LogLevels| ==> LogLevels[i] != LogLevels[j]
  {
  }

  /** The JSON values a caller can hand to the schema (nested values are not inspected). */
  datatype JsonValue = JString(s: string) | JNumber(n: int) | JBool(b: bool) | JNull | JArray | JObject

  datatype LogEntryParams = LogEntryParams(message: string, level: LogLevel)

  datatype Issue = MessageNotString | LevelNotAllowed

  datatype ParseResult = Valid(params: LogEntryParams) | Invalid(issues: seq<Issue>)

  /** The level field: absent means "info"; present, it must be one of the four names. */
  function ParseLevel(field: Option<JsonValue>): (r: Option<LogLevel>)
    ensures field.None? ==> r == Some(Info)
    ensures field.Some? ==> (r.Some? <==> field.value.JString? && LevelFromName(field.value.s).Some?)
    ensures field.Some? && r.Some? ==> LevelName(r.value) == field.value.s
  {
    match field
    case None => Some(Info)
    case Some(JString(s)) => LevelFromName(s)
    case Some(_) => None
  }

  function Field(input: map<string, JsonValue>, key: string): Option<JsonValue> {
    if key in input then Some(input[key]) else None
  }

  /** Validation of a log entry's parameters; other keys of the object are ignored,
      and every failing field is reported, in the order message, level. */
  function ParseLogEntryParams(input: map<string, JsonValue>): (r: ParseResult)
    ensures r.Valid? <==>
      && "message" in input && input["message"].JString?
      && ("level" in input ==> input["level"].JString? && LevelFromName(input["level"].s).Some?)
    ensures r.Valid? ==> r.params.message == input["message"].s
    ensures r.Valid? && "level" !in input ==> r.params.level == Info
    ensures r.Valid? && "level" in input ==> LevelName(r.params.level) == input["level"].s
    ensures r.Invalid? ==> |r.issues| > 0
    ensures r.Invalid? ==> (MessageNotString in r.issues <==> !("message" in input && input["message"].JString?))
    ensures r.Invalid? ==> (LevelNotAllowed in r.issues <==> ParseLevel(Field(input, "level")).None?)
  {
    var message := Field(input, "message");
    var level := ParseLevel(Field(input, "level"));
    var messageIssues := if message.Some? && message.value.JString? then [] else [MessageNotString];
    var levelIssues := if level.Some? then [] else [LevelNotAllowed];
    if messageIssues == [] && levelIssues == [] then
      Valid(LogEntryParams(message.value.s, level.value))
    else
      Invalid(messageIssues + levelIssues)
  }
}
