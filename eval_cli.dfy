/** The decision rules of the evaluation runner's `run` command: which
    arguments it accepts, which tasks it creates, how a task is graded by its
    language's unit-test commands, how an interrupted run resumes, and how the
    tasks are started under the run's concurrency limit. Processes, the task
    store and the clock are inputs. */
module EvalCli {

  datatype Option<+T> = None | Some(value: T)
  datatype Result<+T, +E> = Success(value: T) | Failure(error: E)

  /** Stagger between two task starts, in milliseconds. */
  const TaskStartDelay: nat := 10 * 1000
  /** How long the agent may work on one task, in milliseconds. */
  const TaskTimeout: nat := 5 * 60 * 1000
  /** How long one unit-test command may run before its process tree is killed. */
  const UnitTestTimeout: nat := 2 * 60 * 1000

  // ---------------------------------------------------------------------------
  // Languages and their unit-test commands

  datatype Language = Go | Java | JavaScript | Python | Rust

  /** The exercise languages, in the order the runner lists them. */
  const Languages: seq<Language> := [Go, Java, JavaScript, Python, Rust]

  function LanguageName(language: Language): string {
    match language
    case Go => "go"
    case Java => "java"
    case JavaScript => "javascript"
    case Python => "python"
    case Rust => "rust"
  }

  function LanguageFromName(name: string): (r: Option<Language>)
    ensures r.Some? ==> LanguageName(r.value) == name
    ensures r.None? ==> forall l: Language :: LanguageName(l) != name
  {
    if name == "go" then Some(Go)
    else if name == "java" then Some(Java)
    else if name == "javascript" then Some(JavaScript)
    else if name == "python" then Some(Python)
    else if name == "rust" then Some(Rust)
    else None
  }

  /** Every language is listed once, and its name leads back to it. */
  lemma LanguagesListed(language: Language)
    ensures language in Languages
    ensures LanguageFromName(LanguageName(language)) == Some(language)
  {
  }

  /** The commands that grade an exercise, in the order they run. Only the Java
      and Python commands depend on whether the runner is on Windows. */
  function TestCommands(language: Language, onWindows: bool): (r: seq<string>)
    ensures |r| >= 1
    ensures language == JavaScript <==> |r| == 2
  {
    match language
    case Go => ["go test"]
    case Java => [if onWindows then "gradlew.bat test" else "./gradlew test"]
    case JavaScript => ["pnpm install", "pnpm test"]
    case Python => ["uv run " + (if onWindows then "python" else "python3") + " -m pytest -o markers=task ."]
    case Rust => ["cargo test"]
  }

  /** The platform changes the Java and Python commands and no other. */
  lemma PlatformMattersOnlyForJavaAndPython(language: Language)
    ensures TestCommands(language, true) != TestCommands(language, false) <==> language == Java || language == Python
  {
    if language == Java {
      assert TestCommands(language, true)[0][0] != TestCommands(language, false)[0][0];
    } else if language == Python {
      assert TestCommands(language, true)[0][13] != TestCommands(language, false)[0][13];
    }
  }

  // ---------------------------------------------------------------------------
  // Argument validation and task selection

  /** A configuration value as the command line leaves it: absent, a string, or
      anything else (a number or a flag). */
  datatype ConfigValue = Undefined | Str(s: string) | NonString

  datatype RunError =
    | InvalidLanguage
    | InvalidExercise
    /** `exercise` is "all" but no language was given: there is no exercise list to map over. */
    | NoExerciseList
    | NoTasksFound

  predicate ValidLanguageArgument(language: ConfigValue) {
    match language
    case Undefined => true
    case Str(s) => s == "all" || LanguageFromName(s).Some?
    case NonString => false
  }

  /** The checks `run` makes before touching the store: the language is checked first. */
  function ValidateArguments(language: ConfigValue, exercise: ConfigValue): (r: Result<(), RunError>)
    ensures r.Success? <==> ValidLanguageArgument(language) && !exercise.NonString?
    ensures r == Failure(InvalidLanguage) <==> !ValidLanguageArgument(language)
    ensures r == Failure(InvalidExercise) <==> ValidLanguageArgument(language) && exercise.NonString?
  {
    if !ValidLanguageArgument(language) then Failure(InvalidLanguage)
    else if exercise.NonString? then Failure(InvalidExercise)
    else Success(())
  }

  datatype TaskSpec = TaskSpec(language: Language, exercise: string)

  /** All exercises of the given languages, language by language. */
  function AllTasks(languages: seq<Language>, catalog: Language -> seq<string>): (r: seq<TaskSpec>)
    ensures forall t :: t in r <==> t.language in languages && t.exercise in catalog(t.language)
  {
    if languages == [] then []
    else
      var l := languages[0];
      assert forall t :: t in TasksOf(l, catalog(l)) <==> t.language == l && t.exercise in catalog(l);
      TasksOf(l, catalog(l)) + AllTasks(languages[1..], catalog)
  }

  function TasksOf(language: Language, exercises: seq<string>): (r: seq<TaskSpec>)
    ensures |r| == |exercises|
    ensures forall i :: 0 <= i < |r| ==> r[i] == TaskSpec(language, exercises[i])
    ensures forall t :: t in r <==> t.language == language && t.exercise in exercises
  {
    if exercises == [] then [] else [TaskSpec(language, exercises[0])] + TasksOf(language, exercises[1..])
  }

  /** A string argument counts only when it is not empty; otherwise the
      runner asks, and `asked` is the answer. */
  function OrAsked(value: ConfigValue, asked: string): string {
    if value.Str? && value.s != [] then value.s else asked
  }

  /** The tasks of a run: the stored ones when a run id is given, otherwise the
      ones the arguments select (every exercise of every language for language
      "all", every exercise of one language for exercise "all", else one
      exercise, asking for whatever is missing). A run without tasks fails. */
  function PlanRun(language: ConfigValue, exercise: ConfigValue, storedTasks: Option<seq<TaskSpec>>,
                   catalog: Language -> seq<string>, askedLanguage: Language, askedExercise: string): (r: Result<seq<TaskSpec>, RunError>)
    ensures ValidateArguments(language, exercise).Failure? ==> r == Failure(ValidateArguments(language, exercise).error)
    ensures r.Success? ==> |r.value| > 0
    ensures r.Success? && storedTasks.Some? ==> r.value == storedTasks.value
    ensures ValidateArguments(language, exercise).Success? && storedTasks.Some? ==>
      (r.Success? <==> storedTasks.value != [])
    ensures storedTasks.None? && language == Str("all") && !exercise.NonString? ==>
      r == (if AllTasks(Languages, catalog) == [] then Failure(NoTasksFound) else Success(AllTasks(Languages, catalog)))
    ensures storedTasks.None? && exercise == Str("all") && language.Str? && LanguageFromName(language.s).Some? ==>
      (var l := LanguageFromName(language.s).value;
       && (r.Success? <==> catalog(l) != [])
       && (r.Success? ==> r.value == TasksOf(l, catalog(l))))
    ensures storedTasks.None? && exercise == Str("all") && language.Undefined? ==> r == Failure(NoExerciseList)
    ensures ValidateArguments(language, exercise).Success? && storedTasks.None? &&
            language != Str("all") && exercise != Str("all") ==>
      && r.Success? && |r.value| == 1
      && r.value[0].exercise == OrAsked(exercise, askedExercise)
      && (language.Str? ==> LanguageFromName(language.s) == Some(r.value[0].language))
      && (language.Undefined? ==> r.value[0].language == askedLanguage)
  {
    match ValidateArguments(language, exercise)
    case Failure(e) => Failure(e)
    case Success(_) =>
      var tasks :=
        if storedTasks.Some? then Success(storedTasks.value)
        else if language == Str("all") then Success(AllTasks(Languages, catalog))
        else if exercise == Str("all") then
          (match language
           case Str(s) => Success(TasksOf(LanguageFromName(s).value, catalog(LanguageFromName(s).value)))
           case _ => Failure(NoExerciseList))
        else
          var l := if language.Str? && language.s != [] then LanguageFromName(language.s).value else askedLanguage;
          Success([TaskSpec(l, OrAsked(exercise, askedExercise))]);
      match tasks
      case Failure(e) => Failure(e)
      case Success(ts) => if ts == [] then Failure(NoTasksFound) else Success(ts)
  }

  // ---------------------------------------------------------------------------
  // Grading

  /** What running one unit-test command came to: it completed (failed or not;
      a command killed after `UnitTestTimeout` completes failed) or it threw. */
  datatype CommandResult = Completed(failed: bool) | Threw

  predicate Succeeded(result: CommandResult) {
    result.Completed? && !result.failed
  }

  /** The index of the first result that is not a success. */
  function FirstFailure(results: seq<CommandResult>): (r: Option<nat>)
    ensures r.Some? ==> r.value < |results| && !Succeeded(results[r.value])
    ensures r.Some? ==> forall i :: 0 <= i < r.value ==> Succeeded(results[i])
    ensures r.None? <==> forall i :: 0 <= i < |results| ==> Succeeded(results[i])
  {
    if results == [] then None
    else if !Succeeded(results[0]) then Some(0)
    else match FirstFailure(results[1..])
      case None => None
      case Some(i) => Some(i + 1)
  }

  /** Runs the language's commands in order, `results[i]` being what running
      `commands[i]` came to. The task passes only when every command succeeds;
      the first failure or exception ends the loop, and later commands never run. */
  method RunUnitTest(commands: seq<string>, results: seq<CommandResult>) returns (passed: bool, ran: seq<string>)
    requires |results| == |commands|
    ensures passed <==> forall i :: 0 <= i < |results| ==> Succeeded(results[i])
    ensures passed ==> ran == commands
    ensures !passed ==> ran == commands[..FirstFailure(results).value + 1]
  {
    passed := true;
    ran := [];
    var i := 0;
    while i < |commands|
      invariant 0 <= i <= |commands|
      invariant ran == commands[..i]
      invariant forall j :: 0 <= j < i ==> Succeeded(results[j])
    {
      ran := ran + [commands[i]];
      match results[i]
      case Threw =>
        passed := false;
        break;
      case Completed(failed) =>
        if failed {
          passed := false;
          break;
        }
      i := i + 1;
    }
    assert ran == commands[..i] || ran == commands[..i + 1];
  }

  /** Results after the first failure do not change the grade. */
  lemma {:induction false} LaterResultsIrrelevant(results: seq<CommandResult>, later: seq<CommandResult>)
    requires FirstFailure(results).Some?
    ensures FirstFailure(results + later) == FirstFailure(results)
  {
    if Succeeded(results[0]) {
      assert (results + later)[1..] == results[1..] + later;
      LaterResultsIrrelevant(results[1..], later);
    }
  }

  // ---------------------------------------------------------------------------
  // Resuming a task

  /** A task as stored: `finishedAt` is set once the agent phase ended,
      `passed` once the task was graded. */
  datatype Task = Task(id: nat, language: Language, exercise: string, finishedAt: Option<int>, passed: Option<bool>)

  datatype EvalEvent = Pass | Fail

  /** What processing one task does: whether it runs the agent, whether it
      grades, the event it broadcasts, and its result. */
  datatype TaskProcessing = TaskProcessing(runsAgent: bool, grades: bool, broadcast: Option<EvalEvent>, success: bool)

  /** The agent phase runs only for an unfinished task and grading only for an
      ungraded one, `graded` being what grading would return; a graded task
      returns its stored grade. The agent phase's own result is not used. */
  function ProcessTask(task: Task, graded: bool): (r: TaskProcessing)
    ensures r.runsAgent <==> task.finishedAt.None?
    ensures r.grades <==> r.broadcast.Some?
    ensures r.grades ==> r.broadcast == Some(if r.success then Pass else Fail)
    ensures task.passed.Some? ==> !r.grades && r.success == task.passed.value
    ensures task.passed.None? ==> r.grades && r.success == graded
  {
    var runsAgent := task.finishedAt.None?;
    match task.passed
    case None => TaskProcessing(runsAgent, true, Some(if graded then Pass else Fail), graded)
    case Some(p) => TaskProcessing(runsAgent, false, None, p)
  }

  /** The task as stored after it was processed: its grade is stored, and the
      agent phase may have stored a finish time. */
  function AfterProcessing(task: Task, r: TaskProcessing, finishedAt: Option<int>): Task {
    task.(finishedAt := if task.finishedAt.Some? then task.finishedAt else finishedAt, passed := Some(r.success))
  }

  /** Processing a processed task again neither re-grades nor changes the
      result, and runs the agent again only if no finish time was stored. */
  lemma ProcessingResumes(task: Task, graded: bool, finishedAt: Option<int>, regraded: bool)
    ensures var r := ProcessTask(task, graded);
      var again := ProcessTask(AfterProcessing(task, r, finishedAt), regraded);
      !again.grades && again.broadcast.None? && again.success == r.success &&
      (again.runsAgent <==> task.finishedAt.None? && finishedAt.None?)
  {
  }

  // ---------------------------------------------------------------------------
  // Scheduling

  function Max(a: int, b: int): int {
    if a < b then b else a
  }

  /** The in-flight list once the settled tasks are spliced out; the others keep their order. */
  function Without(running: seq<nat>, settled: set<nat>): (r: seq<nat>)
    ensures forall t :: t in r <==> t in running && t !in settled
    ensures multiset(r) + multiset(Settled(running, settled)) == multiset(running)
    ensures SomeSettled(running, settled) ==> |r| < |running|
  {
    if running == [] then []
    else
      assert running == [running[0]] + running[1..];
      if running[0] in settled then Without(running[1..], settled)
      else [running[0]] + Without(running[1..], settled)
  }

  predicate SomeSettled(running: seq<nat>, settled: set<nat>) {
    exists i :: 0 <= i < |running| && running[i] in settled
  }

  /** Waiting for the first of the in-flight tasks to settle: at least one
      settles, and any others may settle with it. */
  method Race(running: seq<nat>) returns (still: seq<nat>, done: seq<nat>)
    requires running != []
    ensures |still| < |running|
    ensures multiset(still) + multiset(done) == multiset(running)
    ensures forall t :: t in still ==> t in running
  {
    assert SomeSettled(running, {running[0]});
    var settled: set<nat> :| SomeSettled(running, settled);
    still := Without(running, settled);
    done := Settled(running, settled);
  }

  /** The settled tasks of the in-flight list, in its order. */
  function Settled(running: seq<nat>, settled: set<nat>): (r: seq<nat>)
    ensures forall t :: t in r <==> t in running && t in settled
  {
    if running == [] then []
    else if running[0] in settled then [running[0]] + Settled(running[1..], settled)
    else Settled(running[1..], settled)
  }

  function Range(n: nat): (r: seq<nat>)
    ensures |r| == n
    ensures forall i :: 0 <= i < n ==> r[i] == i
  {
    if n == 0 then [] else Range(n - 1) + [n - 1]
  }

  /** The stagger rule: the first task starts after `TaskStartDelay`; each
      later one after 0 when the in-flight list had reached the limit as the
      previous task was added, and otherwise `TaskStartDelay` after it. */
  predicate StaggerRule(startDelays: seq<nat>, inFlight: seq<nat>, concurrency: int) {
    && |startDelays| == |inFlight|
    && (|startDelays| > 0 ==> startDelays[0] == TaskStartDelay)
    && forall j :: 0 < j < |startDelays| ==>
         startDelays[j] == if inFlight[j - 1] >= concurrency then 0 else startDelays[j - 1] + TaskStartDelay
  }

  /** The delay the rule gives the next task. */
  function NextDelay(startDelays: seq<nat>, inFlight: seq<nat>, concurrency: int): nat
    requires |startDelays| == |inFlight|
  {
    if startDelays == [] then TaskStartDelay
    else if inFlight[|inFlight| - 1] >= concurrency then 0
    else startDelays[|startDelays| - 1] + TaskStartDelay
  }

  lemma StaggerRuleExtends(startDelays: seq<nat>, inFlight: seq<nat>, concurrency: int, delay: nat, count: nat)
    requires StaggerRule(startDelays, inFlight, concurrency)
    requires delay == NextDelay(startDelays, inFlight, concurrency)
    ensures StaggerRule(startDelays + [delay], inFlight + [count], concurrency)
  {
  }

  /** No push makes the in-flight list longer than the limit (or than 1, for a
      limit below 1), and no delay exceeds one stagger per slot. */
  predicate WithinLimit(startDelays: seq<nat>, inFlight: seq<nat>, concurrency: int)
    requires |startDelays| == |inFlight|
  {
    forall j :: 0 <= j < |inFlight| ==>
      1 <= inFlight[j] <= Max(concurrency, 1) && startDelays[j] <= TaskStartDelay * Max(concurrency, 1)
  }

  lemma WithinLimitExtends(startDelays: seq<nat>, inFlight: seq<nat>, concurrency: int, delay: nat, count: nat)
    requires |startDelays| == |inFlight| && WithinLimit(startDelays, inFlight, concurrency)
    requires 1 <= count <= Max(concurrency, 1)
    requires delay <= TaskStartDelay * count
    ensures WithinLimit(startDelays + [delay], inFlight + [count], concurrency)
  {
    assert TaskStartDelay * count <= TaskStartDelay * Max(concurrency, 1);
  }

  /** With a limit above the number of tasks nothing waits, and task i starts
      after i + 1 staggers. */
  predicate Unthrottled(startDelays: seq<nat>) {
    forall j :: 0 <= j < |startDelays| ==> startDelays[j] == TaskStartDelay * (j + 1)
  }

  /** One more stagger. */
  lemma OneMoreStagger(n: nat)
    ensures TaskStartDelay * (n + 1) == TaskStartDelay * n + TaskStartDelay
  {
  }

  /** Tasks 0 .. started-1 are each either in flight or settled, exactly once. */
  predicate AccountedFor(running: seq<nat>, settledOrder: seq<nat>, started: nat) {
    multiset(running) + multiset(settledOrder) == multiset(Range(started))
  }

  lemma StartAccounted(running: seq<nat>, settledOrder: seq<nat>, started: nat, running': seq<nat>, settledOrder': seq<nat>)
    requires AccountedFor(running, settledOrder, started)
    requires multiset(running') + multiset(settledOrder') == multiset(running) + multiset(settledOrder) + multiset{started}
    ensures AccountedFor(running', settledOrder', started + 1)
  {
    assert Range(started + 1) == Range(started) + [started];
  }

  /** The scheduler's state after starting `started` of `taskCount` tasks:
      the delays and in-flight counts so far follow the rules, the next delay
      is the one the rule gives, and the in-flight list is below the limit. */
  predicate Scheduled(taskCount: nat, concurrency: int, started: nat, startDelays: seq<nat>, inFlight: seq<nat>,
                      delay: nat, running: seq<nat>, settledOrder: seq<nat>)
  {
    && started <= taskCount
    && |startDelays| == started && |inFlight| == started
    && StaggerRule(startDelays, inFlight, concurrency)
    && WithinLimit(startDelays, inFlight, concurrency)
    && delay == NextDelay(startDelays, inFlight, concurrency)
    && |running| < Max(concurrency, 1)
    && delay <= TaskStartDelay * (|running| + 1)
    && (concurrency > taskCount ==> |running| == started && delay == TaskStartDelay * (started + 1) && Unthrottled(startDelays))
  }

  /** Below the limit, the loop goes straight on to the next task, one stagger later. */
  lemma KeepGoing(taskCount: nat, concurrency: int, started: nat, startDelays: seq<nat>, inFlight: seq<nat>,
                  delay: nat, running: seq<nat>, settledOrder: seq<nat>)
    requires started < taskCount && |running| + 1 < concurrency
    requires Scheduled(taskCount, concurrency, started, startDelays, inFlight, delay, running, settledOrder)
    ensures Scheduled(taskCount, concurrency, started + 1, startDelays + [delay], inFlight + [|running| + 1],
                      delay + TaskStartDelay, running + [started], settledOrder)
  {
    StaggerRuleExtends(startDelays, inFlight, concurrency, delay, |running| + 1);
    WithinLimitExtends(startDelays, inFlight, concurrency, delay, |running| + 1);
    OneMoreStagger(|running| + 1);
    OneMoreStagger(started + 1);
  }

  /** At the limit, the delay resets, and once a task has settled the list is below the limit again. */
  lemma WaitAndReset(taskCount: nat, concurrency: int, started: nat, startDelays: seq<nat>, inFlight: seq<nat>,
                     delay: nat, running: seq<nat>, settledOrder: seq<nat>, still: seq<nat>, settledOrder': seq<nat>)
    requires started < taskCount && |running| + 1 >= concurrency && |still| < |running| + 1
    requires Scheduled(taskCount, concurrency, started, startDelays, inFlight, delay, running, settledOrder)
    ensures Scheduled(taskCount, concurrency, started + 1, startDelays + [delay], inFlight + [|running| + 1],
                      0, still, settledOrder')
  {
    StaggerRuleExtends(startDelays, inFlight, concurrency, delay, |running| + 1);
    WithinLimitExtends(startDelays, inFlight, concurrency, delay, |running| + 1);
  }

  /** The tasks that settle in a race move from the in-flight list to the settled ones. */
  lemma RaceAccounted(running: seq<nat>, settledOrder: seq<nat>, started: nat, still: seq<nat>, done: seq<nat>)
    requires multiset(still) + multiset(done) == multiset(running + [started])
    ensures multiset(still) + multiset(settledOrder + done) == multiset(running) + multiset(settledOrder) + multiset{started}
  {
    assert multiset(running + [started]) == multiset(running) + multiset{started};
    assert multiset(settledOrder + done) == multiset(settledOrder) + multiset(done);
    var before := multiset(still) + multiset(settledOrder + done);
    var after := multiset(running) + multiset(settledOrder) + multiset{started};
    forall t
      ensures before[t] == after[t]
    {
      assert (multiset(still) + multiset(done))[t] == (multiset(running) + multiset{started})[t];
    }
    assert before == after;
  }

  /** One turn of the scheduling loop: task `started` begins after the current
      delay and joins the in-flight list; the delay grows by one stagger; if the
      list has reached the limit, the delay resets and the loop waits until at
      least one task settles. */
  method StartTask(taskCount: nat, concurrency: int, started: nat, startDelays: seq<nat>, inFlight: seq<nat>,
                   delay: nat, running: seq<nat>, settledOrder: seq<nat>)
    returns (startDelays': seq<nat>, inFlight': seq<nat>, delay': nat, running': seq<nat>, settledOrder': seq<nat>)
    requires started < taskCount
    requires Scheduled(taskCount, concurrency, started, startDelays, inFlight, delay, running, settledOrder)
    ensures Scheduled(taskCount, concurrency, started + 1, startDelays', inFlight', delay', running', settledOrder')
    ensures startDelays' == startDelays + [delay] && inFlight' == inFlight + [|running| + 1]
    ensures multiset(running') + multiset(settledOrder') == multiset(running) + multiset(settledOrder) + multiset{started}
  {
    startDelays' := startDelays + [delay];
    delay' := delay + TaskStartDelay;
    running' := running + [started];
    inFlight' := inFlight + [|running'|];
    settledOrder' := settledOrder;
    assert multiset(running') == multiset(running) + multiset{started};
    if |running'| >= concurrency {
      delay' := 0;
      var still, done := Race(running');
      RaceAccounted(running, settledOrder, started, still, done);
      WaitAndReset(taskCount, concurrency, started, startDelays, inFlight, delay, running, settledOrder, still, settledOrder + done);
      running', settledOrder' := still, settledOrder + done;
    } else {
      KeepGoing(taskCount, concurrency, started, startDelays, inFlight, delay, running, settledOrder);
    }
  }

  /** Starts tasks 0 .. taskCount-1 in order, one `StartTask` turn each, and
      then waits for every task still in flight. `inFlight[i]` is the length of
      the in-flight list right after task i was added. */
  method Schedule(taskCount: nat, concurrency: int) returns (startDelays: seq<nat>, inFlight: seq<nat>, settledOrder: seq<nat>)
    ensures |startDelays| == taskCount && |inFlight| == taskCount
    ensures StaggerRule(startDelays, inFlight, concurrency)
    ensures WithinLimit(startDelays, inFlight, concurrency)
    ensures concurrency > taskCount ==> Unthrottled(startDelays)
    ensures multiset(settledOrder) == multiset(Range(taskCount))
  {
    var running: seq<nat> := [];
    var delay: nat := TaskStartDelay;
    startDelays, inFlight, settledOrder := [], [], [];
    var i := 0;
    while i < taskCount
      invariant Scheduled(taskCount, concurrency, i, startDelays, inFlight, delay, running, settledOrder)
      invariant AccountedFor(running, settledOrder, i)
    {
      var running', settledOrder';
      startDelays, inFlight, delay, running', settledOrder' :=
        StartTask(taskCount, concurrency, i, startDelays, inFlight, delay, running, settledOrder);
      StartAccounted(running, settledOrder, i, running', settledOrder');
      running, settledOrder := running', settledOrder';
      i := i + 1;
    }
    settledOrder := settledOrder + running;
  }
}
