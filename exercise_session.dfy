/** One task's session with the agent in the evaluation runner: the state
    the agent-event handler keeps (when the task started and finished, its
    metrics record, the agent's own task id, whether the connection dropped),
    which events it relays and logs, what it writes to the task store, and what
    the session decides once the wait for the task ends. Events arrive as an
    input sequence and are handled one at a time; the clock readings and the
    ids the store hands out travel with them. */
module ExerciseSession {

  datatype Option<+T> = None | Some(value: T)

  /** Token usage as the agent reports it; the cache counts may be missing. */
  datatype TokenUsage = TokenUsage(totalCost: real, totalTokensIn: int, totalTokensOut: int, contextTokens: int,
                                   totalCacheWrites: Option<int>, totalCacheReads: Option<int>)

  /** Per-tool counters, stored as the agent reports them. */
  type ToolUsage = map<string, int>

  /** The agent events the handler tells apart; any other event is `OtherEvent`. */
  datatype TaskEvent =
    | Message
    | TaskStarted(agentTaskId: string)
    | TaskTokenUsageUpdated(usage: TokenUsage)
    | TaskAskResponded
    | TaskToolFailed(toolName: string, error: string)
    | TaskCompleted(usage: TokenUsage, toolUsage: ToolUsage)
    | TaskAborted
    | OtherEvent(name: string)

  /** What reaches the handler: an agent event, handled at clock reading `now`
      (`metricsId` is the id the store gives a metrics record created for it),
      or the connection dropping. */
  datatype Incoming = Event(event: TaskEvent, now: int, metricsId: int) | Disconnect

  datatype Metrics = Metrics(cost: real, tokensIn: int, tokensOut: int, tokensContext: int, duration: int,
                             cacheWrites: int, cacheReads: int)

  const ZeroMetrics := Metrics(0.0, 0, 0, 0, 0, 0, 0)

  /** Everything the handler does besides changing its own state, in order. */
  datatype Effect =
    | Relay(event: TaskEvent)
    | Log(event: TaskEvent)
    | CreateMetrics(initial: Metrics)
    | MarkStarted(metricsId: int)
    | RecordToolError(toolName: string, error: string)
    | UpdateMetrics(metricsId: int, metrics: Metrics)
    | UpdateToolUsage(metricsId: int, toolUsage: ToolUsage)
    | MarkFinished

  /** The handler's variables. */
  datatype Monitor = Monitor(startedAt: int, finishedAt: Option<int>, metricsId: Option<int>,
                             agentTaskId: Option<string>, disconnected: bool)

  /** JavaScript truthiness of an optional number: set and not 0. */
  predicate TruthyNumber(x: Option<int>) {
    x.Some? && x.value != 0
  }

  /** JavaScript truthiness of an optional string: set and not empty. */
  predicate TruthyString(x: Option<string>) {
    x.Some? && x.value != []
  }

  function Initial(now: int): Monitor {
    Monitor(now, None, None, None, false)
  }

  // ---------------------------------------------------------------------------
  // One event

  /** Every event but `Message` is relayed to the runner's own listeners. */
  predicate Relayed(e: TaskEvent) {
    !e.Message?
  }

  /** Chatty events are not logged. */
  predicate Logged(e: TaskEvent) {
    !e.Message? && !e.TaskTokenUsageUpdated? && !e.TaskAskResponded?
  }

  /** The stored metrics for a usage report, `duration` after the task started;
      missing cache counts become 0. */
  function MetricsOf(usage: TokenUsage, duration: int): (r: Metrics)
    ensures r.cacheWrites == (if usage.totalCacheWrites.Some? then usage.totalCacheWrites.value else 0)
    ensures r.cacheReads == (if usage.totalCacheReads.Some? then usage.totalCacheReads.value else 0)
  {
    Metrics(usage.totalCost, usage.totalTokensIn, usage.totalTokensOut, usage.contextTokens, duration,
            match usage.totalCacheWrites case Some(n) => n case None => 0,
            match usage.totalCacheReads case Some(n) => n case None => 0)
  }

  /** The handler's variables after an event: a start records the start time,
      the new metrics record and the agent's task id; a completion or an abort
      records the finish time; nothing else changes them. */
  function NextMonitor(m: Monitor, e: TaskEvent, now: int, metricsId: int): (r: Monitor)
    ensures r.disconnected == m.disconnected
    ensures r.finishedAt != m.finishedAt ==> e.TaskCompleted? || e.TaskAborted?
    ensures e.TaskCompleted? || e.TaskAborted? ==> r.finishedAt == Some(now)
    ensures r.metricsId != m.metricsId || r.agentTaskId != m.agentTaskId ==> e.TaskStarted?
  {
    match e
    case TaskStarted(agentTaskId) => m.(startedAt := now, metricsId := Some(metricsId), agentTaskId := Some(agentTaskId))
    case TaskCompleted(_, _) => m.(finishedAt := Some(now))
    case TaskAborted => m.(finishedAt := Some(now))
    case _ => m
  }

  /** The store writes for an event: metrics are written only once a start
      has left a (truthy) metrics id. */
  function StoreEffects(m: Monitor, e: TaskEvent, now: int, metricsId: int): (r: seq<Effect>)
    ensures forall i :: 0 <= i < |r| ==> !r[i].Relay? && !r[i].Log?
    ensures !TruthyNumber(m.metricsId) ==> forall i :: 0 <= i < |r| ==> !r[i].UpdateMetrics? && !r[i].UpdateToolUsage?
    ensures MarkFinished in r <==> e.TaskCompleted? || e.TaskAborted?
  {
    match e
    case TaskStarted(_) => [CreateMetrics(ZeroMetrics), MarkStarted(metricsId)]
    case TaskToolFailed(toolName, error) => [RecordToolError(toolName, error)]
    case TaskTokenUsageUpdated(usage) =>
      if TruthyNumber(m.metricsId) then [UpdateMetrics(m.metricsId.value, MetricsOf(usage, now - m.startedAt))] else []
    case TaskCompleted(usage, toolUsage) =>
      (if TruthyNumber(m.metricsId)
       then [UpdateMetrics(m.metricsId.value, MetricsOf(usage, now - m.startedAt)), UpdateToolUsage(m.metricsId.value, toolUsage)]
       else []) + [MarkFinished]
    case TaskAborted => [MarkFinished]
    case _ => []
  }

  function EventEffects(m: Monitor, e: TaskEvent, now: int, metricsId: int): seq<Effect> {
    (if Relayed(e) then [Relay(e)] else []) + (if Logged(e) then [Log(e)] else []) + StoreEffects(m, e, now, metricsId)
  }

  function Next(m: Monitor, incoming: Incoming): Monitor {
    match incoming
    case Event(e, now, metricsId) => NextMonitor(m, e, now, metricsId)
    case Disconnect => m.(disconnected := true)
  }

  function Effects(m: Monitor, incoming: Incoming): seq<Effect> {
    match incoming
    case Event(e, now, metricsId) => EventEffects(m, e, now, metricsId)
    case Disconnect => []
  }

  /** The handler's variables after a sequence of arrivals. */
  function HandleAll(m: Monitor, incoming: seq<Incoming>): Monitor
    decreases |incoming|
  {
    if incoming == [] then m
    else Next(HandleAll(m, incoming[..|incoming| - 1]), incoming[|incoming| - 1])
  }

  /** Everything the handler did over a sequence of arrivals, in order. */
  function AllEffects(m: Monitor, incoming: seq<Incoming>): seq<Effect>
    decreases |incoming|
  {
    if incoming == [] then []
    else
      var prefix := incoming[..|incoming| - 1];
      AllEffects(m, prefix) + Effects(HandleAll(m, prefix), incoming[|incoming| - 1])
  }

  // ---------------------------------------------------------------------------
  // The handler, as a listener with mutable variables

  class ExerciseMonitor {
    var taskStartedAt: int
    var taskFinishedAt: Option<int>
    var taskMetricsId: Option<int>
    var rooTaskId: Option<string>
    var isClientDisconnected: bool

    function State(): Monitor
      reads this
    {
      Monitor(taskStartedAt, taskFinishedAt, taskMetricsId, rooTaskId, isClientDisconnected)
    }

    constructor(now: int)
      ensures State() == Initial(now)
    {
      taskStartedAt := now;
      taskFinishedAt := None;
      taskMetricsId := None;
      rooTaskId := None;
      isClientDisconnected := false;
    }

    /** The task-event listener: relay and log unless filtered, then update the
        variables and the store. */
    method OnTaskEvent(e: TaskEvent, now: int, metricsId: int) returns (effects: seq<Effect>)
      modifies this
      ensures State() == NextMonitor(old(State()), e, now, metricsId)
      ensures effects == EventEffects(old(State()), e, now, metricsId)
    {
      effects := [];
      if !e.Message? {
        effects := effects + [Relay(e)];
      }
      if !(e.Message? || e.TaskTokenUsageUpdated? || e.TaskAskResponded?) {
        effects := effects + [Log(e)];
      }
      if e.TaskStarted? {
        taskStartedAt := now;
        effects := effects + [CreateMetrics(ZeroMetrics), MarkStarted(metricsId)];
        taskStartedAt := now;
        taskMetricsId := Some(metricsId);
        rooTaskId := Some(e.agentTaskId);
      }
      if e.TaskToolFailed? {
        effects := effects + [RecordToolError(e.toolName, e.error)];
      }
      if (e.TaskTokenUsageUpdated? || e.TaskCompleted?) && taskMetricsId.Some? && taskMetricsId.value != 0 {
        var duration := now - taskStartedAt;
        var usage := e.usage;
        var cacheWrites := if usage.totalCacheWrites.Some? then usage.totalCacheWrites.value else 0;
        var cacheReads := if usage.totalCacheReads.Some? then usage.totalCacheReads.value else 0;
        effects := effects + [UpdateMetrics(taskMetricsId.value, Metrics(usage.totalCost, usage.totalTokensIn,
          usage.totalTokensOut, usage.contextTokens, duration, cacheWrites, cacheReads))];
      }
      if e.TaskCompleted? && taskMetricsId.Some? && taskMetricsId.value != 0 {
        effects := effects + [UpdateToolUsage(taskMetricsId.value, e.toolUsage)];
      }
      if e.TaskAborted? || e.TaskCompleted? {
        taskFinishedAt := Some(now);
        effects := effects + [MarkFinished];
      }
    }

    /** The disconnect listener. */
    method OnDisconnect()
      modifies this
      ensures State() == old(State()).(disconnected := true)
    {
      isClientDisconnected := true;
    }

    method OnIncoming(incoming: Incoming) returns (effects: seq<Effect>)
      modifies this
      ensures State() == Next(old(State()), incoming)
      ensures effects == Effects(old(State()), incoming)
    {
      match incoming
      case Event(e, now, metricsId) =>
        effects := OnTaskEvent(e, now, metricsId);
      case Disconnect =>
        OnDisconnect();
        effects := [];
    }

    /** Hands the arrivals to the listeners in order. */
    method Feed(incoming: seq<Incoming>) returns (effects: seq<Effect>)
      modifies this
      ensures State() == HandleAll(old(State()), incoming)
      ensures effects == AllEffects(old(State()), incoming)
    {
      effects := [];
      var i := 0;
      while i < |incoming|
        invariant 0 <= i <= |incoming|
        invariant State() == HandleAll(old(State()), incoming[..i])
        invariant effects == AllEffects(old(State()), incoming[..i])
      {
        assert incoming[..i + 1][..i] == incoming[..i];
        var more := OnIncoming(incoming[i]);
        effects := effects + more;
        i := i + 1;
      }
      assert incoming[..i] == incoming;
    }
  }

  // ---------------------------------------------------------------------------
  // The session

  /** What the session tells the agent's side. */
  datatype Command = StartNewTask | CancelTask(agentTaskId: string) | CloseTask(agentTaskId: string) | DisconnectClient

  /** The wait ends early once the task has finished or the connection dropped;
      otherwise it runs out after `TaskTimeout`. */
  predicate WaitSatisfied(m: Monitor) {
    TruthyNumber(m.finishedAt) || m.disconnected
  }

  /** Cancel only a task the agent has named, over a live connection. */
  predicate MayCancel(m: Monitor) {
    TruthyString(m.agentTaskId) && !m.disconnected
  }

  /** The handler's variables once the wait ended. */
  function Waited(startedAt: int, untilWaitEnds: seq<Incoming>): Monitor {
    HandleAll(Initial(startedAt), untilWaitEnds)
  }

  /** The handler's variables once the session winds up: after the wait, or,
      when the wait ran out, after the arrivals while cancelling. */
  function Final(startedAt: int, untilWaitEnds: seq<Incoming>, whileCancelling: seq<Incoming>): Monitor {
    var waited := Waited(startedAt, untilWaitEnds);
    if WaitSatisfied(waited) then waited else HandleAll(waited, whileCancelling)
  }

  /** The commands of a session: a session that cannot connect only
      disconnects. Otherwise it starts the task; if the wait ran out it cancels
      the agent's task (when `MayCancel`); then, over a live connection, it
      closes the agent's task (when named) and disconnects. */
  function SessionCommands(connected: bool, startedAt: int, untilWaitEnds: seq<Incoming>, whileCancelling: seq<Incoming>): seq<Command> {
    if !connected then [DisconnectClient]
    else
      var waited := Waited(startedAt, untilWaitEnds);
      var final := Final(startedAt, untilWaitEnds, whileCancelling);
      [StartNewTask]
      + (if !WaitSatisfied(waited) && MayCancel(waited) then [CancelTask(waited.agentTaskId.value)] else [])
      + (if final.disconnected then []
         else (if TruthyString(final.agentTaskId) then [CloseTask(final.agentTaskId.value)] else []) + [DisconnectClient])
  }

  /** The handler's effects over the session, and the finish time recorded
      when the wait ran out. */
  function SessionEffects(connected: bool, startedAt: int, untilWaitEnds: seq<Incoming>, whileCancelling: seq<Incoming>): seq<Effect> {
    if !connected then []
    else
      var waited := Waited(startedAt, untilWaitEnds);
      AllEffects(Initial(startedAt), untilWaitEnds) +
        (if WaitSatisfied(waited) then [] else AllEffects(waited, whileCancelling) + [MarkFinished])
  }

  /** A session succeeds when it connected and the handler recorded a finish time. */
  predicate SessionSucceeds(connected: bool, startedAt: int, untilWaitEnds: seq<Incoming>, whileCancelling: seq<Incoming>) {
    connected && TruthyNumber(Final(startedAt, untilWaitEnds, whileCancelling).finishedAt)
  }

  /** Runs one task's session against the agent, the arrivals being inputs. */
  method RunExercise(connected: bool, startedAt: int, untilWaitEnds: seq<Incoming>, whileCancelling: seq<Incoming>)
    returns (commands: seq<Command>, effects: seq<Effect>, success: bool)
    ensures commands == SessionCommands(connected, startedAt, untilWaitEnds, whileCancelling)
    ensures effects == SessionEffects(connected, startedAt, untilWaitEnds, whileCancelling)
    ensures success == SessionSucceeds(connected, startedAt, untilWaitEnds, whileCancelling)
  {
    if !connected {
      return [DisconnectClient], [], false;
    }
    var monitor := new ExerciseMonitor(startedAt);
    commands := [StartNewTask];
    effects := monitor.Feed(untilWaitEnds);
    if !((monitor.taskFinishedAt.Some? && monitor.taskFinishedAt.value != 0) || monitor.isClientDisconnected) {
      if monitor.rooTaskId.Some? && monitor.rooTaskId.value != [] && !monitor.isClientDisconnected {
        commands := commands + [CancelTask(monitor.rooTaskId.value)];
      }
      var late := monitor.Feed(whileCancelling);
      effects := effects + late + [MarkFinished];
    }
    if !monitor.isClientDisconnected {
      if monitor.rooTaskId.Some? && monitor.rooTaskId.value != [] {
        commands := commands + [CloseTask(monitor.rooTaskId.value)];
      }
      commands := commands + [DisconnectClient];
    }
    success := monitor.taskFinishedAt.Some? && monitor.taskFinishedAt.value != 0;
  }

  // ---------------------------------------------------------------------------
  // Properties

  predicate Completes(incoming: Incoming) {
    incoming.Event? && (incoming.event.TaskCompleted? || incoming.event.TaskAborted?)
  }

  predicate StartsTask(incoming: Incoming) {
    incoming.Event? && incoming.event.TaskStarted?
  }

  predicate ReadsClock(incoming: seq<Incoming>) {
    forall k :: 0 <= k < |incoming| && incoming[k].Event? ==> incoming[k].now > 0
  }

  predicate WritesMetrics(effect: Effect) {
    effect.UpdateMetrics? || effect.UpdateToolUsage?
  }

  /** Filtering decides only what is relayed and logged: `Message` is never
      relayed, the three chatty events are never logged, every other event is
      both, and a usage report is stored even though it is not logged. */
  lemma FilteringOnlyHidesEvents(m: Monitor, e: TaskEvent, now: int, metricsId: int)
    ensures Relay(e) in EventEffects(m, e, now, metricsId) <==> !e.Message?
    ensures Log(e) in EventEffects(m, e, now, metricsId) <==> !(e.Message? || e.TaskTokenUsageUpdated? || e.TaskAskResponded?)
    ensures e.TaskTokenUsageUpdated? && TruthyNumber(m.metricsId) ==>
      UpdateMetrics(m.metricsId.value, MetricsOf(e.usage, now - m.startedAt)) in EventEffects(m, e, now, metricsId)
  {
    var relay := if Relayed(e) then [Relay(e)] else [];
    var log := if Logged(e) then [Log(e)] else [];
    var store := StoreEffects(m, e, now, metricsId);
    assert EventEffects(m, e, now, metricsId) == relay + log + store;
    assert forall x :: x in store ==> !x.Relay? && !x.Log?;
  }

  /** Until a start has left a metrics id, no metrics are ever written, and the
      handler still has no metrics id. */
  lemma {:induction false} NoMetricsBeforeStart(m: Monitor, incoming: seq<Incoming>)
    requires !TruthyNumber(m.metricsId)
    requires forall k :: 0 <= k < |incoming| ==> !StartsTask(incoming[k])
    ensures !TruthyNumber(HandleAll(m, incoming).metricsId)
    ensures forall x :: x in AllEffects(m, incoming) ==> !WritesMetrics(x)
    decreases |incoming|
  {
    if incoming != [] {
      var prefix := incoming[..|incoming| - 1];
      NoMetricsBeforeStart(m, prefix);
      var before := HandleAll(m, prefix);
      var last := incoming[|incoming| - 1];
      assert !StartsTask(last);
      if last.Event? {
        var e := last.event;
        assert forall x :: x in StoreEffects(before, e, last.now, last.metricsId) ==> !WritesMetrics(x);
        assert forall x :: x in EventEffects(before, e, last.now, last.metricsId) ==> !WritesMetrics(x);
      }
      assert AllEffects(m, incoming) == AllEffects(m, prefix) + Effects(before, last);
    }
  }

  /** With the clock past 0, the handler has a (truthy) finish time exactly when
      a completion or an abort has arrived. */
  lemma {:induction false} FinishedOnlyByCompletion(m: Monitor, incoming: seq<Incoming>)
    requires m.finishedAt.None?
    requires ReadsClock(incoming)
    ensures TruthyNumber(HandleAll(m, incoming).finishedAt) <==> exists k :: 0 <= k < |incoming| && Completes(incoming[k])
    ensures HandleAll(m, incoming).finishedAt.None? <==> !TruthyNumber(HandleAll(m, incoming).finishedAt)
    decreases |incoming|
  {
    if incoming != [] {
      var prefix := incoming[..|incoming| - 1];
      var last := incoming[|incoming| - 1];
      assert ReadsClock(prefix) by {
        forall k | 0 <= k < |prefix| && prefix[k].Event?
          ensures prefix[k].now > 0
        {
          assert prefix[k] == incoming[k];
        }
      }
      FinishedOnlyByCompletion(m, prefix);
      if exists k :: 0 <= k < |prefix| && Completes(prefix[k]) {
        var k :| 0 <= k < |prefix| && Completes(prefix[k]);
        assert incoming[k] == prefix[k];
      }
      if exists k :: 0 <= k < |incoming| && Completes(incoming[k]) {
        var k :| 0 <= k < |incoming| && Completes(incoming[k]);
        if k < |prefix| {
          assert prefix[k] == incoming[k];
        }
      }
    }
  }

  /** A dropped connection stays dropped. */
  lemma {:induction false} DisconnectIsFinal(m: Monitor, incoming: seq<Incoming>)
    requires m.disconnected
    ensures HandleAll(m, incoming).disconnected
    decreases |incoming|
  {
    if incoming != [] {
      DisconnectIsFinal(m, incoming[..|incoming| - 1]);
    }
  }

  /** The cancel command is sent only after the wait ran out, and only for the
      task the agent named, over a live connection. */
  lemma CancelRule(connected: bool, startedAt: int, untilWaitEnds: seq<Incoming>, whileCancelling: seq<Incoming>, id: string)
    ensures var waited := Waited(startedAt, untilWaitEnds);
      CancelTask(id) in SessionCommands(connected, startedAt, untilWaitEnds, whileCancelling) <==>
        connected && !WaitSatisfied(waited) && MayCancel(waited) && waited.agentTaskId == Some(id)
  {
  }

  /** A wait that runs out always ends by recording the finish time. */
  lemma TimeoutRecordsFinish(startedAt: int, untilWaitEnds: seq<Incoming>, whileCancelling: seq<Incoming>)
    requires !WaitSatisfied(Waited(startedAt, untilWaitEnds))
    ensures var effects := SessionEffects(true, startedAt, untilWaitEnds, whileCancelling);
      effects != [] && effects[|effects| - 1] == MarkFinished
  {
  }

  /** A session succeeds exactly when a completion or an abort arrived: before
      the wait ended, or, after a timeout, while cancelling. A timed-out task
      the agent never finished reports failure. */
  lemma SuccessMeansCompletion(startedAt: int, untilWaitEnds: seq<Incoming>, whileCancelling: seq<Incoming>)
    requires ReadsClock(untilWaitEnds) && ReadsClock(whileCancelling)
    ensures var waited := HandleAll(Initial(startedAt), untilWaitEnds);
      var arrived := if WaitSatisfied(waited) then untilWaitEnds else untilWaitEnds + whileCancelling;
      SessionSucceeds(true, startedAt, untilWaitEnds, whileCancelling) <==>
        exists k :: 0 <= k < |arrived| && Completes(arrived[k])
  {
    var waited := HandleAll(Initial(startedAt), untilWaitEnds);
    FinishedOnlyByCompletion(Initial(startedAt), untilWaitEnds);
    if !WaitSatisfied(waited) {
      assert waited.finishedAt.None?;
      FinishedOnlyByCompletion(waited, whileCancelling);
      var arrived := untilWaitEnds + whileCancelling;
      assert !exists k :: 0 <= k < |untilWaitEnds| && Completes(untilWaitEnds[k]);
      assert forall k :: 0 <= k < |untilWaitEnds| ==> arrived[k] == untilWaitEnds[k];
      assert forall k :: 0 <= k < |whileCancelling| ==> arrived[|untilWaitEnds| + k] == whileCancelling[k];
      if exists k :: 0 <= k < |arrived| && Completes(arrived[k]) {
        var k :| 0 <= k < |arrived| && Completes(arrived[k]);
        if k >= |untilWaitEnds| {
          assert Completes(whileCancelling[k - |untilWaitEnds|]);
        }
      }
    }
  }
}
