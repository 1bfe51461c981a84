/** The agent controller as a transition system over event deliveries.

    The event stream is append-only and an event's id is its index in it. A delivery handles one event without
    interruption; events that it emits are appended and delivered later. What the agent, its security analyzer,
    the control flags and a delegate do is chosen by the environment. */
module ControllerSpec {
  import opened Options
  import opened Events
  import opened StuckSpec
  import StuckRecovery

  datatype Config = Config(headless: bool, stateConfirmation: bool, confirmation: bool, cli: bool, analyzer: bool,
                           stuckDetection: bool, truncation: bool, callback: bool)

  /** An action that waits for its observation, and the id under which it was put on the stream. */
  datatype Pending = Pending(action: Event, id: int)

  datatype Controller = Controller(state: AgentState, pending: Option<Pending>, stream: seq<Event>, next: nat,
                                   history: seq<Event>, analysis: Option<Analysis>, delegating: bool)

  datatype Risk = Unknown | Low | Medium | High

  datatype Fault = RateLimit(exhausted: bool) | OtherFault

  /** What happens when the agent is asked for a step. */
  datatype Outcome =
    | LimitHit
    | Act(action: Event, risk: Risk)
    | BadAction(text: string)
    | ContextOverflow
    | Raised(fault: Fault)

  /** What happens to an active delegate: it handles the event, or it has ended. Either way it may emit events. */
  datatype DelegateMove = Handles(emitted: seq<Event>) | Ends(emitted: seq<Event>)

  /** `Arrive`: somebody else puts an event on the stream. `Deliver`: the controller receives the next event.
      `Request`: the state is set by a direct call, as closing the controller does. */
  datatype Move = Arrive(e: Event) | Deliver(outcome: Outcome, delegate: DelegateMove) | Request(target: AgentState)

  // ----- emitting, resetting, changing state -----

  function Emit(c: Controller, e: Event): Controller {
    c.(stream := c.stream + [e])
  }

  /** Only commands and cells have a field for the confirmation state. */
  predicate ShowsConfirmation(kind: RunKind) {
    kind.Command? || kind.Cell?
  }

  /** The copy of an action that the stream keeps and delivers: serialising it keeps its fields and nothing else. */
  function OnStream(e: Event): Event {
    if e.body.Run? && !ShowsConfirmation(e.body.kind) then e.(body := e.body.(confirm := None)) else e
  }

  predicate Answers(e: Event, p: Pending) {
    IsObservation(e) && e.tool == p.action.tool
  }

  const NOT_EXECUTED_STOPPED := "Stop button pressed. The action has not been executed."
  const NOT_EXECUTED_ERROR :=
    "The action has not been executed due to a runtime error. The runtime system may have crashed and " +
    "restarted due to resource constraints. Any previously established system state, dependencies, or " +
    "environment variables may have been lost."

  function NotExecuted(state: AgentState, p: Pending): (e: Event)
    ensures Answers(e, p) && e.cause == Some(p.id)
  {
    var body := if state.Stopped?
                then Failure(NOT_EXECUTED_STOPPED, "AGENT_ERROR$ERROR_ACTION_NOT_EXECUTED_STOPPED")
                else Failure(NOT_EXECUTED_ERROR, "AGENT_ERROR$ERROR_ACTION_NOT_EXECUTED_ERROR");
    Event(body, Agent, Some(p.id), p.action.tool, false)
  }

  /** `_reset`: the pending action is dropped, and gets an observation unless it has one. */
  function Reset(c: Controller): Controller {
    if c.pending.None? then c
    else if exists i :: 0 <= i < |c.history| && Answers(c.history[i], c.pending.value) then c.(pending := None)
    else Emit(c, NotExecuted(c.state, c.pending.value)).(pending := None)
  }

  function Reissued(action: Event, confirm: Confirmation): Event {
    if action.body.Run? then action.(body := action.body.(thought := "", confirm := Some(confirm)), source := Agent)
    else action.(source := Agent)
  }

  predicate Decides(target: AgentState) {
    target.UserConfirmed? || target.UserRejected?
  }

  /** The pending action goes onto the stream again, under a new id. */
  function Reissue(c: Controller, confirm: Confirmation): Controller
    requires c.pending.Some?
  {
    var again := Reissued(c.pending.value.action, confirm);
    Emit(c, OnStream(again)).(pending := Some(Pending(again, |c.stream|)))
  }

  function StateChange(target: AgentState): Event {
    Event(StateChanged(target, ""), Environment, None, None, false)
  }

  /** `set_agent_state_to`. */
  function SetState(c: Controller, target: AgentState): Controller {
    if target == c.state then c
    else
      var c1 := c.(state := target);
      var c2 := if target.Stopped? || target.Error? then Reset(c1) else c1;
      var c3 := if c2.pending.Some? && Decides(target)
                then Reissue(c2, if target.UserConfirmed? then Confirmed else Denied) else c2;
      Emit(c3, StateChange(target))
  }

  // ----- handlers -----

  /** `_handle_observation`. */
  function HandleObservation(c: Controller, e: Event): Controller {
    if c.pending.Some? && e.cause == Some(c.pending.value.id) && !c.state.AwaitingUserConfirmation? then
      var c1 := c.(pending := None);
      if c1.state.UserConfirmed? then SetState(c1, Running)
      else if c1.state.UserRejected? then SetState(c1, AwaitingUserInput)
      else c1
    else c
  }

  function RecallFor(text: string): Event {
    Event(Run(Recall, text, "", None), User, None, None, false)
  }

  /** `_handle_message_action`. */
  function HandleMessage(c: Controller, text: string, wait: bool, source: Source): Controller {
    match source
    case User =>
      var recall := RecallFor(text);
      SetState(Emit(c, recall).(pending := Some(Pending(recall, |c.stream|))), Running)
    case Agent => if wait then SetState(c, AwaitingUserInput) else c
    case Environment => c
  }

  const RECOVERED := Event(OtherObservation("loop recovery"), Environment, None, None, false)

  /** `_perform_loop_recovery`. */
  function Recover(c: Controller, point: nat): Controller {
    Emit(SetState(c.(history := StuckRecovery.Truncate(c.history, point)), AwaitingUserInput), RECOVERED)
  }

  /** `_restart_with_last_user_message`. */
  function Restart(c: Controller, point: nat): Controller {
    var k := AfterLastUserMessage(c.history);
    if k == 0 then Recover(c, point)
    else
      var c1 := Emit(SetState(c.(history := StuckRecovery.Truncate(c.history, point)), Running), RECOVERED);
      HandleMessage(c1, c.history[k - 1].body.text, false, User)
  }

  /** `_handle_loop_recovery_action`. */
  function HandleRecovery(c: Controller, option: int): Controller {
    if c.analysis.None? then c
    else if option == 1 then Recover(c, c.analysis.value.start)
    else if option == 2 then Restart(c, c.analysis.value.start)
    else if option == 3 then SetState(c, Stopped)
    else c
  }

  /** `_handle_action`. */
  function HandleAction(c: Controller, e: Event): Controller {
    match e.body
    case ChangeState(target) => SetState(c, target)
    case Message(text, wait) => HandleMessage(c, text, wait, e.source)
    case Delegate(task) =>
      var c1 := c.(delegating := true);
      if task.Some? then Emit(c1, Event(Message("TASK: " + task.value, false), User, None, None, false)) else c1
    case Finish => SetState(c, Finished)
    case Reject => SetState(c, Rejected)
    case LoopRecovery(option) => HandleRecovery(c, option)
    case _ => c
  }

  function Handle(c: Controller, e: Event): Controller {
    if IsAction(e) then HandleAction(c, e) else HandleObservation(c, e)
  }

  /** `should_step`. */
  predicate ShouldStep(c: Controller, e: Event) {
    && !c.delegating
    && (match e.body
        case Message(_, _) => e.source == User || !c.state.AwaitingUserInput?
        case Delegate(_) => true
        case Condense => true
        case CondenseRequest => true
        case NullObservation => e.cause.Some? && e.cause.value > 0
        case StateChanged(_, _) => false
        case _ => IsObservation(e))
  }

  // ----- stepping -----

  /** `_react_to_exception`. */
  function React(c: Controller, cfg: Config, fault: Fault): Controller {
    if cfg.callback && fault.RateLimit? && !fault.exhausted then SetState(c, RateLimited) else SetState(c, Error)
  }

  predicate Gated(kind: RunKind) {
    kind.Command? || kind.Cell? || kind.Browse? || kind.FileEdit? || kind.FileRead?
  }

  /** The confirmation state that a step gives to an action. */
  function Confirmable(cfg: Config, action: Event, risk: Risk): Event {
    if action.body.Run? && cfg.stateConfirmation && Gated(action.body.kind) then
      var seen := if cfg.analyzer then risk else Unknown;
      if cfg.cli || ((seen.High? || (seen.Unknown? && !cfg.analyzer)) && cfg.confirmation) then
        action.(body := action.body.(confirm := Some(Awaiting)))
      else action
    else action
  }

  predicate NeedsConfirmation(action: Event) {
    Runnable(action) && action.body.confirm == Some(Awaiting)
  }

  /** The end of `_step`, once there is an action. */
  function Perform(c: Controller, action: Event): Controller {
    if action.body.NullAction? then c
    else
      var c1 := if NeedsConfirmation(action) then SetState(c, AwaitingUserConfirmation) else c;
      var c2 := if Runnable(action) then c1.(pending := Some(Pending(action, |c1.stream|))) else c1;
      Emit(c2, OnStream(action))
  }

  function Complaint(text: string): Event {
    Event(Failure(text, ""), Agent, None, None, false)
  }

  /** The stuck check at the beginning of a step. */
  function Examine(c: Controller, cfg: Config): Controller {
    if cfg.stuckDetection then c.(analysis := NextAnalysis(c.history, cfg.headless, c.analysis)) else c
  }

  predicate Stuck(c: Controller, cfg: Config) {
    cfg.stuckDetection && Verdict(c.history, cfg.headless).Some?
  }

  predicate CanStep(c: Controller) {
    c.state.Running? && c.pending.None?
  }

  /** `_step_with_exception_handling`. */
  function Step(c: Controller, cfg: Config, outcome: Outcome): Controller {
    if !CanStep(c) then c
    else
      var c1 := Examine(c, cfg);
      if Stuck(c, cfg) then React(c1, cfg, OtherFault)
      else
        match outcome
        case LimitHit => React(c1, cfg, OtherFault)
        case Act(action, risk) => Perform(c1, Confirmable(cfg, action, risk))
        case BadAction(text) => Emit(c1, Complaint(text))
        case ContextOverflow =>
          if cfg.truncation then Emit(c1, Event(CondenseRequest, Agent, None, None, false))
          else React(c1, cfg, OtherFault)
        case Raised(fault) => React(c1, cfg, fault)
  }

  // ----- delivering -----

  predicate Recorded(e: Event) {
    !IsNull(e) && !e.body.ChangeState? && !e.body.StateChanged?
  }

  function Record(c: Controller, e: Event): Controller {
    if Recorded(e) then c.(history := c.history + [e]) else c
  }

  /** The tool call that the last delegation in the history came from. */
  function DelegationTool(history: seq<Event>): Option<string> {
    if history == [] then None
    else
      var last := |history| - 1;
      if history[last].body.Delegate? then history[last].tool else DelegationTool(history[..last])
  }

  /** `on_event`, while a delegate is active. */
  function ForDelegate(c: Controller, move: DelegateMove): Controller {
    match move
    case Handles(emitted) => c.(stream := c.stream + emitted)
    case Ends(emitted) =>
      Emit(c.(stream := c.stream + emitted),
           Event(OtherObservation("delegate ended"), Agent, None, DelegationTool(c.history), false))
      .(delegating := false)
  }

  /** The state right before a step: the next event is taken from the stream, recorded and handled. */
  function Handled(c: Controller): Controller
    requires c.next < |c.stream|
  {
    var e := c.stream[c.next];
    Handle(Record(c.(next := c.next + 1), e), e)
  }

  /** The next event is for this controller. */
  predicate Concerns(c: Controller) {
    c.next < |c.stream| && !c.delegating && !c.stream[c.next].hidden
  }

  predicate Enabled(c: Controller, move: Move) {
    move.Deliver? ==> c.next < |c.stream|
  }

  function Next(c: Controller, cfg: Config, move: Move): Controller
    requires Enabled(c, move)
  {
    match move
    case Arrive(e) => Emit(c, e)
    case Request(target) => SetState(c, target)
    case Deliver(outcome, delegate) =>
      var e := c.stream[c.next];
      if c.delegating then ForDelegate(c.(next := c.next + 1), delegate)
      else if e.hidden then c.(next := c.next + 1)
      else
        var c1 := Handled(c);
        if ShouldStep(c1, e) then Step(c1, cfg, outcome) else c1
  }

  /** The stream has the copy of a pending action under its id. */
  ghost predicate PendingOnStream(c: Controller) {
    && c.next <= |c.stream|
    && (c.pending.Some? ==> var p := c.pending.value;
          p.action.body.Run? && 0 <= p.id < |c.stream| && c.stream[p.id] == OnStream(p.action))
  }

  predicate Ended(state: AgentState) {
    state.Stopped? || state.Error?
  }

  ghost predicate Valid(c: Controller) {
    PendingOnStream(c) && (Ended(c.state) ==> c.pending.None?)
  }

  const INITIAL := Controller(Loading, None, [], 0, [], None, false)

  ghost predicate Legal(c: Controller, cfg: Config, moves: seq<Move>)
    decreases |moves|
  {
    moves == [] || (Enabled(c, moves[0]) && Legal(Next(c, cfg, moves[0]), cfg, moves[1..]))
  }

  ghost function After(c: Controller, cfg: Config, moves: seq<Move>): Controller
    requires Legal(c, cfg, moves)
    decreases |moves|
  {
    if moves == [] then c else After(Next(c, cfg, moves[0]), cfg, moves[1..])
  }
}
