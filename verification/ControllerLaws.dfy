/** What the controller's operations do, spelled out event by event and state by state: the content of what they put on
    the stream, the state they lead to, and what becomes of the pending action. */
module ControllerLaws {
  import opened Options
  import opened Events
  import opened StuckSpec
  import opened ControllerSpec
  import opened ControllerRuns
  import StuckRecovery
  import RecoveryRuns

  function Announcement(state: AgentState): Event {
    Event(StateChanged(state, ""), Environment, None, None, false)
  }

  // ----- changes of state -----

  /** A decision puts the pending action on the stream again and keeps it pending under the new id: as confirmed if the
      user confirmed, as rejected if the user rejected. The stream shows which for commands and cells. */
  lemma DecisionLaw(c: Controller, target: AgentState)
    requires Valid(c) && target in {UserConfirmed, UserRejected} && target != c.state && c.pending.Some?
    ensures var r, b := SetState(c, target), c.pending.value.action.body;
      var decision := if target == UserConfirmed then Confirmed else Denied;
      && r.state == target && |r.stream| == |c.stream| + 2 && r.stream[|c.stream| + 1] == Announcement(target)
      && r.pending.Some? && r.pending.value.id == |c.stream|
      && r.pending.value.action.body == Run(b.kind, b.code, "", Some(decision))
      && r.pending.value.action.tool == c.pending.value.action.tool
      && var copy := r.stream[|c.stream|];
      && copy.body == Run(b.kind, b.code, "", if b.kind in {Command, Cell} then Some(decision) else None)
      && copy.source == Agent && copy.tool == c.pending.value.action.tool
  {
    hide NotExecuted;
  }

  /** Stopping and failing drop the pending action. Unless the history has an observation for its tool call, an error
      observation with the cause and the tool call of the action goes onto the stream; it says which of the two it
      was. */
  lemma ResetLaw(c: Controller, target: AgentState)
    requires target in {Stopped, Error} && target != c.state && c.pending.Some?
    ensures var r, p := SetState(c, target), c.pending.value;
      && r.state == target && r.pending.None? && r.history == c.history
      && if exists i :: 0 <= i < |c.history| && Answers(c.history[i], p) then
           r.stream == c.stream + [Announcement(target)]
         else
           && |r.stream| == |c.stream| + 2 && r.stream[|c.stream| + 1] == Announcement(target)
           && var e := r.stream[|c.stream|];
           && e.body == NotExecutedBody(target)
           && e.cause == Some(p.id) && e.tool == p.action.tool && e.source == Agent && !e.hidden
  {
    NotExecutedLaw(target, c.pending.value);
    hide NotExecuted;
    hide NotExecutedBody;
  }

  function NotExecutedBody(target: AgentState): Body {
    if target == Stopped then Failure(NOT_EXECUTED_STOPPED, "AGENT_ERROR$ERROR_ACTION_NOT_EXECUTED_STOPPED")
    else Failure(NOT_EXECUTED_ERROR, "AGENT_ERROR$ERROR_ACTION_NOT_EXECUTED_ERROR")
  }

  lemma NotExecutedLaw(target: AgentState, p: Pending)
    ensures NotExecuted(target, p) == Event(NotExecutedBody(target), Agent, Some(p.id), p.action.tool, false)
  {
  }

  /** Every other change of state is just announced, and there is none to the same state. */
  lemma PlainChangeLaw(c: Controller, target: AgentState)
    requires target == c.state || c.pending.None? || target !in {Stopped, Error, UserConfirmed, UserRejected}
    ensures SetState(c, target)
         == if target == c.state then c else c.(state := target, stream := c.stream + [Announcement(target)])
  {
  }

  // ----- actions -----

  /** A user message asks for a retrieval with its text and sets the controller running; an agent's message that waits
      for a response makes the controller wait; other messages have no effect. */
  lemma MessageLaw(c: Controller, e: Event)
    requires e.body.Message?
    ensures var r, recall := HandleAction(c, e), Event(Run(Recall, e.body.text, "", None), User, None, None, false);
      && r.history == c.history
      && (e.source == User ==>
            && r.state == Running && r.pending == Some(Pending(recall, |c.stream|))
            && r.stream == c.stream + [recall] + if c.state == Running then [] else [Announcement(Running)])
      && (e.source == Agent && e.body.wait ==> r.state == AwaitingUserInput && r.pending == c.pending)
      && (e.source != User && !(e.source == Agent && e.body.wait) ==> r == c)
  {
  }

  lemma EndLaw(c: Controller, e: Event)
    requires e.body.Finish? || e.body.Reject?
    ensures var r := HandleAction(c, e);
      && r.state == (if e.body.Finish? then Finished else Rejected)
      && r.pending == c.pending && r.history == c.history
      && r.stream == c.stream + if r.state == c.state then [] else [Announcement(r.state)]
  {
  }

  /** The notice that recovery has taken place. */
  const NOTICE := Event(OtherObservation("loop recovery"), Environment, None, None, false)

  /** Options 1 and 3 of loop recovery: wait for new instructions, or stop. Option 2 is like option 1 if there is no
      user message to start again with. Without an analysis, or for other options, nothing happens. */
  lemma RecoveryLaw(c: Controller, e: Event)
    requires Valid(c) && e.body.LoopRecovery?
    ensures var r, option := HandleAction(c, e), e.body.option;
      && (c.analysis.None? || option !in {1, 2, 3} ==> r == c)
      && (c.analysis.Some? && (option == 1 || (option == 2 && NoUserMessage(c.history))) ==>
            && r.state == AwaitingUserInput && r.pending == c.pending
            && |r.stream| > |c.stream| && r.stream[|r.stream| - 1] == NOTICE)
      && (c.analysis.Some? && option == 3 ==> r.state == Stopped && r.pending.None? && r.history == c.history)
  {
    hide SetState;
    hide Recover;
    SetStateFacts(c, Stopped);
    if c.analysis.Some? {
      RecoverStates(c, c.analysis.value.start);
    }
  }

  /** Option 2: start again with the text of the last user message. */
  lemma RestartLaw(c: Controller, e: Event, k: nat)
    requires Valid(c) && e.body == LoopRecovery(2) && c.analysis.Some? && LastMessageAt(c.history, k)
    ensures var r := HandleAction(c, e);
      && r.state == Running && r.pending.Some?
      && r.pending.value.action.body == Run(Recall, c.history[k].body.text, "", None)
      && NOTICE in r.stream[|c.stream|..]
  {
    hide SetState;
    hide Restart;
    assert AfterLastUserMessage(c.history) == k + 1;
    RestartStates(c, c.analysis.value.start, k);
  }

  lemma RecoverStates(c: Controller, point: nat)
    requires Valid(c)
    ensures var r := Recover(c, point);
      && r.state == AwaitingUserInput && r.pending == c.pending
      && |r.stream| > |c.stream| && r.stream[|r.stream| - 1] == NOTICE
  {
    hide SetState;
    RecoverFacts(c, point);
    SetStateFacts(c.(history := StuckRecovery.Truncate(c.history, point)), AwaitingUserInput);
  }

  lemma RestartStates(c: Controller, point: nat, k: nat)
    requires Valid(c) && AfterLastUserMessage(c.history) == k + 1
    ensures var r := Restart(c, point);
      && r.state == Running && r.pending.Some? && |r.stream| > |c.stream|
      && r.pending.value.action.body == Run(Recall, c.history[k].body.text, "", None)
      && NOTICE in r.stream[|c.stream|..]
  {
    hide SetState;
    hide HandleMessage;
    var shorter := c.(history := StuckRecovery.Truncate(c.history, point));
    SetStateFacts(shorter, Running);
    var c1 := Emit(SetState(shorter, Running), RECOVERED);
    UserMessageStates(c1, c.history[k].body.text, false);
    var at := |c1.stream| - 1;
    assert Restart(c, point).stream[|c.stream|..][at - |c.stream|] == NOTICE;
  }

  lemma UserMessageStates(c: Controller, text: string, wait: bool)
    ensures var r := HandleMessage(c, text, wait, User);
      && r.state == Running && r.pending.Some? && r.pending.value.action.body == Run(Recall, text, "", None)
      && c.stream < r.stream
  {
  }

  /** Starting a delegate hands it its task, if any, in the user's name. */
  lemma DelegationLaw(c: Controller, e: Event)
    requires e.body.Delegate?
    ensures var r := HandleAction(c, e);
      && r.delegating && r.state == c.state && r.pending == c.pending && r.history == c.history
      && r.stream == c.stream + match e.body.task
                                case None => []
                                case Some(task) => [Event(Message("TASK: " + task, false), User, None, None, false)]
  {
  }

  /** While the delegate is active, its parent does nothing but pass events on; when it has ended, the parent reports
      this with the tool call of the last delegation (which is at position `k` of the history), and takes over. */
  lemma DelegateLaw(c: Controller, cfg: Config, move: Move, k: nat)
    requires move.Deliver? && Enabled(c, move) && c.delegating
    requires k < |c.history| && c.history[k].body.Delegate?
    requires forall i :: k < i < |c.history| ==> !c.history[i].body.Delegate?
    ensures var r := Next(c, cfg, move);
      && r == c.(next := c.next + 1, stream := r.stream, delegating := r.delegating)
      && (r.delegating <==> move.delegate.Handles?)
      && match move.delegate
         case Handles(emitted) => r.stream == c.stream + emitted
         case Ends(emitted) =>
           && |r.stream| == |c.stream| + |emitted| + 1 && c.stream + emitted <= r.stream
           && var report := r.stream[|r.stream| - 1];
           IsObservation(report) && report.source == Agent && report.tool == c.history[k].tool
  {
    LastDelegation(c.history, k);
    hide DelegationTool;
  }

  lemma {:induction false} LastDelegation(history: seq<Event>, k: nat)
    requires k < |history| && history[k].body.Delegate?
    requires forall i :: k < i < |history| ==> !history[i].body.Delegate?
    ensures DelegationTool(history) == history[k].tool
  {
    if k < |history| - 1 {
      LastDelegation(history[..|history| - 1], k);
    }
  }

  /** All other actions are left to the runtime or the memory. */
  lemma OtherActionLaw(c: Controller, e: Event)
    requires e.body.Run? || e.body.Condense? || e.body.CondenseRequest? || e.body.NullAction? || e.body.OtherAction?
    ensures HandleAction(c, e) == c
  {
  }

  // ----- observations -----

  /** The awaited observation ends the wait for it: a confirmed action sets the controller running, a rejected one makes
      it wait for input, and in any other state nothing else changes. While the controller waits for confirmation, and
      for observations of something else, nothing happens. */
  lemma ObservationLaw(c: Controller, e: Event)
    requires IsObservation(e)
    ensures var r := HandleObservation(c, e);
      if c.pending.None? || e.cause != Some(c.pending.value.id) || c.state == AwaitingUserConfirmation then r == c
      else if c.state == UserConfirmed then
        r == c.(pending := None, state := Running, stream := c.stream + [Announcement(Running)])
      else if c.state == UserRejected then
        r == c.(pending := None, state := AwaitingUserInput, stream := c.stream + [Announcement(AwaitingUserInput)])
      else r == c.(pending := None)
  {
  }

  /** So when a rejected action gets its observation, the controller waits for the user and does not step. */
  lemma RejectedActionEnds(c: Controller, cfg: Config, move: Move)
    requires move.Deliver? && Concerns(c) && c.state == UserRejected && IsObservation(c.stream[c.next])
    requires c.pending.Some? && c.stream[c.next].cause == Some(c.pending.value.id)
    ensures Next(c, cfg, move).state == AwaitingUserInput && Next(c, cfg, move).pending.None?
  {
    hide HandleObservation;
    ObservationLaw(Record(c.(next := c.next + 1), c.stream[c.next]), c.stream[c.next]);
  }

  // ----- recording and stepping -----

  /** What goes into the history: everything but null events, state requests and announcements. */
  lemma HistoryLaw(c: Controller)
    requires Concerns(c) && !c.stream[c.next].body.LoopRecovery?
    ensures var e := c.stream[c.next];
      Handled(c).history == c.history + match e.body
                                        case NullAction => []
                                        case NullObservation => []
                                        case ChangeState(_) => []
                                        case StateChanged(_, _) => []
                                        case _ => [e]
  {
    hide HandleAction;
    hide HandleObservation;
    HandlersKeepHistory(Record(c.(next := c.next + 1), c.stream[c.next]), c.stream[c.next]);
  }

  lemma HandlersKeepHistory(c: Controller, e: Event)
    requires !e.body.LoopRecovery?
    ensures HandleAction(c, e).history == c.history && HandleObservation(c, e).history == c.history
  {
    hide SetState;
    var recall := RecallFor(if e.body.Message? then e.body.text else "");
    RecoveryRuns.SetStateFrame(Emit(c, recall).(pending := Some(Pending(recall, |c.stream|))), Running);
    RecoveryRuns.SetStateFrame(c.(pending := None), Running);
    RecoveryRuns.SetStateFrame(c.(pending := None), AwaitingUserInput);
    RecoveryRuns.SetStateFrame(c, AwaitingUserInput);
    RecoveryRuns.SetStateFrame(c, Finished);
    RecoveryRuns.SetStateFrame(c, Rejected);
    if e.body.ChangeState? {
      RecoveryRuns.SetStateFrame(c, e.body.target);
    }
  }

  /** Hidden events are skipped altogether. */
  lemma HiddenLaw(c: Controller, cfg: Config, move: Move)
    requires move.Deliver? && Enabled(c, move) && !c.delegating && c.stream[c.next].hidden
    ensures Next(c, cfg, move) == c.(next := c.next + 1)
  {
  }

  /** Which actions make the agent step: messages of the user, other messages unless the controller waits for input,
      delegations and condensations. Never while a delegate is active. */
  lemma ActionsThatStep(c: Controller, e: Event)
    requires IsAction(e)
    ensures ShouldStep(c, e) <==>
      && !c.delegating
      && (|| IsUserMessage(e)
          || (e.body.Message? && c.state != AwaitingUserInput)
          || e.body.Delegate? || e.body.Condense? || e.body.CondenseRequest?)
  {
  }

  /** Which observations do: all but announcements of states, and null observations without a cause above 0. */
  lemma ObservationsThatStep(c: Controller, e: Event)
    requires IsObservation(e)
    ensures ShouldStep(c, e) <==>
      && !c.delegating && !e.body.StateChanged?
      && !(e.body.NullObservation? && (e.cause.None? || e.cause.value <= 0))
  {
  }

  /** A rate limit that is still being retried, with somebody to be told, leads to its own state; everything else to
      the error state, which drops the pending action. */
  lemma FaultLaw(c: Controller, cfg: Config, fault: Fault)
    requires CanStep(c)
    ensures React(c, cfg, fault)
         == var state := if cfg.callback && fault == RateLimit(false) then RateLimited else Error;
            c.(state := state, stream := c.stream + [Announcement(state)])
  {
  }

  /** What the runtime executes; retrievals are up to the memory. */
  predicate ForRuntime(action: Event) {
    action.body.Run? && action.body.kind in {Command, Cell, Browse, FileEdit, FileRead, OtherRun}
  }

  /** The outcomes of a step that is possible, if no loop is found or nobody looks for one. */
  lemma StepLaw(c: Controller, cfg: Config, outcome: Outcome)
    requires c.state == Running && c.pending.None?
    requires cfg.stuckDetection ==> Verdict(c.history, cfg.headless).None?
    ensures var r := Step(c, cfg, outcome);
      match outcome
      case LimitHit => r.state == Error && r.pending.None?
      case BadAction(text) =>
        && r.state == Running && r.pending.None?
        && r.stream == c.stream + [Event(Failure(text, ""), Agent, None, None, false)]
      case ContextOverflow =>
        && r.pending.None?
        && (cfg.truncation ==>
              r.state == Running && r.stream == c.stream + [Event(CondenseRequest, Agent, None, None, false)])
        && (!cfg.truncation ==> r.state == Error)
      case Raised(fault) =>
        && r.pending.None?
        && r.state == if cfg.callback && fault == RateLimit(false) then RateLimited else Error
      case Act(action, _) =>
        && (action.body.NullAction? ==> r.stream == c.stream && r.state == Running && r.pending.None?)
        && (ForRuntime(action) ==> r.pending.Some?)
        && (!action.body.NullAction? && !ForRuntime(action) ==>
              && r.state == Running && r.pending.None?
              && |r.stream| == |c.stream| + 1 && StreamCopy(r.stream[|c.stream|], action))
  {
    hide Verdict;
    hide NextAnalysis;
    hide React;
    var c1 := Examine(c, cfg);
    FaultLaw(c1, cfg, OtherFault);
    if outcome.Raised? {
      FaultLaw(c1, cfg, outcome.fault);
    }
  }

  /** A loop that is found ends the step in the error state. */
  lemma StuckLaw(c: Controller, cfg: Config, outcome: Outcome)
    requires c.state == Running && c.pending.None? && cfg.stuckDetection && Verdict(c.history, cfg.headless).Some?
    ensures Step(c, cfg, outcome).state == Error && Step(c, cfg, outcome).pending.None?
  {
    hide Verdict;
    hide NextAnalysis;
    hide React;
    FaultLaw(Examine(c, cfg), cfg, OtherFault);
  }

  /** Nothing happens while the controller is not running or waits for an observation. */
  lemma NoStepLaw(c: Controller, cfg: Config, outcome: Outcome)
    requires c.state != Running || c.pending.Some?
    ensures Step(c, cfg, outcome) == c
  {
  }

  /** The options of loop recovery, lifted to the delivery of the request: it is recorded first, and no step follows. */
  lemma RecoveryMove(c: Controller, cfg: Config, move: Move)
    requires Valid(c) && RecoveryRuns.Recovers(c, move) && c.analysis.Some?
    ensures var r, option := Next(c, cfg, move), c.stream[c.next].body.option;
      && (option == 1 ==> r.state == AwaitingUserInput && r.pending == c.pending)
      && (option == 3 ==> r.state == Stopped && r.pending.None?)
  {
    hide HandleAction;
    hide HandleObservation;
    RecoveryLaw(Record(c.(next := c.next + 1), c.stream[c.next]), c.stream[c.next]);
  }

  lemma RestartMove(c: Controller, cfg: Config, move: Move, k: nat)
    requires Valid(c) && RecoveryRuns.Recovers(c, move) && c.analysis.Some?
    requires c.stream[c.next].body.option == 2 && LastMessageAt(c.history, k)
    ensures var r := Next(c, cfg, move);
      && r.state == Running && r.pending.Some?
      && r.pending.value.action.body == Run(Recall, c.history[k].body.text, "", None)
  {
    hide HandleAction;
    hide HandleObservation;
    RestartLaw(Record(c.(next := c.next + 1), c.stream[c.next]), c.stream[c.next], k);
  }
}
