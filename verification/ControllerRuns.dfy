/** What holds over every run of the agent controller. */
module ControllerRuns {
  import opened Options
  import opened Events
  import opened ControllerSpec
  import opened StuckSpec

  // ----- one change of state -----

  predicate AgentAction(e: Event) {
    IsAction(e) && e.source == Agent
  }

  /** `a` is the action `b` with the given decision of the user: same kind and code, no thought, same tool call. */
  predicate DecidedCopy(a: Event, b: Event, decision: Confirmation) {
    && b.body.Run? && a.body == Run(b.body.kind, b.body.code, "", Some(decision))
    && a.source == Agent && a.tool == b.tool && a.cause == b.cause && a.hidden == b.hidden
  }

  /** `s` is what the stream keeps of the action `a`: commands and cells as they are, other runnable actions without
      the confirmation state. */
  predicate StreamCopy(s: Event, a: Event) {
    if a.body.Run? && a.body.kind !in {Command, Cell} then
      s.body == Run(a.body.kind, a.body.code, a.body.thought, None) && s == a.(body := s.body)
    else s == a
  }

  /** Position `k` of the stream holds the pending action of `c`, put there once more with the user's decision. */
  predicate ReissuedAt(c: Controller, target: AgentState, r: Controller, k: nat) {
    && Decides(target) && target != c.state && c.pending.Some?
    && k == |c.stream| < |r.stream|
    && r.pending.Some? && r.pending.value.id == k
    && DecidedCopy(r.pending.value.action, c.pending.value.action, if target == UserConfirmed then Confirmed else
        Denied)
    && StreamCopy(r.stream[k], r.pending.value.action)
  }

  lemma SetStateFacts(c: Controller, target: AgentState)
    requires PendingOnStream(c)
    requires Ended(c.state) && target == c.state ==> c.pending.None?
    ensures var r := SetState(c, target);
      && r.state == target && r.next == c.next && r.delegating == c.delegating && c.stream <= r.stream
      && r.history == c.history && r.analysis == c.analysis
      && PendingOnStream(r)
      && (Ended(target) ==> r.pending.None?)
      && (!Ended(target) ==> (r.pending.Some? <==> c.pending.Some?))
      && (!Ended(target) && !Decides(target) ==> r.pending == c.pending)
      && (r.pending != c.pending && r.pending.Some? ==> ReissuedAt(c, target, r, |c.stream|))
    ensures var r := SetState(c, target);
      forall k :: |c.stream| <= k < |r.stream| && IsAction(r.stream[k]) ==> ReissuedAt(c, target, r, k)
  {
    hide NotExecuted;
    if target != c.state && Ended(target) {
      var c1 := c.(state := target);
      assert Reset(c1).pending.None?;
    }
  }

  /** A reset leaves an observation that carries the metadata of the pending action's tool call. */
  lemma ResetAnswersPending(c: Controller, target: AgentState)
    requires Ended(target) && target != c.state && c.pending.Some?
    ensures var r := SetState(c, target);
      && r.pending.None?
      && (exists e :: (e in r.history || e in r.stream) && Answers(e, c.pending.value))
  {
    hide NotExecuted;
    var r := SetState(c, target);
    if i :| 0 <= i < |c.history| && Answers(c.history[i], c.pending.value) {
      assert c.history[i] in r.history;
    } else {
      var error := NotExecuted(target, c.pending.value);
      assert r.stream[|c.stream|] == error;
    }
  }

  // ----- one handled event -----

  /** The observation that the pending action is waiting for. */
  predicate Matches(c: Controller, e: Event) {
    IsObservation(e) && c.pending.Some? && e.cause == Some(c.pending.value.id) && !c.state.AwaitingUserConfirmation?
  }

  /** Events by which the user, or somebody else, asks for something. */
  predicate Asks(e: Event) {
    e.body.ChangeState? || e.body.LoopRecovery? || IsUserMessage(e)
  }

  /** Events that put the retrieval for a user message in the place of the pending action. */
  predicate Supersedes(e: Event) {
    IsUserMessage(e) || e.body.LoopRecovery?
  }

  /** `a` is `b`, or `b` put on the stream again with the user's decision. */
  predicate Stems(a: Event, b: Event) {
    a == b || DecidedCopy(a, b, Confirmed) || DecidedCopy(a, b, Denied)
  }

  /** States in which no step is possible until somebody asks for something. */
  predicate Blocked(state: AgentState) {
    !state.Running? && !state.UserConfirmed?
  }

  ghost predicate HandledWell(c: Controller, e: Event, r: Controller) {
    && Valid(r) && c.stream <= r.stream && r.next == c.next
    && (c.pending.Some? && !Matches(c, e) && !Ended(r.state) ==> r.pending.Some?)
    && (r.pending.Some? && !Supersedes(e) ==> c.pending.Some? && Stems(r.pending.value.action, c.pending.value.action))
    && (!Asks(e) && Blocked(c.state) ==> Blocked(r.state))
    && (!Asks(e) ==> r.pending == c.pending || (Matches(c, e) && r.pending.None?))
    && (forall k :: |c.stream| <= k < |r.stream| && AgentAction(r.stream[k]) ==>
          e.body.ChangeState? && ReissuedAt(c, e.body.target, r, k))
  }

  lemma MessageFacts(c: Controller, text: string, wait: bool, source: Source)
    requires Valid(c)
    ensures var r := HandleMessage(c, text, wait, source);
      && Valid(r) && c.stream <= r.stream && r.next == c.next
      && (source == User ==> r.pending.Some? && r.state.Running?)
      && (source != User ==> r.pending == c.pending && (r.state == c.state || r.state.AwaitingUserInput?))
      && forall k :: |c.stream| <= k < |r.stream| ==> !AgentAction(r.stream[k])
  {
    if source == User {
      var recall := RecallFor(text);
      SetStateFacts(Emit(c, recall).(pending := Some(Pending(recall, |c.stream|))), Running);
    } else {
      SetStateFacts(c, AwaitingUserInput);
    }
    hide SetState;
  }

  lemma RecoverFacts(c: Controller, point: nat)
    requires Valid(c)
    ensures var r := Recover(c, point);
      && Valid(r) && c.stream <= r.stream && r.next == c.next && r.pending == c.pending && r.state.AwaitingUserInput?
      && forall k :: |c.stream| <= k < |r.stream| ==> !AgentAction(r.stream[k])
  {
    hide SetState;
    SetStateFacts(c.(history := StuckRecovery.Truncate(c.history, point)), AwaitingUserInput);
  }

  lemma RestartFacts(c: Controller, point: nat)
    requires Valid(c)
    ensures var r := Restart(c, point);
      && Valid(r) && c.stream <= r.stream && r.next == c.next
      && (c.pending.Some? ==> r.pending.Some?) && !Ended(r.state)
      && forall k :: |c.stream| <= k < |r.stream| ==> !AgentAction(r.stream[k])
  {
    hide SetState;
    hide HandleMessage;
    hide Recover;
    RecoverFacts(c, point);
    var k := AfterLastUserMessage(c.history);
    if k != 0 {
      var shorter := c.(history := StuckRecovery.Truncate(c.history, point));
      SetStateFacts(shorter, Running);
      MessageFacts(Emit(SetState(shorter, Running), RECOVERED), c.history[k - 1].body.text, false, User);
    }
  }

  lemma ObservationFacts(c: Controller, e: Event)
    requires Valid(c) && IsObservation(e)
    ensures HandledWell(c, e, HandleObservation(c, e))
  {
    hide SetState;
    SetStateFacts(c.(pending := None), Running);
    SetStateFacts(c.(pending := None), AwaitingUserInput);
  }

  lemma ActionFacts(c: Controller, e: Event)
    requires Valid(c) && IsAction(e)
    ensures HandledWell(c, e, HandleAction(c, e))
  {
    hide SetState;
    hide HandleMessage;
    hide Recover;
    hide Restart;
    match e.body
    case ChangeState(target) => SetStateFacts(c, target);
    case Message(text, wait) => MessageFacts(c, text, wait, e.source);
    case Finish => SetStateFacts(c, Finished);
    case Reject => SetStateFacts(c, Rejected);
    case LoopRecovery(option) => LoopRecoveryFacts(c, e);
    case _ =>
  }

  lemma LoopRecoveryFacts(c: Controller, e: Event)
    requires Valid(c) && e.body.LoopRecovery?
    ensures HandledWell(c, e, HandleAction(c, e))
  {
    hide SetState;
    hide HandleMessage;
    hide Recover;
    hide Restart;
    SetStateFacts(c, Stopped);
    if c.analysis.Some? {
      RecoverFacts(c, c.analysis.value.start);
      RestartFacts(c, c.analysis.value.start);
    }
  }

  lemma HandledFacts(c: Controller)
    requires Valid(c) && Concerns(c)
    ensures HandledWell(Record(c.(next := c.next + 1), c.stream[c.next]), c.stream[c.next], Handled(c))
  {
    hide HandleAction;
    hide HandleObservation;
    var e := c.stream[c.next];
    var recorded := Record(c.(next := c.next + 1), e);
    if IsAction(e) {
      ActionFacts(recorded, e);
    } else {
      ObservationFacts(recorded, e);
    }
  }

  // ----- one step of the agent -----

  /** The step goes through to an action of the agent, which is then performed. */
  predicate Performs(c: Controller, cfg: Config, outcome: Outcome) {
    CanStep(c) && !Stuck(c, cfg) && outcome.Act? && !outcome.action.body.NullAction?
  }

  lemma ReactFacts(c: Controller, cfg: Config, fault: Fault)
    requires Valid(c) && CanStep(c)
    ensures var r := React(c, cfg, fault); Valid(r) && c.stream <= r.stream && r.next == c.next && r.pending.None?
  {
    hide SetState;
    SetStateFacts(c, Error);
    SetStateFacts(c, RateLimited);
  }

  lemma PerformFacts(c: Controller, action: Event)
    requires Valid(c) && CanStep(c)
    ensures var r := Perform(c, action);
      && Valid(r) && c.stream <= r.stream && r.next == c.next
      && (!Runnable(action) ==> r.pending.None?)
      && (Runnable(action) ==>
            && r.pending == Some(Pending(action, |r.stream| - 1)) && |r.stream| > |c.stream|
            && r.state == if NeedsConfirmation(action) then AwaitingUserConfirmation else Running)
  {
    hide SetState;
    SetStateFacts(c, AwaitingUserConfirmation);
  }

  lemma StepFacts(c: Controller, cfg: Config, outcome: Outcome)
    requires Valid(c)
    ensures var r := Step(c, cfg, outcome);
      && Valid(r) && c.stream <= r.stream && r.next == c.next
      && (!CanStep(c) ==> r == c)
      && (r.pending != c.pending ==> Performs(c, cfg, outcome) && Runnable(outcome.action))
    ensures Performs(c, cfg, outcome) && Runnable(outcome.action) ==>
      var r, action := Step(c, cfg, outcome), Confirmable(cfg, outcome.action, outcome.risk);
      && r.pending == Some(Pending(action, |r.stream| - 1)) && |r.stream| > |c.stream|
      && r.state == if NeedsConfirmation(action) then AwaitingUserConfirmation else Running
  {
    hide SetState;
    hide Verdict;
    hide NextAnalysis;
    hide React;
    hide Perform;
    if CanStep(c) {
      var c1 := Examine(c, cfg);
      match outcome
      case Act(action, risk) =>
        ReactFacts(c1, cfg, OtherFault);
        PerformFacts(c1, Confirmable(cfg, action, risk));
      case Raised(fault) =>
        ReactFacts(c1, cfg, OtherFault);
        ReactFacts(c1, cfg, fault);
      case _ =>
        ReactFacts(c1, cfg, OtherFault);
    }
  }

  // ----- runs -----

  lemma MoveKeepsValid(c: Controller, cfg: Config, move: Move)
    requires Valid(c) && Enabled(c, move)
    ensures Valid(Next(c, cfg, move)) && c.stream <= Next(c, cfg, move).stream
  {
    hide SetState;
    hide Handled;
    hide Step;
    match move
    case Arrive(_) =>
    case Request(target) => SetStateFacts(c, target);
    case Deliver(outcome, _) =>
      if Concerns(c) {
        HandledFacts(c);
        StepFacts(Handled(c), cfg, outcome);
      }
  }

  /** At every event boundary of every run a stopped or failed controller has nothing pending, and a pending
      action is on the stream under its id. */
  lemma {:induction false} EveryRunIsValid(c: Controller, cfg: Config, moves: seq<Move>)
    requires Valid(c) && Legal(c, cfg, moves)
    ensures Valid(After(c, cfg, moves)) && c.stream <= After(c, cfg, moves).stream
    decreases |moves|
  {
    hide Next;
    if moves != [] {
      MoveKeepsValid(c, cfg, moves[0]);
      EveryRunIsValid(Next(c, cfg, moves[0]), cfg, moves[1..]);
    }
  }

  // ----- two steps are separated -----

  /** The move makes the agent perform a runnable action. */
  predicate Stepped(c: Controller, cfg: Config, move: Move) {
    && move.Deliver? && Concerns(c) && ShouldStep(Handled(c), c.stream[c.next])
    && Performs(Handled(c), cfg, move.outcome) && Runnable(move.outcome.action)
  }

  /** The move delivers the observation that the pending action is waiting for. */
  predicate Answered(c: Controller, move: Move) {
    move.Deliver? && Concerns(c) && Matches(c, c.stream[c.next])
  }

  /** The move frees the controller of its pending action: the matching observation arrives, or a reset. */
  predicate Frees(c: Controller, cfg: Config, move: Move)
    requires Enabled(c, move)
  {
    || Answered(c, move)
    || (c.pending.Some? && Ended(Next(c, cfg, move).state))
  }

  ghost predicate FreedDuring(c: Controller, cfg: Config, moves: seq<Move>)
    requires Legal(c, cfg, moves)
    decreases |moves|
  {
    moves != [] && (Frees(c, cfg, moves[0]) || FreedDuring(Next(c, cfg, moves[0]), cfg, moves[1..]))
  }

  ghost predicate SupersededDuring(c: Controller, cfg: Config, moves: seq<Move>)
    requires Legal(c, cfg, moves)
    decreases |moves|
  {
    moves != [] &&
    ((moves[0].Deliver? && Concerns(c) && Supersedes(c.stream[c.next])) ||
        SupersededDuring(Next(c, cfg, moves[0]), cfg, moves[1..]))
  }

  lemma StemsTransitive(a: Event, b: Event, d: Event)
    requires Stems(a, b) && Stems(b, d) && d.body.Run?
    ensures Stems(a, d)
  {
  }

  lemma MoveKeepsPending(c: Controller, cfg: Config, move: Move)
    requires Valid(c) && Enabled(c, move) && c.pending.Some? && !Frees(c, cfg, move)
    ensures Next(c, cfg, move).pending.Some? && !Stepped(c, cfg, move)
    ensures !(move.Deliver? && Concerns(c) && Supersedes(c.stream[c.next])) ==>
      Stems(Next(c, cfg, move).pending.value.action, c.pending.value.action)
  {
    hide SetState;
    hide Handled;
    hide Step;
    match move
    case Arrive(_) =>
    case Request(target) => SetStateFacts(c, target);
    case Deliver(outcome, _) =>
      if Concerns(c) {
        HandledFacts(c);
        StepFacts(Handled(c), cfg, outcome);
      }
  }

  lemma {:induction false} PendingSurvives(c: Controller, cfg: Config, moves: seq<Move>)
    requires Valid(c) && Legal(c, cfg, moves) && c.pending.Some? && !FreedDuring(c, cfg, moves)
    ensures After(c, cfg, moves).pending.Some?
    ensures !SupersededDuring(c, cfg, moves) ==>
      Stems(After(c, cfg, moves).pending.value.action, c.pending.value.action)
    decreases |moves|
  {
    hide Next;
    if moves != [] {
      var c1 := Next(c, cfg, moves[0]);
      MoveKeepsPending(c, cfg, moves[0]);
      MoveKeepsValid(c, cfg, moves[0]);
      PendingSurvives(c1, cfg, moves[1..]);
      if !SupersededDuring(c, cfg, moves) {
        StemsTransitive(After(c1, cfg, moves[1..]).pending.value.action, c1.pending.value.action,
            c.pending.value.action);
      }
    }
  }

  /** Between two runnable actions of the agent the first one, or the retrieval for a user message that took
      its place, has received its observation or has been dropped by a reset. */
  lemma StepsAreSeparated(c: Controller, cfg: Config, first: Move, middle: seq<Move>, second: Move)
    requires Valid(c) && Enabled(c, first) && Stepped(c, cfg, first)
    requires var c1 := Next(c, cfg, first);
      && Legal(c1, cfg, middle)
      && var c2 := After(c1, cfg, middle);
      Enabled(c2, second) && Stepped(c2, cfg, second)
    ensures var c1 := Next(c, cfg, first);
      FreedDuring(c1, cfg, middle) || Frees(After(c1, cfg, middle), cfg, second)
  {
    var c1 := Next(c, cfg, first);
    assert c1.pending.Some? by {
      SteppedFacts(c, cfg, first);
    }
    MoveKeepsValid(c, cfg, first);
    hide Next;
    EveryRunIsValid(c1, cfg, middle);
    if !FreedDuring(c1, cfg, middle) {
      PendingSurvives(c1, cfg, middle);
      if !Frees(After(c1, cfg, middle), cfg, second) {
        MoveKeepsPending(After(c1, cfg, middle), cfg, second);
      }
    }
  }

  /** A runnable action is performed only from Running with nothing pending; it is then pending itself, is the
      newest event on the stream, and if it needs confirmation the controller waits for the user. */
  lemma SteppedFacts(c: Controller, cfg: Config, move: Move)
    requires Valid(c) && Enabled(c, move) && Stepped(c, cfg, move)
    ensures Handled(c).state.Running? && Handled(c).pending.None?
    ensures var r, action := Next(c, cfg, move), Confirmable(cfg, move.outcome.action, move.outcome.risk);
      && |r.stream| > |c.stream| && StreamCopy(r.stream[|r.stream| - 1], action)
      && r.pending == Some(Pending(action, |r.stream| - 1))
      && r.state == if NeedsConfirmation(action) then AwaitingUserConfirmation else Running
  {
    hide Handled;
    hide Step;
    HandledFacts(c);
    StepFacts(Handled(c), cfg, move.outcome);
  }

  /** The counterpart: once the observation that a running (or just confirmed) controller waits for arrives, the agent
      is asked again at once, so its next runnable action is performed. */
  lemma MatchingObservationResumes(c: Controller, cfg: Config, move: Move)
    requires Valid(c) && Concerns(c) && Matches(c, c.stream[c.next]) && (c.state.Running? || c.state.UserConfirmed?)
    requires var b := c.stream[c.next].body; !b.StateChanged? && (b.NullObservation? ==> c.pending.value.id > 0)
    requires move.Deliver? && move.outcome.Act? && Runnable(move.outcome.action) && !Stuck(Handled(c), cfg)
    ensures Stepped(c, cfg, move)
  {
    hide Verdict;
    hide SetState;
    SetStateFacts(Record(c.(next := c.next + 1), c.stream[c.next]).(pending := None), Running);
  }

  // ----- the confirmation gate -----

  /** Which actions a step makes wait for the user: in confirmation mode, of the gated kinds, all of them on the command
      line; elsewhere those the analyzer rates as high, or all of them if there is no analyzer. */
  lemma WhoMustBeConfirmed(cfg: Config, action: Event, risk: Risk)
    requires !NeedsConfirmation(action)
    ensures NeedsConfirmation(Confirmable(cfg, action, risk)) <==>
      && cfg.stateConfirmation && action.body.Run? && action.body.kind in {Command, Cell, Browse, FileEdit, FileRead}
      && (cfg.cli || (cfg.confirmation && (cfg.analyzer ==> risk == High)))
    ensures Confirmable(cfg, action, risk) == action ||
        Confirmable(cfg, action, risk).body == action.body.(confirm := Some(Awaiting))
  {
  }

  /** While the controller waits for the user, the stream says so for commands and cells only. */
  lemma StreamShowsWaiting(c: Controller, cfg: Config, move: Move)
    requires Valid(c) && Enabled(c, move) && Stepped(c, cfg, move)
    ensures var r := Next(c, cfg, move);
      && |r.stream| > 0 && r.pending.Some?
      && (NeedsConfirmation(r.stream[|r.stream| - 1]) <==>
            r.state.AwaitingUserConfirmation? && ShowsConfirmation(r.pending.value.action.body.kind))
  {
    hide Next;
    SteppedFacts(c, cfg, move);
  }

  /** Somebody asks for something with this move. */
  predicate AsksFor(c: Controller, move: Move) {
    move.Request? || (move.Deliver? && Concerns(c) && Asks(c.stream[c.next]))
  }

  ghost predicate NobodyAsks(c: Controller, cfg: Config, moves: seq<Move>)
    requires Legal(c, cfg, moves)
    decreases |moves|
  {
    moves == [] || (!AsksFor(c, moves[0]) && NobodyAsks(Next(c, cfg, moves[0]), cfg, moves[1..]))
  }

  lemma UnaskedMove(c: Controller, cfg: Config, move: Move)
    requires Valid(c) && Enabled(c, move) && Blocked(c.state) && !AsksFor(c, move)
    ensures var r := Next(c, cfg, move);
      && Blocked(r.state) && (r.pending == c.pending || (Answered(c, move) && r.pending.None?))
      && (move.Deliver? && Concerns(c) ==> forall k :: |c.stream| <= k < |r.stream| ==> !AgentAction(r.stream[k]))
  {
    hide SetState;
    hide Handled;
    hide Step;
    if move.Deliver? && Concerns(c) {
      HandledFacts(c);
      StepFacts(Handled(c), cfg, move.outcome);
    }
  }

  lemma {:induction false} UnaskedRun(c: Controller, cfg: Config, moves: seq<Move>)
    requires Valid(c) && Blocked(c.state) && Legal(c, cfg, moves) && NobodyAsks(c, cfg, moves)
    ensures var r := After(c, cfg, moves);
      Valid(r) && Blocked(r.state) && (r.pending == c.pending || r.pending.None?) && c.stream <= r.stream
    decreases |moves|
  {
    hide Next;
    if moves != [] {
      UnaskedMove(c, cfg, moves[0]);
      MoveKeepsValid(c, cfg, moves[0]);
      UnaskedRun(Next(c, cfg, moves[0]), cfg, moves[1..]);
    }
  }

  // ----- leaving the wait without the user -----

  /** Events of the agent that end the wait for confirmation although nobody asks for anything. */
  predicate EndsWait(e: Event) {
    (IsAgentMessage(e) && e.body.wait) || e.body.Finish? || e.body.Reject?
  }

  predicate Leaves(c: Controller, move: Move) {
    move.Deliver? && Concerns(c) && EndsWait(c.stream[c.next])
  }

  ghost predicate UnaskedWell(c: Controller, e: Event, r: Controller) {
    && (EndsWait(e) ==> !r.state.AwaitingUserConfirmation?)
    && (!EndsWait(e) ==> r.state == c.state || (Matches(c, e) && !r.state.AwaitingUserConfirmation?))
    && (Matches(c, e) ==> r.pending.None?)
  }

  lemma HandledUnasked(c: Controller)
    requires Valid(c) && Concerns(c) && !Asks(c.stream[c.next]) && Blocked(c.state)
    ensures UnaskedWell(c, c.stream[c.next], Handled(c))
  {
    hide HandleAction;
    hide HandleObservation;
    var e := c.stream[c.next];
    var recorded := Record(c.(next := c.next + 1), e);
    if IsAction(e) {
      ActionUnasked(recorded, e);
    } else {
      ObservationUnasked(recorded, e);
    }
  }

  lemma ActionUnasked(c: Controller, e: Event)
    requires Valid(c) && IsAction(e) && !Asks(e) && Blocked(c.state)
    ensures UnaskedWell(c, e, HandleAction(c, e))
  {
    hide SetState;
    SetStateFacts(c, AwaitingUserInput);
    SetStateFacts(c, Finished);
    SetStateFacts(c, Rejected);
  }

  lemma ObservationUnasked(c: Controller, e: Event)
    requires Valid(c) && IsObservation(e) && Blocked(c.state)
    ensures UnaskedWell(c, e, HandleObservation(c, e))
  {
    hide SetState;
    SetStateFacts(c.(pending := None), AwaitingUserInput);
  }

  lemma BlockedMove(c: Controller, cfg: Config, move: Move)
    requires Valid(c) && Enabled(c, move) && Blocked(c.state) && !AsksFor(c, move)
    ensures move.Deliver? && Concerns(c) ==>
      Next(c, cfg, move).state == Handled(c).state && Next(c, cfg, move).pending == Handled(c).pending
    ensures !(move.Deliver? && Concerns(c)) ==>
      Next(c, cfg, move).state == c.state && Next(c, cfg, move).pending == c.pending
  {
    hide SetState;
    hide Handled;
    hide Step;
    if move.Deliver? && Concerns(c) {
      HandledFacts(c);
      StepFacts(Handled(c), cfg, move.outcome);
    }
  }

  /** Exactly what ends the wait for confirmation when nobody asks for anything: an event of the agent that was
      already on the stream, by which it waits for input, finishes or rejects. The action stays pending. */
  lemma WaitEndsExactly(c: Controller, cfg: Config, move: Move)
    requires Valid(c) && Enabled(c, move) && c.state.AwaitingUserConfirmation? && !AsksFor(c, move)
    ensures var r := Next(c, cfg, move);
      (r.state != AwaitingUserConfirmation <==> Leaves(c, move)) && r.pending == c.pending
  {
    hide Next;
    BlockedMoveExactly(c, cfg, move);
  }

  ghost predicate LeavesDuring(c: Controller, cfg: Config, moves: seq<Move>)
    requires Legal(c, cfg, moves)
    decreases |moves|
  {
    moves != [] && (Leaves(c, moves[0]) || LeavesDuring(Next(c, cfg, moves[0]), cfg, moves[1..]))
  }

  ghost predicate AnsweredDuring(c: Controller, cfg: Config, moves: seq<Move>)
    requires Legal(c, cfg, moves)
    decreases |moves|
  {
    moves != [] && (Answered(c, moves[0]) || AnsweredDuring(Next(c, cfg, moves[0]), cfg, moves[1..]))
  }

  lemma BlockedMoveExactly(c: Controller, cfg: Config, move: Move)
    requires Valid(c) && Enabled(c, move) && Blocked(c.state) && !AsksFor(c, move)
    ensures var r := Next(c, cfg, move);
      && (r.state.AwaitingUserConfirmation? <==> c.state.AwaitingUserConfirmation? && !Leaves(c, move))
      && r.pending == if Answered(c, move) then None else c.pending
  {
    hide Next;
    hide Handled;
    BlockedMove(c, cfg, move);
    UnaskedMove(c, cfg, move);
    if move.Deliver? && Concerns(c) {
      HandledUnasked(c);
    }
  }

  /** Over any run in which nobody asks for anything: the controller still waits for confirmation exactly if no such
      event was delivered, and the action is still pending exactly if its observation was not (it is ignored while the
      controller waits). */
  lemma {:induction false} UnaskedRunExactly(c: Controller, cfg: Config, moves: seq<Move>)
    requires Valid(c) && Blocked(c.state) && Legal(c, cfg, moves) && NobodyAsks(c, cfg, moves)
    ensures var r := After(c, cfg, moves);
      && (r.state.AwaitingUserConfirmation? <==> c.state.AwaitingUserConfirmation? && !LeavesDuring(c, cfg, moves))
      && r.pending == if AnsweredDuring(c, cfg, moves) then None else c.pending
    decreases |moves|
  {
    hide Next;
    if moves != [] {
      BlockedMoveExactly(c, cfg, moves[0]);
      UnaskedMove(c, cfg, moves[0]);
      MoveKeepsValid(c, cfg, moves[0]);
      UnaskedRunExactly(Next(c, cfg, moves[0]), cfg, moves[1..]);
    }
  }

  // ----- the gate -----

  /** The gate over whole runs. After an action that needs confirmation, as long as nobody asks for anything, the
      controller emits no action of the agent; and the only thing that then puts a runnable action of the agent on the
      stream outside its own steps is a decision on this action, handled while it is still pending, which gives it a
      new id: as confirmed if the user confirmed, as rejected if the user rejected. */
  lemma ConfirmationGate(c: Controller, cfg: Config, step: Move, middle: seq<Move>, move: Move, k: nat)
    requires Valid(c) && Enabled(c, step) && Stepped(c, cfg, step)
    requires NeedsConfirmation(Confirmable(cfg, step.outcome.action, step.outcome.risk))
    requires var c1 := Next(c, cfg, step);
      && Legal(c1, cfg, middle) && NobodyAsks(c1, cfg, middle)
      && var c2 := After(c1, cfg, middle);
      && Enabled(c2, move) && ((move.Deliver? && Concerns(c2)) || move.Request?)
      && |c2.stream| <= k < |Next(c2, cfg, move).stream|
    ensures var c1 := Next(c, cfg, step);
      var c2 := After(c1, cfg, middle);
      var r := Next(c2, cfg, move);
      && (AgentAction(r.stream[k]) ==> AsksFor(c2, move))
      && (Runnable(r.stream[k]) && r.stream[k].source == Agent && !Stepped(c2, cfg, move) ==>
            && (move.Deliver? ==> c2.stream[c2.next].body.ChangeState?)
            && var target := if move.Request? then move.target else c2.stream[c2.next].body.target;
            && (target == UserConfirmed || target == UserRejected)
            && c2.pending == c1.pending && c1.pending.value.id < |c2.stream| == k
            && r.pending.Some? && r.pending.value.id == k && StreamCopy(r.stream[k], r.pending.value.action)
            && DecidedCopy(r.pending.value.action, c1.pending.value.action,
                           if target == UserConfirmed then Confirmed else Denied))
  {
    hide Handled;
    hide Step;
    SteppedFacts(c, cfg, step);
    MoveKeepsValid(c, cfg, step);
    var c1 := Next(c, cfg, step);
    UnaskedRun(c1, cfg, middle);
    var c2 := After(c1, cfg, middle);
    if !AsksFor(c2, move) {
      UnaskedMove(c2, cfg, move);
    }
    var r := Next(c2, cfg, move);
    if Runnable(r.stream[k]) && r.stream[k].source == Agent && !Stepped(c2, cfg, move) {
      OnlyDecisionsReissue(c2, cfg, move, k);
    }
  }

  /** The re-emission over arbitrary runs, with any number of requests in between: as long as the action has not been
      freed and no user message has taken its place, the agent's runnable action that gets onto the stream outside the
      agent's own steps is this action, decided on just now while still pending, under a fresh id. */
  lemma ReissuedOnlyByDecision(c: Controller, cfg: Config, step: Move, middle: seq<Move>, move: Move, k: nat)
    requires Valid(c) && Enabled(c, step) && Stepped(c, cfg, step)
    requires var c1 := Next(c, cfg, step);
      && Legal(c1, cfg, middle) && !FreedDuring(c1, cfg, middle) && !SupersededDuring(c1, cfg, middle)
      && var c2 := After(c1, cfg, middle);
      && Enabled(c2, move) && ((move.Deliver? && Concerns(c2)) || move.Request?) && !Stepped(c2, cfg, move)
      && |c2.stream| <= k < |Next(c2, cfg, move).stream|
      && Runnable(Next(c2, cfg, move).stream[k]) && Next(c2, cfg, move).stream[k].source == Agent
    ensures var c1 := Next(c, cfg, step);
      var c2 := After(c1, cfg, middle);
      && c1.pending.Some? && c2.pending.Some? && Stems(c2.pending.value.action, c1.pending.value.action)
      && (move.Deliver? ==> c2.stream[c2.next].body.ChangeState?)
      && ReissuedAt(c2, if move.Request? then move.target else c2.stream[c2.next].body.target, Next(c2, cfg, move), k)
  {
    SteppedFacts(c, cfg, step);
    MoveKeepsValid(c, cfg, step);
    hide Next;
    var c1 := Next(c, cfg, step);
    PendingSurvives(c1, cfg, middle);
    EveryRunIsValid(c1, cfg, middle);
    OnlyDecisionsReissue(After(c1, cfg, middle), cfg, move, k);
  }

  /** Apart from the agent's own steps, a runnable action of the agent gets onto the stream only as the pending
      action that the user has just decided on. */
  lemma OnlyDecisionsReissue(c: Controller, cfg: Config, move: Move, k: nat)
    requires Valid(c) && Enabled(c, move) && ((move.Deliver? && Concerns(c)) || move.Request?)
    requires |c.stream| <= k < |Next(c, cfg, move).stream| && !Stepped(c, cfg, move)
    requires var e := Next(c, cfg, move).stream[k]; Runnable(e) && e.source == Agent
    ensures move.Deliver? ==> c.stream[c.next].body.ChangeState?
    ensures ReissuedAt(c, if move.Request? then move.target else c.stream[c.next].body.target, Next(c, cfg, move), k)
  {
    hide SetState;
    hide Handled;
    match move
    case Request(target) => SetStateFacts(c, target);
    case Deliver(outcome, _) =>
      HandledFacts(c);
      StepEmitsRun(Handled(c), cfg, outcome, k);
  }

  lemma StepEmitsRun(c: Controller, cfg: Config, outcome: Outcome, k: nat)
    requires Valid(c) && k < |Step(c, cfg, outcome).stream|
    requires |c.stream| <= k ==> Runnable(Step(c, cfg, outcome).stream[k])
    ensures !(Performs(c, cfg, outcome) && Runnable(outcome.action)) ==>
        k < |c.stream| && Step(c, cfg, outcome).stream[k] == c.stream[k]
  {
    hide SetState;
    hide Verdict;
    hide NextAnalysis;
    hide React;
    hide Perform;
    if CanStep(c) {
      var c1 := Examine(c, cfg);
      ReactEmitsNoRun(c1, cfg, OtherFault, k);
      match outcome
      case Act(action, risk) =>
        if !Runnable(action) {
          PerformEmitsNoRun(c1, action, k);
        }
      case Raised(fault) => ReactEmitsNoRun(c1, cfg, fault, k);
      case _ =>
    }
  }

  lemma ReactEmitsNoRun(c: Controller, cfg: Config, fault: Fault, k: nat)
    requires Valid(c) && CanStep(c)
    ensures var r := React(c, cfg, fault);
      && c.stream <= r.stream && (|c.stream| <= k < |r.stream| ==> !Runnable(r.stream[k]))
  {
    hide SetState;
    SetStateFacts(c, Error);
    SetStateFacts(c, RateLimited);
  }

  lemma PerformEmitsNoRun(c: Controller, action: Event, k: nat)
    requires Valid(c) && CanStep(c) && !Runnable(action)
    ensures var r := Perform(c, action);
      && c.stream <= r.stream && (|c.stream| <= k < |r.stream| ==> !Runnable(r.stream[k]))
  {
    hide SetState;
    SetStateFacts(c, AwaitingUserConfirmation);
  }
}
