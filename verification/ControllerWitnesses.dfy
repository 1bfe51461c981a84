/** Runs of the agent controller that show what can happen. */
module ControllerWitnesses {
  import opened Options
  import opened Events
  import opened StuckSpec
  import opened ControllerSpec
  import opened ControllerRuns
  import StuckDetector
  import StuckRecovery

  lemma {:induction false} RunExtends(c: Controller, cfg: Config, moves: seq<Move>, move: Move)
    requires Legal(c, cfg, moves) && Enabled(After(c, cfg, moves), move)
    ensures Legal(c, cfg, moves + [move])
    ensures After(c, cfg, moves + [move]) == Next(After(c, cfg, moves), cfg, move)
    decreases |moves|
  {
    hide Next;
    if moves == [] {
      assert moves + [move] == [move];
    } else {
      RunExtends(Next(c, cfg, moves[0]), cfg, moves[1..], move);
      assert (moves + [move])[1..] == moves[1..] + [move];
    }
  }

  /** Extends a run from the initial state that has reached `c` by one move. */
  lemma Then(moves: seq<Move>, c: Controller, cfg: Config, move: Move) returns (moves': seq<Move>, c': Controller)
    requires Legal(INITIAL, cfg, moves) && After(INITIAL, cfg, moves) == c && Enabled(c, move)
    ensures Legal(INITIAL, cfg, moves') && After(INITIAL, cfg, moves') == c' == Next(c, cfg, move)
  {
    hide Next;
    RunExtends(INITIAL, cfg, moves, move);
    moves', c' := moves + [move], Next(c, cfg, move);
  }

  const READY := Event(OtherObservation("ready"), Environment, None, None, false)
  const IDLE := Handles([])
  const NOTHING := Deliver(LimitHit, IDLE)

  lemma Begin(cfg: Config)
    ensures Legal(INITIAL, cfg, []) && After(INITIAL, cfg, []) == INITIAL
  {
  }

  lemma Put(moves: seq<Move>, c: Controller, cfg: Config, e: Event) returns (moves': seq<Move>, c': Controller)
    requires Legal(INITIAL, cfg, moves) && After(INITIAL, cfg, moves) == c
    ensures Legal(INITIAL, cfg, moves') && After(INITIAL, cfg, moves') == c' == Emit(c, e)
  {
    hide Legal;
    hide After;
    moves', c' := Then(moves, c, cfg, Arrive(e));
  }

  /** Delivers an announcement of a change of state, which has no effect. */
  lemma Skip(moves: seq<Move>, c: Controller, cfg: Config) returns (moves': seq<Move>, c': Controller)
    requires Legal(INITIAL, cfg, moves) && After(INITIAL, cfg, moves) == c
    requires c.next < |c.stream| && !c.delegating && exists t :: c.stream[c.next] == StateChange(t)
    ensures Legal(INITIAL, cfg, moves') && After(INITIAL, cfg, moves') == c' == c.(next := c.next + 1)
  {
    hide Legal;
    hide After;
    hide Step;
    moves', c' := Then(moves, c, cfg, NOTHING);
  }

  /** Sets the state of a controller with nothing pending, by a direct call. */
  lemma Set(moves: seq<Move>, c: Controller, cfg: Config, target: AgentState)
    returns (moves': seq<Move>, c': Controller)
    requires Legal(INITIAL, cfg, moves) && After(INITIAL, cfg, moves) == c
    requires c.pending.None? && target != c.state
    ensures Legal(INITIAL, cfg, moves') &&
        After(INITIAL, cfg, moves') == c' == Emit(c.(state := target), StateChange(target))
  {
    hide Legal;
    hide After;
    moves', c' := Then(moves, c, cfg, Request(target));
  }

  // ----- the wait for confirmation ends without the user -----

  lemma StartWithTwo(cfg: Config) returns (moves: seq<Move>)
    ensures Legal(INITIAL, cfg, moves)
    ensures After(INITIAL, cfg, moves)
         == Controller(Running, None, [StateChange(Running), READY, READY], 1, [], None, false)
  {
    hide Legal;
    hide After;
    Begin(cfg);
    var c: Controller;
    moves, c := Set([], INITIAL, cfg, Running);
    moves, c := Put(moves, c, cfg, READY);
    moves, c := Put(moves, c, cfg, READY);
    moves, c := Skip(moves, c, cfg);
  }

  lemma FewConsidered(history: seq<Event>, headless: bool)
    requires |Considered(history, headless)| < 3
    ensures Verdict(history, headless).None?
  {
    StuckDetector.FewEventsAreNoLoop(Considered(history, headless));
  }

  lemma StepOnReady(c: Controller, cfg: Config, outcome: Outcome)
    requires c.next < |c.stream| && c.stream[c.next] == READY && CanStep(c) && !c.delegating && outcome.Act?
    requires |c.history| < 2 && c.analysis.None?
    ensures var h := c.(next := c.next + 1, history := c.history + [READY]);
      Next(c, cfg, Deliver(outcome, IDLE)) == Perform(h, Confirmable(cfg, outcome.action, outcome.risk))
  {
    hide Perform;
    hide Verdict;
    hide Confirmable;
    FewConsidered(c.history + [READY], cfg.headless);
  }

  /** With two observations on the stream the agent ends its work upon the first, and proposes an action that needs
      confirmation upon the second, so that its own `last` event ends the wait. */
  lemma WaitEndsUnasked(cfg: Config, last: Event, action: Event) returns (moves: seq<Move>)
    requires EndsWait(last) && !last.hidden && NeedsConfirmation(Confirmable(cfg, action, Unknown))
    ensures Legal(INITIAL, cfg, moves)
    ensures var c := After(INITIAL, cfg, moves);
      && Valid(c) && c.state.AwaitingUserConfirmation? && c.pending.Some?
      && Enabled(c, NOTHING) && !AsksFor(c, NOTHING)
      && Next(c, cfg, NOTHING).state != AwaitingUserConfirmation && Next(c, cfg, NOTHING).pending == c.pending
  {
    hide Next;
    hide Legal;
    hide After;
    moves := StartWithTwo(cfg);
    var c := After(INITIAL, cfg, moves);
    StepOnReady(c, cfg, Act(last, Unknown));
    moves, c := Then(moves, c, cfg, Deliver(Act(last, Unknown), IDLE));
    assert c == Controller(Running, None, [StateChange(Running), READY, READY, last], 2, [READY], None, false);
    StepOnReady(c, cfg, Act(action, Unknown));
    moves, c := Then(moves, c, cfg, Deliver(Act(action, Unknown), IDLE));
    assert c.stream[3] == last;
    EveryRunIsValid(INITIAL, cfg, moves);
    WaitEndsExactly(c, cfg, NOTHING);
  }

  // ----- a stale analysis -----

  /** Everything on the stream has been delivered, and nothing is going on. */
  predicate Quiet(c: Controller) {
    c.next == |c.stream| && c.pending.None? && !c.delegating
  }

  function Took(c: Controller, e: Event): Controller {
    c.(stream := c.stream + [e], next := c.next + 1, history := c.history + [e])
  }

  /** A controller that is not running just records what the runtime does. */
  lemma Take(moves: seq<Move>, c: Controller, cfg: Config, e: Event) returns (moves': seq<Move>, c': Controller)
    requires Legal(INITIAL, cfg, moves) && After(INITIAL, cfg, moves) == c
    requires Quiet(c) && !c.state.Running? && Recorded(e) && !e.hidden && (IsObservation(e) || e.body.Run?)
    ensures Legal(INITIAL, cfg, moves') && After(INITIAL, cfg, moves') == c' == Took(c, e)
  {
    hide Legal;
    hide After;
    var c1: Controller;
    moves', c1 := Put(moves, c, cfg, e);
    moves', c' := Then(moves', c1, cfg, NOTHING);
  }

  lemma {:induction false} TakeAll(moves: seq<Move>, c: Controller, cfg: Config, events: seq<Event>)
    returns (moves': seq<Move>, c': Controller)
    requires Legal(INITIAL, cfg, moves) && After(INITIAL, cfg, moves) == c && Quiet(c) && !c.state.Running?
    requires forall i :: 0 <= i < |events| ==>
      Recorded(events[i]) && !events[i].hidden && (IsObservation(events[i]) || events[i].body.Run?)
    ensures Legal(INITIAL, cfg, moves') && After(INITIAL, cfg, moves') == c'
    ensures c' == c.(stream := c.stream + events, next := c.next + |events|, history := c.history + events)
    decreases |events|
  {
    hide Legal;
    hide After;
    if events == [] {
      moves', c' := moves, c;
    } else {
      moves', c' := Take(moves, c, cfg, events[0]);
      moves', c' := TakeAll(moves', c', cfg, events[1..]);
      assert events == [events[0]] + events[1..];
    }
  }

  /** An observation that is not recorded but makes the controller step. */
  const NUDGE := Event(NullObservation, Environment, Some(1), None, false)

  /** A running controller with a loop in its history finds out and fails. */
  lemma FindLoop(moves: seq<Move>, c: Controller, cfg: Config) returns (moves': seq<Move>, c': Controller)
    requires Legal(INITIAL, cfg, moves) && After(INITIAL, cfg, moves) == c && Quiet(c) && CanStep(c)
    requires cfg.stuckDetection && Verdict(c.history, cfg.headless).Some?
    ensures Legal(INITIAL, cfg, moves') && After(INITIAL, cfg, moves') == c'
    ensures Quiet(c') && c'.state.Error? && c'.history == c.history && c'.analysis == Verdict(c.history, cfg.headless)
  {
    hide Legal;
    hide After;
    moves', c' := Put(moves, c, cfg, NUDGE);
    NudgeFindsLoop(c', cfg);
    hide Next;
    moves', c' := Then(moves', c', cfg, NOTHING);
    moves', c' := Skip(moves', c', cfg);
  }

  lemma NudgeFindsLoop(c: Controller, cfg: Config)
    requires c.next < |c.stream| && c.stream[c.next] == NUDGE && CanStep(c) && !c.delegating
    requires cfg.stuckDetection && Verdict(c.history, cfg.headless).Some?
    ensures Next(c, cfg, NOTHING)
      == Emit(c.(next := c.next + 1, state := Error, analysis := Verdict(c.history, cfg.headless)), StateChange(Error))
  {
    hide Verdict;
    hide Considered;
    if |Considered(c.history, cfg.headless)| < 3 {
      FewConsidered(c.history, cfg.headless);
    }
  }

  function UserSays(text: string): Event {
    Event(Message(text, false), User, None, None, false)
  }

  /** The controller has handled a user message and waits for the retrieval, whose action has been delivered, too. */
  function Asked(c: Controller, text: string): Controller {
    var recall := RecallFor(text);
    Controller(Running, Some(Pending(recall, |c.stream| + 1)),
        c.stream + [UserSays(text), recall, StateChange(Running)],
               |c.stream| + 3, c.history + [UserSays(text), recall], c.analysis, false)
  }

  lemma AskIt(moves: seq<Move>, c: Controller, cfg: Config, text: string) returns (moves': seq<Move>, c': Controller)
    requires Legal(INITIAL, cfg, moves) && After(INITIAL, cfg, moves) == c && Quiet(c) && c.state.Error?
    ensures Legal(INITIAL, cfg, moves') && After(INITIAL, cfg, moves') == c' == Asked(c, text)
  {
    hide Legal;
    hide After;
    var c1: Controller;
    moves', c1 := Put(moves, c, cfg, UserSays(text));
    MessageHandled(c1, cfg, text);
    hide Next;
    moves', c1 := Then(moves', c1, cfg, NOTHING);
    RecallIgnored(c1, cfg, text);
    moves', c1 := Then(moves', c1, cfg, NOTHING);
    moves', c' := Skip(moves', c1, cfg);
  }

  lemma MessageHandled(c: Controller, cfg: Config, text: string)
    requires c.next == |c.stream| - 1 && c.stream[c.next] == UserSays(text) && !c.delegating && c.state.Error? &&
        c.pending.None?
    ensures Next(c, cfg, NOTHING)
      == c.(state := Running, pending := Some(Pending(RecallFor(text), |c.stream|)), next := c.next + 1,
            stream := c.stream + [RecallFor(text), StateChange(Running)], history := c.history + [UserSays(text)])
  {
  }

  lemma RecallIgnored(c: Controller, cfg: Config, text: string)
    requires c.next < |c.stream| && c.stream[c.next] == RecallFor(text) && !c.delegating
    ensures Next(c, cfg, NOTHING) == c.(next := c.next + 1, history := c.history + [RecallFor(text)])
  {
  }

  /** The observation of the retrieval with this id. */
  function Retrieved(id: int): Event {
    Event(OtherObservation("recalled"), Environment, Some(id), None, false)
  }

  const NO_ACTION := Act(Event(NullAction, Agent, None, None, false), Unknown)

  /** When the retrieval is done, the history is examined; but after the user message there is too little of it. */
  lemma ExaminedTooEarly(c: Controller, cfg: Config, text: string, id: int)
    requires c.next < |c.stream| && c.stream[c.next] == Retrieved(id) && !c.delegating && c.state.Running?
    requires c.pending == Some(Pending(RecallFor(text), id)) && !cfg.headless
    requires |Considered(c.history + [Retrieved(id)], false)| < 3
    ensures Next(c, cfg, Deliver(NO_ACTION, IDLE))
      == c.(pending := None, next := c.next + 1, history := c.history + [Retrieved(id)])
  {
    hide Verdict;
    hide Considered;
    FewConsidered(c.history + [Retrieved(id)], false);
  }

  /** An analysis can be stale: a loop is found, the user says something else, the history is examined again without a
      verdict, and the old analysis is still there. */
  lemma StaleAnalysis(cfg: Config, o: Event, a: Event, text: string) returns (moves: seq<Move>)
    requires cfg.stuckDetection && !cfg.headless
    requires IsObservation(o) && Recorded(o) && !o.hidden && a.body.Run? && !IsCell(a) && !a.hidden
    ensures Legal(INITIAL, cfg, moves)
    ensures var c := After(INITIAL, cfg, moves);
      && c.analysis == Some(Analysis(PairLoop, 4, 4)) && Verdict(c.history, cfg.headless).None?
      && [o, o, o, o] + [a, a, a, a] + [UserSays(text)] <= c.history
      && Quiet(c) && c.state.Running?
  {
    hide Next;
    hide Legal;
    hide After;
    hide Verdict;
    hide Considered;
    Begin(cfg);
    var c: Controller;
    var loop := [o, o, o, o] + [a, a, a, a];
    moves, c := TakeAll([], INITIAL, cfg, loop);
    moves, c := Set(moves, c, cfg, Running);
    moves, c := Skip(moves, c, cfg);
    StuckRecovery.ObservationsMaySurvive(o, a, cfg.headless);
    assert c.history == loop;
    moves, c := FindLoop(moves, c, cfg);
    moves, c := AskIt(moves, c, cfg, text);
    var id := c.pending.value.id;
    var rest := [RecallFor(text), Retrieved(id)];
    moves, c := Put(moves, c, cfg, Retrieved(id));
    assert c.history + [Retrieved(id)] == loop + [UserSays(text)] + rest;
    LittleToConsider(loop, UserSays(text), rest);
    ExaminedTooEarly(c, cfg, text, id);
    moves, c := Then(moves, c, cfg, Deliver(NO_ACTION, IDLE));
    FewConsidered(c.history, false);
  }

  lemma LittleToConsider(before: seq<Event>, message: Event, rest: seq<Event>)
    requires IsUserMessage(message) && |rest| < 3
    ensures |Considered(before + [message] + rest, false)| < 3
  {
    StuckRecovery.OnlyAfterUserMessageMatters(before, message, rest);
  }
}
