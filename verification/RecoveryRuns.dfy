/** What loop recovery does to the history when it is finally asked for: the analysis it uses was made by an earlier
    step, and the history has grown since. */
module RecoveryRuns {
  import opened Options
  import opened Events
  import opened StuckSpec
  import opened ControllerSpec
  import StuckRecovery
  import ControllerWitnesses

  /** The move steps the agent, which begins with examining the history. */
  predicate Examines(c: Controller, cfg: Config, move: Move) {
    && move.Deliver? && Concerns(c) && ShouldStep(Handled(c), c.stream[c.next])
    && CanStep(Handled(c)) && cfg.stuckDetection
  }

  /** The move handles a request for loop recovery. */
  predicate Recovers(c: Controller, move: Move) {
    move.Deliver? && Concerns(c) && c.stream[c.next].body.LoopRecovery?
  }

  ghost predicate NothingExamined(c: Controller, cfg: Config, moves: seq<Move>)
    requires Legal(c, cfg, moves)
    decreases |moves|
  {
    moves == [] ||
    (&& !Examines(c, cfg, moves[0]) && !Recovers(c, moves[0])
     && NothingExamined(Next(c, cfg, moves[0]), cfg, moves[1..]))
  }

  lemma SetStateFrame(c: Controller, target: AgentState)
    ensures SetState(c, target).history == c.history && SetState(c, target).analysis == c.analysis
  {
    hide NotExecuted;
  }

  lemma HandledFrame(c: Controller)
    requires Concerns(c) && !c.stream[c.next].body.LoopRecovery?
    ensures Handled(c).analysis == c.analysis && c.history <= Handled(c).history
  {
    hide SetState;
    var e := c.stream[c.next];
    var h := Record(c.(next := c.next + 1), e);
    var recall := RecallFor(if e.body.Message? then e.body.text else "");
    SetStateFrame(Emit(h, recall).(pending := Some(Pending(recall, |h.stream|))), Running);
    SetStateFrame(h.(pending := None), Running);
    SetStateFrame(h.(pending := None), AwaitingUserInput);
    SetStateFrame(h, AwaitingUserInput);
    SetStateFrame(h, Finished);
    SetStateFrame(h, Rejected);
    if e.body.ChangeState? {
      SetStateFrame(h, e.body.target);
    }
  }

  lemma StepFrame(c: Controller, cfg: Config, outcome: Outcome)
    ensures Step(c, cfg, outcome).history == c.history
    ensures Step(c, cfg, outcome).analysis == if CanStep(c) then Examine(c, cfg).analysis else c.analysis
  {
    hide SetState;
    hide Verdict;
    hide NextAnalysis;
    var c1 := Examine(c, cfg);
    SetStateFrame(c1, Error);
    SetStateFrame(c1, RateLimited);
    SetStateFrame(c1, AwaitingUserConfirmation);
  }

  lemma QuietMove(c: Controller, cfg: Config, move: Move)
    requires Enabled(c, move) && !Examines(c, cfg, move) && !Recovers(c, move)
    ensures Next(c, cfg, move).analysis == c.analysis && c.history <= Next(c, cfg, move).history
  {
    hide SetState;
    hide Handled;
    hide Step;
    match move
    case Arrive(_) =>
    case Request(target) => SetStateFrame(c, target);
    case Deliver(outcome, _) =>
      if Concerns(c) {
        HandledFrame(c);
        StepFrame(Handled(c), cfg, outcome);
      }
  }

  lemma {:induction false} QuietRun(c: Controller, cfg: Config, moves: seq<Move>)
    requires Legal(c, cfg, moves) && NothingExamined(c, cfg, moves)
    ensures After(c, cfg, moves).analysis == c.analysis && c.history <= After(c, cfg, moves).history
    decreases |moves|
  {
    hide Next;
    if moves != [] {
      QuietMove(c, cfg, moves[0]);
      QuietRun(Next(c, cfg, moves[0]), cfg, moves[1..]);
    }
  }

  /** A step leaves the verdict on the history behind exactly if that history is long enough, or there was no analysis
      before. Otherwise the old analysis stays, although there is no verdict. */
  lemma AnalysisIsFreshExactly(c: Controller, cfg: Config, move: Move)
    requires Enabled(c, move) && Examines(c, cfg, move)
    ensures var h := Handled(c);
      && Next(c, cfg, move).history == h.history
      && (Next(c, cfg, move).analysis == Verdict(h.history, cfg.headless) <==>
            |Considered(h.history, cfg.headless)| >= 3 || h.analysis.None?)
  {
    hide SetState;
    hide Handled;
    hide Step;
    hide Verdict;
    hide Considered;
    var h := Handled(c);
    StepFrame(h, cfg, move.outcome);
    if |Considered(h.history, cfg.headless)| < 3 {
      ControllerWitnesses.FewConsidered(h.history, cfg.headless);
    }
  }

  /** Recovery, with either option, leaves the history up to the start that the analysis names. */
  lemma RecoveryTruncates(c: Controller, cfg: Config, move: Move)
    requires Enabled(c, move) && Recovers(c, move) && c.analysis.Some?
    requires c.stream[c.next].body.option == 1 || c.stream[c.next].body.option == 2
    ensures Next(c, cfg, move).history
         == StuckRecovery.Truncate(c.history + [c.stream[c.next]], c.analysis.value.start)
  {
    hide SetState;
    hide Step;
    hide Recover;
    hide Restart;
    var h := Record(c.(next := c.next + 1), c.stream[c.next]);
    RecoverTruncates(h, c.analysis.value.start);
    RestartTruncates(h, c.analysis.value.start);
  }

  lemma RecoverTruncates(c: Controller, point: nat)
    ensures Recover(c, point).history == StuckRecovery.Truncate(c.history, point)
  {
    hide SetState;
    SetStateFrame(c.(history := StuckRecovery.Truncate(c.history, point)), AwaitingUserInput);
  }

  lemma RestartTruncates(c: Controller, point: nat)
    ensures Restart(c, point).history == StuckRecovery.Truncate(c.history, point)
  {
    hide SetState;
    hide Recover;
    RecoverTruncates(c, point);
    var shorter := c.(history := StuckRecovery.Truncate(c.history, point));
    SetStateFrame(shorter, Running);
    var k := AfterLastUserMessage(c.history);
    if k != 0 {
      var recall := RecallFor(c.history[k - 1].body.text);
      var c1 := Emit(SetState(shorter, Running), RECOVERED);
      SetStateFrame(Emit(c1, recall).(pending := Some(Pending(recall, |c1.stream|))), Running);
    }
  }

  /** If a step finds a loop, and until recovery is handled no other step examines the history and no other recovery
      takes place, then recovery leaves exactly what truncating the examined history at its verdict leaves, whatever
      has been recorded in the meantime. So `RecoveryDropsRepetition` applies: every repeated step is gone. */
  lemma RecoveryAfterDetection(c: Controller, cfg: Config, step: Move, middle: seq<Move>, recovery: Move)
    requires Enabled(c, step) && Examines(c, cfg, step) && Stuck(Handled(c), cfg)
    requires var c1 := Next(c, cfg, step);
      && Legal(c1, cfg, middle) && NothingExamined(c1, cfg, middle)
      && var c2 := After(c1, cfg, middle);
      && Enabled(c2, recovery) && Recovers(c2, recovery)
      && (c2.stream[c2.next].body.option == 1 || c2.stream[c2.next].body.option == 2)
    ensures var h := Handled(c).history;
      Next(After(Next(c, cfg, step), cfg, middle), cfg, recovery).history
      == StuckRecovery.Truncate(h, Verdict(h, cfg.headless).value.start)
  {
    hide Next;
    hide Handled;
    hide Considered;
    hide Verdict;
    var h := Handled(c).history;
    var c1 := Next(c, cfg, step);
    AnalysisIsFreshExactly(c, cfg, step);
    if |Considered(h, cfg.headless)| < 3 {
      ControllerWitnesses.FewConsidered(h, cfg.headless);
    }
    QuietRun(c1, cfg, middle);
    var c2 := After(c1, cfg, middle);
    RecoveryTruncates(c2, cfg, recovery);
    StartInside(h, cfg.headless);
  }

  lemma StartInside(history: seq<Event>, headless: bool)
    requires Verdict(history, headless).Some?
    ensures Verdict(history, headless).value.start < |history|
  {
    hide LoopStart;
    hide Applies;
  }

  function RecoveryRequest(option: int): Event {
    Event(LoopRecovery(option), User, None, None, false)
  }

  /** A stale analysis matters: recovery then drops what the user has said since, although nothing was found
      after that. */
  lemma StaleRecovery(cfg: Config, o: Event, a: Event, text: string) returns (moves: seq<Move>, c: Controller)
    requires cfg.stuckDetection && !cfg.headless
    requires IsObservation(o) && Recorded(o) && !o.hidden && a.body.Run? && !IsCell(a) && !a.hidden
    ensures Legal(INITIAL, cfg, moves) && After(INITIAL, cfg, moves) == c
    ensures ControllerWitnesses.Quiet(c) && ControllerWitnesses.UserSays(text) in c.history &&
        Verdict(c.history, cfg.headless).None?
    ensures var asked := Emit(c, RecoveryRequest(1));
      && Enabled(asked, ControllerWitnesses.NOTHING)
      && Next(asked, cfg, ControllerWitnesses.NOTHING).history == [o, o, o, o]
  {
    hide Next;
    hide Legal;
    hide After;
    hide Verdict;
    moves := ControllerWitnesses.StaleAnalysis(cfg, o, a, text);
    c := After(INITIAL, cfg, moves);
    var asked := Emit(c, RecoveryRequest(1));
    RecoveryTruncates(asked, cfg, ControllerWitnesses.NOTHING);
    assert c.history[8] == ControllerWitnesses.UserSays(text);
  }
}
