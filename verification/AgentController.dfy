/** The agent controller in the imperative form of its source: handlers that assign fields one after the other.
    Each method is proved to compute the corresponding function of module ControllerSpec. */
module AgentController {
  import opened Options
  import opened Events
  import opened StuckSpec
  import opened ControllerSpec
  import StuckDetector

  class Agent {
    const cfg: Config
    var state: AgentState
    var pending: Option<Pending>
    var stream: seq<Event>
    var next: nat
    var history: seq<Event>
    var analysis: Option<Analysis>
    var delegating: bool

    function View(): Controller
      reads this
    {
      Controller(state, pending, stream, next, history, analysis, delegating)
    }

    constructor (cfg: Config)
      ensures this.cfg == cfg && View() == INITIAL
    {
      this.cfg := cfg;
      state, pending, stream, next := Loading, None, [], 0;
      history, analysis, delegating := [], None, false;
    }

    method AddEvent(e: Event) returns (id: nat)
      modifies this`stream
      ensures id == old(|stream|) && View() == Emit(old(View()), e)
    {
      id := |stream|;
      stream := stream + [e];
    }

    method ResetPending()
      modifies this`pending, this`stream
      ensures View() == Reset(old(View()))
    {
      hide NotExecuted;
      if pending.Some? {
        var found := false;
        var i := 0;
        while i < |history| && !found
          invariant 0 <= i <= |history|
          invariant found <==> exists k :: 0 <= k < i && Answers(history[k], pending.value)
        {
          if IsObservation(history[i]) && history[i].tool == pending.value.action.tool {
            found := true;
          }
          i := i + 1;
        }
        if !found {
          var _ := AddEvent(NotExecuted(state, pending.value));
        }
      }
      pending := None;
    }

    method SetAgentStateTo(target: AgentState)
      modifies this`state, this`pending, this`stream
      ensures View() == SetState(old(View()), target)
    {
      hide Reset;
      hide NotExecuted;
      if target == state {
        return;
      }
      state := target;
      if target.Stopped? || target.Error? {
        ResetPending();
      }
      if pending.Some? && (target.UserConfirmed? || target.UserRejected?) {
        var action := pending.value.action;
        if action.body.Run? {
          action := action.(body := action.body.(thought := ""));
          var decision := if target.UserConfirmed? then Confirmed else Denied;
          action := action.(body := action.body.(confirm := Some(decision)));
        }
        action := action.(source := Source.Agent);
        var id := AddEvent(OnStream(action));
        pending := Some(Pending(action, id));
      }
      var _ := AddEvent(StateChange(target));
    }

    method OnObservation(e: Event)
      modifies this`state, this`pending, this`stream
      ensures View() == HandleObservation(old(View()), e)
    {
      hide SetState;
      if pending.Some? && e.cause == Some(pending.value.id) {
        if state.AwaitingUserConfirmation? {
          return;
        }
        pending := None;
        if state.UserConfirmed? {
          SetAgentStateTo(Running);
        } else if state.UserRejected? {
          SetAgentStateTo(AwaitingUserInput);
        }
      }
    }

    method OnMessage(text: string, wait: bool, source: Source)
      modifies this`state, this`pending, this`stream
      ensures View() == HandleMessage(old(View()), text, wait, source)
    {
      if source == User {
        var recall := RecallFor(text);
        var id := AddEvent(recall);
        pending := Some(Pending(recall, id));
        if !state.Running? {
          SetAgentStateTo(Running);
        }
      } else if source == Source.Agent && wait {
        SetAgentStateTo(AwaitingUserInput);
      }
    }

    method TruncateMemory(point: nat)
      modifies this`history
      ensures View() == old(View()).(history := StuckRecovery.Truncate(old(history), point))
    {
      if point >= |history| {
        return;
      }
      history := history[..point];
    }

    method PerformLoopRecovery(point: nat)
      modifies this`state, this`pending, this`stream, this`history
      ensures View() == Recover(old(View()), point)
    {
      hide SetState;
      TruncateMemory(point);
      SetAgentStateTo(AwaitingUserInput);
      var _ := AddEvent(RECOVERED);
    }

    method RestartWithLastUserMessage(point: nat)
      modifies this`state, this`pending, this`stream, this`history
      ensures View() == Restart(old(View()), point)
    {
      hide SetState;
      hide Recover;
      hide HandleMessage;
      var i := StuckDetector.FindLastUserMessage(history);
      if i == 0 {
        PerformLoopRecovery(point);
      } else {
        var text := history[i - 1].body.text;
        TruncateMemory(point);
        SetAgentStateTo(Running);
        var _ := AddEvent(RECOVERED);
        OnMessage(text, false, User);
      }
    }

    method OnAction(e: Event)
      modifies this`state, this`pending, this`stream, this`history, this`delegating
      ensures View() == HandleAction(old(View()), e)
    {
      hide SetState;
      hide HandleMessage;
      hide Recover;
      hide Restart;
      match e.body {
        case ChangeState(target) => SetAgentStateTo(target);
        case Message(text, wait) => OnMessage(text, wait, e.source);
        case Delegate(task) =>
          delegating := true;
          if task.Some? {
            var _ := AddEvent(Event(Message("TASK: " + task.value, false), User, None, None, false));
          }
        case Finish => SetAgentStateTo(Finished);
        case Reject => SetAgentStateTo(Rejected);
        case LoopRecovery(option) =>
          if analysis.Some? {
            if option == 1 {
              PerformLoopRecovery(analysis.value.start);
            } else if option == 2 {
              RestartWithLastUserMessage(analysis.value.start);
            } else if option == 3 {
              SetAgentStateTo(Stopped);
            }
          }
        case _ =>
      }
    }

    method ReactToException(fault: Fault)
      modifies this`state, this`pending, this`stream
      ensures View() == React(old(View()), cfg, fault)
    {
      if cfg.callback && fault.RateLimit? && !fault.exhausted {
        SetAgentStateTo(RateLimited);
      } else {
        SetAgentStateTo(Error);
      }
    }

    /** The stuck check, by the detector proved in module StuckDetector. */
    method IsStuck() returns (stuck: bool)
      modifies this`analysis
      ensures stuck == Stuck(old(View()), cfg) && View() == Examine(old(View()), cfg)
    {
      stuck := false;
      if cfg.stuckDetection {
        var detector := new StuckDetector.Detector(history);
        detector.analysis := analysis;
        stuck := detector.IsStuck(cfg.headless);
        analysis := detector.analysis;
      }
    }

    method StepWithExceptionHandling(outcome: Outcome)
      modifies this`state, this`pending, this`stream, this`analysis
      ensures View() == Step(old(View()), cfg, outcome)
    {
      hide SetState;
      hide Stuck;
      hide Examine;
      if !state.Running? {
        return;
      }
      if pending.Some? {
        return;
      }
      var stuck := IsStuck();
      if stuck {
        ReactToException(OtherFault);
        return;
      }
      match outcome {
        case LimitHit => ReactToException(OtherFault);
        case BadAction(text) => var _ := AddEvent(Complaint(text));
        case ContextOverflow =>
          if cfg.truncation {
            var _ := AddEvent(Event(CondenseRequest, Source.Agent, None, None, false));
          } else {
            ReactToException(OtherFault);
          }
        case Raised(fault) => ReactToException(fault);
        case Act(proposed, risk) =>
          var action := Confirmable(cfg, proposed, risk);
          if !action.body.NullAction? {
            if NeedsConfirmation(action) {
              SetAgentStateTo(AwaitingUserConfirmation);
            }
            var id := AddEvent(OnStream(action));
            if Runnable(action) {
              pending := Some(Pending(action, id));
            }
          }
      }
    }

    /** `on_event`, without an active delegate: record, handle, and step if the event calls for it. */
    method OnEvent(outcome: Outcome)
      requires Concerns(View())
      modifies this`state, this`pending, this`stream, this`analysis, this`history, this`delegating, this`next
      ensures View() == Next(old(View()), cfg, Deliver(outcome, Handles([])))
    {
      hide HandleAction;
      hide HandleObservation;
      hide Step;
      var e := stream[next];
      next := next + 1;
      if Recorded(e) {
        history := history + [e];
      }
      if IsAction(e) {
        OnAction(e);
      } else {
        OnObservation(e);
      }
      if ShouldStep(View(), e) {
        StepWithExceptionHandling(outcome);
      }
    }
  }
}
