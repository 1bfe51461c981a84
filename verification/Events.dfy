/** The events of a conversation, as the controller, the stuck detector and the replay manager see them. */
module Events {
  import opened Options

  datatype Source = Agent | User | Environment

  datatype AgentState =
    | Loading | Running | AwaitingUserInput | Paused | Stopped | Finished | Rejected | Error
    | AwaitingUserConfirmation | UserConfirmed | UserRejected | RateLimited

  datatype Confirmation = Confirmed | Denied | Awaiting

  /** The kinds of actions that a runtime, or a memory for `Recall`, answers with an observation; the first five are the
      ones the confirmation gate looks at. */
  datatype RunKind = Command | Cell | Browse | FileEdit | FileRead | Recall | OtherRun

  /** What dataclass equality compares. Ids, sources, causes and tool call metadata are not part of it. */
  datatype Body =
    // actions
    | Message(text: string, wait: bool)
    | Run(kind: RunKind, code: string, thought: string, confirm: Option<Confirmation>)
    | ChangeState(target: AgentState)
    | Delegate(task: Option<string>)
    | Finish
    | Reject
    | LoopRecovery(option: int)
    | Condense
    | CondenseRequest
    | NullAction
    | OtherAction(text: string)
    // observations
    | CmdOutput(command: string, exitCode: int, output: string)
    | CellOutput(content: string)
    | Failure(text: string, errorId: string)
    | Condensed(text: string)
    | NullObservation
    | StateChanged(state: AgentState, reason: string)
    | OtherObservation(text: string)

  datatype Event = Event(body: Body, source: Source, cause: Option<int>, tool: Option<string>, hidden: bool)

  predicate IsObservation(e: Event) {
    e.body.CmdOutput? || e.body.CellOutput? || e.body.Failure? || e.body.Condensed? || e.body.NullObservation? ||
    e.body.StateChanged? || e.body.OtherObservation?
  }

  predicate IsAction(e: Event) {
    !IsObservation(e)
  }

  /** `runnable`: the runtime executes the action. */
  predicate Runnable(e: Event) {
    e.body.Run? && !e.body.kind.Recall?
  }

  predicate IsUserMessage(e: Event) {
    e.body.Message? && e.source == User
  }

  predicate IsAgentMessage(e: Event) {
    e.body.Message? && e.source == Agent
  }

  predicate IsNull(e: Event) {
    e.body.NullAction? || e.body.NullObservation?
  }

  predicate IsCondensation(e: Event) {
    e.body.Condensed?
  }

  /** Python's `==` on events. */
  predicate Same(a: Event, b: Event) {
    a.body == b.body
  }
}
