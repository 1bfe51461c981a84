/** Loading tokens under a row lock while any number of callers compete. Identity providers accept a refresh
    token only once, so no refresh token may be used for two refreshes. */
module TokenRefresh {
  import opened Options

  datatype Tokens = Tokens(access: string, refresh: string, accessExpires: int, refreshExpires: int)

  type Call = nat

  /** Where one call of `load_tokens` is. `Locked`: it holds the row lock and has read the row.
      `Refreshed`: the provider has answered, the answer is not committed yet. */
  datatype Phase =
    | Waiting
    | Locked(seen: Tokens)
    | Refreshed(seen: Tokens, answer: Tokens)
    | Done(result: Option<Tokens>)
    | Failed

  /** `issued` are all refresh tokens ever handed out, `used` those presented to the provider, in order. */
  datatype State = State(row: Option<Tokens>, lock: Option<Call>, calls: map<Call, Phase>, issued: set<string>,
                         used: seq<string>)

  datatype Step =
    | Begin(call: Call)
    | Lock(call: Call)
    | Refresh(call: Call, answer: Tokens)
    | Keep(call: Call)
    | Commit(call: Call)
    | Abort(call: Call)
    | Store(tokens: Tokens)

  predicate In(s: State, call: Call, phase: Phase -> bool) {
    call in s.calls && phase(s.calls[call])
  }

  predicate Enabled(s: State, step: Step) {
    match step
    case Begin(call) => call !in s.calls
    case Lock(call) => In(s, call, (p: Phase) => p.Waiting?) && s.lock.None?
    // the provider answers with tokens it has never handed out
    case Refresh(call, answer) => In(s, call, (p: Phase) => p.Locked?) && answer.refresh !in s.issued
    case Keep(call) => In(s, call, (p: Phase) => p.Locked?)
    case Commit(call) => In(s, call, (p: Phase) => p.Refreshed?)
    case Abort(call) => In(s, call, (p: Phase) => p.Locked? || p.Refreshed?)
    // `store_tokens` writes tokens of a new login once it gets the row lock
    case Store(tokens) => s.lock.None? && tokens.refresh !in s.issued
  }

  function Next(s: State, step: Step): State
    requires Enabled(s, step)
  {
    match step
    case Begin(call) => s.(calls := s.calls[call := Waiting])
    case Lock(call) =>
      if s.row.None? then s.(calls := s.calls[call := Done(None)])
      else s.(lock := Some(call), calls := s.calls[call := Locked(s.row.value)])
    case Refresh(call, answer) =>
      var seen := s.calls[call].seen;
      s.(calls := s.calls[call := Refreshed(seen, answer)], issued := s.issued + {answer.refresh},
          used := s.used + [seen.refresh])
    case Keep(call) => s.(lock := None, calls := s.calls[call := Done(Some(s.calls[call].seen))])
    case Commit(call) =>
      var answer := s.calls[call].answer;
      s.(row := Some(answer), lock := None, calls := s.calls[call := Done(Some(answer))])
    case Abort(call) => s.(lock := None, calls := s.calls[call := Failed])
    case Store(tokens) => s.(row := Some(tokens), issued := s.issued + {tokens.refresh})
  }

  const INITIAL := State(None, None, map[], {}, [])

  ghost predicate Run(s: State, steps: seq<Step>)
    decreases |steps|
  {
    steps == [] || (Enabled(s, steps[0]) && Run(Next(s, steps[0]), steps[1..]))
  }

  ghost function After(s: State, steps: seq<Step>): State
    requires Run(s, steps)
    decreases |steps|
  {
    if steps == [] then s else After(Next(s, steps[0]), steps[1..])
  }

  predicate NoRepetition(used: seq<string>) {
    forall i, j :: 0 <= i < j < |used| ==> used[i] != used[j]
  }

  /** A transaction is lost after the provider has answered and before the answer is committed. */
  predicate LosesAnswer(s: State, step: Step) {
    step.Abort? && In(s, step.call, (p: Phase) => p.Refreshed?)
  }

  ghost predicate NothingLost(s: State, steps: seq<Step>)
    requires Run(s, steps)
    decreases |steps|
  {
    steps == [] || (!LosesAnswer(s, steps[0]) && NothingLost(Next(s, steps[0]), steps[1..]))
  }

  ghost predicate Inv(s: State) {
    && (forall call :: call in s.calls && (s.calls[call].Locked? || s.calls[call].Refreshed?) ==>
          s.lock == Some(call) && s.row == Some(s.calls[call].seen))
    && (s.lock.Some? ==> In(s, s.lock.value, (p: Phase) => p.Locked? || p.Refreshed?))
    && (s.row.Some? ==> s.row.value.refresh in s.issued)
    && (forall call :: call in s.calls && s.calls[call].Refreshed? ==>
          s.calls[call].answer.refresh in s.issued && s.calls[call].seen.refresh in s.used)
    && (forall i :: 0 <= i < |s.used| ==> s.used[i] in s.issued)
  }

  /** The refresh token in the row is unused, unless the holder of the lock is just replacing it. */
  ghost predicate RowUsable(s: State) {
    && NoRepetition(s.used)
    && (s.row.Some? && !(s.lock.Some? && In(s, s.lock.value, (p: Phase) => p.Refreshed?)) ==>
        s.row.value.refresh !in s.used)
    && (forall call :: call in s.calls && s.calls[call].Refreshed? ==> s.calls[call].answer.refresh !in s.used)
  }

  lemma StepKeepsInv(s: State, step: Step)
    requires Inv(s) && Enabled(s, step)
    ensures Inv(Next(s, step))
    ensures RowUsable(s) && !LosesAnswer(s, step) ==> RowUsable(Next(s, step))
  {
  }

  lemma {:induction false} RunKeepsInv(s: State, steps: seq<Step>)
    requires Inv(s) && Run(s, steps)
    ensures Inv(After(s, steps))
    ensures RowUsable(s) && NothingLost(s, steps) ==> RowUsable(After(s, steps))
    decreases |steps|
  {
    if steps != [] {
      StepKeepsInv(s, steps[0]);
      RunKeepsInv(Next(s, steps[0]), steps[1..]);
    }
  }

  /** For every interleaving of calls: unless an answer is lost, each refresh token is used at most once. */
  lemma EachTokenUsedOnce(steps: seq<Step>)
    requires Run(INITIAL, steps) && NothingLost(INITIAL, steps)
    ensures NoRepetition(After(INITIAL, steps).used)
  {
    RunKeepsInv(INITIAL, steps);
  }

  /** In every interleaving, lost answers or not, a call that returns tokens returns what the row holds when its
      lock is released. */
  lemma CallersSeeTheRow(steps: seq<Step>, step: Step, call: Call)
    requires Run(INITIAL, steps)
    requires var s := After(INITIAL, steps);
      Enabled(s, step) && In(s, call, (p: Phase) => !p.Done?) && In(Next(s, step), call, (p: Phase) => p.Done?)
    ensures var t := Next(After(INITIAL, steps), step);
      t.lock.None? && t.row == t.calls[call].result
  {
    RunKeepsInv(INITIAL, steps);
  }

  /** The condition is needed: wherever a call has its answer but has not committed it, losing the answer lets the
      next caller use the same token again. */
  lemma LostAnswerRepeatsToken(s: State, call: Call, other: Call, answer: Tokens)
    requires Inv(s) && In(s, call, (p: Phase) => p.Refreshed?)
    requires other !in s.calls && answer.refresh !in s.issued
    ensures LosesAnswer(s, Abort(call))
    ensures var s1 := Next(s, Abort(call));
      && Enabled(s1, Begin(other))
      && var s2 := Next(s1, Begin(other));
      && Enabled(s2, Lock(other))
      && var s3 := Next(s2, Lock(other));
      && Enabled(s3, Refresh(other, answer))
      && !NoRepetition(Next(s3, Refresh(other, answer)).used)
  {
    var s3 := Next(Next(Next(s, Abort(call)), Begin(other)), Lock(other));
    var s4 := Next(s3, Refresh(other, answer));
    var i :| 0 <= i < |s.used| && s.used[i] == s.calls[call].seen.refresh;
    assert s4.used[i] == s4.used[|s.used|];
  }

  // ----- one call -----

  /** The row after a call whose callback answers with `answer`, or with nothing. */
  function Loaded(row: Option<Tokens>, answer: Option<Tokens>): Option<Tokens> {
    if row.Some? && answer.Some? then answer else row
  }

  /** The refresh tokens presented to the provider up to the end of such a call. */
  function Presented(row: Option<Tokens>, used: seq<string>, answer: Option<Tokens>): seq<string> {
    if row.Some? && answer.Some? then used + [row.value.refresh] else used
  }

  function CallSteps(s: State, call: Call, answer: Option<Tokens>): seq<Step> {
    if s.row.None? then [Begin(call), Lock(call)]
    else if answer.None? then [Begin(call), Lock(call), Keep(call)]
    else [Begin(call), Lock(call), Refresh(call, answer.value), Commit(call)]
  }

  /** A call that nobody interrupts is a run of its steps, from any state in which the row is not locked. */
  lemma UninterruptedCall(s: State, call: Call, answer: Option<Tokens>)
    requires s.lock.None? && call !in s.calls && (answer.Some? ==> answer.value.refresh !in s.issued)
    ensures Run(s, CallSteps(s, call, answer))
    ensures var t := After(s, CallSteps(s, call, answer));
      && t.row == Loaded(s.row, answer) && t.used == Presented(s.row, s.used, answer) && t.lock.None?
      && call in t.calls && t.calls[call] == Done(t.row)
  {
    var s1 := Next(s, Begin(call));
    var s2 := Next(s1, Lock(call));
    var rest := CallSteps(s, call, answer)[2..];
    if s.row.None? {
      assert rest == [];
    } else if answer.None? {
      RunCons(s2, Keep(call), []);
      assert rest == [Keep(call)] + [];
    } else {
      var s3 := Next(s2, Refresh(call, answer.value));
      RunCons(s3, Commit(call), []);
      RunCons(s2, Refresh(call, answer.value), [Commit(call)] + []);
      assert rest == [Refresh(call, answer.value)] + ([Commit(call)] + []);
    }
    RunCons(s1, Lock(call), rest);
    RunCons(s, Begin(call), [Lock(call)] + rest);
    assert CallSteps(s, call, answer) == [Begin(call)] + ([Lock(call)] + rest);
  }

  lemma RunCons(s: State, step: Step, rest: seq<Step>)
    requires Enabled(s, step) && Run(Next(s, step), rest)
    ensures Run(s, [step] + rest) && After(s, [step] + rest) == After(Next(s, step), rest)
  {
    assert ([step] + rest)[1..] == rest;
  }

  /** `load_tokens` as one transaction. `answer` is what the callback returns: new tokens, or nothing when no
      refresh is needed. The effect is that of the run in `UninterruptedCall`. */
  class TokenRow {
    var row: Option<Tokens>
    var used: seq<string>

    method LoadTokens(callback: bool, answer: Option<Tokens>) returns (result: Option<Tokens>)
      modifies this
      ensures row == result == Loaded(old(row), if callback then answer else None)
      ensures used == Presented(old(row), old(used), if callback then answer else None)
    {
      if row.None? {
        return None;
      }
      var record := row.value;
      var refresh := None;
      if callback {
        refresh := answer;
        if answer.Some? {
          used := used + [record.refresh];
        }
      }
      if refresh.Some? {
        row := refresh;
      }
      result := if refresh.Some? then refresh else Some(record);
    }
  }

  /** A transaction that aborts leaves the row as it was and frees it for the others; tokens of a new login replace
      it. */
  lemma RowLaw(s: State, step: Step)
    requires Enabled(s, step)
    ensures step.Abort? ==>
        Next(s, step).row == s.row && Next(s, step).lock.None? && Next(s, step).calls[step.call].Failed?
    ensures step.Store? ==> Next(s, step).row == Some(step.tokens) && Next(s, step).used == s.used
    ensures step.Keep? ==> Next(s, step).row == s.row && Next(s, step).used == s.used
  {
  }
}
