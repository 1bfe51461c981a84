/** When an agent counts as stuck, stated declaratively, and what recovery makes of the answer. */
module StuckSpec {
  import opened Options
  import opened Events
  import opened Sequences
  import opened Strings

  // ----- comparing events -----

  const EDIT_CALL := "edit_file_by_replace("

  function FirstThree(lines: seq<string>): seq<string> {
    if |lines| < 3 then lines else lines[..3]
  }

  predicate IsCell(e: Event) {
    e.body.Run? && e.body.kind.Cell?
  }

  /** `_eq_no_pid`. */
  predicate EqNoPid(a: Event, b: Event) {
    if IsCell(a) && IsCell(b) then
      if Contains(a.body.code, EDIT_CALL) && Contains(b.body.code, EDIT_CALL) then
        var linesA, linesB := Split(a.body.code, '\n'), Split(b.body.code, '\n');
        |linesA| > 2 && FirstThree(linesA) == FirstThree(linesB)
      else
        Same(a, b)
    else if a.body.CmdOutput? && b.body.CmdOutput? then
      a.body.command == b.body.command && a.body.exitCode == b.body.exitCode
    else
      Same(a, b)
  }

  lemma EqNoPidSymmetric(a: Event, b: Event)
    requires EqNoPid(a, b)
    ensures EqNoPid(b, a)
  {
    if IsCell(a) && IsCell(b) {
      assert |FirstThree(Split(a.body.code, '\n'))| == |FirstThree(Split(b.body.code, '\n'))| || Same(a, b);
    }
  }

  lemma EqNoPidTransitive(a: Event, b: Event, c: Event)
    requires EqNoPid(a, b) && EqNoPid(b, c)
    ensures EqNoPid(a, c)
  {
    EqNoPidSymmetric(a, b);
    EqNoPidSymmetric(b, c);
  }

  /** The comparison is not reflexive: an edit of fewer than three lines differs from itself. */
  lemma EqNoPidReflexive(a: Event)
    ensures EqNoPid(a, a) <==> !(IsCell(a) && Contains(a.body.code, EDIT_CALL) && |Split(a.body.code, '\n')| <= 2)
  {
  }

  predicate AllSame(xs: seq<Event>) {
    forall i, j :: 0 <= i < |xs| && 0 <= j < |xs| ==> EqNoPid(xs[i], xs[j])
  }

  predicate AllLike(x: Event, xs: seq<Event>) {
    forall i :: 0 <= i < |xs| ==> EqNoPid(x, xs[i])
  }

  /** Comparing everything with one element is enough, because the comparison is a partial equivalence. */
  lemma OneComparisonSuffices(xs: seq<Event>, pivot: nat)
    requires pivot < |xs|
    ensures AllSame(xs) <==> AllLike(xs[pivot], xs)
  {
    hide EqNoPid;
    if AllLike(xs[pivot], xs) {
      forall i, j | 0 <= i < |xs| && 0 <= j < |xs| ensures EqNoPid(xs[i], xs[j]) {
        EqNoPidSymmetric(xs[pivot], xs[i]);
        EqNoPidTransitive(xs[i], xs[pivot], xs[j]);
      }
    }
  }

  // ----- the events that are considered -----

  /** The position after the last user message, 0 if there is none. */
  function AfterLastUserMessage(history: seq<Event>): (k: nat)
    ensures k <= |history|
    ensures k != 0 ==> IsUserMessage(history[k - 1])
    ensures forall i :: k <= i < |history| ==> !IsUserMessage(history[i])
  {
    if history == [] then 0
    else
      var last := |history| - 1;
      if IsUserMessage(history[last]) then |history| else AfterLastUserMessage(history[..last])
  }

  /** The last user message of the history is at position `k`. */
  predicate LastMessageAt(history: seq<Event>, k: nat) {
    && k < |history| && IsUserMessage(history[k])
    && forall i :: k < i < |history| ==> !IsUserMessage(history[i])
  }

  predicate NoUserMessage(history: seq<Event>) {
    forall i :: 0 <= i < |history| ==> !IsUserMessage(history[i])
  }

  function Offset(history: seq<Event>, headless: bool): (k: nat)
    ensures k <= |history|
  {
    if headless then 0 else AfterLastUserMessage(history)
  }

  predicate Keep(e: Event) {
    !IsUserMessage(e) && !IsNull(e)
  }

  function Considered(history: seq<Event>, headless: bool): seq<Event> {
    Filter(history[Offset(history, headless)..], Keep)
  }

  // ----- the five scenarios -----

  function Last<T>(s: seq<T>, k: nat): seq<T>
    requires k <= |s|
  {
    s[|s| - k..]
  }

  predicate LastAllSame(s: seq<Event>, k: nat) {
    |s| >= k && AllSame(Last(s, k))
  }

  /** 1: the last four actions are the same, and so are the last four observations. */
  predicate RepeatsPair(f: seq<Event>) {
    LastAllSame(Filter(f, IsAction), 4) && LastAllSame(Filter(f, IsObservation), 4)
  }

  /** 2: the last three actions are the same, and the last three observations are errors. */
  predicate RepeatsError(f: seq<Event>) {
    var obs := Filter(f, IsObservation);
    && LastAllSame(Filter(f, IsAction), 3)
    && |obs| >= 3
    && (AllFailures(Last(obs, 3)) || SyntaxErrors(Last(obs, 3)))
  }

  predicate AllFailures(obs: seq<Event>) {
    forall i :: 0 <= i < |obs| ==> obs[i].body.Failure?
  }

  predicate AllCells(obs: seq<Event>) {
    forall i :: 0 <= i < |obs| ==> obs[i].body.CellOutput?
  }

  const UNTERMINATED := "SyntaxError: unterminated string literal (detected at line"
  const FORGOT_COMMA := "SyntaxError: invalid syntax. Perhaps you forgot a comma?"
  const DIRECTORY_LINE := "[Jupyter current working directory:"
  const INTERPRETER_LINE := "[Jupyter Python interpreter:"
  const HEAD := "Cell In[1], line"
  const INCOMPLETE := "SyntaxError: incomplete input"

  predicate SyntaxErrors(obs: seq<Event>) {
    && AllCells(obs)
    && (SameErrorLine(obs, UNTERMINATED) || SameInvalidSyntax(obs, FORGOT_COMMA) || SameInvalidSyntax(obs, INCOMPLETE))
  }

  function Lines(e: Event): (r: seq<string>)
    requires e.body.CellOutput?
    ensures |r| >= 1
  {
    Split(Strip(e.body.content), '\n')
  }

  function ErrorLine(e: Event): string
    requires e.body.CellOutput?
  {
    var lines := Lines(e);
    if |lines| < 3 then "" else lines[|lines| - 3]
  }

  function HeadLine(e: Event): string
    requires e.body.CellOutput?
  {
    Strip(Lines(e)[0])
  }

  /** The output ends with the two lines that the runtime appends. */
  predicate HasFooter(e: Event)
    requires e.body.CellOutput?
  {
    var lines := Lines(e);
    && |lines| >= 3
    && StartsWith(lines[|lines| - 2], DIRECTORY_LINE)
    && StartsWith(lines[|lines| - 1], INTERPRETER_LINE)
  }

  predicate ReportsError(e: Event, message: string)
    requires e.body.CellOutput?
  {
    HasFooter(e) && Contains(ErrorLine(e), message)
  }

  predicate HasHead(e: Event)
    requires e.body.CellOutput?
  {
    |Lines(e)| >= 6 && StartsWith(HeadLine(e), HEAD)
  }

  /** All outputs report the error, on the same line. */
  predicate SameErrorLine(obs: seq<Event>, message: string)
    requires AllCells(obs)
  {
    && (forall i :: 0 <= i < |obs| ==> ReportsError(obs[i], message))
    && (forall i :: 0 < i < |obs| ==> ErrorLine(obs[i]) == ErrorLine(obs[0]))
  }

  /** Moreover they all start with the same line of a real syntax error. */
  predicate SameInvalidSyntax(obs: seq<Event>, message: string)
    requires AllCells(obs)
  {
    && SameErrorLine(obs, message)
    && (forall i :: 0 <= i < |obs| ==> HasHead(obs[i]))
    && (forall i :: 0 < i < |obs| ==> HeadLine(obs[i]) == HeadLine(obs[0]))
  }

  /** 3: the last three agent messages are equal, with no observation between the first and the last. */
  predicate Monologue(f: seq<Event>) {
    var p := Positions(f, IsAgentMessage);
    var n := |p|;
    && n >= 3
    && Same(f[p[n - 3]], f[p[n - 2]]) && Same(f[p[n - 3]], f[p[n - 1]])
    && forall k :: p[n - 3] < k < p[n - 1] ==> !IsObservation(f[k])
  }

  /** 4: among the last six actions, and among the last six observations, every other one is the same. */
  predicate RepeatsAlternation(f: seq<Event>) {
    LastAlternate(Filter(f, IsAction)) && LastAlternate(Filter(f, IsObservation))
  }

  predicate LastAlternate(s: seq<Event>) {
    |s| >= 6 && var x := Last(s, 6); AllSame([x[0], x[2], x[4]]) && AllSame([x[1], x[3], x[5]])
  }

  /** 5: two of the last ten condensations are adjacent. */
  predicate CondensationLoop(f: seq<Event>) {
    var p := Positions(f, IsCondensation);
    |p| >= 10 && exists i :: |p| - 10 <= i < |p| - 1 && Adjacent(p, i)
  }

  predicate Adjacent(p: seq<nat>, i: nat)
    requires i + 1 < |p|
  {
    p[i + 1] == p[i] + 1
  }

  // ----- the verdict -----

  datatype LoopType = PairLoop | ErrorLoop | MonologueLoop | AlternationLoop | CondensingLoop

  /** `start` is an index into the raw history. */
  datatype Analysis = Analysis(loopType: LoopType, times: nat, start: nat)

  /** `filtered_history.index(e)`: the first event equal to `e`. */
  function IndexOf(f: seq<Event>, e: Event): (i: nat)
    requires exists k :: 0 <= k < |f| && Same(f[k], e)
    ensures i < |f| && Same(f[i], e) && forall j :: 0 <= j < i ==> !Same(f[j], e)
  {
    assert exists k :: 0 <= k < |f| && (x => Same(x, e))(f[k]) by {
      var k :| 0 <= k < |f| && Same(f[k], e);
      assert (x => Same(x, e))(f[k]);
    }
    First(f, x => Same(x, e))
  }

  /** The oldest of the last `k` actions, and where it is. */
  function Oldest(f: seq<Event>, k: nat): Event
    requires 0 < k && Filter(f, IsAction) != []
  {
    var actions := Newest(Filter(f, IsAction), k);
    actions[|actions| - 1]
  }

  function OldestPosition(f: seq<Event>, k: nat): (i: nat)
    requires 0 < k && Filter(f, IsAction) != []
    ensures i < |f|
  {
    var p := Positions(f, IsAction);
    p[if |p| < k then 0 else |p| - k]
  }

  lemma OldestIsThere(f: seq<Event>, k: nat)
    requires 0 < k && Filter(f, IsAction) != []
    ensures f[OldestPosition(f, k)] == Oldest(f, k)
  {
    hide Filter;
    hide Positions;
  }

  /** Index of the first event equal to the oldest of the last `k` actions. */
  function IndexOfOldest(f: seq<Event>, k: nat): (i: nat)
    requires 0 < k && Filter(f, IsAction) != []
    ensures i < |f|
  {
    OldestIsThere(f, k);
    assert Same(f[OldestPosition(f, k)], Oldest(f, k));
    IndexOf(f, Oldest(f, k))
  }

  lemma IndexOfOldestIsFirst(f: seq<Event>, k: nat)
    requires 0 < k && Filter(f, IsAction) != []
    ensures var i := IndexOfOldest(f, k);
      && Same(f[i], Oldest(f, k))
      && i <= OldestPosition(f, k)
      && forall j :: 0 <= j < i ==> !Same(f[j], Oldest(f, k))
  {
    hide Filter;
    hide Positions;
    hide Oldest;
    hide OldestPosition;
    OldestIsThere(f, k);
  }

  /** The first adjacent pair among the last ten condensations. */
  function FirstAdjacent(p: seq<nat>, i: nat): (k: nat)
    requires exists m :: i <= m < |p| - 1 && Adjacent(p, m)
    ensures i <= k < |p| - 1 && Adjacent(p, k) && forall m :: i <= m < k ==> !Adjacent(p, m)
    decreases |p| - i
  {
    if i < |p| - 1 && Adjacent(p, i) then i else FirstAdjacent(p, i + 1)
  }

  predicate Applies(f: seq<Event>, t: LoopType) {
    match t
    case PairLoop => RepeatsPair(f)
    case ErrorLoop => RepeatsError(f)
    case MonologueLoop => Monologue(f)
    case AlternationLoop => RepeatsAlternation(f)
    case CondensingLoop => CondensationLoop(f)
  }

  /** The scenarios are tried in a fixed order. */
  function Detect(f: seq<Event>): (r: Option<LoopType>)
    ensures r.Some? ==> Applies(f, r.value)
    ensures r.None? ==> forall t :: !Applies(f, t)
  {
    if Applies(f, PairLoop) then Some(PairLoop)
    else if Applies(f, ErrorLoop) then Some(ErrorLoop)
    else if Applies(f, MonologueLoop) then Some(MonologueLoop)
    else if Applies(f, AlternationLoop) then Some(AlternationLoop)
    else if Applies(f, CondensingLoop) then Some(CondensingLoop)
    else None
  }

  /** Where the loop starts, as an index into the considered events. */
  function LoopStart(f: seq<Event>, t: LoopType): (i: nat)
    requires Applies(f, t)
    ensures i < |f|
  {
    match t
    case PairLoop => IndexOfOldest(f, 4)
    case ErrorLoop => IndexOfOldest(f, 4)
    case MonologueLoop => var p := Positions(f, IsAgentMessage); p[|p| - 3]
    case AlternationLoop => IndexOfOldest(f, 6)
    case CondensingLoop => var p := Positions(f, IsCondensation); p[FirstAdjacent(p, |p| - 10)]
  }

  function Times(t: LoopType): nat {
    match t
    case PairLoop => 4
    case CondensingLoop => 2
    case _ => 3
  }

  function Analyze(f: seq<Event>, offset: nat): Option<Analysis> {
    match Detect(f)
    case None => None
    case Some(t) => Some(Analysis(t, Times(t), LoopStart(f, t) + offset))
  }

  function Verdict(history: seq<Event>, headless: bool): Option<Analysis> {
    Analyze(Considered(history, headless), Offset(history, headless))
  }

  /** The analysis that `is_stuck` leaves behind: with fewer than three events it is not touched. */
  function NextAnalysis(history: seq<Event>, headless: bool, before: Option<Analysis>): Option<Analysis> {
    if |Considered(history, headless)| < 3 then before else Verdict(history, headless)
  }
}
