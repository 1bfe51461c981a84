/** What the comparison of events and the five scenarios mean for the data: which differences count, which do not, and
    how many events of which kind make a loop. */
module StuckMeaning {
  import opened Options
  import opened Events
  import opened Sequences
  import opened Strings
  import opened StuckSpec
  import opened StuckRecovery

  // ----- the comparison -----

  /** A notebook cell that edits a file. */
  predicate Edits(e: Event) {
    e.body.Run? && e.body.kind == Cell && Contains(e.body.code, "edit_file_by_replace(")
  }

  /** Both texts have three lines or more, and the first three are equal. */
  predicate SameBeginning(a: string, b: string) {
    var x, y := Split(a, '\n'), Split(b, '\n');
    |x| >= 3 && |y| >= 3 && x[0] == y[0] && x[1] == y[1] && x[2] == y[2]
  }

  /** Command outputs may differ in their text but not in command and exit code; edits of at least three lines may
      differ after the third; everything else must be equal. */
  predicate Interchangeable(a: Event, b: Event) {
    if a.body.CmdOutput? && b.body.CmdOutput? then
      a.body.command == b.body.command && a.body.exitCode == b.body.exitCode
    else if Edits(a) && Edits(b) then SameBeginning(a.body.code, b.body.code)
    else a.body == b.body
  }

  lemma ComparisonMeans(a: Event, b: Event)
    ensures EqNoPid(a, b) <==> Interchangeable(a, b)
  {
    hide Contains;
    hide Split;
    if Edits(a) && Edits(b) {
      var x, y := Split(a.body.code, '\n'), Split(b.body.code, '\n');
      FirstThreeEqual(x, y);
    }
  }

  lemma FirstThreeEqual(x: seq<string>, y: seq<string>)
    ensures |x| > 2 && FirstThree(x) == FirstThree(y) <==>
      |x| >= 3 && |y| >= 3 && x[0] == y[0] && x[1] == y[1] && x[2] == y[2]
  {
    if |x| >= 3 && |y| >= 3 {
      assert FirstThree(x) == [x[0], x[1], x[2]] && FirstThree(y) == [y[0], y[1], y[2]];
    }
  }

  // ----- what is considered -----

  /** Everything but user messages and null events. */
  lemma KeepMeans(e: Event)
    ensures Keep(e) <==> e.body != NullAction && e.body != NullObservation && !(e.body.Message? && e.source == User)
  {
  }

  /** Without an interactive user the whole history is considered; with one, what follows the last user message, which
      is at position `k`, or everything if there is none. */
  lemma ConsideredMeans(history: seq<Event>, k: nat)
    ensures Considered(history, true) == Filter(history, Keep)
    ensures NoUserMessage(history) ==> Considered(history, false) == Filter(history, Keep)
    ensures LastMessageAt(history, k) ==> Considered(history, false) == Filter(history[k + 1..], Keep)
  {
    hide Filter;
    assert history[0..] == history;
    var last := AfterLastUserMessage(history);
    if LastMessageAt(history, k) {
      assert last == k + 1;
    }
  }

  // ----- what makes a loop -----

  /** The last `k` elements are there, and those whose numbers agree modulo `m` are interchangeable. */
  predicate LastInterchangeable(s: seq<Event>, k: nat, m: nat)
    requires m > 0
  {
    |s| >= k && forall i, j :: |s| - k <= i < |s| && |s| - k <= j < |s| && (i - j) % m == 0 ==>
        Interchangeable(s[i], s[j])
  }

  lemma LastAllSameMeans(s: seq<Event>, k: nat)
    ensures LastAllSame(s, k) <==> LastInterchangeable(s, k, 1)
  {
    hide EqNoPid;
    hide Interchangeable;
    if |s| >= k {
      var x := Last(s, k);
      forall i, j | 0 <= i < k && 0 <= j < k
        ensures EqNoPid(x[i], x[j]) <==> Interchangeable(s[|s| - k + i], s[|s| - k + j])
      {
        ComparisonMeans(x[i], x[j]);
      }
      if LastAllSame(s, k) {
        forall i, j | |s| - k <= i < |s| && |s| - k <= j < |s| ensures Interchangeable(s[i], s[j]) {
          assert EqNoPid(x[i - (|s| - k)], x[j - (|s| - k)]);
        }
      }
      if LastInterchangeable(s, k, 1) {
        forall i, j | 0 <= i < k && 0 <= j < k ensures EqNoPid(x[i], x[j]) {
          assert (i - j) % 1 == 0;
        }
      }
    }
  }

  lemma LastAlternateMeans(s: seq<Event>)
    ensures LastAlternate(s) <==> LastInterchangeable(s, 6, 2)
  {
    hide EqNoPid;
    hide Interchangeable;
    if |s| >= 6 {
      var x := Last(s, 6);
      SixMeans(x);
      forall i, j | 0 <= i < 6 && 0 <= j < 6
        ensures EqNoPid(x[i], x[j]) <==> Interchangeable(s[|s| - 6 + i], s[|s| - 6 + j])
      {
        ComparisonMeans(x[i], x[j]);
      }
      if LastAlternate(s) {
        forall i, j | |s| - 6 <= i < |s| && |s| - 6 <= j < |s| && (i - j) % 2 == 0 ensures Interchangeable(s[i], s[j]) {
          assert EqNoPid(x[i - (|s| - 6)], x[j - (|s| - 6)]);
        }
      }
      if LastInterchangeable(s, 6, 2) {
        forall i, j | 0 <= i < 6 && 0 <= j < 6 && (i - j) % 2 == 0 ensures EqNoPid(x[i], x[j]) {
          assert ((|s| - 6 + i) - (|s| - 6 + j)) % 2 == 0;
        }
      }
    }
  }

  lemma SixMeans(x: seq<Event>)
    requires |x| == 6
    ensures AllSame([x[0], x[2], x[4]]) && AllSame([x[1], x[3], x[5]]) <==>
      forall i, j :: 0 <= i < 6 && 0 <= j < 6 && (i - j) % 2 == 0 ==> EqNoPid(x[i], x[j])
  {
    hide EqNoPid;
    ThreeMean(x[0], x[2], x[4]);
    ThreeMean(x[1], x[3], x[5]);
    hide AllSame;
  }

  lemma ThreeMean(a: Event, b: Event, c: Event)
    ensures AllSame([a, b, c]) <==>
      && EqNoPid(a, a) && EqNoPid(a, b) && EqNoPid(a, c)
      && EqNoPid(b, a) && EqNoPid(b, b) && EqNoPid(b, c)
      && EqNoPid(c, a) && EqNoPid(c, b) && EqNoPid(c, c)
  {
    hide EqNoPid;
    var x := [a, b, c];
    assert x[0] == a && x[1] == b && x[2] == c;
  }

  /** Scenario 1: exactly the last four actions, and the last four observations, are interchangeable. */
  lemma PairLoopMeans(f: seq<Event>)
    ensures Applies(f, PairLoop) <==>
      LastInterchangeable(Filter(f, IsAction), 4, 1) && LastInterchangeable(Filter(f, IsObservation), 4, 1)
  {
    LastAllSameMeans(Filter(f, IsAction), 4);
    LastAllSameMeans(Filter(f, IsObservation), 4);
    hide LastAllSame;
    hide Filter;
  }

  /** Scenario 2: exactly the last three actions are interchangeable, and the last three observations are all
      failures, or all outputs of cells with the same syntax error. */
  lemma ErrorLoopMeans(f: seq<Event>)
    ensures var o := Filter(f, IsObservation); var n := |o|;
      Applies(f, ErrorLoop) <==>
      && LastInterchangeable(Filter(f, IsAction), 3, 1) && n >= 3
      && (|| (o[n - 3].body.Failure? && o[n - 2].body.Failure? && o[n - 1].body.Failure?)
          || SyntaxErrors([o[n - 3], o[n - 2], o[n - 1]]))
  {
    hide LastAllSame;
    hide LastInterchangeable;
    hide Filter;
    hide SyntaxErrors;
    hide AllFailures;
    var o := Filter(f, IsObservation);
    LastAllSameMeans(Filter(f, IsAction), 3);
    if |o| >= 3 {
      LastThree(o);
      ThreeFailures(o[|o| - 3], o[|o| - 2], o[|o| - 1]);
    }
  }

  lemma LastThree(o: seq<Event>)
    requires |o| >= 3
    ensures Last(o, 3) == [o[|o| - 3], o[|o| - 2], o[|o| - 1]]
  {
  }

  lemma ThreeFailures(a: Event, b: Event, c: Event)
    ensures AllFailures([a, b, c]) <==> a.body.Failure? && b.body.Failure? && c.body.Failure?
  {
    var x := [a, b, c];
    assert x[0] == a && x[1] == b && x[2] == c;
  }

  /** Scenario 4: exactly, among the last six actions and among the last six observations, every other one is
      interchangeable. */
  lemma AlternationLoopMeans(f: seq<Event>)
    ensures Applies(f, AlternationLoop) <==>
      LastInterchangeable(Filter(f, IsAction), 6, 2) && LastInterchangeable(Filter(f, IsObservation), 6, 2)
  {
    LastAlternateMeans(Filter(f, IsAction));
    LastAlternateMeans(Filter(f, IsObservation));
    hide LastAlternate;
    hide Filter;
  }

  /** The output of a cell, in lines. */
  function OutputLines(e: Event): seq<string>
    requires e.body.CellOutput?
  {
    Split(Strip(e.body.content), '\n')
  }

  /** The third line from the end has the message, above the two lines that the runtime adds. */
  predicate ErrorAboveFooter(e: Event, message: string) {
    && e.body.CellOutput?
    && var lines := OutputLines(e); var n := |lines|;
    && n >= 3 && Contains(lines[n - 3], message)
    && "[Jupyter current working directory:" <= lines[n - 2] && "[Jupyter Python interpreter:" <= lines[n - 1]
  }

  /** The output has six lines or more and starts like the report of a syntax error. */
  predicate StartsAsSyntaxError(e: Event) {
    && e.body.CellOutput?
    && var lines := OutputLines(e);
    |lines| >= 6 && "Cell In[1], line" <= Strip(lines[0])
  }

  predicate SameErrorText(a: Event, b: Event) {
    && a.body.CellOutput? && b.body.CellOutput? && |OutputLines(a)| >= 3 && |OutputLines(b)| >= 3
    && OutputLines(a)[|OutputLines(a)| - 3] == OutputLines(b)[|OutputLines(b)| - 3]
  }

  predicate SameFirstLine(a: Event, b: Event) {
    && a.body.CellOutput? && b.body.CellOutput? && |OutputLines(a)| >= 1 && |OutputLines(b)| >= 1
    && Strip(OutputLines(a)[0]) == Strip(OutputLines(b)[0])
  }

  /** The same error in the same line, three times. */
  lemma SameErrorLineMeans(a: Event, b: Event, c: Event, message: string)
    requires AllCells([a, b, c])
    ensures SameErrorLine([a, b, c], message) <==>
      && ErrorAboveFooter(a, message) && ErrorAboveFooter(b, message) && ErrorAboveFooter(c, message)
      && SameErrorText(a, b) && SameErrorText(b, c)
  {
    hide ReportsError;
    hide ErrorLine;
    hide OutputLines;
    hide SameErrorLine;
    hide ErrorAboveFooter;
    CellsAre(a, b, c);
    ReportsErrorMeans(a, message);
    ReportsErrorMeans(b, message);
    ReportsErrorMeans(c, message);
    ThreeErrorLines(a, b, c, message);
  }

  lemma ThreeErrorLines(a: Event, b: Event, c: Event, message: string)
    requires AllCells([a, b, c]) && a.body.CellOutput? && b.body.CellOutput? && c.body.CellOutput?
    ensures SameErrorLine([a, b, c], message) <==>
      && ReportsError(a, message) && ReportsError(b, message) && ReportsError(c, message)
      && ErrorLine(a) == ErrorLine(b) == ErrorLine(c)
  {
    hide ReportsError;
    hide ErrorLine;
    var x := [a, b, c];
    assert x[0] == a && x[1] == b && x[2] == c;
  }

  lemma ThreeHeadLines(a: Event, b: Event, c: Event, message: string)
    requires AllCells([a, b, c]) && a.body.CellOutput? && b.body.CellOutput? && c.body.CellOutput?
    ensures SameInvalidSyntax([a, b, c], message) <==>
      && SameErrorLine([a, b, c], message)
      && HasHead(a) && HasHead(b) && HasHead(c)
      && HeadLine(a) == HeadLine(b) == HeadLine(c)
  {
    hide SameErrorLine;
    hide HasHead;
    hide HeadLine;
    var x := [a, b, c];
    assert x[0] == a && x[1] == b && x[2] == c;
  }

  lemma CellsAre(a: Event, b: Event, c: Event)
    requires AllCells([a, b, c])
    ensures a.body.CellOutput? && b.body.CellOutput? && c.body.CellOutput?
  {
    var x := [a, b, c];
    assert x[0] == a && x[1] == b && x[2] == c;
  }

  lemma ReportsErrorMeans(e: Event, message: string)
    requires e.body.CellOutput?
    ensures ReportsError(e, message) <==> ErrorAboveFooter(e, message)
    ensures ReportsError(e, message) ==> |OutputLines(e)| >= 3 && ErrorLine(e) == OutputLines(e)[|OutputLines(e)| - 3]
  {
    hide Strip;
    hide Split;
    hide Contains;
  }

  /** Invalid syntax: moreover all three start with the same line of a syntax error. */
  lemma SameInvalidSyntaxMeans(a: Event, b: Event, c: Event, message: string)
    requires AllCells([a, b, c])
    ensures SameInvalidSyntax([a, b, c], message) <==>
      && SameErrorLine([a, b, c], message)
      && StartsAsSyntaxError(a) && StartsAsSyntaxError(b) && StartsAsSyntaxError(c)
      && SameFirstLine(a, b) && SameFirstLine(b, c)
  {
    hide SameErrorLine;
    hide SameInvalidSyntax;
    hide Strip;
    hide Split;
    CellsAre(a, b, c);
    ThreeHeadLines(a, b, c, message);
  }

  /** In particular a repeated command output has the same command and the same exit code each time. */
  lemma RepeatedOutputsAgree(f: seq<Event>, t: LoopType, i: nat, j: nat)
    requires (t == PairLoop || t == AlternationLoop) && Applies(f, t)
    requires var n, k := |Filter(f, IsObservation)|, if t == PairLoop then 4 else 6;
      n - k <= i < n && n - k <= j < n && (t == AlternationLoop ==> (i - j) % 2 == 0)
    ensures var o := Filter(f, IsObservation); o[i].body.CmdOutput? && o[j].body.CmdOutput? ==>
      o[i].body.command == o[j].body.command && o[i].body.exitCode == o[j].body.exitCode
  {
    PairLoopMeans(f);
    AlternationLoopMeans(f);
    hide Applies;
    hide Filter;
    var o := Filter(f, IsObservation);
    assert (i - j) % 1 == 0;
    assert Interchangeable(o[i], o[j]);
  }

  /** Scenario 3: exactly, the last three agent messages are equal, without an observation between them. */
  ghost predicate ThreeMessages(f: seq<Event>, i: nat, j: nat, k: nat) {
    && i < j < k < |f| && IsAgentMessage(f[i]) && IsAgentMessage(f[j]) && IsAgentMessage(f[k])
    && (forall m :: i < m < |f| && IsAgentMessage(f[m]) ==> m == j || m == k)
    && f[i].body == f[j].body == f[k].body
    && (forall m :: i < m < k ==> !IsObservation(f[m]))
  }

  lemma MonologueMeans(f: seq<Event>)
    ensures Applies(f, MonologueLoop) <==> exists i, j, k :: ThreeMessages(f, i, j, k)
  {
    hide ThreeMessages;
    hide Monologue;
    if Monologue(f) {
      var i, j, k := MonologueHasThree(f);
    }
    if i, j, k :| ThreeMessages(f, i, j, k) {
      ThreeAreMonologue(f, i, j, k);
    }
  }

  lemma MonologueHasThree(f: seq<Event>) returns (i: nat, j: nat, k: nat)
    requires Monologue(f)
    ensures ThreeMessages(f, i, j, k)
  {
    hide Positions;
    hide Filter;
    var p := Positions(f, IsAgentMessage);
    i, j, k := p[|p| - 3], p[|p| - 2], p[|p| - 1];
    assert f[i] == Filter(f, IsAgentMessage)[|p| - 3];
    assert f[j] == Filter(f, IsAgentMessage)[|p| - 2];
    assert f[k] == Filter(f, IsAgentMessage)[|p| - 1];
    assert i < j < k;
    forall m | i < m < |f| && IsAgentMessage(f[m]) ensures m == j || m == k {
      var q := PositionNumber(f, IsAgentMessage, m);
      NumberAfter(f, IsAgentMessage, |p| - 3, q);
    }
  }

  lemma NumberAfter(f: seq<Event>, p: Event -> bool, a: nat, b: nat)
    requires a < |Positions(f, p)| && b < |Positions(f, p)| && Positions(f, p)[a] < Positions(f, p)[b]
    ensures a < b
  {
    hide Positions;
    hide Filter;
  }

  lemma ThreeAreMonologue(f: seq<Event>, i: nat, j: nat, k: nat)
    requires ThreeMessages(f, i, j, k)
    ensures Monologue(f)
  {
    hide Positions;
    hide Filter;
    var a := PositionNumber(f, IsAgentMessage, i);
    var b := PositionNumber(f, IsAgentMessage, j);
    var c := PositionNumber(f, IsAgentMessage, k);
    NumberAfter(f, IsAgentMessage, a, b);
    NumberAfter(f, IsAgentMessage, b, c);
    LastPosition(f, IsAgentMessage, c);
    Between(f, IsAgentMessage, b, c);
    Between(f, IsAgentMessage, a, b);
  }

  lemma PositionNumber(f: seq<Event>, p: Event -> bool, m: nat) returns (q: nat)
    requires m < |f| && p(f[m])
    ensures q < |Positions(f, p)| && Positions(f, p)[q] == m
  {
    PositionsComplete(f, p, m);
    q :| 0 <= q < |Positions(f, p)| && Positions(f, p)[q] == m;
  }

  lemma LastPosition(f: seq<Event>, p: Event -> bool, c: nat)
    requires c < |Positions(f, p)| && forall m :: Positions(f, p)[c] < m < |f| ==> !p(f[m])
    ensures c == |Positions(f, p)| - 1
  {
    hide Positions;
    hide Filter;
    var s := Positions(f, p);
    assert s[c] <= s[|s| - 1] && f[s[|s| - 1]] == Filter(f, p)[|s| - 1];
  }

  lemma Between(f: seq<Event>, p: Event -> bool, b: nat, c: nat)
    requires b < c < |Positions(f, p)|
    requires forall m :: Positions(f, p)[b] < m < Positions(f, p)[c] ==> !p(f[m])
    ensures c == b + 1
  {
    hide Positions;
    hide Filter;
    var s := Positions(f, p);
    assert s[b] < s[b + 1] <= s[c] && f[s[b + 1]] == Filter(f, p)[b + 1];
  }

  /** Scenario 5: exactly, there are at least ten condensations, and two of them are neighbours with at most ten from
      the first of the two on. */
  ghost predicate NeighboursAt(f: seq<Event>, i: nat) {
    && i + 1 < |f| && f[i].body.Condensed? && f[i + 1].body.Condensed?
    && |Filter(f[i..], IsCondensation)| <= 10
  }

  lemma CondensingMeans(f: seq<Event>)
    ensures Applies(f, CondensingLoop) <==>
      |Filter(f, IsCondensation)| >= 10 && exists i :: NeighboursAt(f, i)
  {
    hide NeighboursAt;
    hide Filter;
    hide Positions;
    var p := Positions(f, IsCondensation);
    if CondensationLoop(f) {
      var q :| |p| - 10 <= q < |p| - 1 && Adjacent(p, q);
      AdjacentAreNeighbours(f, q);
    }
    if |p| >= 10 && exists i :: NeighboursAt(f, i) {
      var i :| NeighboursAt(f, i);
      var q := NeighboursAreAdjacent(f, i);
      assert |p| - 10 <= q < |p| - 1 && Adjacent(p, q);
    }
  }

  lemma AdjacentAreNeighbours(f: seq<Event>, q: nat)
    requires var p := Positions(f, IsCondensation); |p| - 10 <= q < |p| - 1 && Adjacent(p, q)
    ensures NeighboursAt(f, Positions(f, IsCondensation)[q])
  {
    hide Filter;
    hide Positions;
    var p := Positions(f, IsCondensation);
    NumberFrom(f, IsCondensation, q);
    assert f[p[q]] == Filter(f, IsCondensation)[q] && f[p[q + 1]] == Filter(f, IsCondensation)[q + 1];
  }

  lemma NeighboursAreAdjacent(f: seq<Event>, i: nat) returns (q: nat)
    requires NeighboursAt(f, i)
    ensures var p := Positions(f, IsCondensation); |p| - 10 <= q < |p| - 1 && Adjacent(p, q)
  {
    hide Filter;
    hide Positions;
    q := PositionNumber(f, IsCondensation, i);
    var b := PositionNumber(f, IsCondensation, i + 1);
    NumberFrom(f, IsCondensation, q);
    NumberAfter(f, IsCondensation, q, b);
    Between(f, IsCondensation, q, b);
  }

  lemma NumberFrom(f: seq<Event>, p: Event -> bool, q: nat)
    requires q < |Positions(f, p)|
    ensures |Filter(f[Positions(f, p)[q]..], p)| == |Positions(f, p)| - q
  {
    var i := Positions(f, p)[q];
    FilterBeforePosition(f, p, q);
    FilterConcat(f[..i], f[i..], p);
    assert f == f[..i] + f[i..];
  }

  /** The scenarios are tried in the order of their numbers. */
  function Number(t: LoopType): nat {
    match t
    case PairLoop => 1
    case ErrorLoop => 2
    case MonologueLoop => 3
    case AlternationLoop => 4
    case CondensingLoop => 5
  }

  lemma FirstThatApplies(f: seq<Event>, t: LoopType)
    ensures Detect(f) == Some(t) <==> Applies(f, t) && forall u :: Number(u) < Number(t) ==> !Applies(f, u)
  {
    hide Applies;
  }

  /** The reported number of repetitions is that of the repeated steps, or of pairs of them for scenario 4. */
  lemma TimesCountSteps(f: seq<Event>, t: LoopType)
    requires Applies(f, t)
    ensures |RepeatedSteps(f, t)| == if t == AlternationLoop then 2 * Times(t) else Times(t)
  {
    hide AllSame;
    hide Filter;
    hide SyntaxErrors;
  }

  // ----- what does not matter -----

  /** Two events of the same origin that are equal, or differ in what the comparison leaves out. */
  predicate Alike(a: Event, b: Event) {
    a == b ||
        (a.source == b.source && (a.body.CmdOutput? || Edits(a)) && (b.body.CmdOutput? || Edits(b)) &&
            Interchangeable(a, b))
  }

  predicate AllAlike(f: seq<Event>, g: seq<Event>) {
    |f| == |g| && forall i :: 0 <= i < |f| ==> Alike(f[i], g[i])
  }

  /** The predicate looks at nothing that may differ. */
  ghost predicate Blind(p: Event -> bool) {
    forall a, b :: Alike(a, b) ==> p(a) == p(b)
  }

  lemma {:induction false} FilterAlike(f: seq<Event>, g: seq<Event>, p: Event -> bool)
    requires AllAlike(f, g) && Blind(p)
    ensures AllAlike(Filter(f, p), Filter(g, p)) && Positions(f, p) == Positions(g, p)
  {
    hide Alike;
    if f != [] {
      var last := |f| - 1;
      FilterAlike(f[..last], g[..last], p);
      assert Alike(f[last], g[last]) && p(f[last]) == p(g[last]);
      hide Blind;
    }
  }

  lemma KindsAreBlind()
    ensures Blind(IsAction) && Blind(IsObservation) && Blind(Keep) && Blind(IsAgentMessage) && Blind(IsCondensation)
    ensures Blind(IsUserMessage)
  {
    hide Contains;
    hide SameBeginning;
  }

  lemma ComparisonAlike(a: Event, b: Event, a': Event, b': Event)
    requires Alike(a, a') && Alike(b, b')
    ensures EqNoPid(a, b) <==> EqNoPid(a', b')
  {
    ComparisonMeans(a, a');
    ComparisonMeans(b, b');
    hide Interchangeable;
    if a != a' {
      EqNoPidSymmetric(a, a');
    }
    if b != b' {
      EqNoPidSymmetric(b, b');
    }
    hide EqNoPid;
    if EqNoPid(a, b) {
      Through(a', a, b, b', a == a', b == b');
    }
    if EqNoPid(a', b') {
      Through(a, a', b', b, a == a', b == b');
    }
  }

  lemma Through(a: Event, b: Event, c: Event, d: Event, same: bool, same': bool)
    requires (same ==> a == b) && (!same ==> EqNoPid(a, b)) && EqNoPid(b, c)
    requires (same' ==> c == d) && (!same' ==> EqNoPid(c, d))
    ensures EqNoPid(a, d)
  {
    hide EqNoPid;
    if !same {
      EqNoPidTransitive(a, b, c);
    }
    if !same' {
      EqNoPidTransitive(a, c, d);
    }
  }

  lemma LastInterchangeableAlike(f: seq<Event>, g: seq<Event>, k: nat, m: nat)
    requires AllAlike(f, g) && m > 0
    ensures LastInterchangeable(f, k, m) <==> LastInterchangeable(g, k, m)
  {
    hide Alike;
    hide Interchangeable;
    forall i, j | 0 <= i < |f| && 0 <= j < |f| ensures Interchangeable(f[i], f[j]) <==> Interchangeable(g[i], g[j]) {
      ComparisonMeans(f[i], f[j]);
      ComparisonMeans(g[i], g[j]);
      ComparisonAlike(f[i], f[j], g[i], g[j]);
    }
  }

  lemma ErrorsAlike(f: seq<Event>, g: seq<Event>)
    requires AllAlike(f, g) && |f| == 3 && forall i :: 0 <= i < 3 ==> IsObservation(f[i])
    ensures AllFailures(f) <==> AllFailures(g)
    ensures SyntaxErrors(f) <==> SyntaxErrors(g)
  {
    hide Contains;
    hide SameBeginning;
    assert forall i :: 0 <= i < 3 ==> f[i] == g[i] || (f[i].body.CmdOutput? && g[i].body.CmdOutput?);
    assert AllCells(f) || AllCells(g) ==> f == g;
  }

  /** Differences that the comparison leaves out change nothing about which scenarios apply. */
  lemma LoopsAlike(f: seq<Event>, g: seq<Event>, t: LoopType)
    requires AllAlike(f, g)
    ensures Applies(f, t) <==> Applies(g, t)
  {
    KindsAreBlind();
    hide Blind;
    FilterAlike(f, g, IsAction);
    FilterAlike(f, g, IsObservation);
    FilterAlike(f, g, IsAgentMessage);
    FilterAlike(f, g, IsCondensation);
    hide Filter;
    hide Positions;
    match t
    case PairLoop =>
      PairLoopMeans(f);
      PairLoopMeans(g);
      LastInterchangeableAlike(Filter(f, IsAction), Filter(g, IsAction), 4, 1);
      LastInterchangeableAlike(Filter(f, IsObservation), Filter(g, IsObservation), 4, 1);
      hide LastInterchangeable;
      hide Applies;
    case ErrorLoop => ErrorLoopsAlike(f, g);
    case MonologueLoop => MonologuesAlike(f, g);
    case AlternationLoop =>
      AlternationLoopMeans(f);
      AlternationLoopMeans(g);
      LastInterchangeableAlike(Filter(f, IsAction), Filter(g, IsAction), 6, 2);
      LastInterchangeableAlike(Filter(f, IsObservation), Filter(g, IsObservation), 6, 2);
      hide LastInterchangeable;
      hide Applies;
    case CondensingLoop =>
  }

  lemma ErrorLoopsAlike(f: seq<Event>, g: seq<Event>)
    requires AllAlike(Filter(f, IsAction), Filter(g, IsAction))
    requires AllAlike(Filter(f, IsObservation), Filter(g, IsObservation))
    ensures Applies(f, ErrorLoop) <==> Applies(g, ErrorLoop)
  {
    var o, o' := Filter(f, IsObservation), Filter(g, IsObservation);
    hide Filter;
    hide SyntaxErrors;
    hide AllFailures;
    hide Alike;
    LastAllSameMeans(Filter(f, IsAction), 3);
    LastAllSameMeans(Filter(g, IsAction), 3);
    LastInterchangeableAlike(Filter(f, IsAction), Filter(g, IsAction), 3, 1);
    hide LastInterchangeable;
    hide LastAllSame;
    if |o| >= 3 {
      ErrorsAlike(Last(o, 3), Last(o', 3));
    }
  }

  lemma MonologuesAlike(f: seq<Event>, g: seq<Event>)
    requires AllAlike(f, g) && Positions(f, IsAgentMessage) == Positions(g, IsAgentMessage)
    ensures Applies(f, MonologueLoop) <==> Applies(g, MonologueLoop)
  {
    hide Positions;
    hide Filter;
    hide Contains;
    hide SameBeginning;
    var p := Positions(f, IsAgentMessage);
    forall i | 0 <= i < |p| ensures f[p[i]] == g[p[i]] {
      assert f[p[i]] == Filter(f, IsAgentMessage)[i];
    }
    forall k | 0 <= k < |f| ensures IsObservation(f[k]) == IsObservation(g[k]) {
      assert Alike(f[k], g[k]);
    }
  }

  lemma ConsideredAlike(h: seq<Event>, h': seq<Event>, headless: bool)
    requires AllAlike(h, h')
    ensures Offset(h, headless) == Offset(h', headless)
    ensures AllAlike(Considered(h, headless), Considered(h', headless))
  {
    KindsAreBlind();
    assert forall i :: 0 <= i < |h| ==> IsUserMessage(h[i]) == IsUserMessage(h'[i]);
    hide Blind;
    hide Alike;
    var k, k' := AfterLastUserMessage(h), AfterLastUserMessage(h');
    assert k == k';
    FilterAlike(h[Offset(h, headless)..], h'[Offset(h, headless)..], Keep);
  }

  /** So they do not change whether the agent is stuck, nor in which loop. If only the texts of command outputs
      differ, the whole verdict is the same, the start of the loop included. */
  lemma DifferencesLeftOut(h: seq<Event>, h': seq<Event>, headless: bool)
    requires AllAlike(h, h')
    ensures Detect(Considered(h, headless)) == Detect(Considered(h', headless))
    ensures (forall i :: 0 <= i < |h| && IsAction(h[i]) ==> h[i] == h'[i]) ==>
        Verdict(h, headless) == Verdict(h', headless)
  {
    ConsideredAlike(h, h', headless);
    DetectAlike(Considered(h, headless), Considered(h', headless));
    hide AllAlike;
    hide Considered;
    hide Offset;
    if forall i :: 0 <= i < |h| && IsAction(h[i]) ==> h[i] == h'[i] {
      ActionsStay(h, h', headless);
      AnalyzeAlike(Considered(h, headless), Considered(h', headless), Offset(h, headless));
    }
  }

  lemma DetectAlike(f: seq<Event>, g: seq<Event>)
    requires AllAlike(f, g)
    ensures Detect(f) == Detect(g)
  {
    hide Applies;
    hide AllAlike;
    forall t ensures Applies(f, t) <==> Applies(g, t) {
      LoopsAlike(f, g, t);
    }
  }

  lemma AnalyzeAlike(f: seq<Event>, g: seq<Event>, offset: nat)
    requires AllAlike(f, g) && ActionsEqual(f, g)
    ensures Analyze(f, offset) == Analyze(g, offset)
  {
    hide Applies;
    hide LoopStart;
    hide Detect;
    hide AllAlike;
    hide ActionsEqual;
    DetectAlike(f, g);
    if Detect(f).Some? {
      StartsAlike(f, g, Detect(f).value);
    }
  }

  predicate ActionsEqual(f: seq<Event>, g: seq<Event>)
    requires |f| == |g|
  {
    forall i :: 0 <= i < |f| && IsAction(f[i]) ==> f[i] == g[i]
  }

  lemma ActionsStay(h: seq<Event>, h': seq<Event>, headless: bool)
    requires AllAlike(h, h') && ActionsEqual(h, h')
    ensures |Considered(h, headless)| == |Considered(h', headless)|
    ensures ActionsEqual(Considered(h, headless), Considered(h', headless))
  {
    ConsideredAlike(h, h', headless);
    KindsAreBlind();
    hide Blind;
    var k := Offset(h, headless);
    hide Alike;
    FilterAlike(h[k..], h'[k..], Keep);
    hide Filter;
    hide Offset;
    var p := Positions(h[k..], Keep);
    var f, g := Considered(h, headless), Considered(h', headless);
    forall i | 0 <= i < |f| && IsAction(f[i]) ensures f[i] == g[i] {
      assert f[i] == h[k..][p[i]] && g[i] == h'[k..][p[i]];
    }
  }

  lemma StartsAlike(f: seq<Event>, g: seq<Event>, t: LoopType)
    requires AllAlike(f, g) && ActionsEqual(f, g) && Applies(f, t) && Applies(g, t)
    ensures LoopStart(f, t) == LoopStart(g, t)
  {
    hide Applies;
    hide LoopStart;
    hide AllAlike;
    hide ActionsEqual;
    match t
    case MonologueLoop => MonologueStartsAlike(f, g);
    case CondensingLoop => CondensingStartsAlike(f, g);
    case _ => ActionStartsAlike(f, g, t);
  }

  lemma ActionStartsAlike(f: seq<Event>, g: seq<Event>, t: LoopType)
    requires AllAlike(f, g) && ActionsEqual(f, g) && Applies(f, t) && Applies(g, t) && ByAction(t)
    ensures LoopStart(f, t) == LoopStart(g, t)
  {
    hide Applies;
    hide LoopStart;
    hide AllAlike;
    hide ActionsEqual;
    hide Blind;
    hide Filter;
    hide Positions;
    hide IndexOfOldest;
    KindsAreBlind();
    FilterAlike(f, g, IsAction);
    StartByAction(f, t);
    StartByAction(g, t);
    OldestAlike(f, g, Depth(t));
  }

  lemma MonologueStartsAlike(f: seq<Event>, g: seq<Event>)
    requires AllAlike(f, g) && Applies(f, MonologueLoop) && Applies(g, MonologueLoop)
    ensures LoopStart(f, MonologueLoop) == LoopStart(g, MonologueLoop)
  {
    hide Applies;
    hide LoopStart;
    hide AllAlike;
    hide Blind;
    hide Filter;
    hide Positions;
    KindsAreBlind();
    FilterAlike(f, g, IsAgentMessage);
    MonologueStart(f);
    MonologueStart(g);
  }

  lemma CondensingStartsAlike(f: seq<Event>, g: seq<Event>)
    requires AllAlike(f, g) && Applies(f, CondensingLoop) && Applies(g, CondensingLoop)
    ensures LoopStart(f, CondensingLoop) == LoopStart(g, CondensingLoop)
  {
    hide Applies;
    hide LoopStart;
    hide AllAlike;
    hide Blind;
    hide Filter;
    hide Positions;
    hide FirstAdjacent;
    KindsAreBlind();
    FilterAlike(f, g, IsCondensation);
    CondensingStart(f);
    CondensingStart(g);
  }

  lemma StartByAction(f: seq<Event>, t: LoopType)
    requires Applies(f, t) && ByAction(t)
    ensures Filter(f, IsAction) != [] && LoopStart(f, t) == IndexOfOldest(f, Depth(t))
  {
    hide AllSame;
    hide SyntaxErrors;
    hide AllFailures;
    hide Filter;
    hide IndexOfOldest;
  }

  lemma MonologueStart(f: seq<Event>)
    requires Applies(f, MonologueLoop)
    ensures var p := Positions(f, IsAgentMessage); |p| >= 3 && LoopStart(f, MonologueLoop) == p[|p| - 3]
  {
    hide Filter;
    hide Positions;
  }

  lemma CondensingStart(f: seq<Event>)
    requires Applies(f, CondensingLoop)
    ensures var p := Positions(f, IsCondensation);
      && |p| >= 10 && (exists m :: |p| - 10 <= m < |p| - 1 && Adjacent(p, m))
      && LoopStart(f, CondensingLoop) == p[FirstAdjacent(p, |p| - 10)]
  {
    hide Filter;
    hide Positions;
    hide FirstAdjacent;
  }

  lemma OldestAlike(f: seq<Event>, g: seq<Event>, k: nat)
    requires AllAlike(f, g) && ActionsEqual(f, g) && Positions(f, IsAction) == Positions(g, IsAction)
    requires 0 < k && Filter(f, IsAction) != [] && Filter(g, IsAction) != []
    ensures IndexOfOldest(f, k) == IndexOfOldest(g, k)
  {
    hide Filter;
    hide Positions;
    hide Contains;
    hide SameBeginning;
    OldestIsThere(f, k);
    OldestIsThere(g, k);
    OldestIsAction(f, k);
    var e := Oldest(f, k);
    assert e == Oldest(g, k);
    forall i | 0 <= i < |f| ensures Same(f[i], e) <==> Same(g[i], e) {
      assert Alike(f[i], g[i]);
    }
    hide Alike;
    IndexOfOldestIsFirst(f, k);
    IndexOfOldestIsFirst(g, k);
    hide IndexOfOldest;
    hide Oldest;
  }

  lemma OldestIsAction(f: seq<Event>, k: nat)
    requires 0 < k && Filter(f, IsAction) != []
    ensures IsAction(Oldest(f, k)) && IsAction(f[OldestPosition(f, k)])
  {
    hide Filter;
    hide Positions;
    OldestIsThere(f, k);
  }
}
