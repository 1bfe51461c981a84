/** What truncating the history at the recovery point keeps and drops, and what the verdict depends on.
    The recovery point is computed on the filtered events but applied to the raw history. */
module StuckRecovery {
  import opened Options
  import opened Events
  import opened Sequences
  import opened StuckSpec

  /** `_truncate_memory_to_point`. */
  function Truncate(history: seq<Event>, point: nat): (kept: seq<Event>)
    ensures kept <= history
    ensures kept == history <==> |history| <= point
  {
    if point >= |history| then history else history[..point]
  }

  /** Where the considered event number `i` stands in the raw history. */
  function RawPosition(history: seq<Event>, headless: bool, i: nat): (r: nat)
    requires i < |Considered(history, headless)|
    ensures Offset(history, headless) + i <= r < |history|
    ensures history[r] == Considered(history, headless)[i]
  {
    var offset := Offset(history, headless);
    offset + Positions(history[offset..], Keep)[i]
  }

  /** The steps, as indices into the considered events, that make up the detected repetition. */
  function RepeatedSteps(f: seq<Event>, t: LoopType): (steps: seq<nat>)
    requires Applies(f, t)
    ensures |steps| >= 2
  {
    match t
    case PairLoop => Last(Positions(f, IsAction), 4)
    case ErrorLoop => Last(Positions(f, IsAction), 3)
    case MonologueLoop => Last(Positions(f, IsAgentMessage), 3)
    case AlternationLoop => Last(Positions(f, IsAction), 6)
    case CondensingLoop =>
      var p := Positions(f, IsCondensation);
      var i := FirstAdjacent(p, |p| - 10);
      [p[i], p[i + 1]]
  }

  lemma RepetitionStartsAtOrAfter(f: seq<Event>, t: LoopType, m: nat)
    requires Applies(f, t) && m < |RepeatedSteps(f, t)|
    ensures LoopStart(f, t) <= RepeatedSteps(f, t)[m] < |f|
  {
    hide AllSame;
    hide SyntaxErrors;
    hide AllFailures;
    hide Filter;
    hide Positions;
    hide IndexOfOldest;
    hide Monologue;
    hide CondensationLoop;
    match t
    case PairLoop => OldestComesFirst(f, 4, 4, m);
    case ErrorLoop => OldestComesFirst(f, 4, 3, m);
    case AlternationLoop => OldestComesFirst(f, 6, 6, m);
    case MonologueLoop => MessagesFollowStart(f, m);
    case CondensingLoop => CondensationsFollowStart(f, m);
  }

  lemma MessagesFollowStart(f: seq<Event>, m: nat)
    requires Monologue(f) && m < |RepeatedSteps(f, MonologueLoop)|
    ensures LoopStart(f, MonologueLoop) <= RepeatedSteps(f, MonologueLoop)[m] < |f|
  {
    hide Filter;
    hide Positions;
    var p := Positions(f, IsAgentMessage);
    PositionsAscend(f, IsAgentMessage, |p| - 3, m);
    assert Last(p, 3)[m] == p[|p| - 3 + m];
  }

  lemma CondensationsFollowStart(f: seq<Event>, m: nat)
    requires CondensationLoop(f) && m < 2
    ensures LoopStart(f, CondensingLoop) <= RepeatedSteps(f, CondensingLoop)[m] < |f|
  {
    hide Filter;
    hide Positions;
    hide FirstAdjacent;
    var p := Positions(f, IsCondensation);
    PositionsAscend(f, IsCondensation, FirstAdjacent(p, |p| - 10), m);
  }

  lemma PositionsAscend(f: seq<Event>, p: Event -> bool, i: nat, m: nat)
    requires i + m < |Positions(f, p)|
    ensures Positions(f, p)[i] <= Positions(f, p)[i + m] < |f|
  {
    hide Filter;
    hide Positions;
  }

  lemma OldestComesFirst(f: seq<Event>, k: nat, n: nat, m: nat)
    requires 0 < n <= k && n <= |Filter(f, IsAction)| && m < n
    ensures IndexOfOldest(f, k) <= Last(Positions(f, IsAction), n)[m] < |f|
  {
    hide IndexOfOldest;
    hide Filter;
    hide Positions;
    var p := Positions(f, IsAction);
    var oldest := if |p| < k then 0 else |p| - k;
    IndexOfOldestIsFirst(f, k);
    PositionsAscend(f, IsAction, oldest, |p| - n + m - oldest);
  }

  /** Recovery keeps a strict prefix, and every repeated step is dropped, in both modes. */
  lemma RecoveryDropsRepetition(history: seq<Event>, headless: bool, m: nat)
    requires Verdict(history, headless).Some?
    requires m < |RepeatedSteps(Considered(history, headless), Verdict(history, headless).value.loopType)|
    ensures var f, v := Considered(history, headless), Verdict(history, headless).value;
      var step := RepeatedSteps(f, v.loopType)[m];
      && |Truncate(history, v.start)| == v.start < |history|
      && step < |f|
      && v.start <= RawPosition(history, headless, step)
  {
    hide Applies;
    hide LoopStart;
    hide RepeatedSteps;
    hide Filter;
    RepetitionStartsAtOrAfter(Considered(history, headless), Verdict(history, headless).value.loopType, m);
    var raw := RawPosition(history, headless,
        RepeatedSteps(Considered(history, headless), Verdict(history, headless).value.loopType)[m]);
  }

  /** The loops whose recovery point is looked up by an action. */
  predicate ByAction(t: LoopType) {
    t.PairLoop? || t.ErrorLoop? || t.AlternationLoop?
  }

  /** The action whose first occurrence the recovery point is taken from: the oldest of the last four, or
      of the last six, actions. */
  function Culprit(f: seq<Event>, t: LoopType): Event
    requires Filter(f, IsAction) != []
  {
    Oldest(f, Depth(t))
  }

  function Depth(t: LoopType): nat {
    if t.AlternationLoop? then 6 else 4
  }

  lemma FirstOccurrence(f: seq<Event>, t: LoopType, i: nat)
    requires Applies(f, t) && ByAction(t)
    ensures Filter(f, IsAction) != []
    ensures i < LoopStart(f, t) ==> !Same(f[i], Culprit(f, t))
  {
    hide AllSame;
    hide SyntaxErrors;
    hide AllFailures;
    hide IndexOfOldest;
    hide Filter;
    hide Positions;
    IndexOfOldestIsFirst(f, Depth(t));
  }

  /** In the kept part of the considered range, once filtered, nothing equals the repeated action. In headless
      mode the considered range is the whole history. */
  lemma KeptPrefixHasNoCulprit(history: seq<Event>, headless: bool, e: Event)
    requires Verdict(history, headless).Some? && ByAction(Verdict(history, headless).value.loopType)
    ensures var f, v, offset := Considered(history, headless), Verdict(history, headless).value,
        Offset(history, headless);
      && offset <= v.start < |history| && Filter(f, IsAction) != []
      && (e in Filter(Truncate(history, v.start)[offset..], Keep) ==> !Same(e, Culprit(f, v.loopType)))
  {
    hide Applies;
    hide LoopStart;
    hide Culprit;
    hide Filter;
    var f, v, offset := Considered(history, headless), Verdict(history, headless).value, Offset(history, headless);
    FirstOccurrence(f, v.loopType, 0);
    assert |f| <= |history| - offset;
    var kept := Filter(history[offset..v.start], Keep);
    assert Truncate(history, v.start)[offset..] == history[offset..v.start];
    ConsideredPrefix(history, headless, v.start);
    hide Considered;
    hide Verdict;
    if e in kept {
      var i :| 0 <= i < |kept| && kept[i] == e;
      FirstOccurrence(f, v.loopType, i);
    }
  }

  /** What is considered of a prefix of the considered range comes first in what is considered of all of it. */
  lemma ConsideredPrefix(history: seq<Event>, headless: bool, n: nat)
    requires Offset(history, headless) <= n <= |history|
    ensures Filter(history[Offset(history, headless)..n], Keep) <= Considered(history, headless)
  {
    hide Filter;
    hide Offset;
    var offset := Offset(history, headless);
    assert history[offset..] == history[offset..n] + history[n..];
    FilterConcat(history[offset..n], history[n..], Keep);
  }

  // ----- the repeated observations -----

  /** The observations, as indices into the considered events, that make up the detected repetition. */
  function RepeatedObservations(f: seq<Event>, t: LoopType): (r: seq<nat>)
    requires Applies(f, t) && ByAction(t)
    ensures forall m :: 0 <= m < |r| ==> r[m] < |f| && IsObservation(f[r[m]])
  {
    EnoughObservations(f, t);
    LastPositions(f, IsObservation, Observations(t));
    Last(Positions(f, IsObservation), Observations(t))
  }

  function Observations(t: LoopType): nat {
    if t.PairLoop? then 4 else if t.ErrorLoop? then 3 else 6
  }

  lemma EnoughObservations(f: seq<Event>, t: LoopType)
    requires Applies(f, t) && ByAction(t)
    ensures |Positions(f, IsObservation)| >= Observations(t)
  {
    hide AllSame;
    hide SyntaxErrors;
    hide AllFailures;
    hide Filter;
  }

  lemma LastPositions(f: seq<Event>, p: Event -> bool, k: nat)
    requires k <= |Positions(f, p)|
    ensures var last := Last(Positions(f, p), k); forall m :: 0 <= m < k ==> last[m] < |f| && p(f[last[m]])
  {
    hide Filter;
    hide Positions;
    var last := Last(Positions(f, p), k);
    forall m | 0 <= m < k ensures last[m] < |f| && p(f[last[m]]) {
      var i := |Positions(f, p)| - k + m;
      assert last[m] == Positions(f, p)[i];
      assert f[Positions(f, p)[i]] == Filter(f, p)[i];
    }
  }

  /** The verdict is a loop that is looked up by an action. */
  predicate LoopByAction(history: seq<Event>, headless: bool) {
    Verdict(history, headless).Some? && ByAction(Verdict(history, headless).value.loopType)
  }

  /** Position `q` of the raw history has the first considered event that equals `e`. */
  predicate FirstLike(history: seq<Event>, headless: bool, e: Event, q: nat) {
    && Offset(history, headless) <= q < |history| && Keep(history[q]) && Same(history[q], e)
    && forall j :: Offset(history, headless) <= j < q && Keep(history[j]) ==> !Same(history[j], e)
  }

  /** How many events the detector leaves out. */
  function Dismissed(s: seq<Event>): nat {
    |s| - |Filter(s, Keep)|
  }

  function CulpritPosition(history: seq<Event>, headless: bool): nat
    requires LoopByAction(history, headless)
  {
    RawPosition(history, headless, LoopStart(Considered(history, headless), Verdict(history, headless).value.loopType))
  }

  /** The recovery point lies before the first event equal to the culprit, by as many places as there are events that
      were left out in between. */
  lemma RecoveryPointExactly(history: seq<Event>, headless: bool)
    requires LoopByAction(history, headless)
    ensures var f, v, q := Considered(history, headless), Verdict(history, headless).value,
        CulpritPosition(history, headless);
      && Filter(f, IsAction) != [] && FirstLike(history, headless, Culprit(f, v.loopType), q)
      && v.start == q - Dismissed(history[Offset(history, headless)..q])
  {
    hide Applies;
    hide LoopStart;
    hide Culprit;
    var f, v := Considered(history, headless), Verdict(history, headless).value;
    var q, i := CulpritPosition(history, headless), LoopStart(f, v.loopType);
    StartIsLike(f, v.loopType);
    BeforeRawPosition(history, headless, i);
    hide Filter;
    hide Considered;
    hide RawPosition;
    forall j | Offset(history, headless) <= j < q && Keep(history[j])
      ensures !Same(history[j], Culprit(f, v.loopType))
    {
      var k := EarlierConsidered(history, headless, i, j);
      FirstOccurrence(f, v.loopType, k);
    }
  }

  lemma BeforeRawPosition(history: seq<Event>, headless: bool, i: nat)
    requires i < |Considered(history, headless)|
    ensures var q := RawPosition(history, headless, i);
      Keep(history[q]) && Filter(history[Offset(history, headless)..q], Keep) == Considered(history, headless)[..i]
  {
    hide Filter;
    hide Positions;
    hide Offset;
    var offset := Offset(history, headless);
    FilterBeforePosition(history[offset..], Keep, i);
    var q := RawPosition(history, headless, i);
    assert history[offset..][..q - offset] == history[offset..q];
  }

  /** An event that is kept and stands before the considered event number `i` has a smaller number. */
  lemma EarlierConsidered(history: seq<Event>, headless: bool, i: nat, j: nat) returns (k: nat)
    requires i < |Considered(history, headless)|
    requires Offset(history, headless) <= j < RawPosition(history, headless, i) && Keep(history[j])
    ensures k < i && Considered(history, headless)[k] == history[j]
  {
    BeforeRawPosition(history, headless, i);
    hide Filter;
    hide Positions;
    hide RawPosition;
    hide Offset;
    var offset := Offset(history, headless);
    var before := history[offset..RawPosition(history, headless, i)];
    assert before[j - offset] == history[j];
    PositionsComplete(before, Keep, j - offset);
    k :| 0 <= k < |Positions(before, Keep)| && Positions(before, Keep)[k] == j - offset;
  }

  lemma StartIsLike(f: seq<Event>, t: LoopType)
    requires Applies(f, t) && ByAction(t)
    ensures Filter(f, IsAction) != [] && Same(f[LoopStart(f, t)], Culprit(f, t))
  {
    FirstOccurrence(f, t, 0);
    hide AllSame;
    hide SyntaxErrors;
    hide AllFailures;
    hide IndexOfOldest;
    hide Filter;
    hide Positions;
    IndexOfOldestIsFirst(f, Depth(t));
  }

  /** Exactly which repeated observations recovery drops: those whose distance to the first event equal to the culprit
      is at most the number of events left out before that event. If none were left out, those that follow it. */
  lemma ObservationDroppedExactly(history: seq<Event>, headless: bool, m: nat)
    requires LoopByAction(history, headless)
    requires m < |RepeatedObservations(Considered(history, headless), Verdict(history, headless).value.loopType)|
    ensures var f, v, q := Considered(history, headless), Verdict(history, headless).value,
        CulpritPosition(history, headless);
      var r := RawPosition(history, headless, RepeatedObservations(f, v.loopType)[m]);
      && IsObservation(history[r])
      && (|Truncate(history, v.start)| <= r <==> q - r <= Dismissed(history[Offset(history, headless)..q]))
      && (Dismissed(history[Offset(history, headless)..]) == 0 ==>
            (|Truncate(history, v.start)| <= r <==> q < r))
  {
    hide Applies;
    hide LoopStart;
    hide Filter;
    hide Positions;
    hide RepeatedObservations;
    VerdictApplies(history, headless);
    ObservationIsThere(history, headless, m);
    CulpritIsAction(history, headless);
    RecoveryPointExactly(history, headless);
    hide Verdict;
    hide Considered;
    hide FirstLike;
    hide Dismissed;
    hide Offset;
    NothingDismissed(history, Offset(history, headless), CulpritPosition(history, headless));
  }

  lemma VerdictApplies(history: seq<Event>, headless: bool)
    requires Verdict(history, headless).Some?
    ensures Applies(Considered(history, headless), Verdict(history, headless).value.loopType)
  {
    hide Applies;
    hide LoopStart;
  }

  lemma ObservationIsThere(history: seq<Event>, headless: bool, m: nat)
    requires LoopByAction(history, headless)
    requires m < |RepeatedObservations(Considered(history, headless), Verdict(history, headless).value.loopType)|
    ensures var o := RepeatedObservations(Considered(history, headless), Verdict(history, headless).value.loopType)[m];
      IsObservation(history[RawPosition(history, headless, o)])
  {
    hide Applies;
    hide LoopStart;
    hide Filter;
    hide Positions;
    hide RepeatedObservations;
    hide RawPosition;
  }

  lemma CulpritIsAction(history: seq<Event>, headless: bool)
    requires LoopByAction(history, headless)
    ensures IsAction(history[CulpritPosition(history, headless)])
  {
    hide Applies;
    hide LoopStart;
    hide Culprit;
    hide Filter;
    StartIsAction(Considered(history, headless), Verdict(history, headless).value.loopType);
  }

  lemma StartIsAction(f: seq<Event>, t: LoopType)
    requires Applies(f, t) && ByAction(t)
    ensures IsAction(f[LoopStart(f, t)])
  {
    hide Applies;
    hide LoopStart;
    hide Filter;
    StartIsLike(f, t);
    assert IsAction(Culprit(f, t));
  }

  lemma NothingDismissed(s: seq<Event>, from: nat, to: nat)
    requires from <= to <= |s|
    ensures Dismissed(s[from..]) == 0 ==> Dismissed(s[from..to]) == 0
  {
    hide Filter;
    assert s[from..] == s[from..to] + s[to..];
    FilterConcat(s[from..to], s[to..], Keep);
  }

  /** Hence the repeated observations may survive: four equal observations followed by four equal
      actions are a loop, and all the observations are kept. */
  lemma ObservationsMaySurvive(o: Event, a: Event, headless: bool)
    requires Keep(o) && IsObservation(o) && Keep(a) && IsAction(a) && !IsCell(a)
    ensures var history := [o, o, o, o] + [a, a, a, a];
      && Verdict(history, headless) == Some(Analysis(PairLoop, 4, 4))
      && Truncate(history, 4) == [o, o, o, o]
  {
    hide Filter;
    hide Analyze;
    hide IndexOfOldest;
    var f := [o, o, o, o] + [a, a, a, a];
    assert f[0..] == f;
    assert Offset(f, headless) == 0;
    assert Considered(f, headless) == f by {
      FilterAll(f, Keep);
    }
    SplitByKind([o, o, o, o], [a, a, a, a]);
    FourOfEach(f, o, a);
    PairComesFirst(f, 0);
  }

  lemma PairComesFirst(f: seq<Event>, offset: nat)
    requires RepeatsPair(f)
    ensures Analyze(f, offset) == Some(Analysis(PairLoop, 4, IndexOfOldest(f, 4) + offset))
  {
    hide AllSame;
    hide IndexOfOldest;
  }

  lemma FourOfEach(f: seq<Event>, o: Event, a: Event)
    requires f == [o, o, o, o] + [a, a, a, a] && IsObservation(o) && IsAction(a) && !IsCell(a)
    requires Filter(f, IsObservation) == [o, o, o, o] && Filter(f, IsAction) == [a, a, a, a]
    ensures RepeatsPair(f) && IndexOfOldest(f, 4) == 4
  {
    FourTimes(o);
    FourTimes(a);
    hide AllSame;
    hide EqNoPid;
    hide Filter;
    assert Last([a, a, a, a], 4) == [a, a, a, a] && Last([o, o, o, o], 4) == [o, o, o, o];
    assert Newest([a, a, a, a], 4)[3] == a;
    assert f[4] == a && f[0] == o && f[1] == o && f[2] == o && f[3] == o;
  }

  lemma FourTimes(e: Event)
    requires !IsCell(e)
    ensures AllSame([e, e, e, e])
  {
    assert EqNoPid(e, e);
  }

  lemma SplitByKind(os: seq<Event>, actions: seq<Event>)
    requires forall i :: 0 <= i < |os| ==> IsObservation(os[i])
    requires forall i :: 0 <= i < |actions| ==> IsAction(actions[i])
    ensures Filter(os + actions, IsAction) == actions && Filter(os + actions, IsObservation) == os
  {
    FilterConcat(os, actions, IsAction);
    FilterConcat(os, actions, IsObservation);
    FilterAll(os, IsObservation);
    FilterNone(os, IsAction);
    FilterAll(actions, IsAction);
    FilterNone(actions, IsObservation);
  }

  lemma {:induction false} FilterAll<T>(s: seq<T>, p: T -> bool)
    requires forall i :: 0 <= i < |s| ==> p(s[i])
    ensures Filter(s, p) == s
  {
    if s != [] {
      FilterAll(s[..|s| - 1], p);
    }
  }

  lemma {:induction false} FilterNone<T>(s: seq<T>, p: T -> bool)
    requires forall i :: 0 <= i < |s| ==> !p(s[i])
    ensures Filter(s, p) == []
  {
    if s != [] {
      FilterNone(s[..|s| - 1], p);
    }
  }

  // ----- what the verdict depends on -----

  predicate NotNull(e: Event) {
    !IsNull(e)
  }

  /** The considered events of interactive mode, one event at a time. */
  lemma ConsideredSnoc(history: seq<Event>, e: Event, headless: bool)
    ensures Considered(history + [e], headless)
         == if !headless && IsUserMessage(e) then []
            else Considered(history, headless) + if Keep(e) then [e] else []
  {
    var all := history + [e];
    assert all[..|history|] == history;
    var k := Offset(history, headless);
    if headless || !IsUserMessage(e) {
      assert Offset(all, headless) == k;
      assert all[k..][..|all[k..]| - 1] == history[k..];
    } else {
      assert all[|all|..] == [];
    }
  }

  /** Null events do not matter, wherever they are. */
  lemma {:induction false} NullsDoNotMatter(history: seq<Event>, headless: bool)
    ensures Considered(Filter(history, NotNull), headless) == Considered(history, headless)
  {
    hide Considered;
    if history != [] {
      var last := |history| - 1;
      var before, e := history[..last], history[last];
      NullsDoNotMatter(before, headless);
      assert history == before + [e];
      ConsideredSnoc(before, e, headless);
      if NotNull(e) {
        ConsideredSnoc(Filter(before, NotNull), e, headless);
        assert Filter(history, NotNull) == Filter(before, NotNull) + [e];
      } else {
        assert Filter(history, NotNull) == Filter(before, NotNull);
      }
    }
  }

  /** In interactive mode nothing up to and including a user message matters. */
  lemma {:induction false} OnlyAfterUserMessageMatters(before: seq<Event>, message: Event, rest: seq<Event>)
    requires IsUserMessage(message)
    ensures Considered(before + [message] + rest, false) == Considered(rest, false)
    decreases rest
  {
    if rest == [] {
      assert before + [message] + rest == before + [message];
      ConsideredSnoc(before, message, false);
    } else {
      var last := |rest| - 1;
      OnlyAfterUserMessageMatters(before, message, rest[..last]);
      assert before + [message] + rest == (before + [message] + rest[..last]) + [rest[last]];
      assert rest == rest[..last] + [rest[last]];
      ConsideredSnoc(before + [message] + rest[..last], rest[last], false);
      ConsideredSnoc(rest[..last], rest[last], false);
    }
  }

  /** Whether the agent is stuck, and in which kind of loop, is a function of the considered events. */
  predicate SameVerdict(h: seq<Event>, h': seq<Event>, headless: bool) {
    match (Verdict(h, headless), Verdict(h', headless))
    case (Some(v), Some(v')) => v.loopType == v'.loopType && v.times == v'.times
    case (None, None) => true
    case _ => false
  }

  lemma VerdictIgnores(history: seq<Event>, before: seq<Event>, before': seq<Event>, message: Event,
      rest: seq<Event>, headless: bool)
    requires IsUserMessage(message)
    ensures SameVerdict(history, Filter(history, NotNull), headless)
    ensures SameVerdict(before + [message] + rest, before' + [message] + rest, false)
  {
    hide Detect;
    hide Considered;
    hide Filter;
    hide LoopStart;
    NullsDoNotMatter(history, headless);
    OnlyAfterUserMessageMatters(before, message, rest);
    OnlyAfterUserMessageMatters(before', message, rest);
  }
}
