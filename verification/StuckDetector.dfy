/** The stuck detector in the form of its source: backward scans that fill lists, scenario checks tried in
    order, and an analysis kept in a field. Every method is proved against module StuckSpec. */
module StuckDetector {
  import opened Options
  import opened Events
  import opened Sequences
  import opened Strings
  import opened StuckSpec

  /** Once `k` elements were found in a suffix, the rest of the sequence cannot change the answer. */
  lemma NewestOfSuffix(f: seq<Event>, i: nat, p: Event -> bool, k: nat)
    requires i <= |f| && (i == 0 || |Filter(f[i..], p)| >= k)
    ensures Newest(Filter(f, p), k) == Newest(Filter(f[i..], p), k)
  {
    assert f == f[..i] + f[i..];
    FilterConcat(f[..i], f[i..], p);
  }

  /** One step of the backward scan. */
  lemma ScanStep(f: seq<Event>, i: nat, p: Event -> bool, k: nat)
    requires i < |f|
    ensures var found := Newest(Filter(f[i + 1..], p), k);
      Newest(Filter(f[i..], p), k) == if p(f[i]) && |found| < k then found + [f[i]] else found
  {
    assert f[i..] == [f[i]] + f[i + 1..];
    FilterConcat([f[i]], f[i + 1..], p);
    assert [f[i]][..0] == [];
  }

  /** The newest `k` actions and the newest `k` observations, wherever they are. */
  method CollectNewest(f: seq<Event>, k: nat) returns (actions: seq<Event>, observations: seq<Event>)
    ensures actions == Newest(Filter(f, IsAction), k)
    ensures observations == Newest(Filter(f, IsObservation), k)
  {
    hide Newest;
    hide Filter;
    actions, observations := [], [];
    var i := |f|;
    while i > 0
      invariant 0 <= i <= |f|
      invariant actions == Newest(Filter(f[i..], IsAction), k)
      invariant observations == Newest(Filter(f[i..], IsObservation), k)
    {
      i := i - 1;
      ScanStep(f, i, IsAction, k);
      ScanStep(f, i, IsObservation, k);
      var event := f[i];
      if IsAction(event) && |actions| < k {
        actions := actions + [event];
      } else if IsObservation(event) && |observations| < k {
        observations := observations + [event];
      }
      if |actions| == k && |observations| == k {
        break;
      }
    }
    NewestOfSuffix(f, i, IsAction, k);
    NewestOfSuffix(f, i, IsObservation, k);
  }

  /** Comparing the newest element with the newest `m` of a newest-first list. */
  lemma NewestAllSame(s: seq<Event>, k: nat, m: nat)
    requires 0 < m <= k && m <= |s|
    ensures var newest := Newest(s, k); AllLike(newest[0], newest[..m]) <==> LastAllSame(s, m)
  {
    hide EqNoPid;
    var last, newest := Last(s, m), Newest(s, k);
    OneComparisonSuffices(last, m - 1);
    assert forall i :: 0 <= i < m ==> newest[..m][i] == last[m - 1 - i];
    assert forall i :: 0 <= i < m ==> last[i] == newest[..m][m - 1 - i];
  }

  /** The four comparisons of scenario 4 cover all pairs of equal parity. */
  lemma FourComparisonsSuffice(s: seq<Event>)
    requires |s| >= 6
    ensures var x := Newest(s, 6);
      LastAlternate(s) <==> EqNoPid(x[0], x[2]) && EqNoPid(x[0], x[4]) && EqNoPid(x[1], x[3]) && EqNoPid(x[1], x[5])
  {
    var x := Newest(s, 6);
    TwoComparisonsSuffice(x[0], x[2], x[4]);
    TwoComparisonsSuffice(x[1], x[3], x[5]);
  }

  lemma TwoComparisonsSuffice(a: Event, b: Event, c: Event)
    ensures AllSame([c, b, a]) <==> EqNoPid(a, b) && EqNoPid(a, c)
  {
    hide EqNoPid;
    OneComparisonSuffices([c, b, a], 2);
    assert [c, b, a][2] == a && [c, b, a][1] == b && [c, b, a][0] == c;
    if EqNoPid(a, b) && EqNoPid(a, c) {
      EqNoPidSymmetric(a, b);
      EqNoPidTransitive(a, b, a);
    }
  }

  method CheckConsistentLineError(obs: seq<Event>, message: string) returns (r: bool)
    requires |obs| == 3 && AllCells(obs)
    ensures r <==> SameErrorLine(obs, message)
  {
    hide Contains;
    hide Lines;
    hide StartsWith;
    var errorLines: seq<string> := [];
    for i := 0 to |obs|
      invariant |errorLines| <= i
      invariant forall k :: 0 <= k < i ==> HasFooter(obs[k])
      invariant |errorLines| == i <==> forall k :: 0 <= k < i ==> ReportsError(obs[k], message)
      invariant |errorLines| == i ==> forall k :: 0 <= k < i ==> errorLines[k] == ErrorLine(obs[k])
    {
      var lines := Lines(obs[i]);
      if |lines| < 3 {
        assert !ReportsError(obs[i], message);
        return false;
      }
      if !(StartsWith(lines[|lines| - 2], DIRECTORY_LINE) && StartsWith(lines[|lines| - 1], INTERPRETER_LINE)) {
        assert !ReportsError(obs[i], message);
        return false;
      }
      if Contains(lines[|lines| - 3], message) {
        errorLines := errorLines + [lines[|lines| - 3]];
      }
    }
    r := |errorLines| == 3 && errorLines[0] == errorLines[1] && errorLines[1] == errorLines[2];
  }

  method CheckConsistentInvalidSyntax(obs: seq<Event>, message: string) returns (r: bool)
    requires |obs| == 3 && AllCells(obs)
    ensures r <==> SameInvalidSyntax(obs, message)
  {
    hide Contains;
    hide Lines;
    hide StartsWith;
    hide Strip;
    hide SameInvalidSyntax;
    var firstLines: seq<string> := [];
    var valid: seq<Event> := [];
    for i := 0 to |obs|
      invariant |firstLines| == i && |valid| <= i
      invariant forall k :: 0 <= k < i ==> HasHead(obs[k]) && firstLines[k] == HeadLine(obs[k])
      invariant |valid| == i <==> forall k :: 0 <= k < i ==> ReportsError(obs[k], message)
      invariant |valid| == i ==> valid == obs[..i]
    {
      var lines := Lines(obs[i]);
      if |lines| < 6 {
        NoHead(obs, message, i);
        return false;
      }
      var line1 := Strip(lines[0]);
      if !StartsWith(line1, HEAD) {
        NoHead(obs, message, i);
        return false;
      }
      firstLines := firstLines + [line1];
      if StartsWith(lines[|lines| - 1], INTERPRETER_LINE) && StartsWith(lines[|lines| - 2], DIRECTORY_LINE) &&
          Contains(lines[|lines| - 3], message) {
        valid := valid + [obs[i]];
      }
    }
    r := firstLines[0] == firstLines[1] && firstLines[1] == firstLines[2] && |valid| == 3
      && ErrorLine(valid[0]) == ErrorLine(valid[1]) && ErrorLine(valid[1]) == ErrorLine(valid[2]);
    ThreeInvalid(obs, message);
  }

  lemma NoHead(obs: seq<Event>, message: string, i: nat)
    requires AllCells(obs) && i < |obs| && !HasHead(obs[i])
    ensures !SameInvalidSyntax(obs, message)
  {
  }

  /** For three outputs that start well, the comparison of neighbours is enough. */
  lemma ThreeInvalid(obs: seq<Event>, message: string)
    requires |obs| == 3 && AllCells(obs) && forall i :: 0 <= i < 3 ==> HasHead(obs[i])
    ensures SameInvalidSyntax(obs, message) <==>
      && (forall i :: 0 <= i < 3 ==> ReportsError(obs[i], message))
      && HeadLine(obs[0]) == HeadLine(obs[1]) == HeadLine(obs[2])
      && ErrorLine(obs[0]) == ErrorLine(obs[1]) == ErrorLine(obs[2])
  {
    hide HasHead;
    hide HeadLine;
    hide ErrorLine;
    hide ReportsError;
  }

  method AreErrors(obs: seq<Event>) returns (r: bool)
    requires |obs| == 3
    ensures r <==> AllFailures(obs) || SyntaxErrors(obs)
  {
    hide SameErrorLine;
    hide SameInvalidSyntax;
    if AllFailures(obs) {
      return true;
    }
    if !AllCells(obs) {
      return false;
    }
    r := CheckConsistentLineError(obs, UNTERMINATED);
    if !r {
      r := CheckConsistentInvalidSyntax(obs, FORGOT_COMMA);
    }
    if !r {
      r := CheckConsistentInvalidSyntax(obs, INCOMPLETE);
    }
  }

  /** Looks for other events between consecutive condensations, starting with the last ten; since the
      condensations are consecutive, there are none exactly when the two are adjacent. */
  method FindUninterrupted(f: seq<Event>, p: seq<nat>) returns (i: nat)
    requires p == Positions(f, IsCondensation) && |p| >= 10
    ensures |p| - 10 <= i <= |p| - 1
    ensures forall m :: |p| - 10 <= m < i ==> !Adjacent(p, m)
    ensures i < |p| - 1 ==> Adjacent(p, i)
  {
    i := |p| - 10;
    while i < |p| - 1
      invariant |p| - 10 <= i <= |p| - 1
      invariant forall m :: |p| - 10 <= m < i ==> !Adjacent(p, m)
    {
      var hasOther := false;
      var k := p[i] + 1;
      while k < p[i + 1] && !hasOther
        invariant p[i] < k <= p[i + 1]
        invariant hasOther <==> k > p[i] + 1
      {
        BetweenCondensations(f, i, k);
        if !IsCondensation(f[k]) {
          hasOther := true;
        }
        k := k + 1;
      }
      if !hasOther {
        return;
      }
      i := i + 1;
    }
  }

  /** The position after the last user message, found by scanning backwards. */
  method FindLastUserMessage(history: seq<Event>) returns (k: nat)
    ensures k == AfterLastUserMessage(history)
  {
    k := |history|;
    assert history[..k] == history;
    while k > 0 && !IsUserMessage(history[k - 1])
      invariant 0 <= k <= |history|
      invariant AfterLastUserMessage(history) == AfterLastUserMessage(history[..k])
    {
      assert history[..k][..k - 1] == history[..k - 1];
      k := k - 1;
    }
  }

  class Detector {
    var history: seq<Event>
    var analysis: Option<Analysis>

    constructor (history: seq<Event>)
      ensures this.history == history && analysis == None
    {
      this.history, analysis := history, None;
    }

    method IsStuckRepeatingActionObservation(actions: seq<Event>, observations: seq<Event>, f: seq<Event>, offset: nat)
      returns (r: bool)
      requires actions == Newest(Filter(f, IsAction), 4) && observations == Newest(Filter(f, IsObservation), 4)
      modifies this`analysis
      ensures r <==> RepeatsPair(f)
      ensures analysis == if r then Some(Analysis(PairLoop, 4, IndexOfOldest(f, 4) + offset)) else old(analysis)
    {
      hide AllLike;
      hide AllSame;
      hide Newest;
      r := false;
      if |actions| == 4 && |observations| == 4 {
        NewestAllSame(Filter(f, IsAction), 4, 4);
        NewestAllSame(Filter(f, IsObservation), 4, 4);
        assert actions[..4] == actions && observations[..4] == observations;
        var actionsEqual := AllLike(actions[0], actions);
        var observationsEqual := AllLike(observations[0], observations);
        if actionsEqual && observationsEqual {
          analysis := Some(Analysis(PairLoop, 4, IndexOfOldest(f, 4) + offset));
          r := true;
        }
      }
    }

    method IsStuckRepeatingActionError(actions: seq<Event>, observations: seq<Event>, f: seq<Event>, offset: nat)
      returns (r: bool)
      requires actions == Newest(Filter(f, IsAction), 4) && observations == Newest(Filter(f, IsObservation), 4)
      modifies this`analysis
      ensures r <==> RepeatsError(f)
      ensures analysis == if r then Some(Analysis(ErrorLoop, 3, IndexOfOldest(f, 4) + offset)) else old(analysis)
    {
      hide AllLike;
      hide AllSame;
      hide AllFailures;
      hide SyntaxErrors;
      hide IndexOfOldest;
      r := false;
      if |actions| < 3 || |observations| < 3 {
        return;
      }
      NewestAllSame(Filter(f, IsAction), 4, 3);
      if !AllLike(actions[0], actions[..3]) {
        return;
      }
      r := AreErrors(observations[..3]);
      OrderDoesNotMatter(observations[..3], Last(Filter(f, IsObservation), 3));
      if r {
        analysis := Some(Analysis(ErrorLoop, 3, IndexOfOldest(f, 4) + offset));
      }
    }

    method IsStuckMonologue(f: seq<Event>, offset: nat) returns (r: bool)
      modifies this`analysis
      ensures r <==> Monologue(f)
      ensures r ==> var p := Positions(f, IsAgentMessage);
        |p| >= 3 && analysis == Some(Analysis(MonologueLoop, 3, p[|p| - 3] + offset))
      ensures !r ==> analysis == old(analysis)
    {
      r := false;
      var p := Positions(f, IsAgentMessage);
      if |p| >= 3 {
        var start, end := p[|p| - 3], p[|p| - 1];
        if Same(f[start], f[p[|p| - 2]]) && Same(f[start], f[end]) {
          var observed := false;
          var k := start + 1;
          while k < end && !observed
            invariant start < k <= end
            invariant observed <==> exists m :: start < m < k && IsObservation(f[m])
          {
            if IsObservation(f[k]) {
              observed := true;
            }
            k := k + 1;
          }
          if !observed {
            analysis := Some(Analysis(MonologueLoop, 3, start + offset));
            r := true;
          }
        }
      }
    }

    method IsStuckActionObservationPattern(f: seq<Event>, offset: nat) returns (r: bool)
      modifies this`analysis
      ensures r <==> RepeatsAlternation(f)
      ensures analysis == if r then Some(Analysis(AlternationLoop, 3, IndexOfOldest(f, 6) + offset)) else old(analysis)
    {
      r := false;
      var a, o := CollectNewest(f, 6);
      if |a| == 6 && |o| == 6 {
        FourComparisonsSuffice(Filter(f, IsAction));
        FourComparisonsSuffice(Filter(f, IsObservation));
        var actionsEqual := EqNoPid(a[0], a[2]) && EqNoPid(a[0], a[4]) && EqNoPid(a[1], a[3]) && EqNoPid(a[1], a[5]);
        var observationsEqual := EqNoPid(o[0], o[2]) && EqNoPid(o[0], o[4]) && EqNoPid(o[1], o[3]) &&
            EqNoPid(o[1], o[5]);
        if actionsEqual && observationsEqual {
          analysis := Some(Analysis(AlternationLoop, 3, IndexOfOldest(f, 6) + offset));
          r := true;
        }
      }
    }

    method IsStuckContextWindowError(f: seq<Event>, offset: nat) returns (r: bool)
      modifies this`analysis
      ensures r <==> CondensationLoop(f)
      ensures r ==> var p := Positions(f, IsCondensation);
        analysis == Some(Analysis(CondensingLoop, 2, p[FirstAdjacent(p, |p| - 10)] + offset))
      ensures !r ==> analysis == old(analysis)
    {
      r := false;
      var p := Positions(f, IsCondensation);
      if |p| >= 10 {
        var i := FindUninterrupted(f, p);
        if i < |p| - 1 {
          analysis := Some(Analysis(CondensingLoop, 2, p[i] + offset));
          r := true;
        }
      }
    }

    /** The answer says whether some scenario applies; the analysis is left alone when fewer than three
        events are considered, otherwise it is the verdict. */
    method IsStuck(headless: bool) returns (stuck: bool)
      modifies this`analysis
      ensures stuck <==> Verdict(history, headless).Some?
      ensures analysis == NextAnalysis(history, headless, old(analysis))
    {
      var offset := 0;
      if !headless {
        offset := FindLastUserMessage(history);
      }
      var f := Filter(history[offset..], Keep);
      if |f| < 3 {
        FewEventsAreNoLoop(f);
        return false;
      }
      stuck := TryScenarios(f, offset);
    }

    /** The five scenarios, in order. */
    method TryScenarios(f: seq<Event>, offset: nat) returns (stuck: bool)
      modifies this`analysis
      ensures stuck <==> Detect(f).Some?
      ensures analysis == Analyze(f, offset)
    {
      hide IndexOfOldest;
      hide FirstAdjacent;
      hide Adjacent;
      hide RepeatsPair;
      hide RepeatsError;
      hide Monologue;
      hide RepeatsAlternation;
      hide CondensationLoop;
      hide Filter;
      hide Newest;
      var actions, observations := CollectNewest(f, 4);
      stuck := IsStuckRepeatingActionObservation(actions, observations, f, offset);
      if stuck { return; }
      stuck := IsStuckRepeatingActionError(actions, observations, f, offset);
      if stuck { return; }
      stuck := IsStuckMonologue(f, offset);
      if stuck { return; }
      FewEventsAreNoLoop(f);
      if |f| >= 6 {
        stuck := IsStuckActionObservationPattern(f, offset);
        if stuck { return; }
      }
      if |f| >= 10 {
        stuck := IsStuckContextWindowError(f, offset);
        if stuck { return; }
      }
      analysis := None;
    }
  }

  /** Scenario 2 may look at the last three observations in either order. */
  lemma OrderDoesNotMatter(newest: seq<Event>, last: seq<Event>)
    requires |newest| == |last| == 3
    requires newest[0] == last[2] && newest[1] == last[1] && newest[2] == last[0]
    ensures AllFailures(newest) <==> AllFailures(last)
    ensures SyntaxErrors(newest) <==> SyntaxErrors(last)
  {
    hide ErrorLine;
    hide HeadLine;
    hide ReportsError;
    hide HasHead;
    var n, l := newest, last;
    assert n == [l[2], l[1], l[0]];
    assert AllCells(n) <==> AllCells(l);
    if AllCells(n) {
      forall m ensures SameErrorLine(n, m) <==> SameErrorLine(l, m) {}
      forall m ensures SameInvalidSyntax(n, m) <==> SameInvalidSyntax(l, m) {}
    }
  }

  lemma BetweenCondensations(f: seq<Event>, i: nat, k: nat)
    requires var p := Positions(f, IsCondensation); i + 1 < |p| && p[i] < k < p[i + 1]
    ensures !IsCondensation(f[k])
  {
    NotBetween(Positions(f, IsCondensation), i, k);
    if IsCondensation(f[k]) {
      PositionsComplete(f, IsCondensation, k);
    }
  }

  lemma NotBetween(p: seq<nat>, i: nat, k: nat)
    requires forall m, n :: 0 <= m < n < |p| ==> p[m] < p[n]
    requires i + 1 < |p| && p[i] < k < p[i + 1]
    ensures k !in p
  {
    forall j | 0 <= j < |p| ensures p[j] != k {
      if j < i {
        assert p[j] < p[i];
      } else if j > i + 1 {
        assert p[i + 1] < p[j];
      }
    }
  }

  lemma FewEventsAreNoLoop(f: seq<Event>)
    ensures |f| < 3 ==> Detect(f).None?
    ensures |f| < 6 ==> !RepeatsAlternation(f)
    ensures |f| < 10 ==> !CondensationLoop(f)
  {
  }
}
