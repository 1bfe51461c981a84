/** Filtering sequences, with the positions that the surviving elements had. */
module Sequences {

  function Filter<T>(s: seq<T>, p: T -> bool): (r: seq<T>)
    ensures |r| <= |s|
    ensures forall i :: 0 <= i < |r| ==> p(r[i])
  {
    if s == [] then []
    else
      var last := |s| - 1;
      Filter(s[..last], p) + if p(s[last]) then [s[last]] else []
  }

  /** The indices of the elements that satisfy `p`, in ascending order. */
  function Positions<T>(s: seq<T>, p: T -> bool): (r: seq<nat>)
    ensures |r| == |Filter(s, p)|
    ensures forall i :: 0 <= i < |r| ==> i <= r[i] < |s| && s[r[i]] == Filter(s, p)[i]
    ensures forall i, j :: 0 <= i < j < |r| ==> r[i] < r[j]
  {
    if s == [] then []
    else
      var last := |s| - 1;
      Positions(s[..last], p) + if p(s[last]) then [last] else []
  }

  /** Every element that satisfies `p` has its index among the positions. */
  lemma {:induction false} PositionsComplete<T>(s: seq<T>, p: T -> bool, k: nat)
    requires k < |s| && p(s[k])
    ensures k in Positions(s, p)
  {
    var last := |s| - 1;
    if k < last {
      PositionsComplete(s[..last], p, k);
    }
  }

  /** The elements that survive in front of a position are those with a smaller number. */
  lemma {:induction false} FilterBeforePosition<T>(s: seq<T>, p: T -> bool, i: nat)
    requires i < |Positions(s, p)|
    ensures Filter(s[..Positions(s, p)[i]], p) == Filter(s, p)[..i]
  {
    var last := |s| - 1;
    if i < |Positions(s[..last], p)| {
      FilterBeforePosition(s[..last], p, i);
      assert s[..last][..Positions(s, p)[i]] == s[..Positions(s, p)[i]];
    }
  }

  lemma {:induction false} FilterConcat<T>(a: seq<T>, b: seq<T>, p: T -> bool)
    ensures Filter(a + b, p) == Filter(a, p) + Filter(b, p)
    decreases b
  {
    if b == [] {
      assert a + b == a;
    } else {
      var last := |b| - 1;
      assert (a + b)[..|a + b| - 1] == a + b[..last];
      FilterConcat(a, b[..last], p);
    }
  }

  /** The last `k` elements of a sequence, or all of them if there are fewer, newest first. */
  function Newest<T>(s: seq<T>, k: nat): (r: seq<T>)
    ensures |r| == if |s| < k then |s| else k
    ensures forall i :: 0 <= i < |r| ==> r[i] == s[|s| - 1 - i]
  {
    seq(if |s| < k then |s| else k, i requires 0 <= i < |s| => s[|s| - 1 - i])
  }

  /** Index of the first element that satisfies `p`. */
  function First<T>(s: seq<T>, p: T -> bool): (i: nat)
    requires exists k :: 0 <= k < |s| && p(s[k])
    ensures i < |s| && p(s[i]) && forall j :: 0 <= j < i ==> !p(s[j])
    decreases s
  {
    if p(s[0]) then 0 else
      assert exists k :: 0 <= k < |s[1..]| && p(s[1..][k]) by {
        var k :| 0 <= k < |s| && p(s[k]);
        assert p(s[1..][k - 1]);
      }
      1 + First(s[1..], p)
  }
}
