/** The descending swap loop of GeneratePassword, for a buffer of any length:
    every arrangement of the buffer arises from exactly one sequence of draws. */
module Shuffle {
  import opened Sequences

  /** `cs[i]` is the draw made at position `i`, taken from `0..i`; position 0 draws nothing. */
  ghost predicate ValidChoices(cs: seq<nat>, n: nat) {
    |cs| == n && forall i :: 0 <= i < n ==> cs[i] <= i
  }

  ghost function Swap<T>(s: seq<T>, i: nat, j: nat): (r: seq<T>)
    requires i < |s| && j < |s|
    ensures |r| == |s|
  {
    s[i := s[j]][j := s[i]]
  }

  /** The buffer after the swaps at positions `i`, `i - 1`, ..., 1. */
  ghost function Swaps<T>(s: seq<T>, cs: seq<nat>, i: nat): (r: seq<T>)
    requires ValidChoices(cs, |s|) && (s != [] ==> i < |s|)
    ensures |r| == |s|
    decreases i
  {
    if i == 0 || s == [] then s else Swaps(Swap(s, i, cs[i]), cs, i - 1)
  }

  /** What the whole loop leaves in a buffer that held `s` when it draws `cs`. */
  ghost function Shuffled<T>(s: seq<T>, cs: seq<nat>): (r: seq<T>)
    requires ValidChoices(cs, |s|)
    ensures |r| == |s|
  {
    if s == [] then s else Swaps(s, cs, |s| - 1)
  }

  method ShuffleInPlace<T>(a: array<T>, cs: seq<nat>)
    requires ValidChoices(cs, a.Length)
    modifies a
    ensures a[..] == Shuffled(old(a[..]), cs)
  {
    var i := a.Length - 1;
    while i > 0
      invariant a.Length > 0 ==> 0 <= i < a.Length
      invariant a.Length > 0 ==> Swaps(a[..], cs, i) == Shuffled(old(a[..]), cs)
    {
      ghost var before := a[..];
      var j := cs[i];
      a[i], a[j] := a[j], a[i];
      assert a[..] == Swap(before, i, j);
      i := i - 1;
    }
  }

  // ---- Every run permutes the buffer ----

  lemma SwapPermutes<T>(s: seq<T>, i: nat, j: nat)
    requires i < |s| && j < |s|
    ensures multiset(Swap(s, i, j)) == multiset(s)
  {
  }

  lemma {:induction false} SwapsPermute<T>(s: seq<T>, cs: seq<nat>, i: nat)
    requires i < |s| && ValidChoices(cs, |s|)
    ensures multiset(Swaps(s, cs, i)) == multiset(s)
    decreases i
  {
    if i > 0 {
      SwapPermutes(s, i, cs[i]);
      SwapsPermute(Swap(s, i, cs[i]), cs, i - 1);
    }
  }

  lemma ShufflePermutes<T>(s: seq<T>, cs: seq<nat>)
    requires ValidChoices(cs, |s|)
    ensures multiset(Shuffled(s, cs)) == multiset(s)
  {
    if s != [] {
      SwapsPermute(s, cs, |s| - 1);
    }
  }

  // ---- Different draws give different arrangements ----

  lemma {:induction false} SwapsKeepTail<T>(s: seq<T>, cs: seq<nat>, i: nat, k: nat)
    requires i < k < |s| && ValidChoices(cs, |s|)
    ensures Swaps(s, cs, i)[k] == s[k]
    decreases i
  {
    if i > 0 {
      SwapsKeepTail(Swap(s, i, cs[i]), cs, i - 1, k);
    }
  }

  lemma SwapKeepsDistinct<T>(s: seq<T>, i: nat, j: nat)
    requires i < |s| && j < |s| && Distinct(s)
    ensures Distinct(Swap(s, i, j))
  {
  }

  lemma {:induction false} DrawsAreDetermined<T>(s: seq<T>, c1: seq<nat>, c2: seq<nat>, i: nat)
    requires i < |s| && Distinct(s) && ValidChoices(c1, |s|) && ValidChoices(c2, |s|)
    requires Swaps(s, c1, i) == Swaps(s, c2, i)
    ensures forall k :: 0 <= k <= i ==> c1[k] == c2[k]
    decreases i
  {
    if i > 0 {
      SwapsKeepTail(Swap(s, i, c1[i]), c1, i - 1, i);
      SwapsKeepTail(Swap(s, i, c2[i]), c2, i - 1, i);
      assert s[c1[i]] == s[c2[i]];
      SwapKeepsDistinct(s, i, c1[i]);
      DrawsAreDetermined(Swap(s, i, c1[i]), c1, c2, i - 1);
    }
  }

  // ---- Every arrangement is reached ----

  lemma SameTailSamePrefix<T>(s: seq<T>, p: seq<T>, i: nat)
    requires i < |s| == |p| && multiset(p) == multiset(s)
    requires forall k :: i < k < |s| ==> p[k] == s[k]
    ensures multiset(p[..i + 1]) == multiset(s[..i + 1])
  {
    assert p == p[..i + 1] + p[i + 1..] && s == s[..i + 1] + s[i + 1..];
    assert p[i + 1..] == s[i + 1..];
    assert multiset(p[..i + 1]) == multiset(p) - multiset(p[i + 1..]);
    assert multiset(s[..i + 1]) == multiset(s) - multiset(s[i + 1..]);
  }

  lemma FindDraw<T>(s: seq<T>, p: seq<T>, i: nat) returns (j: nat)
    requires i < |s| == |p| && multiset(p) == multiset(s)
    requires forall k :: i < k < |s| ==> p[k] == s[k]
    ensures j <= i && s[j] == p[i]
  {
    SameTailSamePrefix(s, p, i);
    assert p[..i + 1][i] in multiset(p[..i + 1]);
    assert p[i] in multiset(s[..i + 1]);
    j :| 0 <= j < i + 1 && s[..i + 1][j] == p[i];
  }

  lemma {:induction false} LaterDrawsUnused<T>(s: seq<T>, cs: seq<nat>, i: nat, k: nat, j: nat)
    requires i < k < |s| && j <= k && ValidChoices(cs, |s|)
    ensures ValidChoices(cs[k := j], |s|)
    ensures Swaps(s, cs[k := j], i) == Swaps(s, cs, i)
    decreases i
  {
    if i > 0 {
      LaterDrawsUnused(Swap(s, i, cs[i]), cs, i - 1, k, j);
    }
  }

  lemma {:induction false} ReachArrangement<T>(s: seq<T>, p: seq<T>, i: nat) returns (cs: seq<nat>)
    requires i < |s| == |p| && multiset(p) == multiset(s)
    requires forall k :: i < k < |s| ==> p[k] == s[k]
    ensures ValidChoices(cs, |s|) && Swaps(s, cs, i) == p
    decreases i
  {
    var j := FindDraw(s, p, i);
    if i == 0 {
      cs := seq(|s|, _ => 0);
    } else {
      var t := Swap(s, i, j);
      SwapPermutes(s, i, j);
      var rest := ReachArrangement(t, p, i - 1);
      LaterDrawsUnused(t, rest, i - 1, i, j);
      cs := rest[i := j];
    }
  }

  /** The map from draws to arrangements is a bijection: `p` is an arrangement of the
      distinct elements `s` exactly when some draws produce it, and then only one does. */
  lemma ShuffleIsUnbiased<T>(s: seq<T>, p: seq<T>)
    requires Distinct(s)
    ensures multiset(p) == multiset(s) <==>
            exists cs :: ValidChoices(cs, |s|) && Shuffled(s, cs) == p
    ensures forall c1, c2 | ValidChoices(c1, |s|) && ValidChoices(c2, |s|) ::
              Shuffled(s, c1) == p && Shuffled(s, c2) == p ==> c1 == c2
  {
    if multiset(p) == multiset(s) {
      assert |p| == |multiset(p)| == |multiset(s)| == |s|;
      if s != [] {
        var cs := ReachArrangement(s, p, |s| - 1);
        assert ValidChoices(cs, |s|) && Shuffled(s, cs) == p;
      } else {
        assert ValidChoices([], |s|) && Shuffled(s, []) == p;
      }
    }
    forall cs: seq<nat> | ValidChoices(cs, |s|) && Shuffled(s, cs) == p
      ensures multiset(p) == multiset(s)
    {
      ShufflePermutes(s, cs);
    }
    forall c1, c2 | ValidChoices(c1, |s|) && ValidChoices(c2, |s|) && Shuffled(s, c1) == p && Shuffled(s, c2) == p
      ensures c1 == c2
    {
      if s != [] {
        DrawsAreDetermined(s, c1, c2, |s| - 1);
      }
    }
  }
}
