/** Separator visibility. The popup holds, in order, section 0, separator 0,
    section 1, separator 1, ..., section n-1, separator n-1: separator k sits
    directly below section k. The recomputation only ever writes separators
    0 .. n-2, and shows separator k-1 when section k is shown below some
    earlier shown section. */
module Separators {

  /** Some section before index i is shown. */
  predicate VisibleBefore(vis: seq<bool>, i: nat)
    requires i <= |vis|
  {
    exists j :: 0 <= j < i && vis[j]
  }

  /** Reference definition of the separators after a recomputation, given the
      sections' visibility and the separators before it. */
  function SeparatorsFor(vis: seq<bool>, seps: seq<bool>): (r: seq<bool>)
    requires |seps| == |vis| >= 1
    ensures |r| == |seps|
    ensures r[|r| - 1] == seps[|seps| - 1]
    ensures forall k :: 0 <= k < |r| - 1 && r[k] ==> vis[k + 1] && VisibleBefore(vis, k + 1)
  {
    seq(|seps|, k requires 0 <= k < |seps| =>
      if k < |seps| - 1 then vis[k + 1] && VisibleBefore(vis, k + 1) else seps[k])
  }

  /** Number of set flags. */
  function Count(s: seq<bool>): (c: nat)
    ensures c <= |s|
    decreases |s|
  {
    if s == [] then 0 else Count(s[..|s| - 1]) + (if s[|s| - 1] then 1 else 0)
  }

  lemma {:induction false} CountZeroIffNone(s: seq<bool>)
    ensures Count(s) == 0 <==> !VisibleBefore(s, |s|)
    decreases |s|
  {
    if s != [] {
      var s' := s[..|s| - 1];
      CountZeroIffNone(s');
      if VisibleBefore(s', |s'|) {
        var j :| 0 <= j < |s'| && s'[j];
        assert s[j];
      }
      if VisibleBefore(s, |s|) && !s[|s| - 1] {
        var j :| 0 <= j < |s| && s[j];
        assert s'[j];
      }
    }
  }

  /** The written part of the separators (indices 0 .. n-2). */
  function Between(vis: seq<bool>): (r: seq<bool>)
    requires |vis| >= 1
    ensures |r| == |vis| - 1
  {
    seq(|vis| - 1, k requires 0 <= k < |vis| - 1 => vis[k + 1] && VisibleBefore(vis, k + 1))
  }

  lemma BetweenIsWrittenPart(vis: seq<bool>, seps: seq<bool>)
    requires |seps| == |vis| >= 1
    ensures SeparatorsFor(vis, seps)[..|vis| - 1] == Between(vis)
  {
  }

  lemma BetweenStep(vis: seq<bool>, b: bool)
    requires |vis| >= 1
    ensures Between(vis + [b]) == Between(vis) + [b && VisibleBefore(vis, |vis|)]
  {
    var v := vis + [b];
    forall i | 1 <= i < |vis|
      ensures VisibleBefore(v, i) == VisibleBefore(vis, i)
    {
      if VisibleBefore(v, i) {
        var j :| 0 <= j < i && v[j];
        assert vis[j];
      }
      if VisibleBefore(vis, i) {
        var j :| 0 <= j < i && vis[j];
        assert v[j];
      }
    }
    if VisibleBefore(v, |vis|) {
      var j :| 0 <= j < |vis| && v[j];
      assert vis[j];
    }
    if VisibleBefore(vis, |vis|) {
      var j :| 0 <= j < |vis| && vis[j];
      assert v[j];
    }
    assert Between(v) == Between(vis) + [b && VisibleBefore(vis, |vis|)];
  }

  /** Exactly one separator is shown between each pair of neighbouring shown
      sections: the number of shown separators is one less than the number
      of shown sections, and none are shown when no section is. */
  lemma {:induction false} SeparatorCount(vis: seq<bool>, seps: seq<bool>)
    requires |seps| == |vis| >= 1
    ensures Count(SeparatorsFor(vis, seps)[..|vis| - 1])
         == if Count(vis) == 0 then 0 else Count(vis) - 1
  {
    BetweenIsWrittenPart(vis, seps);
    BetweenCount(vis);
  }

  lemma {:induction false} BetweenCount(vis: seq<bool>)
    requires |vis| >= 1
    ensures Count(Between(vis)) == if Count(vis) == 0 then 0 else Count(vis) - 1
    decreases |vis|
  {
    if |vis| == 1 {
      assert Between(vis) == [];
      assert vis[..0] == [];
    } else {
      var v' := vis[..|vis| - 1];
      var b := vis[|vis| - 1];
      assert vis == v' + [b];
      BetweenStep(v', b);
      BetweenCount(v');
      CountZeroIffNone(v');
      var bt := Between(v') + [b && VisibleBefore(v', |v'|)];
      assert bt[..|bt| - 1] == Between(v');
    }
  }

  /** No separator is shown above the first shown section or below the last
      one: a shown separator always has a shown section on both sides. */
  lemma NoLeadingOrTrailingSeparator(vis: seq<bool>, seps: seq<bool>, k: nat)
    requires |seps| == |vis| >= 1 && k < |vis| - 1
    requires (forall j :: 0 <= j <= k ==> !vis[j]) || (forall j :: k < j < |vis| ==> !vis[j])
    ensures !SeparatorsFor(vis, seps)[k]
  {
  }

  /** The trailing separator is outside the recomputation: with only the
      first section shown, the separators written are all hidden, and a
      trailing separator that was shown stays shown below it. */
  lemma TrailingSeparatorKept()
    ensures SeparatorsFor([true, false, false, false, false], [true, true, true, true, true])
         == [false, false, false, false, true]
  {
  }

  /** A separator whose section below is shown, with a shown section somewhere
      above it, is shown. */
  lemma SeparatorShownBetweenShown(vis: seq<bool>, seps: seq<bool>, i: nat, k: nat)
    requires |seps| == |vis| >= 1 && i <= k < |vis| - 1
    requires vis[i] && vis[k + 1]
    ensures SeparatorsFor(vis, seps)[k]
  {
  }

  /** The written separators depend on the visibility vector alone, so
      recomputing without a visibility change changes nothing, and the last
      separator keeps whatever value it had. */
  lemma SeparatorsIdempotent(vis: seq<bool>, seps: seq<bool>, other: seq<bool>)
    requires |seps| == |vis| == |other| >= 1
    ensures SeparatorsFor(vis, SeparatorsFor(vis, seps)) == SeparatorsFor(vis, seps)
    ensures SeparatorsFor(vis, seps)[..|vis| - 1] == SeparatorsFor(vis, other)[..|vis| - 1]
  {
  }
}
