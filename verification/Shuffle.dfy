/** The probe order as a function of the random draws, and that every order is possible. */
module Shuffle {
  import opened Protocol
  import opened ViewIndex

  lemma Identity(a: seq<nat>)
    requires forall k | 0 <= k < |a| :: a[k] == k
    ensures IsPermutation(a)
  {
  }

  lemma Swapped(a: seq<nat>, i: nat, j: nat)
    requires IsPermutation(a) && i < |a| && j < |a|
    ensures IsPermutation(a[i := a[j]][j := a[i]])
  {
  }

  function Exchanged(s: seq<nat>, i: nat, j: nat): seq<nat>
    requires i < |s| && j < |s|
  {
    s[i := s[j]][j := s[i]]
  }

  /** The positions 0 to n - 1 after the exchanges at n - 1, n - 2 and so on, one for each draw. */
  function Shuffled(n: nat, ds: seq<nat>): (s: seq<nat>)
    requires |ds| < n
    ensures |s| == n
  {
    if ds == [] then seq(n, i => i)
    else
      var i := n - |ds|;
      Exchanged(Shuffled(n, ds[..|ds| - 1]), i, ds[|ds| - 1] % (i + 1))
  }

  lemma {:induction false} ShuffledIsPermutation(n: nat, ds: seq<nat>)
    requires |ds| < n
    ensures IsPermutation(Shuffled(n, ds))
    decreases |ds|
  {
    hide IsPermutation;
    if ds == [] {
      Identity(Shuffled(n, ds));
    } else {
      ShuffledIsPermutation(n, ds[..|ds| - 1]);
      var i := n - |ds|;
      Swapped(Shuffled(n, ds[..|ds| - 1]), i, ds[|ds| - 1] % (i + 1));
    }
  }

  /** `s` and `p` agree above the position `i`. */
  predicate AgreeAbove(s: seq<nat>, p: seq<nat>, i: int) {
    |s| == |p| && forall k | 0 <= k < |s| && i < k :: s[k] == p[k]
  }

  /** Where the entry that belongs at `i` is, if all above are in place. */
  lemma Place(s: seq<nat>, p: seq<nat>, i: nat) returns (j: nat)
    requires IsPermutation(s) && IsPermutation(p) && i < |p| && AgreeAbove(s, p, i)
    ensures j <= i && s[j] == p[i]
  {
    Pigeonhole(s, |s|, p[i]);
    assert forall k | i < k < |s| :: s[k] != p[i];
    j :| 0 <= j < |s| && s[j] == p[i];
  }

  lemma SmallMod(j: nat, k: nat)
    requires j < k
    ensures j % k == j
  {
  }

  lemma InPlaceNow(s: seq<nat>, p: seq<nat>, i: nat, j: nat)
    requires j <= i < |s| && AgreeAbove(s, p, i) && s[j] == p[i]
    ensures AgreeAbove(Exchanged(s, i, j), p, i - 1)
  {
  }

  lemma NothingAbove(s: seq<nat>, p: seq<nat>)
    requires |s| == |p|
    ensures AgreeAbove(s, p, |p| - 1)
  {
  }

  lemma OneDraw(n: nat, ds: seq<nat>, r: nat)
    requires |ds| + 1 < n
    ensures Shuffled(n, ds + [r]) == Exchanged(Shuffled(n, ds), n - |ds| - 1, r % (n - |ds|))
  {
    var more := ds + [r];
    assert more[..|more| - 1] == ds && more[|more| - 1] == r;
  }

  lemma NoDraw(n: nat)
    requires n > 0
    ensures |Shuffled(n, [])| == n && forall i | 0 <= i < n :: Shuffled(n, [])[i] == i
  {
  }

  /** Draws after which the shuffle agrees with `p` in the last `m` positions. */
  lemma {:induction false} DrawsFor(p: seq<nat>, m: nat) returns (ds: seq<nat>)
    requires IsPermutation(p) && m < |p|
    ensures |ds| == m && AgreeAbove(Shuffled(|p|, ds), p, |p| - m - 1)
    decreases m
  {
    hide IsPermutation, Shuffled, Exchanged, AgreeAbove;
    ds := [];
    if m == 0 {
      NothingAbove(Shuffled(|p|, ds), p);
    } else {
      var i := |p| - m;
      ds := DrawsFor(p, m - 1);
      ShuffledIsPermutation(|p|, ds);
      var s := Shuffled(|p|, ds);
      var j := Place(s, p, i);
      OneDraw(|p|, ds, j);
      SmallMod(j, i + 1);
      InPlaceNow(s, p, i, j);
      ds := ds + [j];
    }
  }

  /** Every order of the view comes out of the shuffle for some draws. */
  lemma EveryOrderPossible(p: seq<nat>) returns (ds: seq<nat>)
    requires IsPermutation(p) && |p| > 0
    ensures |ds| == |p| - 1 && Shuffled(|p|, ds) == p
  {
    hide IsPermutation, Shuffled;
    ds := DrawsFor(p, |p| - 1);
    ShuffledIsPermutation(|p|, ds);
    var j := Place(Shuffled(|p|, ds), p, 0);
  }
}
