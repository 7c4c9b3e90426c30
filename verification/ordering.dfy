/**
  Renumbering of a list of forms in document order, skipping the ones marked
  for deletion: the shared shape of `updateOrder` (the authoring page) and of
  the section, content and quiz renumbering of the creation page.

  An item's live rank is the number of live items before it; renumbering stamps
  every live item with its rank and leaves every other item as it was.
 */
module Ordering {
  /** The number of live items among the first `i`. */
  function LiveBefore<T>(xs: seq<T>, live: T -> bool, i: nat): (n: nat)
    requires i <= |xs|
    ensures n <= i
  {
    if i == 0 then 0 else LiveBefore(xs, live, i - 1) + (if live(xs[i - 1]) then 1 else 0)
  }

  function LiveCount<T>(xs: seq<T>, live: T -> bool): nat {
    LiveBefore(xs, live, |xs|)
  }

  /** A rank depends only on the items before it. */
  lemma {:induction false} LiveBeforePrefix<T>(xs: seq<T>, live: T -> bool, m: nat, i: nat)
    requires i <= m <= |xs|
    ensures LiveBefore(xs[..m], live, i) == LiveBefore(xs, live, i)
  {
    if i > 0 {
      LiveBeforePrefix(xs, live, m, i - 1);
      assert xs[..m][i - 1] == xs[i - 1];
    }
  }

  /** Ranks grow by one past each live item and stay put past each other item. */
  lemma {:induction false} LiveBeforeMonotone<T>(xs: seq<T>, live: T -> bool, i: nat, j: nat)
    requires i <= j <= |xs|
    ensures LiveBefore(xs, live, i) <= LiveBefore(xs, live, j)
    ensures i < j && live(xs[i]) ==> LiveBefore(xs, live, i) < LiveBefore(xs, live, j)
    decreases j - i
  {
    if i < j {
      LiveBeforeMonotone(xs, live, i, j - 1);
      if i == j - 1 {
      } else {
        LiveBeforeMonotone(xs, live, i + 1, j - 1);
      }
    }
  }

  /** Every rank below the count of live items is the rank of some live item. */
  lemma {:induction false} LiveRankOnto<T>(xs: seq<T>, live: T -> bool, i: nat, n: nat)
    requires i <= |xs| && n < LiveBefore(xs, live, i)
    ensures exists k :: 0 <= k < i && live(xs[k]) && LiveBefore(xs, live, k) == n
  {
    if n == LiveBefore(xs, live, i - 1) {
      assert live(xs[i - 1]);
    } else {
      LiveRankOnto(xs, live, i - 1, n);
    }
  }

  /**
    Renumbering: each live item is stamped with its live rank, any other item is
    kept, in place.
   */
  function Renumber<T>(xs: seq<T>, live: T -> bool, stamp: (T, nat) -> T): (r: seq<T>)
    ensures |r| == |xs|
    ensures forall i :: 0 <= i < |xs| && !live(xs[i]) ==> r[i] == xs[i]
    ensures forall i :: 0 <= i < |xs| && live(xs[i]) ==> r[i] == stamp(xs[i], LiveBefore(xs, live, i))
    decreases |xs|
  {
    if |xs| == 0 then []
    else
      var n := |xs| - 1;
      var p := Renumber(xs[..n], live, stamp);
      forall i | 0 <= i <= n ensures LiveBefore(xs[..n], live, i) == LiveBefore(xs, live, i) {
        LiveBeforePrefix(xs, live, n, i);
      }
      p + [if live(xs[n]) then stamp(xs[n], LiveCount(xs[..n], live)) else xs[n]]
  }

  /** A stamp that keeps liveness and is idempotent on its own output at the same rank. */
  ghost predicate StampCoherent<T(!new)>(live: T -> bool, stamp: (T, nat) -> T) {
    forall x, n :: live(stamp(x, n)) == live(x) && stamp(stamp(x, n), n) == stamp(x, n)
  }

  /** Renumbering leaves the live ranks where they were. */
  lemma {:induction false} RenumberKeepsRanks<T(!new)>(xs: seq<T>, live: T -> bool, stamp: (T, nat) -> T, i: nat)
    requires StampCoherent(live, stamp) && i <= |xs|
    ensures LiveBefore(Renumber(xs, live, stamp), live, i) == LiveBefore(xs, live, i)
    decreases i
  {
    if i > 0 {
      RenumberKeepsRanks(xs, live, stamp, i - 1);
    }
  }

  /** Renumbering twice is renumbering once. */
  lemma RenumberIdempotent<T(!new)>(xs: seq<T>, live: T -> bool, stamp: (T, nat) -> T)
    requires StampCoherent(live, stamp)
    ensures Renumber(Renumber(xs, live, stamp), live, stamp) == Renumber(xs, live, stamp)
  {
    var once := Renumber(xs, live, stamp);
    forall i | 0 <= i < |xs| ensures Renumber(once, live, stamp)[i] == once[i] {
      RenumberKeepsRanks(xs, live, stamp, i);
    }
  }

  /** Marking one live item dead takes one off the rank of every item after it. */
  lemma {:induction false} LiveBeforeKill<T>(xs: seq<T>, live: T -> bool, c: nat, y: T, i: nat)
    requires c < |xs| && live(xs[c]) && !live(y) && i <= |xs|
    ensures LiveBefore(xs[c := y], live, i) + (if c < i then 1 else 0) == LiveBefore(xs, live, i)
  {
    if i > 0 {
      LiveBeforeKill(xs, live, c, y, i - 1);
    }
  }

  /** Counting over a concatenation: the live items of the front, then the ranks in the back. */
  lemma {:induction false} LiveBeforeConcat<T>(a: seq<T>, b: seq<T>, live: T -> bool, i: nat)
    requires i <= |b|
    ensures LiveBefore(a + b, live, |a| + i) == LiveCount(a, live) + LiveBefore(b, live, i)
  {
    if i == 0 {
      LiveBeforePrefix(a + b, live, |a|, |a|);
      assert (a + b)[..|a|] == a;
    } else {
      LiveBeforeConcat(a, b, live, i - 1);
      assert (a + b)[|a| + i - 1] == b[i - 1];
    }
  }

  /** Taking item `j` out lowers the count by one if it was live, and leaves it otherwise. */
  lemma LiveCountRemove<T>(xs: seq<T>, live: T -> bool, j: nat)
    requires j < |xs|
    ensures LiveCount(xs[..j] + xs[j + 1..], live) + (if live(xs[j]) then 1 else 0) == LiveCount(xs, live)
  {
    var a, b := xs[..j], xs[j + 1..];
    LiveBeforeConcat(a, b, live, |b|);
    assert xs == a + ([xs[j]] + b);
    LiveBeforeConcat(a, [xs[j]] + b, live, |b| + 1);
    LiveBeforeConcat([xs[j]], b, live, |b|);
    assert LiveBefore([xs[j]], live, 1) == (if live(xs[j]) then 1 else 0);
  }

  /** Two lists that agree item by item on liveness have the same ranks. */
  lemma {:induction false} LiveBeforeAgree<T>(xs: seq<T>, ys: seq<T>, live: T -> bool, i: nat)
    requires |xs| == |ys| && i <= |xs|
    requires forall k :: 0 <= k < |xs| ==> live(xs[k]) == live(ys[k])
    ensures LiveBefore(xs, live, i) == LiveBefore(ys, live, i)
  {
    if i > 0 {
      LiveBeforeAgree(xs, ys, live, i - 1);
    }
  }

  /** The count is zero exactly when no item is live. */
  lemma LiveCountZero<T>(xs: seq<T>, live: T -> bool)
    ensures LiveCount(xs, live) == 0 <==> forall i :: 0 <= i < |xs| ==> !live(xs[i])
  {
    if LiveCount(xs, live) > 0 {
      LiveRankOnto(xs, live, |xs|, 0);
    }
    forall i | 0 <= i < |xs| && live(xs[i]) ensures LiveCount(xs, live) > 0 {
      LiveBeforeMonotone(xs, live, i, |xs|);
    }
  }
}
