// Sequence helpers shared by the container and the utilities.
module Sequences {

  /** The sequence read from its last element back to its first. */
  function Reversed<T>(s: seq<T>): seq<T>
    decreases |s|
  {
    if |s| == 0 then [] else [s[|s| - 1]] + Reversed(s[..|s| - 1])
  }

  lemma {:induction false} ReversedLength<T>(s: seq<T>)
    ensures |Reversed(s)| == |s|
    decreases |s|
  {
    if |s| > 0 {
      ReversedLength(s[..|s| - 1]);
    }
  }

  /** Position `k` of the reversal holds the element `k` places before the end of `s`. */
  lemma {:induction false} ReversedAt<T>(s: seq<T>, k: nat)
    requires k < |s|
    ensures |Reversed(s)| == |s| && Reversed(s)[k] == s[|s| - 1 - k]
    decreases |s|
  {
    var init := s[..|s| - 1];
    ReversedLength(s);
    if k > 0 {
      ReversedAt(init, k - 1);
    }
  }

  /** A sequence is the reversal of `s` exactly when it holds `s`'s elements at mirrored indices. */
  lemma ReversedByIndex<T>(s: seq<T>, r: seq<T>)
    requires |r| == |s|
    requires forall k :: 0 <= k < |s| ==> r[k] == s[|s| - 1 - k]
    ensures r == Reversed(s)
  {
    ReversedLength(s);
    forall k | 0 <= k < |s| ensures r[k] == Reversed(s)[k] {
      ReversedAt(s, k);
    }
  }

  /** Reversing a non-empty sequence puts its first element last, after the reversed rest. */
  lemma {:induction false} ReversedFirstLast<T>(s: seq<T>)
    requires |s| > 0
    ensures Reversed(s) == Reversed(s[1..]) + [s[0]]
    decreases |s|
  {
    if |s| > 1 {
      var init, mid := s[..|s| - 1], s[1..|s| - 1];
      ReversedFirstLast(init);
      assert init[1..] == mid && init[0] == s[0];
      assert s[1..][..|s| - 2] == mid && s[1..][|s| - 2] == s[|s| - 1];
      calc {
        Reversed(s);
        [s[|s| - 1]] + Reversed(init);
        [s[|s| - 1]] + (Reversed(mid) + [s[0]]);
        ([s[|s| - 1]] + Reversed(mid)) + [s[0]];
        Reversed(s[1..]) + [s[0]];
      }
    }
  }

  /** Reversing twice gives back the original sequence. */
  lemma ReversedTwice<T>(s: seq<T>)
    ensures Reversed(Reversed(s)) == s
  {
    var r := Reversed(s);
    ReversedLength(s);
    ReversedLength(r);
    forall k | 0 <= k < |s| ensures Reversed(r)[k] == s[k] {
      ReversedAt(r, k);
      ReversedAt(s, |s| - 1 - k);
    }
  }
}
