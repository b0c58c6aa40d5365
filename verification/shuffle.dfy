/** The in-place Fisher-Yates shuffle of the deck. The random index drawn at each
    step is supplied by the caller as `draws[i]`, the value `floor(random * (i + 1))`
    the server would draw when it reaches position `i`. */
module Shuffle {

  /** Every drawn index lies in `[0, i]` for the position `i` it is drawn at. */
  ghost predicate ValidDraws(draws: seq<nat>, n: nat) {
    |draws| == n && forall i :: 0 <= i < n ==> draws[i] <= i
  }

  /** The first position the shuffle visits: `n - 1`, or 0 (nothing to do) when `n == 0`. */
  function Top(n: nat): nat {
    if n == 0 then 0 else n - 1
  }

  /** `s` with the elements at `i` and `j` exchanged. */
  function Swap<T>(s: seq<T>, i: nat, j: nat): (r: seq<T>)
    requires i < |s| && j < |s|
    ensures |r| == |s| && r[i] == s[j] && r[j] == s[i]
    ensures forall k :: 0 <= k < |s| && k != i && k != j ==> r[k] == s[k]
  {
    s[i := s[j]][j := s[i]]
  }

  /** The deck after the steps at positions `i`, `i - 1`, ..., 1 are applied to `s`. */
  ghost function Shuffled<T>(s: seq<T>, draws: seq<nat>, i: nat): seq<T>
    requires ValidDraws(draws, |s|) && (i == 0 || i < |s|)
    decreases i
  {
    if i == 0 then s else Shuffled(Swap(s, i, draws[i]), draws, i - 1)
  }

  lemma SwapPermutes<T>(s: seq<T>, i: nat, j: nat)
    requires i < |s| && j < |s|
    ensures multiset(Swap(s, i, j)) == multiset(s)
  {
    if i != j {
      var t := s[i := s[j]];
      assert multiset(t) == multiset(s) - multiset{s[i]} + multiset{s[j]};
      assert multiset(t[j := s[i]]) == multiset(t) - multiset{t[j]} + multiset{s[i]};
    }
  }

  /** The shuffle only reorders: same length, same multiset of cards. */
  lemma {:induction false} ShuffledPermutes<T>(s: seq<T>, draws: seq<nat>, i: nat)
    requires ValidDraws(draws, |s|) && (i == 0 || i < |s|)
    ensures |Shuffled(s, draws, i)| == |s|
    ensures multiset(Shuffled(s, draws, i)) == multiset(s)
    decreases i
  {
    if i > 0 {
      SwapPermutes(s, i, draws[i]);
      ShuffledPermutes(Swap(s, i, draws[i]), draws, i - 1);
    }
  }

  /** `shuffleDeck`: for `i` from `n - 1` down to 1, swap `a[i]` with `a[draws[i]]`. */
  method ShuffleDeck<T>(a: array<T>, draws: seq<nat>)
    requires ValidDraws(draws, a.Length)
    modifies a
    ensures a[..] == Shuffled(old(a[..]), draws, Top(a.Length))
    ensures multiset(a[..]) == multiset(old(a[..]))
    ensures a.Length <= 1 ==> a[..] == old(a[..])
  {
    var i: int := a.Length - 1;
    while i > 0
      invariant -1 <= i < a.Length && (a.Length > 0 ==> 0 <= i)
      invariant Shuffled(a[..], draws, if i < 0 then 0 else i) == Shuffled(old(a[..]), draws, Top(a.Length))
      decreases i
    {
      var j := draws[i];
      a[i], a[j] := a[j], a[i];
      i := i - 1;
    }
    ShuffledPermutes(old(a[..]), draws, Top(a.Length));
  }
}
