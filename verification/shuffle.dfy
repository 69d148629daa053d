/**
  Go's `rand.Shuffle` with the random source passed in: Fisher-Yates from
  the last position down, swapping position `i` with a position `j` in
  `[0, i]` drawn from the source.
 */
module Shuffling {

  /** No element occurs twice. */
  predicate NoDuplicates<T(==)>(s: seq<T>)
  {
    forall i, j :: 0 <= i < j < |s| ==> s[i] != s[j]
  }

  /** The indices `0, 1, ..., k - 1` in increasing order. */
  function Range(k: nat): (r: seq<nat>)
    ensures |r| == k
    ensures forall i :: 0 <= i < k ==> r[i] == i
    ensures forall x: nat :: x in r <==> x < k
    ensures NoDuplicates(r)
  {
    var r: seq<nat> := seq(k, i requires 0 <= i => i as nat);
    forall x: nat | x in r
      ensures x < k
    {
      var i :| 0 <= i < |r| && r[i] == x;
    }
    forall x: nat | x < k
      ensures x in r
    {
      assert r[x] == x;
    }
    r
  }

  /** `s` with positions `i` and `j` exchanged. */
  function Swap<T>(s: seq<T>, i: nat, j: nat): (r: seq<T>)
    requires i < |s| && j < |s|
    ensures |r| == |s|
    ensures r[i] == s[j] && r[j] == s[i]
    ensures forall k :: 0 <= k < |s| && k != i && k != j ==> r[k] == s[k]
    ensures multiset(r) == multiset(s)
  {
    s[i := s[j]][j := s[i]]
  }

  lemma SwapKeepsNoDuplicates<T>(s: seq<T>, i: nat, j: nat)
    requires i < |s| && j < |s|
    ensures NoDuplicates(s) ==> NoDuplicates(Swap(s, i, j))
  {
    var r := Swap(s, i, j);
    forall a, b | NoDuplicates(s) && 0 <= a < b < |r|
      ensures r[a] != r[b]
    {
      var a' := if a == i then j else if a == j then i else a;
      var b' := if b == i then j else if b == j then i else b;
      assert r[a] == s[a'] && r[b] == s[b'];
      assert a' != b';
    }
  }

  /** The Fisher-Yates passes for positions `i, i - 1, ..., 1`. */
  function ShuffleDown<T>(s: seq<T>, i: nat, rng: nat -> nat): (r: seq<T>)
    requires i < |s|
    ensures |r| == |s|
    ensures multiset(r) == multiset(s)
    ensures NoDuplicates(s) ==> NoDuplicates(r)
    decreases i
  {
    if i == 0 then s
    else
      var j := rng(i) % (i + 1);
      SwapKeepsNoDuplicates(s, i, j);
      ShuffleDown(Swap(s, i, j), i - 1, rng)
  }

  /** A permutation of `s` chosen by the random source `rng`. */
  function Shuffle<T>(s: seq<T>, rng: nat -> nat): (r: seq<T>)
    ensures |r| == |s|
    ensures multiset(r) == multiset(s)
    ensures NoDuplicates(s) ==> NoDuplicates(r)
  {
    if |s| == 0 then s else ShuffleDown(s, |s| - 1, rng)
  }
}
