/** Bit sets as sequences: counting the bits that are set, and those below a given one. */
module Bits {

  function Count(s: seq<bool>): nat {
    if s == [] then 0 else Count(s[..|s| - 1]) + if s[|s| - 1] then 1 else 0
  }

  lemma {:induction false} CountConcat(a: seq<bool>, b: seq<bool>)
    ensures Count(a + b) == Count(a) + Count(b)
    decreases |b|
  {
    if b == [] {
      assert a + b == a;
    } else {
      assert (a + b)[..|a + b| - 1] == a + b[..|b| - 1];
      CountConcat(a, b[..|b| - 1]);
    }
  }

  lemma CountSlices(s: seq<bool>, i: nat, j: nat)
    requires i <= j <= |s|
    ensures Count(s[..j]) == Count(s[..i]) + Count(s[i..j])
  {
    assert s[..j] == s[..i] + s[i..j];
    CountConcat(s[..i], s[i..j]);
  }

  /** How many bits are set below bit `r`. */
  function Rank(dirty: seq<bool>, r: nat): nat
    requires r <= |dirty|
  {
    Count(dirty[..r])
  }

  lemma RankNext(dirty: seq<bool>, r: nat)
    requires r < |dirty|
    ensures Rank(dirty, r + 1) == Rank(dirty, r) + if dirty[r] then 1 else 0
  {
    assert dirty[..r + 1][..r] == dirty[..r];
  }

  lemma {:induction false} RankGrows(dirty: seq<bool>, i: nat, j: nat)
    requires i <= j <= |dirty|
    ensures Rank(dirty, i) <= Rank(dirty, j)
    ensures (forall r :: i <= r < j ==> !dirty[r]) ==> Rank(dirty, i) == Rank(dirty, j)
    decreases j
  {
    if i < j {
      RankGrows(dirty, i, j - 1);
      RankNext(dirty, j - 1);
    }
  }
}
