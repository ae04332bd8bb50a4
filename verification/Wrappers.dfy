/** Option and sequence helpers shared by every module. */
module Wrappers {
  datatype Option<+T> = None | Some(value: T)

  /** The concatenation of a sequence of sequences, first to last. */
  function Flatten<T>(parts: seq<seq<T>>): (whole: seq<T>)
  {
    if parts == [] then [] else parts[0] + Flatten(parts[1..])
  }

  function Max(a: nat, b: nat): nat
  {
    if a > b then a else b
  }

  lemma SliceOfSlice<T>(s: seq<T>, a: nat, b: nat, i: nat, j: nat)
    requires a <= b <= |s| && i <= j <= b - a
    ensures s[a..b][i..j] == s[a + i..a + j]
  {
    var inner, direct := s[a..b][i..j], s[a + i..a + j];
    forall k | 0 <= k < j - i
      ensures inner[k] == direct[k]
    {
      assert inner[k] == s[a..b][i + k] == s[a + (i + k)];
      assert direct[k] == s[(a + i) + k];
    }
  }

  ghost predicate Distinct<T(!new)>(s: seq<T>)
  {
    forall i, j :: 0 <= i < j < |s| ==> s[i] != s[j]
  }
}
