/** Small facts about sequences: distinctness and first-occurrence
    de-duplication, which is how a Python dict orders its keys. */
module Seqs {

  predicate Distinct<T(==)>(s: seq<T>) {
    forall i, j | 0 <= i < j < |s| :: s[i] != s[j]
  }

  /** The position of the first occurrence of `x` in `s`. */
  function IndexOf(s: seq<string>, x: string): (i: nat)
    requires x in s
    ensures i < |s| && s[i] == x && x !in s[..i]
  {
    if s[0] == x then 0 else 1 + IndexOf(s[1..], x)
  }

  lemma {:induction false} IndexOfPrefix(s: seq<string>, n: nat, x: string)
    requires n <= |s| && x in s[..n]
    ensures IndexOf(s, x) == IndexOf(s[..n], x)
  {
    if s[0] != x {
      assert s[1..][..n - 1] == s[..n][1..];
      IndexOfPrefix(s[1..], n - 1, x);
    }
  }

  /** The elements of `s` without repetitions, in order of first occurrence:
      the key order of `{x: ... for x in s}`. */
  function Dedup(s: seq<string>): (r: seq<string>)
    ensures forall x :: x in r <==> x in s
    ensures Distinct(r)
    decreases |s|
  {
    if s == [] then []
    else
      var r0 := Dedup(s[..|s| - 1]);
      if s[|s| - 1] in r0 then r0 else r0 + [s[|s| - 1]]
  }

  /** `Dedup` lists the elements in the order of their first occurrence. */
  lemma {:induction false} DedupFirstOccurrence(s: seq<string>)
    ensures forall i, j | 0 <= i < j < |Dedup(s)| :: IndexOf(s, Dedup(s)[i]) < IndexOf(s, Dedup(s)[j])
    decreases |s|
  {
    if s != [] {
      var init := s[..|s| - 1];
      var last := s[|s| - 1];
      DedupFirstOccurrence(init);
      forall x | x in Dedup(init) ensures IndexOf(s, x) == IndexOf(init, x) {
        IndexOfPrefix(s, |s| - 1, x);
      }
      if last !in Dedup(init) {
        assert IndexOf(s, last) == |s| - 1;
      }
    }
  }
}
