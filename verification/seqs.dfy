/** Order-preserving selection, the shape of every `select ... where ...` query of the system. */
module Seqs {

  /** The elements of `s` that satisfy `p`, in the order they appear in `s`. */
  function Filter<T>(s: seq<T>, p: T -> bool): (r: seq<T>)
    ensures |r| <= |s|
    decreases |s|
  {
    if s == [] then [] else Filter(s[..|s| - 1], p) + (if p(s[|s| - 1]) then [s[|s| - 1]] else [])
  }

  /** An element is selected exactly when it is in `s` and satisfies `p`. */
  lemma {:induction false} FilterMembers<T>(s: seq<T>, p: T -> bool)
    ensures forall i :: 0 <= i < |Filter(s, p)| ==> Filter(s, p)[i] in s && p(Filter(s, p)[i])
    ensures forall i :: 0 <= i < |s| && p(s[i]) ==> s[i] in Filter(s, p)
    decreases |s|
  {
    if s != [] {
      var init := s[..|s| - 1];
      FilterMembers(init, p);
      assert s == init + [s[|s| - 1]];
    }
  }

  /** A filter is empty exactly when no element satisfies the predicate. */
  lemma FilterEmpty<T>(s: seq<T>, p: T -> bool)
    ensures Filter(s, p) == [] <==> forall i :: 0 <= i < |s| ==> !p(s[i])
  {
    FilterMembers(s, p);
    if Filter(s, p) != [] {
      var x := Filter(s, p)[0];
      var i :| 0 <= i < |s| && s[i] == x;
      assert p(s[i]);
    }
    if exists i :: 0 <= i < |s| && p(s[i]) {
      var i :| 0 <= i < |s| && p(s[i]);
      assert s[i] in Filter(s, p);
    }
  }
}
