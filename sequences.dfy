/** Generic facts about the leading and trailing runs of elements of a sequence. */
module Sequences {

  /** Every element of s satisfies p. */
  predicate All<T>(p: T -> bool, s: seq<T>) {
    forall i :: 0 <= i < |s| ==> p(s[i])
  }

  /** The length of the longest prefix of s whose elements satisfy p. */
  function LeadingCount<T>(p: T -> bool, s: seq<T>): (n: nat)
    ensures n <= |s|
    ensures forall i :: 0 <= i < n ==> p(s[i])
    ensures n < |s| ==> !p(s[n])
  {
    if s != [] && p(s[0]) then 1 + LeadingCount(p, s[1..]) else 0
  }

  /** The length of the longest suffix of s whose elements satisfy p. */
  function TrailingCount<T>(p: T -> bool, s: seq<T>): (n: nat)
    ensures n <= |s|
    ensures forall i :: |s| - n <= i < |s| ==> p(s[i])
    ensures n < |s| ==> !p(s[|s| - 1 - n])
  {
    if s != [] && p(s[|s| - 1]) then 1 + TrailingCount(p, s[..|s| - 1]) else 0
  }

  /** s without its longest prefix of elements that satisfy p. */
  function DropWhile<T>(p: T -> bool, s: seq<T>): (r: seq<T>)
    ensures r == [] || !p(r[0])
    ensures r == [] <==> All(p, s)
  {
    s[LeadingCount(p, s)..]
  }

  /** Dropping a leading run that starts at the first element is dropping it from the rest. */
  lemma {:induction false} DropWhileStep<T>(p: T -> bool, s: seq<T>)
    requires s != [] && p(s[0])
    ensures DropWhile(p, s) == DropWhile(p, s[1..])
  {
  }

  /** A prefix made only of elements that satisfy p extends the leading run by its length. */
  lemma {:induction false} LeadingCountSkipsPrefix<T>(p: T -> bool, w: seq<T>, s: seq<T>)
    requires All(p, w)
    ensures LeadingCount(p, w + s) == |w| + LeadingCount(p, s)
  {
    if w != [] {
      assert (w + s)[1..] == w[1..] + s;
      LeadingCountSkipsPrefix(p, w[1..], s);
    } else {
      assert w + s == s;
    }
  }

  /** A suffix made only of elements that satisfy p extends the trailing run by its length. */
  lemma {:induction false} TrailingCountSkipsSuffix<T>(p: T -> bool, s: seq<T>, w: seq<T>)
    requires All(p, w)
    ensures TrailingCount(p, s + w) == |w| + TrailingCount(p, s)
  {
    if w != [] {
      var sw := s + w;
      assert sw[..|sw| - 1] == s + w[..|w| - 1];
      TrailingCountSkipsSuffix(p, s, w[..|w| - 1]);
    } else {
      assert s + w == s;
    }
  }
}
