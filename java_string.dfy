/**
 * The two java.lang.String operations the find parser relies on, String.trim and
 * String.split("\\s+"), over strings as sequences of characters, together with the
 * reference functions (joining, collapsing, counting runs) that describe their results.
 */
module JavaString {
  import opened Sequences

  /** A character String.trim removes: any code point at or below U+0020. */
  predicate IsBlank(c: char) {
    c <= ' '
  }

  /**
   * A character of the regex class \s: the space, or one of tab, line feed, vertical tab,
   * form feed and carriage return, which are the consecutive code points U+0009..U+000D.
   */
  predicate IsSpace(c: char) {
    c == ' ' || '\t' <= c <= '\r'
  }

  /** Every character of \s is one that String.trim removes, but not the other way round. */
  lemma {:induction false} SpacesAreBlanks()
    ensures forall c :: IsSpace(c) ==> IsBlank(c)
    ensures IsBlank('\U{1}') && !IsSpace('\U{1}')
  {
  }

  predicate IsEmpty(w: string) {
    w == []
  }

  /** s holds no character of \s. */
  predicate NoSpace(s: string) {
    forall i :: 0 <= i < |s| ==> !IsSpace(s[i])
  }

  /** s neither begins nor ends with a blank, which is what String.trim returns. */
  predicate IsTrimmed(s: string) {
    s == [] || (!IsBlank(s[0]) && !IsBlank(s[|s| - 1]))
  }

  /**
   * String.trim: st counts the leading blanks, then len moves back from the end over the
   * trailing blanks, never past st; the result is the slice between them.
   */
  function Trim(s: string): (r: string)
    ensures IsTrimmed(r)
    ensures r == [] <==> All(IsBlank, s)
  {
    var st := LeadingCount(IsBlank, s);
    var len := |s| - TrailingCount(IsBlank, s[st..]);
    TrimCounts(s, st, len);
    s[st..len]
  }

  /** The two bounds trim computes: in order, at non-blanks, and equal exactly on a blank string. */
  lemma {:induction false} TrimCounts(s: string, st: nat, len: nat)
    requires st == LeadingCount(IsBlank, s) && len == |s| - TrailingCount(IsBlank, s[st..])
    ensures st <= len <= |s|
    ensures st < len ==> !IsBlank(s[st]) && !IsBlank(s[len - 1])
    ensures st == len <==> All(IsBlank, s)
  {
  }

  /** What String.trim returns is a slice of its input with only blanks before and after it. */
  lemma {:induction false} TrimIsSlice(s: string)
    ensures exists i :: 0 <= i <= |s| - |Trim(s)| && Trim(s) == s[i..i + |Trim(s)|]
                     && All(IsBlank, s[..i]) && All(IsBlank, s[i + |Trim(s)|..])
  {
    var st := LeadingCount(IsBlank, s);
    var len := |s| - TrailingCount(IsBlank, s[st..]);
    TrimBounds(s, st, len);
    assert st + |Trim(s)| == len;
  }

  /** The slice String.trim returns, at the bounds it computes, with only blanks around it. */
  lemma {:induction false} TrimBounds(s: string, st: nat, len: nat)
    requires st == LeadingCount(IsBlank, s) && len == |s| - TrailingCount(IsBlank, s[st..])
    ensures st <= len <= |s| && Trim(s) == s[st..len]
    ensures All(IsBlank, s[..st]) && All(IsBlank, s[len..])
  {
  }

  /**
   * The pieces of s between the maximal runs of \s, as the regex \s+ cuts them, before
   * String.split discards trailing empty pieces. A run at the start of s gives an empty
   * first piece and a run at the end an empty last piece.
   */
  function Fields(s: string): (r: seq<string>)
    ensures |r| >= 1
    ensures forall i :: 0 <= i < |r| ==> NoSpace(r[i])
    decreases |s|
  {
    if s == [] then [[]]
    else if IsSpace(s[0]) then [[]] + Fields(DropWhile(IsSpace, s[1..]))
    else
      var rest := Fields(s[1..]);
      [[s[0]] + rest[0]] + rest[1..]
  }

  /**
   * String.split("\\s+") with its default limit 0: the input itself when \s+ never
   * matches, and otherwise the pieces between matches with trailing empty pieces removed.
   */
  function Split(s: string): (r: seq<string>)
    ensures forall i :: 0 <= i < |r| ==> NoSpace(r[i])
    ensures NoSpace(s) ==> r == [s]
    ensures !NoSpace(s) ==> r == [] || r[|r| - 1] != []
  {
    if NoSpace(s) then [s]
    else
      var pieces := Fields(s);
      pieces[..|pieces| - TrailingCount(IsEmpty, pieces)]
  }

  /** Every word of the list is non-empty and holds no character of \s. */
  predicate IsWordList(words: seq<string>) {
    forall i :: 0 <= i < |words| ==> words[i] != [] && NoSpace(words[i])
  }

  /** The words joined with one space between neighbours, as String.join(" ", words). */
  function Join(words: seq<string>): string {
    if words == [] then []
    else if |words| == 1 then words[0]
    else words[0] + " " + Join(words[1..])
  }

  /** The words written one after another with nothing between them. */
  function Concat(words: seq<string>): string {
    if words == [] then [] else words[0] + Concat(words[1..])
  }

  /** s with every maximal run of \s replaced by a single space. */
  function Collapse(s: string): string
    decreases |s|
  {
    if s == [] then []
    else if IsSpace(s[0]) then " " + Collapse(DropWhile(IsSpace, s[1..]))
    else [s[0]] + Collapse(s[1..])
  }

  /** s with every character of \s removed. */
  function WithoutSpaces(s: string): string {
    if s == [] then []
    else (if IsSpace(s[0]) then [] else [s[0]]) + WithoutSpaces(s[1..])
  }

  /** The number of maximal runs of non-\s characters in s, counted at the end of each run. */
  function RunCount(s: string): nat {
    if s == [] then 0
    else (if !IsSpace(s[0]) && (|s| == 1 || IsSpace(s[1])) then 1 else 0) + RunCount(s[1..])
  }

  /** Padding a string with blanks on either side does not change what String.trim returns. */
  lemma {:induction false} TrimIgnoresBlankPadding(w1: string, s: string, w2: string)
    requires All(IsBlank, w1) && All(IsBlank, w2)
    ensures Trim(w1 + s + w2) == Trim(s)
  {
    if All(IsBlank, s) {
      TrimOfPaddedBlanks(w1, s, w2);
    } else {
      TrimOfPaddedText(w1, s, w2);
    }
  }

  /** The case of TrimIgnoresBlankPadding where s is blank too: both sides trim to nothing. */
  lemma {:induction false} TrimOfPaddedBlanks(w1: string, s: string, w2: string)
    requires All(IsBlank, w1) && All(IsBlank, s) && All(IsBlank, w2)
    ensures Trim(w1 + s + w2) == [] && Trim(s) == []
  {
  }

  /** The case of TrimIgnoresBlankPadding where s holds a character that is not blank. */
  lemma {:induction false} TrimOfPaddedText(w1: string, s: string, w2: string)
    requires All(IsBlank, w1) && All(IsBlank, w2) && !All(IsBlank, s)
    ensures Trim(w1 + s + w2) == Trim(s)
  {
    var st := LeadingCount(IsBlank, s);
    var len := |s| - TrailingCount(IsBlank, s[st..]);
    TrimBounds(s, st, len);
    var a, b := s[..st], s[len..];
    Regroup(w1, s, w2, st, len);
    AllAppend(IsBlank, w1, a);
    AllAppend(IsBlank, b, w2);
    TrimStripsPadding(w1 + a, s[st..len], b + w2);
  }

  /** Moves the parts of s around its slice [i, j) into the padding on either side. */
  lemma {:induction false} Regroup(w1: string, s: string, w2: string, i: nat, j: nat)
    requires i <= j <= |s|
    ensures w1 + s + w2 == (w1 + s[..i]) + s[i..j] + (s[j..] + w2)
  {
  }

  /** Two runs of blanks written one after the other are a run of blanks. */
  lemma {:induction false} AllAppend(p: char -> bool, u: string, v: string)
    requires All(p, u) && All(p, v)
    ensures All(p, u + v)
  {
  }

  /**
   * A non-empty string that neither begins nor ends with a blank, padded with blanks on
   * both sides, trims back to itself: trim removes exactly the padding.
   */
  lemma {:induction false} TrimStripsPadding(a: string, m: string, b: string)
    requires All(IsBlank, a) && All(IsBlank, b)
    requires m != [] && IsTrimmed(m)
    ensures Trim(a + m + b) == m
  {
    var x := a + m + b;
    PaddedLeadingCount(a, m, b);
    PaddedTrailingCount(a, m, b);
    TrimFromCounts(x, |a|, |b|, |x| - |b|);
    assert x[|a|..|x| - |b|] == m;
  }

  /** The leading blanks of a padded trimmed string are the left padding. */
  lemma {:induction false} PaddedLeadingCount(a: string, m: string, b: string)
    requires All(IsBlank, a) && m != [] && !IsBlank(m[0])
    ensures LeadingCount(IsBlank, a + m + b) == |a|
  {
    assert a + m + b == a + (m + b);
    LeadingCountSkipsPrefix(IsBlank, a, m + b);
    assert (m + b)[0] == m[0];
  }

  /** After the left padding, the trailing blanks of a padded trimmed string are the right padding. */
  lemma {:induction false} PaddedTrailingCount(a: string, m: string, b: string)
    requires All(IsBlank, b) && m != [] && !IsBlank(m[|m| - 1])
    ensures TrailingCount(IsBlank, (a + m + b)[|a|..]) == |b|
  {
    assert (a + m + b)[|a|..] == m + b;
    TrailingCountSkipsSuffix(IsBlank, m, b);
  }

  /** String.trim in terms of the two counts it computes. */
  lemma {:induction false} TrimFromCounts(s: string, st: nat, n: nat, len: nat)
    requires st == LeadingCount(IsBlank, s) && n == TrailingCount(IsBlank, s[st..])
    requires len == |s| - n
    ensures st <= len <= |s| && Trim(s) == s[st..len]
  {
  }

  /** Trimming a string twice is the same as trimming it once. */
  lemma {:induction false} TrimIdempotent(s: string)
    ensures Trim(Trim(s)) == Trim(s)
  {
  }

  /** A string without \s is a single piece. */
  lemma {:induction false} FieldsOfWord(s: string)
    requires NoSpace(s)
    ensures Fields(s) == [s]
    decreases |s|
  {
    if s != [] {
      FieldsOfWord(s[1..]);
      assert [s[0]] + s[1..] == s;
    }
  }

  /** Skipping a leading run of \s does not change the runs of other characters. */
  lemma {:induction false} RunCountSkipsSpaces(s: string)
    ensures RunCount(DropWhile(IsSpace, s)) == RunCount(s)
    decreases |s|
  {
    if s != [] && IsSpace(s[0]) {
      DropWhileStep(IsSpace, s);
      RunCountSkipsSpaces(s[1..]);
    } else {
      assert s[0..] == s;
    }
  }

  /** Skipping a leading run of \s does not change the other characters. */
  lemma {:induction false} WithoutSpacesSkipsSpaces(s: string)
    ensures WithoutSpaces(DropWhile(IsSpace, s)) == WithoutSpaces(s)
    decreases |s|
  {
    if s != [] && IsSpace(s[0]) {
      DropWhileStep(IsSpace, s);
      WithoutSpacesSkipsSpaces(s[1..]);
    } else {
      assert s[0..] == s;
    }
  }

  /** Prefixing a character to the first word prefixes it to the joined string. */
  lemma {:induction false} JoinPrepend(c: char, words: seq<string>)
    requires words != []
    ensures Join([[c] + words[0]] + words[1..]) == [c] + Join(words)
  {
  }

  /** Joining the pieces with single spaces collapses every run of \s in s to one space. */
  lemma {:induction false} JoinFields(s: string)
    ensures Join(Fields(s)) == Collapse(s)
    decreases |s|
  {
    if s == [] {
    } else if IsSpace(s[0]) {
      var d := DropWhile(IsSpace, s[1..]);
      JoinFields(d);
      assert ([[]] + Fields(d))[1..] == Fields(d);
    } else {
      JoinFields(s[1..]);
      JoinPrepend(s[0], Fields(s[1..]));
    }
  }

  /** Prefixing a character to the first word prefixes it to the concatenation. */
  lemma {:induction false} ConcatPrepend(c: char, words: seq<string>)
    requires words != []
    ensures Concat([[c] + words[0]] + words[1..]) == [c] + Concat(words)
  {
  }

  /** Writing the pieces one after another gives back s without its \s characters. */
  lemma {:induction false} ConcatFields(s: string)
    ensures Concat(Fields(s)) == WithoutSpaces(s)
    decreases |s|
  {
    if s == [] {
    } else if IsSpace(s[0]) {
      var d := DropWhile(IsSpace, s[1..]);
      FieldsOfSpaceStart(s);
      ConcatFields(d);
      WithoutSpacesSkipsSpaces(s[1..]);
      assert ([[]] + Fields(d))[1..] == Fields(d);
    } else {
      FieldsOfWordStart(s);
      ConcatFields(s[1..]);
      ConcatPrepend(s[0], Fields(s[1..]));
    }
  }

  /** Unfolds Fields on a string that starts with a character outside \s. */
  lemma {:induction false} FieldsOfWordStart(s: string)
    requires s != [] && !IsSpace(s[0])
    ensures Fields(s) == [[s[0]] + Fields(s[1..])[0]] + Fields(s[1..])[1..]
  {
  }

  /** Unfolds Fields on a string that starts with a character of \s. */
  lemma {:induction false} FieldsOfSpaceStart(s: string)
    requires s != [] && IsSpace(s[0])
    ensures Fields(s) == [[]] + Fields(DropWhile(IsSpace, s[1..]))
  {
  }

  /**
   * When s neither begins nor ends with \s, every piece is non-empty and there is one
   * piece per maximal run of non-\s characters.
   */
  lemma {:induction false} FieldsOfTrimmed(s: string)
    requires s != [] && !IsSpace(s[0]) && !IsSpace(s[|s| - 1])
    ensures IsWordList(Fields(s))
    ensures |Fields(s)| == RunCount(s)
    decreases |s|
  {
    var t := s[1..];
    FieldsOfWordStart(s);
    if t == [] {
      assert Fields(t) == [[]];
      assert [s[0]] + Fields(t)[0] == [s[0]] && Fields(t)[1..] == [];
    } else if !IsSpace(t[0]) {
      FieldsOfTrimmed(t);
      var f := Fields(t);
      assert f[0] != [];
      assert IsWordList([[s[0]] + f[0]] + f[1..]);
    } else {
      var d := DropWhile(IsSpace, t[1..]);
      FieldsOfSpaceStart(t);
      TrimmedAfterSpaces(s, t, d);
      FieldsOfTrimmed(d);
      RunCountSkipsSpaces(t[1..]);
      var f := Fields(d);
      assert Fields(t)[0] == [] && Fields(t)[1..] == f;
      assert [s[0]] + Fields(t)[0] == [s[0]];
      assert Fields(s) == [[s[0]]] + f;
    }
  }

  /** Skipping the run of \s after the first character leaves a string that ends like s. */
  lemma {:induction false} TrimmedAfterSpaces(s: string, t: string, d: string)
    requires s != [] && !IsSpace(s[|s| - 1])
    requires t == s[1..] && t != [] && IsSpace(t[0]) && d == DropWhile(IsSpace, t[1..])
    ensures d != [] && !IsSpace(d[0]) && !IsSpace(d[|d| - 1])
  {
  }

  /** On a string that neither begins nor ends with \s, String.split keeps every piece. */
  lemma {:induction false} SplitOfTrimmed(s: string)
    requires s != [] && !IsSpace(s[0]) && !IsSpace(s[|s| - 1])
    ensures Split(s) == Fields(s)
  {
    if NoSpace(s) {
      FieldsOfWord(s);
    } else {
      FieldsOfTrimmed(s);
      var f := Fields(s);
      assert !IsEmpty(f[|f| - 1]);
      assert TrailingCount(IsEmpty, f) == 0;
      assert f[..|f|] == f;
    }
  }

  /**
   * Without trimming, String.split("\\s+") would produce an empty first keyword for a
   * leading space, and nothing at all for a string made only of \s.
   */
  lemma {:induction false} SplitUntrimmed()
    ensures Split(" a") == ["", "a"]
    ensures Split(" ") == []
  {
    SplitLeadingSpace();
    SplitSpaceOnly();
  }

  /** The piece before a leading space is kept, empty. */
  lemma {:induction false} SplitLeadingSpace()
    ensures Split(" a") == ["", "a"]
  {
    var a: string := "a";
    var sa: string := " a";
    assert sa[0] == ' ' && sa[1..] == a && !IsSpace(a[0]);
    assert Fields(a) == [a] by { FieldsOfWord(a); }
    assert LeadingCount(IsSpace, a) == 0 && a[0..] == a;
    FieldsOfSpaceStart(sa);
    var f := Fields(sa);
    assert f == [[], a];
    assert !NoSpace(sa);
    assert TrailingCount(IsEmpty, f) == 0;
    assert f[..|f|] == f;
  }

  /** A string made of one space splits into nothing. */
  lemma {:induction false} SplitSpaceOnly()
    ensures Split(" ") == []
  {
    var sp: string := " ";
    assert sp[0] == ' ' && sp[1..] == [];
    FieldsOfSpaceStart(sp);
    var f := Fields(sp);
    assert f == [[], []];
    assert !NoSpace(sp);
    assert f[..1] == [[]];
    assert TrailingCount(IsEmpty, f) == 2;
  }

  /** The joined string starts with the first word, followed by a space when more words follow. */
  lemma {:induction false} JoinFirst(words: seq<string>)
    requires words != []
    ensures |Join(words)| >= |words[0]| && Join(words)[..|words[0]|] == words[0]
    ensures |words| == 1 ==> Join(words) == words[0]
    ensures |words| > 1 ==> |Join(words)| > |words[0]| && Join(words)[|words[0]|] == ' '
                            && Join(words)[|words[0]| + 1..] == Join(words[1..])
  {
  }

  /** A joined list whose last word is non-empty ends with the last character of that word. */
  lemma {:induction false} JoinLast(words: seq<string>)
    requires words != [] && words[|words| - 1] != []
    ensures var j, w := Join(words), words[|words| - 1]; j != [] && j[|j| - 1] == w[|w| - 1]
    decreases |words|
  {
    if |words| > 1 {
      var rest := words[1..];
      JoinLast(rest);
      assert rest[|rest| - 1] == words[|words| - 1];
      var j, r := Join(words), Join(rest);
      assert j == words[0] + " " + r;
      assert j[|j| - 1] == r[|r| - 1];
    }
  }

  /** A word without \s passes through Collapse unchanged. */
  lemma {:induction false} CollapseOfWord(w: string, rest: string)
    requires NoSpace(w)
    ensures Collapse(w + rest) == w + Collapse(rest)
    decreases |w|
  {
    if w == [] {
      assert w + rest == rest;
    } else {
      assert (w + rest)[0] == w[0];
      assert (w + rest)[1..] == w[1..] + rest;
      CollapseOfWord(w[1..], rest);
      assert w == [w[0]] + w[1..];
    }
  }

  /** Words joined by single spaces have no run of \s to collapse. */
  lemma {:induction false} CollapseOfJoin(words: seq<string>)
    requires IsWordList(words)
    ensures Collapse(Join(words)) == Join(words)
    decreases |words|
  {
    if words == [] {
    } else if |words| == 1 {
      CollapseOfWord(words[0], []);
      assert words[0] + [] == words[0];
    } else {
      var rest := words[1..];
      var r := Join(rest);
      CollapseOfJoin(rest);
      JoinFirst(rest);
      assert rest[0] != [] && r[..|rest[0]|] == rest[0];
      assert r[0] == rest[0][0];
      assert LeadingCount(IsSpace, r) == 0 && r[0..] == r;
      var sr: string := " " + r;
      assert sr[0] == ' ' && sr[1..] == r;
      assert Collapse(sr) == sr;
      assert Join(words) == words[0] + sr;
      CollapseOfWord(words[0], sr);
    }
  }

  /**
   * The joined string determines the words: two lists of non-empty words without \s that
   * join to the same string are the same list.
   */
  lemma {:induction false} JoinInjective(a: seq<string>, b: seq<string>)
    requires IsWordList(a) && IsWordList(b)
    requires Join(a) == Join(b)
    ensures a == b
    decreases |a|
  {
    if a != [] && b != [] {
      JoinFirst(a);
      JoinFirst(b);
      var m, n := |a[0]|, |b[0]|;
      assert m == n;
      assert a[0] == b[0];
      if |a| > 1 {
        JoinInjective(a[1..], b[1..]);
        assert a == [a[0]] + a[1..] && b == [b[0]] + b[1..];
      }
    }
  }
}
