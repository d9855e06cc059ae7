/**
 * The parser of the arguments of the find command: it trims the argument string, rejects
 * a blank one with the invalid-command-format error, and otherwise splits it on runs of
 * \s into the name keywords of the search predicate.
 */
module FindCommandParser {
  import opened Sequences
  import opened JavaString

  /** The usage text of the find command; its wording is defined outside this model. */
  const FindUsage: string

  /** Matches the persons whose name contains one of the keywords; the matching is not modelled. */
  datatype NameContainsKeywordsPredicate = NameContainsKeywordsPredicate(keywords: seq<string>)

  /** The command that lists the persons the predicate matches. */
  datatype FindCommand = FindCommand(matcher: NameContainsKeywordsPredicate)

  /** The invalid-command-format error, carrying the usage text of the command at fault. */
  datatype ParseError = InvalidCommandFormat(usage: string)

  /** What parsing returns in place of throwing a ParseException. */
  datatype Result<T> = Success(value: T) | Failure(error: ParseError)

  /** The keywords of the command a successful parse returns. */
  function Keywords(r: Result<FindCommand>): seq<string>
    requires r.Success?
  {
    r.value.matcher.keywords
  }

  /**
   * FindCommandParser.parse: fails with the usage text exactly when the argument string is
   * blank, and otherwise builds the predicate from the split trimmed argument string.
   */
  function Parse(args: string): (r: Result<FindCommand>)
    ensures r.Failure? <==> All(IsBlank, args)
    ensures r.Failure? <==> Trim(args) == []
    ensures r.Failure? ==> r.error == InvalidCommandFormat(FindUsage)
  {
    var trimmedArgs := Trim(args);
    if trimmedArgs == [] then
      Failure(InvalidCommandFormat(FindUsage))
    else
      var nameKeywords := Split(trimmedArgs);
      Success(FindCommand(NameContainsKeywordsPredicate(nameKeywords)))
  }

  /** On success the keywords are exactly the pieces of the trimmed argument string. */
  lemma {:induction false} KeywordsAreFields(args: string)
    requires Parse(args).Success?
    ensures var t := Trim(args); t != [] && !IsSpace(t[0]) && !IsSpace(t[|t| - 1])
    ensures Keywords(Parse(args)) == Fields(Trim(args))
  {
    var t := Trim(args);
    assert t != [] && !IsBlank(t[0]) && !IsBlank(t[|t| - 1]);
    assert Keywords(Parse(args)) == Split(t);
    SplitOfTrimmed(t);
  }

  /** A successful parse yields at least one keyword. */
  lemma {:induction false} ParseKeywordsNotEmpty(args: string)
    requires Parse(args).Success?
    ensures |Keywords(Parse(args))| >= 1
  {
    KeywordsAreFields(args);
  }

  /** Every keyword is non-empty and holds no character of \s. */
  lemma {:induction false} ParseKeywordsAreWords(args: string)
    requires Parse(args).Success?
    ensures IsWordList(Keywords(Parse(args)))
  {
    KeywordsAreFields(args);
    FieldsOfTrimmed(Trim(args));
  }

  /**
   * The keywords joined with single spaces give the trimmed argument string with each run of
   * \s collapsed to one space: they appear in input order.
   */
  lemma {:induction false} ParseJoinsToCollapsed(args: string)
    requires Parse(args).Success?
    ensures Join(Keywords(Parse(args))) == Collapse(Trim(args))
  {
    KeywordsAreFields(args);
    JoinFields(Trim(args));
  }

  /** No character outside \s is lost or added: the keywords spell out the trimmed argument string. */
  lemma {:induction false} ParseKeepsEveryCharacter(args: string)
    requires Parse(args).Success?
    ensures Concat(Keywords(Parse(args))) == WithoutSpaces(Trim(args))
  {
    KeywordsAreFields(args);
    ConcatFields(Trim(args));
  }

  /** There is one keyword per maximal run of non-\s characters of the trimmed argument string. */
  lemma {:induction false} ParseKeywordCount(args: string)
    requires Parse(args).Success?
    ensures |Keywords(Parse(args))| == RunCount(Trim(args))
  {
    KeywordsAreFields(args);
    FieldsOfTrimmed(Trim(args));
  }

  /** Blanks around the argument string do not change the result. */
  lemma {:induction false} ParseIgnoresPadding(w1: string, args: string, w2: string)
    requires All(IsBlank, w1) && All(IsBlank, w2)
    ensures Parse(w1 + args + w2) == Parse(args)
  {
    TrimIgnoresBlankPadding(w1, args, w2);
  }

  /**
   * The predicate holds exactly the split keywords: any list of non-empty words without \s
   * that joins to the collapsed trimmed argument string is the keyword list.
   */
  lemma {:induction false} ParseKeywordsDetermined(args: string, words: seq<string>)
    requires Parse(args).Success?
    requires IsWordList(words)
    requires Join(words) == Collapse(Trim(args))
    ensures Keywords(Parse(args)) == words
  {
    ParseKeywordsAreWords(args);
    ParseJoinsToCollapsed(args);
    JoinInjective(Keywords(Parse(args)), words);
  }

  /**
   * Round trip: words that are non-empty, hold no \s and neither start nor end the line
   * with a blank, typed with single spaces between them, parse back to exactly those words.
   */
  lemma {:induction false} ParseOfJoin(words: seq<string>)
    requires words != [] && IsWordList(words)
    requires !IsBlank(words[0][0])
    requires var w := words[|words| - 1]; !IsBlank(w[|w| - 1])
    ensures Parse(Join(words)) == Success(FindCommand(NameContainsKeywordsPredicate(words)))
  {
    var j := Join(words);
    JoinFirst(words);
    assert j[..|words[0]|][0] == j[0];
    JoinLast(words);
    TrimStripsPadding([], j, []);
    assert [] + j + [] == j;
    CollapseOfJoin(words);
    ParseKeywordsDetermined(j, words);
  }
}
