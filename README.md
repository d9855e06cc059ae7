# Find-command argument parser, modelled in Dafny

This project models how the TAssist contact manager parses the arguments of its `find`
command (`FindCommandParser.parse`). The parser takes the raw argument string and trims it
with `String.trim`. If nothing is left, it throws a `ParseException` with the
invalid-command-format message built from the `find` usage text. Otherwise it splits the
trimmed string with `split("\\s+")` and wraps the resulting keyword list, unchanged and in
order, in a `NameContainsKeywordsPredicate` inside a `FindCommand`.

Modules:

- `Sequences` (`sequences.dfy`): the lengths of the longest leading and trailing runs of
  elements that satisfy a predicate (`LeadingCount`, `TrailingCount`), and `DropWhile`. The
  file also has lemmas on how these runs change when a sequence is padded.
- `JavaString` (`java_string.dfy`): the two `java.lang.String` operations the parser uses.
  - `Trim` strips the leading and trailing characters at or below U+0020 (`IsBlank`).
  - `Split` is `split("\\s+")` with the default limit 0. When `\s+` never matches, it returns
    the input unchanged. Otherwise it returns the pieces between matches (`Fields`) and drops
    any trailing empty pieces, but it keeps an empty leading piece.
  - `\s` is modelled as the six ASCII characters space and U+0009..U+000D (`IsSpace`). This is a
    smaller set than the blanks `Trim` removes.
  - The reference functions `Join`, `Collapse`, `Concat`, `WithoutSpaces` and `RunCount`
    describe what the keyword list must be.
- `FindCommandParser` (`find_command_parser.dfy`): the command datatypes and `Parse`. A
  `Result` datatype replaces the thrown exception. Lemmas cover every property of the
  keyword list.

The parser is pure: one expression with no state and no loop. It is modelled with functions
and lemmas only.

Parsing fails on any argument made only of characters at or below U+0020, not only on an
argument made of `\s` characters, because that is what `String.trim` removes. Such an
argument can include control characters such as U+0001, which are not `\s`: `Parse` fails
exactly when `All(IsBlank, args)`. Inside the trimmed string, such a control character is
not a split point, so it becomes part of a keyword.

## Model

| member | source | states |
|---|---|---|
| `FindCommandParser.Parse` | src/main/java/seedu/tassist/logic/parser/FindCommandParser.java:21-31 | Parsing fails exactly when every character of the argument is at or below U+0020, which is when the trimmed argument is empty. The failure is the invalid-command-format error carrying the find usage text. |
| `FindCommandParser.KeywordsAreFields` | src/main/java/seedu/tassist/logic/parser/FindCommandParser.java:22-30 | On success the trimmed argument neither begins nor ends with `\s`. The predicate's keywords are exactly the pieces of the trimmed argument between runs of `\s`, so splitting drops no empty leading or trailing piece. |
| `FindCommandParser.ParseKeywordsNotEmpty` | src/main/java/seedu/tassist/logic/parser/FindCommandParser.java:23-28 | A successful parse has at least one keyword. |
| `FindCommandParser.ParseKeywordsAreWords` | src/main/java/seedu/tassist/logic/parser/FindCommandParser.java:28 | Every keyword is non-empty and contains no `\s` character. |
| `FindCommandParser.ParseJoinsToCollapsed` | src/main/java/seedu/tassist/logic/parser/FindCommandParser.java:22-28 | Joining the keywords with single spaces gives the trimmed argument with each maximal run of `\s` collapsed to one space. The keywords therefore keep the input order. |
| `FindCommandParser.ParseKeepsEveryCharacter` | src/main/java/seedu/tassist/logic/parser/FindCommandParser.java:22-28 | Concatenating the keywords gives the trimmed argument with its `\s` characters removed. No other character is lost, added or reordered. |
| `FindCommandParser.ParseKeywordCount` | src/main/java/seedu/tassist/logic/parser/FindCommandParser.java:28 | The number of keywords equals the number of maximal runs of non-`\s` characters in the trimmed argument. |
| `FindCommandParser.ParseIgnoresPadding` | src/main/java/seedu/tassist/logic/parser/FindCommandParser.java:22 | Adding characters at or below U+0020, `\s` among them, before or after the argument leaves the result unchanged. |
| `FindCommandParser.ParseKeywordsDetermined` | src/main/java/seedu/tassist/logic/parser/FindCommandParser.java:28-30 | The predicate holds exactly the split keyword list. Any list of non-empty, `\s`-free words that joins to the collapsed trimmed argument is that list, so nothing is added, dropped or changed. |
| `FindCommandParser.ParseOfJoin` | src/main/java/seedu/tassist/logic/parser/FindCommandParser.java:21-31 | Round trip: a non-empty list of non-empty, `\s`-free words whose first and last characters are not blank, typed with single spaces between the words, parses successfully into a predicate holding exactly those words, in order. |
| `JavaString.IsBlank` | src/main/java/seedu/tassist/logic/parser/FindCommandParser.java:22 | The characters `String.trim` removes from either end: every code point at or below U+0020. |
| `JavaString.IsSpace` | src/main/java/seedu/tassist/logic/parser/FindCommandParser.java:28 | The characters the regex class `\s` in `split("\\s+")` matches: the space and U+0009..U+000D. |
| `JavaString.SpacesAreBlanks` | src/main/java/seedu/tassist/logic/parser/FindCommandParser.java:22-28 | Every `\s` character is one `trim` removes, but not the other way round: U+0001 is removed by `trim` and is not `\s`. |
| `JavaString.Trim` | src/main/java/seedu/tassist/logic/parser/FindCommandParser.java:22 | `String.trim` returns a string that neither begins nor ends with a character at or below U+0020. It is empty exactly when every character of the input is such a character. |
| `JavaString.TrimIsSlice` | src/main/java/seedu/tassist/logic/parser/FindCommandParser.java:22 | The trimmed string is a contiguous slice of the input, and everything before and after the slice is at or below U+0020. |
| `JavaString.TrimStripsPadding` | src/main/java/seedu/tassist/logic/parser/FindCommandParser.java:22 | A non-empty string that neither begins nor ends with a blank, padded with blanks on both sides, trims back to exactly itself. |
| `JavaString.TrimIgnoresBlankPadding` | src/main/java/seedu/tassist/logic/parser/FindCommandParser.java:22 | Trimming ignores blank padding on either side of the string. |
| `JavaString.TrimIdempotent` | src/main/java/seedu/tassist/logic/parser/FindCommandParser.java:22 | Trimming an already trimmed string changes nothing. |
| `JavaString.Fields` | src/main/java/seedu/tassist/logic/parser/FindCommandParser.java:28 | Cutting at maximal `\s` runs yields at least one piece, and no piece contains `\s`. |
| `JavaString.Split` | src/main/java/seedu/tassist/logic/parser/FindCommandParser.java:28 | `split("\\s+")` returns no piece containing `\s`. It returns the whole input when there is no `\s`, and otherwise never ends with an empty piece. |
| `JavaString.FieldsOfWord` | src/main/java/seedu/tassist/logic/parser/FindCommandParser.java:28 | A string without `\s` is a single piece. |
| `JavaString.FieldsOfTrimmed` | src/main/java/seedu/tassist/logic/parser/FindCommandParser.java:28 | If a non-empty string neither begins nor ends with `\s`, all its pieces are non-empty. It has one piece per maximal run of non-`\s` characters. |
| `JavaString.SplitOfTrimmed` | src/main/java/seedu/tassist/logic/parser/FindCommandParser.java:22-28 | On such a string, `split` keeps every piece and drops no empty one. |
| `JavaString.SplitUntrimmed` | src/main/java/seedu/tassist/logic/parser/FindCommandParser.java:22-28 | Without the trim, `" a"` would split into `["", "a"]` (an empty keyword) and `" "` would split into no keywords at all. |
| `JavaString.JoinFields` | src/main/java/seedu/tassist/logic/parser/FindCommandParser.java:28 | Joining the pieces with single spaces gives the string with every run of `\s` collapsed to one space. |
| `JavaString.ConcatFields` | src/main/java/seedu/tassist/logic/parser/FindCommandParser.java:28 | Concatenating the pieces gives the string with its `\s` characters removed. |
| `JavaString.JoinInjective` | src/main/java/seedu/tassist/logic/parser/FindCommandParser.java:28-30 | Two lists of non-empty, `\s`-free words that join to the same string are equal. |

## Left out

- `FindCommand` execution and the case-insensitive name matching of
  `NameContainsKeywordsPredicate` are not part of this model. The predicate is a plain
  wrapper around its keyword list.
- The wording of `MESSAGE_INVALID_COMMAND_FORMAT` and `FindCommand.MESSAGE_USAGE` is defined
  outside the parser. The usage text is the uninterpreted constant `FindUsage`. The
  `String.format` result is represented by the error value
  `InvalidCommandFormat(FindUsage)` rather than by the formatted text.
- `split` is modelled only for the regex `\s+`, not for general regular expressions. Its `\s`
  is the six ASCII characters of Java's default (non-Unicode) character class.
- Java strings are UTF-16 code units, and Dafny's `char` is a Unicode scalar value.
  Surrogate pairs are not modelled. Trimming and splitting only look at characters at or
  below U+0020, which are the same in both.
- The JSON storage adapter exercised by `JsonAdaptedPersonTest` is not part of this model.
  That covers `JsonAdaptedPerson.toModelType`, the per-field constraints of `Name`, `Phone`,
  `Email`, `AttendanceList` and `Tag`, and their messages. The classes and their validation
  rules are not among the modelled files.
- User-interface input, file storage, application start-up and logging are I/O and are
  outside the parser.
