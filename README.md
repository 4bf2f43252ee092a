# Set-algebra lexer and JSON answer comparison, modelled in Dafny

This project models two pieces of a compiler for a small set-algebra teaching
language.

- **The lexer** (`Set-Algebra/Python/lexer.py`). A hand-written, maximal-munch
  scanner. It turns source text into tokens (category, text and, for numbers,
  value) and fills a symbol table with the identifiers it meets.
  - Whitespace is skipped.
  - Punctuation and operator characters, `U` and `I` included, are one-character tokens.
  - Any other upper-case letter is an error.
  - A run of lower-case letters is a keyword or an identifier.
  - A run of digits is a number in 0..4294967295. A `0` followed by a digit is split off on its own.
  - Any error makes `tokenize` return no tokens.
- **`compare_json`** (`Set-Algebra/Python/test_ans.py`). A recursive structural
  diff of two decoded JSON values. It reports missing keys, array length
  mismatches and unequal values, each tagged with a path such as
  `root -> key[3]`.

Layout, one module per file:

- `decimal.dfy` (`Decimal`): the value `int()` gives a digit string, and the text `str()` gives a number.
- `json.dfy` (`Json`): JSON values and Python's `==` on them.
- `json_diff.dfy` (`JsonDiff`):
  - `CompareJson`, a method with the loops of the source, proved against the ghost function `Differences`;
  - the laws of `compare_json`.
- `tokens.dfy` (`Tokens`): the token type, the lexer's character sets and classes, and `to_dict`.
- `token_output.dfy` (`TokenOutput`): the JSON array the driver writes for a token list, and what `compare_json` says about two of them.
- `scanning.dfy` (`Scanning`): the lexer as functions of the text and a cursor.
  - `NextStep` is one `next_token` call.
  - `ScanFrom` is the `tokenize` loop.
  - `Register` folds the symbol table over the tokens.
- `lexer.dfy` (`Lexing`): the class `Lexer`.
  - It has the fields `source`, `position` and `symbols`.
  - Its methods `NextToken`, `ScanWord`, `ScanNumber` and `Tokenize` keep the `while` loops of the source.
  - Each is proved against the `Scanning` functions.
- `scanning_laws.dfy` (`ScanningLaws`): what the lexer guarantees.
  - Lexemes and whitespace round-trip.
  - Every token has one of four shapes.
  - Runs are maximal.
  - Errors happen exactly at the illegal characters and the out-of-range numbers.
  - The symbol table keeps its invariants.
  - Printing the tokens with a space after each and lexing the result again gives the same tokens.
  - Concrete inputs are worked through.

Two lexer outcomes are modelled explicitly:

- A lexical error is a single outcome: `LexicalError` from `NextToken`, `Fail` from `NextStep`.
- For `tokenize`, an error makes the token list empty. The symbol table is returned as it stood at the error.

## Model

| member | source | states |
|---|---|---|
| Tokens.ToDict | Set-Algebra/Python/lexer.py:12-16 | the JSON object of a token has exactly the keys "token" and "lexeme" |
| Tokens.ToDictExposesKindAndLexeme | Set-Algebra/Python/lexer.py:16 | two tokens give the same dict iff their category and text agree; the value is not exposed |
| TokenOutput.ToJson | Set-Algebra/Python/lexer.py:12-16 | the output the driver writes for a token list (the list of to_dict results at line 60 of Startup Code/Python/main.py) is a JSON array with one entry per token; what compare_json makes of two of them is stated by TokenOutput.OutputsAgree |
| TokenOutput.DictsEqual | Set-Algebra/Python/lexer.py:16 | the dicts of two tokens are == iff their categories and texts agree |
| TokenOutput.OutputsAgree | Set-Algebra/Python/lexer.py:12-16 | compare_json finds no difference between the JSON of two token lists iff they have the same length and the same category and text at every index |
| Decimal.Value | Set-Algebra/Python/lexer.py:116 | the value int() gives a string of n digits is below 10^n |
| Decimal.LeadingDigitBound | Set-Algebra/Python/lexer.py:116-117 | a digit string not starting with 0 has value at least 10^(length-1) |
| Decimal.Render | Set-Algebra/Python/test_ans.py:69 | the text of an index is non-empty, all digits, has no leading zero, and reads back as the index |
| Json.Equal | Set-Algebra/Python/test_ans.py:72 | == relates dicts only to dicts, lists only to lists, and numeric values (bool counting as a number) only to numeric values; Json.EqualReflexive, Json.EqualSymmetric and JsonDiff.DifferencesEmptyIffEqual pin it down further |
| Json.EqualReflexive | Set-Algebra/Python/test_ans.py:72 | every JSON value is == to itself |
| Json.EqualSymmetric | Set-Algebra/Python/test_ans.py:72 | == on JSON values is symmetric |
| JsonDiff.Differences | Set-Algebra/Python/test_ans.py:50-75 | the differences compare_json reports, as a multiset: dicts by the key union, lists by length and then index, anything else by ==. JsonDiff.CompareJson is proved against it; DifferencesEmptyIffEqual, KindMismatchReported, ScalarsCompared, LengthMismatchReported and DifferencePaths state its laws |
| JsonDiff.KeyDifference | Set-Algebra/Python/test_ans.py:55-61 | what one key of the union contributes: a missing-key difference for the side that lacks it, else the differences of the two values at path -> key; stated by OneSidedKeyReported and CommonKeyCompared |
| JsonDiff.KeyDifferences | Set-Algebra/Python/test_ans.py:54-61 | the sum of KeyDifference over a set of keys; KeyDifferencesSplit makes it independent of the visiting order, KeyDifferencesCount counts it |
| JsonDiff.ItemDifferences | Set-Algebra/Python/test_ans.py:67-69 | the differences of the first n index pairs of two lists, each at path[i]; stated by ItemCompared and ItemDifferencesContain |
| JsonDiff.CompareJson | Set-Algebra/Python/test_ans.py:38-75 | the returned differences are, as a multiset, exactly `Differences` of the two values at the path (default "root") |
| JsonDiff.KeyDifferencesSplit | Set-Algebra/Python/test_ans.py:54 | the differences under a set of keys do not depend on the order in which the key union is visited |
| JsonDiff.DifferencesEmptyIffEqual | Set-Algebra/Python/test_ans.py:52-75 | compare_json reports nothing iff the two values are == |
| JsonDiff.CompareWithSelf | Set-Algebra/Python/test_ans.py:38-75 | comparing a value with itself reports nothing |
| JsonDiff.ComparisonSymmetric | Set-Algebra/Python/test_ans.py:52-75 | compare_json(a, b) is empty iff compare_json(b, a) is empty |
| JsonDiff.ObjectDifferenceCount | Set-Algebra/Python/test_ans.py:52-61 | two dicts give at least one difference per key present on one side only, and exactly that many iff every common key holds equal values |
| JsonDiff.OneSidedKeyReported | Set-Algebra/Python/test_ans.py:54-59 | a key on one side only gives exactly one difference, at path -> key, saying which side lacks it |
| JsonDiff.CommonKeyCompared | Set-Algebra/Python/test_ans.py:60-61 | a key on both sides contributes all differences of its two values, found at path -> key |
| JsonDiff.LengthMismatchReported | Set-Algebra/Python/test_ans.py:65-66 | lists of different lengths give exactly one difference, with both lengths, and no recursion |
| JsonDiff.ItemCompared | Set-Algebra/Python/test_ans.py:67-69 | lists of equal length contribute, for each index i, all differences of their i-th items, found at path[i] |
| JsonDiff.KindMismatchReported | Set-Algebra/Python/test_ans.py:71-73 | values of different kinds (dict, list, scalar) give exactly one difference at path |
| JsonDiff.ScalarsCompared | Set-Algebra/Python/test_ans.py:71-73 | two scalars give one difference when they are unequal and none when they are equal |
| JsonDiff.FollowKeepsPrefix | Set-Algebra/Python/test_ans.py:55 | extending a path by " -> key" and "[index]" steps keeps it as a prefix |
| JsonDiff.DifferencePaths | Set-Algebra/Python/test_ans.py:38-75 | every difference path is the initial path followed by " -> key" and "[index]" steps only |
| JsonDiff.DifferencePathsStartWithRoot | Set-Algebra/Python/test_ans.py:38 | every difference path starts with the initial path |
| Scanning.SkipWhitespace | Set-Algebra/Python/lexer.py:38-43 | the cursor after skipping stops at the first non-whitespace character or at the end, and everything skipped is whitespace |
| Scanning.WordEnd | Set-Algebra/Python/lexer.py:81-82 | the word run is all lower-case letters and stops before a character that is not one |
| Scanning.DigitsEnd | Set-Algebra/Python/lexer.py:110-111 | the digit run is all digits and stops before a non-digit |
| Scanning.NumberEnd | Set-Algebra/Python/lexer.py:104-111 | the number lexeme is all digits, and is longer than one character only if it does not start with 0 |
| Scanning.WordToken | Set-Algebra/Python/lexer.py:84-95 | a word run gives an error exactly when it is not alphabetic (the empty run included); otherwise a token with that text and no value, of category the keyword itself or "id" |
| Scanning.NumberToken | Set-Algebra/Python/lexer.py:112-122 | a token is produced only for a string of digits, with category "num", that text, and a value at most 4294967295 |
| Scanning.NextStep | Set-Algebra/Python/lexer.py:38-72 | a step that emits a token strictly advances the cursor and stays within the text, so scanning terminates |
| Scanning.ScanFrom | Set-Algebra/Python/lexer.py:130-141 | the tokens met from a cursor to the end or the first error, and whether an error stopped them; ScanningLaws.ScanConsumes, ScanningLaws.ScanWellFormed, ScanningLaws.ErrorsAreFinal and the Lexer methods pin it down |
| Scanning.Tokenized | Set-Algebra/Python/lexer.py:130-142 | the token list tokenize returns: all tokens, or none after an error; ScanningLaws.RoundTrip, ScanningLaws.IllegalCharacterFails and ScanningLaws.Relex state its contents |
| Scanning.Remember | Set-Algebra/Python/lexer.py:57-61 | meeting an identifier adds its lexeme to the table's keys, and nothing else is added; existing entries keep their values, the new entry is unresolved |
| Scanning.Register | Set-Algebra/Python/lexer.py:131-136 | after the tokens are met in order, every old entry is still there with its value, and every new entry is unresolved; ScanningLaws.RegisterContents gives the exact keys |
| Lexing.Lexer.constructor | Set-Algebra/Python/lexer.py:26-29 | a new lexer is at position 0 with an empty symbol table |
| Lexing.Lexer.NextToken | Set-Algebra/Python/lexer.py:31-72 | at end of input the result is the end marker and the cursor is at the end. A token moves the cursor to the step's end, returns the id's table entry or the number's value, and adds a new id to the table. An error leaves the table unchanged |
| Lexing.Lexer.ScanWord | Set-Algebra/Python/lexer.py:74-95 | the cursor moves to the end of the lower-case run, and the result is the keyword, the id, or an error for an empty run |
| Lexing.Lexer.ScanNumber | Set-Algebra/Python/lexer.py:97-122 | the cursor moves to the end of the number lexeme (a lone 0 before a digit) and the result is the number with its value, or an error when the value exceeds 4294967295 |
| Lexing.Lexer.Tokenize | Set-Algebra/Python/lexer.py:125-142 | the tokens are all tokens to the end, or none after an error. The returned table is the lexer's own table, extended by the identifiers met before the end or the error. When no error occurs the cursor ends at the end of the text |
| ScanningLaws.NumberLexemeLength | Set-Algebra/Python/lexer.py:115-122 | a number lexeme has at most ten digits |
| ScanningLaws.StepShape | Set-Algebra/Python/lexer.py:38-72 | an emitted token's lexeme is exactly the text between the skipped whitespace and the new cursor, and the token is a symbol, keyword, id or num of the right shape |
| ScanningLaws.SymbolStep | Set-Algebra/Python/lexer.py:46-51 | a punctuation or operator character, U and I included, becomes a one-character token whose category and text are that character |
| ScanningLaws.WordStep | Set-Algebra/Python/lexer.py:81-92 | a maximal run of lower-case letters becomes one token, of category equal to the run if it is a keyword and "id" otherwise |
| ScanningLaws.NumberStep | Set-Algebra/Python/lexer.py:104-122 | a 0 before a digit is the number 0 alone. Otherwise the maximal digit run is read; it fails iff its value exceeds 4294967295, and else is a num token carrying its value |
| ScanningLaws.StepFailure | Set-Algebra/Python/lexer.py:46-70 | a step fails iff the next non-whitespace character is outside the alphabet (other upper-case letters included) or starts a number above 4294967295 |
| ScanningLaws.CaselessLetterFails | Set-Algebra/Python/lexer.py:91-95 | a letter without case gives an empty lexeme and an error, not a loop |
| ScanningLaws.ScanWellFormed | Set-Algebra/Python/lexer.py:46-122 | every token scanned has one of the four shapes. Numbers carry the decimal value of their lexeme, lie in 0..4294967295 and have no leading zero |
| ScanningLaws.ScanConsumes | Set-Algebra/Python/lexer.py:38-72 | the lexemes scanned are a prefix of the text with its whitespace removed, and all of it iff no error occurs |
| ScanningLaws.RoundTrip | Set-Algebra/Python/lexer.py:125-142 | on success, the concatenated lexemes are the source with all spaces, tabs and newlines removed |
| ScanningLaws.FailureLeavesText | Set-Algebra/Python/lexer.py:125-142 | tokenize fails iff the lexemes scanned are a strict prefix of the stripped source |
| ScanningLaws.ScanLegal | Set-Algebra/Python/lexer.py:46-70 | a scan that succeeds has met only whitespace, symbols, lower-case letters and digits |
| ScanningLaws.IllegalCharacterFails | Set-Algebra/Python/lexer.py:46-70 | a character outside the alphabet anywhere in the source makes tokenize return no tokens |
| ScanningLaws.ErrorsAreFinal | Set-Algebra/Python/lexer.py:130-141 | the scan stops at the first error |
| ScanningLaws.RegisterContents | Set-Algebra/Python/lexer.py:57-62 | the table's keys become the old keys plus the id lexemes met. Old entries are never overwritten, and new entries have no type and no value |
| ScanningLaws.TokenizeTable | Set-Algebra/Python/lexer.py:125-142 | for a fresh lexer the returned table holds exactly the identifiers met, all unresolved |
| ScanningLaws.WellFormedStep | Set-Algebra/Python/lexer.py:46-122 | a well-formed token whose text stands at the cursor followed by a space is read back as exactly that token, the cursor moving to the space |
| ScanningLaws.ScanSpaced | Set-Algebra/Python/lexer.py:130-141 | a text made of well-formed lexemes, each followed by a space, scans without error to exactly those tokens |
| ScanningLaws.JoinRelexes | Set-Algebra/Python/lexer.py:125-142 | well-formed tokens printed with a space after each lex back to the same tokens, without error |
| ScanningLaws.Relex | Set-Algebra/Python/lexer.py:125-142 | for a source that lexes, printing its tokens with a space after each and lexing that again gives the same token list |
| ScanningLaws.JoinAddsBlanksOnly | Set-Algebra/Python/lexer.py:38-43 | the printed tokens differ from their concatenated lexemes only in whitespace |
| ScanningLaws.WholeNumber | Set-Algebra/Python/lexer.py:110-122 | a digit string without leading zero at the end of the text is one num token if at most 4294967295, an error otherwise |
| ScanningLaws.ZeroStep | Set-Algebra/Python/lexer.py:104-108 | a 0 followed by a digit is emitted alone as "0" with value 0 |
| ScanningLaws.LeadingZerosExample | Set-Algebra/Python/lexer.py:205 | "00912" gives 0, 0, 912 |
| ScanningLaws.MaxNumberExample | Set-Algebra/Python/lexer.py:204 | "4294967295" is one number token with value 4294967295 |
| ScanningLaws.TooLargeExample | Set-Algebra/Python/lexer.py:198 | "10000000000" is a lexical error and gives no tokens |
| ScanningLaws.JustTooLargeExample | Set-Algebra/Python/lexer.py:117 | "4294967296" is a lexical error and gives no tokens |
| ScanningLaws.MaximalMunchExample | Set-Algebra/Python/lexer.py:81-92 | "showx" is a single id, not the keyword show followed by x |

## Left out

- Python's Unicode behaviour of `isalpha`, `isupper`, `islower`, `isdigit` and `int()`.
  - Letters and digits are ASCII.
  - The CJK Unified Ideographs block (U+4E00..U+9FFF) stands for letters without case. These keep the empty-lexeme error of lines 91-95 reachable.
  - Every other non-ASCII character (a non-ASCII lower-case letter or digit included) is outside the alphabet and is an error. In Python some of them are also errors and some would be lexed.
- Lexing.Lexer.Tokenize: after an error the cursor is not stated. It stops where `NextToken` raised, and `NextToken` leaves that position open.
- Lexing.Lexer.NextToken: after an error only `old(position) <= position` is stated, not the exact cursor. The source raises an exception and the position is never used again.
- The wording of the error messages. The range error raised at lexer.py line 118 and re-raised as "Invalid number" at line 120 is one error outcome.
- The unreachable `else` branch at lexer.py lines 67-68 (a character that passed line 46 is a symbol, a letter or a digit). It has no counterpart in `NextToken`.
- The `print` calls at lexer.py lines 137 and 140, and both files' `__main__` blocks (console output and driver code).
- `compare_json_files` (test_ans.py lines 7-35): file opening, `json.load` and printing are I/O.
- `Set-Algebra/Others/test_case_generator.py`: it is driven by random choices and writes files.
- JsonDiff.CompareJson is proved only up to the order of its result.
  - It visits the key union in an arbitrary order (`:|`), as Python's set iteration order is unspecified.
  - Its result is therefore proved equal to `Differences` as a multiset, not as a list.
- The message text of each difference is modelled as a structured `Difference`, a path plus the kind of problem. How Python renders the values inside a message is left out.
- JSON numbers are real numbers, so NaN and floating-point rounding are not modelled.
- The parser, its tables and the type and evaluation passes are not part of this model.
- The docstring of `tokenize` (lexer.py line 127) promises an empty list on error, and the model follows the code instead.
  - The method returns the pair of the tokens and the symbol table (line 142).
  - After an error the token list is empty, but the table keeps the identifiers met before the error.
  - `Lexing.Lexer.Tokenize` states this behaviour.
