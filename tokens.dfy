/** The tokens of the set-algebra language, the lexer's fixed character sets, and
    the character classes the lexer tests with Python's str.isalpha, isupper,
    islower and isdigit. */
module Tokens {
  import Json
  import Decimal

  datatype Option<T> = None | Some(value: T)

  /** A token: its category ("id", "num", a keyword, or the character itself for
      punctuation and operators), its text, and for numbers the decimal value. */
  datatype Token = Token(kind: string, lexeme: string, value: Option<nat>)

  const Keywords: set<string> := {"let", "be", "show", "int", "set", "simplify"}
  const Punctuations: set<char> := {'.', '(', ')', '{', '}', ':'}
  const Operators: set<char> := {'+', '-', '*', '@', '<', '>', '=', '&', '|', '!', 'U', 'I'}
  const Whitespace: set<char> := {' ', '\n', '\t'}

  /** The largest number literal: 2^32 - 1. */
  const MaxNumber: nat := 4294967295

  const IdKind := "id"
  const NumKind := "num"

  predicate IsLower(c: char) {
    'a' <= c <= 'z'
  }

  predicate IsUpper(c: char) {
    'A' <= c <= 'Z'
  }

  /** Letters that have no case (Python's isalpha holds, isupper and islower do
      not); the CJK Unified Ideographs block stands for them here. */
  predicate IsCaseless(c: char) {
    '\U{4E00}' <= c <= '\U{9FFF}'
  }

  predicate IsAlpha(c: char) {
    IsLower(c) || IsUpper(c) || IsCaseless(c)
  }

  /** Python's str.isalpha on a whole string: non-empty and all letters. */
  predicate IsAlphaWord(w: string) {
    |w| > 0 && forall k :: 0 <= k < |w| ==> IsAlpha(w[k])
  }

  predicate IsLowerWord(w: string) {
    |w| > 0 && forall k :: 0 <= k < |w| ==> IsLower(w[k])
  }

  /** A single-character token: punctuation or operator, U and I included. */
  predicate IsSymbol(c: char) {
    c in Punctuations || c in Operators
  }

  /** The characters that may appear outside whitespace in a program that lexes. */
  predicate IsLegal(c: char) {
    c in Whitespace || IsSymbol(c) || IsLower(c) || Decimal.IsDigit(c)
  }

  /** Token.to_dict: the JSON object written for a token, with its category and
      its text; the numeric value is not written. */
  function ToDict(t: Token): (j: Json.Value)
    ensures j.Object? && j.fields.Keys == {"token", "lexeme"}
  {
    Json.Object(map["token" := Json.String(t.kind), "lexeme" := Json.String(t.lexeme)])
  }

  /** Two tokens have the same to_dict exactly when their categories and texts agree. */
  lemma ToDictExposesKindAndLexeme(t1: Token, t2: Token)
    ensures ToDict(t1) == ToDict(t2) <==> t1.kind == t2.kind && t1.lexeme == t2.lexeme
  {
    if ToDict(t1) == ToDict(t2) {
      assert ToDict(t1).fields["token"] == ToDict(t2).fields["token"];
      assert ToDict(t1).fields["lexeme"] == ToDict(t2).fields["lexeme"];
    }
  }
}
