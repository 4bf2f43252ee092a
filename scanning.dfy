/** The lexer's behaviour as functions of the source text and a cursor: where
    each maximal run ends, what the next token is, the whole token list, and
    the symbol table built from the identifiers met. The class Lexer is proved
    against these definitions. */
module Scanning {
  import opened Tokens
  import Decimal

  /** The first position at or after i that is not whitespace. */
  function SkipWhitespace(s: string, i: nat): (j: nat)
    requires i <= |s|
    ensures i <= j <= |s|
    ensures forall k :: i <= k < j ==> s[k] in Whitespace
    ensures j < |s| ==> s[j] !in Whitespace
    decreases |s| - i
  {
    if i < |s| && s[i] in Whitespace then SkipWhitespace(s, i + 1) else i
  }

  /** The end of the maximal run of lower-case letters starting at i. */
  function WordEnd(s: string, i: nat): (j: nat)
    requires i <= |s|
    ensures i <= j <= |s|
    ensures forall k :: i <= k < j ==> IsLower(s[k])
    ensures j < |s| ==> !IsLower(s[j])
    decreases |s| - i
  {
    if i < |s| && IsAlpha(s[i]) && IsLower(s[i]) then WordEnd(s, i + 1) else i
  }

  /** The end of the maximal run of digits starting at i. */
  function DigitsEnd(s: string, i: nat): (j: nat)
    requires i <= |s|
    ensures i <= j <= |s|
    ensures Decimal.AllDigits(s[i..j])
    ensures j < |s| ==> !Decimal.IsDigit(s[j])
    decreases |s| - i
  {
    if i < |s| && Decimal.IsDigit(s[i]) then DigitsEnd(s, i + 1) else i
  }

  /** The end of the number lexeme starting at i: a '0' followed by a digit
      stands alone, otherwise the whole run of digits is taken. */
  function NumberEnd(s: string, i: nat): (j: nat)
    requires i < |s|
    ensures i <= j <= |s|
    ensures Decimal.AllDigits(s[i..j])
    ensures j > i + 1 ==> s[i] != '0'
  {
    if s[i] == '0' && i + 1 < |s| && Decimal.IsDigit(s[i + 1]) then i + 1 else DigitsEnd(s, i)
  }

  /** The token for a run of lower-case letters: a keyword, an identifier, or
      nothing (an error) when the run is empty. */
  function WordToken(w: string): (r: Option<Token>)
    ensures r.None? <==> !IsAlphaWord(w)
    ensures r.Some? ==> r.value.lexeme == w && r.value.value == None
    ensures r.Some? ==> r.value.kind == (if w in Keywords then w else IdKind)
  {
    if w in Keywords then Some(Token(w, w, None))
    else if IsAlphaWord(w) then Some(Token(IdKind, w, None))
    else None
  }

  /** The token for a string of digits, or nothing (an error) when int() fails
      on it or its value is out of range. */
  function NumberToken(w: string): (r: Option<Token>)
    ensures r.Some? ==> Decimal.AllDigits(w) && r.value.kind == NumKind && r.value.lexeme == w
    ensures r.Some? ==> r.value.value.Some? && r.value.value.value <= MaxNumber
  {
    if |w| > 0 && Decimal.AllDigits(w) && Decimal.Value(w) <= MaxNumber then
      Some(Token(NumKind, w, Some(Decimal.Value(w))))
    else None
  }

  /** What next_token does from cursor i: reach the end, emit a token and move the
      cursor to next, or fail. */
  datatype Step = End | Emit(token: Token, next: nat) | Fail

  function NextStep(s: string, i: nat): (r: Step)
    requires i <= |s|
    ensures r.Emit? ==> i < r.next <= |s|
  {
    var j := SkipWhitespace(s, i);
    if j == |s| then End
    else
      var c := s[j];
      if !(IsSymbol(c) || IsAlpha(c) || Decimal.IsDigit(c)) then Fail
      else if IsSymbol(c) then Emit(Token([c], [c], None), j + 1)
      else if IsUpper(c) then Fail
      else if IsAlpha(c) then
        var e := WordEnd(s, j);
        match WordToken(s[j..e])
        case Some(t) => Emit(t, e)
        case None => Fail
      else
        var e := NumberEnd(s, j);
        match NumberToken(s[j..e])
        case Some(t) => Emit(t, e)
        case None => Fail
  }

  /** The tokens met from cursor i on, up to the end or to the first error. */
  datatype Scan = Scan(tokens: seq<Token>, failed: bool)

  function ScanFrom(s: string, i: nat): Scan
    requires i <= |s|
    decreases |s| - i
  {
    match NextStep(s, i)
    case End => Scan([], false)
    case Fail => Scan([], true)
    case Emit(t, next) =>
      var rest := ScanFrom(s, next);
      Scan([t] + rest.tokens, rest.failed)
  }

  /** One step of the scan: the end, an error, or a token before the scan that follows it. */
  lemma ScanFromStep(s: string, i: nat)
    requires i <= |s|
    ensures match NextStep(s, i)
      case End => ScanFrom(s, i) == Scan([], false)
      case Fail => ScanFrom(s, i) == Scan([], true)
      case Emit(t, next) =>
        ScanFrom(s, i).tokens == [t] + ScanFrom(s, next).tokens && ScanFrom(s, i).failed == ScanFrom(s, next).failed
  {
  }

  /** What tokenize returns as its token list: every token, or none at all
      after an error. */
  function Tokenized(s: string): seq<Token> {
    var scan := ScanFrom(s, 0);
    if scan.failed then [] else scan.tokens
  }

  /** A symbol-table entry; the lexer leaves both the type and the value unset. */
  datatype Entry = Entry(declaredType: Option<string>, value: Option<string>)

  const Unresolved := Entry(None, None)

  type SymbolTable = map<string, Entry>

  /** The table after meeting token t: an identifier not yet present is added,
      unresolved; nothing that is present changes. */
  function Remember(table: SymbolTable, t: Token): (r: SymbolTable)
    ensures r.Keys == table.Keys + (if t.kind == IdKind then {t.lexeme} else {})
    ensures forall x | x in table :: r[x] == table[x]
    ensures forall x | x in r && x !in table :: r[x] == Unresolved
  {
    if t.kind == IdKind && t.lexeme !in table then table[t.lexeme := Unresolved] else table
  }

  /** The table after meeting the tokens in order. */
  function Register(table: SymbolTable, tokens: seq<Token>): (r: SymbolTable)
    ensures forall x | x in table :: x in r && r[x] == table[x]
    ensures forall x | x in r && x !in table :: r[x] == Unresolved
    decreases |tokens|
  {
    if tokens == [] then table
    else Remember(Register(table, tokens[..|tokens| - 1]), tokens[|tokens| - 1])
  }

  lemma RegisterSnoc(table: SymbolTable, tokens: seq<Token>, t: Token)
    ensures Register(table, tokens + [t]) == Remember(Register(table, tokens), t)
  {
    assert (tokens + [t])[..|tokens|] == tokens;
  }

  /** The lexemes of the identifiers among the tokens. */
  function Identifiers(tokens: seq<Token>): set<string> {
    set i | 0 <= i < |tokens| && tokens[i].kind == IdKind :: tokens[i].lexeme
  }

  /** The texts of the tokens, one after the other. */
  function Lexemes(tokens: seq<Token>): string
    decreases |tokens|
  {
    if tokens == [] then "" else tokens[0].lexeme + Lexemes(tokens[1..])
  }

  /** The text without its spaces, tabs and newlines. */
  function Strip(s: string): string
    decreases |s|
  {
    if s == [] then ""
    else (if s[0] in Whitespace then "" else [s[0]]) + Strip(s[1..])
  }
}
