/** The hand-written lexer: a cursor over the source text and a symbol table
    that the scanning methods update in place. */
module Lexing {
  import opened Tokens
  import opened Scanning
  import Decimal

  /** What next_token returns beside the token: the identifier's symbol-table
      entry, the number's value, or nothing. */
  datatype Info = NoInfo | SymbolInfo(entry: Entry) | NumberInfo(number: nat)

  /** The outcome of one next_token call: end of input, a token, or a lexical error. */
  datatype Scanned = Exhausted | Found(token: Token, info: Info) | LexicalError

  function InfoOf(t: Token, table: SymbolTable): Info {
    if t.kind == IdKind && t.lexeme in table then SymbolInfo(table[t.lexeme])
    else if t.kind == NumKind && t.value.Some? then NumberInfo(t.value.value)
    else NoInfo
  }

  /** A scan that stops at cursor i ends the whole scan there. */
  lemma ScanDone(s: string, i: nat, scanned: seq<Token>, whole: Scan)
    requires i <= |s| && !NextStep(s, i).Emit?
    requires whole.tokens == scanned + ScanFrom(s, i).tokens && whole.failed == ScanFrom(s, i).failed
    ensures whole == Scan(scanned, NextStep(s, i).Fail?)
  {
    ScanFromStep(s, i);
    assert scanned + [] == scanned;
  }

  /** A token emitted at cursor i moves from the rest of the scan to the tokens scanned. */
  lemma ScanAdvance(s: string, i: nat, scanned: seq<Token>, whole: Scan)
    requires i <= |s| && NextStep(s, i).Emit?
    requires whole.tokens == scanned + ScanFrom(s, i).tokens && whole.failed == ScanFrom(s, i).failed
    ensures var step := NextStep(s, i);
      && whole.tokens == scanned + [step.token] + ScanFrom(s, step.next).tokens
      && whole.failed == ScanFrom(s, step.next).failed
  {
    ScanFromStep(s, i);
  }

  class Lexer {
    const source: string
    var position: nat
    var symbols: SymbolTable

    ghost predicate Valid()
      reads this
    {
      position <= |source|
    }

    constructor (source: string)
      ensures Valid()
      ensures this.source == source && position == 0 && symbols == map[]
    {
      this.source := source;
      position := 0;
      symbols := map[];
    }

    /** next_token: skip whitespace, then read one token. */
    method NextToken() returns (r: Scanned)
      requires Valid()
      modifies this
      ensures Valid()
      ensures match NextStep(source, old(position))
        case End => r == Exhausted && position == |source| && symbols == old(symbols)
        case Emit(t, next) =>
          && r == Found(t, InfoOf(t, symbols))
          && position == next
          && symbols == Remember(old(symbols), t)
        case Fail => r == LexicalError && symbols == old(symbols) && old(position) <= position
    {
      while position < |source|
        invariant old(position) <= position <= |source|
        invariant SkipWhitespace(source, old(position)) == SkipWhitespace(source, position)
        invariant symbols == old(symbols)
      {
        var c := source[position];
        if c in Whitespace {
          position := position + 1;
          continue;
        }
        if IsSymbol(c) || IsAlpha(c) || Decimal.IsDigit(c) {
          if IsSymbol(c) {
            r := Found(Token([c], [c], None), NoInfo);
            position := position + 1;
            return;
          }
          if IsUpper(c) {
            r := LexicalError;
            return;
          }
          if IsAlpha(c) {
            var word := ScanWord();
            if word.None? {
              r := LexicalError;
              return;
            }
            var t := word.value;
            if t.kind == IdKind {
              if t.lexeme !in symbols {
                symbols := symbols[t.lexeme := Unresolved];
              }
              r := Found(t, SymbolInfo(symbols[t.lexeme]));
              return;
            }
            r := Found(t, NoInfo);
            return;
          } else {
            // c is a digit
            var number := ScanNumber();
            if number.None? {
              r := LexicalError;
              return;
            }
            var t := number.value;
            r := Found(t, InfoOf(t, symbols));
            return;
          }
        } else {
          r := LexicalError;
          return;
        }
      }
      r := Exhausted;
    }

    /** _process_identifier_or_keyword: read the run of lower-case letters at the
        cursor and classify it. */
    method ScanWord() returns (t: Option<Token>)
      requires Valid()
      modifies this`position
      ensures Valid()
      ensures position == WordEnd(source, old(position))
      ensures t == WordToken(source[old(position)..position])
    {
      var start := position;
      while position < |source| && IsAlpha(source[position]) && IsLower(source[position])
        invariant start <= position <= |source|
        invariant WordEnd(source, start) == WordEnd(source, position)
      {
        position := position + 1;
      }
      var lexeme := source[start..position];
      if lexeme in Keywords {
        t := Some(Token(lexeme, lexeme, None));
      } else if IsAlphaWord(lexeme) {
        t := Some(Token(IdKind, lexeme, None));
      } else {
        t := None;
      }
    }

    /** _process_number: read the number at the cursor, splitting off a leading
        zero, and check its range. */
    method ScanNumber() returns (t: Option<Token>)
      requires Valid() && position < |source|
      modifies this`position
      ensures Valid()
      ensures position == NumberEnd(source, old(position))
      ensures t == NumberToken(source[old(position)..position])
    {
      var start := position;
      if source[position] == '0' {
        position := position + 1;
        if position < |source| && Decimal.IsDigit(source[position]) {
          assert source[start..position] == "0";
          t := Some(Token(NumKind, "0", Some(0)));
          return;
        }
      }
      while position < |source| && Decimal.IsDigit(source[position])
        invariant start <= position <= |source|
        invariant DigitsEnd(source, start) == DigitsEnd(source, position)
      {
        position := position + 1;
      }
      var lexeme := source[start..position];
      if |lexeme| > 0 && Decimal.Value(lexeme) <= MaxNumber {
        t := Some(Token(NumKind, lexeme, Some(Decimal.Value(lexeme))));
      } else {
        t := None;
      }
    }

    /** tokenize: every token up to the end of input, or no tokens at all after
        a lexical error; the symbol table is returned as it stands, holding the
        identifiers met before the error. */
    method Tokenize() returns (tokens: seq<Token>, table: SymbolTable)
      requires Valid()
      modifies this
      ensures Valid()
      ensures tokens == (if ScanFrom(source, old(position)).failed then [] else ScanFrom(source, old(position)).tokens)
      ensures table == symbols
      ensures symbols == Register(old(symbols), ScanFrom(source, old(position)).tokens)
      ensures !ScanFrom(source, old(position)).failed ==> position == |source|
    {
      ghost var whole := ScanFrom(source, position);
      var scanned: seq<Token> := [];
      var failed := false;
      while true
        invariant Valid()
        invariant whole.tokens == scanned + ScanFrom(source, position).tokens
        invariant whole.failed == ScanFrom(source, position).failed
        invariant symbols == Register(old(symbols), scanned)
        decreases |source| - position
      {
        ghost var from := position;
        var r := NextToken();
        if r.Exhausted? {
          ScanDone(source, from, scanned, whole);
          break;
        }
        if r.LexicalError? {
          ScanDone(source, from, scanned, whole);
          failed := true;
          break;
        }
        ScanAdvance(source, from, scanned, whole);
        RegisterSnoc(old(symbols), scanned, r.token);
        scanned := scanned + [r.token];
      }
      assert failed == whole.failed;
      tokens := if failed then [] else scanned;
      table := symbols;
    }
  }
}
