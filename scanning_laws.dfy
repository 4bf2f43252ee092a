/** What the lexer guarantees: every character outside whitespace is consumed by
    exactly one token, every token has one of four shapes, runs are maximal,
    errors are exactly the illegal characters and the out-of-range numbers, and
    the symbol table holds exactly the identifiers met, each entered once. */
module ScanningLaws {
  import opened Tokens
  import opened Scanning
  import Decimal

  // ---------------------------------------------------------------------------
  // The four shapes of a token

  /** A punctuation or operator character, standing for itself. */
  predicate IsSymbolToken(t: Token) {
    |t.lexeme| == 1 && IsSymbol(t.lexeme[0]) && t.kind == t.lexeme && t.value == None
  }

  /** A keyword, whose category is its own text. */
  predicate IsKeywordToken(t: Token) {
    t.lexeme in Keywords && t.kind == t.lexeme && t.value == None
  }

  /** An identifier: lower-case letters that do not form a keyword. */
  predicate IsIdToken(t: Token) {
    t.kind == IdKind && IsLowerWord(t.lexeme) && t.lexeme !in Keywords && t.value == None
  }

  /** A number: digits, no leading zero unless it is "0" itself, carrying its
      decimal value, which lies in 0..4294967295. */
  predicate IsNumToken(t: Token) {
    && t.kind == NumKind
    && |t.lexeme| > 0
    && Decimal.AllDigits(t.lexeme)
    && (|t.lexeme| > 1 ==> t.lexeme[0] != '0')
    && Decimal.Value(t.lexeme) <= MaxNumber
    && t.value == Some(Decimal.Value(t.lexeme))
  }

  predicate WellFormed(t: Token) {
    IsSymbolToken(t) || IsKeywordToken(t) || IsIdToken(t) || IsNumToken(t)
  }

  /** The text of a well-formed token is made of legal characters other than whitespace. */
  lemma WellFormedText(t: Token)
    requires WellFormed(t)
    ensures forall k :: 0 <= k < |t.lexeme| ==> IsLegal(t.lexeme[k]) && t.lexeme[k] !in Whitespace
  {
    if IsKeywordToken(t) {
      assert IsLowerWord(t.lexeme);
    }
  }

  /** A number lexeme has at most ten digits. */
  lemma NumberLexemeLength(t: Token)
    requires IsNumToken(t)
    ensures |t.lexeme| <= 10
  {
    if |t.lexeme| > 10 {
      Decimal.LeadingDigitBound(t.lexeme);
      Pow10Grows(10, |t.lexeme| - 1);
    }
  }

  lemma {:induction false} Pow10Grows(m: nat, n: nat)
    requires m <= n
    ensures Decimal.Pow10(m) <= Decimal.Pow10(n)
    decreases n
  {
    if m < n {
      Pow10Grows(m, n - 1);
    }
  }

  // ---------------------------------------------------------------------------
  // One step

  /** A step that emits a token takes the text between the skipped whitespace
      and the new cursor as its lexeme, and the token is well formed. */
  lemma StepShape(s: string, i: nat)
    requires i <= |s| && NextStep(s, i).Emit?
    ensures var j := SkipWhitespace(s, i);
      var step := NextStep(s, i);
      j < step.next && step.token.lexeme == s[j..step.next] && WellFormed(step.token)
  {
    var j := SkipWhitespace(s, i);
    var c := s[j];
    if IsSymbol(c) {
      assert s[j..j + 1] == [c];
    } else if IsLower(c) {
      var e := WordEnd(s, j);
      assert IsLowerWord(s[j..e]);
    } else {
      var e := NumberEnd(s, j);
      assert Decimal.AllDigits(s[j..e]);
    }
  }

  /** A punctuation or operator character is a one-character token of its own. */
  lemma SymbolStep(s: string, i: nat)
    requires i <= |s|
    requires SkipWhitespace(s, i) < |s| && IsSymbol(s[SkipWhitespace(s, i)])
    ensures var j := SkipWhitespace(s, i);
      NextStep(s, i) == Emit(Token([s[j]], [s[j]], None), j + 1)
  {
  }

  /** A run of lower-case letters is read whole, and is a keyword token when it
      is a keyword and an identifier token otherwise. */
  lemma WordStep(s: string, i: nat)
    requires i <= |s|
    requires SkipWhitespace(s, i) < |s| && IsLower(s[SkipWhitespace(s, i)])
    ensures var j := SkipWhitespace(s, i);
      var e := WordEnd(s, j);
      var w := s[j..e];
      && (e == |s| || !IsLower(s[e]))
      && NextStep(s, i) == Emit(Token(if w in Keywords then w else IdKind, w, None), e)
  {
    var j := SkipWhitespace(s, i);
    var e := WordEnd(s, j);
    assert IsAlphaWord(s[j..e]);
  }

  /** A run of digits is read whole, except that a '0' followed by a digit is
      a number token of its own with value 0. */
  lemma NumberStep(s: string, i: nat)
    requires i <= |s|
    requires SkipWhitespace(s, i) < |s| && Decimal.IsDigit(s[SkipWhitespace(s, i)])
    ensures var j := SkipWhitespace(s, i);
      var step := NextStep(s, i);
      if s[j] == '0' && j + 1 < |s| && Decimal.IsDigit(s[j + 1]) then
        step == Emit(Token(NumKind, "0", Some(0)), j + 1)
      else
        var e := DigitsEnd(s, j);
        && (e == |s| || !Decimal.IsDigit(s[e]))
        && (step.Fail? <==> Decimal.Value(s[j..e]) > MaxNumber)
        && (step.Emit? ==> step == Emit(Token(NumKind, s[j..e], Some(Decimal.Value(s[j..e]))), e))
  {
    var j := SkipWhitespace(s, i);
    if s[j] == '0' && j + 1 < |s| && Decimal.IsDigit(s[j + 1]) {
      assert s[j..j + 1] == "0";
    }
  }

  /** A step fails exactly when the first character after the whitespace is
      outside the alphabet (an upper-case letter other than U and I included),
      or starts a number whose value exceeds 4294967295. */
  lemma StepFailure(s: string, i: nat)
    requires i <= |s|
    ensures var j := SkipWhitespace(s, i);
      NextStep(s, i).Fail?
      <==> j < |s| && (!IsLegal(s[j]) || (Decimal.IsDigit(s[j]) && Decimal.Value(s[j..NumberEnd(s, j)]) > MaxNumber))
  {
    var j := SkipWhitespace(s, i);
    if j < |s| {
      var c := s[j];
      if IsLower(c) {
        assert IsAlphaWord(s[j..WordEnd(s, j)]);
      } else if IsCaseless(c) {
        assert WordEnd(s, j) == j;
        assert s[j..j] == "";
      }
    }
  }

  /** A letter without case stops the run of lower-case letters at once: the
      lexeme is empty and the step fails, the cursor does not stay in place. */
  lemma CaselessLetterFails(s: string, i: nat)
    requires i <= |s|
    requires SkipWhitespace(s, i) < |s| && IsCaseless(s[SkipWhitespace(s, i)])
    ensures var j := SkipWhitespace(s, i);
      WordEnd(s, j) == j && WordToken(s[j..j]) == None && NextStep(s, i) == Fail
  {
    var j := SkipWhitespace(s, i);
    assert s[j..j] == "";
  }

  // ---------------------------------------------------------------------------
  // The whole scan

  /** Every token of a scan is well formed. */
  lemma {:induction false} ScanWellFormed(s: string, i: nat)
    requires i <= |s|
    ensures forall t | t in ScanFrom(s, i).tokens :: WellFormed(t)
    decreases |s| - i
  {
    var step := NextStep(s, i);
    if step.Emit? {
      StepShape(s, i);
      ScanWellFormed(s, step.next);
    }
  }

  lemma {:induction false} StripAppend(a: string, b: string)
    ensures Strip(a + b) == Strip(a) + Strip(b)
    decreases |a|
  {
    if a != [] {
      assert (a + b)[1..] == a[1..] + b;
      StripAppend(a[1..], b);
    } else {
      assert a + b == b;
    }
  }

  lemma {:induction false} StripBlank(s: string)
    requires forall k :: 0 <= k < |s| ==> s[k] in Whitespace
    ensures Strip(s) == ""
    decreases |s|
  {
    if s != [] {
      StripBlank(s[1..]);
    }
  }

  lemma {:induction false} StripSolid(s: string)
    requires forall k :: 0 <= k < |s| ==> s[k] !in Whitespace
    ensures Strip(s) == s
    decreases |s|
  {
    if s != [] {
      StripSolid(s[1..]);
      assert s == [s[0]] + s[1..];
    }
  }

  /** A step that emits a token consumes the token's text and whitespace only. */
  lemma StepConsumes(s: string, i: nat)
    requires i <= |s| && NextStep(s, i).Emit?
    ensures Strip(s[i..]) == NextStep(s, i).token.lexeme + Strip(s[NextStep(s, i).next..])
  {
    var step := NextStep(s, i);
    StepShape(s, i);
    WellFormedText(step.token);
    StripAcross(s, i, SkipWhitespace(s, i), step.next);
  }

  /** Blanks from i to j, then text without blanks from j to n. */
  lemma StripAcross(s: string, i: nat, j: nat, n: nat)
    requires i <= j <= n <= |s|
    requires forall k :: i <= k < j ==> s[k] in Whitespace
    requires forall k :: 0 <= k < n - j ==> s[j..n][k] !in Whitespace
    ensures Strip(s[i..]) == s[j..n] + Strip(s[n..])
  {
    var blank, word, rest := s[i..j], s[j..n], s[n..];
    assert s[i..] == blank + (word + rest);
    StripAppend(blank, word + rest);
    StripAppend(word, rest);
    StripBlank(blank);
    StripSolid(word);
  }

  /** The texts of the tokens scanned from i are the start of the text from i
      with its whitespace removed, and all of it exactly when no error occurred. */
  lemma {:induction false} ScanConsumes(s: string, i: nat)
    requires i <= |s|
    ensures Lexemes(ScanFrom(s, i).tokens) <= Strip(s[i..])
    ensures !ScanFrom(s, i).failed <==> Lexemes(ScanFrom(s, i).tokens) == Strip(s[i..])
    decreases |s| - i
  {
    var j := SkipWhitespace(s, i);
    var step := NextStep(s, i);
    match step
    case End =>
      StripBlank(s[i..]);
    case Fail =>
      StripAcross(s, i, j, j + 1);
    case Emit(t, next) =>
      StepConsumes(s, i);
      ScanConsumes(s, next);
      var rest := ScanFrom(s, next).tokens;
      assert ([t] + rest)[1..] == rest;
  }

  /** Round trip: on success, the lexemes of all tokens, one after the other,
      give back the source without its spaces, tabs and newlines. */
  lemma RoundTrip(s: string)
    requires !ScanFrom(s, 0).failed
    ensures Lexemes(Tokenized(s)) == Strip(s)
  {
    ScanConsumes(s, 0);
    assert s[0..] == s;
  }

  /** A scan fails exactly when it does not consume all the text outside whitespace. */
  lemma FailureLeavesText(s: string)
    ensures ScanFrom(s, 0).failed <==> Lexemes(ScanFrom(s, 0).tokens) < Strip(s)
  {
    ScanConsumes(s, 0);
    assert s[0..] == s;
  }

  /** A step that emits a token has met only legal characters. */
  lemma StepLegal(s: string, i: nat)
    requires i <= |s| && NextStep(s, i).Emit?
    ensures forall k :: i <= k < NextStep(s, i).next ==> IsLegal(s[k])
  {
    var j := SkipWhitespace(s, i);
    var step := NextStep(s, i);
    StepShape(s, i);
    WellFormedText(step.token);
    forall k | j <= k < step.next ensures IsLegal(s[k]) {
      assert s[k] == step.token.lexeme[k - j];
    }
  }

  /** A scan that succeeds from i has met only legal characters from i on. */
  lemma {:induction false} ScanLegal(s: string, i: nat)
    requires i <= |s| && !ScanFrom(s, i).failed
    ensures forall k :: i <= k < |s| ==> IsLegal(s[k])
    decreases |s| - i
  {
    ScanFromStep(s, i);
    var step := NextStep(s, i);
    if step.Emit? {
      StepLegal(s, i);
      ScanLegal(s, step.next);
    }
  }

  /** A character outside the alphabet anywhere in the source (an upper-case
      letter other than U and I, a non-ASCII character, ...) makes tokenize fail. */
  lemma IllegalCharacterFails(s: string, k: nat)
    requires k < |s| && !IsLegal(s[k])
    ensures ScanFrom(s, 0).failed && Tokenized(s) == []
  {
    if !ScanFrom(s, 0).failed {
      ScanLegal(s, 0);
    }
  }

  /** The scan stops at the first error: there is no token after it. */
  lemma ErrorsAreFinal(s: string, i: nat)
    requires i <= |s| && NextStep(s, i).Fail?
    ensures ScanFrom(s, i) == Scan([], true)
  {
  }

  // ---------------------------------------------------------------------------
  // The symbol table

  lemma {:induction false} IdentifiersSnoc(tokens: seq<Token>, t: Token)
    ensures Identifiers(tokens + [t]) == Identifiers(tokens) + (if t.kind == IdKind then {t.lexeme} else {})
  {
    var all := tokens + [t];
    forall x | x in Identifiers(all)
      ensures x in Identifiers(tokens) + (if t.kind == IdKind then {t.lexeme} else {})
    {
      var i :| 0 <= i < |all| && all[i].kind == IdKind && all[i].lexeme == x;
      if i < |tokens| {
        assert tokens[i] == all[i];
      }
    }
    forall x | x in Identifiers(tokens) ensures x in Identifiers(all) {
      var i :| 0 <= i < |tokens| && tokens[i].kind == IdKind && tokens[i].lexeme == x;
      assert all[i] == tokens[i];
    }
    if t.kind == IdKind {
      assert all[|tokens|] == t;
    }
  }

  /** The table after meeting some tokens has as keys the old keys and the
      identifiers met; old entries are not overwritten, and new entries are
      unresolved. */
  lemma {:induction false} RegisterContents(table: SymbolTable, tokens: seq<Token>)
    ensures Register(table, tokens).Keys == table.Keys + Identifiers(tokens)
    ensures forall k :: k in table ==> Register(table, tokens)[k] == table[k]
    ensures forall k :: k in Register(table, tokens) && k !in table ==> Register(table, tokens)[k] == Unresolved
    decreases |tokens|
  {
    if tokens != [] {
      var prefix := tokens[..|tokens| - 1];
      var last := tokens[|tokens| - 1];
      assert prefix + [last] == tokens;
      RegisterContents(table, prefix);
      IdentifiersSnoc(prefix, last);
    }
  }

  /** The table that tokenize returns for a fresh lexer holds exactly the
      identifiers met before the end or the first error, all unresolved. */
  lemma TokenizeTable(s: string)
    ensures var table := Register(map[], ScanFrom(s, 0).tokens);
      && table.Keys == Identifiers(ScanFrom(s, 0).tokens)
      && forall k :: k in table ==> table[k] == Unresolved
  {
    RegisterContents(map[], ScanFrom(s, 0).tokens);
  }

  // ---------------------------------------------------------------------------
  // Printing the tokens back and lexing them again

  /** The lexemes with one space after each. */
  function Join(tokens: seq<Token>): string
    decreases |tokens|
  {
    if tokens == [] then "" else tokens[0].lexeme + " " + Join(tokens[1..])
  }

  lemma {:induction false} WordRunTo(s: string, i: nat, e: nat)
    requires i <= e <= |s|
    requires forall k :: i <= k < e ==> IsLower(s[k])
    requires e == |s| || !IsLower(s[e])
    ensures WordEnd(s, i) == e
    decreases e - i
  {
    if i < e {
      WordRunTo(s, i + 1, e);
    }
  }

  lemma {:induction false} DigitsRunTo(s: string, i: nat, e: nat)
    requires i <= e <= |s|
    requires forall k :: i <= k < e ==> Decimal.IsDigit(s[k])
    requires e == |s| || !Decimal.IsDigit(s[e])
    ensures DigitsEnd(s, i) == e
    decreases e - i
  {
    if i < e {
      DigitsRunTo(s, i + 1, e);
    }
  }

  /** The text w stands in s at position p, followed by a space. */
  predicate SpacedAt(s: string, p: nat, w: string) {
    p + |w| < |s| && s[p + |w|] == ' ' && forall k :: 0 <= k < |w| ==> s[p + k] == w[k]
  }

  lemma SpacedAtSlice(s: string, p: nat, w: string)
    requires p + |w| < |s| && s[p..p + |w|] == w && s[p + |w|] == ' '
    ensures SpacedAt(s, p, w)
  {
    forall k | 0 <= k < |w| ensures s[p + k] == w[k] {
      assert s[p..p + |w|][k] == s[p + k];
    }
  }

  lemma SpacedAtSlices(s: string, p: nat, w: string)
    requires SpacedAt(s, p, w)
    ensures s[p..p + |w|] == w
  {
  }

  lemma WordTokenStep(s: string, p: nat, t: Token)
    requires IsKeywordToken(t) || IsIdToken(t)
    requires SpacedAt(s, p, t.lexeme)
    ensures NextStep(s, p) == Emit(t, p + |t.lexeme|)
  {
    var w := t.lexeme;
    var e := p + |w|;
    assert IsLowerWord(w);
    forall k | p <= k < e ensures IsLower(s[k]) {
      assert s[p + (k - p)] == w[k - p];
    }
    assert SkipWhitespace(s, p) == p;
    WordRunTo(s, p, e);
    SpacedAtSlices(s, p, w);
    WordStep(s, p);
  }

  lemma NumTokenStep(s: string, p: nat, t: Token)
    requires IsNumToken(t)
    requires SpacedAt(s, p, t.lexeme)
    ensures NextStep(s, p) == Emit(t, p + |t.lexeme|)
  {
    var w := t.lexeme;
    var e := p + |w|;
    forall k | p <= k < e ensures Decimal.IsDigit(s[k]) {
      assert s[p + (k - p)] == w[k - p];
    }
    assert SkipWhitespace(s, p) == p;
    DigitsRunTo(s, p, e);
    SpacedAtSlices(s, p, w);
    assert !(s[p] == '0' && p + 1 < |s| && Decimal.IsDigit(s[p + 1])) by {
      if |w| == 1 {
        assert s[p + 1] == ' ';
      }
    }
    NumberStep(s, p);
  }

  /** A well-formed token followed by a space is read back as that token. */
  lemma WellFormedStep(s: string, p: nat, t: Token)
    requires WellFormed(t)
    requires SpacedAt(s, p, t.lexeme)
    ensures NextStep(s, p) == Emit(t, p + |t.lexeme|)
  {
    if IsSymbolToken(t) {
      assert s[p] == t.lexeme[0];
      SymbolStep(s, p);
    } else if IsNumToken(t) {
      NumTokenStep(s, p, t);
    } else {
      WordTokenStep(s, p, t);
    }
  }

  /** A blank in front of the cursor changes nothing in the scan. */
  lemma ScanSkipsBlank(s: string, q: nat)
    requires q < |s| && s[q] in Whitespace
    ensures ScanFrom(s, q) == ScanFrom(s, q + 1)
  {
    assert SkipWhitespace(s, q) == SkipWhitespace(s, q + 1);
    assert NextStep(s, q) == NextStep(s, q + 1);
  }

  lemma SpacedPrefix(s: string, p: nat, w: string, rest: string)
    requires p <= |s| && s[p..] == w + " " + rest
    ensures SpacedAt(s, p, w) && s[p + |w| + 1..] == rest
  {
    forall k | 0 <= k < |w| ensures s[p + k] == w[k] {
      assert s[p..][k] == s[p + k];
    }
    assert s[p..][|w|] == ' ';
    assert s[p..][|w| + 1..] == rest;
  }

  /** The scan from a well-formed token followed by a space is that token
      and the scan after the space. */
  lemma SpacedScan(s: string, p: nat, t: Token)
    requires WellFormed(t) && SpacedAt(s, p, t.lexeme)
    ensures var rest := ScanFrom(s, p + |t.lexeme| + 1);
      ScanFrom(s, p) == Scan([t] + rest.tokens, rest.failed)
  {
    var q := p + |t.lexeme|;
    WellFormedStep(s, p, t);
    ScanSkipsBlank(s, q);
  }

  /** From position p on, s is the lexemes of the tokens, each followed by a space. */
  predicate SpacedFrom(s: string, p: nat, tokens: seq<Token>)
    decreases |tokens|
  {
    if tokens == [] then p == |s|
    else SpacedAt(s, p, tokens[0].lexeme) && SpacedFrom(s, p + |tokens[0].lexeme| + 1, tokens[1..])
  }

  lemma {:induction false} JoinSpaced(s: string, p: nat, tokens: seq<Token>)
    requires p <= |s| && s[p..] == Join(tokens)
    ensures SpacedFrom(s, p, tokens)
    decreases |tokens|
  {
    if tokens != [] {
      var w := tokens[0].lexeme;
      SpacedPrefix(s, p, w, Join(tokens[1..]));
      JoinSpaced(s, p + |w| + 1, tokens[1..]);
    }
  }

  lemma ScanAtEnd(s: string, p: nat)
    requires p == |s|
    ensures ScanFrom(s, p) == Scan([], false)
  {
    assert NextStep(s, p) == End;
  }

  lemma ScanSpacedCons(s: string, p: nat, t: Token, rest: seq<Token>)
    requires WellFormed(t) && SpacedAt(s, p, t.lexeme)
    requires ScanFrom(s, p + |t.lexeme| + 1) == Scan(rest, false)
    ensures ScanFrom(s, p) == Scan([t] + rest, false)
  {
    SpacedScan(s, p, t);
  }

  lemma {:induction false} ScanSpaced(s: string, p: nat, tokens: seq<Token>)
    requires SpacedFrom(s, p, tokens)
    requires forall t | t in tokens :: WellFormed(t)
    ensures p <= |s| && ScanFrom(s, p) == Scan(tokens, false)
    decreases |tokens|
  {
    if tokens == [] {
      ScanAtEnd(s, p);
    } else {
      var t, rest := tokens[0], tokens[1..];
      ScanSpaced(s, p + |t.lexeme| + 1, rest);
      ScanSpacedCons(s, p, t, rest);
      assert [t] + rest == tokens;
    }
  }

  /** Well-formed tokens printed with a space after each are lexed back into
      the same tokens, without error. */
  lemma JoinRelexes(tokens: seq<Token>)
    requires forall t | t in tokens :: WellFormed(t)
    ensures ScanFrom(Join(tokens), 0) == Scan(tokens, false)
  {
    assert Join(tokens)[0..] == Join(tokens);
    JoinSpaced(Join(tokens), 0, tokens);
    ScanSpaced(Join(tokens), 0, tokens);
  }

  /** Re-lexing the printed tokens of a source that lexes gives the same tokens. */
  lemma Relex(s: string)
    requires !ScanFrom(s, 0).failed
    ensures Tokenized(Join(Tokenized(s))) == Tokenized(s)
  {
    ScanWellFormed(s, 0);
    JoinRelexes(ScanFrom(s, 0).tokens);
  }

  lemma StripSpaced(w: string, rest: string)
    requires forall k :: 0 <= k < |w| ==> w[k] !in Whitespace
    ensures Strip(w + " " + rest) == w + Strip(rest)
  {
    var blank := " ";
    StripBlank(blank);
    StripSolid(w);
    StripAppend(w, blank);
    assert w + "" == w;
    assert Strip(w + blank) == w;
    StripAppend(w + blank, rest);
  }

  /** Printing the tokens adds only whitespace: stripped, it is their lexemes. */
  lemma {:induction false} JoinAddsBlanksOnly(tokens: seq<Token>)
    requires forall t | t in tokens :: WellFormed(t)
    ensures Strip(Join(tokens)) == Lexemes(tokens)
    decreases |tokens|
  {
    if tokens != [] {
      var t := tokens[0];
      WellFormedText(t);
      JoinAddsBlanksOnly(tokens[1..]);
      StripSpaced(t.lexeme, Join(tokens[1..]));
    }
  }

  // ---------------------------------------------------------------------------
  // Examples

  lemma ValueSnoc(s: string, c: char)
    requires Decimal.AllDigits(s) && Decimal.IsDigit(c)
    ensures Decimal.AllDigits(s + [c]) && Decimal.Value(s + [c]) == 10 * Decimal.Value(s) + Decimal.DigitValue(c)
  {
    assert (s + [c])[..|s|] == s;
  }

  lemma {:induction false} DigitsToEnd(s: string, i: nat)
    requires i <= |s| && forall k :: i <= k < |s| ==> Decimal.IsDigit(s[k])
    ensures DigitsEnd(s, i) == |s|
    decreases |s| - i
  {
    if i < |s| {
      DigitsToEnd(s, i + 1);
    }
  }

  /** Digits to the end of the source, without a leading zero, are read as
      one number, or fail when its value exceeds 4294967295. */
  lemma WholeNumberStep(s: string, i: nat)
    requires i < |s| && Decimal.AllDigits(s[i..]) && (|s| > i + 1 ==> s[i] != '0')
    ensures NextStep(s, i)
         == if Decimal.Value(s[i..]) <= MaxNumber then Emit(Token(NumKind, s[i..], Some(Decimal.Value(s[i..]))), |s|)
            else Fail
  {
    var w := s[i..];
    assert forall k :: i <= k < |s| ==> Decimal.IsDigit(s[k]) by {
      forall k | i <= k < |s| ensures Decimal.IsDigit(s[k]) {
        assert s[k] == w[k - i];
      }
    }
    DigitsToEnd(s, i);
    assert s[i..|s|] == w;
    assert SkipWhitespace(s, i) == i;
    NumberStep(s, i);
  }

  /** A source that ends in one string of digits, without a leading zero,
      gives from there a single number token when its value is at most
      4294967295, and a lexical error otherwise. */
  lemma WholeNumber(s: string, i: nat)
    requires i < |s| && Decimal.AllDigits(s[i..]) && (|s| > i + 1 ==> s[i] != '0')
    ensures ScanFrom(s, i)
         == if Decimal.Value(s[i..]) <= MaxNumber then Scan([Token(NumKind, s[i..], Some(Decimal.Value(s[i..])))], false)
            else Scan([], true)
  {
    WholeNumberStep(s, i);
    assert NextStep(s, |s|) == End;
  }

  /** A '0' followed by a digit is the number 0 on its own. */
  lemma ZeroStep(s: string, i: nat)
    requires i + 1 < |s| && s[i] == '0' && Decimal.IsDigit(s[i + 1])
    ensures NextStep(s, i) == Emit(Token(NumKind, "0", Some(0)), i + 1)
  {
    assert SkipWhitespace(s, i) == i;
    NumberStep(s, i);
  }

  /** Leading zeros are split off: "00912" is 0, 0, 912. */
  lemma LeadingZerosExample()
    ensures Tokenized("00912")
         == [Token(NumKind, "0", Some(0)), Token(NumKind, "0", Some(0)), Token(NumKind, "912", Some(912))]
  {
    var zero := Token(NumKind, "0", Some(0));
    var last := Token(NumKind, "912", Some(912));
    ZeroStep("00912", 0);
    ZeroStep("00912", 1);
    assert "00912"[2..] == "912";
    assert Decimal.Value("912") == 912;
    WholeNumber("00912", 2);
    assert ScanFrom("00912", 1) == Scan([zero, last], false);
    assert ScanFrom("00912", 0) == Scan([zero, zero, last], false);
  }

  /** The value of the first four digits of 2^32. */
  lemma FourDigits()
    ensures Decimal.Value("4294") == 4294
  {
    assert Decimal.Value("4") == 4;
    assert Decimal.Value("42") == 42 by {
      ValueSnoc("4", '2');
      assert "4" + ['2'] == "42";
    }
    assert Decimal.Value("429") == 429 by {
      ValueSnoc("42", '9');
      assert "42" + ['9'] == "429";
    }
    assert Decimal.Value("4294") == 4294 by {
      ValueSnoc("429", '4');
      assert "429" + ['4'] == "4294";
    }
  }

  /** The value of the first nine digits of 2^32, one digit at a time. */
  lemma NineDigits()
    ensures Decimal.Value("429496729") == 429496729
  {
    FourDigits();
    assert Decimal.Value("42949") == 42949 by {
      ValueSnoc("4294", '9');
      assert "4294" + ['9'] == "42949";
    }
    assert Decimal.Value("429496") == 429496 by {
      ValueSnoc("42949", '6');
      assert "42949" + ['6'] == "429496";
    }
    assert Decimal.Value("4294967") == 4294967 by {
      ValueSnoc("429496", '7');
      assert "429496" + ['7'] == "4294967";
    }
    assert Decimal.Value("42949672") == 42949672 by {
      ValueSnoc("4294967", '2');
      assert "4294967" + ['2'] == "42949672";
    }
    assert Decimal.Value("429496729") == 429496729 by {
      ValueSnoc("42949672", '9');
      assert "42949672" + ['9'] == "429496729";
    }
  }

  /** The largest number is accepted. */
  lemma MaxNumberExample()
    ensures Tokenized("4294967295") == [Token(NumKind, "4294967295", Some(4294967295))]
  {
    NineDigits();
    ValueSnoc("429496729", '5');
    assert "429496729" + ['5'] == "4294967295";
    assert "4294967295"[0..] == "4294967295";
    WholeNumber("4294967295", 0);
  }

  /** A number of eleven digits is a lexical error. */
  lemma TooLargeExample()
    ensures ScanFrom("10000000000", 0).failed && Tokenized("10000000000") == []
  {
    Decimal.LeadingDigitBound("10000000000");
    assert "10000000000"[0..] == "10000000000";
    WholeNumber("10000000000", 0);
  }

  /** One more than the largest number is a lexical error. */
  lemma JustTooLargeExample()
    ensures ScanFrom("4294967296", 0).failed && Tokenized("4294967296") == []
  {
    NineDigits();
    ValueSnoc("429496729", '6');
    assert "429496729" + ['6'] == "4294967296";
    assert "4294967296"[0..] == "4294967296";
    WholeNumber("4294967296", 0);
  }

  /** A keyword run into an identifier is one identifier. */
  lemma MaximalMunchExample()
    ensures Tokenized("showx") == [Token(IdKind, "showx", None)]
  {
    var s := "showx";
    var t := Token(IdKind, s, None);
    assert NextStep(s, 0) == Emit(t, 5) by {
      assert forall k :: 0 <= k < 5 ==> IsLower(s[k]);
      WordRunTo(s, 0, 5);
      assert SkipWhitespace(s, 0) == 0;
      WordStep(s, 0);
      assert s[0..5] == s;
      assert s !in Keywords;
    }
    ScanAtEnd(s, 5);
    ScanFromStep(s, 0);
  }
}
