/** The lexer's output as the driver writes it, a JSON array of token
    dictionaries, and what compare_json says when two such outputs are compared. */
module TokenOutput {
  import opened Tokens
  import Json
  import JsonDiff

  /** The JSON array main.py writes for a token list: to_dict of each token, in order. */
  function ToJson(tokens: seq<Token>): (j: Json.Value)
    ensures j.Array? && |j.items| == |tokens|
  {
    Json.Array(seq(|tokens|, i requires 0 <= i < |tokens| => ToDict(tokens[i])))
  }

  /** compare_json finds no difference between the JSON of two token lists
      exactly when they have the same categories and texts, position by position. */
  lemma OutputsAgree(tokens1: seq<Token>, tokens2: seq<Token>, path: string)
    ensures JsonDiff.Differences(ToJson(tokens1), ToJson(tokens2), path) == multiset{}
        <==> |tokens1| == |tokens2|
             && forall i :: 0 <= i < |tokens1| ==> tokens1[i].kind == tokens2[i].kind && tokens1[i].lexeme == tokens2[i].lexeme
  {
    JsonDiff.DifferencesEmptyIffEqual(ToJson(tokens1), ToJson(tokens2), path);
    var j1, j2 := ToJson(tokens1), ToJson(tokens2);
    if |tokens1| == |tokens2| {
      forall i | 0 <= i < |tokens1|
        ensures Json.Equal(j1.items[i], j2.items[i]) <==> tokens1[i].kind == tokens2[i].kind && tokens1[i].lexeme == tokens2[i].lexeme
      {
        DictsEqual(tokens1[i], tokens2[i]);
      }
    }
  }

  lemma DictsEqual(t1: Token, t2: Token)
    ensures Json.Equal(ToDict(t1), ToDict(t2)) <==> t1.kind == t2.kind && t1.lexeme == t2.lexeme
  {
    var d1, d2 := ToDict(t1), ToDict(t2);
    assert Json.Equal(d1.fields["token"], d2.fields["token"]) <==> t1.kind == t2.kind;
    assert Json.Equal(d1.fields["lexeme"], d2.fields["lexeme"]) <==> t1.lexeme == t2.lexeme;
  }
}
