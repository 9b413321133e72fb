/** Worked inputs of the lexer, following the fixtures of src/lexer/tests.rs: what a
    fresh iterator hands out for a few small inputs. */
module LexerExamples {
  import opened Wrappers
  import opened Tokens
  import opened Lexer
  import opened Tokenization

  /** A word made only of letters is read to its end. */
  lemma {:induction false} WordToEnd(s: string, i: nat)
    requires i <= |s| && forall k | i <= k < |s| :: IsAlphabetic(s[k])
    ensures WordEnd(s, i) == |s|
    decreases |s| - i
  {
    if i < |s| {
      WordToEnd(s, i + 1);
    }
  }

  /** A keyword alone is one token of its kind. */
  lemma {:induction false} Keyword(s: string, k: JsonKind)
    requires IsKeyword(k) && s == KeywordText(k)
    ensures Tokenize(s) == TokenStream([Token(k, s, 1)], None)
  {
    assert s[0] !in Symbols && !IsNumeric(s[0]) && IsAlphabetic(s[0]);
    WordToEnd(s, 1);
    assert s[0..|s|] == s;
    assert LexStep(s, 0, 1) == Success(Some(Step(Token(k, s, 1), |s|, 1)));
    assert LexRun(s, |s|, 1) == Run([], None, |s|);
  }

  /** The three keywords each become one token of their kind. */
  lemma {:induction false} KeywordsTokenized()
    ensures Tokenize("true") == TokenStream([Token(True, "true", 1)], None)
    ensures Tokenize("false") == TokenStream([Token(False, "false", 1)], None)
    ensures Tokenize("null") == TokenStream([Token(Null, "null", 1)], None)
  {
    Keyword("true", True);
    Keyword("false", False);
    Keyword("null", Null);
  }

  /** Any other run of letters is an unknown keyword, reported with the whole run. */
  lemma {:induction false} UnknownKeywordPanics()
    ensures Tokenize("woooop") == TokenStream([], Some(UnknownKeyword("woooop", 1)))
  {
    var s := "woooop";
    assert s[0] !in Symbols && !IsNumeric(s[0]) && IsAlphabetic(s[0]);
    WordToEnd(s, 1);
    assert s[0..6] == s;
    assert LexStep(s, 0, 1) == Failure(UnknownKeyword(s, 1));
  }

  /** A backslash-quote pair stays inside the string token. */
  lemma {:induction false} EscapedQuoteKept()
    ensures Tokenize("\"a\\\"b\"") == TokenStream([Token(StringVal, "\"a\\\"b\"", 1)], None)
  {
    var s := "\"a\\\"b\"";
    assert s[0] == '"' && s[0] !in Symbols;
    assert ScanString(s, 1, 1) == Success(6) by {
      assert ScanString(s, 5, 1) == Success(6);
      assert ScanString(s, 4, 1) == Success(6);
      assert ScanString(s, 2, 1) == Success(6);
    }
    assert s[0..6] == s;
    assert LexStep(s, 0, 1) == Success(Some(Step(Token(StringVal, s, 1), 6, 1)));
    assert LexRun(s, 6, 1) == Run([], None, 6);
  }

  /** A string the input ends inside is nonterminating. */
  lemma {:induction false} NonterminatingStringPanics()
    ensures Tokenize("\"ab") == TokenStream([], Some(NonterminatingString(1)))
  {
    assert ScanString("\"ab", 1, 1) == Failure(NonterminatingString(1));
  }

  /** A raw line feed inside a string is an error. */
  lemma {:induction false} MultilineStringPanics()
    ensures Tokenize("\"a\n\"") == TokenStream([], Some(MultilineString(1)))
  {
    assert ScanString("\"a\n\"", 1, 1) == Failure(MultilineString(1));
  }

  /** A quote as the last character of the input is a string token on its own. */
  lemma {:induction false} LoneQuoteIsString()
    ensures Tokenize("\"") == TokenStream([Token(StringVal, "\"", 1)], None)
  {
    var s := "\"";
    assert s[0] == '"' && s[0] !in Symbols;
    assert ScanString(s, 1, 1) == Success(1);
    assert s[0..1] == s;
    assert LexStep(s, 0, 1) == Success(Some(Step(Token(StringVal, s, 1), 1, 1)));
    assert LexRun(s, 1, 1) == Run([], None, 1);
  }

  /** Line numbers: a line feed reports the line it ends, the token after it the next one. */
  lemma {:induction false} LinesCounted()
    ensures Tokenize("[\n1]") ==
              TokenStream([Token(BeginArray, "[", 1), Token(LineFeed, "\n", 1), Token(Digit, "1", 2), Token(EndArray, "]", 2)], None)
  {
  }
}
