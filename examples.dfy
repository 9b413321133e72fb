/** Worked inputs, following the fixtures of src/parser.rs's and src/tokenizer.rs's tests:
    each lemma states what the two validators make of one small document. Inputs are given
    by the kinds of their tokens, as the parser tests write them with their fixed-token
    source; what is proved holds whatever the tokens' texts and lines. */
module Examples {
  import opened Wrappers
  import opened Tokens
  import opened TokenCursor
  import Parser
  import Parsizer

  /** `ts` yields tokens of the kinds `ks`, in order, and then reports end of input. */
  predicate Spelled(ts: TokenStream, ks: seq<JsonKind>) {
    ts.failure.None? && |ts.tokens| == |ks| && forall i | 0 <= i < |ks| :: ts.tokens[i].kind == ks[i]
  }

  /** Position `q` holds a comma, a closing bracket or the end of input: it ends a number
      and is not whitespace. */
  predicate Stop(ts: TokenStream, q: nat) {
    || q == |ts.tokens|
    || IsKindAt(ts, q, ValueSeperator) || IsKindAt(ts, q, EndArray) || IsKindAt(ts, q, EndObject)
  }

  /** Whitespace skipping stays put on a token that is not whitespace, or at the end. */
  lemma {:induction false} NoWhitespace(ts: TokenStream, q: nat)
    requires ValidPos(ts, q) && (q == |ts.tokens| || !IsWhitespace(ts.tokens[q].kind))
    ensures WhitespaceEnd(ts, q) == Success(q)
  {
  }

  /** A single digit followed by a stop is a number, with no whitespace around it. */
  lemma {:induction false} DigitNumber(ts: TokenStream, k: nat)
    requires ts.failure.None? && IsKindAt(ts, k, Digit) && Stop(ts, k + 1)
    ensures NumberEnd(ts, k) == Success(k + 1)
    ensures WhitespaceEnd(ts, k) == Success(k) && WhitespaceEnd(ts, k + 1) == Success(k + 1)
  {
    NoWhitespace(ts, k);
    NoWhitespace(ts, k + 1);
    assert DigitsEnd(ts, k + 1) == Success(k + 1);
    assert DigitsEnd(ts, k) == Success(k + 1);
    assert IntegerEnd(ts, k) == Success(k + 1);
    assert FractionEnd(ts, k + 1) == Success(k + 1);
    assert ExponentEnd(ts, k + 1) == Success(k + 1);
  }

  /** A single digit followed by a stop is an element of both validators. */
  lemma {:induction false} DigitElement(ts: TokenStream, k: nat)
    requires ts.failure.None? && IsKindAt(ts, k, Digit) && Stop(ts, k + 1)
    ensures Parser.ElementEnd(ts, k) == Success(k + 1) && Parsizer.ElementEnd(ts, k) == Success(k + 1)
  {
    DigitNumber(ts, k);
    assert Parser.ValueEnd(ts, k) == Success(k + 1);
    assert Parsizer.ValueEnd(ts, k) == Success(k + 1);
  }

  /** A digit, an `e` and a digit: the number ends before the second digit, because
      `exponent` reads no digits. */
  lemma {:induction false} ExponentNumber(ts: TokenStream, k: nat)
    requires ts.failure.None? && IsKindAt(ts, k, Digit) && IsKindAt(ts, k + 1, E) && IsKindAt(ts, k + 2, Digit)
    ensures NumberEnd(ts, k) == Success(k + 2)
    ensures WhitespaceEnd(ts, k) == Success(k) && WhitespaceEnd(ts, k + 2) == Success(k + 2)
  {
    NoWhitespace(ts, k);
    NoWhitespace(ts, k + 2);
    assert DigitsEnd(ts, k + 1) == Success(k + 1);
    assert DigitsEnd(ts, k) == Success(k + 1);
    assert IntegerEnd(ts, k) == Success(k + 1);
    assert FractionEnd(ts, k + 1) == Success(k + 1);
    assert ExponentEnd(ts, k + 1) == Success(k + 2);
  }

  /** A digit, an `e` and a digit: the element ends before the second digit. */
  lemma {:induction false} ExponentElement(ts: TokenStream, k: nat)
    requires ts.failure.None? && IsKindAt(ts, k, Digit) && IsKindAt(ts, k + 1, E) && IsKindAt(ts, k + 2, Digit)
    ensures Parser.ElementEnd(ts, k) == Success(k + 2)
  {
    NoWhitespace(ts, k);
    NoWhitespace(ts, k + 2);
    ExponentNumber(ts, k);
    assert Parser.ValueEnd(ts, k) == Success(k + 2);
  }

  /** Where a stop stands, both validators find no value. */
  lemma {:induction false} NoElement(ts: TokenStream, k: nat)
    requires ts.failure.None? && k <= |ts.tokens| && Stop(ts, k)
    ensures Parser.ElementEnd(ts, k) == Failure(UnexpectedToken(ts.At(k)))
    ensures Parsizer.ElementEnd(ts, k) == Failure(UnexpectedToken(ts.At(k)))
  {
    NoWhitespace(ts, k);
    assert Parser.ValueEnd(ts, k) == Failure(UnexpectedToken(ts.At(k)));
    assert Parsizer.ValueEnd(ts, k) == Failure(UnexpectedToken(ts.At(k)));
  }

  /** A document of the parser is decided by its first element when that element fails or
      reads to the end of the input. */
  lemma {:induction false} ParserRunFirst(ts: TokenStream)
    requires ts.failure.None? && 0 < |ts.tokens|
    ensures Parser.ElementEnd(ts, 0).Failure? ==> Parser.Run(ts) == Failure(Parser.ElementEnd(ts, 0).error)
    ensures Parser.ElementEnd(ts, 0) == Success(|ts.tokens|) ==> Parser.Run(ts) == Success(|ts.tokens|)
  {
    assert Primed(ts) == Success(0);
    assert Parser.StartEnd(ts, |ts.tokens|) == Success(|ts.tokens|);
  }

  /** After a first element that succeeds, the parser's document goes on from where it
      ended. */
  lemma {:induction false} ParserRunRest(ts: TokenStream, p: nat)
    requires ts.failure.None? && 0 < |ts.tokens| && Parser.ElementEnd(ts, 0) == Success(p)
    ensures p <= |ts.tokens| && Parser.Run(ts) == Parser.StartEnd(ts, p)
  {
    assert Primed(ts) == Success(0);
  }

  /** The same for the earlier validator, whose documents are runs of elements. */
  lemma {:induction false} SizerRunFirst(ts: TokenStream)
    requires ts.failure.None? && 0 < |ts.tokens|
    ensures Parsizer.ElementsEnd(ts, 0).Failure? ==> Parsizer.Run(ts) == Failure(Parsizer.ElementsEnd(ts, 0).error)
    ensures Parsizer.ElementsEnd(ts, 0) == Success(|ts.tokens|) ==> Parsizer.Run(ts) == Success(|ts.tokens|)
  {
    assert Primed(ts) == Success(0);
    assert Parsizer.StartEnd(ts, |ts.tokens|) == Success(|ts.tokens|);
  }

  /** `{"a":1}` is a document. */
  lemma {:induction false} SmallObjectAccepted(ts: TokenStream)
    requires Spelled(ts, [BeginObject, StringVal, NameSeperator, Digit, EndObject])
    ensures Parser.Run(ts) == Success(5)
  {
    assert ts.tokens[0].kind == BeginObject && ts.tokens[1].kind == StringVal && ts.tokens[2].kind == NameSeperator;
    assert ts.tokens[3].kind == Digit && ts.tokens[4].kind == EndObject;
    NoWhitespace(ts, 1);
    NoWhitespace(ts, 2);
    NoWhitespace(ts, 0);
    NoWhitespace(ts, 5);
    DigitElement(ts, 3);
    assert Parser.MatchEnd(ts, 1, StringVal) == Success(2);
    assert Parser.MatchEnd(ts, 2, NameSeperator) == Success(3);
    assert Parser.MemberEnd(ts, 1) == Success(4);
    assert Parser.MembersEnd(ts, 1) == Success(4);
    assert Parser.MatchEnd(ts, 4, EndObject) == Success(5);
    assert Parser.ObjectEnd(ts, 0) == Success(5);
    assert Parser.ValueEnd(ts, 0) == Success(5);
    assert Parser.ElementEnd(ts, 0) == Success(5);
    ParserRunFirst(ts);
  }

  /** `{"a":1}` followed by a line feed is a document for the earlier validator too. */
  lemma {:induction false} SmallObjectAcceptedBySizer(ts: TokenStream)
    requires Spelled(ts, [BeginObject, StringVal, NameSeperator, Digit, EndObject, LineFeed])
    ensures Parsizer.Run(ts) == Success(6)
  {
    assert ts.tokens[0].kind == BeginObject && ts.tokens[1].kind == StringVal && ts.tokens[2].kind == NameSeperator;
    assert ts.tokens[3].kind == Digit && ts.tokens[4].kind == EndObject && ts.tokens[5].kind == LineFeed;
    NoWhitespace(ts, 1);
    NoWhitespace(ts, 2);
    NoWhitespace(ts, 0);
    NoWhitespace(ts, 6);
    DigitElement(ts, 3);
    assert Parsizer.MatchEnd(ts, 1, StringVal) == Success(2);
    assert Parsizer.MatchEnd(ts, 2, NameSeperator) == Success(3);
    assert Parsizer.MemberEnd(ts, 1) == Success(4);
    assert Parsizer.MembersEnd(ts, 1) == Success(4);
    assert Parsizer.MatchEnd(ts, 4, EndObject) == Success(5);
    assert Parsizer.ObjectEnd(ts, 0) == Success(5);
    assert WhitespaceEnd(ts, 5) == Success(6);
    assert Parsizer.ValueEnd(ts, 0) == Success(5);
    assert Parsizer.ElementEnd(ts, 0) == Success(6);
    assert Parsizer.ElementsEnd(ts, 0) == Success(6);
    SizerRunFirst(ts);
  }

  /** `{"a":01}`: a zero followed by a digit is an illegal leading zero, reported on the
      zero's line. */
  lemma {:induction false} LeadingZeroRejected(ts: TokenStream)
    requires Spelled(ts, [BeginObject, StringVal, NameSeperator, Zero, Digit, EndObject])
    ensures Parser.Run(ts) == Failure(LeadingZero(ts.tokens[3].line))
  {
    var err := LeadingZero(ts.tokens[3].line);
    assert ts.tokens[0].kind == BeginObject && ts.tokens[1].kind == StringVal && ts.tokens[2].kind == NameSeperator;
    assert ts.tokens[3].kind == Zero && ts.tokens[4].kind == Digit;
    NoWhitespace(ts, 3);
    NoWhitespace(ts, 1);
    NoWhitespace(ts, 2);
    NoWhitespace(ts, 0);
    assert LeadingZeroAt(ts, 3);
    assert IntegerEnd(ts, 3) == Failure(err);
    assert NumberEnd(ts, 3) == Failure(err);
    assert Parser.ValueEnd(ts, 3) == Failure(err);
    assert Parser.ElementEnd(ts, 3) == Failure(err);
    assert Parser.MatchEnd(ts, 1, StringVal) == Success(2);
    assert Parser.MatchEnd(ts, 2, NameSeperator) == Success(3);
    assert Parser.MemberEnd(ts, 1) == Failure(err);
    assert Parser.MembersEnd(ts, 1) == Failure(err);
    assert Parser.ObjectEnd(ts, 0) == Failure(err);
    assert Parser.ValueEnd(ts, 0) == Failure(err);
    assert Parser.ElementEnd(ts, 0) == Failure(err);
    ParserRunFirst(ts);
  }

  /** `[1,2,]`: a comma must be followed by another element. */
  lemma {:induction false} TrailingCommaRejected(ts: TokenStream)
    requires Spelled(ts, [BeginArray, Digit, ValueSeperator, Digit, ValueSeperator, EndArray])
    ensures Parser.Run(ts) == Failure(UnexpectedToken(Some(ts.tokens[5])))
  {
    var err := UnexpectedToken(Some(ts.tokens[5]));
    assert ts.tokens[0].kind == BeginArray && ts.tokens[1].kind == Digit && ts.tokens[2].kind == ValueSeperator;
    assert ts.tokens[3].kind == Digit && ts.tokens[4].kind == ValueSeperator && ts.tokens[5].kind == EndArray;
    assert ts.At(5) == Some(ts.tokens[5]);
    NoWhitespace(ts, 1);
    NoWhitespace(ts, 0);
    NoElement(ts, 5);
    assert Parser.ElementsEnd(ts, 5) == Failure(err);
    DigitElement(ts, 3);
    assert Parser.ElementsEnd(ts, 3) == Failure(err);
    DigitElement(ts, 1);
    assert Parser.ElementsEnd(ts, 1) == Failure(err);
    assert Parser.ArrayEnd(ts, 0) == Failure(err);
    assert Parser.ValueEnd(ts, 0) == Failure(err);
    assert Parser.ElementEnd(ts, 0) == Failure(err);
    ParserRunFirst(ts);
  }

  /** `1e5` at top level: `exponent` stops after the `e`, and the `5` is read as a second
      top-level element, so the document is accepted. */
  lemma {:induction false} ExponentAtTopLevelAccepted(ts: TokenStream)
    requires Spelled(ts, [Digit, E, Digit])
    ensures Parser.Run(ts) == Success(3)
  {
    assert ts.tokens[0].kind == Digit && ts.tokens[1].kind == E && ts.tokens[2].kind == Digit;
    ExponentElement(ts, 0);
    DigitElement(ts, 2);
    assert Parser.StartEnd(ts, 3) == Success(3);
    assert Parser.StartEnd(ts, 2) == Success(3);
    ParserRunRest(ts, 2);
  }

  /** `[1e5]`: the `5` that `exponent` leaves behind is where `]` must be. */
  lemma {:induction false} ExponentInArrayRejected(ts: TokenStream)
    requires Spelled(ts, [BeginArray, Digit, E, Digit, EndArray])
    ensures Parser.Run(ts) == Failure(Expected(EndArray, Some(ts.tokens[3])))
  {
    var err := Expected(EndArray, Some(ts.tokens[3]));
    assert ts.tokens[0].kind == BeginArray && ts.tokens[1].kind == Digit && ts.tokens[2].kind == E;
    assert ts.tokens[3].kind == Digit && ts.tokens[4].kind == EndArray;
    assert ts.At(3) == Some(ts.tokens[3]);
    NoWhitespace(ts, 0);
    NoWhitespace(ts, 1);
    NoWhitespace(ts, 3);
    ExponentElement(ts, 1);
    assert Parser.ElementsEnd(ts, 1) == Success(3);
    assert Parser.MatchEnd(ts, 3, EndArray) == Failure(err);
    assert Parser.ArrayEnd(ts, 0) == Failure(err);
    assert Parser.ValueEnd(ts, 0) == Failure(err);
    assert Parser.ElementEnd(ts, 0) == Failure(err);
    ParserRunFirst(ts);
  }

  /** `[]`: the parser has a branch for the empty array. */
  lemma {:induction false} EmptyArrayAccepted(ts: TokenStream)
    requires Spelled(ts, [BeginArray, EndArray])
    ensures Parser.Run(ts) == Success(2)
  {
    assert ts.tokens[0].kind == BeginArray && ts.tokens[1].kind == EndArray;
    NoWhitespace(ts, 1);
    NoWhitespace(ts, 0);
    NoWhitespace(ts, 2);
    assert Parser.ArrayEnd(ts, 0) == Success(2);
    assert Parser.ValueEnd(ts, 0) == Success(2);
    assert Parser.ElementEnd(ts, 0) == Success(2);
    ParserRunFirst(ts);
  }

  /** ` [] `: the fixture of src/parser/tests.rs. Whitespace around an element belongs to
      it, and the empty array is one element. */
  lemma {:induction false} SpacedEmptyArrayAccepted(ts: TokenStream)
    requires Spelled(ts, [Space, BeginArray, EndArray, Space])
    ensures Parser.Run(ts) == Success(4)
  {
    assert ts.tokens[0].kind == Space && ts.tokens[1].kind == BeginArray;
    assert ts.tokens[2].kind == EndArray && ts.tokens[3].kind == Space;
    NoWhitespace(ts, 1);
    NoWhitespace(ts, 2);
    NoWhitespace(ts, 4);
    assert WhitespaceEnd(ts, 0) == Success(1);
    assert WhitespaceEnd(ts, 3) == Success(4);
    assert Parser.ArrayEnd(ts, 1) == Success(3);
    assert Parser.ValueEnd(ts, 1) == Success(3);
    assert Parser.ElementEnd(ts, 0) == Success(4);
    ParserRunFirst(ts);
  }

  /** `{}`: the parser has a branch for the empty object. */
  lemma {:induction false} EmptyObjectAccepted(ts: TokenStream)
    requires Spelled(ts, [BeginObject, EndObject])
    ensures Parser.Run(ts) == Success(2)
  {
    assert ts.tokens[0].kind == BeginObject && ts.tokens[1].kind == EndObject;
    NoWhitespace(ts, 1);
    NoWhitespace(ts, 0);
    NoWhitespace(ts, 2);
    assert Parser.ObjectEnd(ts, 0) == Success(2);
    assert Parser.ValueEnd(ts, 0) == Success(2);
    assert Parser.ElementEnd(ts, 0) == Success(2);
    ParserRunFirst(ts);
  }

  /** `[]` followed by a line feed: the earlier validator has no empty-array branch and
      looks for a value where the `]` is. */
  lemma {:induction false} EmptyArrayRejectedBySizer(ts: TokenStream)
    requires Spelled(ts, [BeginArray, EndArray, LineFeed])
    ensures Parsizer.Run(ts) == Failure(UnexpectedToken(Some(ts.tokens[1])))
  {
    var err := UnexpectedToken(Some(ts.tokens[1]));
    assert ts.tokens[0].kind == BeginArray && ts.tokens[1].kind == EndArray;
    assert ts.At(1) == Some(ts.tokens[1]);
    NoWhitespace(ts, 0);
    NoElement(ts, 1);
    assert Parsizer.ElementsEnd(ts, 1) == Failure(err);
    assert Parsizer.ArrayEnd(ts, 0) == Failure(err);
    assert Parsizer.ValueEnd(ts, 0) == Failure(err);
    assert Parsizer.ElementEnd(ts, 0) == Failure(err);
    assert Parsizer.ElementsEnd(ts, 0) == Failure(err);
    SizerRunFirst(ts);
  }

  /** `{}` followed by a line feed: the earlier validator has no empty-object branch and
      looks for a member name where the `}` is. */
  lemma {:induction false} EmptyObjectRejectedBySizer(ts: TokenStream)
    requires Spelled(ts, [BeginObject, EndObject, LineFeed])
    ensures Parsizer.Run(ts) == Failure(Expected(StringVal, Some(ts.tokens[1])))
  {
    var err := Expected(StringVal, Some(ts.tokens[1]));
    assert ts.tokens[0].kind == BeginObject && ts.tokens[1].kind == EndObject;
    assert ts.At(1) == Some(ts.tokens[1]);
    NoWhitespace(ts, 1);
    NoWhitespace(ts, 0);
    assert Parsizer.MatchEnd(ts, 1, StringVal) == Failure(err);
    assert Parsizer.MemberEnd(ts, 1) == Failure(err);
    assert Parsizer.MembersEnd(ts, 1) == Failure(err);
    assert Parsizer.ObjectEnd(ts, 0) == Failure(err);
    assert Parsizer.ValueEnd(ts, 0) == Failure(err);
    assert Parsizer.ElementEnd(ts, 0) == Failure(err);
    assert Parsizer.ElementsEnd(ts, 0) == Failure(err);
    SizerRunFirst(ts);
  }

  /** `[1]`: the parser accepts it. */
  lemma {:induction false} SmallArrayAccepted(ts: TokenStream)
    requires Spelled(ts, [BeginArray, Digit, EndArray])
    ensures Parser.Run(ts) == Success(3)
  {
    assert ts.tokens[0].kind == BeginArray && ts.tokens[1].kind == Digit && ts.tokens[2].kind == EndArray;
    NoWhitespace(ts, 1);
    NoWhitespace(ts, 0);
    NoWhitespace(ts, 3);
    DigitElement(ts, 1);
    assert Parser.ElementsEnd(ts, 1) == Success(2);
    assert Parser.MatchEnd(ts, 2, EndArray) == Success(3);
    assert Parser.ArrayEnd(ts, 0) == Success(3);
    assert Parser.ValueEnd(ts, 0) == Success(3);
    assert Parser.ElementEnd(ts, 0) == Success(3);
    ParserRunFirst(ts);
  }

  /** `[1]`: the earlier validator cannot match the closing bracket when it is the last
      token, because it also unwraps the token after it. */
  lemma {:induction false} ClosingLastTokenRejectedBySizer(ts: TokenStream)
    requires Spelled(ts, [BeginArray, Digit, EndArray])
    ensures Parsizer.Run(ts) == Failure(MissingLookahead(EndArray, ts.tokens[2].line))
  {
    var err := MissingLookahead(EndArray, ts.tokens[2].line);
    assert ts.tokens[0].kind == BeginArray && ts.tokens[1].kind == Digit && ts.tokens[2].kind == EndArray;
    NoWhitespace(ts, 0);
    DigitElement(ts, 1);
    assert Parsizer.ElementsEnd(ts, 1) == Success(2);
    assert Parsizer.MatchEnd(ts, 2, EndArray) == Failure(err);
    assert Parsizer.ArrayEnd(ts, 0) == Failure(err);
    assert Parsizer.ValueEnd(ts, 0) == Failure(err);
    assert Parsizer.ElementEnd(ts, 0) == Failure(err);
    assert Parsizer.ElementsEnd(ts, 0) == Failure(err);
    SizerRunFirst(ts);
  }

  /** `[1]` followed by a line feed: with a token after the bracket the earlier validator
      accepts. */
  lemma {:induction false} ClosingWithLookaheadAcceptedBySizer(ts: TokenStream)
    requires Spelled(ts, [BeginArray, Digit, EndArray, LineFeed])
    ensures Parsizer.Run(ts) == Success(4)
  {
    assert ts.tokens[0].kind == BeginArray && ts.tokens[1].kind == Digit && ts.tokens[2].kind == EndArray;
    assert ts.tokens[3].kind == LineFeed;
    NoWhitespace(ts, 0);
    NoWhitespace(ts, 4);
    DigitElement(ts, 1);
    assert Parsizer.ElementsEnd(ts, 1) == Success(2);
    assert Parsizer.MatchEnd(ts, 2, EndArray) == Success(3);
    assert Parsizer.ArrayEnd(ts, 0) == Success(3);
    assert WhitespaceEnd(ts, 3) == Success(4);
    assert Parsizer.ValueEnd(ts, 0) == Success(3);
    assert Parsizer.ElementEnd(ts, 0) == Success(4);
    assert Parsizer.ElementsEnd(ts, 0) == Success(4);
    SizerRunFirst(ts);
  }

  /** `1,2`: the earlier validator's `start` reads comma-separated elements. */
  lemma {:induction false} TopLevelCommasAcceptedBySizer(ts: TokenStream)
    requires Spelled(ts, [Digit, ValueSeperator, Digit])
    ensures Parsizer.Run(ts) == Success(3)
  {
    assert ts.tokens[0].kind == Digit && ts.tokens[1].kind == ValueSeperator && ts.tokens[2].kind == Digit;
    DigitElement(ts, 2);
    assert Parsizer.ElementsEnd(ts, 2) == Success(3);
    DigitElement(ts, 0);
    assert Parsizer.ElementsEnd(ts, 0) == Success(3);
    SizerRunFirst(ts);
  }

  /** `1,2`: the parser's `start` reads single elements, and a comma is not one. */
  lemma {:induction false} TopLevelCommasRejected(ts: TokenStream)
    requires Spelled(ts, [Digit, ValueSeperator, Digit])
    ensures Parser.Run(ts) == Failure(UnexpectedToken(Some(ts.tokens[1])))
  {
    var err := UnexpectedToken(Some(ts.tokens[1]));
    assert ts.tokens[0].kind == Digit && ts.tokens[1].kind == ValueSeperator;
    assert ts.At(1) == Some(ts.tokens[1]);
    DigitElement(ts, 0);
    NoElement(ts, 1);
    assert Parser.StartEnd(ts, 1) == Failure(err);
    ParserRunRest(ts, 1);
  }

  /** A document of whitespace alone has no value where `element` needs one; the panic
      message would unwrap the absent token. */
  lemma {:induction false} WhitespaceOnlyRejected(ts: TokenStream)
    requires Spelled(ts, [LineFeed])
    ensures Parser.Run(ts) == Failure(UnexpectedToken(None))
    ensures Parsizer.Run(ts) == Failure(UnexpectedToken(None))
  {
    assert ts.tokens[0].kind == LineFeed;
    NoWhitespace(ts, 1);
    assert ts.At(1) == None;
    assert WhitespaceEnd(ts, 0) == Success(1);
    assert Parser.ValueEnd(ts, 1) == Failure(UnexpectedToken(None));
    assert Parser.ElementEnd(ts, 0) == Failure(UnexpectedToken(None));
    ParserRunFirst(ts);
    assert Parsizer.ValueEnd(ts, 1) == Failure(UnexpectedToken(None));
    assert Parsizer.ElementEnd(ts, 0) == Failure(UnexpectedToken(None));
    assert Parsizer.ElementsEnd(ts, 0) == Failure(UnexpectedToken(None));
    SizerRunFirst(ts);
  }

  /** A lexer panic while `new` fills the window is the validators' panic. */
  lemma {:induction false} EarlyLexerPanic(e: LexError, t: Token)
    ensures Parser.Run(TokenStream([t], Some(e))) == Failure(Lex(e))
    ensures Parsizer.Run(TokenStream([t], Some(e))) == Failure(Lex(e))
  {
  }
}
