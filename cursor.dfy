/** The parser's two-slot token window, and the token-level procedures that src/parser.rs
    and src/parsizer.rs share word for word: `new`, `next_token`, `is_kind`, `is_next`,
    `illegal_leading_zero`, `must_match_either`, `number`, `integer`, `fraction`,
    `exponent`, `digits` and `whitespace`. The grammar procedures that differ between the
    two files are in modules `Parser` and `Parsizer`.

    The pure functions say where each procedure leaves the window, as a position in the
    token stream (the index of the token in `curr`), or which panic it raises; the class
    `Cursor` is the window itself, proved to agree with them. */
module TokenCursor {
  import opened Wrappers
  import opened Tokens

  /** The panics of the parsers. Where the source's panic message names the current token,
      the error carries it; it is `None` where the source, building that message, unwraps an
      absent token and panics on the unwrap instead. */
  datatype ParseError =
    | Lex(error: LexError)
    | UnexpectedToken(at: Option<Token>)
    | Expected(kind: JsonKind, at: Option<Token>)
    | ExpectedEither(kind1: JsonKind, kind2: JsonKind, at: Option<Token>)
    | LeadingZero(line: nat)
    | MissingLookahead(kind: JsonKind, line: nat)

  /** A position the window can be at: the token source has not panicked while filling it. */
  predicate ValidPos(ts: TokenStream, pos: nat) {
    pos <= |ts.tokens| && (ts.failure.Some? ==> pos + 1 < |ts.tokens|)
  }

  /** `is_kind` at position `pos`. */
  predicate IsKindAt(ts: TokenStream, pos: nat, kind: JsonKind) {
    pos < |ts.tokens| && ts.tokens[pos].kind == kind
  }

  predicate IsWhitespace(k: JsonKind) {
    k == Space || k == HorizontalTab || k == LineFeed || k == CarriageReturn
  }

  predicate IsDigit(k: JsonKind) {
    k == Digit || k == Zero
  }

  /** `Parser::new`: pulling the first two tokens into `curr` and `peek`. */
  function Primed(ts: TokenStream): (r: Result<nat, ParseError>)
    ensures r.Success? ==> r.value == 0 && ValidPos(ts, 0)
    ensures r.Failure? <==> ts.failure.Some? && |ts.tokens| < 2
  {
    if ts.failure.Some? && |ts.tokens| < 2 then Failure(Lex(ts.failure.value)) else Success(0)
  }

  /** `next_token`: the window moves on by one token, and one more token is pulled, which
      fails when the source panics instead of yielding it. At the end of the stream the
      window stays where it is. */
  function Advance(ts: TokenStream, pos: nat): (r: Result<nat, ParseError>)
    requires ValidPos(ts, pos)
    ensures r.Success? ==> ValidPos(ts, r.value) && r.value == if pos < |ts.tokens| then pos + 1 else pos
    ensures r.Failure? <==> ts.failure.Some? && pos + 2 == |ts.tokens|
    ensures r.Failure? ==> ts.failure.Some? && r.error == Lex(ts.failure.value)
  {
    match ts.Pull(pos + 2)
    case Failure(e) => Failure(Lex(e))
    case Success(_) => Success(if pos < |ts.tokens| then pos + 1 else pos)
  }

  /** `whitespace`: skips a maximal run of whitespace tokens. */
  function WhitespaceEnd(ts: TokenStream, pos: nat): (r: Result<nat, ParseError>)
    requires ValidPos(ts, pos)
    ensures r.Success? ==> pos <= r.value && ValidPos(ts, r.value)
    ensures r.Success? ==> r.value == |ts.tokens| || !IsWhitespace(ts.tokens[r.value].kind)
    ensures r.Failure? ==> ts.failure.Some? && r.error == Lex(ts.failure.value)
    decreases |ts.tokens| - pos
  {
    if pos < |ts.tokens| && IsWhitespace(ts.tokens[pos].kind) then
      var p :- Advance(ts, pos);
      WhitespaceEnd(ts, p)
    else
      Success(pos)
  }

  /** `digits`: skips a maximal run of `Digit` and `Zero` tokens. */
  function DigitsEnd(ts: TokenStream, pos: nat): (r: Result<nat, ParseError>)
    requires ValidPos(ts, pos)
    ensures r.Success? ==> pos <= r.value && ValidPos(ts, r.value)
    ensures r.Success? ==> r.value == |ts.tokens| || !IsDigit(ts.tokens[r.value].kind)
    ensures r.Failure? ==> ts.failure.Some? && r.error == Lex(ts.failure.value)
    decreases |ts.tokens| - pos
  {
    if pos < |ts.tokens| && IsDigit(ts.tokens[pos].kind) then
      var p :- Advance(ts, pos);
      DigitsEnd(ts, p)
    else
      Success(pos)
  }

  /** The condition `illegal_leading_zero` rejects: `curr` is `Zero` and `peek` a digit. */
  predicate LeadingZeroAt(ts: TokenStream, pos: nat) {
    IsKindAt(ts, pos, Zero) && (IsKindAt(ts, pos + 1, Digit) || IsKindAt(ts, pos + 1, Zero))
  }

  /** `must_match_either`: the current token must be of one of two kinds, and is consumed. */
  function MatchEitherEnd(ts: TokenStream, pos: nat, kind1: JsonKind, kind2: JsonKind): (r: Result<nat, ParseError>)
    requires ValidPos(ts, pos)
    ensures r.Success? ==> (IsKindAt(ts, pos, kind1) || IsKindAt(ts, pos, kind2)) && r.value == pos + 1
    ensures IsKindAt(ts, pos, kind1) || IsKindAt(ts, pos, kind2) ==> r == Advance(ts, pos)
    ensures !IsKindAt(ts, pos, kind1) && !IsKindAt(ts, pos, kind2) ==>
              r == Failure(ExpectedEither(kind1, kind2, ts.At(pos)))
  {
    if IsKindAt(ts, pos, kind1) || IsKindAt(ts, pos, kind2) then Advance(ts, pos)
    else Failure(ExpectedEither(kind1, kind2, ts.At(pos)))
  }

  /** `integer`: an optional `Minus`, then a maximal digit run; the leading-zero check is
      made before the sign and again after it, and a sign must be followed by a digit. */
  function IntegerEnd(ts: TokenStream, pos: nat): (r: Result<nat, ParseError>)
    requires ValidPos(ts, pos)
    ensures r.Success? ==> pos <= r.value && ValidPos(ts, r.value)
    ensures r.Success? ==> !LeadingZeroAt(ts, pos) && (IsKindAt(ts, pos, Minus) ==> !LeadingZeroAt(ts, pos + 1))
    ensures r.Success? && IsKindAt(ts, pos, Minus) ==> pos + 2 <= r.value
    ensures r.Success? ==> r.value == |ts.tokens| || !IsDigit(ts.tokens[r.value].kind)
  {
    if LeadingZeroAt(ts, pos) then Failure(LeadingZero(ts.tokens[pos].line))
    else if IsKindAt(ts, pos, Minus) then
      var p :- Advance(ts, pos);
      if LeadingZeroAt(ts, p) then Failure(LeadingZero(ts.tokens[p].line))
      else
        var q :- MatchEitherEnd(ts, p, Digit, Zero);
        DigitsEnd(ts, q)
    else
      DigitsEnd(ts, pos)
  }

  /** `fraction`: a `DecimalPoint` and the digit run after it, if the point is there. */
  function FractionEnd(ts: TokenStream, pos: nat): (r: Result<nat, ParseError>)
    requires ValidPos(ts, pos)
    ensures r.Success? ==> pos <= r.value && ValidPos(ts, r.value)
    ensures r.Success? && r.value > pos ==> IsKindAt(ts, pos, DecimalPoint)
  {
    if IsKindAt(ts, pos, DecimalPoint) then
      var p :- Advance(ts, pos);
      DigitsEnd(ts, p)
    else
      Success(pos)
  }

  /** `exponent`: an `E` and at most one sign after it. No digit is consumed here. */
  function ExponentEnd(ts: TokenStream, pos: nat): (r: Result<nat, ParseError>)
    requires ValidPos(ts, pos)
    ensures r.Success? ==> ValidPos(ts, r.value) && pos <= r.value <= pos + 2
    ensures r.Success? ==> (r.value > pos <==> IsKindAt(ts, pos, E))
    ensures r.Success? && r.value == pos + 2 ==> IsKindAt(ts, pos + 1, Plus) || IsKindAt(ts, pos + 1, Minus)
    ensures r.Success? && IsKindAt(ts, pos, E) && (IsKindAt(ts, pos + 1, Plus) || IsKindAt(ts, pos + 1, Minus)) ==>
              r.value == pos + 2
  {
    if IsKindAt(ts, pos, E) then
      var p :- Advance(ts, pos);
      if IsKindAt(ts, p, Plus) || IsKindAt(ts, p, Minus) then Advance(ts, p) else Success(p)
    else
      Success(pos)
  }

  /** `number`: integer, then fraction, then exponent. */
  function NumberEnd(ts: TokenStream, pos: nat): (r: Result<nat, ParseError>)
    requires ValidPos(ts, pos)
    ensures r.Success? ==> pos <= r.value && ValidPos(ts, r.value)
  {
    var p :- IntegerEnd(ts, pos);
    var q :- FractionEnd(ts, p);
    ExponentEnd(ts, q)
  }

  /** A method outcome agrees with a specification result: both fail with the same error,
      or both succeed and the window is at the position the specification gives. */
  ghost predicate Agrees(r: Outcome<ParseError>, spec: Result<nat, ParseError>, pos: nat) {
    match spec
    case Success(p) => r.Pass? && pos == p
    case Failure(e) => r == Fail(e)
  }

  function Min(a: nat, b: nat): nat {
    if a <= b then a else b
  }

  /** The parser's fields: the token source (a stream read from index `next`) and the two
      slots `curr` and `peek`. `pos` is the position of `curr` in the stream. */
  class Cursor {
    const stream: TokenStream
    var next: nat
    var curr: Option<Token>
    var peek: Option<Token>
    ghost var pos: nat

    /** The slots hold the tokens at `pos` and `pos + 1`, and the source has handed out
        exactly the tokens up to them. */
    ghost predicate Valid()
      reads this
    {
      && ValidPos(stream, pos)
      && curr == stream.At(pos)
      && peek == stream.At(pos + 1)
      && next == Min(pos + 2, |stream.tokens|)
    }

    /** The struct literal of `Parser::new`, before the slots are filled. */
    constructor Empty(source: TokenStream)
      ensures stream == source && next == 0 && curr == None && peek == None && pos == 0
    {
      stream := source;
      next := 0;
      curr := None;
      peek := None;
      pos := 0;
    }

    /** One `next()` call on the token source. */
    method Pull() returns (r: Result<Option<Token>, LexError>)
      requires next <= |stream.tokens|
      modifies this`next
      ensures r == stream.Pull(old(next))
      ensures next == if old(next) < |stream.tokens| then old(next) + 1 else old(next)
    {
      if next < |stream.tokens| {
        r := Success(Some(stream.tokens[next]));
        next := next + 1;
      } else if stream.failure.Some? {
        r := Failure(stream.failure.value);
      } else {
        r := Success(None);
      }
    }

    /** `Parser::new`: a window over `source` with `curr` and `peek` filled. */
    static method New(source: TokenStream) returns (r: Result<Cursor, ParseError>)
      ensures r.Success? <==> Primed(source).Success?
      ensures r.Failure? ==> r.error == Primed(source).error
      ensures r.Success? ==> fresh(r.value) && r.value.Valid() && r.value.stream == source && r.value.pos == 0
    {
      var c := new Cursor.Empty(source);
      var first := c.Pull();
      if first.Failure? {
        return Failure(Lex(first.error));
      }
      c.curr := first.value;
      var second := c.Pull();
      if second.Failure? {
        return Failure(Lex(second.error));
      }
      c.peek := second.value;
      return Success(c);
    }

    /** `next_token`. The source assigns `curr` before pulling; here the pull comes first,
        which differs only when the pull panics and the run is over. */
    method NextToken() returns (r: Outcome<ParseError>)
      requires Valid()
      modifies this
      ensures Valid() && Agrees(r, Advance(stream, old(pos)), pos)
      ensures r.Pass? && old(curr).Some? ==> curr == old(peek)
    {
      var pulled := Pull();
      if pulled.Failure? {
        return Fail(Lex(pulled.error));
      }
      if curr.Some? {
        pos := pos + 1;
      }
      curr, peek := peek, pulled.value;
      r := Pass;
    }

    /** `is_kind`: whether `curr` is a token of the given kind. */
    function IsKind(kind: JsonKind): (b: bool)
      reads this
      requires Valid()
      ensures b <==> IsKindAt(stream, pos, kind)
    {
      match curr
      case None => false
      case Some(t) => t.kind == kind
    }

    /** `is_next`: whether `peek` is a token of the given kind. */
    function IsNext(kind: JsonKind): (b: bool)
      reads this
      requires Valid()
      ensures b <==> IsKindAt(stream, pos + 1, kind)
    {
      match peek
      case None => false
      case Some(t) => t.kind == kind
    }

    /** `illegal_leading_zero`: fails, with the line of `curr`, exactly when `curr` is a
        `Zero` and `peek` is a `Digit` or a `Zero`. */
    method IllegalLeadingZero() returns (r: Outcome<ParseError>)
      requires Valid()
      ensures r.Fail? <==> LeadingZeroAt(stream, pos)
      ensures r.Fail? ==> r.error == LeadingZero(stream.tokens[pos].line)
    {
      if IsKind(Zero) && (IsNext(Digit) || IsNext(Zero)) {
        return Fail(LeadingZero(curr.value.line));
      }
      return Pass;
    }

    method MustMatchEither(kind1: JsonKind, kind2: JsonKind) returns (r: Outcome<ParseError>)
      requires Valid()
      modifies this
      ensures Valid() && Agrees(r, MatchEitherEnd(stream, old(pos), kind1, kind2), pos)
    {
      if !IsKind(kind1) && !IsKind(kind2) {
        return Fail(ExpectedEither(kind1, kind2, curr));
      }
      r := NextToken();
    }

    method Number() returns (r: Outcome<ParseError>)
      requires Valid()
      modifies this
      ensures Valid() && Agrees(r, NumberEnd(stream, old(pos)), pos)
    {
      r := Integer();
      if r.Pass? {
        :- Fraction();
        r := Exponent();
      }
    }

    method Integer() returns (r: Outcome<ParseError>)
      requires Valid()
      modifies this
      ensures Valid() && Agrees(r, IntegerEnd(stream, old(pos)), pos)
    {
      r := IllegalLeadingZero();
      if r.Pass? {
        if IsKind(Minus) {
          :- NextToken();
          :- IllegalLeadingZero();
          :- MustMatchEither(Digit, Zero);
        }
        r := Digits();
      }
    }

    method Fraction() returns (r: Outcome<ParseError>)
      requires Valid()
      modifies this
      ensures Valid() && Agrees(r, FractionEnd(stream, old(pos)), pos)
    {
      if IsKind(DecimalPoint) {
        :- NextToken();
        r := Digits();
      } else {
        r := Pass;
      }
    }

    method Exponent() returns (r: Outcome<ParseError>)
      requires Valid()
      modifies this
      ensures Valid() && Agrees(r, ExponentEnd(stream, old(pos)), pos)
    {
      r := Pass;
      if IsKind(E) {
        :- NextToken();
        if IsKind(Plus) || IsKind(Minus) {
          r := NextToken();
        }
      }
    }

    method Digits() returns (r: Outcome<ParseError>)
      requires Valid()
      modifies this
      ensures Valid() && Agrees(r, DigitsEnd(stream, old(pos)), pos)
    {
      while curr.Some? && IsDigit(curr.value.kind)
        invariant Valid()
        invariant DigitsEnd(stream, old(pos)) == DigitsEnd(stream, pos)
        decreases |stream.tokens| - pos
      {
        :- NextToken();
      }
      return Pass;
    }

    method Whitespace() returns (r: Outcome<ParseError>)
      requires Valid()
      modifies this
      ensures Valid() && Agrees(r, WhitespaceEnd(stream, old(pos)), pos)
    {
      while curr.Some? && IsWhitespace(curr.value.kind)
        invariant Valid()
        invariant WhitespaceEnd(stream, old(pos)) == WhitespaceEnd(stream, pos)
        decreases |stream.tokens| - pos
      {
        :- NextToken();
      }
      return Pass;
    }
  }

  /** The reference definition of `whitespace`: it skips the whole run of whitespace tokens
      at `pos` and stops on the first other token. It fails only when the token source
      panics while that token, or the one after it, is being pulled. */
  lemma {:induction false} WhitespaceRun(ts: TokenStream, pos: nat, q: nat)
    requires ValidPos(ts, pos) && pos <= q <= |ts.tokens|
    requires forall k | pos <= k < q :: IsWhitespace(ts.tokens[k].kind)
    requires q == |ts.tokens| || !IsWhitespace(ts.tokens[q].kind)
    ensures WhitespaceEnd(ts, pos) ==
              if ts.failure.Some? && q + 1 >= |ts.tokens| then Failure(Lex(ts.failure.value)) else Success(q)
    decreases q - pos
  {
    if pos < q && !(ts.failure.Some? && pos + 2 == |ts.tokens|) {
      WhitespaceRun(ts, pos + 1, q);
    }
  }

  /** The reference definition of `digits`, as for `whitespace`. */
  lemma {:induction false} DigitsRun(ts: TokenStream, pos: nat, q: nat)
    requires ValidPos(ts, pos) && pos <= q <= |ts.tokens|
    requires forall k | pos <= k < q :: IsDigit(ts.tokens[k].kind)
    requires q == |ts.tokens| || !IsDigit(ts.tokens[q].kind)
    ensures DigitsEnd(ts, pos) ==
              if ts.failure.Some? && q + 1 >= |ts.tokens| then Failure(Lex(ts.failure.value)) else Success(q)
    decreases q - pos
  {
    if pos < q && !(ts.failure.Some? && pos + 2 == |ts.tokens|) {
      DigitsRun(ts, pos + 1, q);
    }
  }

  /** Every token `whitespace` skips is whitespace. */
  /** Skipping whitespace from inside a run of whitespace ends where skipping it from the
      start of the run does. */
  lemma {:induction false} WhitespacePrefix(ts: TokenStream, pos: nat, a: nat)
    requires ts.failure.None? && pos <= a <= |ts.tokens|
    requires forall k | pos <= k < a :: IsWhitespace(ts.tokens[k].kind)
    ensures WhitespaceEnd(ts, pos) == WhitespaceEnd(ts, a)
    decreases a - pos
  {
    if pos < a {
      WhitespacePrefix(ts, pos + 1, a);
    }
  }

  lemma {:induction false} WhitespaceSpan(ts: TokenStream, pos: nat)
    requires ValidPos(ts, pos) && WhitespaceEnd(ts, pos).Success?
    ensures forall k | pos <= k < WhitespaceEnd(ts, pos).value :: IsWhitespace(ts.tokens[k].kind)
    decreases |ts.tokens| - pos
  {
    if pos < |ts.tokens| && IsWhitespace(ts.tokens[pos].kind) {
      WhitespaceSpan(ts, pos + 1);
    }
  }

  /** Every token `digits` skips is a digit. */
  lemma {:induction false} DigitsSpan(ts: TokenStream, pos: nat)
    requires ValidPos(ts, pos) && DigitsEnd(ts, pos).Success?
    ensures forall k | pos <= k < DigitsEnd(ts, pos).value :: IsDigit(ts.tokens[k].kind)
    decreases |ts.tokens| - pos
  {
    if pos < |ts.tokens| && IsDigit(ts.tokens[pos].kind) {
      DigitsSpan(ts, pos + 1);
    }
  }

  /** Every token `integer` consumes is a digit, except a leading `Minus`. */
  lemma {:induction false} IntegerSpan(ts: TokenStream, pos: nat)
    requires ValidPos(ts, pos) && IntegerEnd(ts, pos).Success?
    ensures forall k | pos <= k < IntegerEnd(ts, pos).value ::
              IsDigit(ts.tokens[k].kind) || (k == pos && IsKindAt(ts, pos, Minus))
  {
    if IsKindAt(ts, pos, Minus) {
      DigitsSpan(ts, pos + 2);
    } else {
      DigitsSpan(ts, pos);
    }
  }

  /** Every token `fraction` consumes after the point is a digit. */
  lemma {:induction false} FractionSpan(ts: TokenStream, pos: nat)
    requires ValidPos(ts, pos) && FractionEnd(ts, pos).Success?
    ensures forall k | pos < k < FractionEnd(ts, pos).value :: IsDigit(ts.tokens[k].kind)
  {
    if IsKindAt(ts, pos, DecimalPoint) {
      DigitsSpan(ts, pos + 1);
    }
  }

  /** Skipping whitespace twice is skipping it once. */
  lemma {:induction false} WhitespaceIdempotent(ts: TokenStream, pos: nat)
    requires ValidPos(ts, pos) && WhitespaceEnd(ts, pos).Success?
    ensures WhitespaceEnd(ts, WhitespaceEnd(ts, pos).value) == WhitespaceEnd(ts, pos)
  {
    var q := WhitespaceEnd(ts, pos).value;
    WhitespaceRun(ts, q, q);
  }

  /** `integer` reports an illegal leading zero exactly when a `Zero` followed by a digit
      starts the number, or follows its `Minus`. */
  lemma {:induction false} IntegerLeadingZero(ts: TokenStream, pos: nat)
    requires ValidPos(ts, pos)
    ensures IntegerEnd(ts, pos).Failure? && IntegerEnd(ts, pos).error.LeadingZero? <==>
              LeadingZeroAt(ts, pos) ||
              (IsKindAt(ts, pos, Minus) && Advance(ts, pos).Success? && LeadingZeroAt(ts, pos + 1))
  {
  }

  /** A `Minus` must be followed by a digit. */
  lemma {:induction false} IntegerNeedsDigitAfterMinus(ts: TokenStream, pos: nat)
    requires ValidPos(ts, pos) && IsKindAt(ts, pos, Minus) && Advance(ts, pos).Success?
    requires !IsKindAt(ts, pos + 1, Digit) && !IsKindAt(ts, pos + 1, Zero)
    ensures IntegerEnd(ts, pos) == Failure(ExpectedEither(Digit, Zero, ts.At(pos + 1)))
  {
  }

  /** `exponent` leaves the digits of an exponent unread: after `E` and a digit, the window
      rests on that digit. */
  lemma {:induction false} ExponentLeavesDigits(ts: TokenStream, pos: nat)
    requires ValidPos(ts, pos) && IsKindAt(ts, pos, E) && IsKindAt(ts, pos + 1, Digit)
    requires Advance(ts, pos).Success?
    ensures ExponentEnd(ts, pos) == Success(pos + 1)
  {
  }
}
