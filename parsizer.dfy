/** The earlier validator of src/parsizer.rs, the one src/main.rs runs. Its window
    procedures are those of module `TokenCursor`; its grammar procedures differ from
    src/parser.rs in three ways: `start` repeats `elements` rather than `element`, objects
    and arrays have no branch for an empty container, and `must_match` also unwraps `peek`,
    so matching the very last token of the input panics. */
module Parsizer {
  import opened Wrappers
  import opened Tokens
  import opened TokenCursor

  /** `must_match`: the current token must be of the given kind and must have a token
      after it; it is consumed. */
  function MatchEnd(ts: TokenStream, pos: nat, kind: JsonKind): (r: Result<nat, ParseError>)
    requires ValidPos(ts, pos)
    ensures r.Success? ==> IsKindAt(ts, pos, kind) && pos + 1 < |ts.tokens| && r.value == pos + 1 && ValidPos(ts, r.value)
    ensures r.Failure? ==> r.error == Expected(kind, ts.At(pos)) || r.error.Lex? ||
                           (pos + 1 == |ts.tokens| && r.error == MissingLookahead(kind, ts.tokens[pos].line))
    ensures !IsKindAt(ts, pos, kind) ==> r == Failure(Expected(kind, ts.At(pos)))
    ensures IsKindAt(ts, pos, kind) && pos + 1 == |ts.tokens| ==> r == Failure(MissingLookahead(kind, ts.tokens[pos].line))
    ensures IsKindAt(ts, pos, kind) && pos + 1 < |ts.tokens| ==> r == Advance(ts, pos)
  {
    if !IsKindAt(ts, pos, kind) then Failure(Expected(kind, ts.At(pos)))
    else if pos + 1 == |ts.tokens| then Failure(MissingLookahead(kind, ts.tokens[pos].line))
    else Advance(ts, pos)
  }

  /** The object branch of `element`: `{`, whitespace, members and `}`. */
  function ObjectEnd(ts: TokenStream, pos: nat): (r: Result<nat, ParseError>)
    requires ValidPos(ts, pos) && IsKindAt(ts, pos, BeginObject)
    ensures r.Success? ==> pos < r.value && ValidPos(ts, r.value)
    decreases |ts.tokens| - pos, 0
  {
    var p1 :- Advance(ts, pos);
    var p2 :- WhitespaceEnd(ts, p1);
    var p3 :- MembersEnd(ts, p2);
    MatchEnd(ts, p3, EndObject)
  }

  /** The array branch of `element`: `[`, elements and `]`. */
  function ArrayEnd(ts: TokenStream, pos: nat): (r: Result<nat, ParseError>)
    requires ValidPos(ts, pos) && IsKindAt(ts, pos, BeginArray)
    ensures r.Success? ==> pos < r.value && ValidPos(ts, r.value)
    decreases |ts.tokens| - pos, 0
  {
    var p1 :- Advance(ts, pos);
    var p2 :- ElementsEnd(ts, p1);
    MatchEnd(ts, p2, EndArray)
  }

  /** The value branches of `element`: an object, an array, a string or keyword token, or
      a number. Anything else is an unexpected token. */
  function ValueEnd(ts: TokenStream, pos: nat): (r: Result<nat, ParseError>)
    requires ValidPos(ts, pos)
    ensures r.Success? ==> pos < r.value && ValidPos(ts, r.value)
    decreases |ts.tokens| - pos, 1
  {
    if IsKindAt(ts, pos, BeginObject) then ObjectEnd(ts, pos)
    else if IsKindAt(ts, pos, BeginArray) then ArrayEnd(ts, pos)
    else if IsKindAt(ts, pos, StringVal) || IsKindAt(ts, pos, True) || IsKindAt(ts, pos, False) || IsKindAt(ts, pos, Null) then
      Advance(ts, pos)
    else if IsKindAt(ts, pos, Minus) || IsKindAt(ts, pos, Digit) || IsKindAt(ts, pos, Zero) then
      NumberEnd(ts, pos)
    else
      Failure(UnexpectedToken(ts.At(pos)))
  }

  /** `element`: optional whitespace, one value, optional whitespace. */
  function ElementEnd(ts: TokenStream, pos: nat): (r: Result<nat, ParseError>)
    requires ValidPos(ts, pos)
    ensures r.Success? ==> pos < r.value && ValidPos(ts, r.value)
    ensures r.Success? ==> r.value == |ts.tokens| || !IsWhitespace(ts.tokens[r.value].kind)
    decreases |ts.tokens| - pos, 2
  {
    var p :- WhitespaceEnd(ts, pos);
    var q :- ValueEnd(ts, p);
    WhitespaceEnd(ts, q)
  }

  /** `elements`: one element, then, after each `ValueSeperator`, another. */
  function ElementsEnd(ts: TokenStream, pos: nat): (r: Result<nat, ParseError>)
    requires ValidPos(ts, pos)
    ensures r.Success? ==> pos < r.value && ValidPos(ts, r.value)
    ensures r.Success? ==> !IsKindAt(ts, r.value, ValueSeperator)
    decreases |ts.tokens| - pos, 3
  {
    var p :- ElementEnd(ts, pos);
    if IsKindAt(ts, p, ValueSeperator) then
      var q :- Advance(ts, p);
      ElementsEnd(ts, q)
    else
      Success(p)
  }

  /** `members`: one member, then, after each `ValueSeperator`, another. */
  function MembersEnd(ts: TokenStream, pos: nat): (r: Result<nat, ParseError>)
    requires ValidPos(ts, pos)
    ensures r.Success? ==> pos < r.value && ValidPos(ts, r.value)
    ensures r.Success? ==> !IsKindAt(ts, r.value, ValueSeperator)
    decreases |ts.tokens| - pos, 1
  {
    var p :- MemberEnd(ts, pos);
    if IsKindAt(ts, p, ValueSeperator) then
      var q :- Advance(ts, p);
      MembersEnd(ts, q)
    else
      Success(p)
  }

  /** `member`: whitespace, a `StringVal` name, whitespace, a `NameSeperator`, an element. */
  function MemberEnd(ts: TokenStream, pos: nat): (r: Result<nat, ParseError>)
    requires ValidPos(ts, pos)
    ensures r.Success? ==> pos < r.value && ValidPos(ts, r.value)
    decreases |ts.tokens| - pos, 0
  {
    var p1 :- WhitespaceEnd(ts, pos);
    var p2 :- MatchEnd(ts, p1, StringVal);
    var p3 :- WhitespaceEnd(ts, p2);
    var p4 :- MatchEnd(ts, p3, NameSeperator);
    ElementEnd(ts, p4)
  }

  /** `start`: comma-separated element lists, one after another, until the token source is
      exhausted. A run that succeeds has read every token and met no lexer panic. */
  function StartEnd(ts: TokenStream, pos: nat): (r: Result<nat, ParseError>)
    requires ValidPos(ts, pos)
    ensures r.Success? ==> r.value == |ts.tokens| && ts.failure.None?
    decreases |ts.tokens| - pos
  {
    if pos < |ts.tokens| then
      var p :- ElementsEnd(ts, pos);
      StartEnd(ts, p)
    else
      Success(pos)
  }

  /** `Parser::new` followed by `start`. */
  function Run(ts: TokenStream): (r: Result<nat, ParseError>)
    ensures r.Success? ==> r.value == |ts.tokens| && ts.failure.None?
  {
    var p :- Primed(ts);
    StartEnd(ts, p)
  }

  /** An array whose elements end on a token other than `]` is rejected with an
      `Expected(EndArray, …)` naming that token. */
  lemma {:induction false} UnclosedArray(ts: TokenStream, pos: nat, q: nat)
    requires ts.failure.None? && IsKindAt(ts, pos, BeginArray)
    requires ElementsEnd(ts, pos + 1) == Success(q) && !IsKindAt(ts, q, EndArray)
    ensures ValueEnd(ts, pos) == Failure(Expected(EndArray, ts.At(q)))
  {
  }

  /** An object whose members, after the `{` and any whitespace, end on a token other than
      `}` is rejected with an `Expected(EndObject, …)` naming that token. */
  lemma {:induction false} UnclosedObject(ts: TokenStream, pos: nat, p: nat, q: nat)
    requires ts.failure.None? && pos < p <= |ts.tokens| && IsKindAt(ts, pos, BeginObject)
    requires forall k | pos < k < p :: IsWhitespace(ts.tokens[k].kind)
    requires p == |ts.tokens| || !IsWhitespace(ts.tokens[p].kind)
    requires MembersEnd(ts, p) == Success(q) && !IsKindAt(ts, q, EndObject)
    ensures ValueEnd(ts, pos) == Failure(Expected(EndObject, ts.At(q)))
  {
    WhitespaceRun(ts, pos + 1, p);
  }

  /** The `Parser` struct of src/parsizer.rs. */
  class Parser {
    const cursor: Cursor

    constructor (c: Cursor)
      ensures cursor == c
    {
      cursor := c;
    }

    /** `Parser::new`. */
    static method New(source: TokenStream) returns (r: Result<Parser, ParseError>)
      ensures r.Success? <==> Primed(source).Success?
      ensures r.Failure? ==> r.error == Primed(source).error
      ensures r.Success? ==> fresh(r.value) && fresh(r.value.cursor)
      ensures r.Success? ==> r.value.cursor.Valid() && r.value.cursor.stream == source && r.value.cursor.pos == 0
    {
      var c :- Cursor.New(source);
      var p := new Parser(c);
      return Success(p);
    }

    method Start() returns (r: Outcome<ParseError>)
      requires cursor.Valid()
      modifies cursor
      ensures cursor.Valid() && Agrees(r, StartEnd(cursor.stream, old(cursor.pos)), cursor.pos)
    {
      while cursor.curr.Some?
        invariant cursor.Valid()
        invariant StartEnd(cursor.stream, old(cursor.pos)) == StartEnd(cursor.stream, cursor.pos)
        decreases |cursor.stream.tokens| - cursor.pos
      {
        :- Elements();
      }
      return Pass;
    }

    method MustMatch(kind: JsonKind) returns (r: Outcome<ParseError>)
      requires cursor.Valid()
      modifies cursor
      ensures cursor.Valid() && Agrees(r, MatchEnd(cursor.stream, old(cursor.pos), kind), cursor.pos)
    {
      if !cursor.IsKind(kind) {
        return Fail(Expected(kind, cursor.curr));
      }
      if cursor.peek.None? {
        return Fail(MissingLookahead(kind, cursor.curr.value.line));
      }
      r := cursor.NextToken();
    }

    method Elements() returns (r: Outcome<ParseError>)
      requires cursor.Valid()
      modifies cursor
      ensures cursor.Valid() && Agrees(r, ElementsEnd(cursor.stream, old(cursor.pos)), cursor.pos)
      decreases |cursor.stream.tokens| - cursor.pos, 3
    {
      r := Element();
      if r.Pass? && cursor.IsKind(ValueSeperator) {
        :- cursor.NextToken();
        r := Elements();
      }
    }

    method Element() returns (r: Outcome<ParseError>)
      requires cursor.Valid()
      modifies cursor
      ensures cursor.Valid() && Agrees(r, ElementEnd(cursor.stream, old(cursor.pos)), cursor.pos)
      decreases |cursor.stream.tokens| - cursor.pos, 2
    {
      r := cursor.Whitespace();
      if r.Pass? {
        :- Value();
        r := cursor.Whitespace();
      }
    }

    /** The branches of `element` between its two `whitespace` calls. */
    method Value() returns (r: Outcome<ParseError>)
      requires cursor.Valid()
      modifies cursor
      ensures cursor.Valid() && Agrees(r, ValueEnd(cursor.stream, old(cursor.pos)), cursor.pos)
      decreases |cursor.stream.tokens| - cursor.pos, 1
    {
      if cursor.IsKind(BeginObject) {
        r := Object();
      } else if cursor.IsKind(BeginArray) {
        r := Array();
      } else if cursor.IsKind(StringVal) || cursor.IsKind(True) || cursor.IsKind(False) || cursor.IsKind(Null) {
        r := cursor.NextToken();
      } else if cursor.IsKind(Minus) || cursor.IsKind(Digit) || cursor.IsKind(Zero) {
        r := cursor.Number();
      } else {
        r := Fail(UnexpectedToken(cursor.curr));
      }
    }

    /** The object branch of `element`. */
    method Object() returns (r: Outcome<ParseError>)
      requires cursor.Valid() && cursor.IsKind(BeginObject)
      modifies cursor
      ensures cursor.Valid() && Agrees(r, ObjectEnd(cursor.stream, old(cursor.pos)), cursor.pos)
      decreases |cursor.stream.tokens| - cursor.pos, 0
    {
      r := cursor.NextToken();
      if r.Pass? {
        :- cursor.Whitespace();
        :- Members();
        r := MustMatch(EndObject);
      }
    }

    /** The array branch of `element`. */
    method Array() returns (r: Outcome<ParseError>)
      requires cursor.Valid() && cursor.IsKind(BeginArray)
      modifies cursor
      ensures cursor.Valid() && Agrees(r, ArrayEnd(cursor.stream, old(cursor.pos)), cursor.pos)
      decreases |cursor.stream.tokens| - cursor.pos, 0
    {
      r := cursor.NextToken();
      if r.Pass? {
        :- Elements();
        r := MustMatch(EndArray);
      }
    }

    method Members() returns (r: Outcome<ParseError>)
      requires cursor.Valid()
      modifies cursor
      ensures cursor.Valid() && Agrees(r, MembersEnd(cursor.stream, old(cursor.pos)), cursor.pos)
      decreases |cursor.stream.tokens| - cursor.pos, 1
    {
      r := Member();
      if r.Pass? && cursor.IsKind(ValueSeperator) {
        :- cursor.NextToken();
        r := Members();
      }
    }

    method Member() returns (r: Outcome<ParseError>)
      requires cursor.Valid()
      modifies cursor
      ensures cursor.Valid() && Agrees(r, MemberEnd(cursor.stream, old(cursor.pos)), cursor.pos)
      decreases |cursor.stream.tokens| - cursor.pos, 0
    {
      r := cursor.Whitespace();
      if r.Pass? {
        :- MustMatch(StringVal);
        :- cursor.Whitespace();
        :- MustMatch(NameSeperator);
        r := Element();
      }
    }
  }
}
