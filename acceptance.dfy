/** What src/parser.rs accepts, stated against an independent description of JSON values:
    every value built from literals, numbers without an exponent, arrays and objects,
    written out as tokens with no whitespace, is accepted as an element, and as a whole
    document. (Numbers with an exponent are left aside because `exponent` does not read the
    exponent's digits; see `Examples.ExponentInArrayRejected`.) */
module Acceptance {
  import opened Wrappers
  import opened Tokens
  import opened TokenCursor
  import Parser

  /** A JSON value at the level of tokens. A string is one `StringVal` token; an object
      lists its member values, each written after a `StringVal` name and a `NameSeperator`. */
  datatype Value =
    | Literal(kind: JsonKind)
    | Number(negative: bool, whole: seq<JsonKind>, fraction: Option<seq<JsonKind>>)
    | Array(items: seq<Value>)
    | Object(members: seq<Value>)

  predicate AllDigits(ds: seq<JsonKind>) {
    forall i | 0 <= i < |ds| :: IsDigit(ds[i])
  }

  /** The JSON grammar's constraints: a literal is a string or keyword; a number has a
      non-empty integer part without a redundant leading zero, and a non-empty fraction. */
  predicate WellFormed(v: Value) {
    match v
    case Literal(k) => k == StringVal || k == True || k == False || k == Null
    case Number(_, whole, fraction) =>
      && 0 < |whole| && AllDigits(whole) && (whole[0] == Zero ==> |whole| == 1)
      && (fraction.Some? ==> 0 < |fraction.value| && AllDigits(fraction.value))
    case Array(items) => AllWellFormed(items)
    case Object(members) => AllWellFormed(members)
  }

  predicate AllWellFormed(vs: seq<Value>) {
    |vs| == 0 || (WellFormed(vs[0]) && AllWellFormed(vs[1..]))
  }

  /** The token kinds of a value, written with no whitespace. */
  function Emit(v: Value): seq<JsonKind>
    decreases v
  {
    match v
    case Literal(k) => [k]
    case Number(negative, whole, fraction) => SignKinds(negative) + whole + FractionKinds(fraction)
    case Array(items) => [BeginArray] + EmitItems(items) + [EndArray]
    case Object(members) => [BeginObject] + EmitMembers(members) + [EndObject]
  }

  function SignKinds(negative: bool): seq<JsonKind> {
    if negative then [Minus] else []
  }

  function FractionKinds(fraction: Option<seq<JsonKind>>): seq<JsonKind> {
    match fraction
    case None => []
    case Some(ds) => [DecimalPoint] + ds
  }

  function EmitItems(items: seq<Value>): seq<JsonKind>
    decreases items
  {
    if |items| == 0 then []
    else if |items| == 1 then Emit(items[0])
    else Emit(items[0]) + [ValueSeperator] + EmitItems(items[1..])
  }

  function EmitMembers(members: seq<Value>): seq<JsonKind>
    decreases members
  {
    if |members| == 0 then []
    else if |members| == 1 then [StringVal, NameSeperator] + Emit(members[0])
    else [StringVal, NameSeperator] + (Emit(members[0]) + [ValueSeperator] + EmitMembers(members[1..]))
  }

  /** The tokens of `ts` from `pos` on have the kinds `ks`. */
  ghost predicate Spells(ts: TokenStream, pos: nat, ks: seq<JsonKind>) {
    pos + |ks| <= |ts.tokens| && forall i | 0 <= i < |ks| :: ts.tokens[pos + i].kind == ks[i]
  }

  /** The kinds that may follow a value inside a document: a comma or a closing bracket. */
  predicate IsCloser(k: JsonKind) {
    k == ValueSeperator || k == EndArray || k == EndObject
  }

  /** What may follow a value: the end of the input, or a closer. */
  ghost predicate Closer(ts: TokenStream, q: nat) {
    q == |ts.tokens| || (q < |ts.tokens| && IsCloser(ts.tokens[q].kind))
  }

  /** What may follow a value that is not the last thing in its list: a closer, the end of
      the input, or whitespace. */
  ghost predicate Follows(ts: TokenStream, q: nat) {
    Closer(ts, q) || (q < |ts.tokens| && IsWhitespace(ts.tokens[q].kind))
  }

  /** Anything that may follow a value ends a digit run, a fraction and an exponent. */
  lemma {:induction false} FollowsStops(ts: TokenStream, q: nat)
    requires Follows(ts, q)
    ensures q == |ts.tokens| || !IsDigit(ts.tokens[q].kind)
    ensures !IsKindAt(ts, q, DecimalPoint) && !IsKindAt(ts, q, E)
  {
  }

  /** A closer ends whitespace, digit runs, a fraction and an exponent. */
  lemma {:induction false} CloserStops(ts: TokenStream, q: nat)
    requires Closer(ts, q)
    ensures q == |ts.tokens| || (q < |ts.tokens| && !IsWhitespace(ts.tokens[q].kind) && !IsDigit(ts.tokens[q].kind))
    ensures !IsKindAt(ts, q, DecimalPoint) && !IsKindAt(ts, q, E) && !IsKindAt(ts, q, ValueSeperator) ==>
              q == |ts.tokens| || ts.tokens[q].kind == EndArray || ts.tokens[q].kind == EndObject
  {
  }

  /** A spelling of `a + b` splits into a spelling of `a` followed by one of `b`. */
  lemma {:induction false} SpellsSplit(ts: TokenStream, pos: nat, a: seq<JsonKind>, b: seq<JsonKind>)
    requires Spells(ts, pos, a + b)
    ensures Spells(ts, pos, a) && Spells(ts, pos + |a|, b)
  {
    forall i | 0 <= i < |a|
      ensures ts.tokens[pos + i].kind == a[i]
    {
      assert (a + b)[i] == a[i];
    }
    forall i | 0 <= i < |b|
      ensures ts.tokens[pos + |a| + i].kind == b[i]
    {
      assert (a + b)[|a| + i] == b[i];
    }
  }

  lemma {:induction false} KindAt(ts: TokenStream, pos: nat, ks: seq<JsonKind>, i: nat)
    requires Spells(ts, pos, ks) && i < |ks|
    ensures pos + i < |ts.tokens| && ts.tokens[pos + i].kind == ks[i]
  {
  }

  /** `[o] + mid + [c]`: an opening kind, a middle part and a closing kind. */
  lemma {:induction false} Bracketed(ts: TokenStream, pos: nat, o: JsonKind, mid: seq<JsonKind>, c: JsonKind)
    requires Spells(ts, pos, [o] + mid + [c])
    ensures IsKindAt(ts, pos, o) && Spells(ts, pos + 1, mid) && IsKindAt(ts, pos + 1 + |mid|, c)
  {
    SpellsSplit(ts, pos, [o] + mid, [c]);
    SpellsSplit(ts, pos, [o], mid);
    KindAt(ts, pos, [o], 0);
    KindAt(ts, pos + 1 + |mid|, [c], 0);
  }

  /** `head + [ValueSeperator] + rest`: two parts around a comma. */
  lemma {:induction false} Separated(ts: TokenStream, pos: nat, head: seq<JsonKind>, rest: seq<JsonKind>)
    requires Spells(ts, pos, head + [ValueSeperator] + rest)
    ensures Spells(ts, pos, head) && IsKindAt(ts, pos + |head|, ValueSeperator)
    ensures Spells(ts, pos + |head| + 1, rest)
  {
    SpellsSplit(ts, pos, head + [ValueSeperator], rest);
    SpellsSplit(ts, pos, head, [ValueSeperator]);
    KindAt(ts, pos + |head|, [ValueSeperator], 0);
  }

  /** `[StringVal, NameSeperator] + (head + [ValueSeperator] + rest)`: a member followed by a
      comma and more. */
  lemma {:induction false} NamedSeparated(ts: TokenStream, pos: nat, head: seq<JsonKind>, rest: seq<JsonKind>)
    requires Spells(ts, pos, [StringVal, NameSeperator] + (head + [ValueSeperator] + rest))
    ensures IsKindAt(ts, pos, StringVal) && IsKindAt(ts, pos + 1, NameSeperator)
    ensures Spells(ts, pos + 2, head) && IsKindAt(ts, pos + 2 + |head|, ValueSeperator)
    ensures Spells(ts, pos + 2 + |head| + 1, rest)
  {
    Named(ts, pos, head + [ValueSeperator] + rest);
    Separated(ts, pos + 2, head, rest);
  }

  /** `[StringVal, NameSeperator] + body`: a name, a colon and what follows. */
  lemma {:induction false} Named(ts: TokenStream, pos: nat, body: seq<JsonKind>)
    requires Spells(ts, pos, [StringVal, NameSeperator] + body)
    ensures IsKindAt(ts, pos, StringVal) && IsKindAt(ts, pos + 1, NameSeperator)
    ensures Spells(ts, pos + 2, body)
  {
    SpellsSplit(ts, pos, [StringVal, NameSeperator], body);
    KindAt(ts, pos, [StringVal, NameSeperator], 0);
    KindAt(ts, pos, [StringVal, NameSeperator], 1);
  }

  /** A value starts with a token that begins a value, never with whitespace or a closer. */
  lemma {:induction false} EmitStart(v: Value)
    requires WellFormed(v)
    ensures 0 < |Emit(v)| && !IsWhitespace(Emit(v)[0]) && !IsCloser(Emit(v)[0])
  {
  }

  // How `Emit` lays out each kind of value, stated apart from any token stream.

  lemma {:induction false} NumberShape(v: Value)
    requires v.Number?
    ensures Emit(v) == SignKinds(v.negative) + v.whole + FractionKinds(v.fraction)
  {
  }

  lemma {:induction false} ArrayShape(v: Value)
    requires v.Array?
    ensures Emit(v) == [BeginArray] + EmitItems(v.items) + [EndArray]
  {
  }

  lemma {:induction false} ObjectShape(v: Value)
    requires v.Object?
    ensures Emit(v) == [BeginObject] + EmitMembers(v.members) + [EndObject]
  {
  }

  lemma {:induction false} ItemsShape(items: seq<Value>)
    requires 1 < |items|
    ensures EmitItems(items) == Emit(items[0]) + [ValueSeperator] + EmitItems(items[1..])
  {
  }

  /** The first item's first token opens the list. */
  lemma {:induction false} ItemsStart(items: seq<Value>)
    requires 0 < |items| && WellFormed(items[0])
    ensures 0 < |EmitItems(items)| && !IsWhitespace(EmitItems(items)[0]) && !IsCloser(EmitItems(items)[0])
  {
    EmitStart(items[0]);
    if 1 < |items| {
      ItemsShape(items);
    }
  }

  /** A list of members opens with a name. */
  lemma {:induction false} MembersStart(members: seq<Value>)
    requires 0 < |members|
    ensures 0 < |EmitMembers(members)| && EmitMembers(members)[0] == StringVal
  {
  }

  lemma {:induction false} MembersShape(members: seq<Value>)
    requires 1 < |members|
    ensures EmitMembers(members) ==
              [StringVal, NameSeperator] + (Emit(members[0]) + [ValueSeperator] + EmitMembers(members[1..]))
  {
  }

  // The same layouts, carried over to a spelling of the value.

  lemma {:induction false} NumberSpelled(ts: TokenStream, pos: nat, v: Value)
    requires v.Number? && Spells(ts, pos, Emit(v))
    ensures Spells(ts, pos, SignKinds(v.negative) + v.whole + FractionKinds(v.fraction))
    ensures |Emit(v)| == |SignKinds(v.negative)| + |v.whole| + |FractionKinds(v.fraction)|
  {
    NumberShape(v);
  }

  lemma {:induction false} ArraySpelled(ts: TokenStream, pos: nat, v: Value)
    requires v.Array? && Spells(ts, pos, Emit(v))
    ensures Spells(ts, pos, [BeginArray] + EmitItems(v.items) + [EndArray])
    ensures |Emit(v)| == |EmitItems(v.items)| + 2
  {
    ArrayShape(v);
  }

  lemma {:induction false} ObjectSpelled(ts: TokenStream, pos: nat, v: Value)
    requires v.Object? && Spells(ts, pos, Emit(v))
    ensures Spells(ts, pos, [BeginObject] + EmitMembers(v.members) + [EndObject])
    ensures |Emit(v)| == |EmitMembers(v.members)| + 2
  {
    ObjectShape(v);
  }

  lemma {:induction false} ItemsSpelled(ts: TokenStream, pos: nat, items: seq<Value>)
    requires 1 < |items| && Spells(ts, pos, EmitItems(items))
    ensures Spells(ts, pos, Emit(items[0]) + [ValueSeperator] + EmitItems(items[1..]))
    ensures |EmitItems(items)| == |Emit(items[0])| + 1 + |EmitItems(items[1..])|
  {
    ItemsShape(items);
  }

  lemma {:induction false} LastMemberSpelled(ts: TokenStream, pos: nat, members: seq<Value>)
    requires |members| == 1 && Spells(ts, pos, EmitMembers(members))
    ensures Spells(ts, pos, [StringVal, NameSeperator] + Emit(members[0]))
    ensures |EmitMembers(members)| == 2 + |Emit(members[0])|
  {
  }

  lemma {:induction false} MembersSpelled(ts: TokenStream, pos: nat, members: seq<Value>)
    requires 1 < |members| && Spells(ts, pos, EmitMembers(members))
    ensures Spells(ts, pos, [StringVal, NameSeperator] + (Emit(members[0]) + [ValueSeperator] + EmitMembers(members[1..])))
    ensures |EmitMembers(members)| == 2 + |Emit(members[0])| + 1 + |EmitMembers(members[1..])|
  {
    MembersShape(members);
  }

  /** `integer` on an optional `Minus` at `pos` followed by the digit run `[w, f)`. */
  lemma {:induction false} IntegerAccepted(ts: TokenStream, pos: nat, w: nat, f: nat)
    requires ts.failure.None? && pos <= w < f <= |ts.tokens|
    requires w == pos || (w == pos + 1 && IsKindAt(ts, pos, Minus))
    requires forall k | w <= k < f :: IsDigit(ts.tokens[k].kind)
    requires f == |ts.tokens| || !IsDigit(ts.tokens[f].kind)
    requires ts.tokens[w].kind == Zero ==> f == w + 1
    ensures IntegerEnd(ts, pos) == Success(f)
  {
    assert !LeadingZeroAt(ts, w);
    if w == pos {
      DigitsRun(ts, w, f);
    } else {
      DigitsRun(ts, w + 1, f);
    }
  }

  /** `fraction` on a `DecimalPoint` at `f` followed by the digit run `(f, e)`. */
  lemma {:induction false} FractionAccepted(ts: TokenStream, f: nat, e: nat)
    requires ts.failure.None? && f < e <= |ts.tokens| && IsKindAt(ts, f, DecimalPoint)
    requires forall k | f < k < e :: IsDigit(ts.tokens[k].kind)
    requires e == |ts.tokens| || !IsDigit(ts.tokens[e].kind)
    ensures FractionEnd(ts, f) == Success(e)
  {
    DigitsRun(ts, f + 1, e);
  }

  /** The digits of `ds` are spelled at `[w, w + |ds|)`. */
  lemma {:induction false} DigitRun(ts: TokenStream, w: nat, ds: seq<JsonKind>)
    requires Spells(ts, w, ds) && AllDigits(ds)
    ensures w + |ds| <= |ts.tokens|
    ensures forall k | w <= k < w + |ds| :: IsDigit(ts.tokens[k].kind)
  {
    if |ds| > 0 {
      KindAt(ts, w, ds, |ds| - 1);
    }
    forall k | w <= k < w + |ds|
      ensures IsDigit(ts.tokens[k].kind)
    {
      KindAt(ts, w, ds, k - w);
    }
  }

  // Single steps of src/parser.rs, stated over positions only.

  lemma {:induction false} LiteralStep(ts: TokenStream, pos: nat)
    requires ts.failure.None? && pos < |ts.tokens|
    requires var k := ts.tokens[pos].kind; k == StringVal || k == True || k == False || k == Null
    ensures Parser.ValueEnd(ts, pos) == Success(pos + 1)
  {
  }

  lemma {:induction false} NumberStep(ts: TokenStream, pos: nat, f: nat, e: nat)
    requires ts.failure.None? && pos < |ts.tokens|
    requires var k := ts.tokens[pos].kind; k == Minus || k == Digit || k == Zero
    requires IntegerEnd(ts, pos) == Success(f) && FractionEnd(ts, f) == Success(e) && !IsKindAt(ts, e, E)
    ensures Parser.ValueEnd(ts, pos) == Success(e)
  {
    assert NumberEnd(ts, pos) == Success(e);
  }

  lemma {:induction false} EmptyArrayStep(ts: TokenStream, pos: nat)
    requires ts.failure.None? && IsKindAt(ts, pos, BeginArray) && IsKindAt(ts, pos + 1, EndArray)
    ensures Parser.ValueEnd(ts, pos) == Success(pos + 2)
  {
    WhitespaceRun(ts, pos + 1, pos + 1);
  }

  lemma {:induction false} EmptyObjectStep(ts: TokenStream, pos: nat)
    requires ts.failure.None? && IsKindAt(ts, pos, BeginObject) && IsKindAt(ts, pos + 1, EndObject)
    ensures Parser.ValueEnd(ts, pos) == Success(pos + 2)
  {
    WhitespaceRun(ts, pos + 1, pos + 1);
  }

  lemma {:induction false} ArrayStep(ts: TokenStream, pos: nat, close: nat)
    requires ts.failure.None? && IsKindAt(ts, pos, BeginArray) && pos + 1 < |ts.tokens|
    requires !IsWhitespace(ts.tokens[pos + 1].kind) && ts.tokens[pos + 1].kind != EndArray
    requires Parser.ElementsEnd(ts, pos + 1) == Success(close) && IsKindAt(ts, close, EndArray)
    ensures Parser.ValueEnd(ts, pos) == Success(close + 1)
  {
    WhitespaceRun(ts, pos + 1, pos + 1);
  }

  lemma {:induction false} ObjectStep(ts: TokenStream, pos: nat, close: nat)
    requires ts.failure.None? && IsKindAt(ts, pos, BeginObject) && pos + 1 < |ts.tokens|
    requires !IsWhitespace(ts.tokens[pos + 1].kind) && ts.tokens[pos + 1].kind != EndObject
    requires Parser.MembersEnd(ts, pos + 1) == Success(close) && IsKindAt(ts, close, EndObject)
    ensures Parser.ValueEnd(ts, pos) == Success(close + 1)
  {
    WhitespaceRun(ts, pos + 1, pos + 1);
  }

  lemma {:induction false} ElementStep(ts: TokenStream, pos: nat, q: nat)
    requires ts.failure.None? && pos < |ts.tokens| && !IsWhitespace(ts.tokens[pos].kind)
    requires Parser.ValueEnd(ts, pos) == Success(q)
    requires q == |ts.tokens| || !IsWhitespace(ts.tokens[q].kind)
    ensures Parser.ElementEnd(ts, pos) == Success(q)
  {
    WhitespaceRun(ts, pos, pos);
    WhitespaceRun(ts, q, q);
  }

  lemma {:induction false} ItemsStep(ts: TokenStream, pos: nat, p: nat, e: nat)
    requires ts.failure.None? && pos <= |ts.tokens| && Parser.ElementEnd(ts, pos) == Success(p)
    requires IsKindAt(ts, p, ValueSeperator) && Parser.ElementsEnd(ts, p + 1) == Success(e)
    ensures Parser.ElementsEnd(ts, pos) == Success(e)
  {
    assert Advance(ts, p) == Success(p + 1);
    assert Parser.ElementsEnd(ts, pos) == Parser.ElementsEnd(ts, p + 1);
  }

  lemma {:induction false} ItemsLast(ts: TokenStream, pos: nat, p: nat)
    requires ts.failure.None? && pos <= |ts.tokens| && Parser.ElementEnd(ts, pos) == Success(p)
    requires !IsKindAt(ts, p, ValueSeperator)
    ensures Parser.ElementsEnd(ts, pos) == Success(p)
  {
  }

  lemma {:induction false} MembersStep(ts: TokenStream, pos: nat, p: nat, e: nat)
    requires ts.failure.None? && pos <= |ts.tokens| && Parser.MemberEnd(ts, pos) == Success(p)
    requires IsKindAt(ts, p, ValueSeperator) && Parser.MembersEnd(ts, p + 1) == Success(e)
    ensures Parser.MembersEnd(ts, pos) == Success(e)
  {
    assert Advance(ts, p) == Success(p + 1);
  }

  lemma {:induction false} MembersLast(ts: TokenStream, pos: nat, p: nat)
    requires ts.failure.None? && pos <= |ts.tokens| && Parser.MemberEnd(ts, pos) == Success(p)
    requires !IsKindAt(ts, p, ValueSeperator)
    ensures Parser.MembersEnd(ts, pos) == Success(p)
  {
  }

  lemma {:induction false} MemberStep(ts: TokenStream, pos: nat, q: nat)
    requires ts.failure.None? && IsKindAt(ts, pos, StringVal) && IsKindAt(ts, pos + 1, NameSeperator)
    requires Parser.ElementEnd(ts, pos + 2) == Success(q)
    ensures Parser.MemberEnd(ts, pos) == Success(q)
  {
    WhitespaceRun(ts, pos, pos);
    WhitespaceRun(ts, pos + 1, pos + 1);
    assert Parser.MatchEnd(ts, pos, StringVal) == Success(pos + 1);
    assert Parser.MatchEnd(ts, pos + 1, NameSeperator) == Success(pos + 2);
  }

  // The value-level induction.

  /** The integer part of a number: an optional sign, then digits starting at `w` and ending
      at `f`. */
  lemma {:induction false} IntegerParts(ts: TokenStream, pos: nat, negative: bool, whole: seq<JsonKind>)
    returns (w: nat, f: nat)
    requires 0 < |whole| && AllDigits(whole) && (whole[0] == Zero ==> |whole| == 1)
    requires Spells(ts, pos, SignKinds(negative) + whole)
    ensures w == pos + |SignKinds(negative)| && f == w + |whole| && f <= |ts.tokens|
    ensures w == pos || (w == pos + 1 && IsKindAt(ts, pos, Minus))
    ensures var k := ts.tokens[pos].kind; k == Minus || k == Digit || k == Zero
    ensures forall k | w <= k < f :: IsDigit(ts.tokens[k].kind)
    ensures ts.tokens[w].kind == Zero ==> f == w + 1
  {
    SpellsSplit(ts, pos, SignKinds(negative), whole);
    w := pos + |SignKinds(negative)|;
    f := w + |whole|;
    KindAt(ts, w, whole, 0);
    DigitRun(ts, w, whole);
    if negative {
      KindAt(ts, pos, SignKinds(negative), 0);
    }
  }

  /** The fraction of a number: a point at `f`, then its digits. */
  lemma {:induction false} FractionParts(ts: TokenStream, f: nat, ds: seq<JsonKind>)
    requires 0 < |ds| && AllDigits(ds) && Spells(ts, f, FractionKinds(Some(ds)))
    ensures |FractionKinds(Some(ds))| == 1 + |ds| && f + 1 + |ds| <= |ts.tokens|
    ensures IsKindAt(ts, f, DecimalPoint) && forall k | f < k < f + 1 + |ds| :: IsDigit(ts.tokens[k].kind)
  {
    KindAt(ts, f, FractionKinds(Some(ds)), 0);
    SpellsSplit(ts, f, [DecimalPoint], ds);
    DigitRun(ts, f + 1, ds);
  }

  /** Where the parts of a number ending at `e` lie: the optional sign at `pos`, the integer
      digits at `[w, f)` and, when there is a fraction, its point at `f` and its digits up to
      `e`. */
  lemma {:induction false} NumberParts(ts: TokenStream, pos: nat, v: Value, e: nat) returns (w: nat, f: nat)
    requires v.Number? && WellFormed(v) && Spells(ts, pos, Emit(v)) && e == pos + |Emit(v)|
    ensures pos <= w < f <= e <= |ts.tokens|
    ensures w == pos || (w == pos + 1 && IsKindAt(ts, pos, Minus))
    ensures var k := ts.tokens[pos].kind; k == Minus || k == Digit || k == Zero
    ensures forall k | w <= k < f :: IsDigit(ts.tokens[k].kind)
    ensures ts.tokens[w].kind == Zero ==> f == w + 1
    ensures v.fraction.None? ==> f == e
    ensures v.fraction.Some? ==> f < e && IsKindAt(ts, f, DecimalPoint) &&
                                 forall k | f < k < e :: IsDigit(ts.tokens[k].kind)
  {
    NumberSpelled(ts, pos, v);
    SpellsSplit(ts, pos, SignKinds(v.negative) + v.whole, FractionKinds(v.fraction));
    w, f := IntegerParts(ts, pos, v.negative, v.whole);
    if v.fraction.Some? {
      FractionParts(ts, f, v.fraction.value);
    }
  }

  lemma {:induction false} NumberAccepted(ts: TokenStream, pos: nat, v: Value, e: nat)
    requires ts.failure.None? && v.Number? && WellFormed(v)
    requires Spells(ts, pos, Emit(v)) && e == pos + |Emit(v)| && Follows(ts, e)
    ensures Parser.ValueEnd(ts, pos) == Success(e)
  {
    var w, f := NumberParts(ts, pos, v, e);
    FollowsStops(ts, e);
    IntegerAccepted(ts, pos, w, f);
    if v.fraction.None? {
      assert FractionEnd(ts, f) == Success(f);
    } else {
      FractionAccepted(ts, f, e);
    }
    NumberStep(ts, pos, f, e);
  }

  lemma {:induction false} ValueAccepted(ts: TokenStream, pos: nat, v: Value, q: nat)
    requires ts.failure.None? && WellFormed(v)
    requires Spells(ts, pos, Emit(v)) && q == pos + |Emit(v)| && Follows(ts, q)
    ensures Parser.ValueEnd(ts, pos) == Success(q)
    decreases v, 1
  {
    match v
    case Literal(k) =>
      KindAt(ts, pos, Emit(v), 0);
      LiteralStep(ts, pos);
    case Number(_, _, _) =>
      NumberAccepted(ts, pos, v, q);
    case Array(items) =>
      ArrayAccepted(ts, pos, v, q);
    case Object(members) =>
      ObjectAccepted(ts, pos, v, q);
  }

  /** The brackets of an array ending at `q` and the kind of its first element. */
  lemma {:induction false} ArrayParts(ts: TokenStream, pos: nat, v: Value, q: nat)
    requires v.Array? && WellFormed(v) && Spells(ts, pos, Emit(v)) && q == pos + |Emit(v)|
    ensures q == pos + 1 + |EmitItems(v.items)| + 1
    ensures IsKindAt(ts, pos, BeginArray) && IsKindAt(ts, q - 1, EndArray)
    ensures Spells(ts, pos + 1, EmitItems(v.items))
    ensures 0 < |v.items| ==> pos + 1 < |ts.tokens| && !IsWhitespace(ts.tokens[pos + 1].kind) && !IsCloser(ts.tokens[pos + 1].kind)
  {
    ArraySpelled(ts, pos, v);
    Bracketed(ts, pos, BeginArray, EmitItems(v.items), EndArray);
    if 0 < |v.items| {
      ItemsStart(v.items);
      KindAt(ts, pos + 1, EmitItems(v.items), 0);
    }
  }

  lemma {:induction false} ArrayAccepted(ts: TokenStream, pos: nat, v: Value, q: nat)
    requires ts.failure.None? && v.Array? && WellFormed(v)
    requires Spells(ts, pos, Emit(v)) && q == pos + |Emit(v)| && Follows(ts, q)
    ensures Parser.ValueEnd(ts, pos) == Success(q)
    decreases v, 0
  {
    ArrayParts(ts, pos, v, q);
    var close := q - 1;
    if |v.items| == 0 {
      EmptyArrayStep(ts, pos);
    } else {
      ItemsAccepted(ts, pos + 1, v.items, close);
      ArrayStep(ts, pos, close);
    }
  }

  /** The braces of an object ending at `q` and the name that opens its first member. */
  lemma {:induction false} ObjectParts(ts: TokenStream, pos: nat, v: Value, q: nat)
    requires v.Object? && WellFormed(v) && Spells(ts, pos, Emit(v)) && q == pos + |Emit(v)|
    ensures q == pos + 1 + |EmitMembers(v.members)| + 1
    ensures IsKindAt(ts, pos, BeginObject) && IsKindAt(ts, q - 1, EndObject)
    ensures Spells(ts, pos + 1, EmitMembers(v.members))
    ensures 0 < |v.members| ==> IsKindAt(ts, pos + 1, StringVal)
  {
    ObjectSpelled(ts, pos, v);
    Bracketed(ts, pos, BeginObject, EmitMembers(v.members), EndObject);
    if 0 < |v.members| {
      MembersStart(v.members);
      KindAt(ts, pos + 1, EmitMembers(v.members), 0);
    }
  }

  lemma {:induction false} ObjectAccepted(ts: TokenStream, pos: nat, v: Value, q: nat)
    requires ts.failure.None? && v.Object? && WellFormed(v)
    requires Spells(ts, pos, Emit(v)) && q == pos + |Emit(v)| && Follows(ts, q)
    ensures Parser.ValueEnd(ts, pos) == Success(q)
    decreases v, 0
  {
    ObjectParts(ts, pos, v, q);
    var close := q - 1;
    if |v.members| == 0 {
      EmptyObjectStep(ts, pos);
    } else {
      MembersAccepted(ts, pos + 1, v.members, close);
      ObjectStep(ts, pos, close);
    }
  }

  /** An element: a value followed by a closer or the end of the input. */
  lemma {:induction false} ElementAccepted(ts: TokenStream, pos: nat, v: Value, q: nat)
    requires ts.failure.None? && WellFormed(v)
    requires Spells(ts, pos, Emit(v)) && q == pos + |Emit(v)| && Closer(ts, q)
    ensures Parser.ElementEnd(ts, pos) == Success(q)
    decreases v, 2
  {
    EmitStart(v);
    KindAt(ts, pos, Emit(v), 0);
    CloserStops(ts, q);
    assert Follows(ts, q);
    ValueAccepted(ts, pos, v, q);
    ElementStep(ts, pos, q);
  }

  /** The first of a list of well-formed values and the rest are well-formed. */
  lemma {:induction false} WellFormedSplit(vs: seq<Value>)
    requires 0 < |vs| && AllWellFormed(vs)
    ensures WellFormed(vs[0]) && AllWellFormed(vs[1..])
  {
  }

  /** A list of one item is that item. */
  lemma {:induction false} LastItemSpelled(ts: TokenStream, pos: nat, items: seq<Value>)
    requires |items| == 1 && Spells(ts, pos, EmitItems(items))
    ensures Spells(ts, pos, Emit(items[0])) && |EmitItems(items)| == |Emit(items[0])|
  {
  }

  /** A list of two or more items, closed at `e`, splits into its first element, a comma and
      the rest. */
  lemma {:induction false} ItemsSplit(ts: TokenStream, pos: nat, items: seq<Value>, e: nat) returns (h: nat)
    requires 1 < |items|
    requires Spells(ts, pos, EmitItems(items)) && e == pos + |EmitItems(items)|
    ensures h == pos + |Emit(items[0])|
    ensures && Spells(ts, pos, Emit(items[0])) && IsKindAt(ts, h, ValueSeperator) && Closer(ts, h)
            && Spells(ts, h + 1, EmitItems(items[1..])) && e == h + 1 + |EmitItems(items[1..])|
  {
    ItemsSpelled(ts, pos, items);
    Separated(ts, pos, Emit(items[0]), EmitItems(items[1..]));
    h := pos + |Emit(items[0])|;
  }

  /** `elements` reads a list of items up to the closing bracket at `e`. */
  lemma {:induction false} ItemsAccepted(ts: TokenStream, pos: nat, items: seq<Value>, e: nat)
    requires ts.failure.None? && 0 < |items| && AllWellFormed(items)
    requires Spells(ts, pos, EmitItems(items)) && e == pos + |EmitItems(items)| && IsKindAt(ts, e, EndArray)
    ensures Parser.ElementsEnd(ts, pos) == Success(e)
    decreases items, 3
  {
    if |items| == 1 {
      WellFormedSplit(items);
      LastItemSpelled(ts, pos, items);
      ElementAccepted(ts, pos, items[0], e);
      ItemsLast(ts, pos, e);
    } else {
      MoreItemsAccepted(ts, pos, items, e);
    }
  }

  lemma {:induction false} MoreItemsAccepted(ts: TokenStream, pos: nat, items: seq<Value>, e: nat)
    requires ts.failure.None? && 1 < |items| && AllWellFormed(items)
    requires Spells(ts, pos, EmitItems(items)) && e == pos + |EmitItems(items)| && IsKindAt(ts, e, EndArray)
    ensures Parser.ElementsEnd(ts, pos) == Success(e)
    decreases items, 2
  {
    var h := ItemsSplit(ts, pos, items, e);
    WellFormedSplit(items);
    ItemsCons(ts, pos, items, h, e);
  }

  /** An element ending at a comma at `h`, followed by more items up to `e`. */
  lemma {:induction false} ItemsCons(ts: TokenStream, pos: nat, items: seq<Value>, h: nat, e: nat)
    requires ts.failure.None? && 1 < |items| && WellFormed(items[0]) && AllWellFormed(items[1..])
    requires Spells(ts, pos, Emit(items[0])) && h == pos + |Emit(items[0])|
    requires IsKindAt(ts, h, ValueSeperator) && Closer(ts, h)
    requires Spells(ts, h + 1, EmitItems(items[1..])) && e == h + 1 + |EmitItems(items[1..])|
    requires IsKindAt(ts, e, EndArray)
    ensures Parser.ElementsEnd(ts, pos) == Success(e)
    decreases items, 1
  {
    ItemsAccepted(ts, h + 1, items[1..], e);
    ElementAccepted(ts, pos, items[0], h);
    ItemsStep(ts, pos, h, e);
  }

  /** The first member of a list: a name, a colon and a value. */
  lemma {:induction false} MemberHead(ts: TokenStream, pos: nat, members: seq<Value>)
    requires 0 < |members| && AllWellFormed(members)
    requires Spells(ts, pos, EmitMembers(members))
    ensures WellFormed(members[0]) && IsKindAt(ts, pos, StringVal) && IsKindAt(ts, pos + 1, NameSeperator)
    ensures Spells(ts, pos + 2, Emit(members[0]))
    ensures |members| == 1 ==> |EmitMembers(members)| == 2 + |Emit(members[0])|
  {
    if |members| == 1 {
      LastMemberSpelled(ts, pos, members);
      Named(ts, pos, Emit(members[0]));
    } else {
      MembersSpelled(ts, pos, members);
      NamedSeparated(ts, pos, Emit(members[0]), EmitMembers(members[1..]));
    }
  }

  /** A list of two or more members, closed at `e`, splits into its first member, a comma
      and the rest. */
  lemma {:induction false} MembersSplit(ts: TokenStream, pos: nat, members: seq<Value>, e: nat) returns (h: nat)
    requires 1 < |members|
    requires Spells(ts, pos, EmitMembers(members)) && e == pos + |EmitMembers(members)|
    ensures h == pos + 2 + |Emit(members[0])|
    ensures && IsKindAt(ts, h, ValueSeperator) && Closer(ts, h)
            && Spells(ts, h + 1, EmitMembers(members[1..])) && e == h + 1 + |EmitMembers(members[1..])|
  {
    MembersSpelled(ts, pos, members);
    NamedSeparated(ts, pos, Emit(members[0]), EmitMembers(members[1..]));
    h := pos + 2 + |Emit(members[0])|;
  }

  /** `members` reads a list of members up to the closing brace at `e`. */
  lemma {:induction false} MembersAccepted(ts: TokenStream, pos: nat, members: seq<Value>, e: nat)
    requires ts.failure.None? && 0 < |members| && AllWellFormed(members)
    requires Spells(ts, pos, EmitMembers(members)) && e == pos + |EmitMembers(members)| && IsKindAt(ts, e, EndObject)
    ensures Parser.MembersEnd(ts, pos) == Success(e)
    decreases members, 3
  {
    if |members| == 1 {
      MemberHead(ts, pos, members);
      MemberAccepted(ts, pos, members[0], e);
      MembersLast(ts, pos, e);
    } else {
      MoreMembersAccepted(ts, pos, members, e);
    }
  }

  lemma {:induction false} MoreMembersAccepted(ts: TokenStream, pos: nat, members: seq<Value>, e: nat)
    requires ts.failure.None? && 1 < |members| && AllWellFormed(members)
    requires Spells(ts, pos, EmitMembers(members)) && e == pos + |EmitMembers(members)| && IsKindAt(ts, e, EndObject)
    ensures Parser.MembersEnd(ts, pos) == Success(e)
    decreases members, 2
  {
    MemberHead(ts, pos, members);
    var h := MembersSplit(ts, pos, members, e);
    WellFormedSplit(members);
    MembersCons(ts, pos, members, h, e);
  }

  /** A member ending at a comma at `h`, followed by more members up to `e`. */
  lemma {:induction false} MembersCons(ts: TokenStream, pos: nat, members: seq<Value>, h: nat, e: nat)
    requires ts.failure.None? && 1 < |members| && WellFormed(members[0]) && AllWellFormed(members[1..])
    requires IsKindAt(ts, pos, StringVal) && IsKindAt(ts, pos + 1, NameSeperator)
    requires Spells(ts, pos + 2, Emit(members[0])) && h == pos + 2 + |Emit(members[0])|
    requires IsKindAt(ts, h, ValueSeperator) && Closer(ts, h)
    requires Spells(ts, h + 1, EmitMembers(members[1..])) && e == h + 1 + |EmitMembers(members[1..])|
    requires IsKindAt(ts, e, EndObject)
    ensures Parser.MembersEnd(ts, pos) == Success(e)
    decreases members, 1
  {
    MembersAccepted(ts, h + 1, members[1..], e);
    MemberAccepted(ts, pos, members[0], h);
    MembersStep(ts, pos, h, e);
  }

  /** A member: a name, a colon and an element, followed by a closer at `q`. */
  lemma {:induction false} MemberAccepted(ts: TokenStream, pos: nat, v: Value, q: nat)
    requires ts.failure.None? && WellFormed(v)
    requires IsKindAt(ts, pos, StringVal) && IsKindAt(ts, pos + 1, NameSeperator)
    requires Spells(ts, pos + 2, Emit(v)) && q == pos + 2 + |Emit(v)| && Closer(ts, q)
    ensures Parser.MemberEnd(ts, pos) == Success(q)
    decreases v, 3
  {
    ElementAccepted(ts, pos + 2, v, q);
    MemberStep(ts, pos, q);
  }

  /** A whole document: a value written as tokens, with nothing around it, is accepted. */
  lemma {:induction false} DocumentAccepted(ts: TokenStream, v: Value)
    requires ts.failure.None? && WellFormed(v) && Spells(ts, 0, Emit(v)) && |ts.tokens| == |Emit(v)|
    ensures Parser.Run(ts) == Success(|ts.tokens|)
  {
    ElementAccepted(ts, 0, v, |ts.tokens|);
    assert Parser.StartEnd(ts, 0) == Parser.StartEnd(ts, |ts.tokens|);
  }

  /** A whole document may also have whitespace before and after its value. */
  lemma {:induction false} SpacedDocumentAccepted(ts: TokenStream, v: Value, a: nat, b: nat)
    requires ts.failure.None? && WellFormed(v) && Spells(ts, a, Emit(v)) && b == a + |Emit(v)|
    requires forall k | 0 <= k < a :: IsWhitespace(ts.tokens[k].kind)
    requires forall k | b <= k < |ts.tokens| :: IsWhitespace(ts.tokens[k].kind)
    ensures Parser.Run(ts) == Success(|ts.tokens|)
  {
    EmitStart(v);
    KindAt(ts, a, Emit(v), 0);
    assert Follows(ts, b);
    ValueAccepted(ts, a, v, b);
    Parser.ElementAroundWhitespace(ts, 0, a, b, |ts.tokens|);
    assert Parser.StartEnd(ts, 0) == Parser.StartEnd(ts, |ts.tokens|);
  }

}
