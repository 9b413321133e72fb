/** How the two validators relate. Wherever src/parsizer.rs accepts a value, src/parser.rs
    accepts the same value and stops at the same token: the later parser only adds the
    empty-container branches and drops the look-ahead demand of `must_match`. At the top
    level neither accepts everything the other does (see module `Examples`): the earlier
    one lets `start` read comma-separated values and rejects `[]`, `{}` and a closing
    bracket as the last token. */
module Comparison {
  import opened Wrappers
  import opened Tokens
  import opened TokenCursor
  import Parser
  import Parsizer

  /** Whitespace in front of an element list belongs to its first element. */
  lemma {:induction false} ElementsAfterWhitespace(ts: TokenStream, pos: nat)
    requires ValidPos(ts, pos) && WhitespaceEnd(ts, pos).Success?
    ensures Parser.ElementsEnd(ts, pos) == Parser.ElementsEnd(ts, WhitespaceEnd(ts, pos).value)
  {
    var w := WhitespaceEnd(ts, pos).value;
    WhitespaceIdempotent(ts, pos);
    assert Parser.ElementEnd(ts, pos) == Parser.ElementEnd(ts, w);
  }

  /** A list of members the earlier parser accepts starts with a name, once whitespace is
      skipped. */
  lemma {:induction false} MembersStartWithName(ts: TokenStream, pos: nat)
    requires ValidPos(ts, pos) && Parsizer.MembersEnd(ts, pos).Success?
    requires pos == |ts.tokens| || !IsWhitespace(ts.tokens[pos].kind)
    ensures IsKindAt(ts, pos, StringVal)
  {
    WhitespaceRun(ts, pos, pos);
    assert Parsizer.MemberEnd(ts, pos).Success?;
  }

  /** An element the earlier parser accepts starts with a value token, once whitespace is
      skipped; in particular not with a closing bracket. */
  lemma {:induction false} ElementsStartWithValue(ts: TokenStream, pos: nat)
    requires ValidPos(ts, pos) && Parsizer.ElementsEnd(ts, pos).Success?
    ensures WhitespaceEnd(ts, pos).Success? && Parsizer.ValueEnd(ts, WhitespaceEnd(ts, pos).value).Success?
    ensures !IsKindAt(ts, WhitespaceEnd(ts, pos).value, EndArray)
  {
    assert Parsizer.ElementEnd(ts, pos).Success?;
  }

  lemma {:induction false} ObjectRefines(ts: TokenStream, pos: nat, e: nat)
    requires ValidPos(ts, pos) && IsKindAt(ts, pos, BeginObject) && Parsizer.ObjectEnd(ts, pos) == Success(e)
    ensures Parser.ObjectEnd(ts, pos) == Success(e)
    decreases |ts.tokens| - pos, 0
  {
    var p2 := WhitespaceEnd(ts, pos + 1).value;
    MembersStartWithName(ts, p2);
    MembersRefines(ts, p2, Parsizer.MembersEnd(ts, p2).value);
  }

  lemma {:induction false} ArrayRefines(ts: TokenStream, pos: nat, e: nat)
    requires ValidPos(ts, pos) && IsKindAt(ts, pos, BeginArray) && Parsizer.ArrayEnd(ts, pos) == Success(e)
    ensures Parser.ArrayEnd(ts, pos) == Success(e)
    decreases |ts.tokens| - pos, 0
  {
    ElementsStartWithValue(ts, pos + 1);
    ElementsRefines(ts, pos + 1, Parsizer.ElementsEnd(ts, pos + 1).value);
    ElementsAfterWhitespace(ts, pos + 1);
  }

  lemma {:induction false} ValueRefines(ts: TokenStream, pos: nat, e: nat)
    requires ValidPos(ts, pos) && Parsizer.ValueEnd(ts, pos) == Success(e)
    ensures Parser.ValueEnd(ts, pos) == Success(e)
    decreases |ts.tokens| - pos, 1
  {
    if IsKindAt(ts, pos, BeginObject) {
      ObjectRefines(ts, pos, e);
    } else if IsKindAt(ts, pos, BeginArray) {
      ArrayRefines(ts, pos, e);
    }
  }

  /** Wherever the earlier parser reads an element and stops at `e`, the later one reads
      it and stops at `e` too. */
  lemma {:induction false} ElementRefines(ts: TokenStream, pos: nat, e: nat)
    requires ValidPos(ts, pos) && Parsizer.ElementEnd(ts, pos) == Success(e)
    ensures Parser.ElementEnd(ts, pos) == Success(e)
    decreases |ts.tokens| - pos, 2
  {
    var w := WhitespaceEnd(ts, pos).value;
    ValueRefines(ts, w, Parsizer.ValueEnd(ts, w).value);
  }

  // One unfolding of `elements` and `members` in each validator, stated over positions.

  lemma {:induction false} SizerElementsNext(ts: TokenStream, pos: nat, p: nat, e: nat)
    requires ValidPos(ts, pos) && Parsizer.ElementsEnd(ts, pos) == Success(e) && Parsizer.ElementEnd(ts, pos) == Success(p)
    requires IsKindAt(ts, p, ValueSeperator)
    ensures pos < p && ValidPos(ts, p + 1) && Parsizer.ElementsEnd(ts, p + 1) == Success(e)
  {
  }

  lemma {:induction false} SizerElementsLast(ts: TokenStream, pos: nat, p: nat)
    requires ValidPos(ts, pos) && Parsizer.ElementEnd(ts, pos) == Success(p) && !IsKindAt(ts, p, ValueSeperator)
    ensures Parsizer.ElementsEnd(ts, pos) == Success(p)
  {
  }

  lemma {:induction false} ElementsNext(ts: TokenStream, pos: nat, p: nat, e: nat)
    requires ValidPos(ts, pos) && Parser.ElementEnd(ts, pos) == Success(p)
    requires IsKindAt(ts, p, ValueSeperator) && ValidPos(ts, p + 1) && Parser.ElementsEnd(ts, p + 1) == Success(e)
    ensures Parser.ElementsEnd(ts, pos) == Success(e)
  {
  }

  lemma {:induction false} ElementsLast(ts: TokenStream, pos: nat, p: nat)
    requires ValidPos(ts, pos) && Parser.ElementEnd(ts, pos) == Success(p) && !IsKindAt(ts, p, ValueSeperator)
    ensures Parser.ElementsEnd(ts, pos) == Success(p)
  {
  }

  lemma {:induction false} SizerMembersNext(ts: TokenStream, pos: nat, p: nat, e: nat)
    requires ValidPos(ts, pos) && Parsizer.MembersEnd(ts, pos) == Success(e) && Parsizer.MemberEnd(ts, pos) == Success(p)
    requires IsKindAt(ts, p, ValueSeperator)
    ensures pos < p && ValidPos(ts, p + 1) && Parsizer.MembersEnd(ts, p + 1) == Success(e)
  {
  }

  lemma {:induction false} SizerMembersLast(ts: TokenStream, pos: nat, p: nat)
    requires ValidPos(ts, pos) && Parsizer.MemberEnd(ts, pos) == Success(p) && !IsKindAt(ts, p, ValueSeperator)
    ensures Parsizer.MembersEnd(ts, pos) == Success(p)
  {
  }

  lemma {:induction false} MembersNext(ts: TokenStream, pos: nat, p: nat, e: nat)
    requires ValidPos(ts, pos) && Parser.MemberEnd(ts, pos) == Success(p)
    requires IsKindAt(ts, p, ValueSeperator) && ValidPos(ts, p + 1) && Parser.MembersEnd(ts, p + 1) == Success(e)
    ensures Parser.MembersEnd(ts, pos) == Success(e)
  {
  }

  lemma {:induction false} MembersLast(ts: TokenStream, pos: nat, p: nat)
    requires ValidPos(ts, pos) && Parser.MemberEnd(ts, pos) == Success(p) && !IsKindAt(ts, p, ValueSeperator)
    ensures Parser.MembersEnd(ts, pos) == Success(p)
  {
  }

  /** The first element of a list the earlier parser accepts ends at `p`. */
  lemma {:induction false} SizerElementsHead(ts: TokenStream, pos: nat) returns (p: nat)
    requires ValidPos(ts, pos) && Parsizer.ElementsEnd(ts, pos).Success?
    ensures Parsizer.ElementEnd(ts, pos) == Success(p)
  {
    p := Parsizer.ElementEnd(ts, pos).value;
  }

  /** Wherever the earlier parser reads a list of elements and stops at `e`, the later one
      reads it and stops at `e` too. */
  lemma {:induction false} ElementsRefines(ts: TokenStream, pos: nat, e: nat)
    requires ValidPos(ts, pos) && Parsizer.ElementsEnd(ts, pos) == Success(e)
    ensures Parser.ElementsEnd(ts, pos) == Success(e)
    decreases |ts.tokens| - pos, 3
  {
    var p := SizerElementsHead(ts, pos);
    ElementRefines(ts, pos, p);
    if IsKindAt(ts, p, ValueSeperator) {
      MoreElementsRefine(ts, pos, p, e);
    } else {
      SizerElementsLast(ts, pos, p);
      ElementsLast(ts, pos, p);
    }
  }

  /** After a first element ending at a comma at `p`, both validators go on from `p + 1`. */
  lemma {:induction false} MoreElementsRefine(ts: TokenStream, pos: nat, p: nat, e: nat)
    requires ValidPos(ts, pos) && Parsizer.ElementsEnd(ts, pos) == Success(e)
    requires Parsizer.ElementEnd(ts, pos) == Success(p) && Parser.ElementEnd(ts, pos) == Success(p)
    requires IsKindAt(ts, p, ValueSeperator)
    ensures Parser.ElementsEnd(ts, pos) == Success(e)
    decreases |ts.tokens| - pos, 2
  {
    SizerElementsNext(ts, pos, p, e);
    ElementsRefines(ts, p + 1, e);
    ElementsNext(ts, pos, p, e);
  }

  /** The first member of a list the earlier parser accepts ends at `p`. */
  lemma {:induction false} SizerMembersHead(ts: TokenStream, pos: nat) returns (p: nat)
    requires ValidPos(ts, pos) && Parsizer.MembersEnd(ts, pos).Success?
    ensures Parsizer.MemberEnd(ts, pos) == Success(p)
  {
    p := Parsizer.MemberEnd(ts, pos).value;
  }

  /** Wherever the earlier parser reads a list of members and stops at `e`, the later one
      reads it and stops at `e` too. */
  lemma {:induction false} MembersRefines(ts: TokenStream, pos: nat, e: nat)
    requires ValidPos(ts, pos) && Parsizer.MembersEnd(ts, pos) == Success(e)
    ensures Parser.MembersEnd(ts, pos) == Success(e)
    decreases |ts.tokens| - pos, 1
  {
    var p := SizerMembersHead(ts, pos);
    MemberRefines(ts, pos, p);
    if IsKindAt(ts, p, ValueSeperator) {
      MoreMembersRefine(ts, pos, p, e);
    } else {
      SizerMembersLast(ts, pos, p);
      MembersLast(ts, pos, p);
    }
  }

  /** After a first member ending at a comma at `p`, both validators go on from `p + 1`. */
  lemma {:induction false} MoreMembersRefine(ts: TokenStream, pos: nat, p: nat, e: nat)
    requires ValidPos(ts, pos) && Parsizer.MembersEnd(ts, pos) == Success(e)
    requires Parsizer.MemberEnd(ts, pos) == Success(p) && Parser.MemberEnd(ts, pos) == Success(p)
    requires IsKindAt(ts, p, ValueSeperator)
    ensures Parser.MembersEnd(ts, pos) == Success(e)
    decreases |ts.tokens| - pos, 0
  {
    SizerMembersNext(ts, pos, p, e);
    MembersRefines(ts, p + 1, e);
    MembersNext(ts, pos, p, e);
  }

  /** The steps of a `member` the earlier parser accepts: the name at `p1`, the separator
      at `p3`, and the element after it. */
  lemma {:induction false} MemberParts(ts: TokenStream, pos: nat) returns (p1: nat, p3: nat)
    requires ValidPos(ts, pos) && Parsizer.MemberEnd(ts, pos).Success?
    ensures WhitespaceEnd(ts, pos) == Success(p1) && IsKindAt(ts, p1, StringVal) && Advance(ts, p1) == Success(p1 + 1)
    ensures WhitespaceEnd(ts, p1 + 1) == Success(p3) && IsKindAt(ts, p3, NameSeperator) && Advance(ts, p3) == Success(p3 + 1)
    ensures ValidPos(ts, p3 + 1) && Parsizer.MemberEnd(ts, pos) == Parsizer.ElementEnd(ts, p3 + 1)
  {
    p1 := WhitespaceEnd(ts, pos).value;
    p3 := WhitespaceEnd(ts, p1 + 1).value;
  }

  /** A `member` of src/parser.rs, given the same steps. */
  lemma {:induction false} MemberFromParts(ts: TokenStream, pos: nat, p1: nat, p3: nat)
    requires ValidPos(ts, pos)
    requires WhitespaceEnd(ts, pos) == Success(p1) && IsKindAt(ts, p1, StringVal) && Advance(ts, p1) == Success(p1 + 1)
    requires WhitespaceEnd(ts, p1 + 1) == Success(p3) && IsKindAt(ts, p3, NameSeperator) && Advance(ts, p3) == Success(p3 + 1)
    ensures ValidPos(ts, p3 + 1) && Parser.MemberEnd(ts, pos) == Parser.ElementEnd(ts, p3 + 1)
  {
  }

  /** Wherever the earlier parser reads a member and stops at `e`, the later one reads it
      and stops at `e` too. */
  lemma {:induction false} MemberRefines(ts: TokenStream, pos: nat, e: nat)
    requires ValidPos(ts, pos) && Parsizer.MemberEnd(ts, pos) == Success(e)
    ensures Parser.MemberEnd(ts, pos) == Success(e)
    decreases |ts.tokens| - pos, 0
  {
    var p1, p3 := MemberParts(ts, pos);
    MemberFromParts(ts, pos, p1, p3);
    assert pos < p3 + 1;
    ElementRefines(ts, p3 + 1, e);
  }
}
