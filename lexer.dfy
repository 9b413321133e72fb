/** The character-to-token lexer: `TokenIter` of src/lexer.rs, which `tokens::TokenIter` of
    src/tokenizer.rs repeats line for line (only its constructor boxes the iterator).

    The pure functions below say what one call of `next` produces (`LexStep`) and what the
    whole run produces (`LexRun`); the class `TokenIter` is the imperative cursor, proved to
    agree with them. */
module Lexer {
  import opened Wrappers
  import opened Tokens

  /** `char::is_numeric`, restricted to ASCII decimal digits. */
  predicate IsNumeric(c: char) {
    '0' <= c <= '9'
  }

  /** `char::is_alphabetic`, restricted to ASCII letters. */
  predicate IsAlphabetic(c: char) {
    'a' <= c <= 'z' || 'A' <= c <= 'Z'
  }

  /** The characters that become a one-character token of a fixed kind and leave the line
      counter alone. `E` and `e` are here, so they never start a keyword; `0` is here, so it
      never reaches the `is_numeric` branch. */
  const Symbols: map<char, JsonKind> := map[
    ' ' := Space, '\r' := CarriageReturn, '\t' := HorizontalTab,
    '{' := BeginObject, '}' := EndObject, '[' := BeginArray, ']' := EndArray,
    ':' := NameSeperator, ',' := ValueSeperator,
    '-' := Minus, '+' := Plus, 'E' := E, 'e' := E, '.' := DecimalPoint, '0' := Zero]

  /** Every character that `next` knows how to start a token with. */
  predicate Dispatchable(c: char) {
    c == '\n' || c in Symbols || c == '"' || IsNumeric(c) || IsAlphabetic(c)
  }

  predicate IsKeyword(k: JsonKind) {
    k == Null || k == True || k == False
  }

  /** The spelling of each keyword kind. */
  function KeywordText(k: JsonKind): (w: string)
    requires IsKeyword(k)
    ensures |w| >= 4 && forall i | 0 <= i < |w| :: IsAlphabetic(w[i])
  {
    match k
    case Null => "null"
    case True => "true"
    case False => "false"
  }

  /** `check_keyword`: the kind of a keyword, or the unknown word as the error. */
  function CheckKeyword(word: string): (r: Result<JsonKind, string>)
    ensures r.Success? <==> word == "null" || word == "true" || word == "false"
    ensures r.Success? ==> IsKeyword(r.value) && KeywordText(r.value) == word
    ensures r.Failure? ==> r.error == word
  {
    match word
    case "null" => Success(Null)
    case "true" => Success(True)
    case "false" => Success(False)
    case _ => Failure(word)
  }

  /** `check_keyword` recognises the spelling of every keyword kind as that kind. */
  lemma {:induction false} KeywordRoundTrip(k: JsonKind)
    requires IsKeyword(k)
    ensures CheckKeyword(KeywordText(k)) == Success(k)
  {
  }

  /** The number of line feeds in `s`. */
  function Newlines(s: string): nat {
    if s == [] then 0 else Newlines(s[..|s| - 1]) + (if s[|s| - 1] == '\n' then 1 else 0)
  }

  /** The string sub-lexer, from position `j` just after the opening quote: the position just
      after the last character the string token takes, or the panic it raises. A backslash
      followed by a quote is taken as a pair whatever precedes the backslash; a quote
      otherwise ends the string; a raw line feed is an error; so is running out of input
      right after any other character. Running out of input right after the opening quote,
      or right after an escaped quote, ends the string without an error. */
  function ScanString(s: string, j: nat, line: nat): (r: Result<nat, LexError>)
    requires j <= |s|
    ensures r.Success? ==> j <= r.value <= |s|
    ensures r.Success? ==> r.value == j == |s| || (j < r.value && s[r.value - 1] == '"')
    ensures r.Success? ==> forall k | j <= k < r.value :: s[k] != '\n'
    ensures r.Failure? ==> r.error == MultilineString(line) || r.error == NonterminatingString(line)
    decreases |s| - j
  {
    if j == |s| then Success(j)
    else if s[j] == '\\' && j + 1 < |s| && s[j + 1] == '"' then ScanString(s, j + 2, line)
    else if s[j] == '"' then Success(j + 1)
    else if s[j] == '\n' then Failure(MultilineString(line))
    else if j + 1 == |s| then Failure(NonterminatingString(line))
    else ScanString(s, j + 1, line)
  }

  /** The keyword sub-lexer: the end of the maximal run of alphabetic characters from `i`. */
  function WordEnd(s: string, i: nat): (e: nat)
    requires i <= |s|
    ensures i <= e <= |s|
    ensures forall k | i <= k < e :: IsAlphabetic(s[k])
    ensures e == |s| || !IsAlphabetic(s[e])
    decreases |s| - i
  {
    if i < |s| && IsAlphabetic(s[i]) then WordEnd(s, i + 1) else i
  }

  /** One successful call of `next`: the token, and the cursor and line counter after it. */
  datatype Step = Step(token: Token, next: nat, line: nat)

  /** What a step promises: it consumes at least one character, the token's text is exactly
      the characters consumed and it reports the line it started on; a line feed token is
      the single character `\n` and moves the counter on by one, and no other token holds a
      line feed or moves the counter. */
  ghost predicate StepOk(s: string, i: nat, line: nat, st: Step) {
    && i < st.next <= |s|
    && st.token.text == s[i..st.next]
    && st.token.line == line
    && if st.token.kind == LineFeed then
         st.token.text == "\n" && st.line == line + 1
       else
         st.line == line && forall k | i <= k < st.next :: s[k] != '\n'
  }

  /** The kind a token must have, read off its first character: a line feed, a symbol and a
      non-zero digit are single-character tokens of their fixed kind, a quote starts a
      string, and a letter outside `Symbols` starts one of the three keywords, spelled out. */
  predicate KindFits(t: Token) {
    && |t.text| > 0
    && var c := t.text[0];
       if c == '\n' then t.kind == LineFeed && t.text == "\n"
       else if c in Symbols then t.kind == Symbols[c] && t.text == [c]
       else if c == '"' then t.kind == StringVal
       else if IsNumeric(c) then t.kind == Digit && t.text == [c]
       else IsAlphabetic(c) && IsKeyword(t.kind) && t.text == KeywordText(t.kind)
  }

  /** When a panic raised at position `i` of `s` is justified: an unexpected character is one
      no branch of `next` handles, an unknown keyword is the whole run of letters that starts
      at `i` and is not a keyword, and a string error is the string sub-lexer's own. */
  predicate FailureFits(s: string, i: nat, e: LexError)
    requires i < |s|
  {
    match e
    case UnexpectedChar(c, _) => c == s[i] && !Dispatchable(c)
    case UnknownKeyword(w, _) =>
      && IsAlphabetic(s[i]) && s[i] !in Symbols
      && w == s[i..WordEnd(s, i + 1)] && CheckKeyword(w).Failure?
    case MultilineString(l) => s[i] == '"' && ScanString(s, i + 1, l) == Failure(e)
    case NonterminatingString(l) => s[i] == '"' && ScanString(s, i + 1, l) == Failure(e)
  }

  /** One call of `next` on input `s` with the cursor at `i` and the line counter at `line`:
      no token at end of input, otherwise one token or the panic that `next` raises. */
  function LexStep(s: string, i: nat, line: nat): (r: Result<Option<Step>, LexError>)
    requires i <= |s|
    ensures (r.Success? && r.value.None?) <==> i == |s|
    ensures r.Success? && r.value.Some? ==> StepOk(s, i, line, r.value.value)
  {
    if i == |s| then Success(None)
    else
      var c := s[i];
      if c == '\n' then Success(Some(Step(Token(LineFeed, [c], line), i + 1, line + 1)))
      else if c in Symbols then Success(Some(Step(Token(Symbols[c], [c], line), i + 1, line)))
      else if c == '"' then
        var e :- ScanString(s, i + 1, line);
        Success(Some(Step(Token(StringVal, s[i..e], line), e, line)))
      else if IsNumeric(c) then Success(Some(Step(Token(Digit, [c], line), i + 1, line)))
      else if IsAlphabetic(c) then
        var e := WordEnd(s, i + 1);
        match CheckKeyword(s[i..e])
        case Success(k) => Success(Some(Step(Token(k, s[i..e], line), e, line)))
        case Failure(word) => Failure(UnknownKeyword(word, line))
      else Failure(UnexpectedChar(c, line))
  }

  /** Every token `next` produces has the kind its first character calls for, and every panic
      it raises is justified by the input at the cursor; a character no branch handles is
      always a panic. */
  lemma {:induction false} LexStepFits(s: string, i: nat, line: nat)
    requires i <= |s|
    ensures var r := LexStep(s, i, line);
            && (r.Success? && r.value.Some? ==> KindFits(r.value.value.token))
            && (r.Failure? ==> i < |s| && r.error.line == line && FailureFits(s, i, r.error))
            && (i < |s| && !Dispatchable(s[i]) ==> r == Failure(UnexpectedChar(s[i], line)))
  {
  }

  /** Which branch of `next` each first character takes. */
  lemma {:induction false} LexStepDispatch(s: string, i: nat, line: nat)
    requires i < |s|
    ensures s[i] == '\n' ==> LexStep(s, i, line) == Success(Some(Step(Token(LineFeed, "\n", line), i + 1, line + 1)))
    ensures s[i] in Symbols ==> LexStep(s, i, line) == Success(Some(Step(Token(Symbols[s[i]], [s[i]], line), i + 1, line)))
    ensures IsNumeric(s[i]) && s[i] != '0' ==> LexStep(s, i, line) == Success(Some(Step(Token(Digit, [s[i]], line), i + 1, line)))
    ensures s[i] == '"' ==>
      match ScanString(s, i + 1, line)
      case Success(e) => LexStep(s, i, line) == Success(Some(Step(Token(StringVal, s[i..e], line), e, line)))
      case Failure(err) => LexStep(s, i, line) == Failure(err)
    ensures IsAlphabetic(s[i]) && s[i] !in Symbols ==>
      var e := WordEnd(s, i + 1);
      match CheckKeyword(s[i..e])
      case Success(k) => LexStep(s, i, line) == Success(Some(Step(Token(k, s[i..e], line), e, line)))
      case Failure(w) => LexStep(s, i, line) == Failure(UnknownKeyword(w, line))
    ensures !Dispatchable(s[i]) ==> LexStep(s, i, line) == Failure(UnexpectedChar(s[i], line))
  {
  }

  lemma {:induction false} NewlinesAppend(a: string, b: string)
    ensures Newlines(a + b) == Newlines(a) + Newlines(b)
    decreases |b|
  {
    if b == [] {
      assert a + b == a;
    } else {
      assert (a + b)[..|a + b| - 1] == a + b[..|b| - 1];
      NewlinesAppend(a, b[..|b| - 1]);
    }
  }

  lemma {:induction false} NoNewlines(t: string)
    requires forall k | 0 <= k < |t| :: t[k] != '\n'
    ensures Newlines(t) == 0
    decreases |t|
  {
    if t != [] {
      NoNewlines(t[..|t| - 1]);
    }
  }

  /** The text of a token holds exactly as many line feeds as the step moves the line
      counter on. */
  lemma {:induction false} StepNewlines(s: string, i: nat, line: nat, st: Step)
    requires i <= |s| && StepOk(s, i, line, st)
    ensures Newlines(st.token.text) == st.line - line
  {
    if st.token.kind == LineFeed {
      assert "\n"[..0] == [];
    } else {
      NoNewlines(s[i..st.next]);
    }
  }

  /** After a step the line counter is still one more than the number of line feeds before
      the cursor. */
  lemma {:induction false} StepKeepsLineCount(s: string, i: nat, line: nat, st: Step)
    requires i <= |s| && StepOk(s, i, line, st)
    ensures Newlines(s[..st.next]) == Newlines(s[..i]) + st.line - line
  {
    assert s[..st.next] == s[..i] + s[i..st.next];
    NewlinesAppend(s[..i], s[i..st.next]);
    StepNewlines(s, i, line, st);
  }

  /** The quote at `k` closes a string whose body starts at `j`: it is not the second
      character of a backslash-quote pair. */
  predicate Closes(s: string, j: nat, k: nat)
    requires j <= k < |s|
  {
    s[k] == '"' && (k == j || s[k - 1] != '\\')
  }

  /** Position `p` of a string body starting at `j` is not the quote of a backslash-quote
      pair, so the string sub-lexer can stand on it. */
  predicate Boundary(s: string, j: nat, p: nat)
    requires j <= p <= |s|
  {
    p == j || p == |s| || !(s[p - 1] == '\\' && s[p] == '"')
  }

  /** If the first closing quote or raw line feed of a string body is at `k`, the string
      sub-lexer stops there: a closing quote ends the token just after it, a line feed is
      the multiline error. Escaped quotes before `k` are passed over. */
  lemma {:induction false} ScanStopsAtFirstStop(s: string, j: nat, p: nat, k: nat, line: nat)
    requires j <= p <= k < |s| && Boundary(s, j, p)
    requires Closes(s, j, k) || s[k] == '\n'
    requires forall m | p <= m < k :: !Closes(s, j, m) && s[m] != '\n'
    ensures ScanString(s, p, line) ==
            if s[k] == '\n' then Failure(MultilineString(line)) else Success(k + 1)
    decreases k - p
  {
    if p < k {
      assert !Closes(s, j, p);
      if s[p] == '\\' && p + 1 < |s| && s[p + 1] == '"' {
        assert p + 1 != k;
        ScanStopsAtFirstStop(s, j, p + 2, k, line);
      } else {
        ScanStopsAtFirstStop(s, j, p + 1, k, line);
      }
    }
  }

  /** If a string body holds no closing quote and no raw line feed up to the end of input,
      the string sub-lexer runs to the end: without an error when nothing is left or the
      input ends with an escaped quote, with the nonterminating error otherwise. */
  lemma {:induction false} ScanRunsOffEnd(s: string, j: nat, p: nat, line: nat)
    requires j <= p <= |s| && Boundary(s, j, p)
    requires forall m | p <= m < |s| :: !Closes(s, j, m) && s[m] != '\n'
    ensures ScanString(s, p, line) ==
            if p == |s| || s[|s| - 1] == '"' then Success(|s|) else Failure(NonterminatingString(line))
    decreases |s| - p
  {
    if p < |s| {
      assert !Closes(s, j, p);
      if s[p] == '\\' && p + 1 < |s| && s[p + 1] == '"' {
        ScanRunsOffEnd(s, j, p + 2, line);
      } else if p + 1 < |s| {
        ScanRunsOffEnd(s, j, p + 1, line);
      }
    }
  }

  /** The lexer of src/lexer.rs: a peekable cursor over the input and the current line. */
  class TokenIter {
    const chars: string
    var index: nat
    var currLine: nat

    /** The line counter is one more than the number of line feeds already consumed. */
    ghost predicate Valid()
      reads this
    {
      index <= |chars| && currLine == 1 + Newlines(chars[..index])
    }

    /** `TokenIter::new`: the cursor at the first character, on line 1. */
    constructor (contents: string)
      ensures Valid()
      ensures chars == contents && index == 0 && currLine == 1
    {
      chars := contents;
      index := 0;
      currLine := 1;
    }

    /** `Iterator::next`. A panic of the source is a `Failure`; after one the iterator is not
        used again, so nothing is promised about its state. */
    method Next() returns (r: Result<Option<Token>, LexError>)
      requires Valid()
      modifies this
      ensures match LexStep(chars, old(index), old(currLine))
              case Failure(e) => r == Failure(e)
              case Success(None) => r == Success(None) && index == old(index) && currLine == old(currLine)
              case Success(Some(st)) => r == Success(Some(st.token)) && index == st.next && currLine == st.line
      ensures r.Success? ==> Valid()
    {
      if index == |chars| {
        return Success(None);
      }
      var val := chars[index];
      index := index + 1;
      var token: Token;
      match val {
        case ' ' => token := Token(Space, [val], currLine);
        case '\n' =>
          currLine := currLine + 1;
          token := Token(LineFeed, [val], currLine - 1);
        case '\r' => token := Token(CarriageReturn, [val], currLine);
        case '\t' => token := Token(HorizontalTab, [val], currLine);
        case '{' => token := Token(BeginObject, [val], currLine);
        case '}' => token := Token(EndObject, [val], currLine);
        case '[' => token := Token(BeginArray, [val], currLine);
        case ']' => token := Token(EndArray, [val], currLine);
        case ':' => token := Token(NameSeperator, [val], currLine);
        case ',' => token := Token(ValueSeperator, [val], currLine);
        case '-' => token := Token(Minus, [val], currLine);
        case '+' => token := Token(Plus, [val], currLine);
        case 'E' | 'e' => token := Token(E, [val], currLine);
        case '.' => token := Token(DecimalPoint, [val], currLine);
        case '0' => token := Token(Zero, [val], currLine);
        case '"' =>
          token :- LexString();
        case _ =>
          if IsNumeric(val) {
            token := Token(Digit, [val], currLine);
          } else if IsAlphabetic(val) {
            token :- LexKeyword();
          } else {
            return Failure(UnexpectedChar(val, currLine));
          }
      }
      r := Success(Some(token));
      StepKeepsLineCount(chars, old(index), old(currLine), LexStep(chars, old(index), old(currLine)).value.value);
    }

    /** The string sub-lexer: the opening quote at `index - 1` is already consumed. */
    method LexString() returns (r: Result<Token, LexError>)
      requires 0 < index <= |chars| && chars[index - 1] == '"'
      modifies this`index
      ensures match ScanString(chars, old(index), currLine)
              case Success(e) => r == Success(Token(StringVal, chars[old(index) - 1..e], currLine)) && index == e
              case Failure(err) => r == Failure(err)
    {
      var tmp := [chars[index - 1]];
      while index < |chars|
        invariant old(index) <= index <= |chars|
        invariant tmp == chars[old(index) - 1..index]
        invariant ScanString(chars, old(index), currLine) == ScanString(chars, index, currLine)
        decreases |chars| - index
      {
        ghost var j := index;
        var curr := chars[index];
        index := index + 1;
        tmp := tmp + [curr];
        assert tmp == chars[old(index) - 1..index];
        if curr == '\\' && index < |chars| && chars[index] == '"' {
          tmp := tmp + [chars[index]];
          index := index + 1;
          assert tmp == chars[old(index) - 1..index];
          assert ScanString(chars, j, currLine) == ScanString(chars, index, currLine);
        } else if curr == '"' {
          assert ScanString(chars, j, currLine) == Success(index);
          break;
        } else if curr == '\n' {
          assert ScanString(chars, j, currLine) == Failure(MultilineString(currLine));
          return Failure(MultilineString(currLine));
        } else if index == |chars| {
          assert ScanString(chars, j, currLine) == Failure(NonterminatingString(currLine));
          return Failure(NonterminatingString(currLine));
        } else {
          assert ScanString(chars, j, currLine) == ScanString(chars, index, currLine);
        }
      }
      r := Success(Token(StringVal, tmp, currLine));
    }

    /** The keyword sub-lexer: the first letter at `index - 1` is already consumed. */
    method LexKeyword() returns (r: Result<Token, LexError>)
      requires 0 < index <= |chars|
      modifies this`index
      ensures var e := WordEnd(chars, old(index));
              && index == e
              && match CheckKeyword(chars[old(index) - 1..e])
                 case Success(k) => r == Success(Token(k, chars[old(index) - 1..e], currLine))
                 case Failure(word) => r == Failure(UnknownKeyword(word, currLine))
    {
      var tmp := [chars[index - 1]];
      while index < |chars| && IsAlphabetic(chars[index])
        invariant old(index) <= index <= |chars|
        invariant tmp == chars[old(index) - 1..index]
        invariant WordEnd(chars, old(index)) == WordEnd(chars, index)
        decreases |chars| - index
      {
        tmp := tmp + [chars[index]];
        index := index + 1;
      }
      var kind := CheckKeyword(tmp);
      if kind.Failure? {
        return Failure(UnknownKeyword(kind.error, currLine));
      }
      r := Success(Token(kind.value, tmp, currLine));
    }
  }
}
