/** The whole token stream of an input: what a fresh `TokenIter` hands out when `next` is
    called until it yields nothing or panics (the collecting loops of src/lexer/tests.rs and
    src/tokenizer.rs's tests, and the parser's pulls). */
module Tokenization {
  import opened Wrappers
  import opened Tokens
  import opened Lexer

  /** The tokens of a run of `next` calls, the panic that ended it if any, and the cursor
      position where it stopped. */
  datatype Run = Run(tokens: seq<Token>, failure: Option<LexError>, end: nat)

  /** Calling `next` from cursor `i` and line counter `line` until it yields no token or
      panics. */
  function LexRun(s: string, i: nat, line: nat): (r: Run)
    requires i <= |s|
    ensures i <= r.end <= |s|
    ensures r.failure.None? ==> r.end == |s|
    decreases |s| - i
  {
    match LexStep(s, i, line)
    case Failure(e) => Run([], Some(e), i)
    case Success(None) => Run([], None, i)
    case Success(Some(st)) =>
      var rest := LexRun(s, st.next, st.line);
      Run([st.token] + rest.tokens, rest.failure, rest.end)
  }

  /** The token stream of input `s`, read from the start on line 1. */
  function Tokenize(s: string): TokenStream {
    var run := LexRun(s, 0, 1);
    TokenStream(run.tokens, run.failure)
  }

  /** The texts of `toks`, concatenated in order. */
  function Text(toks: seq<Token>): string {
    if toks == [] then [] else toks[0].text + Text(toks[1..])
  }

  lemma {:induction false} SliceSplit(s: string, a: nat, b: nat, c: nat)
    requires a <= b <= c <= |s|
    ensures s[a..c] == s[a..b] + s[b..c]
  {
  }

  lemma {:induction false} TextCons(t: Token, toks: seq<Token>)
    ensures Text([t] + toks) == t.text + Text(toks)
  {
    assert ([t] + toks)[0] == t;
    assert ([t] + toks)[1..] == toks;
  }

  /** Lossless: the tokens of a run spell out exactly the characters it consumed, and no
      token is empty. */
  lemma {:induction false} LexRunLossless(s: string, i: nat, line: nat)
    requires i <= |s|
    ensures Text(LexRun(s, i, line).tokens) == s[i..LexRun(s, i, line).end]
    ensures forall k | 0 <= k < |LexRun(s, i, line).tokens| :: LexRun(s, i, line).tokens[k].text != []
    decreases |s| - i
  {
    var step := LexStep(s, i, line);
    if step.Success? && step.value.Some? {
      var st := step.value.value;
      var rest := LexRun(s, st.next, st.line);
      var toks := [st.token] + rest.tokens;
      assert StepOk(s, i, line, st);
      assert LexRun(s, i, line) == Run(toks, rest.failure, rest.end);
      LexRunLossless(s, st.next, st.line);
      TextCons(st.token, rest.tokens);
      SliceSplit(s, i, st.next, rest.end);
      assert Text(toks) == s[i..rest.end];
      forall k | 0 <= k < |toks|
        ensures toks[k].text != []
      {
        if k > 0 {
          assert toks[k] == rest.tokens[k - 1];
        }
      }
    } else {
      assert LexRun(s, i, line).tokens == [];
    }
  }

  /** Every token of a run has the kind its first character calls for, and a run that ends
      in a panic stopped on a character that justifies it. */
  lemma {:induction false} LexRunKinds(s: string, i: nat, line: nat)
    requires i <= |s|
    ensures var r := LexRun(s, i, line);
            && (forall k | 0 <= k < |r.tokens| :: KindFits(r.tokens[k]))
            && (r.failure.Some? ==> r.end < |s| && FailureFits(s, r.end, r.failure.value))
    decreases |s| - i
  {
    LexStepFits(s, i, line);
    var step := LexStep(s, i, line);
    if step.Success? && step.value.Some? {
      var st := step.value.value;
      var rest := LexRun(s, st.next, st.line);
      var toks := [st.token] + rest.tokens;
      assert LexRun(s, i, line) == Run(toks, rest.failure, rest.end);
      LexRunKinds(s, st.next, st.line);
      forall k | 0 <= k < |toks|
        ensures KindFits(toks[k])
      {
        if k > 0 {
          assert toks[k] == rest.tokens[k - 1];
        }
      }
    }
  }

  /** Each of `toks` reports `line` plus the number of line feeds in the texts before it. */
  ghost predicate LinesFrom(toks: seq<Token>, line: nat) {
    forall k | 0 <= k < |toks| :: toks[k].line == line + Newlines(Text(toks[..k]))
  }

  /** Line attribution: each token reports the line counter it started with plus the number
      of line feeds in the text before it. So a line feed token reports the line it ends, and
      the tokens after it the next line. */
  lemma {:induction false} LexRunLines(s: string, i: nat, line: nat)
    requires i <= |s|
    ensures LinesFrom(LexRun(s, i, line).tokens, line)
    decreases |s| - i
  {
    var step := LexStep(s, i, line);
    if step.Success? && step.value.Some? {
      var st := step.value.value;
      var rest := LexRun(s, st.next, st.line).tokens;
      var toks := [st.token] + rest;
      assert LexRun(s, i, line).tokens == toks;
      LexRunLines(s, st.next, st.line);
      assert LinesFrom(rest, st.line);
      StepNewlines(s, i, line, st);
      forall k | 0 <= k < |toks|
        ensures toks[k].line == line + Newlines(Text(toks[..k]))
      {
        if k == 0 {
          assert toks[..k] == [];
        } else {
          assert toks[k] == rest[k - 1];
          assert rest[k - 1].line == st.line + Newlines(Text(rest[..k - 1]));
          assert toks[..k][0] == st.token && toks[..k][1..] == rest[..k - 1];
          assert Text(toks[..k]) == st.token.text + Text(rest[..k - 1]);
          NewlinesAppend(st.token.text, Text(rest[..k - 1]));
        }
      }
    }
  }

  /** The token texts of an input spell out a prefix of it, and all of it unless the lexer
      panicked; no token is empty. */
  lemma {:induction false} TokenizeLossless(s: string)
    ensures Text(Tokenize(s).tokens) <= s
    ensures Tokenize(s).failure.None? ==> Text(Tokenize(s).tokens) == s
    ensures forall k | 0 <= k < |Tokenize(s).tokens| :: Tokenize(s).tokens[k].text != []
  {
    LexRunLossless(s, 0, 1);
    assert s[..LexRun(s, 0, 1).end] == s[0..LexRun(s, 0, 1).end];
  }

  /** A token located after the `n`-th line feed of the input, and before the next one,
      reports line `n + 1`; a line feed token reports the line it ends. */
  lemma {:induction false} TokenizeLines(s: string)
    ensures var toks := Tokenize(s).tokens;
            forall k | 0 <= k < |toks| :: toks[k].line == 1 + Newlines(Text(toks[..k]))
  {
    LexRunLines(s, 0, 1);
    assert Tokenize(s).tokens == LexRun(s, 0, 1).tokens;
  }

  /** Every token of an input has the kind its first character calls for; a panic names
      the character, word or string error found right after the last token's text. */
  lemma {:induction false} TokenizeKinds(s: string)
    ensures var ts := Tokenize(s);
            && (forall k | 0 <= k < |ts.tokens| :: KindFits(ts.tokens[k]))
            && (ts.failure.Some? ==> |Text(ts.tokens)| < |s| && FailureFits(s, |Text(ts.tokens)|, ts.failure.value))
  {
    LexRunKinds(s, 0, 1);
    LexRunLossless(s, 0, 1);
  }

  /** Draining an iterator the way the source's tests do (`for val in iter`) yields the
      tokens of `LexRun` from the iterator's state, and stops at its first panic. */
  method Collect(it: TokenIter) returns (ts: TokenStream)
    requires it.Valid()
    modifies it
    ensures var run := LexRun(it.chars, old(it.index), old(it.currLine));
            ts == TokenStream(run.tokens, run.failure)
  {
    var collect: seq<Token> := [];
    while true
      invariant it.Valid()
      invariant var run := LexRun(it.chars, it.index, it.currLine);
                LexRun(it.chars, old(it.index), old(it.currLine)) == Run(collect + run.tokens, run.failure, run.end)
      decreases |it.chars| - it.index
    {
      ghost var i0, l0 := it.index, it.currLine;
      var r := it.Next();
      match r
      case Failure(e) =>
        assert LexStep(it.chars, i0, l0) == Failure(e);
        assert LexRun(it.chars, i0, l0) == Run([], Some(e), i0);
        assert collect + [] == collect;
        return TokenStream(collect, Some(e));
      case Success(None) =>
        assert LexStep(it.chars, i0, l0) == Success(None);
        assert i0 == |it.chars|;
        assert LexRun(it.chars, i0, l0) == Run([], None, i0);
        assert collect + [] == collect;
        return TokenStream(collect, None);
      case Success(t) =>
        ghost var rest := LexRun(it.chars, it.index, it.currLine);
        assert LexRun(it.chars, i0, l0) == Run([t.value] + rest.tokens, rest.failure, rest.end);
        assert collect + ([t.value] + rest.tokens) == (collect + [t.value]) + rest.tokens;
        collect := collect + [t.value];
    }
  }
}
