/** The token vocabulary shared by the lexer and the parsers (src/lexer.rs, and its twin
    module `tokens` in src/tokenizer.rs). */
module Tokens {
  import opened Wrappers

  /** One kind per terminal of the JSON grammar; each whitespace character and each digit is a
      token of its own. The names follow the source, spelling included. */
  datatype JsonKind =
    | StringVal | False | True | Null
      // Structural
    | BeginArray | BeginObject | EndArray | EndObject | NameSeperator | ValueSeperator
      // Space
    | Space | HorizontalTab | LineFeed | CarriageReturn
      // Numbers
    | Plus | Minus | Digit | Zero | DecimalPoint | E

  /** A token: its kind, the exact characters it was lexed from, and the 1-based line it
      was found on. */
  datatype Token = Token(kind: JsonKind, text: string, line: nat)

  /** The four ways the lexer panics, each with the line it was on. */
  datatype LexError =
    | MultilineString(line: nat)
    | NonterminatingString(line: nat)
    | UnknownKeyword(word: string, line: nat)
    | UnexpectedChar(c: char, line: nat)

  /** What a token source hands out, one `next()` call at a time: the tokens it yields in
      order, then either end of input (`failure == None`) or the panic it raises on the call
      after the last token. A source that cannot fail, such as the fixed-token double the
      parser tests use, has `failure == None`. */
  datatype TokenStream = TokenStream(tokens: seq<Token>, failure: Option<LexError>) {

    /** The result of the `k`-th call (from 0) of `next()`. */
    function Pull(k: nat): (r: Result<Option<Token>, LexError>)
      ensures r.Success? && r.value.Some? <==> k < |tokens|
      ensures r.Failure? <==> k >= |tokens| && failure.Some?
    {
      if k < |tokens| then Success(Some(tokens[k]))
      else if failure.Some? then Failure(failure.value)
      else Success(None)
    }

    /** The token at position `k` of the stream, if there is one. */
    function At(k: nat): Option<Token> {
      if k < |tokens| then Some(tokens[k]) else None
    }
  }
}
