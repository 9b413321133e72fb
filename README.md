# jsorry, modelled in Dafny

jsorry is a small JSON syntax checker. It has three stages:

- A lexer (`TokenIter` in src/lexer.rs, repeated line for line as `tokens::TokenIter` in src/tokenizer.rs).
  - It turns characters into tokens.
  - Whitespace characters and digits become tokens of their own.
  - A string becomes one token, and so does a keyword.
  - Every token carries its text and the line it was found on.
  - It panics on a multiline string, an unterminated string, an unknown keyword and an unexpected character.
- A recursive-descent validator (`Parser` in src/parser.rs).
  - It reads the tokens through a two-token window, `curr` and `peek`.
  - It panics at the first token that does not fit the grammar.
- An earlier validator (`Parser` in src/parsizer.rs) with the same window and the same number procedures. Its grammar differs in three ways:
  - `start` repeats comma-separated element lists.
  - Objects and arrays have no branch for an empty container.
  - `must_match` also unwraps `peek`.

The model follows that structure, module by module:

| Module | Contents |
|---|---|
| `Wrappers` | `Option`, `Result` and the `Outcome` of a procedure that returns nothing or panics. |
| `Tokens` | `JsonKind`, `Token`, the lexer's panics, and `TokenStream`. A `TokenStream` is what a token source hands out: its tokens, then end of input or a panic. |
| `Lexer` | What one `next` call does, as the pure function `LexStep`. Also the imperative class `TokenIter`, whose `Next` and its string and keyword loops are proved to agree with `LexStep`. |
| `Tokenization` | The whole run of `next` calls, with the properties of the token stream: the texts spell the input, and the line numbers count line feeds. Also `Collect`, the draining loop of the tests. |
| `LexerExamples` | The fixtures of the lexer tests. |
| `TokenCursor` | The window shared by both validators: the class `Cursor` with `curr`, `peek` and a ghost position. It holds `new`, `next_token`, `is_kind`, `is_next`, `illegal_leading_zero`, `must_match_either`, `number`, `integer`, `fraction`, `exponent`, `digits` and `whitespace`. Each procedure is specified by a function that gives the position where it leaves the window, or the panic it raises. |
| `Parser`, `Parsizer` | The grammar procedures of each validator, as specification functions (`…End`) and as methods of a class `Parser` proved against them. |
| `Comparison` | Wherever the earlier validator accepts a value, the later one accepts it too and stops at the same token. |
| `Acceptance` | An independent description of JSON values as token sequences. Every well-formed value without an exponent is accepted by src/parser.rs. |
| `Examples` | Small documents and what each validator makes of them, including the fixture of the parser test. |

A panic of the source is a `Failure` carrying a `ParseError` or a `LexError`. Where the source's panic message unwraps an absent token, the error carries `None`.

## Model

| member | source | states |
|---|---|---|
| Tokens.TokenStream.Pull | src/parser/tests.rs:9-14 | The `k`-th pull of a token source yields a token exactly when `k` is below the number of tokens. It fails exactly when the tokens are exhausted and the source ends in a panic. |
| Lexer.KeywordText | src/lexer.rs:168-175 | Each keyword is spelled with at least four letters, all alphabetic, so the keyword loop reads the whole spelling. |
| Lexer.CheckKeyword | src/lexer.rs:168-175 | Succeeds exactly on `null`, `true` and `false`. On success the kind's spelling is the word itself; otherwise the error is the unknown word. |
| Lexer.KeywordRoundTrip | src/lexer.rs:168-175 | `check_keyword` maps the spelling of each keyword kind back to that kind. |
| Lexer.ScanString | src/lexer.rs:115-135 | The string loop either ends just after a closing quote or ends at the end of input (no error only when the input ends right after the opening quote or an escaped quote). It never passes a raw line feed. It fails only with the multiline or nonterminating error. |
| Lexer.ScanStopsAtFirstStop | src/lexer.rs:119-131 | The string loop stops at the first quote that is not escaped, or the first line feed, after skipping every backslash-quote pair before it. A quote ends the token; a line feed is the multiline error. |
| Lexer.ScanRunsOffEnd | src/lexer.rs:119-131 | A string with no closing quote and no line feed runs to the end of input. It is accepted when nothing follows the opening quote or the input ends with an escaped quote; otherwise it is the nonterminating error. |
| Lexer.WordEnd | src/lexer.rs:139-148 | The keyword loop takes the maximal run of alphabetic characters. |
| Lexer.LexStep | src/lexer.rs:64-166 | One `next` call yields nothing exactly at end of input. A token it yields consumes at least one character and its text is exactly the consumed characters. The token reports the current line. Only a line feed token, which is the single character `\n`, moves the counter on by one. Which kind each character gives, and when `next` panics, is stated by `LexStepFits` and `LexStepDispatch`. |
| Lexer.LexStepFits | src/lexer.rs:64-166 | Every token `next` yields has the kind its first character calls for: a line feed, a symbol and a non-zero digit give a one-character token of their fixed kind, a quote a string, a letter outside the symbols a keyword spelled out. Every panic is justified at the cursor: an unexpected character is one no branch handles, an unknown keyword is the non-keyword run of letters there, a string error is the string loop's own. A character no branch handles always panics. |
| Lexer.LexStepDispatch | src/lexer.rs:69-166 | For each kind of first character, the exact outcome of `next`: the fixed-kind token of a line feed, symbol or non-zero digit; the string token up to where the string loop ends, or its panic; the keyword token over the maximal run of letters, or the unknown-keyword panic with that word; the unexpected-character panic for anything else. |
| Lexer.StepNewlines | src/lexer.rs:72-75 | The line counter moves on by exactly the number of line feeds in the token's text. |
| Lexer.StepKeepsLineCount | src/lexer.rs:72-75 | After each token the counter is still one more than the number of line feeds consumed. |
| Lexer.TokenIter.constructor | src/lexer.rs:31-38 | A new iterator stands on the first character on line 1, and its counter invariant holds. |
| Lexer.TokenIter.Next | src/lexer.rs:64-166 | `next` yields exactly the token, end of input or panic of `LexStep`, with the cursor and counter that `LexStep` gives, so the kinds and panics of `LexStepFits` and `LexStepDispatch` are those of `next`. It keeps the counter invariant. |
| Lexer.TokenIter.LexString | src/lexer.rs:115-135 | The string loop consumes up to the end that `ScanString` gives and builds a token whose text is every consumed character, opening quote included. It raises the panic `ScanString` gives. |
| Lexer.TokenIter.LexKeyword | src/lexer.rs:139-156 | The keyword loop consumes the maximal alphabetic run and makes a token of the keyword's kind, or the unknown-keyword panic with the word. |
| Tokenization.LexRun | src/tokenizer.rs:68-172 | A run of `next` calls stops inside the input, and at its end unless it panicked. |
| Tokenization.LexRunLossless | src/tokenizer.rs:68-172 | The texts of a run's tokens concatenate to exactly the characters the run consumed, and no token is empty. |
| Tokenization.LexRunLines | src/tokenizer.rs:68-172 | Every token of a run reports the starting line plus the number of line feeds in the texts before it. |
| Tokenization.LexRunKinds | src/tokenizer.rs:68-172 | Every token of a run has the kind its first character calls for, and a run that ends in a panic stopped on a character that justifies it. |
| Tokenization.TokenizeLossless | src/lexer/tests.rs:199-261 | The token texts of an input spell a prefix of it, and all of it when the lexer did not panic; no token is empty. |
| Tokenization.TokenizeLines | src/lexer/tests.rs:3-197 | A token reports line 1 plus the number of line feeds before it. A line feed reports the line it ends. |
| Tokenization.TokenizeKinds | src/lexer/tests.rs:190-196 | Every token of an input has the kind its first character calls for; a panic is justified by the input right after the last token's text. |
| Tokenization.Collect | src/tokenizer.rs:184-535 | The tests' draining loop returns exactly the tokens of the run and stops at its first panic. |
| LexerExamples.Keyword | src/lexer/tests.rs:293-328 | A keyword alone is one token of its kind on line 1. |
| LexerExamples.KeywordsTokenized | src/lexer/tests.rs:293-328 | `true`, `false` and `null` each give one token of their kind. |
| LexerExamples.UnknownKeywordPanics | src/lexer/tests.rs:330-355 | `woooop` gives the unknown-keyword panic with the word `woooop`. |
| LexerExamples.EscapedQuoteKept | src/lexer/tests.rs:199-261 | A backslash-quote pair stays inside one string token. |
| LexerExamples.NonterminatingStringPanics | src/lexer/tests.rs:262-275 | A string the input ends inside gives the nonterminating panic. |
| LexerExamples.MultilineStringPanics | src/lexer/tests.rs:277-291 | A line feed inside a string gives the multiline panic. |
| LexerExamples.LoneQuoteIsString | src/lexer.rs:115-135 | A quote as the last character is a string token by itself. |
| LexerExamples.LinesCounted | src/lexer.rs:72-75 | In `[\n1]` the line feed reports line 1 and the tokens after it report line 2. |
| TokenCursor.Primed | src/parser.rs:11-23 | `new` fails exactly when the source panics within its first two pulls; otherwise the window stands on position 0. |
| TokenCursor.Advance | src/parser.rs:31-34 | `next_token` moves the window by one token (not past the end). It fails, with the lexer's panic, exactly when the pull for the new `peek` is the one that panics. |
| TokenCursor.WhitespaceEnd | src/parser.rs:193-203 | `whitespace` stops on the first token that is not whitespace, or at the end; it fails only with a lexer panic. |
| TokenCursor.DigitsEnd | src/parser.rs:184-191 | `digits` stops on the first token that is not a `Digit` or `Zero`, or at the end; it fails only with a lexer panic. |
| TokenCursor.MatchEitherEnd | src/parser.rs:68-74 | With either kind at the window, the token is consumed exactly as `next_token` consumes it (a lexer panic while pulling is that panic); with neither kind there, the error names both kinds and the token found. |
| TokenCursor.IntegerEnd | src/parser.rs:156-166 | On success there is no illegal leading zero at the start or after the minus. A minus is followed by at least one digit. The integer stops on a token that is not a digit. |
| TokenCursor.FractionEnd | src/parser.rs:168-173 | A fraction consumes tokens only when it starts with a decimal point. |
| TokenCursor.ExponentEnd | src/parser.rs:175-182 | `exponent` consumes an `E` and at most one sign, and nothing else. It consumes a token exactly when an `E` is there. |
| TokenCursor.NumberEnd | src/parser.rs:150-154 | `number` stays inside the stream and never moves backwards. |
| TokenCursor.Cursor.Empty | src/parser.rs:12-16 | The struct literal: empty slots, nothing pulled. |
| TokenCursor.Cursor.Pull | src/parser.rs:19-20 | One pull returns the `next()` result of the stream at the pull count, and counts a yielded token. |
| TokenCursor.Cursor.New | src/parser.rs:11-23 | `new` succeeds or fails exactly as `Primed` does; on success the window is valid and at position 0. |
| TokenCursor.Cursor.NextToken | src/parser.rs:31-34 | `next_token` moves the window as `Advance` says; `curr` becomes the old `peek`. |
| TokenCursor.Cursor.IsKind | src/parser.rs:37-42 | True exactly when the token at the window's position has the kind. |
| TokenCursor.Cursor.IsNext | src/parser.rs:52-57 | True exactly when the token after the window's position has the kind. |
| TokenCursor.Cursor.IllegalLeadingZero | src/parser.rs:44-50 | Fails exactly when a `Zero` is followed by a `Digit` or `Zero`, with the line of the `Zero`. |
| TokenCursor.Cursor.MustMatchEither | src/parser.rs:68-74 | Agrees with `MatchEitherEnd`: consumes the token when it has either kind, otherwise panics naming both kinds and the token found. |
| TokenCursor.Cursor.Number | src/parser.rs:150-154 | Agrees with `NumberEnd`. |
| TokenCursor.Cursor.Integer | src/parser.rs:156-166 | Agrees with `IntegerEnd`. |
| TokenCursor.Cursor.Fraction | src/parser.rs:168-173 | Agrees with `FractionEnd`. |
| TokenCursor.Cursor.Exponent | src/parser.rs:175-182 | Agrees with `ExponentEnd`. |
| TokenCursor.Cursor.Digits | src/parser.rs:184-191 | The loop agrees with `DigitsEnd`. |
| TokenCursor.Cursor.Whitespace | src/parser.rs:193-203 | The loop agrees with `WhitespaceEnd`. |
| TokenCursor.WhitespaceRun | src/parser.rs:193-203 | Reference definition: `whitespace` ends exactly at the end of the whitespace run, unless the source panics while that run is read. |
| TokenCursor.DigitsRun | src/parser.rs:184-191 | Reference definition: `digits` ends exactly at the end of the digit run, unless the source panics while that run is read. |
| TokenCursor.WhitespaceSpan | src/parser.rs:193-203 | Every token `whitespace` skips is whitespace. |
| TokenCursor.DigitsSpan | src/parser.rs:184-191 | Every token `digits` skips is a `Digit` or `Zero`. |
| TokenCursor.IntegerSpan | src/parser.rs:156-166 | Every token `integer` consumes is a digit, except a leading minus. |
| TokenCursor.FractionSpan | src/parser.rs:168-173 | Every token after the decimal point that `fraction` consumes is a digit. |
| TokenCursor.WhitespaceIdempotent | src/parser.rs:193-203 | Skipping whitespace twice is skipping it once. |
| TokenCursor.WhitespacePrefix | src/parser.rs:193-203 | Skipping whitespace from anywhere inside a run of whitespace ends where skipping it from the start of the run does. |
| TokenCursor.IntegerLeadingZero | src/parser.rs:156-166 | `integer` reports an illegal leading zero exactly when a `Zero` followed by a digit starts the number or follows its minus. |
| TokenCursor.IntegerNeedsDigitAfterMinus | src/parser.rs:159-163 | A minus not followed by a `Digit` or `Zero` is the expected-either error for that token. |
| TokenCursor.ExponentLeavesDigits | src/parser.rs:175-182 | After `E` and a digit, `exponent` stops on the digit. |
| Parser.MatchEnd | src/parser.rs:59-66 | With the kind at the window, `must_match` consumes the token exactly as `next_token` does (a lexer panic while pulling is that panic); without it, the error names the kind and the token found. It succeeds only with the kind there. |
| Parser.ObjectEnd | src/parser.rs:89-99 | The object branch consumes at least the `{` and stays inside the stream. |
| Parser.ArrayEnd | src/parser.rs:101-111 | The array branch consumes at least the `[` and stays inside the stream. |
| Parser.ValueEnd | src/parser.rs:89-129 | A value consumes at least one token. |
| Parser.ElementEnd | src/parser.rs:85-132 | An element consumes at least one token and leaves the window on a token that is not whitespace. |
| Parser.ElementsEnd | src/parser.rs:76-83 | An element list consumes at least one token and never stops on a comma. |
| Parser.MembersEnd | src/parser.rs:134-140 | A member list consumes at least one token and never stops on a comma. |
| Parser.MemberEnd | src/parser.rs:142-148 | A member consumes at least one token. |
| Parser.StartEnd | src/parser.rs:25-29 | `start` succeeds only after reading every token with no lexer panic. |
| Parser.Run | src/parser.rs:11-29 | A document is accepted only when every token was read and the lexer did not panic. |
| Parser.ElementSkipsWhitespace | src/parser.rs:85-87 | Whitespace before an element is skipped: starting anywhere in a run of whitespace gives the same outcome, success or error, as starting after it. |
| Parser.ElementAroundWhitespace | src/parser.rs:85-132 | An element is a value with any run of whitespace before and after it, and ends after that trailing run. |
| Parser.EmptyArraySpaced | src/parser.rs:101-107 | `[`, any whitespace, then `]` is an empty array ending after the `]`. |
| Parser.EmptyObjectSpaced | src/parser.rs:89-95 | `{`, any whitespace, then `}` is an empty object ending after the `}`. |
| Parser.UnclosedArray | src/parser.rs:101-111 | An array whose elements end on a token other than `]` is rejected with `]` expected and that token named. |
| Parser.UnclosedObject | src/parser.rs:89-99 | An object whose members end on a token other than `}` is rejected with `}` expected and that token named. |
| Parser.Parser.constructor | src/parser.rs:11-23 | The struct holds the given window. |
| Parser.Parser.New | src/parser.rs:11-23 | Fails exactly as `Primed`; on success the window is fresh, valid and at position 0. |
| Parser.Parser.Start | src/parser.rs:25-29 | The loop agrees with `StartEnd`. |
| Parser.Parser.MustMatch | src/parser.rs:59-66 | Agrees with `MatchEnd`: consumes the token when it has the kind, otherwise panics naming the kind and the token found. |
| Parser.Parser.Elements | src/parser.rs:76-83 | Agrees with `ElementsEnd`. |
| Parser.Parser.Element | src/parser.rs:85-132 | Agrees with `ElementEnd`. |
| Parser.Parser.Value | src/parser.rs:89-129 | Agrees with `ValueEnd`. |
| Parser.Parser.Object | src/parser.rs:89-99 | Agrees with `ObjectEnd`. |
| Parser.Parser.Array | src/parser.rs:101-111 | Agrees with `ArrayEnd`. |
| Parser.Parser.Members | src/parser.rs:134-140 | Agrees with `MembersEnd`. |
| Parser.Parser.Member | src/parser.rs:142-148 | Agrees with `MemberEnd`. |
| Parsizer.MatchEnd | src/parsizer.rs:63-70 | Without the kind, the error names the kind and the token found. With the kind but nothing after it, the error is a missing look-ahead on that token's line. With the kind and a token after it, the token is consumed exactly as `next_token` consumes it. |
| Parsizer.ObjectEnd | src/parsizer.rs:95-103 | The object branch consumes at least the `{` and stays inside the stream. |
| Parsizer.ArrayEnd | src/parsizer.rs:105-112 | The array branch consumes at least the `[` and stays inside the stream. |
| Parsizer.ValueEnd | src/parsizer.rs:95-132 | A value consumes at least one token. |
| Parsizer.ElementEnd | src/parsizer.rs:91-135 | An element consumes at least one token. |
| Parsizer.ElementsEnd | src/parsizer.rs:80-89 | An element list consumes at least one token and never stops on a comma. |
| Parsizer.MembersEnd | src/parsizer.rs:137-146 | A member list consumes at least one token and never stops on a comma. |
| Parsizer.MemberEnd | src/parsizer.rs:148-155 | A member consumes at least one token. |
| Parsizer.StartEnd | src/parsizer.rs:28-32 | `start` succeeds only after reading every token with no lexer panic. |
| Parsizer.Run | src/parsizer.rs:14-32 | A document is accepted only when every token was read and the lexer did not panic. |
| Parsizer.UnclosedArray | src/parsizer.rs:105-112 | An array whose elements end on a token other than `]` is rejected with `]` expected and that token named. |
| Parsizer.UnclosedObject | src/parsizer.rs:95-103 | An object whose members end on a token other than `}` is rejected with `}` expected and that token named. |
| Parsizer.Parser.constructor | src/parsizer.rs:14-26 | The struct holds the given window. |
| Parsizer.Parser.New | src/parsizer.rs:14-26 | Fails exactly as `Primed`; on success the window is fresh, valid and at position 0. |
| Parsizer.Parser.Start | src/parsizer.rs:28-32 | The loop agrees with `StartEnd`. |
| Parsizer.Parser.MustMatch | src/parsizer.rs:63-70 | Agrees with `MatchEnd`: the wrong kind, and the right kind with no `peek`, are its two panics; otherwise the token is consumed. |
| Parsizer.Parser.Elements | src/parsizer.rs:80-89 | Agrees with `ElementsEnd`. |
| Parsizer.Parser.Element | src/parsizer.rs:91-135 | Agrees with `ElementEnd`. |
| Parsizer.Parser.Value | src/parsizer.rs:95-132 | Agrees with `ValueEnd`. |
| Parsizer.Parser.Object | src/parsizer.rs:95-103 | Agrees with `ObjectEnd`. |
| Parsizer.Parser.Array | src/parsizer.rs:105-112 | Agrees with `ArrayEnd`. |
| Parsizer.Parser.Members | src/parsizer.rs:137-146 | Agrees with `MembersEnd`. |
| Parsizer.Parser.Member | src/parsizer.rs:148-155 | Agrees with `MemberEnd`. |
| Comparison.ElementsAfterWhitespace | src/parser.rs:76-87 | Whitespace before an element list belongs to its first element. |
| Comparison.MembersStartWithName | src/parsizer.rs:148-151 | A member list the earlier validator accepts starts with a name once whitespace is skipped. |
| Comparison.ElementsStartWithValue | src/parsizer.rs:80-135 | An element list the earlier validator accepts starts with a value, never with `]`. |
| Comparison.ObjectRefines | src/parser.rs:89-99 | An object the earlier validator accepts is accepted by the later one, ending at the same token. |
| Comparison.ArrayRefines | src/parser.rs:101-111 | An array the earlier validator accepts is accepted by the later one, ending at the same token. |
| Comparison.ValueRefines | src/parser.rs:89-129 | A value the earlier validator accepts is accepted by the later one, ending at the same token. |
| Comparison.ElementRefines | src/parser.rs:85-132 | An element the earlier validator accepts is accepted by the later one, ending at the same token. |
| Comparison.SizerElementsNext | src/parsizer.rs:80-89 | After an element and a comma, the earlier validator's list goes on from the token after the comma. |
| Comparison.SizerElementsLast | src/parsizer.rs:80-89 | An element not followed by a comma is the whole list. |
| Comparison.ElementsNext | src/parser.rs:76-83 | An element, a comma and a list make a list. |
| Comparison.ElementsLast | src/parser.rs:76-83 | An element not followed by a comma is the whole list. |
| Comparison.SizerMembersNext | src/parsizer.rs:137-146 | After a member and a comma, the earlier validator's list goes on from the token after the comma. |
| Comparison.SizerMembersLast | src/parsizer.rs:137-146 | A member not followed by a comma is the whole list. |
| Comparison.MembersNext | src/parser.rs:134-140 | A member, a comma and a list make a list. |
| Comparison.MembersLast | src/parser.rs:134-140 | A member not followed by a comma is the whole list. |
| Comparison.SizerElementsHead | src/parsizer.rs:80-83 | An accepted element list starts with an accepted element. |
| Comparison.SizerMembersHead | src/parsizer.rs:137-139 | An accepted member list starts with an accepted member. |
| Comparison.ElementsRefines | src/parser.rs:76-83 | An element list the earlier validator accepts is accepted by the later one, ending at the same token. |
| Comparison.MoreElementsRefine | src/parser.rs:79-82 | The same, for a list that goes on after a comma. |
| Comparison.MembersRefines | src/parser.rs:134-140 | A member list the earlier validator accepts is accepted by the later one, ending at the same token. |
| Comparison.MoreMembersRefine | src/parser.rs:136-139 | The same, for a list that goes on after a comma. |
| Comparison.MemberParts | src/parsizer.rs:148-155 | An accepted member is whitespace, a name, whitespace, a colon, then an element. |
| Comparison.MemberFromParts | src/parser.rs:142-148 | Those parts make a member of the later validator, ending where its element ends. |
| Comparison.MemberRefines | src/parser.rs:142-148 | A member the earlier validator accepts is accepted by the later one, ending at the same token. |
| Acceptance.CloserStops | src/parser.rs:175-203 | A comma, closing bracket or end of input ends whitespace, digits, a fraction and an exponent. |
| Acceptance.EmitStart | src/parser.rs:89-129 | Every value is written with at least one token, and its first token is neither whitespace nor a closer. |
| Acceptance.IntegerAccepted | src/parser.rs:156-166 | An optional minus and a digit run without a redundant leading zero is read by `integer` up to the token after it. |
| Acceptance.FractionAccepted | src/parser.rs:168-173 | A decimal point and a non-empty digit run is read by `fraction` up to the token after it. |
| Acceptance.DigitRun | src/parser.rs:184-191 | The tokens spelling a digit sequence are all digits. |
| Acceptance.LiteralStep | src/parser.rs:113-118 | A string or keyword token is a value of one token. |
| Acceptance.NumberStep | src/parser.rs:120-124 | A number token whose integer and fraction parts are read, with no `E` after them, is a value ending after the fraction. |
| Acceptance.EmptyArrayStep | src/parser.rs:101-107 | `[]` is a value of two tokens. |
| Acceptance.EmptyObjectStep | src/parser.rs:89-95 | `{}` is a value of two tokens. |
| Acceptance.ArrayStep | src/parser.rs:101-111 | `[`, an element list and `]` make a value. |
| Acceptance.ObjectStep | src/parser.rs:89-99 | `{`, a member list and `}` make a value. |
| Acceptance.ElementStep | src/parser.rs:85-132 | A value with no whitespace before or after it is an element ending where the value ends. |
| Acceptance.ItemsStep | src/parser.rs:76-83 | An element, a comma and a list make a list. |
| Acceptance.ItemsLast | src/parser.rs:76-83 | An element not followed by a comma is a list. |
| Acceptance.MembersStep | src/parser.rs:134-140 | A member, a comma and a list make a list. |
| Acceptance.MembersLast | src/parser.rs:134-140 | A member not followed by a comma is a list. |
| Acceptance.MemberStep | src/parser.rs:142-148 | A name, a colon and an element make a member. |
| Acceptance.IntegerParts | src/parser.rs:156-166 | The tokens of a well-formed integer: an optional minus, then digits with no redundant leading zero. |
| Acceptance.FractionParts | src/parser.rs:168-173 | The tokens of a well-formed fraction: a decimal point, then at least one digit. |
| Acceptance.NumberParts | src/parser.rs:150-154 | The tokens of a well-formed number split into its sign, its integer digits and its fraction. |
| Acceptance.NumberAccepted | src/parser.rs:150-173 | A well-formed number followed by a closer, whitespace or the end of input is a value ending there. |
| Acceptance.ValueAccepted | src/parser.rs:89-129 | Every well-formed value, written out and followed by a closer, whitespace or the end of input, is accepted as a value ending there. |
| Acceptance.ArrayParts | src/parser.rs:101-111 | The tokens of an array: `[`, its items, `]`, and its first item starts with neither whitespace nor a closer. |
| Acceptance.ArrayAccepted | src/parser.rs:101-111 | Every well-formed array is accepted, ending after its `]`, whatever follows it. |
| Acceptance.ObjectParts | src/parser.rs:89-99 | The tokens of an object: `{`, its members, `}`, and its first member starts with a name. |
| Acceptance.ObjectAccepted | src/parser.rs:89-99 | Every well-formed object is accepted, ending after its `}`, whatever follows it. |
| Acceptance.ElementAccepted | src/parser.rs:85-132 | Every well-formed value followed by a closer is an element ending at the closer. |
| Acceptance.ItemsSplit | src/parser.rs:76-83 | The tokens of a list of two or more items: the first item, a comma, the rest. |
| Acceptance.ItemsAccepted | src/parser.rs:76-83 | Every non-empty list of well-formed items, comma-separated and followed by a closer, is an element list ending at the closer. |
| Acceptance.MoreItemsAccepted | src/parser.rs:79-82 | The same, for two or more items. |
| Acceptance.ItemsCons | src/parser.rs:76-83 | An accepted first item, a comma and an accepted rest make an accepted list. |
| Acceptance.MemberHead | src/parser.rs:142-148 | A member list starts with a name, a colon and the first member's value. |
| Acceptance.MembersSplit | src/parser.rs:134-140 | The tokens of two or more members: the first member, a comma, the rest. |
| Acceptance.MembersAccepted | src/parser.rs:134-140 | Every non-empty list of well-formed members, written out and followed by a closer, is a member list ending at the closer. |
| Acceptance.MoreMembersAccepted | src/parser.rs:136-139 | The same, for two or more members. |
| Acceptance.MembersCons | src/parser.rs:134-140 | An accepted first member, a comma and an accepted rest make an accepted list. |
| Acceptance.MemberAccepted | src/parser.rs:142-148 | A name, a colon and a well-formed value followed by a closer make a member ending at the closer. |
| Acceptance.DocumentAccepted | src/parser.rs:11-29 | A token stream that spells exactly one well-formed value, with no lexer panic, is an accepted document. |
| Acceptance.SpacedDocumentAccepted | src/parser.rs:11-29 | A token stream of one well-formed value with any whitespace before and after it, and no lexer panic, is an accepted document. |
| Examples.NoWhitespace | src/parser.rs:193-203 | `whitespace` stays put on a token that is not whitespace. |
| Examples.DigitNumber | src/parser.rs:150-166 | One digit followed by a stop is a number of one token. |
| Examples.DigitElement | src/parser.rs:85-132 | One digit followed by a stop is an element for both validators. |
| Examples.ExponentNumber | src/parser.rs:175-182 | In `1e5` the number ends before the `5`. |
| Examples.ExponentElement | src/parser.rs:85-132 | In `1e5` the element ends before the `5`. |
| Examples.NoElement | src/parser.rs:126-129 | Both validators reject a stop where a value should be, naming the token found. |
| Examples.ParserRunFirst | src/parser.rs:25-29 | A document's first element decides it when it fails or reads everything. |
| Examples.ParserRunRest | src/parser.rs:25-29 | After the first element the document goes on from where it stopped. |
| Examples.SizerRunFirst | src/parsizer.rs:28-32 | The same for the earlier validator's element lists. |
| Examples.SmallObjectAccepted | src/parser.rs:89-99 | `{"a":1}` is a document. |
| Examples.SmallObjectAcceptedBySizer | src/parsizer.rs:95-103 | `{"a":1}` with a trailing line feed is a document for the earlier validator. |
| Examples.LeadingZeroRejected | src/parser.rs:44-50 | `{"a":01}` is the leading-zero error on the line of the `0`. |
| Examples.TrailingCommaRejected | src/parser.rs:76-83 | `[1,2,]` is rejected at the `]`. |
| Examples.ExponentAtTopLevelAccepted | src/parser.rs:175-182 | `1e5` is a document: the `5` is read as a second element. |
| Examples.ExponentInArrayRejected | src/parser.rs:175-182 | `[1e5]` is rejected: `]` is expected where the `5` is. |
| Examples.SpacedEmptyArrayAccepted | src/parser/tests.rs:16-32 | The parser test's ` [] ` is a document. |
| Examples.EmptyArrayAccepted | src/parser.rs:106-107 | `[]` is a document. |
| Examples.EmptyObjectAccepted | src/parser.rs:94-95 | `{}` is a document. |
| Examples.EmptyArrayRejectedBySizer | src/parsizer.rs:105-112 | The earlier validator rejects `[]` at the `]`. |
| Examples.EmptyObjectRejectedBySizer | src/parsizer.rs:95-103 | The earlier validator rejects `{}`, expecting a name at the `}`. |
| Examples.SmallArrayAccepted | src/parser.rs:101-111 | `[1]` is a document. |
| Examples.ClosingLastTokenRejectedBySizer | src/parsizer.rs:63-70 | The earlier validator rejects `[1]`: it cannot match a `]` that is the last token. |
| Examples.ClosingWithLookaheadAcceptedBySizer | src/parsizer.rs:63-70 | With a line feed after it, `[1]` is accepted by the earlier validator. |
| Examples.TopLevelCommasAcceptedBySizer | src/parsizer.rs:28-32 | The earlier validator accepts `1,2` as a document. |
| Examples.TopLevelCommasRejected | src/parser.rs:25-29 | The later validator rejects `1,2` at the comma. |
| Examples.WhitespaceOnlyRejected | src/parser.rs:126-129 | A document of a line feed alone is rejected by both, with no token to name. |
| Examples.EarlyLexerPanic | src/parser.rs:11-23 | A lexer panic while `new` fills the window is the validators' panic. |

## Left out

- Character classes: `char::is_numeric` and `char::is_alphabetic` are modelled on ASCII only (`0`-`9`, `a`-`z`, `A`-`Z`). Other Unicode digits and letters are unexpected characters in the model, while the source takes them as `Digit` tokens or keyword letters.
- Line counts and positions are unbounded naturals; the source's `usize` cannot overflow on any input that fits in memory.
- Panic messages and their formatting are not modelled, only which panic happens and the line or token it names. A panic whose message would unwrap an absent token carries `None`; the source then panics on that unwrap instead.
- src/main.rs (reading the file, choosing a validator) and every `println!` trace are I/O and left out.
- The state of the iterator or window after a panic is not modelled, since the run is over.
- TokenCursor.Cursor.NextToken: it pulls the new `peek` before it moves `curr`, where the source moves first. This differs only in the state left after a lexer panic, which ends the run.
- src/tokenizer.rs repeats src/lexer.rs; the model has one lexer for both. The tokenizer's constructor, which boxes the iterator, is not modelled separately.
- The window procedures (`next_token`, `is_kind`, `is_next`, `illegal_leading_zero`, `must_match_either`, `number`, `integer`, `fraction`, `exponent`, `digits`, `whitespace`) are identical in src/parser.rs and src/parsizer.rs and are modelled once, in `TokenCursor`.
- Recursion depth: the source can overflow its stack on deeply nested input; the model has no depth limit.
- `element` is modelled as `whitespace`, then `Value` (its four branches, with the object and array branches as `Object` and `Array`), then `whitespace`.
- Acceptance.DocumentAccepted: it covers values without exponents and without whitespace between tokens. Exponents are left out because `exponent` does not read the exponent's digits, so a number with an exponent is not accepted inside a container. Whitespace is left out because the value description `Emit` is a plain token sequence with no whitespace runs: adding a run at every place the grammar skips one (after `[` and `{`, around each element, around each name) would give every acceptance lemma a whitespace case at each of those places. Whitespace is covered instead by separate all-input lemmas: `Acceptance.SpacedDocumentAccepted` (around the whole value), `Parser.ElementSkipsWhitespace` and `Parser.ElementAroundWhitespace` (around any element, inside arrays and members too), `Parser.EmptyArraySpaced` and `Parser.EmptyObjectSpaced`.
- Acceptance.ValueAccepted: the same restriction to values without exponents or whitespace inside them. Whitespace after the value is allowed.
- The example documents are given as token kinds, not as character strings; what they prove holds whatever the tokens' texts and lines.
