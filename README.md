# A JSON-like tokenizer and parser, modelled in Dafny

This project models the two stages of `rust-json-parcer`, a small JSON-like reader written in Rust.

- **The tokenizer** (`src/tokenizer.rs`) makes one left-to-right pass over the characters of a text, with one character of peek. It yields a vector of tokens: Number, String, Bool, Null, the braces and brackets, Comma and Colon.
- **The parser** (`src/parser.rs`) is a recursive-descent parser over a forward-only token cursor, with one token of peek. It builds an `Element` tree of strings, numbers, booleans, null, objects (ordered members with a key and a value) and arrays.

Both are imperative in the source. The model follows that form:

- `Lexing.Tokenizer` is a class holding the input characters `chars` and a cursor `pos`. Its methods are `Tokenize` and the pieces it is built from. Each method moves the cursor and is proved against a specification function of the characters ahead of the cursor:
  - `Tokenize` against `Lexing.Lex`, which gives the outcome of the call and the number of characters consumed;
  - `ReadLexeme`, one turn of the outer loop, against `Lexing.FirstLexeme`;
  - the inner loops `ReadRun`, `ReadString` and `ExpectChars` against `Lexing.RunLength`, `Lexing.QuoteIndex` and `Lexing.MatchLength`.
- `Parsing.Parser` is a class holding the tokens and a cursor. Its methods are the mutually recursive `Parse`, `ParseElement`, `ParseObject`, `ParseMembers`, `ParseMember`, `ParseArray` and `ParseElements`. Each is proved against a position-threading specification function (`ElementAt`, `ObjectAt`, …) that maps a start position to a tree and the position after it, or to a failure.

A Rust panic from `unwrap` or `expect` is the `Panic` outcome of `Outcomes.Outcome`, beside `Ok` and `Err`. The module `Pipeline` puts the stages together as the source's tests do: tokenize, unwrap, then `parse`.

Properties are proved about the specification functions:

- `LexingProperties` covers each kind of lexeme, which inputs produce no token, the shape of the tokens a successful call yields, and that well-formed tokens, laid out with spaces, tabs and newlines between them, tokenize back to them, provided no Number is directly followed, with no gap, by a Number that starts with a digit or a dot. Without that condition `Number("1")` then `Number("2")` lex as the one number `12`.
- `ParsingProperties` covers leaves, error returns, what a successful parse looks at, the comma rules of the two loops, trailing commas, truncation, and the round trip from any tree to its tokens and back.
- `Pipeline.DecodeEncode` and `Pipeline.DecodeLayout` combine the two round trips. Every tree whose tokens are well formed decodes back to itself from its tokens written out with single spaces (`DecodeEncode`), or with any layout that meets the condition above (`DecodeLayout`). The condition matters: a tree such as `Number("x")` has no text that tokenizes to it.
- The unit tests of both files are restated as lemmas in `LexingTests` and `ParsingTests`.

Four behaviours of the source worth knowing:

- A string that the input ends inside yields no token and no error. The call succeeds with the tokens read before it (`LexingProperties.LexUnterminatedString`).
- `parse_element` on an exhausted token stream returns `Err(ParseError::ParseError)`, not `UnexpectedEof`. `UnexpectedEof` is declared but never produced.
- Running out of tokens inside a container panics rather than returning an error, since every failure passes through `expect` (`ParsingProperties.Truncated`).
- The `Err(ParseError::ParseError)` after the closer check of `parse_object` and `parse_array` is never returned: each loop stops only before its own closer or at the end of the tokens, and a wrong closer has already made the loop panic (`ParsingProperties.ContainersNeverErr`).

## Model

| member | source | states |
|---|---|---|
| Lexing.FirstLexeme | src/tokenizer.rs:42-128 | one turn of the outer loop always consumes at least one character and never more than remain |
| Lexing.Lex | src/tokenizer.rs:39-133 | the scan never reads past the input, and a successful call has consumed the whole input |
| Lexing.RunLength | src/tokenizer.rs:47-49 | the number run is the longest prefix of digits and dots: all of it continues a number and the next character does not |
| Lexing.QuoteIndex | src/tokenizer.rs:56-64 | the string body stops at the first `"`, or runs to the end of the input when there is none |
| Lexing.MatchLength | src/tokenizer.rs:70-80 | the keyword loop matches a prefix of the required characters and stops at the first mismatch or at the end of input |
| Lexing.Tokenizer.constructor | src/tokenizer.rs:30-35 | a new tokenizer holds the text with its cursor at the start |
| Lexing.Tokenizer.ExpectChars | src/tokenizer.rs:70-80 | the `for` loop over `required_chars` consumes exactly the matching prefix and succeeds iff all required characters follow |
| Lexing.Tokenizer.ReadRun | src/tokenizer.rs:47-49 | the inner number loop consumes and returns exactly the maximal run of digits and dots |
| Lexing.Tokenizer.ReadString | src/tokenizer.rs:53-64 | the string loop returns the characters before the next `"` and consumes that quote, or consumes the whole rest when it is missing |
| Lexing.Tokenizer.ReadLexeme | src/tokenizer.rs:43-128 | one iteration of the outer loop yields what `FirstLexeme` says and moves the cursor by its width |
| Lexing.Tokenizer.Tokenize | src/tokenizer.rs:39-133 | `tokenize` returns `Lex` of the characters ahead of the cursor and leaves the cursor where `Lex` stops |
| LexingProperties.LexNumber | src/tokenizer.rs:44-51 | a Number lexeme is its start character and the maximal digit-and-dot run after it; it becomes a token when f64 parsing accepts it and panics otherwise |
| LexingProperties.LexString | src/tokenizer.rs:53-64 | a String token holds exactly the characters between the quotes, and scanning goes on after the closing quote |
| LexingProperties.LexUnterminatedString | src/tokenizer.rs:56-64 | an input ending inside a string gives success with no token and consumes everything |
| LexingProperties.LexKeyword | src/tokenizer.rs:66-122 | `null`, `true` and `false` give `Null`, `Bool(true)` and `Bool(false)`, consume exactly their letters, and need no separator after them |
| LexingProperties.LexKeywordMismatch | src/tokenizer.rs:66-122 | a literal cut short by a different character or by the end of input fails with `InvalidCharacter` of its initial letter |
| LexingProperties.LexStructural | src/tokenizer.rs:123-125 | each of `{ } [ ] , :` (lines 84-86 and 123-125) yields its one token with no lookahead |
| LexingProperties.LexSkipped | src/tokenizer.rs:126 | space, newline and tab are skipped without changing the outcome |
| LexingProperties.LexInvalid | src/tokenizer.rs:127 | any other character fails the call with that character, after consuming one character |
| LexingProperties.LexDiscards | src/tokenizer.rs:127 | an invalid character fails the whole call whatever tokens came before it; those tokens are discarded |
| LexingProperties.LexSilent | src/tokenizer.rs:39-131 | a call succeeds with no token exactly when the input is skipped characters, possibly followed by an unterminated string |
| LexingProperties.LexWellFormed | src/tokenizer.rs:44-64 | every token of a successful call is well formed: a Number lexeme has the scanned shape and parses as f64, and a String holds no quote |
| LexingProperties.LexLexeme | src/tokenizer.rs:43-128 | the lexeme of any well-formed token scans back to that token when nothing after it extends a number |
| LexingProperties.LexUnlexThen | src/tokenizer.rs:39-133 | written-out tokens followed by any text give those tokens first, then what the text gives; a failure in the text fails the call |
| LexingProperties.UnlexRoundTrip | src/tokenizer.rs:39-133 | writing well-formed tokens out with spaces and tokenizing gives the same tokens in the same order |
| LexingProperties.LexBlank | src/tokenizer.rs:126 | a stretch of whitespace yields nothing before whatever follows it |
| LexingProperties.LexLayout | src/tokenizer.rs:39-133 | any whitespace layout of well-formed tokens in which no Number is directly followed by a Number starting with a digit or a dot tokenizes back to exactly those tokens |
| LexingProperties.LexUnlexLex | src/tokenizer.rs:39-133 | the tokens of any text that tokenizes are reproduced from their own written-out text |
| LexingTests.NumberTokenize | src/tokenizer.rs:140-160 | `1` and `1.6` each tokenize to one Number token with that lexeme |
| LexingTests.LeadingDotTokenize | src/tokenizer.rs:153-155 | `.1` tokenizes to one Number token |
| LexingTests.SignedNumberTokenize | src/tokenizer.rs:145-151 | `-1` and `+1` tokenize to one Number token each, with the sign in the lexeme |
| LexingTests.SignSplitsNumbers | src/tokenizer.rs:44-49 | `1-2` tokenizes to two numbers, because a sign only starts a lexeme |
| LexingTests.NumberPanics | src/tokenizer.rs:51 | the lexemes `+` and `.` fail f64 parsing, so the call panics |
| LexingTests.SecondDotPanics | src/tokenizer.rs:47-51 | `1.2.3` is collected as one run, then rejected by f64 parsing, so the call panics |
| LexingTests.StringTokenize | src/tokenizer.rs:162-167 | `"hello world"` tokenizes to one String token |
| LexingTests.EscapeKept | src/tokenizer.rs:381 | the escape text `\u3053\u3093` inside a string is kept verbatim, backslashes included |
| LexingTests.ArrayTokenize | src/tokenizer.rs:169-185 | the array of two non-ASCII strings tokenizes to the five expected tokens |
| LexingTests.KeywordTokenize | src/tokenizer.rs:186-208 | `true`, `false` and `null` tokenize to their tokens |
| LexingTests.KeywordErrors | src/tokenizer.rs:66-127 | `nul` and `tru]` fail with their initial letter, and `a` fails with itself |
| LexingTests.ObjectTokenize | src/tokenizer.rs:210-230 | the indented one-member object tokenizes to the five expected tokens |
| Parsing.ElementAt | src/parser.rs:74-89 | a successful element consumes at least one token and no more than there are |
| Parsing.ObjectAt | src/parser.rs:91-103 | a successful object consumes at least its closing token |
| Parsing.MembersAt | src/parser.rs:105-121 | the member loop never returns `Err` and stops within the tokens |
| Parsing.MemberAt | src/parser.rs:123-134 | a successful member consumes its key, its colon and at least one value token |
| Parsing.ArrayAt | src/parser.rs:136-146 | a successful array consumes at least its closing token |
| Parsing.ElementsAt | src/parser.rs:148-166 | the element loop never returns `Err` and stops within the tokens |
| Parsing.RootAt | src/parser.rs:69-73 | `parse` never returns `Err`, and it succeeds exactly when `parse_element` does |
| Parsing.Parser.constructor | src/parser.rs:63-67 | a new parser holds the tokens with its cursor at the start |
| Parsing.Parser.Parse | src/parser.rs:69-73 | `parse` returns what `RootAt` gives, with the cursor after the element on success |
| Parsing.Parser.ParseElement | src/parser.rs:74-89 | `parse_element` returns the outcome of `ElementAt` and, on success, leaves the cursor where it says |
| Parsing.Parser.ParseObject | src/parser.rs:91-103 | `parse_object` agrees with `ObjectAt` |
| Parsing.Parser.ParseMembers | src/parser.rs:105-121 | the `while let` loop of `parse_members` agrees with `MembersAt` |
| Parsing.Parser.ParseMember | src/parser.rs:123-134 | `parse_member` agrees with `MemberAt` |
| Parsing.Parser.ParseArray | src/parser.rs:136-146 | `parse_array` agrees with `ArrayAt` |
| Parsing.Parser.ParseElements | src/parser.rs:148-166 | the `while let` loop of `parse_elements` agrees with `ElementsAt` |
| ParsingProperties.ElementLeaf | src/parser.rs:75-80 | a String, Number, Bool or Null token becomes the matching leaf and consumes exactly one token |
| ParsingProperties.ElementRejects | src/parser.rs:83-85 | a Comma, Colon or closer in element position is `UnexpectedToken` of it, and an exhausted stream is `ParseError`, not `UnexpectedEof` |
| ParsingProperties.ContainerDelimiters | src/parser.rs:91-146 | a parsed object starts with `{` and ends with `}`, and a parsed array starts with `[` and ends with `]` |
| ParsingProperties.ElementFrame | src/parser.rs:74-89 | a successful element depends only on the tokens it consumed |
| ParsingProperties.ObjectFrame | src/parser.rs:91-103 | a successful object depends only on the tokens it consumed |
| ParsingProperties.ArrayFrame | src/parser.rs:136-146 | a successful array depends only on the tokens it consumed |
| ParsingProperties.MembersFrame | src/parser.rs:105-121 | the member loop depends only on what it consumed and the closer it peeks |
| ParsingProperties.MemberFrame | src/parser.rs:123-134 | a successful member depends only on the tokens it consumed |
| ParsingProperties.ElementsFrame | src/parser.rs:148-166 | the element loop depends only on what it consumed and the closer it peeks |
| ParsingProperties.RootIgnoresRest | src/parser.rs:69-73 | `parse` reads one element from the front and ignores any tokens after it |
| ParsingProperties.Truncated | src/parser.rs:91-166 | running out of tokens anywhere inside an element, right after a comma too, panics |
| ParsingProperties.MemberShapeRule | src/parser.rs:123-134 | `parse_member` succeeds exactly when a String key and a Colon are followed by an element that parses, and any other shape returns `Err(ParseError)` |
| ParsingProperties.MembersBadShape | src/parser.rs:108-117 | where the member loop expects a member and finds neither `}` nor a String key followed by a Colon, the call panics |
| ParsingProperties.MembersWrongCloser | src/parser.rs:108-117 | a `]` where the member loop expects a member or `}` makes the call panic |
| ParsingProperties.ElementsWrongCloser | src/parser.rs:151-161 | a `}` where the element loop expects an element or `]` is `UnexpectedToken` to `parse_element`, and the call panics |
| ParsingProperties.MembersStop | src/parser.rs:107-120 | the member loop ends only at the end of the tokens or before a `}` |
| ParsingProperties.ElementsStop | src/parser.rs:150-165 | the element loop ends only at the end of the tokens or before a `]` |
| ParsingProperties.ContainersNeverErr | src/parser.rs:91-103 | `parse_object` and `parse_array` never return `Err`: their closer check finds the right closer or panics on an exhausted stream |
| ParsingProperties.ElementsCommaOptional | src/parser.rs:151-157 | one comma where the element loop peeks is skipped, before an item and before `]` alike |
| ParsingProperties.ElementsDoubleComma | src/parser.rs:151-161 | a second comma in a row reaches `parse_element` and the call panics |
| ParsingProperties.ElementsStep | src/parser.rs:159-162 | one turn of the element loop puts the item in front of the items after it |
| ParsingProperties.MembersStep | src/parser.rs:116-117 | one turn of the member loop puts the member in front of the members after it |
| ParsingProperties.MembersCommaOptional | src/parser.rs:108-115 | one comma where the member loop peeks is skipped, before a member and before `}` alike |
| ParsingProperties.MembersDoubleComma | src/parser.rs:108-116 | a second comma in a row in an object makes the call panic |
| ParsingProperties.ElementsTrailingComma | src/parser.rs:153-158 | a comma added before the `]` that ends the element loop leaves the items unchanged |
| ParsingProperties.MembersTrailingComma | src/parser.rs:110-115 | a comma added before the `}` that ends the member loop leaves the members unchanged |
| ParsingProperties.ArrayTrailingComma | src/parser.rs:136-166 | an array with a trailing comma added parses to the same tree |
| ParsingProperties.ObjectTrailingComma | src/parser.rs:91-121 | an object with a trailing comma added parses to the same tree |
| ParsingProperties.ElementRoundTrip | src/parser.rs:74-89 | the tokens of any tree, wherever they stand, parse back to that tree and end after its last token |
| ParsingProperties.ObjectRoundTrip | src/parser.rs:91-103 | the members of any object and its `}` parse back to that object |
| ParsingProperties.ArrayRoundTrip | src/parser.rs:136-146 | the elements of any array and its `]` parse back to that array |
| ParsingProperties.MemberRoundTrip | src/parser.rs:123-134 | the tokens of any member parse back to it |
| ParsingProperties.MembersRoundTrip | src/parser.rs:105-121 | the tokens of any member series, then `}`, parse back to the same members in the same order, duplicate keys kept |
| ParsingProperties.MembersRoundTripCons | src/parser.rs:108-117 | with two members or more, each comma is skipped and each member is read in turn |
| ParsingProperties.ElementsRoundTrip | src/parser.rs:148-166 | the tokens of any element series, then `]`, parse back to the same elements in the same order |
| ParsingProperties.ElementsRoundTripCons | src/parser.rs:151-162 | with two elements or more, each comma is skipped and each element is read in turn |
| ParsingProperties.RootRoundTrip | src/parser.rs:69-73 | `parse` reads any tree back from its tokens, whatever tokens follow them |
| Pipeline.Decode | src/parser.rs:175-181 | tokenizing then parsing never returns `Err`; it succeeds exactly when both stages do, with the tree `parse_element` builds |
| Pipeline.DecodeText | src/parser.rs:175-181 | `get_parser` then `parse`, run on the two classes, gives `Decode` of the text |
| Pipeline.DecodeTokens | src/parser.rs:175-181 | a text laid out from tokens decodes to what the parser makes of those tokens |
| Pipeline.DecodeLayout | src/parser.rs:175-181 | any tree whose tokens are well formed, written out with a whitespace layout in which no Number is directly followed by a Number starting with a digit or a dot, decodes back to itself |
| Pipeline.DecodeEncode | src/parser.rs:175-181 | any tree with well-formed tokens, written out with spaces, decodes back to itself |
| ParsingTests.ParseString | src/parser.rs:183-192 | `"これは文字列"` decodes to that String element |
| ParsingTests.ParseEmptyObject | src/parser.rs:195-205 | `{}` with its surrounding newlines decodes to the empty object |
| ParsingTests.ParseEmptyArray | src/parser.rs:151-157 | `[]` decodes to the empty array |
| ParsingTests.ParseOneMember | src/parser.rs:207-226 | the indented one-member object decodes to that object |
| ParsingTests.ParseTrailingCommas | src/parser.rs:228-262 | the tokens of the nested object with trailing commas parse to the expected tree |
| ParsingTests.ParseInnerTrailingComma | src/parser.rs:264-298 | the same tree comes from the tokens with only the inner trailing comma |
| ParsingTests.ParseNumberArray | src/parser.rs:302-321 | `[1,2,3]` decodes to an array of three numbers |
| ParsingTests.ParseMixedArray | src/parser.rs:323-341 | `[1, "string", null]` decodes to the mixed array |
| ParsingTests.ParseNestedArray | src/parser.rs:343-368 | the tokens of the object holding that array parse to the expected tree |
| ParsingTests.CommasOptional | src/parser.rs:151-163 | `[1 2]` decodes to an array of two numbers |
| ParsingTests.LeadingComma | src/parser.rs:151-158 | `[,1]` decodes to an array of one number |
| ParsingTests.DoubleComma | src/parser.rs:151-161 | `[1,,2]` panics |
| ParsingTests.CommaOnlyObject | src/parser.rs:108-115 | `{,}` decodes to the empty object |
| ParsingTests.MemberShape | src/parser.rs:123-133 | two instances: `{1:2}` and `{"a" 1}`, as tokens, make `parse` panic |
| ParsingTests.Unclosed | src/parser.rs:98-145 | four instances: `[1}`, `{"a":1]`, `[1,` and `{`, as tokens, make `parse` panic |
| ParsingTests.ElementErrors | src/parser.rs:83-85 | `parse_element` returns `UnexpectedToken` on a closer and `ParseError` on no tokens, and `parse` panics on both |
| ParsingTests.RestIgnored | src/parser.rs:69-73 | `1 ]` decodes to the number alone |

## Left out

- The numeric value of a Number. The source converts its lexeme with `parse::<f64>().unwrap()` (src/tokenizer.rs:51), which is floating-point arithmetic. The model keeps the lexeme as the payload. Only whether the conversion succeeds is modelled, by `Lexing.ParsesAsF64`, after the grammar Rust documents for `f64::from_str`, restricted to the characters the number scan collects.
- LexingTests.NumberTokenize, LexingTests.LeadingDotTokenize and LexingTests.SignedNumberTokenize: these state the lexeme of each token, not the values `1.0`, `-1.0`, `0.1` and `1.6` that the tests compare with. `Number(1.0)` in a parser test is likewise `Number("1")`.
- The `Object` and `Array` structs of src/parser.rs:31-39. Each wraps one vector, and they are folded into the `Object` and `Array` variants of `Element`.
- Parsing.Parser.ParseElement, Parsing.Parser.ParseObject, Parsing.Parser.ParseMembers, Parsing.Parser.ParseMember, Parsing.Parser.ParseArray, Parsing.Parser.ParseElements: after a failure the cursor position is not stated. Every failure there ends in a panic, so nobody observes the cursor.
- The `TokenizerTrait` trait (src/tokenizer.rs:26-28) has one method, and that method is `Lexing.Tokenizer.Tokenize`.
- The `Peekable` iterators are replaced by a sequence and an index, and `peek` by a look at the character or token under the cursor.
- `test_comprehensive_json_tokenization` (src/tokenizer.rs:233-386) is not stated as a lemma on its whole text. Its points are covered by lemmas: non-ASCII strings (`LexingTests.ArrayTokenize`), verbatim escapes (`LexingTests.EscapeKept`), and the general `LexingProperties.LexLayout`.
- ParsingTests.ParseTrailingCommas, ParsingTests.ParseInnerTrailingComma, ParsingTests.ParseNestedArray: these are stated on the token sequences the test texts lex to, not on the indented texts themselves. `Pipeline.DecodeTokens` links a text laid out from tokens to its tokens.
- The derived `Debug`, `PartialEq` and `Clone` traits, the `println!` calls in the tests, and src/main.rs (a demo that prints a token vector) are not part of the model.
