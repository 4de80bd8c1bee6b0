/** The two stages run one after the other, as the source's tests do in
    `get_parser` followed by `parse`: the text is tokenized, the token
    vector is unwrapped and handed to a fresh parser, and one element is
    parsed from the front. */
module Pipeline {
  import opened Outcomes
  import opened Lexing
  import opened LexingProperties
  import opened Parsing
  import opened ParsingProperties

  /** The outcome of tokenizing `text` and parsing the tokens. A tokenizer
      error is unwrapped, so it panics; a parse never ends in `Err`. */
  function Decode(text: seq<char>): (r: Outcome<Element, ParseError>)
    ensures !r.Err?
    ensures r.Ok? <==> Lex(text).outcome.Ok? && ElementAt(Lex(text).outcome.value, 0).Ok?
    ensures r.Ok? ==> r.value == ElementAt(Lex(text).outcome.value, 0).value.value
  {
    match Lex(text).outcome
    case Ok(ts) => RootAt(ts, 0)
    case _ => Panic
  }

  /** `get_parser(text)` followed by `parse()`, on the two classes. */
  method DecodeText(text: seq<char>) returns (r: Outcome<Element, ParseError>)
    ensures r == Decode(text)
  {
    var tokenizer := new Tokenizer(text);
    assert tokenizer.Rest() == text;
    var lexed := tokenizer.Tokenize();
    if !lexed.Ok? {
      return Panic;
    }
    var parser := new Parser(lexed.value);
    r := parser.Parse();
  }

  /** A text laid out from a token sequence decodes to what the parser
      makes of that sequence. */
  lemma DecodeTokens(ts: seq<Token>, gaps: seq<seq<char>>, text: seq<char>)
    requires |gaps| == |ts| + 1 && Writable(ts, gaps, 0) && Layout(ts, gaps, 0) == text
    ensures Decode(text) == RootAt(ts, 0)
  {
    LexLayout(ts, gaps, 0);
    assert ts[0..] == ts;
  }

  /** Every tree written out as its tokens, with any blank layout that
      keeps adjacent numbers apart, decodes back to itself. */
  lemma DecodeLayout(e: Element, gaps: seq<seq<char>>)
    requires |gaps| == |Tokens(e)| + 1 && Writable(Tokens(e), gaps, 0)
    ensures Decode(Layout(Tokens(e), gaps, 0)) == Ok(e)
  {
    LexLayout(Tokens(e), gaps, 0);
    assert Tokens(e)[0..] == Tokens(e);
    RootRoundTrip(e, []);
    assert Tokens(e) + [] == Tokens(e);
  }

  /** Every tree whose tokens are well formed decodes back from its
      tokens' lexemes separated by spaces. */
  lemma DecodeEncode(e: Element)
    requires AllWellFormed(Tokens(e))
    ensures Decode(Unlex(Tokens(e))) == Ok(e)
  {
    UnlexRoundTrip(Tokens(e));
    RootRoundTrip(e, []);
    assert Tokens(e) + [] == Tokens(e);
  }
}
