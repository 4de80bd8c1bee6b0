/** The unit tests of src/parser.rs, stated on the model, and the comma
    and failure cases of the two loops. A test that tokenizes one of its
    texts is stated on `Decode` of that text, which is laid out from its
    tokens (see LexingProperties.LexLayout); the others are stated on the
    tokens the text is made of. A Number element holds its lexeme, so
    `Number(1.0)` in a test is `Number("1")` here. */
module ParsingTests {
  import opened Outcomes
  import opened Lexing
  import opened LexingProperties
  import opened Parsing
  import opened ParsingProperties
  import opened Pipeline

  /** A text laid out from the tokens of a tree decodes to that tree. */
  lemma DecodesTo(e: Element, ts: seq<Token>, gaps: seq<seq<char>>, text: seq<char>)
    requires ts == Tokens(e)
    requires |gaps| == |ts| + 1 && Writable(ts, gaps, 0) && Layout(ts, gaps, 0) == text
    ensures Decode(text) == Ok(e)
  {
    DecodeLayout(e, gaps);
  }

  /** A one-digit number is a well-formed token. */
  lemma DigitWellFormed(d: char)
    requires IsDigit(d)
    ensures WellFormed(Token.Number([d]))
  {
    assert Unsigned([d]) == [d] && IsDigit([d][0]);
    assert DotCount([d]) == DotCount([]) by { assert [d][1..] == []; }
  }

  // ----- parse_string -----

  /** `parse_string`. */
  lemma ParseString()
    ensures Decode("\"これは文字列\"") == Ok(Element.String("これは文字列"))
  {
    DecodesTo(Element.String("これは文字列"), [Token.String("これは文字列")], ["", ""],
              "\"これは文字列\"");
  }

  // ----- parse_object -----

  const EmptyObjectText: seq<char> :=
    "\n        " + "{" + "}" + "\n        "
  const EmptyObjectTokens: seq<Token> :=
    [LeftBrace, RightBrace]
  const EmptyObjectGaps: seq<seq<char>> :=
    ["\n        ", "", "\n        "]
  lemma EmptyObjectWritable()
    ensures |EmptyObjectGaps| == |EmptyObjectTokens| + 1 && Writable(EmptyObjectTokens, EmptyObjectGaps, 0)
  {
    var ts, gaps := EmptyObjectTokens, EmptyObjectGaps;
    assert Writable(ts, gaps, 2);
    assert Writable(ts, gaps, 1);
    assert Writable(ts, gaps, 0);
  }

  lemma EmptyObjectLayout()
    ensures |EmptyObjectGaps| == |EmptyObjectTokens| + 1 && Layout(EmptyObjectTokens, EmptyObjectGaps, 0) == EmptyObjectText
  {
    var ts, gaps := EmptyObjectTokens, EmptyObjectGaps;
    var s2 := "\n        ";
    assert Layout(ts, gaps, 2) == s2;
    var s1 := "" + "}" + s2;
    assert Layout(ts, gaps, 1) == s1;
    var s0 := "\n        " + "{" + s1;
    assert Layout(ts, gaps, 0) == s0;
  }


  /** `parse_object`, first case: the loop of `parse_members` never runs. */
  lemma ParseEmptyObject()
    ensures Decode(EmptyObjectText) == Ok(Object([]))
  {
    EmptyObjectWritable();
    EmptyObjectLayout();
    DecodesTo(Object([]), EmptyObjectTokens, EmptyObjectGaps, EmptyObjectText);
  }

  /** The same for an array: `[]` is an empty array. */
  lemma ParseEmptyArray()
    ensures Decode("[]") == Ok(Array([]))
  {
    var ts := [LeftBracket, RightBracket];
    var gaps: seq<seq<char>> := ["", "", ""];
    assert Tokens(Array([])) == ts;
    assert Writable(ts, gaps, 0) && Layout(ts, gaps, 0) == "[]";
    DecodesTo(Array([]), ts, gaps, "[]");
  }

  const OneMemberText: seq<char> :=
    "\n        " + "{" + "\n          " + "\"key\"" + ":" + " " + "\"value\"" + "\n        " + "}" + "\n        "
  const OneMemberTokens: seq<Token> :=
    [LeftBrace, Token.String("key"), Colon, Token.String("value"), RightBrace]
  const OneMemberGaps: seq<seq<char>> :=
    ["\n        ", "\n          ", "", " ", "\n        ", "\n        "]
  lemma OneMemberWritable()
    ensures |OneMemberGaps| == |OneMemberTokens| + 1 && Writable(OneMemberTokens, OneMemberGaps, 0)
  {
    var ts, gaps := OneMemberTokens, OneMemberGaps;
    assert Writable(ts, gaps, 5);
    assert Writable(ts, gaps, 4);
    assert Writable(ts, gaps, 3);
    assert Writable(ts, gaps, 2);
    assert Writable(ts, gaps, 1);
    assert Writable(ts, gaps, 0);
  }

  lemma OneMemberLayout()
    ensures |OneMemberGaps| == |OneMemberTokens| + 1 && Layout(OneMemberTokens, OneMemberGaps, 0) == OneMemberText
  {
    var ts, gaps := OneMemberTokens, OneMemberGaps;
    var s5 := "\n        ";
    assert Layout(ts, gaps, 5) == s5;
    var s4 := "\n        " + "}" + s5;
    assert Layout(ts, gaps, 4) == s4;
    var s3 := " " + "\"value\"" + s4;
    assert Layout(ts, gaps, 3) == s3;
    var s2 := "" + ":" + s3;
    assert Layout(ts, gaps, 2) == s2;
    var s1 := "\n          " + "\"key\"" + s2;
    assert Layout(ts, gaps, 1) == s1;
    var s0 := "\n        " + "{" + s1;
    assert Layout(ts, gaps, 0) == s0;
  }


  /** `parse_object`, second case. */
  lemma ParseOneMember()
    ensures Decode(OneMemberText) == Ok(Object([Member("key", Element.String("value"))]))
  {
    OneMemberWritable();
    OneMemberLayout();
    DecodesTo(Object([Member("key", Element.String("value"))]), OneMemberTokens, OneMemberGaps,
              OneMemberText);
  }

  /** The tree expected by the third and the fourth case of `parse_object`. */
  const KeyTree: Element :=
    Object([Member("key", Element.String("value")),
            Member("key2", Object([Member("key3", Element.String("value3"))]))])

  /** The tokens of the third case of `parse_object`: both objects end
      with a trailing comma. */
  const TrailingCommasTokens: seq<Token> :=
    [LeftBrace, Token.String("key"), Colon, Token.String("value"), Comma,
     Token.String("key2"), Colon, LeftBrace, Token.String("key3"), Colon, Token.String("value3"),
     Comma, RightBrace, Comma, RightBrace]

  /** `parse_object`, third case: trailing commas are accepted. */
  lemma ParseTrailingCommas()
    ensures RootAt(TrailingCommasTokens, 0) == Ok(KeyTree)
  {
    var ts := TrailingCommasTokens;
    var inner := Member("key3", Element.String("value3"));
    var second := Member("key2", Object([inner]));
    var first := Member("key", Element.String("value"));
    assert MembersAt(ts, 13) == Ok(Parsed([], 14));
    assert MembersAt(ts, 11) == Ok(Parsed([], 12));
    assert MemberAt(ts, 8) == Ok(Parsed(inner, 11));
    MembersStep(ts, 8, inner, 11, [], 12);
    assert [inner] + [] == [inner];
    assert ElementAt(ts, 7) == Ok(Parsed(Object([inner]), 13));
    assert MemberAt(ts, 5) == Ok(Parsed(second, 13));
    MembersCommaOptional(ts, 4);
    MembersStep(ts, 5, second, 13, [], 14);
    assert [second] + [] == [second];
    assert MemberAt(ts, 1) == Ok(Parsed(first, 4));
    MembersStep(ts, 1, first, 4, [second], 14);
    assert [first] + [second] == [first, second];
  }

  /** The tokens of the fourth case of `parse_object`: only the inner
      object ends with a trailing comma. */
  const InnerTrailingCommaTokens: seq<Token> :=
    [LeftBrace, Token.String("key"), Colon, Token.String("value"), Comma,
     Token.String("key2"), Colon, LeftBrace, Token.String("key3"), Colon, Token.String("value3"),
     Comma, RightBrace, RightBrace]

  /** `parse_object`, fourth case: the same tree with or without the
      outer trailing comma. */
  lemma ParseInnerTrailingComma()
    ensures RootAt(InnerTrailingCommaTokens, 0) == Ok(KeyTree)
  {
    var ts := InnerTrailingCommaTokens;
    var inner := Member("key3", Element.String("value3"));
    var second := Member("key2", Object([inner]));
    var first := Member("key", Element.String("value"));
    assert MembersAt(ts, 13) == Ok(Parsed([], 13));
    assert MembersAt(ts, 11) == Ok(Parsed([], 12));
    assert MemberAt(ts, 8) == Ok(Parsed(inner, 11));
    MembersStep(ts, 8, inner, 11, [], 12);
    assert [inner] + [] == [inner];
    assert ElementAt(ts, 7) == Ok(Parsed(Object([inner]), 13));
    assert MemberAt(ts, 5) == Ok(Parsed(second, 13));
    MembersCommaOptional(ts, 4);
    MembersStep(ts, 5, second, 13, [], 13);
    assert [second] + [] == [second];
    assert MemberAt(ts, 1) == Ok(Parsed(first, 4));
    MembersStep(ts, 1, first, 4, [second], 13);
    assert [first] + [second] == [first, second];
  }

  // ----- parse_array -----

  const NumberArrayText: seq<char> :=
    "\n            " + "[" + "1" + "," + "2" + "," + "3" + "]" + "\n      "
  const NumberArrayTokens: seq<Token> :=
    [LeftBracket, Token.Number("1"), Comma, Token.Number("2"), Comma, Token.Number("3"), RightBracket]
  const NumberArrayGaps: seq<seq<char>> :=
    ["\n            ", "", "", "", "", "", "", "\n      "]
  lemma NumberArrayWritable()
    ensures |NumberArrayGaps| == |NumberArrayTokens| + 1 && Writable(NumberArrayTokens, NumberArrayGaps, 0)
  {
    var ts, gaps := NumberArrayTokens, NumberArrayGaps;
    DigitWellFormed('1');
    DigitWellFormed('2');
    DigitWellFormed('3');
    assert Writable(ts, gaps, 7);
    assert Writable(ts, gaps, 6);
    assert Writable(ts, gaps, 5);
    assert Writable(ts, gaps, 4);
    assert Writable(ts, gaps, 3);
    assert Writable(ts, gaps, 2);
    assert Writable(ts, gaps, 1);
    assert Writable(ts, gaps, 0);
  }

  lemma NumberArrayLayout()
    ensures |NumberArrayGaps| == |NumberArrayTokens| + 1 && Layout(NumberArrayTokens, NumberArrayGaps, 0) == NumberArrayText
  {
    var ts, gaps := NumberArrayTokens, NumberArrayGaps;
    var s7 := "\n      ";
    assert Layout(ts, gaps, 7) == s7;
    var s6 := "" + "]" + s7;
    assert Layout(ts, gaps, 6) == s6;
    var s5 := "" + "3" + s6;
    assert Layout(ts, gaps, 5) == s5;
    var s4 := "" + "," + s5;
    assert Layout(ts, gaps, 4) == s4;
    var s3 := "" + "2" + s4;
    assert Layout(ts, gaps, 3) == s3;
    var s2 := "" + "," + s3;
    assert Layout(ts, gaps, 2) == s2;
    var s1 := "" + "1" + s2;
    assert Layout(ts, gaps, 1) == s1;
    var s0 := "\n            " + "[" + s1;
    assert Layout(ts, gaps, 0) == s0;
  }


  const NumberTree: Element := Array([Element.Number("1"), Element.Number("2"), Element.Number("3")])

  lemma NumberArrayTokensOf()
    ensures Tokens(NumberTree) == NumberArrayTokens
  {
    var es := NumberTree.elements;
    assert ElementsTokens(es[2..]) == [Token.Number("3")];
    assert ElementsTokens(es[1..]) == [Token.Number("2"), Comma, Token.Number("3")];
  }

  /** `parse_array`, first case. */
  lemma ParseNumberArray()
    ensures Decode(NumberArrayText) == Ok(NumberTree)
  {
    NumberArrayWritable();
    NumberArrayLayout();
    NumberArrayTokensOf();
    DecodesTo(NumberTree, NumberArrayTokens, NumberArrayGaps, NumberArrayText);
  }

  /** The array of the second and the third case of `parse_array`. */
  const MixedTree: Element := Array([Element.Number("1"), Element.String("string"), Element.Null])

  const MixedArrayText: seq<char> :=
    "\n            " + "[" + "1" + "," + " " + "\"string\"" + "," + " " + "null" + "]" + "\n      "
  const MixedArrayTokens: seq<Token> :=
    [LeftBracket, Token.Number("1"), Comma, Token.String("string"), Comma, Token.Null, RightBracket]
  const MixedArrayGaps: seq<seq<char>> :=
    ["\n            ", "", "", " ", "", " ", "", "\n      "]
  lemma MixedArrayWritable()
    ensures |MixedArrayGaps| == |MixedArrayTokens| + 1 && Writable(MixedArrayTokens, MixedArrayGaps, 0)
  {
    var ts, gaps := MixedArrayTokens, MixedArrayGaps;
    DigitWellFormed('1');
    assert Writable(ts, gaps, 7);
    assert Writable(ts, gaps, 6);
    assert Writable(ts, gaps, 5);
    assert Writable(ts, gaps, 4);
    assert Writable(ts, gaps, 3);
    assert Writable(ts, gaps, 2);
    assert Writable(ts, gaps, 1);
    assert Writable(ts, gaps, 0);
  }

  lemma MixedArrayLayout()
    ensures |MixedArrayGaps| == |MixedArrayTokens| + 1 && Layout(MixedArrayTokens, MixedArrayGaps, 0) == MixedArrayText
  {
    var ts, gaps := MixedArrayTokens, MixedArrayGaps;
    var s7 := "\n      ";
    assert Layout(ts, gaps, 7) == s7;
    var s6 := "" + "]" + s7;
    assert Layout(ts, gaps, 6) == s6;
    var s5 := " " + "null" + s6;
    assert Layout(ts, gaps, 5) == s5;
    var s4 := "" + "," + s5;
    assert Layout(ts, gaps, 4) == s4;
    var s3 := " " + "\"string\"" + s4;
    assert Layout(ts, gaps, 3) == s3;
    var s2 := "" + "," + s3;
    assert Layout(ts, gaps, 2) == s2;
    var s1 := "" + "1" + s2;
    assert Layout(ts, gaps, 1) == s1;
    var s0 := "\n            " + "[" + s1;
    assert Layout(ts, gaps, 0) == s0;
  }


  lemma MixedArrayTokensOf()
    ensures Tokens(MixedTree) == MixedArrayTokens
  {
    var es := MixedTree.elements;
    assert ElementsTokens(es[2..]) == [Token.Null];
    assert ElementsTokens(es[1..]) == [Token.String("string"), Comma, Token.Null];
  }

  /** `parse_array`, second case. */
  lemma ParseMixedArray()
    ensures Decode(MixedArrayText) == Ok(MixedTree)
  {
    MixedArrayWritable();
    MixedArrayLayout();
    MixedArrayTokensOf();
    DecodesTo(MixedTree, MixedArrayTokens, MixedArrayGaps, MixedArrayText);
  }

  /** `parse_array`, third case: an array as the value of a member. */
  lemma ParseNestedArray()
    ensures RootAt([LeftBrace, Token.String("key"), Colon, LeftBracket, Token.Number("1"), Comma,
                    Token.String("string"), Comma, Token.Null, RightBracket, RightBrace], 0) ==
      Ok(Object([Member("key", MixedTree)]))
  {
    var ts := [LeftBrace, Token.String("key"), Colon, LeftBracket, Token.Number("1"), Comma,
               Token.String("string"), Comma, Token.Null, RightBracket, RightBrace];
    var one, text := Element.Number("1"), Element.String("string");
    assert ElementsAt(ts, 9) == Ok(Parsed([], 9));
    ElementsCommaOptional(ts, 7);
    ElementsStep(ts, 8, Element.Null, 9, [], 9);
    assert [Element.Null] + [] == [Element.Null];
    ElementsCommaOptional(ts, 5);
    ElementsStep(ts, 6, text, 7, [Element.Null], 9);
    assert [text] + [Element.Null] == [text, Element.Null];
    ElementsStep(ts, 4, one, 5, [text, Element.Null], 9);
    assert [one] + [text, Element.Null] == MixedTree.elements;
    assert ElementAt(ts, 3) == Ok(Parsed(MixedTree, 10));
    assert MemberAt(ts, 1) == Ok(Parsed(Member("key", MixedTree), 10));
    assert MembersAt(ts, 10) == Ok(Parsed([], 10));
    MembersStep(ts, 1, Member("key", MixedTree), 10, [], 10);
    assert [Member("key", MixedTree)] + [] == [Member("key", MixedTree)];
  }

  // ----- the comma handling of the two loops -----

  /** Commas between elements are optional. */
  lemma CommasOptional()
    ensures Decode("[1 2]") == Ok(Array([Element.Number("1"), Element.Number("2")]))
  {
    var ts := [LeftBracket, Token.Number("1"), Token.Number("2"), RightBracket];
    var gaps: seq<seq<char>> := ["", "", " ", "", ""];
    DigitWellFormed('1');
    DigitWellFormed('2');
    assert Writable(ts, gaps, 0) && Layout(ts, gaps, 0) == "[1 2]";
    DecodeTokens(ts, gaps, "[1 2]");
    assert ElementsAt(ts, 3) == Ok(Parsed([], 3));
    ElementsStep(ts, 2, Element.Number("2"), 3, [], 3);
    assert [Element.Number("2")] + [] == [Element.Number("2")];
    ElementsStep(ts, 1, Element.Number("1"), 2, [Element.Number("2")], 3);
    assert [Element.Number("1")] + [Element.Number("2")] == [Element.Number("1"), Element.Number("2")];
  }

  /** A comma before the first element is skipped. */
  lemma LeadingComma()
    ensures Decode("[,1]") == Ok(Array([Element.Number("1")]))
  {
    var ts := [LeftBracket, Comma, Token.Number("1"), RightBracket];
    var gaps: seq<seq<char>> := ["", "", "", "", ""];
    DigitWellFormed('1');
    assert Writable(ts, gaps, 0) && Layout(ts, gaps, 0) == "[,1]";
    DecodeTokens(ts, gaps, "[,1]");
    assert ElementsAt(ts, 3) == Ok(Parsed([], 3));
    ElementsCommaOptional(ts, 1);
    ElementsStep(ts, 2, Element.Number("1"), 3, [], 3);
    assert [Element.Number("1")] + [] == [Element.Number("1")];
  }

  /** Two commas in a row make the call panic. */
  lemma DoubleComma()
    ensures Decode("[1,,2]") == Panic
  {
    var ts := [LeftBracket, Token.Number("1"), Comma, Comma, Token.Number("2"), RightBracket];
    var gaps: seq<seq<char>> := ["", "", "", "", "", "", ""];
    DigitWellFormed('1');
    DigitWellFormed('2');
    assert Writable(ts, gaps, 0) && Layout(ts, gaps, 0) == "[1,,2]";
    DecodeTokens(ts, gaps, "[1,,2]");
    ElementsDoubleComma(ts, 2);
  }

  /** A lone comma in an object is skipped. */
  lemma CommaOnlyObject()
    ensures Decode("{,}") == Ok(Object([]))
  {
    var ts := [LeftBrace, Comma, RightBrace];
    var gaps: seq<seq<char>> := ["", "", "", ""];
    assert Writable(ts, gaps, 0) && Layout(ts, gaps, 0) == "{,}";
    DecodeTokens(ts, gaps, "{,}");
  }

  // ----- failures -----

  /** A member key must be a String and must be followed by a Colon. */
  lemma MemberShape()
    ensures RootAt([LeftBrace, Token.Number("1"), Colon, Token.Number("2"), RightBrace], 0) == Panic
    ensures RootAt([LeftBrace, Token.String("a"), Token.Number("1"), RightBrace], 0) == Panic
  {
  }

  /** A container closed by the wrong bracket, or not closed before the
      tokens run out, makes the call panic. */
  lemma Unclosed()
    ensures RootAt([LeftBracket, Token.Number("1"), RightBrace], 0) == Panic
    ensures RootAt([LeftBrace, Token.String("a"), Colon, Token.Number("1"), RightBracket], 0) == Panic
    ensures RootAt([LeftBracket, Token.Number("1"), Comma], 0) == Panic
    ensures RootAt([LeftBrace], 0) == Panic
  {
  }

  /** `parse_element` itself returns an error on a closer or separator and
      on exhausted input, which `parse` turns into a panic. */
  lemma ElementErrors()
    ensures ElementAt([RightBracket], 0) == Err(UnexpectedToken(RightBracket))
    ensures ElementAt([], 0) == Err(ParseError)
    ensures RootAt([Colon], 0) == Panic && RootAt([], 0) == Panic
  {
  }

  /** Tokens after the first element are not looked at. */
  lemma RestIgnored()
    ensures Decode("1 ]") == Ok(Element.Number("1"))
  {
    var ts := [Token.Number("1"), RightBracket];
    var gaps: seq<seq<char>> := ["", " ", ""];
    DigitWellFormed('1');
    assert Writable(ts, gaps, 0) && Layout(ts, gaps, 0) == "1 ]";
    DecodeTokens(ts, gaps, "1 ]");
  }
}
