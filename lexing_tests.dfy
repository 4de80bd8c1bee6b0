/** The unit tests of src/tokenizer.rs, stated on the model. A Number
    token holds its lexeme, so where a test compares with `Number(1.0)`
    the statement here names the lexeme `"1"`, which f64 parsing
    accepts. Each text is written as a layout of its tokens (see
    LexingProperties.LexLayout). */
module LexingTests {
  import opened Outcomes
  import opened Lexing
  import opened LexingProperties

  /** `text` is a writable layout of `ts`, so it tokenizes to `ts`. */
  lemma Tokenizes(ts: seq<Token>, gaps: seq<seq<char>>, text: seq<char>)
    requires |gaps| == |ts| + 1 && Writable(ts, gaps, 0) && Layout(ts, gaps, 0) == text
    ensures Lex(text).outcome == Ok(ts)
  {
    LexLayout(ts, gaps, 0);
    assert ts[0..] == ts;
  }

  /** `number_tokenize`, its unsigned cases. */
  lemma NumberTokenize()
    ensures Lex("1").outcome == Ok([Number("1")])
    ensures Lex("1.6").outcome == Ok([Number("1.6")])
  {
    Tokenizes([Number("1")], ["", ""], "1");
    Tokenizes([Number("1.6")], ["", ""], "1.6");
  }

  /** `number_tokenize`: a leading dot is part of the lexeme. */
  lemma LeadingDotTokenize()
    ensures Lex(".1").outcome == Ok([Number(".1")])
  {
    assert Unsigned(".1") == ".1" && IsDigit(".1"[1]);
    Tokenizes([Number(".1")], ["", ""], ".1");
  }

  /** `number_tokenize`, its signed cases: the sign is part of the lexeme. */
  lemma SignedNumberTokenize()
    ensures Lex("-1").outcome == Ok([Number("-1")])
    ensures Lex("+1").outcome == Ok([Number("+1")])
  {
    var one: seq<char> := "1";
    assert IsDigit(one[0]) && DotCount(one) == 0;
    assert Unsigned("-1") == one;
    Tokenizes([Number("-1")], ["", ""], "-1");
    assert Unsigned("+1") == one;
    Tokenizes([Number("+1")], ["", ""], "+1");
  }

  /** A sign only starts a number, so `1-2` is two numbers. */
  lemma SignSplitsNumbers()
    ensures Lex("1-2").outcome == Ok([Number("1"), Number("-2")])
  {
    var one: seq<char> := "1";
    var two: seq<char> := "2";
    assert IsDigit(one[0]) && DotCount(one) == 0;
    assert IsDigit(two[0]) && DotCount(two) == 0;
    assert Unsigned(one) == one && Unsigned("-2") == two;
    Tokenizes([Number("1"), Number("-2")], ["", "", ""], "1-2");
  }

  /** A lexeme without a digit, or with a second dot, makes the call
      panic. */
  lemma NumberPanics()
    ensures Lex("+").outcome == Panic
    ensures Lex(".").outcome == Panic
  {
    var plus: seq<char> := "+";
    LexNumber(plus, []);
    assert plus + [] == plus;
    var dot: seq<char> := ".";
    LexNumber(dot, []);
    assert dot + [] == dot;
  }

  /** The run of digits and dots is collected whole before it is parsed,
      so a second dot makes the call panic rather than end the number. */
  lemma SecondDotPanics()
    ensures Lex("1.2.3").outcome == Panic
  {
    var s: seq<char> := "1.2.3";
    LexNumber(s, []);
    assert s + [] == s;
  }

  /** `string_tokenize`. */
  lemma StringTokenize()
    ensures Lex("\"hello world\"").outcome == Ok([String("hello world")])
  {
    Tokenizes([String("hello world")], ["", ""], "\"hello world\"");
  }

  /** Escapes are not decoded: the backslash stays in the text, as the
      last line of `test_comprehensive_json_tokenization` expects. */
  lemma EscapeKept()
    ensures Lex("\"\\u3053\\u3093\"").outcome == Ok([String("\\u3053\\u3093")])
  {
    Tokenizes([String("\\u3053\\u3093")], ["", ""], "\"\\u3053\\u3093\"");
  }

  lemma ArrayWritable()
    ensures Writable([LeftBracket, String("文字列1"), Comma, String("文字列2"), RightBracket],
                     ["", "", "", " ", "", ""], 0)
  {
  }

  const ArraySource: seq<char> := "[" + "\"文字列1\"" + "," + " " + "\"文字列2\"" + "]"

  lemma ArrayText()
    ensures Layout([LeftBracket, String("文字列1"), Comma, String("文字列2"), RightBracket],
                   ["", "", "", " ", "", ""], 0) == ArraySource
  {
    var ts := [LeftBracket, String("文字列1"), Comma, String("文字列2"), RightBracket];
    var gaps: seq<seq<char>> := ["", "", "", " ", "", ""];
    var l1, l3 := Lexeme(String("文字列1")), Lexeme(String("文字列2"));
    assert l1 == "\"文字列1\"" && l3 == "\"文字列2\"";
    assert Layout(ts, gaps, 4) == "]";
    assert Layout(ts, gaps, 3) == " " + l3 + "]";
    assert Layout(ts, gaps, 2) == "," + " " + l3 + "]";
    assert Layout(ts, gaps, 1) == l1 + "," + " " + l3 + "]";
  }

  /** `array_tokenize`, on characters outside ASCII. */
  lemma ArrayTokenize()
    ensures Lex(ArraySource).outcome ==
      Ok([LeftBracket, String("文字列1"), Comma, String("文字列2"), RightBracket])
  {
    ArrayWritable();
    ArrayText();
    Tokenizes([LeftBracket, String("文字列1"), Comma, String("文字列2"), RightBracket],
              ["", "", "", " ", "", ""], ArraySource);
  }

  /** `boolean_tokenize` and `null_tokenize`. */
  lemma KeywordTokenize()
    ensures Lex("true").outcome == Ok([Bool(true)])
    ensures Lex("false").outcome == Ok([Bool(false)])
    ensures Lex("null").outcome == Ok([Null])
  {
    Tokenizes([Bool(true)], ["", ""], "true");
    Tokenizes([Bool(false)], ["", ""], "false");
    Tokenizes([Null], ["", ""], "null");
  }

  /** A literal cut short reports its initial letter; a letter that starts
      no literal is reported itself. */
  lemma KeywordErrors()
    ensures Lex("nul").outcome == Err(InvalidCharacter('n'))
    ensures Lex("tru]").outcome == Err(InvalidCharacter('t'))
    ensures Lex("a").outcome == Err(InvalidCharacter('a'))
  {
    var n: seq<char> := "nul";
    assert n == ['n'] + KeywordRest('n')[..2] + [];
    LexKeywordMismatch('n', 2, []);
    var t: seq<char> := "tru]";
    var close: seq<char> := "]";
    assert t == ['t'] + KeywordRest('t')[..2] + close;
    LexKeywordMismatch('t', 2, close);
    var a: seq<char> := "a";
    assert a == ['a'] + [];
    LexInvalid('a', []);
  }

  lemma ObjectWritable()
    ensures Writable([LeftBrace, String("key"), Colon, String("value"), RightBrace],
                     ["\n          ", "\n            ", "", " ", "\n          ", "\n        "], 0)
  {
  }

  /** The text of `object_tokenize`, piece by piece. */
  const ObjectSource: seq<char> :=
    "\n          " + "{" + "\n            " + "\"key\"" + ":" + " " + "\"value\"" +
    "\n          " + "}" + "\n        "

  lemma ObjectText()
    ensures Layout([LeftBrace, String("key"), Colon, String("value"), RightBrace],
                   ["\n          ", "\n            ", "", " ", "\n          ", "\n        "], 0) ==
      ObjectSource
  {
    var ts := [LeftBrace, String("key"), Colon, String("value"), RightBrace];
    var gaps: seq<seq<char>> := ["\n          ", "\n            ", "", " ", "\n          ", "\n        "];
    var g0, g1, g4, g5 := "\n          ", "\n            ", "\n          ", "\n        ";
    var l1, l3 := Lexeme(String("key")), Lexeme(String("value"));
    assert l1 == "\"key\"" && l3 == "\"value\"";
    assert Layout(ts, gaps, 4) == g4 + "}" + g5;
    assert Layout(ts, gaps, 3) == " " + l3 + g4 + "}" + g5;
    assert Layout(ts, gaps, 2) == ":" + " " + l3 + g4 + "}" + g5;
    assert Layout(ts, gaps, 1) == g1 + l1 + ":" + " " + l3 + g4 + "}" + g5;
  }

  /** `object_tokenize`: the newlines and the indentation yield nothing. */
  lemma ObjectTokenize()
    ensures Lex(ObjectSource).outcome ==
      Ok([LeftBrace, String("key"), Colon, String("value"), RightBrace])
  {
    ObjectWritable();
    ObjectText();
    Tokenizes([LeftBrace, String("key"), Colon, String("value"), RightBrace],
              ["\n          ", "\n            ", "", " ", "\n          ", "\n        "],
              ObjectSource);
  }
}
