/** What `tokenize` does with each kind of lexeme, which tokens it can
    produce, and the round trip from tokens to text and back. */
module LexingProperties {
  import opened Outcomes
  import opened Lexing

  /** The outcome of a scan with the tokens `ts` in front of its tokens. */
  function Prepend(ts: seq<Token>, o: Outcome<seq<Token>, TokenizerError>): Outcome<seq<Token>, TokenizerError>
  {
    if o.Ok? then Ok(ts + o.value) else o
  }

  // ----- the run, quote and keyword scans on a known input -----

  lemma {:induction false} RunLengthOf(a: seq<char>, b: seq<char>)
    requires forall i :: 0 <= i < |a| ==> ContinuesNumber(a[i])
    requires b == [] || !ContinuesNumber(b[0])
    ensures RunLength(a + b) == |a|
  {
    if a == [] {
      assert a + b == b;
    } else {
      assert (a + b)[0] == a[0];
      assert (a + b)[1..] == a[1..] + b;
      RunLengthOf(a[1..], b);
    }
  }

  lemma {:induction false} QuoteIndexOf(a: seq<char>, b: seq<char>)
    requires forall i :: 0 <= i < |a| ==> a[i] != '"'
    requires b == [] || b[0] == '"'
    ensures QuoteIndex(a + b) == |a|
  {
    if a == [] {
      assert a + b == b;
    } else {
      assert (a + b)[0] == a[0];
      assert (a + b)[1..] == a[1..] + b;
      QuoteIndexOf(a[1..], b);
    }
  }

  lemma {:induction false} MatchLengthOf(w: seq<char>, k: nat, rest: seq<char>)
    requires k <= |w|
    requires k < |w| ==> rest == [] || rest[0] != w[k]
    ensures MatchLength(w[..k] + rest, w) == k
  {
    var s := w[..k] + rest;
    if k == 0 {
      assert s == rest;
    } else {
      assert s[0] == w[0];
      assert s[1..] == w[1..][..k - 1] + rest;
      MatchLengthOf(w[1..], k - 1, rest);
    }
  }

  // ----- one lexeme at the front of the input -----

  /** A Number lexeme is its first character followed by the longest run
      of digits and dots; what follows the run is scanned afresh.  The
      lexeme becomes a token when f64 parsing accepts it, and the call
      panics otherwise. */
  lemma LexNumber(lexeme: seq<char>, rest: seq<char>)
    requires |lexeme| > 0 && StartsNumber(lexeme[0])
    requires forall i :: 1 <= i < |lexeme| ==> ContinuesNumber(lexeme[i])
    requires rest == [] || !ContinuesNumber(rest[0])
    ensures Lex(lexeme + rest).outcome ==
      if ParsesAsF64(lexeme) then Prepend([Number(lexeme)], Lex(rest).outcome) else Panic
  {
    var s := lexeme + rest;
    var n := |lexeme|;
    Apart(lexeme, rest);
    RunLengthOf(lexeme[1..], rest);
    FirstLexemeNumber(s, n);
    if ParsesAsF64(lexeme) {
      LexEmit(s);
    } else {
      LexHalt(s);
    }
  }

  /** The front and the back of a concatenation. */
  lemma Apart(a: seq<char>, b: seq<char>)
    requires a != []
    ensures (a + b)[0] == a[0] && (a + b)[1..] == a[1..] + b
    ensures (a + b)[..|a|] == a && (a + b)[|a|..] == b
  {
    assert (a + b)[1..] == a[1..] + b;
    assert (a + b)[..|a|] == a;
    assert (a + b)[|a|..] == b;
  }

  /** The outer loop's step on a character that starts a number, given
      the length of the longest run of digits and dots behind it. */
  lemma FirstLexemeNumber(s: seq<char>, n: nat)
    requires s != [] && StartsNumber(s[0]) && n == 1 + RunLength(s[1..])
    ensures FirstLexeme(s) ==
      if ParsesAsF64(s[..n]) then Emit([Number(s[..n])], n) else Halt(Panic, n)
  {
  }

  /** A String token holds exactly the characters between the opening
      quote and the next one, and scanning goes on after the closing
      quote. */
  lemma LexString(text: seq<char>, rest: seq<char>)
    requires forall i :: 0 <= i < |text| ==> text[i] != '"'
    ensures Lex(['"'] + text + ['"'] + rest).outcome == Prepend([String(text)], Lex(rest).outcome)
  {
    var s := ['"'] + text + ['"'] + rest;
    assert s[1..] == text + (['"'] + rest);
    QuoteIndexOf(text, ['"'] + rest);
    assert s[1..|text| + 1] == text;
    assert s[|text| + 2..] == rest;
  }

  /** A string that the input ends inside produces no token and no error:
      the call succeeds with the tokens read before it. */
  lemma LexUnterminatedString(text: seq<char>)
    requires forall i :: 0 <= i < |text| ==> text[i] != '"'
    ensures Lex(['"'] + text) == Scan(Ok([]), |text| + 1)
  {
    var s := ['"'] + text;
    assert s[1..] == text + [];
    QuoteIndexOf(text, []);
  }

  /** The first character and what follows it. */
  lemma Behind(c: char, a: seq<char>, b: seq<char>)
    ensures ([c] + a + b)[0] == c && ([c] + a + b)[1..] == a + b
    ensures ([c] + a + b)[1 + |a|..] == b && a[..|a|] == a
  {
    assert ([c] + a + b)[1..] == a + b;
    assert ([c] + a + b)[1 + |a|..] == b;
  }

  /** A step that yields tokens puts them in front of what the rest of
      the input yields. */
  lemma LexEmit(s: seq<char>)
    requires s != [] && FirstLexeme(s).Emit?
    ensures Lex(s) == Resume(FirstLexeme(s).tokens, FirstLexeme(s).width, Lex(s[FirstLexeme(s).width..]))
  {
  }

  /** A step that ends the call is the outcome of the whole call. */
  lemma LexHalt(s: seq<char>)
    requires s != [] && FirstLexeme(s).Halt?
    ensures Lex(s) == Scan(FirstLexeme(s).outcome, FirstLexeme(s).width)
  {
  }

  /** The outer loop's step on a literal's initial letter, given how much
      of the literal follows it. */
  lemma FirstLexemeKeyword(s: seq<char>, m: nat)
    requires s != [] && StartsKeyword(s[0])
    requires MatchLength(s[1..], KeywordRest(s[0])) == m
    ensures FirstLexeme(s) ==
      if m == |KeywordRest(s[0])| then Emit([KeywordToken(s[0])], 1 + m)
      else Halt(Err(InvalidCharacter(s[0])), 1 + m)
  {
  }

  /** A literal consumes exactly its own characters, so whatever follows
      it is scanned afresh, with no separator needed. */
  lemma LexKeyword(c: char, rest: seq<char>)
    requires StartsKeyword(c)
    ensures Lex([c] + KeywordRest(c) + rest).outcome == Prepend([KeywordToken(c)], Lex(rest).outcome)
  {
    var w := KeywordRest(c);
    var s := [c] + w + rest;
    Behind(c, w, rest);
    MatchLengthOf(w, |w|, rest);
    FirstLexemeKeyword(s, |w|);
  }

  /** A literal whose next required character is missing, or is another
      character, fails the call with its initial letter. */
  lemma LexKeywordMismatch(c: char, k: nat, rest: seq<char>)
    requires StartsKeyword(c) && k < |KeywordRest(c)|
    requires rest == [] || rest[0] != KeywordRest(c)[k]
    ensures Lex([c] + KeywordRest(c)[..k] + rest).outcome == Err(InvalidCharacter(c))
  {
    var w := KeywordRest(c);
    var s := [c] + w[..k] + rest;
    Behind(c, w[..k], rest);
    MatchLengthOf(w, k, rest);
    FirstLexemeKeyword(s, k);
    LexHalt(s);
  }

  /** Each of `{ } [ ] , :` is one token by itself. */
  lemma LexStructural(c: char, rest: seq<char>)
    requires IsStructural(c)
    ensures Lex([c] + rest).outcome == Prepend([StructuralToken(c)], Lex(rest).outcome)
  {
    assert ([c] + rest)[1..] == rest;
  }

  /** Space, newline and tab are skipped. */
  lemma LexSkipped(c: char, rest: seq<char>)
    requires IsSkipped(c)
    ensures Lex([c] + rest).outcome == Lex(rest).outcome
  {
    assert ([c] + rest)[1..] == rest;
    if Lex(rest).outcome.Ok? {
      assert [] + Lex(rest).outcome.value == Lex(rest).outcome.value;
    }
  }

  /** Any other character fails the whole call with that character, and
      nothing after it is looked at. */
  lemma LexInvalid(c: char, rest: seq<char>)
    requires !StartsNumber(c) && c != '"' && !StartsKeyword(c) && !IsStructural(c) && !IsSkipped(c)
    ensures Lex([c] + rest) == Scan(Err(InvalidCharacter(c)), 1)
  {
  }

  // ----- which inputs produce no token at all -----

  /** Only skipped characters, possibly followed by a string the input ends
      inside. */
  ghost predicate Silent(s: seq<char>)
    decreases |s|
  {
    s == [] ||
    (IsSkipped(s[0]) && Silent(s[1..])) ||
    (s[0] == '"' && forall i :: 1 <= i < |s| ==> s[i] != '"')
  }

  /** The call succeeds without a token exactly on the silent inputs: every
      other character either yields a token or fails the call. */
  lemma {:induction false} LexSilent(s: seq<char>)
    ensures Lex(s).outcome == Ok([]) <==> Silent(s)
    decreases |s|
  {
    if s != [] {
      var c := s[0];
      if IsSkipped(c) {
        assert s == [c] + s[1..];
        LexSkipped(c, s[1..]);
        LexSilent(s[1..]);
      } else if c == '"' {
        var k := QuoteIndex(s[1..]);
        if k < |s| - 1 {
          assert s[1..][k] == s[k + 1];
        } else {
          forall i | 1 <= i < |s| ensures s[i] != '"' {
            assert s[1..][i - 1] == s[i];
          }
        }
      }
    }
  }

  // ----- the tokens a successful call produces -----

  /** A token that `tokenize` can produce: a Number lexeme of the shape the
      number scan collects and that f64 parsing accepts, a String without
      a quote inside. */
  predicate WellFormed(t: Token)
  {
    match t
    case Number(l) =>
      |l| > 0 && StartsNumber(l[0]) &&
      (forall i :: 1 <= i < |l| ==> ContinuesNumber(l[i])) &&
      ParsesAsF64(l)
    case String(x) => forall i :: 0 <= i < |x| ==> x[i] != '"'
    case _ => true
  }

  predicate AllWellFormed(ts: seq<Token>)
  {
    forall i :: 0 <= i < |ts| ==> WellFormed(ts[i])
  }

  lemma {:induction false} LexWellFormed(s: seq<char>)
    requires Lex(s).outcome.Ok?
    ensures AllWellFormed(Lex(s).outcome.value)
    decreases |s|
  {
    if s != [] {
      var st := FirstLexeme(s);
      if st.Emit? {
        LexWellFormed(s[st.width..]);
        var c := s[0];
        if StartsNumber(c) {
          var l := s[..st.width];
          forall i | 1 <= i < |l| ensures ContinuesNumber(l[i]) {
            assert l[i] == s[1..][i - 1];
          }
        } else if c == '"' {
          var x := s[1..st.width - 1];
          forall i | 0 <= i < |x| ensures x[i] != '"' {
            assert x[i] == s[1..][i];
          }
        }
      }
    }
  }

  /** The characters a token is read from. */
  function Lexeme(t: Token): seq<char>
  {
    match t
    case Number(l) => l
    case String(x) => ['"'] + x + ['"']
    case Bool(b) => if b then "true" else "false"
    case Null => "null"
    case LeftBrace => "{"
    case RightBrace => "}"
    case LeftBracket => "["
    case RightBracket => "]"
    case Comma => ","
    case Colon => ":"
  }

  /** The tokens written out, each lexeme followed by a space. */
  function Unlex(ts: seq<Token>): seq<char>
  {
    if ts == [] then [] else Lexeme(ts[0]) + [' '] + Unlex(ts[1..])
  }

  /** The lexeme of a well-formed token, followed by anything that cannot
      extend a number, scans back to that token. */
  lemma LexLexeme(t: Token, rest: seq<char>)
    requires WellFormed(t)
    requires t.Number? ==> rest == [] || !ContinuesNumber(rest[0])
    ensures Lex(Lexeme(t) + rest).outcome == Prepend([t], Lex(rest).outcome)
  {
    if t.Number? {
      LexNumber(t.lexeme, rest);
    } else if t.String? {
      LexString(t.text, rest);
    } else if t.Bool? || t.Null? {
      LexLiteral(t, rest);
    } else {
      LexPunctuation(t, rest);
    }
  }

  lemma LexLiteral(t: Token, rest: seq<char>)
    requires t.Bool? || t.Null?
    ensures Lex(Lexeme(t) + rest).outcome == Prepend([t], Lex(rest).outcome)
  {
    var c := if t.Null? then 'n' else if t.b then 't' else 'f';
    assert KeywordToken(c) == t;
    assert Lexeme(t) + rest == [c] + KeywordRest(c) + rest;
    LexKeyword(c, rest);
  }

  lemma LexPunctuation(t: Token, rest: seq<char>)
    requires t.LeftBrace? || t.RightBrace? || t.LeftBracket? || t.RightBracket? || t.Comma? || t.Colon?
    ensures Lex(Lexeme(t) + rest).outcome == Prepend([t], Lex(rest).outcome)
  {
    var c := Lexeme(t)[0];
    assert Lexeme(t) == [c];
    assert IsStructural(c) && StructuralToken(c) == t;
    LexStructural(c, rest);
  }

  /** Written-out tokens followed by any text: their tokens come first,
      then whatever the text gives, and a failure in the text is the
      failure of the whole call. */
  lemma {:induction false} LexUnlexThen(ts: seq<Token>, tail: seq<char>)
    requires AllWellFormed(ts)
    ensures Lex(Unlex(ts) + tail).outcome == Prepend(ts, Lex(tail).outcome)
  {
    if ts == [] {
      assert Unlex(ts) + tail == tail;
      PrependNothing(Lex(tail).outcome);
    } else {
      var more := Unlex(ts[1..]) + tail;
      UnlexThen(ts, tail);
      assert WellFormed(ts[0]);
      LexLexeme(ts[0], [' '] + more);
      LexSkipped(' ', more);
      LexUnlexThen(ts[1..], tail);
      PrependCons(ts, Lex(tail).outcome);
    }
  }

  lemma UnlexThen(ts: seq<Token>, tail: seq<char>)
    requires ts != []
    ensures Unlex(ts) + tail == Lexeme(ts[0]) + ([' '] + (Unlex(ts[1..]) + tail))
  {
  }

  lemma PrependNothing(o: Outcome<seq<Token>, TokenizerError>)
    ensures Prepend([], o) == o
  {
    if o.Ok? {
      assert [] + o.value == o.value;
    }
  }

  lemma PrependCons(ts: seq<Token>, o: Outcome<seq<Token>, TokenizerError>)
    requires ts != []
    ensures Prepend(ts, o) == Prepend([ts[0]], Prepend(ts[1..], o))
  {
    if o.Ok? {
      assert [ts[0]] + (ts[1..] + o.value) == ts + o.value;
    }
  }

  /** Writing well-formed tokens out and tokenizing the text gives the same
      tokens back, in the same order. */
  lemma UnlexRoundTrip(ts: seq<Token>)
    requires AllWellFormed(ts)
    ensures Lex(Unlex(ts)).outcome == Ok(ts)
  {
    LexUnlexThen(ts, []);
    assert Unlex(ts) + [] == Unlex(ts);
    assert ts + [] == ts;
  }

  /** An invalid character fails the call whatever tokens were read
      before it: they are discarded with the error. */
  lemma LexDiscards(ts: seq<Token>, c: char, rest: seq<char>)
    requires AllWellFormed(ts)
    requires !StartsNumber(c) && c != '"' && !StartsKeyword(c) && !IsStructural(c) && !IsSkipped(c)
    ensures Lex(Unlex(ts) + ([c] + rest)).outcome == Err(InvalidCharacter(c))
  {
    LexUnlexThen(ts, [c] + rest);
    LexInvalid(c, rest);
  }

  // ----- any layout of the tokens -----

  /** Only characters the tokenizer skips. */
  predicate Blank(w: seq<char>)
  {
    w == [] || (IsSkipped(w[0]) && Blank(w[1..]))
  }

  /** A stretch of whitespace yields nothing and hides nothing. */
  lemma {:induction false} LexBlank(w: seq<char>, rest: seq<char>)
    requires Blank(w)
    ensures Lex(w + rest).outcome == Lex(rest).outcome
    decreases |w|
  {
    if w != [] {
      assert w + rest == [w[0]] + (w[1..] + rest);
      LexSkipped(w[0], w[1..] + rest);
      LexBlank(w[1..], rest);
    } else {
      assert w + rest == rest;
    }
  }

  /** The tokens from the `k`-th on, written out with the gap `gaps[i]`
      before the `i`-th lexeme and the last gap after them all. */
  function Layout(ts: seq<Token>, gaps: seq<seq<char>>, k: nat): seq<char>
    requires |gaps| == |ts| + 1 && k <= |ts|
    decreases |ts| - k
  {
    if k == |ts| then gaps[k] else gaps[k] + Lexeme(ts[k]) + Layout(ts, gaps, k + 1)
  }

  /** Whether the lexeme of `next`, written right after that of `t` with
      the gap `g` between them, would be read as part of it: only a number
      can be extended, and only by digits and dots. */
  predicate Merges(t: Token, g: seq<char>, next: Token)
  {
    t.Number? && g == [] && next.Number? && next.lexeme != [] && ContinuesNumber(next.lexeme[0])
  }

  /** A layout, from the `k`-th token on, that tokenizes back: blank gaps,
      well-formed tokens, and no two numbers run together. */
  predicate Writable(ts: seq<Token>, gaps: seq<seq<char>>, k: nat)
    requires |gaps| == |ts| + 1 && k <= |ts|
    decreases |ts| - k
  {
    Blank(gaps[k]) &&
    (k < |ts| ==>
       WellFormed(ts[k]) &&
       (k + 1 < |ts| ==> !Merges(ts[k], gaps[k + 1], ts[k + 1])) &&
       Writable(ts, gaps, k + 1))
  }

  /** What a writable layout starts with cannot extend a number, unless
      its first gap is empty and its first token is a number. */
  lemma LayoutStart(ts: seq<Token>, gaps: seq<seq<char>>, k: nat)
    requires |gaps| == |ts| + 1 && k <= |ts| && Writable(ts, gaps, k)
    requires gaps[k] == [] && k < |ts| ==> !(ts[k].Number? && ContinuesNumber(ts[k].lexeme[0]))
    ensures var s := Layout(ts, gaps, k); s == [] || !ContinuesNumber(s[0])
  {
    LayoutHead(ts, gaps, k);
    if gaps[k] != [] {
      BlankStart(gaps[k]);
    } else if k < |ts| {
      LexemeStart(ts[k]);
    }
  }

  /** A layout starts with its first gap, then the first lexeme. */
  lemma LayoutHead(ts: seq<Token>, gaps: seq<seq<char>>, k: nat)
    requires |gaps| == |ts| + 1 && k <= |ts| && Writable(ts, gaps, k)
    ensures Blank(gaps[k]) && (k < |ts| ==> WellFormed(ts[k]))
    ensures var s := Layout(ts, gaps, k);
      (gaps[k] != [] ==> s != [] && s[0] == gaps[k][0]) &&
      (gaps[k] == [] && k < |ts| ==> Lexeme(ts[k]) != [] ==> s != [] && s[0] == Lexeme(ts[k])[0])
  {
    if k < |ts| {
      assert Layout(ts, gaps, k) == gaps[k] + (Lexeme(ts[k]) + Layout(ts, gaps, k + 1));
    }
  }

  lemma BlankStart(w: seq<char>)
    requires Blank(w) && w != []
    ensures IsSkipped(w[0]) && !ContinuesNumber(w[0])
  {
  }

  /** The lexeme of a well-formed token is never empty, and it begins with
      a character that extends a number only when the token is a number
      that begins so. */
  lemma LexemeStart(t: Token)
    requires WellFormed(t)
    ensures Lexeme(t) != []
    ensures ContinuesNumber(Lexeme(t)[0]) <==> t.Number? && ContinuesNumber(t.lexeme[0])
  {
  }

  /** Whitespace between lexemes is insignificant: every writable layout of
      a sequence of tokens tokenizes to exactly those tokens. */
  lemma {:induction false} LexLayout(ts: seq<Token>, gaps: seq<seq<char>>, k: nat)
    requires |gaps| == |ts| + 1 && k <= |ts| && Writable(ts, gaps, k)
    ensures Lex(Layout(ts, gaps, k)).outcome == Ok(ts[k..])
    decreases |ts| - k
  {
    if k == |ts| {
      LexBlank(gaps[k], []);
      assert gaps[k] + [] == gaps[k];
    } else {
      var rest := Layout(ts, gaps, k + 1);
      LayoutCons(ts, gaps, k);
      LexBlank(gaps[k], Lexeme(ts[k]) + rest);
      if ts[k].Number? {
        LayoutStart(ts, gaps, k + 1);
      }
      LexLexeme(ts[k], rest);
      LexLayout(ts, gaps, k + 1);
      ConsSuffix(ts, k);
    }
  }

  /** A layout before its last gap: the gap, the lexeme, the rest. */
  lemma LayoutCons(ts: seq<Token>, gaps: seq<seq<char>>, k: nat)
    requires |gaps| == |ts| + 1 && k < |ts| && Writable(ts, gaps, k)
    ensures Layout(ts, gaps, k) == gaps[k] + (Lexeme(ts[k]) + Layout(ts, gaps, k + 1))
    ensures Blank(gaps[k]) && WellFormed(ts[k]) && Writable(ts, gaps, k + 1)
    ensures ts[k].Number? && gaps[k + 1] == [] && k + 1 < |ts| ==>
      !(ts[k + 1].Number? && ContinuesNumber(ts[k + 1].lexeme[0]))
  {
    assert Layout(ts, gaps, k) == gaps[k] + (Lexeme(ts[k]) + Layout(ts, gaps, k + 1));
  }

  lemma ConsSuffix(ts: seq<Token>, k: nat)
    requires k < |ts|
    ensures [ts[k]] + ts[k + 1..] == ts[k..]
  {
  }

  /** Tokenizing is a normal form: the tokens of any input that tokenizes
      are reproduced from their own written-out text. */
  lemma LexUnlexLex(s: seq<char>)
    requires Lex(s).outcome.Ok?
    ensures Lex(Unlex(Lex(s).outcome.value)).outcome == Lex(s).outcome
  {
    LexWellFormed(s);
    UnlexRoundTrip(Lex(s).outcome.value);
  }
}
