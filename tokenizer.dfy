/** The tokenizer of src/tokenizer.rs: one left-to-right pass over the
    characters of the input, with one character of peek. */
module Lexing {
  import opened Outcomes

  datatype TokenizerError = InvalidCharacter(c: char)

  /** A Number carries its lexeme (the characters it was read from); the
      conversion to f64 is modelled only as far as whether it succeeds,
      see ParsesAsF64. */
  datatype Token =
    | Number(lexeme: seq<char>)
    | String(text: seq<char>)
    | LeftBracket
    | RightBracket
    | Comma
    | Bool(b: bool)
    | Null
    | LeftBrace
    | RightBrace
    | Colon

  predicate IsDigit(c: char) { '0' <= c <= '9' }

  /** The characters that start a Number lexeme. */
  predicate StartsNumber(c: char) { IsDigit(c) || c == '+' || c == '-' || c == '.' }

  /** The characters that extend a Number lexeme once it has started. */
  predicate ContinuesNumber(c: char) { IsDigit(c) || c == '.' }

  /** The characters skipped without producing a token. */
  predicate IsSkipped(c: char) { c == ' ' || c == '\n' || c == '\t' }

  predicate IsStructural(c: char) {
    c == '{' || c == '}' || c == '[' || c == ']' || c == ',' || c == ':'
  }

  function StructuralToken(c: char): Token
    requires IsStructural(c)
  {
    match c
    case '{' => LeftBrace
    case '}' => RightBrace
    case '[' => LeftBracket
    case ']' => RightBracket
    case ',' => Comma
    case ':' => Colon
  }

  /** The initial letters of the literals `null`, `true` and `false`. */
  predicate StartsKeyword(c: char) { c == 'n' || c == 't' || c == 'f' }

  /** The characters a literal requires after its initial letter. */
  function KeywordRest(c: char): seq<char>
    requires StartsKeyword(c)
  {
    match c
    case 'n' => "ull"
    case 't' => "rue"
    case 'f' => "alse"
  }

  function KeywordToken(c: char): Token
    requires StartsKeyword(c)
  {
    match c
    case 'n' => Null
    case 't' => Bool(true)
    case 'f' => Bool(false)
  }

  function DotCount(s: seq<char>): nat
  {
    if s == [] then 0 else (if s[0] == '.' then 1 else 0) + DotCount(s[1..])
  }

  /** `s` without a leading sign. */
  function Unsigned(s: seq<char>): seq<char>
  {
    if |s| > 0 && (s[0] == '+' || s[0] == '-') then s[1..] else s
  }

  /** Whether Rust's `str::parse::<f64>` accepts a Number lexeme. On the
      strings the tokenizer can collect (one character of `0-9 + - .`
      followed by digits and dots) the documented grammar of `f64::from_str`,
      Sign? (Digit+ | Digit+ '.' Digit* | Digit* '.' Digit+), comes down to:
      after an optional sign, only digits and dots, at most one dot and at
      least one digit. The numeric value is not modelled. */
  predicate ParsesAsF64(s: seq<char>)
  {
    var body := Unsigned(s);
    (forall i :: 0 <= i < |body| ==> ContinuesNumber(body[i])) &&
    (exists i :: 0 <= i < |body| && IsDigit(body[i])) &&
    DotCount(body) <= 1
  }

  /** The length of the longest prefix of `s` made of digits and dots. */
  function RunLength(s: seq<char>): (n: nat)
    ensures n <= |s|
    ensures forall i :: 0 <= i < n ==> ContinuesNumber(s[i])
    ensures n < |s| ==> !ContinuesNumber(s[n])
  {
    if s != [] && ContinuesNumber(s[0]) then 1 + RunLength(s[1..]) else 0
  }

  /** The index of the first `"` in `s`, or `|s|` when there is none. */
  function QuoteIndex(s: seq<char>): (k: nat)
    ensures k <= |s|
    ensures forall i :: 0 <= i < k ==> s[i] != '"'
    ensures k < |s| ==> s[k] == '"'
  {
    if s == [] then 0 else if s[0] == '"' then 0 else 1 + QuoteIndex(s[1..])
  }

  /** How many leading characters of `w` appear, one after the other, at
      the front of `s`: the matching stops at the first mismatch or at the
      end of `s`. */
  function MatchLength(s: seq<char>, w: seq<char>): (k: nat)
    ensures k <= |w| && k <= |s|
    ensures s[..k] == w[..k]
    ensures k < |w| ==> k == |s| || s[k] != w[k]
  {
    if w == [] || s == [] || s[0] != w[0] then 0 else 1 + MatchLength(s[1..], w[1..])
  }

  /** The result of tokenizing: the outcome of the call and how many
      characters the cursor moved past before it returned. */
  datatype Scan = Scan(outcome: Outcome<seq<Token>, TokenizerError>, consumed: nat)

  /** A scan of the rest of the input, after `k` characters that produced
      the tokens `ts`. */
  function Resume(ts: seq<Token>, k: nat, r: Scan): Scan
  {
    Scan(if r.outcome.Ok? then Ok(ts + r.outcome.value) else r.outcome, k + r.consumed)
  }

  /** What the lexeme at the front of `s` does: it either yields tokens and
      lets the scan go on after `width` characters, or ends the call. */
  datatype Step =
    | Emit(tokens: seq<Token>, width: nat)
    | Halt(outcome: Outcome<seq<Token>, TokenizerError>, width: nat)

  /** One iteration of the outer loop of `tokenize`, dispatched on the
      first character of `s`. */
  function FirstLexeme(s: seq<char>): (st: Step)
    requires s != []
    ensures 0 < st.width <= |s|
  {
    var c := s[0];
    if StartsNumber(c) then
      var n := 1 + RunLength(s[1..]);
      if ParsesAsF64(s[..n]) then Emit([Number(s[..n])], n) else Halt(Panic, n)
    else if c == '"' then
      var k := QuoteIndex(s[1..]);
      if k == |s| - 1 then Halt(Ok([]), |s|) else Emit([String(s[1..k + 1])], k + 2)
    else if StartsKeyword(c) then
      var m := MatchLength(s[1..], KeywordRest(c));
      if m == |KeywordRest(c)| then Emit([KeywordToken(c)], 1 + m)
      else Halt(Err(InvalidCharacter(c)), 1 + m)
    else if IsStructural(c) then Emit([StructuralToken(c)], 1)
    else if IsSkipped(c) then Emit([], 1)
    else Halt(Err(InvalidCharacter(c)), 1)
  }

  /** What `tokenize` does with the characters `s` still ahead of the
      cursor. */
  function Lex(s: seq<char>): (r: Scan)
    ensures r.consumed <= |s|
    ensures r.outcome.Ok? ==> r.consumed == |s|
    decreases |s|
  {
    if s == [] then Scan(Ok([]), 0)
    else
      match FirstLexeme(s)
      case Emit(ts, w) => Resume(ts, w, Lex(s[w..]))
      case Halt(o, w) => Scan(o, w)
  }

  /** The `Tokenizer` struct: the peekable character iterator is the input
      `chars` with the cursor `pos`. */
  class Tokenizer {
    const chars: seq<char>
    var pos: nat

    ghost predicate Valid()
      reads this
    {
      pos <= |chars|
    }

    /** The characters the iterator has still to yield. */
    ghost function Rest(): seq<char>
      reads this
      requires Valid()
    {
      chars[pos..]
    }

    constructor (text: seq<char>)
      ensures Valid() && chars == text && pos == 0
    {
      chars := text;
      pos := 0;
    }

    /** The `for` loop over `required_chars` of a literal: each required
        character is consumed if it is the one peeked, and the loop stops
        at the first one that is not (or at the end of the input). */
    method ExpectChars(required: seq<char>) returns (ok: bool)
      requires Valid()
      modifies this
      ensures Valid()
      ensures pos == old(pos) + MatchLength(old(Rest()), required)
      ensures ok == (MatchLength(old(Rest()), required) == |required|)
    {
      ghost var start := pos;
      var i := 0;
      while i < |required|
        invariant i <= |required| && start + i == pos <= |chars|
        invariant MatchLength(chars[start..], required) == i + MatchLength(chars[pos..], required[i..])
        decreases |required| - i
      {
        if pos < |chars| && chars[pos] == required[i] {
          assert chars[pos..][1..] == chars[pos + 1..];
          assert required[i..][1..] == required[i + 1..];
          pos := pos + 1;
          i := i + 1;
        } else {
          return false;
        }
      }
      return true;
    }

    /** The inner loop of a Number: consumes the run of digits and dots
        that follows the cursor and returns it. */
    method ReadRun() returns (run: seq<char>)
      requires Valid()
      modifies this
      ensures Valid()
      ensures pos == old(pos) + RunLength(old(Rest()))
      ensures run == old(Rest())[..RunLength(old(Rest()))]
    {
      ghost var start := pos;
      run := [];
      while pos < |chars| && ContinuesNumber(chars[pos])
        invariant start <= pos <= |chars|
        invariant run == chars[start..pos]
        invariant RunLength(chars[start..]) == (pos - start) + RunLength(chars[pos..])
        decreases |chars| - pos
      {
        assert chars[pos..][1..] == chars[pos + 1..];
        run := run + [chars[pos]];
        pos := pos + 1;
      }
    }

    /** The inner loop of a String: consumes characters up to and including
        the next `"`, or to the end of the input when there is none, and
        returns the characters before the quote. */
    method ReadString() returns (text: seq<char>, closed: bool)
      requires Valid()
      modifies this
      ensures Valid()
      ensures closed == (QuoteIndex(old(Rest())) < |old(Rest())|)
      ensures text == old(Rest())[..QuoteIndex(old(Rest()))]
      ensures pos == old(pos) + QuoteIndex(old(Rest())) + (if closed then 1 else 0)
    {
      ghost var start := pos;
      text := [];
      closed := false;
      while pos < |chars|
        invariant start <= pos <= |chars|
        invariant text == chars[start..pos]
        invariant QuoteIndex(chars[start..]) == (pos - start) + QuoteIndex(chars[pos..])
        decreases |chars| - pos
      {
        var d := chars[pos];
        assert chars[pos..][1..] == chars[pos + 1..];
        pos := pos + 1;
        if d == '"' {
          closed := true;
          return;
        }
        text := text + [d];
      }
    }

    /** One iteration of the outer loop of `tokenize`: reads the next
        character and the rest of its lexeme, and says what the lexeme
        yields or how it ends the call. */
    method ReadLexeme() returns (st: Step)
      requires Valid() && pos < |chars|
      modifies this
      ensures Valid()
      ensures st == FirstLexeme(old(Rest()))
      ensures pos == old(pos) + st.width
    {
      ghost var s := chars[pos..];
      var begin := pos;
      var c := chars[pos];
      pos := pos + 1;
      assert chars[pos..] == s[1..];
      if StartsNumber(c) {
        var run := ReadRun();
        var num := [c] + run;
        assert num == s[..1 + |run|];
        if !ParsesAsF64(num) {
          return Halt(Panic, 1 + |run|);
        }
        return Emit([Number(num)], 1 + |run|);
      } else if c == '"' {
        var text, closed := ReadString();
        if !closed {
          return Halt(Ok([]), 1 + |text|);
        }
        assert text == s[1..1 + |text|];
        return Emit([String(text)], 2 + |text|);
      } else if StartsKeyword(c) {
        var ok := ExpectChars(KeywordRest(c));
        if !ok {
          return Halt(Err(InvalidCharacter(c)), pos - begin);
        }
        return Emit([KeywordToken(c)], 1 + |KeywordRest(c)|);
      } else if IsStructural(c) {
        return Emit([StructuralToken(c)], 1);
      } else if IsSkipped(c) {
        return Emit([], 1);
      } else {
        return Halt(Err(InvalidCharacter(c)), 1);
      }
    }

    /** `tokenize`: the whole call is `Lex` of the characters ahead of the
        cursor, and the cursor ends where `Lex` says it stops. */
    method Tokenize() returns (r: Outcome<seq<Token>, TokenizerError>)
      requires Valid()
      modifies this
      ensures Valid()
      ensures r == Lex(old(Rest())).outcome
      ensures pos == old(pos) + Lex(old(Rest())).consumed
    {
      var tokens: seq<Token> := [];
      ghost var start := pos;
      ResumeNothing(Lex(chars[pos..]));
      while pos < |chars|
        invariant start <= pos <= |chars|
        invariant Resume(tokens, pos - start, Lex(chars[pos..])) == Lex(chars[start..])
        decreases |chars| - pos
      {
        ghost var s := chars[pos..];
        var st := ReadLexeme();
        assert s[st.width..] == chars[pos..];
        match st
        case Emit(ts, w) =>
          ResumeTwice(tokens, pos - w - start, ts, w, Lex(chars[pos..]));
          tokens := tokens + ts;
        case Halt(o, w) =>
          if !o.Ok? {
            assert Lex(s) == Scan(o, w);
            assert Resume(tokens, pos - w - start, Lex(s)).outcome == o;
            return o;
          }
          ResumeTwice(tokens, pos - w - start, [], w, Lex(chars[pos..]));
      }
      assert chars[pos..] == [];
      assert tokens + [] == tokens;
      r := Ok(tokens);
    }
  }

  /** Resuming after nothing changes nothing. */
  lemma ResumeNothing(r: Scan)
    ensures Resume([], 0, r) == r
  {
    if r.outcome.Ok? {
      assert [] + r.outcome.value == r.outcome.value;
    }
  }

  /** Resuming twice is resuming once with both token runs. */
  lemma ResumeTwice(ts: seq<Token>, j: nat, us: seq<Token>, k: nat, r: Scan)
    ensures Resume(ts, j, Resume(us, k, r)) == Resume(ts + us, j + k, r)
  {
    if r.outcome.Ok? {
      assert ts + (us + r.outcome.value) == (ts + us) + r.outcome.value;
    }
  }
}
