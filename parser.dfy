/** The recursive-descent parser of src/parser.rs: a forward-only cursor
    over the tokens, with one token of peek, that builds an Element tree. */
module Parsing {
  import opened Outcomes
  import opened Lexing

  /** A Number element keeps the lexeme of its token (see Lexing.Token).
      The `Object` and `Array` structs of the source, each a wrapper
      around one vector, are folded into the two variants. */
  datatype Element =
    | String(text: seq<char>)
    | Number(lexeme: seq<char>)
    | Boolean(b: bool)
    | Null
    | Object(members: seq<Member>)
    | Array(elements: seq<Element>)

  datatype Member = Member(key: seq<char>, value: Element)

  datatype ParseError = UnexpectedToken(token: Token) | UnexpectedEof | ParseError

  /** A value read by a parsing procedure and the position of the first
      token it did not consume. */
  datatype Parsed<T> = Parsed(value: T, next: nat)

  /** `.expect` on a Result: an `Err` becomes a panic. */
  function Expect<T>(o: Outcome<T, ParseError>): (r: Outcome<T, ParseError>)
    ensures r.Ok? <==> o.Ok?
    ensures r.Ok? ==> r == o
    ensures !r.Ok? ==> r == Panic
  {
    if o.Ok? then o else Panic
  }

  /** `parse_element` started with the cursor at `p`. */
  function ElementAt(ts: seq<Token>, p: nat): (r: Outcome<Parsed<Element>, ParseError>)
    requires p <= |ts|
    ensures r.Ok? ==> p < r.value.next <= |ts|
    decreases |ts| - p, 0
  {
    if p == |ts| then Err(ParseError)
    else
      match ts[p]
      case String(v) => Ok(Parsed(Element.String(v), p + 1))
      case Number(l) => Ok(Parsed(Element.Number(l), p + 1))
      case Bool(b) => Ok(Parsed(Boolean(b), p + 1))
      case Null => Ok(Parsed(Element.Null, p + 1))
      case LeftBrace => Expect(ObjectAt(ts, p + 1))
      case LeftBracket => Expect(ArrayAt(ts, p + 1))
      case _ => Err(UnexpectedToken(ts[p]))
  }

  /** `parse_object`, called once the `{` has been consumed. */
  function ObjectAt(ts: seq<Token>, p: nat): (r: Outcome<Parsed<Element>, ParseError>)
    requires p <= |ts|
    ensures r.Ok? ==> p < r.value.next <= |ts|
    decreases |ts| - p, 3
  {
    match MembersAt(ts, p)
    case Ok(Parsed(ms, q)) =>
      if q == |ts| then Panic
      else if ts[q].RightBrace? then Ok(Parsed(Object(ms), q + 1))
      else Err(ParseError)
    case _ => Panic
  }

  /** The `while let` loop of `parse_members` from the cursor `p`: an
      optional comma is consumed, a `}` then ends the loop without being
      consumed, and anything else must be a member. */
  function MembersAt(ts: seq<Token>, p: nat): (r: Outcome<Parsed<seq<Member>>, ParseError>)
    requires p <= |ts|
    ensures !r.Err?
    ensures r.Ok? ==> p <= r.value.next <= |ts|
    decreases |ts| - p, 2
  {
    if p == |ts| then Ok(Parsed([], p))
    else
      var c := if ts[p].Comma? then p + 1 else p;
      if c == |ts| then Panic
      else if ts[c].RightBrace? then Ok(Parsed([], c))
      else
        match MemberAt(ts, c)
        case Ok(Parsed(m, k)) =>
          (match MembersAt(ts, k)
           case Ok(Parsed(ms, q)) => Ok(Parsed([m] + ms, q))
           case _ => Panic)
        case _ => Panic
  }

  /** `parse_member`: a String key, a Colon, then an element. */
  function MemberAt(ts: seq<Token>, p: nat): (r: Outcome<Parsed<Member>, ParseError>)
    requires p <= |ts|
    ensures r.Ok? ==> p + 2 < r.value.next <= |ts|
    decreases |ts| - p, 1
  {
    if p + 1 < |ts| && ts[p].String? && ts[p + 1].Colon? then
      match ElementAt(ts, p + 2)
      case Ok(Parsed(v, q)) => Ok(Parsed(Member(ts[p].text, v), q))
      case _ => Panic
    else Err(ParseError)
  }

  /** `parse_array`, called once the `[` has been consumed. */
  function ArrayAt(ts: seq<Token>, p: nat): (r: Outcome<Parsed<Element>, ParseError>)
    requires p <= |ts|
    ensures r.Ok? ==> p < r.value.next <= |ts|
    decreases |ts| - p, 3
  {
    match ElementsAt(ts, p)
    case Ok(Parsed(es, q)) =>
      if q == |ts| then Panic
      else if ts[q].RightBracket? then Ok(Parsed(Array(es), q + 1))
      else Err(ParseError)
    case _ => Panic
  }

  /** The `while let` loop of `parse_elements`, the same as that of
      `parse_members` with `]` as the closer and elements as the items. */
  function ElementsAt(ts: seq<Token>, p: nat): (r: Outcome<Parsed<seq<Element>>, ParseError>)
    requires p <= |ts|
    ensures !r.Err?
    ensures r.Ok? ==> p <= r.value.next <= |ts|
    decreases |ts| - p, 2
  {
    if p == |ts| then Ok(Parsed([], p))
    else
      var c := if ts[p].Comma? then p + 1 else p;
      if c == |ts| then Panic
      else if ts[c].RightBracket? then Ok(Parsed([], c))
      else
        match ElementAt(ts, c)
        case Ok(Parsed(e, k)) =>
          (match ElementsAt(ts, k)
           case Ok(Parsed(es, q)) => Ok(Parsed([e] + es, q))
           case _ => Panic)
        case _ => Panic
  }

  /** `parse`: one element from the cursor `p`, whatever follows it. */
  function RootAt(ts: seq<Token>, p: nat): (r: Outcome<Element, ParseError>)
    requires p <= |ts|
    ensures !r.Err?
    ensures r.Ok? <==> ElementAt(ts, p).Ok?
  {
    match ElementAt(ts, p)
    case Ok(Parsed(e, _)) => Ok(e)
    case _ => Panic
  }

  /** A method's outcome `r`, with the cursor left at `p`, is the one the
      specification function gives; after a failure the cursor is not
      constrained, as every failure ends in a panic. */
  predicate Agrees<T(==)>(r: Outcome<T, ParseError>, p: nat, spec: Outcome<Parsed<T>, ParseError>)
  {
    match spec
    case Ok(Parsed(v, n)) => r == Ok(v) && p == n
    case Err(e) => r == Err(e)
    case Panic => r == Panic
  }

  /** `spec` after the items `acc` that the loop has already collected. */
  function Extend<T>(acc: seq<T>, spec: Outcome<Parsed<seq<T>>, ParseError>): Outcome<Parsed<seq<T>>, ParseError>
  {
    match spec
    case Ok(Parsed(xs, q)) => Ok(Parsed(acc + xs, q))
    case _ => spec
  }

  lemma ExtendNothing<T>(spec: Outcome<Parsed<seq<T>>, ParseError>)
    ensures Extend([], spec) == spec
  {
    if spec.Ok? {
      assert [] + spec.value.value == spec.value.value;
    }
  }

  lemma ExtendTwice<T>(acc: seq<T>, x: T, spec: Outcome<Parsed<seq<T>>, ParseError>)
    ensures Extend(acc, Extend([x], spec)) == Extend(acc + [x], spec)
  {
    if spec.Ok? {
      assert acc + ([x] + spec.value.value) == (acc + [x]) + spec.value.value;
    }
  }

  /** The `Parser` struct: the peekable token iterator is the token
      sequence `tokens` with the cursor `pos`. */
  class Parser {
    const tokens: seq<Token>
    var pos: nat

    ghost predicate Valid()
      reads this
    {
      pos <= |tokens|
    }

    constructor (ts: seq<Token>)
      ensures Valid() && tokens == ts && pos == 0
    {
      tokens := ts;
      pos := 0;
    }

    method Parse() returns (r: Outcome<Element, ParseError>)
      requires Valid()
      modifies this
      ensures Valid()
      ensures r == RootAt(tokens, old(pos))
      ensures r.Ok? ==> pos == ElementAt(tokens, old(pos)).value.next
    {
      var node := ParseElement();
      r := Expect(node);
    }

    method ParseElement() returns (r: Outcome<Element, ParseError>)
      requires Valid()
      modifies this
      ensures Valid() && old(pos) <= pos
      ensures Agrees(r, pos, ElementAt(tokens, old(pos)))
      decreases |tokens| - pos, 0
    {
      if pos == |tokens| {
        return Err(ParseError);
      }
      var token := tokens[pos];
      pos := pos + 1;
      match token
      case String(v) => r := Ok(Element.String(v));
      case Number(l) => r := Ok(Element.Number(l));
      case Bool(b) => r := Ok(Boolean(b));
      case Null => r := Ok(Element.Null);
      case LeftBrace =>
        var node := ParseObject();
        r := Expect(node);
      case LeftBracket =>
        var node := ParseArray();
        r := Expect(node);
      case _ => r := Err(UnexpectedToken(token));
    }

    method ParseObject() returns (r: Outcome<Element, ParseError>)
      requires Valid()
      modifies this
      ensures Valid() && old(pos) <= pos
      ensures Agrees(r, pos, ObjectAt(tokens, old(pos)))
      decreases |tokens| - pos, 3
    {
      var members := ParseMembers();
      if !members.Ok? {
        return Panic;
      }
      if pos == |tokens| {
        return Panic;
      }
      var token := tokens[pos];
      pos := pos + 1;
      if token.RightBrace? {
        return Ok(Object(members.value));
      }
      return Err(ParseError);
    }

    method ParseMembers() returns (r: Outcome<seq<Member>, ParseError>)
      requires Valid()
      modifies this
      ensures Valid() && old(pos) <= pos
      ensures Agrees(r, pos, MembersAt(tokens, old(pos)))
      decreases |tokens| - pos, 2
    {
      var members: seq<Member> := [];
      ghost var start := pos;
      ExtendNothing(MembersAt(tokens, pos));
      while pos < |tokens|
        invariant start <= pos <= |tokens|
        invariant Extend(members, MembersAt(tokens, pos)) == MembersAt(tokens, start)
        decreases |tokens| - pos
      {
        if tokens[pos].Comma? {
          pos := pos + 1;
        }
        if pos == |tokens| {
          return Panic;
        }
        if tokens[pos].RightBrace? {
          break;
        }
        var member := ParseMember();
        if !member.Ok? {
          return Panic;
        }
        ExtendTwice(members, member.value, MembersAt(tokens, pos));
        members := members + [member.value];
      }
      assert members + [] == members;
      r := Ok(members);
    }

    method ParseMember() returns (r: Outcome<Member, ParseError>)
      requires Valid()
      modifies this
      ensures Valid() && old(pos) <= pos
      ensures Agrees(r, pos, MemberAt(tokens, old(pos)))
      decreases |tokens| - pos, 1
    {
      if pos == |tokens| {
        return Err(ParseError);
      }
      var key := tokens[pos];
      pos := pos + 1;
      if !key.String? {
        return Err(ParseError);
      }
      if pos == |tokens| {
        return Err(ParseError);
      }
      var colon := tokens[pos];
      pos := pos + 1;
      if !colon.Colon? {
        return Err(ParseError);
      }
      var value := ParseElement();
      if !value.Ok? {
        return Panic;
      }
      return Ok(Member(key.text, value.value));
    }

    method ParseArray() returns (r: Outcome<Element, ParseError>)
      requires Valid()
      modifies this
      ensures Valid() && old(pos) <= pos
      ensures Agrees(r, pos, ArrayAt(tokens, old(pos)))
      decreases |tokens| - pos, 3
    {
      var elements := ParseElements();
      if !elements.Ok? {
        return Panic;
      }
      if pos == |tokens| {
        return Panic;
      }
      var token := tokens[pos];
      pos := pos + 1;
      if token.RightBracket? {
        return Ok(Array(elements.value));
      }
      return Err(ParseError);
    }

    method ParseElements() returns (r: Outcome<seq<Element>, ParseError>)
      requires Valid()
      modifies this
      ensures Valid() && old(pos) <= pos
      ensures Agrees(r, pos, ElementsAt(tokens, old(pos)))
      decreases |tokens| - pos, 2
    {
      var elements: seq<Element> := [];
      ghost var start := pos;
      ExtendNothing(ElementsAt(tokens, pos));
      while pos < |tokens|
        invariant start <= pos <= |tokens|
        invariant Extend(elements, ElementsAt(tokens, pos)) == ElementsAt(tokens, start)
        decreases |tokens| - pos
      {
        if tokens[pos].Comma? {
          pos := pos + 1;
        }
        if pos == |tokens| {
          return Panic;
        }
        if tokens[pos].RightBracket? {
          break;
        }
        var element := ParseElement();
        if !element.Ok? {
          return Panic;
        }
        ExtendTwice(elements, element.value, ElementsAt(tokens, pos));
        elements := elements + [element.value];
      }
      assert elements + [] == elements;
      r := Ok(elements);
    }
  }
}
