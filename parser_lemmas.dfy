/** What the parsing procedures do with each kind of token, what they do
    not look at, how commas are treated, and the round trip from trees to
    tokens and back. */
module ParsingProperties {
  import opened Outcomes
  import opened Lexing
  import opened Parsing

  // ----- parse_element on its first token -----

  predicate IsLeafToken(t: Token)
  {
    t.String? || t.Number? || t.Bool? || t.Null?
  }

  function Leaf(t: Token): Element
    requires IsLeafToken(t)
  {
    match t
    case String(v) => Element.String(v)
    case Number(l) => Element.Number(l)
    case Bool(b) => Boolean(b)
    case Null => Element.Null
  }

  /** A String, Number, Bool or Null token is a leaf element by itself. */
  lemma ElementLeaf(ts: seq<Token>, p: nat)
    requires p < |ts| && IsLeafToken(ts[p])
    ensures ElementAt(ts, p) == Ok(Parsed(Leaf(ts[p]), p + 1))
  {
  }

  /** A closer or separator in element position is returned as an
      unexpected token, and an exhausted stream as the catch-all error. */
  lemma ElementRejects(ts: seq<Token>, p: nat)
    requires p <= |ts|
    requires p < |ts| ==> ts[p].Comma? || ts[p].Colon? || ts[p].RightBrace? || ts[p].RightBracket?
    ensures ElementAt(ts, p) == if p == |ts| then Err(ParseError) else Err(UnexpectedToken(ts[p]))
  {
  }

  /** A successful object is opened by `{` and closed by `}`, an array by
      `[` and `]`. */
  lemma ContainerDelimiters(ts: seq<Token>, p: nat)
    requires p <= |ts| && ElementAt(ts, p).Ok?
    ensures ElementAt(ts, p).value.value.Object? ==>
      ts[p].LeftBrace? && ts[ElementAt(ts, p).value.next - 1].RightBrace?
    ensures ElementAt(ts, p).value.value.Array? ==>
      ts[p].LeftBracket? && ts[ElementAt(ts, p).value.next - 1].RightBracket?
  {
  }

  // ----- what a successful parse looks at -----

  /** `ts` and `us` hold the same first `n` tokens. */
  ghost predicate Agree(ts: seq<Token>, us: seq<Token>, n: nat)
  {
    n <= |ts| && n <= |us| && forall i :: 0 <= i < n ==> ts[i] == us[i]
  }

  /** A successful parse of an element depends only on the tokens it
      consumed: the procedures never look past the end of what they
      return. */
  lemma {:induction false} ElementFrame(ts: seq<Token>, us: seq<Token>, p: nat)
    requires p <= |ts| && ElementAt(ts, p).Ok?
    requires Agree(ts, us, ElementAt(ts, p).value.next)
    ensures p <= |us| && ElementAt(us, p) == ElementAt(ts, p)
    decreases |ts| - p, 0
  {
    assert ts[p] == us[p];
    match ts[p]
    case LeftBrace => ObjectFrame(ts, us, p + 1);
    case LeftBracket => ArrayFrame(ts, us, p + 1);
    case _ =>
  }

  lemma {:induction false} ObjectFrame(ts: seq<Token>, us: seq<Token>, p: nat)
    requires p <= |ts| && ObjectAt(ts, p).Ok?
    requires Agree(ts, us, ObjectAt(ts, p).value.next)
    ensures p <= |us| && ObjectAt(us, p) == ObjectAt(ts, p)
    decreases |ts| - p, 3
  {
    var q := MembersAt(ts, p).value.next;
    assert ts[q] == us[q];
    MembersFrame(ts, us, p);
  }

  lemma {:induction false} ArrayFrame(ts: seq<Token>, us: seq<Token>, p: nat)
    requires p <= |ts| && ArrayAt(ts, p).Ok?
    requires Agree(ts, us, ArrayAt(ts, p).value.next)
    ensures p <= |us| && ArrayAt(us, p) == ArrayAt(ts, p)
    decreases |ts| - p, 3
  {
    var q := ElementsAt(ts, p).value.next;
    assert ts[q] == us[q];
    ElementsFrame(ts, us, p);
  }

  /** The member loop looks at the tokens it consumed and peeks at the one
      closer it stops before. */
  lemma {:induction false} MembersFrame(ts: seq<Token>, us: seq<Token>, p: nat)
    requires p <= |ts| && MembersAt(ts, p).Ok? && MembersAt(ts, p).value.next < |ts|
    requires Agree(ts, us, MembersAt(ts, p).value.next + 1)
    ensures p <= |us| && MembersAt(us, p) == MembersAt(ts, p)
    decreases |ts| - p, 2
  {
    assert ts[p] == us[p];
    var c := if ts[p].Comma? then p + 1 else p;
    assert ts[c] == us[c];
    if !ts[c].RightBrace? {
      var k := MemberAt(ts, c).value.next;
      MemberFrame(ts, us, c);
      MembersFrame(ts, us, k);
    }
  }

  lemma {:induction false} MemberFrame(ts: seq<Token>, us: seq<Token>, p: nat)
    requires p <= |ts| && MemberAt(ts, p).Ok?
    requires Agree(ts, us, MemberAt(ts, p).value.next)
    ensures p <= |us| && MemberAt(us, p) == MemberAt(ts, p)
    decreases |ts| - p, 1
  {
    assert ts[p] == us[p] && ts[p + 1] == us[p + 1];
    ElementFrame(ts, us, p + 2);
  }

  lemma {:induction false} ElementsFrame(ts: seq<Token>, us: seq<Token>, p: nat)
    requires p <= |ts| && ElementsAt(ts, p).Ok? && ElementsAt(ts, p).value.next < |ts|
    requires Agree(ts, us, ElementsAt(ts, p).value.next + 1)
    ensures p <= |us| && ElementsAt(us, p) == ElementsAt(ts, p)
    decreases |ts| - p, 2
  {
    assert ts[p] == us[p];
    var c := if ts[p].Comma? then p + 1 else p;
    assert ts[c] == us[c];
    if !ts[c].RightBracket? {
      var k := ElementAt(ts, c).value.next;
      ElementFrame(ts, us, c);
      ElementsFrame(ts, us, k);
    }
  }

  /** `parse` reads one element from the front and ignores whatever tokens
      follow it. */
  lemma RootIgnoresRest(ts: seq<Token>, more: seq<Token>)
    requires RootAt(ts, 0).Ok?
    ensures RootAt(ts + more, 0) == RootAt(ts, 0)
  {
    ElementFrame(ts, ts + more, 0);
  }

  /** Cutting the tokens of an element short never gives a tree: running
      out of tokens anywhere inside it, after a comma too, ends in a
      panic. */
  lemma Truncated(ts: seq<Token>, p: nat, m: nat)
    requires p <= m <= |ts| && ElementAt(ts, p).Ok?
    requires m < ElementAt(ts, p).value.next
    ensures RootAt(ts[..m], p) == Panic
  {
    if ElementAt(ts[..m], p).Ok? {
      ElementFrame(ts[..m], ts, p);
    }
  }

  // ----- malformed members and closers -----

  /** `ts[c]` opens a member: a String key with a Colon after it. */
  predicate MemberOpens(ts: seq<Token>, c: nat)
  {
    c + 1 < |ts| && ts[c].String? && ts[c + 1].Colon?
  }

  /** Where the member and element loops look for an item or a closer:
      after the optional comma at `p`. */
  function AfterComma(ts: seq<Token>, p: nat): nat
    requires p < |ts|
  {
    if ts[p].Comma? then p + 1 else p
  }

  /** `parse_member` succeeds exactly on a String key, a Colon and an
      element after them; any other shape is the catch-all error. */
  lemma MemberShapeRule(ts: seq<Token>, p: nat)
    requires p <= |ts|
    ensures MemberAt(ts, p).Ok? <==> MemberOpens(ts, p) && ElementAt(ts, p + 2).Ok?
    ensures !MemberOpens(ts, p) ==> MemberAt(ts, p) == Err(ParseError)
  {
  }

  /** Where the member loop expects a member and finds neither `}` nor a
      key followed by a Colon, the call panics. */
  lemma MembersBadShape(ts: seq<Token>, p: nat)
    requires p < |ts|
    requires AfterComma(ts, p) < |ts| && !ts[AfterComma(ts, p)].RightBrace?
    requires !MemberOpens(ts, AfterComma(ts, p))
    ensures MembersAt(ts, p) == Panic
  {
  }

  /** A `]` where the member loop expects a member or `}` makes the call
      panic. */
  lemma MembersWrongCloser(ts: seq<Token>, p: nat)
    requires p < |ts|
    requires AfterComma(ts, p) < |ts| && ts[AfterComma(ts, p)].RightBracket?
    ensures MembersAt(ts, p) == Panic
  {
    MembersBadShape(ts, p);
  }

  /** A `}` where the element loop expects an element or `]` is an
      unexpected token to `parse_element`, and the call panics. */
  lemma ElementsWrongCloser(ts: seq<Token>, p: nat)
    requires p < |ts|
    requires AfterComma(ts, p) < |ts| && ts[AfterComma(ts, p)].RightBrace?
    ensures ElementAt(ts, AfterComma(ts, p)) == Err(UnexpectedToken(RightBrace))
    ensures ElementsAt(ts, p) == Panic
  {
  }

  /** The member loop stops only at the end of the tokens or before a `}`. */
  lemma {:induction false} MembersStop(ts: seq<Token>, p: nat)
    requires p <= |ts|
    ensures MembersAt(ts, p).Ok? ==>
      var q := MembersAt(ts, p).value.next; q == |ts| || ts[q].RightBrace?
    decreases |ts| - p
  {
    if p < |ts| {
      var c := AfterComma(ts, p);
      if c < |ts| && !ts[c].RightBrace? {
        match MemberAt(ts, c)
        case Ok(Parsed(_, k)) => MembersStop(ts, k);
        case _ =>
      }
    }
  }

  /** The element loop stops only at the end of the tokens or before a `]`. */
  lemma {:induction false} ElementsStop(ts: seq<Token>, p: nat)
    requires p <= |ts|
    ensures ElementsAt(ts, p).Ok? ==>
      var q := ElementsAt(ts, p).value.next; q == |ts| || ts[q].RightBracket?
    decreases |ts| - p
  {
    if p < |ts| {
      var c := AfterComma(ts, p);
      if c < |ts| && !ts[c].RightBracket? {
        match ElementAt(ts, c)
        case Ok(Parsed(_, k)) => ElementsStop(ts, k);
        case _ =>
      }
    }
  }

  /** The closer check of `parse_object` and `parse_array` never fails:
      each loop has stopped at its own closer or at the end, where the
      check panics, so neither procedure returns `Err`. */
  lemma ContainersNeverErr(ts: seq<Token>, p: nat)
    requires p <= |ts|
    ensures !ObjectAt(ts, p).Err?
    ensures !ArrayAt(ts, p).Err?
  {
    MembersStop(ts, p);
    ElementsStop(ts, p);
  }

  // ----- commas -----

  /** A single comma where the element loop peeks is skipped: the loop
      goes on as if it were not there, before an item and before the `]`
      alike. */
  lemma ElementsCommaOptional(ts: seq<Token>, q: nat)
    requires q + 1 < |ts| && ts[q].Comma? && !ts[q + 1].Comma?
    ensures ElementsAt(ts, q) == ElementsAt(ts, q + 1)
  {
  }

  /** A second comma is not skipped: it reaches `parse_element`, whose
      error the loop turns into a panic. */
  lemma ElementsDoubleComma(ts: seq<Token>, q: nat)
    requires q + 1 < |ts| && ts[q].Comma? && ts[q + 1].Comma?
    ensures ElementsAt(ts, q) == Panic
  {
  }

  /** One turn of the element loop: an item, then the rest of the loop. */
  lemma ElementsStep(ts: seq<Token>, p: nat, e: Element, k: nat, es: seq<Element>, q: nat)
    requires p < |ts| && !ts[p].Comma? && !ts[p].RightBracket?
    requires ElementAt(ts, p) == Ok(Parsed(e, k))
    requires k <= |ts| && ElementsAt(ts, k) == Ok(Parsed(es, q))
    ensures ElementsAt(ts, p) == Ok(Parsed([e] + es, q))
  {
  }

  lemma MembersStep(ts: seq<Token>, p: nat, m: Member, k: nat, ms: seq<Member>, q: nat)
    requires p < |ts| && !ts[p].Comma? && !ts[p].RightBrace?
    requires MemberAt(ts, p) == Ok(Parsed(m, k))
    requires k <= |ts| && MembersAt(ts, k) == Ok(Parsed(ms, q))
    ensures MembersAt(ts, p) == Ok(Parsed([m] + ms, q))
  {
  }

  lemma MembersCommaOptional(ts: seq<Token>, q: nat)
    requires q + 1 < |ts| && ts[q].Comma? && !ts[q + 1].Comma?
    ensures MembersAt(ts, q) == MembersAt(ts, q + 1)
  {
  }

  lemma MembersDoubleComma(ts: seq<Token>, q: nat)
    requires q + 1 < |ts| && ts[q].Comma? && ts[q + 1].Comma?
    ensures MembersAt(ts, q) == Panic
  {
  }

  /** `ts` with `t` inserted before position `q`. */
  function Insert(ts: seq<Token>, q: nat, t: Token): (us: seq<Token>)
    requires q <= |ts|
    ensures |us| == |ts| + 1 && us[q] == t
    ensures forall i :: 0 <= i < q ==> us[i] == ts[i]
    ensures forall i :: q < i < |us| ==> us[i] == ts[i - 1]
  {
    ts[..q] + [t] + ts[q..]
  }

  /** A comma inserted before the `]` that ends the element loop, where
      none stands already, changes nothing but the position. */
  lemma {:induction false} ElementsTrailingComma(ts: seq<Token>, p: nat)
    requires p <= |ts| && ElementsAt(ts, p).Ok?
    requires 0 < ElementsAt(ts, p).value.next < |ts|
    requires ts[ElementsAt(ts, p).value.next].RightBracket?
    requires !ts[ElementsAt(ts, p).value.next - 1].Comma?
    ensures var q := ElementsAt(ts, p).value.next;
      ElementsAt(Insert(ts, q, Comma), p) == Ok(Parsed(ElementsAt(ts, p).value.value, q + 1))
    decreases |ts| - p
  {
    var q := ElementsAt(ts, p).value.next;
    var us := Insert(ts, q, Comma);
    var c := if ts[p].Comma? then p + 1 else p;
    if !ts[c].RightBracket? {
      var k := ElementAt(ts, c).value.next;
      ElementFrame(ts, us, c);
      ElementsTrailingComma(ts, k);
    }
  }

  lemma {:induction false} MembersTrailingComma(ts: seq<Token>, p: nat)
    requires p <= |ts| && MembersAt(ts, p).Ok?
    requires 0 < MembersAt(ts, p).value.next < |ts|
    requires ts[MembersAt(ts, p).value.next].RightBrace?
    requires !ts[MembersAt(ts, p).value.next - 1].Comma?
    ensures var q := MembersAt(ts, p).value.next;
      MembersAt(Insert(ts, q, Comma), p) == Ok(Parsed(MembersAt(ts, p).value.value, q + 1))
    decreases |ts| - p
  {
    var q := MembersAt(ts, p).value.next;
    var us := Insert(ts, q, Comma);
    var c := if ts[p].Comma? then p + 1 else p;
    if !ts[c].RightBrace? {
      var k := MemberAt(ts, c).value.next;
      MemberFrame(ts, us, c);
      MembersTrailingComma(ts, k);
    }
  }

  /** An array whose last item is not followed by a comma parses to the
      same tree once a trailing comma is added before its `]`. */
  lemma ArrayTrailingComma(ts: seq<Token>, p: nat)
    requires p <= |ts| && ElementAt(ts, p).Ok? && ElementAt(ts, p).value.value.Array?
    requires !ts[ElementAt(ts, p).value.next - 2].Comma?
    ensures var n := ElementAt(ts, p).value.next;
      ElementAt(Insert(ts, n - 1, Comma), p) == Ok(Parsed(ElementAt(ts, p).value.value, n + 1))
  {
    ContainerDelimiters(ts, p);
    ElementsTrailingComma(ts, p + 1);
  }

  /** The same for an object and its `}`. */
  lemma ObjectTrailingComma(ts: seq<Token>, p: nat)
    requires p <= |ts| && ElementAt(ts, p).Ok? && ElementAt(ts, p).value.value.Object?
    requires !ts[ElementAt(ts, p).value.next - 2].Comma?
    ensures var n := ElementAt(ts, p).value.next;
      ElementAt(Insert(ts, n - 1, Comma), p) == Ok(Parsed(ElementAt(ts, p).value.value, n + 1))
  {
    ContainerDelimiters(ts, p);
    MembersTrailingComma(ts, p + 1);
  }

  // ----- the round trip from trees to tokens and back -----

  /** The tokens of an element as the grammar writes them: items separated
      by single commas, no trailing comma. */
  function Tokens(e: Element): seq<Token>
    decreases e, 1
  {
    match e
    case String(v) => [Token.String(v)]
    case Number(l) => [Token.Number(l)]
    case Boolean(b) => [Bool(b)]
    case Null => [Token.Null]
    case Object(ms) => [LeftBrace] + MembersTokens(ms) + [RightBrace]
    case Array(es) => [LeftBracket] + ElementsTokens(es) + [RightBracket]
  }

  function MemberTokens(m: Member): seq<Token>
    decreases m, 1
  {
    [Token.String(m.key), Colon] + Tokens(m.value)
  }

  function MembersTokens(ms: seq<Member>): seq<Token>
    decreases ms, 0
  {
    if ms == [] then []
    else if |ms| == 1 then MemberTokens(ms[0])
    else MemberTokens(ms[0]) + [Comma] + MembersTokens(ms[1..])
  }

  function ElementsTokens(es: seq<Element>): seq<Token>
    decreases es, 0
  {
    if es == [] then []
    else if |es| == 1 then Tokens(es[0])
    else Tokens(es[0]) + [Comma] + ElementsTokens(es[1..])
  }

  /** `xs` stands in `ts` from position `p` on. */
  ghost predicate Occurs(xs: seq<Token>, ts: seq<Token>, p: nat)
  {
    p + |xs| <= |ts| && forall i :: 0 <= i < |xs| ==> ts[p + i] == xs[i]
  }

  lemma OccursSplit(a: seq<Token>, b: seq<Token>, ts: seq<Token>, p: nat)
    requires Occurs(a + b, ts, p)
    ensures Occurs(a, ts, p) && Occurs(b, ts, p + |a|)
  {
    forall i | 0 <= i < |a| ensures ts[p + i] == a[i] {
      assert (a + b)[i] == a[i];
    }
    forall i | 0 <= i < |b| ensures ts[p + |a| + i] == b[i] {
      assert (a + b)[|a| + i] == b[i];
    }
  }

  lemma OccursIndex(xs: seq<Token>, ts: seq<Token>, p: nat, i: nat)
    requires Occurs(xs, ts, p) && i < |xs|
    ensures p + i < |ts| && ts[p + i] == xs[i]
  {
  }

  /** An element is written starting with a token that can start one. */
  lemma TokensStart(e: Element)
    ensures |Tokens(e)| > 0
    ensures !Tokens(e)[0].Comma? && !Tokens(e)[0].RightBracket? && !Tokens(e)[0].RightBrace?
  {
  }

  lemma {:induction false} ElementRoundTrip(e: Element, ts: seq<Token>, p: nat)
    requires Occurs(Tokens(e), ts, p)
    ensures ElementAt(ts, p) == Ok(Parsed(e, p + |Tokens(e)|))
    decreases |Tokens(e)|, 0
  {
    match e
    case Object(ms) =>
      assert Tokens(e) == [LeftBrace] + (MembersTokens(ms) + [RightBrace]);
      OccursSplit([LeftBrace], MembersTokens(ms) + [RightBrace], ts, p);
      OccursIndex([LeftBrace], ts, p, 0);
      ObjectRoundTrip(ms, ts, p + 1);
    case Array(es) =>
      assert Tokens(e) == [LeftBracket] + (ElementsTokens(es) + [RightBracket]);
      OccursSplit([LeftBracket], ElementsTokens(es) + [RightBracket], ts, p);
      OccursIndex([LeftBracket], ts, p, 0);
      ArrayRoundTrip(es, ts, p + 1);
    case _ =>
      OccursIndex(Tokens(e), ts, p, 0);
  }

  lemma {:induction false} ObjectRoundTrip(ms: seq<Member>, ts: seq<Token>, p: nat)
    requires Occurs(MembersTokens(ms) + [RightBrace], ts, p)
    ensures ObjectAt(ts, p) == Ok(Parsed(Object(ms), p + |MembersTokens(ms)| + 1))
    decreases |MembersTokens(ms)|, 3
  {
    MembersRoundTrip(ms, ts, p);
    OccursSplit(MembersTokens(ms), [RightBrace], ts, p);
    OccursIndex([RightBrace], ts, p + |MembersTokens(ms)|, 0);
  }

  lemma {:induction false} ArrayRoundTrip(es: seq<Element>, ts: seq<Token>, p: nat)
    requires Occurs(ElementsTokens(es) + [RightBracket], ts, p)
    ensures ArrayAt(ts, p) == Ok(Parsed(Array(es), p + |ElementsTokens(es)| + 1))
    decreases |ElementsTokens(es)|, 3
  {
    ElementsRoundTrip(es, ts, p);
    OccursSplit(ElementsTokens(es), [RightBracket], ts, p);
    OccursIndex([RightBracket], ts, p + |ElementsTokens(es)|, 0);
  }

  lemma {:induction false} MemberRoundTrip(m: Member, ts: seq<Token>, p: nat)
    requires Occurs(MemberTokens(m), ts, p)
    ensures MemberAt(ts, p) == Ok(Parsed(m, p + |MemberTokens(m)|))
    decreases |MemberTokens(m)|, 0
  {
    OccursSplit([Token.String(m.key), Colon], Tokens(m.value), ts, p);
    OccursIndex([Token.String(m.key), Colon], ts, p, 0);
    OccursIndex([Token.String(m.key), Colon], ts, p, 1);
    ElementRoundTrip(m.value, ts, p + 2);
  }

  lemma {:induction false} MembersRoundTrip(ms: seq<Member>, ts: seq<Token>, p: nat)
    requires Occurs(MembersTokens(ms) + [RightBrace], ts, p)
    ensures MembersAt(ts, p) == Ok(Parsed(ms, p + |MembersTokens(ms)|))
    decreases |MembersTokens(ms)|, 2
  {
    var closer := [RightBrace];
    if ms == [] {
      assert MembersTokens(ms) + closer == closer;
      OccursIndex(closer, ts, p, 0);
    } else if |ms| == 1 {
      var first := MemberTokens(ms[0]);
      var n := |first|;
      OccursSplit(first, closer, ts, p);
      OccursIndex(first, ts, p, 0);
      MemberRoundTrip(ms[0], ts, p);
      OccursIndex(closer, ts, p + n, 0);
      assert MembersAt(ts, p + n) == Ok(Parsed([], p + n));
      MembersStep(ts, p, ms[0], p + n, [], p + n);
      assert [ms[0]] + [] == ms;
    } else {
      MembersRoundTripCons(ms, ts, p);
    }
  }

  /** Two non-empty runs joined by a comma, followed by a closer, as they
      stand in `ts` from `p` on. */
  lemma {:induction false} Joined(first: seq<Token>, tail: seq<Token>, closer: seq<Token>, ts: seq<Token>, p: nat)
    requires first != [] && tail != []
    requires Occurs(first + [Comma] + tail + closer, ts, p)
    ensures Occurs(first, ts, p) && ts[p] == first[0]
    ensures p + |first| + 1 < |ts| && ts[p + |first|] == Comma && ts[p + |first| + 1] == tail[0]
    ensures Occurs(tail + closer, ts, p + |first| + 1)
  {
    assert first + [Comma] + tail + closer == first + ([Comma] + (tail + closer));
    OccursSplit(first, [Comma] + (tail + closer), ts, p);
    OccursSplit([Comma], tail + closer, ts, p + |first|);
    OccursIndex(first, ts, p, 0);
    OccursIndex([Comma], ts, p + |first|, 0);
    OccursIndex(tail + closer, ts, p + |first| + 1, 0);
  }

  /** The tokens of a non-empty series of members start with the key of the first. */
  lemma MembersStart(ms: seq<Member>)
    requires ms != []
    ensures MembersTokens(ms) != [] && MembersTokens(ms)[0] == Token.String(ms[0].key)
  {
  }

  /** The tokens of a non-empty series of elements start as the first element's. */
  lemma ElementsStart(es: seq<Element>)
    requires es != []
    ensures ElementsTokens(es) != [] && ElementsTokens(es)[0] == Tokens(es[0])[0]
    ensures !ElementsTokens(es)[0].Comma? && !ElementsTokens(es)[0].RightBracket?
  {
    TokensStart(es[0]);
  }

  /** How the tokens of two members or more lie: the first member, a
      comma, and the tokens of the others with the closer. */
  lemma {:induction false} MembersConsLayout(ms: seq<Member>, ts: seq<Token>, p: nat)
    requires |ms| >= 2
    requires Occurs(MembersTokens(ms) + [RightBrace], ts, p)
    ensures var n := |MemberTokens(ms[0])|;
      Occurs(MemberTokens(ms[0]), ts, p) && ts[p].String? &&
      p + n + 1 < |ts| && ts[p + n].Comma? && ts[p + n + 1].String? &&
      Occurs(MembersTokens(ms[1..]) + [RightBrace], ts, p + n + 1) &&
      |MembersTokens(ms)| == n + 1 + |MembersTokens(ms[1..])|
  {
    MembersStart(ms[1..]);
    Joined(MemberTokens(ms[0]), MembersTokens(ms[1..]), [RightBrace], ts, p);
  }

  /** The case of two members or more, where a comma separates them. */
  lemma {:induction false} MembersRoundTripCons(ms: seq<Member>, ts: seq<Token>, p: nat)
    requires |ms| >= 2
    requires Occurs(MembersTokens(ms) + [RightBrace], ts, p)
    ensures MembersAt(ts, p) == Ok(Parsed(ms, p + |MembersTokens(ms)|))
    decreases |MembersTokens(ms)|, 1
  {
    var n := |MemberTokens(ms[0])|;
    MembersConsLayout(ms, ts, p);
    MemberRoundTrip(ms[0], ts, p);
    MembersRoundTrip(ms[1..], ts, p + n + 1);
    MembersCommaOptional(ts, p + n);
    MembersStep(ts, p, ms[0], p + n, ms[1..], p + |MembersTokens(ms)|);
    assert [ms[0]] + ms[1..] == ms;
  }

  lemma {:induction false} ElementsRoundTrip(es: seq<Element>, ts: seq<Token>, p: nat)
    requires Occurs(ElementsTokens(es) + [RightBracket], ts, p)
    ensures ElementsAt(ts, p) == Ok(Parsed(es, p + |ElementsTokens(es)|))
    decreases |ElementsTokens(es)|, 2
  {
    var closer := [RightBracket];
    if es == [] {
      assert ElementsTokens(es) + closer == closer;
      OccursIndex(closer, ts, p, 0);
    } else if |es| == 1 {
      var first := Tokens(es[0]);
      var n := |first|;
      TokensStart(es[0]);
      OccursSplit(first, closer, ts, p);
      OccursIndex(first, ts, p, 0);
      ElementRoundTrip(es[0], ts, p);
      OccursIndex(closer, ts, p + n, 0);
      assert ElementsAt(ts, p + n) == Ok(Parsed([], p + n));
      ElementsStep(ts, p, es[0], p + n, [], p + n);
      assert [es[0]] + [] == es;
    } else {
      ElementsRoundTripCons(es, ts, p);
    }
  }

  /** How the tokens of two elements or more lie: the first element, a
      comma, and the tokens of the others with the closer. */
  lemma {:induction false} ElementsConsLayout(es: seq<Element>, ts: seq<Token>, p: nat)
    requires |es| >= 2
    requires Occurs(ElementsTokens(es) + [RightBracket], ts, p)
    ensures var n := |Tokens(es[0])|;
      Occurs(Tokens(es[0]), ts, p) && !ts[p].Comma? && !ts[p].RightBracket? &&
      p + n + 1 < |ts| && ts[p + n].Comma? && !ts[p + n + 1].Comma? &&
      Occurs(ElementsTokens(es[1..]) + [RightBracket], ts, p + n + 1) &&
      |ElementsTokens(es)| == n + 1 + |ElementsTokens(es[1..])|
  {
    TokensStart(es[0]);
    ElementsStart(es[1..]);
    Joined(Tokens(es[0]), ElementsTokens(es[1..]), [RightBracket], ts, p);
  }

  /** The case of two elements or more, where a comma separates them. */
  lemma {:induction false} ElementsRoundTripCons(es: seq<Element>, ts: seq<Token>, p: nat)
    requires |es| >= 2
    requires Occurs(ElementsTokens(es) + [RightBracket], ts, p)
    ensures ElementsAt(ts, p) == Ok(Parsed(es, p + |ElementsTokens(es)|))
    decreases |ElementsTokens(es)|, 1
  {
    var n := |Tokens(es[0])|;
    ElementsConsLayout(es, ts, p);
    ElementRoundTrip(es[0], ts, p);
    ElementsRoundTrip(es[1..], ts, p + n + 1);
    ElementsCommaOptional(ts, p + n);
    ElementsStep(ts, p, es[0], p + n, es[1..], p + |ElementsTokens(es)|);
    assert [es[0]] + es[1..] == es;
  }

  /** Every tree is read back from its own tokens, whatever follows them:
      nesting, kinds of leaves, the order of members and elements and
      duplicate keys are all kept. */
  lemma RootRoundTrip(e: Element, rest: seq<Token>)
    ensures RootAt(Tokens(e) + rest, 0) == Ok(e)
  {
    var ts := Tokens(e) + rest;
    forall i | 0 <= i < |Tokens(e)| ensures ts[0 + i] == Tokens(e)[i] {
    }
    ElementRoundTrip(e, ts, 0);
  }
}
