/**
 * The token-cursor parser of archive/tokenizer.py.  `Parser` keeps the
 * token list and a cursor `pos`; `peek`, `advance` and `match` read and move
 * the cursor, and `parse` dispatches, at each position, in a fixed order:
 * member assignment, member access (a following `"` turns it into a print),
 * declaration, assignment, and otherwise skips the token.
 *
 * Each parsing method is specified by a function of the token list and the
 * cursor (`MemberAssignmentAt`, `DeclarationAt`, ..., `Step`, `ParseFrom`);
 * the lemmas at the end are about those functions.
 */
module TokenizerParser {
  import opened Wrappers
  import opened TokenizerLexer
  import opened PyText

  /** The node classes.  The parser builds only the first five; the last
      four are declared but never built, and their list-valued attributes
      are kept as the text `str` gives them. */
  datatype Node =
    | Assignment(target: string, value: string)
    | Declaration(dtype: string, name: string)
    | Print(name: string)
    | MemberAccess(objectName: string, fieldName: string)
    | MemberAssignment(objectName: string, fieldName: string, value: string)
    | StructInstance(structType: string, name: string, fields: string)
    | Struct(name: string, fields: string)
    | SetFunction(name: string, params: string, body: string)
    | SetGroup(groupName: string, types: string, functions: string)

  /** The node classes `emit_node` has a branch for. */
  predicate Handled(n: Node) {
    n.Assignment? || n.Declaration? || n.Print? || n.MemberAccess? || n.MemberAssignment?
  }

  /** The name each node class's `__repr__` opens with. */
  function ClassName(n: Node): (r: string)
    ensures '(' !in r
  {
    match n
    case Assignment(_, _) => "Assignment"
    case Declaration(_, _) => "Declaration"
    case Print(_) => "Print"
    case MemberAccess(_, _) => "MemberAccess"
    case MemberAssignment(_, _, _) => "MemberAssignment"
    case StructInstance(_, _, _) => "StructInstance"
    case Struct(_, _) => "Struct"
    case SetFunction(_, _, _) => "SetFunction"
    case SetGroup(_, _, _) => "SetGroup"
  }

  /** `__repr__` of each node class: the class name, `(`, and the fields. */
  function NodeRepr(n: Node): (r: string)
    ensures |ClassName(n)| < |r| && r[..|ClassName(n)| + 1] == ClassName(n) + "("
  {
    assert (ClassName(n) + "(" + ReprTail(n))[..|ClassName(n)| + 1] == ClassName(n) + "(";
    ClassName(n) + "(" + ReprTail(n)
  }

  /** What each `__repr__` writes after the class name and its `(`. */
  function ReprTail(n: Node): string {
    match n
    case Assignment(target, value) => target + " = " + value + ")"
    case Declaration(dtype, name) => dtype + ", " + name + ")"
    case Print(name) => name + ")"
    case MemberAccess(obj, field) => obj + "." + field + ")"
    case MemberAssignment(obj, field, value) => obj + "." + field + " = " + value + ")"
    case StructInstance(structType, name, fields) => structType + " " + name + "(" + fields + "))"
    case Struct(name, fields) => name + ") { " + fields + " }"
    case SetFunction(name, _, _) => name + ")"
    case SetGroup(groupName, _, _) => groupName + ")"
  }

  /** The text before the first `(` of a node's repr is its class name, so
      two nodes with the same repr are of the same class. */
  lemma ReprNamesClass(n: Node, m: Node)
    ensures '(' in NodeRepr(n) && NodeRepr(n)[..IndexOf(NodeRepr(n), '(')] == ClassName(n)
    ensures NodeRepr(n) == NodeRepr(m) ==> ClassName(n) == ClassName(m)
  {
    ReprPrefix(n);
    ReprPrefix(m);
  }

  lemma ReprPrefix(n: Node)
    ensures '(' in NodeRepr(n) && NodeRepr(n)[..IndexOf(NodeRepr(n), '(')] == ClassName(n)
  {
    var r, c := NodeRepr(n), ClassName(n);
    assert r == c + ['('] + ReprTail(n);
    IndexOfFirst(c, ReprTail(n), '(');
    assert r[..|c|] == c;
  }

  /** `None.value` or `None.type`: the parser read past the last token. */
  datatype ParseError = AttributeError

  // ---------------------------------------------------------------------
  // The parse as functions of the tokens and the cursor

  /** `match(type_, value)` succeeds at `p`. */
  predicate MatchesAt(toks: seq<Token>, p: nat, kind: Kind, value: Option<string>) {
    p < |toks| && toks[p].kind == kind && (value.None? || toks[p].value == value.value)
  }

  /** The cursor after `match(type_, value)` at `p`. */
  function After(toks: seq<Token>, p: nat, kind: Kind, value: Option<string>): nat {
    if MatchesAt(toks, p, kind, value) then p + 1 else p
  }

  /** `is_member_access()` at `p`: IDENT `.` IDENT, all three present. */
  predicate IsMemberAccessAt(toks: seq<Token>, p: nat) {
    p + 2 < |toks| && toks[p].kind == IDENT && toks[p + 1].kind == GLYPH && toks[p + 1].value == "."
    && toks[p + 2].kind == IDENT
  }

  /** `is_member_assignment()` at `p`: IDENT `.` IDENT ASSIGN followed by
      at least one more token. */
  predicate IsMemberAssignmentAt(toks: seq<Token>, p: nat) {
    p + 4 < |toks| && toks[p].kind == IDENT && toks[p + 1].kind == GLYPH && toks[p + 1].value == "."
    && toks[p + 2].kind == IDENT && toks[p + 3].kind == ASSIGN
  }

  /** `parse_member_access()` at `p`: the node and the cursor after it. */
  function MemberAccessAt(toks: seq<Token>, p: nat): (r: (Node, nat))
    requires IsMemberAccessAt(toks, p)
    ensures r.0.MemberAccess? && r.1 == p + 3
  {
    (MemberAccess(toks[p].value, toks[p + 2].value), p + 3)
  }

  /** `parse_member_assignment()` at `p`; an END after the value is taken. */
  function MemberAssignmentAt(toks: seq<Token>, p: nat): (r: (Node, nat))
    requires IsMemberAssignmentAt(toks, p)
    ensures r.0.MemberAssignment? && p + 5 <= r.1 <= p + 6 && r.1 <= |toks|
  {
    (MemberAssignment(toks[p].value, toks[p + 2].value, toks[p + 4].value), After(toks, p + 5, END, None))
  }

  /** `parse_declaration()` at a TYPE token: an optional `'` after the type,
      then the name, then an optional END.  Running out of tokens before the
      name raises. */
  function DeclarationAt(toks: seq<Token>, p: nat): (r: Result<(Node, nat), ParseError>)
    requires p < |toks|
    ensures r.Ok? ==> r.value.0.Declaration? && r.value.0.dtype == toks[p].value && p + 2 <= r.value.1 <= |toks|
  {
    if p + 1 >= |toks| then Err(AttributeError)
    else
      var q := if toks[p + 1].kind == GLYPH && toks[p + 1].value == "'" then p + 2 else p + 1;
      if q >= |toks| then Err(AttributeError)
      else Ok((Declaration(toks[p].value, toks[q].value), After(toks, q + 1, END, None)))
  }

  /** `parse_assignment()` at IDENT GLYPH: the target is the identifier with
      the glyph appended, then an optional ASSIGN, the value, an optional END. */
  function AssignmentAt(toks: seq<Token>, p: nat): (r: Result<(Node, nat), ParseError>)
    requires p + 1 < |toks|
    ensures r.Ok? ==> r.value.0.Assignment? && r.value.0.target == toks[p].value + toks[p + 1].value
    ensures r.Ok? ==> p + 3 <= r.value.1 <= |toks|
  {
    var q := After(toks, p + 2, ASSIGN, None);
    if q >= |toks| then Err(AttributeError)
    else Ok((Assignment(toks[p].value + toks[p + 1].value, toks[q].value), After(toks, q + 1, END, None)))
  }

  /** One turn of the `parse` loop at `p`: the node appended, if any, and
      the cursor after the turn. */
  function Step(toks: seq<Token>, p: nat): (r: Result<(Option<Node>, nat), ParseError>)
    requires p < |toks|
    ensures r.Ok? ==> p < r.value.1 <= |toks|
    ensures r.Ok? && r.value.0.Some? ==> Handled(r.value.0.value)
  {
    if IsMemberAssignmentAt(toks, p) then
      var (n, q) := MemberAssignmentAt(toks, p);
      Ok((Some(n), q))
    else if IsMemberAccessAt(toks, p) then
      var (n, q) := MemberAccessAt(toks, p);
      if q < |toks| && toks[q].value == "\"" then Ok((Some(Print(n.objectName + "." + n.fieldName)), q + 1))
      else Ok((Some(n), q))
    else if toks[p].kind == TYPE then
      match DeclarationAt(toks, p)
      case Err(e) => Err(e)
      case Ok((n, q)) => Ok((Some(n), q))
    else if toks[p].kind == IDENT && p + 1 < |toks| && toks[p + 1].kind == GLYPH then
      match AssignmentAt(toks, p)
      case Err(e) => Err(e)
      case Ok((n, q)) => Ok((Some(n), q))
    else Ok((None, p + 1))
  }

  function Nodes(n: Option<Node>): seq<Node> {
    if n.Some? then [n.value] else []
  }

  /** The nodes `parse()` returns from the cursor `p` on. */
  function ParseFrom(toks: seq<Token>, p: nat): Result<seq<Node>, ParseError>
    decreases |toks| - p
  {
    if p >= |toks| then Ok([])
    else
      match Step(toks, p)
      case Err(e) => Err(e)
      case Ok((n, q)) =>
        match ParseFrom(toks, q)
        case Err(e) => Err(e)
        case Ok(rest) => Ok(Nodes(n) + rest)
  }

  /** `nodes` followed by the outcome of the rest of the parse. */
  function Prepend(nodes: seq<Node>, r: Result<seq<Node>, ParseError>): Result<seq<Node>, ParseError> {
    match r
    case Err(e) => Err(e)
    case Ok(rest) => Ok(nodes + rest)
  }

  // ---------------------------------------------------------------------
  // The parser object

  class Parser {
    const tokens: seq<Token>
    var pos: nat

    constructor (tokens: seq<Token>)
      ensures this.tokens == tokens && pos == 0
    {
      this.tokens := tokens;
      pos := 0;
    }

    /** `peek()` */
    function Peek(): (r: Option<Token>)
      reads this
      ensures r.Some? <==> pos < |tokens|
      ensures r.Some? ==> r.value == tokens[pos]
    {
      if pos < |tokens| then Some(tokens[pos]) else None
    }

    /** `advance()`: the token under the cursor, if any; the cursor moves on
        in any case. */
    method Advance() returns (tok: Option<Token>)
      modifies this
      ensures tok == old(Peek()) && pos == old(pos) + 1
    {
      tok := Peek();
      pos := pos + 1;
    }

    /** `match(type_, value)`: advances only over a token of that type (and
        value, when one is given). */
    method Match(kind: Kind, value: Option<string>) returns (tok: Option<Token>)
      modifies this
      ensures pos == After(tokens, old(pos), kind, value)
      ensures tok == if MatchesAt(tokens, old(pos), kind, value) then Some(tokens[old(pos)]) else None
    {
      tok := Peek();
      if tok.Some? && tok.value.kind == kind && (value.None? || tok.value.value == value.value) {
        tok := Advance();
      } else {
        tok := None;
      }
    }

    predicate IsMemberAccess()
      reads this
    {
      IsMemberAccessAt(tokens, pos)
    }

    predicate IsMemberAssignment()
      reads this
    {
      IsMemberAssignmentAt(tokens, pos)
    }

    method ParseMemberAccess() returns (node: Node)
      requires IsMemberAccess()
      modifies this
      ensures (node, pos) == MemberAccessAt(tokens, old(pos))
    {
      var obj := Advance();
      var dot := Match(GLYPH, Some("."));
      var field := Advance();
      node := MemberAccess(obj.value.value, field.value.value);
    }

    method ParseMemberAssignment() returns (node: Node)
      requires IsMemberAssignment()
      modifies this
      ensures (node, pos) == MemberAssignmentAt(tokens, old(pos))
    {
      var obj := Advance();
      var dot := Match(GLYPH, Some("."));
      var field := Advance();
      var assign := Match(ASSIGN, None);
      var value := Advance();
      var end := Match(END, None);
      node := MemberAssignment(obj.value.value, field.value.value, value.value.value);
    }

    method ParseAssignment() returns (r: Result<Node, ParseError>)
      requires pos + 1 < |tokens|
      modifies this
      ensures var spec := AssignmentAt(tokens, old(pos));
        (r.Err? ==> spec == Err(r.error)) && (r.Ok? ==> spec == Ok((r.value, pos)))
    {
      var target := Advance();
      var glyph := Advance();
      var t := target.value.value + glyph.value.value;
      var assign := Match(ASSIGN, None);
      var value := Advance();
      if value.None? {
        return Err(AttributeError);
      }
      var end := Match(END, None);
      r := Ok(Assignment(t, value.value.value));
    }

    method ParseDeclaration() returns (r: Result<Node, ParseError>)
      requires pos < |tokens|
      modifies this
      ensures var spec := DeclarationAt(tokens, old(pos));
        (r.Err? ==> spec == Err(r.error)) && (r.Ok? ==> spec == Ok((r.value, pos)))
    {
      var dtype := Advance();
      var next := Peek();
      if next.None? {
        return Err(AttributeError);
      }
      if next.value.kind == GLYPH && next.value.value == "'" {
        var quote := Advance();
      }
      var name := Advance();
      if name.None? {
        return Err(AttributeError);
      }
      var end := Match(END, None);
      r := Ok(Declaration(dtype.value.value, name.value.value));
    }

    /** One turn of the `parse` loop: the dispatch on the tokens under the
        cursor, and the node it appends, if any. */
    method ParseStep() returns (r: Result<Option<Node>, ParseError>)
      requires pos < |tokens|
      modifies this
      ensures r.Err? ==> Step(tokens, old(pos)) == Err(r.error)
      ensures r.Ok? ==> Step(tokens, old(pos)) == Ok((r.value, pos))
    {
      var tok := Peek().value;
      if IsMemberAssignment() {
        var n := ParseMemberAssignment();
        r := Ok(Some(n));
      } else if IsMemberAccess() {
        var access := ParseMemberAccess();
        var next := Peek();
        if next.Some? && next.value.value == "\"" {
          var quote := Advance();
          r := Ok(Some(Print(access.objectName + "." + access.fieldName)));
        } else {
          r := Ok(Some(access));
        }
      } else if tok.kind == TYPE {
        var d := ParseDeclaration();
        r := if d.Err? then Err(d.error) else Ok(Some(d.value));
      } else if tok.kind == IDENT && pos + 1 < |tokens| && tokens[pos + 1].kind == GLYPH {
        var a := ParseAssignment();
        r := if a.Err? then Err(a.error) else Ok(Some(a.value));
      } else {
        var skipped := Advance();
        r := Ok(None);
      }
    }

    /** `parse()`: the loop runs while a token is under the cursor. */
    method Parse() returns (r: Result<seq<Node>, ParseError>)
      modifies this
      ensures r == ParseFrom(tokens, old(pos))
    {
      var nodes: seq<Node> := [];
      assert Prepend([], ParseFrom(tokens, pos)) == ParseFrom(tokens, pos) by {
        if ParseFrom(tokens, pos).Ok? {
          assert [] + ParseFrom(tokens, pos).value == ParseFrom(tokens, pos).value;
        }
      }
      while Peek().Some?
        invariant ParseFrom(tokens, old(pos)) == Prepend(nodes, ParseFrom(tokens, pos))
        decreases |tokens| - pos
      {
        ghost var p := pos;
        var step := ParseStep();
        if step.Err? {
          return Err(step.error);
        }
        PrependStep(tokens, p, nodes, step.value, pos);
        nodes := nodes + Nodes(step.value);
      }
      r := Ok(nodes);
      assert nodes + [] == nodes;
    }
  }

  /** One turn of the loop, accounted for in the nodes collected so far. */
  lemma PrependStep(toks: seq<Token>, p: nat, nodes: seq<Node>, n: Option<Node>, q: nat)
    requires p < |toks| && Step(toks, p) == Ok((n, q))
    ensures Prepend(nodes, ParseFrom(toks, p)) == Prepend(nodes + Nodes(n), ParseFrom(toks, q))
  {
    if ParseFrom(toks, q).Ok? {
      assert nodes + (Nodes(n) + ParseFrom(toks, q).value) == nodes + Nodes(n) + ParseFrom(toks, q).value;
    }
  }

  /** Unfolding `ParseFrom` by one turn of the loop. */
  lemma ParseFromStep(toks: seq<Token>, p: nat, n: Option<Node>, q: nat, rest: seq<Node>)
    requires p < |toks| && Step(toks, p) == Ok((n, q)) && ParseFrom(toks, q) == Ok(rest)
    ensures ParseFrom(toks, p) == Ok(Nodes(n) + rest)
  {
  }

  // ---------------------------------------------------------------------
  // Properties of the parse

  /** Every node consumes at least one token, so a parse from `p` yields at
      most as many nodes as there are tokens left. */
  lemma {:induction false} ParseFromBounded(toks: seq<Token>, p: nat)
    requires p <= |toks|
    ensures ParseFrom(toks, p).Ok? ==> |ParseFrom(toks, p).value| <= |toks| - p
    decreases |toks| - p
  {
    if p < |toks| && Step(toks, p).Ok? {
      var q := Step(toks, p).value.1;
      ParseFromBounded(toks, q);
    }
  }

  /** The parser builds only nodes `emit_node` handles: the struct, set
      and set-group classes never come out of a parse. */
  lemma {:induction false} ParsedNodesHandled(toks: seq<Token>, p: nat)
    requires p <= |toks|
    ensures ParseFrom(toks, p).Ok? ==> forall k :: 0 <= k < |ParseFrom(toks, p).value| ==> Handled(ParseFrom(toks, p).value[k])
    decreases |toks| - p
  {
    if p < |toks| && Step(toks, p).Ok? {
      var (n, q) := Step(toks, p).value;
      ParsedNodesHandled(toks, q);
      if ParseFrom(toks, q).Ok? {
        var rest := ParseFrom(toks, q).value;
        assert ParseFrom(toks, p).value == Nodes(n) + rest;
        assert forall k :: 0 <= k < |rest| ==> (Nodes(n) + rest)[|Nodes(n)| + k] == rest[k];
      }
    }
  }

  /** Tokens that are neither TYPE nor IDENT are skipped without a node. */
  lemma UnrecognisedIsSkipped(toks: seq<Token>, p: nat)
    requires p < |toks| && toks[p].kind != TYPE && toks[p].kind != IDENT
    ensures Step(toks, p) == Ok((None, p + 1))
  {
  }

  /** A list without TYPE and IDENT tokens parses to no nodes at all. */
  lemma {:induction false} NothingToParse(toks: seq<Token>, p: nat)
    requires forall k :: p <= k < |toks| ==> toks[k].kind != TYPE && toks[k].kind != IDENT
    ensures ParseFrom(toks, p) == Ok([])
    decreases |toks| - p
  {
    if p < |toks| {
      UnrecognisedIsSkipped(toks, p);
      NothingToParse(toks, p + 1);
      ParseFromStep(toks, p, None, p + 1, []);
      assert Nodes(None) + [] == [];
    }
  }

  /** A TYPE as the very last token raises: `peek()` is `None`. */
  lemma TrailingTypeRaises(toks: seq<Token>)
    requires |toks| > 0 && toks[|toks| - 1].kind == TYPE
    ensures Step(toks, |toks| - 1) == Err(AttributeError)
  {
  }

  /** A member assignment is recognised before a member access, and it
      needs a token after the ASSIGN: `a.b=` at the end of the list is a
      member access, and the ASSIGN after it is skipped. */
  lemma MemberAssignmentNeedsValue(a: string, b: string)
    ensures var toks := [Token(IDENT, a), Token(GLYPH, "."), Token(IDENT, b), Token(ASSIGN, "=")];
      ParseFrom(toks, 0) == Ok([MemberAccess(a, b)])
  {
    var toks := [Token(IDENT, a), Token(GLYPH, "."), Token(IDENT, b), Token(ASSIGN, "=")];
    assert ParseFrom(toks, 4) == Ok([]);
    assert Step(toks, 3) == Ok((None, 4));
    ParseFromStep(toks, 3, None, 4, []);
    assert Nodes(None) + [] == [];
    assert Step(toks, 0) == Ok((Some(MemberAccess(a, b)), 3));
    ParseFromStep(toks, 0, Some(MemberAccess(a, b)), 3, []);
    assert Nodes(Some(MemberAccess(a, b))) + [] == [MemberAccess(a, b)];
  }

  /** With a value, the same tokens are a member assignment. */
  lemma MemberAssignmentFirst(a: string, b: string, v: string)
    ensures var toks := [Token(IDENT, a), Token(GLYPH, "."), Token(IDENT, b), Token(ASSIGN, "="), Token(NUMBER, v), Token(END, ";")];
      ParseFrom(toks, 0) == Ok([MemberAssignment(a, b, v)])
  {
    var toks := [Token(IDENT, a), Token(GLYPH, "."), Token(IDENT, b), Token(ASSIGN, "="), Token(NUMBER, v), Token(END, ";")];
    assert ParseFrom(toks, 6) == Ok([]);
    assert Step(toks, 0) == Ok((Some(MemberAssignment(a, b, v)), 6));
    ParseFromStep(toks, 0, Some(MemberAssignment(a, b, v)), 6, []);
    assert Nodes(Some(MemberAssignment(a, b, v))) + [] == [MemberAssignment(a, b, v)];
  }

  /** A member access followed by a `"` glyph is a print of `obj.field`,
      and the glyph is consumed. */
  lemma MemberAccessThenQuoteIsPrint(a: string, b: string)
    ensures var toks := [Token(IDENT, a), Token(GLYPH, "."), Token(IDENT, b), Token(GLYPH, "\"")];
      ParseFrom(toks, 0) == Ok([Print(a + "." + b)])
  {
    var toks := [Token(IDENT, a), Token(GLYPH, "."), Token(IDENT, b), Token(GLYPH, "\"")];
    assert ParseFrom(toks, 4) == Ok([]);
    assert Step(toks, 0) == Ok((Some(Print(a + "." + b)), 4));
    ParseFromStep(toks, 0, Some(Print(a + "." + b)), 4, []);
    assert Nodes(Some(Print(a + "." + b))) + [] == [Print(a + "." + b)];
  }

  /** `i_ 'x;` declares `x`: the `'` after the type is skipped and the END
      is taken. */
  lemma DeclarationSkipsQuote(t: string, x: string)
    ensures var toks := [Token(TYPE, t), Token(GLYPH, "'"), Token(IDENT, x), Token(END, ";")];
      ParseFrom(toks, 0) == Ok([Declaration(t, x)])
  {
    var toks := [Token(TYPE, t), Token(GLYPH, "'"), Token(IDENT, x), Token(END, ";")];
    assert ParseFrom(toks, 4) == Ok([]);
    assert Step(toks, 0) == Ok((Some(Declaration(t, x)), 4));
    ParseFromStep(toks, 0, Some(Declaration(t, x)), 4, []);
    assert Nodes(Some(Declaration(t, x))) + [] == [Declaration(t, x)];
  }

  /** `x" = 5;` is an assignment whose target carries the glyph. */
  lemma AssignmentKeepsGlyph(x: string, v: string)
    ensures var toks := [Token(IDENT, x), Token(GLYPH, "\""), Token(ASSIGN, "="), Token(NUMBER, v), Token(END, ";")];
      ParseFrom(toks, 0) == Ok([Assignment(x + "\"", v)])
  {
    var toks := [Token(IDENT, x), Token(GLYPH, "\""), Token(ASSIGN, "="), Token(NUMBER, v), Token(END, ";")];
    assert ParseFrom(toks, 5) == Ok([]);
    assert Step(toks, 0) == Ok((Some(Assignment(x + "\"", v)), 5));
    ParseFromStep(toks, 0, Some(Assignment(x + "\"", v)), 5, []);
    assert Nodes(Some(Assignment(x + "\"", v))) + [] == [Assignment(x + "\"", v)];
  }
}
