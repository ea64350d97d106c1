/**
 * The C++ emitter of archive/tokenizer.py: each node becomes one line,
 * `emit_expr` turns a node into an expression by dropping the line's
 * trailing semicolons, and `emit_cpp` puts a fixed four-line header in
 * front of the nodes' lines.
 */
module TokenizerEmit {
  import opened PyText
  import opened TokenizerLexer
  import opened TokenizerParser

  /** The type names `dot_type_to_cpp` knows. */
  const TypeTable: map<string, string> := map[
    "i_" := "int", "f_" := "float", "d_" := "double", "s_" := "string",
    "c_" := "char", "sh_" := "short", "l_" := "long", "ll_" := "long long"]

  /** `dot_type_to_cpp(dtype)`: the C++ name of a known type; any other
      name is kept as it is. */
  function DotTypeToCpp(dtype: string): (r: string)
    ensures r !in TypeTable
  {
    if dtype in TypeTable then TypeTable[dtype] else dtype
  }

  /** Translating a type name twice is translating it once. */
  lemma DotTypeIdempotent(dtype: string)
    ensures DotTypeToCpp(DotTypeToCpp(dtype)) == DotTypeToCpp(dtype)
  {
  }

  /** Distinct known type names give distinct C++ names, so a known name can
      be read back from its translation. */
  lemma DotTypeTableOneToOne(a: string, b: string)
    requires a in TypeTable && b in TypeTable && a != b
    ensures DotTypeToCpp(a) != DotTypeToCpp(b)
  {
  }

  /** `s[:-1]` */
  function DropLast(s: string): (r: string)
    ensures |s| > 0 ==> s == r + [s[|s| - 1]]
    ensures |s| == 0 ==> r == []
  {
    if s == [] then [] else s[..|s| - 1]
  }

  /** What `emit_node` writes for a node it has no branch for. */
  const Unhandled: string := "// [UNHANDLED] "

  /** `emit_node(node)`: the assignment target loses its last character (the
      glyph the parser appended), a member access has no semicolon, and any
      other node becomes a comment naming it. */
  function EmitNode(n: Node): (r: seq<string>)
    ensures |r| == 1
    ensures !Handled(n) ==> |r[0]| > |Unhandled| && r[0][..|Unhandled|] == Unhandled && r[0][|Unhandled|..] == NodeRepr(n)
  {
    match n
    case Assignment(target, value) => [DropLast(target) + " = " + value + ";"]
    case Declaration(dtype, name) => [DotTypeToCpp(dtype) + " " + name + ";"]
    case MemberAccess(obj, field) => [obj + "." + field]
    case MemberAssignment(obj, field, value) => [obj + "." + field + " = " + value + ";"]
    case Print(name) => ["cout << " + name + " << endl;"]
    case _ => [Unhandled + NodeRepr(n)]
  }

  /** What `emit_expr` is given: a node or any other value, by its `str`. */
  datatype ExprValue = OfNode(node: Node) | Plain(text: string)

  /** `emit_expr(value)`: a node's line without its trailing semicolons. */
  function EmitExpr(v: ExprValue): (r: string)
    ensures v.OfNode? ==>
      var line := EmitNode(v.node)[0];
      && |r| <= |line| && r == line[..|r|]
      && (forall k :: |r| <= k < |line| ==> line[k] == ';')
      && (r == [] || r[|r| - 1] != ';')
    ensures v.Plain? ==> r == v.text
  {
    match v
    case OfNode(n) => RStripChar(EmitNode(n)[0], ';')
    case Plain(text) => text
  }

  /** The header `emit_cpp` starts with. */
  const Header: seq<string> := ["#include <iostream>", "#include <string>", "using namespace std;", ""]

  /** The lines of all nodes, in order. */
  function AllLines(nodes: seq<Node>): seq<string> {
    if nodes == [] then [] else AllLines(nodes[..|nodes| - 1]) + EmitNode(nodes[|nodes| - 1])
  }

  /** `emit_cpp(nodes)` */
  method EmitCpp(nodes: seq<Node>) returns (text: string)
    ensures text == Join("\n", Header + AllLines(nodes))
  {
    var lines := Header;
    for j := 0 to |nodes|
      invariant lines == Header + AllLines(nodes[..j])
    {
      assert nodes[..j + 1][..j] == nodes[..j];
      lines := lines + EmitNode(nodes[j]);
    }
    assert nodes[..|nodes|] == nodes;
    text := Join("\n", lines);
  }

  // ---------------------------------------------------------------------
  // Properties of the emitted text

  /** Every node gives exactly one line, the `k`-th line being the `k`-th
      node's. */
  lemma {:induction false} OneLinePerNode(nodes: seq<Node>)
    ensures |AllLines(nodes)| == |nodes|
    ensures forall k :: 0 <= k < |nodes| ==> AllLines(nodes)[k] == EmitNode(nodes[k])[0]
  {
    if nodes != [] {
      var prev, last := nodes[..|nodes| - 1], EmitNode(nodes[|nodes| - 1]);
      OneLinePerNode(prev);
      assert AllLines(nodes) == AllLines(prev) + last && |last| == 1;
      assert forall k :: 0 <= k < |prev| ==> prev[k] == nodes[k];
    }
  }

  /** Every line `emit_cpp` writes for a parsed program comes from one of
      the five handled branches: none is an `[UNHANDLED]` comment. */
  lemma ParsedProgramHandled(toks: seq<Token>)
    requires ParseFrom(toks, 0).Ok?
    ensures var nodes := ParseFrom(toks, 0).value;
      |AllLines(nodes)| == |nodes| && forall k :: 0 <= k < |nodes| ==> Handled(nodes[k]) && AllLines(nodes)[k] == EmitNode(nodes[k])[0]
  {
    ParsedNodesHandled(toks, 0);
    OneLinePerNode(ParseFrom(toks, 0).value);
  }

  /** An unhandled node's line is a C++ line comment. */
  lemma UnhandledIsComment(n: Node)
    requires !Handled(n)
    ensures EmitNode(n)[0][..2] == "//"
  {
    assert EmitNode(n)[0][..2] == EmitNode(n)[0][..|Unhandled|][..2];
  }

  /** An assignment to `x` followed by a glyph is emitted as an assignment
      to `x` itself. */
  lemma AssignmentDropsGlyph(x: string, g: char, v: string)
    ensures EmitNode(Assignment(x + [g], v)) == [x + " = " + v + ";"]
  {
    assert DropLast(x + [g]) == x;
  }

  /** As an expression, an assignment whose value does not end in `;` is
      the line without its one semicolon. */
  lemma AssignmentExpression(t: string, v: string)
    requires v == [] || v[|v| - 1] != ';'
    ensures EmitExpr(OfNode(Assignment(t, v))) == DropLast(t) + " = " + v
  {
    var e := DropLast(t) + " = " + v;
    var line := e + ";";
    assert line[..|line| - 1] == e;
    assert e[|e| - 1] != ';';
  }

  /** A member access has no semicolon, so as an expression it is its line. */
  lemma MemberAccessExpression(obj: string, field: string)
    requires field != [] && field[|field| - 1] != ';'
    ensures EmitExpr(OfNode(MemberAccess(obj, field))) == obj + "." + field
  {
    var line := obj + "." + field;
    assert line[|line| - 1] == field[|field| - 1];
  }

  /** A program without nodes is the header alone: its empty fourth line
      leaves the text ending in a newline. */
  lemma EmptyProgram()
    ensures Join("\n", Header + AllLines([])) == "#include <iostream>" + "\n" + "#include <string>" + "\n" + "using namespace std;" + "\n"
  {
    assert Header + AllLines([]) == Header;
    JoinCons("\n", "#include <iostream>", ["#include <string>", "using namespace std;", ""]);
    JoinCons("\n", "#include <string>", ["using namespace std;", ""]);
    JoinCons("\n", "using namespace std;", [""]);
    assert "using namespace std;" + "\n" + "" == "using namespace std;" + "\n";
  }
}
