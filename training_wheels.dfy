/**
 * The line-by-line transpiler of 01_transpiler_training_wheels.py.
 * `transpile_dot_line` strips a line and tries a fixed list of patterns in
 * order, the first that matches deciding the output line.  Three globals
 * carry state from a struct header to the `}` that closes it: whether a
 * struct is open, its name, and its fields.
 *
 * Each pattern is a recogniser returning the groups of `re.match`; the
 * whole dispatch is the function `Transpile` of the struct state and the
 * line, and the `Transpiler` object, whose fields are the three globals, is
 * proved to follow it.
 */
module TrainingWheels {
  import opened Wrappers
  import opened PyText

  /** `dot_types` */
  const DotTypes: map<string, string> := map[
    "i" := "int", "f" := "float", "d" := "double", "s" := "std::string",
    "c" := "char", "l" := "long", "ll" := "long long", "sh" := "short"]

  /** `dot_types.get(dtype, 'int')` */
  function CType(dtype: string): (r: string)
    ensures dtype in DotTypes ==> r == DotTypes[dtype]
    ensures dtype !in DotTypes ==> r == "int"
  {
    if dtype in DotTypes then DotTypes[dtype] else "int"
  }

  // ---------------------------------------------------------------------
  // Release markers: `'name\`

  /** One group `'\w+\\\s*` at `i`: where it ends. */
  function MarkerEnd(s: string, i: nat): (r: Option<nat>)
    requires i <= |s|
    ensures r.Some? ==> i + 3 <= r.value <= |s|
  {
    if i < |s| && s[i] == '\'' then
      var w := Run(s, i + 1, IsWordChar);
      if w > 0 && i + 1 + w < |s| && s[i + 1 + w] == '\\' then Some(i + 2 + w + Run(s, i + 2 + w, IsSpace))
      else None
    else None
  }

  /** `(?:'\w+\\\s*)+$` from `i`: one or more release markers up to the end. */
  predicate MarkersToEnd(s: string, i: nat)
    requires i <= |s|
    decreases |s| - i
  {
    match MarkerEnd(s, i)
    case None => false
    case Some(j) => j == |s| || MarkersToEnd(s, j)
  }

  /** `}\s*((?:'\w+\\\s*)+)`: a brace followed by at least one marker. */
  predicate BraceWithMarkers(s: string) {
    s != [] && s[0] == '}' && MarkerEnd(s, 1 + Run(s, 1, IsSpace)).Some?
  }

  // ---------------------------------------------------------------------
  // Declarations: `([a-z]+)_(\d*)\s+'?(\w+);?`

  datatype Decl = Decl(dtype: string, size: string, name: string)

  /** Where the groups of a declaration lie: the type letters are `s[..l]`,
      the size `s[l + 1..l + 1 + d]`, the name `s[n0..n0 + w]`. */
  datatype DeclSpans = DeclSpans(l: nat, d: nat, n0: nat, w: nat)

  function DeclSpansOf(s: string): (r: Option<DeclSpans>)
    ensures r.Some? ==> 0 < r.value.l && r.value.l + 1 + r.value.d <= |s| && 0 < r.value.w && r.value.n0 + r.value.w <= |s|
  {
    var l := Run(s, 0, IsLower);
    if l == 0 || l >= |s| || s[l] != '_' then None
    else
      var d := Run(s, l + 1, IsDigit);
      var sp := Run(s, l + 1 + d, IsSpace);
      if sp == 0 then None
      else
        var q := l + 1 + d + sp;
        var n0 := if q < |s| && s[q] == '\'' then q + 1 else q;
        var w := Run(s, n0, IsWordChar);
        if w == 0 then None else Some(DeclSpans(l, d, n0, w))
  }

  function DeclMatch(s: string): (r: Option<Decl>)
    ensures r.Some? ==> r.value.dtype != [] && r.value.name != []
  {
    match DeclSpansOf(s)
    case None => None
    case Some(m) => Some(Decl(s[..m.l], s[m.l + 1..m.l + 1 + m.d], s[m.n0..m.n0 + m.w]))
  }

  /** A sized declaration is a stack array; any other is a heap scalar. */
  function DeclLine(m: Decl): string {
    var ctype := CType(m.dtype);
    if m.size != [] then ctype + " " + m.name + "[" + m.size + "];"
    else ctype + "* " + m.name + " = new " + ctype + ";"
  }

  // ---------------------------------------------------------------------
  // Assignments through a pointer: `(\w+)\"(\d*)\s*=\s*([\w\"+\-* /]+);`

  /** `[\w\"+\-* /]` */
  predicate IsExprChar(c: char) {
    IsWordChar(c) || c == '"' || c == '+' || c == '-' || c == '*' || c == ' ' || c == '/'
  }

  datatype Assign = Assign(target: string, index: string, expr: string)

  /** When the expression class finds nothing after the greedy `\s*`, the
      regex backtracks one blank into the expression, which then is `" "`. */
  function AssignMatch(s: string): (r: Option<Assign>)
    ensures r.Some? ==> r.value.target != [] && r.value.expr != []
  {
    var v := Run(s, 0, IsWordChar);
    if v == 0 || v >= |s| || s[v] != '"' then None
    else AssignIndexed(s, v)
  }

  /** `(\d*)\s*=` and the expression, after the target `s[..v]` and its `"`. */
  function AssignIndexed(s: string, v: nat): (r: Option<Assign>)
    requires v < |s|
    ensures r.Some? ==> r.value.target == s[..v] && r.value.expr != []
  {
    var d := Run(s, v + 1, IsDigit);
    var a := v + 1 + d + Run(s, v + 1 + d, IsSpace);
    if a >= |s| || s[a] != '=' then None
    else
      match AssignExpr(s, a)
      case None => None
      case Some(expr) => Some(Assign(s[..v], s[v + 1..v + 1 + d], expr))
  }

  /** `\s*([\w\"+\-* /]+);` after the `=` at `a`. */
  function AssignExpr(s: string, a: nat): (r: Option<string>)
    requires a < |s|
    ensures r.Some? ==> r.value != []
  {
    var e0 := a + 1 + Run(s, a + 1, IsSpace);
    var e := Run(s, e0, IsExprChar);
    if e > 0 then
      if e0 + e < |s| && s[e0 + e] == ';' then Some(s[e0..e0 + e]) else None
    else if e0 > a + 1 && e0 < |s| && s[e0] == ';' && s[e0 - 1] == ' ' then Some(" ")
    else None
  }

  /** Every `"` of the expression becomes `*`. */
  function AssignLine(m: Assign): string {
    var expr := ReplaceChar(m.expr, '"', "*");
    if m.index != [] then m.target + "[" + m.index + "] = " + expr + ";"
    else "*" + m.target + " = " + expr + ";"
  }

  // ---------------------------------------------------------------------
  // Plain assignments ended by a comma: `(\w+)\s*=\s*([\w+\-*/]+),`

  /** A word character or one of `+ - * /`. */
  predicate IsValueChar(c: char) {
    IsWordChar(c) || c == '+' || c == '-' || c == '*' || c == '/'
  }

  function CommaAssignMatch(s: string): (r: Option<(string, string)>)
    ensures r.Some? ==> r.value.0 != [] && r.value.1 != []
  {
    var v := Run(s, 0, IsWordChar);
    if v == 0 then None
    else
      var a := v + Run(s, v, IsSpace);
      if a >= |s| || s[a] != '=' then None
      else
        match CommaValue(s, a)
        case None => None
        case Some(val) => Some((s[..v], val))
  }

  /** The blanks, the value and the `,` after the `=` at `a`. */
  function CommaValue(s: string, a: nat): (r: Option<string>)
    requires a < |s|
    ensures r.Some? ==> r.value != []
  {
    var e0 := a + 1 + Run(s, a + 1, IsSpace);
    var e := Run(s, e0, IsValueChar);
    if e > 0 && e0 + e < |s| && s[e0 + e] == ',' then Some(s[e0..e0 + e]) else None
  }

  // ---------------------------------------------------------------------
  // Headers: `set\s+(\w+)\((.*?)\)\s*{` and `struct\s+(\w+)\((.*?)\)\s*{`

  /** A `)` at `j` followed, after blanks, by `{`. */
  predicate CloseThenBrace(s: string, j: nat) {
    j < |s| && s[j] == ')' && (var k := j + 1 + Run(s, j + 1, IsSpace); k < |s| && s[k] == '{')
  }

  datatype Header = Header(name: string, params: string)

  /** The keyword, blanks, a name, `(`, then the shortest text up to a `)`
      that a `{` follows. */
  function HeaderMatch(s: string, keyword: string): (r: Option<Header>)
    ensures r.Some? ==> StartsWith(s, keyword) && r.value.name != []
  {
    if !StartsWith(s, keyword) then None
    else
      var sp := Run(s, |keyword|, IsSpace);
      if sp == 0 then None else HeaderNamed(s, |keyword| + sp)
  }

  /** The name from `n0`, `(`, and the parameters. */
  function HeaderNamed(s: string, n0: nat): (r: Option<Header>)
    requires n0 <= |s|
    ensures r.Some? ==> r.value.name != []
  {
    var w := Run(s, n0, IsWordChar);
    if w == 0 || n0 + w >= |s| || s[n0 + w] != '(' then None
    else
      match LazyEnd(s, n0 + w + 1, CloseThenBrace)
      case None => None
      case Some(j) => Some(Header(s[n0..n0 + w], s[n0 + w + 1..j]))
  }

  /** `([a-z]+)_\s*'?([\w]+)` at the start of `p`: the type letters, the
      name, and where the name ends. */
  function TypedName(p: string): (r: Option<(string, string, nat)>)
    ensures r.Some? ==> r.value.2 <= |p| && r.value.1 != []
  {
    var l := Run(p, 0, IsLower);
    if l == 0 || l >= |p| || p[l] != '_' then None
    else
      match QuotedName(p, l + 1)
      case None => None
      case Some((name, e)) => Some((p[..l], name, e))
  }

  /** `\s*'?([\w]+)` from `i`: the name and where it ends. */
  function QuotedName(p: string, i: nat): (r: Option<(string, nat)>)
    requires i <= |p|
    ensures r.Some? ==> r.value.1 <= |p| && r.value.0 != []
  {
    var q := i + Run(p, i, IsSpace);
    var n0 := if q < |p| && p[q] == '\'' then q + 1 else q;
    var w := Run(p, n0, IsWordChar);
    if w == 0 then None else Some((p[n0..n0 + w], n0 + w))
  }

  /** A parameter of a set function: `([a-z]+)_\s*'?([\w]+)([.,])`. */
  datatype SetParam = SetParam(dtype: string, name: string, modifier: char)

  function SetParamMatch(p: string): (r: Option<SetParam>)
    ensures r.Some? ==> r.value.modifier == '.' || r.value.modifier == ','
  {
    match TypedName(p)
    case None => None
    case Some((dtype, name, e)) =>
      if e < |p| && (p[e] == '.' || p[e] == ',') then Some(SetParam(dtype, name, p[e])) else None
  }

  /** The rendering of one piece of a set function's parameter list, if it
      is kept: a `'` anywhere in the piece makes the parameter a pointer. */
  function SetParamText(piece: string): (r: Option<string>) {
    var p := Strip(piece);
    if p == [] then None
    else
      match SetParamMatch(p)
      case None => None
      case Some(m) => Some(CType(m.dtype) + (if '\'' in p then "* " else " ") + m.name)
  }

  /** The renderings of the kept pieces, in order. */
  function SetParamTexts(pieces: seq<string>): (r: seq<string>) {
    Kept(SetParamText, pieces)
  }

  /** The fields of a struct header piece: `([a-z]+)_\s*'?([\w]+),?`, as
      (C++ type, name). */
  function FieldOf(piece: string): (r: Option<(string, string)>) {
    var p := Strip(piece);
    if p == [] then None
    else
      match TypedName(p)
      case None => None
      case Some((dtype, name, _)) => Some((CType(dtype), name))
  }

  function StructFields(pieces: seq<string>): (r: seq<(string, string)>) {
    Kept(FieldOf, pieces)
  }

  // ---------------------------------------------------------------------
  // Closing a struct

  /** One pointer member per field. */
  function MemberLines(fields: seq<(string, string)>): (r: seq<string>)
    ensures |r| == |fields|
  {
    seq(|fields|, k requires 0 <= k < |fields| => "    " + fields[k].0 + "* " + fields[k].1 + ";")
  }

  /** The constructor allocates each field, then sets it to zero. */
  function ConstructorEntries(fields: seq<(string, string)>): (r: seq<string>)
    ensures |r| == |fields|
  {
    seq(|fields|, k requires 0 <= k < |fields| =>
      "        " + fields[k].1 + " = new " + fields[k].0 + ";\n        *" + fields[k].1 + " = 0;")
  }

  /** The destructor deletes each field. */
  function DestructorEntries(fields: seq<(string, string)>): (r: seq<string>)
    ensures |r| == |fields|
  {
    seq(|fields|, k requires 0 <= k < |fields| => "        delete " + fields[k].1 + ";")
  }

  function CloseStruct(name: string, fields: seq<(string, string)>): string {
    var ctor := "    " + name + "() {\n" + Join("\n", ConstructorEntries(fields)) + "\n    }";
    var dtor := "    ~" + name + "() {\n" + Join("\n", DestructorEntries(fields)) + "\n    }";
    Join("\n", MemberLines(fields) + [ctor, dtor, "};"])
  }

  // ---------------------------------------------------------------------
  // Control flow, prints and calls

  predicate CommaCloseAt(s: string, j: nat) {
    StartsAt(s, j, ",)")
  }

  predicate CallEndAt(s: string, j: nat) {
    StartsAt(s, j, ");")
  }

  /** `while\((.*?)\,\)`: the condition. */
  function WhileMatch(s: string): (r: Option<string>) {
    if !StartsWith(s, "while(") then None
    else
      match LazyEnd(s, 6, CommaCloseAt)
      case None => None
      case Some(j) => Some(s[6..j])
  }

  /** `if\((.*?)\)`: the condition. */
  function IfMatch(s: string): (r: Option<string>) {
    if !StartsWith(s, "if(") then None
    else
      match LazyEnd(s, 3, CloseAt)
      case None => None
      case Some(j) => Some(s[3..j])
  }

  /** `(\w+)\"`: the printed variable. */
  function PrintMatch(s: string): (r: Option<string>) {
    var v := Run(s, 0, IsWordChar);
    if v > 0 && v < |s| && s[v] == '"' then Some(s[..v]) else None
  }

  /** The end of `(?:\.\w+)*` from `i`. */
  function DottedEnd(s: string, i: nat): (r: nat)
    requires i <= |s|
    ensures i <= r <= |s|
    decreases |s| - i
  {
    if i < |s| && s[i] == '.' && Run(s, i + 1, IsWordChar) > 0 then DottedEnd(s, i + 1 + Run(s, i + 1, IsWordChar))
    else i
  }

  /** `(\w+(?:\.\w+)*)\((.*?)\);`: the called path and the argument text. */
  function CallMatch(s: string): (r: Option<(string, string)>)
    ensures r.Some? ==> r.value.0 != []
  {
    var w := Run(s, 0, IsWordChar);
    if w == 0 then None
    else
      var f := DottedEnd(s, w);
      if f >= |s| || s[f] != '(' then None
      else
        match LazyEnd(s, f + 1, CallEndAt)
        case None => None
        case Some(j) => Some((s[..f], s[f + 1..j]))
  }

  /** The arguments of a call: the pieces between `;` that are not blank,
      with `'` written `&` and `:` dropped. */
  function CallArgs(pieces: seq<string>): (r: seq<string>)
    ensures |r| <= |pieces|
  {
    if pieces == [] then []
    else
      var a := pieces[0];
      (if Strip(a) != [] then [Strip(ReplaceChar(ReplaceChar(a, '\'', "&"), ':', ""))] else []) + CallArgs(pieces[1..])
  }

  function CallLine(fname: string, args: string): string {
    ReplaceChar(fname, '.', "_") + "(" + Join(", ", CallArgs(SplitOn(args, ';'))) + ");"
  }

  /** The patterns tried after the struct close; none changes the globals. */
  function TailLine(s: string): string {
    if BraceWithMarkers(s) then "}"
    else if WhileMatch(s).Some? then "while(" + ReplaceChar(WhileMatch(s).value, '"', "*") + ") {"
    else if IfMatch(s).Some? then "if(" + ReplaceChar(IfMatch(s).value, '"', "*") + ") {"
    else if s == "}" then "}"
    else if PrintMatch(s).Some? then "std::cout << *" + PrintMatch(s).value + " << std::endl;"
    else if CallMatch(s).Some? then CallLine(CallMatch(s).value.0, CallMatch(s).value.1)
    else "// [UNHANDLED] " + s
  }

  // ---------------------------------------------------------------------
  // The dispatch

  /** The three globals. */
  datatype StructState = StructState(inStruct: bool, current: string, fields: seq<(string, string)>)

  /** `transpile_dot_line(dot_line)`: the output line and the globals
      after it. */
  function Transpile(st: StructState, line: string): (r: (string, StructState))
    ensures r.1 == st || HeaderMatch(Strip(line), "struct").Some? || (Strip(line) == "}" && st.inStruct)
  {
    var s := Strip(line);
    if s == [] then ("", st)
    else if MarkersToEnd(s, 0) then ("", st)
    else if DeclMatch(s).Some? then (DeclLine(DeclMatch(s).value), st)
    else if AssignMatch(s).Some? then (AssignLine(AssignMatch(s).value), st)
    else if CommaAssignMatch(s).Some? then
      var (v, e) := CommaAssignMatch(s).value;
      (v + " = " + e + ";", st)
    else if HeaderMatch(s, "set").Some? then
      var h := HeaderMatch(s, "set").value;
      ("void " + h.name + "(" + Join(", ", SetParamTexts(SplitOn(h.params, ','))) + ") {", st)
    else if HeaderMatch(s, "struct").Some? then
      var h := HeaderMatch(s, "struct").value;
      ("struct " + h.name + " {", StructState(true, h.name, StructFields(SplitOn(h.params, ','))))
    else if s == "}" && st.inStruct then (CloseStruct(st.current, st.fields), st.(inStruct := false))
    else (TailLine(s), st)
  }

  // ---------------------------------------------------------------------
  // The loops of the source

  /** The loop over a set function's parameter pieces. */
  method RenderSetParams(params: string) returns (cppParams: seq<string>)
    ensures cppParams == SetParamTexts(SplitOn(params, ','))
  {
    var pieces := SplitOn(params, ',');
    cppParams := [];
    for j := 0 to |pieces|
      invariant cppParams == SetParamTexts(pieces[..j])
    {
      assert pieces[..j + 1][..j] == pieces[..j];
      var p := Strip(pieces[j]);
      if p == [] {
        continue;
      }
      var m := SetParamMatch(p);
      if m.None? {
        continue;
      }
      var ctype := CType(m.value.dtype);
      if '\'' in p {
        cppParams := cppParams + [ctype + "* " + m.value.name];
      } else {
        cppParams := cppParams + [ctype + " " + m.value.name];
      }
    }
    assert pieces[..|pieces|] == pieces;
  }

  /** The loop over a struct header's field pieces. */
  method CollectStructFields(params: string) returns (fields: seq<(string, string)>)
    ensures fields == StructFields(SplitOn(params, ','))
  {
    var pieces := SplitOn(params, ',');
    fields := [];
    for j := 0 to |pieces|
      invariant fields == StructFields(pieces[..j])
    {
      assert pieces[..j + 1][..j] == pieces[..j];
      var p := Strip(pieces[j]);
      if p == [] {
        continue;
      }
      var m := TypedName(p);
      if m.Some? {
        fields := fields + [(CType(m.value.0), m.value.1)];
      }
    }
    assert pieces[..|pieces|] == pieces;
  }

  /** The module's globals and `transpile_dot_line`. */
  class Transpiler {
    var inStruct: bool
    var currentStruct: string
    var structFields: seq<(string, string)>

    /** The globals at module load. */
    constructor ()
      ensures State() == StructState(false, "", [])
    {
      inStruct := false;
      currentStruct := "";
      structFields := [];
    }

    function State(): StructState
      reads this
    {
      StructState(inStruct, currentStruct, structFields)
    }

    method TranspileDotLine(dotLine: string) returns (out: string)
      modifies this
      ensures (out, State()) == Transpile(old(State()), dotLine)
    {
      var s := Strip(dotLine);
      if s == [] || MarkersToEnd(s, 0) {
        return "";
      }
      var decl := DeclMatch(s);
      if decl.Some? {
        return DeclLine(decl.value);
      }
      var assign := AssignMatch(s);
      if assign.Some? {
        return AssignLine(assign.value);
      }
      var comma := CommaAssignMatch(s);
      if comma.Some? {
        return comma.value.0 + " = " + comma.value.1 + ";";
      }
      var setHeader := HeaderMatch(s, "set");
      if setHeader.Some? {
        var cppParams := RenderSetParams(setHeader.value.params);
        return "void " + setHeader.value.name + "(" + Join(", ", cppParams) + ") {";
      }
      var structHeader := HeaderMatch(s, "struct");
      if structHeader.Some? {
        currentStruct := structHeader.value.name;
        structFields := CollectStructFields(structHeader.value.params);
        inStruct := true;
        return "struct " + currentStruct + " {";
      }
      if s == "}" && inStruct {
        inStruct := false;
        return CloseStruct(currentStruct, structFields);
      }
      out := TailLine(s);
    }
  }
}
