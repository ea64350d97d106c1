/**
 * The pieces of `emit_cpp` in archive/dotc.py that its input can reach:
 * the type table `dot_type_to_cpp`, the `Declaration` branch with the
 * `array_sizes` bookkeeping, and, from the set-group branch, the set
 * constraint on parameter types, the rendering of a parameter list and the
 * warnings for pseudo parameters that no assignment mentions.
 */
module DotcEmit {
  import opened PyText
  import opened Wrappers

  // ---------------------------------------------------------------------
  // `dot_type_to_cpp`

  const TypeTable: map<string, string> := map[
    "i_" := "int", "f_" := "float", "s_" := "string", "c_" := "char",
    "sh_" := "short", "l_" := "long", "ll_" := "long long"]

  /** `dot_type_to_cpp(dtype)`: the table's C++ type, or the text unchanged. */
  function DotTypeToCpp(dtype: string): (r: string)
    ensures r !in TypeTable
    ensures dtype !in TypeTable ==> r == dtype
    ensures dtype in TypeTable ==> r == TypeTable[dtype]
  {
    if dtype in TypeTable then TypeTable[dtype] else dtype
  }

  /** Mapping a type twice changes nothing more. */
  lemma DotTypeIdempotent(dtype: string)
    ensures DotTypeToCpp(DotTypeToCpp(dtype)) == DotTypeToCpp(dtype)
  {
  }

  /** Distinct Dot types of the table give distinct C++ types. */
  lemma DotTypeTableOneToOne(a: string, b: string)
    requires a in TypeTable && b in TypeTable && a != b
    ensures DotTypeToCpp(a) != DotTypeToCpp(b)
  {
  }

  // ---------------------------------------------------------------------
  // The `Declaration` branch

  /** The exceptions `emit_cpp` raises. */
  datatype EmitError =
    | NameError                                   // `isinstance(node, Dealloc)`: `Dealloc` is undefined
    | AttributeError                              // `node.value` of a `Declaration`
    | ParamMismatch(paramType: string, expected: string)
    | LooseSetViolation(paramType: string, base: string)

  /** The text of the exceptions the set constraint raises. */
  function ErrorMessage(e: EmitError): string {
    match e
    case NameError => "name 'Dealloc' is not defined"
    case AttributeError => "'Declaration' object has no attribute 'value'"
    case ParamMismatch(t, expected) =>
      "Function param type '" + t + "' does not match set constraint '" + expected + "'"
    case LooseSetViolation(t, base) =>
      "Function param type '" + t + "' not allowed in loosely-typed set_" + base + "_"
  }

  /** A node of the parse: a `Declaration`, or a node of any other class. */
  datatype Node = Declaration(dtype: string, name: string) | OtherNode

  /** `t.startswith('i_') and t[2:].isdigit()` */
  predicate IsArrayType(t: string) {
    StartsWith(t, "i_") && AllDigits(t[2..])
  }

  /** `int(t[2:])` */
  function ArraySize(t: string): nat
    requires IsArrayType(t)
  {
    DecimalValue(t[2..])
  }

  /** The line a `Declaration` emits into `main`. */
  function DeclarationLine(dtype: string, name: string): (r: Result<string, EmitError>)
    ensures r.Ok? <==> IsArrayType(dtype) || dtype == "i~"
    ensures r.Err? ==> r.error == AttributeError
  {
    if IsArrayType(dtype) then Ok("    int " + name + "[" + NatToDecimal(ArraySize(dtype)) + "];")
    else if dtype == "i~" then Ok("    int* " + name + " = new int;")
    else Err(AttributeError)
  }

  /** An array declared with size `n` is emitted with size `n`. */
  lemma ArrayDeclarationKeepsSize(n: nat, name: string)
    ensures DeclarationLine("i_" + NatToDecimal(n), name) == Ok("    int " + name + "[" + NatToDecimal(n) + "];")
  {
    var t := "i_" + NatToDecimal(n);
    assert t[2..] == NatToDecimal(n);
    assert StartsWith(t, "i_") by { assert t[..2] == "i_"; }
    DecimalRoundTrip(n);
  }

  /** Leading zeros of a size are dropped: `i_007` declares `int a[7];`. */
  lemma ArraySizeNormalised()
    ensures DeclarationLine("i_007", "a") == Ok("    int a[7];")
  {
    var t := "i_007";
    assert t[2..] == "007";
    assert StartsWith(t, "i_") by { assert t[..2] == "i_"; }
    assert AllDigits("007");
    assert IsArrayType(t);
    assert "007"[..2] == "00" && "00"[..1] == "0" && "0"[..0] == "";
    assert DecimalValue("0") == 0;
    assert DecimalValue("00") == 0;
    assert DecimalValue("007") == 7;
    assert ArraySize(t) == 7;
    assert NatToDecimal(7) == "7";
    assert DeclarationLine(t, "a") == Ok("    int " + "a" + "[" + "7" + "];");
    assert "    int " + "a" + "[" + "7" + "];" == "    int a[7];";
  }

  predicate Emittable(n: Node) {
    n.Declaration? && DeclarationLine(n.dtype, n.name).Ok?
  }

  function NodeLine(n: Node): (r: Result<string, EmitError>)
    ensures r.Ok? <==> Emittable(n)
  {
    match n
    case Declaration(dtype, name) => DeclarationLine(dtype, name)
    case OtherNode => Err(NameError)
  }

  /** The lines of `main`, or the exception of the first node that raises. */
  function MainLines(body: seq<Node>): Result<seq<string>, EmitError> {
    if body == [] then Ok([])
    else
      match MainLines(body[..|body| - 1])
      case Err(e) => Err(e)
      case Ok(lines) =>
        match NodeLine(body[|body| - 1])
        case Err(e) => Err(e)
        case Ok(line) => Ok(lines + [line])
  }

  /** The number of leading nodes that emit without raising. */
  function ValidPrefix(body: seq<Node>): (r: nat)
    ensures r <= |body|
    ensures forall k :: 0 <= k < r ==> Emittable(body[k])
    ensures r == |body| || !Emittable(body[r])
  {
    if body == [] || !Emittable(body[0]) then 0 else 1 + ValidPrefix(body[1..])
  }

  /** `array_sizes` after the given declarations: each array declaration
      records its size under its name, a later one overriding an earlier. */
  function ArraySizes(body: seq<Node>): map<string, nat> {
    if body == [] then map[]
    else
      var sizes := ArraySizes(body[..|body| - 1]);
      var n := body[|body| - 1];
      if n.Declaration? && IsArrayType(n.dtype) then sizes[n.name := ArraySize(n.dtype)] else sizes
  }

  predicate IsArrayDeclaration(n: Node, name: string) {
    n.Declaration? && IsArrayType(n.dtype) && n.name == name
  }

  /** An array's recorded size is the one of its last declaration. */
  lemma {:induction false} ArraySizesKeepLast(body: seq<Node>, k: nat)
    requires k < |body| && body[k].Declaration? && IsArrayType(body[k].dtype)
    requires forall j :: k < j < |body| ==> !IsArrayDeclaration(body[j], body[k].name)
    ensures body[k].name in ArraySizes(body) && ArraySizes(body)[body[k].name] == ArraySize(body[k].dtype)
  {
    if k < |body| - 1 {
      var init := body[..|body| - 1];
      assert !IsArrayDeclaration(body[|body| - 1], body[k].name);
      ArraySizesKeepLast(init, k);
    }
  }

  /** Only array declarations are recorded. */
  lemma {:induction false} ArraySizesOnlyArrays(body: seq<Node>, name: string)
    requires name in ArraySizes(body)
    ensures exists k :: 0 <= k < |body| && IsArrayDeclaration(body[k], name)
  {
    var init := body[..|body| - 1];
    if !IsArrayDeclaration(body[|body| - 1], name) {
      ArraySizesOnlyArrays(init, name);
      var k :| 0 <= k < |init| && IsArrayDeclaration(init[k], name);
      assert body[k] == init[k];
    }
  }

  /** Emission succeeds exactly when every node is an array or heap-int
      declaration, and then emits one line per node, in order. */
  lemma {:induction false} MainLinesShape(body: seq<Node>)
    ensures MainLines(body).Ok? <==> ValidPrefix(body) == |body|
    ensures MainLines(body).Ok? ==>
      |MainLines(body).value| == |body|
      && forall k :: 0 <= k < |body| ==> NodeLine(body[k]) == Ok(MainLines(body).value[k])
    ensures MainLines(body).Err? ==> MainLines(body) == Err(NodeLine(body[ValidPrefix(body)]).error)
  {
    if body != [] {
      var init := body[..|body| - 1];
      MainLinesShape(init);
      var p := ValidPrefix(body);
      assert forall k :: 0 <= k < |init| ==> init[k] == body[k];
      if ValidPrefix(init) == |init| {
        assert p >= |init|;
      } else {
        assert p == ValidPrefix(init);
      }
    }
  }

  const Header: seq<string> := ["#include <iostream>", "#include <cmath>", "using namespace std;"]

  /** The program text around the lines of `main`. */
  function ProgramText(mainLines: seq<string>): string {
    Join("\n", Header + ["int main() {"] + mainLines + ["    return 0;\n}"])
  }

  /** `emit_cpp(ast)`, with `array_sizes` as an out-parameter: on success
      the program text; otherwise the first exception, with `array_sizes`
      holding what the nodes before it recorded. */
  method EmitCpp(body: seq<Node>) returns (r: Result<string, EmitError>, arraySizes: map<string, nat>)
    ensures MainLines(body).Ok? ==> r == Ok(ProgramText(MainLines(body).value))
    ensures MainLines(body).Err? ==> r == Err(MainLines(body).error)
    ensures arraySizes == ArraySizes(body[..ValidPrefix(body)])
  {
    arraySizes := map[];
    var mainLines: seq<string> := [];
    var j := 0;
    while j < |body|
      invariant j <= |body|
      invariant forall k :: 0 <= k < j ==> Emittable(body[k])
      invariant MainLines(body[..j]) == Ok(mainLines)
      invariant arraySizes == ArraySizes(body[..j])
    {
      assert body[..j + 1][..j] == body[..j];
      match body[j]
      case OtherNode =>
        r := Err(NameError);
        MainLinesErr(body, j);
        return;
      case Declaration(dtype, name) =>
        if IsArrayType(dtype) {
          var size := ArraySize(dtype);
          arraySizes := arraySizes[name := size];
          mainLines := mainLines + ["    int " + name + "[" + NatToDecimal(size) + "];"];
        } else if dtype == "i~" {
          mainLines := mainLines + ["    int* " + name + " = new int;"];
        } else {
          r := Err(AttributeError);
          MainLinesErr(body, j);
          return;
        }
      j := j + 1;
    }
    assert body[..j] == body;
    r := Ok(ProgramText(mainLines));
  }

  /** The first node that raises decides the outcome of the whole body. */
  lemma MainLinesErr(body: seq<Node>, j: nat)
    requires j < |body| && !Emittable(body[j])
    requires forall k :: 0 <= k < j ==> Emittable(body[k])
    ensures ValidPrefix(body) == j
    ensures MainLines(body) == Err(NodeLine(body[j]).error)
  {
    ValidPrefixAt(body, j);
    MainLinesShape(body);
  }

  lemma {:induction false} ValidPrefixAt(body: seq<Node>, j: nat)
    requires j < |body| && !Emittable(body[j])
    requires forall k :: 0 <= k < j ==> Emittable(body[k])
    ensures ValidPrefix(body) == j
  {
    if j > 0 {
      ValidPrefixAt(body[1..], j - 1);
    }
  }

  /** With the stub parser the body is empty, so every program compiles to
      the same text. */
  lemma EmptyBodyProgram()
    ensures MainLines([]) == Ok([])
    ensures ProgramText([]) == "#include <iostream>" + "\n" + "#include <cmath>" + "\n" + "using namespace std;"
      + "\n" + "int main() {" + "\n" + "    return 0;\n}"
  {
    var lines := Header + ["int main() {"] + [] + ["    return 0;\n}"];
    assert lines == ["#include <iostream>", "#include <cmath>", "using namespace std;", "int main() {", "    return 0;\n}"];
    var end := "    return 0;\n}";
    assert Join("\n", [end]) == end;
    JoinCons("\n", "int main() {", [end]);
    JoinCons("\n", "using namespace std;", ["int main() {", end]);
    JoinCons("\n", "#include <cmath>", ["using namespace std;", "int main() {", end]);
    JoinCons("\n", "#include <iostream>", ["#include <cmath>", "using namespace std;", "int main() {", end]);
  }

  // ---------------------------------------------------------------------
  // The set constraint

  datatype Param = Param(dtype: string, name: string)

  /** `name.split('_', 1)` for a name holding `_`. */
  function SplitGroupName(name: string): (r: (string, string))
    requires '_' in name
    ensures name == r.0 + "_" + r.1 && '_' !in r.0
  {
    var k := IndexOf(name, '_');
    assert name == name[..k] + "_" + name[k + 1..];
    (name[..k], name[k + 1..])
  }

  /** The exception a parameter of type `t` raises in the group `base_dim`. */
  function Violation(base: string, dim: string, t: string): (r: Option<EmitError>)
    ensures r.None? <==>
      (AllDigits(dim) ==> t == base + "_" + dim) && (dim == "" ==> StartsWith(t, base + "_"))
  {
    if AllDigits(dim) then
      if t != base + "_" + dim then Some(ParamMismatch(t, base + "_" + dim)) else None
    else if dim == "" then
      if !StartsWith(t, base + "_") then Some(LooseSetViolation(t, base)) else None
    else None
  }

  /** The parameters of all functions of the group, in order. */
  function AllParams(functions: seq<seq<Param>>): seq<Param> {
    if functions == [] then [] else AllParams(functions[..|functions| - 1]) + functions[|functions| - 1]
  }

  /** The first parameter, in order, that raises. */
  function FirstViolation(base: string, dim: string, params: seq<Param>): Option<EmitError> {
    if params == [] then None
    else
      match FirstViolation(base, dim, params[..|params| - 1])
      case Some(e) => Some(e)
      case None => Violation(base, dim, params[|params| - 1].dtype)
  }

  /** No parameter raises exactly when every parameter conforms; otherwise
      the exception is the one of the first that does not. */
  lemma {:induction false} FirstViolationIsFirst(base: string, dim: string, params: seq<Param>)
    ensures FirstViolation(base, dim, params).None? <==>
      forall k :: 0 <= k < |params| ==> Violation(base, dim, params[k].dtype).None?
    ensures FirstViolation(base, dim, params).Some? ==>
      exists k :: 0 <= k < |params| && FirstViolation(base, dim, params) == Violation(base, dim, params[k].dtype) &&
        forall j :: 0 <= j < k ==> Violation(base, dim, params[j].dtype).None?
  {
    if params != [] {
      var init := params[..|params| - 1];
      FirstViolationIsFirst(base, dim, init);
      assert forall k :: 0 <= k < |init| ==> init[k] == params[k];
      if FirstViolation(base, dim, init).Some? {
        var k :| 0 <= k < |init| && FirstViolation(base, dim, init) == Violation(base, dim, init[k].dtype)
          && forall j :: 0 <= j < k ==> Violation(base, dim, init[j].dtype).None?;
        assert FirstViolation(base, dim, params) == Violation(base, dim, params[k].dtype);
      }
    }
  }

  /** The exception the group `name` raises for the parameters of its
      functions, if any. */
  function SetConstraint(name: string, functions: seq<seq<Param>>): Option<EmitError> {
    if '_' in name then
      var (base, dim) := SplitGroupName(name);
      FirstViolation(base, dim, AllParams(functions))
    else None
  }

  lemma FirstViolationAppend(base: string, dim: string, params: seq<Param>, p: Param)
    ensures FirstViolation(base, dim, params + [p])
      == if FirstViolation(base, dim, params).Some? then FirstViolation(base, dim, params)
         else Violation(base, dim, p.dtype)
  {
    assert (params + [p])[..|params|] == params;
  }

  /** The constraint loop of the set-group branch: every parameter of every
      function is checked, in order, and the first that fails raises. */
  method CheckSetConstraint(name: string, functions: seq<seq<Param>>) returns (raised: Option<EmitError>)
    ensures raised == SetConstraint(name, functions)
  {
    raised := None;
    if '_' !in name {
      return;
    }
    var (base, dim) := SplitGroupName(name);
    assert SetConstraint(name, functions) == FirstViolation(base, dim, AllParams(functions));
    var i := 0;
    while i < |functions|
      invariant i <= |functions|
      invariant FirstViolation(base, dim, AllParams(functions[..i])) == None
      invariant raised == None
    {
      assert AllParams(functions[..i + 1]) == AllParams(functions[..i]) + functions[i] by {
        assert functions[..i + 1][..i] == functions[..i];
      }
      raised := CheckParams(base, dim, AllParams(functions[..i]), functions[i]);
      if raised.Some? {
        AllParamsAppend(functions[..i + 1], functions[i + 1..]);
        assert functions[..i + 1] + functions[i + 1..] == functions;
        FirstViolationPrefix(base, dim, AllParams(functions[..i + 1]), AllParams(functions[i + 1..]));
        assert raised == FirstViolation(base, dim, AllParams(functions));
        return;
      }
      i := i + 1;
    }
    assert functions[..i] == functions;
  }

  /** The inner loop: the parameters of one function, checked after those
      (`before`) of the functions already checked. */
  method CheckParams(base: string, dim: string, before: seq<Param>, params: seq<Param>) returns (raised: Option<EmitError>)
    requires FirstViolation(base, dim, before) == None
    ensures raised == FirstViolation(base, dim, before + params)
  {
    var j := 0;
    assert before + params[..0] == before;
    while j < |params|
      invariant j <= |params|
      invariant FirstViolation(base, dim, before + params[..j]) == None
    {
      var t := params[j].dtype;
      FirstViolationAppend(base, dim, before + params[..j], params[j]);
      assert before + params[..j + 1] == before + params[..j] + [params[j]];
      if AllDigits(dim) {
        var expected := base + "_" + dim;
        if t != expected {
          raised := Some(ParamMismatch(t, expected));
          FirstViolationPrefix(base, dim, before + params[..j + 1], params[j + 1..]);
          assert before + params[..j + 1] + params[j + 1..] == before + params;
          return;
        }
      } else if dim == "" {
        if !StartsWith(t, base + "_") {
          raised := Some(LooseSetViolation(t, base));
          FirstViolationPrefix(base, dim, before + params[..j + 1], params[j + 1..]);
          assert before + params[..j + 1] + params[j + 1..] == before + params;
          return;
        }
      }
      j := j + 1;
    }
    assert params[..j] == params;
    raised := None;
  }

  lemma {:induction false} AllParamsAppend(a: seq<seq<Param>>, b: seq<seq<Param>>)
    ensures AllParams(a + b) == AllParams(a) + AllParams(b)
    decreases |b|
  {
    if b == [] {
      assert a + b == a;
    } else {
      var ab := a + b;
      assert ab[..|ab| - 1] == a + b[..|b| - 1];
      AllParamsAppend(a, b[..|b| - 1]);
    }
  }

  /** A violation in a prefix is the first violation of the whole list. */
  lemma {:induction false} FirstViolationPrefix(base: string, dim: string, pre: seq<Param>, rest: seq<Param>)
    requires FirstViolation(base, dim, pre).Some?
    ensures FirstViolation(base, dim, pre + rest) == FirstViolation(base, dim, pre)
    decreases |rest|
  {
    if rest != [] {
      var all := pre + rest;
      assert all[..|all| - 1] == pre + rest[..|rest| - 1];
      FirstViolationPrefix(base, dim, pre, rest[..|rest| - 1]);
    } else {
      assert pre + rest == pre;
    }
  }

  /** A group name without `_`, or whose part after the first `_` is
      neither digits nor empty, imposes no constraint. */
  lemma UnconstrainedGroups(name: string, functions: seq<seq<Param>>)
    requires '_' !in name || (SplitGroupName(name).1 != "" && !AllDigits(SplitGroupName(name).1))
    ensures SetConstraint(name, functions) == None
  {
    if '_' in name {
      var (base, dim) := SplitGroupName(name);
      FirstViolationIsFirst(base, dim, AllParams(functions));
    }
  }

  /** In a group `base_N` every parameter type must be exactly `base_N`;
      in a group `base_` it must start with `base_`. */
  lemma ConstrainedGroups(base: string, dim: string, functions: seq<seq<Param>>)
    requires '_' !in base && (dim == "" || AllDigits(dim))
    ensures var params := AllParams(functions);
      SetConstraint(base + "_" + dim, functions).None? <==>
        forall k :: 0 <= k < |params| ==>
          if dim == "" then StartsWith(params[k].dtype, base + "_") else params[k].dtype == base + "_" + dim
  {
    var name := base + "_" + dim;
    assert name == base + ['_'] + dim;
    IndexOfFirst(base, dim, '_');
    assert name[..|base|] == base && name[|base| + 1..] == dim;
    FirstViolationIsFirst(base, dim, AllParams(functions));
  }

  // ---------------------------------------------------------------------
  // Parameter rendering

  /** The C++ parameter for one Dot parameter. */
  function ParamText(p: Param): string {
    var name := StripChar(p.name, '@');
    if IsArrayType(p.dtype) then "int (&" + name + ")[" + NatToDecimal(ArraySize(p.dtype)) + "]"
    else DotTypeToCpp(p.dtype) + "& " + name
  }

  function ParamTexts(params: seq<Param>): (r: seq<string>)
    ensures |r| == |params| && forall k :: 0 <= k < |params| ==> r[k] == ParamText(params[k])
  {
    seq(|params|, k requires 0 <= k < |params| => ParamText(params[k]))
  }

  /** The pseudo parameters: names carrying `@`, with the `@` stripped. */
  function PseudoNames(params: seq<Param>): set<string> {
    set k | 0 <= k < |params| && '@' in params[k].name :: StripChar(params[k].name, '@')
  }

  /** The parameter loop of the set-group branch: the rendered list and the
      pseudo parameters it found. */
  method RenderParams(params: seq<Param>) returns (text: string, pseudo: set<string>)
    ensures text == Join(", ", ParamTexts(params))
    ensures pseudo == PseudoNames(params)
  {
    pseudo := {};
    var rendered: seq<string> := [];
    for j := 0 to |params|
      invariant rendered == ParamTexts(params[..j])
      invariant pseudo == PseudoNames(params[..j])
    {
      PseudoNamesSnoc(params, j);
      ParamTextsSnoc(params, j);
      if '@' in params[j].name {
        pseudo := pseudo + {StripChar(params[j].name, '@')};
      }
      var line := RenderParam(params[j]);
      rendered := rendered + [line];
    }
    assert params[..|params|] == params;
    text := Join(", ", rendered);
  }

  /** One pass of the parameter loop: an array type becomes a reference to
      an `int` array of its size, any other type a reference. */
  method RenderParam(p: Param) returns (line: string)
    ensures line == ParamText(p)
  {
    var t, name := p.dtype, StripChar(p.name, '@');
    if IsArrayType(t) {
      var size := ArraySize(t);
      line := "int (&" + name + ")[" + NatToDecimal(size) + "]";
    } else {
      line := DotTypeToCpp(t) + "& " + name;
    }
  }

  lemma ParamTextsSnoc(params: seq<Param>, j: nat)
    requires j < |params|
    ensures ParamTexts(params[..j + 1]) == ParamTexts(params[..j]) + [ParamText(params[j])]
  {
    var a, b := ParamTexts(params[..j]), ParamTexts(params[..j + 1]);
    assert forall k :: 0 <= k < j ==> b[k] == a[k];
  }

  lemma PseudoNamesSnoc(params: seq<Param>, j: nat)
    requires j < |params|
    ensures PseudoNames(params[..j + 1])
      == PseudoNames(params[..j]) + (if '@' in params[j].name then {StripChar(params[j].name, '@')} else {})
  {
    var a, b := params[..j], params[..j + 1];
    assert forall k :: 0 <= k < j ==> a[k] == b[k];
    assert b[j] == params[j];
  }

  /** A parameter declared `i_N` is passed as a reference to an array of
      `N` ints. */
  lemma ArrayParamKeepsSize(n: nat, name: string)
    requires '@' !in name
    ensures ParamText(Param("i_" + NatToDecimal(n), name)) == "int (&" + name + ")[" + NatToDecimal(n) + "]"
  {
    var t := "i_" + NatToDecimal(n);
    assert t[2..] == NatToDecimal(n);
    assert StartsWith(t, "i_") by { assert t[..2] == "i_"; }
    DecimalRoundTrip(n);
    StripCharNone(name, '@');
  }

  /** Every other parameter is passed by reference to its mapped type. */
  lemma OtherParamByReference(t: string, name: string)
    requires !IsArrayType(t) && '@' !in name
    ensures ParamText(Param(t, name)) == DotTypeToCpp(t) + "& " + name
  {
    StripCharNone(name, '@');
  }

  /** Only names that carry `@` are pseudo, and they lose the `@` at both ends. */
  lemma PseudoNamesStripped(params: seq<Param>, x: string)
    requires x in PseudoNames(params)
    ensures exists k :: 0 <= k < |params| && '@' in params[k].name && x == StripChar(params[k].name, '@')
    ensures x == [] || (x[0] != '@' && x[|x| - 1] != '@')
  {
  }

  lemma {:induction false} StripCharNone(s: string, c: char)
    requires c !in s
    ensures StripChar(s, c) == s
  {
  }

  // ---------------------------------------------------------------------
  // Unused pseudo parameters

  /** The warning line for a pseudo parameter no assignment mentions. */
  function Warning(pv: string): string {
    "        // Warning: pseudo '" + pv + "' was passed but never used"
  }

  lemma WarningOneToOne(a: string, b: string)
    requires Warning(a) == Warning(b)
    ensures a == b
  {
    var p := |"        // Warning: pseudo '"|;
    assert a == Warning(a)[p..p + |a|];
    assert b == Warning(b)[p..p + |b|];
  }

  /** The pseudo parameters that occur, as text, in the target or the value of
      some assignment of the body. */
  function Used(pseudo: set<string>, assignments: seq<(string, string)>): set<string> {
    set pv | pv in pseudo && exists k :: 0 <= k < |assignments| && Mentions(assignments[k], pv)
  }

  predicate Mentions(assignment: (string, string), pv: string) {
    Contains(assignment.0, pv) || Contains(assignment.1, pv)
  }

  /** `pseudo_vars - used_pseudos` */
  function Unused(pseudo: set<string>, assignments: seq<(string, string)>): (r: set<string>)
    ensures r <= pseudo
    ensures forall pv :: pv in r <==> pv in pseudo && forall k :: 0 <= k < |assignments| ==> !Mentions(assignments[k], pv)
  {
    pseudo - Used(pseudo, assignments)
  }

  /** The warnings after a function's body: the assignments mark the pseudo
      parameters they mention as used, and each unused one gets one warning,
      in the set's iteration order, which is left open here. */
  method UnusedPseudoWarnings(pseudo: set<string>, assignments: seq<(string, string)>) returns (warnings: seq<string>)
    ensures |warnings| == |Unused(pseudo, assignments)|
    ensures forall pv :: Warning(pv) in warnings <==> pv in Unused(pseudo, assignments)
  {
    var used: set<string> := {};
    for k := 0 to |assignments|
      invariant used == Used(pseudo, assignments[..k])
    {
      var target, value := assignments[k].0, assignments[k].1;
      var rest := pseudo;
      var marked: set<string> := {};
      while rest != {}
        invariant rest <= pseudo
        invariant marked == set pv | pv in pseudo - rest && Mentions(assignments[k], pv)
      {
        var pv :| pv in rest;
        if Contains(target, pv) || Contains(value, pv) {
          marked := marked + {pv};
        }
        rest := rest - {pv};
      }
      UsedSnoc(pseudo, assignments, k);
      used := used + marked;
    }
    assert assignments[..|assignments|] == assignments;
    var unused := pseudo - used;
    warnings := [];
    var rest := unused;
    while rest != {}
      invariant rest <= unused
      invariant |warnings| + |rest| == |unused|
      invariant forall pv :: Warning(pv) in warnings <==> pv in unused - rest
    {
      var pv :| pv in rest;
      forall x | Warning(x) == Warning(pv) ensures x == pv {
        WarningOneToOne(x, pv);
      }
      warnings := warnings + [Warning(pv)];
      rest := rest - {pv};
    }
  }

  lemma UsedSnoc(pseudo: set<string>, assignments: seq<(string, string)>, k: nat)
    requires k < |assignments|
    ensures Used(pseudo, assignments[..k + 1])
      == Used(pseudo, assignments[..k]) + set pv | pv in pseudo && Mentions(assignments[k], pv)
  {
    var a, b := assignments[..k], assignments[..k + 1];
    assert forall j :: 0 <= j < k ==> a[j] == b[j];
    assert b[k] == assignments[k];
  }

  /** A pseudo parameter the assignments never mention is warned about. */
  lemma UnmentionedIsWarned(pseudo: set<string>, assignments: seq<(string, string)>, pv: string)
    requires pv in pseudo && forall k :: 0 <= k < |assignments| ==> !Contains(assignments[k].0, pv) && !Contains(assignments[k].1, pv)
    ensures pv in Unused(pseudo, assignments)
  {
  }
}
