// The C++ generator of the brace-and-struct transpiler: `emit_cpp` in
// archive/dot_transpiler_cpp.py.  The output is a list of lines joined with
// newlines: a fixed prelude, one block per struct, one namespace per set
// holding the functions of that set, and one translated line per
// top-level entry.

module DotCppEmit {
  import opened Wrappers
  import opened PyText
  import opened DotCppTranslate
  import opened DotCppParse

  /** The three lines every output starts with. */
  const Prelude: seq<string> := ["#include <iostream>", "#include <string>", "using namespace std;\n"]

  /** The blocks of the items of `xs`, one after the other. */
  function Blocks<T>(xs: seq<T>, block: T -> seq<string>): seq<string>
    decreases |xs|
  {
    if xs == [] then [] else Blocks(xs[..|xs| - 1], block) + block(xs[|xs| - 1])
  }

  lemma BlocksNext<T>(xs: seq<T>, k: nat, block: T -> seq<string>)
    requires k < |xs|
    ensures Blocks(xs[..k + 1], block) == Blocks(xs[..k], block) + block(xs[k])
  {
    assert xs[..k + 1][..k] == xs[..k];
  }

  lemma BlocksOne<T>(x: T, block: T -> seq<string>)
    ensures Blocks([x], block) == block(x)
  {
    assert [x][..0] == [];
  }

  /** The blocks of two lists are those of the first, then those of the
      second. */
  lemma {:induction false} BlocksAppend<T>(x: seq<T>, y: seq<T>, block: T -> seq<string>)
    ensures Blocks(x + y, block) == Blocks(x, block) + Blocks(y, block)
    decreases |y|
  {
    if y == [] {
      assert x + y == x;
    } else {
      var init := y[..|y| - 1];
      assert (x + y)[..|x + y| - 1] == x + init;
      assert (x + y)[|x + y| - 1] == y[|y| - 1];
      BlocksAppend(x, init, block);
    }
  }

  /** The blocks of `a + [x] + b`: those of `a`, the block of `x`, those
      of `b`. */
  lemma {:induction false} BlocksSplit<T>(xs: seq<T>, c: nat, block: T -> seq<string>)
    requires c < |xs|
    ensures Blocks(xs, block) == Blocks(xs[..c], block) + block(xs[c]) + Blocks(xs[c + 1..], block)
    decreases |xs|
  {
    var init, last := xs[..|xs| - 1], xs[|xs| - 1];
    if c == |xs| - 1 {
      assert xs[c + 1..] == [];
    } else {
      BlocksSplit(init, c, block);
      assert init[..c] == xs[..c] && init[c] == xs[c];
      var back := xs[c + 1..];
      assert back[..|back| - 1] == init[c + 1..] && back[|back| - 1] == last;
    }
  }

  /** An item with an empty block can be dropped. */
  lemma BlocksWithoutEmpty<T>(a: seq<T>, x: T, b: seq<T>, block: T -> seq<string>)
    requires block(x) == []
    ensures Blocks(a + [x] + b, block) == Blocks(a + b, block)
  {
    BlocksAppend(a + [x], b, block);
    BlocksAppend(a, [x], block);
    BlocksOne(x, block);
    BlocksAppend(a, b, block);
  }

  // ---------------------------------------------------------------------
  // Structs

  /** The member declaration of a field: a pointer to its C++ type. */
  function Member(f: (string, string)): string {
    "    " + DotTypeToCpp(f.0) + "* " + f.1 + ";"
  }

  /** The constructor parameter of a field: `T* _name`. */
  function Param(f: (string, string)): string {
    DotTypeToCpp(f.0) + "* _" + f.1
  }

  /** The initialiser of a field from its parameter: `name(_name)`. */
  function Init(f: (string, string)): string {
    f.1 + "(_" + f.1 + ")"
  }

  function Members(fields: seq<(string, string)>): seq<string> {
    seq(|fields|, k requires 0 <= k < |fields| => Member(fields[k]))
  }

  function Params(fields: seq<(string, string)>): seq<string> {
    seq(|fields|, k requires 0 <= k < |fields| => Param(fields[k]))
  }

  function Inits(fields: seq<(string, string)>): seq<string> {
    seq(|fields|, k requires 0 <= k < |fields| => Init(fields[k]))
  }

  /** The line that opens the constructor. */
  function Constructor(s: DotStruct): string {
    "    " + s.name + "(" + Join(", ", Params(s.fields)) + ") : "
  }

  /** The lines after the members: the constructor, its initialiser list,
      the destructor and the closing brace. */
  function StructTail(s: DotStruct): seq<string> {
    [Constructor(s), "        " + Join(", ", Inits(s.fields)) + " {}", "    ~" + s.name + "() {}", "};\n"]
  }

  /** The block of one struct. */
  function StructLines(s: DotStruct): seq<string> {
    ["struct " + s.name + " {"] + Members(s.fields) + StructTail(s)
  }

  /** The blocks of the structs, in the dictionary's order. */
  function StructsLines(structs: seq<DotStruct>): seq<string> {
    Blocks(structs, StructLines)
  }

  // ---------------------------------------------------------------------
  // Functions

  /** `\s*\*?(\w+)` at `i`, the part of the argument pattern after the `_`. */
  function ArgRest(s: string, i: nat): (r: Option<string>)
    ensures r.Some? ==> r.value != []
  {
    if i > |s| then None
    else
      var q := i + Run(s, i, IsSpace);
      var q1 := if q < |s| && s[q] == '*' then q + 1 else q;
      var w := Run(s, q1, IsWordChar);
      if w == 0 then None else Some(s[q1..q1 + w])
  }

  /** `re.match(r"(\w+)_\s*\*?(\w+)", arg)`: an argument's type and name. */
  function ArgMatch(s: string): Option<(string, string)> {
    match BackUnderscore(s, Run(s, 0, IsWordChar), ArgRest)
    case None => None
    case Some((g, n)) => Some((s[..g], n))
  }

  /** The parameter an argument text becomes, if any: blank arguments and
      those that do not match are dropped. */
  function ArgDecl(arg: string): Option<string> {
    if Strip(arg) == [] then None
    else
      match ArgMatch(Strip(arg))
      case None => None
      case Some((t, n)) => Some(DotTypeToCpp(t) + "* " + n)
  }

  // The generator is written for any line translator `tr`; `emit_cpp`
  // uses `translate_line`, see `Emitted`.

  /** The body lines of a function, each translated and indented. */
  function BodyLines(body: seq<string>, tr: string -> string): seq<string>
    decreases |body|
  {
    if body == [] then []
    else BodyLines(body[..|body| - 1], tr) + ["    " + tr(body[|body| - 1])]
  }

  /** The block of one function. */
  function FunctionLines(f: DotFunction, tr: string -> string): seq<string> {
    ["void " + f.name + "(" + Join(", ", Kept(ArgDecl, f.args)) + ") {"] + BodyLines(f.body, tr) + ["}\n"]
  }

  /** What a function adds to the namespace of the set `name`: its block
      when it belongs to that set, nothing otherwise. */
  function InSet(name: string, tr: string -> string): DotFunction -> seq<string> {
    (f: DotFunction) => if f.inSet == Some(name) then FunctionLines(f, tr) else []
  }

  /** The blocks of the functions that belong to the set `name`, in order. */
  function SetFunctions(name: string, functions: seq<DotFunction>, tr: string -> string): seq<string> {
    Blocks(functions, InSet(name, tr))
  }

  /** The namespace of one set. */
  function SetLines(name: string, functions: seq<DotFunction>, tr: string -> string): seq<string> {
    ["namespace " + name + " {"] + SetFunctions(name, functions, tr) + ["} // end namespace\n"]
  }

  /** The namespace a set name gives. */
  function Namespace(functions: seq<DotFunction>, tr: string -> string): string -> seq<string> {
    (name: string) => SetLines(name, functions, tr)
  }

  /** One namespace per entry of the sets list, duplicates included. */
  function SetsLines(sets: seq<string>, functions: seq<DotFunction>, tr: string -> string): seq<string> {
    Blocks(sets, Namespace(functions, tr))
  }

  /** The top-level entries, each translated. */
  function LineTexts(lines: seq<string>, tr: string -> string): seq<string>
    decreases |lines|
  {
    if lines == [] then []
    else LineTexts(lines[..|lines| - 1], tr) + [tr(lines[|lines| - 1])]
  }

  /** The output lines for the translator `tr`. */
  function EmittedWith(p: DotProgram, tr: string -> string): seq<string> {
    Prelude + StructsLines(p.structs) + SetsLines(p.sets, p.functions, tr) + LineTexts(p.lines, tr)
  }

  /** The output lines of `emit_cpp(program)`. */
  function Emitted(p: DotProgram): seq<string> {
    EmittedWith(p, TranslateLine)
  }

  /** `emit_cpp(program)`. */
  function EmitCpp(p: DotProgram): string {
    Join("\n", Emitted(p))
  }

  // ---------------------------------------------------------------------
  // The generator

  lemma MembersNext(fields: seq<(string, string)>, k: nat)
    requires k < |fields|
    ensures Members(fields[..k + 1]) == Members(fields[..k]) + [Member(fields[k])]
  {
  }

  lemma BodyLinesNext(body: seq<string>, k: nat, tr: string -> string)
    requires k < |body|
    ensures BodyLines(body[..k + 1], tr) == BodyLines(body[..k], tr) + ["    " + tr(body[k])]
  {
    assert body[..k + 1][..k] == body[..k];
  }

  lemma LineTextsNext(lines: seq<string>, k: nat, tr: string -> string)
    requires k < |lines|
    ensures LineTexts(lines[..k + 1], tr) == LineTexts(lines[..k], tr) + [tr(lines[k])]
  {
    assert lines[..k + 1][..k] == lines[..k];
  }

  lemma KeptNext<T>(f: string -> Option<T>, xs: seq<string>, k: nat)
    requires k < |xs|
    ensures Kept(f, xs[..k + 1]) == Kept(f, xs[..k]) + (if f(xs[k]).Some? then [f(xs[k]).value] else [])
  {
    assert xs[..k + 1][..k] == xs[..k];
  }

  /** One struct's block, the members appended one by one. */
  method EmitStruct(s: DotStruct) returns (block: seq<string>)
    ensures block == StructLines(s)
  {
    block := ["struct " + s.name + " {"];
    for k := 0 to |s.fields|
      invariant block == ["struct " + s.name + " {"] + Members(s.fields[..k])
    {
      var (dtype, name) := s.fields[k];
      var cppType := DotTypeToCpp(dtype);
      MembersNext(s.fields, k);
      block := block + ["    " + cppType + "* " + name + ";"];
    }
    assert s.fields[..|s.fields|] == s.fields;
    block := block + [Constructor(s)];
    block := block + ["        " + Join(", ", Inits(s.fields)) + " {}"];
    block := block + ["    ~" + s.name + "() {}"];
    block := block + ["};\n"];
  }

  /** The parameters of a function, collected one by one: blank
      arguments are skipped, the others kept when they match. */
  method EmitParams(fargs: seq<string>) returns (args: seq<string>)
    ensures args == Kept(ArgDecl, fargs)
  {
    args := [];
    for k := 0 to |fargs|
      invariant args == Kept(ArgDecl, fargs[..k])
    {
      var arg := fargs[k];
      KeptNext(ArgDecl, fargs, k);
      if Strip(arg) == [] {
        continue;
      }
      var m := ArgMatch(Strip(arg));
      if m.Some? {
        var (dtype, name) := m.value;
        args := args + [DotTypeToCpp(dtype) + "* " + name];
      }
    }
    assert fargs[..|fargs|] == fargs;
  }

  /** One function's block: its parameters, then the body translated line
      by line. */
  method EmitFunction(f: DotFunction, tr: string -> string) returns (block: seq<string>)
    ensures block == FunctionLines(f, tr)
  {
    var args := EmitParams(f.args);
    block := ["void " + f.name + "(" + Join(", ", args) + ") {"];
    for k := 0 to |f.body|
      invariant block == ["void " + f.name + "(" + Join(", ", args) + ") {"] + BodyLines(f.body[..k], tr)
    {
      BodyLinesNext(f.body, k, tr);
      block := block + ["    " + tr(f.body[k])];
    }
    assert f.body[..|f.body|] == f.body;
    block := block + ["}\n"];
  }

  lemma StructsNext(structs: seq<DotStruct>, a: nat)
    requires a < |structs|
    ensures StructsLines(structs[..a + 1]) == StructsLines(structs[..a]) + StructLines(structs[a])
  {
    BlocksNext(structs, a, StructLines);
  }

  lemma SetFunctionsIn(name: string, functions: seq<DotFunction>, c: nat, tr: string -> string, block: seq<string>)
    requires c < |functions| && functions[c].inSet == Some(name) && block == FunctionLines(functions[c], tr)
    ensures SetFunctions(name, functions[..c + 1], tr) == SetFunctions(name, functions[..c], tr) + block
  {
    BlocksNext(functions, c, InSet(name, tr));
  }

  lemma SetFunctionsOut(name: string, functions: seq<DotFunction>, c: nat, tr: string -> string)
    requires c < |functions| && functions[c].inSet != Some(name)
    ensures SetFunctions(name, functions[..c + 1], tr) == SetFunctions(name, functions[..c], tr)
  {
    BlocksNext(functions, c, InSet(name, tr));
  }

  lemma SetsNext(sets: seq<string>, functions: seq<DotFunction>, b: nat, tr: string -> string)
    requires b < |sets|
    ensures SetsLines(sets[..b + 1], functions, tr) == SetsLines(sets[..b], functions, tr) + SetLines(sets[b], functions, tr)
  {
    BlocksNext(sets, b, Namespace(functions, tr));
  }

  lemma Regroup(a: seq<string>, b: seq<string>, c: seq<string>)
    ensures a + b + c == a + (b + c)
  {
  }

  /** The namespace of one set: the functions of that set, in order. */
  method EmitNamespace(setname: string, functions: seq<DotFunction>, tr: string -> string) returns (block: seq<string>)
    ensures block == SetLines(setname, functions, tr)
  {
    block := ["namespace " + setname + " {"];
    for c := 0 to |functions|
      invariant block == ["namespace " + setname + " {"] + SetFunctions(setname, functions[..c], tr)
    {
      var func := functions[c];
      if func.inSet == Some(setname) {
        var lines := EmitFunction(func, tr);
        SetFunctionsIn(setname, functions, c, tr, lines);
        Regroup(["namespace " + setname + " {"], SetFunctions(setname, functions[..c], tr), lines);
        block := block + lines;
      } else {
        SetFunctionsOut(setname, functions, c, tr);
      }
    }
    assert functions[..|functions|] == functions;
    block := block + ["} // end namespace\n"];
  }

  /** The blocks of all structs, in order. */
  method EmitStructs(structs: seq<DotStruct>) returns (output: seq<string>)
    ensures output == StructsLines(structs)
  {
    output := [];
    for a := 0 to |structs|
      invariant output == StructsLines(structs[..a])
    {
      var block := EmitStruct(structs[a]);
      StructsNext(structs, a);
      output := output + block;
    }
    assert structs[..|structs|] == structs;
  }

  /** The namespaces of all sets, in order. */
  method EmitSets(sets: seq<string>, functions: seq<DotFunction>, tr: string -> string) returns (output: seq<string>)
    ensures output == SetsLines(sets, functions, tr)
  {
    output := [];
    for b := 0 to |sets|
      invariant output == SetsLines(sets[..b], functions, tr)
    {
      var block := EmitNamespace(sets[b], functions, tr);
      SetsNext(sets, functions, b, tr);
      output := output + block;
    }
    assert sets[..|sets|] == sets;
  }

  /** The loops of `emit_cpp` for the translator `tr`: the prelude, the
      structs, the namespaces of the sets with their functions, and the
      top-level lines, joined with newlines. */
  method EmitWith(program: DotProgram, tr: string -> string) returns (text: string)
    ensures text == Join("\n", EmittedWith(program, tr))
  {
    var structs := EmitStructs(program.structs);
    var namespaces := EmitSets(program.sets, program.functions, tr);
    var output := Prelude + structs + namespaces;
    ghost var body := output;
    for d := 0 to |program.lines|
      invariant output == body + LineTexts(program.lines[..d], tr)
    {
      LineTextsNext(program.lines, d, tr);
      output := output + [tr(program.lines[d])];
    }
    assert program.lines[..|program.lines|] == program.lines;
    text := Join("\n", output);
  }

  /** `emit_cpp(program)`. */
  method EmitProgram(program: DotProgram) returns (text: string)
    ensures text == EmitCpp(program)
  {
    text := EmitWith(program, TranslateLine);
  }

  // ---------------------------------------------------------------------
  // What the output holds

  /** `x` occurs in `y` at `i`. */
  predicate OccursAt(x: seq<string>, y: seq<string>, i: int) {
    0 <= i <= |y| - |x| && y[i..i + |x|] == x
  }

  /** `x` occurs in `y` as a contiguous block. */
  ghost predicate Infix(x: seq<string>, y: seq<string>) {
    exists i :: OccursAt(x, y, i)
  }

  lemma InfixMiddle(a: seq<string>, x: seq<string>, b: seq<string>)
    ensures Infix(x, a + x + b)
  {
    assert (a + x + b)[|a|..|a| + |x|] == x;
    assert OccursAt(x, a + x + b, |a|);
  }

  /** A struct's block: its opening line, one pointer member per field in
      field order, the constructor taking one `_`-prefixed pointer per
      field in field order and initialising each field from it, an empty
      destructor, and the closing brace. */
  lemma StructShape(s: DotStruct)
    ensures |StructLines(s)| == |s.fields| + 5
    ensures StructLines(s)[0] == "struct " + s.name + " {"
    ensures forall k :: 0 <= k < |s.fields| ==>
      StructLines(s)[k + 1] == "    " + DotTypeToCpp(s.fields[k].0) + "* " + s.fields[k].1 + ";"
    ensures StructLines(s)[|s.fields| + 1] == "    " + s.name + "(" + Join(", ", Params(s.fields)) + ") : "
    ensures |Params(s.fields)| == |s.fields|
    ensures forall k :: 0 <= k < |s.fields| ==> Params(s.fields)[k] == DotTypeToCpp(s.fields[k].0) + "* _" + s.fields[k].1
    ensures StructLines(s)[|s.fields| + 2] == "        " + Join(", ", Inits(s.fields)) + " {}"
    ensures |Inits(s.fields)| == |s.fields|
    ensures forall k :: 0 <= k < |s.fields| ==> Inits(s.fields)[k] == s.fields[k].1 + "(_" + s.fields[k].1 + ")"
    ensures StructLines(s)[|s.fields| + 3] == "    ~" + s.name + "() {}"
    ensures StructLines(s)[|s.fields| + 4] == "};\n"
  {
    var head := ["struct " + s.name + " {"] + Members(s.fields);
    assert StructLines(s) == head + StructTail(s);
    forall k | 0 <= k < |s.fields|
      ensures StructLines(s)[k + 1] == "    " + DotTypeToCpp(s.fields[k].0) + "* " + s.fields[k].1 + ";"
    {
      assert StructLines(s)[k + 1] == head[k + 1] == Members(s.fields)[k];
    }
  }

  /** The body lines hold each body entry, translated and indented, in
      order. */
  lemma {:induction false} BodyLinesIndex(body: seq<string>, tr: string -> string)
    ensures |BodyLines(body, tr)| == |body|
    ensures forall k :: 0 <= k < |body| ==> BodyLines(body, tr)[k] == "    " + tr(body[k])
    decreases |body|
  {
    if body != [] {
      var init := body[..|body| - 1];
      BodyLinesIndex(init, tr);
      assert forall k :: 0 <= k < |init| ==> init[k] == body[k];
    }
  }

  /** A function's block: its signature, one indented translated line per
      body entry in order, and the closing brace. */
  lemma FunctionShape(f: DotFunction, tr: string -> string)
    ensures |FunctionLines(f, tr)| == |f.body| + 2
    ensures FunctionLines(f, tr)[0] == "void " + f.name + "(" + Join(", ", Kept(ArgDecl, f.args)) + ") {"
    ensures forall k :: 0 <= k < |f.body| ==> FunctionLines(f, tr)[k + 1] == "    " + tr(f.body[k])
    ensures FunctionLines(f, tr)[|f.body| + 1] == "}\n"
  {
    BodyLinesIndex(f.body, tr);
    var head := ["void " + f.name + "(" + Join(", ", Kept(ArgDecl, f.args)) + ") {"];
    forall k | 0 <= k < |f.body| ensures FunctionLines(f, tr)[k + 1] == "    " + tr(f.body[k]) {
      assert FunctionLines(f, tr)[k + 1] == (head + BodyLines(f.body, tr))[k + 1];
    }
  }

  /** A body opens with the `{` entry, which no rule of `translate_line`
      matches: every emitted function starts with an untranslated brace. */
  lemma OpenBraceLine(f: DotFunction)
    requires f.body != [] && f.body[0] == "{"
    ensures FunctionLines(f, TranslateLine)[1] == "    // [UNTRANSLATED] {"
  {
    var b := f.body[0];
    TranslateUntranslated(b);
    FirstBodyLine(f, TranslateLine, "// [UNTRANSLATED] " + b);
    BraceText(b);
  }

  lemma BraceText(b: string)
    requires b == "{"
    ensures "    " + ("// [UNTRANSLATED] " + b) == "    // [UNTRANSLATED] {"
  {
  }

  lemma FirstBodyLine(f: DotFunction, tr: string -> string, u: string)
    requires f.body != [] && tr(f.body[0]) == u
    ensures FunctionLines(f, tr)[1] == "    " + u
  {
    FunctionShape(f, tr);
  }

  /** A blank argument gives no parameter. */
  lemma ArgDeclBlank(arg: string)
    requires Blank(arg)
    ensures ArgDecl(arg) == None
  {
    StripEmpty(arg);
  }

  /** `T_*n`, with `T` and `n` words: the type before the `_`, the name
      after the `*`. */
  lemma ArgDeclPointer(t: string, n: string)
    requires t != [] && n != []
    requires forall k :: 0 <= k < |t| ==> IsWordChar(t[k])
    requires forall k :: 0 <= k < |n| ==> IsWordChar(n[k])
    ensures ArgDecl(t + "_*" + n) == Some(DotTypeToCpp(t) + "* " + n)
  {
    var s := t + "_*" + n;
    PointerArgStripped(t, n);
    ArgMatchPointer(t, n);
    assert ArgMatch(Strip(s)) == Some((t, n));
  }

  lemma PointerArgStripped(t: string, n: string)
    requires t != [] && n != []
    requires IsWordChar(t[0]) && IsWordChar(n[|n| - 1])
    ensures Strip(t + "_*" + n) == t + "_*" + n
  {
    var s := t + "_*" + n;
    WordNotSpace(t[0]);
    WordNotSpace(n[|n| - 1]);
    assert s[0] == t[0] && s[|s| - 1] == n[|n| - 1];
    StripKeeps(s);
  }

  lemma ArgMatchPointer(t: string, n: string)
    requires t != [] && n != []
    requires forall k :: 0 <= k < |t| ==> IsWordChar(t[k])
    requires forall k :: 0 <= k < |n| ==> IsWordChar(n[k])
    ensures ArgMatch(t + "_*" + n) == Some((t, n))
  {
    var s := t + "_*" + n;
    WordRunBeforeStar(t, n);
    PointerRest(t, n);
    BackUnderscoreLast(s, |t| + 1, ArgRest);
    assert s[..|t|] == t;
  }

  lemma WordRunBeforeStar(t: string, n: string)
    requires forall k :: 0 <= k < |t| ==> IsWordChar(t[k])
    ensures Run(t + "_*" + n, 0, IsWordChar) == |t| + 1
  {
    var s := t + "_*" + n;
    assert s[..|t| + 1] == t + "_";
    assert s[|t| + 1] == '*';
    RunOfSlice(s, 0, t + "_", IsWordChar);
  }

  lemma PointerRest(t: string, n: string)
    requires n != []
    requires forall k :: 0 <= k < |n| ==> IsWordChar(n[k])
    ensures t + "_*" + n != [] && (t + "_*" + n)[|t|] == '_'
    ensures ArgRest(t + "_*" + n, |t| + 1) == Some(n)
  {
    var s := t + "_*" + n;
    assert s[|t|] == '_';
    assert s[|t| + 1] == '*';
    assert Run(s, |t| + 1, IsSpace) == 0;
    assert s[|t| + 2..] == n;
    RunOfSlice(s, |t| + 2, n, IsWordChar);
  }

  /** The namespace of a set holds the block of every function of that
      set, in the order of the functions, and nothing else. */
  lemma FunctionInNamespace(name: string, functions: seq<DotFunction>, c: nat, tr: string -> string)
    requires c < |functions| && functions[c].inSet == Some(name)
    ensures SetFunctions(name, functions, tr)
      == SetFunctions(name, functions[..c], tr) + FunctionLines(functions[c], tr) + SetFunctions(name, functions[c + 1..], tr)
  {
    BlocksSplit(functions, c, InSet(name, tr));
  }

  /** Removing a function of another set leaves a namespace unchanged. */
  lemma NamespaceWithout(name: string, a: seq<DotFunction>, f: DotFunction, b: seq<DotFunction>, tr: string -> string)
    requires f.inSet != Some(name)
    ensures SetLines(name, a + [f] + b, tr) == SetLines(name, a + b, tr)
  {
    BlocksWithoutEmpty(a, f, b, InSet(name, tr));
  }

  lemma {:induction false} NamespacesWithout(sets: seq<string>, a: seq<DotFunction>, f: DotFunction, b: seq<DotFunction>, tr: string -> string)
    requires f.inSet.None? || f.inSet.value !in sets
    ensures SetsLines(sets, a + [f] + b, tr) == SetsLines(sets, a + b, tr)
    decreases |sets|
  {
    if sets != [] {
      var init := sets[..|sets| - 1];
      assert f.inSet.None? || f.inSet.value !in init by {
        assert forall x :: x in init ==> x in sets;
      }
      NamespacesWithout(init, a, f, b, tr);
      NamespaceWithout(sets[|sets| - 1], a, f, b, tr);
      BlocksNext(sets, |sets| - 1, Namespace(a + [f] + b, tr));
      BlocksNext(sets, |sets| - 1, Namespace(a + b, tr));
      assert sets[..|sets| - 1 + 1] == sets;
    }
  }

  /** A function whose set is not among the program's sets, or that has
      no set, is never emitted: the output is that of the program
      without it. */
  lemma UnsetFunctionNotEmitted(p: DotProgram, a: seq<DotFunction>, f: DotFunction, b: seq<DotFunction>)
    requires p.functions == a + [f] + b
    requires f.inSet.None? || f.inSet.value !in p.sets
    ensures Emitted(p) == Emitted(p.(functions := a + b))
  {
    NamespacesWithout(p.sets, a, f, b, TranslateLine);
  }

  lemma InfixInner(x: seq<string>, a: seq<string>, b1: seq<string>, b2: seq<string>, c: seq<string>)
    ensures Infix(x, a + (b1 + x + b2) + c)
  {
    InfixMiddle(a + b1, x, b2 + c);
    assert a + (b1 + x + b2) + c == (a + b1) + x + (b2 + c);
  }

  lemma InfixSecond(x: seq<string>, a: seq<string>, b1: seq<string>, b2: seq<string>, c: seq<string>, d: seq<string>)
    ensures Infix(x, a + (b1 + x + b2) + c + d)
  {
    InfixMiddle(a + b1, x, b2 + c + d);
    assert a + (b1 + x + b2) + c + d == (a + b1) + x + (b2 + c + d);
  }

  lemma InfixThird(x: seq<string>, a: seq<string>, b: seq<string>, c1: seq<string>, c2: seq<string>, d: seq<string>)
    ensures Infix(x, a + b + (c1 + x + c2) + d)
  {
    InfixMiddle(a + b + c1, x, c2 + d);
    assert a + b + (c1 + x + c2) + d == (a + b + c1) + x + (c2 + d);
  }

  /** A function of a listed set is emitted, as one block, inside that
      set's namespace, and the namespace is part of the output. */
  lemma FunctionEmitted(p: DotProgram, b: nat, c: nat, tr: string -> string)
    requires b < |p.sets| && c < |p.functions| && p.functions[c].inSet == Some(p.sets[b])
    ensures Infix(FunctionLines(p.functions[c], tr), SetLines(p.sets[b], p.functions, tr))
    ensures Infix(SetLines(p.sets[b], p.functions, tr), EmittedWith(p, tr))
  {
    var name := p.sets[b];
    FunctionInNamespace(name, p.functions, c, tr);
    InfixInner(FunctionLines(p.functions[c], tr), ["namespace " + name + " {"], SetFunctions(name, p.functions[..c], tr),
      SetFunctions(name, p.functions[c + 1..], tr), ["} // end namespace\n"]);
    NamespaceInOutput(p, b, tr);
  }

  lemma NamespaceInOutput(p: DotProgram, b: nat, tr: string -> string)
    requires b < |p.sets|
    ensures Infix(SetLines(p.sets[b], p.functions, tr), EmittedWith(p, tr))
  {
    BlocksSplit(p.sets, b, Namespace(p.functions, tr));
    InfixThird(SetLines(p.sets[b], p.functions, tr), Prelude, StructsLines(p.structs), SetsLines(p.sets[..b], p.functions, tr),
      SetsLines(p.sets[b + 1..], p.functions, tr), LineTexts(p.lines, tr));
  }

  /** Every struct's block is part of the output. */
  lemma StructEmitted(p: DotProgram, a: nat, tr: string -> string)
    requires a < |p.structs|
    ensures Infix(StructLines(p.structs[a]), EmittedWith(p, tr))
  {
    BlocksSplit(p.structs, a, StructLines);
    InfixSecond(StructLines(p.structs[a]), Prelude, StructsLines(p.structs[..a]), StructsLines(p.structs[a + 1..]),
      SetsLines(p.sets, p.functions, tr), LineTexts(p.lines, tr));
  }

  /** The top-level entries, each translated. */
  lemma {:induction false} LineTextsIndex(lines: seq<string>, tr: string -> string)
    ensures |LineTexts(lines, tr)| == |lines|
    ensures forall k :: 0 <= k < |lines| ==> LineTexts(lines, tr)[k] == tr(lines[k])
    decreases |lines|
  {
    if lines != [] {
      var init := lines[..|lines| - 1];
      LineTextsIndex(init, tr);
      assert forall k :: 0 <= k < |init| ==> init[k] == lines[k];
    }
  }

  /** The output ends with the top-level entries, translated, in order. */
  lemma TopLevelTail(p: DotProgram, tr: string -> string)
    ensures |EmittedWith(p, tr)| >= |p.lines|
    ensures forall k :: 0 <= k < |p.lines| ==>
      EmittedWith(p, tr)[|EmittedWith(p, tr)| - |p.lines| + k] == tr(p.lines[k])
  {
    LineTextsIndex(p.lines, tr);
    var head := Prelude + StructsLines(p.structs) + SetsLines(p.sets, p.functions, tr);
    assert EmittedWith(p, tr) == head + LineTexts(p.lines, tr);
  }

  /** The output starts with the prelude. */
  lemma PreludeFirst(p: DotProgram, tr: string -> string)
    ensures EmittedWith(p, tr)[..3] == Prelude
  {
    var rest := StructsLines(p.structs) + SetsLines(p.sets, p.functions, tr) + LineTexts(p.lines, tr);
    assert EmittedWith(p, tr) == Prelude + rest;
    TakeFront(Prelude, rest);
  }

  lemma TakeFront(a: seq<string>, b: seq<string>)
    ensures (a + b)[..|a|] == a
  {
  }
}
