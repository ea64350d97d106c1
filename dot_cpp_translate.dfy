/**
 * The per-line translator of archive/dot_transpiler_cpp.py.
 * `translate_line` tries eight patterns with `re.match`, in a fixed
 * order, and the first that matches decides the C++ line; a line that none
 * matches is kept behind a comment marker.  The recognisers for the field
 * and argument patterns the parser and the emitter use live here too.
 *
 * A pattern that starts with `(\w+)_` backtracks: `\w` covers `_`, so the
 * greedy word run swallows the underscore and gives characters back one at
 * a time until an `_` follows the group and the rest of the pattern matches.
 */
module DotCppTranslate {
  import opened Wrappers
  import opened PyText

  /** The type names `dot_type_to_cpp` knows. */
  const TypeTable: map<string, string> := map[
    "i" := "int", "f" := "float", "d" := "double", "s" := "string", "c" := "char"]

  /** `dot_type_to_cpp(dtype)`: the C++ name of a known type letter; any
      other name is kept as it is. */
  function DotTypeToCpp(dtype: string): (r: string)
    ensures dtype in TypeTable ==> r == TypeTable[dtype]
    ensures dtype !in TypeTable ==> r == dtype
    ensures r !in TypeTable
  {
    if dtype in TypeTable then TypeTable[dtype] else dtype
  }

  /** Translating a type name twice is translating it once. */
  lemma DotTypeIdempotent(dtype: string)
    ensures DotTypeToCpp(DotTypeToCpp(dtype)) == DotTypeToCpp(dtype)
  {
  }

  /** Distinct known letters give distinct C++ names. */
  lemma DotTypeTableOneToOne(a: string, b: string)
    requires a in TypeTable && b in TypeTable && a != b
    ensures DotTypeToCpp(a) != DotTypeToCpp(b)
  {
  }

  // ---------------------------------------------------------------------
  // Shared pieces of the patterns

  /** `.`: any character but a newline. */
  predicate NotNewline(c: char) { c != '\n' }

  /** `(\w+)_` followed by `rest`, at the start of `s`, with `l` the length
      of the greedy word run: the group has `g` characters for the largest
      `g < l` with `s[g] == '_'` after which `rest` matches. */
  function BackUnderscore<T>(s: string, l: nat, rest: (string, nat) -> Option<T>): (r: Option<(nat, T)>)
    requires l <= |s|
    ensures r.Some? ==> 0 < r.value.0 < l && s[r.value.0] == '_' && rest(s, r.value.0 + 1) == Some(r.value.1)
    decreases l
  {
    if l <= 1 then None
    else if s[l - 1] == '_' && rest(s, l).Some? then Some((l - 1, rest(s, l).value))
    else BackUnderscore(s, l - 1, rest)
  }

  /** The match fails when `rest` fails after every `_` inside the run. */
  lemma {:induction false} BackUnderscoreNone<T>(s: string, l: nat, rest: (string, nat) -> Option<T>)
    requires l <= |s|
    requires forall g :: 0 < g < l && s[g] == '_' ==> rest(s, g + 1).None?
    ensures BackUnderscore(s, l, rest).None?
    decreases l
  {
    if l > 1 {
      BackUnderscoreNone(s, l - 1, rest);
    }
  }

  /** The match takes the last `_` of the run when `rest` matches after it. */
  lemma BackUnderscoreLast<T>(s: string, l: nat, rest: (string, nat) -> Option<T>)
    requires 2 <= l <= |s| && s[l - 1] == '_' && rest(s, l).Some?
    ensures BackUnderscore(s, l, rest) == Some((l - 1, rest(s, l).value))
  {
  }

  /** `\s*(.+)` at `i`: when the greedy blanks leave nothing for `.+` (the
      text ends, or a newline follows), the blanks give characters back,
      from the last, until one that is not a newline can start `.+`. */
  function ValueFrom(s: string, i: nat): (r: Option<string>)
    requires i <= |s|
    ensures r.Some? ==> r.value != [] && '\n' !in r.value
  {
    match ValueStart(s, i, i + Run(s, i, IsSpace))
    case None => None
    case Some(u) =>
      var n := Run(s, u, NotNewline);
      RunAll(s, u, NotNewline);
      Some(s[u..u + n])
  }

  /** The last position `u` with `lo <= u <= hi` at which `.` matches. */
  function ValueStart(s: string, lo: nat, hi: nat): (r: Option<nat>)
    requires lo <= hi <= |s|
    ensures r.Some? ==> lo <= r.value <= hi && r.value < |s| && s[r.value] != '\n'
    decreases hi - lo
  {
    if hi < |s| && s[hi] != '\n' then Some(hi)
    else if hi == lo then None
    else ValueStart(s, lo, hi - 1)
  }

  // ---------------------------------------------------------------------
  // The eight patterns

  /** What a line matched, with its groups. */
  datatype LineMatch =
    | Init(dtype: string, name: string, value: string, heap: bool)
    | Alloc(dtype: string, name: string)
    | PrintField(obj: string, field: string)
    | PrintValue(name: string)
    | Delete(name: string)
    | FieldAssign(obj: string, field: string, value: string)
    | Construct(typename: string, name: string, args: string)
    | SetCall(setname: string, fname: string, args: string)
    | Untranslated

  /** `\s*=\s*(.+)` at `i`: the value after the equals sign. */
  function AssignValue(s: string, i: nat): (r: Option<string>)
    requires i <= |s|
  {
    var a := i + Run(s, i, IsSpace);
    if a < |s| && s[a] == '=' then ValueFrom(s, a + 1) else None
  }

  /** `\s*'?(\w+)` at `i`: where the name lies. */
  function InitName(s: string, i: nat): (r: Option<(nat, nat)>)
    requires i <= |s|
    ensures r.Some? ==> i <= r.value.0 < r.value.1 <= |s|
  {
    var q := i + Run(s, i, IsSpace);
    var n0 := if q < |s| && s[q] == '\'' then q + 1 else q;
    var w := Run(s, n0, IsWordChar);
    if w == 0 then None else Some((n0, n0 + w))
  }

  /** `"?\s*=\s*(.+)` at `p` */
  function InitValue(s: string, p: nat): (r: Option<string>)
    requires p <= |s|
  {
    AssignValue(s, if p < |s| && s[p] == '"' then p + 1 else p)
  }

  /** `\s*'?(\w+)"?\s*=\s*(.+)`, the part of the first pattern after the `_`. */
  function InitRest(s: string, i: nat): (r: Option<(string, string)>) {
    if i > |s| then None
    else
      match InitName(s, i)
      case None => None
      case Some((n0, p)) =>
        match InitValue(s, p)
        case None => None
        case Some(v) => Some((s[n0..p], v))
  }

  /** `(\w+)_\s*'?(\w+)"?\s*=\s*(.+)`: a variable with an initial value; it
      lives on the heap when the line holds a `'` anywhere. */
  function InitMatch(s: string): (r: Option<LineMatch>)
    ensures r.Some? ==> r.value.Init? && r.value.heap == ('\'' in s)
  {
    match BackUnderscore(s, Run(s, 0, IsWordChar), InitRest)
    case None => None
    case Some((g, nv)) => Some(Init(s[..g], nv.0, nv.1, '\'' in s))
  }

  /** `(\w+)~\s*'(\w+)` */
  function AllocMatch(s: string): (r: Option<LineMatch>)
    ensures r.Some? ==> r.value.Alloc?
  {
    var l := Run(s, 0, IsWordChar);
    if l == 0 || l >= |s| || s[l] != '~' then None
    else
      var q := l + 1 + Run(s, l + 1, IsSpace);
      if q >= |s| || s[q] != '\'' then None
      else
        var w := Run(s, q + 1, IsWordChar);
        if w == 0 then None else Some(Alloc(s[..l], s[q + 1..q + 1 + w]))
  }

  /** `(\w+)"(\w+)` */
  function PrintFieldMatch(s: string): (r: Option<LineMatch>)
    ensures r.Some? ==> r.value.PrintField?
  {
    var l := Run(s, 0, IsWordChar);
    if l == 0 || l >= |s| || s[l] != '"' then None
    else
      var w := Run(s, l + 1, IsWordChar);
      if w == 0 then None else Some(PrintField(s[..l], s[l + 1..l + 1 + w]))
  }

  /** `(\w+)"` */
  function PrintValueMatch(s: string): (r: Option<LineMatch>)
    ensures r.Some? ==> r.value.PrintValue?
  {
    var l := Run(s, 0, IsWordChar);
    if l == 0 || l >= |s| || s[l] != '"' then None else Some(PrintValue(s[..l]))
  }

  /** `'(\w+)$`: `$` matches at the end and before a final newline. */
  function DeleteMatch(s: string): (r: Option<LineMatch>)
    ensures r.Some? ==> r.value.Delete?
  {
    if s == [] || s[0] != '\'' then None
    else
      var w := Run(s, 1, IsWordChar);
      if w > 0 && (1 + w == |s| || (2 + w == |s| && s[1 + w] == '\n')) then Some(Delete(s[1..1 + w]))
      else None
  }

  /** `(\w+)\.(\w+)` at the start: the end of the second word, when there
      is one. */
  function Dotted(s: string): (r: Option<nat>)
    ensures r.Some? ==> var l := Run(s, 0, IsWordChar); 0 < l < r.value - 1 && r.value <= |s| && s[l] == '.'
  {
    var l := Run(s, 0, IsWordChar);
    if l == 0 || l >= |s| || s[l] != '.' then None
    else
      var w := Run(s, l + 1, IsWordChar);
      if w == 0 then None else Some(l + 1 + w)
  }

  /** `(\w+)\.(\w+)"\s*=\s*(.+)` */
  function FieldAssignMatch(s: string): (r: Option<LineMatch>)
    ensures r.Some? ==> r.value.FieldAssign?
  {
    match Dotted(s)
    case None => None
    case Some(e) =>
      var l := Run(s, 0, IsWordChar);
      if e >= |s| || s[e] != '"' then None
      else
        match AssignValue(s, e + 1)
        case None => None
        case Some(v) => Some(FieldAssign(s[..l], s[l + 1..e], v))
  }

  /** `\s*'(\w+)\((.*?)\)`, the part of the constructor pattern after the `_`. */
  function ConstructRest(s: string, i: nat): (r: Option<(string, string)>) {
    if i > |s| then None
    else
      var q := i + Run(s, i, IsSpace);
      if q >= |s| || s[q] != '\'' then None
      else
        var w := Run(s, q + 1, IsWordChar);
        var p := q + 1 + w;
        if w == 0 || p >= |s| || s[p] != '(' then None
        else
          match LazyEnd(s, p + 1, CloseAt)
          case None => None
          case Some(j) => Some((s[q + 1..p], s[p + 1..j]))
  }

  /** `(\w+)_\s*'(\w+)\((.*?)\)`: a struct instance built by its constructor. */
  function ConstructMatch(s: string): (r: Option<LineMatch>)
    ensures r.Some? ==> r.value.Construct?
  {
    match BackUnderscore(s, Run(s, 0, IsWordChar), ConstructRest)
    case None => None
    case Some((g, na)) => Some(Construct(s[..g], na.0, na.1))
  }

  /** `(\w+)\.(\w+)\((.*?)\)`: a call of a set's function. */
  function SetCallMatch(s: string): (r: Option<LineMatch>)
    ensures r.Some? ==> r.value.SetCall?
  {
    match Dotted(s)
    case None => None
    case Some(e) =>
      var l := Run(s, 0, IsWordChar);
      if e >= |s| || s[e] != '(' then None
      else
        match LazyEnd(s, e + 1, CloseAt)
        case None => None
        case Some(j) => Some(SetCall(s[..l], s[l + 1..e], s[e + 1..j]))
  }

  /** The patterns in the order `translate_line` tries them. */
  function Classify(s: string): LineMatch {
    if InitMatch(s).Some? then InitMatch(s).value
    else if AllocMatch(s).Some? then AllocMatch(s).value
    else if PrintFieldMatch(s).Some? then PrintFieldMatch(s).value
    else if PrintValueMatch(s).Some? then PrintValueMatch(s).value
    else if DeleteMatch(s).Some? then DeleteMatch(s).value
    else if FieldAssignMatch(s).Some? then FieldAssignMatch(s).value
    else if ConstructMatch(s).Some? then ConstructMatch(s).value
    else if SetCallMatch(s).Some? then SetCallMatch(s).value
    else Untranslated
  }

  /** The first pattern wins whenever it matches. */
  lemma ClassifyFirst(s: string)
    requires InitMatch(s).Some?
    ensures Classify(s) == InitMatch(s).value
  {
  }

  lemma ClassifySecond(s: string)
    requires InitMatch(s).None? && AllocMatch(s).Some?
    ensures Classify(s) == AllocMatch(s).value
  {
  }

  lemma ClassifyThird(s: string)
    requires InitMatch(s).None? && AllocMatch(s).None? && PrintFieldMatch(s).Some?
    ensures Classify(s) == PrintFieldMatch(s).value
  {
  }

  lemma ClassifyFourth(s: string)
    requires InitMatch(s).None? && AllocMatch(s).None? && PrintFieldMatch(s).None? && PrintValueMatch(s).Some?
    ensures Classify(s) == PrintValueMatch(s).value
  {
  }

  lemma ClassifySixth(s: string)
    requires InitMatch(s).None? && AllocMatch(s).None? && PrintFieldMatch(s).None? && PrintValueMatch(s).None?
    requires DeleteMatch(s).None? && FieldAssignMatch(s).Some?
    ensures Classify(s) == FieldAssignMatch(s).value
  {
  }

  /** A line that only the seventh pattern takes is a constructor call. */
  lemma ClassifySeventh(s: string)
    requires InitMatch(s).None? && AllocMatch(s).None? && PrintFieldMatch(s).None? && PrintValueMatch(s).None?
    requires DeleteMatch(s).None? && FieldAssignMatch(s).None? && ConstructMatch(s).Some?
    ensures Classify(s) == ConstructMatch(s).value
  {
  }

  /** A line that only the last pattern takes is a set call. */
  lemma ClassifyLast(s: string)
    requires InitMatch(s).None? && AllocMatch(s).None? && PrintFieldMatch(s).None? && PrintValueMatch(s).None?
    requires DeleteMatch(s).None? && FieldAssignMatch(s).None? && ConstructMatch(s).None? && SetCallMatch(s).Some?
    ensures Classify(s) == SetCallMatch(s).value
  {
  }

  /** One argument piece: kept when it is not blank, with `'` written `&`. */
  function ArgPiece(a: string): Option<string> {
    if Strip(a) != [] then Some(Strip(ReplaceChar(a, '\'', "&"))) else None
  }

  /** The arguments of a call or a constructor, from the text between the
      parentheses. */
  function CallArgs(args: string): seq<string> {
    Kept(ArgPiece, SplitOn(args, ','))
  }

  /** The C++ line for what a line matched. */
  function Render(m: LineMatch, line: string): string {
    match m
    case Init(t, n, v, heap) =>
      if heap then DotTypeToCpp(t) + "* " + n + " = new " + DotTypeToCpp(t) + "(" + v + ");"
      else DotTypeToCpp(t) + " " + n + " = " + v + ";"
    case Alloc(t, n) => DotTypeToCpp(t) + "* " + n + " = new " + DotTypeToCpp(t) + ";"
    case PrintField(o, f) => "cout << *(" + o + "." + f + ") << endl;"
    case PrintValue(v) => "cout << *" + v + " << endl;"
    case Delete(n) => "delete " + n + ";"
    case FieldAssign(o, f, v) => "*(" + o + "." + f + ") = " + v + ";"
    case Construct(t, v, a) => t + " " + v + "(" + Join(", ", CallArgs(a)) + ");"
    case SetCall(setname, f, a) => setname + "::" + f + "(" + Join(", ", CallArgs(a)) + ");"
    case Untranslated => "// [UNTRANSLATED] " + line
  }

  /** `translate_line(line)` */
  function TranslateLine(line: string): string {
    Render(Classify(line), line)
  }

  // ---------------------------------------------------------------------
  // Which pattern a line takes

  /** A line that starts with neither a word character nor `'` matches no
      pattern and is kept behind the comment marker. */
  lemma TranslateUntranslated(s: string)
    requires s == [] || (!IsWordChar(s[0]) && s[0] != '\'')
    ensures TranslateLine(s) == "// [UNTRANSLATED] " + s
  {
    assert Run(s, 0, IsWordChar) == 0;
  }

  /** `'x`, with `x` a word, deletes `x`. */
  lemma TranslateDelete(x: string)
    requires x != [] && forall k :: 0 <= k < |x| ==> IsWordChar(x[k])
    ensures TranslateLine("'" + x) == "delete " + x + ";"
  {
    var s := "'" + x;
    assert Run(s, 0, IsWordChar) == 0;
    assert s[1..1 + |x|] == x;
    RunOfSlice(s, 1, x, IsWordChar);
    assert DeleteMatch(s) == Some(Delete(x));
  }

  /** After the first word of the line the first pattern cannot go on: the
      character there is no blank and no `'`, and no `"` followed by `=`
      comes next. */
  predicate NoInitAfter(s: string, l: nat)
    requires l < |s|
  {
    !IsSpace(s[l]) && s[l] != '\'' && InitValue(s, l).None?
  }

  /** The first pattern fails at every `_` of such a first word. */
  lemma InitNone(s: string, l: nat)
    requires l == Run(s, 0, IsWordChar) < |s| && NoInitAfter(s, l)
    ensures InitMatch(s).None?
  {
    forall g | 0 < g < l && s[g] == '_' ensures InitRest(s, g + 1).None? {
      InitRestStops(s, l, g);
    }
    BackUnderscoreNone(s, l, InitRest);
  }

  lemma InitRestStops(s: string, l: nat, g: nat)
    requires l == Run(s, 0, IsWordChar) < |s| && NoInitAfter(s, l) && 0 < g < l
    ensures InitRest(s, g + 1).None?
  {
    var i := g + 1;
    if i < l {
      InsideName(s, l, i);
    } else {
      assert Run(s, i, IsSpace) == 0;
      assert Run(s, i, IsWordChar) == 0;
    }
  }

  /** A word character is no blank. */
  lemma WordNotSpace(c: char)
    requires IsWordChar(c)
    ensures !IsSpace(c)
  {
  }

  /** After the first word the constructor pattern cannot go on: no blank
      and no `'` follows it. */
  lemma ConstructNone(s: string, l: nat)
    requires l == Run(s, 0, IsWordChar) < |s| && !IsSpace(s[l]) && s[l] != '\''
    ensures ConstructMatch(s).None?
  {
    forall g | 0 < g < l && s[g] == '_' ensures ConstructRest(s, g + 1).None? {
      if g + 1 < l {
        RunAll(s, 0, IsWordChar);
        assert IsWordChar(s[g + 1]);
      }
    }
    BackUnderscoreNone(s, l, ConstructRest);
  }

  /** Where the groups of a call of a set's function lie: the set name is
      `s[..l]`, the function name `s[l + 1..e]`, the arguments
      `s[e + 1..j]`. */
  predicate SetCallLayout(s: string, l: nat, e: nat, j: nat) {
    && l == Run(s, 0, IsWordChar) && 0 < l < |s| && s[l] == '.'
    && e == l + 1 + Run(s, l + 1, IsWordChar) && l + 1 < e < |s| && s[e] == '('
    && LazyEnd(s, e + 1, CloseAt) == Some(j)
  }

  /** `s.f(args)` calls `s::f` with the arguments, `'` written `&`. */
  lemma TranslateSetCall(s: string, l: nat, e: nat, j: nat)
    requires SetCallLayout(s, l, e, j)
    ensures TranslateLine(s) == s[..l] + "::" + s[l + 1..e] + "(" + Join(", ", CallArgs(s[e + 1..j])) + ");"
  {
    ClassifySetCall(s, l, e, j);
    RenderSetCall(Classify(s), s);
  }

  lemma RenderSetCall(m: LineMatch, s: string)
    requires m.SetCall?
    ensures Render(m, s) == m.setname + "::" + m.fname + "(" + Join(", ", CallArgs(m.args)) + ");"
  {
  }

  lemma ClassifySetCall(s: string, l: nat, e: nat, j: nat)
    requires SetCallLayout(s, l, e, j)
    ensures Classify(s) == SetCall(s[..l], s[l + 1..e], s[e + 1..j])
  {
    SetCallFound(s, l, e, j);
    SetCallFirst(s, l, e, j);
    ClassifyLast(s);
  }

  lemma SetCallFound(s: string, l: nat, e: nat, j: nat)
    requires SetCallLayout(s, l, e, j)
    ensures SetCallMatch(s) == Some(SetCall(s[..l], s[l + 1..e], s[e + 1..j]))
  {
    assert Dotted(s) == Some(e);
  }

  /** No earlier pattern takes a set call. */
  lemma SetCallFirst(s: string, l: nat, e: nat, j: nat)
    requires SetCallLayout(s, l, e, j)
    ensures InitMatch(s).None? && AllocMatch(s).None? && PrintFieldMatch(s).None? && PrintValueMatch(s).None?
    ensures DeleteMatch(s).None? && FieldAssignMatch(s).None? && ConstructMatch(s).None?
  {
    InitNone(s, l);
    ConstructNone(s, l);
    assert Dotted(s) == Some(e);
    RunAll(s, 0, IsWordChar);
  }

  /** Where the groups of a constructor call lie: the type name is
      `s[..l - 1]`, followed by `_`, the variable `s[q + 1..p]` after a `'`,
      the arguments `s[p + 1..j]`. */
  predicate ConstructLayout(s: string, l: nat, q: nat, p: nat, j: nat) {
    && l == Run(s, 0, IsWordChar) && 2 <= l <= |s| && s[l - 1] == '_'
    && q == l + Run(s, l, IsSpace) && q < |s| && s[q] == '\''
    && p == q + 1 + Run(s, q + 1, IsWordChar) && q + 1 < p < |s| && s[p] == '('
    && LazyEnd(s, p + 1, CloseAt) == Some(j)
  }

  /** `T_ 'v(args)` builds `v` with the constructor of `T`; the type name is
      not translated. */
  lemma TranslateConstruct(s: string, l: nat, q: nat, p: nat, j: nat)
    requires ConstructLayout(s, l, q, p, j)
    ensures TranslateLine(s) == s[..l - 1] + " " + s[q + 1..p] + "(" + Join(", ", CallArgs(s[p + 1..j])) + ");"
  {
    ClassifyConstruct(s, l, q, p, j);
    RenderConstruct(Classify(s), s);
  }

  lemma ClassifyConstruct(s: string, l: nat, q: nat, p: nat, j: nat)
    requires ConstructLayout(s, l, q, p, j)
    ensures Classify(s) == Construct(s[..l - 1], s[q + 1..p], s[p + 1..j])
  {
    ConstructFound(s, l, q, p, j);
    ConstructFirst(s, l, q, p, j);
    ClassifySeventh(s);
  }

  lemma ConstructFound(s: string, l: nat, q: nat, p: nat, j: nat)
    requires ConstructLayout(s, l, q, p, j)
    ensures ConstructMatch(s) == Some(Construct(s[..l - 1], s[q + 1..p], s[p + 1..j]))
  {
    assert ConstructRest(s, l) == Some((s[q + 1..p], s[p + 1..j]));
    BackUnderscoreLast(s, l, ConstructRest);
  }

  /** No earlier pattern takes a constructor call. */
  lemma ConstructFirst(s: string, l: nat, q: nat, p: nat, j: nat)
    requires ConstructLayout(s, l, q, p, j)
    ensures InitMatch(s).None? && AllocMatch(s).None? && PrintFieldMatch(s).None? && PrintValueMatch(s).None?
    ensures DeleteMatch(s).None? && FieldAssignMatch(s).None?
  {
    ConstructInitNone(s, l, q, p, j);
    ConstructNoOutput(s, l, q, p, j);
    ConstructNoStore(s, l, q, p, j);
  }

  lemma ConstructNoOutput(s: string, l: nat, q: nat, p: nat, j: nat)
    requires ConstructLayout(s, l, q, p, j)
    ensures AllocMatch(s).None? && PrintFieldMatch(s).None? && PrintValueMatch(s).None?
  {
    assert s[l] == ' ' || s[l] == '\'' || (IsSpace(s[l]) && q > l) by {
      if q > l { RunAll(s, l, IsSpace); }
    }
    RunAll(s, 0, IsWordChar);
  }

  lemma ConstructNoStore(s: string, l: nat, q: nat, p: nat, j: nat)
    requires ConstructLayout(s, l, q, p, j)
    ensures DeleteMatch(s).None? && FieldAssignMatch(s).None?
  {
    assert s[l] == ' ' || s[l] == '\'' || (IsSpace(s[l]) && q > l) by {
      if q > l { RunAll(s, l, IsSpace); }
    }
    RunAll(s, 0, IsWordChar);
  }

  lemma RenderConstruct(m: LineMatch, s: string)
    requires m.Construct?
    ensures Render(m, s) == m.typename + " " + m.name + "(" + Join(", ", CallArgs(m.args)) + ");"
  {
  }

  /** A constructor call is no initialised variable. */
  lemma ConstructInitNone(s: string, l: nat, q: nat, p: nat, j: nat)
    requires ConstructLayout(s, l, q, p, j)
    ensures InitMatch(s).None?
  {
    forall g | 0 < g < l && s[g] == '_' ensures InitRest(s, g + 1).None? {
      ConstructInitStops(s, l, q, p, j, g);
    }
    BackUnderscoreNone(s, l, InitRest);
  }

  lemma ConstructInitStops(s: string, l: nat, q: nat, p: nat, j: nat, g: nat)
    requires ConstructLayout(s, l, q, p, j) && 0 < g < l
    ensures InitRest(s, g + 1).None?
  {
    if g + 1 < l {
      ConstructInitInside(s, l, q, p, j, g + 1);
    } else {
      ConstructInitLast(s, l, q, p, j);
    }
  }

  lemma ConstructInitInside(s: string, l: nat, q: nat, p: nat, j: nat, i: nat)
    requires ConstructLayout(s, l, q, p, j) && 0 < i < l
    ensures InitRest(s, i).None?
  {
    InsideName(s, l, i);
    assert s[l] != '"' by { if q > l { RunAll(s, l, IsSpace); } }
    NoEquals(s, l);
  }

  /** No `=` after the blanks at `i`: no value. */
  lemma NoEquals(s: string, i: nat)
    requires i <= |s| && var a := i + Run(s, i, IsSpace); a >= |s| || s[a] != '='
    ensures AssignValue(s, i).None?
  {
  }

  /** Inside the first word the name of the first pattern runs to the end
      of the word. */
  lemma InsideName(s: string, l: nat, i: nat)
    requires l == Run(s, 0, IsWordChar) && 0 < i < l
    ensures InitName(s, i) == Some((i, l))
  {
    RunFrom(s, 0, i, IsWordChar);
    RunAll(s, 0, IsWordChar);
    WordNotSpace(s[i]);
    assert Run(s, i, IsSpace) == 0;
  }

  lemma ConstructInitLast(s: string, l: nat, q: nat, p: nat, j: nat)
    requires ConstructLayout(s, l, q, p, j)
    ensures InitRest(s, l).None?
  {
    assert InitName(s, l) == Some((q + 1, p));
    assert AssignValue(s, p).None?;
  }

  // ---------------------------------------------------------------------
  // Values, prints, allocations and member stores

  /** On a line without newlines `\s*(.+)` takes everything after the
      blanks, when something follows them. */
  lemma ValueToEnd(s: string, i: nat, u: nat)
    requires i <= |s| && '\n' !in s && u == i + Run(s, i, IsSpace) && u < |s|
    ensures ValueFrom(s, i) == Some(s[u..])
  {
    assert ValueStart(s, i, u) == Some(u);
    assert forall k :: u <= k < |s| ==> NotNewline(s[k]) by {
      forall k | u <= k < |s| ensures NotNewline(s[k]) { assert s[k] in s; }
    }
    RunIs(s, u, |s| - u, NotNewline);
    assert s[u..u + (|s| - u)] == s[u..];
  }

  /** On a line without newlines `\s*=\s*(.+)` at `i` takes everything
      after the blanks that follow the `=`. */
  lemma AssignValueAt(s: string, i: nat, a: nat, u: nat)
    requires i <= |s| && '\n' !in s
    requires a == i + Run(s, i, IsSpace) && a < |s| && s[a] == '='
    requires u == a + 1 + Run(s, a + 1, IsSpace) && u < |s|
    ensures AssignValue(s, i) == Some(s[u..])
  {
    ValueToEnd(s, a + 1, u);
  }

  /** Where the groups of `v"` lie: `v` is `s[..l]`, and no `=` follows. */
  predicate PrintValueLayout(s: string, l: nat) {
    && l == Run(s, 0, IsWordChar) && 0 < l < |s| && s[l] == '"'
    && (l + 1 == |s| || !IsWordChar(s[l + 1]))
    && var a := l + 1 + Run(s, l + 1, IsSpace); a == |s| || s[a] != '='
  }

  /** `v"` prints the value `v` points to. */
  lemma TranslatePrintValue(s: string, l: nat)
    requires PrintValueLayout(s, l)
    ensures TranslateLine(s) == "cout << *" + s[..l] + " << endl;"
  {
    NoEquals(s, l + 1);
    InitNone(s, l);
    ClassifyFourth(s);
  }

  /** Where the groups of `o"f` lie: `o` is `s[..l]`, `f` is `s[l + 1..e]`. */
  predicate PrintFieldLayout(s: string, l: nat, e: nat) {
    && l == Run(s, 0, IsWordChar) && 0 < l < |s| && s[l] == '"'
    && e == l + 1 + Run(s, l + 1, IsWordChar) && l + 1 < e
  }

  /** `o"f` prints the value the member `f` of `o` points to. */
  lemma TranslatePrintField(s: string, l: nat, e: nat)
    requires PrintFieldLayout(s, l, e)
    ensures TranslateLine(s) == "cout << *(" + s[..l] + "." + s[l + 1..e] + ") << endl;"
  {
    WordNotSpace(s[l + 1]);
    NoEquals(s, l + 1);
    InitNone(s, l);
    ClassifyThird(s);
  }

  /** Where the groups of `T~ 'n` lie: `T` is `s[..l]`, `n` is `s[q + 1..e]`. */
  predicate AllocLayout(s: string, l: nat, q: nat, e: nat) {
    && l == Run(s, 0, IsWordChar) && 0 < l < |s| && s[l] == '~'
    && q == l + 1 + Run(s, l + 1, IsSpace) && q < |s| && s[q] == '\''
    && e == q + 1 + Run(s, q + 1, IsWordChar) && q + 1 < e
  }

  /** `T~ 'n` allocates an `n` of type `T` on the heap, with no initial
      value. */
  lemma TranslateAlloc(s: string, l: nat, q: nat, e: nat)
    requires AllocLayout(s, l, q, e)
    ensures var t := DotTypeToCpp(s[..l]); TranslateLine(s) == t + "* " + s[q + 1..e] + " = new " + t + ";"
  {
    NoEquals(s, l);
    InitNone(s, l);
    assert AllocMatch(s) == Some(Alloc(s[..l], s[q + 1..e]));
    ClassifySecond(s);
  }

  /** Where the groups of `o.f" = v` lie, on a line without newlines: `o` is
      `s[..l]`, `f` is `s[l + 1..e]`, the `=` is at `a`, `v` is `s[u..]`. */
  predicate FieldAssignLayout(s: string, l: nat, e: nat, a: nat, u: nat) {
    && '\n' !in s
    && l == Run(s, 0, IsWordChar) && 0 < l < |s| && s[l] == '.'
    && e == l + 1 + Run(s, l + 1, IsWordChar) && l + 1 < e < |s| && s[e] == '"'
    && a == e + 1 + Run(s, e + 1, IsSpace) && a < |s| && s[a] == '='
    && u == a + 1 + Run(s, a + 1, IsSpace) && u < |s|
  }

  /** `o.f" = v` stores `v` where the member `f` of `o` points. */
  lemma TranslateFieldAssign(s: string, l: nat, e: nat, a: nat, u: nat)
    requires FieldAssignLayout(s, l, e, a, u)
    ensures TranslateLine(s) == "*(" + s[..l] + "." + s[l + 1..e] + ") = " + s[u..] + ";"
  {
    FieldAssignFound(s, l, e, a, u);
    FieldAssignFirst(s, l, e, a, u);
    ClassifySixth(s);
    RenderFieldAssign(Classify(s), s);
  }

  lemma FieldAssignFound(s: string, l: nat, e: nat, a: nat, u: nat)
    requires FieldAssignLayout(s, l, e, a, u)
    ensures FieldAssignMatch(s) == Some(FieldAssign(s[..l], s[l + 1..e], s[u..]))
  {
    AssignValueAt(s, e + 1, a, u);
    DottedAt(s, l, e);
    FieldAssignFrom(s, l, e, s[u..]);
  }

  lemma DottedAt(s: string, l: nat, e: nat)
    requires l == Run(s, 0, IsWordChar) && 0 < l < |s| && s[l] == '.'
    requires e == l + 1 + Run(s, l + 1, IsWordChar) && l + 1 < e
    ensures Dotted(s) == Some(e)
  {
  }

  lemma FieldAssignFrom(s: string, l: nat, e: nat, v: string)
    requires l == Run(s, 0, IsWordChar) && Dotted(s) == Some(e) && e < |s| && s[e] == '"'
    requires AssignValue(s, e + 1) == Some(v)
    ensures FieldAssignMatch(s) == Some(FieldAssign(s[..l], s[l + 1..e], v))
  {
    FieldAssignSome(s, l, e, v);
    FieldAssignValue(s, l, e, v);
    FieldAssignNames(s, l, e, v);
  }

  lemma FieldAssignValue(s: string, l: nat, e: nat, v: string)
    requires l == Run(s, 0, IsWordChar) && Dotted(s) == Some(e) && e < |s| && s[e] == '"'
    requires AssignValue(s, e + 1) == Some(v)
    ensures FieldAssignMatch(s).Some? ==> FieldAssignMatch(s).value.value == v
  {
  }

  lemma FieldAssignSome(s: string, l: nat, e: nat, v: string)
    requires l == Run(s, 0, IsWordChar) && Dotted(s) == Some(e) && e < |s| && s[e] == '"'
    requires AssignValue(s, e + 1) == Some(v)
    ensures FieldAssignMatch(s).Some?
  {
  }

  lemma FieldAssignNames(s: string, l: nat, e: nat, v: string)
    requires l == Run(s, 0, IsWordChar) && Dotted(s) == Some(e) && e < |s| && s[e] == '"'
    requires AssignValue(s, e + 1) == Some(v)
    ensures FieldAssignMatch(s).Some? ==>
      FieldAssignMatch(s).value.obj == s[..l] && FieldAssignMatch(s).value.field == s[l + 1..e]
  {
  }

  lemma FieldAssignFirst(s: string, l: nat, e: nat, a: nat, u: nat)
    requires FieldAssignLayout(s, l, e, a, u)
    ensures InitMatch(s).None? && AllocMatch(s).None? && PrintFieldMatch(s).None? && PrintValueMatch(s).None?
    ensures DeleteMatch(s).None?
  {
    NoEquals(s, l);
    InitNone(s, l);
    RunAll(s, 0, IsWordChar);
  }

  lemma RenderFieldAssign(m: LineMatch, s: string)
    requires m.FieldAssign?
    ensures Render(m, s) == "*(" + m.obj + "." + m.field + ") = " + m.value + ";"
  {
  }

  // ---------------------------------------------------------------------
  // Variables with an initial value

  /** Where the groups of `T_ 'n" = v` lie, on a line without newlines (the
      `'` and the `"` are both optional): `T` is `s[..l - 1]`, `n` is
      `s[n0..p]`, the `=` is at `a` and `v` is `s[u..]`. */
  predicate InitLayout(s: string, l: nat, n0: nat, p: nat, a: nat, u: nat) {
    && '\n' !in s
    && l == Run(s, 0, IsWordChar) && 2 <= l <= |s| && s[l - 1] == '_'
    && var q := l + Run(s, l, IsSpace);
    && n0 == (if q < |s| && s[q] == '\'' then q + 1 else q)
    && p == n0 + Run(s, n0, IsWordChar) && n0 < p
    && var p1 := if p < |s| && s[p] == '"' then p + 1 else p;
    && a == p1 + Run(s, p1, IsSpace) && a < |s| && s[a] == '='
    && u == a + 1 + Run(s, a + 1, IsSpace) && u < |s|
  }

  /** `T_ 'n = v` declares `n` with the value `v`: a pointer to a new `T`
      when the line holds a `'` anywhere, a plain `T` otherwise. */
  lemma TranslateInit(s: string, l: nat, n0: nat, p: nat, a: nat, u: nat)
    requires InitLayout(s, l, n0, p, a, u)
    ensures var t := DotTypeToCpp(s[..l - 1]);
      TranslateLine(s) ==
        if '\'' in s then t + "* " + s[n0..p] + " = new " + t + "(" + s[u..] + ");"
        else t + " " + s[n0..p] + " = " + s[u..] + ";"
  {
    InitFound(s, l, n0, p, a, u);
    ClassifyFirst(s);
    RenderInit(Classify(s), s);
  }

  lemma InitFound(s: string, l: nat, n0: nat, p: nat, a: nat, u: nat)
    requires InitLayout(s, l, n0, p, a, u)
    ensures InitMatch(s) == Some(Init(s[..l - 1], s[n0..p], s[u..], '\'' in s))
  {
    InitRestAt(s, l, n0, p, a, u);
    InitMatchFrom(s, l, (s[n0..p], s[u..]));
  }

  lemma InitRestAt(s: string, l: nat, n0: nat, p: nat, a: nat, u: nat)
    requires InitLayout(s, l, n0, p, a, u)
    ensures InitRest(s, l) == Some((s[n0..p], s[u..]))
  {
    InitNameAt(s, l, n0, p, a, u);
    InitValueAt(s, l, n0, p, a, u);
  }

  /** When the rest matches after the whole word run ending in `_`, the
      type is the run without that `_`. */
  lemma InitMatchFrom(s: string, l: nat, nv: (string, string))
    requires l == Run(s, 0, IsWordChar) && 2 <= l <= |s| && s[l - 1] == '_'
    requires InitRest(s, l) == Some(nv)
    ensures InitMatch(s) == Some(Init(s[..l - 1], nv.0, nv.1, '\'' in s))
  {
    BackUnderscoreLast(s, l, InitRest);
  }

  lemma InitNameAt(s: string, l: nat, n0: nat, p: nat, a: nat, u: nat)
    requires InitLayout(s, l, n0, p, a, u)
    ensures InitName(s, l) == Some((n0, p))
  {
  }

  lemma InitValueAt(s: string, l: nat, n0: nat, p: nat, a: nat, u: nat)
    requires InitLayout(s, l, n0, p, a, u)
    ensures InitValue(s, p) == Some(s[u..])
  {
    var p1 := if p < |s| && s[p] == '"' then p + 1 else p;
    AssignValueAt(s, p1, a, u);
  }

  lemma RenderInit(m: LineMatch, s: string)
    requires m.Init?
    ensures var t := DotTypeToCpp(m.dtype);
      Render(m, s) ==
        if m.heap then t + "* " + m.name + " = new " + t + "(" + m.value + ");"
        else t + " " + m.name + " = " + m.value + ";"
  {
  }

  // ---------------------------------------------------------------------
  // Call arguments

  /** Every argument is a non-blank text with each `'` written `&` and no
      comma. */
  lemma CallArgsClean(args: string)
    ensures forall e | e in CallArgs(args) :: e != [] && '\'' !in e && ',' !in e
  {
    KeptPiecesClean(SplitOn(args, ','));
  }

  lemma {:induction false} KeptPiecesClean(pieces: seq<string>)
    requires forall k :: 0 <= k < |pieces| ==> ',' !in pieces[k]
    ensures forall e | e in Kept(ArgPiece, pieces) :: e != [] && '\'' !in e && ',' !in e
    decreases |pieces|
  {
    if pieces != [] {
      var init := pieces[..|pieces| - 1];
      assert forall k :: 0 <= k < |init| ==> init[k] == pieces[k];
      KeptPiecesClean(init);
      ArgPieceClean(pieces[|pieces| - 1]);
    }
  }

  /** What one non-blank piece gives is not empty and holds neither `'`
      nor, when the piece holds none, a comma. */
  lemma ArgPieceClean(a: string)
    requires ',' !in a
    ensures ArgPiece(a).Some? ==> var e := ArgPiece(a).value; e != [] && '\'' !in e && ',' !in e
  {
    if Strip(a) != [] {
      var r := ReplaceChar(a, '\'', "&");
      StripEmpty(a);
      ReplaceCharNotBlank(a, '\'', "&");
      StripEmpty(r);
      StripChars(r, '\'');
      ReplaceCharKeepsOut(a, '\'', "&", ',');
      StripChars(r, ',');
    }
  }

  /** The text up to the first comma is the first piece. */
  lemma CallArgsSplit(a: string, b: string)
    requires ',' !in a
    ensures CallArgs(a + "," + b) == Kept(ArgPiece, [a]) + CallArgs(b)
  {
    SplitOnFirst(a, b, ',');
    KeptAppend(ArgPiece, [a], SplitOn(b, ','));
  }

  /** Blanks and then `'x`, with `x` a word, pass the address `&x`. */
  lemma AddressArgument(b: string, x: string)
    requires Blank(b) && x != [] && forall k :: 0 <= k < |x| ==> IsWordChar(x[k])
    ensures CallArgs(b + "'" + x) == ["&" + x]
  {
    var a := b + "'" + x;
    BlankLacks(b, ',');
    WordLacks(x, ',');
    assert ',' !in a;
    OnePiece(a);
    AddressPiece(b, x);
    KeptOne(ArgPiece, a);
  }

  /** The piece `b'x` gives `&x`. */
  lemma AddressPiece(b: string, x: string)
    requires Blank(b) && x != [] && forall k :: 0 <= k < |x| ==> IsWordChar(x[k])
    ensures ArgPiece(b + "'" + x) == Some("&" + x)
  {
    BlankLacks(b, '\'');
    WordLacks(x, '\'');
    ReplaceOne(b, x, '\'', "&");
    StripMarked(b, '\'', x);
    StripMarked(b, '&', x);
  }

  /** Blanks, a mark and a word strip to the mark and the word. */
  lemma StripMarked(b: string, c: char, x: string)
    requires Blank(b) && !IsSpace(c) && x != [] && forall k :: 0 <= k < |x| ==> IsWordChar(x[k])
    ensures Strip(b + [c] + x) == [c] + x
  {
    WordNotSpace(x[|x| - 1]);
    assert ([c] + x)[|x|] == x[|x| - 1];
    StripBlankPrefix(b, [c] + x);
    assert b + [c] + x == b + ([c] + x);
  }

  /** A blank text holds no character that is not a blank. */
  lemma BlankLacks(b: string, c: char)
    requires Blank(b) && !IsSpace(c)
    ensures c !in b
  {
  }

  /** A text without a comma is a single piece. */
  lemma OnePiece(a: string)
    requires ',' !in a
    ensures CallArgs(a) == Kept(ArgPiece, [a])
  {
    SplitOnNone(a, ',');
  }

  lemma KeptOne<T>(f: string -> Option<T>, a: string)
    ensures Kept(f, [a]) == if f(a).Some? then [f(a).value] else []
  {
    assert [a][..0] == [];
  }

  /** `'x, 'y` passes the addresses of `x` and `y`. */
  lemma TwoAddressArguments(x: string, y: string)
    requires x != [] && forall k :: 0 <= k < |x| ==> IsWordChar(x[k])
    requires y != [] && forall k :: 0 <= k < |y| ==> IsWordChar(y[k])
    ensures CallArgs("'" + x + ", '" + y) == ["&" + x, "&" + y]
  {
    TwoAddressShape(x, y);
    FirstAddress(x, " " + "'" + y);
    AddressArgument(" ", y);
  }

  lemma TwoAddressShape(x: string, y: string)
    ensures "'" + x + ", '" + y == ([] + "'" + x) + "," + (" " + "'" + y)
  {
  }

  /** `'x,` and then the rest: the address of `x` comes first. */
  lemma FirstAddress(x: string, c: string)
    requires x != [] && forall k :: 0 <= k < |x| ==> IsWordChar(x[k])
    ensures CallArgs(([] + "'" + x) + "," + c) == ["&" + x] + CallArgs(c)
  {
    var a := [] + "'" + x;
    WordLacks(x, ',');
    assert ',' !in a;
    CallArgsSplit(a, c);
    AddressPiece([], x);
    KeptOne(ArgPiece, a);
  }
}
