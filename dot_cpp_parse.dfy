/**
 * The parser of archive/dot_transpiler_cpp.py.  `parse_dot_program` walks
 * the preprocessed entries once, with three pieces of state: whether a
 * struct is open (and which), whether a function is open (and which), and
 * the set the functions belong to.  A struct collects the fields its
 * entries declare until an entry `)`; a function collects its entries until
 * an entry `}`; a set line names the set for all later functions; any
 * other entry is a top-level line.
 *
 * The specification `StepEntry` treats the open struct and the open
 * function as options: a Python flag together with the object it guards.
 * The method `ParseDotProgram` keeps the flags and the objects apart, as
 * the source does, and is proved to follow the specification.
 */
module DotCppParse {
  import opened Wrappers
  import opened PyText
  import opened DotCppPreprocess
  import opened DotCppTranslate

  /** `DotStruct`: a name and its `(type, name)` fields. */
  datatype DotStruct = DotStruct(name: string, fields: seq<(string, string)>)

  /** `DotFunction` */
  datatype DotFunction = DotFunction(name: string, args: seq<string>, body: seq<string>, inSet: Option<string>)

  /** `DotProgram`; the structs are the values of a dictionary keyed by
      name, in the order their names were first stored. */
  datatype DotProgram = DotProgram(structs: seq<DotStruct>, functions: seq<DotFunction>, lines: seq<string>, sets: seq<string>)

  /** What `[0]` of an empty `re.findall` result raises. */
  const IndexError := "IndexError: list index out of range"

  // ---------------------------------------------------------------------
  // The dictionary of structs

  /** `structs[s.name] = s`: an existing entry is replaced where it stands,
      a new name goes to the end. */
  function Upsert(structs: seq<DotStruct>, s: DotStruct): (r: seq<DotStruct>)
    ensures s in r
    ensures |r| == |structs| || r == structs + [s]
  {
    if structs == [] then [s]
    else if structs[0].name == s.name then [s] + structs[1..]
    else [structs[0]] + Upsert(structs[1..], s)
  }

  /** `structs.get(name)` */
  function Lookup(structs: seq<DotStruct>, name: string): (r: Option<DotStruct>)
    ensures r.Some? ==> r.value in structs && r.value.name == name
  {
    if structs == [] then None
    else if structs[0].name == name then Some(structs[0])
    else Lookup(structs[1..], name)
  }

  /** After storing a struct its name finds it, and every other name finds
      what it found before. */
  lemma {:induction false} UpsertLookup(structs: seq<DotStruct>, s: DotStruct, other: string)
    ensures Lookup(Upsert(structs, s), s.name) == Some(s)
    ensures other != s.name ==> Lookup(Upsert(structs, s), other) == Lookup(structs, other)
    decreases |structs|
  {
    if structs != [] && structs[0].name != s.name {
      UpsertLookup(structs[1..], s, other);
      assert ([structs[0]] + Upsert(structs[1..], s))[1..] == Upsert(structs[1..], s);
    } else if structs != [] {
      assert ([s] + structs[1..])[1..] == structs[1..];
    }
  }

  // ---------------------------------------------------------------------
  // The patterns of the parser

  /** `struct_(\w+)` matches at `i`. */
  predicate StructAt(s: string, i: nat) {
    i + 7 < |s| && StartsAt(s, i, "struct_") && IsWordChar(s[i + 7])
  }

  /** `re.findall(r"struct_(\w+)", s)[0]` from position `i` on: the group of
      the first match, which need not be at the start. */
  function StructNameFrom(s: string, i: nat): (r: Option<string>)
    requires i <= |s|
    ensures r.Some? ==> r.value != []
    decreases |s| - i
  {
    if StructAt(s, i) then Some(s[i + 7..i + 7 + Run(s, i + 7, IsWordChar)])
    else if i < |s| then StructNameFrom(s, i + 1)
    else None
  }

  function StructName(s: string): (r: Option<string>) {
    StructNameFrom(s, 0)
  }

  /** `set_\w+\s+(\w+)` matches at `i`; the group lies at where it ends. */
  function SetAt(s: string, i: nat): (r: Option<(nat, nat)>)
    requires i <= |s|
    ensures r.Some? ==> i < r.value.0 < r.value.1 <= |s|
  {
    if !StartsAt(s, i, "set_") then None
    else
      var w := Run(s, i + 4, IsWordChar);
      var sp := Run(s, i + 4 + w, IsSpace);
      var n0 := i + 4 + w + sp;
      var n := Run(s, n0, IsWordChar);
      if w == 0 || sp == 0 || n == 0 then None else Some((n0, n0 + n))
  }

  /** `re.findall(r"set_\w+\s+(\w+)", s)[0]` from position `i` on. */
  function SetNameFrom(s: string, i: nat): (r: Option<string>)
    requires i <= |s|
    ensures r.Some? ==> r.value != []
    decreases |s| - i
  {
    match SetAt(s, i)
    case Some((n0, e)) => Some(s[n0..e])
    case None => if i < |s| then SetNameFrom(s, i + 1) else None
  }

  function SetName(s: string): (r: Option<string>) {
    SetNameFrom(s, 0)
  }

  /** `\s*\*?\s*(\w+)`, the part of the field pattern after the `_`. */
  function FieldRest(s: string, i: nat): (r: Option<string>) {
    if i > |s| then None
    else
      var q := i + Run(s, i, IsSpace);
      var q1 := if q < |s| && s[q] == '*' then q + 1 else q;
      var q2 := q1 + Run(s, q1, IsSpace);
      var w := Run(s, q2, IsWordChar);
      if w == 0 then None else Some(s[q2..q2 + w])
  }

  /** `re.match(r"(\w+)_\s*\*?\s*(\w+)", line)`: a field's type and name. */
  function FieldMatch(s: string): (r: Option<(string, string)>)
    ensures r.Some? ==> r.value.0 != [] && r.value.1 != []
  {
    match BackUnderscore(s, Run(s, 0, IsWordChar), FieldRest)
    case None => None
    case Some((g, n)) => Some((s[..g], n))
  }

  /** `re.match(r"(\w+)\((.*?)\)", line)`: a function's name and the text
      of its arguments. */
  function HeaderMatch(s: string): (r: Option<(string, string)>)
    ensures r.Some? ==> r.value.0 != []
  {
    var l := Run(s, 0, IsWordChar);
    if l == 0 || l >= |s| || s[l] != '(' then None
    else
      match LazyEnd(s, l + 1, CloseAt)
      case None => None
      case Some(j) => Some((s[..l], s[l + 1..j]))
  }

  // ---------------------------------------------------------------------
  // The state machine

  /** The parser's state: the program so far, the open struct, the open
      function and the current set. */
  datatype ParseState = ParseState(
    program: DotProgram, openStruct: Option<DotStruct>, openFunction: Option<DotFunction>, currentSet: Option<string>)

  const Start := ParseState(DotProgram([], [], [], []), None, None, None)

  /** `lines[i + 1] == "{"` after a header at `i` */
  predicate OpensBody(lines: seq<string>, i: nat) {
    i + 1 < |lines| && lines[i + 1] == "{"
  }

  /** A struct with one more entry: a field when the entry declares one. */
  function AddField(s: DotStruct, line: string): DotStruct {
    match FieldMatch(line)
    case None => s
    case Some(f) => s.(fields := s.fields + [f])
  }

  /** One pass of the loop over the entries, at entry `i`. */
  function StepEntry(st: ParseState, lines: seq<string>, i: nat): Result<ParseState, string>
    requires i < |lines|
  {
    var line := lines[i];
    if StartsWith(line, "struct_") then
      match StructName(line)
      case None => Err(IndexError)
      case Some(n) => Ok(st.(openStruct := Some(DotStruct(n, []))))
    else if st.openStruct.Some? then
      if line == ")" then
        Ok(st.(program := st.program.(structs := Upsert(st.program.structs, st.openStruct.value)), openStruct := None))
      else Ok(st.(openStruct := Some(AddField(st.openStruct.value, line))))
    else if StartsWith(line, "set_") then
      match SetName(line)
      case None => Err(IndexError)
      case Some(n) => Ok(st.(program := st.program.(sets := st.program.sets + [n]), currentSet := Some(n)))
    else if HeaderMatch(line).Some? && OpensBody(lines, i) then
      var h := HeaderMatch(line).value;
      Ok(st.(openFunction := Some(DotFunction(h.0, SplitOn(h.1, ','), [], st.currentSet))))
    else if st.openFunction.Some? then
      var f := st.openFunction.value;
      if line == "}" then Ok(st.(program := st.program.(functions := st.program.functions + [f]), openFunction := None))
      else Ok(st.(openFunction := Some(f.(body := f.body + [line]))))
    else Ok(st.(program := st.program.(lines := st.program.lines + [line])))
  }

  /** The state after the first `n` entries, or the error one of them
      raised. */
  function ParseUpTo(lines: seq<string>, n: nat): Result<ParseState, string>
    requires n <= |lines|
    decreases n, 0
  {
    if n == 0 then Ok(Start) else After(lines, n - 1)
  }

  /** The state after entry `i`: one pass of the loop on the state before
      it. */
  function After(lines: seq<string>, i: nat): Result<ParseState, string>
    requires i < |lines|
    decreases i, 1
  {
    match ParseUpTo(lines, i)
    case Err(e) => Err(e)
    case Ok(st) => StepEntry(st, lines, i)
  }

  /** What `parse_dot_program` makes of the entries. */
  function ParseEntries(lines: seq<string>): Result<DotProgram, string> {
    match ParseUpTo(lines, |lines|)
    case Err(e) => Err(e)
    case Ok(st) => Ok(st.program)
  }

  /** `parse_dot_program(dot_code)` */
  function ParseProgram(code: string): Result<DotProgram, string> {
    ParseEntries(Preprocess(code))
  }

  /** The state after one more entry. */
  lemma ParseNext(lines: seq<string>, i: nat, st: ParseState)
    requires i < |lines| && ParseUpTo(lines, i) == Ok(st)
    ensures ParseUpTo(lines, i + 1) == StepEntry(st, lines, i)
  {
    assert ParseUpTo(lines, i + 1) == After(lines, i);
  }

  /** Once an entry raised, the parse stays failed. */
  lemma {:induction false} ErrSticks(lines: seq<string>, i: nat, k: nat)
    requires i <= k <= |lines| && ParseUpTo(lines, i).Err?
    ensures ParseUpTo(lines, k) == ParseUpTo(lines, i)
    decreases k - i
  {
    if i < k {
      ErrSticks(lines, i, k - 1);
    }
  }

  // ---------------------------------------------------------------------
  // Structs

  /** The entries strictly between `i` and `k` neither open a struct nor
      close one. */
  predicate StructBody(lines: seq<string>, i: nat, k: nat)
    requires k <= |lines|
  {
    forall m :: i < m < k ==> !StartsWith(lines[m], "struct_") && lines[m] != ")"
  }

  /** An entry inside a struct adds a field when it declares one. */
  lemma StepField(st: ParseState, lines: seq<string>, i: nat)
    requires i < |lines| && !StartsWith(lines[i], "struct_") && st.openStruct.Some? && lines[i] != ")"
    ensures StepEntry(st, lines, i) == Ok(st.(openStruct := Some(AddField(st.openStruct.value, lines[i]))))
  {
  }

  lemma FieldNext(lines: seq<string>, i: nat, st: ParseState)
    requires i < |lines| && ParseUpTo(lines, i) == Ok(st)
    requires !StartsWith(lines[i], "struct_") && st.openStruct.Some? && lines[i] != ")"
    ensures ParseUpTo(lines, i + 1) == Ok(st.(openStruct := Some(AddField(st.openStruct.value, lines[i]))))
  {
    ParseNext(lines, i, st);
    StepField(st, lines, i);
  }

  /** The struct after the entries, one by one. */
  function Collect(s: DotStruct, entries: seq<string>): DotStruct
    decreases |entries|
  {
    if entries == [] then s
    else AddField(Collect(s, entries[..|entries| - 1]), entries[|entries| - 1])
  }

  /** Collecting keeps the fields the entries declare, in order. */
  lemma {:induction false} CollectKept(name: string, entries: seq<string>)
    ensures Collect(DotStruct(name, []), entries) == DotStruct(name, Kept(FieldMatch, entries))
    decreases |entries|
  {
    if entries != [] {
      CollectKept(name, entries[..|entries| - 1]);
    }
  }

  /** After a `struct_Name` entry the struct holds what the entries so far
      add to it. */
  lemma {:induction false} StructCollects(lines: seq<string>, j: nat, k: nat, st: ParseState, name: string)
    requires 0 < j <= k <= |lines| && StructBody(lines, j - 1, k)
    requires ParseUpTo(lines, j) == Ok(st.(openStruct := Some(Collect(DotStruct(name, []), lines[j..j]))))
    ensures ParseUpTo(lines, k) == Ok(st.(openStruct := Some(Collect(DotStruct(name, []), lines[j..k]))))
    decreases k - j
  {
    if j < k {
      StructBodyShrinks(lines, j - 1, k);
      StructCollects(lines, j, k - 1, st, name);
      CollectsStep(lines, j, k, st, name);
    }
  }

  lemma StructBodyShrinks(lines: seq<string>, i: nat, k: nat)
    requires i < k <= |lines| && StructBody(lines, i, k)
    ensures StructBody(lines, i, k - 1)
  {
  }

  lemma CollectsStep(lines: seq<string>, j: nat, k: nat, st: ParseState, name: string)
    requires 0 < j < k <= |lines| && StructBody(lines, j - 1, k)
    requires ParseUpTo(lines, k - 1) == Ok(st.(openStruct := Some(Collect(DotStruct(name, []), lines[j..k - 1]))))
    ensures ParseUpTo(lines, k) == Ok(st.(openStruct := Some(Collect(DotStruct(name, []), lines[j..k]))))
  {
    StructBodyLast(lines, j - 1, k);
    FieldStep(lines, j, k, st, name);
  }

  lemma StructBodyLast(lines: seq<string>, i: nat, k: nat)
    requires i + 1 < k <= |lines| && StructBody(lines, i, k)
    ensures StructBody(lines, i, k - 1) && !StartsWith(lines[k - 1], "struct_") && lines[k - 1] != ")"
  {
  }

  lemma StructOpens(lines: seq<string>, i: nat, st: ParseState, name: string)
    requires i < |lines| && ParseUpTo(lines, i) == Ok(st)
    requires StartsWith(lines[i], "struct_") && StructName(lines[i]) == Some(name)
    ensures ParseUpTo(lines, i + 1) == Ok(st.(openStruct := Some(Collect(DotStruct(name, []), lines[i + 1..i + 1]))))
  {
    ParseNext(lines, i, st);
    assert lines[i + 1..i + 1] == [];
  }

  lemma FieldStep(lines: seq<string>, j: nat, k: nat, st: ParseState, name: string)
    requires j < k <= |lines| && !StartsWith(lines[k - 1], "struct_") && lines[k - 1] != ")"
    requires ParseUpTo(lines, k - 1) == Ok(st.(openStruct := Some(Collect(DotStruct(name, []), lines[j..k - 1]))))
    ensures ParseUpTo(lines, k) == Ok(st.(openStruct := Some(Collect(DotStruct(name, []), lines[j..k]))))
  {
    var s0 := Collect(DotStruct(name, []), lines[j..k - 1]);
    var cur := st.(openStruct := Some(s0));
    FieldNext(lines, k - 1, cur);
    CollectLast(DotStruct(name, []), lines, j, k);
    assert cur.(openStruct := Some(AddField(s0, lines[k - 1]))) == st.(openStruct := Some(AddField(s0, lines[k - 1])));
  }

  lemma CollectLast(s: DotStruct, lines: seq<string>, j: nat, k: nat)
    requires j < k <= |lines|
    ensures Collect(s, lines[j..k]) == AddField(Collect(s, lines[j..k - 1]), lines[k - 1])
  {
    var e := lines[j..k];
    assert e[..|e| - 1] == lines[j..k - 1];
    assert e[|e| - 1] == lines[k - 1];
  }

  /** A struct block: the entries between `struct_Name` and `)` that match
      `t_ [*] name` become the fields of `Name`, in order, and the struct is
      stored under `Name` when `)` arrives. */
  lemma StructBlock(lines: seq<string>, i: nat, k: nat, st: ParseState, name: string)
    requires i < k < |lines| && ParseUpTo(lines, i) == Ok(st)
    requires StartsWith(lines[i], "struct_") && StructName(lines[i]) == Some(name)
    requires StructBody(lines, i, k) && lines[k] == ")"
    ensures var s := DotStruct(name, Kept(FieldMatch, lines[i + 1..k]));
      ParseUpTo(lines, k + 1) == Ok(st.(program := st.program.(structs := Upsert(st.program.structs, s)), openStruct := None))
  {
    StructOpens(lines, i, st, name);
    StructCollects(lines, i + 1, k, st, name);
    CollectKept(name, lines[i + 1..k]);
    ParseNext(lines, k, st.(openStruct := Some(DotStruct(name, Kept(FieldMatch, lines[i + 1..k])))));
    assert ")" != [] && !StartsWith(")", "struct_");
  }

  // ---------------------------------------------------------------------
  // Sets

  /** The current set changes only at a set line outside a struct, to the
      name the line gives, which is also added to the sets. */
  lemma SetStep(st: ParseState, lines: seq<string>, i: nat)
    requires i < |lines| && StepEntry(st, lines, i).Ok?
    ensures var next := StepEntry(st, lines, i).value;
      || next.currentSet == st.currentSet
      || (&& StartsWith(lines[i], "set_") && !StartsWith(lines[i], "struct_") && st.openStruct.None?
          && SetName(lines[i]).Some? && next.currentSet == SetName(lines[i])
          && next.program.sets == st.program.sets + [SetName(lines[i]).value])
  {
  }

  /** Once a set is current, some set stays current. */
  lemma {:induction false} SetNeverReset(lines: seq<string>, i: nat, k: nat)
    requires i <= k <= |lines| && ParseUpTo(lines, k).Ok?
    requires ParseUpTo(lines, i).Ok? && ParseUpTo(lines, i).value.currentSet.Some?
    ensures ParseUpTo(lines, k).value.currentSet.Some?
    decreases k - i
  {
    if i < k {
      var prev := ParseUpTo(lines, k - 1);
      if prev.Err? {
        assert false;
      }
      SetNeverReset(lines, i, k - 1);
      SetStep(prev.value, lines, k - 1);
    }
  }

  // ---------------------------------------------------------------------
  // Functions

  /** An entry the three openers leave alone: it opens no struct, names no
      set and is no header directly followed by `{`. */
  predicate Plain(lines: seq<string>, m: nat)
    requires m < |lines|
  {
    !StartsWith(lines[m], "struct_") && !StartsWith(lines[m], "set_") && !(HeaderMatch(lines[m]).Some? && OpensBody(lines, m))
  }

  /** A plain entry inside a function that is not `}` joins its body. */
  lemma StepBody(st: ParseState, lines: seq<string>, i: nat)
    requires i < |lines| && Plain(lines, i) && st.openStruct.None? && st.openFunction.Some? && lines[i] != "}"
    ensures StepEntry(st, lines, i) == Ok(st.(openFunction := Some(st.openFunction.value.(body := st.openFunction.value.body + [lines[i]]))))
  {
  }

  lemma BodyNext(lines: seq<string>, i: nat, st: ParseState)
    requires i < |lines| && ParseUpTo(lines, i) == Ok(st)
    requires Plain(lines, i) && st.openStruct.None? && st.openFunction.Some? && lines[i] != "}"
    ensures ParseUpTo(lines, i + 1) == Ok(st.(openFunction := Some(st.openFunction.value.(body := st.openFunction.value.body + [lines[i]]))))
  {
    ParseNext(lines, i, st);
    StepBody(st, lines, i);
  }

  /** A header followed by `{` opens a function of the current set, with
      the text between the parentheses split on commas as its arguments. */
  lemma StepHeader(st: ParseState, lines: seq<string>, i: nat)
    requires i < |lines| && !StartsWith(lines[i], "struct_") && !StartsWith(lines[i], "set_") && st.openStruct.None?
    requires HeaderMatch(lines[i]).Some? && OpensBody(lines, i)
    ensures var h := HeaderMatch(lines[i]).value;
      StepEntry(st, lines, i) == Ok(st.(openFunction := Some(DotFunction(h.0, SplitOn(h.1, ','), [], st.currentSet))))
  {
  }

  /** The entries strictly between `i` and `k` are plain and none is `}`. */
  predicate FunctionBody(lines: seq<string>, i: nat, k: nat)
    requires k <= |lines|
  {
    forall m :: i < m < k ==> Plain(lines, m) && lines[m] != "}"
  }

  /** After a header the open function holds the entries so far. */
  lemma {:induction false} FunctionCollects(lines: seq<string>, i: nat, k: nat, st: ParseState)
    requires i < k <= |lines| && ParseUpTo(lines, i) == Ok(st) && st.openStruct.None?
    requires !StartsWith(lines[i], "struct_") && !StartsWith(lines[i], "set_")
    requires HeaderMatch(lines[i]).Some? && OpensBody(lines, i)
    requires FunctionBody(lines, i, k)
    ensures var h := HeaderMatch(lines[i]).value;
      ParseUpTo(lines, k) == Ok(st.(openFunction := Some(DotFunction(h.0, SplitOn(h.1, ','), lines[i + 1..k], st.currentSet))))
    decreases k - i
  {
    var h := HeaderMatch(lines[i]).value;
    if k == i + 1 {
      ParseNext(lines, i, st);
      StepHeader(st, lines, i);
      assert lines[i + 1..k] == [];
    } else {
      FunctionCollects(lines, i, k - 1, st);
      BodyStep(lines, i, k, st, DotFunction(h.0, SplitOn(h.1, ','), [], st.currentSet));
    }
  }

  lemma BodyStep(lines: seq<string>, i: nat, k: nat, st: ParseState, f: DotFunction)
    requires i + 1 < k <= |lines| && Plain(lines, k - 1) && lines[k - 1] != "}" && st.openStruct.None?
    requires ParseUpTo(lines, k - 1) == Ok(st.(openFunction := Some(f.(body := lines[i + 1..k - 1]))))
    ensures ParseUpTo(lines, k) == Ok(st.(openFunction := Some(f.(body := lines[i + 1..k]))))
  {
    BodyNext(lines, k - 1, st.(openFunction := Some(f.(body := lines[i + 1..k - 1]))));
    assert lines[i + 1..k - 1] + [lines[k - 1]] == lines[i + 1..k];
  }

  /** The entry `{` is none of the openers. */
  lemma BraceIsPlain(lines: seq<string>, m: nat)
    requires m < |lines| && lines[m] == "{"
    ensures Plain(lines, m) && lines[m] != "}"
  {
    assert lines[m][0] == '{';
    assert Run(lines[m], 0, IsWordChar) == 0;
  }

  /** A function block: a header `f(args)` directly followed by `{` opens
      a function of the current set, whose body is every entry up to the
      closing `}`, the `{` included; at the `}` it joins the functions. */
  lemma FunctionBlock(lines: seq<string>, i: nat, k: nat, st: ParseState)
    requires i < k < |lines| && ParseUpTo(lines, i) == Ok(st) && st.openStruct.None?
    requires !StartsWith(lines[i], "struct_") && !StartsWith(lines[i], "set_")
    requires HeaderMatch(lines[i]).Some? && OpensBody(lines, i)
    requires FunctionBody(lines, i, k) && lines[k] == "}"
    ensures k > i + 1 && lines[i + 1..k][0] == "{"
    ensures var h := HeaderMatch(lines[i]).value;
      var f := DotFunction(h.0, SplitOn(h.1, ','), lines[i + 1..k], st.currentSet);
      ParseUpTo(lines, k + 1) == Ok(st.(program := st.program.(functions := st.program.functions + [f]), openFunction := None))
  {
    var h := HeaderMatch(lines[i]).value;
    FunctionCollects(lines, i, k, st);
    var before := st.(openFunction := Some(DotFunction(h.0, SplitOn(h.1, ','), lines[i + 1..k], st.currentSet)));
    ParseNext(lines, k, before);
    BraceClosesFunction(before, lines, k);
  }

  lemma BraceClosesFunction(st: ParseState, lines: seq<string>, k: nat)
    requires k < |lines| && lines[k] == "}" && st.openStruct.None? && st.openFunction.Some?
    ensures StepEntry(st, lines, k) == Ok(st.(program := st.program.(functions := st.program.functions + [st.openFunction.value]), openFunction := None))
  {
    assert lines[k][0] == '}';
    assert Run(lines[k], 0, IsWordChar) == 0;
  }

  // ---------------------------------------------------------------------
  // Top-level lines

  /** A plain entry outside any struct or function is a top-level line. */
  lemma StepLine(st: ParseState, lines: seq<string>, i: nat)
    requires i < |lines| && Plain(lines, i) && st.openStruct.None? && st.openFunction.None?
    ensures StepEntry(st, lines, i) == Ok(st.(program := st.program.(lines := st.program.lines + [lines[i]])))
  {
  }

  lemma LineNext(lines: seq<string>, i: nat, st: ParseState)
    requires i < |lines| && ParseUpTo(lines, i) == Ok(st)
    requires Plain(lines, i) && st.openStruct.None? && st.openFunction.None?
    ensures ParseUpTo(lines, i + 1) == Ok(st.(program := st.program.(lines := st.program.lines + [lines[i]])))
  {
    ParseNext(lines, i, st);
    StepLine(st, lines, i);
  }

  /** Plain entries outside any struct or function go to the program's
      lines, in order. */
  lemma {:induction false} TopLevelLines(lines: seq<string>, i: nat, k: nat, st: ParseState)
    requires i <= k <= |lines| && ParseUpTo(lines, i) == Ok(st) && st.openStruct.None? && st.openFunction.None?
    requires forall m :: i <= m < k ==> Plain(lines, m)
    ensures ParseUpTo(lines, k) == Ok(st.(program := st.program.(lines := st.program.lines + lines[i..k])))
    decreases k - i
  {
    if k == i {
      assert st.program.lines + lines[i..k] == st.program.lines;
    } else {
      TopLevelLines(lines, i, k - 1, st);
      TopLevelStep(lines, i, k, st);
    }
  }

  lemma TopLevelStep(lines: seq<string>, i: nat, k: nat, st: ParseState)
    requires i < k <= |lines| && Plain(lines, k - 1) && st.openStruct.None? && st.openFunction.None?
    requires ParseUpTo(lines, k - 1) == Ok(st.(program := st.program.(lines := st.program.lines + lines[i..k - 1])))
    ensures ParseUpTo(lines, k) == Ok(st.(program := st.program.(lines := st.program.lines + lines[i..k])))
  {
    LineNext(lines, k - 1, st.(program := st.program.(lines := st.program.lines + lines[i..k - 1])));
    assert st.program.lines + lines[i..k - 1] + [lines[k - 1]] == st.program.lines + lines[i..k];
  }

  // ---------------------------------------------------------------------
  // One step of the parser, branch by branch

  lemma StructOpenNext(lines: seq<string>, i: nat, st: ParseState, name: string)
    requires i < |lines| && ParseUpTo(lines, i) == Ok(st)
    requires StartsWith(lines[i], "struct_") && StructName(lines[i]) == Some(name)
    ensures ParseUpTo(lines, i + 1) == Ok(st.(openStruct := Some(DotStruct(name, []))))
  {
    ParseNext(lines, i, st);
  }

  /** A `struct_` or `set_` entry without a name raises, and the parse
      ends with that error. */
  lemma NameFails(lines: seq<string>, i: nat, st: ParseState)
    requires i < |lines| && ParseUpTo(lines, i) == Ok(st)
    requires || (StartsWith(lines[i], "struct_") && StructName(lines[i]).None?)
             || (!StartsWith(lines[i], "struct_") && st.openStruct.None? && StartsWith(lines[i], "set_") && SetName(lines[i]).None?)
    ensures ParseUpTo(lines, |lines|) == Err(IndexError)
  {
    ParseNext(lines, i, st);
    ErrSticks(lines, i + 1, |lines|);
  }

  lemma StructCloseNext(lines: seq<string>, i: nat, st: ParseState)
    requires i < |lines| && ParseUpTo(lines, i) == Ok(st)
    requires !StartsWith(lines[i], "struct_") && st.openStruct.Some? && lines[i] == ")"
    ensures ParseUpTo(lines, i + 1) == Ok(st.(program := st.program.(structs := Upsert(st.program.structs, st.openStruct.value)), openStruct := None))
  {
    ParseNext(lines, i, st);
  }

  lemma SetNext(lines: seq<string>, i: nat, st: ParseState, name: string)
    requires i < |lines| && ParseUpTo(lines, i) == Ok(st)
    requires !StartsWith(lines[i], "struct_") && st.openStruct.None? && StartsWith(lines[i], "set_") && SetName(lines[i]) == Some(name)
    ensures ParseUpTo(lines, i + 1) == Ok(st.(program := st.program.(sets := st.program.sets + [name]), currentSet := Some(name)))
  {
    ParseNext(lines, i, st);
  }

  lemma HeaderNext(lines: seq<string>, i: nat, st: ParseState)
    requires i < |lines| && ParseUpTo(lines, i) == Ok(st)
    requires !StartsWith(lines[i], "struct_") && !StartsWith(lines[i], "set_") && st.openStruct.None?
    requires HeaderMatch(lines[i]).Some? && OpensBody(lines, i)
    ensures var h := HeaderMatch(lines[i]).value;
      ParseUpTo(lines, i + 1) == Ok(st.(openFunction := Some(DotFunction(h.0, SplitOn(h.1, ','), [], st.currentSet))))
  {
    ParseNext(lines, i, st);
    StepHeader(st, lines, i);
  }

  lemma FunctionCloseNext(lines: seq<string>, i: nat, st: ParseState)
    requires i < |lines| && ParseUpTo(lines, i) == Ok(st)
    requires lines[i] == "}" && st.openStruct.None? && st.openFunction.Some?
    ensures ParseUpTo(lines, i + 1) == Ok(st.(program := st.program.(functions := st.program.functions + [st.openFunction.value]), openFunction := None))
  {
    ParseNext(lines, i, st);
    BraceClosesFunction(st, lines, i);
  }

  // ---------------------------------------------------------------------
  // The parser

  /** `parse_dot_program(dot_code)`: preprocess, then parse the entries. */
  method ParseDotProgram(code: string) returns (r: Result<DotProgram, string>)
    ensures r == ParseProgram(code)
  {
    var lines := PreprocessCode(code);
    r := ParseLines(lines);
  }

  /** The loop of `parse_dot_program`: one pass over the entries, with the
      open struct and the open function as flags beside their values. */
  method ParseLines(lines: seq<string>) returns (r: Result<DotProgram, string>)
    ensures r == ParseEntries(lines)
  {
    var program := DotProgram([], [], [], []);
    var inStruct := false;
    var currentStruct := DotStruct([], []);
    var inFunction := false;
    var currentFunc := DotFunction([], [], [], None);
    var currentSet: Option<string> := None;
    ghost var st := Start;
    for i := 0 to |lines|
      invariant ParseUpTo(lines, i) == Ok(st)
      invariant st == ParseState(program, if inStruct then Some(currentStruct) else None,
                                 if inFunction then Some(currentFunc) else None, currentSet)
    {
      var line := lines[i];
      if StartsWith(line, "struct_") {
        var structName := StructName(line);
        if structName.None? {
          NameFails(lines, i, st);
          return Err(IndexError);
        }
        StructOpenNext(lines, i, st, structName.value);
        st := st.(openStruct := Some(DotStruct(structName.value, [])));
        currentStruct := DotStruct(structName.value, []);
        inStruct := true;
        continue;
      }
      if inStruct {
        if line == ")" {
          StructCloseNext(lines, i, st);
          st := st.(program := st.program.(structs := Upsert(st.program.structs, st.openStruct.value)), openStruct := None);
          program := program.(structs := Upsert(program.structs, currentStruct));
          inStruct := false;
        } else {
          FieldNext(lines, i, st);
          st := st.(openStruct := Some(AddField(st.openStruct.value, lines[i])));
          var m := FieldMatch(line);
          if m.Some? {
            currentStruct := currentStruct.(fields := currentStruct.fields + [m.value]);
          }
        }
        continue;
      }
      if StartsWith(line, "set_") {
        var setName := SetName(line);
        if setName.None? {
          NameFails(lines, i, st);
          return Err(IndexError);
        }
        SetNext(lines, i, st, setName.value);
        st := st.(program := st.program.(sets := st.program.sets + [setName.value]), currentSet := Some(setName.value));
        currentSet := setName;
        program := program.(sets := program.sets + [setName.value]);
        continue;
      }
      var header := HeaderMatch(line);
      if header.Some? {
        var nextIndex := i + 1;
        if nextIndex < |lines| && lines[nextIndex] == "{" {
          HeaderNext(lines, i, st);
          st := st.(openFunction := Some(DotFunction(header.value.0, SplitOn(header.value.1, ','), [], st.currentSet)));
          currentFunc := DotFunction(header.value.0, SplitOn(header.value.1, ','), [], currentSet);
          inFunction := true;
          continue;
        }
      }
      if inFunction {
        if line == "}" {
          FunctionCloseNext(lines, i, st);
          st := st.(program := st.program.(functions := st.program.functions + [st.openFunction.value]), openFunction := None);
          program := program.(functions := program.functions + [currentFunc]);
          inFunction := false;
        } else {
          BodyNext(lines, i, st);
          st := st.(openFunction := Some(st.openFunction.value.(body := st.openFunction.value.body + [lines[i]])));
          currentFunc := currentFunc.(body := currentFunc.body + [line]);
        }
        continue;
      }
      LineNext(lines, i, st);
      st := st.(program := st.program.(lines := st.program.lines + [lines[i]]));
      program := program.(lines := program.lines + [line]);
    }
    r := Ok(program);
  }
}
