/**
 * What `transpile_dot_line` of 01_transpiler_training_wheels.py makes of
 * each kind of line.  A kind of line is described by a layout predicate
 * on the stripped line (`DeclLayout`, `AssignLayout`, ...) that says
 * where its parts lie; a `...From` lemma proves what the recognisers make
 * of any string with that layout, and the line lemma picks the branch of
 * the dispatch those results select, stating the output in terms of the
 * parts of the line.  The layouts of declarations, assignments, headers,
 * typed names, loops, branches and calls admit every line the pattern
 * takes: any type, size, name, expression or parameter list, any run of
 * blanks the pattern allows, and condition or argument text up to the
 * first terminator the lazy group stops at.  `TwoMarkers`, `BraceMarker`,
 * `PrintLayout` and `InstanceLayout` each describe one example shape of
 * their kind.
 */
module TrainingWheelsLines {
  import opened Wrappers
  import opened PyText
  import opened TrainingWheels

  /** All characters of `s` are word characters, and there is one. */
  predicate Word(s: string) {
    s != [] && forall k :: 0 <= k < |s| ==> IsWordChar(s[k])
  }

  /** `s` is a run of lower-case letters. */
  predicate Lower(s: string) {
    s != [] && forall k :: 0 <= k < |s| ==> IsLower(s[k])
  }

  /** None of the patterns before the headers matches `s`. */
  predicate NoAssignment(s: string) {
    s != [] && s[0] != '\'' && DeclMatch(s).None? && AssignMatch(s).None? && CommaAssignMatch(s).None?
  }

  /** Neither header matches `s`. */
  predicate NoHeader(s: string) {
    HeaderMatch(s, "set").None? && HeaderMatch(s, "struct").None?
  }

  /** None of the patterns the tail tries before the print matches `s`. */
  predicate NoEarlyTail(s: string) {
    s != [] && s[0] != '}' && s != "}" && WhileMatch(s).None? && IfMatch(s).None?
  }

  // ---------------------------------------------------------------------
  // The branches of the dispatch

  lemma TranspileDecl(st: StructState, line: string)
    requires var s := Strip(line); s != [] && s[0] != '\'' && DeclMatch(s).Some?
    ensures Transpile(st, line) == (DeclLine(DeclMatch(Strip(line)).value), st)
  {
  }

  lemma TranspileAssign(st: StructState, line: string)
    requires var s := Strip(line); s != [] && s[0] != '\'' && DeclMatch(s).None? && AssignMatch(s).Some?
    ensures Transpile(st, line) == (AssignLine(AssignMatch(Strip(line)).value), st)
  {
  }

  lemma TranspileCommaAssign(st: StructState, line: string)
    requires var s := Strip(line); s != [] && s[0] != '\'' && DeclMatch(s).None? && AssignMatch(s).None?
    requires CommaAssignMatch(Strip(line)).Some?
    ensures var (v, e) := CommaAssignMatch(Strip(line)).value; Transpile(st, line) == (v + " = " + e + ";", st)
  {
  }

  lemma TranspileSet(st: StructState, line: string)
    requires NoAssignment(Strip(line)) && HeaderMatch(Strip(line), "set").Some?
    ensures var h := HeaderMatch(Strip(line), "set").value;
      Transpile(st, line) == ("void " + h.name + "(" + Join(", ", SetParamTexts(SplitOn(h.params, ','))) + ") {", st)
  {
  }

  lemma TranspileStruct(st: StructState, line: string)
    requires NoAssignment(Strip(line)) && HeaderMatch(Strip(line), "set").None? && HeaderMatch(Strip(line), "struct").Some?
    ensures var h := HeaderMatch(Strip(line), "struct").value;
      Transpile(st, line) == ("struct " + h.name + " {", StructState(true, h.name, StructFields(SplitOn(h.params, ','))))
  {
  }

  lemma TranspileClose(st: StructState, line: string)
    requires NoAssignment(Strip(line)) && NoHeader(Strip(line)) && Strip(line) == "}" && st.inStruct
    ensures Transpile(st, line) == (CloseStruct(st.current, st.fields), st.(inStruct := false))
  {
  }

  lemma TranspileTail(st: StructState, line: string)
    requires NoAssignment(Strip(line)) && NoHeader(Strip(line)) && !(Strip(line) == "}" && st.inStruct)
    ensures Transpile(st, line) == (TailLine(Strip(line)), st)
  {
  }

  /** The branches of the patterns tried after the struct close. */
  lemma TailBrace(s: string)
    requires BraceWithMarkers(s)
    ensures TailLine(s) == "}"
  {
  }

  lemma TailWhile(s: string)
    requires s != [] && s[0] != '}' && WhileMatch(s).Some?
    ensures TailLine(s) == "while(" + ReplaceChar(WhileMatch(s).value, '"', "*") + ") {"
  {
  }

  lemma TailIf(s: string)
    requires s != [] && s[0] != '}' && WhileMatch(s).None? && IfMatch(s).Some?
    ensures TailLine(s) == "if(" + ReplaceChar(IfMatch(s).value, '"', "*") + ") {"
  {
  }

  lemma TailPrint(s: string)
    requires NoEarlyTail(s) && PrintMatch(s).Some?
    ensures TailLine(s) == "std::cout << *" + PrintMatch(s).value + " << std::endl;"
  {
  }

  lemma TailCall(s: string)
    requires NoEarlyTail(s) && PrintMatch(s).None? && CallMatch(s).Some?
    ensures TailLine(s) == CallLine(CallMatch(s).value.0, CallMatch(s).value.1)
  {
  }

  lemma TailUnhandled(s: string)
    requires NoEarlyTail(s) && PrintMatch(s).None? && CallMatch(s).None?
    ensures TailLine(s) == "// [UNHANDLED] " + s
  {
  }

  // ---------------------------------------------------------------------
  // Patterns that fail

  /** A line that opens with neither a word character nor `'` is no
      declaration, assignment or header. */
  lemma PunctuationFirst(s: string)
    requires s != [] && !IsWordChar(s[0]) && s[0] != '\''
    ensures NoAssignment(s) && NoHeader(s)
  {
    NotStartsAt(s, 0, "set");
    NotStartsAt(s, 0, "struct");
  }

  /** Where a declaration puts its blank: after nothing but word
      characters. */
  lemma DeclShape(s: string)
    ensures DeclSpansOf(s).Some? ==> var m := DeclSpansOf(s).value; var p := m.l + 1 + m.d;
      p < |s| && IsSpace(s[p]) && forall k :: 0 <= k < p ==> IsWordChar(s[k])
  {
    var l := Run(s, 0, IsLower);
    if 0 < l < |s| && s[l] == '_' {
      RunAll(s, 0, IsLower);
      RunAll(s, l + 1, IsDigit);
    }
  }

  /** Between the blank of a declaration and its name lie only blanks and
      one optional `'`, and the name opens with a word character. */
  lemma DeclNameShape(s: string)
    ensures DeclSpansOf(s).Some? ==> var m := DeclSpansOf(s).value; var p := m.l + 1 + m.d;
      p < m.n0 < |s| && IsWordChar(s[m.n0]) && forall k :: p <= k < m.n0 ==> IsSpace(s[k]) || s[k] == '\''
  {
    var l := Run(s, 0, IsLower);
    if 0 < l < |s| && s[l] == '_' {
      var p := l + 1 + Run(s, l + 1, IsDigit);
      RunAll(s, p, IsSpace);
    }
  }

  /** `s` opens with `v` word characters followed by a character that is
      neither a word character nor a blank. */
  predicate WordThen(s: string, v: nat) {
    0 < v < |s| && (forall k :: 0 <= k < v ==> IsWordChar(s[k])) && !IsWordChar(s[v]) && !IsSpace(s[v])
  }

  /** Such a line is no declaration: the blank a declaration needs after its
      size would have to lie inside the word. */
  lemma WordThenNoDecl(s: string, v: nat)
    requires WordThen(s, v)
    ensures DeclSpansOf(s).None?
  {
    DeclShape(s);
  }

  /** Nor an assignment, unless the word is followed by `"` or `=`. */
  lemma WordThenNoAssign(s: string, v: nat)
    requires WordThen(s, v) && s[v] != '"' && s[v] != '='
    ensures NoAssignment(s)
  {
    WordThenNoDecl(s, v);
    RunIs(s, 0, v, IsWordChar);
  }

  /** Nor a header opened by the word `kw`. */
  lemma WordThenNoHeader(s: string, v: nat, kw: string)
    requires WordThen(s, v) && Word(kw)
    ensures HeaderMatch(s, kw).None?
  {
    if StartsWith(s, kw) {
      PrefixChars(s, kw);
      assert |kw| <= v;
      assert Run(s, |kw|, IsSpace) == 0;
    }
  }

  /** Nor does it open with `kw(` unless the word is `kw` and `(` follows
      it. */
  lemma WordThenNotOpen(s: string, v: nat, kw: string)
    requires WordThen(s, v) && Word(kw) && (s[v] != '(' || s[..v] != kw)
    ensures !StartsWith(s, kw + "(")
  {
    var lit := kw + "(";
    var m := if |kw| < v then |kw| else v;
    assert lit[m] == (if m < |kw| then kw[m] else '(');
    if |lit| <= |s| {
      assert s[0..|lit|][m] == s[m];
      if |kw| == v {
        assert s[..v] == s[0..|lit|][..v];
        assert lit[..v] == kw;
      }
    }
  }

  /** All the patterns before the print that such a line can meet fail,
      unless the word is `while` or `if` and `(` follows it. */
  lemma WordThenTail(s: string, v: nat)
    requires WordThen(s, v) && (s[v] != '(' || (s[..v] != "while" && s[..v] != "if"))
    ensures NoHeader(s) && NoEarlyTail(s)
  {
    WordThenNoHeader(s, v, "set");
    WordThenNoHeader(s, v, "struct");
    WordThenNotOpen(s, v, "while");
    WordThenNotOpen(s, v, "if");
  }

  // ---------------------------------------------------------------------
  // Blank lines and release markers

  /** Blank lines and lines of release markers translate to nothing. */
  lemma BlankAndReleaseLinesVanish(st: StructState, line: string)
    requires Strip(line) == [] || MarkersToEnd(Strip(line), 0)
    ensures Transpile(st, line) == ("", st)
  {
  }

  /** A marker at `i`: `'`, `w` word characters, `\` and `sp` blanks. */
  lemma MarkerAt(s: string, i: nat, w: nat, sp: nat)
    requires i + 2 + w + sp <= |s| && 0 < w && s[i] == '\'' && s[i + 1 + w] == '\\'
    requires forall k :: i + 1 <= k < i + 1 + w ==> IsWordChar(s[k])
    requires forall k :: i + 2 + w <= k < i + 2 + w + sp ==> IsSpace(s[k])
    requires i + 2 + w + sp == |s| || !IsSpace(s[i + 2 + w + sp])
    ensures MarkerEnd(s, i) == Some(i + 2 + w + sp)
  {
    RunIs(s, i + 1, w, IsWordChar);
    RunIs(s, i + 2 + w, sp, IsSpace);
  }

  /** The layout of `'a\ 'b\` for names of `a` and `b` characters. */
  predicate TwoMarkers(s: string, a: nat, b: nat) {
    && 0 < a && 0 < b && |s| == a + b + 5
    && s[0] == '\'' && s[a + 1] == '\\' && s[a + 2] == ' ' && s[a + 3] == '\'' && s[a + b + 4] == '\\'
    && (forall k :: 1 <= k < a + 1 ==> IsWordChar(s[k]))
    && (forall k :: a + 4 <= k < a + b + 4 ==> IsWordChar(s[k]))
  }

  lemma TwoMarkersToEnd(s: string, a: nat, b: nat)
    requires TwoMarkers(s, a, b)
    ensures MarkersToEnd(s, 0)
  {
    MarkerAt(s, 0, a, 1);
    MarkerAt(s, a + 3, b, 0);
    assert MarkersToEnd(s, a + 3);
  }

  /** A line of two release markers `'a\ 'b\` translates to nothing. */
  lemma ReleaseMarkersLine(st: StructState, line: string, a: nat, b: nat)
    requires TwoMarkers(Strip(line), a, b)
    ensures Transpile(st, line) == ("", st)
  {
    TwoMarkersToEnd(Strip(line), a, b);
  }

  /** The layout of `} 'a\` for a name of `a` characters. */
  predicate BraceMarker(s: string, a: nat) {
    && 0 < a && |s| == a + 4 && s[0] == '}' && s[1] == ' ' && s[2] == '\'' && s[a + 3] == '\\'
    && (forall k :: 3 <= k < a + 3 ==> IsWordChar(s[k]))
  }

  lemma BraceMarkerFrom(s: string, a: nat)
    requires BraceMarker(s, a)
    ensures NoAssignment(s) && NoHeader(s) && s != "}" && BraceWithMarkers(s)
  {
    PunctuationFirst(s);
    RunOne(s, 1, IsSpace);
    MarkerAt(s, 2, a, 0);
  }

  /** `} 'a\`: a brace that releases a name is `}`, and the globals stay as
      they are, inside a struct or not. */
  lemma BraceWithMarkersKeepsState(st: StructState, line: string, a: nat)
    requires BraceMarker(Strip(line), a)
    ensures Transpile(st, line) == ("}", st)
  {
    BraceMarkerFrom(Strip(line), a);
    TranspileTail(st, line);
    TailBrace(Strip(line));
  }

  // ---------------------------------------------------------------------
  // Declarations

  /** The layout of a declaration: `l` type letters, `_`, `d` digits, `sp`
      blanks, an optional `'`, and a name of `w` characters from `n0` that
      ends the line or is followed by a character that is no word
      character. */
  predicate DeclLayout(s: string, l: nat, d: nat, sp: nat, n0: nat, w: nat) {
    && 0 < l && 0 < sp && l + 1 + d + sp <= n0 && 0 < w && n0 + w <= |s|
    && (forall k :: 0 <= k < l ==> IsLower(s[k]))
    && s[l] == '_'
    && (forall k :: l + 1 <= k < l + 1 + d ==> IsDigit(s[k]))
    && (forall k :: l + 1 + d <= k < l + 1 + d + sp ==> IsSpace(s[k]))
    && (n0 == l + 1 + d + sp || (n0 == l + 2 + d + sp && s[l + 1 + d + sp] == '\''))
    && (forall k :: n0 <= k < n0 + w ==> IsWordChar(s[k]))
    && (n0 + w == |s| || !IsWordChar(s[n0 + w]))
  }

  /** `DeclSpansOf` from the lengths of its runs. */
  lemma DeclSpansAt(s: string, l: nat, d: nat, sp: nat, n0: nat, w: nat)
    requires 0 < l < |s| && Run(s, 0, IsLower) == l && s[l] == '_'
    requires Run(s, l + 1, IsDigit) == d && Run(s, l + 1 + d, IsSpace) == sp > 0
    requires var q := l + 1 + d + sp; n0 == if q < |s| && s[q] == '\'' then q + 1 else q
    requires Run(s, n0, IsWordChar) == w > 0
    ensures DeclSpansOf(s) == Some(DeclSpans(l, d, n0, w))
  {
  }

  lemma DeclRuns(s: string, l: nat, d: nat, sp: nat, n0: nat, w: nat)
    requires DeclLayout(s, l, d, sp, n0, w)
    ensures Run(s, 0, IsLower) == l && Run(s, l + 1, IsDigit) == d
  {
    RunIs(s, 0, l, IsLower);
    RunIs(s, l + 1, d, IsDigit);
  }

  lemma DeclNameRuns(s: string, l: nat, d: nat, sp: nat, n0: nat, w: nat)
    requires DeclLayout(s, l, d, sp, n0, w)
    ensures Run(s, l + 1 + d, IsSpace) == sp && Run(s, n0, IsWordChar) == w
    ensures var q := l + 1 + d + sp; n0 == if s[q] == '\'' then q + 1 else q
  {
    assert IsWordChar(s[n0]);
    RunIs(s, l + 1 + d, sp, IsSpace);
    RunIs(s, n0, w, IsWordChar);
  }

  /** The groups of a declaration, from its layout. */
  lemma DeclFrom(s: string, l: nat, d: nat, sp: nat, n0: nat, w: nat)
    requires DeclLayout(s, l, d, sp, n0, w)
    ensures DeclMatch(s) == Some(Decl(s[..l], s[l + 1..l + 1 + d], s[n0..n0 + w])) && s[0] != '\''
  {
    assert IsLower(s[0]);
    DeclRuns(s, l, d, sp, n0, w);
    DeclNameRuns(s, l, d, sp, n0, w);
    DeclSpansAt(s, l, d, sp, n0, w);
    DeclMatchAt(s, l, d, n0, w);
  }

  lemma DeclMatchAt(s: string, l: nat, d: nat, n0: nat, w: nat)
    requires DeclSpansOf(s) == Some(DeclSpans(l, d, n0, w))
    ensures DeclMatch(s) == Some(Decl(s[..l], s[l + 1..l + 1 + d], s[n0..n0 + w]))
  {
  }

  /** A declaration `t_N 'name` with digits `N` is a stack array of `N`
      elements; without digits it allocates one heap scalar.  The C++
      type is looked up from the type letters, `int` when they are not in
      the table.  Whatever follows the name (`;` or anything else) is
      ignored. */
  lemma DeclarationLine(st: StructState, line: string, l: nat, d: nat, sp: nat, n0: nat, w: nat)
    requires DeclLayout(Strip(line), l, d, sp, n0, w)
    ensures var s := Strip(line); var t, n, name := s[..l], s[l + 1..l + 1 + d], s[n0..n0 + w];
      Transpile(st, line)
        == (if n != [] then CType(t) + " " + name + "[" + n + "];" else CType(t) + "* " + name + " = new " + CType(t) + ";", st)
  {
    DeclFrom(Strip(line), l, d, sp, n0, w);
    TranspileDecl(st, line);
  }

  // ---------------------------------------------------------------------
  // Assignments

  /** The layout of an assignment through a pointer: `v` word characters,
      `"`, `d` digits, `sp` blanks, `=` at `a`, blanks up to `e0`, an
      expression of `e` characters that opens with no blank, and `;`. */
  predicate AssignLayout(s: string, v: nat, d: nat, a: nat, e0: nat, e: nat) {
    && 0 < v && v + 1 + d <= a < e0 && 0 < e && e0 + e < |s|
    && (forall j :: 0 <= j < v ==> IsWordChar(s[j]))
    && s[v] == '"' && s[a] == '=' && s[e0 + e] == ';'
    && (forall j :: v + 1 <= j < v + 1 + d ==> IsDigit(s[j]))
    && (forall j :: v + 1 + d <= j < a ==> IsSpace(s[j]))
    && (forall j :: a + 1 <= j < e0 ==> IsSpace(s[j]))
    && !IsSpace(s[e0])
    && (forall j :: e0 <= j < e0 + e ==> IsExprChar(s[j]))
  }

  /** `AssignMatch` from the lengths of its runs. */
  lemma AssignAt(s: string, v: nat, d: nat, a: nat, e0: nat, e: nat)
    requires 0 < v && v + 1 + d <= a < e0 && e0 + e < |s| && Run(s, 0, IsWordChar) == v && s[v] == '"'
    requires Run(s, v + 1, IsDigit) == d && v + 1 + d + Run(s, v + 1 + d, IsSpace) == a && s[a] == '='
    requires a + 1 + Run(s, a + 1, IsSpace) == e0 && Run(s, e0, IsExprChar) == e > 0
    requires s[e0 + e] == ';'
    ensures AssignMatch(s) == Some(Assign(s[..v], s[v + 1..v + 1 + d], s[e0..e0 + e]))
  {
    AssignExprAt(s, a, e0, e);
    AssignIndexedAt(s, v, d, a, s[e0..e0 + e]);
  }

  lemma AssignIndexedAt(s: string, v: nat, d: nat, a: nat, expr: string)
    requires v + 1 + d <= a < |s| && Run(s, v + 1, IsDigit) == d && v + 1 + d + Run(s, v + 1 + d, IsSpace) == a
    requires s[a] == '=' && AssignExpr(s, a) == Some(expr)
    ensures AssignIndexed(s, v) == Some(Assign(s[..v], s[v + 1..v + 1 + d], expr))
  {
  }

  lemma AssignExprAt(s: string, a: nat, e0: nat, e: nat)
    requires a < e0 && e0 + e < |s| && s[a] == '=' && a + 1 + Run(s, a + 1, IsSpace) == e0
    requires Run(s, e0, IsExprChar) == e > 0 && s[e0 + e] == ';'
    ensures AssignExpr(s, a) == Some(s[e0..e0 + e])
  {
  }

  lemma AssignRuns(s: string, v: nat, d: nat, a: nat, e0: nat, e: nat)
    requires AssignLayout(s, v, d, a, e0, e)
    ensures Run(s, 0, IsWordChar) == v && Run(s, v + 1, IsDigit) == d
  {
    RunIs(s, 0, v, IsWordChar);
    RunIs(s, v + 1, d, IsDigit);
  }

  lemma AssignBlankRuns(s: string, v: nat, d: nat, a: nat, e0: nat, e: nat)
    requires AssignLayout(s, v, d, a, e0, e)
    ensures v + 1 + d + Run(s, v + 1 + d, IsSpace) == a && a + 1 + Run(s, a + 1, IsSpace) == e0
  {
    RunIs(s, v + 1 + d, a - (v + 1 + d), IsSpace);
    RunIs(s, a + 1, e0 - (a + 1), IsSpace);
  }

  lemma AssignValueRuns(s: string, v: nat, d: nat, a: nat, e0: nat, e: nat)
    requires AssignLayout(s, v, d, a, e0, e)
    ensures Run(s, e0, IsExprChar) == e
  {
    RunIs(s, e0, e, IsExprChar);
  }

  /** The groups of an assignment through a pointer, from its layout; such a
      line is no declaration. */
  lemma AssignFrom(s: string, v: nat, d: nat, a: nat, e0: nat, e: nat)
    requires AssignLayout(s, v, d, a, e0, e)
    ensures AssignMatch(s) == Some(Assign(s[..v], s[v + 1..v + 1 + d], s[e0..e0 + e]))
    ensures DeclSpansOf(s).None? && s[0] != '\''
  {
    AssignRuns(s, v, d, a, e0, e);
    AssignBlankRuns(s, v, d, a, e0, e);
    AssignValueRuns(s, v, d, a, e0, e);
    AssignAt(s, v, d, a, e0, e);
    WordThenNoDecl(s, v);
  }

  /** `v"k = e;` stores into element `k` of `v`, and `v" = e;` through the
      pointer `v`, whatever blanks surround the `=`; every `"` of the
      expression becomes `*`. */
  lemma PointerAssignment(st: StructState, line: string, v: nat, d: nat, a: nat, e0: nat, e: nat)
    requires AssignLayout(Strip(line), v, d, a, e0, e)
    ensures var s := Strip(line); var k := s[v + 1..v + 1 + d]; var x := ReplaceChar(s[e0..e0 + e], '"', "*");
      Transpile(st, line) == (if k != [] then s[..v] + "[" + k + "] = " + x + ";" else "*" + s[..v] + " = " + x + ";", st)
  {
    AssignFrom(Strip(line), v, d, a, e0, e);
    TranspileAssign(st, line);
  }

  /** The layout of `v = e,`: `v` word characters, blanks, `=` at `a`,
      blanks up to `e0`, `e` characters of a value and `,`. */
  predicate CommaLayout(s: string, v: nat, a: nat, e0: nat, e: nat) {
    && 0 < v && v <= a < e0 && 0 < e && e0 + e < |s|
    && (forall j :: 0 <= j < v ==> IsWordChar(s[j]))
    && (forall j :: v <= j < a ==> IsSpace(s[j]))
    && s[a] == '='
    && (forall j :: a + 1 <= j < e0 ==> IsSpace(s[j]))
    && (forall j :: e0 <= j < e0 + e ==> IsValueChar(s[j]))
    && s[e0 + e] == ','
  }

  /** A word, then blanks and `=`, is no declaration: there is no name
      after the blanks. */
  lemma CommaNotDecl(s: string, v: nat, a: nat, e0: nat, e: nat)
    requires CommaLayout(s, v, a, e0, e)
    ensures DeclSpansOf(s).None?
  {
    DeclShape(s);
    DeclNameShape(s);
  }

  lemma CommaAssignAt(s: string, v: nat, a: nat, e0: nat, e: nat)
    requires 0 < v <= a < e0 && e0 + e < |s| && Run(s, 0, IsWordChar) == v && v + Run(s, v, IsSpace) == a && s[a] == '='
    requires a + 1 + Run(s, a + 1, IsSpace) == e0 && Run(s, e0, IsValueChar) == e > 0 && s[e0 + e] == ','
    ensures CommaAssignMatch(s) == Some((s[..v], s[e0..e0 + e]))
  {
    CommaValueAt(s, a, e0, e);
  }

  lemma CommaValueAt(s: string, a: nat, e0: nat, e: nat)
    requires a < e0 && e0 + e < |s| && a + 1 + Run(s, a + 1, IsSpace) == e0
    requires Run(s, e0, IsValueChar) == e > 0 && s[e0 + e] == ','
    ensures CommaValue(s, a) == Some(s[e0..e0 + e])
  {
  }

  /** A word followed by anything but `"` is no assignment through a
      pointer. */
  lemma NoQuoteNoAssign(s: string, v: nat)
    requires 0 < v < |s| && Run(s, 0, IsWordChar) == v && s[v] != '"'
    ensures AssignMatch(s).None?
  {
  }

  lemma CommaRuns(s: string, v: nat, a: nat, e0: nat, e: nat)
    requires CommaLayout(s, v, a, e0, e)
    ensures Run(s, 0, IsWordChar) == v && Run(s, v, IsSpace) == a - v
  {
    RunIs(s, 0, v, IsWordChar);
    RunIs(s, v, a - v, IsSpace);
  }

  lemma CommaValueRuns(s: string, v: nat, a: nat, e0: nat, e: nat)
    requires CommaLayout(s, v, a, e0, e)
    ensures Run(s, a + 1, IsSpace) == e0 - (a + 1) && Run(s, e0, IsValueChar) == e
  {
    assert IsValueChar(s[e0]);
    RunIs(s, a + 1, e0 - (a + 1), IsSpace);
    RunIs(s, e0, e, IsValueChar);
  }

  /** The groups of `v = e,` from its layout; such a line is no declaration
      and no assignment through a pointer. */
  lemma CommaFrom(s: string, v: nat, a: nat, e0: nat, e: nat)
    requires CommaLayout(s, v, a, e0, e)
    ensures CommaAssignMatch(s) == Some((s[..v], s[e0..e0 + e]))
    ensures DeclSpansOf(s).None? && AssignMatch(s).None? && s[0] != '\''
  {
    CommaRuns(s, v, a, e0, e);
    CommaValueRuns(s, v, a, e0, e);
    CommaAssignAt(s, v, a, e0, e);
    assert IsSpace(s[v]) || s[v] == '=';
    NoQuoteNoAssign(s, v);
    CommaNotDecl(s, v, a, e0, e);
  }

  /** `v = e,` is a plain assignment `v = e;`, whatever blanks surround the
      `=`. */
  lemma CommaAssignment(st: StructState, line: string, v: nat, a: nat, e0: nat, e: nat)
    requires CommaLayout(Strip(line), v, a, e0, e)
    ensures var s := Strip(line); Transpile(st, line) == (s[..v] + " = " + s[e0..e0 + e] + ";", st)
  {
    CommaFrom(Strip(line), v, a, e0, e);
    TranspileCommaAssign(st, line);
  }

  // ---------------------------------------------------------------------
  // Headers and the struct close

  /** The layout of `kw name(params) {`: the keyword, blanks, a name of
      `w` characters from `n0`, `(`, and parameters up to the first `)` at
      `j` that blanks and `{` follow, with no newline before it. */
  predicate HeaderLayout(s: string, kw: string, n0: nat, w: nat, j: nat) {
    && StartsWith(s, kw) && |kw| < n0 && 0 < w && n0 + w < j < |s|
    && (forall k :: |kw| <= k < n0 ==> IsSpace(s[k]))
    && (forall k :: n0 <= k < n0 + w ==> IsWordChar(s[k]))
    && s[n0 + w] == '(' && CloseThenBrace(s, j)
    && (forall k {:trigger CloseThenBrace(s, k)} :: n0 + w < k < j ==> !CloseThenBrace(s, k))
    && (forall k :: n0 + w < k < j ==> s[k] != '\n')
  }

  lemma HeaderAt(s: string, kw: string, n0: nat, h: Header)
    requires StartsWith(s, kw) && |kw| < n0 <= |s| && |kw| + Run(s, |kw|, IsSpace) == n0
    requires HeaderNamed(s, n0) == Some(h)
    ensures HeaderMatch(s, kw) == Some(h)
  {
    var sp := Run(s, |kw|, IsSpace);
    assert sp != 0 && |kw| + sp == n0;
  }

  lemma HeaderNamedAt(s: string, n0: nat, w: nat, j: nat)
    requires n0 + w < j <= |s| && 0 < w && s[n0 + w] == '(' && Run(s, n0, IsWordChar) == w
    requires LazyEnd(s, n0 + w + 1, CloseThenBrace) == Some(j)
    ensures HeaderNamed(s, n0) == Some(Header(s[n0..n0 + w], s[n0 + w + 1..j]))
  {
  }

  lemma HeaderRuns(s: string, kw: string, n0: nat, w: nat, j: nat)
    requires HeaderLayout(s, kw, n0, w, j)
    ensures Run(s, |kw|, IsSpace) == n0 - |kw| && Run(s, n0, IsWordChar) == w
  {
    assert IsWordChar(s[n0]);
    RunIs(s, |kw|, n0 - |kw|, IsSpace);
    RunIs(s, n0, w, IsWordChar);
  }

  /** The groups of a header, from its layout. */
  lemma HeaderFrom(s: string, kw: string, n0: nat, w: nat, j: nat)
    requires HeaderLayout(s, kw, n0, w, j)
    ensures HeaderMatch(s, kw) == Some(Header(s[n0..n0 + w], s[n0 + w + 1..j]))
  {
    HeaderRuns(s, kw, n0, w, j);
    LazyEndIs(s, n0 + w + 1, j, CloseThenBrace);
    HeaderNamedAt(s, n0, w, j);
    HeaderAt(s, kw, n0, Header(s[n0..n0 + w], s[n0 + w + 1..j]));
  }

  /** A header opened by a lower-case keyword is no declaration and no
      assignment. */
  lemma KeywordLine(s: string, kw: string, n0: nat, w: nat, j: nat)
    requires Lower(kw) && HeaderLayout(s, kw, n0, w, j)
    ensures NoAssignment(s)
  {
    PrefixChars(s, kw);
    HeaderRuns(s, kw, n0, w, j);
    RunIs(s, 0, |kw|, IsLower);
    RunIs(s, 0, |kw|, IsWordChar);
  }

  /** A line opened by `struct` is no set header. */
  lemma StructIsNotSet(s: string)
    requires StartsWith(s, "struct")
    ensures HeaderMatch(s, "set").None?
  {
    PrefixChars(s, "struct");
    assert s[0..3][1] == 't';
  }

  /** `struct Name(params) {` opens a struct: the line becomes `struct Name {`,
      the struct is marked open under its name and its fields are the
      pieces of the parameter list that declare one. */
  lemma StructHeaderOpens(st: StructState, line: string, n0: nat, w: nat, j: nat)
    requires HeaderLayout(Strip(line), "struct", n0, w, j)
    ensures var s := Strip(line); var name := s[n0..n0 + w];
      Transpile(st, line) == ("struct " + name + " {", StructState(true, name, StructFields(SplitOn(s[n0 + w + 1..j], ','))))
  {
    KeywordLine(Strip(line), "struct", n0, w, j);
    StructIsNotSet(Strip(line));
    HeaderFrom(Strip(line), "struct", n0, w, j);
    TranspileStruct(st, line);
  }

  /** `set name(params) {` opens a function returning nothing, whose
      parameters are the kept pieces of the list, rendered in order. */
  lemma SetHeaderLine(st: StructState, line: string, n0: nat, w: nat, j: nat)
    requires HeaderLayout(Strip(line), "set", n0, w, j)
    ensures var s := Strip(line);
      Transpile(st, line) == ("void " + s[n0..n0 + w] + "(" + Join(", ", SetParamTexts(SplitOn(s[n0 + w + 1..j], ','))) + ") {", st)
  {
    KeywordLine(Strip(line), "set", n0, w, j);
    HeaderFrom(Strip(line), "set", n0, w, j);
    TranspileSet(st, line);
  }

  /** `}` matches no pattern before the struct close, and the tail makes it
      `}`. */
  lemma LoneBraceFacts()
    ensures NoAssignment("}") && NoHeader("}") && TailLine("}") == "}"
  {
    PunctuationFirst("}");
    NotStartsAt("}", 0, "while(");
    NotStartsAt("}", 0, "if(");
  }

  /** A lone `}` closes the open struct: the members, the constructor and
      the destructor are emitted and the struct is closed, its name and
      fields kept.  Outside a struct it stays `}`, the globals unchanged. */
  lemma BraceClosesStruct(st: StructState, line: string)
    requires Strip(line) == "}"
    ensures st.inStruct ==> Transpile(st, line) == (CloseStruct(st.current, st.fields), st.(inStruct := false))
    ensures !st.inStruct ==> Transpile(st, line) == ("}", st)
  {
    LoneBraceFacts();
    if st.inStruct {
      TranspileClose(st, line);
    } else {
      TranspileTail(st, line);
    }
  }

  /** A struct header, then `}`: the struct closes with exactly the fields
      its header declared. */
  lemma HeaderThenClose(st: StructState, line: string, n0: nat, w: nat, j: nat, close: string)
    requires HeaderLayout(Strip(line), "struct", n0, w, j) && Strip(close) == "}"
    ensures var s := Strip(line); var name := s[n0..n0 + w]; var fields := StructFields(SplitOn(s[n0 + w + 1..j], ','));
      Transpile(Transpile(st, line).1, close) == (CloseStruct(name, fields), StructState(false, name, fields))
  {
    StructHeaderOpens(st, line, n0, w, j);
    BraceClosesStruct(Transpile(st, line).1, close);
  }

  // ---------------------------------------------------------------------
  // Prints, calls and the rest

  /** `s` is `x"` with `x` of `v` word characters. */
  predicate PrintLayout(s: string, v: nat) {
    WordThen(s, v) && v + 1 == |s| && s[v] == '"'
  }

  /** `x"` is the print pattern and no earlier one. */
  lemma PrintFrom(s: string, v: nat)
    requires PrintLayout(s, v)
    ensures NoAssignment(s) && NoHeader(s) && NoEarlyTail(s) && PrintMatch(s) == Some(s[..v])
  {
    WordThenNoDecl(s, v);
    RunIs(s, 0, v, IsWordChar);
    WordThenTail(s, v);
  }

  /** `x"` prints what `x` points to. */
  lemma PrintLine(st: StructState, line: string, v: nat)
    requires PrintLayout(Strip(line), v)
    ensures Transpile(st, line) == ("std::cout << *" + Strip(line)[..v] + " << std::endl;", st)
  {
    PrintFrom(Strip(line), v);
    TranspileTail(st, line);
    TailPrint(Strip(line));
  }

  /** The layout of `path(args);`: a path of words joined by single dots
      that ends at `pe` and is neither `if` nor `while`, `(`, and the
      arguments up to the first `);` at `j`, with no newline before it. */
  predicate CallLayout(s: string, pe: nat, j: nat) {
    && 0 < pe < j && j + 2 <= |s| && IsWordChar(s[0])
    && (forall k :: 0 <= k < pe ==> IsWordChar(s[k]) || s[k] == '.')
    && (forall k :: 0 <= k < pe && s[k] == '.' ==> IsWordChar(s[k + 1]))
    && s[pe] == '(' && s[..pe] != "if" && s[..pe] != "while"
    && s[j] == ')' && s[j + 1] == ';'
    && (forall k :: pe < k < j ==> !(s[k] == ')' && s[k + 1] == ';') && s[k] != '\n')
  }

  /** A run stops before a character that does not belong to it. */
  lemma RunBefore(s: string, i: nat, b: nat, p: char -> bool)
    requires i <= b < |s| && !p(s[b])
    ensures i + Run(s, i, p) <= b
  {
    RunAll(s, i, p);
  }

  /** `(?:\.\w+)*` from `i` runs up to the `(` at `pe` across words joined
      by single dots. */
  lemma {:induction false} DottedEndAt(s: string, i: nat, pe: nat)
    requires i <= pe < |s| && s[pe] == '(' && (i == pe || s[i] == '.')
    requires forall k :: i <= k < pe ==> IsWordChar(s[k]) || s[k] == '.'
    requires forall k :: i <= k < pe && s[k] == '.' ==> IsWordChar(s[k + 1])
    ensures DottedEnd(s, i) == pe
    decreases pe - i
  {
    if i < pe {
      assert IsWordChar(s[i + 1]);
      RunBefore(s, i + 1, pe, IsWordChar);
      var n := i + 1 + Run(s, i + 1, IsWordChar);
      DottedEndAt(s, n, pe);
    }
  }

  /** The called path is the words of the layout, up to `pe`. */
  lemma CallRuns(s: string, pe: nat, j: nat)
    requires CallLayout(s, pe, j)
    ensures var a := Run(s, 0, IsWordChar); 0 < a <= pe && (a == pe || s[a] == '.') && DottedEnd(s, a) == pe
  {
    RunBefore(s, 0, pe, IsWordChar);
    DottedEndAt(s, Run(s, 0, IsWordChar), pe);
  }

  /** A call line matches none of the patterns before the call. */
  lemma CallNoEarlier(s: string, pe: nat, j: nat)
    requires CallLayout(s, pe, j)
    ensures NoAssignment(s) && NoHeader(s) && NoEarlyTail(s) && PrintMatch(s).None?
  {
    CallRuns(s, pe, j);
    var a := Run(s, 0, IsWordChar);
    RunAll(s, 0, IsWordChar);
    assert WordThen(s, a);
    WordThenNoAssign(s, a);
    WordThenTail(s, a);
  }

  /** The lazy argument text ends at the first `);`. */
  lemma ArgsEnd(s: string, i: nat, j: nat)
    requires i <= j && j + 2 <= |s| && s[j] == ')' && s[j + 1] == ';'
    requires forall k :: i <= k < j ==> !(s[k] == ')' && s[k + 1] == ';') && s[k] != '\n'
    ensures LazyEnd(s, i, CallEndAt) == Some(j)
  {
    assert s[j..j + 2] == ");";
    forall k | i <= k < j ensures !CallEndAt(s, k) {
      if k + 2 <= |s| { assert s[k..k + 2][0] == s[k] && s[k..k + 2][1] == s[k + 1]; }
    }
    LazyEndIs(s, i, j, CallEndAt);
  }

  /** The call groups, from the layout. */
  lemma CallFrom(s: string, pe: nat, j: nat)
    requires CallLayout(s, pe, j)
    ensures CallMatch(s) == Some((s[..pe], s[pe + 1..j]))
  {
    CallRuns(s, pe, j);
    ArgsEnd(s, pe + 1, j);
  }

  /** `path(args);` calls the function named by the path with every `.`
      written `_` (`a.b.c` becomes `a_b_c`, a plain name stays as it is),
      with the arguments split on `;`. */
  lemma MethodCallLine(st: StructState, line: string, pe: nat, j: nat)
    requires CallLayout(Strip(line), pe, j)
    ensures var s := Strip(line); var f := ReplaceChar(s[..pe], '.', "_");
      && |f| == pe && (forall k :: 0 <= k < pe ==> f[k] == if s[k] == '.' then '_' else s[k])
      && Transpile(st, line) == (f + "(" + Join(", ", CallArgs(SplitOn(s[pe + 1..j], ';'))) + ");", st)
  {
    CallNoEarlier(Strip(line), pe, j);
    CallFrom(Strip(line), pe, j);
    ReplaceCharByChar(Strip(line)[..pe], '.', '_');
    TranspileTail(st, line);
    TailCall(Strip(line));
  }

  /** No argument of a call keeps a `'` or a `:`. */
  lemma {:induction false} CallArgsClean(pieces: seq<string>)
    ensures forall k :: 0 <= k < |CallArgs(pieces)| ==> '\'' !in CallArgs(pieces)[k] && ':' !in CallArgs(pieces)[k]
    decreases |pieces|
  {
    if pieces != [] {
      var y := ReplaceChar(pieces[0], '\'', "&");
      var x := ReplaceChar(y, ':', "");
      ReplaceCharKeepsOut(y, ':', "", '\'');
      StripChars(x, '\'');
      StripChars(x, ':');
      CallArgsClean(pieces[1..]);
    }
  }

  /** The argument a non-blank piece gives. */
  lemma OneArgument(p: string)
    requires Strip(p) != []
    ensures CallArgs([p]) == [Strip(ReplaceChar(ReplaceChar(p, '\'', "&"), ':', ""))]
  {
    assert [p][1..] == [];
  }

  /** A word is one argument as it stands. */
  lemma WordArgument(x: string)
    requires x != [] && forall k :: 0 <= k < |x| ==> IsWordChar(x[k])
    ensures Strip(x) == x
  {
    StripKeeps(x);
  }

  /** `'x`, with `x` a word, passes the address `&x`. */
  lemma QuoteArgument(x: string)
    requires x != [] && forall k :: 0 <= k < |x| ==> IsWordChar(x[k])
    ensures CallArgs(["'" + x]) == ["&" + x]
  {
    WordLacks(x, '\'');
    WordLacks(x, ':');
    ReplaceOne([], x, '\'', "&");
    assert [] + ['\''] + x == "'" + x && [] + "&" + x == "&" + x;
    assert ':' !in "&" + x;
    StripKeeps("'" + x);
    StripKeeps("&" + x);
    OneArgument("'" + x);
  }

  /** `x:`, with `x` a word, passes `x`. */
  lemma ColonArgument(x: string)
    requires x != [] && forall k :: 0 <= k < |x| ==> IsWordChar(x[k])
    ensures CallArgs([x + ":"]) == [x]
  {
    var p := x + ":";
    calc {
      CallArgs([p]);
    == { StripKeeps(p); OneArgument(p); }
      [Strip(ReplaceChar(ReplaceChar(p, '\'', "&"), ':', ""))];
    == { WordLacks(x, '\''); assert '\'' !in p; }
      [Strip(ReplaceChar(p, ':', ""))];
    == { WordLacks(x, ':'); ReplaceOne(x, [], ':', ""); assert x + [':'] + [] == p && x + "" + [] == x; }
      [Strip(x)];
    == { StripKeeps(x); }
      [x];
    }
  }

  /** The layout of `T 'v;`: a capitalised word of `n` characters, a
      blank and `'`. */
  predicate InstanceLayout(s: string, n: nat) {
    0 < n && n + 1 < |s| && 'A' <= s[0] <= 'Z' && s[n] == ' ' && s[n + 1] == '\''
    && forall k :: 0 <= k < n ==> IsWordChar(s[k])
  }

  /** Such a line is no declaration and no assignment or header. */
  lemma InstanceNoAssignment(s: string, n: nat)
    requires InstanceLayout(s, n)
    ensures NoAssignment(s) && NoHeader(s)
  {
    RunIs(s, 0, n, IsWordChar);
    RunOne(s, n, IsSpace);
    NotStartsAt(s, 0, "set");
    NotStartsAt(s, 0, "struct");
  }

  /** Nor does any pattern of the tail match it. */
  lemma InstanceNoTail(s: string, n: nat)
    requires InstanceLayout(s, n)
    ensures NoEarlyTail(s) && PrintMatch(s).None? && CallMatch(s).None?
  {
    RunIs(s, 0, n, IsWordChar);
    assert DottedEnd(s, n) == n;
    NotStartsAt(s, 0, "while(");
    NotStartsAt(s, 0, "if(");
  }

  /** An instance declaration `T 'v;` of a struct type `T` matches no
      pattern and is left as an unhandled line. */
  lemma StructInstanceUnhandled(st: StructState, line: string, n: nat)
    requires InstanceLayout(Strip(line), n)
    ensures Transpile(st, line) == ("// [UNHANDLED] " + Strip(line), st)
  {
    InstanceNoAssignment(Strip(line), n);
    InstanceNoTail(Strip(line), n);
    TranspileTail(st, line);
    TailUnhandled(Strip(line));
  }

  // ---------------------------------------------------------------------
  // Parameters and fields

  /** The pieces of a set function's parameter list come from splitting on
      `,`, so the `,` modifier is never seen: a kept piece ends its name
      with `.`, and a piece with no `.` is dropped. */
  lemma SetParamPiece(piece: string)
    requires ',' !in piece
    ensures SetParamMatch(Strip(piece)).Some? ==> SetParamMatch(Strip(piece)).value.modifier == '.'
    ensures '.' !in piece ==> SetParamText(piece).None?
  {
    StripChars(piece, ',');
    if '.' !in piece {
      StripChars(piece, '.');
    }
  }

  /** Hence in every set header each parameter written with `,` after it,
      and any other piece with no `.`, is dropped. */
  lemma SetParamsDropCommaEnded(params: string)
    ensures forall k :: 0 <= k < |SplitOn(params, ',')| && '.' !in SplitOn(params, ',')[k] ==>
      SetParamText(SplitOn(params, ',')[k]).None?
  {
    var pieces := SplitOn(params, ',');
    forall k | 0 <= k < |pieces| && '.' !in pieces[k] ensures SetParamText(pieces[k]).None? {
      SetParamPiece(pieces[k]);
    }
  }

  /** The layout of a typed name: `l` type letters, `_`, `sp` blanks, an
      optional `'`, and a name of `w` characters from `n0` that ends there. */
  predicate TypedLayout(p: string, l: nat, sp: nat, n0: nat, w: nat) {
    && 0 < l && l + 1 + sp <= n0 && 0 < w && n0 + w <= |p|
    && (forall k :: 0 <= k < l ==> IsLower(p[k]))
    && p[l] == '_'
    && (forall k :: l + 1 <= k < l + 1 + sp ==> IsSpace(p[k]))
    && (n0 == l + 1 + sp || (n0 == l + 2 + sp && p[l + 1 + sp] == '\''))
    && (forall k :: n0 <= k < n0 + w ==> IsWordChar(p[k]))
    && (n0 + w == |p| || !IsWordChar(p[n0 + w]))
  }

  lemma TypedRuns(p: string, l: nat, sp: nat, n0: nat, w: nat)
    requires TypedLayout(p, l, sp, n0, w)
    ensures Run(p, 0, IsLower) == l && Run(p, l + 1, IsSpace) == sp
  {
    assert IsWordChar(p[n0]);
    RunIs(p, 0, l, IsLower);
    RunIs(p, l + 1, sp, IsSpace);
  }

  /** `TypedName` from the layout. */
  lemma TypedNameFrom(p: string, l: nat, sp: nat, n0: nat, w: nat)
    requires TypedLayout(p, l, sp, n0, w)
    ensures TypedName(p) == Some((p[..l], p[n0..n0 + w], n0 + w))
  {
    TypedRuns(p, l, sp, n0, w);
    RunIs(p, n0, w, IsWordChar);
    QuotedNameAt(p, l + 1, sp, n0, w);
  }

  lemma QuotedNameAt(p: string, i: nat, sp: nat, n0: nat, w: nat)
    requires i + sp <= n0 && n0 + w <= |p| && Run(p, i, IsSpace) == sp && Run(p, n0, IsWordChar) == w > 0
    requires n0 == if i + sp < |p| && p[i + sp] == '\'' then i + sp + 1 else i + sp
    ensures QuotedName(p, i) == Some((p[n0..n0 + w], n0 + w))
  {
  }

  /** A piece `t_ 'name.` (or `t_ name.`, with any blanks after `_`)
      renders as a parameter of the C++ type of `t`; it is a pointer when
      the piece holds a `'` anywhere, and the modifier, `.` or `,`, makes
      no difference. */
  lemma SetParamRendering(piece: string, l: nat, sp: nat, n0: nat, w: nat)
    requires TypedLayout(Strip(piece), l, sp, n0, w)
    requires n0 + w < |Strip(piece)| && (Strip(piece)[n0 + w] == '.' || Strip(piece)[n0 + w] == ',')
    ensures var p := Strip(piece);
      SetParamText(piece) == Some(CType(p[..l]) + (if '\'' in p then "* " else " ") + p[n0..n0 + w])
  {
    SetParamFrom(Strip(piece), l, sp, n0, w);
  }

  lemma SetParamFrom(p: string, l: nat, sp: nat, n0: nat, w: nat)
    requires TypedLayout(p, l, sp, n0, w) && n0 + w < |p| && (p[n0 + w] == '.' || p[n0 + w] == ',')
    ensures SetParamMatch(p) == Some(SetParam(p[..l], p[n0..n0 + w], p[n0 + w]))
  {
    TypedNameFrom(p, l, sp, n0, w);
  }

  /** A field piece `t_ 'name` of a struct header records the C++ type of
      `t` and the name. */
  lemma FieldRendering(piece: string, l: nat, sp: nat, n0: nat, w: nat)
    requires TypedLayout(Strip(piece), l, sp, n0, w)
    ensures FieldOf(piece) == Some((CType(Strip(piece)[..l]), Strip(piece)[n0..n0 + w]))
  {
    TypedNameFrom(Strip(piece), l, sp, n0, w);
  }

  /** When every piece declares a field, the fields are the pieces' fields,
      one each, in order. */
  lemma StructFieldsInOrder(pieces: seq<string>)
    requires forall k :: 0 <= k < |pieces| ==> FieldOf(pieces[k]).Some?
    ensures |StructFields(pieces)| == |pieces|
    ensures forall k :: 0 <= k < |pieces| ==> StructFields(pieces)[k] == FieldOf(pieces[k]).value
  {
    KeptInOrder(FieldOf, pieces);
  }

  /** When every piece renders, the parameters are the pieces' renderings,
      one each, in order. */
  lemma SetParamsInOrder(pieces: seq<string>)
    requires forall k :: 0 <= k < |pieces| ==> SetParamText(pieces[k]).Some?
    ensures |SetParamTexts(pieces)| == |pieces|
    ensures forall k :: 0 <= k < |pieces| ==> SetParamTexts(pieces)[k] == SetParamText(pieces[k]).value
  {
    KeptInOrder(SetParamText, pieces);
  }

  lemma JoinFour(sep: string, a: string, b: string, c: string, d: string)
    ensures Join(sep, [a, b, c, d]) == a + sep + b + sep + c + sep + d
  {
    assert [a, b, c, d][1..] == [b, c, d];
    assert [b, c, d][1..] == [c, d];
    assert [c, d][1..] == [d];
    assert Join(sep, [c, d]) == c + sep + d;
    assert Join(sep, [b, c, d]) == b + sep + (c + sep + d);
  }

  /** The close of a struct with one field `c f`: a pointer member, a
      constructor that allocates it and then stores zero in it, and a
      destructor that deletes it. */
  lemma CloseOneField(name: string, c: string, f: string)
    ensures var member := "    " + c + "* " + f + ";";
      var entry := "        " + f + " = new " + c + ";\n        *" + f + " = 0;";
      var ctor := "    " + name + "() {\n" + entry + "\n    }";
      var dtor := "    ~" + name + "() {\n" + ("        delete " + f + ";") + "\n    }";
      CloseStruct(name, [(c, f)]) == member + "\n" + ctor + "\n" + dtor + "\n" + "};"
  {
    var fields := [(c, f)];
    var member := "    " + c + "* " + f + ";";
    var entry := "        " + f + " = new " + c + ";\n        *" + f + " = 0;";
    var ctor := "    " + name + "() {\n" + entry + "\n    }";
    var dtor := "    ~" + name + "() {\n" + ("        delete " + f + ";") + "\n    }";
    assert MemberLines(fields) == [member];
    assert ConstructorEntries(fields) == [entry];
    assert DestructorEntries(fields) == ["        delete " + f + ";"];
    assert MemberLines(fields) + [ctor, dtor, "};"] == [member, ctor, dtor, "};"];
    JoinFour("\n", member, ctor, dtor, "};");
  }

  // ---------------------------------------------------------------------
  // Loops and branches

  /** The layout of `while(c,)` with `c` ending at the first `,)`, at
      `j`, and holding no newline. */
  predicate WhileLayout(s: string, j: nat) {
    && 6 <= j && j + 2 <= |s| && s[..6] == "while(" && s[j] == ',' && s[j + 1] == ')'
    && (forall k :: 6 <= k < j ==> !(s[k] == ',' && s[k + 1] == ')') && s[k] != '\n')
  }

  /** A loop header matches no pattern before the loop. */
  lemma WhileNoEarlier(s: string, j: nat)
    requires WhileLayout(s, j)
    ensures NoAssignment(s) && NoHeader(s) && s[0] != '}'
  {
    forall k | 0 <= k < 6 ensures s[k] == "while("[k] { assert s[..6][k] == s[k]; }
    assert WordThen(s, 5);
    WordThenNoAssign(s, 5);
    WordThenNoHeader(s, 5, "set");
    WordThenNoHeader(s, 5, "struct");
  }

  /** The loop condition, from the layout. */
  lemma WhileCondition(s: string, j: nat)
    requires WhileLayout(s, j)
    ensures WhileMatch(s) == Some(s[6..j])
  {
    assert s[j..j + 2] == ",)";
    forall k | 6 <= k < j ensures !CommaCloseAt(s, k) {
      if k + 2 <= |s| { assert s[k..k + 2][0] == s[k] && s[k..k + 2][1] == s[k + 1]; }
    }
    LazyEndIs(s, 6, j, CommaCloseAt);
  }

  /** `while(c,)` opens a loop on `c`, with every `"` of the condition
      written `*`. */
  lemma WhileLine(st: StructState, line: string, j: nat)
    requires WhileLayout(Strip(line), j)
    ensures Transpile(st, line) == ("while(" + ReplaceChar(Strip(line)[6..j], '"', "*") + ") {", st)
  {
    WhileNoEarlier(Strip(line), j);
    WhileCondition(Strip(line), j);
    TranspileTail(st, line);
    TailWhile(Strip(line));
  }

  /** The layout of `if(c)` with `c` ending at `j` and holding no `)` and
      no newline. */
  predicate IfLayout(s: string, j: nat) {
    && 3 <= j && j + 1 <= |s| && s[..3] == "if(" && s[j] == ')'
    && (forall k :: 3 <= k < j ==> s[k] != ')' && s[k] != '\n')
  }

  /** A branch header matches no pattern before the branch. */
  lemma IfNoEarlier(s: string, j: nat)
    requires IfLayout(s, j)
    ensures NoAssignment(s) && NoHeader(s) && s[0] != '}' && WhileMatch(s).None?
  {
    forall k | 0 <= k < 3 ensures s[k] == "if("[k] { assert s[..3][k] == s[k]; }
    assert WordThen(s, 2);
    WordThenNoAssign(s, 2);
    WordThenNoHeader(s, 2, "set");
    WordThenNoHeader(s, 2, "struct");
    NotStartsAt(s, 0, "while(");
  }

  /** `if(c)` opens a branch on `c`, with every `"` of the condition written
      `*`. */
  lemma IfLine(st: StructState, line: string, j: nat)
    requires IfLayout(Strip(line), j)
    ensures Transpile(st, line) == ("if(" + ReplaceChar(Strip(line)[3..j], '"', "*") + ") {", st)
  {
    IfNoEarlier(Strip(line), j);
    LazyEndIs(Strip(line), 3, j, CloseAt);
    TranspileTail(st, line);
    TailIf(Strip(line));
  }
}
