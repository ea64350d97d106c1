/**
 * `preprocess_code` of archive/dot_transpiler_cpp.py: the source text
 * becomes a list of entries.  A backslash is a line break; each physical
 * line is split around `;`, `{` and `}`; braces become entries of their
 * own and the other text between two braces is one entry, its pieces
 * joined by single blanks and every `;` dropped.
 */
module DotCppPreprocess {
  import opened Wrappers
  import opened PyText

  // ---------------------------------------------------------------------
  // Line breaks

  /** `s.replace('\\\n', '\n')`: a backslash right before a newline is
      dropped, scanning from the left. */
  function DropEscapedNewlines(s: string): (r: string)
    ensures |r| <= |s|
  {
    if s == [] then []
    else if |s| >= 2 && s[0] == '\\' && s[1] == '\n' then "\n" + DropEscapedNewlines(s[2..])
    else [s[0]] + DropEscapedNewlines(s[1..])
  }

  /** The text with both replacements of the preprocessor applied: every
      backslash left is a newline. */
  function LineBreaks(code: string): (r: string)
    ensures '\\' !in r
  {
    ReplaceChar(DropEscapedNewlines(code), '\\', "\n")
  }

  /** Text with no backslash passes the first replacement unchanged. */
  lemma {:induction false} DropEscapedNewlinesPlain(a: string, b: string)
    requires '\\' !in a
    ensures DropEscapedNewlines(a + b) == a + DropEscapedNewlines(b)
  {
    if a == [] {
      assert a + b == b;
    } else {
      assert (a + b)[0] == a[0] && (a + b)[1..] == a[1..] + b;
      assert '\\' !in a[1..] by { assert forall k :: 0 <= k < |a[1..]| ==> a[1..][k] == a[k + 1]; }
      assert a[0] in a;
      DropEscapedNewlinesPlain(a[1..], b);
      calc {
        DropEscapedNewlines(a + b);
        [a[0]] + DropEscapedNewlines(a[1..] + b);
        [a[0]] + (a[1..] + DropEscapedNewlines(b));
        { assert a == [a[0]] + a[1..]; }
        a + DropEscapedNewlines(b);
      }
    }
  }

  lemma DropEscaped(b: string)
    ensures DropEscapedNewlines("\\\n" + b) == "\n" + DropEscapedNewlines(b)
  {
    assert ("\\\n" + b)[2..] == b;
  }

  lemma DropLoneBackslash(b: string)
    requires b == [] || b[0] != '\n'
    ensures DropEscapedNewlines("\\" + b) == "\\" + DropEscapedNewlines(b)
  {
    assert ("\\" + b)[1..] == b;
  }

  /** Replacing in three pieces, the first of which holds no `c`. */
  lemma ReplaceAround(a: string, m: string, r: string, c: char, t: string)
    requires c !in a
    ensures ReplaceChar(a + m + r, c, t) == a + ReplaceChar(m, c, t) + ReplaceChar(r, c, t)
  {
    ReplaceCharAppend(a + m, r, c, t);
    ReplaceCharAppend(a, m, c, t);
  }

  lemma ReplaceOneChar(d: char, c: char, t: string)
    ensures ReplaceChar([d], c, t) == if d == c then t else [d]
  {
    assert [d][1..] == [];
  }

  /** A backslash followed by a newline is one line break. */
  lemma EscapedNewlineIsOneBreak(a: string, b: string)
    requires '\\' !in a
    ensures LineBreaks(a + "\\\n" + b) == a + "\n" + LineBreaks(b)
  {
    assert a + "\\\n" + b == a + ("\\\n" + b);
    DropEscapedNewlinesPlain(a, "\\\n" + b);
    DropEscaped(b);
    assert a + ("\n" + DropEscapedNewlines(b)) == a + "\n" + DropEscapedNewlines(b);
    ReplaceAround(a, "\n", DropEscapedNewlines(b), '\\', "\n");
    ReplaceOneChar('\n', '\\', "\n");
  }

  /** Any other backslash is a line break too. */
  lemma BackslashIsBreak(a: string, b: string)
    requires '\\' !in a && (b == [] || b[0] != '\n')
    ensures LineBreaks(a + "\\" + b) == a + "\n" + LineBreaks(b)
  {
    var rest := DropEscapedNewlines(b);
    calc {
      DropEscapedNewlines(a + "\\" + b);
    == { assert a + "\\" + b == a + ("\\" + b); DropEscapedNewlinesPlain(a, "\\" + b); }
      a + DropEscapedNewlines("\\" + b);
    == { DropLoneBackslash(b); }
      a + ("\\" + rest);
    == { assert a + ("\\" + rest) == a + "\\" + rest; }
      a + "\\" + rest;
    }
    ReplaceAround(a, "\\", rest, '\\', "\n");
    ReplaceOneChar('\\', '\\', "\n");
  }

  /** Text with no backslash keeps its lines. */
  lemma NoBackslashNoChange(code: string)
    requires '\\' !in code
    ensures LineBreaks(code) == code
  {
    DropEscapedNewlinesPlain(code, []);
    assert code + [] == code;
  }

  /** The physical lines the preprocessor works on. */
  function Lines(code: string): seq<string> {
    Splitlines(Strip(LineBreaks(code)))
  }

  /** A character missing from the text is missing from each of its lines. */
  lemma {:induction false} SplitlinesLack(s: string, c: char)
    requires c !in s
    ensures forall k :: 0 <= k < |Splitlines(s)| ==> c !in Splitlines(s)[k]
    decreases |s|
  {
    if s != [] {
      var inLine := c => !IsLineBoundary(c);
      var k := Run(s, 0, inLine);
      if k < |s| {
        var t := if s[k] == '\r' && k + 1 < |s| && s[k + 1] == '\n' then k + 2 else k + 1;
        assert c !in s[t..] by { assert forall j :: 0 <= j < |s[t..]| ==> s[t..][j] == s[t + j]; }
        assert c !in s[..k] by { assert forall j :: 0 <= j < k ==> s[..k][j] == s[j]; }
        SplitlinesLack(s[t..], c);
      }
    }
  }

  // ---------------------------------------------------------------------
  // Splitting one line

  /** The separators of `re.split(r'(;|\n|\{|\})', line)`. */
  predicate IsSeparator(c: char) {
    c == ';' || c == '\n' || c == '{' || c == '}'
  }

  predicate NoSeparator(t: string) {
    forall k :: 0 <= k < |t| ==> !IsSeparator(t[k])
  }

  /** `re.split(r'(;|\n|\{|\})', line)`: the text between separators, with
      each separator kept as a token of its own between them. */
  function SplitTokens(s: string): (r: seq<string>)
    ensures |r| >= 1
    ensures forall k :: 0 <= k < |r| ==> NoSeparator(r[k]) || (|r[k]| == 1 && IsSeparator(r[k][0]))
  {
    if s == [] then [[]]
    else
      var rest := SplitTokens(s[1..]);
      if IsSeparator(s[0]) then [[], [s[0]]] + rest
      else [[s[0]] + rest[0]] + rest[1..]
  }

  /** Splitting keeps the text's characters, no others. */
  lemma {:induction false} SplitTokensLack(s: string, c: char)
    requires c !in s
    ensures forall k :: 0 <= k < |SplitTokens(s)| ==> c !in SplitTokens(s)[k]
    decreases |s|
  {
    if s != [] {
      assert c !in s[1..] by { assert forall j :: 0 <= j < |s[1..]| ==> s[1..][j] == s[j + 1]; }
      SplitTokensLack(s[1..], c);
    }
  }

  /** Splitting at a separator: the tokens before it, the separator, the
      tokens after it. */
  lemma {:induction false} SplitTokensAt(a: string, c: char, b: string)
    requires IsSeparator(c)
    ensures SplitTokens(a + [c] + b) == SplitTokens(a) + [[c]] + SplitTokens(b)
    decreases |a|
  {
    if a == [] {
      assert a + [c] + b == [c] + b && ([c] + b)[1..] == b;
    } else {
      assert (a + [c] + b)[0] == a[0] && (a + [c] + b)[1..] == a[1..] + [c] + b;
      SplitTokensAt(a[1..], c, b);
    }
  }

  // ---------------------------------------------------------------------
  // Entries of one line

  /** The entry a non-empty buffer gives when it is flushed. */
  function Flush(buffer: string): seq<string> {
    if buffer != [] then [Strip(buffer)] else []
  }

  /** `buffer += ' ' + token if buffer else token` */
  function Glue(buffer: string, token: string): string {
    if buffer != [] then buffer + " " + token else token
  }

  /** What one pass of the loop over the tokens appends, and the buffer
      after it. */
  function Step(token: string, buffer: string): (string, seq<string>) {
    var t := Strip(token);
    if t == [] || t == ";" then (buffer, [])
    else if t == "{" || t == "}" || t == "\n" then ([], Flush(buffer) + [t])
    else (Glue(buffer, t), [])
  }

  /** What the loop over the tokens appends, from the token list and the
      buffer it starts with, the final flush included. */
  function Separate(tokens: seq<string>, buffer: string): seq<string>
    decreases |tokens|
  {
    if tokens == [] then Flush(buffer)
    else
      var r := Step(tokens[0], buffer);
      r.1 + Separate(tokens[1..], r.0)
  }

  /** The entries of one physical line. */
  function LineEntries(line: string): seq<string> {
    Separate(SplitTokens(line), [])
  }

  /** The entries of all lines, in order. */
  function Entries(lines: seq<string>): seq<string> {
    if lines == [] then [] else Entries(lines[..|lines| - 1]) + LineEntries(lines[|lines| - 1])
  }

  /** The preprocessor's result. */
  function Preprocess(code: string): seq<string> {
    Entries(Lines(code))
  }

  lemma SeparateCons(tokens: seq<string>, buffer: string)
    requires tokens != []
    ensures Separate(tokens, buffer) == Step(tokens[0], buffer).1 + Separate(tokens[1..], Step(tokens[0], buffer).0)
  {
  }

  /** The three kinds of pass, as the loop over the tokens sees them. */
  lemma SkipAt(tokens: seq<string>, j: nat, buffer: string)
    requires j < |tokens| && (Strip(tokens[j]) == [] || Strip(tokens[j]) == ";")
    ensures Separate(tokens[j..], buffer) == Separate(tokens[j + 1..], buffer)
  {
    SeparateFrom(tokens, j, buffer);
  }

  lemma FlushAt(tokens: seq<string>, j: nat, buffer: string)
    requires j < |tokens|
    requires Strip(tokens[j]) == "{" || Strip(tokens[j]) == "}" || Strip(tokens[j]) == "\n"
    ensures Separate(tokens[j..], buffer) == Flush(buffer) + [Strip(tokens[j])] + Separate(tokens[j + 1..], [])
  {
    SeparateFrom(tokens, j, buffer);
  }

  lemma GlueAt(tokens: seq<string>, j: nat, buffer: string)
    requires j < |tokens|
    requires var t := Strip(tokens[j]); t != [] && t != ";" && t != "{" && t != "}" && t != "\n"
    ensures Separate(tokens[j..], buffer) == Separate(tokens[j + 1..], Glue(buffer, Strip(tokens[j])))
  {
    SeparateFrom(tokens, j, buffer);
  }

  lemma SeparateFrom(tokens: seq<string>, j: nat, buffer: string)
    requires j < |tokens|
    ensures Separate(tokens[j..], buffer)
      == Step(tokens[j], buffer).1 + Separate(tokens[j + 1..], Step(tokens[j], buffer).0)
  {
    assert tokens[j..][0] == tokens[j] && tokens[j..][1..] == tokens[j + 1..];
  }

  /** `preprocess_code(dot_code)` */
  method PreprocessCode(code: string) returns (separated: seq<string>)
    ensures separated == Preprocess(code)
  {
    var rawLines := Lines(code);
    separated := [];
    var i := 0;
    while i < |rawLines|
      invariant i <= |rawLines|
      invariant separated == Entries(rawLines[..i])
    {
      var line := SeparateLine(rawLines[i]);
      assert rawLines[..i + 1][..i] == rawLines[..i];
      separated := separated + line;
      i := i + 1;
    }
    assert rawLines[..i] == rawLines;
  }

  /** The body of the loop over the physical lines: what one line adds. */
  method SeparateLine(rawLine: string) returns (line: seq<string>)
    ensures line == LineEntries(rawLine)
  {
    var tokens := SplitTokens(rawLine);
    var buffer := "";
    line := [];
    var j := 0;
    while j < |tokens|
      invariant j <= |tokens|
      invariant line + Separate(tokens[j..], buffer) == LineEntries(rawLine)
    {
      var token := Strip(tokens[j]);
      if token == [] || token == ";" {
        SkipStep(tokens, j, buffer, line, LineEntries(rawLine));
        j := j + 1;
        continue;
      }
      if token == "{" || token == "}" || token == "\n" {
        ghost var before, buffered := line, buffer;
        if buffer != [] {
          line := line + [Strip(buffer)];
          buffer := "";
        }
        line := line + [token];
        FlushStep(tokens, j, buffered, before, line, LineEntries(rawLine));
      } else {
        GlueStep(tokens, j, buffer, line, LineEntries(rawLine));
        buffer := Glue(buffer, token);
      }
      j := j + 1;
    }
    if buffer != [] {
      line := line + [Strip(buffer)];
    }
  }

  /** One pass of the loop over the tokens keeps its invariant: a skipped
      token, ... */
  lemma SkipStep(tokens: seq<string>, j: nat, buffer: string, line: seq<string>, target: seq<string>)
    requires j < |tokens| && (Strip(tokens[j]) == [] || Strip(tokens[j]) == ";")
    requires line + Separate(tokens[j..], buffer) == target
    ensures line + Separate(tokens[j + 1..], buffer) == target
  {
    SkipAt(tokens, j, buffer);
  }

  /** ... a brace or newline, which flushes the buffer first, ... */
  lemma FlushStep(tokens: seq<string>, j: nat, buffer: string, before: seq<string>, line: seq<string>, target: seq<string>)
    requires j < |tokens|
    requires Strip(tokens[j]) == "{" || Strip(tokens[j]) == "}" || Strip(tokens[j]) == "\n"
    requires before + Separate(tokens[j..], buffer) == target
    requires line == (if buffer != [] then before + [Strip(buffer)] else before) + [Strip(tokens[j])]
    ensures line + Separate(tokens[j + 1..], []) == target
  {
    FlushAt(tokens, j, buffer);
    FlushRegroup(before, Flush(buffer), Strip(tokens[j]), Separate(tokens[j + 1..], []));
  }

  lemma FlushRegroup(before: seq<string>, flushed: seq<string>, t: string, rest: seq<string>)
    ensures before + flushed + [t] + rest == before + (flushed + [t] + rest)
  {
  }

  /** ... and any other token, glued to the buffer. */
  lemma GlueStep(tokens: seq<string>, j: nat, buffer: string, line: seq<string>, target: seq<string>)
    requires j < |tokens|
    requires var t := Strip(tokens[j]); t != [] && t != ";" && t != "{" && t != "}" && t != "\n"
    requires line + Separate(tokens[j..], buffer) == target
    ensures line + Separate(tokens[j + 1..], Glue(buffer, Strip(tokens[j]))) == target
  {
    GlueAt(tokens, j, buffer);
  }

  // ---------------------------------------------------------------------
  // What an entry looks like

  /** An entry is not empty; it holds no `;` and no newline; and it is a
      brace on its own or holds no brace. */
  predicate GoodEntry(e: string) {
    e != [] && ';' !in e && '\n' !in e && (e == "{" || e == "}" || ('{' !in e && '}' !in e))
  }

  /** A buffer holds no separator and does not start with a blank. */
  predicate GoodBuffer(b: string) {
    NoSeparator(b) && (b == [] || !IsSpace(b[0]))
  }

  /** A token of the split: separator-free, or one separator. */
  predicate GoodToken(t: string) {
    NoSeparator(t) || (|t| == 1 && IsSeparator(t[0]))
  }

  /** Stripping a token that holds no separator keeps it separator-free. */
  lemma StripKeepsNoSeparator(t: string)
    requires NoSeparator(t)
    ensures NoSeparator(Strip(t))
  {
    StripChars(t, ';');
    StripChars(t, '\n');
    StripChars(t, '{');
    StripChars(t, '}');
  }

  /** A flushed buffer gives a good entry. */
  lemma FlushGood(b: string)
    requires GoodBuffer(b)
    ensures forall e | e in Flush(b) :: GoodEntry(e)
  {
    if b != [] {
      StripKeepsNoSeparator(b);
      assert LStrip(b) == b;
      RStripPrefix(b);
    }
  }

  /** A stripped token is empty, a separator, or separator-free and
      opened by no blank. */
  lemma StrippedToken(token: string)
    requires GoodToken(token)
    ensures var t := Strip(token); t == [] || t == ";" || t == "{" || t == "}" || (NoSeparator(t) && !IsSpace(t[0]))
  {
    if NoSeparator(token) {
      StripKeepsNoSeparator(token);
    } else if Strip(token) != [] {
      assert LStrip(token) == token;
    }
  }

  /** One pass of the loop appends good entries and keeps the buffer good. */
  lemma StepGood(token: string, buffer: string)
    requires GoodBuffer(buffer) && GoodToken(token)
    ensures GoodBuffer(Step(token, buffer).0)
    ensures forall e | e in Step(token, buffer).1 :: GoodEntry(e)
  {
    StrippedToken(token);
    FlushGood(buffer);
  }

  /** Every entry the loop appends is good. */
  lemma {:induction false} SeparateGood(tokens: seq<string>, buffer: string)
    requires GoodBuffer(buffer)
    requires forall t | t in tokens :: GoodToken(t)
    ensures forall e | e in Separate(tokens, buffer) :: GoodEntry(e)
    decreases |tokens|
  {
    FlushGood(buffer);
    if tokens != [] {
      StepGood(tokens[0], buffer);
      assert forall t | t in tokens[1..] :: t in tokens;
      SeparateGood(tokens[1..], Step(tokens[0], buffer).0);
    }
  }

  /** One pass of the loop brings in no character other than the blank
      that is missing from the token and the buffer. */
  lemma StepLack(token: string, buffer: string, c: char)
    requires c != ' ' && c !in buffer && c !in token
    ensures c !in Step(token, buffer).0
    ensures forall e | e in Step(token, buffer).1 :: c !in e
  {
    StripChars(token, c);
    var t := Strip(token);
    if t == [] || t == ";" {
    } else if t == "{" || t == "}" || t == "\n" {
      FlushLack(buffer, c);
      assert Step(token, buffer).1 == Flush(buffer) + [t];
    } else {
      GlueLack(buffer, t, c);
    }
  }

  lemma FlushLack(buffer: string, c: char)
    requires c !in buffer
    ensures forall e | e in Flush(buffer) :: c !in e
  {
    StripChars(buffer, c);
  }

  lemma GlueLack(buffer: string, t: string, c: char)
    requires c != ' ' && c !in buffer && c !in t
    ensures c !in Glue(buffer, t)
  {
  }

  /** No character other than the blank gets into an entry unless a token
      or the buffer holds it. */
  lemma {:induction false} SeparateLack(tokens: seq<string>, buffer: string, c: char)
    requires c != ' ' && c !in buffer
    requires forall t | t in tokens :: c !in t
    ensures forall e | e in Separate(tokens, buffer) :: c !in e
    decreases |tokens|
  {
    StripChars(buffer, c);
    if tokens != [] {
      StepLack(tokens[0], buffer, c);
      assert forall t | t in tokens[1..] :: t in tokens;
      SeparateLack(tokens[1..], Step(tokens[0], buffer).0, c);
    }
  }

  /** The tokens of a line are good, and a character missing from the
      line is missing from them. */
  lemma {:induction false} SplitTokensGood(s: string, c: char)
    ensures forall t | t in SplitTokens(s) :: GoodToken(t)
    ensures c !in s ==> forall t | t in SplitTokens(s) :: c !in t
  {
    if c !in s {
      SplitTokensLack(s, c);
    }
  }

  /** The entries of one line are good, and hold no character other than
      the blank that the line does not hold. */
  lemma LineEntriesGood(line: string, c: char)
    ensures forall e | e in LineEntries(line) :: GoodEntry(e)
    ensures c != ' ' && c !in line ==> forall e | e in LineEntries(line) :: c !in e
  {
    SplitTokensGood(line, c);
    SeparateGood(SplitTokens(line), []);
    if c != ' ' && c !in line {
      SeparateLack(SplitTokens(line), [], c);
    }
  }

  /** Each entry of all lines is an entry of one of them. */
  lemma {:induction false} EntriesFrom(lines: seq<string>, e: string)
    requires e in Entries(lines)
    ensures exists i :: 0 <= i < |lines| && e in LineEntries(lines[i])
    decreases |lines|
  {
    var init := lines[..|lines| - 1];
    if e in Entries(init) {
      EntriesFrom(init, e);
      var i :| 0 <= i < |init| && e in LineEntries(init[i]);
      assert init[i] == lines[i];
    }
  }

  /** Every entry of the preprocessor is good, and none holds a backslash:
      a backslash always becomes a line break. */
  lemma PreprocessEntriesGood(code: string)
    ensures forall e | e in Preprocess(code) :: GoodEntry(e) && '\\' !in e
  {
    var lines := Lines(code);
    StripChars(LineBreaks(code), '\\');
    SplitlinesLack(Strip(LineBreaks(code)), '\\');
    forall e | e in Preprocess(code)
      ensures GoodEntry(e) && '\\' !in e
    {
      EntriesFrom(lines, e);
      var i :| 0 <= i < |lines| && e in LineEntries(lines[i]);
      LineEntriesGood(lines[i], '\\');
    }
  }

  // ---------------------------------------------------------------------
  // Text between braces is one entry

  /** What a token adds to the words: its stripped text, unless that is
      empty or `;`. */
  function WordOf(token: string): seq<string> {
    var t := Strip(token);
    if t == [] || t == ";" then [] else [t]
  }

  /** The non-empty stripped tokens other than `;`, in order. */
  function Words(tokens: seq<string>): seq<string> {
    if tokens == [] then [] else WordOf(tokens[0]) + Words(tokens[1..])
  }

  /** The buffer after gluing the words one by one. */
  function Glued(buffer: string, words: seq<string>): string
    decreases |words|
  {
    if words == [] then buffer else Glued(Glue(buffer, words[0]), words[1..])
  }

  lemma {:induction false} GluedAppend(buffer: string, x: seq<string>, y: seq<string>)
    ensures Glued(Glued(buffer, x), y) == Glued(buffer, x + y)
    decreases |x|
  {
    if x == [] {
      assert x + y == y;
    } else {
      assert (x + y)[0] == x[0] && (x + y)[1..] == x[1..] + y;
      GluedAppend(Glue(buffer, x[0]), x[1..], y);
    }
  }

  /** No token holds a brace. */
  predicate BraceFree(tokens: seq<string>) {
    forall t | t in tokens :: '{' !in t && '}' !in t
  }

  /** A pass over a token with no brace only glues its word to the buffer. */
  lemma StepBraceFree(token: string, buffer: string)
    requires '{' !in token && '}' !in token
    ensures Step(token, buffer) == (Glued(buffer, WordOf(token)), [])
  {
    StripChars(token, '{');
    StripChars(token, '}');
    var t := Strip(token);
    assert t != "\n";
    assert WordOf(token) != [] ==> WordOf(token)[1..] == [];
  }

  /** Over tokens with no brace the loop only glues the words to the
      buffer. */
  lemma {:induction false} SeparateBraceFree(ts: seq<string>, rest: seq<string>, buffer: string)
    requires BraceFree(ts)
    ensures Separate(ts + rest, buffer) == Separate(rest, Glued(buffer, Words(ts)))
    decreases |ts|
  {
    if ts == [] {
      assert ts + rest == rest;
    } else {
      assert (ts + rest)[0] == ts[0] && (ts + rest)[1..] == ts[1..] + rest;
      SeparateCons(ts + rest, buffer);
      StepBraceFree(ts[0], buffer);
      assert forall t | t in ts[1..] :: t in ts;
      SeparateBraceFree(ts[1..], rest, Glued(buffer, WordOf(ts[0])));
      GluedAppend(buffer, WordOf(ts[0]), Words(ts[1..]));
    }
  }

  /** Gluing words to a non-empty buffer puts single blanks between them. */
  lemma {:induction false} GluedJoin(buffer: string, words: seq<string>)
    requires buffer != []
    ensures Glued(buffer, words) == if words == [] then buffer else buffer + " " + Join(" ", words)
    decreases |words|
  {
    if words != [] {
      GluedJoin(buffer + " " + words[0], words[1..]);
      if |words| > 1 {
        assert Join(" ", words) == words[0] + " " + Join(" ", words[1..]);
      }
    }
  }

  /** The first word, in a buffer of its own, then the rest. */
  lemma GluedFromEmpty(words: seq<string>)
    requires words != [] && words[0] != []
    ensures Glued([], words) == Join(" ", words)
  {
    GluedJoin(words[0], words[1..]);
    if |words| > 1 {
      assert Join(" ", words) == words[0] + " " + Join(" ", words[1..]);
    }
  }

  /** A text with no blank at either end. */
  predicate Stripped(w: string) {
    w != [] && !IsSpace(w[0]) && !IsSpace(w[|w| - 1])
  }

  /** Words joined by single blanks have no blank at either end. */
  lemma {:induction false} JoinStripped(words: seq<string>)
    requires words != [] && forall w | w in words :: Stripped(w)
    ensures Stripped(Join(" ", words))
    decreases |words|
  {
    if |words| > 1 {
      assert forall w | w in words[1..] :: w in words;
      JoinStripped(words[1..]);
      assert words[0] in words;
    } else {
      assert words[0] in words;
    }
  }

  /** The words are stripped and not empty. */
  lemma {:induction false} WordsStripped(tokens: seq<string>)
    ensures forall w | w in Words(tokens) :: Stripped(w)
    decreases |tokens|
  {
    if tokens != [] {
      WordsStripped(tokens[1..]);
    }
  }

  /** The entry for the text between two braces: its words joined by single
      blanks, or nothing when it has none. */
  function Segment(text: string): seq<string> {
    var words := Words(SplitTokens(text));
    if words == [] then [] else [Join(" ", words)]
  }

  lemma SegmentFlush(text: string)
    ensures Flush(Glued([], Words(SplitTokens(text)))) == Segment(text)
  {
    var words := Words(SplitTokens(text));
    if words != [] {
      WordsStripped(SplitTokens(text));
      assert words[0] in words;
      GluedFromEmpty(words);
      JoinStripped(words);
      StripKeeps(Join(" ", words));
    }
  }

  lemma BraceFreeTokens(text: string)
    requires '{' !in text && '}' !in text
    ensures BraceFree(SplitTokens(text))
  {
    SplitTokensGood(text, '{');
    SplitTokensGood(text, '}');
  }

  /** A line with no brace is one entry: its `;`-separated pieces, stripped
      and joined by single blanks; or none if it holds only blanks and `;`. */
  lemma LineWithoutBraces(line: string)
    requires '{' !in line && '}' !in line
    ensures LineEntries(line) == Segment(line)
  {
    BraceFreeTokens(line);
    SeparateBraceFree(SplitTokens(line), [], []);
    assert SplitTokens(line) + [] == SplitTokens(line);
    SegmentFlush(line);
  }

  /** The pass over a brace token flushes the buffer and appends the brace. */
  lemma BraceStep(c: char, buffer: string, rest: seq<string>)
    requires c == '{' || c == '}'
    ensures Separate([[c]] + rest, buffer) == Flush(buffer) + [[c]] + Separate(rest, [])
  {
    assert ([[c]] + rest)[0] == [c] && ([[c]] + rest)[1..] == rest;
    SeparateCons([[c]] + rest, buffer);
    StepBrace(c, buffer);
  }

  lemma StepBrace(c: char, buffer: string)
    requires c == '{' || c == '}'
    ensures Step([c], buffer) == ([], Flush(buffer) + [[c]])
  {
    StripKeeps([c]);
  }

  /** A brace is an entry of its own: the text before it is one entry, and
      the text after it is split the same way. */
  lemma BraceStandsAlone(a: string, c: char, b: string)
    requires '{' !in a && '}' !in a && (c == '{' || c == '}')
    ensures LineEntries(a + [c] + b) == Segment(a) + [[c]] + LineEntries(b)
  {
    SplitTokensAt(a, c, b);
    BraceFreeTokens(a);
    assert SplitTokens(a) + [[c]] + SplitTokens(b) == SplitTokens(a) + ([[c]] + SplitTokens(b));
    SeparateBraceFree(SplitTokens(a), [[c]] + SplitTokens(b), []);
    BraceStep(c, Glued([], Words(SplitTokens(a))), SplitTokens(b));
    SegmentFlush(a);
  }
}
