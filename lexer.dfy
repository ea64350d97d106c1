/**
 * The position-tracking lexer of src/lexer.py: the ordered rule table
 * `token_specification`, joined into one alternation and run with
 * `finditer`, and `tokenize`, which drops whitespace, comments and newlines
 * and gives every other match a line and a column.
 */
module PositionLexer {
  import opened PyText
  import opened Wrappers

  /** The rule names of `token_specification`; `PTR` is the rule for a
      single `'`. */
  datatype Kind =
    | COMMENT | WHITESPACE | NEWLINE | TYPE | SET_TYPE | SET | STRUCT | FUNC_ARROW
    | STRING | NUMBER | IDENT | DEREF | DECL_ASSIGN | RELEASE | PTR | ASSIGN
    | OP | SEMICOLON | LBRACE | RBRACE | LPAREN | RPAREN | COMMA | UNKNOWN

  /** `Token(type_, value, line, col)` */
  datatype Token = Token(kind: Kind, value: string, line: int, col: int)

  /** One match object of `finditer`: the rule that matched and its span. */
  datatype Match = Match(kind: Kind, start: nat, end: nat)

  /** The alternatives of the TYPE rule, in their listed order. */
  const TypePrefixes: seq<string> := ["i_", "f_", "d_", "s_", "c_", "l_", "ll_", "sh_"]


  predicate NotNewline(c: char) { c != '\n' }

  predicate IsBlank(c: char) { c == ' ' || c == '\t' }

  predicate NotQuote(c: char) { c != '"' }

  /** The characters that begin one of the single-character rules after IDENT. */
  predicate IsRulePunctuation(c: char) {
    c == '"' || c == '\\' || c == '\'' || c == '=' || c == '+' || c == '-' || c == '*' || c == '/'
    || c == '%' || c == ';' || c == '{' || c == '}' || c == '(' || c == ')' || c == ','
  }

  /** The alternation of `token_specification` tried at `i`: the first rule
      that matches there, with the extent of its (greedy) match.  The table
      is tried in three stretches: comments, blanks, newlines and type
      prefixes here, then the words and literals, then the punctuation. */
  function MatchAt(code: string, i: nat): (m: Match)
    requires i < |code|
    ensures m.start == i < m.end <= |code|
  {
    if StartsAt(code, i, "//") then Match(COMMENT, i, i + 2 + Run(code, i + 2, NotNewline))
    else if IsBlank(code[i]) then Match(WHITESPACE, i, i + Run(code, i, IsBlank))
    else if code[i] == '\n' then Match(NEWLINE, i, i + 1)
    else if FirstLiteral(code, i, TypePrefixes).Some? then
      Match(TYPE, i, i + FirstLiteral(code, i, TypePrefixes).value)
    else WordMatchAt(code, i)
  }

  /** The rules SET_TYPE to IDENT of the table. */
  function WordMatchAt(code: string, i: nat): (m: Match)
    requires i < |code|
    ensures m.start == i < m.end <= |code|
  {
    var c := code[i];
    if StartsAt(code, i, "set_type") then Match(SET_TYPE, i, i + 8)
    else if StartsAt(code, i, "set") then Match(SET, i, i + 3)
    else if StartsAt(code, i, "struct") then Match(STRUCT, i, i + 6)
    else if StartsAt(code, i, "->") then Match(FUNC_ARROW, i, i + 2)
    else if c == '"' && i + 1 + Run(code, i + 1, NotQuote) < |code| then
      Match(STRING, i, i + 2 + Run(code, i + 1, NotQuote))
    else if IsDigit(c) then Match(NUMBER, i, i + Run(code, i, IsDigit))
    else if IsLetter(c) || c == '_' then Match(IDENT, i, i + 1 + Run(code, i + 1, IsWordChar))
    else PunctMatchAt(code, i)
  }

  /** The rules DEREF to the catch-all UNKNOWN of the table. */
  function PunctMatchAt(code: string, i: nat): (m: Match)
    requires i < |code|
    ensures m.start == i < m.end <= |code|
  {
    var c := code[i];
    if StartsAt(code, i, "''") then Match(DEREF, i, i + 2)
    else if c == '"' then Match(DECL_ASSIGN, i, i + 1)
    else if c == '\\' then Match(RELEASE, i, i + 1)
    else if c == '\'' then Match(PTR, i, i + 1)
    else if c == '=' then Match(ASSIGN, i, i + 1)
    else if c == '+' || c == '-' || c == '*' || c == '/' || c == '%' then Match(OP, i, i + 1)
    else if c == ';' then Match(SEMICOLON, i, i + 1)
    else if c == '{' then Match(LBRACE, i, i + 1)
    else if c == '}' then Match(RBRACE, i, i + 1)
    else if c == '(' then Match(LPAREN, i, i + 1)
    else if c == ')' then Match(RPAREN, i, i + 1)
    else if c == ',' then Match(COMMA, i, i + 1)
    else Match(UNKNOWN, i, i + 1)
  }

  /** The matches tile `from..` without gaps, in order, each non-empty. */
  predicate Chained(ms: seq<Match>, from: nat) {
    && (|ms| > 0 ==> ms[0].start == from)
    && (forall k :: 0 <= k < |ms| ==> ms[k].start < ms[k].end)
    && (forall k :: 0 <= k < |ms| - 1 ==> ms[k].end == ms[k + 1].start)
  }

  /** Where the last match ends (`from` when there is none). */
  function EndOf(ms: seq<Match>, from: nat): nat {
    if ms == [] then from else ms[|ms| - 1].end
  }

  /** `finditer` from `i`: since NEWLINE and the catch-all UNKNOWN together
      match any character, the matches tile all of `code[i..]`. */
  function Scan(code: string, i: nat): (ms: seq<Match>)
    requires i <= |code|
    ensures Chained(ms, i) && EndOf(ms, i) == |code|
    ensures forall k :: 0 <= k < |ms| ==> ms[k].end <= |code|
    decreases |code| - i
  {
    if i == |code| then []
    else
      var m := MatchAt(code, i);
      var rest := Scan(code, m.end);
      assert forall k :: 0 < k < |rest| + 1 ==> ([m] + rest)[k] == rest[k - 1];
      [m] + rest
  }

  /** Every element of the scan is the rule-table match at its start. */
  lemma {:induction false} ScanElement(code: string, i: nat, k: nat)
    requires i <= |code| && k < |Scan(code, i)|
    ensures Scan(code, i)[k] == MatchAt(code, Scan(code, i)[k].start)
    decreases k
  {
    if k > 0 {
      var m := MatchAt(code, i);
      assert Scan(code, i)[k] == Scan(code, m.end)[k - 1];
      ScanElement(code, m.end, k - 1);
    }
  }

  /** Every match lies within `code`. */
  predicate InBounds(code: string, ms: seq<Match>) {
    forall k :: 0 <= k < |ms| ==> ms[k].start <= ms[k].end <= |code|
  }

  /** The text covered by a sequence of matches. */
  function Texts(code: string, ms: seq<Match>): string
    requires InBounds(code, ms)
  {
    if ms == [] then "" else code[ms[0].start..ms[0].end] + Texts(code, ms[1..])
  }

  /** Lexing never fails: the matches of `finditer` spell out the whole input. */
  lemma ScanCovers(code: string, i: nat)
    requires i <= |code|
    ensures Texts(code, Scan(code, i)) == code[i..]
  {
    ChainedCovers(code, Scan(code, i), i);
  }

  /** Matches that tile `code[i..]` spell it out. */
  lemma {:induction false} ChainedCovers(code: string, ms: seq<Match>, i: nat)
    requires i <= |code| && InBounds(code, ms)
    requires Chained(ms, i) && EndOf(ms, i) == |code|
    ensures Texts(code, ms) == code[i..]
    decreases |ms|
  {
    if ms != [] {
      var m, rest := ms[0], ms[1..];
      assert forall k :: 0 <= k < |rest| ==> rest[k] == ms[k + 1];
      assert EndOf(rest, m.end) == |code|;
      ChainedCovers(code, rest, m.end);
      assert code[i..] == code[i..m.end] + code[m.end..];
    }
  }

  predicate Skipped(k: Kind) { k == NEWLINE || k == WHITESPACE || k == COMMENT }

  /** Number of NEWLINE matches among `ms`. */
  function NewlineCount(ms: seq<Match>): nat {
    if ms == [] then 0
    else NewlineCount(ms[..|ms| - 1]) + (if ms[|ms| - 1].kind == NEWLINE then 1 else 0)
  }

  /** End of the last NEWLINE match among `ms` (0 when there is none). */
  function LineStart(ms: seq<Match>): nat {
    if ms == [] then 0
    else if ms[|ms| - 1].kind == NEWLINE then ms[|ms| - 1].end
    else LineStart(ms[..|ms| - 1])
  }

  /** The tokens that `tokenize` emits for the matches `ms`, in order: none
      for WHITESPACE, COMMENT and NEWLINE, one for every other match, whose
      line is 1 plus the number of NEWLINE matches before it and whose column
      is its offset from the end of the last of them. */
  function Emit(code: string, ms: seq<Match>): seq<Token>
    requires InBounds(code, ms)
  {
    if ms == [] then []
    else
      var prev, m := ms[..|ms| - 1], ms[|ms| - 1];
      Emit(code, prev)
      + (if Skipped(m.kind) then []
         else [Token(m.kind, code[m.start..m.end], 1 + NewlineCount(prev), m.start - LineStart(prev))])
  }

  /** What appending one match does to the emitted tokens and the counters. */
  lemma EmitSnoc(code: string, done: seq<Match>, m: Match)
    requires InBounds(code, done) && m.start <= m.end <= |code|
    ensures InBounds(code, done + [m])
    ensures Emit(code, done + [m]) == Emit(code, done)
      + (if Skipped(m.kind) then []
         else [Token(m.kind, code[m.start..m.end], 1 + NewlineCount(done), m.start - LineStart(done))])
    ensures NewlineCount(done + [m]) == NewlineCount(done) + (if m.kind == NEWLINE then 1 else 0)
    ensures LineStart(done + [m]) == if m.kind == NEWLINE then m.end else LineStart(done)
  {
    var all := done + [m];
    assert all[..|all| - 1] == done && all[|all| - 1] == m;
  }

  /** One turn of the `tokenize` loop, on the prefix of the matches. */
  lemma TokenizeStep(code: string, matches: seq<Match>, j: nat)
    requires InBounds(code, matches) && j < |matches|
    ensures InBounds(code, matches[..j + 1])
    ensures var m := matches[j]; var done := matches[..j];
      Skipped(m.kind) ==> Emit(code, matches[..j + 1]) == Emit(code, done)
    ensures var m := matches[j]; var done := matches[..j];
      !Skipped(m.kind) ==>
        Emit(code, matches[..j + 1]) == Emit(code, done) + [Token(m.kind, code[m.start..m.end], 1 + NewlineCount(done), m.start - LineStart(done))]
    ensures var m := matches[j]; var done := matches[..j];
      m.kind == NEWLINE ==> NewlineCount(matches[..j + 1]) == NewlineCount(done) + 1 && LineStart(matches[..j + 1]) == m.end
    ensures var m := matches[j]; var done := matches[..j];
      m.kind != NEWLINE ==> NewlineCount(matches[..j + 1]) == NewlineCount(done) && LineStart(matches[..j + 1]) == LineStart(done)
  {
    assert matches[..j + 1] == matches[..j] + [matches[j]];
    EmitSnoc(code, matches[..j], matches[j]);
    if Skipped(matches[j].kind) {
      assert Emit(code, matches[..j]) + [] == Emit(code, matches[..j]);
    }
  }

  /** `tokenize(code)`: `finditer` gives the matches, which the loop turns
      into tokens. */
  method Tokenize(code: string) returns (tokens: seq<Token>)
    ensures tokens == Emit(code, Scan(code, 0))
    ensures InSourceOrder(tokens)
  {
    TokenizeInOrder(code);
    tokens := TokenizeMatches(code, Scan(code, 0));
  }

  /** The loop of `tokenize` over the match objects, with its line counter
      and the offset where the current line starts. */
  method TokenizeMatches(code: string, matches: seq<Match>) returns (tokens: seq<Token>)
    requires InBounds(code, matches)
    ensures tokens == Emit(code, matches)
  {
    tokens := [];
    var lineNum, lineStart := 1, 0;
    for j := 0 to |matches|
      invariant InBounds(code, matches[..j])
      invariant tokens == Emit(code, matches[..j])
      invariant lineNum == 1 + NewlineCount(matches[..j]) && lineStart == LineStart(matches[..j])
    {
      var mo := matches[j];
      var column := mo.start - lineStart;
      TokenizeStep(code, matches, j);
      if mo.kind == NEWLINE {
        lineNum := lineNum + 1;
        lineStart := mo.end;
      } else if mo.kind == WHITESPACE || mo.kind == COMMENT {
      } else {
        tokens := tokens + [Token(mo.kind, code[mo.start..mo.end], lineNum, column)];
      }
    }
    assert matches[..|matches|] == matches;
  }

  // ---------------------------------------------------------------------
  // Consequences of the rule order: the first alternative that matches wins.

  /** `set_type` is one SET_TYPE token, not SET followed by more. */
  lemma SetTypeIsOneToken(code: string, i: nat)
    requires StartsAt(code, i, "set_type")
    ensures MatchAt(code, i) == Match(SET_TYPE, i, i + 8)
  {
    StartsAtChars(code, i, "set_type");
    NotStartsAt(code, i, "//");
    assert FirstLiteral(code, i, TypePrefixes).None? by {
      assert code[i] == 's' && code[i + 1] == 'e';
      forall k | 0 <= k < |TypePrefixes| ensures !StartsAt(code, i, TypePrefixes[k]) {
        assert TypePrefixes[k][0] != 's' || TypePrefixes[k][1] != 'e';
      }
    }
  }

  /** A word that merely starts with `set` is split: SET, then the rest. */
  lemma SetPrefixSplitsIdentifier(code: string, i: nat)
    requires StartsAt(code, i, "set") && !StartsAt(code, i, "set_type")
    ensures MatchAt(code, i) == Match(SET, i, i + 3)
  {
    assert FirstLiteral(code, i, TypePrefixes).None? by {
      assert code[i] == 's' && code[i + 1] == 'e';
      forall k | 0 <= k < |TypePrefixes| ensures !StartsAt(code, i, TypePrefixes[k]) {
        assert TypePrefixes[k][0] != 's' || TypePrefixes[k][1] != 'e';
      }
    }
  }

  /** `''` is one DEREF token, not two single-quote pointer tokens. */
  lemma DoubleQuoteMarkIsDeref(code: string, i: nat)
    requires StartsAt(code, i, "''")
    ensures MatchAt(code, i) == Match(DEREF, i, i + 2)
  {
    assert code[i] == '\'';
    assert FirstLiteral(code, i, TypePrefixes).None? by {
      forall k | 0 <= k < |TypePrefixes| ensures !StartsAt(code, i, TypePrefixes[k]) {
        assert TypePrefixes[k][0] != '\'';
      }
    }
    NotStartsAt(code, i, "//");
    NotStartsAt(code, i, "set_type");
    NotStartsAt(code, i, "set");
    NotStartsAt(code, i, "struct");
    NotStartsAt(code, i, "->");
  }

  /** A `"` opens a STRING up to the next `"` (newlines included) when there
      is one; only a `"` without a partner is DECL_ASSIGN. */
  lemma QuoteIsStringFirst(code: string, i: nat)
    requires i < |code| && code[i] == '"'
    ensures var n := Run(code, i + 1, NotQuote);
      if i + 1 + n < |code| then MatchAt(code, i) == Match(STRING, i, i + 2 + n) && code[i + 1 + n] == '"'
      else MatchAt(code, i) == Match(DECL_ASSIGN, i, i + 1) && forall k :: i < k < |code| ==> code[k] != '"'
  {
    assert FirstLiteral(code, i, TypePrefixes).None? by {
      forall k | 0 <= k < |TypePrefixes| ensures !StartsAt(code, i, TypePrefixes[k]) {
        assert TypePrefixes[k][0] != '"';
      }
    }
    NotStartsAt(code, i, "//");
    NotStartsAt(code, i, "set_type");
    NotStartsAt(code, i, "set");
    NotStartsAt(code, i, "struct");
    NotStartsAt(code, i, "->");
    var n := Run(code, i + 1, NotQuote);
    if i + 1 + n == |code| {
      RunAll(code, i + 1, NotQuote);
      forall k | i + 1 <= k < |code| ensures code[k] != '"' {
        assert NotQuote(code[k]);
      }
      NotStartsAt(code, i, "''");
    }
  }

  /** A character that starts no rule before UNKNOWN becomes a one-character
      UNKNOWN token, and UNKNOWN matches are exactly those. */
  lemma UnknownIsCatchAll(code: string, i: nat)
    requires i < |code|
    ensures MatchAt(code, i).kind == UNKNOWN
        <==> (code[i] != '\n' && !IsBlank(code[i]) && !IsWordChar(code[i]) && !IsRulePunctuation(code[i]))
    ensures MatchAt(code, i).kind == UNKNOWN ==> MatchAt(code, i).end == i + 1
  {
    var c := code[i];
    if !IsWordChar(c) {
      assert FirstLiteral(code, i, TypePrefixes).None? by {
        forall k | 0 <= k < |TypePrefixes| ensures !StartsAt(code, i, TypePrefixes[k]) {
          assert IsWordChar(TypePrefixes[k][0]);
        }
      }
    }
  }

  /** A comment runs to the end of its line and leaves the newline behind it
      to be matched (and counted) as NEWLINE. */
  lemma CommentStopsAtNewline(code: string, i: nat)
    requires StartsAt(code, i, "//")
    ensures var m := MatchAt(code, i);
      && m.kind == COMMENT
      && (forall k :: i <= k < m.end ==> code[k] != '\n')
      && (m.end < |code| ==> MatchAt(code, m.end) == Match(NEWLINE, m.end, m.end + 1))
  {
    var m := MatchAt(code, i);
    StartsAtChars(code, i, "//");
    RunAll(code, i + 2, NotNewline);
    assert m.kind == COMMENT;
    assert forall k :: i + 2 <= k < m.end ==> NotNewline(code[k]);
    assert forall k :: i <= k < m.end ==> code[k] != '\n';
    if m.end < |code| {
      assert code[m.end] == '\n';
      NewlineIsNewline(code, m.end);
    }
  }

  // ---------------------------------------------------------------------
  // Line and column bookkeeping.

  /** A `\n` is always a NEWLINE match of its own. */
  lemma NewlineIsNewline(code: string, i: nat)
    requires i < |code| && code[i] == '\n'
    ensures MatchAt(code, i) == Match(NEWLINE, i, i + 1)
  {
    NotStartsAt(code, i, "//");
    assert FirstLiteral(code, i, TypePrefixes).None? by {
      forall k | 0 <= k < |TypePrefixes| ensures !StartsAt(code, i, TypePrefixes[k]) {
        NotStartsAt(code, i, TypePrefixes[k]);
      }
    }
  }

  lemma LiteralNoNewline(code: string, i: nat, lit: string)
    requires StartsAt(code, i, lit) && '\n' !in lit
    ensures forall k :: i <= k < i + |lit| ==> code[k] != '\n'
  {
    forall k | i <= k < i + |lit| ensures code[k] != '\n' {
      assert code[i..i + |lit|][k - i] == code[k];
    }
  }

  /** A match that is neither NEWLINE nor STRING holds no `\n`. */
  lemma NoNewlineInside(code: string, i: nat)
    requires i < |code|
    ensures var m := MatchAt(code, i);
      m.kind != NEWLINE && m.kind != STRING ==> forall k :: i <= k < m.end ==> code[k] != '\n'
  {
    if StartsAt(code, i, "//") {
      CommentNoNewline(code, i);
    } else if IsBlank(code[i]) {
      BlankNoNewline(code, i);
    } else if code[i] == '\n' {
    } else if FirstLiteral(code, i, TypePrefixes).Some? {
      var m := MatchAt(code, i);
      var p :| 0 <= p < |TypePrefixes| && |TypePrefixes[p]| == m.end - i && StartsAt(code, i, TypePrefixes[p]);
      LiteralNoNewline(code, i, TypePrefixes[p]);
    } else {
      WordNoNewline(code, i);
    }
  }

  lemma CommentNoNewline(code: string, i: nat)
    requires StartsAt(code, i, "//")
    ensures forall k :: i <= k < i + 2 + Run(code, i + 2, NotNewline) ==> code[k] != '\n'
  {
    StartsAtChars(code, i, "//");
    RunAll(code, i + 2, NotNewline);
    forall k | i + 2 <= k < i + 2 + Run(code, i + 2, NotNewline) ensures code[k] != '\n' {
      assert NotNewline(code[k]);
    }
  }

  lemma BlankNoNewline(code: string, i: nat)
    requires i < |code|
    ensures forall k :: i <= k < i + Run(code, i, IsBlank) ==> code[k] != '\n'
  {
    RunAll(code, i, IsBlank);
    forall k | i <= k < i + Run(code, i, IsBlank) ensures code[k] != '\n' {
      assert IsBlank(code[k]);
    }
  }

  lemma WordNoNewline(code: string, i: nat)
    requires i < |code| && code[i] != '\n'
    ensures var m := WordMatchAt(code, i);
      m.kind != STRING ==> forall k :: i <= k < m.end ==> code[k] != '\n'
  {
    var m := WordMatchAt(code, i);
    var c := code[i];
    if StartsAt(code, i, "set_type") {
      LiteralNoNewline(code, i, "set_type");
    } else if StartsAt(code, i, "set") {
      LiteralNoNewline(code, i, "set");
    } else if StartsAt(code, i, "struct") {
      LiteralNoNewline(code, i, "struct");
    } else if StartsAt(code, i, "->") {
      LiteralNoNewline(code, i, "->");
    } else if c == '"' && i + 1 + Run(code, i + 1, NotQuote) < |code| {
    } else if IsDigit(c) {
      RunAll(code, i, IsDigit);
      forall k | i <= k < m.end ensures code[k] != '\n' {
        assert IsDigit(code[k]);
      }
    } else if IsLetter(c) || c == '_' {
      RunAll(code, i + 1, IsWordChar);
      forall k | i + 1 <= k < m.end ensures code[k] != '\n' {
        assert IsWordChar(code[k]);
      }
    } else if StartsAt(code, i, "''") {
      LiteralNoNewline(code, i, "''");
    }
  }

  /** Number of `\n` characters in `s`. */
  function CountNewlines(s: string): nat {
    if s == [] then 0 else CountNewlines(s[..|s| - 1]) + (if s[|s| - 1] == '\n' then 1 else 0)
  }

  /** Offset just after the last `\n` of `s` (0 when there is none). */
  function LastLineStart(s: string): nat {
    if s == [] then 0 else if s[|s| - 1] == '\n' then |s| else LastLineStart(s[..|s| - 1])
  }

  lemma {:induction false} CountNewlinesAppend(s: string, t: string)
    requires forall k :: 0 <= k < |t| ==> t[k] != '\n'
    ensures CountNewlines(s + t) == CountNewlines(s) && LastLineStart(s + t) == LastLineStart(s)
    decreases |t|
  {
    if t != [] {
      var u := s + t;
      assert u[..|u| - 1] == s + t[..|t| - 1];
      assert u[|u| - 1] == t[|t| - 1] != '\n';
      CountNewlinesAppend(s, t[..|t| - 1]);
      assert CountNewlines(u) == CountNewlines(u[..|u| - 1]);
      assert LastLineStart(u) == LastLineStart(u[..|u| - 1]);
    } else {
      assert s + t == s;
    }
  }

  /** A match that is one `\n` is NEWLINE, and any other holds no `\n`. */
  predicate LineShaped(code: string, m: Match) {
    && m.start < m.end <= |code|
    && (code[m.start] == '\n' ==> m.kind == NEWLINE && m.end == m.start + 1)
    && (code[m.start] != '\n' ==> m.kind != NEWLINE && forall k :: m.start <= k < m.end ==> code[k] != '\n')
  }

  /** A match that holds no `\n`. */
  predicate NewlineFree(code: string, m: Match)
    requires m.end <= |code|
  {
    forall q :: m.start <= q < m.end ==> code[q] != '\n'
  }

  /** When no STRING match among the first `j` holds a newline, the line of
      a token is 1 plus the number of newlines before it, and its column is
      its offset from the last of them: NEWLINE matches then see every
      newline. */
  lemma LinesCountNewlines(code: string, j: nat)
    requires j <= |Scan(code, 0)|
    requires forall k :: 0 <= k < j && Scan(code, 0)[k].kind == STRING ==> NewlineFree(code, Scan(code, 0)[k])
    ensures var ms := Scan(code, 0); var at := EndOf(ms[..j], 0);
      NewlineCount(ms[..j]) == CountNewlines(code[..at]) && LineStart(ms[..j]) == LastLineStart(code[..at])
  {
    var ms := Scan(code, 0);
    forall k | 0 <= k < j ensures LineShaped(code, ms[..j][k]) {
      ScanElement(code, 0, k);
      LineStep(code, ms[k].start);
    }
    assert Chained(ms[..j], 0);
    LinesOf(code, ms[..j]);
  }

  /** Conversely, a STRING match holding a newline hides it from the line
      counter: after it the NEWLINE matches count fewer newlines than the
      text holds, so the tokens that follow get too small a line. */
  lemma StringNewlineUndercounts(code: string, j: nat, k: nat, q: nat)
    requires j <= |Scan(code, 0)| && k < j
    requires Scan(code, 0)[k].kind == STRING
    requires Scan(code, 0)[k].start <= q < Scan(code, 0)[k].end && code[q] == '\n'
    ensures var ms := Scan(code, 0);
      NewlineCount(ms[..j]) < CountNewlines(code[..EndOf(ms[..j], 0)])
  {
    var ms := Scan(code, 0);
    var pre := ms[..j];
    forall t | 0 <= t < j ensures NewlineShaped(code, pre[t]) {
      ScanElement(code, 0, t);
      NewlineMatchShaped(code, ms[t].start);
    }
    assert Chained(pre, 0);
    assert pre[k] == ms[k];
    Undercounts(code, pre, k, q);
  }

  /** A hidden newline makes the NEWLINE matches count short. */
  lemma Undercounts(code: string, ms: seq<Match>, k: nat, q: nat)
    requires Chained(ms, 0) && forall t :: 0 <= t < |ms| ==> NewlineShaped(code, ms[t])
    requires k < |ms| && ms[k].kind != NEWLINE && ms[k].start <= q < ms[k].end
    requires q < |code| && code[q] == '\n'
    ensures EndOf(ms, 0) <= |code|
    ensures NewlineCount(ms) < CountNewlines(code[..EndOf(ms, 0)])
  {
    NewlinesAtLeast(code, ms);
    HiddenPositive(code, ms, k, q);
  }

  /** An element of the scan is shaped: NEWLINE only for one `\n`. */
  lemma NewlineMatchShaped(code: string, i: nat)
    requires i < |code|
    ensures NewlineShaped(code, MatchAt(code, i))
  {
    if code[i] == '\n' {
      NewlineIsNewline(code, i);
    }
  }

  /** A NEWLINE match is exactly one `\n`. */
  predicate NewlineShaped(code: string, m: Match) {
    m.start <= m.end <= |code| && (m.kind == NEWLINE ==> m.end == m.start + 1 && code[m.start] == '\n')
  }

  /** The newlines held by the matches other than NEWLINE. */
  function Hidden(code: string, ms: seq<Match>): nat
    requires forall k :: 0 <= k < |ms| ==> NewlineShaped(code, ms[k])
  {
    if ms == [] then 0
    else
      var m := ms[|ms| - 1];
      assert NewlineShaped(code, m);
      Hidden(code, ms[..|ms| - 1]) + (if m.kind == NEWLINE then 0 else CountNewlines(code[m.start..m.end]))
  }

  /** Every newline of the text is a NEWLINE match or hidden in another. */
  lemma {:induction false} NewlinesAtLeast(code: string, ms: seq<Match>)
    requires Chained(ms, 0) && forall k :: 0 <= k < |ms| ==> NewlineShaped(code, ms[k])
    ensures EndOf(ms, 0) <= |code|
    ensures NewlineCount(ms) + Hidden(code, ms) == CountNewlines(code[..EndOf(ms, 0)])
  {
    if ms != [] {
      var prev, m := ms[..|ms| - 1], ms[|ms| - 1];
      assert forall t :: 0 <= t < |prev| ==> prev[t] == ms[t];
      assert Chained(prev, 0);
      NewlinesAtLeast(code, prev);
      assert m.start == EndOf(prev, 0) by {
        if |prev| > 0 { assert ms[|ms| - 2].end == ms[|ms| - 1].start; }
      }
      assert NewlineShaped(code, m);
      NewlinesStep(code, m);
    }
  }

  /** The newlines up to the end of a match: one more for a NEWLINE, the
      ones it holds for any other. */
  lemma NewlinesStep(code: string, m: Match)
    requires NewlineShaped(code, m)
    ensures CountNewlines(code[..m.end]) == CountNewlines(code[..m.start])
      + (if m.kind == NEWLINE then 1 else CountNewlines(code[m.start..m.end]))
  {
    assert code[..m.end] == code[..m.start] + code[m.start..m.end];
    CountNewlinesConcat(code[..m.start], code[m.start..m.end]);
    if m.kind == NEWLINE {
      assert code[m.start..m.end] == ['\n'];
      assert ['\n'][..0] == [];
    }
  }

  lemma {:induction false} CountNewlinesConcat(s: string, t: string)
    ensures CountNewlines(s + t) == CountNewlines(s) + CountNewlines(t)
    decreases |t|
  {
    if t == [] {
      assert s + t == s;
    } else {
      var u := s + t;
      assert u[..|u| - 1] == s + t[..|t| - 1];
      CountNewlinesConcat(s, t[..|t| - 1]);
    }
  }

  /** A text holding a `\n` counts at least one. */
  lemma {:induction false} CountPositive(s: string, q: nat)
    requires q < |s| && s[q] == '\n'
    ensures CountNewlines(s) > 0
    decreases |s|
  {
    if q < |s| - 1 {
      assert s[..|s| - 1][q] == '\n';
      CountPositive(s[..|s| - 1], q);
    }
  }

  /** A match other than NEWLINE that holds a newline hides it. */
  lemma {:induction false} HiddenPositive(code: string, ms: seq<Match>, k: nat, q: nat)
    requires forall t :: 0 <= t < |ms| ==> NewlineShaped(code, ms[t])
    requires k < |ms| && ms[k].kind != NEWLINE && ms[k].start <= q < ms[k].end
    requires q < |code| && code[q] == '\n'
    ensures Hidden(code, ms) > 0
    decreases |ms|
  {
    var prev := ms[..|ms| - 1];
    if k < |ms| - 1 {
      assert prev[k] == ms[k];
      HiddenPositive(code, prev, k, q);
    } else {
      var m := ms[k];
      assert NewlineShaped(code, m);
      var s := code[m.start..m.end];
      assert s[q - m.start] == '\n';
      CountPositive(s, q - m.start);
    }
  }


  lemma {:induction false} LinesOf(code: string, ms: seq<Match>)
    requires Chained(ms, 0) && forall k :: 0 <= k < |ms| ==> LineShaped(code, ms[k])
    ensures var at := EndOf(ms, 0);
      at <= |code| && NewlineCount(ms) == CountNewlines(code[..at]) && LineStart(ms) == LastLineStart(code[..at])
  {
    if ms != [] {
      var prev, m := ms[..|ms| - 1], ms[|ms| - 1];
      assert Chained(prev, 0);
      LinesOf(code, prev);
      var before := EndOf(prev, 0);
      assert m.start == before by {
        if |prev| > 0 { assert ms[|ms| - 2].end == ms[|ms| - 1].start; }
      }
      assert LineShaped(code, m);
      LineShapedStep(code, m);
    }
  }

  /** One match more: a NEWLINE match is one more `\n`, and any other holds none. */
  lemma LineShapedStep(code: string, m: Match)
    requires LineShaped(code, m)
    ensures CountNewlines(code[..m.end])
      == CountNewlines(code[..m.start]) + (if m.kind == NEWLINE then 1 else 0)
    ensures LastLineStart(code[..m.end]) == if m.kind == NEWLINE then m.end else LastLineStart(code[..m.start])
  {
    if m.kind != NEWLINE {
      assert code[..m.end] == code[..m.start] + code[m.start..m.end];
      CountNewlinesAppend(code[..m.start], code[m.start..m.end]);
    } else {
      assert code[..m.end][..|code[..m.end]| - 1] == code[..m.start];
    }
  }

  /** A match that is not a STRING holding a newline is either one `\n`
      (NEWLINE) or holds none. */
  lemma LineStep(code: string, i: nat)
    requires i < |code|
    requires MatchAt(code, i).kind == STRING ==> NewlineFree(code, MatchAt(code, i))
    ensures var m := MatchAt(code, i);
      && (code[i] == '\n' ==> m == Match(NEWLINE, i, i + 1))
      && (code[i] != '\n' ==> m.kind != NEWLINE && forall k :: i <= k < m.end ==> code[k] != '\n')
  {
    NoNewlineInside(code, i);
    if code[i] == '\n' {
      NewlineIsNewline(code, i);
    }
  }

  /** Emitted tokens are in source order: lines never decrease, and within
      a line columns strictly increase. */
  predicate InSourceOrder(ts: seq<Token>) {
    forall k :: 0 <= k < |ts| - 1 ==>
      ts[k].line <= ts[k + 1].line && (ts[k].line == ts[k + 1].line ==> ts[k].col < ts[k + 1].col)
  }

  lemma {:induction false} EmitInOrder(code: string, ms: seq<Match>)
    requires Chained(ms, 0)
    requires forall k :: 0 <= k < |ms| ==> ms[k].end <= |code|
    ensures LineStart(ms) <= EndOf(ms, 0)
    ensures forall t :: t in Emit(code, ms) ==>
      t.line <= 1 + NewlineCount(ms) && (t.line == 1 + NewlineCount(ms) ==> t.col + LineStart(ms) < EndOf(ms, 0))
    ensures InSourceOrder(Emit(code, ms))
  {
    if ms != [] {
      var prev, m := ms[..|ms| - 1], ms[|ms| - 1];
      assert Chained(prev, 0);
      EmitInOrder(code, prev);
      assert m.start == EndOf(prev, 0) by {
        if |prev| > 0 { assert ms[|ms| - 2].end == ms[|ms| - 1].start; }
      }
      assert ms[..|ms| - 1] == prev;
    }
  }

  lemma TokenizeInOrder(code: string)
    ensures InSourceOrder(Emit(code, Scan(code, 0)))
  {
    EmitInOrder(code, Scan(code, 0));
  }
}
