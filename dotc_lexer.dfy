/**
 * The regex tokenizer of archive/dotc.py: the rule list `rules`, joined
 * into one alternation of named groups and run with `finditer`, and
 * `tokenize`, which keeps every match except SKIP.  Characters that no rule
 * matches (`+ - * / ^ % ~ !` on their own, and so on) are passed over by
 * `finditer` without producing anything.
 */
module DotcLexer {
  import opened PyText
  import opened Wrappers
  import opened Scanning

  datatype Kind = TYPE | KEYWORD | NUMBER | IDENT | GLYPH | COMPARE | ASSIGN | END | SKIP

  /** `Token(type, value)` */
  datatype Token = Token(kind: Kind, value: string)

  type Match = Span<Kind>

  /** The alternatives of TYPE after `\$_`, `i~` and `i_\d*`. */
  const TypeLiterals: seq<string> := ["f_", "s_", "c_", "sh_", "l_", "ll_"]

  /** The alternatives of KEYWORD, in their listed order. */
  const Keywords: seq<string> := ["set", "struct", "if", "elif", "else", "while", "when", "except"]

  /** The alternatives of COMPARE, in their listed order. */
  const Comparisons: seq<string> := ["==", "!=", "<=", ">=", "<", ">"]

  /** The characters of GLYPH: `" ' @ \ $ . { } ( )`. */
  predicate IsGlyph(c: char) {
    c == '"' || c == '\'' || c == '@' || c == '\\' || c == '$' || c == '.'
    || c == '{' || c == '}' || c == '(' || c == ')'
  }

  /** Length of `i_\d*` at `i` (0 when `i_` is not there). */
  function IntTypeAt(code: string, i: nat): nat
    requires i <= |code|
  {
    if StartsAt(code, i, "i_") then 2 + Run(code, i + 2, IsDigit) else 0
  }

  /** The TYPE group at `i`. */
  function TypeAt(code: string, i: nat): (r: Option<nat>)
    requires i < |code|
    ensures r.Some? ==> 0 < r.value && i + r.value <= |code|
  {
    if StartsAt(code, i, "$_") then Some(2)
    else if StartsAt(code, i, "i~") then Some(2)
    else if StartsAt(code, i, "i_") then Some(IntTypeAt(code, i))
    else FirstLiteral(code, i, TypeLiterals)
  }

  /** `\d+(\.\d+)?` at a digit: the fraction is taken only when a digit
      follows the point. */
  function NumberEnd(code: string, i: nat): (e: nat)
    requires i < |code| && IsDigit(code[i])
    ensures i < e <= |code|
  {
    var d := i + Run(code, i, IsDigit);
    if d + 1 < |code| && code[d] == '.' && IsDigit(code[d + 1]) then d + 1 + Run(code, d + 1, IsDigit)
    else d
  }

  /** The groups of `rules`, in their listed order. */
  const Rules: seq<Kind> := [TYPE, KEYWORD, NUMBER, IDENT, GLYPH, COMPARE, ASSIGN, END, SKIP]

  /** Length of the match of the group `k` at `i`, if it matches there. */
  function RuleLength(k: Kind, code: string, i: nat): (r: Option<nat>)
    requires i < |code|
    ensures r.Some? ==> 0 < r.value && i + r.value <= |code|
  {
    var c := code[i];
    match k
    case TYPE => TypeAt(code, i)
    case KEYWORD => if WordStart(code, i) then KeywordAt(code, i, Keywords) else None
    case NUMBER => if IsDigit(c) then Some(NumberEnd(code, i) - i) else None
    case IDENT => if IsLetter(c) || c == '_' then Some(1 + Run(code, i + 1, IsWordChar)) else None
    case GLYPH => if IsGlyph(c) then Some(1) else None
    case COMPARE => FirstLiteral(code, i, Comparisons)
    case ASSIGN => if c == '=' then Some(1) else None
    case END => if c == ';' || c == ':' || c == ',' then Some(1) else None
    case SKIP => if IsSpace(c) then Some(Run(code, i, IsSpace)) else None
  }

  /** The first group from the `r`-th on that matches at `i`. */
  function FirstRule(code: string, i: nat, r: nat): (m: Option<Match>)
    requires i < |code|
    ensures m.Some? ==> m.value.start == i < m.value.end <= |code|
    decreases |Rules| - r
  {
    if r >= |Rules| then None
    else
      match RuleLength(Rules[r], code, i)
      case Some(n) => Some(Span(Rules[r], i, i + n))
      case None => FirstRule(code, i, r + 1)
  }

  /** The alternation of `rules` tried at `i`: the first group that matches
      there, or `None` when no rule matches and `finditer` moves on. */
  function MatchAt(code: string, i: nat): (r: Option<Match>)
    requires i < |code|
    ensures r.Some? ==> r.value.start == i < r.value.end <= |code|
  {
    FirstRule(code, i, 0)
  }

  /** The alternation as the rule table `finditer` runs: no match past
      the end of the text. */
  function Alternation(code: string, i: nat): (r: Option<Match>)
    ensures r.Some? ==> r.value.start == i < r.value.end <= |code|
  {
    if i < |code| then MatchAt(code, i) else None
  }

  /** The tokens `tokenize` keeps for the matches `ms`. */
  function Emit(code: string, ms: seq<Match>): (ts: seq<Token>)
    requires forall k :: 0 <= k < |ms| ==> ms[k].start <= ms[k].end <= |code|
  {
    if ms == [] then []
    else
      var prev, m := ms[..|ms| - 1], ms[|ms| - 1];
      Emit(code, prev) + (if m.kind == SKIP then [] else [Token(m.kind, code[m.start..m.end])])
  }

  /** `tokenize(code)`: the tokens of the matches `finditer` finds. */
  method Tokenize(code: string) returns (tokens: seq<Token>)
    ensures exists ms :: Found(Alternation, code, ms, 0, |code|) && tokens == Emit(code, ms)
  {
    var ms := FindIter(Alternation, code);
    tokens := TokenizeMatches(code, ms);
  }

  /** The loop of `tokenize` over the match objects. */
  method TokenizeMatches(code: string, matches: seq<Match>) returns (tokens: seq<Token>)
    requires forall k :: 0 <= k < |matches| ==> matches[k].start <= matches[k].end <= |code|
    ensures tokens == Emit(code, matches)
  {
    tokens := [];
    for j := 0 to |matches|
      invariant tokens == Emit(code, matches[..j])
    {
      var m := matches[j];
      assert matches[..j + 1][..j] == matches[..j];
      if m.kind != SKIP {
        tokens := tokens + [Token(m.kind, code[m.start..m.end])];
      }
    }
    assert matches[..|matches|] == matches;
  }

  // ---------------------------------------------------------------------
  // What `finditer` finds.

  /** A character that begins no rule produces nothing: `finditer` goes on
      with the next one. */
  lemma UnmatchedIsPassedOver(code: string, i: nat)
    requires i < |code|
    requires !IsWordChar(code[i]) && !IsGlyph(code[i]) && !IsSpace(code[i])
    requires code[i] != '=' && code[i] != '<' && code[i] != '>' && code[i] != ';' && code[i] != ':' && code[i] != ','
    requires !StartsAt(code, i, "!=")
    ensures MatchAt(code, i).None?
  {
    NotStartsAt(code, i, "$_");
    NotStartsAt(code, i, "i~");
    NotStartsAt(code, i, "i_");
    assert FirstLiteral(code, i, TypeLiterals).None? by {
      forall k | 0 <= k < |TypeLiterals| ensures !StartsAt(code, i, TypeLiterals[k]) {
        NotStartsAt(code, i, TypeLiterals[k]);
      }
    }
    assert KeywordAt(code, i, Keywords).None? by {
      forall k | 0 <= k < |Keywords| ensures !StartsAt(code, i, Keywords[k]) {
        NotStartsAt(code, i, Keywords[k]);
      }
    }
    assert FirstLiteral(code, i, Comparisons).None? by {
      forall k | 0 <= k < |Comparisons| ensures !StartsAt(code, i, Comparisons[k]) {
        if k == 1 {
        } else {
          NotStartsAt(code, i, Comparisons[k]);
        }
      }
    }
  }

  /** The arithmetic operators are among the characters passed over. */
  lemma OperatorsArePassedOver(code: string, i: nat)
    requires i < |code|
    requires code[i] == '+' || code[i] == '-' || code[i] == '*' || code[i] == '/' || code[i] == '^' || code[i] == '%'
    ensures MatchAt(code, i).None?
  {
    NotStartsAt(code, i, "!=");
    UnmatchedIsPassedOver(code, i);
  }

  /** `i~` is one TYPE token. */
  lemma HeapIntIsType(code: string, i: nat)
    requires StartsAt(code, i, "i~")
    ensures MatchAt(code, i) == Some(Span(TYPE, i, i + 2))
  {
    NotStartsAt(code, i, "$_");
  }

  /** `i_` with its digits is one TYPE token, however many digits follow:
      the array type is tried before NUMBER and IDENT. */
  lemma ArrayIntIsType(code: string, i: nat)
    requires StartsAt(code, i, "i_")
    ensures var m := MatchAt(code, i);
      && m.Some? && m.value.kind == TYPE && m.value.start == i
      && (forall k :: i + 2 <= k < m.value.end ==> IsDigit(code[k]))
      && (m.value.end == |code| || !IsDigit(code[m.value.end]))
  {
    NotStartsAt(code, i, "$_");
    StartsAtChars(code, i, "i_");
    assert !StartsAt(code, i, "i~") by {
      if StartsAt(code, i, "i~") { StartsAtChars(code, i, "i~"); }
    }
    var n := Run(code, i + 2, IsDigit);
    RunAll(code, i + 2, IsDigit);
    forall k | i + 2 <= k < i + 2 + n ensures IsDigit(code[k]) {
    }
  }

  /** A keyword glued to the end of a word is not a keyword: the leading
      `\b` fails, so in `i_set` the text `set` is an identifier. */
  lemma KeywordNeedsBoundary(code: string, i: nat)
    requires 0 < i < |code| && IsWordChar(code[i - 1]) && IsLower(code[i])
    ensures MatchAt(code, i).Some? && MatchAt(code, i).value.kind != KEYWORD
  {
    if TypeAt(code, i).None? {
      assert MatchAt(code, i).value.kind == IDENT;
    }
  }

  /** A keyword followed by more word characters is an identifier. */
  lemma KeywordNeedsEnd(code: string)
    requires StartsAt(code, 0, "settle")
    ensures MatchAt(code, 0) == Some(Span(IDENT, 0, 6 + Run(code, 6, IsWordChar)))
  {
    assert code[0] == 's' by { StartsAtChars(code, 0, "settle"); }
    SettleNoType(code);
    SettleNoKeyword(code);
    SettleRun(code);
    assert RuleLength(NUMBER, code, 0).None?;
    RuleSkip(code, 0, 0, TYPE);
    RuleSkip(code, 0, 1, KEYWORD);
    RuleSkip(code, 0, 2, NUMBER);
    RuleHit(code, 0, 3, IDENT, 1 + Run(code, 1, IsWordChar));
  }

  lemma SettleNoType(code: string)
    requires StartsAt(code, 0, "settle")
    ensures TypeAt(code, 0).None?
  {
    StartsAtChars(code, 0, "settle");
    NotStartsAt(code, 0, "$_");
    NotStartsAt(code, 0, "i~");
    NotStartsAt(code, 0, "i_");
    assert FirstLiteral(code, 0, TypeLiterals).None? by {
      forall k | 0 <= k < |TypeLiterals| ensures !StartsAt(code, 0, TypeLiterals[k]) {
        if k == 1 || k == 3 {
          assert code[1] == 'e';
        } else {
          NotStartsAt(code, 0, TypeLiterals[k]);
        }
      }
    }
  }

  lemma SettleNoKeyword(code: string)
    requires StartsAt(code, 0, "settle")
    ensures KeywordAt(code, 0, Keywords).None?
  {
    StartsAtChars(code, 0, "settle");
    forall k | 0 <= k < |Keywords| ensures !(StartsAt(code, 0, Keywords[k]) && WordEnd(code, |Keywords[k]|)) {
      if k == 0 {
        assert IsWordChar(code[3]);
      } else if k == 1 {
        assert code[1] != 't';
      } else {
        NotStartsAt(code, 0, Keywords[k]);
      }
    }
  }

  lemma SettleRun(code: string)
    requires StartsAt(code, 0, "settle")
    ensures Run(code, 1, IsWordChar) == 5 + Run(code, 6, IsWordChar)
  {
    StartsAtChars(code, 0, "settle");
    assert code[1] == 'e' && code[2] == 't' && code[3] == 't' && code[4] == 'l' && code[5] == 'e';
    RunPrefix(code, 1, 5, IsWordChar);
  }

  /** A group that does not match at `i` passes the alternation on to the next. */
  lemma RuleSkip(code: string, i: nat, r: nat, k: Kind)
    requires i < |code| && r < |Rules| && Rules[r] == k && RuleLength(k, code, i).None?
    ensures FirstRule(code, i, r) == FirstRule(code, i, r + 1)
  {
  }

  /** The first group that matches at `i` decides the match. */
  lemma RuleHit(code: string, i: nat, r: nat, k: Kind, n: nat)
    requires i < |code| && r < |Rules| && Rules[r] == k && RuleLength(k, code, i) == Some(n)
    ensures FirstRule(code, i, r) == Some(Span(k, i, i + n))
  {
  }

  /** `tokenize` never keeps a SKIP match, and every token it keeps is the
      text of a match. */
  lemma {:induction false} EmitKeepsNoSkip(code: string, ms: seq<Match>)
    requires forall k :: 0 <= k < |ms| ==> ms[k].start <= ms[k].end <= |code|
    ensures |Emit(code, ms)| <= |ms|
    ensures forall t :: t in Emit(code, ms) ==> t.kind != SKIP
    ensures forall t :: t in Emit(code, ms) ==> exists k :: 0 <= k < |ms| && t == Token(ms[k].kind, code[ms[k].start..ms[k].end])
  {
    if ms != [] {
      var prev := ms[..|ms| - 1];
      EmitKeepsNoSkip(code, prev);
      forall t | t in Emit(code, ms)
        ensures exists k :: 0 <= k < |ms| && t == Token(ms[k].kind, code[ms[k].start..ms[k].end])
      {
        if t in Emit(code, prev) {
          var k :| 0 <= k < |prev| && t == Token(prev[k].kind, code[prev[k].start..prev[k].end]);
          assert ms[k] == prev[k];
        } else {
          assert t == Token(ms[|ms| - 1].kind, code[ms[|ms| - 1].start..ms[|ms| - 1].end]);
        }
      }
    }
  }
}
