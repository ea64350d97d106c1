/**
 * The regex tokenizer of archive/tokenizer.py: the rule list `rules`
 * (ELLIPSIS first, then TYPE, KEYWORD, NUMBER, IDENT, GLYPH, COMPARE,
 * ASSIGN, END, SKIP) joined into one alternation of named groups and run
 * with `finditer`; `tokenize` keeps every match except SKIP.  Characters no
 * rule matches are passed over.
 */
module TokenizerLexer {
  import opened PyText
  import opened Wrappers
  import opened Scanning

  datatype Kind = ELLIPSIS | TYPE | KEYWORD | NUMBER | IDENT | GLYPH | COMPARE | ASSIGN | END | SKIP

  /** `Token(type, value)` */
  datatype Token = Token(kind: Kind, value: string)

  type Match = Span<Kind>

  /** The alternatives of TYPE, in their listed order. */
  const TypeLiterals: seq<string> := ["$_", "i_", "s_", "f_", "sh_", "c_", "l_", "ll_"]

  /** The alternatives of KEYWORD, in their listed order. */
  const Keywords: seq<string> := ["set", "struct", "if", "while", "when", "except", "else", "elif"]

  /** The characters of GLYPH: `" ' @ \ $ . { } ( )`. */
  predicate IsGlyph(c: char) {
    c == '"' || c == '\'' || c == '@' || c == '\\' || c == '$' || c == '.'
    || c == '{' || c == '}' || c == '(' || c == ')'
  }

  /** The groups of `rules`, in their listed order. */
  const Rules: seq<Kind> := [ELLIPSIS, TYPE, KEYWORD, NUMBER, IDENT, GLYPH, COMPARE, ASSIGN, END, SKIP]

  /** Length of the match of the group `k` at `i`, if it matches there. */
  function RuleLength(k: Kind, code: string, i: nat): (r: Option<nat>)
    requires i < |code|
    ensures r.Some? ==> 0 < r.value && i + r.value <= |code|
  {
    var c := code[i];
    match k
    case ELLIPSIS => if StartsAt(code, i, "...") then Some(3) else None
    case TYPE => FirstLiteral(code, i, TypeLiterals)
    case KEYWORD => if WordStart(code, i) then KeywordAt(code, i, Keywords) else None
    case NUMBER => if IsDigit(c) then Some(Run(code, i, IsDigit)) else None
    case IDENT => if IsLetter(c) || c == '_' then Some(1 + Run(code, i + 1, IsWordChar)) else None
    case GLYPH => if IsGlyph(c) then Some(1) else None
    case COMPARE => if StartsAt(code, i, "==") then Some(2) else None
    case ASSIGN => if c == '=' then Some(1) else None
    case END => if c == ';' || c == ':' || c == ',' then Some(1) else None
    case SKIP => if IsSpace(c) then Some(Run(code, i, IsSpace)) else None
  }

  /** The first group from the `r`-th on that matches at `i`. */
  function FirstRule(code: string, i: nat, r: nat): (m: Option<Match>)
    requires i < |code|
    ensures m.Some? ==> m.value.start == i < m.value.end <= |code|
    decreases |Rules| - r
  {
    if r >= |Rules| then None
    else
      match RuleLength(Rules[r], code, i)
      case Some(n) => Some(Span(Rules[r], i, i + n))
      case None => FirstRule(code, i, r + 1)
  }

  /** The alternation of `rules` tried at `i`; no match past the end. */
  function Alternation(code: string, i: nat): (r: Option<Match>)
    ensures r.Some? ==> r.value.start == i < r.value.end <= |code|
  {
    if i < |code| then FirstRule(code, i, 0) else None
  }

  /** The tokens `tokenize` keeps for the matches `ms`. */
  function Emit(code: string, ms: seq<Match>): (ts: seq<Token>)
    requires forall k :: 0 <= k < |ms| ==> ms[k].start <= ms[k].end <= |code|
  {
    if ms == [] then []
    else
      var prev, m := ms[..|ms| - 1], ms[|ms| - 1];
      Emit(code, prev) + (if m.kind == SKIP then [] else [Token(m.kind, code[m.start..m.end])])
  }

  /** `tokenize(code)`: the tokens of the matches `finditer` finds. */
  method Tokenize(code: string) returns (tokens: seq<Token>)
    ensures exists ms :: Found(Alternation, code, ms, 0, |code|) && tokens == Emit(code, ms)
  {
    var ms := FindIter(Alternation, code);
    tokens := [];
    for j := 0 to |ms|
      invariant tokens == Emit(code, ms[..j])
    {
      var m := ms[j];
      assert ms[..j + 1][..j] == ms[..j];
      if m.kind == SKIP {
        continue;
      }
      tokens := tokens + [Token(m.kind, code[m.start..m.end])];
    }
    assert ms[..|ms|] == ms;
  }

  /** Tokenizing is determined by the text: any two match lists `finditer`
      could be said to find give the same tokens. */
  lemma TokenizeDeterministic(code: string, a: seq<Match>, b: seq<Match>)
    requires Found(Alternation, code, a, 0, |code|) && Found(Alternation, code, b, 0, |code|)
    ensures Emit(code, a) == Emit(code, b)
  {
    FoundUnique(Alternation, code, a, b, 0, |code|);
  }

  // ---------------------------------------------------------------------
  // What the rule order decides.

  /** `...` is one ELLIPSIS, not three GLYPH points. */
  lemma EllipsisBeforeGlyph(code: string, i: nat)
    requires StartsAt(code, i, "...")
    ensures Alternation(code, i) == Some(Span(ELLIPSIS, i, i + 3))
  {
  }

  /** A point that does not open `...` is a GLYPH. */
  lemma LonePointIsGlyph(code: string, i: nat)
    requires i < |code| && code[i] == '.' && !StartsAt(code, i, "...")
    ensures Alternation(code, i) == Some(Span(GLYPH, i, i + 1))
  {
    NoTypeAt(code, i);
    NoKeywordAt(code, i);
  }

  /** A group that does not match at `i` hands over to the next one. */
  lemma RuleSkip(code: string, i: nat, r: nat)
    requires i < |code| && r < |Rules| && RuleLength(Rules[r], code, i).None?
    ensures FirstRule(code, i, r) == FirstRule(code, i, r + 1)
  {
  }

  /** The first group that matches at `i` decides the match. */
  lemma RuleHit(code: string, i: nat, r: nat, n: nat)
    requires i < |code| && r < |Rules| && RuleLength(Rules[r], code, i) == Some(n)
    ensures FirstRule(code, i, r) == Some(Span(Rules[r], i, i + n))
  {
  }

  /** At an `=` none of the first six groups matches. */
  lemma EqualsPassesFirstSix(code: string, i: nat)
    requires i < |code| && code[i] == '='
    ensures FirstRule(code, i, 0) == FirstRule(code, i, 6)
  {
    NotStartsAt(code, i, "...");
    RuleSkip(code, i, 0);
    NoTypeAt(code, i);
    RuleSkip(code, i, 1);
    NoKeywordAt(code, i);
    RuleSkip(code, i, 2);
    RuleSkip(code, i, 3);
    RuleSkip(code, i, 4);
    RuleSkip(code, i, 5);
  }

  /** `==` is one COMPARE, not two ASSIGNs. */
  lemma DoubleEqualsIsCompare(code: string, i: nat)
    requires StartsAt(code, i, "==")
    ensures Alternation(code, i) == Some(Span(COMPARE, i, i + 2))
  {
    StartsAtChars(code, i, "==");
    EqualsPassesFirstSix(code, i);
    RuleHit(code, i, 6, 2);
  }

  /** An `=` that is not followed by another is an ASSIGN. */
  lemma LoneEqualsIsAssign(code: string, i: nat)
    requires i < |code| && code[i] == '=' && !StartsAt(code, i, "==")
    ensures Alternation(code, i) == Some(Span(ASSIGN, i, i + 1))
  {
    EqualsPassesFirstSix(code, i);
    RuleSkip(code, i, 6);
    RuleHit(code, i, 7, 1);
  }

  /** `i_` is a TYPE of its own: the digits after it are a NUMBER. */
  lemma ArrayTypeStopsAtUnderscore(code: string, i: nat)
    requires StartsAt(code, i, "i_")
    ensures Alternation(code, i) == Some(Span(TYPE, i, i + 2))
  {
    StartsAtChars(code, i, "i_");
    NotStartsAt(code, i, "...");
    NotStartsAt(code, i, "$_");
    assert TypeLiterals[1..][0] == "i_";
    assert FirstLiteral(code, i, TypeLiterals[1..]) == Some(2);
  }

  /** No TYPE literal starts with a character other than `$ i s f c l`. */
  lemma NoTypeAt(code: string, i: nat)
    requires i < |code| && code[i] != '$' && code[i] != 'i' && code[i] != 's' && code[i] != 'f' && code[i] != 'c' && code[i] != 'l'
    ensures FirstLiteral(code, i, TypeLiterals).None?
  {
    TypeLiteralHeads();
    forall k | 0 <= k < |TypeLiterals| ensures !StartsAt(code, i, TypeLiterals[k]) {
      NotStartsAt(code, i, TypeLiterals[k]);
    }
  }

  lemma TypeLiteralHeads()
    ensures forall k :: 0 <= k < |TypeLiterals| ==> |TypeLiterals[k]| > 0 && TypeLiterals[k][0] in "$isfcl"
  {
  }

  /** A character that begins no rule produces nothing: `finditer` passes
      over it. */
  lemma UnmatchedIsPassedOver(code: string, i: nat)
    requires i < |code|
    requires !IsWordChar(code[i]) && !IsGlyph(code[i]) && !IsSpace(code[i])
    requires code[i] != '=' && code[i] != ';' && code[i] != ':' && code[i] != ','
    ensures Alternation(code, i).None?
  {
    NotStartsAt(code, i, "...");
    NotStartsAt(code, i, "==");
    NoTypeAt(code, i);
    NoKeywordAt(code, i);
  }

  /** No keyword starts with a character other than `s i w e`. */
  lemma NoKeywordAt(code: string, i: nat)
    requires i < |code| && code[i] != 's' && code[i] != 'i' && code[i] != 'w' && code[i] != 'e'
    ensures KeywordAt(code, i, Keywords).None?
  {
    forall k | 0 <= k < |Keywords| ensures !StartsAt(code, i, Keywords[k]) {
      NotStartsAt(code, i, Keywords[k]);
    }
  }

  /** `+ - * / < > !` are among the characters passed over. */
  lemma OperatorsArePassedOver(code: string, i: nat)
    requires i < |code|
    requires code[i] == '+' || code[i] == '-' || code[i] == '*' || code[i] == '/' || code[i] == '<' || code[i] == '>' || code[i] == '!'
    ensures Alternation(code, i).None?
  {
    UnmatchedIsPassedOver(code, i);
  }
}
