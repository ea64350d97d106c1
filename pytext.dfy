/**
 * The pieces of Python's `str` methods and `re` character classes that the
 * transpilers use.  `\w`, `\d` and `str.isdigit` are ASCII-only here;
 * `\s`, `str.isspace` and `str.strip` use Python's full whitespace set.
 */
module PyText {
  import opened Wrappers

  predicate IsDigit(c: char) { '0' <= c <= '9' }

  predicate IsLower(c: char) { 'a' <= c <= 'z' }

  predicate IsLetter(c: char) { 'a' <= c <= 'z' || 'A' <= c <= 'Z' }

  /** `\w` */
  predicate IsWordChar(c: char) { IsLetter(c) || IsDigit(c) || c == '_' }

  /** `\s`, the characters for which `str.isspace()` holds: tab to
      carriage return, the separators U+001C to U+001F, the blank, and the
      wider Unicode spaces. */
  predicate IsSpace(c: char) {
    if c <= ' ' then '\t' <= c <= '\r' || '\U{001C}' <= c else IsWideSpace(c)
  }

  /** The characters above U+0020 for which `str.isspace()` holds. */
  predicate IsWideSpace(c: char) {
    c == '\U{0085}' || c == '\U{00A0}' || c == '\U{1680}' || ('\U{2000}' <= c <= '\U{200A}')
    || c == '\U{2028}' || c == '\U{2029}' || c == '\U{202F}' || c == '\U{205F}' || c == '\U{3000}'
  }

  /** The line boundaries of `str.splitlines` (`\r\n` is handled as one boundary). */
  predicate IsLineBoundary(c: char) {
    c == '\n' || c == '\r' || c == '\U{000B}' || c == '\U{000C}' || ('\U{001C}' <= c <= '\U{001E}')
    || c == '\U{0085}' || c == '\U{2028}' || c == '\U{2029}'
  }

  /** Length of the longest run of characters satisfying `p` that starts at `i`
      (a greedy `[...]*`). */
  function Run(s: string, i: nat, p: char -> bool): (n: nat)
    requires i <= |s|
    ensures i + n <= |s|
    ensures i + n == |s| || !p(s[i + n])
    decreases |s| - i
  {
    if i < |s| && p(s[i]) then 1 + Run(s, i + 1, p) else 0
  }

  /** Every character of a run satisfies the predicate. */
  lemma {:induction false} RunAll(s: string, i: nat, p: char -> bool)
    requires i <= |s|
    ensures forall k :: i <= k < i + Run(s, i, p) ==> p(s[k])
    decreases |s| - i
  {
    if i < |s| && p(s[i]) {
      RunAll(s, i + 1, p);
    }
  }

  /** A run that begins with `n` characters satisfying the predicate
      continues after them. */
  lemma {:induction false} RunPrefix(s: string, i: nat, n: nat, p: char -> bool)
    requires i + n <= |s|
    requires forall k :: i <= k < i + n ==> p(s[k])
    ensures Run(s, i, p) == n + Run(s, i + n, p)
    decreases n
  {
    if n > 0 {
      RunPrefix(s, i + 1, n - 1, p);
    }
  }

  /** A run that is known to stop after `n` characters has length `n`. */
  lemma {:induction false} RunIs(s: string, i: nat, n: nat, p: char -> bool)
    requires i + n <= |s|
    requires forall k :: i <= k < i + n ==> p(s[k])
    requires i + n == |s| || !p(s[i + n])
    ensures Run(s, i, p) == n
    decreases n
  {
    if n > 0 {
      RunIs(s, i + 1, n - 1, p);
    }
  }

  /** A run of exactly one character. */
  lemma RunOne(s: string, i: nat, p: char -> bool)
    requires i < |s| && p(s[i]) && (i + 1 == |s| || !p(s[i + 1]))
    ensures Run(s, i, p) == 1
  {
  }

  /** A run over a copy of `x` placed at `i`, when `x` is all `p` and the
      character after it is not. */
  lemma RunOfSlice(s: string, i: nat, x: string, p: char -> bool)
    requires i + |x| <= |s| && s[i..i + |x|] == x
    requires forall k :: 0 <= k < |x| ==> p(x[k])
    requires i + |x| == |s| || !p(s[i + |x|])
    ensures Run(s, i, p) == |x|
  {
    forall k | i <= k < i + |x| ensures p(s[k]) { assert s[i..i + |x|][k - i] == s[k]; }
    RunIs(s, i, |x|, p);
  }

  /** `s[i:].startswith(lit)` */
  predicate StartsAt(s: string, i: nat, lit: string) {
    i + |lit| <= |s| && s[i..i + |lit|] == lit
  }

  predicate StartsWith(s: string, prefix: string) {
    StartsAt(s, 0, prefix)
  }

  lemma StartsAtChars(s: string, i: nat, lit: string)
    requires StartsAt(s, i, lit)
    ensures forall k :: 0 <= k < |lit| ==> s[i + k] == lit[k]
  {
    forall k | 0 <= k < |lit| ensures s[i + k] == lit[k] {
      assert s[i..i + |lit|][k] == s[i + k];
    }
  }

  lemma PrefixChars(s: string, lit: string)
    requires StartsWith(s, lit)
    ensures forall k :: 0 <= k < |lit| ==> s[k] == lit[k]
  {
    forall k | 0 <= k < |lit| ensures s[k] == lit[k] {
      assert s[0..|lit|][k] == s[k];
    }
  }

  lemma NotStartsAt(s: string, i: nat, lit: string)
    requires |lit| > 0 && (i >= |s| || s[i] != lit[0])
    ensures !StartsAt(s, i, lit)
  {
    if i + |lit| <= |s| {
      assert s[i..i + |lit|][0] == s[i];
    }
  }

  /** An alternation of literals, `(a|b|...)`, at `i`: the length of the
      first of `lits` that occurs there, if any. */
  function FirstLiteral(code: string, i: nat, lits: seq<string>): (r: Option<nat>)
    ensures r.Some? ==> exists k :: 0 <= k < |lits| && |lits[k]| == r.value && StartsAt(code, i, lits[k])
    ensures r.None? ==> forall k :: 0 <= k < |lits| ==> !StartsAt(code, i, lits[k])
  {
    if lits == [] then None
    else if StartsAt(code, i, lits[0]) then Some(|lits[0]|)
    else
      var r := FirstLiteral(code, i, lits[1..]);
      assert forall k :: 0 < k < |lits| ==> lits[k] == lits[1..][k - 1];
      r
  }

  /** `\b` at `i` in front of a word character. */
  predicate WordStart(code: string, i: nat) {
    i == 0 || (i <= |code| && !IsWordChar(code[i - 1]))
  }

  /** `\b` at `j` behind a word character. */
  predicate WordEnd(code: string, j: nat) {
    j >= |code| || !IsWordChar(code[j])
  }

  /** `(k1|k2|...)\b` at `i`: the length of the first keyword of `kws` that
      occurs there and ends on a word boundary.  The group backtracks into
      its later alternatives when the boundary fails after an earlier one. */
  function KeywordAt(code: string, i: nat, kws: seq<string>): (r: Option<nat>)
    ensures r.Some? ==> exists k :: 0 <= k < |kws| && |kws[k]| == r.value && StartsAt(code, i, kws[k])
    ensures r.Some? ==> WordEnd(code, i + r.value)
    ensures r.None? ==> forall k :: 0 <= k < |kws| ==> !(StartsAt(code, i, kws[k]) && WordEnd(code, i + |kws[k]|))
  {
    if kws == [] then None
    else if StartsAt(code, i, kws[0]) && WordEnd(code, i + |kws[0]|) then Some(|kws[0]|)
    else
      var r := KeywordAt(code, i, kws[1..]);
      assert forall k :: 0 < k < |kws| ==> kws[k] == kws[1..][k - 1];
      r
  }

  /** `sub in s` for strings */
  predicate Contains(s: string, sub: string)
    decreases |s|
  {
    StartsWith(s, sub) || (s != [] && Contains(s[1..], sub))
  }

  lemma {:induction false} ContainsAt(s: string, sub: string, i: nat)
    requires StartsAt(s, i, sub)
    ensures Contains(s, sub)
    decreases i
  {
    if i > 0 {
      assert StartsAt(s[1..], i - 1, sub) by {
        assert s[1..][i - 1..i - 1 + |sub|] == s[i..i + |sub|];
      }
      ContainsAt(s[1..], sub, i - 1);
    }
  }

  /** `\)` at `j` */
  predicate CloseAt(s: string, j: nat) {
    j < |s| && s[j] == ')'
  }

  /** Smallest `j >= i` at which `stop` holds, where `s[i..j]` holds no newline:
      the lazy `(.*?)` followed by the stop pattern. */
  function LazyEnd(s: string, i: nat, stop: (string, nat) -> bool): (r: Option<nat>)
    requires i <= |s|
    ensures r.Some? ==> i <= r.value <= |s| && stop(s, r.value)
    decreases |s| - i
  {
    if stop(s, i) then Some(i)
    else if i < |s| && s[i] != '\n' then LazyEnd(s, i + 1, stop)
    else None
  }

  /** The lazy match ends at `j` when `stop` first holds there and no
      newline comes before. */
  lemma {:induction false} LazyEndIs(s: string, i: nat, j: nat, stop: (string, nat) -> bool)
    requires i <= j <= |s| && stop(s, j)
    requires forall k :: i <= k < j ==> !stop(s, k) && s[k] != '\n'
    ensures LazyEnd(s, i, stop) == Some(j)
    decreases j - i
  {
    if i < j {
      LazyEndIs(s, i + 1, j, stop);
    }
  }

  /** `s.lstrip()` */
  function LStrip(s: string): (r: string)
    ensures |r| <= |s|
    ensures r == [] || !IsSpace(r[0])
  {
    if s != [] && IsSpace(s[0]) then LStrip(s[1..]) else s
  }

  /** `s.rstrip()` */
  function RStrip(s: string): (r: string)
    ensures |r| <= |s|
    ensures r == [] || !IsSpace(r[|r| - 1])
  {
    if s != [] && IsSpace(s[|s| - 1]) then RStrip(s[..|s| - 1]) else s
  }

  /** `s.lstrip()` drops a whitespace prefix and keeps the rest. */
  lemma {:induction false} LStripSuffix(s: string)
    ensures LStrip(s) == s[|s| - |LStrip(s)|..]
    ensures forall k :: 0 <= k < |s| - |LStrip(s)| ==> IsSpace(s[k])
  {
    if s != [] && IsSpace(s[0]) {
      LStripSuffix(s[1..]);
    }
  }

  /** `s.rstrip()` drops a whitespace suffix and keeps the rest. */
  lemma {:induction false} RStripPrefix(s: string)
    ensures RStrip(s) == s[..|RStrip(s)|]
    ensures forall k :: |RStrip(s)| <= k < |s| ==> IsSpace(s[k])
  {
    if s != [] && IsSpace(s[|s| - 1]) {
      RStripPrefix(s[..|s| - 1]);
    }
  }

  /** `s.strip()` */
  function Strip(s: string): (r: string)
    ensures r == [] || (!IsSpace(r[0]) && !IsSpace(r[|r| - 1]))
    ensures |r| <= |s|
  {
    RStripPrefix(LStrip(s));
    RStrip(LStrip(s))
  }

  /** Text that neither starts nor ends with whitespace is its own strip. */
  lemma StripKeeps(s: string)
    requires s != [] && !IsSpace(s[0]) && !IsSpace(s[|s| - 1])
    ensures Strip(s) == s
  {
  }

  /** Stripping adds no character. */
  lemma StripChars(s: string, c: char)
    requires c !in s
    ensures c !in Strip(s)
  {
    var l := LStrip(s);
    LStripSuffix(s);
    assert l == s[|s| - |l|..];
    var r := RStrip(l);
    RStripPrefix(l);
    assert r == l[..|r|];
  }

  /** `s.strip(c)` */
  function StripChar(s: string, c: char): (r: string)
    ensures r == [] || (r[0] != c && r[|r| - 1] != c)
  {
    if s != [] && s[0] == c then StripChar(s[1..], c)
    else if s != [] && s[|s| - 1] == c then StripChar(s[..|s| - 1], c)
    else s
  }

  /** `s.rstrip(c)` for a one-character argument */
  function RStripChar(s: string, c: char): (r: string)
    ensures |r| <= |s| && r == s[..|r|]
    ensures r == [] || r[|r| - 1] != c
    ensures forall k :: |r| <= k < |s| ==> s[k] == c
  {
    if s != [] && s[|s| - 1] == c then RStripChar(s[..|s| - 1], c) else s
  }

  /** `s.replace(c, t)` for a one-character pattern */
  function ReplaceChar(s: string, c: char, t: string): (r: string)
    ensures c !in t ==> c !in r
    ensures c !in s ==> r == s
  {
    if s == [] then []
    else (if s[0] == c then t else [s[0]]) + ReplaceChar(s[1..], c, t)
  }

  /** `s.replace(c, t)` works piece by piece. */
  lemma {:induction false} ReplaceCharAppend(x: string, y: string, c: char, t: string)
    ensures ReplaceChar(x + y, c, t) == ReplaceChar(x, c, t) + ReplaceChar(y, c, t)
  {
    if x != [] {
      assert (x + y)[0] == x[0] && (x + y)[1..] == x[1..] + y;
      ReplaceCharAppend(x[1..], y, c, t);
      var h := if x[0] == c then t else [x[0]];
      assert ReplaceChar(x, c, t) == h + ReplaceChar(x[1..], c, t);
    } else {
      assert x + y == y;
    }
  }

  /** Replacing a character by one character keeps the length and changes
      exactly the positions holding it. */
  lemma {:induction false} ReplaceCharByChar(s: string, c: char, d: char)
    ensures |ReplaceChar(s, c, [d])| == |s|
    ensures forall k :: 0 <= k < |s| ==> ReplaceChar(s, c, [d])[k] == if s[k] == c then d else s[k]
  {
    if s != [] {
      ReplaceCharByChar(s[1..], c, d);
      var h := if s[0] == c then [d] else [s[0]];
      assert ReplaceChar(s, c, [d]) == h + ReplaceChar(s[1..], c, [d]);
      forall k | 0 <= k < |s| ensures ReplaceChar(s, c, [d])[k] == if s[k] == c then d else s[k] {
        if k > 0 {
          assert s[1..][k - 1] == s[k];
        }
      }
    }
  }

  /** A character found neither in `s` nor in `t` is not in the result. */
  lemma {:induction false} ReplaceCharKeepsOut(s: string, c: char, t: string, d: char)
    requires d !in s && d !in t
    ensures d !in ReplaceChar(s, c, t)
  {
    if s != [] {
      assert d !in s[1..] by { assert forall k :: 0 <= k < |s[1..]| ==> s[1..][k] == s[k + 1]; }
      ReplaceCharKeepsOut(s[1..], c, t, d);
    }
  }

  /** `sep.join(parts)` */
  function Join(sep: string, parts: seq<string>): string
  {
    if |parts| == 0 then ""
    else if |parts| == 1 then parts[0]
    else parts[0] + sep + Join(sep, parts[1..])
  }

  /** `s.split(c)` for a one-character separator */
  function SplitOn(s: string, c: char): (r: seq<string>)
    ensures |r| >= 1
    ensures forall k :: 0 <= k < |r| ==> c !in r[k]
  {
    if s == [] then [[]]
    else
      var rest := SplitOn(s[1..], c);
      if s[0] == c then [[]] + rest
      else [[s[0]] + rest[0]] + rest[1..]
  }

  lemma JoinCons(sep: string, x: string, parts: seq<string>)
    requires |parts| >= 1
    ensures Join(sep, [x] + parts) == x + sep + Join(sep, parts)
  {
    assert ([x] + parts)[1..] == parts;
  }

  lemma JoinConsHead(sep: string, x: char, parts: seq<string>)
    requires |parts| >= 1
    ensures Join(sep, [[x] + parts[0]] + parts[1..]) == [x] + Join(sep, parts)
  {
  }

  /** Splitting on `c` and joining with `c` gives the string back. */
  lemma {:induction false} JoinSplit(s: string, c: char)
    ensures Join([c], SplitOn(s, c)) == s
  {
    if s != [] {
      var rest := SplitOn(s[1..], c);
      JoinSplit(s[1..], c);
      if s[0] == c {
        assert SplitOn(s, c) == [[]] + rest;
      } else {
        JoinConsHead([c], s[0], rest);
      }
    }
  }

  /** A separator-free string splits into itself. */
  lemma {:induction false} SplitOnNone(s: string, c: char)
    requires c !in s
    ensures SplitOn(s, c) == [s]
  {
    if s != [] {
      SplitOnNone(s[1..], c);
      assert [s[0]] + s[1..] == s;
    }
  }

  /** Splitting at the first separator. */
  lemma {:induction false} SplitOnFirst(a: string, b: string, c: char)
    requires c !in a
    ensures SplitOn(a + [c] + b, c) == [a] + SplitOn(b, c)
  {
    if a == [] {
      assert a + [c] + b == [c] + b;
      assert ([c] + b)[1..] == b;
    } else {
      SplitOnFirst(a[1..], b, c);
      assert (a + [c] + b)[1..] == a[1..] + [c] + b;
      assert [a[0]] + a[1..] == a;
    }
  }

  /** `s.index(c)`: the position of the first `c`. */
  function IndexOf(s: string, c: char): (r: nat)
    requires c in s
    ensures r < |s| && s[r] == c && c !in s[..r]
  {
    if s[0] == c then 0
    else
      var r := IndexOf(s[1..], c);
      assert s[..r + 1] == [s[0]] + s[1..][..r];
      r + 1
  }

  /** The first `c` of `a + [c] + b` is the one after `a` when `a` holds none. */
  lemma {:induction false} IndexOfFirst(a: string, b: string, c: char)
    requires c !in a
    ensures c in a + [c] + b && IndexOf(a + [c] + b, c) == |a|
  {
    var s := a + [c] + b;
    assert s[|a|] == c;
    if a != [] {
      IndexOfFirst(a[1..], b, c);
      assert s[1..] == a[1..] + [c] + b;
    }
  }

  /** `s.splitlines()` */
  function Splitlines(s: string): (r: seq<string>)
    ensures forall k, j :: 0 <= k < |r| && 0 <= j < |r[k]| ==> !IsLineBoundary(r[k][j])
    decreases |s|
  {
    if s == [] then []
    else
      var inLine := c => !IsLineBoundary(c);
      var k := Run(s, 0, inLine);
      RunAll(s, 0, inLine);
      if k == |s| then [s]
      else if s[k] == '\r' && k + 1 < |s| && s[k + 1] == '\n' then [s[..k]] + Splitlines(s[k + 2..])
      else [s[..k]] + Splitlines(s[k + 1..])
  }

  /** `s.isdigit()` */
  predicate AllDigits(s: string) {
    |s| > 0 && forall k :: 0 <= k < |s| ==> IsDigit(s[k])
  }

  function DigitValue(c: char): nat
    requires IsDigit(c)
  {
    (c as int - '0' as int) as nat
  }

  function DigitChar(d: nat): (c: char)
    requires d < 10
    ensures IsDigit(c) && DigitValue(c) == d
  {
    ('0' as int + d) as char
  }

  /** `int(s)` for a string of ASCII digits */
  function DecimalValue(s: string): nat
    requires forall k :: 0 <= k < |s| ==> IsDigit(s[k])
  {
    if s == [] then 0 else 10 * DecimalValue(s[..|s| - 1]) + DigitValue(s[|s| - 1])
  }

  /** `str(n)` */
  function NatToDecimal(n: nat): (r: string)
    ensures AllDigits(r)
    ensures |r| > 1 ==> r[0] != '0'
  {
    if n < 10 then [DigitChar(n)] else NatToDecimal(n / 10) + [DigitChar(n % 10)]
  }

  /** Printing a number and reading it back gives the number. */
  lemma {:induction false} DecimalRoundTrip(n: nat)
    ensures DecimalValue(NatToDecimal(n)) == n
  {
    if n >= 10 {
      DecimalRoundTrip(n / 10);
      var r := NatToDecimal(n);
      assert r[..|r| - 1] == NatToDecimal(n / 10);
    }
  }

  /** What `f` makes of the pieces it accepts, in their order: a list
      comprehension with a filter, or a loop that skips the rejected pieces. */
  function Kept<T>(f: string -> Option<T>, pieces: seq<string>): (r: seq<T>)
    ensures |r| <= |pieces|
  {
    if pieces == [] then []
    else
      var last := f(pieces[|pieces| - 1]);
      Kept(f, pieces[..|pieces| - 1]) + (if last.Some? then [last.value] else [])
  }

  /** A word holds no character that is not a word character. */
  lemma WordLacks(x: string, c: char)
    requires (forall k :: 0 <= k < |x| ==> IsWordChar(x[k])) && !IsWordChar(c)
    ensures c !in x
  {
  }

  /** `s.replace(c, t)` on a text with one `c`, between `x` and `y`. */
  lemma ReplaceOne(x: string, y: string, c: char, t: string)
    requires c !in x && c !in y
    ensures ReplaceChar(x + [c] + y, c, t) == x + t + y
  {
    ReplaceCharAppend(x + [c], y, c, t);
    ReplaceCharAppend(x, [c], c, t);
    ReplaceCharSingle(c, t);
    calc {
      ReplaceChar(x + [c] + y, c, t);
      ReplaceChar(x + [c], c, t) + ReplaceChar(y, c, t);
      ReplaceChar(x, c, t) + ReplaceChar([c], c, t) + ReplaceChar(y, c, t);
      x + t + y;
    }
  }

  lemma ReplaceCharSingle(c: char, t: string)
    ensures ReplaceChar([c], c, t) == t
  {
    assert [c][1..] == [];
    assert ReplaceChar([c], c, t) == t + ReplaceChar([], c, t);
  }

  /** A run seen from inside itself is the rest of the run. */
  lemma {:induction false} RunFrom(s: string, i: nat, k: nat, p: char -> bool)
    requires i <= |s| && i <= k <= i + Run(s, i, p)
    ensures Run(s, k, p) == Run(s, i, p) - (k - i)
    decreases k - i
  {
    if i < k {
      assert i < |s| && p(s[i]);
      RunFrom(s, i + 1, k, p);
    }
  }

  /** A text is blank when every character of it is whitespace. */
  predicate Blank(s: string) {
    forall k :: 0 <= k < |s| ==> IsSpace(s[k])
  }

  /** `s.strip()` is empty exactly when `s` is blank. */
  lemma StripEmpty(s: string)
    ensures Strip(s) == [] <==> Blank(s)
  {
    var l := LStrip(s);
    LStripSuffix(s);
    RStripPrefix(l);
    if l != [] {
      assert l[0] == s[|s| - |l|];
      assert !IsSpace(l[0]);
      assert RStrip(l) != [];
    }
  }

  /** Replacing a character by a text without whitespace keeps a text
      that is not blank from becoming blank. */
  lemma {:induction false} ReplaceCharNotBlank(s: string, c: char, t: string)
    requires !Blank(s) && t != [] && !IsSpace(t[0])
    ensures !Blank(ReplaceChar(s, c, t))
  {
    var h := if s[0] == c then t else [s[0]];
    assert ReplaceChar(s, c, t) == h + ReplaceChar(s[1..], c, t);
    if IsSpace(s[0]) {
      assert !Blank(s[1..]) by {
        var k :| 0 <= k < |s| && !IsSpace(s[k]);
        assert s[1..][k - 1] == s[k];
      }
      ReplaceCharNotBlank(s[1..], c, t);
      var k :| 0 <= k < |ReplaceChar(s[1..], c, t)| && !IsSpace(ReplaceChar(s[1..], c, t)[k]);
      assert (h + ReplaceChar(s[1..], c, t))[|h| + k] == ReplaceChar(s[1..], c, t)[k];
    } else {
      assert (h + ReplaceChar(s[1..], c, t))[0] == h[0];
    }
  }

  /** When `f` accepts every piece, `Kept` holds its results, one per
      piece, in order. */
  lemma {:induction false} KeptInOrder<T>(f: string -> Option<T>, pieces: seq<string>)
    requires forall k :: 0 <= k < |pieces| ==> f(pieces[k]).Some?
    ensures |Kept(f, pieces)| == |pieces|
    ensures forall k :: 0 <= k < |pieces| ==> Kept(f, pieces)[k] == f(pieces[k]).value
    decreases |pieces|
  {
    if pieces != [] {
      var init := pieces[..|pieces| - 1];
      assert forall k :: 0 <= k < |init| ==> init[k] == pieces[k];
      KeptInOrder(f, init);
    }
  }

  /** `Kept` works piece by piece. */
  lemma {:induction false} KeptAppend<T>(f: string -> Option<T>, x: seq<string>, y: seq<string>)
    ensures Kept(f, x + y) == Kept(f, x) + Kept(f, y)
    decreases |y|
  {
    if y == [] {
      assert x + y == x;
    } else {
      var init := y[..|y| - 1];
      assert (x + y)[..|x + y| - 1] == x + init;
      assert (x + y)[|x + y| - 1] == y[|y| - 1];
      KeptAppend(f, x, init);
    }
  }

  /** Blanks in front of a text that already is its own strip go away. */
  lemma {:induction false} StripBlankPrefix(b: string, x: string)
    requires Blank(b) && x != [] && !IsSpace(x[0]) && !IsSpace(x[|x| - 1])
    ensures Strip(b + x) == x
  {
    LStripBlankPrefix(b, x);
    StripKeeps(x);
  }

  lemma {:induction false} LStripBlankPrefix(b: string, x: string)
    requires Blank(b) && x != [] && !IsSpace(x[0])
    ensures LStrip(b + x) == x
    decreases |b|
  {
    if b == [] {
      assert b + x == x;
    } else {
      assert (b + x)[0] == b[0] && (b + x)[1..] == b[1..] + x;
      assert Blank(b[1..]) by {
        forall k | 0 <= k < |b[1..]| ensures IsSpace(b[1..][k]) { assert b[1..][k] == b[k + 1]; }
      }
      LStripBlankPrefix(b[1..], x);
    }
  }
}
