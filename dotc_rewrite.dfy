/**
 * The expression rewriter `rewrite_expr` of archive/dotc.py: `re.findall`
 * cuts the expression into tokens, `to_cpp` resolves the access sigils `@`
 * and `"`, and `parse_primary`/`parse_subexpr` climb the precedence table
 * `{'^': 3, '*': 2, '/': 2, '+': 1, '-': 1}`, rendering `^` as `pow(l, r)`.
 *
 * The source builds the C++ text directly while it parses.  Here the parse
 * builds an expression tree and `Render` produces exactly the text the
 * source builds; the tree is what the precedence properties talk about.
 */
module DotcRewrite {
  import opened PyText
  import opened Wrappers

  /** The exceptions `rewrite_expr` can raise. */
  datatype RewriteError =
    | IndexError                  // `tokens[i]` past the end, or `[0]` of ""
    | UnpackError                 // `var, index = token.split('"')` with two or more `"`
    | PseudoDeref(name: string)   // `"` access on a pseudo parameter

  /** The text of the exception raised for `"` access on a pseudo parameter. */
  function PseudoDerefMessage(name: string): string {
    "Illegal: pseudo '" + name + "' cannot be dereferenced with \". Use " + name + "@ instead."
  }

  // ---------------------------------------------------------------------
  // Tokens: `\w+@\([^)]*\)|\w+@\w+|\w+@|\w+"?\w*|\^|\*|/|\+|\-|\(|\)`

  predicate NotCloseParen(c: char) { c != ')' }

  predicate IsOperatorChar(c: char) {
    c == '^' || c == '*' || c == '/' || c == '+' || c == '-' || c == '(' || c == ')'
  }

  /** Length of the findall match at `i`, if one starts there.  The leading
      `\w+` is always the whole word run, since `@` and `"` are not word
      characters; an alternative that fails falls through to the next. */
  function TokenLength(s: string, i: nat): (r: Option<nat>)
    requires i < |s|
    ensures r.Some? ==> 0 < r.value && i + r.value <= |s|
  {
    var w := Run(s, i, IsWordChar);
    var j := i + w;
    if w > 0 then
      if j + 1 < |s| && s[j] == '@' && s[j + 1] == '(' && j + 2 + Run(s, j + 2, NotCloseParen) < |s| then
        Some(w + 3 + Run(s, j + 2, NotCloseParen))
      else if j + 1 < |s| && s[j] == '@' && Run(s, j + 1, IsWordChar) > 0 then
        Some(w + 1 + Run(s, j + 1, IsWordChar))
      else if j < |s| && s[j] == '@' then
        Some(w + 1)
      else if j < |s| && s[j] == '"' then
        Some(w + 1 + Run(s, j + 1, IsWordChar))
      else
        Some(w)
    else if IsOperatorChar(s[i]) then Some(1)
    else None
  }

  /** `re.findall(pattern, s[i:])`: unmatched characters are passed over. */
  function FindAll(s: string, i: nat): (toks: seq<string>)
    requires i <= |s|
    ensures forall k :: 0 <= k < |toks| ==> |toks[k]| > 0
    decreases |s| - i
  {
    if i == |s| then []
    else
      match TokenLength(s, i)
      case None => FindAll(s, i + 1)
      case Some(n) => [s[i..i + n]] + FindAll(s, i + n)
  }

  // ---------------------------------------------------------------------
  // `to_cpp`

  /** `to_cpp(token)` with the pseudo parameters `pseudo`. */
  function ToCpp(token: string, pseudo: set<string>): Result<string, RewriteError> {
    if '@' in token then
      if token[|token| - 1] == '@' then Ok(token[..|token| - 1])
      else
        var at := IndexOf(token, '@');
        var base, idx := token[..at], token[at + 1..];
        if |idx| > 0 && idx[0] == '(' && idx[|idx| - 1] == ')' then
          Ok(base + "[" + idx[1..|idx| - 1] + "]")
        else
          Ok(base + "[" + idx + "]")
    else if '"' in token then
      var parts := SplitOn(token, '"');
      if |parts| != 2 then Err(UnpackError)
      else if parts[0] in pseudo then Err(PseudoDeref(parts[0]))
      else Ok(parts[0] + "[" + parts[1] + "]")
    else Ok(token)
  }

  /** `name@` is `name`. */
  lemma AtSuffixDrops(name: string, pseudo: set<string>)
    ensures ToCpp(name + "@", pseudo) == Ok(name)
  {
    assert (name + "@")[|name|] == '@';
    assert (name + "@")[..|name|] == name;
  }

  /** `name@k` is `name[k]` for an index that is not parenthesised. */
  lemma AtIndexSubscripts(name: string, k: string, pseudo: set<string>)
    requires '@' !in name && k != [] && k[0] != '(' && k[|k| - 1] != '@'
    ensures ToCpp(name + "@" + k, pseudo) == Ok(name + "[" + k + "]")
  {
    var t := name + "@" + k;
    assert t == name + ['@'] + k;
    IndexOfFirst(name, k, '@');
    assert t[|t| - 1] == k[|k| - 1];
    assert t[..|name|] == name && t[|name| + 1..] == k;
  }

  /** `name@(k)` is `name[k]`. */
  lemma AtGroupSubscripts(name: string, k: string, pseudo: set<string>)
    requires '@' !in name
    ensures ToCpp(name + "@(" + k + ")", pseudo) == Ok(name + "[" + k + "]")
  {
    var t := name + "@(" + k + ")";
    assert t == name + ['@'] + ("(" + k + ")");
    IndexOfFirst(name, "(" + k + ")", '@');
    assert t[|t| - 1] == ')';
    assert t[..|name|] == name;
    var idx := t[|name| + 1..];
    assert idx == "(" + k + ")";
    assert idx[1..|idx| - 1] == k;
  }

  /** `name"k` is `name[k]`, unless `name` is a pseudo parameter, which
      raises instead. */
  lemma QuoteSubscriptsOrRefuses(name: string, k: string, pseudo: set<string>)
    requires '@' !in name && '@' !in k && '"' !in name && '"' !in k
    ensures ToCpp(name + "\"" + k, pseudo)
      == if name in pseudo then Err(PseudoDeref(name)) else Ok(name + "[" + k + "]")
  {
    var t := name + "\"" + k;
    assert '@' !in t by {
      forall j | 0 <= j < |t| ensures t[j] != '@' {
        if j < |name| { assert t[j] == name[j]; }
        else if j > |name| { assert t[j] == k[j - |name| - 1]; }
      }
    }
    assert t[|name|] == '"';
    SplitOnFirst(name, k, '"');
    SplitOnNone(k, '"');
    assert t == name + ['"'] + k;
  }

  /** A token without sigils is kept as it is. */
  lemma PlainTokenKept(token: string, pseudo: set<string>)
    requires '@' !in token && '"' !in token
    ensures ToCpp(token, pseudo) == Ok(token)
  {
  }

  // ---------------------------------------------------------------------
  // Precedence climbing

  predicate IsOperator(t: string) {
    t == "^" || t == "*" || t == "/" || t == "+" || t == "-"
  }

  /** `precedence[op]` */
  function Prec(op: string): nat
    requires IsOperator(op)
  {
    if op == "^" then 3 else if op == "*" || op == "/" then 2 else 1
  }

  /** The parse: a token rendered by `to_cpp`, a parenthesised
      subexpression with the token that was skipped as its closer (none when
      the tokens ran out), or an operator applied to two operands. */
  datatype Expr =
    | Atom(token: string, cpp: string)
    | Group(inner: Expr, closer: Option<string>)
    | Binary(op: string, left: Expr, right: Expr)

  /** The C++ text the source builds for a parse. */
  function Render(e: Expr): string {
    match e
    case Atom(_, cpp) => cpp
    case Group(inner, _) => "(" + Render(inner) + ")"
    case Binary(op, l, r) =>
      if op == "^" then "pow(" + Render(l) + ", " + Render(r) + ")"
      else Render(l) + " " + op + " " + Render(r)
  }

  /** The tokens a parse consumed, in order. */
  function Flatten(e: Expr): seq<string> {
    match e
    case Atom(t, _) => [t]
    case Group(inner, closer) => ["("] + Flatten(inner) + (if closer.Some? then [closer.value] else [])
    case Binary(op, l, r) => Flatten(l) + [op] + Flatten(r)
  }

  /** How tightly the top of `e` binds: operands that are a token or a
      group bind tighter than any operator. */
  function TopPrec(e: Expr): nat {
    match e
    case Binary(op, _, _) => if IsOperator(op) then Prec(op) else 0
    case _ => 4
  }

  /** Precedence climbing's shape: every operator's left operand binds at
      least as tightly as the operator (so equal operators group to the
      left) and its right operand binds strictly more tightly. */
  predicate WellNested(e: Expr) {
    match e
    case Atom(_, _) => true
    case Group(inner, _) => WellNested(inner)
    case Binary(op, l, r) =>
      IsOperator(op) && WellNested(l) && WellNested(r) && TopPrec(l) >= Prec(op) && TopPrec(r) > Prec(op)
  }

  /** The tokens `i..j`, cut off at the end of `toks`. */
  function Window(toks: seq<string>, i: nat, j: nat): seq<string>
    requires i <= j
  {
    var a := if i < |toks| then i else |toks|;
    var b := if j < |toks| then j else |toks|;
    toks[a..b]
  }

  /** The climbing loop stopped at `i`: the tokens ran out, or the next
      token is not an operator of at least precedence `minp`. */
  predicate Stops(toks: seq<string>, i: nat, minp: nat) {
    i >= |toks| || !IsOperator(toks[i]) || Prec(toks[i]) < minp
  }

  lemma WindowSplit(toks: seq<string>, i: nat, j: nat, k: nat)
    requires i <= j <= k
    ensures Window(toks, i, k) == Window(toks, i, j) + Window(toks, j, k)
  {
  }

  lemma WindowCons(toks: seq<string>, i: nat, j: nat)
    requires i < j && i < |toks|
    ensures Window(toks, i, j) == [toks[i]] + Window(toks, i + 1, j)
  {
  }

  lemma WindowGroup(toks: seq<string>, i: nat, next: nat)
    requires i < |toks| && toks[i] == "(" && i < next
    ensures Window(toks, i, next + 1)
      == ["("] + Window(toks, i + 1, next) + (if next < |toks| then [toks[next]] else [])
  {
    WindowCons(toks, i, next + 1);
    WindowSplit(toks, i + 1, next, next + 1);
  }

  function Dist(toks: seq<string>, i: nat): nat {
    if i <= |toks| then |toks| - i else 0
  }

  /** `parse_primary(i)` */
  function ParsePrimary(toks: seq<string>, i: nat, pseudo: set<string>): (r: Result<(Expr, nat), RewriteError>)
    ensures r.Ok? ==> i < |toks| && i < r.value.1
    ensures r.Ok? ==> Flatten(r.value.0) == Window(toks, i, r.value.1)
    ensures r.Ok? ==> WellNested(r.value.0) && TopPrec(r.value.0) == 4
    ensures i >= |toks| ==> r == Err(IndexError)
    decreases Dist(toks, i), 0
  {
    if i >= |toks| then Err(IndexError)
    else if toks[i] == "(" then
      match ParseSubexpr(toks, i + 1, 0, pseudo)
      case Err(e) => Err(e)
      case Ok((inner, next)) =>
        var closer := if next < |toks| then Some(toks[next]) else None;
        WindowGroup(toks, i, next);
        Ok((Group(inner, closer), next + 1))
    else
      match ToCpp(toks[i], pseudo)
      case Err(e) => Err(e)
      case Ok(cpp) =>
        assert Window(toks, i, i + 1) == [toks[i]];
        Ok((Atom(toks[i], cpp), i + 1))
  }

  /** `parse_subexpr(i, min_prec)` */
  function ParseSubexpr(toks: seq<string>, i: nat, minp: nat, pseudo: set<string>): (r: Result<(Expr, nat), RewriteError>)
    ensures r.Ok? ==> i < |toks| && i < r.value.1
    ensures r.Ok? ==> Flatten(r.value.0) == Window(toks, i, r.value.1)
    ensures r.Ok? ==> WellNested(r.value.0) && (r.value.0.Binary? ==> TopPrec(r.value.0) >= minp)
    ensures r.Ok? ==> Stops(toks, r.value.1, minp)
    ensures i >= |toks| ==> r == Err(IndexError)
    decreases Dist(toks, i), 1
  {
    match ParsePrimary(toks, i, pseudo)
    case Err(e) => Err(e)
    case Ok((lhs, next)) =>
      var r := Climb(toks, lhs, next, minp, pseudo);
      if r.Err? then r
      else
        WindowSplit(toks, i, next, r.value.1);
        r
  }

  /** The `while` loop of `parse_subexpr`, folding operators into `lhs`;
      it stops at the first token that is not an operator of at least
      precedence `minp`. */
  function Climb(toks: seq<string>, lhs: Expr, i: nat, minp: nat, pseudo: set<string>): (r: Result<(Expr, nat), RewriteError>)
    requires WellNested(lhs) && (lhs.Binary? ==> TopPrec(lhs) >= minp)
    requires i < |toks| && IsOperator(toks[i]) ==> Prec(toks[i]) <= TopPrec(lhs)
    ensures r.Ok? ==> i <= r.value.1
    ensures r.Ok? ==> Flatten(r.value.0) == Flatten(lhs) + Window(toks, i, r.value.1)
    ensures r.Ok? ==> WellNested(r.value.0) && (r.value.0.Binary? ==> TopPrec(r.value.0) >= minp)
    ensures r.Ok? ==> Stops(toks, r.value.1, minp)
    decreases Dist(toks, i), 3
  {
    if Stops(toks, i, minp) then
      assert Window(toks, i, i) == [];
      Ok((lhs, i))
    else ClimbOperator(toks, lhs, i, minp, pseudo)
  }

  /** One turn of the loop: the operator at `i`, its right operand parsed
      at one precedence level higher, and the loop continued on the result. */
  function ClimbOperator(toks: seq<string>, lhs: Expr, i: nat, minp: nat, pseudo: set<string>): (r: Result<(Expr, nat), RewriteError>)
    requires WellNested(lhs) && (lhs.Binary? ==> TopPrec(lhs) >= minp)
    requires i < |toks| && IsOperator(toks[i]) && minp <= Prec(toks[i]) <= TopPrec(lhs)
    ensures r.Ok? ==> i < r.value.1
    ensures r.Ok? ==> Flatten(r.value.0) == Flatten(lhs) + Window(toks, i, r.value.1)
    ensures r.Ok? ==> WellNested(r.value.0) && (r.value.0.Binary? ==> TopPrec(r.value.0) >= minp)
    ensures r.Ok? ==> Stops(toks, r.value.1, minp)
    decreases Dist(toks, i), 2
  {
    var op := toks[i];
    match ParseSubexpr(toks, i + 1, Prec(op) + 1, pseudo)
    case Err(e) => Err(e)
    case Ok((rhs, next)) =>
      var e := Binary(op, lhs, rhs);
      assert WellNested(e);
      var r := Climb(toks, e, next, minp, pseudo);
      if r.Err? then r
      else
        FlattenClimbed(toks, i, next, r.value.1, Flatten(lhs), Flatten(rhs));
        r
  }

  /** The tokens of `lhs op rhs` followed by those the loop folded in after
      it are the tokens of `lhs` followed by the window from `op` on. */
  lemma FlattenClimbed(toks: seq<string>, i: nat, next: nat, end: nat, a: seq<string>, b: seq<string>)
    requires i < |toks| && i + 1 <= next <= end
    requires b == Window(toks, i + 1, next)
    ensures a + [toks[i]] + b + Window(toks, next, end) == a + Window(toks, i, end)
  {
    WindowCons(toks, i, end);
    WindowSplit(toks, i + 1, next, end);
  }

  // ---------------------------------------------------------------------
  // `rewrite_expr`

  /** `rewrite_expr(expr, pseudo_vars)` as written: `parse_expression`
      returns the whole C++ text, and the trailing `[0]` keeps only its
      first character. */
  function RewriteExpr(expr: string, pseudo: set<string>): (r: Result<string, RewriteError>)
    ensures r.Ok? ==> |r.value| == 1
  {
    match ParseSubexpr(FindAll(expr, 0), 0, 0, pseudo)
    case Err(e) => Err(e)
    case Ok((tree, _)) =>
      var text := Render(tree);
      if text == [] then Err(IndexError) else Ok([text[0]])
  }

  /** `rewrite_expr` without the `[0]`: the whole rewritten expression. */
  function RewriteExprIntended(expr: string, pseudo: set<string>): (r: Result<string, RewriteError>)
    ensures r.Ok? ==> exists tree, next ::
      && ParseSubexpr(FindAll(expr, 0), 0, 0, pseudo) == Ok((tree, next))
      && r.value == Render(tree) && WellNested(tree) && Flatten(tree) == Window(FindAll(expr, 0), 0, next)
  {
    match ParseSubexpr(FindAll(expr, 0), 0, 0, pseudo)
    case Err(e) => Err(e)
    case Ok((tree, _)) => Ok(Render(tree))
  }

  /** As written, a successful rewrite is the first character of the
      intended one. */
  lemma RewriteExprTruncates(expr: string, pseudo: set<string>)
    ensures RewriteExpr(expr, pseudo).Ok? ==>
      RewriteExprIntended(expr, pseudo).Ok? && RewriteExpr(expr, pseudo).value == RewriteExprIntended(expr, pseudo).value[..1]
    ensures RewriteExpr(expr, pseudo).Err? ==> RewriteExprIntended(expr, pseudo).Err? || RewriteExprIntended(expr, pseudo) == Ok("")
  {
  }

  /** An empty expression raises before anything is rendered. */
  lemma EmptyExpressionRaises(pseudo: set<string>)
    ensures RewriteExpr("", pseudo) == Err(IndexError)
    ensures RewriteExprIntended("", pseudo) == Err(IndexError)
  {
  }

  /** A token that is not `(` and carries no sigil is a primary of its own,
      kept as it is. */
  lemma PrimaryPlain(toks: seq<string>, i: nat, pseudo: set<string>)
    requires i < |toks| && toks[i] != "(" && '@' !in toks[i] && '"' !in toks[i]
    ensures ParsePrimary(toks, i, pseudo) == Ok((Atom(toks[i], toks[i]), i + 1))
  {
  }

  /** Every operator groups to the left, `^` included: `2^3^2` is
      `pow(pow(2, 3), 2)`. */
  lemma PowerGroupsLeft(pseudo: set<string>)
    ensures var toks := ["2", "^", "3", "^", "2"];
      ParseSubexpr(toks, 0, 0, pseudo).Ok?
      && Render(ParseSubexpr(toks, 0, 0, pseudo).value.0) == "pow(pow(2, 3), 2)"
  {
    var toks := ["2", "^", "3", "^", "2"];
    PowerParse(toks, pseudo);
    PowerRender();
  }

  lemma PowerParse(toks: seq<string>, pseudo: set<string>)
    requires toks == ["2", "^", "3", "^", "2"]
    ensures var two := Atom("2", "2");
      ParseSubexpr(toks, 0, 0, pseudo) == Ok((Binary("^", Binary("^", two, Atom("3", "3")), two), 5))
  {
    PowerFold(toks, pseudo);
    PrimaryPlain(toks, 0, pseudo);
  }

  lemma PowerRender()
    ensures var two := Atom("2", "2");
      Render(Binary("^", Binary("^", two, Atom("3", "3")), two)) == "pow(pow(2, 3), 2)"
  {
    var two := Atom("2", "2");
    assert Render(Binary("^", two, Atom("3", "3"))) == "pow(2, 3)";
  }

  /** The first `^` of `2^3^2` takes only the `3`; the second then folds
      in the last `2`. */
  lemma PowerFold(toks: seq<string>, pseudo: set<string>)
    requires toks == ["2", "^", "3", "^", "2"]
    ensures var two := Atom("2", "2");
      Climb(toks, two, 1, 0, pseudo) == Ok((Binary("^", Binary("^", two, Atom("3", "3")), two), 5))
  {
    var two, three := Atom("2", "2"), Atom("3", "3");
    var inner := Binary("^", two, three);
    var outer := Binary("^", inner, two);
    PowerOperand(toks, 2, pseudo);
    PowerOperand(toks, 4, pseudo);
    assert Climb(toks, outer, 5, 0, pseudo) == Ok((outer, 5));
    assert ClimbOperator(toks, inner, 3, 0, pseudo) == Ok((outer, 5));
    assert Climb(toks, inner, 3, 0, pseudo) == Ok((outer, 5));
    assert ClimbOperator(toks, two, 1, 0, pseudo) == Ok((outer, 5));
  }

  /** The right operand of a `^` in `2^3^2` is a single number. */
  lemma PowerOperand(toks: seq<string>, i: nat, pseudo: set<string>)
    requires toks == ["2", "^", "3", "^", "2"] && (i == 2 || i == 4)
    ensures ParseSubexpr(toks, i, 4, pseudo) == Ok((Atom(toks[i], toks[i]), i + 1))
  {
    PrimaryPlain(toks, i, pseudo);
    assert Climb(toks, Atom(toks[i], toks[i]), i + 1, 4, pseudo) == Ok((Atom(toks[i], toks[i]), i + 1));
  }

  /** `*` binds tighter than `+`: in `a + b * c` the product is the right
      operand of the sum. */
  lemma ProductBindsTighter(pseudo: set<string>)
    ensures var toks := ["a", "+", "b", "*", "c"];
      ParseSubexpr(toks, 0, 0, pseudo)
      == Ok((Binary("+", Atom("a", "a"), Binary("*", Atom("b", "b"), Atom("c", "c"))), 5))
  {
    var toks := ["a", "+", "b", "*", "c"];
    var a, b, c := Atom("a", "a"), Atom("b", "b"), Atom("c", "c");
    PrimaryPlain(toks, 0, pseudo);
    PrimaryPlain(toks, 2, pseudo);
    PrimaryPlain(toks, 4, pseudo);
    assert ParseSubexpr(toks, 4, 3, pseudo) == Ok((c, 5));
    assert Climb(toks, Binary("*", b, c), 5, 2, pseudo) == Ok((Binary("*", b, c), 5));
    assert Climb(toks, b, 3, 2, pseudo) == Ok((Binary("*", b, c), 5));
    assert ParseSubexpr(toks, 2, 2, pseudo) == Ok((Binary("*", b, c), 5));
  }

  /** The token after a group is skipped whatever it is: in `( a b` the
      `b` is taken as the closer. */
  lemma CloserSkippedUnconditionally(pseudo: set<string>)
    ensures ParsePrimary(["(", "a", "b"], 0, pseudo) == Ok((Group(Atom("a", "a"), Some("b")), 3))
  {
    var toks := ["(", "a", "b"];
    PrimaryPlain(toks, 1, pseudo);
    assert Climb(toks, Atom("a", "a"), 2, 0, pseudo) == Ok((Atom("a", "a"), 2));
  }
}
