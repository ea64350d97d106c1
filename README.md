# Dot to C++ transpilers, modelled in Dafny

The repository holds several prototype transpilers that turn the sigil
language Dot into C++ source text. This project models five of them, each
file on its own terms (their type tables and sigils disagree, and are kept
apart here):

- **`src/lexer.py`**: the position-tracking lexer. An ordered rule table
  (`token_specification`) is joined into one alternation and run with
  `finditer`. `tokenize` drops whitespace, comments and newlines, and gives
  every other match a line and a column. Its last rule, UNKNOWN, catches
  every character, so lexing never fails. Module `PositionLexer`.
- **`archive/dotc.py`**: a regex tokenizer (`DotcLexer`), the expression
  rewriter `rewrite_expr` with its sigil resolution `to_cpp` and precedence
  climbing `parse_subexpr` (`DotcRewrite`), and `emit_cpp` (`DotcEmit`).
  Of `emit_cpp` as written, only the type table and the `Declaration`
  branch with `array_sizes` can be reached: every other node raises
  `NameError` at the undefined name `Dealloc` (line 143). The set-constraint
  check, parameter rendering and the unused-pseudo warnings come after that
  point. They are modelled as functions of their own, to say what they
  would do, but `emit_cpp` as modelled never reaches them.
- **`archive/tokenizer.py`**: a second regex tokenizer (`TokenizerLexer`).
  It also has a token-cursor `Parser` class whose `peek`, `advance` and
  `match` move a `pos` field, and whose `parse` dispatches in a fixed order
  (`TokenizerParser`). Finally there is the node emitter (`TokenizerEmit`).
- **`01_transpiler_training_wheels.py`**: `transpile_dot_line`. It tries a
  fixed sequence of line patterns and keeps three globals (`in_struct`,
  `current_struct`, `struct_fields`), from which it produces a struct's
  constructor and destructor. It is modelled as a class `Transpiler` over a
  pure step function. Module `TrainingWheels`, with the per-line properties
  in `TrainingWheelsLines`.
- **`archive/dot_transpiler_cpp.py`**: four stages. The preprocessor splits
  lines around `;`, `{` and `}` (`DotCppPreprocess`). The struct/set/function
  state machine `parse_dot_program` follows (`DotCppParse`). Next comes the
  ordered per-line dispatch `translate_line` (`DotCppTranslate`). Last is the
  namespace emitter `emit_cpp` (`DotCppEmit`).

Two further modules are shared:
- `Scanning` models `re.finditer` over any rule table, for the three
  tokenizers. The alternation is tried at each position. A match is taken
  and the scan resumes after it; otherwise the scan moves one character on.
- `PyText` models the Python `str` operations the sources use: `strip`,
  `split`, `join`, `replace`, `splitlines`, `isdigit` and `int`, plus
  character classes.

`Wrappers` holds `Option` and `Result`.

Each regular expression is a hand-written recogniser for that one pattern,
with Python `re` semantics:
- of several alternatives, the first that matches wins;
- quantifiers are greedy, and backtrack where the pattern needs it (for
  example `(\w+)_` gives characters back to find its `_`);
- lazy `.*?` takes the shortest text after which the rest matches;
- `re.match` is anchored at the start;
- `finditer` and `findall` pass over characters that no rule matches.

`\w`, `\d` and `str.isdigit` are ASCII. `\s`, `str.isspace` and `strip`
use Python's full whitespace set.

Exceptions that the source raises are modelled as `Err` values of a
`Result`, naming the Python exception. Examples are the `IndexError` of
`[0]` on an empty `findall`, the pseudo-dereference error, the set
constraint, and the `NameError` and `AttributeError` of the dotc emitter.

Behaviour of the code worth recording:
- `rewrite_expr` groups every operator to the left, `^` included, so
  `2^3^2` is `pow(pow(2, 3), 2)` (`DotcRewrite.PowerGroupsLeft`).
- `name"` with an empty index becomes `name[]`, a subscript with nothing
  in it, not a dereference (`DotcRewrite.QuoteSubscriptsOrRefuses`).
- `rewrite_expr` returns only the first character of its result (see
  "## Findings").
- In `src/lexer.py` a STRING token may span newlines, and the line counter
  counts only NEWLINE matches. So a line number is 1 plus the number of
  NEWLINE matches before the token. It equals 1 plus the number of newline
  characters before it when no STRING match before it holds a newline
  (`PositionLexer.LinesCountNewlines`). Once one does, every later token's
  line is too small (`PositionLexer.StringNewlineUndercounts`).
- In `01_transpiler_training_wheels.py` the set-function parameters are
  split on `,`. A piece therefore never ends in the `,` modifier, and every
  parameter written with a trailing `,` is dropped
  (`TrainingWheelsLines.SetParamsDropCommaEnded`).
- In `archive/dot_transpiler_cpp.py` a function's body starts with the `{`
  entry. That entry is translated like any other line, so every emitted
  function body opens with `// [UNTRANSLATED] {`
  (`DotCppEmit.OpenBraceLine`).

## Model

| member | source | states |
|---|---|---|
| PositionLexer.MatchAt | src/lexer.py:18-47 | the alternation of the rule table at a position always matches, with a non-empty match that starts there and stays within the text |
| PyText.FirstLiteral | src/lexer.py:22 | the alternatives of a literal group such as TYPE are tried in their listed order: the length found is that of a listed prefix present at the position, and none is found only when no prefix is present |
| PositionLexer.Scan | src/lexer.py:53 | `finditer`'s matches tile the text from the position to its end, in order, without gaps |
| PositionLexer.ScanElement | src/lexer.py:46-53 | every match of the scan is the rule table's match at its own start |
| PositionLexer.ScanCovers | src/lexer.py:42 | lexing never fails: the texts of the matches spell out the whole input |
| PositionLexer.ChainedCovers | src/lexer.py:53 | matches that tile the text from a position spell out the text from that position |
| PositionLexer.Tokenize | src/lexer.py:49-65 | the tokens are those the loop emits for the scan's matches, and they are in source order |
| PositionLexer.TokenizeMatches | src/lexer.py:53-64 | the loop, with its line counter and line-start offset, emits exactly one token per match that is not WHITESPACE, COMMENT or NEWLINE, with line 1 plus the NEWLINE matches before it and column its offset from the end of the last of them |
| PositionLexer.EmitSnoc | src/lexer.py:55-64 | one more match adds no token for WHITESPACE, COMMENT and NEWLINE and one token with the current line and column otherwise, and only a NEWLINE advances the line counter and the line start |
| PositionLexer.SetTypeIsOneToken | src/lexer.py:22-24 | `set_type` is one SET_TYPE token of eight characters |
| PositionLexer.SetPrefixSplitsIdentifier | src/lexer.py:24 | any other word that opens with `set` starts with a three-character SET token, so `settle` is split |
| PositionLexer.DoubleQuoteMarkIsDeref | src/lexer.py:30-33 | `''` is one DEREF token, not two single-quote pointer tokens |
| PositionLexer.QuoteIsStringFirst | src/lexer.py:27-31 | a `"` opens a STRING up to the next `"` when there is one; only a `"` without a partner is DECL_ASSIGN |
| PositionLexer.UnknownIsCatchAll | src/lexer.py:42 | a character is a one-character UNKNOWN match exactly when it is no newline, blank, word character or character of an earlier rule |
| PositionLexer.CommentStopsAtNewline | src/lexer.py:19 | a comment holds no newline, and the newline after it is matched as NEWLINE on its own |
| PositionLexer.NewlineIsNewline | src/lexer.py:21 | a newline character is always a one-character NEWLINE match |
| PositionLexer.NoNewlineInside | src/lexer.py:18-42 | a match that is neither NEWLINE nor STRING holds no newline |
| PositionLexer.LinesCountNewlines | src/lexer.py:51-60 | when no STRING match among the first `j` holds a newline, the NEWLINE count and the line start after them are the number of newlines before that point and the offset after the last one |
| PositionLexer.StringNewlineUndercounts | src/lexer.py:51-60 | when a STRING match among the first `j` holds a newline, the NEWLINE count after them is smaller than the number of newlines before that point |
| PositionLexer.EmitInOrder | src/lexer.py:53-64 | for any tiling of the text, the emitted tokens have non-decreasing lines and, within a line, strictly increasing columns |
| PositionLexer.TokenizeInOrder | src/lexer.py:53-64 | the tokens of every input are in source order |
| Scanning.FindIter | archive/dotc.py:28 | the scan finds exactly the matches of `finditer`: each is the alternation's match at its start, they are in order, and every position the alternation matches at is covered |
| Scanning.FoundUnique | archive/tokenizer.py:225 | the matches `finditer` finds are determined by the text: two found lists for the same span are equal |
| Scanning.FoundAppend | archive/dotc.py:28 | taking a match at the scan position keeps the found-list invariant, up to the end of that match |
| Scanning.FoundPassOver | archive/dotc.py:28 | passing over a position where no rule matches keeps the found-list invariant |
| Scanning.FoundTail | archive/tokenizer.py:225 | what is found after the first match is the scan from that match's end |
| PyText.KeywordAt | archive/dotc.py:14 | a keyword is found only when it is present and ends on a word boundary, and none is found only when no keyword present is followed by a boundary (the group backtracks into its later alternatives) |
| DotcLexer.TypeAt | archive/dotc.py:13 | a TYPE match is non-empty and lies within the text |
| DotcLexer.NumberEnd | archive/dotc.py:15 | a NUMBER at a digit is non-empty and lies within the text |
| DotcLexer.RuleLength | archive/dotc.py:12-22 | a rule that matches at a position matches a non-empty text within the input |
| DotcLexer.FirstRule | archive/dotc.py:26-27 | the first rule, in listed order, from a given one on that matches decides the match, which starts at the position and is non-empty |
| DotcLexer.MatchAt | archive/dotc.py:26-28 | the alternation's match at a position starts there and is non-empty |
| DotcLexer.Tokenize | archive/dotc.py:24-33 | the tokens are those kept from a match list that `finditer` finds in the code |
| DotcLexer.TokenizeMatches | archive/dotc.py:28-33 | the loop keeps, in order, a token for every match that is not SKIP |
| DotcLexer.EmitKeepsNoSkip | archive/dotc.py:31-32 | no SKIP token is kept, there are no more tokens than matches, and each token is the kind and text of one match |
| DotcLexer.UnmatchedIsPassedOver | archive/dotc.py:12-22 | a character that begins no rule gives no match, so `finditer` passes over it |
| DotcLexer.OperatorsArePassedOver | archive/dotc.py:12-22 | `+ - * / ^ %` give no match and are passed over |
| DotcLexer.HeapIntIsType | archive/dotc.py:13 | `i~` is one two-character TYPE token |
| DotcLexer.ArrayIntIsType | archive/dotc.py:13 | `i_` with all the digits that follow it is one TYPE token, tried before NUMBER and IDENT |
| DotcLexer.KeywordNeedsBoundary | archive/dotc.py:14-16 | a keyword glued to the end of a word is no KEYWORD: the leading `\b` fails |
| DotcLexer.KeywordNeedsEnd | archive/dotc.py:14-16 | `settle` and any longer word is one IDENT: the trailing `\b` fails |
| TokenizerLexer.RuleLength | archive/tokenizer.py:13-24 | a rule that matches at a position matches a non-empty text within the input |
| TokenizerLexer.FirstRule | archive/tokenizer.py:223-224 | the first rule, in listed order, that matches decides the match, which starts at the position and is non-empty |
| TokenizerLexer.Tokenize | archive/tokenizer.py:221-231 | the tokens are those kept, without SKIP, from a match list that `finditer` finds in the code |
| TokenizerLexer.TokenizeDeterministic | archive/tokenizer.py:225-230 | any two match lists `finditer` could find give the same tokens |
| TokenizerLexer.EllipsisBeforeGlyph | archive/tokenizer.py:14 | `...` is one ELLIPSIS, not three GLYPH points |
| TokenizerLexer.LonePointIsGlyph | archive/tokenizer.py:19 | a point that does not open `...` is a one-character GLYPH |
| TokenizerLexer.EqualsPassesFirstSix | archive/tokenizer.py:14-19 | at an `=` none of the first six rules matches |
| TokenizerLexer.DoubleEqualsIsCompare | archive/tokenizer.py:20-21 | `==` is one COMPARE, tried before ASSIGN |
| TokenizerLexer.LoneEqualsIsAssign | archive/tokenizer.py:21 | an `=` not followed by another is an ASSIGN |
| TokenizerLexer.ArrayTypeStopsAtUnderscore | archive/tokenizer.py:15 | `i_` is a two-character TYPE; digits after it are not part of it |
| TokenizerLexer.NoTypeAt | archive/tokenizer.py:15 | no TYPE matches at a character that opens none of its literals |
| TokenizerLexer.NoKeywordAt | archive/tokenizer.py:16 | no KEYWORD matches at a character that opens none of the keywords |
| TokenizerLexer.UnmatchedIsPassedOver | archive/tokenizer.py:221-231 | a character that begins no rule gives no match, so `finditer` passes over it |
| TokenizerLexer.OperatorsArePassedOver | archive/tokenizer.py:13-24 | `+ - * / < > !` give no match and are passed over |
| TokenizerParser.MemberAccessAt | archive/tokenizer.py:153-157 | parsing a member access yields a member-access node and moves the cursor over its three tokens |
| TokenizerParser.MemberAssignmentAt | archive/tokenizer.py:159-166 | parsing a member assignment yields a member-assignment node and moves the cursor five tokens, or six with a trailing END |
| TokenizerParser.DeclarationAt | archive/tokenizer.py:177-183 | a declaration keeps its TYPE token's text as its type and consumes at least two tokens; running out of tokens before the name raises |
| TokenizerParser.AssignmentAt | archive/tokenizer.py:168-175 | an assignment's target is the identifier with its glyph appended, and it consumes at least three tokens |
| TokenizerParser.Step | archive/tokenizer.py:115-131 | every turn of the dispatch loop that does not raise moves the cursor forward by at least one token, so parsing terminates, and any node it builds has an `emit_node` branch |
| TokenizerParser.Parser.constructor | archive/tokenizer.py:95-97 | a new parser holds the tokens with its cursor at 0 |
| TokenizerParser.Parser.Peek | archive/tokenizer.py:99-100 | `peek` gives a token exactly when the cursor is inside the list, and then the token under it |
| TokenizerParser.Parser.Advance | archive/tokenizer.py:102-105 | `advance` gives what `peek` gave and moves the cursor by one in any case |
| TokenizerParser.Parser.Match | archive/tokenizer.py:107-111 | `match` advances, and returns the token, only over a token of the type (and value, when given); otherwise the cursor stays and it returns nothing |
| TokenizerParser.Parser.ParseMemberAccess | archive/tokenizer.py:153-157 | the method builds the node and leaves the cursor where `MemberAccessAt` says |
| TokenizerParser.Parser.ParseMemberAssignment | archive/tokenizer.py:159-166 | the method builds the node and leaves the cursor where `MemberAssignmentAt` says |
| TokenizerParser.Parser.ParseAssignment | archive/tokenizer.py:168-175 | the method builds the node, or raises, as `AssignmentAt` says |
| TokenizerParser.Parser.ParseDeclaration | archive/tokenizer.py:177-183 | the method builds the node, or raises, as `DeclarationAt` says |
| TokenizerParser.Parser.ParseStep | archive/tokenizer.py:116-131 | one turn of the loop appends the node, and moves the cursor, as `Step` says |
| TokenizerParser.Parser.Parse | archive/tokenizer.py:113-132 | the loop returns the nodes `ParseFrom` gives from the cursor on, or the first error |
| TokenizerParser.ParseFromBounded | archive/tokenizer.py:113-132 | a successful parse yields at most as many nodes as there are tokens left |
| TokenizerParser.ParsedNodesHandled | archive/tokenizer.py:113-132 | every node of a successful parse is one of the five classes `emit_node` has a branch for |
| TokenizerParser.UnrecognisedIsSkipped | archive/tokenizer.py:130-131 | a token that is neither TYPE nor IDENT is skipped and yields no node |
| TokenizerParser.NothingToParse | archive/tokenizer.py:113-132 | a list without TYPE and IDENT tokens parses to no nodes |
| TokenizerParser.TrailingTypeRaises | archive/tokenizer.py:177-179 | a TYPE as the last token raises `AttributeError`, because `peek()` is `None` |
| TokenizerParser.MemberAssignmentNeedsValue | archive/tokenizer.py:117-151 | `a.b=` at the end of the list is a member access, not a member assignment, because of the `pos + 4` guard |
| TokenizerParser.MemberAssignmentFirst | archive/tokenizer.py:117-118 | with a value after the `=`, the same tokens are a member assignment, tried before member access |
| TokenizerParser.MemberAccessThenQuoteIsPrint | archive/tokenizer.py:119-123 | a member access followed by a `"` glyph becomes a print of `obj.field`, and the glyph is consumed |
| TokenizerParser.DeclarationSkipsQuote | archive/tokenizer.py:177-183 | `i_ 'x;` declares `x`: the `'` is skipped and the END consumed |
| TokenizerParser.AssignmentKeepsGlyph | archive/tokenizer.py:168-175 | `x" = 5;` is an assignment whose target is `x"` |
| TokenizerParser.NodeRepr | archive/tokenizer.py:32-92 | each node's `__repr__` opens with the name of its class followed by `(` |
| TokenizerParser.ReprNamesClass | archive/tokenizer.py:32-92 | the text before the first `(` of a node's `__repr__` is its class name, so nodes with equal `__repr__`s are of the same class |
| TokenizerEmit.DotTypeToCpp | archive/tokenizer.py:204-208 | known type names map to their C++ names, and a C++ name is never itself a key of the table |
| TokenizerEmit.DotTypeIdempotent | archive/tokenizer.py:204-208 | mapping a type twice is mapping it once |
| TokenizerEmit.DotTypeTableOneToOne | archive/tokenizer.py:204-208 | distinct known type names map to distinct C++ names |
| TokenizerEmit.EmitNode | archive/tokenizer.py:185-197 | every node gives exactly one line; a node of a class without a branch gives `// [UNHANDLED] ` followed by its `__repr__` |
| TokenizerEmit.UnhandledIsComment | archive/tokenizer.py:196-197 | the line of an unhandled node is a C++ line comment |
| TokenizerEmit.ParsedProgramHandled | archive/tokenizer.py:185-219 | every node of a successful parse has an `emit_node` branch, and each gives the line at its own position |
| TokenizerEmit.EmitExpr | archive/tokenizer.py:199-202 | a node's expression is its line with the trailing semicolons removed; any other value is its text |
| TokenizerEmit.EmitCpp | archive/tokenizer.py:210-219 | the text is the four header lines, then each node's lines in order, joined with newlines |
| TokenizerEmit.OneLinePerNode | archive/tokenizer.py:217-218 | there is one line per node, and the `k`-th line is the `k`-th node's |
| TokenizerEmit.AssignmentDropsGlyph | archive/tokenizer.py:187 | an assignment to `x` plus a glyph is emitted as `x = value;` |
| TokenizerEmit.AssignmentExpression | archive/tokenizer.py:187-201 | as an expression, an assignment is its line without the semicolon |
| TokenizerEmit.MemberAccessExpression | archive/tokenizer.py:191-201 | as an expression, a member access is `obj.field` |
| TokenizerEmit.EmptyProgram | archive/tokenizer.py:211-219 | a program without nodes is the header alone, ending in a newline |
| DotcRewrite.TokenLength | archive/dotc.py:81 | a `findall` match at a position is non-empty and lies within the expression |
| DotcRewrite.FindAll | archive/dotc.py:81 | `findall` yields only non-empty tokens, passing over characters that no alternative matches |
| DotcRewrite.AtSuffixDrops | archive/dotc.py:84-86 | `name@` becomes `name` |
| DotcRewrite.AtIndexSubscripts | archive/dotc.py:87-90 | `name@k` with an index that is not parenthesised becomes `name[k]` |
| DotcRewrite.AtGroupSubscripts | archive/dotc.py:87-89 | `name@(k)` becomes `name[k]` |
| DotcRewrite.QuoteSubscriptsOrRefuses | archive/dotc.py:91-95 | `name"k`, with `k` possibly empty, becomes `name[k]` exactly when `name` is not a pseudo parameter, and raises the pseudo-dereference error exactly when it is |
| DotcRewrite.PlainTokenKept | archive/dotc.py:96 | a token without `@` and `"` is kept as it is |
| DotcRewrite.ParsePrimary | archive/dotc.py:101-104 | a primary consumes at least its token, its parse spells out the tokens consumed, it binds tighter than any operator, and running out of tokens raises `IndexError` |
| DotcRewrite.ParseSubexpr | archive/dotc.py:106-115 | the parse spells out exactly the tokens consumed, every operator's left operand binds at least as tightly and its right operand strictly more tightly, the top operator has at least the minimum precedence, and the loop stops only at the end or at a weaker or non-operator token |
| DotcRewrite.Climb | archive/dotc.py:108-114 | the loop folds operators into `lhs` keeping that shape, and stops only where `parse_subexpr` breaks |
| DotcRewrite.ClimbOperator | archive/dotc.py:109-114 | one turn takes the operator and a right operand parsed at one level higher, keeping that shape |
| DotcRewrite.RewriteExpr | archive/dotc.py:77-120 | as written, a successful rewrite is a single character |
| DotcRewrite.RewriteExprIntended | archive/dotc.py:81-118 | without the `[0]`, a successful rewrite is the rendering of a well-nested parse of the `findall` tokens that spells out the tokens it consumed |
| DotcRewrite.RewriteExprTruncates | archive/dotc.py:120 | a successful rewrite as written is the first character of the intended one, and it fails only where the intended one fails or is empty |
| DotcRewrite.EmptyExpressionRaises | archive/dotc.py:102-117 | an empty expression raises `IndexError` |
| DotcRewrite.PrimaryPlain | archive/dotc.py:102-104 | a token that is not `(` and has no sigil is a primary of its own |
| DotcRewrite.PowerGroupsLeft | archive/dotc.py:110-114 | `2^3^2` renders as `pow(pow(2, 3), 2)`: `^` groups to the left |
| DotcRewrite.ProductBindsTighter | archive/dotc.py:98-114 | in `a + b * c` the product is the right operand of the sum |
| DotcRewrite.CloserSkippedUnconditionally | archive/dotc.py:103 | the token after a group is skipped whatever it is: in `( a b` the `b` is taken as the closer |
| DotcEmit.DotTypeToCpp | archive/dotc.py:246-250 | known type names map to their C++ names, and a C++ name is never itself a key of the table |
| DotcEmit.DotTypeIdempotent | archive/dotc.py:246-250 | mapping a type twice is mapping it once |
| DotcEmit.DotTypeTableOneToOne | archive/dotc.py:246-250 | distinct known type names map to distinct C++ names |
| DotcEmit.DeclarationLine | archive/dotc.py:133-141 | a declaration emits a line exactly when its type is an array type or `i~`; any other type raises `AttributeError` |
| DotcEmit.ArrayDeclarationKeepsSize | archive/dotc.py:134-137 | an array declared with size `n` emits `int name[n];` |
| DotcEmit.ArraySizeNormalised | archive/dotc.py:135-137 | `i_007` declares `int a[7];`: `int` drops the leading zeros |
| DotcEmit.NodeLine | archive/dotc.py:132-143 | a node emits a line exactly when it is an array or heap-int declaration |
| DotcEmit.ArraySizesKeepLast | archive/dotc.py:136 | an array's recorded size is the size of its last declaration |
| DotcEmit.ArraySizesOnlyArrays | archive/dotc.py:136 | only names of array declarations are recorded |
| DotcEmit.MainLinesShape | archive/dotc.py:132-143 | emission succeeds exactly when every node emits, and then gives one line per node in order; otherwise it fails with the first node's error |
| DotcEmit.MainLinesErr | archive/dotc.py:132-143 | the first node that raises decides the outcome |
| DotcEmit.EmitCpp | archive/dotc.py:126-238 | on success the text is the fixed prelude, `int main() {`, the lines of the nodes and the closing lines; otherwise the first error; `array_sizes` holds what the nodes before the error recorded |
| DotcEmit.EmptyBodyProgram | archive/dotc.py:69-74 | with the stub parser the body is empty, and every program compiles to the same fixed text |
| DotcEmit.SplitGroupName | archive/dotc.py:187 | the name is the base, `_`, then the dimension, and the base holds no `_` |
| DotcEmit.Violation | archive/dotc.py:189-196 | a parameter type passes exactly when a numeric dimension makes it equal `base_dim` and an empty one makes it start with `base_` |
| DotcEmit.FirstViolationIsFirst | archive/dotc.py:188-196 | no parameter raises exactly when every parameter passes; otherwise the error is that of the first parameter that fails |
| DotcEmit.FirstViolationAppend | archive/dotc.py:188-196 | checking one more parameter raises only if nothing raised before and that parameter fails |
| DotcEmit.FirstViolationPrefix | archive/dotc.py:188-196 | a violation in a prefix is the violation of the whole list |
| DotcEmit.CheckSetConstraint | archive/dotc.py:186-196 | the loops raise exactly the error `SetConstraint` gives: the first failing parameter of the first failing function, in order |
| DotcEmit.CheckParams | archive/dotc.py:189-196 | the inner loop continues the check over one more function's parameters |
| DotcEmit.UnconstrainedGroups | archive/dotc.py:186-194 | a name without `_`, or whose dimension is neither digits nor empty, imposes no check |
| DotcEmit.ConstrainedGroups | archive/dotc.py:186-196 | in `base_N` every parameter type must equal `base_N`, and in `base_` it must start with `base_`, or the check raises |
| DotcEmit.ParamTexts | archive/dotc.py:202-210 | one rendered parameter per parameter, in order |
| DotcEmit.RenderParams | archive/dotc.py:201-211 | the loop renders the parameters joined with `, ` and collects the pseudo parameters |
| DotcEmit.RenderParam | archive/dotc.py:206-210 | one parameter is rendered as `ParamText` gives |
| DotcEmit.ArrayParamKeepsSize | archive/dotc.py:206-208 | `i_N` is passed as `int (&name)[N]` |
| DotcEmit.OtherParamByReference | archive/dotc.py:209-210 | any other type `T` is passed as `C& name`, with `C` the mapped type |
| DotcEmit.PseudoNamesStripped | archive/dotc.py:203-205 | the pseudo parameters are exactly the names that carry `@`, with `@` stripped from both ends |
| DotcEmit.WarningOneToOne | archive/dotc.py:231 | distinct pseudo parameters give distinct warning lines |
| DotcEmit.Unused | archive/dotc.py:226-229 | the unused pseudo parameters are those that no assignment's target or value contains |
| DotcEmit.UnusedPseudoWarnings | archive/dotc.py:221-231 | there is one warning per unused pseudo parameter, and a warning for a name appears exactly when that name is unused |
| DotcEmit.UnmentionedIsWarned | archive/dotc.py:226-231 | a pseudo parameter that no assignment mentions is warned about |
| TrainingWheels.CType | 01_transpiler_training_wheels.py:21-30 | a type's letters map to their C++ type from the table, and any letters not in it map to `int` |
| TrainingWheels.MarkerEnd | 01_transpiler_training_wheels.py:43 | a release marker `'name\` takes at least three characters and ends within the line |
| TrainingWheels.DeclMatch | 01_transpiler_training_wheels.py:46-47 | a declaration has non-empty type letters and a non-empty name |
| TrainingWheels.AssignMatch | 01_transpiler_training_wheels.py:54-55 | an assignment through a pointer has a non-empty target and a non-empty expression |
| TrainingWheels.AssignIndexed | 01_transpiler_training_wheels.py:54 | after the target's `"`, the assignment's target is the word before it |
| TrainingWheels.AssignExpr | 01_transpiler_training_wheels.py:54 | the expression after the `=` is never empty, even where the regex backtracks one blank into it |
| TrainingWheels.CommaAssignMatch | 01_transpiler_training_wheels.py:62-63 | `v = e,` has a non-empty variable and a non-empty value |
| TrainingWheels.HeaderMatch | 01_transpiler_training_wheels.py:66-85 | a header opens with its keyword and has a non-empty name |
| TrainingWheels.TypedName | 01_transpiler_training_wheels.py:73-92 | a typed name has a non-empty name ending within the piece |
| TrainingWheels.SetParamMatch | 01_transpiler_training_wheels.py:73-76 | a set parameter's modifier is `.` or `,` |
| TrainingWheels.DottedEnd | 01_transpiler_training_wheels.py:126 | the dotted path of a call ends within the line |
| TrainingWheels.CallMatch | 01_transpiler_training_wheels.py:126-127 | a call names a non-empty path |
| TrainingWheels.CallArgs | 01_transpiler_training_wheels.py:129 | a call has no more arguments than pieces |
| TrainingWheels.Transpile | 01_transpiler_training_wheels.py:36-132 | only a struct header, or a lone `}` inside a struct, changes the globals |
| TrainingWheels.RenderSetParams | 01_transpiler_training_wheels.py:68-81 | the loop renders, in order, each piece of the `,`-split parameter text that matches, and skips the others |
| TrainingWheels.CollectStructFields | 01_transpiler_training_wheels.py:86-96 | the loop records, in order, the field of each piece of the header that declares one |
| TrainingWheels.Transpiler.constructor | 01_transpiler_training_wheels.py:32-34 | at module load no struct is open, the name is empty and there are no fields |
| TrainingWheels.Transpiler.TranspileDotLine | 01_transpiler_training_wheels.py:36-132 | the method returns the line `Transpile` gives and leaves the globals as it gives them |
| TrainingWheelsLines.TranspileDecl | 01_transpiler_training_wheels.py:46-52 | a line the declaration pattern matches gives the declaration line, the globals unchanged |
| TrainingWheelsLines.TranspileAssign | 01_transpiler_training_wheels.py:54-60 | a line that only the assignment pattern takes gives the assignment line, the globals unchanged |
| TrainingWheelsLines.TranspileCommaAssign | 01_transpiler_training_wheels.py:62-64 | a line that only the `v = e,` pattern takes gives `v = e;` |
| TrainingWheelsLines.TranspileSet | 01_transpiler_training_wheels.py:66-82 | a set header gives `void name(params) {` with the rendered parameters joined with `, ` |
| TrainingWheelsLines.TranspileStruct | 01_transpiler_training_wheels.py:84-97 | a struct header gives `struct Name {`, marks the struct open under its name and resets the fields to those of the header |
| TrainingWheelsLines.TranspileClose | 01_transpiler_training_wheels.py:99-106 | a lone `}` inside a struct gives the struct's close and clears the flag |
| TrainingWheelsLines.TranspileTail | 01_transpiler_training_wheels.py:108-132 | every other line is handled by the later patterns, the globals unchanged |
| TrainingWheelsLines.TailBrace | 01_transpiler_training_wheels.py:108-109 | a `}` followed by release markers gives `}` |
| TrainingWheelsLines.TailWhile | 01_transpiler_training_wheels.py:111-113 | a loop header gives `while(cond) {` with every `"` of the condition written `*` |
| TrainingWheelsLines.TailIf | 01_transpiler_training_wheels.py:115-117 | a branch header gives `if(cond) {` with every `"` of the condition written `*` |
| TrainingWheelsLines.TailPrint | 01_transpiler_training_wheels.py:122-124 | `x"` gives a print of `*x` |
| TrainingWheelsLines.TailCall | 01_transpiler_training_wheels.py:126-130 | a call line gives the rendered call |
| TrainingWheelsLines.TailUnhandled | 01_transpiler_training_wheels.py:132 | a line no pattern takes gives `// [UNHANDLED] ` and the stripped line |
| TrainingWheelsLines.PunctuationFirst | 01_transpiler_training_wheels.py:46-84 | a line that opens with neither a word character nor `'` is no declaration, assignment or header |
| TrainingWheelsLines.BlankAndReleaseLinesVanish | 01_transpiler_training_wheels.py:38-44 | blank lines and lines made only of release markers give the empty string, the globals unchanged |
| TrainingWheelsLines.ReleaseMarkersLine | 01_transpiler_training_wheels.py:43-44 | `'a\ 'b\` gives the empty string, for names of any length |
| TrainingWheelsLines.BraceWithMarkersKeepsState | 01_transpiler_training_wheels.py:99-109 | `} 'a\` gives `}` and leaves the globals as they are, inside a struct or not |
| TrainingWheelsLines.DeclarationLine | 01_transpiler_training_wheels.py:46-52 | `t_N 'name` with digits gives `ctype name[N];`, without digits `ctype* name = new ctype;`, for any blanks before the name, with or without the `'`, and whether the name ends the line or any non-word character follows it |
| TrainingWheelsLines.PointerAssignment | 01_transpiler_training_wheels.py:54-60 | `v"k = e;` gives `v[k] = e;` and `v" = e;` gives `*v = e;`, for any blanks around the `=`, with every `"` of `e` written `*` |
| TrainingWheelsLines.CommaAssignment | 01_transpiler_training_wheels.py:62-64 | `v = e,` gives `v = e;`, for any blanks around the `=` |
| TrainingWheelsLines.StructHeaderOpens | 01_transpiler_training_wheels.py:84-97 | `struct Name(params) {` gives `struct Name {`, opens the struct under `Name` and records the fields of the parameter pieces, for any blanks after the keyword and parameters up to the first `)` that blanks and `{` follow |
| TrainingWheelsLines.SetHeaderLine | 01_transpiler_training_wheels.py:66-82 | `set name(params) {` gives `void name(...) {` with the kept pieces rendered in order, for any blanks after the keyword and parameters up to the first `)` that blanks and `{` follow |
| TrainingWheelsLines.BraceClosesStruct | 01_transpiler_training_wheels.py:99-120 | a lone `}` inside a struct closes it, keeping its name and fields; outside one it gives `}` and changes nothing |
| TrainingWheelsLines.HeaderThenClose | 01_transpiler_training_wheels.py:84-106 | any struct header followed by `}` closes the struct with exactly the fields the header declared |
| TrainingWheelsLines.CloseOneField | 01_transpiler_training_wheels.py:101-106 | the close of a one-field struct is the pointer member, a constructor that allocates the field and stores zero in it, a destructor that deletes it, and `};` |
| TrainingWheelsLines.SetParamPiece | 01_transpiler_training_wheels.py:69-76 | a piece of the `,` split that is kept ends its name with `.`, and a piece without `.` is dropped |
| TrainingWheelsLines.SetParamsDropCommaEnded | 01_transpiler_training_wheels.py:69-76 | in every set header, each piece without a `.` is dropped, so a parameter written with `,` after it never renders |
| TrainingWheelsLines.SetParamRendering | 01_transpiler_training_wheels.py:73-81 | `t_ 'name.` renders as `ctype* name`, and without `'` as `ctype name`, for any blanks after the `_`; the modifier makes no difference |
| TrainingWheelsLines.FieldRendering | 01_transpiler_training_wheels.py:92-96 | a field piece `t_ 'name` records the C++ type of `t` and the name, for any blanks after the `_` and with or without the `'` |
| TrainingWheelsLines.StructFieldsInOrder | 01_transpiler_training_wheels.py:88-96 | when every piece declares a field, the fields are the pieces' fields, one each, in order |
| TrainingWheelsLines.SetParamsInOrder | 01_transpiler_training_wheels.py:69-81 | when every piece renders, the parameters are the pieces' renderings, one each, in order |
| TrainingWheelsLines.PrintLine | 01_transpiler_training_wheels.py:122-124 | `x"` gives `std::cout << *x << std::endl;` |
| TrainingWheelsLines.WhileLine | 01_transpiler_training_wheels.py:111-113 | `while(c,)` gives `while(c) {` with every `"` written `*`, the condition running up to the first `,)` |
| TrainingWheelsLines.IfLine | 01_transpiler_training_wheels.py:115-117 | `if(c)` gives `if(c) {` with every `"` written `*` |
| TrainingWheelsLines.MethodCallLine | 01_transpiler_training_wheels.py:126-130 | a call through any dotted path or plain name other than `if` and `while` gives the path with every `.` written `_`, and the arguments, up to the first `);`, split on `;` and joined with `, ` |
| TrainingWheelsLines.CallArgsClean | 01_transpiler_training_wheels.py:129 | no argument of a call keeps a `'` or a `:` |
| TrainingWheelsLines.QuoteArgument | 01_transpiler_training_wheels.py:129 | `'x` is passed as `&x` |
| TrainingWheelsLines.ColonArgument | 01_transpiler_training_wheels.py:129 | `x:` is passed as `x` |
| TrainingWheelsLines.StructInstanceUnhandled | 01_transpiler_training_wheels.py:132 | an instance declaration `T 'v;` matches no pattern and gives `// [UNHANDLED] T 'v;` |
| DotCppPreprocess.DropEscapedNewlines | archive/dot_transpiler_cpp.py:39 | the first replacement never lengthens the text |
| DotCppPreprocess.LineBreaks | archive/dot_transpiler_cpp.py:39-40 | after both replacements no backslash is left |
| DotCppPreprocess.EscapedNewlineIsOneBreak | archive/dot_transpiler_cpp.py:39-40 | a backslash followed by a newline becomes one line break, not two |
| DotCppPreprocess.BackslashIsBreak | archive/dot_transpiler_cpp.py:40 | any other backslash becomes a line break |
| DotCppPreprocess.NoBackslashNoChange | archive/dot_transpiler_cpp.py:39-40 | a text without backslashes is unchanged by both replacements |
| DotCppPreprocess.SplitTokens | archive/dot_transpiler_cpp.py:44 | `re.split` gives at least one token, each either free of separators or a single separator |
| DotCppPreprocess.SplitTokensAt | archive/dot_transpiler_cpp.py:44 | splitting at a separator gives the tokens before it, the separator, and the tokens after it |
| DotCppPreprocess.SplitTokensLack | archive/dot_transpiler_cpp.py:44 | a character missing from the line is missing from every token |
| DotCppPreprocess.SeparateCons | archive/dot_transpiler_cpp.py:46-58 | the loop over tokens is one pass on the first token followed by the loop over the rest |
| DotCppPreprocess.PreprocessCode | archive/dot_transpiler_cpp.py:38-59 | the loops produce the entries `Preprocess` gives: those of every physical line, in order |
| DotCppPreprocess.SeparateLine | archive/dot_transpiler_cpp.py:44-58 | the loop over one line's tokens, with its buffer, appends that line's entries |
| DotCppPreprocess.SeparateGood | archive/dot_transpiler_cpp.py:46-58 | every entry the loop appends is non-empty, holds no `;` and no newline, and is a brace on its own or holds no brace |
| DotCppPreprocess.LineEntriesGood | archive/dot_transpiler_cpp.py:43-58 | the entries of a line have that shape and bring in no character but the blank that the line lacks |
| DotCppPreprocess.PreprocessEntriesGood | archive/dot_transpiler_cpp.py:38-59 | no entry is empty, none holds `;`, a newline or a backslash, and each is a brace on its own or holds no brace |
| DotCppPreprocess.GluedJoin | archive/dot_transpiler_cpp.py:56 | gluing words to a non-empty buffer puts single blanks between them |
| DotCppPreprocess.JoinStripped | archive/dot_transpiler_cpp.py:56-58 | words joined by single blanks have no blank at either end |
| DotCppPreprocess.LineWithoutBraces | archive/dot_transpiler_cpp.py:44-58 | a line without braces is one entry, its `;`-separated pieces stripped and joined by single blanks, or no entry if nothing but blanks and `;` |
| DotCppPreprocess.BraceStandsAlone | archive/dot_transpiler_cpp.py:50-54 | a brace is an entry of its own: the text before it is one entry, and the text after it is split the same way |
| DotCppTranslate.DotTypeToCpp | archive/dot_transpiler_cpp.py:118-120 | known letters map to their C++ names; any other name is kept |
| DotCppTranslate.DotTypeIdempotent | archive/dot_transpiler_cpp.py:118-120 | mapping a type twice is mapping it once |
| DotCppTranslate.DotTypeTableOneToOne | archive/dot_transpiler_cpp.py:118-120 | distinct known letters map to distinct C++ names |
| DotCppTranslate.BackUnderscore | archive/dot_transpiler_cpp.py:123-142 | `(\w+)_` ends its group at a `_` inside the greedy word run, after which the rest of the pattern matches |
| DotCppTranslate.BackUnderscoreNone | archive/dot_transpiler_cpp.py:123 | the match fails when the rest fails after every `_` of the word run |
| DotCppTranslate.BackUnderscoreLast | archive/dot_transpiler_cpp.py:123 | the match takes the last `_` of the run when the rest matches after it |
| DotCppTranslate.ValueFrom | archive/dot_transpiler_cpp.py:123-139 | `\s*(.+)` captures a non-empty value without newlines |
| DotCppTranslate.ValueStart | archive/dot_transpiler_cpp.py:123 | the backtracking of `\s*` starts the value at a position within range where `.` matches |
| DotCppTranslate.InitName | archive/dot_transpiler_cpp.py:123 | the name of the first pattern is a non-empty span inside the line |
| DotCppTranslate.InitMatch | archive/dot_transpiler_cpp.py:123-127 | an initialised variable is on the heap exactly when the line holds a `'` anywhere |
| DotCppTranslate.AllocMatch | archive/dot_transpiler_cpp.py:128-130 | the second pattern gives an allocation |
| DotCppTranslate.PrintFieldMatch | archive/dot_transpiler_cpp.py:131-133 | the third pattern gives a field print |
| DotCppTranslate.PrintValueMatch | archive/dot_transpiler_cpp.py:134-136 | the fourth pattern gives a value print |
| DotCppTranslate.DeleteMatch | archive/dot_transpiler_cpp.py:137-138 | the fifth pattern gives a delete |
| DotCppTranslate.Dotted | archive/dot_transpiler_cpp.py:139-146 | `(\w+)\.(\w+)` puts the point right after the first word run, with a non-empty word after it |
| DotCppTranslate.FieldAssignMatch | archive/dot_transpiler_cpp.py:139-141 | the sixth pattern gives a field store |
| DotCppTranslate.ConstructMatch | archive/dot_transpiler_cpp.py:142-145 | the seventh pattern gives a constructor call |
| DotCppTranslate.SetCallMatch | archive/dot_transpiler_cpp.py:146-149 | the eighth pattern gives a set call |
| DotCppTranslate.TranslateUntranslated | archive/dot_transpiler_cpp.py:150 | a line that starts with neither a word character nor `'` is kept behind `// [UNTRANSLATED] ` |
| DotCppTranslate.TranslateDelete | archive/dot_transpiler_cpp.py:137-138 | `'x`, for a word `x`, becomes `delete x;` |
| DotCppTranslate.InitNone | archive/dot_transpiler_cpp.py:123 | after a first word that the pattern cannot continue, the first pattern fails at every `_` of it |
| DotCppTranslate.ConstructNone | archive/dot_transpiler_cpp.py:142 | the constructor pattern fails when no blank or `'` follows the first word |
| DotCppTranslate.TranslateSetCall | archive/dot_transpiler_cpp.py:146-149 | `s.f(args)` becomes `s::f(...)` with the arguments, `'` written `&` |
| DotCppTranslate.SetCallFirst | archive/dot_transpiler_cpp.py:123-145 | no earlier pattern takes a set call |
| DotCppTranslate.TranslateConstruct | archive/dot_transpiler_cpp.py:142-145 | `T_ 'v(args)` becomes `T v(...)`, the type name not translated |
| DotCppTranslate.ConstructFirst | archive/dot_transpiler_cpp.py:123-141 | no earlier pattern takes a constructor call |
| DotCppTranslate.TranslatePrintValue | archive/dot_transpiler_cpp.py:134-136 | `v"` becomes `cout << *v << endl;` |
| DotCppTranslate.TranslatePrintField | archive/dot_transpiler_cpp.py:131-133 | `o"f` becomes `cout << *(o.f) << endl;` |
| DotCppTranslate.TranslateAlloc | archive/dot_transpiler_cpp.py:128-130 | `T~ 'n` becomes `C* n = new C;` with `C` the mapped type |
| DotCppTranslate.TranslateFieldAssign | archive/dot_transpiler_cpp.py:139-141 | `o.f" = v` becomes `*(o.f) = v;` |
| DotCppTranslate.TranslateInit | archive/dot_transpiler_cpp.py:123-127 | `T_ 'n = v` becomes `C* n = new C(v);` when the line holds a `'`, and `C n = v;` otherwise |
| DotCppTranslate.CallArgsClean | archive/dot_transpiler_cpp.py:144-148 | every argument is non-empty and holds no `'` and no comma |
| DotCppTranslate.AddressArgument | archive/dot_transpiler_cpp.py:148 | blanks then `'x` pass `&x` |
| DotCppTranslate.TwoAddressArguments | archive/dot_transpiler_cpp.py:148 | `'x, 'y` passes `&x` and `&y`, in order |
| DotCppParse.Upsert | archive/dot_transpiler_cpp.py:80 | storing a struct puts it in the dictionary; the dictionary keeps its size (an existing name) or gains exactly that struct at the end (a new name) |
| DotCppParse.Lookup | archive/dot_transpiler_cpp.py:80 | a struct found under a name is in the dictionary and carries that name |
| DotCppParse.UpsertLookup | archive/dot_transpiler_cpp.py:80 | after storing a struct its name finds it, and every other name finds what it found before |
| DotCppParse.StructNameFrom | archive/dot_transpiler_cpp.py:73 | the name taken from the first `struct_(\w+)` match is never empty |
| DotCppParse.SetAt | archive/dot_transpiler_cpp.py:92 | a `set_\w+\s+(\w+)` match found at a position lies after it and within the entry |
| DotCppParse.SetNameFrom | archive/dot_transpiler_cpp.py:92 | the set name taken from the first match is never empty |
| DotCppParse.FieldMatch | archive/dot_transpiler_cpp.py:83-86 | a field entry gives a non-empty type and a non-empty name |
| DotCppParse.HeaderMatch | archive/dot_transpiler_cpp.py:96-97 | a function header gives a non-empty name |
| DotCppParse.ParseNext | archive/dot_transpiler_cpp.py:71 | the state after one more entry is one pass of the loop body on the state before it |
| DotCppParse.ErrSticks | archive/dot_transpiler_cpp.py:73-92 | once an entry raised, the parse stays failed with that error |
| DotCppParse.StepField | archive/dot_transpiler_cpp.py:78-89 | an entry inside an open struct other than `)` adds a field exactly when it declares one |
| DotCppParse.FieldNext | archive/dot_transpiler_cpp.py:78-89 | the same, for the state after that entry |
| DotCppParse.CollectKept | archive/dot_transpiler_cpp.py:83-88 | collecting entries into a struct keeps the fields they declare, in order, and drops the rest |
| DotCppParse.StructCollects | archive/dot_transpiler_cpp.py:72-89 | after `struct_Name` the open struct holds the fields declared by the entries so far |
| DotCppParse.StructOpens | archive/dot_transpiler_cpp.py:72-76 | a `struct_Name` entry opens an empty struct `Name` |
| DotCppParse.CollectLast | archive/dot_transpiler_cpp.py:83-86 | collecting one more entry adds its field, if any, at the end |
| DotCppParse.StructBlock | archive/dot_transpiler_cpp.py:72-89 | the entries between `struct_Name` and `)` that match `t_ [*] name` become the fields of `Name`, in order, and the struct is stored under `Name` when `)` arrives, leaving no struct open |
| DotCppParse.SetStep | archive/dot_transpiler_cpp.py:91-94 | the current set changes only at a set entry outside a struct, to the name it gives, which is also appended to the sets |
| DotCppParse.SetNeverReset | archive/dot_transpiler_cpp.py:69-94 | once a set is current, some set stays current for every later entry |
| DotCppParse.StepBody | archive/dot_transpiler_cpp.py:104-110 | a plain entry inside an open function that is not `}` joins its body |
| DotCppParse.BodyNext | archive/dot_transpiler_cpp.py:104-110 | the same, for the state after that entry |
| DotCppParse.StepHeader | archive/dot_transpiler_cpp.py:96-102 | a header directly followed by `{` opens a function with an empty body, the current set, and the argument text split on commas |
| DotCppParse.FunctionCollects | archive/dot_transpiler_cpp.py:96-110 | after a header the open function holds every entry so far |
| DotCppParse.BraceIsPlain | archive/dot_transpiler_cpp.py:72-96 | the entry `{` is none of the three openers and is not `}` |
| DotCppParse.FunctionBlock | archive/dot_transpiler_cpp.py:96-110 | a header `f(args)` followed by `{` becomes a function of the current set whose body is every entry up to the closing `}`, the `{` first; at the `}` it is appended to the functions |
| DotCppParse.BraceClosesFunction | archive/dot_transpiler_cpp.py:105-107 | `}` inside an open function appends it to the functions and closes it |
| DotCppParse.StepLine | archive/dot_transpiler_cpp.py:112 | a plain entry outside any struct or function is appended to the top-level lines |
| DotCppParse.LineNext | archive/dot_transpiler_cpp.py:112 | the same, for the state after that entry |
| DotCppParse.TopLevelLines | archive/dot_transpiler_cpp.py:112 | a run of plain entries outside any struct or function is appended to the top-level lines in order |
| DotCppParse.StructOpenNext | archive/dot_transpiler_cpp.py:72-76 | the state after `struct_Name` has the empty struct `Name` open |
| DotCppParse.NameFails | archive/dot_transpiler_cpp.py:73-92 | a `struct_` or `set_` entry without a name raises IndexError and the whole parse ends with it |
| DotCppParse.StructCloseNext | archive/dot_transpiler_cpp.py:79-81 | `)` inside a struct stores it under its name and closes it |
| DotCppParse.SetNext | archive/dot_transpiler_cpp.py:91-94 | a set entry outside a struct makes its name current and appends it to the sets |
| DotCppParse.HeaderNext | archive/dot_transpiler_cpp.py:96-102 | the state after a header followed by `{` has that function open |
| DotCppParse.FunctionCloseNext | archive/dot_transpiler_cpp.py:105-107 | the state after `}` has the function appended and none open |
| DotCppParse.ParseLines | archive/dot_transpiler_cpp.py:65-114 | the loop with its flags and values computes the same program or error as the entry-by-entry reference |
| DotCppParse.ParseDotProgram | archive/dot_transpiler_cpp.py:61-114 | preprocessing followed by the loop gives the reference parse of the code |
| DotCppEmit.BlocksNext | archive/dot_transpiler_cpp.py:157-168 | the blocks of one more item are the blocks so far followed by that item's block |
| DotCppEmit.BlocksOne | archive/dot_transpiler_cpp.py:157 | the blocks of one item are its block |
| DotCppEmit.BlocksAppend | archive/dot_transpiler_cpp.py:157-168 | the blocks of two runs of items are the first run's followed by the second's |
| DotCppEmit.BlocksSplit | archive/dot_transpiler_cpp.py:170-171 | the blocks of a sequence hold the block of each item between those of the items before and after it |
| DotCppEmit.BlocksWithoutEmpty | archive/dot_transpiler_cpp.py:171 | an item with an empty block can be removed without changing the output |
| DotCppEmit.EmitStruct | archive/dot_transpiler_cpp.py:158-166 | the loop builds exactly the struct's block |
| DotCppEmit.EmitParams | archive/dot_transpiler_cpp.py:172-178 | the loop keeps the declaration of every argument that matches, in order |
| DotCppEmit.EmitFunction | archive/dot_transpiler_cpp.py:179-182 | the loop builds exactly the function's block |
| DotCppEmit.EmitNamespace | archive/dot_transpiler_cpp.py:169-183 | the loop builds exactly the namespace of a set |
| DotCppEmit.EmitStructs | archive/dot_transpiler_cpp.py:157-166 | the loop builds the blocks of all structs in the dictionary's order |
| DotCppEmit.EmitSets | archive/dot_transpiler_cpp.py:168-183 | the loop builds the namespaces of all sets in order |
| DotCppEmit.EmitWith | archive/dot_transpiler_cpp.py:154-188 | the output is the newline-joined prelude, structs, namespaces and translated lines |
| DotCppEmit.EmitProgram | archive/dot_transpiler_cpp.py:154-188 | `emit_cpp` with the line translator |
| DotCppEmit.StructShape | archive/dot_transpiler_cpp.py:158-166 | a struct's block is `struct Name {`, one pointer member per field in order, the constructor taking `T* _n` per field, its initialiser list `n(_n)` per field, an empty destructor and `};` |
| DotCppEmit.BodyLinesIndex | archive/dot_transpiler_cpp.py:180-181 | each body entry gives one indented translated line, in order |
| DotCppEmit.FunctionShape | archive/dot_transpiler_cpp.py:179-182 | a function's block is its `void name(args) {` header, one indented translated line per body entry and `}` |
| DotCppEmit.OpenBraceLine | archive/dot_transpiler_cpp.py:180-181 | the `{` kept as a function's first body entry comes out as an untranslated comment line |
| DotCppEmit.ArgDeclBlank | archive/dot_transpiler_cpp.py:174 | a blank argument declares nothing |
| DotCppEmit.ArgDeclPointer | archive/dot_transpiler_cpp.py:175-178 | an argument `t_*n` declares `T* n` with `t` mapped to its C++ type |
| DotCppEmit.ArgMatchPointer | archive/dot_transpiler_cpp.py:175 | the argument pattern splits `t_*n` into `t` and `n` |
| DotCppEmit.FunctionInNamespace | archive/dot_transpiler_cpp.py:170-182 | a function of a set appears as one block in that set's namespace, between the blocks of the functions before and after it |
| DotCppEmit.NamespaceWithout | archive/dot_transpiler_cpp.py:171 | removing a function of another set leaves a namespace unchanged |
| DotCppEmit.NamespacesWithout | archive/dot_transpiler_cpp.py:168-183 | a function of no listed set contributes nothing to the namespaces |
| DotCppEmit.UnsetFunctionNotEmitted | archive/dot_transpiler_cpp.py:168-183 | a function without a set, or whose set is not listed, is absent from the output: the output equals that of the program without it |
| DotCppEmit.FunctionEmitted | archive/dot_transpiler_cpp.py:168-183 | a function of a listed set is emitted as one block inside that set's namespace, which is part of the output |
| DotCppEmit.NamespaceInOutput | archive/dot_transpiler_cpp.py:168-183 | every listed set's namespace is part of the output |
| DotCppEmit.StructEmitted | archive/dot_transpiler_cpp.py:157-166 | every struct's block is part of the output |
| DotCppEmit.LineTextsIndex | archive/dot_transpiler_cpp.py:185-186 | each top-level entry gives one translated line, in order |
| DotCppEmit.TopLevelTail | archive/dot_transpiler_cpp.py:185-186 | the output ends with the top-level entries, each translated, in order |
| DotCppEmit.PreludeFirst | archive/dot_transpiler_cpp.py:155 | the output starts with the two includes and `using namespace std;` |

## Left out

- Command line and file I/O of `archive/dotc.py` (lines 253-272: `sys.argv`, `open`, `print`): outside the transformation.
- The demo code that each module runs when imported and that prints (`archive/tokenizer.py:237-256`, `archive/dot_transpiler_cpp.py:191-216`, `01_transpiler_training_wheels.py:136-150`, `src/lexer.py:67-77`): it only feeds sample text to the modelled functions.
- The `__repr__` methods of the token classes (`src/lexer.py:14`, `archive/tokenizer.py:10`, `archive/dotc.py:9`): debug formatting only. The node `__repr__`s of `archive/tokenizer.py` are modelled by `TokenizerParser.NodeRepr`, because the else branch of `emit_node` prints them; the model states that each opens with its class name, not the exact layout of the fields after it.
- A general regular-expression engine: each pattern the sources use is a recogniser of its own.
- The `Parser` of `archive/dotc.py` (lines 56-74) is a stub whose `parse` returns `[]`. It is modelled only as the empty body that `emit_cpp` then receives (`DotcEmit.EmptyBodyProgram`).
- The branches of the dotc `emit_cpp` after line 143 are unreachable: the undefined name `Dealloc` raises `NameError` for every node that is not a declaration, and the model stops with that error there.
- The dotc `array_sizes` dictionary is returned by `DotcEmit.EmitCpp` as the source records it. Nothing in the source reads it, so no property is stated about its use.
- `DotProgram.variables` and the `DotVariable` record of `archive/dot_transpiler_cpp.py` (lines 21-32) are never written by the source and are not modelled.
- Unicode: `\w`, `\d` and `isdigit` are ASCII. Non-ASCII letters and digits, which Python's `re` also counts, are not modelled.
- Object identity in `archive/dot_transpiler_cpp.py`: the parser builds `DotStruct` and `DotFunction` objects and mutates them in place. The model works on values, which gives the same final program because no object is shared between two entries. `program.structs` is a dictionary; the model keeps it as a sequence in insertion order, in which storing an existing name replaces that entry in place (`DotCppParse.Upsert`).
- The `'\n'` separator case in `preprocess_code` cannot arise, because `splitlines` has already removed every line break. The model keeps the case in its token splitter, and no property depends on it.
- The line translator is a parameter of `DotCppEmit.EmittedWith`. The structure lemmas hold for any translator, and `DotCppEmit.EmitCpp` fixes it to `translate_line`.
- DotcEmit.UnusedPseudoWarnings: the source iterates over a Python set, whose order is unspecified. The model takes the names in the order of an arbitrary enumeration of the set, and states only that each unused name gets exactly one warning.
- TrainingWheelsLines.CloseOneField: the struct close is defined for any number of fields by `MemberLines`, `ConstructorEntries` and `DestructorEntries` (one entry per field, in order). The full text is spelled out only for a one-field struct.
- TrainingWheels.CallArgs: states only the bound on the number of arguments. The clean-up of each argument is stated by `TrainingWheelsLines.CallArgsClean` and `TrainingWheelsLines.MethodCallLine`.
- The full texts of exception messages: an error is the Python exception it models, with the offending names where the source's message carries them.

## Findings

| source | as written | input that shows it | evidently intended | confidence | as-written member | corrected member |
|---|---|---|---|---|---|---|
| archive/dotc.py:120 | `parse_expression` already returns the rewritten string, so the trailing `[0]` keeps only its first character | `a + b` is rewritten to `a` instead of `a + b` | return the whole rewritten expression | not executed | DotcRewrite.RewriteExpr (with DotcRewrite.RewriteExprTruncates) | DotcRewrite.RewriteExprIntended |
