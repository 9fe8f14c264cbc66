# Polaris interpreter core in Dafny

Polaris is a small Forth-like language. Its interpreter, `polaris.c`, scans
a source text once from left to right. A parenthesised block at depth 0 and
a quoted text are pushed as values. Every other token is handed to
`eval_reserved_word`, which runs it as a word, as a shorthand (`>name`,
`@name`, `name%`), as a number literal, or pushes it as plain text. All
words work on one global value stack and one global variable store, and
`eval`, `if`, `while` and `name%` go back into the scan with a value as
source text.

The model has two layers.

- Module `Semantics` (semantics.dfy): the interpreter as pure functions
  over an explicit `State`. The state holds the stack (top at the end),
  the variables, standard output, unread standard input and the number of
  random draws. Every word and the scan are functions returning a `Run` (a
  state and an `Outcome`: `Ok`, `Halt` for `exit`, `Fatal(msg)` for a call
  of `error`, `OutOfFuel`).
- Module `Interpreter` (interpreter.dfy): the C program's form. Class
  `Polaris` has the stack, the variables, output and input as fields that
  its methods change in place. The helpers of the C code are methods with
  loops in modules `Text` (text.dfy) and `Numbers` (numbers.dfy). Every
  method is proved to compute its `Semantics` function: `Run(Snapshot(), r)
  == Spec(old(Snapshot()), ...)`.

The properties are proved about the functions:

- properties.dfy: pushing, popping, the variable store, the stack words and
  textual truth;
- scanning.dfy: what the scan does with blocks, quoted texts and comments,
  and the precedence of `eval_reserved_word`;
- invariants.dfy: facts about every run. No value on the stack ever holds a
  line break, output is only appended to, and `exit` ends only the scan it
  occurs in.

Floating point, `rand()` and the C library's number formatting are
parameters: a `Host` value supplies the text that `sprintf("%f", ...)`
would produce. The model applies `num_to_str`'s stripping to that text and
pushes the result; where the C arithmetic itself fails (see `%` under
"## Left out") the model still pushes the host's text. Standard input is the `stdin` field, read the
way `fgets` reads it. Nested evaluation carries a `fuel` counter, so every
function terminates. When it runs out the outcome is `OutOfFuel`.

Where the code and the language's description differ, the model follows
the code:

- `exit` stops only the scan that reads it. `eval`, `if`, `while` and
  `name%` ignore the result of the nested scan (polaris.c:736, 759-764,
  777-781, 855), so `exit` does not unwind the enclosing evaluations.
- A backslash before `"` is stepped over as a pair everywhere: outside
  quotes, inside blocks and inside comments (polaris.c:241).

## Model

| member | source | states |
|---|---|---|
| Text.At | polaris.c:228-229 | reading position `i` of a NUL-terminated buffer gives the character there, or NUL at and past the end |
| Text.CText | polaris.c:219 | the text C's string functions see is the prefix before the first NUL; it holds no NUL, and it is the whole buffer when the buffer has none |
| Text.Normalize | polaris.c:985-995 | `copy_substr`'s output holds no '\r' and no '\n' and is no longer than its input |
| Text.NormalizeKeepsClean | polaris.c:985-995 | text without line breaks is copied unchanged |
| Text.NormalizeIdempotent | polaris.c:985-995 | normalising twice is normalising once |
| Text.TrimFrom | polaris.c:1000-1006 | the first trim loop stops at the first non-space of the span, or at its end, and skips only spaces |
| Text.TrimTo | polaris.c:1007-1013 | the second trim loop stops after the last non-space, never below the start, and drops only spaces |
| Text.Trimmed | polaris.c:997-1014 | a trimmed text has no space at either end and is a piece of the text after its leading spaces |
| Text.TrimmedIdempotent | polaris.c:997-1014 | trimming a trimmed text changes nothing |
| Text.TrimmedSpan | polaris.c:997-1014 | the two trim loops on `s[lo..hi]` select exactly the trimmed text of that span |
| Text.TrimStart | polaris.c:1000-1006 | the loop that advances `from` past spaces computes TrimFrom |
| Text.TrimEnd | polaris.c:1007-1013 | the loop that pulls `to` back past spaces computes TrimTo |
| Text.TrimToAsWrittenAgrees | polaris.c:1007-1013 | the second trim loop as written, with its `size_t` index, agrees with TrimTo when the span does not start at 0 or its start is not a space |
| Text.StackPushTrimAsWritten | polaris.c:1007-1013 | after the first loop, the second one reads outside the buffer exactly when the span ends at 0, and otherwise computes TrimTo |
| Text.CopySubstr | polaris.c:985-995 | `copy_substr` of `s[lo..hi]` is the span with '\r' dropped and '\n' made a space |
| Text.CompSubstr | polaris.c:942-953 | `comp_substr` holds exactly when the span has the word's length and spells it character by character, NUL included |
| Text.CompSubstrInside | polaris.c:942-953 | inside the buffer, `comp_substr` is equality of the span with the word |
| Text.SpanIsChar | polaris.c:832-848 | comparing a one-character span is testing the character there, also at the terminator |
| Text.CompChar | polaris.c:832-848 | `comp_substr` against a single character holds exactly when that character is at the position |
| Text.StrLessIrreflexive | polaris.c:637 | `strcmp(a, a) < 0` never holds |
| Text.StrLessTrichotomy | polaris.c:626-708 | `strcmp` orders texts totally: exactly one of less, equal and greater |
| Text.StrLessTransitive | polaris.c:626-708 | the `strcmp` order is transitive |
| Text.Unescape | polaris.c:353-384 | `print` writes no more characters than the value has, and a value without a backslash as it is |
| Text.DecodeEscapes | polaris.c:353-384 | the loop of `print` writes Unescape of the value: each escape pair as its character, everything else as it is |
| Text.EscapeCode | polaris.c:354-380 | every character in `print`'s table (the seven control characters, '\\' and '"') has an escape pair that `print` decodes back to it |
| Text.UnescapeEscape | polaris.c:353-384 | `print` decodes every text back from an escaped form of it: Unescape undoes Escape, a reference encoder that writes each character of `print`'s table as its pair |
| Numbers.LeadingDigits | polaris.c:303-316 | the count of leading digits is the longest all-digit prefix |
| Numbers.StrIsNum | polaris.c:291-328 | the loop of `str_is_num` on `s[lo..hi]` returns true exactly when the span matches `-?[0-9]+(\.[0-9]+)?` |
| Numbers.NumScanIsNumber | polaris.c:291-328 | the automaton of `str_is_num` accepts exactly the number grammar |
| Numbers.NoIntegerPart | polaris.c:301-323 | once a point is read before any digit the text is rejected, so ".5" is not a number |
| Numbers.FractionPart | polaris.c:301-326 | after the point only digits may follow and at least one must, so "5." is not a number |
| Numbers.IntegerPart | polaris.c:297-327 | after the first digit the rest is accepted exactly when it is digits, optionally a point and digits, so "5-" is not a number |
| Numbers.AfterSign | polaris.c:298-311 | after a leading minus sign a digit must come first, so "-" and "--5" are not numbers |
| Numbers.NumberIsPlain | polaris.c:869-873 | a number holds no space and no line break, so pushing it keeps it as it is |
| Numbers.DropZeros | polaris.c:927-930 | the zero loop cuts only '0's from the end, never the first character, and stops at a non-zero |
| Numbers.StripFraction | polaris.c:927-938 | the `num_to_str` stripping yields a prefix of the `%f` text |
| Numbers.NumToStr | polaris.c:921-940 | the loop of `num_to_str` over the `%f` text computes StripFraction: trailing zeros cut, then a point left last |
| Numbers.FixedCanonical | polaris.c:927-938 | for `%f` text `I.F` the result is `I.F'` with F' the fraction without trailing zeros, or `I` when no digit of F is left |
| Semantics.LineLength | polaris.c:827 | `fgets` reads up to and including the first newline, at most 1023 characters, and at least one while input is left; it stops only at a newline, at the end of input or at 1023 characters |
| Semantics.ScanAction | polaris.c:227-288 | one pass of the loop of `eval` always moves forward, at most to the terminator; it pushes only spans inside the text and runs only non-empty tokens |
| Interpreter.Polaris.constructor | polaris.c:46-47 | the interpreter starts with an empty stack, no variables and no output |
| Interpreter.Polaris.StackPush | polaris.c:997-1025 | `stack_push` changes the stack as PushSpan says and nothing else |
| Interpreter.Polaris.StackPushBuffer | polaris.c:511 | `stack_push(buf, 0, 50, true, false)` pushes the buffer's text without its leading spaces and keeps everything else |
| Interpreter.Polaris.StackPop | polaris.c:1027-1035 | on an empty stack `stack_pop` changes nothing and fails; otherwise it returns the top and removes only it |
| Interpreter.Polaris.SetVarValue | polaris.c:882-906 | `set_var_value` binds the name to the value and changes nothing else |
| Interpreter.Polaris.GetVarValue | polaris.c:908-919 | `get_var_value` pushes the stored value trimmed, or writes the name and fails with "variable not found." |
| Interpreter.Polaris.ExecPrint | polaris.c:349-386 | `print` pops one value and appends its decoded text to the output; on an empty stack it fails |
| Interpreter.Polaris.WriteUnescaped | polaris.c:353-384 | writing a value appends Unescape of it to the output and changes nothing else |
| Interpreter.Polaris.ExecBinary | polaris.c:388-512 | an arithmetic word pops two values, fails unless both are numbers, and pushes the stripped result |
| Interpreter.Polaris.ExecUnary | polaris.c:513-573 | `sin cos tan log` pop one value, fail unless it is a number, and push the stripped result |
| Interpreter.Polaris.ExecCompare | polaris.c:574-708 | a comparison pops two values and pushes "1" or "0", numerically when both are numbers and by `strcmp` otherwise |
| Interpreter.Polaris.ExecNot | polaris.c:616-624 | `!` pops a value and pushes "1" exactly when it was "0" |
| Interpreter.Polaris.ExecLogic | polaris.c:710-732 | `&` and `|` pop two values and push "1" or "0" by textual truth |
| Interpreter.Polaris.ExecSet | polaris.c:740-746 | `set` pops the name, then the value, and stores the value under the name |
| Interpreter.Polaris.ExecGet | polaris.c:748-752 | `get` pops a name and fetches that variable |
| Interpreter.Polaris.ExecJoin | polaris.c:791-802 | `join` pops two values and pushes the lower one followed by the top |
| Interpreter.Polaris.ExecCopy | polaris.c:804-809 | `copy` pops the top and pushes it twice |
| Interpreter.Polaris.ExecDel | polaris.c:811-814 | `del` pops the top |
| Interpreter.Polaris.ExecSwap | polaris.c:816-823 | `swap` pops two values and pushes them back in the other order |
| Interpreter.Polaris.ExecInput | polaris.c:825-830 | `input` consumes one `fgets` line of standard input and pushes it untrimmed |
| Interpreter.Polaris.ExecSetShort | polaris.c:832-839 | `>name` pops a value and stores it under the rest of the token |
| Interpreter.Polaris.ExecRandom | polaris.c:859-863 | `random` pushes the stripped text of the next draw |
| Interpreter.Polaris.ExecNumber | polaris.c:868-874 | a numeric token pushes the stripped `%f` text of its value |
| Interpreter.Polaris.ExecEval | polaris.c:734-738 | `eval` pops a value and runs it as source text, ignoring how that scan ended |
| Interpreter.Polaris.ExecIf | polaris.c:754-770 | `if` pops the else-block, the if-block and the condition, runs the condition, pops its result and runs one block |
| Interpreter.Polaris.ExecWhile | polaris.c:772-789 | `while` pops the body and the condition, then runs condition and body until the condition leaves "0" |
| Interpreter.Polaris.ExecCall | polaris.c:848-857 | `name%` pushes the variable's value, pops it again and runs it |
| Interpreter.Polaris.EvalReservedWord | polaris.c:330-347 | `eval_reserved_word` trims the token and runs it as an exact word or as a shorthand or literal |
| Interpreter.Polaris.ExecKeyword | polaris.c:349-830 | the exact words are tried in the order of the C chain |
| Interpreter.Polaris.Shorthand | polaris.c:832-846 | a leading '>' stores and a leading '@' fetches the variable named by the rest |
| Interpreter.Polaris.CallOrLiteral | polaris.c:848-878 | without a leading '>' or '@', a trailing '%' calls and anything else is a literal |
| Interpreter.Polaris.ExecCallShorthand | polaris.c:848-857 | `name%` runs the variable named by the token without its '%' |
| Interpreter.Polaris.ExecLiteral | polaris.c:859-878 | `random`, then `exit`, then a number, then plain text pushed trimmed |
| Interpreter.Polaris.Eval | polaris.c:215-289 | the loop of `eval` over the text and its terminator computes the scan of EvalSpec |
| Interpreter.Polaris.ScanStep | polaris.c:228-287 | one pass of the loop moves forward and leaves a state from which the rest of the scan gives the same result |
| Properties.PushSpanEffect | polaris.c:997-1025 | `stack_push` changes only the stack: it pushes the span, trimmed when asked, normalised, and pushes nothing for an empty span without `pushempty`; this holds for every `from` and `to`, including a span whose end lies before its start |
| Properties.PushSpanReversed | polaris.c:997-1025 | a span whose end lies before its start (as eval pushes for `(a */)`) pushes the empty text with `pushempty` and nothing without it |
| Properties.PushSpanKeeps | polaris.c:997-1025 | a push keeps a clean stack clean and leaves output and input alone |
| Properties.PushBufferKeeps | polaris.c:511 | pushing a result buffer keeps a clean stack clean |
| Properties.DropKeeps | polaris.c:1027-1035 | a pop keeps a clean stack clean |
| Properties.PushValueClean | polaris.c:804-823 | pushing back a value without line breaks pushes it unchanged |
| Properties.PushDropRoundTrip | polaris.c:1027-1035 | popping a value just pushed gives it back and restores the state |
| Properties.SetVarEffect | polaris.c:882-906 | after `set_var_value(n, v)` `n` maps to `v`, every other binding is unchanged, the names are the old ones plus `n`, and the stack and output are untouched |
| Properties.SetVarTwice | polaris.c:882-906 | the last write to a name wins |
| Properties.GetVarEffect | polaris.c:908-919 | a known name pushes its value trimmed and normalised; an unknown one writes the message and is fatal "variable not found." |
| Properties.SetGetRoundTrip | polaris.c:882-919 | a clean value without spaces at its ends, stored and fetched, is pushed unchanged |
| Properties.SetWordOrder | polaris.c:740-746 | `set` takes the name from the top and the value from below it |
| Properties.SwapEffect | polaris.c:816-823 | `swap` exchanges the two top values |
| Properties.SwapTwice | polaris.c:816-823 | `swap` twice restores the stack |
| Properties.CopyEffect | polaris.c:804-809 | `copy` leaves two copies of the top |
| Properties.DelEffect | polaris.c:811-814 | `del` removes the top and nothing else |
| Properties.JoinEffect | polaris.c:791-802 | `join` replaces the two top values by second followed by top |
| Properties.StackWordsOnEmpty | polaris.c:1027-1035 | on an empty stack `swap`, `copy`, `del`, `join`, `print` and `set` fail with "cannot pop from an empty stack." and change nothing |
| Properties.ArithmeticNonNumber | polaris.c:389-398 | an arithmetic word pops both values before the number check, so a non-number loses both and is fatal |
| Properties.PushFlag | polaris.c:586-588 | pushing "1" or "0" pushes it as it is |
| Properties.NotEffect | polaris.c:616-624 | `!` replaces the top by "1" exactly when it was "0", and by "0" otherwise |
| Properties.LogicEffect | polaris.c:710-732 | `&` pushes "1" when neither value is "0", `|` when one of them is not |
| Properties.OnlyZeroIsFalse | polaris.c:616-624 | examples of textual truth: "0" is false, while "0.0", "00", " 0" and "" are true |
| Properties.NotTwice | polaris.c:616-624 | `!` twice turns a value into "1" unless it is "0" |
| Scanning.ScanFollows | polaris.c:227-288 | a run of passes that only move on leaves the scan's result unchanged |
| Scanning.RunThenPush | polaris.c:252-274 | a run of moves ending in a push scans on with the pushed text on the stack |
| Scanning.BlockStep | polaris.c:245-260 | inside a block away from comment markers and its closing ')', a pass only counts parentheses |
| Scanning.InsideBlock | polaris.c:230-260 | strictly inside a balanced block without comment markers, the scan sees no marker and its depth stays at least 1 |
| Scanning.BlockInner | polaris.c:245-260 | inside such a block the scan reaches the closing ')' at depth 1 without pushing or running anything |
| Scanning.BlockRun | polaris.c:245-260 | from the opening '(' the scan reaches the matching ')' at depth 1 |
| Scanning.BlockText | polaris.c:257 | the push at the ')' is the trimmed, normalised text between the parentheses |
| Scanning.BlockPushed | polaris.c:245-260 | a balanced block at depth 0 is pushed as one value, the trimmed text between its outer parentheses even when empty, and the scan goes on after it |
| Scanning.QuoteStep | polaris.c:241-274 | inside quotes a pass steps over one character, or over a `\"` pair |
| Scanning.QuoteInner | polaris.c:241-274 | inside quoted text whose quotes are all escaped the scan reaches the closing quote without pushing |
| Scanning.QuoteRun | polaris.c:261-274 | from the opening quote the scan reaches the closing one in quote mode |
| Scanning.QuoteText | polaris.c:271 | the push at the closing quote is the normalised text between the quotes, untrimmed |
| Scanning.QuotePushed | polaris.c:241-274 | a quoted text at depth 0 is pushed untrimmed, an escaped quote does not end it, and the scan goes on after it |
| Scanning.CommentStep | polaris.c:230-244 | inside a comment a pass steps over one character, or over a `/*` or `\"` pair |
| Scanning.CommentInner | polaris.c:230-244 | inside a comment without `*/` the scan reaches the closing marker without pushing or running anything |
| Scanning.CommentRun | polaris.c:230-240 | from `/*` the scan reaches `*/` in comment mode and then steps past it |
| Scanning.CommentFollows | polaris.c:235-240 | the scan after the comment goes on past the closing marker with the next token starting there |
| Scanning.CommentSkipped | polaris.c:230-240 | nothing between `/*` and `*/` is pushed or run; the state is unchanged and the next token starts after the marker |
| Scanning.TokenIsTrimmed | polaris.c:331-347 | the token `eval_reserved_word` looks at is the trimmed span |
| Scanning.CompareWins | polaris.c:647-708 | `>` and `>=` compare, although they start with the store shorthand's '>' |
| Scanning.RemainderWins | polaris.c:460-477 | `%` is the remainder, although it ends with the call shorthand's '%' |
| Scanning.StoreShorthand | polaris.c:832-839 | any other token starting with '>' stores the top under the rest of the token |
| Scanning.FetchShorthand | polaris.c:841-846 | any other token starting with '@' fetches the variable named by the rest |
| Scanning.CallShorthand | polaris.c:848-857 | any other token ending in '%' runs the variable named by the token without it |
| Scanning.ExitHalts | polaris.c:865-867 | `exit` stops the running scan and changes nothing |
| Scanning.NumberEnds | polaris.c:291-328 | a number starts with a digit, or a minus and a digit, and ends with a digit |
| Scanning.KeywordStart | polaris.c:349-830 | no exact word starts with a digit, and "-" is the only one starting with a minus |
| Scanning.NumbersConvert | polaris.c:868-874 | a numeric token is never a word or a shorthand: it pushes its converted value |
| Scanning.PlainText | polaris.c:875-878 | any other token is pushed as it is, normalised |
| Scanning.TokenTrimmed | polaris.c:331-347 | a non-empty token has no space at either end |
| Scanning.PushTrimmedToken | polaris.c:877 | pushing a token without spaces at its ends pushes it whole |
| Scanning.BlankToken | polaris.c:331-347 | a token of spaces only pushes nothing and changes nothing |
| Scanning.IntegerDigits | polaris.c:291-328 | a number without a point is digits after an optional sign |
| Scanning.DigitsPointDigits | polaris.c:297-327 | digits, a point and digits are read as integer part and fraction |
| Scanning.AppendFraction | polaris.c:291-328 | an integer followed by a point and digits is a number |
| Scanning.NumberCanonical | polaris.c:868-874 | a numeric token whose value prints as `I.F` pushes I with F's trailing zeros cut, without the point when nothing is left, and that is a number again |
| Invariants.GetVarKeeps | polaris.c:908-919 | fetching a variable keeps a clean stack clean and only appends to output |
| Invariants.PrintKeeps | polaris.c:349-386 | `print` keeps a clean stack clean and only appends to output |
| Invariants.NotKeeps | polaris.c:616-624 | `!` keeps the invariant |
| Invariants.SetKeeps | polaris.c:740-746 | `set` keeps the invariant |
| Invariants.GetKeeps | polaris.c:748-752 | `get` keeps the invariant |
| Invariants.JoinKeeps | polaris.c:791-802 | `join` keeps the invariant |
| Invariants.CopyKeeps | polaris.c:804-809 | `copy` keeps the invariant |
| Invariants.DelKeeps | polaris.c:811-814 | `del` keeps the invariant |
| Invariants.SwapKeeps | polaris.c:816-823 | `swap` keeps the invariant |
| Invariants.InputKeeps | polaris.c:825-830 | `input` keeps the invariant |
| Invariants.BinaryKeeps | polaris.c:388-512 | arithmetic keeps the invariant |
| Invariants.UnaryKeeps | polaris.c:513-573 | `sin cos tan log` keep the invariant |
| Invariants.CompareKeeps | polaris.c:574-708 | comparisons keep the invariant |
| Invariants.LogicKeeps | polaris.c:710-732 | `&` and `|` keep the invariant |
| Invariants.SetShortKeeps | polaris.c:832-839 | `>name` keeps the invariant |
| Invariants.RandomKeeps | polaris.c:859-863 | `random` keeps the invariant |
| Invariants.NumberKeeps | polaris.c:868-874 | a number literal keeps the invariant |
| Invariants.EvalWordKeeps | polaris.c:734-738 | `eval` keeps the invariant |
| Invariants.IfKeeps | polaris.c:754-770 | `if` keeps the invariant |
| Invariants.WhileLoopKeeps | polaris.c:775-786 | every round of the `while` loop keeps the invariant |
| Invariants.WhileWordKeeps | polaris.c:772-789 | `while` keeps the invariant |
| Invariants.CallKeeps | polaris.c:848-857 | `name%` keeps the invariant |
| Invariants.ShorthandKeeps | polaris.c:832-878 | the shorthands and literals keep the invariant |
| Invariants.LiteralKeeps | polaris.c:859-878 | `random`, `exit`, numbers and plain text keep the invariant |
| Invariants.DispatchKeeps | polaris.c:330-880 | every token keeps the invariant |
| Invariants.KeywordKeeps | polaris.c:349-830 | every exact word keeps the invariant |
| Invariants.ScanKeeps | polaris.c:227-288 | the scan from any position keeps the invariant |
| Invariants.EvalKeeps | polaris.c:215-289 | running any source from a clean state leaves no line break on the stack and only appends to output |
| Invariants.ScanNeverHalts | polaris.c:282-284 | a scan turns the halt of `exit` into a normal end, so it never reports a halt |
| Invariants.NestedExitIsLocal | polaris.c:734-857 | `eval`, `if`, `while` and `name%` never halt the scan that runs them |
| Invariants.WhileLoopNeverHalts | polaris.c:775-786 | the `while` loop never reports a halt |
| Invariants.ExitEndsScan | polaris.c:279-286 | the scan stops at an `exit` token, with the state it had before the token |
| Invariants.IfChoosesBranch | polaris.c:754-770 | `if` runs the condition on the rest of the stack, then the if-block unless the popped result is "0", else the else-block |
| Invariants.WhilePops | polaris.c:772-774 | `while` pops the body from the top and the condition from below it |

## Left out

- Command-line handling, help and version text, loading the source file and
  `main` (polaris.c:73-201): host plumbing around the core.
- `error` prints "Polaris error: " and the message, then ends the process
  (polaris.c:203-208). The model returns `Fatal(msg)` with the state as it
  was at that point, and does not add that line to the output. `warning` is
  only called by the command-line handling.
- Floating point (`atof`, `sprintf("%f")`, `pow`, `sin`/`cos`/`tan`/`log`,
  `fabs` with `EPSILON`): this is the `Host` parameter. Only the type checks,
  the stack effects and the stripping of the `%f` text are modelled.
- `srand`/`rand` (polaris.c:84-86, 859-863): the n-th draw is
  `host.random(n)`.
- `input`: standard input is a field, read with `fgets`'s line rule. At end
  of input the model pushes the empty text; C leaves the buffer's contents
  indeterminate then.
- `print` also writes the terminating NUL (its loop runs to `strlen + 1`).
  The model writes only the decoded text.
- `show_pushpops` tracing and the unused `print_substr` (polaris.c:955-983).
- Memory management (`malloc`, `free`, `delete_element`) and the fixed
  50-byte buffers: values are unbounded strings. `stack_push(buf, 0, 50,
  true, false)` reads past the NUL; it is modelled as pushing the
  NUL-terminated text with its leading spaces cut (Semantics.PushBuffer).
- Reading `source[i + 1]` past the terminator reads as NUL (Text.At).
- Semantics.EvalSpec: nested evaluation is bounded by `fuel`. A `while` that
  does not end, or recursion deeper than the fuel, gives `OutOfFuel`, where
  the C program would run on or overflow its stack.
- Interpreter.Polaris.ExecBinary: `%` truncates both values to `long` and takes
  the integer remainder (polaris.c:471). A divisor that truncates to 0
  (`7 0 %`, `7 0.5 %`) is undefined behaviour in C and on common hardware
  ends the process with a trap before any error line. The model does not
  capture this: it pushes the stripped `host.arith` text and goes on.
- Interpreter.Polaris.ExecCompare: numeric comparison within `EPSILON` is
  the `host.numCompare` parameter, not a computation.
- Scanning.BlockPushed: proved only for blocks whose text holds no comment
  marker. A `/*` or `*/` inside a block switches comment mode and can move
  the token start.
- Scanning.QuotePushed: proved for quoted texts whose every inner `"` is
  escaped by a backslash and which do not end in a backslash. This is a
  sufficient condition, not a description of every input.
- Scanning.CommentSkipped: proved for comments whose text holds no `*/` and
  does not end in `/`, that is, comments ending at the first `*/` the scan
  meets. A `/*/` inside a comment hides a `*/` from the scan and is not
  covered.
- Numbers.NumToStr: starts from the `%f` text. `sprintf` itself is the `Host`
  parameter.

## Findings

| source | as written | input that shows it | evidently intended | confidence | as-written member | corrected member |
|---|---|---|---|---|---|---|
| polaris.c:1007-1013 | the second trim loop of `stack_push` counts `i` down from `to - 1` as a `size_t`; when `to` is 0 this wraps to SIZE_MAX, `i >= from` still holds, and `source[i]` is read one byte before the buffer (index SIZE_MAX) | `"" >x @x`: the variable holds the empty text, and `get_var_value` calls `stack_push(v, 0, 0, true, true)` | stop when the span is empty and push the empty text | not executed | Text.StackPushTrimAsWritten | Text.TrimEnd |
