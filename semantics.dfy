/** The interpreter as pure functions over an explicit state: what pushing,
    popping, the variable store, every word of `eval_reserved_word` and the
    scan of `eval` do. The imperative model in module Interpreter is proved
    to compute exactly these functions. */
module Semantics {
  import opened Text
  import opened Numbers

  const EmptyStack: string := "cannot pop from an empty stack."
  const VarNotFound: string := "variable not found."
  const NonNumeric: string := "trying to operate arithmetically with a non-numerical value."
  /** `fgets` is called with this size, so it reads at most one less. */
  const MaxInputLength: nat := 1024

  /** Everything the interpreter updates: the value stack (top at the end),
      the variables, what has been written to standard output, what is
      still unread on standard input, and how many random numbers were drawn. */
  datatype State = State(stack: seq<string>, vars: map<string, string>, output: string, stdin: string, draws: nat)

  /** How a word or a scan ends. `Halt` is the `exit` word; `Fatal` is a call
      of `error`, which ends the process; `OutOfFuel` is where the model stops
      following nested evaluation. */
  datatype Outcome = Ok | Halt | Fatal(msg: string) | OutOfFuel

  datatype Run = Run(st: State, outcome: Outcome)

  /** The floating-point and library side of the interpreter, which the model
      does not compute: each function gives the text `sprintf("%f", ...)`
      writes for the result. */
  datatype Host = Host(
    arith: (string, string, string) -> string,      // word, value1, value2
    unary: (string, string) -> string,              // word, value
    numCompare: (string, string, string) -> bool,   // word, value1, value2
    literal: string -> string,                      // atof of a literal
    random: nat -> string)                          // the n-th rand() / RAND_MAX

  /** The scan state of `eval`. */
  datatype Scanner = Scanner(inComment: bool, depth: nat, inQuoted: bool, tokenStart: nat)

  const Start: Scanner := Scanner(false, 0, false, 0)

  const BinaryWords: set<string> := {"+", "-", "*", "/", "%", "//", "**"}
  const UnaryWords: set<string> := {"sin", "cos", "tan", "log"}
  const CompareWords: set<string> := {"=", "!=", "<", ">", "<=", ">="}

  /** The exact words, tried before any shorthand. */
  predicate IsKeyword(w: string) {
    w == "print" || w in BinaryWords || w in UnaryWords || w in CompareWords
    || w == "!" || w == "&" || w == "|" || w == "eval" || w == "set" || w == "get"
    || w == "if" || w == "while" || w == "join" || w == "copy" || w == "del" || w == "swap"
    || w == "input"
  }

  // ---------------------------------------------------------------------
  // Value stack

  function Top(st: State): string
    requires |st.stack| > 0
  {
    st.stack[|st.stack| - 1]
  }

  function Drop(st: State): State
    requires |st.stack| > 0
  {
    st.(stack := st.stack[..|st.stack| - 1])
  }

  /** `stack_push(src, lo, hi, trim, pushempty)`. */
  function PushSpan(st: State, src: string, lo: nat, hi: nat, trim: bool, pushEmpty: bool): State
    requires hi <= |src|
  {
    var f := if trim then TrimFrom(src, lo, hi) else lo;
    var t := if trim then TrimTo(src, f, hi) else hi;
    if f < t || pushEmpty then st.(stack := st.stack + [Normalize(Span(src, f, t))]) else st
  }

  /** `stack_push(v, 0, strlen(v), false, true)`, used to push values back. */
  function PushValue(st: State, v: string): State {
    PushSpan(st, v, 0, |v|, false, true)
  }

  /** `stack_push(buf, 0, 50, true, false)` on a NUL-terminated buffer: the
      first trim loop removes leading spaces; the second one starts past the
      terminator and stops at the latest on the NUL, so the value is always
      pushed and keeps its trailing spaces. */
  function PushBuffer(st: State, t: string): State {
    st.(stack := st.stack + [Normalize(t[TrimFrom(t, 0, |t|)..])])
  }

  function Flag(b: bool): string {
    if b then "1" else "0"
  }

  // ---------------------------------------------------------------------
  // Variable store

  /** `set_var_value`: find the name or insert it, then store the value. */
  function SetVar(st: State, name: string, value: string): State {
    st.(vars := st.vars[name := value])
  }

  /** `get_var_value`: push the stored value trimmed, or report the name and
      fail. */
  function GetVar(st: State, name: string): Run {
    if name in st.vars then
      var v := st.vars[name];
      Run(PushSpan(st, v, 0, |v|, true, true), Ok)
    else
      Run(st.(output := st.output + "When trying to get variable: " + name + "\r\n"), Fatal(VarNotFound))
  }

  // ---------------------------------------------------------------------
  // Words that do not evaluate code

  function PrintWord(st: State): Run {
    if |st.stack| == 0 then Run(st, Fatal(EmptyStack))
    else
      var v := Top(st);
      var s1 := Drop(st);
      Run(s1.(output := s1.output + Unescape(v)), Ok)
  }

  /** `+ - * / % // **`: pop value2, pop value1, both must be numbers. */
  function BinaryWord(host: Host, st: State, word: string): Run {
    if |st.stack| == 0 then Run(st, Fatal(EmptyStack))
    else
      var v2 := Top(st);
      var s1 := Drop(st);
      if |s1.stack| == 0 then Run(s1, Fatal(EmptyStack))
      else
        var v1 := Top(s1);
        var s2 := Drop(s1);
        if !IsNumber(v1) || !IsNumber(v2) then Run(s2, Fatal(NonNumeric))
        else Run(PushBuffer(s2, StripFraction(host.arith(word, v1, v2))), Ok)
  }

  /** `sin cos tan log`. */
  function UnaryWord(host: Host, st: State, word: string): Run {
    if |st.stack| == 0 then Run(st, Fatal(EmptyStack))
    else
      var v := Top(st);
      var s1 := Drop(st);
      if !IsNumber(v) then Run(s1, Fatal(NonNumeric))
      else Run(PushBuffer(s1, StripFraction(host.unary(word, v))), Ok)
  }

  /** The `strcmp` test of each comparison word. */
  predicate TextCompare(word: string, a: string, b: string) {
    if word == "=" then a == b
    else if word == "!=" then a != b
    else if word == "<" then StrLess(a, b)
    else if word == ">" then StrLess(b, a)
    else if word == "<=" then !StrLess(b, a)
    else !StrLess(a, b)
  }

  /** `= != < > <= >=`: numerically when both are numbers, else as text. */
  function CompareWord(host: Host, st: State, word: string): Run {
    if |st.stack| == 0 then Run(st, Fatal(EmptyStack))
    else
      var v2 := Top(st);
      var s1 := Drop(st);
      if |s1.stack| == 0 then Run(s1, Fatal(EmptyStack))
      else
        var v1 := Top(s1);
        var s2 := Drop(s1);
        var b := if IsNumber(v1) && IsNumber(v2) then host.numCompare(word, v1, v2) else TextCompare(word, v1, v2);
        Run(PushBuffer(s2, Flag(b)), Ok)
  }

  /** A value is false exactly when its text is "0". */
  predicate Truthy(v: string) {
    v != "0"
  }

  function NotWord(st: State): Run {
    if |st.stack| == 0 then Run(st, Fatal(EmptyStack))
    else Run(PushBuffer(Drop(st), Flag(!Truthy(Top(st)))), Ok)
  }

  /** `&` and `|`. */
  function LogicWord(st: State, word: string): Run {
    if |st.stack| == 0 then Run(st, Fatal(EmptyStack))
    else
      var v2 := Top(st);
      var s1 := Drop(st);
      if |s1.stack| == 0 then Run(s1, Fatal(EmptyStack))
      else
        var v1 := Top(s1);
        var b := if word == "&" then Truthy(v1) && Truthy(v2) else Truthy(v1) || Truthy(v2);
        Run(PushBuffer(Drop(s1), Flag(b)), Ok)
  }

  /** `set`: the name is on top, the value under it. */
  function SetWord(st: State): Run {
    if |st.stack| == 0 then Run(st, Fatal(EmptyStack))
    else
      var name := Top(st);
      var s1 := Drop(st);
      if |s1.stack| == 0 then Run(s1, Fatal(EmptyStack))
      else Run(SetVar(Drop(s1), name, Top(s1)), Ok)
  }

  function GetWord(st: State): Run {
    if |st.stack| == 0 then Run(st, Fatal(EmptyStack))
    else GetVar(Drop(st), Top(st))
  }

  function JoinWord(st: State): Run {
    if |st.stack| == 0 then Run(st, Fatal(EmptyStack))
    else
      var v2 := Top(st);
      var s1 := Drop(st);
      if |s1.stack| == 0 then Run(s1, Fatal(EmptyStack))
      else Run(PushValue(Drop(s1), Top(s1) + v2), Ok)
  }

  function CopyWord(st: State): Run {
    if |st.stack| == 0 then Run(st, Fatal(EmptyStack))
    else Run(PushValue(PushValue(Drop(st), Top(st)), Top(st)), Ok)
  }

  function DelWord(st: State): Run {
    if |st.stack| == 0 then Run(st, Fatal(EmptyStack))
    else Run(Drop(st), Ok)
  }

  function SwapWord(st: State): Run {
    if |st.stack| == 0 then Run(st, Fatal(EmptyStack))
    else
      var v2 := Top(st);
      var s1 := Drop(st);
      if |s1.stack| == 0 then Run(s1, Fatal(EmptyStack))
      else Run(PushValue(PushValue(Drop(s1), v2), Top(s1)), Ok)
  }

  /** How many characters `fgets(buf, MaxInputLength, stdin)` takes: up to and
      including the first newline, at most MaxInputLength - 1. */
  function LineLength(s: string): (n: nat)
    ensures n <= |s| && n < MaxInputLength
    ensures |s| > 0 ==> n > 0
    ensures forall k :: 0 <= k < n - 1 ==> s[k] != '\n'
    ensures |s| > 0 ==> n == |s| || n == MaxInputLength - 1 || s[n - 1] == '\n'
    decreases |s|
  {
    if |s| == 0 then 0
    else if s[0] == '\n' then 1
    else
      var n := 1 + LineLength(s[1..]);
      if n < MaxInputLength then n else MaxInputLength - 1
  }

  /** `input`: the line read is pushed as it is (no trim); at end of input
      the model pushes the empty text. */
  function InputWord(st: State): Run {
    var n := LineLength(st.stdin);
    var line := CText(st.stdin[..n]);
    Run(PushValue(st, line).(stdin := st.stdin[n..]), Ok)
  }

  /** `>name`. */
  function SetShortWord(st: State, name: string): Run {
    if |st.stack| == 0 then Run(st, Fatal(EmptyStack))
    else Run(SetVar(Drop(st), name, Top(st)), Ok)
  }

  function RandomWord(host: Host, st: State): Run {
    Run(PushBuffer(st, StripFraction(host.random(st.draws))).(draws := st.draws + 1), Ok)
  }

  /** A numeric token: `num_to_str(atof(token))`. */
  function NumberWord(host: Host, st: State, token: string): Run {
    Run(PushBuffer(st, StripFraction(host.literal(Normalize(token)))), Ok)
  }

  // ---------------------------------------------------------------------
  // Words that evaluate code, and the scan itself

  /** `eval`: its result is not looked at, so an `exit` inside it only ends
      the nested scan. */
  function EvalWord(host: Host, fuel: nat, st: State): Run
    decreases fuel, 0
  {
    if |st.stack| == 0 then Run(st, Fatal(EmptyStack))
    else if fuel == 0 then Run(Drop(st), OutOfFuel)
    else EvalSpec(host, fuel - 1, Drop(st), Top(st))
  }

  /** `if`: pops the else-block, the if-block and the condition; runs the
      condition and pops its result. */
  function IfWord(host: Host, fuel: nat, st: State): Run
    decreases fuel, 0
  {
    if |st.stack| == 0 then Run(st, Fatal(EmptyStack))
    else
      var elseBlock := Top(st);
      var s1 := Drop(st);
      if |s1.stack| == 0 then Run(s1, Fatal(EmptyStack))
      else
        var ifBlock := Top(s1);
        var s2 := Drop(s1);
        if |s2.stack| == 0 then Run(s2, Fatal(EmptyStack))
        else
          var cond := Top(s2);
          var s3 := Drop(s2);
          if fuel == 0 then Run(s3, OutOfFuel)
          else
            var c := EvalSpec(host, fuel - 1, s3, cond);
            if c.outcome != Ok then c
            else if |c.st.stack| == 0 then Run(c.st, Fatal(EmptyStack))
            else if Truthy(Top(c.st)) then EvalSpec(host, fuel - 1, Drop(c.st), ifBlock)
            else EvalSpec(host, fuel - 1, Drop(c.st), elseBlock)
  }

  /** The `while(true)` loop of the `while` word; each round costs one fuel. */
  function WhileLoop(host: Host, fuel: nat, st: State, cond: string, body: string): Run
    decreases fuel, 0
  {
    if fuel == 0 then Run(st, OutOfFuel)
    else
      var c := EvalSpec(host, fuel - 1, st, cond);
      if c.outcome != Ok then c
      else if |c.st.stack| == 0 then Run(c.st, Fatal(EmptyStack))
      else if !Truthy(Top(c.st)) then Run(Drop(c.st), Ok)
      else
        var b := EvalSpec(host, fuel - 1, Drop(c.st), body);
        if b.outcome != Ok then b
        else WhileLoop(host, fuel - 1, b.st, cond, body)
  }

  /** `while`: pops the body, then the condition. */
  function WhileWord(host: Host, fuel: nat, st: State): Run
    decreases fuel, 1
  {
    if |st.stack| == 0 then Run(st, Fatal(EmptyStack))
    else
      var body := Top(st);
      var s1 := Drop(st);
      if |s1.stack| == 0 then Run(s1, Fatal(EmptyStack))
      else WhileLoop(host, fuel, Drop(s1), Top(s1), body)
  }

  /** `name%`: push the variable's value, pop it again and evaluate it. */
  function CallWord(host: Host, fuel: nat, st: State, name: string): Run
    decreases fuel, 0
  {
    var g := GetVar(st, name);
    if g.outcome != Ok then g
    else if |g.st.stack| == 0 then Run(g.st, Fatal(EmptyStack))
    else if fuel == 0 then Run(Drop(g.st), OutOfFuel)
    else EvalSpec(host, fuel - 1, Drop(g.st), Top(g.st))
  }

  /** `eval_reserved_word` on the token `src[lo0..hi0]`. */
  function DispatchSpec(host: Host, fuel: nat, st: State, src: string, lo0: nat, hi0: nat): Run
    requires lo0 < hi0 <= |src|
    decreases fuel, 3
  {
    var lo := TrimFrom(src, lo0, hi0);
    var hi := TrimTo(src, lo, hi0);
    assert 1 <= hi by {
      if lo < hi0 { assert !IsSpace(src[lo]); }
    }
    var w := src[lo..hi];
    if IsKeyword(w) then KeywordSpec(host, fuel, st, w)
    else ShorthandSpec(host, fuel, st, src, lo, hi)
  }

  /** The exact words of `eval_reserved_word`, in the order it tries them. */
  function KeywordSpec(host: Host, fuel: nat, st: State, w: string): Run
    requires IsKeyword(w)
    decreases fuel, 2
  {
    if w == "print" then PrintWord(st)
    else if w in BinaryWords then BinaryWord(host, st, w)
    else if w in UnaryWords then UnaryWord(host, st, w)
    else if w in CompareWords then CompareWord(host, st, w)
    else if w == "!" then NotWord(st)
    else if w == "&" || w == "|" then LogicWord(st, w)
    else if w == "eval" then EvalWord(host, fuel, st)
    else if w == "set" then SetWord(st)
    else if w == "get" then GetWord(st)
    else if w == "if" then IfWord(host, fuel, st)
    else if w == "while" then WhileWord(host, fuel, st)
    else if w == "join" then JoinWord(st)
    else if w == "copy" then CopyWord(st)
    else if w == "del" then DelWord(st)
    else if w == "swap" then SwapWord(st)
    else InputWord(st)
  }

  /** The rest of `eval_reserved_word` on the trimmed token `src[lo..hi]`:
      the `>name`, `@name` and `name%` shorthands, then the literals. */
  function ShorthandSpec(host: Host, fuel: nat, st: State, src: string, lo: nat, hi: nat): Run
    requires 1 <= hi <= |src| && lo <= hi
    decreases fuel, 1
  {
    if At(src, lo) == '>' then SetShortWord(st, Normalize(Span(src, lo + 1, hi)))
    else if At(src, lo) == '@' then GetVar(st, Normalize(Span(src, lo + 1, hi)))
    else if At(src, hi - 1) == '%' then CallWord(host, fuel, st, Normalize(Span(src, lo, hi - 1)))
    else LiteralSpec(host, st, src, lo, hi)
  }

  /** The case of ShorthandSpec each leading or trailing character selects. */
  lemma ShorthandCases(host: Host, fuel: nat, st: State, src: string, lo: nat, hi: nat)
    requires 1 <= hi <= |src| && lo <= hi
    ensures var r := ShorthandSpec(host, fuel, st, src, lo, hi);
            && (At(src, lo) == '>' ==> r == SetShortWord(st, Normalize(Span(src, lo + 1, hi))))
            && (At(src, lo) == '@' ==> r == GetVar(st, Normalize(Span(src, lo + 1, hi))))
            && (At(src, lo) != '>' && At(src, lo) != '@' && At(src, hi - 1) == '%'
                ==> r == CallWord(host, fuel, st, Normalize(Span(src, lo, hi - 1))))
            && (At(src, lo) != '>' && At(src, lo) != '@' && At(src, hi - 1) != '%'
                ==> r == LiteralSpec(host, st, src, lo, hi))
  {
  }

  /** The last cases of `eval_reserved_word`: `random`, `exit`, a number
      literal, and plain text pushed trimmed. */
  function LiteralSpec(host: Host, st: State, src: string, lo: nat, hi: nat): Run
    requires lo <= hi <= |src|
  {
    var w := src[lo..hi];
    if w == "random" then RandomWord(host, st)
    else if w == "exit" then Run(st, Halt)
    else if IsNumber(w) then NumberWord(host, st, w)
    else Run(PushSpan(st, src, lo, hi, true, false), Ok)
  }

  /** The characters that end a plain token at depth 0. */
  predicate IsDelimiter(c: char) {
    c == ' ' || c == '\n' || c == '\t' || c == '\0'
  }

  /** What the loop of `eval` does at one position: move on with a new
      scanner state, push `src[lo..hi]` (a block or quoted text) and move on,
      or hand the token `src[lo..hi]` to `eval_reserved_word` and move on. */
  datatype Step =
    | Move(next: nat, after: Scanner)
    | PushText(lo: nat, hi: nat, trim: bool, next: nat, after: Scanner)
    | RunToken(lo: nat, hi: nat, next: nat, after: Scanner)

  /** The body of the loop of `eval` at position `i`, the character tests in
      the order the C code makes them. */
  function ScanAction(src: string, i: nat, sc: Scanner): (a: Step)
    requires i <= |src|
    ensures i < a.next <= |src| + 1
    ensures a.PushText? ==> a.hi <= |src|
    ensures a.RunToken? ==> a.lo < a.hi <= |src|
  {
    var c := At(src, i);
    var next := At(src, i + 1);
    if !sc.inQuoted && c == '/' && next == '*' then
      Move(i + 2, sc.(inComment := true))
    else if !sc.inQuoted && c == '*' && next == '/' then
      Move(i + 2, sc.(inComment := false, tokenStart := i + 2))
    else if c == '\\' && next == '"' then
      Move(i + 2, sc)
    else if !sc.inComment && !sc.inQuoted && c == '(' then
      Move(i + 1, sc.(depth := sc.depth + 1, tokenStart := if sc.depth == 0 then i else sc.tokenStart))
    else if sc.depth != 0 && !sc.inComment && !sc.inQuoted && c == ')' then
      if sc.depth == 1 && sc.tokenStart < i + 1 then
        PushText(sc.tokenStart + 1, i, true, i + 1, sc.(depth := 0, tokenStart := i + 1))
      else
        Move(i + 1, sc.(depth := sc.depth - 1))
    else if sc.depth == 0 && !sc.inComment && !sc.inQuoted && c == '"' then
      Move(i + 1, sc.(inQuoted := true, tokenStart := i))
    else if sc.depth == 0 && !sc.inComment && sc.inQuoted && c == '"' then
      if sc.tokenStart < i + 1 then
        PushText(sc.tokenStart + 1, i, false, i + 1, sc.(inQuoted := false, tokenStart := i + 1))
      else
        Move(i + 1, sc.(inQuoted := false, tokenStart := i + 1))
    else if sc.depth == 0 && !sc.inQuoted && !sc.inComment && IsDelimiter(c) then
      if sc.tokenStart < i then RunToken(sc.tokenStart, i, i + 1, sc.(tokenStart := i))
      else Move(i + 1, sc.(tokenStart := i))
    else
      Move(i + 1, sc)
  }

  /** The loop of `eval` from position `i` on; the terminator at `|src|` is
      scanned too and ends the last token. `exit` ends the scan normally, a
      fatal error ends it with that error. */
  function ScanSpec(host: Host, fuel: nat, st: State, src: string, i: nat, sc: Scanner): Run
    requires i <= |src| + 1
    decreases fuel, 4, |src| + 1 - i
  {
    if i == |src| + 1 then Run(st, Ok)
    else
      match ScanAction(src, i, sc)
      case Move(next, after) =>
        ScanSpec(host, fuel, st, src, next, after)
      case PushText(lo, hi, trim, next, after) =>
        ScanSpec(host, fuel, PushSpan(st, src, lo, hi, trim, true), src, next, after)
      case RunToken(lo, hi, next, after) =>
        var d := DispatchSpec(host, fuel, st, src, lo, hi);
        if d.outcome == Halt then Run(d.st, Ok)
        else if d.outcome != Ok then d
        else ScanSpec(host, fuel, d.st, src, next, after)
  }

  /** A step that only moves on leaves the rest to the scan from there. */
  lemma ScanMoves(host: Host, fuel: nat, st: State, src: string, i: nat, sc: Scanner, next: nat, after: Scanner)
    requires i <= |src| && ScanAction(src, i, sc) == Move(next, after)
    ensures ScanSpec(host, fuel, st, src, i, sc) == ScanSpec(host, fuel, st, src, next, after)
  {
  }

  /** A step that pushes a text scans on from the state with it pushed. */
  lemma ScanPushes(host: Host, fuel: nat, st: State, src: string, i: nat, sc: Scanner,
                   lo: nat, hi: nat, trim: bool, next: nat, after: Scanner)
    requires i <= |src| && ScanAction(src, i, sc) == PushText(lo, hi, trim, next, after)
    ensures ScanSpec(host, fuel, st, src, i, sc)
            == ScanSpec(host, fuel, PushSpan(st, src, lo, hi, trim, true), src, next, after)
  {
  }

  /** A step that runs a token stops at `exit` and at a fatal error. */
  lemma ScanRuns(host: Host, fuel: nat, st: State, src: string, i: nat, sc: Scanner,
                 lo: nat, hi: nat, next: nat, after: Scanner)
    requires i <= |src| && ScanAction(src, i, sc) == RunToken(lo, hi, next, after)
    ensures lo < hi <= |src| && next <= |src| + 1
    ensures var d := DispatchSpec(host, fuel, st, src, lo, hi);
            ScanSpec(host, fuel, st, src, i, sc)
            == if d.outcome == Halt then Run(d.st, Ok)
               else if d.outcome != Ok then d
               else ScanSpec(host, fuel, d.st, src, next, after)
  {
  }

  /** `eval(source)`: scan the text up to its terminator. */
  function EvalSpec(host: Host, fuel: nat, st: State, source: string): Run
    decreases fuel, 5
  {
    ScanSpec(host, fuel, st, CText(source), 0, Start)
  }
}
