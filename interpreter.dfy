/** The interpreter as the C program runs it: one object holding the value
    stack, the variable store, standard output and standard input, changed
    in place by push, pop, set and by the words. Every method is proved to
    compute the function of module Semantics that specifies it. */
module Interpreter {
  import opened Text
  import opened Numbers
  import opened Semantics

  class Polaris {
    var stack: seq<string>
    var vars: map<string, string>
    var output: string
    var stdin: string
    var draws: nat

    /** The abstract value of the interpreter. */
    function Snapshot(): State
      reads this
    {
      State(stack, vars, output, stdin, draws)
    }

    constructor (input: string)
      ensures Snapshot() == State([], map[], "", input, 0)
    {
      stack, vars, output, stdin, draws := [], map[], "", input, 0;
    }

    /** `stack_push`. */
    method StackPush(src: string, lo: nat, hi: nat, trim: bool, pushEmpty: bool)
      requires hi <= |src|
      modifies this
      ensures Snapshot() == PushSpan(old(Snapshot()), src, lo, hi, trim, pushEmpty)
    {
      var f, t := lo, hi;
      if trim {
        f := TrimStart(src, lo, hi);
        t := TrimEnd(src, f, hi);
      }
      if f < t || pushEmpty {
        var v := CopySubstr(src, f, t);
        stack := stack + [v];
      }
    }

    /** `stack_push(buf, 0, 50, true, false)` of a result buffer. */
    method StackPushBuffer(t: string)
      modifies this
      ensures Snapshot() == PushBuffer(old(Snapshot()), t)
    {
      var f := TrimStart(t, 0, |t|);
      var v := CopySubstr(t, f, |t|);
      assert Span(t, f, |t|) == t[f..];
      stack := stack + [v];
    }

    /** `stack_pop`: `None` is the fatal "cannot pop from an empty stack". */
    method StackPop() returns (v: Option<string>)
      modifies this
      ensures old(|stack|) == 0 ==> v == None && Snapshot() == old(Snapshot())
      ensures old(|stack|) > 0 ==> v == Some(Top(old(Snapshot()))) && Snapshot() == Drop(old(Snapshot()))
    {
      if |stack| == 0 {
        return None;
      }
      v := Some(stack[|stack| - 1]);
      stack := stack[..|stack| - 1];
    }

    /** `set_var_value`. */
    method SetVarValue(name: string, value: string)
      modifies this
      ensures Snapshot() == SetVar(old(Snapshot()), name, value)
    {
      vars := vars[name := value];
    }

    /** `get_var_value`. */
    method GetVarValue(name: string) returns (r: Outcome)
      modifies this
      ensures Run(Snapshot(), r) == GetVar(old(Snapshot()), name)
    {
      if name in vars {
        var v := vars[name];
        StackPush(v, 0, |v|, true, true);
        return Ok;
      }
      output := output + "When trying to get variable: " + name + "\r\n";
      return Fatal(VarNotFound);
    }

    /** The `print` word: the loop that writes a value, decoding escapes. */
    method ExecPrint() returns (r: Outcome)
      modifies this
      ensures Run(Snapshot(), r) == PrintWord(old(Snapshot()))
    {
      var value := StackPop();
      if value.None? {
        return Fatal(EmptyStack);
      }
      WriteUnescaped(value.value);
      return Ok;
    }

    /** What `print` writes for a value, appended to standard output. */
    method WriteUnescaped(s: string)
      modifies this
      ensures Snapshot() == old(Snapshot()).(output := old(output) + Unescape(s))
    {
      var decoded := DecodeEscapes(s);
      output := output + decoded;
    }

    method ExecBinary(host: Host, word: string) returns (r: Outcome)
      modifies this
      ensures Run(Snapshot(), r) == BinaryWord(host, old(Snapshot()), word)
    {
      var value2 := StackPop();
      if value2.None? {
        return Fatal(EmptyStack);
      }
      var value1 := StackPop();
      if value1.None? {
        return Fatal(EmptyStack);
      }
      var n1 := StrIsNum(value1.value, 0, |value1.value|);
      var n2 := StrIsNum(value2.value, 0, |value2.value|);
      assert Span(value1.value, 0, |value1.value|) == value1.value;
      assert Span(value2.value, 0, |value2.value|) == value2.value;
      if !n1 || !n2 {
        return Fatal(NonNumeric);
      }
      var result := NumToStr(host.arith(word, value1.value, value2.value));
      StackPushBuffer(result);
      return Ok;
    }

    method ExecUnary(host: Host, word: string) returns (r: Outcome)
      modifies this
      ensures Run(Snapshot(), r) == UnaryWord(host, old(Snapshot()), word)
    {
      var value1 := StackPop();
      if value1.None? {
        return Fatal(EmptyStack);
      }
      var n1 := StrIsNum(value1.value, 0, |value1.value|);
      assert Span(value1.value, 0, |value1.value|) == value1.value;
      if !n1 {
        return Fatal(NonNumeric);
      }
      var result := NumToStr(host.unary(word, value1.value));
      StackPushBuffer(result);
      return Ok;
    }

    method ExecCompare(host: Host, word: string) returns (r: Outcome)
      modifies this
      ensures Run(Snapshot(), r) == CompareWord(host, old(Snapshot()), word)
    {
      var value2 := StackPop();
      if value2.None? {
        return Fatal(EmptyStack);
      }
      var value1 := StackPop();
      if value1.None? {
        return Fatal(EmptyStack);
      }
      var n1 := StrIsNum(value1.value, 0, |value1.value|);
      var n2 := StrIsNum(value2.value, 0, |value2.value|);
      assert Span(value1.value, 0, |value1.value|) == value1.value;
      assert Span(value2.value, 0, |value2.value|) == value2.value;
      var b;
      if n1 && n2 {
        b := host.numCompare(word, value1.value, value2.value);
      } else {
        b := TextCompare(word, value1.value, value2.value);
      }
      StackPushBuffer(if b then "1" else "0");
      return Ok;
    }

    method ExecNot() returns (r: Outcome)
      modifies this
      ensures Run(Snapshot(), r) == NotWord(old(Snapshot()))
    {
      var value1 := StackPop();
      if value1.None? {
        return Fatal(EmptyStack);
      }
      StackPushBuffer(if value1.value == "0" then "1" else "0");
      return Ok;
    }

    method ExecLogic(word: string) returns (r: Outcome)
      modifies this
      ensures Run(Snapshot(), r) == LogicWord(old(Snapshot()), word)
    {
      var value2 := StackPop();
      if value2.None? {
        return Fatal(EmptyStack);
      }
      var value1 := StackPop();
      if value1.None? {
        return Fatal(EmptyStack);
      }
      var b := if word == "&" then value1.value != "0" && value2.value != "0"
               else value1.value != "0" || value2.value != "0";
      StackPushBuffer(if b then "1" else "0");
      return Ok;
    }

    method ExecSet() returns (r: Outcome)
      modifies this
      ensures Run(Snapshot(), r) == SetWord(old(Snapshot()))
    {
      var name := StackPop();
      if name.None? {
        return Fatal(EmptyStack);
      }
      var value := StackPop();
      if value.None? {
        return Fatal(EmptyStack);
      }
      SetVarValue(name.value, value.value);
      return Ok;
    }

    method ExecGet() returns (r: Outcome)
      modifies this
      ensures Run(Snapshot(), r) == GetWord(old(Snapshot()))
    {
      var name := StackPop();
      if name.None? {
        return Fatal(EmptyStack);
      }
      r := GetVarValue(name.value);
    }

    method ExecJoin() returns (r: Outcome)
      modifies this
      ensures Run(Snapshot(), r) == JoinWord(old(Snapshot()))
    {
      var value2 := StackPop();
      if value2.None? {
        return Fatal(EmptyStack);
      }
      var value1 := StackPop();
      if value1.None? {
        return Fatal(EmptyStack);
      }
      var joined := value1.value + value2.value;
      StackPush(joined, 0, |joined|, false, true);
      return Ok;
    }

    method ExecCopy() returns (r: Outcome)
      modifies this
      ensures Run(Snapshot(), r) == CopyWord(old(Snapshot()))
    {
      var value := StackPop();
      if value.None? {
        return Fatal(EmptyStack);
      }
      StackPush(value.value, 0, |value.value|, false, true);
      StackPush(value.value, 0, |value.value|, false, true);
      return Ok;
    }

    method ExecDel() returns (r: Outcome)
      modifies this
      ensures Run(Snapshot(), r) == DelWord(old(Snapshot()))
    {
      var value := StackPop();
      if value.None? {
        return Fatal(EmptyStack);
      }
      return Ok;
    }

    method ExecSwap() returns (r: Outcome)
      modifies this
      ensures Run(Snapshot(), r) == SwapWord(old(Snapshot()))
    {
      var value2 := StackPop();
      if value2.None? {
        return Fatal(EmptyStack);
      }
      var value1 := StackPop();
      if value1.None? {
        return Fatal(EmptyStack);
      }
      StackPush(value2.value, 0, |value2.value|, false, true);
      StackPush(value1.value, 0, |value1.value|, false, true);
      return Ok;
    }

    /** `input`: `fgets` reads one line of standard input. */
    method ExecInput() returns (r: Outcome)
      modifies this
      ensures Run(Snapshot(), r) == InputWord(old(Snapshot()))
    {
      var n := LineLength(stdin);
      var line := CText(stdin[..n]);
      stdin := stdin[n..];
      StackPush(line, 0, |line|, false, true);
      return Ok;
    }

    method ExecSetShort(name: string) returns (r: Outcome)
      modifies this
      ensures Run(Snapshot(), r) == SetShortWord(old(Snapshot()), name)
    {
      var value := StackPop();
      if value.None? {
        return Fatal(EmptyStack);
      }
      SetVarValue(name, value.value);
      return Ok;
    }

    method ExecRandom(host: Host) returns (r: Outcome)
      modifies this
      ensures Run(Snapshot(), r) == RandomWord(host, old(Snapshot()))
    {
      var result := NumToStr(host.random(draws));
      draws := draws + 1;
      StackPushBuffer(result);
      return Ok;
    }

    method ExecNumber(host: Host, src: string, lo: nat, hi: nat) returns (r: Outcome)
      requires lo <= hi <= |src|
      modifies this
      ensures Run(Snapshot(), r) == NumberWord(host, old(Snapshot()), src[lo..hi])
    {
      var literal := CopySubstr(src, lo, hi);
      assert Span(src, lo, hi) == src[lo..hi];
      var result := NumToStr(host.literal(literal));
      StackPushBuffer(result);
      return Ok;
    }

    method ExecEval(host: Host, fuel: nat) returns (r: Outcome)
      modifies this
      ensures Run(Snapshot(), r) == EvalWord(host, fuel, old(Snapshot()))
      decreases fuel, 0
    {
      var value := StackPop();
      if value.None? {
        return Fatal(EmptyStack);
      }
      if fuel == 0 {
        return OutOfFuel;
      }
      r := Eval(host, fuel - 1, value.value);
    }

    method ExecIf(host: Host, fuel: nat) returns (r: Outcome)
      modifies this
      ensures Run(Snapshot(), r) == IfWord(host, fuel, old(Snapshot()))
      decreases fuel, 0
    {
      var elseBlock := StackPop();
      if elseBlock.None? {
        return Fatal(EmptyStack);
      }
      var ifBlock := StackPop();
      if ifBlock.None? {
        return Fatal(EmptyStack);
      }
      var condition := StackPop();
      if condition.None? {
        return Fatal(EmptyStack);
      }
      if fuel == 0 {
        return OutOfFuel;
      }
      r := Eval(host, fuel - 1, condition.value);
      if r != Ok {
        return;
      }
      var result := StackPop();
      if result.None? {
        return Fatal(EmptyStack);
      }
      if result.value != "0" {
        r := Eval(host, fuel - 1, ifBlock.value);
      } else {
        r := Eval(host, fuel - 1, elseBlock.value);
      }
    }

    /** The `while` word and its `while(true)` loop. */
    method ExecWhile(host: Host, fuel: nat) returns (r: Outcome)
      modifies this
      ensures Run(Snapshot(), r) == WhileWord(host, fuel, old(Snapshot()))
      decreases fuel, 1
    {
      var body := StackPop();
      if body.None? {
        return Fatal(EmptyStack);
      }
      var condition := StackPop();
      if condition.None? {
        return Fatal(EmptyStack);
      }
      var f: nat := fuel;
      while true
        invariant f <= fuel
        invariant WhileLoop(host, f, Snapshot(), condition.value, body.value) == WhileWord(host, fuel, old(Snapshot()))
        decreases f
      {
        if f == 0 {
          return OutOfFuel;
        }
        r := Eval(host, f - 1, condition.value);
        if r != Ok {
          return;
        }
        var result := StackPop();
        if result.None? {
          return Fatal(EmptyStack);
        }
        if result.value == "0" {
          return Ok;
        }
        r := Eval(host, f - 1, body.value);
        if r != Ok {
          return;
        }
        f := f - 1;
      }
    }

    method ExecCall(host: Host, fuel: nat, name: string) returns (r: Outcome)
      modifies this
      ensures Run(Snapshot(), r) == CallWord(host, fuel, old(Snapshot()), name)
      decreases fuel, 0
    {
      r := GetVarValue(name);
      if r != Ok {
        return;
      }
      var value := StackPop();
      if value.None? {
        return Fatal(EmptyStack);
      }
      if fuel == 0 {
        return OutOfFuel;
      }
      r := Eval(host, fuel - 1, value.value);
    }

    /** `eval_reserved_word` on the token `src[lo0..hi0]`. */
    method EvalReservedWord(host: Host, fuel: nat, src: string, lo0: nat, hi0: nat) returns (r: Outcome)
      requires lo0 < hi0 <= |src|
      modifies this
      ensures Run(Snapshot(), r) == DispatchSpec(host, fuel, old(Snapshot()), src, lo0, hi0)
      decreases fuel, 3
    {
      var lo := TrimStart(src, lo0, hi0);
      var hi := TrimEnd(src, lo, hi0);
      assert 1 <= hi by {
        if lo < hi0 { assert !IsSpace(src[lo]); }
      }
      var w := src[lo..hi];
      if IsKeyword(w) {
        r := ExecKeyword(host, fuel, w);
      } else {
        r := Shorthand(host, fuel, src, lo, hi);
      }
    }

    /** The exact words, tried in the order `eval_reserved_word` tries them. */
    method ExecKeyword(host: Host, fuel: nat, w: string) returns (r: Outcome)
      requires IsKeyword(w)
      modifies this
      ensures Run(Snapshot(), r) == KeywordSpec(host, fuel, old(Snapshot()), w)
      decreases fuel, 2
    {
      if w == "print" {
        r := ExecPrint();
      } else if w in BinaryWords {
        r := ExecBinary(host, w);
      } else if w in UnaryWords {
        r := ExecUnary(host, w);
      } else if w in CompareWords {
        r := ExecCompare(host, w);
      } else if w == "!" {
        r := ExecNot();
      } else if w == "&" || w == "|" {
        r := ExecLogic(w);
      } else if w == "eval" {
        r := ExecEval(host, fuel);
      } else if w == "set" {
        r := ExecSet();
      } else if w == "get" {
        r := ExecGet();
      } else if w == "if" {
        r := ExecIf(host, fuel);
      } else if w == "while" {
        r := ExecWhile(host, fuel);
      } else if w == "join" {
        r := ExecJoin();
      } else if w == "copy" {
        r := ExecCopy();
      } else if w == "del" {
        r := ExecDel();
      } else if w == "swap" {
        r := ExecSwap();
      } else {
        r := ExecInput();
      }
    }

    /** The part of `eval_reserved_word` after the exact words: the `>`, `@`
        and `%` shorthands, then the literals. */
    method Shorthand(host: Host, fuel: nat, src: string, lo: nat, hi: nat) returns (r: Outcome)
      requires 1 <= hi <= |src| && lo <= hi
      modifies this
      ensures Run(Snapshot(), r) == ShorthandSpec(host, fuel, old(Snapshot()), src, lo, hi)
      decreases fuel, 1, 2
    {
      ghost var s0 := Snapshot();
      ShorthandCases(host, fuel, s0, src, lo, hi);
      var isSet := CompChar(src, lo, '>');
      if isSet {
        var name := CopySubstr(src, lo + 1, hi);
        r := ExecSetShort(name);
        return;
      }
      var isGet := CompChar(src, lo, '@');
      if isGet {
        var name := CopySubstr(src, lo + 1, hi);
        r := GetVarValue(name);
        return;
      }
      r := CallOrLiteral(host, fuel, src, lo, hi);
    }

    /** The rest once neither '>' nor '@' leads the token: the `name%` call,
        then the literals. */
    method CallOrLiteral(host: Host, fuel: nat, src: string, lo: nat, hi: nat) returns (r: Outcome)
      requires 1 <= hi <= |src| && lo <= hi
      requires At(src, lo) != '>' && At(src, lo) != '@'
      modifies this
      ensures Run(Snapshot(), r) == ShorthandSpec(host, fuel, old(Snapshot()), src, lo, hi)
      decreases fuel, 1, 1
    {
      ghost var s0 := Snapshot();
      ShorthandCases(host, fuel, s0, src, lo, hi);
      var isCall := CompChar(src, hi - 1, '%');
      if isCall {
        r := ExecCallShorthand(host, fuel, src, lo, hi);
      } else {
        r := ExecLiteral(host, src, lo, hi);
      }
    }

    /** `name%`: run the text stored under `name`. */
    method ExecCallShorthand(host: Host, fuel: nat, src: string, lo: nat, hi: nat) returns (r: Outcome)
      requires 1 <= hi <= |src|
      modifies this
      ensures Run(Snapshot(), r) == CallWord(host, fuel, old(Snapshot()), Normalize(Span(src, lo, hi - 1)))
      decreases fuel, 1, 0
    {
      var name := CopySubstr(src, lo, hi - 1);
      r := ExecCall(host, fuel, name);
    }

    /** `random`, `exit`, a number literal or plain text. */
    method ExecLiteral(host: Host, src: string, lo: nat, hi: nat) returns (r: Outcome)
      requires lo <= hi <= |src|
      modifies this
      ensures Run(Snapshot(), r) == LiteralSpec(host, old(Snapshot()), src, lo, hi)
    {
      var w := src[lo..hi];
      if w == "random" {
        r := ExecRandom(host);
        return;
      }
      if w == "exit" {
        return Halt;
      }
      var isNumber := StrIsNum(src, lo, hi);
      assert Span(src, lo, hi) == w;
      if isNumber {
        r := ExecNumber(host, src, lo, hi);
      } else {
        StackPush(src, lo, hi, true, false);
        r := Ok;
      }
    }

    /** `eval`: the left-to-right scan over the text and its terminator. */
    method Eval(host: Host, fuel: nat, source: string) returns (r: Outcome)
      modifies this
      ensures Run(Snapshot(), r) == EvalSpec(host, fuel, old(Snapshot()), source)
      decreases fuel, 5
    {
      var src := CText(source);
      var codeLength := |src| + 1;
      var sc := Start;
      var i := 0;
      while i < codeLength
        invariant i <= codeLength
        invariant ScanSpec(host, fuel, Snapshot(), src, i, sc) == EvalSpec(host, fuel, old(Snapshot()), source)
        decreases codeLength - i
      {
        var done;
        i, sc, done, r := ScanStep(host, fuel, src, i, sc);
        if done {
          return;
        }
      }
      return Ok;
    }

    /** One pass of the loop of `eval` at position `i`: either the scan goes
        on at the returned position and scanner state, or it is `done` with
        outcome `r` (a fatal error, or `Ok` after `exit`). */
    method ScanStep(host: Host, fuel: nat, src: string, i: nat, sc: Scanner)
      returns (next: nat, sc': Scanner, done: bool, r: Outcome)
      requires i <= |src|
      modifies this
      ensures i < next <= |src| + 1
      ensures done ==> Run(Snapshot(), r) == ScanSpec(host, fuel, old(Snapshot()), src, i, sc)
      ensures !done ==> ScanSpec(host, fuel, Snapshot(), src, next, sc') == ScanSpec(host, fuel, old(Snapshot()), src, i, sc)
      decreases fuel, 4
    {
      var step := ScanAction(src, i, sc);
      next, sc', done, r := step.next, step.after, false, Ok;
      match step
      case Move(_, _) =>
      case PushText(lo, hi, trim, _, _) =>
        StackPush(src, lo, hi, trim, true);
      case RunToken(lo, hi, _, _) =>
        r := EvalReservedWord(host, fuel, src, lo, hi);
        if r == Halt {
          done, r := true, Ok;
        } else if r != Ok {
          done := true;
        }
    }
  }
}
