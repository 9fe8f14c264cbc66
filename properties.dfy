/** What the interpreter guarantees about its stack, its variables and the
    words that work on them, stated over the functions of module Semantics. */
module Properties {
  import opened Text
  import opened Numbers
  import opened Semantics

  // ---------------------------------------------------------------------
  // Pushing and popping

  /** `stack_push` touches nothing but the stack and adds at most one value
      on top: the span, trimmed when asked, with '\r' dropped and '\n' made a
      space; an empty span is only pushed with `pushempty`. */
  lemma PushSpanEffect(st: State, s: string, lo: nat, hi: nat, trim: bool, pushEmpty: bool)
    requires hi <= |s|
    ensures var r := PushSpan(st, s, lo, hi, trim, pushEmpty);
            var value := if trim then Trimmed(Span(s, lo, hi)) else Span(s, lo, hi);
            r.vars == st.vars && r.output == st.output && r.stdin == st.stdin && r.draws == st.draws
            && (if value == [] && !pushEmpty then r.stack == st.stack
                else r.stack == st.stack + [Normalize(value)])
  {
    if hi < lo {
      PushSpanReversed(st, s, lo, hi, trim, pushEmpty);
    } else {
      var f := if trim then TrimFrom(s, lo, hi) else lo;
      var t := if trim then TrimTo(s, f, hi) else hi;
      var value := if trim then Trimmed(Span(s, lo, hi)) else Span(s, lo, hi);
      assert Span(s, lo, hi) == s[lo..hi];
      if trim {
        TrimmedSpan(s, lo, hi);
      }
      assert value == Span(s, f, t);
      assert (value == []) == !(f < t);
    }
  }

  /** A span whose end lies before its start is empty, trimmed or not. */
  lemma PushSpanReversed(st: State, s: string, lo: nat, hi: nat, trim: bool, pushEmpty: bool)
    requires hi < lo && hi <= |s|
    ensures PushSpan(st, s, lo, hi, trim, pushEmpty)
            == if pushEmpty then st.(stack := st.stack + [[]]) else st
  {
    assert TrimFrom(s, lo, hi) == lo && TrimTo(s, lo, hi) == hi;
  }

  /** No value on the stack holds a line break. */
  predicate Clean(st: State) {
    forall k :: 0 <= k < |st.stack| ==> NoLineBreaks(st.stack[k])
  }

  /** What the scan keeps from one state to the next: a clean stack stays
      clean and output is only ever appended to. */
  predicate Keeps(a: State, b: State) {
    (Clean(a) ==> Clean(b)) && a.output <= b.output
  }

  lemma KeepsTransitive(a: State, b: State, c: State)
    requires Keeps(a, b) && Keeps(b, c)
    ensures Keeps(a, c)
  {
  }

  lemma PushSpanKeeps(st: State, s: string, lo: nat, hi: nat, trim: bool, pushEmpty: bool)
    requires hi <= |s|
    ensures Keeps(st, PushSpan(st, s, lo, hi, trim, pushEmpty))
    ensures PushSpan(st, s, lo, hi, trim, pushEmpty).stdin == st.stdin
  {
  }

  lemma PushBufferKeeps(st: State, t: string)
    ensures Keeps(st, PushBuffer(st, t))
  {
  }

  lemma DropKeeps(st: State)
    requires |st.stack| > 0
    ensures Keeps(st, Drop(st))
  {
  }

  /** Values a word pushes back come out as they went in when they were
      clean: `stack_push(v, 0, strlen(v), false, true)` is then a plain push. */
  lemma PushValueClean(st: State, v: string)
    requires NoLineBreaks(v)
    ensures PushValue(st, v) == st.(stack := st.stack + [v])
  {
    assert Span(v, 0, |v|) == v;
    NormalizeKeepsClean(v);
  }

  /** `stack_pop` of the pushed value gives it back and restores the stack. */
  lemma PushDropRoundTrip(st: State, v: string)
    requires NoLineBreaks(v)
    ensures var p := PushValue(st, v);
            |p.stack| > 0 && Top(p) == v && Drop(p) == st
  {
    PushValueClean(st, v);
    assert (st.stack + [v])[..|st.stack|] == st.stack;
  }

  // ---------------------------------------------------------------------
  // Variable store

  /** After `set_var_value(n, v)`, `n` is bound to `v`, every other binding is
      as it was, a new name is added and an existing one keeps its place. */
  lemma SetVarEffect(st: State, name: string, value: string)
    ensures var r := SetVar(st, name, value);
            name in r.vars && r.vars[name] == value
            && r.vars.Keys == st.vars.Keys + {name}
            && (forall n :: n in st.vars && n != name ==> r.vars[n] == st.vars[n])
            && r.stack == st.stack && r.output == st.output
  {
  }

  /** The last write wins. */
  lemma SetVarTwice(st: State, name: string, v1: string, v2: string)
    ensures SetVar(SetVar(st, name, v1), name, v2) == SetVar(st, name, v2)
  {
    assert SetVar(SetVar(st, name, v1), name, v2).vars == st.vars[name := v2];
  }

  /** `get_var_value` pushes the stored value trimmed; an unknown name is
      reported on standard output and is fatal. */
  lemma GetVarEffect(st: State, name: string)
    ensures var g := GetVar(st, name);
            if name in st.vars then
              g.outcome == Ok && g.st == st.(stack := st.stack + [Normalize(Trimmed(st.vars[name]))])
            else
              g.outcome == Fatal(VarNotFound)
              && g.st == st.(output := st.output + "When trying to get variable: " + name + "\r\n")
  {
    if name in st.vars {
      var v := st.vars[name];
      PushSpanEffect(st, v, 0, |v|, true, true);
      assert v[0..|v|] == v;
    }
  }

  /** The text of a value that trimming and normalising leave alone. */
  predicate Stored(v: string) {
    NoLineBreaks(v) && (|v| > 0 ==> !IsSpace(v[0]) && !IsSpace(v[|v| - 1]))
  }

  /** A trimmed, clean value stored with `set` comes back unchanged. */
  lemma SetGetRoundTrip(st: State, name: string, v: string)
    requires Stored(v)
    ensures GetVar(SetVar(st, name, v), name) == Run(SetVar(st, name, v).(stack := st.stack + [v]), Ok)
  {
    GetVarEffect(SetVar(st, name, v), name);
    if |v| > 0 {
      assert TrimFrom(v, 0, |v|) == 0;
      assert TrimTo(v, 0, |v|) == |v|;
    }
    assert Trimmed(v) == v;
    NormalizeKeepsClean(v);
  }

  /** The `set` word pops the name first, then the value. */
  lemma SetWordOrder(st: State, value: string, name: string)
    ensures SetWord(st.(stack := st.stack + [value, name])) == Run(SetVar(st, name, value), Ok)
  {
    var st2 := st.(stack := st.stack + [value, name]);
    assert Drop(st2).stack == st.stack + [value];
    assert Drop(Drop(st2)).stack == st.stack;
  }

  // ---------------------------------------------------------------------
  // Stack words

  /** A state whose two top values are `a` under `b`. */
  function WithTop2(st: State, a: string, b: string): State {
    st.(stack := st.stack + [a, b])
  }

  /** `swap` exchanges the two top values, so doing it twice is no change. */
  lemma SwapEffect(st: State, a: string, b: string)
    requires NoLineBreaks(a) && NoLineBreaks(b)
    ensures SwapWord(WithTop2(st, a, b)) == Run(WithTop2(st, b, a), Ok)
  {
    var s0 := WithTop2(st, a, b);
    assert Drop(s0).stack == st.stack + [a];
    assert Drop(Drop(s0)).stack == st.stack;
    PushValueClean(st, b);
    PushValueClean(st.(stack := st.stack + [b]), a);
    assert st.stack + [b] + [a] == st.stack + [b, a];
  }

  lemma SwapTwice(st: State, a: string, b: string)
    requires NoLineBreaks(a) && NoLineBreaks(b)
    ensures SwapWord(SwapWord(WithTop2(st, a, b)).st) == Run(WithTop2(st, a, b), Ok)
  {
    SwapEffect(st, a, b);
    SwapEffect(st, b, a);
  }

  /** `copy` leaves two copies of the top. */
  lemma CopyEffect(st: State, a: string)
    requires NoLineBreaks(a)
    ensures CopyWord(st.(stack := st.stack + [a])) == Run(WithTop2(st, a, a), Ok)
  {
    var s0 := st.(stack := st.stack + [a]);
    assert Drop(s0).stack == st.stack;
    PushValueClean(st, a);
    PushValueClean(st.(stack := st.stack + [a]), a);
    assert st.stack + [a] + [a] == st.stack + [a, a];
  }

  /** `del` drops the top. */
  lemma DelEffect(st: State, a: string)
    ensures DelWord(st.(stack := st.stack + [a])) == Run(st, Ok)
  {
    assert (st.stack + [a])[..|st.stack|] == st.stack;
  }

  /** `join` replaces the two top values by the lower one followed by the top. */
  lemma JoinEffect(st: State, a: string, b: string)
    requires NoLineBreaks(a) && NoLineBreaks(b)
    ensures JoinWord(WithTop2(st, a, b)) == Run(st.(stack := st.stack + [a + b]), Ok)
  {
    var s0 := WithTop2(st, a, b);
    assert Drop(s0).stack == st.stack + [a];
    assert Drop(Drop(s0)).stack == st.stack;
    PushValueClean(st, a + b);
  }

  /** Every stack word fails with "cannot pop from an empty stack" on an
      empty stack and changes nothing. */
  lemma StackWordsOnEmpty(st: State)
    requires st.stack == []
    ensures SwapWord(st) == Run(st, Fatal(EmptyStack)) && CopyWord(st) == Run(st, Fatal(EmptyStack))
    ensures DelWord(st) == Run(st, Fatal(EmptyStack)) && JoinWord(st) == Run(st, Fatal(EmptyStack))
    ensures PrintWord(st) == Run(st, Fatal(EmptyStack)) && SetWord(st) == Run(st, Fatal(EmptyStack))
  {
  }

  /** Arithmetic pops both operands before it looks at them: a non-number
      costs both values and is fatal. */
  lemma ArithmeticNonNumber(host: Host, st: State, word: string, a: string, b: string)
    requires !IsNumber(a) || !IsNumber(b)
    ensures BinaryWord(host, WithTop2(st, a, b), word) == Run(st, Fatal(NonNumeric))
  {
    var s0 := WithTop2(st, a, b);
    assert Drop(s0).stack == st.stack + [a];
    assert Drop(Drop(s0)).stack == st.stack;
  }

  // ---------------------------------------------------------------------
  // Truthiness

  /** Pushing a flag pushes "1" or "0" as it is. */
  lemma PushFlag(st: State, b: bool)
    ensures PushBuffer(st, Flag(b)) == st.(stack := st.stack + [Flag(b)])
  {
    var t := Flag(b);
    assert TrimFrom(t, 0, |t|) == 0;
    assert t[0..] == t;
    assert NoLineBreaks(t);
    NormalizeKeepsClean(t);
  }

  /** `!` pushes "1" exactly when the top was the text "0". */
  lemma NotEffect(st: State, a: string)
    ensures NotWord(st.(stack := st.stack + [a])) == Run(st.(stack := st.stack + [Flag(a == "0")]), Ok)
  {
    assert Drop(st.(stack := st.stack + [a])).stack == st.stack;
    PushFlag(st, a == "0");
  }

  /** `&` and `|` push "1" or "0" after reading both values textually. */
  lemma LogicEffect(st: State, word: string, a: string, b: string)
    ensures LogicWord(WithTop2(st, a, b), word)
            == Run(st.(stack := st.stack + [Flag(if word == "&" then a != "0" && b != "0" else a != "0" || b != "0")]), Ok)
  {
    var s0 := WithTop2(st, a, b);
    assert Drop(s0).stack == st.stack + [a];
    assert Drop(Drop(s0)).stack == st.stack;
    PushFlag(st, if word == "&" then a != "0" && b != "0" else a != "0" || b != "0");
  }

  /** Truth is textual: "0.0", "00" and the empty text are all true. */
  lemma OnlyZeroIsFalse()
    ensures !Truthy("0") && Truthy("0.0") && Truthy("00") && Truthy("") && Truthy(" 0")
  {
    assert |"0.0"| != |"0"| && |"00"| != |"0"| && |" 0"| != |"0"|;
  }

  /** `!` twice turns any value into its flag. */
  lemma NotTwice(st: State, a: string)
    ensures var s1 := NotWord(st.(stack := st.stack + [a])).st;
            NotWord(s1) == Run(st.(stack := st.stack + [Flag(a != "0")]), Ok)
  {
    NotEffect(st, a);
    NotEffect(st, Flag(a == "0"));
  }
}
