/** What holds of every run of the interpreter, whatever the source text:
    no value on the stack ever holds a line break, output is only appended
    to, and `exit` ends no more than the scan it occurs in. */
module Invariants {
  import opened Text
  import opened Numbers
  import opened Semantics
  import opened Properties
  import opened Scanning

  // ---------------------------------------------------------------------
  // Words that do not evaluate code

  lemma GetVarKeeps(st: State, name: string)
    ensures Keeps(st, GetVar(st, name).st)
  {
  }

  lemma PrintKeeps(st: State)
    ensures Keeps(st, PrintWord(st).st)
  {
  }

  lemma NotKeeps(st: State)
    ensures Keeps(st, NotWord(st).st)
  {
  }

  lemma SetKeeps(st: State)
    ensures Keeps(st, SetWord(st).st)
  {
  }

  lemma GetKeeps(st: State)
    ensures Keeps(st, GetWord(st).st)
  {
  }

  lemma JoinKeeps(st: State)
    ensures Keeps(st, JoinWord(st).st)
  {
  }

  lemma CopyKeeps(st: State)
    ensures Keeps(st, CopyWord(st).st)
  {
  }

  lemma DelKeeps(st: State)
    ensures Keeps(st, DelWord(st).st)
  {
  }

  lemma SwapKeeps(st: State)
    ensures Keeps(st, SwapWord(st).st)
  {
  }

  lemma InputKeeps(st: State)
    ensures Keeps(st, InputWord(st).st)
  {
  }

  lemma BinaryKeeps(host: Host, st: State, w: string)
    ensures Keeps(st, BinaryWord(host, st, w).st)
  {
  }

  lemma UnaryKeeps(host: Host, st: State, w: string)
    ensures Keeps(st, UnaryWord(host, st, w).st)
  {
  }

  lemma CompareKeeps(host: Host, st: State, w: string)
    ensures Keeps(st, CompareWord(host, st, w).st)
  {
  }

  lemma LogicKeeps(st: State, w: string)
    ensures Keeps(st, LogicWord(st, w).st)
  {
  }

  lemma SetShortKeeps(st: State, w: string)
    ensures Keeps(st, SetShortWord(st, w).st)
  {
  }

  lemma RandomKeeps(host: Host, st: State)
    ensures Keeps(st, RandomWord(host, st).st)
  {
  }

  lemma NumberKeeps(host: Host, st: State, w: string)
    ensures Keeps(st, NumberWord(host, st, w).st)
  {
  }

  // ---------------------------------------------------------------------
  // The scan and the words that evaluate code, by one induction over the
  // ranks the functions of module Semantics decrease by

  lemma {:induction false} EvalWordKeeps(host: Host, fuel: nat, st: State)
    ensures Keeps(st, EvalWord(host, fuel, st).st)
    decreases fuel, 0
  {
    if |st.stack| > 0 {
      DropKeeps(st);
      if fuel > 0 {
        EvalKeeps(host, fuel - 1, Drop(st), Top(st));
        KeepsTransitive(st, Drop(st), EvalWord(host, fuel, st).st);
      }
    }
  }

  /** The condition and then one branch run on what is left after the three
      pops. */
  lemma {:induction false} IfKeeps(host: Host, fuel: nat, st: State)
    ensures Keeps(st, IfWord(host, fuel, st).st)
    decreases fuel, 0
  {
    if |st.stack| > 0 && |Drop(st).stack| > 0 && |Drop(Drop(st)).stack| > 0 {
      var s3 := Drop(Drop(Drop(st)));
      assert Keeps(st, s3);
      if fuel > 0 {
        var c := EvalSpec(host, fuel - 1, s3, Top(Drop(Drop(st))));
        EvalKeeps(host, fuel - 1, s3, Top(Drop(Drop(st))));
        if c.outcome == Ok && |c.st.stack| > 0 {
          DropKeeps(c.st);
          EvalKeeps(host, fuel - 1, Drop(c.st), Top(Drop(st)));
          EvalKeeps(host, fuel - 1, Drop(c.st), Top(st));
        }
      }
    }
  }

  lemma {:induction false} WhileLoopKeeps(host: Host, fuel: nat, st: State, cond: string, body: string)
    ensures Keeps(st, WhileLoop(host, fuel, st, cond, body).st)
    decreases fuel, 0
  {
    if fuel > 0 {
      var c := EvalSpec(host, fuel - 1, st, cond);
      EvalKeeps(host, fuel - 1, st, cond);
      if c.outcome == Ok && |c.st.stack| > 0 {
        DropKeeps(c.st);
        if Truthy(Top(c.st)) {
          var b := EvalSpec(host, fuel - 1, Drop(c.st), body);
          EvalKeeps(host, fuel - 1, Drop(c.st), body);
          if b.outcome == Ok {
            WhileLoopKeeps(host, fuel - 1, b.st, cond, body);
          }
        }
      }
    }
  }

  lemma {:induction false} WhileWordKeeps(host: Host, fuel: nat, st: State)
    ensures Keeps(st, WhileWord(host, fuel, st).st)
    decreases fuel, 1
  {
    if |st.stack| > 0 && |Drop(st).stack| > 0 {
      var s2 := Drop(Drop(st));
      WhileLoopKeeps(host, fuel, s2, Top(Drop(st)), Top(st));
    }
  }

  lemma {:induction false} CallKeeps(host: Host, fuel: nat, st: State, name: string)
    ensures Keeps(st, CallWord(host, fuel, st, name).st)
    decreases fuel, 0
  {
    var g := GetVar(st, name);
    GetVarKeeps(st, name);
    if g.outcome == Ok && |g.st.stack| > 0 {
      DropKeeps(g.st);
      if fuel > 0 {
        EvalKeeps(host, fuel - 1, Drop(g.st), Top(g.st));
      }
    }
  }

  lemma {:induction false} ShorthandKeeps(host: Host, fuel: nat, st: State, src: string, lo: nat, hi: nat)
    requires 1 <= hi <= |src| && lo <= hi
    ensures Keeps(st, ShorthandSpec(host, fuel, st, src, lo, hi).st)
    decreases fuel, 1
  {
    if At(src, lo) == '>' { SetShortKeeps(st, Normalize(Span(src, lo + 1, hi))); }
    else if At(src, lo) == '@' { GetVarKeeps(st, Normalize(Span(src, lo + 1, hi))); }
    else if At(src, hi - 1) == '%' { CallKeeps(host, fuel, st, Normalize(Span(src, lo, hi - 1))); }
    else { LiteralKeeps(host, st, src, lo, hi); }
  }

  lemma LiteralKeeps(host: Host, st: State, src: string, lo: nat, hi: nat)
    requires lo <= hi <= |src|
    ensures Keeps(st, LiteralSpec(host, st, src, lo, hi).st)
  {
    var w := src[lo..hi];
    if w == "random" { RandomKeeps(host, st); }
    else if w == "exit" { }
    else if IsNumber(w) { NumberKeeps(host, st, w); }
    else { PushSpanKeeps(st, src, lo, hi, true, false); }
  }

  lemma {:induction false} DispatchKeeps(host: Host, fuel: nat, st: State, src: string, lo0: nat, hi0: nat)
    requires lo0 < hi0 <= |src|
    ensures Keeps(st, DispatchSpec(host, fuel, st, src, lo0, hi0).st)
    decreases fuel, 3
  {
    var lo := TrimFrom(src, lo0, hi0);
    var hi := TrimTo(src, lo, hi0);
    if lo < hi0 { assert !IsSpace(src[lo]); }
    var w := src[lo..hi];
    if IsKeyword(w) {
      KeywordKeeps(host, fuel, st, w);
    } else {
      ShorthandKeeps(host, fuel, st, src, lo, hi);
    }
  }

  lemma {:induction false} KeywordKeeps(host: Host, fuel: nat, st: State, w: string)
    requires IsKeyword(w)
    ensures Keeps(st, KeywordSpec(host, fuel, st, w).st)
    decreases fuel, 2
  {
    if w == "print" { PrintKeeps(st); }
    else if w in BinaryWords { BinaryKeeps(host, st, w); }
    else if w in UnaryWords { UnaryKeeps(host, st, w); }
    else if w in CompareWords { CompareKeeps(host, st, w); }
    else if w == "!" { NotKeeps(st); }
    else if w == "&" || w == "|" { LogicKeeps(st, w); }
    else if w == "eval" { EvalWordKeeps(host, fuel, st); }
    else if w == "set" { SetKeeps(st); }
    else if w == "get" { GetKeeps(st); }
    else if w == "if" { IfKeeps(host, fuel, st); }
    else if w == "while" { WhileWordKeeps(host, fuel, st); }
    else if w == "join" { JoinKeeps(st); }
    else if w == "copy" { CopyKeeps(st); }
    else if w == "del" { DelKeeps(st); }
    else if w == "swap" { SwapKeeps(st); }
    else { InputKeeps(st); }
  }

  lemma {:induction false} ScanKeeps(host: Host, fuel: nat, st: State, src: string, i: nat, sc: Scanner)
    requires i <= |src| + 1
    ensures Keeps(st, ScanSpec(host, fuel, st, src, i, sc).st)
    decreases fuel, 4, |src| + 1 - i
  {
    if i <= |src| {
      match ScanAction(src, i, sc)
      case Move(next, after) =>
        ScanKeeps(host, fuel, st, src, next, after);
      case PushText(lo, hi, trim, next, after) =>
        var s1 := PushSpan(st, src, lo, hi, trim, true);
        PushSpanKeeps(st, src, lo, hi, trim, true);
        ScanKeeps(host, fuel, s1, src, next, after);
        KeepsTransitive(st, s1, ScanSpec(host, fuel, s1, src, next, after).st);
      case RunToken(lo, hi, next, after) =>
        var d := DispatchSpec(host, fuel, st, src, lo, hi);
        DispatchKeeps(host, fuel, st, src, lo, hi);
        ScanKeeps(host, fuel, d.st, src, next, after);
        KeepsTransitive(st, d.st, ScanSpec(host, fuel, d.st, src, next, after).st);
    }
  }

  /** Running any source from a clean state leaves the stack clean and only
      appends to the output: no value ever holds '\r' or '\n'. */
  lemma {:induction false} EvalKeeps(host: Host, fuel: nat, st: State, source: string)
    ensures Keeps(st, EvalSpec(host, fuel, st, source).st)
    decreases fuel, 5
  {
    ScanKeeps(host, fuel, st, CText(source), 0, Start);
  }

  // ---------------------------------------------------------------------
  // exit

  /** A scan turns the `Halt` of `exit` into a normal end: it never halts. */
  lemma {:induction false} ScanNeverHalts(host: Host, fuel: nat, st: State, src: string, i: nat, sc: Scanner)
    requires i <= |src| + 1
    ensures ScanSpec(host, fuel, st, src, i, sc).outcome != Halt
    decreases |src| + 1 - i
  {
    if i <= |src| {
      match ScanAction(src, i, sc)
      case Move(next, after) =>
        ScanNeverHalts(host, fuel, st, src, next, after);
      case PushText(lo, hi, trim, next, after) =>
        ScanNeverHalts(host, fuel, PushSpan(st, src, lo, hi, trim, true), src, next, after);
      case RunToken(lo, hi, next, after) =>
        ScanNeverHalts(host, fuel, DispatchSpec(host, fuel, st, src, lo, hi).st, src, next, after);
    }
  }

  /** So `exit` inside `eval`, `if`, `while` or `name%` ends only the nested
      scan: none of these words halts the scan that runs it. */
  lemma NestedExitIsLocal(host: Host, fuel: nat, st: State, name: string)
    ensures EvalWord(host, fuel, st).outcome != Halt
    ensures IfWord(host, fuel, st).outcome != Halt
    ensures WhileWord(host, fuel, st).outcome != Halt
    ensures CallWord(host, fuel, st, name).outcome != Halt
  {
    forall s: State, f: nat, src: string
      ensures EvalSpec(host, f, s, src).outcome != Halt
    {
      ScanNeverHalts(host, f, s, CText(src), 0, Start);
    }
    WhileLoopNeverHalts(host, fuel);
  }

  lemma {:induction false} WhileLoopNeverHalts(host: Host, fuel: nat)
    ensures forall s: State, cond: string, body: string :: WhileLoop(host, fuel, s, cond, body).outcome != Halt
    decreases fuel
  {
    forall s: State, cond: string, body: string
      ensures WhileLoop(host, fuel, s, cond, body).outcome != Halt
    {
      if fuel > 0 {
        ScanNeverHalts(host, fuel - 1, s, CText(cond), 0, Start);
        var c := EvalSpec(host, fuel - 1, s, cond);
        if c.outcome == Ok && |c.st.stack| > 0 {
          ScanNeverHalts(host, fuel - 1, Drop(c.st), CText(body), 0, Start);
          WhileLoopNeverHalts(host, fuel - 1);
        }
      }
    }
  }

  /** The scan stops at an `exit` token: what follows it is never looked at
      and the state is the one before the token. */
  lemma ExitEndsScan(host: Host, fuel: nat, st: State, src: string, i: nat, sc: Scanner)
    requires i <= |src| && sc.tokenStart < i
    requires sc.depth == 0 && !sc.inComment && !sc.inQuoted
    requires IsDelimiter(At(src, i))
    requires Token(src, sc.tokenStart, i) == "exit"
    ensures ScanSpec(host, fuel, st, src, i, sc) == Run(st, Ok)
  {
    assert ScanAction(src, i, sc) == RunToken(sc.tokenStart, i, i + 1, sc.(tokenStart := i));
    ScanRuns(host, fuel, st, src, i, sc, sc.tokenStart, i, i + 1, sc.(tokenStart := i));
    ExitHalts(host, fuel, st, src, sc.tokenStart, i);
  }

  // ---------------------------------------------------------------------
  // Control words: truth is the text "0"

  /** `if` pops the else-block, then the if-block, then the condition; it runs
      the condition and then the if-block unless the result popped is "0". */
  lemma IfChoosesBranch(host: Host, fuel: nat, st: State, cond: string, ifBlock: string, elseBlock: string)
    requires fuel > 0
    ensures var s0 := st.(stack := st.stack + [cond, ifBlock, elseBlock]);
            var c := EvalSpec(host, fuel - 1, st, cond);
            IfWord(host, fuel, s0)
            == if c.outcome != Ok then c
               else if |c.st.stack| == 0 then Run(c.st, Fatal(EmptyStack))
               else EvalSpec(host, fuel - 1, Drop(c.st), if Top(c.st) != "0" then ifBlock else elseBlock)
  {
    var s0 := st.(stack := st.stack + [cond, ifBlock, elseBlock]);
    assert Drop(s0).stack == st.stack + [cond, ifBlock];
    assert Drop(Drop(s0)).stack == st.stack + [cond];
    assert Drop(Drop(Drop(s0))) == st;
  }

  /** `while` pops the body, then the condition, and loops on them. */
  lemma WhilePops(host: Host, fuel: nat, st: State, cond: string, body: string)
    ensures WhileWord(host, fuel, st.(stack := st.stack + [cond, body])) == WhileLoop(host, fuel, st, cond, body)
  {
    var s0 := st.(stack := st.stack + [cond, body]);
    assert Drop(s0).stack == st.stack + [cond];
    assert Drop(Drop(s0)) == st;
  }

  /** A round of `while` ends the loop when the condition leaves "0", and is
      otherwise followed by the same loop on the state the body leaves. */
  lemma WhileRound(host: Host, fuel: nat, st: State, cond: string, body: string)
    ensures var c := EvalSpec(host, fuel, st, cond);
            c.outcome == Ok && |c.st.stack| > 0 ==>
              (Top(c.st) == "0" ==> WhileLoop(host, fuel + 1, st, cond, body) == Run(Drop(c.st), Ok))
              && (Top(c.st) != "0" ==>
                    var b := EvalSpec(host, fuel, Drop(c.st), body);
                    WhileLoop(host, fuel + 1, st, cond, body)
                    == if b.outcome == Ok then WhileLoop(host, fuel, b.st, cond, body) else b)
  {
  }
}
