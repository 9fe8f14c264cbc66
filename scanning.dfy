/** What the scan of `eval` does with blocks, quoted text and comments, and
    how `eval_reserved_word` decides between words, shorthands, numbers and
    plain text. */
module Scanning {
  import opened Text
  import opened Numbers
  import opened Semantics

  // ---------------------------------------------------------------------
  // Runs of steps that only move on

  /** From position `k` in scanner state `sc` the scan reaches position `j`
      in state `sc2` by steps that neither push nor run a token. */
  predicate MovesTo(src: string, k: nat, sc: Scanner, j: nat, sc2: Scanner)
    requires k <= j <= |src|
    decreases j - k
  {
    if k == j then sc == sc2
    else
      var a := ScanAction(src, k, sc);
      a.Move? && a.next <= j && MovesTo(src, a.next, a.after, j, sc2)
  }

  /** Such a run changes nothing: the scan from `k` is the scan from `j`. */
  lemma {:induction false} ScanFollows(host: Host, fuel: nat, st: State, src: string, k: nat, sc: Scanner, j: nat, sc2: Scanner)
    requires k <= j <= |src| && MovesTo(src, k, sc, j, sc2)
    ensures ScanSpec(host, fuel, st, src, k, sc) == ScanSpec(host, fuel, st, src, j, sc2)
    decreases j - k
  {
    if k < j {
      var a := ScanAction(src, k, sc);
      ScanMoves(host, fuel, st, src, k, sc, a.next, a.after);
      ScanFollows(host, fuel, st, src, a.next, a.after, j, sc2);
    }
  }

  /** A run of moves that ends in a push of the text `lo..hi`: the scan
      goes on with that text on the stack. */
  lemma RunThenPush(host: Host, fuel: nat, st: State, st2: State, src: string, i: nat, sc: Scanner,
                    j: nat, sc1: Scanner, lo: nat, hi: nat, trim: bool, next: nat, after: Scanner)
    requires i <= j < |src| && MovesTo(src, i, sc, j, sc1)
    requires ScanAction(src, j, sc1) == PushText(lo, hi, trim, next, after)
    requires hi <= |src| && PushSpan(st, src, lo, hi, trim, true) == st2
    ensures ScanSpec(host, fuel, st, src, i, sc) == ScanSpec(host, fuel, st2, src, next, after)
  {
    ScanFollows(host, fuel, st, src, i, sc, j, sc1);
    ScanPushes(host, fuel, st, src, j, sc1, lo, hi, trim, next, after);
  }

  // ---------------------------------------------------------------------
  // Blocks

  function Delta(c: char): int {
    if c == '(' then 1 else if c == ')' then -1 else 0
  }

  /** Opening minus closing parentheses among the first `k` characters. */
  function Nesting(b: string, k: nat): int
    requires k <= |b|
  {
    if k == 0 then 0 else Nesting(b, k - 1) + Delta(b[k - 1])
  }

  /** No prefix of the first `k` characters closes more than it opened. */
  predicate NeverBelow(b: string, k: nat)
    requires k <= |b|
  {
    Nesting(b, k) >= 0 && (k == 0 || NeverBelow(b, k - 1))
  }

  /** Parentheses that match: no prefix closes more than it opened. */
  predicate Balanced(b: string) {
    Nesting(b, |b|) == 0 && NeverBelow(b, |b|)
  }

  lemma {:induction false} NeverBelowAt(b: string, k: nat, m: nat)
    requires m <= k <= |b| && NeverBelow(b, k)
    ensures Nesting(b, m) >= 0
    decreases k
  {
    if m < k {
      NeverBelowAt(b, k - 1, m);
    }
  }

  /** Neither comment marker starts at position `k` or later. */
  predicate NoMarksFrom(b: string, k: nat)
    decreases |b| - k
  {
    k + 1 >= |b|
    || (!(b[k] == '/' && b[k + 1] == '*') && !(b[k] == '*' && b[k + 1] == '/') && NoMarksFrom(b, k + 1))
  }

  /** Neither comment marker occurs. */
  predicate NoCommentMarks(b: string) {
    NoMarksFrom(b, 0)
  }

  lemma {:induction false} NoMarkAt(b: string, k: nat, m: nat)
    requires k <= m && m + 1 < |b| && NoMarksFrom(b, k)
    ensures !(b[m] == '/' && b[m + 1] == '*') && !(b[m] == '*' && b[m + 1] == '/')
    decreases m - k
  {
    if k < m {
      NoMarkAt(b, k + 1, m);
    }
  }

  /** Where the scan goes from position `k` outside comments: past an
      escaped quote in one step, otherwise to the next character. */
  function Skip(src: string, k: nat): nat
    requires k < |src|
  {
    if src[k] == '\\' && At(src, k + 1) == '"' then k + 2 else k + 1
  }

  /** One step of the scan inside a block, away from comment markers and
      from the parenthesis that closes it: only the depth changes. */
  lemma BlockStep(src: string, k: nat, d: nat, t: nat)
    requires k < |src| && d >= 1 && !(src[k] == ')' && d == 1)
    requires !(src[k] == '/' && At(src, k + 1) == '*') && !(src[k] == '*' && At(src, k + 1) == '/')
    ensures d + Delta(src[k]) >= 1
    ensures ScanAction(src, k, Scanner(false, d, false, t)) == Move(Skip(src, k), Scanner(false, d + Delta(src[k]), false, t))
  {
  }

  /** The '(' that opens a block at depth 0 starts its text. */
  lemma BlockOpen(src: string, i: nat, t: nat)
    requires i < |src| && src[i] == '('
    ensures ScanAction(src, i, Scanner(false, 0, false, t)) == Move(i + 1, Scanner(false, 1, false, i))
  {
  }

  /** The ')' that closes it pushes the text after the '(' trimmed. */
  lemma BlockClose(src: string, j: nat, t: nat)
    requires j < |src| && src[j] == ')' && t < j
    ensures ScanAction(src, j, Scanner(false, 1, false, t))
            == PushText(t + 1, j, true, j + 1, Scanner(false, 0, false, j + 1))
  {
  }

  /** What the scan sees at position `k` strictly inside a matching block:
      no comment marker, and the nesting after the step is still that of a
      position inside. */
  lemma InsideBlock(src: string, i: nat, j: nat, k: nat)
    requires i < k < j < |src| && src[j] == ')'
    requires Balanced(src[i + 1..j]) && NoCommentMarks(src[i + 1..j])
    ensures !(src[k] == '/' && At(src, k + 1) == '*') && !(src[k] == '*' && At(src, k + 1) == '/')
    ensures Skip(src, k) <= j
    ensures var b := src[i + 1..j];
            Nesting(b, Skip(src, k) - (i + 1)) == Nesting(b, k - (i + 1)) + Delta(src[k])
            && Nesting(b, k - (i + 1)) >= 0 && Nesting(b, Skip(src, k) - (i + 1)) >= 0
  {
    var b := src[i + 1..j];
    var m := k - (i + 1);
    assert b[m] == src[k];
    if k + 1 < j {
      assert b[m + 1] == src[k + 1];
      NoMarkAt(b, 0, m);
    }
    NeverBelowAt(b, |b|, m);
    NeverBelowAt(b, |b|, Skip(src, k) - (i + 1));
  }

  /** Inside a block, the scan only counts parentheses until the one that
      closes it. */
  lemma {:induction false} BlockInner(src: string, i: nat, j: nat, k: nat, d: nat, t: nat)
    requires i < k <= j < |src| && src[j] == ')'
    requires Balanced(src[i + 1..j]) && NoCommentMarks(src[i + 1..j])
    requires d == 1 + Nesting(src[i + 1..j], k - (i + 1))
    ensures MovesTo(src, k, Scanner(false, d, false, t), j, Scanner(false, 1, false, t))
    decreases j - k
  {
    if k < j {
      InsideBlock(src, i, j, k);
      BlockStep(src, k, d, t);
      BlockInner(src, i, j, Skip(src, k), d + Delta(src[k]), t);
    }
  }

  /** A block `( ... )` at depth 0 whose parentheses match is pushed as one
      value, the text strictly between the outer parentheses trimmed (also
      when it is empty), and the scan goes on after it. */
  lemma BlockPushed(host: Host, fuel: nat, st: State, src: string, i: nat, j: nat, t: nat)
    requires i < j < |src| && src[i] == '(' && src[j] == ')'
    requires Balanced(src[i + 1..j]) && NoCommentMarks(src[i + 1..j])
    ensures ScanSpec(host, fuel, st, src, i, Scanner(false, 0, false, t))
            == ScanSpec(host, fuel, st.(stack := st.stack + [Normalize(Trimmed(src[i + 1..j]))]),
                        src, j + 1, Scanner(false, 0, false, j + 1))
  {
    BlockRun(src, i, j, t);
    BlockClose(src, j, i);
    BlockText(st, src, i + 1, j);
    RunThenPush(host, fuel, st, st.(stack := st.stack + [Normalize(Trimmed(src[i + 1..j]))]), src,
                i, Scanner(false, 0, false, t), j, Scanner(false, 1, false, i),
                i + 1, j, true, j + 1, Scanner(false, 0, false, j + 1));
  }

  /** From the '(' the scan moves to the matching ')' at depth 1. */
  lemma BlockRun(src: string, i: nat, j: nat, t: nat)
    requires i < j < |src| && src[i] == '(' && src[j] == ')'
    requires Balanced(src[i + 1..j]) && NoCommentMarks(src[i + 1..j])
    ensures MovesTo(src, i, Scanner(false, 0, false, t), j, Scanner(false, 1, false, i))
  {
    BlockOpen(src, i, t);
    BlockInner(src, i, j, i + 1, 1, i);
  }

  /** What the closing ')' pushes: the text after the '(', trimmed. */
  lemma BlockText(st: State, src: string, lo: nat, hi: nat)
    requires lo <= hi <= |src|
    ensures PushSpan(st, src, lo, hi, true, true) == st.(stack := st.stack + [Normalize(Trimmed(src[lo..hi]))])
  {
    TrimmedSpan(src, lo, hi);
  }

  // ---------------------------------------------------------------------
  // Quoted text

  /** Every '"' of the text is escaped by a backslash, and the text does not
      end in a backslash (which would escape the closing quote). */
  predicate QuotedBody(b: string) {
    (forall k :: 0 <= k < |b| && b[k] == '"' ==> k > 0 && b[k - 1] == '\\')
    && (|b| > 0 ==> b[|b| - 1] != '\\')
  }

  /** Inside quotes only an escaped quote is stepped over as a pair. */
  lemma QuoteStep(src: string, k: nat, t: nat)
    requires k < |src| && src[k] != '"'
    ensures ScanAction(src, k, Scanner(false, 0, true, t)) == Move(Skip(src, k), Scanner(false, 0, true, t))
  {
  }

  lemma QuoteOpen(src: string, i: nat, t: nat)
    requires i < |src| && src[i] == '"'
    ensures ScanAction(src, i, Scanner(false, 0, false, t)) == Move(i + 1, Scanner(false, 0, true, i))
  {
  }

  lemma QuoteClose(src: string, j: nat, t: nat)
    requires j < |src| && src[j] == '"' && t < j
    ensures ScanAction(src, j, Scanner(false, 0, true, t))
            == PushText(t + 1, j, false, j + 1, Scanner(false, 0, false, j + 1))
  {
  }

  /** Inside quotes the scan only skips escaped quotes. Position `k` is one
      the scan lands on: not the quote of a `\\"` pair. */
  lemma {:induction false} QuoteInner(src: string, i: nat, j: nat, k: nat, t: nat)
    requires i < k <= j < |src| && src[i] == '"' && src[j] == '"'
    requires QuotedBody(src[i + 1..j])
    requires !(src[k - 1] == '\\' && src[k] == '"')
    ensures MovesTo(src, k, Scanner(false, 0, true, t), j, Scanner(false, 0, true, t))
    decreases j - k
  {
    if k < j {
      var b := src[i + 1..j];
      var m := k - (i + 1);
      assert b[m] == src[k];
      if m > 0 { assert b[m - 1] == src[k - 1]; }
      if k + 1 < j { assert b[m + 1] == src[k + 1]; }
      QuoteStep(src, k, t);
      QuoteInner(src, i, j, Skip(src, k), t);
    }
  }

  /** Quoted text at depth 0 is pushed without trimming, escaped quotes and
      all, and the scan goes on after the closing quote. */
  lemma QuotePushed(host: Host, fuel: nat, st: State, src: string, i: nat, j: nat, t: nat)
    requires i < j < |src| && src[i] == '"' && src[j] == '"'
    requires QuotedBody(src[i + 1..j])
    ensures ScanSpec(host, fuel, st, src, i, Scanner(false, 0, false, t))
            == ScanSpec(host, fuel, st.(stack := st.stack + [Normalize(src[i + 1..j])]),
                        src, j + 1, Scanner(false, 0, false, j + 1))
  {
    QuoteRun(src, i, j, t);
    QuoteClose(src, j, i);
    QuoteText(st, src, i + 1, j);
    RunThenPush(host, fuel, st, st.(stack := st.stack + [Normalize(src[i + 1..j])]), src,
                i, Scanner(false, 0, false, t), j, Scanner(false, 0, true, i),
                i + 1, j, false, j + 1, Scanner(false, 0, false, j + 1));
  }

  /** From the opening '"' the scan moves to the closing one. */
  lemma QuoteRun(src: string, i: nat, j: nat, t: nat)
    requires i < j < |src| && src[i] == '"' && src[j] == '"'
    requires QuotedBody(src[i + 1..j])
    ensures MovesTo(src, i, Scanner(false, 0, false, t), j, Scanner(false, 0, true, i))
  {
    QuoteOpen(src, i, t);
    QuoteInner(src, i, j, i + 1, i);
  }

  /** What the closing '"' pushes: the text after the opening one. */
  lemma QuoteText(st: State, src: string, lo: nat, hi: nat)
    requires lo <= hi <= |src|
    ensures PushSpan(st, src, lo, hi, false, true) == st.(stack := st.stack + [Normalize(src[lo..hi])])
  {
    assert Span(src, lo, hi) == src[lo..hi];
  }

  // ---------------------------------------------------------------------
  // Comments

  /** A comment text that the first closing marker after it ends: it holds
      no '*' followed by '/', and does not end in '/', which would pair with
      the '*' of the closing marker. */
  predicate CommentBody(b: string) {
    (forall k :: 0 <= k && k + 1 < |b| ==> !(b[k] == '*' && b[k + 1] == '/'))
    && (|b| > 0 ==> b[|b| - 1] != '/')
  }

  /** Inside a comment the scan steps over an opening marker or an escaped
      quote as a pair and over anything else one character at a time. */
  lemma CommentStep(src: string, k: nat, sc: Scanner)
    requires k + 1 < |src| && sc.inComment && !sc.inQuoted
    requires !(src[k] == '*' && src[k + 1] == '/')
    ensures ScanAction(src, k, sc)
            == Move(if (src[k] == '/' && src[k + 1] == '*') || (src[k] == '\\' && src[k + 1] == '"') then k + 2 else k + 1, sc)
  {
  }

  lemma {:induction false} CommentInner(src: string, a: nat, j: nat, k: nat, sc: Scanner)
    requires a <= k <= j && j + 1 < |src| && src[j] == '*' && src[j + 1] == '/'
    requires CommentBody(src[a..j])
    requires sc.inComment && !sc.inQuoted
    ensures MovesTo(src, k, sc, j, sc)
    decreases j - k
  {
    if k < j {
      var b := src[a..j];
      assert b[k - a] == src[k];
      if k + 1 < j {
        assert b[k - a + 1] == src[k + 1];
      } else {
        assert b[|b| - 1] == src[k];
      }
      CommentStep(src, k, sc);
      CommentInner(src, a, j, if (src[k] == '/' && src[k + 1] == '*') || (src[k] == '\\' && src[k + 1] == '"') then k + 2 else k + 1, sc);
    }
  }

  /** Nothing between the opening and the closing comment marker is pushed
      or evaluated; the next token starts after the closing marker. */
  lemma CommentSkipped(host: Host, fuel: nat, st: State, src: string, i: nat, j: nat, sc: Scanner)
    requires i + 2 <= j && j + 1 < |src|
    requires src[i] == '/' && src[i + 1] == '*' && src[j] == '*' && src[j + 1] == '/'
    requires CommentBody(src[i + 2..j])
    requires !sc.inQuoted
    ensures ScanSpec(host, fuel, st, src, i, sc)
            == ScanSpec(host, fuel, st, src, j + 2, sc.(inComment := false, tokenStart := j + 2))
  {
    CommentRun(src, i, j, sc);
    CommentFollows(host, fuel, st, src, i, j, sc);
  }

  lemma CommentFollows(host: Host, fuel: nat, st: State, src: string, i: nat, j: nat, sc: Scanner)
    requires i <= j && j + 1 < |src|
    requires MovesTo(src, i, sc, j, sc.(inComment := true))
    requires ScanAction(src, j, sc.(inComment := true)) == Move(j + 2, sc.(inComment := false, tokenStart := j + 2))
    ensures ScanSpec(host, fuel, st, src, i, sc)
            == ScanSpec(host, fuel, st, src, j + 2, sc.(inComment := false, tokenStart := j + 2))
  {
    var inside := sc.(inComment := true);
    ScanFollows(host, fuel, st, src, i, sc, j, inside);
    ScanMoves(host, fuel, st, src, j, inside, j + 2, sc.(inComment := false, tokenStart := j + 2));
  }

  /** From the opening marker the scan moves to the closing one, and past
      it in one more step. */
  lemma CommentRun(src: string, i: nat, j: nat, sc: Scanner)
    requires i + 2 <= j && j + 1 < |src|
    requires src[i] == '/' && src[i + 1] == '*' && src[j] == '*' && src[j + 1] == '/'
    requires CommentBody(src[i + 2..j])
    requires !sc.inQuoted
    ensures MovesTo(src, i, sc, j, sc.(inComment := true))
    ensures ScanAction(src, j, sc.(inComment := true)) == Move(j + 2, sc.(inComment := false, tokenStart := j + 2))
  {
    var inside := sc.(inComment := true);
    assert ScanAction(src, i, sc) == Move(i + 2, inside);
    CommentInner(src, i + 2, j, i + 2, inside);
  }

  // ---------------------------------------------------------------------
  // Dispatch

  /** The token `eval_reserved_word` looks at: the span with the spaces at
      both ends cut off. */
  function Token(src: string, lo0: nat, hi0: nat): string
    requires lo0 < hi0 <= |src|
  {
    var lo := TrimFrom(src, lo0, hi0);
    src[lo..TrimTo(src, lo, hi0)]
  }

  lemma TokenIsTrimmed(src: string, lo0: nat, hi0: nat)
    requires lo0 < hi0 <= |src|
    ensures Token(src, lo0, hi0) == Trimmed(src[lo0..hi0])
  {
    TrimmedSpan(src, lo0, hi0);
  }

  /** A token that is an exact word is run as that word. */
  lemma AWord(host: Host, fuel: nat, st: State, src: string, lo0: nat, hi0: nat)
    requires lo0 < hi0 <= |src|
    requires IsKeyword(Token(src, lo0, hi0))
    ensures DispatchSpec(host, fuel, st, src, lo0, hi0) == KeywordSpec(host, fuel, st, Token(src, lo0, hi0))
  {
  }

  /** Exact words are tried first, so `>` and `>=` compare although they
      look like the store shorthand, */
  lemma CompareWins(host: Host, fuel: nat, st: State, src: string, lo0: nat, hi0: nat)
    requires lo0 < hi0 <= |src|
    requires Token(src, lo0, hi0) == ">" || Token(src, lo0, hi0) == ">="
    ensures DispatchSpec(host, fuel, st, src, lo0, hi0) == CompareWord(host, st, Token(src, lo0, hi0))
  {
    var w := Token(src, lo0, hi0);
    assert w in CompareWords;
    AWord(host, fuel, st, src, lo0, hi0);
    KeywordCompare(host, fuel, st, w);
  }

  lemma KeywordCompare(host: Host, fuel: nat, st: State, w: string)
    requires w == ">" || w == ">="
    ensures IsKeyword(w) && KeywordSpec(host, fuel, st, w) == CompareWord(host, st, w)
  {
    assert w != "print" && w !in BinaryWords && w !in UnaryWords;
  }

  /** and `%` is the remainder although it looks like a call. */
  lemma RemainderWins(host: Host, fuel: nat, st: State, src: string, lo0: nat, hi0: nat)
    requires lo0 < hi0 <= |src|
    requires Token(src, lo0, hi0) == "%"
    ensures DispatchSpec(host, fuel, st, src, lo0, hi0) == BinaryWord(host, st, "%")
  {
    AWord(host, fuel, st, src, lo0, hi0);
  }

  /** Otherwise a leading '>' stores the top under the rest of the token, */
  lemma StoreShorthand(host: Host, fuel: nat, st: State, src: string, lo0: nat, hi0: nat)
    requires lo0 < hi0 <= |src|
    requires var w := Token(src, lo0, hi0); !IsKeyword(w) && |w| > 0 && w[0] == '>'
    ensures DispatchSpec(host, fuel, st, src, lo0, hi0) == SetShortWord(st, Normalize(Token(src, lo0, hi0)[1..]))
  {
    NotAWord(host, fuel, st, src, lo0, hi0);
    var lo := TrimFrom(src, lo0, hi0);
    var hi := TrimTo(src, lo, hi0);
    TokenEdges(src, lo, hi);
    ShorthandStore(host, fuel, st, src, lo, hi);
  }

  lemma ShorthandStore(host: Host, fuel: nat, st: State, src: string, lo: nat, hi: nat)
    requires 1 <= hi <= |src| && lo < hi
    requires src[lo] == '>'
    ensures ShorthandSpec(host, fuel, st, src, lo, hi) == SetShortWord(st, Normalize(src[lo + 1..hi]))
  {
    assert Span(src, lo + 1, hi) == src[lo + 1..hi];
  }

  /** a leading '@' pushes a variable, */
  lemma FetchShorthand(host: Host, fuel: nat, st: State, src: string, lo0: nat, hi0: nat)
    requires lo0 < hi0 <= |src|
    requires var w := Token(src, lo0, hi0); !IsKeyword(w) && |w| > 0 && w[0] == '@'
    ensures DispatchSpec(host, fuel, st, src, lo0, hi0) == GetVar(st, Normalize(Token(src, lo0, hi0)[1..]))
  {
    NotAWord(host, fuel, st, src, lo0, hi0);
    var lo := TrimFrom(src, lo0, hi0);
    var hi := TrimTo(src, lo, hi0);
    TokenEdges(src, lo, hi);
    ShorthandFetch(host, fuel, st, src, lo, hi);
  }

  lemma ShorthandFetch(host: Host, fuel: nat, st: State, src: string, lo: nat, hi: nat)
    requires 1 <= hi <= |src| && lo < hi
    requires src[lo] == '@'
    ensures ShorthandSpec(host, fuel, st, src, lo, hi) == GetVar(st, Normalize(src[lo + 1..hi]))
  {
    assert Span(src, lo + 1, hi) == src[lo + 1..hi];
  }

  /** A token that is no exact word falls through to the shorthands. */
  lemma NotAWord(host: Host, fuel: nat, st: State, src: string, lo0: nat, hi0: nat)
    requires lo0 < hi0 <= |src|
    requires !IsKeyword(Token(src, lo0, hi0))
    ensures var lo := TrimFrom(src, lo0, hi0);
            var hi := TrimTo(src, lo, hi0);
            1 <= hi && lo <= hi
            && DispatchSpec(host, fuel, st, src, lo0, hi0) == ShorthandSpec(host, fuel, st, src, lo, hi)
  {
    var lo := TrimFrom(src, lo0, hi0);
    if lo < hi0 { assert !IsSpace(src[lo]); }
  }

  /** and a trailing '%' runs one. */
  lemma ShorthandCall(host: Host, fuel: nat, st: State, src: string, lo: nat, hi: nat)
    requires 1 <= hi <= |src| && lo < hi
    requires src[lo] != '>' && src[lo] != '@' && src[hi - 1] == '%'
    ensures ShorthandSpec(host, fuel, st, src, lo, hi) == CallWord(host, fuel, st, Normalize(src[lo..hi - 1]))
  {
  }

  lemma CallShorthand(host: Host, fuel: nat, st: State, src: string, lo0: nat, hi0: nat)
    requires lo0 < hi0 <= |src|
    requires var w := Token(src, lo0, hi0);
             !IsKeyword(w) && |w| > 0 && w[0] != '>' && w[0] != '@' && w[|w| - 1] == '%'
    ensures var w := Token(src, lo0, hi0);
            DispatchSpec(host, fuel, st, src, lo0, hi0) == CallWord(host, fuel, st, Normalize(w[..|w| - 1]))
  {
    NotAWord(host, fuel, st, src, lo0, hi0);
    var lo := TrimFrom(src, lo0, hi0);
    var hi := TrimTo(src, lo, hi0);
    TokenEdges(src, lo, hi);
    ShorthandCall(host, fuel, st, src, lo, hi);
  }

  /** The ends of a token are ends of the source text. */
  lemma TokenEdges(src: string, lo: nat, hi: nat)
    requires lo < hi <= |src|
    ensures var w := src[lo..hi];
            src[lo] == w[0] && src[hi - 1] == w[|w| - 1]
            && src[lo..hi - 1] == w[..|w| - 1] && src[lo + 1..hi] == w[1..]
  {
  }

  /** `exit` asks the running scan to stop and changes nothing. */
  lemma ExitHalts(host: Host, fuel: nat, st: State, src: string, lo0: nat, hi0: nat)
    requires lo0 < hi0 <= |src|
    requires Token(src, lo0, hi0) == "exit"
    ensures DispatchSpec(host, fuel, st, src, lo0, hi0) == Run(st, Halt)
  {
    NotAWord(host, fuel, st, src, lo0, hi0);
    var lo := TrimFrom(src, lo0, hi0);
    var hi := TrimTo(src, lo, hi0);
    TokenEdges(src, lo, hi);
    ShorthandExit(host, fuel, st, src, lo, hi);
  }

  lemma ShorthandExit(host: Host, fuel: nat, st: State, src: string, lo: nat, hi: nat)
    requires 1 <= hi <= |src| && lo < hi
    requires src[lo..hi] == "exit"
    ensures ShorthandSpec(host, fuel, st, src, lo, hi) == Run(st, Halt)
  {
    assert src[lo] == src[lo..hi][0] == 'e';
    assert src[hi - 1] == src[lo..hi][3] == 't';
  }

  /** Numbers start with a digit or a minus sign and a digit, and end with a
      digit. */
  lemma NumberEnds(s: string)
    requires IsNumber(s)
    ensures |s| > 0 && IsDigit(s[|s| - 1])
    ensures IsDigit(s[0]) || (s[0] == '-' && |s| > 1 && IsDigit(s[1]))
  {
    var u := if s[0] == '-' then s[1..] else s;
    var k := LeadingDigits(u);
    assert u[..k][0] == u[0];
    if k == |u| {
      assert u[..k][k - 1] == u[k - 1];
    } else {
      assert u[k + 1..][|u| - k - 2] == u[|u| - 1];
    }
    assert s[|s| - 1] == u[|u| - 1];
  }

  /** No exact word starts with a digit, and the only one starting with a
      minus sign is the sign itself. */
  lemma KeywordStart(w: string)
    requires IsKeyword(w)
    ensures |w| > 0 && !IsDigit(w[0]) && (w[0] == '-' ==> |w| == 1)
  {
  }

  /** A numeric token is never a word or a shorthand: it is converted. */
  lemma NumbersConvert(host: Host, fuel: nat, st: State, src: string, lo0: nat, hi0: nat)
    requires lo0 < hi0 <= |src|
    requires IsNumber(Token(src, lo0, hi0))
    ensures DispatchSpec(host, fuel, st, src, lo0, hi0) == NumberWord(host, st, Token(src, lo0, hi0))
  {
    var w := Token(src, lo0, hi0);
    NumberEnds(w);
    if IsKeyword(w) {
      KeywordStart(w);
    }
    NotAWord(host, fuel, st, src, lo0, hi0);
    var lo := TrimFrom(src, lo0, hi0);
    var hi := TrimTo(src, lo, hi0);
    TokenEdges(src, lo, hi);
    ShorthandNumber(host, fuel, st, src, lo, hi);
  }

  lemma ShorthandNumber(host: Host, fuel: nat, st: State, src: string, lo: nat, hi: nat)
    requires 1 <= hi <= |src| && lo < hi
    requires IsDigit(src[lo]) || src[lo] == '-'
    requires IsDigit(src[hi - 1]) && IsNumber(src[lo..hi])
    ensures ShorthandSpec(host, fuel, st, src, lo, hi) == NumberWord(host, st, src[lo..hi])
  {
    assert src[lo..hi] != "random" && src[lo..hi] != "exit" by {
      assert src[lo..hi][0] == src[lo];
    }
  }

  /** Any other token is pushed as it is, with line breaks normalised. */
  lemma PlainText(host: Host, fuel: nat, st: State, src: string, lo0: nat, hi0: nat)
    requires lo0 < hi0 <= |src|
    requires var w := Token(src, lo0, hi0);
             |w| > 0 && !IsKeyword(w) && w[0] != '>' && w[0] != '@' && w[|w| - 1] != '%'
             && w != "random" && w != "exit" && !IsNumber(w)
    ensures DispatchSpec(host, fuel, st, src, lo0, hi0)
            == Run(st.(stack := st.stack + [Normalize(Token(src, lo0, hi0))]), Ok)
  {
    NotAWord(host, fuel, st, src, lo0, hi0);
    var lo := TrimFrom(src, lo0, hi0);
    var hi := TrimTo(src, lo, hi0);
    TokenEdges(src, lo, hi);
    TokenTrimmed(src, lo0, hi0);
    ShorthandPlain(host, fuel, st, src, lo, hi);
    PushTrimmedToken(st, src, lo, hi);
  }

  /** A trimmed token has no space at either end. */
  lemma TokenTrimmed(src: string, lo0: nat, hi0: nat)
    requires lo0 < hi0 <= |src|
    ensures var lo := TrimFrom(src, lo0, hi0);
            var hi := TrimTo(src, lo, hi0);
            lo < hi ==> !IsSpace(src[lo]) && !IsSpace(src[hi - 1])
  {
  }

  lemma ShorthandPlain(host: Host, fuel: nat, st: State, src: string, lo: nat, hi: nat)
    requires 1 <= hi <= |src| && lo < hi
    requires src[lo] != '>' && src[lo] != '@' && src[hi - 1] != '%'
    requires src[lo..hi] != "random" && src[lo..hi] != "exit" && !IsNumber(src[lo..hi])
    ensures ShorthandSpec(host, fuel, st, src, lo, hi) == Run(PushSpan(st, src, lo, hi, true, false), Ok)
  {
  }

  /** Pushing a token that has no space at either end pushes it whole. */
  lemma PushTrimmedToken(st: State, src: string, lo: nat, hi: nat)
    requires lo < hi <= |src|
    requires !IsSpace(src[lo]) && !IsSpace(src[hi - 1])
    ensures PushSpan(st, src, lo, hi, true, false) == st.(stack := st.stack + [Normalize(src[lo..hi])])
  {
    assert TrimFrom(src, lo, hi) == lo;
    assert TrimTo(src, lo, hi) == hi;
    assert Span(src, lo, hi) == src[lo..hi];
  }

  /** A token of spaces only, ended by a delimiter as every token of the scan
      is, pushes nothing and changes nothing. */
  lemma BlankToken(host: Host, fuel: nat, st: State, src: string, lo0: nat, hi0: nat)
    requires lo0 < hi0 <= |src|
    requires forall k :: lo0 <= k < hi0 ==> IsSpace(src[k])
    requires IsDelimiter(At(src, hi0))
    ensures DispatchSpec(host, fuel, st, src, lo0, hi0) == Run(st, Ok)
  {
    TrimFromAllSpaces(src, lo0, hi0);
    assert TrimTo(src, hi0, hi0) == hi0;
    assert Token(src, lo0, hi0) == [];
    assert IsSpace(src[hi0 - 1]);
  }

  lemma {:induction false} TrimFromAllSpaces(s: string, lo: nat, hi: nat)
    requires lo <= hi <= |s|
    requires forall k :: lo <= k < hi ==> IsSpace(s[k])
    ensures TrimFrom(s, lo, hi) == hi
    decreases hi - lo
  {
    if lo < hi {
      TrimFromAllSpaces(s, lo + 1, hi);
    }
  }

  /** Digits in front leave the count of leading digits to the rest. */
  lemma {:induction false} LeadingDigitsAppend(a: string, b: string)
    requires AllDigits(a)
    ensures LeadingDigits(a + b) == |a| + LeadingDigits(b)
    decreases |a|
  {
    if |a| > 0 {
      assert (a + b)[0] == a[0];
      assert (a + b)[1..] == a[1..] + b;
      LeadingDigitsAppend(a[1..], b);
    } else {
      assert a + b == b;
    }
  }

  /** The digits of a number without a point: all of it but the sign. */
  function Unsigned(s: string): string {
    if |s| > 0 && s[0] == '-' then s[1..] else s
  }

  lemma IntegerDigits(ip: string)
    requires IsNumber(ip) && '.' !in ip
    ensures |Unsigned(ip)| > 0 && AllDigits(Unsigned(ip))
  {
    var u := Unsigned(ip);
    var k := LeadingDigits(u);
    assert u[..k] == u;
  }

  lemma DigitsPointDigits(u: string, fp: string)
    requires |u| > 0 && AllDigits(u) && AllDigits(fp) && |fp| > 0
    ensures LeadingDigits(u + "." + fp) == |u| && IntTail(u + "." + fp)
  {
    var p := "." + fp;
    var v := u + p;
    assert u + "." + fp == v;
    assert LeadingDigits(p) == 0 by {
      assert p[0] == '.';
    }
    LeadingDigitsAppend(u, p);
    assert v[|u|] == '.';
    assert v[|u| + 1..] == fp;
  }

  /** Appending a point and digits keeps an integer a number. */
  lemma AppendFraction(ip: string, fp: string)
    requires IsNumber(ip) && '.' !in ip
    requires AllDigits(fp) && |fp| > 0
    ensures IsNumber(ip + "." + fp)
  {
    IntegerDigits(ip);
    var u := Unsigned(ip);
    DigitsPointDigits(u, fp);
    var s := ip + "." + fp;
    assert Unsigned(s) == u + "." + fp by {
      if ip[0] == '-' {
        assert s[1..] == ip[1..] + "." + fp;
      }
    }
  }

  /** A numeric token pushes the canonical form of the `%f` text of its
      value `I.F`: F without trailing zeros, and no point when nothing of F
      is left; the result is a number again. */
  lemma NumberCanonical(host: Host, st: State, w: string, ip: string, fp: string)
    requires IsNumber(ip) && '.' !in ip
    requires AllDigits(fp) && |fp| > 0
    requires host.literal(Normalize(w)) == ip + "." + fp
    ensures var c := if TrimZeros(fp) == [] then ip else ip + "." + TrimZeros(fp);
            IsNumber(c) && NumberWord(host, st, w) == Run(st.(stack := st.stack + [c]), Ok)
  {
    NumberEnds(ip);
    FixedCanonical(ip, fp);
    var z := TrimZeros(fp);
    var c := if z == [] then ip else ip + "." + z;
    if z != [] {
      assert AllDigits(z) by {
        forall k | 0 <= k < |z| ensures IsDigit(z[k]) { assert z[k] == fp[k]; }
      }
      AppendFraction(ip, z);
    }
    NumberIsPlain(c);
    NormalizeKeepsClean(c);
    assert c[0] == ip[0];
    assert TrimFrom(c, 0, |c|) == 0;
    assert c[0..] == c;
  }
}
