/** Character-level helpers of the interpreter: the NUL-terminated view of a
    buffer, span extraction, trimming, the `copy_substr` normalisation, the
    `comp_substr` comparison, `strcmp` ordering and the escape decoding done
    by the `print` word. */
module Text {

  datatype Option<T> = None | Some(value: T)

  /** The three characters the interpreter trims and splits on (besides NUL). */
  predicate IsSpace(c: char) {
    c == ' ' || c == '\n' || c == '\t'
  }

  /** Reading `s[i]` of a NUL-terminated buffer: every position at or past the
      end reads as the terminator. */
  function At(s: string, i: nat): (c: char)
    ensures i < |s| ==> c == s[i]
    ensures i >= |s| ==> c == '\0'
  {
    if i < |s| then s[i] else '\0'
  }

  /** The part of a buffer that C's string functions see: up to the first NUL. */
  function CText(s: string): (r: string)
    ensures r <= s
    ensures '\0' !in r
    ensures '\0' !in s ==> r == s
    ensures |r| < |s| ==> s[|r|] == '\0'
  {
    if |s| == 0 || s[0] == '\0' then [] else [s[0]] + CText(s[1..])
  }

  /** The characters at positions `lo .. hi - 1`; empty when `hi <= lo`. */
  function Span(s: string, lo: nat, hi: nat): (r: string)
    requires hi <= |s|
    ensures |r| == if lo < hi then hi - lo else 0
    ensures forall k :: 0 <= k < |r| ==> r[k] == s[lo + k]
  {
    if lo < hi then s[lo..hi] else []
  }

  predicate NoLineBreaks(s: string) {
    '\r' !in s && '\n' !in s
  }

  /** What `copy_substr` makes of a span: every '\r' dropped, every '\n' turned
      into a space, everything else kept. */
  function Normalize(s: string): (r: string)
    ensures NoLineBreaks(r)
    ensures |r| <= |s|
  {
    if |s| == 0 then []
    else if s[0] == '\r' then Normalize(s[1..])
    else if s[0] == '\n' then [' '] + Normalize(s[1..])
    else [s[0]] + Normalize(s[1..])
  }

  lemma {:induction false} NormalizeAppend(a: string, b: string)
    ensures Normalize(a + b) == Normalize(a) + Normalize(b)
  {
    if |a| > 0 {
      assert (a + b)[1..] == a[1..] + b;
      NormalizeAppend(a[1..], b);
    } else {
      assert a + b == b;
    }
  }

  /** Text without line breaks is left alone, so normalising is idempotent. */
  lemma {:induction false} NormalizeKeepsClean(s: string)
    requires NoLineBreaks(s)
    ensures Normalize(s) == s
  {
    if |s| > 0 {
      assert s == [s[0]] + s[1..];
      NormalizeKeepsClean(s[1..]);
    }
  }

  lemma NormalizeIdempotent(s: string)
    ensures Normalize(Normalize(s)) == Normalize(s)
  {
    NormalizeKeepsClean(Normalize(s));
  }

  /** The trimming loop that advances the start of a span past spaces. */
  function TrimFrom(s: string, lo: nat, hi: nat): (r: nat)
    requires hi <= |s|
    ensures lo <= r && (lo <= hi ==> r <= hi) && (hi < lo ==> r == lo)
    ensures forall k :: lo <= k < r ==> IsSpace(s[k])
    ensures r < hi ==> !IsSpace(s[r])
    decreases if lo < hi then hi - lo else 0
  {
    if lo < hi && IsSpace(s[lo]) then TrimFrom(s, lo + 1, hi) else lo
  }

  /** The trimming loop that pulls the end of a span back past spaces; it
      never moves below `lo`. */
  function TrimTo(s: string, lo: nat, hi: nat): (r: nat)
    requires hi <= |s|
    ensures r <= hi && (lo <= hi ==> lo <= r) && (hi < lo ==> r == hi)
    ensures forall k :: r <= k < hi ==> IsSpace(s[k])
    ensures lo < r ==> !IsSpace(s[r - 1])
    decreases hi
  {
    if lo < hi && IsSpace(s[hi - 1]) then TrimTo(s, lo, hi - 1) else hi
  }

  /** The trimmed text of a span: no space at either end, nothing lost inside. */
  function Trimmed(s: string): (r: string)
    ensures |r| > 0 ==> !IsSpace(r[0]) && !IsSpace(r[|r| - 1])
    ensures r <= s[TrimFrom(s, 0, |s|)..]
  {
    var f := TrimFrom(s, 0, |s|);
    s[f..TrimTo(s, f, |s|)]
  }

  /** Trimming a trimmed text changes nothing. */
  lemma TrimmedIdempotent(s: string)
    ensures Trimmed(Trimmed(s)) == Trimmed(s)
  {
    var t := Trimmed(s);
    if |t| > 0 {
      assert TrimFrom(t, 0, |t|) == 0;
      assert TrimTo(t, 0, |t|) == |t|;
    }
  }

  /** The start of a span inside the text, counted within the span. */
  lemma {:induction false} TrimFromShift(s: string, lo: nat, hi: nat, f: nat)
    requires lo <= f <= hi <= |s|
    ensures TrimFrom(s, f, hi) == lo + TrimFrom(s[lo..hi], f - lo, hi - lo)
    decreases hi - f
  {
    if f < hi {
      assert s[lo..hi][f - lo] == s[f];
      TrimFromShift(s, lo, hi, f + 1);
    }
  }

  /** The same for the end of a span. */
  lemma {:induction false} TrimToShift(s: string, lo: nat, f: nat, hi: nat, t: nat)
    requires lo <= f <= t <= hi <= |s|
    ensures TrimTo(s, f, t) == lo + TrimTo(s[lo..hi], f - lo, t - lo)
    decreases t
  {
    if f < t {
      assert s[lo..hi][t - 1 - lo] == s[t - 1];
      TrimToShift(s, lo, f, hi, t - 1);
    }
  }

  lemma SliceOfSlice(s: string, lo: nat, f: nat, t: nat, hi: nat)
    requires lo <= f <= t <= hi <= |s|
    ensures Span(s, f, t) == s[lo..hi][f - lo..t - lo]
  {
    var a, b := s[f..t], s[lo..hi][f - lo..t - lo];
    assert |a| == |b|;
    forall k | 0 <= k < |a| ensures a[k] == b[k] {
      assert b[k] == s[lo..hi][f - lo + k];
    }
  }

  lemma TrimmedIs(u: string, g: nat, e: nat)
    requires g == TrimFrom(u, 0, |u|) && e == TrimTo(u, g, |u|)
    ensures Trimmed(u) == u[g..e]
  {
  }

  lemma SpanTrimmed(s: string, lo: nat, hi: nat, f: nat, t: nat)
    requires lo <= f <= t <= hi <= |s|
    requires f - lo == TrimFrom(s[lo..hi], 0, hi - lo)
    requires t - lo == TrimTo(s[lo..hi], f - lo, hi - lo)
    ensures Span(s, f, t) == Trimmed(s[lo..hi])
  {
    TrimmedIs(s[lo..hi], f - lo, t - lo);
    SliceOfSlice(s, lo, f, t, hi);
  }

  /** `stack_push` with trimming pushes the trimmed span, normalised. */
  lemma TrimmedSpan(s: string, lo: nat, hi: nat)
    requires lo <= hi <= |s|
    ensures var f := TrimFrom(s, lo, hi);
            Span(s, f, TrimTo(s, f, hi)) == Trimmed(s[lo..hi])
  {
    var f := TrimFrom(s, lo, hi);
    TrimFromShift(s, lo, hi, lo);
    TrimToShift(s, lo, f, hi, hi);
    SpanTrimmed(s, lo, hi, f, TrimTo(s, f, hi));
  }

  /** Advances `lo` past the spaces of `s[lo..hi]`
      (the first trim loop of `stack_push` and `eval_reserved_word`). */
  method TrimStart(s: string, lo: nat, hi: nat) returns (r: nat)
    requires hi <= |s|
    ensures r == TrimFrom(s, lo, hi)
  {
    r := lo;
    var i := lo;
    while i < hi
      invariant lo <= i && r == i
      invariant TrimFrom(s, i, hi) == TrimFrom(s, lo, hi)
      decreases hi - i
    {
      if IsSpace(s[i]) {
        r := r + 1;
      } else {
        break;
      }
      i := i + 1;
    }
  }

  /** Pulls `hi` back past the spaces at the end of `s[lo..hi]` (the second
      trim loop). The C loop counts `i` down from `hi - 1` as a `size_t`; here
      it stops once it would pass `lo`, see TrimToAsWritten. */
  method TrimEnd(s: string, lo: nat, hi: nat) returns (r: nat)
    requires hi <= |s|
    ensures r == TrimTo(s, lo, hi)
  {
    r := hi;
    while lo < r
      invariant r <= hi
      invariant TrimTo(s, lo, r) == TrimTo(s, lo, hi)
      decreases r
    {
      if IsSpace(s[r - 1]) {
        r := r - 1;
      } else {
        break;
      }
    }
  }

  /** `size_t` on the 64-bit targets the interpreter is built for. */
  const SizeModulus: nat := 0x1_0000_0000_0000_0000

  /** The second trim loop of `stack_push` as written: the index `i`, always
      `to - 1`, is a `size_t`, so when `to` reaches 0 it wraps to SIZE_MAX,
      which still satisfies `i >= from` when `from` is 0. The result is the
      final `to`, or None when the loop reads outside the buffer. */
  function TrimToAsWritten(s: string, lo: nat, hi: nat): (r: Option<nat>)
    requires hi <= |s| < SizeModulus
    decreases hi
  {
    var i := (hi - 1) % SizeModulus;
    if i < lo then Some(hi)
    else if i >= |s| then None
    else if IsSpace(s[i]) then TrimToAsWritten(s, lo, hi - 1)
    else Some(hi)
  }

  /** Wherever the span does not start at 0, or its trimmed start is a
      non-space character, the loop as written computes TrimTo. */
  lemma {:induction false} TrimToAsWrittenAgrees(s: string, lo: nat, hi: nat)
    requires lo <= hi <= |s| < SizeModulus
    requires lo > 0 || (lo < hi && !IsSpace(s[lo]))
    ensures TrimToAsWritten(s, lo, hi) == Some(TrimTo(s, lo, hi))
    decreases hi
  {
    assert (hi - 1) % SizeModulus == hi - 1;
    if lo < hi && IsSpace(s[hi - 1]) {
      TrimToAsWrittenAgrees(s, lo, hi - 1);
    }
  }

  /** The trim of `stack_push` as written: after the first loop, the second
      one reads outside the buffer exactly when the span ends at 0 (the
      empty value `get_var_value` pushes for a variable holding ""), and
      computes the corrected TrimTo otherwise. */
  lemma StackPushTrimAsWritten(s: string, lo: nat, hi: nat)
    requires hi <= |s| < SizeModulus && lo < SizeModulus
    ensures hi == 0 <==> TrimToAsWritten(s, TrimFrom(s, lo, hi), hi) == None
    ensures hi > 0 ==> TrimToAsWritten(s, TrimFrom(s, lo, hi), hi) == Some(TrimTo(s, TrimFrom(s, lo, hi), hi))
  {
    var f := TrimFrom(s, lo, hi);
    if hi > 0 {
      if f <= hi {
        TrimToAsWrittenAgrees(s, f, hi);
      } else {
        assert (hi - 1) % SizeModulus == hi - 1;
      }
    } else {
      assert (hi - 1) % SizeModulus == SizeModulus - 1;
    }
  }

  /** `copy_substr`: copies `s[lo..hi]` dropping '\r' and turning '\n'
      into a space. */
  method CopySubstr(s: string, lo: nat, hi: nat) returns (dest: string)
    requires hi <= |s|
    ensures dest == Normalize(Span(s, lo, hi))
  {
    dest := [];
    if hi <= lo {
      return;
    }
    var i := lo;
    while i < hi
      invariant lo <= i <= hi
      invariant dest == Normalize(s[lo..i])
    {
      assert s[lo..i + 1] == s[lo..i] + [s[i]];
      NormalizeAppend(s[lo..i], [s[i]]);
      if s[i] == '\r' {
      } else if s[i] == '\n' {
        dest := dest + [' '];
      } else {
        dest := dest + [s[i]];
      }
      i := i + 1;
    }
  }

  /** Whether the span `s[lo..hi]` of a NUL-terminated buffer spells `word`. */
  predicate SpanIs(s: string, lo: nat, hi: nat, word: string) {
    hi - lo == |word| && forall k :: 0 <= k < |word| ==> At(s, lo + k) == word[k]
  }

  /** `comp_substr`: whether the span `s[lo..hi]` of a NUL-terminated buffer
      spells `word` exactly. */
  method CompSubstr(s: string, lo: nat, hi: nat, word: string) returns (r: bool)
    ensures r == SpanIs(s, lo, hi, word)
  {
    if hi - lo != |word| {
      return false;
    }
    var i := lo;
    while i < hi
      invariant lo <= i <= hi
      invariant forall k :: 0 <= k < i - lo ==> At(s, lo + k) == word[k]
    {
      if At(s, i) != word[i - lo] {
        return false;
      }
      i := i + 1;
    }
    return true;
  }

  /** Inside the buffer, `comp_substr` is equality of the span with the word. */
  lemma CompSubstrInside(s: string, lo: nat, hi: nat, word: string)
    requires lo <= hi <= |s|
    ensures SpanIs(s, lo, hi, word) <==> s[lo..hi] == word
  {
    if s[lo..hi] == word {
      forall k | 0 <= k < |word| ensures At(s, lo + k) == word[k] {
        assert s[lo..hi][k] == s[lo + k];
      }
    }
  }

  /** A one-character word is a test of the character at `i`, also at the
      terminator. */
  lemma SpanIsChar(s: string, i: nat, c: char)
    ensures SpanIs(s, i, i + 1, [c]) <==> At(s, i) == c
  {
    assert [c][0] == c;
  }

  /** `comp_substr` against a one-character word. */
  method CompChar(s: string, i: nat, c: char) returns (r: bool)
    ensures r == (At(s, i) == c)
  {
    r := CompSubstr(s, i, i + 1, [c]);
    SpanIsChar(s, i, c);
  }

  /** `strcmp(a, b) < 0`: lexicographic order on characters, a proper prefix
      being smaller. */
  predicate StrLess(a: string, b: string)
    decreases |a|
  {
    if |a| == 0 then |b| > 0
    else if |b| == 0 then false
    else if a[0] != b[0] then a[0] < b[0]
    else StrLess(a[1..], b[1..])
  }

  lemma {:induction false} StrLessIrreflexive(a: string)
    ensures !StrLess(a, a)
  {
    if |a| > 0 { StrLessIrreflexive(a[1..]); }
  }

  /** `strcmp` is a total order: exactly one of less, equal, greater. */
  lemma {:induction false} StrLessTrichotomy(a: string, b: string)
    ensures a == b || StrLess(a, b) || StrLess(b, a)
    ensures !(StrLess(a, b) && StrLess(b, a))
    decreases |a|
  {
    if |a| > 0 && |b| > 0 && a[0] == b[0] {
      StrLessTrichotomy(a[1..], b[1..]);
      if a[1..] == b[1..] {
        assert a == [a[0]] + a[1..] && b == [b[0]] + b[1..];
      }
    }
  }

  lemma {:induction false} StrLessTransitive(a: string, b: string, c: string)
    requires StrLess(a, b) && StrLess(b, c)
    ensures StrLess(a, c)
    decreases |a|
  {
    if |a| > 0 && |b| > 0 && |c| > 0 && a[0] == b[0] && b[0] == c[0] {
      StrLessTransitive(a[1..], b[1..], c[1..]);
    }
  }

  /** The characters `print` recognises after a backslash. */
  predicate IsEscapeCode(c: char) {
    c == 'n' || c == 'r' || c == 't' || c == 'b' || c == 'a'
    || c == 'v' || c == 'f' || c == '\\' || c == '"'
  }

  /** The character printed for `\` followed by an escape code. */
  function EscapedChar(c: char): char
    requires IsEscapeCode(c)
  {
    match c
    case 'n' => '\n'
    case 'r' => '\r'
    case 't' => '\t'
    case 'b' => '\U{8}'
    case 'a' => '\U{7}'
    case 'v' => '\U{B}'
    case 'f' => '\U{C}'
    case '\\' => '\\'
    case _ => '"'
  }

  /** What `print` writes for a value: each escape pair becomes its character,
      everything else passes through. */
  function Unescape(s: string): (r: string)
    ensures |r| <= |s|
    ensures '\\' !in s ==> r == s
  {
    if |s| == 0 then []
    else if |s| >= 2 && s[0] == '\\' && IsEscapeCode(s[1]) then [EscapedChar(s[1])] + Unescape(s[2..])
    else [s[0]] + Unescape(s[1..])
  }

  /** One step of Unescape at position `i`, as the `print` loop takes it. */
  lemma UnescapeAt(s: string, i: nat)
    requires i < |s|
    ensures Unescape(s[i..]) ==
      if s[i] == '\\' && IsEscapeCode(At(s, i + 1)) then [EscapedChar(s[i + 1])] + Unescape(s[i + 2..])
      else [s[i]] + Unescape(s[i + 1..])
  {
    var t := s[i..];
    assert t[0] == s[i];
    if i + 1 < |s| {
      assert t[1] == s[i + 1];
      assert t[2..] == s[i + 2..];
    }
    assert t[1..] == s[i + 1..];
  }

  lemma AppendAssoc(a: string, b: string, c: string)
    ensures a + (b + c) == (a + b) + c
  {
  }

  /** The loop of `print` over a value: an escape pair is written as its
      character, anything else as it is. */
  method DecodeEscapes(s: string) returns (written: string)
    ensures written == Unescape(s)
  {
    written := [];
    var i := 0;
    while i < |s|
      invariant i <= |s|
      invariant written + Unescape(s[i..]) == Unescape(s)
      decreases |s| - i
    {
      UnescapeAt(s, i);
      var c, width := s[i], 1;
      if s[i] == '\\' && IsEscapeCode(At(s, i + 1)) {
        c, width := EscapedChar(s[i + 1]), 2;
      }
      AppendAssoc(written, [c], Unescape(s[i + width..]));
      written := written + [c];
      i := i + width;
    }
    assert s[i..] == [];
  }

  /** A character that has an escape pair. */
  predicate NeedsEscape(c: char) {
    c == '\n' || c == '\r' || c == '\t' || c == '\U{8}' || c == '\U{7}'
    || c == '\U{B}' || c == '\U{C}' || c == '\\' || c == '"'
  }

  function EscapeCode(c: char): (e: char)
    requires NeedsEscape(c)
    ensures IsEscapeCode(e) && EscapedChar(e) == c
  {
    match c
    case '\n' => 'n'
    case '\r' => 'r'
    case '\t' => 't'
    case '\U{8}' => 'b'
    case '\U{7}' => 'a'
    case '\U{B}' => 'v'
    case '\U{C}' => 'f'
    case '\\' => '\\'
    case _ => '"'
  }

  /** The inverse of Unescape: how a program has to write a text so that
      `print` outputs it. */
  function Escape(s: string): (r: string)
    ensures |r| >= |s|
  {
    if |s| == 0 then []
    else (if NeedsEscape(s[0]) then ['\\', EscapeCode(s[0])] else [s[0]]) + Escape(s[1..])
  }

  /** An escape pair in front is read as its character. */
  lemma UnescapePair(e: char, rest: string)
    requires IsEscapeCode(e)
    ensures Unescape(['\\', e] + rest) == [EscapedChar(e)] + Unescape(rest)
  {
    var t := ['\\', e] + rest;
    assert t[2..] == rest;
  }

  /** Any other character in front passes through. */
  lemma UnescapePlain(c: char, rest: string)
    requires c != '\\'
    ensures Unescape([c] + rest) == [c] + Unescape(rest)
  {
    var t := [c] + rest;
    assert t[1..] == rest;
  }

  /** Printing an escaped text gives back the text. */
  lemma {:induction false} UnescapeEscape(s: string)
    ensures Unescape(Escape(s)) == s
  {
    if |s| > 0 {
      assert Escape(s) == (if NeedsEscape(s[0]) then ['\\', EscapeCode(s[0])] else [s[0]]) + Escape(s[1..]);
      if NeedsEscape(s[0]) {
        UnescapePair(EscapeCode(s[0]), Escape(s[1..]));
      } else {
        UnescapePlain(s[0], Escape(s[1..]));
      }
      UnescapeEscape(s[1..]);
      assert s == [s[0]] + s[1..];
    }
  }
}
