/** Numeric text: the number grammar recognised by `str_is_num` and the
    trailing-zero stripping that `num_to_str` applies to `%f` output. */
module Numbers {
  import opened Text

  predicate IsDigit(c: char) {
    '0' <= c <= '9'
  }

  predicate AllDigits(s: string) {
    forall k :: 0 <= k < |s| ==> IsDigit(s[k])
  }

  /** The number of digits a text starts with. */
  function LeadingDigits(s: string): (k: nat)
    ensures k <= |s|
    ensures AllDigits(s[..k])
    ensures k < |s| ==> !IsDigit(s[k])
  {
    if |s| > 0 && IsDigit(s[0]) then
      var k := 1 + LeadingDigits(s[1..]);
      assert s[..k] == [s[0]] + s[1..][..k - 1];
      k
    else 0
  }

  /** What may follow the first digit of the integer part: more digits,
      optionally a point and at least one more digit. */
  predicate IntTail(r: string) {
    var k := LeadingDigits(r);
    k == |r| || (r[k] == '.' && k + 1 < |r| && AllDigits(r[k + 1..]))
  }

  /** The number grammar `-?[0-9]+(\.[0-9]+)?`. */
  predicate IsNumber(s: string) {
    var u := if |s| > 0 && s[0] == '-' then s[1..] else s;
    LeadingDigits(u) > 0 && IntTail(u)
  }

  /** The loop of `str_is_num` read as an automaton over `s[i..]`: `sign`,
      `point`, `before` and `after` are its four local variables. */
  function NumScan(s: string, i: nat, sign: bool, point: bool, before: nat, after: nat): bool
    requires i <= |s|
    decreases |s| - i
  {
    if i == |s| then before != 0 && !(point && after == 0)
    else if !sign && s[i] == '-' then NumScan(s, i + 1, true, point, before, after)
    else if !point && s[i] == '.' then NumScan(s, i + 1, sign, true, before, after)
    else if IsDigit(s[i]) then
      NumScan(s, i + 1, true, point, if point then before else before + 1, if point then after + 1 else after)
    else false
  }

  /** `str_is_num` on the span `s[lo..hi]`. */
  method StrIsNum(s: string, lo: nat, hi: nat) returns (r: bool)
    requires hi <= |s|
    ensures r == IsNumber(Span(s, lo, hi))
  {
    var t := Span(s, lo, hi);
    var sign, point := false, false;
    var before, after := 0, 0;
    var i := lo;
    while i < hi
      invariant lo <= i && (lo < hi ==> i <= hi) && (hi <= lo ==> i == lo)
      invariant NumScan(t, i - lo, sign, point, before, after) == NumScan(t, 0, false, false, 0, 0)
      decreases hi - i
    {
      assert t[i - lo] == s[i];
      if !sign && s[i] == '-' {
        sign := true;
      } else if !point && s[i] == '.' {
        point := true;
      } else if IsDigit(s[i]) {
        sign := true;
        if point {
          after := after + 1;
        } else {
          before := before + 1;
        }
      } else {
        NumScanIsNumber(t);
        return false;
      }
      i := i + 1;
    }
    assert i - lo == |t|;
    NumScanIsNumber(t);
    r := before != 0 && !(point && after == 0);
  }

  /** After a point with no digit before it, the text is never a number. */
  lemma {:induction false} NoIntegerPart(s: string, i: nat, sign: bool, after: nat)
    requires i <= |s|
    ensures !NumScan(s, i, sign, true, 0, after)
    decreases |s| - i
  {
    if i < |s| {
      if !sign && s[i] == '-' {
        NoIntegerPart(s, i + 1, true, after);
      } else if IsDigit(s[i]) {
        NoIntegerPart(s, i + 1, true, after + 1);
      }
    }
  }

  /** In the fraction, only digits may follow, and at least one digit must. */
  lemma {:induction false} FractionPart(s: string, i: nat, before: nat, after: nat)
    requires i <= |s| && before > 0
    ensures NumScan(s, i, true, true, before, after) == (AllDigits(s[i..]) && (after > 0 || i < |s|))
    decreases |s| - i
  {
    if i < |s| {
      if IsDigit(s[i]) {
        FractionPart(s, i + 1, before, after + 1);
        assert s[i..] == [s[i]] + s[i + 1..];
      } else {
        assert !AllDigits(s[i..]) by { assert s[i..][0] == s[i]; }
      }
    }
  }

  /** One more digit of the integer part leaves IntTail unchanged. */
  lemma IntTailStep(r: string)
    requires |r| > 0 && IsDigit(r[0])
    ensures IntTail(r) == IntTail(r[1..])
  {
    assert LeadingDigits(r) == 1 + LeadingDigits(r[1..]);
    var k := LeadingDigits(r[1..]);
    if k < |r[1..]| {
      assert r[k + 1] == r[1..][k];
      assert r[k + 2..] == r[1..][k + 1..];
    }
  }

  /** In the integer part (a digit already seen), the rest must be IntTail. */
  lemma {:induction false} IntegerPart(s: string, i: nat, before: nat)
    requires i <= |s| && before > 0
    ensures NumScan(s, i, true, false, before, 0) == IntTail(s[i..])
    decreases |s| - i
  {
    if i < |s| {
      var r := s[i..];
      assert r[0] == s[i];
      if IsDigit(s[i]) {
        IntegerPart(s, i + 1, before + 1);
        assert r[1..] == s[i + 1..];
        IntTailStep(r);
      } else if s[i] == '.' {
        FractionPart(s, i + 1, before, 0);
        assert LeadingDigits(r) == 0;
        assert r[1..] == s[i + 1..];
      } else {
        assert LeadingDigits(r) == 0;
      }
    }
  }

  /** After the sign, at least one digit and then IntTail. */
  lemma AfterSign(s: string, i: nat)
    requires i <= |s|
    ensures NumScan(s, i, true, false, 0, 0) == (LeadingDigits(s[i..]) > 0 && IntTail(s[i..]))
  {
    if i < |s| {
      var r := s[i..];
      assert r[0] == s[i];
      if IsDigit(s[i]) {
        IntegerPart(s, i + 1, 1);
        assert r[1..] == s[i + 1..];
        IntTailStep(r);
      } else if s[i] == '.' {
        NoIntegerPart(s, i + 1, true, 0);
      }
    }
  }

  /** The loop of `str_is_num` accepts exactly the number grammar. */
  lemma NumScanIsNumber(s: string)
    ensures NumScan(s, 0, false, false, 0, 0) == IsNumber(s)
  {
    if |s| > 0 {
      if s[0] == '-' {
        AfterSign(s, 1);
      } else if s[0] == '.' {
        NoIntegerPart(s, 1, false, 0);
        assert LeadingDigits(s) == 0;
      } else if IsDigit(s[0]) {
        IntegerPart(s, 1, 1);
        IntTailStep(s);
      } else {
        assert LeadingDigits(s) == 0;
      }
    }
  }

  /** Numbers hold no line breaks and no spaces, so pushing one keeps it. */
  lemma NumberIsPlain(s: string)
    requires IsNumber(s)
    ensures NoLineBreaks(s)
    ensures forall k :: 0 <= k < |s| ==> !IsSpace(s[k])
  {
    var u := if s[0] == '-' then s[1..] else s;
    var k := LeadingDigits(u);
    forall j | 0 <= j < |s| ensures s[j] == '-' || s[j] == '.' || IsDigit(s[j]) {
      if s[0] == '-' && j > 0 {
        assert s[j] == u[j - 1];
        if j - 1 < k { assert u[..k][j - 1] == u[j - 1]; }
        else if j - 1 > k { assert u[j - 1] == u[k + 1..][j - 1 - (k + 1)]; }
      } else if s[0] != '-' {
        if j < k { assert u[..k][j] == u[j]; }
        else if j > k { assert u[j] == u[k + 1..][j - (k + 1)]; }
      }
    }
  }

  /** The trailing-'0' loop of `num_to_str`: zeros are cut from the end, but
      the first character is never examined. */
  function DropZeros(s: string): (r: string)
    ensures r <= s
    ensures |s| > 0 ==> |r| > 0
    ensures forall k :: |r| <= k < |s| ==> s[k] == '0'
    ensures |r| > 1 ==> r[|r| - 1] != '0'
  {
    if |s| > 1 && s[|s| - 1] == '0' then DropZeros(s[..|s| - 1]) else s
  }

  /** The text `num_to_str` makes of `%f` output: trailing zeros removed, then
      the point removed when it was followed by zeros only. */
  function StripFraction(s: string): (r: string)
    ensures r <= s
  {
    var t := DropZeros(s);
    if |t| < |s| && |t| >= 2 && t[|t| - 1] == '.' then t[..|t| - 1] else t
  }

  /** `num_to_str` after the `sprintf`: the loop over `buffer` from its last
      character down to index 1. A cut is writing NUL at position `len`, so
      `len` is where the text now ends. */
  method NumToStr(buffer: string) returns (r: string)
    ensures r == StripFraction(buffer)
  {
    var n := |buffer|;
    if n == 0 {
      // `sprintf("%f")` never produces an empty text
      return buffer;
    }
    var len := n;
    var i := n - 1;
    while i > 0
      invariant 0 <= i < n && len == i + 1
      invariant DropZeros(buffer[..len]) == DropZeros(buffer)
      invariant forall k :: len <= k < n ==> buffer[k] == '0'
    {
      if buffer[i] == '0' {
        assert buffer[..len][..i] == buffer[..i];
        len := i;
      } else if buffer[i] == '.' && i < n - 1 && len == i + 1 {
        // buffer[i + 1] is NUL exactly when the zero after the point was cut
        assert buffer[..len] == DropZeros(buffer);
        len := i;
        break;
      } else {
        break;
      }
      i := i - 1;
    }
    r := buffer[..len];
    if len == 1 && i == 0 {
      assert DropZeros(buffer) == buffer[..1];
    }
  }

  /** The trailing zeros of a fraction. */
  function TrimZeros(f: string): (r: string)
    ensures r <= f
    ensures |r| > 0 ==> r[|r| - 1] != '0'
    ensures forall k :: |r| <= k < |f| ==> f[k] == '0'
  {
    if |f| > 0 && f[|f| - 1] == '0' then TrimZeros(f[..|f| - 1]) else f
  }

  /** Dropping zeros behind a non-zero character leaves what is in front. */
  lemma {:induction false} DropZerosBehind(p: string, f: string)
    requires |p| > 0 && p[|p| - 1] != '0'
    ensures DropZeros(p + f) == p + TrimZeros(f)
    decreases |f|
  {
    if |f| > 0 && f[|f| - 1] == '0' {
      assert (p + f)[..|p + f| - 1] == p + f[..|f| - 1];
      DropZerosBehind(p, f[..|f| - 1]);
    } else if |f| > 0 {
      assert (p + f)[|p + f| - 1] == f[|f| - 1];
    } else {
      assert p + f == p;
    }
  }

  /** The canonical form of `%f` text `I.F`: the fraction loses its trailing
      zeros, and the point goes when nothing of the fraction is left. */
  lemma FixedCanonical(i: string, f: string)
    requires |i| > 0
    requires AllDigits(f) && |f| > 0
    ensures StripFraction(i + "." + f) == if TrimZeros(f) == [] then i else i + "." + TrimZeros(f)
  {
    var p := i + ".";
    DropZerosBehind(p, f);
    assert i + "." + f == p + f;
    var t := p + TrimZeros(f);
    if TrimZeros(f) == [] {
      assert t == p && t[..|t| - 1] == i;
    } else {
      assert |t| > |p| && t[|t| - 1] == TrimZeros(f)[|TrimZeros(f)| - 1];
      assert IsDigit(TrimZeros(f)[|TrimZeros(f)| - 1]) by {
        assert TrimZeros(f)[|TrimZeros(f)| - 1] == f[|TrimZeros(f)| - 1];
      }
    }
  }
}
