/** uintToStr of testing/sandbox_linux.go: decimal printing into a fixed 20-byte buffer
    that is filled from its end. */
module DecimalPrinter {

  const TWO_64: nat := 0x1_0000_0000_0000_0000
  const WIDTH := 20

  function Power(n: nat): (p: nat)
    ensures p > 0
  {
    if n == 0 then 1 else 10 * Power(n - 1)
  }

  predicate IsDigit(c: char) {
    '0' <= c <= '9'
  }

  function Digit(c: char): (d: int) {
    c as int - '0' as int
  }

  /** The number a digit string stands for, read from the left. */
  function Value(s: string): int {
    if s == "" then 0 else 10 * Value(s[..|s| - 1]) + Digit(s[|s| - 1])
  }

  /** A decimal numeral without a superfluous leading zero. */
  predicate IsNumeral(s: string) {
    && s != "" && (forall k :: 0 <= k < |s| ==> IsDigit(s[k]))
    && (s[0] == '0' ==> s == "0")
  }

  /** A digit put in front weighs as much as its distance from the end says. */
  lemma {:induction false} ValueOfPrefixed(c: char, s: string)
    ensures Value([c] + s) == Digit(c) * Power(|s|) + Value(s)
  {
    var t := [c] + s;
    if s == "" {
      assert t[..0] == "";
    } else {
      ValueOfPrefixed(c, s[..|s| - 1]);
      assert t[..|t| - 1] == [c] + s[..|s| - 1];
    }
  }

  lemma {:induction false} PowerGrows(a: nat, b: nat)
    requires a <= b
    ensures Power(a) <= Power(b)
  {
    if a < b {
      PowerGrows(a, b - 1);
    }
  }

  /** The buffer is wide enough for every 64-bit value, and one byte less would not be. */
  lemma WidthIsExact()
    ensures Power(WIDTH - 1) < TWO_64 <= Power(WIDTH)
  {
    assert Power(5) == 100000;
    assert Power(10) == 100000 * 100000;
    assert Power(15) == 100000 * 100000 * 100000;
    assert Power(19) == 10000 * Power(15);
  }

  method UintToStr(v: nat) returns (s: string)
    requires v < TWO_64
    ensures IsNumeral(s) && Value(s) == v && |s| <= WIDTH
  {
    if v == 0 {
      assert Value("") == 0;
      return "0";
    }
    var buf := new char[WIDTH](_ => '\0');
    var i := WIDTH;
    var left: nat := v;
    assert buf[WIDTH..] == "";
    NothingPrinted(v);
    while left > 0
      invariant 0 <= i <= WIDTH
      invariant Printed(v, left, buf[i..])
      decreases left
    {
      PrintDigit(v, left, buf[i..]);
      i := i - 1;
      ghost var tail := buf[i + 1..];
      buf[i] := LowestDigit(left);
      assert buf[i..] == [LowestDigit(left)] + tail;
      left := left / 10;
    }
    s := buf[i..];
  }

  function LowestDigit(v: nat): char {
    ('0' as int + v % 10) as char
  }

  /** The digits in tail are the last ones of v; `left` is what remains to be printed. */
  ghost predicate Printed(v: nat, left: nat, tail: string) {
    && |tail| <= WIDTH && left < Power(WIDTH - |tail|)
    && v == left * Power(|tail|) + Value(tail)
    && (forall k :: 0 <= k < |tail| ==> IsDigit(tail[k]))
    && (left == 0 ==> tail != "" && tail[0] != '0')
  }

  lemma NothingPrinted(v: nat)
    requires 0 < v < TWO_64
    ensures Printed(v, v, "")
  {
    WidthIsExact();
    assert v * Power(0) == v;
  }

  /** While something is left there is room, so the index stays above zero. */
  lemma PrintDigit(v: nat, left: nat, tail: string)
    requires Printed(v, left, tail) && left > 0
    ensures |tail| < WIDTH && Printed(v, left / 10, [LowestDigit(left)] + tail)
  {
    hide Value;
    ValueOfPrefixed(LowestDigit(left), tail);
    NextDigit(left, Power(|tail|));
  }

  lemma NextDigit(v: nat, p: nat)
    ensures v * p == v / 10 * (10 * p) + v % 10 * p
  {
    assert v == v / 10 * 10 + v % 10;
    assert v * p == (v / 10 * 10) * p + v % 10 * p;
  }

  lemma {:induction false} ValueBounds(s: string)
    requires forall k :: 0 <= k < |s| ==> IsDigit(s[k])
    ensures 0 <= Value(s) < Power(|s|)
    ensures s != "" && s[0] != '0' ==> Power(|s| - 1) <= Value(s)
  {
    if s != "" {
      ValueBounds(s[..|s| - 1]);
      if |s| == 1 {
        assert s[..0] == "";
      }
    }
  }

  lemma {:induction false} SameLengthSameDigits(s: string, t: string)
    requires |s| == |t| && Value(s) == Value(t)
    requires forall k :: 0 <= k < |s| ==> IsDigit(s[k]) && IsDigit(t[k])
    ensures s == t
  {
    if s != "" {
      var n := |s| - 1;
      SameLengthSameDigits(s[..n], t[..n]);
      assert s == s[..n] + [s[n]] && t == t[..n] + [t[n]];
    }
  }

  lemma LongerIsGreater(s: string, t: string)
    requires IsNumeral(s) && IsNumeral(t) && |s| < |t|
    ensures Value(s) < Value(t)
  {
    ValueBounds(s);
    ValueBounds(t);
    PowerGrows(|s|, |t| - 1);
  }

  /** A number has one numeral, so the printed form is determined and no two values share it. */
  lemma OneNumeral(s: string, t: string)
    requires IsNumeral(s) && IsNumeral(t) && Value(s) == Value(t)
    ensures s == t
  {
    if |s| < |t| {
      LongerIsGreater(s, t);
    } else if |t| < |s| {
      LongerIsGreater(t, s);
    } else {
      SameLengthSameDigits(s, t);
    }
  }
}
