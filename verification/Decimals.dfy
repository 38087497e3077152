/** Decimal text of natural numbers: strconv.FormatInt in base ten, and the
    zero padding Go's date layouts and the sequence token use. */
module Decimals {
  import opened NumberPattern

  function DigitOf(n: nat): (c: char)
    requires n < 10
    ensures IsDigit(c)
  {
    ('0' as int + n) as char
  }

  function DigitValue(c: char): (n: nat)
    requires IsDigit(c)
    ensures n < 10 && DigitOf(n) == c
  {
    c as int - '0' as int
  }

  /** The digits stand in the order of their characters. */
  lemma DigitsInOrder(n: nat)
    requires n < 10
    ensures "0123456789"[n] == DigitOf(n) && DigitValue("0123456789"[n]) == n
    ensures forall c :: IsDigit(c) <==> c in "0123456789"
  {
    forall c ensures IsDigit(c) <==> c in "0123456789" {
      if IsDigit(c) { assert "0123456789"[c as int - 48] == c; }
    }
  }

  function Decimal(n: nat): (s: string)
    ensures Digits(s)
  {
    if n < 10 then [DigitOf(n)] else Decimal(n / 10) + [DigitOf(n % 10)]
  }

  /** The number a digit string stands for; leading zeros are allowed. */
  function Value(s: string): nat
    requires forall i :: 0 <= i < |s| ==> IsDigit(s[i])
  {
    if s == "" then 0 else 10 * Value(s[..|s| - 1]) + DigitValue(s[|s| - 1])
  }

  function Pow10(w: nat): (p: nat)
    ensures p >= 1
  {
    if w == 0 then 1 else 10 * Pow10(w - 1)
  }

  lemma {:induction false} DecimalValue(n: nat)
    ensures Value(Decimal(n)) == n
  {
    if n >= 10 {
      DecimalValue(n / 10);
      var s := Decimal(n);
      assert s[..|s| - 1] == Decimal(n / 10);
    } else {
      assert Decimal(n)[..0] == "";
    }
  }

  /** A number has at most w digits exactly when it is below 10^w. */
  lemma {:induction false} DecimalWidth(n: nat, w: nat)
    requires w >= 1
    ensures |Decimal(n)| <= w <==> n < Pow10(w)
    decreases w
  {
    if n < 10 {
      assert Pow10(w) == 10 * Pow10(w - 1);
    } else if w == 1 {
      assert Pow10(1) == 10 * Pow10(0);
      assert |Decimal(n / 10)| >= 1;
    } else {
      DecimalWidth(n / 10, w - 1);
      assert Pow10(w) == 10 * Pow10(w - 1);
    }
  }

  function Zeros(k: nat): (s: string)
    ensures |s| == k && forall i :: 0 <= i < k ==> s[i] == '0'
  {
    seq(k, i => '0')
  }

  /** The decimal text padded with zeros to w characters; longer text is kept. */
  function Padded(n: nat, w: nat): (s: string)
    ensures Digits(s)
  {
    var t := Decimal(n);
    if |t| >= w then t else Zeros(w - |t|) + t
  }

  lemma PaddedWidth(n: nat, w: nat)
    requires w >= 1 && n < Pow10(w)
    ensures |Padded(n, w)| == w
  {
    DecimalWidth(n, w);
  }

  lemma {:induction false} ZerosValue(k: nat, t: string)
    requires forall i :: 0 <= i < |t| ==> IsDigit(t[i])
    ensures Value(Zeros(k) + t) == Value(t)
    decreases k + |t|
  {
    var s := Zeros(k) + t;
    if t != "" {
      ZerosValue(k, t[..|t| - 1]);
      assert s[..|s| - 1] == Zeros(k) + t[..|t| - 1];
    } else if k > 0 {
      ZerosValue(k - 1, "");
      assert s[..k - 1] == Zeros(k - 1) + "";
    }
  }

  lemma PaddedValue(n: nat, w: nat)
    ensures Value(Padded(n, w)) == n
  {
    DecimalValue(n);
    if |Decimal(n)| < w { ZerosValue(w - |Decimal(n)|, Decimal(n)); }
  }

  /** Padding to the same width loses nothing. */
  lemma PaddedInjective(m: nat, n: nat, w: nat)
    ensures Padded(m, w) == Padded(n, w) <==> m == n
  {
    PaddedValue(m, w);
    PaddedValue(n, w);
  }

  predicate AreDigits(s: string) { forall i :: 0 <= i < |s| ==> IsDigit(s[i]) }

  /** A text reads as n: its digits, from the left, are worth n, and it is
      padded with zeros to w characters and no further. */
  predicate Reads(t: string, n: nat, w: nat) {
    Digits(t) && Value(t) == n && |t| >= w && (|t| > w && |t| > 1 ==> t[0] != '0')
  }

  /** What reading a digit string means: every further digit shifts the value
      by one decimal place. */
  lemma ValueStep(t: string, n: nat)
    requires n < 10 && forall i :: 0 <= i < |t| ==> IsDigit(t[i])
    ensures Value("") == 0 && Value(t + ["0123456789"[n]]) == 10 * Value(t) + n
  {
    DigitsInOrder(n);
    assert (t + [DigitOf(n)])[..|t|] == t;
  }

  lemma {:induction false} NoLeadingZero(n: nat)
    ensures |Decimal(n)| == 1 || Decimal(n)[0] != '0'
  {
    if n >= 10 {
      NoLeadingZero(n / 10);
      if n / 10 < 10 { DigitsInOrder(n / 10); }
    }
  }

  /** Padded decimal text reads back. */
  lemma PaddedReads(n: nat, w: nat)
    ensures Reads(Padded(n, w), n, w)
  {
    PaddedValue(n, w);
    NoLeadingZero(n);
  }

  /** Ten to the w-th. */
  lemma Powers(w: nat)
    ensures Pow10(0) == 1 && Pow10(w + 1) == 10 * Pow10(w)
    ensures Pow10(18) == 1_000_000_000_000_000_000
  {
    assert Pow10(6) == 1_000_000 by { assert Pow10(3) == 1000; }
    assert Pow10(12) == 1_000_000_000_000 by { assert Pow10(9) == 1_000_000_000; }
    assert Pow10(15) == 1_000_000_000_000_000;
  }

  lemma {:induction false} ValueBelow(t: string, w: nat)
    requires |t| <= w && forall i :: 0 <= i < |t| ==> IsDigit(t[i])
    ensures Value(t) < Pow10(w)
  {
    if w > 0 {
      if t != "" { ValueBelow(t[..|t| - 1], w - 1); } else { ValueBelow("", w - 1); }
    }
  }

  lemma {:induction false} ValueAbove(t: string, w: nat)
    requires Digits(t) && t[0] != '0' && |t| > w
    ensures Value(t) >= Pow10(w)
    decreases |t|
  {
    var n := |t| - 1;
    if n == 0 {
      DigitsInOrder(DigitValue(t[0]));
    } else if w > 0 {
      assert t[..n][0] == t[0];
      ValueAbove(t[..n], w - 1);
    } else {
      assert t[..n][0] == t[0];
      ValueAbove(t[..n], 0);
    }
  }

  lemma {:induction false} SameValue(s: string, t: string)
    requires |s| == |t| && AreDigits(s) && AreDigits(t) && Value(s) == Value(t)
    ensures s == t
  {
    if s != "" {
      var n := |s| - 1;
      assert Value(s) == 10 * Value(s[..n]) + DigitValue(s[n]);
      assert Value(t) == 10 * Value(t[..n]) + DigitValue(t[n]);
      SameValue(s[..n], t[..n]);
      assert s == s[..n] + [s[n]] && t == t[..n] + [t[n]];
    }
  }

  /** There is one text of a width that reads as a number. */
  lemma ReadsOnce(s: string, t: string, n: nat, w: nat)
    requires w >= 1 && Reads(s, n, w) && Reads(t, n, w)
    ensures s == t
  {
    ReadsLength(s, t, n, w);
    ReadsLength(t, s, n, w);
    SameValue(s, t);
  }

  lemma ReadsLength(s: string, t: string, n: nat, w: nat)
    requires w >= 1 && Reads(s, n, w) && Reads(t, n, w)
    ensures |s| <= |t|
  {
    if |s| > |t| {
      ValueBelow(t, |t|);
      ValueAbove(s, |t|);
    }
  }
}
