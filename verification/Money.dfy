/** Monetary arithmetic (libs/go/arda-money/money.go). Decimal values are exact
    numbers, modelled as reals; an amount is an integer count of minor units
    over the scale of its currency. */
module Money {
  import opened Common
  import opened Text

  const MAX_INT64 := 0x7fff_ffff_ffff_ffff
  const MIN_INT64 := -0x8000_0000_0000_0000

  // ----- Currencies

  function UpperChar(c: char): char {
    if 'a' <= c <= 'z' then (c as int - 32) as char
    else if c == '\U{131}' then 'I'
    else if c == '\U{17f}' then 'S'
    else c
  }

  /** strings.ToUpper as far as an upper-case ASCII result is concerned. */
  function Upper(s: string): string {
    if s == "" then "" else [UpperChar(s[0])] + Upper(s[1..])
  }

  /** ISO 4217 minor-unit exponent of the trimmed, upper-cased code. */
  function Exponent(currency: string): (e: nat)
    ensures e == 0 || e == 2 || e == 3
  {
    var code := Upper(Trim(currency));
    if code in ["VND", "JPY", "KRW"] then 0
    else if code in ["BHD", "IQD", "JOD", "KWD", "LYD", "OMR", "TND"] then 3
    else 2
  }

  lemma {:induction false} UpperAt(s: string)
    ensures |Upper(s)| == |s| && forall i :: 0 <= i < |s| ==> Upper(s)[i] == UpperChar(s[i])
  {
    if s != "" { UpperAt(s[1..]); }
  }

  lemma UpperCut(s: string, n: nat)
    requires n <= |s|
    ensures |Upper(s)| == |s| && Upper(s[..n]) == Upper(s)[..n] && Upper(s[n..]) == Upper(s)[n..]
  {
    UpperAt(s);
    UpperAt(s[..n]);
    UpperAt(s[n..]);
  }

  lemma {:induction false} UpperTrimLeft(s: string)
    ensures TrimLeft(Upper(s)) == Upper(TrimLeft(s))
  {
    if s != "" {
      UpperTrimLeft(s[1..]);
      UpperAt(s);
      UpperCut(s, 1);
    }
  }

  lemma {:induction false} UpperTrimRight(s: string)
    ensures TrimRight(Upper(s)) == Upper(TrimRight(s))
    decreases |s|
  {
    if s != "" {
      UpperTrimRight(s[..|s| - 1]);
      UpperAt(s);
      UpperCut(s, |s| - 1);
    }
  }

  lemma {:induction false} BlankLeft(left: string, s: string)
    requires Blank(left)
    ensures TrimLeft(left + s) == TrimLeft(s)
  {
    if left == "" {
      assert left + s == s;
    } else {
      BlankLeft(left[1..], s);
      assert (left + s)[1..] == left[1..] + s;
    }
  }

  lemma {:induction false} BlankRight(s: string, right: string)
    requires Blank(right)
    ensures TrimRight(s + right) == TrimRight(s)
    decreases |right|
  {
    if right == "" {
      assert s + right == s;
    } else {
      BlankRight(s, right[..|right| - 1]);
      assert (s + right)[..|s + right| - 1] == s + right[..|right| - 1];
    }
  }

  lemma {:induction false} TrimLeftOnly(s: string, right: string)
    requires Blank(right)
    ensures TrimRight(TrimLeft(s + right)) == TrimRight(TrimLeft(s))
  {
    if s == "" {
      assert s + right == right && right + "" == right;
      BlankLeft(right, "");
    } else if IsSpace(s[0]) {
      TrimLeftOnly(s[1..], right);
      assert (s + right)[1..] == s[1..] + right;
    } else {
      BlankRight(s, right);
    }
  }

  /** Surrounding white space and the case of the letters of a currency code do
      not matter. */
  lemma ExponentIgnoresSpelling(left: string, spelt: string, right: string, code: string)
    requires Blank(left) && Blank(right) && Upper(spelt) == Upper(code)
    ensures Exponent(left + spelt + right) == Exponent(code)
  {
    assert left + spelt + right == left + (spelt + right);
    BlankLeft(left, spelt + right);
    TrimLeftOnly(spelt, right);
    UpperTrimLeft(spelt);
    UpperTrimLeft(code);
    UpperTrimRight(TrimLeft(spelt));
    UpperTrimRight(TrimLeft(code));
    hide TrimLeft, TrimRight, Upper;
  }

  /** A currency as it may be written: the code in either case, with white space
      around it. The dotless i has the capital I. */
  predicate Spells(mid: string, code: string) {
    |mid| == |code|
    && forall i :: 0 <= i < |mid| ==>
         mid[i] as int == code[i] as int || mid[i] as int == code[i] as int + 32 || (mid[i] as int == 0x131 && code[i] == 'I')
  }

  ghost predicate SpeltAs(currency: string, code: string) {
    exists left, mid, right :: Around(currency, left, mid, right) && Spells(mid, code)
  }

  predicate Around(currency: string, left: string, mid: string, right: string) {
    Blank(left) && Blank(right) && currency == left + mid + right
  }

  /** A code in capitals other than S. */
  predicate IsCode(code: string) {
    code != "" && forall i :: 0 <= i < |code| ==> 'A' <= code[i] <= 'Z' && code[i] != 'S'
  }

  lemma UpperSpells(mid: string, code: string)
    requires IsCode(code)
    ensures Upper(mid) == code <==> Spells(mid, code)
  {
    UpperAt(mid);
    hide Upper;
    forall i | 0 <= i < |mid| && i < |code|
      ensures UpperChar(mid[i]) == code[i] <==>
        mid[i] as int == code[i] as int || mid[i] as int == code[i] as int + 32 || (mid[i] as int == 0x131 && code[i] == 'I')
    {
    }
  }

  lemma CodeReached(currency: string, code: string)
    requires IsCode(code)
    ensures Upper(Trim(currency)) == code <==> SpeltAs(currency, code)
  {
    hide Upper, Spells, Trim;
    if Upper(Trim(currency)) == code {
      UpperSpells(Trim(currency), code);
      TrimExactly(currency);
      var left, right :| Blank(left) && Blank(right) && currency == left + Trim(currency) + right;
      assert Around(currency, left, Trim(currency), right);
    }
    if left, mid, right :| Around(currency, left, mid, right) && Spells(mid, code) {
      UpperSpells(mid, code);
      TrimSpelt(left, mid, right, code);
    }
  }

  lemma TrimSpelt(left: string, mid: string, right: string, code: string)
    requires Blank(left) && Blank(right) && IsCode(code) && Upper(mid) == code
    ensures Trim(left + mid + right) == mid
  {
    assert left + mid + right == left + (mid + right);
    BlankLeft(left, mid + right);
    TrimLeftOnly(mid, right);
    UpperAt(mid);
    assert !IsSpace(mid[0]) && !IsSpace(mid[|mid| - 1]) by {
      assert UpperChar(mid[0]) == code[0] && UpperChar(mid[|mid| - 1]) == code[|mid| - 1];
    }
  }

  ghost predicate SpeltAsOne(currency: string, codes: seq<string>) {
    exists i :: 0 <= i < |codes| && SpeltAs(currency, codes[i])
  }

  /** Three currencies have no minor unit, seven have thousandths, and all others
      hundredths, however the code is written. */
  lemma ExponentExactly(currency: string)
    ensures Exponent(currency) == 0 <==> SpeltAsOne(currency, ["VND", "JPY", "KRW"])
    ensures Exponent(currency) == 3 <==> SpeltAsOne(currency, ["BHD", "IQD", "JOD", "KWD", "LYD", "OMR", "TND"])
    ensures Exponent(currency) in {0, 2, 3}
  {
    hide Upper, Trim, SpeltAs;
    OneOf(currency, ["VND", "JPY", "KRW"]);
    OneOf(currency, ["BHD", "IQD", "JOD", "KWD", "LYD", "OMR", "TND"]);
    assert ["VND", "JPY", "KRW"][0] == "VND" && ["VND", "JPY", "KRW"][1] == "JPY" && ["VND", "JPY", "KRW"][2] == "KRW";
    CodesApart(Upper(Trim(currency)));
  }

  lemma CodesApart(code: string)
    ensures !(code in ["VND", "JPY", "KRW"] && code in ["BHD", "IQD", "JOD", "KWD", "LYD", "OMR", "TND"])
  {
    if code in ["VND", "JPY", "KRW"] { assert |code| == 3 && (code[1] == 'N' || code[1] == 'P' || code[1] == 'R'); }
  }

  lemma OneOf(currency: string, codes: seq<string>)
    requires forall i :: 0 <= i < |codes| ==> IsCode(codes[i])
    ensures Upper(Trim(currency)) in codes <==> SpeltAsOne(currency, codes)
  {
    hide Upper, Trim, SpeltAs, IsCode;
    forall i | 0 <= i < |codes| ensures Upper(Trim(currency)) == codes[i] <==> SpeltAs(currency, codes[i]) {
      CodeReached(currency, codes[i]);
    }
  }

  /** Minor units per major unit. */
  function Scale(currency: string): (k: int)
    ensures k == 1 || k == 100 || k == 1000
  {
    if Exponent(currency) == 0 then 1 else if Exponent(currency) == 2 then 100 else 1000
  }

  // ----- Rounding

  /** Rounds half away from zero. */
  function HalfAway(x: real): int {
    if x >= 0.0 then (x + 0.5).Floor else -((0.5 - x).Floor)
  }

  /** Rounding never crosses an integer, and never moves by more than a half. */
  lemma HalfAwayBounds(x: real, n: int)
    ensures n as real <= x ==> n <= HalfAway(x)
    ensures x <= n as real ==> HalfAway(x) <= n
    ensures -0.5 <= HalfAway(x) as real - x <= 0.5
    ensures HalfAway(x) as real - x == 0.5 ==> x > 0.0
    ensures HalfAway(x) as real - x == -0.5 ==> x < 0.0
  {}

  /** An amount of n minor units, in major units. */
  function Amount(n: int, scale: int): real
    requires scale > 0
  {
    n as real / scale as real
  }

  // Products of reals, one step at a time.

  lemma DivBack(h: real, u: real)
    requires u > 0.0
    ensures h / u * u == h
  {}

  lemma IntReal(n: int, u: int)
    ensures (n * u) as real == n as real * u as real
  {}

  lemma IntOrder(m: int, n: int)
    ensures m <= n <==> m as real <= n as real
  {}

  lemma TimesSum(a: real, b: real, k: real)
    ensures (a + b) * k == a * k + b * k
    ensures (a - b) * k == a * k - b * k
  {}

  lemma MulOrder(a: real, b: real, k: real)
    requires a <= b && k > 0.0
    ensures a * k <= b * k
  {}

  lemma MulOrderBack(a: real, b: real, k: real)
    requires a * k <= b * k && k > 0.0
    ensures a <= b
  {
    if a > b { MulStrict(b, a, k); }
  }

  lemma MulStrict(a: real, b: real, k: real)
    requires a < b && k > 0.0
    ensures a * k < b * k
  {}

  lemma AmountFacts(m: int, n: int, scale: int)
    requires scale > 0
    ensures Amount(m, scale) + Amount(n, scale) == Amount(m + n, scale)
    ensures Amount(m, scale) - Amount(n, scale) == Amount(m - n, scale)
    ensures Amount(m, scale) >= Amount(n, scale) <==> m >= n
    ensures Amount(m, scale) == Amount(n, scale) <==> m == n
  {
    AmountBack(m, scale);
    AmountBack(n, scale);
    AmountBack(m + n, scale);
    AmountBack(m - n, scale);
    hide Amount;
    var a, b, k := Amount(m, scale), Amount(n, scale), scale as real;
    TimesSum(a, b, k);
    SameProduct(a + b, Amount(m + n, scale), k);
    SameProduct(a - b, Amount(m - n, scale), k);
    if m >= n { MulOrderBack(b, a, k); }
    if a >= b { MulOrder(b, a, k); }
    if m <= n { MulOrderBack(a, b, k); }
    if a <= b { MulOrder(a, b, k); }
  }

  lemma AmountBack(n: int, scale: int)
    requires scale > 0
    ensures Amount(n, scale) * scale as real == n as real
  {
    DivBack(n as real, scale as real);
  }

  lemma SameProduct(a: real, b: real, k: real)
    requires a * k == b * k && k > 0.0
    ensures a == b
  {
    MulOrderBack(a, b, k);
    MulOrderBack(b, a, k);
  }

  /** Minor units of a value, rounded. */
  function Minor(value: real, scale: int): int { HalfAway(value * scale as real) }

  function Round(value: real, currency: string): real {
    Amount(Minor(value, Scale(currency)), Scale(currency))
  }

  function FromMinor(minor: int, currency: string): real { Amount(minor, Scale(currency)) }

  /** What a minor unit is worth. */
  lemma MinorUnits(n: int, currency: string)
    ensures Exponent(currency) == 0 ==> FromMinor(n, currency) == n as real
    ensures Exponent(currency) == 2 ==> FromMinor(n, currency) * 100.0 == n as real
    ensures Exponent(currency) == 3 ==> FromMinor(n, currency) * 1000.0 == n as real
  {
    hide Exponent;
    AmountBack(n, Scale(currency));
  }

  function ToMinor(value: real, currency: string): Result<int, string> {
    var minor := Minor(value, Scale(currency));
    if minor > MAX_INT64 || minor < MIN_INT64 then Err("overflows int64") else Ok(minor)
  }

  /** Minor units round-trip, and converting any value loses exactly what
      rounding loses; it fails exactly when the rounded value leaves int64. */
  lemma MinorRoundTrip(minor: int, value: real, currency: string)
    ensures -9223372036854775808 <= minor <= 9223372036854775807 ==>
      ToMinor(FromMinor(minor, currency), currency) == Ok(minor)
    ensures ToMinor(value, currency).Ok? ==> FromMinor(ToMinor(value, currency).value, currency) == Round(value, currency)
    ensures ToMinor(value, currency).Err?
       <==> Round(value, currency) > FromMinor(9223372036854775807, currency)
            || Round(value, currency) < FromMinor(-9223372036854775808, currency)
  {
    hide Exponent, Amount, HalfAway, Minor;
    var k := Scale(currency);
    MinorOfAmount(minor, k);
    AmountFacts(Minor(value, k), MAX_INT64, k);
    AmountFacts(MIN_INT64, Minor(value, k), k);
  }

  /** Rounding is idempotent and gives a nearest amount of the currency. */
  lemma RoundNearest(value: real, n: int, currency: string)
    ensures Round(Round(value, currency), currency) == Round(value, currency)
    ensures Distance(Round(value, currency), value) <= Distance(FromMinor(n, currency), value)
  {
    hide Scale, Minor, Amount, Distance, Exponent;
    MinorOfAmount(Minor(value, Scale(currency)), Scale(currency));
    Nearest(value, n, Scale(currency));
  }

  lemma MinorOfAmount(n: int, k: int)
    requires k > 0
    ensures Minor(Amount(n, k), k) == n
  {
    AmountBack(n, k);
    HalfAwayBounds(n as real, n);
    hide Amount, HalfAway;
  }

  /** No amount is nearer to a value than its rounding. */
  lemma Nearest(value: real, n: int, k: int)
    requires k > 0
    ensures Distance(Amount(Minor(value, k), k), value) <= Distance(Amount(n, k), value)
  {
    var m, x := Minor(value, k), Times(value, k as real);
    AmountTimes(m, k);
    AmountTimes(n, k);
    NearestInt(x, n);
    assert m == HalfAway(x);
    hide Minor, HalfAway, Amount, Distance, Times;
    Nearer(Amount(m, k), Amount(n, k), value, m as real, n as real, x, k as real);
  }

  lemma NearestInt(x: real, n: int)
    ensures Distance(HalfAway(x) as real - x, 0.0) <= Distance(n as real - x, 0.0)
  {
    HalfAwayBounds(x, n);
    HalfAwayBounds(x, HalfAway(x));
    hide HalfAway;
  }

  /** A product under a name, so that a proof may treat it as a whole. */
  function Times(a: real, k: real): real { a * k }

  lemma TimesDifference(a: real, b: real, k: real)
    ensures Times(a - b, k) == Times(a, k) - Times(b, k)
    ensures Times(0.0, k) == 0.0 && Times(-a, k) == -Times(a, k)
  {}

  lemma TimesOrder(a: real, b: real, k: real)
    requires k > 0.0
    ensures a <= b <==> Times(a, k) <= Times(b, k)
  {
    if a <= b { MulOrder(a, b, k); } else { MulStrict(b, a, k); }
  }

  lemma AmountTimes(n: int, k: int)
    requires k > 0
    ensures Times(Amount(n, k), k as real) == n as real
  {
    AmountBack(n, k);
  }

  lemma IntTimes(n: int, u: int)
    ensures Times(n as real, u as real) == (n * u) as real
  {
    IntReal(n, u);
  }

  /** Who is nearer is nearer at every scale. */
  lemma Nearer(a: real, b: real, c: real, ka: real, kb: real, kc: real, k: real)
    requires k > 0.0 && Times(a, k) == ka && Times(b, k) == kb && Times(c, k) == kc
    requires Distance(ka - kc, 0.0) <= Distance(kb - kc, 0.0)
    ensures Distance(a, c) <= Distance(b, c)
  {
    hide Times;
    ScaledDistance(a, c, ka, kc, k);
    ScaledDistance(b, c, kb, kc, k);
    TimesOrder(Distance(a, c), Distance(b, c), k);
  }

  lemma ScaledDistance(a: real, c: real, ka: real, kc: real, k: real)
    requires k > 0.0 && Times(a, k) == ka && Times(c, k) == kc
    ensures Times(Distance(a, c), k) == Distance(ka - kc, 0.0)
  {
    hide Times;
    TimesDifference(a, c, k);
    TimesDifference(c, a, k);
    TimesOrder(a, c, k);
    TimesOrder(c, a, k);
  }

  function Distance(a: real, b: real): real { if a >= b then a - b else b - a }

  // ----- Even allocation

  /** Division of the decimal library: 16 decimal places, half away from zero. */
  function Div(a: real, b: int): real
    requires b > 0
  {
    HalfAway(a / b as real * 1e16) as real / 1e16
  }

  function FloorDiv(t: int, p: int): int
    requires p > 0
  {
    t / p
  }

  function CeilDiv(t: int, p: int): int
    requires p > 0
  {
    -((-t) / p)
  }

  /** The minor units of the common share, rounded twice. */
  function ShareMinor(t: int, p: int, scale: int): int
    requires p > 0 && scale > 0
  {
    Minor(Div(Amount(t, scale), p), scale)
  }

  /** Units of the sixteenth decimal place in one minor unit. */
  function Grain(scale: int): (u: int)
    requires scale == 1 || scale == 100 || scale == 1000
    ensures u > 0 && u as real * scale as real == 1e16
  {
    if scale == 1 then 10000000000000000 else if scale == 100 then 100000000000000 else 10000000000000
  }

  /** A quotient rounded to grains, and then to whole units. */
  function TwiceRounded(q: real, u: int): int
    requires u > 0
  {
    HalfAway(HalfAway(q * u as real) as real / u as real)
  }

  /** Dividing and rounding twice keeps on the same side of an integer. */
  lemma DivSide(t: int, p: int, scale: int, n: int)
    requires p > 0 && (scale == 1 || scale == 100 || scale == 1000)
    ensures n * p <= t ==> n <= ShareMinor(t, p, scale)
    ensures t <= n * p ==> ShareMinor(t, p, scale) <= n
  {
    hide TwiceRounded, Grain, ShareMinor;
    var q := t as real / p as real;
    DivBack(t as real, p as real);
    QuotientGrains(t, p, scale);
    if n * p <= t {
      OrderBelow(q, t, p, n);
      RoundTwiceUp(q, Grain(scale), n);
    }
    if t <= n * p {
      OrderAbove(q, t, p, n);
      RoundTwiceDown(q, Grain(scale), n);
    }
  }

  lemma OrderBelow(q: real, t: int, p: int, n: int)
    requires p > 0 && q * p as real == t as real && n * p <= t
    ensures n as real <= q
  {
    IntReal(n, p);
    IntOrder(n * p, t);
    MulOrderBack(n as real, q, p as real);
  }

  lemma OrderAbove(q: real, t: int, p: int, n: int)
    requires p > 0 && q * p as real == t as real && t <= n * p
    ensures q <= n as real
  {
    IntReal(n, p);
    IntOrder(t, n * p);
    MulOrderBack(q, n as real, p as real);
  }

  lemma RoundTwiceUp(q: real, u: int, n: int)
    requires u > 0 && n as real <= q
    ensures n <= TwiceRounded(q, u)
  {
    hide HalfAway;
    var grains := q * u as real;
    var h := HalfAway(grains);
    assert TwiceRounded(q, u) == HalfAway(h as real / u as real);
    hide TwiceRounded;
    MulOrder(n as real, q, u as real);
    IntReal(n, u);
    HalfAwayBounds(grains, n * u);
    DivBack(h as real, u as real);
    OrderBelow(h as real / u as real, h, u, n);
    HalfAwayBounds(h as real / u as real, n);
  }

  lemma RoundTwiceDown(q: real, u: int, n: int)
    requires u > 0 && q <= n as real
    ensures TwiceRounded(q, u) <= n
  {
    hide HalfAway;
    var grains := q * u as real;
    var h := HalfAway(grains);
    assert TwiceRounded(q, u) == HalfAway(h as real / u as real);
    hide TwiceRounded;
    MulOrder(q, n as real, u as real);
    IntReal(n, u);
    HalfAwayBounds(grains, n * u);
    DivBack(h as real, u as real);
    OrderAbove(h as real / u as real, h, u, n);
    HalfAwayBounds(h as real / u as real, n);
  }

  /** The quotient of an amount counts grains, and the share counts them back. */
  lemma QuotientGrains(t: int, p: int, scale: int)
    requires p > 0 && (scale == 1 || scale == 100 || scale == 1000)
    ensures ShareMinor(t, p, scale) == TwiceRounded(t as real / p as real, Grain(scale))
  {
    hide HalfAway, Grain;
    var u, q := Grain(scale), t as real / p as real;
    Grains(t as real, p as real, scale);
    var h := HalfAway(q * u as real) as real;
    GrainsBack(h, scale);
  }

  lemma GrainsBack(h: real, scale: int)
    requires scale == 1 || scale == 100 || scale == 1000
    ensures h / 1e16 * scale as real == h / Grain(scale) as real
  {
    if scale == 100 {
      assert h / 1e16 * 100.0 == h / 1e14;
    } else if scale == 1000 {
      assert h / 1e16 * 1000.0 == h / 1e13;
    }
  }

  lemma Grains(t: real, p: real, scale: int)
    requires p > 0.0 && (scale == 1 || scale == 100 || scale == 1000)
    ensures t / scale as real / p * 1e16 == t / p * Grain(scale) as real
  {
    var q := t / p;
    assert q * p == t;
    if scale == 1 {
      assert t / 1.0 / p == q;
    } else if scale == 100 {
      Hundredth(t, p, 100.0);
    } else {
      Hundredth(t, p, 1000.0);
    }
  }

  lemma Hundredth(t: real, p: real, k: real)
    requires p > 0.0 && k > 0.0
    ensures t / k / p == t / p / k
  {
    var a, b := t / k / p, t / p / k;
    DivBack(t / k, p);
    DivBack(t, k);
    DivBack(t / p, k);
    DivBack(t, p);
    Reorder(a, p, k);
    Reorder(b, k, p);
    MulStrict(0.0, p, k);
    SameProduct(a, b, p * k);
  }

  lemma Reorder(a: real, p: real, k: real)
    ensures a * p * k == a * (p * k) && p * k == k * p && 0.0 * k == 0.0
  {}

  /** The share is the floor or the ceiling of the exact quotient, so what is
      left to distribute is smaller than the number of parts. */
  lemma ShareBetween(t: int, p: int, scale: int)
    requires p > 0 && (scale == 1 || scale == 100 || scale == 1000)
    ensures FloorDiv(t, p) <= ShareMinor(t, p, scale) <= CeilDiv(t, p)
    ensures -p < t - p * ShareMinor(t, p, scale) < p
  {
    var f, c, s := FloorDiv(t, p), CeilDiv(t, p), ShareMinor(t, p, scale);
    FloorFacts(t, p);
    DivSide(t, p, scale, f);
    DivSide(t, p, scale, c);
    hide FloorDiv, CeilDiv, ShareMinor;
    MulInt(f, s, p);
    MulInt(s, c, p);
  }

  lemma FloorFacts(t: int, p: int)
    requires p > 0
    ensures FloorDiv(t, p) * p <= t <= CeilDiv(t, p) * p
    ensures t - p < FloorDiv(t, p) * p && CeilDiv(t, p) * p < t + p
  {}

  function Abs(x: int): int { if x >= 0 then x else -x }

  /** The share is a nearest whole number of minor units to the exact quotient.
      Rounding twice could matter only to a split into more parts than the
      quotient has grains. */
  lemma ShareNearest(t: int, p: int, scale: int)
    requires p > 0 && (scale == 1 || scale == 100 || scale == 1000)
    ensures 2 * Abs(t - p * ShareMinor(t, p, scale)) * Grain(scale) <= p * (Grain(scale) + 1)
    ensures p < 10_000_000_000_000 ==> 2 * Abs(t - p * ShareMinor(t, p, scale)) <= p
  {
    hide HalfAway, Grain, ShareMinor, Abs, TwiceRounded;
    var u, q := Grain(scale), t as real / p as real;
    QuotientGrains(t, p, scale);
    DivBack(t as real, p as real);
    GrainFacts(scale);
    RoundedTwice(ShareMinor(t, p, scale), q, u, t, p);
  }

  lemma RoundedTwice(s: int, q: real, u: int, t: int, p: int)
    requires p > 0 && u > 0 && q * p as real == t as real
    requires s == TwiceRounded(q, u)
    ensures 2 * Abs(t - p * s) * u <= p * (u + 1)
    ensures p < u ==> 2 * Abs(t - p * s) <= p
  {
    hide HalfAway, Abs;
    var grains := q * u as real;
    var g := HalfAway(grains);
    HalfAwayBounds(grains, 0);
    HalfAwayBounds(g as real / u as real, 0);
    FirstRounding(g, u, q, t, p);
    SecondRounding(s, g, u);
    BothRoundings(s, g, u, t, p);
  }

  lemma GrainFacts(scale: int)
    requires scale == 1 || scale == 100 || scale == 1000
    ensures Grain(scale) >= 10_000_000_000_000
  {}

  lemma FirstRounding(g: int, u: int, q: real, t: int, p: int)
    requires p > 0 && q * p as real == t as real && -0.5 <= g as real - q * u as real <= 0.5
    ensures -p <= 2 * (g * p - t * u) <= p
  {
    var grains := q * u as real;
    IntTimes(g, p);
    GrainsOfTotal(q, t, p, u);
    hide Times;
    ScaledHalf(g as real, grains, g * p, t * u, p);
  }

  lemma GrainsOfTotal(q: real, t: int, p: int, u: int)
    requires q * p as real == t as real
    ensures Times(q * u as real, p as real) == (t * u) as real
  {
    Reorder(q, u as real, p as real);
    Reorder(q, p as real, u as real);
    IntReal(t, u);
  }

  lemma ScaledHalf(a: real, b: real, m: int, n: int, k: int)
    requires k > 0 && Times(a, k as real) == m as real && Times(b, k as real) == n as real && -0.5 <= a - b <= 0.5
    ensures -k <= 2 * (m - n) <= k
  {
    HalfTimes(k);
    hide Times;
    TimesOrder(-0.5, a - b, k as real);
    TimesOrder(a - b, 0.5, k as real);
    TimesDifference(a, b, k as real);
    assert (m - n) as real == m as real - n as real;
  }

  lemma HalfTimes(k: int)
    ensures 2.0 * Times(0.5, k as real) == k as real && 2.0 * Times(-0.5, k as real) == -(k as real)
  {}

  lemma SecondRounding(s: int, g: int, u: int)
    requires u > 0 && -0.5 <= s as real - g as real / u as real <= 0.5
    ensures -u <= 2 * (s * u - g) <= u
  {
    var back := g as real / u as real;
    DivBack(g as real, u as real);
    IntTimes(s, u);
    assert Times(back, u as real) == g as real;
    hide Times;
    ScaledHalf(s as real, back, s * u, g, u);
  }

  lemma BothRoundings(s: int, g: int, u: int, t: int, p: int)
    requires p > 0 && u > 0 && -p <= 2 * (g * p - t * u) <= p && -u <= 2 * (s * u - g) <= u
    ensures 2 * Abs(t - p * s) * u <= p * (u + 1)
    ensures p < u ==> 2 * Abs(t - p * s) <= p
  {
    var x, n := s * u - g, s * p - t;
    MulInt(-u, 2 * x, p);
    MulInt(2 * x, u, p);
    Expand(s, g, u, t, p);
    if 2 * n > p { MulInt(p + 1, 2 * n, u); }
    if 2 * n < -p { MulInt(2 * n, -p - 1, u); }
    SpreadOut(n, u, p);
  }

  lemma Expand(s: int, g: int, u: int, t: int, p: int)
    ensures 2 * (s * u - g) * p + 2 * (g * p - t * u) == 2 * (s * p - t) * u
    ensures p * s == s * p && -u * p == -(u * p)
  {
    assert s * u * p == s * p * u;
  }

  lemma SpreadOut(n: int, u: int, p: int)
    ensures (p + 1) * u == u * p + u && (-p - 1) * u == -(u * p) - u && p * (u + 1) == u * p + p
    ensures 2 * Abs(-n) * u == if n >= 0 then 2 * n * u else -(2 * n * u)
  {}

  lemma MulInt(a: int, b: int, p: int)
    requires a <= b && p > 0
    ensures a * p <= b * p && p * a == a * p && p * b == b * p
  {}

  /** A share after the remainder d has been handed out from the front. */
  function ShareAt(s: int, d: int, j: nat): int {
    if d > 0 && j < d then s + 1 else if d < 0 && j < -d then s - 1 else s
  }

  function Sum(shares: seq<real>): real {
    if shares == [] then 0.0 else Sum(shares[..|shares| - 1]) + shares[|shares| - 1]
  }

  lemma OneMoreTime(n: int, s: int)
    ensures (n + 1) * s == n * s + s
  {}

  lemma {:induction false} SumOfShares(shares: seq<real>, s: int, d: int, scale: int)
    requires scale > 0 && forall j :: 0 <= j < |shares| ==> shares[j] == Amount(ShareAt(s, d, j), scale)
    ensures Sum(shares) == Amount(|shares| * s + HandedOut(d, |shares|), scale)
  {
    if shares == [] {
      AmountFacts(0, 0, scale);
    } else {
      var n := |shares| - 1;
      SumOfShares(shares[..n], s, d, scale);
      hide Amount;
      AmountFacts(n * s + HandedOut(d, n), ShareAt(s, d, n), scale);
      OneMoreTime(n, s);
    }
  }

  /** How much of the remainder the first n shares received. */
  function HandedOut(d: int, n: nat): int {
    var m: int := n;
    if d > 0 then (if m < d then m else d) else (if m < -d then -m else d)
  }

  /** Splits a rounded total into exactly `parts` shares that sum to it. Each is
      the floor or the ceiling of the exact quotient in minor units; the shares
      that differ from the common one form a prefix; and the remainder is gone
      before the parts run out, for negative totals too. */
  method AllocateEven(total: real, parts: int, currency: string) returns (shares: array<real>)
    ensures parts <= 0 ==> shares.Length == 0
    ensures parts > 0 ==>
      var k := Scale(currency);
      var t := Minor(total, k);
      var s := ShareMinor(t, parts, k);
      && shares.Length == parts
      && Sum(shares[..]) == Round(total, currency)
      && (forall j :: 0 <= j < parts ==>
           shares[j] == Amount(if j < t - parts * s then s + 1 else if j < parts * s - t then s - 1 else s, k))
      && (forall j :: 0 <= j < parts ==>
           Amount(FloorDiv(t, parts), k) <= shares[j] <= Amount(CeilDiv(t, parts), k))
  {
    hide Sum, ShareMinor, HalfAway, Amount, Exponent, FloorDiv, CeilDiv;
    if parts <= 0 {
      shares := new real[0];
      return;
    }
    ghost var k := Scale(currency);
    ghost var t := Minor(total, k);
    ghost var s := ShareMinor(t, parts, k);
    ghost var d := t - parts * s;
    var rounded := Round(total, currency);
    var share := CommonShare(rounded, t, parts, currency);
    shares := new real[parts];
    var handed := 0.0;
    AmountFacts(0, 0, k);
    var i := 0;
    while i < parts
      invariant 0 <= i <= parts
      invariant forall j :: 0 <= j < i ==> shares[j] == Amount(s, k)
      invariant handed == Amount(i * s, k)
    {
      shares[i] := share;
      AmountFacts(i * s, s, k);
      OneMoreTime(i, s);
      handed := handed + share;
      i := i + 1;
    }
    AmountFacts(t, parts * s, k);
    ShareBetween(t, parts, k);
    var diff := rounded - handed;
    var one := FromMinor(1, currency);
    Distribute(shares, diff, one, s, d, k);
    SplitSums(shares[..], t, s, d, k);
    AmountsBetween(t, parts, k, s, d);
  }

  /** The shares give the total back. */
  lemma SplitSums(shares: seq<real>, t: int, s: int, d: int, k: int)
    requires k > 0 && d == t - |shares| * s && -|shares| < d < |shares|
    requires forall j :: 0 <= j < |shares| ==> shares[j] == Amount(ShareAt(s, d, j), k)
    ensures Sum(shares) == Amount(t, k)
  {
    hide Amount, ShareAt, Sum;
    SumOfShares(shares, s, d, k);
  }

  lemma AmountsBetween(t: int, p: int, k: int, s: int, d: int)
    requires p > 0 && (k == 1 || k == 100 || k == 1000)
    requires s == ShareMinor(t, p, k) && d == t - p * s
    ensures forall j: nat :: Amount(FloorDiv(t, p), k) <= Amount(ShareAt(s, d, j), k) <= Amount(CeilDiv(t, p), k)
  {
    SharesBetween(t, p, k, s, d);
    hide ShareAt, FloorDiv, CeilDiv, ShareMinor, Amount;
    forall j: nat
      ensures Amount(FloorDiv(t, p), k) <= Amount(ShareAt(s, d, j), k) <= Amount(CeilDiv(t, p), k)
    {
      AmountFacts(ShareAt(s, d, j), FloorDiv(t, p), k);
      AmountFacts(CeilDiv(t, p), ShareAt(s, d, j), k);
    }
  }

  method CommonShare(rounded: real, ghost t: int, parts: int, currency: string) returns (share: real)
    requires parts > 0 && rounded == Amount(t, Scale(currency))
    ensures share == Amount(ShareMinor(t, parts, Scale(currency)), Scale(currency))
  {
    share := Round(Div(rounded, parts), currency);
  }

  /** Adjusting a floor share up, or a ceiling share down, stays between. */
  lemma SharesBetween(t: int, p: int, scale: int, s: int, d: int)
    requires p > 0 && (scale == 1 || scale == 100 || scale == 1000)
    requires s == ShareMinor(t, p, scale) && d == t - p * s
    ensures forall j: nat :: FloorDiv(t, p) <= ShareAt(s, d, j) <= CeilDiv(t, p)
  {
    ShareBetween(t, p, scale);
    FloorFacts(t, p);
    hide ShareMinor, FloorDiv, CeilDiv;
    RoomLeft(t, p, s, FloorDiv(t, p), CeilDiv(t, p));
  }

  lemma RoomLeft(t: int, p: int, s: int, f: int, c: int)
    requires p > 0 && f * p <= t <= c * p && f <= s <= c
    ensures t - p * s > 0 ==> s < c
    ensures t - p * s < 0 ==> f < s
  {
    if s == c { MulInt(c, s, p); }
    if s == f { MulInt(s, f, p); }
  }

  /** Hands the remainder out in minor-unit steps, from the front. */
  method Distribute(shares: array<real>, remainder: real, one: real, ghost s: int, ghost d: int, ghost k: int)
    requires k > 0 && one == Amount(1, k) && remainder == Amount(d, k)
    requires -shares.Length < d < shares.Length
    requires forall j :: 0 <= j < shares.Length ==> shares[j] == Amount(s, k)
    modifies shares
    ensures forall j :: 0 <= j < shares.Length ==> shares[j] == Amount(ShareAt(s, d, j), k)
  {
    hide Amount;
    var diff := remainder;
    ghost var left := d;
    var i := 0;
    AmountFacts(0, 0, k);
    ZeroAmount(k);
    while diff != 0.0 && i < shares.Length
      invariant 0 <= i <= shares.Length
      invariant diff == Amount(left, k)
      invariant left == d - HandedOut(d, i)
      invariant i <= (if d < 0 then -d else d)
      invariant forall j :: 0 <= j < i ==> shares[j] == Amount(ShareAt(s, d, j), k)
      invariant forall j :: i <= j < shares.Length ==> shares[j] == Amount(s, k)
      decreases shares.Length - i
    {
      AmountFacts(left, 1, k);
      AmountFacts(left, 0, k);
      AmountFacts(-1, left, k);
      AmountFacts(0, 1, k);
      AmountFacts(s, 1, k);
      AmountFacts(left, -1, k);
      if diff >= one {
        shares[i] := shares[i] + one;
        diff := diff - one;
        left := left - 1;
      } else if diff <= -one {
        shares[i] := shares[i] - one;
        diff := diff + one;
        left := left + 1;
      } else {
        // The remainder is a whole number of minor units: the default branch
        // of the program, which adds a fraction, is never taken.
        assert false;
      }
      i := i + 1;
    }
    AmountFacts(left, 0, k);
  }

  lemma ZeroAmount(k: int)
    requires k > 0
    ensures Amount(0, k) == 0.0
  {}
}
