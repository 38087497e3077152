/** Business document numbers (libs/go/arda-docno/docno.go): the series
    validator, the renderer, and the transaction that issues a number. */
module Docno {
  import opened Common
  import opened Text
  import opened NumberPattern
  import opened Decimals
  import opened NumberPieces

  /** A civil date. The program compares and renders dates by day. */
  datatype Date = Date(year: nat, month: nat, day: nat)
  {
    predicate Valid() { 1 <= month <= 12 && 1 <= day <= 31 }

    /** Go's zero time. */
    predicate IsZero() { year == 1 && month == 1 && day == 1 }

    predicate Before(other: Date) {
      year < other.year || (year == other.year && (month < other.month || (month == other.month && day < other.day)))
    }
  }

  /** Dates are ordered as their eight digits are. */
  lemma BeforeExactly(a: Date, b: Date)
    requires a.Valid() && b.Valid()
    ensures a.Before(b) <==> 10000 * a.year + 100 * a.month + a.day < 10000 * b.year + 100 * b.month + b.day
  {}

  datatype Reset = None | Year | Month | Day | Unknown(name: string)

  datatype Series = Series(id: string, tenantId: string, orgCode: string, documentType: string, version: int,
                           effectiveFrom: Date, effectiveTo: Option<Date>, reset: Reset, pattern: string,
                           sequenceStart: int, sequenceWidth: int, overflowPolicy: string, status: string)

  datatype Error = InvalidSeries | SequenceOverflow | DocumentNumberExists

  predicate NeedsYear(r: Reset) { r == Year || r == Month || r == Day }

  predicate NeedsMonth(r: Reset) { r == Month || r == Day }

  predicate NeedsDay(r: Reset) { r == Day }

  /** The checks of the validator, in its order. */
  method ValidateSeries(s: Series) returns (ok: bool)
    ensures ok == ValidSeries(s)
  {
    if Blank(s.id) || Blank(s.tenantId) || Blank(s.documentType) || s.version < 1 || Blank(s.pattern)
       || s.sequenceStart < 1 || s.sequenceWidth < 1 || s.sequenceWidth > 18 || s.effectiveFrom.IsZero() {
      return false;
    }
    if s.overflowPolicy != "REJECT" {
      return false;
    }
    if s.status != "ACTIVE" {
      return false;
    }
    if s.effectiveTo.Some? && s.effectiveTo.value.Before(s.effectiveFrom) {
      return false;
    }
    if CountSeq(s.pattern) != 1 {
      return false;
    }
    if FirstWidth(s.pattern) != s.sequenceWidth {
      return false;
    }
    var needYear, needMonth, needDay := false, false, false;
    match s.reset {
      case None =>
      case Year => needYear := true;
      case Month => needYear, needMonth := true, true;
      case Day => needYear, needMonth, needDay := true, true, true;
      case Unknown(_) => return false;
    }
    if Contains(s.pattern, YYYY) != needYear || Contains(s.pattern, MM) != needMonth || Contains(s.pattern, DD) != needDay {
      return false;
    }
    var known := ReplaceSeq(s.pattern, "");
    known := ReplaceAll(known, YYYY, "");
    known := ReplaceAll(known, MM, "");
    known := ReplaceAll(known, DD, "");
    ok := NoBraces(known);
  }

  /** A series that can be used: complete, active, with exactly one sequence
      token of the configured width and exactly the date tokens its reset period
      needs, and nothing else in braces. */
  predicate ValidSeries(s: Series) {
    && !Blank(s.id) && !Blank(s.tenantId) && !Blank(s.documentType) && s.version >= 1 && !Blank(s.pattern)
    && s.sequenceStart >= 1 && 1 <= s.sequenceWidth <= 18 && !s.effectiveFrom.IsZero()
    && s.overflowPolicy == "REJECT" && s.status == "ACTIVE"
    && (s.effectiveTo.Some? ==> !s.effectiveTo.value.Before(s.effectiveFrom))
    && CountSeq(s.pattern) == 1 && FirstWidth(s.pattern) == s.sequenceWidth
    && !s.reset.Unknown?
    && Contains(s.pattern, YYYY) == NeedsYear(s.reset)
    && Contains(s.pattern, MM) == NeedsMonth(s.reset)
    && Contains(s.pattern, DD) == NeedsDay(s.reset)
    && NoBraces(Leftover(s.pattern))
  }

  // ----- Period keys

  function YearText(d: Date): string { Padded(d.year, 4) }

  function MonthText(d: Date): string { Padded(d.month, 2) }

  function DayText(d: Date): string { Padded(d.day, 2) }

  function PeriodKey(reset: Reset, d: Date): Result<string, Error> {
    match reset
    case None => Ok("ALL")
    case Year => Ok(YearText(d))
    case Month => Ok(YearText(d) + "-" + MonthText(d))
    case Day => Ok(YearText(d) + "-" + MonthText(d) + "-" + DayText(d))
    case Unknown(_) => Err(InvalidSeries)
  }

  /** Two dates fall in the same period. */
  predicate SamePeriod(reset: Reset, a: Date, b: Date) {
    && (NeedsYear(reset) ==> a.year == b.year)
    && (NeedsMonth(reset) ==> a.month == b.month)
    && (NeedsDay(reset) ==> a.day == b.day)
  }

  lemma TwoDigits(d: Date)
    requires d.Valid()
    ensures |MonthText(d)| == 2 && |DayText(d)| == 2
  {
    assert Pow10(2) == 100 by { assert Pow10(1) == 10 * Pow10(0); }
    PaddedWidth(d.month, 2);
    PaddedWidth(d.day, 2);
  }

  /** The key names the period: equal keys, same period, and conversely. */
  lemma PeriodKeyNames(reset: Reset, a: Date, b: Date)
    requires a.Valid() && b.Valid() && !reset.Unknown?
    ensures PeriodKey(reset, a) == PeriodKey(reset, b) <==> SamePeriod(reset, a, b)
  {
    hide Padded;
    TwoDigits(a);
    TwoDigits(b);
    PaddedInjective(a.year, b.year, 4);
    PaddedInjective(a.month, b.month, 2);
    PaddedInjective(a.day, b.day, 2);
    if PeriodKey(reset, a) == PeriodKey(reset, b) {
      var ka, kb := PeriodKey(reset, a).value, PeriodKey(reset, b).value;
      if reset == Month {
        JoinedApart(YearText(a), MonthText(a), YearText(b), MonthText(b));
      } else if reset == Day {
        JoinedApart(YearText(a) + "-" + MonthText(a), DayText(a), YearText(b) + "-" + MonthText(b), DayText(b));
        JoinedApart(YearText(a), MonthText(a), YearText(b), MonthText(b));
      }
    }
  }

  lemma JoinedApart(a: string, b: string, c: string, d: string)
    requires a + "-" + b == c + "-" + d && |b| == |d|
    ensures a == c && b == d
  {
    SplitEqual(a + "-", b, c + "-", d);
    SplitEqual(a, "-", c, "-");
  }

  /** The key of a period reads back as the parts of the date it is made of,
      separated by dashes. */
  ghost predicate KeyReads(reset: Reset, d: Date, key: string) {
    match reset
    case None => key == "ALL"
    case Year => Reads(key, d.year, 4)
    case Month => exists y, m :: key == Dashed(y, m) && Reads(y, d.year, 4) && Reads(m, d.month, 2)
    case Day => exists y, m, n :: key == Dashed(Dashed(y, m), n)
                               && Reads(y, d.year, 4) && Reads(m, d.month, 2) && Reads(n, d.day, 2)
    case Unknown(_) => false
  }

  function Dashed(a: string, b: string): string { a + "-" + b }

  lemma PeriodKeyReads(reset: Reset, d: Date)
    ensures PeriodKey(reset, d).Ok? <==> !reset.Unknown?
    ensures PeriodKey(reset, d).Ok? ==> KeyReads(reset, d, PeriodKey(reset, d).value)
    ensures PeriodKey(reset, d).Err? ==> PeriodKey(reset, d) == Err(InvalidSeries)
  {
    hide Padded, Reads;
    PaddedReads(d.year, 4);
    PaddedReads(d.month, 2);
    PaddedReads(d.day, 2);
    var y, m, n := YearText(d), MonthText(d), DayText(d);
    if reset == Month {
      assert PeriodKey(reset, d).value == Dashed(y, m);
    } else if reset == Day {
      assert PeriodKey(reset, d).value == Dashed(Dashed(y, m), n);
    }
  }

  // ----- Rendering

  predicate InEffect(s: Series, d: Date) {
    !d.Before(s.effectiveFrom) && (s.effectiveTo.Some? ==> !s.effectiveTo.value.Before(d))
  }

  /** A series is in effect from its first day to its last, both included. */
  lemma InEffectExactly(s: Series, d: Date)
    requires d.Valid() && s.effectiveFrom.Valid() && (s.effectiveTo.Some? ==> s.effectiveTo.value.Valid())
    ensures InEffect(s, d) <==>
      && 10000 * s.effectiveFrom.year + 100 * s.effectiveFrom.month + s.effectiveFrom.day
         <= 10000 * d.year + 100 * d.month + d.day
      && (s.effectiveTo.Some? ==>
            10000 * d.year + 100 * d.month + d.day
            <= 10000 * s.effectiveTo.value.year + 100 * s.effectiveTo.value.month + s.effectiveTo.value.day)
  {
    BeforeExactly(d, s.effectiveFrom);
    if s.effectiveTo.Some? { BeforeExactly(s.effectiveTo.value, d); }
  }

  function ValuesOf(s: Series, d: Date, sequence: nat): Values
    requires s.sequenceWidth >= 0
  {
    Values(YearText(d), MonthText(d), DayText(d), Padded(sequence, s.sequenceWidth))
  }

  /** The display number of a sequence: all tokens substituted at once. */
  function Render(s: Series, d: Date, sequence: nat): string
    requires s.sequenceWidth >= 0
  {
    Substitute(s.pattern, ValuesOf(s, d, sequence))
  }

  /** What stands for a piece: a character for itself, and for a token digits
      that read as the year, the month, the day or the sequence. */
  predicate PieceReads(p: Piece, text: string, d: Date, sequence: nat, width: nat) {
    match p
    case Char(c) => text == [c]
    case YearToken => Reads(text, d.year, 4)
    case MonthToken => Reads(text, d.month, 2)
    case DayToken => Reads(text, d.day, 2)
    case SequenceToken(_) => Reads(text, sequence, width) && |text| == width
  }

  ghost predicate Shows(pattern: string, ps: seq<Piece>, texts: seq<string>, d: Date, sequence: nat, width: nat, text: string) {
    && ArePieces(pattern, ps) && |texts| == |ps| && text == Concat(texts)
    && forall k :: 0 <= k < |ps| ==> PieceReads(ps[k], texts[k], d, sequence, width)
  }

  /** The tokens of a usable pattern: the parts of the date its period is made
      of, and one sequence of its width. */
  ghost predicate TokensOf(reset: Reset, width: int, ps: seq<Piece>) {
    && (YearToken in ps <==> reset == Year || reset == Month || reset == Day)
    && (MonthToken in ps <==> reset == Month || reset == Day)
    && (DayToken in ps <==> reset == Day)
    && exists k: nat :: width >= 0 && OnlySequence(ps, k, width)
  }

  /** A display number reads back: cut along the pieces of its pattern, it shows
      the date and the sequence. */
  ghost predicate ReadsBack(s: Series, d: Date, sequence: nat, text: string) {
    s.sequenceWidth >= 1
    && exists ps, texts :: TokensOf(s.reset, s.sequenceWidth, ps)
                        && Shows(s.pattern, ps, texts, d, sequence, s.sequenceWidth, text)
  }

  lemma RenderReadsBack(s: Series, d: Date, sequence: nat)
    requires ValidSeries(s) && sequence < Pow10(s.sequenceWidth)
    ensures ReadsBack(s, d, sequence, Render(s, d, sequence))
  {
    hide Padded, Reads, Substitute, Pieces, Leftover, Contains, CountSeq, FirstWidth, OnlySequence, ArePieces, Pow10;
    var v := ValuesOf(s, d, sequence);
    var ps := Pieces(s.pattern);
    PiecesOf(s.pattern);
    SubstitutePieces(s.pattern, v);
    DatesAmong(s.pattern);
    SequencesCounted(s.pattern);
    PaddedReads(d.year, 4);
    PaddedReads(d.month, 2);
    PaddedReads(d.day, 2);
    PaddedReads(sequence, s.sequenceWidth);
    PaddedWidth(sequence, s.sequenceWidth);
    assert TokensOf(s.reset, s.sequenceWidth, ps);
    assert Shows(s.pattern, ps, Texts(ps, v), d, sequence, s.sequenceWidth, Render(s, d, sequence));
  }

  /** Only one text reads back as a date and a sequence. */
  lemma ReadsBackOnce(s: Series, d: Date, sequence: nat, a: string, b: string)
    requires ReadsBack(s, d, sequence, a) && ReadsBack(s, d, sequence, b)
    ensures a == b
  {
    hide Reads, TokensOf, ArePieces;
    var ps, texts :| TokensOf(s.reset, s.sequenceWidth, ps) && Shows(s.pattern, ps, texts, d, sequence, s.sequenceWidth, a);
    var qs, texts' :| TokensOf(s.reset, s.sequenceWidth, qs) && Shows(s.pattern, qs, texts', d, sequence, s.sequenceWidth, b);
    OnlyPieces(s.pattern, ps, qs);
    forall k | 0 <= k < |texts| ensures texts[k] == texts'[k] {
      SameText(ps[k], texts[k], texts'[k], d, sequence, s.sequenceWidth);
    }
    assert texts == texts';
  }

  lemma SameText(p: Piece, a: string, b: string, d: Date, sequence: nat, width: nat)
    requires width >= 1 && PieceReads(p, a, d, sequence, width) && PieceReads(p, b, d, sequence, width)
    ensures a == b
  {
    hide Reads;
    match p
    case Char(c) =>
    case YearToken => ReadsOnce(a, b, d.year, 4);
    case MonthToken => ReadsOnce(a, b, d.month, 2);
    case DayToken => ReadsOnce(a, b, d.day, 2);
    case SequenceToken(_) => ReadsOnce(a, b, sequence, width);
  }

  /** Which series are usable: the fields are set, and the pattern has the
      tokens its reset period needs. Stated for the patterns whose literal text
      has no braces; of the others a few are usable, such as {M{YYYY}M}{SEQ:1}. */
  lemma ValidExactly(s: Series, ps: seq<Piece>)
    requires ArePieces(s.pattern, ps) && Plain(ps)
    ensures ValidSeries(s) <==>
      && !Blank(s.id) && !Blank(s.tenantId) && !Blank(s.documentType) && s.version >= 1 && !Blank(s.pattern)
      && s.sequenceStart >= 1 && 1 <= s.sequenceWidth <= 18
      && s.effectiveFrom != Date(1, 1, 1)
      && (s.effectiveTo.Some? ==> !s.effectiveTo.value.Before(s.effectiveFrom))
      && s.overflowPolicy == "REJECT" && s.status == "ACTIVE" && !s.reset.Unknown?
      && TokensOf(s.reset, s.sequenceWidth, ps)
  {
    hide Pieces, Leftover, Contains, CountSeq, FirstWidth, OnlySequence, ArePieces, NoBraces;
    PiecesOf(s.pattern);
    OnlyPieces(s.pattern, ps, Pieces(s.pattern));
    DatesAmong(s.pattern);
    SequencesCounted(s.pattern);
    PlainLeftover(s.pattern, ps);
    if k: nat :| s.sequenceWidth >= 0 && OnlySequence(ps, k, s.sequenceWidth) {
      SequencesFound(s.pattern, k, s.sequenceWidth);
    }
  }

  // ----- A series

  const MONTHLY := Series("s-1", "t-1", "", "INVOICE", 1, Date(2024, 1, 1), Common.None, Month,
                          "INV-{YYYY}{MM}-{SEQ:4}", 1, 4, "REJECT", "ACTIVE")

  const MONTHLY_PIECES := Chars("INV-") + ([YearToken] + ([MonthToken] + (Chars("-") + ([SequenceToken("4")] + []))))

  /** A pattern of text, year, month, text and sequence. */
  lemma MonthlyPattern(prefix: string, dash: string, w: string)
    requires (forall i :: 0 <= i < |prefix| ==> prefix[i] != '{') && (forall i :: 0 <= i < |dash| ==> dash[i] != '{')
    requires IsWidth(w)
    ensures ArePieces(prefix + ("{YYYY}" + ("{MM}" + (dash + ("{SEQ:" + w + "}" + "")))),
                      Chars(prefix) + ([YearToken] + ([MonthToken] + (Chars(dash) + ([SequenceToken(w)] + [])))))
  {
    assert ArePieces("", []);
    hide ArePieces, IsWidth, Chars;
    var s1, p1 := "{SEQ:" + w + "}" + "", [SequenceToken(w)] + [];
    PieceOn(SequenceToken(w), "", []);
    TextOn(dash, s1, p1);
    PieceOn(MonthToken, dash + s1, Chars(dash) + p1);
    PieceOn(YearToken, "{MM}" + (dash + s1), [MonthToken] + (Chars(dash) + p1));
    TextOn(prefix, "{YYYY}" + ("{MM}" + (dash + s1)), [YearToken] + ([MonthToken] + (Chars(dash) + p1)));
  }

  lemma MonthlyPieces()
    ensures ArePieces(MONTHLY.pattern, MONTHLY_PIECES)
  {
    hide ArePieces, Chars;
    assert IsWidth("4");
    MonthlyPattern("INV-", "-", "4");
    assert MONTHLY.pattern == "INV-" + ("{YYYY}" + ("{MM}" + ("-" + ("{SEQ:" + "4" + "}" + ""))));
  }

  lemma MonthlyTokens()
    ensures TokensOf(Month, 4, MONTHLY_PIECES) && Plain(MONTHLY_PIECES)
  {
    hide IsWidth, AreDigits, Value;
    WidthFour();
    var ps := MONTHLY_PIECES;
    assert |ps| == 8 && ps[..4] == Chars("INV-");
    assert ps[4] == YearToken && ps[5] == MonthToken && ps[6] == Char('-') && ps[7] == SequenceToken("4");
    assert forall k :: 0 <= k < 4 ==> ps[k] == ps[..4][k];
    assert OnlySequence(ps, 7, 4);
  }

  lemma MonthlyValid()
    ensures ValidSeries(MONTHLY)
  {
    hide ArePieces, ValidSeries, TokensOf, Plain, Chars, Blank, IsSpace;
    MonthlyPieces();
    MonthlyTokens();
    NotBlank(MONTHLY.id, 's');
    NotBlank(MONTHLY.tenantId, 't');
    NotBlank(MONTHLY.documentType, 'I');
    NotBlank(MONTHLY.pattern, 'I');
    ValidExactly(MONTHLY, MONTHLY_PIECES);
  }

  lemma WidthFour()
    ensures IsWidth("4") && AreDigits("4") && Value("4") == 4
  {
    assert "4"[..0] == "";
  }

  lemma NotBlank(s: string, c: char)
    requires s != "" && s[0] == c && 'A' <= c <= 'z'
    ensures !Blank(s)
  {}

  lemma FourDigits(a: nat, b: nat, c: nat, d: nat)
    requires a < 10 && b < 10 && c < 10 && d < 10
    ensures var t := [DigitOf(a), DigitOf(b), DigitOf(c), DigitOf(d)];
      Reads(t, 1000 * a + 100 * b + 10 * c + d, 4)
    ensures Reads([DigitOf(c), DigitOf(d)], 10 * c + d, 2)
  {
    TwoDigitsRead(a, b);
    TwoDigitsRead(c, d);
    var t := [DigitOf(a), DigitOf(b), DigitOf(c), DigitOf(d)];
    assert t[..3] == [DigitOf(a), DigitOf(b), DigitOf(c)] && t[..3][..2] == [DigitOf(a), DigitOf(b)];
    assert Value(t[..3]) == 10 * Value(t[..3][..2]) + c;
  }

  lemma TwoDigitsRead(a: nat, b: nat)
    requires a < 10 && b < 10
    ensures Value([DigitOf(a), DigitOf(b)]) == 10 * a + b
  {
    assert [DigitOf(a), DigitOf(b)][..1] == [DigitOf(a)];
    OneDigit(a);
  }

  lemma OneDigit(a: nat)
    requires a < 10
    ensures Value([DigitOf(a)]) == a
  {
    assert [DigitOf(a)][..0] == "";
  }

  /** The texts of the year 2024, the month March and a sequence below ten. */
  lemma MonthlyTexts(n: nat)
    requires n < 10
    ensures Padded(2024, 4) == "2024" && Padded(3, 2) == "03" && Padded(n, 4) == "000" + [DigitOf(n)]
  {
    hide Padded, Value;
    FourDigits(2, 0, 2, 4);
    FourDigits(0, 0, 0, 3);
    FourDigits(0, 0, 0, n);
    PaddedReads(2024, 4);
    PaddedReads(3, 2);
    PaddedReads(n, 4);
    ReadsOnce(Padded(2024, 4), [DigitOf(2), DigitOf(0), DigitOf(2), DigitOf(4)], 2024, 4);
    ReadsOnce(Padded(3, 2), [DigitOf(0), DigitOf(3)], 3, 2);
    ReadsOnce(Padded(n, 4), [DigitOf(0), DigitOf(0), DigitOf(0), DigitOf(n)], n, 4);
  }

  /** Its numbers in March 2024. */
  lemma MonthlyNumber(day: nat, n: nat)
    requires n < 10
    ensures Render(MONTHLY, Date(2024, 3, day), n) == "INV-202403-000" + [DigitOf(n)]
    ensures PeriodKey(MONTHLY.reset, Date(2024, 3, day)) == Ok("2024-03")
  {
    hide ArePieces, Substitute, Padded, Pieces, Texts, Concat, Chars;
    var d := Date(2024, 3, day);
    var v := ValuesOf(MONTHLY, d, n);
    MonthlyPieces();
    PiecesOf(MONTHLY.pattern);
    OnlyPieces(MONTHLY.pattern, MONTHLY_PIECES, Pieces(MONTHLY.pattern));
    SubstitutePieces(MONTHLY.pattern, v);
    MonthlyTexts(n);
    ConcatMonthly(v);
    MonthlySpelled(n);
  }

  lemma MonthlySpelled(n: nat)
    requires n < 10
    ensures "INV-" + ("2024" + ("03" + ("-" + ("000" + [DigitOf(n)])))) == "INV-202403-000" + [DigitOf(n)]
    ensures "2024" + "-" + "03" == "2024-03"
  {}

  lemma ConcatMonthly(v: Values)
    ensures Concat(Texts(MONTHLY_PIECES, v)) == "INV-" + (v.y + (v.m + ("-" + v.q)))
  {
    hide Concat;
    assert Concat([]) == "" by { ConcatNone(); }
    var ts := Texts(MONTHLY_PIECES, v);
    assert ts == ["I"] + (["N"] + (["V"] + (["-"] + ([v.y] + ([v.m] + (["-"] + ([v.q] + [])))))));
    ConcatCons(v.q, []);
    ConcatCons("-", [v.q] + []);
    ConcatCons(v.m, ["-"] + ([v.q] + []));
    var rest := [v.y] + ([v.m] + (["-"] + ([v.q] + [])));
    ConcatCons(v.y, [v.m] + (["-"] + ([v.q] + [])));
    ConcatCons("-", rest);
    ConcatCons("V", ["-"] + rest);
    ConcatCons("N", ["V"] + (["-"] + rest));
    ConcatCons("I", ["N"] + (["V"] + (["-"] + rest)));
    assert v.q + "" == v.q;
    Spelled(Concat(rest));
  }

  lemma Spelled(rest: string)
    ensures "I" + ("N" + ("V" + ("-" + rest))) == "INV-" + rest
  {}

  lemma ConcatCons(a: string, rest: seq<string>)
    ensures Concat([a] + rest) == a + Concat(rest)
  {
    assert ([a] + rest)[1..] == rest;
  }

  lemma ConcatNone()
    ensures Concat([]) == ""
  {}

  /** Renders a number, or refuses: an unusable series or date, a sequence before
      the start, or a sequence that needs more digits than the width. */
  method FormatDisplayNumber(s: Series, d: Date, sequence: int) returns (r: Result<string, Error>)
    ensures r.Ok? <==> ValidSeries(s) && !d.IsZero() && InEffect(s, d)
                       && s.sequenceStart <= sequence < Pow10(s.sequenceWidth)
    ensures r == Err(SequenceOverflow) <==>
      ValidSeries(s) && !d.IsZero() && InEffect(s, d) && sequence >= s.sequenceStart && sequence >= Pow10(s.sequenceWidth)
    ensures r.Err? ==> r.error == InvalidSeries || r.error == SequenceOverflow
    ensures r.Ok? ==> r.value == Render(s, d, sequence) && ReadsBack(s, d, sequence, r.value)
  {
    hide Leftover, ReadsBack, CountSeq, FirstWidth, Contains, Pow10, ReplaceAll, ReplaceSeq, Substitute, Decimal;
    var valid := ValidateSeries(s);
    if !valid {
      return Err(InvalidSeries);
    }
    if d.IsZero() {
      return Err(InvalidSeries);
    }
    if d.Before(s.effectiveFrom) || (s.effectiveTo.Some? && s.effectiveTo.value.Before(d)) {
      return Err(InvalidSeries);
    }
    if sequence < s.sequenceStart {
      return Err(InvalidSeries);
    }
    var sequenceText := Decimal(sequence);
    DecimalWidth(sequence, s.sequenceWidth);
    if |sequenceText| > s.sequenceWidth {
      return Err(SequenceOverflow);
    }
    sequenceText := Zeros(s.sequenceWidth - |sequenceText|) + sequenceText;
    PaddedIs(sequence, s.sequenceWidth);
    var pattern := ReplaceAll(s.pattern, YYYY, YearText(d));
    pattern := ReplaceAll(pattern, MM, MonthText(d));
    pattern := ReplaceAll(pattern, DD, DayText(d));
    pattern := ReplaceSeq(pattern, sequenceText);
    ValidIsClean(s.pattern);
    PassesAreSimultaneous(s.pattern, ValuesOf(s, d, sequence));
    RenderReadsBack(s, d, sequence);
    r := Ok(pattern);
  }

  lemma PaddedIs(n: nat, w: nat)
    requires |Decimal(n)| <= w
    ensures Padded(n, w) == Zeros(w - |Decimal(n)|) + Decimal(n)
  {
    if |Decimal(n)| == w { assert Zeros(0) + Decimal(n) == Decimal(n); }
  }

  /** Rendering is injective: two numbers of one series read the same exactly
      when they have the same period and the same sequence. */
  lemma RenderInjective(s: Series, a: Date, m: nat, b: Date, n: nat)
    requires ValidSeries(s) && a.Valid() && b.Valid()
    requires m < Pow10(s.sequenceWidth) && n < Pow10(s.sequenceWidth)
    ensures Render(s, a, m) == Render(s, b, n) <==> PeriodKey(s.reset, a) == PeriodKey(s.reset, b) && m == n
  {
    hide Leftover, CountSeq, FirstWidth, Contains, Pow10, Substitute, Padded, PeriodKey, Blank;
    var v1, v2 := ValuesOf(s, a, m), ValuesOf(s, b, n);
    TwoDigits(a);
    TwoDigits(b);
    PaddedWidth(m, s.sequenceWidth);
    PaddedWidth(n, s.sequenceWidth);
    PaddedInjective(m, n, s.sequenceWidth);
    PaddedInjective(a.year, b.year, 4);
    PaddedInjective(a.month, b.month, 2);
    PaddedInjective(a.day, b.day, 2);
    PeriodKeyNames(s.reset, a, b);
    if Contains(s.pattern, YYYY) && |v1.y| != |v2.y| {
      if |v1.y| < |v2.y| { SubstituteLonger(s.pattern, v1, v2); } else { SubstituteLonger(s.pattern, v2, v1); }
    } else {
      SubstituteInjective(s.pattern, v1, v2);
    }
  }
}
