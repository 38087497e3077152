/** A number pattern as a sequence of pieces, literal characters and tokens, and
    the text of a number as the texts of its pieces. */
module NumberPieces {
  import opened Text
  import opened NumberPattern
  import opened Decimals

  datatype Piece = Char(c: char) | YearToken | MonthToken | DayToken | SequenceToken(width: string)

  /** How a piece is written in a pattern. */
  function Written(p: Piece): string {
    match p
    case Char(c) => [c]
    case YearToken => "{YYYY}"
    case MonthToken => "{MM}"
    case DayToken => "{DD}"
    case SequenceToken(width) => "{SEQ:" + width + "}"
  }

  function Concat(texts: seq<string>): string {
    if texts == [] then "" else texts[0] + Concat(texts[1..])
  }

  function WrittenAll(ps: seq<Piece>): string {
    if ps == [] then "" else Written(ps[0]) + WrittenAll(ps[1..])
  }

  /** One or two digits that do not begin with zero. */
  predicate IsWidth(w: string) {
    1 <= |w| <= 2 && w[0] in "123456789" && (|w| == 2 ==> w[1] in "0123456789")
  }

  predicate IsToken(t: string) {
    t == "{YYYY}" || t == "{MM}" || t == "{DD}"
    || (7 <= |t| <= 8 && t[..5] == "{SEQ:" && IsWidth(t[5..|t| - 1]) && t[|t| - 1] == '}')
  }

  predicate BeginsToken(s: string) {
    exists n :: 0 <= n <= |s| && IsToken(s[..n])
  }

  /** The pieces of a pattern, every token taken as one. */
  ghost predicate ArePieces(s: string, ps: seq<Piece>) {
    if ps == [] then s == ""
    else
      && (ps[0].SequenceToken? ==> IsWidth(ps[0].width))
      && (ps[0].Char? ==> !BeginsToken(s))
      && Written(ps[0]) <= s && ArePieces(s[|Written(ps[0])|..], ps[1..])
  }

  function Pieces(s: string): seq<Piece>
    decreases |s|
  {
    if s == "" then []
    else if SeqAt(s) > 0 then [SequenceToken(s[5..SeqAt(s) - 1])] + Pieces(s[SeqAt(s)..])
    else if YYYY <= s then [YearToken] + Pieces(s[6..])
    else if MM <= s then [MonthToken] + Pieces(s[4..])
    else if DD <= s then [DayToken] + Pieces(s[4..])
    else [Char(s[0])] + Pieces(s[1..])
  }

  lemma SeqToken(s: string)
    requires SeqAt(s) > 0
    ensures var n, w := SeqAt(s), s[5..SeqAt(s) - 1];
      IsToken(s[..n]) && s[..n] == "{SEQ:" + w + "}" && IsWidth(w) && AreDigits(w) && Value(w) == SeqWidthAt(s)
  {
    var n := SeqAt(s);
    assert s[..n][..5] == s[..5] && s[..n][5..n - 1] == s[5..n - 1];
    var w := s[5..n - 1];
    WidthDigits(s, n);
    if n == 7 {
      assert w == [s[5]];
    } else {
      assert w == [s[5], s[6]];
      ValueTwo(s[5], s[6]);
    }
  }

  lemma ValueTwo(a: char, b: char)
    requires IsDigit(a) && IsDigit(b)
    ensures Value([a, b]) == 10 * DigitValue(a) + DigitValue(b)
  {
    assert [a, b][..1] == [a] && [a][..0] == "";
    assert Value([a]) == 10 * Value("") + DigitValue(a);
  }

  lemma WidthDigits(s: string, n: nat)
    requires SeqAt(s) == n > 0
    ensures IsWidth(s[5..n - 1]) && AreDigits(s[5..n - 1])
  {
    assert s[5] == "123456789"[s[5] as int - 49];
    if n == 8 { assert s[6] == "0123456789"[s[6] as int - 48]; }
  }

  /** A pattern begins a token exactly where the program matches one. */
  lemma TokensBegin(s: string)
    ensures BeginsToken(s) <==> SeqAt(s) > 0 || YYYY <= s || MM <= s || DD <= s
  {
    if SeqAt(s) > 0 { SeqToken(s); }
    if YYYY <= s { assert IsToken(s[..6]); }
    if MM <= s { assert IsToken(s[..4]); }
    if DD <= s { assert IsToken(s[..4]); }
    if n :| 0 <= n <= |s| && IsToken(s[..n]) {
      var t := s[..n];
      if n >= 7 {
        assert t[..5] == s[..5] && t[5..n - 1] == s[5..n - 1];
        assert s[5..n - 1][0] == s[5];
        if n == 8 { assert s[5..n - 1][1] == s[6]; }
      }
    }
  }

  lemma {:induction false} PiecesOf(s: string)
    ensures ArePieces(s, Pieces(s))
    decreases |s|
  {
    hide SeqAt, BeginsToken;
    if s != "" {
      TokensBegin(s);
      var n := SeqAt(s);
      if n > 0 {
        SeqToken(s);
        PiecesOf(s[n..]);
        PieceFirst(s, SequenceToken(s[5..n - 1]), Pieces(s[n..]));
      } else if YYYY <= s {
        PiecesOf(s[6..]);
        PieceFirst(s, YearToken, Pieces(s[6..]));
      } else if MM <= s {
        PiecesOf(s[4..]);
        PieceFirst(s, MonthToken, Pieces(s[4..]));
      } else if DD <= s {
        PiecesOf(s[4..]);
        PieceFirst(s, DayToken, Pieces(s[4..]));
      } else {
        PiecesOf(s[1..]);
        PieceFirst(s, Char(s[0]), Pieces(s[1..]));
      }
    }
  }

  lemma PieceFirst(s: string, p: Piece, ps: seq<Piece>)
    requires Written(p) <= s && ArePieces(s[|Written(p)|..], ps)
    requires (p.SequenceToken? ==> IsWidth(p.width)) && (p.Char? ==> !BeginsToken(s))
    ensures ArePieces(s, [p] + ps)
  {
    assert ([p] + ps)[1..] == ps;
  }

  lemma TokenWritten(p: Piece, s: string)
    requires !p.Char? && (p.SequenceToken? ==> IsWidth(p.width)) && Written(p) <= s
    ensures BeginsToken(s)
  {
    var t := Written(p);
    assert s[..|t|] == t;
    if p.SequenceToken? { assert t[..5] == "{SEQ:" && t[5..|t| - 1] == p.width; }
    assert IsToken(t);
  }

  lemma SamePiece(p: Piece, q: Piece, s: string)
    requires Written(p) <= s && Written(q) <= s
    requires (p.SequenceToken? ==> IsWidth(p.width)) && (q.SequenceToken? ==> IsWidth(q.width))
    requires (p.Char? ==> !BeginsToken(s)) && (q.Char? ==> !BeginsToken(s))
    ensures p == q
  {
    hide BeginsToken;
    if !p.Char? { TokenWritten(p, s); }
    if !q.Char? { TokenWritten(q, s); }
    var a, b := Written(p), Written(q);
    assert forall i :: 0 <= i < |a| ==> a[i] == s[i];
    assert forall i :: 0 <= i < |b| ==> b[i] == s[i];
    assert a[0] == b[0];
    if !p.Char? {
      assert a[1] == b[1];
      if p.SequenceToken? { SameWidth(p.width, q.width, s); }
    }
  }

  lemma SameWidth(v: string, w: string, s: string)
    requires IsWidth(v) && IsWidth(w) && "{SEQ:" + v + "}" <= s && "{SEQ:" + w + "}" <= s
    ensures v == w
  {
    var a, b := "{SEQ:" + v + "}", "{SEQ:" + w + "}";
    assert a[5] == s[5] == b[5] && a[6] == s[6] == b[6];
    assert |v| == 1 <==> s[6] == '}';
    assert |v| == 2 ==> a[6] == v[1];
    assert |w| == 2 ==> b[6] == w[1];
    assert v[0] == a[5] && w[0] == b[5];
  }

  lemma NoEmptyPiece(s: string, ps: seq<Piece>, qs: seq<Piece>)
    requires ArePieces(s, ps) && ArePieces(s, qs) && (ps == [] || qs == [])
    ensures ps == qs
  {}

  /** A pattern has one sequence of pieces. */
  lemma {:induction false} OnlyPieces(s: string, ps: seq<Piece>, qs: seq<Piece>)
    requires ArePieces(s, ps) && ArePieces(s, qs)
    ensures ps == qs
  {
    hide BeginsToken, IsWidth;
    if ps == [] || qs == [] {
      NoEmptyPiece(s, ps, qs);
    } else {
      SamePiece(ps[0], qs[0], s);
      hide Written;
      OnlyPieces(s[|Written(ps[0])|..], ps[1..], qs[1..]);
      assert ps == [ps[0]] + ps[1..] && qs == [qs[0]] + qs[1..];
    }
  }

  /** A piece put before pieces. */
  lemma PieceOn(p: Piece, s: string, ps: seq<Piece>)
    requires ArePieces(s, ps) && (p.SequenceToken? ==> IsWidth(p.width)) && (p.Char? ==> p.c != '{')
    ensures ArePieces(Written(p) + s, [p] + ps)
  {
    var all := Written(p) + s;
    if p.Char? { assert !BeginsToken(all) by { NoBraceNoToken(all); } }
    assert all[|Written(p)|..] == s;
    PieceFirst(all, p, ps);
  }

  function Chars(text: string): (ps: seq<Piece>)
    ensures |ps| == |text| && forall k :: 0 <= k < |text| ==> ps[k] == Char(text[k])
  {
    seq(|text|, k requires 0 <= k < |text| => Char(text[k]))
  }

  /** Literal text put before pieces. */
  lemma {:induction false} TextOn(text: string, s: string, ps: seq<Piece>)
    requires ArePieces(s, ps) && forall i :: 0 <= i < |text| ==> text[i] != '{'
    ensures ArePieces(text + s, Chars(text) + ps)
  {
    hide ArePieces;
    if text == "" {
      assert text + s == s && Chars(text) + ps == ps;
    } else {
      TextOn(text[1..], s, ps);
      PieceOn(Char(text[0]), text[1..] + s, Chars(text[1..]) + ps);
      assert text + s == [text[0]] + (text[1..] + s);
      assert Chars(text) + ps == [Char(text[0])] + (Chars(text[1..]) + ps);
    }
  }

  lemma NoBraceNoToken(s: string)
    requires s != "" && s[0] != '{'
    ensures !BeginsToken(s)
  {
    forall n | 0 <= n <= |s| ensures !IsToken(s[..n]) {
      var t := s[..n];
      if n > 0 { assert t[0] == s[0]; }
      if n >= 5 { assert t[..5][0] == s[0]; }
    }
  }

  /** The pieces put together again are the pattern. */
  lemma {:induction false} PiecesWrite(s: string, ps: seq<Piece>)
    requires ArePieces(s, ps)
    ensures WrittenAll(ps) == s
  {
    if ps != [] { PiecesWrite(s[|Written(ps[0])|..], ps[1..]); }
  }

  // ----- What a number shows at every piece

  function TextOf(p: Piece, v: Values): string {
    match p
    case Char(c) => [c]
    case YearToken => v.y
    case MonthToken => v.m
    case DayToken => v.d
    case SequenceToken(_) => v.q
  }

  function Texts(ps: seq<Piece>, v: Values): (texts: seq<string>)
    ensures |texts| == |ps| && forall k :: 0 <= k < |ps| ==> texts[k] == TextOf(ps[k], v)
  {
    seq(|ps|, k requires 0 <= k < |ps| => TextOf(ps[k], v))
  }

  lemma PiecesStep(s: string, v: Values)
    requires s != ""
    ensures Pieces(s) != [] && Pieces(s)[1..] == Pieces(s[HeadLen(s)..]) && TextOf(Pieces(s)[0], v) == Head(s, v)
    ensures Pieces(s)[0].SequenceToken? <==> SeqAt(s) > 0
    ensures Pieces(s)[0] == YearToken <==> SeqAt(s) == 0 && YYYY <= s
    ensures Pieces(s)[0] == MonthToken <==> SeqAt(s) == 0 && MM <= s
    ensures Pieces(s)[0] == DayToken <==> SeqAt(s) == 0 && DD <= s
  {
    DistinctTokens(s);
  }

  /** Substituting is putting the texts of the pieces together. */
  lemma {:induction false} SubstitutePieces(s: string, v: Values)
    ensures Substitute(s, v) == Concat(Texts(Pieces(s), v))
    decreases |s|
  {
    hide SeqAt, Head, HeadLen, TextOf, Pieces, Substitute;
    if s == "" {
      NoPieces(v);
    } else {
      PiecesStep(s, v);
      SubstituteStep(s, v);
      var rest := s[HeadLen(s)..];
      SubstitutePieces(rest, v);
      assert Texts(Pieces(s), v)[1..] == Texts(Pieces(rest), v);
    }
  }

  lemma NoPieces(v: Values)
    ensures Pieces("") == [] && Substitute("", v) == ""
  {}

  /** The date tokens a pattern contains are among its pieces. */
  lemma {:induction false} DatesAmong(s: string)
    ensures Contains(s, YYYY) <==> YearToken in Pieces(s)
    ensures Contains(s, MM) <==> MonthToken in Pieces(s)
    ensures Contains(s, DD) <==> DayToken in Pieces(s)
    decreases |s|
  {
    if s != "" {
      PiecesStep(s, Values("", "", "", ""));
      OccursStep(s, YYYY);
      OccursStep(s, MM);
      OccursStep(s, DD);
      DatesAmong(s[HeadLen(s)..]);
      hide SeqAt, Head, HeadLen, Pieces, Contains;
      assert Pieces(s) == [Pieces(s)[0]] + Pieces(s[HeadLen(s)..]);
    }
  }

  /** One sequence token, of the given width, at k. */
  predicate OnlySequence(ps: seq<Piece>, k: nat, width: nat) {
    && k < |ps| && ps[k].SequenceToken?
    && IsWidth(ps[k].width) && AreDigits(ps[k].width) && Value(ps[k].width) == width
    && forall j :: 0 <= j < |ps| && j != k ==> !ps[j].SequenceToken?
  }

  lemma {:induction false} SequencesCounted(s: string)
    ensures CountSeq(s) == 0 ==> forall k :: 0 <= k < |Pieces(s)| ==> !Pieces(s)[k].SequenceToken?
    ensures CountSeq(s) == 1 ==> exists k: nat :: OnlySequence(Pieces(s), k, FirstWidth(s))
    decreases |s|
  {
    if s != "" {
      PiecesStep(s, Values("", "", "", ""));
      CountStep(s);
      var rest := s[HeadLen(s)..];
      SequencesCounted(rest);
      FirstStep(s);
      if SeqAt(s) > 0 { SeqToken(s); }
      hide SeqAt, HeadLen, Head, Pieces, CountSeq, FirstWidth, OnlySequence, Value;
      OneMore(Pieces(s), CountSeq(rest), SeqAt(s), FirstWidth(s), FirstWidth(rest));
    }
  }

  lemma {:induction false} FirstDrop(s: string, n: nat)
    requires n <= |s| && forall i :: 0 <= i < n ==> !OpensSeq(s[i..])
    ensures FirstWidth(s) == FirstWidth(s[n..])
    decreases n
  {
    if n == 0 {
      assert s[0..] == s;
    } else {
      var u := s[1..];
      assert s[0..] == s && !OpensSeq(s);
      SeqNeedsOpen(s);
      forall i | 0 <= i < n - 1 ensures !OpensSeq(u[i..]) { assert u[i..] == s[i + 1..]; }
      hide SeqAt, OpensSeq;
      FirstDrop(u, n - 1);
      assert u[n - 1..] == s[n..];
    }
  }

  lemma FirstAfter(s: string, t: string)
    requires DateToken(t) && t <= s
    ensures FirstWidth(s) == FirstWidth(s[|t|..])
  {
    forall i | 0 <= i < |t| ensures !OpensSeq(s[i..]) { assert s[i..][0] == t[i] && s[1] == t[1]; }
    FirstDrop(s, |t|);
  }

  lemma FirstStep(s: string)
    requires s != ""
    ensures SeqAt(s) > 0 ==> FirstWidth(s) == SeqWidthAt(s) && Pieces(s)[0] == SequenceToken(s[5..SeqAt(s) - 1])
    ensures SeqAt(s) == 0 ==> FirstWidth(s) == FirstWidth(s[HeadLen(s)..])
  {
    if SeqAt(s) == 0 {
      if YYYY <= s { FirstAfter(s, YYYY); }
      if MM <= s { FirstAfter(s, MM); }
      if DD <= s { FirstAfter(s, DD); }
    }
  }

  lemma OneMore(ps: seq<Piece>, count: nat, at: nat, first: nat, later: nat)
    requires ps != [] && (ps[0].SequenceToken? <==> at > 0)
    requires count == 0 ==> forall k :: 0 <= k < |ps[1..]| ==> !ps[1..][k].SequenceToken?
    requires count == 1 ==> exists k: nat :: OnlySequence(ps[1..], k, later)
    requires at > 0 ==> IsWidth(ps[0].width) && AreDigits(ps[0].width) && Value(ps[0].width) == first
    requires at == 0 ==> first == later
    ensures (if at > 0 then 1 else 0) + count == 0 ==> forall k :: 0 <= k < |ps| ==> !ps[k].SequenceToken?
    ensures (if at > 0 then 1 else 0) + count == 1 ==> exists k: nat :: OnlySequence(ps, k, first)
  {
    assert forall j :: 1 <= j < |ps| ==> ps[j] == ps[1..][j - 1];
    if at > 0 && count == 0 {
      assert OnlySequence(ps, 0, first);
    } else if at == 0 && count == 1 {
      var k: nat :| OnlySequence(ps[1..], k, later);
      assert OnlySequence(ps, k + 1, first);
    }
  }

  lemma SequencesFound(s: string, k: nat, width: nat)
    requires OnlySequence(Pieces(s), k, width)
    ensures CountSeq(s) == 1 && FirstWidth(s) == width
    decreases |s|
  {
    hide OnlySequence, HeadLen;
    SequenceFacts(Pieces(s), k, width);
    PiecesStep(s, Values("", "", "", ""));
    CountStep(s);
    FirstStep(s);
    hide Pieces, CountSeq, FirstWidth, SeqAt;
    var rest := s[HeadLen(s)..];
    if SeqAt(s) > 0 {
      SeqToken(s);
      NoSequence(rest);
    } else {
      SequencesFound(rest, k - 1, width);
    }
  }

  lemma SequenceFacts(ps: seq<Piece>, k: nat, width: nat)
    requires OnlySequence(ps, k, width)
    ensures ps != []
    ensures ps[0].SequenceToken? ==>
      && k == 0 && IsWidth(ps[0].width) && AreDigits(ps[0].width) && Value(ps[0].width) == width
      && forall j :: 0 <= j < |ps[1..]| ==> !ps[1..][j].SequenceToken?
    ensures !ps[0].SequenceToken? ==> k > 0 && OnlySequence(ps[1..], k - 1, width)
  {
    assert forall j :: 0 <= j < |ps[1..]| ==> ps[1..][j] == ps[j + 1];
  }

  lemma {:induction false} NoSequence(s: string)
    requires forall j :: 0 <= j < |Pieces(s)| ==> !Pieces(s)[j].SequenceToken?
    ensures CountSeq(s) == 0
    decreases |s|
  {
    if s != "" {
      PiecesStep(s, Values("", "", "", ""));
      CountStep(s);
      hide SeqAt, Head, HeadLen, Pieces, CountSeq;
      assert forall j :: 0 <= j < |Pieces(s)[1..]| ==> Pieces(s)[1..][j] == Pieces(s)[j + 1];
      NoSequence(s[HeadLen(s)..]);
    }
  }

  /** A pattern whose literal characters are not braces. */
  predicate Plain(ps: seq<Piece>) {
    forall k :: 0 <= k < |ps| && ps[k].Char? ==> ps[k].c != '{' && ps[k].c != '}'
  }

  /** Deleting the tokens of a plain pattern leaves its literal characters. */
  lemma {:induction false} PlainLeftover(s: string, ps: seq<Piece>)
    requires ArePieces(s, ps) && Plain(ps)
    ensures NoBraces(Leftover(s))
  {
    hide BeginsToken, IsWidth;
    if ps != [] {
      var p := ps[0];
      var a, b := Written(p), s[|Written(ps[0])|..];
      assert s == a + b;
      assert forall k :: 0 <= k < |ps[1..]| ==> ps[1..][k] == ps[k + 1];
      PlainLeftover(b, ps[1..]);
      hide Leftover, NoBraces, ReplaceAll, ReplaceSeq;
      LeftoverStep(p, b);
    }
  }

  lemma LeftoverStep(p: Piece, b: string)
    requires (p.Char? ==> p.c != '{' && p.c != '}') && (p.SequenceToken? ==> IsWidth(p.width))
    requires NoBraces(Leftover(b))
    ensures NoBraces(Leftover(Written(p) + b))
  {
    hide ReplaceAll, ReplaceSeq;
    var a := Written(p);
    var b0 := ReplaceSeq(b, "");
    var b1 := ReplaceAll(b0, YYYY, "");
    var b2 := ReplaceAll(b1, MM, "");
    match p
    case Char(c) =>
      SeqPassOver(a, b, "");
      PassOverDigits(a, b0, YYYY, "");
      PassOverDigits(a, b1, MM, "");
      PassOverDigits(a, b2, DD, "");
    case YearToken =>
      DateOver(a, b);
      Deleted(a, b0);
    case MonthToken =>
      DateOver(a, b);
      PassOverToken(a, b0, YYYY, "");
      Deleted(a, b1);
    case DayToken =>
      DateOver(a, b);
      PassOverToken(a, b0, YYYY, "");
      PassOverToken(a, b1, MM, "");
      Deleted(a, b2);
    case SequenceToken(w) =>
      WrittenSeq(w);
      SeqAtStart(a, b);
      SeqDeleted(a, b);
  }

  lemma DateOver(a: string, b: string)
    requires DateToken(a)
    ensures ReplaceSeq(a + b, "") == a + ReplaceSeq(b, "")
  {
    hide ReplaceSeq, SeqAt;
    SeqNeedsOpen(a + b);
    SeqPassOver(a[1..], b, "");
    assert a + b == [a[0]] + (a[1..] + b);
    SeqLiteral(a[0], a[1..] + b, "");
    assert [a[0]] + (a[1..] + ReplaceSeq(b, "")) == a + ReplaceSeq(b, "");
  }

  lemma SeqLiteral(c: char, rest: string, new': string)
    requires SeqAt([c] + rest) == 0
    ensures ReplaceSeq([c] + rest, new') == [c] + ReplaceSeq(rest, new')
  {
    assert ([c] + rest)[1..] == rest;
  }

  lemma Deleted(a: string, b: string)
    requires a != ""
    ensures ReplaceAll(a + b, a, "") == ReplaceAll(b, a, "")
  {
    ReplaceHere(b, a, "");
  }

  lemma WrittenSeq(w: string)
    requires IsWidth(w)
    ensures var a := "{SEQ:" + w + "}"; SeqAt(a) == |a| > 0
  {
    var a := "{SEQ:" + w + "}";
    assert a[..5] == "{SEQ:" && a[5] == w[0] && a[|a| - 1] == '}';
    assert forall c :: c in "123456789" ==> '1' <= c <= '9';
    assert forall c :: c in "0123456789" ==> IsDigit(c);
    if |w| == 2 { assert a[6] == w[1]; }
  }

  lemma SeqDeleted(a: string, b: string)
    requires SeqAt(a) == |a| > 0
    ensures ReplaceSeq(a + b, "") == ReplaceSeq(b, "")
  {
    SeqAtStart(a, b);
    assert (a + b)[|a|..] == b && "" + ReplaceSeq(b, "") == ReplaceSeq(b, "");
  }
}
