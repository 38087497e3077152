/** Document number patterns (libs/go/arda-docno/docno.go): literal text with the
    tokens {YYYY}, {MM}, {DD} and one {SEQ:n}. The program replaces the tokens in
    four passes over the text; here the passes are related to one simultaneous
    substitution. */
module NumberPattern {
  import opened Text

  const YYYY := "{YYYY}"
  const MM := "{MM}"
  const DD := "{DD}"

  predicate IsDigit(c: char) { '0' <= c <= '9' }

  predicate Digits(s: string) { s != "" && forall i :: 0 <= i < |s| ==> IsDigit(s[i]) }

  /** Length of the match of \{SEQ:([1-9][0-9]?)\} at the start of s, or 0. */
  function SeqAt(s: string): (n: nat)
    ensures n <= |s|
  {
    if |s| >= 7 && s[..5] == "{SEQ:" && '1' <= s[5] <= '9' then
      if s[6] == '}' then 7
      else if |s| >= 8 && IsDigit(s[6]) && s[7] == '}' then 8
      else 0
    else 0
  }

  /** The number captured by the match at the start of s. */
  function SeqWidthAt(s: string): nat
    requires SeqAt(s) > 0
  {
    var first := s[5] as int - '0' as int;
    if SeqAt(s) == 7 then first else 10 * first + (s[6] as int - '0' as int)
  }

  /** len(FindAllString) */
  function CountSeq(s: string): nat
    decreases |s|
  {
    if s == "" then 0
    else if SeqAt(s) > 0 then 1 + CountSeq(s[SeqAt(s)..])
    else CountSeq(s[1..])
  }

  /** The number captured by the first match. */
  function FirstWidth(s: string): nat
    decreases |s|
  {
    if s == "" then 0 else if SeqAt(s) > 0 then SeqWidthAt(s) else FirstWidth(s[1..])
  }

  /** ReplaceAllString of the sequence token. */
  function ReplaceSeq(s: string, new': string): string
    decreases |s|
  {
    if s == "" then ""
    else if SeqAt(s) > 0 then new' + ReplaceSeq(s[SeqAt(s)..], new')
    else [s[0]] + ReplaceSeq(s[1..], new')
  }

  predicate Contains(s: string, token: string) {
    exists i :: 0 <= i <= |s| && token <= s[i..]
  }

  /** The texts that stand in for the tokens. */
  datatype Values = Values(y: string, m: string, d: string, q: string)

  /** The passes of the program. */
  function Passes(pattern: string, v: Values): string {
    var p1 := ReplaceAll(pattern, YYYY, v.y);
    var p2 := ReplaceAll(p1, MM, v.m);
    var p3 := ReplaceAll(p2, DD, v.d);
    ReplaceSeq(p3, v.q)
  }

  /** One simultaneous substitution of all tokens. */
  function Substitute(s: string, v: Values): string
    decreases |s|
  {
    if s == "" then ""
    else if SeqAt(s) > 0 then v.q + Substitute(s[SeqAt(s)..], v)
    else if YYYY <= s then v.y + Substitute(s[6..], v)
    else if MM <= s then v.m + Substitute(s[4..], v)
    else if DD <= s then v.d + Substitute(s[4..], v)
    else [s[0]] + Substitute(s[1..], v)
  }

  /** What is left of the pattern when the tokens are deleted, in the order the
      validator deletes them. */
  function Leftover(pattern: string): string {
    var p0 := ReplaceSeq(pattern, "");
    var p1 := ReplaceAll(p0, YYYY, "");
    var p2 := ReplaceAll(p1, MM, "");
    ReplaceAll(p2, DD, "")
  }

  predicate NoBraces(s: string) {
    forall i :: 0 <= i < |s| ==> s[i] != '{' && s[i] != '}'
  }

  // ----- The validator rules out a half-written sequence token

  predicate OpensSeq(s: string) { |s| >= 2 && s[0] == '{' && s[1] == 'S' }

  /** Wherever "{S" occurs, a whole sequence token begins. */
  predicate SeqClean(s: string) {
    s == "" || ((OpensSeq(s) ==> SeqAt(s) > 0) && SeqClean(s[1..]))
  }

  /** "{S" occurs. */
  predicate HasOpenS(s: string) {
    s != "" && (OpensSeq(s) || HasOpenS(s[1..]))
  }

  lemma SeqAtOpens(s: string)
    requires SeqAt(s) > 0
    ensures s[0] == '{' && s[1] == 'S' && forall i :: 1 <= i < SeqAt(s) ==> s[i] != '{'
  {
    assert s[..5][0] == '{' && s[..5][1] == 'S' && s[..5][2] == 'E' && s[..5][3] == 'Q' && s[..5][4] == ':';
  }

  /** Characters other than an opening brace do not matter for cleanness. */
  lemma {:induction false} CleanDrop(s: string, n: nat)
    requires n <= |s| && forall i :: 0 <= i < n ==> s[i] != '{'
    ensures SeqClean(s) <==> SeqClean(s[n..])
    decreases n
  {
    if n > 0 {
      CleanDrop(s[1..], n - 1);
      assert s[1..][n - 1..] == s[n..];
    }
  }

  lemma {:induction false} DeleteSeqExposes(s: string)
    requires !SeqClean(s)
    ensures HasOpenS(ReplaceSeq(s, ""))
    decreases |s|
  {
    var n := SeqAt(s);
    if n > 0 {
      SeqAtOpens(s);
      CleanDrop(s[1..], n - 1);
      assert s[1..][n - 1..] == s[n..];
      DeleteSeqExposes(s[n..]);
      assert "" + ReplaceSeq(s[n..], "") == ReplaceSeq(s[n..], "");
    } else if OpensSeq(s) {
      assert s[1..] != "" && s[1..][0] == 'S';
      if SeqAt(s[1..]) > 0 { SeqAtOpens(s[1..]); }
      assert ReplaceSeq(s[1..], "")[0] == 'S';
    } else {
      DeleteSeqExposes(s[1..]);
      assert ([s[0]] + ReplaceSeq(s[1..], ""))[1..] == ReplaceSeq(s[1..], "");
    }
  }

  /** A date token: an opening brace, then letters other than S, no other
      opening brace. */
  predicate DateToken(t: string) {
    |t| >= 2 && t[0] == '{' && t[1] != 'S' && forall i :: 1 <= i < |t| ==> t[i] != '{'
  }

  lemma {:induction false} OpenSLater(s: string, n: nat)
    requires n <= |s| && HasOpenS(s)
    requires forall i :: 0 <= i < n ==> !OpensSeq(s[i..])
    ensures HasOpenS(s[n..])
    decreases n
  {
    if n > 0 {
      assert !OpensSeq(s[0..]) && s[0..] == s;
      forall i | 0 <= i < n - 1 ensures !OpensSeq(s[1..][i..]) { assert s[1..][i..] == s[i + 1..]; }
      OpenSLater(s[1..], n - 1);
      assert s[1..][n - 1..] == s[n..];
    }
  }

  lemma {:induction false} DeleteDateKeeps(s: string, t: string)
    requires DateToken(t) && HasOpenS(s)
    ensures HasOpenS(ReplaceAll(s, t, ""))
    decreases |s|
  {
    if t <= s {
      forall i | 0 <= i < |t| ensures !OpensSeq(s[i..]) { assert s[i] == t[i] && s[1] == t[1]; }
      OpenSLater(s, |t|);
      DeleteDateKeeps(s[|t|..], t);
      assert "" + ReplaceAll(s[|t|..], t, "") == ReplaceAll(s[|t|..], t, "");
    } else if OpensSeq(s) {
      assert s[1..][0] == 'S';
      assert ReplaceAll(s[1..], t, "")[0] == 'S';
    } else {
      DeleteDateKeeps(s[1..], t);
      assert ([s[0]] + ReplaceAll(s[1..], t, ""))[1..] == ReplaceAll(s[1..], t, "");
    }
  }

  lemma {:induction false} OpenSHasBrace(s: string)
    requires HasOpenS(s)
    ensures !NoBraces(s)
  {
    if OpensSeq(s) {
      assert s[0] == '{';
    } else {
      OpenSHasBrace(s[1..]);
      var i :| 0 <= i < |s| - 1 && !(s[1..][i] != '{' && s[1..][i] != '}');
      assert s[i + 1] == s[1..][i];
    }
  }

  /** A pattern whose leftover has no brace has no half-written sequence token,
      although nested braces such as {M{YYYY}M} pass the validator. */
  lemma ValidIsClean(pattern: string)
    requires NoBraces(Leftover(pattern))
    ensures SeqClean(pattern)
  {
    if !SeqClean(pattern) {
      DeleteSeqExposes(pattern);
      var p0 := ReplaceSeq(pattern, "");
      DeleteDateKeeps(p0, YYYY);
      DeleteDateKeeps(ReplaceAll(p0, YYYY, ""), MM);
      DeleteDateKeeps(ReplaceAll(ReplaceAll(p0, YYYY, ""), MM, ""), DD);
      OpenSHasBrace(Leftover(pattern));
    }
  }

  // ----- Four passes are one substitution

  /** A pass runs over text in which the token does not begin. */
  lemma {:induction false} PassOver(a: string, b: string, t: string, new': string)
    requires t != "" && forall i :: 0 <= i < |a| ==> !(t <= (a + b)[i..])
    ensures ReplaceAll(a + b, t, new') == a + ReplaceAll(b, t, new')
    decreases |a|
  {
    if a == "" {
      assert a + b == b;
    } else {
      var s := a + b;
      assert s[0..] == s && s[1..] == a[1..] + b;
      forall i | 0 <= i < |a| - 1 ensures !(t <= (a[1..] + b)[i..]) { assert (a[1..] + b)[i..] == s[i + 1..]; }
      PassOver(a[1..], b, t, new');
    }
  }

  lemma PassOverDigits(a: string, b: string, t: string, new': string)
    requires DateToken(t) && forall i :: 0 <= i < |a| ==> a[i] != '{'
    ensures ReplaceAll(a + b, t, new') == a + ReplaceAll(b, t, new')
  {
    forall i | 0 <= i < |a| ensures !(t <= (a + b)[i..]) { assert (a + b)[i..][0] == a[i]; }
    PassOver(a, b, t, new');
  }

  /** A pass runs over another token. */
  lemma PassOverToken(a: string, b: string, t: string, new': string)
    requires DateToken(t) && |a| >= 2 && a[0] == '{' && a[1] != t[1] && forall i :: 1 <= i < |a| ==> a[i] != '{'
    ensures ReplaceAll(a + b, t, new') == a + ReplaceAll(b, t, new')
  {
    forall i | 0 <= i < |a| ensures !(t <= (a + b)[i..]) {
      assert (a + b)[i..][0] == a[i];
      if i == 0 { assert (a + b)[0..][1] == a[1]; }
    }
    PassOver(a, b, t, new');
  }

  lemma {:induction false} SeqPassOver(a: string, b: string, q: string)
    requires forall i :: 0 <= i < |a| ==> a[i] != '{'
    ensures ReplaceSeq(a + b, q) == a + ReplaceSeq(b, q)
    decreases |a|
  {
    if a == "" {
      assert a + b == b;
    } else {
      var s := a + b;
      if SeqAt(s) > 0 { SeqAtOpens(s); }
      assert s[1..] == a[1..] + b;
      SeqPassOver(a[1..], b, q);
    }
  }

  /** Text without braces and digits is neither made nor destroyed at the start
      of the string by a pass that inserts digits. */
  lemma {:induction false} PassKeepsStart(s: string, t: string, new': string, start: string)
    requires DateToken(t) && Digits(new')
    requires forall i :: 0 <= i < |start| ==> start[i] != '{' && !IsDigit(start[i])
    ensures start <= ReplaceAll(s, t, new') <==> start <= s
    decreases |start|
  {
    var r := ReplaceAll(s, t, new');
    if start != "" && s != "" {
      if t <= s {
        assert s[0] == '{' && r[0] == new'[0];
      } else {
        PassKeepsStart(s[1..], t, new', start[1..]);
        assert r[0] == s[0] && r[1..] == ReplaceAll(s[1..], t, new');
        assert start == [start[0]] + start[1..] && s == [s[0]] + s[1..];
      }
    }
  }

  /** A literal character at the start survives the three date passes. */
  lemma LiteralDatePasses(c: char, rest: string, v: Values)
    requires Digits(v.y) && Digits(v.m) && Digits(v.d)
    requires !(YYYY <= [c] + rest) && !(MM <= [c] + rest) && !(DD <= [c] + rest)
    ensures ReplaceAll([c] + rest, YYYY, v.y) == [c] + ReplaceAll(rest, YYYY, v.y)
    ensures var r1 := ReplaceAll(rest, YYYY, v.y);
      && ReplaceAll([c] + r1, MM, v.m) == [c] + ReplaceAll(r1, MM, v.m)
      && ReplaceAll([c] + ReplaceAll(r1, MM, v.m), DD, v.d) == [c] + ReplaceAll(ReplaceAll(r1, MM, v.m), DD, v.d)
  {
    var r1 := ReplaceAll(rest, YYYY, v.y);
    var r2 := ReplaceAll(r1, MM, v.m);
    PassKeepsStart(rest, YYYY, v.y, "MM}");
    PassKeepsStart(rest, YYYY, v.y, "DD}");
    PassKeepsStart(r1, MM, v.m, "DD}");
    Single(c, rest, YYYY, v.y);
    StartsBrace(c, rest, r1, "MM}");
    Single(c, r1, MM, v.m);
    StartsBrace(c, rest, r2, "DD}");
    Single(c, r2, DD, v.d);
  }

  lemma Single(c: char, rest: string, t: string, new': string)
    requires t != "" && !(t <= [c] + rest)
    ensures ReplaceAll([c] + rest, t, new') == [c] + ReplaceAll(rest, t, new')
  {
    assert ([c] + rest)[1..] == rest;
  }

  lemma StartsBrace(c: char, a: string, b: string, t: string)
    requires t <= b <==> t <= a
    ensures "{" + t <= [c] + b <==> "{" + t <= [c] + a
  {
    StartOf(c, a, t);
    StartOf(c, b, t);
  }

  lemma StartOf(c: char, a: string, t: string)
    ensures "{" + t <= [c] + a <==> c == '{' && t <= a
  {
    var s := "{" + t;
    if s <= [c] + a {
      assert ([c] + a)[0] == s[0];
      assert ([c] + a)[1..] == a && s[1..] == t;
    }
  }

  lemma SeqAtStart(a: string, b: string)
    requires SeqAt(a) == |a| > 0
    ensures SeqAt(a + b) == |a|
  {
    assert (a + b)[..5] == a[..5];
  }

  lemma OpensStart(c: char, rest: string)
    ensures OpensSeq([c] + rest) <==> c == '{' && "S" <= rest
  {
    assert ([c] + rest)[1..] == rest;
  }

  lemma SeqNeedsOpen(s: string)
    ensures SeqAt(s) > 0 ==> OpensSeq(s)
  {
    if SeqAt(s) > 0 { SeqAtOpens(s); }
  }

  /** The sequence pass over a literal character: with no half-written token in
      the pattern, none is written by the date passes either. */
  lemma LiteralSeqPass(c: char, rest: string, v: Values)
    requires Digits(v.y) && Digits(v.m) && Digits(v.d)
    requires SeqAt([c] + rest) == 0 && SeqClean([c] + rest)
    ensures var r3 := ReplaceAll(ReplaceAll(ReplaceAll(rest, YYYY, v.y), MM, v.m), DD, v.d);
      ReplaceSeq([c] + r3, v.q) == [c] + ReplaceSeq(r3, v.q)
  {
    var r1 := ReplaceAll(rest, YYYY, v.y);
    var r2 := ReplaceAll(r1, MM, v.m);
    var r3 := ReplaceAll(r2, DD, v.d);
    PassKeepsStart(rest, YYYY, v.y, "S");
    PassKeepsStart(r1, MM, v.m, "S");
    PassKeepsStart(r2, DD, v.d, "S");
    OpensStart(c, rest);
    OpensStart(c, r3);
    SeqNeedsOpen([c] + r3);
    assert ([c] + r3)[1..] == r3;
  }

  /** The four passes equal one simultaneous substitution: no pass writes or
      destroys a token another pass looks for. */
  lemma {:induction false} PassesAreSimultaneous(s: string, v: Values)
    requires SeqClean(s) && Digits(v.y) && Digits(v.m) && Digits(v.d)
    ensures Passes(s, v) == Substitute(s, v)
    decreases |s|
  {
    if s == "" {
      return;
    }
    var n := SeqAt(s);
    if n > 0 {
      SeqAtOpens(s);
      CleanDrop(s[1..], n - 1);
      assert s[1..][n - 1..] == s[n..];
      PassesAreSimultaneous(s[n..], v);
      TokenSeq(s[..n], s[n..], v);
      assert s[..n] + s[n..] == s;
    } else if YYYY <= s {
      TokenRest(s, YYYY);
      PassesAreSimultaneous(s[6..], v);
      TokenYear(s[6..], v);
    } else if MM <= s {
      TokenRest(s, MM);
      PassesAreSimultaneous(s[4..], v);
      TokenMonth(s[4..], v);
    } else if DD <= s {
      TokenRest(s, DD);
      PassesAreSimultaneous(s[4..], v);
      TokenDay(s[4..], v);
    } else {
      assert s == [s[0]] + s[1..];
      PassesAreSimultaneous(s[1..], v);
      LiteralDatePasses(s[0], s[1..], v);
      LiteralSeqPass(s[0], s[1..], v);
    }
  }

  lemma TokenRest(s: string, t: string)
    requires DateToken(t) && t <= s && SeqClean(s)
    ensures s == t + s[|t|..] && SeqClean(s[|t|..])
  {
    forall i | 0 <= i < |t| - 1 ensures s[1..][i] != '{' { assert s[i + 1] == t[i + 1]; }
    CleanDrop(s[1..], |t| - 1);
    assert s[1..][|t| - 1..] == s[|t|..];
  }

  lemma TokenSeq(a: string, b: string, v: Values)
    requires SeqAt(a) == |a| > 0
    ensures Passes(a + b, v) == v.q + Passes(b, v)
  {
    SeqAtOpens(a);
    var b1 := ReplaceAll(b, YYYY, v.y);
    var b2 := ReplaceAll(b1, MM, v.m);
    var b3 := ReplaceAll(b2, DD, v.d);
    PassOverToken(a, b, YYYY, v.y);
    PassOverToken(a, b1, MM, v.m);
    PassOverToken(a, b2, DD, v.d);
    SeqAtStart(a, b3);
    assert (a + b3)[|a|..] == b3;
  }

  lemma TokenYear(b: string, v: Values)
    requires Digits(v.y)
    ensures Passes(YYYY + b, v) == v.y + Passes(b, v)
  {
    var b1 := ReplaceAll(b, YYYY, v.y);
    var b2 := ReplaceAll(b1, MM, v.m);
    assert (YYYY + b)[6..] == b;
    PassOverDigits(v.y, b1, MM, v.m);
    PassOverDigits(v.y, b2, DD, v.d);
    SeqPassOver(v.y, ReplaceAll(b2, DD, v.d), v.q);
  }

  lemma TokenMonth(b: string, v: Values)
    requires Digits(v.m)
    ensures Passes(MM + b, v) == v.m + Passes(b, v)
  {
    var b1 := ReplaceAll(b, YYYY, v.y);
    var b2 := ReplaceAll(b1, MM, v.m);
    PassOverToken(MM, b, YYYY, v.y);
    assert (MM + b1)[4..] == b1;
    PassOverDigits(v.m, b2, DD, v.d);
    SeqPassOver(v.m, ReplaceAll(b2, DD, v.d), v.q);
  }

  lemma TokenDay(b: string, v: Values)
    requires Digits(v.d)
    ensures Passes(DD + b, v) == v.d + Passes(b, v)
  {
    var b1 := ReplaceAll(b, YYYY, v.y);
    var b2 := ReplaceAll(b1, MM, v.m);
    PassOverToken(DD, b, YYYY, v.y);
    PassOverToken(DD, b1, MM, v.m);
    assert (DD + b2)[4..] == b2;
    SeqPassOver(v.d, ReplaceAll(b2, DD, v.d), v.q);
  }

  // ----- The substitution is injective

  /** A token that occurs does so among what follows a token or character that
      is not its own beginning. */
  lemma ContainsDrop(s: string, t: string, n: nat)
    requires n <= |s| && t != "" && forall i :: 0 <= i < n ==> !(t <= s[i..])
    ensures Contains(s, t) <==> Contains(s[n..], t)
  {
    if i :| 0 <= i <= |s| && t <= s[i..] {
      assert s[n..][i - n..] == s[i..];
    }
    if i :| 0 <= i <= |s[n..]| && t <= s[n..][i..] {
      assert s[n..][i..] == s[n + i..];
    }
  }

  /** Dropping a token at the start does not drop an occurrence of another. */
  lemma ContainsAfter(s: string, a: string, t: string)
    requires DateToken(t) && a <= s && |a| >= 2 && a[0] == '{' && a[1] != t[1]
    requires forall i :: 1 <= i < |a| ==> a[i] != '{'
    ensures Contains(s, t) <==> Contains(s[|a|..], t)
  {
    forall i | 0 <= i < |a| ensures !(t <= s[i..]) {
      assert s[i..][0] == a[i];
      if i == 0 { assert s[0..][1] == a[1]; }
    }
    ContainsDrop(s, t, |a|);
  }

  lemma ContainsLiteral(s: string, t: string)
    requires s != "" && t != "" && !(t <= s)
    ensures Contains(s, t) <==> Contains(s[1..], t)
  {
    assert s[0..] == s;
    ContainsDrop(s, t, 1);
  }

  lemma {:induction false} CountDrop(s: string, n: nat)
    requires n <= |s| && forall i :: 0 <= i < n ==> !OpensSeq(s[i..])
    ensures CountSeq(s) == CountSeq(s[n..])
    decreases n
  {
    if n == 0 {
      assert s[0..] == s;
    } else {
      var u := s[1..];
      assert s[0..] == s && !OpensSeq(s);
      if SeqAt(s) > 0 { SeqAtOpens(s); }
      forall i | 0 <= i < n - 1 ensures !OpensSeq(u[i..]) { assert u[i..] == s[i + 1..]; }
      hide SeqAt, OpensSeq;
      CountDrop(u, n - 1);
      assert u[n - 1..] == s[n..];
    }
  }

  lemma CountAfter(s: string, t: string)
    requires DateToken(t) && t <= s
    ensures CountSeq(s) == CountSeq(s[|t|..])
  {
    forall i | 0 <= i < |t| ensures !OpensSeq(s[i..]) { assert s[i..][0] == t[i] && s[1] == t[1]; }
    CountDrop(s, |t|);
  }

  predicate SameWidths(v1: Values, v2: Values) {
    |v1.m| == |v2.m| && |v1.d| == |v2.d| && |v1.q| == |v2.q|
  }

  /** The values agree on every token the pattern has. */
  predicate AgreeOn(s: string, v1: Values, v2: Values) {
    && (CountSeq(s) > 0 ==> v1.q == v2.q)
    && (Contains(s, YYYY) ==> v1.y == v2.y)
    && (Contains(s, MM) ==> v1.m == v2.m)
    && (Contains(s, DD) ==> v1.d == v2.d)
  }

  lemma SplitEqual(a: string, b: string, c: string, d: string)
    requires a + b == c + d && |a| == |c|
    ensures a == c && b == d
  {
    assert a == (a + b)[..|a|] && b == (a + b)[|a|..];
  }

  function HeadLen(s: string): (n: nat)
    requires s != ""
    ensures 1 <= n <= |s|
  {
    if SeqAt(s) > 0 then SeqAt(s) else if YYYY <= s then 6 else if MM <= s || DD <= s then 4 else 1
  }

  function Head(s: string, v: Values): string
    requires s != ""
  {
    if SeqAt(s) > 0 then v.q else if YYYY <= s then v.y else if MM <= s then v.m else if DD <= s then v.d else [s[0]]
  }

  lemma SubstituteStep(s: string, v: Values)
    requires s != ""
    ensures Substitute(s, v) == Head(s, v) + Substitute(s[HeadLen(s)..], v)
  {}

  predicate IsDate(t: string) { t == YYYY || t == MM || t == DD }

  /** A date token occurs in a pattern exactly when the substitution meets it. */
  lemma OccursStep(s: string, t: string)
    requires s != "" && IsDate(t)
    ensures Contains(s, t) <==> (SeqAt(s) == 0 && t <= s) || Contains(s[HeadLen(s)..], t)
  {
    var n := SeqAt(s);
    if n > 0 {
      SeqAtOpens(s);
      ContainsAfter(s, s[..n], t);
    } else if t <= s {
      assert s[0..] == s;
    } else if YYYY <= s {
      ContainsAfter(s, YYYY, t);
    } else if MM <= s {
      ContainsAfter(s, MM, t);
    } else if DD <= s {
      ContainsAfter(s, DD, t);
    } else {
      ContainsLiteral(s, t);
    }
  }

  lemma CountStep(s: string)
    requires s != ""
    ensures CountSeq(s) == (if SeqAt(s) > 0 then 1 else 0) + CountSeq(s[HeadLen(s)..])
  {
    if SeqAt(s) == 0 {
      if YYYY <= s { CountAfter(s, YYYY); }
      if MM <= s { CountAfter(s, MM); }
      if DD <= s { CountAfter(s, DD); }
    }
  }

  lemma DistinctTokens(s: string)
    ensures !(YYYY <= s && MM <= s) && !(YYYY <= s && DD <= s) && !(MM <= s && DD <= s)
  {
    if YYYY <= s { assert s[1] == 'Y'; }
    if MM <= s { assert s[1] == 'M'; }
    if DD <= s { assert s[1] == 'D'; }
  }

  lemma AgreeStep(s: string, v1: Values, v2: Values)
    requires s != ""
    ensures AgreeOn(s, v1, v2) <==> Head(s, v1) == Head(s, v2) && AgreeOn(s[HeadLen(s)..], v1, v2)
  {
    OccursStep(s, YYYY);
    OccursStep(s, MM);
    OccursStep(s, DD);
    CountStep(s);
    DistinctTokens(s);
    hide Contains, SeqAt, HeadLen, CountSeq;
  }

  /** Values of equal widths give the same text exactly when they agree on the
      tokens of the pattern. */
  lemma {:induction false} SubstituteInjective(s: string, v1: Values, v2: Values)
    requires SameWidths(v1, v2) && (Contains(s, YYYY) ==> |v1.y| == |v2.y|)
    ensures Substitute(s, v1) == Substitute(s, v2) <==> AgreeOn(s, v1, v2)
    decreases |s|
  {
    if s != "" {
      SubstituteStep(s, v1);
      SubstituteStep(s, v2);
      AgreeStep(s, v1, v2);
      OccursStep(s, YYYY);
      hide Contains, Substitute, AgreeOn, SeqAt, HeadLen;
      var rest := s[HeadLen(s)..];
      SubstituteInjective(rest, v1, v2);
      assert |Head(s, v1)| == |Head(s, v2)|;
      hide Head;
      if Substitute(s, v1) == Substitute(s, v2) {
        SplitEqual(Head(s, v1), Substitute(rest, v1), Head(s, v2), Substitute(rest, v2));
      }
    }
  }

  /** A longer year makes a longer number, so it cannot collide. */
  lemma {:induction false} SubstituteLonger(s: string, v1: Values, v2: Values)
    requires SameWidths(v1, v2) && |v1.y| < |v2.y|
    ensures |Substitute(s, v1)| <= |Substitute(s, v2)|
    ensures Contains(s, YYYY) ==> |Substitute(s, v1)| < |Substitute(s, v2)|
    decreases |s|
  {
    if s != "" {
      SubstituteStep(s, v1);
      SubstituteStep(s, v2);
      OccursStep(s, YYYY);
      hide Contains, Substitute, SeqAt, HeadLen;
      SubstituteLonger(s[HeadLen(s)..], v1, v2);
    }
  }
}
