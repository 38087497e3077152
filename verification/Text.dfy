/** The part of Go's strings package the models need: white space as
    unicode.IsSpace defines it, trimming, splitting into words and on a
    separator, and joining. */
module Text {
  predicate IsSpace(c: char) {
    c == ' ' || '\t' <= c <= '\r' || c == '\U{85}' || c == '\U{A0}' || c == '\U{1680}'
    || '\U{2000}' <= c <= '\U{200a}' || c == '\U{2028}' || c == '\U{2029}' || c == '\U{202f}'
    || c == '\U{205f}' || c == '\U{3000}'
  }

  /** White space is these twenty-five code points and no others. */
  lemma SpacesExactly(c: char)
    ensures IsSpace(c) <==> c as int in {
      9, 10, 11, 12, 13, 32, 0x85, 0xA0, 0x1680,
      0x2000, 0x2001, 0x2002, 0x2003, 0x2004, 0x2005, 0x2006, 0x2007, 0x2008, 0x2009, 0x200A,
      0x2028, 0x2029, 0x202F, 0x205F, 0x3000}
  {}

  /** strings.TrimSpace(s) == "" */
  predicate Blank(s: string) {
    forall i :: 0 <= i < |s| ==> IsSpace(s[i])
  }

  function TrimLeft(s: string): string {
    if s != "" && IsSpace(s[0]) then TrimLeft(s[1..]) else s
  }

  function TrimRight(s: string): string {
    if s != "" && IsSpace(s[|s| - 1]) then TrimRight(s[..|s| - 1]) else s
  }

  /** strings.TrimSpace */
  function Trim(s: string): string { TrimRight(TrimLeft(s)) }

  /** A non-empty run of non-space characters. */
  predicate IsWord(w: string) {
    w != "" && forall i :: 0 <= i < |w| ==> !IsSpace(w[i])
  }

  /** Length of the word at the start of s. */
  function WordLen(s: string): (n: nat)
    ensures n <= |s| && (forall i :: 0 <= i < n ==> !IsSpace(s[i])) && (n < |s| ==> IsSpace(s[n]))
  {
    if s == "" || IsSpace(s[0]) then 0 else 1 + WordLen(s[1..])
  }

  /** strings.Fields */
  function Fields(s: string): seq<string>
    decreases |s|
  {
    if s == "" then []
    else if IsSpace(s[0]) then Fields(s[1..])
    else [s[..WordLen(s)]] + Fields(s[WordLen(s)..])
  }

  lemma {:induction false} FieldsAreWords(s: string)
    ensures forall i :: 0 <= i < |Fields(s)| ==> IsWord(Fields(s)[i])
    decreases |s|
  {
    if s == "" {
    } else if IsSpace(s[0]) {
      FieldsAreWords(s[1..]);
    } else {
      FieldsAreWords(s[WordLen(s)..]);
    }
  }

  lemma WordLenUnique(s: string, n: nat)
    requires n <= |s| && (forall i :: 0 <= i < n ==> !IsSpace(s[i])) && (n < |s| ==> IsSpace(s[n]))
    ensures WordLen(s) == n
  {}

  lemma FieldsSpace(s: string)
    requires s != "" && IsSpace(s[0])
    ensures Fields(s) == Fields(s[1..])
  {}

  lemma FieldsWord(s: string, n: nat)
    requires 0 < n <= |s| && (forall i :: 0 <= i < n ==> !IsSpace(s[i])) && (n < |s| ==> IsSpace(s[n]))
    ensures Fields(s) == [s[..n]] + Fields(s[n..])
  {
    WordLenUnique(s, n);
    hide WordLen;
  }

  lemma CutInside<T>(a: seq<T>, c: T, b: seq<T>, n: nat)
    requires n <= |a|
    ensures |a + [c] + b| == |a| + 1 + |b| && (a + [c] + b)[..n] == a[..n] && (a + [c] + b)[n..] == a[n..] + [c] + b
    ensures forall i :: 0 <= i < n ==> (a + [c] + b)[i] == a[i]
    ensures (a + [c] + b)[n] == if n < |a| then a[n] else c
    ensures (a + [c] + b)[|a| + 1..] == b
  {}

  lemma FirstWord(s: string) returns (n: nat)
    requires s != "" && !IsSpace(s[0])
    ensures 0 < n <= |s| && (forall i :: 0 <= i < n ==> !IsSpace(s[i])) && (n < |s| ==> IsSpace(s[n]))
  {
    n := WordLen(s);
  }

  lemma NoFields()
    ensures Fields("") == []
  {}

  /** White space separates: the words of a text are those before a space and
      those after it. */
  lemma {:induction false} FieldsSplit(a: string, c: char, b: string)
    requires IsSpace(c)
    ensures Fields(a + [c] + b) == Fields(a) + Fields(b)
    decreases |a|
  {
    hide Fields, IsSpace;
    var s := a + [c] + b;
    CutInside(a, c, b, 0);
    if a == "" {
      FieldsSpace(s);
      NoFields();
      assert s[1..] == b && [] + Fields(b) == Fields(b);
    } else if IsSpace(a[0]) {
      CutInside(a, c, b, 1);
      FieldsSplit(a[1..], c, b);
      FieldsSpace(a);
      FieldsSpace(s);
    } else {
      var n := FirstWord(a);
      CutInside(a, c, b, n);
      FieldsSplit(a[n..], c, b);
      FieldsWord(a, n);
      FieldsWord(s, n);
      assert [a[..n]] + (Fields(a[n..]) + Fields(b)) == [a[..n]] + Fields(a[n..]) + Fields(b);
    }
  }

  lemma {:induction false} FieldsTrimLeft(s: string)
    ensures Fields(TrimLeft(s)) == Fields(s)
  {
    if s != "" && IsSpace(s[0]) { FieldsTrimLeft(s[1..]); }
  }

  lemma {:induction false} FieldsTrimRight(s: string)
    ensures Fields(TrimRight(s)) == Fields(s)
  {
    if s != "" && IsSpace(s[|s| - 1]) {
      var n := |s| - 1;
      FieldsTrimRight(s[..n]);
      FieldsSplit(s[..n], s[n], "");
      assert s[..n] + [s[n]] + "" == s;
    }
  }

  lemma FieldsTrim(s: string)
    ensures Fields(Trim(s)) == Fields(s)
  {
    FieldsTrimLeft(s);
    FieldsTrimRight(TrimLeft(s));
  }

  /** A trimmed text is empty exactly when it has no words. */
  lemma TrimEmpty(s: string)
    ensures Trim(s) == "" <==> Fields(s) == []
  {
    FieldsTrim(s);
    var t := Trim(s);
    if t != "" {
      TrimmedEnds(TrimLeft(s));
      if IsSpace(t[0]) { FirstOfTrimmed(s); }
    }
  }

  lemma {:induction false} TrimmedEnds(s: string)
    ensures TrimRight(s) <= s
    ensures TrimRight(s) != "" ==> !IsSpace(TrimRight(s)[|TrimRight(s)| - 1])
  {
    if s != "" && IsSpace(s[|s| - 1]) { TrimmedEnds(s[..|s| - 1]); }
  }

  lemma FirstOfTrimmed(s: string)
    requires Trim(s) != ""
    ensures !IsSpace(Trim(s)[0])
  {
    TrimmedEnds(TrimLeft(s));
    LeftEnd(s);
  }

  lemma {:induction false} LeftCut(s: string)
    ensures exists left :: Blank(left) && s == left + TrimLeft(s)
  {
    if s != "" && IsSpace(s[0]) {
      LeftCut(s[1..]);
      var left :| Blank(left) && s[1..] == left + TrimLeft(s[1..]);
      assert Blank([s[0]] + left) && s == [s[0]] + left + TrimLeft(s);
    } else {
      assert Blank("") && s == "" + TrimLeft(s);
    }
  }

  lemma {:induction false} RightCut(s: string)
    ensures exists right :: Blank(right) && s == TrimRight(s) + right
  {
    if s != "" && IsSpace(s[|s| - 1]) {
      var n := |s| - 1;
      RightCut(s[..n]);
      var right :| Blank(right) && s[..n] == TrimRight(s[..n]) + right;
      assert Blank(right + [s[n]]) && s == TrimRight(s) + (right + [s[n]]);
    } else {
      assert Blank("") && s == TrimRight(s) + "";
    }
  }

  /** Trimming cuts white space at both ends and nothing else, and leaves none
      there. */
  lemma TrimExactly(s: string)
    ensures exists left, right :: Blank(left) && Blank(right) && s == left + Trim(s) + right
    ensures Trim(s) != "" ==> !IsSpace(Trim(s)[0]) && !IsSpace(Trim(s)[|Trim(s)| - 1])
  {
    hide TrimLeft, TrimRight;
    LeftCut(s);
    RightCut(TrimLeft(s));
    var left :| Blank(left) && s == left + TrimLeft(s);
    var right :| Blank(right) && TrimLeft(s) == TrimRight(TrimLeft(s)) + right;
    assert s == left + Trim(s) + right;
    if Trim(s) != "" {
      FirstOfTrimmed(s);
      TrimmedEnds(TrimLeft(s));
    }
  }

  lemma {:induction false} LeftEnd(s: string)
    ensures TrimLeft(s) != "" ==> !IsSpace(TrimLeft(s)[0])
  {
    if s != "" && IsSpace(s[0]) { LeftEnd(s[1..]); }
  }

  // ----- Joining and splitting

  /** strings.Join */
  function Join(parts: seq<string>, sep: string): string {
    if parts == [] then ""
    else if |parts| == 1 then parts[0]
    else Join(parts[..|parts| - 1], sep) + sep + parts[|parts| - 1]
  }

  function Flatten<T>(groups: seq<seq<T>>): seq<T> {
    if groups == [] then [] else Flatten(groups[..|groups| - 1]) + groups[|groups| - 1]
  }

  lemma FlattenAppend<T>(groups: seq<seq<T>>, group: seq<T>)
    ensures Flatten(groups + [group]) == Flatten(groups) + group
  {
    assert (groups + [group])[..|groups|] == groups;
  }

  lemma {:induction false} FlattenConcat<T>(a: seq<seq<T>>, b: seq<seq<T>>)
    ensures Flatten(a + b) == Flatten(a) + Flatten(b)
  {
    if b == [] {
      assert a + b == a;
    } else {
      var before, last := b[..|b| - 1], b[|b| - 1];
      assert b == before + [last] && a + b == a + before + [last];
      FlattenConcat(a, before);
      FlattenAppend(a + before, last);
      FlattenAppend(before, last);
      assert Flatten(a) + (Flatten(before) + last) == Flatten(a) + Flatten(before) + last;
    }
  }

  function WordsOf(parts: seq<string>): (ws: seq<seq<string>>)
    ensures |ws| == |parts| && forall i :: 0 <= i < |parts| ==> ws[i] == Fields(parts[i])
  {
    seq(|parts|, i requires 0 <= i < |parts| => Fields(parts[i]))
  }

  /** Joining with white space keeps the words in order. */
  lemma {:induction false} FieldsJoin(parts: seq<string>, c: char)
    requires IsSpace(c)
    ensures Fields(Join(parts, [c])) == Flatten(WordsOf(parts))
  {
    if |parts| == 1 {
      assert WordsOf(parts)[..0] == [];
    } else if |parts| > 1 {
      var n := |parts| - 1;
      FieldsJoin(parts[..n], c);
      FieldsSplit(Join(parts[..n], [c]), c, parts[n]);
      assert WordsOf(parts)[..n] == WordsOf(parts[..n]);
    }
  }

  lemma OneWord(w: string)
    requires IsWord(w)
    ensures Fields(w) == [w]
  {
    WordLenUnique(w, |w|);
    assert w[..|w|] == w && w[|w|..] == "";
  }

  /** Words joined by single spaces read back as the same words. */
  lemma {:induction false} JoinReadsBack(words: seq<string>)
    requires forall i :: 0 <= i < |words| ==> IsWord(words[i])
    ensures Fields(Join(words, " ")) == words
  {
    FieldsJoin(words, ' ');
    assert " " == [' '];
    forall i | 0 <= i < |words| ensures WordsOf(words)[i] == [words[i]] {
      OneWord(words[i]);
    }
    Singletons(words, WordsOf(words));
  }

  lemma {:induction false} Singletons(words: seq<string>, groups: seq<seq<string>>)
    requires |groups| == |words| && forall i :: 0 <= i < |words| ==> groups[i] == [words[i]]
    ensures Flatten(groups) == words
  {
    if words != [] {
      Singletons(words[..|words| - 1], groups[..|words| - 1]);
    }
  }

  /** Where the separator first occurs in s, or |s|. */
  function Find(s: string, sep: string): (n: nat)
    requires sep != ""
    ensures n <= |s|
    ensures n < |s| ==> sep <= s[n..]
    ensures forall k :: 0 <= k < n ==> !(sep <= s[k..])
  {
    if s == "" then 0
    else if sep <= s then 0
    else
      var m := Find(s[1..], sep);
      assert forall k :: 1 <= k < m + 1 ==> s[k..] == s[1..][k - 1..];
      m + 1
  }

  /** strings.Split */
  function Split(s: string, sep: string): (parts: seq<string>)
    requires sep != ""
    ensures parts != []
    decreases |s|
  {
    var n := Find(s, sep);
    if n == |s| then [s] else [s[..n]] + Split(s[n + |sep|..], sep)
  }

  // ----- What a split is

  /** The separator stands at i in s. */
  predicate Occurs(sep: string, s: string, i: nat) {
    i + |sep| <= |s| && s[i..i + |sep|] == sep
  }

  /** The parts put together again give s; in a part followed by the separator
      the separator does not stand any earlier, so that every cut is the
      leftmost, and in the last part it does not stand at all. */
  ghost predicate Cuts(s: string, sep: string, parts: seq<string>) {
    && parts != []
    && Join(parts, sep) == s
    && (forall k :: 0 <= k < |parts| - 1 ==> EndsFirst(parts[k], sep))
    && Without(parts[|parts| - 1], sep)
  }

  ghost predicate Without(s: string, sep: string) {
    forall i: nat :: !Occurs(sep, s, i)
  }

  ghost predicate EndsFirst(part: string, sep: string) {
    forall i: nat :: i < |part| ==> !Occurs(sep, part + sep, i)
  }

  /** Joining a sequence is joining any two pieces of it. */
  lemma {:induction false} JoinConcat(a: seq<string>, b: seq<string>, sep: string)
    requires a != [] && b != []
    ensures Join(a + b, sep) == Join(a, sep) + sep + Join(b, sep)
  {
    var n := |b| - 1;
    assert (a + b)[..|a + b| - 1] == a + b[..n];
    if n == 0 {
      assert a + b[..0] == a;
    } else {
      JoinConcat(a, b[..n], sep);
      assert Join(a, sep) + sep + Join(b[..n], sep) + sep + b[n] == Join(a, sep) + sep + (Join(b[..n], sep) + sep + b[n]);
    }
  }

  lemma JoinOne(part: string, sep: string)
    ensures Join([part], sep) == part && Join([], sep) == ""
  {}

  lemma JoinCons(part: string, parts: seq<string>, sep: string)
    requires parts != []
    ensures Join([part] + parts, sep) == part + sep + Join(parts, sep)
  {
    JoinConcat([part], parts, sep);
    JoinOne(part, sep);
  }

  lemma FindLeftmost(s: string, sep: string, i: nat)
    requires sep != "" && Occurs(sep, s, i)
    ensures Find(s, sep) <= i && Find(s, sep) < |s|
  {
    assert sep <= s[i..];
  }

  lemma FoundFirst(s: string, sep: string)
    requires sep != "" && Find(s, sep) < |s|
    ensures Find(s, sep) + |sep| <= |s|
    ensures s == s[..Find(s, sep)] + sep + s[Find(s, sep) + |sep|..]
    ensures EndsFirst(s[..Find(s, sep)], sep)
  {
    hide Find;
    var n := Find(s, sep);
    SplitAt(s, n, sep);
    forall i: nat | i < n ensures !Occurs(sep, s[..n] + sep, i) {
      if Occurs(sep, s[..n] + sep, i) {
        OccursOn(sep, s[..n] + sep, s[n + |sep|..], i);
        FindLeftmost(s, sep, i);
      }
    }
  }

  lemma SplitAt(s: string, n: nat, sep: string)
    requires n <= |s| && sep <= s[n..]
    ensures n + |sep| <= |s| && s == s[..n] + sep + s[n + |sep|..]
  {}

  lemma OccursOn(sep: string, a: string, b: string, i: nat)
    requires Occurs(sep, a, i)
    ensures Occurs(sep, a + b, i)
  {
    assert (a + b)[i..i + |sep|] == a[i..i + |sep|];
  }

  lemma FoundAt(s: string, sep: string)
    requires sep != "" && Find(s, sep) < |s|
    ensures Occurs(sep, s, Find(s, sep))
  {}

  lemma NoneFound(s: string, sep: string)
    requires sep != "" && Find(s, sep) == |s|
    ensures Without(s, sep)
  {
    hide Find;
    forall i: nat ensures !Occurs(sep, s, i) {
      if Occurs(sep, s, i) { FindLeftmost(s, sep, i); }
    }
  }

  /** A split loses nothing and adds nothing, every cut is the leftmost, and no
      part holds the separator. */
  lemma {:induction false} SplitCuts(s: string, sep: string)
    requires sep != ""
    ensures Cuts(s, sep, Split(s, sep))
    ensures forall k :: 0 <= k < |Split(s, sep)| ==> Without(Split(s, sep)[k], sep)
    decreases |s|
  {
    hide Find, Join, EndsFirst, Without;
    var n := Find(s, sep);
    if n == |s| {
      NoneFound(s, sep);
      JoinOne(s, sep);
    } else {
      FoundFirst(s, sep);
      var rest := Split(s[n + |sep|..], sep);
      SplitCuts(s[n + |sep|..], sep);
      CutsCons(s[..n], s[n + |sep|..], sep, rest);
    }
  }

  lemma CutsCons(part: string, s: string, sep: string, rest: seq<string>)
    requires sep != "" && EndsFirst(part, sep) && Cuts(s, sep, rest)
    requires forall k :: 0 <= k < |rest| ==> Without(rest[k], sep)
    ensures Cuts(part + sep + s, sep, [part] + rest)
    ensures forall k :: 0 <= k < |rest| + 1 ==> Without(([part] + rest)[k], sep)
  {
    EndsFree(part, sep);
    hide Join, EndsFirst, Without;
    JoinCons(part, rest, sep);
    var parts := [part] + rest;
    forall k | 0 <= k < |parts| ensures k < |parts| - 1 ==> EndsFirst(parts[k], sep)
      ensures Without(parts[k], sep)
    {
      if k > 0 { assert parts[k] == rest[k - 1]; }
    }
  }

  lemma EndsFree(part: string, sep: string)
    requires sep != "" && EndsFirst(part, sep)
    ensures Without(part, sep)
  {
    forall i: nat ensures !Occurs(sep, part, i) {
      if Occurs(sep, part, i) { OccursOn(sep, part, sep, i); }
    }
  }

  lemma FindUnique(part: string, sep: string, rest: string)
    requires sep != "" && EndsFirst(part, sep)
    ensures Find(part + sep + rest, sep) == |part|
  {
    hide Find;
    var s := part + sep + rest;
    assert s[|part|..|part| + |sep|] == sep;
    FindLeftmost(s, sep, |part|);
    FoundAt(s, sep);
    forall i: nat | i < |part| ensures !Occurs(sep, s, i) {
      assert s[i..i + |sep|] == (part + sep)[i..i + |sep|];
      assert !Occurs(sep, part + sep, i);
    }
  }

  /** The split is the only way to cut a text so. */
  lemma {:induction false} OnlySplit(s: string, sep: string, parts: seq<string>)
    requires sep != "" && Cuts(s, sep, parts)
    ensures parts == Split(s, sep)
    decreases |parts|
  {
    hide Find, Join;
    if |parts| == 1 {
      JoinOne(parts[0], sep);
      assert parts == [parts[0]];
      assert Find(s, sep) == |s| by {
        if Find(s, sep) < |s| { FoundAt(s, sep); }
      }
    } else {
      var rest := parts[1..];
      assert parts == [parts[0]] + rest;
      JoinCons(parts[0], rest, sep);
      FindUnique(parts[0], sep, Join(rest, sep));
      assert forall k :: 0 <= k < |rest| - 1 ==> rest[k] == parts[k + 1];
      assert rest[|rest| - 1] == parts[|parts| - 1];
      OnlySplit(Join(rest, sep), sep, rest);
      var n := |parts[0]|;
      assert s[..n] == parts[0] && s[n + |sep|..] == Join(rest, sep);
    }
  }

  lemma {:induction false} FieldsBlank(a: string, b: string)
    requires Blank(a)
    ensures Fields(a + b) == Fields(b)
  {
    if a == "" {
      assert a + b == b;
    } else {
      assert (a + b)[1..] == a[1..] + b;
      FieldsBlank(a[1..], b);
    }
  }

  lemma CutOut<T>(s: seq<T>, n: nat, sep: seq<T>)
    requires sep != [] && n <= |s| && sep <= s[n..]
    ensures n + |sep| <= |s| && s == s[..n] + [sep[0]] + (sep[1..] + s[n + |sep|..])
  {
    assert s[n..] == sep + s[n + |sep|..];
    assert sep == [sep[0]] + sep[1..];
    assert s == s[..n] + s[n..];
  }

  lemma FieldsCut(s: string, n: nat, sep: string)
    requires sep != "" && Blank(sep) && n <= |s| && sep <= s[n..]
    ensures n + |sep| <= |s| && Fields(s) == Fields(s[..n]) + Fields(s[n + |sep|..])
  {
    hide Fields;
    CutOut(s, n, sep);
    var rest := s[n + |sep|..];
    FieldsSplit(s[..n], sep[0], sep[1..] + rest);
    FieldsBlank(sep[1..], rest);
  }

  lemma FlattenCons<T>(group: seq<T>, groups: seq<seq<T>>)
    ensures Flatten([group] + groups) == group + Flatten(groups)
  {
    FlattenConcat([group], groups);
    assert [group] == [] + [group];
    FlattenAppend([], group);
  }

  /** Splitting on a blank separator keeps the words in order. */
  lemma {:induction false} FieldsOfSplit(s: string, sep: string)
    requires sep != "" && Blank(sep)
    ensures Flatten(WordsOf(Split(s, sep))) == Fields(s)
    decreases |s|
  {
    hide Fields, Flatten, Find, WordsOf;
    var n := Find(s, sep);
    if n == |s| {
      WordsOfOne(s);
    } else {
      var rest := s[n + |sep|..];
      FieldsOfSplit(rest, sep);
      FieldsCut(s, n, sep);
      WordsOfCons(s[..n], Split(rest, sep));
    }
  }

  lemma WordsOfOne(s: string)
    ensures Flatten(WordsOf([s])) == Fields(s)
  {
    hide Fields, Flatten;
    assert WordsOf([s]) == [Fields(s)] + [];
    FlattenCons(Fields(s), []);
    FlattenNone<string>();
  }

  lemma WordsOfCons(s: string, rest: seq<string>)
    ensures Flatten(WordsOf([s] + rest)) == Fields(s) + Flatten(WordsOf(rest))
  {
    hide Fields, Flatten;
    assert WordsOf([s] + rest) == [Fields(s)] + WordsOf(rest);
    FlattenCons(Fields(s), WordsOf(rest));
  }

  lemma FlattenNone<T>()
    ensures Flatten<T>([]) == []
  {}

  /** strings.ReplaceAll: leftmost, non-overlapping. */
  function ReplaceAll(s: string, old': string, new': string): string
    requires old' != ""
    decreases |s|
  {
    if s == "" then ""
    else if old' <= s then new' + ReplaceAll(s[|old'|..], old', new')
    else [s[0]] + ReplaceAll(s[1..], old', new')
  }

  lemma {:induction false} ReplacePlain(a: string, b: string, old': string, new': string)
    requires old' != ""
    requires forall i: nat :: i < |a| ==> !Occurs(old', a + b, i)
    ensures ReplaceAll(a + b, old', new') == a + ReplaceAll(b, old', new')
  {
    if a == "" {
      assert a + b == b;
    } else {
      var s := a + b;
      assert !Occurs(old', s, 0) && !(old' <= s);
      assert s[1..] == a[1..] + b;
      forall i: nat | i < |a[1..]| ensures !Occurs(old', a[1..] + b, i) {
        assert Occurs(old', a[1..] + b, i) ==> s[i + 1..i + 1 + |old'|] == s[1..][i..i + |old'|];
        assert !Occurs(old', s, i + 1);
      }
      ReplacePlain(a[1..], b, old', new');
      assert [a[0]] + (a[1..] + ReplaceAll(b, old', new')) == a + ReplaceAll(b, old', new');
    }
  }

  /** Replacing is cutting at the old text and joining with the new. */
  lemma {:induction false} ReplaceIsJoin(s: string, old': string, new': string)
    requires old' != ""
    ensures ReplaceAll(s, old', new') == Join(Split(s, old'), new')
    decreases |s|
  {
    hide Find, Join, ReplaceAll;
    var n := Find(s, old');
    if n == |s| {
      NoneFound(s, old');
      assert s + "" == s;
      ReplacePlain(s, "", old', new');
      ReplaceNothing(old', new');
      JoinOne(s, new');
    } else {
      FoundFirst(s, old');
      var rest := s[n + |old'|..];
      ReplaceIsJoin(rest, old', new');
      JoinCons(s[..n], Split(rest, old'), new');
      assert s == s[..n] + (old' + rest);
      forall i: nat | i < n ensures !Occurs(old', s, i) {
        if Occurs(old', s, i) { FindLeftmost(s, old', i); }
      }
      ReplacePlain(s[..n], old' + rest, old', new');
      ReplaceHere(rest, old', new');
      assert s[..n] + (new' + ReplaceAll(rest, old', new')) == s[..n] + new' + ReplaceAll(rest, old', new');
    }
  }

  lemma ReplaceNothing(old': string, new': string)
    requires old' != ""
    ensures ReplaceAll("", old', new') == ""
  {}

  lemma ReplaceHere(rest: string, old': string, new': string)
    requires old' != ""
    ensures ReplaceAll(old' + rest, old', new') == new' + ReplaceAll(rest, old', new')
  {
    assert (old' + rest)[|old'|..] == rest;
  }
}
