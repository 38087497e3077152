/** The markdown chunker (knowledge/chunker.go): a document is split at its
    headings, each section body into paragraphs, oversized paragraphs into
    overlapping slices, and the slices are packed into overlapping parts. */
module Chunker {
  import opened Common
  import opened Text
  import opened Overlap

  // ----- Words and texts

  predicate AllWords(words: seq<string>) {
    forall i :: 0 <= i < |words| ==> IsWord(words[i])
  }

  predicate AllAllWords(parts: seq<seq<string>>) {
    forall k :: 0 <= k < |parts| ==> AllWords(parts[k])
  }

  /** strings.Join(part, " ") of every part. */
  function JoinAll(parts: seq<seq<string>>): (texts: seq<string>)
    ensures |texts| == |parts| && forall k :: 0 <= k < |parts| ==> texts[k] == Join(parts[k], " ")
  {
    seq(|parts|, k requires 0 <= k < |parts| => Join(parts[k], " "))
  }

  /** A text in which single spaces separate the words and nothing else stands. */
  predicate SingleSpaced(text: string) {
    text == Join(Fields(text), " ")
  }

  lemma JoinAllReadsBack(parts: seq<seq<string>>)
    requires AllAllWords(parts)
    ensures WordsOf(JoinAll(parts)) == parts
    ensures forall k :: 0 <= k < |parts| ==> SingleSpaced(JoinAll(parts)[k])
  {
    hide Fields, Join, IsWord;
    forall k | 0 <= k < |parts| ensures Fields(JoinAll(parts)[k]) == parts[k] {
      JoinBack(parts[k]);
    }
  }

  lemma JoinBack(words: seq<string>)
    requires AllWords(words)
    ensures Fields(Join(words, " ")) == words
  {
    JoinReadsBack(words);
  }

  // ----- Splitting a body

  const PARAGRAPH_BREAK := "\n\n"

  /** The trimmed texts that are not blank. */
  function NonBlank(raw: seq<string>): seq<string> {
    if raw == [] then []
    else
      var n := |raw| - 1;
      NonBlank(raw[..n]) + (if Trim(raw[n]) != "" then [Trim(raw[n])] else [])
  }

  function Paragraphs(body: string): seq<string> {
    NonBlank(Split(Trim(body), PARAGRAPH_BREAK))
  }

  lemma {:induction false} NonBlankWords(raw: seq<string>)
    ensures Flatten(WordsOf(NonBlank(raw))) == Flatten(WordsOf(raw))
    ensures forall k :: 0 <= k < |NonBlank(raw)| ==> Fields(NonBlank(raw)[k]) != []
  {
    hide Fields, Trim, Flatten;
    if raw != [] {
      var n := |raw| - 1;
      NonBlankWords(raw[..n]);
      FieldsTrim(raw[n]);
      TrimEmpty(raw[n]);
      assert WordsOf(raw) == WordsOf(raw[..n]) + [Fields(raw[n])];
      FlattenAppend(WordsOf(raw[..n]), Fields(raw[n]));
      if Trim(raw[n]) != "" {
        assert WordsOf(NonBlank(raw)) == WordsOf(NonBlank(raw[..n])) + [Fields(Trim(raw[n]))];
        FlattenAppend(WordsOf(NonBlank(raw[..n])), Fields(Trim(raw[n])));
      } else {
        assert NonBlank(raw) == NonBlank(raw[..n]);
      }
    }
  }

  /** The paragraphs of a body hold its words in order. */
  lemma ParagraphWords(body: string)
    ensures Flatten(WordsOf(Paragraphs(body))) == Fields(body)
    ensures forall k :: 0 <= k < |Paragraphs(body)| ==> Fields(Paragraphs(body)[k]) != []
  {
    NonBlankWords(Split(Trim(body), PARAGRAPH_BREAK));
    FieldsOfSplit(Trim(body), PARAGRAPH_BREAK);
    FieldsTrim(body);
  }

  /** The paragraphs of a body are the pieces of its trimmed text between two
      line breaks in a row, trimmed, without the blank ones, in order. */
  ghost predicate AreParagraphs(paragraphs: seq<string>, body: string) {
    exists pieces, at :: Cuts(Trim(body), "\n\n", pieces) && NonBlankAt(paragraphs, pieces, at)
  }

  /** Where the texts come from: the places of those that are not blank. */
  ghost predicate NonBlankAt(texts: seq<string>, raw: seq<string>, at: seq<nat>) {
    && |at| == |texts|
    && (forall j, k :: 0 <= j < k < |at| ==> at[j] < at[k])
    && (forall i :: 0 <= i < |raw| ==> (i in at <==> Trim(raw[i]) != ""))
    && (forall k :: 0 <= k < |at| ==> at[k] < |raw| && texts[k] == Trim(raw[at[k]]))
  }

  lemma NonBlankMore(texts: seq<string>, raw: seq<string>, at: seq<nat>, text: string)
    requires NonBlankAt(texts, raw, at)
    ensures Trim(text) != "" ==> NonBlankAt(texts + [Trim(text)], raw + [text], at + [|raw|])
    ensures Trim(text) == "" ==> NonBlankAt(texts, raw + [text], at)
  {
    hide Trim;
    assert forall k :: 0 <= k < |at| ==> at[k] in at;
    assert |raw| !in at;
  }

  lemma {:induction false} NonBlankPlaces(raw: seq<string>)
    ensures exists at :: NonBlankAt(NonBlank(raw), raw, at)
  {
    hide Trim, NonBlankAt;
    if raw == [] {
      NonBlankStart();
    } else {
      var n := |raw| - 1;
      NonBlankPlaces(raw[..n]);
      var at :| NonBlankAt(NonBlank(raw[..n]), raw[..n], at);
      NonBlankMore(NonBlank(raw[..n]), raw[..n], at, raw[n]);
      assert raw == raw[..n] + [raw[n]];
      assert NonBlank(raw[..n]) + [] == NonBlank(raw[..n]);
      assert NonBlankAt(NonBlank(raw), raw, if Trim(raw[n]) != "" then at + [n] else at);
    }
  }

  lemma NonBlankStart()
    ensures NonBlankAt(NonBlank([]), [], [])
  {}

  lemma ParagraphsExactly(body: string)
    ensures AreParagraphs(Paragraphs(body), body)
  {
    hide Trim, Split, NonBlank, Cuts, NonBlankAt;
    SplitCuts(Trim(body), PARAGRAPH_BREAK);
    NonBlankPlaces(Split(Trim(body), PARAGRAPH_BREAK));
  }

  /** What a split promises: the slices undo to the paragraphs, and the parts
      are the packing of the slices, written with single spaces. */
  ghost predicate IsSplit(body: string, parts: seq<string>, slices: seq<seq<seq<string>>>, size: nat, overlap: nat) {
    && |slices| == |Paragraphs(body)|
    && (forall k :: 0 <= k < |slices| ==> IsSlicing(slices[k], Fields(Paragraphs(body)[k]), size, overlap))
    && IsPacking(WordsOf(parts), Flatten(slices), size, overlap) && Tight(WordsOf(parts), size, overlap)
    && (forall k :: 0 <= k < |parts| ==> SingleSpaced(parts[k]))
    && (parts == [] <==> Fields(body) == [])
  }

  /** The parts are a split of the body, for some slicing of its paragraphs. */
  ghost predicate Splits(body: string, parts: seq<string>, size: nat, overlap: nat) {
    exists slices :: IsSplit(body, parts, slices, size, overlap)
  }

  /** Cuts a paragraph that is too long into overlapping units. */
  method SliceParagraph(p: string, size: nat, overlap: nat) returns (units: seq<string>)
    requires overlap < size && Fields(p) != []
    ensures units != [] && IsSlicing(WordsOf(units), Fields(p), size, overlap)
  {
    hide Fields, Undo, Overlapping, AllFull;
    var w := Fields(p);
    if |w| <= size {
      Whole(w, size, overlap);
      assert WordsOf([p]) == [w];
      return [p];
    }
    FieldsAreWords(p);
    var windows := Windows(w, size, overlap);
    SlicesWithin(windows, w, size, overlap);
    JoinAllReadsBack(windows);
    units := JoinAll(windows);
    if windows == [] { Nothing<string>(size, overlap); }
  }

  lemma SlicesWithin(slices: seq<seq<string>>, w: seq<string>, size: nat, overlap: nat)
    requires Overlapping(slices, size, overlap) && Undo(slices, overlap) == w && AllWords(w)
    ensures AllAllWords(slices)
  {
    hide Undo, Overlapping, IsWord;
    PartsWithin(slices, size, overlap);
  }

  lemma SliceSizes(slices: seq<seq<string>>, w: seq<string>, size: nat, overlap: nat)
    requires IsSlicing(slices, w, size, overlap)
    ensures forall k :: 0 <= k < |slices| ==> 1 <= |slices[k]| <= size
  {
    forall k | 0 <= k < |slices| ensures 1 <= |slices[k]| <= size { OverlappingAt(slices, size, overlap, k); }
  }

  method SplitWithOverlap(body: string, size: nat, overlap: nat) returns (parts: seq<string>)
    requires overlap < size
    ensures Splits(body, parts, size, overlap)
  {
    hide Fields, Undo, Overlapping, Flatten, Trim, Split, NonBlank, IsSlicing, Tight, AllClosed, SingleSpaced;
    ParagraphWords(body);
    var text := Trim(body);
    if text == "" {
      EmptyBody(body, size, overlap);
      return [];
    }
    var raw := Split(text, PARAGRAPH_BREAK);
    var paras := CollectParagraphs(raw);
    var units: seq<string> := [];
    ghost var slices: seq<seq<seq<string>>> := [];
    FlattenNone<seq<string>>();
    assert WordsOf([]) == [];
    var i := 0;
    while i < |paras|
      invariant 0 <= i <= |paras| && |slices| == i
      invariant forall k :: 0 <= k < i ==> IsSlicing(slices[k], Fields(paras[k]), size, overlap)
      invariant WordsOf(units) == Flatten(slices)
      invariant forall k :: 0 <= k < |units| ==> 1 <= |WordsOf(units)[k]| <= size
      invariant i > 0 ==> units != []
    {
      var more := SliceParagraph(paras[i], size, overlap);
      ghost var own := WordsOf(more);
      SliceSizes(own, Fields(paras[i]), size, overlap);
      FlattenAppend(slices, own);
      assert WordsOf(units + more) == WordsOf(units) + own;
      slices := slices + [own];
      units := units + more;
      i := i + 1;
    }
    var packed := Pack(WordsOf(units), size, overlap);
    UnitsAreWords(units);
    SlicesWithin(packed, Flatten(WordsOf(units)), size, overlap);
    JoinAllReadsBack(packed);
    parts := JoinAll(packed);
    TrimEmpty(body);
    SomeParagraph(body);
    assert IsSplit(body, parts, slices, size, overlap);
  }

  lemma EmptyBody(body: string, size: nat, overlap: nat)
    requires Trim(body) == ""
    ensures IsSplit(body, [], [], size, overlap)
  {
    TrimEmpty(body);
    SomeParagraph(body);
    assert WordsOf([]) == [];
    FlattenNone<seq<string>>();
    FlattenNone<string>();
  }

  /** A body has a paragraph exactly when it has a word. */
  lemma SomeParagraph(body: string)
    ensures Paragraphs(body) == [] <==> Fields(body) == []
  {
    hide Fields, Paragraphs, Flatten;
    ParagraphWords(body);
    FlattenEmpty(WordsOf(Paragraphs(body)));
  }

  lemma FlattenEmpty(groups: seq<seq<string>>)
    requires forall k :: 0 <= k < |groups| ==> groups[k] != []
    ensures Flatten(groups) == [] <==> groups == []
  {}

  lemma {:induction false} UnitsAreWords(units: seq<string>)
    ensures AllWords(Flatten(WordsOf(units)))
  {
    hide Fields, IsWord;
    if units != [] {
      var n := |units| - 1;
      UnitsAreWords(units[..n]);
      assert WordsOf(units)[..n] == WordsOf(units[..n]);
      FieldsAreWords(units[n]);
    }
  }

  method CollectParagraphs(raw: seq<string>) returns (paras: seq<string>)
    ensures paras == NonBlank(raw)
  {
    hide Trim;
    paras := [];
    var i := 0;
    while i < |raw|
      invariant 0 <= i <= |raw| && paras == NonBlank(raw[..i])
    {
      assert raw[..i + 1][..i] == raw[..i];
      var trimmed := Trim(raw[i]);
      if trimmed != "" {
        paras := paras + [trimmed];
      }
      i := i + 1;
    }
    assert raw[..i] == raw;
  }

  // ----- Reconstruction

  function UndoAll(slices: seq<seq<seq<string>>>, overlap: nat): (texts: seq<seq<string>>)
    ensures |texts| == |slices| && forall k :: 0 <= k < |slices| ==> texts[k] == Undo(slices[k], overlap)
  {
    seq(|slices|, k requires 0 <= k < |slices| => Undo(slices[k], overlap))
  }

  /** Undoing both overlaps gives back the words of the body, in order: the
      parts undo to the slices, and the slices undo to the body. */
  lemma Reconstruct(body: string, parts: seq<string>, slices: seq<seq<seq<string>>>, size: nat, overlap: nat)
    requires IsSplit(body, parts, slices, size, overlap)
    ensures Undo(WordsOf(parts), overlap) == Flatten(Flatten(slices))
    ensures Flatten(UndoAll(slices, overlap)) == Fields(body)
  {
    hide Fields, Undo, Overlapping, Flatten, Tight, Paragraphs;
    ParagraphWords(body);
    assert UndoAll(slices, overlap) == WordsOf(Paragraphs(body));
  }

  /** When no paragraph is longer than a part, or nothing overlaps, undoing the
      parts alone gives back the body. */
  lemma ReconstructDirectly(body: string, parts: seq<string>, slices: seq<seq<seq<string>>>, size: nat, overlap: nat)
    requires IsSplit(body, parts, slices, size, overlap)
    requires overlap == 0 || forall k :: 0 <= k < |Paragraphs(body)| ==> |Fields(Paragraphs(body)[k])| <= size
    ensures Undo(WordsOf(parts), overlap) == Fields(body)
  {
    hide Fields, Tight, Paragraphs, AllFull;
    Reconstruct(body, parts, slices, size, overlap);
    forall k | 0 <= k < |slices| ensures Flatten(slices[k]) == Undo(slices[k], overlap) {
      SlicesFlat(slices[k], Fields(Paragraphs(body)[k]), size, overlap);
    }
    FlattenTwice(slices, UndoAll(slices, overlap));
  }

  lemma {:induction false} FlattenTwice(groups: seq<seq<seq<string>>>, texts: seq<seq<string>>)
    requires |texts| == |groups| && forall k :: 0 <= k < |groups| ==> Flatten(groups[k]) == texts[k]
    ensures Flatten(Flatten(groups)) == Flatten(texts)
  {
    if groups != [] {
      var n := |groups| - 1;
      FlattenTwice(groups[..n], texts[..n]);
      FlattenConcat(Flatten(groups[..n]), groups[n]);
    }
  }

  lemma SlicesFlat(slices: seq<seq<string>>, w: seq<string>, size: nat, overlap: nat)
    requires IsSlicing(slices, w, size, overlap)
    requires overlap == 0 || |w| <= size
    ensures Flatten(slices) == w
  {
    if overlap == 0 {
      NoOverlapFlat(slices, size);
    } else if |slices| >= 2 {
      TwoSlices(slices, size, overlap);
    } else if |slices| == 1 {
      assert slices[..0] == [];
    }
  }

  lemma {:induction false} NoOverlapFlat(slices: seq<seq<string>>, size: nat)
    requires Overlapping(slices, size, 0)
    ensures Undo(slices, 0) == Flatten(slices)
  {
    if slices != [] { NoOverlapFlat(slices[..|slices| - 1], size); }
  }

  /** Two slices cover more than one part holds. */
  lemma {:induction false} TwoSlices(slices: seq<seq<string>>, size: nat, overlap: nat)
    requires Overlapping(slices, size, overlap) && AllFull(slices, size) && |slices| >= 2
    ensures |Undo(slices, overlap)| > size
  {
    var n := |slices| - 1;
    assert |slices[n - 1]| == size;
    if n == 1 {
      assert slices[..1][..0] == [];
      assert slices[..1][0] == slices[0];
    } else {
      TwoSlices(slices[..n], size, overlap);
    }
  }

  /** A body can be split in one way only. */
  lemma OnlyParts(body: string, a: seq<string>, aSlices: seq<seq<seq<string>>>, b: seq<string>,
                  bSlices: seq<seq<seq<string>>>, size: nat, overlap: nat)
    requires IsSplit(body, a, aSlices, size, overlap) && IsSplit(body, b, bSlices, size, overlap)
    ensures a == b
  {
    hide Fields, Join, Tight, Paragraphs, IsSlicing, IsPacking, Flatten;
    forall k | 0 <= k < |aSlices| ensures aSlices[k] == bSlices[k] {
      OnlySlicing(aSlices[k], bSlices[k], Fields(Paragraphs(body)[k]), size, overlap);
    }
    assert aSlices == bSlices;
    OnlyPacking(WordsOf(a), WordsOf(b), Flatten(aSlices), size, overlap);
    forall k | 0 <= k < |a| ensures a[k] == b[k] {
      assert SingleSpaced(a[k]) && SingleSpaced(b[k]);
      assert WordsOf(a)[k] == WordsOf(b)[k];
    }
  }

  /** A body that fits into one part is that part, its words separated by single
      spaces. */
  lemma SmallBody(body: string, parts: seq<string>, slices: seq<seq<seq<string>>>, size: nat, overlap: nat)
    requires IsSplit(body, parts, slices, size, overlap)
    requires 1 <= |Fields(body)| <= size
    ensures parts == [Join(Fields(body), " ")]
  {
    hide Fields, Join, Tight, Paragraphs, AllClosed, Closed, Overlapping, Undo, Flatten, IsSlicing;
    ParagraphWords(body);
    forall k | 0 <= k < |Paragraphs(body)| ensures |Fields(Paragraphs(body)[k])| <= size {
      GroupFits(WordsOf(Paragraphs(body)), k);
    }
    ReconstructDirectly(body, parts, slices, size, overlap);
    var words := WordsOf(parts);
    if |parts| >= 2 {
      StandsAt(words, Flatten(slices), size, overlap, 0);
      ClosedAt(words[..|words| - 1], Flatten(slices), size, overlap, 0);
      assert words[..|words| - 1][..0] == [] && words[..|words| - 1][0] == words[0] && words[..0] == [];
      UndoUpto(words, 1, size, overlap);
      assert words[..1] == [words[0]];
      NotAlone(words[0], Flatten(slices), size, overlap);
    } else {
      assert words == [words[0]];
      UndoSteps<string>([], words[0], overlap);
      assert SingleSpaced(parts[0]);
    }
  }

  /** A first part that was closed covers less than what follows needs. */
  lemma NotAlone(part: seq<string>, units: seq<seq<string>>, size: nat, overlap: nat)
    requires Closed([], part, units, size, overlap) && |Undo([part], overlap)| < |Flatten(units)|
    ensures |Flatten(units)| > size
  {
    hide Undo, Flatten;
    UndoSteps<string>([], part, overlap);
    assert [] + [part] == [part];
    var j: nat :| ClosedBetween([], part, units, size, overlap, j) || ClosedInside([], part, units, size, overlap, j);
    FlattenNext(units, j);
    FlattenUpto(units, 0, j + 1);
  }

  lemma GroupFits(groups: seq<seq<string>>, k: nat)
    requires k < |groups|
    ensures |groups[k]| <= |Flatten(groups)|
  {
    hide Flatten;
    FlattenNext(groups, k);
    FlattenUpto(groups, 0, k + 1);
  }
}
