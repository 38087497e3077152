/** Sequences of parts in which every part repeats the end of the one before. */
module Overlap {
  import opened Text

  /** How many words a part repeats from the one before it. */
  function Carry<T>(previous: seq<T>, overlap: nat): nat {
    if |previous| < overlap then |previous| else overlap
  }

  /** The words a part after `parts` repeats: the end of the last of them. */
  function Tail<T>(parts: seq<seq<T>>, overlap: nat): seq<T> {
    if parts == [] then []
    else
      var last := parts[|parts| - 1];
      last[|last| - Carry(last, overlap)..]
  }

  function Drop<T>(words: seq<T>, n: nat): seq<T> {
    if n <= |words| then words[n..] else []
  }

  /** Undoes the overlap: drops from every part the words it repeats. */
  function Undo<T>(parts: seq<seq<T>>, overlap: nat): seq<T> {
    if parts == [] then []
    else
      var n := |parts| - 1;
      Undo(parts[..n], overlap) + Drop(parts[n], |Tail(parts[..n], overlap)|)
  }

  /** A part has between one and `size` words, begins with the end of the part
      before it, and adds at least one new word. */
  ghost predicate Continues<T>(parts: seq<seq<T>>, part: seq<T>, size: nat, overlap: nat) {
    Tail(parts, overlap) < part && |part| <= size
  }

  ghost predicate Overlapping<T>(parts: seq<seq<T>>, size: nat, overlap: nat) {
    parts == []
    || (Overlapping(parts[..|parts| - 1], size, overlap)
        && Continues(parts[..|parts| - 1], parts[|parts| - 1], size, overlap))
  }

  lemma {:induction false} OverlappingAt<T>(parts: seq<seq<T>>, size: nat, overlap: nat, k: nat)
    requires Overlapping(parts, size, overlap) && k < |parts|
    ensures Continues(parts[..k], parts[k], size, overlap)
  {
    var n := |parts| - 1;
    if k < n {
      OverlappingAt(parts[..n], size, overlap, k);
      assert parts[..n][..k] == parts[..k];
    }
  }

  /** All parts but the last are full. */
  ghost predicate AllFull<T>(parts: seq<seq<T>>, size: nat) {
    forall k :: 0 <= k < |parts| - 1 ==> |parts[k]| == size
  }

  /** The last part and the new words after it would fill a part. */
  ghost predicate Slack<T>(parts: seq<seq<T>>, current: seq<T>, size: nat, overlap: nat) {
    parts != [] ==> |parts[|parts| - 1]| + |current| - |Tail(parts, overlap)| >= size
  }

  /** No part together with the new words of the next one would have left room. */
  ghost predicate Tight<T>(parts: seq<seq<T>>, size: nat, overlap: nat) {
    parts == []
    || (Tight(parts[..|parts| - 1], size, overlap) && Slack(parts[..|parts| - 1], parts[|parts| - 1], size, overlap))
  }

  lemma TightAppend<T>(parts: seq<seq<T>>, part: seq<T>, size: nat, overlap: nat)
    requires Tight(parts, size, overlap) && Slack(parts, part, size, overlap)
    ensures Tight(parts + [part], size, overlap)
  {
    assert (parts + [part])[..|parts|] == parts;
  }

  /** A part was closed between two units, because the next one did not fit. */
  ghost predicate ClosedBetween<T>(before: seq<seq<T>>, part: seq<T>, units: seq<seq<T>>, size: nat, overlap: nat, j: nat) {
    j < |units| && |Undo(before + [part], overlap)| == |Flatten(units[..j])| && |part| + |units[j]| > size
  }

  /** A part was closed inside a unit, because the repeated words and the unit
      together were too long: it is full and all its new words are the unit's. */
  ghost predicate ClosedInside<T>(before: seq<seq<T>>, part: seq<T>, units: seq<seq<T>>, size: nat, overlap: nat, j: nat) {
    && j < |units| && |part| == size
    && |Flatten(units[..j])| <= |Undo(before, overlap)|
    && |Undo(before + [part], overlap)| < |Flatten(units[..j + 1])|
  }

  ghost predicate Closed<T>(before: seq<seq<T>>, part: seq<T>, units: seq<seq<T>>, size: nat, overlap: nat) {
    exists j: nat :: ClosedBetween(before, part, units, size, overlap, j) || ClosedInside(before, part, units, size, overlap, j)
  }

  ghost predicate AllClosed<T>(parts: seq<seq<T>>, units: seq<seq<T>>, size: nat, overlap: nat) {
    parts == []
    || (AllClosed(parts[..|parts| - 1], units, size, overlap)
        && Closed(parts[..|parts| - 1], parts[|parts| - 1], units, size, overlap))
  }

  /** The parts hold the units, and each but the last was closed for a reason. */
  ghost predicate IsPacking<T>(parts: seq<seq<T>>, units: seq<seq<T>>, size: nat, overlap: nat) {
    && Overlapping(parts, size, overlap)
    && Undo(parts, overlap) == Flatten(units)
    && (parts != [] ==> AllClosed(parts[..|parts| - 1], units, size, overlap))
  }

  lemma AllClosedAppend<T>(parts: seq<seq<T>>, part: seq<T>, units: seq<seq<T>>, size: nat, overlap: nat)
    requires AllClosed(parts, units, size, overlap) && Closed(parts, part, units, size, overlap)
    ensures AllClosed(parts + [part], units, size, overlap)
  {
    assert (parts + [part])[..|parts|] == parts;
  }

  /** Slices of one paragraph. */
  ghost predicate IsSlicing<T>(slices: seq<seq<T>>, words: seq<T>, size: nat, overlap: nat) {
    Overlapping(slices, size, overlap) && AllFull(slices, size) && Undo(slices, overlap) == words
  }

  lemma Append<T>(parts: seq<seq<T>>, part: seq<T>, size: nat, overlap: nat)
    ensures Undo(parts + [part], overlap) == Undo(parts, overlap) + Drop(part, |Tail(parts, overlap)|)
    ensures Overlapping(parts + [part], size, overlap)
       <==> Overlapping(parts, size, overlap) && Continues(parts, part, size, overlap)
    ensures Tail(parts + [part], overlap) == part[|part| - Carry(part, overlap)..]
  {
    assert (parts + [part])[..|parts|] == parts;
  }

  /** A sequence of parts that is still being filled: `current` begins with the
      words repeated from the last part; the others are new. */
  ghost predicate Filling<T>(parts: seq<seq<T>>, current: seq<T>, size: nat, overlap: nat) {
    Overlapping(parts, size, overlap) && Tail(parts, overlap) <= current
  }

  /** The words covered so far: those of the closed parts and the new ones. */
  function Covered<T>(parts: seq<seq<T>>, current: seq<T>, overlap: nat): seq<T> {
    Undo(parts, overlap) + Drop(current, |Tail(parts, overlap)|)
  }

  lemma Cut<T>(current: seq<T>, t: nat, n: nat, c: nat)
    requires t <= n <= |current| && c <= n
    ensures current[..n][n - c..] == current[n - c..][..c]
    ensures current[n - c..][c..] == current[n..]
    ensures current[..n][t..] + current[n..] == current[t..]
  {}

  /** Closing a part keeps the overlap discipline and covers the same words. */
  lemma ClosePart<T>(parts: seq<seq<T>>, current: seq<T>, n: nat, size: nat, overlap: nat)
    requires Filling(parts, current, size, overlap)
    requires |Tail(parts, overlap)| < n <= |current| && n <= size
    ensures var part := current[..n];
      var rest := current[n - Carry(part, overlap)..];
      && Filling(parts + [part], rest, size, overlap)
      && |Tail(parts + [part], overlap)| == Carry(part, overlap)
      && Covered(parts + [part], rest, overlap) == Covered(parts, current, overlap)
  {
    hide Undo, Overlapping, Carry;
    var part := current[..n];
    CarryFits(part, overlap);
    var c := Carry(part, overlap);
    var t := |Tail(parts, overlap)|;
    var rest := current[n - c..];
    Append(parts, part, size, overlap);
    Cut(current, t, n, c);
    calc {
      Covered(parts + [part], rest, overlap);
      Undo(parts, overlap) + part[t..] + current[n..];
      Undo(parts, overlap) + (part[t..] + current[n..]);
      Covered(parts, current, overlap);
    }
  }

  lemma CarryFits<T>(previous: seq<T>, overlap: nat)
    ensures Carry(previous, overlap) <= |previous| && Carry(previous, overlap) <= overlap
  {}

  lemma CoverMore<T>(parts: seq<seq<T>>, current: seq<T>, more: seq<T>, size: nat, overlap: nat)
    requires Filling(parts, current, size, overlap)
    ensures Filling(parts, current + more, size, overlap)
    ensures Covered(parts, current + more, overlap) == Covered(parts, current, overlap) + more
  {
    hide Undo, Overlapping, Tail;
    var t := |Tail(parts, overlap)|;
    assert (current + more)[t..] == current[t..] + more;
  }

  // ----- Slicing

  lemma Nothing<T>(size: nat, overlap: nat)
    ensures Undo<T>([], overlap) == [] && Overlapping<T>([], size, overlap) && Tail<T>([], overlap) == []
    ensures Tight<T>([], size, overlap)
  {}

  lemma Whole<T>(w: seq<T>, size: nat, overlap: nat)
    requires 1 <= |w| <= size
    ensures IsSlicing([w], w, size, overlap)
  {
    Nothing<T>(size, overlap);
    Append([], w, size, overlap);
    assert [] + [w] == [w];
  }

  /** Windows of `size` words that advance by size - overlap. */
  method Windows<T>(w: seq<T>, size: nat, overlap: nat) returns (slices: seq<seq<T>>)
    requires overlap < size < |w|
    ensures IsSlicing(slices, w, size, overlap)
  {
    hide Undo, Overlapping, Tail, Filling, Covered, Carry;
    slices := [];
    WindowStart(w, size, overlap);
    var step := size - overlap;
    var i := 0;
    while i < |w|
      invariant 0 <= i < |w| && |Tail(slices, overlap)| < |w| - i && |Tail(slices, overlap)| <= overlap
      invariant Filling(slices, w[i..], size, overlap)
      invariant Covered(slices, w[i..], overlap) == w
      invariant forall k :: 0 <= k < |slices| ==> |slices[k]| == size
      decreases |w| - i
    {
      var end := i + size;
      if end > |w| {
        end := |w|;
      }
      Window(slices, w, i, end, size, overlap);
      slices := slices + [w[i..end]];
      if end == |w| {
        return;
      }
      i := i + step;
    }
  }

  lemma WindowStart<T>(w: seq<T>, size: nat, overlap: nat)
    ensures Filling([], w[0..], size, overlap) && Covered([], w[0..], overlap) == w && |Tail<T>([], overlap)| == 0
  {}

  lemma Window<T>(slices: seq<seq<T>>, w: seq<T>, i: nat, end: nat, size: nat, overlap: nat)
    requires overlap < size && i < end <= |w| && end <= i + size && (end == |w| || end == i + size)
    requires Filling(slices, w[i..], size, overlap) && Covered(slices, w[i..], overlap) == w
    requires |Tail(slices, overlap)| < |w| - i && |Tail(slices, overlap)| <= overlap
    ensures var more := slices + [w[i..end]];
      && Overlapping(more, size, overlap)
      && (end == |w| ==> Undo(more, overlap) == w)
      && (end < |w| ==>
           && |Tail(more, overlap)| == overlap
           && Filling(more, w[i + size - overlap..], size, overlap)
           && Covered(more, w[i + size - overlap..], overlap) == w)
  {
    hide Undo, Overlapping, Tail;
    var n := end - i;
    assert w[i..][..n] == w[i..end];
    ClosePart(slices, w[i..], n, size, overlap);
    assert w[i..][n - Carry(w[i..end], overlap)..] == w[end - Carry(w[i..end], overlap)..];
  }

  // ----- Packing

  /** The state between two units: the closed parts and the part being filled. */
  ghost predicate Packing<T>(parts: seq<seq<T>>, cur: seq<T>, size: nat, overlap: nat) {
    Filling(parts, cur, size, overlap) && Tight(parts, size, overlap) && Slack(parts, cur, size, overlap)
  }

  lemma PackStart<T>(size: nat, overlap: nat)
    ensures Packing<T>([], [], size, overlap) && Tail<T>([], overlap) == [] && Covered<T>([], [], overlap) == []
    ensures forall units: seq<seq<T>> :: AllClosed<T>([], units, size, overlap)
  {}

  /** Closing a part keeps everything but the slack, which the next unit restores. */
  lemma ClosePacked<T>(parts: seq<seq<T>>, cur: seq<T>, n: nat, size: nat, overlap: nat)
    requires Filling(parts, cur, size, overlap) && Tight(parts, size, overlap)
    requires |Tail(parts, overlap)| < n <= |cur| && n <= size && Slack(parts, cur[..n], size, overlap)
    ensures var more := parts + [cur[..n]];
      var c := Carry(cur[..n], overlap);
      && c <= n
      && Filling(more, cur[n - c..], size, overlap) && Tight(more, size, overlap) && |Tail(more, overlap)| == c
      && Covered(more, cur[n - c..], overlap) == Covered(parts, cur, overlap)
      && (forall u: seq<T> :: n + |u| - c >= size ==> Slack(more, u, size, overlap))
  {
    hide Undo, Overlapping, Tight, Covered, Filling, Tail;
    CarryFits(cur[..n], overlap);
    ClosePart(parts, cur, n, size, overlap);
    TightAppend(parts, cur[..n], size, overlap);
  }

  lemma SlackFull<T>(parts: seq<seq<T>>, part: seq<T>, size: nat, overlap: nat)
    requires |part| >= size
    ensures Slack(parts, part, size, overlap)
  {}

  /** What closing a part adds to what is covered. */
  lemma ClosedLength<T>(parts: seq<seq<T>>, cur: seq<T>, n: nat, size: nat, overlap: nat)
    requires Filling(parts, cur, size, overlap) && |Tail(parts, overlap)| < n <= |cur|
    ensures |Undo(parts + [cur[..n]], overlap)| - |Undo(parts, overlap)| == n - |Tail(parts, overlap)|
    ensures |Covered(parts, cur, overlap)| - |Undo(parts, overlap)| == |cur| - |Tail(parts, overlap)|
  {
    hide Overlapping, Tail;
    Append(parts, cur[..n], size, overlap);
  }

  /** A unit that does not fit closes the part before it. */
  lemma CloseBetween<T>(parts: seq<seq<T>>, cur: seq<T>, units: seq<seq<T>>, j: nat, size: nat, overlap: nat)
    requires Filling(parts, cur, size, overlap) && AllClosed(parts, units, size, overlap)
    requires |Tail(parts, overlap)| < |cur| && j < |units| && |cur| + |units[j]| > size
    requires Covered(parts, cur, overlap) == Flatten(units[..j])
    ensures AllClosed(parts + [cur], units, size, overlap)
    ensures |Undo(parts + [cur], overlap)| == |Flatten(units[..j])|
  {
    hide Undo, Tail, Flatten, AllClosed, Filling, Covered;
    assert cur[..|cur|] == cur;
    ClosedLength(parts, cur, |cur|, size, overlap);
    assert ClosedBetween(parts, cur, units, size, overlap, j);
    AllClosedAppend(parts, cur, units, size, overlap);
  }

  /** What the unit leaves over closes full parts. */
  lemma CloseInside<T>(parts: seq<seq<T>>, cur: seq<T>, units: seq<seq<T>>, j: nat, size: nat, overlap: nat)
    requires Filling(parts, cur, size, overlap) && AllClosed(parts, units, size, overlap)
    requires |Tail(parts, overlap)| < size < |cur| && j < |units|
    requires |Flatten(units[..j])| <= |Undo(parts, overlap)|
    requires Covered(parts, cur, overlap) == Flatten(units[..j + 1])
    ensures AllClosed(parts + [cur[..size]], units, size, overlap)
    ensures |Flatten(units[..j])| <= |Undo(parts + [cur[..size]], overlap)|
  {
    hide Undo, Tail, Flatten, AllClosed, Filling, Covered;
    ClosedLength(parts, cur, size, size, overlap);
    assert ClosedInside(parts, cur[..size], units, size, overlap, j);
    AllClosedAppend(parts, cur[..size], units, size, overlap);
  }

  /** Adds one unit. When it does not fit, the part is closed and the next one
      begins with its last `overlap` words; whatever then exceeds the size is
      closed at once. */
  method AddUnit<T>(parts: seq<seq<T>>, cur: seq<T>, unit: seq<T>, size: nat, overlap: nat,
                    ghost units: seq<seq<T>>, ghost j: nat)
    returns (parts': seq<seq<T>>, cur': seq<T>)
    requires overlap < size && 1 <= |unit| <= size && j < |units| && unit == units[j]
    requires Packing(parts, cur, size, overlap) && AllClosed(parts, units, size, overlap)
    requires |cur| <= size && (|cur| > |Tail(parts, overlap)| || (parts == [] && cur == []))
    requires Covered(parts, cur, overlap) == Flatten(units[..j])
    ensures Packing(parts', cur', size, overlap) && AllClosed(parts', units, size, overlap)
    ensures |cur'| <= size && |cur'| > |Tail(parts', overlap)|
    ensures Covered(parts', cur', overlap) == Flatten(units[..j + 1])
  {
    hide Undo, Overlapping, Tight, Covered, Filling, Tail, AllClosed, Flatten;
    assert units[..j + 1] == units[..j] + [unit];
    FlattenAppend(units[..j], unit);
    parts', cur' := parts, cur;
    if |cur| + |unit| <= size {
      CoverMore(parts, cur, unit, size, overlap);
      TailFits(parts, cur, size, overlap);
      return parts, cur + unit;
    }
    if |cur| > 0 {
      assert cur[..|cur|] == cur;
      ClosePacked(parts, cur, |cur|, size, overlap);
      CloseBetween(parts, cur, units, j, size, overlap);
      var tailStart := if |cur| < overlap then 0 else |cur| - overlap;
      parts' := parts + [cur];
      cur' := cur[tailStart..];
    }
    CoverMore(parts', cur', unit, size, overlap);
    cur' := cur' + unit;
    while |cur'| > size
      invariant Packing(parts', cur', size, overlap) && AllClosed(parts', units, size, overlap)
      invariant |cur'| > |Tail(parts', overlap)| && |Tail(parts', overlap)| <= overlap
      invariant Covered(parts', cur', overlap) == Flatten(units[..j + 1])
      invariant |Flatten(units[..j])| <= |Undo(parts', overlap)|
      decreases |cur'|
    {
      SlackFull(parts', cur'[..size], size, overlap);
      ClosePacked(parts', cur', size, size, overlap);
      CloseInside(parts', cur', units, j, size, overlap);
      parts' := parts' + [cur'[..size]];
      cur' := cur'[size - overlap..];
    }
  }

  lemma TailFits<T>(parts: seq<seq<T>>, cur: seq<T>, size: nat, overlap: nat)
    requires Filling(parts, cur, size, overlap)
    ensures |Tail(parts, overlap)| <= |cur| && |Tail(parts, overlap)| <= overlap
  {}

  /** Packs units of at most `size` words into parts. */
  method Pack<T>(units: seq<seq<T>>, size: nat, overlap: nat) returns (parts: seq<seq<T>>)
    requires overlap < size
    requires forall k :: 0 <= k < |units| ==> 1 <= |units[k]| <= size
    ensures IsPacking(parts, units, size, overlap) && Tight(parts, size, overlap)
    ensures parts == [] <==> units == []
  {
    hide Undo, Overlapping, Tight, Covered, Packing, Flatten, Tail, AllClosed;
    parts := [];
    var cur: seq<T> := [];
    PackStart<T>(size, overlap);
    FlattenNone<T>();
    assert units[..0] == [];
    var i := 0;
    while i < |units|
      invariant 0 <= i <= |units|
      invariant Packing(parts, cur, size, overlap) && AllClosed(parts, units, size, overlap) && |cur| <= size
      invariant Covered(parts, cur, overlap) == Flatten(units[..i])
      invariant i > 0 ==> |cur| > |Tail(parts, overlap)|
      invariant i == 0 ==> parts == [] && cur == []
    {
      parts, cur := AddUnit(parts, cur, units[i], size, overlap, units, i);
      i := i + 1;
    }
    assert units[..i] == units;
    PackEnd(parts, cur, size, overlap);
    if |cur| > 0 {
      assert (parts + [cur])[..|parts|] == parts;
      parts := parts + [cur];
    }
  }

  /** Closing the last part leaves nothing uncovered. */
  lemma PackEnd<T>(parts: seq<seq<T>>, cur: seq<T>, size: nat, overlap: nat)
    requires Packing(parts, cur, size, overlap) && |cur| <= size
    requires |cur| > |Tail(parts, overlap)| || (parts == [] && cur == [])
    ensures var all := if |cur| > 0 then parts + [cur] else parts;
      && Overlapping(all, size, overlap) && Tight(all, size, overlap)
      && Undo(all, overlap) == Covered(parts, cur, overlap)
  {
    hide Overlapping, Tight;
    if |cur| > 0 {
      Append(parts, cur, size, overlap);
      TightAppend(parts, cur, size, overlap);
    } else {
      Nothing<T>(size, overlap);
    }
  }

  // ----- What a packing is

  /** Every part after the first begins with the last words of the part before
      it, `overlap` of them or all it has, and adds at least one word; no part is
      longer than `size`. */
  lemma PartsRepeat<T>(parts: seq<seq<T>>, size: nat, overlap: nat, k: nat)
    requires Overlapping(parts, size, overlap) && k < |parts|
    ensures 0 < |parts[k]| <= size
    ensures k > 0 ==>
      var previous := parts[k - 1];
      var n := if |previous| < overlap then |previous| else overlap;
      n < |parts[k]| && parts[k][..n] == previous[|previous| - n..]
  {
    hide Overlapping;
    OverlappingAt(parts, size, overlap, k);
    if k > 0 { assert parts[..k][k - 1] == parts[k - 1]; }
  }

  /** Undoing keeps the first part whole and drops from every later one what it
      repeats. */
  lemma UndoSteps<T>(parts: seq<seq<T>>, part: seq<T>, overlap: nat)
    ensures Undo<T>([], overlap) == [] && Undo([part], overlap) == part
    ensures parts != [] ==>
      var last := parts[|parts| - 1];
      var n := if |last| < overlap then |last| else overlap;
      |part| >= n ==> Undo(parts + [part], overlap) == Undo(parts, overlap) + part[n..]
  {
    assert [part][..0] == [] && [] + part == part;
    assert (parts + [part])[..|parts|] == parts;
  }

  lemma FlattenUpto<T>(units: seq<seq<T>>, i: nat, j: nat)
    requires i <= j <= |units|
    ensures |Flatten(units[..i])| <= |Flatten(units[..j])|
    ensures Flatten(units[..j]) <= Flatten(units)
  {
    hide Flatten;
    assert units[..j] == units[..i] + units[i..j];
    FlattenConcat(units[..i], units[i..j]);
    assert units == units[..j] + units[j..];
    FlattenConcat(units[..j], units[j..]);
  }

  lemma FlattenNext<T>(units: seq<seq<T>>, j: nat)
    requires j < |units|
    ensures |Flatten(units[..j + 1])| == |Flatten(units[..j])| + |units[j]|
  {
    assert units[..j + 1] == units[..j] + [units[j]];
    FlattenAppend(units[..j], units[j]);
  }

  lemma {:induction false} UndoUpto<T>(parts: seq<seq<T>>, k: nat, size: nat, overlap: nat)
    requires Overlapping(parts, size, overlap) && k <= |parts|
    ensures Undo(parts[..k], overlap) <= Undo(parts, overlap) && Overlapping(parts[..k], size, overlap)
    ensures k < |parts| ==> |Undo(parts[..k], overlap)| < |Undo(parts, overlap)|
  {
    if k < |parts| {
      var n := |parts| - 1;
      UndoUpto(parts[..n], k, size, overlap);
      assert parts[..n][..k] == parts[..k];
    } else {
      assert parts[..k] == parts;
    }
  }

  lemma {:induction false} ClosedAt<T>(parts: seq<seq<T>>, units: seq<seq<T>>, size: nat, overlap: nat, k: nat)
    requires AllClosed(parts, units, size, overlap) && k < |parts|
    ensures Closed(parts[..k], parts[k], units, size, overlap)
  {
    hide Closed;
    var n := |parts| - 1;
    if k < n {
      ClosedAt(parts[..n], units, size, overlap, k);
      assert parts[..n][..k] == parts[..k];
    }
  }

  /** A part in its place: the last one, or closed for a reason. */
  ghost predicate Stands<T>(before: seq<seq<T>>, part: seq<T>, units: seq<seq<T>>, size: nat, overlap: nat) {
    && Continues(before, part, size, overlap)
    && Undo(before + [part], overlap) <= Flatten(units)
    && (Undo(before + [part], overlap) == Flatten(units) || Closed(before, part, units, size, overlap))
  }

  lemma StandsAt<T>(parts: seq<seq<T>>, units: seq<seq<T>>, size: nat, overlap: nat, k: nat)
    requires IsPacking(parts, units, size, overlap) && k < |parts|
    ensures Stands(parts[..k], parts[k], units, size, overlap)
  {
    hide Undo, Overlapping, AllClosed, Flatten, Tail;
    OverlappingAt(parts, size, overlap, k);
    assert parts[..k + 1] == parts[..k] + [parts[k]];
    UndoUpto(parts, k + 1, size, overlap);
    if k < |parts| - 1 {
      ClosedAt(parts[..|parts| - 1], units, size, overlap, k);
      assert parts[..|parts| - 1][..k] == parts[..k];
    } else {
      assert parts[..k + 1] == parts;
    }
  }

  /** Two parts cannot stand in the same place with different lengths. */
  lemma NotShorter<T>(before: seq<seq<T>>, a: seq<T>, b: seq<T>, units: seq<seq<T>>, size: nat, overlap: nat)
    requires Stands(before, a, units, size, overlap) && Stands(before, b, units, size, overlap)
    ensures |b| <= |a|
  {
    hide Undo, Overlapping, AllClosed, Flatten, Tail;
    Append(before, a, size, overlap);
    Append(before, b, size, overlap);
    if |a| < |b| {
      var j: nat :| ClosedBetween(before, a, units, size, overlap, j) || ClosedInside(before, a, units, size, overlap, j);
      FlattenNext(units, j);
      FlattenUpto(units, j + 1, |units|);
      assert units[..|units|] == units;
      assert Closed(before, b, units, size, overlap);
      var i: nat :| ClosedBetween(before, b, units, size, overlap, i) || ClosedInside(before, b, units, size, overlap, i);
      FlattenNext(units, i);
      if i < j {
        FlattenUpto(units, i + 1, j);
      } else if j < i {
        FlattenUpto(units, j + 1, i);
      }
    }
  }

  lemma SamePart<T>(before: seq<seq<T>>, a: seq<T>, b: seq<T>, units: seq<seq<T>>, size: nat, overlap: nat)
    requires Stands(before, a, units, size, overlap) && Stands(before, b, units, size, overlap)
    ensures a == b
  {
    hide Undo, Overlapping, Closed, Flatten, Tail;
    NotShorter(before, a, b, units, size, overlap);
    NotShorter(before, b, a, units, size, overlap);
    Append(before, a, size, overlap);
    Append(before, b, size, overlap);
    SameRest(a, b, Tail(before, overlap), Undo(before, overlap), Flatten(units));
  }

  lemma SameRest<T>(a: seq<T>, b: seq<T>, tail: seq<T>, covered: seq<T>, whole: seq<T>)
    requires tail <= a && tail <= b && |a| == |b|
    requires covered + a[|tail|..] <= whole && covered + b[|tail|..] <= whole
    ensures a == b
  {
    var t, n := |tail|, |covered|;
    forall i | 0 <= i < |a| ensures a[i] == b[i] {
      if i < t {
        assert a[i] == tail[i] == b[i];
      } else {
        assert (covered + a[t..])[n + i - t] == a[i] && (covered + b[t..])[n + i - t] == b[i];
      }
    }
  }

  lemma {:induction false} SameUpto<T>(a: seq<seq<T>>, b: seq<seq<T>>, units: seq<seq<T>>, size: nat, overlap: nat, k: nat)
    requires IsPacking(a, units, size, overlap) && IsPacking(b, units, size, overlap)
    requires k <= |a| && k <= |b|
    ensures a[..k] == b[..k]
  {
    hide Stands, IsPacking;
    if k > 0 {
      SameUpto(a, b, units, size, overlap, k - 1);
      StandsAt(a, units, size, overlap, k - 1);
      StandsAt(b, units, size, overlap, k - 1);
      SamePart(a[..k - 1], a[k - 1], b[k - 1], units, size, overlap);
      assert a[..k] == a[..k - 1] + [a[k - 1]] && b[..k] == b[..k - 1] + [b[k - 1]];
    }
  }

  lemma NoFewer<T>(a: seq<seq<T>>, b: seq<seq<T>>, units: seq<seq<T>>, size: nat, overlap: nat)
    requires IsPacking(a, units, size, overlap) && IsPacking(b, units, size, overlap)
    ensures |b| <= |a|
  {
    hide Undo, Overlapping, AllClosed, Flatten;
    if |a| < |b| {
      SameUpto(a, b, units, size, overlap, |a|);
      assert a[..|a|] == a;
      UndoUpto(b, |a|, size, overlap);
    }
  }

  /** Units can be packed in one way only. */
  lemma OnlyPacking<T>(a: seq<seq<T>>, b: seq<seq<T>>, units: seq<seq<T>>, size: nat, overlap: nat)
    requires IsPacking(a, units, size, overlap) && IsPacking(b, units, size, overlap)
    ensures a == b
  {
    NoFewer(a, b, units, size, overlap);
    NoFewer(b, a, units, size, overlap);
    SameUpto(a, b, units, size, overlap, |a|);
    assert a[..|a|] == a && b[..|b|] == b;
  }

  lemma {:induction false} FullClosed<T>(slices: seq<seq<T>>, k: nat, words: seq<T>, size: nat, overlap: nat)
    requires IsSlicing(slices, words, size, overlap) && k < |slices|
    ensures AllClosed(slices[..k], [words], size, overlap)
  {
    hide Overlapping, Undo, AllClosed, Closed;
    if k > 0 {
      FullClosed(slices, k - 1, words, size, overlap);
      assert slices[..k] == slices[..k - 1] + [slices[k - 1]];
      UndoUpto(slices, k, size, overlap);
      FullInside(slices[..k - 1], slices[k - 1], words, size, overlap);
      AllClosedAppend(slices[..k - 1], slices[k - 1], [words], size, overlap);
    } else {
      NoneClosed([words], size, overlap);
    }
  }

  lemma NoneClosed<T>(units: seq<seq<T>>, size: nat, overlap: nat)
    ensures AllClosed([], units, size, overlap)
  {}

  lemma FullInside<T>(before: seq<seq<T>>, slice: seq<T>, words: seq<T>, size: nat, overlap: nat)
    requires |slice| == size && |Undo(before + [slice], overlap)| < |words|
    ensures Closed(before, slice, [words], size, overlap)
  {
    hide Undo, Flatten;
    assert [words][..0] == [] && [words][..0 + 1] == [words];
    FlattenOne(words);
    FlattenNone<T>();
    assert ClosedInside(before, slice, [words], size, overlap, 0);
  }

  lemma FlattenOne<T>(words: seq<T>)
    ensures Flatten([words]) == words
  {
    FlattenCons(words, []);
    FlattenNone<T>();
    assert [words] == [words] + [];
  }

  /** A paragraph can be sliced in one way only. */
  lemma OnlySlicing<T>(a: seq<seq<T>>, b: seq<seq<T>>, words: seq<T>, size: nat, overlap: nat)
    requires IsSlicing(a, words, size, overlap) && IsSlicing(b, words, size, overlap)
    ensures a == b
  {
    SlicingPacks(a, words, size, overlap);
    SlicingPacks(b, words, size, overlap);
    OnlyPacking(a, b, [words], size, overlap);
  }

  lemma SlicingPacks<T>(slices: seq<seq<T>>, words: seq<T>, size: nat, overlap: nat)
    requires IsSlicing(slices, words, size, overlap)
    ensures IsPacking(slices, [words], size, overlap)
  {
    hide Overlapping, Undo, AllClosed, AllFull, Flatten;
    FlattenOne(words);
    if slices != [] { FullClosed(slices, |slices| - 1, words, size, overlap); }
  }

  /** Every word of a part is a word of the text the parts cover. */
  lemma {:induction false} PartsWithin<T>(parts: seq<seq<T>>, size: nat, overlap: nat)
    requires Overlapping(parts, size, overlap)
    ensures forall k, i :: 0 <= k < |parts| && 0 <= i < |parts[k]| ==> parts[k][i] in Undo(parts, overlap)
  {
    hide Undo, Overlapping, Carry;
    if parts != [] {
      var n := |parts| - 1;
      var before, last := parts[..n], parts[n];
      UndoUpto(parts, n, size, overlap);
      PartsWithin(before, size, overlap);
      forall k, i | 0 <= k < |parts| && 0 <= i < |parts[k]| ensures parts[k][i] in Undo(parts, overlap) {
        if k < n {
          assert before[k][i] in Undo(before, overlap);
        } else {
          LastWithin(parts, i, size, overlap);
        }
      }
    }
  }

  lemma LastWithin<T>(parts: seq<seq<T>>, i: nat, size: nat, overlap: nat)
    requires parts != [] && Overlapping(parts, size, overlap) && i < |parts[|parts| - 1]|
    requires var before := parts[..|parts| - 1];
      forall k, i :: 0 <= k < |before| && 0 <= i < |before[k]| ==> before[k][i] in Undo(before, overlap)
    ensures parts[|parts| - 1][i] in Undo(parts, overlap)
  {
    hide Undo, Overlapping;
    var n := |parts| - 1;
    var before, last := parts[..n], parts[n];
    assert parts == before + [last];
    Append(before, last, size, overlap);
    var t := |Tail(before, overlap)|;
    if i < t {
      var p := before[n - 1];
      assert last[i] == Tail(before, overlap)[i] == p[|p| - t + i];
      assert before[n - 1][|p| - t + i] in Undo(before, overlap);
    } else {
      assert last[t..][i - t] == last[i];
    }
  }
}
