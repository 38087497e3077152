/** Splitting a markdown document at its headings and chunking every section
    (splitByHeadings and ChunkMarkdown in knowledge/chunker.go). */
module Sections {
  import opened Common
  import opened Text
  import opened Overlap
  import opened Chunker

  /** The class \s of Go's regexp package. */
  predicate RegexSpace(c: char) { c == '\t' || c == '\n' || c == '\U{0c}' || c == '\r' || c == ' ' }

  /** ^#\s+ */
  predicate IsTitle(line: string) {
    |line| >= 2 && line[0] == '#' && RegexSpace(line[1])
  }

  /** ^#{2,3}\s+ */
  predicate IsHeading(line: string) {
    (|line| >= 3 && line[..2] == "##" && RegexSpace(line[2]))
    || (|line| >= 4 && line[..3] == "###" && RegexSpace(line[3]))
  }

  function DropHashes(s: string): string {
    if s != "" && s[0] == '#' then DropHashes(s[1..]) else s
  }

  function DropSpaces(s: string): string {
    if s != "" && RegexSpace(s[0]) then DropSpaces(s[1..]) else s
  }

  /** Removes what ^#+\s* matches. */
  function StripHeading(line: string): string {
    if line != "" && line[0] == '#' then DropSpaces(DropHashes(line)) else line
  }

  /** \s is a tab, a line feed, a form feed, a carriage return or a space. */
  predicate Starts(line: string, marks: string) {
    |line| > |marks| && line[..|marks|] == marks && line[|marks|] as int in {9, 10, 12, 13, 32}
  }

  lemma MarksExactly(line: string)
    ensures IsTitle(line) <==> Starts(line, "#")
    ensures IsHeading(line) <==> Starts(line, "##") || Starts(line, "###")
  {
    if |line| >= 1 { assert line[..1] == [line[0]]; }
  }

  /** A heading is its marks, white space and its text, both runs as long as
      they can be; a line that begins otherwise is its own text. */
  ghost predicate Stripped(line: string, marks: string, spaces: string, text: string) {
    && line == marks + spaces + text
    && (forall i :: 0 <= i < |marks| ==> marks[i] == '#')
    && (forall i :: 0 <= i < |spaces| ==> spaces[i] as int in {9, 10, 12, 13, 32})
    && (marks == "" ==> spaces == "")
    && (marks != "" && text != "" ==> text[0] as int !in {9, 10, 12, 13, 32})
    && (spaces == "" && text != "" ==> text[0] != '#')
  }

  lemma {:induction false} HashesCut(s: string) returns (n: nat)
    ensures n <= |s| && DropHashes(s) == s[n..]
    ensures (forall i :: 0 <= i < n ==> s[i] == '#') && (n < |s| ==> s[n] != '#')
  {
    if s != "" && s[0] == '#' {
      var m := HashesCut(s[1..]);
      n := m + 1;
    } else {
      n := 0;
    }
  }

  lemma {:induction false} SpacesCut(s: string) returns (n: nat)
    ensures n <= |s| && DropSpaces(s) == s[n..]
    ensures (forall i :: 0 <= i < n ==> RegexSpace(s[i])) && (n < |s| ==> !RegexSpace(s[n]))
  {
    if s != "" && RegexSpace(s[0]) {
      var m := SpacesCut(s[1..]);
      n := m + 1;
    } else {
      n := 0;
    }
  }

  lemma StripExactly(line: string)
    ensures exists marks, spaces :: Stripped(line, marks, spaces, StripHeading(line))
  {
    hide DropHashes, DropSpaces;
    if line != "" && line[0] == '#' {
      var n := HashesCut(line);
      var rest := line[n..];
      var m := SpacesCut(rest);
      assert line == line[..n] + rest[..m] + rest[m..];
      assert Stripped(line, line[..n], rest[..m], StripHeading(line));
    } else {
      assert "" + "" + line == line;
      assert Stripped(line, "", "", StripHeading(line));
    }
  }

  // ----- What the sections must hold

  /** A body line with the heading it stands under and the number of headings
      before it. */
  datatype Placed = Placed(ordinal: nat, heading: string, line: string)

  function Ordinal(lines: seq<string>): nat {
    if lines == [] then 0
    else Ordinal(lines[..|lines| - 1]) + (if IsHeading(lines[|lines| - 1]) then 1 else 0)
  }

  function HeadingOf(lines: seq<string>): string {
    if lines == [] then ""
    else if IsHeading(lines[|lines| - 1]) then StripHeading(lines[|lines| - 1])
    else HeadingOf(lines[..|lines| - 1])
  }

  predicate HasTitle(lines: seq<string>) {
    exists i :: 0 <= i < |lines| && IsTitle(lines[i])
  }

  /** The body lines of a document: every line except the headings and the first
      title. */
  function Kept(lines: seq<string>): seq<Placed> {
    if lines == [] then []
    else
      var before := lines[..|lines| - 1];
      var line := lines[|lines| - 1];
      if IsHeading(line) || (IsTitle(line) && !HasTitle(before)) then Kept(before)
      else Kept(before) + [Placed(Ordinal(before), HeadingOf(before), line)]
  }

  // ----- The body lines, line by line

  predicate FirstTitle(lines: seq<string>, i: nat)
    requires i < |lines|
  {
    IsTitle(lines[i]) && forall h :: 0 <= h < i ==> !IsTitle(lines[h])
  }

  /** The heading a line stands under: that of the last heading before it. */
  predicate Under(lines: seq<string>, i: nat, heading: string)
    requires i <= |lines|
  {
    || (heading == "" && forall h :: 0 <= h < i ==> !IsHeading(lines[h]))
    || (exists h :: 0 <= h < i && LastHeading(lines, h, i) && heading == StripHeading(lines[h]))
  }

  predicate LastHeading(lines: seq<string>, h: nat, i: nat)
    requires h < i <= |lines|
  {
    IsHeading(lines[h]) && forall g :: h < g < i ==> !IsHeading(lines[g])
  }

  function HeadingsBefore(lines: seq<string>, i: nat): set<nat>
    requires i <= |lines|
  {
    set h: nat | h < i && IsHeading(lines[h])
  }

  /** `at` are the places of the body lines: every line that is no heading and
      not the first title is one, in order, under its heading. */
  ghost predicate KeptAt(placed: seq<Placed>, lines: seq<string>, at: seq<nat>) {
    && |at| == |placed|
    && (forall j, k :: 0 <= j < k < |at| ==> at[j] < at[k])
    && (forall i :: 0 <= i < |lines| ==> (i in at <==> !IsHeading(lines[i]) && !FirstTitle(lines, i)))
    && (forall k :: 0 <= k < |at| ==> StandsAt(placed[k], lines, at[k]))
  }

  predicate StandsAt(p: Placed, lines: seq<string>, i: nat) {
    i < |lines| && p.line == lines[i] && Under(lines, i, p.heading) && p.ordinal == |HeadingsBefore(lines, i)|
  }

  lemma {:induction false} OrdinalCounts(lines: seq<string>)
    ensures Ordinal(lines) == |HeadingsBefore(lines, |lines|)|
  {
    hide IsHeading;
    if lines != [] {
      var n := |lines| - 1;
      OrdinalCounts(lines[..n]);
      assert HeadingsBefore(lines[..n], n) == HeadingsBefore(lines, n);
      if IsHeading(lines[n]) {
        assert HeadingsBefore(lines, n + 1) == HeadingsBefore(lines, n) + {n};
      } else {
        assert HeadingsBefore(lines, n + 1) == HeadingsBefore(lines, n);
      }
    }
  }

  lemma {:induction false} HeadingStands(lines: seq<string>)
    ensures Under(lines, |lines|, HeadingOf(lines))
  {
    hide IsHeading, StripHeading;
    if lines != [] {
      var n := |lines| - 1;
      HeadingStands(lines[..n]);
      if IsHeading(lines[n]) {
        assert LastHeading(lines, n, n + 1);
      } else if h :| 0 <= h < n && LastHeading(lines[..n], h, n) && HeadingOf(lines[..n]) == StripHeading(lines[..n][h]) {
        assert LastHeading(lines, h, n + 1);
      } else {
        assert forall g :: 0 <= g < n ==> lines[..n][g] == lines[g];
      }
    }
  }

  lemma StandsMore(p: Placed, lines: seq<string>, line: string, i: nat)
    requires StandsAt(p, lines, i)
    ensures StandsAt(p, lines + [line], i)
  {
    hide IsHeading, StripHeading;
    assert HeadingsBefore(lines + [line], i) == HeadingsBefore(lines, i);
    if h :| 0 <= h < i && LastHeading(lines, h, i) && p.heading == StripHeading(lines[h]) {
      assert LastHeading(lines + [line], h, i);
    }
  }

  lemma StandsLast(lines: seq<string>, line: string)
    ensures StandsAt(Placed(Ordinal(lines), HeadingOf(lines), line), lines + [line], |lines|)
  {
    hide IsHeading, StripHeading, Ordinal, HeadingOf;
    OrdinalCounts(lines);
    HeadingStands(lines);
    var n := |lines|;
    assert HeadingsBefore(lines + [line], n) == HeadingsBefore(lines, n);
    if h :| 0 <= h < n && LastHeading(lines, h, n) && HeadingOf(lines) == StripHeading(lines[h]) {
      assert LastHeading(lines + [line], h, n);
    }
  }

  lemma TitleMore(lines: seq<string>, line: string)
    ensures forall i :: 0 <= i < |lines| ==> (FirstTitle(lines + [line], i) <==> FirstTitle(lines, i))
    ensures FirstTitle(lines + [line], |lines|) <==> IsTitle(line) && !HasTitle(lines)
  {
    hide IsTitle;
    assert forall h :: 0 <= h < |lines| ==> (lines + [line])[h] == lines[h];
  }

  lemma KeptOne(placed: seq<Placed>, lines: seq<string>, at: seq<nat>, line: string, p: Placed)
    requires KeptAt(placed, lines, at) && !IsHeading(line) && !FirstTitle(lines + [line], |lines|)
    requires StandsAt(p, lines + [line], |lines|)
    ensures KeptAt(placed + [p], lines + [line], at + [|lines|])
  {
    hide IsHeading, IsTitle, HasTitle, Ordinal, HeadingOf, StandsAt, FirstTitle;
    KeptBefore(placed, lines, at, line);
    var n, more, all := |lines|, lines + [line], at + [|lines|];
    forall i | 0 <= i < |more| ensures i in all <==> !IsHeading(more[i]) && !FirstTitle(more, i) {
      assert i in all <==> i in at || i == n;
    }
    forall k | 0 <= k < |all| ensures StandsAt((placed + [p])[k], more, all[k]) {
      if k < |at| { assert StandsAt(placed[k], more, at[k]); }
    }
  }

  lemma KeptNone(placed: seq<Placed>, lines: seq<string>, at: seq<nat>, line: string)
    requires KeptAt(placed, lines, at) && (IsHeading(line) || FirstTitle(lines + [line], |lines|))
    ensures KeptAt(placed, lines + [line], at)
  {
    hide IsHeading, IsTitle, HasTitle, StandsAt, FirstTitle;
    KeptBefore(placed, lines, at, line);
    forall i | 0 <= i <= |lines| ensures i in at <==> !IsHeading((lines + [line])[i]) && !FirstTitle(lines + [line], i) {
      assert |lines| !in at;
    }
  }

  /** A further line changes nothing about the lines before it. */
  lemma KeptBefore(placed: seq<Placed>, lines: seq<string>, at: seq<nat>, line: string)
    requires KeptAt(placed, lines, at)
    ensures forall k :: 0 <= k < |at| ==> at[k] < |lines| && StandsAt(placed[k], lines + [line], at[k])
    ensures forall i :: 0 <= i < |lines| ==>
      (lines + [line])[i] == lines[i] && (i in at <==> !IsHeading(lines[i]) && !FirstTitle(lines + [line], i))
  {
    hide IsHeading, IsTitle, HasTitle, Under, HeadingsBefore, FirstTitle;
    TitleMore(lines, line);
    forall k | 0 <= k < |at| ensures at[k] < |lines| && StandsAt(placed[k], lines + [line], at[k]) {
      StandsMore(placed[k], lines, line, at[k]);
    }
  }

  /** Which lines a document keeps, in which order and under which heading. */
  lemma {:induction false} KeptExactly(lines: seq<string>)
    ensures exists at :: KeptAt(Kept(lines), lines, at)
  {
    hide IsHeading, IsTitle, HasTitle, Ordinal, HeadingOf, KeptAt, FirstTitle, StandsAt;
    if lines == [] {
      NothingKept();
    } else {
      var n := |lines| - 1;
      var before, line := lines[..n], lines[n];
      KeptExactly(before);
      var at :| KeptAt(Kept(before), before, at);
      assert lines == before + [line];
      TitleMore(before, line);
      if IsHeading(line) || (IsTitle(line) && !HasTitle(before)) {
        KeptNone(Kept(before), before, at, line);
        assert KeptAt(Kept(lines), lines, at);
      } else {
        StandsLast(before, line);
        KeptOne(Kept(before), before, at, line, Placed(Ordinal(before), HeadingOf(before), line));
        assert KeptAt(Kept(lines), lines, at + [n]);
      }
    }
  }

  lemma NothingKept()
    ensures KeptAt(Kept([]), [], [])
  {}

  datatype Section = Section(heading: string, body: string)

  function Place(ordinal: nat, heading: string, body: seq<string>): (placed: seq<Placed>)
    ensures |placed| == |body| && forall i :: 0 <= i < |body| ==> placed[i] == Placed(ordinal, heading, body[i])
  {
    seq(|body|, i requires 0 <= i < |body| => Placed(ordinal, heading, body[i]))
  }

  function PlaceAll(sections: seq<Section>, ordinals: seq<nat>, bodies: seq<seq<string>>): (placed: seq<seq<Placed>>)
    requires |ordinals| == |sections| == |bodies|
    ensures |placed| == |sections|
    ensures forall k :: 0 <= k < |sections| ==> placed[k] == Place(ordinals[k], sections[k].heading, bodies[k])
  {
    seq(|sections|, k requires 0 <= k < |sections| => Place(ordinals[k], sections[k].heading, bodies[k]))
  }

  /** The sections hold the body lines, each once, in order, under their own
      heading, with no two sections under one heading and none empty. */
  predicate IsSectioning(sections: seq<Section>, ordinals: seq<nat>, bodies: seq<seq<string>>, lines: seq<string>) {
    && |ordinals| == |sections| == |bodies|
    && (forall k :: 0 <= k < |sections| ==> bodies[k] != [] && sections[k].body == Join(bodies[k], "\n"))
    && (forall j, k :: 0 <= j < k < |ordinals| ==> ordinals[j] < ordinals[k])
    && Flatten(PlaceAll(sections, ordinals, bodies)) == Kept(lines)
  }

  /** The same for some numbering and some lines of each section. */
  ghost predicate Sectioned(sections: seq<Section>, lines: seq<string>) {
    exists ordinals, bodies :: IsSectioning(sections, ordinals, bodies, lines)
  }

  function LinesOf(markdown: string): seq<string> {
    Split(ReplaceAll(markdown, "\r\n", "\n"), "\n")
  }

  /** The state of the scan: the closed sections and the one being filled. */
  ghost predicate Scanning(sections: seq<Section>, ordinals: seq<nat>, bodies: seq<seq<string>>, heading: string,
                           body: seq<string>, lines: seq<string>)
  {
    && |ordinals| == |sections| == |bodies|
    && (forall k :: 0 <= k < |sections| ==> bodies[k] != [] && sections[k].body == Join(bodies[k], "\n"))
    && (forall j, k :: 0 <= j < k < |ordinals| ==> ordinals[j] < ordinals[k])
    && (forall k :: 0 <= k < |ordinals| ==> ordinals[k] < Ordinal(lines))
    && heading == HeadingOf(lines)
    && Flatten(PlaceAll(sections, ordinals, bodies)) + Place(Ordinal(lines), heading, body) == Kept(lines)
  }

  lemma CloseSection(sections: seq<Section>, ordinals: seq<nat>, bodies: seq<seq<string>>, heading: string,
                     body: seq<string>, lines: seq<string>)
    requires Scanning(sections, ordinals, bodies, heading, body, lines)
    ensures body != [] ==>
      Flatten(PlaceAll(sections + [Section(heading, Join(body, "\n"))], ordinals + [Ordinal(lines)], bodies + [body]))
      == Kept(lines)
    ensures body == [] ==> Flatten(PlaceAll(sections, ordinals, bodies)) == Kept(lines)
  {
    hide Kept, HeadingOf, Ordinal, Join;
    var more := PlaceAll(sections + [Section(heading, Join(body, "\n"))], ordinals + [Ordinal(lines)], bodies + [body]);
    assert more == PlaceAll(sections, ordinals, bodies) + [Place(Ordinal(lines), heading, body)];
    FlattenAppend(PlaceAll(sections, ordinals, bodies), Place(Ordinal(lines), heading, body));
    if body == [] { assert Place(Ordinal(lines), heading, []) == []; }
  }

  lemma TitleAppend(lines: seq<string>, line: string)
    ensures HasTitle(lines + [line]) <==> HasTitle(lines) || IsTitle(line)
  {
    if i :| 0 <= i < |lines| && IsTitle(lines[i]) { assert IsTitle((lines + [line])[i]); }
    if IsTitle(line) { assert IsTitle((lines + [line])[|lines|]); }
  }

  method SplitByHeadings(markdown: string) returns (sections: seq<Section>)
    ensures Sectioned(sections, LinesOf(markdown))
  {
    hide IsTitle, IsHeading, StripHeading, HasTitle, Join, Flatten, Scanning, LinesOf;
    var lines := LinesOf(markdown);
    sections := [];
    ghost var ordinals: seq<nat> := [];
    ghost var bodies: seq<seq<string>> := [];
    var currentHeading: string := "";
    var currentBody: seq<string> := [];
    var titleSeen := false;
    ScanStart();
    assert lines[..0] == [];
    var i := 0;
    while i < |lines|
      invariant 0 <= i <= |lines|
      invariant Scanning(sections, ordinals, bodies, currentHeading, currentBody, lines[..i])
      invariant titleSeen == HasTitle(lines[..i])
    {
      var line := lines[i];
      ghost var before := lines[..i];
      assert lines[..i + 1] == before + [line];
      TitleAppend(before, line);
      i := i + 1;
      if IsTitle(line) && !titleSeen {
        ScanTitle(sections, ordinals, bodies, currentHeading, currentBody, before, line);
        titleSeen := true;
        continue;
      }
      if IsHeading(line) {
        ScanHeading(sections, ordinals, bodies, currentHeading, currentBody, before, line);
        TitleIsNoHeading(line);
        if |currentBody| > 0 {
          sections := sections + [Section(currentHeading, Join(currentBody, "\n"))];
          ordinals, bodies := ordinals + [Ordinal(before)], bodies + [currentBody];
        }
        currentHeading := StripHeading(line);
        currentBody := [];
      } else {
        ScanBody(sections, ordinals, bodies, currentHeading, currentBody, before, line);
        currentBody := currentBody + [line];
      }
    }
    assert lines[..i] == lines;
    ScanEnd(sections, ordinals, bodies, currentHeading, currentBody, lines);
    if |currentBody| > 0 {
      sections := sections + [Section(currentHeading, Join(currentBody, "\n"))];
      ordinals, bodies := ordinals + [Ordinal(lines)], bodies + [currentBody];
    }
  }

  /** A body line joins the section being filled. */
  lemma ScanBody(sections: seq<Section>, ordinals: seq<nat>, bodies: seq<seq<string>>, heading: string,
                 body: seq<string>, lines: seq<string>, line: string)
    requires Scanning(sections, ordinals, bodies, heading, body, lines)
    requires !IsHeading(line) && !(IsTitle(line) && !HasTitle(lines))
    ensures Scanning(sections, ordinals, bodies, heading, body + [line], lines + [line])
  {
    hide IsTitle, IsHeading, HasTitle, Flatten, StripHeading, Join;
    assert (lines + [line])[..|lines|] == lines;
    assert Place(Ordinal(lines), heading, body + [line])
      == Place(Ordinal(lines), heading, body) + [Placed(Ordinal(lines), heading, line)];
  }

  /** The first title is dropped. */
  lemma ScanTitle(sections: seq<Section>, ordinals: seq<nat>, bodies: seq<seq<string>>, heading: string,
                  body: seq<string>, lines: seq<string>, line: string)
    requires Scanning(sections, ordinals, bodies, heading, body, lines)
    requires IsTitle(line) && !HasTitle(lines)
    ensures Scanning(sections, ordinals, bodies, heading, body, lines + [line])
  {
    TitleIsNoHeading(line);
    hide IsTitle, IsHeading, HasTitle, Flatten, StripHeading, Join;
    assert (lines + [line])[..|lines|] == lines;
  }

  /** A heading closes the section being filled, unless it is empty. */
  lemma ScanHeading(sections: seq<Section>, ordinals: seq<nat>, bodies: seq<seq<string>>, heading: string,
                    body: seq<string>, lines: seq<string>, line: string)
    requires Scanning(sections, ordinals, bodies, heading, body, lines)
    requires IsHeading(line)
    ensures body == [] ==> Scanning(sections, ordinals, bodies, StripHeading(line), [], lines + [line])
    ensures body != [] ==>
      Scanning(sections + [Section(heading, Join(body, "\n"))], ordinals + [Ordinal(lines)], bodies + [body],
               StripHeading(line), [], lines + [line])
  {
    hide IsTitle, IsHeading, HasTitle, Flatten, StripHeading, Join;
    assert (lines + [line])[..|lines|] == lines;
    CloseSection(sections, ordinals, bodies, heading, body, lines);
    assert Place(Ordinal(lines + [line]), StripHeading(line), []) == [];
  }

  lemma ScanStart()
    ensures Scanning([], [], [], "", [], []) && !HasTitle([])
  {
    FlattenNone<Placed>();
  }

  lemma ScanEnd(sections: seq<Section>, ordinals: seq<nat>, bodies: seq<seq<string>>, heading: string,
                body: seq<string>, lines: seq<string>)
    requires Scanning(sections, ordinals, bodies, heading, body, lines)
    ensures body == [] ==> IsSectioning(sections, ordinals, bodies, lines)
    ensures body != [] ==>
      IsSectioning(sections + [Section(heading, Join(body, "\n"))], ordinals + [Ordinal(lines)], bodies + [body], lines)
  {
    hide Kept, HeadingOf, Flatten, Join;
    CloseSection(sections, ordinals, bodies, heading, body, lines);
  }

  lemma TitleIsNoHeading(line: string)
    ensures !(IsTitle(line) && IsHeading(line))
  {}

  // ----- Chunking a document

  datatype ChunkItem = ChunkItem(heading: string, content: string, contentHash: string)

  datatype ChunkError = SizeNotPositive | OverlapOutOfRange

  function ChunksOf(heading: string, parts: seq<string>, hash: string -> string): (chunks: seq<ChunkItem>)
    ensures |chunks| == |parts|
    ensures forall k :: 0 <= k < |parts| ==> chunks[k] == ChunkItem(Trim(heading), parts[k], hash(parts[k]))
  {
    seq(|parts|, k requires 0 <= k < |parts| => ChunkItem(Trim(heading), parts[k], hash(parts[k])))
  }

  /** How a document was chunked: its sections, and for each section the parts
      and slices of its body. */
  datatype Chunking = Chunking(sections: seq<Section>, ordinals: seq<nat>, bodies: seq<seq<string>>,
                               parts: seq<seq<string>>, slices: seq<seq<seq<seq<string>>>>)

  function GroupsOf(sections: seq<Section>, parts: seq<seq<string>>, hash: string -> string): (groups: seq<seq<ChunkItem>>)
    requires |parts| == |sections|
    ensures |groups| == |sections|
    ensures forall k :: 0 <= k < |sections| ==> groups[k] == ChunksOf(sections[k].heading, parts[k], hash)
  {
    seq(|sections|, k requires 0 <= k < |sections| => ChunksOf(sections[k].heading, parts[k], hash))
  }

  ghost predicate IsChunking(c: Chunking, markdown: string, size: nat, overlap: nat) {
    && IsSectioning(c.sections, c.ordinals, c.bodies, LinesOf(markdown))
    && |c.parts| == |c.slices| == |c.sections|
    && forall k :: 0 <= k < |c.sections| ==> IsSplit(Trim(c.sections[k].body), c.parts[k], c.slices[k], size, overlap)
  }

  /** Refuses exactly the parameters that are out of range; otherwise the chunks
      are the parts of the sections in order, under their trimmed headings. */
  method ChunkMarkdown(markdown: string, chunkSize: int, chunkOverlap: int, hash: string -> string)
    returns (result: Result<seq<ChunkItem>, ChunkError>)
    ensures chunkSize <= 0 ==> result == Err(SizeNotPositive)
    ensures chunkSize > 0 && !(0 <= chunkOverlap < chunkSize) ==> result == Err(OverlapOutOfRange)
    ensures 0 <= chunkOverlap < chunkSize ==>
      exists how :: IsChunking(how, markdown, chunkSize, chunkOverlap)
        && result == Ok(Flatten(GroupsOf(how.sections, how.parts, hash)))
  {
    hide IsSectioning, IsSplit, Trim, Flatten, LinesOf, GroupsOf;
    if chunkSize <= 0 {
      return Err(SizeNotPositive);
    }
    if chunkOverlap < 0 || chunkOverlap >= chunkSize {
      return Err(OverlapOutOfRange);
    }
    var sections := SplitByHeadings(markdown);
    ghost var ordinals, bodies :| IsSectioning(sections, ordinals, bodies, LinesOf(markdown));
    var chunks: seq<ChunkItem> := [];
    ghost var allParts: seq<seq<string>> := [];
    ghost var allSlices: seq<seq<seq<seq<string>>>> := [];
    NoGroups(hash);
    var i := 0;
    while i < |sections|
      invariant 0 <= i == |allParts| == |allSlices| <= |sections|
      invariant forall k :: 0 <= k < i ==> IsSplit(Trim(sections[k].body), allParts[k], allSlices[k], chunkSize, chunkOverlap)
      invariant chunks == Flatten(GroupsOf(sections[..i], allParts, hash))
    {
      var body := Trim(sections[i].body);
      var parts: seq<string> := [];
      ghost var slices: seq<seq<seq<string>>> := [];
      if body == "" {
        TrimNothing();
        EmptyBody(body, chunkSize, chunkOverlap);
      } else {
        parts := SplitWithOverlap(body, chunkSize, chunkOverlap);
        slices :| IsSplit(body, parts, slices, chunkSize, chunkOverlap);
      }
      MoreGroups(sections, i, allParts, parts, hash);
      var own := AppendChunks(sections[i].heading, parts, hash);
      chunks := chunks + own;
      allParts, allSlices := allParts + [parts], allSlices + [slices];
      i := i + 1;
    }
    ghost var how := Chunking(sections, ordinals, bodies, allParts, allSlices);
    assert sections[..i] == sections;
    assert IsChunking(how, markdown, chunkSize, chunkOverlap);
    result := Ok(chunks);
  }

  lemma NoGroups(hash: string -> string)
    ensures Flatten(GroupsOf([], [], hash)) == []
  {
    FlattenNone<ChunkItem>();
  }

  lemma MoreGroups(sections: seq<Section>, i: nat, parts: seq<seq<string>>, own: seq<string>, hash: string -> string)
    requires i < |sections| && |parts| == i
    ensures Flatten(GroupsOf(sections[..i + 1], parts + [own], hash))
      == Flatten(GroupsOf(sections[..i], parts, hash)) + ChunksOf(sections[i].heading, own, hash)
  {
    hide Flatten, Trim;
    var groups := GroupsOf(sections[..i], parts, hash);
    FlattenAppend(groups, ChunksOf(sections[i].heading, own, hash));
    assert GroupsOf(sections[..i + 1], parts + [own], hash) == groups + [ChunksOf(sections[i].heading, own, hash)];
  }

  lemma TrimNothing()
    ensures Trim("") == ""
  {}

  method AppendChunks(heading: string, parts: seq<string>, hash: string -> string) returns (chunks: seq<ChunkItem>)
    ensures chunks == ChunksOf(heading, parts, hash)
  {
    hide Trim;
    chunks := [];
    for k := 0 to |parts|
      invariant |chunks| == k
      invariant forall j :: 0 <= j < k ==> chunks[j] == ChunkItem(Trim(heading), parts[j], hash(parts[j]))
    {
      chunks := chunks + [ChunkItem(Trim(heading), parts[k], hash(parts[k]))];
    }
  }

  // ----- The whole document

  function LinesIn(placed: seq<Placed>): (lines: seq<string>)
    ensures |lines| == |placed| && forall i :: 0 <= i < |placed| ==> lines[i] == placed[i].line
  {
    seq(|placed|, i requires 0 <= i < |placed| => placed[i].line)
  }

  function Bodies(c: Chunking, overlap: nat): (texts: seq<seq<string>>)
    ensures |texts| == |c.slices| && forall k :: 0 <= k < |texts| ==> texts[k] == Flatten(UndoAll(c.slices[k], overlap))
  {
    seq(|c.slices|, k requires 0 <= k < |c.slices| => Flatten(UndoAll(c.slices[k], overlap)))
  }

  /** Every part of every section has between one and `size` words. */
  lemma ChunkSizes(c: Chunking, markdown: string, size: nat, overlap: nat, k: nat, j: nat)
    requires IsChunking(c, markdown, size, overlap) && k < |c.parts| && j < |c.parts[k]|
    ensures 1 <= |Fields(c.parts[k][j])| <= size
  {
    hide IsSectioning, Fields, Undo, Trim, Tight, Overlapping, Flatten, IsSlicing, Paragraphs;
    var parts := c.parts[k];
    assert IsSplit(Trim(c.sections[k].body), parts, c.slices[k], size, overlap);
    OverlappingAt(WordsOf(parts), size, overlap, j);
    PartAt(WordsOf(parts), size, overlap, j);
  }

  lemma PartAt(parts: seq<seq<string>>, size: nat, overlap: nat, j: nat)
    requires j < |parts| && Continues(parts[..j], parts[j], size, overlap)
    ensures 1 <= |parts[j]| <= size
  {}

  /** The whole document survives chunking: undoing the overlaps of all sections
      gives the words of the body lines of the document, in order. */
  lemma DocumentSurvives(c: Chunking, markdown: string, size: nat, overlap: nat)
    requires IsChunking(c, markdown, size, overlap)
    ensures Flatten(Bodies(c, overlap)) == Flatten(WordsOf(LinesIn(Kept(LinesOf(markdown)))))
  {
    hide Fields, Trim, Kept, Undo, Flatten, LinesOf, IsSplit;
    forall k | 0 <= k < |c.sections| ensures Bodies(c, overlap)[k] == Flatten(WordsOf(c.bodies[k])) {
      var body := c.sections[k].body;
      assert IsSplit(Trim(body), c.parts[k], c.slices[k], size, overlap);
      Reconstruct(Trim(body), c.parts[k], c.slices[k], size, overlap);
      FieldsTrim(body);
      FieldsJoin(c.bodies[k], '\n');
      assert "\n" == ['\n'];
    }
    PlacedWords(c.sections, c.ordinals, c.bodies, Bodies(c, overlap));
  }

  lemma LinesAppend(a: seq<Placed>, b: seq<Placed>)
    ensures WordsOf(LinesIn(a + b)) == WordsOf(LinesIn(a)) + WordsOf(LinesIn(b))
  {
    assert LinesIn(a + b) == LinesIn(a) + LinesIn(b);
  }

  lemma LinesPlaced(ordinal: nat, heading: string, body: seq<string>)
    ensures LinesIn(Place(ordinal, heading, body)) == body
  {}

  lemma {:induction false} PlacedWords(sections: seq<Section>, ordinals: seq<nat>, bodies: seq<seq<string>>, texts: seq<seq<string>>)
    requires |ordinals| == |sections| == |bodies| == |texts|
    requires forall k :: 0 <= k < |sections| ==> texts[k] == Flatten(WordsOf(bodies[k]))
    ensures Flatten(texts) == Flatten(WordsOf(LinesIn(Flatten(PlaceAll(sections, ordinals, bodies)))))
  {
    hide Fields, WordsOf, Flatten;
    var placed := PlaceAll(sections, ordinals, bodies);
    if sections == [] {
      FlattenNone<Placed>();
      FlattenNone<string>();
      assert LinesIn([]) == [] && WordsOf([]) == [];
    } else {
      var n := |sections| - 1;
      PlacedWords(sections[..n], ordinals[..n], bodies[..n], texts[..n]);
      var before := PlaceAll(sections[..n], ordinals[..n], bodies[..n]);
      assert placed == before + [placed[n]];
      FlattenAppend(before, placed[n]);
      LinesAppend(Flatten(before), placed[n]);
      LinesPlaced(ordinals[n], sections[n].heading, bodies[n]);
      FlattenConcat(WordsOf(LinesIn(Flatten(before))), WordsOf(bodies[n]));
      assert texts == texts[..n] + [texts[n]];
      FlattenAppend(texts[..n], texts[n]);
    }
  }

  // ----- The chunks are determined

  lemma {:induction false} OrdinalsBelow(sections: seq<Section>, ordinals: seq<nat>, bodies: seq<seq<string>>, bound: nat)
    requires |ordinals| == |sections| == |bodies| && forall k :: 0 <= k < |ordinals| ==> ordinals[k] < bound
    ensures forall p :: p in Flatten(PlaceAll(sections, ordinals, bodies)) ==> p.ordinal < bound
  {
    if sections != [] {
      var n := |sections| - 1;
      OrdinalsBelow(sections[..n], ordinals[..n], bodies[..n], bound);
      assert PlaceAll(sections, ordinals, bodies)[..n] == PlaceAll(sections[..n], ordinals[..n], bodies[..n]);
    }
  }

  lemma PlaceAllLast(sections: seq<Section>, ordinals: seq<nat>, bodies: seq<seq<string>>)
    requires |ordinals| == |sections| == |bodies| > 0
    ensures var n := |sections| - 1;
      Flatten(PlaceAll(sections, ordinals, bodies))
      == Flatten(PlaceAll(sections[..n], ordinals[..n], bodies[..n])) + Place(ordinals[n], sections[n].heading, bodies[n])
  {
    hide Flatten;
    var n := |sections| - 1;
    var before := PlaceAll(sections[..n], ordinals[..n], bodies[..n]);
    assert PlaceAll(sections, ordinals, bodies) == before + [Place(ordinals[n], sections[n].heading, bodies[n])];
    FlattenAppend(before, Place(ordinals[n], sections[n].heading, bodies[n]));
  }

  /** The last run of lines with one ordinal cannot end two sections of
      different lengths. */
  lemma NoLonger(front: seq<Placed>, last: seq<Placed>, front': seq<Placed>, last': seq<Placed>, o: nat, o': nat)
    requires front + last == front' + last' && last != [] && last' != []
    requires forall p :: p in last ==> p.ordinal == o
    requires forall p :: p in last' ==> p.ordinal == o'
    requires forall p :: p in front ==> p.ordinal < o
    ensures |last'| <= |last|
  {
    Rear(front, last, |front| + |last| - 1);
    Rear(front', last', |front| + |last| - 1);
    assert front != [] ==> (front + last)[|front| - 1] in front;
  }

  lemma Rear(front: seq<Placed>, last: seq<Placed>, i: nat)
    requires |front| <= i < |front| + |last|
    ensures (front + last)[i] in last
  {}

  /** The last sections of two sectionings of the same lines are the same. */
  lemma SameLast(front: seq<Placed>, last: seq<Placed>, front': seq<Placed>, last': seq<Placed>, o: nat, o': nat)
    requires front + last == front' + last' && last != [] && last' != []
    requires forall p :: p in last ==> p.ordinal == o
    requires forall p :: p in last' ==> p.ordinal == o'
    requires forall p :: p in front ==> p.ordinal < o
    requires forall p :: p in front' ==> p.ordinal < o'
    ensures front == front' && last == last'
  {
    NoLonger(front, last, front', last', o, o');
    NoLonger(front', last', front, last, o', o);
    assert front == (front + last)[..|front|] && last == (front + last)[|front|..];
    assert front' == (front' + last')[..|front|] && last' == (front' + last')[|front|..];
  }

  ghost predicate Ordered(sections: seq<Section>, ordinals: seq<nat>, bodies: seq<seq<string>>) {
    && |ordinals| == |sections| == |bodies|
    && (forall k :: 0 <= k < |sections| ==> bodies[k] != [] && sections[k].body == Join(bodies[k], "\n"))
    && (forall j, k :: 0 <= j < k < |ordinals| ==> ordinals[j] < ordinals[k])
  }

  lemma {:induction false} SameSections(a: seq<Section>, aOrdinals: seq<nat>, aBodies: seq<seq<string>>,
                                        b: seq<Section>, bOrdinals: seq<nat>, bBodies: seq<seq<string>>)
    requires Ordered(a, aOrdinals, aBodies) && Ordered(b, bOrdinals, bBodies)
    requires Flatten(PlaceAll(a, aOrdinals, aBodies)) == Flatten(PlaceAll(b, bOrdinals, bBodies))
    ensures a == b
  {
    hide Flatten, Join;
    if a == [] || b == [] {
      FlattenNone<Placed>();
      if a != [] { PlaceAllLast(a, aOrdinals, aBodies); }
      if b != [] { PlaceAllLast(b, bOrdinals, bBodies); }
    } else {
      PlaceAllLast(a, aOrdinals, aBodies);
      PlaceAllLast(b, bOrdinals, bBodies);
      var n, m := |a| - 1, |b| - 1;
      OrdinalsBelow(a[..n], aOrdinals[..n], aBodies[..n], aOrdinals[n]);
      OrdinalsBelow(b[..m], bOrdinals[..m], bBodies[..m], bOrdinals[m]);
      var last, last' := Place(aOrdinals[n], a[n].heading, aBodies[n]), Place(bOrdinals[m], b[m].heading, bBodies[m]);
      SameLast(Flatten(PlaceAll(a[..n], aOrdinals[..n], aBodies[..n])), last,
               Flatten(PlaceAll(b[..m], bOrdinals[..m], bBodies[..m])), last', aOrdinals[n], bOrdinals[m]);
      SameSections(a[..n], aOrdinals[..n], aBodies[..n], b[..m], bOrdinals[..m], bBodies[..m]);
      LinesPlaced(aOrdinals[n], a[n].heading, aBodies[n]);
      LinesPlaced(bOrdinals[m], b[m].heading, bBodies[m]);
      assert last[0].heading == last'[0].heading;
      assert a[n] == b[m];
      assert a == a[..n] + [a[n]] && b == b[..m] + [b[m]];
    }
  }

  /** A document has one chunking: its chunks are determined by its text, the
      size and the overlap. */
  lemma OnlyChunking(a: Chunking, b: Chunking, markdown: string, size: nat, overlap: nat)
    requires IsChunking(a, markdown, size, overlap) && IsChunking(b, markdown, size, overlap)
    ensures a.sections == b.sections && a.parts == b.parts
  {
    hide Flatten, Join, IsSplit, Trim, LinesOf, Kept;
    SameSections(a.sections, a.ordinals, a.bodies, b.sections, b.ordinals, b.bodies);
    forall k | 0 <= k < |a.parts| ensures a.parts[k] == b.parts[k] {
      OnlyParts(Trim(a.sections[k].body), a.parts[k], a.slices[k], b.parts[k], b.slices[k], size, overlap);
    }
  }

  // ----- A document

  const DOCUMENT := "## A\nfoo\n## B\nbar"

  lemma Uncut(part: string, c: char, sep: string)
    requires sep != "" && sep[0] == c && c !in part
    ensures EndsFirst(part, sep) && Without(part, sep)
  {
    forall i: nat | i < |part| ensures !Occurs(sep, part + sep, i) {
      if Occurs(sep, part + sep, i) { OccursStart(sep, part + sep, i); }
    }
    EndsFree(part, sep);
  }

  lemma OccursStart(sep: string, s: string, i: nat)
    requires sep != "" && Occurs(sep, s, i)
    ensures s[i] == sep[0]
  {
    assert s[i..i + |sep|][0] == s[i];
  }

  /** The lines of a text without carriage returns. */
  lemma PlainLines(text: string, lines: seq<string>)
    requires '\r' !in text && lines != [] && Join(lines, "\n") == text
    requires forall k :: 0 <= k < |lines| ==> '\n' !in lines[k]
    ensures LinesOf(text) == lines
  {
    hide Join, Split, ReplaceAll;
    Uncut(text, '\r', "\r\n");
    JoinOne(text, "\r\n");
    OnlySplit(text, "\r\n", [text]);
    ReplaceIsJoin(text, "\r\n", "\n");
    JoinOne(text, "\n");
    forall k | 0 <= k < |lines| ensures EndsFirst(lines[k], "\n") && Without(lines[k], "\n") { Uncut(lines[k], '\n', "\n"); }
    OnlySplit(text, "\n", lines);
  }

  lemma JoinFour(a: string, b: string, c: string, d: string, sep: string)
    ensures Join([a, b, c, d], sep) == a + sep + (b + sep + (c + sep + d))
  {
    hide Join;
    assert [a, b, c, d] == [a] + ([b] + ([c] + [d]));
    JoinOne(d, sep);
    JoinCons(c, [d], sep);
    JoinCons(b, [c] + [d], sep);
    JoinCons(a, [b] + ([c] + [d]), sep);
  }

  lemma DocumentLines()
    ensures LinesOf(DOCUMENT) == ["## A", "foo", "## B", "bar"]
  {
    hide LinesOf, Join;
    JoinFour("## A", "foo", "## B", "bar", "\n");
    assert DOCUMENT == "## A" + "\n" + ("foo" + "\n" + ("## B" + "\n" + "bar"));
    PlainLines(DOCUMENT, ["## A", "foo", "## B", "bar"]);
  }

  lemma KeptStep(lines: seq<string>, line: string)
    ensures IsHeading(line) ==>
      Kept(lines + [line]) == Kept(lines) && Ordinal(lines + [line]) == Ordinal(lines) + 1
      && HeadingOf(lines + [line]) == StripHeading(line)
    ensures !IsHeading(line) && !IsTitle(line) ==>
      Kept(lines + [line]) == Kept(lines) + [Placed(Ordinal(lines), HeadingOf(lines), line)]
      && Ordinal(lines + [line]) == Ordinal(lines) && HeadingOf(lines + [line]) == HeadingOf(lines)
  {
    hide IsHeading, IsTitle;
    assert (lines + [line])[..|lines|] == lines;
  }

  lemma StripTwo(heading: string, letter: char)
    requires heading == "## " + [letter] && letter != '#' && !RegexSpace(letter)
    ensures IsHeading(heading) && StripHeading(heading) == [letter]
  {
    assert heading[..2] == "##";
    var rest := " " + [letter];
    assert heading[1..] == "#" + rest && ("#" + rest)[1..] == rest && rest[1..] == [letter];
    assert DropHashes(heading) == DropHashes("#" + rest) == DropHashes(rest) == rest;
    assert [letter] != "" && DropSpaces([letter]) == [letter];
  }

  lemma DocumentKept()
    ensures Kept(["## A", "foo", "## B", "bar"]) == [Placed(1, "A", "foo"), Placed(2, "B", "bar")]
  {
    hide Kept, HeadingOf, Ordinal, StripHeading;
    NothingYet();
    StripTwo("## A", 'A');
    StripTwo("## B", 'B');
    KeptStep([], "## A");
    KeptStep(["## A"], "foo");
    KeptStep(["## A", "foo"], "## B");
    KeptStep(["## A", "foo", "## B"], "bar");
    assert [] + ["## A"] == ["## A"] && ["## A"] + ["foo"] == ["## A", "foo"];
    assert ["## A", "foo"] + ["## B"] == ["## A", "foo", "## B"];
    assert ["## A", "foo", "## B"] + ["bar"] == ["## A", "foo", "## B", "bar"];
  }

  lemma NothingYet()
    ensures Kept([]) == [] && HeadingOf([]) == "" && Ordinal([]) == 0
  {}

  lemma DocumentSections()
    ensures IsSectioning([Section("A", "foo"), Section("B", "bar")], [1, 2], [["foo"], ["bar"]], LinesOf(DOCUMENT))
  {
    hide Kept, LinesOf, Flatten, Join;
    DocumentLines();
    DocumentKept();
    JoinOne("foo", "\n");
    JoinOne("bar", "\n");
    var sections, ordinals, bodies := [Section("A", "foo"), Section("B", "bar")], [1, 2], [["foo"], ["bar"]];
    assert Place(1, "A", ["foo"]) == [Placed(1, "A", "foo")] && Place(2, "B", ["bar"]) == [Placed(2, "B", "bar")];
    assert PlaceAll(sections, ordinals, bodies) == [Place(1, "A", ["foo"])] + [Place(2, "B", ["bar"])];
    FlattenAppend([[Placed(1, "A", "foo")]], [Placed(2, "B", "bar")]);
    FlattenOne([Placed(1, "A", "foo")]);
  }

  /** A body of one word. */
  lemma WordBody(word: string, parts: seq<string>, slices: seq<seq<seq<string>>>, size: nat, overlap: nat)
    requires IsWord(word) && IsSplit(Trim(word), parts, slices, size, overlap) && size > 0
    ensures parts == [word]
  {
    hide Fields, Join, IsSplit;
    TrimWord(word);
    OneWord(word);
    SmallBody(word, parts, slices, size, overlap);
    JoinOne(word, " ");
  }

  lemma TrimWord(word: string)
    requires IsWord(word)
    ensures Trim(word) == word
  {}

  /** Two headings make two chunks, whatever the size and the overlap. */
  lemma DocumentChunks(c: Chunking, size: nat, overlap: nat, hash: string -> string)
    requires overlap < size && IsChunking(c, DOCUMENT, size, overlap)
    ensures Flatten(GroupsOf(c.sections, c.parts, hash))
      == [ChunkItem("A", "foo", hash("foo")), ChunkItem("B", "bar", hash("bar"))]
  {
    hide Flatten, Join, IsSplit, LinesOf, Trim, Kept;
    DocumentSections();
    var sections := [Section("A", "foo"), Section("B", "bar")];
    SameSections(c.sections, c.ordinals, c.bodies, sections, [1, 2], [["foo"], ["bar"]]);
    WordBody("foo", c.parts[0], c.slices[0], size, overlap);
    WordBody("bar", c.parts[1], c.slices[1], size, overlap);
    TrimWord("A");
    TrimWord("B");
    var first, second := ChunkItem("A", "foo", hash("foo")), ChunkItem("B", "bar", hash("bar"));
    assert ChunksOf("A", ["foo"], hash) == [first] && ChunksOf("B", ["bar"], hash) == [second];
    assert GroupsOf(c.sections, c.parts, hash) == [ChunksOf("A", ["foo"], hash)] + [ChunksOf("B", ["bar"], hash)];
    FlattenAppend([[first]], [second]);
    FlattenOne([first]);
  }
}
