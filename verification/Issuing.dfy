/** Issuing document numbers (Issue in libs/go/arda-docno/docno.go) over the
    tables of the numbering schema, inside a transaction that is rolled back on
    any error. */
module Issuing {
  import opened Common
  import opened Text
  import opened Decimals
  import opened NumberPieces
  import opened Docno

  datatype Number = Number(documentId: string, tenantId: string, seriesId: string, displayNo: string,
                           periodKey: string, sequenceNo: nat, businessDate: Date)

  type CounterKey = (string, string)
  type NumberKey = (string, string, nat)

  /** The persisted series, by id. */
  type Registry = map<string, Series>

  /** The rows of document_number are keyed by their unique (series, period,
      sequence); aliases by (tenant, display number). */
  datatype Tables = Tables(counters: map<CounterKey, nat>, numbers: map<NumberKey, Number>,
                           aliases: map<(string, string), string>)

  predicate SoundRow(registry: Registry, key: NumberKey, n: Number) {
    && n.seriesId == key.0 && n.periodKey == key.1 && n.sequenceNo == key.2
    && key.0 in registry
    && var s := registry[key.0];
       && s.id == key.0 && ValidSeries(s) && n.tenantId == s.tenantId
       && n.businessDate.Valid() && n.sequenceNo < Pow10(s.sequenceWidth)
       && PeriodKey(s.reset, n.businessDate) == Ok(key.1)
       && n.displayNo == Render(s, n.businessDate, n.sequenceNo)
  }

  /** Every row is sound; the sequences of a period are exactly those from the
      start of the series to the counter; every row has its alias; and no two
      rows of a tenant share a document or a display number. */
  ghost predicate Consistent(registry: Registry, t: Tables) {
    && (forall k :: k in t.numbers ==> SoundRow(registry, k, t.numbers[k]))
    && (forall c :: c in t.counters ==> c.0 in registry)
    && (forall k: NumberKey :: k in t.numbers <==>
         (k.0, k.1) in t.counters && registry[k.0].sequenceStart <= k.2 <= t.counters[(k.0, k.1)])
    && (forall c :: c in t.counters ==> registry[c.0].sequenceStart <= t.counters[c])
    && (forall k :: k in t.numbers ==>
         var n := t.numbers[k];
         (n.tenantId, n.displayNo) in t.aliases && t.aliases[(n.tenantId, n.displayNo)] == n.documentId)
    && Distinct(t)
  }

  predicate Distinct(t: Tables) {
    forall j, k :: j in t.numbers && k in t.numbers && j != k && t.numbers[j].tenantId == t.numbers[k].tenantId ==>
      t.numbers[j].documentId != t.numbers[k].documentId && t.numbers[j].displayNo != t.numbers[k].displayNo
  }

  /** The committed sequences of a period, from the start of its series to the
      counter, each exactly once: no gap and no repeat. */
  lemma NoGapNoRepeat(registry: Registry, t: Tables, series: string, period: string, sequence: nat)
    requires Consistent(registry, t) && series in registry
    ensures (exists k :: k in t.numbers && t.numbers[k].seriesId == series && t.numbers[k].periodKey == period
                         && t.numbers[k].sequenceNo == sequence)
       <==> (series, period) in t.counters && registry[series].sequenceStart <= sequence <= t.counters[(series, period)]
    ensures forall j, k | j in t.numbers && k in t.numbers ::
      (t.numbers[j].seriesId == t.numbers[k].seriesId && t.numbers[j].periodKey == t.numbers[k].periodKey
       && t.numbers[j].sequenceNo == t.numbers[k].sequenceNo) ==> j == k
  {
    hide ValidSeries, Render, PeriodKey, Pow10;
    var key := (series, period, sequence);
    if key in t.numbers {
      assert SoundRow(registry, key, t.numbers[key]);
    }
    if k :| k in t.numbers && t.numbers[k].seriesId == series && t.numbers[k].periodKey == period
            && t.numbers[k].sequenceNo == sequence {
      assert SoundRow(registry, k, t.numbers[k]);
      assert k == key;
    }
  }

  /** Two rows of one series never render to the same display number: the
      uniqueness of the table follows from the renderer. */
  lemma SeriesNeverCollides(registry: Registry, j: NumberKey, m: Number, k: NumberKey, n: Number)
    requires SoundRow(registry, j, m) && SoundRow(registry, k, n) && j.0 == k.0
    ensures m.displayNo == n.displayNo <==> j == k
  {
    hide ValidSeries, Render, PeriodKey, Pow10;
    RenderInjective(registry[j.0], m.businessDate, m.sequenceNo, n.businessDate, n.sequenceNo);
  }

  /** Every row shows its date and its sequence, and its period key the period
      of its date. */
  lemma RowReads(registry: Registry, key: NumberKey, n: Number)
    requires SoundRow(registry, key, n)
    ensures ReadsBack(registry[key.0], n.businessDate, key.2, n.displayNo)
    ensures KeyReads(registry[key.0].reset, n.businessDate, key.1)
  {
    hide ValidSeries, Render, PeriodKey, Pow10, ReadsBack, KeyReads;
    var s := registry[key.0];
    RenderReadsBack(s, n.businessDate, n.sequenceNo);
    PeriodKeyReads(s.reset, n.businessDate);
  }

  /** What one successful call adds. */
  function Added(t: Tables, n: Number): Tables {
    Tables(t.counters[(n.seriesId, n.periodKey) := n.sequenceNo],
           t.numbers[(n.seriesId, n.periodKey, n.sequenceNo) := n],
           t.aliases[(n.tenantId, n.displayNo) := n.documentId])
  }

  /** The next sequence of a period. */
  function NextSequence(t: Tables, s: Series, period: string): nat
    requires s.sequenceStart >= 0
  {
    if (s.id, period) in t.counters then t.counters[(s.id, period)] + 1 else s.sequenceStart
  }

  predicate DocumentNumbered(t: Tables, tenant: string, document: string) {
    exists k :: k in t.numbers && t.numbers[k].tenantId == tenant && t.numbers[k].documentId == document
  }

  lemma AddKeepsConsistent(registry: Registry, t: Tables, n: Number)
    requires Consistent(registry, t)
    requires SoundRow(registry, (n.seriesId, n.periodKey, n.sequenceNo), n)
    requires n.sequenceNo == NextSequence(t, registry[n.seriesId], n.periodKey)
    requires !DocumentNumbered(t, n.tenantId, n.documentId) && (n.tenantId, n.displayNo) !in t.aliases
    ensures Consistent(registry, Added(t, n))
  {
    hide SoundRow, Distinct;
    var key := (n.seriesId, n.periodKey, n.sequenceNo);
    SoundFacts(registry, key, n);
    AddKeepsDistinct(registry, t, n);
  }

  lemma AddKeepsDistinct(registry: Registry, t: Tables, n: Number)
    requires Consistent(registry, t)
    requires !DocumentNumbered(t, n.tenantId, n.documentId) && (n.tenantId, n.displayNo) !in t.aliases
    requires (n.seriesId, n.periodKey, n.sequenceNo) !in t.numbers
    ensures Distinct(Added(t, n))
  {
    hide SoundRow;
    var key := (n.seriesId, n.periodKey, n.sequenceNo);
    var u := Added(t, n);
    forall j, k | j in u.numbers && k in u.numbers && j != k && u.numbers[j].tenantId == u.numbers[k].tenantId
      ensures u.numbers[j].documentId != u.numbers[k].documentId && u.numbers[j].displayNo != u.numbers[k].displayNo
    {
      if j == key {
        assert k in t.numbers;
      } else if k == key {
        assert j in t.numbers;
      }
    }
  }

  lemma SoundFacts(registry: Registry, key: NumberKey, n: Number)
    requires SoundRow(registry, key, n)
    ensures key.0 in registry && registry[key.0].id == key.0 && registry[key.0].sequenceStart >= 1
  {}

  // ----- Which calls succeed

  predicate Usable(registry: Registry, s: Series, documentId: string, d: Date) {
    ValidSeries(s) && s.id in registry && registry[s.id] == s && !Blank(documentId) && !d.IsZero()
  }

  /** The row a call would write. */
  function Candidate(t: Tables, s: Series, documentId: string, d: Date): Number
    requires ValidSeries(s)
  {
    var period := PeriodKey(s.reset, d).value;
    var sequence := NextSequence(t, s, period);
    Number(documentId, s.tenantId, s.id, Render(s, d, sequence), period, sequence, d)
  }

  /** The width of the series is used up for the period of the date. */
  predicate Exhausted(registry: Registry, t: Tables, s: Series, documentId: string, d: Date) {
    && Usable(registry, s, documentId, d) && InEffect(s, d)
    && Candidate(t, s, documentId, d).sequenceNo >= Pow10(s.sequenceWidth)
  }

  predicate Accepts(registry: Registry, t: Tables, s: Series, documentId: string, d: Date) {
    && Usable(registry, s, documentId, d) && InEffect(s, d)
    && var n := Candidate(t, s, documentId, d);
       && n.sequenceNo < Pow10(s.sequenceWidth)
       && !DocumentNumbered(t, s.tenantId, documentId)
       && (s.tenantId, n.displayNo) !in t.aliases
  }

  predicate DisplayUsed(t: Tables, tenant: string, display: string) {
    exists k :: k in t.numbers && t.numbers[k].tenantId == tenant && t.numbers[k].displayNo == display
  }

  /** The next sequence is new, not below the start, and a display number in use
      always has its alias. */
  lemma NextIsNew(registry: Registry, t: Tables, s: Series, period: string, display: string)
    requires Consistent(registry, t) && s.id in registry && registry[s.id] == s && s.sequenceStart >= 1
    ensures NextSequence(t, s, period) >= s.sequenceStart
    ensures (s.id, period, NextSequence(t, s, period)) !in t.numbers
    ensures DisplayUsed(t, s.tenantId, display) ==> (s.tenantId, display) in t.aliases
  {
    hide SoundRow;
  }

  lemma CandidateIsSound(registry: Registry, t: Tables, s: Series, documentId: string, d: Date)
    requires Consistent(registry, t) && Usable(registry, s, documentId, d) && d.Valid()
    requires Candidate(t, s, documentId, d).sequenceNo < Pow10(s.sequenceWidth)
    ensures var n := Candidate(t, s, documentId, d);
      SoundRow(registry, (n.seriesId, n.periodKey, n.sequenceNo), n)
    ensures PeriodKey(s.reset, d).Ok? && s.sequenceStart >= 1
  {
    hide Render, Pow10, Consistent, Padded;
    UsableFacts(registry, s, documentId, d);
  }

  lemma UsableFacts(registry: Registry, s: Series, documentId: string, d: Date)
    requires Usable(registry, s, documentId, d)
    ensures PeriodKey(s.reset, d).Ok? && s.sequenceStart >= 1 && s.sequenceWidth >= 1
  {}

  /** A call refused because its display number is taken never met a number of
      its own series: only another series of the tenant can have used it. */
  lemma CollisionIsForeign(registry: Registry, t: Tables, s: Series, documentId: string, d: Date, k: NumberKey)
    requires Consistent(registry, t) && Usable(registry, s, documentId, d) && d.Valid()
    requires Candidate(t, s, documentId, d).sequenceNo < Pow10(s.sequenceWidth)
    requires k in t.numbers && t.numbers[k].displayNo == Candidate(t, s, documentId, d).displayNo
    ensures t.numbers[k].seriesId != s.id
  {
    var n := Candidate(t, s, documentId, d);
    CandidateIsSound(registry, t, s, documentId, d);
    NextIsNew(registry, t, s, n.periodKey, n.displayNo);
    assert SoundRow(registry, k, t.numbers[k]);
    if k.0 == s.id {
      SeriesNeverCollides(registry, k, t.numbers[k], (n.seriesId, n.periodKey, n.sequenceNo), n);
    }
  }

  // ----- Whole runs

  datatype Call = Call(series: Series, documentId: string, date: Date)

  /** What one transaction leaves. */
  function Transacted(registry: Registry, t: Tables, c: Call): Tables {
    if Accepts(registry, t, c.series, c.documentId, c.date) then
      Added(t, Candidate(t, c.series, c.documentId, c.date))
    else t
  }

  function RunOf(registry: Registry, calls: seq<Call>): Tables
    decreases |calls|
  {
    if calls == [] then Tables(map[], map[], map[])
    else Transacted(registry, RunOf(registry, calls[..|calls| - 1]), calls[|calls| - 1])
  }

  lemma TransactionKeeps(registry: Registry, t: Tables, c: Call)
    requires Consistent(registry, t) && c.date.Valid()
    ensures Consistent(registry, Transacted(registry, t, c))
  {
    hide ValidSeries, Render, Pow10, Consistent, PeriodKey, DocumentNumbered, SoundRow;
    if Accepts(registry, t, c.series, c.documentId, c.date) {
      CandidateIsSound(registry, t, c.series, c.documentId, c.date);
      AddKeepsConsistent(registry, t, Candidate(t, c.series, c.documentId, c.date));
    }
  }

  /** After any run of calls, accepted and refused, the committed sequences of
      every period are those from the start of its series to the counter, and
      two numbers of one series differ in what they display. */
  lemma {:induction false} EveryRunIsConsistent(registry: Registry, calls: seq<Call>)
    requires forall i :: 0 <= i < |calls| ==> calls[i].date.Valid()
    ensures Consistent(registry, RunOf(registry, calls))
    decreases |calls|
  {
    if calls != [] {
      EveryRunIsConsistent(registry, calls[..|calls| - 1]);
      TransactionKeeps(registry, RunOf(registry, calls[..|calls| - 1]), calls[|calls| - 1]);
    }
  }

  // ----- A run

  const MARCH_15 := Date(2024, 3, 15)
  const MARCH_16 := Date(2024, 3, 16)

  function MonthlyRow(documentId: string, d: Date, n: nat): Number
    requires n < 10
  {
    Number(documentId, "t-1", "s-1", "INV-202403-000" + [DigitOf(n)], "2024-03", n, d)
  }

  /** A new document gets the next number of March. */
  lemma MonthlyAccepts(t: Tables, documentId: string, d: Date, n: nat)
    requires d == MARCH_15 || d == MARCH_16
    requires documentId != "" && documentId[0] == 'd' && 1 <= n < 10
    requires NextSequence(t, MONTHLY, "2024-03") == n
    requires !DocumentNumbered(t, "t-1", documentId) && ("t-1", "INV-202403-000" + [DigitOf(n)]) !in t.aliases
    ensures Transacted(map["s-1" := MONTHLY], t, Call(MONTHLY, documentId, d)) == Added(t, MonthlyRow(documentId, d, n))
  {
    hide ValidSeries, Render, Pow10, PeriodKey, NextSequence, DocumentNumbered;
    MonthlyValid();
    MonthlyNumber(d.day, n);
    NotBlank(documentId, 'd');
    Powers(3);
    FourPlaces();
  }

  lemma FourPlaces()
    ensures Pow10(4) == 10000
  {
    assert Pow10(2) == 100;
  }

  /** Two documents, the first of them submitted twice: two numbers, in order,
      and the second submission changes nothing. */
  lemma MonthlyRun()
    ensures RunOf(map["s-1" := MONTHLY],
                  [Call(MONTHLY, "d-1", MARCH_15), Call(MONTHLY, "d-1", MARCH_15), Call(MONTHLY, "d-2", MARCH_16)])
      == Tables(map[("s-1", "2024-03") := 2],
                map[("s-1", "2024-03", 1) := Number("d-1", "t-1", "s-1", "INV-202403-0001", "2024-03", 1, MARCH_15),
                    ("s-1", "2024-03", 2) := Number("d-2", "t-1", "s-1", "INV-202403-0002", "2024-03", 2, MARCH_16)],
                map[("t-1", "INV-202403-0001") := "d-1", ("t-1", "INV-202403-0002") := "d-2"])
  {
    hide ValidSeries, Render, Pow10, PeriodKey, Transacted;
    var registry := map["s-1" := MONTHLY];
    var first, again, second := Call(MONTHLY, "d-1", MARCH_15), Call(MONTHLY, "d-1", MARCH_15), Call(MONTHLY, "d-2", MARCH_16);
    var t0 := Tables(map[], map[], map[]);
    RunSteps(registry, first, again, second);
    MonthlyAccepts(t0, "d-1", MARCH_15, 1);
    var t1 := Added(t0, MonthlyRow("d-1", MARCH_15, 1));
    assert t1.numbers[("s-1", "2024-03", 1)].documentId == "d-1";
    NumberedRefused(registry, t1, again);
    assert ("INV-202403-000" + [DigitOf(1)])[14] != ("INV-202403-000" + [DigitOf(2)])[14];
    MonthlyAccepts(t1, "d-2", MARCH_16, 2);
    DigitNames();
  }

  lemma DigitNames()
    ensures "INV-202403-000" + [DigitOf(1)] == "INV-202403-0001" && "INV-202403-000" + [DigitOf(2)] == "INV-202403-0002"
  {}

  lemma NumberedRefused(registry: Registry, t: Tables, c: Call)
    requires DocumentNumbered(t, c.series.tenantId, c.documentId)
    ensures Transacted(registry, t, c) == t
  {}

  lemma RunSteps(registry: Registry, a: Call, b: Call, c: Call)
    ensures RunOf(registry, [a, b, c])
      == Transacted(registry, Transacted(registry, Transacted(registry, Tables(map[], map[], map[]), a), b), c)
  {
    hide Transacted;
    assert [a, b, c][..2] == [a, b] && [a, b][..1] == [a] && [a][..0] == [];
    assert RunOf(registry, [a]) == Transacted(registry, RunOf(registry, []), a);
    assert RunOf(registry, [a, b]) == Transacted(registry, RunOf(registry, [a]), b);
  }

  class Database {
    const registry: Registry
    var counters: map<CounterKey, nat>
    var numbers: map<NumberKey, Number>
    var aliases: map<(string, string), string>

    function Current(): Tables
      reads this
    {
      Tables(counters, numbers, aliases)
    }

    ghost predicate Valid()
      reads this
    {
      Consistent(registry, Current())
    }

    constructor (registry: Registry)
      ensures Valid() && this.registry == registry && Current() == Tables(map[], map[], map[])
    {
      this.registry := registry;
      counters, numbers, aliases := map[], map[], map[];
    }

    /** The statements of one call. On an error the counter, or the number row,
        may already have been written: the caller must roll back. */
    method Issue(s: Series, documentId: string, d: Date) returns (r: Result<Number, Error>)
      requires Valid() && d.Valid()
      modifies this`counters, this`numbers, this`aliases
      ensures r.Ok? <==> Accepts(registry, old(Current()), s, documentId, d)
      ensures r.Ok? ==> Current() == Added(old(Current()), r.value)
      ensures r.Ok? ==> r.value == Candidate(old(Current()), s, documentId, d)
      ensures r.Ok? ==> r.value.businessDate == d && r.value.documentId == documentId && r.value.tenantId == s.tenantId
      ensures r.Ok? ==> ReadsBack(s, d, r.value.sequenceNo, r.value.displayNo) && KeyReads(s.reset, d, r.value.periodKey)
      ensures r == Err(SequenceOverflow) <==> Exhausted(registry, old(Current()), s, documentId, d)
      ensures r == Err(InvalidSeries) <==> !(Usable(registry, s, documentId, d) && InEffect(s, d))
    {
      hide ValidSeries, Render, Pow10, Consistent, Blank, PeriodKey, DisplayUsed, DocumentNumbered, ReadsBack, KeyReads;
      var t := Current();
      var valid := ValidateSeries(s);
      if !valid {
        return Err(InvalidSeries);
      }
      if !(s.id in registry && registry[s.id] == s) {
        return Err(InvalidSeries);
      }
      if Blank(documentId) || d.IsZero() {
        return Err(InvalidSeries);
      }
      UsableFacts(registry, s, documentId, d);
      PeriodKeyReads(s.reset, d);
      var periodKey := PeriodKey(s.reset, d).value;
      NextIsNew(registry, t, s, periodKey, Render(s, d, NextSequence(t, s, periodKey)));
      // INSERT ... ON CONFLICT DO UPDATE SET last_value = last_value + 1
      var key := (s.id, periodKey);
      var sequence: nat := s.sequenceStart;
      if key in counters {
        sequence := counters[key] + 1;
      }
      counters := counters[key := sequence];
      var display := FormatDisplayNumber(s, d, sequence);
      if display.Err? {
        return Err(display.error);
      }
      var n := Number(documentId, s.tenantId, s.id, display.value, periodKey, sequence, d);
      // INSERT ... ON CONFLICT DO NOTHING, once for the number and once for the alias
      var rowKey := (s.id, periodKey, sequence);
      if rowKey in numbers || DocumentNumbered(t, s.tenantId, documentId) || DisplayUsed(t, s.tenantId, display.value) {
        return Err(DocumentNumberExists);
      }
      numbers := numbers[rowKey := n];
      if (s.tenantId, display.value) in aliases {
        return Err(DocumentNumberExists);
      }
      aliases := aliases[(s.tenantId, display.value) := documentId];
      r := Ok(n);
    }

    /** One transaction: the call, rolled back on any error. The tables stay
        consistent, a failed call changes nothing, and a period whose width is
        used up refuses every further call. */
    method IssueInTransaction(s: Series, documentId: string, d: Date) returns (r: Result<Number, Error>)
      requires Valid() && d.Valid()
      modifies this
      ensures Valid()
      ensures r.Ok? <==> Accepts(registry, old(Current()), s, documentId, d)
      ensures Current() == Transacted(registry, old(Current()), Call(s, documentId, d))
      ensures r.Ok? ==> r.value == Candidate(old(Current()), s, documentId, d)
      ensures r.Err? ==> Current() == old(Current())
      ensures Exhausted(registry, old(Current()), s, documentId, d) ==> r == Err(SequenceOverflow)
    {
      hide ValidSeries, Render, Pow10, Consistent, PeriodKey, DocumentNumbered, SoundRow;
      var saved := Current();
      ghost var accepted := Accepts(registry, saved, s, documentId, d);
      if accepted {
        CandidateIsSound(registry, saved, s, documentId, d);
        AddKeepsConsistent(registry, saved, Candidate(saved, s, documentId, d));
      }
      r := Issue(s, documentId, d);
      if r.Err? {
        counters, numbers, aliases := saved.counters, saved.numbers, saved.aliases;
      }
    }
  }
}
