/** Reciprocal rank fusion of two ranked legs
    (fuseRRF in apps/ai-service/internal/knowledge/repository.go). Scores are
    real numbers in place of float64. */
module RankFusion {
  import opened Sequences

  datatype Ranked<C> = Ranked(chunk: C, rank: nat)

  datatype Hit<C> = Hit(chunk: C, score: real)

  function Weight(rank: nat): (w: real)
    ensures w > 0.0
  {
    1.0 / (60.0 + rank as real)
  }

  // ----- What fusion is

  /** Chunks in the order they are first met. */
  function FirstSeen<C(==)>(items: seq<Ranked<C>>): seq<C>
    decreases |items|
  {
    if |items| == 0 then []
    else
      var n := |items| - 1;
      var before := FirstSeen(items[..n]);
      if items[n].chunk in before then before else before + [items[n].chunk]
  }

  /** The sum of a chunk's contributions. */
  function ScoreOf<C(==)>(items: seq<Ranked<C>>, c: C): (r: real)
    ensures r >= 0.0
    decreases |items|
  {
    if |items| == 0 then 0.0
    else
      var n := |items| - 1;
      ScoreOf(items[..n], c) + if items[n].chunk == c then Weight(items[n].rank) else 0.0
  }

  function Scored<C(==)>(items: seq<Ranked<C>>): seq<Hit<C>> {
    var order := FirstSeen(items);
    seq(|order|, i requires 0 <= i < |order| => Hit(order[i], ScoreOf(items, order[i])))
  }

  /** How many hits from the front score at least as much. */
  function Above<C>(hits: seq<Hit<C>>, score: real): (n: nat)
    ensures n <= |hits|
    ensures forall i :: 0 <= i < n ==> hits[i].score >= score
    ensures n < |hits| ==> hits[n].score < score
  {
    if |hits| == 0 || hits[0].score < score then 0 else 1 + Above(hits[1..], score)
  }

  function Insert<C>(hits: seq<Hit<C>>, h: Hit<C>): seq<Hit<C>> {
    var k := Above(hits, h.score);
    hits[..k] + [h] + hits[k..]
  }

  /** The stable sort by falling score. */
  function StableSorted<C>(hits: seq<Hit<C>>): (r: seq<Hit<C>>)
    ensures |r| == |hits|
    decreases |hits|
  {
    if |hits| == 0 then []
    else Insert(StableSorted(hits[..|hits| - 1]), hits[|hits| - 1])
  }

  function Cut<T>(s: seq<T>, topK: int): seq<T> {
    if topK > 0 && |s| > topK then s[..topK] else s
  }

  function Fused<C(==)>(vector: seq<Ranked<C>>, text: seq<Ranked<C>>, topK: int): seq<Hit<C>> {
    Cut(StableSorted(Scored(vector + text)), topK)
  }

  /** The tables built while the legs are read. */
  ghost predicate Tallied<C(!new)>(items: seq<Ranked<C>>, scores: map<C, real>, order: seq<C>) {
    && order == FirstSeen(items)
    && (forall c :: c in scores <==> c in order)
    && (forall c :: c in scores ==> scores[c] == ScoreOf(items, c))
  }

  lemma {:induction false} UnseenScoresNothing<C>(items: seq<Ranked<C>>, c: C)
    requires c !in FirstSeen(items)
    ensures ScoreOf(items, c) == 0.0
    decreases |items|
  {
    if |items| > 0 { UnseenScoresNothing(items[..|items| - 1], c); }
  }

  method Add<C(!new, ==)>(ghost items: seq<Ranked<C>>, scores: map<C, real>, order: seq<C>, item: Ranked<C>)
    returns (scores': map<C, real>, order': seq<C>)
    requires Tallied(items, scores, order)
    ensures Tallied(items + [item], scores', order')
  {
    scores', order' := scores, order;
    assert (items + [item])[..|items|] == items;
    if item.chunk !in scores {
      order' := order + [item.chunk];
      scores' := scores'[item.chunk := 0.0];
      UnseenScoresNothing(items, item.chunk);
    }
    scores' := scores'[item.chunk := scores'[item.chunk] + Weight(item.rank)];
  }

  method FuseRRF<C(!new, ==)>(vector: seq<Ranked<C>>, text: seq<Ranked<C>>, topK: int) returns (hits: seq<Hit<C>>)
    ensures hits == Fused(vector, text, topK)
  {
    var scores: map<C, real> := map[];
    var order: seq<C> := [];
    ghost var all := vector + text;
    for i := 0 to |vector|
      invariant Tallied(all[..i], scores, order)
    {
      assert all[..i] + [vector[i]] == all[..i + 1];
      scores, order := Add(all[..i], scores, order, vector[i]);
    }
    for i := 0 to |text|
      invariant Tallied(all[..|vector| + i], scores, order)
    {
      assert all[..|vector| + i] + [text[i]] == all[..|vector| + i + 1];
      scores, order := Add(all[..|vector| + i], scores, order, text[i]);
    }
    assert all[..|vector| + |text|] == all;
    var scored: seq<Hit<C>> := [];
    for i := 0 to |order|
      invariant scored == Scored(all)[..i]
    {
      assert order[i] in scores;
      scored := scored + [Hit(order[i], scores[order[i]])];
    }
    assert scored == Scored(all);
    hits := StableSorted(scored);
    if topK > 0 && |hits| > topK {
      hits := hits[..topK];
    }
  }

  // ----- What the order is

  ghost predicate Precedes<T(!new)>(s: seq<T>, a: T, b: T) {
    exists i, j :: 0 <= i < j < |s| && s[i] == a && s[j] == b
  }

  predicate Named<C(==)>(items: seq<Ranked<C>>, c: C) {
    exists i :: 0 <= i < |items| && items[i].chunk == c
  }

  predicate HasHit<C(==)>(hits: seq<Hit<C>>, c: C) {
    exists k :: 0 <= k < |hits| && hits[k].chunk == c
  }

  predicate Falling<C>(hits: seq<Hit<C>>) {
    forall i, j :: 0 <= i < j < |hits| ==> hits[i].score >= hits[j].score
  }

  lemma {:induction false} FirstSeenDistinct<C>(items: seq<Ranked<C>>)
    ensures Distinct(FirstSeen(items))
    decreases |items|
  {
    if |items| > 0 { FirstSeenDistinct(items[..|items| - 1]); }
  }

  /** A chunk is seen exactly when some item names it. */
  lemma {:induction false} FirstSeenAll<C>(items: seq<Ranked<C>>, c: C)
    ensures c in FirstSeen(items) <==> exists i :: 0 <= i < |items| && items[i].chunk == c
    decreases |items|
  {
    if |items| > 0 {
      var n := |items| - 1;
      FirstSeenAll(items[..n], c);
      assert forall i :: 0 <= i < n ==> items[..n][i] == items[i];
    }
  }

  /** The order is that of the first places. */
  lemma {:induction false} FirstSeenInOrder<C>(items: seq<Ranked<C>>, p: nat, q: nat)
    requires p < q < |FirstSeen(items)|
    ensures exists i :: 0 <= i < |items| && items[i].chunk == FirstSeen(items)[p]
                     && forall j :: 0 <= j <= i ==> items[j].chunk != FirstSeen(items)[q]
    decreases |items|
  {
    var n := |items| - 1;
    var before := FirstSeen(items[..n]);
    if q < |before| {
      FirstSeenInOrder(items[..n], p, q);
      var i :| 0 <= i < n && items[..n][i].chunk == before[p] && forall j :: 0 <= j <= i ==> items[..n][j].chunk != before[q];
      assert items[i].chunk == FirstSeen(items)[p];
      forall j | 0 <= j <= i ensures items[j].chunk != FirstSeen(items)[q] { assert items[..n][j] == items[j]; }
    } else {
      FirstSeenAll(items[..n], before[p]);
      FirstSeenAll(items[..n], items[n].chunk);
      var i :| 0 <= i < n && items[..n][i].chunk == before[p];
      assert items[i].chunk == FirstSeen(items)[p];
      forall j | 0 <= j <= i ensures items[j].chunk != FirstSeen(items)[q] { assert items[..n][j] == items[j]; }
    }
  }

  /** Every place of a chunk adds one over sixty plus its rank to its score, and
      nothing else does. */
  lemma ScoreGrows<C>(items: seq<Ranked<C>>, item: Ranked<C>, c: C)
    ensures ScoreOf([], c) == 0.0
    ensures ScoreOf(items + [item], c)
         == ScoreOf(items, c) + if item.chunk == c then 1.0 / (60.0 + item.rank as real) else 0.0
  {
    assert (items + [item])[..|items|] == items;
  }

  lemma InsertFalling<C>(hits: seq<Hit<C>>, h: Hit<C>)
    requires Falling(hits)
    ensures Falling(Insert(hits, h))
  {
    var k := Above(hits, h.score);
    var r := Insert(hits, h);
    forall i, j | 0 <= i < j < |r| ensures r[i].score >= r[j].score {
      assert k < |hits| ==> hits[k].score < h.score;
    }
  }

  lemma InsertMultiset<C>(hits: seq<Hit<C>>, h: Hit<C>)
    ensures multiset(Insert(hits, h)) == multiset(hits) + multiset{h}
  {
    assert hits == hits[..Above(hits, h.score)] + hits[Above(hits, h.score)..];
  }

  /** The new hit goes behind exactly those that score at least as much. */
  lemma InsertPlaces<C(!new)>(hits: seq<Hit<C>>, h: Hit<C>, i: nat)
    requires Falling(hits) && i < |hits|
    ensures if hits[i].score >= h.score then Precedes(Insert(hits, h), hits[i], h) else Precedes(Insert(hits, h), h, hits[i])
  {
    var k := Above(hits, h.score);
    var r := Insert(hits, h);
    assert k < |hits| ==> hits[k].score < h.score;
    if i < k { assert r[i] == hits[i] && r[k] == h; } else { assert r[i + 1] == hits[i] && r[k] == h; }
  }

  lemma InsertKeepsOrder<C(!new)>(hits: seq<Hit<C>>, h: Hit<C>, a: Hit<C>, b: Hit<C>)
    requires Precedes(hits, a, b)
    ensures Precedes(Insert(hits, h), a, b)
  {
    var k := Above(hits, h.score);
    var r := Insert(hits, h);
    var i, j :| 0 <= i < j < |hits| && hits[i] == a && hits[j] == b;
    var i', j' := if i < k then i else i + 1, if j < k then j else j + 1;
    assert r[i'] == a && r[j'] == b;
  }

  lemma {:induction false} SortedFalling<C>(hits: seq<Hit<C>>)
    ensures Falling(StableSorted(hits))
    ensures multiset(StableSorted(hits)) == multiset(hits)
    decreases |hits|
  {
    if |hits| > 0 {
      var n := |hits| - 1;
      assert StableSorted(hits) == Insert(StableSorted(hits[..n]), hits[n]);
      hide StableSorted, Insert, Falling;
      SortedFalling(hits[..n]);
      InsertFalling(StableSorted(hits[..n]), hits[n]);
      InsertMultiset(StableSorted(hits[..n]), hits[n]);
      assert hits == hits[..n] + [hits[n]];
    }
  }

  lemma LastPlaces<C(!new)>(before: seq<Hit<C>>, h: Hit<C>, i: nat)
    requires i < |before|
    ensures if before[i].score >= h.score then Precedes(Insert(StableSorted(before), h), before[i], h)
            else Precedes(Insert(StableSorted(before), h), h, before[i])
  {
    SortedFalling(before);
    var rest := StableSorted(before);
    hide StableSorted, Insert, Precedes;
    assert before[i] in multiset(before);
    var p :| 0 <= p < |rest| && rest[p] == before[i];
    InsertPlaces(rest, h, p);
  }

  /** Of two hits the sort puts the earlier first exactly when it scores at
      least as much. */
  lemma {:induction false} SortedPlaces<C(!new)>(hits: seq<Hit<C>>, i: nat, j: nat)
    requires i < j < |hits|
    ensures if hits[i].score >= hits[j].score then Precedes(StableSorted(hits), hits[i], hits[j])
            else Precedes(StableSorted(hits), hits[j], hits[i])
    decreases |hits|
  {
    var n := |hits| - 1;
    assert StableSorted(hits) == Insert(StableSorted(hits[..n]), hits[n]);
    hide Insert, Precedes, StableSorted;
    if j < n {
      SortedPlaces(hits[..n], i, j);
      if hits[i].score >= hits[j].score {
        InsertKeepsOrder(StableSorted(hits[..n]), hits[n], hits[i], hits[j]);
      } else {
        InsertKeepsOrder(StableSorted(hits[..n]), hits[n], hits[j], hits[i]);
      }
    } else {
      LastPlaces(hits[..n], hits[n], i);
    }
  }

  lemma OneWay<T(!new)>(s: seq<T>, a: T, b: T)
    requires Distinct(s) && Precedes(s, a, b)
    ensures !Precedes(s, b, a)
  {
  }

  /** Every chunk met has one hit with its whole score, none comes twice, and
      the list is the front of the order by falling score in which chunks met
      earlier come first among equals. */
  lemma FusedOrder<C(!new)>(vector: seq<Ranked<C>>, text: seq<Ranked<C>>, topK: int)
    ensures var all := vector + text;
      var hits := Fused(vector, text, topK);
      var order := StableSorted(Scored(all));
      && Distinct(order) && multiset(order) == multiset(Scored(all)) && Falling(order)
      && hits <= order && |hits| == (if 0 < topK < |order| then topK else |order|)
      && (forall k :: 0 <= k < |order| ==> order[k].score == ScoreOf(all, order[k].chunk))
      && (forall c :: HasHit(order, c) <==> Named(all, c))
      && (forall i, j :: 0 <= i < j < |Scored(all)| ==>
            (Precedes(order, Scored(all)[i], Scored(all)[j]) <==> Scored(all)[i].score >= Scored(all)[j].score))
  {
    var all := vector + text;
    var scored := Scored(all);
    FirstSeenDistinct(all);
    assert Distinct(scored);
    hide Scored;
    var order := StableSorted(scored);
    SortedFalling(scored);
    DistinctMultiset(scored, order);
    forall i, j | 0 <= i < j < |scored|
      ensures Precedes(order, scored[i], scored[j]) <==> scored[i].score >= scored[j].score
    {
      SortedPlaces(scored, i, j);
      if scored[i].score < scored[j].score { OneWay(order, scored[j], scored[i]); }
    }
    OrderNames(all, order);
  }

  lemma OrderNames<C(!new)>(all: seq<Ranked<C>>, order: seq<Hit<C>>)
    requires multiset(order) == multiset(Scored(all))
    ensures forall k :: 0 <= k < |order| ==> order[k].score == ScoreOf(all, order[k].chunk)
    ensures forall c :: HasHit(order, c) <==> Named(all, c)
  {
    forall k | 0 <= k < |order| ensures order[k].score == ScoreOf(all, order[k].chunk) { ScoreInOrder(all, order, k); }
    forall c ensures HasHit(order, c) <==> Named(all, c) {
      FirstSeenAll(all, c);
      if c in FirstSeen(all) { HitOf(all, order, c); }
      if k :| 0 <= k < |order| && order[k].chunk == c {
        assert order[k] in multiset(order);
        assert order[k] in Scored(all);
      }
    }
  }

  // ----- Dominance

  predicate OneRankEach<C(==)>(leg: seq<Ranked<C>>) {
    forall i, j :: 0 <= i < j < |leg| ==> leg[i].chunk != leg[j].chunk
  }

  /** b is nowhere in the leg, or a is there with a rank no worse. */
  predicate NoWorse<C(==)>(leg: seq<Ranked<C>>, a: C, b: C) {
    forall j :: 0 <= j < |leg| && leg[j].chunk == b ==> exists i :: 0 <= i < |leg| && leg[i].chunk == a && leg[i].rank <= leg[j].rank
  }

  /** a is in the leg, and ahead of b if b is there too. */
  predicate Better<C(==)>(leg: seq<Ranked<C>>, a: C, b: C) {
    exists i :: 0 <= i < |leg| && leg[i].chunk == a
      && forall j :: 0 <= j < |leg| && leg[j].chunk == b ==> leg[i].rank < leg[j].rank
  }

  lemma {:induction false} LegScore<C>(leg: seq<Ranked<C>>, c: C)
    requires OneRankEach(leg)
    ensures forall i :: 0 <= i < |leg| && leg[i].chunk == c ==> ScoreOf(leg, c) == 1.0 / (60.0 + leg[i].rank as real)
    ensures (forall i :: 0 <= i < |leg| ==> leg[i].chunk != c) ==> ScoreOf(leg, c) == 0.0
    decreases |leg|
  {
    if |leg| > 0 {
      var n := |leg| - 1;
      LegScore(leg[..n], c);
      assert forall i :: 0 <= i < n ==> leg[..n][i] == leg[i];
    }
  }

  lemma {:induction false} ScoreAdds<C>(vector: seq<Ranked<C>>, text: seq<Ranked<C>>, c: C)
    ensures ScoreOf(vector + text, c) == ScoreOf(vector, c) + ScoreOf(text, c)
    decreases |text|
  {
    if |text| == 0 {
      assert vector + text == vector;
    } else {
      var n := |text| - 1;
      ScoreAdds(vector, text[..n], c);
      assert (vector + text)[..|vector| + n] == vector + text[..n];
    }
  }

  lemma WeightFalls(p: nat, q: nat)
    ensures p <= q ==> Weight(p) >= Weight(q)
    ensures p < q ==> Weight(p) > Weight(q)
  {
    var a, b := 60.0 + p as real, 60.0 + q as real;
    Reciprocals(a, b);
  }

  lemma Reciprocals(a: real, b: real)
    requires a > 0.0 && b > 0.0
    ensures a <= b ==> 1.0 / a >= 1.0 / b
    ensures a < b ==> 1.0 / a > 1.0 / b
  {
    var r, t := 1.0 / a, 1.0 / b;
    assert r * a == 1.0 && t * b == 1.0;
    if a <= b && r < t {
      Times(r, t, a);
      Times(a, b, t);
      assert false;
    }
    if a < b && r <= t {
      Times(a, b, t);
      if r < t { Times(r, t, a); }
      assert false;
    }
  }

  lemma Times(x: real, y: real, c: real)
    requires c > 0.0
    ensures x < y ==> x * c < y * c
    ensures x <= y ==> x * c <= y * c
  {
    if x < y {
      assert (y - x) * c > 0.0;
      assert (y - x) * c == y * c - x * c;
    }
  }

  lemma LegNoWorse<C>(leg: seq<Ranked<C>>, a: C, b: C)
    requires OneRankEach(leg)
    ensures NoWorse(leg, a, b) ==> ScoreOf(leg, a) >= ScoreOf(leg, b)
    ensures Better(leg, a, b) ==> ScoreOf(leg, a) > ScoreOf(leg, b)
  {
    LegScore(leg, a);
    LegScore(leg, b);
    hide ScoreOf, Weight;
    if j :| 0 <= j < |leg| && leg[j].chunk == b {
      forall i | 0 <= i < |leg| ensures leg[i].rank <= leg[j].rank ==> Weight(leg[i].rank) >= Weight(leg[j].rank)
        ensures leg[i].rank < leg[j].rank ==> Weight(leg[i].rank) > Weight(leg[j].rank)
      {
        WeightFalls(leg[i].rank, leg[j].rank);
      }
    }
  }

  lemma DominantScores<C>(vector: seq<Ranked<C>>, text: seq<Ranked<C>>, a: C, b: C)
    requires OneRankEach(vector) && OneRankEach(text)
    requires NoWorse(vector, a, b) && NoWorse(text, a, b) && (Better(vector, a, b) || Better(text, a, b))
    ensures ScoreOf(vector + text, a) > ScoreOf(vector + text, b) && a in FirstSeen(vector + text)
  {
    hide NoWorse, Better, OneRankEach, ScoreOf, FirstSeen;
    LegNoWorse(vector, a, b);
    LegNoWorse(text, a, b);
    ScoreAdds(vector, text, a);
    ScoreAdds(vector, text, b);
    if a !in FirstSeen(vector + text) { UnseenScoresNothing(vector + text, a); }
  }

  lemma Front<C>(vector: seq<Ranked<C>>, text: seq<Ranked<C>>, topK: int, q: nat)
    requires q < |Fused(vector, text, topK)|
    ensures |Fused(vector, text, topK)| <= |StableSorted(Scored(vector + text))|
    ensures forall p :: 0 <= p <= q ==> Fused(vector, text, topK)[p] == StableSorted(Scored(vector + text))[p]
  {
    hide StableSorted, Scored;
  }

  /** A chunk no worse than another in both legs and better in one comes before
      it wherever the other comes at all. */
  lemma Dominance<C(!new)>(vector: seq<Ranked<C>>, text: seq<Ranked<C>>, topK: int, a: C, b: C, q: nat)
    requires OneRankEach(vector) && OneRankEach(text)
    requires NoWorse(vector, a, b) && NoWorse(text, a, b) && (Better(vector, a, b) || Better(text, a, b))
    requires q < |Fused(vector, text, topK)| && Fused(vector, text, topK)[q].chunk == b
    ensures exists p :: 0 <= p < q && Fused(vector, text, topK)[p].chunk == a
  {
    hide NoWorse, Better, OneRankEach, StableSorted, Scored, ScoreOf, FirstSeen, Fused;
    var all := vector + text;
    var order := StableSorted(Scored(all));
    DominantScores(vector, text, a, b);
    SortedFalling(Scored(all));
    Front(vector, text, topK, q);
    HitOf(all, order, a);
    var p :| 0 <= p < |order| && order[p] == Hit(a, ScoreOf(all, a));
    ScoreInOrder(all, order, q);
    assert order[q].score < order[p].score;
    assert p < q;
  }

  lemma HitOf<C>(all: seq<Ranked<C>>, order: seq<Hit<C>>, c: C)
    requires multiset(order) == multiset(Scored(all)) && c in FirstSeen(all)
    ensures Hit(c, ScoreOf(all, c)) in order
  {
    var i :| 0 <= i < |FirstSeen(all)| && FirstSeen(all)[i] == c;
    assert Scored(all)[i] in multiset(Scored(all));
    assert Scored(all)[i] in multiset(order);
  }

  lemma ScoreInOrder<C>(all: seq<Ranked<C>>, order: seq<Hit<C>>, q: nat)
    requires multiset(order) == multiset(Scored(all)) && q < |order|
    ensures order[q].score == ScoreOf(all, order[q].chunk)
  {
    assert order[q] in multiset(order);
    assert order[q] in Scored(all);
  }
}
