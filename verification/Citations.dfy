/** The citation list of a run (appendUniqueCitations in handler/agent.go). */
module Citations {
  /** The additions that are not held yet, each once, in order. */
  function Fresh(existing: seq<string>, additions: seq<string>): seq<string> {
    if additions == [] then []
    else
      var before := Fresh(existing, additions[..|additions| - 1]);
      var last := additions[|additions| - 1];
      if last in existing || last in before then before else before + [last]
  }

  /** How many new labels one call takes: enough to reach five, but always at
      least one, because the bound is only looked at after an append. */
  function Room(held: nat): nat {
    if held < 5 then 5 - held else 1
  }

  function Take(s: seq<string>, n: nat): seq<string> {
    if |s| <= n then s else s[..n]
  }

  lemma {:induction false} FreshIsFresh(existing: seq<string>, additions: seq<string>)
    ensures forall x :: x in Fresh(existing, additions) <==> x in additions && x !in existing
    ensures forall i, j :: 0 <= i < j < |Fresh(existing, additions)| ==>
      Fresh(existing, additions)[i] != Fresh(existing, additions)[j]
  {
    if additions != [] {
      var n := |additions| - 1;
      FreshIsFresh(existing, additions[..n]);
      assert additions == additions[..n] + [additions[n]];
    }
  }

  lemma {:induction false} FreshGrows(existing: seq<string>, additions: seq<string>, n: nat)
    requires n <= |additions|
    ensures Fresh(existing, additions[..n]) <= Fresh(existing, additions)
    decreases |additions| - n
  {
    if n < |additions| {
      assert additions[..n + 1][..n] == additions[..n];
      FreshGrows(existing, additions, n + 1);
    } else {
      assert additions[..n] == additions;
    }
  }

  method AppendUnique(existing: seq<string>, additions: seq<string>) returns (all: seq<string>)
    ensures all == existing + Take(Fresh(existing, additions), Room(|existing|))
  {
    var seen := set x | x in existing;
    all := existing;
    var i := 0;
    while i < |additions|
      invariant 0 <= i <= |additions|
      invariant all == existing + Fresh(existing, additions[..i])
      invariant forall x :: x in seen <==> x in all
      invariant all == existing || |all| < 5
    {
      var item := additions[i];
      assert additions[..i + 1][..i] == additions[..i];
      i := i + 1;
      if item in seen {
        continue;
      }
      seen := seen + {item};
      all := all + [item];
      if |all| >= 5 {
        FreshGrows(existing, additions, i);
        return;
      }
    }
    assert additions[..i] == additions;
  }

  /** No label is listed twice, and the list is empty only while no citation
      has ever been read. */
  lemma ListStaysUnique(existing: seq<string>, additions: seq<string>)
    requires forall i, j :: 0 <= i < j < |existing| ==> existing[i] != existing[j]
    ensures var all := existing + Take(Fresh(existing, additions), Room(|existing|));
      && (forall i, j :: 0 <= i < j < |all| ==> all[i] != all[j])
      && (all == [] <==> existing == [] && additions == [])
  {
    FreshIsFresh(existing, additions);
    var added := Fresh(existing, additions);
    var taken := Take(added, Room(|existing|));
    hide Fresh;
    forall i, j | 0 <= i < j < |existing + taken| ensures (existing + taken)[i] != (existing + taken)[j] {
      if j >= |existing| { assert added[j - |existing|] in added; }
    }
    if additions != [] && existing == [] { assert additions[0] in added; }
  }

  /** Where a label first stands in a list, its length when it does not. */
  function Place(s: seq<string>, x: string): (n: nat)
    ensures n <= |s| && (x in s <==> n < |s|)
    ensures n < |s| ==> s[n] == x && x !in s[..n]
  {
    if s == [] then 0 else if s[0] == x then 0 else 1 + Place(s[1..], x)
  }

  lemma PlaceIs(s: seq<string>, x: string, n: nat)
    requires n < |s| && s[n] == x && x !in s[..n]
    ensures Place(s, x) == n
  {}

  /** New labels come in the order in which the additions first name them. */
  lemma {:induction false} FreshInOrder(existing: seq<string>, additions: seq<string>)
    ensures forall i, j :: 0 <= i < j < |Fresh(existing, additions)| ==>
      Place(additions, Fresh(existing, additions)[i]) < Place(additions, Fresh(existing, additions)[j])
  {
    if additions != [] {
      var n := |additions| - 1;
      var before := Fresh(existing, additions[..n]);
      FreshInOrder(existing, additions[..n]);
      FreshIsFresh(existing, additions[..n]);
      hide Fresh;
      forall i | 0 <= i < |before| ensures Place(additions, before[i]) == Place(additions[..n], before[i]) < n {
        assert before[i] in before;
        var p := Place(additions[..n], before[i]);
        assert additions[..n][..p] == additions[..p];
        PlaceIs(additions, before[i], p);
      }
      if additions[n] !in existing && additions[n] !in before {
        assert additions[n] !in additions[..n];
        PlaceIs(additions, additions[n], n);
      }
      FreshOne(existing, additions);
    }
  }

  lemma FreshOne(existing: seq<string>, additions: seq<string>)
    requires additions != []
    ensures var before, last := Fresh(existing, additions[..|additions| - 1]), additions[|additions| - 1];
      Fresh(existing, additions) == if last in existing || last in before then before else before + [last]
  {}

  /** What was held stays in front. Every addition is held afterwards, unless the
      list has reached five labels or, when five were held already, taken one. */
  lemma AddedExactly(existing: seq<string>, additions: seq<string>)
    ensures var all := existing + Take(Fresh(existing, additions), Room(|existing|));
      var limit := if |existing| < 5 then 5 else |existing| + 1;
      && existing <= all && |all| <= limit
      && (|all| == limit || forall x :: x in additions ==> x in all)
      && (forall x :: x in all ==> x in existing || x in additions)
      && (forall i :: |existing| <= i < |all| ==> all[i] !in existing)
      && (forall i, j :: |existing| <= i < j < |all| ==> Place(additions, all[i]) < Place(additions, all[j]))
  {
    FreshIsFresh(existing, additions);
    FreshInOrder(existing, additions);
    var added := Fresh(existing, additions);
    var all := existing + Take(added, Room(|existing|));
    hide Fresh;
    forall i | |existing| <= i < |all| ensures all[i] == added[i - |existing|] && all[i] in added {}
  }

  /** The five-label bound holds after a call exactly when fewer than five were
      held before it, or five were held and nothing new arrives. */
  lemma BoundExactly(existing: seq<string>, additions: seq<string>)
    ensures |existing + Take(Fresh(existing, additions), Room(|existing|))| <= 5
       <==> |existing| < 5 || (|existing| == 5 && forall x :: x in additions ==> x in existing)
  {
    FreshIsFresh(existing, additions);
    var added := Fresh(existing, additions);
    if |existing| == 5 && added != [] { assert added[0] in added; }
  }

  /** The bound fails: a sixth label joins five. */
  lemma SixthLabel()
    ensures |["a", "b", "c", "d", "e"] + Take(Fresh(["a", "b", "c", "d", "e"], ["f"]), Room(5))| == 6
  {
    BoundExactly(["a", "b", "c", "d", "e"], ["f"]);
    assert ["f"][..0] == [];
  }
}
