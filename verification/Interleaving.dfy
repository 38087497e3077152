/** Concurrent workers that each send a fixed list of items to a shared log. */
module Interleaving {
  /** The items of worker w, in order, given who sent each item. */
  function Project<T>(log: seq<T>, sender: seq<nat>, w: nat): seq<T>
    requires |log| == |sender|
  {
    if log == [] then []
    else
      var n := |log| - 1;
      Project(log[..n], sender[..n], w) + (if sender[n] == w then [log[n]] else [])
  }

  lemma ProjectAppend<T>(log: seq<T>, sender: seq<nat>, item: T, v: nat, w: nat)
    requires |log| == |sender|
    ensures Project(log + [item], sender + [v], w) == Project(log, sender, w) + (if v == w then [item] else [])
  {
    assert (log + [item])[..|log|] == log && (sender + [v])[..|sender|] == sender;
  }

  /** Each item was sent by one worker, and every worker sent all of its items
      in order. */
  predicate IsSchedule<T(==)>(log: seq<T>, sender: seq<nat>, work: seq<seq<T>>) {
    && |sender| == |log|
    && (forall i :: 0 <= i < |sender| ==> sender[i] < |work|)
    && forall w :: 0 <= w < |work| ==> Project(log, sender, w) == work[w]
  }

  ghost predicate Interleaves<T>(log: seq<T>, work: seq<seq<T>>) {
    exists sender: seq<nat> :: IsSchedule(log, sender, work)
  }

  // ----- A pool of workers with a bounded number of slots

  /** Steps a worker with n items has left: it takes a slot, sends its items and
      frees the slot. */
  predicate IsWaiting(left: nat, n: nat) { left == n + 2 }

  predicate IsBusy(left: nat, n: nat) { 1 <= left <= n + 1 }

  function Sent(left: nat, n: nat): nat
    requires left <= n + 2
  {
    if left == n + 2 then 0 else if left == 0 then n else n + 1 - left
  }

  function Busy<T>(work: seq<seq<T>>, left: seq<nat>): nat
    requires |left| == |work|
  {
    if work == [] then 0
    else
      var n := |work| - 1;
      Busy(work[..n], left[..n]) + (if IsBusy(left[n], |work[n]|) then 1 else 0)
  }

  ghost predicate Progress<T>(work: seq<seq<T>>, left: seq<nat>, log: seq<T>, sender: seq<nat>) {
    && |left| == |work| && |sender| == |log|
    && (forall i :: 0 <= i < |sender| ==> sender[i] < |work|)
    && forall w :: 0 <= w < |work| ==>
         left[w] <= |work[w]| + 2 && Project(log, sender, w) == work[w][..Sent(left[w], |work[w]|)]
  }

  function FullWork<T>(work: seq<seq<T>>): (left: seq<nat>)
    ensures |left| == |work| && forall w :: 0 <= w < |work| ==> left[w] == |work[w]| + 2
  {
    seq(|work|, w requires 0 <= w < |work| => |work[w]| + 2)
  }

  lemma {:induction false} NoneBusy<T>(work: seq<seq<T>>, left: seq<nat>)
    requires |left| == |work| && forall w :: 0 <= w < |work| ==> !IsBusy(left[w], |work[w]|)
    ensures Busy(work, left) == 0
  {
    if work != [] { NoneBusy(work[..|work| - 1], left[..|work| - 1]); }
  }

  lemma {:induction false} SomeBusy<T>(work: seq<seq<T>>, left: seq<nat>)
    requires |left| == |work| && Busy(work, left) > 0
    ensures exists w :: 0 <= w < |work| && IsBusy(left[w], |work[w]|)
  {
    var n := |work| - 1;
    if !IsBusy(left[n], |work[n]|) {
      SomeBusy(work[..n], left[..n]);
      var w :| 0 <= w < n && IsBusy(left[..n][w], |work[..n][w]|);
      assert IsBusy(left[w], |work[w]|);
    }
  }

  lemma {:induction false} BusyUpdate<T>(work: seq<seq<T>>, left: seq<nat>, w: nat, v: nat)
    requires |left| == |work| && w < |work|
    ensures Busy(work, left[w := v]) + (if IsBusy(left[w], |work[w]|) then 1 else 0)
         == Busy(work, left) + (if IsBusy(v, |work[w]|) then 1 else 0)
  {
    var n := |work| - 1;
    if w < n {
      BusyUpdate(work[..n], left[..n], w, v);
      assert left[w := v][..n] == left[..n][w := v];
    } else {
      assert left[w := v][..n] == left[..n];
    }
  }

  function Sum(s: seq<nat>): nat {
    if s == [] then 0 else Sum(s[..|s| - 1]) + s[|s| - 1]
  }

  lemma {:induction false} SumUpdate(s: seq<nat>, i: nat, v: nat)
    requires i < |s|
    ensures Sum(s[i := v]) == Sum(s) - s[i] + v
  {
    var n := |s| - 1;
    if i < n {
      SumUpdate(s[..n], i, v);
      assert s[i := v][..n] == s[..n][i := v];
    } else {
      assert s[i := v][..n] == s[..n];
    }
  }

  lemma {:induction false} SumZero(s: seq<nat>)
    ensures Sum(s) == 0 <==> forall i :: 0 <= i < |s| ==> s[i] == 0
  {
    if s != [] {
      SumZero(s[..|s| - 1]);
      assert forall i :: 0 <= i < |s| - 1 ==> s[..|s| - 1][i] == s[i];
    }
  }

  /** A worker that may take its next step. */
  predicate CanMove<T>(work: seq<seq<T>>, left: seq<nat>, w: nat, slots: nat)
    requires |left| == |work|
  {
    w < |work| && left[w] > 0 && (IsWaiting(left[w], |work[w]|) ==> Busy(work, left) < slots)
  }

  /** The pool never deadlocks. */
  lemma SomeoneMoves<T>(work: seq<seq<T>>, left: seq<nat>, log: seq<T>, sender: seq<nat>, slots: nat)
    requires Progress(work, left, log, sender) && Sum(left) > 0 && slots > 0
    ensures exists w :: CanMove(work, left, w, slots)
  {
    if Busy(work, left) > 0 {
      SomeBusy(work, left);
      var w :| 0 <= w < |work| && IsBusy(left[w], |work[w]|);
      assert CanMove(work, left, w, slots);
    } else {
      SumZero(left);
      var w :| 0 <= w < |left| && left[w] != 0;
      assert CanMove(work, left, w, slots);
    }
  }

  lemma ProgressStart<T>(work: seq<seq<T>>)
    ensures Progress(work, FullWork(work), [], [])
    ensures Busy(work, FullWork(work)) == 0
  {
    NoneBusy(work, FullWork(work));
  }

  /** One step of one worker: only a step strictly inside its run sends. */
  lemma ProgressStep<T>(work: seq<seq<T>>, left: seq<nat>, log: seq<T>, sender: seq<nat>, w: nat, slots: nat)
    requires Progress(work, left, log, sender) && CanMove(work, left, w, slots) && Busy(work, left) <= slots
    ensures Sum(left[w := left[w] - 1]) < Sum(left)
    ensures Busy(work, left[w := left[w] - 1]) <= slots
    ensures left[w] <= |work[w]| + 2
    ensures if 1 < left[w] < |work[w]| + 2
            then Progress(work, left[w := left[w] - 1], log + [work[w][|work[w]| + 1 - left[w]]], sender + [w])
            else Progress(work, left[w := left[w] - 1], log, sender)
  {
    SumUpdate(left, w, left[w] - 1);
    BusyUpdate(work, left, w, left[w] - 1);
    if 1 < left[w] < |work[w]| + 2 {
      var k := |work[w]| + 1 - left[w];
      var item := work[w][k];
      forall v | 0 <= v < |work|
        ensures Project(log + [item], sender + [w], v) == Project(log, sender, v) + (if w == v then [item] else [])
      {
        ProjectAppend(log, sender, item, w, v);
      }
      assert work[w][..k + 1] == work[w][..k] + [item];
    }
  }

  lemma ProgressDone<T>(work: seq<seq<T>>, left: seq<nat>, log: seq<T>, sender: seq<nat>)
    requires Progress(work, left, log, sender) && Sum(left) == 0
    ensures IsSchedule(log, sender, work) && Interleaves(log, work)
  {
    SumZero(left);
    forall w | 0 <= w < |work| ensures Project(log, sender, w) == work[w] {
      assert work[w][..|work[w]|] == work[w];
    }
    assert IsSchedule(log, sender, work);
  }

  // ----- How many are at work

  /** The workers that have sent some of their items and not all of them. */
  function Midway<T>(work: seq<seq<T>>, log: seq<T>, sender: seq<nat>): set<nat>
    requires |log| == |sender|
  {
    set w: nat | w < |work| && 0 < |Project(log, sender, w)| < |work[w]|
  }

  /** At no time are more than so many workers midway. */
  predicate AtMost<T>(slots: nat, work: seq<seq<T>>, log: seq<T>, sender: seq<nat>) {
    |log| == |sender| && forall n :: 0 <= n <= |log| ==> |Midway(work, log[..n], sender[..n])| <= slots
  }

  /** The log is one that a pool with so many slots can leave. */
  ghost predicate Pooled<T>(slots: nat, log: seq<T>, work: seq<seq<T>>) {
    exists sender: seq<nat> :: IsSchedule(log, sender, work) && AtMost(slots, work, log, sender)
  }

  function BusyOnes<T>(work: seq<seq<T>>, left: seq<nat>): set<nat>
    requires |left| == |work|
  {
    set w: nat | w < |work| && IsBusy(left[w], |work[w]|)
  }

  lemma {:induction false} BusyCounts<T>(work: seq<seq<T>>, left: seq<nat>)
    requires |left| == |work|
    ensures |BusyOnes(work, left)| == Busy(work, left)
  {
    if work != [] {
      hide IsBusy;
      var n := |work| - 1;
      BusyCounts(work[..n], left[..n]);
      assert BusyOnes(work, left) == BusyOnes(work[..n], left[..n]) + if IsBusy(left[n], |work[n]|) then {n} else {};
    }
  }

  lemma {:induction false} SubsetSize(a: set<nat>, b: set<nat>)
    requires a <= b
    ensures |a| <= |b|
  {
    if a != {} {
      var x :| x in a;
      SubsetSize(a - {x}, b - {x});
    }
  }

  /** Whoever is midway holds a slot. */
  lemma MidwayBusy<T>(work: seq<seq<T>>, left: seq<nat>, log: seq<T>, sender: seq<nat>)
    requires Progress(work, left, log, sender)
    ensures |Midway(work, log, sender)| <= Busy(work, left)
  {
    BusyCounts(work, left);
    SubsetSize(Midway(work, log, sender), BusyOnes(work, left));
  }

  lemma AtMostStart<T>(slots: nat, work: seq<seq<T>>)
    ensures AtMost(slots, work, [], [])
  {
    assert Midway(work, [], []) == {};
  }

  lemma AtMostNext<T>(slots: nat, work: seq<seq<T>>, left: seq<nat>, log: seq<T>, sender: seq<nat>, item: T, w: nat)
    requires AtMost(slots, work, log, sender) && Progress(work, left, log + [item], sender + [w])
    requires Busy(work, left) <= slots
    ensures AtMost(slots, work, log + [item], sender + [w])
  {
    var more, senders := log + [item], sender + [w];
    MidwayBusy(work, left, more, senders);
    hide Midway, Progress, Busy;
    forall n | 0 <= n <= |more| ensures |Midway(work, more[..n], senders[..n])| <= slots {
      if n <= |log| {
        assert more[..n] == log[..n] && senders[..n] == sender[..n];
      } else {
        assert more[..n] == more && senders[..n] == senders;
      }
    }
  }
}
