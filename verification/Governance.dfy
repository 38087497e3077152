/** The runtime override cache of the tool catalog
    (apps/ai-service/internal/catalog/governance.go). Times are milliseconds; a
    store call succeeds or fails as the environment chooses and a failed write
    changes nothing. */
module Governance {
  import opened Common

  type Rows = map<string, bool>

  const CACHE_TTL := 10_000
  const RETRY_BACKOFF := 2_000

  datatype Outcome = Done | Unavailable | StoreFailed

  /** The cache beside the table it mirrors; `stored` is None without a store. */
  datatype State = State(stored: Option<Rows>, overrides: Rows, loadedAt: int, loaded: bool,
                         failedAt: int, failed: bool, ttl: int)

  datatype Entry = Entry(name: string, enabled: bool)

  /** A call on this replica, or a write by another one. */
  datatype Op =
    | Refresh(now: int, up: bool)
    | Set(name: string, enabled: bool, now: int, up: bool)
    | Clear(name: string, now: int, up: bool)
    | Remote(name: string, setting: Option<bool>)

  function Start(stored: Option<Rows>): State {
    State(stored, map[], 0, false, 0, false, CACHE_TTL)
  }

  predicate IsFresh(s: State, now: int) { s.loaded && now - s.loadedAt < s.ttl }

  predicate BacksOff(s: State, now: int) { s.failed && now - s.failedAt < RETRY_BACKOFF }

  /** The refresh asks the store. */
  predicate Asks(s: State, now: int) { s.stored.Some? && !IsFresh(s, now) && !BacksOff(s, now) }

  function Written(rows: Rows, name: string, setting: Option<bool>): Rows {
    match setting
    case None => rows - {name}
    case Some(enabled) => rows[name := enabled]
  }

  function AfterWrite(s: State, name: string, setting: Option<bool>, now: int, up: bool): State {
    if s.stored.None? || !up then s
    else s.(stored := Some(Written(s.stored.value, name, setting)),
            overrides := Written(s.overrides, name, setting),
            loadedAt := now,
            loaded := true)
  }

  function Step(s: State, op: Op): State {
    match op
    case Refresh(now, up) =>
      if !Asks(s, now) then s
      else if !up then s.(failedAt := now, failed := true)
      else s.(overrides := s.stored.value, loadedAt := now, loaded := true, failed := false)
    case Set(name, enabled, now, up) => AfterWrite(s, name, Some(enabled), now, up)
    case Clear(name, now, up) => AfterWrite(s, name, None, now, up)
    case Remote(name, setting) =>
      if s.stored.None? then s else s.(stored := Some(Written(s.stored.value, name, setting)))
  }

  function Run(s: State, ops: seq<Op>): State
    decreases |ops|
  {
    if ops == [] then s else Step(Run(s, ops[..|ops| - 1]), ops[|ops| - 1])
  }

  predicate Enabled(s: State, entry: Entry) {
    && entry.enabled
    && (s.stored.Some? ==> s.loaded)
    && (entry.name in s.overrides ==> s.overrides[entry.name])
  }

  // ----- The object

  class Store {
    var rows: Rows

    constructor (rows: Rows)
      ensures this.rows == rows
    {
      this.rows := rows;
    }
  }

  class Governor {
    const store: Store?
    var overrides: Rows
    var loadedAt: int
    var loaded: bool
    var failedAt: int
    var failed: bool
    var ttl: int

    constructor (store: Store?)
      ensures this.store == store && Now() == Start(if store == null then None else Some(store.rows))
      ensures !loaded && !failed && overrides == map[] && ttl == 10_000
    {
      this.store := store;
      overrides, loadedAt, loaded := map[], 0, false;
      failedAt, failed, ttl := 0, false, CACHE_TTL;
    }

    ghost function Now(): State
      reads this, store
    {
      State(if store == null then None else Some(store.rows), overrides, loadedAt, loaded, failedAt, failed, ttl)
    }

    method SetTTL(window: int)
      modifies this
      ensures Now() == old(Now()).(ttl := if window <= 0 then old(ttl) else window)
    {
      if window <= 0 {
        return;
      }
      ttl := window;
    }

    /** Ask the store again unless the snapshot is fresh or a failure is recent.
        On failure the snapshot is kept and the error returned. */
    method EnsureFresh(now: int, up: bool) returns (ok: bool)
      modifies this
      ensures Now() == Step(old(Now()), Refresh(now, up))
      ensures ok <==> old(Now()).stored.None? || IsFresh(old(Now()), now) || (up && Asks(old(Now()), now))
      ensures var asks := store != null && !(old(loaded) && now - old(loadedAt) < old(ttl))
                          && !(old(failed) && now - old(failedAt) < 2_000);
        if asks && up then overrides == store.rows && loaded && loadedAt == now && !failed
        else
          && overrides == old(overrides) && loaded == old(loaded) && loadedAt == old(loadedAt)
          && if asks then failed && failedAt == now else failed == old(failed) && failedAt == old(failedAt)
    {
      if store == null {
        return true;
      }
      var fresh' := loaded && now - loadedAt < ttl;
      var backingOff := failed && now - failedAt < RETRY_BACKOFF;
      if fresh' {
        return true;
      }
      if backingOff {
        return false;
      }
      if !up {
        failedAt := now;
        failed := true;
        return false;
      }
      overrides := store.rows;
      loadedAt := now;
      loaded := true;
      failed := false;
      return true;
    }

    method IsEnabled(entry: Entry) returns (ok: bool)
      ensures ok <==> Enabled(Now(), entry)
      ensures ok <==> entry.enabled && (store != null ==> loaded) && !(entry.name in overrides && !overrides[entry.name])
    {
      if !entry.enabled {
        return false;
      }
      if store != null && !loaded {
        return false;
      }
      return entry.name !in overrides || overrides[entry.name];
    }

    method SetOverride(name: string, enabled: bool, now: int, up: bool) returns (r: Outcome)
      modifies this, store
      ensures Now() == Step(old(Now()), Set(name, enabled, now, up))
      ensures store != null && up ==>
        && store.rows == old(store.rows)[name := enabled] && overrides == old(overrides)[name := enabled]
        && loaded && loadedAt == now
      ensures r == if store == null then Unavailable else if up then Done else StoreFailed
    {
      if store == null {
        return Unavailable;
      }
      if !up {
        return StoreFailed;
      }
      store.rows := store.rows[name := enabled];
      overrides := overrides[name := enabled];
      loadedAt := now;
      loaded := true;
      return Done;
    }

    method ClearOverride(name: string, now: int, up: bool) returns (r: Outcome)
      modifies this, store
      ensures Now() == Step(old(Now()), Clear(name, now, up))
      ensures store != null && up ==>
        && store.rows == old(store.rows) - {name} && overrides == old(overrides) - {name}
        && loaded && loadedAt == now
      ensures r == if store == null then Unavailable else if up then Done else StoreFailed
    {
      if store == null {
        return Unavailable;
      }
      if !up {
        return StoreFailed;
      }
      store.rows := store.rows - {name};
      overrides := overrides - {name};
      loadedAt := now;
      loaded := true;
      return Done;
    }
  }

  // ----- Whole runs

  /** The op reads the whole table into the cache. */
  predicate Loads(s: State, op: Op) { op.Refresh? && op.up && Asks(s, op.now) }

  /** The op writes a row of this method here. */
  predicate Writes(s: State, op: Op, name: string) {
    && s.stored.Some?
    && ((op.Set? && op.up && op.name == name) || (op.Clear? && op.up && op.name == name))
  }

  /** Some op of the run loaded the table. */
  predicate Refreshed(s: State, ops: seq<Op>)
    decreases |ops|
  {
    |ops| > 0
    && (Loads(Run(s, ops[..|ops| - 1]), ops[|ops| - 1]) || Refreshed(s, ops[..|ops| - 1]))
  }

  /** The methods written here during the run. */
  function Touched(s: State, ops: seq<Op>): set<string>
    decreases |ops|
  {
    if |ops| == 0 then {}
    else
      var op := ops[|ops| - 1];
      Touched(s, ops[..|ops| - 1])
      + if s.stored.Some? && ((op.Set? && op.up) || (op.Clear? && op.up)) then {op.name} else {}
  }

  predicate SoleWriter(ops: seq<Op>) { forall i :: 0 <= i < |ops| ==> !ops[i].Remote? }

  lemma {:induction false} StoreStays(s: State, ops: seq<Op>)
    ensures Run(s, ops).stored.Some? <==> s.stored.Some?
    decreases |ops|
  {
    if ops != [] { StoreStays(s, ops[..|ops| - 1]); }
  }

  /** With a store, nothing is enabled until a refresh or a write has succeeded,
      and whatever is enabled is enabled by its contract. */
  lemma {:induction false} ClosedUntilLoaded(rows: Rows, ops: seq<Op>)
    ensures var s := Run(Start(Some(rows)), ops);
      && (s.loaded <==> Refreshed(Start(Some(rows)), ops) || Touched(Start(Some(rows)), ops) != {})
      && (forall entry :: Enabled(s, entry) ==> entry.enabled && s.loaded)
    decreases |ops|
  {
    if ops != [] {
      ClosedUntilLoaded(rows, ops[..|ops| - 1]);
      StoreStays(Start(Some(rows)), ops[..|ops| - 1]);
    }
  }

  /** With this replica the sole writer the cache and the table agree on every
      method that was written here, and on all of them once a refresh has
      succeeded; without one the other rows are missing from the cache. */
  lemma {:induction false} CacheByMethod(rows: Rows, ops: seq<Op>, name: string)
    requires SoleWriter(ops)
    ensures var start := Start(Some(rows));
      var s := Run(start, ops);
      && s.stored.Some?
      && (if Refreshed(start, ops) || name in Touched(start, ops) then
            (name in s.overrides <==> name in s.stored.value)
            && (name in s.overrides ==> s.overrides[name] == s.stored.value[name])
          else
            name !in s.overrides && (name in s.stored.value <==> name in rows)
            && (name in rows ==> s.stored.value[name] == rows[name]))
    decreases |ops|
  {
    if ops != [] {
      CacheByMethod(rows, ops[..|ops| - 1], name);
    }
  }

  /** So the cache equals the table exactly when a refresh has succeeded or every
      row the table began with has been written here since. */
  lemma AgreesExactly(rows: Rows, ops: seq<Op>)
    requires SoleWriter(ops)
    ensures var start := Start(Some(rows));
      Run(start, ops).stored == Some(Run(start, ops).overrides)
      <==> Refreshed(start, ops) || rows.Keys <= Touched(start, ops)
  {
    var start := Start(Some(rows));
    var s := Run(start, ops);
    CacheByMethod(rows, ops, "");
    hide Run, Refreshed, Touched;
    if Refreshed(start, ops) || rows.Keys <= Touched(start, ops) {
      forall name
        ensures name in s.overrides <==> name in s.stored.value
        ensures name in s.overrides ==> s.overrides[name] == s.stored.value[name]
      {
        CacheByMethod(rows, ops, name);
      }
      assert s.overrides == s.stored.value;
    } else {
      var name :| name in rows && name !in Touched(start, ops);
      CacheByMethod(rows, ops, name);
    }
  }

  /** A method switched off in the table and not written here runs all the same
      once another method has been written and before a refresh succeeds. */
  lemma KillSwitchMissed(rows: Rows, ops: seq<Op>, entry: Entry)
    requires SoleWriter(ops) && entry.enabled && entry.name in rows && !rows[entry.name]
    requires entry.name !in Touched(Start(Some(rows)), ops)
    ensures Enabled(Run(Start(Some(rows)), ops), entry)
        <==> !Refreshed(Start(Some(rows)), ops) && Touched(Start(Some(rows)), ops) != {}
  {
    CacheByMethod(rows, ops, entry.name);
    ClosedUntilLoaded(rows, ops);
    hide Run, Refreshed, Touched;
    if Refreshed(Start(Some(rows)), ops) { RefreshedKeeps(rows, ops, entry.name); }
  }

  /** Rows not written here keep their value when this replica writes alone. */
  lemma {:induction false} RefreshedKeeps(rows: Rows, ops: seq<Op>, name: string)
    requires SoleWriter(ops) && name in rows && name !in Touched(Start(Some(rows)), ops)
    ensures var s := Run(Start(Some(rows)), ops);
      s.stored.Some? && name in s.stored.value && s.stored.value[name] == rows[name]
    decreases |ops|
  {
    if ops != [] { RefreshedKeeps(rows, ops[..|ops| - 1], name); }
  }

  // ----- Other replicas

  /** A write made here, successfully. */
  predicate Stores(op: Op) { (op.Set? || op.Clear?) && op.up }

  /** The table was read into the cache at step k, and not since. */
  predicate IsLastLoad(s: State, ops: seq<Op>, k: nat) {
    && k < |ops| && Loads(Run(s, ops[..k]), ops[k])
    && forall j :: k < j < |ops| ==> !Loads(Run(s, ops[..j]), ops[j])
  }

  /** A table with the writes made here applied to it, and no one else's. */
  function WithOwn(rows: Rows, ops: seq<Op>): Rows
    decreases |ops|
  {
    if ops == [] then rows
    else
      var before, op := WithOwn(rows, ops[..|ops| - 1]), ops[|ops| - 1];
      if !Stores(op) then before else Written(before, op.name, if op.Set? then Some(op.enabled) else None)
  }

  /** When the last write was made here, or `at` when there was none. */
  function LastStore(at: int, ops: seq<Op>): int
    decreases |ops|
  {
    if ops == [] then at
    else if Stores(ops[|ops| - 1]) then ops[|ops| - 1].now else LastStore(at, ops[..|ops| - 1])
  }

  lemma {:induction false} WindowStays(s: State, ops: seq<Op>)
    ensures Run(s, ops).ttl == s.ttl
    decreases |ops|
  {
    if ops != [] { WindowStays(s, ops[..|ops| - 1]); }
  }

  lemma {:induction false} SomeLastLoad(s: State, ops: seq<Op>)
    requires Refreshed(s, ops)
    ensures exists k: nat :: IsLastLoad(s, ops, k)
    decreases |ops|
  {
    var n := |ops| - 1;
    if Loads(Run(s, ops[..n]), ops[n]) {
      assert IsLastLoad(s, ops, n);
    } else {
      SomeLastLoad(s, ops[..n]);
      hide Loads, Run, Refreshed;
      var k: nat :| IsLastLoad(s, ops[..n], k);
      assert forall j :: 0 <= j <= n ==> ops[..n][..j] == ops[..j];
      assert IsLastLoad(s, ops, k);
    }
  }

  lemma OneMoreOp(s: State, op: Op)
    requires s.stored.Some? && s.loaded && !Loads(s, op)
    ensures var t := Step(s, op);
      && t.loaded
      && t.overrides == (if !Stores(op) then s.overrides
                         else Written(s.overrides, op.name, if op.Set? then Some(op.enabled) else None))
      && t.loadedAt == if Stores(op) then op.now else s.loadedAt
  {
  }

  lemma LoadsHere(s: State, op: Op)
    requires Loads(s, op)
    ensures op.Refresh? && s.stored.Some? && Step(s, op).loaded
    ensures Step(s, op).overrides == s.stored.value && Step(s, op).loadedAt == op.now
  {
  }

  lemma OwnAppend(rows: Rows, at: int, ops: seq<Op>, op: Op)
    ensures WithOwn(rows, []) == rows && LastStore(at, []) == at
    ensures WithOwn(rows, ops + [op])
         == (if Stores(op) then Written(WithOwn(rows, ops), op.name, if op.Set? then Some(op.enabled) else None)
             else WithOwn(rows, ops))
    ensures LastStore(at, ops + [op]) == if Stores(op) then op.now else LastStore(at, ops)
  {
    assert (ops + [op])[..|ops|] == ops;
  }

  /** After any run the cache is the table as it was at the last read with this
      replica's later writes applied, and it counts as loaded when the last of
      them was made. */
  lemma {:induction false} SnapshotIs(s: State, ops: seq<Op>, k: nat)
    requires IsLastLoad(s, ops, k)
    ensures s.stored.Some? && Run(s, ops[..k]).stored.Some? && Run(s, ops).loaded
    ensures Run(s, ops).overrides == WithOwn(Run(s, ops[..k]).stored.value, ops[k + 1..])
    ensures Run(s, ops).loadedAt == LastStore(ops[k].now, ops[k + 1..])
    decreases |ops|
  {
    hide Run, Step, Loads, Stores, Written, WithOwn, LastStore;
    var n := |ops| - 1;
    var before, op := ops[..n], ops[n];
    assert before + [op] == ops;
    Appended(s, before, op);
    StoreStays(s, ops[..k]);
    StoreStays(s, before);
    LoadsHere(Run(s, ops[..k]), ops[k]);
    if k == n {
      OwnAppend(Run(s, before).stored.value, op.now, [], op);
      assert ops[k + 1..] == [];
    } else {
      NotLater(s, ops, k);
      SnapshotIs(s, before, k);
      OneMoreOp(Run(s, before), op);
      assert before[..k] == ops[..k];
      assert ops[k + 1..] == before[k + 1..] + [op];
      OwnAppend(Run(s, ops[..k]).stored.value, ops[k].now, before[k + 1..], op);
    }
  }

  lemma NotLater(s: State, ops: seq<Op>, k: nat)
    requires IsLastLoad(s, ops, k) && k < |ops| - 1
    ensures IsLastLoad(s, ops[..|ops| - 1], k) && !Loads(Run(s, ops[..|ops| - 1]), ops[|ops| - 1])
  {
    hide Run, Loads;
    assert forall j :: 0 <= j <= |ops| - 1 ==> ops[..|ops| - 1][..j] == ops[..j];
  }

  lemma {:induction false} NoneStored(rows: Rows, at: int, ops: seq<Op>)
    requires forall i :: 0 <= i < |ops| ==> !Stores(ops[i])
    ensures WithOwn(rows, ops) == rows && LastStore(at, ops) == at
    decreases |ops|
  {
    if ops != [] { NoneStored(rows, at, ops[..|ops| - 1]); }
  }

  /** The documented bound, that a snapshot in use was read less than the window
      ago: it holds after a run exactly when no write made here since the last
      read came at a later time than that read. */
  lemma StaleBound(s: State, ops: seq<Op>, k: nat)
    requires IsLastLoad(s, ops, k) && s.ttl > 0
    ensures (forall now :: IsFresh(Run(s, ops), now) ==> now - ops[k].now < s.ttl)
       <==> LastStore(ops[k].now, ops[k + 1..]) <= ops[k].now
  {
    SnapshotIs(s, ops, k);
    WindowStays(s, ops);
    hide Run, IsLastLoad, LastStore, WithOwn;
    var t := Run(s, ops);
    if LastStore(ops[k].now, ops[k + 1..]) > ops[k].now {
      assert IsFresh(t, t.loadedAt + s.ttl - 1);
    }
  }

  /** Without a write made here since the last read, a refresh that reports
      success leaves exactly the table as it was less than the window ago. */
  lemma CleanBound(s: State, ops: seq<Op>, k: nat, now: int, up: bool)
    requires var all := ops + [Refresh(now, up)];
      IsLastLoad(s, all, k) && forall i :: k < i < |ops| ==> !Stores(ops[i])
    requires s.ttl > 0 && (IsFresh(Run(s, ops), now) || (up && Asks(Run(s, ops), now)))
    ensures var all := ops + [Refresh(now, up)];
      && Run(s, all[..k]).stored == Some(Run(s, all).overrides)
      && now - all[k].now < s.ttl
  {
    var all := ops + [Refresh(now, up)];
    SnapshotIs(s, all, k);
    WindowStays(s, ops);
    NoneStored(Run(s, all[..k]).stored.value, all[k].now, all[k + 1..]);
    Appended(s, ops, Refresh(now, up));
    FreshAfter(Run(s, ops), now, up);
    hide Run, IsLastLoad, LastStore, WithOwn, Stores, Step, IsFresh, Asks;
  }

  lemma FreshAfter(s: State, now: int, up: bool)
    requires s.ttl > 0 && (IsFresh(s, now) || (up && Asks(s, now)))
    ensures now - Step(s, Refresh(now, up)).loadedAt < s.ttl
  {
  }

  lemma Appended(s: State, ops: seq<Op>, op: Op)
    ensures Run(s, ops + [op]) == Step(Run(s, ops), op)
  {
    assert (ops + [op])[..|ops|] == ops;
  }

  /** The op asks the store for the table, successfully or not. */
  predicate AsksAt(s: State, ops: seq<Op>, i: nat) {
    i < |ops| && ops[i].Refresh? && Asks(Run(s, ops[..i]), ops[i].now)
  }

  /** No op from i on, before j, asks. */
  predicate Quiet(s: State, ops: seq<Op>, i: nat, j: nat) { forall k: nat :: i <= k < j ==> !AsksAt(s, ops, k) }

  lemma AsksBefore(s: State, ops: seq<Op>, n: nat, i: nat)
    requires n <= |ops|
    ensures forall k: nat :: k < n ==> AsksAt(s, ops[..n], k) == AsksAt(s, ops, k)
    ensures Quiet(s, ops, i, n) ==> Quiet(s, ops[..n], i, n)
  {
    hide Run, Asks;
    forall k: nat | k < n ensures AsksAt(s, ops[..n], k) == AsksAt(s, ops, k) {
      assert ops[..n][..k] == ops[..k];
    }
    hide AsksAt;
  }

  lemma {:induction false} StaysFailed(s: State, ops: seq<Op>, i: nat)
    requires AsksAt(s, ops, i) && !ops[i].up && Quiet(s, ops, i + 1, |ops|)
    ensures Run(s, ops).failed && Run(s, ops).failedAt == ops[i].now
    decreases |ops|
  {
    var n := |ops| - 1;
    assert ops[..n] + [ops[n]] == ops;
    Appended(s, ops[..n], ops[n]);
    hide Asks, Run;
    if i < n {
      assert Quiet(s, ops, i + 1, n);
      AsksBefore(s, ops, n, i + 1);
      StaysFailed(s, ops[..n], i);
      assert !AsksAt(s, ops, n);
      NotAsked(Run(s, ops[..n]), ops[n]);
    }
  }

  lemma NotAsked(s: State, op: Op)
    requires !(op.Refresh? && Asks(s, op.now))
    ensures Step(s, op).failed == s.failed && Step(s, op).failedAt == s.failedAt
  {}

  lemma LastToAsk(s: State, ops: seq<Op>, i: nat)
    requires AsksAt(s, ops, i) && ops[i].up && Quiet(s, ops, i + 1, |ops|)
    ensures IsLastLoad(s, ops, i)
  {
    hide Asks, Run;
    forall k | i < k < |ops| ensures !Loads(Run(s, ops[..k]), ops[k]) { assert !AsksAt(s, ops, k); }
  }

  /** The store is asked at most once every two seconds while it fails, and once it
      has answered not again before the window has passed since the last write
      made here. */
  lemma AsksSpaced(rows: Rows, ops: seq<Op>, i: nat, j: nat)
    requires var start := Start(Some(rows));
      i < j && AsksAt(start, ops, i) && AsksAt(start, ops, j) && Quiet(start, ops, i + 1, j)
    ensures !ops[i].up ==> ops[j].now - ops[i].now >= 2_000
    ensures ops[i].up ==> ops[j].now - LastStore(ops[i].now, ops[i + 1..j]) >= 10_000
  {
    var start, before := Start(Some(rows)), ops[..j];
    AsksBefore(start, ops, j, i + 1);
    AskedThen(start, ops, j);
    WindowStays(start, before);
    hide Run, LastStore, Quiet, AsksAt, IsLastLoad;
    if ops[i].up {
      LastToAsk(start, before, i);
      SnapshotIs(start, before, i);
      assert before[i + 1..] == ops[i + 1..j];
    } else {
      StaysFailed(start, before, i);
    }
  }

  lemma AskedThen(s: State, ops: seq<Op>, j: nat)
    requires AsksAt(s, ops, j)
    ensures j < |ops| && ops[j].Refresh? && Asks(Run(s, ops[..j]), ops[j].now)
  {}

  /** Write `other` and refresh, every five seconds from `at` on. */
  function BusyWriter(other: string, at: int, n: nat): seq<Op>
    decreases n
  {
    if n == 0 then []
    else BusyWriter(other, at, n - 1)
         + [Set(other, true, at + 5_000 * n, true), Refresh(at + 5_000 * n, true)]
  }

  /** Another replica has switched `name` off and this one has not noticed. */
  predicate Unnoticed(s: State, name: string, at: int) {
    && s.stored.Some? && name in s.stored.value && !s.stored.value[name]
    && name !in s.overrides
    && s.loaded && s.loadedAt == at && s.ttl == CACHE_TTL && !s.failed
  }

  lemma StaysUnnoticed(s: State, name: string, other: string, at: int)
    requires name != other && Unnoticed(s, name, at - 5_000)
    ensures Unnoticed(Step(Step(s, Set(other, true, at, true)), Refresh(at, true)), name, at)
  {
  }

  /** A write here restarts the window without reading, so a replica that keeps
      writing never sees another one's kill switch, however long it runs. */
  lemma {:induction false} WritesPostponeReading(name: string, other: string, n: nat)
    requires name != other
    ensures var ops := [Refresh(0, true), Remote(name, Some(false))] + BusyWriter(other, 0, n);
      var s := Run(Start(Some(map[])), ops);
      Unnoticed(s, name, 5_000 * n) && Enabled(s, Entry(name, true))
    decreases n
  {
    var start := Start(Some(map[]));
    var head := [Refresh(0, true), Remote(name, Some(false))];
    hide Run;
    if n == 0 {
      assert head + BusyWriter(other, 0, 0) == [] + [head[0]] + [head[1]];
      Appended(start, [], head[0]);
      Appended(start, [] + [head[0]], head[1]);
      NotRun(start);
    } else {
      WritesPostponeReading(name, other, n - 1);
      var before := head + BusyWriter(other, 0, n - 1);
      var at := 5_000 * n;
      var set', refresh := Set(other, true, at, true), Refresh(at, true);
      assert BusyWriter(other, 0, n) == BusyWriter(other, 0, n - 1) + [set', refresh];
      assert head + BusyWriter(other, 0, n) == before + [set'] + [refresh];
      StaysUnnoticed(Run(start, before), name, other, at);
      Appended(start, before, set');
      Appended(start, before + [set'], refresh);
      hide BusyWriter, Step;
    }
  }

  lemma NotRun(s: State)
    ensures Run(s, []) == s
  {
  }
}
