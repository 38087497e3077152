/** Event publishing (apps/ai-service/internal/events/publisher.go): a bounded
    queue, one worker and a ring buffer behind both. The encoder, the broker and
    the interleaving of callers and worker are choices of the environment; a
    step below is atomic. */
module Publisher {
  import opened Common
  import opened Sequences

  const QUEUE_CAPACITY := 1000
  const RING_CAPACITY := 1000

  datatype Outcome = EncodeFailed | Acked | PublishFailed

  datatype Action<E> = Publish(event: E) | Take | Dispatch(outcome: Outcome) | Close | Stop

  // ----- The ring

  function Newest<E>(s: seq<E>, n: nat): (r: seq<E>) {
    if |s| <= n then s else s[|s| - n..]
  }

  class Ring<E> {
    var items: seq<E>
    const capacity: int
    ghost var sent: seq<E>

    ghost predicate Valid()
      reads this
    {
      capacity > 0 && items == Newest(sent, capacity)
    }

    constructor (capacity: int)
      ensures Valid() && items == [] && sent == []
      ensures this.capacity == if capacity <= 0 then 1000 else capacity
    {
      this.capacity := if capacity <= 0 then RING_CAPACITY else capacity;
      items, sent := [], [];
    }

    /** The ring holds the newest of all events sent to it, in order. */
    method Publish(e: E)
      requires Valid()
      modifies this
      ensures Valid() && sent == old(sent) + [e]
      ensures |items| == (if |sent| < capacity then |sent| else capacity) && items == sent[|sent| - |items|..]
    {
      if |items| >= capacity {
        items := items[1..];
      }
      items := items + [e];
      sent := sent + [e];
    }
  }

  // ----- Queue, worker and ring together

  /** `settled` are the events the worker is done with, in the order taken,
      and `sent` the events given to the ring; both only record. */
  datatype State<E> = State(queue: seq<E>, inFlight: Option<E>, settled: seq<(E, Outcome)>, sent: seq<E>,
                            failures: nat, closing: bool, stopped: bool)

  function Start<E>(): State<E> { State([], None, [], [], 0, false, false) }

  predicate Possible<E>(s: State<E>, a: Action<E>) {
    match a
    case Publish(_) => true
    case Take => !s.stopped && s.inFlight.None? && |s.queue| > 0
    case Dispatch(_) => s.inFlight.Some?
    case Close => !s.closing
    case Stop => s.closing && !s.stopped && s.inFlight.None?
  }

  function ToRing<E>(s: State<E>, e: E): State<E> {
    s.(sent := s.sent + [e], failures := s.failures + 1)
  }

  function Step<E>(s: State<E>, a: Action<E>): State<E>
    requires Possible(s, a)
  {
    match a
    case Publish(e) => if |s.queue| < QUEUE_CAPACITY then s.(queue := s.queue + [e]) else ToRing(s, e)
    case Take => s.(queue := s.queue[1..], inFlight := Some(s.queue[0]))
    case Dispatch(outcome) =>
      var e := s.inFlight.value;
      var done := s.(inFlight := None, settled := s.settled + [(e, outcome)]);
      if outcome == PublishFailed then ToRing(done, e) else done
    case Close => s.(closing := true)
    case Stop => s.(stopped := true)
  }

  class NatsPublisher<E> {
    var queue: seq<E>
    var inFlight: Option<E>
    const buffer: Ring<E>
    var failures: nat
    var closing: bool
    var stopped: bool
    ghost var settled: seq<(E, Outcome)>

    ghost predicate Valid()
      reads this, buffer
    {
      buffer.Valid() && buffer.capacity == RING_CAPACITY
    }

    ghost function Now(): State<E>
      reads this, buffer
    {
      State(queue, inFlight, settled, buffer.sent, failures, closing, stopped)
    }

    constructor ()
      ensures Valid() && Now() == Start() && fresh(buffer)
    {
      queue, inFlight, failures, closing, stopped, settled := [], None, 0, false, false, [];
      buffer := new Ring(RING_CAPACITY);
    }

    /** A full queue sends the event to the ring instead. */
    method Publish(e: E)
      requires Valid()
      modifies this, buffer
      ensures Valid() && Now() == Step(old(Now()), Action.Publish(e))
    {
      hide Newest;
      if |queue| < QUEUE_CAPACITY {
        queue := queue + [e];
      } else {
        failures := failures + 1;
        buffer.Publish(e);
      }
    }

    method Take()
      requires Valid() && Possible(Now(), Action.Take)
      modifies this
      ensures Valid() && Now() == Step(old(Now()), Action.Take)
    {
      inFlight := Some(queue[0]);
      queue := queue[1..];
    }

    method Dispatch(outcome: Outcome)
      requires Valid() && Possible(Now(), Action.Dispatch(outcome))
      modifies this, buffer
      ensures Valid() && Now() == Step(old(Now()), Action.Dispatch(outcome))
    {
      hide Newest;
      var item := inFlight.value;
      inFlight := None;
      settled := settled + [(item, outcome)];
      match outcome
      case EncodeFailed => return;
      case Acked => return;
      case PublishFailed =>
        failures := failures + 1;
        buffer.Publish(item);
    }

    method Close()
      requires Valid() && Possible(Now(), Action.Close)
      modifies this
      ensures Valid() && Now() == Step(old(Now()), Action.Close)
    {
      closing := true;
    }

    method Stop()
      requires Valid() && Possible(Now(), Action.Stop)
      modifies this
      ensures Valid() && Now() == Step(old(Now()), Action.Stop)
    {
      stopped := true;
    }
  }

  // ----- Whole runs

  /** The state after some steps, None when one was not possible. */
  function Play<E>(actions: seq<Action<E>>): Option<State<E>>
    decreases |actions|
  {
    if |actions| == 0 then Some(Start())
    else
      var last := actions[|actions| - 1];
      match Play(actions[..|actions| - 1])
      case None => None
      case Some(s) => if Possible(s, last) then Some(Step(s, last)) else None
  }

  /** The events the queue took, in the order they were published. */
  function Accepted<E>(actions: seq<Action<E>>): seq<E>
    decreases |actions|
  {
    if |actions| == 0 then []
    else
      var last := actions[|actions| - 1];
      var before := Play(actions[..|actions| - 1]);
      Accepted(actions[..|actions| - 1])
      + if last.Publish? && before.Some? && |before.value.queue| < 1000 then [last.event] else []
  }

  function Published<E>(actions: seq<Action<E>>): seq<E>
    decreases |actions|
  {
    if |actions| == 0 then []
    else
      var last := actions[|actions| - 1];
      Published(actions[..|actions| - 1]) + if last.Publish? then [last.event] else []
  }

  /** The settled events with an outcome, in the order taken. */
  function Settled<E>(settled: seq<(E, Outcome)>, outcome: Outcome): seq<E>
    decreases |settled|
  {
    if |settled| == 0 then []
    else
      var last := settled[|settled| - 1];
      Settled(settled[..|settled| - 1], outcome) + if last.1 == outcome then [last.0] else []
  }

  function InFlight<E>(s: State<E>): seq<E> { if s.inFlight.Some? then [s.inFlight.value] else [] }

  function Held<E>(s: State<E>): seq<E> { Newest(s.sent, RING_CAPACITY) }

  function Evicted<E>(s: State<E>): seq<E> { s.sent[..|s.sent| - |Held(s)|] }

  /** Everywhere an event can be. */
  function Places<E>(s: State<E>): seq<E> {
    s.queue + InFlight(s) + Settled(s.settled, Acked) + Settled(s.settled, EncodeFailed) + Held(s) + Evicted(s)
  }

  function Firsts<E>(settled: seq<(E, Outcome)>): seq<E> {
    seq(|settled|, i requires 0 <= i < |settled| => settled[i].0)
  }

  /** All events the queue ever accepted, oldest first. */
  function Queued<E>(s: State<E>): seq<E> { Firsts(s.settled) + InFlight(s) + s.queue }

  lemma SettledGrows<E>(settled: seq<(E, Outcome)>, e: E, outcome: Outcome, kind: Outcome)
    ensures Settled(settled + [(e, outcome)], kind) == Settled(settled, kind) + if outcome == kind then [e] else []
  {
    assert (settled + [(e, outcome)])[..|settled|] == settled;
  }

  function Copies<E(==)>(q: seq<E>, x: E): nat { multiset(q)[x] }

  lemma CopiesAdd<E>(a: seq<E>, b: seq<E>, x: E)
    ensures Copies(a + b, x) == Copies(a, x) + Copies(b, x)
    ensures Copies([x], x) == 1 && (forall e :: e != x ==> Copies([e], x) == 0)
    ensures Copies<E>([], x) == 0
  {
  }

  lemma SameCopies<E(!new)>(a: seq<E>, b: seq<E>)
    requires forall x :: Copies(a, x) == Copies(b, x)
    ensures multiset(a) == multiset(b)
  {
    forall x: E ensures multiset(a)[x] == multiset(b)[x] { assert Copies(a, x) == Copies(b, x); }
  }

  /** How often an event is to be found, over all places. */
  function Found<E(==)>(s: State<E>, x: E): nat {
    Copies(s.queue, x) + Copies(InFlight(s), x) + Copies(Settled(s.settled, Acked), x)
    + Copies(Settled(s.settled, EncodeFailed), x) + Copies(s.sent, x)
  }

  lemma FoundIsCopies<E>(s: State<E>, x: E)
    ensures Copies(Places(s), x) == Found(s, x)
  {
    assert s.sent == Evicted(s) + Held(s);
    hide Copies, Held, Evicted, Settled, InFlight;
    CopiesAdd(Evicted(s), Held(s), x);
    var a, b := s.queue + InFlight(s), Settled(s.settled, Acked);
    var c := Settled(s.settled, EncodeFailed);
    CopiesAdd(s.queue, InFlight(s), x);
    CopiesAdd(a, b, x);
    CopiesAdd(a + b, c, x);
    CopiesAdd(a + b + c, Held(s), x);
    CopiesAdd(a + b + c + Held(s), Evicted(s), x);
  }

  lemma DispatchConserves<E>(s: State<E>, outcome: Outcome, x: E)
    requires s.inFlight.Some?
    ensures Found(Step(s, Action.Dispatch(outcome)), x) == Found(s, x)
  {
    hide Settled, Copies;
    var e := s.inFlight.value;
    SettledGrows(s.settled, e, outcome, Acked);
    SettledGrows(s.settled, e, outcome, EncodeFailed);
    CopiesAdd(s.sent, [e], x);
    CopiesAdd(Settled(s.settled, Acked), [e], x);
    CopiesAdd(Settled(s.settled, EncodeFailed), [e], x);
    assert forall q: seq<E> :: q + [] == q;
  }

  /** A step moves an event from one place to another; only publishing adds one. */
  lemma StepConserves<E>(s: State<E>, a: Action<E>, x: E)
    requires Possible(s, a)
    ensures Found(Step(s, a), x) == Found(s, x) + if a.Publish? then Copies([a.event], x) else 0
  {
    hide Settled, Copies;
    match a
    case Publish(e) =>
      CopiesAdd(s.queue, [e], x);
      CopiesAdd(s.sent, [e], x);
    case Take =>
      assert s.queue == [s.queue[0]] + s.queue[1..];
      CopiesAdd([s.queue[0]], s.queue[1..], x);
    case Dispatch(outcome) => DispatchConserves(s, outcome, x);
    case Close =>
    case Stop =>
  }

  lemma {:induction false} RunConserves<E>(actions: seq<Action<E>>, x: E)
    requires Play(actions).Some?
    ensures Found(Play(actions).value, x) == Copies(Published(actions), x)
    decreases |actions|
  {
    if |actions| > 0 {
      var n := |actions| - 1;
      RunConserves(actions[..n], x);
      StepConserves(Play(actions[..n]).value, actions[n], x);
      hide Found, Step, Possible, Copies;
      var last := actions[n];
      if last.Publish? { CopiesAdd(Published(actions[..n]), [last.event], x); }
      else { assert Published(actions) == Published(actions[..n]) + []; }
    }
  }

  /** In every reachable state each published event is in exactly one place:
      queued, in flight, acknowledged, lost to the encoder, held by the ring, or
      evicted from it; so none is acknowledged twice. */
  lemma EachInOnePlace<E(!new)>(actions: seq<Action<E>>)
    requires Play(actions).Some?
    ensures multiset(Places(Play(actions).value)) == multiset(Published(actions))
    ensures Distinct(Published(actions)) ==> Distinct(Places(Play(actions).value))
  {
    hide Play, Places, Published, Found, Distinct;
    forall x: E ensures Copies(Places(Play(actions).value), x) == Copies(Published(actions), x) {
      RunConserves(actions, x);
      FoundIsCopies(Play(actions).value, x);
    }
    SameCopies(Places(Play(actions).value), Published(actions));
    if Distinct(Published(actions)) { DistinctMultiset(Published(actions), Places(Play(actions).value)); }
  }

  lemma StepQueues<E>(s: State<E>, a: Action<E>)
    requires Possible(s, a)
    ensures Queued(Step(s, a))
         == Queued(s) + if a.Publish? && |s.queue| < QUEUE_CAPACITY then [a.event] else []
  {
    hide Firsts;
    var done, flying := Firsts(s.settled), InFlight(s);
    match a
    case Publish(e) => Joined(done + flying, s.queue, [e]);
    case Take =>
      assert s.queue == [s.queue[0]] + s.queue[1..] && done + [] == done;
      Joined(done, [s.queue[0]], s.queue[1..]);
    case Dispatch(outcome) =>
      FirstsGrow(s.settled, s.inFlight.value, outcome);
      assert done + flying + [] == done + flying;
    case Close =>
    case Stop =>
  }

  lemma FirstsGrow<E>(settled: seq<(E, Outcome)>, e: E, outcome: Outcome)
    ensures Firsts(settled + [(e, outcome)]) == Firsts(settled) + [e]
  {}

  lemma Joined<T>(a: seq<T>, b: seq<T>, c: seq<T>)
    ensures a + (b + c) == a + b + c && a + b + [] == a + b
  {}

  /** Settled, in-flight and queued events, in that order, are the accepted ones. */
  lemma {:induction false} QueueIsFifo<E>(actions: seq<Action<E>>)
    requires Play(actions).Some?
    ensures Queued(Play(actions).value) == Accepted(actions)
    decreases |actions|
  {
    if |actions| > 0 {
      var n := |actions| - 1;
      QueueIsFifo(actions[..n]);
      StepQueues(Play(actions[..n]).value, actions[n]);
    }
  }

  lemma WithinGrows<T>(a: seq<T>, b: seq<T>, x: T)
    requires Within(a, b)
    ensures Within(a, b + [x]) && Within(a + [x], b + [x])
  {
    assert (b + [x])[..|b|] == b && (a + [x])[..|a|] == a;
  }

  lemma {:induction false} SettledWithin<E>(settled: seq<(E, Outcome)>, outcome: Outcome)
    ensures Within(Settled(settled, outcome), Firsts(settled))
    decreases |settled|
  {
    if |settled| > 0 {
      var n := |settled| - 1;
      SettledWithin(settled[..n], outcome);
      assert Firsts(settled) == Firsts(settled[..n]) + [settled[n].0];
      hide Within;
      var kept := Settled(settled[..n], outcome);
      assert kept + [] == kept;
      WithinGrows(kept, Firsts(settled[..n]), settled[n].0);
    }
  }

  lemma {:induction false} WithinLonger<T>(a: seq<T>, b: seq<T>, more: seq<T>)
    requires Within(a, b)
    ensures Within(a, b + more)
    decreases |more|
  {
    if |more| == 0 {
      assert b + more == b;
    } else {
      WithinLonger(a, b, more[..|more| - 1]);
      assert (b + more)[..|b + more| - 1] == b + more[..|more| - 1];
    }
  }

  /** Acknowledged events keep the order in which the queue accepted them. */
  lemma AckedInOrder<E>(actions: seq<Action<E>>)
    requires Play(actions).Some?
    ensures Within(Settled(Play(actions).value.settled, Acked), Accepted(actions))
  {
    hide Play, Within, Settled, Accepted, Firsts, InFlight;
    var s := Play(actions).value;
    QueueIsFifo(actions);
    SettledWithin(s.settled, Acked);
    WithinLonger(Settled(s.settled, Acked), Firsts(s.settled), InFlight(s) + s.queue);
    assert Queued(s) == Firsts(s.settled) + (InFlight(s) + s.queue);
  }

  /** The queue and the ring stay bounded, and every event sent to the ring is
      reported as a failure. */
  lemma {:induction false} RunBounded<E>(actions: seq<Action<E>>)
    requires Play(actions).Some?
    ensures var s := Play(actions).value;
      && |s.queue| <= 1000 && s.failures == |s.sent|
      && |Held(s)| == (if |s.sent| < 1000 then |s.sent| else 1000)
      && Held(s) == s.sent[|s.sent| - |Held(s)|..]
    decreases |actions|
  {
    if |actions| > 0 { RunBounded(actions[..|actions| - 1]); }
  }

  lemma SentStep<E>(s: State<E>, a: Action<E>, x: E)
    requires Possible(s, a)
    ensures Copies(Step(s, a).sent, x) - Copies(s.sent, x)
         == (if a.Publish? && |s.queue| >= 1000 then Copies([a.event], x) else 0)
            + Copies(Settled(Step(s, a).settled, PublishFailed), x) - Copies(Settled(s.settled, PublishFailed), x)
  {
    hide Copies, Settled;
    match a
    case Publish(e) => CopiesAdd(s.sent, [e], x);
    case Dispatch(outcome) =>
      var e := s.inFlight.value;
      SettledGrows(s.settled, e, outcome, PublishFailed);
      CopiesAdd(Settled(s.settled, PublishFailed), if outcome == PublishFailed then [e] else [], x);
      CopiesAdd(s.sent, [e], x);
    case Take =>
    case Close =>
    case Stop =>
  }

  /** The ring was sent the events published while the queue was full and those
      the broker refused, each once, and no others. */
  lemma {:induction false} SentExactly<E>(actions: seq<Action<E>>, x: E)
    requires Play(actions).Some?
    ensures var s := Play(actions).value;
      Copies(s.sent, x)
      == Copies(Published(actions), x) - Copies(Accepted(actions), x) + Copies(Settled(s.settled, PublishFailed), x)
    decreases |actions|
  {
    hide Copies, Settled, Step, Possible;
    if |actions| > 0 {
      var n := |actions| - 1;
      SentExactly(actions[..n], x);
      SentStep(Play(actions[..n]).value, actions[n], x);
      PublishedStep(actions, x);
      hide Published, Accepted;
    } else {
      NothingSent<E>(x);
    }
  }

  lemma NothingSent<E>(x: E)
    ensures Copies<E>([], x) == 0 && Settled<E>([], PublishFailed) == []
  {}

  lemma PublishedStep<E>(actions: seq<Action<E>>, x: E)
    requires |actions| > 0 && Play(actions).Some?
    ensures var n := |actions| - 1;
      var a := actions[n];
      && Play(actions[..n]).Some?
      && Copies(Published(actions), x) - Copies(Published(actions[..n]), x) == (if a.Publish? then Copies([a.event], x) else 0)
      && Copies(Accepted(actions), x) - Copies(Accepted(actions[..n]), x)
         == (if a.Publish? && |Play(actions[..n]).value.queue| < 1000 then Copies([a.event], x) else 0)
  {
    hide Copies, Step, Possible;
    var n := |actions| - 1;
    var a := actions[n];
    var p, q := Published(actions[..n]), Accepted(actions[..n]);
    NothingSent<E>(x);
    if a.Publish? {
      CopiesAdd(p, [a.event], x);
      CopiesAdd(q, [a.event], x);
    }
    CopiesAdd(p, [], x);
    CopiesAdd(q, [], x);
  }

  /** Once the worker has stopped, what it had settled is final and the queue
      only grows: events left in it are never delivered nor sent to the ring. */
  lemma {:induction false} StoppedForGood<E>(actions: seq<Action<E>>, more: seq<Action<E>>)
    requires Play(actions).Some? && Play(actions).value.stopped && Play(actions + more).Some?
    ensures var s, t := Play(actions).value, Play(actions + more).value;
      t.stopped && t.settled == s.settled && s.queue <= t.queue && (s.inFlight.None? ==> t.inFlight.None?)
    decreases |more|
  {
    if |more| == 0 {
      assert actions + more == actions;
    } else {
      var n := |more| - 1;
      assert (actions + more)[..|actions| + n] == actions + more[..n];
      StopIsIdle(actions);
      StoppedForGood(actions, more[..n]);
    }
  }

  /** The worker only stops between events, and only when it was told to. */
  lemma {:induction false} StopIsIdle<E>(actions: seq<Action<E>>)
    requires Play(actions).Some? && Play(actions).value.stopped
    ensures Play(actions).value.inFlight.None? && Play(actions).value.closing
    decreases |actions|
  {
    if |actions| > 0 && Play(actions[..|actions| - 1]).value.stopped {
      StopIsIdle(actions[..|actions| - 1]);
    }
  }
}
