/** The in-process rate limiter: one token bucket a key, refilled per minute
    (apps/ai-service/internal/handler/ratelimit.go). Times are minutes on a
    real line, in place of float64 and the wall clock. */
module RateLimit {
  datatype Bucket = Bucket(tokens: real, lastFill: real, perMinute: real)

  datatype Call = Call(key: string, perMinute: int, now: real)

  type Buckets = map<string, Bucket>

  const DEFAULT_LIMIT := 30
  const MAX_BUCKETS := 10_000

  function Limit(fallback: int, perMinute: int): int {
    if perMinute <= 0 then fallback else perMinute
  }

  function Min(a: real, b: real): real { if a <= b then a else b }

  /** Tokens gained in some minutes. */
  function Gain(perMinute: real, minutes: real): real { perMinute * minutes }

  function Refill(b: Bucket, now: real): Bucket {
    Bucket(Min(b.tokens + Gain(b.perMinute, now - b.lastFill), b.perMinute), now, b.perMinute)
  }

  predicate Admits(b: Bucket, now: real) { Refill(b, now).tokens >= 1.0 }

  function Take(b: Bucket, now: real): Bucket {
    var full := Refill(b, now);
    if Admits(b, now) then full.(tokens := full.tokens - 1.0) else full
  }

  /** A new key's bucket is full and its first request costs nothing. */
  function Fresh(limit: int, now: real): Bucket { Bucket(limit as real, now, limit as real) }

  predicate Resets(buckets: Buckets, call: Call) {
    call.key != "" && call.key !in buckets && |buckets| > MAX_BUCKETS
  }

  predicate Passes(buckets: Buckets, call: Call) {
    call.key in buckets && call.key != "" ==> Admits(buckets[call.key], call.now)
  }

  function After(buckets: Buckets, fallback: int, call: Call): Buckets {
    if call.key == "" then buckets
    else if call.key in buckets then buckets[call.key := Take(buckets[call.key], call.now)]
    else (if |buckets| > MAX_BUCKETS then map[] else buckets)[call.key := Fresh(Limit(fallback, call.perMinute), call.now)]
  }

  class RateLimiter {
    var buckets: Buckets
    const limit: int

    constructor (perMinute: int)
      ensures buckets == map[] && limit == if perMinute <= 0 then 30 else perMinute
    {
      limit := if perMinute <= 0 then DEFAULT_LIMIT else perMinute;
      buckets := map[];
    }

    method Allow(key: string, perMinute: int, now: real) returns (ok: bool)
      modifies this
      ensures ok == Passes(old(buckets), Call(key, perMinute, now))
      ensures buckets == After(old(buckets), limit, Call(key, perMinute, now))
      ensures key == "" ==> ok && buckets == old(buckets)
      ensures key != "" && key !in old(buckets) ==>
        var budget := (if perMinute <= 0 then limit else perMinute) as real;
        ok && buckets == (if |old(buckets)| > 10_000 then map[] else old(buckets))[key := Bucket(budget, now, budget)]
    {
      if key == "" {
        return true;
      }
      var budget := perMinute;
      if budget <= 0 {
        budget := limit;
      }
      if key !in buckets {
        if |buckets| > MAX_BUCKETS {
          buckets := map[];
        }
        buckets := buckets[key := Bucket(budget as real, now, budget as real)];
        return true;
      }
      var bucket := buckets[key];
      var elapsed := now - bucket.lastFill;
      bucket := bucket.(tokens := bucket.tokens + Gain(bucket.perMinute, elapsed));
      if bucket.tokens > bucket.perMinute {
        bucket := bucket.(tokens := bucket.perMinute);
      }
      bucket := bucket.(lastFill := now);
      if bucket.tokens < 1.0 {
        buckets := buckets[key := bucket];
        return false;
      }
      bucket := bucket.(tokens := bucket.tokens - 1.0);
      buckets := buckets[key := bucket];
      return true;
    }
  }

  // ----- The requests of one key

  /** The bucket after the requests at times[0..n], the first of which made it. */
  function Served(limit: int, times: seq<real>, n: nat): (b: Bucket)
    requires n < |times|
    ensures b.lastFill == times[n] && b.perMinute == limit as real
  {
    if n == 0 then Fresh(limit, times[0]) else Take(Served(limit, times, n - 1), times[n])
  }

  predicate Admitted(limit: int, times: seq<real>, n: nat)
    requires n < |times|
  {
    n == 0 || Admits(Served(limit, times, n - 1), times[n])
  }

  /** Tokens in the bucket when request n is decided. */
  function Level(limit: int, times: seq<real>, n: nat): real
    requires n < |times|
  {
    if n == 0 then limit as real else Refill(Served(limit, times, n - 1), times[n]).tokens
  }

  /** Tokens spent on the requests from j to before n; the first spends none. */
  function Spent(limit: int, times: seq<real>, j: nat, n: nat): (k: nat)
    requires j <= n <= |times|
    decreases n - j
  {
    if j == n then 0
    else Spent(limit, times, j, n - 1) + if n - 1 > 0 && Admitted(limit, times, n - 1) then 1 else 0
  }

  /** What request n may draw on, counting from request j on. */
  function Room(limit: int, times: seq<real>, j: nat, n: nat): real
    requires j <= n < |times|
  {
    limit as real + Gain(limit as real, times[n] - times[j]) - Spent(limit, times, j, n) as real
  }

  lemma GainAdds(perMinute: real, a: real, b: real)
    ensures Gain(perMinute, a + b) == Gain(perMinute, a) + Gain(perMinute, b)
    ensures Gain(perMinute, 0.0) == 0.0
  {
  }

  lemma GainMonotone(perMinute: real, a: real, b: real)
    requires perMinute >= 0.0 && a <= b
    ensures Gain(perMinute, a) <= Gain(perMinute, b)
    ensures a >= 0.0 ==> Gain(perMinute, a) >= 0.0
  {
  }

  lemma LevelStep(limit: int, times: seq<real>, n: nat)
    requires 0 < n < |times|
    ensures Level(limit, times, n)
         == Min(limit as real,
                Level(limit, times, n - 1) - Spent(limit, times, n - 1, n) as real
                + Gain(limit as real, times[n] - times[n - 1]))
  {
    hide Gain;
    assert Spent(limit, times, n - 1, n - 1) == 0;
  }

  /** Room counted from j goes down by what is spent and up with time. */
  lemma RoomStep(limit: int, times: seq<real>, j: nat, n: nat)
    requires j < n < |times|
    ensures Room(limit, times, j, n)
         == Room(limit, times, j, n - 1) - Spent(limit, times, n - 1, n) as real
            + Gain(limit as real, times[n] - times[n - 1])
  {
    hide Gain;
    assert Spent(limit, times, n - 1, n - 1) == 0;
    GainAdds(limit as real, times[n - 1] - times[j], times[n] - times[n - 1]);
  }

  /** The bucket holds the least room over all windows ending now. */
  lemma {:induction false} LevelIsLeastRoom(limit: int, times: seq<real>, n: nat) returns (tight: nat)
    requires n < |times|
    ensures forall j :: 0 <= j <= n ==> Level(limit, times, n) <= Room(limit, times, j, n)
    ensures tight <= n && Level(limit, times, n) == Room(limit, times, tight, n)
    decreases n
  {
    hide Gain;
    GainAdds(limit as real, 0.0, 0.0);
    assert Room(limit, times, n, n) == limit as real;
    if n == 0 {
      tight := 0;
    } else {
      tight := LevelIsLeastRoom(limit, times, n - 1);
      LevelStep(limit, times, n);
      hide Level, Spent, Room;
      forall j | 0 <= j < n
        ensures Room(limit, times, j, n)
             == Room(limit, times, j, n - 1) - Spent(limit, times, n - 1, n) as real
                + Gain(limit as real, times[n] - times[n - 1])
      {
        RoomStep(limit, times, j, n);
      }
      if Level(limit, times, n) == limit as real { tight := n; }
    }
  }

  /** A request is admitted exactly when every window ending at it, from the
      bucket's making or from any request since, has room for one more. */
  lemma AdmittedExactly(limit: int, times: seq<real>, n: nat)
    requires 0 < n < |times|
    ensures Admitted(limit, times, n)
        <==> forall j :: 0 <= j <= n ==>
               Spent(limit, times, j, n) as real + 1.0 <= limit as real + limit as real * (times[n] - times[j])
  {
    AdmittedByGain(limit, times, n);
    forall j | 0 <= j <= n
      ensures Spent(limit, times, j, n) as real + 1.0 <= limit as real + limit as real * (times[n] - times[j])
        <==> Spent(limit, times, j, n) as real + 1.0 <= limit as real + Gain(limit as real, times[n] - times[j])
    {
      GainIs(limit as real, times[n] - times[j]);
    }
    hide Gain, Spent, Admitted;
  }

  lemma GainIs(perMinute: real, minutes: real)
    ensures Gain(perMinute, minutes) == perMinute * minutes
  {}

  lemma AdmittedByGain(limit: int, times: seq<real>, n: nat)
    requires 0 < n < |times|
    ensures Admitted(limit, times, n)
        <==> forall j :: 0 <= j <= n ==>
               Spent(limit, times, j, n) as real + 1.0
               <= limit as real + Gain(limit as real, times[n] - times[j])
  {
    hide Gain;
    var tight := LevelIsLeastRoom(limit, times, n);
    assert Admitted(limit, times, n) <==> Level(limit, times, n) >= 1.0;
    hide Level, Admitted, Spent;
    forall j | 0 <= j <= n
      ensures Room(limit, times, j, n) >= 1.0 <==>
        Spent(limit, times, j, n) as real + 1.0 <= limit as real + Gain(limit as real, times[n] - times[j])
    {
    }
    if !Admitted(limit, times, n) { assert Room(limit, times, tight, n) < 1.0; }
  }

  /** Admissions among the requests before n, the first included. */
  function Admissions(limit: int, times: seq<real>, n: nat): nat
    requires n <= |times|
  {
    if n == 0 then 0 else Admissions(limit, times, n - 1) + if Admitted(limit, times, n - 1) then 1 else 0
  }

  lemma {:induction false} AdmissionsAreSpent(limit: int, times: seq<real>, n: nat)
    requires 0 < n <= |times|
    ensures Admissions(limit, times, n) == 1 + Spent(limit, times, 0, n)
    decreases n
  {
    if n > 1 {
      AdmissionsAreSpent(limit, times, n - 1);
    } else {
      assert Admissions(limit, times, 0) == 0 && Spent(limit, times, 0, 0) == 0;
    }
  }

  /** In the t minutes from the first request at most 1 + limit + limit * t
      requests pass, whatever order their times come in. */
  lemma {:induction false} AdmissionsBounded(limit: int, times: seq<real>, n: nat, t: real)
    requires 0 < n <= |times| && limit >= 0 && t >= 0.0
    requires forall i :: 0 <= i < n ==> times[i] - times[0] <= t
    ensures Admissions(limit, times, n) as real <= 1.0 + limit as real + limit as real * t
    decreases n
  {
    GainIs(limit as real, t);
    hide Gain;
    if n == 1 {
      assert Admissions(limit, times, 0) == 0;
      GainMonotone(limit as real, 0.0, t);
      GainAdds(limit as real, 0.0, 0.0);
    } else {
      AdmissionsBounded(limit, times, n - 1, t);
      if Admitted(limit, times, n - 1) {
        AdmittedByGain(limit, times, n - 1);
        AdmissionsAreSpent(limit, times, n - 1);
        hide Admitted, Spent;
        GainMonotone(limit as real, times[n - 1] - times[0], t);
      }
    }
  }

  predicate Ordered(times: seq<real>) {
    forall i :: 0 < i < |times| ==> times[i - 1] <= times[i]
  }

  /** On a clock that does not run back the bucket stays between empty and full. */
  lemma {:induction false} TokensInRange(limit: int, times: seq<real>, n: nat)
    requires n < |times| && limit >= 0 && Ordered(times)
    ensures 0.0 <= Served(limit, times, n).tokens <= limit as real
    decreases n
  {
    hide Gain;
    if n > 0 {
      TokensInRange(limit, times, n - 1);
      assert times[n - 1] <= times[n];
      GainMonotone(limit as real, times[n] - times[n - 1], times[n] - times[n - 1]);
    }
  }

  /** A client that waits a token's worth between requests is never refused. */
  lemma SpacedNeverRefused(limit: int, times: seq<real>, n: nat)
    requires n < |times| && limit >= 1
    requires forall i :: 0 < i < |times| ==> 1.0 <= limit as real * (times[i] - times[i - 1])
    ensures Admitted(limit, times, n)
  {
    forall i | 0 < i < |times| ensures 1.0 <= Gain(limit as real, times[i] - times[i - 1]) {
      GainIs(limit as real, times[i] - times[i - 1]);
    }
    hide Gain;
    if n > 0 {
      forall i | 0 < i < |times| ensures times[i - 1] <= times[i] {
        if times[i - 1] > times[i] {
          GainMonotone(limit as real, times[i] - times[i - 1], 0.0);
          GainAdds(limit as real, 0.0, 0.0);
        }
      }
      TokensInRange(limit, times, n - 1);
    }
  }

  // ----- One key among many

  function Play(buckets: Buckets, fallback: int, calls: seq<Call>): Buckets
    decreases |calls|
  {
    if calls == [] then buckets
    else After(Play(buckets, fallback, calls[..|calls| - 1]), fallback, calls[|calls| - 1])
  }

  /** The times of a key's own calls, in order. */
  function TimesOf(calls: seq<Call>, key: string): seq<real>
    decreases |calls|
  {
    if calls == [] then []
    else
      var rest := TimesOf(calls[..|calls| - 1], key);
      if calls[|calls| - 1].key == key then rest + [calls[|calls| - 1].now] else rest
  }

  /** The budget of a key's first call, which its bucket keeps. */
  function BudgetOf(calls: seq<Call>, key: string, fallback: int): int
    requires |TimesOf(calls, key)| > 0
    decreases |calls|
  {
    if |TimesOf(calls[..|calls| - 1], key)| > 0 then BudgetOf(calls[..|calls| - 1], key, fallback)
    else Limit(fallback, calls[|calls| - 1].perMinute)
  }

  /** A key's first call gives its bucket its budget and its first time. */
  lemma {:induction false} FirstCallDecides(calls: seq<Call>, key: string, fallback: int, i: nat)
    requires i < |calls| && calls[i].key == key && forall h :: 0 <= h < i ==> calls[h].key != key
    ensures |TimesOf(calls, key)| > 0 && TimesOf(calls, key)[0] == calls[i].now
    ensures BudgetOf(calls, key, fallback) == if calls[i].perMinute <= 0 then fallback else calls[i].perMinute
    decreases |calls|
  {
    var n := |calls| - 1;
    if i < n {
      FirstCallDecides(calls[..n], key, fallback, i);
    } else {
      NoCallNoTime(calls[..n], key);
    }
  }

  lemma {:induction false} NoCallNoTime(calls: seq<Call>, key: string)
    requires forall h :: 0 <= h < |calls| ==> calls[h].key != key
    ensures TimesOf(calls, key) == []
    decreases |calls|
  {
    if calls != [] { NoCallNoTime(calls[..|calls| - 1], key); }
  }

  predicate NeverResets(fallback: int, calls: seq<Call>) {
    forall i :: 0 <= i < |calls| ==> !Resets(Play(map[], fallback, calls[..i]), calls[i])
  }

  lemma PlayMore(fallback: int, before: seq<Call>, call: Call, key: string)
    ensures Play(map[], fallback, before + [call]) == After(Play(map[], fallback, before), fallback, call)
    ensures TimesOf(before + [call], key)
         == if call.key == key then TimesOf(before, key) + [call.now] else TimesOf(before, key)
    ensures |TimesOf(before + [call], key)| > 0 ==>
      BudgetOf(before + [call], key, fallback)
      == if |TimesOf(before, key)| > 0 then BudgetOf(before, key, fallback) else Limit(fallback, call.perMinute)
  {
    hide After, Limit;
    assert (before + [call])[..|before|] == before;
  }

  lemma AfterKey(buckets: Buckets, fallback: int, call: Call, key: string)
    requires key != "" && !Resets(buckets, call)
    ensures var after := After(buckets, fallback, call);
      && (key in after <==> key in buckets || call.key == key)
      && (key in buckets && call.key != key ==> after[key] == buckets[key])
      && (key in buckets && call.key == key ==> after[key] == Take(buckets[key], call.now))
      && (key !in buckets && call.key == key ==> after[key] == Fresh(Limit(fallback, call.perMinute), call.now))
  {
    hide Take, Fresh, Limit;
  }

  lemma NeverResetsBefore(fallback: int, before: seq<Call>, call: Call)
    requires NeverResets(fallback, before + [call])
    ensures NeverResets(fallback, before) && !Resets(Play(map[], fallback, before), call)
  {
    hide Play, Resets;
    var calls := before + [call];
    forall i | 0 <= i < |before| ensures !Resets(Play(map[], fallback, before[..i]), before[i]) {
      assert before[..i] == calls[..i] && before[i] == calls[i];
    }
    assert calls[..|before|] == before && calls[|before|] == call;
  }

  /** While the table is not dropped, a key's bucket depends on its own calls
      only. */
  lemma {:induction false} KeysAreIndependent(fallback: int, calls: seq<Call>, key: string)
    requires key != "" && NeverResets(fallback, calls)
    ensures var times := TimesOf(calls, key);
      var buckets := Play(map[], fallback, calls);
      && (key in buckets <==> |times| > 0)
      && (|times| > 0 ==> buckets[key] == Served(BudgetOf(calls, key, fallback), times, |times| - 1))
    decreases |calls|
  {
    hide Served, Take, Fresh, After, Resets, NeverResets, Limit;
    if calls != [] {
      hide Play, TimesOf, BudgetOf;
      var before, call := calls[..|calls| - 1], calls[|calls| - 1];
      assert calls == before + [call];
      NeverResetsBefore(fallback, before, call);
      KeysAreIndependent(fallback, before, key);
      PlayMore(fallback, before, call, key);
      AfterKey(Play(map[], fallback, before), fallback, call, key);
      if call.key == key {
        ServedLonger(BudgetOf(calls, key, fallback), TimesOf(before, key), call.now);
      }
    }
  }

  lemma {:induction false} ServedPrefix(limit: int, shorter: seq<real>, longer: seq<real>, n: nat)
    requires n < |shorter| <= |longer| && forall i :: 0 <= i < |shorter| ==> longer[i] == shorter[i]
    ensures Served(limit, shorter, n) == Served(limit, longer, n)
    decreases n
  {
    hide Gain;
    if n > 0 { ServedPrefix(limit, shorter, longer, n - 1); }
  }

  lemma ServedLonger(limit: int, times: seq<real>, now: real)
    ensures Served(limit, times + [now], |times|)
         == if |times| == 0 then Fresh(limit, now) else Take(Served(limit, times, |times| - 1), now)
  {
    if |times| > 0 { ServedPrefix(limit, times, times + [now], |times| - 1); }
  }

  /** So the verdict on a key's next call is the verdict of its own history. */
  lemma VerdictIsOwn(fallback: int, calls: seq<Call>, call: Call)
    requires call.key != "" && NeverResets(fallback, calls)
    ensures var times := TimesOf(calls, call.key);
      Passes(Play(map[], fallback, calls), call)
      <==> |times| > 0 ==> Admitted(BudgetOf(calls, call.key, fallback), times + [call.now], |times|)
  {
    hide Gain, Play, TimesOf, BudgetOf, Served, NeverResets, Admits;
    KeysAreIndependent(fallback, calls, call.key);
    var times := TimesOf(calls, call.key);
    if |times| > 0 {
      ServedPrefix(BudgetOf(calls, call.key, fallback), times, times + [call.now], |times| - 1);
    }
  }
}
