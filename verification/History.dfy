/** Replaying a conversation within a byte budget
    (boundedHistory in apps/ai-service/internal/handler/agent.go). */
module History {
  import opened Utf8

  datatype Role = User | Assistant | OtherRole

  datatype Message = Message(role: Role, content: seq<Byte>)

  function AsciiByte(c: char): (b: Byte)
    ensures b < 0x80
  {
    if c as int < 0x80 then c as int else 0x3F
  }

  function Ascii(t: string): (s: seq<Byte>)
    ensures forall i :: 0 <= i < |s| ==> s[i] < 0x80
  {
    seq(|t|, i requires 0 <= i < |t| => AsciiByte(t[i]))
  }

  /** A line break and U+2026. */
  const ELLIPSIS: seq<Byte> := [0x0A, 0xE2, 0x80, 0xA6]

  function Mark(): seq<Byte> { ELLIPSIS + Ascii(" [truncated to fit the context budget]") }

  predicate Eligible(m: Message) { |m.content| > 0 && !m.role.OtherRole? }

  /** The message as replayed: whole, or the longest cut within its own budget
      and the mark. */
  ghost predicate Shown(m: Message, budget: nat, r: Message) {
    && r.role == m.role
    && if |m.content| <= budget then r.content == m.content
       else exists k: nat :: IsCut(m.content, budget, k) && k <= |m.content| && r.content == m.content[..k] + Mark()
  }

  function Size(ms: seq<Message>): nat
    decreases |ms|
  {
    if |ms| == 0 then 0 else Size(ms[..|ms| - 1]) + |ms[|ms| - 1].content|
  }

  /** `rs` are the eligible messages of `items`, in order, as shown. */
  ghost predicate Replays(items: seq<Message>, budget: nat, rs: seq<Message>)
    decreases |items|
  {
    if |items| == 0 then rs == []
    else if !Eligible(items[0]) then Replays(items[1..], budget, rs)
    else |rs| > 0 && Shown(items[0], budget, rs[0]) && Replays(items[1..], budget, rs[1..])
  }

  /** How many eligible messages exceed their own budget. */
  function Oversized(items: seq<Message>, budget: nat): nat
    decreases |items|
  {
    if |items| == 0 then 0
    else (if Eligible(items[0]) && |items[0].content| > budget then 1 else 0) + Oversized(items[1..], budget)
  }

  method Show(m: Message, budget: nat) returns (r: Message)
    ensures Shown(m, budget, r)
    ensures Valid(m.content) ==> Valid(r.content)
  {
    if |m.content| <= budget {
      return m;
    }
    var cut := TruncateRunes(m.content, budget);
    assert cut == m.content[..|cut|];
    if Valid(m.content) {
      MarkIsValid();
      ValidJoin(cut, Mark());
    }
    return Message(m.role, cut + Mark());
  }

  lemma MarkIsValid()
    ensures Valid(Mark())
  {
    EllipsisIsValid();
    AsciiIsValid(Ascii(" [truncated to fit the context budget]"));
    ValidJoin(ELLIPSIS, Ascii(" [truncated to fit the context budget]"));
  }

  lemma EllipsisIsValid()
    ensures Valid(ELLIPSIS)
  {
    var rest: seq<Byte> := [0xE2, 0x80, 0xA6];
    assert CharLength(rest) == 3 && rest[3..] == [];
    assert ELLIPSIS[1..] == rest;
    assert CharLength(ELLIPSIS) == 1;
  }

  lemma {:induction false} AsciiIsValid(s: seq<Byte>)
    requires forall i :: 0 <= i < |s| ==> s[i] < 0x80
    ensures Valid(s)
    decreases |s|
  {
    if |s| > 0 { AsciiIsValid(s[1..]); }
  }

  function Reversed<T>(s: seq<T>): (r: seq<T>)
    ensures |r| == |s|
    decreases |s|
  {
    if |s| == 0 then [] else Reversed(s[1..]) + [s[0]]
  }

  lemma {:induction false} ReversedAt<T>(s: seq<T>, k: nat)
    requires k < |s|
    ensures Reversed(s)[k] == s[|s| - 1 - k]
    decreases |s|
  {
    if k < |s| - 1 { ReversedAt(s[1..], k); }
  }

  lemma ReversedIs<T>(s: seq<T>, r: seq<T>)
    requires |r| == |s| && forall k :: 0 <= k < |s| ==> r[k] == s[|s| - 1 - k]
    ensures r == Reversed(s)
  {
    forall k | 0 <= k < |s| ensures r[k] == Reversed(s)[k] { ReversedAt(s, k); }
  }

  /** The first i places from either end have been swapped. */
  predicate Swapped<T(==)>(s: seq<T>, t: seq<T>, i: nat) {
    && |t| == |s|
    && (forall k :: 0 <= k < |s| && (k < i || k >= |s| - i) ==> t[k] == s[|s| - 1 - k])
    && (forall k :: i <= k < |s| - i ==> t[k] == s[k])
  }

  lemma SwapOne<T>(s: seq<T>, t: seq<T>, i: nat, u: seq<T>)
    requires Swapped(s, t, i) && 2 * i + 1 < |s|
    requires var j := |s| - 1 - i;
      |u| == |t| && u[i] == t[j] && u[j] == t[i] && forall k :: 0 <= k < |t| && k != i && k != j ==> u[k] == t[k]
    ensures Swapped(s, u, i + 1)
  {
  }

  lemma AllSwapped<T>(s: seq<T>, t: seq<T>, i: nat)
    requires Swapped(s, t, i) && 2 * i + 1 >= |s|
    ensures t == Reversed(s)
  {
    ReversedIs(s, t);
  }

  method Reverse(s: seq<Message>) returns (r: seq<Message>)
    ensures r == Reversed(s)
  {
    hide Reversed, Swapped;
    var a := new Message[|s|](i requires 0 <= i < |s| => s[i]);
    var i, j := 0, |s| - 1;
    assert a[..] == s && Swapped(s, s, 0) by { NoneSwapped(s); }
    while i < j
      invariant 0 <= i && j == |s| - 1 - i && i <= j + 2 && Swapped(s, a[..], i)
    {
      ghost var before := a[..];
      a[i], a[j] := a[j], a[i];
      SwapOne(s, before, i, a[..]);
      i, j := i + 1, j - 1;
    }
    AllSwapped(s, a[..], i);
    r := a[..];
  }

  lemma NoneSwapped<T>(s: seq<T>)
    ensures Swapped(s, s, 0)
  {
  }

  lemma SizeAppend(ms: seq<Message>, m: Message)
    ensures Size(ms + [m]) == Size(ms) + |m.content|
  {
    assert (ms + [m])[..|ms|] == ms;
  }

  lemma {:induction false} SizeJoin(a: seq<Message>, b: seq<Message>)
    ensures Size(a + b) == Size(a) + Size(b)
    decreases |b|
  {
    if |b| == 0 {
      assert a + b == a;
    } else {
      var n := |b| - 1;
      SizeJoin(a, b[..n]);
      assert (a + b)[..|a| + n] == a + b[..n];
    }
  }

  predicate AllValid(ms: seq<Message>) { forall k :: 0 <= k < |ms| ==> Valid(ms[k].content) }

  /** Messages from `from` on are replayed, newest first. */
  ghost predicate Progress(items: seq<Message>, from: nat, budget: nat, newest: seq<Message>, used: int, truncated: nat) {
    && from <= |items|
    && Replays(items[from..], budget, Reversed(newest))
    && used == Size(Reversed(newest))
    && truncated == Oversized(items[from..], budget)
    && (AllValid(items) ==> AllValid(newest))
  }

  /** The message the budget stops at: it is eligible and would not have fit. */
  ghost predicate StopsAt(items: seq<Message>, from: nat, budget: nat, replayed: seq<Message>, total: int)
    requires 0 < from <= |items|
  {
    && Eligible(items[from - 1])
    && exists m :: Shown(items[from - 1], budget, m) && Size(replayed) + |m.content| > total
  }

  lemma Stops(items: seq<Message>, from: nat, budget: nat, replayed: seq<Message>, total: int, m: Message)
    requires 0 < from <= |items| && Eligible(items[from - 1]) && Shown(items[from - 1], budget, m)
    requires Size(replayed) + |m.content| > total
    ensures StopsAt(items, from, budget, replayed, total)
  {
  }

  /** One older message: skipped, taken, or the one to stop at. */
  method Consider(items: seq<Message>, i: nat, totalBudget: int, messageBudget: nat,
                  newest: seq<Message>, used: int, truncated: nat)
    returns (stop: bool, newest': seq<Message>, used': int, truncated': nat)
    requires i < |items| && Progress(items, i + 1, messageBudget, newest, used, truncated)
    requires used <= totalBudget || newest == []
    ensures used' <= totalBudget || newest' == []
    ensures !stop ==> Progress(items, i, messageBudget, newest', used', truncated')
    ensures stop ==>
      && Progress(items, i + 1, messageBudget, newest', used', truncated)
      && StopsAt(items, i + 1, messageBudget, Reversed(newest'), totalBudget)
      && truncated' == Oversized(items[i..], messageBudget)
  {
    hide Progress, StopsAt, Eligible, Shown, AllValid, Replays, Oversized, Size, Reversed, Valid;
    stop, newest', used', truncated' := false, newest, used, truncated;
    var item := items[i];
    if !Eligible(item) {
      ProgressSkips(items, i, messageBudget, newest, used, truncated);
      return;
    }
    var shown := Show(item, messageBudget);
    ProgressTakes(items, i, messageBudget, newest, used, truncated, shown);
    if |item.content| > messageBudget {
      truncated' := truncated + 1;
    }
    if used + |shown.content| > totalBudget {
      ProgressEnds(items, i + 1, messageBudget, newest, used, truncated);
      Stops(items, i + 1, messageBudget, Reversed(newest), totalBudget, shown);
      stop := true;
      return;
    }
    used' := used + |shown.content|;
    newest' := newest + [shown];
  }

  /** The newest messages that fit, newest first, then turned around: a run up
      to the newest, which could not take the next older one. The message it
      stops at is counted as truncated when oversized, though not replayed. */
  method BoundedHistory(items: seq<Message>, totalBudget: int, messageBudget: nat)
    returns (replayed: seq<Message>, dropped: nat, truncated: nat)
    ensures dropped <= |items|
    ensures Replays(items[dropped..], messageBudget, replayed)
    ensures Size(replayed) <= totalBudget || replayed == []
    ensures dropped > 0 ==> StopsAt(items, dropped, messageBudget, replayed, totalBudget)
    ensures truncated == Oversized(items[if dropped > 0 then dropped - 1 else 0..], messageBudget)
    ensures AllValid(items) ==> AllValid(replayed)
  {
    var newest: seq<Message> := [];
    var used := 0;
    dropped, truncated := 0, 0;
    var i := |items| - 1;
    ghost var counted := 0;
    ProgressStarts(items, messageBudget);
    EmptyIsEmpty<Message>();
    hide Progress, StopsAt, Eligible, Shown, AllValid, Replays, Oversized, Size, Reversed, Valid;
    while i >= 0
      invariant -1 <= i < |items| && dropped == 0
      invariant Progress(items, i + 1, messageBudget, newest, used, truncated) && counted == truncated
      invariant used <= totalBudget || newest == []
    {
      var stop;
      counted := truncated;
      stop, newest, used, truncated := Consider(items, i, totalBudget, messageBudget, newest, used, truncated);
      if stop {
        dropped := dropped + i + 1;
        break;
      }
      counted := truncated;
      i := i - 1;
    }
    ProgressEnds(items, dropped, messageBudget, newest, used, counted);
    replayed := Reverse(newest);
  }

  lemma OneMore(m: Message, items: seq<Message>, budget: nat, rs: seq<Message>)
    requires Replays(items, budget, rs)
    ensures !Eligible(m) ==> Replays([m] + items, budget, rs)
    ensures Eligible(m) ==> forall r :: Shown(m, budget, r) ==> Replays([m] + items, budget, [r] + rs)
    ensures Oversized([m] + items, budget)
         == Oversized(items, budget) + if Eligible(m) && |m.content| > budget then 1 else 0
  {
    hide Shown;
    assert ([m] + items)[1..] == items;
    forall r | Shown(m, budget, r) && Eligible(m) ensures Replays([m] + items, budget, [r] + rs) {
      assert ([r] + rs)[1..] == rs;
    }
  }

  lemma ProgressStarts(items: seq<Message>, budget: nat)
    ensures Progress(items, |items|, budget, [], 0, 0)
  {
    assert items[|items|..] == [];
  }

  lemma EmptyIsEmpty<T>()
    ensures Reversed<T>([]) == []
  {
  }

  lemma ProgressEnds(items: seq<Message>, from: nat, budget: nat, newest: seq<Message>, used: int, truncated: nat)
    requires Progress(items, from, budget, newest, used, truncated)
    ensures from <= |items| && Replays(items[from..], budget, Reversed(newest))
    ensures used == Size(Reversed(newest)) && truncated == Oversized(items[from..], budget)
    ensures AllValid(items) ==> AllValid(Reversed(newest))
  {
    hide Replays, Oversized, Size, Reversed, Valid;
    forall k | 0 <= k < |newest| ensures Reversed(newest)[k] == newest[|newest| - 1 - k] { ReversedAt(newest, k); }
  }

  lemma ProgressSkips(items: seq<Message>, i: nat, budget: nat, newest: seq<Message>, used: int, truncated: nat)
    requires i < |items| && !Eligible(items[i]) && Progress(items, i + 1, budget, newest, used, truncated)
    ensures Progress(items, i, budget, newest, used, truncated)
  {
    assert [items[i]] + items[i + 1..] == items[i..];
    hide Eligible, Replays, Oversized, Size, Reversed, Valid;
    OneMore(items[i], items[i + 1..], budget, Reversed(newest));
  }

  /** Whether or not it still fits, the next older message would continue the
      replay, and counts as truncated when oversized. */
  lemma ProgressTakes(items: seq<Message>, i: nat, budget: nat, newest: seq<Message>, used: int, truncated: nat,
                      shown: Message)
    requires i < |items| && Eligible(items[i]) && Progress(items, i + 1, budget, newest, used, truncated)
    requires Shown(items[i], budget, shown) && (Valid(items[i].content) ==> Valid(shown.content))
    ensures var more := if |items[i].content| > budget then truncated + 1 else truncated;
      && Progress(items, i, budget, newest + [shown], used + |shown.content|, more)
      && Oversized(items[i..], budget) == more
  {
    assert [items[i]] + items[i + 1..] == items[i..];
    hide Eligible, Replays, Oversized, Size, Reversed, Valid, Shown;
    OneMore(items[i], items[i + 1..], budget, Reversed(newest));
    NewestFirst(newest, shown);
  }

  lemma {:induction false} NewestFirst(newest: seq<Message>, m: Message)
    ensures Reversed(newest + [m]) == [m] + Reversed(newest)
    ensures Size(Reversed(newest + [m])) == |m.content| + Size(Reversed(newest))
    decreases |newest|
  {
    ReversedLast(newest, m);
    SizeJoin([m], Reversed(newest));
    SizeAppend([], m);
    assert [] + [m] == [m];
  }

  lemma {:induction false} ReversedLast<T>(s: seq<T>, x: T)
    ensures Reversed(s + [x]) == [x] + Reversed(s)
    decreases |s|
  {
    if |s| > 0 {
      ReversedLast(s[1..], x);
      assert (s + [x])[1..] == s[1..] + [x];
    }
  }

  // ----- The contract leaves one answer

  lemma ShownOnce(m: Message, budget: nat, r: Message, t: Message)
    requires Shown(m, budget, r) && Shown(m, budget, t)
    ensures r == t
  {
    if |m.content| > budget {
      var j: nat :| IsCut(m.content, budget, j) && j <= |m.content| && r.content == m.content[..j] + Mark();
      var k: nat :| IsCut(m.content, budget, k) && k <= |m.content| && t.content == m.content[..k] + Mark();
      hide Mark;
      assert j == k;
    }
  }

  lemma {:induction false} ReplayedOnce(items: seq<Message>, budget: nat, r: seq<Message>, t: seq<Message>)
    requires Replays(items, budget, r) && Replays(items, budget, t)
    ensures r == t
    decreases |items|
  {
    if |items| > 0 {
      if Eligible(items[0]) {
        ShownOnce(items[0], budget, r[0], t[0]);
        ReplayedOnce(items[1..], budget, r[1..], t[1..]);
        assert r == [r[0]] + r[1..] && t == [t[0]] + t[1..];
      } else {
        ReplayedOnce(items[1..], budget, r, t);
      }
    }
  }

  /** The replay of newer messages ends the replay of more. */
  lemma {:induction false} NewerEnds(items: seq<Message>, from: nat, budget: nat, all: seq<Message>, newer: seq<Message>)
    requires from <= |items| && Replays(items, budget, all) && Replays(items[from..], budget, newer)
    ensures |newer| <= |all| && all[|all| - |newer|..] == newer
    decreases |items|
  {
    if |items| > 0 {
      hide Eligible, Shown;
      if from > 0 {
        assert items[1..][from - 1..] == items[from..];
        NewerEnds(items[1..], from - 1, budget, if Eligible(items[0]) then all[1..] else all, newer);
      } else {
        assert items[0..] == items;
        ReplayedOnce(items, budget, all, newer);
      }
    } else {
      assert items[from..] == [];
    }
  }

  /** A longer replay also holds the message a shorter one stops at. */
  lemma LongerRun(items: seq<Message>, budget: nat, d: nat, e: nat, r: seq<Message>, t: seq<Message>, m: Message)
    requires d < e <= |items| && Replays(items[d..], budget, r) && Replays(items[e..], budget, t)
    requires Eligible(items[e - 1]) && Shown(items[e - 1], budget, m)
    ensures r != [] && Size(r) >= Size(t) + |m.content|
  {
    var rest := items[d..];
    assert rest[e - 1 - d..] == [items[e - 1]] + items[e..];
    hide Eligible, Shown, Replays, Size, Oversized;
    OneMore(items[e - 1], items[e..], budget, t);
    NewerEnds(rest, e - 1 - d, budget, r, [m] + t);
    var older := r[..|r| - |[m] + t|];
    assert r == older + ([m] + t);
    SizeJoin(older, [m] + t);
    SizeJoin([m], t);
    SizeOne(m);
  }

  /** A longer run within the budget cannot stop later: two outcomes that both
      meet the contract are the same. */
  lemma OneOutcome(items: seq<Message>, total: int, budget: nat, d: nat, r: seq<Message>, e: nat, t: seq<Message>)
    requires d <= e <= |items|
    requires Replays(items[d..], budget, r) && (Size(r) <= total || r == [])
    requires Replays(items[e..], budget, t) && (e > 0 ==> StopsAt(items, e, budget, t, total))
    ensures d == e && r == t
  {
    hide Eligible, Shown, Replays, Size;
    if d < e {
      var m :| Shown(items[e - 1], budget, m) && Size(t) + |m.content| > total;
      LongerRun(items, budget, d, e, r, t, m);
    } else {
      ReplayedOnce(items[d..], budget, r, t);
    }
  }

  lemma SizeOne(m: Message)
    ensures Size([m]) == |m.content|
  {
    SizeAppend([], m);
    assert [] + [m] == [m];
  }

  // ----- What a replay is

  /** The mark of a turn that was cut: a line break, an ellipsis and a remark. */
  lemma MarkExactly(i: nat)
    ensures |Mark()| == 4 + |" [truncated to fit the context budget]"| && Mark()[..4] == [0x0A, 0xE2, 0x80, 0xA6]
    ensures i < |" [truncated to fit the context budget]"| ==>
      Mark()[4 + i] == " [truncated to fit the context budget]"[i] as int
  {}

  lemma CutWithin(s: seq<Byte>, budget: nat, k: nat)
    requires IsCut(s, budget, k)
    ensures k <= budget && k <= |s|
  {}

  /** One turn: it is left out when it is empty or of another role, and otherwise
      shown whole, or cut within the budget and marked when it is longer. */
  lemma ReplayOne(m: Message, budget: nat, rs: seq<Message>)
    requires Replays([m], budget, rs)
    ensures m.content == [] || m.role == OtherRole ==> rs == []
    ensures m.content != [] && m.role != OtherRole ==> |rs| == 1 && rs[0].role == m.role
    ensures m.content != [] && m.role != OtherRole && |m.content| <= budget ==> rs == [m]
    ensures m.content != [] && m.role != OtherRole && |m.content| > budget ==>
      exists k: nat :: k <= budget && rs == [Message(m.role, m.content[..k] + Mark())] && IsCut(m.content, budget, k)
  {
    hide Mark, IsCut;
    assert [m][1..] == [];
    if Eligible(m) {
      assert rs[1..] == [] && rs == [rs[0]];
      if |m.content| > budget {
        var k: nat :| IsCut(m.content, budget, k) && k <= |m.content| && rs[0].content == m.content[..k] + Mark();
        CutWithin(m.content, budget, k);
        assert rs[0] == Message(m.role, m.content[..k] + Mark());
      }
    }
  }

  /** Histories are replayed turn by turn. */
  lemma {:induction false} ReplaysJoin(a: seq<Message>, b: seq<Message>, budget: nat, ra: seq<Message>, rb: seq<Message>)
    requires Replays(a, budget, ra) && Replays(b, budget, rb)
    ensures Replays(a + b, budget, ra + rb)
    decreases |a|
  {
    hide Eligible, Shown;
    if a == [] {
      assert a + b == b && ra + rb == rb;
    } else {
      assert (a + b)[1..] == a[1..] + b;
      if Eligible(a[0]) {
        ReplaysJoin(a[1..], b, budget, ra[1..], rb);
        assert (ra + rb)[1..] == ra[1..] + rb;
      } else {
        ReplaysJoin(a[1..], b, budget, ra, rb);
      }
    }
  }

  /** The size of a replay is that of its turns together. */
  lemma SizeExactly(a: seq<Message>, b: seq<Message>, m: Message)
    ensures Size([]) == 0 && Size([m]) == |m.content| && Size(a + b) == Size(a) + Size(b)
  {
    SizeOne(m);
    SizeJoin(a, b);
  }
}
