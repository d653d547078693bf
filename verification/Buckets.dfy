/** Token buckets: lazy refill on a monotone clock, over exact reals.
    The first half is the arithmetic both engines share; the classes are the Go and the Python
    bucket.  A poll is one pass through the critical section: refill, then take or report how
    long to wait. */
module Buckets {

  datatype Params = Params(capacity: real, rate: real)

  datatype Tokens = Tokens(tokens: real, updated: real)

  ghost predicate Sane(p: Params) {
    p.capacity > 0.0 && p.rate > 0.0
  }

  ghost predicate InRange(p: Params, b: Tokens) {
    0.0 <= b.tokens <= p.capacity
  }

  /** The tokens that flow in between two instants, before the capacity cuts them off. */
  function Inflow(p: Params, from: real, to: real): real {
    (to - from) * p.rate
  }

  /** The number of tokens in the bucket at time t if nobody draws before then. */
  function LevelAt(p: Params, b: Tokens, t: real): real {
    var level := b.tokens + Inflow(p, b.updated, t);
    if level > p.capacity then p.capacity else level
  }

  function Refilled(p: Params, b: Tokens, now: real): Tokens {
    Tokens(LevelAt(p, b, now), now)
  }

  function Drawn(b: Tokens, n: real): Tokens {
    b.(tokens := b.tokens - n)
  }

  /** One poll for n tokens. */
  function Polled(p: Params, b: Tokens, now: real, n: real): Tokens {
    if LevelAt(p, b, now) >= n then Drawn(Refilled(p, b, now), n) else Refilled(p, b, now)
  }

  /** How long the engine sleeps after a failed poll. */
  function Delay(p: Params, b: Tokens, now: real, n: real): real
    requires p.rate > 0.0
  {
    (n - LevelAt(p, b, now)) / p.rate
  }

  // ---------- refill ----------

  lemma ProductNonNegative(x: real, y: real)
    requires x >= 0.0 && y >= 0.0
    ensures x * y >= 0.0
  {
  }

  lemma InflowNonNegative(p: Params, a: real, b: real)
    requires Sane(p) && a <= b
    ensures Inflow(p, a, b) >= 0.0
  {
    ProductNonNegative(b - a, p.rate);
  }

  lemma InflowSplits(p: Params, a: real, b: real, c: real)
    ensures Inflow(p, a, b) + Inflow(p, b, c) == Inflow(p, a, c)
  {
    Distribute(b - a, c - b, p.rate);
  }

  lemma Distribute(x: real, y: real, r: real)
    ensures x * r + y * r == (x + y) * r
  {
  }

  lemma NoInflow(p: Params, t: real)
    ensures Inflow(p, t, t) == 0.0
  {
  }

  lemma LevelInRange(p: Params, b: Tokens, t: real)
    requires Sane(p) && InRange(p, b) && b.updated <= t
    ensures 0.0 <= LevelAt(p, b, t) <= p.capacity
    ensures b.tokens <= LevelAt(p, b, t) <= b.tokens + Inflow(p, b.updated, t)
  {
    hide Inflow;
    InflowNonNegative(p, b.updated, t);
  }

  /** Refilling at an instant in between changes nothing later. */
  lemma RefillTwice(p: Params, b: Tokens, t: real, u: real)
    requires Sane(p) && InRange(p, b) && b.updated <= t <= u
    ensures LevelAt(p, Refilled(p, b, t), u) == LevelAt(p, b, u)
  {
    hide Inflow;
    InflowSplits(p, b.updated, t, u);
    InflowNonNegative(p, t, u);
  }

  ghost predicate Ordered(ts: seq<real>, from: real, upTo: real) {
    if ts == [] then from <= upTo else from <= ts[0] && Ordered(ts[1..], ts[0], upTo)
  }

  function RefilledAll(p: Params, b: Tokens, ts: seq<real>): Tokens
    decreases |ts|
  {
    if ts == [] then b else RefilledAll(p, Refilled(p, b, ts[0]), ts[1..])
  }

  lemma OrderedBounds(ts: seq<real>, from: real, upTo: real)
    requires Ordered(ts, from, upTo)
    ensures from <= upTo
  {
  }

  /** Lazy refill is continuous refill: however often the bucket is refilled on the way, the
      level at the end is the same. */
  lemma {:induction false} LazyIsContinuous(p: Params, b: Tokens, ts: seq<real>, t: real)
    requires Sane(p) && InRange(p, b) && Ordered(ts, b.updated, t)
    ensures LevelAt(p, RefilledAll(p, b, ts), t) == LevelAt(p, b, t)
    decreases |ts|
  {
    if ts != [] {
      OrderedBounds(ts[1..], ts[0], t);
      LevelInRange(p, b, ts[0]);
      LazyIsContinuous(p, Refilled(p, b, ts[0]), ts[1..], t);
      RefillTwice(p, b, ts[0], t);
    }
  }

  // ---------- polls ----------

  lemma PollKeepsRange(p: Params, b: Tokens, now: real, n: real)
    requires Sane(p) && InRange(p, b) && b.updated <= now && n >= 0.0
    ensures InRange(p, Polled(p, b, now, n)) && Polled(p, b, now, n).updated == now
  {
    hide LevelAt;
    LevelInRange(p, b, now);
  }

  /** A failed poll is invisible: every later level is what it would have been. */
  lemma FailedPollInvisible(p: Params, b: Tokens, now: real, n: real, t: real)
    requires Sane(p) && InRange(p, b) && b.updated <= now <= t && LevelAt(p, b, now) < n
    ensures LevelAt(p, Polled(p, b, now, n), t) == LevelAt(p, b, t)
  {
    RefillTwice(p, b, now, t);
  }

  /** After a failed poll for no more than the capacity, the computed delay is the least after
      which the level reaches the request: earlier polls fail, a poll at or after it succeeds. */
  lemma DelayIsLeast(p: Params, b: Tokens, now: real, n: real, t: real)
    requires Sane(p) && InRange(p, b) && b.updated <= now <= t
    requires LevelAt(p, b, now) < n <= p.capacity
    ensures LevelAt(p, b, t) >= n <==> t >= now + Delay(p, b, now, n)
  {
    RefillTwice(p, b, now, t);
    DivideThrough(n - LevelAt(p, b, now), p.rate, t - now);
    assert Inflow(p, now, t) == (t - now) * p.rate;
    hide Inflow;
  }

  lemma DivideThrough(missing: real, rate: real, dt: real)
    requires rate > 0.0
    ensures dt * rate >= missing <==> dt >= missing / rate
  {
    assert missing / rate * rate == missing;
    if dt >= missing / rate {
      assert (dt - missing / rate) * rate >= 0.0;
    } else {
      assert (missing / rate - dt) * rate > 0.0;
    }
  }

  /** A request above the capacity is never granted. */
  lemma TooLargeNeverGranted(p: Params, b: Tokens, t: real, n: real)
    requires n > p.capacity
    ensures LevelAt(p, b, t) < n
  {
  }

  // ---------- many waiters ----------

  /** Some waiter polls for n tokens at a given instant. */
  datatype Poll = Poll(at: real, n: real)

  ghost predicate PollsFrom(polls: seq<Poll>, from: real) {
    polls == [] || (from <= polls[0].at && polls[0].n >= 0.0 && PollsFrom(polls[1..], polls[0].at))
  }

  function After(p: Params, b: Tokens, polls: seq<Poll>): Tokens
    decreases |polls|
  {
    if polls == [] then b else After(p, Polled(p, b, polls[0].at, polls[0].n), polls[1..])
  }

  /** The polls that were granted, in order. */
  function Grants(p: Params, b: Tokens, polls: seq<Poll>): seq<Poll>
    decreases |polls|
  {
    if polls == [] then []
    else
      var later := Grants(p, Polled(p, b, polls[0].at, polls[0].n), polls[1..]);
      if LevelAt(p, b, polls[0].at) >= polls[0].n then [polls[0]] + later else later
  }

  function Drawings(polls: seq<Poll>): real {
    if polls == [] then 0.0 else polls[0].n + Drawings(polls[1..])
  }

  function LastInstant(polls: seq<Poll>, from: real): real {
    if polls == [] then from else LastInstant(polls[1..], polls[0].at)
  }

  lemma PollBalance(p: Params, b: Tokens, now: real, n: real)
    requires Sane(p) && InRange(p, b) && b.updated <= now && n >= 0.0
    ensures InRange(p, Polled(p, b, now, n)) && Polled(p, b, now, n).updated == now
    ensures var granted := if LevelAt(p, b, now) >= n then n else 0.0;
            Polled(p, b, now, n).tokens + granted <= b.tokens + Inflow(p, b.updated, now)
  {
    hide LevelAt, Inflow;
    LevelInRange(p, b, now);
  }

  /** Window bound: whatever the waiters do, the tokens granted from an instant on are at most
      the level at that instant plus what has flowed in since, and the level stays in range. */
  lemma {:induction false} WindowBound(p: Params, b: Tokens, polls: seq<Poll>)
    requires Sane(p) && InRange(p, b) && PollsFrom(polls, b.updated)
    ensures var e := After(p, b, polls);
            && InRange(p, e)
            && e.updated == LastInstant(polls, b.updated) >= b.updated
            && Drawings(Grants(p, b, polls)) + e.tokens <= b.tokens + Inflow(p, b.updated, e.updated)
    decreases |polls|
  {
    if polls != [] {
      var b1 := Polled(p, b, polls[0].at, polls[0].n);
      PollBalance(p, b, polls[0].at, polls[0].n);
      hide LevelAt, Inflow, Polled;
      WindowBound(p, b1, polls[1..]);
      InflowSplits(p, b.updated, b1.updated, After(p, b1, polls[1..]).updated);
      var later := Grants(p, b1, polls[1..]);
      assert ([polls[0]] + later)[1..] == later;
    }
  }

  lemma BurstBound(p: Params, b: Tokens, polls: seq<Poll>)
    requires Sane(p) && InRange(p, b) && PollsFrom(polls, b.updated)
    ensures Drawings(Grants(p, b, polls)) <= p.capacity + Inflow(p, b.updated, LastInstant(polls, b.updated))
  {
    hide Inflow, LevelAt;
    WindowBound(p, b, polls);
  }

  lemma {:induction false} GrantsArePolls(p: Params, b: Tokens, polls: seq<Poll>, from: real)
    requires PollsFrom(polls, from)
    ensures PollsFrom(Grants(p, b, polls), from) && LastInstant(Grants(p, b, polls), from) <= LastInstant(polls, from)
    decreases |polls|
  {
    if polls != [] {
      var b1 := Polled(p, b, polls[0].at, polls[0].n);
      GrantsArePolls(p, b1, polls[1..], polls[0].at);
      var later := Grants(p, b1, polls[1..]);
      assert ([polls[0]] + later)[1..] == later;
      if !(LevelAt(p, b, polls[0].at) >= polls[0].n) { PollsFromEarlier(later, from, polls[0].at); }
    }
  }

  lemma PollsFromEarlier(polls: seq<Poll>, from: real, at: real)
    requires PollsFrom(polls, at) && from <= at
    ensures PollsFrom(polls, from) && LastInstant(polls, from) <= LastInstant(polls, at)
  {
  }

  /** Two buckets that will always show the same level. */
  ghost predicate SameLevels(p: Params, a: Tokens, b: Tokens, from: real) {
    forall t :: t >= from ==> LevelAt(p, a, t) == LevelAt(p, b, t)
  }

  lemma SamePolled(p: Params, a: Tokens, b: Tokens, from: real, now: real, n: real)
    requires SameLevels(p, a, b, from) && from <= now
    ensures Polled(p, a, now, n) == Polled(p, b, now, n)
  {
    assert LevelAt(p, a, now) == LevelAt(p, b, now);
  }

  /** Erasing every failed poll changes neither what is granted nor any later level: the bucket
      is a function of its grants alone. */
  lemma {:induction false} OnlyGrantsMatter(p: Params, a: Tokens, b: Tokens, polls: seq<Poll>, from: real)
    requires Sane(p) && InRange(p, a) && InRange(p, b) && a.updated <= from && b.updated <= from
    requires SameLevels(p, a, b, from) && PollsFrom(polls, from)
    ensures Grants(p, b, Grants(p, a, polls)) == Grants(p, a, polls)
    ensures SameLevels(p, After(p, a, polls), After(p, b, Grants(p, a, polls)), LastInstant(polls, from))
    decreases |polls|
  {
    if polls != [] {
      var now, n, rest := polls[0].at, polls[0].n, polls[1..];
      var a1 := Polled(p, a, now, n);
      PollKeepsRange(p, a, now, n);
      SamePolled(p, a, b, from, now, n);
      assert LevelAt(p, a, now) == LevelAt(p, b, now);
      if LevelAt(p, a, now) >= n {
        OnlyGrantsMatter(p, a1, a1, rest, now);
        assert ([polls[0]] + Grants(p, a1, rest))[1..] == Grants(p, a1, rest);
      } else {
        forall t | t >= now ensures LevelAt(p, a1, t) == LevelAt(p, b, t) {
          FailedPollInvisible(p, a, now, n, t);
        }
        OnlyGrantsMatter(p, a1, b, rest, now);
      }
    }
  }

  // ---------- one waiter among others ----------

  lemma {:induction false} AfterAppend(p: Params, b: Tokens, x: seq<Poll>, y: seq<Poll>)
    ensures After(p, b, x + y) == After(p, After(p, b, x), y)
    decreases |x|
  {
    hide Polled;
    if x == [] {
      assert x + y == y;
    } else {
      assert (x + y)[0] == x[0] && (x + y)[1..] == x[1..] + y;
      AfterAppend(p, Polled(p, b, x[0].at, x[0].n), x[1..], y);
    }
  }

  lemma {:induction false} PollsAppend(x: seq<Poll>, y: seq<Poll>, from: real)
    ensures PollsFrom(x + y, from) <==> PollsFrom(x, from) && PollsFrom(y, LastInstant(x, from))
    decreases |x|
  {
    if x == [] {
      assert x + y == y;
    } else {
      assert (x + y)[0] == x[0] && (x + y)[1..] == x[1..] + y;
      PollsAppend(x[1..], y, x[0].at);
    }
  }

  /** All passes through the lock up to a waiter's k-th: what the others did before each of the
      waiter's own polls, and those polls. */
  function Passes(n: real, wakeups: seq<real>, others: seq<seq<Poll>>, k: nat): seq<Poll>
    requires k <= |wakeups| == |others|
  {
    if k == 0 then [] else Passes(n, wakeups, others, k - 1) + others[k - 1] + [Poll(wakeups[k - 1], n)]
  }

  /** The level a waiter finds at its poll number i, counted from zero. */
  function Found(p: Params, b: Tokens, n: real, wakeups: seq<real>, others: seq<seq<Poll>>, i: nat): real
    requires i < |wakeups| == |others|
  {
    LevelAt(p, After(p, b, Passes(n, wakeups, others, i) + others[i]), wakeups[i])
  }

  /** The instants at which the lock is taken do not run backwards. */
  ghost predicate InOrder(n: real, wakeups: seq<real>, others: seq<seq<Poll>>, from: real) {
    |others| == |wakeups| && forall k: nat :: k <= |wakeups| ==> PollsFrom(Passes(n, wakeups, others, k), from)
  }

  lemma NextPass(p: Params, b: Tokens, n: real, wakeups: seq<real>, others: seq<seq<Poll>>, k: nat)
    requires Sane(p) && InRange(p, b) && InOrder(n, wakeups, others, b.updated) && k < |wakeups|
    ensures var c := After(p, b, Passes(n, wakeups, others, k));
            var d := After(p, c, others[k]);
            && InRange(p, c) && PollsFrom(others[k], c.updated)
            && InRange(p, d) && d.updated <= wakeups[k]
            && Found(p, b, n, wakeups, others, k) == LevelAt(p, d, wakeups[k])
            && After(p, b, Passes(n, wakeups, others, k + 1)) == Polled(p, d, wakeups[k], n)
  {
    var before, own := Passes(n, wakeups, others, k), [Poll(wakeups[k], n)];
    assert Passes(n, wakeups, others, k + 1) == before + others[k] + own;
    AfterAppend(p, b, before, others[k]);
    AfterAppend(p, b, before + others[k], own);
    PollsAppend(before, others[k], b.updated);
    PollsAppend(before + others[k], own, b.updated);
    hide LevelAt, Inflow, Polled, Passes;
    WindowBound(p, b, before);
    WindowBound(p, b, before + others[k]);
    assert own[1..] == [];
  }

  /** If nobody else polls, failed polls leave the level alone, so the waiter finds at each poll
      what it would have found without the earlier ones. */
  lemma {:induction false} FoundAlone(p: Params, b: Tokens, n: real, wakeups: seq<real>, others: seq<seq<Poll>>, i: nat)
    requires Sane(p) && InRange(p, b) && InOrder(n, wakeups, others, b.updated) && i < |wakeups|
    requires forall k :: 0 <= k <= i ==> others[k] == []
    requires forall k: nat :: k < i ==> Found(p, b, n, wakeups, others, k) < n
    ensures Found(p, b, n, wakeups, others, i) == LevelAt(p, b, wakeups[i])
    ensures forall t :: t >= After(p, b, Passes(n, wakeups, others, i)).updated ==>
              LevelAt(p, After(p, b, Passes(n, wakeups, others, i)), t) == LevelAt(p, b, t)
    decreases i
  {
    NextPass(p, b, n, wakeups, others, i);
    if i > 0 {
      NextPass(p, b, n, wakeups, others, i - 1);
      FoundAlone(p, b, n, wakeups, others, i - 1);
      var c := After(p, b, Passes(n, wakeups, others, i - 1));
      hide LevelAt, Inflow, Passes, Found, InOrder;
      assert Found(p, b, n, wakeups, others, i - 1) < n;
      FailedLeaves(p, c, wakeups[i - 1], n);
    }
  }

  lemma FailedLeaves(p: Params, c: Tokens, now: real, n: real)
    requires Sane(p) && InRange(p, c) && c.updated <= now && LevelAt(p, c, now) < n
    ensures Polled(p, c, now, n).updated == now
    ensures forall t :: t >= now ==> LevelAt(p, Polled(p, c, now, n), t) == LevelAt(p, c, t)
  {
    forall t | t >= now ensures LevelAt(p, Polled(p, c, now, n), t) == LevelAt(p, c, t) {
      FailedPollInvisible(p, c, now, n, t);
    }
  }

  /** A request that can be granted, by a waiter with nobody else around that sleeps the reported
      wait between its first two polls. */
  ghost predicate Punctual(p: Params, b: Tokens, n: real, wakeups: seq<real>, others: seq<seq<Poll>>)
    requires p.rate > 0.0
  {
    && |wakeups| >= 2 && |others| >= 2 && others[0] == [] && others[1] == [] && n <= p.capacity
    && wakeups[1] >= wakeups[0] + Delay(p, b, wakeups[0], n)
  }

  /** Such a waiter finds enough at its second poll at the latest. */
  lemma SecondPollSuffices(p: Params, b: Tokens, n: real, wakeups: seq<real>, others: seq<seq<Poll>>)
    requires Sane(p) && InRange(p, b) && InOrder(n, wakeups, others, b.updated) && Punctual(p, b, n, wakeups, others)
    ensures Found(p, b, n, wakeups, others, 0) >= n || Found(p, b, n, wakeups, others, 1) >= n
  {
    FoundAlone(p, b, n, wakeups, others, 0);
    NextPass(p, b, n, wakeups, others, 0);
    NextPass(p, b, n, wakeups, others, 1);
    if Found(p, b, n, wakeups, others, 0) < n {
      FoundAlone(p, b, n, wakeups, others, 1);
      PassesForward(p, b, n, wakeups, others);
      hide LevelAt, Found, Passes, Delay, InOrder;
      DelayIsLeast(p, b, wakeups[0], n, wakeups[1]);
    }
  }

  lemma PassesForward(p: Params, b: Tokens, n: real, wakeups: seq<real>, others: seq<seq<Poll>>)
    requires Sane(p) && InRange(p, b) && InOrder(n, wakeups, others, b.updated) && Punctual(p, b, n, wakeups, others)
    ensures b.updated <= wakeups[0] <= wakeups[1]
  {
    NextPass(p, b, n, wakeups, others, 0);
    NextPass(p, b, n, wakeups, others, 1);
    hide LevelAt, Delay, InOrder;
    assert Passes(n, wakeups, others, 0) == [];
    assert Polled(p, b, wakeups[0], n).updated == wakeups[0];
  }

  // ---------- the Go bucket ----------

  class Bucket {
    var tokens: real
    var updated: real
    const capacity: real
    const rate: real

    /** `requests` tokens per `per` seconds; a full bucket holds one window's worth. */
    constructor (requests: real, per: real, now: real)
      requires requests > 0.0 && per > 0.0
      ensures Valid() && updated == now && tokens == capacity == requests && rate == requests / per
    {
      tokens := requests;
      capacity := requests;
      rate := requests / per;
      updated := now;
      RatioPositive(requests, per);
    }

    ghost function P(): Params {
      Params(capacity, rate)
    }

    ghost function State(): Tokens
      reads this
    {
      Tokens(tokens, updated)
    }

    ghost predicate Valid()
      reads this
    {
      Sane(P()) && InRange(P(), State())
    }

    method Refill(now: real)
      requires Valid() && updated <= now
      modifies this
      ensures Valid() && State() == Refilled(P(), old(State()), now)
    {
      LevelInRange(P(), State(), now);
      var elapsed := now - updated;
      assert elapsed * rate == Inflow(P(), updated, now);
      hide Inflow;
      tokens := tokens + elapsed * rate;
      if tokens > capacity {
        tokens := capacity;
      }
      updated := now;
    }

    /** One pass through the critical section: refill, then take or work out how long to wait. */
    method Poll(n: real, now: real) returns (granted: bool, wait: real)
      requires Valid() && updated <= now && n >= 0.0
      modifies this
      ensures Valid() && State() == Polled(P(), old(State()), now, n)
      ensures granted <==> LevelAt(P(), old(State()), now) >= n
      ensures wait == if granted then 0.0 else Delay(P(), old(State()), now, n)
    {
      Refill(now);
      if tokens >= n {
        tokens := tokens - n;
        return true, 0.0;
      }
      var deficit := n - tokens;
      granted, wait := false, deficit / rate;
    }

    /** Other waiters pass through the lock. */
    method Interfere(polls: seq<Poll>)
      requires Valid() && PollsFrom(polls, updated)
      modifies this
      ensures Valid() && State() == After(P(), old(State()), polls)
      decreases |polls|
    {
      if polls != [] {
        var granted, wait := Poll(polls[0].n, polls[0].at);
        Interfere(polls[1..]);
      }
    }

    /** Waits for n tokens.  `wakeups` are the instants at which this waiter gets the lock, and
        others[i] what other waiters do between its polls i - 1 and i; the context is cancelled
        after the last wake-up.  The request is granted at the first poll that finds n tokens, and
        the bucket is left as all the passes in their order leave it. */
    method AcquireN(n: real, wakeups: seq<real>, others: seq<seq<Poll>>) returns (ok: bool, ghost polls: nat)
      requires Valid() && n >= 0.0 && InOrder(n, wakeups, others, updated)
      modifies this
      ensures Valid() && polls <= |wakeups| && (!ok ==> polls == |wakeups|) && (ok ==> polls > 0)
      ensures forall i: nat :: i < polls ==>
                (Found(P(), old(State()), n, wakeups, others, i) >= n <==> ok && i == polls - 1)
      ensures State() == After(P(), old(State()), Passes(n, wakeups, others, polls))
      ensures Punctual(P(), old(State()), n, wakeups, others) ==> ok && polls <= 2
    {
      ghost var start := State();
      if Punctual(P(), start, n, wakeups, others) { SecondPollSuffices(P(), start, n, wakeups, others); }
      hide Punctual;
      var i := 0;
      while i < |wakeups|
        invariant 0 <= i <= |wakeups| && Valid()
        invariant State() == After(P(), start, Passes(n, wakeups, others, i))
        invariant forall k: nat :: k < i ==> Found(P(), start, n, wakeups, others, k) < n
      {
        hide LevelAt, Inflow, Found, Passes, InOrder, Polled;
        NextPass(P(), start, n, wakeups, others, i);
        Interfere(others[i]);
        var granted, wait := Poll(n, wakeups[i]);
        i := i + 1;
        if granted {
          return true, i;
        }
      }
      ok, polls := false, i;
    }
  }

  lemma RatioPositive(a: real, b: real)
    requires a > 0.0 && b > 0.0
    ensures a / b > 0.0
  {
  }

  // ---------- the Python bucket ----------

  /** The Python bucket keeps rate and window apart and refuses what can never be granted. */
  class TokenBucket {
    var tokens: real
    var updated: real
    const capacity: real
    const rate: real
    const per: real

    constructor (rate: real, per: real, now: real)
      requires rate > 0.0 && per > 0.0
      ensures Valid() && updated == now && tokens == capacity == rate && this.rate == rate && this.per == per
    {
      this.rate := rate;
      this.per := per;
      capacity := rate;
      tokens := rate;
      updated := now;
      RatioPositive(rate, per);
    }

    ghost function P(): Params
      requires per > 0.0
    {
      Params(capacity, rate / per)
    }

    ghost function State(): Tokens
      reads this
    {
      Tokens(tokens, updated)
    }

    ghost predicate Valid()
      reads this
    {
      per > 0.0 && rate > 0.0 && Sane(P()) && InRange(P(), State())
    }

    /** One pass through the lock.  The sleep is written with the inverse ratio but is the same
        delay as the Go engine's; what the Go engine would wait for forever is refused. */
    method AcquireOnce(amount: real, now: real) returns (r: Reply)
      requires Valid() && updated <= now && 0.0 <= amount
      modifies this
      ensures Valid()
      ensures r.Refused? <==> amount > capacity
      ensures r.Refused? ==> State() == old(State())
      ensures !r.Refused? ==> State() == Polled(P(), old(State()), now, amount)
      ensures r.Granted? <==> amount <= capacity && LevelAt(P(), old(State()), now) >= amount
      ensures r.Sleep? ==> r.wait == Delay(P(), old(State()), now, amount)
    {
      if amount > capacity {
        return Refused;
      }
      RefillNow(now);
      if tokens >= amount {
        tokens := tokens - amount;
        return Granted;
      }
      var deficit := amount - tokens;
      InverseRatio(deficit, rate, per);
      r := Sleep(deficit * (per / rate));
    }

    /** Other waiters pass through the lock; what is refused does not get that far. */
    method Interfere(polls: seq<Poll>)
      requires Valid() && PollsFrom(polls, updated) && forall k :: 0 <= k < |polls| ==> polls[k].n <= capacity
      modifies this
      ensures Valid() && State() == After(P(), old(State()), polls)
      decreases |polls|
    {
      if polls != [] {
        var reply := AcquireOnce(polls[0].n, polls[0].at);
        Interfere(polls[1..]);
      }
    }

    /** The sleep loop around the lock, until the waiter is cancelled after its last wake-up.
        Above the capacity the request is refused at once; otherwise it is granted at the first
        poll that finds enough, as in the Go engine. */
    method Acquire(amount: real, wakeups: seq<real>, others: seq<seq<Poll>>) returns (r: Outcome, ghost polls: nat)
      requires Valid() && amount >= 0.0 && InOrder(amount, wakeups, others, updated)
      requires forall i, k :: 0 <= i < |others| && 0 <= k < |others[i]| ==> others[i][k].n <= capacity
      modifies this
      ensures Valid() && polls <= |wakeups|
      ensures r.TooLarge? <==> amount > capacity
      ensures r.TooLarge? ==> polls == 0
      ensures r.GaveUp? ==> polls == |wakeups|
      ensures r.Acquired? ==> polls > 0
      ensures forall i: nat :: i < polls ==>
                (Found(P(), old(State()), amount, wakeups, others, i) >= amount <==> r.Acquired? && i == polls - 1)
      ensures State() == After(P(), old(State()), Passes(amount, wakeups, others, polls))
    {
      ghost var start := State();
      if amount > capacity {
        return TooLarge, 0;
      }
      var i := 0;
      while i < |wakeups|
        invariant 0 <= i <= |wakeups| && Valid()
        invariant State() == After(P(), start, Passes(amount, wakeups, others, i))
        invariant forall k: nat :: k < i ==> Found(P(), start, amount, wakeups, others, k) < amount
      {
        hide LevelAt, Inflow, Found, Passes, InOrder, Polled;
        NextPass(P(), start, amount, wakeups, others, i);
        Interfere(others[i]);
        var reply := AcquireOnce(amount, wakeups[i]);
        i := i + 1;
        if reply.Granted? {
          return Acquired, i;
        }
      }
      r, polls := GaveUp, i;
    }

    /** The refill half of the critical section. */
    method RefillNow(now: real)
      requires Valid() && updated <= now
      modifies this
      ensures Valid() && State() == Refilled(P(), old(State()), now)
    {
      LevelInRange(P(), State(), now);
      assert (now - updated) * (rate / per) == Inflow(P(), updated, now);
      hide Inflow;
      var filled := tokens + (now - updated) * (rate / per);
      tokens := if capacity < filled then capacity else filled;
      updated := now;
    }
  }

  /** How one pass, and a whole acquire, can end. */
  datatype Reply = Refused | Granted | Sleep(wait: real)

  datatype Outcome = TooLarge | Acquired | GaveUp

  lemma InverseRatio(x: real, rate: real, per: real)
    requires rate > 0.0 && per > 0.0
    ensures rate / per > 0.0 && x * (per / rate) == x / (rate / per)
  {
    var q, r := rate / per, per / rate;
    RatioPositive(rate, per);
    assert q * per == rate && r * rate == per;
    Cancel(r, q, per, rate);
    UniqueQuotient(x, q, r);
  }

  lemma Cancel(r: real, q: real, per: real, rate: real)
    requires q * per == rate && r * rate == per && per > 0.0
    ensures r * q == 1.0
  {
    assert r * (q * per) == (r * q) * per;
    assert (r * q - 1.0) * per == 0.0;
  }

  lemma UniqueQuotient(x: real, q: real, r: real)
    requires q > 0.0 && r * q == 1.0
    ensures x * r == x / q
  {
    var y := x / q;
    assert y * q == x;
    assert y * (q * r) == (y * q) * r;
  }
}
