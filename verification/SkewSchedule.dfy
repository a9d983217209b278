/** The skewed connection schedule: a round-robin server gives connection number `n` to its thread `n % threads`, and
    dummy connections are inserted so that `skew_level` real ones in every batch land on thread 0. */
module SkewSchedule {
  import opened Division

  // ----- one call of prepare -----

  /** The counters all clients share. */
  datatype Counters = Counters(skew: nat, total: nat, real_: nat)

  /** Dummy connections needed to reach a multiple of `threads`. */
  function Padding(total: nat, threads: nat): nat
    requires threads > 0
  {
    (threads - total % threads) % threads
  }

  /** Before the real connection: in the skewed part of a batch the total is padded. */
  function Padded(level: nat, threads: nat, c: Counters): Counters
    requires threads > 0
  {
    if c.skew < level then Counters(c.skew + 1, c.total + Padding(c.total, threads), c.real_) else c
  }

  /** After the real connection. */
  function Counted(threads: nat, c: Counters): Counters
    requires threads > 0
  {
    Counters(if (c.real_ + 1) % threads == 0 then 0 else c.skew, c.total + 1, c.real_ + 1)
  }

  /** All counters after `i` successful preparations, whichever clients made them. */
  function After(level: nat, threads: nat, i: nat): Counters
    requires threads > 0
  {
    if i == 0 then Counters(0, 0, 0) else Counted(threads, Padded(level, threads, After(level, threads, i - 1)))
  }

  /** Server thread of the `i`-th real connection. */
  function Thread(level: nat, threads: nat, i: nat): nat
    requires threads > 0
  {
    Padded(level, threads, After(level, threads, i)).total % threads
  }

  /** `next` names the first successful attempt from each point on. */
  ghost predicate EventuallyConnects(connects: nat -> bool, next: nat -> nat)
  {
    forall n: nat :: next(n) >= n && connects(next(n)) && (!connects(n) ==> next(n + 1) == next(n))
  }

  class Client {
    const skew_level: nat
    const server_threads: nat
    var skew_count: nat
    var total_conns: nat
    var real_conns: nat

    function Abs(): Counters
      reads this
    {
      Counters(skew_count, total_conns, real_conns)
    }

    constructor (level: nat, threads: nat)
      ensures skew_level == level && server_threads == threads && Abs() == Counters(0, 0, 0)
    {
      skew_level, server_threads := level, threads;
      skew_count, total_conns, real_conns := 0, 0, 0;
    }

    /** Dummy connections until the next real one falls to thread 0; those that fail are retried. */
    method PadBatch(connects: nat -> bool, ghost next: nat -> nat, first: nat) returns (tried: nat)
      requires server_threads > 0 && EventuallyConnects(connects, next)
      modifies `total_conns
      ensures total_conns == old(total_conns) + Padding(old(total_conns), server_threads) && tried >= first
    {
      tried := first;
      ghost var goal := total_conns + Padding(total_conns, server_threads);
      PaddingIsLeast(total_conns, server_threads);
      hide Padding;
      while total_conns % server_threads != 0
        invariant total_conns <= goal && tried >= first && goal % server_threads == 0
        invariant forall n :: total_conns <= n < goal ==> n % server_threads != 0
        decreases goal - total_conns, next(tried) - tried
      {
        tried := tried + 1;
        if !connects(tried - 1) {
          continue;
        }
        total_conns := total_conns + 1;
      }
    }

    /** `connects` is the outcome of each attempt to connect, `first` the number of attempts before this call; the
        failed dummies are retried without being counted, the real one is not. */
    method Prepare(connects: nat -> bool, ghost next: nat -> nat, first: nat)
      returns (serverTid: nat, ok: bool, tried: nat)
      requires server_threads > 0 && EventuallyConnects(connects, next)
      modifies this
      ensures ok ==> Abs() == Counted(server_threads, Padded(skew_level, server_threads, old(Abs())))
      ensures ok ==> serverTid == Padded(skew_level, server_threads, old(Abs())).total % server_threads
      ensures !ok ==> Abs() == Padded(skew_level, server_threads, old(Abs()))
      ensures tried > first && ok == connects(tried - 1)
    {
      hide Padding, EventuallyConnects;
      tried := first;
      if skew_count < skew_level {
        tried := PadBatch(connects, next, first);
        skew_count := skew_count + 1;
      }
      tried := tried + 1;
      if !connects(tried - 1) {
        return 0, false, tried;
      }
      serverTid := total_conns % server_threads;
      real_conns := real_conns + 1;
      total_conns := total_conns + 1;
      if real_conns % server_threads == 0 {
        skew_count := 0;
      }
      return serverTid, true, tried;
    }
  }

  // ----- rows -----

  /** Place `r` of row `q`, rows being `t` long. */
  function Index(t: nat, q: nat, r: nat): nat { q * t + r }

  lemma IndexSteps(t: nat, q: nat, r: nat)
    ensures Index(t, q, r) + 1 == Index(t, q, r + 1) && Index(t, q, t) == Index(t, q + 1, 0) && Index(t, 0, 0) == 0
    ensures t > 0 ==> (Index(t, q, r) == 0 <==> q == 0 && r == 0)
  {
    Multiple(q, t);
    assert (q + 1) * t == q * t + t;
  }

  lemma IndexDivides(t: nat, q: nat, r: nat)
    requires r < t
    ensures Index(t, q, r) % t == r && Index(t, q, r) / t == q
  {
    Divides(q * t + r, t, q, r);
  }

  lemma InRows(t: nat, n: nat)
    requires t > 0
    ensures n == Index(t, n / t, n % t)
  {
  }

  lemma PaddingOf(t: nat, q: nat, r: nat)
    requires r < t
    ensures Padding(Index(t, q, r), t) == if r == 0 then 0 else t - r
  {
    IndexDivides(t, q, r);
    Divides(t, t, 1, 0);
    Divides(t - r, t, if r == 0 then 1 else 0, if r == 0 then 0 else t - r);
    hide Index;
  }

  lemma FillRow(t: nat, q: nat, r: nat)
    requires r <= t
    ensures Index(t, q, r) + (t - r) == Index(t, q, t)
  {
  }

  lemma BetweenRows(t: nat, q: nat, r: nat, n: nat)
    requires Index(t, q, r) <= n < Index(t, q, t) && r > 0
    ensures n % t != 0
  {
    Divides(n, t, q, n - q * t);
  }

  /** Padding reaches the next multiple and not a later one. */
  lemma PaddingIsLeast(total: nat, t: nat)
    requires t > 0
    ensures (total + Padding(total, t)) % t == 0
    ensures forall n :: total <= n < total + Padding(total, t) ==> n % t != 0
  {
    var q, r := total / t, total % t;
    InRows(t, total);
    PaddingOf(t, q, r);
    IndexSteps(t, q, r);
    IndexDivides(t, q + 1, 0);
    FillRow(t, q, r);
    hide Index, Padding;
    forall n | total <= n < total + Padding(total, t) ensures n % t != 0 {
      BetweenRows(t, q, r, n);
    }
  }

  // ----- the closed form -----

  /** Skewed connections in a batch; a level of 0 pads nothing and so behaves like a level of 1. */
  function Skewed(level: nat, threads: nat): nat
  {
    if level == 0 then 1 else if level < threads then level else threads
  }

  /** Round of the server and thread within it of the `j`-th connection of batch `b`, `k` being skewed. */
  function Round(k: nat, b: nat, j: nat): nat
    requires k > 0
  {
    Index(k, b, if j < k then j else k - 1)
  }

  function ThreadOf(k: nat, j: nat): nat { if j < k then 0 else j - k + 1 }

  /** The total is one more than the index of the last real connection. */
  ghost predicate AtIndex(level: nat, threads: nat, b: nat, j: nat)
    requires threads > 0
  {
    var k := Skewed(level, threads);
    var c := After(level, threads, Index(threads, b, j));
    && c.real_ == Index(threads, b, j) && c.skew == (if j < level then j else level)
    && c.total == if j > 0 then Index(threads, Round(k, b, j - 1), ThreadOf(k, j - 1)) + 1
                  else if b > 0 then Index(threads, Round(k, b - 1, threads - 1), ThreadOf(k, threads - 1)) + 1
                  else 0
  }

  /** The total just before the `j`-th real connection of batch `b` is made. */
  ghost predicate Lands(level: nat, threads: nat, b: nat, j: nat)
    requires threads > 0
  {
    var k := Skewed(level, threads);
    Padded(level, threads, After(level, threads, Index(threads, b, j))).total ==
    Index(threads, Round(k, b, j), ThreadOf(k, j))
  }

  /** Padding after place `r` of a round leads to the start of the next. */
  lemma PaddedTotal(t: nat, q: nat, r: nat)
    requires r < t
    ensures Index(t, q, r) + 1 + Padding(Index(t, q, r) + 1, t) == Index(t, q + 1, 0)
    ensures Padding(0, t) == 0
  {
    PaddingOf(t, 0, 0);
    IndexSteps(t, q, r);
    IndexSteps(t, 0, 0);
    if r + 1 == t { PaddingOf(t, q + 1, 0); } else { PaddingOf(t, q, r + 1); }
    hide Index, Padding;
    if r + 1 < t { FillRow(t, q, r + 1); }
  }

  lemma LandsThere(level: nat, threads: nat, b: nat, j: nat)
    requires j < threads && AtIndex(level, threads, b, j)
    ensures Lands(level, threads, b, j)
  {
    var k := Skewed(level, threads);
    hide After, Index, Padding;
    if j > 0 {
      PaddedTotal(threads, Round(k, b, j - 1), ThreadOf(k, j - 1));
      IndexSteps(k, b, j - 1);
      IndexSteps(threads, Round(k, b, j), ThreadOf(k, j - 1));
    } else if b > 0 {
      PaddedTotal(threads, Round(k, b - 1, threads - 1), ThreadOf(k, threads - 1));
      IndexSteps(k, b - 1, k - 1);
      if level == 0 {
        IndexSteps(threads, Round(k, b - 1, threads - 1), ThreadOf(k, threads - 1));
      }
    } else {
      PaddedTotal(threads, 0, 0);
      IndexSteps(k, 0, 0);
      IndexSteps(threads, 0, 0);
    }
  }

  lemma StaysAtIndex(level: nat, threads: nat, b: nat, j: nat)
    requires j < threads && AtIndex(level, threads, b, j)
    ensures if j + 1 < threads then AtIndex(level, threads, b, j + 1) else AtIndex(level, threads, b + 1, 0)
  {
    var i := Index(threads, b, j);
    LandsThere(level, threads, b, j);
    IndexSteps(threads, b, j);
    assert After(level, threads, i + 1) == Counted(threads, Padded(level, threads, After(level, threads, i)));
    if j + 1 < threads { IndexDivides(threads, b, j + 1); } else { IndexDivides(threads, b + 1, 0); }
    hide After, Round, ThreadOf, Index, Padding;
  }

  lemma {:induction false} AtIndexAlways(level: nat, threads: nat, b: nat, j: nat)
    requires j < threads
    ensures AtIndex(level, threads, b, j)
    decreases b, j
  {
    IndexSteps(threads, b, j);
    if j > 0 {
      AtIndexAlways(level, threads, b, j - 1);
      StaysAtIndex(level, threads, b, j - 1);
    } else if b > 0 {
      AtIndexAlways(level, threads, b - 1, threads - 1);
      StaysAtIndex(level, threads, b - 1, threads - 1);
    }
  }

  /** The schedule in closed form: in every batch of `threads` connections the first `k` start a new round of the server
      each and so land on thread 0, and the others follow on the threads after it. */
  lemma ClosedForm(level: nat, threads: nat, b: nat, j: nat)
    requires j < threads
    ensures var k := Skewed(level, threads);
            && Padded(level, threads, After(level, threads, b * threads + j)).total ==
               (if j < k then (b * k + j) * threads else (b * k + (k - 1)) * threads + (j - k + 1))
            && Thread(level, threads, b * threads + j) == if j < k then 0 else j - k + 1
  {
    var k := Skewed(level, threads);
    AtIndexAlways(level, threads, b, j);
    LandsThere(level, threads, b, j);
    IndexDivides(threads, Round(k, b, j), ThreadOf(k, j));
    hide Padded, After;
    assert Index(threads, b, j) == b * threads + j;
  }

  /** A level of at most 1 leaves the server's own round robin: no dummies, thread `i % threads`. */
  lemma NoSkewNoDummies(level: nat, threads: nat, i: nat)
    requires threads > 0 && level <= 1
    ensures Padded(level, threads, After(level, threads, i)).total == i && Thread(level, threads, i) == i % threads
  {
    var b, j := i / threads, i % threads;
    assert i == b * threads + j;
    ClosedForm(level, threads, b, j);
    hide After, Thread, Padded;
    assert b * 1 + 0 == b;
  }

  // ----- how many land where -----

  /** Among the first `i` real connections. */
  function OnThread(level: nat, threads: nat, i: nat, thread: nat): nat
    requires threads > 0
  {
    if i == 0 then 0
    else OnThread(level, threads, i - 1, thread) + if Thread(level, threads, i - 1) == thread then 1 else 0
  }

  ghost predicate Piled(level: nat, threads: nat, b: nat, r: nat, thread: nat)
    requires threads > 0
  {
    var k := Skewed(level, threads);
    OnThread(level, threads, Index(threads, b, r), thread) ==
    if thread == 0 then Index(k, b, if r < k then r else k)
    else if thread > threads - k then 0
    else b + if r >= thread + k then 1 else 0
  }

  lemma ThreadAt(level: nat, threads: nat, b: nat, j: nat)
    requires j < threads
    ensures Thread(level, threads, Index(threads, b, j)) == ThreadOf(Skewed(level, threads), j)
  {
    ClosedForm(level, threads, b, j);
    hide Thread;
  }

  lemma {:induction false} PiledInRows(level: nat, threads: nat, b: nat, r: nat, thread: nat)
    requires r <= threads && thread < threads
    ensures Piled(level, threads, b, r, thread)
    decreases b, r
  {
    var k := Skewed(level, threads);
    if r > 0 {
      PiledInRows(level, threads, b, r - 1, thread);
      ThreadAt(level, threads, b, r - 1);
      IndexSteps(threads, b, r - 1);
      IndexSteps(k, b, r - 1);
    } else if b > 0 {
      PiledInRows(level, threads, b - 1, threads, thread);
      IndexSteps(threads, b - 1, 0);
      IndexSteps(k, b - 1, 0);
    } else {
      IndexSteps(threads, 0, 0);
      IndexSteps(k, 0, 0);
    }
    hide Thread, Index;
  }

  /** After any number of connections thread 0 has `k` of each full batch and up to `k` of the last; another thread has
      at most one of each batch, none if it is among the last `k - 1`. */
  lemma PiledUp(level: nat, threads: nat, b: nat, r: nat, thread: nat)
    requires r < threads && thread < threads
    ensures var k := Skewed(level, threads);
            OnThread(level, threads, b * threads + r, thread) ==
            if thread == 0 then b * k + (if r < k then r else k)
            else if thread > threads - k then 0
            else b + if r >= thread + k then 1 else 0
  {
    PiledInRows(level, threads, b, r, thread);
    hide OnThread;
    assert Index(threads, b, r) == b * threads + r;
  }

  // ----- rates -----

  function SkewedShare(goal: real, skew: real, t: real, c: real): real
    requires c != 0.0
  {
    goal * skew * t / c
  }

  function OtherShare(goal: real, skew: real, t: real, c: real): real
    requires c != 0.0 && t != 1.0
  {
    goal * (1.0 - skew) * t / (c * (t - 1.0))
  }

  /** Rate of a client on the skewed thread, and of one on any other, for a goal and the share of it meant for
      thread 0. */
  function SkewedRate(goal: real, skew: real, threads: nat, clients: nat): real
    requires clients > 0
  {
    SkewedShare(goal, skew, threads as real, clients as real)
  }

  function OtherRate(goal: real, skew: real, threads: nat, clients: nat): real
    requires clients > 0 && threads > 1
  {
    OtherShare(goal, skew, threads as real, clients as real)
  }

  /** `qpsPerClient`: one rate per server thread. */
  function Rates(goal: real, skew: real, threads: nat, clients: nat): (rates: seq<real>)
    requires clients > 0 && threads > 0
    ensures |rates| == threads
  {
    seq(threads, i requires 0 <= i < threads =>
          if i == 0 then SkewedRate(goal, skew, threads, clients) else OtherRate(goal, skew, threads, clients))
  }

  datatype Interval = Interval(goal: real, skew: real)

  class Master {
    const clients: nat
    const threads: nat
    var qpsPerClient: seq<real>
    var currGoalQPS: real
    var currentSkew: real

    /** The rates of the first interval. */
    constructor (clients: nat, threads: nat, first: Interval)
      requires clients > 0 && threads > 0
      ensures this.clients == clients && this.threads == threads
      ensures qpsPerClient == Rates(first.goal, first.skew, threads, clients)
    {
      this.clients, this.threads := clients, threads;
      currGoalQPS, currentSkew := first.goal, first.skew;
      qpsPerClient := [SkewedRate(first.goal, first.skew, threads, clients)];
      new;
      var i := 1;
      while i < threads
        invariant 1 <= i <= threads && qpsPerClient == Rates(first.goal, first.skew, threads, clients)[..i]
      {
        qpsPerClient := qpsPerClient + [OtherRate(first.goal, first.skew, threads, clients)];
        i := i + 1;
      }
    }

    /** A later interval overwrites them in place. */
    method Advance(interval: Interval)
      requires clients > 0 && threads > 0 && |qpsPerClient| == threads
      modifies this
      ensures qpsPerClient == Rates(interval.goal, interval.skew, threads, clients)
    {
      currentSkew, currGoalQPS := interval.skew, interval.goal;
      qpsPerClient := qpsPerClient[0 := SkewedRate(currGoalQPS, currentSkew, threads, clients)];
      var i := 1;
      while i < threads
        invariant 1 <= i <= threads == |qpsPerClient| && currGoalQPS == interval.goal && currentSkew == interval.skew
        invariant qpsPerClient[..i] == Rates(interval.goal, interval.skew, threads, clients)[..i]
      {
        qpsPerClient := qpsPerClient[i := OtherRate(currGoalQPS, currentSkew, threads, clients)];
        i := i + 1;
      }
    }
  }

  /** What the first `i` clients are told to send, each by the thread it landed on. */
  function Offered(level: nat, rates: seq<real>, i: nat): real
    requires |rates| > 0
  {
    if i == 0 then 0.0 else Offered(level, rates, i - 1) + RateOf(level, rates, i - 1)
  }

  function RateOf(level: nat, rates: seq<real>, i: nat): real
    requires |rates| > 0
  {
    rates[Thread(level, |rates|, i)]
  }

  /** What the first `i` clients are told to send to one thread. */
  function OfferedTo(level: nat, rates: seq<real>, i: nat, thread: nat): real
    requires thread < |rates|
  {
    OnThread(level, |rates|, i, thread) as real * rates[thread]
  }

  lemma Share(n: int, x: real)
    ensures (n + 1) as real * x == n as real * x + x
    ensures 0 as real * x == 0.0
  {
    assert (n + 1) as real == n as real + 1.0;
  }

  function Weighted(n: int, x: real, m: int, y: real): real { n as real * x + m as real * y }

  lemma OneMoreClient(n: int, x: real, m: int, y: real)
    ensures Weighted(n, x, m, y) + x == Weighted(n + 1, x, m, y)
    ensures Weighted(n, x, m, y) + y == Weighted(n, x, m + 1, y)
    ensures Weighted(0, x, 0, y) == 0.0
  {
    Share(n, x);
    Share(m, y);
    Share(0, x);
    Share(0, y);
  }

  lemma OnlyThread(level: nat, i: nat)
    ensures Thread(level, 1, i) == 0
  {
  }

  /** Thread 0's clients each get its rate, the others all the same one. */
  lemma {:induction false} OfferedByKind(level: nat, rates: seq<real>, other: real, i: nat)
    requires |rates| > 0 && forall t :: 0 < t < |rates| ==> rates[t] == other
    ensures var z := OnThread(level, |rates|, i, 0);
            Offered(level, rates, i) == Weighted(z, rates[0], i - z, other)
  {
    hide Weighted;
    if i > 0 {
      OfferedByKind(level, rates, other, i - 1);
      var t, z := Thread(level, |rates|, i - 1), OnThread(level, |rates|, i - 1, 0);
      hide Thread;
      OneMoreClient(z, rates[0], i - 1 - z, other);
      assert i - 1 - z + 1 == i - z && i - 1 - z == i - (z + 1);
    } else {
      OneMoreClient(0, rates[0], 0, other);
    }
  }

  /** A single thread gets all clients, at the skewed rate: the goal is scaled by the skew. */
  lemma {:induction false} OfferedToOne(level: nat, goal: real, skew: real, clients: nat, i: nat)
    requires clients > 0
    ensures Offered(level, Rates(goal, skew, 1, clients), i) == i as real * SkewedRate(goal, skew, 1, clients)
  {
    hide SkewedRate, Thread;
    if i > 0 {
      OfferedToOne(level, goal, skew, clients, i - 1);
      OnlyThread(level, i - 1);
      Share(i - 1, SkewedRate(goal, skew, 1, clients));
    }
  }

  /** With `z` of `c` clients skewed, the total misses the goal by this product. */
  lemma Miss(goal: real, skew: real, t: real, c: real, z: real)
    requires c > 0.0 && t > 1.0
    ensures var total := z * (goal * skew * t / c) + (c - z) * (goal * (1.0 - skew) * t / (c * (t - 1.0)));
            (total - goal) * c * (t - 1.0) == goal * (t * z - c) * (skew * t - 1.0)
  {
    var a := goal * skew * t / c;
    var b := goal * (1.0 - skew) * t / (c * (t - 1.0));
    assert a * c == goal * skew * t;
    assert b * (c * (t - 1.0)) == goal * (1.0 - skew) * t;
    var total := z * a + (c - z) * b;
    calc {
      (total - goal) * c * (t - 1.0);
      z * (a * c) * (t - 1.0) + (c - z) * (b * (c * (t - 1.0))) - goal * c * (t - 1.0);
      z * (goal * skew * t) * (t - 1.0) + (c - z) * (goal * (1.0 - skew) * t) - goal * c * (t - 1.0);
      goal * (t * z - c) * (skew * t - 1.0);
    }
  }

  /** Whether thread 0 has exactly its round-robin share. */
  lemma FairShare(level: nat, threads: nat, clients: nat)
    requires threads > 1 && clients > 0
    ensures threads * OnThread(level, threads, clients, 0) == clients <==> level <= 1 && clients % threads == 0
  {
    var b, r := clients / threads, clients % threads;
    InRows(threads, clients);
    PiledInRows(level, threads, b, r, 0);
    ShareOfRows(threads, b, r, Skewed(level, threads));
    hide OnThread, Index;
  }

  lemma ShareOfRows(t: nat, b: nat, r: nat, k: nat)
    requires r < t && t > 1 && 0 < k && Index(t, b, r) > 0
    ensures t * Index(k, b, if r < k then r else k) == Index(t, b, r) <==> k == 1 && r == 0
  {
    if k == 1 {
      RoundRobinShare(t, b, r);
    } else if b == 0 {
      MoreThan(t, if r < k then r else k, r);
    } else {
      MultipleAtLeast(b, k, 2);
      MoreBatches(t, b, b * k + if r < k then r else k, r);
    }
  }

  lemma RoundRobinShare(t: nat, b: nat, r: nat)
    requires r < t && t > 1
    ensures b * 1 == b
    ensures t * (b + if r < 1 then r else 1) == b * t + r <==> r == 0
  {
    assert t * (b + 1) == b * t + t;
  }

  lemma MoreBatches(t: nat, b: nat, z: nat, r: nat)
    requires r < t && b > 0 && z >= b + b
    ensures t * z > b * t + r
  {
    MultipleAtLeast(t, z, b + 1);
    assert t * (b + 1) == b * t + t;
  }

  lemma MultipleAtLeast(x: nat, y: nat, z: nat)
    requires y >= z
    ensures x * y >= x * z
  {
  }

  lemma MoreThan(t: nat, z: nat, r: nat)
    requires 0 < r < t && z >= 1
    ensures t * z > r
  {
    MultipleAtLeast(t, z, 1);
  }

  lemma NoFactorIsZero(x: real, y: real, z: real)
    ensures x * y * z == 0.0 <==> x == 0.0 || y == 0.0 || z == 0.0
  {
  }

  /** All clients together are told to send the goal exactly when there is nothing to send, or the skew asks for a fair
      share, or no extra connection is piled up and the clients come in full batches. */
  lemma GoalIsConserved(level: nat, goal: real, skew: real, threads: nat, clients: nat)
    requires threads > 1 && clients > 0
    ensures Offered(level, Rates(goal, skew, threads, clients), clients) == goal <==>
            goal == 0.0 || skew * threads as real == 1.0 || (level <= 1 && clients % threads == 0)
  {
    var z := OnThread(level, threads, clients, 0);
    OfferedByKind(level, Rates(goal, skew, threads, clients), OtherRate(goal, skew, threads, clients), clients);
    FairShare(level, threads, clients);
    hide Offered, OnThread, Thread;
    assert Rates(goal, skew, threads, clients)[0] == SkewedRate(goal, skew, threads, clients);
    TotalIsGoal(goal, skew, threads, clients, z);
  }

  lemma TotalIsGoal(goal: real, skew: real, threads: nat, clients: nat, z: nat)
    requires threads > 1 && clients > 0
    ensures var a, b := SkewedRate(goal, skew, threads, clients), OtherRate(goal, skew, threads, clients);
            Weighted(z, a, clients - z, b) == goal <==>
            goal == 0.0 || skew * threads as real == 1.0 || threads * z == clients
  {
    hide SkewedRate, OtherRate, Weighted;
    MissOfClients(goal, skew, threads, clients, z);
    AsReals(threads, z);
    MissIsNothing(goal, skew, threads as real, clients as real, z as real,
                  Weighted(z, SkewedRate(goal, skew, threads, clients), clients - z,
                           OtherRate(goal, skew, threads, clients)));
  }

  lemma MissIsNothing(goal: real, skew: real, t: real, c: real, z: real, total: real)
    requires c > 0.0 && t > 1.0 && (total - goal) * c * (t - 1.0) == goal * (t * z - c) * (skew * t - 1.0)
    ensures total == goal <==> goal == 0.0 || skew * t == 1.0 || t * z == c
  {
    NoFactorIsZero(goal, t * z - c, skew * t - 1.0);
    NoFactorIsZero(total - goal, c, t - 1.0);
  }

  lemma MissOfClients(goal: real, skew: real, threads: nat, clients: nat, z: nat)
    requires threads > 1 && clients > 0
    ensures var t, c := threads as real, clients as real;
            var a, b := SkewedRate(goal, skew, threads, clients), OtherRate(goal, skew, threads, clients);
            (Weighted(z, a, clients - z, b) - goal) * c * (t - 1.0) == goal * (t * z as real - c) * (skew * t - 1.0)
  {
    assert (clients - z) as real == clients as real - z as real && (threads - 1) as real == threads as real - 1.0;
    Miss(goal, skew, threads as real, clients as real, z as real);
  }

  /** `n` full batches: `c` clients, `z` of them on thread 0. */
  ghost predicate Batches(z: real, c: real, n: real, t: real, k: real)
  {
    z == n * k && c == n * t && c > 0.0 && t > 1.0
  }

  lemma BatchCounts(level: nat, threads: nat, n: nat)
    requires threads > 1 && Index(threads, n, 0) > 0
    ensures var clients := Index(threads, n, 0);
            Batches(OnThread(level, threads, clients, 0) as real, clients as real, n as real, threads as real,
                    Skewed(level, threads) as real)
  {
    PiledInRows(level, threads, n, 0, 0);
    RowsAreBatches(threads, n, Skewed(level, threads));
    hide OnThread, Index, Batches;
  }

  lemma RowsAreBatches(threads: nat, n: nat, k: nat)
    requires threads > 1 && Index(threads, n, 0) > 0
    ensures Batches(Index(k, n, 0) as real, Index(threads, n, 0) as real, n as real, threads as real, k as real)
  {
    RowsAsReal(threads, n);
    RowsAsReal(k, n);
    hide Index;
  }

  lemma RowsAsReal(t: nat, q: nat)
    ensures Index(t, q, 0) as real == q as real * t as real
  {
    AsReals(q, t);
  }

  lemma AsReals(n: nat, m: nat)
    ensures (n * m) as real == n as real * m as real
  {
  }

  /** The goal for thread 0, once for each of its `k` connections in a batch, and what the other threads get. */
  function PiledGoal(goal: real, skew: real, k: real): real { k * skew * goal }

  function RestGoal(goal: real, skew: real, k: real, t: real): real
    requires t != 1.0
  {
    (t - k) / (t - 1.0) * (1.0 - skew) * goal
  }

  lemma PiledTotal(z: real, c: real, n: real, t: real, k: real, goal: real, skew: real)
    requires Batches(z, c, n, t, k)
    ensures z * SkewedShare(goal, skew, t, c) == PiledGoal(goal, skew, k)
  {
    BatchShare(n, t, k, goal * skew);
  }

  lemma RestTotal(z: real, c: real, n: real, t: real, k: real, goal: real, skew: real)
    requires Batches(z, c, n, t, k)
    ensures (c - z) * OtherShare(goal, skew, t, c) == RestGoal(goal, skew, k, t)
  {
    RestShare(n, t, k, goal * (1.0 - skew));
    assert n * t - n * k == n * (t - k);
  }

  lemma BothTotals(z: int, clients: int, n: real, t: real, k: real, goal: real, skew: real)
    requires Batches(z as real, clients as real, n, t, k)
    ensures z as real * SkewedShare(goal, skew, t, clients as real) == PiledGoal(goal, skew, k)
    ensures var c := clients as real;
            Weighted(z, SkewedShare(goal, skew, t, c), clients - z, OtherShare(goal, skew, t, c)) ==
            PiledGoal(goal, skew, k) + RestGoal(goal, skew, k, t)
  {
    PiledTotal(z as real, clients as real, n, t, k, goal, skew);
    RestTotal(z as real, clients as real, n, t, k, goal, skew);
    hide SkewedShare, OtherShare, PiledGoal, RestGoal;
    assert (clients - z) as real == clients as real - z as real;
  }

  lemma BatchShare(n: real, t: real, k: real, x: real)
    requires n != 0.0 && t > 1.0
    ensures n * k * (x * t / (n * t)) == k * x
  {
    assert x * t / (n * t) == x / n;
  }

  lemma RestShare(n: real, t: real, k: real, x: real)
    requires n != 0.0 && t > 1.0
    ensures n * (t - k) * (x * t / (n * t * (t - 1.0))) == (t - k) / (t - 1.0) * x
  {
    assert x * t / (n * t * (t - 1.0)) == x / (n * (t - 1.0));
  }

  /** With full batches of clients thread 0 is sent its share of the goal once for every skewed connection of a batch,
      and the threads that still get a client share the rest. */
  lemma FullBatches(level: nat, goal: real, skew: real, threads: nat, clients: nat)
    requires threads > 1 && clients > 0 && clients % threads == 0
    ensures var rates, k := Rates(goal, skew, threads, clients), Skewed(level, threads) as real;
            && OfferedTo(level, rates, clients, 0) == PiledGoal(goal, skew, k)
            && Offered(level, rates, clients) == PiledGoal(goal, skew, k) + RestGoal(goal, skew, k, threads as real)
  {
    InRows(threads, clients);
    FullRows(level, goal, skew, threads, clients, clients / threads);
  }

  lemma RatesAre(goal: real, skew: real, threads: nat, clients: nat)
    requires clients > 0 && threads > 1
    ensures var rates := Rates(goal, skew, threads, clients);
            && rates[0] == SkewedShare(goal, skew, threads as real, clients as real)
            && forall t :: 0 < t < threads ==> rates[t] == OtherShare(goal, skew, threads as real, clients as real)
  {
    var rates := Rates(goal, skew, threads, clients);
    assert rates[0] == SkewedRate(goal, skew, threads, clients);
    assert forall t :: 0 < t < threads ==> rates[t] == OtherRate(goal, skew, threads, clients);
    hide Rates, SkewedShare, OtherShare;
  }

  lemma FullRows(level: nat, goal: real, skew: real, threads: nat, clients: nat, n: nat)
    requires threads > 1 && clients > 0 && clients == Index(threads, n, 0)
    ensures var rates, k := Rates(goal, skew, threads, clients), Skewed(level, threads) as real;
            && OfferedTo(level, rates, clients, 0) == PiledGoal(goal, skew, k)
            && Offered(level, rates, clients) == PiledGoal(goal, skew, k) + RestGoal(goal, skew, k, threads as real)
  {
    hide Offered, OnThread, Weighted, Skewed, SkewedShare, OtherShare, PiledGoal, RestGoal, Batches, Index, Rates;
    var rates, other := Rates(goal, skew, threads, clients), OtherShare(goal, skew, threads as real, clients as real);
    RatesAre(goal, skew, threads, clients);
    OfferedByKind(level, rates, other, clients);
    BatchCounts(level, threads, n);
    BothTotals(OnThread(level, threads, clients, 0), clients, n as real, threads as real,
               Skewed(level, threads) as real, goal, skew);
  }

  lemma GoalIsConservedByOne(level: nat, goal: real, skew: real, clients: nat)
    requires clients > 0
    ensures Offered(level, Rates(goal, skew, 1, clients), clients) == skew * goal
  {
    OfferedToOne(level, goal, skew, clients, clients);
  }
}
