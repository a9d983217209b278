/** What the statistics of a run say of the updates that were made: each counter of each second, the totals and each
    entry of the latency maps, as sums over the updates themselves; and the same after merging. */
module RunAccounts {
  import opened S = RunStats

  /** Everything that is counted in a second. */
  datatype Counter =
    | BytesGet | BytesSet | OpsGet | OpsSet | OpsWait | Hits | Misses | LatencyGet | LatencySet | LatencyWait
  {
    /** Where it is kept. */
    function In(a: Amount): nat
    {
      match this
      case BytesGet => a.bytesGet
      case BytesSet => a.bytesSet
      case OpsGet => a.opsGet
      case OpsSet => a.opsSet
      case OpsWait => a.opsWait
      case Hits => a.hits
      case Misses => a.misses
      case LatencyGet => a.latencyGet
      case LatencySet => a.latencySet
      case LatencyWait => a.latencyWait
    }

    /** What an operation adds to it. */
    function Of(op: Op): nat
    {
      match this
      case BytesGet => if op.GetOp? then op.bytes else 0
      case BytesSet => if op.SetOp? then op.bytes else 0
      case OpsGet => if op.GetOp? then 1 else 0
      case OpsSet => if op.SetOp? then 1 else 0
      case OpsWait => if op.WaitOp? then 1 else 0
      case Hits => if op.GetOp? then op.hits else 0
      case Misses => if op.GetOp? then op.misses else 0
      case LatencyGet => if op.GetOp? then op.latency else 0
      case LatencySet => if op.SetOp? then op.latency else 0
      case LatencyWait => if op.WaitOp? then op.latency else 0
    }
  }

  function Sum<T>(q: seq<T>, f: T -> nat): nat
  {
    if q == [] then 0 else Sum(q[..|q| - 1], f) + f(q[|q| - 1])
  }

  lemma {:induction false} SomethingSummed<T>(q: seq<T>, x: T, f: T -> nat)
    requires x in q
    ensures Sum(q, f) >= f(x)
  {
    var n := |q| - 1;
    assert q == q[..n] + [q[n]];
    if x in q[..n] { SomethingSummed(q[..n], x, f); }
  }

  // ----- the sums of the specification, counter by counter -----

  lemma PlusIn(c: Counter, a: Amount, b: Amount)
    ensures c.In(Plus(a, b)) == c.In(a) + c.In(b) && c.In(ZERO) == 0
  {
  }

  lemma OpIn(c: Counter, op: Op)
    ensures c.In(AmountOf(op)) == c.Of(op)
  {
  }

  lemma {:induction false} SumAllIn(c: Counter, seconds: seq<Second>)
    ensures c.In(SumAll(seconds)) == Sum(seconds, (e: Second) => c.In(e.amount))
  {
    hide Plus, Counter.In;
    PlusIn(c, ZERO, ZERO);
    if seconds != [] {
      var n := |seconds| - 1;
      SumAllIn(c, seconds[..n]);
      PlusIn(c, SumAll(seconds[..n]), seconds[n].amount);
    }
  }

  lemma {:induction false} AtIn(c: Counter, seconds: seq<Second>, t: nat)
    ensures c.In(At(seconds, t)) == Sum(seconds, (e: Second) => if e.second == t then c.In(e.amount) else 0)
  {
    hide Plus, Counter.In;
    PlusIn(c, ZERO, ZERO);
    if seconds != [] {
      var n := |seconds| - 1;
      AtIn(c, seconds[..n], t);
      PlusIn(c, At(seconds[..n], t), If(seconds[n].second == t, seconds[n].amount));
    }
  }

  lemma {:induction false} TotalIn(c: Counter, us: seq<Update>)
    ensures c.In(Total(us)) == Sum(us, (u: Update) => c.Of(u.op))
  {
    hide Plus, Counter.In, Counter.Of, AmountOf;
    PlusIn(c, ZERO, ZERO);
    if us != [] {
      var n := |us| - 1;
      TotalIn(c, us[..n]);
      PlusIn(c, Total(us[..n]), AmountOf(us[n].op));
      OpIn(c, us[n].op);
    }
  }

  lemma SecondIs(start: nat, ts: nat, t: nat)
    requires ts >= start
    ensures SecondOf(start, ts) == t <==> (ts - start) / 1000000 == t
  {
  }

  /** The updates of second `t` and what they add to a counter. */
  function During(start: nat, t: nat, c: Counter): Update -> nat
  {
    (u: Update) => if (u.ts - start) / 1000000 == t then c.Of(u.op) else 0
  }

  lemma {:induction false} TotalAtIn(c: Counter, start: nat, us: seq<Update>, t: nat)
    requires NotBefore(start, us)
    ensures c.In(TotalAt(start, us, t)) == Sum(us, During(start, t, c))
  {
    hide Plus, Counter.In, Counter.Of, AmountOf, SecondOf;
    PlusIn(c, ZERO, ZERO);
    if us != [] {
      var n := |us| - 1;
      TotalAtIn(c, start, us[..n], t);
      SecondIs(start, us[n].ts, t);
      PlusIn(c, TotalAt(start, us[..n], t), If(SecondOf(start, us[n].ts) == t, AmountOf(us[n].op)));
      OpIn(c, us[n].op);
    }
  }

  // ----- a run -----

  /** Whatever the times: each counter, summed over the seconds and the current one, is what the updates add to it. */
  lemma CountersAddUp(start: nat, us: seq<Update>, c: Counter)
    requires NotBefore(start, us)
    ensures var s := Run(start, us);
            Sum(s.seconds + [s.cur], (e: Second) => c.In(e.amount)) == Sum(us, (u: Update) => c.Of(u.op))
  {
    RunConserves(start, us);
    hide Run, Plus, Counter.In, Counter.Of, SumAll;
    var s := Run(start, us);
    SumOfOneMore(s.seconds, s.cur, 0);
    SumAllIn(c, s.seconds + [s.cur]);
    TotalIn(c, us);
  }

  function Entries(s: Stats): seq<Second> { s.seconds + [s.cur] }

  lemma EntryHolds(start: nat, us: seq<Update>, c: Counter, entries: seq<Second>, i: nat)
    requires NotBefore(start, us) && NonDecreasing(us) && entries == Entries(Run(start, us)) && i < |entries|
    ensures c.In(entries[i].amount) == Sum(us, During(start, entries[i].second, c))
  {
    RunConserves(start, us);
    hide Run, Plus, Counter.In, Counter.Of, At, TotalAt, Conserves, NotBefore, NonDecreasing, Sum, During;
    AtEntry(entries, i);
    SecondsAreExact(start, us, entries[i].second);
    TotalAtIn(c, start, us, entries[i].second);
  }

  lemma CountedThen(start: nat, u: Update, t: nat) returns (c: Counter)
    requires (u.ts - start) / 1000000 == t
    ensures During(start, t, c)(u) == 1
  {
    c := if u.op.GetOp? then OpsGet else if u.op.SetOp? then OpsSet else OpsWait;
  }

  lemma SomethingThen(start: nat, us: seq<Update>, u: Update, t: nat)
    requires NotBefore(start, us) && u in us && (u.ts - start) / 1000000 == t
    ensures TotalAt(start, us, t) != ZERO
  {
    var c := CountedThen(start, u, t);
    hide During, Sum, TotalAt, Counter.In, NotBefore, Plus;
    TotalAtIn(c, start, us, t);
    SomethingSummed(us, u, During(start, t, c));
    PlusIn(c, ZERO, ZERO);
  }

  lemma HasEntry(start: nat, us: seq<Update>, u: Update, t: nat, entries: seq<Second>)
    requires NotBefore(start, us) && NonDecreasing(us) && entries == Entries(Run(start, us))
    requires u in us && (u.ts - start) / 1000000 == t
    ensures exists e <- entries :: e.second == t
  {
    SomethingThen(start, us, u, t);
    hide Run, At, TotalAt, NotBefore, NonDecreasing;
    SecondsAreExact(start, us, t);
    SomethingThere(entries, t);
  }

  /** With times that never go back: each second has one entry, which holds what the updates of that second add up to,
      and no update falls into a second without an entry. */
  lemma SecondsHold(start: nat, us: seq<Update>, c: Counter, entries: seq<Second>)
    requires NotBefore(start, us) && NonDecreasing(us) && entries == Entries(Run(start, us))
    ensures forall i, j :: 0 <= i < j < |entries| ==> entries[i].second < entries[j].second
    ensures forall i :: 0 <= i < |entries| ==>
              c.In(entries[i].amount) == Sum(us, During(start, entries[i].second, c))
    ensures forall u <- us :: exists e <- entries :: e.second == (u.ts - start) / 1000000
  {
    RunConserves(start, us);
    hide Run, Plus, Counter.In, Counter.Of, At, TotalAt, During, Conserves, Sum, NonDecreasing;
    forall i | 0 <= i < |entries|
      ensures c.In(entries[i].amount) == Sum(us, During(start, entries[i].second, c))
    {
      EntryHolds(start, us, c, entries, i);
    }
    forall u | u in us ensures exists e <- entries :: e.second == (u.ts - start) / 1000000 {
      HasEntry(start, us, u, (u.ts - start) / 1000000, entries);
    }
  }

  lemma SomethingThere(seconds: seq<Second>, t: nat)
    requires At(seconds, t) != ZERO
    ensures exists e <- seconds :: e.second == t
  {
    hide At;
    if forall e <- seconds :: e.second != t {
      AtElsewhere(seconds, t);
    }
  }

  /** The totals, and each entry of the latency maps: the number of responses of its kind and its bucket. */
  lemma {:induction false} TotalsAndMaps(start: nat, us: seq<Update>, v: int)
    requires NotBefore(start, us)
    ensures var s := Run(start, us);
            && s.ops == |us| && s.latency == Sum(us, (u: Update) => u.op.latency)
            && s.bytes == Sum(us, (u: Update) => if u.op.WaitOp? then 0 else u.op.bytes)
            && s.getMap[v] == Sum(us, (u: Update) => if u.op.GetOp? && u.op.bucket == v then 1 else 0)
            && s.setMap[v] == Sum(us, (u: Update) => if u.op.SetOp? && u.op.bucket == v then 1 else 0)
            && s.waitMap[v] == Sum(us, (u: Update) => if u.op.WaitOp? && u.op.bucket == v then 1 else 0)
  {
    if us != [] {
      var n := |us| - 1;
      TotalsAndMaps(start, us[..n], v);
      var s := Rolled(Run(start, us[..n]), us[n].ts);
      RolledTotals(Run(start, us[..n]), us[n].ts);
      AddedTotals(s, us[n].op, v);
      hide Rolled, Added;
    }
  }

  lemma RolledTotals(s: Stats, ts: nat)
    requires ts >= s.start
    ensures Rolled(s, ts) == s.(seconds := Rolled(s, ts).seconds, cur := Rolled(s, ts).cur)
  {
  }

  lemma AddedTotals(s: Stats, op: Op, v: int)
    ensures var t := Added(s, op);
            && t.ops == s.ops + 1 && t.latency == s.latency + op.latency
            && t.bytes == s.bytes + (if op.WaitOp? then 0 else op.bytes)
            && t.getMap[v] == s.getMap[v] + (if op.GetOp? && op.bucket == v then 1 else 0)
            && t.setMap[v] == s.setMap[v] + (if op.SetOp? && op.bucket == v then 1 else 0)
            && t.waitMap[v] == s.waitMap[v] + (if op.WaitOp? && op.bucket == v then 1 else 0)
  {
    OneInBucket(s.getMap, op.bucket, v);
    OneInBucket(s.setMap, op.bucket, v);
    OneInBucket(s.waitMap, op.bucket, v);
    hide Plus, AmountOf, InBucket;
  }

  // ----- merging -----

  /** What the entries of second `t` hold of a counter. */
  function HeldAt(c: Counter, t: nat): Stats -> nat
  {
    (s: Stats) => Sum(s.seconds, (e: Second) => if e.second == t then c.In(e.amount) else 0)
  }

  /** Each counter of each second, each total and each entry of the maps is the sum of the two. */
  lemma MergedSums(s: Stats, o: Stats, c: Counter, t: nat, v: int)
    requires Mergeable(s) && Mergeable(o)
    ensures var m := Merged(s, o);
            && (forall i, j :: 0 <= i < j < |m.seconds| ==> m.seconds[i].second < m.seconds[j].second)
            && HeldAt(c, t)(m) == HeldAt(c, t)(s) + HeldAt(c, t)(o)
            && m.ops == s.ops + o.ops && m.bytes == s.bytes + o.bytes && m.latency == s.latency
            && m.getMap[v] == s.getMap[v] + o.getMap[v] && m.setMap[v] == s.setMap[v] + o.setMap[v]
            && m.waitMap[v] == s.waitMap[v] + o.waitMap[v]
  {
    MergeAddsUp(s.seconds, o.seconds);
    hide MergedSeconds, Plus, Counter.In, At;
    var m := MergedSeconds(s.seconds, o.seconds);
    PlusIn(c, At(s.seconds, t), At(o.seconds, t));
    AtIn(c, m, t);
    AtIn(c, s.seconds, t);
    AtIn(c, o.seconds, t);
  }

  lemma SumInFront<T>(x: T, q: seq<T>, f: T -> nat)
    ensures Sum([x] + q, f) == f(x) + Sum(q, f)
  {
    if q == [] {
      assert [x] + q == [x] && [x][..0] == [];
    } else {
      assert ([x] + q)[..|q|] == [x] + q[..|q| - 1];
      SumInFront(x, q[..|q| - 1], f);
    }
  }

  /** The same over all the clients of a group, and over the iterations of a benchmark. */
  lemma {:induction false} GroupSums(s: Stats, clients: seq<Stats>, c: Counter, t: nat, v: int)
    requires Mergeable(s) && forall x <- clients :: Mergeable(x)
    ensures var m := MergedAll(s, clients);
            && HeldAt(c, t)(m) == HeldAt(c, t)(s) + Sum(clients, HeldAt(c, t))
            && m.ops == s.ops + Sum(clients, (x: Stats) => x.ops)
            && m.bytes == s.bytes + Sum(clients, (x: Stats) => x.bytes)
            && m.getMap[v] == s.getMap[v] + Sum(clients, (x: Stats) => x.getMap[v])
            && m.setMap[v] == s.setMap[v] + Sum(clients, (x: Stats) => x.setMap[v])
            && m.waitMap[v] == s.waitMap[v] + Sum(clients, (x: Stats) => x.waitMap[v])
    decreases |clients|
  {
    if clients != [] {
      var x, rest := clients[0], clients[1..];
      MergedSums(s, x, c, t, v);
      MergedStaysMergeable(s, x);
      hide Merged, Mergeable, Counter.In;
      GroupSums(Merged(s, x), rest, c, t, v);
      assert clients == [x] + rest;
      SumInFront(x, rest, HeldAt(c, t));
      SumInFront(x, rest, (x: Stats) => x.ops);
      SumInFront(x, rest, (x: Stats) => x.bytes);
      SumInFront(x, rest, (x: Stats) => x.getMap[v]);
      SumInFront(x, rest, (x: Stats) => x.setMap[v]);
      SumInFront(x, rest, (x: Stats) => x.waitMap[v]);
    }
  }
}
