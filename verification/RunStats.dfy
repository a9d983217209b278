/** Statistics of a run: every response is accounted to the current second and to the totals, seconds are rolled as time
    passes, and the statistics of all clients are merged. Times are microseconds; the averages over time are not
    modelled, and the latency bucket of a response is an input. */
module RunStats {

  // ----- amounts -----

  /** What `one_second_stats` adds up. */
  datatype Amount = Amount(bytesGet: nat, bytesSet: nat, opsGet: nat, opsSet: nat, opsWait: nat, hits: nat, misses: nat,
                           latencyGet: nat, latencySet: nat, latencyWait: nat)

  const ZERO := Amount(0, 0, 0, 0, 0, 0, 0, 0, 0, 0)

  function Plus(a: Amount, b: Amount): Amount
  {
    Amount(a.bytesGet + b.bytesGet, a.bytesSet + b.bytesSet, a.opsGet + b.opsGet, a.opsSet + b.opsSet,
           a.opsWait + b.opsWait, a.hits + b.hits, a.misses + b.misses,
           a.latencyGet + b.latencyGet, a.latencySet + b.latencySet, a.latencyWait + b.latencyWait)
  }

  lemma PlusLaws(a: Amount, b: Amount, c: Amount)
    ensures Plus(a, b) == Plus(b, a) && Plus(a, Plus(b, c)) == Plus(Plus(a, b), c)
    ensures Plus(a, ZERO) == a && Plus(ZERO, a) == a
  {
  }

  /** Adding to the left of a sum is adding to the sum. */
  lemma PlusSwap(a: Amount, b: Amount, c: Amount)
    ensures Plus(Plus(a, b), c) == Plus(Plus(a, c), b)
  {
  }

  function OpsIn(a: Amount): nat { a.opsGet + a.opsSet + a.opsWait }

  function BytesIn(a: Amount): nat { a.bytesGet + a.bytesSet }

  lemma CountsAdd(a: Amount, b: Amount)
    ensures OpsIn(Plus(a, b)) == OpsIn(a) + OpsIn(b) && BytesIn(Plus(a, b)) == BytesIn(a) + BytesIn(b)
  {
  }

  datatype Second = Second(second: nat, amount: Amount)

  function SumAll(seconds: seq<Second>): Amount
  {
    if seconds == [] then ZERO else Plus(SumAll(seconds[..|seconds| - 1]), seconds[|seconds| - 1].amount)
  }

  function If(b: bool, a: Amount): Amount { if b then a else ZERO }

  /** What is accounted to second `t`. */
  function At(seconds: seq<Second>, t: nat): Amount
  {
    if seconds == [] then ZERO
    else
      var last := seconds[|seconds| - 1];
      Plus(At(seconds[..|seconds| - 1], t), If(last.second == t, last.amount))
  }

  predicate Increasing(seconds: seq<Second>)
  {
    forall i, j :: 0 <= i < j < |seconds| ==> seconds[i].second < seconds[j].second
  }

  lemma SumOfOneMore(seconds: seq<Second>, s: Second, t: nat)
    ensures SumAll(seconds + [s]) == Plus(SumAll(seconds), s.amount)
    ensures At(seconds + [s], t) == Plus(At(seconds, t), If(s.second == t, s.amount))
  {
    assert (seconds + [s])[..|seconds|] == seconds;
  }

  // ----- updates -----

  datatype Op =
    | GetOp(bytes: nat, latency: nat, hits: nat, misses: nat, bucket: int)
    | SetOp(bytes: nat, latency: nat, bucket: int)
    | WaitOp(latency: nat, bucket: int)

  function AmountOf(op: Op): Amount
  {
    match op
    case GetOp(bytes, latency, hits, misses, _) => Amount(bytes, 0, 1, 0, 0, hits, misses, latency, 0, 0)
    case SetOp(bytes, latency, _) => Amount(0, bytes, 0, 1, 0, 0, 0, 0, latency, 0)
    case WaitOp(latency, _) => Amount(0, 0, 0, 0, 1, 0, 0, 0, 0, latency)
  }

  /** A latency map holds a count for each bucket: a multiset of buckets. */
  datatype Stats = Stats(start: nat, seconds: seq<Second>, cur: Second, bytes: nat, ops: nat, latency: nat,
                         getMap: multiset<int>, setMap: multiset<int>, waitMap: multiset<int>)

  function Initial(start: nat): Stats
  {
    Stats(start, [], Second(0, ZERO), 0, 0, 0, multiset{}, multiset{}, multiset{})
  }

  function SecondOf(start: nat, ts: nat): nat
    requires ts >= start
  {
    (ts - start) / 1000000
  }

  function Rolled(s: Stats, ts: nat): Stats
    requires ts >= s.start
  {
    var sec := SecondOf(s.start, ts);
    if sec > s.cur.second then s.(seconds := s.seconds + [s.cur], cur := Second(sec, ZERO)) else s
  }

  function InBucket(m: multiset<int>, bucket: int): (after: multiset<int>)
    ensures |after| == |m| + 1
  {
    m + multiset{bucket}
  }

  lemma OneInBucket(m: multiset<int>, bucket: int, v: int)
    ensures InBucket(m, bucket)[v] == m[v] + if v == bucket then 1 else 0
  {
  }

  function Added(s: Stats, op: Op): Stats
  {
    var t := s.(cur := s.cur.(amount := Plus(s.cur.amount, AmountOf(op))), ops := s.ops + 1,
        latency := s.latency + op.latency,
                bytes := s.bytes + if op.WaitOp? then 0 else op.bytes);
    match op
    case GetOp(_, _, _, _, bucket) => t.(getMap := InBucket(t.getMap, bucket))
    case SetOp(_, _, bucket) => t.(setMap := InBucket(t.setMap, bucket))
    case WaitOp(_, bucket) => t.(waitMap := InBucket(t.waitMap, bucket))
  }

  datatype Update = Update(ts: nat, op: Op)

  predicate NotBefore(start: nat, us: seq<Update>) { forall u <- us :: u.ts >= start }

  function Run(start: nat, us: seq<Update>): (s: Stats)
    requires NotBefore(start, us)
    ensures s.start == start
  {
    if us == [] then Initial(start)
    else
      var n := |us| - 1;
      Added(Rolled(Run(start, us[..n]), us[n].ts), us[n].op)
  }

  function Total(us: seq<Update>): Amount
  {
    if us == [] then ZERO else Plus(Total(us[..|us| - 1]), AmountOf(us[|us| - 1].op))
  }

  /** What happened in second `t`. */
  function TotalAt(start: nat, us: seq<Update>, t: nat): Amount
    requires NotBefore(start, us)
  {
    if us == [] then ZERO
    else
      var n := |us| - 1;
      Plus(TotalAt(start, us[..n], t), If(SecondOf(start, us[n].ts) == t, AmountOf(us[n].op)))
  }

  // ----- conservation -----

  predicate Ordered(s: Stats) { Increasing(s.seconds + [s.cur]) }

  ghost predicate SecondsAddUp(s: Stats, total: Amount) { Plus(SumAll(s.seconds), s.cur.amount) == total }

  predicate TotalsAddUp(s: Stats, total: Amount)
  {
    && s.ops == OpsIn(total) && s.bytes == BytesIn(total)
    && s.latency == total.latencyGet + total.latencySet + total.latencyWait
  }

  predicate MapsAddUp(s: Stats, total: Amount)
  {
    |s.getMap| == total.opsGet && |s.setMap| == total.opsSet && |s.waitMap| == total.opsWait
  }

  ghost predicate Conserves(s: Stats, total: Amount)
  {
    SecondsAddUp(s, total) && TotalsAddUp(s, total) && MapsAddUp(s, total)
  }

  lemma RollConserves(s: Stats, ts: nat, total: Amount)
    requires ts >= s.start && Ordered(s) && Conserves(s, total)
    ensures Ordered(Rolled(s, ts)) && Conserves(Rolled(s, ts), total)
  {
    hide SumAll, At, Plus, SecondOf, Increasing;
    SumOfOneMore(s.seconds, s.cur, 0);
    PlusLaws(SumAll(s.seconds + [s.cur]), ZERO, ZERO);
    LaterSecond(s.seconds + [s.cur], Rolled(s, ts).cur);
  }

  lemma LaterSecond(seconds: seq<Second>, later: Second)
    requires Increasing(seconds)
    ensures seconds == [] || seconds[|seconds| - 1].second < later.second ==> Increasing(seconds + [later])
  {
    assert forall i :: 0 <= i < |seconds| ==> seconds[i].second <= seconds[|seconds| - 1].second;
  }

  lemma AddConserves(s: Stats, op: Op, total: Amount)
    requires Ordered(s) && Conserves(s, total)
    ensures Ordered(Added(s, op)) && Conserves(Added(s, op), Plus(total, AmountOf(op)))
  {
    AddKeepsSeconds(s, op, total);
    AddKeepsTotals(s, op, total);
    AddKeepsMaps(s, op, total);
    SameOrder(s, Added(s, op));
    hide SecondsAddUp, TotalsAddUp, MapsAddUp, Ordered, Added;
  }

  lemma AddKeepsSeconds(s: Stats, op: Op, total: Amount)
    requires SecondsAddUp(s, total)
    ensures SecondsAddUp(Added(s, op), Plus(total, AmountOf(op)))
  {
    hide SumAll, AmountOf, Plus;
    AddedSum(SumAll(s.seconds), s.cur.amount, AmountOf(op));
  }

  lemma AddKeepsTotals(s: Stats, op: Op, total: Amount)
    requires TotalsAddUp(s, total)
    ensures TotalsAddUp(Added(s, op), Plus(total, AmountOf(op)))
  {
  }

  lemma AddKeepsMaps(s: Stats, op: Op, total: Amount)
    requires MapsAddUp(s, total)
    ensures MapsAddUp(Added(s, op), Plus(total, AmountOf(op)))
  {
  }

  lemma AddedSum(a: Amount, b: Amount, c: Amount)
    ensures Plus(a, Plus(b, c)) == Plus(Plus(a, b), c)
  {
  }

  lemma SameOrder(s: Stats, t: Stats)
    requires Ordered(s) && t.seconds == s.seconds && t.cur.second == s.cur.second
    ensures Ordered(t)
  {
    assert forall i :: 0 <= i <= |s.seconds| ==> (t.seconds + [t.cur])[i].second == (s.seconds + [s.cur])[i].second;
  }

  lemma InitialConserves(s: Stats)
    requires s.seconds == [] && s.cur.amount == ZERO && s.ops == s.bytes == s.latency == 0
    requires |s.getMap| == |s.setMap| == |s.waitMap| == 0
    ensures Conserves(s, ZERO)
  {
    hide SecondsAddUp, TotalsAddUp, MapsAddUp, Plus, SumAll;
    InitialSeconds(s);
    InitialTotals(s, ZERO);
    InitialMaps(s);
  }

  lemma InitialSeconds(s: Stats)
    requires s.seconds == [] && s.cur.amount == ZERO
    ensures SecondsAddUp(s, ZERO)
  {
    hide Plus, SumAll;
    SumOfNone(s.seconds);
    PlusLaws(ZERO, ZERO, ZERO);
  }

  lemma InitialTotals(s: Stats, none: Amount)
    requires s.ops == s.bytes == s.latency == 0
    requires none.opsGet == none.opsSet == none.opsWait == none.bytesGet == none.bytesSet == 0
    requires none.latencyGet == none.latencySet == none.latencyWait == 0
    ensures TotalsAddUp(s, none)
  {
  }

  lemma InitialMaps(s: Stats)
    requires |s.getMap| == |s.setMap| == |s.waitMap| == 0
    ensures MapsAddUp(s, ZERO)
  {
  }

  lemma InitialOrdered(s: Stats)
    requires s.seconds == []
    ensures Ordered(s)
  {
    assert |s.seconds + [s.cur]| == 1;
  }

  lemma SumOfNone(seconds: seq<Second>)
    requires seconds == []
    ensures SumAll(seconds) == ZERO
  {
  }

  /** Nothing is lost: seconds strictly increase up to the current one, and seconds, current second, totals and latency
      maps all add up to the updates made, in whatever order their times come. */
  lemma {:induction false} RunConserves(start: nat, us: seq<Update>)
    requires NotBefore(start, us)
    ensures Ordered(Run(start, us)) && Conserves(Run(start, us), Total(us)) && Run(start, us).ops == |us|
  {
    hide Ordered, Conserves, Rolled, SecondOf, AmountOf;
    if us == [] {
      InitialConserves(Run(start, us));
      InitialOrdered(Run(start, us));
    } else {
      var n := |us| - 1;
      RunConserves(start, us[..n]);
      var s := Run(start, us[..n]);
      RollConserves(s, us[n].ts, Total(us[..n]));
      AddConserves(Rolled(s, us[n].ts), us[n].op, Total(us[..n]));
      CountsOps(s, us[n].ts, us[n].op);
    }
  }

  lemma CountsOps(s: Stats, ts: nat, op: Op)
    requires ts >= s.start
    ensures Added(Rolled(s, ts), op).ops == s.ops + 1
  {
  }

  predicate NonDecreasing(us: seq<Update>) { forall i, j :: 0 <= i < j < |us| ==> us[i].ts <= us[j].ts }

  lemma SecondsGrow(start: nat, a: nat, b: nat)
    requires start <= a <= b
    ensures SecondOf(start, a) <= SecondOf(start, b)
  {
  }

  lemma CurrentSecond(s: Stats, ts: nat, op: Op)
    requires ts >= s.start && SecondOf(s.start, ts) >= s.cur.second
    ensures Added(Rolled(s, ts), op).cur.second == SecondOf(s.start, ts) == Rolled(s, ts).cur.second
  {
  }

  /** With times that never go back, each second holds exactly what happened in it. */
  lemma {:induction false} SecondsAreExact(start: nat, us: seq<Update>, t: nat)
    requires NotBefore(start, us) && NonDecreasing(us)
    ensures var s := Run(start, us);
            && At(s.seconds + [s.cur], t) == TotalAt(start, us, t)
            && s.cur.second == if us == [] then 0 else SecondOf(start, us[|us| - 1].ts)
  {
    hide SecondOf, Rolled, Added, Plus, At;
    if us == [] {
      InitialAt(start, t);
    } else {
      var n := |us| - 1;
      SecondsAreExact(start, us[..n], t);
      var s, u := Run(start, us[..n]), us[n];
      if n > 0 {
        SecondsGrow(start, us[n - 1].ts, u.ts);
      }
      CurrentSecond(s, u.ts, u.op);
      RolledAt(s, u.ts, t);
      AddedAt(Rolled(s, u.ts), u.op, t);
    }
  }

  lemma InitialAt(start: nat, t: nat)
    ensures var s := Initial(start); At(s.seconds + [s.cur], t) == ZERO
  {
    hide Plus;
    var s := Initial(start);
    SumOfOneMore([], s.cur, t);
    PlusLaws(ZERO, ZERO, ZERO);
  }

  lemma RolledAt(s: Stats, ts: nat, t: nat)
    requires ts >= s.start
    ensures var r := Rolled(s, ts); At(r.seconds + [r.cur], t) == At(s.seconds + [s.cur], t)
  {
    hide At, Plus, SecondOf;
    var r := Rolled(s, ts);
    SumOfOneMore(r.seconds, r.cur, t);
    PlusLaws(At(s.seconds + [s.cur], t), ZERO, ZERO);
  }

  lemma AddedAt(s: Stats, op: Op, t: nat)
    ensures var r := Added(s, op);
            At(r.seconds + [r.cur], t) == Plus(At(s.seconds + [s.cur], t), If(s.cur.second == t, AmountOf(op)))
  {
    hide At, Plus, AmountOf;
    var r := Added(s, op);
    SumOfOneMore(r.seconds, r.cur, t);
    SumOfOneMore(s.seconds, s.cur, t);
    PlusLaws(At(s.seconds, t), s.cur.amount, AmountOf(op));
    PlusLaws(At(s.seconds, t), ZERO, ZERO);
  }

  // ----- the end of a run -----

  function Ended(s: Stats): Stats { s.(seconds := s.seconds + [s.cur]) }

  function SummarizedOps(s: Stats): nat { OpsIn(SumAll(s.seconds)) }

  function SummarizedBytes(s: Stats): nat { BytesIn(SumAll(s.seconds)) }

  /** The counts of the summary; its rates and averages are floating point. */
  datatype Summary = Summary(opsSet: nat, opsGet: nat, opsWait: nat, ops: nat, bytes: nat)

  /** After the end time is set once, and not before if the current second has seen anything, the summary of the seconds
      agrees with the totals. */
  lemma SummaryAgrees(start: nat, us: seq<Update>)
    requires NotBefore(start, us)
    ensures var s := Run(start, us);
            && SummarizedOps(Ended(s)) == Ended(s).ops == |us| && SummarizedBytes(Ended(s)) == Ended(s).bytes
            && Increasing(Ended(s).seconds)
            && (SummarizedOps(s) == s.ops <==> OpsIn(s.cur.amount) == 0)
  {
    RunConserves(start, us);
    EndedAgrees(Run(start, us), Total(us));
    hide Run, SummarizedOps, SummarizedBytes, Increasing, Conserves, Total, Ended;
    assert Ended(Run(start, us)).ops == Run(start, us).ops by { EndedOps(Run(start, us)); }
  }

  lemma EndedOps(s: Stats)
    ensures Ended(s).ops == s.ops
  {
  }

  lemma EndedAgrees(s: Stats, total: Amount)
    requires Ordered(s) && Conserves(s, total)
    ensures SummarizedOps(Ended(s)) == s.ops && SummarizedBytes(Ended(s)) == Ended(s).bytes
        && Increasing(Ended(s).seconds)
    ensures SummarizedOps(s) == s.ops <==> OpsIn(s.cur.amount) == 0
  {
    hide SumAll, At, Increasing, Plus, OpsIn, BytesIn;
    SumOfOneMore(s.seconds, s.cur, 0);
    CountsAdd(SumAll(s.seconds), s.cur.amount);
    assert Ended(s).seconds == s.seconds + [s.cur];
  }

  // ----- merging -----

  /** Position of the entry of a second, or the number of entries. */
  function Find(seconds: seq<Second>, second: nat): (i: nat)
    ensures i <= |seconds| && (i < |seconds| ==> seconds[i].second == second)
    ensures forall j :: 0 <= j < i ==> seconds[j].second != second
  {
    if seconds == [] || seconds[0].second == second then 0 else 1 + Find(seconds[1..], second)
  }

  /** One entry of the other side merged into ours, or added at the end. */
  function Joined(mine: seq<Second>, other: Second): seq<Second>
  {
    var i := Find(mine, other.second);
    if i < |mine| then mine[i := Second(other.second, Plus(mine[i].amount, other.amount))] else mine + [other]
  }

  function AllJoined(mine: seq<Second>, others: seq<Second>): seq<Second>
  {
    if others == [] then mine else Joined(AllJoined(mine, others[..|others| - 1]), others[|others| - 1])
  }

  /** What `std::sort` leaves: stated by insertion, and any sorting gives the same when no second comes twice. */
  function Inserted(sorted: seq<Second>, s: Second): seq<Second>
  {
    if sorted == [] || s.second < sorted[0].second then [s] + sorted else [sorted[0]] + Inserted(sorted[1..], s)
  }

  function Sorted(seconds: seq<Second>): seq<Second>
  {
    if seconds == [] then [] else Inserted(Sorted(seconds[1..]), seconds[0])
  }

  function MergedSeconds(mine: seq<Second>, others: seq<Second>): seq<Second>
  {
    var joined := AllJoined(mine, others);
    if |joined| > |mine| then Sorted(joined) else joined
  }

  /** Start and end times, which are averaged, and the total latency, which is not merged, stay aside. */
  function Merged(s: Stats, o: Stats): Stats
  {
    s.(seconds := MergedSeconds(s.seconds, o.seconds), bytes := s.bytes + o.bytes, ops := s.ops + o.ops,
       getMap := s.getMap + o.getMap, setMap := s.setMap + o.setMap, waitMap := s.waitMap + o.waitMap)
  }

  ghost function SecondsOf(seconds: seq<Second>): set<nat> { set s <- seconds :: s.second }

  predicate Unique(seconds: seq<Second>)
  {
    forall i, j :: 0 <= i < j < |seconds| ==> seconds[i].second != seconds[j].second
  }

  // A sequence of seconds, none twice, is told by what it holds at each.

  lemma {:induction false} AtConcat(a: seq<Second>, b: seq<Second>, t: nat)
    ensures At(a + b, t) == Plus(At(a, t), At(b, t))
    decreases |b|
  {
    hide Plus;
    if b == [] {
      assert a + b == a;
      PlusLaws(At(a, t), ZERO, ZERO);
    } else {
      var n := |b| - 1;
      AtConcat(a, b[..n], t);
      assert (a + b)[..|a + b| - 1] == a + b[..n];
      PlusLaws(At(a, t), At(b[..n], t), If(b[n].second == t, b[n].amount));
    }
  }

  lemma AtOne(s: Second, t: nat)
    ensures At([s], t) == If(s.second == t, s.amount) && At([], t) == ZERO
  {
    assert [s][..0] == [];
    PlusLaws(If(s.second == t, s.amount), ZERO, ZERO);
  }

  lemma {:induction false} AtElsewhere(seconds: seq<Second>, t: nat)
    requires forall s <- seconds :: s.second != t
    ensures At(seconds, t) == ZERO
  {
    hide Plus;
    if seconds != [] {
      AtElsewhere(seconds[..|seconds| - 1], t);
      PlusLaws(ZERO, ZERO, ZERO);
    }
  }

  lemma AtEntry(seconds: seq<Second>, i: nat)
    requires i < |seconds| && Unique(seconds)
    ensures At(seconds, seconds[i].second) == seconds[i].amount
  {
    var s := seconds[i];
    hide At, Plus;
    assert seconds == seconds[..i] + ([s] + seconds[i + 1..]);
    AtConcat(seconds[..i], [s] + seconds[i + 1..], s.second);
    AtConcat([s], seconds[i + 1..], s.second);
    AtElsewhere(seconds[..i], s.second);
    AtElsewhere(seconds[i + 1..], s.second);
    AtOne(s, s.second);
    PlusLaws(s.amount, ZERO, ZERO);
  }

  /** Two increasing sequences of the same seconds holding the same at each are the same. */
  lemma {:induction false} Canonical(a: seq<Second>, b: seq<Second>)
    requires Increasing(a) && Increasing(b) && SecondsOf(a) == SecondsOf(b) && forall t :: At(a, t) == At(b, t)
    ensures a == b
  {
    hide At;
    SameSeconds(a, b);
    forall i | 0 <= i < |a| ensures a[i] == b[i] {
      AtEntry(a, i);
      AtEntry(b, i);
    }
  }

  lemma {:induction false} SameSeconds(a: seq<Second>, b: seq<Second>)
    requires Increasing(a) && Increasing(b) && SecondsOf(a) == SecondsOf(b)
    ensures |a| == |b| && forall i :: 0 <= i < |a| ==> a[i].second == b[i].second
  {
    if a == [] || b == [] {
      assert a != [] ==> a[0].second in SecondsOf(a);
      assert b != [] ==> b[0].second in SecondsOf(b);
    } else {
      var n, m := |a| - 1, |b| - 1;
      LastIsGreatest(a);
      LastIsGreatest(b);
      hide SecondsOf;
      assert Increasing(a[..n]) && Increasing(b[..m]);
      SameSeconds(a[..n], b[..m]);
      assert forall i :: 0 <= i < n ==> a[i] == a[..n][i] && b[i] == b[..m][i];
    }
  }

  lemma LastIsGreatest(a: seq<Second>)
    requires Increasing(a) && a != []
    ensures var n := |a| - 1;
            && a[n].second in SecondsOf(a) && (forall t <- SecondsOf(a) :: t <= a[n].second)
            && SecondsOf(a[..n]) == SecondsOf(a) - {a[n].second}
  {
    var n := |a| - 1;
    forall t | t in SecondsOf(a) && t != a[n].second ensures t in SecondsOf(a[..n]) {
      var i :| 0 <= i < |a| && a[i].second == t;
      assert a[..n][i] == a[i];
    }
    forall t | t in SecondsOf(a[..n]) ensures t in SecondsOf(a) && t < a[n].second {
      var i :| 0 <= i < n && a[..n][i].second == t;
      assert a[i] in a;
    }
  }

  // What joining does to the amounts and to the set of seconds.

  lemma {:induction false} AtUpdated(seconds: seq<Second>, i: nat, more: Amount, t: nat)
    requires i < |seconds|
    ensures var after := seconds[i := Second(seconds[i].second, Plus(seconds[i].amount, more))];
            At(after, t) == Plus(At(seconds, t), If(seconds[i].second == t, more))
  {
    hide Plus;
    var n, s := |seconds| - 1, seconds[i];
    var after := seconds[i := Second(s.second, Plus(s.amount, more))];
    var last := seconds[n];
    if i == n {
      assert after[..n] == seconds[..n];
      PlusLaws(At(seconds[..n], t), s.amount, more);
      PlusLaws(At(seconds[..n], t), ZERO, ZERO);
    } else {
      assert after[..n] == seconds[..n][i := after[i]];
      AtUpdated(seconds[..n], i, more, t);
      PlusSwap(At(seconds[..n], t), If(s.second == t, more), If(last.second == t, last.amount));
    }
  }

  lemma JoinedAt(mine: seq<Second>, o: Second, t: nat)
    ensures At(Joined(mine, o), t) == Plus(At(mine, t), If(o.second == t, o.amount))
  {
    hide At, Plus;
    var i := Find(mine, o.second);
    if i < |mine| { AtUpdated(mine, i, o.amount, t); } else { SumOfOneMore(mine, o, t); }
  }

  lemma JoinedSeconds(mine: seq<Second>, o: Second)
    requires Unique(mine)
    ensures Unique(Joined(mine, o)) && SecondsOf(Joined(mine, o)) == SecondsOf(mine) + {o.second}
    ensures |Joined(mine, o)| >= |mine|
    ensures forall j :: 0 <= j < |mine| ==> Joined(mine, o)[j].second == mine[j].second
  {
    hide Plus;
    var i, after := Find(mine, o.second), Joined(mine, o);
    assert forall j :: 0 <= j < |mine| ==> after[j].second == mine[j].second;
    forall s | s in mine ensures s.second in SecondsOf(after) {
      var j :| 0 <= j < |mine| && mine[j] == s;
      assert after[j] in after;
    }
    assert after[if i < |mine| then i else |mine|] in after;
    forall s | s in after ensures s.second in SecondsOf(mine) + {o.second} {
      var j :| 0 <= j < |after| && after[j] == s;
      assert j < |mine| ==> mine[j] in mine;
    }
  }

  lemma {:induction false} AllJoinedAt(mine: seq<Second>, others: seq<Second>, t: nat)
    ensures At(AllJoined(mine, others), t) == Plus(At(mine, t), At(others, t))
  {
    hide Plus, Joined;
    if others == [] {
      PlusLaws(At(mine, t), ZERO, ZERO);
    } else {
      var n := |others| - 1;
      AllJoinedAt(mine, others[..n], t);
      JoinedAt(AllJoined(mine, others[..n]), others[n], t);
      PlusLaws(At(mine, t), At(others[..n], t), If(others[n].second == t, others[n].amount));
    }
  }

  lemma {:induction false} AllJoinedSeconds(mine: seq<Second>, others: seq<Second>)
    requires Unique(mine)
    ensures Unique(AllJoined(mine, others)) && SecondsOf(AllJoined(mine, others)) == SecondsOf(mine) + SecondsOf(others)
    ensures |AllJoined(mine, others)| >= |mine|
    ensures forall j :: 0 <= j < |mine| ==> AllJoined(mine, others)[j].second == mine[j].second
  {
    hide Joined, Unique;
    if others != [] {
      var n := |others| - 1;
      AllJoinedSeconds(mine, others[..n]);
      JoinedSeconds(AllJoined(mine, others[..n]), others[n]);
      assert others == others[..n] + [others[n]];
    }
  }

  // Sorting.

  lemma {:induction false} InsertedSeconds(q: seq<Second>, s: Second)
    requires Increasing(q) && s.second !in SecondsOf(q)
    ensures Increasing(Inserted(q, s)) && SecondsOf(Inserted(q, s)) == SecondsOf(q) + {s.second}
  {
    if q == [] {
      SecondsInFront(s, q);
    } else if s.second < q[0].second {
      FirstIsLeast(q);
      SecondsInFront(s, q);
    } else {
      FirstIsLeast(q);
      var rest := Inserted(q[1..], s);
      assert q[0].second in SecondsOf(q);
      InsertedSeconds(q[1..], s);
      hide SecondsOf, Inserted;
      SecondsInFront(q[0], rest);
      assert Inserted(q, s) == [q[0]] + rest by { InsertedLater(q, s); }
    }
  }

  lemma InsertedLater(q: seq<Second>, s: Second)
    requires q != [] && s.second >= q[0].second
    ensures Inserted(q, s) == [q[0]] + Inserted(q[1..], s)
  {
  }

  lemma FirstIsLeast(q: seq<Second>)
    requires Increasing(q) && q != []
    ensures SecondsOf(q) == SecondsOf(q[1..]) + {q[0].second} && Increasing(q[1..])
    ensures forall t <- SecondsOf(q[1..]) :: q[0].second < t
  {
    forall t | t in SecondsOf(q) && t != q[0].second ensures t in SecondsOf(q[1..]) {
      var i :| 0 <= i < |q| && q[i].second == t;
      assert q[1..][i - 1] == q[i];
    }
    forall t | t in SecondsOf(q[1..]) ensures t in SecondsOf(q) && q[0].second < t {
      var i :| 0 <= i < |q[1..]| && q[1..][i].second == t;
      assert q[i + 1] in q;
    }
  }

  lemma SecondsInFront(s: Second, q: seq<Second>)
    requires Increasing(q) && forall t <- SecondsOf(q) :: s.second < t
    ensures Increasing([s] + q) && SecondsOf([s] + q) == SecondsOf(q) + {s.second}
  {
    assert forall x <- q :: x.second in SecondsOf(q);
    assert forall j :: 0 < j < |[s] + q| ==> ([s] + q)[j] in q;
    assert ([s] + q)[0] in [s] + q && forall x <- q :: x in [s] + q;
  }

  lemma {:induction false} InsertedAt(q: seq<Second>, s: Second, t: nat)
    ensures At(Inserted(q, s), t) == Plus(At(q, t), If(s.second == t, s.amount))
  {
    hide Plus, At, If;
    AtConcat([s], q, t);
    AtOne(s, t);
    PlusLaws(If(s.second == t, s.amount), At(q, t), ZERO);
    if q != [] && s.second >= q[0].second {
      assert q == [q[0]] + q[1..];
      InsertedAt(q[1..], s, t);
      AtConcat([q[0]], Inserted(q[1..], s), t);
      AtConcat([q[0]], q[1..], t);
      PlusLaws(At([q[0]], t), At(q[1..], t), If(s.second == t, s.amount));
    }
  }

  lemma {:induction false} SortedSeconds(q: seq<Second>)
    requires Unique(q)
    ensures Increasing(Sorted(q)) && SecondsOf(Sorted(q)) == SecondsOf(q)
  {
    if q != [] {
      SortedSeconds(q[1..]);
      FirstIsAlone(q);
      hide SecondsOf, Inserted, Unique;
      InsertedSeconds(Sorted(q[1..]), q[0]);
    }
  }

  lemma FirstIsAlone(q: seq<Second>)
    requires Unique(q) && q != []
    ensures SecondsOf(q) == SecondsOf(q[1..]) + {q[0].second} && q[0].second !in SecondsOf(q[1..])
  {
    assert q == [q[0]] + q[1..];
  }

  lemma {:induction false} SortedAt(q: seq<Second>, t: nat)
    ensures At(Sorted(q), t) == At(q, t)
  {
    hide Plus, At, If;
    if q != [] {
      SortedAt(q[1..], t);
      InsertedAt(Sorted(q[1..]), q[0], t);
      assert q == [q[0]] + q[1..];
      AtConcat([q[0]], q[1..], t);
      AtOne(q[0], t);
      PlusLaws(If(q[0].second == t, q[0].amount), At(q[1..], t), ZERO);
    }
  }

  // What merging keeps.

  predicate Mergeable(s: Stats) { Increasing(s.seconds) }

  /** Merging adds up second by second, keeps the seconds sorted and unique, and loses none. */
  lemma MergeAddsUp(mine: seq<Second>, others: seq<Second>)
    requires Increasing(mine) && Increasing(others)
    ensures Increasing(MergedSeconds(mine, others))
    ensures SecondsOf(MergedSeconds(mine, others)) == SecondsOf(mine) + SecondsOf(others)
    ensures forall t :: At(MergedSeconds(mine, others), t) == Plus(At(mine, t), At(others, t))
  {
    hide At, Plus, AllJoined, Sorted, SecondsOf;
    var joined := AllJoined(mine, others);
    AllJoinedSeconds(mine, others);
    SortedSeconds(joined);
    assert |joined| == |mine| ==> Increasing(joined);
    forall t ensures At(MergedSeconds(mine, others), t) == Plus(At(mine, t), At(others, t)) {
      AllJoinedAt(mine, others, t);
      SortedAt(joined, t);
    }
  }

  /** Whichever of two is merged first. */
  lemma MergesCommute(s: Stats, a: Stats, b: Stats)
    requires Mergeable(s) && Mergeable(a) && Mergeable(b)
    ensures Merged(Merged(s, a), b) == Merged(Merged(s, b), a)
  {
    hide At, Plus, MergedSeconds, SecondsOf, Increasing;
    var sa, sb := MergedSeconds(s.seconds, a.seconds), MergedSeconds(s.seconds, b.seconds);
    MergeAddsUp(s.seconds, a.seconds);
    MergeAddsUp(s.seconds, b.seconds);
    MergeAddsUp(sa, b.seconds);
    MergeAddsUp(sb, a.seconds);
    forall t ensures At(MergedSeconds(sa, b.seconds), t) == At(MergedSeconds(sb, a.seconds), t) {
      PlusSwap(At(s.seconds, t), At(a.seconds, t), At(b.seconds, t));
    }
    Canonical(MergedSeconds(sa, b.seconds), MergedSeconds(sb, a.seconds));
    assert s.getMap + a.getMap + b.getMap == s.getMap + b.getMap + a.getMap;
    assert s.setMap + a.setMap + b.setMap == s.setMap + b.setMap + a.setMap;
    assert s.waitMap + a.waitMap + b.waitMap == s.waitMap + b.waitMap + a.waitMap;
  }

  /** All clients of a group, one after the other. */
  function MergedAll(s: Stats, clients: seq<Stats>): Stats
    decreases |clients|
  {
    if clients == [] then s else MergedAll(Merged(s, clients[0]), clients[1..])
  }

  lemma MergedStaysMergeable(s: Stats, o: Stats)
    requires Mergeable(s) && Mergeable(o)
    ensures Mergeable(Merged(s, o))
  {
    MergeAddsUp(s.seconds, o.seconds);
    hide MergedSeconds, Increasing, At, Plus;
  }

  /** A client moved to the front of the order. */
  lemma {:induction false} MergeThisFirst(s: Stats, clients: seq<Stats>, i: nat)
    requires i < |clients| && Mergeable(s) && forall c <- clients :: Mergeable(c)
    ensures MergedAll(s, clients) == MergedAll(Merged(s, clients[i]), clients[..i] + clients[i + 1..])
    decreases |clients|
  {
    hide Merged, Mergeable;
    if i == 0 {
      assert clients[..0] + clients[1..] == clients[1..];
    } else {
      var first, rest := clients[0], clients[1..];
      var others := clients[..i] + clients[i + 1..];
      MergedStaysMergeable(s, first);
      MergeThisFirst(Merged(s, first), rest, i - 1);
      MergesCommute(s, first, clients[i]);
      assert others[0] == first && others[1..] == rest[..i - 1] + rest[i..];
    }
  }

  /** Where the first of one order stands in the other, and what is left without it. */
  lemma FirstElsewhere<T>(order: seq<T>, other: seq<T>) returns (i: nat)
    requires order != [] && multiset(order) == multiset(other)
    ensures i < |other| && other[i] == order[0]
    ensures multiset(order[1..]) == multiset(other[..i] + other[i + 1..])
  {
    assert order == [order[0]] + order[1..];
    assert order[0] in multiset(other);
    i :| 0 <= i < |other| && other[i] == order[0];
    assert other == other[..i] + [order[0]] + other[i + 1..];
    assert multiset(order[1..]) == multiset(order) - multiset{order[0]};
    assert multiset(other[..i] + other[i + 1..]) == multiset(other) - multiset{order[0]};
  }

  lemma AllOfTheOther(order: seq<Stats>, other: seq<Stats>)
    requires multiset(order) == multiset(other) && forall c <- order :: Mergeable(c)
    ensures forall c <- other :: Mergeable(c)
    ensures order == [] ==> other == []
  {
    hide Mergeable;
    assert forall c :: c in other ==> c in multiset(other);
    assert order == [] ==> |multiset(other)| == 0;
  }

  /** The merged statistics do not depend on the order of the clients. */
  lemma {:induction false} OrderDoesNotMatter(s: Stats, clients: seq<Stats>, others: seq<Stats>)
    requires Mergeable(s) && (forall c <- clients :: Mergeable(c)) && multiset(clients) == multiset(others)
    ensures MergedAll(s, clients) == MergedAll(s, others)
    decreases |clients|
  {
    hide Merged, Mergeable;
    AllOfTheOther(clients, others);
    if clients != [] {
      var i := FirstElsewhere(clients, others);
      MergeThisFirst(s, others, i);
      MergedStaysMergeable(s, clients[0]);
      OrderDoesNotMatter(Merged(s, clients[0]), clients[1..], others[..i] + others[i + 1..]);
    }
  }

  /** Totals and latency maps of all clients, and all their seconds, are in the merged statistics. */
  lemma MergeConserves(s: Stats, o: Stats)
    requires Mergeable(s) && Mergeable(o)
    ensures var m := Merged(s, o);
            && Mergeable(m) && SumAll(m.seconds) == Plus(SumAll(s.seconds), SumAll(o.seconds))
            && m.ops == s.ops + o.ops && m.bytes == s.bytes + o.bytes && m.latency == s.latency
            && |m.getMap| == |s.getMap| + |o.getMap| && |m.setMap| == |s.setMap| + |o.setMap|
            && |m.waitMap| == |s.waitMap| + |o.waitMap|
  {
    hide SumAll, Plus, MergedSeconds, Mergeable;
    MergedStaysMergeable(s, o);
    MergedSum(s.seconds, o.seconds);
  }

  lemma MergedSum(mine: seq<Second>, others: seq<Second>)
    ensures SumAll(MergedSeconds(mine, others)) == Plus(SumAll(mine), SumAll(others))
  {
    hide SumAll, Plus, AllJoined, Sorted;
    JoinedSum(mine, others);
    SortedSum(AllJoined(mine, others));
  }

  lemma {:induction false} UpdatedSum(seconds: seq<Second>, i: nat, more: Amount)
    requires i < |seconds|
    ensures SumAll(seconds[i := Second(seconds[i].second, Plus(seconds[i].amount, more))]) ==
            Plus(SumAll(seconds), more)
  {
    hide Plus;
    var n := |seconds| - 1;
    var after := seconds[i := Second(seconds[i].second, Plus(seconds[i].amount, more))];
    if i == n {
      assert after[..n] == seconds[..n];
      PlusLaws(SumAll(seconds[..n]), seconds[i].amount, more);
    } else {
      assert after[..n] == seconds[..n][i := after[i]];
      UpdatedSum(seconds[..n], i, more);
      PlusSwap(SumAll(seconds[..n]), more, seconds[n].amount);
    }
  }

  lemma {:induction false} JoinedSum(mine: seq<Second>, others: seq<Second>)
    ensures SumAll(AllJoined(mine, others)) == Plus(SumAll(mine), SumAll(others))
  {
    hide Plus;
    if others == [] {
      SumOfNone(others);
      PlusLaws(SumAll(mine), ZERO, ZERO);
    } else {
      var n := |others| - 1;
      var joined, o := AllJoined(mine, others[..n]), others[n];
      JoinedSum(mine, others[..n]);
      PlusLaws(SumAll(mine), SumAll(others[..n]), o.amount);
      var i := Find(joined, o.second);
      if i < |joined| { UpdatedSum(joined, i, o.amount); } else { SumOfOneMore(joined, o, 0); }
    }
  }

  lemma {:induction false} SumConcat(a: seq<Second>, b: seq<Second>)
    ensures SumAll(a + b) == Plus(SumAll(a), SumAll(b))
    decreases |b|
  {
    hide Plus;
    if b == [] {
      assert a + b == a;
      SumOfNone(b);
      PlusLaws(SumAll(a), ZERO, ZERO);
    } else {
      var n := |b| - 1;
      SumConcat(a, b[..n]);
      assert (a + b)[..|a + b| - 1] == a + b[..n];
      PlusLaws(SumAll(a), SumAll(b[..n]), b[n].amount);
    }
  }

  lemma SumOfOne(s: Second)
    ensures SumAll([s]) == s.amount
  {
    hide Plus;
    var q := [s];
    SumOfNone(q[..0]);
    PlusLaws(s.amount, ZERO, ZERO);
  }

  lemma {:induction false} InsertedSum(q: seq<Second>, s: Second)
    ensures SumAll(Inserted(q, s)) == Plus(SumAll(q), s.amount)
  {
    hide Plus, SumAll;
    SumConcat([s], q);
    SumOfOne(s);
    PlusLaws(s.amount, SumAll(q), ZERO);
    if q != [] && s.second >= q[0].second {
      assert q == [q[0]] + q[1..];
      InsertedSum(q[1..], s);
      SumConcat([q[0]], Inserted(q[1..], s));
      SumConcat([q[0]], q[1..]);
      PlusLaws(SumAll([q[0]]), SumAll(q[1..]), s.amount);
    }
  }

  lemma {:induction false} SortedSum(q: seq<Second>)
    ensures SumAll(Sorted(q)) == SumAll(q)
  {
    hide Plus, SumAll;
    if q != [] {
      SortedSum(q[1..]);
      InsertedSum(Sorted(q[1..]), q[0]);
      assert q == [q[0]] + q[1..];
      SumConcat([q[0]], q[1..]);
      SumOfOne(q[0]);
      PlusLaws(q[0].amount, SumAll(q[1..]), ZERO);
    }
  }

  // ----- the object -----

  /** The fields each kind of response touches. */
  lemma AmountOfGet(a: Amount, bytes: nat, latency: nat, hits: nat, misses: nat, bucket: int)
    ensures Plus(a, AmountOf(GetOp(bytes, latency, hits, misses, bucket))) ==
            a.(bytesGet := a.bytesGet + bytes, opsGet := a.opsGet + 1, hits := a.hits + hits,
               misses := a.misses + misses, latencyGet := a.latencyGet + latency)
  {
  }

  lemma AmountOfSet(a: Amount, bytes: nat, latency: nat, bucket: int)
    ensures Plus(a, AmountOf(SetOp(bytes, latency, bucket))) ==
            a.(bytesSet := a.bytesSet + bytes, opsSet := a.opsSet + 1, latencySet := a.latencySet + latency)
  {
  }

  lemma AmountOfWait(a: Amount, latency: nat, bucket: int)
    ensures Plus(a, AmountOf(WaitOp(latency, bucket))) ==
            a.(opsWait := a.opsWait + 1, latencyWait := a.latencyWait + latency)
  {
  }

  lemma JoinedLonger(mine: seq<Second>, o: Second)
    ensures |Joined(mine, o)| >= |mine|
  {
  }

  lemma AddedIs(s: Stats, op: Op, t: Stats)
    requires t.start == s.start && t.seconds == s.seconds && t.cur.second == s.cur.second
    requires t.cur.amount == Plus(s.cur.amount, AmountOf(op))
    requires t.ops == s.ops + 1 && t.latency == s.latency + op.latency
    requires t.bytes == s.bytes + if op.WaitOp? then 0 else op.bytes
    requires t.getMap == if op.GetOp? then s.getMap + multiset{op.bucket} else s.getMap
    requires t.setMap == if op.SetOp? then s.setMap + multiset{op.bucket} else s.setMap
    requires t.waitMap == if op.WaitOp? then s.waitMap + multiset{op.bucket} else s.waitMap
    ensures t == Added(s, op)
  {
    hide Plus, AmountOf;
  }

  class RunStats {
    var m_start_time: nat
    var m_stats: seq<Second>
    var m_cur_stats: Second
    var m_bytes: nat
    var m_ops: nat
    var m_latency: nat
    var m_get_latency_map: multiset<int>
    var m_set_latency_map: multiset<int>
    var m_wait_latency_map: multiset<int>

    ghost function Abs(): Stats
      reads this
    {
      Stats(m_start_time, m_stats, m_cur_stats, m_bytes, m_ops, m_latency,
            m_get_latency_map, m_set_latency_map, m_wait_latency_map)
    }

    constructor (start_time: nat)
      ensures Abs() == Initial(start_time)
    {
      m_start_time, m_stats, m_cur_stats := start_time, [], Second(0, ZERO);
      m_bytes, m_ops, m_latency := 0, 0, 0;
      m_get_latency_map, m_set_latency_map, m_wait_latency_map := multiset{}, multiset{}, multiset{};
    }

    method RollCurStats(ts: nat)
      requires ts >= m_start_time
      modifies `m_stats, `m_cur_stats
      ensures Abs() == Rolled(old(Abs()), ts)
    {
      var sec := (ts - m_start_time) / 1000000;
      if sec > m_cur_stats.second {
        m_stats := m_stats + [m_cur_stats];
        m_cur_stats := Second(sec, ZERO);
      }
    }

    method UpdateGetOp(ts: nat, bytes: nat, latency: nat, hits: nat, misses: nat, bucket: int)
      requires ts >= m_start_time
      modifies this
      ensures Abs() == Added(Rolled(old(Abs()), ts), GetOp(bytes, latency, hits, misses, bucket))
      ensures m_get_latency_map == old(m_get_latency_map) + multiset{bucket}
    {
      hide Rolled, Plus, AmountOf, Added;
      RollCurStats(ts);
      ghost var s := Abs();
      CountGet(bytes, latency, hits, misses, bucket);
      m_bytes, m_ops, m_latency := m_bytes + bytes, m_ops + 1, m_latency + latency;
      m_get_latency_map := m_get_latency_map + multiset{bucket};
      AddedIs(s, GetOp(bytes, latency, hits, misses, bucket), Abs());
    }

    method CountGet(bytes: nat, latency: nat, hits: nat, misses: nat, ghost bucket: int)
      modifies `m_cur_stats
      ensures m_cur_stats.second == old(m_cur_stats.second)
      ensures m_cur_stats.amount == Plus(old(m_cur_stats.amount), AmountOf(GetOp(bytes, latency, hits, misses, bucket)))
    {
      var a := m_cur_stats.amount;
      AmountOfGet(a, bytes, latency, hits, misses, bucket);
      hide Plus, AmountOf;
      m_cur_stats := m_cur_stats.(amount := a.(bytesGet := a.bytesGet + bytes, opsGet := a.opsGet + 1,
                                               hits := a.hits + hits, misses := a.misses + misses,
                                               latencyGet := a.latencyGet + latency));
    }

    method UpdateSetOp(ts: nat, bytes: nat, latency: nat, bucket: int)
      requires ts >= m_start_time
      modifies this
      ensures Abs() == Added(Rolled(old(Abs()), ts), SetOp(bytes, latency, bucket))
      ensures m_set_latency_map == old(m_set_latency_map) + multiset{bucket}
    {
      hide Rolled, Plus, AmountOf, Added;
      RollCurStats(ts);
      ghost var s := Abs();
      CountSet(bytes, latency, bucket);
      m_bytes, m_ops, m_latency := m_bytes + bytes, m_ops + 1, m_latency + latency;
      m_set_latency_map := m_set_latency_map + multiset{bucket};
      AddedIs(s, SetOp(bytes, latency, bucket), Abs());
    }

    method CountSet(bytes: nat, latency: nat, ghost bucket: int)
      modifies `m_cur_stats
      ensures m_cur_stats.second == old(m_cur_stats.second)
      ensures m_cur_stats.amount == Plus(old(m_cur_stats.amount), AmountOf(SetOp(bytes, latency, bucket)))
    {
      var a := m_cur_stats.amount;
      AmountOfSet(a, bytes, latency, bucket);
      hide Plus, AmountOf;
      m_cur_stats := m_cur_stats.(amount := a.(bytesSet := a.bytesSet + bytes, opsSet := a.opsSet + 1,
                                               latencySet := a.latencySet + latency));
    }

    method UpdateWaitOp(ts: nat, latency: nat, bucket: int)
      requires ts >= m_start_time
      modifies this
      ensures Abs() == Added(Rolled(old(Abs()), ts), WaitOp(latency, bucket))
      ensures m_wait_latency_map == old(m_wait_latency_map) + multiset{bucket}
    {
      hide Rolled, Plus, AmountOf, Added;
      RollCurStats(ts);
      ghost var s := Abs();
      CountWait(latency, bucket);
      m_ops, m_latency := m_ops + 1, m_latency + latency;
      m_wait_latency_map := m_wait_latency_map + multiset{bucket};
      AddedIs(s, WaitOp(latency, bucket), Abs());
    }

    method CountWait(latency: nat, ghost bucket: int)
      modifies `m_cur_stats
      ensures m_cur_stats.second == old(m_cur_stats.second)
      ensures m_cur_stats.amount == Plus(old(m_cur_stats.amount), AmountOf(WaitOp(latency, bucket)))
    {
      var a := m_cur_stats.amount;
      AmountOfWait(a, latency, bucket);
      hide Plus, AmountOf;
      m_cur_stats := m_cur_stats.(amount := a.(opsWait := a.opsWait + 1, latencyWait := a.latencyWait + latency));
    }

    method SetEndTime()
      modifies `m_stats
      ensures Abs() == Ended(old(Abs()))
    {
      m_stats := m_stats + [m_cur_stats];
    }

    /** Our entry for the second is found and added to, or the other's entry becomes ours. */
    method MergeSecond(other: Second) returns (merged: bool)
      modifies `m_stats
      ensures m_stats == Joined(old(m_stats), other) && merged == (|m_stats| == |old(m_stats)|)
    {
      merged := false;
      var i := 0;
      while i < |m_stats|
        invariant 0 <= i <= |m_stats| && m_stats == old(m_stats)
        invariant i + Find(m_stats[i..], other.second) == Find(m_stats, other.second)
      {
        if m_stats[i].second == other.second {
          m_stats := m_stats[i := Second(m_stats[i].second, Plus(m_stats[i].amount, other.amount))];
          return true;
        }
        assert m_stats[i..][1..] == m_stats[i + 1..];
        i := i + 1;
      }
      m_stats := m_stats + [other];
    }

    /** The one-second statistics merged, and sorted if there are new seconds. */
    method MergeSeconds(others: seq<Second>)
      modifies `m_stats
      ensures m_stats == MergedSeconds(old(m_stats), others)
    {
      hide Joined, Plus, Sorted;
      var new_stats := false;
      ghost var mine := m_stats;
      var i := 0;
      while i < |others|
        invariant 0 <= i <= |others| && m_stats == AllJoined(mine, others[..i])
        invariant |m_stats| >= |mine| && new_stats == (|m_stats| > |mine|)
      {
        assert others[..i + 1][..i] == others[..i];
        JoinedLonger(m_stats, others[i]);
        var merged := MergeSecond(others[i]);
        if !merged {
          new_stats := true;
        }
        i := i + 1;
      }
      assert others[..i] == others;
      if new_stats {
        m_stats := Sorted(m_stats);
      }
    }

    method Merge(other: RunStats)
      requires other != this
      modifies this
      ensures Abs() == Merged(old(Abs()), old(other.Abs()))
    {
      hide MergedSeconds;
      MergeSeconds(other.m_stats);
      m_bytes, m_ops := m_bytes + other.m_bytes, m_ops + other.m_ops;
      m_get_latency_map := m_get_latency_map + other.m_get_latency_map;
      m_set_latency_map := m_set_latency_map + other.m_set_latency_map;
      m_wait_latency_map := m_wait_latency_map + other.m_wait_latency_map;
    }

    /** The operations and bytes of the summary. */
    method Summarize() returns (result: Summary)
      ensures result.ops == SummarizedOps(Abs()) && result.bytes == SummarizedBytes(Abs())
      ensures var sum := SumAll(m_stats);
              result.opsSet == sum.opsSet && result.opsGet == sum.opsGet && result.opsWait == sum.opsWait
    {
      hide Plus;
      var totals := ZERO;
      var i := 0;
      SumOfNone(m_stats[..0]);
      while i < |m_stats|
        invariant 0 <= i <= |m_stats| && totals == SumAll(m_stats[..i])
      {
        assert m_stats[..i + 1][..i] == m_stats[..i];
        totals := Plus(totals, m_stats[i].amount);
        i := i + 1;
      }
      assert m_stats[..i] == m_stats;
      result := Summary(totals.opsSet, totals.opsGet, totals.opsWait,
                        totals.opsGet + totals.opsSet + totals.opsWait, totals.bytesGet + totals.bytesSet);
    }
  }
}
