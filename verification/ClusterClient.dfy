/** The cluster client: connections and slot table built from CLUSTER SLOTS replies, and a router that draws keys from
    one generator and hands each to the connection its slot belongs to, parking it in that connection's pool when
    another connection is asking. */
module ClusterClient {
  import opened CText
  import opened SlotTable
  import Crc16
  import RedisArrays
  import R = RatioMachine

  const KEY_INDEX_QUEUE_MAX_SIZE: nat := 1000000

  // ----- keys and their owners -----

  function Byte(c: char): bv8 { (c as int % 0x100) as bv8 }

  function AsBytes(s: string): seq<bv8> { seq(|s|, i requires 0 <= i < |s| => Byte(s[i])) }

  /** The slot of the key `<prefix><index>`. */
  function KeySlot(prefix: string, key: nat): (slot: nat)
    ensures slot < HSLOTS
  {
    Crc16.Slot(AsBytes(prefix + Dec(key)))
  }

  /** Which connection each key belongs to while the slot table stays as it is. */
  datatype Routes = Routes(prefix: string, table: seq<nat>) {
    function Owner(key: nat): nat
      requires |table| == HSLOTS
    {
      table[KeySlot(prefix, key)]
    }
  }

  /** A key belongs to the table's entry at the CRC, modulo 16384, of the bytes of the prefix and of the decimal digits
      of its index behind it. */
  lemma OwnerByCrc(routes: Routes, key: nat, bytes: seq<bv8>)
    requires |routes.table| == 16384 && |bytes| == |routes.prefix| + |Dec(key)|
    requires forall i :: 0 <= i < |routes.prefix| ==> bytes[i] == (routes.prefix[i] as int % 256) as bv8
    requires forall i :: 0 <= i < |Dec(key)| ==> bytes[|routes.prefix| + i] == (Dec(key)[i] as int % 256) as bv8
    ensures routes.Owner(key) == routes.table[Crc16.Crc(bytes) as nat % 16384]
  {
    hide Crc16.Crc, Dec;
    var text := routes.prefix + Dec(key);
    forall i | 0 <= i < |text| ensures AsBytes(text)[i] == bytes[i] {
      assert i >= |routes.prefix| ==> bytes[|routes.prefix| + (i - |routes.prefix|)] == bytes[i];
    }
    assert AsBytes(text) == bytes;
  }

  /** A key that was kept: the draw it comes from and the connection it belonged to when it was drawn. */
  datatype Drawn = Drawn(at: nat, owner: nat)

  /** The draws kept for a connection, in order. */
  ghost function Owned(kept: seq<Drawn>, conn: nat): seq<nat>
  {
    if kept == [] then []
    else
      var n := |kept| - 1;
      Owned(kept[..n], conn) + if kept[n].owner == conn then [kept[n].at] else []
  }

  ghost function KeysAt(keyAt: nat -> nat, draws: seq<nat>): seq<nat>
  {
    seq(|draws|, i requires 0 <= i < |draws| => keyAt(draws[i]))
  }

  lemma KeysAtMore(keyAt: nat -> nat, draws: seq<nat>, d: nat)
    ensures KeysAt(keyAt, draws + [d]) == KeysAt(keyAt, draws) + [keyAt(d)] && KeysAt(keyAt, []) == []
  {
  }

  lemma OwnedOfOneMore(kept: seq<Drawn>, d: Drawn, conn: nat)
    ensures Owned(kept + [d], conn) == Owned(kept, conn) + if d.owner == conn then [d.at] else []
  {
    assert (kept + [d])[..|kept|] == kept;
  }

  lemma {:induction false} OwnedAreKept(kept: seq<Drawn>, conn: nat)
    ensures forall at <- Owned(kept, conn) :: Drawn(at, conn) in kept
    ensures forall d <- kept :: d.owner == conn ==> d.at in Owned(kept, conn)
  {
    if kept != [] {
      var n := |kept| - 1;
      OwnedAreKept(kept[..n], conn);
      assert kept == kept[..n] + [kept[n]];
    }
  }

  ghost predicate Increasing(draws: seq<nat>) { forall i, j :: 0 <= i < j < |draws| ==> draws[i] < draws[j] }

  ghost predicate InOrder(kept: seq<Drawn>) { forall i, j :: 0 <= i < j < |kept| ==> kept[i].at < kept[j].at }

  lemma OneMoreDraw(draws: seq<nat>, d: nat)
    requires Increasing(draws) && forall e <- draws :: e < d
    ensures Increasing(draws + [d])
  {
    assert forall i :: 0 <= i < |draws| ==> draws[i] in draws;
  }

  lemma {:induction false} OwnedIncrease(kept: seq<Drawn>, conn: nat)
    requires InOrder(kept)
    ensures Increasing(Owned(kept, conn))
  {
    if kept != [] {
      var n := |kept| - 1;
      OwnedIncrease(kept[..n], conn);
      OwnedAreKept(kept[..n], conn);
      var before := Owned(kept[..n], conn);
      assert forall d <- kept[..n] :: d.at < kept[n].at;
      OneMoreDraw(before, kept[n].at);
      assert before + [] == before;
    }
  }

  /** No draw is kept for two connections. */
  lemma KeptOnce(kept: seq<Drawn>, at: nat, conn: nat)
    requires InOrder(kept) && Drawn(at, conn) in kept
    ensures forall c :: Drawn(at, c) in kept ==> c == conn
  {
    forall c | Drawn(at, c) in kept ensures c == conn {
      var i :| 0 <= i < |kept| && kept[i] == Drawn(at, conn);
      var j :| 0 <= j < |kept| && kept[j] == Drawn(at, c);
      assert i == j;
    }
  }

  /** `n` increasing numbers below `n` are all of them. */
  lemma AllDrawn(kept: seq<Drawn>)
    requires InOrder(kept) && forall d <- kept :: d.at < |kept|
    ensures forall i :: 0 <= i < |kept| ==> kept[i].at == i
  {
    forall i | 0 <= i < |kept| ensures kept[i].at == i {
      AtLeastIndex(kept, i);
      AtMostIndex(kept, i);
    }
  }

  lemma {:induction false} AtLeastIndex(kept: seq<Drawn>, i: nat)
    requires InOrder(kept) && i < |kept|
    ensures kept[i].at >= i
  {
    if i > 0 { AtLeastIndex(kept, i - 1); }
  }

  lemma {:induction false} AtMostIndex(kept: seq<Drawn>, i: nat)
    requires InOrder(kept) && i < |kept| && forall d <- kept :: d.at < |kept|
    ensures kept[i].at <= i
    decreases |kept| - i
  {
    assert kept[i] in kept;
    if i < |kept| - 1 {
      AtMostIndex(kept, i + 1);
    }
  }

  function TotalSize(parts: seq<seq<nat>>): nat
  {
    if parts == [] then 0 else |parts[0]| + TotalSize(parts[1..])
  }

  lemma {:induction false} TotalSizeChange(parts: seq<seq<nat>>, i: nat, part: seq<nat>)
    requires i < |parts|
    ensures TotalSize(parts[i := part]) == TotalSize(parts) - |parts[i]| + |part|
  {
    if i > 0 {
      assert parts[i := part][1..] == parts[1..][i - 1 := part];
      TotalSizeChange(parts[1..], i - 1, part);
    } else {
      assert parts[i := part][1..] == parts[1..];
    }
  }

  lemma {:induction false} PartWithinTotal(parts: seq<seq<nat>>, i: nat)
    requires i < |parts|
    ensures |parts[i]| <= TotalSize(parts)
  {
    if i > 0 { PartWithinTotal(parts[1..], i - 1); }
  }

  /** Conservation: what was handed to a connection, followed by what its pool holds, is exactly the keys kept for it,
      in order; and nothing else was kept. */
  ghost predicate Split(keyAt: nat -> nat, kept: seq<Drawn>, handed: seq<seq<nat>>, pools: seq<seq<nat>>)
  {
    && |handed| == |pools| && (forall d <- kept :: d.owner < |pools|)
    && (forall c :: 0 <= c < |handed| ==> handed[c] + pools[c] == KeysAt(keyAt, Owned(kept, c)))
    && |kept| == TotalSize(handed) + TotalSize(pools)
  }

  lemma NothingYet(keyAt: nat -> nat, one: seq<seq<nat>>)
    requires one == [[]]
    ensures Split(keyAt, [], one, one)
  {
    assert one[1..] == [];
  }

  /** A key drawn for a connection and put at the end of its pool. */
  lemma KeyParked(keyAt: nat -> nat, kept: seq<Drawn>, handed: seq<seq<nat>>, pools: seq<seq<nat>>, d: Drawn)
    requires Split(keyAt, kept, handed, pools) && d.owner < |pools|
    ensures var o := d.owner;
            Split(keyAt, kept + [d], handed, pools[o := pools[o] + [keyAt(d.at)]])
  {
    var o := d.owner;
    var after := pools[o := pools[o] + [keyAt(d.at)]];
    TotalSizeChange(pools, o, after[o]);
    hide Owned, KeysAt, TotalSize;
    forall c | 0 <= c < |handed| ensures handed[c] + after[c] == KeysAt(keyAt, Owned(kept + [d], c)) {
      OwnedOfOneMore(kept, d, c);
      KeysAtMore(keyAt, Owned(kept, c), d.at);
      assert handed[o] + (pools[o] + [keyAt(d.at)]) == handed[o] + pools[o] + [keyAt(d.at)];
      assert Owned(kept, c) + [] == Owned(kept, c);
    }
  }

  /** The front of a pool handed to its connection. */
  lemma FrontHanded(keyAt: nat -> nat, kept: seq<Drawn>, handed: seq<seq<nat>>, pools: seq<seq<nat>>, c: nat)
    returns (at: nat)
    requires Split(keyAt, kept, handed, pools) && c < |pools| && pools[c] != []
    ensures Split(keyAt, kept, handed[c := handed[c] + [pools[c][0]]], pools[c := pools[c][1..]])
    ensures Drawn(at, c) in kept && pools[c][0] == keyAt(at)
  {
    TotalSizeChange(pools, c, pools[c][1..]);
    TotalSizeChange(handed, c, handed[c] + [pools[c][0]]);
    assert handed[c] + [pools[c][0]] + pools[c][1..] == handed[c] + pools[c];
    OwnedAreKept(kept, c);
    hide Owned, TotalSize;
    at := Owned(kept, c)[|handed[c]|];
    assert (handed[c] + pools[c])[|handed[c]|] == pools[c][0];
  }

  /** A key drawn for the very connection that asks, whose pool is empty. */
  lemma KeyHanded(keyAt: nat -> nat, kept: seq<Drawn>, handed: seq<seq<nat>>, pools: seq<seq<nat>>, d: Drawn)
    requires Split(keyAt, kept, handed, pools) && d.owner < |pools| && pools[d.owner] == []
    ensures var o := d.owner;
            Split(keyAt, kept + [d], handed[o := handed[o] + [keyAt(d.at)]], pools)
  {
    hide Split;
    var o := d.owner;
    var between := pools[o := pools[o] + [keyAt(d.at)]];
    KeyParked(keyAt, kept, handed, pools, d);
    var at := FrontHanded(keyAt, kept + [d], handed, between, o);
    assert between[o] == [keyAt(d.at)] && between[o][1..] == pools[o];
    assert forall c :: 0 <= c < |pools| ==> between[o := between[o][1..]][c] == pools[c];
    assert between[o := between[o][1..]] == pools;
  }

  lemma {:induction false} NobodyOwns(kept: seq<Drawn>, c: nat)
    requires forall d <- kept :: d.owner != c
    ensures Owned(kept, c) == []
  {
    if kept != [] { NobodyOwns(kept[..|kept| - 1], c); }
  }

  /** More connections, the new ones with nothing. */
  ghost predicate Grown(before: seq<seq<nat>>, after: seq<seq<nat>>)
  {
    before <= after && forall i :: |before| <= i < |after| ==> after[i] == []
  }

  lemma GrownSelf(pools: seq<seq<nat>>)
    ensures Grown(pools, pools)
  {
  }

  lemma GrownAgain(before: seq<seq<nat>>, between: seq<seq<nat>>, after: seq<seq<nat>>)
    requires Grown(before, between) && Grown(between, after)
    ensures Grown(before, after)
  {
  }

  lemma {:induction false} TotalSizeGrown(before: seq<seq<nat>>, after: seq<seq<nat>>)
    requires Grown(before, after)
    ensures TotalSize(after) == TotalSize(before)
  {
    if before != [] {
      TotalSizeGrown(before[1..], after[1..]);
    } else if after != [] {
      TotalSizeGrown(before, after[1..]);
    }
  }

  lemma ConnectionsAdded(keyAt: nat -> nat, kept: seq<Drawn>, handed: seq<seq<nat>>, pools: seq<seq<nat>>,
                         handedAfter: seq<seq<nat>>, poolsAfter: seq<seq<nat>>)
    requires Split(keyAt, kept, handed, pools)
    requires Grown(handed, handedAfter) && Grown(pools, poolsAfter) && |handedAfter| == |poolsAfter|
    ensures Split(keyAt, kept, handedAfter, poolsAfter)
  {
    TotalSizeGrown(handed, handedAfter);
    TotalSizeGrown(pools, poolsAfter);
    hide Owned, TotalSize;
    forall c | |pools| <= c < |poolsAfter|
      ensures handedAfter[c] + poolsAfter[c] == KeysAt(keyAt, Owned(kept, c))
    {
      NobodyOwns(kept, c);
    }
  }

  /** What conservation means on the wire: connection `c` was handed a prefix of the keys kept for it, all of them once
      its pool is empty, and nobody else's. */
  lemma HandedInOrder(keyAt: nat -> nat, kept: seq<Drawn>, handed: seq<seq<nat>>, pools: seq<seq<nat>>, c: nat)
    requires Split(keyAt, kept, handed, pools) && c < |handed|
    ensures handed[c] <= KeysAt(keyAt, Owned(kept, c))
    ensures pools[c] == [] ==> handed[c] == KeysAt(keyAt, Owned(kept, c))
    ensures forall i :: 0 <= i < |handed[c]| ==>
              i < |Owned(kept, c)| && Drawn(Owned(kept, c)[i], c) in kept && handed[c][i] == keyAt(Owned(kept, c)[i])
  {
    OwnedAreKept(kept, c);
    hide Owned, TotalSize;
    assert forall i :: 0 <= i < |handed[c]| ==> handed[c][i] == (handed[c] + pools[c])[i];
  }

  /** Every generated request is a kept key or a WAIT; the kept keys are in the order they were drawn, each from a draw
      of its own, and all draws but the dropped ones are among them. */
  ghost predicate AddsUp(kept: seq<Drawn>, dropped: nat, drawn: nat, generated: nat, waits: nat)
  {
    && generated == |kept| + waits && drawn == |kept| + dropped
    && InOrder(kept) && (forall d <- kept :: d.at < drawn)
  }

  lemma OneMoreKey(kept: seq<Drawn>, owner: nat, dropped: nat, drawn: nat, generated: nat, waits: nat)
    requires AddsUp(kept, dropped, drawn, generated, waits)
    ensures AddsUp(kept + [Drawn(drawn, owner)], dropped, drawn + 1, generated + 1, waits)
    ensures AddsUp(kept, dropped + 1, drawn + 1, generated, waits)
    ensures AddsUp(kept, dropped, drawn, generated + 1, waits + 1)
    ensures |kept| <= generated
  {
    assert forall i :: 0 <= i < |kept| ==> kept[i] in kept;
  }

  // ----- where a search ends -----

  /** The pools after `n` draws from draw `from` on, each put into its owner's pool if that has room. */
  ghost function PoolsAfter(routes: Routes, keyAt: nat -> nat, pools: seq<seq<nat>>, from: nat, n: nat): seq<seq<nat>>
    requires |routes.table| == HSLOTS
  {
    if n == 0 then pools
    else
      var p := PoolsAfter(routes, keyAt, pools, from, n - 1);
      var key := keyAt(from + n - 1);
      var o := routes.Owner(key);
      if o < |p| && |p[o]| < KEY_INDEX_QUEUE_MAX_SIZE then p[o := p[o] + [key]] else p
  }

  /** A search that begins with draw `from` and has not ended before stops at draw `hit`: its key belongs to the
      connection, or with what the pools have taken by then the requests are reached. */
  ghost predicate StopsAt(routes: Routes, keyAt: nat -> nat, pools: seq<seq<nat>>, from: nat, generated: nat,
      requests: nat, conn: nat, hit: nat)
    requires |routes.table| == HSLOTS
  {
    from <= hit &&
    (|| routes.Owner(keyAt(hit)) == conn
     || (requests > 0 &&
         generated + TotalSize(PoolsAfter(routes, keyAt, pools, from, hit + 1 - from)) - TotalSize(pools) >= requests))
  }

  lemma NoDraws(routes: Routes, keyAt: nat -> nat, pools: seq<seq<nat>>, from: nat)
    requires |routes.table| == HSLOTS
    ensures PoolsAfter(routes, keyAt, pools, from, 0) == pools
  {
  }

  lemma OneDraw(routes: Routes, keyAt: nat -> nat, pools: seq<seq<nat>>, from: nat)
    requires |routes.table| == HSLOTS
    ensures var o := routes.Owner(keyAt(from));
            PoolsAfter(routes, keyAt, pools, from, 1) ==
            if o < |pools| && |pools[o]| < KEY_INDEX_QUEUE_MAX_SIZE then pools[o := pools[o] + [keyAt(from)]] else pools
  {
    NoDraws(routes, keyAt, pools, from);
  }

  lemma NextDraw(routes: Routes, keyAt: nat -> nat, pools: seq<seq<nat>>, from: nat, n: nat)
    requires |routes.table| == HSLOTS
    ensures PoolsAfter(routes, keyAt, pools, from, n + 1) ==
            PoolsAfter(routes, keyAt, PoolsAfter(routes, keyAt, pools, from, n), from + n, 1)
  {
    OneDraw(routes, keyAt, PoolsAfter(routes, keyAt, pools, from, n), from + n);
    hide Routes.Owner;
  }

  lemma LastDraw(routes: Routes, keyAt: nat -> nat, pools: seq<seq<nat>>, from: nat, n: nat)
    requires |routes.table| == HSLOTS && n > 0
    ensures var p, key := PoolsAfter(routes, keyAt, pools, from, n - 1), keyAt(from + n - 1);
            var o := routes.Owner(key);
            PoolsAfter(routes, keyAt, pools, from, n) ==
            if o < |p| && |p[o]| < KEY_INDEX_QUEUE_MAX_SIZE then p[o := p[o] + [key]] else p
  {
    hide Routes.Owner;
  }

  lemma {:induction false} PoolsGrow(routes: Routes, keyAt: nat -> nat, pools: seq<seq<nat>>, from: nat, n: nat)
    requires |routes.table| == HSLOTS
    ensures TotalSize(PoolsAfter(routes, keyAt, pools, from, n)) >= TotalSize(pools)
  {
    hide TotalSize, Routes.Owner, PoolsAfter;
    if n == 0 {
      NoDraws(routes, keyAt, pools, from);
    } else {
      PoolsGrow(routes, keyAt, pools, from, n - 1);
      LastDraw(routes, keyAt, pools, from, n);
      var p, key := PoolsAfter(routes, keyAt, pools, from, n - 1), keyAt(from + n - 1);
      var o := routes.Owner(key);
      if o < |p| { TotalSizeChange(p, o, p[o] + [key]); }
    }
  }

  /** As long as the pools have room every draw is taken. */
  lemma {:induction false} AllTaken(routes: Routes, keyAt: nat -> nat, pools: seq<seq<nat>>, from: nat, n: nat)
    requires |routes.table| == HSLOTS && forall key: nat :: routes.Owner(key) < |pools|
    requires forall c :: 0 <= c < |pools| ==> |pools[c]| + n <= KEY_INDEX_QUEUE_MAX_SIZE
    ensures var p := PoolsAfter(routes, keyAt, pools, from, n);
            && TotalSize(p) == TotalSize(pools) + n && |p| == |pools|
            && forall c :: 0 <= c < |p| ==> |p[c]| <= |pools[c]| + n
  {
    hide TotalSize, Routes.Owner, PoolsAfter;
    if n == 0 {
      NoDraws(routes, keyAt, pools, from);
    } else {
      AllTaken(routes, keyAt, pools, from, n - 1);
      LastDraw(routes, keyAt, pools, from, n);
      var p, key := PoolsAfter(routes, keyAt, pools, from, n - 1), keyAt(from + n - 1);
      var o := routes.Owner(key);
      TotalSizeChange(p, o, p[o] + [key]);
    }
  }

  lemma LimitStops(routes: Routes, keyAt: nat -> nat, pools: seq<seq<nat>>, from: nat, generated: nat, requests: nat,
      conn: nat) returns (hit: nat)
    requires |routes.table| == HSLOTS && forall key: nat :: routes.Owner(key) < |pools|
    requires 0 < requests <= KEY_INDEX_QUEUE_MAX_SIZE && forall c :: 0 <= c < |pools| ==> |pools[c]| <= generated
    ensures StopsAt(routes, keyAt, pools, from, generated, requests, conn, hit)
  {
    hide TotalSize, Routes.Owner, PoolsAfter;
    var n := if generated < requests then requests - generated else 1;
    hit := from + n - 1;
    if generated < requests {
      AllTaken(routes, keyAt, pools, from, n);
    } else {
      PoolsGrow(routes, keyAt, pools, from, n);
    }
  }

  /** A reply over all slots. */
  ghost predicate CoversAll(shards: seq<Shard>) { forall j :: 0 <= j < HSLOTS ==> LastCover(shards, j).Some? }

  lemma CoveredIsTotal(conns: seq<Address>, table: seq<nat>, shards: seq<Shard>)
    requires |table| == HSLOTS && (Total(table, conns) || CoversAll(shards))
    ensures Total(AllAssigned(conns, table, shards), AllConnected(conns, shards))
  {
    ReplyMakesTotal(conns, table, shards);
  }

  // ----- the client -----

  datatype Config = Config(requests: nat, setRatio: nat, getRatio: nat, waitA: nat, waitB: nat, prefix: string)

  /** What a call of `create_request` put on the wire. */
  datatype Sent = Nothing | SetKey(key: nat) | GetKey(key: nat) | WaitForSlaves

  // ----- the ratio -----

  function RatioOf(config: Config): R.Config { R.Config(config.setRatio, config.getRatio, 0, 0, 0) }

  ghost predicate RatioKept(config: Config, sets: nat, gets: nat, cycles: nat, calls: seq<R.Call>)
  {
    R.OnCycle(RatioOf(config), R.Run(R.Counters(sets, gets, 0, 0), cycles, calls))
  }

  lemma SetOnRatio(config: Config, sets: nat, gets: nat, cycles: nat, calls: seq<R.Call>)
    requires RatioKept(config, sets, gets, cycles, calls) && sets < config.setRatio
    ensures RatioKept(config, sets + 1, gets, cycles, calls + [R.GetObject])
  {
    hide R.Progress;
    var s, t := R.Counters(sets, gets, 0, 0), R.Counters(sets + 1, gets, 0, 0);
    R.CycleGrows(RatioOf(config), cycles, s, t, [R.GetObject]);
  }

  lemma GetOnRatio(config: Config, sets: nat, gets: nat, cycles: nat, calls: seq<R.Call>)
    requires RatioKept(config, sets, gets, cycles, calls) && sets >= config.setRatio && gets < config.getRatio
    ensures RatioKept(config, sets, gets + 1, cycles, calls + [R.GetKey])
  {
    hide R.Progress;
    var s, t := R.Counters(sets, gets, 0, 0), R.Counters(sets, gets + 1, 0, 0);
    assert R.Times(R.GetKey, 1) == [R.GetKey];
    R.CycleGrows(RatioOf(config), cycles, s, t, [R.GetKey]);
  }

  lemma ResetOnRatio(config: Config, sets: nat, gets: nat, cycles: nat, calls: seq<R.Call>)
    requires RatioKept(config, sets, gets, cycles, calls) && sets >= config.setRatio && gets >= config.getRatio
    ensures RatioKept(config, 0, 0, cycles + 1, calls)
  {
    hide R.Progress;
    R.CycleEnds(RatioOf(config), cycles, R.Counters(sets, gets, 0, 0));
  }

  class ClusterClient {
    const config: Config
    /** The object generator: the keys it draws one after the other, whichever iterator is asked. */
    const keyAt: nat -> nat
    var m_keys_drawn: nat

    var m_connections: seq<Address>
    const m_slot_to_shard: array<nat>
    var m_key_index_pools: seq<seq<nat>>
    var m_reqs_generated: nat
    var m_set_ratio_count: nat
    var m_get_ratio_count: nat
    var m_tot_set_ops: nat
    var m_tot_wait_ops: nat

    // History: keys drawn and kept, number drawn and dropped at a full pool, keys handed to each connection; SETs and
    // GETs sent (as an object and a key of the ratio machine), and resets of the counters.
    ghost var kept: seq<Drawn>
    ghost var dropped: nat
    ghost var handed: seq<seq<nat>>
    ghost var calls: seq<R.Call>
    ghost var cycles: nat

    ghost predicate Shaped()
      reads this
    {
      m_slot_to_shard.Length == HSLOTS && |m_key_index_pools| == |m_connections| == |handed|
    }

    ghost function Routing(): Routes
      reads m_slot_to_shard
    {
      Routes(config.prefix, m_slot_to_shard[..])
    }

    ghost predicate Counted()
      reads this
    {
      AddsUp(kept, dropped, m_keys_drawn, m_reqs_generated, m_tot_wait_ops)
    }

    /** The counters tell how far the SETs and GETs sent have got in a cycle of the ratio. */
    ghost predicate OnRatio()
      reads `m_set_ratio_count, `m_get_ratio_count, `calls, `cycles
    {
      R.OnCycle(RatioOf(config), R.Run(R.Counters(m_set_ratio_count, m_get_ratio_count, 0, 0), cycles, calls))
    }

    /** The WAITs keep pace with the SETs. */
    ghost predicate OnPace()
      reads `m_tot_set_ops, `m_tot_wait_ops
    {
      R.Paced(config.waitA, config.waitB, m_tot_set_ops, m_tot_wait_ops)
    }

    /** Keys and counts are conserved; this holds whatever the slot table says. */
    ghost predicate Conserved()
      reads this
    {
      Shaped() && Counted() && Split(keyAt, kept, handed, m_key_index_pools)
    }

    /** The table still gives every key kept to the connection it was kept for. */
    ghost predicate Routed()
      requires m_slot_to_shard.Length == HSLOTS
      reads `kept, m_slot_to_shard
    {
      forall d <- kept :: d.owner == Routing().Owner(keyAt(d.at))
    }

    ghost predicate Valid()
      reads this, m_slot_to_shard
    {
      Conserved() && Total(m_slot_to_shard[..], m_connections)
    }

    constructor (config: Config, keyAt: nat -> nat, main: Address)
      ensures this.config == config && this.keyAt == keyAt && fresh(m_slot_to_shard)
      ensures Conserved() && Routed() && m_connections == [main] && kept == [] && m_reqs_generated == 0
      ensures OnRatio() && OnPace() && calls == []
    {
      this.config, this.keyAt := config, keyAt;
      m_keys_drawn, m_reqs_generated := 0, 0;
      m_connections := [main];
      m_slot_to_shard := new nat[HSLOTS];
      m_key_index_pools := [[]];
      m_set_ratio_count, m_get_ratio_count, m_tot_set_ops, m_tot_wait_ops := 0, 0, 0, 0;
      kept, dropped, handed := [], 0, [[]];
      calls, cycles := [], 0;
      new;
      NothingYet(keyAt, handed);
      R.StartOnCycle(RatioOf(config));
    }

    // ----- CLUSTER SLOTS -----

    method AddShardConnection(a: Address)
      requires Shaped()
      modifies `m_connections, `m_key_index_pools, `handed
      ensures Shaped() && m_connections == old(m_connections) + [a]
      ensures m_key_index_pools == old(m_key_index_pools) + [[]] && handed == old(handed) + [[]]
    {
      m_connections := m_connections + [a];
      m_key_index_pools := m_key_index_pools + [[]];
      handed := handed + [[]];
    }

    /** The search for an existing connection. */
    method FindConnection(a: Address) returns (i: nat)
      ensures i == Find(m_connections, a)
    {
      i := 0;
      while i < |m_connections|
        invariant 0 <= i <= |m_connections|
        invariant i + Find(m_connections[i..], a) == Find(m_connections, a)
      {
        if m_connections[i] == a {
          return;
        }
        assert m_connections[i..][1..] == m_connections[i + 1..];
        i := i + 1;
      }
    }

    method UpdateRange(s: Shard, id: nat)
      requires m_slot_to_shard.Length == HSLOTS && InTable(s)
      modifies m_slot_to_shard
      ensures m_slot_to_shard[..] == Assigned(old(m_slot_to_shard[..]), s, id)
    {
      var j := s.low;
      while j <= s.high
        invariant s.low <= j && (j <= s.high + 1 || j == s.low)
        invariant forall k :: 0 <= k < HSLOTS ==>
                    m_slot_to_shard[k] == if s.low <= k < j then id else old(m_slot_to_shard[..])[k]
      {
        m_slot_to_shard[j] := id;
        j := j + 1;
      }
    }

    method HandleShard(s: Shard)
      requires Shaped() && InTable(s)
      modifies `m_connections, `m_key_index_pools, `handed, m_slot_to_shard
      ensures Shaped() && m_connections == Connected(old(m_connections), s.address)
      ensures m_slot_to_shard[..] == Assigned(old(m_slot_to_shard[..]), s, Find(old(m_connections), s.address))
      ensures Grown(old(m_key_index_pools), m_key_index_pools) && Grown(old(handed), handed)
    {
      var id := FindConnection(s.address);
      if id == |m_connections| {
        AddShardConnection(s.address);
      }
      UpdateRange(s, id);
    }

    method HandleShards(reply: RedisArrays.Tree)
      requires Shaped() && IsSlotsReply(reply)
      modifies `m_connections, `m_key_index_pools, `handed, m_slot_to_shard
      ensures m_connections == AllConnected(old(m_connections), ShardsOf(reply))
      ensures m_slot_to_shard[..] == AllAssigned(old(m_connections), old(m_slot_to_shard[..]), ShardsOf(reply))
      ensures Shaped() && Grown(old(m_key_index_pools), m_key_index_pools) && Grown(old(handed), handed)
    {
      hide Assigned, Find, Connected, IsShard, Grown;
      ghost var shards := ShardsOf(reply);
      var i := 0;
      assert shards[0..] == shards;
      GrownSelf(m_key_index_pools);
      GrownSelf(handed);
      while i < |reply.elements|
        invariant 0 <= i <= |reply.elements| == |shards| && Shaped()
        invariant AllConnected(m_connections, shards[i..]) == AllConnected(old(m_connections), shards)
        invariant AllAssigned(m_connections, m_slot_to_shard[..], shards[i..]) ==
                  AllAssigned(old(m_connections), old(m_slot_to_shard[..]), shards)
        invariant Grown(old(m_key_index_pools), m_key_index_pools) && Grown(old(handed), handed)
      {
        assert reply.elements[i] in reply.elements && shards[i] == ShardOf(reply.elements[i]);
        assert shards[i..][0] == shards[i] && shards[i..][1..] == shards[i + 1..];
        ghost var pools, keys := m_key_index_pools, handed;
        HandleShard(ShardOf(reply.elements[i]));
        GrownAgain(old(m_key_index_pools), pools, m_key_index_pools);
        GrownAgain(old(handed), keys, handed);
        i := i + 1;
      }
      assert shards[i..] == [];
    }

    /** After a reply the connections and the table are those the reply describes. Keys and counts are conserved however
        the reply moves slots: keys already kept stay with the connection they were kept for. */
    method HandleClusterSlots(reply: RedisArrays.Tree)
      requires Shaped() && IsSlotsReply(reply)
      modifies `m_connections, `m_key_index_pools, `handed, m_slot_to_shard
      ensures m_connections == AllConnected(old(m_connections), ShardsOf(reply))
      ensures m_slot_to_shard[..] == AllAssigned(old(m_connections), old(m_slot_to_shard[..]), ShardsOf(reply))
      ensures forall ranges: seq<Range> :: Spells(reply, ranges) ==>
                Served(ranges, old(m_slot_to_shard[..]), m_slot_to_shard[..], m_connections)
      ensures Shaped() && Grown(old(m_key_index_pools), m_key_index_pools) && Grown(old(handed), handed)
      ensures old(Conserved()) ==> Conserved()
      ensures old(Conserved()) && (old(Valid()) || CoversAll(ShardsOf(reply))) ==> Valid()
      ensures old(Routed()) && (kept == [] || old(m_slot_to_shard[..]) == m_slot_to_shard[..]) ==> Routed()
    {
      hide Split, Grown, CoversAll, Total, AllConnected, AllAssigned, IsShard, AddsUp, Spells, Served;
      ghost var table := m_slot_to_shard[..];
      HandleShards(reply);
      SlotsServed(old(m_connections), table, reply);
      if old(Conserved()) {
        ConnectionsAdded(keyAt, kept, old(handed), old(m_key_index_pools), handed, m_key_index_pools);
        if Total(table, old(m_connections)) || CoversAll(ShardsOf(reply)) {
          CoveredIsTotal(old(m_connections), table, ShardsOf(reply));
        }
      }
    }

    // ----- requests -----

    method HoldPipeline(conn: nat) returns (hold: bool)
      requires Shaped() && conn < |m_connections|
      ensures hold <==> config.requests > 0 && m_key_index_pools[conn] == [] && m_reqs_generated >= config.requests
    {
      if config.requests > 0 {
        if m_key_index_pools[conn] == [] && m_reqs_generated >= config.requests {
          return true;
        }
      }
      return false;
    }

    /** The request counter is the keys sent, the keys waiting in pools and the WAITs, and the draws are the keys sent,
        the keys waiting and the dropped ones, also when full pools drop keys and when replies move slots. */
    lemma GeneratedAddsUp()
      requires Conserved()
      ensures m_reqs_generated == TotalSize(handed) + TotalSize(m_key_index_pools) + m_tot_wait_ops
      ensures m_keys_drawn == TotalSize(handed) + TotalSize(m_key_index_pools) + dropped
    {
    }

    /** What a connection was handed, and what waits in its pool behind it, are the keys of draws kept for it and for no
        other connection, in the order they were drawn and none of them twice. While the table has not moved their slots
        they are keys of its own, and when none was dropped, of all its draws. */
    lemma HandedByDraw(conn: nat) returns (mine: seq<nat>)
      requires Conserved() && conn < |handed|
      ensures handed[conn] + m_key_index_pools[conn] == KeysAt(keyAt, mine) && Increasing(mine)
      ensures forall d <- mine :: d < m_keys_drawn && forall c :: Drawn(d, c) in kept <==> c == conn
      ensures Routed() ==> forall d <- mine :: Routing().Owner(keyAt(d)) == conn
      ensures Routed() && dropped == 0 ==>
                forall d :: 0 <= d < m_keys_drawn && Routing().Owner(keyAt(d)) == conn ==> d in mine
    {
      hide Increasing, Owned, KeysAt, Routes.Owner, TotalSize;
      mine := Owned(kept, conn);
      OwnedAreKept(kept, conn);
      OwnedIncrease(kept, conn);
      forall d | d in mine ensures d < m_keys_drawn && forall c :: Drawn(d, c) in kept <==> c == conn {
        assert Drawn(d, conn) in kept;
        KeptOnce(kept, d, conn);
      }
      if Routed() {
        forall d | d in mine ensures Routing().Owner(keyAt(d)) == conn {
          assert Drawn(d, conn) in kept;
        }
        if dropped == 0 {
          AllDrawn(kept);
          forall d | 0 <= d < m_keys_drawn && Routing().Owner(keyAt(d)) == conn ensures d in mine {
            assert kept[d] in kept;
          }
        }
      }
    }

    /** While fewer requests are generated than any pool can hold, no pool is full. */
    lemma PoolsWithinGenerated()
      requires Conserved()
      ensures forall c :: 0 <= c < |m_key_index_pools| ==> |m_key_index_pools[c]| <= m_reqs_generated
    {
      forall c | 0 <= c < |m_key_index_pools| ensures |m_key_index_pools[c]| <= m_reqs_generated {
        PartWithinTotal(m_key_index_pools, c);
      }
    }

    /** One turn of the search: the key drawn goes to the connection that asks, or to a pool, or is dropped. */
    method DrawKey(conn: nat) returns (key: nat, found: bool)
      requires Valid() && conn < |m_connections| && m_key_index_pools[conn] == []
      modifies `m_keys_drawn, `m_key_index_pools, `m_reqs_generated, `kept, `dropped, `handed
      ensures Valid() && m_keys_drawn == old(m_keys_drawn) + 1 && key == keyAt(old(m_keys_drawn))
      ensures old(Routed()) ==> Routed()
      ensures Routing().Owner(key) < |m_key_index_pools| == |old(m_key_index_pools)|
      ensures found <==> Routing().Owner(key) == conn
      ensures found ==> handed == old(handed)[conn := old(handed[conn]) + [key]] && dropped == old(dropped)
      ensures !found ==> handed == old(handed) && m_key_index_pools[conn] == []
      ensures !found ==>
                && m_key_index_pools == PoolsAfter(Routing(), keyAt, old(m_key_index_pools), old(m_keys_drawn), 1)
                && m_reqs_generated - old(m_reqs_generated) ==
                   TotalSize(m_key_index_pools) - old(TotalSize(m_key_index_pools))
      ensures dropped == old(dropped) ==>
                && kept == old(kept) + [Drawn(old(m_keys_drawn), Routing().Owner(key))]
                && m_reqs_generated == old(m_reqs_generated) + 1
      ensures dropped != old(dropped) ==> kept == old(kept) && m_reqs_generated == old(m_reqs_generated)
      ensures dropped != old(dropped) <==>
              !found && |old(m_key_index_pools[Routing().Owner(key)])| >= 1000000
      ensures forall c :: 0 <= c < |m_key_index_pools| ==> |old(m_key_index_pools)[c]| <= |m_key_index_pools[c]|
    {
      hide Split, AddsUp, KeySlot, TotalSize;
      key := keyAt(m_keys_drawn);
      var owner := m_slot_to_shard[KeySlot(config.prefix, key)];
      assert owner == Routing().Owner(key) < |m_connections|;
      ghost var d := Drawn(m_keys_drawn, owner);
      OneMoreKey(kept, owner, dropped, m_keys_drawn, m_reqs_generated, m_tot_wait_ops);
      OneDraw(Routing(), keyAt, m_key_index_pools, m_keys_drawn);
      m_keys_drawn := m_keys_drawn + 1;
      found := owner == conn;
      if found {
        m_reqs_generated := m_reqs_generated + 1;
        KeyHanded(keyAt, kept, handed, m_key_index_pools, d);
        kept := kept + [d];
        handed := handed[conn := handed[conn] + [key]];
      } else if |m_key_index_pools[owner]| < KEY_INDEX_QUEUE_MAX_SIZE {
        KeyParked(keyAt, kept, handed, m_key_index_pools, d);
        TotalSizeChange(m_key_index_pools, owner, m_key_index_pools[owner] + [key]);
        m_key_index_pools := m_key_index_pools[owner := m_key_index_pools[owner] + [key]];
        m_reqs_generated := m_reqs_generated + 1;
        kept := kept + [d];
      } else {
        dropped := dropped + 1;
      }
    }

    /** A search by this connection would not go on beyond draw `hit`. */
    ghost predicate Ends(conn: nat, hit: nat)
      requires m_slot_to_shard.Length == HSLOTS
      reads this, m_slot_to_shard
    {
      StopsAt(Routing(), keyAt, m_key_index_pools, m_keys_drawn, m_reqs_generated, config.requests, conn, hit)
    }

    /** With a limit that is positive and fits a pool every search ends, whatever keys come. */
    lemma LimitEnds(conn: nat) returns (hit: nat)
      requires Valid() && conn < |m_connections| && 0 < config.requests <= KEY_INDEX_QUEUE_MAX_SIZE
      ensures Ends(conn, hit)
    {
      hide Split, AddsUp, KeySlot, Routes.Owner, StopsAt;
      PoolsWithinGenerated();
      OwnersExist();
      hit := LimitStops(Routing(), keyAt, m_key_index_pools, m_keys_drawn, m_reqs_generated, config.requests, conn);
    }

    /** Without a limit too, when a key of its own comes. */
    lemma OwnKeyEnds(conn: nat, hit: nat)
      requires Valid() && m_keys_drawn <= hit && Routing().Owner(keyAt(hit)) == conn
      ensures Ends(conn, hit)
    {
    }

    lemma OwnersExist()
      requires Valid()
      ensures forall key: nat :: Routing().Owner(key) < |m_key_index_pools|
    {
      hide KeySlot, Split, AddsUp;
    }

    /** Keys are drawn until one belongs to the connection or the requests are reached. The search ends at the first
        draw at which it can, and needs no more than that there is one. */
    method SearchKey(conn: nat, ghost hit: nat) returns (key: Option<nat>)
      requires Valid() && conn < |m_connections| && m_key_index_pools[conn] == []
      requires Ends(conn, hit)
      modifies `m_keys_drawn, `m_key_index_pools, `m_reqs_generated, `kept, `dropped, `handed
      ensures Valid() && old(kept) <= kept && (old(Routed()) ==> Routed())
      ensures old(m_keys_drawn) < m_keys_drawn <= hit + 1
      ensures forall h :: 0 <= h < m_keys_drawn ==>
                StopsAt(Routing(), keyAt, old(m_key_index_pools), old(m_keys_drawn), old(m_reqs_generated),
                        config.requests, conn, h) == (h == m_keys_drawn - 1)
      ensures forall h :: old(m_keys_drawn) <= h < m_keys_drawn - 1 ==> Routing().Owner(keyAt(h)) != conn
      ensures config.requests > 0 && m_keys_drawn > old(m_keys_drawn) + 1 ==> m_reqs_generated <= config.requests
      ensures key.Some? <==> Routing().Owner(keyAt(m_keys_drawn - 1)) == conn
      ensures key.Some? ==> key.value == keyAt(m_keys_drawn - 1)
      ensures key.Some? ==> handed == old(handed)[conn := old(handed[conn]) + [key.value]]
      ensures key.None? ==> handed == old(handed) && m_key_index_pools[conn] == []
      ensures key.None? ==> 0 < config.requests <= m_reqs_generated
      ensures old(m_reqs_generated) < config.requests <= KEY_INDEX_QUEUE_MAX_SIZE ==>
                dropped == old(dropped) && m_reqs_generated <= config.requests
      ensures (forall c :: 0 <= c < |m_key_index_pools| ==> |m_key_index_pools[c]| < KEY_INDEX_QUEUE_MAX_SIZE) ==>
                dropped == old(dropped)
    {
      hide Split, AddsUp, Total, Routes.Owner, PoolsAfter, TotalSize, Routed;
      ghost var pools, from, generated := m_key_index_pools, m_keys_drawn, m_reqs_generated;
      NoDraws(Routing(), keyAt, pools, from);
      while true
        invariant Valid() && m_key_index_pools[conn] == [] && handed == old(handed) && old(kept) <= kept
        invariant old(Routed()) ==> Routed()
        invariant |m_key_index_pools| == |pools| && from <= m_keys_drawn <= hit
        invariant m_key_index_pools == PoolsAfter(Routing(), keyAt, pools, from, m_keys_drawn - from)
        invariant m_reqs_generated - generated == TotalSize(m_key_index_pools) - TotalSize(pools)
        invariant forall h :: 0 <= h < m_keys_drawn ==>
                    !StopsAt(Routing(), keyAt, pools, from, generated, config.requests, conn, h)
        invariant forall h :: from <= h < m_keys_drawn ==> Routing().Owner(keyAt(h)) != conn
        invariant m_keys_drawn == from ==> m_reqs_generated == generated
        invariant m_reqs_generated < config.requests || m_keys_drawn == from || config.requests == 0
        invariant generated < config.requests <= KEY_INDEX_QUEUE_MAX_SIZE ==> dropped == old(dropped)
        invariant dropped == old(dropped) ||
                  exists c :: 0 <= c < |m_key_index_pools| && |m_key_index_pools[c]| >= KEY_INDEX_QUEUE_MAX_SIZE
        decreases hit - m_keys_drawn
      {
        PoolsWithinGenerated();
        ghost var n := m_keys_drawn - from;
        var k, found := DrawKey(conn);
        if found {
          return Some(k);
        }
        NextDraw(Routing(), keyAt, pools, from, n);
        if config.requests > 0 && m_reqs_generated >= config.requests {
          return None;
        }
      }
    }

    /** A key for a connection: from its pool if there is one, from the search otherwise. */
    method GetKeyForConn(conn: nat, ghost hit: nat) returns (key: Option<nat>)
      requires Valid() && conn < |m_connections|
      requires m_key_index_pools[conn] == [] ==> Ends(conn, hit)
      modifies `m_keys_drawn, `m_key_index_pools, `m_reqs_generated, `kept, `dropped, `handed
      ensures Valid() && old(kept) <= kept && (old(Routed()) ==> Routed())
      ensures key.Some? && (old(Routed()) || old(m_key_index_pools[conn]) == []) ==> Routing().Owner(key.value) == conn
      ensures key.Some? ==> handed == old(handed)[conn := old(handed[conn]) + [key.value]]
      ensures key.None? ==> handed == old(handed) && m_key_index_pools[conn] == []
      ensures key.None? ==> 0 < config.requests <= m_reqs_generated
      ensures old(m_key_index_pools[conn]) != [] ==>
                kept == old(kept) && key == Some(old(m_key_index_pools[conn][0]))
      ensures old(m_reqs_generated) < config.requests <= KEY_INDEX_QUEUE_MAX_SIZE ==>
                dropped == old(dropped) && m_reqs_generated <= config.requests
      ensures (forall c :: 0 <= c < |m_key_index_pools| ==> |m_key_index_pools[c]| < KEY_INDEX_QUEUE_MAX_SIZE) ==>
                dropped == old(dropped)
    {
      hide Split, AddsUp, Total, StopsAt, Routes.Owner;
      if m_key_index_pools[conn] != [] {
        var front := m_key_index_pools[conn][0];
        ghost var at := FrontHanded(keyAt, kept, handed, m_key_index_pools, conn);
        handed := handed[conn := handed[conn] + [front]];
        m_key_index_pools := m_key_index_pools[conn := m_key_index_pools[conn][1..]];
        return Some(front);
      }
      key := SearchKey(conn, hit);
    }

    predicate WaitDue()
      reads this
    {
      config.waitB > 0 &&
      (m_tot_wait_ops == 0 || m_tot_set_ops / m_tot_wait_ops > config.waitA / config.waitB)
    }

    predicate CycleOver()
      reads this
    {
      m_set_ratio_count >= config.setRatio && m_get_ratio_count >= config.getRatio
    }

    method CountWait()
      requires Conserved() && OnPace() && WaitDue()
      modifies `m_tot_wait_ops, `m_reqs_generated
      ensures Conserved() && OnPace()
      ensures m_tot_wait_ops == old(m_tot_wait_ops) + 1 && m_reqs_generated == old(m_reqs_generated) + 1
    {
      R.KeepsPace(config.waitA, config.waitB, m_tot_set_ops, m_tot_wait_ops);
      hide Split, R.Paced;
      OneMoreKey(kept, 0, dropped, m_keys_drawn, m_reqs_generated, m_tot_wait_ops);
      m_tot_wait_ops := m_tot_wait_ops + 1;
      m_reqs_generated := m_reqs_generated + 1;
    }

    method CountSet()
      requires OnRatio() && OnPace() && !WaitDue() && m_set_ratio_count < config.setRatio
      modifies `m_set_ratio_count, `m_tot_set_ops, `calls
      ensures OnRatio() && OnPace() && calls == old(calls) + [R.GetObject]
      ensures m_set_ratio_count == old(m_set_ratio_count) + 1 && m_tot_set_ops == old(m_tot_set_ops) + 1
    {
      SetOnRatio(config, m_set_ratio_count, m_get_ratio_count, cycles, calls);
      R.KeepsPace(config.waitA, config.waitB, m_tot_set_ops, m_tot_wait_ops);
      hide R.OnCycle, R.Paced;
      m_set_ratio_count := m_set_ratio_count + 1;
      m_tot_set_ops := m_tot_set_ops + 1;
      calls := calls + [R.GetObject];
    }

    method CountGet()
      requires OnRatio() && m_set_ratio_count >= config.setRatio && m_get_ratio_count < config.getRatio
      modifies `m_get_ratio_count, `calls
      ensures OnRatio() && calls == old(calls) + [R.GetKey] && m_get_ratio_count == old(m_get_ratio_count) + 1
    {
      GetOnRatio(config, m_set_ratio_count, m_get_ratio_count, cycles, calls);
      hide R.OnCycle;
      m_get_ratio_count := m_get_ratio_count + 1;
      calls := calls + [R.GetKey];
    }

    method ResetCounts()
      requires OnRatio() && CycleOver()
      modifies `m_set_ratio_count, `m_get_ratio_count, `cycles
      ensures OnRatio() && m_set_ratio_count == m_get_ratio_count == 0 && cycles == old(cycles) + 1
    {
      ResetOnRatio(config, m_set_ratio_count, m_get_ratio_count, cycles, calls);
      hide R.OnCycle;
      m_get_ratio_count, m_set_ratio_count := 0, 0;
      cycles := cycles + 1;
    }

    /** A SET or a GET is to be sent, and no key waits for it. */
    ghost predicate Searches(conn: nat)
      requires conn < |m_key_index_pools|
      reads this
    {
      && !WaitDue() && m_key_index_pools[conn] == []
      && (m_set_ratio_count < config.setRatio || m_get_ratio_count < config.getRatio)
    }

    /** What a call counts as in the ratio, the counters with it: nothing for a WAIT or without a key. */
    ghost function CallOf(sent: Sent): seq<R.Call>
    {
      match sent case SetKey(_) => [R.GetObject] case GetKey(_) => [R.GetKey] case _ => []
    }

    method CreateRequest(conn: nat, ghost hit: nat) returns (sent: Sent)
      requires Valid() && OnRatio() && OnPace() && conn < |m_connections|
      requires Searches(conn) ==> Ends(conn, hit)
      modifies `m_keys_drawn, `m_key_index_pools, `m_reqs_generated, `kept, `dropped, `handed
      modifies `m_set_ratio_count, `m_get_ratio_count, `m_tot_set_ops, `m_tot_wait_ops, `calls, `cycles
      ensures Valid() && OnRatio() && OnPace() && old(kept) <= kept && (old(Routed()) ==> Routed())
      ensures sent.SetKey? || sent.GetKey? ==> handed == old(handed)[conn := old(handed[conn]) + [sent.key]]
      ensures (sent.SetKey? || sent.GetKey?) && (old(Routed()) || old(m_key_index_pools[conn]) == []) ==>
                Routing().Owner(sent.key) == conn
      ensures sent.WaitForSlaves? || sent.Nothing? ==> handed == old(handed)
      ensures sent.WaitForSlaves? <==>
              && config.waitB > 0
              && (|| old(m_tot_wait_ops) == 0
                  || old(m_tot_set_ops) / old(m_tot_wait_ops) > config.waitA / config.waitB)
      ensures sent.SetKey? ==> old(m_set_ratio_count) < config.setRatio
      ensures sent.GetKey? ==> old(m_set_ratio_count) >= config.setRatio && old(m_get_ratio_count) < config.getRatio
      ensures m_tot_wait_ops == old(m_tot_wait_ops) + if sent.WaitForSlaves? then 1 else 0
      ensures m_tot_set_ops == old(m_tot_set_ops) + if sent.SetKey? then 1 else 0
      ensures calls == old(calls) + CallOf(sent)
      ensures if && old(m_set_ratio_count) >= config.setRatio && old(m_get_ratio_count) >= config.getRatio
                 && !sent.WaitForSlaves?
              then m_set_ratio_count == m_get_ratio_count == 0 && kept == old(kept) && cycles == old(cycles) + 1
              else && m_set_ratio_count == old(m_set_ratio_count) + (if sent.SetKey? then 1 else 0)
                   && m_get_ratio_count == old(m_get_ratio_count) + (if sent.GetKey? then 1 else 0)
                   && cycles == old(cycles)
      ensures old(m_reqs_generated) < config.requests <= KEY_INDEX_QUEUE_MAX_SIZE ==>
                dropped == old(dropped) && m_reqs_generated <= config.requests
    {
      hide Split, AddsUp, Total, OnRatio, Routes.Owner, StopsAt, Routed, OnPace;
      assert calls + [] == calls;
      if WaitDue() {
        CountWait();
        return WaitForSlaves;
      } else if m_set_ratio_count < config.setRatio {
        var key := GetKeyForConn(conn, hit);
        if key.None? {
          return Nothing;
        }
        CountSet();
        return SetKey(key.value);
      } else if m_get_ratio_count < config.getRatio {
        var key := GetKeyForConn(conn, hit);
        if key.None? {
          return Nothing;
        }
        CountGet();
        return GetKey(key.value);
      } else {
        ResetCounts();
        return Nothing;
      }
    }

    /** At every point the first request sent was a WAIT, and there are `waitA / waitB + 1` SETs between one WAIT and
        the next, or none is sent when the ratio is off. */
    lemma KeepsPace()
      requires OnPace()
      ensures config.waitB == 0 ==> m_tot_wait_ops == 0
      ensures config.waitB > 0 && m_tot_wait_ops == 0 ==> m_tot_set_ops == 0
      ensures config.waitB > 0 && m_tot_wait_ops > 0 ==>
                (config.waitA / config.waitB + 1) * (m_tot_wait_ops - 1) <= m_tot_set_ops
                <= (config.waitA / config.waitB + 1) * m_tot_wait_ops
    {
    }

    /** The SETs and GETs of a client are full cycles of the ratio, SETs first, and the part of one that the counters
        tell, whatever connections asked for them and whatever WAITs and failed searches came between. */
    lemma FollowsRatio()
      requires OnRatio()
      ensures m_set_ratio_count <= config.setRatio && m_get_ratio_count <= config.getRatio
      ensures var c := RatioOf(config);
              calls == R.Cycles(c, cycles) + R.Cycle(c)[..m_set_ratio_count + m_get_ratio_count]
    {
      hide R.Cycles, R.Cycle;
    }
  }
}
