/** What a CLUSTER SLOTS reply does to the connections and to the slot table of a cluster client. */
module SlotTable {
  import opened CText
  import opened RedisArrays
  import Crc16

  const HSLOTS: nat := Crc16.HSLOTS

  datatype Address = Address(host: string, port: string)

  /** A shard of the reply: a range of slots and where it is served. */
  datatype Shard = Shard(low: int, high: int, address: Address)

  // ----- the reply -----

  predicate IsShard(t: Tree)
  {
    && t.Branch? && |t.elements| >= 3 && t.elements[0].Value? && t.elements[1].Value?
    && t.elements[2].Branch? && |t.elements[2].elements| >= 2
    && t.elements[2].elements[0].Value? && t.elements[2].elements[1].Value?
  }

  function SlotNumber(t: Tree): int
    requires t.Value?
  {
    AsInt32(Strtol(t.text))
  }

  function ShardOf(t: Tree): Shard
    requires IsShard(t)
  {
    Shard(SlotNumber(t.elements[0]), SlotNumber(t.elements[1]),
          Address(CString(t.elements[2].elements[0].text), CString(t.elements[2].elements[1].text)))
  }

  /** What the source reads from a reply without looking: shards of three elements, ranges inside the table. */
  predicate IsSlotsReply(t: Tree)
  {
    t.Branch? && forall e <- t.elements :: IsShard(e) && 0 <= ShardOf(e).low && ShardOf(e).high < HSLOTS
  }

  function ShardsOf(t: Tree): (shards: seq<Shard>)
    requires IsSlotsReply(t)
    ensures forall s <- shards :: InTable(s)
  {
    seq(|t.elements|, i requires 0 <= i < |t.elements| => ShardOf(t.elements[i]))
  }

  predicate InTable(s: Shard) { 0 <= s.low && s.high < HSLOTS }

  // ----- connections and slots -----

  /** Position of the first connection to an address, or the number of connections. */
  function Find(conns: seq<Address>, a: Address): (i: nat)
    ensures i <= |conns|
    ensures i < |conns| ==> conns[i] == a
    ensures forall j :: 0 <= j < i ==> conns[j] != a
  {
    if conns == [] || conns[0] == a then 0 else 1 + Find(conns[1..], a)
  }

  function Connected(conns: seq<Address>, a: Address): seq<Address>
  {
    if Find(conns, a) < |conns| then conns else conns + [a]
  }

  predicate Covers(s: Shard, slot: nat) { s.low <= slot <= s.high }

  function Assigned(table: seq<nat>, s: Shard, id: nat): (after: seq<nat>)
    ensures |after| == |table|
  {
    seq(|table|, j requires 0 <= j < |table| => if Covers(s, j) then id else table[j])
  }

  /** Shard by shard, in the order of the reply. */
  function AllConnected(conns: seq<Address>, shards: seq<Shard>): seq<Address>
    decreases |shards|
  {
    if shards == [] then conns else AllConnected(Connected(conns, shards[0].address), shards[1..])
  }

  function AllAssigned(conns: seq<Address>, table: seq<nat>, shards: seq<Shard>): (after: seq<nat>)
    ensures |after| == |table|
    decreases |shards|
  {
    if shards == [] then table
    else AllAssigned(Connected(conns, shards[0].address),
                     Assigned(table, shards[0], Find(conns, shards[0].address)),
                     shards[1..])
  }

  // ----- what that amounts to -----

  predicate Unique(conns: seq<Address>) { forall i, j :: 0 <= i < j < |conns| ==> conns[i] != conns[j] }

  /** The address of the last shard that covers a slot. */
  function LastCover(shards: seq<Shard>, slot: nat): Option<Address>
  {
    if shards == [] then None
    else
      var n := |shards| - 1;
      if Covers(shards[n], slot) then Some(shards[n].address) else LastCover(shards[..n], slot)
  }

  lemma ConnectedGrows(conns: seq<Address>, a: Address)
    ensures conns <= Connected(conns, a) && Find(Connected(conns, a), a) < |Connected(conns, a)|
    ensures Find(Connected(conns, a), a) == Find(conns, a)
    ensures Unique(conns) ==> Unique(Connected(conns, a))
  {
    assert (conns + [a])[|conns|] == a;
    assert forall j :: 0 <= j < |conns| ==> (conns + [a])[j] == conns[j];
  }

  lemma FindInLonger(conns: seq<Address>, more: seq<Address>, a: Address)
    requires conns <= more && Find(conns, a) < |conns|
    ensures Find(more, a) == Find(conns, a)
  {
    var i, k := Find(conns, a), Find(more, a);
    assert more[i] == a;
    assert forall j :: 0 <= j < i ==> more[j] == conns[j];
  }

  /** Connections are only ever added, never twice for one address, and every shard of the reply has one. */
  lemma {:induction false} AllConnectedGrows(conns: seq<Address>, shards: seq<Shard>)
    ensures conns <= AllConnected(conns, shards)
    ensures Unique(conns) ==> Unique(AllConnected(conns, shards))
    ensures forall s <- shards :: Find(AllConnected(conns, shards), s.address) < |AllConnected(conns, shards)|
    decreases |shards|
  {
    if shards != [] {
      var first := Connected(conns, shards[0].address);
      ConnectedGrows(conns, shards[0].address);
      AllConnectedGrows(first, shards[1..]);
      FindInLonger(first, AllConnected(first, shards[1..]), shards[0].address);
      forall s | s in shards
        ensures Find(AllConnected(conns, shards), s.address) < |AllConnected(conns, shards)|
      {
        assert s == shards[0] || s in shards[1..];
      }
    }
  }

  lemma {:induction false} LastCoverOfRest(shards: seq<Shard>, slot: nat)
    requires shards != []
    ensures LastCover(shards, slot) ==
            if LastCover(shards[1..], slot).Some? then LastCover(shards[1..], slot)
            else if Covers(shards[0], slot) then Some(shards[0].address) else None
    decreases |shards|
  {
    var n := |shards| - 1;
    if n == 0 {
      assert shards[..0] == [];
    } else {
      assert shards[1..][n - 1] == shards[n] && shards[1..][..n - 1] == shards[..n][1..];
      LastCoverOfRest(shards[..n], slot);
    }
  }

  /** Every slot the reply covers goes to the connection of the last range covering it; the others stay as they were. */
  lemma {:induction false} SlotsGoToLastCover(conns: seq<Address>, table: seq<nat>, shards: seq<Shard>, slot: nat)
    requires slot < |table|
    ensures AllAssigned(conns, table, shards)[slot] ==
            match LastCover(shards, slot)
            case Some(a) => Find(AllConnected(conns, shards), a)
            case None => table[slot]
    decreases |shards|
  {
    if shards != [] {
      var a := shards[0].address;
      var first := Connected(conns, a);
      ConnectedGrows(conns, a);
      LastCoverOfRest(shards, slot);
      AllConnectedGrows(first, shards[1..]);
      FindInLonger(first, AllConnected(first, shards[1..]), a);
      SlotsGoToLastCover(first, Assigned(table, shards[0], Find(conns, a)), shards[1..], slot);
    }
  }

  lemma {:induction false} LastCoverIsAShard(shards: seq<Shard>, slot: nat)
    ensures LastCover(shards, slot).Some? ==> exists s <- shards :: s.address == LastCover(shards, slot).value
  {
    if shards != [] {
      var n := |shards| - 1;
      LastCoverIsAShard(shards[..n], slot);
      assert shards[n] in shards && forall s <- shards[..n] :: s in shards;
    }
  }

  /** All slot entries name existing connections. */
  ghost predicate Total(table: seq<nat>, conns: seq<Address>) { forall j :: 0 <= j < |table| ==> table[j] < |conns| }

  /** A reply that leaves no slot uncovered makes the table total whatever it held before; one over a total table keeps
      it total. */
  lemma ReplyMakesTotal(conns: seq<Address>, table: seq<nat>, shards: seq<Shard>)
    requires Total(table, conns) || forall j :: 0 <= j < |table| ==> LastCover(shards, j).Some?
    ensures Total(AllAssigned(conns, table, shards), AllConnected(conns, shards))
  {
    AllConnectedGrows(conns, shards);
    forall j | 0 <= j < |table| ensures AllAssigned(conns, table, shards)[j] < |AllConnected(conns, shards)| {
      SlotsGoToLastCover(conns, table, shards, j);
      LastCoverIsAShard(shards, j);
    }
  }

  lemma {:induction false} AlreadyConnected(conns: seq<Address>, shards: seq<Shard>)
    requires forall s <- shards :: Find(conns, s.address) < |conns|
    ensures AllConnected(conns, shards) == conns
    decreases |shards|
  {
    if shards != [] {
      assert shards[0] in shards && forall s <- shards[1..] :: s in shards;
      AlreadyConnected(conns, shards[1..]);
    }
  }

  /** Handling the same reply a second time changes nothing. */
  lemma HandlingTwiceIsOnce(conns: seq<Address>, table: seq<nat>, shards: seq<Shard>)
    ensures var conns1, table1 := AllConnected(conns, shards), AllAssigned(conns, table, shards);
            AllConnected(conns1, shards) == conns1 && AllAssigned(conns1, table1, shards) == table1
  {
    var conns1, table1 := AllConnected(conns, shards), AllAssigned(conns, table, shards);
    AllConnectedGrows(conns, shards);
    AlreadyConnected(conns1, shards);
    var table2 := AllAssigned(conns1, table1, shards);
    forall j | 0 <= j < |table| ensures table2[j] == table1[j] {
      SlotsGoToLastCover(conns, table, shards, j);
      SlotsGoToLastCover(conns1, table1, shards, j);
    }
  }

  // ----- from a reply to the connections of its slots -----

  /** A range of slots and its master, as a server spells them: two integers, then host and port, then whatever else
      (an id behind the port, replicas behind the master). */
  datatype Range = Range(low: nat, high: nat, host: string, port: string, behindPort: seq<Tree>, replicas: seq<Tree>)

  function RangeReply(r: Range): Tree
  {
    Branch([Value(Dec(r.low)), Value(Dec(r.high)), Branch([Value(r.host), Value(r.port)] + r.behindPort)] + r.replicas)
  }

  /** The reply to CLUSTER SLOTS. */
  function SlotsReply(ranges: seq<Range>): Tree
  {
    Branch(seq(|ranges|, i requires 0 <= i < |ranges| => RangeReply(ranges[i])))
  }

  predicate Sendable(r: Range) { r.low < 16384 && r.high < 16384 && '\0' !in r.host && '\0' !in r.port }

  /** Range `i` is the last one that covers the slot. */
  ghost predicate ServedLast(ranges: seq<Range>, slot: nat, i: nat)
  {
    && i < |ranges| && ranges[i].low <= slot <= ranges[i].high
    && forall j :: i < j < |ranges| ==> !(ranges[j].low <= slot <= ranges[j].high)
  }

  lemma NumberReads(n: nat)
    requires n < 16384
    ensures Strtol(Dec(n)) == n && AsInt32(n) == n
  {
    hide Strtol, Dec;
    StrtolOf(n, "");
    assert Dec(n) + "" == Dec(n);
  }

  function AsShard(r: Range): Shard { Shard(r.low, r.high, Address(r.host, r.port)) }

  /** What is written in a range comes out of it. */
  lemma RangeReads(r: Range)
    requires Sendable(r)
    ensures IsShard(RangeReply(r)) && ShardOf(RangeReply(r)) == AsShard(r)
  {
    hide Dec, Strtol;
    NumberReads(r.low);
    NumberReads(r.high);
  }

  lemma ReplyReads(ranges: seq<Range>)
    requires forall r <- ranges :: Sendable(r)
    ensures IsSlotsReply(SlotsReply(ranges)) && |ShardsOf(SlotsReply(ranges))| == |ranges|
    ensures forall i :: 0 <= i < |ranges| ==> ShardsOf(SlotsReply(ranges))[i] == AsShard(ranges[i])
  {
    hide RangeReply, ShardOf, IsShard;
    var elements := SlotsReply(ranges).elements;
    forall i | 0 <= i < |ranges|
      ensures IsShard(elements[i]) && ShardOf(elements[i]) == AsShard(ranges[i])
    {
      RangeReads(ranges[i]);
    }
    forall e | e in elements ensures IsShard(e) && InTable(ShardOf(e)) {
      var i :| 0 <= i < |ranges| && e == elements[i];
      assert Sendable(ranges[i]);
    }
  }

  lemma {:induction false} LastCoverIs(shards: seq<Shard>, slot: nat, i: nat)
    requires i < |shards| && Covers(shards[i], slot) && forall j :: i < j < |shards| ==> !Covers(shards[j], slot)
    ensures LastCover(shards, slot) == Some(shards[i].address)
  {
    if i < |shards| - 1 { LastCoverIs(shards[..|shards| - 1], slot, i); }
  }

  lemma {:induction false} NoCover(shards: seq<Shard>, slot: nat)
    requires forall j :: 0 <= j < |shards| ==> !Covers(shards[j], slot)
    ensures LastCover(shards, slot) == None
  {
    if shards != [] { NoCover(shards[..|shards| - 1], slot); }
  }

  /** The reply spells these ranges. */
  predicate Spells(reply: Tree, ranges: seq<Range>)
  {
    reply == SlotsReply(ranges) && forall r <- ranges :: Sendable(r)
  }

  /** Each slot names a connection to the host and the port of the last range that covers it, and is as before when none
      does. */
  ghost predicate Served(ranges: seq<Range>, before: seq<nat>, table: seq<nat>, conns: seq<Address>)
  {
    && |table| == |before|
    && forall slot: nat :: slot < |table| ==>
         && (forall i: nat :: ServedLast(ranges, slot, i) ==>
               && table[slot] < |conns|
               && conns[table[slot]].host == ranges[i].host && conns[table[slot]].port == ranges[i].port)
         && ((forall r <- ranges :: !(r.low <= slot <= r.high)) ==> table[slot] == before[slot])
  }

  lemma SlotServed(conns: seq<Address>, table: seq<nat>, shards: seq<Shard>, ranges: seq<Range>, slot: nat)
    requires slot < |table| && shards == seq(|ranges|, i requires 0 <= i < |ranges| => AsShard(ranges[i]))
    ensures forall i: nat :: ServedLast(ranges, slot, i) ==>
              && AllAssigned(conns, table, shards)[slot] < |AllConnected(conns, shards)|
              && AllConnected(conns, shards)[AllAssigned(conns, table, shards)[slot]] == AsShard(ranges[i]).address
    ensures (forall r <- ranges :: !(r.low <= slot <= r.high)) ==>
              AllAssigned(conns, table, shards)[slot] == table[slot]
  {
    hide AllConnected, AllAssigned, LastCover;
    SlotsGoToLastCover(conns, table, shards, slot);
    AllConnectedGrows(conns, shards);
    forall i: nat | ServedLast(ranges, slot, i) ensures LastCover(shards, slot) == Some(shards[i].address) {
      LastCoverIs(shards, slot, i);
      assert shards[i] in shards;
    }
    if forall r <- ranges :: !(r.low <= slot <= r.high) {
      NoCover(shards, slot);
    }
  }

  /** A reply that spells ranges leaves every slot of the table with the server it was sent with. */
  lemma SlotsServed(conns: seq<Address>, table: seq<nat>, reply: Tree)
    requires IsSlotsReply(reply)
    ensures forall ranges: seq<Range> :: Spells(reply, ranges) ==>
              Served(ranges, table, AllAssigned(conns, table, ShardsOf(reply)), AllConnected(conns, ShardsOf(reply)))
  {
    hide SlotsReply, IsSlotsReply, ShardsOf, AllConnected, AllAssigned, Sendable, ServedLast;
    var shards := ShardsOf(reply);
    forall ranges: seq<Range> | Spells(reply, ranges)
      ensures Served(ranges, table, AllAssigned(conns, table, shards), AllConnected(conns, shards))
    {
      ReplyReads(ranges);
      forall slot: nat | slot < |table| { SlotServed(conns, table, shards, ranges, slot); }
    }
  }

  /** Whatever ranges are to be sent, some reply spells them. */
  lemma SpellsAll(ranges: seq<Range>)
    requires forall r <- ranges :: Sendable(r)
    ensures Spells(SlotsReply(ranges), ranges) && IsSlotsReply(SlotsReply(ranges))
  {
    ReplyReads(ranges);
    hide SlotsReply, IsSlotsReply, ShardsOf, Sendable;
  }
}
