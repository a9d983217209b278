/** The parallel load: with key pattern P every client draws sequential keys from a range of its own, and with `allkeys`
    makes as many requests as a range has keys. */
module KeyRange {
  import opened CText
  import opened Division

  datatype Config = Config(minimum: nat, maximum: nat, clients: nat)

  /** Keys up to a 32-bit `int`, the ranges' ends included, and at least one client. */
  predicate InRange(c: Config)
  {
    && c.clients > 0 && c.minimum <= c.maximum
    && c.maximum + Share(c) < 0x8000_0000 && c.minimum + Shares(Share(c), c.clients) < 0x8000_0000
  }

  /** Keys per client; also the number of requests `allkeys` stands for. */
  function Share(c: Config): nat
    requires c.clients > 0 && c.minimum <= c.maximum
  {
    (c.maximum - c.minimum) / c.clients + 1
  }

  function Shares(share: nat, n: nat): nat { share * n }

  lemma SharesGrow(share: nat, n: nat, m: nat)
    ensures Shares(share, n + 1) == Shares(share, n) + share
    ensures n <= m ==> Shares(share, n) <= Shares(share, m)
  {
    assert n <= m ==> share * (m - n) >= 0;
  }

  datatype Range = Range(min: nat, max: nat)

  /** The range of the client with an index; the last one takes the leftover. */
  function RangeOf(c: Config, index: nat): Range
    requires c.clients > 0 && c.minimum <= c.maximum
  {
    var min := c.minimum + Shares(Share(c), index);
    Range(min, if index == c.clients - 1 then c.maximum else min + Share(c))
  }

  // ----- the sequential generator -----

  /** The `k`-th key drawn from a range: it wraps, and an inverted range gives its lower end over and over. */
  function Drawn(r: Range, k: nat): nat
  {
    if r.min > r.max then r.min else r.min + k % (r.max - r.min + 1)
  }

  class ObjectGenerator {
    const m_key_min: nat
    const m_key_max: nat
    var m_next_key: nat
    ghost var draws: nat

    ghost predicate Valid()
      reads this
    {
      && (draws == 0 ==> m_next_key == 0)
      && (draws > 0 ==> m_next_key == Drawn(Range(m_key_min, m_key_max), draws))
    }

    constructor (r: Range)
      ensures Valid() && draws == 0 && Range(m_key_min, m_key_max) == r
    {
      m_key_min, m_key_max, m_next_key, draws := r.min, r.max, 0, 0;
    }

    method GetKeyIndex() returns (k: nat)
      requires Valid()
      modifies this
      ensures Valid() && draws == old(draws) + 1 && k == Drawn(Range(m_key_min, m_key_max), old(draws))
    {
      if m_key_min <= m_key_max { NextPlace(draws, m_key_max - m_key_min + 1); }
      if m_next_key < m_key_min {
        m_next_key := m_key_min;
      }
      k := m_next_key;
      m_next_key := m_next_key + 1;
      if m_next_key > m_key_max {
        m_next_key := m_key_min;
      }
      draws := draws + 1;
    }
  }

  lemma NextPlace(k: nat, n: nat)
    requires n > 0
    ensures (k + 1) % n == if k % n + 1 == n then 0 else k % n + 1
    ensures 0 % n == 0
  {
    var q, r := k / n, k % n;
    if r + 1 == n {
      assert k + 1 == (q + 1) * n + 0;
      Divides(k + 1, n, q + 1, 0);
    } else {
      Divides(k + 1, n, q, r + 1);
    }
  }

  /** The keys drawn go up one by one from the lower end to the upper end and then begin again, for ever; a range upside
      down gives its lower end each time. */
  lemma DrawnInTurn(r: Range, k: nat)
    ensures Drawn(r, 0) == r.min
    ensures r.min > r.max ==> Drawn(r, k) == r.min
    ensures r.min <= r.max ==> r.min <= Drawn(r, k) <= r.max
    ensures r.min <= r.max ==> Drawn(r, k + 1) == if Drawn(r, k) == r.max then r.min else Drawn(r, k) + 1
  {
    if r.min <= r.max { NextPlace(k, r.max - r.min + 1); }
  }

  /** From any draw on, each key of the range comes up within as many draws as it has keys. */
  lemma EachComesUp(r: Range, k: nat, key: nat) returns (j: nat)
    requires r.min <= key <= r.max
    ensures k <= j <= k + (r.max - r.min) && Drawn(r, j) == key
  {
    j := k;
    DrawnInTurn(r, k);
    hide Drawn;
    var from := Drawn(r, k);
    while Drawn(r, j) != key
      invariant k <= j && r.min <= Drawn(r, j) <= r.max
      invariant if j - k <= r.max - from then Drawn(r, j) == from + (j - k)
                else Drawn(r, j) == r.min + (j - k) - (r.max - from) - 1
      invariant from <= key ==> j - k <= key - from
      invariant key < from ==> j - k <= r.max - from + 1 + (key - r.min)
      decreases (if from <= key then key - from else r.max - from + 1 + (key - r.min)) - (j - k)
    {
      DrawnInTurn(r, j);
      j := j + 1;
    }
  }

  // ----- coverage -----

  lemma SharesSuffice(c: Config)
    requires InRange(c)
    ensures Shares(Share(c), c.clients) > c.maximum - c.minimum
  {
    var d, n := c.maximum - c.minimum, c.clients;
    assert d == d / n * n + d % n;
    assert (d / n + 1) * n == d / n * n + n;
  }

  lemma SmallPlace(k: nat, n: nat)
    requires k < n
    ensures k % n == k
  {
  }

  /** Every key of the space is among the first `Share` keys of some client. */
  lemma AllKeysDrawn(c: Config, key: nat) returns (index: nat, k: nat)
    requires InRange(c) && c.minimum <= key <= c.maximum
    ensures index < c.clients && k < Share(c) && Drawn(RangeOf(c, index), k) == key
  {
    var share := Share(c);
    SharesSuffice(c);
    index, k := InShare(key - c.minimum, share, c.clients);
    var r := RangeOf(c, index);
    hide Share, Shares, InRange;
    if index < c.clients - 1 { SharesGrow(share, index, index); }
    SmallPlace(k, r.max - r.min + 1);
  }

  /** Whose share a key is in, and where. */
  lemma InShare(x: nat, share: nat, n: nat) returns (index: nat, k: nat)
    requires share > 0 && x < Shares(share, n)
    ensures index < n && k < share && x == Shares(share, index) + k
    decreases n
  {
    if n == 0 {
      assert false;
    }
    hide Shares;
    SharesGrow(share, n - 1, n);
    if x >= Shares(share, n - 1) {
      index, k := n - 1, x - Shares(share, n - 1);
    } else {
      index, k := InShare(x, share, n - 1);
    }
  }

  /** A range's keys are consecutive from its start until it wraps. */
  lemma DrawnInOrder(r: Range, k: nat)
    ensures r.min <= Drawn(r, k)
    ensures Drawn(r, k) == r.min + k <==> r.min + k <= r.max || k == 0
  {
    if r.min + k <= r.max {
      SmallPlace(k, r.max - r.min + 1);
    }
  }

  /** Exactly when the first `Share` keys of a client are consecutive from its range's start: always, but for the last
      client, whose range ends with the key space. */
  lemma NoWrap(c: Config, index: nat, k: nat)
    requires InRange(c) && index < c.clients && k < Share(c)
    ensures var start := c.minimum + Shares(Share(c), index);
            Drawn(RangeOf(c, index), k) == start + k <==> index < c.clients - 1 || start + k <= c.maximum || k == 0
  {
    hide Share, Shares, Drawn;
    DrawnInOrder(RangeOf(c, index), k);
  }

  /** No two clients draw the same key in their first `Share` requests, the last client with its cut or inverted range
      included. */
  lemma NoKeyTwice(c: Config, i: nat, j: nat, k: nat, l: nat)
    requires InRange(c) && i < j < c.clients && k < Share(c) && l < Share(c)
    ensures Drawn(RangeOf(c, i), k) < Drawn(RangeOf(c, j), l)
  {
    hide Share, Shares, Drawn;
    DrawnInOrder(RangeOf(c, i), k);
    DrawnInOrder(RangeOf(c, j), l);
    SharesGrow(Share(c), i, i);
    SharesGrow(Share(c), i + 1, j);
  }

  // ----- whether the ranges stay inside -----

  predicate Inside(c: Config, r: Range) { c.minimum <= r.min <= r.max <= c.maximum }

  lemma RoundedUp(d: nat, n: nat)
    requires n > 0
    ensures Shares(d / n + 1, n - 1) <= d <==> d / n + d % n >= n - 1
  {
    assert d == d / n * n + d % n;
    assert (d / n + 1) * (n - 1) == d / n * n - d / n + n - 1;
  }

  /** All ranges are inside the key space exactly when what is lost by rounding up the shares is left over at the end;
      otherwise the last range is inverted. */
  lemma RangesInside(c: Config)
    requires InRange(c)
    ensures (forall i :: 0 <= i < c.clients ==> Inside(c, RangeOf(c, i))) <==>
            (c.maximum - c.minimum) / c.clients + (c.maximum - c.minimum) % c.clients >= c.clients - 1
  {
    RoundedUp(c.maximum - c.minimum, c.clients);
    var share, n := Share(c), c.clients;
    InsideByShares(c);
    hide Shares, RangeOf, InRange;
  }

  lemma InsideByShares(c: Config)
    requires InRange(c)
    ensures (forall i :: 0 <= i < c.clients ==> Inside(c, RangeOf(c, i))) <==>
            Shares(Share(c), c.clients - 1) <= c.maximum - c.minimum
  {
    var share, n := Share(c), c.clients;
    hide Share, Shares, InRange;
    if Shares(share, n - 1) <= c.maximum - c.minimum {
      forall i | 0 <= i < n ensures Inside(c, RangeOf(c, i)) {
        SharesGrow(share, i, n - 1);
        if i < n - 1 { SharesGrow(share, i + 1, n - 1); }
      }
    } else {
      assert !Inside(c, RangeOf(c, n - 1));
    }
  }

  /** With enough keys for the number of clients they are. */
  lemma ManyKeysInside(c: Config, i: nat)
    requires InRange(c) && i < c.clients && c.maximum - c.minimum >= c.clients * (c.clients - 1)
    ensures Inside(c, RangeOf(c, i))
  {
    QuotientAtLeast(c.maximum - c.minimum, c.clients, c.clients - 1);
    RangesInside(c);
    hide RangeOf, Inside, InRange;
  }

  lemma QuotientAtLeast(d: nat, n: nat, q: nat)
    requires n > 0 && d >= n * q
    ensures d / n >= q
  {
    var e := d / n - q;
    assert e * n >= 0 - d % n;
    Multiple(e, n);
  }

  /** The client index is never reset: clients of a second run all start above the key space. */
  lemma SecondRunOutside(c: Config, index: nat)
    requires InRange(c) && index >= c.clients
    ensures RangeOf(c, index).min > c.maximum
  {
    SharesSuffice(c);
    hide Shares, Share, InRange;
    SharesGrow(Share(c), c.clients, index);
  }

  /** The ends of the next client's range fit the `int` variables they are computed in. */
  predicate EndsFit(c: Config, index: nat)
    requires c.clients > 0 && c.minimum <= c.maximum
  {
    c.maximum < 0x8000_0000 && c.minimum + Shares(Share(c), index) + Share(c) < 0x8000_0000
  }

  /** Key spaces in range have such ends for every client of a run. */
  lemma EndsFitInRange(c: Config, index: nat)
    requires InRange(c) && index < c.clients
    ensures EndsFit(c, index)
  {
    hide Share, Shares;
    SharesGrow(Share(c), index, index);
    SharesGrow(Share(c), index + 1, c.clients);
  }

  class Setup {
    const config: Config
    var next_client_idx: nat

    constructor (config: Config)
      ensures this.config == config && next_client_idx == 0
    {
      this.config, next_client_idx := config, 0;
    }

    /** The key range part of a client's setup. */
    method SetupClient() returns (r: Range)
      requires config.clients > 0 && config.minimum <= config.maximum && EndsFit(config, next_client_idx)
      modifies this
      ensures r == RangeOf(config, old(next_client_idx)) && next_client_idx == old(next_client_idx) + 1
    {
      var range := AsInt32((config.maximum - config.minimum) / config.clients + 1);
      ShareAtLeastOne(config, next_client_idx);
      var min := AsInt32(config.minimum + range * next_client_idx);
      var max := min + range;
      if next_client_idx == config.clients - 1 {
        max := AsInt32(config.maximum);
      }
      r := Range(min, max);
      next_client_idx := next_client_idx + 1;
    }
  }

  lemma ShareAtLeastOne(c: Config, index: nat)
    requires c.clients > 0 && c.minimum <= c.maximum && EndsFit(c, index)
    ensures 0 < Share(c) < 0x8000_0000
    ensures 0 <= c.minimum + Share(c) * index < 0x8000_0000
  {
  }
}
