/** The SET/GET ratio machine of a client and its twin that replays the generator's calls to verify what was stored. */
module RatioMachine {
  import opened CText
  import K = KeyList

  /** Ratios SETs to GETs and SETs to WAITs, and the number of keys of a multi-get, 0 for single ones. */
  datatype Config = Config(a: nat, b: nat, waitA: nat, waitB: nat, multi: nat)

  datatype Counters = Counters(set_: nat, get: nat, totSet: nat, totWait: nat)

  datatype Request = Wait | Set | Get | MultiGet(keys: nat) | VerifyGet

  /** Calls of the object generator that advance it. */
  datatype Call = GetObject | GetKey

  /** One call of `create_request`. */
  datatype Turn = Turn(state: Counters, request: Option<Request>, calls: seq<Call>)

  function WaitDue(c: Config, s: Counters): bool
  {
    c.waitB > 0 && (s.totWait == 0 || s.totSet / s.totWait > c.waitA / c.waitB)
  }

  /** Keys of the next GET. */
  function Batch(c: Config, s: Counters): nat
    requires s.get < c.b
  {
    if c.multi == 0 then 1 else if c.b - s.get > c.multi then c.multi else c.b - s.get
  }

  lemma BatchNotEmpty(c: Config, s: Counters)
    requires s.get < c.b
    ensures Batch(c, s) > 0 && |Times(GetKey, Batch(c, s))| > 0
  {
  }

  function Times(call: Call, n: nat): seq<Call> { seq(n, _ => call) }

  function Wrapped(c: Config, s: Counters): Counters
  {
    if s.set_ == c.a && s.get == c.b then s.(set_ := 0, get := 0) else s
  }

  function ClientTurn(c: Config, s: Counters): Turn
  {
    if WaitDue(c, s) then Turn(Wrapped(c, s.(totWait := s.totWait + 1)), Some(Wait), [])
    else if s.set_ < c.a then
      Turn(Wrapped(c, s.(set_ := s.set_ + 1, totSet := s.totSet + 1)), Some(Set), [GetObject])
    else if s.get < c.b then
      var n := Batch(c, s);
      Turn(Wrapped(c, s.(get := s.get + n)), Some(if c.multi > 0 then MultiGet(n) else Get), Times(GetKey, n))
    else Turn(Wrapped(c, s), None, [])
  }

  function VerifyTurn(c: Config, s: Counters): Turn
  {
    if s.set_ < c.a then Turn(s.(set_ := s.set_ + 1), Some(VerifyGet), [GetObject])
    else if s.get < c.b then Turn(s.(get := s.get + Batch(c, s)), None, Times(GetKey, Batch(c, s)))
    else Turn(s.(set_ := 0, get := 0), None, [])
  }

  // ----- what one turn keeps -----

  /** SETs come first, GETs after them, neither beyond its share. */
  predicate InCycle(c: Config, s: Counters) { s.set_ <= c.a && s.get <= c.b && (s.get > 0 ==> s.set_ == c.a) }

  /** A client between requests is never at the end of a cycle. */
  predicate ClientInv(c: Config, s: Counters) { InCycle(c, s) && (s.set_ == c.a && s.get == c.b ==> c.a + c.b == 0) }

  /** A turn keeps the counters within the ratio and sends exactly one request, unless the ratio is 0:0. */
  lemma OneRequest(c: Config, s: Counters)
    requires ClientInv(c, s)
    ensures ClientInv(c, ClientTurn(c, s).state)
    ensures ClientTurn(c, s).request.Some? <==> WaitDue(c, s) || c.a + c.b > 0
    ensures ClientTurn(c, s).calls != [] <==> ClientTurn(c, s).request.Some? && !ClientTurn(c, s).request.value.Wait?
  {
    hide WaitDue;
  }

  // ----- cycles -----

  /** The calls of a full cycle. */
  function Cycle(c: Config): (calls: seq<Call>)
    ensures |calls| == c.a + c.b
  {
    Times(GetObject, c.a) + Times(GetKey, c.b)
  }

  function Cycles(c: Config, n: nat): seq<Call>
  {
    if n == 0 then [] else Cycles(c, n - 1) + Cycle(c)
  }

  /** `n` full cycles and the part of the next that the counters tell. */
  function Progress(c: Config, n: nat, s: Counters): seq<Call>
    requires InCycle(c, s)
  {
    Cycles(c, n) + Cycle(c)[..s.set_ + s.get]
  }

  /** Calls appended within a cycle. */
  lemma CycleGrows(c: Config, n: nat, s: Counters, t: Counters, calls: seq<Call>)
    requires InCycle(c, s) && InCycle(c, t)
    requires (calls == [GetObject] && t == s.(set_ := s.set_ + 1, totSet := t.totSet)) ||
             (s.set_ == c.a && s.get <= t.get && calls == Times(GetKey, t.get - s.get) && t == s.(get := t.get))
    ensures Progress(c, n, s) + calls == Progress(c, n, t)
  {
    assert Cycle(c)[..s.set_ + s.get] + calls == Cycle(c)[..t.set_ + t.get];
    assert Cycles(c, n) + Cycle(c)[..s.set_ + s.get] + calls == Cycles(c, n) + (Cycle(c)[..s.set_ + s.get] + calls);
  }

  lemma CycleEnds(c: Config, n: nat, s: Counters)
    requires InCycle(c, s) && s.set_ == c.a && s.get == c.b
    ensures Progress(c, n, s) == Progress(c, n + 1, s.(set_ := 0, get := 0))
  {
    assert Cycle(c)[..c.a + c.b] == Cycle(c) && Cycles(c, n + 1) + Cycle(c)[..0] == Cycles(c, n + 1);
  }

  // ----- runs -----

  /** State and calls so far; `cycles` counts the resets. */
  datatype Run = Run(state: Counters, cycles: nat, calls: seq<Call>)

  const START := Run(Counters(0, 0, 0, 0), 0, [])

  function Extended(r: Run, t: Turn, reset: bool): Run
  {
    Run(t.state, if reset then r.cycles + 1 else r.cycles, r.calls + t.calls)
  }

  function ClientRun(c: Config, n: nat): Run
  {
    if n == 0 then START
    else
      var r := ClientRun(c, n - 1);
      var t := ClientTurn(c, r.state);
      Extended(r, t, t.calls != [] && t.state.set_ == 0 && t.state.get == 0)
  }

  function VerifyRun(c: Config, n: nat): Run
  {
    if n == 0 then START
    else
      var r := VerifyRun(c, n - 1);
      Extended(r, VerifyTurn(c, r.state), r.state.set_ == c.a && r.state.get == c.b)
  }

  /** What a run has called is full cycles and a part of one. */
  ghost predicate OnCycle(c: Config, r: Run) { InCycle(c, r.state) && r.calls == Progress(c, r.cycles, r.state) }

  lemma StartOnCycle(c: Config)
    ensures OnCycle(c, START)
  {
    assert Cycles(c, 0) + Cycle(c)[..0] == [];
  }

  lemma ClientTurnOnCycle(c: Config, r: Run)
    requires OnCycle(c, r) && ClientInv(c, r.state)
    ensures var t := ClientTurn(c, r.state);
            OnCycle(c, Extended(r, t, t.calls != [] && t.state.set_ == 0 && t.state.get == 0))
  {
    hide WaitDue, Progress;
    var s := r.state;
    var t := ClientTurn(c, s);
    OneRequest(c, s);
    if WaitDue(c, s) || t.calls == [] {
      assert r.calls + [] == r.calls;
      SameProgress(c, r.cycles, s, t.state);
    } else {
      var u := if s.set_ < c.a then s.(set_ := s.set_ + 1, totSet := s.totSet + 1) else s.(get := s.get + Batch(c, s));
      CycleGrows(c, r.cycles, s, u, t.calls);
      if u.set_ == c.a && u.get == c.b { CycleEnds(c, r.cycles, u); }
    }
  }

  lemma SameProgress(c: Config, n: nat, s: Counters, t: Counters)
    requires InCycle(c, s) && t.set_ == s.set_ && t.get == s.get
    ensures Progress(c, n, s) == Progress(c, n, t)
  {
  }

  lemma VerifyTurnOnCycle(c: Config, r: Run)
    requires OnCycle(c, r)
    ensures OnCycle(c, Extended(r, VerifyTurn(c, r.state), r.state.set_ == c.a && r.state.get == c.b))
  {
    hide Progress;
    var s := r.state;
    var t := VerifyTurn(c, s);
    if t.calls == [] {
      assert r.calls + [] == r.calls;
      CycleEnds(c, r.cycles, s);
    } else {
      CycleGrows(c, r.cycles, s, t.state, t.calls);
    }
  }

  lemma {:induction false} ClientOnCycle(c: Config, n: nat)
    ensures ClientInv(c, ClientRun(c, n).state) && OnCycle(c, ClientRun(c, n))
  {
    StartOnCycle(c);
    if n > 0 {
      hide OnCycle, ClientInv, ClientTurn;
      ClientOnCycle(c, n - 1);
      ClientTurnOnCycle(c, ClientRun(c, n - 1));
      OneRequest(c, ClientRun(c, n - 1).state);
    }
  }

  lemma {:induction false} VerifyOnCycle(c: Config, n: nat)
    ensures OnCycle(c, VerifyRun(c, n))
  {
    StartOnCycle(c);
    if n > 0 {
      hide OnCycle, VerifyTurn;
      VerifyOnCycle(c, n - 1);
      VerifyTurnOnCycle(c, VerifyRun(c, n - 1));
    }
  }

  /** Whatever WAITs come between, the keys of a client follow the ratio: `a` objects, then `b` keys, over and over. */
  lemma {:induction false} ClientFollowsRatio(c: Config, n: nat)
    ensures var r := ClientRun(c, n);
            ClientInv(c, r.state) && r.calls == Cycles(c, r.cycles) + Cycle(c)[..r.state.set_ + r.state.get]
  {
    ClientOnCycle(c, n);
    hide ClientRun, Cycles, Cycle;
  }

  lemma {:induction false} VerifyFollowsRatio(c: Config, n: nat)
    ensures var r := VerifyRun(c, n);
            InCycle(c, r.state) && r.calls == Cycles(c, r.cycles) + Cycle(c)[..r.state.set_ + r.state.get]
  {
    VerifyOnCycle(c, n);
    hide VerifyRun, Cycles, Cycle;
  }

  // ----- the requests -----

  /** What a turn sends: a WAIT when there has been none, or when the SETs for each WAIT have passed the ratio; a SET
      while SETs are missing in the cycle; then GETs, with as many keys as a multi-get takes and the cycle still wants.
      */
  lemma RequestIs(c: Config, s: Counters)
    requires ClientInv(c, s)
    ensures var t := ClientTurn(c, s);
            var due := c.waitB > 0 && (s.totWait == 0 || s.totSet / s.totWait > c.waitA / c.waitB);
            && (t.request == Some(Wait) <==> due) && (t.request == Some(Set) <==> !due && s.set_ < c.a)
            && (t.request == Some(Get) <==> !due && s.set_ == c.a && s.get < c.b && c.multi == 0)
            && (t.request.Some? && t.request.value.MultiGet? <==> !due && s.set_ == c.a && s.get < c.b && c.multi > 0)
            && t.request != Some(VerifyGet)
            && (t.request.Some? && t.request.value.MultiGet? ==>
                  && 0 < t.request.value.keys <= c.multi && t.request.value.keys <= c.b - s.get
                  && (t.request.value.keys == c.multi || t.request.value.keys == c.b - s.get))
            && t.calls == (if t.request.Some? then Carried(t.request.value) else [])
            && t.state.totWait == s.totWait + (if t.request == Some(Wait) then 1 else 0)
            && t.state.totSet == s.totSet + (if t.request == Some(Set) then 1 else 0)
  {
  }

  /** The generator's calls behind a request. */
  function Carried(r: Request): seq<Call>
  {
    match r
    case Wait => []
    case Set => [GetObject]
    case Get => [GetKey]
    case MultiGet(keys) => seq(keys, _ => GetKey)
    case VerifyGet => [GetObject]
  }

  function AllCarried(rs: seq<Request>): seq<Call>
  {
    if rs == [] then [] else AllCarried(rs[..|rs| - 1]) + Carried(rs[|rs| - 1])
  }

  /** The requests of `n` turns. */
  function Requests(c: Config, n: nat): seq<Request>
  {
    if n == 0 then []
    else
      var t := ClientTurn(c, ClientRun(c, n - 1).state);
      Requests(c, n - 1) + if t.request.Some? then [t.request.value] else []
  }

  lemma RequestsStep(c: Config, n: nat)
    ensures var t := ClientTurn(c, ClientRun(c, n).state);
            && Requests(c, n + 1) == Requests(c, n) + (if t.request.Some? then [t.request.value] else [])
            && ClientRun(c, n + 1).state == t.state && ClientRun(c, n + 1).calls == ClientRun(c, n).calls + t.calls
  {
    hide ClientTurn;
  }

  lemma NoRequests(c: Config)
    ensures Requests(c, 0) == [] && AllCarried(Requests(c, 0)) == [] && ClientRun(c, 0) == START
  {
  }

  lemma OneMoreRequest(rs: seq<Request>, r: Option<Request>, more: seq<Request>)
    requires more == rs + if r.Some? then [r.value] else []
    ensures AllCarried(more) == AllCarried(rs) + if r.Some? then Carried(r.value) else []
    ensures multiset(more)[Set] == multiset(rs)[Set] + if r == Some(Set) then 1 else 0
    ensures multiset(more)[Wait] == multiset(rs)[Wait] + if r == Some(Wait) then 1 else 0
    ensures forall x <- more :: x in rs || r == Some(x)
  {
    hide Carried;
    if r.Some? { assert more[..|rs|] == rs; } else { assert more == rs && AllCarried(rs) + [] == AllCarried(rs); }
  }

  /** The requests carry exactly the keys drawn, and the counters count them; single GETs and multi-gets are never
      mixed, and a multi-get never has more keys than configured. */
  lemma {:induction false} RequestsCarryCalls(c: Config, n: nat)
    ensures var rs, s := Requests(c, n), ClientRun(c, n).state;
            && ClientRun(c, n).calls == AllCarried(rs)
            && multiset(rs)[Set] == s.totSet && multiset(rs)[Wait] == s.totWait
            && forall r <- rs ::
                 !r.VerifyGet? && (r.Get? ==> c.multi == 0) && (r.MultiGet? ==> 0 < r.keys <= c.multi)
  {
    hide ClientTurn, Carried, AllCarried, ClientRun, ClientInv, OnCycle, Requests;
    if n == 0 {
      NoRequests(c);
    } else {
      RequestsCarryCalls(c, n - 1);
      ClientOnCycle(c, n - 1);
      var s := ClientRun(c, n - 1).state;
      RequestIs(c, s);
      RequestsStep(c, n - 1);
      OneMoreRequest(Requests(c, n - 1), ClientTurn(c, s).request, Requests(c, n));
    }
  }

  /** SETs between `q + 1` for each WAIT but the last and `q + 1` for each, with `q` the ratio as an integer; and with
      the ratio off no WAIT at all. */
  predicate Paced(waitA: nat, waitB: nat, sets: nat, waits: nat)
  {
    if waitB == 0 then waits == 0
    else if waits == 0 then sets == 0
    else (waitA / waitB + 1) * (waits - 1) <= sets <= (waitA / waitB + 1) * waits
  }

  lemma QuotientAbove(k: nat, w: nat, q: nat)
    requires w > 0
    ensures k / w > q <==> k >= (q + 1) * w
  {
    assert k == k / w * w + k % w;
    if k / w > q {
      assert k / w * w >= (q + 1) * w;
    } else {
      assert k / w * w <= q * w;
      assert (q + 1) * w == q * w + w;
    }
  }

  /** A WAIT sent exactly when it is due keeps the pace. */
  lemma KeepsPace(waitA: nat, waitB: nat, sets: nat, waits: nat)
    requires Paced(waitA, waitB, sets, waits)
    ensures if waitB > 0 && (waits == 0 || sets / waits > waitA / waitB)
            then Paced(waitA, waitB, sets, waits + 1) else Paced(waitA, waitB, sets + 1, waits)
  {
    if waitB > 0 {
      var q := waitA / waitB;
      if waits > 0 { QuotientAbove(sets, waits, q); }
      assert waits == 0 ==> (q + 1) * 0 == 0;
    }
  }

  lemma {:induction false} PacedRun(c: Config, n: nat)
    ensures Paced(c.waitA, c.waitB, ClientRun(c, n).state.totSet, ClientRun(c, n).state.totWait)
  {
    if n > 0 {
      PacedRun(c, n - 1);
      hide ClientTurn, ClientRun, ClientInv, OnCycle, Paced;
      ClientOnCycle(c, n - 1);
      var s := ClientRun(c, n - 1).state;
      PacedTurn(c, s);
      RequestsStep(c, n - 1);
    }
  }

  lemma PacedTurn(c: Config, s: Counters)
    requires ClientInv(c, s) && Paced(c.waitA, c.waitB, s.totSet, s.totWait)
    ensures var t := ClientTurn(c, s).state; Paced(c.waitA, c.waitB, t.totSet, t.totWait)
  {
    hide ClientTurn, ClientInv, Paced;
    RequestIs(c, s);
    KeepsPace(c.waitA, c.waitB, s.totSet, s.totWait);
  }

  /** At every point of a run the WAITs keep pace with the SETs: the first request is a WAIT, and each next one comes
      when there are `waitA / waitB + 1` SETs for every WAIT so far, which is one more than the ratio says. */
  lemma WaitsKeepPace(c: Config, n: nat)
    ensures var rs := Requests(c, n);
            var sets, waits := multiset(rs)[Set], multiset(rs)[Wait];
            if c.waitB == 0 then waits == 0
            else && (waits == 0 ==> sets == 0)
                 && (waits > 0 ==>
                       (c.waitA / c.waitB + 1) * (waits - 1) <= sets <= (c.waitA / c.waitB + 1) * waits)
    ensures c.waitB > 0 && Requests(c, n) != [] ==> Requests(c, n)[0] == Wait
  {
    hide Requests, ClientRun, AllCarried;
    RequestsCarryCalls(c, n);
    PacedRun(c, n);
    if c.waitB > 0 { FirstWaits(c, n); }
    NoRequests(c);
  }

  lemma {:induction false} FirstWaits(c: Config, n: nat)
    requires c.waitB > 0
    ensures n > 0 ==> Requests(c, n) != [] && Requests(c, n)[0] == Wait
  {
    if n > 1 {
      FirstWaits(c, n - 1);
    } else if n == 1 {
      RequestIs(c, START.state);
      NoRequests(c);
      hide ClientTurn;
    }
  }

  // ----- the replay -----

  /** The twin resets one turn later. */
  predicate Behind(c: Config, s: Counters, v: Counters)
  {
    (v.set_ == s.set_ && v.get == s.get) || (v.set_ == c.a && v.get == c.b && s.set_ == 0 && s.get == 0)
  }

  /** Turn by turn: after its reset, if one is due, the twin makes the client's calls. */
  lemma ReplayTurn(c: Config, s: Counters, v: Counters)
    requires c.waitB == 0 && c.a + c.b > 0 && ClientInv(c, s) && InCycle(c, v) && Behind(c, s, v)
    ensures var w := if v.set_ == c.a && v.get == c.b then VerifyTurn(c, v).state else v;
            && w.set_ == s.set_ && w.get == s.get
            && ClientTurn(c, s).calls == VerifyTurn(c, w).calls
            && (ClientTurn(c, s).request == Some(Set) <==> VerifyTurn(c, w).request == Some(VerifyGet))
            && Behind(c, ClientTurn(c, s).state, VerifyTurn(c, w).state)
  {
  }

  lemma CountersInCycle(c: Config, n: nat, m: nat)
    ensures ClientInv(c, ClientRun(c, n).state) && InCycle(c, VerifyRun(c, m).state)
  {
    ClientOnCycle(c, n);
    VerifyOnCycle(c, m);
    hide ClientRun, VerifyRun, Progress;
  }

  lemma ClientStep(c: Config, n: nat)
    ensures var r := ClientRun(c, n);
            ClientRun(c, n + 1).state == ClientTurn(c, r.state).state &&
            ClientRun(c, n + 1).calls == r.calls + ClientTurn(c, r.state).calls
  {
    hide ClientTurn;
  }

  lemma VerifyStep(c: Config, m: nat)
    ensures var r := VerifyRun(c, m);
            VerifyRun(c, m + 1).state == VerifyTurn(c, r.state).state &&
            VerifyRun(c, m + 1).calls == r.calls + VerifyTurn(c, r.state).calls
  {
    hide VerifyTurn;
  }

  /** After `n` turns the client, and after `m` its twin, have made the same calls. */
  predicate Matched(c: Config, n: nat, m: nat)
  {
    VerifyRun(c, m).calls == ClientRun(c, n).calls && Behind(c, ClientRun(c, n).state, VerifyRun(c, m).state)
  }

  predicate ResetDue(c: Config, m: nat) { VerifyRun(c, m).state.set_ == c.a && VerifyRun(c, m).state.get == c.b }

  lemma MatchReset(c: Config, n: nat, m: nat)
    requires Matched(c, n, m) && ResetDue(c, m) && c.waitB == 0 && c.a + c.b > 0
    ensures Matched(c, n, m + 1) && !ResetDue(c, m + 1)
  {
    CountersInCycle(c, n, m);
    VerifyStep(c, m);
    hide ClientRun, VerifyRun;
    assert VerifyRun(c, m).calls + [] == VerifyRun(c, m).calls;
  }

  lemma MatchTurn(c: Config, n: nat, m: nat)
    requires Matched(c, n, m) && !ResetDue(c, m) && c.waitB == 0 && c.a + c.b > 0
    ensures Matched(c, n + 1, m + 1)
  {
    hide ClientRun, VerifyRun, ClientTurn, VerifyTurn, Behind, ClientInv, InCycle;
    CountersInCycle(c, n, m);
    ReplayTurn(c, ClientRun(c, n).state, VerifyRun(c, m).state);
    VerifyStep(c, m);
    ClientStep(c, n);
  }

  /** Without WAITs, every point of a client's run is reached by its twin after the same calls of the generator. */
  lemma {:induction false} TwinReplays(c: Config, n: nat) returns (m: nat)
    requires c.waitB == 0 && c.a + c.b > 0
    ensures Matched(c, n, m) && n <= m <= 2 * n
  {
    if n == 0 {
      m := 0;
    } else {
      hide Matched, ResetDue;
      m := TwinReplays(c, n - 1);
      if ResetDue(c, m) {
        MatchReset(c, n - 1, m);
        m := m + 1;
      }
      MatchTurn(c, n - 1, m);
      m := m + 1;
    }
  }

  /** And the other way round: the twin never gets a call ahead that the client does not make. */
  lemma {:induction false} TwinAddsNothing(c: Config, m: nat) returns (n: nat)
    requires c.waitB == 0 && c.a + c.b > 0
    ensures Matched(c, n, m) && n <= m
  {
    if m == 0 {
      n := 0;
    } else {
      hide Matched, ResetDue;
      n := TwinAddsNothing(c, m - 1);
      if ResetDue(c, m - 1) {
        MatchReset(c, n, m - 1);
      } else {
        MatchTurn(c, n, m - 1);
        n := n + 1;
      }
    }
  }

  // ----- the objects -----

  /** `n` keys drawn one after the other. */
  function KeysFrom(keyAt: nat -> string, first: nat, n: nat): seq<string>
  {
    seq(n, i requires 0 <= i => keyAt(first + i))
  }

  lemma OneMoreKey(keyAt: nat -> string, first: nat, n: nat)
    ensures KeysFrom(keyAt, first, n + 1) == KeysFrom(keyAt, first, n) + [keyAt(first + n)]
    ensures KeysFrom(keyAt, first, 0) == []
    ensures Times(GetKey, n + 1) == Times(GetKey, n) + [GetKey] && Times(GetKey, 0) == []
  {
  }

  class Client {
    const config: Config
    const m_keylist: K.KeyList
    var m_set_ratio_count: nat
    var m_get_ratio_count: nat
    var m_tot_set_ops: nat
    var m_tot_wait_ops: nat
    var m_reqs_generated: nat
    var m_reqs_processed: nat

    /** The generator's calls, in order, and how many they are. */
    var m_drawn: nat
    ghost var calls: seq<Call>

    ghost function Abs(): Counters
      reads this
    {
      Counters(m_set_ratio_count, m_get_ratio_count, m_tot_set_ops, m_tot_wait_ops)
    }

    ghost predicate Valid()
      reads this, m_keylist, m_keylist.m_keys
    {
      m_keylist.Valid() && m_keylist.m_keys_size == config.multi + 1 && m_drawn == |calls|
    }

    constructor (config: Config)
      ensures this.config == config && Valid() && Abs() == START.state && calls == []
      ensures m_reqs_generated == m_reqs_processed == 0
      ensures fresh(m_keylist) && fresh(m_keylist.m_keys) && fresh(m_keylist.m_buffer)
    {
      this.config := config;
      m_keylist := new K.KeyList(config.multi + 1);
      m_set_ratio_count, m_get_ratio_count, m_tot_set_ops, m_tot_wait_ops, m_drawn := 0, 0, 0, 0, 0;
      m_reqs_generated, m_reqs_processed := 0, 0;
      calls := [];
    }

    /** The multi-get fill loop. It ends because the key list has a slot more than the longest multi-get has keys. */
    method FillKeyList(keys_count: nat, keyAt: nat -> string)
      requires Valid() && keys_count <= config.multi && forall n :: 0 < |keyAt(n)| <= K.MAX_KEY
      modifies `m_drawn, `calls, m_keylist, m_keylist.m_buffer, m_keylist.m_keys
      ensures Valid() && calls == old(calls) + Times(GetKey, keys_count) && m_drawn == old(m_drawn) + keys_count
      ensures m_keylist.Keys() == KeysFrom(keyAt, old(m_drawn), keys_count)
    {
      hide KeysFrom, Times, K.Packed, K.KeysIn;
      OneMoreKey(keyAt, m_drawn, 0);
      m_keylist.Clear();
      var count := m_keylist.GetKeysCount();
      while count < keys_count
        invariant Valid() && count == |m_keylist.Keys()| <= keys_count
        invariant calls == old(calls) + Times(GetKey, count) && m_drawn == old(m_drawn) + count
        invariant m_keylist.Keys() == KeysFrom(keyAt, old(m_drawn), count)
        decreases keys_count - count
      {
        OneMoreKey(keyAt, old(m_drawn), count);
        AddDrawnKey(keyAt);
        count := m_keylist.GetKeysCount();
      }
    }

    /** One more key of a multi-get, for which the list still has a slot. */
    method AddDrawnKey(keyAt: nat -> string)
      requires Valid() && |m_keylist.Keys()| < config.multi && forall n :: 0 < |keyAt(n)| <= K.MAX_KEY
      modifies `m_drawn, `calls, m_keylist, m_keylist.m_buffer, m_keylist.m_keys
      ensures Valid() && calls == old(calls) + [GetKey] && m_drawn == old(m_drawn) + 1
      ensures m_keylist.Keys() == old(m_keylist.Keys()) + [keyAt(old(m_drawn))]
    {
      hide K.Packed, K.KeysIn;
      var key := keyAt(m_drawn);
      m_drawn, calls := m_drawn + 1, calls + [GetKey];
      var added := m_keylist.AddKey(key);
    }

    /** What the next GET draws: one key, or as many as the multi-get takes; `key` is the single one. */
    method DrawKeys(keyAt: nat -> string) returns (key: string)
      requires Valid() && m_get_ratio_count < config.b && forall n :: 0 < |keyAt(n)| <= K.MAX_KEY
      modifies `m_drawn, `calls, `m_get_ratio_count, m_keylist, m_keylist.m_buffer, m_keylist.m_keys
      ensures Valid() && calls == old(calls) + Times(GetKey, Batch(config, old(Abs())))
      ensures m_get_ratio_count == old(m_get_ratio_count) + Batch(config, old(Abs()))
      ensures config.multi == 0 ==> key == keyAt(old(m_drawn))
      ensures config.multi > 0 ==>
                m_keylist.Keys() == KeysFrom(keyAt, old(m_drawn), Batch(config, old(Abs())))
    {
      if config.multi > 0 {
        var keys_count := config.b - m_get_ratio_count;
        if keys_count > config.multi {
          keys_count := config.multi;
        }
        FillKeyList(keys_count, keyAt);
        m_get_ratio_count := m_get_ratio_count + keys_count;
        key := "";
      } else {
        key := keyAt(m_drawn);
        m_drawn, calls := m_drawn + 1, calls + [GetKey];
        m_get_ratio_count := m_get_ratio_count + 1;
      }
    }

    /** The request; a multi-get's keys are those of the key list. */
    method CreateRequest(keyAt: nat -> string) returns (request: Option<Request>, key: string)
      requires Valid() && forall n :: 0 < |keyAt(n)| <= K.MAX_KEY
      modifies this, m_keylist, m_keylist.m_buffer, m_keylist.m_keys
      ensures Valid() && Abs() == ClientTurn(config, old(Abs())).state
      ensures request == ClientTurn(config, old(Abs())).request
      ensures calls == old(calls) + ClientTurn(config, old(Abs())).calls
      ensures request.Some? && (request.value.Set? || request.value.Get?) ==> key == keyAt(old(m_drawn))
      ensures request.Some? && request.value.MultiGet? ==>
                m_keylist.Keys() == KeysFrom(keyAt, old(m_drawn), request.value.keys)
      ensures m_reqs_generated == old(m_reqs_generated) + (if request.Some? then 1 else 0)
      ensures m_reqs_processed == old(m_reqs_processed)
    {
      hide WaitDue, Batch, KeysFrom, Times, K.Packed, K.KeysIn;
      request, key := None, "";
      if WaitDue(config, Counters(m_set_ratio_count, m_get_ratio_count, m_tot_set_ops, m_tot_wait_ops)) {
        m_tot_wait_ops := m_tot_wait_ops + 1;
        request := Some(Wait);
        m_reqs_generated := m_reqs_generated + 1;
      } else if m_set_ratio_count < config.a {
        key := keyAt(m_drawn);
        m_drawn, calls := m_drawn + 1, calls + [GetObject];
        request := Some(Set);
        m_reqs_generated := m_reqs_generated + 1;
        m_set_ratio_count := m_set_ratio_count + 1;
        m_tot_set_ops := m_tot_set_ops + 1;
      } else if m_get_ratio_count < config.b {
        var before := m_get_ratio_count;
        key := DrawKeys(keyAt);
        request := Some(if config.multi > 0 then MultiGet(m_get_ratio_count - before) else Get);
        m_reqs_generated := m_reqs_generated + 1;
      }
      if m_set_ratio_count == config.a && m_get_ratio_count == config.b {
        m_get_ratio_count, m_set_ratio_count := 0, 0;
      }
    }

    /** The twin's version: it sends a GET for every SET, nothing for a GET, which it counts as processed at once, and
        resets in a call of its own. */
    method CreateVerifyRequest(keyAt: nat -> string) returns (request: Option<Request>, key: string)
      requires Valid() && forall n :: 0 < |keyAt(n)| <= K.MAX_KEY
      modifies this, m_keylist, m_keylist.m_buffer, m_keylist.m_keys
      ensures Valid() && Abs() == VerifyTurn(config, old(Abs())).state
      ensures request == VerifyTurn(config, old(Abs())).request
      ensures calls == old(calls) + VerifyTurn(config, old(Abs())).calls
      ensures request.Some? ==> key == keyAt(old(m_drawn))
      ensures m_reqs_generated == old(m_reqs_generated)
      ensures m_reqs_processed == old(m_reqs_processed) + (if request.None? && |calls| > |old(calls)| then 1 else 0)
    {
      hide Batch;
      request, key := None, "";
      if m_set_ratio_count < config.a {
        key := keyAt(m_drawn);
        m_drawn, calls := m_drawn + 1, calls + [GetObject];
        request := Some(VerifyGet);
        m_set_ratio_count := m_set_ratio_count + 1;
      } else if m_get_ratio_count < config.b {
        BatchNotEmpty(config, Abs());
        var _ := DrawKeys(keyAt);
        m_reqs_processed := m_reqs_processed + 1;
      } else {
        m_get_ratio_count, m_set_ratio_count := 0, 0;
      }
    }
  }
}
