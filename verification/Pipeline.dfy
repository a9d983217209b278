/** One connection and its client over a run: requests are queued as they are sent, responses are matched with the front
    of the queue, and the client reconnects after every so many processed requests. The clock, `finished` and what the
    server answers are inputs. */
module Pipeline {
  datatype Kind = Set | Get | Wait | Auth | SelectDb | ClusterSlots

  predicate IsData(k: Kind) { k.Set? || k.Get? || k.Wait? }

  type DataKind = k: Kind | IsData(k) witness Set

  datatype Setup = NotSent | Sent | Done

  datatype Config = Config(requests: nat, reconnectInterval: nat, pipeline: nat, authenticate: bool, selectDb: bool)

  /** `sent`, `matched` and `marks` are histories: all requests put on the wire, all that were popped for a response,
      and how many had been sent at each connect. */
  datatype State = State(pipeline: seq<Kind>, pending: int, auth: Setup, db: Setup, slots: Setup,
                         generated: nat, processed: nat, sent: seq<Kind>, matched: seq<Kind>, marks: seq<nat>)
  {
    function Pushed(k: Kind): State { this.(pipeline := pipeline + [k], pending := pending + 1, sent := sent + [k]) }

    function Popped(): State
      requires pipeline != []
    {
      this.(pipeline := pipeline[1..], pending := pending - 1, matched := matched + [pipeline[0]])
    }

    predicate SetupDone() { auth.Done? && db.Done? && slots.Done? }

    predicate SetupUnsent() { auth.NotSent? || db.NotSent? || slots.NotSent? }
  }

  // ----- sending -----

  function Hold(c: Config, s: State): bool
  {
    || (c.requests > 0 && s.generated >= c.requests)
    || (c.reconnectInterval > 0 &&
        s.processed % c.reconnectInterval + (s.generated - s.processed) >= c.reconnectInterval)
  }

  function AuthSent(s: State): State { if s.auth.NotSent? then s.Pushed(Auth).(auth := Sent) else s }

  function DbSent(s: State): State { if s.db.NotSent? then s.Pushed(SelectDb).(db := Sent) else s }

  function SlotsSent(s: State): State { if s.slots.NotSent? then s.Pushed(ClusterSlots).(slots := Sent) else s }

  function SetupSent(s: State): State { SlotsSent(DbSent(AuthSent(s))) }

  function Created(s: State, k: DataKind): State { s.Pushed(k).(generated := s.generated + 1) }

  /** The sending loop; `turns` are the requests the clock gives time for. */
  function Clipped(c: Config, s: State, turns: seq<DataKind>): State
    decreases |turns|
  {
    if turns == [] || |s.pipeline| >= c.pipeline then s else Clipped(c, Created(s, turns[0]), turns[1..])
  }

  function Filled(c: Config, s: State, turns: seq<DataKind>): State
  {
    if Hold(c, s) then s else Clipped(c, if s.SetupDone() then s else SetupSent(s), turns)
  }

  // ----- receiving -----

  function SetupAnswered(s: State, k: Kind): (t: State)
    requires !IsData(k)
    ensures t == s.(auth := t.auth, db := t.db, slots := t.slots)
  {
    match k
    case Auth => s.(auth := Done)
    case SelectDb => s.(db := Done)
    case ClusterSlots => s.(slots := Done)
  }

  datatype Processed = Processed(state: State, handled: bool, error: bool)

  /** The response loop; an answer is good when the check on its kind of request passes. */
  function Answered(s: State, answers: seq<bool>, handled: bool): Processed
    requires |answers| <= |s.pipeline|
    decreases |answers|
  {
    if answers == [] then Processed(s, handled, false)
    else
      var t := s.Popped();
      if IsData(s.pipeline[0]) then Answered(t.(processed := t.processed + 1), answers[1..], true)
      else if answers[0] then Answered(SetupAnswered(t, s.pipeline[0]), answers[1..], handled)
      else Processed(t, handled, true)
  }

  function Connected(c: Config, s: State): State
  {
    s.(auth := if c.authenticate then NotSent else Done, db := if c.selectDb then NotSent else Done, slots := Done,
       marks := s.marks + [|s.sent|])
  }

  /** `Stuck` is the failed assertion that nothing is pending when the client reconnects. */
  datatype Outcome = Next(state: State) | Stuck(state: State)

  function Received(c: Config, s: State, answers: seq<bool>, turns: seq<DataKind>): Outcome
    requires |answers| <= |s.pipeline|
  {
    var p := Answered(s, answers, false);
    if p.error then Next(p.state)
    else if c.reconnectInterval > 0 && p.handled && p.state.processed % c.reconnectInterval == 0 then
      if p.state.pipeline != [] then Stuck(p.state) else Next(Connected(c, p.state))
    else Next(Filled(c, p.state, turns))
  }

  // ----- runs against an in-order server -----

  datatype Event = Writable(turns: seq<DataKind>) | Readable(answers: seq<bool>, turns: seq<DataKind>)

  /** The server answers only what it was sent, so never more than is pending. */
  predicate Allowed(s: State, e: Event) { e.Readable? ==> |e.answers| <= |s.pipeline| }

  function Step(c: Config, s: State, e: Event): Outcome
    requires Allowed(s, e)
  {
    match e
    case Writable(turns) => Next(Filled(c, s, turns))
    case Readable(answers, turns) => Received(c, s, answers, turns)
  }

  predicate Possible(c: Config, s: State, events: seq<Event>)
    decreases |events|
  {
    events == [] ||
    (Allowed(s, events[0]) && (Step(c, s, events[0]).Next? ==> Possible(c, Step(c, s, events[0]).state, events[1..])))
  }

  function Run(c: Config, s: State, events: seq<Event>): Outcome
    requires Possible(c, s, events)
    decreases |events|
  {
    if events == [] then Next(s)
    else
      var o := Step(c, s, events[0]);
      if o.Stuck? then o else Run(c, o.state, events[1..])
  }

  function Initial(c: Config): State { Connected(c, State([], 0, Done, Done, Done, 0, 0, [], [], [])) }

  // ----- the invariant -----

  function DataCount(q: seq<Kind>): nat
  {
    if q == [] then 0 else DataCount(q[..|q| - 1]) + if IsData(q[|q| - 1]) then 1 else 0
  }

  /** Setup requests come before all data, at most one of each. */
  predicate SetupFirst(q: seq<Kind>)
  {
    forall i, j :: 0 <= i < j < |q| ==> IsData(q[j]) || (!IsData(q[i]) && q[i] != q[j])
  }

  predicate SetupTracked(s: State)
  {
    && (Auth in s.pipeline ==> s.auth.Sent?) && (SelectDb in s.pipeline ==> s.db.Sent?)
    && (ClusterSlots in s.pipeline ==> s.slots.Sent?)
  }

  predicate Bounded(c: Config, s: State)
  {
    && (DataCount(s.pipeline) > 0 ==> |s.pipeline| <= c.pipeline)
    && (c.requests > 0 ==> s.generated <= c.requests + c.pipeline - 1)
  }

  predicate Accounted(s: State)
  {
    && s.pending == |s.pipeline| && s.sent == s.matched + s.pipeline
    && s.generated == DataCount(s.sent) && s.processed == DataCount(s.matched)
  }

  predicate Inv(c: Config, s: State)
  {
    Accounted(s) && SetupFirst(s.pipeline) && SetupTracked(s) && Bounded(c, s) && (s.SetupUnsent() ==> s.pipeline == [])
  }

  // ----- counting -----

  lemma CountOfOneMore(q: seq<Kind>, k: Kind)
    ensures DataCount(q + [k]) == DataCount(q) + if IsData(k) then 1 else 0
  {
    assert (q + [k])[..|q|] == q;
  }

  lemma {:induction false} CountOfSum(q: seq<Kind>, r: seq<Kind>)
    ensures DataCount(q + r) == DataCount(q) + DataCount(r)
    decreases |r|
  {
    if r == [] {
      assert q + r == q;
    } else {
      var n := |r| - 1;
      assert q + r == q + r[..n] + [r[n]] && r == r[..n] + [r[n]];
      CountOfSum(q, r[..n]);
      CountOfOneMore(q + r[..n], r[n]);
      CountOfOneMore(r[..n], r[n]);
    }
  }

  lemma {:induction false} SomeData(q: seq<Kind>, i: nat)
    requires i < |q| && IsData(q[i])
    ensures DataCount(q) > 0
  {
    if i < |q| - 1 { SomeData(q[..|q| - 1], i); }
  }

  lemma {:induction false} AllSetup(q: seq<Kind>)
    requires DataCount(q) == 0
    ensures forall k <- q :: !IsData(k)
  {
    if q != [] {
      AllSetup(q[..|q| - 1]);
      assert q == q[..|q| - 1] + [q[|q| - 1]];
    }
  }

  lemma {:induction false} CountWithinLength(q: seq<Kind>)
    ensures DataCount(q) <= |q|
  {
    if q != [] { CountWithinLength(q[..|q| - 1]); }
  }

  // ----- every step keeps it -----

  lemma PushKeepsAccount(s: State, k: Kind)
    requires Accounted(s)
    ensures Accounted(if IsData(k) then s.Pushed(k).(generated := s.generated + 1) else s.Pushed(k))
  {
    CountOfOneMore(s.sent, k);
    assert s.matched + (s.pipeline + [k]) == s.matched + s.pipeline + [k];
  }

  lemma PushSetupFirst(q: seq<Kind>, k: Kind)
    requires SetupFirst(q) && if IsData(k) then true else k !in q && forall i <- q :: !IsData(i)
    ensures SetupFirst(q + [k])
  {
  }

  /** Only setup requests are queued. */
  predicate Starting(c: Config, s: State)
  {
    Accounted(s) && SetupFirst(s.pipeline) && SetupTracked(s) && Bounded(c, s) && DataCount(s.pipeline) == 0
  }

  /** A setup request pushed where only other setup requests are queued, and its state noted. */
  lemma PushSetup(c: Config, s: State, k: Kind, t: State)
    requires Starting(c, s) && !IsData(k) && k !in s.pipeline
    requires t == s.Pushed(k).(auth := t.auth, db := t.db, slots := t.slots)
    requires t.auth == (if k.Auth? then Sent else s.auth) && t.db == (if k.SelectDb? then Sent else s.db)
    requires t.slots == if k.ClusterSlots? then Sent else s.slots
    ensures Starting(c, t)
  {
    hide Accounted, SetupFirst, DataCount, IsData, SetupTracked;
    PushedSetupKept(s, k);
    SameAccount(s.Pushed(k), t);
    PushTracked(s, k, t);
  }

  lemma PushTracked(s: State, k: Kind, t: State)
    requires SetupTracked(s) && t.pipeline == s.pipeline + [k]
    requires t.auth == (if k.Auth? then Sent else s.auth) && t.db == (if k.SelectDb? then Sent else s.db)
    requires t.slots == if k.ClusterSlots? then Sent else s.slots
    ensures SetupTracked(t)
  {
    assert forall x <- t.pipeline :: x == k || x in s.pipeline;
  }

  lemma PushedSetupKept(s: State, k: Kind)
    requires Accounted(s) && SetupFirst(s.pipeline) && DataCount(s.pipeline) == 0 && !IsData(k) && k !in s.pipeline
    ensures Accounted(s.Pushed(k)) && SetupFirst(s.pipeline + [k]) && DataCount(s.pipeline + [k]) == 0
  {
    AllSetup(s.pipeline);
    PushKeepsAccount(s, k);
    CountOfOneMore(s.pipeline, k);
    PushSetupFirst(s.pipeline, k);
    hide Accounted, SetupFirst, DataCount;
  }

  lemma SetupSentKeepsInv(c: Config, s: State)
    requires Inv(c, s)
    ensures Inv(c, SetupSent(s)) && !SetupSent(s).SetupUnsent()
  {
    if s.SetupUnsent() {
      StartAuth(c, s);
      StartDb(c, AuthSent(s));
      StartSlots(c, DbSent(AuthSent(s)));
    }
    hide Accounted, SetupFirst, Bounded, DataCount, AuthSent, DbSent, SlotsSent;
  }

  lemma StartAuth(c: Config, s: State)
    requires Starting(c, s)
    ensures Starting(c, AuthSent(s)) && !AuthSent(s).auth.NotSent?
    ensures AuthSent(s).db == s.db && AuthSent(s).slots == s.slots
  {
    hide Accounted, SetupFirst, Bounded, DataCount;
    if s.auth.NotSent? { PushSetup(c, s, Auth, AuthSent(s)); }
  }

  lemma StartDb(c: Config, s: State)
    requires Starting(c, s)
    ensures Starting(c, DbSent(s)) && !DbSent(s).db.NotSent?
    ensures DbSent(s).auth == s.auth && DbSent(s).slots == s.slots
  {
    hide Accounted, SetupFirst, Bounded, DataCount;
    if s.db.NotSent? { PushSetup(c, s, SelectDb, DbSent(s)); }
  }

  lemma StartSlots(c: Config, s: State)
    requires Starting(c, s)
    ensures Starting(c, SlotsSent(s)) && !SlotsSent(s).slots.NotSent?
    ensures SlotsSent(s).auth == s.auth && SlotsSent(s).db == s.db
  {
    hide Accounted, SetupFirst, Bounded, DataCount;
    if s.slots.NotSent? { PushSetup(c, s, ClusterSlots, SlotsSent(s)); }
  }

  lemma SameAccount(s: State, t: State)
    requires Accounted(s) && t == s.(auth := t.auth, db := t.db, slots := t.slots)
    ensures Accounted(t)
  {
  }

  lemma CreatedKeepsInv(c: Config, s: State, k: DataKind)
    requires Inv(c, s) && !s.SetupUnsent() && |s.pipeline| < c.pipeline
    requires c.requests > 0 ==> s.generated + 1 <= c.requests + c.pipeline - 1
    ensures Inv(c, Created(s, k))
  {
    PushKeepsAccount(s, k);
    CountOfOneMore(s.pipeline, k);
    PushSetupFirst(s.pipeline, k);
    hide Accounted, SetupFirst, DataCount;
  }

  /** The sending loop: there is room for what the pipeline still lacks. */
  lemma {:induction false} ClippedKeepsInv(c: Config, s: State, turns: seq<DataKind>, room: nat)
    requires Inv(c, s) && !s.SetupUnsent() && room + |s.pipeline| >= c.pipeline
    requires c.requests > 0 ==> s.generated + room <= c.requests + c.pipeline - 1
    ensures Inv(c, Clipped(c, s, turns))
    decreases |turns|
  {
    if turns != [] && |s.pipeline| < c.pipeline {
      CreatedKeepsInv(c, s, turns[0]);
      hide Inv;
      ClippedKeepsInv(c, Created(s, turns[0]), turns[1..], room - 1);
    }
  }

  lemma FilledKeepsInv(c: Config, s: State, turns: seq<DataKind>)
    requires Inv(c, s)
    ensures Inv(c, Filled(c, s, turns))
  {
    hide Inv, Clipped;
    if !Hold(c, s) {
      SetupSentKeepsInv(c, s);
      ClippedKeepsInv(c, if s.SetupDone() then s else SetupSent(s), turns, c.pipeline);
    }
  }

  lemma PopKeepsAccount(s: State)
    requires Accounted(s) && s.pipeline != []
    ensures var t := s.Popped();
            Accounted(if IsData(s.pipeline[0]) then t.(processed := s.processed + 1) else t)
    ensures DataCount(s.Popped().pipeline) == DataCount(s.pipeline) - if IsData(s.pipeline[0]) then 1 else 0
  {
    var k, rest := s.pipeline[0], s.pipeline[1..];
    CountOfOneMore(s.matched, k);
    assert s.pipeline == [k] + rest && s.matched + s.pipeline == s.matched + [k] + rest;
    CountOfSum([k], rest);
    CountOfOneMore([], k);
  }

  lemma PopSetupFirst(q: seq<Kind>)
    requires SetupFirst(q) && q != []
    ensures SetupFirst(q[1..]) && (!IsData(q[0]) ==> q[0] !in q[1..])
    ensures forall k <- q[1..] :: k in q
  {
  }

  lemma PopData(c: Config, s: State)
    requires Inv(c, s) && s.pipeline != [] && IsData(s.pipeline[0])
    ensures Inv(c, s.Popped().(processed := s.processed + 1))
  {
    PopKeepsAccount(s);
    PopSetupFirst(s.pipeline);
    hide Accounted, SetupFirst, DataCount;
  }

  lemma PopSetup(c: Config, s: State, t: State)
    requires Inv(c, s) && s.pipeline != [] && !IsData(s.pipeline[0])
    requires t == s.Popped().(auth := t.auth, db := t.db, slots := t.slots)
    requires t.auth == s.auth || (t.auth.Done? && s.pipeline[0].Auth?)
    requires t.db == s.db || (t.db.Done? && s.pipeline[0].SelectDb?)
    requires t.slots == s.slots || (t.slots.Done? && s.pipeline[0].ClusterSlots?)
    ensures Inv(c, t)
  {
    PopKeepsAccount(s);
    PopSetupFirst(s.pipeline);
    SameAccount(s.Popped(), t);
    hide Accounted, SetupFirst, DataCount;
  }

  lemma PopSetupAnswered(c: Config, s: State)
    requires Inv(c, s) && s.pipeline != [] && !IsData(s.pipeline[0])
    ensures Inv(c, s.Popped()) && Inv(c, SetupAnswered(s.Popped(), s.pipeline[0]))
    ensures |SetupAnswered(s.Popped(), s.pipeline[0]).pipeline| == |s.pipeline| - 1
  {
    hide Inv;
    PopSetup(c, s, s.Popped());
    PopSetup(c, s, SetupAnswered(s.Popped(), s.pipeline[0]));
  }

  lemma {:induction false} AnsweredKeepsInv(c: Config, s: State, answers: seq<bool>, handled: bool)
    requires Inv(c, s) && |answers| <= |s.pipeline|
    ensures Inv(c, Answered(s, answers, handled).state)
    decreases |answers|
  {
    hide Inv, SetupAnswered, IsData;
    if answers != [] {
      var t, k, rest := s.Popped(), s.pipeline[0], answers[1..];
      if IsData(k) {
        PopData(c, s);
        AnsweredKeepsInv(c, t.(processed := t.processed + 1), rest, true);
      } else {
        PopSetupAnswered(c, s);
        if answers[0] { AnsweredKeepsInv(c, SetupAnswered(t, k), rest, handled); }
      }
    }
  }

  lemma StepKeepsInv(c: Config, s: State, e: Event)
    requires Inv(c, s) && Allowed(s, e)
    ensures Inv(c, Step(c, s, e).state)
  {
    hide Filled, Answered;
    match e
    case Writable(turns) => FilledKeepsInv(c, s, turns);
    case Readable(answers, turns) =>
      AnsweredKeepsInv(c, s, answers, false);
      FilledKeepsInv(c, Answered(s, answers, false).state, turns);
  }

  lemma {:induction false} RunKeepsInv(c: Config, s: State, events: seq<Event>)
    requires Inv(c, s) && Possible(c, s, events)
    ensures Inv(c, Run(c, s, events).state)
    decreases |events|
  {
    hide Inv, Step;
    if events != [] {
      StepKeepsInv(c, s, events[0]);
      if Step(c, s, events[0]).Next? { RunKeepsInv(c, Step(c, s, events[0]).state, events[1..]); }
    }
  }

  // ----- what that means -----

  /** At every point of every run: the k-th response was matched with the k-th request, the pending count is the queue's
      length, what is generated and not processed is the data in flight, which fits the pipeline, and a limit on
      requests is overrun by less than a pipeline. */
  lemma EveryRunIsSafe(c: Config, events: seq<Event>)
    requires c.pipeline > 0 && Possible(c, Initial(c), events)
    ensures var s := Run(c, Initial(c), events).state;
            && s.pending == |s.pipeline| && s.sent == s.matched + s.pipeline
            && s.generated - s.processed == DataCount(s.pipeline) <= c.pipeline
            && (c.requests > 0 ==> s.generated <= c.requests + c.pipeline - 1)
            && (DataCount(s.pipeline) > 0 ==> |s.pipeline| <= c.pipeline)
  {
    RunKeepsInv(c, Initial(c), events);
    hide Run;
    var s := Run(c, Initial(c), events).state;
    CountOfSum(s.matched, s.pipeline);
    CountWithinLength(s.pipeline);
  }

  // ----- the assertion of the reconnect branch -----

  /** What the response loop leaves behind. */
  lemma {:induction false} AnsweredShape(s: State, answers: seq<bool>, handled: bool)
    requires |answers| <= |s.pipeline|
    ensures var p := Answered(s, answers, handled);
            && (p.handled && !handled ==> |answers| > 0 && DataCount(s.pipeline) > 0 && p.state.processed > 0)
            && (|answers| > 0 ==> |p.state.pipeline| < |s.pipeline|)
            && |p.state.pipeline| <= |s.pipeline| && p.state.processed >= s.processed
    decreases |answers|
  {
    hide IsData, SetupAnswered, DataCount;
    if answers != [] {
      var t, k, rest := s.Popped(), s.pipeline[0], answers[1..];
      CountOfSum([k], s.pipeline[1..]);
      assert s.pipeline == [k] + s.pipeline[1..];
      if IsData(k) {
        SomeData(s.pipeline, 0);
        AnsweredShape(t.(processed := t.processed + 1), rest, true);
      } else if answers[0] {
        AnsweredShape(SetupAnswered(t, k), rest, handled);
      }
    }
  }

  predicate AllData(q: seq<Kind>) { forall k <- q :: IsData(k) }

  /** Once a data response is handled, only data is pending. */
  lemma {:induction false} HandledLeavesData(s: State, answers: seq<bool>, handled: bool)
    requires |answers| <= |s.pipeline| && SetupFirst(s.pipeline) && (handled ==> AllData(s.pipeline))
    ensures var p := Answered(s, answers, handled); p.handled ==> AllData(p.state.pipeline)
    decreases |answers|
  {
    hide IsData, SetupAnswered, SetupFirst, AllData;
    if answers != [] {
      PopSetupFirst(s.pipeline);
      var t, k, rest := s.Popped(), s.pipeline[0], answers[1..];
      if IsData(k) {
        DataStays(s.pipeline);
        HandledLeavesData(t.(processed := t.processed + 1), rest, true);
      } else {
        SetupIsNotData(s.pipeline);
        if answers[0] { HandledLeavesData(SetupAnswered(t, k), rest, handled); }
      }
    }
  }

  lemma SetupIsNotData(q: seq<Kind>)
    requires q != [] && !IsData(q[0])
    ensures !AllData(q)
  {
  }

  lemma DataStays(q: seq<Kind>)
    requires SetupFirst(q) && q != [] && IsData(q[0])
    ensures AllData(q[1..])
  {
  }

  predicate ReconnectIsSafe(c: Config)
  {
    c.pipeline == 1 || (c.requests > 0 && c.reconnectInterval >= c.requests + c.pipeline - 1)
  }

  lemma MultipleIsAtLeast(n: nat, r: nat)
    requires r > 0 && n > 0 && n % r == 0
    ensures n >= r
  {
  }

  lemma NeverStuck(c: Config, s: State, e: Event)
    requires Inv(c, s) && Allowed(s, e) && ReconnectIsSafe(c)
    ensures Step(c, s, e).Next?
  {
    if e.Readable? {
      AnsweredShape(s, e.answers, false);
      HandledLeavesData(s, e.answers, false);
      AnsweredKeepsInv(c, s, e.answers, false);
      var p := Answered(s, e.answers, false);
      var t := p.state;
      hide Answered, Filled, SetupFirst;
      CountOfSum(t.matched, t.pipeline);
      if !p.error && c.reconnectInterval > 0 && p.handled && t.processed % c.reconnectInterval == 0 {
        MultipleIsAtLeast(t.processed, c.reconnectInterval);
        if t.pipeline != [] {
          SomeData(t.pipeline, 0);
          assert false;
        }
      }
    }
  }

  lemma {:induction false} RunNeverStuck(c: Config, s: State, events: seq<Event>)
    requires Inv(c, s) && Possible(c, s, events) && ReconnectIsSafe(c)
    ensures Run(c, s, events).Next?
    decreases |events|
  {
    hide Inv, Step, ReconnectIsSafe;
    if events != [] {
      NeverStuck(c, s, events[0]);
      StepKeepsInv(c, s, events[0]);
      RunNeverStuck(c, Step(c, s, events[0]).state, events[1..]);
    }
  }

  // A run that fails: one request at a time until the next fill may overshoot the interval, then a full pipeline.

  predicate Idle(s: State, n: nat) { s.pipeline == [] && s.SetupDone() && s.generated == s.processed == n }

  lemma {:induction false} AllGood(s: State, n: nat)
    requires n <= |s.pipeline| && AllData(s.pipeline)
    ensures var p := Answered(s, seq(n, _ => true), true);
            && p.handled && !p.error && p.state.processed == s.processed + n && p.state.pipeline == s.pipeline[n..]
            && p.state.generated == s.generated
            && p.state.auth == s.auth && p.state.db == s.db && p.state.slots == s.slots
    decreases n
  {
    if n > 0 {
      var t := s.Popped().(processed := s.processed + 1);
      assert seq(n, _ => true)[1..] == seq(n - 1, _ => true);
      AllGood(t, n - 1);
      assert s.pipeline[1..][n - 1..] == s.pipeline[n..];
    }
  }

  lemma {:induction false} ClippedFills(c: Config, s: State, n: nat)
    requires |s.pipeline| + n <= c.pipeline && AllData(s.pipeline)
    ensures var t := Clipped(c, s, seq(n, _ => Set));
            && |t.pipeline| == |s.pipeline| + n && AllData(t.pipeline)
            && t.generated == s.generated + n && t.processed == s.processed
            && t.auth == s.auth && t.db == s.db && t.slots == s.slots
    decreases n
  {
    if n > 0 {
      assert seq(n, _ => Set)[1..] == seq(n - 1, _ => Set);
      ClippedFills(c, Created(s, Set), n - 1);
    }
  }

  lemma RemainderBelow(n: nat, r: nat)
    requires 0 < r
    ensures n < r ==> n % r == n
    ensures n == r ==> n % r == 0
  {
  }

  /** From an idle connection: `m` requests go out, and `a` of them are answered at once. */
  lemma FillAndAnswer(c: Config, s: State, n: nat, m: nat, a: nat) returns (events: seq<Event>)
    requires Idle(s, n) && 0 < a <= m <= c.pipeline && n < c.reconnectInterval && (c.requests > 0 ==> n < c.requests)
    ensures Possible(c, s, events)
    ensures n + a == c.reconnectInterval && a < m ==> Run(c, s, events).Stuck?
    ensures n + a < c.reconnectInterval && a == m ==>
              Run(c, s, events).Next? && Idle(Run(c, s, events).state, n + a)
  {
    var fill, answer := Writable(seq(m, _ => Set)), Readable(seq(a, _ => true), []);
    events := [fill, answer];
    var t := Step(c, s, fill).state;
    RemainderBelow(n, c.reconnectInterval);
    RemainderBelow(n + a, c.reconnectInterval);
    ClippedFills(c, s, m);
    assert t == Clipped(c, s, seq(m, _ => Set));
    AnsweredFromFalse(t, a);
    AllGood(t, a);
    hide Clipped, Answered, Hold;
    assert events[1..] == [answer] && [answer][1..] == [];
    var p := Answered(t, seq(a, _ => true), false);
    if a == m {
      FillNothing(c, p.state);
    }
    RunOfTwo(c, s, fill, answer);
  }

  lemma AnsweredFromFalse(s: State, n: nat)
    requires 0 < n <= |s.pipeline| && AllData(s.pipeline)
    ensures Answered(s, seq(n, _ => true), false) == Answered(s, seq(n, _ => true), true)
  {
  }

  lemma FillNothing(c: Config, s: State)
    requires s.SetupDone()
    ensures Filled(c, s, []) == s
  {
  }

  lemma RunOfTwo(c: Config, s: State, e: Event, f: Event)
    requires Allowed(s, e) && Step(c, s, e).Next? && Allowed(Step(c, s, e).state, f)
    ensures Possible(c, s, [e, f]) && Run(c, s, [e, f]) == Step(c, Step(c, s, e).state, f)
  {
    hide Step, Allowed;
    var t := Step(c, s, e).state;
    assert [e, f][1..] == [f] && [f][1..] == [];
    var o := Step(c, t, f);
    assert Possible(c, t, [f]);
    assert Run(c, t, [f]) == if o.Stuck? then o else Run(c, o.state, []);
  }

  lemma {:induction false} RunConcat(c: Config, s: State, events: seq<Event>, more: seq<Event>)
    requires Possible(c, s, events) && Run(c, s, events).Next? && Possible(c, Run(c, s, events).state, more)
    ensures Possible(c, s, events + more) && Run(c, s, events + more) == Run(c, Run(c, s, events).state, more)
    decreases |events|
  {
    hide Step, Allowed;
    if events == [] {
      assert events + more == more;
    } else {
      assert (events + more)[0] == events[0] && (events + more)[1..] == events[1..] + more;
      RunConcat(c, Step(c, s, events[0]).state, events[1..], more);
    }
  }

  /** From an idle connection with `n` requests done, to the failure. */
  lemma {:induction false} StuckFromIdle(c: Config, s: State, n: nat) returns (events: seq<Event>)
    requires Idle(s, n) && n < c.reconnectInterval && c.pipeline > 1 && (c.requests > 0 ==> n < c.requests)
    requires c.requests > 0 ==> c.reconnectInterval <= c.requests + c.pipeline - 2
    ensures Possible(c, s, events) && Run(c, s, events).Stuck?
    decreases c.reconnectInterval - n
  {
    var missing := c.reconnectInterval - n;
    hide Step, Allowed, Run, Possible;
    if missing < c.pipeline {
      events := FillAndAnswer(c, s, n, c.pipeline, missing);
    } else {
      var round := FillAndAnswer(c, s, n, 1, 1);
      var rest := StuckFromIdle(c, Run(c, s, round).state, n + 1);
      RunConcat(c, s, round, rest);
      events := round + rest;
    }
  }

  /** The setup requests of a fresh connection sent and answered. */
  lemma WarmUp(c: Config) returns (events: seq<Event>)
    requires c.reconnectInterval > 0
    ensures Possible(c, Initial(c), events) && Run(c, Initial(c), events).Next?
    ensures Idle(Run(c, Initial(c), events).state, 0)
  {
    var s := Initial(c);
    var t := SetupSent(s);
    var answers := seq(|t.pipeline|, _ => true);
    assert Filled(c, s, []) == t;
    var u := Answered(t, answers, false);
    SetupAnsweredInTurn(c);
    FillNothing(c, u.state);
    hide SetupSent, Answered, Filled;
    RunOfTwo(c, s, Writable([]), Readable(answers, []));
    events := [Writable([]), Readable(answers, [])];
  }

  lemma SetupAnsweredInTurn(c: Config)
    ensures var t := SetupSent(Initial(c));
            var u := Answered(t, seq(|t.pipeline|, _ => true), false);
            !u.error && !u.handled && Idle(u.state, 0)
  {
    var t := SetupSent(Initial(c));
    var answers := seq(|t.pipeline|, _ => true);
    assert [true][1..] == [];
    if c.authenticate && c.selectDb {
      assert t.pipeline == [Auth, SelectDb] && answers[1..] == [true];
      var v := SetupAnswered(t.Popped(), Auth);
      assert v.pipeline == [SelectDb];
      assert Answered(v, [true], false) == Answered(SetupAnswered(v.Popped(), SelectDb), [], false);
    } else if c.authenticate || c.selectDb {
      assert answers == [true] && t.pipeline == [if c.authenticate then Auth else SelectDb];
    }
  }

  /** The assertion holds in every run exactly when the pipeline is 1, or the interval is too large ever to be reached
      with requests still pending. */
  lemma ReconnectAssertion(c: Config)
    requires c.pipeline > 0 && c.reconnectInterval > 0
    ensures ReconnectIsSafe(c) <==>
            forall events :: Possible(c, Initial(c), events) ==> Run(c, Initial(c), events).Next?
  {
    hide Possible, Run;
    if ReconnectIsSafe(c) {
      forall events | Possible(c, Initial(c), events) ensures Run(c, Initial(c), events).Next? {
        RunNeverStuck(c, Initial(c), events);
      }
    } else {
      var start := WarmUp(c);
      var rest := StuckFromIdle(c, Run(c, Initial(c), start).state, 0);
      RunConcat(c, Initial(c), start, rest);
      assert Possible(c, Initial(c), start + rest);
    }
  }

  // ----- what a step puts on the wire and takes off the queue -----

  lemma {:induction false} CountIs(q: seq<Kind>)
    ensures DataCount(q) == multiset(q)[Set] + multiset(q)[Get] + multiset(q)[Wait]
  {
    if q != [] {
      CountIs(q[..|q| - 1]);
      assert q == q[..|q| - 1] + [q[|q| - 1]];
    }
  }

  /** The setup commands that are to go first, in order. */
  function Lead(authenticate: bool, selectDb: bool, clusterSlots: bool): seq<Kind>
  {
    (if authenticate then [Auth] else []) + (if selectDb then [SelectDb] else [])
    + if clusterSlots then [ClusterSlots] else []
  }

  lemma NextMultiple(generated: nat, processed: nat, r: nat)
    requires r > 0
    ensures processed % r + (generated - processed) >= r <==> generated >= (processed / r + 1) * r
  {
    assert processed == (processed / r) * r + processed % r;
    assert (processed / r + 1) * r == (processed / r) * r + r;
  }

  /** Nothing goes out while the requests are used up, or while those in flight reach the next multiple of the interval.
      */
  lemma HoldMeans(c: Config, s: State)
    ensures Hold(c, s) <==>
            || (c.requests > 0 && s.generated >= c.requests)
            || (c.reconnectInterval > 0 &&
                s.generated >= (s.processed / c.reconnectInterval + 1) * c.reconnectInterval)
  {
    if c.reconnectInterval > 0 { NextMultiple(s.generated, s.processed, c.reconnectInterval); }
  }

  lemma SetupSentMeans(s: State, t: State)
    requires t == if s.SetupDone() then s else SetupSent(s)
    ensures var lead := Lead(s.auth.NotSent?, s.db.NotSent?, s.slots.NotSent?);
            t == s.(pipeline := s.pipeline + lead, pending := s.pending + |lead|, sent := s.sent + lead,
                    auth := if s.auth.NotSent? then Sent else s.auth, db := if s.db.NotSent? then Sent else s.db,
                    slots := if s.slots.NotSent? then Sent else s.slots)
  {
    var a := AuthSent(s);
    var d := DbSent(a);
    assert s.pipeline + [] == s.pipeline && s.sent + [] == s.sent;
  }

  lemma {:induction false} ClippedMeans(c: Config, s: State, turns: seq<DataKind>, k: nat)
    requires k == if |s.pipeline| >= c.pipeline then 0
                  else if |turns| <= c.pipeline - |s.pipeline| then |turns| else c.pipeline - |s.pipeline|
    ensures Clipped(c, s, turns) == s.(pipeline := s.pipeline + turns[..k], pending := s.pending + k,
                                       sent := s.sent + turns[..k], generated := s.generated + k)
    decreases |turns|
  {
    if k == 0 {
      assert s.pipeline + turns[..0] == s.pipeline && s.sent + turns[..0] == s.sent;
    } else {
      ClippedMeans(c, Created(s, turns[0]), turns[1..], k - 1);
      assert [turns[0]] + turns[1..][..k - 1] == turns[..k];
      Regroup(s.pipeline, turns[0], turns[1..][..k - 1]);
      Regroup(s.sent, turns[0], turns[1..][..k - 1]);
    }
  }

  lemma Regroup(q: seq<Kind>, k: Kind, more: seq<Kind>)
    ensures q + [k] + more == q + ([k] + more)
  {
  }

  /** What one fill sends: nothing when held; otherwise the setup commands not sent yet, then as many of the requests as
      there is time and room for. */
  lemma FilledMeans(c: Config, s: State, turns: seq<DataKind>, t: State)
    requires t == Filled(c, s, turns)
    ensures var lead := Lead(s.auth.NotSent?, s.db.NotSent?, s.slots.NotSent?);
            var used := |s.pipeline| + |lead|;
            var k := if used >= c.pipeline then 0
                     else if |turns| <= c.pipeline - used then |turns| else c.pipeline - used;
            if || (c.requests > 0 && s.generated >= c.requests)
               || (c.reconnectInterval > 0 &&
                   s.generated >= (s.processed / c.reconnectInterval + 1) * c.reconnectInterval)
            then t == s
            else t == s.(pipeline := s.pipeline + lead + turns[..k], pending := s.pending + |lead| + k,
                         sent := s.sent + lead + turns[..k], generated := s.generated + k,
                         auth := if s.auth.NotSent? then Sent else s.auth,
                         db := if s.db.NotSent? then Sent else s.db,
                         slots := if s.slots.NotSent? then Sent else s.slots)
  {
    HoldMeans(c, s);
    var u := if s.SetupDone() then s else SetupSent(s);
    SetupSentMeans(s, u);
    var lead := Lead(s.auth.NotSent?, s.db.NotSent?, s.slots.NotSent?);
    var used := |s.pipeline| + |lead|;
    var k := if used >= c.pipeline then 0 else if |turns| <= c.pipeline - used then |turns| else c.pipeline - used;
    hide Hold, Clipped, SetupSent, Lead;
    ClippedMeans(c, u, turns, k);
  }

  /** The answers pass the checks on the setup commands they are for. */
  predicate Good(q: seq<Kind>, answers: seq<bool>)
    requires |answers| <= |q|
  {
    forall i :: 0 <= i < |answers| && q[i] in {Auth, SelectDb, ClusterSlots} ==> answers[i]
  }

  /** The state after the first `n` requests in the queue were answered well. */
  function Taken(s: State, n: nat): State
    requires n <= |s.pipeline|
  {
    var front := s.pipeline[..n];
    s.(pipeline := s.pipeline[n..], pending := s.pending - n, processed := s.processed + DataCount(front),
       matched := s.matched + front, auth := if Auth in front then Done else s.auth,
       db := if SelectDb in front then Done else s.db, slots := if ClusterSlots in front then Done else s.slots)
  }

  lemma TakenOne(s: State)
    requires s.pipeline != []
    ensures var k, t := s.pipeline[0], s.Popped();
            Taken(s, 1) == if IsData(k) then t.(processed := t.processed + 1) else SetupAnswered(t, k)
  {
    assert s.pipeline[..1] == [s.pipeline[0]];
    CountOfOneMore([], s.pipeline[0]);
    assert [] + [s.pipeline[0]] == [s.pipeline[0]];
  }

  lemma TakenMore(s: State, n: nat)
    requires 0 < n <= |s.pipeline|
    ensures Taken(Taken(s, 1), n - 1) == Taken(s, n)
  {
    hide DataCount;
    FrontOf(s.pipeline, s.matched, n);
  }

  lemma FrontOf(q: seq<Kind>, matched: seq<Kind>, n: nat)
    requires 0 < n <= |q|
    ensures q[1..][n - 1..] == q[n..] && matched + q[..1] + q[1..][..n - 1] == matched + q[..n]
    ensures DataCount(q[..n]) == DataCount(q[..1]) + DataCount(q[1..][..n - 1])
    ensures forall k :: k in q[..n] <==> k in q[..1] || k in q[1..][..n - 1]
  {
    assert q[..n] == q[..1] + q[1..][..n - 1];
    CountOfSum(q[..1], q[1..][..n - 1]);
    hide DataCount;
    Assoc(matched, q[..1], q[1..][..n - 1]);
  }

  lemma Assoc(a: seq<Kind>, b: seq<Kind>, c: seq<Kind>)
    ensures a + b + c == a + (b + c)
  {
  }

  lemma GoodRest(q: seq<Kind>, answers: seq<bool>, n: nat)
    requires 0 < n <= |answers| <= |q| && Good(q, answers[..n])
    ensures Good(q[1..], answers[1..][..n - 1]) && (q[0] in {Auth, SelectDb, ClusterSlots} ==> answers[0])
  {
    assert answers[..n][0] == answers[0];
    assert forall i :: 0 <= i < n - 1 ==> answers[1..][..n - 1][i] == answers[..n][i + 1] && q[1..][i] == q[i + 1];
  }

  lemma AnsweredOne(s: State, answers: seq<bool>, handled: bool)
    requires 0 < |answers| <= |s.pipeline| && (s.pipeline[0] in {Auth, SelectDb, ClusterSlots} ==> answers[0])
    ensures Answered(s, answers, handled) == Answered(Taken(s, 1), answers[1..], handled || IsData(s.pipeline[0]))
  {
    TakenOne(s);
    hide Taken, SetupAnswered;
  }

  lemma CountFront(q: seq<Kind>, n: nat)
    requires 0 < n <= |q|
    ensures DataCount(q[..n]) == DataCount(q[1..][..n - 1]) + if IsData(q[0]) then 1 else 0
  {
    CountOfSum([q[0]], q[1..][..n - 1]);
    CountOfOneMore([], q[0]);
    assert [] + [q[0]] == [q[0]] && q[..n] == [q[0]] + q[1..][..n - 1];
  }

  lemma TakenNone(s: State)
    ensures Taken(s, 0) == s
  {
    assert s.pipeline[..0] == [] && s.pipeline[0..] == s.pipeline && s.matched + [] == s.matched;
  }

  /** The response loop over good answers: the front of the queue is matched, and each command takes its own effect. */
  lemma {:induction false} AnsweredFront(s: State, answers: seq<bool>, handled: bool, n: nat)
    requires n <= |answers| <= |s.pipeline| && Good(s.pipeline, answers[..n])
    ensures Answered(s, answers, handled)
         == Answered(Taken(s, n), answers[n..], handled || DataCount(s.pipeline[..n]) > 0)
    decreases n
  {
    if n == 0 {
      TakenNone(s);
      assert s.pipeline[..0] == [] && answers[0..] == answers;
    } else {
      AnsweredOne(s, answers, handled);
      TakenMore(s, n);
      GoodRest(s.pipeline, answers, n);
      CountFront(s.pipeline, n);
      assert Taken(s, 1).pipeline == s.pipeline[1..];
      hide Taken, DataCount, Good, Answered;
      AnsweredFront(Taken(s, 1), answers[1..], handled || IsData(s.pipeline[0]), n - 1);
      assert answers[1..][n - 1..] == answers[n..];
    }
  }

  /** The response loop up to an answer that fails its check: that one is popped too, and nothing else happens. */
  lemma AnsweredBadly(s: State, answers: seq<bool>, handled: bool, i: nat)
    requires i < |answers| <= |s.pipeline| && Good(s.pipeline, answers[..i])
    requires s.pipeline[i] in {Auth, SelectDb, ClusterSlots} && !answers[i]
    ensures Answered(s, answers, handled).error && Answered(s, answers, handled).state == Taken(s, i).Popped()
  {
    hide DataCount;
    AnsweredFront(s, answers, handled, i);
    assert answers[i..][0] == answers[i] && Taken(s, i).pipeline[0] == s.pipeline[i];
    hide Taken, Good;
  }

  lemma NoAnswers(s: State, answers: seq<bool>, handled: bool)
    requires answers == []
    ensures Answered(s, answers, handled) == Processed(s, handled, false)
  {
  }

  lemma TakenMeans(s: State, front: seq<Kind>, done: nat, t: State)
    requires front <= s.pipeline && done == multiset(front)[Set] + multiset(front)[Get] + multiset(front)[Wait]
    requires t == s.(pipeline := s.pipeline[|front|..], pending := s.pending - |front|, processed := s.processed + done,
                     matched := s.matched + front, auth := if Auth in front then Done else s.auth,
                     db := if SelectDb in front then Done else s.db,
                     slots := if ClusterSlots in front then Done else s.slots)
    ensures t == Taken(s, |front|) && DataCount(front) == done && s.pipeline[..|front|] == front
  {
    CountIs(front);
    assert s.pipeline[..|front|] == front;
    hide DataCount;
  }

  /** What a batch of good answers does: `front` is matched, with `done` data requests in it, and `t` is the state then.
      When that brings the processed requests to a multiple of the interval the client reconnects, with nothing sent and
      the setup to be sent again, and fails if anything is still pending; otherwise the pipeline is filled. */
  lemma ReceivedMeans(c: Config, s: State, answers: seq<bool>, turns: seq<DataKind>, front: seq<Kind>, done: nat,
                      t: State)
    requires |answers| == |front| && front <= s.pipeline && Good(s.pipeline, answers)
    requires done == multiset(front)[Set] + multiset(front)[Get] + multiset(front)[Wait]
    requires t == s.(pipeline := s.pipeline[|front|..], pending := s.pending - |front|, processed := s.processed + done,
                     matched := s.matched + front, auth := if Auth in front then Done else s.auth,
                     db := if SelectDb in front then Done else s.db,
                     slots := if ClusterSlots in front then Done else s.slots)
    ensures Received(c, s, answers, turns) ==
            if c.reconnectInterval > 0 && done > 0 && t.processed % c.reconnectInterval == 0 then
              if front != s.pipeline then Stuck(t)
              else Next(t.(auth := if c.authenticate then NotSent else Done,
                           db := if c.selectDb then NotSent else Done, slots := Done, marks := s.marks + [|s.sent|]))
            else Next(Filled(c, t, turns))
  {
    hide Answered, Filled, DataCount, Taken, Good;
    TakenMeans(s, front, done, t);
    assert answers[..|answers|] == answers;
    AnsweredFront(s, answers, false, |answers|);
    NoAnswers(t, answers[|answers|..], done > 0);
    assert t.pipeline == [] <==> front == s.pipeline;
  }

  // ----- what is on the wire since each connect -----

  /** If anything was sent, AUTH is first if and only if it is configured, then SELECT if and only if it is configured,
      and then there are only data requests. */
  predicate SetupThenData(c: Config, q: seq<Kind>)
  {
    var lead := (if c.authenticate then [Auth] else []) + (if c.selectDb then [SelectDb] else []);
    q == [] || (lead <= q && forall k <- q[|lead|..] :: k in {Set, Get, Wait})
  }

  predicate Marked(s: State)
  {
    && s.marks != [] && s.marks[0] == 0 && (forall i :: 0 <= i < |s.marks| ==> s.marks[i] <= |s.sent|)
    && forall i, j :: 0 <= i <= j < |s.marks| ==> s.marks[i] <= s.marks[j]
  }

  /** What was sent between one connect and the next. */
  function Session(s: State, i: nat): seq<Kind>
    requires Marked(s) && i < |s.marks|
  {
    if i + 1 < |s.marks| then s.sent[s.marks[i]..s.marks[i + 1]] else s.sent[s.marks[i]..]
  }

  function Latest(s: State): seq<Kind>
    requires Marked(s)
  {
    s.sent[s.marks[|s.marks| - 1]..]
  }

  predicate SetupOf(c: Config, s: State, latest: seq<Kind>)
  {
    && SetupThenData(c, latest) && s.slots.Done?
    && (if c.authenticate then s.auth.NotSent? <==> latest == [] else s.auth.Done?)
    && (if c.selectDb then s.db.NotSent? <==> latest == [] else s.db.Done?)
  }

  /** Every session is as configured, every reconnect came after a multiple of the interval, and the states of the setup
      tell whether the latest session has begun. */
  ghost predicate OnWire(c: Config, s: State)
  {
    && Marked(s) && SetupOf(c, s, Latest(s))
    && (forall i :: 0 <= i < |s.marks| ==> SetupThenData(c, Session(s, i)))
    && forall i :: 0 <= i < |s.marks| && s.marks[i] > 0 ==>
         c.reconnectInterval > 0 && DataCount(s.sent[..s.marks[i]]) % c.reconnectInterval == 0
  }

  lemma WireGrows(c: Config, s: State, t: State, more: seq<Kind>)
    requires OnWire(c, s) && t.sent == s.sent + more && t.marks == s.marks && SetupOf(c, t, Latest(s) + more)
    ensures OnWire(c, t)
  {
    hide SetupThenData, DataCount;
    assert Latest(t) == Latest(s) + more;
    forall i | 0 <= i < |t.marks| ensures SetupThenData(c, Session(t, i)) {
      assert i + 1 < |s.marks| ==> Session(t, i) == Session(s, i);
      assert i + 1 == |s.marks| ==> Session(t, i) == Latest(t);
    }
    assert forall i :: 0 <= i < |t.marks| ==> t.sent[..t.marks[i]] == s.sent[..s.marks[i]];
  }

  lemma StartsWithLead(c: Config, lead: seq<Kind>, turns: seq<DataKind>)
    requires lead == (if c.authenticate then [Auth] else []) + (if c.selectDb then [SelectDb] else [])
    ensures SetupThenData(c, lead + turns)
  {
    assert (lead + turns)[|lead|..] == turns;
  }

  lemma MoreData(c: Config, q: seq<Kind>, turns: seq<DataKind>)
    requires q != [] && SetupThenData(c, q)
    ensures SetupThenData(c, q + turns)
  {
    var lead := (if c.authenticate then [Auth] else []) + (if c.selectDb then [SelectDb] else []);
    assert (q + turns)[|lead|..] == q[|lead|..] + turns;
  }

  lemma FilledOnWire(c: Config, s: State, turns: seq<DataKind>)
    requires OnWire(c, s)
    ensures OnWire(c, Filled(c, s, turns))
  {
    hide Filled, OnWire, Lead, SetupOf;
    var t := Filled(c, s, turns);
    if t != s {
      var lead, more := FillSends(c, s, turns, t);
      FillFits(c, s, t, lead, more);
      WireGrows(c, s, t, lead + more);
    }
  }

  lemma FillSends(c: Config, s: State, turns: seq<DataKind>, t: State) returns (lead: seq<Kind>, more: seq<DataKind>)
    requires t == Filled(c, s, turns) && t != s
    ensures lead == Lead(s.auth.NotSent?, s.db.NotSent?, s.slots.NotSent?)
    ensures t.sent == s.sent + (lead + more) && t.marks == s.marks
    ensures t.auth == (if s.auth.NotSent? then Sent else s.auth) && t.db == (if s.db.NotSent? then Sent else s.db)
    ensures t.slots == if s.slots.NotSent? then Sent else s.slots
  {
    FilledMeans(c, s, turns, t);
    hide Filled, Lead;
    lead := Lead(s.auth.NotSent?, s.db.NotSent?, s.slots.NotSent?);
    more := turns[..t.generated - s.generated];
    assert s.sent + lead + more == s.sent + (lead + more);
  }

  lemma FillFits(c: Config, s: State, t: State, lead: seq<Kind>, turns: seq<DataKind>)
    requires OnWire(c, s) && lead == Lead(s.auth.NotSent?, s.db.NotSent?, s.slots.NotSent?)
    requires t.auth == (if s.auth.NotSent? then Sent else s.auth) && t.db == (if s.db.NotSent? then Sent else s.db)
    requires t.slots == if s.slots.NotSent? then Sent else s.slots
    ensures SetupOf(c, t, Latest(s) + (lead + turns))
  {
    var q := Latest(s);
    if q == [] {
      StartsWithLead(c, lead, turns);
      assert q + (lead + turns) == lead + turns;
    } else {
      MoreData(c, q, turns);
      assert lead == [] && lead + turns == turns;
    }
    hide SetupThenData, DataCount;
  }

  /** Nothing is sent in the response loop, and only commands that were sent are noted as answered. */
  lemma {:induction false} AnsweredOnWire(c: Config, s: State, answers: seq<bool>, handled: bool)
    requires |answers| <= |s.pipeline| && Inv(c, s) && OnWire(c, s)
    ensures OnWire(c, Answered(s, answers, handled).state)
    decreases |answers|
  {
    hide Inv, OnWire, SetupAnswered, IsData;
    if answers != [] {
      var t, k, rest := s.Popped(), s.pipeline[0], answers[1..];
      PoppedOnWire(c, s);
      if IsData(k) {
        PopData(c, s);
        AnsweredOnWire(c, t.(processed := t.processed + 1), rest, true);
      } else {
        PopSetupAnswered(c, s);
        SetupPoppedOnWire(c, s);
        if answers[0] { AnsweredOnWire(c, SetupAnswered(t, k), rest, handled); }
      }
    }
  }

  lemma PoppedOnWire(c: Config, s: State)
    requires s.pipeline != [] && Inv(c, s) && OnWire(c, s)
    ensures OnWire(c, s.Popped()) && OnWire(c, s.Popped().(processed := s.processed + 1))
  {
    var t, k := s.Popped(), s.pipeline[0];
    assert k in s.pipeline;
    hide OnWire, Accounted, SetupFirst, Bounded, DataCount;
    SameWire(c, s, t);
    hide SetupTracked;
    SameWire(c, s, t.(processed := s.processed + 1));
  }

  lemma SetupPoppedOnWire(c: Config, s: State)
    requires s.pipeline != [] && Inv(c, s) && OnWire(c, s) && !IsData(s.pipeline[0])
    ensures OnWire(c, SetupAnswered(s.Popped(), s.pipeline[0]))
  {
    assert s.pipeline[0] in s.pipeline;
    hide OnWire, Accounted, SetupFirst, Bounded, DataCount;
    var t := SetupAnswered(s.Popped(), s.pipeline[0]);
    assert t.sent == s.sent && t.marks == s.marks;
    SameWire(c, s, t);
  }

  lemma SameWire(c: Config, s: State, t: State)
    requires OnWire(c, s) && t.sent == s.sent && t.marks == s.marks
    requires t.auth == s.auth || (s.auth.Sent? && t.auth.Done?)
    requires t.db == s.db || (s.db.Sent? && t.db.Done?)
    requires t.slots == s.slots || (s.slots.Sent? && t.slots.Done?)
    ensures OnWire(c, t)
  {
    hide SetupThenData, DataCount;
    assert Latest(s) + [] == Latest(s) && s.sent + [] == s.sent;
    WireGrows(c, s, t, []);
  }

  lemma ConnectedOnWire(c: Config, s: State)
    requires Inv(c, s) && OnWire(c, s) && s.pipeline == []
    requires c.reconnectInterval > 0 && s.processed % c.reconnectInterval == 0
    ensures OnWire(c, Connected(c, s))
  {
    var t := Connected(c, s);
    assert s.sent == s.matched && t.sent[..|s.sent|] == s.sent;
    hide Accounted, Bounded, SetupFirst, SetupTracked, DataCount;
    var n := |s.marks|;
    assert forall i :: 0 <= i < |t.marks| ==> t.marks[i] == if i < n then s.marks[i] else |s.sent|;
    forall i | 0 <= i < |t.marks| ensures SetupThenData(c, Session(t, i)) {
      assert i + 1 < n ==> Session(t, i) == Session(s, i);
      assert i + 1 == n ==> Session(t, i) == Session(s, i);
      assert i == n ==> Session(t, i) == [];
    }
  }

  lemma StepOnWire(c: Config, s: State, e: Event)
    requires Inv(c, s) && OnWire(c, s) && Allowed(s, e)
    ensures OnWire(c, Step(c, s, e).state)
  {
    hide OnWire, Inv, Filled, Answered, Connected;
    match e
    case Writable(turns) => FilledOnWire(c, s, turns);
    case Readable(answers, turns) =>
      AnsweredOnWire(c, s, answers, false);
      AnsweredKeepsInv(c, s, answers, false);
      var t := Answered(s, answers, false).state;
      FilledOnWire(c, t, turns);
      if c.reconnectInterval > 0 && t.processed % c.reconnectInterval == 0 && t.pipeline == [] {
        ConnectedOnWire(c, t);
      }
  }

  lemma {:induction false} RunOnWire(c: Config, s: State, events: seq<Event>)
    requires Inv(c, s) && OnWire(c, s) && Possible(c, s, events)
    ensures OnWire(c, Run(c, s, events).state)
    decreases |events|
  {
    hide Inv, OnWire, Step;
    if events != [] {
      StepOnWire(c, s, events[0]);
      StepKeepsInv(c, s, events[0]);
      if Step(c, s, events[0]).Next? { RunOnWire(c, Step(c, s, events[0]).state, events[1..]); }
    }
  }

  lemma InitialOnWire(c: Config)
    ensures OnWire(c, Initial(c)) && Inv(c, Initial(c))
  {
  }

  lemma WireMeans(c: Config, s: State)
    requires OnWire(c, s)
    ensures && s.marks != [] && s.marks[0] == 0 && (forall i :: 0 <= i < |s.marks| ==> s.marks[i] <= |s.sent|)
            && (forall i, j :: 0 <= i <= j < |s.marks| ==> s.marks[i] <= s.marks[j])
            && (forall i :: 0 <= i < |s.marks| - 1 ==> SetupThenData(c, s.sent[s.marks[i]..s.marks[i + 1]]))
            && SetupThenData(c, s.sent[s.marks[|s.marks| - 1]..])
            && forall i :: 0 <= i < |s.marks| && s.marks[i] > 0 ==>
                 c.reconnectInterval > 0 && DataCount(s.sent[..s.marks[i]]) % c.reconnectInterval == 0
  {
    hide SetupThenData, DataCount;
    assert forall i :: 0 <= i < |s.marks| - 1 ==> Session(s, i) == s.sent[s.marks[i]..s.marks[i + 1]];
  }

  /** In every run, and again for what was sent from each connect to the next: AUTH goes first if and only if it is
      configured, then SELECT if and only if it is configured, and then only data requests; and all but the first
      connect come when a multiple of the interval has been sent. */
  lemma EveryConnectSetsUp(c: Config, events: seq<Event>)
    requires Possible(c, Initial(c), events)
    ensures var s := Run(c, Initial(c), events).state;
            && s.marks != [] && s.marks[0] == 0 && (forall i :: 0 <= i < |s.marks| ==> s.marks[i] <= |s.sent|)
            && (forall i, j :: 0 <= i <= j < |s.marks| ==> s.marks[i] <= s.marks[j])
            && (forall i :: 0 <= i < |s.marks| - 1 ==> SetupThenData(c, s.sent[s.marks[i]..s.marks[i + 1]]))
            && SetupThenData(c, s.sent[s.marks[|s.marks| - 1]..])
            && forall i :: 0 <= i < |s.marks| && s.marks[i] > 0 ==>
                 c.reconnectInterval > 0 && DataCount(s.sent[..s.marks[i]]) % c.reconnectInterval == 0
  {
    InitialOnWire(c);
    RunOnWire(c, Initial(c), events);
    hide Run, Initial, OnWire, SetupThenData;
    WireMeans(c, Run(c, Initial(c), events).state);
  }

  // ----- the objects -----

  /** The client's side of its one connection. */
  class Client {
    const config: Config
    var m_reqs_generated: nat
    var m_reqs_processed: nat

    constructor (config: Config)
      ensures this.config == config && m_reqs_generated == m_reqs_processed == 0
    {
      this.config := config;
      m_reqs_generated, m_reqs_processed := 0, 0;
    }

    method HoldPipeline() returns (hold: bool)
      requires m_reqs_processed <= m_reqs_generated
      ensures hold <==>
              || (config.requests > 0 && m_reqs_generated >= config.requests)
              || (config.reconnectInterval > 0 &&
                  m_reqs_generated >= (m_reqs_processed / config.reconnectInterval + 1) * config.reconnectInterval)
    {
      if config.reconnectInterval > 0 { NextMultiple(m_reqs_generated, m_reqs_processed, config.reconnectInterval); }
      if config.requests > 0 {
        if m_reqs_generated >= config.requests {
          return true;
        }
      }
      if config.reconnectInterval > 0 {
        if m_reqs_processed % config.reconnectInterval + (m_reqs_generated - m_reqs_processed) >=
            config.reconnectInterval {
          return true;
        }
      }
      return false;
    }
  }

  class ShardConnection {
    const m_conns_manager: Client
    const config: Config
    var m_pipeline: seq<Kind>
    var m_pending_resp: int
    var m_authentication: Setup
    var m_db_selection: Setup
    var m_cluster_slots: Setup

    ghost var sent: seq<Kind>
    ghost var matched: seq<Kind>
    ghost var marks: seq<nat>

    ghost function Abs(): State
      reads this, m_conns_manager
    {
      State(m_pipeline, m_pending_resp, m_authentication, m_db_selection, m_cluster_slots,
            m_conns_manager.m_reqs_generated, m_conns_manager.m_reqs_processed, sent, matched, marks)
    }

    ghost predicate Valid()
      reads this, m_conns_manager
    {
      config == m_conns_manager.config && Inv(config, Abs())
    }

    /** A connected client, nothing sent yet. */
    constructor (client: Client)
      requires client.m_reqs_generated == client.m_reqs_processed == 0
      ensures m_conns_manager == client && Abs() == Initial(config) && Valid()
    {
      m_conns_manager, config := client, client.config;
      m_pipeline, m_pending_resp := [], 0;
      m_authentication := if client.config.authenticate then NotSent else Done;
      m_db_selection := if client.config.selectDb then NotSent else Done;
      m_cluster_slots := Done;
      sent, matched, marks := [], [], [0];
    }

    method PopReq() returns (req: Kind)
      requires m_pipeline != [] && m_pending_resp == |m_pipeline|
      modifies `m_pipeline, `m_pending_resp, `matched
      ensures req == old(m_pipeline)[0] && Abs() == old(Abs()).Popped() && m_pending_resp >= 0
    {
      req := m_pipeline[0];
      m_pipeline := m_pipeline[1..];
      m_pending_resp := m_pending_resp - 1;
      matched := matched + [req];
    }

    method PushReq(req: Kind)
      modifies `m_pipeline, `m_pending_resp, `sent
      ensures Abs() == old(Abs()).Pushed(req)
    {
      m_pipeline := m_pipeline + [req];
      m_pending_resp := m_pending_resp + 1;
      sent := sent + [req];
    }

    method SendConnSetupCommands()
      modifies `m_pipeline, `m_pending_resp, `sent, `m_authentication, `m_db_selection, `m_cluster_slots
      ensures Abs() == SetupSent(old(Abs()))
    {
      if m_authentication == NotSent {
        PushReq(Auth);
        m_authentication := Sent;
      }
      if m_db_selection == NotSent {
        PushReq(SelectDb);
        m_db_selection := Sent;
      }
      if m_cluster_slots == NotSent {
        PushReq(ClusterSlots);
        m_cluster_slots := Sent;
      }
    }

    /** Clipping based on pipeline size. */
    method Clip(turns: seq<DataKind>)
      modifies `m_pipeline, `m_pending_resp, `sent, m_conns_manager`m_reqs_generated
      ensures Abs() == Clipped(config, old(Abs()), turns)
    {
      ghost var s := Abs();
      var i := 0;
      assert turns[0..] == turns;
      while i < |turns| && |m_pipeline| < config.pipeline
        invariant 0 <= i <= |turns|
        invariant Clipped(config, Abs(), turns[i..]) == Clipped(config, s, turns)
      {
        PushReq(turns[i]);
        m_conns_manager.m_reqs_generated := m_conns_manager.m_reqs_generated + 1;
        assert turns[i..][1..] == turns[i + 1..];
        i := i + 1;
      }
    }

    method FillPipeline(turns: seq<DataKind>)
      requires Valid()
      modifies this, m_conns_manager
      ensures Valid() && Abs() == Filled(config, old(Abs()), turns)
    {
      FilledKeepsInv(config, Abs(), turns);
      MoreGenerated(Abs());
      hide Inv, Clipped, SetupSent, Hold;
      ghost var s := Abs();
      var hold := m_conns_manager.HoldPipeline();
      HoldMeans(config, s);
      if hold {
        return;
      }
      if m_authentication != Done || m_db_selection != Done || m_cluster_slots != Done {
        SendConnSetupCommands();
      }
      Clip(turns);
    }

    /** The response to a setup command is good. */
    method NoteSetup(req: Kind)
      requires !IsData(req)
      modifies `m_authentication, `m_db_selection, `m_cluster_slots
      ensures Abs() == SetupAnswered(old(Abs()), req)
    {
      match req
      case Auth => m_authentication := Done;
      case SelectDb => m_db_selection := Done;
      case ClusterSlots => m_cluster_slots := Done;
    }

    /** The responses are parsed and matched one by one. */
    method MatchResponses(answers: seq<bool>) returns (handled: bool, error: bool)
      requires |answers| <= |m_pipeline| == m_pending_resp
      modifies this, m_conns_manager
      ensures Processed(Abs(), handled, error) == Answered(old(Abs()), answers, false)
    {
      handled, error := false, false;
      ghost var s := Abs();
      var i := 0;
      assert answers[0..] == answers;
      hide Answered, SetupAnswered, IsData;
      while i < |answers|
        invariant 0 <= i <= |answers| && |answers| - i <= |m_pipeline| == m_pending_resp
        invariant Answered(Abs(), answers[i..], handled) == Answered(s, answers, false) && !error
        decreases |answers| - i
      {
        NextAnswer(Abs(), answers, i, handled);
        var req := PopReq();
        if IsData(req) {
          m_conns_manager.m_reqs_processed := m_conns_manager.m_reqs_processed + 1;
          handled := true;
        } else if answers[i] {
          NoteSetup(req);
        } else {
          error := true;
          return;
        }
        i := i + 1;
      }
      NoAnswers(Abs(), answers[i..], handled);
    }

    /** `ok` is false when the assertion of the reconnect branch fails. */
    method ProcessResponse(answers: seq<bool>, turns: seq<DataKind>) returns (ok: bool)
      requires Valid() && |answers| <= |m_pipeline|
      modifies this, m_conns_manager
      ensures Valid() && (if ok then Next(Abs()) else Stuck(Abs())) == Received(config, old(Abs()), answers, turns)
      ensures ReconnectIsSafe(config) ==> ok
    {
      if ReconnectIsSafe(config) { NeverStuck(config, Abs(), Readable(answers, turns)); }
      AnsweredKeepsInv(config, Abs(), answers, false);
      StepKeepsInv(config, Abs(), Readable(answers, turns));
      hide Inv, Answered, Filled;
      assert |m_pipeline| == m_pending_resp by { PendingIsLength(Abs()); }
      var handled, error := MatchResponses(answers);
      if error {
        return true;
      }
      if config.reconnectInterval > 0 && handled && m_conns_manager.m_reqs_processed % config.reconnectInterval == 0 {
        if m_pipeline != [] {
          return false;
        }
        Reconnect();
        return true;
      }
      FillPipeline(turns);
      return true;
    }

    lemma PendingIsLength(s: State)
      requires Inv(config, s)
      ensures |s.pipeline| == s.pending
    {
    }

    method Reconnect()
      modifies `m_authentication, `m_db_selection, `m_cluster_slots, `marks
      ensures Abs() == Connected(config, old(Abs()))
    {
      m_authentication, m_db_selection, m_cluster_slots := Done, Done, Done;
      m_authentication := if config.authenticate then NotSent else Done;
      m_db_selection := if config.selectDb then NotSent else Done;
      marks := marks + [|sent|];
    }
  }

  lemma NextAnswer(s: State, answers: seq<bool>, i: nat, handled: bool)
    requires i < |answers| <= i + |s.pipeline|
    ensures var k, t, rest := s.pipeline[0], s.Popped(), answers[i + 1..];
            Answered(s, answers[i..], handled) ==
            if IsData(k) then Answered(t.(processed := t.processed + 1), rest, true)
            else if answers[i] then Answered(SetupAnswered(t, k), rest, handled)
            else Processed(t, handled, true)
  {
    assert answers[i..][0] == answers[i] && answers[i..][1..] == answers[i + 1..];
    hide SetupAnswered;
  }

  lemma MoreGenerated(s: State)
    requires Accounted(s)
    ensures s.generated >= s.processed
  {
    CountOfSum(s.matched, s.pipeline);
  }
}
