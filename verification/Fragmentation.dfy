/** What it means for a resumable parser not to depend on how its input was cut into reads. A parser is a function from
    its state and the unread buffer to the outcome of one `parse_response` call; each read event calls it again until it
    asks for more bytes or reports an error. */
module Fragmentation {

  /** Outcome of one call: 1 is a complete response, negative an error, 0 "not enough bytes yet". */
  datatype Call<S, B> = Call(state: S, rest: seq<B>, ret: int)

  type Parser<!S, !B> = (S, seq<B>) -> Call<S, B>

  /** Where the parser stands after a read event has been worked off, and every state in which it reported a response or
      an error on the way. */
  datatype Pumped<S, B> = Pumped(state: S, rest: seq<B>, reports: seq<(int, S)>)

  ghost predicate Progress<S(!new), B(!new)>(parse: Parser<S, B>)
  {
    forall s, b :: parse(s, b).ret != 0 ==> |parse(s, b).rest| < |b|
  }

  /** The loop of `process_response`: call as long as responses come. An error ends it like a wait does, whatever bytes
      are still in the buffer. */
  ghost function Pump<S(!new), B(!new)>(parse: Parser<S, B>, s: S, b: seq<B>): Pumped<S, B>
    requires Progress(parse)
    decreases |b|
  {
    var c := parse(s, b);
    if c.ret == 0 then Pumped(c.state, c.rest, [])
    else if c.ret < 0 then Pumped(c.state, c.rest, [(c.ret, c.state)])
    else
      var t := Pump(parse, c.state, c.rest);
      Pumped(t.state, t.rest, [(c.ret, c.state)] + t.reports)
  }

  /** A read event: `process_response` is called for a buffer that is not empty. */
  ghost function OneRead<S(!new), B(!new)>(parse: Parser<S, B>, s: S, b: seq<B>): Pumped<S, B>
    requires Progress(parse)
  {
    if b == [] then Pumped(s, b, []) else Pump(parse, s, b)
  }

  /** A read event for each chunk, appended to what the one before has left in the buffer. */
  ghost function Deliver<S(!new), B(!new)>(parse: Parser<S, B>, s: S, b: seq<B>, chunks: seq<seq<B>>): Pumped<S, B>
    requires Progress(parse)
    decreases |chunks|
  {
    if chunks == [] then Pumped(s, b, [])
    else
      var p := OneRead(parse, s, b + chunks[0]);
      var t := Deliver(parse, p.state, p.rest, chunks[1..]);
      Pumped(t.state, t.rest, p.reports + t.reports)
  }

  ghost function Join<B>(chunks: seq<seq<B>>): seq<B>
  {
    if chunks == [] then [] else chunks[0] + Join(chunks[1..])
  }

  /** A call is stable when later bytes could not have changed what it did: a report stays the same report, and a wait
      can be resumed with nothing lost. */
  ghost predicate StableWith<S(!new), B(!new)>(parse: Parser<S, B>, s: S, b: seq<B>, more: seq<B>)
  {
    var c := parse(s, b);
    if c.ret != 0 then parse(s, b + more) == Call(c.state, c.rest + more, c.ret)
    else parse(s, b + more) == parse(c.state, c.rest + more)
  }

  ghost predicate Stable<S(!new), B(!new)>(parse: Parser<S, B>, s: S, b: seq<B>)
  {
    forall more :: StableWith(parse, s, b, more)
  }

  /** Every call that these bytes can lead to is stable, those after an error included. */
  ghost predicate Settled<S(!new), B(!new)>(parse: Parser<S, B>, s: S, b: seq<B>)
    requires Progress(parse)
    decreases |b|
  {
    var c := parse(s, b);
    Stable(parse, s, b) && (c.ret != 0 ==> Settled(parse, c.state, c.rest))
  }

  /** No error leaves bytes behind from which another call would take or make anything. */
  ghost predicate Quiet<S(!new), B(!new)>(parse: Parser<S, B>, s: S, b: seq<B>)
    requires Progress(parse)
    decreases |b|
  {
    var c := parse(s, b);
    && (c.ret > 0 ==> Quiet(parse, c.state, c.rest))
    && (c.ret < 0 ==> Idle(parse, c.state, c.rest))
  }

  /** A call on these bytes, if it is made, only waits for more. */
  ghost predicate Idle<S(!new), B(!new)>(parse: Parser<S, B>, s: S, b: seq<B>)
  {
    b == [] || (parse(s, b).ret == 0 && parse(s, b).rest == b)
  }

  /** The bytes behind the first error, none if there is no error. */
  ghost function LeftBehind<S(!new), B(!new)>(parse: Parser<S, B>, s: S, b: seq<B>): seq<B>
    requires Progress(parse)
    decreases |b|
  {
    var c := parse(s, b);
    if c.ret > 0 then LeftBehind(parse, c.state, c.rest) else if c.ret < 0 then c.rest else []
  }

  /** No difference can be seen: the same reports, the same bytes left over, and the next call, whatever has arrived by
      then, does the same. */
  ghost predicate Alike<S(!new), B(!new)>(parse: Parser<S, B>, p: Pumped<S, B>, q: Pumped<S, B>)
  {
    && p.reports == q.reports && p.rest == q.rest
    && forall more :: SameNext(parse, p.state, q.state, p.rest + more)
  }

  ghost predicate SameNext<S(!new), B(!new)>(parse: Parser<S, B>, s: S, t: S, b: seq<B>)
  {
    b == [] || parse(s, b) == parse(t, b)
  }

  /** The same reports in front of both. */
  ghost function Behind<S, B>(reports: seq<(int, S)>, p: Pumped<S, B>): Pumped<S, B>
  {
    Pumped(p.state, p.rest, reports + p.reports)
  }

  lemma AlikeBehind<S(!new), B(!new)>(parse: Parser<S, B>, reports: seq<(int, S)>, p: Pumped<S, B>, q: Pumped<S, B>)
    requires Alike(parse, p, q)
    ensures Alike(parse, Behind(reports, p), Behind(reports, q))
  {
  }

  lemma AlikeTwice<S(!new), B(!new)>(parse: Parser<S, B>, p: Pumped<S, B>, q: Pumped<S, B>, r: Pumped<S, B>)
    requires Alike(parse, p, q) && Alike(parse, r, q)
    ensures Alike(parse, p, r)
  {
    forall more ensures SameNext(parse, p.state, r.state, p.rest + more) {
      assert SameNext(parse, p.state, q.state, p.rest + more) && SameNext(parse, r.state, q.state, r.rest + more);
    }
  }

  lemma AlikeSelf<S(!new), B(!new)>(parse: Parser<S, B>, p: Pumped<S, B>)
    ensures Alike(parse, p, p)
  {
  }

  // ----- cuts where every call made was stable -----

  /** A call that only waits leaves the parser in a state that goes on like the one before. */
  lemma IdleRead<S(!new), B(!new)>(parse: Parser<S, B>, s: S, b: seq<B>)
    requires Progress(parse) && Idle(parse, s, b) && Stable(parse, s, b)
    ensures Alike(parse, Pumped(s, b, []), OneRead(parse, s, b)) && Quiet(parse, s, b)
  {
    if b != [] {
      var t := parse(s, b).state;
      forall more ensures SameNext(parse, s, t, b + more) {
        assert StableWith(parse, s, b, more);
      }
    }
  }

  /** Working off a buffer, and then what comes behind it, is working off both at once. */
  lemma {:induction false} PumpSplits<S(!new), B(!new)>(parse: Parser<S, B>, s: S, b: seq<B>, more: seq<B>)
    requires Progress(parse) && Settled(parse, s, b) && Settled(parse, s, b + more) && Quiet(parse, s, b + more)
    ensures var p := Pump(parse, s, b);
            var q := OneRead(parse, p.state, p.rest + more);
            && Alike(parse, Pump(parse, s, b + more), Behind(p.reports, q))
            && Quiet(parse, p.state, p.rest + more)
            && (more == [] ==> Alike(parse, Pumped(p.state, p.rest, []), q))
    decreases |b|
  {
    hide Alike;
    var c := parse(s, b);
    assert StableWith(parse, s, b, more);
    if c.ret > 0 {
      FirstReport(parse, s, b, more);
    } else if c.ret < 0 {
      assert more == [] ==> c.rest + more == c.rest;
      IdleRead(parse, c.state, c.rest + more);
      AlikeBehind(parse, [(c.ret, c.state)], Pumped(c.state, c.rest + more, []),
                  OneRead(parse, c.state, c.rest + more));
      assert [(c.ret, c.state)] + [] == [(c.ret, c.state)];
    } else {
      var q := OneRead(parse, c.state, c.rest + more);
      WaitResumes(parse, s, b, more);
      assert more == [] ==> c.rest + more == c.rest;
      assert [] + q.reports == q.reports;
      AlikeSelf(parse, q);
    }
  }

  lemma {:induction false} FirstReport<S(!new), B(!new)>(parse: Parser<S, B>, s: S, b: seq<B>, more: seq<B>)
    requires Progress(parse) && Settled(parse, s, b) && Settled(parse, s, b + more) && Quiet(parse, s, b + more)
    requires parse(s, b).ret > 0 && StableWith(parse, s, b, more)
    ensures var p := Pump(parse, s, b);
            var q := OneRead(parse, p.state, p.rest + more);
            && Alike(parse, Pump(parse, s, b + more), Behind(p.reports, q))
            && Quiet(parse, p.state, p.rest + more)
            && (more == [] ==> Alike(parse, Pumped(p.state, p.rest, []), q))
    decreases |b|, 0
  {
    hide Alike, Stable;
    var c := parse(s, b);
    PumpSplits(parse, c.state, c.rest, more);
    var p := Pump(parse, c.state, c.rest);
    var q := OneRead(parse, p.state, p.rest + more);
    AlikeBehind(parse, [(c.ret, c.state)], Pump(parse, c.state, c.rest + more), Behind(p.reports, q));
    assert [(c.ret, c.state)] + (p.reports + q.reports) == ([(c.ret, c.state)] + p.reports) + q.reports;
  }

  lemma WaitResumes<S(!new), B(!new)>(parse: Parser<S, B>, s: S, b: seq<B>, more: seq<B>)
    requires Progress(parse) && Stable(parse, s, b) && parse(s, b).ret == 0
    requires Quiet(parse, s, b + more)
    ensures var c := parse(s, b);
            && OneRead(parse, c.state, c.rest + more) == Pump(parse, s, b + more)
            && Quiet(parse, c.state, c.rest + more)
            && (more == [] ==> OneRead(parse, c.state, c.rest) == Pumped(c.state, c.rest, []))
  {
    var c := parse(s, b);
    assert StableWith(parse, s, b, more) && StableWith(parse, s, b, []);
    assert b + [] == b && c.rest + [] == c.rest;
    assert more == [] ==> c.rest + more == c.rest && b + more == b;
    assert c.rest + more == [] ==> more == [] && c.rest == [];
  }

  lemma {:induction false} SettledMovesOn<S(!new), B(!new)>(parse: Parser<S, B>, s: S, b: seq<B>, more: seq<B>)
    requires Progress(parse) && Settled(parse, s, b) && Settled(parse, s, b + more)
    ensures var p := Pump(parse, s, b); Settled(parse, p.state, p.rest + more)
    decreases |b|
  {
    var c := parse(s, b);
    assert StableWith(parse, s, b, more);
    if c.ret > 0 {
      SettledMovesOn(parse, c.state, c.rest, more);
    } else if c.ret == 0 {
      forall later ensures StableWith(parse, c.state, c.rest + more, later) {
        assert StableWith(parse, s, b + more, later) && StableWith(parse, s, b, more + later);
        assert (b + more) + later == b + (more + later) && (c.rest + more) + later == c.rest + (more + later);
      }
    }
  }

  /** What has arrived by the end of each read event leads to stable calls only. */
  ghost predicate SettledAtCuts<S(!new), B(!new)>(parse: Parser<S, B>, s: S, b: seq<B>, chunks: seq<seq<B>>)
    requires Progress(parse)
  {
    forall i :: 0 < i <= |chunks| ==> Settled(parse, s, b + Join(chunks[..i]))
  }

  lemma CutsMoveOn<S(!new), B(!new)>(parse: Parser<S, B>, s: S, b: seq<B>, chunks: seq<seq<B>>)
    requires Progress(parse) && chunks != [] && SettledAtCuts(parse, s, b, chunks)
    ensures Settled(parse, s, b + chunks[0])
    ensures var p := OneRead(parse, s, b + chunks[0]); SettledAtCuts(parse, p.state, p.rest, chunks[1..])
  {
    var first := b + chunks[0];
    JoinCut(chunks, 0);
    assert b + Join(chunks[..1]) == first;
    var p := OneRead(parse, s, first);
    forall i | 0 < i <= |chunks[1..]| ensures Settled(parse, p.state, p.rest + Join(chunks[1..][..i])) {
      var more := Join(chunks[1..][..i]);
      JoinCut(chunks, i);
      assert b + Join(chunks[..i + 1]) == first + more;
      if first != [] { SettledMovesOn(parse, s, first, more); }
    }
  }

  lemma JoinCut<B>(chunks: seq<seq<B>>, i: nat)
    requires i < |chunks|
    ensures Join(chunks[..i + 1]) == chunks[0] + Join(chunks[1..][..i])
  {
    assert chunks[..i + 1][1..] == chunks[1..][..i];
  }

  /** The same for read events, which do nothing with an empty buffer. */
  lemma ReadSplits<S(!new), B(!new)>(parse: Parser<S, B>, s: S, b: seq<B>, more: seq<B>)
    requires Progress(parse) && Settled(parse, s, b) && Settled(parse, s, b + more) && Quiet(parse, s, b + more)
    ensures var p := OneRead(parse, s, b);
            var q := OneRead(parse, p.state, p.rest + more);
            && Alike(parse, OneRead(parse, s, b + more), Behind(p.reports, q))
            && Quiet(parse, p.state, p.rest + more)
            && (more == [] ==> Alike(parse, Pumped(p.state, p.rest, []), OneRead(parse, p.state, p.rest)))
  {
    hide Settled, Quiet, Pump, Alike;
    if b == [] {
      var q := OneRead(parse, s, b + more);
      assert [] + q.reports == q.reports;
      AlikeSelf(parse, q);
      assert [] + more == more;
    } else {
      PumpSplits(parse, s, b, more);
      var p := OneRead(parse, s, b);
      assert more == [] ==> p.rest + more == p.rest;
    }
  }

  /** Fragmentation independence: cutting the stream changes neither the reports, nor the bytes left over, nor what any
      later call does. */
  lemma {:induction false} ChunksEqualWhole<S(!new), B(!new)>(parse: Parser<S, B>, s: S, b: seq<B>,
      chunks: seq<seq<B>>)
    requires Progress(parse) && SettledAtCuts(parse, s, b, chunks) && Quiet(parse, s, b + Join(chunks))
    requires Join(chunks) == [] ==> Alike(parse, Pumped(s, b, []), OneRead(parse, s, b))
    ensures Alike(parse, Deliver(parse, s, b, chunks), OneRead(parse, s, b + Join(chunks)))
    decreases |chunks|
  {
    hide Settled, Quiet, Pump, SettledAtCuts, OneRead, Alike;
    if chunks == [] {
      assert b + Join(chunks) == b;
    } else {
      var first, more := b + chunks[0], Join(chunks[1..]);
      assert b + Join(chunks) == first + more;
      CutsMoveOn(parse, s, b, chunks);
      WholeSettled(parse, s, b, chunks);
      ReadSplits(parse, s, first, more);
      var p := OneRead(parse, s, first);
      ChunksEqualWhole(parse, p.state, p.rest, chunks[1..]);
      var t, q := Deliver(parse, p.state, p.rest, chunks[1..]), OneRead(parse, p.state, p.rest + more);
      AlikeBehind(parse, p.reports, t, q);
      AlikeTwice(parse, Behind(p.reports, t), Behind(p.reports, q), OneRead(parse, s, first + more));
    }
  }

  lemma WholeSettled<S(!new), B(!new)>(parse: Parser<S, B>, s: S, b: seq<B>, chunks: seq<seq<B>>)
    requires Progress(parse) && chunks != [] && SettledAtCuts(parse, s, b, chunks)
    ensures Settled(parse, s, b + Join(chunks))
  {
    assert chunks[..|chunks|] == chunks;
  }

  // ----- a condition that can be checked on the whole stream -----

  type RiskTest<!S, !B> = (S, seq<B>) -> bool

  /** `risky` marks calls that meet a construct the parser may mishandle: calls it does not mark are stable, and a mark
      found on part of a stream is found on all of it. */
  ghost predicate Guards<S(!new), B(!new)>(parse: Parser<S, B>, risky: RiskTest<S, B>)
  {
    && (forall s, b :: !risky(s, b) ==> Stable(parse, s, b))
    && (forall s, b, more :: risky(s, b) ==> risky(s, b + more))
    && (forall s, b, more :: parse(s, b).ret == 0 && !risky(s, b + more) && !risky(s, b)
          ==> !risky(parse(s, b).state, parse(s, b).rest + more))
  }

  ghost predicate Clean<S(!new), B(!new)>(parse: Parser<S, B>, risky: RiskTest<S, B>, s: S, b: seq<B>)
    requires Progress(parse)
    decreases |b|
  {
    var c := parse(s, b);
    !risky(s, b) && (c.ret != 0 ==> Clean(parse, risky, c.state, c.rest))
  }

  lemma {:induction false} CleanSettles<S(!new), B(!new)>(parse: Parser<S, B>, risky: RiskTest<S, B>, s: S, b: seq<B>,
      more: seq<B>)
    requires Progress(parse) && Guards(parse, risky)
    requires Clean(parse, risky, s, b + more)
    ensures Settled(parse, s, b)
    decreases |b|
  {
    var c := parse(s, b);
    assert !risky(s, b);
    assert StableWith(parse, s, b, more);
    if c.ret != 0 {
      CleanSettles(parse, risky, c.state, c.rest, more);
    }
  }

  lemma {:induction false} JoinSplits<B>(chunks: seq<seq<B>>, i: nat)
    requires i <= |chunks|
    ensures Join(chunks) == Join(chunks[..i]) + Join(chunks[i..])
    decreases |chunks|
  {
    if i == 0 {
      assert chunks[0..] == chunks && [] + Join(chunks) == Join(chunks);
    } else {
      JoinCut(chunks, i - 1);
      JoinSplits(chunks[1..], i - 1);
      assert chunks[1..][i - 1..] == chunks[i..];
      assert chunks[0] + (Join(chunks[1..][..i - 1]) + Join(chunks[i..]))
          == chunks[0] + Join(chunks[1..][..i - 1]) + Join(chunks[i..]);
    }
  }

  /** A stream that is clean and quiet as a whole may be cut anywhere. */
  lemma CleanStreamFragments<S(!new), B(!new)>(parse: Parser<S, B>, risky: RiskTest<S, B>, s: S, chunks: seq<seq<B>>)
    requires Progress(parse) && Guards(parse, risky)
    requires Clean(parse, risky, s, Join(chunks)) && Quiet(parse, s, Join(chunks))
    ensures Alike(parse, Deliver(parse, s, [], chunks), OneRead(parse, s, Join(chunks)))
  {
    assert [] + Join(chunks) == Join(chunks);
    AlikeSelf(parse, OneRead(parse, s, []));
    hide Alike, Clean, Quiet, Settled;
    forall i | 0 < i <= |chunks| ensures Settled(parse, s, [] + Join(chunks[..i])) {
      JoinSplits(chunks, i);
      CleanSettles(parse, risky, s, Join(chunks[..i]), Join(chunks[i..]));
      assert [] + Join(chunks[..i]) == Join(chunks[..i]);
    }
    ChunksEqualWhole(parse, s, [], chunks);
  }

  // ----- and no weaker condition will do -----

  /** `used` is what the call took off the front of `b`, and all it needed. */
  ghost predicate TookOnly<S(!new), B(!new)>(parse: Parser<S, B>, s: S, b: seq<B>, used: seq<B>)
  {
    var c := parse(s, b);
    b == used + c.rest && parse(s, used) == Call(c.state, [], c.ret)
  }

  /** Reports come with the last byte they are made of. */
  ghost predicate Prompt<S(!new), B(!new)>(parse: Parser<S, B>, risky: RiskTest<S, B>)
  {
    forall s, b :: parse(s, b).ret != 0 && !risky(s, b) ==> exists used :: TookOnly(parse, s, b, used)
  }

  /** `pre` ends with the first error, and a call on the bytes left there would do something. */
  ghost predicate CutsAtError<S(!new), B(!new)>(parse: Parser<S, B>, s: S, b: seq<B>, pre: seq<B>)
    requires Progress(parse)
  {
    var u := Pump(parse, s, b);
    && pre != [] && b == pre + u.rest && Pump(parse, s, pre) == Pumped(u.state, [], u.reports)
    && !Idle(parse, u.state, u.rest)
  }

  lemma FirstCallFollowed<S(!new), B(!new)>(parse: Parser<S, B>, s: S, b: seq<B>, used: seq<B>, tail: seq<B>)
    requires Progress(parse) && parse(s, b).ret > 0
    requires TookOnly(parse, s, b, used) && StableWith(parse, s, used, tail)
    requires var c := parse(s, b); CutsAtError(parse, c.state, c.rest, tail)
    ensures CutsAtError(parse, s, b, used + tail)
  {
    var c := parse(s, b);
    var u := Pump(parse, c.state, c.rest);
    assert [] + tail == tail;
    assert used + (tail + u.rest) == (used + tail) + u.rest;
  }

  lemma {:induction false} ErrorCut<S(!new), B(!new)>(parse: Parser<S, B>, risky: RiskTest<S, B>, s: S, b: seq<B>)
    returns (pre: seq<B>)
    requires Progress(parse) && Guards(parse, risky) && Prompt(parse, risky)
    requires Clean(parse, risky, s, b) && !Quiet(parse, s, b)
    ensures CutsAtError(parse, s, b, pre)
    decreases |b|
  {
    var c := parse(s, b);
    var used :| TookOnly(parse, s, b, used);
    pre := used;
    if c.ret > 0 {
      hide CutsAtError;
      var tail := ErrorCut(parse, risky, c.state, c.rest);
      NotRiskyBefore(parse, risky, s, used, c.rest);
      assert StableWith(parse, s, used, tail);
      FirstCallFollowed(parse, s, b, used, tail);
      pre := used + tail;
    }
  }

  lemma NotRiskyBefore<S(!new), B(!new)>(parse: Parser<S, B>, risky: RiskTest<S, B>, s: S, b: seq<B>, more: seq<B>)
    requires Guards(parse, risky) && !risky(s, b + more)
    ensures Stable(parse, s, b)
  {
    assert !risky(s, b);
  }

  ghost predicate SameWhenCut<S(!new), B(!new)>(parse: Parser<S, B>, s: S, stream: seq<B>, chunks: seq<seq<B>>)
    requires Progress(parse)
  {
    Join(chunks) == stream ==> Alike(parse, Deliver(parse, s, [], chunks), OneRead(parse, s, stream))
  }

  lemma TwoChunks<S(!new), B(!new)>(parse: Parser<S, B>, s: S, pre: seq<B>, post: seq<B>)
    requires Progress(parse)
    ensures Join([pre, post]) == pre + post
    ensures var p := OneRead(parse, s, pre);
            var q := OneRead(parse, p.state, p.rest + post);
            Deliver(parse, s, [], [pre, post]) == Pumped(q.state, q.rest, p.reports + q.reports)
  {
    var chunks := [pre, post];
    assert Join([post]) == post + Join([]) && post + [] == post && chunks[1..] == [post];
    assert [] + pre == pre;
    var p := OneRead(parse, s, pre);
    var q := OneRead(parse, p.state, p.rest + post);
    assert [post][1..] == [] && q.reports + [] == q.reports;
    assert Deliver(parse, p.state, p.rest, [post]) == q;
  }

  lemma NoisyCutDiffers<S(!new), B(!new)>(parse: Parser<S, B>, risky: RiskTest<S, B>, s: S, stream: seq<B>)
    returns (chunks: seq<seq<B>>)
    requires Progress(parse) && Guards(parse, risky) && Prompt(parse, risky)
    requires Clean(parse, risky, s, stream) && !Quiet(parse, s, stream)
    ensures !SameWhenCut(parse, s, stream, chunks)
  {
    hide Guards, Prompt, Clean, Quiet;
    var pre := ErrorCut(parse, risky, s, stream);
    var u := Pump(parse, s, stream);
    chunks := [pre, u.rest];
    TwoChunks(parse, s, pre, u.rest);
    assert [] + u.rest == u.rest;
    CallShows(parse, u.state, u.rest);
  }

  /** A call that does more than wait leaves a mark on the read event. */
  lemma CallShows<S(!new), B(!new)>(parse: Parser<S, B>, s: S, b: seq<B>)
    requires Progress(parse) && !Idle(parse, s, b)
    ensures var q := OneRead(parse, s, b); |q.reports| > 0 || q.rest != b
  {
  }

  /** Exactly which clean streams may be cut anywhere: those in which no error leaves bytes behind that another call
      would act on. */
  lemma AnyCutIffQuiet<S(!new), B(!new)>(parse: Parser<S, B>, risky: RiskTest<S, B>, s: S, stream: seq<B>)
    requires Progress(parse) && Guards(parse, risky) && Prompt(parse, risky)
    requires Clean(parse, risky, s, stream)
    ensures (forall chunks :: SameWhenCut(parse, s, stream, chunks)) <==> Quiet(parse, s, stream)
  {
    if Quiet(parse, s, stream) {
      forall chunks ensures SameWhenCut(parse, s, stream, chunks) {
        if Join(chunks) == stream { CleanStreamFragments(parse, risky, s, chunks); }
      }
    } else {
      var chunks := NoisyCutDiffers(parse, risky, s, stream);
    }
  }
}
