/** Array replies the redis parser cannot report as sent: arrays without elements, null elements, status and error
    elements. Together with `RedisArrays.BuildsTree` this is an exact condition. */
module RedisUnbuildable {
  import opened CText
  import opened Fragmentation
  import opened RedisReply
  import opened RedisArrays

  // ----- an array that is owed more than can come -----

  /** `mbulk_count` is unsigned, so an empty array is owed a whole turn of the counter. */
  ghost function Owed(l: Level): nat { if l.count == 0 then UINT_RANGE else l.count }

  /** An open array is still owed more elements than there are bytes to read. */
  ghost predicate Stuck(levels: seq<Level>, bytes: nat)
  {
    exists k :: 0 <= k < |levels| && Owed(levels[k]) > bytes
  }

  lemma CountDownStaysStuck(levels: seq<Level>, bytes: nat)
    requires levels != [] && Stuck(levels, bytes + 2)
    ensures Stuck(CountDown(levels), bytes)
  {
    var k :| 0 <= k < |levels| && Owed(levels[k]) > bytes + 2;
    var top := levels[|levels| - 1];
    assert Owed(top) >= 2 ==> Owed(top.(count := AsUint32(top.count - 1))) == Owed(top) - 1;
    assert CountDown(levels)[k].node == levels[k].node;
  }

  lemma StuckTurn(p: SoundParser, b: string)
    requires p.state == ReadMbulk && Stuck(p.levels, |b|)
    ensures match Iterate(p, b)
            case Again(q, rest) => q.state == ReadMbulk && Stuck(q.levels, |rest|)
            case Return(c) => c.ret == 0
  {
    hide NumberOn, CString, Link, Taken, Drained, CountDown, Stuck;
    if Readln(b).Some? {
      var l := Readln(b).value;
      ElementLineShape(p, l.text, l.rest);
      StuckOnFewer(p.levels, |b|, |l.rest| + 2);
      CountDownStaysStuck(p.levels, |l.rest|);
      forall n: nat | n <= |l.rest| ensures Stuck(CountDown(p.levels), n) && Stuck(p.levels, n) {
        StuckOnFewer(CountDown(p.levels), |l.rest|, n);
        StuckOnFewer(p.levels, |b|, n);
      }
      forall l': Level, n: nat | n <= |l.rest| ensures Stuck(CountDown(p.levels) + [l'], n) {
        StuckUnderMore(CountDown(p.levels), l', n);
      }
      assert CountDown(p.levels) != [] by { NotEmptyWhenStuck(CountDown(p.levels), |l.rest|); }
    }
  }

  lemma StuckOnFewer(levels: seq<Level>, bytes: nat, fewer: nat)
    requires Stuck(levels, bytes) && fewer <= bytes
    ensures Stuck(levels, fewer)
  {
  }

  lemma StuckUnderMore(levels: seq<Level>, l: Level, bytes: nat)
    requires Stuck(levels, bytes)
    ensures Stuck(levels + [l], bytes)
  {
    var k :| 0 <= k < |levels| && Owed(levels[k]) > bytes;
    assert (levels + [l])[k] == levels[k];
  }

  lemma NotEmptyWhenStuck(levels: seq<Level>, bytes: nat)
    requires Stuck(levels, bytes)
    ensures levels != []
  {
  }

  /** A reply with an array that is owed more elements than bytes follow is never reported. */
  lemma {:induction false} StuckNeverReports(p: SoundParser, b: string)
    requires p.state == ReadMbulk && Stuck(p.levels, |b|)
    ensures Parse(p, b).ret == 0
    decreases |b|
  {
    StuckTurn(p, b);
    IterateConsumes(p, b);
    hide Iterate, Stuck;
    match Iterate(p, b)
    case Again(q, rest) => StuckNeverReports(q, rest);
    case Return(c) =>
  }

  // ----- elements that are read to their end -----

  /** Every open array is owed elements. */
  predicate Live(levels: seq<Level>) { forall l <- levels :: l.count > 0 }

  /** How many elements the open arrays are owed. */
  function Total(levels: seq<Level>): nat
  {
    if levels == [] then 0 else Total(levels[..|levels| - 1]) + levels[|levels| - 1].count
  }

  /** An element with neither null nor empty array nor null bulk in it. */
  predicate Tame(r: Reply)
  {
    match r
    case Arr(es) => es != [] && forall e <- es :: Tame(e)
    case NullArray => false
    case NullBulk => false
    case _ => true
  }

  /** The status and error elements in it, whose lines the parser passes over. */
  function Skipped(r: Reply): nat
  {
    match r
    case Simple(_) => 1
    case Error(_) => 1
    case Arr(es) => SkippedOf(es)
    case _ => 0
  }

  function SkippedOf(es: seq<Reply>): nat
  {
    if es == [] then 0 else Skipped(es[0]) + SkippedOf(es[1..])
  }

  lemma {:induction false} BuildableIsTame(r: Reply)
    ensures Buildable(r) <==> Tame(r) && Skipped(r) == 0
    decreases r, 1
  {
    if r.Arr? {
      BuildableAreTame(r.elements);
    }
  }

  lemma {:induction false} BuildableAreTame(es: seq<Reply>)
    ensures (forall e <- es :: Buildable(e)) <==> (forall e <- es :: Tame(e)) && SkippedOf(es) == 0
    decreases es, 0
  {
    if es != [] {
      hide Buildable, Tame, Skipped;
      BuildableIsTame(es[0]);
      BuildableAreTame(es[1..]);
      assert es == [es[0]] + es[1..];
    }
  }

  lemma OneLess(levels: seq<Level>)
    requires levels != [] && Live(levels)
    ensures var left := CountDown(levels); Live(left) && Total(left) == Total(levels) - 1
  {
    var below, top := levels[..|levels| - 1], levels[|levels| - 1];
    assert AsUint32(top.count - 1) == top.count - 1;
    var left := CountDown(levels);
    if top.count > 1 {
      assert left[..|left| - 1] == below;
    }
  }

  lemma OneMore(levels: seq<Level>, l: Level)
    requires Live(levels) && l.count > 0
    ensures Live(levels + [l]) && Total(levels + [l]) == Total(levels) + l.count
  {
    assert (levels + [l])[..|levels|] == levels;
  }

  lemma EmptyOwesNothing(levels: seq<Level>)
    requires Live(levels)
    ensures levels == [] <==> Total(levels) == 0
  {
  }

  /** A line that is passed over. */
  lemma StatusSkipped(p: SoundParser, r: Reply, rest: string) returns (q: SoundParser)
    requires p.state == ReadMbulk && (r.Simple? || r.Error?) && Valid(r)
    ensures q.state == ReadMbulk && q.levels == p.levels && Reaches(p, Encode(r) + rest, q, rest)
  {
    var c := if r.Simple? then '+' else '-';
    var line := [c] + r.text;
    var b := Encode(r) + rest;
    assert b == line + "\r\n" + rest;
    TypedLine(c, r.text, rest);
    q := p.(responseLen := |line|);
    IterateConsumes(p, b);
    assert !Hasty(p, b) && Iterate(p, b) == Again(q, rest);
  }

  lemma TameLeaf(p: SoundParser, r: Reply, rest: string) returns (q: SoundParser)
    requires p.state == ReadMbulk && Live(p.levels) && (r.Integer? || r.Bulk?) && Valid(r)
    ensures Live(q.levels) && Total(q.levels) == Total(p.levels) - 1 && q.state != ReadBulk
    ensures Reaches(p, Encode(r) + rest, q, rest)
  {
    hide Encode, Reaches, Iterate, CountDown, Link, Hasty;
    OneLess(p.levels);
    match r
    case Integer(t) =>
      var p0: SoundParser := p.(responseLen := |t| + 1);
      q := AddValue(p0, Leaf(t, |t|));
      ReadsInteger(p, t, rest);
      LeafReached(p, Encode(r) + rest, q, rest);
    case Bulk(d) =>
      var p0: SoundParser := p.(responseLen := |BulkLine(d)|, bulkLen := |d|);
      q := AddValue(p0, Leaf(d, |d|));
      ReadsBulkElement(p, d, rest);
      LeafReached(p, Encode(r) + rest, q, rest);
  }

  /** The header of an array element: a new level on top of what its parent's element leaves. */
  lemma HeaderRead(p: SoundParser, es: seq<Reply>, rest: string) returns (q: SoundParser)
    requires p.state == ReadMbulk && |es| < 0x8000_0000
    ensures q.state == ReadMbulk && q.levels == CountDown(p.levels) + [Level(|es|, |p.tree|)]
    ensures var b := Encode(Arr(es)) + rest;
            && Iterate(p, b) == Again(q, EncodeAll(es) + rest) && !Hasty(p, b)
            && Parse(p, b) == Parse(q, EncodeAll(es) + rest)
  {
    ReadsArrayHeader(p, es, rest);
    IterateConsumes(p, Encode(Arr(es)) + rest);
    hide Iterate, Hasty, Encode, Link, CountDown;
    q := Iterate(p, Encode(Arr(es)) + rest).state;
  }

  /** A tame element is read to its end, and the arrays that were open are then owed one element less, and one more for
      each line passed over in it. */
  lemma {:induction false} ReadsTame(p: SoundParser, r: Reply, rest: string) returns (q: SoundParser)
    requires p.state == ReadMbulk && Live(p.levels) && Tame(r) && Valid(r)
    ensures Live(q.levels) && Total(q.levels) == Total(p.levels) - 1 + Skipped(r) && q.state != ReadBulk
    ensures Reaches(p, Encode(r) + rest, q, rest)
    decreases r, 1
  {
    hide Encode, Reaches, Iterate, Hasty, CountDown, Total;
    match r
    case Arr(es) =>
      var p1 := HeaderRead(p, es, rest);
      OneLess(p.levels);
      OneMore(CountDown(p.levels), Level(|es|, |p.tree|));
      q := ReadsTames(p1, es, rest);
      ArrayReached(p, p1, q, es, rest);
    case Simple(_) => q := StatusSkipped(p, r, rest);
    case Error(_) => q := StatusSkipped(p, r, rest);
    case _ => q := TameLeaf(p, r, rest);
  }

  lemma {:induction false} ReadsTames(p: SoundParser, es: seq<Reply>, rest: string) returns (q: SoundParser)
    requires p.state == ReadMbulk && Live(p.levels) && es != [] && Total(p.levels) >= |es|
    requires forall e <- es :: Tame(e) && Valid(e)
    ensures Live(q.levels) && Total(q.levels) == Total(p.levels) - |es| + SkippedOf(es) && q.state != ReadBulk
    ensures Reaches(p, EncodeAll(es) + rest, q, rest)
    decreases es, 0
  {
    hide Encode, Reaches, Tame, Valid, Skipped, Total;
    var tail := EncodeAll(es[1..]) + rest;
    assert EncodeAll(es) + rest == Encode(es[0]) + tail;
    q := ReadsTame(p, es[0], tail);
    if |es| == 1 {
      assert tail == rest && es[1..] == [];
    } else {
      var q1 := q;
      EmptyOwesNothing(q1.levels);
      q := ReadsTames(q1, es[1..], rest);
      ReachesTogether(p, EncodeAll(es) + rest, q1, tail, q, rest);
    }
  }

  // ----- elements that are not -----

  lemma NullLine(c: char, rest: string)
    requires c in {'$', '*'}
    ensures var line := [c] + "-1";
            && Readln(line + "\r\n" + rest) == Some(Line(line, rest))
            && FirstChar(line) == c && NumberOn(line) == -1
  {
    assert NoCrlf("-1");
    TypedLine(c, "-1", rest);
    NumberOfNull(c);
  }

  /** A null element of an array takes its length for 4 GiB - 1 and swallows every byte behind it, later replies
      included. The reply is reported if and only if this was the last element owed. */
  lemma NullElementSwallows(p: SoundParser, rest: string)
    requires p.state == ReadMbulk && 0 < |rest| < UINT_RANGE
    ensures var c := Parse(p, Encode(NullBulk) + rest);
            && c.rest == "" && c.ret == (if CountDown(p.levels) == [] then 1 else 0)
            && |c.state.tree| == |p.tree| + 1 && c.state.tree[|p.tree|] == Leaf(rest, UINT_RANGE - 1)
            && c.state.levels == CountDown(p.levels)
  {
    var b, line := Encode(NullBulk) + rest, ['$'] + "-1";
    assert b == line + "\r\n" + rest;
    NullLine('$', rest);
    IterateConsumes(p, b);
    NullElementTurn(p, line, rest);
    hide Readln, NumberOn, OnElementLine, CountDown;
    var t := Iterate(p, b);
    if t.Again? {
      WaitsOnNothing(t.state);
    }
  }

  lemma NullElementTurn(p: SoundParser, line: string, rest: string)
    requires p.state == ReadMbulk && 0 < |rest| < UINT_RANGE
    requires FirstChar(line) == '$' && NumberOn(line) == -1
    ensures var t := OnElementLine(p, line, rest);
            var q := if t.Again? then t.state else t.call.state;
            && (if CountDown(p.levels) == [] then t == Return(Call(q, "", 1))
                else t == Again(q, "") && q.state == ReadMbulk)
            && q.levels == CountDown(p.levels)
            && |q.tree| == |p.tree| + 1 && q.tree[|p.tree|] == Leaf(rest, UINT_RANGE - 1)
  {
    var n := UINT_RANGE - 1;
    assert AsUint32(NumberOn(line)) == n && AsUint32(n + 2) == 1;
    assert |Drained(Drained(rest, n), 2)| == 0 && Taken(rest, n) == rest;
    ElementLineAdds(p, line, rest);
    hide NumberOn, CString, Link, Taken, Drained, CountDown, AsUint32;
  }

  /** With nothing behind it, a null element leaves the call waiting. */
  lemma NullElementAlone(p: SoundParser)
    requires p.state == ReadMbulk
    ensures Parse(p, Encode(NullBulk) + "").ret == 0
  {
    hide NumberOn, AsUint32, Parse, Readln;
    var b, line := Encode(NullBulk) + "", ['$'] + "-1";
    assert b == line + "\r\n" + "";
    NullLine('$', "");
    NullLengthWraps();
    HeaderLost(p, b);
  }

  lemma NullLengthWraps()
    ensures AsUint32(-1) == UINT_RANGE - 1 && AsUint32(AsUint32(-1) + 2) == 1
  {
  }

  lemma ElementLineRead(p: SoundParser, b: string, line: string, rest: string)
    requires p.state == ReadMbulk && Readln(b) == Some(Line(line, rest))
    ensures Iterate(p, b) == OnElementLine(p, line, rest)
    ensures OnElementLine(p, line, rest).Again? ==>
              var t := OnElementLine(p, line, rest); |t.rest| < |b| && Parse(p, b) == Parse(t.state, t.rest)
  {
    IterateConsumes(p, b);
    hide OnElementLine, OnFirstLine, OnBulkBody, Readln;
  }

  /** A null array opens a level of 4 GiB - 1 elements. */
  lemma NullArraySticks(p: SoundParser, rest: string)
    requires p.state == ReadMbulk && |rest| < UINT_RANGE - 1
    ensures Parse(p, Encode(NullArray) + rest).ret == 0
  {
    hide Parse, Iterate, Readln, NumberOn, OnElementLine, Stuck;
    var b, line := Encode(NullArray) + rest, ['*'] + "-1";
    assert b == line + "\r\n" + rest;
    NullLine('*', rest);
    OpensMinusOne(p, line, rest);
    ElementLineRead(p, b, line, rest);
    StuckNeverReports(OnElementLine(p, line, rest).state, rest);
  }

  lemma OpensMinusOne(p: SoundParser, line: string, rest: string)
    requires p.state == ReadMbulk && |rest| < UINT_RANGE - 1
    requires FirstChar(line) == '*' && NumberOn(line) == -1
    ensures var t := OnElementLine(p, line, rest);
            t.Again? && t.rest == rest && t.state.state == ReadMbulk && Stuck(t.state.levels, |rest|)
  {
    assert AsUint32(-1) == UINT_RANGE - 1;
    hide NumberOn, CString, Link, CountDown, AsUint32;
    var q := OnElementLine(p, line, rest).state;
    assert Owed(q.levels[|q.levels| - 1]) > |rest|;
  }

  lemma EmptyArraySticks(p: SoundParser, rest: string)
    requires p.state == ReadMbulk && |rest| < UINT_RANGE
    ensures Parse(p, Encode(Arr([])) + rest).ret == 0
  {
    var p1 := HeaderRead(p, [], rest);
    assert EncodeAll([]) + rest == rest;
    assert Owed(p1.levels[|p1.levels| - 1]) > |rest|;
    hide Parse;
    StuckNeverReports(p1, rest);
  }

  /** What an element that is not tame does to the call: it waits, or it has taken everything up to the end of the
      buffer, which was more than the element, for the last value owed. */
  ghost predicate Spoils(p: SoundParser, b: string, elements: nat, tail: string)
  {
    var c := Parse(p, b);
    c.ret == 0 || (c.ret == 1 && c.rest == "" && tail != "" && Total(p.levels) == elements)
  }

  lemma NullSpoils(p: SoundParser, tail: string)
    requires p.state == ReadMbulk && Live(p.levels) && |tail| < UINT_RANGE
    ensures Spoils(p, Encode(NullBulk) + tail, 1, tail)
  {
    hide Parse, Encode, Total, CountDown;
    if tail == "" {
      NullElementAlone(p);
    } else {
      NullElementSwallows(p, tail);
      OneLess(p.levels);
      EmptyOwesNothing(CountDown(p.levels));
    }
  }

  lemma {:induction false} WildSpoils(p: SoundParser, r: Reply, tail: string)
    requires p.state == ReadMbulk && Live(p.levels) && Valid(r) && !Tame(r)
    requires |Encode(r) + tail| < UINT_RANGE - 1
    ensures Spoils(p, Encode(r) + tail, 1, tail)
    decreases r, 1
  {
    match r
    case NullBulk => NullSpoils(p, tail);
    case NullArray => NullArraySticks(p, tail);
    case Arr(es) =>
      if es == [] {
        EmptyArraySticks(p, tail);
      } else {
        var p1 := HeaderRead(p, es, tail);
        assert |EncodeAll(es) + tail| <= |Encode(r) + tail|;
        hide Parse, Encode, Total, CountDown, Iterate, Hasty, Tame, Valid;
        OneLess(p.levels);
        OneMore(CountDown(p.levels), Level(|es|, |p.tree|));
        WildsSpoil(p1, es, tail);
      }
  }

  lemma {:induction false} WildsSpoil(p: SoundParser, es: seq<Reply>, tail: string)
    requires p.state == ReadMbulk && Live(p.levels) && Total(p.levels) >= |es|
    requires (forall e <- es :: Valid(e)) && (exists e <- es :: !Tame(e))
    requires |EncodeAll(es) + tail| < UINT_RANGE - 1
    ensures Spoils(p, EncodeAll(es) + tail, |es|, tail)
    decreases es, 0
  {
    hide Parse, Encode, Total, Tame, Valid, Skipped;
    var next := EncodeAll(es[1..]) + tail;
    assert EncodeAll(es) + tail == Encode(es[0]) + next;
    if Tame(es[0]) {
      var q := ReadsTame(p, es[0], next);
      EmptyOwesNothing(q.levels);
      WildsSpoil(q, es[1..], tail);
    } else {
      WildSpoils(p, es[0], next);
      if |es| == 1 { assert next == tail; }
    }
  }

  // ----- exactly which arrays are reported as sent -----

  /** With status or error elements in it the array is left short, and what follows it is read as elements. */
  lemma ShortSpoils(p: SoundParser, es: seq<Reply>, rest: string)
    requires p.state == ReadMbulk && Live(p.levels) && Total(p.levels) == |es| && es != []
    requires (forall e <- es :: Tame(e) && Valid(e)) && SkippedOf(es) > 0
    ensures var c := Parse(p, EncodeAll(es) + rest); c.ret == 0 || |c.rest| < |rest|
  {
    var q := ReadsTames(p, es, rest);
    EmptyOwesNothing(q.levels);
    hide Parse, Total, SkippedOf;
    CallRests(q, rest);
  }

  lemma NotReported(p: SoundParser, es: seq<Reply>, rest: string)
    requires p.state == ReadMbulk && |es| < 0x8000_0000 && p.levels == [Level(|es|, 0)]
    requires (forall e <- es :: Valid(e)) && !Buildable(Arr(es)) && |EncodeAll(es) + rest| < UINT_RANGE - 1
    ensures var c := Parse(p, EncodeAll(es) + rest); c.ret == 0 || c.rest != rest
  {
    hide Parse, Encode, Valid, Tame, Skipped;
    if es == [] {
      assert EncodeAll(es) + rest == rest;
      assert Owed(p.levels[0]) > |rest|;
      StuckNeverReports(p, rest);
    } else {
      assert p.levels[..0] == [];
      BuildableAreTame(es);
      if forall e <- es :: Tame(e) {
        ShortSpoils(p, es, rest);
      } else {
        WildsSpoil(p, es, rest);
      }
    }
  }

  /** Exactly which array replies are reported, with their tree and up to their last byte: those made of integers, bulk
      strings and arrays with elements. */
  lemma ParsedIffBuildable(p: SoundParser, r: Reply, rest: string)
    requires p.state == Initial && r.Arr? && Valid(r) && |Encode(r) + rest| < UINT_RANGE - 1
    ensures var c := Parse(p, Encode(r) + rest);
            && (c.ret == 1 && c.rest == rest <==> Buildable(r))
            && (Buildable(r) ==> Holds(c.state.tree, r))
  {
    hide Parse, Holds;
    if Buildable(r) {
      BuildsTree(p, r, rest);
    } else {
      var es := r.elements;
      var q1 := ReadsRootHeader(p, es, rest);
      assert |EncodeAll(es) + rest| <= |Encode(r) + rest|;
      hide Encode;
      NotReported(q1, es, rest);
    }
  }
}
