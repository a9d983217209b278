/** Streams of redis replies with arrays in them: where they may be cut. */
module RedisStreams {
  import opened CText
  import opened Fragmentation
  import opened RedisReply
  import opened RedisArrays

  /** What the parser reports as sent: everything but arrays with empty arrays, nulls or status lines in them. */
  ghost predicate Sendable(r: Reply) { Valid(r) && (Flat(r) || Buildable(r)) }

  // ----- positions -----

  function HeaderLength(n: nat): nat { |"*" + Dec(n)| + 2 }

  /** A cut `k` bytes into this element of an array falls between the end of a bulk's header line and the bulk's last
      byte. */
  predicate InGap(r: Reply, k: int)
  {
    match r
    case Bulk(d) => |BulkLine(d)| + 2 <= k < |Encode(r)|
    case Arr(es) => AnyInGap(es, k - HeaderLength(|es|))
    case _ => false
  }

  predicate AnyInGap(es: seq<Reply>, k: int)
  {
    es != [] && (InGap(es[0], k) || AnyInGap(es[1..], k - |Encode(es[0])|))
  }

  /** The same for a cut `k` bytes into a stream: only bulks inside arrays have such a gap. */
  predicate CutInGap(rs: seq<Reply>, k: int)
  {
    rs != [] && ((rs[0].Arr? && InGap(rs[0], k)) || CutInGap(rs[1..], k - |Encode(rs[0])|))
  }

  lemma {:induction false} NoGapBehind(r: Reply, k: int)
    requires k >= |Encode(r)| || k < 0
    ensures !InGap(r, k)
    decreases r, 1
  {
    if r.Arr? {
      NoGapsBehind(r.elements, k - HeaderLength(|r.elements|));
    }
  }

  lemma {:induction false} NoGapsBehind(es: seq<Reply>, k: int)
    requires k >= |EncodeAll(es)| || k < 0
    ensures !AnyInGap(es, k)
    decreases es, 0
  {
    if es != [] {
      hide Encode, InGap;
      NoGapBehind(es[0], k);
      NoGapsBehind(es[1..], k - |Encode(es[0])|);
    }
  }

  lemma {:induction false} NoCutBefore(rs: seq<Reply>, k: int)
    requires k < 0
    ensures !CutInGap(rs, k)
    decreases |rs|
  {
    if rs != [] {
      hide Encode, InGap;
      NoGapBehind(rs[0], k);
      NoCutBefore(rs[1..], k - |Encode(rs[0])|);
    }
  }

  // ----- the call that meets the cut -----

  /** A line that has not all come is not there. */
  lemma LineCut(b: string, k: nat)
    requires Readln(b).Some? && k < |Readln(b).value.text| + 2
    ensures Readln(b[..k]).None?
  {
    if Readln(b[..k]).Some? {
      assert b == b[..k] + b[k..];
      ReadlnExtends(b[..k], b[k..]);
    }
  }

  lemma WaitsForRest(p: SoundParser, b: string)
    requires p.state != ReadBulk && Readln(b).None?
    ensures !Fragile(p, b)
  {
    IterateConsumes(p, b);
  }

  lemma CutInteger(p: SoundParser, t: string, k: nat)
    requires p.state == ReadMbulk && Valid(Integer(t)) && k < |Encode(Integer(t))|
    ensures !Fragile(p, Encode(Integer(t))[..k])
  {
    var b := Encode(Integer(t));
    assert b == [':'] + t + "\r\n" + "";
    TypedLine(':', t, "");
    LineCut(b, k);
    WaitsForRest(p, b[..k]);
  }

  lemma BulkHeaderRead(d: string)
    requires |d| < 0x8000_0000
    ensures Readln(Encode(Bulk(d))) == Some(Line(BulkLine(d), d + "\r\n"))
    ensures FirstChar(BulkLine(d)) == '$' && NumberOn(BulkLine(d)) == |d|
    ensures forall k :: |BulkLine(d)| + 2 <= k <= |Encode(Bulk(d))| ==>
              Readln(Encode(Bulk(d))[..k]) == Some(Line(BulkLine(d), (d + "\r\n")[..k - |BulkLine(d)| - 2]))
  {
    var line, body := BulkLine(d), d + "\r\n";
    var b := Encode(Bulk(d));
    assert NoCrlf(Dec(|d|)) && line == ['$'] + Dec(|d|);
    assert b == line + "\r\n" + body;
    TypedLine('$', Dec(|d|), body);
    NumberOf('$', |d|);
    forall k | |line| + 2 <= k <= |b| ensures Readln(b[..k]) == Some(Line(line, body[..k - |line| - 2])) {
      assert b[..k] == line + "\r\n" + body[..k - |line| - 2];
      TypedLine('$', Dec(|d|), body[..k - |line| - 2]);
    }
  }

  lemma CutBulk(p: SoundParser, d: string, k: nat)
    requires p.state == ReadMbulk && Valid(Bulk(d)) && k < |Encode(Bulk(d))|
    ensures Fragile(p, Encode(Bulk(d))[..k]) <==> InGap(Bulk(d), k)
  {
    var b := Encode(Bulk(d));
    BulkHeaderRead(d);
    BulkText(d, "");
    hide NumberOn, Readln, Encode, BulkLine, Iterate;
    if k < |BulkLine(d)| + 2 {
      LineCut(b, k);
      WaitsForRest(p, b[..k]);
    } else {
      assert Hasty(p, b[..k]);
    }
  }

  lemma HeaderCut(es: seq<Reply>, k: nat)
    requires |es| < 0x8000_0000 && k <= |Encode(Arr(es))|
    ensures |Encode(Arr(es))| == HeaderLength(|es|) + |EncodeAll(es)|
    ensures k < HeaderLength(|es|) ==> Readln(Encode(Arr(es))[..k]).None?
    ensures k >= HeaderLength(|es|) ==>
              Encode(Arr(es))[..k] == "*" + Dec(|es|) + "\r\n" + EncodeAll(es)[..k - HeaderLength(|es|)]
  {
    var line, b := "*" + Dec(|es|), Encode(Arr(es));
    assert NoCrlf(Dec(|es|));
    TypedLine('*', Dec(|es|), EncodeAll(es));
    assert b == line + "\r\n" + EncodeAll(es);
    hide Encode, Dec, Readln;
    if k < HeaderLength(|es|) {
      LineCut(b, k);
    } else {
      Behind(line + "\r\n", EncodeAll(es), k);
    }
  }

  lemma Behind(head: string, tail: string, k: nat)
    requires |head| <= k <= |head + tail|
    ensures (head + tail)[..k] == head + tail[..k - |head|]
  {
  }

  lemma OpensArray(p: SoundParser, line: string, n: nat, body: string) returns (q: SoundParser)
    requires p.state == ReadMbulk && FirstChar(line) == '*' && NumberOn(line) == n && 0 < n < 0x8000_0000
    ensures q.state == ReadMbulk && Top(q).count == n && OnElementLine(p, line, body) == Again(q, body)
  {
    hide NumberOn, CString, Link, CountDown;
    q := OnElementLine(p, line, body).state;
  }

  /** A header that is all there, with any text behind it. */
  lemma HeaderTurn(p: SoundParser, n: nat, body: string) returns (q: SoundParser)
    requires p.state == ReadMbulk && 0 < n < 0x8000_0000
    ensures q.state == ReadMbulk && Top(q).count == n
    ensures var b := "*" + Dec(n) + "\r\n" + body;
            Fragile(p, b) == Fragile(q, body) && Parse(p, b) == Parse(q, body)
  {
    hide NumberOn, Dec, Readln, OnElementLine, OnFirstLine, OnBulkBody;
    var line := "*" + Dec(n);
    var b := line + "\r\n" + body;
    assert NoCrlf(Dec(n));
    TypedLine('*', Dec(n), body);
    NumberOf('*', n);
    q := OpensArray(p, line, n, body);
    IterateConsumes(p, b);
    assert Iterate(p, b) == Again(q, body) && !Hasty(p, b);
    hide Iterate, Hasty;
  }

  /** Exactly which cuts of an element make the call hasty. */
  lemma {:induction false} CutElement(p: SoundParser, r: Reply, k: nat)
    requires p.state == ReadMbulk && Top(p).count >= 1
    requires Buildable(r) && Valid(r) && k < |Encode(r)|
    ensures Fragile(p, Encode(r)[..k]) <==> InGap(r, k)
    decreases r, 1
  {
    match r
    case Integer(t) => CutInteger(p, t, k);
    case Bulk(d) => CutBulk(p, d, k);
    case Arr(es) =>
      hide Fragile, Encode, InGap, Buildable, Valid;
      if k < HeaderLength(|es|) { CutInHeader(p, es, k); } else { CutBody(p, es, k); }
  }

  lemma {:induction false} CutBody(p: SoundParser, es: seq<Reply>, k: nat)
    requires p.state == ReadMbulk && 0 < |es| < 0x8000_0000
    requires (forall e <- es :: Buildable(e) && Valid(e)) && HeaderLength(|es|) <= k < |Encode(Arr(es))|
    ensures Fragile(p, Encode(Arr(es))[..k]) <==> InGap(Arr(es), k)
    decreases Arr(es), 0
  {
    hide Fragile, Parse, Encode, HeaderLength, Dec, Buildable, Valid, Readln;
    HeaderCut(es, k);
    var body := k - HeaderLength(|es|);
    var q := HeaderTurn(p, |es|, EncodeAll(es)[..body]);
    CutElements(q, es, body);
  }

  lemma CutInHeader(p: SoundParser, es: seq<Reply>, k: nat)
    requires p.state != ReadBulk && |es| < 0x8000_0000 && k < HeaderLength(|es|) && k <= |Encode(Arr(es))|
    ensures !Fragile(p, Encode(Arr(es))[..k]) && !InGap(Arr(es), k)
  {
    hide Fragile, Encode, EncodeAll, HeaderLength, Readln;
    HeaderCut(es, k);
    WaitsForRest(p, Encode(Arr(es))[..k]);
    NoGapsBehind(es, k - HeaderLength(|es|));
  }

  /** The first of several elements, complete: the call goes on as if it began behind it. */
  lemma BehindFirst(p: SoundParser, es: seq<Reply>, tail: string) returns (q: SoundParser)
    requires p.state == ReadMbulk && |es| > 1 && Top(p).count >= |es|
    requires Buildable(es[0]) && Valid(es[0])
    ensures q.state == ReadMbulk && Top(q).count >= |es| - 1
    ensures Fragile(p, Encode(es[0]) + tail) == Fragile(q, tail)
  {
    hide Fragile, Parse, Encode, Buildable, Valid, Grew, LevelsAfter;
    q := BuildsOne(p, es[0], tail);
    LevelsTogether(p.levels, |es| - 1);
  }

  lemma EncodedCut(es: seq<Reply>, k: nat)
    requires es != [] && k <= |EncodeAll(es)|
    ensures k < |Encode(es[0])| ==> EncodeAll(es)[..k] == Encode(es[0])[..k]
    ensures k >= |Encode(es[0])| ==>
              && k - |Encode(es[0])| <= |EncodeAll(es[1..])|
              && EncodeAll(es)[..k] == Encode(es[0]) + EncodeAll(es[1..])[..k - |Encode(es[0])|]
  {
    hide Encode;
  }

  lemma {:induction false} CutElements(p: SoundParser, es: seq<Reply>, k: nat)
    requires p.state == ReadMbulk && es != [] && Top(p).count >= |es|
    requires (forall e <- es :: Buildable(e) && Valid(e)) && k < |EncodeAll(es)|
    ensures Fragile(p, EncodeAll(es)[..k]) <==> AnyInGap(es, k)
    decreases es, 0
  {
    hide Fragile, Parse, Encode, Buildable, Valid, InGap;
    var n := |Encode(es[0])|;
    EncodedCut(es, k);
    if k < n {
      CutElement(p, es[0], k);
      NoGapsBehind(es[1..], k - n);
    } else {
      NoGapBehind(es[0], k);
      assert |es| > 1;
      var q := BehindFirst(p, es, EncodeAll(es[1..])[..k - n]);
      CutElements(q, es[1..], k - n);
    }
  }

  // ----- whole replies -----

  /** The parser has reported this reply as it was sent. */
  ghost predicate Reported(s: RedisParser, r: Reply, keepValue: bool)
    requires Sendable(r)
  {
    if Flat(r) then s.last == Expected(r, keepValue) else Holds(s.tree, r)
  }

  lemma WholeReply(p: Resting, r: Reply, rest: string)
    requires p.state == Initial && Sendable(r)
    ensures var c := Parse(p, Encode(r) + rest);
            && c.ret == 1 && c.rest == rest && c.state.state == Initial && c.state.keepValue == p.keepValue
            && Reported(c.state, r, p.keepValue)
    ensures !Fragile(p, Encode(r) + rest)
  {
    hide Parse, Fragile, Encode, Expected, Holds, Valid, Buildable, RedisReply.Risk;
    FlagSurvives(p, Encode(r) + rest);
    if Flat(r) {
      ParsesFlat(p, r, rest);
      RiskCoversFragile(p, Encode(r) + rest);
    } else {
      BuildsTree(p, r, rest);
    }
  }

  lemma CutFlat(p: Resting, r: Reply, k: nat)
    requires p.state == Initial && Flat(r) && Valid(r) && k < |Encode(r)|
    ensures !Fragile(p, Encode(r)[..k])
  {
    hide Parse, Fragile, Encode, Expected, Valid, RedisReply.Risk;
    var b := Encode(r);
    assert b + "" == b && b == b[..k] + b[k..];
    ParsesFlat(p, r, "");
    if RedisReply.Risk(p, b[..k]) {
      RiskGrows(p, b[..k], b[k..]);
    }
    RiskCoversFragile(p, b[..k]);
  }

  lemma CutRoot(p: SoundParser, es: seq<Reply>, k: nat)
    requires p.state == Initial && Buildable(Arr(es)) && Valid(Arr(es)) && k < |Encode(Arr(es))|
    ensures Fragile(p, Encode(Arr(es))[..k]) <==> InGap(Arr(es), k)
  {
    hide Fragile, Parse, Encode, HeaderLength, Readln, Dec;
    var h := HeaderLength(|es|);
    HeaderCut(es, k);
    if k < h {
      CutInHeader(p, es, k);
    } else {
      var q := ReadsRootLine(p, |es|, EncodeAll(es)[..k - h]);
      CutElements(q, es, k - h);
    }
  }

  /** A reply that is cut leaves the call waiting, unless the cut is in a gap. */
  lemma CutReply(p: Resting, r: Reply, k: nat)
    requires p.state == Initial && Sendable(r) && k < |Encode(r)|
    ensures Fragile(p, Encode(r)[..k]) <==> r.Arr? && InGap(r, k)
    ensures !Fragile(p, Encode(r)[..k]) ==> Parse(p, Encode(r)[..k]).ret == 0
  {
    hide Parse, Fragile, Encode, InGap, Reported;
    var b := Encode(r);
    if Flat(r) { CutFlat(p, r, k); } else { CutRoot(p, r.elements, k); }
    if !Fragile(p, b[..k]) {
      assert b + "" == b && b == b[..k] + b[k..];
      WholeReply(p, r, "");
      Extends(p, b[..k], b[k..]);
    }
  }

  // ----- streams -----

  lemma NothingYet(p: Resting)
    requires p.state == Initial
    ensures !Fragile(p, "") && Parse(p, "").ret == 0 && Parse(p, "").rest == ""
  {
    WaitsOnNothing(p);
    assert Readln("").None?;
  }

  /** Exactly where a read may end, whatever follows: outside the gaps. */
  lemma {:induction false} SettledIffNoGap(p: Resting, rs: seq<Reply>, k: nat)
    requires p.state == Initial && (forall r <- rs :: Sendable(r)) && k <= |EncodeAll(rs)|
    ensures Progress(ParseCall)
    ensures Settled(ParseCall, p, EncodeAll(rs)[..k]) <==> !CutInGap(rs, k)
    decreases |rs|
  {
    EveryReportConsumes();
    hide Parse, Fragile, Encode, InGap, Sendable, Reported;
    var b := EncodeAll(rs)[..k];
    StableIffNotFragile(p, b);
    var c := ParseCall(p, b);
    if rs == [] {
      NothingYet(p);
      assert b == "";
    } else {
      var n := |Encode(rs[0])|;
      EncodedCut(rs, k);
      if k < n {
        CutReply(p, rs[0], k);
        NoCutBefore(rs[1..], k - n);
      } else {
        var next := EncodeAll(rs[1..])[..k - n];
        NoGapBehind(rs[0], k);
        WholeReply(p, rs[0], next);
        SettledIffNoGap(c.state, rs[1..], k - n);
      }
    }
  }

  lemma {:induction false} PumpsStream(p: Resting, rs: seq<Reply>)
    requires p.state == Initial && (forall r <- rs :: Sendable(r)) && Progress(ParseCall)
    ensures Quiet(ParseCall, p, EncodeAll(rs))
    ensures var u := Pump(ParseCall, p, EncodeAll(rs));
            u.rest == [] && |u.reports| == |rs| &&
            forall i :: 0 <= i < |rs| ==> u.reports[i].0 == 1 && Reported(u.reports[i].1, rs[i], p.keepValue)
    decreases |rs|
  {
    hide Parse, Fragile, Encode, Sendable, Reported;
    if rs == [] {
      NothingYet(p);
    } else {
      var r, tail := rs[0], EncodeAll(rs[1..]);
      WholeReply(p, r, tail);
      var c := ParseCall(p, EncodeAll(rs));
      assert c.rest == tail;
      PumpsStream(c.state, rs[1..]);
    }
  }

  /** However a stream of replies is cut, as long as no cut falls in a gap, the client sees exactly these replies,
      arrays with their trees, in order, and nothing is left over. */
  lemma HarmlessCuts(p: Resting, rs: seq<Reply>, chunks: seq<string>)
    requires p.state == Initial && (forall r <- rs :: Sendable(r)) && Join(chunks) == EncodeAll(rs)
    requires forall i :: 0 < i <= |chunks| ==> !CutInGap(rs, |Join(chunks[..i])|)
    ensures Progress(ParseCall)
    ensures var u := Deliver(ParseCall, p, [], chunks);
            u.rest == [] && |u.reports| == |rs| &&
            forall i :: 0 <= i < |rs| ==> u.reports[i].0 == 1 && Reported(u.reports[i].1, rs[i], p.keepValue)
  {
    EveryReportConsumes();
    hide Parse, Fragile, Encode, Sendable, Reported, CutInGap;
    var stream := EncodeAll(rs);
    forall i | 0 < i <= |chunks| ensures Settled(ParseCall, p, [] + Join(chunks[..i])) {
      var k := |Join(chunks[..i])|;
      JoinSplits(chunks, i);
      assert [] + Join(chunks[..i]) == stream[..k];
      SettledIffNoGap(p, rs, k);
    }
    assert [] + stream == stream;
    PumpsStream(p, rs);
    ChunksEqualWhole(ParseCall, p, [], chunks);
  }

  // ----- what a cut in a gap does -----

  lemma AddsLast(p: SoundParser, value: Node)
    requires p.levels != [] && value.Leaf?
    ensures var q := AddValue(p, value); |q.tree| == |p.tree| + 1 && q.tree[|p.tree|] == value
  {
    hide CountDown;
  }

  lemma EndsBehind(p: SoundParser, b: string, q: SoundParser)
    requires Iterate(p, b) == Continue(q, "") && q.state != ReadBulk
    ensures Parse(p, b).state.tree == q.tree
  {
    IterateConsumes(p, b);
    hide Iterate;
    if q.levels != [] {
      WaitsOnNothing(q);
    }
  }

  /** Whole, the bulk becomes the next element. */
  lemma WholeBulk(p: SoundParser, d: string)
    requires p.state == ReadMbulk && |d| < 0x8000_0000
    ensures var c := Parse(p, Encode(Bulk(d)) + "");
            |c.state.tree| == |p.tree| + 1 && c.state.tree[|p.tree|] == Leaf(d, |d|)
  {
    hide Iterate, Parse, Encode, Link, CountDown, BulkLine, Continue, Hasty;
    var p0: SoundParser := p.(responseLen := |BulkLine(d)|, bulkLen := |d|);
    ReadsBulkElement(p, d, "");
    AddsLast(p0, Leaf(d, |d|));
    EndsBehind(p, Encode(Bulk(d)) + "", AddValue(p0, Leaf(d, |d|)));
  }

  /** A bulk element cut in its gap is lost if nothing follows it: whatever the stack and wherever in the gap, the first
      read builds nothing, and what the second makes of the rest of the element is never this element. */
  lemma CutElementIsLost(p: SoundParser, d: string, k: nat)
    requires p.state == ReadMbulk && |d| < 0x8000_0000 && InGap(Bulk(d), k)
    ensures var b := Encode(Bulk(d));
            var whole := Parse(p, b);
            var first := Parse(p, b[..k]);
            var second := Parse(first.state, first.rest + b[k..]);
            && |whole.state.tree| == |p.tree| + 1 && whole.state.tree[|p.tree|] == Leaf(d, |d|)
            && first.ret == 0 && first.state.state == ReadMbulk && first.state.tree == p.tree
            && first.state.levels == p.levels
            && (|second.state.tree| > |p.tree| ==> second.state.tree[|p.tree|] != Leaf(d, |d|))
  {
    var b, h := Encode(Bulk(d)), |BulkLine(d)| + 2;
    BulkText(d, "");
    BulkHeaderRead(d);
    WholeBulk(p, d);
    assert b + "" == b;
    hide NumberOn, Readln, Encode, BulkLine, Parse;
    HeaderLost(p, b[..k]);
    var first := Parse(p, b[..k]);
    assert |first.rest + b[k..]| == |d| + 2;
    FirstNewElementIsShort(first.state, first.rest + b[k..]);
  }

  /** With the header of a next element behind it, a lost element can reappear: its text need only look like that header
      over and over. */
  lemma ElementReappears(p: SoundParser)
    requires p.state == ReadMbulk
    ensures var d, header := "$13\r\n$13\r\n$13", "$13\r\n";
            var b := Encode(Bulk(d));
            var first := Parse(p, b[..5]);
            var second := Parse(first.state, first.rest + (b[5..] + header));
            && InGap(Bulk(d), 5) && first.ret == 0 && first.state.tree == p.tree
            && |second.state.tree| == |p.tree| + 1 && second.state.tree[|p.tree|] == Leaf(d, |d|)
  {
    hide Encode, BulkLine, Parse, Dec;
    var d, header := "$13\r\n$13\r\n$13", "$13\r\n";
    Repeats(d, header);
    CutRepeats(p, d, Encode(Bulk(d)));
    WholeBulk(Parse(p, header).state, d);
  }

  lemma Repeats(d: string, header: string)
    requires d == "$13\r\n$13\r\n$13" && header == "$13\r\n"
    ensures var b := Encode(Bulk(d));
            && |b| == 20 && |BulkLine(d)| == 3 && b[..5] == header && "" + (b[5..] + header) == b + ""
            && InGap(Bulk(d), 5)
  {
    assert Dec(13) == "13";
    var b := Encode(Bulk(d));
    assert b == header + (d + "\r\n");
    assert b[5..] == d + "\r\n";
  }

  lemma CutRepeats(p: SoundParser, d: string, b: string)
    requires p.state == ReadMbulk && |d| == 13 && b == Encode(Bulk(d)) && |BulkLine(d)| == 3 && |b| == 20
    ensures var c := Parse(p, b[..5]);
            c.ret == 0 && c.rest == "" && c.state.state == ReadMbulk && c.state.tree == p.tree
  {
    BulkHeaderRead(d);
    hide NumberOn, Readln, Encode, BulkLine, Parse, AsUint32;
    FitsUint(15);
    HeaderLost(p, b[..5]);
  }

  lemma FitsUint(n: UInt)
    ensures AsUint32(n) == n
  {
  }
}
