/** What the redis parser makes of the replies a server sends, array replies included. */
module RedisArrays {
  import opened CText
  import opened Protocol
  import opened Fragmentation
  import opened RedisReply

  /** The Redis serialization protocol: simple strings, errors, integers, bulk strings and arrays. */
  datatype Reply =
    | Simple(text: string)
    | Error(text: string)
    | Integer(text: string)
    | Bulk(data: string)
    | NullBulk
    | NullArray
    | Arr(elements: seq<Reply>)

  function Encode(r: Reply): string
  {
    match r
    case Simple(t) => "+" + t + "\r\n"
    case Error(t) => "-" + t + "\r\n"
    case Integer(t) => ":" + t + "\r\n"
    case Bulk(d) => "$" + Dec(|d|) + "\r\n" + (d + "\r\n")
    case NullBulk => "$-1\r\n"
    case NullArray => "*-1\r\n"
    case Arr(es) => "*" + Dec(|es|) + "\r\n" + EncodeAll(es)
  }

  function EncodeAll(rs: seq<Reply>): string
  {
    if rs == [] then "" else Encode(rs[0]) + EncodeAll(rs[1..])
  }

  /** Texts are single lines, lengths fit in an `int`. */
  ghost predicate Valid(r: Reply)
  {
    match r
    case Simple(t) => NoCrlf(t)
    case Error(t) => NoCrlf(t)
    case Integer(t) => NoCrlf(t) && '\0' !in t && |t| < 0x8000_0000
    case Bulk(d) => |d| < 0x8000_0000
    case Arr(es) => |es| < 0x8000_0000 && forall e <- es :: Valid(e)
    case _ => true
  }

  // ----- lines -----

  lemma NumberOf(c: char, n: nat)
    requires n < 0x8000_0000
    ensures NumberOn([c] + Dec(n)) == n && NoCrlf([c] + Dec(n) + "")
  {
    assert ([c] + Dec(n))[1..] == Dec(n) + "";
    StrtolOf(n, "");
    assert forall i :: 1 <= i < |[c] + Dec(n)| ==> IsDigit(([c] + Dec(n))[i]);
  }

  lemma NumberOfNull(c: char)
    ensures NumberOn([c] + "-1") == -1
  {
    var s := "-1";
    assert ([c] + s)[1..] == s;
    assert s[1..] == "1" && "1"[1..] == "" && "1"[..1] == "1";
    assert DigitRun("1") == 1;
    assert "1"[..0] == "";
    assert DigitsValue("1") == 1;
    assert SpaceRun(s) == 0;
    assert ScanNumber(s) == Scan(true, 1, 2);
  }

  lemma TypedLine(c: char, text: string, rest: string)
    requires NoCrlf(text) && c != '\r'
    ensures Readln([c] + text + "\r\n" + rest) == Some(Line([c] + text, rest))
    ensures FirstChar([c] + text) == c && ([c] + text)[1..] == text
  {
    var line := [c] + text;
    assert forall i :: 0 <= i < |line| && CrlfAt(line, i) ==> i > 0 && CrlfAt(text, i - 1);
    ReadlnOf(line, rest);
  }

  // ----- replies that are not arrays -----

  predicate Flat(r: Reply) { !r.Arr? }

  /** The first line without its CRLF. */
  function StatusLine(r: Reply): string
    requires Flat(r)
  {
    match r
    case Simple(t) => "+" + t
    case Error(t) => "-" + t
    case Integer(t) => ":" + t
    case Bulk(d) => "$" + Dec(|d|)
    case NullBulk => "$-1"
    case NullArray => "*-1"
  }

  /** What the parser should report: the line as status, an error flag for "-", and for a bulk the hit, the value if it
      is kept, and the number of bytes read. */
  function Expected(r: Reply, keepValue: bool): Response
    requires Flat(r)
  {
    var kept := r.Bulk? && keepValue && r.data != "";
    Response(
      Some(StatusLine(r)),
      if kept then Some(r.data) else None,
      if kept then AsUint32(|r.data|) else 0,
      if r.NullBulk? || r.NullArray? then 0 else AsUint32(|Encode(r)|),
      if r.Bulk? && r.data != "" then 1 else 0,
      r.Error?)
  }

  lemma ParsesLine(p: SoundParser, c: char, text: string, rest: string)
    requires p.state == Initial && NoCrlf(text) && c in {'+', '-', ':'}
    ensures var b := [c] + text + "\r\n" + rest;
            var u := Parse(p, b);
            && u.ret == 1 && u.rest == rest && u.state.state == Initial
            && u.state.last == Response(Some([c] + text), None, 0, AsUint32(|text| + 3), 0, c == '-')
            && Iterate(p, b).Return?
  {
    TypedLine(c, text, rest);
    hide NumberOn;
  }

  lemma ParsesNull(p: SoundParser, c: char, rest: string)
    requires p.state == Initial && c in {'$', '*'}
    ensures var b := [c] + "-1" + "\r\n" + rest;
            var u := Parse(p, b);
            && u.ret == 1 && u.rest == rest && u.state.state == Initial
            && u.state.last == Response(Some([c] + "-1"), None, 0, 0, 0, false)
            && Iterate(p, b).Return?
  {
    assert NoCrlf("-1");
    TypedLine(c, "-1", rest);
    NumberOfNull(c);
    hide NumberOn;
  }

  lemma ReadsBulkHeader(p: SoundParser, d: string, rest: string)
    requires p.state == Initial && |d| < 0x8000_0000
    ensures var line := BulkLine(d);
            var q: SoundParser := p.(responseLen := |line| + 2, last := Cleared.(status := Some(line)), tree := [],
                                bulkLen := |d|, state := ReadBulk);
            Iterate(p, line + "\r\n" + rest) == Again(q, rest)
  {
    hide NumberOn, Readln, OnElementLine, OnBulkBody, Dec;
    assert NoCrlf(Dec(|d|));
    TypedLine('$', Dec(|d|), rest);
    BulkFirstLine(p, d, rest);
    hide OnFirstLine, Cleaned;
  }

  lemma BulkFirstLine(p: SoundParser, d: string, rest: string)
    requires p.state == Initial && |d| < 0x8000_0000
    ensures var line := BulkLine(d);
            var q: SoundParser := p.(responseLen := |line| + 2, last := Cleared.(status := Some(line)), tree := [],
                                bulkLen := |d|, state := ReadBulk);
            OnFirstLine(p, line, rest) == Again(q, rest)
  {
    NumberOf('$', |d|);
    hide NumberOn, Dec;
  }

  lemma ReadsBulkBody(p: SoundParser, d: string, rest: string)
    requires p.state == ReadBulk && p.bulkLen == |d| < 0x8000_0000
    ensures var u := Parse(p, d + "\r\n" + rest);
            var last := if p.keepValue && d != "" then p.last.(value := Some(d), valueLen := |d|) else p.last;
            && u.ret == 1 && u.rest == rest && u.state.state == Initial
            && u.state.last == last.(totalLen := AsUint32(p.responseLen + |d| + 2),
                                     hits := if d != "" then last.hits + 1 else last.hits)
  {
    var b := d + "\r\n" + rest;
    assert Taken(b, |d|) == d;
    assert Drained(Drained(b, |d|), 2) == rest;
    assert Drained(b, |d| + 2) == rest;
    hide Taken, Drained;
  }

  function BulkLine(d: string): string { "$" + Dec(|d|) }

  lemma BulkText(d: string, rest: string)
    ensures Encode(Bulk(d)) + rest == BulkLine(d) + "\r\n" + (d + "\r\n" + rest)
    ensures |Encode(Bulk(d))| == |BulkLine(d)| + 2 + |d| + 2
  {
  }

  lemma ExpectedBulk(d: string, keepValue: bool)
    requires |d| < 0x8000_0000
    ensures var start := Cleared.(status := Some(BulkLine(d)));
            var last := if keepValue && d != "" then start.(value := Some(d), valueLen := |d|) else start;
            Expected(Bulk(d), keepValue) ==
            last.(totalLen := AsUint32(|BulkLine(d)| + 2 + |d| + 2), hits := if d != "" then 1 else 0)
  {
    BulkText(d, "");
    hide Encode, Dec;
  }

  lemma ParsesBulk(p: SoundParser, d: string, rest: string)
    requires p.state == Initial && |d| < 0x8000_0000
    ensures var b := Encode(Bulk(d)) + rest;
            var u := Parse(p, b);
            && u.ret == 1 && u.rest == rest && u.state.state == Initial
            && u.state.last == Expected(Bulk(d), p.keepValue)
            && Iterate(p, b).Again? && Iterate(p, b).state.state == ReadBulk && Iterate(p, b).state.bulkLen == |d|
  {
    hide Iterate, Parse, AsUint32, Encode, Dec, BulkLine, Expected;
    var body := d + "\r\n" + rest;
    BulkText(d, rest);
    ReadsBulkHeader(p, d, body);
    FirstTurnRest(p, BulkLine(d) + "\r\n" + body);
    ReadsBulkBody(Iterate(p, BulkLine(d) + "\r\n" + body).state, d, rest);
    ExpectedBulk(d, p.keepValue);
  }

  /** A reply of one line. */
  lemma ParsesTyped(p: Resting, r: Reply, c: char, text: string, rest: string)
    requires p.state == Initial && NoCrlf(text)
    requires r in {Simple(text), Error(text), Integer(text)}
    requires c == if r.Simple? then '+' else if r.Error? then '-' else ':'
    ensures var u := Parse(p, Encode(r) + rest);
            u.ret == 1 && u.rest == rest && u.state.state == Initial && u.state.last == Expected(r, p.keepValue)
    ensures !Risk(p, Encode(r) + rest)
  {
    hide Parse, Iterate;
    ParsesLine(p, c, text, rest);
  }

  lemma ParsesNullReply(p: Resting, r: Reply, rest: string)
    requires p.state == Initial && (r.NullBulk? || r.NullArray?)
    ensures var u := Parse(p, Encode(r) + rest);
            u.ret == 1 && u.rest == rest && u.state.state == Initial && u.state.last == Expected(r, p.keepValue)
    ensures !Risk(p, Encode(r) + rest)
  {
    NullText(rest);
    hide Parse, Iterate, Encode, StatusLine;
    ParsesNull(p, if r.NullBulk? then '$' else '*', rest);
  }

  lemma ParsesBulkReply(p: Resting, d: string, rest: string)
    requires p.state == Initial && |d| < 0x8000_0000
    ensures var u := Parse(p, Encode(Bulk(d)) + rest);
            u.ret == 1 && u.rest == rest && u.state.state == Initial && u.state.last == Expected(Bulk(d), p.keepValue)
    ensures !Risk(p, Encode(Bulk(d)) + rest)
  {
    ParsesBulk(p, d, rest);
    hide Parse, Iterate, Encode, Expected;
  }

  /** Every reply but an array is reported once, as what it is, and read to its last byte. */
  lemma ParsesFlat(p: Resting, r: Reply, rest: string)
    requires p.state == Initial && Flat(r) && Valid(r)
    ensures var u := Parse(p, Encode(r) + rest);
            u.ret == 1 && u.rest == rest && u.state.state == Initial && u.state.last == Expected(r, p.keepValue)
    ensures !Risk(p, Encode(r) + rest)
  {
    hide Parse, Risk, Encode, Expected;
    match r
    case Simple(t) => ParsesTyped(p, r, '+', t, rest);
    case Error(t) => ParsesTyped(p, r, '-', t, rest);
    case Integer(t) => ParsesTyped(p, r, ':', t, rest);
    case Bulk(d) => ParsesBulkReply(p, d, rest);
    case _ => ParsesNullReply(p, r, rest);
  }

  lemma NullText(rest: string)
    ensures ['$'] + "-1" == StatusLine(NullBulk) && Encode(NullBulk) + rest == ['$'] + "-1" + "\r\n" + rest
    ensures ['*'] + "-1" == StatusLine(NullArray) && Encode(NullArray) + rest == ['*'] + "-1" + "\r\n" + rest
  {
  }

  lemma FlagSurvivesTurn(p: SoundParser, b: string)
    ensures match Iterate(p, b)
            case Again(q, _) => q.keepValue == p.keepValue
            case Return(c) => c.state.keepValue == p.keepValue
  {
    hide NumberOn, CString, Link, Taken, Drained, AsUint32;
  }

  lemma {:induction false} FlagSurvives(p: SoundParser, b: string)
    ensures Parse(p, b).state.keepValue == p.keepValue
    decreases |b|
  {
    IterateConsumes(p, b);
    FlagSurvivesTurn(p, b);
    hide Iterate;
    match Iterate(p, b)
    case Again(q, rest) => FlagSurvives(q, rest);
    case Return(c) =>
  }

  lemma {:induction false} PumpsReplies(p: Resting, rs: seq<Reply>)
    requires p.state == Initial && (forall r <- rs :: Flat(r) && Valid(r)) && Progress(ParseCall)
    ensures Clean(ParseCall, RedisReply.Risk, p, EncodeAll(rs)) && Quiet(ParseCall, p, EncodeAll(rs))
    ensures var u := Pump(ParseCall, p, EncodeAll(rs));
            u.rest == [] && |u.reports| == |rs| &&
            forall i :: 0 <= i < |rs| ==> u.reports[i].0 == 1 && u.reports[i].1.last == Expected(rs[i], p.keepValue)
    decreases |rs|
  {
    hide Parse, Expected, Encode, Valid, RedisReply.Risk;
    if rs == [] {
      WaitsOnNothing(p);
      NoRiskInNothing(p);
    } else {
      var r, tail := rs[0], EncodeAll(rs[1..]);
      ParsesFlat(p, r, tail);
      FlagSurvives(p, EncodeAll(rs));
      var c := ParseCall(p, EncodeAll(rs));
      assert c.rest == tail;
      PumpsReplies(c.state, rs[1..]);
    }
  }

  lemma NoRiskInNothing(p: Resting)
    requires p.state == Initial
    ensures !RedisReply.Risk(p, "")
  {
    assert Readln("").None?;
  }

  /** However the network cuts a stream of replies without arrays, the client sees exactly those replies, in order, and
      nothing is left over. */
  lemma AnyChunkingYieldsTheReplies(p: Resting, rs: seq<Reply>, chunks: seq<string>)
    requires p.state == Initial && (forall r <- rs :: Flat(r) && Valid(r))
    requires Join(chunks) == EncodeAll(rs)
    ensures Progress(ParseCall)
    ensures var u := Deliver(ParseCall, p, [], chunks);
            u.rest == [] && |u.reports| == |rs| &&
            forall i :: 0 <= i < |rs| ==> u.reports[i].0 == 1 && u.reports[i].1.last == Expected(rs[i], p.keepValue)
  {
    RiskGuards();
    PumpsReplies(p, rs);
    hide RedisReply.Risk;
    CleanStreamFragments(ParseCall, RedisReply.Risk, p, chunks);
  }

  // ----- an unsupported line -----

  predicate Unsupported(line: string) { NoCrlf(line) && FirstChar(line) !in {'*', '$', '+', '-', ':'} }

  lemma StopsAtError(p: Resting, line: string, rest: string) returns (c: Resting)
    requires p.state == Initial && Unsupported(line) && Progress(ParseCall)
    ensures c.state == Initial && c.keepValue == p.keepValue
    ensures OneRead(ParseCall, p, line + "\r\n" + rest) == Pumped(c, rest, [(-1, c)])
  {
    var b := line + "\r\n" + rest;
    ReadlnOf(line, rest);
    FirstTurnRest(p, b);
    hide NumberOn, Parse, Readln;
    c := ParseCall(p, b).state;
  }

  lemma ReadsOneReply(p: Resting, r: Reply)
    requires p.state == Initial && Flat(r) && Valid(r) && Progress(ParseCall)
    ensures var u := OneRead(ParseCall, p, Encode(r));
            && u.rest == [] && |u.reports| == 1 && u.reports[0].0 == 1
            && u.reports[0].1.last == Expected(r, p.keepValue)
  {
    var b := Encode(r);
    assert b + "" == b && |b| > 0;
    hide Parse, Expected, Encode, Valid, RedisReply.Risk;
    ParsesFlat(p, r, "");
    var c := ParseCall(p, b);
    WaitsOnNothing(c.state);
    assert Pump(ParseCall, c.state, c.rest).reports == [] && Pump(ParseCall, c.state, c.rest).rest == [];
  }

  /** A line of no known type and a reply behind it: in one read event the reply is left unread, in two it is
      reported. */
  lemma ReplyBehindError(p: Resting, line: string, r: Reply)
    requires p.state == Initial && Unsupported(line) && Flat(r) && Valid(r)
    ensures Progress(ParseCall)
    ensures var bad := line + "\r\n";
            var whole := OneRead(ParseCall, p, bad + Encode(r));
            var cut := Deliver(ParseCall, p, [], [bad, Encode(r)]);
            && |whole.reports| == 1 && whole.reports[0].0 == -1 && whole.rest == Encode(r)
            && |cut.reports| == 2 && cut.reports[0].0 == -1 && cut.reports[1].0 == 1 && cut.rest == ""
            && cut.reports[1].1.last == Expected(r, p.keepValue)
  {
    EveryReportConsumes();
    hide Parse, Expected, Encode, Valid, OneRead, Deliver, Unsupported;
    var bad := line + "\r\n";
    var c := StopsAtError(p, line, Encode(r));
    var none := StopsAtError(p, line, "");
    assert bad + "" == bad && "" + Encode(r) == Encode(r);
    ReadsOneReply(none, r);
    TwoChunks(ParseCall, p, bad, Encode(r));
  }

  // ----- array replies -----

  /** An array reply as the caller walks it. */
  datatype Tree = Value(text: string) | Branch(elements: seq<Tree>)

  /** What the builder can hold: integers, bulk strings, and arrays with elements. */
  predicate Buildable(r: Reply)
  {
    match r
    case Integer(_) => true
    case Bulk(_) => true
    case Arr(es) => es != [] && forall e <- es :: Buildable(e)
    case _ => false
  }

  function Shape(r: Reply): Tree
    requires Buildable(r)
  {
    match r
    case Integer(t) => Value(t)
    case Bulk(d) => Value(d)
    case Arr(es) => Branch(seq(|es|, i requires 0 <= i < |es| => Shape(es[i])))
  }

  /** How many elements it takes to hold a reply, and a list of them. */
  function Nodes(r: Reply): nat
  {
    match r
    case Arr(es) => 1 + NodesOf(es)
    case _ => 1
  }

  function NodesOf(es: seq<Reply>): nat
  {
    if es == [] then 0 else Nodes(es[0]) + NodesOf(es[1..])
  }

  /** Elements `lo` to `hi` point only forward, and not past `hi`. */
  ghost predicate Closed(tree: seq<Node>, lo: nat, hi: nat)
  {
    hi <= |tree| &&
    forall i, k :: lo <= i < hi && tree[i].Array? && 0 <= k < |tree[i].children| ==> i < tree[i].children[k] < hi
  }

  /** The subtree under element `i`, which lies below `hi`. */
  ghost function Decode(tree: seq<Node>, i: nat, hi: nat): Tree
    requires i < hi && Closed(tree, i, hi)
    decreases hi - i
  {
    match tree[i]
    case Leaf(v, _) => Value(v)
    case Array(cs) => Branch(seq(|cs|, k requires 0 <= k < |cs| => Decode(tree, cs[k], hi)))
  }

  /** A subtree depends only on the elements it is made of. */
  lemma {:induction false} DecodeFrame(t: seq<Node>, hi: nat, t': seq<Node>, hi': nat, i: nat)
    requires i < hi <= hi' && Closed(t, i, hi) && Closed(t', i, hi')
    requires forall j :: i <= j < hi ==> t[j] == t'[j]
    ensures Decode(t, i, hi) == Decode(t', i, hi')
    decreases hi - i
  {
    if t[i].Array? {
      var cs := t[i].children;
      forall k | 0 <= k < |cs| ensures Decode(t, cs[k], hi) == Decode(t', cs[k], hi') {
        DecodeFrame(t, hi, t', hi', cs[k]);
      }
    }
  }

  // ----- the builder -----

  function LevelsAfter(levels: seq<Level>, elements: nat): seq<Level>
    requires levels != [] && elements <= levels[|levels| - 1].count
  {
    var below, top := levels[..|levels| - 1], levels[|levels| - 1];
    if top.count == elements then below else below + [top.(count := top.count - elements)]
  }

  /** From `p` to `q`, the array on top of the stack has gained the elements `es`, as the complete subtrees at `roots`;
      no other element that existed before has changed, and none has been created that these do not need. */
  ghost predicate Grew(p: SoundParser, q: SoundParser, roots: seq<nat>, es: seq<Reply>)
    requires p.levels != [] && forall e <- es :: Buildable(e)
  {
    var n, was := Top(p).node, |p.tree|;
    && |q.tree| == was + NodesOf(es) && |roots| == |es|
    && (forall i :: 0 <= i < was && i != n ==> q.tree[i] == p.tree[i])
    && q.tree[n] == Array(p.tree[n].children + roots)
    && Closed(q.tree, was, |q.tree|)
    && forall k :: 0 <= k < |es| ==> was <= roots[k] < |q.tree| && Decode(q.tree, roots[k], |q.tree|) == Shape(es[k])
  }

  /** `q` and `rest` are where reading `b` has got to. */
  ghost predicate Reaches(p: SoundParser, b: string, q: SoundParser, rest: string)
  {
    var c := Parse(p, b);
    if q.levels == [] then c.ret == 1 && c.state == q && c.rest == rest && !Fragile(p, b)
    else c == Parse(q, rest) && Fragile(p, b) == Fragile(q, rest)
  }

  lemma LeafGrows(p: SoundParser, p0: SoundParser, text: string, len: UInt, r: Reply)
    requires p.levels != [] && Top(p).count >= 1
    requires p0.tree == p.tree && p0.levels == p.levels
    requires Buildable(r) && Shape(r) == Value(text)
    ensures Grew(p, AddValue(p0, Leaf(text, len)), [|p.tree|], [r])
    ensures AddValue(p0, Leaf(text, len)).levels == LevelsAfter(p.levels, 1)
  {
    hide AsUint32;
    assert AsUint32(Top(p).count - 1) == Top(p).count - 1;
    NodesOfOne(r);
  }

  lemma NodesOfOne(r: Reply)
    ensures NodesOf([r]) == Nodes(r)
  {
    assert [r][1..] == [];
  }

  lemma ReadsInteger(p: SoundParser, t: string, rest: string)
    requires p.state == ReadMbulk && Valid(Integer(t))
    ensures var p0: SoundParser := p.(responseLen := |t| + 1);
            Iterate(p, Encode(Integer(t)) + rest) == Continue(AddValue(p0, Leaf(t, |t|)), rest)
    ensures !Hasty(p, Encode(Integer(t)) + rest)
  {
    assert Encode(Integer(t)) + rest == [':'] + t + "\r\n" + rest;
    TypedLine(':', t, rest);
    assert CString(t) == t;
    hide NumberOn, CString, Link;
  }

  lemma BulkElementLine(p: SoundParser, d: string, rest: string)
    requires p.state == ReadMbulk && |d| < 0x8000_0000
    ensures var p0: SoundParser := p.(responseLen := |BulkLine(d)|, bulkLen := |d|);
            OnElementLine(p, BulkLine(d), d + "\r\n" + rest) == Continue(AddValue(p0, Leaf(d, |d|)), rest)
  {
    var body := d + "\r\n" + rest;
    NumberOf('$', |d|);
    assert Taken(body, |d|) == d && Drained(Drained(body, |d|), 2) == rest;
    hide NumberOn, CString, AddValue, Taken, Drained, Dec;
  }

  lemma ReadsBulkElement(p: SoundParser, d: string, rest: string)
    requires p.state == ReadMbulk && Valid(Bulk(d))
    ensures var p0: SoundParser := p.(responseLen := |BulkLine(d)|, bulkLen := |d|);
            Iterate(p, Encode(Bulk(d)) + rest) == Continue(AddValue(p0, Leaf(d, |d|)), rest)
    ensures !Hasty(p, Encode(Bulk(d)) + rest)
  {
    var body := d + "\r\n" + rest;
    BulkText(d, rest);
    BulkElementLine(p, d, rest);
    NumberOf('$', |d|);
    assert NoCrlf(Dec(|d|));
    TypedLine('$', Dec(|d|), body);
    hide NumberOn, OnElementLine, AddValue, Continue, Encode, Dec, Readln;
  }

  lemma ArrayElementLine(p: SoundParser, n: nat, rest: string)
    requires p.state == ReadMbulk && n < 0x8000_0000
    ensures var line := "*" + Dec(n);
            var p0: SoundParser := p.(responseLen := |line|);
            OnElementLine(p, line, rest) == Again(WithStatus(AddArray(p0, n), line), rest)
  {
    NumberOf('*', n);
    hide NumberOn, CString, Link, Dec, CountDown;
  }

  lemma ReadsArrayHeader(p: SoundParser, es: seq<Reply>, rest: string)
    requires p.state == ReadMbulk && |es| < 0x8000_0000
    ensures var line := "*" + Dec(|es|);
            var p0: SoundParser := p.(responseLen := |line|);
            Iterate(p, Encode(Arr(es)) + rest) == Again(WithStatus(AddArray(p0, |es|), line), EncodeAll(es) + rest)
    ensures !Hasty(p, Encode(Arr(es)) + rest)
  {
    var line, body := "*" + Dec(|es|), EncodeAll(es) + rest;
    assert Encode(Arr(es)) + rest == line + "\r\n" + body;
    assert NoCrlf(Dec(|es|));
    hide NumberOn, CString, Link, Encode, Dec, CountDown, AddArray, WithStatus, OnElementLine, Readln;
    TypedLine('*', Dec(|es|), body);
    ArrayElementLine(p, |es|, body);
  }

  lemma LeafReached(p: SoundParser, b: string, q: SoundParser, rest: string)
    requires Iterate(p, b) == Continue(q, rest) && !Hasty(p, b)
    ensures Reaches(p, b, q, rest)
  {
    hide Iterate, Hasty;
    IterateConsumes(p, b);
  }

  lemma ArrayGrows(p: SoundParser, p1: SoundParser, q: SoundParser, roots: seq<nat>, es: seq<Reply>)
    requires p.levels != [] && Buildable(Arr(es))
    requires p1.levels != [] && Top(p1).node == |p.tree| && p1.tree == Link(p.tree, Top(p).node, Array([]))
    requires Grew(p1, q, roots, es)
    ensures Grew(p, q, [|p.tree|], [Arr(es)])
  {
    var id, n := |p.tree|, Top(p).node;
    assert q.tree[id] == Array(roots) by { assert [] + roots == roots; }
    assert q.tree[n] == p1.tree[n];
    assert Closed(q.tree, id, |q.tree|);
    forall k | 0 <= k < |es|
      ensures Decode(q.tree, roots[k], |q.tree|) == Shape(es[k])
    {
    }
    assert Decode(q.tree, id, |q.tree|) == Shape(Arr(es));
  }

  lemma GrowsTogether(p: SoundParser, q1: SoundParser, q: SoundParser, root: nat, roots: seq<nat>, es: seq<Reply>)
    requires es != [] && (forall e <- es :: Buildable(e))
    requires p.levels != [] && q1.levels != [] && Top(q1).node == Top(p).node
    requires Grew(p, q1, [root], es[..1]) && Grew(q1, q, roots, es[1..])
    ensures Grew(p, q, [root] + roots, es)
  {
    var n, all := Top(p).node, [root] + roots;
    assert p.tree[n].children + [root] + roots == p.tree[n].children + all;
    assert es[..1] == [es[0]];
    NodesOfOne(es[0]);
    assert Closed(q.tree, |p.tree|, |q.tree|);
    forall k | 0 <= k < |es|
      ensures |p.tree| <= all[k] < |q.tree| && Decode(q.tree, all[k], |q.tree|) == Shape(es[k])
    {
      if k == 0 {
        DecodeFrame(q1.tree, |q1.tree|, q.tree, |q.tree|, root);
        assert es[..1][0] == es[0];
      } else {
        assert es[1..][k - 1] == es[k];
      }
    }
  }

  lemma ArrayReached(p: SoundParser, p1: SoundParser, q: SoundParser, es: seq<Reply>, rest: string)
    requires Iterate(p, Encode(Arr(es)) + rest) == Again(p1, EncodeAll(es) + rest)
    requires !Hasty(p, Encode(Arr(es)) + rest)
    requires Reaches(p1, EncodeAll(es) + rest, q, rest)
    ensures Reaches(p, Encode(Arr(es)) + rest, q, rest)
  {
    IterateConsumes(p, Encode(Arr(es)) + rest);
    hide Iterate, Encode, Hasty;
  }

  lemma ReachesTogether(p: SoundParser, b: string, q1: SoundParser, b1: string, q: SoundParser, rest: string)
    requires Reaches(p, b, q1, b1) && q1.levels != [] && Reaches(q1, b1, q, rest)
    ensures Reaches(p, b, q, rest)
  {
    hide Parse, Fragile;
  }

  lemma BuildsLeaf(p: SoundParser, r: Reply, rest: string) returns (q: SoundParser)
    requires p.state == ReadMbulk && Top(p).count >= 1
    requires (r.Integer? || r.Bulk?) && Valid(r)
    ensures q.levels == LevelsAfter(p.levels, 1) && q.keepValue == p.keepValue && q.state != ReadBulk
    ensures Grew(p, q, [|p.tree|], [r])
    ensures Reaches(p, Encode(r) + rest, q, rest)
  {
    hide Grew, Encode, LevelsAfter, Reaches;
    match r
    case Integer(t) =>
      var p0: SoundParser := p.(responseLen := |t| + 1);
      q := AddValue(p0, Leaf(t, |t|));
      ReadsInteger(p, t, rest);
      LeafReached(p, Encode(r) + rest, q, rest);
      LeafGrows(p, p0, t, |t|, r);
    case Bulk(d) =>
      var p0: SoundParser := p.(responseLen := |BulkLine(d)|, bulkLen := |d|);
      q := AddValue(p0, Leaf(d, |d|));
      ReadsBulkElement(p, d, rest);
      LeafReached(p, Encode(r) + rest, q, rest);
      LeafGrows(p, p0, d, |d|, r);
  }

  /** An array's header counts its parent down, so a parent that lacks nothing else has left the stack before the first
      element of its last child is read. */
  lemma OpenedArray(p: SoundParser, count: UInt, line: string, len: nat)
    requires p.state == ReadMbulk && Top(p).count >= 1 && count >= 1
    ensures var p0: SoundParser := p.(responseLen := len);
            var p1 := WithStatus(AddArray(p0, count), line);
            && p1.state == ReadMbulk && p1.keepValue == p.keepValue
            && Top(p1) == Level(count, |p.tree|)
            && p1.tree == Link(p.tree, Top(p).node, Array([]))
            && p1.levels == LevelsAfter(p.levels, 1) + [Level(count, |p.tree|)]
            && LevelsAfter(p1.levels, count) == LevelsAfter(p.levels, 1)
  {
    hide Link;
    assert AsUint32(Top(p).count - 1) == Top(p).count - 1;
    var p0: SoundParser := p.(responseLen := len);
    assert Top(p0) == Top(p);
    var p1 := WithStatus(AddArray(p0, count), line);
    assert p1.levels[..|p1.levels| - 1] == CountDown(p.levels);
  }

  /** One element, complete. */
  lemma {:induction false} BuildsOne(p: SoundParser, r: Reply, rest: string) returns (q: SoundParser)
    requires p.state == ReadMbulk && Top(p).count >= 1
    requires Buildable(r) && Valid(r)
    ensures q.levels == LevelsAfter(p.levels, 1) && q.keepValue == p.keepValue && q.state != ReadBulk
    ensures Grew(p, q, [|p.tree|], [r])
    ensures Reaches(p, Encode(r) + rest, q, rest)
    decreases r, 1
  {
    if r.Arr? {
      var es := r.elements;
      hide Grew, Encode, LevelsAfter, Reaches, Iterate, AddArray, WithStatus, Link;
      var line := "*" + Dec(|es|);
      var p0: SoundParser := p.(responseLen := |line|);
      var p1 := WithStatus(AddArray(p0, |es|), line);
      OpenedArray(p, |es|, line, |line|);
      ReadsArrayHeader(p, es, rest);
      var roots;
      q, roots := BuildsAll(p1, es, rest);
      ArrayGrows(p, p1, q, roots, es);
      ArrayReached(p, p1, q, es, rest);
    } else {
      q := BuildsLeaf(p, r, rest);
    }
  }

  lemma LevelsTogether(levels: seq<Level>, m: nat)
    requires levels != [] && 0 < m < levels[|levels| - 1].count
    ensures var first := LevelsAfter(levels, 1);
            && first != [] && first[|first| - 1].node == levels[|levels| - 1].node
            && first[|first| - 1].count == levels[|levels| - 1].count - 1
            && LevelsAfter(first, m) == LevelsAfter(levels, m + 1)
  {
    var first := LevelsAfter(levels, 1);
    assert first[..|first| - 1] == levels[..|levels| - 1];
  }

  lemma EncodedOne(es: seq<Reply>, rest: string)
    requires |es| == 1
    ensures EncodeAll(es) + rest == Encode(es[0]) + rest && es == [es[0]]
  {
    assert EncodeAll(es) == Encode(es[0]) + EncodeAll(es[1..]) && es[1..] == [];
    hide Encode;
  }

  /** The first element, and then the others. */
  lemma OneAndMore(p: SoundParser, q1: SoundParser, q: SoundParser, more: seq<nat>, es: seq<Reply>, rest: string)
    requires es != [] && (forall e <- es :: Buildable(e))
    requires p.levels != [] && q1.levels != [] && Top(q1).node == Top(p).node
    requires Grew(p, q1, [|p.tree|], es[..1]) && Grew(q1, q, more, es[1..])
    requires var tail := EncodeAll(es[1..]) + rest;
             Reaches(p, Encode(es[0]) + tail, q1, tail) && Reaches(q1, tail, q, rest)
    ensures Grew(p, q, [|p.tree|] + more, es) && Reaches(p, EncodeAll(es) + rest, q, rest)
  {
    hide Grew, Reaches, Encode, Buildable;
    var tail := EncodeAll(es[1..]) + rest;
    Assoc(Encode(es[0]), EncodeAll(es[1..]), rest);
    GrowsTogether(p, q1, q, |p.tree|, more, es);
    ReachesTogether(p, Encode(es[0]) + tail, q1, tail, q, rest);
  }

  /** All the elements an open array lacks, or the first few of them. */
  lemma {:induction false} BuildsAll(p: SoundParser, es: seq<Reply>, rest: string)
    returns (q: SoundParser, roots: seq<nat>)
    requires p.state == ReadMbulk && es != [] && Top(p).count >= |es|
    requires forall e <- es :: Buildable(e) && Valid(e)
    ensures q.levels == LevelsAfter(p.levels, |es|) && q.keepValue == p.keepValue && q.state != ReadBulk
    ensures Grew(p, q, roots, es)
    ensures Reaches(p, EncodeAll(es) + rest, q, rest)
    decreases es, 0
  {
    hide Grew, Encode, EncodeAll, LevelsAfter, Reaches, Buildable, Valid;
    if |es| == 1 {
      q := BuildsOne(p, es[0], rest);
      roots := [|p.tree|];
      EncodedOne(es, rest);
    } else {
      var q1 := BuildsOne(p, es[0], EncodeAll(es[1..]) + rest);
      LevelsTogether(p.levels, |es| - 1);
      var more;
      q, more := BuildsAll(q1, es[1..], rest);
      assert es[..1] == [es[0]];
      OneAndMore(p, q1, q, more, es, rest);
      roots := [|p.tree|] + more;
    }
  }

  // ----- array replies as a whole -----

  /** The elements hold the reply's tree, the root first, and nothing else. */
  ghost predicate Holds(tree: seq<Node>, r: Reply)
    requires Buildable(r)
  {
    |tree| == Nodes(r) && Closed(tree, 0, |tree|) && Decode(tree, 0, |tree|) == Shape(r)
  }

  lemma ReadsRootLine(p: SoundParser, n: nat, body: string) returns (q: SoundParser)
    requires p.state == Initial && n < 0x8000_0000
    ensures q.state == ReadMbulk && q.tree == [Array([])] && q.levels == [Level(n, 0)]
    ensures Parse(p, "*" + Dec(n) + "\r\n" + body) == Parse(q, body)
    ensures Fragile(p, "*" + Dec(n) + "\r\n" + body) == Fragile(q, body)
  {
    var line := "*" + Dec(n);
    assert NoCrlf(Dec(n));
    TypedLine('*', Dec(n), body);
    NumberOf('*', n);
    hide NumberOn, Dec, Readln;
    FirstTurnRest(p, line + "\r\n" + body);
    FirstTurn(p, line + "\r\n" + body);
    hide Hasty;
    q := Iterate(p, line + "\r\n" + body).state;
  }

  lemma ReadsRootHeader(p: SoundParser, es: seq<Reply>, rest: string) returns (q: SoundParser)
    requires p.state == Initial && |es| < 0x8000_0000
    ensures q.state == ReadMbulk && q.tree == [Array([])] && q.levels == [Level(|es|, 0)]
    ensures Parse(p, Encode(Arr(es)) + rest) == Parse(q, EncodeAll(es) + rest)
    ensures Fragile(p, Encode(Arr(es)) + rest) == Fragile(q, EncodeAll(es) + rest)
  {
    hide Parse, Fragile, Dec;
    assert Encode(Arr(es)) + rest == "*" + Dec(|es|) + "\r\n" + (EncodeAll(es) + rest);
    q := ReadsRootLine(p, |es|, EncodeAll(es) + rest);
  }

  lemma RootGrown(q1: SoundParser, q: SoundParser, roots: seq<nat>, es: seq<Reply>)
    requires q1.tree == [Array([])] && q1.levels != [] && Top(q1).node == 0
    requires Buildable(Arr(es)) && Grew(q1, q, roots, es)
    ensures Holds(q.tree, Arr(es))
  {
    hide Sound, Nodes, NodesOf;
    assert [] + roots == roots;
    assert Closed(q.tree, 0, |q.tree|);
    RootDecodes(q.tree, roots, es);
    RootNodes(es);
  }

  lemma RootNodes(es: seq<Reply>)
    ensures Nodes(Arr(es)) == 1 + NodesOf(es)
  {
  }

  lemma RootDecodes(tree: seq<Node>, roots: seq<nat>, es: seq<Reply>)
    requires tree != [] && tree[0] == Array(roots) && Closed(tree, 0, |tree|) && Closed(tree, 1, |tree|)
    requires Buildable(Arr(es)) && |roots| == |es|
    requires forall k :: 0 <= k < |es| ==> 1 <= roots[k] < |tree| && Decode(tree, roots[k], |tree|) == Shape(es[k])
    ensures Decode(tree, 0, |tree|) == Shape(Arr(es))
  {
  }

  /** The in-place builder returns exactly the tree that was sent, and stops at its last byte. */
  lemma BuildsTree(p: SoundParser, r: Reply, rest: string)
    requires p.state == Initial && r.Arr? && Buildable(r) && Valid(r)
    ensures var c := Parse(p, Encode(r) + rest);
            c.ret == 1 && c.rest == rest && c.state.state == Initial && c.state.levels == [] && Holds(c.state.tree, r)
    ensures !Fragile(p, Encode(r) + rest)
  {
    var es := r.elements;
    var q1 := ReadsRootHeader(p, es, rest);
    hide Parse, Fragile, Grew, Holds, Encode;
    var q, roots := BuildsAll(q1, es, rest);
    RootGrown(q1, q, roots, es);
  }

  // ----- every run -----

  ghost predicate ChildAt(tree: seq<Node>, i: nat, k: nat, c: nat)
  {
    IsArray(tree, i) && k < |tree[i].children| && tree[i].children[k] == c
  }

  ghost predicate HasParent(tree: seq<Node>, c: nat) { exists i: nat, k: nat :: ChildAt(tree, i, k, c) }

  /** Every element but the first hangs under exactly one earlier element, in exactly one place: nothing that was
      created is lost or shared, wherever the stack stands. */
  ghost predicate Rooted(tree: seq<Node>)
  {
    && Closed(tree, 0, |tree|)
    && (forall c :: 0 < c < |tree| ==> HasParent(tree, c))
    && (forall i: nat, k: nat, j: nat, l: nat, c: nat ::
          ChildAt(tree, i, k, c) && ChildAt(tree, j, l, c) ==> i == j && k == l)
  }

  lemma LinkKeepsRooted(tree: seq<Node>, parent: nat, element: Node)
    requires Rooted(tree) && IsArray(tree, parent) && (element.Array? ==> element.children == [])
    ensures Rooted(Link(tree, parent, element))
  {
    var after, n := Link(tree, parent, element), |tree|;
    forall i: nat, k: nat, c: nat | ChildAt(after, i, k, c) && c < n ensures ChildAt(tree, i, k, c) {
    }
    forall i: nat, k: nat | ChildAt(after, i, k, n) ensures i == parent && k == |tree[parent].children| {
    }
    forall c | 0 < c < |after| ensures HasParent(after, c) {
      if c == n {
        assert ChildAt(after, parent, |tree[parent].children|, n);
      } else {
        assert HasParent(tree, c);
        var i: nat, k: nat :| ChildAt(tree, i, k, c);
        assert ChildAt(after, i, k, c);
      }
    }
  }

  lemma ElementLineKeepsRooted(p: SoundParser, line: string, rest: string)
    requires p.state == ReadMbulk && Rooted(p.tree)
    ensures var t := OnElementLine(p, line, rest);
            Rooted(if t.Again? then t.state.tree else t.call.state.tree)
  {
    hide NumberOn, CString, Link, Rooted, CountDown, AsUint32, Taken;
    var q: SoundParser := p.(responseLen := |line|);
    var c := FirstChar(line);
    assert Top(q) == Top(p);
    if c == '*' {
      LinkKeepsRooted(p.tree, Top(p).node, Array([]));
    } else if c == ':' {
      var v := CString(line[1..]);
      LinkKeepsRooted(p.tree, Top(p).node, Leaf(v, AsUint32(|v|)));
    } else if c == '$' {
      var n := AsUint32(NumberOn(line));
      assert Top(q.(bulkLen := n)) == Top(p);
      LinkKeepsRooted(p.tree, Top(p).node, Leaf(Taken(rest, n), n));
    }
  }

  lemma SmallestRooted()
    ensures Rooted([]) && Rooted([Array([])])
  {
  }

  lemma TurnKeepsRooted(p: SoundParser, b: string)
    requires Rooted(p.tree)
    ensures match Iterate(p, b)
            case Again(q, _) => Rooted(q.tree)
            case Return(c) => Rooted(c.state.tree)
  {
    hide NumberOn, Rooted, OnElementLine, Readln, CString, Strtol, Taken, Drained, AsUint32;
    SmallestRooted();
    if p.state == ReadMbulk && Readln(b).Some? {
      ElementLineKeepsRooted(p, Readln(b).value.text, Readln(b).value.rest);
    }
  }

  lemma {:induction false} ParseKeepsRooted(p: SoundParser, b: string)
    requires Rooted(p.tree)
    ensures Rooted(Parse(p, b).state.tree)
    decreases |b|
  {
    IterateConsumes(p, b);
    TurnKeepsRooted(p, b);
    hide Iterate, Rooted;
    match Iterate(p, b)
    case Again(q, rest) => ParseKeepsRooted(q, rest);
    case Return(c) =>
  }

  /** Whatever bytes arrive, in whatever pieces. */
  lemma {:induction false} AnyRunKeepsRooted(p: Resting, b: string, chunks: seq<string>)
    requires Rooted(p.tree)
    ensures Progress(ParseCall)
    ensures var u := Deliver(ParseCall, p, b, chunks);
            Rooted(u.state.tree) && forall i :: 0 <= i < |u.reports| ==> Rooted(u.reports[i].1.tree)
    decreases |chunks|
  {
    EveryReportConsumes();
    hide Rooted, Parse, Pump;
    if chunks != [] {
      PumpKeepsRooted(p, b + chunks[0]);
      var u := OneRead(ParseCall, p, b + chunks[0]);
      AnyRunKeepsRooted(u.state, u.rest, chunks[1..]);
    }
  }

  lemma {:induction false} PumpKeepsRooted(p: Resting, b: string)
    requires Rooted(p.tree)
    ensures Progress(ParseCall)
    ensures var u := Pump(ParseCall, p, b);
            Rooted(u.state.tree) && forall i :: 0 <= i < |u.reports| ==> Rooted(u.reports[i].1.tree)
    decreases |b|
  {
    EveryReportConsumes();
    hide Rooted, Parse;
    ParseKeepsRooted(p, b);
    var c := ParseCall(p, b);
    if c.ret > 0 {
      PumpKeepsRooted(c.state, c.rest);
    }
  }
}
