/** The memcached binary protocol: a resumable parser of responses with a 24-byte header (section 2 of the memcached
    binary protocol). */
module MemcacheBinary {
  import opened CText
  import opened Bytes
  import opened Fragmentation

  const HEADER_SIZE: nat := 24
  const PROTOCOL_BINARY_RES: Byte := 0x81

  const SUCCESS: U16 := 0x00
  const AUTH_ERROR: U16 := 0x20
  const AUTH_CONTINUE: U16 := 0x21
  const UNKNOWN_COMMAND: U16 := 0x81
  const NOT_SUPPORTED: U16 := 0x83
  const EBUSY: U16 := 0x85

  /** The header fields the parser uses, in host order. */
  datatype Header = Header(magic: Byte, keylen: U16, extlen: Byte, status: U16, bodylen: UInt)

  function ReadHeader(b: seq<Byte>): Header
    requires |b| >= HEADER_SIZE
  {
    Header(b[0], At16(b, 2), b[4], At16(b, 6), At32(b, 8))
  }

  function StatusText(status: U16): Option<string>
  {
    match status
    case 0x00 => Some("PROTOCOL_BINARY_RESPONSE_SUCCESS")
    case 0x01 => Some("PROTOCOL_BINARY_RESPONSE_KEY_ENOENT")
    case 0x02 => Some("PROTOCOL_BINARY_RESPONSE_KEY_EEXISTS")
    case 0x03 => Some("PROTOCOL_BINARY_RESPONSE_E2BIG")
    case 0x04 => Some("PROTOCOL_BINARY_RESPONSE_EINVAL")
    case 0x05 => Some("PROTOCOL_BINARY_RESPONSE_NOT_STORED")
    case 0x06 => Some("PROTOCOL_BINARY_RESPONSE_DELTA_BADVAL")
    case 0x07 => Some("PROTOCOL_BINARY_RESPONSE_NOT_MY_VBUCKET")
    case 0x20 => Some("PROTOCOL_BINARY_RESPONSE_AUTH_ERROR")
    case 0x21 => Some("PROTOCOL_BINARY_RESPONSE_AUTH_CONTINUE")
    case 0x81 => Some("PROTOCOL_BINARY_RESPONSE_UNKNOWN_COMMAND")
    case 0x82 => Some("PROTOCOL_BINARY_RESPONSE_ENOMEM")
    case 0x83 => Some("PROTOCOL_BINARY_RESPONSE_NOT_SUPPORTED")
    case 0x84 => Some("PROTOCOL_BINARY_RESPONSE_EINTERNAL")
    case 0x85 => Some("PROTOCOL_BINARY_RESPONSE_EBUSY")
    case 0x86 => Some("PROTOCOL_BINARY_RESPONSE_ETMPFAIL")
    case _ => None
  }

  predicate IsError(status: U16)
  {
    status in {AUTH_ERROR, AUTH_CONTINUE, NOT_SUPPORTED, UNKNOWN_COMMAND, EBUSY}
  }

  datatype ResponseState = Initial | ReadBody

  /** A binary response: the text protocol's `Response`, with a value made of bytes. */
  datatype BinaryResponse = BinaryResponse(status: Option<string>, value: Option<seq<Byte>>, hits: nat, error: bool)

  /** The parser object's fields, as a value. */
  datatype BinaryParser = BinaryParser(
    state: ResponseState, hdr: Header, responseLen: nat, last: BinaryResponse, keepValue: bool)

  /** `return 1`, `return 0`, `return -1`; -2 stands for the failed assertion after a `malloc` of a negative length,
      which ends the process and with it the stream. */
  const ASSERT_FAILED: int := -2

  function Started(p: BinaryParser, h: Header): BinaryParser
  {
    p.(hdr := h, responseLen := HEADER_SIZE,
       last := BinaryResponse(StatusText(h.status), None, 0, IsError(h.status)))
  }

  function Finished(p: BinaryParser, value: seq<Byte>): BinaryParser
  {
    p.(state := Initial, responseLen := p.responseLen + p.hdr.bodylen,
       last := p.last.(value := if p.keepValue then Some(value) else p.last.value,
                       hits := p.last.hits + if p.hdr.status == SUCCESS then 1 else 0))
  }

  /** `actual_body_len`: computed in 32 bits and stored in an `int`. */
  function ActualBodyLen(h: Header): int
  {
    AsInt32(h.bodylen - h.extlen - h.keylen)
  }

  /** A negative count turns into a huge `size_t`: the buffer is emptied. */
  function DrainedInt(b: seq<Byte>, n: int): seq<Byte>
  {
    if n < 0 then [] else Drained(b, n)
  }

  datatype Turn = Again(state: BinaryParser, rest: seq<Byte>) | Return(call: Call<BinaryParser, Byte>)

  /** The whole body is there. */
  function OnBody(p: BinaryParser, b: seq<Byte>): Call<BinaryParser, Byte>
  {
    var body := Drained(b, p.hdr.extlen + p.hdr.keylen);
    var n := ActualBodyLen(p.hdr);
    if p.keepValue && n < 0 then Call(p, [], ASSERT_FAILED)
    else Call(Finished(p, if n < 0 then [] else Taken(body, n)), DrainedInt(body, n), 1)
  }

  function Iterate(p: BinaryParser, b: seq<Byte>): Turn
  {
    match p.state
    case Initial =>
      if |b| < HEADER_SIZE then Return(Call(p, b, 0))
      else
        var h := ReadHeader(b);
        var rest := b[HEADER_SIZE..];
        if h.magic != PROTOCOL_BINARY_RES then Return(Call(p.(hdr := h), rest, -1))
        else if h.bodylen > 0 then Again(Started(p, h).(state := ReadBody), rest)
        else Return(Call(Started(p, h), rest, 1))
    case ReadBody =>
      if |b| < p.hdr.bodylen then Return(Call(p, b, 0)) else Return(OnBody(p, b))
  }

  /** One call of `parse_response`: the loop takes at most two turns. */
  function Parse(p: BinaryParser, b: seq<Byte>): (c: Call<BinaryParser, Byte>)
    ensures |c.rest| <= |b|
    ensures c.state.keepValue == p.keepValue
    decreases |b|
  {
    match Iterate(p, b)
    case Again(q, rest) => Parse(q, rest)
    case Return(c) => c
  }

  // ----- fragmentation -----

  /** A parser that waits for a body waits for a non-empty one. */
  type Resting = p: BinaryParser | p.state == ReadBody ==> p.hdr.bodylen > 0
    witness BinaryParser(Initial, Header(0, 0, 0, 0, 0), 0, BinaryResponse(None, None, 0, false), false)

  lemma IterateRests(p: Resting, b: seq<Byte>)
    ensures match Iterate(p, b)
            case Again(q, rest) => |rest| < |b| && q.state == ReadBody && q.hdr.bodylen > 0
            case Return(c) =>
              (c.state.state == ReadBody ==> c.state.hdr.bodylen > 0) && (c.ret != 0 ==> |c.rest| < |b|)
  {
    hide StatusText, ReadHeader, Taken, Drained, ActualBodyLen;
    assert p.hdr.bodylen > 0 && p.hdr.extlen + p.hdr.keylen == 0 ==> ActualBodyLen(p.hdr) != 0 by {
      BodyOfValueOnly(p.hdr);
    }
  }

  lemma BodyOfValueOnly(h: Header)
    ensures h.bodylen > 0 && h.extlen + h.keylen == 0 ==> ActualBodyLen(h) != 0
  {
  }

  lemma {:induction false} CallRests(p: Resting, b: seq<Byte>)
    ensures var c := Parse(p, b);
            (c.state.state == ReadBody ==> c.state.hdr.bodylen > 0) && (c.ret != 0 ==> |c.rest| < |b|)
    decreases |b|
  {
    IterateRests(p, b);
    hide Iterate;
    match Iterate(p, b)
    case Again(q, rest) => CallRests(q, rest);
    case Return(c) =>
  }

  function ParseCall(p: Resting, b: seq<Byte>): (c: Call<Resting, Byte>)
    ensures c.ret != 0 ==> |c.rest| < |b|
  {
    CallRests(p, b);
    var c := Parse(p, b);
    Call(c.state, c.rest, c.ret)
  }

  /** The lengths section 2 of the protocol asks for: extras and key inside the body, and (for the `int` it is put in) a
      value under 2 GiB. */
  predicate WellSized(h: Header)
  {
    0 <= h.bodylen - h.extlen - h.keylen < 0x8000_0000
  }

  /** The call gets to a body whose lengths are wrong, with the whole body buffered. */
  predicate Fragile(p: BinaryParser, b: seq<Byte>)
    decreases |b|
  {
    match p.state
    case Initial =>
      (match Iterate(p, b)
       case Again(q, rest) => Fragile(q, rest)
       case Return(_) => false)
    case ReadBody => |b| >= p.hdr.bodylen && !WellSized(p.hdr)
  }

  lemma NothingToTake(p: BinaryParser, b: seq<Byte>)
    requires |b| < if p.state == Initial then HEADER_SIZE else p.hdr.bodylen
    ensures Iterate(p, b) == Return(Call(p, b, 0))
  {
  }

  lemma HeaderExtends(p: BinaryParser, b: seq<Byte>, more: seq<Byte>)
    requires p.state == Initial && |b| >= HEADER_SIZE
    ensures match Iterate(p, b)
            case Again(q, rest) => Iterate(p, b + more) == Again(q, rest + more)
            case Return(c) => c.ret != 0 && Iterate(p, b + more) == Return(Call(c.state, c.rest + more, c.ret))
  {
    assert ReadHeader(b + more) == ReadHeader(b);
    hide StatusText, ReadHeader;
    assert (b + more)[HEADER_SIZE..] == b[HEADER_SIZE..] + more;
  }

  lemma BodyExtends(p: BinaryParser, b: seq<Byte>, more: seq<Byte>)
    requires p.state == ReadBody && |b| >= p.hdr.bodylen && WellSized(p.hdr)
    ensures var c := OnBody(p, b); c.ret != 0 && OnBody(p, b + more) == Call(c.state, c.rest + more, c.ret)
  {
    var k := p.hdr.extlen + p.hdr.keylen;
    var n := p.hdr.bodylen - k;
    assert ActualBodyLen(p.hdr) == n;
    hide ActualBodyLen, Taken, Drained, StatusText, ReadHeader;
    DrainExtends(b, k, more);
    TakeAndDrainExtend(Drained(b, k), n, 0, more);
    DrainExtends(Drained(b, k), n, more);
  }

  lemma IterateExtends(p: BinaryParser, b: seq<Byte>, more: seq<Byte>)
    requires p.state == ReadBody && |b| >= p.hdr.bodylen ==> WellSized(p.hdr)
    ensures match Iterate(p, b)
            case Again(q, rest) => Iterate(p, b + more) == Again(q, rest + more)
            case Return(c) =>
              if c.ret == 0 then c == Call(p, b, 0)
              else Iterate(p, b + more) == Return(Call(c.state, c.rest + more, c.ret))
  {
    hide StatusText, ReadHeader, OnBody;
    if |b| < (if p.state == Initial then HEADER_SIZE else p.hdr.bodylen) {
      NothingToTake(p, b);
    } else if p.state == Initial {
      HeaderExtends(p, b, more);
    } else {
      BodyExtends(p, b, more);
    }
  }

  lemma {:induction false} Extends(p: BinaryParser, b: seq<Byte>, more: seq<Byte>)
    requires !Fragile(p, b)
    ensures var c := Parse(p, b);
            if c.ret != 0 then Parse(p, b + more) == Call(c.state, c.rest + more, c.ret) && !Fragile(p, b + more)
            else Parse(p, b + more) == Parse(c.state, c.rest + more) &&
                 Fragile(p, b + more) == Fragile(c.state, c.rest + more)
    decreases |b|
  {
    IterateExtends(p, b, more);
    hide StatusText, ReadHeader;
    match Iterate(p, b)
    case Again(q, rest) => Extends(q, rest, more);
    case Return(c) =>
  }

  /** Wrong lengths empty the buffer, whatever is in it. */
  lemma {:induction false} Empties(p: BinaryParser, b: seq<Byte>, more: seq<Byte>)
    requires Fragile(p, b)
    ensures var c := Parse(p, b); c.ret != 0 && c.rest == []
    ensures Fragile(p, b + more)
    decreases |b|
  {
    hide StatusText;
    if p.state == Initial {
      IterateExtends(p, b, more);
      var t := Iterate(p, b);
      Empties(t.state, t.rest, more);
    }
  }

  /** Exactly which calls can be interrupted: those that meet no badly sized body. */
  lemma StableIffNotFragile(p: Resting, b: seq<Byte>)
    ensures Stable(ParseCall, p, b) <==> !Fragile(p, b)
  {
    if Fragile(p, b) {
      Empties(p, b, [0]);
      Empties(p, b + [0], []);
      assert b + [0] + [] == b + [0];
      assert !StableWith(ParseCall, p, b, [0]);
    } else {
      forall more ensures StableWith(ParseCall, p, b, more) {
        Extends(p, b, more);
      }
    }
  }

  predicate Risk(p: Resting, b: seq<Byte>) { Fragile(p, b) }

  lemma RiskGuards()
    ensures Progress(ParseCall) && Guards(ParseCall, Risk)
  {
    forall p: Resting, b | !Risk(p, b) ensures Stable(ParseCall, p, b) {
      StableIffNotFragile(p, b);
    }
    forall p: Resting, b, more ensures Risk(p, b) ==> Risk(p, b + more) {
      if Risk(p, b) { Empties(p, b, more); }
    }
    forall p: Resting, b, more | ParseCall(p, b).ret == 0 && !Risk(p, b + more) && !Risk(p, b)
      ensures !Risk(ParseCall(p, b).state, ParseCall(p, b).rest + more)
    {
      Extends(p, b, more);
    }
  }

  lemma HeaderTakes(p: BinaryParser, b: seq<Byte>)
    requires p.state == Initial && |b| >= HEADER_SIZE
    ensures match Iterate(p, b)
            case Again(q, rest) => rest == b[HEADER_SIZE..] && Iterate(p, b[..HEADER_SIZE]) == Again(q, [])
            case Return(c) =>
              c.rest == b[HEADER_SIZE..] && Iterate(p, b[..HEADER_SIZE]) == Return(Call(c.state, [], c.ret))
  {
    assert ReadHeader(b[..HEADER_SIZE]) == ReadHeader(b);
    hide StatusText, ReadHeader;
  }

  lemma BodyTakes(p: BinaryParser, b: seq<Byte>)
    requires p.state == ReadBody && |b| >= p.hdr.bodylen && WellSized(p.hdr)
    ensures var n := p.hdr.bodylen;
            var t := Iterate(p, b);
            t.Return? && t.call.rest == b[n..] && Iterate(p, b[..n]) == Return(Call(t.call.state, [], t.call.ret))
  {
    hide StatusText, ReadHeader, Drained, Taken;
    var used, k := b[..p.hdr.bodylen], p.hdr.extlen + p.hdr.keylen;
    var n := p.hdr.bodylen - k;
    assert ActualBodyLen(p.hdr) == n;
    hide ActualBodyLen;
    assert b[k..][n..] == b[p.hdr.bodylen..] && b[k..][..n] == used[k..];
    assert used[k..][n..] == [] && used[k..][..n] == used[k..];
  }

  /** What a turn takes off the buffer is all it needed of it. */
  lemma TurnTakes(p: BinaryParser, b: seq<Byte>) returns (used: seq<Byte>)
    requires p.state == ReadBody && |b| >= p.hdr.bodylen ==> WellSized(p.hdr)
    ensures match Iterate(p, b)
            case Again(q, rest) => b == used + rest && Iterate(p, used) == Again(q, [])
            case Return(c) =>
              c.ret != 0 ==> b == used + c.rest && Iterate(p, used) == Return(Call(c.state, [], c.ret))
  {
    var n := if p.state == Initial then HEADER_SIZE else p.hdr.bodylen;
    used := [];
    if |b| < n {
      NothingToTake(p, b);
    } else {
      used := b[..n];
      if p.state == Initial { HeaderTakes(p, b); } else { BodyTakes(p, b); }
    }
    hide Iterate;
  }

  /** A response or an error is reported with its last byte. */
  lemma {:induction false} CallTakes(p: BinaryParser, b: seq<Byte>) returns (used: seq<Byte>)
    requires !Fragile(p, b) && Parse(p, b).ret != 0
    ensures var c := Parse(p, b); b == used + c.rest && Parse(p, used) == Call(c.state, [], c.ret)
    decreases |b|
  {
    used := TurnTakes(p, b);
    hide StatusText, ReadHeader;
    match Iterate(p, b)
    case Again(q, rest) =>
      var tail := CallTakes(q, rest);
      IterateExtends(p, used, tail);
      assert [] + tail == tail;
      Assoc(used, tail, Parse(p, b).rest);
      used := used + tail;
    case Return(c) =>
  }

  lemma ReportsArePrompt()
    ensures Prompt(ParseCall, Risk)
  {
    forall p: Resting, b | ParseCall(p, b).ret != 0 && !Risk(p, b)
      ensures exists used :: TookOnly(ParseCall, p, b, used)
    {
      var used := CallTakes(p, b);
      assert TookOnly(ParseCall, p, b, used);
    }
  }

  lemma {:induction false} ErrorsAtHeaders(p: BinaryParser, b: seq<Byte>)
    requires !Fragile(p, b)
    ensures Parse(p, b).ret < 0 ==> Parse(p, b).state.state == Initial
    decreases |b|
  {
    hide StatusText, ReadHeader;
    match Iterate(p, b)
    case Again(q, rest) => ErrorsAtHeaders(q, rest);
    case Return(c) =>
  }

  /** Between responses the parser acts on whole headers only. */
  lemma IdleIffNoHeader(p: Resting, b: seq<Byte>)
    requires p.state == Initial
    ensures Idle(ParseCall, p, b) <==> |b| < HEADER_SIZE
  {
    hide StatusText, ReadHeader, OnBody;
  }

  lemma {:induction false} QuietIffNoHeader(p: Resting, b: seq<Byte>)
    requires Progress(ParseCall) && Clean(ParseCall, Risk, p, b)
    ensures Quiet(ParseCall, p, b) <==> |LeftBehind(ParseCall, p, b)| < HEADER_SIZE
    decreases |b|
  {
    hide Parse, Idle, Fragile;
    var c := ParseCall(p, b);
    if c.ret > 0 {
      QuietIffNoHeader(c.state, c.rest);
    } else if c.ret < 0 {
      ErrorsAtHeaders(p, b);
      IdleIffNoHeader(c.state, c.rest);
    }
  }

  /** A stream of binary responses in which every body is large enough for the extras and key it announces may be cut
      anywhere, if and only if no complete header stands behind the first one with a wrong magic byte. */
  lemma FragmentationIndependent(p: Resting, stream: seq<Byte>)
    requires Progress(ParseCall) && Clean(ParseCall, Risk, p, stream)
    ensures (forall chunks :: SameWhenCut(ParseCall, p, stream, chunks))
        <==> |LeftBehind(ParseCall, p, stream)| < HEADER_SIZE
  {
    RiskGuards();
    ReportsArePrompt();
    QuietIffNoHeader(p, stream);
    hide Quiet, Clean, LeftBehind, SameWhenCut, Prompt, Guards;
    AnyCutIffQuiet(ParseCall, Risk, p, stream);
  }

  // ----- the responses a server sends -----

  datatype Reply = Reply(
    opcode: Byte, datatyp: Byte, status: U16, opaqueId: UInt, cas: (UInt, UInt),
    extras: seq<Byte>, key: seq<Byte>, value: seq<Byte>)

  function Body(r: Reply): seq<Byte> { r.extras + r.key + r.value }

  predicate ValidReply(r: Reply)
  {
    |r.extras| < 0x100 && |r.key| < 0x1_0000 && |r.value| < 0x8000_0000 && |Body(r)| < 0x1_0000_0000
  }

  function HeaderBytes(r: Reply): (b: seq<Byte>)
    requires ValidReply(r)
    ensures |b| == 24
  {
    [0x81, r.opcode] + BE16(|r.key|) + [|r.extras|, r.datatyp] + BE16(r.status)
      + BE32(|Body(r)|) + BE32(r.opaqueId) + BE32(r.cas.0) + BE32(r.cas.1)
  }

  function Encode(r: Reply): seq<Byte>
    requires ValidReply(r)
  {
    HeaderBytes(r) + Body(r)
  }

  function HeaderOf(r: Reply): Header
    requires ValidReply(r)
  {
    Header(0x81, |r.key|, |r.extras|, r.status, |Body(r)|)
  }

  lemma HeaderReads(r: Reply, rest: seq<Byte>)
    requires ValidReply(r)
    ensures ReadHeader(HeaderBytes(r) + rest) == HeaderOf(r)
  {
    var b := HeaderBytes(r) + rest;
    var tail := BE32(r.opaqueId) + BE32(r.cas.0) + BE32(r.cas.1) + rest;
    var bodyOn := BE32(|Body(r)|) + tail;
    var statusOn := BE16(r.status) + bodyOn;
    var lead := [0x81, r.opcode];
    assert b == lead + BE16(|r.key|) + ([|r.extras|, r.datatyp] + statusOn);
    BE16Reads(|r.key|, lead, [|r.extras|, r.datatyp] + statusOn);
    var lead6 := lead + BE16(|r.key|) + [|r.extras|, r.datatyp];
    assert b == lead6 + BE16(r.status) + bodyOn;
    BE16Reads(r.status, lead6, bodyOn);
    assert b == (lead6 + BE16(r.status)) + BE32(|Body(r)|) + tail;
    BE32Reads(|Body(r)|, lead6 + BE16(r.status), tail);
  }

  /** The names of the statuses from 0x00, from 0x20 and from 0x81 on. */
  const LOW_NAMES := [
    "PROTOCOL_BINARY_RESPONSE_SUCCESS",
    "PROTOCOL_BINARY_RESPONSE_KEY_ENOENT",
    "PROTOCOL_BINARY_RESPONSE_KEY_EEXISTS",
    "PROTOCOL_BINARY_RESPONSE_E2BIG",
    "PROTOCOL_BINARY_RESPONSE_EINVAL",
    "PROTOCOL_BINARY_RESPONSE_NOT_STORED",
    "PROTOCOL_BINARY_RESPONSE_DELTA_BADVAL",
    "PROTOCOL_BINARY_RESPONSE_NOT_MY_VBUCKET"]
  const AUTH_NAMES := ["PROTOCOL_BINARY_RESPONSE_AUTH_ERROR", "PROTOCOL_BINARY_RESPONSE_AUTH_CONTINUE"]
  const HIGH_NAMES := [
    "PROTOCOL_BINARY_RESPONSE_UNKNOWN_COMMAND",
    "PROTOCOL_BINARY_RESPONSE_ENOMEM",
    "PROTOCOL_BINARY_RESPONSE_NOT_SUPPORTED",
    "PROTOCOL_BINARY_RESPONSE_EINTERNAL",
    "PROTOCOL_BINARY_RESPONSE_EBUSY",
    "PROTOCOL_BINARY_RESPONSE_ETMPFAIL"]

  function NameOf(status: U16): Option<string>
  {
    if status < 8 then Some(LOW_NAMES[status])
    else if 0x20 <= status < 0x22 then Some(AUTH_NAMES[status - 0x20])
    else if 0x81 <= status < 0x87 then Some(HIGH_NAMES[status - 0x81])
    else None
  }

  /** Each status is shown by its name, and five of them are errors. */
  lemma StatusShown(status: U16)
    ensures StatusText(status) == NameOf(status)
    ensures IsError(status) <==> status == 0x20 || status == 0x21 || status == 0x81 || status == 0x83 || status == 0x85
  {
  }

  /** What the parser should report for it: extras and key skipped, the value kept if asked, a hit for a body that came
      with success. */
  function Expected(r: Reply, keepValue: bool): BinaryResponse
  {
    var hasBody := Body(r) != [];
    BinaryResponse(NameOf(r.status),
                   if hasBody && keepValue then Some(r.value) else None,
                   if hasBody && r.status == 0 then 1 else 0,
                   r.status in {0x20, 0x21, 0x81, 0x83, 0x85})
  }

  lemma ParsesBody(p: BinaryParser, r: Reply, rest: seq<Byte>)
    requires ValidReply(r) && p.state == ReadBody && p.hdr == HeaderOf(r)
    ensures Parse(p, Body(r) + rest) == Call(Finished(p, r.value), rest, 1) && !Fragile(p, Body(r) + rest)
  {
    hide StatusText, ReadHeader;
    var b, k := Body(r) + rest, |r.extras| + |r.key|;
    assert b[k..] == r.value + rest;
    assert ActualBodyLen(p.hdr) == |r.value|;
    assert Taken(r.value + rest, |r.value|) == r.value;
    assert Drained(r.value + rest, |r.value|) == rest;
  }

  /** Every well-sized response is reported once, as what it is, and read to its last byte. */
  lemma ParsesReply(p: BinaryParser, r: Reply, rest: seq<Byte>)
    requires p.state == Initial && ValidReply(r)
    ensures var c := Parse(p, Encode(r) + rest);
            && c.ret == 1 && c.rest == rest && c.state.state == Initial && c.state.last == Expected(r, p.keepValue)
            && c.state.responseLen == |Encode(r)|
    ensures !Fragile(p, Encode(r) + rest)
  {
    var body := Body(r) + rest;
    assert Encode(r) + rest == HeaderBytes(r) + body;
    assert (HeaderBytes(r) + body)[HEADER_SIZE..] == body;
    HeaderReads(r, body);
    StatusShown(r.status);
    hide StatusText, ReadHeader, HeaderBytes, NameOf, IsError;
    var q := Started(p, HeaderOf(r));
    if |Body(r)| > 0 {
      assert Iterate(p, Encode(r) + rest) == Again(q.(state := ReadBody), body);
      ParsesBody(q.(state := ReadBody), r, rest);
    } else {
      assert body == rest;
      assert Iterate(p, Encode(r) + rest) == Return(Call(q, rest, 1));
    }
  }

  function EncodeAll(rs: seq<Reply>): seq<Byte>
    requires forall r <- rs :: ValidReply(r)
  {
    if rs == [] then [] else Encode(rs[0]) + EncodeAll(rs[1..])
  }

  lemma WaitsOnNothing(p: BinaryParser)
    requires p.state == Initial
    ensures Parse(p, []).ret == 0 && Parse(p, []).rest == [] && !Fragile(p, [])
  {
  }

  lemma {:induction false} PumpsReplies(p: Resting, rs: seq<Reply>)
    requires p.state == Initial && (forall r <- rs :: ValidReply(r)) && Progress(ParseCall)
    ensures Clean(ParseCall, Risk, p, EncodeAll(rs)) && Quiet(ParseCall, p, EncodeAll(rs))
    ensures var u := Pump(ParseCall, p, EncodeAll(rs));
            u.rest == [] && |u.reports| == |rs| &&
            forall i :: 0 <= i < |rs| ==> u.reports[i].0 == 1 && u.reports[i].1.last == Expected(rs[i], p.keepValue)
    decreases |rs|
  {
    hide Parse, Fragile, Expected, Encode, ValidReply;
    if rs == [] {
      WaitsOnNothing(p);
    } else {
      var r, tail := rs[0], EncodeAll(rs[1..]);
      ParsesReply(p, r, tail);
      var c := ParseCall(p, EncodeAll(rs));
      assert c.rest == tail && !Risk(p, EncodeAll(rs));
      PumpsReplies(c.state, rs[1..]);
    }
  }

  /** However the network cuts a stream of responses, the client sees exactly those responses, in order, and nothing is
      left over. */
  lemma AnyChunkingYieldsTheReplies(p: Resting, rs: seq<Reply>, chunks: seq<seq<Byte>>)
    requires p.state == Initial && (forall r <- rs :: ValidReply(r))
    requires Join(chunks) == EncodeAll(rs)
    ensures Progress(ParseCall)
    ensures var u := Deliver(ParseCall, p, [], chunks);
            u.rest == [] && |u.reports| == |rs| &&
            forall i :: 0 <= i < |rs| ==> u.reports[i].0 == 1 && u.reports[i].1.last == Expected(rs[i], p.keepValue)
  {
    RiskGuards();
    PumpsReplies(p, rs);
    CleanStreamFragments(ParseCall, Risk, p, chunks);
  }

  // ----- a header with a wrong magic byte -----

  predicate BadHeader(b: seq<Byte>) { |b| == HEADER_SIZE && b[0] != PROTOCOL_BINARY_RES }

  lemma StopsAtError(p: Resting, bad: seq<Byte>, rest: seq<Byte>) returns (c: Resting)
    requires p.state == Initial && BadHeader(bad) && Progress(ParseCall)
    ensures c.state == Initial && c.keepValue == p.keepValue
    ensures OneRead(ParseCall, p, bad + rest) == Pumped(c, rest, [(-1, c)])
  {
    hide StatusText, OnBody;
    var b := bad + rest;
    assert ReadHeader(b).magic == bad[0] && b[HEADER_SIZE..] == rest;
    hide ReadHeader;
    c := ParseCall(p, b).state;
  }

  lemma ReadsOneReply(p: Resting, r: Reply)
    requires p.state == Initial && ValidReply(r) && Progress(ParseCall)
    ensures var u := OneRead(ParseCall, p, Encode(r));
            && u.rest == [] && |u.reports| == 1 && u.reports[0].0 == 1
            && u.reports[0].1.last == Expected(r, p.keepValue)
  {
    var b := Encode(r);
    assert b + [] == b && |b| > 0;
    ParsesReply(p, r, []);
    hide Parse, Fragile, Expected, Encode, ValidReply;
    var c := ParseCall(p, b);
    WaitsOnNothing(c.state);
    assert Pump(ParseCall, c.state, c.rest).reports == [] && Pump(ParseCall, c.state, c.rest).rest == [];
  }

  /** A header with a wrong magic byte and a response behind it: in one read event the response is left unread, in two
      it is reported. */
  lemma ReplyBehindError(p: Resting, bad: seq<Byte>, r: Reply)
    requires p.state == Initial && BadHeader(bad) && ValidReply(r)
    ensures Progress(ParseCall)
    ensures var whole := OneRead(ParseCall, p, bad + Encode(r));
            var cut := Deliver(ParseCall, p, [], [bad, Encode(r)]);
            && |whole.reports| == 1 && whole.reports[0].0 == -1 && whole.rest == Encode(r)
            && |cut.reports| == 2 && cut.reports[0].0 == -1 && cut.reports[1].0 == 1 && cut.rest == []
            && cut.reports[1].1.last == Expected(r, p.keepValue)
  {
    hide Parse, Fragile, Expected, Encode, ValidReply, OneRead, Deliver, BadHeader;
    var c := StopsAtError(p, bad, Encode(r));
    var none := StopsAtError(p, bad, []);
    assert bad + [] == bad && [] + Encode(r) == Encode(r);
    ReadsOneReply(none, r);
    TwoChunks(ParseCall, p, bad, Encode(r));
  }

  // ----- the parser object -----

  class MemcacheBinaryProtocol {
    var m_read_buf: seq<Byte>
    var m_keep_value: bool
    var m_response_state: ResponseState
    var m_response_hdr: Header
    var m_response_len: nat
    var m_last_response: BinaryResponse

    ghost function View(): BinaryParser
      reads this
    {
      BinaryParser(m_response_state, m_response_hdr, m_response_len, m_last_response, m_keep_value)
    }

    constructor ()
      ensures View() == BinaryParser(Initial, Header(0, 0, 0, 0, 0), 0, BinaryResponse(None, None, 0, false), false)
      ensures m_read_buf == []
    {
      m_read_buf, m_keep_value := [], false;
      m_response_state, m_response_hdr, m_response_len := Initial, Header(0, 0, 0, 0, 0), 0;
      m_last_response := BinaryResponse(None, None, 0, false);
    }

    /** The turn of the loop that has led to the present fields. */
    ghost function TurnTaken(ret: Option<int>): Turn
      reads this
    {
      match ret
      case None => Again(View(), m_read_buf)
      case Some(r) => Return(Call(View(), m_read_buf, r))
    }

    /** The `rs_initial` state. Some(ret) is a `return ret`. */
    method ReadHeaderTurn() returns (ret: Option<int>)
      requires m_response_state == Initial
      modifies this
      ensures Iterate(old(View()), old(m_read_buf)) == TurnTaken(ret)
    {
      hide StatusText, ReadHeader;
      if |m_read_buf| < HEADER_SIZE {
        return Some(0);
      }
      m_response_hdr := ReadHeader(m_read_buf);
      m_read_buf := m_read_buf[HEADER_SIZE..];
      if m_response_hdr.magic != PROTOCOL_BINARY_RES {
        return Some(-1);
      }
      m_response_len := HEADER_SIZE;
      m_last_response := BinaryResponse(StatusText(m_response_hdr.status), None, 0, false);
      if IsError(m_response_hdr.status) {
        m_last_response := m_last_response.(error := true);
      }
      if m_response_hdr.bodylen > 0 {
        m_response_state := ReadBody;
        return None;
      }
      return Some(1);
    }

    /** The `rs_read_body` state. */
    method ReadBodyTurn() returns (ret: int)
      requires m_response_state == ReadBody
      modifies this
      ensures Iterate(old(View()), old(m_read_buf)) == TurnTaken(Some(ret))
    {
      hide StatusText, ReadHeader, OnBody;
      if |m_read_buf| < m_response_hdr.bodylen {
        return 0;
      }
      ret := TakeBody();
    }

    method TakeBody() returns (ret: int)
      modifies this
      ensures Call(View(), m_read_buf, ret) == OnBody(old(View()), old(m_read_buf))
    {
      hide StatusText, ReadHeader, Taken, Drained, ActualBodyLen;
      m_read_buf := Drained(m_read_buf, m_response_hdr.extlen + m_response_hdr.keylen);
      var actualBodyLen := ActualBodyLen(m_response_hdr);
      if m_keep_value {
        if actualBodyLen < 0 {
          m_read_buf := [];
          return ASSERT_FAILED;
        }
        m_last_response := m_last_response.(value := Some(Taken(m_read_buf, actualBodyLen)));
      }
      m_read_buf := DrainedInt(m_read_buf, actualBodyLen);
      if m_response_hdr.status == SUCCESS {
        m_last_response := m_last_response.(hits := m_last_response.hits + 1);
      }
      m_response_len := m_response_len + m_response_hdr.bodylen;
      m_response_state := Initial;
      return 1;
    }

    method ParseResponse() returns (ret: int)
      modifies this
      ensures Call(View(), m_read_buf, ret) == Parse(old(View()), old(m_read_buf))
    {
      hide StatusText, ReadHeader;
      while true
        invariant Parse(View(), m_read_buf) == Parse(old(View()), old(m_read_buf))
        decreases |m_read_buf|
      {
        match m_response_state {
          case Initial =>
            var r := ReadHeaderTurn();
            if r != None {
              return r.value;
            }
          case ReadBody =>
            ret := ReadBodyTurn();
            return;
        }
      }
    }
  }
}
