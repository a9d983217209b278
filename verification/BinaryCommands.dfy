/** The memcached binary request writers (section 2 of the memcached binary protocol), and the PLAIN credentials inside
    the authentication request (section 2 of RFC 4616). */
module BinaryCommands {
  import opened CText
  import opened Bytes

  const PROTOCOL_BINARY_REQ: Byte := 0x80
  const CMD_GET: Byte := 0x00
  const CMD_SET: Byte := 0x01
  const CMD_SASL_AUTH: Byte := 0x21
  const HEADER_SIZE: nat := 24

  /** "PLAIN" */
  const Plain: seq<Byte> := [0x50, 0x4c, 0x41, 0x49, 0x4e]

  datatype Request =
    | Set(key: seq<Byte>, value: seq<Byte>, expiry: UInt)
    | Get(key: seq<Byte>)
    | SaslAuth(user: seq<Byte>, password: seq<Byte>)

  /** A request as the wire format divides it. */
  datatype Packet = Packet(opcode: Byte, extras: seq<Byte>, key: seq<Byte>, value: seq<Byte>)

  function PacketOf(r: Request): Packet
  {
    match r
    case Set(k, v, e) => Packet(CMD_SET, Zero32 + BE32(e), k, v)
    case Get(k) => Packet(CMD_GET, [], k, [])
    case SaslAuth(u, p) => Packet(CMD_SASL_AUTH, [], Plain, [0] + u + ([0] + p))
  }

  function BodyLen(p: Packet): nat { |p.extras| + |p.key| + |p.value| }

  /** The header fields hold the lengths. */
  predicate Fits(p: Packet)
  {
    |p.extras| < 0x100 && |p.key| < 0x1_0000 && BodyLen(p) < 0x1_0000_0000
  }

  /** `memset` to zero, then magic, opcode, and the lengths through `htons`/`htonl`, which keep their low bits. */
  function HeaderBytes(opcode: Byte, keylen: nat, extlen: Byte, bodylen: nat): (b: seq<Byte>)
    ensures |b| == HEADER_SIZE
  {
    [PROTOCOL_BINARY_REQ, opcode] + BE16(keylen % 0x1_0000) + [extlen, 0, 0, 0]
      + BE32(bodylen % 0x1_0000_0000) + Zero32 + Zero32 + Zero32
  }

  function Encode(p: Packet): seq<Byte>
    requires |p.extras| < 0x100
  {
    HeaderBytes(p.opcode, |p.key|, |p.extras|, BodyLen(p)) + (p.extras + (p.key + p.value))
  }

  function EncodeAll(rs: seq<Request>): seq<Byte>
  {
    if rs == [] then [] else Encode(PacketOf(rs[0])) + EncodeAll(rs[1..])
  }

  // ----- a reader that knows only the protocol -----

  datatype Read<T> = Read(value: T, rest: seq<Byte>)

  function ReadPacket(b: seq<Byte>): Option<Read<Packet>>
  {
    if |b| < 24 || b[0] != 0x80 then None
    else
      var keylen, extlen, bodylen := At16(b, 2), b[4], At32(b, 8);
      var body := b[24..];
      if extlen + keylen > bodylen || |body| < bodylen then None
      else Some(Read(Packet(b[1], body[..extlen], body[extlen..extlen + keylen], body[extlen + keylen..bodylen]),
                     body[bodylen..]))
  }

  /** Bytes up to the first `stop`, or -1 if there is none. */
  function IndexOf(b: seq<Byte>, stop: Byte): (i: int)
    ensures -1 <= i < |b|
    ensures i == -1 ==> stop !in b
    ensures i >= 0 ==> b[i] == stop && stop !in b[..i]
  {
    if b == [] then -1
    else if b[0] == stop then 0
    else
      var i := IndexOf(b[1..], stop);
      assert i >= 0 ==> b[..i + 1] == [b[0]] + b[1..][..i];
      if i == -1 then -1 else i + 1
  }

  /** PLAIN: an empty authorization identity, NUL, the user, NUL, the password. */
  function ReadPlain(message: seq<Byte>): Option<Request>
  {
    if message == [] || message[0] != 0 then None
    else
      var m := message[1..];
      var i := IndexOf(m, 0);
      if i == -1 || 0 in m[i + 1..] then None else Some(SaslAuth(m[..i], m[i + 1..]))
  }

  function RequestOf(p: Packet): Option<Request>
  {
    if p.opcode == 0x01 && |p.extras| == 8 then Some(Set(p.key, p.value, At32(p.extras, 4)))
    else if p.opcode == 0x00 && p.extras == [] && p.value == [] then Some(Get(p.key))
    else if p.opcode == 0x21 && p.extras == [] && p.key == [0x50, 0x4c, 0x41, 0x49, 0x4e] then ReadPlain(p.value)
    else None
  }

  function ReadRequests(b: seq<Byte>): Option<seq<Request>>
    decreases |b|
  {
    if b == [] then Some([])
    else
      match ReadPacket(b)
      case None => None
      case Some(first) =>
        if |first.rest| >= |b| then None
        else
          match (RequestOf(first.value), ReadRequests(first.rest))
          case (Some(r), Some(more)) => Some([r] + more)
          case _ => None
  }

  lemma HeaderReads(opcode: Byte, keylen: U16, extlen: Byte, bodylen: UInt, rest: seq<Byte>)
    ensures var b := HeaderBytes(opcode, keylen, extlen, bodylen) + rest;
            && b[0] == PROTOCOL_BINARY_REQ && b[1] == opcode
            && At16(b, 2) == keylen && b[4] == extlen && At32(b, 8) == bodylen
  {
    var b := HeaderBytes(opcode, keylen, extlen, bodylen) + rest;
    var lead, flags := [PROTOCOL_BINARY_REQ, opcode], [extlen, 0, 0, 0];
    var tail := Zero32 + Zero32 + Zero32 + rest;
    assert b == lead + BE16(keylen) + (flags + BE32(bodylen) + tail);
    BE16Reads(keylen, lead, flags + BE32(bodylen) + tail);
    assert b == (lead + BE16(keylen) + flags) + BE32(bodylen) + tail;
    BE32Reads(bodylen, lead + BE16(keylen) + flags, tail);
  }

  lemma ReadsPacket(p: Packet, rest: seq<Byte>)
    requires Fits(p)
    ensures ReadPacket(Encode(p) + rest) == Some(Read(p, rest))
  {
    var body := p.extras + (p.key + p.value);
    var b := Encode(p) + rest;
    assert b == HeaderBytes(p.opcode, |p.key|, |p.extras|, BodyLen(p)) + (body + rest);
    HeaderReads(p.opcode, |p.key|, |p.extras|, BodyLen(p), body + rest);
    hide HeaderBytes;
    var got := b[HEADER_SIZE..];
    assert got == body + rest;
    assert got[..|p.extras|] == p.extras;
    assert got[|p.extras|..|p.extras| + |p.key|] == p.key;
    assert got[|p.extras| + |p.key|..BodyLen(p)] == p.value;
    assert got[BodyLen(p)..] == rest;
  }

  /** Credentials come from a C string split at its first colon, so neither half holds a NUL. */
  predicate ValidRequest(r: Request)
  {
    Fits(PacketOf(r)) && (r.SaslAuth? ==> 0 !in r.user && 0 !in r.password)
  }

  lemma {:induction false} IndexOfFirst(a: seq<Byte>, stop: Byte, b: seq<Byte>)
    requires stop !in a
    ensures IndexOf(a + ([stop] + b), stop) == |a|
  {
    if a == [] {
      assert a + ([stop] + b) == [stop] + b;
    } else {
      assert a[0] in a && (a + ([stop] + b))[1..] == a[1..] + ([stop] + b);
      IndexOfFirst(a[1..], stop, b);
    }
  }

  lemma RequestFromPacket(r: Request)
    requires ValidRequest(r)
    ensures RequestOf(PacketOf(r)) == Some(r)
  {
    match r
    case Set(k, v, e) =>
      assert Zero32 + BE32(e) == Zero32 + BE32(e) + [];
      BE32Reads(e, Zero32, []);
    case Get(k) =>
    case SaslAuth(u, p) =>
      var m := u + ([0] + p);
      assert ([0] + u + ([0] + p))[1..] == m;
      IndexOfFirst(u, 0, p);
      assert m[..|u|] == u && m[|u| + 1..] == p;
  }

  /** Any requests, written one after the other, read back as those requests. */
  lemma {:induction false} RequestsReadBack(rs: seq<Request>)
    requires forall r <- rs :: ValidRequest(r)
    ensures ReadRequests(EncodeAll(rs)) == Some(rs)
  {
    if rs != [] {
      var r, tail := rs[0], EncodeAll(rs[1..]);
      assert ValidRequest(r);
      ReadsPacket(PacketOf(r), tail);
      RequestFromPacket(r);
      assert |Encode(PacketOf(r))| > 0;
      hide ReadPacket, RequestOf, Encode, PacketOf;
      RequestsReadBack(rs[1..]);
      assert [rs[0]] + rs[1..] == rs;
    }
  }

  lemma {:induction false} EncodeAllAppends(rs: seq<Request>, r: Request)
    ensures EncodeAll(rs + [r]) == EncodeAll(rs) + Encode(PacketOf(r))
  {
    if rs == [] {
      assert [] + [r] == [r] && EncodeAll([r]) == Encode(PacketOf(r)) + EncodeAll([]);
    } else {
      assert (rs + [r])[1..] == rs[1..] + [r];
      hide Encode;
      EncodeAllAppends(rs[1..], r);
    }
  }

  // ----- the bytes of a request -----

  lemma HeadBytes(opcode: Byte, keylen: seq<Byte>, extlen: Byte, bodylen: seq<Byte>, head: seq<Byte>)
    requires |keylen| == 2 && |bodylen| == 4
    requires head == [0x80, opcode] + keylen + [extlen, 0, 0, 0] + bodylen + Zero32 + Zero32 + Zero32
    ensures |head| == 24 && head[0] == 0x80 && head[1] == opcode && head[4] == extlen
    ensures head[2] == keylen[0] && head[3] == keylen[1] && head[5] == head[6] == head[7] == 0
    ensures head[8] == bodylen[0] && head[9] == bodylen[1] && head[10] == bodylen[2] && head[11] == bodylen[3]
    ensures forall i :: 12 <= i < 24 ==> head[i] == 0
  {
  }

  lemma HeadIs(opcode: Byte, keylen: U16, extlen: Byte, bodylen: UInt)
    ensures HeaderBytes(opcode, keylen, extlen, bodylen)
         == [0x80, opcode] + BE16(keylen) + [extlen, 0, 0, 0] + BE32(bodylen) + Zero32 + Zero32 + Zero32
  {
    hide BE16, BE32;
  }

  lemma HeaderLayout(p: Packet, b: seq<Byte>, head: seq<Byte>)
    requires Fits(p) && b == Encode(p) && head == HeaderBytes(p.opcode, |p.key|, |p.extras|, BodyLen(p))
    ensures |b| == 24 + |p.extras| + |p.key| + |p.value| && b[24..] == p.extras + (p.key + p.value) && b[..24] == head
    ensures head[0] == 0x80 && head[1] == p.opcode && head[4] == |p.extras|
    ensures head[2] as int * 0x100 + head[3] as int == |p.key|
    ensures head[8] as int * 0x100_0000 + head[9] as int * 0x1_0000 + head[10] as int * 0x100 + head[11] as int
         == |b| - 24
    ensures head[5] == head[6] == head[7] == 0 && forall i :: 12 <= i < 24 ==> head[i] == 0
  {
    HeadIs(p.opcode, |p.key|, |p.extras|, BodyLen(p));
    NetworkOrder(|p.key|);
    NetworkOrder(BodyLen(p));
    hide BE16, BE32, HeaderBytes;
    HeadBytes(p.opcode, BE16(|p.key|), |p.extras|, BE32(BodyLen(p)), head);
  }

  lemma BodySlices(b: seq<Byte>)
    requires |b| >= 32
    ensures b[24..28] == b[24..][..4] && b[32..] == b[24..][8..]
  {
  }

  /** Every byte of every request: magic, opcode, the lengths with their most significant byte first, zeros in all
      fields that are not used, and behind the 24 bytes of the header the extras (no flags, and the expiry), key and
      value. */
  lemma Layout(r: Request, b: seq<Byte>)
    requires Fits(PacketOf(r)) && b == Encode(PacketOf(r))
    ensures |b| >= 24 && b[0] == 0x80 && b[5] == b[6] == b[7] == 0 && forall i :: 12 <= i < 24 ==> b[i] == 0
    ensures b[8] as int * 0x100_0000 + b[9] as int * 0x1_0000 + b[10] as int * 0x100 + b[11] as int == |b| - 24
    ensures match r
            case Set(k, v, e) =>
              && b[1] == 0x01 && b[2] as int * 0x100 + b[3] as int == |k| && b[4] == 8
              && |b| == 32 + |k| + |v| && b[24..28] == [0, 0, 0, 0] && b[32..] == k + v
              && b[28] as int * 0x100_0000 + b[29] as int * 0x1_0000 + b[30] as int * 0x100 + b[31] as int == e
            case Get(k) => b[1] == 0x00 && b[2] as int * 0x100 + b[3] as int == |k| && b[4] == 0 && b[24..] == k
            case SaslAuth(u, p) =>
              && b[1] == 0x21 && b[2] == 0 && b[3] == 5 && b[4] == 0
              && b[24..] == [0x50, 0x4c, 0x41, 0x49, 0x4e] + ([0] + u + ([0] + p))
  {
    var head := HeaderBytes(PacketOf(r).opcode, |PacketOf(r).key|, |PacketOf(r).extras|, BodyLen(PacketOf(r)));
    HeaderLayout(PacketOf(r), b, head);
    hide Encode, HeaderBytes;
    assert forall i :: 0 <= i < 24 ==> b[i] == b[..24][i];
    match r
    case Set(k, v, e) =>
      NetworkOrder(e);
      hide BE32;
      var body := b[24..];
      assert body == Zero32 + BE32(e) + (k + v);
      BodySlices(b);
      assert forall i :: 4 <= i < 8 ==> body[i] == BE32(e)[i - 4] && b[24 + i] == body[i];
    case Get(k) =>
      assert b[24..] == k;
    case SaslAuth(u, p) =>
      assert [] + (Plain + ([0] + u + ([0] + p))) == Plain + ([0] + u + ([0] + p));
  }

  // ----- the writer object -----

  /** One more request behind what has been written. */
  lemma StreamGrows(sent: seq<Byte>, buf: seq<Byte>, calls: seq<Request>, r: Request)
    requires sent + buf == EncodeAll(calls)
    ensures sent + (buf + Encode(PacketOf(r))) == EncodeAll(calls + [r])
  {
    hide EncodeAll, Encode;
    EncodeAllAppends(calls, r);
    Assoc(sent, buf, Encode(PacketOf(r)));
  }

  class BinaryWriter {
    var m_write_buf: seq<Byte>
    /** What has gone out to the socket since it was connected, and the requests written in that time. */
    ghost var sent: seq<Byte>
    ghost var calls: seq<Request>

    /** The connection's stream is the requests of the calls made, one after the other. */
    ghost predicate Valid()
      reads this
    {
      sent + m_write_buf == EncodeAll(calls)
    }

    constructor ()
      ensures Valid() && m_write_buf == [] && sent == [] && calls == []
    {
      m_write_buf, sent, calls := [], [], [];
    }

    /** `connect`: the buffer is emptied for a new stream. */
    method Connect()
      modifies this
      ensures Valid() && m_write_buf == [] && sent == [] && calls == []
    {
      m_write_buf, sent, calls := [], [], [];
    }

    /** `evbuffer_write`: some bytes at the front of the buffer go out. */
    method WriteOut(n: nat)
      requires Valid() && n <= |m_write_buf|
      modifies this
      ensures Valid() && calls == old(calls)
      ensures sent == old(sent + m_write_buf[..n]) && m_write_buf == old(m_write_buf[n..])
    {
      hide EncodeAll;
      assert sent + m_write_buf == (sent + m_write_buf[..n]) + m_write_buf[n..];
      sent, m_write_buf := sent + m_write_buf[..n], m_write_buf[n..];
    }

    method Add(bytes: seq<Byte>)
      modifies this`m_write_buf
      ensures m_write_buf == old(m_write_buf) + bytes
    {
      m_write_buf := m_write_buf + bytes;
    }

    method WriteCommandSet(key: seq<Byte>, value: seq<Byte>, expiry: UInt) returns (size: int)
      requires Valid() && key != [] && value != []
      modifies this
      ensures var r := Set(key, value, expiry);
              && Valid() && sent == old(sent) && calls == old(calls) + [r]
              && m_write_buf == old(m_write_buf) + Encode(PacketOf(r)) && size == |Encode(PacketOf(r))|
    {
      hide HeaderBytes, BE32, EncodeAll;
      ghost var before := m_write_buf;
      var head := HeaderBytes(CMD_SET, |key|, 8, 8 + |value| + |key|);
      Add(head + (Zero32 + BE32(expiry)));
      Add(key);
      Add(value);
      size := HEADER_SIZE + 8 + |key| + |value|;
      Pieces(before, head, Zero32 + BE32(expiry), key, value);
      ghost var r := Set(key, value, expiry);
      StreamGrows(sent, before, calls, r);
      calls := calls + [r];
    }

    method WriteCommandGet(key: seq<Byte>) returns (size: int)
      requires Valid() && key != []
      modifies this
      ensures var r := Get(key);
              && Valid() && sent == old(sent) && calls == old(calls) + [r]
              && m_write_buf == old(m_write_buf) + Encode(PacketOf(r)) && size == |Encode(PacketOf(r))|
    {
      hide HeaderBytes, EncodeAll;
      ghost var before := m_write_buf;
      var head := HeaderBytes(CMD_GET, |key|, 0, |key|);
      Add(head);
      Add(key);
      size := HEADER_SIZE + |key|;
      Pieces(before, head, [], key, []);
      assert head + [] == head;
      ghost var r := Get(key);
      StreamGrows(sent, before, calls, r);
      calls := calls + [r];
    }

    /** The credentials are split at the first colon. */
    method Authenticate(credentials: seq<Byte>) returns (size: int)
      requires Valid() && 0x3a in credentials
      modifies this
      ensures exists user, password :: credentials == user + [0x3a] + password && 0x3a !in user &&
                var r := SaslAuth(user, password);
                && Valid() && sent == old(sent) && calls == old(calls) + [r]
                && m_write_buf == old(m_write_buf) + Encode(PacketOf(r)) && size == |Encode(PacketOf(r))|
    {
      hide HeaderBytes, EncodeAll;
      ghost var before := m_write_buf;
      var colon := IndexOf(credentials, 0x3a);
      var user, passwd := credentials[..colon], credentials[colon + 1..];
      assert credentials == user + [0x3a] + passwd;
      var head := HeaderBytes(CMD_SASL_AUTH, |Plain|, 0, |Plain| + |user| + |passwd| + 2);
      Add(head);
      Add(Plain);
      Add([0]);
      Add(user);
      Add([0]);
      Add(passwd);
      size := HEADER_SIZE + |user| + |passwd| + 2 + |Plain|;
      Pieces(before, head, [], Plain, [0] + user + ([0] + passwd));
      assert head + [] == head;
      CredentialPieces(before + head + Plain, [0], user, [0], passwd);
      ghost var r := SaslAuth(user, passwd);
      StreamGrows(sent, before, calls, r);
      calls := calls + [r];
    }
  }

  lemma Pieces(before: seq<Byte>, head: seq<Byte>, extras: seq<Byte>, key: seq<Byte>, value: seq<Byte>)
    ensures before + (head + extras) + key + value == before + (head + (extras + (key + value)))
  {
  }

  lemma CredentialPieces(before: seq<Byte>, a: seq<Byte>, b: seq<Byte>, c: seq<Byte>, d: seq<Byte>)
    ensures before + a + b + c + d == before + (a + b + (c + d))
  {
  }

  /** A server that reads everything one connection writes sees exactly the calls made on its writer, in order, as long
      as lengths fit their header fields and credentials are C strings. */
  lemma WrittenReadsBack(w: BinaryWriter)
    requires w.Valid() && forall r <- w.calls :: ValidRequest(r)
    ensures ReadRequests(w.sent + w.m_write_buf) == Some(w.calls)
  {
    hide EncodeAll, ReadRequests, ValidRequest;
    RequestsReadBack(w.calls);
  }
}
