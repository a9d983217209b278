/** The redis request writers: every command is an array of bulk strings, so a reader that knows only the protocol can
    take any concatenation of them apart again. */
module RespCommands {
  import opened CText

  const CRLF: string := "\r\n"

  function BulkText(arg: string): string { "$" + Dec(|arg|) + CRLF + (arg + CRLF) }

  function BulksText(args: seq<string>): string
  {
    if args == [] then "" else BulkText(args[0]) + BulksText(args[1..])
  }

  /** A request: section "Sending commands to a Redis server" of the protocol. */
  function Request(args: seq<string>): string { "*" + Dec(|args|) + CRLF + BulksText(args) }

  function Requests(commands: seq<seq<string>>): string
  {
    if commands == [] then "" else Request(commands[0]) + Requests(commands[1..])
  }

  // ----- commands -----

  datatype Command =
    | Set(key: string, value: string)
    | SetEx(key: string, expiry: UInt, value: string)
    | SetRange(key: string, offset: UInt, value: string)
    | Get(key: string)
    | GetRange(key: string, offset: UInt)
    | Wait(slaves: UInt, timeout: UInt)
    | Select(db: nat)
    | Auth(credentials: string)
    | ClusterSlots

  function Args(c: Command): seq<string>
  {
    match c
    case Set(k, v) => ["SET", k, v]
    case SetEx(k, e, v) => ["SETEX", k, Dec(e), v]
    case SetRange(k, o, v) => ["SETRANGE", k, Dec(o), v]
    case Get(k) => ["GET", k]
    case GetRange(k, o) => ["GETRANGE", k, Dec(o), "-1"]
    case Wait(n, t) => ["WAIT", Dec(n), Dec(t)]
    case Select(db) => ["SELECT", Dec(db)]
    case Auth(c) => ["AUTH", c]
    case ClusterSlots => ["CLUSTER", "SLOTS"]
  }

  function AllArgs(cs: seq<Command>): seq<seq<string>> { seq(|cs|, i requires 0 <= i < |cs| => Args(cs[i])) }

  // ----- a reader that knows only the protocol -----

  datatype Read<T> = Read(value: T, rest: string)

  /** A line `<type><number>`. */
  function ReadCount(b: string, kind: char): Option<Read<nat>>
  {
    match Readln(b)
    case None => None
    case Some(l) =>
      var n := DigitRun(if l.text == "" then "" else l.text[1..]);
      if l.text != "" && l.text[0] == kind && n > 0 && n == |l.text| - 1
      then Some(Read(DigitsValue(l.text[1..][..n]), l.rest)) else None
  }

  function ReadBulk(b: string): Option<Read<string>>
  {
    match ReadCount(b, '$')
    case None => None
    case Some(n) =>
      if |n.rest| < n.value + 2 || n.rest[n.value..n.value + 2] != CRLF then None
      else Some(Read(n.rest[..n.value], n.rest[n.value + 2..]))
  }

  function ReadBulks(b: string, count: nat): Option<Read<seq<string>>>
  {
    if count == 0 then Some(Read([], b))
    else
      match ReadBulk(b)
      case None => None
      case Some(first) =>
        match ReadBulks(first.rest, count - 1)
        case None => None
        case Some(more) => Some(Read([first.value] + more.value, more.rest))
  }

  function ReadRequest(b: string): Option<Read<seq<string>>>
  {
    match ReadCount(b, '*')
    case None => None
    case Some(n) => ReadBulks(n.rest, n.value)
  }

  /** A whole stream of requests. */
  function ReadRequests(b: string): Option<seq<seq<string>>>
    decreases |b|
  {
    if b == "" then Some([])
    else
      match ReadRequest(b)
      case None => None
      case Some(first) =>
        if |first.rest| >= |b| then None
        else
          match ReadRequests(first.rest)
          case None => None
          case Some(more) => Some([first.value] + more)
  }

  lemma ReadsCount(kind: char, n: nat, rest: string)
    requires kind != '\r'
    ensures ReadCount([kind] + Dec(n) + CRLF + rest, kind) == Some(Read(n, rest))
  {
    var line := [kind] + Dec(n);
    ReadlnOf(line, rest) by { assert NoCrlf(line); }
    assert line[1..] == Dec(n) && Dec(n) + "" == Dec(n);
    DigitRunOf(Dec(n), "");
    DecValue(n);
    assert Dec(n)[..|Dec(n)|] == Dec(n);
  }

  lemma ReadsBulk(arg: string, rest: string)
    ensures ReadBulk(BulkText(arg) + rest) == Some(Read(arg, rest))
  {
    var body := arg + CRLF + rest;
    assert BulkText(arg) + rest == ['$'] + Dec(|arg|) + CRLF + body;
    ReadsCount('$', |arg|, body);
    hide ReadCount, Dec;
    assert body[|arg|..|arg| + 2] == CRLF && body[..|arg|] == arg && body[|arg| + 2..] == rest;
  }

  lemma BulksStep(b: string, count: nat, first: string, rest: string, more: Read<seq<string>>)
    requires count > 0 && ReadBulk(b) == Some(Read(first, rest)) && ReadBulks(rest, count - 1) == Some(more)
    ensures ReadBulks(b, count) == Some(Read([first] + more.value, more.rest))
  {
    hide ReadBulk;
  }

  lemma NoBulks(b: string, count: nat)
    requires count == 0
    ensures ReadBulks(b, count) == Some(Read([], b))
  {
  }

  lemma BulksTail(args: seq<string>, rest: string)
    ensures args == [] ==> BulksText(args) + rest == rest
    ensures args != [] ==> BulksText(args) + rest == BulkText(args[0]) + (BulksText(args[1..]) + rest)
  {
    hide BulkText;
    if args != [] { Assoc(BulkText(args[0]), BulksText(args[1..]), rest); }
  }

  lemma {:induction false} ReadsBulks(args: seq<string>, rest: string)
    ensures ReadBulks(BulksText(args) + rest, |args|) == Some(Read(args, rest))
  {
    hide BulkText, BulksText, ReadBulk, ReadBulks;
    BulksTail(args, rest);
    if args == [] {
      NoBulks(rest, |args|);
    } else {
      var tail := BulksText(args[1..]) + rest;
      ReadsBulk(args[0], tail);
      ReadsBulks(args[1..], rest);
      BulksStep(BulkText(args[0]) + tail, |args|, args[0], tail, Read(args[1..], rest));
      assert [args[0]] + args[1..] == args;
    }
  }

  lemma ReadsRequest(args: seq<string>, rest: string)
    ensures ReadRequest(Request(args) + rest) == Some(Read(args, rest))
  {
    var tail := BulksText(args) + rest;
    assert Request(args) + rest == ['*'] + Dec(|args|) + CRLF + tail;
    ReadsCount('*', |args|, tail);
    ReadsBulks(args, rest);
    hide ReadCount, ReadBulks, Dec, BulksText;
  }

  lemma RequestsStep(b: string, first: seq<string>, rest: string, more: seq<seq<string>>)
    requires ReadRequest(b) == Some(Read(first, rest)) && |rest| < |b| && ReadRequests(rest) == Some(more)
    ensures ReadRequests(b) == Some([first] + more)
  {
    hide ReadRequest;
  }

  lemma NoRequests(b: string)
    requires b == ""
    ensures ReadRequests(b) == Some([])
  {
    hide ReadRequest;
  }

  lemma RequestNotEmpty(args: seq<string>)
    ensures |Request(args)| > 0
  {
  }

  /** Any requests, written one after the other, read back as those requests, whatever bytes the arguments hold. */
  lemma {:induction false} RequestsReadBack(commands: seq<seq<string>>)
    ensures ReadRequests(Requests(commands)) == Some(commands)
  {
    hide ReadRequest, Request, ReadRequests;
    if commands == [] {
      NoRequests(Requests(commands));
    } else {
      var tail := Requests(commands[1..]);
      ReadsRequest(commands[0], tail);
      RequestNotEmpty(commands[0]);
      RequestsReadBack(commands[1..]);
      RequestsStep(Request(commands[0]) + tail, commands[0], tail, commands[1..]);
      assert [commands[0]] + commands[1..] == commands;
    }
  }

  // ----- commands from their arguments -----

  function Number(s: string): Option<nat>
  {
    if s != "" && DigitRun(s) == |s| then Some(DigitsValue(s[..DigitRun(s)])) else None
  }

  lemma NumberReads(n: nat)
    ensures Number(Dec(n)) == Some(n)
  {
    assert Dec(n) + "" == Dec(n);
    DigitRunOf(Dec(n), "");
    DecValue(n);
    assert Dec(n)[..|Dec(n)|] == Dec(n);
  }

  function UintOf(s: string): UInt
  {
    match Number(s)
    case Some(n) => AsUint32(n)
    case None => 0
  }

  /** The command a request asks for, by its name. */
  function CommandOf(args: seq<string>): Option<Command>
  {
    if |args| == 3 && args[0] == "SET" then Some(Set(args[1], args[2]))
    else if |args| == 4 && args[0] == "SETEX" then Some(SetEx(args[1], UintOf(args[2]), args[3]))
    else if |args| == 4 && args[0] == "SETRANGE" then Some(SetRange(args[1], UintOf(args[2]), args[3]))
    else if |args| == 2 && args[0] == "GET" then Some(Get(args[1]))
    else if |args| == 4 && args[0] == "GETRANGE" && args[3] == "-1" then Some(GetRange(args[1], UintOf(args[2])))
    else if |args| == 3 && args[0] == "WAIT" then Some(Wait(UintOf(args[1]), UintOf(args[2])))
    else if |args| == 2 && args[0] == "SELECT" then
      match Number(args[1])
      case Some(n) => Some(Select(n))
      case None => None
    else if |args| == 2 && args[0] == "AUTH" then Some(Auth(args[1]))
    else if args == ["CLUSTER", "SLOTS"] then Some(ClusterSlots)
    else None
  }

  /** No two commands share their arguments. */
  lemma CommandFromArgs(c: Command)
    ensures CommandOf(Args(c)) == Some(c)
  {
    match c
    case SetEx(_, e, _) => NumberReads(e);
    case SetRange(_, o, _) => NumberReads(o);
    case GetRange(_, o) => NumberReads(o);
    case Wait(n, t) => NumberReads(n); NumberReads(t);
    case Select(db) => NumberReads(db);
    case _ =>
  }

  function Commands(requests: seq<seq<string>>): Option<seq<Command>>
  {
    if requests == [] then Some([])
    else
      match (CommandOf(requests[0]), Commands(requests[1..]))
      case (Some(c), Some(more)) => Some([c] + more)
      case _ => None
  }

  lemma {:induction false} CommandsFromArgs(cs: seq<Command>)
    ensures Commands(AllArgs(cs)) == Some(cs)
  {
    if cs != [] {
      CommandFromArgs(cs[0]);
      CommandsFromArgs(cs[1..]);
      assert AllArgs(cs)[1..] == AllArgs(cs[1..]);
      assert [cs[0]] + cs[1..] == cs;
      hide CommandOf, Args;
    }
  }

  /** Commands written one after the other decode to the same commands with the same arguments. */
  lemma CommandsReadBack(cs: seq<Command>)
    ensures var requests := ReadRequests(Requests(AllArgs(cs)));
            requests.Some? && Commands(requests.value) == Some(cs)
  {
    RequestsReadBack(AllArgs(cs));
    CommandsFromArgs(cs);
  }

  lemma {:induction false} RequestsAppend(commands: seq<seq<string>>, one: seq<string>)
    ensures Requests(commands + [one]) == Requests(commands) + Request(one)
  {
    if commands == [] {
      assert [] + [one] == [one] && Requests([one]) == Request(one) + Requests([]);
    } else {
      assert (commands + [one])[1..] == commands[1..] + [one];
      RequestsAppend(commands[1..], one);
    }
  }

  // ----- the writers -----

  /** Digits of an `unsigned int`, by comparison with powers of ten. */
  function NumberLength(num: UInt): (n: nat)
    ensures n == |Dec(num)|
  {
    DecLength(num);
    if num < 10 then 1
    else if num < 100 then 2
    else if num < 1000 then 3
    else if num < 10000 then 4
    else if num < 100000 then 5
    else if num < 1000000 then 6
    else if num < 10000000 then 7
    else if num < 100000000 then 8
    else if num < 1000000000 then 9
    else 10
  }

  lemma {:induction false} DecLength(n: nat)
    ensures n < 0x1_0000_0000 ==>
              |Dec(n)| == (if n < 10 then 1 else if n < 100 then 2 else if n < 1000 then 3 else if n < 10000 then 4
                           else if n < 100000 then 5 else if n < 1000000 then 6 else if n < 10000000 then 7
                           else if n < 100000000 then 8 else if n < 1000000000 then 9 else 10)
  {
    if n >= 10 {
      DecLength(n / 10);
    }
  }

  lemma Flatten(x: string, n: string, b: string, more: string)
    ensures x + (n + (b + more)) == (x + n) + b + more
  {
  }

  function CountLine(n: nat): string { "*" + Dec(n) + CRLF }

  /** The text of a command as the format strings spell it: everything up to the first argument is constant. */
  lemma RequestText(args: seq<string>, head: string)
    requires |args| >= 2 && head == CountLine(|args|) + BulkText(args[0])
    ensures Request(args) == head + BulkText(args[1]) + BulksText(args[2..])
  {
    hide BulkText, Dec;
    assert args[1..][1..] == args[2..];
    assert Request(args) == CountLine(|args|) + BulksText(args);
    hide CountLine, Request;
    Flatten(CountLine(|args|), BulkText(args[0]), BulkText(args[1]), BulksText(args[2..]));
  }

  /** An argument in the writer's pieces: length line, text, and the CRLF that opens the next piece. */
  lemma Weave(head: string, line: string, key: string, crlf: string, more: string)
    ensures head + line + key + (crlf + more) == head + (line + (key + crlf)) + more
  {
  }

  lemma BulksOne(a: string)
    ensures BulksText([a]) == BulkText(a)
  {
    hide BulkText;
    assert BulksText([]) == "";
  }

  lemma BulksTwo(a: string, b: string)
    ensures BulksText([a, b]) == BulkText(a) + BulkText(b)
  {
    BulksOne(b);
    assert [a, b][1..] == [b];
    hide BulkText;
  }

  function LengthLine(arg: string): string { "$" + Dec(|arg|) + CRLF }

  lemma LastWeave(head: string, line: string, value: string, crlf: string)
    ensures head + line + value + crlf == head + (line + (value + crlf))
  {
  }

  /** The pieces of a two-argument command. */
  lemma TwoArguments(name: string, key: string, value: string, head: string)
    requires head == CountLine(3) + BulkText(name)
    ensures Request([name, key, value]) ==
      head + LengthLine(key) + key + (CRLF + LengthLine(value)) + value + CRLF
  {
    hide Dec;
    RequestText([name, key, value], head);
    BulksOne(value);
    assert [name, key, value][2..] == [value];
    Weave(head, LengthLine(key), key, CRLF, LengthLine(value));
    LastWeave(head + BulkText(key), LengthLine(value), value, CRLF);
  }

  lemma ThreeArguments(name: string, a: string, b: string, value: string, head: string)
    requires head == CountLine(4) + BulkText(name)
    ensures Request([name, a, b, value]) ==
      head + LengthLine(a) + a + (CRLF + (LengthLine(b) + (b + CRLF) + LengthLine(value))) + value + CRLF
  {
    hide Dec;
    RequestText([name, a, b, value], head);
    BulksTwo(b, value);
    assert [name, a, b, value][2..] == [b, value];
    Weave(head, LengthLine(a), a, CRLF, LengthLine(b) + (b + CRLF) + LengthLine(value));
    Assoc(head + BulkText(a), LengthLine(b) + (b + CRLF), LengthLine(value));
    LastWeave(head + BulkText(a) + BulkText(b), LengthLine(value), value, CRLF);
    Assoc(head + BulkText(a), BulkText(b), BulkText(value));
  }

  lemma OneArgument(name: string, a: string, head: string)
    requires head == CountLine(2) + BulkText(name)
    ensures Request([name, a]) == head + LengthLine(a) + a + CRLF
  {
    hide Dec;
    RequestText([name, a], head);
    assert [name, a][2..] == [] && BulksText([]) == "";
    LastWeave(head, LengthLine(a), a, CRLF);
  }

  // The constant parts of the format strings.

  lemma SetHead()
    ensures CountLine(3) + BulkText("SET") == "*3\r\n$3\r\nSET\r\n"
  {
    assert Dec(3) == "3";
  }

  lemma SetExHead()
    ensures CountLine(4) + BulkText("SETEX") == "*4\r\n$5\r\nSETEX\r\n"
  {
    assert Dec(4) == "4" && Dec(5) == "5";
  }

  lemma SetRangeHead()
    ensures CountLine(4) + BulkText("SETRANGE") == "*4\r\n$8\r\nSETRANGE\r\n"
  {
    assert Dec(4) == "4" && Dec(8) == "8";
  }

  lemma GetHead()
    ensures CountLine(2) + BulkText("GET") == "*2\r\n$3\r\nGET\r\n"
  {
    assert Dec(2) == "2" && Dec(3) == "3";
  }

  lemma GetRangeHead()
    ensures CountLine(4) + BulkText("GETRANGE") == "*4\r\n$8\r\nGETRANGE\r\n"
    ensures LengthLine("-1") == "$2\r\n"
  {
    assert Dec(4) == "4" && Dec(8) == "8" && Dec(2) == "2";
  }

  lemma WaitHead()
    ensures CountLine(3) + BulkText("WAIT") == "*3\r\n$4\r\nWAIT\r\n"
  {
    assert Dec(3) == "3" && Dec(4) == "4";
  }

  lemma SelectHead()
    ensures CountLine(2) + BulkText("SELECT") == "*2\r\n$6\r\nSELECT\r\n"
  {
    assert Dec(2) == "2" && Dec(6) == "6";
  }

  lemma AuthHead()
    ensures CountLine(2) + BulkText("AUTH") == "*2\r\n$4\r\nAUTH\r\n"
  {
    assert Dec(2) == "2" && Dec(4) == "4";
  }

  lemma ClusterHead()
    ensures CountLine(2) + BulkText("CLUSTER") == "*2\r\n$7\r\nCLUSTER\r\n" && LengthLine("SLOTS") == "$5\r\n"
  {
    assert Dec(2) == "2" && Dec(7) == "7" && Dec(5) == "5";
  }

  lemma ClusterSlotsText()
    ensures Request(Args(ClusterSlots)) == "*2\r\n$7\r\nCLUSTER\r\n$5\r\nSLOTS\r\n"
  {
    hide Dec, Request, LengthLine;
    ClusterHead();
    OneArgument("CLUSTER", "SLOTS", "*2\r\n$7\r\nCLUSTER\r\n");
  }

  // ----- the writer object -----

  /** One more request behind what has been written. */
  lemma StreamGrows(sent: string, buf: string, calls: seq<Command>, c: Command)
    requires sent + buf == Requests(AllArgs(calls))
    ensures sent + (buf + Request(Args(c))) == Requests(AllArgs(calls + [c]))
  {
    hide Requests, Request, Args;
    assert AllArgs(calls + [c]) == AllArgs(calls) + [Args(c)];
    RequestsAppend(AllArgs(calls), Args(c));
    Assoc(sent, buf, Request(Args(c)));
  }

  class RedisWriter {
    var m_write_buf: string
    /** What has gone out to the socket since it was connected, and the commands written in that time. */
    ghost var sent: string
    ghost var calls: seq<Command>

    /** The connection's stream is the requests of the calls made, one after the other. */
    ghost predicate Valid()
      reads this
    {
      sent + m_write_buf == Requests(AllArgs(calls))
    }

    constructor ()
      ensures Valid() && m_write_buf == "" && sent == "" && calls == []
    {
      m_write_buf, sent, calls := "", "", [];
    }

    /** `connect`: the buffer is emptied for a new stream. */
    method Connect()
      modifies this
      ensures Valid() && m_write_buf == "" && sent == "" && calls == []
    {
      m_write_buf, sent, calls := "", "", [];
    }

    /** `evbuffer_write`: some bytes at the front of the buffer go out. */
    method WriteOut(n: nat)
      requires Valid() && n <= |m_write_buf|
      modifies this
      ensures Valid() && calls == old(calls)
      ensures sent == old(sent + m_write_buf[..n]) && m_write_buf == old(m_write_buf[n..])
    {
      hide Requests, AllArgs;
      assert sent + m_write_buf == (sent + m_write_buf[..n]) + m_write_buf[n..];
      sent, m_write_buf := sent + m_write_buf[..n], m_write_buf[n..];
    }

    /** `evbuffer_add_printf`: returns the number of bytes added. */
    method AddPrintf(text: string) returns (n: int)
      modifies this`m_write_buf
      ensures m_write_buf == old(m_write_buf) + text && n == |text|
    {
      m_write_buf := m_write_buf + text;
      n := |text|;
    }

    /** `evbuffer_add`: returns 0. */
    method Add(text: string) returns (n: int)
      modifies this`m_write_buf
      ensures m_write_buf == old(m_write_buf) + text && n == 0
    {
      m_write_buf := m_write_buf + text;
      n := 0;
    }

    /** The three pieces `head`, `middle` and CRLF with the key and the value between them. */
    method AddPieces(head: string, key: string, middle: string, value: string) returns (size: int)
      modifies this`m_write_buf
      ensures m_write_buf == old(m_write_buf) + (head + key + middle + value + CRLF)
      ensures size == |head + key + middle + value + CRLF|
    {
      size := AddPrintf(head);
      var n := Add(key);
      size := size + |key|;
      n := AddPrintf(middle);
      size := size + n;
      n := Add(value);
      n := Add(CRLF);
      size := size + |value| + 2;
    }

    /** An offset makes it a SETRANGE, and the expiry is dropped; an expiry is printed as 32 bits without sign. */
    method WriteCommandSet(key: string, value: string, expiry: int, offset: UInt) returns (size: int)
      requires Valid() && key != "" && value != ""
      modifies this
      ensures var c := if offset > 0 then SetRange(key, offset, value)
                       else if expiry == 0 then Set(key, value)
                       else SetEx(key, expiry % 0x1_0000_0000, value);
              && Valid() && sent == old(sent) && calls == old(calls) + [c]
              && m_write_buf == old(m_write_buf) + Request(Args(c)) && size == |Request(Args(c))|
    {
      hide Dec, LengthLine, Request, Requests, AllArgs;
      if expiry == 0 && offset == 0 {
        SetHead();
        TwoArguments("SET", key, value, "*3\r\n$3\r\nSET\r\n");
        size := AddPieces("*3\r\n$3\r\nSET\r\n" + LengthLine(key), key, CRLF + LengthLine(value), value);
      } else if offset != 0 {
        var offset_str := Dec(offset);
        SetRangeHead();
        ThreeArguments("SETRANGE", key, offset_str, value, "*4\r\n$8\r\nSETRANGE\r\n");
        size := AddPieces("*4\r\n$8\r\nSETRANGE\r\n" + LengthLine(key), key,
                          CRLF + (LengthLine(offset_str) + (offset_str + CRLF) + LengthLine(value)), value);
      } else {
        var expiry_str := Dec(AsUint32(expiry));
        SetExHead();
        ThreeArguments("SETEX", key, expiry_str, value, "*4\r\n$5\r\nSETEX\r\n");
        size := AddPieces("*4\r\n$5\r\nSETEX\r\n" + LengthLine(key), key,
                          CRLF + (LengthLine(expiry_str) + (expiry_str + CRLF) + LengthLine(value)), value);
      }
      ghost var c := if offset > 0 then SetRange(key, offset, value) else if expiry == 0 then Set(key, value)
                     else SetEx(key, AsUint32(expiry), value);
      StreamGrows(sent, old(m_write_buf), calls, c);
      calls := calls + [c];
    }

    method WriteCommandGet(key: string, offset: UInt) returns (size: int)
      requires Valid() && key != ""
      modifies this
      ensures var c := if offset == 0 then Get(key) else GetRange(key, offset);
              && Valid() && sent == old(sent) && calls == old(calls) + [c]
              && m_write_buf == old(m_write_buf) + Request(Args(c)) && size == |Request(Args(c))|
    {
      hide Request, Requests, AllArgs;
      if offset == 0 { size := AddGet(key); } else { size := AddGetRange(key, Dec(offset)); }
      ghost var c := if offset == 0 then Get(key) else GetRange(key, offset);
      StreamGrows(sent, old(m_write_buf), calls, c);
      calls := calls + [c];
    }

    method AddGet(key: string) returns (size: int)
      modifies this`m_write_buf
      ensures var text := Request(["GET", key]); m_write_buf == old(m_write_buf) + text && size == |text|
    {
      hide Dec, LengthLine, Request;
      GetHead();
      OneArgument("GET", key, "*2\r\n$3\r\nGET\r\n");
      size := AddPrintf("*2\r\n$3\r\nGET\r\n" + LengthLine(key));
      var n := Add(key);
      n := Add(CRLF);
      size := size + |key| + 2;
    }

    method AddGetRange(key: string, offset_str: string) returns (size: int)
      modifies this`m_write_buf
      ensures var text := Request(["GETRANGE", key, offset_str, "-1"]);
              m_write_buf == old(m_write_buf) + text && size == |text|
    {
      hide Dec, LengthLine, Request;
      GetRangeHead();
      ThreeArguments("GETRANGE", key, offset_str, "-1", "*4\r\n$8\r\nGETRANGE\r\n");
      size := AddPrintf("*4\r\n$8\r\nGETRANGE\r\n" + LengthLine(key));
      var n := Add(key);
      size := size + |key|;
      n := AddPrintf(CRLF + (LengthLine(offset_str) + (offset_str + CRLF) + "$2\r\n") + "-1" + CRLF);
      size := size + n;
    }

    method WriteCommandWait(num_slaves: UInt, timeout: UInt) returns (size: int)
      requires Valid()
      modifies this
      ensures var c := Wait(num_slaves, timeout);
              && Valid() && sent == old(sent) && calls == old(calls) + [c]
              && m_write_buf == old(m_write_buf) + Request(Args(c)) && size == |Request(Args(c))|
    {
      WaitHead();
      TwoArguments("WAIT", Dec(num_slaves), Dec(timeout), "*3\r\n$4\r\nWAIT\r\n");
      hide Request, Requests, AllArgs;
      size := AddPrintf("*3\r\n$4\r\nWAIT\r\n" + ("$" + Dec(NumberLength(num_slaves)) + "\r\n") + Dec(num_slaves)
                        + ("\r\n" + ("$" + Dec(NumberLength(timeout)) + "\r\n")) + Dec(timeout) + "\r\n");
      ghost var c := Wait(num_slaves, timeout);
      StreamGrows(sent, old(m_write_buf), calls, c);
      calls := calls + [c];
    }

    method SelectDb(db: nat) returns (size: int)
      requires Valid()
      modifies this
      ensures var c := Select(db);
              && Valid() && sent == old(sent) && calls == old(calls) + [c]
              && m_write_buf == old(m_write_buf) + Request(Args(c)) && size == |Request(Args(c))|
    {
      hide Dec, Request, Requests, AllArgs;
      var db_str := Dec(db);
      SelectHead();
      OneArgument("SELECT", db_str, "*2\r\n$6\r\nSELECT\r\n");
      size := AddPrintf("*2\r\n$6\r\nSELECT\r\n" + LengthLine(db_str) + db_str + CRLF);
      ghost var c := Select(db);
      StreamGrows(sent, old(m_write_buf), calls, c);
      calls := calls + [c];
    }

    method Authenticate(credentials: string) returns (size: int)
      requires Valid()
      modifies this
      ensures var c := Auth(credentials);
              && Valid() && sent == old(sent) && calls == old(calls) + [c]
              && m_write_buf == old(m_write_buf) + Request(Args(c)) && size == |Request(Args(c))|
    {
      hide Dec, Request, Requests, AllArgs;
      AuthHead();
      OneArgument("AUTH", credentials, "*2\r\n$4\r\nAUTH\r\n");
      size := AddPrintf("*2\r\n$4\r\nAUTH\r\n" + LengthLine(credentials) + credentials + CRLF);
      ghost var c := Auth(credentials);
      StreamGrows(sent, old(m_write_buf), calls, c);
      calls := calls + [c];
    }

    /** The one writer whose result is not the number of bytes: `evbuffer_add` says 0 for success. */
    method WriteCommandClusterSlots() returns (size: int)
      requires Valid()
      modifies this
      ensures Valid() && sent == old(sent) && calls == old(calls) + [ClusterSlots]
      ensures var text := Request(Args(ClusterSlots));
              m_write_buf == old(m_write_buf) + text && |text| == 28 && size == 0
    {
      hide Requests, AllArgs;
      ClusterSlotsText();
      size := Add("*2\r\n$7\r\nCLUSTER\r\n$5\r\nSLOTS\r\n");
      ghost var c := ClusterSlots;
      StreamGrows(sent, old(m_write_buf), calls, c);
      calls := calls + [c];
    }
  }

  /** A server that reads everything one connection writes sees exactly the calls made on its writer, in order, with
      their operands. */
  lemma WrittenReadsBack(w: RedisWriter)
    requires w.Valid()
    ensures var requests := ReadRequests(w.sent + w.m_write_buf);
            requests.Some? && Commands(requests.value) == Some(w.calls)
  {
    hide Requests, AllArgs;
    CommandsReadBack(w.calls);
  }
}
