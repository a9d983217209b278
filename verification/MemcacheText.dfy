/** The memcached text protocol: a resumable parser of "VALUE ... END" and "STORED" responses. */
module MemcacheText {
  import opened CText
  import opened Protocol
  import opened Fragmentation

  datatype ResponseState = Initial | ReadSection | ReadValue | ReadEnd

  /** The parser object's fields, as a value. */
  datatype TextParser = TextParser(state: ResponseState, valueLen: UInt, responseLen: nat, last: Response)

  // ----- the VALUE line -----

  function WordRun(s: string): (n: nat)
    ensures n <= |s|
  {
    if s == "" || IsSpace(s[0]) then 0 else 1 + WordRun(s[1..])
  }

  /** `%s` */
  function AfterWord(s: string): Option<string>
  {
    var t := s[SpaceRun(s)..];
    if WordRun(t) == 0 then None else Some(t[WordRun(t)..])
  }

  /** `%u` */
  function AfterUint(s: string): Option<string>
  {
    var r := ScanNumber(s);
    if r.end == 0 then None else Some(s[r.end..])
  }

  /** The value length of a VALUE line, when `sscanf(line, "%s %s %u %u %u")` converts at least four items. */
  function ScanValueLine(line: string): Option<UInt>
  {
    match AfterWord(CString(line))
    case None => None
    case Some(s1) =>
      match AfterWord(s1)
      case None => None
      case Some(s2) =>
        match AfterUint(s2)
        case None => None
        case Some(s3) => if AfterUint(s3).None? then None else Some(StrtoulAsUint(s3))
  }

  // ----- the parser as a function -----

  /** What a line of a response announces. */
  datatype LineKind = ValueHeader(len: UInt) | BadHeader | Terminator | Unknown

  predicate IsValueLine(line: string) { "VALUE" <= line }

  predicate IsLastLine(line: string) { "END" <= line || "STORED" <= line }

  function Classify(line: string): LineKind
  {
    if IsValueLine(line) then
      match ScanValueLine(line)
      case Some(n) => ValueHeader(n)
      case None => BadHeader
    else if IsLastLine(line) then Terminator
    else Unknown
  }

  /** A section line has been read: what it does to the response being built. */
  function Section(p: TextParser, line: string): TextParser
  {
    var len := p.responseLen + |line| + 2;
    p.(responseLen := len,
       last := p.last.(status := if p.last.status.None? then Some(line) else p.last.status,
                       totalLen := AsUint32(len)))
  }

  /** One turn of the `while (true)` loop: go round again, or return. */
  datatype Turn = Again(state: TextParser, rest: string) | Return(call: Call<TextParser, char>)

  function ActedOn(q: TextParser, line: string, rest: string): Turn
  {
    match Classify(line)
    case ValueHeader(n) => Again(q.(valueLen := n, state := ReadValue), rest)
    case BadHeader => Return(Call(q, rest, -1))
    case Terminator => Again(q.(state := ReadEnd), rest)
    case Unknown => Return(Call(q.(last := q.last.(error := true)), rest, -1))
  }

  function Iterate(p: TextParser, b: string): Turn
  {
    match p.state
    case Initial => Again(p.(last := Cleared, state := ReadSection, responseLen := 0), b)
    case ReadSection =>
      (match Readln(b)
       case None => Return(Call(p, b, 0))
       case Some(l) => ActedOn(Section(p, l.text), l.text, l.rest))
    case ReadValue =>
      var need := AsUint32(p.valueLen + 2);
      if |b| >= need then
        Again(p.(state := ReadSection, responseLen := p.responseLen + need,
                 last := p.last.(hits := p.last.hits + 1)),
              Drained(Drained(b, p.valueLen), 2))
      else Return(Call(p, b, 0))
    case ReadEnd => Return(Call(p.(state := Initial), b, 1))
  }

  function StateRank(s: ResponseState): nat
  {
    match s case Initial => 1 case ReadSection => 0 case ReadValue => 1 case ReadEnd => 0
  }

  /** One call of `parse_response` with `m_keep_value` off. */
  function Parse(p: TextParser, b: string): (c: Call<TextParser, char>)
    ensures c.state.state != ReadEnd
    ensures |c.rest| <= |b|
    ensures c.ret != 0 && p.state != ReadEnd ==> |c.rest| < |b|
    decreases |b|, StateRank(p.state)
  {
    match Iterate(p, b)
    case Again(q, rest) => Parse(q, rest)
    case Return(c) => c
  }

  lemma IterateShrinks(p: TextParser, b: string)
    ensures match Iterate(p, b)
            case Again(q, rest) => |rest| < |b| || (rest == b && StateRank(q.state) < StateRank(p.state))
            case Return(c) => true
  {
    hide Classify, Readln, Section, AsUint32, Drained;
  }

  lemma ParseUnfolds(p: TextParser, b: string)
    ensures match Iterate(p, b)
            case Again(q, rest) =>
              Parse(p, b) == Parse(q, rest) &&
              (|rest| < |b| || (rest == b && StateRank(q.state) < StateRank(p.state)))
            case Return(c) => Parse(p, b) == c
  {
    IterateShrinks(p, b);
    hide Iterate, StateRank;
  }

  // ----- fragmentation -----

  /** Between two calls the parser is never in `ReadEnd`. */
  type Resting = p: TextParser | p.state != ReadEnd witness TextParser(Initial, 0, 0, Cleared)

  function ParseCall(p: Resting, b: string): Call<Resting, char>
  {
    var c := Parse(p, b);
    Call(c.state, c.rest, c.ret)
  }

  /** A call that reports something has consumed something, so the reader's loop ends. */
  lemma EveryReportConsumes()
    ensures Progress(ParseCall)
  {
  }

  /** The loop is at a value whose length makes `m_value_len + 2` wrap around, with enough bytes buffered for the
      wrapped comparison to pass. */
  predicate Wraps(p: TextParser, b: string)
  {
    p.state == ReadValue && p.valueLen + 2 >= UINT_RANGE && |b| >= AsUint32(p.valueLen + 2)
  }

  /** The call gets to such a point. */
  predicate Fragile(p: TextParser, b: string)
    decreases |b|, StateRank(p.state)
  {
    Wraps(p, b) ||
    match Iterate(p, b)
    case Again(q, rest) => Fragile(q, rest)
    case Return(_) => false
  }

  lemma IterateExtends(p: TextParser, b: string, more: string)
    requires !Wraps(p, b)
    ensures match Iterate(p, b)
            case Again(q, rest) => Iterate(p, b + more) == Again(q, rest + more) && !Wraps(p, b + more)
            case Return(c) =>
              if c.ret == 0 then c == Call(p, b, 0)
              else Iterate(p, b + more) == Return(Call(c.state, c.rest + more, c.ret)) && !Wraps(p, b + more)
  {
    hide Classify;
    if p.state == ReadSection && Readln(b).Some? {
      ReadlnExtends(b, more);
    }
    if p.state == ReadValue && |b| >= p.valueLen + 2 {
      assert (b + more)[p.valueLen..][2..] == b[p.valueLen..][2..] + more;
    }
  }

  lemma {:induction false} Extends(p: TextParser, b: string, more: string)
    requires !Fragile(p, b)
    ensures var c := Parse(p, b);
            if c.ret != 0 then Parse(p, b + more) == Call(c.state, c.rest + more, c.ret) && !Fragile(p, b + more)
            else Parse(p, b + more) == Parse(c.state, c.rest + more) &&
                 Fragile(p, b + more) == Fragile(c.state, c.rest + more)
    decreases |b|, StateRank(p.state)
  {
    IterateExtends(p, b, more);
    ParseUnfolds(p, b);
    hide Iterate;
    match Iterate(p, b)
    case Again(q, rest) => Extends(q, rest, more);
    case Return(c) =>
  }

  const EndLine := "END\r\n"

  /** A read buffer that fits in a signed 32-bit length. */
  predicate Buffered(b: string) { |b| < 0x8000_0000 }

  lemma WrapDrains(p: TextParser, b: string)
    requires Wraps(p, b) && Buffered(b)
    ensures var q := p.(state := ReadSection, responseLen := p.responseLen + AsUint32(p.valueLen + 2),
                        last := p.last.(hits := p.last.hits + 1));
            Parse(p, b) == Call(q, [], 0)
  {
    hide Classify, Section, Parse;
    assert Drained(Drained(b, p.valueLen), 2) == [];
    var t := Iterate(p, b);
    assert Readln([]).None?;
    assert Iterate(t.state, []) == Return(Call(t.state, [], 0));
    hide Iterate;
    ParseUnfolds(p, b);
    ParseUnfolds(t.state, []);
  }

  lemma FinishesOnEnd(p: TextParser)
    requires p.state == ReadSection
    ensures Parse(p, EndLine).ret == 1
  {
    assert "END" + "\r\n" + [] == EndLine;
    ReadlnOf("END", []);
    assert Classify("END") == Terminator;
    var t := Iterate(p, EndLine);
    assert Iterate(t.state, t.rest).Return?;
  }

  /** A wrapped length makes the parser swallow the whole buffer, terminator included. */
  lemma {:induction false} Swallows(p: TextParser, b: string, more: string)
    requires Fragile(p, b) && Buffered(b)
    ensures var c := Parse(p, b); c.ret == 0 && c.rest == [] && c.state.state == ReadSection
    ensures Fragile(p, b + more)
    decreases |b|, StateRank(p.state)
  {
    if !Wraps(p, b) {
      IterateExtends(p, b, more);
      var t := Iterate(p, b);
      Swallows(t.state, t.rest, more);
    } else {
      WrapDrains(p, b);
    }
  }

  /** Exactly which calls can be interrupted: those that meet no wrapping value length. */
  lemma StableIffNotFragile(p: Resting, b: string)
    requires Buffered(b + EndLine)
    ensures Stable(ParseCall, p, b) <==> !Fragile(p, b)
  {
    if Fragile(p, b) {
      Swallows(p, b, EndLine);
      Swallows(p, b + EndLine, []);
      var c := Parse(p, b);
      assert c.rest + EndLine == EndLine;
      FinishesOnEnd(c.state);
      assert !StableWith(ParseCall, p, b, EndLine);
    } else {
      forall more ensures StableWith(ParseCall, p, b, more) {
        Extends(p, b, more);
      }
    }
  }

  predicate Risk(p: Resting, b: string) { Fragile(p, b) }

  lemma RiskGuards()
    ensures Progress(ParseCall) && Guards(ParseCall, Risk)
  {
    forall p: Resting, b | !Risk(p, b) ensures Stable(ParseCall, p, b) {
      forall more ensures StableWith(ParseCall, p, b, more) { Extends(p, b, more); }
    }
    forall p: Resting, b, more ensures Risk(p, b) ==> Risk(p, b + more) {
      if Risk(p, b) { FragileGrows(p, b, more); }
    }
    forall p: Resting, b, more | ParseCall(p, b).ret == 0 && !Risk(p, b + more) && !Risk(p, b)
      ensures !Risk(ParseCall(p, b).state, ParseCall(p, b).rest + more)
    {
      Extends(p, b, more);
    }
  }

  lemma {:induction false} FragileGrows(p: TextParser, b: string, more: string)
    requires Fragile(p, b)
    ensures Fragile(p, b + more)
    decreases |b|, StateRank(p.state)
  {
    hide AsUint32;
    if !Wraps(p, b) {
      IterateExtends(p, b, more);
      hide Iterate;
      var t := Iterate(p, b);
      FragileGrows(t.state, t.rest, more);
    }
  }

  lemma LineTakes(p: TextParser, b: string)
    requires p.state == ReadSection && Readln(b).Some?
    ensures var l := Readln(b).value;
            match Iterate(p, b)
            case Again(q, rest) => rest == l.rest && Iterate(p, l.text + "\r\n") == Again(q, "")
            case Return(c) => c.rest == l.rest && Iterate(p, l.text + "\r\n") == Return(Call(c.state, "", c.ret))
  {
    hide Classify, Readln, Section;
    ReadlnAlone(b);
  }

  lemma ValueTakes(p: TextParser, b: string)
    requires p.state == ReadValue && |b| >= p.valueLen + 2 && !Wraps(p, b)
    ensures var n := p.valueLen + 2;
            var t := Iterate(p, b);
            t.Again? && t.rest == b[n..] && Iterate(p, b[..n]) == Again(t.state, "") && !Wraps(p, b[..n])
  {
    var used := b[..p.valueLen + 2];
    assert b[p.valueLen..][2..] == b[p.valueLen + 2..];
    assert Drained(Drained(used, p.valueLen), 2) == "";
  }

  lemma NothingToTake(p: TextParser, b: string)
    requires p.state == ReadSection ==> Readln(b).None?
    requires p.state == ReadValue ==> |b| < p.valueLen + 2
    requires !Wraps(p, b)
    ensures !Wraps(p, "")
    ensures match Iterate(p, b)
            case Again(q, rest) => rest == b && Iterate(p, "") == Again(q, "")
            case Return(c) => c.ret != 0 ==> c.rest == b && Iterate(p, "") == Return(Call(c.state, "", c.ret))
  {
    hide Classify, Section, Readln;
  }

  /** What a turn takes off the buffer is all it needed of it. */
  lemma TurnTakes(p: TextParser, b: string) returns (used: string)
    requires !Wraps(p, b)
    ensures !Wraps(p, used)
    ensures match Iterate(p, b)
            case Again(q, rest) => b == used + rest && Iterate(p, used) == Again(q, "")
            case Return(c) =>
              c.ret != 0 ==> b == used + c.rest && Iterate(p, used) == Return(Call(c.state, "", c.ret))
  {
    hide Iterate, Readln, AsUint32;
    used := "";
    if p.state == ReadSection && Readln(b).Some? {
      ReadlnAlone(b);
      LineTakes(p, b);
      used := Readln(b).value.text + "\r\n";
    } else if p.state == ReadValue && |b| >= p.valueLen + 2 {
      ValueTakes(p, b);
      used := b[..p.valueLen + 2];
    } else {
      NothingToTake(p, b);
      assert "" + b == b;
    }
  }

  /** A response is reported with its last byte, and an error with the line that is wrong. */
  lemma {:induction false} CallTakes(p: TextParser, b: string) returns (used: string)
    requires !Fragile(p, b) && Parse(p, b).ret != 0
    ensures var c := Parse(p, b); b == used + c.rest && Parse(p, used) == Call(c.state, "", c.ret)
    decreases |b|, StateRank(p.state)
  {
    used := TurnTakes(p, b);
    ParseUnfolds(p, b);
    match Iterate(p, b)
    case Again(q, rest) =>
      var tail := CallTakes(q, rest);
      IterateExtends(p, used, tail);
      hide Iterate;
      assert "" + tail == tail;
      ParseUnfolds(p, used + tail);
      Assoc(used, tail, Parse(p, b).rest);
      used := used + tail;
    case Return(c) =>
      ParseUnfolds(p, used);
  }

  lemma ReportsArePrompt()
    ensures Prompt(ParseCall, Risk)
  {
    forall p: Resting, b | ParseCall(p, b).ret != 0 && !Risk(p, b)
      ensures exists used :: TookOnly(ParseCall, p, b, used)
    {
      var used := CallTakes(p, b);
      assert TookOnly(ParseCall, p, b, used);
    }
  }

  lemma {:induction false} ErrorsInSections(p: TextParser, b: string)
    ensures Parse(p, b).ret < 0 ==> Parse(p, b).state.state == ReadSection
    decreases |b|, StateRank(p.state)
  {
    ErrorTurn(p, b);
    ParseUnfolds(p, b);
    hide Iterate, Parse;
    match Iterate(p, b)
    case Again(q, rest) => ErrorsInSections(q, rest);
    case Return(c) =>
  }

  lemma ErrorTurn(p: TextParser, b: string)
    ensures Iterate(p, b).Return? && Iterate(p, b).call.ret < 0 ==> Iterate(p, b).call.state.state == ReadSection
  {
    hide Classify, Readln, Drained, AsUint32;
  }

  /** Between the lines of a response the parser acts on whole lines only. */
  lemma IdleIffNoLine(p: Resting, b: string)
    requires p.state == ReadSection
    ensures Idle(ParseCall, p, b) <==> NoCrlf(b)
  {
    hide Classify;
    ParseUnfolds(p, b);
    if Readln(b).Some? { LineIsTaken(p, b); }
  }

  lemma LineIsTaken(p: TextParser, b: string)
    requires p.state == ReadSection && Readln(b).Some?
    ensures |Parse(p, b).rest| < |b| && !NoCrlf(b)
  {
    ParseUnfolds(p, b);
    hide Classify, Section, Parse;
    var l := Readln(b).value;
    assert CrlfAt(b, |l.text|);
  }

  lemma {:induction false} QuietIffNoLine(p: Resting, b: string)
    requires Progress(ParseCall)
    ensures Quiet(ParseCall, p, b) <==> NoCrlf(LeftBehind(ParseCall, p, b))
    decreases |b|
  {
    hide Parse, Idle, NoCrlf;
    var c := ParseCall(p, b);
    NothingHasNoLine("");
    if c.ret > 0 {
      QuietIffNoLine(c.state, c.rest);
    } else if c.ret < 0 {
      ErrorsInSections(p, b);
      IdleIffNoLine(c.state, c.rest);
    }
  }

  /** A stream of text responses that announces no value within two bytes of 4 GiB may be cut anywhere, if and only if
      no complete line stands behind its first malformed one. */
  lemma FragmentationIndependent(p: Resting, stream: string)
    requires Progress(ParseCall) && Clean(ParseCall, Risk, p, stream)
    ensures (forall chunks :: SameWhenCut(ParseCall, p, stream, chunks))
        <==> NoCrlf(LeftBehind(ParseCall, p, stream))
  {
    RiskGuards();
    ReportsArePrompt();
    QuietIffNoLine(p, stream);
    hide Quiet, Clean, NoCrlf, LeftBehind, SameWhenCut, Prompt, Guards;
    AnyCutIffQuiet(ParseCall, Risk, p, stream);
  }

  // ----- lengths -----

  /** Bytes read so far for the response being parsed. */
  function Read(p: TextParser): nat { if p.state == Initial then 0 else p.responseLen }

  lemma IterateCounts(p: TextParser, b: string)
    requires !Wraps(p, b)
    requires p.state == ReadEnd ==> p.last.totalLen == AsUint32(p.responseLen)
    ensures match Iterate(p, b)
            case Again(q, rest) =>
              && Read(q) - Read(p) == |b| - |rest|
              && (q.state == ReadEnd ==> q.last.totalLen == AsUint32(q.responseLen))
            case Return(c) =>
              && c.state.responseLen == Read(p) + |b| - |c.rest|
              && (c.ret == 1 ==> c.state.last.totalLen == AsUint32(c.state.responseLen))
  {
    hide Classify;
  }

  /** `m_response_len` counts exactly the bytes consumed since the response began, over however many calls it took, and
      a complete response reports that count. */
  lemma {:induction false} CountsConsumedBytes(p: TextParser, b: string)
    requires !Fragile(p, b)
    requires p.state == ReadEnd ==> p.last.totalLen == AsUint32(p.responseLen)
    ensures var c := Parse(p, b);
            && c.state.responseLen == Read(p) + |b| - |c.rest|
            && (c.ret == 1 ==> c.state.last.totalLen == AsUint32(c.state.responseLen))
    decreases |b|, StateRank(p.state)
  {
    hide Iterate;
    IterateCounts(p, b);
    ParseUnfolds(p, b);
    match Iterate(p, b)
    case Again(q, rest) => CountsConsumedBytes(q, rest);
    case Return(c) =>
  }

  // ----- the responses a server sends -----

  datatype Block = Block(key: string, flags: UInt, data: string, cas: Option<UInt>)

  datatype Reply = Stored | Values(blocks: seq<Block>)

  predicate Word(s: string) { s != "" && forall i :: 0 <= i < |s| ==> !IsSpace(s[i]) && s[i] != '\0' }

  predicate ValidBlock(k: Block) { Word(k.key) && |k.data| + 2 < UINT_RANGE }

  function CasText(k: Block): string { if k.cas.Some? then " " + Dec(k.cas.value) else "" }

  function LenText(k: Block): string { " " + Dec(|k.data|) + CasText(k) }

  function FlagsText(k: Block): string { " " + Dec(k.flags) + LenText(k) }

  function KeyText(k: Block): string { " " + k.key + FlagsText(k) }

  function Header(k: Block): string { "VALUE" + KeyText(k) }

  function EncodeBlocks(ks: seq<Block>): string
  {
    if ks == [] then "" else Header(ks[0]) + "\r\n" + (ks[0].data + "\r\n" + EncodeBlocks(ks[1..]))
  }

  function Encode(r: Reply): string
  {
    match r
    case Stored => "STORED\r\n"
    case Values(ks) => EncodeBlocks(ks) + "END\r\n"
  }

  predicate ValidReply(r: Reply) { r.Values? ==> forall k <- r.blocks :: ValidBlock(k) }

  /** What the parser should report for it. */
  function Expected(r: Reply): Response
  {
    var first := if r.Stored? then "STORED" else if r.blocks == [] then "END" else Header(r.blocks[0]);
    Response(Some(first), None, 0, AsUint32(|Encode(r)|), if r.Values? then |r.blocks| else 0, false)
  }

  lemma {:induction false} WordRunOf(w: string, rest: string)
    requires forall i :: 0 <= i < |w| ==> !IsSpace(w[i])
    requires rest == "" || IsSpace(rest[0])
    ensures WordRun(w + rest) == |w|
  {
    if w == "" {
      assert w + rest == rest;
    } else {
      assert (w + rest)[1..] == w[1..] + rest;
      WordRunOf(w[1..], rest);
    }
  }

  lemma AfterWordOf(w: string, rest: string)
    requires Word(w)
    requires rest == "" || IsSpace(rest[0])
    ensures AfterWord(w + rest) == Some(rest) && AfterWord(" " + w + rest) == Some(rest)
  {
    WordRunOf(w, rest);
    assert (w + rest)[0] == w[0] && (w + rest)[0..] == w + rest;
    assert (" " + w + rest)[1..] == w + rest;
    assert (w + rest)[|w|..] == rest;
  }

  lemma ScanSpaced(n: nat, rest: string)
    requires rest == "" || !IsDigit(rest[0])
    ensures ScanNumber(" " + Dec(n) + rest) == Scan(false, n, 1 + |Dec(n)|)
    ensures AfterUint(" " + Dec(n) + rest) == Some(rest)
  {
    hide ScanNumber, Dec;
    ScanNumberOf(n, rest);
    ScanSkipsSpace(Dec(n) + rest);
    SpacedText(Dec(n), rest);
  }

  lemma SpacedText(digits: string, rest: string)
    ensures " " + digits + rest == " " + (digits + rest)
    ensures (" " + digits + rest)[1 + |digits|..] == rest
  {
  }

  /** No NUL and no CR: such a text is one line and one C string. */
  predicate Plain(s: string) { forall i :: 0 <= i < |s| ==> s[i] != '\0' && s[i] != '\r' }

  lemma HeaderPlain(k: Block)
    requires ValidBlock(k)
    ensures Plain(Header(k))
  {
    assert Plain(CasText(k));
    assert Plain(LenText(k));
    assert Plain(FlagsText(k));
    assert Plain(KeyText(k));
  }

  lemma HeaderWords(k: Block)
    requires ValidBlock(k)
    ensures AfterWord(Header(k)) == Some(KeyText(k))
    ensures AfterWord(KeyText(k)) == Some(FlagsText(k))
  {
    AfterWordOf("VALUE", KeyText(k));
    AfterWordOf(k.key, FlagsText(k));
  }

  lemma HeaderNumbers(k: Block)
    requires ValidBlock(k)
    ensures AfterUint(FlagsText(k)) == Some(LenText(k))
    ensures AfterUint(LenText(k)) == Some(CasText(k)) && StrtoulAsUint(LenText(k)) == |k.data|
  {
    ScanSpaced(k.flags, LenText(k));
    ScanSpaced(|k.data|, CasText(k));
  }

  /** Header lines scan back to the length they were written with. */
  lemma HeaderScans(k: Block)
    requires ValidBlock(k)
    ensures ScanValueLine(Header(k)) == Some(|k.data|)
  {
    HeaderPlain(k);
    HeaderWords(k);
    HeaderNumbers(k);
    hide Header, KeyText, FlagsText, LenText, AfterWord, AfterUint, StrtoulAsUint;
  }

  // ----- parsing them back -----

  function AfterBlock(p: TextParser, k: Block): TextParser
    requires ValidBlock(k)
  {
    var q := Section(p, Header(k));
    q.(valueLen := |k.data|, responseLen := q.responseLen + |k.data| + 2, last := q.last.(hits := q.last.hits + 1))
  }

  lemma Turned(p: TextParser, b: string, q: TextParser, rest: string)
    requires Iterate(p, b) == Again(q, rest) && !Wraps(p, b)
    ensures Parse(p, b) == Parse(q, rest) && Fragile(p, b) == Fragile(q, rest)
  {
  }

  lemma ReadsHeader(p: TextParser, k: Block, body: string)
    requires p.state == ReadSection && ValidBlock(k)
    ensures var q := Section(p, Header(k)).(valueLen := |k.data|, state := ReadValue);
            Iterate(p, Header(k) + "\r\n" + body) == Again(q, body)
  {
    HeaderPlain(k);
    ReadlnOf(Header(k), body);
    HeaderScans(k);
    assert Classify(Header(k)) == ValueHeader(|k.data|);
  }

  lemma ReadsValue(p: TextParser, data: string, tail: string)
    requires p.state == ReadValue && p.valueLen == |data| && |data| + 2 < UINT_RANGE
    ensures Iterate(p, data + "\r\n" + tail)
         == Again(p.(state := ReadSection, responseLen := p.responseLen + |data| + 2,
                     last := p.last.(hits := p.last.hits + 1)), tail)
  {
    var body := data + "\r\n" + tail;
    assert body[|data|..][2..] == tail;
  }

  lemma ParsesBlock(p: TextParser, k: Block, tail: string)
    requires p.state == ReadSection && ValidBlock(k)
    ensures var b := Header(k) + "\r\n" + (k.data + "\r\n" + tail);
            Parse(p, b) == Parse(AfterBlock(p, k), tail) && Fragile(p, b) == Fragile(AfterBlock(p, k), tail)
  {
    hide Iterate, Parse, Fragile, Header;
    var body := k.data + "\r\n" + tail;
    var q := Section(p, Header(k)).(valueLen := |k.data|, state := ReadValue);
    ReadsHeader(p, k, body);
    Turned(p, Header(k) + "\r\n" + body, q, body);
    ReadsValue(q, k.data, tail);
    Turned(q, body, AfterBlock(p, k), tail);
  }

  function AfterBlocks(p: TextParser, ks: seq<Block>): TextParser
    requires forall k <- ks :: ValidBlock(k)
    decreases |ks|
  {
    if ks == [] then p else AfterBlocks(AfterBlock(p, ks[0]), ks[1..])
  }

  lemma {:induction false} ParsesBlocks(p: TextParser, ks: seq<Block>, tail: string)
    requires p.state == ReadSection && forall k <- ks :: ValidBlock(k)
    ensures var b := EncodeBlocks(ks) + tail;
            Parse(p, b) == Parse(AfterBlocks(p, ks), tail) && Fragile(p, b) == Fragile(AfterBlocks(p, ks), tail)
    decreases |ks|
  {
    if ks == [] {
      assert EncodeBlocks(ks) + tail == tail;
    } else {
      hide Parse, Fragile, Header, ValidBlock;
      var k, next := ks[0], EncodeBlocks(ks[1..]) + tail;
      ParsesBlock(p, k, next);
      assert EncodeBlocks(ks) + tail == Header(k) + "\r\n" + (k.data + "\r\n" + next);
      ParsesBlocks(AfterBlock(p, k), ks[1..], tail);
    }
  }

  lemma {:induction false} BlocksAddUp(p: TextParser, ks: seq<Block>)
    requires forall k <- ks :: ValidBlock(k)
    ensures var q := AfterBlocks(p, ks);
            && q.state == p.state
            && q.responseLen == p.responseLen + |EncodeBlocks(ks)|
            && q.last.hits == p.last.hits + |ks|
            && q.last.status == (if p.last.status.None? && ks != [] then Some(Header(ks[0])) else p.last.status)
            && q.last.value == p.last.value && q.last.valueLen == p.last.valueLen && q.last.error == p.last.error
    decreases |ks|
  {
    if ks != [] {
      BlocksAddUp(AfterBlock(p, ks[0]), ks[1..]);
    }
  }

  lemma ParsesTerminator(p: TextParser, line: string, rest: string)
    requires p.state == ReadSection && line in {"END", "STORED"}
    ensures var b := line + "\r\n" + rest;
            Parse(p, b) == Call(Section(p, line).(state := Initial), rest, 1) && !Fragile(p, b)
  {
    var b := line + "\r\n" + rest;
    assert NoCrlf(line);
    ReadlnOf(line, rest);
    assert Classify(line) == Terminator;
    var q := Section(p, line).(state := ReadEnd);
    Turned(p, b, q, rest);
    assert Iterate(q, rest).Return?;
  }

  lemma Starts(p: TextParser, b: string)
    requires p.state == Initial
    ensures var q := p.(last := Cleared, state := ReadSection, responseLen := 0);
            Parse(p, b) == Parse(q, b) && Fragile(p, b) == Fragile(q, b)
  {
  }

  lemma ValuesText(ks: seq<Block>, rest: string)
    ensures Encode(Values(ks)) + rest == EncodeBlocks(ks) + ("END" + "\r\n" + rest)
  {
    assert "END" + "\r\n" == EndLine;
    Assoc(EncodeBlocks(ks), EndLine, rest);
    hide EncodeBlocks;
  }

  lemma ValuesAddUp(p: TextParser, ks: seq<Block>)
    requires p.state == ReadSection && p.last == Cleared && p.responseLen == 0
    requires forall k <- ks :: ValidBlock(k)
    ensures AfterBlocks(p, ks).state == ReadSection
    ensures Section(AfterBlocks(p, ks), "END").last == Expected(Values(ks))
  {
    hide AfterBlocks, EncodeBlocks, ValidBlock, Header;
    BlocksAddUp(p, ks);
  }

  lemma ParsesValues(p: TextParser, ks: seq<Block>, rest: string)
    requires p.state == ReadSection && p.last == Cleared && p.responseLen == 0
    requires forall k <- ks :: ValidBlock(k)
    ensures var c := Parse(p, Encode(Values(ks)) + rest);
            c.ret == 1 && c.rest == rest && c.state.state == Initial && c.state.last == Expected(Values(ks))
    ensures !Fragile(p, Encode(Values(ks)) + rest)
  {
    hide Parse, Fragile, Encode, ValidBlock, Section, Expected, AfterBlocks;
    var tail := "END" + "\r\n" + rest;
    ValuesText(ks, rest);
    ParsesBlocks(p, ks, tail);
    ValuesAddUp(p, ks);
    ParsesTerminator(AfterBlocks(p, ks), "END", rest);
  }

  lemma ParsesStored(p: TextParser, rest: string)
    requires p.state == ReadSection && p.last == Cleared && p.responseLen == 0
    ensures var c := Parse(p, Encode(Stored) + rest);
            c.ret == 1 && c.rest == rest && c.state.state == Initial && c.state.last == Expected(Stored)
    ensures !Fragile(p, Encode(Stored) + rest)
  {
    hide Parse, Fragile;
    assert Encode(Stored) + rest == "STORED" + "\r\n" + rest;
    ParsesTerminator(p, "STORED", rest);
  }

  /** STORED, and any list of VALUE blocks with its END, is reported once, as what it is, and read to its last byte. */
  lemma ParsesReply(p: TextParser, r: Reply, rest: string)
    requires p.state == Initial && ValidReply(r)
    ensures var c := Parse(p, Encode(r) + rest);
            c.ret == 1 && c.rest == rest && c.state.state == Initial && c.state.last == Expected(r)
    ensures !Fragile(p, Encode(r) + rest)
  {
    var q := p.(last := Cleared, state := ReadSection, responseLen := 0);
    Starts(p, Encode(r) + rest);
    hide Parse, Fragile, Encode, Expected;
    match r
    case Stored =>
      ParsesStored(q, rest);
    case Values(ks) =>
      ParsesValues(q, ks, rest);
  }

  // ----- which lines end a response, and which are errors -----

  lemma ActsOnOtherLine(q: TextParser, line: string, rest: string)
    requires !("VALUE" <= line) && !("END" <= line) && !("STORED" <= line)
    ensures ActedOn(q, line, rest) == Return(Call(q.(last := q.last.(error := true)), rest, -1))
  {
  }

  lemma FirstOfValue(line: string)
    ensures "VALUE" <= line ==> line[0] == 'V'
  {
    assert "VALUE" <= line ==> line[0] == "VALUE"[0];
  }

  lemma ActsOnLastLine(q: TextParser, line: string, rest: string)
    requires "END" <= line || "STORED" <= line
    ensures ActedOn(q, line, rest) == Again(q.(state := ReadEnd), rest)
  {
    assert "END" <= line ==> line[0] == "END"[0];
    assert "STORED" <= line ==> line[0] == "STORED"[0];
    assert line[0] != 'V';
    FirstOfValue(line);
  }

  lemma SectionShows(p: TextParser, line: string)
    ensures var q := Section(p, line);
            && q.state == p.state && q.responseLen == p.responseLen + |line| + 2
            && q.last == p.last.(status := if p.last.status.None? then Some(line) else p.last.status,
                                 totalLen := AsUint32(p.responseLen + |line| + 2))
  {
    hide AsUint32;
  }

  /** A line that begins with none of VALUE, END and STORED is an error: -1, the error flag, and the rest left. */
  lemma ParsesErrorLine(p: TextParser, line: string, rest: string)
    requires p.state == ReadSection && NoCrlf(line)
    requires !("VALUE" <= line) && !("END" <= line) && !("STORED" <= line)
    ensures var c := Parse(p, line + "\r\n" + rest);
            && c.ret == -1 && c.rest == rest && c.state.state == ReadSection
            && c.state.last == p.last.(status := if p.last.status.None? then Some(line) else p.last.status,
                                       totalLen := AsUint32(p.responseLen + |line| + 2), error := true)
  {
    hide AsUint32, Parse, Section, ActedOn;
    var b := line + "\r\n" + rest;
    ReadlnOf(line, rest);
    assert Iterate(p, b) == ActedOn(Section(p, line), line, rest);
    ParseUnfolds(p, b);
    hide Iterate, Readln, NoCrlf;
    ActsOnOtherLine(Section(p, line), line, rest);
    SectionShows(p, line);
  }

  /** A line that begins with END or STORED is the last one: 1, and the error flag as it was. */
  lemma ParsesLastLine(p: TextParser, line: string, rest: string)
    requires p.state == ReadSection && NoCrlf(line) && ("END" <= line || "STORED" <= line)
    ensures var c := Parse(p, line + "\r\n" + rest);
            && c.ret == 1 && c.rest == rest && c.state.state == Initial
            && c.state.last == p.last.(status := if p.last.status.None? then Some(line) else p.last.status,
                                       totalLen := AsUint32(p.responseLen + |line| + 2))
  {
    hide AsUint32, Parse, Section, ActedOn;
    var b := line + "\r\n" + rest;
    ReadlnOf(line, rest);
    var q := Section(p, line).(state := ReadEnd);
    assert Iterate(p, b) == ActedOn(Section(p, line), line, rest);
    ParseUnfolds(p, b);
    ParseUnfolds(q, rest);
    assert Iterate(q, rest) == Return(Call(q.(state := Initial), rest, 1));
    hide Iterate, Readln, NoCrlf;
    ActsOnLastLine(Section(p, line), line, rest);
    SectionShows(p, line);
  }

  /** Up to a line behind any list of value blocks: what has been noted of the response by then. */
  lemma BehindBlocks(p: TextParser, ks: seq<Block>, tail: string) returns (q: TextParser)
    requires p.state == Initial && forall k <- ks :: ValidBlock(k)
    ensures q.state == ReadSection && Parse(p, EncodeBlocks(ks) + tail) == Parse(q, tail)
    ensures q.responseLen == |EncodeBlocks(ks)|
    ensures q.last == Response(if ks == [] then None else Some(Header(ks[0])), None, 0, q.last.totalLen, |ks|, false)
  {
    var start := p.(last := Cleared, state := ReadSection, responseLen := 0);
    Starts(p, EncodeBlocks(ks) + tail);
    ParsesBlocks(start, ks, tail);
    BlocksAddUp(start, ks);
    hide Parse, Fragile, AfterBlocks, EncodeBlocks, ValidBlock, Header;
    q := AfterBlocks(start, ks);
  }

  /** A line that begins with none of VALUE, END and STORED is an error, alone and behind any values: the call returns
      -1 with the error flag set, and leaves what follows the line. */
  lemma OtherLinesAreErrors(p: TextParser, ks: seq<Block>, line: string, rest: string)
    requires p.state == Initial && (forall k <- ks :: ValidBlock(k)) && NoCrlf(line)
    requires !("VALUE" <= line) && !("END" <= line) && !("STORED" <= line)
    ensures var c := Parse(p, EncodeBlocks(ks) + (line + "\r\n" + rest));
            && c.ret == -1 && c.rest == rest && c.state.state == ReadSection
            && c.state.last == Response(Some(if ks == [] then line else Header(ks[0])), None, 0,
                                        AsUint32(|EncodeBlocks(ks)| + |line| + 2), |ks|, true)
  {
    hide Parse, EncodeBlocks, Header, ValidBlock, AsUint32, NoCrlf;
    var tail := line + "\r\n" + rest;
    var q := BehindBlocks(p, ks, tail);
    ParsesErrorLine(q, line, rest);
    assert Parse(p, EncodeBlocks(ks) + tail) == Parse(q, tail);
  }

  /** A line that begins with END or STORED ends the response, with the error flag clear. */
  lemma LastLinesEnd(p: TextParser, ks: seq<Block>, line: string, rest: string)
    requires p.state == Initial && (forall k <- ks :: ValidBlock(k)) && NoCrlf(line)
    requires "END" <= line || "STORED" <= line
    ensures var c := Parse(p, EncodeBlocks(ks) + (line + "\r\n" + rest));
            && c.ret == 1 && c.rest == rest && c.state.state == Initial
            && c.state.last == Response(Some(if ks == [] then line else Header(ks[0])), None, 0,
                                        AsUint32(|EncodeBlocks(ks)| + |line| + 2), |ks|, false)
  {
    hide Parse, EncodeBlocks, Header, ValidBlock, AsUint32, NoCrlf;
    var tail := line + "\r\n" + rest;
    var q := BehindBlocks(p, ks, tail);
    ParsesLastLine(q, line, rest);
    assert Parse(p, EncodeBlocks(ks) + tail) == Parse(q, tail);
  }

  lemma NoNumber(s: string)
    requires s == "" || (!IsSpace(s[0]) && !IsDigit(s[0]) && s[0] != '-' && s[0] != '+')
    ensures AfterUint(s) == None && AfterUint(" " + s) == None
  {
    assert s[0..] == s && (" " + s)[1..] == s;
  }

  lemma NoWordFails(line: string, behind: string)
    requires Plain(line) && line == "VALUE" + behind && behind in {"", " "}
    ensures ScanValueLine(line).None?
  {
    hide AfterUint;
    AfterWordOf("VALUE", behind);
    assert behind != "" ==> behind[1..] == "";
  }

  lemma NoFlagsFails(line: string, key: string, behind: string)
    requires Plain(line) && line == "VALUE" + (" " + key + behind) && Word(key)
    requires (behind == "" || IsSpace(behind[0])) && AfterUint(behind).None?
    ensures ScanValueLine(line).None?
  {
    AfterWordOf("VALUE", " " + key + behind);
    AfterWordOf(key, behind);
    hide AfterWord, AfterUint;
  }

  lemma NoLengthFails(line: string, key: string, flags: UInt, behind: string)
    requires Plain(line) && line == "VALUE" + (" " + key + (" " + Dec(flags) + behind)) && Word(key)
    requires (behind == "" || !IsDigit(behind[0])) && AfterUint(behind).None?
    ensures ScanValueLine(line).None?
  {
    hide AfterUint, Dec, AfterWord;
    var tail := " " + Dec(flags) + behind;
    ScanSpaced(flags, behind);
    AfterWordOf("VALUE", " " + key + tail);
    AfterWordOf(key, tail);
    hide IsDigit, Word, IsSpace, ScanNumber;
  }

  lemma ParsesBadHeader(p: TextParser, line: string, rest: string)
    requires p.state == ReadSection && NoCrlf(line) && "VALUE" <= line && ScanValueLine(line).None?
    ensures Parse(p, line + "\r\n" + rest) == Call(Section(p, line), rest, -1)
  {
    hide AsUint32, Parse, Section, ScanValueLine;
    var b := line + "\r\n" + rest;
    ReadlnOf(line, rest);
    assert Iterate(p, b) == Return(Call(Section(p, line), rest, -1));
    ParseUnfolds(p, b);
  }

  /** A VALUE line that has no key, no number for the flags, or no number for the length, alone and behind any values:
      the call returns -1 and leaves what follows the line, but the error flag stays clear. */
  lemma ShortValueLines(p: TextParser, ks: seq<Block>, key: string, flags: UInt, bad: string, line: string,
                        rest: string)
    requires p.state == Initial && (forall k <- ks :: ValidBlock(k)) && Word(key) && Plain(bad)
    requires bad == "" || (!IsSpace(bad[0]) && !IsDigit(bad[0]) && bad[0] != '-' && bad[0] != '+')
    requires || line == "VALUE" || line == "VALUE" + (" " + key) || line == "VALUE" + (" " + key + (" " + bad))
             || line == "VALUE" + (" " + key + (" " + Dec(flags)))
             || line == "VALUE" + (" " + key + (" " + Dec(flags) + (" " + bad)))
    ensures var c := Parse(p, EncodeBlocks(ks) + (line + "\r\n" + rest));
            && c.ret == -1 && c.rest == rest && c.state.state == ReadSection
            && c.state.last == Response(Some(if ks == [] then line else Header(ks[0])), None, 0,
                                        AsUint32(|EncodeBlocks(ks)| + |line| + 2), |ks|, false)
  {
    hide Parse, EncodeBlocks, Header, ValidBlock, AsUint32, Section, ScanValueLine, NoCrlf, Plain, Dec;
    ShortLineFails(line, key, flags, bad);
    var tail := line + "\r\n" + rest;
    var q := BehindBlocks(p, ks, tail);
    ParsesBadHeader(q, line, rest);
    SectionShows(q, line);
    assert Parse(p, EncodeBlocks(ks) + tail) == Parse(q, tail);
  }

  lemma ShortLineFails(line: string, key: string, flags: UInt, bad: string)
    requires Word(key) && Plain(bad)
    requires bad == "" || (!IsSpace(bad[0]) && !IsDigit(bad[0]) && bad[0] != '-' && bad[0] != '+')
    requires || line == "VALUE" || line == "VALUE" + (" " + key) || line == "VALUE" + (" " + key + (" " + bad))
             || line == "VALUE" + (" " + key + (" " + Dec(flags)))
             || line == "VALUE" + (" " + key + (" " + Dec(flags) + (" " + bad)))
    ensures "VALUE" <= line && Plain(line) && NoCrlf(line) && ScanValueLine(line).None?
  {
    hide ScanValueLine, AfterUint;
    NoNumber("");
    NoNumber(bad);
    if line == "VALUE" {
      NoWordFails(line, "");
    } else if line == "VALUE" + (" " + key) {
      assert " " + key + "" == " " + key;
      NoFlagsFails(line, key, "");
    } else if line == "VALUE" + (" " + key + (" " + bad)) {
      NoFlagsFails(line, key, " " + bad);
    } else if line == "VALUE" + (" " + key + (" " + Dec(flags))) {
      assert " " + Dec(flags) + "" == " " + Dec(flags);
      NoLengthFails(line, key, flags, "");
    } else {
      NoLengthFails(line, key, flags, " " + bad);
    }
  }

  function EncodeAll(rs: seq<Reply>): string
  {
    if rs == [] then "" else Encode(rs[0]) + EncodeAll(rs[1..])
  }

  lemma WaitsOnNothing(p: TextParser)
    requires p.state == Initial
    ensures Parse(p, "").ret == 0 && Parse(p, "").rest == "" && !Fragile(p, "")
  {
    Starts(p, "");
    assert Readln("").None?;
  }

  lemma {:induction false} PumpsReplies(p: Resting, rs: seq<Reply>)
    requires p.state == Initial && (forall r <- rs :: ValidReply(r)) && Progress(ParseCall)
    ensures Clean(ParseCall, Risk, p, EncodeAll(rs)) && Quiet(ParseCall, p, EncodeAll(rs))
    ensures var u := Pump(ParseCall, p, EncodeAll(rs));
            u.rest == [] && |u.reports| == |rs| &&
            forall i :: 0 <= i < |rs| ==> u.reports[i].0 == 1 && u.reports[i].1.last == Expected(rs[i])
    decreases |rs|
  {
    hide Parse, Fragile, Expected, Encode, ValidReply;
    if rs == [] {
      WaitsOnNothing(p);
    } else {
      var r, tail := rs[0], EncodeAll(rs[1..]);
      ParsesReply(p, r, tail);
      var c := ParseCall(p, EncodeAll(rs));
      assert c.rest == tail && !Risk(p, EncodeAll(rs));
      PumpsReplies(c.state, rs[1..]);
    }
  }

  /** However the network cuts a stream of responses, the client sees exactly those responses, in order, and nothing is
      left over. */
  lemma AnyChunkingYieldsTheReplies(p: Resting, rs: seq<Reply>, chunks: seq<string>)
    requires p.state == Initial && (forall r <- rs :: ValidReply(r))
    requires Join(chunks) == EncodeAll(rs)
    ensures Progress(ParseCall)
    ensures var u := Deliver(ParseCall, p, [], chunks);
            u.rest == [] && |u.reports| == |rs| &&
            forall i :: 0 <= i < |rs| ==> u.reports[i].0 == 1 && u.reports[i].1.last == Expected(rs[i])
  {
    RiskGuards();
    PumpsReplies(p, rs);
    CleanStreamFragments(ParseCall, Risk, p, chunks);
  }

  // ----- a malformed line -----

  predicate Malformed(line: string) { NoCrlf(line) && Classify(line) in {Unknown, BadHeader} }

  lemma ReportsMalformed(p: TextParser, line: string, rest: string)
    requires p.state == Initial && Malformed(line)
    ensures var c := Parse(p, line + "\r\n" + rest);
            && c.ret == -1 && c.rest == rest && c.state.state == ReadSection && c.state.last.status == Some(line)
  {
    var b := line + "\r\n" + rest;
    var q := p.(last := Cleared, state := ReadSection, responseLen := 0);
    Starts(p, b);
    ReadlnOf(line, rest);
    ParseUnfolds(q, b);
  }

  /** A malformed line with a reply behind it: in one read event the reply is left unread, in two it is reported, under
      the malformed line as its status. */
  lemma ReplyBehindError(p: Resting, line: string)
    requires p.state == Initial && Malformed(line)
    ensures Progress(ParseCall)
    ensures var bad, good := line + "\r\n", Encode(Stored);
            var whole := OneRead(ParseCall, p, bad + good);
            var cut := Deliver(ParseCall, p, [], [bad, good]);
            && |whole.reports| == 1 && whole.reports[0].0 == -1 && whole.rest == good
            && |cut.reports| == 2 && cut.reports[0].0 == -1 && cut.reports[1].0 == 1 && cut.rest == ""
            && cut.reports[1].1.last.status == Some(line)
  {
    EveryReportConsumes();
    hide Parse, Fragile, Classify, Section, Pump, Deliver, Encode;
    var bad, good := line + "\r\n", Encode(Stored);
    var c := StopsAtError(p, line, good);
    var none := StopsAtError(p, line, "");
    assert bad + "" == bad;
    ReadsStoredNext(none, line);
    TwoChunks(ParseCall, p, bad, good);
    assert "" + good == good;
  }

  lemma StopsAtError(p: Resting, line: string, rest: string) returns (c: Resting)
    requires p.state == Initial && Malformed(line) && Progress(ParseCall)
    ensures c.state == ReadSection && c.last.status == Some(line)
    ensures OneRead(ParseCall, p, line + "\r\n" + rest) == Pumped(c, rest, [(-1, c)])
  {
    ReportsMalformed(p, line, rest);
    hide Parse, Classify;
    c := ParseCall(p, line + "\r\n" + rest).state;
  }

  lemma ReadsStoredNext(c: Resting, line: string)
    requires c.state == ReadSection && c.last.status == Some(line) && Progress(ParseCall)
    ensures var u := OneRead(ParseCall, c, Encode(Stored));
            && |u.reports| == 1 && u.reports[0].0 == 1 && u.reports[0].1.last.status == Some(line) && u.rest == ""
  {
    var b := Encode(Stored);
    assert b == "STORED" + "\r\n" + "";
    ParsesTerminator(c, "STORED", "");
    hide Parse, Fragile;
    var d: Resting := Section(c, "STORED").(state := Initial);
    WaitsOnNothing(d);
    assert ParseCall(c, b) == Call(d, "", 1);
  }

  // ----- the parser object -----

  /** `m_keep_value` is not a field: with it set, the source asserts that reading a value returned 0 bytes. */
  class MemcacheTextProtocol {
    var m_read_buf: string
    var m_response_state: ResponseState
    var m_value_len: UInt
    var m_response_len: nat
    const m_last_response: ProtocolResponse

    ghost function View(): TextParser
      reads this, m_last_response
    {
      TextParser(m_response_state, m_value_len, m_response_len, m_last_response.View())
    }

    constructor ()
      ensures View() == TextParser(Initial, 0, 0, Cleared) && m_read_buf == ""
      ensures fresh(m_last_response)
    {
      m_read_buf, m_response_state, m_value_len, m_response_len := "", Initial, 0, 0;
      m_last_response := new ProtocolResponse();
    }

    /** The `rs_read_section` state: one line of the response, if it is there. Some(ret) is a `return ret`. */
    method ReadSectionLine() returns (ret: Option<int>)
      requires m_response_state == ReadSection
      modifies this, m_last_response
      ensures Iterate(old(View()), old(m_read_buf)) == TurnTaken(ret)
    {
      hide ActedOn;
      var l := Readln(m_read_buf);
      if l == None {
        return Some(0);
      }
      var line := l.value.text;
      m_read_buf := l.value.rest;
      m_response_len := m_response_len + |line| + 2;
      if m_last_response.m_status == None {
        m_last_response.SetStatus(line);
      }
      m_last_response.SetTotalLen(m_response_len);

      ret := ActOnLine(line);
    }

    method ActOnLine(line: string) returns (ret: Option<int>)
      modifies this, m_last_response
      ensures TurnTaken(ret) == ActedOn(old(View()), line, old(m_read_buf))
    {
      hide ScanValueLine, IsValueLine, IsLastLine;
      if IsValueLine(line) {
        var n := ScanValueLine(line);
        if n == None {
          return Some(-1);
        }
        m_value_len := n.value;
        m_response_state := ReadValue;
      } else if IsLastLine(line) {
        m_response_state := ReadEnd;
      } else {
        m_last_response.SetError(true);
        return Some(-1);
      }
      return None;
    }

    /** The turn of the loop that has led to the present fields. */
    ghost function TurnTaken(ret: Option<int>): Turn
      reads this, m_last_response
    {
      match ret
      case None => Again(View(), m_read_buf)
      case Some(r) => Return(Call(View(), m_read_buf, r))
    }

    /** The body of the loop: one state of the switch. */
    method TakeTurn() returns (ret: Option<int>)
      modifies this, m_last_response
      ensures Iterate(old(View()), old(m_read_buf)) == TurnTaken(ret)
    {
      match m_response_state {
        case Initial =>
          m_last_response.Clear();
          m_response_state := ReadSection;
          m_response_len := 0;
          return None;

        case ReadSection =>
          ret := ReadSectionLine();

        case ReadValue =>
          if |m_read_buf| >= AsUint32(m_value_len + 2) {
            m_read_buf := Drained(m_read_buf, m_value_len);
            m_read_buf := Drained(m_read_buf, 2);
            m_last_response.IncrHits();
            m_response_len := m_response_len + AsUint32(m_value_len + 2);
            m_response_state := ReadSection;
            return None;
          } else {
            return Some(0);
          }

        case ReadEnd =>
          m_response_state := Initial;
          return Some(1);
      }
    }

    method ParseResponse() returns (ret: int)
      modifies this, m_last_response
      ensures Call(View(), m_read_buf, ret) == Parse(old(View()), old(m_read_buf))
    {
      while true
        invariant Parse(View(), m_read_buf) == Parse(old(View()), old(m_read_buf))
        decreases |m_read_buf|, StateRank(m_response_state)
      {
        ghost var p, b := View(), m_read_buf;
        var r := TakeTurn();
        ParseUnfolds(p, b);
        if r != None {
          return r.value;
        }
      }
    }
  }
}
