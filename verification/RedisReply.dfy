/** The redis protocol's reply parser. Array replies are built in place: an explicit stack of open arrays, each with
    the number of elements it still lacks, drops an array as soon as its last element has been started. Here the
    elements are numbered in the order they are created. */
module RedisReply {
  import opened CText
  import opened Protocol
  import opened Fragmentation

  /** An `mbulk_element`: a value with its recorded length, or an array of element numbers. */
  datatype Node = Leaf(value: string, len: UInt) | Array(children: seq<nat>)

  /** An `mbulk_level`: an open array and how many elements it still lacks. */
  datatype Level = Level(count: UInt, node: nat)

  datatype ResponseState = Initial | ReadBulk | ReadMbulk

  /** The parser object's fields, as a value; `tree` holds the elements of `m_last_response`, the root first. */
  datatype RedisParser = RedisParser(
    state: ResponseState, bulkLen: UInt, responseLen: nat, last: Response,
    tree: seq<Node>, levels: seq<Level>, keepValue: bool)

  ghost predicate IsArray(tree: seq<Node>, i: nat) { i < |tree| && tree[i].Array? }

  /** Open levels exist exactly while an array reply is being read, and each is an array of the tree. */
  ghost predicate Sound(p: RedisParser)
  {
    && (p.state == ReadMbulk <==> p.levels != [])
    && forall k :: 0 <= k < |p.levels| ==> IsArray(p.tree, p.levels[k].node)
  }

  type SoundParser = p: RedisParser | Sound(p) witness RedisParser(Initial, 0, 0, Cleared, [], [], false)

  // ----- building the tree -----

  function Top(p: RedisParser): Level
    requires p.levels != []
  {
    p.levels[|p.levels| - 1]
  }

  /** `add_mbulk_value`'s bookkeeping: the array on top lacks one element less, and goes when it lacks none. */
  function CountDown(levels: seq<Level>): seq<Level>
    requires levels != []
  {
    var below, top := levels[..|levels| - 1], levels[|levels| - 1];
    var count := AsUint32(top.count - 1);
    if count == 0 then below else below + [top.(count := count)]
  }

  function Link(tree: seq<Node>, parent: nat, element: Node): seq<Node>
    requires parent < |tree| && tree[parent].Array?
  {
    tree[parent := Array(tree[parent].children + [|tree|])] + [element]
  }

  function AddValue(p: SoundParser, value: Node): SoundParser
    requires p.levels != [] && value.Leaf?
  {
    var levels := CountDown(p.levels);
    p.(tree := Link(p.tree, Top(p).node, value), levels := levels,
       state := if levels == [] then Initial else ReadMbulk)
  }

  function AddArray(p: SoundParser, count: UInt): SoundParser
    requires p.levels != []
  {
    p.(tree := Link(p.tree, Top(p).node, Array([])),
       levels := CountDown(p.levels) + [Level(count, |p.tree|)])
  }

  // ----- the parser as a function -----

  /** The number after the type character, as the `int` it is stored in. */
  function NumberOn(line: string): int
    requires line != ""
  {
    AsInt32(Strtol(line[1..]))
  }

  function WithStatus(p: SoundParser, line: string): SoundParser { p.(last := p.last.(status := Some(line))) }

  datatype Turn = Again(state: SoundParser, rest: string) | Return(call: Call<SoundParser, char>)

  /** A line has been read in `rs_initial`: the last response is cleared. */
  function Cleaned(p: SoundParser, line: string): SoundParser
    requires p.state == Initial
  {
    p.(responseLen := |line| + 2, last := Cleared, tree := [])
  }

  /** The reply whose first line this is. */
  function StartReply(p: SoundParser, line: string, rest: string): Turn
    requires p.state == Initial && p.tree == []
  {
    var c := FirstChar(line);
    if c == '*' then
      var count := NumberOn(line);
      if count == -1 then Return(Call(WithStatus(p, line), rest, 1))
      else
        var r: SoundParser := p.(tree := [Array([])], levels := [Level(AsUint32(count), 0)], state := ReadMbulk);
        Again(WithStatus(r, line), rest)
    else if c == '$' then
      var len := NumberOn(line);
      if len == -1 then Return(Call(WithStatus(p, line), rest, 1))
      else
        var r: SoundParser := p.(bulkLen := AsUint32(len), state := ReadBulk);
        Again(WithStatus(r, line), rest)
    else if c == '+' || c == '-' || c == ':' then
      var r := WithStatus(p, line);
      Return(Call(r.(last := r.last.(totalLen := AsUint32(r.responseLen), error := c == '-')), rest, 1))
    else Return(Call(p, rest, -1))
  }

  function OnFirstLine(p: SoundParser, line: string, rest: string): Turn
    requires p.state == Initial
  {
    StartReply(Cleaned(p, line), line, rest)
  }

  /** Round again, or done when no array is open any more. */
  function Continue(p: SoundParser, rest: string): Turn
  {
    if p.levels == [] then Return(Call(p, rest, 1)) else Again(p, rest)
  }

  /** A line inside an array reply. */
  function OnElementLine(p: SoundParser, line: string, rest: string): Turn
    requires p.state == ReadMbulk
  {
    var q: SoundParser := p.(responseLen := |line|);
    var c := FirstChar(line);
    if c == '*' then Again(WithStatus(AddArray(q, AsUint32(NumberOn(line))), line), rest)
    else if c == ':' then
      var v := CString(line[1..]);
      Continue(AddValue(q, Leaf(v, AsUint32(|v|))), rest)
    else if c == '$' then
      var n := AsUint32(NumberOn(line));
      var r: SoundParser := q.(bulkLen := n);
      if |rest| >= AsUint32(n + 2) then
        Continue(AddValue(r, Leaf(Taken(rest, n), n)), Drained(Drained(rest, n), 2))
      else Return(Call(r, rest, 0))
    else Again(q, rest)
  }

  /** The body of a bulk reply. */
  function OnBulkBody(p: SoundParser, b: string): Turn
    requires p.state == ReadBulk
  {
    var need := AsUint32(p.bulkLen + 2);
    if |b| < need then Return(Call(p, b, 0))
    else
      var keep := p.keepValue && p.bulkLen > 0;
      var last := if keep then p.last.(value := Some(Taken(b, p.bulkLen)), valueLen := p.bulkLen) else p.last;
      var rest := if keep then Drained(Drained(b, p.bulkLen), 2) else Drained(b, need);
      Return(Call(p.(state := Initial,
                     last := last.(totalLen := AsUint32(p.responseLen + p.bulkLen + 2),
                                   hits := if p.bulkLen > 0 then last.hits + 1 else last.hits)),
                  rest, 1))
  }

  function Iterate(p: SoundParser, b: string): Turn
  {
    if p.state == ReadBulk then OnBulkBody(p, b)
    else
      match Readln(b)
      case None => Return(Call(p.(responseLen := 0), b, 0))
      case Some(l) => if p.state == Initial then OnFirstLine(p, l.text, l.rest) else OnElementLine(p, l.text, l.rest)
  }

  lemma FirstLineShape(p: SoundParser, line: string, rest: string)
    requires p.state == Initial
    ensures match OnFirstLine(p, line, rest)
            case Again(q, r) => r == rest && q.state != Initial && q.keepValue == p.keepValue
            case Return(c) => c.rest == rest && c.ret != 0 && c.state.state == Initial
  {
    hide NumberOn;
  }

  lemma ElementLineShape(p: SoundParser, line: string, rest: string)
    requires p.state == ReadMbulk
    ensures match OnElementLine(p, line, rest)
            case Again(q, r) => |r| <= |rest| && q.state == ReadMbulk
            case Return(c) =>
              && |c.rest| <= |rest| && c.ret in {0, 1}
              && c.state.state == if c.ret == 0 then ReadMbulk else Initial
  {
    hide NumberOn, CString, Link;
  }

  lemma BodyDrained(b: string, n: UInt)
    requires |b| >= AsUint32(n + 2)
    ensures |Drained(Drained(b, n), 2)| <= |b| - AsUint32(n + 2)
    ensures |Drained(b, AsUint32(n + 2))| <= |b| - AsUint32(n + 2)
  {
    hide Drained;
  }

  lemma BulkBodyShape(p: SoundParser, b: string)
    requires p.state == ReadBulk
    ensures var t := OnBulkBody(p, b);
            var need := AsUint32(p.bulkLen + 2);
            t.Return? &&
            if |b| < need then t.call == Call(p, b, 0)
            else t.call.ret == 1 && t.call.state.state == Initial && |t.call.rest| <= |b| - need
  {
    hide Taken, Drained, AsUint32;
    if |b| >= AsUint32(p.bulkLen + 2) { BodyDrained(b, p.bulkLen); }
  }

  lemma IterateConsumes(p: SoundParser, b: string)
    ensures match Iterate(p, b)
            case Again(_, rest) => |rest| < |b|
            case Return(c) => |c.rest| <= |b|
  {
    hide OnFirstLine, OnElementLine, OnBulkBody;
    if p.state == ReadBulk {
      BulkBodyShape(p, b);
    } else if Readln(b).Some? {
      var l := Readln(b).value;
      if p.state == Initial { FirstLineShape(p, l.text, l.rest); } else { ElementLineShape(p, l.text, l.rest); }
    }
  }

  /** One call of `parse_response`. */
  function Parse(p: SoundParser, b: string): (c: Call<SoundParser, char>)
    ensures |c.rest| <= |b|
    decreases |b|
  {
    IterateConsumes(p, b);
    hide Iterate;
    match Iterate(p, b)
    case Again(q, rest) => Parse(q, rest)
    case Return(c) => c
  }

  // ----- fragmentation -----

  /** A parser that waits for a bulk body waits for some bytes. */
  type Resting = p: SoundParser | p.state == ReadBulk ==> AsUint32(p.bulkLen + 2) > 0
    witness RedisParser(Initial, 0, 0, Cleared, [], [], false)

  lemma IterateRests(p: SoundParser, b: string)
    ensures match Iterate(p, b)
            case Again(q, rest) => |rest| < |b|
            case Return(c) =>
              && (c.state.state == ReadBulk ==> AsUint32(c.state.bulkLen + 2) > 0)
              && (c.ret != 0 && (p.state == ReadBulk ==> AsUint32(p.bulkLen + 2) > 0) ==> |c.rest| < |b|)
  {
    hide OnFirstLine, OnElementLine, OnBulkBody;
    if p.state == ReadBulk {
      BulkBodyShape(p, b);
    } else if Readln(b).Some? {
      var l := Readln(b).value;
      if p.state == Initial { FirstLineShape(p, l.text, l.rest); } else { ElementLineShape(p, l.text, l.rest); }
    }
  }

  lemma {:induction false} CallRests(p: SoundParser, b: string)
    ensures var c := Parse(p, b);
            && (c.state.state == ReadBulk ==> AsUint32(c.state.bulkLen + 2) > 0)
            && (c.ret != 0 && (p.state == ReadBulk ==> AsUint32(p.bulkLen + 2) > 0) ==> |c.rest| < |b|)
    decreases |b|
  {
    hide Iterate;
    IterateRests(p, b);
    match Iterate(p, b)
    case Again(q, rest) => CallRests(q, rest);
    case Return(c) =>
  }

  function ParseCall(p: Resting, b: string): (c: Call<Resting, char>)
    ensures c.ret != 0 ==> |c.rest| < |b|
  {
    CallRests(p, b);
    hide Parse;
    var c := Parse(p, b);
    Call(c.state, c.rest, c.ret)
  }

  /** A call that reports something has consumed something, so the reader's loop ends. */
  lemma EveryReportConsumes()
    ensures Progress(ParseCall)
  {
  }

  /** The turns that act on bytes that are not there yet: an array's bulk element whose header has come without all of
      its body, and a kept bulk value with a length so large that adding 2 to it wraps around. */
  predicate Hasty(p: SoundParser, b: string)
  {
    match p.state
    case Initial => false
    case ReadBulk => p.keepValue && p.bulkLen > 0 && AsUint32(p.bulkLen + 2) <= |b| < p.bulkLen + 2
    case ReadMbulk =>
      match Readln(b)
      case None => false
      case Some(l) => FirstChar(l.text) == '$' && |l.rest| < AsUint32(NumberOn(l.text)) + 2
  }

  predicate Fragile(p: SoundParser, b: string)
    decreases |b|
  {
    IterateConsumes(p, b);
    hide Iterate;
    Hasty(p, b) ||
    match Iterate(p, b)
    case Again(q, rest) => Fragile(q, rest)
    case Return(_) => false
  }

  /** What a turn did with the bytes it had, it does with more of them. */
  ghost predicate Carries(t: Turn, u: Turn, p: SoundParser, b: string, more: string)
  {
    match t
    case Again(q, rest) => u == Again(q, rest + more)
    case Return(c) =>
      if c.ret == 0 then c.rest == b && c.state == p.(responseLen := c.state.responseLen)
      else u == Return(Call(c.state, c.rest + more, c.ret))
  }

  lemma BulkBodyExtends(p: SoundParser, b: string, more: string)
    requires p.state == ReadBulk && !Hasty(p, b)
    ensures Carries(OnBulkBody(p, b), OnBulkBody(p, b + more), p, b, more)
    ensures OnBulkBody(p, b).Return? && (OnBulkBody(p, b).call.ret != 0 ==> !Hasty(p, b + more))
  {
    hide Taken, Drained, AsUint32, Readln, NumberOn, FirstChar;
    var n, need := p.bulkLen, AsUint32(p.bulkLen + 2);
    if |b| >= need {
      if p.keepValue && n > 0 {
        TakeAndDrainExtend(b, n, 2, more);
      } else {
        DrainExtends(b, need, more);
      }
    }
  }

  lemma ElementLineExtends(p: SoundParser, line: string, rest: string, more: string)
    requires p.state == ReadMbulk
    requires FirstChar(line) == '$' ==> |rest| >= AsUint32(NumberOn(line)) + 2
    ensures match OnElementLine(p, line, rest)
            case Again(q, rest') => OnElementLine(p, line, rest + more) == Again(q, rest' + more)
            case Return(c) =>
              c.ret != 0 && OnElementLine(p, line, rest + more) == Return(Call(c.state, c.rest + more, c.ret))
  {
    hide NumberOn, CString, Link, Taken, Drained;
    if FirstChar(line) == '$' {
      TakeAndDrainExtend(rest, AsUint32(NumberOn(line)), 2, more);
    }
  }

  lemma IterateExtends(p: SoundParser, b: string, more: string)
    requires !Hasty(p, b)
    ensures Carries(Iterate(p, b), Iterate(p, b + more), p, b, more)
    ensures Iterate(p, b).Again? || Iterate(p, b).call.ret != 0 ==> !Hasty(p, b + more)
  {
    hide NumberOn, OnElementLine, OnBulkBody;
    if p.state == ReadBulk {
      BulkBodyExtends(p, b, more);
    } else if Readln(b).Some? {
      ReadlnExtends(b, more);
      var l := Readln(b).value;
      if p.state == ReadMbulk {
        ElementLineExtends(p, l.text, l.rest, more);
      }
    }
  }

  /** The length of the line read before a wait is forgotten without harm. */
  lemma ResponseLenIsOverwritten(p: SoundParser, q: SoundParser, b: string)
    requires q == p.(responseLen := q.responseLen) && p.state != ReadBulk
    ensures Iterate(q, b) == Iterate(p, b) && Hasty(q, b) == Hasty(p, b)
  {
    hide NumberOn, CString;
  }

  lemma {:induction false} Extends(p: SoundParser, b: string, more: string)
    requires !Fragile(p, b)
    ensures var c := Parse(p, b);
            if c.ret != 0 then Parse(p, b + more) == Call(c.state, c.rest + more, c.ret) && !Fragile(p, b + more)
            else Parse(p, b + more) == Parse(c.state, c.rest + more) &&
                 Fragile(p, b + more) == Fragile(c.state, c.rest + more)
    decreases |b|
  {
    hide Iterate, Hasty;
    IterateConsumes(p, b);
    IterateExtends(p, b, more);
    match Iterate(p, b)
    case Again(q, rest) => Extends(q, rest, more);
    case Return(c) =>
      if c.ret == 0 {
        if p.state == ReadBulk {
          WaitsUnchanged(p, b);
        } else {
          ResponseLenIsOverwritten(p, c.state, b + more);
        }
      }
  }

  lemma WaitsUnchanged(p: SoundParser, b: string)
    requires p.state == ReadBulk
    ensures Iterate(p, b).Return? && (Iterate(p, b).call.ret == 0 ==> Iterate(p, b).call.state == p)
  {
  }

  // What goes wrong in a hasty turn.

  /** Elements once created stay: a value as it is, an array with its children in their places and new ones behind. */
  ghost predicate Kept(before: seq<Node>, after: seq<Node>)
  {
    |before| <= |after| &&
    forall k :: 0 <= k < |before| ==>
      if before[k].Leaf? then after[k] == before[k]
      else after[k].Array? && before[k].children <= after[k].children
  }

  lemma LinkAdds(tree: seq<Node>, parent: nat, element: Node)
    requires IsArray(tree, parent)
    ensures var after := Link(tree, parent, element); |after| == |tree| + 1 && after[|tree|] == element
  {
  }

  lemma LinkKeeps(tree: seq<Node>, parent: nat, element: Node)
    requires IsArray(tree, parent)
    ensures Kept(tree, Link(tree, parent, element))
  {
  }

  lemma ElementLineKeeps(p: SoundParser, line: string, rest: string)
    requires p.state == ReadMbulk
    ensures var t := OnElementLine(p, line, rest);
            Kept(p.tree, if t.Again? then t.state.tree else t.call.state.tree)
    ensures OnElementLine(p, line, rest).Again? ==> OnElementLine(p, line, rest).state.state == ReadMbulk
  {
    hide NumberOn, CString, Link, Kept, CountDown;
    var q: SoundParser := p.(responseLen := |line|);
    var c := FirstChar(line);
    assert Top(q) == Top(p);
    if c == '*' {
      LinkKeeps(p.tree, Top(p).node, Array([]));
    } else if c == ':' {
      var v := CString(line[1..]);
      LinkKeeps(p.tree, Top(p).node, Leaf(v, AsUint32(|v|)));
    } else if c == '$' {
      var n := AsUint32(NumberOn(line));
      assert Top(q.(bulkLen := n)) == Top(p);
      LinkKeeps(p.tree, Top(p).node, Leaf(Taken(rest, n), n));
      SameKept(p.tree);
    } else {
      SameKept(p.tree);
    }
  }

  lemma SameKept(tree: seq<Node>)
    ensures Kept(tree, tree)
  {
  }

  lemma {:induction false} ParseKeeps(p: SoundParser, b: string)
    requires p.state == ReadMbulk
    ensures Kept(p.tree, Parse(p, b).state.tree)
    decreases |b|
  {
    hide OnElementLine;
    IterateConsumes(p, b);
    if Readln(b).Some? {
      var l := Readln(b).value;
      ElementLineKeeps(p, l.text, l.rest);
      match Iterate(p, b)
      case Again(q, rest) => ParseKeeps(q, rest);
      case Return(c) =>
    }
  }

  /** A value made from a whole buffer that has a line in it is shorter than the buffer by that line. */
  ghost predicate FirstNewIsShort(p: SoundParser, q: SoundParser, limit: nat)
  {
    |q.tree| > |p.tree| && q.tree[|p.tree|].Leaf? ==> |q.tree[|p.tree|].value| + 3 <= limit
  }

  /** What one line does to the tree: nothing, or one new element at its end. */
  lemma ElementLineAdds(p: SoundParser, line: string, rest: string)
    requires p.state == ReadMbulk
    ensures var t := OnElementLine(p, line, rest);
            var tree := if t.Again? then t.state.tree else t.call.state.tree;
            var n := if line == "" then 0 else AsUint32(NumberOn(line));
            match FirstChar(line)
            case '*' => |tree| == |p.tree| + 1 && tree[|p.tree|] == Array([])
            case ':' => |tree| == |p.tree| + 1 && tree[|p.tree|].Leaf? && tree[|p.tree|].value == CString(line[1..])
            case '$' =>
              if |rest| >= AsUint32(n + 2) then |tree| == |p.tree| + 1 && tree[|p.tree|] == Leaf(Taken(rest, n), n)
              else t.Return? && tree == p.tree
            case _ => tree == p.tree
  {
    hide NumberOn, CString, Link, CountDown, Taken, Drained, AsUint32;
    var q: SoundParser := p.(responseLen := |line|);
    assert Top(q) == Top(p);
    var c := FirstChar(line);
    if c == '*' {
      LinkAdds(p.tree, Top(p).node, Array([]));
    } else if c == ':' {
      var v := CString(line[1..]);
      LinkAdds(p.tree, Top(p).node, Leaf(v, AsUint32(|v|)));
    } else if c == '$' {
      var n := AsUint32(NumberOn(line));
      assert Top(q.(bulkLen := n)) == Top(p);
      LinkAdds(p.tree, Top(p).node, Leaf(Taken(rest, n), n));
    }
  }

  lemma ElementLineIsShort(p: SoundParser, line: string, rest: string)
    requires p.state == ReadMbulk
    ensures var t := OnElementLine(p, line, rest);
            var q := if t.Again? then t.state else t.call.state;
            FirstNewIsShort(p, q, |line| + 2 + |rest|) && |p.tree| <= |q.tree| <= |p.tree| + 1
    ensures OnElementLine(p, line, rest).Again? ==> |OnElementLine(p, line, rest).rest| <= |rest|
  {
    ElementLineAdds(p, line, rest);
    ElementLineShape(p, line, rest);
    hide OnElementLine, NumberOn, CString;
  }

  lemma {:induction false} FirstNewElementIsShort(p: SoundParser, b: string)
    requires p.state == ReadMbulk
    ensures FirstNewIsShort(p, Parse(p, b).state, |b|)
    decreases |b|
  {
    hide OnElementLine;
    IterateConsumes(p, b);
    if Readln(b).Some? {
      var l := Readln(b).value;
      ElementLineIsShort(p, l.text, l.rest);
      ElementLineKeeps(p, l.text, l.rest);
      match Iterate(p, b)
      case Again(q, rest) =>
        if |q.tree| == |p.tree| {
          FirstNewElementIsShort(q, rest);
        } else {
          ParseKeeps(q, rest);
        }
      case Return(c) =>
    }
  }

  ghost predicate Resumes(p: SoundParser, b: string, more: string)
  {
    var c := Parse(p, b);
    if c.ret != 0 then Parse(p, b + more) == Call(c.state, c.rest + more, c.ret)
    else Parse(p, b + more) == Parse(c.state, c.rest + more)
  }

  lemma HastyBulkLosesBytes(p: SoundParser, b: string)
    requires p.state == ReadBulk && Hasty(p, b)
    ensures !Resumes(p, b, "x")
  {
    assert Parse(p, b).ret == 1 && Parse(p, b).rest == [];
    assert Parse(p, b + "x").rest == [];
  }

  function Filler(n: nat): string { seq(n, _ => 'x') }

  lemma ElementTurnDrains(p: SoundParser, line: string, rest: string)
    requires p.state == ReadMbulk && FirstChar(line) == '$'
    requires var n := AsUint32(NumberOn(line)); AsUint32(n + 2) <= |rest| <= n + 2
    ensures match OnElementLine(p, line, rest)
            case Again(q, r) => r == [] && q.state == ReadMbulk
            case Return(c) => c.rest == [] && c.ret == 1 && c.state.state == Initial
  {
    assert |Drained(Drained(rest, AsUint32(NumberOn(line))), 2)| == 0;
    hide NumberOn, CString, Taken, Drained, Link;
  }

  /** The element the turn would have added, had the whole body been there. */
  lemma ElementTurn(p: SoundParser, b: string)
    requires p.state == ReadMbulk && Readln(b).Some? && FirstChar(Readln(b).value.text) == '$'
    requires var l := Readln(b).value;
             var n := AsUint32(NumberOn(l.text));
             AsUint32(n + 2) <= |l.rest| <= n + 2
    ensures var l := Readln(b).value;
            var n := AsUint32(NumberOn(l.text));
            var c := Parse(p, b);
            && c.rest == [] && c.state.state != ReadBulk && c.ret in {0, 1}
            && |c.state.tree| == |p.tree| + 1
            && c.state.tree[|p.tree|] == Leaf(Taken(l.rest, n), n)
  {
    hide NumberOn, AsUint32, OnElementLine, OnFirstLine, OnBulkBody, Taken, Readln;
    var l := Readln(b).value;
    ElementTurnDrains(p, l.text, l.rest);
    ElementLineAdds(p, l.text, l.rest);
    var t := Iterate(p, b);
    if t.Again? {
      WaitsOnNothing(t.state);
    }
  }

  lemma WaitsOnNothing(p: SoundParser)
    requires p.state != ReadBulk
    ensures var c := Parse(p, []); c.ret == 0 && c.rest == [] && c.state == p.(responseLen := 0)
  {
    assert Readln([]).None?;
  }

  lemma BodyMissing(p: SoundParser, line: string, rest: string)
    requires p.state == ReadMbulk && FirstChar(line) == '$'
    requires |rest| < AsUint32(AsUint32(NumberOn(line)) + 2)
    ensures var t := OnElementLine(p, line, rest);
            && t.Return? && t.call.ret == 0 && t.call.rest == rest
            && t.call.state.state == ReadMbulk && t.call.state.tree == p.tree && t.call.state.levels == p.levels
  {
    hide NumberOn, CString, Link, Taken, Drained, AsUint32;
  }

  /** The header of a bulk element is gone once the call has returned without its body. */
  lemma HeaderLost(p: SoundParser, b: string)
    requires p.state == ReadMbulk && Readln(b).Some? && FirstChar(Readln(b).value.text) == '$'
    requires |Readln(b).value.rest| < AsUint32(AsUint32(NumberOn(Readln(b).value.text)) + 2)
    ensures var c := Parse(p, b);
            && c.ret == 0 && c.rest == Readln(b).value.rest && c.state.state == ReadMbulk
            && c.state.tree == p.tree && c.state.levels == p.levels
  {
    hide NumberOn, OnElementLine, OnFirstLine, OnBulkBody, Readln, AsUint32;
    BodyMissing(p, Readln(b).value.text, Readln(b).value.rest);
  }

  lemma WaitsForLine(p: SoundParser, b: string)
    requires p.state != ReadBulk && |b| == 1
    ensures Parse(p, b).rest == b
  {
  }

  /** A length so large that adding 2 wraps: the call takes the bytes that came later as well. */
  lemma WrappedElementDiffers(p: SoundParser, b: string)
    requires p.state == ReadMbulk && Hasty(p, b)
    requires AsUint32(AsUint32(NumberOn(Readln(b).value.text)) + 2) <= |Readln(b).value.rest|
    ensures !Resumes(p, b, "x")
  {
    hide NumberOn, Parse;
    ReadlnExtends(b, "x");
    ElementTurn(p, b);
    ElementTurn(p, b + "x");
    var c := Parse(p, b);
    assert c.rest + "x" == "x";
    WaitsForLine(c.state, "x");
  }

  /** A body that has not come: resuming reads it as lines, which can only make shorter elements. */
  lemma CutElementDiffers(p: SoundParser, b: string) returns (more: string)
    requires p.state == ReadMbulk && Hasty(p, b)
    requires AsUint32(AsUint32(NumberOn(Readln(b).value.text)) + 2) > |Readln(b).value.rest|
    ensures !Resumes(p, b, more)
  {
    hide NumberOn, Parse;
    var l := Readln(b).value;
    var n := AsUint32(NumberOn(l.text));
    more := Filler(if n + 2 < UINT_RANGE then n + 2 - |l.rest| else 1);
    ReadlnExtends(b, more);
    ElementTurn(p, b + more);
    HeaderLost(p, b);
    var c := Parse(p, b);
    FirstNewElementIsShort(c.state, c.rest + more);
  }

  lemma {:induction false} FragileDiffers(p: SoundParser, b: string) returns (more: string)
    requires Fragile(p, b)
    ensures !Resumes(p, b, more)
    decreases |b|
  {
    hide Iterate, NumberOn;
    IterateConsumes(p, b);
    if !Hasty(p, b) {
      var t := Iterate(p, b);
      more := FragileDiffers(t.state, t.rest);
      IterateExtends(p, b, more);
    } else if p.state == ReadBulk {
      more := "x";
      HastyBulkLosesBytes(p, b);
    } else if AsUint32(AsUint32(NumberOn(Readln(b).value.text)) + 2) <= |Readln(b).value.rest| {
      more := "x";
      WrappedElementDiffers(p, b);
    } else {
      more := CutElementDiffers(p, b);
    }
  }

  /** Exactly which calls can be interrupted: those without a hasty turn. */
  lemma StableIffNotFragile(p: Resting, b: string)
    ensures Stable(ParseCall, p, b) <==> !Fragile(p, b)
  {
    hide Parse, Fragile;
    if Fragile(p, b) {
      var more := FragileDiffers(p, b);
      assert !StableWith(ParseCall, p, b, more);
    } else {
      forall more ensures StableWith(ParseCall, p, b, more) {
        Extends(p, b, more);
      }
    }
  }

  /** The call meets an array reply, or a kept bulk value of a length within two bytes of 4 GiB. */
  predicate Risk(p: Resting, b: string)
  {
    match p.state
    case ReadMbulk => true
    case ReadBulk => p.keepValue && p.bulkLen + 2 >= UINT_RANGE
    case Initial =>
      match Iterate(p, b)
      case Again(q, _) => q.state == ReadMbulk || (q.keepValue && q.bulkLen + 2 >= UINT_RANGE)
      case Return(_) => false
  }

  lemma FirstTurn(p: SoundParser, b: string)
    requires p.state == Initial
    ensures !Hasty(p, b)
    ensures match Iterate(p, b)
            case Again(q, rest) => q.state != Initial && q.keepValue == p.keepValue
            case Return(c) => c.state.state == Initial
  {
    hide NumberOn;
  }

  lemma RiskCoversFragile(p: Resting, b: string)
    requires !Risk(p, b)
    ensures !Fragile(p, b)
  {
    IterateConsumes(p, b);
    if p.state == Initial {
      FirstTurn(p, b);
      hide Iterate;
    }
  }

  lemma RiskGrows(p: Resting, b: string, more: string)
    requires Risk(p, b)
    ensures Risk(p, b + more)
  {
    if p.state == Initial {
      FirstTurn(p, b);
      IterateExtends(p, b, more);
      hide Iterate;
    }
  }

  lemma BulkRiskResumes(p: SoundParser, b: string)
    requires p.state == ReadBulk
    ensures Parse(p, b).ret == 0 ==> Parse(p, b).state == p
  {
    hide Iterate;
    WaitsUnchanged(p, b);
  }

  lemma FirstTurnRest(p: SoundParser, b: string)
    requires p.state == Initial
    ensures Iterate(p, b).Again? ==> Parse(p, b) == Parse(Iterate(p, b).state, Iterate(p, b).rest)
    ensures Iterate(p, b).Return? ==> Parse(p, b) == Iterate(p, b).call
  {
    hide Iterate;
  }

  lemma RiskResumes(p: Resting, b: string, more: string)
    requires !Risk(p, b) && !Risk(p, b + more) && ParseCall(p, b).ret == 0
    ensures !Risk(ParseCall(p, b).state, ParseCall(p, b).rest + more)
  {
    hide Iterate, Parse;
    if p.state == Initial {
      FirstTurn(p, b);
      FirstTurnRest(p, b);
      IterateExtends(p, b, more);
      match Iterate(p, b)
      case Again(q, rest) => BulkRiskResumes(q, rest);
      case Return(c) => ResponseLenIsOverwritten(p, c.state, b + more);
    } else {
      BulkRiskResumes(p, b);
    }
  }

  lemma RiskGuards()
    ensures Progress(ParseCall) && Guards(ParseCall, Risk)
  {
    hide Risk, Parse, Fragile;
    forall p: Resting, b | !Risk(p, b) ensures Stable(ParseCall, p, b) {
      RiskCoversFragile(p, b);
      StableIffNotFragile(p, b);
    }
    forall p: Resting, b, more ensures Risk(p, b) ==> Risk(p, b + more) {
      if Risk(p, b) { RiskGrows(p, b, more); }
    }
    forall p: Resting, b, more | ParseCall(p, b).ret == 0 && !Risk(p, b + more) && !Risk(p, b)
      ensures !Risk(ParseCall(p, b).state, ParseCall(p, b).rest + more)
    {
      RiskResumes(p, b, more);
    }
  }

  // ----- reports come with the last byte they are made of -----

  lemma BulkBodyTakes(p: SoundParser, b: string) returns (used: string)
    requires p.state == ReadBulk && !Hasty(p, b) && |b| >= AsUint32(p.bulkLen + 2)
    ensures var c := OnBulkBody(p, b).call;
            b == used + c.rest && OnBulkBody(p, used) == Return(Call(c.state, "", c.ret))
  {
    hide AsUint32;
    var n, need := p.bulkLen, AsUint32(p.bulkLen + 2);
    if p.keepValue && n > 0 {
      used := b[..n + 2];
      assert b[n..][2..] == b[n + 2..] && used[..n] == b[..n] && used[n..][2..] == "";
    } else {
      used := b[..need];
    }
  }

  lemma ElementLineTakes(p: SoundParser, line: string, rest: string) returns (body: string)
    requires p.state == ReadMbulk
    requires FirstChar(line) == '$' ==> |rest| >= AsUint32(NumberOn(line)) + 2
    ensures FirstChar(line) == '$' ==> |body| >= AsUint32(NumberOn(line)) + 2
    ensures match OnElementLine(p, line, rest)
            case Again(q, rest') => rest == body + rest' && OnElementLine(p, line, body) == Again(q, "")
            case Return(c) => rest == body + c.rest && OnElementLine(p, line, body) == Return(Call(c.state, "", c.ret))
  {
    hide NumberOn, CString, Link, Taken, Drained, CountDown, AsUint32;
    body := "";
    if FirstChar(line) == '$' {
      var n := AsUint32(NumberOn(line));
      body := rest[..n + 2];
      BodyAlone(rest, n);
      NoWrap(n, body);
    } else {
      assert "" + rest == rest;
    }
  }

  lemma BodyAlone(rest: string, n: nat)
    requires |rest| >= n + 2
    ensures var body := rest[..n + 2];
            && Taken(body, n) == Taken(rest, n) && Drained(Drained(body, n), 2) == ""
            && rest == body + Drained(Drained(rest, n), 2)
  {
    var body := rest[..n + 2];
    assert rest[n..][2..] == rest[n + 2..] && body[..n] == rest[..n] && body[n..][2..] == "";
  }

  lemma NoWrap(n: UInt, body: string)
    requires |body| >= n + 2
    ensures |body| >= AsUint32(n + 2)
  {
  }

  lemma FirstLineTakes(p: SoundParser, line: string, rest: string)
    requires p.state == Initial
    ensures match OnFirstLine(p, line, rest)
            case Again(q, rest') => rest' == rest && OnFirstLine(p, line, "") == Again(q, "")
            case Return(c) => c.rest == rest && OnFirstLine(p, line, "") == Return(Call(c.state, "", c.ret))
  {
    hide NumberOn;
  }

  lemma InitialTakes(p: SoundParser, b: string) returns (used: string)
    requires p.state == Initial && Readln(b).Some?
    ensures !Hasty(p, used)
    ensures match Iterate(p, b)
            case Again(q, rest) => b == used + rest && Iterate(p, used) == Again(q, "")
            case Return(c) => b == used + c.rest && Iterate(p, used) == Return(Call(c.state, "", c.ret))
  {
    hide NumberOn, OnElementLine, OnFirstLine, OnBulkBody, Readln;
    var l := Readln(b).value;
    used := l.text + "\r\n";
    ReadlnAlone(b);
    FirstLineTakes(p, l.text, l.rest);
  }

  lemma MbulkTakes(p: SoundParser, b: string) returns (used: string)
    requires p.state == ReadMbulk && !Hasty(p, b) && Readln(b).Some?
    ensures !Hasty(p, used)
    ensures match Iterate(p, b)
            case Again(q, rest) => b == used + rest && Iterate(p, used) == Again(q, "")
            case Return(c) => b == used + c.rest && Iterate(p, used) == Return(Call(c.state, "", c.ret))
  {
    hide NumberOn, OnElementLine, OnFirstLine, OnBulkBody, Readln, AsUint32;
    var l := Readln(b).value;
    var line := l.text + "\r\n";
    ReadlnAlone(b);
    var body := ElementLineTakes(p, l.text, l.rest);
    ReadlnExtends(line, body);
    assert "" + body == body;
    used := line + body;
    match OnElementLine(p, l.text, l.rest)
    case Again(q, rest) => Assoc(line, body, rest);
    case Return(c) => Assoc(line, body, c.rest);
  }

  /** What a turn takes off the buffer is all it needed of it. */
  lemma TurnTakes(p: SoundParser, b: string) returns (used: string)
    requires !Hasty(p, b)
    ensures Iterate(p, b).Again? ==>
              var t := Iterate(p, b); !Hasty(p, used) && b == used + t.rest && Iterate(p, used) == Again(t.state, "")
    ensures Iterate(p, b).Return? ==>
              var c := Iterate(p, b).call;
              c.ret != 0 ==> b == used + c.rest && Iterate(p, used) == Return(Call(c.state, "", c.ret))
  {
    used := "";
    if p.state == ReadBulk {
      if |b| >= AsUint32(p.bulkLen + 2) { used := BulkBodyTakes(p, b); }
      BulkBodyShape(p, b);
    } else if Readln(b).Some? {
      if p.state == Initial { used := InitialTakes(p, b); } else { used := MbulkTakes(p, b); }
    }
    hide Hasty, OnBulkBody, OnElementLine, OnFirstLine, Readln, AsUint32;
  }

  lemma {:induction false} CallTakes(p: SoundParser, b: string) returns (used: string)
    requires !Fragile(p, b) && Parse(p, b).ret != 0
    ensures var c := Parse(p, b); b == used + c.rest && Parse(p, used) == Call(c.state, "", c.ret)
    decreases |b|
  {
    hide Iterate, Hasty;
    IterateConsumes(p, b);
    used := TurnTakes(p, b);
    match Iterate(p, b)
    case Again(q, rest) =>
      var tail := CallTakes(q, rest);
      IterateExtends(p, used, tail);
      assert "" + tail == tail;
      IterateConsumes(p, used + tail);
      Assoc(used, tail, Parse(p, b).rest);
      used := used + tail;
    case Return(c) =>
      IterateConsumes(p, used);
  }

  lemma ReportsArePrompt()
    ensures Prompt(ParseCall, Risk)
  {
    hide Parse, Risk, Fragile;
    forall p: Resting, b | ParseCall(p, b).ret != 0 && !Risk(p, b)
      ensures exists used :: TookOnly(ParseCall, p, b, used)
    {
      RiskCoversFragile(p, b);
      var used := CallTakes(p, b);
      assert TookOnly(ParseCall, p, b, used);
    }
  }

  lemma {:induction false} ErrorsAtFirstLines(p: SoundParser, b: string)
    ensures Parse(p, b).ret < 0 ==> Parse(p, b).state.state == Initial
    decreases |b|
  {
    hide Iterate;
    IterateConsumes(p, b);
    ErrorTurn(p, b);
    match Iterate(p, b)
    case Again(q, rest) => ErrorsAtFirstLines(q, rest);
    case Return(c) =>
  }

  lemma ErrorTurn(p: SoundParser, b: string)
    ensures Iterate(p, b).Return? && Iterate(p, b).call.ret < 0 ==> Iterate(p, b).call.state.state == Initial
  {
    hide OnFirstLine, OnElementLine, OnBulkBody, Readln;
    if p.state == ReadBulk {
      BulkBodyShape(p, b);
    } else if Readln(b).Some? {
      var l := Readln(b).value;
      if p.state == Initial { FirstLineShape(p, l.text, l.rest); } else { ElementLineShape(p, l.text, l.rest); }
    }
  }

  /** Between replies the parser acts on whole lines only; what a wait forgets does not matter. */
  lemma IdleIffNoLine(p: Resting, b: string)
    requires p.state == Initial
    ensures Idle(ParseCall, p, b) <==> NoCrlf(b)
  {
    hide OnFirstLine, OnElementLine, OnBulkBody;
    IterateConsumes(p, b);
    if Readln(b).Some? {
      var l := Readln(b).value;
      assert CrlfAt(b, |l.text|);
      FirstLineShape(p, l.text, l.rest);
      LineIsTaken(p, b);
    }
  }

  lemma LineIsTaken(p: SoundParser, b: string)
    requires p.state == Initial && Readln(b).Some?
    ensures |Parse(p, b).rest| < |b|
  {
    hide OnFirstLine, OnElementLine, OnBulkBody, Readln;
    IterateConsumes(p, b);
    FirstLineShape(p, Readln(b).value.text, Readln(b).value.rest);
  }

  lemma {:induction false} QuietIffNoLine(p: Resting, b: string)
    requires Progress(ParseCall)
    ensures Quiet(ParseCall, p, b) <==> NoCrlf(LeftBehind(ParseCall, p, b))
    decreases |b|
  {
    hide Parse, Idle, NoCrlf;
    var c := ParseCall(p, b);
    NothingHasNoLine("");
    if c.ret > 0 {
      QuietIffNoLine(c.state, c.rest);
    } else if c.ret < 0 {
      ErrorsAtFirstLines(p, b);
      IdleIffNoLine(c.state, c.rest);
    }
  }

  /** A stream of redis replies without arrays may be cut anywhere, if and only if no complete line stands behind its
      first unsupported one. */
  lemma FragmentationIndependent(p: Resting, stream: string)
    requires Progress(ParseCall) && Clean(ParseCall, Risk, p, stream)
    ensures (forall chunks :: SameWhenCut(ParseCall, p, stream, chunks))
        <==> NoCrlf(LeftBehind(ParseCall, p, stream))
  {
    RiskGuards();
    ReportsArePrompt();
    QuietIffNoLine(p, stream);
    hide Quiet, Clean, NoCrlf, LeftBehind, SameWhenCut, Prompt, Guards;
    AnyCutIffQuiet(ParseCall, Risk, p, stream);
  }
}
