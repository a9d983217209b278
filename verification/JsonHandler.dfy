/** The streaming JSON writer: members go to the end of the file as they come, each with a comma behind it, and closing
    a nesting steps back over the last byte. */
module JsonHandler {
  import opened CText

  /** What is described by a file: values already printed, and nestings with or without a name. */
  datatype Json = Scalar(name: string, value: string) | Nest(title: Option<string>, array_: bool, members: seq<Json>)

  // ----- the printer the stream is compared with -----

  function Tabs(n: nat): string { seq(n, _ => '\t') }

  function NewLine(n: nat): string { ['\n'] + Tabs(n) }

  function Quoted(name: string): string { ['"'] + name + ['"'] }

  function Title(title: Option<string>): string { if title.None? then "" else Quoted(title.value) + [':'] }

  function Head(title: Option<string>, array_: bool): string { Title(title) + if array_ then ['['] else ['{'] }

  function Closer(array_: bool): char { if array_ then ']' else '}' }

  /** A member of a nesting of depth `n`, with the line break behind it. */
  function Show(j: Json, n: nat): string
    decreases j
  {
    match j
    case Scalar(name, value) => Quoted(name) + [':', ' '] + value + NewLine(n)
    case Nest(title, array_, members) =>
      Head(title, array_) + (if members == [] then NewLine(n) else NewLine(n + 1) + Commas(members, n + 1))
      + [Closer(array_)] + NewLine(n)
  }

  /** Members with a comma between two. */
  function Commas(members: seq<Json>, n: nat): string
    requires members != []
    decreases members
  {
    if |members| == 1 then Show(members[0], n) else Show(members[0], n) + ([','] + Commas(members[1..], n))
  }

  // ----- the stream -----

  datatype Writer = Writer(file: string, closers: seq<bool>)

  function NewLined(w: Writer): Writer { w.(file := w.file + NewLine(|w.closers|)) }

  function Started(): Writer { NewLined(Writer(['{'], [false])) }

  function ObjWritten(w: Writer, name: string, value: string): Writer
  {
    var l := NewLined(w.(file := w.file + (Quoted(name) + [':', ' '] + value)));
    l.(file := l.file + [','])
  }

  function NestingOpened(w: Writer, title: Option<string>, array_: bool): Writer
  {
    NewLined(Writer(w.file + Head(title, array_), w.closers + [array_]))
  }

  function NestingClosed(w: Writer): Writer
    requires w.closers != [] ==> w.file != ""
  {
    if w.closers == [] then w
    else
      var n := |w.closers| - 1;
      var l := NewLined(Writer(w.file[..|w.file| - 1] + [Closer(w.closers[n])], w.closers[..n]));
      if n > 0 then l.(file := l.file + [',']) else l
  }

  // ----- what the stream describes -----

  /** A nesting that is open, with the members it has got. */
  datatype Frame = Frame(title: Option<string>, array_: bool, members: seq<Json>)

  function Trailing(members: seq<Json>, n: nat): string
  {
    if members == [] then "" else Trailing(members[..|members| - 1], n) + (Show(members[|members| - 1], n) + [','])
  }

  function FrameText(f: Frame, n: nat): string { Head(f.title, f.array_) + NewLine(n) + Trailing(f.members, n) }

  function StackText(frames: seq<Frame>): string
  {
    if frames == [] then ""
    else
      var n := |frames|;
      StackText(frames[..n - 1]) + FrameText(frames[n - 1], n)
  }

  function Types(frames: seq<Frame>): seq<bool>
  {
    seq(|frames|, i requires 0 <= i < |frames| => frames[i].array_)
  }

  /** The file holds the open nestings, outermost first, each with its members. */
  predicate Describes(w: Writer, frames: seq<Frame>) { w.file == StackText(frames) && w.closers == Types(frames) }

  function WithMember(frames: seq<Frame>, j: Json): seq<Frame>
    requires frames != []
  {
    var n := |frames| - 1;
    frames[..n] + [frames[n].(members := frames[n].members + [j])]
  }

  function AsMember(f: Frame): Json { Nest(f.title, f.array_, f.members) }

  lemma StackOfOneMore(frames: seq<Frame>, f: Frame)
    ensures StackText(frames + [f]) == StackText(frames) + FrameText(f, |frames| + 1)
    ensures Types(frames + [f]) == Types(frames) + [f.array_]
  {
    hide FrameText, StackText, Types;
    TextOfOneMore(frames + [f], frames, f);
    TypesOfOneMore(frames, f);
  }

  lemma TextOfOneMore(more: seq<Frame>, frames: seq<Frame>, f: Frame)
    requires more == frames + [f]
    ensures StackText(more) == StackText(frames) + FrameText(f, |frames| + 1)
  {
    hide FrameText, StackText;
    StackUnfolds(more);
    assert more[..|frames|] == frames;
  }

  lemma TypesOfOneMore(frames: seq<Frame>, f: Frame)
    ensures Types(frames + [f]) == Types(frames) + [f.array_]
  {
  }

  lemma TrailingOfOneMore(members: seq<Json>, j: Json, n: nat)
    ensures Trailing(members + [j], n) == Trailing(members, n) + (Show(j, n) + [','])
  {
    assert (members + [j])[..|members|] == members;
  }

  /** A member written at the end joins the innermost nesting. */
  lemma MemberJoins(frames: seq<Frame>, j: Json)
    requires frames != []
    ensures StackText(WithMember(frames, j)) == StackText(frames) + (Show(j, |frames|) + [','])
    ensures Types(WithMember(frames, j)) == Types(frames)
  {
    var n := |frames| - 1;
    var f := frames[n];
    var g := f.(members := f.members + [j]);
    assert frames == frames[..n] + [f];
    StackOfOneMore(frames[..n], f);
    StackOfOneMore(frames[..n], g);
    TrailingOfOneMore(f.members, j, n + 1);
    hide StackText, Show, Trailing, Types;
    var a, b, c := StackText(frames[..n]), Head(f.title, f.array_) + NewLine(n + 1), Show(j, n + 1) + [','];
    Assoc(b, Trailing(f.members, n + 1), c);
    Assoc(a, b + Trailing(f.members, n + 1), c);
  }

  lemma {:induction false} TrailingIsCommas(members: seq<Json>, n: nat)
    requires members != []
    ensures Trailing(members, n) == Commas(members, n) + [',']
    decreases |members|
  {
    var k := |members| - 1;
    if k == 0 {
      assert members[..0] == [];
      assert "" + (Show(members[0], n) + [',']) == Show(members[0], n) + [','];
    } else {
      TrailingIsCommas(members[..k], n);
      CommasOfOneMore(members[..k], members[k], n);
      assert members[..k] + [members[k]] == members;
      hide Commas, Show, Trailing;
      Assoc(Commas(members[..k], n), [','], Show(members[k], n) + [',']);
      Assoc([','], Show(members[k], n), [',']);
      Assoc(Commas(members[..k], n), [','] + Show(members[k], n), [',']);
    }
  }

  lemma {:induction false} CommasOfOneMore(members: seq<Json>, j: Json, n: nat)
    requires members != []
    ensures Commas(members + [j], n) == Commas(members, n) + ([','] + Show(j, n))
    decreases |members|
  {
    hide Show;
    if |members| == 1 {
      assert (members + [j])[1..] == [j];
    } else {
      assert (members + [j])[1..] == members[1..] + [j];
      CommasOfOneMore(members[1..], j, n);
      hide Commas;
      var a, b, c := Show(members[0], n), Commas(members[1..], n), [','] + Show(j, n);
      Assoc([','], b, c);
      Assoc(a, [','] + b, c);
    }
  }

  /** The step back over the last byte: a comma when there are members, a tab otherwise; what is left, closed, is the
      nesting as the printer shows it. */
  lemma StepBack(f: Frame, n: nat)
    ensures var t := FrameText(f, n + 1);
            && t != "" && t[|t| - 1] == (if f.members == [] then '\t' else ',')
            && t[..|t| - 1] + [Closer(f.array_)] + NewLine(n) == Show(AsMember(f), n)
  {
    var t, h := FrameText(f, n + 1), Head(f.title, f.array_);
    if f.members == [] {
      assert t == h + NewLine(n + 1) + "" == h + NewLine(n + 1);
      assert NewLine(n + 1) == NewLine(n) + ['\t'];
      hide Head, NewLine;
      Assoc(h, NewLine(n), ['\t']);
      assert t == h + NewLine(n) + ['\t'];
    } else {
      TrailingIsCommas(f.members, n + 1);
      var c := Commas(f.members, n + 1);
      hide Head, NewLine, Trailing, Commas;
      Assoc(h + NewLine(n + 1), c, [',']);
      Assoc(h, NewLine(n + 1), c);
      assert t == h + (NewLine(n + 1) + c) + [','];
    }
  }

  // ----- every call keeps the description -----

  lemma ObjDescribed(w: Writer, frames: seq<Frame>, name: string, value: string)
    requires Describes(w, frames) && frames != []
    ensures Describes(ObjWritten(w, name, value), WithMember(frames, Scalar(name, value)))
  {
    MemberJoins(frames, Scalar(name, value));
    hide StackText, Types, WithMember, NewLine, Quoted;
    var a, b, n := w.file, Quoted(name) + [':', ' '] + value, NewLine(|frames|);
    Assoc(a, b, n);
    Assoc(a, b + n, [',']);
  }

  lemma NestingDescribed(w: Writer, frames: seq<Frame>, title: Option<string>, array_: bool)
    requires Describes(w, frames)
    ensures Describes(NestingOpened(w, title, array_), frames + [Frame(title, array_, [])])
  {
    var f := Frame(title, array_, []);
    StackOfOneMore(frames, f);
    assert FrameText(f, |frames| + 1) == Head(title, array_) + NewLine(|frames| + 1) + "";
    hide StackText, Head, NewLine, FrameText, Types;
    Assoc(w.file, Head(title, array_), NewLine(|frames| + 1));
  }

  /** Closing the innermost nesting makes it a member of the one around it. */
  lemma InnerClosed(w: Writer, frames: seq<Frame>)
    requires Describes(w, frames) && |frames| > 1
    ensures var n := |frames| - 1;
            Describes(NestingClosed(w), WithMember(frames[..n], AsMember(frames[n])))
  {
    hide StackText, FrameText, Show, NewLine, WithMember, Types, NestingClosed, Closer, AsMember;
    var n := |frames| - 1;
    var f := frames[n];
    StackUnfolds(frames);
    MemberJoins(frames[..n], AsMember(f));
    StepBack(f, n);
    InnerTypes(frames);
    ClosedText(StackText(frames[..n]), FrameText(f, n + 1), Closer(f.array_), NewLine(n), Show(AsMember(f), n));
    ClosedParts(w);
  }

  lemma StackUnfolds(frames: seq<Frame>)
    requires frames != []
    ensures var n := |frames| - 1; StackText(frames) == StackText(frames[..n]) + FrameText(frames[n], n + 1)
  {
    hide FrameText;
  }

  lemma ClosedParts(w: Writer)
    requires |w.closers| > 1 && w.file != ""
    ensures var n := |w.closers| - 1;
            NestingClosed(w) ==
            Writer(w.file[..|w.file| - 1] + [Closer(w.closers[n])] + NewLine(n) + [','], w.closers[..n])
  {
    hide NewLine, Closer;
  }

  lemma InnerTypes(frames: seq<Frame>)
    requires frames != []
    ensures var n := |frames| - 1;
            |Types(frames)| == n + 1 && Types(frames)[..n] == Types(frames[..n]) && Types(frames)[n] == frames[n].array_
  {
  }

  lemma ClosedText(a: string, t: string, c: char, l: string, shown: string)
    requires t != "" && t[..|t| - 1] + [c] + l == shown
    ensures a + t != "" && (a + t)[..|a + t| - 1] + [c] + l + [','] == a + (shown + [','])
  {
    DroppedFromEnd(a, t);
    var r := t[..|t| - 1];
    Assoc(a, r, [c]);
    Assoc(a, r + [c], l);
    Assoc(a, r + [c] + l, [',']);
  }

  lemma DroppedFromEnd(a: string, t: string)
    requires t != ""
    ensures (a + t)[..|a + t| - 1] == a + t[..|t| - 1]
  {
  }

  /** Closing the outermost nesting leaves the whole document. */
  lemma OuterClosed(w: Writer, f: Frame)
    requires Describes(w, [f])
    ensures NestingClosed(w) == Writer(Show(AsMember(f), 0), [])
  {
    hide StackText, FrameText, Show, NewLine, Types, NestingClosed, Closer, AsMember;
    StackOfFirst(f);
    StepBack(f, 0);
    OuterParts(w);
  }

  lemma StackOfFirst(f: Frame)
    ensures StackText([f]) == FrameText(f, 1) && Types([f]) == [f.array_]
  {
    hide FrameText;
    var frames := [f];
    assert frames[..0] == [] && "" + FrameText(f, 1) == FrameText(f, 1);
  }

  lemma OuterParts(w: Writer)
    requires |w.closers| == 1 && w.file != ""
    ensures NestingClosed(w) == Writer(w.file[..|w.file| - 1] + [Closer(w.closers[0])] + NewLine(0), [])
  {
    hide NewLine, Closer;
    assert w.closers[..0] == [];
  }

  // ----- runs -----

  datatype Call =
    | WriteObj(name: string, value: string)
    | OpenNesting(title: Option<string>, array_: bool)
    | CloseNesting

  function Called(w: Writer, call: Call): Writer
    requires w.file != ""
  {
    match call
    case WriteObj(name, value) => ObjWritten(w, name, value)
    case OpenNesting(title, array_) => NestingOpened(w, title, array_)
    case CloseNesting => NestingClosed(w)
  }

  /** The nestings that are open after a call; the outermost one is left to the destructor. */
  function After(frames: seq<Frame>, call: Call): seq<Frame>
    requires frames != [] && (call.CloseNesting? ==> |frames| > 1)
  {
    match call
    case WriteObj(name, value) => WithMember(frames, Scalar(name, value))
    case OpenNesting(title, array_) => frames + [Frame(title, array_, [])]
    case CloseNesting =>
      var n := |frames| - 1;
      WithMember(frames[..n], AsMember(frames[n]))
  }

  /** Calls that never close the outermost nesting. */
  predicate Nested(depth: nat, calls: seq<Call>)
    decreases |calls|
  {
    calls == [] ||
    match calls[0]
    case WriteObj(_, _) => Nested(depth, calls[1..])
    case OpenNesting(_, _) => Nested(depth + 1, calls[1..])
    case CloseNesting => depth > 1 && Nested(depth - 1, calls[1..])
  }

  function Opened(frames: seq<Frame>, calls: seq<Call>): (after: seq<Frame>)
    requires frames != [] && Nested(|frames|, calls)
    ensures after != []
    decreases |calls|
  {
    if calls == [] then frames else Opened(After(frames, calls[0]), calls[1..])
  }

  lemma DescribedIsNotEmpty(w: Writer, frames: seq<Frame>)
    requires Describes(w, frames) && frames != []
    ensures w.file != ""
  {
    StepBack(frames[|frames| - 1], |frames| - 1);
    hide FrameText;
  }

  function Written(w: Writer, frames: seq<Frame>, calls: seq<Call>): (after: Writer)
    requires frames != [] && Describes(w, frames) && Nested(|frames|, calls)
    ensures Describes(after, Opened(frames, calls))
    decreases |calls|
  {
    if calls == [] then w
    else
      DescribedIsNotEmpty(w, frames);
      CallDescribed(w, frames, calls[0]);
      hide Describes, Called;
      Written(Called(w, calls[0]), After(frames, calls[0]), calls[1..])
  }

  lemma CallDescribed(w: Writer, frames: seq<Frame>, call: Call)
    requires frames != [] && Describes(w, frames) && (call.CloseNesting? ==> |frames| > 1) && w.file != ""
    ensures Describes(Called(w, call), After(frames, call))
  {
    hide Describes, ObjWritten, NestingOpened, NestingClosed, WithMember;
    match call
    case WriteObj(name, value) => ObjDescribed(w, frames, name, value);
    case OpenNesting(title, array_) => NestingDescribed(w, frames, title, array_);
    case CloseNesting => InnerClosed(w, frames);
  }

  const ROOT := Frame(None, false, [])

  lemma StartDescribed()
    ensures Describes(Started(), [ROOT])
  {
    StackOfFirst(ROOT);
    assert FrameText(ROOT, 1) == ['{'] + NewLine(1);
    hide StackText, FrameText, NewLine;
  }

  /** The destructor closes what is open, innermost first. */
  function AllClosed(frames: seq<Frame>): Json
    requires frames != []
    decreases |frames|
  {
    var n := |frames| - 1;
    if n == 0 then AsMember(frames[0]) else AllClosed(WithMember(frames[..n], AsMember(frames[n])))
  }

  function Destroyed(w: Writer, frames: seq<Frame>): Writer
    requires frames != [] && Describes(w, frames)
    decreases |frames|
  {
    DescribedIsNotEmpty(w, frames);
    var n := |frames| - 1;
    var closed := NestingClosed(w);
    if n == 0 then closed
    else
      InnerClosed(w, frames);
      Destroyed(closed, WithMember(frames[..n], AsMember(frames[n])))
  }

  lemma {:induction false} DestroyedShows(w: Writer, frames: seq<Frame>)
    requires frames != [] && Describes(w, frames)
    ensures Destroyed(w, frames) == Writer(Show(AllClosed(frames), 0), [])
    decreases |frames|
  {
    var n := |frames| - 1;
    DescribedIsNotEmpty(w, frames);
    hide Describes, NestingClosed, Show;
    if n == 0 {
      assert frames == [frames[0]];
      OuterClosed(w, frames[0]);
    } else {
      InnerClosed(w, frames);
      DestroyedShows(NestingClosed(w), WithMember(frames[..n], AsMember(frames[n])));
    }
  }

  // ----- the calls for a tree -----

  function CallsFor(j: Json): seq<Call>
    decreases j
  {
    match j
    case Scalar(name, value) => [WriteObj(name, value)]
    case Nest(title, array_, members) => [OpenNesting(title, array_)] + CallsForAll(members) + [CloseNesting]
  }

  function CallsForAll(members: seq<Json>): seq<Call>
    decreases members
  {
    if members == [] then [] else CallsFor(members[0]) + CallsForAll(members[1..])
  }

  lemma {:induction false} CallsJoin(frames: seq<Frame>, j: Json, more: seq<Call>)
    requires frames != []
    ensures Nested(|frames|, CallsFor(j) + more) <==> Nested(|frames|, more)
    ensures Nested(|frames|, more) ==> Opened(frames, CallsFor(j) + more) == Opened(WithMember(frames, j), more)
    decreases j
  {
    if j.Scalar? {
      FirstCall(frames, WriteObj(j.name, j.value), more);
    } else {
      var open, close := OpenNesting(j.title, j.array_), CloseNesting;
      var inner, filled := frames + [Frame(j.title, j.array_, [])], frames + [Frame(j.title, j.array_, j.members)];
      var rest := CallsForAll(j.members) + ([close] + more);
      NestCalls(open, CallsForAll(j.members), close, more);
      CallsJoinAll(inner, j.members, [close] + more);
      FirstCall(frames, open, rest);
      FirstCall(filled, close, more);
      assert [] + j.members == j.members && WithMembers(inner, j.members) == filled;
      assert filled[..|frames|] == frames && AsMember(filled[|frames|]) == j;
      hide CallsForAll, WithMember, WithMembers, Opened, Nested;
    }
  }

  lemma NestCalls(open: Call, inside: seq<Call>, close: Call, more: seq<Call>)
    ensures [open] + inside + [close] + more == [open] + (inside + ([close] + more))
  {
  }

  lemma FirstCall(frames: seq<Frame>, call: Call, more: seq<Call>)
    requires frames != []
    ensures Nested(|frames|, [call] + more) <==>
            (call.CloseNesting? ==> |frames| > 1) && Nested(|After(frames, call)|, more)
    ensures Nested(|frames|, [call] + more) ==>
              Opened(frames, [call] + more) == Opened(After(frames, call), more)
  {
    assert ([call] + more)[1..] == more;
  }

  function WithMembers(frames: seq<Frame>, members: seq<Json>): seq<Frame>
    requires frames != []
  {
    var n := |frames| - 1;
    frames[..n] + [frames[n].(members := frames[n].members + members)]
  }

  lemma {:induction false} CallsJoinAll(frames: seq<Frame>, members: seq<Json>, more: seq<Call>)
    requires frames != []
    ensures Nested(|frames|, CallsForAll(members) + more) <==> Nested(|frames|, more)
    ensures Nested(|frames|, more) ==>
              Opened(frames, CallsForAll(members) + more) == Opened(WithMembers(frames, members), more)
    decreases members
  {
    var n := |frames| - 1;
    if members == [] {
      assert CallsForAll(members) + more == more;
      assert frames[n].members + [] == frames[n].members && WithMembers(frames, []) == frames;
    } else {
      var j, others := members[0], members[1..];
      var rest := CallsForAll(others) + more;
      assert CallsForAll(members) + more == CallsFor(j) + rest;
      CallsJoin(frames, j, rest);
      CallsJoinAll(WithMember(frames, j), others, more);
      assert frames[n].members + [j] + others == frames[n].members + members;
      assert WithMembers(WithMember(frames, j), others) == WithMembers(frames, members);
    }
  }

  /** A document written call by call is the printer's text of its tree. */
  lemma StreamIsPrinter(members: seq<Json>)
    ensures Describes(Started(), [ROOT]) && Nested(1, CallsForAll(members))
    ensures var calls := CallsForAll(members);
            Destroyed(Written(Started(), [ROOT], calls), Opened([ROOT], calls)).file ==
            Show(Nest(None, false, members), 0)
  {
    var calls := CallsForAll(members);
    StartDescribed();
    CallsJoinAll([ROOT], members, []);
    assert calls + [] == calls && [] + members == members;
    hide CallsForAll, Show, Destroyed, Written, Describes, Started;
    DestroyedShows(Written(Started(), [ROOT], calls), Opened([ROOT], calls));
  }

  // ----- the object -----

  class JsonHandler {
    var m_json_file: string
    /** The innermost nesting last; true for an array. */
    var m_nest_closer_types: seq<bool>
    /** The open nestings with the members written so far; none when the document is closed. */
    ghost var frames: seq<Frame>

    ghost function Abs(): Writer
      reads this
    {
      Writer(m_json_file, m_nest_closer_types)
    }

    ghost predicate Valid()
      reads this
    {
      Describes(Abs(), frames) && frames != []
    }

    method Beutify()
      modifies `m_json_file
      ensures Abs() == NewLined(old(Abs()))
      ensures |m_json_file| == |old(m_json_file)| + 1 + |m_nest_closer_types| && old(m_json_file) < m_json_file
      ensures m_json_file[|old(m_json_file)|] == '\n'
      ensures forall i :: |old(m_json_file)| < i < |m_json_file| ==> m_json_file[i] == '\t'
    {
      m_json_file := m_json_file + ['\n'];
      var nest_level := |m_nest_closer_types|;
      ghost var before := m_json_file;
      assert before + Tabs(0) == before;
      while nest_level > 0
        invariant 0 <= nest_level <= |m_nest_closer_types|
        invariant m_json_file == before + Tabs(|m_nest_closer_types| - nest_level)
      {
        m_json_file := m_json_file + ['\t'];
        nest_level := nest_level - 1;
      }
      Assoc(old(m_json_file), ['\n'], Tabs(|m_nest_closer_types|));
    }

    constructor ()
      ensures Valid() && frames == [ROOT]
    {
      m_json_file := ['{'];
      m_nest_closer_types := [false];
      frames := [ROOT];
      new;
      Beutify();
      StartDescribed();
    }

    method WriteObj(objectname: string, value: string)
      requires Valid()
      modifies this
      ensures Valid() && frames == WithMember(old(frames), Scalar(objectname, value))
    {
      hide NewLined, Describes;
      ObjDescribed(Abs(), frames, objectname, value);
      frames := WithMember(frames, Scalar(objectname, value));
      ghost var file := m_json_file;
      m_json_file := m_json_file + (Quoted(objectname) + [':', ' ']);
      m_json_file := m_json_file + value;
      Assoc(file, Quoted(objectname) + [':', ' '], value);
      Beutify();
      m_json_file := m_json_file + [','];
    }

    method OpenNesting(objectname: Option<string>, array_: bool)
      requires Valid()
      modifies this
      ensures Valid() && frames == old(frames) + [Frame(objectname, array_, [])]
    {
      hide NewLined, Describes;
      NestingDescribed(Abs(), frames, objectname, array_);
      frames := frames + [Frame(objectname, array_, [])];
      ghost var file := m_json_file;
      var nestStart := if array_ then ['['] else ['{'];
      if objectname.Some? {
        m_json_file := m_json_file + (Quoted(objectname.value) + [':']);
      } else {
        assert m_json_file + "" == m_json_file;
      }
      m_json_file := m_json_file + nestStart;
      Assoc(file, Title(objectname), nestStart);
      m_nest_closer_types := m_nest_closer_types + [array_];
      Beutify();
    }

    method CloseInnermost() returns (left: nat)
      requires m_nest_closer_types != [] ==> m_json_file != ""
      modifies `m_json_file, `m_nest_closer_types
      ensures Abs() == NestingClosed(old(Abs())) && left == |m_nest_closer_types|
    {
      hide NewLined;
      var nest_level := |m_nest_closer_types|;
      if nest_level > 0 {
        var type_ := m_nest_closer_types[nest_level - 1];
        m_nest_closer_types := m_nest_closer_types[..nest_level - 1];
        m_json_file := m_json_file[..|m_json_file| - 1];
        var nestEnd := Closer(type_);
        m_json_file := m_json_file + [nestEnd];
        Beutify();
        if nest_level > 1 {
          m_json_file := m_json_file + [','];
        }
      }
      return |m_nest_closer_types|;
    }

    /** Closing the outermost nesting is the end of the document. */
    method CloseNesting() returns (left: nat)
      requires m_nest_closer_types != [] ==> Valid()
      modifies this
      ensures old(m_nest_closer_types) == [] ==> Abs() == old(Abs()) && frames == old(frames)
      ensures |old(m_nest_closer_types)| > 1 ==>
                && Valid()
                && frames == WithMember(old(frames)[..|old(frames)| - 1], AsMember(old(frames)[|old(frames)| - 1]))
      ensures |old(m_nest_closer_types)| == 1 ==> Abs() == Writer(Show(AsMember(old(frames)[0]), 0), []) && frames == []
      ensures left == |m_nest_closer_types|
    {
      hide Describes, Show, AsMember;
      ghost var nest_level := |m_nest_closer_types|;
      if nest_level > 0 {
        CloseDescribed();
        frames := if nest_level == 1 then []
                  else WithMember(frames[..|frames| - 1], AsMember(frames[|frames| - 1]));
      }
      left := CloseInnermost();
    }

    lemma CloseDescribed()
      requires Valid()
      ensures |m_nest_closer_types| == |frames| && m_json_file != ""
      ensures |frames| > 1 ==>
                Describes(NestingClosed(Abs()), WithMember(frames[..|frames| - 1], AsMember(frames[|frames| - 1])))
      ensures |frames| == 1 ==> NestingClosed(Abs()) == Writer(Show(AsMember(frames[0]), 0), [])
    {
      DescribedIsNotEmpty(Abs(), frames);
      hide NestingClosed, Show;
      if |frames| == 1 {
        assert frames == [frames[0]];
        OuterClosed(Abs(), frames[0]);
      } else {
        InnerClosed(Abs(), frames);
      }
    }

    /** The destructor: whatever is still open is closed, and the file is the printed document. */
    method Destroy()
      requires Valid()
      modifies this
      ensures m_json_file == Show(AllClosed(old(frames)), 0) && m_nest_closer_types == []
    {
      ghost var document := AllClosed(frames);
      hide Show, Describes, WithMember;
      var left := |m_nest_closer_types|;
      SameDepth();
      while left > 0
        invariant left == |m_nest_closer_types|
        invariant left > 0 ==> Valid() && AllClosed(frames) == document && |frames| == left
        invariant left == 0 ==> m_json_file == Show(document, 0)
        decreases left
      {
        ghost var open := frames;
        left := CloseNesting();
        if left > 0 { SameDepth(); }
      }
    }

    lemma SameDepth()
      requires Valid()
      ensures |frames| == |m_nest_closer_types|
    {
    }
  }
}
