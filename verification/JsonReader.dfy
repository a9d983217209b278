/** A reader of the objects, arrays, strings, numbers and literal names of RFC 8259, for the trees the streaming writer
    describes: what the writer leaves in the file reads back as the tree, exactly when its members are named where JSON
    wants names and its values are JSON values. */
module JsonReader {
  import opened CText
  import opened JsonHandler

  predicate IsWs(c: char) { c == ' ' || c == '\t' || c == '\n' || c == '\r' }

  // ----- strings (section 7) -----

  predicate IsHex(c: char) { IsDigit(c) || 'a' <= c <= 'f' || 'A' <= c <= 'F' }

  /** How many characters the string character in front takes, an escape more than one; 0 if there is none. */
  function CharLength(s: string): (n: nat)
    ensures n <= |s|
  {
    if s == "" || s[0] < ' ' || s[0] == '"' then 0
    else if s[0] != '\\' then 1
    else if |s| >= 2 && s[1] in {'"', '\\', '/', 'b', 'f', 'n', 'r', 't'} then 2
    else if |s| >= 6 && s[1] == 'u' && IsHex(s[2]) && IsHex(s[3]) && IsHex(s[4]) && IsHex(s[5]) then 6
    else 0
  }

  /** What may stand between two quotes. */
  predicate IsStringText(x: string)
  {
    x == "" || (CharLength(x) > 0 && IsStringText(x[CharLength(x)..]))
  }

  /** Text that stands for itself between two quotes: no escapes and nothing that needs one. */
  predicate IsName(s: string) { forall c <- s :: c >= ' ' && c != '"' && c != '\\' }

  // ----- numbers (section 6) -----

  /** Characters of a number or a literal name. */
  predicate IsPlain(c: char) { !IsWs(c) && c !in {',', ':', '[', ']', '{', '}', '"', '\\'} }

  /** `rest` is what a scan of plain characters has left of `s`. */
  predicate Scanned(s: string, rest: string)
  {
    |rest| <= |s| && rest == s[|s| - |rest|..] && forall c <- s[..|s| - |rest|] :: IsPlain(c)
  }

  function AfterDigits(s: string): (r: Option<string>)
    ensures r.Some? ==> |r.value| < |s| && Scanned(s, r.value)
  {
    var n := DigitRun(s);
    if n == 0 then None
    else
      assert forall c <- s[..n] :: IsDigit(c);
      Some(s[n..])
  }

  /** An optional character out of a set. */
  function AfterOne(s: string, set_: set<char>): (r: string)
    requires forall c <- set_ :: IsPlain(c)
    ensures Scanned(s, r)
  {
    if s != "" && s[0] in set_ then s[1..] else s
  }

  /** `[ minus ] int`: a zero is not followed by digits. */
  function AfterInt(s: string): (r: Option<string>)
    ensures r.Some? ==> |r.value| < |s| && Scanned(s, r.value)
  {
    var t := AfterOne(s, {'-'});
    var r := AfterDigits(t);
    if r.None? || (t[0] == '0' && |t| - |r.value| > 1) then None
    else
      ScannedTwice(s, t, r.value);
      r
  }

  /** `[ frac ]` */
  function AfterFrac(s: string): (r: Option<string>)
    ensures r.Some? ==> Scanned(s, r.value)
  {
    var t := AfterOne(s, {'.'});
    if t == s then Some(s)
    else
      var r := AfterDigits(t);
      if r.Some? then ScannedTwice(s, t, r.value); r else None
  }

  /** `[ exp ]` */
  function AfterExp(s: string): (r: Option<string>)
    ensures r.Some? ==> Scanned(s, r.value)
  {
    var t := AfterOne(s, {'e', 'E'});
    if t == s then Some(s)
    else
      var u := AfterOne(t, {'+', '-'});
      var r := AfterDigits(u);
      if r.Some? then ScannedTwice(t, u, r.value); ScannedTwice(s, t, r.value); r else None
  }

  predicate IsNumber(v: string)
  {
    var i := AfterInt(v);
    i.Some? &&
    var f := AfterFrac(i.value);
    f.Some? && AfterExp(f.value) == Some("")
  }

  predicate IsLiteral(v: string) { v == "true" || v == "false" || v == "null" }

  predicate IsQuoted(v: string) { |v| >= 2 && v[0] == v[|v| - 1] == '"' && IsStringText(v[1..|v| - 1]) }

  predicate IsScalarText(v: string) { IsQuoted(v) || IsNumber(v) || IsLiteral(v) }

  lemma ScannedTwice(s: string, t: string, u: string)
    requires Scanned(s, t) && Scanned(t, u)
    ensures Scanned(s, u)
  {
    var i, j := |s| - |t|, |s| - |u|;
    assert u == s[j..];
    assert s[..j] == s[..i] + t[..|t| - |u|];
  }

  /** Numbers and literal names are one run of plain characters. */
  lemma NumbersArePlain(v: string)
    requires IsNumber(v) || IsLiteral(v)
    ensures v != "" && forall c <- v :: IsPlain(c)
  {
    hide IsNumber;
    if IsNumber(v) { NumberScans(v); }
  }

  lemma NumberScans(v: string)
    requires IsNumber(v)
    ensures v != "" && forall c <- v :: IsPlain(c)
  {
    hide AfterInt, AfterFrac, AfterExp, IsPlain;
    var i := AfterInt(v).value;
    var f := AfterFrac(i).value;
    ScannedTwice(v, i, f);
    ScannedTwice(v, f, "");
    assert v[..|v|] == v;
  }

  // ----- values as the program prints them -----

  function DropWs(s: string): (r: string)
    ensures |r| <= |s|
  {
    if s != "" && IsWs(s[|s| - 1]) then DropWs(s[..|s| - 1]) else s
  }

  /** A value without the blanks that a field width puts around it. */
  function Trim(v: string): string { DropWs(SkipWs(v)) }

  /** The tree that is meant, values without blanks around them. */
  function Trimmed(j: Json): Json
    decreases j
  {
    match j
    case Scalar(name, value) => Scalar(name, Trim(value))
    case Nest(title, array_, members) =>
      Nest(title, array_, seq(|members|, i requires 0 <= i < |members| => Trimmed(members[i])))
  }

  /** Members of objects are named and those of arrays are not. */
  predicate WellPlaced(j: Json, inArray: bool)
    decreases j
  {
    match j
    case Scalar(name, value) => !inArray && IsName(name) && IsScalarText(value)
    case Nest(title, array_, members) =>
      && (title.None? <==> inArray) && (title.Some? ==> IsName(title.value))
      && forall m <- members :: WellPlaced(m, array_)
  }

  // ----- the reader -----

  function SkipWs(s: string): (r: string)
    ensures |r| <= |s|
  {
    if s != "" && IsWs(s[0]) then SkipWs(s[1..]) else s
  }

  datatype Word = Word(text: string, rest: string)

  /** Up to the closing quote, which is read too. */
  function UntilQuote(s: string): (w: Option<Word>)
    ensures w.Some? ==> |w.value.rest| < |s|
  {
    if s != "" && s[0] == '"' then Some(Word("", s[1..]))
    else
      var n := CharLength(s);
      if n == 0 then None
      else
        var w := UntilQuote(s[n..]);
        if w.None? then None else Some(Word(s[..n] + w.value.text, w.value.rest))
  }

  /** A name; one with escapes stands for another text than its own, and is not read. */
  function ReadName(s: string): (w: Option<Word>)
    ensures w.Some? ==> |w.value.rest| < |s| && IsName(w.value.text)
  {
    var w := UntilQuote(s);
    if w.Some? && IsName(w.value.text) then w else None
  }

  function PlainRun(s: string): (n: nat)
    ensures n <= |s|
  {
    if s == "" || !IsPlain(s[0]) then 0 else 1 + PlainRun(s[1..])
  }

  function ReadScalar(s: string): (w: Option<Word>)
    ensures w.Some? ==> |w.value.rest| < |s| && IsScalarText(w.value.text)
  {
    if s != "" && s[0] == '"' then
      var w := UntilQuote(s[1..]);
      if w.None? then None
      else
        UntilQuoteIsText(s[1..]);
        assert Quoted(w.value.text)[1..|w.value.text| + 1] == w.value.text;
        Some(Word(Quoted(w.value.text), w.value.rest))
    else
      var n := PlainRun(s);
      if n > 0 && (IsNumber(s[..n]) || IsLiteral(s[..n])) then Some(Word(s[..n], s[n..])) else None
  }

  /** A string character is the same one whatever follows it. */
  lemma CharInFront(x: string, s: string)
    requires CharLength(x) > 0
    ensures CharLength(x + s) == CharLength(x)
    ensures (x + s)[..CharLength(x)] == x[..CharLength(x)] && (x + s)[CharLength(x)..] == x[CharLength(x)..] + s
  {
  }

  lemma CharAlone(s: string)
    requires CharLength(s) > 0
    ensures CharLength(s[..CharLength(s)]) == CharLength(s)
  {
  }

  lemma TextStep(c: string, x: string)
    requires |c| == CharLength(c) > 0 && IsStringText(x)
    ensures IsStringText(c + x)
  {
    CharInFront(c, x);
    assert c[|c|..] + x == x;
    hide CharLength;
  }

  lemma {:induction false} UntilQuoteIsText(s: string)
    requires UntilQuote(s).Some?
    ensures IsStringText(UntilQuote(s).value.text)
    decreases |s|
  {
    if s[0] != '"' {
      var n := CharLength(s);
      UntilQuoteIsText(s[n..]);
      CharAlone(s);
      TextStep(s[..n], UntilQuote(s[n..]).value.text);
    }
  }

  datatype Got = Got(json: Json, rest: string)

  datatype GotAll = GotAll(members: seq<Json>, rest: string)

  /** A nesting, from its opening bracket to its closing one. */
  function ReadNest(title: Option<string>, s: string): (g: Option<Got>)
    requires title.Some? ==> IsName(title.value)
    ensures g.Some? ==> |g.value.rest| < |s| && WellPlaced(g.value.json, title.None?)
    decreases |s|, 0
  {
    if s == "" || (s[0] != '{' && s[0] != '[') then None
    else
      var array_ := s[0] == '[';
      var t := SkipWs(s[1..]);
      if t != "" && t[0] == Closer(array_) then Some(Got(Nest(title, array_, []), t[1..]))
      else
        var all := ReadMembers(t, array_);
        if all.None? then None else Some(Got(Nest(title, array_, all.value.members), all.value.rest))
  }

  function ReadMembers(s: string, array_: bool): (g: Option<GotAll>)
    ensures g.Some? ==> |g.value.rest| < |s| && forall m <- g.value.members :: WellPlaced(m, array_)
    ensures g.Some? ==> g.value.members != []
    decreases |s|, 2
  {
    var first := ReadMember(s, array_);
    if first.None? then None
    else
      var t := SkipWs(first.value.rest);
      if t == "" then None
      else if t[0] == Closer(array_) then Some(GotAll([first.value.json], t[1..]))
      else if t[0] != ',' then None
      else
        var more := ReadMembers(t[1..], array_);
        if more.None? then None else Some(GotAll([first.value.json] + more.value.members, more.value.rest))
  }

  function ReadMember(s: string, inArray: bool): (g: Option<Got>)
    ensures g.Some? ==> |g.value.rest| < |s| && WellPlaced(g.value.json, inArray)
    decreases |s|, 1
  {
    var t := SkipWs(s);
    if inArray then ReadNest(None, t)
    else if t == "" || t[0] != '"' then None
    else
      var name := ReadName(t[1..]);
      if name.None? then None
      else
        var u := SkipWs(name.value.rest);
        if u == "" || u[0] != ':' then None else ReadNamed(name.value.text, SkipWs(u[1..]))
  }

  /** What follows a name and its colon. */
  function ReadNamed(name: string, s: string): (g: Option<Got>)
    requires IsName(name)
    ensures g.Some? ==> |g.value.rest| < |s| && WellPlaced(g.value.json, false)
    decreases |s|, 1
  {
    if s != "" && (s[0] == '{' || s[0] == '[') then ReadNest(Some(name), s)
    else
      var v := ReadScalar(s);
      if v.None? then None else Some(Got(Scalar(name, v.value.text), v.value.rest))
  }

  // ----- words read back -----

  predicate Solid(s: string) { s != "" && !IsWs(s[0]) }

  lemma {:induction false} SkipsAll(w: string, s: string)
    requires forall c <- w :: IsWs(c)
    ensures SkipWs(w + s) == SkipWs(s)
  {
    if w == "" {
      assert w + s == s;
    } else {
      assert w[0] in w && (w + s)[1..] == w[1..] + s;
      SkipsAll(w[1..], s);
    }
  }

  lemma SkipsNewLine(n: nat, s: string)
    requires Solid(s)
    ensures SkipWs(NewLine(n) + s) == s && SkipWs(s) == s && SkipWs([' '] + s) == s
  {
    assert forall c <- NewLine(n) :: c == '\n' || c == '\t';
    SkipsAll(NewLine(n), s);
    SkipsAll([' '], s);
  }

  lemma {:induction false} TextReadsBack(x: string, s: string)
    requires IsStringText(x)
    ensures UntilQuote(x + (['"'] + s)) == Some(Word(x, s))
    decreases |x|
  {
    hide CharLength, UntilQuote;
    var tail := ['"'] + s;
    if x == "" {
      assert x + tail == tail && tail[1..] == s;
      AtQuote(tail);
    } else {
      var n := CharLength(x);
      CharInFront(x, tail);
      TextReadsBack(x[n..], s);
      assert x[..n] + x[n..] == x;
      NextChar(x + tail);
    }
  }

  lemma AtQuote(s: string)
    requires s != "" && s[0] == '"'
    ensures UntilQuote(s) == Some(Word("", s[1..]))
  {
  }

  lemma NextChar(s: string)
    requires CharLength(s) > 0 && UntilQuote(s[CharLength(s)..]).Some?
    ensures var w := UntilQuote(s[CharLength(s)..]).value;
            UntilQuote(s) == Some(Word(s[..CharLength(s)] + w.text, w.rest))
  {
  }

  lemma {:induction false} NameIsText(name: string)
    requires IsName(name)
    ensures IsStringText(name)
    decreases |name|
  {
    if name != "" {
      assert name[0] in name && CharLength(name) == 1;
      assert forall c <- name[1..] :: c in name;
      NameIsText(name[1..]);
    }
  }

  lemma NameReadsBack(name: string, s: string)
    requires IsName(name)
    ensures ReadName(name + (['"'] + s)) == Some(Word(name, s))
  {
    NameIsText(name);
    TextReadsBack(name, s);
    hide UntilQuote, IsName, IsStringText;
  }

  lemma {:induction false} RunOf(v: string, s: string)
    requires (forall c <- v :: IsPlain(c)) && s != "" && !IsPlain(s[0])
    ensures PlainRun(v + s) == |v|
  {
    if v == "" {
      assert v + s == s;
    } else {
      assert v[0] in v && (v + s)[1..] == v[1..] + s;
      RunOf(v[1..], s);
    }
  }

  lemma StringReadsBack(x: string, s: string)
    requires IsStringText(x)
    ensures ReadScalar(Quoted(x) + s) == Some(Word(Quoted(x), s))
  {
    var text := Quoted(x) + s;
    assert text[1..] == x + (['"'] + s);
    TextReadsBack(x, s);
    hide UntilQuote, IsStringText, PlainRun, IsNumber;
  }

  lemma PlainReadsBack(v: string, s: string)
    requires (IsNumber(v) || IsLiteral(v)) && s != "" && !IsPlain(s[0])
    ensures ReadScalar(v + s) == Some(Word(v, s))
  {
    NumbersArePlain(v);
    RunOf(v, s);
    assert v[0] in v && (v + s)[..|v|] == v && (v + s)[|v|..] == s;
    hide UntilQuote, PlainRun, IsNumber, IsLiteral;
  }

  lemma ScalarReadsBack(v: string, s: string)
    requires IsScalarText(v) && s != "" && IsWs(s[0])
    ensures ReadScalar(v + s) == Some(Word(v, s)) && Solid(v) && v[0] != '{' && v[0] != '['
  {
    hide ReadScalar, IsNumber, IsStringText;
    if IsQuoted(v) {
      assert v == Quoted(v[1..|v| - 1]);
      StringReadsBack(v[1..|v| - 1], s);
    } else {
      NumbersArePlain(v);
      assert v[0] in v;
      PlainReadsBack(v, s);
    }
  }

  // ----- blanks around a value -----

  /** The blanks in front of a text and behind it. */
  function Lead(v: string): string { v[..|v| - |SkipWs(v)|] }

  function Pad(v: string): string { SkipWs(v)[|Trim(v)|..] }

  lemma {:induction false} SkipsSuffix(v: string)
    ensures v == v[..|v| - |SkipWs(v)|] + SkipWs(v) && forall c <- v[..|v| - |SkipWs(v)|] :: IsWs(c)
  {
    if v != "" && IsWs(v[0]) {
      SkipsSuffix(v[1..]);
      var n := |v| - |SkipWs(v)|;
      assert v[..n] == [v[0]] + v[1..][..n - 1];
    }
  }

  lemma {:induction false} DropsPrefix(v: string)
    ensures v == DropWs(v) + v[|DropWs(v)|..] && forall c <- v[|DropWs(v)|..] :: IsWs(c)
    decreases |v|
  {
    if v != "" && IsWs(v[|v| - 1]) {
      var w := v[..|v| - 1];
      DropsPrefix(w);
      assert v == w + [v[|v| - 1]];
      assert v[|DropWs(v)|..] == w[|DropWs(v)|..] + [v[|v| - 1]];
    }
  }

  lemma PaddedValue(v: string)
    ensures v == Lead(v) + (Trim(v) + Pad(v)) && (forall c <- Lead(v) :: IsWs(c)) && forall c <- Pad(v) :: IsWs(c)
  {
    SkipsSuffix(v);
    DropsPrefix(SkipWs(v));
    hide SkipWs, DropWs;
  }

  /** What reading a member leaves of its own text: the blanks behind its value. */
  function Unread(j: Json): string { if j.Scalar? then Pad(j.value) else "" }

  lemma UnreadIsWs(j: Json)
    ensures forall c <- Unread(j) :: IsWs(c)
  {
    if j.Scalar? { PaddedValue(j.value); }
  }

  /** Blanks and a line break are skipped together. */
  lemma SkipsUnread(j: Json, n: nat, s: string)
    requires Solid(s)
    ensures SkipWs(Unread(j) + (NewLine(n) + s)) == s
  {
    UnreadIsWs(j);
    SkipsAll(Unread(j), NewLine(n) + s);
    SkipsNewLine(n, s);
    hide Unread, SkipWs, NewLine;
  }

  function TrimmedAll(members: seq<Json>): seq<Json>
  {
    seq(|members|, i requires 0 <= i < |members| => Trimmed(members[i]))
  }

  lemma TrimmedMembers(members: seq<Json>)
    requires members != []
    ensures TrimmedAll(members) == [Trimmed(members[0])] + TrimmedAll(members[1..])
    ensures TrimmedAll(members)[0] == Trimmed(members[0])
  {
    hide Trimmed;
  }

  // ----- trees read back -----

  function Bracket(array_: bool): char { if array_ then '[' else '{' }

  /** A nesting without its title, after the opening bracket. */
  function Inside(array_: bool, members: seq<Json>, n: nat): string
  {
    (if members == [] then NewLine(n) else NewLine(n + 1) + Commas(members, n + 1)) + ([Closer(array_)] + NewLine(n))
  }

  lemma NestShown(j: Json, n: nat)
    requires j.Nest?
    ensures Show(j, n) == Title(j.title) + ([Bracket(j.array_)] + Inside(j.array_, j.members, n))
  {
    var t, b := Title(j.title), [Bracket(j.array_)];
    var i := if j.members == [] then NewLine(n) else NewLine(n + 1) + Commas(j.members, n + 1);
    var c, l := [Closer(j.array_)], NewLine(n);
    assert Show(j, n) == t + b + i + c + l;
    hide Title, NewLine, Commas, Show;
    Assoc(t + b + i, c, l);
    Assoc(t + b, i, c + l);
    Assoc(t, b, i + (c + l));
  }

  lemma ShowStarts(j: Json, n: nat, inArray: bool)
    requires WellPlaced(Trimmed(j), inArray)
    ensures Solid(Show(j, n)) && Show(j, n)[0] == if !inArray then '"' else if j.array_ then '[' else '{'
  {
    if j.Scalar? {
      assert Show(j, n)[0] == '"';
    } else {
      NestShown(j, n);
      hide Show, Inside;
    }
  }

  lemma EmptyNestReads(title: Option<string>, array_: bool, u: string, s: string)
    requires (title.Some? ==> IsName(title.value)) && SkipWs(u) == [Closer(array_)] + s
    ensures ReadNest(title, [Bracket(array_)] + u) == Some(Got(Nest(title, array_, []), s))
  {
    assert ([Bracket(array_)] + u)[1..] == u && ([Closer(array_)] + s)[1..] == s;
    hide SkipWs;
  }

  lemma FullNestReads(title: Option<string>, array_: bool, u: string, members: seq<Json>, s: string)
    requires (title.Some? ==> IsName(title.value)) && SkipWs(u) != "" && SkipWs(u)[0] != Closer(array_)
    requires ReadMembers(SkipWs(u), array_) == Some(GotAll(members, s))
    ensures ReadNest(title, [Bracket(array_)] + u) == Some(Got(Nest(title, array_, members), s))
  {
    assert ([Bracket(array_)] + u)[1..] == u;
    hide SkipWs, ReadMembers;
  }

  lemma {:induction false} NestReadsBack(j: Json, n: nat, s: string)
    requires j.Nest? && WellPlaced(Trimmed(j), j.title.None?)
    ensures ReadNest(j.title, [Bracket(j.array_)] + (Inside(j.array_, j.members, n) + s))
         == Some(Got(Trimmed(j), NewLine(n) + s))
    decreases j, 1
  {
    var array_, members := j.array_, j.members;
    assert Trimmed(j) == Nest(j.title, array_, TrimmedAll(members));
    assert forall m <- TrimmedAll(members) :: WellPlaced(m, array_);
    hide ReadNest, ReadMembers, SkipWs, NewLine, Closer, Trimmed, WellPlaced;
    var after := NewLine(n) + s;
    var end := [Closer(array_)] + after;
    assert Solid(end) by { assert Closer(array_) == '}' || Closer(array_) == ']' by { Closers(array_); } }
    if members == [] {
      InsideMoved(NewLine(n), [Closer(array_)], NewLine(n), s);
      SkipsNewLine(n, end);
      EmptyNestReads(j.title, array_, NewLine(n) + end, after);
      assert TrimmedAll(members) == [];
    } else {
      var shown := Commas(members, n + 1);
      MembersReadBack(members, n + 1, array_, after);
      TrimmedMembers(members);
      MembersStart(members, n + 1, array_);
      hide Commas;
      InsideMoved(NewLine(n + 1) + shown, [Closer(array_)], NewLine(n), s);
      Assoc(NewLine(n + 1), shown, end);
      SkipsNewLine(n + 1, shown + end);
      FullNestReads(j.title, array_, NewLine(n + 1) + (shown + end), TrimmedAll(members), after);
    }
  }

  lemma Closers(array_: bool)
    ensures Closer(array_) == '}' || Closer(array_) == ']'
  {
  }

  lemma InsideMoved(i: string, c: string, l: string, s: string)
    ensures i + (c + l) + s == i + (c + (l + s))
  {
  }

  lemma MembersStart(members: seq<Json>, n: nat, array_: bool)
    requires members != [] && WellPlaced(Trimmed(members[0]), array_)
    ensures Solid(Commas(members, n)) && Commas(members, n)[0] != Closer(array_)
  {
    ShowStarts(members[0], n, array_);
    hide Show, Trimmed, WellPlaced;
  }

  lemma {:induction false} MembersReadBack(members: seq<Json>, n: nat, array_: bool, s: string)
    requires members != [] && forall m <- TrimmedAll(members) :: WellPlaced(m, array_)
    ensures ReadMembers(Commas(members, n) + ([Closer(array_)] + s), array_) == Some(GotAll(TrimmedAll(members), s))
    decreases members, 0
  {
    hide Show, ReadMember, WellPlaced, NewLine, ReadMembers, Trimmed, TrimmedAll, Unread;
    var end := [Closer(array_)] + s;
    var first := Show(members[0], n);
    TrimmedMembers(members);
    if |members| == 1 {
      MemberReadsBack(members[0], n, end, array_);
      LastMember(first + end, array_, members[0], n, s);
      NoMembers(members[1..]);
      assert [Trimmed(members[0])] + [] == [Trimmed(members[0])];
      assert Commas(members, n) == first;
    } else {
      var more := Commas(members[1..], n) + end;
      var next := [','] + more;
      MemberReadsBack(members[0], n, next, array_);
      SkipsUnread(members[0], n, next);
      MembersReadBack(members[1..], n, array_, s);
      Assoc(first, [','] + Commas(members[1..], n), end);
      Assoc([','], Commas(members[1..], n), end);
      assert Commas(members, n) == first + ([','] + Commas(members[1..], n));
      hide Commas, SkipWs;
      assert next[1..] == more;
      MembersStep(first + next, array_);
    }
  }

  lemma NoMembers(members: seq<Json>)
    requires members == []
    ensures TrimmedAll(members) == []
  {
  }

  lemma LastMember(text: string, array_: bool, j: Json, n: nat, s: string)
    requires ReadMember(text, array_) == Some(Got(Trimmed(j), Unread(j) + (NewLine(n) + ([Closer(array_)] + s))))
    ensures ReadMembers(text, array_) == Some(GotAll([Trimmed(j)], s))
  {
    var end := [Closer(array_)] + s;
    assert end[1..] == s;
    SkipsUnread(j, n, end);
    hide ReadMember, SkipWs, NewLine, Trimmed, Unread;
  }

  lemma MembersStep(s: string, array_: bool)
    requires ReadMember(s, array_).Some?
    requires var t := SkipWs(ReadMember(s, array_).value.rest); t != "" && t[0] == ','
    ensures var first := ReadMember(s, array_).value;
            var more := ReadMembers(SkipWs(first.rest)[1..], array_);
            ReadMembers(s, array_) ==
            if more.None? then None else Some(GotAll([first.json] + more.value.members, more.value.rest))
  {
    hide ReadMember, SkipWs;
  }

  /** A name, its colon and what is named. */
  lemma NamedReadsOn(name: string, u: string, v: string)
    requires IsName(name) && SkipWs(u) == v
    ensures ReadMember(['"'] + (name + (['"'] + ([':'] + u))), false) == ReadNamed(name, v)
  {
    var t := [':'] + u;
    var text := ['"'] + (name + (['"'] + t));
    SkipsNewLine(0, text);
    SkipsNewLine(0, t);
    NameReadsBack(name, t);
    assert text[1..] == name + (['"'] + t) && t[1..] == u;
    hide ReadName, SkipWs, ReadNamed;
  }

  lemma UnnamedReadsOn(s: string)
    requires Solid(s)
    ensures ReadMember(s, true) == ReadNest(None, s)
  {
    SkipsNewLine(0, s);
    hide ReadNest, SkipWs;
  }

  lemma ScalarNamed(name: string, v: string, n: nat, s: string)
    requires IsName(name) && IsScalarText(Trim(v))
    ensures SkipWs([' '] + (v + (NewLine(n) + s))) == Trim(v) + (Pad(v) + (NewLine(n) + s))
    ensures ReadNamed(name, Trim(v) + (Pad(v) + (NewLine(n) + s)))
         == Some(Got(Scalar(name, Trim(v)), Pad(v) + (NewLine(n) + s)))
  {
    hide ReadScalar, SkipWs, IsScalarText, IsNumber, IsStringText, DropWs, Lead, Pad, Trim;
    PaddedValue(v);
    var t := NewLine(n) + s;
    var rest := Pad(v) + t;
    assert t[0] == '\n' && (Pad(v) != "" ==> Pad(v)[0] in Pad(v));
    ScalarReadsBack(Trim(v), rest);
    ValueMoved(Lead(v), Trim(v), Pad(v), t);
    SkipsAll(Lead(v), Trim(v) + rest);
    SkipsNewLine(n, Trim(v) + rest);
    SkipsBlank(v + t);
  }

  lemma SkipsBlank(s: string)
    ensures SkipWs([' '] + s) == SkipWs(s)
  {
    SkipsAll([' '], s);
  }

  lemma ValueMoved(lead: string, v: string, pad: string, t: string)
    ensures lead + (v + pad) + t == lead + (v + (pad + t))
  {
  }

  lemma ScalarMember(j: Json, n: nat, s: string)
    requires j.Scalar? && WellPlaced(Trimmed(j), false)
    ensures ReadMember(Show(j, n) + s, false) == Some(Got(Trimmed(j), Unread(j) + (NewLine(n) + s)))
  {
    var u := [' '] + (j.value + (NewLine(n) + s));
    ScalarMoved(j.name, j.value, NewLine(n), s);
    ScalarNamed(j.name, j.value, n, s);
    assert Show(j, n) == Quoted(j.name) + [':', ' '] + j.value + NewLine(n);
    hide Show, ReadMember, ReadNamed, NewLine, Quoted, SkipWs, Trim, Pad, IsScalarText, IsName;
    NamedReadsOn(j.name, u, Trim(j.value) + (Pad(j.value) + (NewLine(n) + s)));
  }

  lemma {:induction false} MemberReadsBack(j: Json, n: nat, s: string, inArray: bool)
    requires WellPlaced(Trimmed(j), inArray)
    ensures ReadMember(Show(j, n) + s, inArray) == Some(Got(Trimmed(j), Unread(j) + (NewLine(n) + s)))
    decreases j, 2
  {
    if j.Scalar? {
      ScalarMember(j, n, s);
    } else {
      NestReadsBack(j, n, s);
      NestMember(j, n, s, inArray);
    }
  }

  /** A nesting as a member, given that it reads back from its bracket on. */
  lemma NestMember(j: Json, n: nat, s: string, inArray: bool)
    requires j.Nest? && WellPlaced(Trimmed(j), inArray)
    requires ReadNest(j.title, [Bracket(j.array_)] + (Inside(j.array_, j.members, n) + s))
          == Some(Got(Trimmed(j), NewLine(n) + s))
    ensures ReadMember(Show(j, n) + s, inArray) == Some(Got(Trimmed(j), Unread(j) + (NewLine(n) + s)))
  {
    hide Show, Inside, ReadMember, NewLine, SkipWs, ReadNest, IsName, ReadName, ReadScalar;
    var inside := Inside(j.array_, j.members, n);
    var body := [Bracket(j.array_)] + (inside + s);
    NestShown(j, n);
    NestStarts(j, n, body, inside + s);
    assert Unread(j) + (NewLine(n) + s) == NewLine(n) + s;
    if j.title.None? {
      UnnamedReadsOn(body);
      assert "" + ([Bracket(j.array_)] + inside) + s == body;
    } else {
      TitleMoved(j.title.value, [Bracket(j.array_)], inside, s);
      NamedReadsOn(j.title.value, body, body);
    }
  }

  lemma NestStarts(j: Json, n: nat, body: string, rest: string)
    requires j.Nest? && body == [Bracket(j.array_)] + rest
    ensures Solid(body) && SkipWs(body) == body && (body[0] == '{' || body[0] == '[')
  {
    SkipsNewLine(n, body);
  }

  lemma ScalarMoved(name: string, value: string, l: string, s: string)
    ensures Quoted(name) + [':', ' '] + value + l + s ==
            ['"'] + (name + (['"'] + ([':'] + ([' '] + (value + (l + s))))))
  {
  }

  lemma TitleMoved(name: string, b: string, i: string, s: string)
    ensures Quoted(name) + [':'] + (b + i) + s == ['"'] + (name + (['"'] + ([':'] + (b + (i + s)))))
  {
  }

  /** The finished file reads back as its tree exactly when objects' members are named and arrays' are not, names need
      no escapes, and each value is a string, a number or a literal name, blanks around it aside. */
  lemma DocumentReadsBack(members: seq<Json>)
    ensures var document := Nest(None, false, members);
            ReadNest(None, Show(document, 0)) == Some(Got(Trimmed(document), NewLine(0)))
            <==> WellPlaced(Trimmed(document), true)
  {
    var document := Nest(None, false, members);
    if WellPlaced(Trimmed(document), true) {
      NestReadsBack(document, 0, "");
      NestShown(document, 0);
      hide Show, Inside, NewLine, ReadNest, Trimmed, WellPlaced;
      var body := Inside(false, members, 0);
      assert body + "" == body && NewLine(0) + "" == NewLine(0) && Title(None) + (['{'] + body) == ['{'] + body;
    }
  }

  // ----- the program's formats -----

  lemma AfterDigitsOf(d: string, rest: string)
    requires AllDigits(d) && d != "" && (rest == "" || !IsDigit(rest[0]))
    ensures AfterDigits(d + rest) == Some(rest)
  {
    DigitRunOf(d, rest);
  }

  lemma {:induction false} NoLeadingZero(n: nat)
    ensures Dec(n)[0] == '0' ==> |Dec(n)| == 1
    ensures n > 0 ==> Dec(n)[0] != '0'
  {
    if n >= 10 { NoLeadingZero(n / 10); }
  }

  function Signed(negative: bool, digits: string): string { if negative then "-" + digits else digits }

  lemma AfterSign(negative: bool, t: string)
    requires t != "" && t[0] != '-'
    ensures AfterOne(Signed(negative, t), {'-'}) == t
  {
  }

  lemma IntFound(s: string, t: string, rest: string)
    requires AfterOne(s, {'-'}) == t && AfterDigits(t) == Some(rest)
    requires t[0] == '0' ==> |t| - |rest| == 1
    ensures AfterInt(s) == Some(rest)
  {
    hide AfterOne, AfterDigits, Scanned;
  }

  lemma IntOf(negative: bool, n: nat, rest: string)
    requires rest == "" || !IsDigit(rest[0])
    ensures AfterInt(Signed(negative, Dec(n) + rest)) == Some(rest)
  {
    hide AfterInt, AfterDigits, Dec, Signed;
    var t := Dec(n) + rest;
    assert t[0] == Dec(n)[0] && IsDigit(Dec(n)[0]);
    NoLeadingZero(n);
    AfterDigitsOf(Dec(n), rest);
    AfterSign(negative, t);
    IntFound(Signed(negative, t), t, rest);
  }

  lemma NothingMore()
    ensures AfterFrac("") == Some("") && AfterExp("") == Some("")
  {
  }

  /** What "%u" and "%d" print is a number. */
  lemma IntegerIsNumber(negative: bool, n: nat)
    ensures IsNumber(Signed(negative, Dec(n)))
  {
    hide AfterInt, AfterFrac, AfterExp, Dec, Signed;
    IntOf(negative, n, "");
    NothingMore();
    assert Dec(n) + "" == Dec(n);
  }

  /** What "%.2f" and the like print of a finite number is one too. */
  lemma FixedIsNumber(negative: bool, n: nat, decimals: string)
    requires AllDigits(decimals) && decimals != ""
    ensures IsNumber(Signed(negative, Dec(n) + ("." + decimals)))
  {
    var tail := "." + decimals;
    hide AfterInt, AfterFrac, AfterExp, Dec, Signed;
    IntOf(negative, n, tail);
    DecimalsRead(decimals);
    NothingMore();
  }

  lemma DecimalsRead(decimals: string)
    requires AllDigits(decimals) && decimals != ""
    ensures AfterFrac("." + decimals) == Some("")
  {
    assert ("." + decimals)[1..] == decimals + "";
    AfterDigitsOf(decimals, "");
    hide AfterDigits, Scanned;
  }

  predicate NotANumber(value: string) { value == "nan" || value == "-nan" || value == "inf" || value == "-inf" }

  /** A value somewhere in the tree is one of these. */
  predicate HoldsNotANumber(j: Json)
    decreases j
  {
    match j
    case Scalar(_, value) => NotANumber(value)
    case Nest(_, _, members) => exists m <- members :: HoldsNotANumber(m)
  }

  lemma {:induction false} NotANumberMisplaced(j: Json, inArray: bool)
    requires HoldsNotANumber(j)
    ensures !WellPlaced(Trimmed(j), inArray)
    decreases j
  {
    hide IsScalarText, NotANumber, Trim, IsName;
    match j
    case Scalar(_, value) => NoScalarText(value);
    case Nest(_, array_, members) =>
      var i :| 0 <= i < |members| && HoldsNotANumber(members[i]);
      NotANumberMisplaced(members[i], array_);
      var trimmed := Trimmed(j).members;
      assert trimmed[i] == Trimmed(members[i]) && trimmed[i] in trimmed;
  }

  /** But what it prints of a rate over no time at all is no JSON value: a document with such a value anywhere does not
      read back. */
  lemma NotANumberFails(members: seq<Json>)
    requires HoldsNotANumber(Nest(None, false, members))
    ensures var document := Nest(None, false, members);
            ReadNest(None, Show(document, 0)) != Some(Got(Trimmed(document), NewLine(0)))
  {
    hide HoldsNotANumber, WellPlaced, Trimmed, Show, ReadNest;
    NotANumberMisplaced(Nest(None, false, members), true);
    DocumentReadsBack(members);
  }

  lemma NoScalarText(value: string)
    requires NotANumber(value)
    ensures !IsScalarText(value) && Trim(value) == value
  {
    NoInt(value);
    hide AfterInt, AfterFrac, AfterExp, IsStringText;
    SolidBothEnds(value);
  }

  lemma SolidBothEnds(v: string)
    requires v != "" && !IsWs(v[0]) && !IsWs(v[|v| - 1])
    ensures Trim(v) == v
  {
  }

  lemma NoInt(value: string)
    requires NotANumber(value)
    ensures AfterInt(value).None?
  {
    hide Scanned;
    var t := AfterOne(value, {'-'});
    assert t[0] == 'n' || t[0] == 'i';
    assert DigitRun(t) == 0;
  }
}
