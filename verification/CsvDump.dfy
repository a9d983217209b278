/** The CSV dump of memcached items: what the writer puts into the file and what the reader makes of a file. A file is
    the text not read yet, or written so far. */
module CsvDump {
  import opened Bytes
  import opened CText

  /** An item; its data ends with the CRLF of the protocol and is at least as long as that. */
  datatype Item = Item(dumpflags: UInt, time: UInt, exptime: UInt, nsuffix: UInt, flags: U16, clsid: UInt,
                       key: string, data: string)

  const QUOTE: char := '"'

  // ----- strings -----

  /** Every quote twice. */
  function Doubled(s: string): string
  {
    if s == "" then "" else (if s[0] == QUOTE then [QUOTE, QUOTE] else [s[0]]) + Doubled(s[1..])
  }

  /** Where the character loop of `read_string` stops: the text copied, what is not read yet, how much is missing, and
      whether the second of a pair of quotes is due. `Cut` is the end of the file. */
  datatype Body = Body(text: string, rest: string, left: nat, skipQuote: bool) | Cut

  function Copied(c: char, body: Body): Body
  {
    if body.Cut? then Cut else body.(text := [c] + body.text)
  }

  function ReadBody(b: string, len: nat, skipQuote: bool, dequote: bool): (body: Body)
    ensures body.Body? ==> |body.rest| <= |b|
    decreases |b|
  {
    if len == 0 then Body("", b, 0, skipQuote)
    else if b == "" then Cut
    else
      var c, rest := b[0], b[1..];
      if skipQuote && c != QUOTE then Body("", rest, len, skipQuote)
      else if c == QUOTE && skipQuote then ReadBody(rest, len, false, dequote)
      else if c == QUOTE && !dequote then Body("", rest, len, skipQuote)
      else if (c == ',' || c == '\r' || c == '\n') && !dequote then Body("", b, len, skipQuote)
      else Copied(c, ReadBody(rest, len - 1, c == QUOTE, dequote))
  }

  datatype Text = Text(text: string, rest: string)

  /** The closing quote, with the second of a pair before it if that is due, is read only behind a complete text. */
  function Closed(body: Body, dequote: bool): Option<Text>
  {
    match body
    case Cut => None
    case Body(text, rest, left, skipQuote) =>
      Some(Text(text, if left == 0 && dequote then Drained(Drained(rest, if skipQuote then 1 else 0), 1) else rest))
  }

  /** `read_string`: the text, which may be shorter than asked for, and what is not read yet. */
  function TextOf(b: string, len: nat): (r: Option<Text>)
    ensures r.Some? ==> |r.value.rest| <= |b|
  {
    var dequote := len > 0 && b != "" && b[0] == QUOTE;
    Closed(ReadBody(if dequote then b[1..] else b, len, false, dequote), dequote)
  }

  function InQuotes(s: string): string { [QUOTE] + Doubled(s) + [QUOTE] }

  lemma Opened(s: string, rest: string, len: nat)
    requires len > 0
    ensures TextOf(InQuotes(s) + rest, len) == Closed(ReadBody(Doubled(s) + ([QUOTE] + rest), len, false, true), true)
  {
    assert (InQuotes(s) + rest)[1..] == Doubled(s) + ([QUOTE] + rest);
  }

  /** A text of which `read_string` still wants more passes through, pairs of quotes as one. */
  lemma {:induction false} BodyPasses(s: string, tail: string, more: nat)
    requires more > 0 || s == "" || s[|s| - 1] != QUOTE
    ensures ReadBody(Doubled(s) + tail, |s| + more, false, true) == Prefixed(s, ReadBody(tail, more, false, true))
  {
    hide ReadBody;
    if s == "" {
      assert Doubled(s) + tail == tail;
      NothingPrefixed(ReadBody(tail, more, false, true));
    } else {
      BodyPasses(s[1..], tail, more);
      var rest := Doubled(s[1..]) + tail;
      PrefixedCopied(s, ReadBody(tail, more, false, true));
      hide Prefixed, Copied;
      DoubledFront(s, tail);
      hide Doubled;
      if s[0] == QUOTE { OnePair(rest, |s| - 1 + more); } else { OneChar(s[0], rest, |s| - 1 + more); }
    }
  }

  lemma DoubledFront(s: string, tail: string)
    requires s != ""
    ensures var rest := Doubled(s[1..]) + tail;
            Doubled(s) + tail == if s[0] == QUOTE then [QUOTE] + ([QUOTE] + rest) else [s[0]] + rest
  {
    var y := Doubled(s[1..]);
    if s[0] == QUOTE {
      assert Doubled(s) == [QUOTE, QUOTE] + y;
      hide Doubled;
      PairInFront(y, tail);
    } else {
      assert Doubled(s) == [s[0]] + y;
      hide Doubled;
      Assoc([s[0]], y, tail);
    }
  }

  lemma PairInFront(y: string, tail: string)
    ensures [QUOTE, QUOTE] + y + tail == [QUOTE] + ([QUOTE] + (y + tail))
  {
  }

  function Prefixed(s: string, body: Body): Body
  {
    if body.Cut? then Cut else body.(text := s + body.text)
  }

  lemma NothingPrefixed(body: Body)
    ensures Prefixed("", body) == body
  {
    assert !body.Cut? ==> "" + body.text == body.text;
  }

  lemma PrefixedCopied(s: string, body: Body)
    requires s != ""
    ensures Copied(s[0], Prefixed(s[1..], body)) == Prefixed(s, body)
  {
    assert !body.Cut? ==> [s[0]] + (s[1..] + body.text) == s + body.text;
  }

  lemma OneChar(c: char, rest: string, len: nat)
    requires c != QUOTE
    ensures ReadBody([c] + rest, len + 1, false, true) == Copied(c, ReadBody(rest, len, false, true))
  {
    assert ([c] + rest)[1..] == rest;
  }

  lemma OnePair(rest: string, len: nat)
    requires len > 0
    ensures ReadBody([QUOTE] + ([QUOTE] + rest), len + 1, false, true) ==
            Copied(QUOTE, ReadBody(rest, len, false, true))
  {
    var b := [QUOTE] + ([QUOTE] + rest);
    assert b[1..] == [QUOTE] + rest && ([QUOTE] + rest)[1..] == rest;
  }

  /** The core of the round trip: a quoted text of the length asked for is read exactly, whatever it holds. */
  lemma QuotedReadsBack(s: string, rest: string)
    requires s != ""
    ensures TextOf(InQuotes(s) + rest, |s|) == Some(Text(s, rest))
  {
    hide InQuotes, TextOf, ReadBody, Doubled;
    var tail := [QUOTE] + rest;
    assert tail[1..] == rest;
    Opened(s, rest, |s|);
    NoMore(tail);
    var n := |s| - 1;
    if s[n] != QUOTE {
      BodyPasses(s, tail, 0);
      assert s + "" == s;
    } else {
      EndsInQuote(s, tail);
      assert ([QUOTE] + tail)[1..] == tail;
    }
  }

  lemma NoMore(tail: string)
    ensures ReadBody(tail, 0, false, true) == Body("", tail, 0, false)
  {
  }

  lemma EndsInQuote(s: string, tail: string)
    requires s != "" && s[|s| - 1] == QUOTE
    ensures ReadBody(Doubled(s) + tail, |s|, false, true) == Body(s, [QUOTE] + tail, 0, true)
  {
    var t := s[..|s| - 1];
    assert s == t + [QUOTE];
    DoubledAppend(t, QUOTE);
    hide Doubled, ReadBody;
    PairMoved(Doubled(t), tail);
    LastQuote(tail);
    BodyPasses(t, [QUOTE] + ([QUOTE] + tail), 1);
  }

  lemma PairMoved(x: string, tail: string)
    ensures x + [QUOTE, QUOTE] + tail == x + ([QUOTE] + ([QUOTE] + tail))
  {
  }

  lemma LastQuote(tail: string)
    ensures ReadBody([QUOTE] + ([QUOTE] + tail), 1, false, true) == Body([QUOTE], [QUOTE] + tail, 0, true)
  {
    var b := [QUOTE] + ([QUOTE] + tail);
    assert b[1..] == [QUOTE] + tail;
    assert [QUOTE] + "" == [QUOTE];
  }

  lemma {:induction false} DoubledAppend(s: string, c: char)
    ensures Doubled(s + [c]) == Doubled(s) + if c == '"' then "\"\"" else [c]
  {
    if s == "" {
      assert s + [c] == [c] && [c][1..] == "" && Doubled([c]) == (if c == QUOTE then [QUOTE, QUOTE] else [c]) + "";
    } else {
      assert (s + [c])[1..] == s[1..] + [c];
      DoubledAppend(s[1..], c);
    }
  }

  /** Asked for more than the quoted text holds, `read_string` runs over the closing quote; in front of a comma it stops
      with the comma, or the blank after it, gone. */
  lemma OverlongMissesComma(s: string, more: nat, rest: string)
    requires more > 0
    ensures var r := TextOf(InQuotes(s) + ([','] + ([' '] + rest)), |s| + more);
            r == Some(Text(s + "\"", if more == 1 then rest else [' '] + rest))
  {
    var tail := [QUOTE] + ([','] + ([' '] + rest));
    Opened(s, [','] + ([' '] + rest), |s| + more);
    hide InQuotes, TextOf;
    BodyPasses(s, tail, more);
    RunOver(rest, more);
    assert ([','] + ([' '] + rest))[1..] == [' '] + rest && ([' '] + rest)[1..] == rest;
  }

  lemma OverlongStops(s: string, more: nat, rest: string)
    requires more > 0
    ensures var r := TextOf(InQuotes(s) + ([','] + ([' '] + rest)), |s| + more);
            r.Some? && r.value.rest == if more == 1 then rest else [' '] + rest
  {
    hide InQuotes, TextOf;
    OverlongMissesComma(s, more, rest);
  }

  lemma RunOver(rest: string, more: nat)
    requires more > 0
    ensures ReadBody([QUOTE] + ([','] + ([' '] + rest)), more, false, true) ==
            if more == 1 then Body([QUOTE], [','] + ([' '] + rest), 0, true)
            else Body([QUOTE], [' '] + rest, more - 1, true)
  {
    var b := [QUOTE] + ([','] + ([' '] + rest));
    assert b[1..] == [','] + ([' '] + rest) && b[1..][1..] == [' '] + rest;
    assert [QUOTE] + "" == [QUOTE];
  }

  // ----- numbers -----

  /** The numbers of a row, each behind it a comma and a blank. */
  function Numbers(row: seq<UInt>): string
  {
    if row == [] then "" else Dec(row[0]) + ([','] + ([' '] + Numbers(row[1..])))
  }

  datatype Scanned = Scanned(row: seq<UInt>, rest: string)

  /** `fscanf` with `n` times "%u, ": it stops at the first number or comma that is missing. */
  function ScanRow(b: string, n: nat): (s: Scanned)
    ensures |s.rest| <= |b| && |s.row| <= n && (n > 0 && |s.row| == n ==> |s.rest| < |b|)
    decreases n
  {
    if n == 0 then Scanned([], b)
    else
      var r := ScanNumber(b);
      if r.end == 0 then
        var i := SpaceRun(b);
        Scanned([], if i < |b| && (b[i] == '-' || b[i] == '+') then b[i + 1..] else b[i..])
      else
        var after := b[r.end..];
        if after == "" || after[0] != ',' then Scanned([StrtoulAsUint(b)], after)
        else
          var more := ScanRow(after[1 + SpaceRun(after[1..])..], n - 1);
          Scanned([StrtoulAsUint(b)] + more.row, more.rest)
  }

  lemma BlankInFront(rest: string)
    requires rest == "" || !IsSpace(rest[0])
    ensures var after := [','] + ([' '] + rest); after[1 + SpaceRun(after[1..])..] == rest
  {
    var after := [','] + ([' '] + rest);
    assert after[1..] == [' '] + rest && ([' '] + rest)[1..] == rest;
    assert SpaceRun(rest) == 0;
    assert after[2..] == rest;
  }

  lemma NumbersStart(row: seq<UInt>, rest: string)
    requires rest != "" && !IsSpace(rest[0])
    ensures !IsSpace((Numbers(row) + rest)[0])
  {
    if row != [] {
      assert (Numbers(row) + rest)[0] == Dec(row[0])[0];
    }
  }

  lemma ScanStep(v: UInt, tail: string, n: nat)
    requires tail == "" || !IsSpace(tail[0])
    ensures var more := ScanRow(tail, n);
            ScanRow(Dec(v) + ([','] + ([' '] + tail)), n + 1) == Scanned([v] + more.row, more.rest)
  {
    hide StrtoulAsUint, Dec, ScanNumber, ScanRow;
    var after := [','] + ([' '] + tail);
    BlankInFront(tail);
    hide SpaceRun, IsSpace;
    NumberInFront(v, after);
    var b := Dec(v) + after;
    assert b[ScanNumber(b).end..] == after && after[0] == ',';
    ScanUnfolds(b, n);
  }

  lemma ScanUnfolds(b: string, n: nat)
    requires var e := ScanNumber(b).end; e > 0 && b[e..] != "" && b[e..][0] == ','
    ensures var after := b[ScanNumber(b).end..];
            var more := ScanRow(after[1 + SpaceRun(after[1..])..], n);
            ScanRow(b, n + 1) == Scanned([StrtoulAsUint(b)] + more.row, more.rest)
  {
    hide StrtoulAsUint, ScanNumber, SpaceRun;
  }

  lemma NumberShown(number: UInt, more: seq<UInt>, tail: string)
    ensures Numbers([number] + more) + tail == Dec(number) + (", " + (Numbers(more) + tail))
  {
    hide Dec;
    assert ([number] + more)[1..] == more;
    var shown := Numbers(more) + tail;
    hide Numbers;
    NumberMoved(Dec(number), Numbers(more), tail);
    CommaBlank(shown);
  }

  lemma CommaBlank(shown: string)
    ensures [','] + ([' '] + shown) == ", " + shown
  {
  }

  lemma {:induction false} NumbersScanBack(row: seq<UInt>, rest: string)
    requires rest != "" && !IsSpace(rest[0])
    ensures ScanRow(Numbers(row) + rest, |row|) == Scanned(row, rest)
    decreases |row|
  {
    hide Dec, ScanRow;
    if row == [] {
      assert Numbers(row) + rest == rest;
      ScanNothing(rest);
    } else {
      var tail := Numbers(row[1..]) + rest;
      NumberMoved(Dec(row[0]), Numbers(row[1..]), rest);
      NumbersStart(row[1..], rest);
      ScanStep(row[0], tail, |row| - 1);
      NumbersScanBack(row[1..], rest);
      assert [row[0]] + row[1..] == row;
    }
  }

  lemma ScanNothing(b: string)
    ensures ScanRow(b, 0) == Scanned([], b)
  {
  }

  lemma NumberMoved(x: string, y: string, rest: string)
    ensures x + ([','] + ([' '] + y)) + rest == x + ([','] + ([' '] + (y + rest)))
  {
  }

  // ----- items -----

  /** What the lengths of an item have to fit: the row's columns, and an `int` after doubling. */
  predicate Sized(item: Item) { |item.key| < 0x4000_0000 && 2 <= |item.data| < 0x4000_0000 }

  function Row(item: Item): seq<UInt>
    requires Sized(item)
  {
    [item.dumpflags, item.time, item.exptime, |item.data|, item.nsuffix, item.flags, item.clsid, |item.key|]
  }

  function Payload(item: Item): string
    requires Sized(item)
  {
    item.data[..|item.data| - 2]
  }

  /** The key is printed as a C string, so up to a NUL. */
  function KeyColumn(key: string): string { [QUOTE] + CString(Doubled(key)) + [QUOTE] }

  datatype Written = Written(text: string, ok: bool)

  /** `write_item`; writing no bytes of data is taken for a failure, with the row half written. */
  function WrittenItem(item: Item): Written
    requires Sized(item)
  {
    var front := Numbers(Row(item)) + (KeyColumn(item.key) + [',', ' ']);
    if Payload(item) == "" then Written(front + [QUOTE], false)
    else Written(front + (InQuotes(Payload(item)) + ['\n']), true)
  }

  /** `Nothing` is a NULL result, `eof` when the file ended before the row; `Undefined` a use of memory that was not
      allocated or not written. */
  datatype Outcome = Read(item: Item, rest: string) | Nothing(rest: string, eof: bool) | Undefined

  function LineEnded(b: string): (rest: string)
    ensures |rest| <= |b|
  {
    if b != "" && b[0] == '\r' then Drained(b, 2) else Drained(b, 1)
  }

  /** `read_item`. */
  function OutcomeOf(b: string): (o: Outcome)
    ensures o.Read? ==> |o.rest| < |b|
  {
    var s := ScanRow(b, 8);
    if |s.row| < 8 then Nothing(s.rest, s.rest == "") else ReadColumns(s.row, s.rest)
  }

  function ReadColumns(row: seq<UInt>, b: string): (o: Outcome)
    requires |row| == 8
    ensures o.Read? ==> |o.rest| <= |b|
  {
    var nbytes, nkey := row[3], row[7];
    var k := TextOf(b, nkey);
    if k.None? then Undefined
    else if k.value.rest == "" || k.value.rest[0] != ',' then Nothing(Drained(k.value.rest, 1), false)
    else if nbytes < 2 then Undefined
    else
      var d := TextOf(Drained(k.value.rest, 2), nbytes - 2);
      if d.None? then Nothing("", true)
      else if |d.value.text| != nbytes - 2 then Nothing(d.value.rest, false)
      else if |k.value.text| != nkey then Undefined
      else Read(Item(row[0], row[1], row[2], row[4], row[5] % 0x1_0000, row[6], k.value.text, d.value.text + "\r\n"),
                LineEnded(d.value.rest))
  }

  // ----- one item -----

  /** What survives the file. */
  predicate Storable(item: Item)
  {
    && Sized(item) && item.key != "" && '\0' !in item.key
    && |item.data| > 2 && item.data[|item.data| - 2..] == "\r\n"
  }

  lemma CStringFront(c: char, y: string)
    ensures CString([c] + y) == if c == '\0' then "" else [c] + CString(y)
  {
    assert ([c] + y)[1..] == y;
  }

  lemma DoubledOne(c: char, y: string)
    ensures Doubled([c] + y) == if c == QUOTE then [QUOTE] + ([QUOTE] + Doubled(y)) else [c] + Doubled(y)
  {
    assert ([c] + y)[1..] == y;
    assert [QUOTE, QUOTE] + Doubled(y) == [QUOTE] + ([QUOTE] + Doubled(y));
  }

  lemma {:induction false} CStringOfDoubled(s: string)
    ensures CString(Doubled(s)) == Doubled(CString(s))
  {
    if s != "" {
      var c, t := s[0], s[1..];
      CStringOfDoubled(t);
      assert s == [c] + t;
      hide CString, Doubled;
      DoubledOne(c, t);
      CStringFront(c, t);
      CStringFront(QUOTE, [QUOTE] + Doubled(t));
      CStringFront(c, Doubled(t));
      CStringFront(QUOTE, Doubled(t));
      DoubledOne(c, CString(t));
      DoubledNothing();
    }
  }

  lemma DoubledNothing()
    ensures Doubled("") == ""
  {
  }

  lemma KeyColumnIs(key: string)
    ensures KeyColumn(key) == InQuotes(CString(key))
  {
    CStringOfDoubled(key);
  }

  /** The text of a row: eight numbers in this order, then the key and the data without its CRLF in double quotes. */
  lemma RowText(item: Item, key: string, data: string)
    requires Storable(item)
    requires key == "\"" + Doubled(item.key) + "\"" && data == "\"" + Doubled(item.data[..|item.data| - 2]) + "\""
    ensures var columns := key + (", " + (data + "\n"));
            var sizes := Dec(item.clsid) + (", " + (Dec(|item.key|) + (", " + columns)));
            var flags := Dec(|item.data|) + (", " + (Dec(item.nsuffix) + (", " + (Dec(item.flags) + (", " + sizes)))));
            WrittenItem(item).text ==
            Dec(item.dumpflags) + (", " + (Dec(item.time) + (", " + (Dec(item.exptime) + (", " + flags)))))
  {
    hide Dec, Doubled, Numbers, CString;
    KeyColumnIs(item.key);
    var columns := key + (", " + (data + "\n"));
    ColumnsShown(item, key, data);
    var row := Row(item);
    NumbersShown(row[0], row[1], row[2], row[3], row[4], row[5], row[6], row[7], columns);
  }

  lemma NumbersShown(a: UInt, b: UInt, c: UInt, d: UInt, e: UInt, f: UInt, g: UInt, h: UInt, columns: string)
    ensures var sizes := Dec(g) + (", " + (Dec(h) + (", " + columns)));
            var flags := Dec(d) + (", " + (Dec(e) + (", " + (Dec(f) + (", " + sizes)))));
            Numbers([a, b, c, d, e, f, g, h]) + columns ==
            Dec(a) + (", " + (Dec(b) + (", " + (Dec(c) + (", " + flags)))))
  {
    hide Dec, Numbers;
    assert [a, b, c, d, e, f, g, h] == [a] + ([b] + ([c] + ([d] + ([e] + ([f] + ([g] + ([h] + [])))))));
    NumberShown(h, [], columns);
    NumberShown(g, [h] + [], columns);
    NumberShown(f, [g] + ([h] + []), columns);
    NumberShown(e, [f] + ([g] + ([h] + [])), columns);
    NumberShown(d, [e] + ([f] + ([g] + ([h] + []))), columns);
    NumberShown(c, [d] + ([e] + ([f] + ([g] + ([h] + [])))), columns);
    NumberShown(b, [c] + ([d] + ([e] + ([f] + ([g] + ([h] + []))))), columns);
    NumberShown(a, [b] + ([c] + ([d] + ([e] + ([f] + ([g] + ([h] + [])))))), columns);
    NoNumbersShown(columns);
  }

  lemma NoNumbersShown(columns: string)
    ensures Numbers([]) + columns == columns
  {
  }

  lemma ColumnsShown(item: Item, key: string, data: string)
    requires Storable(item) && KeyColumn(item.key) == key && InQuotes(Payload(item)) == data
    ensures WrittenItem(item) == Written(Numbers(Row(item)) + (key + (", " + (data + "\n"))), true)
  {
    hide Numbers, Row, KeyColumn, InQuotes;
    var numbers := Numbers(Row(item));
    assert Payload(item) != "";
    RowPieces(numbers, key, data);
  }

  lemma RowPieces(numbers: string, key: string, data: string)
    ensures numbers + (key + [',', ' ']) + (data + ['\n']) == numbers + (key + (", " + (data + "\n")))
  {
  }

  /** The file after the row's numbers. */
  function Columns(item: Item, rest: string): string
    requires Sized(item)
  {
    InQuotes(CString(item.key)) + ([','] + ([' '] + (InQuotes(Payload(item)) + (['\n'] + rest))))
  }

  lemma TextInColumns(n: string, k: string, p: string, rest: string)
    ensures n + (k + [',', ' ']) + (p + ['\n']) + rest == n + (k + ([','] + ([' '] + (p + (['\n'] + rest)))))
  {
  }

  lemma RowScansBack(item: Item, rest: string)
    requires Sized(item) && Payload(item) != ""
    ensures var s := ScanRow(WrittenItem(item).text + rest, 8); s.row == Row(item) && s.rest == Columns(item, rest)
  {
    KeyColumnIs(item.key);
    TextInColumns(Numbers(Row(item)), KeyColumn(item.key), InQuotes(Payload(item)), rest);
    assert Columns(item, rest)[0] == QUOTE;
    NumbersScanBack(Row(item), Columns(item, rest));
    hide Numbers, Columns, KeyColumn, InQuotes, ScanRow;
  }

  lemma GoodColumns(item: Item, rest: string)
    requires Sized(item) && Payload(item) != "" && item.key != "" && '\0' !in item.key
    ensures var o := ReadColumns(Row(item), Columns(item, rest));
            o == Read(item.(data := Payload(item) + "\r\n"), rest)
  {
    hide InQuotes, TextOf, Doubled;
    var p := InQuotes(Payload(item)) + (['\n'] + rest);
    var c := [','] + ([' '] + p);
    QuotedReadsBack(item.key, c);
    QuotedReadsBack(Payload(item), ['\n'] + rest);
    assert c[0] == ',' && c[2..] == p;
    assert (['\n'] + rest)[1..] == rest;
  }

  lemma NoCommaNoItem(row: seq<UInt>, b: string, text: Text)
    requires |row| == 8 && TextOf(b, row[7]) == Some(text) && (text.rest == "" || text.rest[0] != ',')
    ensures ReadColumns(row, b).Nothing?
  {
    hide TextOf;
  }

  lemma StartsQuoted(s: string, behind: string)
    ensures InQuotes(s) + behind != "" && (InQuotes(s) + behind)[0] == '"'
  {
    hide Doubled;
  }

  lemma BadKeyColumns(item: Item, rest: string)
    requires Sized(item) && (item.key == "" || '\0' in item.key)
    ensures ReadColumns(Row(item), Columns(item, rest)).Nothing?
  {
    hide ReadColumns, TextOf, CString, InQuotes, Payload, Sized;
    var s, p := CString(item.key), InQuotes(Payload(item)) + (['\n'] + rest);
    StartsQuoted(Payload(item), ['\n'] + rest);
    if item.key == "" {
      StartsQuoted(s, [','] + ([' '] + p));
      NothingRead(Columns(item, rest));
      NoCommaNoItem(Row(item), Columns(item, rest), Text("", Columns(item, rest)));
    } else {
      CStringShorter(item.key);
      OverlongStops(s, |item.key| - |s|, p);
      NoCommaNoItem(Row(item), Columns(item, rest), TextOf(Columns(item, rest), |item.key|).value);
    }
  }

  lemma {:induction false} CStringShorter(s: string)
    ensures '\0' in s ==> |CString(s)| < |s|
  {
    if s != "" { CStringShorter(s[1..]); }
  }

  lemma NothingRead(b: string)
    ensures TextOf(b, 0) == Some(Text("", b))
  {
  }

  lemma RowIsRead(b: string, row: seq<UInt>, rest: string)
    requires |row| == 8 && ScanRow(b, 8) == Scanned(row, rest)
    ensures OutcomeOf(b) == ReadColumns(row, rest)
  {
    hide ReadColumns, ScanRow;
  }

  lemma WrittenWhole(item: Item)
    requires Sized(item)
    ensures WrittenItem(item).ok <==> Payload(item) != ""
  {
  }

  /** What the reader makes of a written row. */
  lemma WrittenItemIsRead(item: Item, rest: string)
    requires Sized(item) && Payload(item) != ""
    ensures var o := OutcomeOf(WrittenItem(item).text + rest);
            if item.key == "" || '\0' in item.key then o.Nothing?
            else o == Read(item.(data := Payload(item) + "\r\n"), rest)
  {
    hide WrittenItem, ScanRow, Columns, ReadColumns, OutcomeOf, Payload;
    RowScansBack(item, rest);
    RowIsRead(WrittenItem(item).text + rest, Row(item), Columns(item, rest));
    if item.key == "" || '\0' in item.key { BadKeyColumns(item, rest); } else { GoodColumns(item, rest); }
  }

  /** An item is written and read back, with nothing else touched, exactly when its key is not empty and has no NUL, its
      payload is not empty and its data ends with CRLF. */
  lemma ItemReadsBack(item: Item, rest: string)
    requires Sized(item)
    ensures WrittenItem(item).ok && OutcomeOf(WrittenItem(item).text + rest) == Read(item, rest) <==> Storable(item)
  {
    hide WrittenItem, OutcomeOf;
    WrittenWhole(item);
    DataRestored(item);
    hide Payload;
    if Payload(item) != "" { WrittenItemIsRead(item, rest); }
  }

  lemma DataRestored(item: Item)
    requires Sized(item)
    ensures item.data == Payload(item) + "\r\n" <==> item.data[|item.data| - 2..] == "\r\n"
    ensures Payload(item) != "" <==> |item.data| > 2
  {
    var n := |item.data| - 2;
    assert item.data == Payload(item) + item.data[n..];
    assert (Payload(item) + "\r\n")[n..] == "\r\n";
  }

  // ----- rows that were not written like that -----

  predicate Unquoted(t: string) { forall i :: 0 <= i < |t| ==> t[i] !in {'"', ',', '\r', '\n'} }

  lemma {:induction false} PlainBody(t: string, len: nat, rest: string)
    requires Unquoted(t) && |t| <= len
    ensures ReadBody(t + rest, len, false, false) == Prefixed(t, ReadBody(rest, len - |t|, false, false))
  {
    if t == "" {
      assert t + rest == rest;
      NothingPrefixed(ReadBody(rest, len, false, false));
    } else {
      assert (t + rest)[1..] == t[1..] + rest;
      PlainBody(t[1..], len - 1, rest);
      PrefixedCopied(t, ReadBody(rest, len - |t|, false, false));
      hide Prefixed, Copied;
    }
  }

  lemma NoText(rest: string, len: nat)
    ensures len == 0 || (rest != "" && rest[0] in {',', '\r', '\n'}) ==>
              ReadBody(rest, len, false, false) == Body("", rest, len, false)
    ensures len > 0 && rest == "" ==> ReadBody(rest, len, false, false) == Cut
    ensures len > 0 && rest != "" && rest[0] == '"' ==>
              ReadBody(rest, len, false, false) == Body("", rest[1..], len, false)
  {
  }

  lemma PlainText(t: string, len: nat, rest: string)
    requires Unquoted(t) && |t| <= len && (t == "" ==> rest == "" || rest[0] != '"')
    ensures TextOf(t + rest, len) == Closed(Prefixed(t, ReadBody(rest, len - |t|, false, false)), false)
  {
    PlainBody(t, len, rest);
    hide ReadBody, Prefixed;
    assert t != "" ==> (t + rest)[0] == t[0];
    assert t == "" ==> t + rest == rest;
  }

  /** A text without quotes ends in front of a comma or a line end, and behind as many characters as are asked for; a
      quote ends it too and is taken; the end of the file before that gives no text. */
  lemma UnquotedReads(t: string, len: nat, rest: string)
    requires Unquoted(t) && |t| <= len
    ensures |t| == len > 0 || (rest != "" && rest[0] in {',', '\r', '\n'}) ==>
              TextOf(t + rest, len) == Some(Text(t, rest))
    ensures 0 < |t| < len ==> TextOf(t + ("\"" + rest), len) == Some(Text(t, rest))
    ensures |t| < len ==> TextOf(t, len) == None
  {
    hide TextOf, ReadBody;
    assert t + "" == t;
    if t != "" || rest == "" || rest[0] != '"' {
      PlainText(t, len, rest);
      NoText(rest, len - |t|);
    }
    PlainText(t, len, "");
    NoText("", len - |t|);
    if t != "" {
      PlainText(t, len, "\"" + rest);
      NoText("\"" + rest, len - |t|);
      assert ("\"" + rest)[1..] == rest;
    }
  }

  /** The end of the file inside a quoted text gives no text. */
  lemma QuotedCut(s: string, len: nat)
    requires |s| < len
    ensures TextOf("\"" + Doubled(s), len) == None
  {
    hide ReadBody, Doubled, TextOf, Prefixed;
    BehindQuote(Doubled(s), len);
    assert Doubled(s) + "" == Doubled(s);
    BodyPasses(s, "", len - |s|);
    NothingLeft(len - |s|);
    CutStaysCut(s);
  }

  lemma BehindQuote(text: string, len: nat)
    requires len > 0
    ensures TextOf("\"" + text, len) == Closed(ReadBody(text, len, false, true), true)
  {
    assert ("\"" + text)[1..] == text;
  }

  lemma CutStaysCut(s: string)
    ensures Closed(Prefixed(s, Cut), true) == None
  {
  }

  lemma NothingLeft(len: nat)
    requires len > 0
    ensures ReadBody("", len, false, true) == Cut
  {
  }

  lemma KeyRead(row: seq<UInt>, key: string, behind: string)
    requires |row| == 8 && key != "" && |key| == row[7]
    ensures TextOf(InQuotes(key) + behind, row[7]) == Some(Text(key, behind))
  {
    QuotedReadsBack(key, behind);
  }

  /** Without the comma behind the key the row is given up behind one character; with fewer than two bytes of data
      announced there is no room for their CRLF. */
  lemma KeyGivenUp(row: seq<UInt>, key: string, c: char, rest: string)
    requires |row| == 8 && key != "" && |key| == row[7]
    ensures c != ',' ==> ReadColumns(row, InQuotes(key) + ([c] + rest)) == Nothing(rest, false)
    ensures c == ',' && row[3] < 2 ==> ReadColumns(row, InQuotes(key) + ([c] + rest)) == Undefined
  {
    hide TextOf, InQuotes;
    KeyRead(row, key, [c] + rest);
    assert ([c] + rest)[1..] == rest;
  }

  lemma DataRead(row: seq<UInt>, key: string, text: string)
    requires |row| == 8 && key != "" && |key| == row[7] && row[3] >= 2
    ensures var d := TextOf(text, row[3] - 2);
            ReadColumns(row, InQuotes(key) + (", " + text)) ==
            if d.None? then Nothing("", true)
            else if |d.value.text| != row[3] - 2 then Nothing(d.value.rest, false)
            else Read(Item(row[0], row[1], row[2], row[4], row[5] % 0x1_0000, row[6], key, d.value.text + "\r\n"),
                      LineEnded(d.value.rest))
  {
    hide TextOf, InQuotes, LineEnded;
    KeyRead(row, key, ", " + text);
    assert (", " + text)[2..] == text;
  }

  /** With data cut off by the end of the file, or shorter than announced, the row is given up where the data ends. */
  lemma DataGivenUp(row: seq<UInt>, key: string, data: string, rest: string)
    requires |row| == 8 && key != "" && |key| == row[7] && |data| + 2 < row[3]
    ensures ReadColumns(row, InQuotes(key) + (", " + ("\"" + Doubled(data)))) == Nothing("", true)
    ensures Unquoted(data) ==>
              ReadColumns(row, InQuotes(key) + (", " + (data + ("," + rest)))) == Nothing("," + rest, false)
  {
    hide TextOf, InQuotes, Doubled, ReadColumns, LineEnded;
    QuotedCut(data, row[3] - 2);
    DataRead(row, key, "\"" + Doubled(data));
    if Unquoted(data) {
      UnquotedReads(data, row[3] - 2, "," + rest);
      DataRead(row, key, data + ("," + rest));
    }
  }

  /** A line may end in CRLF as well as in a line feed, or in any other single character. */
  lemma LineEndsAlike(item: Item, ending: string, rest: string)
    requires Storable(item) && (ending == "\r\n" || (|ending| == 1 && ending != "\r"))
    ensures ReadColumns(Row(item), KeyColumn(item.key) + (", " + (InQuotes(Payload(item)) + (ending + rest))))
         == Read(item, rest)
  {
    KeyColumnIs(item.key);
    hide TextOf, InQuotes, Doubled, KeyColumn, ReadColumns;
    DataRead(Row(item), item.key, InQuotes(Payload(item)) + (ending + rest));
    QuotedReadsBack(Payload(item), ending + rest);
    assert (ending + rest)[|ending|..] == rest;
    DataRestored(item);
  }

  // ----- whole files -----

  const EXPECTED: string := "dumpflags, time, exptime"
  const HEADER: string := EXPECTED + (", nbytes, nsuffix, it_flags" + ", clsid, nkey, key, data")

  function LineLength(b: string): (n: nat)
    ensures n <= |b| && '\n' !in b[..n] && (n < |b| ==> b[n] == '\n')
  {
    if b == "" || b[0] == '\n' then 0
    else
      var n := LineLength(b[1..]);
      assert b[..n + 1] == [b[0]] + b[1..][..n];
      1 + n
  }

  /** `open_file` of the reader: a line, or 78 characters of it, that starts as expected. */
  function OpenedFile(b: string): Option<string>
  {
    var n := LineLength(b);
    var taken := if n < |b| && n < 78 then n + 1 else if n < 78 then n else 78;
    if b == "" || !(EXPECTED <= b[..taken]) then None else Some(b[taken..])
  }

  function AllWritten(items: seq<Item>): string
    requires forall i <- items :: Sized(i)
  {
    if items == [] then "" else WrittenItem(items[0]).text + AllWritten(items[1..])
  }

  datatype Dump = Dump(items: seq<Item>, complete: bool)

  /** The items up to the first NULL; complete when that was the end of the file. */
  function AllRead(b: string): Dump
    decreases |b|
  {
    match OutcomeOf(b)
    case Read(item, rest) => var more := AllRead(rest); more.(items := [item] + more.items)
    case Nothing(_, eof) => Dump([], eof)
    case Undefined => Dump([], false)
  }

  lemma {:induction false} RowsReadBack(items: seq<Item>)
    requires forall i <- items :: Sized(i) && Storable(i)
    ensures AllRead(AllWritten(items)) == Dump(items, true)
    decreases |items|
  {
    hide WrittenItem, OutcomeOf, Storable;
    if items == [] {
      EndOfFile();
    } else {
      assert items[0] in items;
      var rest := AllWritten(items[1..]);
      ItemReadsBack(items[0], rest);
      RowsReadBack(items[1..]);
      assert [items[0]] + items[1..] == items;
    }
  }

  lemma EndOfFile()
    ensures OutcomeOf("") == Nothing("", true)
  {
    assert ScanNumber("").end == 0;
  }

  lemma {:induction false} LineOf(line: string, rest: string)
    requires '\n' !in line
    ensures LineLength(line + (['\n'] + rest)) == |line|
  {
    if line == "" {
      assert line + (['\n'] + rest) == ['\n'] + rest;
    } else {
      assert (line + (['\n'] + rest))[1..] == line[1..] + (['\n'] + rest);
      LineOf(line[1..], rest);
    }
  }

  lemma HeaderShape()
    ensures '\n' !in HEADER && |HEADER| == 75 && EXPECTED <= HEADER
  {
    var a, b, c := "dumpflags, time, exptime", ", nbytes, nsuffix, it_flags", ", clsid, nkey, key, data";
    assert '\n' !in a && '\n' !in b && '\n' !in c && |a| == 24 && |b| == 27 && |c| == 24;
    InEither(b, c);
    InEither(a, b + c);
  }

  lemma InEither(a: string, b: string)
    requires '\n' !in a && '\n' !in b
    ensures '\n' !in a + b && a <= a + b
  {
  }

  /** A file written item by item is opened and read to its end with the same items in the same order. */
  lemma FileReadsBack(items: seq<Item>)
    requires forall i <- items :: Sized(i) && Storable(i)
    ensures var rest := OpenedFile(HEADER + (['\n'] + AllWritten(items)));
            rest.Some? && AllRead(rest.value) == Dump(items, true)
  {
    hide AllRead, AllWritten, HEADER, EXPECTED;
    RowsReadBack(items);
    HeaderShape();
    HeaderRead(HEADER, AllWritten(items));
  }

  lemma HeaderRead(header: string, rows: string)
    requires '\n' !in header && |header| < 78 && EXPECTED <= header
    ensures OpenedFile(header + (['\n'] + rows)) == Some(rows)
  {
    hide EXPECTED, LineLength;
    var b := header + (['\n'] + rows);
    LineOf(header, rows);
    assert b[..|header| + 1] == header + ['\n'] && b[|header| + 1..] == rows;
  }

  /** Which files are opened: those that start as expected. The first line is skipped, or 78 characters of it. */
  lemma OpensIff(b: string)
    ensures OpenedFile(b).Some? <==> "dumpflags, time, exptime" <= b
    ensures OpenedFile(b).Some? ==>
              exists n :: 24 <= n <= |b| && n <= 78 && OpenedFile(b).value == b[n..] && '\n' !in b[..n - 1]
                       && (n < |b| && n < 78 ==> b[n - 1] == '\n')
  {
    hide LineLength;
    var n := LineLength(b);
    var taken := if n < |b| && n < 78 then n + 1 else if n < 78 then n else 78;
    var expected := "dumpflags, time, exptime";
    if expected <= b {
      assert '\n' !in expected && b[..24] == expected;
      assert b[..taken][..24] == expected;
    }
    if expected <= b[..taken] {
      assert b[..taken][..24] == expected;
      assert b[..24] == expected;
      assert b[..taken - 1] == b[..n][..taken - 1];
    }
  }

  // ----- the objects -----

  lemma PrefixedAppend(d: string, c: char, body: Body)
    ensures Prefixed(d, Copied(c, body)) == Prefixed(d + [c], body)
  {
    assert !body.Cut? ==> d + ([c] + body.text) == d + [c] + body.text;
  }

  lemma PrefixedStop(d: string, body: Body)
    requires body.Body? && body.text == ""
    ensures Prefixed(d, body) == body.(text := d)
  {
    assert d + "" == d;
  }

  class FileReader {
    /** What is not read yet. */
    var m_file: string
    var m_line: nat

    constructor (content: string)
      ensures m_file == content && m_line == 2
    {
      m_file, m_line := content, 2;
    }

    /** The next character, or `None` at the end. */
    method Getc() returns (c: Option<char>)
      modifies `m_file
      ensures c == if old(m_file) == "" then None else Some(old(m_file)[0])
      ensures m_file == Drained(old(m_file), 1)
    {
      if m_file == "" {
        return None;
      }
      c := Some(m_file[0]);
      m_file := m_file[1..];
    }

    /** The character loop. */
    method CopyCharacters(len0: nat) returns (d: string, len: nat, skip_quote: bool, dequote: bool, cut: bool)
      modifies `m_file
      ensures var quoted := len0 > 0 && old(m_file) != "" && old(m_file)[0] == QUOTE;
              var body := ReadBody(if quoted then old(m_file)[1..] else old(m_file), len0, false, quoted);
              (dequote == quoted || cut) && body == if cut then Cut else Body(d, m_file, len, skip_quote)
      ensures cut ==> m_file == ""
    {
      ghost var b := m_file;
      ghost var quoted := len0 > 0 && b != "" && b[0] == QUOTE;
      ghost var body := ReadBody(if quoted then b[1..] else b, len0, false, quoted);
      d, len, skip_quote, dequote, cut := "", len0, false, false, false;
      var first_byte := true;
      NothingPrefixed(body);
      while len > 0
        invariant first_byte ==> m_file == b && d == "" && len == len0 && !skip_quote && !dequote
        invariant !first_byte || len0 == 0 ==> dequote == quoted
        invariant !first_byte || !quoted ==> Prefixed(d, ReadBody(m_file, len, skip_quote, quoted)) == body
        invariant !cut
        decreases |m_file|, len
      {
        var c := Getc();
        if first_byte {
          first_byte := false;
          if c == Some(QUOTE) {
            dequote := true;
            continue;
          }
        }
        if c.None? {
          cut := true;
          return;
        }
        ghost var here := [c.value] + m_file;
        assert here[1..] == m_file;
        assert Prefixed(d, ReadBody(here, len, skip_quote, quoted)) == body;
        if skip_quote && c.value != QUOTE {
          PrefixedStop(d, ReadBody(here, len, skip_quote, quoted));
          return;
        }
        if c.value == QUOTE {
          if skip_quote {
            skip_quote := false;
            continue;
          }
          if dequote {
            skip_quote := true;
          } else {
            PrefixedStop(d, ReadBody(here, len, skip_quote, quoted));
            return;
          }
        }
        if (c.value == ',' || c.value == '\r' || c.value == '\n') && !dequote {
          PrefixedStop(d, ReadBody(here, len, skip_quote, quoted));
          m_file := [c.value] + m_file;
          return;
        }
        PrefixedAppend(d, c.value, ReadBody(m_file, len - 1, skip_quote, quoted));
        d := d + [c.value];
        len := len - 1;
      }
      PrefixedStop(d, ReadBody(m_file, len, skip_quote, quoted));
    }

    method ReadString(len: nat) returns (text: Option<string>)
      modifies `m_file
      ensures var r := TextOf(old(m_file), len);
              if r.Some? then text == Some(r.value.text) && m_file == r.value.rest else text == None && m_file == ""
    {
      hide ReadBody;
      var d, left, skip_quote, dequote, cut := CopyCharacters(len);
      if cut {
        return None;
      }
      if left == 0 && dequote {
        if skip_quote {
          var _ := Getc();
        }
        var _ := Getc();
      }
      return Some(d);
    }

    method ReadItem() returns (o: Outcome)
      modifies this
      ensures o == OutcomeOf(old(m_file))
      ensures o.Read? || o.Nothing? ==> m_file == o.rest
      ensures m_line == old(m_line) + if o.Read? then 1 else 0
    {
      hide ReadColumns, ScanRow;
      var s := ScanRow(m_file, 8);
      m_file := s.rest;
      if |s.row| < 8 {
        return Nothing(m_file, m_file == "");
      }
      o := ReadKeyAndData(s.row);
    }

    /** The quoted columns of a row whose numbers have been scanned. */
    method ReadKeyAndData(row: seq<UInt>) returns (o: Outcome)
      requires |row| == 8
      modifies this
      ensures o == ReadColumns(row, old(m_file))
      ensures o.Read? || o.Nothing? ==> m_file == o.rest
      ensures m_line == old(m_line) + if o.Read? then 1 else 0
    {
      hide TextOf;
      var nbytes, nkey := row[3], row[7];
      var key := ReadString(nkey);
      if key.None? {
        return Undefined;
      }
      var c := Getc();
      if c != Some(',') {
        return Nothing(m_file, false);
      }
      var _ := Getc();
      if nbytes < 2 {
        return Undefined;
      }
      var data := ReadString(nbytes - 2);
      if data.None? {
        return Nothing(m_file, true);
      }
      if |data.value| != nbytes - 2 {
        return Nothing(m_file, false);
      }
      var e := Getc();
      if e == Some('\r') {
        var _ := Getc();
      }
      if |key.value| != nkey {
        return Undefined;
      }
      m_line := m_line + 1;
      return Read(Item(row[0], row[1], row[2], row[4], row[5] % 0x1_0000, row[6], key.value, data.value + "\r\n"),
                  m_file);
    }
  }

  lemma {:induction false} NoQuoteToDouble(s: string)
    requires QUOTE !in s
    ensures Doubled(s) == s
  {
    if s != "" {
      assert s[0] in s && [s[0]] + s[1..] == s;
      NoQuoteToDouble(s[1..]);
    }
  }

  class FileWriter {
    /** What is written so far. */
    var m_file: string

    /** The header line. */
    constructor ()
      ensures m_file == HEADER + ['\n']
    {
      m_file := HEADER + ['\n'];
    }

    static method GetQuotedStr(str: string) returns (new_str: string)
      ensures new_str == Doubled(str)
    {
      if QUOTE !in str {
        NoQuoteToDouble(str);
        return str;
      }
      new_str := "";
      var i := 0;
      assert str[..0] == "";
      DoubledNothing();
      while i < |str|
        invariant 0 <= i <= |str| && new_str == Doubled(str[..i])
      {
        DoubledAppend(str[..i], str[i]);
        assert str[..i + 1] == str[..i] + [str[i]];
        new_str := new_str + [str[i]];
        if str[i] == QUOTE {
          new_str := new_str + [QUOTE];
        }
        assert new_str == Doubled(str[..i]) + if str[i] == QUOTE then [QUOTE, QUOTE] else [str[i]];
        i := i + 1;
      }
      assert str[..i] == str;
    }

    method WriteItem(item: Item) returns (ok: bool)
      requires Sized(item)
      modifies this
      ensures m_file == old(m_file) + WrittenItem(item).text && ok == WrittenItem(item).ok
    {
      hide Doubled, CString, Numbers;
      var quoted_key := GetQuotedStr(item.key);
      var quoted_data := GetQuotedStr(item.data[..|item.data| - 2]);
      var row := Numbers(Row(item)) + ([QUOTE] + CString(quoted_key) + [QUOTE] + [',', ' ']) + [QUOTE];
      ghost var before := m_file;
      m_file := m_file + row;
      if |quoted_data| == 0 {
        DoubledEmpty(Payload(item));
        return false;
      }
      m_file := m_file + quoted_data;
      m_file := m_file + [QUOTE, '\n'];
      DoubledEmpty(Payload(item));
      PiecesOfRow(before, Numbers(Row(item)) + (KeyColumn(item.key) + [',', ' ']), quoted_data);
      return true;
    }
  }

  lemma DoubledEmpty(s: string)
    ensures Doubled(s) == "" <==> s == ""
  {
  }

  lemma PiecesOfRow(f: string, x: string, d: string)
    ensures f + (x + [QUOTE]) + d + [QUOTE, '\n'] == f + (x + ([QUOTE] + d + [QUOTE] + ['\n']))
  {
  }
}
