/** Which texts the list of weights is parsed from: a grammar of its own, and the parser against it in both directions.
    */
module WeightGrammar {
  import opened CText
  import opened WeightList

  /** Blank, tab, line feed, vertical tab, form feed or carriage return. */
  predicate Blank(s: string)
  {
    forall i :: 0 <= i < |s| ==> s[i] in {' ', '\t', '\n', '\U{b}', '\U{c}', '\r'}
  }

  type Digits = s: string | AllDigits(s) witness ""

  /** A number as `strtoul` takes it: blanks, a sign and digits, or nothing at all. */
  datatype Number = Number(blanks: string, sign: string, digits: Digits)
  {
    function Text(): string { blanks + (sign + digits) }

    predicate Valid()
    {
      && Blank(blanks) && sign in {"", "+", "-"}
      && (digits == "" ==> blanks == "" && sign == "")
    }

    /** It saturates at 64 bits, a minus negates it, and 32 bits are kept. */
    function Value(): UInt
    {
      var v := DigitsValue(digits);
      if v > 0xffff_ffff_ffff_ffff then 0xffff_ffff
      else if sign == "-" then (0 - v) % 0x1_0000_0000 else v % 0x1_0000_0000
    }
  }

  datatype Entry = Entry(size: Number, weight: Number)

  predicate ValidEntry(e: Entry) { e.size.Valid() && e.weight.Valid() }

  /** Entries `size:weight` with commas between them, and maybe one behind the last. */
  function Spelled(es: seq<Entry>, comma: bool): string
  {
    if es == [] then ""
    else
      es[0].size.Text() + (":" + (es[0].weight.Text() +
        if |es| > 1 then "," + Spelled(es[1..], comma) else if comma then "," else ""))
  }

  function ItemsOf(es: seq<Entry>): seq<Item>
  {
    seq(|es|, i requires 0 <= i < |es| => Item(es[i].size.Value(), es[i].weight.Value()))
  }

  // ----- one number -----

  lemma {:induction false} SpaceRunOf(blanks: string, rest: string)
    requires Blank(blanks) && (rest == "" || !IsSpace(rest[0]))
    ensures SpaceRun(blanks + rest) == |blanks|
  {
    if blanks == "" {
      assert blanks + rest == rest;
    } else {
      assert (blanks + rest)[1..] == blanks[1..] + rest;
      SpaceRunOf(blanks[1..], rest);
    }
  }

  lemma {:induction false} SpaceRunIs(s: string)
    ensures Blank(s[..SpaceRun(s)])
    ensures SpaceRun(s) < |s| ==> !IsSpace(s[SpaceRun(s)])
  {
    if s != "" && IsSpace(s[0]) {
      SpaceRunIs(s[1..]);
      assert s[..SpaceRun(s)] == [s[0]] + s[1..][..SpaceRun(s) - 1];
    }
  }

  /** What a number is followed by. */
  predicate Stops(rest: string) { rest == "" || rest[0] in {':', ','} }

  lemma ScanIs(s: string, i: nat, j: nat, n: nat)
    requires i == SpaceRun(s) && i < |s| && j == if s[i] == '-' || s[i] == '+' then i + 1 else i
    requires n == DigitRun(s[j..]) && n > 0
    ensures ScanNumber(s) == Scan(s[i] == '-', DigitsValue(s[j..][..n]), j + n)
  {
    hide DigitsValue, SpaceRun, DigitRun;
  }

  lemma Parts(blanks: string, sign: string, digits: string, rest: string, s: string)
    requires s == blanks + (sign + digits) + rest
    ensures s == blanks + (sign + digits + rest) && s[|blanks| + |sign|..] == digits + rest
    ensures |blanks| < |s| ==> s[|blanks|] == (sign + digits + rest)[0]
    ensures s[|blanks + (sign + digits)|..] == rest && (digits + rest)[..|digits|] == digits
  {
  }

  lemma Leads(sign: string, digits: string, rest: string)
    requires sign in {"", "+", "-"} && AllDigits(digits) && digits != ""
    ensures var c := (sign + digits + rest)[0];
            !IsSpace(c) && (c == '-' <==> sign == "-") && (c == '-' || c == '+' <==> sign != "")
  {
    var c := (sign + digits + rest)[0];
    assert c == if sign == "" then digits[0] else sign[0];
  }

  lemma ScanPieces(blanks: string, sign: string, digits: string, rest: string, s: string, behind: string)
    requires s == blanks + (sign + digits) + rest && behind == sign + digits + rest && Blank(blanks)
    requires sign in {"", "+", "-"} && AllDigits(digits) && digits != "" && Stops(rest)
    ensures ScanNumber(s) == Scan(sign == "-", DigitsValue(digits), |blanks| + |sign| + |digits|)
  {
    hide ScanNumber, DigitsValue, DigitRun, SpaceRun, Blank, AllDigits;
    Leads(sign, digits, rest);
    Parts(blanks, sign, digits, rest, s);
    SpaceRunOf(blanks, behind);
    DigitRunOf(digits, rest);
    hide IsSpace, IsDigit, Stops;
    var i, j, n := |blanks|, |blanks| + |sign|, |digits|;
    assert s[i] == behind[0];
    assert |sign| == if sign == "" then 0 else 1;
    assert s[j..] == digits + rest;
    ScanIs(s, i, j, n);
  }

  lemma ScanParts(n: Number, rest: string)
    requires n.Valid() && n.digits != "" && Stops(rest)
    ensures ScanNumber(n.Text() + rest) == Scan(n.sign == "-", DigitsValue(n.digits), |n.Text()|)
  {
    hide ScanNumber, DigitsValue, AllDigits;
    ScanPieces(n.blanks, n.sign, n.digits, rest, n.Text() + rest, n.sign + n.digits + rest);
  }

  lemma ScanNothing(rest: string)
    requires Stops(rest)
    ensures ScanNumber(rest) == Scan(false, 0, 0)
  {
    assert rest[0..] == rest;
  }

  /** A number in front is taken whole and with its value. */
  lemma NumberReads(n: Number, rest: string)
    requires n.Valid() && Stops(rest)
    ensures var s := n.Text() + rest;
            ScanNumber(s).end == |n.Text()| && StrtoulAsUint(s) == n.Value() && s[|n.Text()|..] == rest
  {
    if n.digits == "" {
      assert n.Text() == "" && "" + rest == rest;
      ScanNothing(rest);
    } else {
      ScanParts(n, rest);
    }
    hide ScanNumber, DigitsValue;
  }

  lemma Cut(s: string, i: nat, j: nat, k: nat)
    requires i <= j <= k <= |s|
    ensures s[..i] + (s[i..j] + s[j..k]) == s[..k] && s == s[..k] + s[k..] && s[j..][..k - j] == s[j..k]
  {
  }

  lemma RunOfDigits(s: string, j: nat, k: nat)
    requires j <= |s| && k == j + DigitRun(s[j..])
    ensures k <= |s| && s[j..k] == s[j..][..k - j] && AllDigits(s[j..k])
  {
    assert s[j..k] == s[j..][..k - j];
  }

  /** What is taken from the front of a text is a number. */
  lemma NumberTaken(s: string) returns (n: Number)
    ensures n.Valid() && s == n.Text() + s[ScanNumber(s).end..] && |n.Text()| == ScanNumber(s).end
  {
    hide DigitRun, SpaceRun, DigitsValue, AllDigits;
    if ScanNumber(s).end == 0 {
      n := Number("", "", "");
    } else {
      var i := SpaceRun(s);
      SpaceRunIs(s);
      var j := if s[i] == '-' || s[i] == '+' then i + 1 else i;
      var k := j + DigitRun(s[j..]);
      assert ScanNumber(s).end == k && k > j;
      hide ScanNumber;
      RunOfDigits(s, j, k);
      Cut(s, i, j, k);
      SignIs(s, i, j);
      n := Number(s[..i], s[i..j], s[j..k]);
    }
  }

  lemma SignIs(s: string, i: nat, j: nat)
    requires i < |s| && j == if s[i] == '-' || s[i] == '+' then i + 1 else i
    ensures s[i..j] in {"", "+", "-"}
  {
    assert s[i..j] == if j == i then "" else if s[i] == '-' then "-" else "+";
  }

  // ----- from the grammar to the parser -----

  lemma ColonMoved(size: string, t: string, s: string)
    requires s == size + (":" + t)
    ensures s[|size|..] == ":" + t && |size| < |s| && s[|size|] == ':' && s[|size| + 1..] == t
  {
  }

  lemma EntryReads(e: Entry, rest: string)
    requires ValidEntry(e) && (rest == "" || rest[0] == ',')
    ensures var item := Item(e.size.Value(), e.weight.Value());
            Parsed(e.size.Text() + (":" + (e.weight.Text() + rest))) ==
            if |rest| <= 1 then Some([item]) else Joined([item], Parsed(rest[1..]))
  {
    hide ScanNumber, StrtoulAsUint, Number.Valid, Number.Value, Number.Text, Joined, Parsed;
    var t := e.weight.Text() + rest;
    NumberReads(e.size, ":" + t);
    NumberReads(e.weight, rest);
    var s := e.size.Text() + (":" + t);
    ColonMoved(e.size.Text(), t, s);
    ParsedStep(s, t, rest);
  }

  lemma {:induction false} SpelledStarts(es: seq<Entry>, comma: bool)
    requires es != []
    ensures Spelled(es, comma) != ""
  {
  }

  /** Every text of the grammar parses to the values it spells. */
  lemma {:induction false} SpelledParses(es: seq<Entry>, comma: bool)
    requires es != [] && forall e <- es :: ValidEntry(e)
    ensures Parsed(Spelled(es, comma)) == Some(ItemsOf(es))
    decreases |es|
  {
    hide Parsed, Number.Text, Number.Value, ValidEntry;
    if |es| > 1 {
      var tail := Spelled(es[1..], comma);
      SpelledStarts(es[1..], comma);
      EntryReads(es[0], "," + tail);
      assert ("," + tail)[1..] == tail;
      SpelledParses(es[1..], comma);
      assert ItemsOf(es) == [Item(es[0].size.Value(), es[0].weight.Value())] + ItemsOf(es[1..]);
    } else {
      EntryReads(es[0], if comma then "," else "");
      assert ItemsOf(es) == [Item(es[0].size.Value(), es[0].weight.Value())];
    }
  }

  // ----- from the parser to the grammar -----

  lemma ParsedColon(s: string)
    requires Parsed(s).Some?
    ensures var p := ScanNumber(s).end; p < |s| && s[p] == ':'
  {
    hide ScanNumber, StrtoulAsUint, Joined;
  }

  lemma AtColon(s: string, p: nat)
    requires p < |s| && s[p] == ':'
    ensures s[p..] == ":" + s[p + 1..]
  {
  }

  lemma ParsedBehind(s: string, t: string, rest: string)
    requires Parsed(s).Some? && ScanNumber(s).end < |s|
    requires t == s[ScanNumber(s).end + 1..] && rest == t[ScanNumber(t).end..]
    ensures rest in {"", ","} || (rest[0] == ',' && Parsed(rest[1..]).Some?)
  {
    hide ScanNumber, StrtoulAsUint;
    assert rest != "" ==> rest[0] == t[ScanNumber(t).end] && rest[1..] == t[ScanNumber(t).end + 1..];
    assert |rest| == 1 ==> rest == [rest[0]];
  }

  /** What parsing takes off the front is an entry. */
  lemma EntryTaken(s: string) returns (e: Entry, rest: string)
    requires Parsed(s).Some?
    ensures ValidEntry(e) && s == e.size.Text() + (":" + (e.weight.Text() + rest)) && |rest| < |s|
    ensures rest in {"", ","} || (rest[0] == ',' && Parsed(rest[1..]).Some?)
  {
    hide Parsed, ScanNumber, Number.Text, Number.Valid;
    ParsedColon(s);
    AtColon(s, ScanNumber(s).end);
    var size := NumberTaken(s);
    var t := s[ScanNumber(s).end + 1..];
    var weight := NumberTaken(t);
    e, rest := Entry(size, weight), t[ScanNumber(t).end..];
    ParsedBehind(s, t, rest);
  }

  lemma {:induction false} ParsedIsSpelled(s: string) returns (es: seq<Entry>, comma: bool)
    requires Parsed(s).Some?
    ensures es != [] && (forall e <- es :: ValidEntry(e)) && s == Spelled(es, comma)
    decreases |s|
  {
    hide Parsed, Number.Text, ValidEntry;
    var e, rest := EntryTaken(s);
    if rest == "" {
      es, comma := [e], false;
    } else if rest == "," {
      es, comma := [e], true;
    } else {
      var more;
      more, comma := ParsedIsSpelled(rest[1..]);
      es := [e] + more;
      assert es[1..] == more && rest == "," + rest[1..];
    }
  }

  predicate SpelledBy(str: string, es: seq<Entry>, comma: bool)
  {
    es != [] && (forall e <- es :: ValidEntry(e)) && str == Spelled(es, comma)
  }

  /** A text is taken exactly when it is one of the grammar, and then every way to read it as one gives its items; any
      other text clears the list. */
  lemma ParsesGrammar(str: string)
    requires '\0' !in str
    ensures forall es: seq<Entry>, comma :: SpelledBy(str, es, comma) ==> ListOf(str) == ItemsOf(es)
    ensures ListOf(str) != [] <==> exists es: seq<Entry>, comma :: SpelledBy(str, es, comma)
  {
    hide Parsed, Spelled, ValidEntry;
    forall es: seq<Entry>, comma | SpelledBy(str, es, comma) ensures ListOf(str) == ItemsOf(es) {
      SpelledParses(es, comma);
    }
    if Parsed(str).Some? {
      var es, comma := ParsedIsSpelled(str);
      assert SpelledBy(str, es, comma);
    }
  }
}
