/** The C library routines the parsers and writers lean on, over text held as `string` (a C `char` is a Dafny `char`):
    decimal printing, `strtol`/`strtoul`, C strings, and the operations of a libevent buffer that the protocol code
    calls. */
module CText {

  datatype Option<+T> = None | Some(value: T)

  const UINT_RANGE: nat := 0x1_0000_0000
  type UInt = n: nat | n < 0x1_0000_0000

  const LONG_MAX: nat := 0x7fff_ffff_ffff_ffff
  const ULONG_MAX: nat := 0xffff_ffff_ffff_ffff

  /** Conversion to a 32-bit `unsigned int`. */
  function AsUint32(x: int): (r: UInt)
    ensures 0 <= x < UINT_RANGE ==> r == x
  {
    x % 0x1_0000_0000
  }

  /** Conversion to a 32-bit `int`. */
  function AsInt32(x: int): (r: int)
    ensures -0x8000_0000 <= r < 0x8000_0000
    ensures -0x8000_0000 <= x < 0x8000_0000 ==> r == x
  {
    (x + 0x8000_0000) % 0x1_0000_0000 - 0x8000_0000
  }

  // ----- decimal text -----

  predicate IsDigit(c: char) { '0' <= c <= '9' }

  predicate AllDigits(s: string) { forall i :: 0 <= i < |s| ==> IsDigit(s[i]) }

  /** What `%u` and `%llu` print. */
  function Dec(n: nat): (s: string)
    ensures |s| > 0 && AllDigits(s)
  {
    if n < 10 then ['0' + n as char] else Dec(n / 10) + ['0' + (n % 10) as char]
  }

  /** The number a run of digits stands for. */
  function DigitsValue(s: string): nat
    requires AllDigits(s)
  {
    if s == "" then 0
    else 10 * DigitsValue(s[..|s| - 1]) + (s[|s| - 1] - '0') as nat
  }

  lemma {:induction false} DecValue(n: nat)
    ensures DigitsValue(Dec(n)) == n
  {
    if n >= 10 {
      DecValue(n / 10);
      assert Dec(n)[..|Dec(n)| - 1] == Dec(n / 10);
    } else {
      assert Dec(n)[..0] == "";
    }
  }

  /** How many digits `s` starts with. */
  function DigitRun(s: string): (n: nat)
    ensures n <= |s| && AllDigits(s[..n])
    ensures n < |s| ==> !IsDigit(s[n])
  {
    if s == "" || !IsDigit(s[0]) then 0
    else
      var n := 1 + DigitRun(s[1..]);
      assert s[..n] == [s[0]] + s[1..][..n - 1];
      n
  }

  lemma {:induction false} DigitRunOf(digits: string, rest: string)
    requires AllDigits(digits)
    requires rest == "" || !IsDigit(rest[0])
    ensures DigitRun(digits + rest) == |digits|
  {
    if digits == "" {
      assert digits + rest == rest;
    } else {
      assert (digits + rest)[1..] == digits[1..] + rest;
      DigitRunOf(digits[1..], rest);
    }
  }

  predicate IsSpace(c: char) { c == ' ' || '\t' <= c <= '\r' }

  function SpaceRun(s: string): (n: nat)
    ensures n <= |s|
  {
    if s == "" || !IsSpace(s[0]) then 0 else 1 + SpaceRun(s[1..])
  }

  /** A number scanned at the front of a text: its value, and where the scan stopped (0 when there was no number, as the
      end pointer of `strtol` says). */
  datatype Scan = Scan(negative: bool, magnitude: nat, end: nat)

  function ScanNumber(s: string): (r: Scan)
    ensures r.end <= |s|
  {
    var i := SpaceRun(s);
    var signed := i < |s| && (s[i] == '-' || s[i] == '+');
    var j := if signed then i + 1 else i;
    var n := DigitRun(s[j..]);
    if n == 0 then Scan(false, 0, 0)
    else Scan(signed && s[i] == '-', DigitsValue(s[j..][..n]), j + n)
  }

  /** `strtol(s, NULL, 10)`, which saturates. */
  function Strtol(s: string): int
  {
    var r := ScanNumber(s);
    if r.negative
    then if r.magnitude > LONG_MAX + 1 then -(LONG_MAX + 1) else 0 - r.magnitude
    else if r.magnitude > LONG_MAX then LONG_MAX else r.magnitude
  }

  /** `strtoul(s, NULL, 10)` stored in an `unsigned int`; it saturates as an `unsigned long` first. */
  function StrtoulAsUint(s: string): UInt
  {
    var r := ScanNumber(s);
    if r.magnitude > ULONG_MAX then AsUint32(ULONG_MAX)
    else if r.negative then AsUint32(0 - r.magnitude) else AsUint32(r.magnitude)
  }

  lemma ScanNumberOf(n: nat, rest: string)
    requires rest == "" || !IsDigit(rest[0])
    ensures ScanNumber(Dec(n) + rest) == Scan(false, n, |Dec(n)|)
  {
    var s := Dec(n) + rest;
    assert IsDigit(s[0]) by { assert s[0] == Dec(n)[0]; }
    assert s[0..] == s;
    DigitRunOf(Dec(n), rest);
    assert s[..|Dec(n)|] == Dec(n);
    DecValue(n);
  }

  lemma NumberInFront(v: UInt, rest: string)
    requires rest == "" || !IsDigit(rest[0])
    ensures ScanNumber(Dec(v) + rest).end == |Dec(v)| && StrtoulAsUint(Dec(v) + rest) == v
    ensures (Dec(v) + rest)[|Dec(v)|..] == rest
  {
    ScanNumberOf(v, rest);
    hide ScanNumber, Dec;
  }

  lemma ScanSkipsSpace(s: string)
    requires ScanNumber(s).end > 0
    ensures ScanNumber(" " + s) == ScanNumber(s).(end := ScanNumber(s).end + 1)
  {
    var t := " " + s;
    assert t[1..] == s;
    var i := SpaceRun(s);
    assert SpaceRun(t) == i + 1;
    assert t[i + 1..] == s[i..];
    assert i < |s| ==> t[i + 1] == s[i] && t[i + 2..] == s[i + 1..];
  }

  lemma StrtolOf(n: nat, rest: string)
    requires rest == "" || !IsDigit(rest[0])
    requires n <= LONG_MAX
    ensures Strtol(Dec(n) + rest) == n
  {
    ScanNumberOf(n, rest);
  }

  // ----- C strings -----

  /** The text a `char *` shows: everything before the first NUL. */
  function CString(s: string): (r: string)
    ensures r <= s && '\0' !in r
    ensures '\0' !in s ==> r == s
    ensures |r| < |s| ==> s[|r|] == '\0'
  {
    if s == "" || s[0] == '\0' then "" else [s[0]] + CString(s[1..])
  }

  /** `line[0]`: the terminating NUL when the line is empty. */
  function FirstChar(line: string): char
  {
    if line == "" then '\0' else line[0]
  }

  // ----- libevent buffers -----

  predicate CrlfAt(s: string, i: int)
  {
    0 <= i < |s| - 1 && s[i] == '\r' && s[i + 1] == '\n'
  }

  predicate NoCrlf(s: string) { forall i :: 0 <= i < |s| ==> !CrlfAt(s, i) }

  lemma NothingHasNoLine(b: string)
    requires b == ""
    ensures NoCrlf(b)
  {
  }

  /** Position of the first CRLF, or -1. */
  function FindCrlf(s: string): (i: int)
    ensures i == -1 ==> NoCrlf(s)
    ensures i != -1 ==> CrlfAt(s, i) && forall j :: 0 <= j < i ==> !CrlfAt(s, j)
  {
    if |s| < 2 then -1
    else if CrlfAt(s, 0) then 0
    else
      var i := FindCrlf(s[1..]);
      assert forall j :: 1 <= j ==> (CrlfAt(s, j) <==> CrlfAt(s[1..], j - 1));
      if i == -1 then -1 else i + 1
  }

  datatype Line = Line(text: string, rest: string)

  /** `evbuffer_readln` with EVBUFFER_EOL_CRLF_STRICT: a whole line, or nothing. */
  function Readln(b: string): (r: Option<Line>)
    ensures r.Some? ==> |r.value.rest| + 2 + |r.value.text| == |b|
    ensures r.Some? ==> b == r.value.text + "\r\n" + r.value.rest
    ensures r.None? ==> NoCrlf(b)
  {
    var i := FindCrlf(b);
    if i == -1 then None
    else
      assert b == b[..i] + "\r\n" + b[i + 2..];
      Some(Line(b[..i], b[i + 2..]))
  }

  lemma ReadlnOf(line: string, rest: string)
    requires NoCrlf(line)
    ensures Readln(line + "\r\n" + rest) == Some(Line(line, rest))
  {
    var b := line + "\r\n" + rest;
    assert CrlfAt(b, |line|);
    assert forall j :: 0 <= j < |line| && CrlfAt(b, j) ==> CrlfAt(line, j);
    assert b[..|line|] == line;
    assert b[|line| + 2..] == rest;
  }

  /** A line is complete with its own last byte. */
  lemma ReadlnAlone(b: string)
    requires Readln(b).Some?
    ensures var l := Readln(b).value;
            b == (l.text + "\r\n") + l.rest && Readln(l.text + "\r\n") == Some(Line(l.text, ""))
  {
    var l := Readln(b).value;
    assert forall i :: 0 <= i < |l.text| && CrlfAt(l.text, i) ==> CrlfAt(b, i);
    ReadlnOf(l.text, "");
    assert l.text + "\r\n" + "" == l.text + "\r\n";
  }

  /** Bytes that arrive later never change a line that is already complete. */
  lemma ReadlnExtends(b: string, more: string)
    requires Readln(b).Some?
    ensures Readln(b + more) == Some(Line(Readln(b).value.text, Readln(b).value.rest + more))
  {
    var i := FindCrlf(b);
    assert CrlfAt(b + more, i);
    assert forall j :: 0 <= j < i ==> (CrlfAt(b + more, j) <==> CrlfAt(b, j));
    assert (b + more)[..i] == b[..i];
    assert (b + more)[i + 2..] == b[i + 2..] + more;
  }

  /** `evbuffer_remove`/`evbuffer_drain` take what is there when asked for more. */
  function Taken<T>(b: seq<T>, n: nat): (r: seq<T>)
    ensures n <= |b| ==> r == b[..n]
  {
    if n <= |b| then b[..n] else b
  }

  function Drained<T>(b: seq<T>, n: nat): (r: seq<T>)
    ensures n <= |b| ==> r == b[n..]
    ensures |r| == if n <= |b| then |b| - n else 0
  {
    if n <= |b| then b[n..] else []
  }

  lemma TakeAndDrainExtend<T>(b: seq<T>, n: nat, tail: nat, more: seq<T>)
    requires n + tail <= |b|
    ensures Taken(b + more, n) == Taken(b, n)
    ensures Drained(Drained(b + more, n), tail) == Drained(Drained(b, n), tail) + more
  {
    assert (b + more)[n..] == b[n..] + more;
    assert (b[n..] + more)[tail..] == b[n..][tail..] + more;
  }

  lemma DrainExtends<T>(b: seq<T>, n: nat, more: seq<T>)
    requires n <= |b|
    ensures Drained(b + more, n) == Drained(b, n) + more
  {
    assert (b + more)[n..] == b[n..] + more;
  }

  lemma Assoc<T>(a: seq<T>, b: seq<T>, c: seq<T>)
    ensures (a + b) + c == a + (b + c)
  {
  }
}
