/** Weighted sizes: a list "size:weight,size:weight", its printing and parsing, and the rotation that hands out each
    size as many times in a row as its weight says. */
module WeightList {
  import opened CText
  import opened Division

  datatype Item = Item(size: UInt, weight: UInt)

  // ----- the rotation -----

  function Repeat<T>(x: T, n: nat): seq<T> { seq(n, _ => x) }

  /** Each size repeated weight times. */
  function Expand(items: seq<Item>): seq<UInt>
  {
    if items == [] then []
    else
      var n := |items| - 1;
      Expand(items[..n]) + Repeat(items[n].size, items[n].weight)
  }

  /** The entry behind each place of the expansion. */
  function Entries(items: seq<Item>): seq<nat>
  {
    if items == [] then []
    else
      var n := |items| - 1;
      Entries(items[..n]) + Repeat(n, items[n].weight)
  }

  /** The expansion is its entries' sizes. */
  lemma {:induction false} EntriesHaveSizes(items: seq<Item>)
    ensures |Entries(items)| == |Expand(items)|
    ensures forall k :: 0 <= k < |Entries(items)| ==>
              Entries(items)[k] < |items| && Expand(items)[k] == items[Entries(items)[k]].size
  {
    if items != [] {
      var n := |items| - 1;
      EntriesHaveSizes(items[..n]);
    }
  }

  lemma {:induction false} RepeatCounts<T>(x: T, n: nat, y: T)
    ensures multiset(Repeat(x, n))[y] == if x == y then n else 0
  {
    if n > 0 {
      RepeatCounts(x, n - 1, y);
      assert Repeat(x, n) == Repeat(x, n - 1) + [x];
    } else {
      assert Repeat(x, n) == [];
    }
  }

  lemma CountsAdd<T>(a: seq<T>, b: seq<T>, x: T)
    ensures multiset(a + b)[x] == multiset(a)[x] + multiset(b)[x]
  {
  }

  lemma {:induction false} EntriesInOrder(items: seq<Item>)
    ensures forall e <- Entries(items) :: e < |items|
  {
    if items != [] {
      EntriesInOrder(items[..|items| - 1]);
    }
  }

  /** Every entry stands in the expansion weight times. */
  lemma {:induction false} EntryCounts(items: seq<Item>, i: nat)
    requires i < |items|
    ensures multiset(Entries(items))[i] == items[i].weight
  {
    var n := |items| - 1;
    var before := Entries(items[..n]);
    assert Entries(items) == before + Repeat(n, items[n].weight);
    hide Entries, Repeat;
    RepeatCounts(n, items[n].weight, i);
    EntriesInOrder(items[..n]);
    if i < n {
      EntryCounts(items[..n], i);
    } else {
      assert i !in before;
    }
    CountsAdd(before, Repeat(n, items[n].weight), i);
  }

  /** The weights of all entries with a size. */
  function WeightOf(items: seq<Item>, size: UInt): nat
  {
    if items == [] then 0
    else
      var n := |items| - 1;
      WeightOf(items[..n], size) + if items[n].size == size then items[n].weight else 0
  }

  /** So a size stands there as often as the weights of its entries say together. */
  lemma {:induction false} SizeCounts(items: seq<Item>, size: UInt)
    ensures multiset(Expand(items))[size] == WeightOf(items, size)
  {
    if items != [] {
      var n := |items| - 1;
      SizeCounts(items[..n], size);
      RepeatCounts(items[n].size, items[n].weight, size);
      CountsAdd(Expand(items[..n]), Repeat(items[n].size, items[n].weight), size);
    }
  }

  /** Sizes before an item in the expansion. */
  function Before(items: seq<Item>, i: nat): nat
    requires i <= |items|
  {
    |Expand(items[..i])|
  }

  lemma BeforeSteps(items: seq<Item>, i: nat)
    requires i < |items|
    ensures Before(items, i + 1) == Before(items, i) + items[i].weight && Before(items, 0) == 0
  {
    assert items[..i + 1][..i] == items[..i];
  }

  lemma {:induction false} BeforeIsPrefix(items: seq<Item>, i: nat)
    requires i <= |items|
    ensures Expand(items[..i]) <= Expand(items)
  {
    if i == |items| {
      assert items[..i] == items;
    } else {
      var n := |items| - 1;
      BeforeIsPrefix(items[..n], i);
      assert items[..n][..i] == items[..i];
    }
  }

  /** What stands at a place of the expansion. */
  lemma PlaceOf(items: seq<Item>, i: nat, used: nat)
    requires i < |items| && used < items[i].weight
    ensures Before(items, i) + used < |Expand(items)|
    ensures Expand(items)[Before(items, i) + used] == items[i].size
    ensures |Entries(items)| == |Expand(items)| && Entries(items)[Before(items, i) + used] == i
  {
    BeforeIsPrefix(items, i + 1);
    EntriesPrefix(items, i + 1);
    EntriesHaveSizes(items);
    EntriesHaveSizes(items[..i]);
    assert items[..i + 1][..i] == items[..i];
  }

  lemma {:induction false} EntriesPrefix(items: seq<Item>, i: nat)
    requires i <= |items|
    ensures Entries(items[..i]) <= Entries(items)
  {
    if i == |items| {
      assert items[..i] == items;
    } else {
      var n := |items| - 1;
      EntriesPrefix(items[..n], i);
      assert items[..n][..i] == items[..i];
    }
  }

  lemma {:induction false} SomeWeight(items: seq<Item>) returns (i: nat)
    requires |Expand(items)| > 0
    ensures i < |items| && items[i].weight > 0
  {
    var n := |items| - 1;
    if items[n].weight > 0 {
      i := n;
    } else {
      i := SomeWeight(items[..n]);
    }
  }

  /** When no weight is positive the loop's guard holds wherever it looks, so the search has no end. */
  lemma {:induction false} NoWeightNoEnd(items: seq<Item>, i: nat)
    requires |Expand(items)| == 0 && i < |items|
    ensures 0 >= items[i].weight
  {
    var n := |items| - 1;
    if i < n { NoWeightNoEnd(items[..n], i); }
  }

  // ----- any calls in a row -----

  lemma Wraps(start: nat, i: nat, w: nat)
    requires i < w
    ensures var at := start % w; (start + i) % w == if at + i < w then at + i else at + i - w
  {
    var rounds, at := start / w, start % w;
    if at + i < w {
      Divides(start + i, w, rounds, at + i);
    } else {
      assert (rounds + 1) * w == rounds * w + w;
      Divides(start + i, w, rounds + 1, at + i - w);
    }
  }

  /** `n` elements of a sequence repeated for ever, from the `start`-th on. */
  function Window<T>(xs: seq<T>, start: nat, n: nat): seq<T>
    requires xs != []
  {
    seq(n, i requires 0 <= i => xs[(start + i) % |xs|])
  }

  /** As many elements in a row as the sequence has, wherever they start, are its own in another order. */
  lemma AnyWindow<T>(xs: seq<T>, start: nat)
    requires xs != []
    ensures multiset(Window(xs, start, |xs|)) == multiset(xs)
  {
    var w, at := |xs|, start % |xs|;
    assert 0 <= at < w;
    forall i | 0 <= i < w ensures Window(xs, start, w)[i] == (xs[at..] + xs[..at])[i] {
      Wraps(start, i, w);
    }
    assert Window(xs, start, w) == xs[at..] + xs[..at];
    hide Window;
    Rotated(xs, at);
  }

  lemma Rotated<T>(xs: seq<T>, at: nat)
    requires at <= |xs|
    ensures multiset(xs[at..] + xs[..at]) == multiset(xs)
  {
    assert xs == xs[..at] + xs[at..];
  }

  lemma EmptyWindow<T>(xs: seq<T>, start: nat)
    requires xs != []
    ensures Window(xs, start, 0) == []
  {
  }

  lemma NextInWindow<T>(xs: seq<T>, start: nat, n: nat)
    requires xs != []
    ensures Window(xs, start, n + 1) == Window(xs, start, n) + [xs[(start + n) % |xs|]]
  {
  }

  class WeightList {
    var item_list: seq<Item>
    var next_size_iter: nat
    var next_size_weight: nat

    /** Calls of `get_next_size` so far, and full rounds among them. */
    ghost var calls: nat
    ghost var rounds: nat

    ghost predicate Valid()
      reads this
    {
      && (item_list == [] ==> next_size_iter == 0 && next_size_weight == 0 && calls == 0 && rounds == 0)
      && (item_list != [] ==> next_size_iter < |item_list| && next_size_weight <= item_list[next_size_iter].weight
                              && calls == rounds * |Expand(item_list)| + Before(item_list, next_size_iter)
                                          + next_size_weight)
    }

    constructor (items: seq<Item>)
      ensures Valid() && item_list == items && calls == 0
    {
      item_list := items;
      next_size_iter, next_size_weight := 0, 0;
      calls, rounds := 0, 0;
      new;
      assert items[..0] == [];
    }

    /** One entry further round; the place in the expansion stays the same, or starts over. */
    method Skip()
      requires Valid() && item_list != [] && next_size_weight == item_list[next_size_iter].weight
      modifies `next_size_iter, `next_size_weight, `rounds
      ensures Valid() && next_size_weight == 0
      ensures next_size_iter == if old(next_size_iter) + 1 < |item_list| then old(next_size_iter) + 1 else 0
    {
      BeforeSteps(item_list, next_size_iter);
      next_size_iter := next_size_iter + 1;
      next_size_weight := 0;
      if next_size_iter == |item_list| {
        next_size_iter := 0;
        assert item_list[..|item_list|] == item_list;
        assert (rounds + 1) * |Expand(item_list)| == rounds * |Expand(item_list)| + |Expand(item_list)|;
        rounds := rounds + 1;
      }
    }

    /** The `calls`-th size of the expansion repeated for ever, taken from the entry that stands there. */
    method GetNextSize() returns (size: UInt)
      requires Valid() && |Expand(item_list)| > 0
      modifies `next_size_iter, `next_size_weight, `rounds, `calls
      ensures Valid() && calls == old(calls) + 1 && size == Expand(item_list)[old(calls) % |Expand(item_list)|]
      ensures |Entries(item_list)| == |Expand(item_list)|
      ensures next_size_iter == Entries(item_list)[old(calls) % |Entries(item_list)|]
    {
      hide Expand, Before, Entries;
      ghost var stop := SomeWeight(item_list);
      while next_size_weight >= item_list[next_size_iter].weight
        invariant Valid() && item_list != [] && calls == old(calls)
        decreases if next_size_weight > 0 then 1 else 0,
                  if next_size_iter <= stop then stop - next_size_iter else |item_list| - next_size_iter + stop
      {
        Skip();
      }
      PlaceOf(item_list, next_size_iter, next_size_weight);
      Divides(calls, |Expand(item_list)|, rounds, Before(item_list, next_size_iter) + next_size_weight);
      next_size_weight := next_size_weight + 1;
      calls := calls + 1;
      return item_list[next_size_iter].size;
    }

    /** Any number of calls in a row. */
    method NextSizes(n: nat) returns (sizes: seq<UInt>, ghost from: seq<nat>)
      requires Valid() && |Expand(item_list)| > 0
      modifies `next_size_iter, `next_size_weight, `rounds, `calls
      ensures Valid() && calls == old(calls) + n && |Entries(item_list)| == |Expand(item_list)|
      ensures sizes == Window(Expand(item_list), old(calls), n) && from == Window(Entries(item_list), old(calls), n)
    {
      hide Expand, Entries, Window;
      EntriesHaveSizes(item_list);
      sizes, from := [], [];
      var i := 0;
      EmptyWindow(Expand(item_list), calls);
      EmptyWindow(Entries(item_list), calls);
      while i < n
        invariant Valid() && calls == old(calls) + i <= old(calls) + n
        invariant sizes == Window(Expand(item_list), old(calls), i)
        invariant from == Window(Entries(item_list), old(calls), i)
      {
        NextInWindow(Expand(item_list), old(calls), i);
        NextInWindow(Entries(item_list), old(calls), i);
        var size := GetNextSize();
        sizes, from := sizes + [size], from + [next_size_iter];
        i := i + 1;
      }
    }

    /** As many calls in a row as the weights add up to, wherever they start: every entry is used exactly weight times,
        and every size comes exactly as often as its entries' weights say. */
    method FullRound() returns (sizes: seq<UInt>, ghost from: seq<nat>)
      requires Valid() && |Expand(item_list)| > 0
      modifies `next_size_iter, `next_size_weight, `rounds, `calls
      ensures Valid() && calls == old(calls) + |Expand(item_list)| && |sizes| == |from| == |Expand(item_list)|
      ensures forall i :: 0 <= i < |item_list| ==> multiset(from)[i] == item_list[i].weight
      ensures forall size :: multiset(sizes)[size] == WeightOf(item_list, size)
    {
      hide Expand, Entries, WeightOf;
      EntriesHaveSizes(item_list);
      ghost var start := calls;
      sizes, from := NextSizes(|Expand(item_list)|);
      AnyWindow(Expand(item_list), start);
      AnyWindow(Entries(item_list), start);
      forall i | 0 <= i < |item_list| ensures multiset(from)[i] == item_list[i].weight {
        EntryCounts(item_list, i);
      }
      forall size: UInt ensures multiset(sizes)[size] == WeightOf(item_list, size) {
        SizeCounts(item_list, size);
      }
    }
  }

  // ----- printing and parsing -----

  function ItemText(item: Item): string { Dec(item.size) + ([':'] + Dec(item.weight)) }

  /** The list as `print` shows it. */
  function Shown(items: seq<Item>): string
  {
    if items == [] then ""
    else if |items| == 1 then ItemText(items[0])
    else ItemText(items[0]) + ([','] + Shown(items[1..]))
  }

  /** `done` entries before what is parsed from the rest. */
  function Joined(done: seq<Item>, more: Option<seq<Item>>): Option<seq<Item>>
  {
    if more.None? then None else Some(done + more.value)
  }

  /** The parsing constructor on the text up to its NUL; a malformed one clears the list. */
  function Parsed(s: string): Option<seq<Item>>
    decreases |s|
  {
    var p := ScanNumber(s).end;
    if p == |s| || s[p] != ':' then None
    else
      var t := s[p + 1..];
      var q := ScanNumber(t).end;
      var item := Item(StrtoulAsUint(s), StrtoulAsUint(t));
      if q == |t| then Some([item])
      else if t[q] != ',' then None
      else if q + 1 == |t| then Some([item])
      else Joined([item], Parsed(t[q + 1..]))
  }

  function ListOf(str: string): seq<Item>
  {
    var p := Parsed(CString(str));
    if p.None? then [] else p.value
  }

  lemma JoinedTwice(done: seq<Item>, item: Item, more: Option<seq<Item>>)
    ensures Joined(done, Joined([item], more)) == Joined(done + [item], more) && Joined([], more) == more
  {
    assert more.Some? ==> done + ([item] + more.value) == done + [item] + more.value && [] + more.value == more.value;
  }

  lemma ParsedStep(s: string, t: string, rest: string)
    requires var n := ScanNumber(s).end; n < |s| && s[n] == ':' && t == s[n + 1..]
    requires t[ScanNumber(t).end..] == rest
    requires rest == "" || rest[0] == ','
    ensures var item := Item(StrtoulAsUint(s), StrtoulAsUint(t));
            Parsed(s) == if |rest| <= 1 then Some([item]) else Joined([item], Parsed(rest[1..]))
  {
    hide ScanNumber, StrtoulAsUint;
    var m := ScanNumber(t).end;
    assert rest != "" ==> t[m] == rest[0] && t[m + 1..] == rest[1..];
  }

  /** An entry is read off the front, and parsing goes on behind its comma. */
  lemma EntryParses(item: Item, rest: string)
    requires rest == "" || (rest[0] == ',' && |rest| > 1)
    ensures Parsed(ItemText(item) + rest) == if rest == "" then Some([item]) else Joined([item], Parsed(rest[1..]))
  {
    hide ScanNumber, StrtoulAsUint, Dec, Parsed, Joined;
    var x, y := Dec(item.size), Dec(item.weight);
    EntryMoved(x, y, rest);
    EntryShape(x, y, rest);
    NumberInFront(item.size, [':'] + (y + rest));
    NumberInFront(item.weight, rest);
    ParsedStep(x + ([':'] + (y + rest)), y + rest, rest);
  }

  lemma EntryShape(x: string, y: string, rest: string)
    ensures var t := y + rest;
            var s := x + ([':'] + t);
            |x| < |s| && s[|x|] == ':' && s[|x| + 1..] == t && t[|y|..] == rest
    ensures ([':'] + (y + rest))[0] == ':'
  {
  }

  lemma EntryMoved(x: string, y: string, rest: string)
    ensures x + ([':'] + y) + rest == x + ([':'] + (y + rest))
  {
  }

  lemma ShownStarts(items: seq<Item>)
    requires items != []
    ensures Shown(items) != "" && IsDigit(Shown(items)[0])
  {
    assert ItemText(items[0])[0] == Dec(items[0].size)[0];
  }

  lemma {:induction false} ShownParses(items: seq<Item>)
    requires items != []
    ensures Parsed(Shown(items)) == Some(items)
    decreases |items|
  {
    hide Parsed, ItemText;
    if |items| == 1 {
      EntryParses(items[0], "");
      assert ItemText(items[0]) + "" == ItemText(items[0]) && [items[0]] == items;
    } else {
      var tail := Shown(items[1..]);
      ShownStarts(items[1..]);
      EntryParses(items[0], [','] + tail);
      assert ([','] + tail)[1..] == tail && ([','] + tail)[1] == tail[0];
      ShownParses(items[1..]);
      hide Shown;
      assert [items[0]] + items[1..] == items;
    }
  }

  lemma {:induction false} ShownHasNoNul(items: seq<Item>)
    ensures '\0' !in Shown(items)
    decreases |items|
  {
    if items != [] {
      ItemHasNoNul(items[0]);
      ShownHasNoNul(items[1..]);
      hide ItemText;
    }
  }

  lemma ItemHasNoNul(item: Item)
    ensures '\0' !in ItemText(item)
  {
    hide Dec;
  }

  /** Parsing what was printed restores the list. */
  lemma PrintParses(items: seq<Item>)
    ensures ListOf(Shown(items)) == items
  {
    hide Parsed;
    ShownHasNoNul(items);
    if items == [] {
      NothingParses(Shown(items));
    } else {
      hide Shown;
      ShownParses(items);
    }
  }

  lemma NothingParses(s: string)
    requires s == ""
    ensures Parsed(s).None?
  {
    hide ScanNumber, StrtoulAsUint;
  }

  lemma ShownOfOneMore(items: seq<Item>, item: Item)
    ensures Shown(items + [item]) == Shown(items) + ((if items == [] then "" else [',']) + ItemText(item))
    decreases |items|
  {
    hide ItemText;
    var text := ItemText(item);
    if items == [] {
      assert items + [item] == [item] && "" + ("" + text) == text;
    } else {
      assert (items + [item])[1..] == items[1..] + [item];
      ShownOfOneMore(items[1..], item);
      var a, b, c := ItemText(items[0]), Shown(items[1..]), [','] + text;
      if |items| == 1 {
        assert Shown([item]) == text && items[1..] + [item] == [item];
      } else {
        hide Shown;
        Assoc([','], b, c);
        Assoc(a, [','] + b, c);
      }
    }
  }

  /** The printing loop, for a buffer with room for the text and its NUL. */
  method Print(item_list: seq<Item>, buf_len: nat) returns (text: string)
    requires buf_len > |Shown(item_list)|
    ensures text == Shown(item_list)
  {
    hide ItemText;
    text := "";
    var left := buf_len;
    var i := 0;
    assert item_list[..0] == [];
    while i < |item_list|
      invariant 0 <= i <= |item_list| && text == Shown(item_list[..i])
      invariant left + |text| == buf_len
    {
      ShownOfOneMore(item_list[..i], item_list[i]);
      assert item_list[..i] + [item_list[i]] == item_list[..i + 1];
      ShownGrows(item_list, i + 1);
      var piece := (if i != 0 then [','] else "") + ItemText(item_list[i]);
      text := text + piece;
      left := left - |piece|;
      i := i + 1;
    }
    assert item_list[..i] == item_list;
  }

  lemma {:induction false} ShownGrows(items: seq<Item>, i: nat)
    requires i <= |items|
    ensures |Shown(items[..i])| <= |Shown(items)|
    decreases |items| - i
  {
    if i == |items| {
      assert items[..i] == items;
    } else {
      ShownOfOneMore(items[..i], items[i]);
      assert items[..i] + [items[i]] == items[..i + 1];
      ShownGrows(items, i + 1);
    }
  }

  /** One turn of the parsing loop; nothing is left behind the last entry. */
  method ParseEntry(s: string) returns (ok: bool, item: Item, rest: string)
    ensures !ok ==> Parsed(s).None?
    ensures ok ==> |rest| < |s| && Parsed(s) == if rest == "" then Some([item]) else Joined([item], Parsed(rest))
  {
    hide ScanNumber, StrtoulAsUint, Joined;
    ok, item, rest := false, Item(0, 0), "";
    var p := ScanNumber(s).end;
    if p == |s| || s[p] != ':' {
      return;
    }
    var size := StrtoulAsUint(s);
    var t := s[p + 1..];
    p := ScanNumber(t).end;
    var weight := StrtoulAsUint(t);
    if p < |t| && t[p] != ',' {
      return;
    }
    ok, item, rest := true, Item(size, weight), t[p..];
    if rest != "" {
      rest := rest[1..];
    }
  }

  /** The parsing constructor. */
  method Parse(str: string) returns (item_list: seq<Item>)
    ensures item_list == ListOf(str)
  {
    hide Parsed, Joined;
    item_list := [];
    var s := CString(str);
    JoinedTwice([], Item(0, 0), Parsed(s));
    while true
      invariant Parsed(CString(str)) == Joined(item_list, Parsed(s))
      decreases |s|
    {
      var ok, item, rest := ParseEntry(s);
      EntryJoined(item_list, item, Parsed(rest));
      if !ok {
        return [];
      }
      item_list := item_list + [item];
      if rest == "" {
        return;
      }
      s := rest;
    }
  }

  lemma EntryJoined(done: seq<Item>, item: Item, more: Option<seq<Item>>)
    ensures Joined(done, None) == None && Joined(done, Some([item])) == Some(done + [item])
    ensures Joined(done, Joined([item], more)) == Joined(done + [item], more)
  {
    JoinedTwice(done, item, more);
  }
}
