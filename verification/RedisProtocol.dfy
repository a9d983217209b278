/** The redis protocol object: the parser of `RedisReply` with its array elements as objects on the heap, linked and
    filled in place. */
module RedisProtocol {
  import opened CText
  import opened Protocol
  import opened Fragmentation
  import opened RedisReply
  import opened RedisArrays

  datatype MbulkLevel = MbulkLevel(mbulk_count: UInt, mbulk: MbulkElement)

  /** An object holds what the node says, its children being the objects of those numbers. */
  ghost predicate Mirrors(e: MbulkElement, node: Node, elements: seq<MbulkElement>)
    reads e
  {
    match node
    case Leaf(v, n) => e.value == Some(v) && e.value_len == n && e.mbulk_array == []
    case Array(cs) =>
      && e.value == None && |e.mbulk_array| == |cs|
      && forall k :: 0 <= k < |cs| ==> cs[k] < |elements| && e.mbulk_array[k] == elements[cs[k]]
  }

  lemma MirrorsAmongMore(e: MbulkElement, node: Node, elements: seq<MbulkElement>, more: seq<MbulkElement>)
    requires Mirrors(e, node, elements)
    ensures Mirrors(e, node, elements + more)
  {
  }

  ghost predicate Distinct(elements: seq<MbulkElement>)
  {
    forall i, j :: 0 <= i < j < |elements| ==> elements[i] != elements[j]
  }

  ghost predicate AllMirror(elements: seq<MbulkElement>, tree: seq<Node>)
    reads elements
  {
    |elements| == |tree| && forall i :: 0 <= i < |tree| ==> Mirrors(elements[i], tree[i], elements)
  }

  class RedisProtocol {
    var m_read_buf: string
    var m_keep_value: bool
    var m_response_state: ResponseState
    var m_bulk_len: UInt
    var m_response_len: nat
    const m_last_response: ProtocolResponse
    var current_mbulk_level: seq<MbulkLevel>

    // The elements of the current array reply in the order they were made, and what they hold by number.
    ghost var elements: seq<MbulkElement>
    ghost var tree: seq<Node>
    ghost var levels: seq<Level>

    ghost predicate LevelsMirror()
      reads `elements, `tree, `levels, `current_mbulk_level
    {
      && |levels| == |current_mbulk_level|
      && forall k :: 0 <= k < |levels| ==>
           && IsArray(tree, levels[k].node) && levels[k].node < |elements|
           && current_mbulk_level[k] == MbulkLevel(levels[k].count, elements[levels[k].node])
    }

    /** The objects are the tree; what is left out is only that open levels go with `rs_read_mbulk`. */
    ghost predicate Linked()
      reads this, m_last_response, elements
    {
      && Distinct(elements) && AllMirror(elements, tree) && LevelsMirror()
      && m_last_response.m_mbulk_value == if elements == [] then null else elements[0]
    }

    ghost predicate Valid()
      reads this, m_last_response, elements
    {
      Linked() && (m_response_state == ReadMbulk <==> levels != [])
    }

    ghost function View(): SoundParser
      reads this, m_last_response, elements
      requires Valid()
    {
      RedisParser(m_response_state, m_bulk_len, m_response_len, m_last_response.View(), tree, levels, m_keep_value)
    }

    constructor ()
      ensures Valid() && m_read_buf == "" && elements == [] && fresh(m_last_response)
      ensures View() == RedisParser(Initial, 0, 0, Cleared, [], [], false)
    {
      m_read_buf, m_keep_value := "", false;
      m_response_state, m_bulk_len, m_response_len := Initial, 0, 0;
      current_mbulk_level, elements, tree, levels := [], [], [], [];
      m_last_response := new ProtocolResponse();
    }

    method LinkElement(element: MbulkElement, ghost node: Node)
      requires Linked() && levels != []
      requires element !in elements && Mirrors(element, node, []) && (node.Array? ==> node.children == [])
      modifies `elements, `tree, current_mbulk_level[|current_mbulk_level| - 1].mbulk`mbulk_array
      ensures Linked() && elements == old(elements) + [element]
      ensures tree == Link(old(tree), levels[|levels| - 1].node, node)
    {
      var mbulk := current_mbulk_level[|current_mbulk_level| - 1].mbulk;
      ghost var parent := levels[|levels| - 1].node;
      assert Mirrors(mbulk, tree[parent], elements);
      mbulk.mbulk_array := mbulk.mbulk_array + [element];
      elements := elements + [element];
      tree := Link(tree, parent, node);
      forall i | 0 <= i < |tree| ensures Mirrors(elements[i], tree[i], elements) {
        if i == parent {
          assert tree[i] == Array(old(tree)[parent].children + [|elements| - 1]);
        } else if i < |tree| - 1 {
          assert elements[i] != mbulk && tree[i] == old(tree[i]);
          assert Mirrors(elements[i], tree[i], old(elements));
          MirrorsAmongMore(elements[i], tree[i], old(elements), [element]);
        } else {
          MirrorsAmongMore(element, node, [], elements);
          assert [] + elements == elements;
        }
      }
    }

    /** Hangs a new element under the array on top of the stack, and takes that array off once it is owed nothing. */
    method AddMbulkValue(element: MbulkElement, ghost node: Node)
      requires Linked() && levels != []
      requires element !in elements && Mirrors(element, node, []) && (node.Array? ==> node.children == [])
      modifies `current_mbulk_level, `elements, `tree, `levels
      modifies current_mbulk_level[|current_mbulk_level| - 1].mbulk`mbulk_array
      ensures Linked() && elements == old(elements) + [element]
      ensures tree == Link(old(tree), old(levels[|levels| - 1].node), node)
      ensures levels == CountDown(old(levels))
    {
      hide AsUint32, AllMirror, Mirrors, Link, Distinct;
      LinkElement(element, node);
      var top := |current_mbulk_level| - 1;
      var cur := current_mbulk_level[top];
      var count := AsUint32(cur.mbulk_count - 1);
      current_mbulk_level := current_mbulk_level[top := cur.(mbulk_count := count)];
      if count == 0 {
        current_mbulk_level := current_mbulk_level[..top];
      }
      levels := CountDown(levels);
    }

    /** The same for an array, which becomes the top of the stack even when its parent has just left it. */
    method AddMbulkArray(element: MbulkElement, count: UInt)
      requires Linked() && levels != []
      requires element !in elements && Mirrors(element, Array([]), [])
      modifies `current_mbulk_level, `elements, `tree, `levels
      modifies current_mbulk_level[|current_mbulk_level| - 1].mbulk`mbulk_array
      ensures Linked() && elements == old(elements) + [element]
      ensures tree == Link(old(tree), old(levels[|levels| - 1].node), Array([]))
      ensures levels == CountDown(old(levels)) + [Level(count, |old(tree)|)]
    {
      AddMbulkValue(element, Array([]));
      current_mbulk_level := current_mbulk_level + [MbulkLevel(count, element)];
      levels := levels + [Level(count, |tree| - 1)];
    }

    /** The turn of the loop that has led to the present fields. */
    ghost function TurnTaken(ret: Option<int>): Turn
      reads this, m_last_response, elements
      requires Valid()
    {
      match ret
      case None => Again(View(), m_read_buf)
      case Some(r) => Return(Call(View(), m_read_buf, r))
    }

    /** A new array reply: its root, alone on the stack. */
    method OpenRoot(count: UInt)
      requires Valid() && m_response_state == Initial
      modifies this, m_last_response
      ensures Valid() && m_read_buf == old(m_read_buf)
      ensures View() == old(View()).(tree := [Array([])], levels := [Level(count, 0)], state := ReadMbulk)
      ensures forall i :: 0 <= i < |elements| ==> fresh(elements[i])
    {
      var mbulk := new MbulkElement.Array();
      m_last_response.m_mbulk_value := mbulk;
      current_mbulk_level := [MbulkLevel(count, mbulk)];
      elements, tree, levels := [mbulk], [Array([])], [Level(count, 0)];
      m_response_state := ReadMbulk;
    }

    method CleanUp(line: string)
      requires Valid() && m_response_state == Initial
      modifies this, m_last_response
      ensures Valid() && elements == [] && m_read_buf == old(m_read_buf)
      ensures View() == Cleaned(old(View()), line)
    {
      m_response_len := |line| + 2;
      m_last_response.Clear();
      elements, tree := [], [];
    }

    /** `rs_initial`, a line having been read. Some(ret) is a `return ret`. */
    method ActOnFirstLine(line: string) returns (ret: Option<int>)
      requires Valid() && m_response_state == Initial
      modifies this, m_last_response
      ensures Valid() && TurnTaken(ret) == OnFirstLine(old(View()), line, old(m_read_buf))
      ensures forall i :: 0 <= i < |elements| ==> fresh(elements[i])
    {
      hide StartReply, AllMirror, Distinct, LevelsMirror;
      CleanUp(line);
      ret := ActOnReply(line);
    }

    method ActOnReply(line: string) returns (ret: Option<int>)
      requires Valid() && m_response_state == Initial && elements == [] && m_last_response.View() == Cleared
      modifies this, m_last_response
      ensures Valid() && TurnTaken(ret) == StartReply(old(View()), line, old(m_read_buf))
      ensures forall i :: 0 <= i < |elements| ==> fresh(elements[i])
    {
      hide NumberOn, AsUint32;
      var c := FirstChar(line);
      if c == '*' {
        var count := NumberOn(line);
        if count == -1 {
          m_last_response.SetStatus(line);
          return Some(1);
        }
        OpenRoot(AsUint32(count));
        m_last_response.SetStatus(line);
        return None;
      } else if c == '$' {
        var len := NumberOn(line);
        if len == -1 {
          m_last_response.SetStatus(line);
          return Some(1);
        }
        m_bulk_len := AsUint32(len);
        m_response_state := ReadBulk;
        m_last_response.SetStatus(line);
        return None;
      } else if c == '+' || c == '-' || c == ':' {
        m_last_response.SetStatus(line);
        m_last_response.SetTotalLen(m_response_len);
        if c == '-' {
          m_last_response.SetError(true);
        }
        return Some(1);
      } else {
        return Some(-1);
      }
    }

    /** A value element: linked in, and done when no array is open any more. */
    method TakeValue(text: string, len: UInt) returns (ret: Option<int>)
      requires Valid() && m_response_state == ReadMbulk
      modifies this, elements
      ensures Valid() && m_read_buf == old(m_read_buf)
      ensures TurnTaken(ret) == Continue(AddValue(old(View()), Leaf(text, len)), m_read_buf)
      ensures forall i :: 0 <= i < |elements| ==> elements[i] in old(elements) || fresh(elements[i])
    {
      hide AsUint32, CountDown, Link, AllMirror;
      var mbulk := new MbulkElement.Value(text, len);
      assert mbulk !in elements;
      AddMbulkValue(mbulk, Leaf(text, len));
      if |current_mbulk_level| == 0 {
        m_response_state := Initial;
        return Some(1);
      }
      return None;
    }

    /** An array element: linked in, and open. */
    method TakeArray(line: string, count: UInt)
      requires Valid() && m_response_state == ReadMbulk
      modifies this, m_last_response, elements
      ensures Valid() && m_read_buf == old(m_read_buf)
      ensures View() == WithStatus(AddArray(old(View()), count), line)
      ensures forall i :: 0 <= i < |elements| ==> elements[i] in old(elements) || fresh(elements[i])
    {
      hide CountDown, Link, AllMirror;
      var mbulk := new MbulkElement.Array();
      assert mbulk !in elements;
      AddMbulkArray(mbulk, count);
      m_last_response.SetStatus(line);
    }

    /** `rs_read_mbulk`, a line having been read. */
    method ActOnElementLine(line: string) returns (ret: Option<int>)
      requires Valid() && m_response_state == ReadMbulk
      modifies this, m_last_response, elements
      ensures Valid() && TurnTaken(ret) == OnElementLine(old(View()), line, old(m_read_buf))
      ensures forall i :: 0 <= i < |elements| ==> elements[i] in old(elements) || fresh(elements[i])
    {
      hide AsUint32, NumberOn, CString, AddValue, AddArray, WithStatus, Continue, AllMirror, Distinct, LevelsMirror,
          Taken, Drained;
      m_response_len := |line|;
      var c := FirstChar(line);
      if c == '*' {
        var count := NumberOn(line);
        TakeArray(line, AsUint32(count));
        return None;
      } else if c == ':' {
        var bulk_value := CString(line[1..]);
        ret := TakeValue(bulk_value, AsUint32(|bulk_value|));
      } else if c == '$' {
        m_bulk_len := AsUint32(NumberOn(line));
        if |m_read_buf| >= AsUint32(m_bulk_len + 2) {
          var bulk_value := Taken(m_read_buf, m_bulk_len);
          m_read_buf := Drained(m_read_buf, m_bulk_len);
          m_read_buf := Drained(m_read_buf, 2);
          ret := TakeValue(bulk_value, m_bulk_len);
        } else {
          return Some(0);
        }
      } else {
        return None;
      }
    }

    /** `rs_read_bulk`. */
    method ActOnBulkBody() returns (ret: Option<int>)
      requires Valid() && m_response_state == ReadBulk
      modifies this, m_last_response
      ensures Valid() && TurnTaken(ret) == OnBulkBody(old(View()), old(m_read_buf))
      ensures elements == old(elements)
    {
      hide AsUint32, AllMirror, Distinct, LevelsMirror, Taken, Drained;
      if |m_read_buf| >= AsUint32(m_bulk_len + 2) {
        if m_keep_value && m_bulk_len > 0 {
          var bulk_value := Taken(m_read_buf, m_bulk_len);
          m_read_buf := Drained(m_read_buf, m_bulk_len);
          m_read_buf := Drained(m_read_buf, 2);
          m_last_response.SetValue(bulk_value, m_bulk_len);
        } else {
          m_read_buf := Drained(m_read_buf, AsUint32(m_bulk_len + 2));
        }
        m_response_state := Initial;
        m_last_response.SetTotalLen(m_response_len + m_bulk_len + 2);
        if m_bulk_len > 0 {
          m_last_response.IncrHits();
        }
        return Some(1);
      } else {
        return Some(0);
      }
    }

    /** The body of the loop: one state of the switch. */
    method TakeTurn() returns (ret: Option<int>)
      requires Valid()
      modifies this, m_last_response, elements
      ensures Valid() && TurnTaken(ret) == Iterate(old(View()), old(m_read_buf))
      ensures forall i :: 0 <= i < |elements| ==> elements[i] in old(elements) || fresh(elements[i])
    {
      hide OnFirstLine, OnElementLine, OnBulkBody, AllMirror, Distinct, LevelsMirror;
      if m_response_state == ReadBulk {
        ret := ActOnBulkBody();
      } else {
        var l := Readln(m_read_buf);
        if l == None {
          m_response_len := 0;
          return Some(0);
        }
        m_read_buf := l.value.rest;
        if m_response_state == Initial {
          ret := ActOnFirstLine(l.value.text);
        } else {
          ret := ActOnElementLine(l.value.text);
        }
      }
    }

    method ParseResponse() returns (ret: int)
      requires Valid()
      modifies this, m_last_response, elements
      ensures Valid()
      ensures var c := Parse(old(View()), old(m_read_buf)); View() == c.state && m_read_buf == c.rest && ret == c.ret
      ensures forall i :: 0 <= i < |elements| ==> elements[i] in old(elements) || fresh(elements[i])
    {
      hide Iterate, AllMirror, Distinct, LevelsMirror;
      while true
        invariant Valid()
        invariant Parse(View(), m_read_buf) == Parse(old(View()), old(m_read_buf))
        invariant forall i :: 0 <= i < |elements| ==> elements[i] in old(elements) || fresh(elements[i])
        decreases |m_read_buf|
      {
        IterateConsumes(View(), m_read_buf);
        var r := TakeTurn();
        if r != None {
          return r.value;
        }
      }
    }
  }

  // ----- what the caller walks -----

  /** Following the pointers from `e` shows the tree `t`. */
  ghost predicate Walks(e: MbulkElement, t: Tree, among: set<MbulkElement>)
    reads among
    decreases t
  {
    e in among &&
    match t
    case Value(v) => e.value == Some(v) && e.mbulk_array == []
    case Branch(ts) =>
      && e.value == None && |e.mbulk_array| == |ts|
      && forall k :: 0 <= k < |ts| ==> Walks(e.mbulk_array[k], ts[k], among)
  }

  lemma {:induction false} DecodedWalks(elements: seq<MbulkElement>, tree: seq<Node>, i: nat)
    requires AllMirror(elements, tree) && Closed(tree, i, |tree|) && i < |tree|
    ensures Walks(elements[i], Decode(tree, i, |tree|), set e <- elements)
    decreases |tree| - i
  {
    assert Mirrors(elements[i], tree[i], elements);
    if tree[i].Array? {
      var cs := tree[i].children;
      forall k | 0 <= k < |cs|
        ensures Walks(elements[cs[k]], Decode(tree, cs[k], |tree|), set e <- elements)
      {
        DecodedWalks(elements, tree, cs[k]);
      }
    }
  }

  /** With a whole array reply in the buffer, one call leaves exactly that tree hanging from `m_mbulk_value`, and the
      bytes behind the reply in the buffer. */
  method ReceiveArray(c: RedisProtocol, ghost r: Reply, ghost rest: string) returns (ret: int)
    requires c.Valid() && c.m_response_state == Initial
    requires r.Arr? && Buildable(r) && RedisArrays.Valid(r) && c.m_read_buf == Encode(r) + rest
    modifies c, c.m_last_response, c.elements
    ensures c.Valid() && ret == 1 && c.m_read_buf == rest && c.m_response_state == Initial
    ensures c.m_last_response.m_mbulk_value != null
    ensures Walks(c.m_last_response.m_mbulk_value, Shape(r), set e <- c.elements)
  {
    hide Parse, Encode, Buildable;
    BuildsTree(c.View(), r, rest);
    ret := c.ParseResponse();
    DecodedWalks(c.elements, c.tree, 0);
  }
}
