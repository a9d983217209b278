/** The key list of a multi-get: keys copied one behind the other into one buffer, and rendered by the memcached text
    writer in the order they were added. */
module KeyList {
  import opened CText

  datatype Entry = Entry(start: nat, len: nat)

  /** Longest key the initial buffer has room for in every slot. */
  const MAX_KEY: nat := 255

  /** Entries lie one behind the other, a NUL after each, the last one ending before `used`; `used` grows by at most a
      slot for each. */
  ghost predicate Packed(entries: seq<Entry>, used: nat)
  {
    && used <= 256 * |entries|
    && (forall i :: 0 <= i < |entries| ==> entries[i].start + entries[i].len < used)
    && forall i, j :: 0 <= i < j < |entries| ==> entries[i].start + entries[i].len < entries[j].start
  }

  function TextAt(buffer: seq<char>, e: Entry): string
    requires e.start + e.len <= |buffer|
  {
    buffer[e.start..e.start + e.len]
  }

  ghost function KeysIn(buffer: seq<char>, entries: seq<Entry>): (keys: seq<string>)
    requires forall e <- entries :: e.start + e.len <= |buffer|
    ensures |keys| == |entries|
  {
    seq(|entries|, i requires 0 <= i < |entries| => TextAt(buffer, entries[i]))
  }

  class KeyList {
    const m_buffer: array<char>
    var m_buffer_ptr: nat
    const m_keys: array<Entry>
    const m_keys_size: nat
    var m_keys_count: nat

    ghost predicate Valid()
      reads this, m_keys
    {
      && m_keys.Length == m_keys_size && m_buffer.Length == 256 * m_keys_size
      && m_keys_count <= m_keys_size
      && Packed(m_keys[..m_keys_count], m_buffer_ptr)
    }

    /** The keys, in the order they were added. */
    ghost function Keys(): (keys: seq<string>)
      reads this, m_keys, m_buffer
      requires Valid()
      ensures |keys| == m_keys_count
    {
      KeysIn(m_buffer[..], m_keys[..m_keys_count])
    }

    constructor (max_keys: nat)
      ensures Valid() && m_keys_size == max_keys && Keys() == []
      ensures fresh(m_buffer) && fresh(m_keys)
    {
      m_keys_size := max_keys;
      m_keys := new Entry[max_keys](_ => Entry(0, 0));
      m_buffer := new char[256 * max_keys](_ => '\0');
      m_buffer_ptr, m_keys_count := 0, 0;
    }

    /** Refuses a key only when all slots are taken. The test that would enlarge the buffer never succeeds for keys this
        short, so no pointer handed out before goes stale. */
    method AddKey(key: string) returns (added: bool)
      requires Valid() && |key| <= MAX_KEY
      modifies this, m_buffer, m_keys
      ensures Valid() && added == (old(m_keys_count) < m_keys_size)
      ensures Keys() == if added then old(Keys()) + [key] else old(Keys())
    {
      if m_keys_count >= m_keys_size {
        return false;
      }
      assert m_buffer_ptr + |key| < m_buffer.Length;

      ghost var before, entries := m_buffer[..], m_keys[..m_keys_count];
      var start := m_buffer_ptr;
      forall i | 0 <= i < |key| {
        m_buffer[start + i] := key[i];
      }
      m_buffer[start + |key|] := '\0';
      m_keys[m_keys_count] := Entry(start, |key|);

      m_buffer_ptr := m_buffer_ptr + |key| + 1;
      m_keys_count := m_keys_count + 1;
      assert m_keys[..m_keys_count] == entries + [Entry(start, |key|)];
      assert m_buffer[..][start..start + |key|] == key;
      forall i | 0 <= i < |entries| ensures TextAt(m_buffer[..], entries[i]) == TextAt(before, entries[i]) {
        assert forall k :: 0 <= k < start ==> m_buffer[..][k] == before[k];
      }
      return true;
    }

    method GetKeysCount() returns (n: nat)
      requires Valid()
      ensures n == |Keys()|
    {
      n := m_keys_count;
    }

    method GetKey(index: nat) returns (key: Option<string>)
      requires Valid()
      ensures key == if index < |Keys()| then Some(Keys()[index]) else None
    {
      if index >= m_keys_count {
        return None;
      }
      var e := m_keys[index];
      assert e == m_keys[..m_keys_count][index];
      key := Some(m_buffer[e.start..e.start + e.len]);
      assert m_buffer[..][e.start..e.start + e.len] == m_buffer[e.start..e.start + e.len];
    }

    method Clear()
      requires Valid()
      modifies this
      ensures Valid() && Keys() == []
    {
      m_keys_count := 0;
      m_buffer_ptr := 0;
    }
  }

  // ----- rendering -----

  /** Each key behind a space. */
  function Spaced(keys: seq<string>): string
  {
    if keys == [] then "" else " " + keys[0] + Spaced(keys[1..])
  }

  lemma {:induction false} SpacedAppends(keys: seq<string>, key: string)
    ensures Spaced(keys + [key]) == Spaced(keys) + (" " + key)
  {
    if keys == [] {
      assert [] + [key] == [key] && Spaced([key]) == " " + key + Spaced([]);
    } else {
      assert (keys + [key])[1..] == keys[1..] + [key];
      SpacedAppends(keys[1..], key);
    }
  }

  class TextWriter {
    var m_write_buf: string

    constructor ()
      ensures m_write_buf == ""
    {
      m_write_buf := "";
    }

    method WriteCommandMultiGet(keylist: KeyList) returns (size: nat)
      requires keylist.Valid() && keylist.Keys() != []
      modifies this
      ensures m_write_buf == old(m_write_buf) + ("get" + Spaced(keylist.Keys()) + "\r\n")
      ensures size == |"get" + Spaced(keylist.Keys()) + "\r\n"|
    {
      hide Spaced;
      ghost var before, keys := m_write_buf, keylist.Keys();
      m_write_buf := m_write_buf + "get";
      size := 3;
      SpacedNone();
      var count := keylist.GetKeysCount();
      var i := 0;
      while i < count
        invariant 0 <= i <= count == |keys| && keylist.Valid() && keylist.Keys() == keys
        invariant m_write_buf == before + "get" + Spaced(keys[..i])
        invariant size == 3 + |Spaced(keys[..i])|
      {
        ghost var done := m_write_buf;
        m_write_buf := m_write_buf + " ";
        size := size + 1;
        var key := keylist.GetKey(i);
        m_write_buf := m_write_buf + key.value;
        size := size + |key.value|;
        SpacedAppends(keys[..i], keys[i]);
        AppendWord(before + "get", Spaced(keys[..i]), keys[i]);
        assert keys[..i + 1] == keys[..i] + [keys[i]];
        i := i + 1;
      }
      assert keys[..i] == keys;
      m_write_buf := m_write_buf + "\r\n";
      size := size + 2;
      AppendEnd(before, "get", Spaced(keys), "\r\n");
    }
  }

  lemma SpacedNone()
    ensures Spaced([]) == ""
  {
  }

  lemma AppendWord(x: string, s: string, key: string)
    ensures x + s + " " + key == x + (s + (" " + key))
  {
  }

  lemma AppendEnd(x: string, a: string, b: string, c: string)
    ensures x + a + b + c == x + (a + b + c)
  {
  }

  // ----- what a server reads -----

  /** Splits at spaces. */
  function Words(line: string): seq<string>
  {
    if line == "" then [""]
    else
      var more := Words(line[1..]);
      if line[0] == ' ' then [""] + more else [[line[0]] + more[0]] + more[1..]
  }

  lemma {:induction false} WordThenMore(word: string, rest: string)
    requires ' ' !in word
    ensures Words(word + rest) == [word + Words(rest)[0]] + Words(rest)[1..]
  {
    if word == "" {
      assert word + rest == rest && "" + Words(rest)[0] == Words(rest)[0];
    } else {
      assert word[0] in word && (word + rest)[1..] == word[1..] + rest;
      WordThenMore(word[1..], rest);
      assert [word[0]] + (word[1..] + Words(rest)[0]) == word + Words(rest)[0];
    }
  }

  /** The rendered line splits back into "get" and the keys, each once, in the order they were added. */
  lemma {:induction false} MultiGetReadsBack(name: string, keys: seq<string>)
    requires ' ' !in name && forall k <- keys :: ' ' !in k
    ensures Words(name + Spaced(keys)) == [name] + keys
    decreases |keys|
  {
    WordThenMore(name, Spaced(keys));
    if keys != [] {
      assert keys[0] in keys;
      var tail := keys[0] + Spaced(keys[1..]);
      assert Spaced(keys) == " " + tail && Spaced(keys)[1..] == tail;
      MultiGetReadsBack(keys[0], keys[1..]);
      assert name + "" == name && [keys[0]] + keys[1..] == keys;
    } else {
      assert name + "" == name;
    }
  }
}
