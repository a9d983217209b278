/** What every protocol object owns: the last response it has parsed. */
module Protocol {
  import opened CText

  /** A response as the caller sees it, apart from the array part of a redis reply. `value` is None where the source
      holds NULL. */
  datatype Response = Response(
    status: Option<string>,
    value: Option<string>,
    valueLen: nat,
    totalLen: nat,
    hits: nat,
    error: bool)

  const Cleared := Response(None, None, 0, 0, 0, false)

  /** One element of a redis array reply: a value, or (with no value) an array of elements. */
  class MbulkElement {
    const value: Option<string>
    const value_len: nat
    var mbulk_array: seq<MbulkElement>

    constructor Array()
      ensures value == None && value_len == 0 && mbulk_array == []
    {
      value, value_len, mbulk_array := None, 0, [];
    }

    constructor Value(text: string, len: nat)
      ensures value == Some(text) && value_len == len && mbulk_array == []
    {
      value, value_len, mbulk_array := Some(text), len, [];
    }
  }

  class ProtocolResponse {
    var m_status: Option<string>
    var m_value: Option<string>
    var m_mbulk_value: MbulkElement?
    var m_value_len: nat
    var m_total_len: nat
    var m_hits: nat
    var m_error: bool

    ghost function View(): Response
      reads this
    {
      Response(m_status, m_value, m_value_len, m_total_len, m_hits, m_error)
    }

    constructor ()
      ensures View() == Cleared && m_mbulk_value == null
    {
      m_status, m_value, m_mbulk_value := None, None, null;
      m_value_len, m_total_len, m_hits, m_error := 0, 0, 0, false;
    }

    method SetStatus(status: string)
      modifies this
      ensures View() == old(View()).(status := Some(status)) && m_mbulk_value == old(m_mbulk_value)
    {
      m_status := Some(status);
    }

    method SetError(error: bool)
      modifies this
      ensures View() == old(View()).(error := error) && m_mbulk_value == old(m_mbulk_value)
    {
      m_error := error;
    }

    method SetValue(value: string, len: nat)
      modifies this
      ensures View() == old(View()).(value := Some(value), valueLen := len) && m_mbulk_value == old(m_mbulk_value)
    {
      m_value, m_value_len := Some(value), len;
    }

    method SetTotalLen(len: int)
      modifies this
      ensures View() == old(View()).(totalLen := AsUint32(len)) && m_mbulk_value == old(m_mbulk_value)
    {
      m_total_len := AsUint32(len);
    }

    method IncrHits()
      modifies this
      ensures View() == old(View()).(hits := old(m_hits) + 1) && m_mbulk_value == old(m_mbulk_value)
    {
      m_hits := m_hits + 1;
    }

    method Clear()
      modifies this
      ensures View() == Cleared && m_mbulk_value == null
    {
      m_status, m_value, m_mbulk_value := None, None, null;
      m_value_len, m_total_len, m_hits, m_error := 0, 0, 0, false;
    }
  }
}
