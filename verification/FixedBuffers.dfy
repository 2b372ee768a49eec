/** src/logger/fixed_buffer.h: a byte array of fixed size with a write cursor. */
module FixedBuffers {

  class FixedBuffer {
    const data: array<char>
    var cur: nat

    ghost predicate Valid()
      reads this
    {
      cur <= data.Length
    }

    /** What has been written so far. */
    ghost function Contents(): seq<char>
      requires Valid()
      reads this, data
    {
      data[..cur]
    }

    constructor (size: nat)
      ensures Valid() && fresh(data)
      ensures data.Length == size && Contents() == []
    {
      data := new char[size](_ => '\0');
      cur := 0;
    }

    function Avail(): (n: nat)
      requires Valid()
      reads this
      ensures n + |Contents()| == data.Length
    {
      data.Length - cur
    }

    function Length(): (n: nat)
      requires Valid()
      reads this
      ensures n == |Contents()|
    {
      cur
    }

    /** Appends all of `text` if that leaves at least one byte free, and nothing otherwise. */
    method Append(text: seq<char>)
      requires Valid()
      modifies this`cur, data
      ensures Valid()
      ensures Contents() == if |text| < old(Avail()) then old(Contents()) + text else old(Contents())
    {
      if Avail() > |text| {
        forall i | 0 <= i < |text| {
          data[cur + i] := text[i];
        }
        cur := cur + |text|;
        assert data[..old(cur)] == old(data[..cur]);
      }
    }

    /** Moves the cursor over bytes that the caller has already written behind it. */
    method Add(len: nat)
      requires Valid() && len <= Avail()
      modifies this`cur
      ensures Valid() && cur == old(cur) + len
    {
      cur := cur + len;
    }

    method Reset()
      modifies this`cur
      ensures Valid() && Contents() == []
    {
      cur := 0;
    }

    method BZero()
      requires Valid()
      modifies data
      ensures forall i :: 0 <= i < data.Length ==> data[i] == '\0'
    {
      forall i | 0 <= i < data.Length {
        data[i] := '\0';
      }
    }
  }
}
