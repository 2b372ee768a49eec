/**
 src/net/buffer.cpp: a growing byte array with a reader and a writer index. The bytes between the two
 are the contents; the first eight bytes are meant for cheap prepending.
 */
module NetBuffer {
  import opened Common
  import opened BufferLayout
  import opened BufferRoom
  import Spec = BufferLayout

  class Buffer {
    var buffer: array<char>
    var reader: nat
    var writer: nat

    ghost predicate Valid()
      reads this
    {
      CHEAP_PREPEND <= buffer.Length && reader <= writer <= buffer.Length
    }

    ghost function View(): Layout
      requires Valid()
      reads this, buffer
    {
      Layout(buffer.Length, reader, buffer[reader..writer])
    }

    constructor (initial: nat)
      ensures Valid() && fresh(buffer) && View() == Spec.Init(initial)
      ensures ReadableBytes() == 0 && WriteableBytes() == initial && PrependableBytes() == 8
    {
      buffer := new char[CHEAP_PREPEND + initial](_ => '\0');
      reader, writer := CHEAP_PREPEND, CHEAP_PREPEND;
    }

    function WriteableBytes(): (n: nat)
      requires Valid()
      reads this, buffer
      ensures n == View().Writeable()
    {
      buffer.Length - writer
    }

    function ReadableBytes(): (n: nat)
      requires Valid()
      reads this, buffer
      ensures n == |View().text|
    {
      writer - reader
    }

    function PrependableBytes(): (n: nat)
      requires Valid()
      reads this
      ensures forall data: seq<char> :: |data| <= n <==> Allowed(View(), Prepend(data))
    {
      reader
    }

    /** Two texts that lie side by side in the storage. */
    lemma Joined(start: nat, first: seq<char>, second: seq<char>)
      requires start + |first| + |second| <= buffer.Length
      requires forall i :: 0 <= i < |first| ==> buffer[start + i] == first[i]
      requires forall i :: 0 <= i < |second| ==> buffer[start + |first| + i] == second[i]
      ensures buffer[start..start + |first| + |second|] == first + second
    {
      var text := buffer[start..start + |first| + |second|];
      forall i | 0 <= i < |text|
        ensures text[i] == (first + second)[i]
      {
        assert i >= |first| ==> buffer[start + |first| + (i - |first|)] == second[i - |first|];
      }
    }

    /** vector::resize to a larger size. */
    method Resize(size: nat)
      requires Valid() && buffer.Length <= size
      modifies this`buffer
      ensures Valid() && fresh(buffer) && View() == old(View()).(size := size)
    {
      var grown := new char[size](_ => '\0');
      forall i | 0 <= i < buffer.Length {
        grown[i] := buffer[i];
      }
      buffer := grown;
    }

    /** std::copy of the contents to the front; source and target may overlap. */
    method CopyDown()
      requires Valid() && CHEAP_PREPEND < reader
      modifies this`reader, this`writer, buffer
      ensures Valid() && View() == old(View()).(reader := CHEAP_PREPEND)
    {
      var n, i := writer - reader, 0;
      ghost var text := View().text;
      while i < n
        invariant 0 <= i <= n && reader == old(reader) && writer == old(writer) && buffer == old(buffer)
        invariant forall k :: 0 <= k < i ==> buffer[CHEAP_PREPEND + k] == text[k]
        invariant forall k :: i <= k < n ==> buffer[reader + k] == text[k]
      {
        buffer[CHEAP_PREPEND + i] := buffer[reader + i];
        i := i + 1;
      }
      reader := CHEAP_PREPEND;
      writer := reader + n;
      Joined(reader, text, []);
      assert text + [] == text;
    }

    /** Lines 57 to 70; both asserts hold whenever the writeable bytes do not suffice. */
    method MakeSpace(len: nat)
      requires Valid() && WriteableBytes() < len
      modifies this, buffer
      ensures Valid() && (buffer == old(buffer) || fresh(buffer))
      ensures Some(View()) == Spec.MakeSpace(old(View()), len)
    {
      if WriteableBytes() + reader < CHEAP_PREPEND + len {
        Resize(writer + len);
      } else {
        assert CHEAP_PREPEND < reader;
        CopyDown();
      }
    }

    /** Lines 77 to 81. */
    method EnsureWriteableBytes(len: nat)
      requires Valid()
      modifies this, buffer
      ensures Valid() && (buffer == old(buffer) || fresh(buffer))
      ensures Some(View()) == Ensure(old(View()), len) && WriteableBytes() >= len
    {
      if WriteableBytes() < len {
        MakeSpace(len);
      }
      assert WriteableBytes() >= len;
    }

    /** Lines 72 to 75: bytes that the caller has written behind the contents become part of them. */
    method MoveWriteBackward(len: nat)
      requires Valid() && len <= WriteableBytes()
      modifies this`writer
      ensures Valid() && View() == old(View()).(text := old(View()).text + buffer[old(writer)..old(writer) + len])
    {
      ghost var text := View().text;
      writer := writer + len;
      assert buffer[reader..writer] == text + buffer[old(writer)..writer];
    }

    /** What a caller of MoveWriteBackward does before: it writes where WriteableAddress points. */
    method WriteBehind(data: seq<char>)
      requires Valid() && |data| <= WriteableBytes()
      modifies buffer
      ensures Valid() && View() == old(View()) && buffer[writer..writer + |data|] == data
    {
      ghost var text := View().text;
      forall i | 0 <= i < |data| {
        buffer[writer + i] := data[i];
      }
      Joined(reader, text, []);
      Joined(writer, data, []);
      assert text + [] == text && data + [] == data;
    }

    /** Lines 108 to 112. */
    method PushBack(data: seq<char>)
      requires Valid()
      modifies this, buffer
      ensures Valid() && (buffer == old(buffer) || fresh(buffer))
      ensures Some(View()) == Spec.PushBack(old(View()), data)
    {
      EnsureWriteableBytes(|data|);
      WriteBehind(data);
      MoveWriteBackward(|data|);
    }

    /** Lines 122 to 127. */
    method PushFront(data: seq<char>)
      requires Valid() && |data| <= PrependableBytes()
      modifies this`reader, buffer
      ensures Valid() && Some(View()) == Spec.PushFront(old(View()), data)
      ensures PrependableBytes() == old(PrependableBytes()) - |data|
    {
      ghost var text := View().text;
      reader := reader - |data|;
      forall i | 0 <= i < |data| {
        buffer[reader + i] := data[i];
      }
      Joined(reader, data, text);
    }

    /** Lines 92 to 95. */
    method MoveReadAll()
      requires Valid()
      modifies this`reader, this`writer
      ensures Valid() && View() == Spec.MoveReadAll(old(View()))
      ensures ReadableBytes() == 0 && PrependableBytes() == 8
    {
      reader, writer := CHEAP_PREPEND, CHEAP_PREPEND;
    }

    /** Lines 83 to 90. */
    method MoveReadBackward(len: nat)
      requires Valid() && len <= ReadableBytes()
      modifies this`reader, this`writer
      ensures Valid() && Some(View()) == Spec.MoveReadBackward(old(View()), len)
      ensures ReadableBytes() == old(ReadableBytes()) - len
      ensures PrependableBytes() == if ReadableBytes() == 0 then 8 else old(PrependableBytes()) + len
    {
      if len < ReadableBytes() {
        reader := reader + len;
      } else {
        MoveReadAll();
      }
    }

    /** Lines 97 to 102. */
    method ReadToString(len: nat) returns (result: seq<char>)
      requires Valid() && len <= ReadableBytes()
      modifies this`reader, this`writer
      ensures Valid() && Some(View()) == Spec.MoveReadBackward(old(View()), len)
      ensures result == old(View()).text[..len] && result + View().text == old(View()).text
    {
      ghost var text := View().text;
      result := buffer[reader..reader + len];
      assert result == text[..len] && text == text[..len] + text[len..];
      MoveReadBackward(len);
    }

    /** Lines 161 to 164: std::search over the readable bytes for the first line end, if there is one. */
    method FindCRLF() returns (at: Option<nat>)
      requires Valid()
      ensures match at
              case None => forall i: nat :: !CRLFAt(View().text, i)
              case Some(k) => CRLFAt(View().text, k) && forall i: nat :: i < k ==> !CRLFAt(View().text, i)
    {
      ghost var text := View().text;
      var i := reader;
      while i + 2 <= writer
        invariant reader <= i
        invariant forall k: nat :: k < i - reader ==> !CRLFAt(text, k)
      {
        assert text[i - reader] == buffer[i] && text[i - reader + 1] == buffer[i + 1];
        if buffer[i] == '\r' && buffer[i + 1] == '\n' {
          assert CRLFAt(text, i - reader);
          return Some(i - reader);
        }
        i := i + 1;
      }
      return None;
    }

    // ---- Whole runs ----

    /** One operation of a caller that keeps its promise. */
    method Do(op: Op)
      requires Valid() && Allowed(View(), op)
      modifies this, buffer
      ensures Valid() && (buffer == old(buffer) || fresh(buffer))
      ensures Some(View()) == Apply(old(View()), op)
    {
      match op {
        case Fill(data) =>
          WriteBehind(data);
          MoveWriteBackward(|data|);
        case Append(data) =>
          PushBack(data);
        case Prepend(data) =>
          PushFront(data);
        case Reserve(len) =>
          EnsureWriteableBytes(len);
        case Read(len) =>
          var text := ReadToString(len);
        case Clear =>
          MoveReadAll();
      }
    }

    /**
     Any sequence of operations, carried out on the array of a new buffer by a caller that keeps its promises:
     the readable bytes are those of a plain byte sequence, the array is within its bound, and there is room in front
     for eight bytes and what was read since the last fresh start, less what was prepended since.
     */
    method Run(initial: nat, ops: seq<Op>)
      requires Valid() && View() == Spec.Init(initial) && RunOps(Spec.Init(initial), ops).Some?
      modifies this, buffer
      ensures Valid() && buffer[reader..writer] == RunPlain(ops)
      ensures old(buffer.Length) <= buffer.Length <= Max(CHEAP_PREPEND + initial, 7 + 2 * Peak(ops))
      ensures var since := ops[LastRestart(initial, ops)..];
        PrependableBytes() == 8 + ReadBytes(since) - PrependedBytes(since)
    {
      for i := 0 to |ops|
        invariant Valid() && Some(View()) == RunOps(Spec.Init(initial), ops[..i])
        invariant buffer == old(buffer) || fresh(buffer)
        invariant old(buffer.Length) <= buffer.Length
      {
        assert ops[..i + 1][..i] == ops[..i];
        PrefixRuns(Spec.Init(initial), ops, i + 1);
        ApplyIsPlain(View(), ops[i]);
        Do(ops[i]);
      }
      assert ops[..|ops|] == ops;
      RunRefinesPlain(initial, ops);
      SpaceBound(initial, ops);
      RoomSinceRestart(initial, ops);
    }
  }
}
