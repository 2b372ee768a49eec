/** src/logger/log_stream.cpp: printing into a fixed buffer. */
module LogStreams {
  import opened Common
  import opened FixedBuffers
  import opened Numerals

  const SMALL_BUFFER: nat := 4000
  const MAX_NUMERIC_SIZE: nat := 48

  // ---- C++ integer division and the digit table ----

  /** Division of C++ integers: the quotient is truncated toward zero. */
  function TruncDiv(a: int, b: nat): int
    requires b > 0
  {
    if a >= 0 then a / b else -(-a / b)
  }

  /** The remainder of C++ integers: it has the sign of the dividend. */
  function TruncMod(a: int, b: nat): int
    requires b > 0
  {
    if a >= 0 then a % b else -(-a % b)
  }

  /** The symmetric table: zero[lsd] is SIGNED_DIGITS[9 + lsd] for -9 <= lsd <= 9. */
  const SIGNED_DIGITS: string := "9876543210123456789"

  function Magnitude(i: int): nat {
    if i < 0 then -i else i
  }

  /** The table makes the sign of the remainder irrelevant. */
  lemma SignedDigit(i: int)
    ensures -9 <= TruncMod(i, 10) <= 9
    ensures SIGNED_DIGITS[9 + TruncMod(i, 10)] == DIGITS[Magnitude(i) % 10]
    ensures Magnitude(TruncDiv(i, 10)) == Magnitude(i) / 10
  {
    var d := TruncMod(i, 10);
    assert SIGNED_DIGITS == ['9', '8', '7', '6', '5', '4', '3', '2', '1', '0',
                             '1', '2', '3', '4', '5', '6', '7', '8', '9'];
    assert DIGITS == ['0', '1', '2', '3', '4', '5', '6', '7', '8', '9', 'A', 'B', 'C', 'D', 'E', 'F'];
    assert Magnitude(d) == Magnitude(i) % 10;
  }

  // ---- Reversal ----

  function Reversed(s: seq<char>): (r: seq<char>)
    ensures |r| == |s|
  {
    if s == [] then [] else Reversed(s[1..]) + [s[0]]
  }

  lemma {:induction false} ReversedAt(s: seq<char>, k: nat)
    requires k < |s|
    ensures Reversed(s)[k] == s[|s| - 1 - k]
  {
    if k == |s| - 1 {
    } else {
      ReversedAt(s[1..], k);
    }
  }

  lemma {:induction false} ReversedAppend(s: seq<char>, c: char)
    ensures Reversed(s + [c]) == [c] + Reversed(s)
  {
    if s == [] {
    } else {
      ReversedAppend(s[1..], c);
      assert (s + [c])[1..] == s[1..] + [c];
    }
  }

  lemma IsReversed(s: seq<char>, was: seq<char>)
    requires |s| == |was| && forall k :: 0 <= k < |s| ==> s[k] == was[|was| - 1 - k]
    ensures s == Reversed(was)
  {
    forall k | 0 <= k < |s|
      ensures s[k] == Reversed(was)[k]
    {
      ReversedAt(was, k);
    }
  }

  lemma IsReversedRange(s: seq<char>, was: seq<char>, lo: nat, hi: nat)
    requires lo <= hi <= |s| == |was|
    requires forall k :: lo <= k < hi ==> s[k] == was[lo + hi - 1 - k]
    ensures s[lo..hi] == Reversed(was[lo..hi])
  {
    IsReversed(s[lo..hi], was[lo..hi]);
  }

  /** std::reverse on a[lo..hi]. */
  method ReverseRange(a: array<char>, lo: nat, hi: nat)
    requires lo <= hi <= a.Length
    modifies a
    ensures a[lo..hi] == Reversed(old(a[lo..hi]))
    ensures a[..lo] == old(a[..lo]) && a[hi..] == old(a[hi..])
  {
    ghost var was := a[..];
    var i, j := lo, hi;
    while i + 1 < j
      invariant lo <= i <= j <= hi && i - lo == hi - j
      invariant forall k :: 0 <= k < lo || i <= k < j || hi <= k < a.Length ==> a[k] == was[k]
      invariant forall k :: lo <= k < i || j <= k < hi ==> a[k] == was[lo + hi - 1 - k]
    {
      j := j - 1;
      a[i], a[j] := a[j], a[i];
      i := i + 1;
    }
    IsReversedRange(a[..], was, lo, hi);
  }

  // ---- The digit loops ----

  /** The numeral of what a digit loop still has to print after a turn; empty when nothing is left. */
  function Rest(i: nat, base: nat): string
    requires 2 <= base <= 16
  {
    if i == 0 then "" else Numeral(i, base)
  }

  /** One turn of a digit loop: the digit written last is the next more significant one. */
  lemma DigitStep(text: string, high: string, c: char, written: seq<char>)
    requires text == high + [c] + Reversed(written)
    ensures text == high + Reversed(written + [c])
    ensures |text| == |high| + |written| + 1
  {
    ReversedAppend(written, c);
    Assoc(high, [c], Reversed(written));
  }

  /** A turn of a digit loop for `n`, in any base. */
  lemma Turn(text: string, n: nat, base: nat, c: char, written: seq<char>)
    requires 2 <= base <= 16 && c == DIGITS[n % base]
    requires text == Numeral(n, base) + Reversed(written)
    ensures text == Rest(n / base, base) + Reversed(written + [c])
    ensures |text| == |Rest(n / base, base)| + |written| + 1
    ensures n > 0 ==> n / base < n
  {
    NumeralSplits(n, base);
    DivideBase(n, base);
    DigitStep(text, Rest(n / base, base), c, written);
  }

  /** Writes the terminator behind the digits and turns them round. */
  method Terminate(data: array<char>, start: nat, cur: nat)
    requires start <= cur < data.Length
    modifies data
    ensures data[..cur] == old(data[..start]) + Reversed(old(data[start..cur]))
    ensures data[cur] == '\0'
  {
    data[cur] := '\0';
    ReverseRange(data, start, cur);
    assert data[..cur] == data[..start] + data[start..cur];
    assert data[cur] == data[cur..][0];
  }

  /** The last digit of an integer of either sign, and what is left of the integer. */
  method NextDigit(i: int) returns (c: char, rest: int)
    ensures c == DIGITS[Magnitude(i) % 10] && Magnitude(rest) == Magnitude(i) / 10
  {
    SignedDigit(i);
    var lsd := TruncMod(i, 10);
    rest := TruncDiv(i, 10);
    c := SIGNED_DIGITS[9 + lsd];
  }

  /** The do-while loop of FormatInteger: the digits of `v`, least significant first, from `start` on. */
  method WriteDigits(data: array<char>, start: nat, v: int) returns (cur: nat)
    requires start + |Numeral(Magnitude(v), 10)| <= data.Length
    modifies data
    ensures cur == start + |Numeral(Magnitude(v), 10)|
    ensures Reversed(data[start..cur]) == Numeral(Magnitude(v), 10)
    ensures data[..start] == old(data[..start])
  {
    cur := start;
    var i := v;
    ghost var text := Numeral(Magnitude(v), 10);
    while true
      invariant start <= cur <= data.Length
      invariant data[..start] == old(data[..start])
      invariant text == Numeral(Magnitude(i), 10) + Reversed(data[start..cur])
      decreases Magnitude(i)
    {
      ghost var written := data[start..cur];
      ghost var n := Magnitude(i);
      var c, rest := NextDigit(i);
      Turn(text, n, 10, c, written);
      i := rest;
      data[cur] := c;
      cur := cur + 1;
      assert data[start..cur] == written + [c];
      if i == 0 {
        break;
      }
    }
  }

  /** The do-while loop of the address printer, in base 16. */
  method WriteHexDigits(data: array<char>, start: nat, p: nat) returns (cur: nat)
    requires start + |Numeral(p, 16)| <= data.Length
    modifies data
    ensures cur == start + |Numeral(p, 16)|
    ensures Reversed(data[start..cur]) == Numeral(p, 16)
    ensures data[..start] == old(data[..start])
  {
    cur := start;
    var i := p;
    ghost var text := Numeral(p, 16);
    while true
      invariant start <= cur <= data.Length
      invariant data[..start] == old(data[..start])
      invariant text == Numeral(i, 16) + Reversed(data[start..cur])
      decreases i
    {
      ghost var written := data[start..cur];
      Turn(text, i, 16, DIGITS[i % 16], written);
      var lsd := i % 16;
      i := i / 16;
      data[cur] := DIGITS[lsd];
      cur := cur + 1;
      assert data[start..cur] == written + [DIGITS[lsd]];
      if i == 0 {
        break;
      }
    }
  }

  // ---- The stream ----

  /** One operand of <<, by the way it is printed. */
  datatype Chunk =
    | Text(text: string)      // Append, bool, char, strings, buffers
    | Integer(value: int)     // every integer type
    | Address(pointer: nat)   // const void *
    | Floating(text: string)  // double: what "%.12g" produced

  /** What a caller can pass: integers of at most 64 bits, and numbers that print in under 48 characters. */
  predicate Legal(chunk: Chunk) {
    match chunk
    case Text(_) => true
    case Integer(v) => Printable(v)
    case Address(p) => p <= MAX_UINT64
    case Floating(text) => |text| < MAX_NUMERIC_SIZE
  }

  function Render(chunk: Chunk): string {
    match chunk
    case Text(text) => text
    case Integer(v) => Decimal(v)
    case Address(p) => "0x" + Numeral(p, 16)
    case Floating(text) => text
  }

  /** Text must leave a byte free; anything numeric needs 48 free bytes, however short it prints. */
  predicate Fits(size: nat, used: nat, chunk: Chunk) {
    if chunk.Text? then used + |chunk.text| < size else used + MAX_NUMERIC_SIZE <= size
  }

  /** The contents after offering one chunk. */
  function Offer(size: nat, contents: string, chunk: Chunk): string {
    if Fits(size, |contents|, chunk) then contents + Render(chunk) else contents
  }

  // ---- Whole streams ----

  /** The contents of a fresh stream after offering `chunks` one after the other. */
  function OfferAll(size: nat, chunks: seq<Chunk>): string {
    if chunks == [] then ""
    else Offer(size, OfferAll(size, chunks[..|chunks| - 1]), chunks[|chunks| - 1])
  }

  /** Chunk `k` fitted at the moment it was offered. */
  predicate FittedWhenOffered(size: nat, chunks: seq<Chunk>, k: nat)
    requires k < |chunks|
  {
    Fits(size, |OfferAll(size, chunks[..k])|, chunks[k])
  }

  /** What chunk `k` adds: all of it if it fitted when offered, and nothing otherwise. */
  function Added(size: nat, chunks: seq<Chunk>, k: nat): string
    requires k < |chunks|
  {
    if FittedWhenOffered(size, chunks, k) then Render(chunks[k]) else ""
  }

  /** The texts of the chunks from `k` on that fitted when offered, joined in order. */
  function JoinFitted(size: nat, chunks: seq<Chunk>, k: nat): string
    requires k <= |chunks|
    decreases |chunks| - k
  {
    if k == |chunks| then "" else Added(size, chunks, k) + JoinFitted(size, chunks, k + 1)
  }

  lemma OfferAdds(size: nat, chunks: seq<Chunk>, k: nat)
    requires k < |chunks|
    ensures OfferAll(size, chunks[..k + 1]) == OfferAll(size, chunks[..k]) + Added(size, chunks, k)
  {
    assert chunks[..k + 1][..k] == chunks[..k];
    assert OfferAll(size, chunks[..k]) + "" == OfferAll(size, chunks[..k]);
  }

  /**
   The contents are the in-order join of exactly the chunks that fitted when offered: what was there
   after `k` chunks is a prefix that never changes, and the rest is the join of the later ones.
   */
  lemma {:induction false} ContentsAreFittedChunks(size: nat, chunks: seq<Chunk>, k: nat)
    requires k <= |chunks|
    ensures OfferAll(size, chunks) == OfferAll(size, chunks[..k]) + JoinFitted(size, chunks, k)
    decreases |chunks| - k
  {
    if k == |chunks| {
      assert chunks[..k] == chunks;
    } else {
      ContentsAreFittedChunks(size, chunks, k + 1);
      OfferAdds(size, chunks, k);
      Assoc(OfferAll(size, chunks[..k]), Added(size, chunks, k), JoinFitted(size, chunks, k + 1));
    }
  }

  /** Every number is shorter than the space that is required for it. */
  lemma NumbersAreShort(chunk: Chunk)
    requires Legal(chunk) && !chunk.Text?
    ensures |Render(chunk)| < MAX_NUMERIC_SIZE
  {
    match chunk
    case Integer(v) => DecimalLength(v);
    case Address(p) => AddressLength(p);
    case Floating(_) =>
  }

  /** A stream never becomes full: one byte always stays free, so the terminator is always in bounds. */
  lemma {:induction false} NeverFull(size: nat, chunks: seq<Chunk>)
    requires size > 0 && forall chunk :: chunk in chunks ==> Legal(chunk)
    ensures |OfferAll(size, chunks)| < size
  {
    if chunks == [] {
    } else {
      var n := |chunks| - 1;
      NeverFull(size, chunks[..n]);
      if !chunks[n].Text? {
        NumbersAreShort(chunks[n]);
      }
    }
  }

  /** What an integer adds to a stream with room for it is a canonical decimal text, and reads back as the integer. */
  lemma PrintedIntegerReadsBack(size: nat, contents: string, v: int)
    requires |contents| + MAX_NUMERIC_SIZE <= size
    ensures var text := Offer(size, contents, Integer(v))[|contents|..];
      IsDecimal(text) && ParseDecimal(text) == v
  {
    DecimalIsTheOnlyOne(v, Decimal(v));
    assert (contents + Decimal(v))[|contents|..] == Decimal(v);
  }

  /** What an address adds is canonical in base 16 behind its 0x, and reads back as the address. */
  lemma PrintedAddressReadsBack(size: nat, contents: string, p: nat)
    requires |contents| + MAX_NUMERIC_SIZE <= size && p <= MAX_UINT64
    ensures var text := Offer(size, contents, Address(p))[|contents|..];
      |text| <= 18 && text[..2] == "0x" && IsNumeral(text[2..], 16) && Parse(text[2..], 16) == p
  {
    NumeralIsTheOnlyOne(p, 16, Numeral(p, 16));
    AddressLength(p);
    assert (contents + ("0x" + Numeral(p, 16)))[|contents|..] == "0x" + Numeral(p, 16);
    assert ("0x" + Numeral(p, 16))[2..] == Numeral(p, 16);
  }

  lemma BehindPrefix(contents: string, p: nat)
    ensures var all := contents + ("0x" + Numeral(p, 16));
      contents + "0x" <= all && IsNumeral(all[|contents| + 2..], 16) && Parse(all[|contents| + 2..], 16) == p
  {
    NumeralIsTheOnlyOne(p, 16, Numeral(p, 16));
    assert (contents + ("0x" + Numeral(p, 16)))[|contents| + 2..] == Numeral(p, 16);
  }

  class LogStream {
    const buffer: FixedBuffer

    ghost predicate Valid()
      reads this, buffer
    {
      buffer.Valid() && buffer.data.Length == SMALL_BUFFER
    }

    ghost function Contents(): string
      requires Valid()
      reads this, buffer, buffer.data
    {
      buffer.Contents()
    }

    constructor ()
      ensures Valid() && fresh(buffer) && fresh(buffer.data) && Contents() == ""
    {
      buffer := new FixedBuffer(SMALL_BUFFER);
    }

    method Append(text: string)
      requires Valid()
      modifies buffer, buffer.data
      ensures Valid() && Contents() == Offer(SMALL_BUFFER, old(Contents()), Text(text))
      ensures Contents() == old(Contents()) + (if |old(Contents())| + |text| < 4000 then text else "")
    {
      assert old(Contents()) + "" == old(Contents());
      buffer.Append(text);
    }

    method PutBool(v: bool)
      requires Valid()
      modifies buffer, buffer.data
      ensures Valid() && Contents() == Offer(SMALL_BUFFER, old(Contents()), Text(if v then "1" else "0"))
      ensures Contents() == old(Contents()) + (if |old(Contents())| + 1 < 4000 then if v then "1" else "0" else "")
    {
      assert old(Contents()) + "" == old(Contents());
      buffer.Append(if v then "1" else "0");
    }

    method PutFloating(text: string)
      requires Valid() && Legal(Floating(text))
      modifies buffer, buffer.data
      ensures Valid() && Contents() == Offer(SMALL_BUFFER, old(Contents()), Floating(text))
      ensures Contents() == old(Contents()) + (if |old(Contents())| + 48 <= 4000 then text else "")
    {
      assert old(Contents()) + "" == old(Contents());
      if buffer.Avail() < MAX_NUMERIC_SIZE {
        return;
      }
      forall i | 0 <= i < |text| {
        buffer.data[buffer.cur + i] := text[i];
      }
      assert buffer.data[..buffer.cur] == old(Contents());
      buffer.Add(|text|);
    }

    /** The minus sign of a negative number, behind its digits. */
    static method PutSign(data: array<char>, start: nat, cur: nat, v: int) returns (end: nat)
      requires start <= cur < data.Length && cur == start + |Numeral(Magnitude(v), 10)|
      requires Reversed(data[start..cur]) == Numeral(Magnitude(v), 10)
      modifies data
      ensures cur <= end <= cur + 1 && end == start + |Decimal(v)|
      ensures Reversed(data[start..end]) == Decimal(v) && data[..start] == old(data[..start])
    {
      end := cur;
      if v < 0 {
        ghost var written := data[start..cur];
        ReversedAppend(written, '-');
        data[cur] := '-';
        end := cur + 1;
        assert data[start..end] == written + ['-'];
      }
    }

    /** Prints an integer behind the first `start` characters. */
    static method WriteInteger(data: array<char>, start: nat, v: int) returns (cur: nat)
      requires Printable(v) && start + MAX_NUMERIC_SIZE <= data.Length
      modifies data
      ensures cur == start + |Decimal(v)| < data.Length
      ensures data[..cur] == old(data[..start]) + Decimal(v) && data[cur] == '\0'
    {
      DecimalLength(v);
      cur := WriteDigits(data, start, v);
      cur := PutSign(data, start, cur, v);
      Terminate(data, start, cur);
    }

    /** Prints any integer without ever negating it, least significant digit first, then reverses. */
    method FormatInteger(v: int)
      requires Valid() && Printable(v)
      modifies buffer, buffer.data
      ensures Valid() && Contents() == Offer(SMALL_BUFFER, old(Contents()), Integer(v))
      ensures if |old(Contents())| + 48 > 4000 then Contents() == old(Contents())
              else old(Contents()) <= Contents() && IsDecimal(Contents()[|old(Contents())|..])
                   && ParseDecimal(Contents()[|old(Contents())|..]) == v
    {
      if buffer.Avail() < MAX_NUMERIC_SIZE {
        return;
      }
      PrintedIntegerReadsBack(SMALL_BUFFER, Contents(), v);
      var start := buffer.cur;
      var cur := WriteInteger(buffer.data, start, v);
      buffer.Add(cur - start);
    }

    /** Prints an address behind the first `start` characters. */
    static method WriteAddress(data: array<char>, start: nat, p: nat) returns (cur: nat)
      requires p <= MAX_UINT64 && start + MAX_NUMERIC_SIZE <= data.Length
      modifies data
      ensures cur == start + 2 + |Numeral(p, 16)| < data.Length
      ensures data[..cur] == old(data[..start]) + ("0x" + Numeral(p, 16)) && data[cur] == '\0'
    {
      ghost var was := data[..start];
      AddressLength(p);
      Assoc(was, "0x", Numeral(p, 16));
      data[start] := '0';
      data[start + 1] := 'x';
      assert data[..start + 2] == was + "0x";
      cur := WriteHexDigits(data, start + 2, p);
      Terminate(data, start + 2, cur);
    }

    /** Prints an address in base 16. */
    method PutAddress(p: nat)
      requires Valid() && Legal(Address(p))
      modifies buffer, buffer.data
      ensures Valid() && Contents() == Offer(SMALL_BUFFER, old(Contents()), Address(p))
      ensures if |old(Contents())| + 48 > 4000 then Contents() == old(Contents())
              else old(Contents()) + "0x" <= Contents() && IsNumeral(Contents()[|old(Contents())| + 2..], 16)
                   && Parse(Contents()[|old(Contents())| + 2..], 16) == p
    {
      if buffer.Avail() < MAX_NUMERIC_SIZE {
        return;
      }
      BehindPrefix(Contents(), p);
      var start := buffer.cur;
      var cur := WriteAddress(buffer.data, start, p);
      buffer.Add(cur - start);
    }

    method ResetBuffer()
      requires Valid()
      modifies buffer
      ensures Valid() && Contents() == ""
    {
      buffer.Reset();
    }

    /** One operand of <<. */
    method Put(chunk: Chunk)
      requires Valid() && Legal(chunk)
      modifies buffer, buffer.data
      ensures Valid() && Contents() == Offer(SMALL_BUFFER, old(Contents()), chunk)
    {
      match chunk {
        case Text(text) => Append(text);
        case Integer(value) => FormatInteger(value);
        case Address(pointer) => PutAddress(pointer);
        case Floating(text) => PutFloating(text);
      }
    }

    /**
     Any operands, printed one after the other into a stream that has been reset: it contains the in-order join of
     exactly those that fitted when they were offered, and at least one byte stays free.
     */
    method PutAll(chunks: seq<Chunk>)
      requires Valid() && forall chunk :: chunk in chunks ==> Legal(chunk)
      modifies buffer, buffer.data
      ensures Valid() && Contents() == JoinFitted(SMALL_BUFFER, chunks, 0) && |Contents()| < SMALL_BUFFER
    {
      ResetBuffer();
      for i := 0 to |chunks|
        invariant Valid() && Contents() == OfferAll(SMALL_BUFFER, chunks[..i])
      {
        assert chunks[..i + 1][..i] == chunks[..i];
        Put(chunks[i]);
      }
      assert chunks[..|chunks|] == chunks;
      ContentsAreFittedChunks(SMALL_BUFFER, chunks, 0);
      NeverFull(SMALL_BUFFER, chunks);
    }
  }
}
