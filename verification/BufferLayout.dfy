/**
 src/net/buffer.cpp as arithmetic on its two indices and a byte sequence for what lies between them:
 how much storage there is, where the contents start, and what they are.
 */
module BufferLayout {
  import opened Common

  const CHEAP_PREPEND: nat := 8

  /** What a buffer looks like from outside: its storage size, its reader index and its contents. */
  datatype Layout = Layout(size: nat, reader: nat, text: seq<char>) {
    predicate Valid() {
      CHEAP_PREPEND <= size && reader + |text| <= size
    }

    function Writeable(): int {
      size - reader - |text|
    }
  }

  function Init(initial: nat): Layout {
    Layout(CHEAP_PREPEND + initial, CHEAP_PREPEND, [])
  }

  /** Lines 57 to 70. None stands for a failed assert, here and below. */
  function MakeSpace(l: Layout, len: nat): Option<Layout> {
    if l.Writeable() + l.reader < CHEAP_PREPEND + len then Some(l.(size := l.reader + |l.text| + len))
    else if CHEAP_PREPEND < l.reader then Some(l.(reader := CHEAP_PREPEND))
    else None
  }

  /** Lines 77 to 81. */
  function Ensure(l: Layout, len: nat): Option<Layout> {
    var made := if l.Writeable() < len then MakeSpace(l, len) else Some(l);
    if made.Some? && made.value.Writeable() >= len then made else None
  }

  /** Lines 92 to 95. */
  function MoveReadAll(l: Layout): Layout {
    l.(reader := CHEAP_PREPEND, text := [])
  }

  /** Lines 83 to 90. */
  function MoveReadBackward(l: Layout, len: nat): Option<Layout> {
    if len > |l.text| then None
    else if len < |l.text| then Some(l.(reader := l.reader + len, text := l.text[len..]))
    else Some(MoveReadAll(l))
  }

  /** Lines 108 to 112. */
  function PushBack(l: Layout, data: seq<char>): Option<Layout> {
    match Ensure(l, |data|)
    case None => None
    case Some(m) => Some(m.(text := m.text + data))
  }

  /** Lines 122 to 127. */
  function PushFront(l: Layout, data: seq<char>): Option<Layout> {
    if |data| > l.reader then None
    else Some(l.(reader := l.reader - |data|, text := data + l.text))
  }

  /** Lines 72 to 75, when the bytes behind the contents are `data`. */
  function MoveWriteBackward(l: Layout, data: seq<char>): Option<Layout> {
    if |data| > l.Writeable() then None else Some(l.(text := l.text + data))
  }

  // ---- Runs ----

  datatype Op =
    | Fill(data: seq<char>) // written behind the contents by the caller, then MoveWriteBackward
    | Append(data: seq<char>)
    | Prepend(data: seq<char>)
    | Reserve(len: nat)
    | Read(len: nat)
    | Clear

  function Apply(l: Layout, op: Op): Option<Layout> {
    match op
    case Fill(data) => MoveWriteBackward(l, data)
    case Append(data) => PushBack(l, data)
    case Prepend(data) => PushFront(l, data)
    case Reserve(len) => Ensure(l, len)
    case Read(len) => MoveReadBackward(l, len)
    case Clear => Some(MoveReadAll(l))
  }

  /** What the caller promises: to read no more than there is, and to prepend or fill in no more than has room. */
  predicate Allowed(l: Layout, op: Op) {
    match op
    case Fill(data) => |data| <= l.Writeable()
    case Prepend(data) => |data| <= l.reader
    case Read(len) => len <= |l.text|
    case _ => true
  }

  function RunOps(l: Layout, ops: seq<Op>): Option<Layout> {
    if ops == [] then Some(l)
    else
      match RunOps(l, ops[..|ops| - 1])
      case None => None
      case Some(m) => Apply(m, ops[|ops| - 1])
  }

  /** The same operations on a plain byte sequence. */
  function Plain(text: seq<char>, op: Op): seq<char> {
    match op
    case Fill(data) => text + data
    case Append(data) => text + data
    case Prepend(data) => data + text
    case Reserve(_) => text
    case Read(len) => if len <= |text| then text[len..] else []
    case Clear => []
  }

  function RunPlain(ops: seq<Op>): seq<char> {
    if ops == [] then [] else Plain(RunPlain(ops[..|ops| - 1]), ops[|ops| - 1])
  }

  /** The bytes that one operation asks room for behind the contents. */
  function Request(op: Op): nat {
    match op
    case Append(data) => |data|
    case Reserve(len) => len
    case _ => 0
  }

  function Max(a: nat, b: nat): nat {
    if a >= b then a else b
  }

  /** The largest sum of contents and requested room that occurs while `ops` is carried out. */
  function Peak(ops: seq<Op>): nat {
    if ops == [] then 0
    else Max(Peak(ops[..|ops| - 1]), |RunPlain(ops[..|ops| - 1])| + Request(ops[|ops| - 1]))
  }

  /**
   One operation: it fails only if the caller broke its promise, so the asserts about the reader index
   and about room always hold; the contents change as those of a plain sequence do; storage never
   shrinks, and grows only to at most twice what is needed; and requested room is there afterwards.
   */
  lemma ApplyIsPlain(l: Layout, op: Op)
    requires l.Valid()
    ensures Apply(l, op).Some? <==> Allowed(l, op)
    ensures Apply(l, op).Some? ==>
              var m := Apply(l, op).value;
              && m.Valid() && m.text == Plain(l.text, op)
              && l.size <= m.size <= Max(l.size, 7 + 2 * (|l.text| + Request(op)))
              && (op.Reserve? ==> m.Writeable() >= op.len)
  {
  }

  /** Over every run the buffer contains what a plain byte sequence would, and no assert fails on the way. */
  lemma {:induction false} RunRefinesPlain(initial: nat, ops: seq<Op>)
    requires RunOps(Init(initial), ops).Some?
    ensures RunOps(Init(initial), ops).value.Valid()
    ensures RunOps(Init(initial), ops).value.text == RunPlain(ops)
  {
    if ops == [] {
    } else {
      var n := |ops| - 1;
      RunRefinesPlain(initial, ops[..n]);
      ApplyIsPlain(RunOps(Init(initial), ops[..n]).value, ops[n]);
    }
  }

  /** Storage is bounded by the initial size or by twice the peak demand, whatever the run. */
  lemma {:induction false} SpaceBound(initial: nat, ops: seq<Op>)
    requires RunOps(Init(initial), ops).Some?
    ensures RunOps(Init(initial), ops).value.size <= Max(CHEAP_PREPEND + initial, 7 + 2 * Peak(ops))
  {
    if ops == [] {
    } else {
      var n := |ops| - 1;
      SpaceBound(initial, ops[..n]);
      RunRefinesPlain(initial, ops[..n]);
      ApplyIsPlain(RunOps(Init(initial), ops[..n]).value, ops[n]);
    }
  }

  /** A run goes wrong exactly at the first operation that breaks the caller's promise. */
  lemma RunFailsOnlyByCaller(initial: nat, ops: seq<Op>, op: Op)
    requires RunOps(Init(initial), ops).Some?
    ensures RunOps(Init(initial), ops + [op]).Some? <==> Allowed(RunOps(Init(initial), ops).value, op)
  {
    RunRefinesPlain(initial, ops);
    ApplyIsPlain(RunOps(Init(initial), ops).value, op);
    assert (ops + [op])[..|ops|] == ops;
  }

  /** A line end at a position of a text. */
  predicate CRLFAt(text: seq<char>, i: nat) {
    i + 2 <= |text| && text[i] == '\r' && text[i + 1] == '\n'
  }

  /** A run that has not failed can be continued from any of its prefixes. */
  lemma {:induction false} PrefixRuns(l: Layout, ops: seq<Op>, k: nat)
    requires RunOps(l, ops).Some? && k <= |ops|
    ensures RunOps(l, ops[..k]).Some?
    decreases |ops|
  {
    if k == |ops| {
      assert ops[..k] == ops;
    } else {
      assert ops[..|ops| - 1][..k] == ops[..k];
      PrefixRuns(l, ops[..|ops| - 1], k);
    }
  }
}
