/**
 The room for prepending. It is what the reader index counts, and comes to this: eight bytes at every fresh start, one
 more for each byte read since, one less for each byte prepended since.
 */
module BufferRoom {
  import opened Common
  import opened BufferLayout

  /** After an operation that empties the buffer eight bytes can be prepended, and no more. */
  lemma RoomAfterEmptying(l: Layout, op: Op, data: seq<char>)
    requires l.Valid() && (op == Clear || op == Read(|l.text|))
    ensures Apply(l, op).Some? && Apply(l, op).value.Valid() && Apply(l, op).value.text == []
    ensures Allowed(Apply(l, op).value, Prepend(data)) <==> |data| <= 8
  {
  }

  /** The same for a new buffer. */
  lemma RoomOfNew(initial: nat, data: seq<char>)
    ensures Allowed(Init(initial), Prepend(data)) <==> |data| <= 8
    ensures Init(initial).Writeable() == initial && Init(initial).text == []
  {
  }

  // ---- Over runs ----

  function ReadBytes(ops: seq<Op>): nat {
    if ops == [] then 0
    else ReadBytes(ops[..|ops| - 1]) + (if ops[|ops| - 1].Read? then ops[|ops| - 1].len else 0)
  }

  function PrependedBytes(ops: seq<Op>): nat {
    if ops == [] then 0
    else PrependedBytes(ops[..|ops| - 1]) + (if ops[|ops| - 1].Prepend? then |ops[|ops| - 1].data| else 0)
  }

  /**
   An operation that starts afresh: it empties the buffer, or it asks for more room than there is behind the contents
   while the room in front, beyond its eight bytes, makes up for it.
   */
  predicate Restarts(l: Layout, op: Op) {
    || op == Clear || op == Read(|l.text|)
    || (Request(op) > l.Writeable() && l.Writeable() + (l.reader - 8) >= Request(op))
  }

  /** How many operations there are up to the last fresh start, with it. */
  function LastRestart(initial: nat, ops: seq<Op>): (n: nat)
    ensures n <= |ops|
  {
    if ops == [] then 0
    else
      var before := ops[..|ops| - 1];
      match RunOps(Init(initial), before)
      case None => 0
      case Some(l) => if Restarts(l, ops[|ops| - 1]) then |ops| else LastRestart(initial, before)
  }

  lemma RoomOfStep(l: Layout, op: Op)
    requires l.Valid() && Apply(l, op).Some?
    ensures var reader := Apply(l, op).value.reader;
      if Restarts(l, op) then reader == 8
      else reader == l.reader + (if op.Read? then op.len else 0) - (if op.Prepend? then |op.data| else 0)
  {
  }

  lemma CountsSnoc(ops: seq<Op>, j: nat)
    requires j < |ops|
    ensures var last := ops[|ops| - 1];
      && ReadBytes(ops[j..]) == ReadBytes(ops[..|ops| - 1][j..]) + (if last.Read? then last.len else 0)
      && PrependedBytes(ops[j..]) == PrependedBytes(ops[..|ops| - 1][j..]) + (if last.Prepend? then |last.data| else 0)
  {
    assert ops[j..][..|ops| - 1 - j] == ops[..|ops| - 1][j..];
  }

  lemma {:induction false} RoomSinceRestart(initial: nat, ops: seq<Op>)
    requires RunOps(Init(initial), ops).Some?
    ensures var since := ops[LastRestart(initial, ops)..];
      RunOps(Init(initial), ops).value.reader == 8 + ReadBytes(since) - PrependedBytes(since)
  {
    if ops == [] {
    } else {
      var n := |ops| - 1;
      var l := RunOps(Init(initial), ops[..n]).value;
      RoomSinceRestart(initial, ops[..n]);
      RunRefinesPlain(initial, ops[..n]);
      RoomOfStep(l, ops[n]);
      if Restarts(l, ops[n]) {
        assert ops[|ops|..] == [];
      } else {
        CountsSnoc(ops, LastRestart(initial, ops));
      }
    }
  }

  /**
   Which prepends are allowed, over any run: those that, with what has been prepended since the last fresh start, take
   no more than eight bytes and what has been read since.
   */
  lemma PrependAllowedExactlyWhen(initial: nat, ops: seq<Op>, data: seq<char>)
    requires RunOps(Init(initial), ops).Some?
    ensures var since := ops[LastRestart(initial, ops)..];
      RunOps(Init(initial), ops + [Prepend(data)]).Some? <==> PrependedBytes(since) + |data| <= 8 + ReadBytes(since)
  {
    RoomSinceRestart(initial, ops);
    RunFailsOnlyByCaller(initial, ops, Prepend(data));
  }

  /**
   The room behind the contents, which a caller may fill: a request that finds too little of it leaves exactly what it
   asked for, unless the contents could be moved to the front, which turns all room in front beyond eight bytes into
   room behind them; and no other request changes it.
   */
  lemma RoomBehind(l: Layout, op: Op)
    requires l.Valid() && Apply(l, op).Some? && (op.Append? || op.Reserve?)
    ensures var behind := if op.Append? then |op.data| else 0;
      var found := l.Writeable();
      Apply(l, op).value.Writeable() + behind ==
      if Request(op) <= found then found
      else if Restarts(l, op) then found + l.reader - 8
      else Request(op)
  {
  }

  // ---- What a caller can rely on without knowing any sizes ----

  /** The room that is there whatever the initial size was, from the operations alone. */
  function Promise(ops: seq<Op>): int {
    if ops == [] then 8
    else
      var before := ops[..|ops| - 1];
      match ops[|ops| - 1]
      case Clear => 8
      case Read(len) => if len == |RunPlain(before)| then 8 else Promise(before) + len
      case Prepend(data) => Promise(before) - |data|
      case Fill(_) => Promise(before)
      case _ => if Promise(before) > 8 then 8 else Promise(before)
  }

  /** The caller reads no more than there is, prepends no more than is promised, and does not fill in by itself. */
  predicate Careful(ops: seq<Op>) {
    ops == [] ||
    (var before, last := ops[..|ops| - 1], ops[|ops| - 1];
     Careful(before) && !last.Fill? && (last.Read? ==> last.len <= |RunPlain(before)|)
     && (last.Prepend? ==> |last.data| <= Promise(before)))
  }

  lemma PromiseOfStep(l: Layout, op: Op, promise: int)
    requires l.Valid() && Apply(l, op).Some? && l.reader >= promise && !op.Fill?
    ensures Apply(l, op).value.reader >=
            match op
            case Clear => 8
            case Read(len) => if len == |l.text| then 8 else promise + len
            case Prepend(data) => promise - |data|
            case _ => if promise > 8 then 8 else promise
  {
  }

  /** A careful caller never trips an assert, whatever the initial size, and always finds the promised room. */
  lemma {:induction false} CarefulRunsWork(initial: nat, ops: seq<Op>)
    requires Careful(ops)
    ensures RunOps(Init(initial), ops).Some? && RunOps(Init(initial), ops).value.reader >= Promise(ops)
  {
    if ops == [] {
    } else {
      var n := |ops| - 1;
      CarefulRunsWork(initial, ops[..n]);
      RunRefinesPlain(initial, ops[..n]);
      var l := RunOps(Init(initial), ops[..n]).value;
      ApplyIsPlain(l, ops[n]);
      PromiseOfStep(l, ops[n], Promise(ops[..n]));
    }
  }
}
