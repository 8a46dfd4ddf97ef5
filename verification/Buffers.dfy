/** The reference-counted table of large data buffers. */
module Buffers {
  import opened Options
  import Text

  const UINT32 := 0x1_0000_0000
  const SIZE_T := 0x1_0000_0000_0000_0000

  type Id = string

  datatype DataType = Float32 | Float64 | Int32 | Int64 | UInt32 | UInt64 | UInt8 | Invalid

  function SizeOf(t: DataType): nat {
    match t
    case Float32 => 4 case Float64 => 8
    case Int32 => 4 case UInt32 => 4
    case Int64 => 8 case UInt64 => 8
    case UInt8 => 1 case Invalid => 0
  }

  /** The sizes of the element types in bytes. */
  lemma ElementSizes()
    ensures SizeOf(UInt8) == 1 && SizeOf(Invalid) == 0
    ensures SizeOf(Float32) == SizeOf(Int32) == SizeOf(UInt32) == 4
    ensures SizeOf(Float64) == SizeOf(Int64) == SizeOf(UInt64) == 8
  {
  }

  datatype Entry = Entry(dataType: DataType, count: nat, byteSize: nat, refs: nat)

  datatype State = State(buffers: map<Id, Entry>, next: nat)

  const Start := State(map[], 1)

  function BufferId(ms: int, n: nat): Id {
    Text.StampedId("buffer_", '_', ms, n)
  }

  /** `ms` is the clock reading, `granted` whether `malloc` succeeded. */
  datatype Op =
    | Create(dataType: DataType, count: nat, ms: int, granted: bool)
    | Get(id: Id)
    | Release(id: Id)
    | ClearAll

  predicate Creates(op: Op) {
    op.Create? && op.dataType != Invalid && op.granted
  }

  function NewEntry(op: Op): Entry
    requires op.Create?
  {
    Entry(op.dataType, op.count, op.count * SizeOf(op.dataType) % SIZE_T, 1)
  }

  function Step(s: State, op: Op): State {
    match op
    case Create(_, _, ms, _) =>
      if !Creates(op) then s
      else
        var id := BufferId(ms, s.next);
        State(if id in s.buffers then s.buffers else s.buffers[id := NewEntry(op)], s.next + 1)
    case Get(id) =>
      if id !in s.buffers then s
      else s.(buffers := s.buffers[id := s.buffers[id].(refs := (s.buffers[id].refs + 1) % UINT32)])
    case Release(id) =>
      if id !in s.buffers then s
      else
        var refs := (s.buffers[id].refs - 1) % UINT32;
        if refs == 0 then s.(buffers := s.buffers - {id})
        else s.(buffers := s.buffers[id := s.buffers[id].(refs := refs)])
    case ClearAll => s.(buffers := map[])
  }

  function Run(ops: seq<Op>): State {
    if ops == [] then Start else Step(Run(ops[..|ops| - 1]), ops[|ops| - 1])
  }

  // ---- Identifiers --------------------------------------------------------

  /** The identifier returned by operation `c`. */
  function IdAt(ops: seq<Op>, c: nat): Id
    requires c < |ops| && Creates(ops[c])
  {
    BufferId(ops[c].ms, Run(ops[..c]).next)
  }

  lemma {:induction false} CounterGrows(ops: seq<Op>, i: nat, j: nat)
    requires i <= j <= |ops|
    ensures Run(ops[..i]).next <= Run(ops[..j]).next
    ensures i < j && Creates(ops[i]) ==> Run(ops[..i]).next < Run(ops[..j]).next
  {
    if i < j {
      assert ops[..j][..j - 1] == ops[..j - 1];
      CounterGrows(ops, i, j - 1);
    }
  }

  /** Identifiers never repeat, whatever the clock reads. */
  lemma IdsNeverRepeat(ops: seq<Op>, c: nat, d: nat)
    requires c < d < |ops| && Creates(ops[c]) && Creates(ops[d])
    ensures IdAt(ops, c) != IdAt(ops, d)
  {
    CounterGrows(ops, c, d);
    Text.StampedIdsDiffer("buffer_", '_', ops[c].ms, Run(ops[..c]).next, ops[d].ms, Run(ops[..d]).next);
  }

  /** Everything in the table was named with a counter already used. */
  lemma {:induction false} TableIdsUsed(ops: seq<Op>, id: Id) returns (ms: int, n: nat)
    requires id in Run(ops).buffers
    ensures n < Run(ops).next && id == BufferId(ms, n)
  {
    var front, op := ops[..|ops| - 1], ops[|ops| - 1];
    if id in Run(front).buffers {
      ms, n := TableIdsUsed(front, id);
    } else {
      ms, n := op.ms, Run(front).next;
    }
  }

  lemma NewIdIsFresh(ops: seq<Op>, ms: int)
    ensures BufferId(ms, Run(ops).next) !in Run(ops).buffers
  {
    var id := BufferId(ms, Run(ops).next);
    if id in Run(ops).buffers {
      var ms', n := TableIdsUsed(ops, id);
      Text.StampedIdsDiffer("buffer_", '_', ms', n, ms, Run(ops).next);
    }
  }

  // ---- Presence -----------------------------------------------------------

  function Delta(op: Op, id: Id): int {
    if op == Get(id) then 1 else if op == Release(id) then -1 else 0
  }

  /** 1 + gets - releases of `id` strictly between `c` and `i`. */
  function Balance(ops: seq<Op>, id: Id, c: nat, i: nat): int
    requires c < i <= |ops|
    decreases i
  {
    if i == c + 1 then 1 else Balance(ops, id, c, i - 1) + Delta(ops[i - 1], id)
  }

  /** Up to `i` the balance stayed positive and nothing was cleared. */
  ghost predicate Alive(ops: seq<Op>, id: Id, c: nat, i: nat)
    requires c < i <= |ops|
  {
    && (forall k :: c < k <= i ==> Balance(ops, id, c, k) > 0)
    && (forall k :: c < k < i ==> !ops[k].ClearAll?)
  }

  /** A release between `c` and `i` that brought the balance to a positive multiple of 2^32. */
  ghost predicate Wraps(ops: seq<Op>, id: Id, c: nat, k: nat)
    requires c < k < |ops|
  {
    && ops[k] == Release(id)
    && Balance(ops, id, c, k + 1) > 0 && Balance(ops, id, c, k + 1) % UINT32 == 0
  }

  ghost predicate Wrapped(ops: seq<Op>, id: Id, c: nat, i: nat)
    requires c < i <= |ops|
  {
    exists k :: c < k < i && Wraps(ops, id, c, k)
  }

  /** After `i` operations the buffer created at `c` is in the table as the history says. */
  ghost predicate Agrees(ops: seq<Op>, c: nat, i: nat)
    requires c < i <= |ops| && Creates(ops[c])
  {
    var id, table := IdAt(ops, c), Run(ops[..i]).buffers;
    if Alive(ops, id, c, i) && !Wrapped(ops, id, c, i)
    then
      && id in table && table[id].dataType == ops[c].dataType && table[id].count == ops[c].count
      && table[id].byteSize == ops[c].count * SizeOf(ops[c].dataType) % SIZE_T
      && table[id].refs == Balance(ops, id, c, i) % UINT32
    else id !in table
  }

  /** Counting modulo 2^32 and counting exactly agree modulo 2^32. */
  lemma ModStep(x: int, d: int)
    ensures (x % UINT32 + d) % UINT32 == (x + d) % UINT32
  {
    var q := x / UINT32;
    assert x == q * UINT32 + x % UINT32;
    ModAdd(x % UINT32 + d, q);
  }

  lemma {:induction false} ModAdd(x: int, q: int)
    ensures (x + q * UINT32) % UINT32 == x % UINT32
    decreases if q < 0 then -q else q
  {
    if q > 0 {
      ModAdd(x, q - 1);
      assert x + q * UINT32 == (x + (q - 1) * UINT32) + UINT32;
    } else if q < 0 {
      ModAdd(x, q + 1);
      assert x + (q + 1) * UINT32 == (x + q * UINT32) + UINT32;
    }
  }

  /** What one operation does to an entry it does not create. */
  lemma EntryMoves(s: State, op: Op, id: Id)
    requires id in s.buffers && (Creates(op) ==> BufferId(op.ms, s.next) != id)
    requires 0 <= s.buffers[id].refs < UINT32
    ensures
      var refs, after := (s.buffers[id].refs + Delta(op, id)) % UINT32, Step(s, op).buffers;
      if op.ClearAll? || (op == Release(id) && refs == 0) then id !in after
      else id in after && after[id] == s.buffers[id].(refs := refs)
  {
  }

  lemma StaysAbsent(s: State, op: Op, id: Id)
    requires id !in s.buffers && (Creates(op) ==> BufferId(op.ms, s.next) != id)
    ensures id !in Step(s, op).buffers
  {
  }

  lemma RunNext(ops: seq<Op>, i: nat)
    requires i < |ops|
    ensures Run(ops[..i + 1]) == Step(Run(ops[..i]), ops[i])
  {
    assert ops[..i + 1][..i] == ops[..i];
  }

  lemma JustCreated(ops: seq<Op>, c: nat)
    requires c < |ops| && Creates(ops[c])
    ensures Agrees(ops, c, c + 1)
  {
    RunNext(ops, c);
    NewIdIsFresh(ops[..c], ops[c].ms);
  }

  /** No later operation creates the same identifier. */
  lemma NotCreatedAgain(ops: seq<Op>, c: nat, i: nat)
    requires c < i < |ops| && Creates(ops[c])
    ensures Creates(ops[i]) ==> BufferId(ops[i].ms, Run(ops[..i]).next) != IdAt(ops, c)
  {
    if Creates(ops[i]) {
      IdsNeverRepeat(ops, c, i);
    }
  }

  lemma WrappedStep(ops: seq<Op>, id: Id, c: nat, i: nat)
    requires c < i < |ops|
    ensures Wrapped(ops, id, c, i + 1) <==> Wrapped(ops, id, c, i) || Wraps(ops, id, c, i)
  {
  }

  /** The entry's count is the balance `b`, modulo 2^32, and stays so. */
  lemma EntryFollows(s: State, op: Op, id: Id, e: Entry, b: int)
    requires id in s.buffers && s.buffers[id] == e.(refs := b % UINT32)
    requires Creates(op) ==> BufferId(op.ms, s.next) != id
    ensures
      var b', after := b + Delta(op, id), Step(s, op).buffers;
      if op.ClearAll? || (op == Release(id) && b' % UINT32 == 0) then id !in after
      else id in after && after[id] == e.(refs := b' % UINT32)
  {
    ModStep(b, Delta(op, id));
    EntryMoves(s, op, id);
  }

  lemma AgreesWhilePresent(ops: seq<Op>, c: nat, i: nat)
    requires c < i < |ops| && Creates(ops[c]) && Agrees(ops, c, i)
    requires Alive(ops, IdAt(ops, c), c, i) && !Wrapped(ops, IdAt(ops, c), c, i)
    ensures Agrees(ops, c, i + 1)
  {
    var id := IdAt(ops, c);
    RunNext(ops, i);
    NotCreatedAgain(ops, c, i);
    AliveStep(ops, id, c, i + 1);
    WrappedStep(ops, id, c, i);
    assert Balance(ops, id, c, i) > 0;
    EntryFollows(Run(ops[..i]), ops[i], id, NewEntry(ops[c]), Balance(ops, id, c, i));
  }

  lemma AgreesStep(ops: seq<Op>, c: nat, i: nat)
    requires c < i < |ops| && Creates(ops[c]) && Agrees(ops, c, i)
    ensures Agrees(ops, c, i + 1)
  {
    var id := IdAt(ops, c);
    if Alive(ops, id, c, i) && !Wrapped(ops, id, c, i) {
      AgreesWhilePresent(ops, c, i);
    } else {
      RunNext(ops, i);
      NotCreatedAgain(ops, c, i);
      AliveStep(ops, id, c, i + 1);
      WrappedStep(ops, id, c, i);
      StaysAbsent(Run(ops[..i]), ops[i], id);
    }
  }

  /**
   * In every history a buffer is present exactly while 1 + gets - releases has
   * been positive at every moment since its creation, the table was not
   * cleared, and no release brought that balance to a multiple of 2^32, where
   * the counter reads 0.
   */
  lemma {:induction false} PresentExactly(ops: seq<Op>, c: nat, i: nat)
    requires c < i <= |ops| && Creates(ops[c])
    ensures Agrees(ops, c, i)
    decreases i
  {
    if i == c + 1 {
      JustCreated(ops, c);
    } else {
      PresentExactly(ops, c, i - 1);
      AgreesStep(ops, c, i - 1);
    }
  }

  /** As long as the balance stays below 2^32 the last clause says nothing. */
  lemma SmallNeverWraps(ops: seq<Op>, id: Id, c: nat, i: nat)
    requires c < i <= |ops| && forall k :: c < k <= i ==> Balance(ops, id, c, k) < UINT32
    ensures !Wrapped(ops, id, c, i)
  {
    forall k | c < k < i ensures !Wraps(ops, id, c, k) {
      assert Balance(ops, id, c, k + 1) < UINT32;
    }
  }

  /**
   * The balance alone decides presence if and only if it has not come down to a
   * positive multiple of 2^32 during the buffer's life.
   */
  lemma BalanceDecides(ops: seq<Op>, c: nat, i: nat)
    requires c < i <= |ops| && Creates(ops[c])
    ensures
      var id := IdAt(ops, c);
      (id in Run(ops[..i]).buffers <==> Alive(ops, id, c, i)) <==> !(Alive(ops, id, c, i) && Wrapped(ops, id, c, i))
    ensures
      var id := IdAt(ops, c);
      (forall k :: c < k <= i ==> Balance(ops, id, c, k) < UINT32) ==>
        (id in Run(ops[..i]).buffers <==> Alive(ops, id, c, i))
  {
    var id := IdAt(ops, c);
    PresentExactly(ops, c, i);
    if forall k :: c < k <= i ==> Balance(ops, id, c, k) < UINT32 {
      SmallNeverWraps(ops, id, c, i);
    }
  }

  lemma {:induction false} GetsBalance(ops: seq<Op>, id: Id, n: nat)
    requires n < |ops| && forall i :: 1 <= i <= n ==> ops[i] == Get(id)
    ensures Balance(ops, id, 0, n + 1) == n + 1
  {
    if n > 0 {
      GetsBalance(ops, id, n - 1);
    }
  }

  /** A creation, 2^32 gets and one release: the buffer is gone though 2^32 holders are left. */
  lemma GoneWhileHeld(op: Op) returns (ops: seq<Op>)
    requires Creates(op)
    ensures ops != [] && ops[0] == op
    ensures Balance(ops, IdAt(ops, 0), 0, |ops|) == 4294967296
    ensures IdAt(ops, 0) !in Run(ops).buffers
  {
    var id := BufferId(op.ms, 1);
    ops := [op] + seq(UINT32, i => Get(id)) + [Release(id)];
    var n := UINT32 + 1;
    assert ops[..0] == [] && IdAt(ops, 0) == id && |ops| == n + 1 && ops[n] == Release(id);
    GetsBalance(ops, id, UINT32);
    assert Wraps(ops, id, 0, n);
    assert Wrapped(ops, id, 0, n + 1);
    PresentExactly(ops, 0, n + 1);
    assert ops[..n + 1] == ops;
  }

  lemma AliveStep(ops: seq<Op>, id: Id, c: nat, i: nat)
    requires c + 1 < i <= |ops|
    ensures Alive(ops, id, c, i) <==>
            Alive(ops, id, c, i - 1) && !ops[i - 1].ClearAll? && Balance(ops, id, c, i) > 0
  {
  }

  // ---- Memory -------------------------------------------------------------

  ghost function Total(sizes: map<Id, nat>, ids: set<Id>): nat
    requires ids <= sizes.Keys
  {
    if ids == {} then 0
    else
      var id :| id in ids;
      sizes[id] + Total(sizes, ids - {id})
  }

  lemma {:induction false} TotalRemove(sizes: map<Id, nat>, ids: set<Id>, id: Id)
    requires ids <= sizes.Keys && id in ids
    ensures Total(sizes, ids) == sizes[id] + Total(sizes, ids - {id})
  {
    var first :| first in ids && Total(sizes, ids) == sizes[first] + Total(sizes, ids - {first});
    if first != id {
      TotalRemove(sizes, ids - {first}, id);
      TotalRemove(sizes, ids - {id}, first);
      assert ids - {first} - {id} == ids - {id} - {first};
    }
  }

  /** The sizes the table records. */
  ghost function Recorded(table: map<Id, Entry>): map<Id, nat> {
    map id | id in table :: table[id].byteSize
  }

  /** What the present buffers need: element count times element size. */
  ghost function Needed(table: map<Id, Entry>): map<Id, nat> {
    map id | id in table :: table[id].count * SizeOf(table[id].dataType)
  }

  lemma {:induction false} SizesAlwaysRight(ops: seq<Op>, id: Id)
    requires id in Run(ops).buffers
    ensures Recorded(Run(ops).buffers)[id] == Needed(Run(ops).buffers)[id] % SIZE_T
  {
    if id in Run(ops[..|ops| - 1]).buffers {
      SizesAlwaysRight(ops[..|ops| - 1], id);
    }
  }

  lemma SmallMod(x: nat)
    requires x < SIZE_T
    ensures x % SIZE_T == x
  {
  }

  /** The recorded total is the memory needed, provided that fits a `size_t`. */
  lemma MemoryExact(ops: seq<Op>)
    requires
      var table := Run(ops).buffers;
      Total(Needed(table), table.Keys) < SIZE_T
    ensures
      var table := Run(ops).buffers;
      Total(Recorded(table), table.Keys) == Total(Needed(table), table.Keys)
  {
    var table := Run(ops).buffers;
    var recorded, needed := Recorded(table), Needed(table);
    forall id | id in table ensures recorded[id] == needed[id] {
      SizesAlwaysRight(ops, id);
      TotalRemove(needed, table.Keys, id);
      SmallMod(needed[id]);
    }
    assert recorded == needed;
  }

  // ---- The object ---------------------------------------------------------

  class DataBufferManager {
    var buffers: map<Id, Entry>
    var nextBufferId: nat

    constructor ()
      ensures Model() == Start
    {
      buffers, nextBufferId := map[], 1;
    }

    ghost function Model(): State
      reads this
    {
      State(buffers, nextBufferId)
    }

    method CreateBuffer(dataType: DataType, count: nat, ms: int, granted: bool) returns (id: Id)
      modifies this
      ensures Model() == Step(old(Model()), Create(dataType, count, ms, granted))
      ensures id == if Creates(Create(dataType, count, ms, granted)) then BufferId(ms, old(nextBufferId)) else ""
    {
      var elementSize := SizeOf(dataType);
      if elementSize == 0 {
        return "";
      }
      var byteSize := count * elementSize % SIZE_T;
      if !granted {
        return "";
      }
      id := BufferId(ms, nextBufferId);
      nextBufferId := nextBufferId + 1;
      if id !in buffers {
        buffers := buffers[id := Entry(dataType, count, byteSize, 1)];
      }
    }

    method GetBuffer(id: Id) returns (entry: Option<Entry>)
      modifies this
      ensures Model() == Step(old(Model()), Get(id))
      ensures entry == if id in old(buffers) then Some(buffers[id]) else None
    {
      if id !in buffers {
        return None;
      }
      buffers := buffers[id := buffers[id].(refs := (buffers[id].refs + 1) % UINT32)];
      return Some(buffers[id]);
    }

    method ReleaseBuffer(id: Id)
      modifies this
      ensures Model() == Step(old(Model()), Release(id))
    {
      if id !in buffers {
        return;
      }
      var refs := (buffers[id].refs - 1) % UINT32;
      buffers := buffers[id := buffers[id].(refs := refs)];
      if refs == 0 {
        buffers := buffers - {id};
      }
    }

    method Clear()
      modifies this
      ensures Model() == Step(old(Model()), ClearAll)
    {
      buffers := map[];
    }

    /** The sum over all present buffers, in `size_t` arithmetic. */
    method TotalMemoryUsage() returns (total: nat)
      ensures total == Total(Recorded(buffers), buffers.Keys) % SIZE_T
    {
      total := 0;
      var rest := buffers.Keys;
      ghost var sum: nat := 0;
      while rest != {}
        invariant rest <= buffers.Keys
        invariant sum + Total(Recorded(buffers), rest) == Total(Recorded(buffers), buffers.Keys)
        invariant total == sum % SIZE_T
        decreases rest
      {
        var id :| id in rest;
        TotalRemove(Recorded(buffers), rest, id);
        total := AddSize(total, buffers[id].byteSize, sum);
        sum := sum + buffers[id].byteSize;
        rest := rest - {id};
      }
    }

    /** One addition in `size_t`; `sum` is the exact total so far. */
    static method AddSize(total: nat, size: nat, ghost sum: nat) returns (r: nat)
      requires total == sum % SIZE_T
      ensures r == (sum + size) % SIZE_T
    {
      WrappedSum(sum, size);
      r := (total + size) % SIZE_T;
    }

    /** Wrapping at every addition is wrapping once. */
    static lemma WrappedSum(a: nat, b: nat)
      ensures (a % SIZE_T + b) % SIZE_T == (a + b) % SIZE_T
    {
      ModShift(a % SIZE_T + b, a / SIZE_T);
    }

    static lemma {:induction false} ModShift(x: nat, q: nat)
      ensures (x + q * SIZE_T) % SIZE_T == x % SIZE_T
    {
      if q > 0 {
        ModShift(x, q - 1);
        assert x + q * SIZE_T == (x + (q - 1) * SIZE_T) + SIZE_T;
      }
    }
  }
}
