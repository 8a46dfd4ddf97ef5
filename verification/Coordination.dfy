/**
 * The barrier table of `SyncCoordinator`: registration, acknowledgement and
 * clearing, and what an answer `true` means in terms of the whole history.
 */
module Coordination {
  import opened Options
  import opened Protocol
  import opened Sequences

  datatype Barrier = Barrier(expected: set<Name>, acked: set<Name>)
  type Table = map<Token, Barrier>

  datatype Op =
    | Register(token: Token, instruments: seq<Name>)
    | Ack(token: Token, name: Name)
    | Clear(token: Token)

  function Members(names: seq<Name>): set<Name> {
    set n | n in names
  }

  // ---- One token ----------------------------------------------------------

  /** The barrier of a single token after an operation that names it. */
  function Turn(b: Option<Barrier>, op: Op): Option<Barrier> {
    match op
    case Register(_, names) => Some(Barrier(Members(names), {}))
    case Clear(_) => None
    case Ack(_, n) =>
      if b.None? || n !in b.value.expected then b
      else if b.value.acked + {n} == b.value.expected then None
      else Some(b.value.(acked := b.value.acked + {n}))
  }

  /** The answer of `handle_ack`; the other operations answer nothing. */
  predicate Fires(b: Option<Barrier>, op: Op) {
    op.Ack? && b.Some? && op.name in b.value.expected
    && b.value.acked + {op.name} == b.value.expected
  }

  // ---- The table ----------------------------------------------------------

  function At(table: Table, t: Token): Option<Barrier> {
    if t in table then Some(table[t]) else None
  }

  function Put(table: Table, t: Token, b: Option<Barrier>): Table {
    if b.Some? then table[t := b.value] else table - {t}
  }

  function Apply(table: Table, op: Op): Table {
    Put(table, op.token, Turn(At(table, op.token), op))
  }

  predicate Answer(table: Table, op: Op) {
    Fires(At(table, op.token), op)
  }

  function Run(ops: seq<Op>): Table {
    if ops == [] then map[] else Apply(Run(ops[..|ops| - 1]), ops[|ops| - 1])
  }

  function B2N(b: bool): nat { if b then 1 else 0 }

  /** How many acknowledgements of `t` were answered `true`. */
  function TrueAnswers(ops: seq<Op>, t: Token): nat {
    if ops == [] then 0
    else
      var front, last := ops[..|ops| - 1], ops[|ops| - 1];
      TrueAnswers(front, t) + B2N(last.token == t && Answer(Run(front), last))
  }

  // ---- What the history says ----------------------------------------------

  /** `r` is the registration of `t` in force just before position `i`. */
  ghost predicate InForce(ops: seq<Op>, r: int, i: int, t: Token) {
    && 0 <= r < i <= |ops|
    && ops[r].Register? && ops[r].token == t
    && forall k :: r < k < i && ops[k].token == t ==> ops[k].Ack?
  }

  /** The names that acknowledged `t` strictly between `r` and `i`. */
  ghost function AckedBetween(ops: seq<Op>, r: int, i: int, t: Token): set<Name>
    requires 0 <= r < i <= |ops|
  {
    set k | r < k < i && ops[k].Ack? && ops[k].token == t :: ops[k].name
  }

  /** By position `i` every instrument expected by registration `r` has acknowledged. */
  ghost predicate AllIn(ops: seq<Op>, r: int, i: int, t: Token)
    requires InForce(ops, r, i, t)
  {
    var expected := Members(ops[r].instruments);
    expected != {} && expected <= AckedBetween(ops, r, i, t)
  }

  /** The barrier that the acknowledgements `acked` leave of a registration of `expected`. */
  ghost function Left(expected: set<Name>, acked: set<Name>): Option<Barrier> {
    if expected != {} && expected <= acked then None else Some(Barrier(expected, expected * acked))
  }

  /** The barrier of `t` is what the history since registration `r` leaves of it. */
  ghost predicate AgreesAt(ops: seq<Op>, r: int, t: Token)
    requires InForce(ops, r, |ops|, t)
  {
    At(Run(ops), t) == Left(Members(ops[r].instruments), AckedBetween(ops, r, |ops|, t))
  }

  ghost predicate TableAgrees(ops: seq<Op>, t: Token) {
    && (t in Run(ops) ==> exists r :: InForce(ops, r, |ops|, t))
    && forall r :: InForce(ops, r, |ops|, t) ==> AgreesAt(ops, r, t)
  }

  lemma HistoryGrows(ops: seq<Op>, r: int, t: Token)
    requires 0 <= r < |ops| - 1
    ensures
      var n, last := |ops|, ops[|ops| - 1];
      && (InForce(ops, r, n, t) <==>
            InForce(ops[..n - 1], r, n - 1, t) && (last.token == t ==> last.Ack?))
      && AckedBetween(ops, r, n, t) ==
           AckedBetween(ops[..n - 1], r, n - 1, t)
           + (if last.Ack? && last.token == t then {last.name} else {})
  {
    var n, last := |ops|, ops[|ops| - 1];
    var front := ops[..n - 1];
    assert forall k :: 0 <= k < n - 1 ==> front[k] == ops[k];
    forall x | x in AckedBetween(front, r, n - 1, t)
      ensures x in AckedBetween(ops, r, n, t)
    {
      var k :| r < k < n - 1 && front[k].Ack? && front[k].token == t && front[k].name == x;
      assert ops[k].Ack? && ops[k].token == t && ops[k].name == x;
    }
    forall x | x in AckedBetween(ops, r, n, t)
      ensures x in AckedBetween(front, r, n - 1, t)
           || (last.Ack? && last.token == t && x == last.name)
    {
      var k :| r < k < n && ops[k].Ack? && ops[k].token == t && ops[k].name == x;
      if k < n - 1 { assert front[k].Ack? && front[k].token == t && front[k].name == x; }
    }
  }

  /** Invariant of every run: the table is a function of the history. */
  lemma {:induction false} TableMeaning(ops: seq<Op>, t: Token)
    ensures TableAgrees(ops, t)
  {
    if ops != [] {
      var n := |ops|;
      var front, last := ops[..n - 1], ops[n - 1];
      TableMeaning(front, t);
      forall r | InForce(ops, r, n, t)
        ensures AgreesAt(ops, r, t)
      {
        if r == n - 1 {
          var expected := Members(ops[r].instruments);
          assert AckedBetween(ops, r, n, t) == {};
          assert expected * {} == {};
          assert Turn(At(Run(front), t), last) == Some(Barrier(expected, {}));
        } else {
          HistoryGrows(ops, r, t);
          AgreesStep(ops, r, t);
        }
      }
      if t in Run(ops) {
        if last.token == t && last.Register? {
          assert InForce(ops, n - 1, n, t);
        } else {
          assert t in Run(front);
          var r :| InForce(front, r, n - 1, t);
          HistoryGrows(ops, r, t);
          assert InForce(ops, r, n, t);
        }
      }
    }
  }

  lemma AgreesStep(ops: seq<Op>, r: int, t: Token)
    requires 0 <= r < |ops| - 1 && InForce(ops, r, |ops|, t)
    requires InForce(ops[..|ops| - 1], r, |ops| - 1, t) && AgreesAt(ops[..|ops| - 1], r, t)
    ensures AgreesAt(ops, r, t)
  {
    var n := |ops|;
    var front, last := ops[..n - 1], ops[n - 1];
    HistoryGrows(ops, r, t);
    var before, after := AckedBetween(front, r, n - 1, t), AckedBetween(ops, r, n, t);
    assert front[r] == ops[r];
    if last.token == t {
      assert after == before + {last.name};
      RecordAck(At(Run(front), t), Members(ops[r].instruments), before, last);
    } else {
      assert after == before;
    }
  }

  lemma RecordAck(b: Option<Barrier>, expected: set<Name>, acked: set<Name>, op: Op)
    requires b == Left(expected, acked) && op.Ack?
    ensures Turn(b, op) == Left(expected, acked + {op.name})
  {
    if op.name in expected {
      assert expected * acked + {op.name} == expected * (acked + {op.name});
      assert expected * (acked + {op.name}) == expected <==> expected <= acked + {op.name};
    } else {
      assert expected * acked == expected * (acked + {op.name});
      assert expected <= acked <==> expected <= acked + {op.name};
    }
  }

  /**
   * `handle_ack` answers true exactly when this acknowledgement completes the
   * expected set of the registration in force and it was not complete before.
   */
  lemma AnswerMeaning(ops: seq<Op>, i: nat)
    requires i < |ops|
    ensures Answer(Run(ops[..i]), ops[i]) <==>
            ops[i].Ack? && exists r :: InForce(ops, r, i, ops[i].token)
                                    && InForce(ops, r, i + 1, ops[i].token)
                                    && !AllIn(ops, r, i, ops[i].token)
                                    && AllIn(ops, r, i + 1, ops[i].token)
  {
    var op, t := ops[i], ops[i].token;
    var past, now := ops[..i], ops[..i + 1];
    assert now[..i] == past;
    TableMeaning(past, t);
    forall r | InForce(past, r, i, t) && op.Ack?
      ensures InForce(ops, r, i, t) && InForce(ops, r, i + 1, t)
      ensures Answer(Run(past), op) <==> !AllIn(ops, r, i, t) && AllIn(ops, r, i + 1, t)
    {
      assert now[r] == past[r] == ops[r];
      HistoryGrows(now, r, t);
      Prefix(ops, r, i, t);
      Prefix(ops, r, i + 1, t);
      var expected := Members(ops[r].instruments);
      var before := AckedBetween(past, r, i, t);
      assert expected * before + {op.name} == expected && op.name in expected
             <==> op.name in expected && expected <= before + {op.name};
    }
    if op.Ack? && t in Run(past) {
      var r :| InForce(past, r, i, t);
    }
    forall r | InForce(ops, r, i, t)
      ensures InForce(past, r, i, t)
    {
      Prefix(ops, r, i, t);
    }
  }

  lemma Prefix(ops: seq<Op>, r: int, i: int, t: Token)
    requires 0 <= r < i <= |ops|
    ensures InForce(ops, r, i, t) <==> InForce(ops[..i], r, i, t)
    ensures AckedBetween(ops, r, i, t) == AckedBetween(ops[..i], r, i, t)
  {
    var past := ops[..i];
    assert forall k :: 0 <= k < i ==> past[k] == ops[k];
    forall x | x in AckedBetween(ops, r, i, t)
      ensures x in AckedBetween(past, r, i, t)
    {
      var k :| r < k < i && ops[k].Ack? && ops[k].token == t && ops[k].name == x;
      assert past[k].Ack? && past[k].token == t && past[k].name == x;
    }
    forall x | x in AckedBetween(past, r, i, t)
      ensures x in AckedBetween(ops, r, i, t)
    {
      var k :| r < k < i && past[k].Ack? && past[k].token == t && past[k].name == x;
      assert ops[k].Ack? && ops[k].token == t && ops[k].name == x;
    }
  }

  /** One more operation, seen from token `t`. */
  lemma RunAppend(ops: seq<Op>, op: Op, t: Token)
    ensures At(Run(ops + [op]), t) == if op.token == t then Turn(At(Run(ops), t), op) else At(Run(ops), t)
    ensures TrueAnswers(ops + [op], t) ==
            TrueAnswers(ops, t) + B2N(op.token == t && Fires(At(Run(ops), t), op))
  {
    assert (ops + [op])[..|ops|] == ops;
  }

  // ---- Locality and order independence ------------------------------------

  /** The operations of a history that name `t`. */
  function Naming(ops: seq<Op>, t: Token): seq<Op> {
    if ops == [] then []
    else
      var front, last := ops[..|ops| - 1], ops[|ops| - 1];
      if last.token == t then Naming(front, t) + [last] else Naming(front, t)
  }

  /** Barrier and answers of a token depend only on the operations naming it. */
  lemma {:induction false} TokensAreIndependent(ops: seq<Op>, t: Token)
    ensures At(Run(ops), t) == At(Run(Naming(ops, t)), t)
    ensures TrueAnswers(ops, t) == TrueAnswers(Naming(ops, t), t)
  {
    if ops != [] {
      var front, last := ops[..|ops| - 1], ops[|ops| - 1];
      TokensAreIndependent(front, t);
      assert ops == front + [last];
      RunAppend(front, last, t);
      RunAppend(Naming(front, t), last, t);
    }
  }

  ghost predicate OnlyAcks(ops: seq<Op>) {
    forall k :: 0 <= k < |ops| ==> ops[k].Ack?
  }

  ghost function Ackers(ops: seq<Op>, t: Token): set<Name>
    requires OnlyAcks(ops)
  {
    set k | 0 <= k < |ops| && ops[k].token == t :: ops[k].name
  }

  /** A registered barrier has not been completed (an empty one never is). */
  ghost predicate Open(b: Option<Barrier>) {
    b.Some? ==>
      && b.value.acked <= b.value.expected
      && (b.value.acked == b.value.expected ==> b.value.expected == {})
  }

  /** What a burst of acknowledgements by the names `who` leaves of a barrier. */
  ghost function AfterAcks(b: Option<Barrier>, who: set<Name>): Option<Barrier> {
    if b.None? then b
    else
      var acked := b.value.acked + b.value.expected * who;
      if acked == b.value.expected && b.value.expected != {} then None
      else Some(b.value.(acked := acked))
  }

  lemma {:induction false} TableIsOpen(ops: seq<Op>, t: Token)
    ensures Open(At(Run(ops), t))
  {
    if ops != [] {
      TableIsOpen(ops[..|ops| - 1], t);
    }
  }

  /** A burst of acknowledgements acts through the set of its names only. */
  lemma {:induction false} AckBurst(pre: seq<Op>, acks: seq<Op>, t: Token)
    requires OnlyAcks(acks)
    ensures
      var b, who := At(Run(pre), t), Ackers(acks, t);
      && At(Run(pre + acks), t) == AfterAcks(b, who)
      && TrueAnswers(pre + acks, t) ==
           TrueAnswers(pre, t) + B2N(b.Some? && AfterAcks(b, who).None?)
  {
    TableIsOpen(pre, t);
    var b := At(Run(pre), t);
    if acks == [] {
      assert pre + acks == pre && Ackers(acks, t) == {};
      assert b.Some? ==> b.value.acked + b.value.expected * {} == b.value.acked;
    } else {
      var front, last := acks[..|acks| - 1], acks[|acks| - 1];
      AckBurst(pre, front, t);
      assert pre + acks == (pre + front) + [last];
      RunAppend(pre + front, last, t);
      AckersGrow(acks, t);
      if last.token == t {
        OneMoreAck(b, Ackers(front, t), last);
      } else {
        assert Ackers(acks, t) == Ackers(front, t);
      }
    }
  }

  lemma OneMoreAck(b: Option<Barrier>, who: set<Name>, op: Op)
    requires Open(b) && op.Ack?
    ensures Turn(AfterAcks(b, who), op) == AfterAcks(b, who + {op.name})
    ensures Fires(AfterAcks(b, who), op) <==>
            AfterAcks(b, who).Some? && AfterAcks(b, who + {op.name}).None?
  {
    if b.Some? {
      var e, a := b.value.expected, b.value.acked;
      assert a + e * (who + {op.name}) ==
             (a + e * who) + (if op.name in e then {op.name} else {});
      assert op.name !in e ==> a + e * (who + {op.name}) == a + e * who;
      assert a + e * who <= e;
    }
  }

  lemma AckersGrow(acks: seq<Op>, t: Token)
    requires acks != [] && OnlyAcks(acks)
    ensures
      var front, last := acks[..|acks| - 1], acks[|acks| - 1];
      Ackers(acks, t) == Ackers(front, t) + if last.token == t then {last.name} else {}
  {
    var front, last := acks[..|acks| - 1], acks[|acks| - 1];
    forall x | x in Ackers(acks, t)
      ensures x in Ackers(front, t) || (last.token == t && x == last.name)
    {
      var k :| 0 <= k < |acks| && acks[k].token == t && acks[k].name == x;
      if k < |front| { assert front[k].token == t && front[k].name == x; }
    }
    forall x | x in Ackers(front, t)
      ensures x in Ackers(acks, t)
    {
      var k :| 0 <= k < |front| && front[k].token == t && front[k].name == x;
      assert acks[k].token == t && acks[k].name == x;
    }
  }

  lemma {:induction false} SameTail(a: seq<Op>, b: seq<Op>, post: seq<Op>, t: Token)
    requires At(Run(a), t) == At(Run(b), t)
    requires TrueAnswers(a, t) == TrueAnswers(b, t)
    ensures At(Run(a + post), t) == At(Run(b + post), t)
    ensures TrueAnswers(a + post, t) == TrueAnswers(b + post, t)
  {
    if post == [] {
      assert a + post == a && b + post == b;
    } else {
      var front, last := post[..|post| - 1], post[|post| - 1];
      SameTail(a, b, front, t);
      assert a + post == (a + front) + [last] && b + post == (b + front) + [last];
      RunAppend(a + front, last, t);
      RunAppend(b + front, last, t);
    }
  }

  /**
   * The number of `true` answers does not depend on the order of
   * acknowledgements nor on repeats, whatever surrounds the burst.
   */
  lemma AckOrderIrrelevant(pre: seq<Op>, a: seq<Op>, b: seq<Op>, post: seq<Op>, t: Token)
    requires OnlyAcks(a) && OnlyAcks(b) && Ackers(a, t) == Ackers(b, t)
    ensures TrueAnswers(pre + a + post, t) == TrueAnswers(pre + b + post, t)
    ensures At(Run(pre + a + post), t) == At(Run(pre + b + post), t)
  {
    AckBurst(pre, a, t);
    AckBurst(pre, b, t);
    SameTail(pre + a, pre + b, post, t);
  }

  /** At most one `true` per registration. */
  function Registrations(ops: seq<Op>, t: Token): nat {
    if ops == [] then 0
    else
      var front, last := ops[..|ops| - 1], ops[|ops| - 1];
      Registrations(front, t) + B2N(last.Register? && last.token == t)
  }

  lemma {:induction false} AtMostOneTruePerRegistration(ops: seq<Op>, t: Token)
    ensures TrueAnswers(ops, t) + B2N(t in Run(ops)) <= Registrations(ops, t)
  {
    if ops != [] {
      AtMostOneTruePerRegistration(ops[..|ops| - 1], t);
    }
  }

  // ---- The object ---------------------------------------------------------

  class SyncCoordinator {
    var barriers: Table

    constructor ()
      ensures barriers == Run([])
    {
      barriers := map[];
    }

    method RegisterBarrier(token: Token, instruments: seq<Name>)
      modifies this
      ensures barriers == Apply(old(barriers), Register(token, instruments))
    {
      barriers := barriers[token := Barrier(Members(instruments), {})];
    }

    method HandleAck(token: Token, name: Name) returns (complete: bool)
      modifies this
      ensures complete == Answer(old(barriers), Ack(token, name))
      ensures barriers == Apply(old(barriers), Ack(token, name))
    {
      if token !in barriers {
        return false;
      }
      var barrier := barriers[token];
      if name !in barrier.expected {
        return false;
      }
      barrier := barrier.(acked := barrier.acked + {name});
      barriers := barriers[token := barrier];
      complete := barrier.acked == barrier.expected;
      if complete {
        barriers := barriers - {token};
      }
    }

    method ClearBarrier(token: Token)
      modifies this
      ensures barriers == Apply(old(barriers), Clear(token))
    {
      barriers := barriers - {token};
    }

    /** Exactly the expected names that have not acknowledged, each once. */
    method GetWaitingInstruments(token: Token) returns (waiting: seq<Name>)
      ensures token !in barriers ==> waiting == []
      ensures token in barriers ==>
                Members(waiting) == barriers[token].expected - barriers[token].acked
      ensures Distinct(waiting)
    {
      waiting := [];
      if token !in barriers {
        return;
      }
      var barrier := barriers[token];
      var rest := barrier.expected;
      while rest != {}
        invariant rest <= barrier.expected
        invariant Members(waiting) == barrier.expected - rest - barrier.acked
        invariant Distinct(waiting)
        decreases rest
      {
        var inst :| inst in rest;
        if inst !in barrier.acked {
          assert inst !in Members(waiting);
          assert Members(waiting + [inst]) == Members(waiting) + {inst};
          waiting := waiting + [inst];
        }
        rest := rest - {inst};
      }
    }

    method HasBarrier(token: Token) returns (has: bool)
      ensures has == (token in barriers)
    {
      has := token in barriers;
    }
  }
}
