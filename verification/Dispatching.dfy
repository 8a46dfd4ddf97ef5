/** What a parallel block puts on the wire, and when every slot gets its own answer. */
module Dispatching {
  import opened Options
  import opened Codec
  import opened Context
  import opened Protocol
  import opened Sequences

  // ---- The commands of a block, by instrument -----------------------------

  lemma {:induction false} ForConcat(a: seq<SerializedCommand>, b: seq<SerializedCommand>, inst: Name)
    ensures For(a + b, inst) == For(a, inst) + For(b, inst)
  {
    if b == [] {
      assert a + b == a;
    } else {
      assert (a + b)[..|a + b| - 1] == a + b[..|b| - 1];
      ForConcat(a, b[..|b| - 1], inst);
    }
  }

  lemma {:induction false} ForInstrument(buffer: seq<SerializedCommand>, inst: Name)
    ensures forall i :: 0 <= i < |For(buffer, inst)| ==> For(buffer, inst)[i].instrument == inst
  {
    if buffer != [] {
      ForInstrument(buffer[..|buffer| - 1], inst);
    }
  }

  lemma {:induction false} ForUniform(cmds: seq<SerializedCommand>, inst: Name, other: Name)
    requires forall i :: 0 <= i < |cmds| ==> cmds[i].instrument == inst
    ensures For(cmds, other) == if other == inst then cmds else []
  {
    if cmds != [] {
      ForUniform(cmds[..|cmds| - 1], inst, other);
      FrontAndLast(cmds);
    }
  }

  lemma BatchUniform(buffer: seq<SerializedCommand>, inst: Name, t: Token)
    ensures Batch(buffer, inst, t) != []
    ensures forall i :: 0 <= i < |Batch(buffer, inst, t)| ==> Batch(buffer, inst, t)[i].instrument == inst
  {
    ForInstrument(buffer, inst);
  }

  /** What a batch for `last` adds to the part addressed to `inst`. */
  lemma BatchFor(before: seq<SerializedCommand>, buffer: seq<SerializedCommand>, t: Token, last: Name, inst: Name)
    ensures For(before + Batch(buffer, last, t), inst) ==
            if inst == last then For(before, inst) + Batch(buffer, inst, t) else For(before, inst)
  {
    var batch := Batch(buffer, last, t);
    BatchUniform(buffer, last, t);
    ForConcat(before, batch, inst);
    ForUniform(batch, last, inst);
  }

  lemma LastName(all: seq<Name>, inst: Name)
    requires all != []
    ensures inst in all <==> inst in all[..|all| - 1] || inst == all[|all| - 1]
    ensures Distinct(all) ==> Distinct(all[..|all| - 1]) && all[|all| - 1] !in all[..|all| - 1]
  {
    FrontAndLast(all);
  }

  /** The part of a block addressed to one instrument. */
  lemma {:induction false} BatchesFor(all: seq<Name>, buffer: seq<SerializedCommand>, t: Token, inst: Name)
    requires Distinct(all)
    ensures For(Batches(all, buffer, t), inst) == if inst in all then Batch(buffer, inst, t) else []
  {
    if all != [] {
      var front, last := all[..|all| - 1], all[|all| - 1];
      LastName(all, inst);
      BatchesFor(front, buffer, t, inst);
      BatchFor(Batches(front, buffer, t), buffer, t, last, inst);
      if inst == last {
        assert [] + Batch(buffer, inst, t) == Batch(buffer, inst, t);
      }
    }
  }

  /** The positions of the commands for one instrument. */
  function Positions(cmds: seq<SerializedCommand>, inst: Name): seq<nat> {
    if cmds == [] then []
    else
      var front, n := cmds[..|cmds| - 1], |cmds| - 1;
      if cmds[n].instrument == inst then Positions(front, inst) + [n] else Positions(front, inst)
  }

  /** `at` lists exactly the positions of the commands for the instrument, in order. */
  ghost predicate AllFor(cmds: seq<SerializedCommand>, inst: Name, at: seq<nat>) {
    Increasing(at) && forall i :: i in at <==> 0 <= i < |cmds| && cmds[i].instrument == inst
  }

  lemma {:induction false} PositionsExact(cmds: seq<SerializedCommand>, inst: Name)
    ensures AllFor(cmds, inst, Positions(cmds, inst))
  {
    if cmds != [] {
      var front, n := cmds[..|cmds| - 1], |cmds| - 1;
      PositionsExact(front, inst);
      var at, at' := Positions(front, inst), Positions(cmds, inst);
      forall k | 0 <= k < |at| ensures at[k] < n {
        assert at[k] in at;
      }
      forall i: nat | i < n ensures cmds[i] == front[i] {}
      assert at' == at || at' == at + [n];
    }
  }

  /** The commands for one instrument are those at its positions, in order. */
  lemma {:induction false} ForExactly(cmds: seq<SerializedCommand>, inst: Name)
    ensures AllFor(cmds, inst, Positions(cmds, inst)) && |For(cmds, inst)| == |Positions(cmds, inst)|
    ensures forall k :: 0 <= k < |Positions(cmds, inst)| ==>
              Positions(cmds, inst)[k] < |cmds| && For(cmds, inst)[k] == cmds[Positions(cmds, inst)[k]]
  {
    PositionsExact(cmds, inst);
    if cmds != [] {
      ForExactly(cmds[..|cmds| - 1], inst);
    }
  }

  /** `cmd` is the command of the call, under token `t`, and the barrier if it is the last one. */
  ghost predicate CarriesCall(cmd: SerializedCommand, call: Call, t: Token, last: bool) {
    && cmd.instrument == InstrumentOf(call.spec) && cmd.verb == call.verb && cmd.params == call.params
    && cmd.expectsResponse == call.expects && cmd.timeoutMs == 5000
    && cmd.syncToken == Some(t) && cmd.isSyncBarrier == last
  }

  ghost predicate IsNop(cmd: SerializedCommand, inst: Name, t: Token) {
    && cmd.instrument == inst && cmd.verb == "__BARRIER_NOP__" && cmd.params == map[] && cmd.expectsResponse
    && cmd.syncToken == Some(t) && cmd.isSyncBarrier
  }

  /** One NOP if there is no call for the instrument; else its calls in order, exactly the last one the barrier. */
  ghost predicate Receives(received: seq<SerializedCommand>, calls: seq<Call>, at: seq<nat>, inst: Name, t: Token) {
    if at == [] then |received| == 1 && IsNop(received[0], inst, t)
    else
      && |received| == |at|
      && forall k :: 0 <= k < |at| ==>
           at[k] < |calls| && CarriesCall(received[k], calls[at[k]], t, k == |at| - 1)
  }

  lemma BatchReceives(calls: seq<Call>, inst: Name, t: Token)
    ensures Receives(Batch(Commands(calls), inst, t), calls, Positions(Commands(calls), inst), inst, t)
  {
    var buffer := Commands(calls);
    var at, mine, batch := Positions(buffer, inst), For(buffer, inst), Batch(buffer, inst, t);
    ForExactly(buffer, inst);
    forall k | 0 <= k < |at| ensures at[k] < |calls| && CarriesCall(batch[k], calls[at[k]], t, k == |at| - 1) {
      assert mine[k] == buffer[at[k]] == CommandFor(calls[at[k]]);
    }
  }

  /** The instruments are served in the order of the list: `who[i]` is the place of the `i`-th command's instrument. */
  lemma {:induction false} ServedInOrder(all: seq<Name>, buffer: seq<SerializedCommand>, t: Token) returns (who: seq<nat>)
    ensures |who| == |Batches(all, buffer, t)|
    ensures forall i :: 0 <= i < |who| ==> who[i] < |all| && all[who[i]] == Batches(all, buffer, t)[i].instrument
    ensures forall i, j :: 0 <= i < j < |who| ==> who[i] <= who[j]
  {
    if all == [] {
      who := [];
    } else {
      var front, last := all[..|all| - 1], all[|all| - 1];
      var before := ServedInOrder(front, buffer, t);
      BatchUniform(buffer, last, t);
      who := before + seq(|Batch(buffer, last, t)|, i => |all| - 1);
    }
  }

  // ---- What is sent -------------------------------------------------------

  /** The commands whose lookup succeeded. */
  function Kept(cmds: seq<SerializedCommand>, hits: Hits): seq<SerializedCommand> {
    if cmds == [] then []
    else
      var front, n := cmds[..|cmds| - 1], |cmds| - 1;
      if hits(n) then Kept(front, hits) + [cmds[n]] else Kept(front, hits)
  }

  lemma LastSent(c: State, t: Token, cmds: seq<SerializedCommand>, hits: Hits)
    requires cmds != []
    ensures
      var before, n := SendAll(c, t, cmds[..|cmds| - 1], hits).sent, |cmds| - 1;
      SendAll(c, t, cmds, hits).sent == if hits(n) then before + [cmds[n]] else before
  {
  }

  lemma {:induction false} SentExactly(c: State, t: Token, cmds: seq<SerializedCommand>, hits: Hits)
    ensures SendAll(c, t, cmds, hits).sent == c.sent + Kept(cmds, hits)
  {
    if cmds == [] {
      assert c.sent + [] == c.sent;
    } else {
      var front, n := cmds[..|cmds| - 1], |cmds| - 1;
      SentExactly(c, t, front, hits);
      LastSent(c, t, cmds, hits);
      Regroup(c.sent, Kept(front, hits), [cmds[n]]);
    }
  }

  /** All lookups of the instrument's worker have this outcome. */
  ghost predicate AllLookups(cmds: seq<SerializedCommand>, hits: Hits, inst: Name, outcome: bool) {
    forall i :: 0 <= i < |cmds| && cmds[i].instrument == inst ==> hits(i) == outcome
  }

  lemma {:induction false} KeptFor(cmds: seq<SerializedCommand>, hits: Hits, inst: Name, outcome: bool)
    requires AllLookups(cmds, hits, inst, outcome)
    ensures For(Kept(cmds, hits), inst) == if outcome then For(cmds, inst) else []
  {
    if cmds != [] {
      var front, n := cmds[..|cmds| - 1], |cmds| - 1;
      KeptFor(front, hits, inst, outcome);
      ForConcat(Kept(front, hits), [cmds[n]], inst);
      ForUniform([cmds[n]], cmds[n].instrument, inst);
    }
  }

  /**
   * Parallel dispatch: every registered instrument is sent the block's commands
   * for it in call order, or one NOP if it has none; all carry the new token
   * and exactly the last one is barrier-marked.  Nobody else is sent anything,
   * and neither is an instrument whose worker is not found.
   */
  lemma BlockDispatch(c: State, calls: seq<Call>, all: seq<Name>, hits: Hits, inst: Name)
    requires calls != [] && Distinct(all)
    ensures
      var cmds, after := Batches(all, Commands(calls), c.next), Block(c, calls, false, all, hits).sent;
      var at := Positions(Commands(calls), inst);
      && after == c.sent + Kept(cmds, hits)
      && Increasing(at) && (forall i :: i in at <==> 0 <= i < |calls| && InstrumentOf(calls[i].spec) == inst)
      && var received := For(Kept(cmds, hits), inst);
         && (inst !in all || AllLookups(cmds, hits, inst, false) ==> received == [])
         && (inst in all && AllLookups(cmds, hits, inst, true) ==> Receives(received, calls, at, inst, c.next))
  {
    SentExactly(OpenToken(c, all), c.next, Batches(all, Commands(calls), c.next), hits);
    CallPositions(calls, inst);
    KeptForOne(calls, all, c.next, hits, inst);
  }

  lemma CallPositions(calls: seq<Call>, inst: Name)
    ensures
      var at := Positions(Commands(calls), inst);
      Increasing(at) && forall i :: i in at <==> 0 <= i < |calls| && InstrumentOf(calls[i].spec) == inst
  {
    PositionsExact(Commands(calls), inst);
    assert forall i :: 0 <= i < |calls| ==> Commands(calls)[i].instrument == InstrumentOf(calls[i].spec);
  }

  /** Of what is kept of a block, the part for one instrument. */
  lemma KeptForOne(calls: seq<Call>, all: seq<Name>, t: Token, hits: Hits, inst: Name)
    requires Distinct(all)
    ensures
      var cmds := Batches(all, Commands(calls), t);
      var received := For(Kept(cmds, hits), inst);
      && (inst !in all || AllLookups(cmds, hits, inst, false) ==> received == [])
      && (inst in all && AllLookups(cmds, hits, inst, true) ==>
            Receives(received, calls, Positions(Commands(calls), inst), inst, t))
  {
    var cmds := Batches(all, Commands(calls), t);
    BatchesFor(all, Commands(calls), t, inst);
    if AllLookups(cmds, hits, inst, false) {
      KeptFor(cmds, hits, inst, false);
    }
    if inst !in all {
      NotAddressed(cmds, hits, inst);
    } else if AllLookups(cmds, hits, inst, true) {
      KeptFor(cmds, hits, inst, true);
      BatchReceives(calls, inst, t);
    }
  }

  /** A slot nothing has been written to. */
  ghost predicate Fresh(slot: CallResult, instrument: string, verb: string, params: Params) {
    && slot.instrument == instrument && slot.verb == verb && slot.params == params
    && slot.commandId == "" && !slot.success && slot.errorMessage == "" && slot.returnValue.None?
    && slot.returnType == "" && !slot.hasLargeData && slot.bufferId == "" && slot.elementCount == 0 && slot.dataType == ""
  }

  /** A single call to a known instrument sends its command, alone under a new token; any other call does nothing. */
  lemma CallDispatch(c: State, call: Call, all: seq<Name>, live: set<Name>)
    ensures
      var c' := Enqueue(c, call, all, live);
      if InstrumentOf(call.spec) in live then
        && |c'.sent| == |c.sent| + 1 && c.sent <= c'.sent && CarriesCall(c'.sent[|c.sent|], call, c.next, true)
        && |c'.results| == |c.results| + 1 && c.results <= c'.results
        && Fresh(c'.results[|c.results|], call.spec, call.verb, call.params)
        && Get(c'.futures, c.next) == Get(c.futures, c.next) + [|c.sent|]
        && Get(c'.indices, c.next) == Get(c.indices, c.next) + [|c.results|]
      else c' == c
  {
  }

  // ---- Barriers -----------------------------------------------------------

  /** The operation opens a token. */
  predicate Opens(op: Op) {
    (op.DoCall? && InstrumentOf(op.call.spec) in op.live) || (op.DoBlock? && Dispatches(op))
  }

  /** Sending touches neither tokens nor barriers nor the log. */
  ghost predicate SameTokens(c: State, c': State) {
    && c'.order == c.order && c'.next == c.next && c'.instruments == c.instruments
    && c'.barriers == c.barriers && c'.log == c.log
  }

  lemma {:induction false} SendAllSame(c: State, t: Token, cmds: seq<SerializedCommand>, hits: Hits)
    ensures SameTokens(c, SendAll(c, t, cmds, hits))
  {
    if cmds != [] {
      SendAllSame(c, t, cmds[..|cmds| - 1], hits);
    }
  }

  /** A new token is registered over all listed instruments, waits for all of them, and is the last in order. */
  lemma OpensBarrier(c: State, op: Op)
    requires Opens(op)
    ensures
      var c', t := Step(c, op), c.next;
      && c'.next == t + 1 && c'.order == c.order + [t] && c'.log == c.log
      && t in c'.barriers && (forall n :: n in c'.barriers[t].expected <==> n in op.all) && c'.barriers[t].acked == {}
      && (forall u :: u != t ==> (u in c'.barriers <==> u in c.barriers) && (u in c.barriers ==> c'.barriers[u] == c.barriers[u]))
      && (op.all != [] ==> t in c'.instruments && forall n :: n in c'.instruments[t] <==> n in op.all)
      && (forall u :: u != t ==>
            (u in c'.instruments <==> u in c.instruments) && (u in c.instruments ==> c'.instruments[u] == c.instruments[u]))
  {
    if op.DoBlock? {
      SendAllSame(OpenToken(c, op.all), c.next, BlockCommands(c, op), op.hits);
    }
  }

  /** In every run the barriers are exactly those of the open tokens. */
  lemma {:induction false} BarriersExactly(ops: seq<Op>)
    ensures forall t :: t in Run(ops).barriers <==> t in Run(ops).order
  {
    if ops != [] {
      var front, op := ops[..|ops| - 1], ops[|ops| - 1];
      BarriersExactly(front);
      if op.DoWait? {
        WaitCleared(Run(front), op);
      } else if Opens(op) {
        OpensBarrier(Run(front), op);
      }
    }
  }

  lemma WaitCleared(c: State, op: Op)
    requires op.DoWait? && forall t :: t in c.barriers <==> t in c.order
    ensures Step(c, op).order == [] && Step(c, op).barriers == map[]
  {
    ClearedTokens(c.barriers, c.order);
    assert Step(c, op).barriers.Keys == {};
  }

  lemma {:induction false} NotAddressed(cmds: seq<SerializedCommand>, hits: Hits, inst: Name)
    requires For(cmds, inst) == []
    ensures For(Kept(cmds, hits), inst) == []
  {
    if cmds != [] {
      var front, n := cmds[..|cmds| - 1], |cmds| - 1;
      NotAddressed(front, hits, inst);
      ForConcat(Kept(front, hits), [cmds[n]], inst);
      ForUniform([cmds[n]], cmds[n].instrument, inst);
    }
  }

  // ---- When futures and slots stay paired ---------------------------------

  /** How many of the first `n` lookups failed. */
  function Missing(hits: Hits, n: nat): nat {
    if n == 0 then 0 else if hits(n - 1) then Missing(hits, n - 1) else Missing(hits, n - 1) + 1
  }

  lemma {:induction false} MissingNone(hits: Hits, n: nat)
    ensures Missing(hits, n) == 0 <==> AllHit(hits, n)
    ensures Missing(hits, n) <= n
  {
    if n > 0 {
      MissingNone(hits, n - 1);
    }
  }

  /** Other tokens keep their lists, and `t` gets an index per command and a future per hit. */
  lemma OneBooked(c: State, t: Token, cmd: SerializedCommand, hit: bool)
    ensures
      var c' := SendOne(c, t, cmd, hit);
      && c'.order == c.order
      && (forall u :: u != t ==> Get(c'.futures, u) == Get(c.futures, u) && Get(c'.indices, u) == Get(c.indices, u))
      && Get(c'.indices, t) == Get(c.indices, t) + [|c.results|]
      && Get(c'.futures, t) == if hit then Get(c.futures, t) + [|c.sent|] else Get(c.futures, t)
  {
  }

  lemma {:induction false} SendAllBooks(c: State, t: Token, cmds: seq<SerializedCommand>, hits: Hits)
    ensures
      var c' := SendAll(c, t, cmds, hits);
      && c'.order == c.order
      && (forall u :: u != t ==> Get(c'.futures, u) == Get(c.futures, u) && Get(c'.indices, u) == Get(c.indices, u))
      && |Get(c'.indices, t)| == |Get(c.indices, t)| + |cmds|
      && |Get(c'.futures, t)| == |Get(c.futures, t)| + |cmds| - Missing(hits, |cmds|)
  {
    if cmds != [] {
      var front, n := cmds[..|cmds| - 1], |cmds| - 1;
      SendAllBooks(c, t, front, hits);
      OneBooked(SendAll(c, t, front, hits), t, cmds[n], hits(n));
    }
  }

  /**
   * A block leaves every token with as many futures as slots if and only if
   * every lookup it made succeeded.
   */
  lemma PairedExactly(c: State, op: Op)
    requires TokensInv(c) && Paired(c) && op.DoBlock?
    ensures Paired(Step(c, op)) <==> Stable(c, op)
  {
    if Dispatches(op) {
      OpenTokens(c, op.all);
      var begun, cmds := OpenToken(c, op.all), BlockCommands(c, op);
      SendAllBooks(begun, c.next, cmds, op.hits);
      MissingNone(op.hits, |cmds|);
      assert c.next in begun.order;
      forall t | t in begun.order && t != c.next ensures t in c.order {}
    }
  }

  // ---- Own slots, over whole runs -----------------------------------------

  /** Slots without a future, over and above those of earlier waits. */
  function Gap(c: State): int {
    |c.results| - |Flat(c.order, c.futures)|
  }

  ghost predicate LastToken(c: State, t: Token) {
    TokensInv(c) && c.order != [] && t == c.order[|c.order| - 1]
  }

  lemma OneLast(c: State, t: Token, cmd: SerializedCommand, hit: bool)
    requires LastToken(c, t)
    ensures LastToken(SendOne(c, t, cmd, hit), t)
  {
  }

  lemma OneGap(c: State, t: Token, cmd: SerializedCommand, hit: bool)
    requires LastToken(c, t)
    ensures Gap(SendOne(c, t, cmd, hit)) == Gap(c) + if hit then 0 else 1
  {
    FlatPush(c.order, c.futures, |c.sent|);
  }

  lemma {:induction false} SendAllGap(c: State, t: Token, cmds: seq<SerializedCommand>, hits: Hits)
    requires LastToken(c, t)
    ensures LastToken(SendAll(c, t, cmds, hits), t)
    ensures Gap(SendAll(c, t, cmds, hits)) == Gap(c) + Missing(hits, |cmds|)
  {
    if cmds != [] {
      var front, n := cmds[..|cmds| - 1], |cmds| - 1;
      SendAllGap(c, t, front, hits);
      OneLast(SendAll(c, t, front, hits), t, cmds[n], hits(n));
      OneGap(SendAll(c, t, front, hits), t, cmds[n], hits(n));
    }
  }

  lemma OpenGap(c: State, all: seq<Name>)
    requires TokensInv(c)
    ensures LastToken(OpenToken(c, all), c.next) && Gap(OpenToken(c, all)) == Gap(c)
  {
    OpenTokens(c, all);
    assert OpenToken(c, all).order[..|c.order|] == c.order;
  }

  lemma CallGap(c: State, call: Call, all: seq<Name>, live: set<Name>)
    requires TokensInv(c)
    ensures Gap(Enqueue(c, call, all, live)) == Gap(c)
  {
    if CommandFor(call).instrument in live {
      OpenGap(c, all);
      var open := OpenToken(c, all);
      FlatPush(open.order, open.futures, |open.sent|);
    }
  }

  /** A block leaves a gap exactly when one of its lookups fails. */
  lemma BlockGap(c: State, op: Op)
    requires TokensInv(c) && op.DoBlock?
    ensures Gap(Step(c, op)) >= Gap(c)
    ensures Gap(Step(c, op)) == Gap(c) <==> Stable(c, op)
  {
    if Dispatches(op) {
      OpenGap(c, op.all);
      SendAllGap(OpenToken(c, op.all), c.next, BlockCommands(c, op), op.hits);
      MissingNone(op.hits, |BlockCommands(c, op)|);
    }
  }

  lemma {:induction false} GapExactly(ops: seq<Op>)
    ensures Gap(Run(ops)) >= Base(ops)
    ensures Gap(Run(ops)) == Base(ops) <==> StableSinceWait(ops)
  {
    if ops != [] {
      var front, op := ops[..|ops| - 1], ops[|ops| - 1];
      TokensAlways(front);
      GapExactly(front);
      match op
      case DoCall(call, all, live) => CallGap(Run(front), call, all, live);
      case DoBlock(_, _, _, _) => BlockGap(Run(front), op);
      case DoWait(_, _, _) =>
    }
  }

  /**
   * In every run, a wait leaves every slot taken since the last one with the
   * answer to the command it was made for if and only if every lookup of the
   * blocks since then succeeded.
   */
  lemma OwnSlotsExactly(ops: seq<Op>, wait: Op)
    requires wait.DoWait?
    ensures OwnSlots(Run(ops), Base(ops), Run(ops + [wait]).results, wait.answers) <==> StableSinceWait(ops)
  {
    GapExactly(ops);
    if StableSinceWait(ops) {
      WaitFillsOwnSlots(ops, wait);
    }
  }

  // ---- How it fails -------------------------------------------------------

  /** A block over two instruments, each with one command or none. */
  lemma TwoBatches(t: Token, first: Name, second: Name, buffer: seq<SerializedCommand>,
                   a: SerializedCommand, b: SerializedCommand)
    requires Batch(buffer, first, t) == [a] && Batch(buffer, second, t) == [b]
    ensures Batches([first, second], buffer, t) == [a, b]
  {
    var all := [first, second];
    assert all[..1] == [first] && [first][..0] == [];
    assert Batches([first], buffer, t) == [] + [a] == [a];
    assert [a] + [b] == [a, b];
  }

  lemma SendTwo(c: State, t: Token, a: SerializedCommand, b: SerializedCommand, hits: Hits)
    ensures SendAll(c, t, [a, b], hits) == SendOne(SendOne(c, t, a, hits(0)), t, b, hits(1))
  {
    SendAllAppend(c, t, [], a, 0, hits);
    SendAllAppend(c, t, [a], b, 1, hits);
    assert [] + [a] == [a] && [a] + [b] == [a, b];
  }

  const LostCall := Call("B", "GET", map[], true)

  lemma LostBatches()
    ensures Batch(Commands([LostCall]), "A", 1) == [Nop("A", 1)]
    ensures Batch(Commands([LostCall]), "B", 1) == [CommandFor(LostCall).(syncToken := Some(1), isSyncBarrier := true)]
    ensures CommandFor(LostCall).instrument == "B" && "A" != "B"
  {
    assert InstrumentOf("B") == "B" by {
      assert "B"[1..] == "";
    }
    var buffer := Commands([LostCall]);
    assert buffer == [CommandFor(LostCall)] && buffer[..0] == [];
    ForUniform(buffer, "B", "A");
    ForUniform(buffer, "B", "B");
  }

  /** Two slots and one future: the answer goes to the first slot. */
  lemma OneFuture(c: State, t: Token, f: nat, resp: CommandResponse, sends: Sends)
    requires c.order == [t] && Get(c.futures, t) == [f] && Get(c.indices, t) == [0, 1] && |c.results| == 2
    ensures
      var done := Wait(c, g => Some(resp), sends).results;
      |done| == 2 && Shows(c.results[0], done[0], resp) && done[1] == c.results[1]
  {
    PopulateShows(c.results[0], resp);
    var answers: Answers := g => Some(resp);
    assert FillTokens(c, 1, answers) == FillToken(c.results, [f], [0, 1], 1, answers);
    assert FillToken(c.results, [f], [0, 1], 1, answers) == FillOne(c.results, [0, 1], 0, Some(resp));
  }

  /** A first lookup that fails and a second one that does not. */
  lemma MissThenHit(t: Token, all: seq<Name>, nop: SerializedCommand, own: SerializedCommand)
    requires t == 1
    ensures
      var c := SendOne(SendOne(OpenToken(Start, all), t, nop, false), t, own, true);
      && c.order == [1] && Get(c.futures, 1) == [0] && Get(c.indices, 1) == [0, 1] && c.sent == [own]
      && c.results == [Slot(Shown(nop), nop.verb, nop.params), Slot(Shown(own), own.verb, own.params)]
  {
    var begun := OpenToken(Start, all);
    var first := SendOne(begun, t, nop, false);
    OneBooked(begun, t, nop, false);
    assert begun.order == [1] && begun.results == [] && Get(first.indices, 1) == [0] && Get(first.futures, 1) == [];
    assert first.results == [Slot(Shown(nop), nop.verb, nop.params)] && first.sent == [];
    OneBooked(first, t, own, true);
  }

  /**
   * How it fails: with `A` gone, the answer of `B` lands in the slot made for
   * `A`, and `B`'s own slot stays empty.
   */
  lemma AnswerInTheWrongSlot(resp: CommandResponse, sends: Sends)
    ensures
      var c := Block(Start, [LostCall], false, ["A", "B"], i => i == 1);
      && |c.results| == 2 && c.results[0].instrument == "A" && c.results[1].instrument == "B"
      && |c.sent| == 1 && c.sent[0].instrument == "B"
      && var done := Wait(c, f => Some(resp), sends).results;
         |done| == 2 && Shows(c.results[0], done[0], resp) && done[1] == c.results[1]
  {
    var nop, own := Nop("A", 1), CommandFor(LostCall).(syncToken := Some(1), isSyncBarrier := true);
    var begun := OpenToken(Start, ["A", "B"]);
    LostBatches();
    TwoBatches(1, "A", "B", Commands([LostCall]), nop, own);
    SendTwo(begun, 1, nop, own, i => i == 1);
    MissThenHit(1, ["A", "B"], nop, own);
    OneFuture(SendOne(SendOne(begun, 1, nop, false), 1, own, true), 1, 0, resp, sends);
  }
}
