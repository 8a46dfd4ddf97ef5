/** The object `RuntimeContext` of an enqueue-mode script, method by method. */
module RuntimeContexts {
  import opened Options
  import opened Codec
  import opened Context
  import Coordination
  import opened Protocol
  import opened Sequences

  /**
   * The registry is consulted through two arguments: `all` is what
   * `list_instruments` returned, and `live`, or lookup by lookup `hits`, what
   * `get_instrument` finds.
   */
  class RuntimeContext {
    const coordinator: Coordination.SyncCoordinator
    var inParallelBlock: bool
    var parallelBuffer: seq<SerializedCommand>
    var nextSyncToken: Token
    var tokenOrder: seq<Token>
    var tokenInstruments: map<Token, set<Name>>
    var tokenFutures: map<Token, seq<nat>>
    var tokenResultIndices: map<Token, seq<nat>>
    var collectedResults: seq<CallResult>
    var sent: seq<SerializedCommand>
    var slots: seq<nat>
    var log: seq<Event>

    constructor (coordinator: Coordination.SyncCoordinator)
      requires coordinator.barriers == map[]
      ensures this.coordinator == coordinator && !inParallelBlock && parallelBuffer == []
      ensures Model() == Start
    {
      this.coordinator := coordinator;
      inParallelBlock, parallelBuffer, nextSyncToken, tokenOrder := false, [], 1, [];
      tokenInstruments, tokenFutures, tokenResultIndices := map[], map[], map[];
      collectedResults, sent, slots, log := [], [], [], [];
    }

    ghost function Model(): State
      reads this, coordinator
    {
      State(nextSyncToken, tokenOrder, tokenInstruments, tokenFutures, tokenResultIndices,
            collectedResults, sent, slots, coordinator.barriers, log)
    }

    // ---- Staging ----------------------------------------------------------

    /** Inside a block a call is only buffered; outside it gets a token of its own. */
    method Call(call: Call, all: seq<Name>, live: set<Name>)
      modifies this, coordinator
      ensures inParallelBlock == old(inParallelBlock)
      ensures old(inParallelBlock) ==>
                Model() == old(Model()) && parallelBuffer == old(parallelBuffer) + [CommandFor(call)]
      ensures !old(inParallelBlock) ==>
                Model() == Enqueue(old(Model()), call, all, live) && parallelBuffer == old(parallelBuffer)
    {
      var cmd := CommandFor(call);
      if inParallelBlock {
        parallelBuffer := parallelBuffer + [cmd];
        return;
      }
      if cmd.instrument !in live {
        return;
      }
      var token := OpenBarrier(all);
      var index := TakeSlot(token, Slot(call.spec, call.verb, call.params));
      Execute(token, cmd.(syncToken := Some(token), isSyncBarrier := true), index);
    }

    /** A token over all registered instruments, registered with the coordinator. */
    method OpenBarrier(all: seq<Name>) returns (token: Token)
      modifies this, coordinator
      ensures token == old(nextSyncToken) && Model() == OpenToken(old(Model()), all)
      ensures inParallelBlock == old(inParallelBlock) && parallelBuffer == old(parallelBuffer)
    {
      token := nextSyncToken;
      nextSyncToken := nextSyncToken + 1;
      coordinator.RegisterBarrier(token, all);
      tokenOrder := tokenOrder + [token];
      if all != [] {
        tokenInstruments := tokenInstruments[token := Coordination.Members(all)];
      }
    }

    method TakeSlot(token: Token, slot: CallResult) returns (index: nat)
      modifies this`collectedResults, this`tokenResultIndices
      ensures index == |old(collectedResults)| && Model() == Place(old(Model()), token, slot)
    {
      index := |collectedResults|;
      collectedResults := collectedResults + [slot];
      tokenResultIndices := Push(tokenResultIndices, token, index);
    }

    /** `index` is the slot taken for the command. */
    method Execute(token: Token, cmd: SerializedCommand, index: nat)
      modifies this`sent, this`slots, this`tokenFutures
      ensures Model() == Launch(old(Model()), token, cmd, index)
    {
      var future := |sent|;
      sent, slots := sent + [cmd], slots + [index];
      tokenFutures := Push(tokenFutures, token, future);
    }

    /** A slot for the command, then the lookup of its worker, then the send. */
    method SlotAndSend(token: Token, cmd: SerializedCommand, hit: bool)
      modifies this`collectedResults, this`tokenResultIndices, this`sent, this`slots, this`tokenFutures
      ensures Model() == SendOne(old(Model()), token, cmd, hit)
    {
      var index := TakeSlot(token, Slot(Shown(cmd), cmd.verb, cmd.params));
      if hit {
        Execute(token, cmd, index);
      }
    }

    /** A parallel block; a nested one is refused without running it. */
    method Parallel(calls: seq<Call>, throws: bool, all: seq<Name>, hits: Hits) returns (threw: bool)
      modifies this, coordinator
      ensures inParallelBlock == old(inParallelBlock)
      ensures threw == (throws && !old(inParallelBlock))
      ensures Model() == if old(inParallelBlock) then old(Model())
                         else Block(old(Model()), calls, throws, all, hits)
    {
      if inParallelBlock {
        return false;
      }
      inParallelBlock := true;
      parallelBuffer := [];
      RunBlock(calls, all);
      inParallelBlock := false;
      if throws {
        parallelBuffer := [];
        return true;
      }
      if parallelBuffer == [] {
        return false;
      }
      var token := OpenBarrier(all);
      DispatchBuffer(token, all, hits);
      return false;
    }

    method RunBlock(calls: seq<Call>, all: seq<Name>)
      requires inParallelBlock && parallelBuffer == []
      modifies this, coordinator
      ensures inParallelBlock && Model() == old(Model()) && parallelBuffer == Commands(calls)
    {
      for i := 0 to |calls|
        invariant inParallelBlock && Model() == old(Model())
        invariant parallelBuffer == Commands(calls[..i])
      {
        assert calls[..i + 1] == calls[..i] + [calls[i]];
        Call(calls[i], all, {});
      }
      assert calls[..|calls|] == calls;
    }

    method DispatchBuffer(token: Token, all: seq<Name>, hits: Hits)
      modifies this`collectedResults, this`tokenResultIndices, this`sent, this`slots, this`tokenFutures
      ensures Model() == SendAll(old(Model()), token, Batches(all, parallelBuffer, token), hits)
    {
      var perInst := Group(parallelBuffer);
      ghost var before, cmds := Model(), [];
      var lookups := 0;
      for i := 0 to |all|
        invariant cmds == Batches(all[..i], parallelBuffer, token) && lookups == |cmds|
        invariant Model() == SendAll(before, token, cmds, hits)
      {
        BatchesNext(all, i, parallelBuffer, token);
        var batch := Prepare(perInst, parallelBuffer, all[i], token);
        SendBatch(before, cmds, token, batch, lookups, hits);
        cmds, lookups := cmds + batch, lookups + |batch|;
      }
      assert all[..|all|] == all;
    }

    /** The commands of one instrument, tagged; a NOP if there are none. */
    static method Prepare(perInst: map<Name, seq<SerializedCommand>>, ghost buffer: seq<SerializedCommand>,
                          inst: Name, token: Token) returns (batch: seq<SerializedCommand>)
      requires inst in perInst <==> For(buffer, inst) != []
      requires inst in perInst ==> perInst[inst] == For(buffer, inst)
      ensures batch == Batch(buffer, inst, token)
    {
      if inst !in perInst {
        return [Nop(inst, token)];
      }
      var vec := perInst[inst];
      batch := seq(|vec|, j requires 0 <= j < |vec| => Tagged(vec, token, j));
    }

    /** Commands grouped by instrument, each group in call order. */
    static method Group(buffer: seq<SerializedCommand>) returns (perInst: map<Name, seq<SerializedCommand>>)
      ensures forall n :: n in perInst <==> For(buffer, n) != []
      ensures forall n :: n in perInst ==> perInst[n] == For(buffer, n)
    {
      perInst := map[];
      for i := 0 to |buffer|
        invariant forall n :: n in perInst <==> For(buffer[..i], n) != []
        invariant forall n :: n in perInst ==> perInst[n] == For(buffer[..i], n)
      {
        var cmd := buffer[i];
        assert buffer[..i + 1][..i] == buffer[..i];
        var prior := if cmd.instrument in perInst then perInst[cmd.instrument] else [];
        perInst := perInst[cmd.instrument := prior + [cmd]];
      }
      assert buffer[..|buffer|] == buffer;
    }

    /** The next command of the block, and the lookup made for it. */
    method SendNext(ghost before: State, ghost cmds: seq<SerializedCommand>, token: Token,
                    cmd: SerializedCommand, at: nat, hits: Hits)
      requires at == |cmds| && Model() == SendAll(before, token, cmds, hits)
      modifies this`collectedResults, this`tokenResultIndices, this`sent, this`slots, this`tokenFutures
      ensures Model() == SendAll(before, token, cmds + [cmd], hits)
    {
      SendAllAppend(before, token, cmds, cmd, at, hits);
      SlotAndSend(token, cmd, hits(at));
    }

    /** Sends the batch of one instrument; `cmds`, `first` of them, went before it. */
    method SendBatch(ghost before: State, ghost cmds: seq<SerializedCommand>, token: Token,
                     batch: seq<SerializedCommand>, first: nat, hits: Hits)
      requires first == |cmds|
      requires Model() == SendAll(before, token, cmds, hits)
      modifies this`collectedResults, this`tokenResultIndices, this`sent, this`slots, this`tokenFutures
      ensures Model() == SendAll(before, token, cmds + batch, hits)
    {
      ghost var sofar := cmds;
      for i := 0 to |batch|
        invariant sofar == cmds + batch[..i] && |sofar| == first + i
        invariant Model() == SendAll(before, token, sofar, hits)
      {
        TakeOneMore(cmds, batch, i);
        SendNext(before, sofar, token, batch[i], first + i, hits);
        sofar := sofar + [batch[i]];
      }
      assert batch[..|batch|] == batch;
    }

    // ---- Waiting and releasing --------------------------------------------

    /**
     * Waits for the futures token by token, releases and clears each token,
     * and forgets them all.  `sends` is whom each token was released to.
     */
    method ProcessTokensAndWait(answers: Answers, live: Lookup) returns (ghost sends: Sends)
      modifies this, coordinator
      ensures inParallelBlock == old(inParallelBlock) && parallelBuffer == old(parallelBuffer)
      ensures Model() == Wait(old(Model()), answers, sends)
      ensures Found(old(Model()), live, sends)
    {
      sends := ProcessTokens(answers, live);
      assert tokenOrder[..|tokenOrder|] == tokenOrder;
      tokenOrder, tokenInstruments, tokenFutures, tokenResultIndices := [], map[], map[], map[];
    }

    method ProcessTokens(answers: Answers, live: Lookup) returns (ghost sends: Sends)
      modifies this`collectedResults, this`log, coordinator
      ensures Model() == Midway(old(Model()), |tokenOrder|, answers, sends)
      ensures Found(old(Model()), live, sends)
    {
      sends := [];
      ghost var before := Model();
      MidwayStart(before, answers);
      for i := 0 to |tokenOrder|
        invariant |sends| == i && Model() == Midway(before, i, answers, sends)
        invariant FoundUpTo(before, i, live, sends)
      {
        ghost var names := ProcessToken(tokenOrder[i], answers, live);
        MidwayNext(before, i, answers, sends, names);
        FoundNext(before, i, live, sends, names);
        sends := sends + [names];
      }
    }

    method ProcessToken(token: Token, answers: Answers, live: Lookup) returns (ghost names: seq<Name>)
      modifies this`collectedResults, this`log, coordinator
      ensures Model() == WaitOne(old(Model()), token, answers, names)
      ensures FoundFor(old(Model()), token, live, names)
    {
      ghost var before := Model();
      SettleFutures(token, answers);
      names := Release(token, live);
      ClearToken(token);
      WaitOneLog(before, token, names);
    }

    /** `future.get()`: it returns once the future is settled. */
    method Await(future: nat, answers: Answers) returns (resp: Option<CommandResponse>)
      modifies this`log
      ensures resp == answers(future) && log == old(log) + [Settled(future)]
    {
      log := log + [Settled(future)];
      resp := answers(future);
    }

    method SettleFutures(token: Token, answers: Answers)
      modifies this`collectedResults, this`log
      ensures log == old(log) + SettleEvents(Get(tokenFutures, token))
      ensures
        var futs := Get(tokenFutures, token);
        collectedResults == FillToken(old(collectedResults), futs, Get(tokenResultIndices, token), |futs|, answers)
    {
      var futs, inds := Get(tokenFutures, token), Get(tokenResultIndices, token);
      for i := 0 to |futs|
        invariant log == old(log) + SettleEvents(futs[..i])
        invariant collectedResults == FillToken(old(collectedResults), futs, inds, i, answers)
      {
        assert futs[..i + 1][..i] == futs[..i];
        Regroup(old(log), SettleEvents(futs[..i]), [Settled(futs[i])]);
        var resp := Await(futs[i], answers);
        collectedResults := FillOne(collectedResults, inds, i, resp);
      }
      assert futs[..|futs|] == futs;
    }

    /** `send_sync_continue` on the worker's proxy. */
    method SendSyncContinue(inst: Name, token: Token)
      modifies this`log
      ensures log == old(log) + [Released(inst, token)]
    {
      log := log + [Released(inst, token)];
    }

    /** Releases the token to each of its instruments that is still there, once. */
    method Release(token: Token, live: Lookup) returns (ghost names: seq<Name>)
      modifies this`log
      ensures log == old(log) + ReleaseEvents(token, names)
      ensures FoundFor(old(Model()), token, live, names)
    {
      names := [];
      if token in tokenInstruments {
        var insts := tokenInstruments[token];
        var rest := insts;
        while rest != {}
          invariant rest <= insts
          invariant Distinct(names) && Coordination.Members(names) == (insts - rest) * live(token)
          invariant log == old(log) + ReleaseEvents(token, names)
          decreases rest
        {
          var inst :| inst in rest;
          if inst in live(token) {
            SendSyncContinue(inst, token);
            AnotherName(token, names, inst);
            Regroup(old(log), ReleaseEvents(token, names), [Released(inst, token)]);
            names := names + [inst];
          }
          rest := rest - {inst};
        }
      }
    }

    static lemma AnotherName(token: Token, names: seq<Name>, inst: Name)
      requires Distinct(names) && inst !in Coordination.Members(names)
      ensures Distinct(names + [inst])
      ensures Coordination.Members(names + [inst]) == Coordination.Members(names) + {inst}
      ensures ReleaseEvents(token, names + [inst]) == ReleaseEvents(token, names) + [Released(inst, token)]
    {
      assert (names + [inst])[..|names|] == names;
    }

    method ClearToken(token: Token)
      modifies this`log, coordinator
      ensures coordinator.barriers == Coordination.Apply(old(coordinator.barriers), Coordination.Clear(token))
      ensures log == old(log) + [Cleared(token)]
    {
      coordinator.ClearBarrier(token);
      log := log + [Cleared(token)];
    }
  }
}
