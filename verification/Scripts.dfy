/**
 * What a script does to the gate of one instrument between two waits: which
 * scripts have nothing executed between a barrier and its release.
 */
module Scripts {
  import opened Codec
  import opened Context
  import opened Dispatching
  import G = Gating
  import L = Link
  import opened Options
  import opened Protocol
  import opened Sequences
  import W = Worker

  // ---- Commands since the last wait ---------------------------------------

  /** How many commands had been sent at the last wait. */
  function SentBase(ops: seq<Op>): nat {
    if ops == [] then 0
    else if ops[|ops| - 1].DoWait? then |Run(ops).sent|
    else SentBase(ops[..|ops| - 1])
  }

  /** The registry lists no name twice, since the last wait. */
  ghost predicate DistinctSinceWait(ops: seq<Op>) {
    if ops == [] || ops[|ops| - 1].DoWait? then true
    else (ops[|ops| - 1].DoBlock? ==> Distinct(ops[|ops| - 1].all)) && DistinctSinceWait(ops[..|ops| - 1])
  }

  /** What has been sent to the instrument since the last wait. */
  function SinceWait(ops: seq<Op>, inst: Name): seq<SerializedCommand> {
    if SentBase(ops) <= |Run(ops).sent| then For(Run(ops).sent[SentBase(ops)..], inst) else []
  }

  /** A command is barrier-marked exactly when it is the last one with its token. */
  ghost predicate Segmented(cs: seq<SerializedCommand>) {
    forall i :: 0 <= i < |cs| ==> EndsSegment(cs, i)
  }

  ghost predicate TokensBelow(cs: seq<SerializedCommand>, t: Token) {
    forall i :: 0 <= i < |cs| ==> cs[i].syncToken.Some? && cs[i].syncToken.value < t
  }

  /** Tagged with `t`, exactly the last one marked. */
  ghost predicate OneBatch(batch: seq<SerializedCommand>, t: Token) {
    forall i :: 0 <= i < |batch| ==>
      batch[i].syncToken == Some(t) && (batch[i].isSyncBarrier <==> i == |batch| - 1)
  }

  /** The `i`-th command is marked exactly when it is the last one with its token. */
  ghost predicate EndsSegment(cs: seq<SerializedCommand>, i: nat)
    requires i < |cs|
  {
    && cs[i].syncToken.Some?
    && (cs[i].isSyncBarrier <==> i + 1 == |cs| || cs[i + 1].syncToken != cs[i].syncToken)
  }

  lemma SegmentedAppend(cs: seq<SerializedCommand>, batch: seq<SerializedCommand>, t: Token)
    requires Segmented(cs) && TokensBelow(cs, t) && OneBatch(batch, t)
    ensures Segmented(cs + batch) && TokensBelow(cs + batch, t + 1)
  {
    var all := cs + batch;
    forall i | 0 <= i < |all| ensures EndsSegment(all, i) && all[i].syncToken.value < t + 1 {
      if i >= |cs| {
        var k := i - |cs|;
        assert all[i] == batch[k] && (k + 1 < |batch| ==> all[i + 1] == batch[k + 1]);
      } else {
        assert all[i] == cs[i] && EndsSegment(cs, i);
        if i + 1 < |cs| {
          assert all[i + 1] == cs[i + 1];
        } else if batch != [] {
          assert all[i + 1] == batch[0];
        }
      }
    }
  }

  /** What one operation sends to the instrument is one batch of the next token, or nothing. */
  lemma StepSends(c: State, op: Op, inst: Name) returns (added: seq<SerializedCommand>)
    requires !op.DoWait? && Stable(c, op) && (op.DoBlock? ==> Distinct(op.all))
    ensures Step(c, op).sent == c.sent + added && OneBatch(For(added, inst), c.next)
    ensures For(added, inst) != [] ==> Step(c, op).next == c.next + 1
    ensures c.next <= Step(c, op).next
  {
    if op.DoCall? {
      added := CallSends(c, op.call, op.all, op.live, inst);
    } else if !Dispatches(op) {
      added := [];
      assert c.sent + [] == c.sent;
    } else {
      added := BlockSends(c, op, inst);
    }
  }

  lemma CallSends(c: State, call: Call, all: seq<Name>, live: set<Name>, inst: Name) returns (added: seq<SerializedCommand>)
    ensures
      var c' := Enqueue(c, call, all, live);
      && c'.sent == c.sent + added && OneBatch(For(added, inst), c.next)
      && c.next <= c'.next && (added != [] ==> c'.next == c.next + 1)
  {
    var cmd := CommandFor(call).(syncToken := Some(c.next), isSyncBarrier := true);
    if cmd.instrument in live {
      added := [cmd];
      ForUniform([cmd], cmd.instrument, inst);
    } else {
      added := [];
      assert c.sent + [] == c.sent;
    }
  }

  lemma {:induction false} NextFixed(c: State, t: Token, cmds: seq<SerializedCommand>, hits: Hits)
    ensures SendAll(c, t, cmds, hits).next == c.next
  {
    if cmds != [] {
      NextFixed(c, t, cmds[..|cmds| - 1], hits);
    }
  }

  lemma ReceivesOneBatch(received: seq<SerializedCommand>, calls: seq<Call>, at: seq<nat>, inst: Name, t: Token)
    requires Receives(received, calls, at, inst, t)
    ensures OneBatch(received, t)
  {
    forall k | 0 <= k < |received|
      ensures received[k].syncToken == Some(t) && (received[k].isSyncBarrier <==> k == |received| - 1)
    {
      assert at != [] ==> CarriesCall(received[k], calls[at[k]], t, k == |at| - 1);
    }
  }

  lemma BlockSends(c: State, op: Op, inst: Name) returns (added: seq<SerializedCommand>)
    requires op.DoBlock? && Dispatches(op) && Stable(c, op) && Distinct(op.all)
    ensures Step(c, op).sent == c.sent + added && OneBatch(For(added, inst), c.next)
    ensures Step(c, op).next == c.next + 1
  {
    var cmds := BlockCommands(c, op);
    added := Kept(cmds, op.hits);
    assert AllLookups(cmds, op.hits, inst, true);
    BlockDispatch(c, op.calls, op.all, op.hits, inst);
    if inst in op.all {
      ReceivesOneBatch(For(added, inst), op.calls, Positions(Commands(op.calls), inst), inst, c.next);
    }
    NextFixed(OpenToken(c, op.all), c.next, cmds, op.hits);
  }

  lemma ForSplit(sent: seq<SerializedCommand>, n: nat, added: seq<SerializedCommand>, inst: Name)
    requires n <= |sent|
    ensures For((sent + added)[n..], inst) == For(sent[n..], inst) + For(added, inst)
  {
    assert (sent + added)[n..] == sent[n..] + added;
    ForConcat(sent[n..], added, inst);
  }

  lemma BelowLater(cs: seq<SerializedCommand>, t: Token, u: Token)
    requires TokensBelow(cs, t) && t <= u
    ensures TokensBelow(cs, u)
  {
  }

  /** Between two waits every instrument is sent whole batches of increasing tokens. */
  lemma {:induction false} SinceWaitSegmented(ops: seq<Op>, inst: Name)
    requires StableSinceWait(ops) && DistinctSinceWait(ops)
    ensures SentBase(ops) <= |Run(ops).sent|
    ensures Segmented(SinceWait(ops, inst)) && TokensBelow(SinceWait(ops, inst), Run(ops).next)
  {
    if ops != [] && !ops[|ops| - 1].DoWait? {
      var front, op := ops[..|ops| - 1], ops[|ops| - 1];
      var c := Run(front);
      SinceWaitSegmented(front, inst);
      var added := StepSends(c, op, inst);
      ForSplit(c.sent, SentBase(front), added, inst);
      var cs, mine := SinceWait(front, inst), For(added, inst);
      if mine == [] {
        assert cs + mine == cs;
        BelowLater(cs, c.next, Run(ops).next);
      } else {
        SegmentedAppend(cs, mine, c.next);
      }
    } else {
      assert Run(ops).sent[SentBase(ops)..] == [];
    }
  }

  // ---- The gate -----------------------------------------------------------

  ghost predicate OneToken(cs: seq<SerializedCommand>) {
    forall i, j :: 0 <= i < j < |cs| ==> cs[i].syncToken == cs[j].syncToken
  }

  /** No barrier is followed by another command. */
  ghost predicate NothingAfterBarrier(cs: seq<SerializedCommand>) {
    forall i :: 0 <= i < |cs| - 1 ==> W.Marked(cs[i]).None?
  }

  lemma {:induction false} SameUpTo(cs: seq<SerializedCommand>, i: nat, j: nat)
    requires Segmented(cs) && NothingAfterBarrier(cs) && i <= j < |cs|
    ensures cs[i].syncToken == cs[j].syncToken
  {
    if i < j {
      SameUpTo(cs, i, j - 1);
      assert W.Marked(cs[j - 1]).None? && EndsSegment(cs, j - 1);
    }
  }

  lemma SegmentsGate(cs: seq<SerializedCommand>)
    requires Segmented(cs)
    ensures NothingAfterBarrier(cs) <==> OneToken(cs)
  {
    if NothingAfterBarrier(cs) {
      forall i, j | 0 <= i < j < |cs| ensures cs[i].syncToken == cs[j].syncToken {
        SameUpTo(cs, i, j);
      }
    }
    if OneToken(cs) {
      forall i | 0 <= i < |cs| - 1 ensures W.Marked(cs[i]).None? {
        assert cs[i].syncToken == cs[i + 1].syncToken && EndsSegment(cs, i);
      }
    }
  }

  /** The last messages on the link are these commands, in order, and have arrived. */
  ghost predicate FedWith(s: L.State, n: nat, cs: seq<SerializedCommand>) {
    && |s.offered| == |s.read| == n + |cs|
    && forall i :: 0 <= i < |cs| ==> FedAt(s, s.offered[n + i], cs[i])
  }

  ghost predicate FedAt(s: L.State, m: L.Request, cmd: SerializedCommand) {
    && m.CommandMsg? && m.id in s.commands
    && s.commands[m.id] == cmd.(id := s.commands[m.id].id) && !BadArray(cmd.params)
  }

  lemma FedIsDecodable(s: L.State, m: L.Request, cmd: SerializedCommand, t: Token)
    requires FedAt(s, m, cmd)
    ensures G.Decodable(s, m) && (G.MarkedFor(s, m, t) <==> W.Marked(cmd) == Some(t)) && m != L.ContinueMsg(t)
  {
  }

  lemma FedAtAll(s: L.State, n: nat, cs: seq<SerializedCommand>, i: nat, t: Token)
    requires FedWith(s, n, cs) && n <= i < |s.offered|
    ensures G.Decodable(s, s.offered[i]) && s.offered[i] != L.ContinueMsg(t)
    ensures G.MarkedFor(s, s.offered[i], t) <==> W.Marked(cs[i - n]) == Some(t)
  {
    assert FedAt(s, s.offered[n + (i - n)], cs[i - n]);
    FedIsDecodable(s, s.offered[i], cs[i - n], t);
  }

  lemma NeverReleased(s: L.State, n: nat, cs: seq<SerializedCommand>, i: nat, j: nat, t: Token)
    requires FedWith(s, n, cs) && n <= i < j < |s.offered|
    ensures !G.ReleasedBetween(s.offered, i, j, t)
  {
    forall k | i < k < j ensures s.offered[k] != L.ContinueMsg(t) {
      FedAtAll(s, n, cs, k, t);
    }
  }

  lemma FedHeldBack(s: L.State, n: nat, cs: seq<SerializedCommand>)
    requires FedWith(s, n, cs)
    ensures G.HeldBackFrom(s, G.Arrived(s), n) <==> NothingAfterBarrier(cs)
  {
    var ms := G.Arrived(s);
    assert ms == s.offered;
    if G.HeldBackFrom(s, ms, n) {
      forall i | 0 <= i < |cs| - 1 ensures W.Marked(cs[i]).None? {
        if W.Marked(cs[i]).Some? {
          var t := W.Marked(cs[i]).value;
          FedAtAll(s, n, cs, n + i, t);
          FedAtAll(s, n, cs, n + i + 1, t);
          NeverReleased(s, n, cs, n + i, n + i + 1, t);
        }
      }
    }
    if NothingAfterBarrier(cs) {
      forall i: nat, t: Token | n <= i < |ms| - 1 ensures !G.MarkedFor(s, ms[i], t) {
        FedAtAll(s, n, cs, i, t);
      }
    }
  }

  /**
   * Whatever the interleaving: when all a script sent to an instrument since
   * its last wait has arrived there, nothing was executed between a barrier and
   * its release if and only if all of it belongs to one token.
   */
  lemma ScriptGate(ops: seq<Op>, inst: Name, plugin: W.Plugin, run: seq<L.Action>, n: nat)
    requires StableSinceWait(ops) && DistinctSinceWait(ops)
    requires L.Play(plugin, inst, run).Some? && FedWith(L.Play(plugin, inst, run).value, n, SinceWait(ops, inst))
    ensures G.GatedFrom(plugin, L.Play(plugin, inst, run).value, n) <==> OneToken(SinceWait(ops, inst))
  {
    SinceWaitSegmented(ops, inst);
    SegmentsGate(SinceWait(ops, inst));
    G.GateFromExactly(plugin, inst, run, n);
    FedHeldBack(L.Play(plugin, inst, run).value, n, SinceWait(ops, inst));
  }
}
