/**
 * The gate as the server means it: no command between a barrier-marked command
 * of a token and SYNC_CONTINUE for that token.  The mark does not reach the
 * worker, so whether a run keeps to it depends on the order of the sends alone.
 */
module Gating {
  import opened Codec
  import opened Link
  import opened Options
  import opened Protocol
  import R = LinkRuns
  import W = Worker

  // ---- The worker follows what it reads -----------------------------------

  function Inbounds(ms: seq<Request>): seq<W.Inbound> {
    seq(|ms|, i requires 0 <= i < |ms| => Inbound(ms[i]))
  }

  /** The worker's log is that of a worker run on the messages read so far. */
  ghost predicate Follows(plugin: W.Plugin, s: State) {
    var w := W.Run(plugin, Inbounds(s.read));
    && s.worker.done == w.done && s.worker.waiting == w.waiting && (s.worker.running ==> w.running)
    && (s.read != [] ==> W.Run(plugin, Inbounds(s.read[..|s.read| - 1])).running)
  }

  ghost predicate StreamInv(plugin: W.Plugin, s: State) {
    && s.offered == s.read + s.requests
    && (forall i :: 0 <= i < |s.read| ==> Carries(s, s.read[i]))
    && Follows(plugin, s)
  }

  lemma RunRead(plugin: W.Plugin, read: seq<Request>, m: Request)
    ensures W.Run(plugin, Inbounds(read + [m])) == W.Step(plugin, W.Run(plugin, Inbounds(read)), Inbound(m))
  {
    var longer := Inbounds(read + [m]);
    assert longer[..|read|] == Inbounds(read);
  }

  lemma SameTurn(plugin: W.Plugin, w: W.State, w': W.State, m: W.Inbound)
    requires w.running && w'.running && w.done == w'.done && w.waiting == w'.waiting
    ensures
      var v, v' := W.Step(plugin, w, m), W.Step(plugin, w', m);
      v.done == v'.done && v.waiting == v'.waiting && v.running == v'.running
  {
  }

  lemma ReceiveFollows(plugin: W.Plugin, s: State)
    requires Follows(plugin, s) && Enabled(s, WorkerReceive)
    ensures Follows(plugin, Receive(plugin, s))
  {
    var m := s.requests[0];
    RunRead(plugin, s.read, m);
    SameTurn(plugin, s.worker, W.Run(plugin, Inbounds(s.read)), Inbound(m));
    assert (s.read + [m])[..|s.read|] == s.read;
  }

  lemma ReceiveStream(plugin: W.Plugin, s: State)
    requires IdsInv(s) && RequestInv(s) && StreamInv(plugin, s) && Enabled(s, WorkerReceive)
    ensures StreamInv(plugin, Receive(plugin, s))
  {
    var s' := Receive(plugin, s);
    ReceiveFollows(plugin, s);
    assert s.requests == [s.requests[0]] + s.requests[1..];
    forall i | 0 <= i < |s'.read| ensures Carries(s', s'.read[i]) {
      if i < |s.read| {
        assert Carries(s, s.read[i]);
      } else {
        assert Carries(s, s.requests[0]);
      }
    }
  }

  lemma StillCarries(s: State, s': State, m: Request)
    requires Grows(s, s') && Carries(s, m)
    ensures Carries(s', m)
  {
  }

  /** Nobody but the worker reads its queue; the others only add to it. */
  lemma OthersAppend(plugin: W.Plugin, s: State, a: Action)
    requires Enabled(s, a) && !a.WorkerReceive? && s.offered == s.read + s.requests
    ensures
      var s' := Next(plugin, s, a);
      && s'.read == s.read && s'.offered == s'.read + s'.requests
      && s'.worker.done == s.worker.done && s'.worker.waiting == s.worker.waiting
      && (s'.worker.running ==> s.worker.running)
  {
  }

  lemma StreamStep(plugin: W.Plugin, s: State, a: Action)
    requires IdsInv(s) && RequestInv(s) && StreamInv(plugin, s) && Enabled(s, a)
    ensures StreamInv(plugin, Next(plugin, s, a))
  {
    if a.WorkerReceive? {
      ReceiveStream(plugin, s);
    } else {
      var s' := Next(plugin, s, a);
      GrowsStep(plugin, s, a);
      OthersAppend(plugin, s, a);
      forall i | 0 <= i < |s'.read| ensures Carries(s', s'.read[i]) {
        StillCarries(s, s', s.read[i]);
      }
    }
  }

  /** In every interleaving the worker behaves as `Worker` says on what it reads, in the order it was sent. */
  lemma {:induction false} StreamAlways(plugin: W.Plugin, name: string, run: seq<Action>)
    requires Play(plugin, name, run).Some?
    ensures StreamInv(plugin, Play(plugin, name, run).value)
  {
    if run != [] {
      var front := run[..|run| - 1];
      StreamAlways(plugin, name, front);
      Reachable(plugin, name, front);
      StreamStep(plugin, Play(plugin, name, front).value, run[|run| - 1]);
    }
  }

  // ---- The gate -----------------------------------------------------------

  /** The worker executed the `i`-th message it read. */
  predicate Executed(plugin: W.Plugin, s: State, i: int) {
    W.Executes(plugin, Inbounds(s.read), i)
  }

  /** A command whose payload can be decoded. */
  ghost predicate Decodable(s: State, m: Request) {
    m.CommandMsg? && m.id in s.commands && !BadArray(s.commands[m.id].params)
  }

  /** The command was handed to `execute` as a barrier of `t`. */
  predicate MarkedFor(s: State, m: Request, t: Token) {
    m.CommandMsg? && m.id in s.commands && W.Marked(s.commands[m.id]) == Some(t)
  }

  ghost predicate ReleasedBetween(ms: seq<Request>, i: int, j: int, t: Token) {
    exists k :: 0 <= k < |ms| && i < k < j && ms[k] == ContinueMsg(t)
  }

  /** From the `n`-th message on, nothing was executed between a barrier and its release. */
  ghost predicate GatedFrom(plugin: W.Plugin, s: State, n: nat) {
    forall i, j, t ::
      n <= i < j < |s.read| && Executed(plugin, s, i) && Executed(plugin, s, j) && MarkedFor(s, s.read[i], t) ==>
        ReleasedBetween(s.read, i, j, t)
  }

  ghost predicate Gated(plugin: W.Plugin, s: State) {
    GatedFrom(plugin, s, 0)
  }

  /** From the `n`-th of the messages `ms` on, the server sent no command after a barrier before the release. */
  ghost predicate HeldBackFrom(s: State, ms: seq<Request>, n: nat) {
    forall i, j, t ::
      n <= i < j < |ms| && Decodable(s, ms[i]) && Decodable(s, ms[j]) && MarkedFor(s, ms[i], t) ==>
        ReleasedBetween(ms, i, j, t)
  }

  /** The messages sent that have reached the worker. */
  function Arrived(s: State): seq<Request> {
    if |s.read| <= |s.offered| then s.offered[..|s.read|] else s.offered
  }

  ghost predicate HeldBack(s: State) {
    HeldBackFrom(s, Arrived(s), 0)
  }

  lemma InboundUnmarked(m: Request)
    ensures W.Unmarked(Inbound(m))
  {
  }

  lemma ReadDecodes(s: State, m: Request)
    requires Carries(s, m)
    ensures Inbound(m).Command? && Inbound(m).cmd.Some? <==> Decodable(s, m)
  {
    if m.CommandMsg? {
      CommandDelivery(s.commands[m.id]);
    }
  }

  lemma ReadUnmarked(read: seq<Request>)
    ensures W.AllUnmarked(Inbounds(read))
  {
    forall k | 0 <= k < |read| ensures W.Unmarked(Inbounds(read)[k]) {
      InboundUnmarked(read[k]);
    }
  }

  /** Nothing before the last message read ended the worker. */
  lemma NoneEnded(plugin: W.Plugin, s: State, i: nat)
    requires Follows(plugin, s) && i < |s.read|
    ensures W.NoneEnds(Inbounds(s.read)[..i])
  {
    var ins, n := Inbounds(s.read), |s.read| - 1;
    ReadUnmarked(s.read[..n]);
    W.UnmarkedNeverWaits(plugin, Inbounds(s.read[..n]));
    assert Inbounds(s.read[..n]) == ins[..n];
    W.NoneEndsEarlier(ins, i, n);
  }

  /** Every command the worker read and could decode was executed, and nothing else. */
  lemma ExecutedExactly(plugin: W.Plugin, s: State, i: nat)
    requires StreamInv(plugin, s) && i < |s.read|
    ensures Executed(plugin, s, i) <==> Decodable(s, s.read[i])
  {
    ReadUnmarked(s.read);
    W.UnmarkedExecutes(plugin, Inbounds(s.read), i);
    NoneEnded(plugin, s, i);
    ReadDecodes(s, s.read[i]);
  }

  lemma GateFromExactly(plugin: W.Plugin, name: string, run: seq<Action>, n: nat)
    requires Play(plugin, name, run).Some?
    ensures
      var s := Play(plugin, name, run).value;
      GatedFrom(plugin, s, n) <==> HeldBackFrom(s, Arrived(s), n)
  {
    StreamAlways(plugin, name, run);
    var s := Play(plugin, name, run).value;
    assert Arrived(s) == s.read;
    forall i | 0 <= i < |s.read| ensures Executed(plugin, s, i) <==> Decodable(s, s.read[i]) {
      ExecutedExactly(plugin, s, i);
    }
  }

  /**
   * In every interleaving, nothing is executed between a barrier and its
   * release if and only if, among the messages that have arrived, the server
   * sent nothing to execute between them.
   */
  lemma GateExactly(plugin: W.Plugin, name: string, run: seq<Action>)
    requires Play(plugin, name, run).Some?
    ensures Gated(plugin, Play(plugin, name, run).value) <==> HeldBack(Play(plugin, name, run).value)
  {
    GateFromExactly(plugin, name, run, 0);
  }

  // ---- It does happen -----------------------------------------------------

  /** `a` and `b` are on the queue as messages 1 and 2, and the worker has not moved. */
  ghost predicate BothQueued(s: State, a: SerializedCommand, b: SerializedCommand) {
    && 1 in s.commands && s.commands[1] == a.(id := s.commands[1].id)
    && 2 in s.commands && s.commands[2] == b.(id := s.commands[2].id)
    && s.offered == s.requests == [CommandMsg(1, EncodeCommand(s.commands[1])), CommandMsg(2, EncodeCommand(s.commands[2]))]
    && s.read == [] && s.worker == W.Start && s.outbox == [] && !s.crashed
  }

  lemma TwoCalls(plugin: W.Plugin, name: string, a: SerializedCommand, b: SerializedCommand) returns (run: seq<Action>)
    ensures Play(plugin, name, run).Some? && BothQueued(Play(plugin, name, run).value, a, b)
  {
    run := R.HandOver(plugin, name, [], a);
    run := R.HandOver(plugin, name, run, b);
  }

  lemma TwoIds(d: W.Execution, e: W.Execution)
    ensures DoneIds([d, e]) == [d.id, e.id]
  {
    assert [d, e] == [d] + [e] && [d] == [] + [d];
    DoneAppend([], d);
    DoneAppend([d], e);
  }

  /** `a` and `b`, messages 1 and 2, are all that was sent, and the worker has read both. */
  ghost predicate BothRead(s: State, a: SerializedCommand, b: SerializedCommand) {
    && |s.read| == 2 && s.offered == s.read
    && s.read[0].CommandMsg? && s.read[0].id == 1 && 1 in s.commands && s.commands[1] == a.(id := s.commands[1].id)
    && s.read[1].CommandMsg? && s.read[1].id == 2 && 2 in s.commands && s.commands[2] == b.(id := s.commands[2].id)
  }

  /** Two calls of `execute` one after the other, and the worker that reads both. */
  lemma TwoCommands(plugin: W.Plugin, name: string, a: SerializedCommand, b: SerializedCommand)
    returns (run: seq<Action>)
    requires !BadArray(a.params) && !BadArray(b.params)
    ensures Play(plugin, name, run).Some?
    ensures BothRead(Play(plugin, name, run).value, a, b) && DoneIds(Play(plugin, name, run).value.worker.done) == [1, 2]
  {
    run := TwoCalls(plugin, name, a, b);
    var s := Play(plugin, name, run).value;
    run := R.Serve(plugin, name, run, 1, s.commands[1]);
    run := R.Drop(plugin, name, run);
    run := R.Serve(plugin, name, run, 2, s.commands[2]);
    var done := Play(plugin, name, run).value.worker.done;
    assert done == [done[0], done[1]];
    TwoIds(done[0], done[1]);
  }

  /**
   * A barrier of token `t`, then another command, and nothing else sent: the
   * worker executes both, though nobody released `t`.
   */
  lemma GateFails(plugin: W.Plugin, name: string, a: SerializedCommand, b: SerializedCommand, t: Token)
    returns (run: seq<Action>)
    requires W.Marked(a) == Some(t) && !BadArray(a.params) && !BadArray(b.params)
    ensures Play(plugin, name, run).Some?
    ensures
      var s := Play(plugin, name, run).value;
      && DoneIds(s.worker.done) == [1, 2]
      && 1 in s.commands && s.commands[1].isSyncBarrier && s.commands[1].syncToken == Some(t)
      && (forall m :: m in s.offered ==> m.CommandMsg?)
      && !Gated(plugin, s)
  {
    run := TwoCommands(plugin, name, a, b);
    BothUngated(Play(plugin, name, run).value, a, b, t);
    GateExactly(plugin, name, run);
  }

  lemma BothUngated(s: State, a: SerializedCommand, b: SerializedCommand, t: Token)
    requires BothRead(s, a, b) && W.Marked(a) == Some(t) && !BadArray(a.params) && !BadArray(b.params)
    ensures s.commands[1].isSyncBarrier && s.commands[1].syncToken == Some(t)
    ensures (forall m :: m in s.offered ==> m.CommandMsg?) && !HeldBack(s)
  {
    PairNotHeldBack(s, t);
  }

  lemma PairNotHeldBack(s: State, t: Token)
    requires s.offered == s.read && |s.read| == 2
    requires Decodable(s, s.read[0]) && Decodable(s, s.read[1]) && MarkedFor(s, s.read[0], t)
    ensures !HeldBack(s)
  {
    assert Arrived(s) == s.read;
    assert !ReleasedBetween(s.read, 0, 1, t);
  }
}
