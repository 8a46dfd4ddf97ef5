/**
 * What a link does when nothing goes wrong: every command that was accepted is
 * executed and answered, and its own answer reaches its future.
 */
module Quiescence {
  import opened Codec
  import G = Gating
  import opened Link
  import opened Options
  import P = Proxy
  import opened Sequences
  import Text
  import W = Worker

  // ---- What was handed over -----------------------------------------------

  /** The commands given to `execute` in a run, in order. */
  function Handed(run: seq<Action>): seq<SerializedCommand> {
    if run == [] then []
    else
      var front, a := Handed(run[..|run| - 1]), run[|run| - 1];
      if a.Allocate? then front + [a.cmd] else front
  }

  /** Message `k` is the `k`-th command given to `execute`, with its id filled in. */
  ghost predicate HandedInv(s: State, handed: seq<SerializedCommand>) {
    && s.proxy.nextId == |handed| + 1
    && forall k :: 1 <= k <= |handed| ==>
         k in s.commands && s.commands[k] == handed[k - 1].(id := s.name + "-" + Text.Natural(k))
  }

  lemma HandedFrame(plugin: W.Plugin, s: State, a: Action)
    requires Enabled(s, a) && !a.Allocate?
    ensures
      var s' := Next(plugin, s, a);
      s'.name == s.name && s'.commands == s.commands && s'.proxy.nextId == s.proxy.nextId
  {
  }

  lemma HandedNext(plugin: W.Plugin, s: State, cmd: SerializedCommand, handed: seq<SerializedCommand>)
    requires HandedInv(s, handed) && Enabled(s, Allocate(cmd))
    ensures HandedInv(Next(plugin, s, Allocate(cmd)), handed + [cmd]) && Next(plugin, s, Allocate(cmd)).name == s.name
  {
    var s', longer := Next(plugin, s, Allocate(cmd)), handed + [cmd];
    forall k | 1 <= k <= |longer|
      ensures k in s'.commands && s'.commands[k] == longer[k - 1].(id := s.name + "-" + Text.Natural(k))
    {
      assert k <= |handed| ==> longer[k - 1] == handed[k - 1];
    }
  }

  lemma HandedStep(plugin: W.Plugin, s: State, a: Action, handed: seq<SerializedCommand>)
    requires HandedInv(s, handed) && Enabled(s, a)
    ensures Next(plugin, s, a).name == s.name
    ensures HandedInv(Next(plugin, s, a), if a.Allocate? then handed + [a.cmd] else handed)
  {
    if a.Allocate? {
      HandedNext(plugin, s, a.cmd, handed);
    } else {
      HandedFrame(plugin, s, a);
    }
  }

  lemma {:induction false} HandedExactly(plugin: W.Plugin, name: string, run: seq<Action>)
    requires Play(plugin, name, run).Some?
    ensures Play(plugin, name, run).value.name == name
    ensures HandedInv(Play(plugin, name, run).value, Handed(run))
  {
    if run != [] {
      var front := run[..|run| - 1];
      HandedExactly(plugin, name, front);
      HandedStep(plugin, Play(plugin, name, front).value, run[|run| - 1], Handed(front));
    }
  }

  // ---- What was sent ------------------------------------------------------

  ghost function SentCalls(s: State): set<nat> {
    set k | k in s.calls && s.calls[k] == Sent
  }

  /** `commands_sent` counts the commands the queue took, but for calls still on their way to count. */
  ghost predicate SentInv(s: State) {
    s.proxy.stats.sent + |SentCalls(s)| == |CommandIds(s.offered)|
  }

  lemma SentFrame(s: State, s': State)
    requires SentInv(s) && s'.proxy.stats.sent == s.proxy.stats.sent && s'.offered == s.offered
    requires forall k :: InPhase(s, k, Sent) <==> InPhase(s', k, Sent)
    ensures SentInv(s')
  {
    forall k: nat ensures k in SentCalls(s') <==> k in SentCalls(s) {
      assert InPhase(s, k, Sent) <==> InPhase(s', k, Sent);
    }
    assert SentCalls(s') == SentCalls(s);
  }

  lemma SentBySend(plugin: W.Plugin, s: State, k: nat, accepted: bool)
    requires IdsInv(s) && SentInv(s) && Enabled(s, Send(k, accepted))
    ensures SentInv(Next(plugin, s, Send(k, accepted)))
  {
    var s' := Next(plugin, s, Send(k, accepted));
    if accepted {
      IdsAppend(s.offered, CommandMsg(k, EncodeCommand(s.commands[k])));
      assert SentCalls(s') == SentCalls(s) + {k} && k !in SentCalls(s);
    } else {
      SentFrame(s, s');
    }
  }

  lemma SentByFinish(plugin: W.Plugin, s: State, k: nat)
    requires SentInv(s) && Enabled(s, Finish(k))
    ensures SentInv(Next(plugin, s, Finish(k)))
  {
    var s' := Next(plugin, s, Finish(k));
    if s.calls[k] == Sent {
      assert SentCalls(s) == SentCalls(s') + {k} && k !in SentCalls(s');
    } else {
      SentFrame(s, s');
    }
  }

  lemma SentByOther(plugin: W.Plugin, s: State, msg: Request)
    requires SentInv(s) && Enabled(s, SendOther(msg))
    ensures SentInv(Next(plugin, s, SendOther(msg)))
  {
    IdsAppend(s.offered, msg);
    assert CommandIds(s.offered) + [] == CommandIds(s.offered);
    assert SentCalls(Next(plugin, s, SendOther(msg))) == SentCalls(s);
  }

  lemma OthersSendNothing(plugin: W.Plugin, s: State, a: Action)
    requires IdsInv(s) && Enabled(s, a) && !a.Send? && !a.Finish? && !a.SendOther?
    ensures
      var s' := Next(plugin, s, a);
      && s'.proxy.stats.sent == s.proxy.stats.sent && s'.offered == s.offered
      && forall k :: InPhase(s, k, Sent) <==> InPhase(s', k, Sent)
  {
  }

  lemma SentStep(plugin: W.Plugin, s: State, a: Action)
    requires IdsInv(s) && SentInv(s) && Enabled(s, a)
    ensures SentInv(Next(plugin, s, a))
  {
    match a
    case Send(k, accepted) => SentBySend(plugin, s, k, accepted);
    case Finish(k) => SentByFinish(plugin, s, k);
    case SendOther(msg) => SentByOther(plugin, s, msg);
    case _ =>
      OthersSendNothing(plugin, s, a);
      SentFrame(s, Next(plugin, s, a));
  }

  /** In every interleaving `commands_sent` is the number of commands the queue took, when no call is under way. */
  lemma {:induction false} SentExactly(plugin: W.Plugin, name: string, run: seq<Action>)
    requires Play(plugin, name, run).Some?
    ensures SentInv(Play(plugin, name, run).value)
  {
    if run == [] {
      assert SentCalls(Init(name)) == {};
    } else {
      var front := run[..|run| - 1];
      SentExactly(plugin, name, front);
      Reachable(plugin, name, front);
      SentStep(plugin, Play(plugin, name, front).value, run[|run| - 1]);
    }
  }

  // ---- When the worker runs -----------------------------------------------

  ghost predicate Harmless(s: State, m: Request) {
    !m.ShutdownMsg? && (m.CommandMsg? ==> G.Decodable(s, m))
  }

  ghost predicate RunningInv(s: State, died: bool) {
    s.worker.running <==> !died && forall i :: 0 <= i < |s.read| ==> Harmless(s, s.read[i])
  }

  lemma HarmlessGrows(s: State, s': State, m: Request)
    requires Carries(s, m) && Grows(s, s')
    ensures Harmless(s', m) <==> Harmless(s, m)
  {
  }

  lemma HarmlessTurn(plugin: W.Plugin, s: State, w: W.State, m: Request)
    requires Carries(s, m) && w.running && w.waiting.None?
    ensures W.Step(plugin, w, Inbound(m)).running <==> Harmless(s, m)
  {
    G.ReadDecodes(s, m);
  }

  lemma RunningReceive(plugin: W.Plugin, s: State)
    requires RequestInv(s) && G.StreamInv(plugin, s) && NothingLost(s) && RunningInv(s, false)
    requires Enabled(s, WorkerReceive)
    ensures RunningInv(Receive(plugin, s), false)
  {
    var s', m := Receive(plugin, s), s.requests[0];
    assert Carries(s, m) && s'.read == s.read + [m];
    HarmlessTurn(plugin, s, s.worker, m);
    assert Harmless(s', m) <==> Harmless(s, m);
    forall i | 0 <= i < |s.read| ensures Harmless(s', s'.read[i]) {
      assert Harmless(s, s.read[i]);
    }
    assert s'.read[|s.read|] == m;
  }

  lemma RunningOther(plugin: W.Plugin, s: State, a: Action, died: bool)
    requires IdsInv(s) && G.StreamInv(plugin, s) && RunningInv(s, died) && Enabled(s, a) && !a.WorkerReceive?
    ensures RunningInv(Next(plugin, s, a), died || a.WorkerDies?)
  {
    var s' := Next(plugin, s, a);
    GrowsStep(plugin, s, a);
    assert s'.read == s.read;
    assert s'.worker.running == (s.worker.running && !a.WorkerDies?);
    forall i | 0 <= i < |s.read| ensures Harmless(s', s.read[i]) <==> Harmless(s, s.read[i]) {
      HarmlessGrows(s, s', s.read[i]);
    }
  }

  /** The worker runs if and only if it was not killed and has read neither a shutdown nor a command it cannot decode. */
  lemma {:induction false} RunningExactly(plugin: W.Plugin, name: string, run: seq<Action>)
    requires Play(plugin, name, run).Some?
    ensures RunningInv(Play(plugin, name, run).value, WorkerDies in run)
  {
    if run != [] {
      var front, a := run[..|run| - 1], run[|run| - 1];
      FrontAndLast(run);
      var s := Play(plugin, name, front).value;
      RunningExactly(plugin, name, front);
      Reachable(plugin, name, front);
      G.StreamAlways(plugin, name, front);
      Conservation(plugin, name, front);
      if a.WorkerReceive? {
        RunningReceive(plugin, s);
      } else {
        RunningOther(plugin, s, a, WorkerDies in front);
      }
    }
  }

  // ---- What the worker sends ----------------------------------------------

  /** The response under the command's id, then the acknowledgement exactly when it has a token. */
  ghost predicate WireReplies(e: W.Execution, seg: seq<Reply>) {
    && |seg| == (if e.cmd.syncToken.Some? then 2 else 1)
    && seg[0] == ResponseMsg(e.id, EncodeResponse(e.resp))
    && (e.cmd.syncToken.Some? ==> seg[1] == AckMsg(e.id, e.cmd.syncToken.value))
  }

  /** What is left to send is the rest of the replies to the last command executed. */
  ghost predicate OutboxInv(s: State, seg: seq<Reply>, n: nat) {
    s.outbox != [] ==>
      s.worker.done != [] && WireReplies(s.worker.done[|s.worker.done| - 1], seg) && n < |seg| && s.outbox == seg[n..]
  }

  /** A command that is executed leaves exactly its replies to send. */
  lemma ReceiveReplies(plugin: W.Plugin, s: State)
    requires Enabled(s, WorkerReceive)
    ensures
      var s' := Receive(plugin, s);
      if |s'.worker.done| > |s.worker.done|
      then WireReplies(s'.worker.done[|s.worker.done|], s'.outbox) && |s'.worker.done| == |s.worker.done| + 1
      else s'.outbox == []
  {
  }

  lemma OutboxSend(plugin: W.Plugin, s: State, a: Action, seg: seq<Reply>, n: nat)
    requires OutboxInv(s, seg, n) && Enabled(s, a) && a.WorkerSend?
    ensures OutboxInv(Next(plugin, s, a), seg, n + 1)
  {
    assert seg[n..][1..] == seg[n + 1..];
  }

  lemma OutboxOther(plugin: W.Plugin, s: State, a: Action, seg: seq<Reply>, n: nat)
    requires OutboxInv(s, seg, n) && Enabled(s, a) && !a.WorkerSend? && !a.WorkerReceive?
    ensures OutboxInv(Next(plugin, s, a), seg, n)
  {
    OnlyReceiveLogs(plugin, s, a);
    assert Next(plugin, s, a).outbox == [] || Next(plugin, s, a).outbox == s.outbox;
  }

  lemma OutboxReceive(plugin: W.Plugin, s: State)
    requires Enabled(s, WorkerReceive)
    ensures OutboxInv(Receive(plugin, s), Receive(plugin, s).outbox, 0)
  {
    ReceiveReplies(plugin, s);
  }

  /** In every state of every run the worker's outbox is such a rest: replies go out in that order. */
  lemma {:induction false} OutboxAlways(plugin: W.Plugin, name: string, run: seq<Action>) returns (seg: seq<Reply>, n: nat)
    requires Play(plugin, name, run).Some?
    ensures OutboxInv(Play(plugin, name, run).value, seg, n)
  {
    if run == [] {
      seg, n := [], 0;
    } else {
      var front, a := run[..|run| - 1], run[|run| - 1];
      var s := Play(plugin, name, front).value;
      seg, n := OutboxAlways(plugin, name, front);
      if a.WorkerReceive? {
        OutboxReceive(plugin, s);
        seg, n := Receive(plugin, s).outbox, 0;
      } else if a.WorkerSend? {
        OutboxSend(plugin, s, a, seg, n);
        n := n + 1;
      } else {
        OutboxOther(plugin, s, a, seg, n);
      }
    }
  }

  // ---- Nothing gets lost on the way back ----------------------------------

  /** No worker died or timed out, and nobody failed the pending promises. */
  predicate Kind(a: Action) {
    !a.WorkerDies? && !a.FailAll? && (a.WorkerSend? ==> a.accepted)
  }

  ghost predicate Lossless(run: seq<Action>) {
    forall i :: 0 <= i < |run| ==> Kind(run[i])
  }

  predicate Answers(r: Reply, k: nat) {
    r.ResponseMsg? && r.id == k
  }

  ghost predicate Carrying(rs: seq<Reply>, k: nat) {
    exists i :: 0 <= i < |rs| && Answers(rs[i], k)
  }

  /** The answer to `k` is on its way to the listener. */
  ghost predicate InFlight(s: State, k: nat) {
    Carrying(s.outbox, k) || Carrying(s.replies, k) || (s.hand.Some? && Answers(s.hand.value, k))
  }

  /** The future of `k` is settled, or will be by an answer on its way. */
  ghost predicate Arrives(s: State, k: nat) {
    k in s.proxy.settled || InFlight(s, k)
  }

  lemma CarryingAppend(rs: seq<Reply>, r: Reply, k: nat)
    ensures Carrying(rs + [r], k) <==> Carrying(rs, k) || Answers(r, k)
  {
    if Carrying(rs, k) {
      var i :| 0 <= i < |rs| && Answers(rs[i], k);
      assert (rs + [r])[i] == rs[i];
    }
    if Answers(r, k) {
      assert (rs + [r])[|rs|] == r;
    }
  }

  lemma CarryingRest(rs: seq<Reply>, k: nat)
    requires rs != []
    ensures Carrying(rs, k) <==> Answers(rs[0], k) || Carrying(rs[1..], k)
  {
    if Carrying(rs[1..], k) {
      var i :| 0 <= i < |rs[1..]| && Answers(rs[1..][i], k);
      assert rs[i + 1] == rs[1..][i];
    }
    if Carrying(rs, k) && !Answers(rs[0], k) {
      var i :| 0 <= i < |rs| && Answers(rs[i], k);
      assert rs[1..][i - 1] == rs[i];
    }
  }

  /** The listener gives the answer in its hand to the future it is for. */
  lemma ListenerSettles(plugin: W.Plugin, s: State)
    requires ReplyInv(s) && Enabled(s, ListenerHandle) && s.hand.value.ResponseMsg?
    requires s.hand.value.id in s.proxy.pending && DecodeResponse(s.hand.value.payload).Success?
    ensures
      var k, s' := s.hand.value.id, Next(plugin, s, ListenerHandle);
      && k in s'.proxy.settled && s'.proxy.settled[k].FromWorker?
      && Logged(s.worker.done, k, s'.proxy.settled[k].resp)
      && s'.proxy.pending == s.proxy.pending - {k} && !s'.crashed
  {
    var r := s.hand.value;
    var resp := DecodeResponse(r.payload).value;
    HandleDecoded(s, r, resp);
    P.ResponseSettles(s.proxy, r.id, resp);
    HonestIsLogged(s, r);
  }

  lemma HandleDecoded(s: State, r: Reply, resp: CommandResponse)
    requires s.hand == Some(r) && r.ResponseMsg? && DecodeResponse(r.payload) == Success(resp)
    ensures Handle(s) == s.(hand := None, proxy := P.HandleResponse(s.proxy, r.id, resp))
  {
  }

  /** A response in the hand leaves its future settled, unless it ends the server. */
  lemma HandleArrives(s: State, k: nat)
    requires Inv(s) && s.hand.Some? && Answers(s.hand.value, k) && !Handle(s).crashed
    ensures k in Handle(s).proxy.settled
  {
    var i :| 0 <= i < |s.worker.done| && s.worker.done[i].id == k
          && s.hand.value.payload == EncodeResponse(s.worker.done[i].resp);
    assert Genuine(s, s.worker.done[i]);
    assert k in s.proxy.pending + s.proxy.settled.Keys;
    if k in s.proxy.pending {
      P.ResponseSettles(s.proxy, k, DecodeResponse(s.hand.value.payload).value);
    }
  }

  lemma ArrivesHandle(s: State, k: nat)
    requires Inv(s) && s.hand.Some? && Arrives(s, k) && P.Keeps(s.proxy, Handle(s).proxy) && !Handle(s).crashed
    ensures Arrives(Handle(s), k)
  {
    if Answers(s.hand.value, k) {
      HandleArrives(s, k);
    }
  }

  /** Moving an answer along keeps it in flight. */
  lemma ArrivesMoved(plugin: W.Plugin, s: State, a: Action, k: nat)
    requires Enabled(s, a) && Kind(a) && !a.ListenerHandle? && Arrives(s, k)
    requires P.Keeps(s.proxy, Next(plugin, s, a).proxy)
    ensures Arrives(Next(plugin, s, a), k)
  {
    match a
    case WorkerSend(_) =>
      CarryingRest(s.outbox, k);
      CarryingAppend(s.replies, s.outbox[0], k);
    case WorkerBeat => CarryingAppend(s.replies, HeartbeatMsg, k);
    case ListenerTake => CarryingRest(s.replies, k);
    case _ =>
  }

  lemma ArrivesStep(plugin: W.Plugin, s: State, a: Action, k: nat)
    requires Inv(s) && Enabled(s, a) && Kind(a) && Arrives(s, k) && !Next(plugin, s, a).crashed
    ensures Arrives(Next(plugin, s, a), k)
  {
    BalanceStep(plugin, s, a);
    if a.ListenerHandle? {
      ArrivesHandle(s, k);
    } else {
      ArrivesMoved(plugin, s, a, k);
    }
  }

  /** Whatever the worker has executed arrives. */
  ghost predicate AllArrive(s: State) {
    forall i :: 0 <= i < |s.worker.done| ==> Arrives(s, s.worker.done[i].id)
  }

  /** A command that is executed has its answer in the outbox. */
  lemma NewArrives(plugin: W.Plugin, s: State)
    requires Enabled(s, WorkerReceive) && |Receive(plugin, s).worker.done| > |s.worker.done|
    ensures Arrives(Receive(plugin, s), Receive(plugin, s).worker.done[|s.worker.done|].id)
    ensures |Receive(plugin, s).worker.done| == |s.worker.done| + 1
  {
    ReceiveReplies(plugin, s);
    var s' := Receive(plugin, s);
    assert Answers(s'.outbox[0], s'.worker.done[|s.worker.done|].id);
  }

  lemma OldArrive(plugin: W.Plugin, s: State, a: Action, i: nat)
    requires Inv(s) && Enabled(s, a) && Kind(a) && AllArrive(s) && !Next(plugin, s, a).crashed && i < |s.worker.done|
    ensures i < |Next(plugin, s, a).worker.done| && Arrives(Next(plugin, s, a), Next(plugin, s, a).worker.done[i].id)
  {
    LogStep(plugin, s, a);
    assert Next(plugin, s, a).worker.done[i] == s.worker.done[i];
    ArrivesStep(plugin, s, a, s.worker.done[i].id);
  }

  lemma OnlyReceiveLogs(plugin: W.Plugin, s: State, a: Action)
    requires Enabled(s, a) && !a.WorkerReceive?
    ensures Next(plugin, s, a).worker.done == s.worker.done
  {
  }

  lemma ReceiveKeeps(plugin: W.Plugin, s: State, k: nat)
    requires Enabled(s, WorkerReceive) && Arrives(s, k)
    ensures Arrives(Receive(plugin, s), k)
  {
  }

  lemma AllArriveReceive(plugin: W.Plugin, s: State)
    requires Enabled(s, WorkerReceive) && AllArrive(s)
    ensures AllArrive(Receive(plugin, s))
  {
    var s', n := Receive(plugin, s), |s.worker.done|;
    LogStep(plugin, s, WorkerReceive);
    forall i | 0 <= i < |s'.worker.done| ensures Arrives(s', s'.worker.done[i].id) {
      if i < n {
        assert s'.worker.done[i] == s.worker.done[i];
        ReceiveKeeps(plugin, s, s.worker.done[i].id);
      } else {
        NewArrives(plugin, s);
      }
    }
  }

  lemma AllArriveStep(plugin: W.Plugin, s: State, a: Action)
    requires Inv(s) && Enabled(s, a) && Kind(a) && AllArrive(s) && !Next(plugin, s, a).crashed
    ensures AllArrive(Next(plugin, s, a))
  {
    if a.WorkerReceive? {
      AllArriveReceive(plugin, s);
    } else {
      OnlyReceiveLogs(plugin, s, a);
      forall i | 0 <= i < |s.worker.done| ensures Arrives(Next(plugin, s, a), s.worker.done[i].id) {
        OldArrive(plugin, s, a, i);
      }
    }
  }

  /** The ids the queue took were all sent by their calls. */
  ghost predicate OfferedInv(s: State) {
    forall k :: k in CommandIds(s.offered) ==> Launched(s, k)
  }

  /** Only a command the queue did not take is settled by anything but its answer. */
  ghost predicate GivenUpInv(s: State) {
    forall k :: k in s.proxy.settled && !s.proxy.settled[k].FromWorker? ==>
      k in s.commands && k !in s.calls && k !in CommandIds(s.offered)
  }

  lemma OfferedStep(plugin: W.Plugin, s: State, a: Action)
    requires IdsInv(s) && OfferedInv(s) && Enabled(s, a)
    ensures OfferedInv(Next(plugin, s, a))
  {
    var s' := Next(plugin, s, a);
    OfferedIds(plugin, s, a);
    forall k | k in CommandIds(s'.offered) ensures Launched(s', k) {
      if k in CommandIds(s.offered) {
        LaunchedStep(plugin, s, a, k);
      }
    }
  }

  /** Only an accepted send adds an id. */
  lemma OfferedIds(plugin: W.Plugin, s: State, a: Action)
    requires IdsInv(s) && Enabled(s, a)
    ensures forall k :: k in CommandIds(Next(plugin, s, a).offered) <==>
              k in CommandIds(s.offered) || (a.Send? && a.accepted && a.k == k)
  {
    if a.Send? && a.accepted {
      IdsAppend(s.offered, CommandMsg(a.k, EncodeCommand(s.commands[a.k])));
    } else if a.SendOther? {
      IdsAppend(s.offered, a.msg);
    } else {
      assert Next(plugin, s, a).offered == s.offered;
    }
  }

  /** In a kind step only a failed send settles a future otherwise than by its answer. */
  lemma KindSettles(plugin: W.Plugin, s: State, a: Action, k: nat)
    requires Enabled(s, a) && Kind(a)
    requires k in Next(plugin, s, a).proxy.settled && !Next(plugin, s, a).proxy.settled[k].FromWorker?
    ensures (k in s.proxy.settled && !s.proxy.settled[k].FromWorker?) || (a == Finish(k) && InPhase(s, k, Unsent))
  {
  }

  lemma GivenUpStep(plugin: W.Plugin, s: State, a: Action)
    requires IdsInv(s) && OfferedInv(s) && GivenUpInv(s) && Enabled(s, a) && Kind(a)
    ensures GivenUpInv(Next(plugin, s, a))
  {
    var s' := Next(plugin, s, a);
    OfferedIds(plugin, s, a);
    forall k | k in s'.proxy.settled && !s'.proxy.settled[k].FromWorker?
      ensures k in s'.commands && k !in s'.calls && k !in CommandIds(s'.offered)
    {
      KindSettles(plugin, s, a, k);
      if a == Finish(k) && InPhase(s, k, Unsent) {
        assert !Launched(s, k);
      } else {
        assert k in s.commands && k !in s.calls;
      }
    }
  }

  /** A call that found the queue full leaves its future with the timeout error. */
  ghost predicate UnsentInv(s: State) {
    && (forall k :: InPhase(s, k, Sent) ==> k in CommandIds(s.offered))
    && (forall k :: k in s.commands && k !in s.calls && k !in CommandIds(s.offered) ==>
          k in s.proxy.settled && s.proxy.settled[k] == P.SendTimeout)
  }

  lemma AnsweredWasSent(s: State, k: nat)
    requires WorkerInv(s) && FutureInv(s) && k in s.proxy.settled && s.proxy.settled[k].FromWorker?
    ensures Launched(s, k)
  {
    assert Logged(s.worker.done, k, s.proxy.settled[k].resp);
    var i :| 0 <= i < |s.worker.done| && s.worker.done[i].id == k
          && DecodeResponse(EncodeResponse(s.worker.done[i].resp)) == Success(s.proxy.settled[k].resp);
    assert Genuine(s, s.worker.done[i]);
  }

  /** The future of a call that could not send is still pending. */
  lemma UnsentIsPending(s: State, k: nat)
    requires Inv(s) && GivenUpInv(s) && InPhase(s, k, Unsent)
    ensures k in s.proxy.pending
  {
    assert k in s.proxy.pending + s.proxy.settled.Keys;
    if k in s.proxy.settled && s.proxy.settled[k].FromWorker? {
      AnsweredWasSent(s, k);
    }
  }

  lemma UnsentFinish(plugin: W.Plugin, s: State, k: nat)
    requires Inv(s) && GivenUpInv(s) && UnsentInv(s) && Enabled(s, Finish(k))
    ensures UnsentInv(Next(plugin, s, Finish(k)))
  {
    if InPhase(s, k, Unsent) {
      UnsentIsPending(s, k);
      P.SendFailedSettles(s.proxy, k);
    }
  }

  lemma UnsentStep(plugin: W.Plugin, s: State, a: Action)
    requires Inv(s) && GivenUpInv(s) && UnsentInv(s) && Enabled(s, a)
    ensures UnsentInv(Next(plugin, s, a))
  {
    if a.Finish? {
      UnsentFinish(plugin, s, a.k);
    } else {
      OfferedIds(plugin, s, a);
      BalanceStep(plugin, s, a);
      UnsentOther(plugin, s, a);
    }
  }

  lemma CallsStep(plugin: W.Plugin, s: State, a: Action, k: nat)
    requires IdsInv(s) && Enabled(s, a) && !a.Finish?
    ensures InPhase(Next(plugin, s, a), k, Sent) ==> InPhase(s, k, Sent) || (a.Send? && a.accepted && a.k == k)
    ensures k in Next(plugin, s, a).commands && k !in Next(plugin, s, a).calls ==> k in s.commands && k !in s.calls
  {
  }

  lemma UnsentOther(plugin: W.Plugin, s: State, a: Action)
    requires IdsInv(s) && UnsentInv(s) && Enabled(s, a) && !a.Finish?
    requires P.Keeps(s.proxy, Next(plugin, s, a).proxy)
    requires forall k :: k in CommandIds(Next(plugin, s, a).offered) <==>
               k in CommandIds(s.offered) || (a.Send? && a.accepted && a.k == k)
    ensures UnsentInv(Next(plugin, s, a))
  {
    var s' := Next(plugin, s, a);
    forall k | InPhase(s', k, Sent) ensures k in CommandIds(s'.offered) {
      CallsStep(plugin, s, a, k);
    }
    forall k | k in s'.commands && k !in s'.calls && k !in CommandIds(s'.offered)
      ensures k in s'.proxy.settled && s'.proxy.settled[k] == P.SendTimeout
    {
      CallsStep(plugin, s, a, k);
    }
  }

  lemma {:induction false} LosslessAlways(plugin: W.Plugin, name: string, run: seq<Action>)
    requires Play(plugin, name, run).Some? && Lossless(run)
    ensures
      var s := Play(plugin, name, run).value;
      (!s.crashed ==> AllArrive(s)) && OfferedInv(s) && GivenUpInv(s) && UnsentInv(s)
  {
    if run != [] {
      var front, a := run[..|run| - 1], run[|run| - 1];
      LosslessAlways(plugin, name, front);
      Reachable(plugin, name, front);
      var s := Play(plugin, name, front).value;
      assert Kind(a);
      OfferedStep(plugin, s, a);
      GivenUpStep(plugin, s, a);
      UnsentStep(plugin, s, a);
      if !Next(plugin, s, a).crashed {
        AllArriveStep(plugin, s, a);
      }
    }
  }

  /** Nothing is queued, being sent or being handled. */
  predicate AtRest(s: State) {
    !s.crashed && s.worker.running && s.requests == [] && s.outbox == [] && s.replies == [] && s.hand.None?
  }

  lemma {:induction false} DoneHas(done: seq<W.Execution>, k: nat) returns (i: nat)
    requires k in DoneIds(done)
    ensures i < |done| && done[i].id == k
  {
    if k == done[|done| - 1].id {
      i := |done| - 1;
    } else {
      i := DoneHas(done[..|done| - 1], k);
    }
  }

  /**
   * If no worker died and no worker send timed out, then in every interleaving,
   * once the link is at rest, every command its queue accepted has been
   * executed and its future holds the worker's answer to it.
   */
  lemma EverythingAnswered(plugin: W.Plugin, name: string, run: seq<Action>, k: nat)
    requires Play(plugin, name, run).Some? && Lossless(run) && AtRest(Play(plugin, name, run).value)
    requires k in CommandIds(Play(plugin, name, run).value.offered)
    ensures
      var s := Play(plugin, name, run).value;
      && k in s.proxy.settled && s.proxy.settled[k].FromWorker?
      && WorkersAnswer(plugin, s, k, s.proxy.settled[k].resp)
  {
    var s := Play(plugin, name, run).value;
    LosslessAlways(plugin, name, run);
    Conservation(plugin, name, run);
    assert DoneIds(s.worker.done) + [] == DoneIds(s.worker.done);
    var i := DoneHas(s.worker.done, k);
    assert Arrives(s, s.worker.done[i].id);
    FutureGetsItsOwnAnswer(plugin, name, run, k);
  }

  /**
   * And once all calls have returned, every future is set: by the worker's
   * answer if the queue took the command, by the timeout error if it did not.
   */
  lemma EverythingSettled(plugin: W.Plugin, name: string, run: seq<Action>, k: nat)
    requires Play(plugin, name, run).Some? && Lossless(run) && AtRest(Play(plugin, name, run).value)
    requires Play(plugin, name, run).value.calls == map[] && 1 <= k <= |Handed(run)|
    ensures
      var s := Play(plugin, name, run).value;
      && k in s.proxy.settled
      && (if k in CommandIds(s.offered) then s.proxy.settled[k].FromWorker? else s.proxy.settled[k] == P.SendTimeout)
  {
    var s := Play(plugin, name, run).value;
    HandedExactly(plugin, name, run);
    LosslessAlways(plugin, name, run);
    if k in CommandIds(s.offered) {
      EverythingAnswered(plugin, name, run, k);
    }
  }
}
