/**
 * One instrument end to end: any number of threads inside `execute`, two
 * bounded queues whose timed sends may fail, the worker process and the
 * response listener.  One action is one lock section or one queue operation.
 */
module Link {
  import opened Options
  import opened Codec
  import P = Proxy
  import W = Worker
  import Sequences
  import Text

  const CAPACITY := 100

  datatype Request =
    | CommandMsg(id: nat, payload: Json)
    | ContinueMsg(token: nat)
    | ShutdownMsg

  datatype Reply =
    | ResponseMsg(id: nat, payload: Json)
    | AckMsg(id: nat, token: nat)
    | HeartbeatMsg

  /** How far a call of `execute` has come; finished calls are forgotten. */
  datatype Phase = Allocated | Stored | Sent | Unsent

  /**
   * `commands[k]` is the command handed to `execute` as message `k`, and
   * `offered` the messages in the order in which the request queue took them.
   * `read` are those the worker has received.
   * `outbox` holds what the worker has still to send for the current message,
   * `hand` the message the listener has taken and not yet handled.  `crashed`
   * is set when the listener meets a payload that does not decode, which ends
   * the server.
   */
  datatype State = State(
    name: string,
    commands: map<nat, SerializedCommand>,
    calls: map<nat, Phase>,
    proxy: P.State,
    offered: seq<Request>,
    requests: seq<Request>,
    read: seq<Request>,
    worker: W.State,
    outbox: seq<Reply>,
    replies: seq<Reply>,
    hand: Option<Reply>,
    crashed: bool)

  function Init(name: string): State {
    State(name, map[], map[], P.Start, [], [], [], W.Start, [], [], None, false)
  }

  datatype Action =
    | Allocate(cmd: SerializedCommand)
    | Store(k: nat)
    | Send(k: nat, accepted: bool)
    | Finish(k: nat)
    | SendOther(msg: Request)
    | WorkerReceive
    | WorkerSend(accepted: bool)
    | WorkerBeat
    | WorkerDies
    | ListenerTake
    | ListenerHandle
    | FailAll(reason: P.Outcome)

  predicate InPhase(s: State, k: nat, phase: Phase) {
    k in s.calls && s.calls[k] == phase
  }

  /** The worker is a process of its own: it goes on when the server is gone. */
  predicate OfWorker(a: Action) {
    a.WorkerReceive? || a.WorkerSend? || a.WorkerBeat? || a.WorkerDies?
  }

  predicate Enabled(s: State, a: Action) {
    && (s.crashed ==> OfWorker(a))
    && match a
       case Allocate(_) => true
       case Store(k) => InPhase(s, k, Allocated)
       case Send(k, accepted) => InPhase(s, k, Stored) && (accepted ==> |s.requests| < CAPACITY)
       case Finish(k) => InPhase(s, k, Sent) || InPhase(s, k, Unsent)
       case SendOther(msg) => !msg.CommandMsg? && |s.requests| < CAPACITY
       case WorkerReceive => s.worker.running && s.outbox == [] && s.requests != []
       case WorkerSend(accepted) => s.outbox != [] && (accepted ==> |s.replies| < CAPACITY)
       case WorkerBeat => s.worker.running && s.outbox == [] && |s.replies| < CAPACITY
       case WorkerDies => true
       case ListenerTake => s.hand.None? && s.replies != []
       case ListenerHandle => s.hand.Some?
       case FailAll(reason) => !reason.FromWorker?
  }

  function Stamped(s: State, cmd: SerializedCommand): SerializedCommand {
    cmd.(id := s.name + "-" + Text.Natural(s.proxy.nextId))
  }

  /** What the worker reads from the request queue. */
  function Inbound(m: Request): W.Inbound {
    match m
    case CommandMsg(id, payload) => W.Command(id, DecodeCommand(payload).ToOption())
    case ContinueMsg(t) => W.SyncContinue(t)
    case ShutdownMsg => W.Shutdown
  }

  function Outgoing(e: W.Execution): seq<Reply> {
    [ResponseMsg(e.id, EncodeResponse(e.resp))]
    + if e.cmd.syncToken.Some? then [AckMsg(e.id, e.cmd.syncToken.value)] else []
  }

  /** The request queue takes a message. */
  function Offer(s: State, m: Request): State {
    s.(offered := s.offered + [m], requests := s.requests + [m])
  }

  function Receive(plugin: W.Plugin, s: State): State
    requires s.requests != []
  {
    var m := Inbound(s.requests[0]);
    var worker := W.Step(plugin, s.worker, m);
    s.(requests := s.requests[1..],
       read := s.read + [s.requests[0]],
       worker := worker,
       outbox := if W.Takes(s.worker, m) then Outgoing(worker.done[|worker.done| - 1]) else [])
  }

  function Handle(s: State): State
    requires s.hand.Some?
  {
    var idle := s.(hand := None);
    match s.hand.value
    case ResponseMsg(id, payload) =>
      var resp := DecodeResponse(payload);
      if resp.Failure? then idle.(crashed := true)
      else idle.(proxy := P.HandleResponse(s.proxy, id, resp.value))
    case _ => idle
  }

  function Next(plugin: W.Plugin, s: State, a: Action): State
    requires Enabled(s, a)
  {
    match a
    case Allocate(cmd) =>
      var k := s.proxy.nextId;
      s.(commands := s.commands[k := Stamped(s, cmd)],
         calls := s.calls[k := Allocated],
         proxy := P.Allocate(s.proxy))
    case Store(k) =>
      s.(calls := s.calls[k := Stored], proxy := P.Store(s.proxy, k))
    case Send(k, accepted) =>
      if accepted && k in s.commands
      then Offer(s.(calls := s.calls[k := Sent]), CommandMsg(k, EncodeCommand(s.commands[k])))
      else s.(calls := s.calls[k := Unsent])
    case Finish(k) =>
      s.(calls := s.calls - {k},
         proxy := if s.calls[k] == Sent then P.CountSent(s.proxy) else P.SendFailed(s.proxy, k))
    case SendOther(msg) => Offer(s, msg)
    case WorkerReceive => Receive(plugin, s)
    case WorkerSend(accepted) =>
      s.(outbox := s.outbox[1..], replies := if accepted then s.replies + [s.outbox[0]] else s.replies)
    case WorkerBeat => s.(replies := s.replies + [HeartbeatMsg])
    case WorkerDies => s.(worker := s.worker.(running := false), outbox := [])
    case ListenerTake => s.(hand := Some(s.replies[0]), replies := s.replies[1..])
    case ListenerHandle => Handle(s)
    case FailAll(reason) => s.(proxy := P.FailAll(s.proxy, reason))
  }

  /** The state after a run, if every action of it was enabled. */
  function Play(plugin: W.Plugin, name: string, run: seq<Action>): Option<State> {
    if run == [] then Some(Init(name))
    else
      var before, a := Play(plugin, name, run[..|run| - 1]), run[|run| - 1];
      if before.Some? && Enabled(before.value, a) then Some(Next(plugin, before.value, a)) else None
  }

  // ---- Invariant ----------------------------------------------------------

  /** The command has been put on the request queue. */
  predicate Launched(s: State, k: nat) {
    k in s.commands && (k in s.calls ==> s.calls[k] == Sent)
  }

  /** The worker executed what `execute` was given as `e.id`, as decoded from the wire. */
  ghost predicate Genuine(s: State, e: W.Execution) {
    Launched(s, e.id) && DecodeCommand(EncodeCommand(s.commands[e.id])) == Success(e.cmd)
  }

  ghost predicate AnswerTo(s: State, k: nat, payload: Json) {
    exists i :: 0 <= i < |s.worker.done| && s.worker.done[i].id == k
             && payload == EncodeResponse(s.worker.done[i].resp)
  }

  /** A reply in transit is the answer to the command sent under its id. */
  ghost predicate Honest(s: State, r: Reply) {
    r.ResponseMsg? ==> AnswerTo(s, r.id, r.payload)
  }

  ghost predicate IdsInv(s: State) {
    && 1 <= s.proxy.nextId
    && (forall k :: k in s.commands <==> 1 <= k < s.proxy.nextId)
    && s.calls.Keys <= s.commands.Keys
  }

  /** Every issued id is in exactly one of: not yet stored, pending, settled. */
  ghost predicate OnceInv(s: State) {
    && s.proxy.pending !! s.proxy.settled.Keys
    && s.proxy.pending + s.proxy.settled.Keys <= s.commands.Keys
    && forall k :: k in s.commands ==>
         (k in s.proxy.pending + s.proxy.settled.Keys <==> !InPhase(s, k, Allocated))
  }

  /** A queued command message is the encoding of the command launched under its id. */
  ghost predicate Carries(s: State, m: Request) {
    m.CommandMsg? ==> Launched(s, m.id) && m.payload == EncodeCommand(s.commands[m.id])
  }

  ghost predicate OtherIds(requests: seq<Request>) {
    forall i, j :: 0 <= i < j < |requests| && requests[i].CommandMsg? && requests[j].CommandMsg? ==>
      requests[i].id != requests[j].id
  }

  ghost predicate RequestInv(s: State) {
    && |s.requests| <= CAPACITY
    && (forall i :: 0 <= i < |s.requests| ==> Carries(s, s.requests[i]))
    && OtherIds(s.requests)
  }

  ghost predicate WorkerInv(s: State) {
    && (forall i :: 0 <= i < |s.worker.done| ==> Genuine(s, s.worker.done[i]))
    && (forall i, j :: 0 <= i < j < |s.worker.done| ==> s.worker.done[i].id != s.worker.done[j].id)
    && (forall i, j :: 0 <= i < |s.worker.done| && 0 <= j < |s.requests| && s.requests[j].CommandMsg? ==>
          s.worker.done[i].id != s.requests[j].id)
  }

  ghost predicate ReplyInv(s: State) {
    && |s.replies| <= CAPACITY
    && (forall r :: r in s.outbox ==> Honest(s, r))
    && (forall r :: r in s.replies ==> Honest(s, r))
    && (s.hand.Some? ==> Honest(s, s.hand.value))
  }

  /** `resp` is how the server reads the logged answer to `k`. */
  ghost predicate Logged(done: seq<W.Execution>, k: nat, resp: CommandResponse) {
    exists i :: 0 <= i < |done| && done[i].id == k && DecodeResponse(EncodeResponse(done[i].resp)) == Success(resp)
  }

  ghost predicate FutureInv(s: State) {
    forall k :: k in s.proxy.settled && s.proxy.settled[k].FromWorker? ==>
      Logged(s.worker.done, k, s.proxy.settled[k].resp)
  }

  ghost predicate Inv(s: State) {
    P.Balanced(s.proxy) && IdsInv(s) && OnceInv(s) && RequestInv(s) && WorkerInv(s) && ReplyInv(s) && FutureInv(s)
  }

  // ---- Each action keeps it -----------------------------------------------

  /** Facts about a launched command and the worker's log outlive any other change. */
  ghost predicate Grows(s: State, s': State) {
    && (forall k :: Launched(s, k) ==> Launched(s', k) && s'.commands[k] == s.commands[k])
    && s.worker.done <= s'.worker.done
  }

  lemma HonestGrows(s: State, s': State, r: Reply)
    requires Grows(s, s') && Honest(s, r)
    ensures Honest(s', r)
  {
    if r.ResponseMsg? {
      var i :| 0 <= i < |s.worker.done| && s.worker.done[i].id == r.id
            && r.payload == EncodeResponse(s.worker.done[i].resp);
      assert s'.worker.done[i] == s.worker.done[i];
    }
  }

  lemma RepliesGrow(s: State, s': State)
    requires Grows(s, s') && ReplyInv(s) && |s'.replies| <= CAPACITY
    requires forall r :: r in s'.outbox ==> r in s.outbox
    requires forall r :: r in s'.replies ==> r in s.replies || r in s.outbox || r.HeartbeatMsg?
    requires s'.hand.Some? ==> s'.hand == s.hand || s'.hand.value in s.replies
    ensures ReplyInv(s')
  {
    forall r | Honest(s, r) ensures Honest(s', r) {
      HonestGrows(s, s', r);
    }
  }

  lemma LoggedGrows(done: seq<W.Execution>, done': seq<W.Execution>, k: nat, resp: CommandResponse)
    requires done <= done' && Logged(done, k, resp)
    ensures Logged(done', k, resp)
  {
    var i :| 0 <= i < |done| && done[i].id == k && DecodeResponse(EncodeResponse(done[i].resp)) == Success(resp);
    assert done'[i] == done[i];
  }

  lemma FuturesGrow(s: State, s': State)
    requires Grows(s, s') && FutureInv(s)
    requires forall k :: k in s'.proxy.settled && s'.proxy.settled[k].FromWorker? ==>
               k in s.proxy.settled && s'.proxy.settled[k] == s.proxy.settled[k]
    ensures FutureInv(s')
  {
    forall k | k in s'.proxy.settled && s'.proxy.settled[k].FromWorker?
      ensures Logged(s'.worker.done, k, s'.proxy.settled[k].resp)
    {
      LoggedGrows(s.worker.done, s'.worker.done, k, s.proxy.settled[k].resp);
    }
  }

  lemma BalanceStep(plugin: W.Plugin, s: State, a: Action)
    requires P.Balanced(s.proxy) && IdsInv(s) && OnceInv(s) && Enabled(s, a)
    ensures P.Balanced(Next(plugin, s, a).proxy)
    ensures P.Keeps(s.proxy, Next(plugin, s, a).proxy)
  {
    match a
    case Finish(k) => P.SendFailedBalanced(s.proxy, k); P.RestBalanced(s.proxy, k);
    case Allocate(_) => P.RestBalanced(s.proxy, 0);
    case Store(k) => P.RestBalanced(s.proxy, k);
    case ListenerHandle =>
      var r := s.hand.value;
      if r.ResponseMsg? && DecodeResponse(r.payload).Success? {
        P.HandleResponseBalanced(s.proxy, r.id, DecodeResponse(r.payload).value);
      }
    case FailAll(reason) => P.FailAllBalanced(s.proxy, reason);
    case _ =>
  }

  lemma IdsStep(plugin: W.Plugin, s: State, a: Action)
    requires IdsInv(s) && Enabled(s, a)
    ensures IdsInv(Next(plugin, s, a))
  {
  }

  /** The listener and the failure loop move ids from pending to settled only. */
  lemma OnceMoved(s: State, s': State)
    requires OnceInv(s) && s'.commands == s.commands && s'.calls == s.calls
    requires s'.proxy.pending !! s'.proxy.settled.Keys
    requires s'.proxy.pending + s'.proxy.settled.Keys == s.proxy.pending + s.proxy.settled.Keys
    ensures OnceInv(s')
  {
  }

  lemma OnceAllocate(plugin: W.Plugin, s: State, cmd: SerializedCommand)
    requires IdsInv(s) && OnceInv(s) && Enabled(s, Allocate(cmd))
    ensures OnceInv(Next(plugin, s, Allocate(cmd)))
  {
    assert s.proxy.nextId !in s.commands;
  }

  lemma OnceStore(plugin: W.Plugin, s: State, k: nat)
    requires IdsInv(s) && OnceInv(s) && Enabled(s, Store(k))
    ensures OnceInv(Next(plugin, s, Store(k)))
  {
  }

  lemma OnceSend(plugin: W.Plugin, s: State, k: nat, accepted: bool)
    requires IdsInv(s) && OnceInv(s) && Enabled(s, Send(k, accepted))
    ensures OnceInv(Next(plugin, s, Send(k, accepted)))
  {
  }

  lemma OnceFinish(plugin: W.Plugin, s: State, k: nat)
    requires IdsInv(s) && OnceInv(s) && Enabled(s, Finish(k))
    ensures OnceInv(Next(plugin, s, Finish(k)))
  {
    var mid := s.(calls := s.calls - {k});
    assert OnceInv(mid);
    OnceMoved(mid, Next(plugin, s, Finish(k)));
  }

  lemma OnceFailAll(s: State, reason: P.Outcome)
    requires OnceInv(s)
    ensures OnceInv(s.(proxy := P.FailAll(s.proxy, reason)))
  {
    P.FailAllKeys(s.proxy, reason);
    OnceMoved(s, s.(proxy := P.FailAll(s.proxy, reason)));
  }

  lemma OnceStep(plugin: W.Plugin, s: State, a: Action)
    requires IdsInv(s) && OnceInv(s) && Enabled(s, a)
    ensures OnceInv(Next(plugin, s, a))
  {
    match a
    case Allocate(cmd) => OnceAllocate(plugin, s, cmd);
    case Store(k) => OnceStore(plugin, s, k);
    case Send(k, accepted) => OnceSend(plugin, s, k, accepted);
    case Finish(k) => OnceFinish(plugin, s, k);
    case ListenerHandle => OnceMoved(s, Handle(s));
    case FailAll(reason) => OnceFailAll(s, reason);
    case _ =>
      var s' := Next(plugin, s, a);
      assert s'.proxy == s.proxy && s'.commands == s.commands && s'.calls == s.calls;
  }

  lemma LaunchedStep(plugin: W.Plugin, s: State, a: Action, k: nat)
    requires IdsInv(s) && Enabled(s, a) && Launched(s, k)
    ensures Launched(Next(plugin, s, a), k) && Next(plugin, s, a).commands[k] == s.commands[k]
  {
  }

  lemma LogStep(plugin: W.Plugin, s: State, a: Action)
    requires Enabled(s, a)
    ensures s.worker.done <= Next(plugin, s, a).worker.done
  {
  }

  lemma GrowsStep(plugin: W.Plugin, s: State, a: Action)
    requires IdsInv(s) && Enabled(s, a)
    ensures Grows(s, Next(plugin, s, a))
  {
    LogStep(plugin, s, a);
    forall k | Launched(s, k) ensures Launched(Next(plugin, s, a), k) && Next(plugin, s, a).commands[k] == s.commands[k] {
      LaunchedStep(plugin, s, a, k);
    }
  }

  lemma CarriesGrows(s: State, s': State)
    requires Grows(s, s') && forall i :: 0 <= i < |s.requests| ==> Carries(s, s.requests[i])
    ensures forall i :: 0 <= i < |s.requests| ==> Carries(s', s.requests[i])
  {
  }

  lemma SendRequest(plugin: W.Plugin, s: State, a: Action)
    requires IdsInv(s) && RequestInv(s) && Enabled(s, a) && (a.Send? || a.SendOther?)
    ensures RequestInv(Next(plugin, s, a))
  {
    var s' := Next(plugin, s, a);
    GrowsStep(plugin, s, a);
    CarriesGrows(s, s');
    if a.Send? && a.accepted {
      var m := CommandMsg(a.k, EncodeCommand(s.commands[a.k]));
      assert s'.requests == s.requests + [m] && Carries(s', m);
      forall i | 0 <= i < |s.requests| && s.requests[i].CommandMsg? ensures s.requests[i].id != a.k {
        assert Carries(s, s.requests[i]);
      }
    }
  }

  lemma RequestStep(plugin: W.Plugin, s: State, a: Action)
    requires IdsInv(s) && RequestInv(s) && Enabled(s, a)
    ensures RequestInv(Next(plugin, s, a))
  {
    if a.Send? || a.SendOther? {
      SendRequest(plugin, s, a);
    } else {
      var s' := Next(plugin, s, a);
      GrowsStep(plugin, s, a);
      CarriesGrows(s, s');
      if a.WorkerReceive? {
        assert forall i :: 0 <= i < |s'.requests| ==> s'.requests[i] == s.requests[i + 1];
      } else {
        assert s'.requests == s.requests;
      }
    }
  }

  /** The rest of the queue keeps away from what is executed, and from its head. */
  lemma RestIsFresh(s: State, i: nat)
    requires OtherIds(s.requests) && WorkerInv(s) && s.requests != []
    requires i < |s.requests[1..]| && s.requests[1..][i].CommandMsg?
    ensures s.requests[0].CommandMsg? ==> s.requests[0].id != s.requests[1..][i].id
    ensures forall k :: 0 <= k < |s.worker.done| ==> s.worker.done[k].id != s.requests[1..][i].id
  {
    assert s.requests[1..][i] == s.requests[i + 1];
  }

  lemma TakenGenuine(plugin: W.Plugin, s: State)
    requires RequestInv(s) && Enabled(s, WorkerReceive) && W.Takes(s.worker, Inbound(s.requests[0]))
    ensures
      var head, done := s.requests[0], Receive(plugin, s).worker.done;
      && head.CommandMsg? && |done| == |s.worker.done| + 1 && done == s.worker.done + [done[|s.worker.done|]]
      && done[|s.worker.done|].id == head.id && Genuine(Receive(plugin, s), done[|s.worker.done|])
  {
    assert Carries(s, s.requests[0]);
  }

  lemma WorkerReceiveStep(plugin: W.Plugin, s: State)
    requires RequestInv(s) && WorkerInv(s) && Enabled(s, WorkerReceive)
    ensures WorkerInv(Receive(plugin, s))
  {
    var s' := Receive(plugin, s);
    var head, n := s.requests[0], |s.worker.done|;
    forall i | 0 <= i < n ensures Genuine(s', s.worker.done[i]) {
      assert Genuine(s, s.worker.done[i]);
    }
    forall i: nat | i < |s'.requests| && s'.requests[i].CommandMsg?
      ensures head.CommandMsg? ==> head.id != s'.requests[i].id
      ensures forall k :: 0 <= k < n ==> s.worker.done[k].id != s'.requests[i].id
    {
      RestIsFresh(s, i);
    }
    if W.Takes(s.worker, Inbound(head)) {
      TakenGenuine(plugin, s);
    } else {
      assert s'.worker.done == s.worker.done;
    }
  }

  lemma GenuineGrows(s: State, s': State, e: W.Execution)
    requires Grows(s, s') && Genuine(s, e)
    ensures Genuine(s', e)
  {
  }

  /** What is added to the queue was not executed before. */
  lemma FreshRequests(plugin: W.Plugin, s: State, a: Action)
    requires WorkerInv(s) && Enabled(s, a) && !a.WorkerReceive?
    ensures
      var s' := Next(plugin, s, a);
      && s'.worker.done == s.worker.done
      && forall i, j :: 0 <= i < |s.worker.done| && 0 <= j < |s'.requests| && s'.requests[j].CommandMsg? ==>
           s.worker.done[i].id != s'.requests[j].id
  {
    if a.Send? {
      forall i | 0 <= i < |s.worker.done| ensures s.worker.done[i].id != a.k {
        assert Genuine(s, s.worker.done[i]);
      }
    }
  }

  lemma WorkerStep(plugin: W.Plugin, s: State, a: Action)
    requires IdsInv(s) && RequestInv(s) && WorkerInv(s) && Enabled(s, a)
    ensures WorkerInv(Next(plugin, s, a))
  {
    if a.WorkerReceive? {
      WorkerReceiveStep(plugin, s);
    } else {
      var s' := Next(plugin, s, a);
      GrowsStep(plugin, s, a);
      FreshRequests(plugin, s, a);
      forall i | 0 <= i < |s.worker.done| ensures Genuine(s', s'.worker.done[i]) {
        GenuineGrows(s, s', s.worker.done[i]);
      }
    }
  }

  lemma ReplyStep(plugin: W.Plugin, s: State, a: Action)
    requires IdsInv(s) && ReplyInv(s) && Enabled(s, a)
    ensures ReplyInv(Next(plugin, s, a))
  {
    GrowsStep(plugin, s, a);
    var s' := Next(plugin, s, a);
    if a.WorkerReceive? && W.Takes(s.worker, Inbound(s.requests[0])) {
      var e := s'.worker.done[|s.worker.done|];
      assert AnswerTo(s', e.id, EncodeResponse(e.resp));
      forall r | Honest(s, r) ensures Honest(s', r) {
        HonestGrows(s, s', r);
      }
    } else {
      RepliesGrow(s, s');
    }
  }

  lemma HonestIsLogged(s: State, r: Reply)
    requires Honest(s, r) && r.ResponseMsg? && DecodeResponse(r.payload).Success?
    ensures Logged(s.worker.done, r.id, DecodeResponse(r.payload).value)
  {
  }

  lemma ResponseFutures(s: State, k: nat, resp: CommandResponse)
    requires FutureInv(s) && Logged(s.worker.done, k, resp)
    ensures FutureInv(s.(hand := None, proxy := P.HandleResponse(s.proxy, k, resp)))
  {
    var settled := P.HandleResponse(s.proxy, k, resp).settled;
    forall j | j in settled && settled[j].FromWorker?
      ensures Logged(s.worker.done, j, settled[j].resp)
    {
      if j in s.proxy.settled && settled[j] == s.proxy.settled[j] {
      } else {
        assert j == k && settled[j] == P.FromWorker(resp);
      }
    }
  }

  lemma HandleFutures(s: State)
    requires ReplyInv(s) && FutureInv(s) && s.hand.Some?
    ensures FutureInv(Handle(s))
  {
    var r := s.hand.value;
    if r.ResponseMsg? && DecodeResponse(r.payload).Success? {
      var resp := DecodeResponse(r.payload).value;
      HonestIsLogged(s, r);
      ResponseFutures(s, r.id, resp);
      assert Handle(s) == s.(hand := None, proxy := P.HandleResponse(s.proxy, r.id, resp));
    } else {
      assert Handle(s).proxy == s.proxy && Handle(s).worker == s.worker;
    }
  }

  lemma FutureStep(plugin: W.Plugin, s: State, a: Action)
    requires IdsInv(s) && ReplyInv(s) && FutureInv(s) && Enabled(s, a)
    ensures FutureInv(Next(plugin, s, a))
  {
    if a.ListenerHandle? {
      HandleFutures(s);
    } else {
      GrowsStep(plugin, s, a);
      FuturesGrow(s, Next(plugin, s, a));
    }
  }

  lemma StepKeepsInv(plugin: W.Plugin, s: State, a: Action)
    requires Inv(s) && Enabled(s, a)
    ensures Inv(Next(plugin, s, a))
  {
    BalanceStep(plugin, s, a);
    IdsStep(plugin, s, a);
    OnceStep(plugin, s, a);
    RequestStep(plugin, s, a);
    WorkerStep(plugin, s, a);
    ReplyStep(plugin, s, a);
    FutureStep(plugin, s, a);
  }

  /** The invariant holds in every state of every interleaving. */
  lemma {:induction false} Reachable(plugin: W.Plugin, name: string, run: seq<Action>)
    requires Play(plugin, name, run).Some?
    ensures Inv(Play(plugin, name, run).value)
  {
    if run == [] {
      assert P.Answered(P.Start) == {} && P.Succeeded(P.Start) == {};
    } else {
      var front := run[..|run| - 1];
      Reachable(plugin, name, front);
      StepKeepsInv(plugin, Play(plugin, name, front).value, run[|run| - 1]);
    }
  }

  // ---- Conservation on the request path -----------------------------------

  function DoneIds(done: seq<W.Execution>): seq<nat> {
    if done == [] then [] else DoneIds(done[..|done| - 1]) + [done[|done| - 1].id]
  }

  function CommandId(m: Request): seq<nat> {
    if m.CommandMsg? then [m.id] else []
  }

  function CommandIds(requests: seq<Request>): seq<nat> {
    if requests == [] then [] else CommandId(requests[0]) + CommandIds(requests[1..])
  }

  lemma {:induction false} IdsAppend(requests: seq<Request>, m: Request)
    ensures CommandIds(requests + [m]) == CommandIds(requests) + CommandId(m)
  {
    var longer := requests + [m];
    if requests == [] {
      assert longer[1..] == [] && longer[0] == m;
    } else {
      var rest := requests[1..];
      assert longer[0] == requests[0] && longer[1..] == rest + [m];
      IdsAppend(rest, m);
      assert CommandId(requests[0]) + (CommandIds(rest) + CommandId(m))
          == (CommandId(requests[0]) + CommandIds(rest)) + CommandId(m);
    }
  }

  ghost predicate NothingLost(s: State) {
    && s.worker.waiting.None?
    && (s.worker.running ==> CommandIds(s.offered) == DoneIds(s.worker.done) + CommandIds(s.requests))
  }

  lemma DoneAppend(done: seq<W.Execution>, e: W.Execution)
    ensures DoneIds(done + [e]) == DoneIds(done) + [e.id]
  {
    assert (done + [e])[..|done|] == done;
  }

  /** What the worker does with a message, as far as its log and its state go. */
  lemma WorkerTurn(plugin: W.Plugin, w: W.State, m: Request)
    requires w.running && w.waiting.None?
    ensures
      var w' := W.Step(plugin, w, Inbound(m));
      && w'.waiting.None?
      && if W.Takes(w, Inbound(m))
         then m.CommandMsg? && |w'.done| == |w.done| + 1
              && w'.done == w.done + [w'.done[|w.done|]] && w'.done[|w.done|].id == m.id
         else w'.done == w.done && (w'.running ==> !m.CommandMsg?)
  {
  }

  lemma NothingLostReceive(plugin: W.Plugin, s: State)
    requires NothingLost(s) && Enabled(s, WorkerReceive)
    ensures NothingLost(Receive(plugin, s))
  {
    var m, rest := s.requests[0], s.requests[1..];
    var done, done' := s.worker.done, W.Step(plugin, s.worker, Inbound(m)).done;
    WorkerTurn(plugin, s.worker, m);
    if W.Takes(s.worker, Inbound(m)) {
      DoneAppend(done, done'[|done|]);
      Sequences.Regroup(DoneIds(done), [m.id], CommandIds(rest));
    }
  }

  lemma NothingLostStep(plugin: W.Plugin, s: State, a: Action)
    requires IdsInv(s) && NothingLost(s) && Enabled(s, a)
    ensures NothingLost(Next(plugin, s, a))
  {
    if a.WorkerReceive? {
      NothingLostReceive(plugin, s);
    } else if a.Send? {
      var m := CommandMsg(a.k, EncodeCommand(s.commands[a.k]));
      IdsAppend(s.requests, m);
      IdsAppend(s.offered, m);
      Sequences.Regroup(DoneIds(s.worker.done), CommandIds(s.requests), CommandId(m));
    } else if a.SendOther? {
      IdsAppend(s.requests, a.msg);
      IdsAppend(s.offered, a.msg);
      Sequences.Regroup(DoneIds(s.worker.done), CommandIds(s.requests), CommandId(a.msg));
    }
  }

  /**
   * While the worker runs it never waits and loses nothing: the commands the
   * queue accepted are, in order, those executed followed by those still queued.
   */
  lemma {:induction false} Conservation(plugin: W.Plugin, name: string, run: seq<Action>)
    requires Play(plugin, name, run).Some?
    ensures NothingLost(Play(plugin, name, run).value)
  {
    if run != [] {
      var front := run[..|run| - 1];
      Conservation(plugin, name, front);
      Reachable(plugin, name, front);
      NothingLostStep(plugin, Play(plugin, name, front).value, run[|run| - 1]);
    }
  }

  // ---- Main results -------------------------------------------------------

  /** A barrier NOP gets the synthetic answer; every other command is answered by the plugin. */
  ghost predicate AnsweredBy(plugin: W.Plugin, past: seq<W.Execution>, e: W.Execution) {
    if e.cmd.verb == "__BARRIER_NOP__" then W.NopAnswer(e.cmd, e.resp) else e.resp == plugin(past, e.cmd)
  }

  ghost predicate Performed(plugin: W.Plugin, done: seq<W.Execution>) {
    forall i :: 0 <= i < |done| ==> AnsweredBy(plugin, done[..i], done[i])
  }

  lemma PerformedAppend(plugin: W.Plugin, done: seq<W.Execution>, id: nat, cmd: SerializedCommand)
    requires Performed(plugin, done)
    ensures Performed(plugin, done + [W.Perform(plugin, done, id, cmd)])
  {
    var longer := done + [W.Perform(plugin, done, id, cmd)];
    W.PerformMeaning(plugin, done, id, cmd);
    forall i | 0 <= i < |longer| ensures AnsweredBy(plugin, longer[..i], longer[i]) {
      if i < |done| {
        assert longer[i] == done[i] && longer[..i] == done[..i];
      } else {
        assert longer[..i] == done;
      }
    }
  }

  lemma PerformedTurn(plugin: W.Plugin, w: W.State, m: W.Inbound)
    requires Performed(plugin, w.done)
    ensures Performed(plugin, W.Step(plugin, w, m).done)
  {
    if W.Takes(w, m) {
      PerformedAppend(plugin, w.done, m.id, m.cmd.value);
    } else {
      assert W.Step(plugin, w, m).done == w.done;
    }
  }

  lemma PerformedStep(plugin: W.Plugin, s: State, a: Action)
    requires Performed(plugin, s.worker.done) && Enabled(s, a)
    ensures Performed(plugin, Next(plugin, s, a).worker.done)
  {
    if a.WorkerReceive? {
      PerformedTurn(plugin, s.worker, Inbound(s.requests[0]));
    } else {
      assert Next(plugin, s, a).worker.done == s.worker.done;
    }
  }

  lemma {:induction false} WorkerLogIsPerformed(plugin: W.Plugin, name: string, run: seq<Action>)
    requires Play(plugin, name, run).Some?
    ensures Performed(plugin, Play(plugin, name, run).value.worker.done)
  {
    if run != [] {
      var front := run[..|run| - 1];
      WorkerLogIsPerformed(plugin, name, front);
      PerformedStep(plugin, Play(plugin, name, front).value, run[|run| - 1]);
    }
  }

  /** `resp` is what the worker answered to the command handed to `execute` as `k`. */
  ghost predicate WorkersAnswer(plugin: W.Plugin, s: State, k: nat, resp: CommandResponse) {
    && k in s.commands
    && exists i :: 0 <= i < |s.worker.done|
         && s.worker.done[i].id == k && s.worker.done[i].cmd == Delivered(s.commands[k])
         && AnsweredBy(plugin, s.worker.done[..i], s.worker.done[i])
         && resp == Received(s.worker.done[i].resp)
  }

  /**
   * In every interleaving the future of message `k` holds the worker's answer
   * to the command sent as `k`, or an error made locally; nothing else.
   */
  lemma FutureGetsItsOwnAnswer(plugin: W.Plugin, name: string, run: seq<Action>, k: nat)
    requires Play(plugin, name, run).Some?
    ensures
      var s := Play(plugin, name, run).value;
      k in s.proxy.settled && s.proxy.settled[k].FromWorker? ==>
        WorkersAnswer(plugin, s, k, s.proxy.settled[k].resp)
  {
    Reachable(plugin, name, run);
    WorkerLogIsPerformed(plugin, name, run);
    var s := Play(plugin, name, run).value;
    if k in s.proxy.settled && s.proxy.settled[k].FromWorker? {
      assert Logged(s.worker.done, k, s.proxy.settled[k].resp);
      var i :| 0 <= i < |s.worker.done| && s.worker.done[i].id == k
            && DecodeResponse(EncodeResponse(s.worker.done[i].resp)) == Success(s.proxy.settled[k].resp);
      assert Genuine(s, s.worker.done[i]);
      CommandDelivery(s.commands[k]);
      ResponseRoundTrip(s.worker.done[i].resp);
    }
  }

  /** A message id is executed at most once, so "the" answer is unambiguous. */
  lemma ExecutedAtMostOnce(plugin: W.Plugin, name: string, run: seq<Action>, i: nat, j: nat)
    requires Play(plugin, name, run).Some?
    requires i < |Play(plugin, name, run).value.worker.done|
    requires j < |Play(plugin, name, run).value.worker.done|
    requires Play(plugin, name, run).value.worker.done[i].id == Play(plugin, name, run).value.worker.done[j].id
    ensures i == j
  {
    Reachable(plugin, name, run);
  }

  /**
   * Every issued id is either not yet stored, or pending, or settled; each
   * promise is set once; and completed + failed counts the worker's answers.
   */
  lemma ExactlyOnce(plugin: W.Plugin, name: string, run: seq<Action>)
    requires Play(plugin, name, run).Some?
    ensures
      var s := Play(plugin, name, run).value;
      && (forall k :: 1 <= k < s.proxy.nextId ==>
            InPhase(s, k, Allocated) == (k !in s.proxy.pending && k !in s.proxy.settled))
      && s.proxy.pending !! s.proxy.settled.Keys
      && s.proxy.sets == |s.proxy.settled|
      && s.proxy.stats.completed + s.proxy.stats.failed == |P.Answered(s.proxy)|
      && s.proxy.stats.completed == |P.Succeeded(s.proxy)|
      && |s.requests| <= 100 && |s.replies| <= 100
  {
    Reachable(plugin, name, run);
  }

  lemma PlayLast(plugin: W.Plugin, name: string, run: seq<Action>, a: Action)
    requires Play(plugin, name, run + [a]).Some?
    ensures Play(plugin, name, run).Some? && Enabled(Play(plugin, name, run).value, a)
    ensures Play(plugin, name, run + [a]).value == Next(plugin, Play(plugin, name, run).value, a)
  {
    assert (run + [a])[..|run|] == run;
  }

  /** What was handed to `execute` under an id stays so. */
  ghost predicate KeepsCommands(s: State, s': State) {
    forall k :: k in s.commands ==> k in s'.commands && s'.commands[k] == s.commands[k]
  }

  lemma CommandsStep(plugin: W.Plugin, s: State, a: Action)
    requires IdsInv(s) && Enabled(s, a)
    ensures KeepsCommands(s, Next(plugin, s, a))
  {
  }

  lemma {:induction false} CommandsForever(plugin: W.Plugin, name: string, run: seq<Action>, more: seq<Action>)
    requires Play(plugin, name, run + more).Some?
    ensures Play(plugin, name, run).Some?
    ensures KeepsCommands(Play(plugin, name, run).value, Play(plugin, name, run + more).value)
  {
    if more == [] {
      assert run + more == run;
    } else {
      var front, a := more[..|more| - 1], more[|more| - 1];
      assert run + more == (run + front) + [a];
      PlayLast(plugin, name, run + front, a);
      Reachable(plugin, name, run + front);
      CommandsStep(plugin, Play(plugin, name, run + front).value, a);
      CommandsForever(plugin, name, run, front);
    }
  }

  lemma KeepsLast(plugin: W.Plugin, name: string, run: seq<Action>, a: Action)
    requires Play(plugin, name, run + [a]).Some?
    ensures Play(plugin, name, run).Some?
    ensures P.Keeps(Play(plugin, name, run).value.proxy, Play(plugin, name, run + [a]).value.proxy)
  {
    PlayLast(plugin, name, run, a);
    Reachable(plugin, name, run);
    BalanceStep(plugin, Play(plugin, name, run).value, a);
  }

  /** Once settled, a future keeps its value whatever happens next. */
  lemma {:induction false} SettledForever(plugin: W.Plugin, name: string, run: seq<Action>, more: seq<Action>)
    requires Play(plugin, name, run + more).Some?
    ensures Play(plugin, name, run).Some?
    ensures P.Keeps(Play(plugin, name, run).value.proxy, Play(plugin, name, run + more).value.proxy)
  {
    if more == [] {
      assert run + more == run;
    } else {
      var front, a := more[..|more| - 1], more[|more| - 1];
      assert run + more == (run + front) + [a];
      KeepsLast(plugin, name, run + front, a);
      SettledForever(plugin, name, run, front);
    }
  }
}
