/** A worker's answer that is not finite ends the server's listener, and the server with it. */
module Crashing {
  import opened Codec
  import opened Link
  import opened Options
  import R = LinkRuns
  import W = Worker

  /** The response has no JSON form that decodes. */
  predicate Unreadable(resp: CommandResponse) {
    resp.returnValue.Some? && !AllFinite(resp.returnValue.value)
  }

  ghost predicate UnreadableAnswer(done: seq<W.Execution>, k: nat) {
    exists i :: 0 <= i < |done| && done[i].id == k && Unreadable(done[i].resp)
  }

  /** The listener is about to handle such an answer. */
  ghost predicate Doomed(s: State) {
    s.hand.Some? && s.hand.value.ResponseMsg? && UnreadableAnswer(s.worker.done, s.hand.value.id)
  }

  lemma HonestDecodes(s: State, r: Reply)
    requires WorkerInv(s) && Honest(s, r) && r.ResponseMsg?
    ensures DecodeResponse(r.payload).Failure? <==> UnreadableAnswer(s.worker.done, r.id)
  {
    var i :| 0 <= i < |s.worker.done| && s.worker.done[i].id == r.id
          && r.payload == EncodeResponse(s.worker.done[i].resp);
    ResponseRoundTrip(s.worker.done[i].resp);
    if UnreadableAnswer(s.worker.done, r.id) {
      var j :| 0 <= j < |s.worker.done| && s.worker.done[j].id == r.id && Unreadable(s.worker.done[j].resp);
      assert i == j;
    }
  }

  lemma CrashStep(plugin: W.Plugin, s: State, a: Action)
    requires Inv(s) && Enabled(s, a)
    ensures Next(plugin, s, a).crashed <==> s.crashed || (a.ListenerHandle? && Doomed(s))
  {
    if a.ListenerHandle? && s.hand.value.ResponseMsg? {
      HonestDecodes(s, s.hand.value);
    }
  }

  /**
   * In every interleaving an action ends the listener if and only if it
   * handles the answer of an execution whose value is not finite.
   */
  lemma CrashExactly(plugin: W.Plugin, name: string, run: seq<Action>, a: Action)
    requires Play(plugin, name, run + [a]).Some?
    ensures Play(plugin, name, run).Some?
    ensures Play(plugin, name, run + [a]).value.crashed <==>
            Play(plugin, name, run).value.crashed || (a.ListenerHandle? && Doomed(Play(plugin, name, run).value))
  {
    PlayLast(plugin, name, run, a);
    Reachable(plugin, name, run);
    CrashStep(plugin, Play(plugin, name, run).value, a);
  }

  lemma UnreadableGrows(done: seq<W.Execution>, done': seq<W.Execution>, k: nat)
    requires done <= done' && UnreadableAnswer(done, k)
    ensures UnreadableAnswer(done', k)
  {
    var i :| 0 <= i < |done| && done[i].id == k && Unreadable(done[i].resp);
    assert done'[i] == done[i];
  }

  lemma UnreadableStep(plugin: W.Plugin, s: State, a: Action, k: nat)
    requires IdsInv(s) && Enabled(s, a) && UnreadableAnswer(s.worker.done, k)
    ensures UnreadableAnswer(Next(plugin, s, a).worker.done, k)
  {
    GrowsStep(plugin, s, a);
    UnreadableGrows(s.worker.done, Next(plugin, s, a).worker.done, k);
  }

  /** The listener is gone only if the worker logged such an answer. */
  lemma {:induction false} CrashNeedsAnswer(plugin: W.Plugin, name: string, run: seq<Action>) returns (k: nat)
    requires Play(plugin, name, run).Some? && Play(plugin, name, run).value.crashed
    ensures UnreadableAnswer(Play(plugin, name, run).value.worker.done, k)
  {
    var front, a := run[..|run| - 1], run[|run| - 1];
    var s := Play(plugin, name, front).value;
    Reachable(plugin, name, front);
    CrashStep(plugin, s, a);
    if s.crashed {
      k := CrashNeedsAnswer(plugin, name, front);
    } else {
      k := s.hand.value.id;
    }
    UnreadableStep(plugin, s, a, k);
  }

  /** Nothing of the server moves. */
  ghost predicate Frozen(s: State, s': State) {
    s'.crashed && s'.proxy == s.proxy && s'.commands == s.commands && s'.offered == s.offered
  }

  lemma FrozenStep(plugin: W.Plugin, s: State, a: Action)
    requires s.crashed && Enabled(s, a)
    ensures Frozen(s, Next(plugin, s, a))
  {
  }

  lemma FrozenLast(plugin: W.Plugin, name: string, run: seq<Action>, a: Action)
    requires Play(plugin, name, run + [a]).Some?
    ensures Play(plugin, name, run).Some?
    ensures Play(plugin, name, run).value.crashed ==>
              Frozen(Play(plugin, name, run).value, Play(plugin, name, run + [a]).value)
  {
    PlayLast(plugin, name, run, a);
    if Play(plugin, name, run).value.crashed {
      FrozenStep(plugin, Play(plugin, name, run).value, a);
    }
  }

  /**
   * After that the worker may go on with what is queued, but no future is ever
   * settled, no command issued and nothing sent any more.
   */
  lemma {:induction false} CrashIsFinal(plugin: W.Plugin, name: string, run: seq<Action>, more: seq<Action>)
    requires Play(plugin, name, run).Some? && Play(plugin, name, run).value.crashed
    requires Play(plugin, name, run + more).Some?
    ensures Frozen(Play(plugin, name, run).value, Play(plugin, name, run + more).value)
  {
    if more == [] {
      assert run + more == run;
    } else {
      var front, a := more[..|more| - 1], more[|more| - 1];
      assert run + more == (run + front) + [a];
      FrozenLast(plugin, name, run + front, a);
      CrashIsFinal(plugin, name, run, front);
    }
  }

  /**
   * It does happen: a plugin that answers with such a number, one command, and
   * the listener is gone with the command's future still pending, for ever.
   */
  lemma ListenerDies(plugin: W.Plugin, name: string, cmd: SerializedCommand) returns (run: seq<Action>)
    requires !BadArray(cmd.params) && cmd.verb != W.BARRIER_NOP
    requires forall done, c :: Unreadable(plugin(done, c))
    ensures Play(plugin, name, run).Some?
    ensures
      var s := Play(plugin, name, run).value;
      s.crashed && 1 in s.proxy.pending
    ensures forall more ::
              Play(plugin, name, run + more).Some? ==> 1 in Play(plugin, name, run + more).value.proxy.pending
  {
    run := R.HandOver(plugin, name, [], cmd);
    var c := Play(plugin, name, run).value.commands[1];
    run := R.Serve(plugin, name, run, 1, c);
    var e := Play(plugin, name, run).value.worker.done[0];
    run := R.Extend(plugin, name, run, WorkerSend(true));
    run := R.Extend(plugin, name, run, ListenerTake);
    assert Play(plugin, name, run).value.hand == Some(ResponseMsg(1, EncodeResponse(e.resp)));
    ResponseRoundTrip(e.resp);
    run := R.Extend(plugin, name, run, ListenerHandle);
    forall more | Play(plugin, name, run + more).Some?
      ensures 1 in Play(plugin, name, run + more).value.proxy.pending
    {
      CrashIsFinal(plugin, name, run, more);
    }
  }
}
