/** Runs of a link put together from a few larger moves, for the cases that go wrong. */
module LinkRuns {
  import opened Codec
  import opened Link
  import opened Options
  import W = Worker

  lemma Extend(plugin: W.Plugin, name: string, run: seq<Action>, a: Action) returns (longer: seq<Action>)
    requires Play(plugin, name, run).Some? && Enabled(Play(plugin, name, run).value, a)
    ensures Play(plugin, name, longer) == Some(Next(plugin, Play(plugin, name, run).value, a))
  {
    longer := run + [a];
    assert longer[..|run|] == run;
  }

  /** `s'` differs from `s` by a call of `execute` that got its message on the queue. */
  ghost predicate HandedOver(s: State, s': State, cmd: SerializedCommand) {
    var k, c := s.proxy.nextId, Stamped(s, cmd);
    var m := CommandMsg(k, EncodeCommand(c));
    && s'.name == s.name && s'.commands == s.commands[k := c]
    && s'.proxy.nextId == k + 1 && k in s'.proxy.pending
    && s'.offered == s.offered + [m] && s'.requests == s.requests + [m] && s'.read == s.read
    && s'.worker == s.worker && s'.outbox == s.outbox && s'.replies == s.replies && s'.hand == s.hand
    && !s'.crashed
  }

  lemma HandOver(plugin: W.Plugin, name: string, run: seq<Action>, cmd: SerializedCommand) returns (longer: seq<Action>)
    requires Play(plugin, name, run).Some?
    requires
      var s := Play(plugin, name, run).value;
      !s.crashed && |s.requests| < CAPACITY
    ensures Play(plugin, name, longer).Some?
    ensures HandedOver(Play(plugin, name, run).value, Play(plugin, name, longer).value, cmd)
  {
    var s := Play(plugin, name, run).value;
    var k := s.proxy.nextId;
    longer := Extend(plugin, name, run, Allocate(cmd));
    longer := Extend(plugin, name, longer, Store(k));
    longer := Extend(plugin, name, longer, Send(k, true));
    longer := Extend(plugin, name, longer, Finish(k));
  }

  /** The worker reads and executes the command at the head of its queue. */
  lemma Serve(plugin: W.Plugin, name: string, run: seq<Action>, k: nat, c: SerializedCommand) returns (longer: seq<Action>)
    requires Play(plugin, name, run).Some? && !BadArray(c.params)
    requires
      var s := Play(plugin, name, run).value;
      && !s.crashed && s.worker.running && s.worker.waiting.None? && s.outbox == []
      && s.requests != [] && s.requests[0] == CommandMsg(k, EncodeCommand(c))
    ensures
      var s := Play(plugin, name, run).value;
      var e := W.Perform(plugin, s.worker.done, k, Delivered(c));
      Play(plugin, name, longer) == Some(s.(
        requests := s.requests[1..],
        read := s.read + [s.requests[0]],
        worker := W.State(true, None, s.worker.done + [e], s.worker.out + W.Messages(e)),
        outbox := Outgoing(e)))
  {
    CommandDelivery(c);
    longer := Extend(plugin, name, run, WorkerReceive);
  }

  /** The worker's sends time out. */
  lemma {:induction false} Drop(plugin: W.Plugin, name: string, run: seq<Action>) returns (longer: seq<Action>)
    requires Play(plugin, name, run).Some? && !Play(plugin, name, run).value.crashed
    ensures Play(plugin, name, longer) == Some(Play(plugin, name, run).value.(outbox := []))
    decreases |Play(plugin, name, run).value.outbox|
  {
    if Play(plugin, name, run).value.outbox == [] {
      longer := run;
    } else {
      longer := Extend(plugin, name, run, WorkerSend(false));
      longer := Drop(plugin, name, longer);
    }
  }
}
