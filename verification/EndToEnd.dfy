/**
 * A script's results followed to their source: through the context that
 * waited for them and the links of the instruments to the workers' plugins.
 */
module EndToEnd {
  import opened Options
  import opened Codec
  import opened Context
  import L = Link
  import opened Protocol
  import P = Proxy
  import Text
  import W = Worker

  /** A worker's plugin and everything that happened on its link until the wait was over. */
  datatype Site = Site(plugin: W.Plugin, run: seq<L.Action>)

  function LocalError(id: string, inst: Name, message: string): CommandResponse {
    CommandResponse(id, inst, false, 0, message, "", None, false, "", 0, "")
  }

  /** The value a future has, for each way its promise was set. */
  function Yields(inst: Name, id: string, o: P.Outcome): CommandResponse {
    match o
    case FromWorker(resp) => resp
    case SendTimeout => LocalError(id, inst, "IPC send timeout")
    case WorkerStopped => LocalError("", inst, "Worker stopped")
    case WorkerDied => LocalError("", inst, "Worker process died")
  }

  /** `cmd` was handed to its instrument's `execute` as message `k`. */
  ghost predicate Issued(sites: map<Name, Site>, cmd: SerializedCommand, k: nat) {
    var inst := cmd.instrument;
    && inst in sites && L.Play(sites[inst].plugin, inst, sites[inst].run).Some?
    && var commands := L.Play(sites[inst].plugin, inst, sites[inst].run).value.commands;
       k in commands && commands[k] == cmd.(id := inst + "-" + Text.Natural(k))
  }

  function FinalLink(sites: map<Name, Site>, inst: Name): L.State
    requires inst in sites && L.Play(sites[inst].plugin, inst, sites[inst].run).Some?
  {
    L.Play(sites[inst].plugin, inst, sites[inst].run).value
  }

  /** The future of that call was set, and `answer` is what waiting for it gave. */
  ghost predicate Awaited(sites: map<Name, Site>, cmd: SerializedCommand, k: nat, answer: Option<CommandResponse>) {
    && Issued(sites, cmd, k)
    && var link := FinalLink(sites, cmd.instrument);
       && k in link.proxy.settled
       && answer == Some(Yields(cmd.instrument, link.commands[k].id, link.proxy.settled[k]))
  }

  /** The futures `fs` were all set; `ids` tells under which message. */
  ghost predicate AllAwaited(sites: map<Name, Site>, sent: seq<SerializedCommand>, fs: seq<nat>, ids: map<nat, nat>,
                             answers: Answers) {
    forall p :: 0 <= p < |fs| ==>
      fs[p] < |sent| && fs[p] in ids && Awaited(sites, sent[fs[p]], ids[fs[p]], answers(fs[p]))
  }

  /** `resp` is the error the server makes itself for this outcome. */
  ghost predicate GivenUp(o: P.Outcome, id: string, inst: Name, resp: CommandResponse) {
    && !resp.success && resp.instrument == inst && resp.returnValue.None? && !resp.hasLargeData
    && resp.commandId == (if o.SendTimeout? then id else "")
    && match o
       case FromWorker(_) => false
       case SendTimeout => resp.errorMessage == "IPC send timeout"
       case WorkerStopped => resp.errorMessage == "Worker stopped"
       case WorkerDied => resp.errorMessage == "Worker process died"
  }

  /** `resp` is what the instrument's worker answered to `cmd`, or an error of the server itself. */
  ghost predicate Truthful(sites: map<Name, Site>, cmd: SerializedCommand, k: nat, resp: CommandResponse) {
    && Issued(sites, cmd, k)
    && var link := FinalLink(sites, cmd.instrument);
       || L.WorkersAnswer(sites[cmd.instrument].plugin, link, k, resp)
       || (k in link.proxy.settled && GivenUp(link.proxy.settled[k], link.commands[k].id, cmd.instrument, resp))
  }

  lemma AwaitedIsTruthful(sites: map<Name, Site>, cmd: SerializedCommand, k: nat, answer: Option<CommandResponse>)
    requires Awaited(sites, cmd, k, answer)
    ensures answer.Some? && Truthful(sites, cmd, k, answer.value)
  {
    var inst := cmd.instrument;
    L.FutureGetsItsOwnAnswer(sites[inst].plugin, inst, sites[inst].run, k);
  }

  /** The slot, `made` for `cmd`, is now `slot`: filled with a truthful answer to it. */
  ghost predicate Reports(sites: map<Name, Site>, made: CallResult, slot: CallResult, cmd: SerializedCommand, k: nat) {
    && Matches(slot, cmd)
    && exists resp :: Shows(made, slot, resp) && Truthful(sites, cmd, k, resp)
  }

  lemma SlotReports(sites: map<Name, Site>, made: CallResult, slot: CallResult, cmd: SerializedCommand, k: nat,
                    answer: Option<CommandResponse>)
    requires Awaited(sites, cmd, k, answer) && Got(made, slot, answer) && Matches(slot, cmd)
    ensures Reports(sites, made, slot, cmd, k)
  {
    AwaitedIsTruthful(sites, cmd, k, answer);
    assert Shows(made, slot, answer.value);
  }

  /** A barrier NOP never reaches the plugin, and a worker answers it with success. */
  lemma NopSucceeds(plugin: W.Plugin, link: L.State, k: nat, resp: CommandResponse)
    requires L.WorkersAnswer(plugin, link, k, resp) && link.commands[k].verb == "__BARRIER_NOP__"
    ensures resp.success && resp.returnValue.None? && resp.errorMessage == "" && resp.textResponse == "BARRIER_NOP"
  {
  }

  /** Every slot from `base` on reports the command of its future. */
  ghost predicate AllReport(sites: map<Name, Site>, c: State, base: nat, done: seq<CallResult>, ids: map<nat, nat>) {
    var fs := Flat(c.order, c.futures);
    && |c.results| == |done| == base + |fs|
    && forall p :: 0 <= p < |fs| ==>
         && fs[p] < |c.sent| && fs[p] in ids
         && Reports(sites, c.results[base + p], done[base + p], c.sent[fs[p]], ids[fs[p]])
  }

  lemma SlotsReport(sites: map<Name, Site>, c: State, base: nat, done: seq<CallResult>, ids: map<nat, nat>, answers: Answers)
    requires OwnSlots(c, base, done, answers)
    requires AllAwaited(sites, c.sent, Flat(c.order, c.futures), ids, answers)
    ensures AllReport(sites, c, base, done, ids)
  {
    var fs: seq<nat> := Flat(c.order, c.futures);
    forall p | 0 <= p < |fs|
      ensures && fs[p] < |c.sent| && fs[p] in ids
              && Reports(sites, c.results[base + p], done[base + p], c.sent[fs[p]], ids[fs[p]])
    {
      var f := fs[p];
      assert Awaited(sites, c.sent[f], ids[f], answers(f));
      SlotReports(sites, c.results[base + p], done[base + p], c.sent[f], ids[f], answers(f));
    }
  }

  /**
   * After any script and the wait at its end, whatever the interleaving on the
   * links, every slot taken since the last wait names the instrument, verb and
   * parameters of one command, and holds what that instrument's plugin
   * answered to that very command, or an error made by the server.
   */
  lemma ResultsAreTruthful(ops: seq<Op>, wait: Op, sites: map<Name, Site>, ids: map<nat, nat>)
    requires StableSinceWait(ops) && wait.DoWait?
    requires AllAwaited(sites, Run(ops).sent, Flat(Run(ops).order, Run(ops).futures), ids, wait.answers)
    ensures AllReport(sites, Run(ops), Base(ops), Run(ops + [wait]).results, ids)
  {
    WaitFillsOwnSlots(ops, wait);
    SlotsReport(sites, Run(ops), Base(ops), Run(ops + [wait]).results, ids, wait.answers);
  }
}
