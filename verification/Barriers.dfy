/**
 * What the barrier is for, across all links: SYNC_CONTINUE for a token is on no
 * queue before every command of that token and of all earlier ones was
 * executed by its instrument or has failed at the server.
 */
module Barriers {
  import opened Codec
  import opened Context
  import opened EndToEnd
  import L = Link
  import opened Options
  import P = Proxy
  import opened Protocol
  import opened Releasing

  /** The links at the moments of a context's log: `at(p)` is when its `p`-th event happens. */
  type Timeline = nat -> map<Name, Site>

  ghost predicate Connected(sites: map<Name, Site>) {
    forall inst :: inst in sites ==> L.Play(sites[inst].plugin, inst, sites[inst].run).Some?
  }

  /** The links only go on. */
  ghost predicate GoesOn(before: map<Name, Site>, after: map<Name, Site>) {
    forall inst :: inst in before ==>
      inst in after && after[inst].plugin == before[inst].plugin && before[inst].run <= after[inst].run
  }

  /** The future of `cmd`, message `k` of its instrument, is set. */
  ghost predicate IsSet(sites: map<Name, Site>, cmd: SerializedCommand, k: nat) {
    Issued(sites, cmd, k) && k in FinalLink(sites, cmd.instrument).proxy.settled
  }

  /** `get` returns only when its future is set. */
  ghost predicate GetsReturn(c: State, at: Timeline, ids: map<nat, nat>) {
    forall p :: 0 <= p < |c.log| && c.log[p].Settled? && c.log[p].future < |c.sent| ==>
      c.log[p].future in ids && IsSet(at(p), c.sent[c.log[p].future], ids[c.log[p].future])
  }

  ghost predicate OnQueue(sites: map<Name, Site>, inst: Name, t: Token) {
    && inst in sites && L.Play(sites[inst].plugin, inst, sites[inst].run).Some?
    && L.ContinueMsg(t) in FinalLink(sites, inst).offered
  }

  /** SYNC_CONTINUE is sent by the context's releases only. */
  ghost predicate SentByReleases(c: State, at: Timeline) {
    forall p, inst, t :: 0 <= p < |c.log| && OnQueue(at(p), inst, t) ==>
      exists q :: 0 <= q <= p && c.log[q] == Released(inst, t)
  }

  ghost predicate Consistent(c: State, at: Timeline, ids: map<nat, nat>) {
    && (forall p :: 0 <= p < |c.log| ==> Connected(at(p)))
    && (forall p, q :: 0 <= p <= q < |c.log| ==> GoesOn(at(p), at(q)))
    && GetsReturn(c, at, ids) && SentByReleases(c, at)
  }

  /** The worker executed the command and this is its answer, or the server gave it up. */
  ghost predicate Finished(sites: map<Name, Site>, cmd: SerializedCommand, k: nat) {
    && IsSet(sites, cmd, k)
    && var link := FinalLink(sites, cmd.instrument);
       var o := link.proxy.settled[k];
       o.FromWorker? ==> L.WorkersAnswer(sites[cmd.instrument].plugin, link, k, o.resp)
  }

  lemma SetIsFinished(sites: map<Name, Site>, cmd: SerializedCommand, k: nat)
    requires IsSet(sites, cmd, k)
    ensures Finished(sites, cmd, k)
  {
    var site := sites[cmd.instrument];
    L.FutureGetsItsOwnAnswer(site.plugin, cmd.instrument, site.run, k);
  }

  /** What holds of a link after `run` holds after any longer run. */
  lemma LinkGoesOn(site: Site, later: Site, inst: Name)
    requires later.plugin == site.plugin && site.run <= later.run
    requires L.Play(later.plugin, inst, later.run).Some?
    ensures L.Play(site.plugin, inst, site.run).Some?
    ensures
      var s, s' := L.Play(site.plugin, inst, site.run).value, L.Play(later.plugin, inst, later.run).value;
      L.KeepsCommands(s, s') && P.Keeps(s.proxy, s'.proxy)
  {
    var more := later.run[|site.run|..];
    assert later.run == site.run + more;
    L.CommandsForever(site.plugin, inst, site.run, more);
    L.SettledForever(site.plugin, inst, site.run, more);
  }

  lemma SetStays(before: map<Name, Site>, after: map<Name, Site>, cmd: SerializedCommand, k: nat)
    requires IsSet(before, cmd, k) && GoesOn(before, after) && Connected(after)
    ensures IsSet(after, cmd, k)
  {
    LinkGoesOn(before[cmd.instrument], after[cmd.instrument], cmd.instrument);
  }

  /** What a release in the log has to wait for was set before. */
  lemma SetBefore(c: State, at: Timeline, ids: map<nat, nat>, q: nat, f: nat)
    requires Consistent(c, at, ids) && ReleasesJustified(c.sent, c.log)
    requires q < |c.log| && c.log[q].Released? && f < |c.sent| && UpTo(c.sent[f], c.log[q].token)
    ensures f in ids && IsSet(at(q), c.sent[f], ids[f])
  {
    assert Settled(f) in c.log[..q];
    var r :| 0 <= r < q && c.log[r] == Settled(f);
    assert IsSet(at(r), c.sent[f], ids[f]);
    SetStays(at(r), at(q), c.sent[f], ids[f]);
  }

  /**
   * For any script and any interleaving on any number of links: when
   * SYNC_CONTINUE for `t` is on some queue, every command ever sent for `t` or
   * an earlier token, to whatever instrument, has been executed there, or its
   * future holds an error of the server.
   */
  lemma BarrierSafety(ops: seq<Op>, at: Timeline, ids: map<nat, nat>, p: nat, inst: Name, t: Token, f: nat)
    requires AllFound(ops) && Consistent(Run(ops), at, ids)
    requires p < |Run(ops).log| && OnQueue(at(p), inst, t)
    requires f < |Run(ops).sent| && UpTo(Run(ops).sent[f], t)
    ensures f in ids && Finished(at(p), Run(ops).sent[f], ids[f])
  {
    var c := Run(ops);
    ReleaseSafety(ops);
    var q :| 0 <= q <= p && c.log[q] == Released(inst, t);
    SetBefore(c, at, ids, q, f);
    SetStays(at(q), at(p), c.sent[f], ids[f]);
    SetIsFinished(at(p), c.sent[f], ids[f]);
  }
}
