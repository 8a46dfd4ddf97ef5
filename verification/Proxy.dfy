/**
 * The server-side proxy of one instrument, at the granularity of its lock
 * sections: the pending table, the promises set so far and the statistics.
 */
module Proxy {
  import opened Codec

  /** Where the value of a future came from. */
  datatype Outcome =
    | FromWorker(resp: CommandResponse)
    | SendTimeout
    | WorkerStopped
    | WorkerDied

  datatype Stats = Stats(sent: nat, completed: nat, failed: nat)

  /**
   * `settled` holds the value of every future whose promise has been set, and
   * `sets` counts the calls of `set_value`.
   */
  datatype State = State(
    nextId: nat,
    pending: set<nat>,
    settled: map<nat, Outcome>,
    sets: nat,
    stats: Stats)

  const Start := State(1, {}, map[], 0, Stats(0, 0, 0))

  function Allocate(p: State): State {
    p.(nextId := p.nextId + 1)
  }

  function Store(p: State, k: nat): State {
    p.(pending := p.pending + {k})
  }

  function CountSent(p: State): State {
    p.(stats := p.stats.(sent := p.stats.sent + 1))
  }

  function Settle(p: State, k: nat, o: Outcome): State {
    p.(pending := p.pending - {k}, settled := p.settled[k := o], sets := p.sets + 1)
  }

  function CountAnswer(p: State, success: bool): State {
    p.(stats := if success then p.stats.(completed := p.stats.completed + 1)
                else p.stats.(failed := p.stats.failed + 1))
  }

  /** The lock section after a failed send. */
  function SendFailed(p: State, k: nat): State {
    if k in p.pending then Settle(p, k, SendTimeout) else p
  }

  /** The lock section of `handle_response_message`. */
  function HandleResponse(p: State, k: nat, resp: CommandResponse): State {
    if k in p.pending then CountAnswer(Settle(p, k, FromWorker(resp)), resp.success) else p
  }

  /** `cleanup_pending_promises` and `handle_worker_death`. */
  function FailAll(p: State, o: Outcome): State {
    p.(pending := {},
       settled := p.settled + map k | k in p.pending :: o,
       sets := p.sets + |p.pending|)
  }

  /** Futures whose value is a worker's answer. */
  ghost function Answered(p: State): set<nat> {
    set k | k in p.settled && p.settled[k].FromWorker?
  }

  ghost function Succeeded(p: State): set<nat> {
    set k | k in p.settled && p.settled[k].FromWorker? && p.settled[k].resp.success
  }

  /** Each promise is pending or set once, and the statistics count worker answers. */
  ghost predicate Balanced(p: State) {
    && p.pending !! p.settled.Keys
    && p.sets == |p.settled|
    && p.stats.completed == |Succeeded(p)|
    && p.stats.completed + p.stats.failed == |Answered(p)|
  }

  /** Values of futures are never replaced. */
  ghost predicate Keeps(p: State, p': State) {
    forall k :: k in p.settled ==> k in p'.settled && p'.settled[k] == p.settled[k]
  }

  lemma SettleKeepsCount(p: State, k: nat, o: Outcome)
    requires k !in p.settled && p.sets == |p.settled|
    ensures Settle(p, k, o).sets == |Settle(p, k, o).settled|
    ensures Keeps(p, Settle(p, k, o))
  {
    assert p.settled[k := o].Keys == p.settled.Keys + {k};
  }

  lemma SettleAnswered(p: State, k: nat, o: Outcome)
    requires k !in p.settled
    ensures Answered(Settle(p, k, o)) == if o.FromWorker? then Answered(p) + {k} else Answered(p)
  {
  }

  lemma SettleSucceeded(p: State, k: nat, o: Outcome)
    requires k !in p.settled
    ensures Succeeded(Settle(p, k, o)) ==
            if o.FromWorker? && o.resp.success then Succeeded(p) + {k} else Succeeded(p)
  {
  }

  lemma SettleCountsAnswers(p: State, k: nat, o: Outcome)
    requires k !in p.settled
    ensures |Answered(Settle(p, k, o))| == |Answered(p)| + if o.FromWorker? then 1 else 0
    ensures |Succeeded(Settle(p, k, o))| ==
            |Succeeded(p)| + if o.FromWorker? && o.resp.success then 1 else 0
  {
    SettleAnswered(p, k, o);
    SettleSucceeded(p, k, o);
  }

  /** A response settles its own pending future; late, repeated or unknown ones change nothing. */
  lemma HandleResponseBalanced(p: State, k: nat, resp: CommandResponse)
    requires Balanced(p)
    ensures Balanced(HandleResponse(p, k, resp)) && Keeps(p, HandleResponse(p, k, resp))
    ensures k !in p.pending ==> HandleResponse(p, k, resp) == p
    ensures forall again ::
              HandleResponse(HandleResponse(p, k, resp), k, again) == HandleResponse(p, k, resp)
  {
    if k in p.pending {
      var settled := Settle(p, k, FromWorker(resp));
      SettleKeepsCount(p, k, FromWorker(resp));
      SettleCountsAnswers(p, k, FromWorker(resp));
      assert Answered(HandleResponse(p, k, resp)) == Answered(settled);
      assert Succeeded(HandleResponse(p, k, resp)) == Succeeded(settled);
    }
  }

  /**
   * A response to a pending future settles it with that answer and takes it off
   * the table; exactly one of the two counters rises, by success; all other
   * futures and counters stay.
   */
  lemma ResponseSettles(p: State, k: nat, resp: CommandResponse)
    requires k in p.pending
    ensures
      var p' := HandleResponse(p, k, resp);
      && k in p'.settled && p'.settled[k] == FromWorker(resp)
      && p'.pending == p.pending - {k} && p'.settled.Keys == p.settled.Keys + {k} && p'.nextId == p.nextId
      && (forall j :: j in p.settled && j != k ==> p'.settled[j] == p.settled[j])
      && p'.stats.sent == p.stats.sent
      && p'.stats.completed == p.stats.completed + (if resp.success then 1 else 0)
      && p'.stats.failed == p.stats.failed + (if resp.success then 0 else 1)
  {
  }

  /** A failed send settles its own future with the timeout error, unless a response or a failure was faster. */
  lemma SendFailedSettles(p: State, k: nat)
    requires k in p.pending || k in p.settled
    ensures
      var p' := SendFailed(p, k);
      && k in p'.settled && p'.settled[k] == (if k in p.pending then SendTimeout else p.settled[k])
      && p'.pending == p.pending - {k} && p'.settled.Keys == p.settled.Keys + {k} && p'.stats == p.stats
      && (forall j :: j in p.settled && j != k ==> p'.settled[j] == p.settled[j])
  {
  }

  /** Failing all settles every pending future, each with the reason given. */
  lemma FailAllSettles(p: State, o: Outcome)
    requires p.pending !! p.settled.Keys
    ensures
      var p' := FailAll(p, o);
      && p'.pending == {} && p'.settled.Keys == p.settled.Keys + p.pending && p'.stats == p.stats
      && (forall j :: j in p.pending ==> p'.settled[j] == o)
      && (forall j :: j in p.settled ==> p'.settled[j] == p.settled[j])
  {
  }

  lemma SendFailedBalanced(p: State, k: nat)
    requires Balanced(p)
    ensures Balanced(SendFailed(p, k)) && Keeps(p, SendFailed(p, k))
  {
    if k in p.pending {
      SettleKeepsCount(p, k, SendTimeout);
      SettleCountsAnswers(p, k, SendTimeout);
    }
  }

  lemma FailAllKeys(p: State, o: Outcome)
    ensures FailAll(p, o).settled.Keys == p.settled.Keys + p.pending
  {
  }

  /** A locally made error is nobody's answer. */
  lemma FailAllAnswers(p: State, o: Outcome)
    requires p.pending !! p.settled.Keys && !o.FromWorker?
    ensures Answered(FailAll(p, o)) == Answered(p) && Succeeded(FailAll(p, o)) == Succeeded(p)
  {
  }

  lemma FailAllBalanced(p: State, o: Outcome)
    requires Balanced(p) && !o.FromWorker?
    ensures Balanced(FailAll(p, o)) && Keeps(p, FailAll(p, o))
  {
    FailAllKeys(p, o);
    FailAllAnswers(p, o);
  }

  /** The sections that set no promise. */
  lemma RestBalanced(p: State, k: nat)
    requires Balanced(p)
    ensures Balanced(Allocate(p)) && Balanced(CountSent(p))
    ensures k !in p.settled ==> Balanced(Store(p, k))
  {
    assert Answered(Allocate(p)) == Answered(CountSent(p)) == Answered(Store(p, k)) == Answered(p);
    assert Succeeded(Allocate(p)) == Succeeded(CountSent(p)) == Succeeded(Store(p, k)) == Succeeded(p);
  }

  // ---- The object ---------------------------------------------------------

  class InstrumentWorkerProxy {
    var nextMessageId: nat
    var pendingResponses: set<nat>
    var futures: map<nat, Outcome>
    var setCalls: nat
    var stats: Stats

    constructor ()
      ensures Model() == Start
    {
      nextMessageId, pendingResponses, futures, setCalls, stats := 1, {}, map[], 0, Stats(0, 0, 0);
    }

    ghost function Model(): State
      reads this
    {
      State(nextMessageId, pendingResponses, futures, setCalls, stats)
    }

    /** An undisturbed `execute`; `accepted` says whether the queue took the message in time. */
    method Execute(accepted: bool) returns (msgId: nat)
      modifies this
      ensures msgId == old(nextMessageId)
      ensures
        var stored := Store(Allocate(old(Model())), msgId);
        Model() == if accepted then CountSent(stored) else SendFailed(stored, msgId)
    {
      msgId := nextMessageId;
      nextMessageId := nextMessageId + 1;
      pendingResponses := pendingResponses + {msgId};
      if accepted {
        stats := stats.(sent := stats.sent + 1);
      } else {
        if msgId in pendingResponses {
          SetValue(msgId, SendTimeout);
        }
      }
    }

    method SetValue(k: nat, o: Outcome)
      modifies this
      ensures Model() == Settle(old(Model()), k, o)
    {
      futures := futures[k := o];
      setCalls := setCalls + 1;
      pendingResponses := pendingResponses - {k};
    }

    method HandleResponseMessage(k: nat, resp: CommandResponse)
      modifies this
      ensures Model() == HandleResponse(old(Model()), k, resp)
    {
      if k in pendingResponses {
        SetValue(k, FromWorker(resp));
        if resp.success {
          stats := stats.(completed := stats.completed + 1);
        } else {
          stats := stats.(failed := stats.failed + 1);
        }
      }
    }

    /** The loop shared by `cleanup_pending_promises` and `handle_worker_death`. */
    method FailPending(o: Outcome)
      modifies this
      ensures Model() == FailAll(old(Model()), o)
    {
      var values, calls := SetAll(pendingResponses, o);
      futures, setCalls, pendingResponses := futures + values, setCalls + calls, {};
    }

    /** The values given to the promises of `pending`, and how many `set_value` calls that took. */
    static method SetAll(pending: set<nat>, o: Outcome) returns (values: map<nat, Outcome>, calls: nat)
      ensures values == map k | k in pending :: o
      ensures calls == |pending|
    {
      values, calls := map[], 0;
      var rest := pending;
      while rest != {}
        invariant rest <= pending
        invariant values == map k | k in pending && k !in rest :: o
        invariant calls + |rest| == |pending|
        decreases rest
      {
        var k :| k in rest;
        values := values[k := o];
        calls := calls + 1;
        rest := rest - {k};
      }
    }
  }
}
