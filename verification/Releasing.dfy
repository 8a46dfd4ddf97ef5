/**
 * Release safety: what is settled when SYNC_CONTINUE is sent, over the log of a
 * whole run with any number of waits.
 */
module Releasing {
  import opened Options
  import opened Codec
  import opened Context
  import Coordination
  import opened Protocol
  import opened Sequences

  // ---- What is promised ---------------------------------------------------

  /** The command belongs to token `t` or to an earlier one. */
  predicate UpTo(cmd: SerializedCommand, t: Token) {
    cmd.syncToken.Some? && cmd.syncToken.value <= t
  }

  /** The future of every command sent for `t` or an earlier token is settled in `past`. */
  ghost predicate SettledUpTo(sent: seq<SerializedCommand>, t: Token, past: seq<Event>) {
    forall f :: 0 <= f < |sent| && UpTo(sent[f], t) ==> Settled(f) in past
  }

  /** No release comes before the settling of a future it has to wait for. */
  ghost predicate ReleasesJustified(sent: seq<SerializedCommand>, log: seq<Event>) {
    forall p :: 0 <= p < |log| && log[p].Released? ==> SettledUpTo(sent, log[p].token, log[..p])
  }

  /** Per instrument the released tokens strictly increase. */
  ghost predicate ReleasesIncrease(log: seq<Event>) {
    forall p, q :: 0 <= p < q < |log| && log[p].Released? && log[q].Released? && log[p].name == log[q].name ==>
      log[p].token < log[q].token
  }

  /** Every release so far is of a token before `t`. */
  ghost predicate ReleasedBefore(log: seq<Event>, t: Token) {
    forall p :: 0 <= p < |log| && log[p].Released? ==> log[p].token < t
  }

  // ---- Events of one token ------------------------------------------------

  lemma {:induction false} SettleAt(futs: seq<nat>, i: nat)
    requires i < |futs|
    ensures |SettleEvents(futs)| == |futs| && SettleEvents(futs)[i] == Settled(futs[i])
  {
    if |futs| > 1 {
      SettleAt(futs[..|futs| - 1], if i < |futs| - 1 then i else 0);
    }
  }

  lemma {:induction false} ReleaseAt(t: Token, names: seq<Name>, i: nat)
    requires i < |names|
    ensures |ReleaseEvents(t, names)| == |names| && ReleaseEvents(t, names)[i] == Released(names[i], t)
  {
    if |names| > 1 {
      ReleaseAt(t, names[..|names| - 1], if i < |names| - 1 then i else 0);
    }
  }

  lemma SettleLength(futs: seq<nat>)
    ensures |SettleEvents(futs)| == |futs|
  {
    if futs != [] { SettleAt(futs, 0); }
  }

  lemma ReleaseLength(t: Token, names: seq<Name>)
    ensures |ReleaseEvents(t, names)| == |names|
  {
    if names != [] { ReleaseAt(t, names, 0); }
  }

  lemma EventsLength(c: State, t: Token, names: seq<Name>)
    ensures |TokenEvents(c, t, names)| == |Get(c.futures, t)| + |names| + 1
  {
    SettleLength(Get(c.futures, t));
    ReleaseLength(t, names);
  }

  /** What stands at each position of a token's events. */
  lemma EventAt(c: State, t: Token, names: seq<Name>, i: nat)
    requires i < |TokenEvents(c, t, names)|
    ensures
      var futs := Get(c.futures, t);
      && |TokenEvents(c, t, names)| == |futs| + |names| + 1
      && TokenEvents(c, t, names)[i] ==
           if i < |futs| then Settled(futs[i])
           else if i < |futs| + |names| then Released(names[i - |futs|], t)
           else Cleared(t)
  {
    var futs := Get(c.futures, t);
    EventsLength(c, t, names);
    SettleLength(futs);
    ReleaseLength(t, names);
    if i < |futs| {
      SettleAt(futs, i);
    } else if i < |futs| + |names| {
      ReleaseAt(t, names, i - |futs|);
    }
  }

  lemma SettledIn(c: State, t: Token, names: seq<Name>, f: nat, q: nat)
    requires f in Get(c.futures, t) && |Get(c.futures, t)| <= q <= |TokenEvents(c, t, names)|
    ensures Settled(f) in TokenEvents(c, t, names)[..q]
  {
    var futs := Get(c.futures, t);
    var i :| 0 <= i < |futs| && futs[i] == f;
    EventAt(c, t, names, i);
    assert TokenEvents(c, t, names)[..q][i] == Settled(f);
  }

  // ---- Invariant ----------------------------------------------------------

  /** The future of command `f` is on the list of its token or settled. */
  ghost predicate Accounted(c: State, f: nat)
    requires f < |c.sent|
  {
    var t := c.sent[f].syncToken;
    && t.Some? && t.value < c.next
    && ((t.value in c.order && f in Get(c.futures, t.value)) || Settled(f) in c.log)
  }

  ghost predicate AllAccounted(c: State) {
    forall f :: 0 <= f < |c.sent| ==> Accounted(c, f)
  }

  /** Open tokens and those still to come are later than all released ones. */
  ghost predicate Ahead(c: State) {
    ReleasedBefore(c.log, c.next) && forall t :: t in c.order ==> ReleasedBefore(c.log, t)
  }

  ghost predicate LogInv(c: State) {
    AllAccounted(c) && Ahead(c) && ReleasesJustified(c.sent, c.log) && ReleasesIncrease(c.log)
  }

  // ---- Staging keeps it ---------------------------------------------------

  lemma OpenLog(c: State, all: seq<Name>)
    requires LogInv(c) && TokensInv(c)
    ensures LogInv(OpenToken(c, all))
  {
    var c' := OpenToken(c, all);
    forall f | 0 <= f < |c'.sent| ensures Accounted(c', f) {
      assert Accounted(c, f);
    }
  }

  lemma PlaceLog(c: State, t: Token, slot: CallResult)
    requires LogInv(c)
    ensures LogInv(Place(c, t, slot))
  {
    forall f | 0 <= f < |c.sent| ensures Accounted(Place(c, t, slot), f) {
      assert Accounted(c, f);
    }
  }

  lemma LaunchAccounted(c: State, t: Token, cmd: SerializedCommand, slot: nat)
    requires AllAccounted(c) && t in c.order && t < c.next && cmd.syncToken == Some(t)
    ensures AllAccounted(Launch(c, t, cmd, slot))
  {
    var c' := Launch(c, t, cmd, slot);
    forall f | 0 <= f < |c'.sent| ensures Accounted(c', f) {
      if f < |c.sent| {
        assert Accounted(c, f);
      } else {
        assert Get(c'.futures, t)[|Get(c.futures, t)|] == f;
      }
    }
  }

  lemma LaunchLog(c: State, t: Token, cmd: SerializedCommand, slot: nat)
    requires LogInv(c) && t in c.order && t < c.next && cmd.syncToken == Some(t)
    ensures LogInv(Launch(c, t, cmd, slot))
  {
    LaunchAccounted(c, t, cmd, slot);
    var sent' := c.sent + [cmd];
    forall p | 0 <= p < |c.log| && c.log[p].Released? ensures SettledUpTo(sent', c.log[p].token, c.log[..p]) {
      assert SettledUpTo(c.sent, c.log[p].token, c.log[..p]);
      assert ReleasedBefore(c.log, t);
    }
  }

  lemma SendOneLog(c: State, t: Token, cmd: SerializedCommand, hit: bool)
    requires LogInv(c) && t in c.order && t < c.next && cmd.syncToken == Some(t)
    ensures LogInv(SendOne(c, t, cmd, hit))
    ensures SendOne(c, t, cmd, hit).order == c.order && SendOne(c, t, cmd, hit).next == c.next
  {
    var slot := Slot(Shown(cmd), cmd.verb, cmd.params);
    PlaceLog(c, t, slot);
    if hit {
      LaunchLog(Place(c, t, slot), t, cmd, |c.results|);
    }
  }

  /** Every command carries the token. */
  ghost predicate AllTagged(cmds: seq<SerializedCommand>, t: Token) {
    forall i :: 0 <= i < |cmds| ==> cmds[i].syncToken == Some(t)
  }

  lemma {:induction false} SendAllLog(c: State, t: Token, cmds: seq<SerializedCommand>, hits: Hits)
    requires LogInv(c) && t in c.order && t < c.next && AllTagged(cmds, t)
    ensures LogInv(SendAll(c, t, cmds, hits))
    ensures SendAll(c, t, cmds, hits).order == c.order && SendAll(c, t, cmds, hits).next == c.next
  {
    if cmds != [] {
      var front := cmds[..|cmds| - 1];
      SendAllLog(c, t, front, hits);
      SendOneLog(SendAll(c, t, front, hits), t, cmds[|cmds| - 1], hits(|cmds| - 1));
    }
  }

  lemma {:induction false} BatchesTagged(all: seq<Name>, buffer: seq<SerializedCommand>, t: Token)
    ensures AllTagged(Batches(all, buffer, t), t)
  {
    if all != [] {
      BatchesTagged(all[..|all| - 1], buffer, t);
      assert AllTagged(Batch(buffer, all[|all| - 1], t), t);
    }
  }

  // ---- Waiting keeps it ---------------------------------------------------

  /** The log after the first `n` tokens of a wait. */
  function LogAfter(c: State, n: nat, sends: Sends): seq<Event>
    requires n <= |c.order|
  {
    c.log + WaitEvents(c, n, sends)
  }

  lemma LogNext(c: State, n: nat, sends: Sends)
    requires n < |c.order|
    ensures LogAfter(c, n + 1, sends) ==
            LogAfter(c, n, sends) + TokenEvents(c, c.order[n], SendsAt(sends, n))
  {
    Regroup(c.log, WaitEvents(c, n, sends), TokenEvents(c, c.order[n], SendsAt(sends, n)));
  }

  /** Futures of the tokens already processed are settled. */
  ghost predicate DoneBefore(c: State, n: nat, log: seq<Event>)
    requires n <= |c.order|
  {
    forall m, f :: 0 <= m < n && f in Get(c.futures, c.order[m]) ==> Settled(f) in log
  }

  /** Everything a release of the `n`-th token waits for is settled before it. */
  lemma SegmentSettled(c: State, n: nat, early: seq<Event>, names: seq<Name>, q: nat)
    requires AllAccounted(c) && Increasing(c.order) && n < |c.order|
    requires c.log <= early && DoneBefore(c, n, early)
    requires |Get(c.futures, c.order[n])| <= q <= |TokenEvents(c, c.order[n], names)|
    ensures SettledUpTo(c.sent, c.order[n], early + TokenEvents(c, c.order[n], names)[..q])
  {
    var t, seg := c.order[n], TokenEvents(c, c.order[n], names);
    forall f | 0 <= f < |c.sent| && UpTo(c.sent[f], t) ensures Settled(f) in early + seg[..q] {
      assert Accounted(c, f);
      var u := c.sent[f].syncToken.value;
      if Settled(f) in c.log {
        assert Settled(f) in early;
      } else {
        var m :| 0 <= m < |c.order| && c.order[m] == u;
        if m == n {
          SettledIn(c, t, names, f, q);
        }
      }
    }
  }

  lemma SegmentJustified(c: State, n: nat, early: seq<Event>, names: seq<Name>)
    requires AllAccounted(c) && Increasing(c.order) && n < |c.order|
    requires c.log <= early && DoneBefore(c, n, early) && ReleasesJustified(c.sent, early)
    ensures ReleasesJustified(c.sent, early + TokenEvents(c, c.order[n], names))
  {
    var seg := TokenEvents(c, c.order[n], names);
    var log := early + seg;
    forall p | 0 <= p < |log| && log[p].Released? ensures SettledUpTo(c.sent, log[p].token, log[..p]) {
      if p < |early| {
        assert log[p] == early[p] && log[..p] == early[..p];
      } else {
        var q := p - |early|;
        assert log[p] == seg[q] && log[..p] == early + seg[..q];
        EventAt(c, c.order[n], names, q);
        SegmentSettled(c, n, early, names, q);
      }
    }
  }

  lemma SegmentIncreases(c: State, t: Token, early: seq<Event>, names: seq<Name>)
    requires ReleasesIncrease(early) && ReleasedBefore(early, t) && Distinct(names)
    ensures ReleasesIncrease(early + TokenEvents(c, t, names))
  {
    var seg := TokenEvents(c, t, names);
    var log := early + seg;
    forall p, q | 0 <= p < q < |log| && log[p].Released? && log[q].Released?
      ensures log[p].name == log[q].name ==> log[p].token < log[q].token
    {
      if q < |early| {
        assert log[p] == early[p] && log[q] == early[q];
      } else {
        EventAt(c, t, names, q - |early|);
        if p < |early| {
          assert log[p] == early[p];
        } else {
          EventAt(c, t, names, p - |early|);
        }
      }
    }
  }

  lemma SegmentBefore(c: State, t: Token, early: seq<Event>, names: seq<Name>, u: Token)
    requires ReleasedBefore(early, u) && t < u
    ensures ReleasedBefore(early + TokenEvents(c, t, names), u)
  {
    var seg := TokenEvents(c, t, names);
    forall p | 0 <= p < |early + seg| && (early + seg)[p].Released? ensures (early + seg)[p].token < u {
      if p >= |early| {
        EventAt(c, t, names, p - |early|);
      }
    }
  }

  lemma SegmentDone(c: State, n: nat, early: seq<Event>, names: seq<Name>)
    requires n < |c.order| && DoneBefore(c, n, early)
    ensures DoneBefore(c, n + 1, early + TokenEvents(c, c.order[n], names))
  {
    var t := c.order[n];
    var seg := TokenEvents(c, t, names);
    forall m, f | 0 <= m < n + 1 && f in Get(c.futures, c.order[m]) ensures Settled(f) in early + seg {
      if m == n {
        EventsLength(c, t, names);
        SettledIn(c, t, names, f, |seg|);
        assert seg[..|seg|] == seg;
      }
    }
  }

  /** Midway through a wait. */
  ghost predicate MidInv(c: State, n: nat, log: seq<Event>)
    requires n <= |c.order|
  {
    && c.log <= log && DoneBefore(c, n, log)
    && ReleasesJustified(c.sent, log) && ReleasesIncrease(log)
    && ReleasedBefore(log, c.next)
    && forall m :: n <= m < |c.order| ==> ReleasedBefore(log, c.order[m])
  }

  lemma MidStep(c: State, n: nat, log: seq<Event>, names: seq<Name>)
    requires AllAccounted(c) && TokensInv(c) && n < |c.order| && MidInv(c, n, log) && Distinct(names)
    ensures MidInv(c, n + 1, log + TokenEvents(c, c.order[n], names))
  {
    var t := c.order[n];
    assert t in c.order;
    SegmentJustified(c, n, log, names);
    SegmentIncreases(c, t, log, names);
    SegmentDone(c, n, log, names);
    SegmentBefore(c, t, log, names, c.next);
    forall m | n + 1 <= m < |c.order| ensures ReleasedBefore(log + TokenEvents(c, t, names), c.order[m]) {
      SegmentBefore(c, t, log, names, c.order[m]);
    }
  }

  lemma MidStart(c: State, sends: Sends)
    requires LogInv(c) && TokensInv(c)
    ensures MidInv(c, 0, LogAfter(c, 0, sends))
  {
    assert LogAfter(c, 0, sends) == c.log;
  }

  lemma MidNext(c: State, n: nat, live: Lookup, sends: Sends)
    requires AllAccounted(c) && TokensInv(c) && 0 < n <= |c.order|
    requires FoundFor(c, c.order[n - 1], live, SendsAt(sends, n - 1))
    requires MidInv(c, n - 1, LogAfter(c, n - 1, sends))
    ensures MidInv(c, n, LogAfter(c, n, sends))
  {
    var m := n - 1;
    LogNext(c, m, sends);
    MidStep(c, m, LogAfter(c, m, sends), SendsAt(sends, m));
    assert n == m + 1;
  }

  lemma {:induction false} MidAlways(c: State, n: nat, live: Lookup, sends: Sends)
    requires AllAccounted(c) && TokensInv(c) && Found(c, live, sends) && n <= |c.order|
    requires MidInv(c, 0, LogAfter(c, 0, sends))
    ensures MidInv(c, n, LogAfter(c, n, sends))
  {
    if n > 0 {
      MidAlways(c, n - 1, live, sends);
      FoundAt(c, live, sends, n - 1);
      MidNext(c, n, live, sends);
    }
  }

  lemma FoundAt(c: State, live: Lookup, sends: Sends, m: nat)
    requires Found(c, live, sends) && m < |c.order|
    ensures FoundFor(c, c.order[m], live, SendsAt(sends, m))
  {
  }

  lemma WaitLog(c: State, answers: Answers, live: Lookup, sends: Sends)
    requires LogInv(c) && TokensInv(c) && Found(c, live, sends)
    ensures LogInv(Wait(c, answers, sends))
  {
    var n := |c.order|;
    MidStart(c, sends);
    MidAlways(c, n, live, sends);
    var c' := Wait(c, answers, sends);
    forall f | 0 <= f < |c'.sent| ensures Accounted(c', f) {
      assert Accounted(c, f);
      if Settled(f) !in c.log {
        var m :| 0 <= m < n && c.order[m] == c.sent[f].syncToken.value;
        assert f in Get(c.futures, c.order[m]);
      }
    }
  }

  // ---- Every run ----------------------------------------------------------

  lemma EnqueueLog(c: State, call: Call, all: seq<Name>, live: set<Name>)
    requires LogInv(c) && TokensInv(c)
    ensures LogInv(Enqueue(c, call, all, live))
  {
    var cmd := CommandFor(call);
    if cmd.instrument in live {
      var open, slot := OpenToken(c, all), Slot(call.spec, call.verb, call.params);
      OpenLog(c, all);
      PlaceLog(open, c.next, slot);
      LaunchLog(Place(open, c.next, slot), c.next, cmd.(syncToken := Some(c.next), isSyncBarrier := true), |c.results|);
    }
  }

  lemma BlockLog(c: State, op: Op)
    requires LogInv(c) && TokensInv(c) && op.DoBlock?
    ensures LogInv(Step(c, op))
  {
    if Dispatches(op) {
      OpenLog(c, op.all);
      BatchesTagged(op.all, Commands(op.calls), c.next);
      SendAllLog(OpenToken(c, op.all), c.next, BlockCommands(c, op), op.hits);
    }
  }

  lemma {:induction false} LogAlways(ops: seq<Op>)
    requires AllFound(ops)
    ensures LogInv(Run(ops))
  {
    if ops != [] {
      var front, op := ops[..|ops| - 1], ops[|ops| - 1];
      LogAlways(front);
      TokensAlways(front);
      match op
      case DoCall(call, all, live) => EnqueueLog(Run(front), call, all, live);
      case DoBlock(_, _, _, _) => BlockLog(Run(front), op);
      case DoWait(answers, live, sends) => WaitLog(Run(front), answers, live, sends);
    }
  }

  /**
   * Release safety, over the log of any sequence of calls, blocks and waits:
   * SYNC_CONTINUE for `t` is sent only after the future of every command ever
   * sent for `t` or an earlier token is settled, and per instrument the
   * released tokens strictly increase, so that none is released twice.
   */
  lemma ReleaseSafety(ops: seq<Op>)
    requires AllFound(ops)
    ensures ReleasesJustified(Run(ops).sent, Run(ops).log)
    ensures ReleasesIncrease(Run(ops).log)
  {
    LogAlways(ops);
  }

  /** After a wait the future of every command ever sent is settled. */
  lemma WaitSettlesAll(ops: seq<Op>, wait: Op, f: nat)
    requires AllFound(ops) && wait.DoWait? && Found(Run(ops), wait.lookup, wait.sends)
    requires f < |Run(ops + [wait]).sent|
    ensures Settled(f) in Run(ops + [wait]).log
  {
    RunAppend(ops, wait);
    LogAlways(ops);
    TokensAlways(ops);
    WaitLog(Run(ops), wait.answers, wait.lookup, wait.sends);
    assert Accounted(Run(ops + [wait]), f);
  }

  // ---- What one wait does -------------------------------------------------

  ghost predicate EventOf(c: State, sends: Sends, m: nat, e: Event)
    requires m < |c.order|
  {
    e in TokenEvents(c, c.order[m], SendsAt(sends, m))
  }

  lemma EventNext(c: State, n: nat, sends: Sends, e: Event)
    requires 0 < n <= |c.order|
    ensures e in WaitEvents(c, n, sends) <==> e in WaitEvents(c, n - 1, sends) || EventOf(c, sends, n - 1, e)
  {
  }

  lemma {:induction false} EventIn(c: State, n: nat, sends: Sends, m: nat, e: Event)
    requires m < n <= |c.order| && EventOf(c, sends, m, e)
    ensures e in WaitEvents(c, n, sends)
  {
    EventNext(c, n, sends, e);
    if m < n - 1 {
      EventIn(c, n - 1, sends, m, e);
    }
  }

  /** Every event of a wait is that of one of its tokens. */
  lemma {:induction false} EventOfWait(c: State, n: nat, sends: Sends, e: Event) returns (m: nat)
    requires n <= |c.order| && e in WaitEvents(c, n, sends)
    ensures m < n && EventOf(c, sends, m, e)
  {
    EventNext(c, n, sends, e);
    if e in WaitEvents(c, n - 1, sends) {
      m := EventOfWait(c, n - 1, sends, e);
    } else {
      m := n - 1;
    }
  }

  lemma ReleaseOfToken(c: State, t: Token, names: seq<Name>, e: Event)
    requires e.Released?
    ensures e in TokenEvents(c, t, names) <==> e.token == t && e.name in names
  {
    var seg, k := TokenEvents(c, t, names), |Get(c.futures, t)|;
    if e in seg {
      var i :| 0 <= i < |seg| && seg[i] == e;
      EventAt(c, t, names, i);
    }
    if e.token == t && e.name in names {
      var i :| 0 <= i < |names| && names[i] == e.name;
      EventsLength(c, t, names);
      EventAt(c, t, names, k + i);
      assert seg[k + i] == e;
    }
  }

  /**
   * A wait sends SYNC_CONTINUE for exactly the open tokens, to exactly their
   * instruments that are still there.
   */
  lemma WaitReleasesExactly(c: State, live: Lookup, sends: Sends, name: Name, t: Token)
    requires Found(c, live, sends)
    ensures Released(name, t) in WaitEvents(c, |c.order|, sends) <==> t in c.order && name in Participants(c, t, live)
  {
    var e, n := Released(name, t), |c.order|;
    if e in WaitEvents(c, n, sends) {
      var m := EventOfWait(c, n, sends, e);
      ReleaseExactly(c, live, sends, m, e);
    }
    if t in c.order && name in Participants(c, t, live) {
      var m :| 0 <= m < n && c.order[m] == t;
      ReleaseExactly(c, live, sends, m, e);
      EventIn(c, n, sends, m, e);
    }
  }

  lemma ReleaseExactly(c: State, live: Lookup, sends: Sends, m: nat, e: Event)
    requires Found(c, live, sends) && m < |c.order| && e.Released?
    ensures EventOf(c, sends, m, e) <==> e.token == c.order[m] && e.name in Participants(c, e.token, live)
  {
    var names := SendsAt(sends, m);
    FoundAt(c, live, sends, m);
    ReleaseOfToken(c, c.order[m], names, e);
    assert e.name in names <==> e.name in Coordination.Members(names);
  }

  /** A wait clears exactly the open tokens. */
  lemma WaitClearsExactly(c: State, sends: Sends, t: Token)
    ensures Cleared(t) in WaitEvents(c, |c.order|, sends) <==> t in c.order
  {
    var e, n := Cleared(t), |c.order|;
    if e in WaitEvents(c, n, sends) {
      var m := EventOfWait(c, n, sends, e);
      ClearOfToken(c, c.order[m], SendsAt(sends, m), t);
    }
    if t in c.order {
      var m :| 0 <= m < n && c.order[m] == t;
      ClearOfToken(c, t, SendsAt(sends, m), t);
      EventIn(c, n, sends, m, e);
    }
  }

  lemma ClearOfToken(c: State, u: Token, names: seq<Name>, t: Token)
    ensures Cleared(t) in TokenEvents(c, u, names) <==> u == t
  {
    var seg := TokenEvents(c, u, names);
    EventAt(c, u, names, |seg| - 1);
    if Cleared(t) in seg {
      var i :| 0 <= i < |seg| && seg[i] == Cleared(t);
      EventAt(c, u, names, i);
    }
  }
}
