/** Where a wait puts each answer, and when that is the slot of the answer's own command. */
module Placing {
  import opened Options
  import opened Codec
  import opened Context
  import opened Dispatching
  import opened Protocol
  import opened Sequences

  // ---- Indices count in every run -----------------------------------------

  ghost predicate Counted(c: State, base: nat) {
    Counts(Flat(c.order, c.indices), base, |c.results|)
  }

  lemma OneCounted(c: State, base: nat, t: Token, cmd: SerializedCommand, hit: bool)
    requires LastToken(c, t) && Counted(c, base)
    ensures Counted(SendOne(c, t, cmd, hit), base)
  {
    FlatPush(c.order, c.indices, |c.results|);
    CountsPush(Flat(c.order, c.indices), base, |c.results|);
  }

  lemma {:induction false} SendAllCounted(c: State, base: nat, t: Token, cmds: seq<SerializedCommand>, hits: Hits)
    requires LastToken(c, t) && Counted(c, base)
    ensures LastToken(SendAll(c, t, cmds, hits), t) && Counted(SendAll(c, t, cmds, hits), base)
  {
    if cmds != [] {
      var front, n := cmds[..|cmds| - 1], |cmds| - 1;
      SendAllCounted(c, base, t, front, hits);
      OneLast(SendAll(c, t, front, hits), t, cmds[n], hits(n));
      OneCounted(SendAll(c, t, front, hits), base, t, cmds[n], hits(n));
    }
  }

  lemma OpenCounted(c: State, base: nat, all: seq<Name>)
    requires TokensInv(c) && Counted(c, base)
    ensures LastToken(OpenToken(c, all), c.next) && Counted(OpenToken(c, all), base)
  {
    OpenTokens(c, all);
    var c' := OpenToken(c, all);
    assert c'.order[..|c.order|] == c.order;
    assert Flat(c'.order, c'.indices) == Flat(c.order, c.indices);
  }

  lemma CallCounted(c: State, base: nat, call: Call, all: seq<Name>, live: set<Name>)
    requires TokensInv(c) && Counted(c, base)
    ensures Counted(Enqueue(c, call, all, live), base)
  {
    if CommandFor(call).instrument in live {
      OpenCounted(c, base, all);
      var open := OpenToken(c, all);
      FlatPush(open.order, open.indices, |open.results|);
      CountsPush(Flat(open.order, open.indices), base, |open.results|);
    }
  }

  /** In every run the indices since the last wait are exactly the slots taken since then, in token order. */
  lemma {:induction false} CountedAlways(ops: seq<Op>)
    ensures Counted(Run(ops), Base(ops))
  {
    if ops != [] {
      var front, op := ops[..|ops| - 1], ops[|ops| - 1];
      var c := Run(front);
      CountedAlways(front);
      TokensAlways(front);
      match op
      case DoCall(call, all, live) => CallCounted(c, Base(front), call, all, live);
      case DoBlock(_, _, all, hits) =>
        OpenCounted(c, Base(front), all);
        SendAllCounted(OpenToken(c, all), Base(front), c.next, BlockCommands(c, op), hits);
      case DoWait(_, _, _) =>
    }
  }

  // ---- Where a wait writes ------------------------------------------------

  lemma {:induction false} FillTokenAt(results: seq<CallResult>, futs: seq<nat>, inds: seq<nat>, lo: nat, n: nat,
                                       answers: Answers, p: nat)
    requires n <= |futs| <= |inds| && From(inds, lo) && lo + |inds| <= |results| && p < |results|
    ensures |FillToken(results, futs, inds, n, answers)| == |results|
    ensures FillToken(results, futs, inds, n, answers)[p] ==
            if lo <= p < lo + n then Answered(results[p], answers(futs[p - lo])) else results[p]
  {
    if n > 0 {
      FillTokenAt(results, futs, inds, lo, n - 1, answers, p);
      assert inds[n - 1] == lo + n - 1;
    }
  }

  /** The slot before the first one of the `m`-th token. */
  ghost function Lo(c: State, base: nat, m: nat): nat
    requires m <= |c.order|
  {
    base + |Flat(c.order[..m], c.indices)|
  }

  lemma {:induction false} LoGrows(c: State, base: nat, m: nat, n: nat)
    requires m < n <= |c.order|
    ensures Lo(c, base, m) + |Get(c.indices, c.order[m])| <= Lo(c, base, n)
  {
    FlatNext(c.order, n, c.indices);
    if m < n - 1 {
      LoGrows(c, base, m, n - 1);
    }
  }

  lemma TokenFrom(c: State, base: nat, m: nat)
    requires Counted(c, base) && m < |c.order|
    ensures From(Get(c.indices, c.order[m]), Lo(c, base, m))
    ensures Lo(c, base, m) + |Get(c.indices, c.order[m])| <= |c.results|
  {
    var inds := Get(c.indices, c.order[m]);
    forall i | 0 <= i < |inds| ensures inds[i] == Lo(c, base, m) + i {
      IndicesOf(c.order, c.indices, base, |c.results|, m + 1, i);
    }
    LoGrows(c, base, m, |c.order|);
    assert c.order[..|c.order|] == c.order;
  }

  /** No token has more futures than indices. */
  ghost predicate Covered(c: State) {
    forall t :: t in c.order ==> |Get(c.futures, t)| <= |Get(c.indices, t)|
  }

  /** What the slot `p`, one of those of the `m`-th token, holds after the first `n` tokens. */
  ghost predicate Holds(c: State, base: nat, n: nat, answers: Answers, m: nat, p: nat)
    requires n <= |c.order| && m < |c.order| && Lo(c, base, m) <= p < |c.results|
  {
    var r, futs, i := FillTokens(c, n, answers), Get(c.futures, c.order[m]), p - Lo(c, base, m);
    && |r| == |c.results|
    && r[p] == if m < n && i < |futs| then Answered(c.results[p], answers(futs[i])) else c.results[p]
  }

  /** The turn of another token leaves the slot alone. */
  lemma OtherTurn(c: State, base: nat, k: nat, answers: Answers, before: seq<CallResult>, p: nat)
    requires Counted(c, base) && Covered(c) && k < |c.order| && p < |before| == |c.results|
    requires p < Lo(c, base, k) || Lo(c, base, k) + |Get(c.indices, c.order[k])| <= p
    ensures
      var futs := Get(c.futures, c.order[k]);
      var r := FillToken(before, futs, Get(c.indices, c.order[k]), |futs|, answers);
      |r| == |before| && r[p] == before[p]
  {
    var futs, inds := Get(c.futures, c.order[k]), Get(c.indices, c.order[k]);
    assert c.order[k] in c.order;
    TokenFrom(c, base, k);
    FillTokenAt(before, futs, inds, Lo(c, base, k), |futs|, answers, p);
  }

  /** The turn of its own token answers it, if there is a future for it. */
  lemma OwnTurn(c: State, base: nat, k: nat, answers: Answers, before: seq<CallResult>, p: nat)
    requires Counted(c, base) && Covered(c) && k < |c.order| && p < |before| == |c.results|
    requires Lo(c, base, k) <= p
    ensures
      var futs, i := Get(c.futures, c.order[k]), p - Lo(c, base, k);
      var r := FillToken(before, futs, Get(c.indices, c.order[k]), |futs|, answers);
      |r| == |before| && r[p] == if i < |futs| then Answered(before[p], answers(futs[i])) else before[p]
  {
    var futs, inds := Get(c.futures, c.order[k]), Get(c.indices, c.order[k]);
    assert c.order[k] in c.order;
    TokenFrom(c, base, k);
    FillTokenAt(before, futs, inds, Lo(c, base, k), |futs|, answers, p);
  }

  lemma FillTokensStep(c: State, base: nat, n: nat, answers: Answers, m: nat, p: nat)
    requires Counted(c, base) && Covered(c) && 0 < n <= |c.order| && m < |c.order|
    requires Lo(c, base, m) <= p < Lo(c, base, m) + |Get(c.indices, c.order[m])| && p < |c.results|
    requires Holds(c, base, n - 1, answers, m, p)
    ensures Holds(c, base, n, answers, m, p)
  {
    var k, before := n - 1, FillTokens(c, n - 1, answers);
    if m == k {
      OwnTurn(c, base, k, answers, before, p);
    } else {
      if m < k {
        LoGrows(c, base, m, k);
      } else {
        LoGrows(c, base, k, m);
      }
      OtherTurn(c, base, k, answers, before, p);
    }
  }

  lemma {:induction false} FillTokensAt(c: State, base: nat, n: nat, answers: Answers, m: nat, p: nat)
    requires Counted(c, base) && Covered(c) && n <= |c.order| && m < |c.order|
    requires Lo(c, base, m) <= p < Lo(c, base, m) + |Get(c.indices, c.order[m])| && p < |c.results|
    ensures Holds(c, base, n, answers, m, p)
  {
    if n > 0 {
      FillTokensAt(c, base, n - 1, answers, m, p);
      FillTokensStep(c, base, n, answers, m, p);
    }
  }

  /** The answer of the `i`-th future of a token goes to the `i`-th index of that token. */
  lemma WaitWrites(c: State, base: nat, answers: Answers, m: nat, i: nat)
    requires Counted(c, base) && Covered(c) && m < |c.order| && i < |Get(c.futures, c.order[m])|
    ensures i < |Get(c.indices, c.order[m])|
    ensures
      var at, done := Get(c.indices, c.order[m])[i], FillTokens(c, |c.order|, answers);
      && at < |c.results| == |done|
      && Got(c.results[at], done[at], answers(Get(c.futures, c.order[m])[i]))
  {
    assert c.order[m] in c.order;
    TokenFrom(c, base, m);
    FillTokensAt(c, base, |c.order|, answers, m, Lo(c, base, m) + i);
    AnsweredGot(c.results[Lo(c, base, m) + i], answers(Get(c.futures, c.order[m])[i]));
  }

  // ---- Own slots ----------------------------------------------------------

  ghost predicate SlotsOf(futs: seq<nat>, inds: seq<nat>, slots: seq<nat>) {
    |futs| <= |inds| && forall i :: 0 <= i < |futs| ==> futs[i] < |slots| && inds[i] == slots[futs[i]]
  }

  /** Every future's index is the slot that was taken for its command. */
  ghost predicate Placed(c: State, t: Token) {
    SlotsOf(Get(c.futures, t), Get(c.indices, t), c.slots)
  }

  /** A command that is sent takes the next slot; that is its future's index if none was left over before. */
  lemma SlotsOfPush(futs: seq<nat>, inds: seq<nat>, slots: seq<nat>, lo: nat)
    requires |futs| <= |inds| && From(inds, lo) && forall i :: 0 <= i < |futs| ==> futs[i] < |slots|
    ensures SlotsOf(futs + [|slots|], inds + [lo + |inds|], slots + [lo + |inds|]) <==>
            SlotsOf(futs, inds, slots) && |futs| == |inds|
  {
    var futs', inds', slots' := futs + [|slots|], inds + [lo + |inds|], slots + [lo + |inds|];
    var k := |futs|;
    assert futs'[k] == |slots| && slots'[|slots|] == lo + |inds| && inds'[k] == lo + k;
    if SlotsOf(futs', inds', slots') {
      forall i | 0 <= i < k ensures inds[i] == slots[futs[i]] {
        assert inds'[i] == slots'[futs'[i]];
      }
    }
  }

  ghost predicate WellPlaced(c: State) {
    forall t :: t in c.order ==> Placed(c, t)
  }

  /** No lookup before a successful one failed. */
  ghost predicate InOrder(hits: Hits, n: nat) {
    forall i, j :: 0 <= i < j < n && hits(j) ==> hits(i)
  }

  ghost predicate InOrderSinceWait(ops: seq<Op>) {
    if ops == [] || ops[|ops| - 1].DoWait? then true
    else
      var front, op := ops[..|ops| - 1], ops[|ops| - 1];
      (op.DoBlock? ==> InOrder(op.hits, |BlockCommands(Run(front), op)|)) && InOrderSinceWait(front)
  }

  lemma InOrderNext(hits: Hits, n: nat)
    ensures InOrder(hits, n + 1) <==> InOrder(hits, n) && (hits(n) ==> Missing(hits, n) == 0)
  {
    MissingNone(hits, n);
  }

  /** The slot of every command of the token is one of the token's own. */
  ghost predicate Booked(c: State, t: Token) {
    var futs, inds := Get(c.futures, t), Get(c.indices, t);
    && |futs| <= |inds| && Increasing(futs)
    && forall i :: 0 <= i < |futs| ==> futs[i] < |c.slots| && c.slots[futs[i]] in inds
  }

  /** The indices of a token that started empty, after `n` of a block's commands. */
  ghost predicate Laid(c: State, c': State, t: Token, n: nat) {
    && |c'.slots| == |c'.sent| && c.slots <= c'.slots && |c'.results| == |c.results| + n
    && |Get(c'.indices, t)| == n && From(Get(c'.indices, t), |c.results|)
  }

  lemma LaidNext(c: State, c': State, t: Token, n: nat, cmd: SerializedCommand, hit: bool)
    requires Laid(c, c', t, n)
    ensures Laid(c, SendOne(c', t, cmd, hit), t, n + 1)
  {
    OneBooked(c', t, cmd, hit);
    assert From(Get(c'.indices, t) + [|c'.results|], |c.results|);
  }

  /** Its futures are as many as the hits, and in their own slots exactly if the hits come first. */
  ghost predicate Staged(c: State, c': State, t: Token, n: nat, hits: Hits) {
    && Laid(c, c', t, n) && Booked(c', t)
    && |Get(c'.futures, t)| == n - Missing(hits, n)
    && (Placed(c', t) <==> InOrder(hits, n))
  }

  lemma PlacedMiss(c: State, t: Token, cmd: SerializedCommand)
    requires Booked(c, t)
    ensures Placed(SendOne(c, t, cmd, false), t) <==> Placed(c, t)
  {
    OneBooked(c, t, cmd, false);
  }

  lemma StagedMiss(c: State, c': State, t: Token, n: nat, hits: Hits, cmd: SerializedCommand)
    requires Staged(c, c', t, n, hits) && !hits(n)
    ensures Staged(c, SendOne(c', t, cmd, false), t, n + 1, hits)
  {
    LaidNext(c, c', t, n, cmd, false);
    OneBooked(c', t, cmd, false);
    InOrderNext(hits, n);
    BookedMiss(c', t, cmd);
    PlacedMiss(c', t, cmd);
  }

  lemma BookedMiss(c: State, t: Token, cmd: SerializedCommand)
    requires Booked(c, t)
    ensures Booked(SendOne(c, t, cmd, false), t)
  {
    OneBooked(c, t, cmd, false);
  }

  lemma BookedHit(c: State, t: Token, cmd: SerializedCommand)
    requires Booked(c, t) && |c.slots| == |c.sent|
    ensures Booked(SendOne(c, t, cmd, true), t)
  {
    var c' := SendOne(c, t, cmd, true);
    OneBooked(c, t, cmd, true);
    var futs, futs', inds' := Get(c.futures, t), Get(c'.futures, t), Get(c'.indices, t);
    forall i | 0 <= i < |futs'| ensures futs'[i] < |c'.slots| && c'.slots[futs'[i]] in inds' {
      if i < |futs| {
        assert futs'[i] == futs[i] && c'.slots[futs[i]] == c.slots[futs[i]];
      } else {
        assert c'.slots[futs'[i]] == |c.results| && inds'[|inds'| - 1] == |c.results|;
      }
    }
  }

  lemma PlacedHit(c: State, t: Token, cmd: SerializedCommand, lo: nat)
    requires Booked(c, t) && |c.slots| == |c.sent|
    requires From(Get(c.indices, t), lo) && |c.results| == lo + |Get(c.indices, t)|
    ensures Placed(SendOne(c, t, cmd, true), t) <==> Placed(c, t) && |Get(c.futures, t)| == |Get(c.indices, t)|
  {
    OneBooked(c, t, cmd, true);
    SlotsOfPush(Get(c.futures, t), Get(c.indices, t), c.slots, lo);
  }

  lemma StagedHit(c: State, c': State, t: Token, n: nat, hits: Hits, cmd: SerializedCommand)
    requires Staged(c, c', t, n, hits) && hits(n)
    ensures Staged(c, SendOne(c', t, cmd, true), t, n + 1, hits)
  {
    LaidNext(c, c', t, n, cmd, true);
    OneBooked(c', t, cmd, true);
    InOrderNext(hits, n);
    BookedHit(c', t, cmd);
    PlacedHit(c', t, cmd, |c.results|);
  }

  lemma StagedNext(c: State, c': State, t: Token, n: nat, hits: Hits, cmd: SerializedCommand)
    requires Staged(c, c', t, n, hits)
    ensures Staged(c, SendOne(c', t, cmd, hits(n)), t, n + 1, hits)
  {
    if hits(n) {
      StagedHit(c, c', t, n, hits, cmd);
    } else {
      StagedMiss(c, c', t, n, hits, cmd);
    }
  }

  lemma StagedNone(c: State, t: Token, hits: Hits)
    requires Get(c.futures, t) == [] && Get(c.indices, t) == [] && |c.slots| == |c.sent|
    ensures Staged(c, c, t, 0, hits)
  {
  }

  lemma {:induction false} StagedAll(c: State, t: Token, cmds: seq<SerializedCommand>, n: nat, hits: Hits)
    requires Get(c.futures, t) == [] && Get(c.indices, t) == [] && |c.slots| == |c.sent| && n == |cmds|
    ensures Staged(c, SendAll(c, t, cmds, hits), t, n, hits)
  {
    if n == 0 {
      StagedNone(c, t, hits);
    } else {
      var front, m := cmds[..n - 1], n - 1;
      StagedAll(c, t, front, m, hits);
      StagedNext(c, SendAll(c, t, front, hits), t, m, hits, cmds[m]);
      assert SendAll(c, t, cmds, hits) == SendOne(SendAll(c, t, front, hits), t, cmds[m], hits(m));
    }
  }

  // ---- Every run ----------------------------------------------------------

  ghost predicate PlacingInv(c: State) {
    |c.slots| == |c.sent| && forall t :: t in c.order ==> Booked(c, t)
  }

  /** A token whose lists are as before. */
  lemma PlacedFrame(c: State, c': State, t: Token)
    requires Booked(c, t) && c.slots <= c'.slots
    requires Get(c'.futures, t) == Get(c.futures, t) && Get(c'.indices, t) == Get(c.indices, t)
    ensures Booked(c', t) && (Placed(c', t) <==> Placed(c, t))
  {
    var futs := Get(c.futures, t);
    assert forall i :: 0 <= i < |futs| ==> c'.slots[futs[i]] == c.slots[futs[i]];
  }

  /** `c'` has one more token than `c`; the others are untouched. */
  ghost predicate AddsToken(c: State, c': State) {
    && c'.order == c.order + [c.next]
    && c.slots <= c'.slots && |c'.slots| == |c'.sent|
    && forall t :: t != c.next ==> Get(c'.futures, t) == Get(c.futures, t) && Get(c'.indices, t) == Get(c.indices, t)
  }

  lemma AddPlaces(c: State, c': State)
    requires TokensInv(c) && PlacingInv(c) && AddsToken(c, c')
    requires Booked(c', c.next)
    ensures PlacingInv(c')
    ensures WellPlaced(c') <==> WellPlaced(c) && Placed(c', c.next)
  {
    forall t | t in c.order ensures Booked(c', t) && (Placed(c', t) <==> Placed(c, t)) {
      PlacedFrame(c, c', t);
    }
    assert forall t :: t in c'.order <==> t in c.order || t == c.next;
  }

  lemma BlockPlaces(c: State, op: Op)
    requires TokensInv(c) && PlacingInv(c) && Dispatches(op)
    ensures PlacingInv(Step(c, op))
    ensures WellPlaced(Step(c, op)) <==> WellPlaced(c) && InOrder(op.hits, |BlockCommands(c, op)|)
  {
    var t, open, cmds := c.next, OpenToken(c, op.all), BlockCommands(c, op);
    OpenTokens(c, op.all);
    SendAllBooks(open, t, cmds, op.hits);
    StagedAll(open, t, cmds, |cmds|, op.hits);
    MissingNone(op.hits, |cmds|);
    AddPlaces(c, Step(c, op));
  }

  lemma CallAdds(c: State, call: Call, all: seq<Name>, live: set<Name>)
    requires TokensInv(c) && |c.slots| == |c.sent| && CommandFor(call).instrument in live
    ensures
      var c' := Enqueue(c, call, all, live);
      && AddsToken(c, c')
      && Get(c'.futures, c.next) == [|c.sent|] && Get(c'.indices, c.next) == [|c.results|]
      && c'.slots == c.slots + [|c.results|]
  {
    OpenTokens(c, all);
    var open, t := OpenToken(c, all), c.next;
    assert Get(open.futures, t) == [] && Get(open.indices, t) == [];
    var placed := Place(open, t, Slot(call.spec, call.verb, call.params));
    assert Get(placed.indices, t) == [] + [|c.results|] == [|c.results|];
    assert forall u :: u != t ==> Get(placed.indices, u) == Get(c.indices, u);
  }

  lemma CallPlaces(c: State, call: Call, all: seq<Name>, live: set<Name>)
    requires TokensInv(c) && PlacingInv(c) && CommandFor(call).instrument in live
    ensures PlacingInv(Enqueue(c, call, all, live))
    ensures WellPlaced(Enqueue(c, call, all, live)) <==> WellPlaced(c)
  {
    var c', t := Enqueue(c, call, all, live), c.next;
    CallAdds(c, call, all, live);
    assert c'.slots[|c.sent|] == |c.results| == Get(c'.indices, t)[0];
    assert Booked(c', t) && Placed(c', t);
    AddPlaces(c, c');
  }

  lemma {:induction false} PlacingAlways(ops: seq<Op>)
    ensures PlacingInv(Run(ops))
    ensures WellPlaced(Run(ops)) <==> InOrderSinceWait(ops)
  {
    if ops != [] {
      var front, op := ops[..|ops| - 1], ops[|ops| - 1];
      var c := Run(front);
      PlacingAlways(front);
      TokensAlways(front);
      match op
      case DoCall(call, all, live) =>
        if CommandFor(call).instrument in live { CallPlaces(c, call, all, live); }
      case DoBlock(_, _, _, _) =>
        if Dispatches(op) { BlockPlaces(c, op); }
      case DoWait(_, _, _) =>
    }
  }

  /**
   * The wait gives the answer of future `f` to the slot that was taken for its
   * command.
   */
  ghost predicate OwnAnswer(c: State, done: seq<CallResult>, f: nat, answers: Answers) {
    && f < |c.slots| && c.slots[f] < |c.results| && c.slots[f] < |done|
    && Got(c.results[c.slots[f]], done[c.slots[f]], answers(f))
  }

  lemma PlacedAnswer(c: State, base: nat, t: Token, f: nat, answers: Answers)
    requires Counted(c, base) && PlacingInv(c) && t in c.order && Placed(c, t) && f in Get(c.futures, t)
    ensures OwnAnswer(c, FillTokens(c, |c.order|, answers), f, answers)
  {
    var m :| 0 <= m < |c.order| && c.order[m] == t;
    var i :| 0 <= i < |Get(c.futures, t)| && Get(c.futures, t)[i] == f;
    WaitWrites(c, base, answers, m, i);
  }

  /** An answer that shows in the slot. */
  function Telling(slot: CallResult): CommandResponse {
    CommandResponse(slot.commandId + "!", "", true, 0, "", "", None, false, "", 0, "")
  }

  lemma TellingShows(slot: CallResult)
    ensures !Got(slot, slot, Some(Telling(slot)))
  {
    assert |slot.commandId + "!"| != |slot.commandId|;
  }

  /** If only `f` is answered, slots written for other futures stay as they were. */
  lemma OthersUnwritten(c: State, base: nat, m: nat, j: nat, f: nat, answers: Answers)
    requires Counted(c, base) && PlacingInv(c) && m < |c.order| && j < |Get(c.indices, c.order[m])|
    requires j < |Get(c.futures, c.order[m])| ==> Get(c.futures, c.order[m])[j] != f
    requires forall g :: g != f ==> answers(g) == None
    ensures
      var p, done := Get(c.indices, c.order[m])[j], FillTokens(c, |c.order|, answers);
      p < |c.results| == |done| && done[p] == c.results[p]
  {
    assert c.order[m] in c.order;
    TokenFrom(c, base, m);
    FillTokensAt(c, base, |c.order|, answers, m, Lo(c, base, m) + j);
  }

  lemma Misplaced(c: State, base: nat, t: Token) returns (answers: Answers, f: nat)
    requires Counted(c, base) && PlacingInv(c) && t in c.order && !Placed(c, t)
    ensures f in Get(c.futures, t) && !OwnAnswer(c, FillTokens(c, |c.order|, answers), f, answers)
  {
    var futs, inds := Get(c.futures, t), Get(c.indices, t);
    var i :| 0 <= i < |futs| && inds[i] != c.slots[futs[i]];
    f := futs[i];
    var m :| 0 <= m < |c.order| && c.order[m] == t;
    var j :| 0 <= j < |inds| && inds[j] == c.slots[f];
    TokenFrom(c, base, m);
    var p := c.slots[f];
    var resp, g := Telling(c.results[p]), f;
    answers := k => if k == g then Some(resp) else None;
    OthersUnwritten(c, base, m, j, f, answers);
    TellingShows(c.results[p]);
  }

  /**
   * In every run, no matter what the answers are, no answer lands in a slot
   * made for another command if and only if since the last wait no block had a
   * failed lookup before a successful one.
   */
  lemma NoneMisplacedExactly(ops: seq<Op>)
    ensures
      var c := Run(ops);
      (forall answers: Answers, t, f :: t in c.order && f in Get(c.futures, t) ==>
         OwnAnswer(c, FillTokens(c, |c.order|, answers), f, answers))
      <==> InOrderSinceWait(ops)
  {
    var c := Run(ops);
    PlacingAlways(ops);
    CountedAlways(ops);
    if WellPlaced(c) {
      forall answers: Answers, t, f | t in c.order && f in Get(c.futures, t)
        ensures OwnAnswer(c, FillTokens(c, |c.order|, answers), f, answers)
      {
        PlacedAnswer(c, Base(ops), t, f, answers);
      }
    } else {
      var t :| t in c.order && !Placed(c, t);
      var answers, f := Misplaced(c, Base(ops), t);
    }
  }
}
