/**
 * `RuntimeContext` in enqueue mode: single calls and parallel blocks staged
 * under sync tokens, and the pass that waits for their futures and releases
 * the tokens.
 */
module Context {
  import opened Options
  import opened Codec
  import opened Coordination
  import opened Protocol
  import opened Sequences
  import Text
  import Worker

  /** A script's `context:call`; `params` already holds the channel, if any. */
  datatype Call = Call(spec: string, verb: string, params: Params, expects: bool)

  datatype CallResult = CallResult(
    commandId: string,
    instrument: string,
    verb: string,
    params: Params,
    returnValue: Option<Value>,
    returnType: string,
    hasLargeData: bool,
    bufferId: string,
    elementCount: nat,
    dataType: string,
    success: bool,
    errorMessage: string)

  function Slot(instrument: string, verb: string, params: Params): CallResult {
    CallResult("", instrument, verb, params, None, "", false, "", 0, "", false, "")
  }

  function ExternalType(v: Value): string {
    match v
    case Number(_) => "float"
    case Integer(_) => "integer"
    case Str(_) => "string"
    case Boolean(_) => "boolean"
    case Array(_) => "array"
  }

  /** `populate_callresult_from_response`. */
  function Populate(cr: CallResult, resp: CommandResponse): CallResult {
    var head := cr.(commandId := resp.commandId, success := resp.success, errorMessage := resp.errorMessage);
    if resp.hasLargeData then
      head.(hasLargeData := true, bufferId := resp.bufferId, elementCount := resp.elementCount,
            dataType := resp.dataType, returnType := "buffer")
    else if resp.returnValue.None? then head.(returnType := "void")
    else
      var v := resp.returnValue.value;
      var typed := head.(returnValue := Some(v), returnType := ExternalType(v));
      if v.Array? then typed.(elementCount := |v.a|, dataType := "float") else typed
  }

  /** The type name a script sees. */
  ghost predicate TypeNamed(v: Value, name: string) {
    && (v.Number? ==> name == "float") && (v.Integer? ==> name == "integer") && (v.Str? ==> name == "string")
    && (v.Boolean? ==> name == "boolean") && (v.Array? ==> name == "array")
  }

  /** The slot, `made` before, shows the response: field by field. */
  ghost predicate Shows(made: CallResult, slot: CallResult, resp: CommandResponse) {
    && slot.instrument == made.instrument && slot.verb == made.verb && slot.params == made.params
    && slot.commandId == resp.commandId && slot.success == resp.success && slot.errorMessage == resp.errorMessage
    && if resp.hasLargeData then
         && slot.hasLargeData && slot.returnType == "buffer" && slot.returnValue == made.returnValue
         && slot.bufferId == resp.bufferId && slot.elementCount == resp.elementCount && slot.dataType == resp.dataType
       else
         && slot.hasLargeData == made.hasLargeData && slot.bufferId == made.bufferId
         && if resp.returnValue.None? then
              && slot.returnType == "void" && slot.returnValue == made.returnValue
              && slot.elementCount == made.elementCount && slot.dataType == made.dataType
            else
              var v := resp.returnValue.value;
              && slot.returnValue == Some(v) && TypeNamed(v, slot.returnType)
              && slot.elementCount == (if v.Array? then |v.a| else made.elementCount)
              && slot.dataType == (if v.Array? then "float" else made.dataType)
  }

  lemma PopulateShows(made: CallResult, resp: CommandResponse)
    ensures Shows(made, Populate(made, resp), resp)
  {
  }

  /** What a result shows of a response. */
  predicate SameReport(a: CommandResponse, b: CommandResponse) {
    && a.commandId == b.commandId && a.success == b.success && a.errorMessage == b.errorMessage
    && a.hasLargeData == b.hasLargeData
    && if a.hasLargeData
       then a.bufferId == b.bufferId && a.elementCount == b.elementCount && a.dataType == b.dataType
       else a.returnValue == b.returnValue
  }

  /** A result tells two responses apart exactly when they differ in what it reports. */
  lemma PopulateFaithful(cr: CallResult, a: CommandResponse, b: CommandResponse)
    ensures Populate(cr, a) == Populate(cr, b) <==> SameReport(a, b)
  {
    if a.returnValue.Some? && b.returnValue.Some? {
      assert ExternalType(a.returnValue.value) != "void" && ExternalType(b.returnValue.value) != "buffer";
    }
  }

  // ---- Commands -----------------------------------------------------------

  /** The instrument part of `Instrument:channel`. */
  function InstrumentOf(spec: string): string {
    if spec == [] || spec[0] == ':' then [] else [spec[0]] + InstrumentOf(spec[1..])
  }

  function CommandFor(call: Call): SerializedCommand {
    SerializedCommand("", InstrumentOf(call.spec), call.verb, call.params, call.expects, 5000, None, false)
  }

  function Nop(inst: Name, t: Token): SerializedCommand {
    SerializedCommand("", inst, Worker.BARRIER_NOP, map[], true, 5000, Some(t), true)
  }

  /** The display name a block gives a command: the channel is put back. */
  function Shown(cmd: SerializedCommand): string {
    if "channel" in cmd.params && cmd.params["channel"].Integer?
    then cmd.instrument + ":" + Text.Decimal(cmd.params["channel"].i)
    else cmd.instrument
  }

  /** `name` is the instrument, or the instrument followed by a channel. */
  predicate Names(name: string, instrument: string) {
    name == instrument || instrument + ":" <= name
  }

  /** The slot was made for this command. */
  predicate Matches(slot: CallResult, cmd: SerializedCommand) {
    Names(slot.instrument, cmd.instrument) && slot.verb == cmd.verb && slot.params == cmd.params
  }

  /**
   * The text is the instrument, or the instrument, a colon and a channel; the
   * instrument is what stands before the first colon.
   */
  lemma {:induction false} SpecNames(spec: string)
    ensures Names(spec, InstrumentOf(spec)) && ':' !in InstrumentOf(spec)
  {
    if spec != [] && spec[0] != ':' {
      SpecNames(spec[1..]);
      var inner := InstrumentOf(spec[1..]);
      assert spec == [spec[0]] + spec[1..];
      if inner + ":" <= spec[1..] {
        assert [spec[0]] + inner + ":" == [spec[0]] + (inner + ":");
      }
    } else if spec != [] {
      assert [] + ":" <= spec;
    }
  }

  /** The name a block displays is the one the script wrote. */
  lemma ShownIsSpec(call: Call)
    requires
      if "channel" in call.params && call.params["channel"].Integer?
      then call.spec == InstrumentOf(call.spec) + ":" + Text.Decimal(call.params["channel"].i)
      else call.spec == InstrumentOf(call.spec)
    ensures Shown(CommandFor(call)) == call.spec
  {
  }

  // ---- State --------------------------------------------------------------

  /** What a context does to the world around it while it waits. */
  datatype Event =
    | Settled(future: nat)
    | Released(name: Name, token: Token)
    | Cleared(token: Token)

  /**
   * A future is named by the position of its command in `sent`, the log of
   * the commands given to `execute`; `slots` holds the result slot taken for
   * each of them.  `log` holds the gets that returned, the
   * SYNC_CONTINUEs sent and the barriers cleared, in the order they happened.
   */
  datatype State = State(
    next: Token,
    order: seq<Token>,
    instruments: map<Token, set<Name>>,
    futures: map<Token, seq<nat>>,
    indices: map<Token, seq<nat>>,
    results: seq<CallResult>,
    sent: seq<SerializedCommand>,
    slots: seq<nat>,
    barriers: Table,
    log: seq<Event>)

  const Start := State(1, [], map[], map[], map[], [], [], [], map[], [])

  function Get(m: map<Token, seq<nat>>, t: Token): seq<nat> {
    if t in m then m[t] else []
  }

  function Push(m: map<Token, seq<nat>>, t: Token, x: nat): map<Token, seq<nat>> {
    m[t := Get(m, t) + [x]]
  }

  /** A new token over all registered instruments. */
  function OpenToken(c: State, all: seq<Name>): State {
    c.(next := c.next + 1,
       order := c.order + [c.next],
       instruments := if all == [] then c.instruments else c.instruments[c.next := Members(all)],
       barriers := Apply(c.barriers, Register(c.next, all)))
  }

  function Place(c: State, t: Token, slot: CallResult): State {
    c.(indices := Push(c.indices, t, |c.results|), results := c.results + [slot])
  }

  function Launch(c: State, t: Token, cmd: SerializedCommand, slot: nat): State {
    c.(futures := Push(c.futures, t, |c.sent|), sent := c.sent + [cmd], slots := c.slots + [slot])
  }

  /** Takes a slot for `cmd` and sends it, unless its worker is not found. */
  function SendOne(c: State, t: Token, cmd: SerializedCommand, hit: bool): State {
    var placed := Place(c, t, Slot(Shown(cmd), cmd.verb, cmd.params));
    if hit then Launch(placed, t, cmd, |c.results|) else placed
  }

  /** A call outside any block. */
  function Enqueue(c: State, call: Call, all: seq<Name>, live: set<Name>): State {
    var cmd := CommandFor(call);
    if cmd.instrument !in live then c
    else Launch(Place(OpenToken(c, all), c.next, Slot(call.spec, call.verb, call.params)),
                c.next, cmd.(syncToken := Some(c.next), isSyncBarrier := true), |c.results|)
  }

  function For(buffer: seq<SerializedCommand>, inst: Name): seq<SerializedCommand> {
    if buffer == [] then []
    else
      var front, last := buffer[..|buffer| - 1], buffer[|buffer| - 1];
      if last.instrument == inst then For(front, inst) + [last] else For(front, inst)
  }

  function Tagged(cmds: seq<SerializedCommand>, t: Token, i: nat): SerializedCommand
    requires i < |cmds|
  {
    cmds[i].(syncToken := Some(t), isSyncBarrier := i + 1 == |cmds|)
  }

  /** What one instrument is sent for a block. */
  function Batch(buffer: seq<SerializedCommand>, inst: Name, t: Token): seq<SerializedCommand> {
    var mine := For(buffer, inst);
    if mine == [] then [Nop(inst, t)]
    else seq(|mine|, i requires 0 <= i < |mine| => Tagged(mine, t, i))
  }

  /** Everything a block has to send, instrument by instrument. */
  function Batches(all: seq<Name>, buffer: seq<SerializedCommand>, t: Token): seq<SerializedCommand> {
    if all == [] then [] else Batches(all[..|all| - 1], buffer, t) + Batch(buffer, all[|all| - 1], t)
  }

  lemma BatchesNext(all: seq<Name>, i: nat, buffer: seq<SerializedCommand>, t: Token)
    requires i < |all|
    ensures Batches(all[..i + 1], buffer, t) == Batches(all[..i], buffer, t) + Batch(buffer, all[i], t)
  {
    assert all[..i + 1][..i] == all[..i];
  }

  /**
   * The registry is asked for the worker of every single command; `hits(i)` is
   * whether the `i`-th lookup of a block found it.
   */
  type Hits = nat -> bool

  function SendAll(c: State, t: Token, cmds: seq<SerializedCommand>, hits: Hits): State {
    if cmds == [] then c
    else SendOne(SendAll(c, t, cmds[..|cmds| - 1], hits), t, cmds[|cmds| - 1], hits(|cmds| - 1))
  }

  lemma SendAllAppend(c: State, t: Token, cmds: seq<SerializedCommand>, cmd: SerializedCommand, n: nat, hits: Hits)
    requires n == |cmds|
    ensures SendAll(c, t, cmds + [cmd], hits) == SendOne(SendAll(c, t, cmds, hits), t, cmd, hits(n))
  {
    var longer := cmds + [cmd];
    assert longer[..n] == cmds && longer[n] == cmd && |longer| - 1 == n;
  }

  function Commands(calls: seq<Call>): seq<SerializedCommand> {
    seq(|calls|, i requires 0 <= i < |calls| => CommandFor(calls[i]))
  }

  /** A parallel block; one that throws or makes no call dispatches nothing. */
  function Block(c: State, calls: seq<Call>, throws: bool, all: seq<Name>, hits: Hits): State {
    if throws || calls == [] then c
    else SendAll(OpenToken(c, all), c.next, Batches(all, Commands(calls), c.next), hits)
  }

  // ---- Waiting ------------------------------------------------------------

  /** What a future yields; `None` is an exception. */
  type Answers = nat -> Option<CommandResponse>

  function FillOne(results: seq<CallResult>, inds: seq<nat>, i: nat, a: Option<CommandResponse>): seq<CallResult> {
    if a.None? then results
    else if i >= |inds| then results + [Populate(Slot("", "", map[]), a.value)]
    else if inds[i] < |results| then results[inds[i] := Populate(results[inds[i]], a.value)]
    else results
  }

  function FillToken(results: seq<CallResult>, futs: seq<nat>, inds: seq<nat>, n: nat, answers: Answers): seq<CallResult>
    requires n <= |futs|
  {
    if n == 0 then results
    else FillOne(FillToken(results, futs, inds, n - 1, answers), inds, n - 1, answers(futs[n - 1]))
  }

  function FillTokens(c: State, n: nat, answers: Answers): seq<CallResult>
    requires n <= |c.order|
  {
    if n == 0 then c.results
    else
      var t := c.order[n - 1];
      var futs := Get(c.futures, t);
      FillToken(FillTokens(c, n - 1, answers), futs, Get(c.indices, t), |futs|, answers)
  }

  function ClearAll(barriers: Table, order: seq<Token>): Table {
    if order == [] then barriers else Apply(ClearAll(barriers, order[..|order| - 1]), Clear(order[|order| - 1]))
  }

  /** Which workers the registry still has when a token is released. */
  type Lookup = Token -> set<Name>

  /** The instruments each token of a wait was released to, in the order of the sends. */
  type Sends = seq<seq<Name>>

  function SendsAt(sends: Sends, m: nat): seq<Name> {
    if m < |sends| then sends[m] else []
  }

  function SettleEvents(futs: seq<nat>): seq<Event> {
    if futs == [] then [] else SettleEvents(futs[..|futs| - 1]) + [Settled(futs[|futs| - 1])]
  }

  function ReleaseEvents(t: Token, names: seq<Name>): seq<Event> {
    if names == [] then [] else ReleaseEvents(t, names[..|names| - 1]) + [Released(names[|names| - 1], t)]
  }

  /** All futures of the token, then its releases, then the clearing. */
  function TokenEvents(c: State, t: Token, names: seq<Name>): seq<Event> {
    SettleEvents(Get(c.futures, t)) + ReleaseEvents(t, names) + [Cleared(t)]
  }

  function WaitEvents(c: State, n: nat, sends: Sends): seq<Event>
    requires n <= |c.order|
  {
    if n == 0 then []
    else WaitEvents(c, n - 1, sends) + TokenEvents(c, c.order[n - 1], SendsAt(sends, n - 1))
  }

  function Participants(c: State, t: Token, live: Lookup): set<Name> {
    if t in c.instruments then c.instruments[t] * live(t) else {}
  }

  /** `names` are the instruments of `t` that are still there, each once. */
  ghost predicate FoundFor(c: State, t: Token, live: Lookup, names: seq<Name>) {
    Distinct(names) && Members(names) == Participants(c, t, live)
  }

  ghost predicate FoundUpTo(c: State, n: nat, live: Lookup, sends: Sends)
    requires n <= |c.order|
  {
    forall m :: 0 <= m < n ==> FoundFor(c, c.order[m], live, SendsAt(sends, m))
  }

  /** Every token was released once to each of its instruments that is still there. */
  ghost predicate Found(c: State, live: Lookup, sends: Sends) {
    FoundUpTo(c, |c.order|, live, sends)
  }

  function Wait(c: State, answers: Answers, sends: Sends): State {
    c.(results := FillTokens(c, |c.order|, answers),
       barriers := ClearAll(c.barriers, c.order),
       log := c.log + WaitEvents(c, |c.order|, sends),
       order := [], instruments := map[], futures := map[], indices := map[])
  }

  /** One token of a wait. */
  function WaitOne(c: State, t: Token, answers: Answers, names: seq<Name>): State {
    var futs := Get(c.futures, t);
    c.(results := FillToken(c.results, futs, Get(c.indices, t), |futs|, answers),
       barriers := Apply(c.barriers, Clear(t)),
       log := c.log + TokenEvents(c, t, names))
  }

  lemma WaitOneLog(c: State, t: Token, names: seq<Name>)
    ensures c.log + SettleEvents(Get(c.futures, t)) + ReleaseEvents(t, names) + [Cleared(t)]
         == c.log + TokenEvents(c, t, names)
  {
    var settled, released := SettleEvents(Get(c.futures, t)), ReleaseEvents(t, names);
    Regroup(c.log, settled, released);
    Regroup(c.log, settled + released, [Cleared(t)]);
  }

  /** After the first `n` tokens of a wait. */
  function Midway(c: State, n: nat, answers: Answers, sends: Sends): State
    requires n <= |c.order|
  {
    c.(results := FillTokens(c, n, answers),
       barriers := ClearAll(c.barriers, c.order[..n]),
       log := c.log + WaitEvents(c, n, sends))
  }

  lemma {:induction false} WaitEventsFrame(c: State, n: nat, sends: Sends, names: seq<Name>)
    requires n <= |c.order| && n <= |sends|
    ensures WaitEvents(c, n, sends + [names]) == WaitEvents(c, n, sends)
  {
    if n > 0 {
      WaitEventsFrame(c, n - 1, sends, names);
      assert SendsAt(sends + [names], n - 1) == SendsAt(sends, n - 1);
    }
  }

  lemma EventsNext(c: State, n: nat, sends: Sends, names: seq<Name>)
    requires n < |c.order| && |sends| == n
    ensures c.log + WaitEvents(c, n + 1, sends + [names]) ==
            (c.log + WaitEvents(c, n, sends)) + TokenEvents(c, c.order[n], names)
  {
    WaitEventsFrame(c, n, sends, names);
    Regroup(c.log, WaitEvents(c, n, sends), TokenEvents(c, c.order[n], names));
  }

  lemma MidwayStart(c: State, answers: Answers)
    ensures Midway(c, 0, answers, []) == c
  {
    assert c.order[..0] == [] && c.log + [] == c.log;
  }

  /** Processing one more token in place is one more step of the specification. */
  lemma MidwayNext(c: State, n: nat, answers: Answers, sends: Sends, names: seq<Name>)
    requires n < |c.order| && |sends| == n
    ensures WaitOne(Midway(c, n, answers, sends), c.order[n], answers, names)
         == Midway(c, n + 1, answers, sends + [names])
  {
    ClearNext(c.barriers, c.order, n);
    EventsNext(c, n, sends, names);
  }

  lemma FoundNext(c: State, n: nat, live: Lookup, sends: Sends, names: seq<Name>)
    requires n < |c.order| && |sends| == n
    requires FoundUpTo(c, n, live, sends) && FoundFor(c, c.order[n], live, names)
    ensures FoundUpTo(c, n + 1, live, sends + [names])
  {
  }

  // ---- Runs ---------------------------------------------------------------

  datatype Op =
    | DoCall(call: Call, all: seq<Name>, live: set<Name>)
    | DoBlock(calls: seq<Call>, throws: bool, all: seq<Name>, hits: Hits)
    | DoWait(answers: Answers, lookup: Lookup, sends: Sends)

  function Step(c: State, op: Op): State {
    match op
    case DoCall(call, all, live) => Enqueue(c, call, all, live)
    case DoBlock(calls, throws, all, hits) => Block(c, calls, throws, all, hits)
    case DoWait(answers, _, sends) => Wait(c, answers, sends)
  }

  function Run(ops: seq<Op>): State {
    if ops == [] then Start else Step(Run(ops[..|ops| - 1]), ops[|ops| - 1])
  }

  /** The block dispatches something. */
  predicate Dispatches(op: Op) {
    op.DoBlock? && !op.throws && op.calls != []
  }

  /** What the block sends, if it starts in `c`. */
  function BlockCommands(c: State, op: Op): seq<SerializedCommand>
    requires op.DoBlock?
  {
    if Dispatches(op) then Batches(op.all, Commands(op.calls), c.next) else []
  }

  ghost predicate AllHit(hits: Hits, n: nat) {
    forall i :: 0 <= i < n ==> hits(i)
  }

  /** Every lookup of the block succeeds. */
  ghost predicate Stable(c: State, op: Op) {
    op.DoBlock? ==> AllHit(op.hits, |BlockCommands(c, op)|)
  }

  /** That holds of every block since the last wait. */
  ghost predicate StableSinceWait(ops: seq<Op>) {
    if ops == [] || ops[|ops| - 1].DoWait? then true
    else Stable(Run(ops[..|ops| - 1]), ops[|ops| - 1]) && StableSinceWait(ops[..|ops| - 1])
  }

  /** The sends of every wait are those its loop made. */
  ghost predicate AllFound(ops: seq<Op>) {
    if ops == [] then true
    else
      var front, op := ops[..|ops| - 1], ops[|ops| - 1];
      AllFound(front) && (op.DoWait? ==> Found(Run(front), op.lookup, op.sends))
  }

  // ---- Alignment ----------------------------------------------------------

  /** The lists of a per-token map concatenated in token order. */
  function Flat(order: seq<Token>, m: map<Token, seq<nat>>): seq<nat> {
    if order == [] then [] else Flat(order[..|order| - 1], m) + Get(m, order[|order| - 1])
  }

  /** `s` is `lo`, `lo + 1`, ... up to but not including `hi`. */
  ghost predicate Counts(s: seq<nat>, lo: nat, hi: nat) {
    lo + |s| == hi && forall i :: 0 <= i < |s| ==> s[i] == lo + i
  }

  ghost predicate TokensInv(c: State) {
    && Increasing(c.order)
    && (forall t :: t in c.order ==> t < c.next)
    && (forall t :: t in c.futures || t in c.indices || t in c.barriers ==> t in c.order)
  }

  /** Token by token there are as many futures as slots. */
  ghost predicate Paired(c: State) {
    forall t :: t in c.order ==> |Get(c.futures, t)| == |Get(c.indices, t)|
  }

  /**
   * The slots taken since the last wait are `base..`, in token order, and slot
   * `base + p` was made for the command of the `p`-th future.
   */
  ghost predicate Aligned(c: State, base: nat) {
    var fs := Flat(c.order, c.futures);
    && base <= |c.results|
    && TokensInv(c) && Paired(c)
    && Counts(Flat(c.order, c.indices), base, |c.results|)
    && base + |fs| == |c.results|
    && SlotsMatch(c.results, base, c.sent, fs)
  }

  ghost predicate SlotsMatch(results: seq<CallResult>, base: nat, sent: seq<SerializedCommand>, fs: seq<nat>) {
    && base + |fs| <= |results|
    && forall p :: 0 <= p < |fs| ==> fs[p] < |sent| && Matches(results[base + p], sent[fs[p]])
  }

  lemma {:induction false} FlatFrame(order: seq<Token>, m: map<Token, seq<nat>>, t: Token, x: nat)
    requires t !in order
    ensures Flat(order, Push(m, t, x)) == Flat(order, m)
  {
    if order != [] {
      FlatFrame(order[..|order| - 1], m, t, x);
    }
  }

  lemma FlatPush(order: seq<Token>, m: map<Token, seq<nat>>, x: nat)
    requires order != [] && Increasing(order)
    ensures Flat(order, Push(m, order[|order| - 1], x)) == Flat(order, m) + [x]
  {
    FlatFrame(order[..|order| - 1], m, order[|order| - 1], x);
  }

  lemma OpenTokens(c: State, all: seq<Name>)
    requires TokensInv(c)
    ensures TokensInv(OpenToken(c, all)) && c.next !in c.order
    ensures c.next !in c.futures && c.next !in c.indices
  {
    var c' := OpenToken(c, all);
    forall i, j | 0 <= i < j < |c'.order| ensures c'.order[i] < c'.order[j] {
      assert c'.order[i] in c.order;
    }
    assert c'.barriers.Keys == c.barriers.Keys + {c.next};
  }

  lemma OpenKeeps(c: State, base: nat, all: seq<Name>)
    requires Aligned(c, base)
    ensures Aligned(OpenToken(c, all), base)
  {
    OpenTokens(c, all);
    var c' := OpenToken(c, all);
    assert c'.order[..|c.order|] == c.order;
    assert Flat(c'.order, c'.indices) == Flat(c.order, c.indices) + Get(c.indices, c.next) == Flat(c.order, c.indices);
    assert Flat(c'.order, c'.futures) == Flat(c.order, c.futures) + Get(c.futures, c.next) == Flat(c.order, c.futures);
    forall t | t in c'.order ensures |Get(c'.futures, t)| == |Get(c'.indices, t)| {
      assert t in c.order || t == c.next;
    }
  }

  lemma SlotsMatchPush(results: seq<CallResult>, base: nat, sent: seq<SerializedCommand>, fs: seq<nat>,
                       slot: CallResult, cmd: SerializedCommand)
    requires SlotsMatch(results, base, sent, fs) && base + |fs| == |results| && Matches(slot, cmd)
    ensures SlotsMatch(results + [slot], base, sent + [cmd], fs + [|sent|])
  {
    var results', sent', fs' := results + [slot], sent + [cmd], fs + [|sent|];
    forall p | 0 <= p < |fs'|
      ensures fs'[p] < |sent'| && Matches(results'[base + p], sent'[fs'[p]])
    {
      if p < |fs| {
        assert fs'[p] == fs[p] && results'[base + p] == results[base + p];
      }
    }
  }

  lemma SendKeeps(c: State, base: nat, t: Token, slot: CallResult, cmd: SerializedCommand, at: nat)
    requires Aligned(c, base) && c.order != [] && t == c.order[|c.order| - 1]
    requires Matches(slot, cmd)
    ensures Aligned(Launch(Place(c, t, slot), t, cmd, at), base)
  {
    FlatPush(c.order, c.indices, |c.results|);
    FlatPush(c.order, c.futures, |c.sent|);
    SlotsMatchPush(c.results, base, c.sent, Flat(c.order, c.futures), slot, cmd);
    SendTokens(c, t, slot, cmd, at);
    CountsPush(Flat(c.order, c.indices), base, |c.results|);
  }

  lemma CountsPush(s: seq<nat>, lo: nat, hi: nat)
    requires Counts(s, lo, hi)
    ensures Counts(s + [hi], lo, hi + 1)
  {
  }

  lemma SendTokens(c: State, t: Token, slot: CallResult, cmd: SerializedCommand, at: nat)
    requires TokensInv(c) && Paired(c) && t in c.order
    ensures TokensInv(Launch(Place(c, t, slot), t, cmd, at)) && Paired(Launch(Place(c, t, slot), t, cmd, at))
  {
  }

  lemma ShownNames(cmd: SerializedCommand)
    ensures Matches(Slot(Shown(cmd), cmd.verb, cmd.params), cmd)
  {
  }

  lemma {:induction false} SendAllKeeps(c: State, base: nat, t: Token, cmds: seq<SerializedCommand>, hits: Hits)
    requires Aligned(c, base) && c.order != [] && t == c.order[|c.order| - 1] && AllHit(hits, |cmds|)
    ensures Aligned(SendAll(c, t, cmds, hits), base) && SendAll(c, t, cmds, hits).order == c.order
  {
    if cmds != [] {
      var front, last := cmds[..|cmds| - 1], cmds[|cmds| - 1];
      SendAllKeeps(c, base, t, front, hits);
      var before := SendAll(c, t, front, hits);
      ShownNames(last);
      SendKeeps(before, base, t, Slot(Shown(last), last.verb, last.params), last, |before.results|);
    }
  }

  // ---- Waiting puts every answer into its own slot ------------------------

  /** The answers of `fs` put into consecutive slots from `base`. */
  function FillFlat(results: seq<CallResult>, base: nat, fs: seq<nat>, answers: Answers): (r: seq<CallResult>)
    requires base + |fs| <= |results|
    ensures |r| == |results|
  {
    if fs == [] then results
    else
      var r := FillFlat(results, base, fs[..|fs| - 1], answers);
      var p := base + |fs| - 1;
      r[p := Answered(r[p], answers(fs[|fs| - 1]))]
  }

  function Answered(slot: CallResult, a: Option<CommandResponse>): CallResult {
    if a.None? then slot else Populate(slot, a.value)
  }

  /** The slot shows the answer; an exception leaves it as it was. */
  ghost predicate Got(made: CallResult, slot: CallResult, a: Option<CommandResponse>) {
    if a.None? then slot == made else Shows(made, slot, a.value)
  }

  lemma AnsweredGot(made: CallResult, a: Option<CommandResponse>)
    ensures Got(made, Answered(made, a), a)
  {
    if a.Some? { PopulateShows(made, a.value); }
  }

  lemma FillFlatStep(results: seq<CallResult>, base: nat, fs: seq<nat>, answers: Answers, p: nat)
    requires fs != [] && base + |fs| <= |results| && p < |results|
    ensures
      var r := FillFlat(results, base, fs[..|fs| - 1], answers);
      FillFlat(results, base, fs, answers)[p] ==
        if p == base + |fs| - 1 then Answered(r[p], answers(fs[|fs| - 1])) else r[p]
  {
  }

  lemma {:induction false} FillFlatAt(results: seq<CallResult>, base: nat, fs: seq<nat>, answers: Answers, p: nat)
    requires base + |fs| <= |results| && p < |results|
    ensures FillFlat(results, base, fs, answers)[p] ==
            if base <= p < base + |fs| then Answered(results[p], answers(fs[p - base])) else results[p]
  {
    if fs != [] {
      FillFlatStep(results, base, fs, answers, p);
      FillFlatAt(results, base, fs[..|fs| - 1], answers, p);
    }
  }

  lemma {:induction false} FillTokenIsFlat(results: seq<CallResult>, base: nat, before: seq<nat>,
                                           futs: seq<nat>, inds: seq<nat>, n: nat, answers: Answers)
    requires n <= |futs| == |inds| && base + |before| + |futs| <= |results|
    requires From(inds, base + |before|)
    ensures FillToken(FillFlat(results, base, before, answers), futs, inds, n, answers)
         == FillFlat(results, base, before + futs[..n], answers)
  {
    if n == 0 {
      assert before + futs[..0] == before;
    } else {
      FillTokenIsFlat(results, base, before, futs, inds, n - 1, answers);
      var fs := before + futs[..n];
      assert fs[..|fs| - 1] == before + futs[..n - 1] && fs[|fs| - 1] == futs[n - 1];
    }
  }

  lemma {:induction false} FlatPrefix(order: seq<Token>, n: nat, m: map<Token, seq<nat>>)
    requires n <= |order|
    ensures Flat(order[..n], m) <= Flat(order, m)
  {
    if n < |order| {
      assert order[..|order| - 1][..n] == order[..n];
      FlatPrefix(order[..|order| - 1], n, m);
    } else {
      assert order[..n] == order;
    }
  }

  lemma {:induction false} PairedLengths(c: State, n: nat)
    requires Paired(c) && n <= |c.order|
    ensures |Flat(c.order[..n], c.futures)| == |Flat(c.order[..n], c.indices)|
  {
    if n > 0 {
      PairedLengths(c, n - 1);
      assert c.order[..n][..n - 1] == c.order[..n - 1];
    }
  }

  /** The indices of the `n`-th token continue where the tokens before it stop. */
  lemma IndicesOf(order: seq<Token>, m: map<Token, seq<nat>>, lo: nat, hi: nat, n: nat, i: nat)
    requires Counts(Flat(order, m), lo, hi) && 0 < n <= |order| && i < |Get(m, order[n - 1])|
    ensures Get(m, order[n - 1])[i] == lo + |Flat(order[..n - 1], m)| + i
  {
    var upTo := order[..n];
    assert upTo[..n - 1] == order[..n - 1];
    FlatPrefix(order, n, m);
    var at := |Flat(order[..n - 1], m)| + i;
    assert Flat(upTo, m)[at] == Get(m, order[n - 1])[i];
    assert Flat(order, m)[at] == lo + at;
  }

  /** `inds` is `lo`, `lo + 1`, ... */
  ghost predicate From(inds: seq<nat>, lo: nat) {
    forall i :: 0 <= i < |inds| ==> inds[i] == lo + i
  }

  lemma IndicesContinue(c: State, base: nat, n: nat)
    requires Paired(c) && Counts(Flat(c.order, c.indices), base, |c.results|) && 0 < n <= |c.order|
    ensures From(Get(c.indices, c.order[n - 1]), base + |Flat(c.order[..n - 1], c.futures)|)
  {
    PairedLengths(c, n - 1);
    var inds := Get(c.indices, c.order[n - 1]);
    forall i | 0 <= i < |inds| ensures inds[i] == base + |Flat(c.order[..n - 1], c.futures)| + i {
      IndicesOf(c.order, c.indices, base, |c.results|, n, i);
    }
  }

  lemma FlatNext(order: seq<Token>, n: nat, m: map<Token, seq<nat>>)
    requires 0 < n <= |order|
    ensures Flat(order[..n], m) == Flat(order[..n - 1], m) + Get(m, order[n - 1])
  {
    assert order[..n][..n - 1] == order[..n - 1];
  }

  lemma {:induction false} FillTokensIsFlat(c: State, base: nat, n: nat, answers: Answers)
    requires Paired(c) && Counts(Flat(c.order, c.indices), base, |c.results|)
    requires base + |Flat(c.order, c.futures)| == |c.results| && n <= |c.order|
    ensures base + |Flat(c.order[..n], c.futures)| <= |c.results|
    ensures FillTokens(c, n, answers) == FillFlat(c.results, base, Flat(c.order[..n], c.futures), answers)
  {
    FlatPrefix(c.order, n, c.futures);
    if n > 0 {
      var t := c.order[n - 1];
      FillTokensIsFlat(c, base, n - 1, answers);
      var before, futs, inds := Flat(c.order[..n - 1], c.futures), Get(c.futures, t), Get(c.indices, t);
      FlatNext(c.order, n, c.futures);
      IndicesContinue(c, base, n);
      assert |futs| == |inds|;
      FillTokenIsFlat(c.results, base, before, futs, inds, |futs|, answers);
      assert futs[..|futs|] == futs;
    }
  }

  /** The slots from `base` hold the answers of the futures `fs`; the rest are as before. */
  ghost predicate SlotsAnswered(was: seq<CallResult>, now: seq<CallResult>, base: nat, fs: seq<nat>, answers: Answers) {
    && |now| == |was| == base + |fs|
    && (forall p :: 0 <= p < base ==> now[p] == was[p])
    && (forall p :: 0 <= p < |fs| ==> Got(was[base + p], now[base + p], answers(fs[p])))
  }

  /** An answer leaves what the slot was made for as it was. */
  lemma GotMatches(made: CallResult, slot: CallResult, a: Option<CommandResponse>, cmd: SerializedCommand)
    requires Got(made, slot, a) && Matches(made, cmd)
    ensures Matches(slot, cmd)
  {
  }

  lemma StillMatch(was: seq<CallResult>, now: seq<CallResult>, base: nat, sent: seq<SerializedCommand>,
                   fs: seq<nat>, answers: Answers)
    requires SlotsAnswered(was, now, base, fs, answers) && SlotsMatch(was, base, sent, fs)
    ensures SlotsMatch(now, base, sent, fs)
  {
    forall p | 0 <= p < |fs| ensures fs[p] < |sent| && Matches(now[base + p], sent[fs[p]]) {
      GotMatches(was[base + p], now[base + p], answers(fs[p]), sent[fs[p]]);
    }
  }

  lemma WaitAnswers(c: State, base: nat, answers: Answers, sends: Sends)
    requires Aligned(c, base)
    ensures SlotsAnswered(c.results, Wait(c, answers, sends).results, base, Flat(c.order, c.futures), answers)
  {
    FillTokensIsFlat(c, base, |c.order|, answers);
    assert c.order[..|c.order|] == c.order;
    var fs := Flat(c.order, c.futures);
    forall p | 0 <= p < |c.results|
      ensures FillFlat(c.results, base, fs, answers)[p] ==
              if base <= p then Answered(c.results[p], answers(fs[p - base])) else c.results[p]
    {
      FillFlatAt(c.results, base, fs, answers, p);
    }
    forall p | 0 <= p < |fs|
      ensures Got(c.results[base + p], FillFlat(c.results, base, fs, answers)[base + p], answers(fs[p]))
    {
      AnsweredGot(c.results[base + p], answers(fs[p]));
    }
  }

  /** Every slot from `base` on holds the answer to the command it was made for. */
  ghost predicate OwnSlots(c: State, base: nat, done: seq<CallResult>, answers: Answers) {
    var fs := Flat(c.order, c.futures);
    SlotsAnswered(c.results, done, base, fs, answers) && SlotsMatch(done, base, c.sent, fs)
  }

  lemma AlignedFills(c: State, base: nat, answers: Answers, sends: Sends)
    requires Aligned(c, base)
    ensures OwnSlots(c, base, Wait(c, answers, sends).results, answers)
  {
    WaitAnswers(c, base, answers, sends);
    StillMatch(c.results, Wait(c, answers, sends).results, base, c.sent, Flat(c.order, c.futures), answers);
  }

  /**
   * After waiting, every slot taken since the last wait holds the answer to the
   * command it was made for, and earlier slots are untouched.
   */
  lemma WaitFillsOwnSlots(ops: seq<Op>, wait: Op)
    requires StableSinceWait(ops) && wait.DoWait?
    ensures OwnSlots(Run(ops), Base(ops), Run(ops + [wait]).results, wait.answers)
  {
    RunAppend(ops, wait);
    ResultAlignment(ops);
    AlignedFills(Run(ops), Base(ops), wait.answers, wait.sends);
  }

  // ---- Every run ----------------------------------------------------------

  lemma {:induction false} ClearedTokens(barriers: Table, order: seq<Token>)
    ensures ClearAll(barriers, order).Keys == barriers.Keys - Tokens(order)
  {
    if order != [] {
      ClearedTokens(barriers, order[..|order| - 1]);
      assert order == order[..|order| - 1] + [order[|order| - 1]];
    }
  }

  ghost function Tokens(order: seq<Token>): set<Token> {
    set t | t in order
  }

  lemma ClearNext(barriers: Table, order: seq<Token>, n: nat)
    requires n < |order|
    ensures ClearAll(barriers, order[..n + 1]) == Apply(ClearAll(barriers, order[..n]), Clear(order[n]))
  {
    assert order[..n + 1][..n] == order[..n];
  }

  /** The slot from which the current indices count. */
  function Base(ops: seq<Op>): nat {
    if ops == [] then 0
    else if ops[|ops| - 1].DoWait? then |Run(ops).results|
    else Base(ops[..|ops| - 1])
  }

  lemma EnqueueKeeps(c: State, base: nat, call: Call, all: seq<Name>, live: set<Name>)
    requires Aligned(c, base)
    ensures Aligned(Enqueue(c, call, all, live), base)
  {
    var cmd := CommandFor(call);
    if cmd.instrument in live {
      OpenKeeps(c, base, all);
      SpecNames(call.spec);
      SendKeeps(OpenToken(c, all), base, c.next, Slot(call.spec, call.verb, call.params),
                cmd.(syncToken := Some(c.next), isSyncBarrier := true), |c.results|);
    }
  }

  lemma BlockKeeps(c: State, base: nat, op: Op)
    requires Aligned(c, base) && op.DoBlock? && Stable(c, op)
    ensures Aligned(Step(c, op), base)
  {
    if Dispatches(op) {
      OpenKeeps(c, base, op.all);
      SendAllKeeps(OpenToken(c, op.all), base, c.next, BlockCommands(c, op), op.hits);
    }
  }

  /**
   * Over any sequence of calls, blocks and waits the index lists in token
   * order are exactly the slots taken since the last wait, each token has as
   * many futures as indices, and each slot was made for its future's command,
   * if every lookup of the blocks since that wait succeeded.
   */
  lemma {:induction false} ResultAlignment(ops: seq<Op>)
    requires StableSinceWait(ops)
    ensures Aligned(Run(ops), Base(ops))
  {
    if ops != [] {
      var front, op := ops[..|ops| - 1], ops[|ops| - 1];
      if op.DoWait? {
        TokensAlways(ops);
      } else {
        ResultAlignment(front);
        AlignedStep(Run(front), Base(front), op);
      }
    }
  }

  lemma AlignedStep(c: State, base: nat, op: Op)
    requires Aligned(c, base) && !op.DoWait? && Stable(c, op)
    ensures Aligned(Step(c, op), base)
  {
    if op.DoCall? {
      EnqueueKeeps(c, base, op.call, op.all, op.live);
    } else {
      BlockKeeps(c, base, op);
    }
  }

  lemma {:induction false} SendAllTokens(c: State, t: Token, cmds: seq<SerializedCommand>, hits: Hits)
    requires TokensInv(c) && t in c.order
    ensures TokensInv(SendAll(c, t, cmds, hits)) && SendAll(c, t, cmds, hits).order == c.order
  {
    if cmds != [] {
      SendAllTokens(c, t, cmds[..|cmds| - 1], hits);
    }
  }

  /** Tokens increase and every entry and barrier belongs to one of them, in every run. */
  lemma {:induction false} TokensAlways(ops: seq<Op>)
    ensures TokensInv(Run(ops))
  {
    if ops != [] {
      TokensAlways(ops[..|ops| - 1]);
      var c, op := Run(ops[..|ops| - 1]), ops[|ops| - 1];
      match op
      case DoCall(call, all, live) => OpenTokens(c, all);
      case DoBlock(calls, _, all, hits) =>
        OpenTokens(c, all);
        SendAllTokens(OpenToken(c, all), c.next, Batches(all, Commands(calls), c.next), hits);
      case DoWait(_, _, _) => ClearedTokens(c.barriers, c.order);
    }
  }

  lemma RunAppend(ops: seq<Op>, op: Op)
    ensures Run(ops + [op]) == Step(Run(ops), op)
  {
    assert (ops + [op])[..|ops|] == ops;
  }

  /** After a wait nothing of the context's tokens is left, barriers included. */
  lemma WaitLeavesNothing(ops: seq<Op>, wait: Op)
    requires wait.DoWait?
    ensures
      var c := Run(ops + [wait]);
      c.barriers == map[] && c.order == [] && c.futures == map[] && c.indices == map[]
  {
    RunAppend(ops, wait);
    TokensAlways(ops);
    ClearedTokens(Run(ops).barriers, Run(ops).order);
    assert Run(ops + [wait]).barriers.Keys == {};
  }
}
