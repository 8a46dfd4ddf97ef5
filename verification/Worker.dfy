/**
 * The worker process: one message at a time it executes, answers,
 * acknowledges and possibly waits for SYNC_CONTINUE.  The barrier mark of a
 * decoded command is left free here; `Codec` says what actually arrives.
 */
module Worker {
  import opened Options
  import opened Codec
  import opened Protocol
  import opened Sequences

  const BARRIER_NOP := "__BARRIER_NOP__"

  /** A message from the server; `cmd` is `None` when the payload does not decode. */
  datatype Inbound =
    | Command(id: nat, cmd: Option<SerializedCommand>)
    | SyncContinue(token: Token)
    | Shutdown
    | Unexpected

  datatype Outbound =
    | Response(id: nat, resp: CommandResponse)
    | SyncAck(id: nat, token: Token)

  datatype Execution = Execution(id: nat, cmd: SerializedCommand, resp: CommandResponse)

  /** The plugin: any function of the executions so far and the command. */
  type Plugin = (seq<Execution>, SerializedCommand) -> CommandResponse

  /** `waiting` is `waiting_sync_token_`; `running` is `g_running`. */
  datatype State = State(running: bool, waiting: Option<Token>, done: seq<Execution>, out: seq<Outbound>)

  const Start := State(true, None, [], [])

  function CString(s: string): string {
    if |s| < PLUGIN_MAX_STRING_LEN then s else s[..PLUGIN_MAX_STRING_LEN - 1]
  }

  /** The synthetic answer to a barrier NOP, which never reaches the plugin. */
  function NopResponse(cmd: SerializedCommand): CommandResponse {
    CommandResponse(CString(cmd.id), CString(cmd.instrument), true, 0, "", "BARRIER_NOP", None, false, "", 0, "")
  }

  function Perform(plugin: Plugin, done: seq<Execution>, id: nat, cmd: SerializedCommand): Execution {
    Execution(id, cmd, if cmd.verb == BARRIER_NOP then NopResponse(cmd) else plugin(done, cmd))
  }

  /** The messages one execution gives rise to, in order. */
  function Messages(e: Execution): seq<Outbound> {
    [Response(e.id, e.resp)] + if e.cmd.syncToken.Some? then [SyncAck(e.id, e.cmd.syncToken.value)] else []
  }

  predicate Takes(w: State, m: Inbound) {
    w.running && w.waiting.None? && m.Command? && m.cmd.Some?
  }

  /** An undecodable payload throws out of the main loop and ends the process. */
  predicate Breaks(w: State, m: Inbound) {
    w.running && w.waiting.None? && m.Command? && m.cmd.None?
  }

  function Marked(cmd: SerializedCommand): Option<Token> {
    if cmd.isSyncBarrier then cmd.syncToken else None
  }

  function HandleCommand(plugin: Plugin, w: State, id: nat, cmd: SerializedCommand): State {
    var e := Perform(plugin, w.done, id, cmd);
    State(w.running, Marked(cmd), w.done + [e], w.out + Messages(e))
  }

  function Step(plugin: Plugin, w: State, m: Inbound): State {
    if !w.running then w
    else match m
      case Shutdown => w.(running := false)
      case SyncContinue(t) => if w.waiting == Some(t) then w.(waiting := None) else w
      case Command(id, cmd) =>
        if w.waiting.Some? then w
        else if cmd.None? then w.(running := false)
        else HandleCommand(plugin, w, id, cmd.value)
      case Unexpected => w
  }

  function Run(plugin: Plugin, ms: seq<Inbound>): State {
    if ms == [] then Start else Step(plugin, Run(plugin, ms[..|ms| - 1]), ms[|ms| - 1])
  }

  // ---- The gate -----------------------------------------------------------

  /** Message `j` is executed. */
  predicate Executes(plugin: Plugin, ms: seq<Inbound>, j: int) {
    0 <= j < |ms| && Takes(Run(plugin, ms[..j]), ms[j])
  }

  /** Message `i` is an executed barrier-marked command of `t`, not yet released at `j`. */
  ghost predicate Holds(plugin: Plugin, ms: seq<Inbound>, i: int, j: int, t: Token) {
    && 0 <= i < j <= |ms|
    && Executes(plugin, ms, i) && Marked(ms[i].cmd.value) == Some(t)
    && forall k :: i < k < j ==> ms[k] != SyncContinue(t)
  }

  ghost predicate Blocked(plugin: Plugin, ms: seq<Inbound>, j: int, t: Token) {
    exists i :: Holds(plugin, ms, i, j, t)
  }

  lemma HoldsStep(plugin: Plugin, ms: seq<Inbound>, i: int, t: Token)
    requires ms != []
    ensures
      var n := |ms|;
      Holds(plugin, ms, i, n, t) <==>
        if i == n - 1 then Executes(plugin, ms, i) && Marked(ms[i].cmd.value) == Some(t)
        else Holds(plugin, ms[..n - 1], i, n - 1, t) && ms[n - 1] != SyncContinue(t)
  {
    var n := |ms|;
    var front := ms[..n - 1];
    if 0 <= i < n - 1 {
      assert front[..i] == ms[..i];
      assert forall k :: 0 <= k < n - 1 ==> front[k] == ms[k];
    }
  }

  /** While the worker runs, it waits for `t` exactly when some barrier of `t` holds it. */
  lemma {:induction false} WaitingMeaning(plugin: Plugin, ms: seq<Inbound>, t: Token)
    ensures Run(plugin, ms).running ==>
            (Run(plugin, ms).waiting == Some(t) <==> Blocked(plugin, ms, |ms|, t))
  {
    if ms != [] && Run(plugin, ms).running {
      var n := |ms|;
      var front, last := ms[..n - 1], ms[n - 1];
      var w := Run(plugin, front);
      WaitingMeaning(plugin, front, t);
      if Blocked(plugin, ms, n, t) {
        var i :| Holds(plugin, ms, i, n, t);
        HoldsStep(plugin, ms, i, t);
        if i < n - 1 {
          assert Holds(plugin, front, i, n - 1, t);
        }
      }
      if Run(plugin, ms).waiting == Some(t) {
        if Takes(w, last) {
          HoldsStep(plugin, ms, n - 1, t);
          assert Holds(plugin, ms, n - 1, n, t);
        } else {
          var i :| Holds(plugin, front, i, n - 1, t);
          HoldsStep(plugin, ms, i, t);
          assert Holds(plugin, ms, i, n, t);
        }
      }
    }
  }

  /** No command is executed between a barrier of `t` and SYNC_CONTINUE for `t`. */
  lemma Gate(plugin: Plugin, ms: seq<Inbound>, i: int, j: int, t: Token)
    requires 0 <= i < j < |ms|
    requires Executes(plugin, ms, i) && Marked(ms[i].cmd.value) == Some(t)
    requires forall k :: i < k < j ==> ms[k] != SyncContinue(t)
    ensures !Executes(plugin, ms, j)
  {
    var past := ms[..j];
    assert past[..i] == ms[..i];
    assert Holds(plugin, past, i, j, t);
    WaitingMeaning(plugin, past, t);
  }

  /** What ends the main loop at message `i`. */
  ghost predicate Stops(plugin: Plugin, ms: seq<Inbound>, i: int) {
    && 0 <= i < |ms|
    && (ms[i].Shutdown?
        || (ms[i].Command? && ms[i].cmd.None? && forall t: Token :: !Blocked(plugin, ms[..i], i, t)))
  }

  lemma {:induction false} RunningMeaning(plugin: Plugin, ms: seq<Inbound>)
    ensures Run(plugin, ms).running <==> forall i :: 0 <= i < |ms| ==> !Stops(plugin, ms, i)
  {
    if ms != [] {
      var n := |ms|;
      var front, last := ms[..n - 1], ms[n - 1];
      var w := Run(plugin, front);
      RunningMeaning(plugin, front);
      forall i | 0 <= i < n - 1
        ensures Stops(plugin, ms, i) <==> Stops(plugin, front, i)
      {
        assert front[..i] == ms[..i] && front[i] == ms[i];
      }
      if w.running {
        forall t: Token ensures w.waiting == Some(t) <==> Blocked(plugin, front, n - 1, t) {
          WaitingMeaning(plugin, front, t);
        }
        if w.waiting.Some? {
          assert Blocked(plugin, front, n - 1, w.waiting.value);
        }
        assert Stops(plugin, ms, n - 1) <==> last.Shutdown? || Breaks(w, last);
      } else {
        var i :| 0 <= i < n - 1 && Stops(plugin, front, i);
        assert Stops(plugin, ms, i);
      }
    }
  }

  /** Exactly the commands met while running and unblocked are executed. */
  lemma ExecutedExactly(plugin: Plugin, ms: seq<Inbound>, j: nat)
    requires j < |ms|
    ensures Executes(plugin, ms, j) <==>
            && ms[j].Command? && ms[j].cmd.Some?
            && (forall i :: 0 <= i < j ==> !Stops(plugin, ms[..j], i))
            && (forall t: Token :: !Blocked(plugin, ms[..j], j, t))
  {
    RunningMeaning(plugin, ms[..j]);
    var w := Run(plugin, ms[..j]);
    forall t: Token ensures w.running ==> (w.waiting == Some(t) <==> Blocked(plugin, ms[..j], j, t)) {
      WaitingMeaning(plugin, ms[..j], t);
    }
    if w.running && w.waiting.Some? {
      assert Blocked(plugin, ms[..j], j, w.waiting.value);
    }
  }

  // ---- What is emitted ----------------------------------------------------

  /** The executed positions in order. */
  function Picked(plugin: Plugin, ms: seq<Inbound>): seq<nat> {
    if ms == [] then []
    else
      var front := ms[..|ms| - 1];
      if Takes(Run(plugin, front), ms[|ms| - 1]) then Picked(plugin, front) + [|ms| - 1] else Picked(plugin, front)
  }

  /** What the worker sends for message `m`, answered with `resp`: the response, then the acknowledgement if it has a token. */
  ghost predicate Replies(m: Inbound, resp: CommandResponse, seg: seq<Outbound>) {
    && m.Command? && m.cmd.Some?
    && |seg| == (if m.cmd.value.syncToken.Some? then 2 else 1)
    && seg[0] == Response(m.id, resp)
    && (m.cmd.value.syncToken.Some? ==> seg[1] == SyncAck(m.id, m.cmd.value.syncToken.value))
  }

  /** `cuts` splits the output into one segment per executed message, in order. */
  ghost predicate Splits(ms: seq<Inbound>, picked: seq<nat>, done: seq<Execution>, out: seq<Outbound>, cuts: seq<nat>) {
    && |picked| == |done| && |cuts| == |picked| + 1
    && cuts[0] == 0 && cuts[|picked|] == |out|
    && forall k :: 0 <= k < |picked| ==> Segment(ms, picked, done, out, cuts, k)
  }

  ghost predicate Segment(ms: seq<Inbound>, picked: seq<nat>, done: seq<Execution>, out: seq<Outbound>, cuts: seq<nat>, k: nat)
    requires k < |picked| == |done| && |cuts| == |picked| + 1
  {
    && picked[k] < |ms| && cuts[k] <= cuts[k + 1] <= |out|
    && Replies(ms[picked[k]], done[k].resp, out[cuts[k]..cuts[k + 1]])
  }

  lemma SplitsMore(ms: seq<Inbound>, m: Inbound, picked: seq<nat>, done: seq<Execution>, out: seq<Outbound>, cuts: seq<nat>)
    requires Splits(ms, picked, done, out, cuts)
    ensures Splits(ms + [m], picked, done, out, cuts)
  {
    forall k | 0 <= k < |picked| ensures Segment(ms + [m], picked, done, out, cuts, k) {
      assert Segment(ms, picked, done, out, cuts, k);
    }
  }

  lemma SplitsAppend(ms: seq<Inbound>, m: Inbound, picked: seq<nat>, done: seq<Execution>, out: seq<Outbound>,
                     cuts: seq<nat>, e: Execution, seg: seq<Outbound>)
    requires Splits(ms, picked, done, out, cuts) && Replies(m, e.resp, seg)
    ensures Splits(ms + [m], picked + [|ms|], done + [e], out + seg, cuts + [|out + seg|])
  {
    var ms', picked', done', out', cuts' := ms + [m], picked + [|ms|], done + [e], out + seg, cuts + [|out + seg|];
    forall k | 0 <= k < |picked'| ensures Segment(ms', picked', done', out', cuts', k) {
      if k < |picked| {
        assert Segment(ms, picked, done, out, cuts, k);
        assert out'[cuts'[k]..cuts'[k + 1]] == out[cuts[k]..cuts[k + 1]];
      } else {
        assert out'[cuts'[k]..cuts'[k + 1]] == seg;
      }
    }
  }

  lemma MessagesReply(id: nat, cmd: SerializedCommand, resp: CommandResponse)
    ensures Replies(Command(id, Some(cmd)), resp, Messages(Execution(id, cmd, resp)))
  {
  }

  /**
   * The output is, in order and per executed command, one response with the
   * command's id, then one acknowledgement exactly when it has a token.
   */
  lemma {:induction false} OutputExactly(plugin: Plugin, ms: seq<Inbound>) returns (cuts: seq<nat>)
    ensures Splits(ms, Picked(plugin, ms), Run(plugin, ms).done, Run(plugin, ms).out, cuts)
  {
    if ms == [] {
      cuts := [0];
    } else {
      var front, last := ms[..|ms| - 1], ms[|ms| - 1];
      var w, picked := Run(plugin, front), Picked(plugin, front);
      cuts := OutputExactly(plugin, front);
      FrontAndLast(ms);
      if Takes(w, last) {
        var e := Perform(plugin, w.done, last.id, last.cmd.value);
        MessagesReply(last.id, last.cmd.value, e.resp);
        SplitsAppend(front, last, picked, w.done, w.out, cuts, e, Messages(e));
        cuts := cuts + [|w.out + Messages(e)|];
      } else {
        SplitsMore(front, last, picked, w.done, w.out, cuts);
      }
    }
  }

  /** The synthetic answer: success, no value, no error. */
  predicate NopAnswer(cmd: SerializedCommand, resp: CommandResponse) {
    && resp.success && resp.errorCode == 0 && resp.errorMessage == "" && resp.returnValue.None? && !resp.hasLargeData
    && resp.textResponse == "BARRIER_NOP" && resp.commandId <= cmd.id && resp.instrument <= cmd.instrument
    && (|cmd.id| < PLUGIN_MAX_STRING_LEN ==> resp.commandId == cmd.id)
    && (|cmd.instrument| < PLUGIN_MAX_STRING_LEN ==> resp.instrument == cmd.instrument)
  }

  /**
   * Execution `k` is of the message at `at`; a barrier NOP never reaches the
   * plugin, every other command is answered by the plugin.
   */
  ghost predicate Performed(plugin: Plugin, ms: seq<Inbound>, done: seq<Execution>, at: nat, k: nat) {
    && at < |ms| && ms[at].Command? && ms[at].cmd.Some? && k < |done|
    && done[k].id == ms[at].id && done[k].cmd == ms[at].cmd.value
    && if done[k].cmd.verb == "__BARRIER_NOP__" then NopAnswer(done[k].cmd, done[k].resp)
       else done[k].resp == plugin(done[..k], done[k].cmd)
  }

  lemma PerformMeaning(plugin: Plugin, done: seq<Execution>, id: nat, cmd: SerializedCommand)
    ensures
      var e := Perform(plugin, done, id, cmd);
      && e.id == id && e.cmd == cmd
      && if cmd.verb == "__BARRIER_NOP__" then NopAnswer(cmd, e.resp) else e.resp == plugin(done, cmd)
  {
  }

  lemma {:induction false} ExecutionsArePicked(plugin: Plugin, ms: seq<Inbound>)
    ensures
      var done, picked := Run(plugin, ms).done, Picked(plugin, ms);
      && |done| == |picked|
      && forall k :: 0 <= k < |picked| ==> Performed(plugin, ms, done, picked[k], k)
  {
    if ms != [] {
      var front, last := ms[..|ms| - 1], ms[|ms| - 1];
      ExecutionsArePicked(plugin, front);
      var done, picked := Run(plugin, front).done, Picked(plugin, front);
      var done' := Run(plugin, ms).done;
      forall k | 0 <= k < |picked|
        ensures Performed(plugin, ms, done', picked[k], k)
      {
        assert Performed(plugin, front, done, picked[k], k);
        assert done'[..k] == done[..k] && ms[picked[k]] == front[picked[k]];
      }
      if Takes(Run(plugin, front), last) {
        assert done'[..|done|] == done;
        PerformMeaning(plugin, done, last.id, last.cmd.value);
      }
    }
  }

  /** `Picked` lists every executed position once, in increasing order. */
  lemma {:induction false} PickedExactly(plugin: Plugin, ms: seq<Inbound>)
    ensures forall j :: j in Picked(plugin, ms) <==> Executes(plugin, ms, j)
    ensures Increasing(Picked(plugin, ms))
  {
    if ms != [] {
      var n := |ms|;
      var front := ms[..n - 1];
      var before := Picked(plugin, front);
      PickedExactly(plugin, front);
      forall a | 0 <= a < |before| ensures before[a] < n - 1 {
        assert before[a] in before;
      }
      forall j: nat | j < n - 1
        ensures Executes(plugin, ms, j) <==> Executes(plugin, front, j)
      {
        assert front[..j] == ms[..j] && front[j] == ms[j];
      }
      var picked := Picked(plugin, ms);
      assert picked == before || picked == before + [n - 1];
    }
  }

  // ---- Fed from the wire --------------------------------------------------

  /** The command is not barrier-marked. */
  predicate Unmarked(m: Inbound) {
    m.Command? && m.cmd.Some? ==> !m.cmd.value.isSyncBarrier
  }

  /** The message ends a worker that is not blocked. */
  predicate Ends(m: Inbound) {
    m.Shutdown? || (m.Command? && m.cmd.None?)
  }

  ghost predicate AllUnmarked(ms: seq<Inbound>) {
    forall i :: 0 <= i < |ms| ==> Unmarked(ms[i])
  }

  ghost predicate NoneEnds(ms: seq<Inbound>) {
    forall i :: 0 <= i < |ms| ==> !Ends(ms[i])
  }

  lemma NoneEndsEarlier(ms: seq<Inbound>, i: nat, n: nat)
    requires i <= n <= |ms| && NoneEnds(ms[..n])
    ensures NoneEnds(ms[..i])
  {
    forall k | 0 <= k < i ensures !Ends(ms[..i][k]) {
      assert ms[..i][k] == ms[..n][k];
    }
  }

  lemma {:induction false} UnmarkedNeverWaits(plugin: Plugin, ms: seq<Inbound>)
    requires AllUnmarked(ms)
    ensures Run(plugin, ms).waiting.None?
    ensures Run(plugin, ms).running <==> NoneEnds(ms)
  {
    if ms != [] {
      var front, last := ms[..|ms| - 1], ms[|ms| - 1];
      UnmarkedNeverWaits(plugin, front);
      assert Unmarked(last);
      assert ms == front + [last];
    }
  }

  /** The command, if any, was decoded from some payload. */
  ghost predicate FromWire(m: Inbound) {
    m.Command? ==> exists payload :: m.cmd == DecodeCommand(payload).ToOption()
  }

  lemma WireIsUnmarked(m: Inbound)
    requires FromWire(m)
    ensures Unmarked(m)
  {
    if m.Command? {
      var payload :| m.cmd == DecodeCommand(payload).ToOption();
    }
  }

  lemma UnmarkedExecutes(plugin: Plugin, ms: seq<Inbound>, j: nat)
    requires AllUnmarked(ms) && j < |ms|
    ensures Executes(plugin, ms, j) <==> ms[j].Command? && ms[j].cmd.Some? && NoneEnds(ms[..j])
  {
    UnmarkedNeverWaits(plugin, ms[..j]);
  }

  /**
   * Whatever payloads arrive, a worker never waits, and executes (hence
   * answers) exactly the commands that decode and come before the first
   * shutdown and the first command that does not decode.
   */
  lemma WireNeverWaits(plugin: Plugin, ms: seq<Inbound>)
    requires forall i :: 0 <= i < |ms| ==> FromWire(ms[i])
    ensures Run(plugin, ms).waiting.None?
    ensures forall j: nat :: j < |ms| ==>
              (Executes(plugin, ms, j) <==> ms[j].Command? && ms[j].cmd.Some? && NoneEnds(ms[..j]))
  {
    forall i | 0 <= i < |ms| ensures Unmarked(ms[i]) {
      WireIsUnmarked(ms[i]);
    }
    UnmarkedNeverWaits(plugin, ms);
    forall j: nat | j < |ms|
      ensures Executes(plugin, ms, j) <==> ms[j].Command? && ms[j].cmd.Some? && NoneEnds(ms[..j])
    {
      UnmarkedExecutes(plugin, ms, j);
    }
  }

  // ---- The object ---------------------------------------------------------

  class Instrument {
    const plugin: Plugin
    var running: bool
    var waiting: Option<Token>
    var done: seq<Execution>
    var sent: seq<Outbound>

    constructor (plugin: Plugin)
      ensures this.plugin == plugin && Model() == Start
    {
      this.plugin := plugin;
      running, waiting, done, sent := true, None, [], [];
    }

    ghost function Model(): State
      reads this
    {
      State(running, waiting, done, sent)
    }

    /** One turn of the main loop. */
    method ProcessMessage(msg: Inbound)
      requires running
      modifies this
      ensures Model() == Step(plugin, old(Model()), msg)
    {
      match msg {
        case Shutdown =>
          running := false;
        case SyncContinue(token) =>
          if waiting == Some(token) {
            waiting := None;
          }
        case Command(id, cmd) =>
          if waiting.None? {
            if cmd.None? {
              running := false;
            } else {
              ExecuteCommand(id, cmd.value);
            }
          }
        case Unexpected =>
      }
    }

    method ExecuteCommand(id: nat, cmd: SerializedCommand)
      requires running && waiting.None?
      modifies this
      ensures Model() == HandleCommand(plugin, old(Model()), id, cmd)
    {
      var resp: CommandResponse;
      if cmd.verb == BARRIER_NOP {
        resp := NopResponse(cmd);
      } else {
        resp := plugin(done, cmd);
      }
      done := done + [Execution(id, cmd, resp)];
      sent := sent + [Response(id, resp)];
      if cmd.syncToken.Some? {
        sent := sent + [SyncAck(id, cmd.syncToken.value)];
        if cmd.isSyncBarrier {
          waiting := cmd.syncToken;
        }
      }
    }
  }
}
