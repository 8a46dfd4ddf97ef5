/**
 * The job scheduler: a FIFO queue, one worker thread, detached monitor
 * threads and cancellation.  One action is one lock section; the wait inside
 * the section that peeks the head splits it into two actions.
 */
module Scheduler {
  import opened Options
  import opened Codec
  import opened Sequences

  datatype Kind = Sleep | Measure | Unknown

  datatype Status = Queued | Running | Canceling | Completed | Failed | Canceled

  datatype Job = Job(kind: Kind, status: Status, result: Json)

  /**
   * Where the worker thread is.  `Waiting(j)`: peeked `j`, blocked on
   * `measure_cv_` with the lock released.  `Busy(j, early)`: executing `j`,
   * started before `stop` iff `early`.  `Marked`, `Unspawned` and `Spawned`
   * follow a measure job past its insertion into the active set.
   */
  datatype Thread =
    | Idle
    | Waiting(job: nat)
    | Busy(job: nat, early: bool)
    | Marked(job: nat)
    | Unspawned(job: nat)
    | Spawned(job: nat)
    | Exited

  /**
   * Jobs are named by the counter of `make_job_id`.  `submitted`, `started`
   * and `dropped` record the order of submissions, the order of starts and
   * the jobs cancelled while queued.
   */
  datatype State = State(
    jobs: map<nat, Job>,
    queue: seq<nat>,
    active: set<nat>,
    running: bool,
    thread: Thread,
    monitors: set<nat>,
    nextId: nat,
    issued: set<nat>,
    submitted: seq<nat>,
    started: seq<nat>,
    dropped: set<nat>)

  const Start := State(map[], [], {}, true, Idle, {}, 1, {}, [], [], {})

  datatype Action =
    | MakeId
    | Submit(id: nat, kind: Kind)
    | Cancel(id: nat)
    | Stop
    | Peek
    | Wake
    | Exit
    | FinishPlain(ok: bool, result: Json)
    | Mark
    | Spawn(ok: bool)
    | FailMeasure
    | FinishMeasure
    | Monitor(id: nat, result: Json)

  // ---- Lock sections ------------------------------------------------------

  function SetStatus(s: State, j: nat, status: Status): State
    requires j in s.jobs
  {
    s.(jobs := s.jobs[j := s.jobs[j].(status := status)])
  }

  /** `std::find` followed by `erase`. */
  function Erase(q: seq<nat>, x: nat): seq<nat> {
    if q == [] then [] else if q[0] == x then q[1..] else [q[0]] + Erase(q[1..], x)
  }

  function CancelJob(s: State, j: nat): State {
    if j !in s.jobs then s
    else match s.jobs[j].status
      case Queued => SetStatus(s, j, Canceled).(queue := Erase(s.queue, j), dropped := s.dropped + {j})
      case Running => SetStatus(s, j, Canceling)
      case _ => s
  }

  predicate CancelAnswer(s: State, j: nat) {
    j in s.jobs && s.jobs[j].status in {Queued, Running}
  }

  /** The guard of the wait in front of a non-measure job. */
  predicate MustWait(s: State, j: nat) {
    j in s.jobs && s.jobs[j].kind != Measure && s.active != {} && s.running
  }

  /** Drops the front of the queue, whatever it is, and starts `j`. */
  function Pop(s: State, j: nat): State
    requires j in s.jobs && s.queue != []
  {
    SetStatus(s, j, Running).(queue := s.queue[1..], thread := Busy(j, s.running), started := s.started + [j])
  }

  function PeekHead(s: State): State
    requires s.queue != [] && s.queue[0] in s.jobs
  {
    var j := s.queue[0];
    if MustWait(s, j) then s.(thread := Waiting(j)) else Pop(s, j)
  }

  function GetResult(s: State, j: nat): Option<Json> {
    if j in s.jobs && s.jobs[j].status == Completed then Some(s.jobs[j].result) else None
  }

  predicate Enabled(s: State, a: Action) {
    match a
    case MakeId => true
    case Submit(id, _) => id in s.issued
    case Cancel(_) => true
    case Stop => true
    case Peek => s.thread.Idle? && s.queue != [] && s.queue[0] in s.jobs
    case Wake => s.thread.Waiting? && s.thread.job in s.jobs && (MustWait(s, s.thread.job) || s.queue != [])
    case Exit => s.thread.Idle? && !s.running && s.queue == []
    case FinishPlain(ok, _) =>
      && s.thread.Busy? && s.thread.job in s.jobs && s.jobs[s.thread.job].kind != Measure
      && (ok ==> s.jobs[s.thread.job].kind == Sleep)
      && (!ok && s.jobs[s.thread.job].kind == Sleep ==> s.jobs[s.thread.job].status in {Canceling, Canceled})
    case Mark => s.thread.Busy? && s.thread.job in s.jobs && s.jobs[s.thread.job].kind == Measure
    case Spawn(_) => s.thread.Marked?
    case FailMeasure =>
      || (s.thread.Busy? && s.thread.job in s.jobs && s.jobs[s.thread.job].kind == Measure)
      || (s.thread.Unspawned? && s.thread.job in s.jobs)
    case FinishMeasure => s.thread.Spawned?
    case Monitor(id, _) => id in s.monitors && id in s.jobs
  }

  function Next(s: State, a: Action): State
    requires Enabled(s, a)
  {
    match a
    case MakeId => s.(nextId := s.nextId + 1, issued := s.issued + {s.nextId})
    case Submit(id, kind) =>
      s.(issued := s.issued - {id},
         jobs := s.jobs[id := Job(kind, Queued, JNull)],
         queue := s.queue + [id],
         submitted := s.submitted + [id])
    case Cancel(id) => CancelJob(s, id)
    case Stop => s.(running := false)
    case Peek => PeekHead(s)
    case Wake => if MustWait(s, s.thread.job) then s else Pop(s, s.thread.job)
    case Exit => s.(thread := Exited)
    case FinishPlain(ok, result) =>
      var j := s.thread.job;
      s.(thread := Idle,
         jobs := s.jobs[j := if ok then s.jobs[j].(status := Completed, result := result)
                             else s.jobs[j].(status := Failed)])
    case Mark => s.(active := s.active + {s.thread.job}, thread := Marked(s.thread.job))
    case Spawn(ok) =>
      if ok then s.(monitors := s.monitors + {s.thread.job}, thread := Spawned(s.thread.job))
      else s.(thread := Unspawned(s.thread.job))
    case FailMeasure =>
      SetStatus(s, s.thread.job, Failed).(active := s.active - {s.thread.job}, thread := Idle)
    case FinishMeasure => s.(thread := Idle)
    case Monitor(id, result) =>
      s.(jobs := s.jobs[id := s.jobs[id].(status := Completed, result := result)],
         active := s.active - {id},
         monitors := s.monitors - {id})
  }

  /** The peeked job is still queued when the loop goes on to pop. */
  predicate PeekStands(s: State, a: Action) {
    a.Wake? && s.thread.Waiting? && s.thread.job in s.jobs && !MustWait(s, s.thread.job) ==>
      s.jobs[s.thread.job].status == Queued
  }

  /** The state after a run, if every action of it was enabled. */
  function PlayFreely(run: seq<Action>): Option<State> {
    if run == [] then Some(Start)
    else
      var before, a := PlayFreely(run[..|run| - 1]), run[|run| - 1];
      if before.Some? && Enabled(before.value, a) then Some(Next(before.value, a)) else None
  }

  /** The same, for runs in which every pop found its peeked job still queued. */
  function Play(run: seq<Action>): Option<State> {
    if run == [] then Some(Start)
    else
      var before, a := Play(run[..|run| - 1]), run[|run| - 1];
      if before.Some? && Enabled(before.value, a) && PeekStands(before.value, a)
      then Some(Next(before.value, a)) else None
  }

  // ---- Sequences without some elements ------------------------------------

  function Without(s: seq<nat>, gone: set<nat>): seq<nat> {
    if s == [] then []
    else
      var front, last := s[..|s| - 1], s[|s| - 1];
      if last in gone then Without(front, gone) else Without(front, gone) + [last]
  }

  lemma {:induction false} WithoutMembers(s: seq<nat>, gone: set<nat>)
    ensures forall x :: x in Without(s, gone) <==> x in s && x !in gone
    ensures Distinct(s) ==> Distinct(Without(s, gone))
  {
    if s != [] {
      var front, last := s[..|s| - 1], s[|s| - 1];
      assert s == front + [last];
      WithoutMembers(front, gone);
    }
  }

  lemma {:induction false} WithoutConcat(a: seq<nat>, b: seq<nat>, gone: set<nat>)
    ensures Without(a + b, gone) == Without(a, gone) + Without(b, gone)
  {
    if b == [] {
      assert a + b == a;
    } else {
      assert (a + b)[..|a + b| - 1] == a + b[..|b| - 1];
      WithoutConcat(a, b[..|b| - 1], gone);
    }
  }

  lemma {:induction false} WithoutTwice(s: seq<nat>, gone: set<nat>, x: nat)
    ensures Without(Without(s, gone), {x}) == Without(s, gone + {x})
  {
    if s != [] {
      var front, last := s[..|s| - 1], s[|s| - 1];
      WithoutTwice(front, gone, x);
      if last !in gone {
        var kept := Without(front, gone) + [last];
        assert kept[..|kept| - 1] == Without(front, gone);
      }
    }
  }

  lemma {:induction false} WithoutNothing(s: seq<nat>, x: nat)
    requires x !in s
    ensures Without(s, {x}) == s
  {
    if s != [] {
      assert s == s[..|s| - 1] + [s[|s| - 1]];
      WithoutNothing(s[..|s| - 1], x);
    }
  }

  lemma {:induction false} EraseIsWithout(q: seq<nat>, x: nat)
    requires Distinct(q)
    ensures Erase(q, x) == Without(q, {x})
  {
    if q != [] {
      var head, rest := q[0], q[1..];
      assert q == [head] + rest;
      EraseIsWithout(rest, x);
      WithoutConcat([head], rest, {x});
      assert [head][..0] == [];
      if head == x {
        assert x !in rest;
        WithoutNothing(rest, x);
      }
    }
  }

  /** Erasing an element that is there, at its first position. */
  lemma {:induction false} EraseFound(before: seq<nat>, x: nat, after: seq<nat>)
    requires x !in before
    ensures Erase(before + [x] + after, x) == before + after
  {
    var q := before + [x] + after;
    if before == [] {
      assert q[1..] == after && before + after == after;
    } else {
      var rest := before[1..];
      assert q[0] == before[0] && q[1..] == rest + [x] + after;
      EraseFound(rest, x, after);
      assert [before[0]] + (rest + after) == before + after;
    }
  }

  lemma {:induction false} EraseMissing(q: seq<nat>, x: nat)
    requires x !in q
    ensures Erase(q, x) == q
  {
    if q != [] {
      assert q[0] in q;
      EraseMissing(q[1..], x);
      assert [q[0]] + q[1..] == q;
    }
  }

  // ---- Invariant ----------------------------------------------------------

  ghost predicate IdsInv(s: State) {
    && Distinct(s.submitted)
    && (forall j :: j in s.jobs <==> j in s.submitted)
    && s.issued !! s.jobs.Keys
    && (forall j :: j in s.issued || j in s.jobs ==> j < s.nextId)
  }

  /** Started jobs, then the queue, are the submissions less those cancelled in the queue. */
  ghost predicate Conserved(s: State) {
    && s.started + s.queue == Without(s.submitted, s.dropped)
    && (forall j :: j in s.jobs && s.jobs[j].status == Queued <==> j in s.queue)
    && (forall j :: j in s.jobs && s.jobs[j].status == Canceled <==> j in s.dropped)
  }

  /** `active_measure_jobs_` and the monitor threads. */
  ghost predicate ActiveInv(s: State) {
    && s.active == s.monitors + (if s.thread.Marked? || s.thread.Unspawned? then {s.thread.job} else {})
    && forall j :: j in s.active ==>
         j in s.jobs && s.jobs[j].kind == Measure && s.jobs[j].status in {Running, Canceling}
  }

  ghost predicate ThreadInv(s: State) {
    match s.thread
    case Waiting(j) =>
      && j in s.jobs && s.jobs[j].kind != Measure
      && (s.jobs[j].status == Canceled || (s.queue != [] && s.queue[0] == j))
    case Busy(j, early) =>
      && j in s.jobs && s.jobs[j].status in {Running, Canceling} && j !in s.active
      && (early && s.jobs[j].kind != Measure ==> s.active == {})
    case Marked(j) => j !in s.monitors
    case Unspawned(j) => j !in s.monitors
    case _ => true
  }

  /** The queue holds queued jobs, each once. */
  ghost predicate QueueInv(s: State) {
    Distinct(s.queue) && forall j :: j in s.queue ==> j in s.jobs && s.jobs[j].status == Queued
  }

  /** What holds in every run, even if a peeked job is cancelled. */
  ghost predicate Safe(s: State) {
    IdsInv(s) && QueueInv(s) && ActiveInv(s) && ThreadInv(s)
  }

  ghost predicate Inv(s: State) {
    Safe(s) && Conserved(s)
  }

  lemma QueueDistinct(s: State)
    requires IdsInv(s) && Conserved(s)
    ensures Distinct(s.started + s.queue) && Distinct(s.queue)
  {
    WithoutMembers(s.submitted, s.dropped);
    forall i, j | 0 <= i < j < |s.queue| ensures s.queue[i] != s.queue[j] {
      var all := s.started + s.queue;
      assert all[|s.started| + i] == s.queue[i] && all[|s.started| + j] == s.queue[j];
    }
  }

  lemma NotStarted(s: State, j: nat)
    requires IdsInv(s) && Conserved(s) && j in s.queue
    ensures j !in s.started
  {
    QueueDistinct(s);
    var all := s.started + s.queue;
    var q :| 0 <= q < |s.queue| && s.queue[q] == j;
    assert all[|s.started| + q] == j;
    forall i | 0 <= i < |s.started| ensures s.started[i] != j {
      assert all[i] == s.started[i];
    }
  }

  /** Erasing from the queue is dropping from the submissions. */
  lemma EraseConserves(s: State, j: nat)
    requires IdsInv(s) && Conserved(s) && j in s.queue
    ensures s.started + Erase(s.queue, j) == Without(s.submitted, s.dropped + {j})
  {
    QueueDistinct(s);
    EraseIsWithout(s.queue, j);
    NotStarted(s, j);
    WithoutNothing(s.started, j);
    WithoutConcat(s.started, s.queue, {j});
    WithoutTwice(s.submitted, s.dropped, j);
  }

  lemma {:induction false} EraseMembers(q: seq<nat>, j: nat)
    requires Distinct(q)
    ensures Distinct(Erase(q, j)) && forall k :: k in Erase(q, j) <==> k in q && k != j
    ensures q != [] && q[0] != j ==> Erase(q, j) != [] && Erase(q, j)[0] == q[0]
  {
    EraseIsWithout(q, j);
    WithoutMembers(q, {j});
  }

  lemma CancelQueued(s: State, j: nat)
    requires IdsInv(s) && Conserved(s) && j in s.jobs && s.jobs[j].status == Queued
    ensures
      var s' := CancelJob(s, j);
      && s'.started + s'.queue == Without(s'.submitted, s'.dropped)
      && (forall k :: k in s'.queue <==> k in s.queue && k != j)
      && (s.queue[0] != j ==> s'.queue != [] && s'.queue[0] == s.queue[0])
  {
    QueueDistinct(s);
    EraseConserves(s, j);
    EraseMembers(s.queue, j);
  }

  lemma SubmitIds(s: State, a: Action)
    requires IdsInv(s) && Enabled(s, a) && a.Submit?
    ensures IdsInv(Next(s, a))
  {
    var s' := Next(s, a);
    assert s'.submitted == s.submitted + [a.id];
    assert a.id !in s.submitted;
  }

  lemma IdsStep(s: State, a: Action)
    requires IdsInv(s) && ThreadInv(s) && Enabled(s, a)
    ensures IdsInv(Next(s, a))
  {
    if a.Submit? {
      SubmitIds(s, a);
    } else {
      var s' := Next(s, a);
      assert s'.submitted == s.submitted && s'.jobs.Keys == s.jobs.Keys;
    }
  }

  lemma SubmitConserved(s: State, a: Action)
    requires IdsInv(s) && Conserved(s) && a.Submit? && Enabled(s, a)
    ensures Conserved(Next(s, a))
  {
    var s' := Next(s, a);
    assert s'.submitted[..|s.submitted|] == s.submitted;
    assert a.id !in s.jobs && a.id !in s.dropped;
    assert s'.started + s'.queue == Without(s.submitted, s.dropped) + [a.id];
  }

  lemma CancelConserved(s: State, j: nat)
    requires IdsInv(s) && Conserved(s)
    ensures Conserved(CancelJob(s, j))
  {
    if j in s.jobs && s.jobs[j].status == Queued {
      CancelQueued(s, j);
    }
  }

  lemma PopConserved(s: State)
    requires IdsInv(s) && Conserved(s) && s.queue != [] && s.queue[0] in s.jobs
    ensures Conserved(Pop(s, s.queue[0]))
  {
    QueueDistinct(s);
    var j, rest := s.queue[0], s.queue[1..];
    assert s.queue == [j] + rest;
    assert s.started + [j] + rest == s.started + s.queue;
    assert j !in rest;
  }

  /** A step that moves at most the unfinished job `j`, and no queue. */
  lemma ConservedFrame(s: State, s': State, j: nat)
    requires Conserved(s) && s'.jobs.Keys == s.jobs.Keys
    requires s'.started == s.started && s'.queue == s.queue && s'.submitted == s.submitted && s'.dropped == s.dropped
    requires forall k :: k in s.jobs && k != j ==> s'.jobs[k] == s.jobs[k]
    requires j !in s.jobs || s'.jobs[j] == s.jobs[j]
             || (s.jobs[j].status !in {Queued, Canceled} && s'.jobs[j].status !in {Queued, Canceled})
    ensures Conserved(s')
  {
  }

  predicate Closes(a: Action) {
    a.FinishPlain? || a.FailMeasure? || a.Monitor?
  }

  /** The closing sections act on a job that is running or being canceled. */
  lemma ClosesUnfinished(s: State, a: Action)
    requires ActiveInv(s) && ThreadInv(s) && Enabled(s, a) && Closes(a)
    ensures
      var j := if a.Monitor? then a.id else s.thread.job;
      && j in s.jobs && s.jobs[j].status in {Running, Canceling}
      && Next(s, a).jobs == s.jobs[j := Next(s, a).jobs[j]]
      && Next(s, a).jobs[j].status in {Completed, Failed}
  {
  }

  lemma CloseConserved(s: State, a: Action)
    requires Conserved(s) && ActiveInv(s) && ThreadInv(s) && Enabled(s, a) && Closes(a)
    ensures Conserved(Next(s, a))
  {
    ClosesUnfinished(s, a);
    ConservedFrame(s, Next(s, a), if a.Monitor? then a.id else s.thread.job);
  }

  lemma WakeConserved(s: State)
    requires IdsInv(s) && Conserved(s) && ThreadInv(s) && Enabled(s, Wake) && PeekStands(s, Wake)
    ensures Conserved(Next(s, Wake))
  {
    if !MustWait(s, s.thread.job) {
      PopConserved(s);
    }
  }

  lemma ConservedStep(s: State, a: Action)
    requires Inv(s) && Enabled(s, a) && PeekStands(s, a)
    ensures Conserved(Next(s, a))
  {
    match a
    case Submit(_, _) => SubmitConserved(s, a);
    case Cancel(id) => CancelConserved(s, id);
    case Peek => PopConserved(s);
    case Wake => WakeConserved(s);
    case FinishPlain(_, _) => CloseConserved(s, a);
    case FailMeasure => CloseConserved(s, a);
    case Monitor(_, _) => CloseConserved(s, a);
    case _ => ConservedFrame(s, Next(s, a), 0);
  }

  /** The one job an action writes to, if any. */
  function Target(s: State, a: Action): Option<nat>
    requires Enabled(s, a)
  {
    match a
    case Submit(id, _) => Some(id)
    case Cancel(id) => Some(id)
    case Peek => Some(s.queue[0])
    case Wake => Some(s.thread.job)
    case FinishPlain(_, _) => Some(s.thread.job)
    case FailMeasure => Some(s.thread.job)
    case Monitor(id, _) => Some(id)
    case _ => None
  }

  lemma OthersUntouched(s: State, a: Action, j: nat)
    requires Enabled(s, a) && Target(s, a) != Some(j)
    ensures j in Next(s, a).jobs <==> j in s.jobs
    ensures j in s.jobs ==> Next(s, a).jobs[j] == s.jobs[j]
  {
  }

  /** Actions that leave `active_measure_jobs_` and the monitors alone. */
  lemma ActiveFrame(s: State, s': State)
    requires ActiveInv(s)
    requires s'.active == s.active && s'.monitors == s.monitors
    requires s'.thread == s.thread
             || !(s.thread.Marked? || s.thread.Unspawned? || s'.thread.Marked? || s'.thread.Unspawned?)
    requires forall j :: j in s.active ==>
               j in s'.jobs && s'.jobs[j].kind == s.jobs[j].kind && s'.jobs[j].status in {Running, Canceling}
    ensures ActiveInv(s')
  {
  }

  /** Plain actions of the loop and submissions never touch an active job. */
  lemma ActiveNotTarget(s: State, a: Action, j: nat)
    requires Safe(s) && Enabled(s, a) && j in s.active
    requires !a.Cancel? && !a.Monitor? && !a.FailMeasure?
    ensures Target(s, a) != Some(j)
  {
  }

  lemma MeasureActive(s: State, a: Action)
    requires Safe(s) && Enabled(s, a) && (a.Mark? || a.Spawn? || a.FailMeasure? || a.Monitor?)
    ensures ActiveInv(Next(s, a))
  {
    var s' := Next(s, a);
    match a
    case Mark => assert s'.active == s'.monitors + {s.thread.job};
    case Spawn(ok) =>
      var j := s.thread.job;
      assert ok ==> s'.active == s'.monitors + {};
    case FailMeasure => assert s'.active == s'.monitors + {};
    case Monitor(id, _) =>
      assert s'.active == s'.monitors + (if s.thread.Marked? || s.thread.Unspawned? then {s.thread.job} else {});
  }

  lemma CancelActive(s: State, j: nat)
    requires Safe(s)
    ensures ActiveInv(CancelJob(s, j))
  {
    var s' := CancelJob(s, j);
    forall k | k in s.active
      ensures k in s'.jobs && s'.jobs[k].kind == s.jobs[k].kind && s'.jobs[k].status in {Running, Canceling}
    {
      assert s.jobs[k].status in {Running, Canceling};
    }
    ActiveFrame(s, s');
  }

  predicate TouchesActive(a: Action) {
    a.Mark? || a.Spawn? || a.FailMeasure? || a.Monitor? || a.Cancel?
  }

  lemma PlainActive(s: State, a: Action)
    requires Safe(s) && Enabled(s, a) && !TouchesActive(a)
    ensures ActiveInv(Next(s, a))
  {
    var s' := Next(s, a);
    forall j | j in s.active
      ensures j in s'.jobs && s'.jobs[j].kind == s.jobs[j].kind && s'.jobs[j].status in {Running, Canceling}
    {
      ActiveNotTarget(s, a, j);
      OthersUntouched(s, a, j);
    }
    ActiveFrame(s, s');
  }

  lemma ActiveStep(s: State, a: Action)
    requires Safe(s) && Enabled(s, a)
    ensures ActiveInv(Next(s, a))
  {
    if !TouchesActive(a) {
      PlainActive(s, a);
    } else if a.Cancel? {
      CancelActive(s, a.id);
    } else {
      MeasureActive(s, a);
    }
  }

  lemma CancelThread(s: State, j: nat)
    requires Safe(s)
    ensures ThreadInv(CancelJob(s, j))
  {
    EraseMembers(s.queue, j);
  }

  lemma ThreadStep(s: State, a: Action)
    requires Safe(s) && Enabled(s, a)
    ensures ThreadInv(Next(s, a))
  {
    if a.Cancel? {
      CancelThread(s, a.id);
    }
  }

  lemma CancelQueue(s: State, j: nat)
    requires QueueInv(s)
    ensures QueueInv(CancelJob(s, j))
  {
    EraseMembers(s.queue, j);
  }

  /** A pop takes the job it starts out of the queue, if it was there. */
  lemma PopQueue(s: State, j: nat)
    requires QueueInv(s) && s.queue != [] && j in s.jobs && (j in s.queue ==> j == s.queue[0])
    ensures QueueInv(Pop(s, j))
  {
    var rest := s.queue[1..];
    forall k | k in rest ensures k in s.queue && k != j {
      var at :| 0 <= at < |rest| && rest[at] == k;
      assert s.queue[at + 1] == k;
    }
  }

  lemma QueueStep(s: State, a: Action)
    requires Safe(s) && Enabled(s, a)
    ensures QueueInv(Next(s, a))
  {
    match a
    case Cancel(id) => CancelQueue(s, id);
    case Peek => PopQueue(s, s.queue[0]);
    case Wake => if !MustWait(s, s.thread.job) { PopQueue(s, s.thread.job); }
    case Submit(id, _) => assert id !in s.queue;
    case FinishPlain(_, _) => ClosesUnfinished(s, a);
    case FailMeasure => ClosesUnfinished(s, a);
    case Monitor(_, _) => ClosesUnfinished(s, a);
    case _ =>
  }

  lemma SafeStep(s: State, a: Action)
    requires Safe(s) && Enabled(s, a)
    ensures Safe(Next(s, a))
  {
    IdsStep(s, a);
    QueueStep(s, a);
    ActiveStep(s, a);
    ThreadStep(s, a);
  }

  /** Safety holds in every state of every run. */
  lemma {:induction false} AlwaysSafe(run: seq<Action>)
    requires PlayFreely(run).Some?
    ensures Safe(PlayFreely(run).value)
  {
    if run != [] {
      AlwaysSafe(run[..|run| - 1]);
      SafeStep(PlayFreely(run[..|run| - 1]).value, run[|run| - 1]);
    }
  }

  /** The whole invariant holds in every state of every run whose peeks stand. */
  lemma {:induction false} Reachable(run: seq<Action>)
    requires Play(run).Some?
    ensures Inv(Play(run).value)
  {
    if run != [] {
      var s, a := Play(run[..|run| - 1]).value, run[|run| - 1];
      Reachable(run[..|run| - 1]);
      SafeStep(s, a);
      ConservedStep(s, a);
    }
  }

  /** Those runs are among the free ones. */
  lemma {:induction false} PlayIsFree(run: seq<Action>)
    requires Play(run).Some?
    ensures PlayFreely(run) == Play(run)
  {
    if run != [] {
      PlayIsFree(run[..|run| - 1]);
    }
  }

  // ---- Main results -------------------------------------------------------

  /**
   * Conservation: the jobs started so far, then the queue, are the submissions
   * in order less those cancelled while queued; the queue has no duplicates
   * and holds exactly the queued jobs.
   */
  lemma NoJobLostOrReordered(run: seq<Action>)
    requires Play(run).Some?
    ensures
      var s := Play(run).value;
      && s.started + s.queue == Without(s.submitted, s.dropped)
      && Distinct(s.started + s.queue)
      && (forall j :: j in s.jobs && s.jobs[j].status == Queued <==> j in s.queue)
      && (forall j :: j in s.jobs && s.jobs[j].status == Canceled <==> j in s.dropped)
  {
    Reachable(run);
    QueueDistinct(Play(run).value);
  }

  /** When the loop exits, every submission has been started or was cancelled in the queue. */
  lemma ExitDrainsTheQueue(run: seq<Action>)
    requires Play(run + [Exit]).Some?
    ensures
      var s := Play(run + [Exit]).value;
      s.queue == [] && !s.running && s.started == Without(s.submitted, s.dropped)
  {
    assert (run + [Exit])[..|run|] == run;
    Reachable(run + [Exit]);
    var s := Play(run + [Exit]).value;
    assert s.started + [] == s.started;
  }

  /**
   * Exclusion, in every run whatsoever: no measure job is active beside a plain
   * job started before `stop`, and the active set holds only unfinished
   * measure jobs.
   */
  lemma Exclusion(run: seq<Action>)
    requires PlayFreely(run).Some?
    ensures
      var s := PlayFreely(run).value;
      && (s.thread.Busy? && s.thread.early && s.thread.job in s.jobs && s.jobs[s.thread.job].kind != Measure ==>
            s.active == {})
      && forall j :: j in s.active ==>
           j in s.jobs && s.jobs[j].kind == Measure && s.jobs[j].status in {Running, Canceling}
  {
    AlwaysSafe(run);
  }

  /** The moves of a job's status. */
  predicate Moves(from: Status, to: Status) {
    || from == to
    || (from == Queued && to in {Running, Canceled})
    || (from == Running && to in {Canceling, Completed, Failed})
    || (from == Canceling && to in {Completed, Failed})
  }

  predicate Final(status: Status) { status in {Completed, Failed, Canceled} }

  /** Jobs start queued, move along their life cycle, and stay as they are once finished. */
  ghost predicate Lawful(s: State, s': State) {
    && (forall j :: j in s.jobs ==>
          && j in s'.jobs && s'.jobs[j].kind == s.jobs[j].kind
          && Moves(s.jobs[j].status, s'.jobs[j].status)
          && (Final(s.jobs[j].status) ==> s'.jobs[j] == s.jobs[j]))
    && forall j :: j in s'.jobs && j !in s.jobs ==> s'.jobs[j].status == Queued
  }

  lemma NewJobsAreQueued(s: State, a: Action, j: nat)
    requires Inv(s) && Enabled(s, a) && j in Next(s, a).jobs && j !in s.jobs
    ensures Next(s, a).jobs[j].status == Queued
  {
    if Target(s, a) != Some(j) {
      OthersUntouched(s, a, j);
    }
  }

  lemma TargetMoves(s: State, a: Action, j: nat)
    requires Inv(s) && Enabled(s, a) && PeekStands(s, a) && Target(s, a) == Some(j) && j in s.jobs
    ensures j in Next(s, a).jobs && Next(s, a).jobs[j].kind == s.jobs[j].kind
    ensures Moves(s.jobs[j].status, Next(s, a).jobs[j].status)
    ensures Final(s.jobs[j].status) ==> Next(s, a).jobs[j] == s.jobs[j]
  {
  }

  lemma LifeCycleStep(s: State, a: Action)
    requires Inv(s) && Enabled(s, a) && PeekStands(s, a)
    ensures Lawful(s, Next(s, a))
  {
    forall j | j in s.jobs
      ensures j in Next(s, a).jobs && Next(s, a).jobs[j].kind == s.jobs[j].kind
      ensures Moves(s.jobs[j].status, Next(s, a).jobs[j].status)
      ensures Final(s.jobs[j].status) ==> Next(s, a).jobs[j] == s.jobs[j]
    {
      if Target(s, a) == Some(j) {
        TargetMoves(s, a, j);
      } else {
        OthersUntouched(s, a, j);
      }
    }
    forall j | j in Next(s, a).jobs && j !in s.jobs ensures Next(s, a).jobs[j].status == Queued {
      NewJobsAreQueued(s, a, j);
    }
  }

  lemma LifeCycle(run: seq<Action>, a: Action)
    requires Play(run + [a]).Some?
    ensures Play(run).Some? && Lawful(Play(run).value, Play(run + [a]).value)
  {
    assert (run + [a])[..|run|] == run;
    Reachable(run);
    LifeCycleStep(Play(run).value, a);
  }

  /** Final states last, and a result once fetched is the result for ever. */
  lemma {:induction false} FinishedForever(run: seq<Action>, more: seq<Action>, j: nat)
    requires Play(run + more).Some?
    ensures Play(run).Some?
    ensures
      var s, s' := Play(run).value, Play(run + more).value;
      && (j in s.jobs && Final(s.jobs[j].status) ==> j in s'.jobs && s'.jobs[j] == s.jobs[j])
      && (GetResult(s, j).Some? ==> GetResult(s', j) == GetResult(s, j))
  {
    if more == [] {
      assert run + more == run;
    } else {
      var front, whole := more[..|more| - 1], run + more;
      assert whole[..|whole| - 1] == run + front;
      FinishedForever(run, front, j);
      Reachable(run + front);
      LifeCycleStep(Play(run + front).value, more[|more| - 1]);
    }
  }

  // ---- What each action brings about --------------------------------------

  /** The action closes job `j` successfully, with result `r`. */
  predicate Completes(s: State, a: Action, j: nat, r: Json) {
    a == Monitor(j, r) || (a == FinishPlain(true, r) && s.thread.Busy? && s.thread.job == j)
  }

  /** The action closes job `j` as failed. */
  predicate Fails(s: State, a: Action, j: nat) {
    || (a.FinishPlain? && !a.ok && s.thread.Busy? && s.thread.job == j)
    || (a.FailMeasure? && (s.thread.Busy? || s.thread.Unspawned?) && s.thread.job == j)
  }

  lemma CloseStep(s: State, a: Action, j: nat)
    requires Enabled(s, a)
    ensures forall r :: Completes(s, a, j, r) ==>
              j in Next(s, a).jobs && Next(s, a).jobs[j].status == Completed && Next(s, a).jobs[j].result == r
    ensures Fails(s, a, j) ==> j in Next(s, a).jobs && Next(s, a).jobs[j].status == Failed
  {
  }

  /** Nothing else closes a job. */
  lemma OnlyClosing(s: State, a: Action, j: nat)
    requires Enabled(s, a) && j in Next(s, a).jobs && (j in s.jobs ==> Next(s, a).jobs[j] != s.jobs[j])
    ensures Next(s, a).jobs[j].status == Completed ==> Completes(s, a, j, Next(s, a).jobs[j].result)
    ensures Next(s, a).jobs[j].status == Failed ==> Fails(s, a, j)
  {
  }

  lemma PlayLast(run: seq<Action>, a: Action)
    requires Play(run + [a]).Some?
    ensures Play(run).Some? && Enabled(Play(run).value, a) && Play(run + [a]).value == Next(Play(run).value, a)
  {
    assert (run + [a])[..|run|] == run;
  }

  /** Once closed with `r`, a job's result is `r` in every continuation; a failed job never has one. */
  lemma ResultOfClosing(run: seq<Action>, a: Action, more: seq<Action>, j: nat)
    requires Play(run + [a] + more).Some?
    ensures Play(run).Some?
    ensures forall r :: Completes(Play(run).value, a, j, r) ==> GetResult(Play(run + [a] + more).value, j) == Some(r)
    ensures Fails(Play(run).value, a, j) ==> GetResult(Play(run + [a] + more).value, j) == None
  {
    FinishedForever(run + [a], more, j);
    PlayLast(run, a);
    CloseStep(Play(run).value, a, j);
  }

  /** A job has a result exactly when it is completed, and then some action of the run closed it with that result. */
  lemma {:induction false} ResultExactly(run: seq<Action>, j: nat) returns (p: nat)
    requires Play(run).Some?
    ensures
      var s := Play(run).value;
      && (GetResult(s, j).Some? <==> j in s.jobs && s.jobs[j].status == Completed)
      && (GetResult(s, j).Some? ==>
            && p < |run| && Play(run[..p]).Some?
            && Completes(Play(run[..p]).value, run[p], j, GetResult(s, j).value))
  {
    p := 0;
    if run != [] && GetResult(Play(run).value, j).Some? {
      var front, a := run[..|run| - 1], run[|run| - 1];
      var s, s' := Play(front).value, Play(run).value;
      if j in s.jobs && s'.jobs[j] == s.jobs[j] {
        p := ResultExactly(front, j);
        assert front[..p] == run[..p];
      } else {
        OnlyClosing(s, a, j);
        p := |run| - 1;
      }
    }
  }

  /** A job's kind is the one it was submitted with. */
  lemma {:induction false} KindIsSubmitted(run: seq<Action>, j: nat) returns (p: nat)
    requires Play(run).Some? && j in Play(run).value.jobs
    ensures p < |run| && run[p] == Submit(j, Play(run).value.jobs[j].kind)
  {
    var front, a := run[..|run| - 1], run[|run| - 1];
    var s := Play(front).value;
    Reachable(front);
    if j in s.jobs {
      LifeCycleStep(s, a);
      p := KindIsSubmitted(front, j);
    } else {
      p := |run| - 1;
    }
  }

  /**
   * `cancel_job` answers true exactly when it changes something: a queued job
   * leaves the queue as canceled, a running one is asked to stop.
   */
  lemma CancelTells(s: State, j: nat)
    requires Safe(s)
    ensures CancelAnswer(s, j) <==> CancelJob(s, j) != s
    ensures CancelAnswer(s, j) ==>
              && j in CancelJob(s, j).jobs && j !in CancelJob(s, j).queue
              && CancelJob(s, j).jobs[j].status == (if s.jobs[j].status == Queued then Canceled else Canceling)
    ensures forall k :: k != j ==> (k in CancelJob(s, j).queue <==> k in s.queue)
  {
    EraseMembers(s.queue, j);
    if CancelAnswer(s, j) {
      assert CancelJob(s, j).jobs[j] != s.jobs[j];
    }
  }

  /** The job at the head, or the one waited with, is started exactly when it is a measure job, none is active, or the manager stops. */
  lemma StartsWhenFree(s: State, a: Action)
    requires Safe(s) && Enabled(s, a) && (a.Peek? || a.Wake?)
    ensures
      var j, s' := if a.Peek? then s.queue[0] else s.thread.job, Next(s, a);
      if s.jobs[j].kind == Measure || s.active == {} || !s.running then
        && s'.started == s.started + [j] && s'.thread == Busy(j, s.running)
        && j in s'.jobs && s'.jobs[j].status == Running && s'.queue == s.queue[1..]
      else s'.started == s.started && s'.thread == Waiting(j) && s'.jobs == s.jobs && s'.queue == s.queue
  {
  }

  /** `stop` is final, and ends new waits. */
  lemma StopIsFinal(s: State, a: Action)
    requires Enabled(s, a) && (a.Stop? || !s.running)
    ensures !Next(s, a).running
  {
  }

  // ---- The side condition is exact ----------------------------------------

  /** The loop is about to leave its wait and pop. */
  predicate AboutToPop(s: State) {
    s.thread.Waiting? && s.thread.job in s.jobs && !MustWait(s, s.thread.job)
  }

  /**
   * In every reachable state the pop after a wait is defined and conserves the
   * jobs if and only if the peeked job has not been cancelled meanwhile; and
   * otherwise it breaks the life cycle too.
   */
  lemma PopSafeExactly(run: seq<Action>)
    requires Play(run).Some? && AboutToPop(Play(run).value)
    ensures
      var s := Play(run).value;
      && ((s.queue != [] && Conserved(Pop(s, s.thread.job))) <==> s.jobs[s.thread.job].status == Queued)
      && (s.queue != [] ==> (Lawful(s, Pop(s, s.thread.job)) <==> s.jobs[s.thread.job].status == Queued))
  {
    Reachable(run);
    var s := Play(run).value;
    var j := s.thread.job;
    if s.jobs[j].status == Queued {
      PopConserved(s);
    } else if s.queue != [] {
      assert j in s.dropped;
      assert j in Pop(s, j).dropped && Pop(s, j).jobs[j].status == Running;
    }
  }

  /** A job that was cancelled in the queue and started all the same. */
  ghost predicate Revived(s: State, j: nat) {
    j in s.started && j in s.dropped
  }

  lemma RevivedStays(s: State, a: Action, j: nat)
    requires Enabled(s, a) && Revived(s, j)
    ensures Revived(Next(s, a), j)
  {
  }

  lemma RevivedBreaks(s: State, j: nat)
    requires Revived(s, j)
    ensures !Conserved(s)
  {
    WithoutMembers(s.submitted, s.dropped);
    assert j in s.started + s.queue;
  }

  lemma BadPopRevives(s: State, a: Action)
    requires Inv(s) && Enabled(s, a) && !PeekStands(s, a)
    ensures Revived(Next(s, a), s.thread.job)
  {
    var j := s.thread.job;
    assert j in s.dropped;
    assert Next(s, a).started == s.started + [j];
  }

  /** A run with a bad pop has a revived job at its end. */
  lemma {:induction false} BadRunRevives(run: seq<Action>) returns (j: nat)
    requires PlayFreely(run).Some? && Play(run).None?
    ensures Revived(PlayFreely(run).value, j)
  {
    var front, a := run[..|run| - 1], run[|run| - 1];
    var s := PlayFreely(front).value;
    if Play(front).None? {
      j := BadRunRevives(front);
      RevivedStays(s, a, j);
    } else {
      PlayIsFree(front);
      Reachable(front);
      j := s.thread.job;
      BadPopRevives(s, a);
    }
  }

  /**
   * At the end of any run the jobs are conserved if and only if no pop of the
   * run found its peeked job cancelled.
   */
  lemma ConservedExactly(run: seq<Action>)
    requires PlayFreely(run).Some?
    ensures Conserved(PlayFreely(run).value) <==> Play(run).Some?
  {
    if Play(run).Some? {
      PlayIsFree(run);
      Reachable(run);
    } else {
      var j := BadRunRevives(run);
      RevivedBreaks(PlayFreely(run).value, j);
    }
  }

  // ---- What a bad pop discards is never run -------------------------------

  ghost predicate StartedInv(s: State) {
    forall j :: j in s.started ==> j in s.jobs && s.jobs[j].status != Queued
  }

  lemma StartedStep(s: State, a: Action)
    requires Safe(s) && StartedInv(s) && Enabled(s, a)
    ensures StartedInv(Next(s, a))
  {
    var s' := Next(s, a);
    forall j | j in s'.started ensures j in s'.jobs && s'.jobs[j].status != Queued {
      if j in s.started && Target(s, a) != Some(j) {
        OthersUntouched(s, a, j);
      }
    }
  }

  lemma {:induction false} StartedAlways(run: seq<Action>)
    requires PlayFreely(run).Some?
    ensures StartedInv(PlayFreely(run).value)
  {
    if run != [] {
      var front := run[..|run| - 1];
      StartedAlways(front);
      AlwaysSafe(front);
      StartedStep(PlayFreely(front).value, run[|run| - 1]);
    }
  }

  /** A submitted job that nothing will take up any more. */
  ghost predicate Lost(s: State, j: nat) {
    && j in s.jobs && s.jobs[j].status in {Queued, Canceled}
    && j !in s.queue && j !in s.started && s.thread != Waiting(j)
  }

  lemma {:induction false} EraseShrinks(q: seq<nat>, x: nat, k: nat)
    requires k in Erase(q, x)
    ensures k in q
  {
    if q != [] && q[0] != x && k != q[0] {
      EraseShrinks(q[1..], x, k);
    }
  }

  lemma LostStays(s: State, a: Action, j: nat)
    requires Safe(s) && Lost(s, j) && Enabled(s, a)
    ensures Lost(Next(s, a), j)
  {
    var s' := Next(s, a);
    if a.Cancel? {
      if j in s'.queue && j !in s.queue {
        EraseShrinks(s.queue, a.id, j);
      }
    } else {
      LostNotTarget(s, a, j);
      OthersUntouched(s, a, j);
    }
  }

  lemma LostNotTarget(s: State, a: Action, j: nat)
    requires Safe(s) && Lost(s, j) && Enabled(s, a) && !a.Cancel?
    ensures Target(s, a) != Some(j)
  {
    if Closes(a) {
      ClosesUnfinished(s, a);
    }
  }

  lemma {:induction false} LostForever(run: seq<Action>, more: seq<Action>, j: nat)
    requires PlayFreely(run).Some? && Lost(PlayFreely(run).value, j) && PlayFreely(run + more).Some?
    ensures Lost(PlayFreely(run + more).value, j)
  {
    if more == [] {
      assert run + more == run;
    } else {
      var front, whole := more[..|more| - 1], run + more;
      assert whole[..|whole| - 1] == run + front;
      LostForever(run, front, j);
      AlwaysSafe(run + front);
      LostStays(PlayFreely(run + front).value, more[|more| - 1], j);
    }
  }

  /**
   * Whenever a pop finds its peeked job cancelled, the job at the front of the
   * queue is discarded: no continuation of the run ever starts it.
   */
  lemma DiscardedNeverRuns(run: seq<Action>, more: seq<Action>)
    requires PlayFreely(run).Some? && AboutToPop(PlayFreely(run).value)
    requires
      var s := PlayFreely(run).value;
      s.queue != [] && s.jobs[s.thread.job].status != Queued
    requires PlayFreely(run + [Wake] + more).Some?
    ensures
      var j, s' := PlayFreely(run).value.queue[0], PlayFreely(run + [Wake] + more).value;
      j !in s'.started && j in s'.jobs && s'.jobs[j].status in {Queued, Canceled}
  {
    var s := PlayFreely(run).value;
    var j := s.queue[0];
    AlwaysSafe(run);
    StartedAlways(run);
    assert j in s.queue;
    assert (run + [Wake])[..|run|] == run;
    assert PlayFreely(run + [Wake]).value == Pop(s, s.thread.job);
    FrontNotInRest(s.queue);
    assert Lost(Pop(s, s.thread.job), j);
    LostForever(run + [Wake], more, j);
  }

  lemma FrontNotInRest(q: seq<nat>)
    requires q != [] && Distinct(q)
    ensures q[0] !in q[1..]
  {
  }

  // ---- It does happen -----------------------------------------------------

  lemma Extend(run: seq<Action>, a: Action) returns (longer: seq<Action>)
    requires Play(run).Some? && Enabled(Play(run).value, a) && PeekStands(Play(run).value, a)
    ensures Play(longer) == Some(Next(Play(run).value, a))
  {
    longer := run + [a];
    assert longer[..|run|] == run;
  }

  lemma MeasureSubmitted() returns (run: seq<Action>)
    ensures Play(run) == Some(State(
      map[1 := Job(Measure, Queued, JNull)], [1], {}, true, Idle, {}, 4, {2, 3}, [1], [], {}))
  {
    run := Extend([], MakeId);
    run := Extend(run, MakeId);
    run := Extend(run, MakeId);
    assert Play(run).value.issued == {1, 2, 3};
    run := Extend(run, Submit(1, Measure));
    var s := Play(run).value;
    assert s.issued == {2, 3} && s.queue == [1] && s.submitted == [1];
  }

  lemma MeasureUnderWay() returns (run: seq<Action>)
    ensures Play(run) == Some(State(
      map[1 := Job(Measure, Running, JNull)], [], {1}, true, Idle, {1}, 4, {2, 3}, [1], [1], {}))
  {
    run := MeasureSubmitted();
    run := Extend(run, Peek);
    var s := Play(run).value;
    assert s.jobs == map[1 := Job(Measure, Running, JNull)] && s.queue == [] && s.started == [1];
    run := Extend(run, Mark);
    assert Play(run).value.active == {1};
    run := Extend(run, Spawn(true));
    assert Play(run).value.monitors == {1};
    run := Extend(run, FinishMeasure);
  }

  lemma SleepPeeked() returns (run: seq<Action>)
    ensures Play(run) == Some(State(
      map[1 := Job(Measure, Running, JNull), 2 := Job(Sleep, Queued, JNull)],
      [2], {1}, true, Waiting(2), {1}, 4, {3}, [1, 2], [1], {}))
  {
    run := MeasureUnderWay();
    run := Extend(run, Submit(2, Sleep));
    var s := Play(run).value;
    assert s.issued == {3} && s.queue == [2] && s.submitted == [1, 2];
    assert s.jobs == map[1 := Job(Measure, Running, JNull), 2 := Job(Sleep, Queued, JNull)];
    run := Extend(run, Peek);
  }

  /**
   * A run in which it goes wrong: job 1 (measure) is active, job 2 (sleep) is
   * peeked and cancelled, job 3 is submitted and job 1 ends; the pop then
   * discards job 3, which is never run, and revives job 2.
   */
  lemma Mishap() returns (run: seq<Action>)
    ensures Play(run).Some? && PlayFreely(run) == Play(run) && AboutToPop(Play(run).value)
    ensures
      var s := Play(run).value;
      && s.thread == Waiting(2) && s.queue == [3] && 2 in s.jobs && s.jobs[2].status == Canceled
      && 3 in s.jobs && Pop(s, 2).queue == [] && Pop(s, 2).jobs[2].status == Running
      && 3 !in Pop(s, 2).started && Pop(s, 2).jobs[3].status == Queued
    ensures forall more ::
              PlayFreely(run + [Wake] + more).Some? ==> 3 !in PlayFreely(run + [Wake] + more).value.started
  {
    run := SleepPeeked();
    run := Extend(run, Cancel(2));
    assert Play(run).value.queue == [];
    run := Extend(run, Submit(3, Sleep));
    run := Extend(run, Monitor(1, JNull));
    assert Play(run).value.active == {};
    PlayIsFree(run);
    forall more | PlayFreely(run + [Wake] + more).Some?
      ensures 3 !in PlayFreely(run + [Wake] + more).value.started
    {
      DiscardedNeverRuns(run, more);
    }
  }

  // ---- The object ---------------------------------------------------------

  /** The fields guarded by `mutex_`; where the threads are is ghost. */
  class JobManager {
    var jobs: map<nat, Job>
    var queue: seq<nat>
    var activeMeasureJobs: set<nat>
    var running: bool
    var nextId: nat
    ghost var thread: Thread
    ghost var monitors: set<nat>
    ghost var issued: set<nat>
    ghost var submitted: seq<nat>
    ghost var started: seq<nat>
    ghost var dropped: set<nat>

    constructor ()
      ensures Model() == Start
    {
      jobs, queue, activeMeasureJobs, running, nextId := map[], [], {}, true, 1;
      thread, monitors, issued, submitted, started, dropped := Idle, {}, {}, [], [], {};
    }

    ghost function Model(): State
      reads this
    {
      State(jobs, queue, activeMeasureJobs, running, thread, monitors, nextId, issued, submitted, started, dropped)
    }

    method SubmitJob(kind: Kind) returns (id: nat)
      modifies this
      ensures id == old(nextId)
      ensures Model() == Next(Next(old(Model()), MakeId), Submit(id, kind))
    {
      id := nextId;
      nextId, issued := nextId + 1, issued + {id};
      issued := issued - {id};
      jobs := jobs[id := Job(kind, Queued, JNull)];
      queue := queue + [id];
      submitted := submitted + [id];
    }

    method Cancel(id: nat) returns (ok: bool)
      modifies this
      ensures ok == CancelAnswer(old(Model()), id)
      ensures Model() == CancelJob(old(Model()), id)
    {
      if id !in jobs {
        return false;
      }
      if jobs[id].status == Queued {
        var at := Find(queue, id);
        if at < |queue| {
          assert queue == queue[..at] + [id] + queue[at + 1..];
          EraseFound(queue[..at], id, queue[at + 1..]);
          queue := queue[..at] + queue[at + 1..];
        } else {
          assert queue[..at] == queue;
          EraseMissing(queue, id);
        }
        jobs := jobs[id := jobs[id].(status := Canceled)];
        dropped := dropped + {id};
        return true;
      }
      if jobs[id].status == Running {
        jobs := jobs[id := jobs[id].(status := Canceling)];
        return true;
      }
      return false;
    }

    /** `std::find`. */
    static method Find(q: seq<nat>, x: nat) returns (at: nat)
      ensures at <= |q| && x !in q[..at] && (at < |q| ==> q[at] == x)
    {
      at := 0;
      while at < |q| && q[at] != x
        invariant at <= |q| && x !in q[..at]
      {
        at := at + 1;
      }
    }

    method GetJobResult(id: nat) returns (result: Option<Json>)
      ensures result == GetResult(Model(), id)
    {
      if id !in jobs || jobs[id].status != Completed {
        return None;
      }
      return Some(jobs[id].result);
    }

    /** The section that peeks the head and, unless it has to wait, pops it. */
    method PeekSection() returns (waits: bool)
      requires Enabled(Model(), Action.Peek)
      modifies this
      ensures Model() == Next(old(Model()), Action.Peek)
      ensures waits == Model().thread.Waiting?
    {
      var jid := queue[0];
      waits := jobs[jid].kind != Measure && activeMeasureJobs != {} && running;
      if waits {
        thread := Waiting(jid);
      } else {
        StartJob(jid);
      }
    }

    /** One wake-up of the wait for active measure jobs. */
    method WakeSection(jid: nat) returns (waits: bool)
      requires thread == Waiting(jid) && Enabled(Model(), Action.Wake)
      modifies this
      ensures Model() == Next(old(Model()), Action.Wake)
      ensures waits == Model().thread.Waiting?
    {
      waits := jobs[jid].kind != Measure && activeMeasureJobs != {} && running;
      if !waits {
        StartJob(jid);
      }
    }

    method StartJob(jid: nat)
      requires jid in jobs && queue != []
      modifies this
      ensures Model() == Pop(old(Model()), jid)
    {
      queue := queue[1..];
      jobs := jobs[jid := jobs[jid].(status := Running)];
      thread, started := Busy(jid, running), started + [jid];
    }

    /** The closing section for a plain job. */
    method FinishSection(jid: nat, ok: bool, result: Json)
      requires thread.Busy? && thread.job == jid && Enabled(Model(), Action.FinishPlain(ok, result))
      modifies this
      ensures Model() == Next(old(Model()), Action.FinishPlain(ok, result))
    {
      if ok {
        jobs := jobs[jid := jobs[jid].(status := Completed, result := result)];
      } else {
        jobs := jobs[jid := jobs[jid].(status := Failed)];
      }
      thread := Idle;
    }

    /** The closing section for a measure job that could not be launched. */
    method FailMeasureSection(jid: nat)
      requires Enabled(Model(), Action.FailMeasure) && thread.job == jid
      modifies this
      ensures Model() == Next(old(Model()), Action.FailMeasure)
    {
      jobs := jobs[jid := jobs[jid].(status := Failed)];
      activeMeasureJobs := activeMeasureJobs - {jid};
      thread := Idle;
    }

    /** The section of the monitor thread. */
    method MonitorSection(jid: nat, result: Json)
      requires Enabled(Model(), Action.Monitor(jid, result))
      modifies this
      ensures Model() == Next(old(Model()), Action.Monitor(jid, result))
    {
      jobs := jobs[jid := jobs[jid].(status := Completed, result := result)];
      activeMeasureJobs := activeMeasureJobs - {jid};
      monitors := monitors - {jid};
    }
  }
}
