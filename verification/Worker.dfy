/** The native maintenance worker: one mutex, one condition variable shared by the worker thread
    and any number of drainers. Each step is one critical section. Waiting and waking follow
    pthread_cond_wait and pthread_cond_signal in POSIX.1-2017: a signal unblocks at least one
    waiter if there is any, and a waiter may wake spuriously. */
module Worker {

  /** A thread at the condition: about to take the mutex, or blocked, perhaps already unblocked
      but without the mutex yet. */
  datatype WorkerPc = Ready | Blocked(signalled: bool) | Calling | Exited
  datatype DrainPc = Entering | Waiting(signalled: bool) | Drained(result: int)
  datatype ClosePc = NotClosed | Joining | Closed(result: int)

  datatype Thread = WorkerThread | Drainer(id: nat)

  /** The four flags of `struct akasha_worker`, the threads, and a history of calls: a ticket for
      every request answered 0 or 1, and counts of accepted requests and callbacks. */
  datatype State = State(
    pending: bool, running: bool, closing: bool, failure: int,
    worker: WorkerPc, drainers: map<nat, DrainPc>, closer: ClosePc,
    accepted: nat, starts: nat, finished: nat, dropped: nat,
    tickets: nat, queued: set<nat>, lost: set<nat>)

  datatype Step =
    | Request(woken: set<Thread>)
    | WorkerTurn | WorkerWakes | CallbackReturns(result: int)
    | DrainCall(id: nat) | DrainTurn(id: nat) | DrainWakes(id: nat)
    | Spurious(thread: Thread)
    | CloseCall | CloseReturns

  // ---------------------------------------------------------------- condition variable

  ghost function Waiters(s: State): set<Thread> {
    (if s.worker == Blocked(false) then {WorkerThread} else {})
    + set id | id in s.drainers && s.drainers[id] == Waiting(false) :: Drainer(id)
  }

  ghost function WakeSome(s: State, woken: set<Thread>): State {
    s.(worker := if s.worker.Blocked? && WorkerThread in woken then Blocked(true) else s.worker,
       drainers := map id | id in s.drainers ::
         if s.drainers[id].Waiting? && Drainer(id) in woken then Waiting(true) else s.drainers[id])
  }

  ghost function Broadcast(s: State): State {
    WakeSome(s, Waiters(s))
  }

  // ---------------------------------------------------------------- steps

  /** `akasha_worker_request`: -1 when closing, -2 after a failure, 0 when one is already pending. */
  function RequestAnswer(s: State): int {
    if s.closing then -1 else if s.failure != 0 then -2 else if s.pending then 0 else 1
  }

  ghost predicate Enabled(s: State, step: Step) {
    match step
    case Request(woken) =>
      !s.closer.Closed? && woken <= Waiters(s) && (Waiters(s) != {} ==> woken != {})
    case WorkerTurn => s.worker.Ready?
    case WorkerWakes => s.worker == Blocked(true)
    case CallbackReturns(_) => s.worker.Calling?
    case DrainCall(id) => s.closer.NotClosed? && id !in s.drainers
    case DrainTurn(id) => id in s.drainers && s.drainers[id].Entering?
    case DrainWakes(id) => id in s.drainers && s.drainers[id] == Waiting(true)
    case Spurious(t) => t in Waiters(s)
    case CloseCall => s.closer.NotClosed? && forall id :: id in s.drainers ==> s.drainers[id].Drained?
    case CloseReturns => s.closer.Joining? && s.worker.Exited?
  }

  ghost function Next(s: State, step: Step): State
    requires Enabled(s, step)
  {
    match step
    case Request(woken) =>
      var answer := RequestAnswer(s);
      if answer < 0 then s
      else
        var t := s.(tickets := s.tickets + 1, queued := s.queued + {s.tickets});
        if answer == 0 then t else WakeSome(t.(pending := true, accepted := s.accepted + 1), woken)
    case WorkerTurn =>
      if !s.pending && !s.closing then s.(worker := Blocked(false))
      else if s.closing && !s.pending then Broadcast(s).(worker := Exited)
      else s.(pending := false, running := true, worker := Calling, starts := s.starts + 1, queued := {})
    case WorkerWakes => s.(worker := Ready)
    case CallbackReturns(result) =>
      var t := s.(running := false, worker := Ready, finished := s.finished + 1);
      Broadcast(if result == 0 then t else
        t.(failure := result, pending := false, dropped := if s.pending then s.dropped + 1 else s.dropped,
           queued := {}, lost := s.lost + s.queued))
    case DrainCall(id) => s.(drainers := s.drainers[id := Entering])
    case DrainTurn(id) =>
      s.(drainers := s.drainers[id := if s.pending || s.running then Waiting(false) else Drained(s.failure)])
    case DrainWakes(id) => s.(drainers := s.drainers[id := Entering])
    case Spurious(t) => WakeSome(s, {t})
    case CloseCall => Broadcast(s).(closing := true, closer := Joining)
    case CloseReturns => s.(closer := Closed(s.failure))
  }

  const Opened := State(false, false, false, 0, Ready, map[], NotClosed, 0, 0, 0, 0, 0, {}, {})

  // ---------------------------------------------------------------- invariant

  /** No wakeup is lost: a blocked worker that has not been signalled has nothing to do, and a
      blocked drainer that has not been signalled still has something to wait for. */
  ghost predicate NoLostWakeup(s: State) {
    && (s.worker == Blocked(false) ==> !s.pending && !s.running && !s.closing)
    && (forall id :: id in s.drainers && s.drainers[id] == Waiting(false) ==> s.pending || s.running)
  }

  ghost predicate Conserved(s: State) {
    && s.accepted == s.starts + s.dropped + (if s.pending then 1 else 0)
    && s.starts == s.finished + (if s.running then 1 else 0)
    && s.dropped <= 1 && (s.dropped == 1 ==> s.failure != 0)
    && (s.queued != {} <==> s.pending)
    && (forall k :: k in s.queued || k in s.lost ==> k < s.tickets)
    && (s.lost != {} ==> s.failure != 0)
  }

  ghost predicate Inv(s: State) {
    && NoLostWakeup(s) && Conserved(s)
    && (s.running <==> s.worker.Calling?)
    && (s.worker.Exited? ==> s.closing && !s.pending)
    && (s.failure != 0 ==> !s.pending && !s.running)
    && (s.closing <==> !s.closer.NotClosed?)
    && (s.closer.Closed? ==> s.worker.Exited? && s.closer.result == s.failure)
    && (s.closing ==> forall id :: id in s.drainers ==> s.drainers[id].Drained?)
  }

  /** When the worker needs the signal it is the only thread waiting, so it gets it. */
  lemma SignalReachesWorker(s: State, woken: set<Thread>)
    requires Inv(s) && s.worker == Blocked(false) && Enabled(s, Request(woken))
    ensures Waiters(s) == {WorkerThread} && woken == {WorkerThread}
  {
    assert WorkerThread in Waiters(s);
    assert Waiters(s) == {WorkerThread};
    var x :| x in woken;
  }

  lemma BroadcastWakesAll(s: State)
    ensures var t := Broadcast(s);
      && t == s.(worker := t.worker, drainers := t.drainers)
      && t.worker == (if s.worker.Blocked? then Blocked(true) else s.worker)
      && t.drainers.Keys == s.drainers.Keys
      && forall id :: id in s.drainers ==> t.drainers[id] == if s.drainers[id].Waiting? then Waiting(true) else s.drainers[id]
  {
    assert s.worker == Blocked(false) ==> WorkerThread in Waiters(s);
    forall id | id in s.drainers && s.drainers[id] == Waiting(false) ensures Drainer(id) in Waiters(s) {
    }
  }

  lemma RequestKeepsInv(s: State, woken: set<Thread>)
    requires Inv(s) && Enabled(s, Request(woken))
    ensures Inv(Next(s, Request(woken)))
  {
    var t := Next(s, Request(woken));
    if s.worker == Blocked(false) { SignalReachesWorker(s, woken); }
    if RequestAnswer(s) >= 0 { assert s.tickets in t.queued; }
  }

  lemma SpuriousKeepsInv(s: State, thread: Thread)
    requires Inv(s) && Enabled(s, Spurious(thread))
    ensures Inv(Next(s, Spurious(thread)))
  {
  }

  lemma StepKeepsInv(s: State, step: Step)
    requires Inv(s) && Enabled(s, step)
    ensures Inv(Next(s, step))
  {
    hide Waiters, WakeSome, Broadcast;
    match step
    case Request(woken) => RequestKeepsInv(s, woken);
    case Spurious(thread) => SpuriousKeepsInv(s, thread);
    case WorkerTurn => BroadcastWakesAll(s);
    case CallbackReturns(result) =>
      var t := s.(running := false, worker := Ready, finished := s.finished + 1);
      BroadcastWakesAll(if result == 0 then t else
        t.(failure := result, pending := false, dropped := if s.pending then s.dropped + 1 else s.dropped,
           queued := {}, lost := s.lost + s.queued));
    case CloseCall => BroadcastWakesAll(s);
    case _ =>
  }

  // ---------------------------------------------------------------- runs

  ghost predicate Follows(s: State, t: State) {
    exists step :: Enabled(s, step) && t == Next(s, step)
  }

  ghost predicate Run(run: seq<State>) {
    && |run| > 0 && run[0] == Opened
    && forall i, j :: 0 <= i < |run| && j == i + 1 && j < |run| ==> Follows(run[i], run[j])
  }

  lemma {:induction false} ReachableInv(run: seq<State>, i: nat)
    requires Run(run) && i < |run|
    ensures Inv(run[i])
  {
    hide Inv, Next, Enabled;
    if i == 0 {
      OpenedInv();
    } else {
      ReachableInv(run, i - 1);
      assert Follows(run[i - 1], run[i]);
      var step :| Enabled(run[i - 1], step) && run[i] == Next(run[i - 1], step);
      StepKeepsInv(run[i - 1], step);
    }
  }

  lemma OpenedInv()
    ensures Inv(Opened)
  {
  }

  /** In every interleaving, and the accounting of requests with it. */
  lemma WakeupsAndRequestsAreNeverLost(run: seq<State>, i: nat)
    requires Run(run) && i < |run|
    ensures NoLostWakeup(run[i])
    ensures Conserved(run[i])
    ensures run[i].closer.Closed? ==>
      run[i].queued == {} && run[i].accepted == run[i].finished + run[i].dropped && run[i].closer.result == run[i].failure
  {
    ReachableInv(run, i);
  }

  ghost predicate AfterFailure(s: State, t: State) {
    && s.tickets <= t.tickets && s.starts <= t.starts && s.lost <= t.lost
    && (s.failure != 0 ==> t.failure == s.failure && t.starts == s.starts && t.dropped == s.dropped && t.lost == s.lost)
  }

  lemma StepAfterFailure(s: State, step: Step)
    requires Inv(s) && Enabled(s, step)
    ensures AfterFailure(s, Next(s, step))
  {
  }

  lemma AfterFailureTransitive(a: State, b: State, c: State)
    requires AfterFailure(a, b) && AfterFailure(b, c)
    ensures AfterFailure(a, c)
  {
  }

  /** The first failure code stays, and no callback starts and nothing is dropped after it. */
  lemma {:induction false} FirstFailureIsFinal(run: seq<State>, i: nat, j: nat)
    requires Run(run) && i <= j < |run|
    ensures AfterFailure(run[i], run[j])
    decreases j
  {
    if i < j {
      hide Inv, Next, Enabled, AfterFailure;
      FirstFailureIsFinal(run, i, j - 1);
      ReachableInv(run, j - 1);
      assert Follows(run[j - 1], run[j]);
      var step :| Enabled(run[j - 1], step) && run[j] == Next(run[j - 1], step);
      StepAfterFailure(run[j - 1], step);
      AfterFailureTransitive(run[i], run[j - 1], run[j]);
    }
  }

  // ---------------------------------------------------------------- what calls report

  /** The steps that led from state to state, from the moment the worker was opened. */
  ghost predicate Took(run: seq<State>, steps: seq<Step>) {
    && |run| == |steps| + 1 && run[0] == Opened
    && forall k, l :: 0 <= k < |steps| && l == k + 1 ==> Takes(run[k], steps[k], run[l])
  }

  ghost predicate Takes(s: State, step: Step, t: State) { Enabled(s, step) && t == Next(s, step) }

  /** The callback that returned at this step failed. */
  predicate Fails(step: Step) {
    step.CallbackReturns? && step.result != 0
  }

  lemma TookRun(run: seq<State>, steps: seq<Step>)
    requires Took(run, steps)
    ensures Run(run)
  {
    hide Next, Enabled;
    forall i, j | 0 <= i < |run| && j == i + 1 && j < |run| ensures Follows(run[i], run[j]) {
      assert Takes(run[i], steps[i], run[j]);
    }
  }

  lemma StepFailure(s: State, step: Step)
    requires Inv(s) && Enabled(s, step)
    ensures Next(s, step).failure == if Fails(step) then step.result else s.failure
    ensures Next(s, step).closing <==> s.closing || step.CloseCall?
  {
  }

  /** The worker's code is 0 until a callback fails, and from then on the code of that callback; at most
      one ever fails. It is closing from the first call of close on. */
  lemma {:induction false} FailureIsTheCallbacks(run: seq<State>, steps: seq<Step>, i: nat)
    requires Took(run, steps) && i <= |steps|
    ensures (forall k :: 0 <= k < i ==> !Fails(steps[k])) <==> run[i].failure == 0
    ensures forall k :: 0 <= k < i && Fails(steps[k]) ==> run[i].failure == steps[k].result
    ensures run[i].closing <==> exists k :: 0 <= k < i && steps[k].CloseCall?
  {
    if i > 0 {
      FailureIsTheCallbacks(run, steps, i - 1);
      TookRun(run, steps);
      ReachableInv(run, i - 1);
      assert Takes(run[i - 1], steps[i - 1], run[i]);
      StepFailure(run[i - 1], steps[i - 1]);
      RunningIsUnfailed(run[i - 1]);
      hide Inv, Next, Enabled;
    }
  }

  lemma RunningIsUnfailed(s: State)
    requires Inv(s)
    ensures s.worker.Calling? ==> s.failure == 0
  {
  }

  /** How one step can make a drainer return. */
  lemma StepDrains(s: State, step: Step, id: nat)
    requires Inv(s) && Enabled(s, step) && id in Next(s, step).drainers && Next(s, step).drainers[id].Drained?
    ensures id in s.drainers
    ensures s.drainers[id] == Next(s, step).drainers[id]
      || (step == DrainTurn(id) && !s.pending && !s.running && Next(s, step).drainers[id].result == s.failure)
  {
  }

  /** A drain returns with nothing pending and nothing running, and reports whether a callback has
      failed by then: 0 if none has, otherwise the code of the one that did. */
  lemma {:induction false} DrainReports(run: seq<State>, steps: seq<Step>, i: nat, id: nat) returns (j: nat)
    requires Took(run, steps) && i <= |steps| && id in run[i].drainers && run[i].drainers[id].Drained?
    ensures j < i && steps[j] == DrainTurn(id) && !run[j].pending && !run[j].running
    ensures run[i].drainers[id].result == 0 <==> forall k :: 0 <= k < j ==> !Fails(steps[k])
    ensures forall k :: 0 <= k < j && Fails(steps[k]) ==> run[i].drainers[id].result == steps[k].result
  {
    hide Next, Enabled, Inv;
    TookRun(run, steps);
    j := 0;
    if i > 0 {
      ReachableInv(run, i - 1);
      assert Takes(run[i - 1], steps[i - 1], run[i]);
      StepDrains(run[i - 1], steps[i - 1], id);
      if run[i - 1].drainers[id] == run[i].drainers[id] {
        j := DrainReports(run, steps, i - 1, id);
      } else {
        j := i - 1;
        FailureIsTheCallbacks(run, steps, i - 1);
      }
    }
  }

  /** Close reports the same way, once every accepted request has run or been dropped. */
  lemma CloseReports(run: seq<State>, steps: seq<Step>, i: nat)
    requires Took(run, steps) && i <= |steps| && run[i].closer.Closed?
    ensures run[i].closer.result == 0 <==> forall k :: 0 <= k < i ==> !Fails(steps[k])
    ensures forall k :: 0 <= k < i && Fails(steps[k]) ==> run[i].closer.result == steps[k].result
  {
    TookRun(run, steps);
    ReachableInv(run, i);
    FailureIsTheCallbacks(run, steps, i);
  }

  /** What a request is told: -1 once close has been called, -2 once a callback has failed, 0 when it
      joins a request that no callback has started on, 1 when it is the one to be run. */
  lemma RequestIsTold(run: seq<State>, steps: seq<Step>, i: nat, woken: set<Thread>)
    requires Took(run, steps) && i < |steps| && steps[i] == Request(woken)
    ensures var answer, s, t := RequestAnswer(run[i]), run[i], run[i + 1];
      && -2 <= answer <= 1
      && (answer == -1 <==> exists k :: 0 <= k < i && steps[k].CloseCall?)
      && (answer == -2 <==> (forall k :: 0 <= k < i ==> !steps[k].CloseCall?) && exists k :: 0 <= k < i && Fails(steps[k]))
      && (answer < 0 ==> t == s)
      && (answer == 0 ==> s.queued != {} && t.queued == s.queued + {s.tickets} && t.accepted == s.accepted)
      && (answer == 1 ==> s.queued == {} && t.queued == {s.tickets} && t.pending && t.accepted == s.accepted + 1)
  {
    FailureIsTheCallbacks(run, steps, i);
    TookRun(run, steps);
    ReachableInv(run, i);
    assert Takes(run[i], steps[i], run[i + 1]);
  }

  // ---------------------------------------------------------------- progress

  /** Steps the threads take by themselves, given that a callback returns. */
  predicate Internal(step: Step) {
    step.WorkerTurn? || step.WorkerWakes? || step.CallbackReturns? || step.DrainTurn? || step.DrainWakes? || step.CloseReturns?
  }

  ghost predicate AtRest(s: State) {
    && !s.pending && !s.running && !s.closer.Joining?
    && (forall id :: id in s.drainers ==> s.drainers[id].Drained?)
    && (s.worker == Blocked(false) || s.worker.Exited?)
  }

  /** No reachable state deadlocks: unless everything is at rest, some thread can move. */
  lemma NoDeadlock(s: State) returns (step: Step)
    requires Inv(s)
    ensures AtRest(s) || (Internal(step) && Enabled(s, step))
  {
    if s.worker.Ready? { step := WorkerTurn; }
    else if s.worker == Blocked(true) { step := WorkerWakes; }
    else if s.worker.Calling? { step := CallbackReturns(0); }
    else if s.closer.Joining? && s.worker.Exited? { step := CloseReturns; }
    else {
      step := WorkerTurn;
      if exists id :: id in s.drainers && !s.drainers[id].Drained? {
        var id :| id in s.drainers && !s.drainers[id].Drained?;
        step := if s.drainers[id].Entering? then DrainTurn(id) else DrainWakes(id);
      }
    }
  }

  function Work(s: State): nat {
    (if s.pending then 2 else 0) + (if s.running then 1 else 0)
  }

  function WorkerRank(s: State): nat {
    (match s.worker case Ready => 1 case Blocked(signalled) => (if signalled then 2 else 0) case _ => 0)
    + (if s.closer.Joining? then 1 else 0)
  }

  ghost function EnteringDrainers(s: State): set<nat> { set id | id in s.drainers && s.drainers[id].Entering? }
  ghost function WakingDrainers(s: State): set<nat> { set id | id in s.drainers && s.drainers[id] == Waiting(true) }

  ghost function DrainRank(s: State): nat {
    |EnteringDrainers(s)| + 2 * |WakingDrainers(s)|
  }

  ghost predicate Below(t: State, s: State) {
    || Work(t) < Work(s)
    || (Work(t) == Work(s) && WorkerRank(t) < WorkerRank(s))
    || (Work(t) == Work(s) && WorkerRank(t) == WorkerRank(s) && DrainRank(t) < DrainRank(s))
  }

  lemma DrainTurnLowersRank(s: State, id: nat)
    requires id in s.drainers && s.drainers[id].Entering?
    ensures DrainRank(Next(s, DrainTurn(id))) < DrainRank(s)
  {
    var t := Next(s, DrainTurn(id));
    assert id in EnteringDrainers(s);
    assert EnteringDrainers(t) == EnteringDrainers(s) - {id};
    assert WakingDrainers(t) == WakingDrainers(s);
  }

  lemma DrainWakeLowersRank(s: State, id: nat)
    requires id in s.drainers && s.drainers[id] == Waiting(true)
    ensures DrainRank(Next(s, DrainWakes(id))) < DrainRank(s)
  {
    var t := Next(s, DrainWakes(id));
    assert id in WakingDrainers(s) && id !in EnteringDrainers(s);
    assert EnteringDrainers(t) == EnteringDrainers(s) + {id};
    assert WakingDrainers(t) == WakingDrainers(s) - {id};
  }

  /** Without new calls or spurious wakeups every step lowers a well-founded rank, so every
      drain and close completes once callbacks return. */
  lemma InternalStepsTerminate(s: State, step: Step)
    requires Inv(s) && Internal(step) && Enabled(s, step)
    ensures Below(Next(s, step), s)
  {
    hide DrainRank;
    match step
    case DrainTurn(id) => DrainTurnLowersRank(s, id);
    case DrainWakes(id) => DrainWakeLowersRank(s, id);
    case WorkerTurn =>
    case WorkerWakes =>
    case CallbackReturns(_) =>
    case CloseReturns =>
  }

  /** An endless schedule without new calls: at every moment a thread takes a step of its own, or
      everything is at rest and stays so. Which step is taken is left open. */
  ghost predicate Schedule(f: nat -> State) {
    Inv(f(0)) && forall i: nat :: Moves(f(i), f(i + 1))
  }

  ghost predicate Moves(s: State, t: State) {
    (exists step :: Internal(step) && Enabled(s, step) && t == Next(s, step)) || (AtRest(s) && t == s)
  }

  /** Whatever the schedule, every drain and close completes: after finitely many steps all is at rest,
      no request is pending, every drainer has returned and a close has returned. */
  lemma {:induction false} EveryScheduleComesToRest(f: nat -> State, from: nat) returns (i: nat)
    requires Schedule(f) && Inv(f(from))
    ensures i >= from && AtRest(f(i)) && Inv(f(i)) && (f(i).closing ==> f(i).closer.Closed?)
    decreases Work(f(from)), WorkerRank(f(from)), DrainRank(f(from))
  {
    if AtRest(f(from)) {
      i := from;
    } else {
      hide AtRest, Work, WorkerRank, DrainRank, Inv, Next, Enabled, Internal;
      assert Moves(f(from), f(from + 1));
      var step :| Internal(step) && Enabled(f(from), step) && f(from + 1) == Next(f(from), step);
      StepKeepsInv(f(from), step);
      InternalStepsTerminate(f(from), step);
      i := EveryScheduleComesToRest(f, from + 1);
    }
  }

  /** A schedule can always go on, so the theorem is not about stuck threads. */
  lemma ScheduleGoesOn(s: State) returns (t: State)
    requires Inv(s)
    ensures Moves(s, t) && Inv(t)
  {
    var step := NoDeadlock(s);
    hide Inv, Next, Enabled, Internal, AtRest;
    if AtRest(s) {
      t := s;
    } else {
      t := Next(s, step);
      StepKeepsInv(s, step);
    }
  }
}
