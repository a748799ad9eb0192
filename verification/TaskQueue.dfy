/** The queue of database tasks: threads that add, flush and shut down, and one worker, as atomic steps
    under a mutex and a condition variable. */
module TaskQueue {
  import opened Wrappers

  datatype ThreadState = Running | Closing | Terminated

  /** Where a thread is.  `k` is the number of the task at hand, counted from the first that was accepted;
      `last` marks the flush of a shutdown. */
  datatype Pc =
    | Idle
    | AddLock(query: string) | AddHeld(query: string) | AddUnlock(signal: bool) | AddSignal
    | FlushLock(last: bool) | FlushHeld(last: bool) | FlushRun(k: int, last: bool)
    | ShutLock | ShutHeld | ShutUnlock | ShutNotify
    | WorkTop | WorkLock | WorkLocked | WorkWait | WorkRelock | WorkHeld | WorkRun(k: int) | WorkDone

  type Tid = int
  const WORKER: Tid := 0

  /** Besides the fields of the source: the log of accepted tasks, how many were taken out, the tasks that
      were executed, and whether the flush of a shutdown has ended. */
  datatype State = State(state: ThreadState, tasks: seq<string>, lock: Option<Tid>, threads: map<Tid, Pc>,
                         accepted: seq<string>, taken: nat, done: set<int>, flushed: bool)

  datatype Step =
    | Add(t: Tid, query: string)
    | Flush(t: Tid)
    | Shutdown(t: Tid)
    | Go(t: Tid)
    | Stop
    | Spurious

  function At(s: State, t: Tid, pc: Pc): State {
    s.(threads := s.threads[t := pc])
  }

  function Locked(s: State, t: Tid, pc: Pc): Option<State> {
    if s.lock.None? then Some(At(s, t, pc).(lock := Some(t))) else None
  }

  function Unlocked(s: State, t: Tid, pc: Pc): State {
    At(s, t, pc).(lock := None)
  }

  /** `notify_one`: only the worker ever waits. */
  function Notified(s: State): State {
    if WORKER in s.threads && s.threads[WORKER] == WorkWait then At(s, WORKER, WorkRelock) else s
  }

  /** Take the first task out and unlock. */
  function Popped(s: State, t: Tid, pc: Pc): State
    requires s.tasks != []
  {
    Unlocked(s, t, pc).(tasks := s.tasks[1..], taken := s.taken + 1)
  }

  /** The next step of a thread, if it can make one. */
  function Advance(s: State, t: Tid): Option<State>
    requires t in s.threads
  {
    match s.threads[t]
    case Idle => None
    case AddLock(query) => Locked(s, t, AddHeld(query))
    case AddHeld(query) =>
      if s.state == Running
      then Some(At(s, t, AddUnlock(s.tasks == [])).(tasks := s.tasks + [query], accepted := s.accepted + [query]))
      else Some(At(s, t, AddUnlock(false)))
    case AddUnlock(signal) => Some(Unlocked(s, t, if signal then AddSignal else Idle))
    case AddSignal => Some(Notified(At(s, t, Idle)))
    case FlushLock(last) => Locked(s, t, FlushHeld(last))
    case FlushHeld(last) =>
      if s.tasks != [] then Some(Popped(s, t, FlushRun(s.taken, last)))
      else Some(Unlocked(s, t, if last then ShutNotify else Idle).(flushed := s.flushed || last))
    case FlushRun(k, last) => Some(At(s, t, FlushLock(last)).(done := s.done + {k}))
    case ShutLock => Locked(s, t, ShutHeld)
    case ShutHeld => Some(At(s, t, ShutUnlock).(state := Terminated))
    case ShutUnlock => Some(Unlocked(s, t, FlushLock(true)))
    case ShutNotify => Some(Notified(At(s, t, Idle)))
    case WorkTop => Some(At(s, t, if s.state == Terminated then WorkDone else WorkLock))
    case WorkLock => Locked(s, t, WorkLocked)
    case WorkLocked => Some(if s.tasks == [] then Unlocked(s, t, WorkWait) else At(s, t, WorkHeld))
    case WorkWait => None
    case WorkRelock => Locked(s, t, WorkHeld)
    case WorkHeld => Some(if s.tasks != [] then Popped(s, t, WorkRun(s.taken)) else Unlocked(s, t, WorkTop))
    case WorkRun(k) => Some(At(s, t, WorkTop).(done := s.done + {k}))
    case WorkDone => None
  }

  function Begun(s: State, t: Tid, pc: Pc): Option<State> {
    if t in s.threads && s.threads[t] == Idle && t != WORKER then Some(At(s, t, pc)) else None
  }

  function Next(s: State, st: Step): Option<State> {
    match st
    case Add(t, query) => Begun(s, t, AddLock(query))
    case Flush(t) => Begun(s, t, FlushLock(false))
    case Shutdown(t) => Begun(s, t, ShutLock)
    case Go(t) => if t in s.threads then Advance(s, t) else None
    case Stop => Some(s.(state := Closing))
    case Spurious => if WORKER in s.threads && s.threads[WORKER] == WorkWait then Some(Notified(s)) else None
  }

  /** The state after some steps, if all of them could be made. */
  function Run(s: State, steps: seq<Step>): Option<State>
    decreases |steps|
  {
    if steps == [] then Some(s)
    else var t := Next(s, steps[0]); if t.None? then None else Run(t.value, steps[1..])
  }

  function Initial(threads: set<Tid>): State {
    State(Running, [], None, map t | t in threads + {WORKER} :: if t == WORKER then WorkTop else Idle, [], 0, {}, false)
  }

  // ----- invariants

  predicate Holds(pc: Pc) {
    pc.AddHeld? || pc.AddUnlock? || pc.FlushHeld? || pc.ShutHeld? || pc.ShutUnlock? || pc.WorkLocked? || pc.WorkHeld?
  }

  predicate IsWorker(pc: Pc) {
    pc.WorkTop? || pc.WorkLock? || pc.WorkLocked? || pc.WorkWait? || pc.WorkRelock? || pc.WorkHeld? || pc.WorkRun? || pc.WorkDone?
  }

  /** Past the point where a shutdown has set the state. */
  predicate ShuttingDown(pc: Pc) {
    pc == ShutUnlock || pc == ShutNotify || (pc.FlushLock? && pc.last) || (pc.FlushHeld? && pc.last) || (pc.FlushRun? && pc.last)
  }

  predicate Notifying(pc: Pc) {
    pc == AddUnlock(true) || pc == AddSignal
  }

  predicate Runs(pc: Pc, k: int) {
    (pc.FlushRun? || pc.WorkRun?) && pc.k == k
  }

  /** The mutex is held by whoever is in a critical section, and only the worker does the worker's steps. */
  ghost predicate Guarded(s: State) {
    && WORKER in s.threads
    && (forall t :: t in s.threads ==> (Holds(s.threads[t]) <==> s.lock == Some(t)) && (IsWorker(s.threads[t]) <==> t == WORKER))
    && (s.lock.Some? ==> s.lock.value in s.threads)
  }

  /** Tasks leave the queue once each, in the order in which they were accepted. */
  ghost predicate InOrder(s: State) {
    s.taken <= |s.accepted| && s.tasks == s.accepted[s.taken..]
  }

  ghost predicate Held(threads: map<Tid, Pc>, k: int) {
    exists t :: t in threads && Runs(threads[t], k)
  }

  ghost predicate Hands(threads: map<Tid, Pc>, taken: int, done: set<int>) {
    && (forall k :: k in done ==> 0 <= k < taken)
    && (forall t, k: int {:trigger Runs(threads[t], k)} :: t in threads && Runs(threads[t], k) ==> 0 <= k < taken && k !in done)
    && (forall t, u, k: int {:trigger Runs(threads[t], k), Runs(threads[u], k)} :: t in threads && u in threads && Runs(threads[t], k) && Runs(threads[u], k) ==> t == u)
    && (forall k :: 0 <= k < taken ==> k in done || Held(threads, k))
  }

  /** Of the tasks taken out, each is executed already or in the hands of one thread. */
  ghost predicate InHand(s: State) {
    Hands(s.threads, s.taken, s.done)
  }

  /** The worker does not wait in vain: whenever there is something in the queue, it will be notified. */
  ghost predicate NoLostWakeup(s: State) {
    WORKER in s.threads && s.threads[WORKER] == WorkWait && s.tasks != [] ==>
      exists t :: t in s.threads && Notifying(s.threads[t])
  }

  /** Once a shutdown has set the state nothing is accepted, and once it has flushed nothing is left. */
  ghost predicate Drained(s: State) {
    && (forall t :: t in s.threads && ShuttingDown(s.threads[t]) ==> s.state != Running)
    && (s.flushed ==> s.state != Running && s.tasks == [])
  }

  ghost predicate Inv(s: State) {
    Guarded(s) && InOrder(s) && InHand(s) && NoLostWakeup(s) && Drained(s)
  }

  lemma InitialInv(threads: set<Tid>)
    ensures Inv(Initial(threads))
  {
    var s := Initial(threads);
    assert WORKER in s.threads && s.threads[WORKER] == WorkTop;
    forall t | t in s.threads
      ensures s.threads[t] == if t == WORKER then WorkTop else Idle
    {
    }
    IdleInv(s);
  }

  lemma IdleInv(s: State)
    requires WORKER in s.threads && s.threads[WORKER] == WorkTop && forall t :: t in s.threads && t != WORKER ==> s.threads[t] == Idle
    requires s.lock == None && s.tasks == s.accepted == [] && s.taken == 0 && s.done == {} && !s.flushed
    ensures Inv(s)
  {
    assert forall t :: t in s.threads ==> s.threads[t] == Idle || s.threads[t] == WorkTop;
  }

  // ----- the shape of a step

  /** Thread `t` has moved; if it has notified the worker, the worker has moved too. */
  predicate Moved(s: State, n: State, t: Tid) {
    && t in s.threads && WORKER in s.threads && n.threads.Keys == s.threads.Keys
    && (forall u :: u in s.threads && u != t && u != WORKER ==> n.threads[u] == s.threads[u])
    && (t != WORKER && n.threads[WORKER] != s.threads[WORKER] ==> s.threads[WORKER] == WorkWait && n.threads[WORKER] == WorkRelock)
    && (IsWorker(n.threads[t]) <==> IsWorker(s.threads[t]))
  }

  /** It has left the mutex alone, taken it or given it back. */
  predicate MutexMoved(s: State, n: State, t: Tid)
    requires t in s.threads && t in n.threads
  {
    || (n.lock == s.lock && (Holds(n.threads[t]) <==> Holds(s.threads[t])))
    || (s.lock == None && n.lock == Some(t) && Holds(n.threads[t]))
    || (Holds(s.threads[t]) && n.lock == None && !Holds(n.threads[t]))
  }

  /** It has left the queue alone, put a task in or taken one out. */
  predicate QueueMoved(s: State, n: State, t: Tid)
    requires t in s.threads && t in n.threads
  {
    || (n.tasks == s.tasks && n.accepted == s.accepted && n.taken == s.taken)
    || (&& s.state == Running && n.taken == s.taken && s.threads[t].AddHeld? && n.threads[t] == AddUnlock(s.tasks == [])
        && n.tasks == s.tasks + [s.threads[t].query] && n.accepted == s.accepted + [s.threads[t].query])
    || (s.tasks != [] && n.tasks == s.tasks[1..] && n.accepted == s.accepted && n.taken == s.taken + 1)
  }

  /** It has the task that it has taken out, or it had the one that is done now. */
  predicate HandMoved(s: State, n: State, t: Tid)
    requires t in s.threads && t in n.threads
  {
    || (n.taken == s.taken && n.done == s.done && !IsRunning(s.threads[t]) && !IsRunning(n.threads[t]))
    || (n.taken == s.taken + 1 && n.done == s.done && !IsRunning(s.threads[t]) && Runs(n.threads[t], s.taken))
    || (n.taken == s.taken && IsRunning(s.threads[t]) && !IsRunning(n.threads[t]) && n.done == s.done + {s.threads[t].k})
  }

  /** It has not brought the state back to running, and only a shutdown that finds nothing left ends its flush. */
  predicate ShutMoved(s: State, n: State, t: Tid)
    requires t in s.threads && t in n.threads
  {
    && (n.state == s.state || n.state != Running)
    && (ShuttingDown(n.threads[t]) ==> ShuttingDown(s.threads[t]) || n.state != Running)
    && (n.flushed ==> s.flushed || (ShuttingDown(s.threads[t]) && n.tasks == []))
  }

  predicate IsRunning(pc: Pc) {
    pc.FlushRun? || pc.WorkRun?
  }

  lemma AdderMoves(s: State, t: Tid)
    requires t in s.threads && WORKER in s.threads && Advance(s, t).Some?
    requires forall u :: u in s.threads ==> (IsWorker(s.threads[u]) <==> u == WORKER)
    requires var pc := s.threads[t]; pc.AddLock? || pc.AddHeld? || pc.AddUnlock?
    ensures var n := Advance(s, t).value;
      Moved(s, n, t) && MutexMoved(s, n, t) && QueueMoved(s, n, t) && HandMoved(s, n, t) && ShutMoved(s, n, t)
  {
    hide Notified;
  }

  lemma SignalMoves(s: State, t: Tid)
    requires t in s.threads && WORKER in s.threads && Advance(s, t).Some?
    requires forall u :: u in s.threads ==> (IsWorker(s.threads[u]) <==> u == WORKER)
    requires var pc := s.threads[t]; pc.AddSignal? || pc.ShutNotify?
    ensures var n := Advance(s, t).value;
      Moved(s, n, t) && MutexMoved(s, n, t) && QueueMoved(s, n, t) && HandMoved(s, n, t) && ShutMoved(s, n, t)
  {
  }

  lemma FlusherMoves(s: State, t: Tid)
    requires t in s.threads && WORKER in s.threads && Advance(s, t).Some?
    requires forall u :: u in s.threads ==> (IsWorker(s.threads[u]) <==> u == WORKER)
    requires var pc := s.threads[t]; pc.FlushLock? || pc.FlushHeld? || pc.FlushRun?
    ensures var n := Advance(s, t).value;
      Moved(s, n, t) && MutexMoved(s, n, t) && QueueMoved(s, n, t) && HandMoved(s, n, t) && ShutMoved(s, n, t)
  {
  }

  lemma CloserMoves(s: State, t: Tid)
    requires t in s.threads && WORKER in s.threads && Advance(s, t).Some?
    requires forall u :: u in s.threads ==> (IsWorker(s.threads[u]) <==> u == WORKER)
    requires var pc := s.threads[t]; pc.ShutLock? || pc.ShutHeld? || pc.ShutUnlock?
    ensures var n := Advance(s, t).value;
      Moved(s, n, t) && MutexMoved(s, n, t) && QueueMoved(s, n, t) && HandMoved(s, n, t) && ShutMoved(s, n, t)
  {
    hide Notified;
  }

  lemma WorkerMoves(s: State, t: Tid)
    requires t in s.threads && WORKER in s.threads && Advance(s, t).Some?
    requires forall u :: u in s.threads ==> (IsWorker(s.threads[u]) <==> u == WORKER)
    requires var pc := s.threads[t]; IsWorker(pc)
    ensures var n := Advance(s, t).value;
      Moved(s, n, t) && MutexMoved(s, n, t) && QueueMoved(s, n, t) && HandMoved(s, n, t) && ShutMoved(s, n, t)
  {
  }

  lemma ThreadMoves(s: State, t: Tid)
    requires t in s.threads && WORKER in s.threads && Advance(s, t).Some?
    requires forall u :: u in s.threads ==> (IsWorker(s.threads[u]) <==> u == WORKER)
    ensures var n := Advance(s, t).value;
      Moved(s, n, t) && MutexMoved(s, n, t) && QueueMoved(s, n, t) && HandMoved(s, n, t) && ShutMoved(s, n, t)
  {
    hide Moved, MutexMoved, QueueMoved, HandMoved, ShutMoved;
    var pc := s.threads[t];
    if IsWorker(pc) {
      WorkerMoves(s, t);
    } else if pc.FlushLock? || pc.FlushHeld? || pc.FlushRun? {
      FlusherMoves(s, t);
    } else if pc.ShutLock? || pc.ShutHeld? || pc.ShutUnlock? {
      CloserMoves(s, t);
    } else if pc.AddSignal? || pc.ShutNotify? {
      SignalMoves(s, t);
    } else {
      AdderMoves(s, t);
    }
  }

  function Mover(st: Step): Tid {
    if st.Stop? || st.Spurious? then WORKER else st.t
  }

  /** Every step is the move of one thread, apart from the change of the state that `stop` makes. */
  lemma StepMoves(s: State, st: Step) returns (t: Tid)
    requires Guarded(s) && Next(s, st).Some?
    ensures t == Mover(st)
    ensures var n := Next(s, st).value;
      && Moved(s, n, t) && MutexMoved(s, n, t) && QueueMoved(s, n, t) && ShutMoved(s, n, t)
      && (HandMoved(s, n, t) || (st.Stop? && n == s.(state := Closing)))
  {
    t := Mover(st);
    if st.Go? {
      ThreadMoves(s, t);
    }
  }

  // ----- every step keeps the invariants

  lemma GuardedStep(s: State, st: Step)
    requires Guarded(s) && Next(s, st).Some?
    ensures Guarded(Next(s, st).value)
  {
    hide Next, HandMoved, QueueMoved;
    var t := StepMoves(s, st);
  }

  lemma InOrderStep(s: State, st: Step)
    requires Guarded(s) && InOrder(s) && Next(s, st).Some?
    ensures InOrder(Next(s, st).value)
  {
    hide Next, Guarded, HandMoved, MutexMoved;
    var t := StepMoves(s, st);
    var n := Next(s, st).value;
    if n.taken == s.taken + 1 {
      assert s.accepted[s.taken..][1..] == s.accepted[s.taken + 1..];
    } else if n.accepted != s.accepted {
      assert n.accepted[s.taken..] == s.accepted[s.taken..] + [s.threads[t].query];
    }
  }

  lemma InHandStep(s: State, st: Step)
    requires Guarded(s) && InHand(s) && Next(s, st).Some?
    ensures InHand(Next(s, st).value)
  {
    hide Next, Guarded, QueueMoved, MutexMoved, HandMoved, Hands, Moved;
    var t := StepMoves(s, st);
    var n := Next(s, st).value;
    if HandMoved(s, n, t) {
      HandsMove(s, n, t);
    }
  }

  lemma HandsMove(s: State, n: State, t: Tid)
    requires InHand(s) && Moved(s, n, t) && HandMoved(s, n, t)
    ensures InHand(n)
  {
    hide Moved, HandMoved, InHand, Hands, Runs;
    forall k | k in n.done
      ensures 0 <= k < n.taken
    {
      DoneWasTaken(s, n, t, k);
    }
    forall u: Tid, k: int {:trigger Runs(n.threads[u], k)} | u in n.threads && Runs(n.threads[u], k)
      ensures 0 <= k < n.taken && k !in n.done
    {
      OneHand(s, n, t, u, k);
    }
    forall u: Tid, v: Tid, k: int {:trigger Runs(n.threads[u], k), Runs(n.threads[v], k)} | u in n.threads && v in n.threads && Runs(n.threads[u], k) && Runs(n.threads[v], k)
      ensures u == v
    {
      SameHand(s, n, t, u, v, k);
    }
    forall k | 0 <= k < n.taken
      ensures k in n.done || Held(n.threads, k)
    {
      DoneOrInHand(s, n, t, k);
    }
    HandsOf(n);
  }

  lemma HandsOf(n: State)
    requires forall k :: k in n.done ==> 0 <= k < n.taken
    requires forall t, k: int {:trigger Runs(n.threads[t], k)} :: t in n.threads && Runs(n.threads[t], k) ==> 0 <= k < n.taken && k !in n.done
    requires forall t, u, k: int {:trigger Runs(n.threads[t], k), Runs(n.threads[u], k)} :: t in n.threads && u in n.threads && Runs(n.threads[t], k) && Runs(n.threads[u], k) ==> t == u
    requires forall k :: 0 <= k < n.taken ==> k in n.done || Held(n.threads, k)
    ensures InHand(n)
  {
  }

  lemma DoneWasTaken(s: State, n: State, t: Tid, k: int)
    requires InHand(s) && Moved(s, n, t) && HandMoved(s, n, t) && k in n.done
    ensures 0 <= k < n.taken
  {
    assert IsRunning(s.threads[t]) ==> Runs(s.threads[t], s.threads[t].k);
  }

  lemma SameHand(s: State, n: State, t: Tid, u: Tid, v: Tid, k: int)
    requires InHand(s) && Moved(s, n, t) && HandMoved(s, n, t)
    requires u in n.threads && v in n.threads && Runs(n.threads[u], k) && Runs(n.threads[v], k)
    ensures u == v
  {
    hide Moved, HandMoved, Runs;
    OneHand(s, n, t, u, k);
    OneHand(s, n, t, v, k);
  }

  /** What was taken out stays in somebody's hands until it is done. */
  lemma DoneOrInHand(s: State, n: State, t: Tid, k: int)
    requires InHand(s) && Moved(s, n, t) && HandMoved(s, n, t) && 0 <= k < n.taken
    ensures k in n.done || Held(n.threads, k)
  {
    if k == s.taken {
      assert Runs(n.threads[t], k);
    } else if k !in s.done {
      assert Held(s.threads, k);
      var u :| u in s.threads && Runs(s.threads[u], k);
      SameHands(s, n, t);
      if u != t {
        assert Runs(n.threads[u], k);
      } else if IsRunning(n.threads[t]) {
        assert false;
      } else {
        assert k == s.threads[t].k;
      }
    }
  }

  /** Who has a task after a step had it before, or has just taken it. */
  lemma OneHand(s: State, n: State, t: Tid, u: Tid, k: int)
    requires InHand(s) && Moved(s, n, t) && HandMoved(s, n, t) && u in n.threads && Runs(n.threads[u], k)
    ensures 0 <= k < n.taken && k !in n.done
    ensures if k < s.taken then u in s.threads && u != t && Runs(s.threads[u], k) else u == t
  {
    SameHands(s, n, t);
    assert IsRunning(s.threads[t]) ==> Runs(s.threads[t], s.threads[t].k);
    if u == t {
      assert k == s.taken;
    } else if IsRunning(s.threads[t]) {
      assert k != s.threads[t].k;
    }
    assert k !in n.done;
  }

  lemma SameHands(s: State, n: State, t: Tid)
    requires Moved(s, n, t)
    ensures forall u, k: int :: u in s.threads && u != t ==> (Runs(n.threads[u], k) <==> Runs(s.threads[u], k))
  {
  }

  lemma NoLostWakeupStep(s: State, st: Step)
    requires Guarded(s) && NoLostWakeup(s) && Next(s, st).Some?
    ensures NoLostWakeup(Next(s, st).value)
  {
    hide Next, Guarded;
    var n := Next(s, st).value;
    if WORKER in n.threads && n.threads[WORKER] == WorkWait && n.tasks != [] {
      WaitsAfter(s, st);
    }
  }

  /** Who still notifies a worker that waits although there is something in the queue. */
  lemma WaitsAfter(s: State, st: Step)
    requires Guarded(s) && NoLostWakeup(s) && Next(s, st).Some?
    requires var n := Next(s, st).value; WORKER in n.threads && n.threads[WORKER] == WorkWait && n.tasks != []
    ensures var n := Next(s, st).value; exists t :: t in n.threads && Notifying(n.threads[t])
  {
    hide Next;
    var n := Next(s, st).value;
    var t: Tid;
    if s.threads[WORKER] == WorkWait && s.tasks != [] {
      var u :| u in s.threads && Notifying(s.threads[u]);
      StillNotifies(s, st, u);
      t := u;
    } else {
      t := NewlyNotifies(s, st);
    }
    assert t in n.threads && Notifying(n.threads[t]);
  }

  /** A thread that is about to notify does so, unless the worker has been woken. */
  lemma StillNotifies(s: State, st: Step, u: Tid)
    requires Guarded(s) && Next(s, st).Some? && u in s.threads && Notifying(s.threads[u])
    requires var n := Next(s, st).value; WORKER in n.threads && s.threads[WORKER] == n.threads[WORKER] == WorkWait
    ensures var n := Next(s, st).value; u in n.threads && Notifying(n.threads[u])
  {
    if st != Go(u) {
      hide Advance;
      MovesOther(s, st, u);
    }
  }

  lemma MovesOther(s: State, st: Step, u: Tid)
    requires Guarded(s) && Next(s, st).Some? && u in s.threads && u != WORKER && s.threads[u] != Idle && st != Go(u)
    ensures var n := Next(s, st).value; u in n.threads && n.threads[u] == s.threads[u]
  {
    hide Advance, MutexMoved, QueueMoved, HandMoved;
    var t := StepMoves(s, st);
  }

  /** Only the thread that puts a task into an empty queue can make the worker wait for a task. */
  lemma NewlyNotifies(s: State, st: Step) returns (t: Tid)
    requires Guarded(s) && Next(s, st).Some? && (s.threads[WORKER] != WorkWait || s.tasks == [])
    requires var n := Next(s, st).value; WORKER in n.threads && n.threads[WORKER] == WorkWait && n.tasks != []
    ensures var n := Next(s, st).value; t in n.threads && Notifying(n.threads[t])
  {
    t := if st.Go? then st.t else WORKER;
  }

  lemma DrainedStep(s: State, st: Step)
    requires Guarded(s) && Drained(s) && Next(s, st).Some?
    ensures Drained(Next(s, st).value)
  {
    hide Next, HandMoved, MutexMoved;
    var n := Next(s, st).value;
    var t := StepMoves(s, st);
    forall u | u in n.threads && ShuttingDown(n.threads[u])
      ensures n.state != Running
    {
      if u != t && u != WORKER {
        assert ShuttingDown(s.threads[u]);
      }
    }
  }

  lemma NextInv(s: State, st: Step)
    requires Inv(s) && Next(s, st).Some?
    ensures Inv(Next(s, st).value)
  {
    hide Guarded, InOrder, InHand, NoLostWakeup, Drained, Next;
    GuardedStep(s, st);
    InOrderStep(s, st);
    InHandStep(s, st);
    NoLostWakeupStep(s, st);
    DrainedStep(s, st);
  }

  lemma {:induction false} RunInv(s: State, steps: seq<Step>)
    requires Inv(s) && Run(s, steps).Some?
    ensures Inv(Run(s, steps).value)
    decreases |steps|
  {
    hide Inv, Next;
    if steps != [] {
      NextInv(s, steps[0]);
      RunInv(Next(s, steps[0]).value, steps[1..]);
    }
  }

  // ----- what follows

  /** In every interleaving: what was taken out and what is still queued are together the accepted tasks
      in the order of their acceptance, and each task taken out is executed or in one thread's hands. */
  lemma EveryTaskOnce(threads: set<Tid>, steps: seq<Step>)
    requires Run(Initial(threads), steps).Some?
    ensures var s := Run(Initial(threads), steps).value;
      s.taken <= |s.accepted| && s.accepted == s.accepted[..s.taken] + s.tasks && InHand(s)
  {
    hide Run, InHand, Guarded, NoLostWakeup, Drained;
    InitialInv(threads);
    RunInv(Initial(threads), steps);
    var s := Run(Initial(threads), steps).value;
    assert s.accepted == s.accepted[..s.taken] + s.accepted[s.taken..];
  }

  // ----- which tasks are accepted

  /** What the look of an adder at the state decides: a running queue takes the query, as the last one;
      any other takes nothing. */
  lemma AddStep(s: State, t: Tid)
    requires t in s.threads && s.threads[t].AddHeld?
    ensures Next(s, Go(t)).Some?
    ensures var q, n := s.threads[t].query, Next(s, Go(t)).value;
      if s.state == Running then n.accepted == s.accepted + [q] && n.tasks == s.tasks + [q]
      else n.accepted == s.accepted && n.tasks == s.tasks
  {
  }

  /** The query that a step accepts, if it accepts one. */
  function Look(s: State, st: Step): seq<string> {
    if st.Go? && st.t in s.threads && s.threads[st.t].AddHeld? && s.state == Running then [s.threads[st.t].query] else []
  }

  /** The queries whose adders have looked at a running state, in the order of those looks. */
  function Looks(s: State, steps: seq<Step>): seq<string>
    decreases |steps|
  {
    if steps == [] || Next(s, steps[0]).None? then []
    else Look(s, steps[0]) + Looks(Next(s, steps[0]).value, steps[1..])
  }

  lemma LookStep(s: State, st: Step)
    requires Guarded(s) && Next(s, st).Some?
    ensures Next(s, st).value.accepted == s.accepted + Look(s, st)
  {
    hide Guarded, Notified;
    NotifiedSame(s);
    assert s.accepted + [] == s.accepted;
    if st.Go? {
      NotifiedSame(At(s, st.t, Idle));
    }
  }

  lemma NotifiedSame(s: State)
    ensures Notified(s) == s.(threads := Notified(s).threads)
  {
  }

  /** Over every run, exactly those queries are accepted, in that order. */
  lemma {:induction false} AcceptedAreLooks(s: State, steps: seq<Step>)
    requires Guarded(s) && Run(s, steps).Some?
    ensures Run(s, steps).value.accepted == s.accepted + Looks(s, steps)
    decreases |steps|
  {
    hide Guarded, Next;
    if steps == [] {
      assert s.accepted + [] == s.accepted;
    } else {
      var n := Next(s, steps[0]).value;
      GuardedStep(s, steps[0]);
      LookStep(s, steps[0]);
      AcceptedAreLooks(n, steps[1..]);
      assert s.accepted + Look(s, steps[0]) + Looks(n, steps[1..]) == s.accepted + (Look(s, steps[0]) + Looks(n, steps[1..]));
    }
  }

  // ----- what each operation does when nothing else goes on

  lemma {:induction false} AloneThen(s: State, t: Tid, m: nat, mid: State, n: nat, end: State)
    requires Run(s, Alone(t, m)) == Some(mid) && Run(mid, Alone(t, n)) == Some(end)
    ensures Run(s, Alone(t, m + n)) == Some(end)
    decreases m
  {
    hide Next;
    if m > 0 {
      assert ([Go(t)] + Alone(t, m - 1))[1..] == Alone(t, m - 1);
      AloneThen(Next(s, Go(t)).value, t, m - 1, mid, n, end);
      assert ([Go(t)] + Alone(t, m - 1 + n))[1..] == Alone(t, m - 1 + n);
    }
  }

  lemma AloneOne(s: State, t: Tid, n: State)
    requires Next(s, Go(t)) == Some(n)
    ensures Run(s, Alone(t, 1)) == Some(n)
  {
    assert Alone(t, 1) == [Go(t)] && [Go(t)][1..] == [];
  }

  lemma AloneTwo(s: State, t: Tid, a: State, b: State)
    requires Next(s, Go(t)) == Some(a) && Next(a, Go(t)) == Some(b)
    ensures Run(s, Alone(t, 2)) == Some(b)
  {
    hide Next, Alone, Run;
    AloneOne(s, t, a);
    AloneOne(a, t, b);
    AloneThen(s, t, 1, a, 1, b);
  }

  /** Operations begin with idle threads that are not the worker's, one at a time. */
  lemma Begins(s: State, t: Tid, query: string)
    ensures var idle := t in s.threads && s.threads[t] == Idle && t != WORKER;
      && Next(s, Add(t, query)) == (if idle then Some(s.(threads := s.threads[t := AddLock(query)])) else None)
      && Next(s, Flush(t)) == (if idle then Some(s.(threads := s.threads[t := FlushLock(false)])) else None)
      && Next(s, Shutdown(t)) == (if idle then Some(s.(threads := s.threads[t := ShutLock])) else None)
      && Next(s, Stop) == Some(s.(state := Closing))
  {
  }

  /** An add takes the query if the queue is running, and tells a worker that waits if the queue was empty. */
  lemma AddAlone(s: State, t: Tid) returns (n: nat)
    requires Guarded(s) && s.lock == None && t in s.threads && s.threads[t].AddLock?
    ensures var q := s.threads[t].query;
      var added := if s.state == Running then s.(tasks := s.tasks + [q], accepted := s.accepted + [q]) else s;
      var end := At(added, t, Idle);
      Run(s, Alone(t, n)) == Some(if s.state == Running && s.tasks == [] then Notified(end) else end)
  {
    hide Run, Alone;
    var q := s.threads[t].query;
    var a := At(s, t, AddHeld(q)).(lock := Some(t));
    var signal := s.state == Running && s.tasks == [];
    var b := At(a, t, AddUnlock(signal));
    if s.state == Running {
      b := b.(tasks := s.tasks + [q], accepted := s.accepted + [q]);
    }
    var c := At(b, t, if signal then AddSignal else Idle).(lock := None);
    AloneTwo(s, t, a, b);
    AloneOne(b, t, c);
    AloneThen(s, t, 2, b, 1, c);
    n := 3;
    if signal {
      var d := Notified(At(c, t, Idle));
      AloneOne(c, t, d);
      AloneThen(s, t, 3, c, 1, d);
      n := 4;
    }
    var added := if s.state == Running then s.(tasks := s.tasks + [q], accepted := s.accepted + [q]) else s;
    assert s.threads[t := AddHeld(q)][t := AddUnlock(signal)][t := AddSignal][t := Idle] == s.threads[t := Idle];
    assert s.threads[t := AddHeld(q)][t := AddUnlock(signal)][t := Idle] == s.threads[t := Idle];
  }

  /** The tasks from number `a` on, up to `b`. */
  function Numbers(a: int, b: int): set<int>
    decreases b - a
  {
    if a >= b then {} else {a} + Numbers(a + 1, b)
  }

  /** One round of a flush: the first task leaves the queue and is executed. */
  lemma FlushRound(s: State, t: Tid)
    requires s.lock == None && t in s.threads && s.threads[t].FlushLock? && s.tasks != []
    ensures Run(s, Alone(t, 3)) == Some(s.(tasks := s.tasks[1..], taken := s.taken + 1, done := s.done + {s.taken}))
  {
    hide Run, Alone;
    var last := s.threads[t].last;
    var a := At(s, t, FlushHeld(last)).(lock := Some(t));
    var b := At(a, t, FlushRun(s.taken, last)).(lock := None, tasks := s.tasks[1..], taken := s.taken + 1);
    var c := At(b, t, FlushLock(last)).(done := s.done + {s.taken});
    AloneTwo(s, t, a, b);
    AloneOne(b, t, c);
    AloneThen(s, t, 2, b, 1, c);
    assert s.threads[t := FlushHeld(last)][t := FlushRun(s.taken, last)][t := FlushLock(last)] == s.threads;
  }

  /** A flush executes all that is queued, in order, and is over when nothing is left. */
  lemma {:induction false} FlushAlone(s: State, t: Tid) returns (n: nat)
    requires s.lock == None && t in s.threads && s.threads[t].FlushLock?
    ensures var last := s.threads[t].last;
      Run(s, Alone(t, n)) == Some(At(s, t, if last then ShutNotify else Idle).(
        tasks := [], taken := s.taken + |s.tasks|, done := s.done + Numbers(s.taken, s.taken + |s.tasks|), flushed := s.flushed || last))
    decreases |s.tasks|
  {
    hide Run, Alone;
    var last := s.threads[t].last;
    if s.tasks == [] {
      var a := At(s, t, FlushHeld(last)).(lock := Some(t));
      var b := At(a, t, if last then ShutNotify else Idle).(lock := None, flushed := s.flushed || last);
      AloneTwo(s, t, a, b);
      n := 2;
      assert s.done + Numbers(s.taken, s.taken) == s.done;
      assert s.threads[t := FlushHeld(last)][t := if last then ShutNotify else Idle] == s.threads[t := if last then ShutNotify else Idle];
    } else {
      var mid := s.(tasks := s.tasks[1..], taken := s.taken + 1, done := s.done + {s.taken});
      FlushRound(s, t);
      var m := FlushAlone(mid, t);
      n := 3 + m;
      assert mid.done + Numbers(mid.taken, mid.taken + |mid.tasks|) == s.done + Numbers(s.taken, s.taken + |s.tasks|);
      AloneThen(s, t, 3, mid, m, Run(mid, Alone(t, m)).value);
    }
  }

  /** A shutdown terminates the queue, executes what is left in it, and tells the worker. */
  lemma ShutdownAlone(s: State, t: Tid) returns (n: nat)
    requires s.lock == None && t in s.threads && s.threads[t] == ShutLock
    ensures Run(s, Alone(t, n)) == Some(Notified(At(s, t, Idle).(
      state := Terminated, tasks := [], taken := s.taken + |s.tasks|,
      done := s.done + Numbers(s.taken, s.taken + |s.tasks|), flushed := true)))
  {
    hide Run, Alone;
    var c := At(s, t, FlushLock(true)).(state := Terminated);
    ShutBegins(s, t);
    var m := FlushAlone(c, t);
    var d := Run(c, Alone(t, m)).value;
    AloneThen(s, t, 3, c, m, d);
    var e := Notified(At(d, t, Idle));
    AloneOne(d, t, e);
    AloneThen(s, t, 3 + m, d, 1, e);
    n := 3 + m + 1;
    assert s.threads[t := FlushLock(true)][t := ShutNotify][t := Idle] == s.threads[t := Idle];
  }

  lemma ShutBegins(s: State, t: Tid)
    requires s.lock == None && t in s.threads && s.threads[t] == ShutLock
    ensures Run(s, Alone(t, 3)) == Some(At(s, t, FlushLock(true)).(state := Terminated))
  {
    hide Run, Alone;
    var a := At(s, t, ShutHeld).(lock := Some(t));
    var b := At(a, t, ShutUnlock).(state := Terminated);
    var c := At(b, t, FlushLock(true)).(lock := None);
    AloneTwo(s, t, a, b);
    AloneOne(b, t, c);
    AloneThen(s, t, 2, b, 1, c);
    assert s.threads[t := ShutHeld][t := ShutUnlock][t := FlushLock(true)] == s.threads[t := FlushLock(true)];
  }

  /** One round of the worker: the first task leaves the queue and is executed. */
  lemma WorkRound(s: State)
    requires s.lock == None && WORKER in s.threads && s.threads[WORKER] == WorkTop && s.state != Terminated && s.tasks != []
    ensures Run(s, Alone(WORKER, 5)) == Some(s.(tasks := s.tasks[1..], taken := s.taken + 1, done := s.done + {s.taken}))
  {
    hide Run, Alone, Next;
    var b := At(s, WORKER, WorkLocked).(lock := Some(WORKER));
    var d := At(s, WORKER, WorkRun(s.taken)).(tasks := s.tasks[1..], taken := s.taken + 1);
    WorkEnters(s);
    WorkTakes(b, s);
    AloneThen(s, WORKER, 2, b, 2, d);
    WorkDoes(d, s);
    AloneThen(s, WORKER, 4, d, 1, s.(tasks := s.tasks[1..], taken := s.taken + 1, done := s.done + {s.taken}));
  }

  lemma WorkEnters(s: State)
    requires s.lock == None && WORKER in s.threads && s.threads[WORKER] == WorkTop && s.state != Terminated
    ensures Run(s, Alone(WORKER, 2)) == Some(At(s, WORKER, WorkLocked).(lock := Some(WORKER)))
  {
    hide Run, Alone;
    var a := At(s, WORKER, WorkLock);
    AloneTwo(s, WORKER, a, At(a, WORKER, WorkLocked).(lock := Some(WORKER)));
    assert s.threads[WORKER := WorkLock][WORKER := WorkLocked] == s.threads[WORKER := WorkLocked];
  }

  lemma WorkTakes(b: State, s: State)
    requires b == At(s, WORKER, WorkLocked).(lock := Some(WORKER)) && s.tasks != [] && s.lock == None
    ensures Run(b, Alone(WORKER, 2)) == Some(At(s, WORKER, WorkRun(s.taken)).(tasks := s.tasks[1..], taken := s.taken + 1))
  {
    hide Run, Alone;
    var c := At(b, WORKER, WorkHeld);
    AloneTwo(b, WORKER, c, At(c, WORKER, WorkRun(s.taken)).(lock := None, tasks := s.tasks[1..], taken := s.taken + 1));
    assert s.threads[WORKER := WorkLocked][WORKER := WorkHeld][WORKER := WorkRun(s.taken)] == s.threads[WORKER := WorkRun(s.taken)];
  }

  lemma WorkDoes(d: State, s: State)
    requires WORKER in s.threads && s.threads[WORKER] == WorkTop && s.tasks != []
    requires d == At(s, WORKER, WorkRun(s.taken)).(tasks := s.tasks[1..], taken := s.taken + 1)
    ensures Run(d, Alone(WORKER, 1)) == Some(s.(tasks := s.tasks[1..], taken := s.taken + 1, done := s.done + {s.taken}))
  {
    hide Run, Alone;
    AloneOne(d, WORKER, At(d, WORKER, WorkTop).(done := s.done + {s.taken}));
    assert s.threads[WORKER := WorkRun(s.taken)][WORKER := WorkTop] == s.threads;
  }

  /** A worker that is not told to end executes all that is queued, in order, and then waits. */
  lemma {:induction false} WorkAlone(s: State) returns (n: nat)
    requires s.lock == None && WORKER in s.threads && s.threads[WORKER] == WorkTop && s.state != Terminated
    ensures Run(s, Alone(WORKER, n)) == Some(At(s, WORKER, WorkWait).(
      tasks := [], taken := s.taken + |s.tasks|, done := s.done + Numbers(s.taken, s.taken + |s.tasks|)))
    decreases |s.tasks|
  {
    hide Run, Alone;
    if s.tasks == [] {
      WorkEnters(s);
      var b := At(s, WORKER, WorkLocked).(lock := Some(WORKER));
      var c := At(b, WORKER, WorkWait).(lock := None);
      AloneOne(b, WORKER, c);
      AloneThen(s, WORKER, 2, b, 1, c);
      n := 3;
      assert s.done + Numbers(s.taken, s.taken) == s.done;
      assert s.threads[WORKER := WorkLocked][WORKER := WorkWait] == s.threads[WORKER := WorkWait];
    } else {
      var mid := s.(tasks := s.tasks[1..], taken := s.taken + 1, done := s.done + {s.taken});
      WorkRound(s);
      var m := WorkAlone(mid);
      n := 5 + m;
      assert mid.done + Numbers(mid.taken, mid.taken + |mid.tasks|) == s.done + Numbers(s.taken, s.taken + |s.tasks|);
      AloneThen(s, WORKER, 5, mid, m, Run(mid, Alone(WORKER, m)).value);
    }
  }

  // ----- what follows for the worker

  /** A worker that waits although there is something in the queue is woken by a thread that needs
      nobody else to do it: after one or two steps of its own. */
  lemma WorkerIsWoken(s: State) returns (t: Tid, n: nat)
    requires Inv(s) && s.threads[WORKER] == WorkWait && s.tasks != []
    ensures 1 <= n <= 2 && Run(s, seq(n, _ => Go(t))).Some?
    ensures var end := Run(s, seq(n, _ => Go(t))).value; WORKER in end.threads && end.threads[WORKER] == WorkRelock
  {
    t :| t in s.threads && Notifying(s.threads[t]);
    assert t != WORKER;
    var one := Next(s, Go(t)).value;
    if s.threads[t] == AddSignal {
      n := 1;
      assert seq(1, _ => Go(t)) == [Go(t)] && [Go(t)][1..] == [];
      assert Run(s, [Go(t)]) == Some(one);
    } else {
      n := 2;
      var two := Next(one, Go(t)).value;
      assert seq(2, _ => Go(t)) == [Go(t), Go(t)] && [Go(t), Go(t)][1..] == [Go(t)] && [Go(t)][1..] == [];
      assert Run(one, [Go(t)]) == Some(two);
    }
  }

  /** Once a shutdown has flushed, the queue is empty and nothing is accepted any more. */
  lemma {:induction false} NothingAfterShutdown(s: State, steps: seq<Step>)
    requires Inv(s) && s.flushed && Run(s, steps).Some?
    ensures var t := Run(s, steps).value; t.tasks == [] && t.accepted == s.accepted && t.flushed
    decreases |steps|
  {
    if steps != [] {
      NextInv(s, steps[0]);
      NoneAccepted(s, steps[0]);
      NothingAfterShutdown(Next(s, steps[0]).value, steps[1..]);
    }
  }

  lemma NoneAccepted(s: State, st: Step)
    requires Guarded(s) && Drained(s) && s.flushed && Next(s, st).Some?
    ensures var n := Next(s, st).value; n.accepted == s.accepted && n.flushed
  {
  }

  // ----- when the worker ends

  /** All is done after a shutdown, but for what the worker has yet to do. */
  ghost predicate Quiet(s: State) {
    && Guarded(s) && WORKER in s.threads && s.state == Terminated && s.tasks == []
    && forall t :: t in s.threads && t != WORKER ==> s.threads[t] == Idle
  }

  /** On the way to a wait that nobody will end, or in it. */
  predicate Stuck(pc: Pc) {
    pc == WorkLock || pc == WorkLocked || pc == WorkWait
  }

  /** Steps of one thread while all others rest. */
  function Alone(t: Tid, n: nat): (steps: seq<Step>)
    ensures |steps| == n
  {
    if n == 0 then [] else [Go(t)] + Alone(t, n - 1)
  }

  /** The worker gets to its end without anybody's help. */
  ghost predicate WorkerEnds(s: State) {
    exists n: nat :: EndsIn(s, n)
  }

  predicate EndsIn(s: State, n: nat) {
    var r := Run(s, Alone(WORKER, n));
    r.Some? && WORKER in r.value.threads && r.value.threads[WORKER] == WorkDone
  }

  function StepsLeft(pc: Pc): nat {
    match pc
    case WorkDone => 0
    case WorkTop => 1
    case WorkRelock => 3
    case _ => 2
  }

  lemma QuietStep(s: State)
    requires Quiet(s)
    ensures var pc, n := s.threads[WORKER], Next(s, Go(WORKER));
      && (n.Some? ==> Quiet(n.value) && (Stuck(pc) <==> Stuck(n.value.threads[WORKER])))
      && (!Stuck(pc) && pc != WorkDone ==> n.Some? && StepsLeft(n.value.threads[WORKER]) < StepsLeft(pc))
  {
    if s.lock.Some? {
      var u := s.lock.value;
      assert u in s.threads && s.lock == Some(u);
      assert Holds(s.threads[u]);
      assert u == WORKER;
    }
    if Next(s, Go(WORKER)).Some? {
      GuardedStep(s, Go(WORKER));
      MoversAlone(s);
    }
  }

  lemma MoversAlone(s: State)
    requires Quiet(s) && Next(s, Go(WORKER)).Some?
    ensures var n := Next(s, Go(WORKER)).value;
      n.threads.Keys == s.threads.Keys && forall t :: t in s.threads && t != WORKER ==> n.threads[t] == s.threads[t]
  {
    hide Advance, MutexMoved, QueueMoved, HandMoved;
    var t := StepMoves(s, Go(WORKER));
  }

  lemma {:induction false} Finishes(s: State) returns (n: nat)
    requires Quiet(s) && !Stuck(s.threads[WORKER])
    ensures EndsIn(s, n)
    decreases StepsLeft(s.threads[WORKER])
  {
    hide Advance, Guarded;
    if s.threads[WORKER] == WorkDone {
      n := 0;
    } else {
      QuietStep(s);
      var next := Next(s, Go(WORKER)).value;
      n := Finishes(next);
      assert ([Go(WORKER)] + Alone(WORKER, n))[1..] == Alone(WORKER, n);
      n := n + 1;
    }
  }

  lemma {:induction false} StaysStuck(s: State, n: nat)
    requires Quiet(s) && Stuck(s.threads[WORKER])
    ensures !EndsIn(s, n)
    decreases n
  {
    hide Advance, Guarded;
    if n > 0 && Next(s, Go(WORKER)).Some? {
      QuietStep(s);
      StaysStuck(Next(s, Go(WORKER)).value, n - 1);
      assert ([Go(WORKER)] + Alone(WORKER, n - 1))[1..] == Alone(WORKER, n - 1);
    }
  }

  /** After a shutdown the worker ends if and only if it is not waiting, nor past its look at the state
      and on its way to the wait. */
  lemma WorkerEndsExactly(s: State)
    requires Quiet(s)
    ensures WorkerEnds(s) <==> !Stuck(s.threads[WORKER])
  {
    hide EndsIn, Guarded;
    if Stuck(s.threads[WORKER]) {
      forall n: nat
        ensures !EndsIn(s, n)
      {
        StaysStuck(s, n);
      }
    } else {
      var n := Finishes(s);
    }
  }

  /** The notification of a shutdown ends the worker if and only if it does not come between the worker's
      look at the state and its wait. */
  lemma ShutdownEndsExactly(s: State, t: Tid)
    requires Guarded(s) && s.state == Terminated && s.tasks == [] && t in s.threads && s.threads[t] == ShutNotify
    requires forall u :: u in s.threads && u != WORKER && u != t ==> s.threads[u] == Idle
    ensures Next(s, Go(t)).Some?
    ensures WorkerEnds(Next(s, Go(t)).value) <==> s.threads[WORKER] != WorkLock && s.threads[WORKER] != WorkLocked
  {
    hide WorkerEnds;
    GuardedStep(s, Go(t));
    WorkerEndsExactly(Next(s, Go(t)).value);
  }

  /** The worker and one other thread, with an empty queue and an unlocked or locked mutex. */
  function Two(state: ThreadState, lock: Option<Tid>, worker: Pc, other: Pc, flushed: bool): State {
    State(state, [], lock, map[WORKER := worker, 1 := other], [], 0, {}, flushed)
  }

  /** A shutdown can be over with the worker asleep: its only notification comes between the worker's
      look at the state and its wait.  From there only a spurious wakeup ends that sleep in one step. */
  lemma MissedShutdown()
    ensures Run(Initial({1}), [Go(WORKER), Shutdown(1), Go(1), Go(1), Go(1), Go(1), Go(1), Go(1), Go(WORKER), Go(WORKER)]) ==
      Some(Two(Terminated, None, WorkWait, Idle, true))
    ensures forall st :: var n := Next(Two(Terminated, None, WorkWait, Idle, true), st);
      n.Some? && n.value.threads[WORKER] != WorkWait ==> st == Spurious
  {
    hide Run, Next, Initial, Two;
    OnlySpurious();
    var start := [Go(WORKER), Shutdown(1), Go(1), Go(1), Go(1)];
    var rest := [Go(1), Go(1), Go(1), Go(WORKER), Go(WORKER)];
    assert start + rest == [Go(WORKER), Shutdown(1), Go(1), Go(1), Go(1), Go(1), Go(1), Go(1), Go(WORKER), Go(WORKER)];
    ShutsDown();
    FallsAsleep();
    RunConcat(Initial({1}), start, rest);
  }

  lemma OnlySpurious()
    ensures forall st :: var n := Next(Two(Terminated, None, WorkWait, Idle, true), st);
      n.Some? && n.value.threads[WORKER] != WorkWait ==> st == Spurious
  {
  }

  lemma ShutsDown()
    ensures Run(Initial({1}), [Go(WORKER), Shutdown(1), Go(1), Go(1), Go(1)]) == Some(Two(Terminated, None, WorkLock, FlushLock(true), false))
  {
    hide Run;
    var s0 := Initial({1});
    assert s0.threads == map[WORKER := WorkTop, 1 := Idle];
    var s1 := Next(s0, Go(WORKER)).value;
    var s2 := Next(s1, Shutdown(1)).value;
    var s3 := Next(s2, Go(1)).value;
    var s4 := Next(s3, Go(1)).value;
    var s5 := Next(s4, Go(1)).value;
    assert s5.threads == map[WORKER := WorkLock, 1 := FlushLock(true)];
    RunFive(s0, s1, s2, s3, s4, s5, [Go(WORKER), Shutdown(1), Go(1), Go(1), Go(1)]);
  }

  lemma FallsAsleep()
    ensures Run(Two(Terminated, None, WorkLock, FlushLock(true), false), [Go(1), Go(1), Go(1), Go(WORKER), Go(WORKER)]) ==
      Some(Two(Terminated, None, WorkWait, Idle, true))
  {
    hide Run, Next, Two;
    var s0 := Two(Terminated, None, WorkLock, FlushLock(true), false);
    var s1 := Two(Terminated, Some(1), WorkLock, FlushHeld(true), false);
    var s2 := Two(Terminated, None, WorkLock, ShutNotify, true);
    var s3 := Two(Terminated, None, WorkLock, Idle, true);
    var s4 := Two(Terminated, Some(WORKER), WorkLocked, Idle, true);
    var s5 := Two(Terminated, None, WorkWait, Idle, true);
    FlushEnds();
    CloserLeaves();
    WorkerWaits();
    RunFive(s0, s1, s2, s3, s4, s5, [Go(1), Go(1), Go(1), Go(WORKER), Go(WORKER)]);
  }

  lemma FlushEnds()
    ensures Next(Two(Terminated, None, WorkLock, FlushLock(true), false), Go(1)) == Some(Two(Terminated, Some(1), WorkLock, FlushHeld(true), false))
    ensures Next(Two(Terminated, Some(1), WorkLock, FlushHeld(true), false), Go(1)) == Some(Two(Terminated, None, WorkLock, ShutNotify, true))
  {
    TwoStep(Two(Terminated, None, WorkLock, FlushLock(true), false), 1, Two(Terminated, Some(1), WorkLock, FlushHeld(true), false));
    TwoStep(Two(Terminated, Some(1), WorkLock, FlushHeld(true), false), 1, Two(Terminated, None, WorkLock, ShutNotify, true));
  }

  lemma CloserLeaves()
    ensures Next(Two(Terminated, None, WorkLock, ShutNotify, true), Go(1)) == Some(Two(Terminated, None, WorkLock, Idle, true))
  {
    TwoStep(Two(Terminated, None, WorkLock, ShutNotify, true), 1, Two(Terminated, None, WorkLock, Idle, true));
  }

  lemma WorkerWaits()
    ensures Next(Two(Terminated, None, WorkLock, Idle, true), Go(WORKER)) == Some(Two(Terminated, Some(WORKER), WorkLocked, Idle, true))
    ensures Next(Two(Terminated, Some(WORKER), WorkLocked, Idle, true), Go(WORKER)) == Some(Two(Terminated, None, WorkWait, Idle, true))
  {
    TwoStep(Two(Terminated, None, WorkLock, Idle, true), WORKER, Two(Terminated, Some(WORKER), WorkLocked, Idle, true));
    TwoStep(Two(Terminated, Some(WORKER), WorkLocked, Idle, true), WORKER, Two(Terminated, None, WorkWait, Idle, true));
  }

  /** For two threads, a step can be compared thread by thread. */
  lemma TwoStep(s: State, t: Tid, n: State)
    requires s.threads.Keys == n.threads.Keys == {WORKER, 1} && Next(s, Go(t)).Some?
    requires var m := Next(s, Go(t)).value; m == n.(threads := m.threads) && m.threads.Keys == {WORKER, 1}
    requires var m := Next(s, Go(t)).value; m.threads[WORKER] == n.threads[WORKER] && m.threads[1] == n.threads[1]
    ensures Next(s, Go(t)) == Some(n)
  {
    hide Next;
    var m := Next(s, Go(t)).value;
    assert m.threads == n.threads;
  }

  lemma RunFive(s: State, a: State, b: State, c: State, d: State, e: State, steps: seq<Step>)
    requires |steps| == 5 && Next(s, steps[0]) == Some(a) && Next(a, steps[1]) == Some(b) && Next(b, steps[2]) == Some(c)
    requires Next(c, steps[3]) == Some(d) && Next(d, steps[4]) == Some(e)
    ensures Run(s, steps) == Some(e)
  {
    hide Next;
    RunNone(e);
    assert steps[4..] == [steps[4]] + [] && steps[3..] == [steps[3]] + steps[4..] && steps[2..] == [steps[2]] + steps[3..];
    assert steps[1..] == [steps[1]] + steps[2..] && steps == [steps[0]] + steps[1..];
    RunStep(d, [], steps[4], e);
    RunStep(c, steps[4..], steps[3], e);
    RunStep(b, steps[3..], steps[2], e);
    RunStep(a, steps[2..], steps[1], e);
    RunStep(s, steps[1..], steps[0], e);
  }

  lemma RunNone(s: State)
    ensures Run(s, []) == Some(s)
  {
  }

  lemma {:induction false} RunConcat(s: State, a: seq<Step>, b: seq<Step>)
    requires Run(s, a).Some?
    ensures Run(s, a + b) == Run(Run(s, a).value, b)
    decreases |a|
  {
    hide Next;
    if a == [] {
      assert a + b == b;
    } else {
      assert (a + b)[1..] == a[1..] + b;
      RunConcat(Next(s, a[0]).value, a[1..], b);
    }
  }

  lemma RunStep(s: State, rest: seq<Step>, st: Step, end: State)
    requires Next(s, st).Some? && Run(Next(s, st).value, rest) == Some(end)
    ensures Run(s, [st] + rest) == Some(end)
  {
    assert ([st] + rest)[1..] == rest;
  }
}
