/** `ThreadSafeQueue` of acos3/thread_server.h, and the server of acos3/thread_server.cpp built on it:
    any number of producers, one worker, and the thread that closes the server. */
module TaskQueue {

  const INVALID_SOCKET: nat := 0xFFFF_FFFF_FFFF_FFFF

  datatype Task = Task(socket: nat, message: string)

  const SENTINEL := Task(INVALID_SOCKET, "")

  /** What `accept` and a successful `recv` guarantee of a task. */
  predicate Real(t: Task) {
    t.socket != INVALID_SOCKET && t.message != ""
  }

  /** A response sent to a client's socket. */
  datatype Reply = Reply(socket: nat, text: string)

  function Response(t: Task): Reply {
    Reply(t.socket, "PROCESSED: " + t.message)
  }

  datatype Option<T> = None | Some(value: T)

  /** What the threads share: `waiting` says that the worker sleeps on the condition variable and
      has not been notified. There is one worker, so `notify_one` and `notify_all` do the same. */
  datatype Shared = Shared(tasks: seq<Task>, stopFlag: bool, waiting: bool)

  /** The predicate `pop` waits for. */
  predicate Ready(tasks: seq<Task>, stopFlag: bool) {
    tasks != [] || stopFlag
  }

  /** What `pop` returns and leaves, once its wait is over. */
  function PopResult(tasks: seq<Task>): (Task, seq<Task>) {
    if tasks == [] then (SENTINEL, []) else (tasks[0], tasks[1..])
  }

  predicate NoTasks(s: Shared) {
    s.tasks == []
  }

  function AfterPush(s: Shared, task: Task): Shared {
    s.(tasks := s.tasks + [task], waiting := false)
  }

  /** One pass of `pop`, from taking the lock until it waits or returns. */
  function AfterPop(s: Shared): (Option<Task>, Shared) {
    if !Ready(s.tasks, s.stopFlag) then (None, s.(waiting := true)) else
      var (task, rest) := PopResult(s.tasks);
      (Some(task), s.(tasks := rest))
  }

  function AfterStop(s: Shared): Shared {
    s.(stopFlag := true, waiting := false)
  }

  // ---- The object, one critical section at a time -------------------------------------

  class ThreadSafeQueue {
    var queue: seq<Task>
    var stopFlag: bool
    var waiting: bool

    ghost function State(): Shared
      reads this
    {
      Shared(queue, stopFlag, waiting)
    }

    constructor ()
      ensures State() == Shared([], false, false)
    {
      queue, stopFlag, waiting := [], false, false;
    }

    method Push(task: Task)
      modifies this
      ensures State() == AfterPush(old(State()), task)
    {
      queue := queue + [task];
      Notify();
    }

    /** Up to its wait, or from there to its return: none if the thread has to sleep first, and is to
        call again when it wakes up. */
    method Pop() returns (r: Option<Task>)
      modifies this
      ensures (r, State()) == AfterPop(old(State()))
      ensures r.Some? && old(queue) != [] ==> [r.value] + queue == old(queue)
    {
      if queue == [] && !stopFlag {
        waiting := true;
        return None;
      }
      if stopFlag && queue == [] {
        return Some(SENTINEL);
      }
      var task := queue[0];
      queue := queue[1..];
      return Some(task);
    }

    method Empty() returns (r: bool)
      ensures r == NoTasks(State())
    {
      r := queue == [];
    }

    method Stop()
      modifies this
      ensures State() == AfterStop(old(State()))
    {
      stopFlag := true;
      Notify();
    }

    method Notify()
      modifies this`waiting
      ensures !waiting
    {
      waiting := false;
    }
  }

  // ---- The threads --------------------------------------------------------------------

  datatype Lock = Free | ByWorker | ByProducer(id: nat)

  /** The worker, from the loop test of `processTasks` through `pop` and back. */
  datatype Worker =
    | AtTest                          // about to read isRunning
    | AtEmpty                         // isRunning was false: about to call empty()
    | AtLock                          // about to lock in pop
    | AtPredicate                     // lock held, wait predicate not yet evaluated
    | AboutToBlock                    // lock held, predicate was false
    | Blocked(notified: bool)         // waiting on the condition variable, lock released
    | Waking                          // woken, about to lock again
    | Taking                          // lock held, predicate was true
    | Got(task: Task, decided: nat)   // pop returned; `decided` tasks had been pushed by then
    | Exited(decided: nat)            // left the loop; `decided` tasks had been pushed when it decided to

  /** A client thread in `handleClient`. */
  datatype Producer =
    | AtLoop                // about to read isRunning
    | Receiving
    | Wanting(task: Task)   // about to lock in push
    | Locked(task: Task)    // lock held, not yet pushed
    | Pushed                // lock held, pushed, not yet notified
    | Notified              // lock held, notified
    | Gone

  /** `closeServer`. */
  datatype Closer = Open | Lowered | Flagged | NotifiedAll | Joined

  datatype System = System(
    queue: seq<Task>, stopFlag: bool, running: bool, lock: Lock,
    worker: Worker, producers: seq<Producer>, closer: Closer,
    pushed: seq<Task>,     // every task pushed so far, in push order
    popped: seq<Task>,     // every task dequeued so far
    sent: seq<Reply>)      // every response sent so far

  datatype Step =
    | TestRunning | TestEmpty | LockPop | Evaluate | Block | Spurious | Wake | Take | Process
    | TestClient(id: nat) | Receive(id: nat, task: Task) | Disconnect(id: nat) | LockPush(id: nat)
    | PushTask(id: nat) | NotifyOne(id: nat) | Unlock(id: nat)
    | Lower | Flag | NotifyAll | JoinWorker

  function Start(n: nat): System {
    System([], false, true, Free, AtTest, seq(n, i => AtLoop), Open, [], [], [])
  }

  predicate IsWorkerStep(s: Step) {
    || s.TestRunning? || s.TestEmpty? || s.LockPop? || s.Evaluate? || s.Block? || s.Wake? || s.Take? || s.Process?
  }

  predicate IsProducerStep(s: Step) {
    s.TestClient? || s.Receive? || s.Disconnect? || s.LockPush? || s.PushTask? || s.NotifyOne? || s.Unlock?
  }

  predicate ProducerAt(y: System, id: nat, p: Producer) {
    id < |y.producers| && y.producers[id] == p
  }

  predicate Enabled(y: System, s: Step) {
    match s
    case TestRunning => y.worker == AtTest
    case TestEmpty => y.worker == AtEmpty && y.lock == Free
    case LockPop => y.worker == AtLock && y.lock == Free
    case Evaluate => y.worker == AtPredicate
    case Block => y.worker == AboutToBlock
    case Spurious => y.worker.Blocked?
    case Wake => (y.worker == Blocked(true)) || (y.worker == Waking && y.lock == Free)
    case Take => y.worker == Taking
    case Process => y.worker.Got?
    case TestClient(id) => ProducerAt(y, id, AtLoop)
    case Receive(id, task) => ProducerAt(y, id, Receiving) && Real(task)
    case Disconnect(id) => ProducerAt(y, id, Receiving)
    case LockPush(id) => id < |y.producers| && y.producers[id].Wanting? && y.lock == Free
    case PushTask(id) => id < |y.producers| && y.producers[id].Locked?
    case NotifyOne(id) => ProducerAt(y, id, Pushed)
    case Unlock(id) => ProducerAt(y, id, Notified)
    case Lower => y.closer == Open
    case Flag => y.closer == Lowered
    case NotifyAll => y.closer == Flagged
    case JoinWorker => y.closer == NotifiedAll && y.worker.Exited?
  }

  function Notify(w: Worker): Worker {
    if w.Blocked? then Blocked(true) else w
  }

  function SetProducer(y: System, id: nat, p: Producer): System
    requires id < |y.producers|
  {
    y.(producers := y.producers[id := p])
  }

  function Next(y: System, s: Step): System
    requires Enabled(y, s)
  {
    match s
    case TestRunning => y.(worker := if y.running then AtLock else AtEmpty)
    case TestEmpty => y.(worker := if y.queue == [] then Exited(|y.pushed|) else AtLock)
    case LockPop => y.(worker := AtPredicate, lock := ByWorker)
    case Evaluate => y.(worker := if Ready(y.queue, y.stopFlag) then Taking else AboutToBlock)
    case Block => y.(worker := Blocked(false), lock := Free)
    case Spurious => y.(worker := Waking)
    case Wake => if y.worker.Blocked? then y.(worker := Waking) else y.(worker := AtPredicate, lock := ByWorker)
    case Take =>
      var (task, rest) := PopResult(y.queue);
      y.(worker := Got(task, |y.pushed|), lock := Free, queue := rest,
         popped := if y.queue == [] then y.popped else y.popped + [task])
    case Process =>
      if y.worker.task.socket == INVALID_SOCKET && y.worker.task.message == "" then
        y.(worker := Exited(y.worker.decided))
      else y.(worker := AtTest, sent := y.sent + [Response(y.worker.task)])
    case TestClient(id) => SetProducer(y, id, if y.running then Receiving else Gone)
    case Receive(id, task) => SetProducer(y, id, Wanting(task))
    case Disconnect(id) => SetProducer(y, id, Gone)
    case LockPush(id) => SetProducer(y, id, Locked(y.producers[id].task)).(lock := ByProducer(id))
    case PushTask(id) =>
      var t := y.producers[id].task;
      SetProducer(y, id, Pushed).(queue := y.queue + [t], pushed := y.pushed + [t])
    case NotifyOne(id) => SetProducer(y, id, Notified).(worker := Notify(y.worker))
    case Unlock(id) => SetProducer(y, id, AtLoop).(lock := Free)
    case Lower => y.(closer := Lowered, running := false)
    case Flag => y.(closer := Flagged, stopFlag := true)
    case NotifyAll => y.(closer := NotifiedAll, worker := Notify(y.worker))
    case JoinWorker => y.(closer := Joined)
  }

  predicate IsRun(y: System, steps: seq<Step>)
    decreases |steps|
  {
    steps == [] || (Enabled(y, steps[0]) && IsRun(Next(y, steps[0]), steps[1..]))
  }

  function Run(y: System, steps: seq<Step>): System
    requires IsRun(y, steps)
    decreases |steps|
  {
    if steps == [] then y else Run(Next(y, steps[0]), steps[1..])
  }

  // ---- The invariant ------------------------------------------------------------------

  predicate HoldsLock(p: Producer) {
    p.Locked? || p.Pushed? || p.Notified?
  }

  predicate WorkerHoldsLock(w: Worker) {
    w.AtPredicate? || w.AboutToBlock? || w.Taking?
  }

  predicate LockInv(y: System) {
    && (WorkerHoldsLock(y.worker) <==> y.lock == ByWorker)
    && (forall id :: 0 <= id < |y.producers| ==> (HoldsLock(y.producers[id]) <==> y.lock == ByProducer(id)))
    && (y.lock.ByProducer? ==> y.lock.id < |y.producers|)
  }

  function Responses(tasks: seq<Task>): (r: seq<Reply>)
    ensures |r| == |tasks|
  {
    seq(|tasks|, i requires 0 <= i < |tasks| => Response(tasks[i]))
  }

  /** The tasks whose response has been sent: all that were dequeued but the one in the worker's hands. */
  function Answered(y: System): seq<Task> {
    if y.worker.Got? && y.worker.task != SENTINEL && y.popped != [] then y.popped[..|y.popped| - 1] else y.popped
  }

  /** Nothing is lost, duplicated or reordered between the producers and the worker. */
  predicate Conserved(y: System) {
    y.pushed == y.popped + y.queue
  }

  predicate AllReal(y: System) {
    && (forall i :: 0 <= i < |y.pushed| ==> Real(y.pushed[i]))
    && (forall id :: 0 <= id < |y.producers| ==>
          (y.producers[id].Wanting? || y.producers[id].Locked? ==> Real(y.producers[id].task)))
  }

  /** The worker answers what it dequeues, and leaves the loop only when everything pushed so far
      has been dequeued. */
  predicate WorkerInv(y: System) {
    && y.sent == Responses(Answered(y))
    && (y.worker.Got? && y.worker.task != SENTINEL ==> y.popped != [] && y.popped[|y.popped| - 1] == y.worker.task)
    && (y.worker.Got? && y.worker.task == SENTINEL ==> y.worker.decided == |y.popped|)
    && (y.worker.Exited? ==> y.worker.decided == |y.popped|)
  }

  predicate FlowInv(y: System) {
    Conserved(y) && AllReal(y) && WorkerInv(y)
  }

  /** A blocked worker that has not been notified has nothing to do, unless a producer is just
      between its push and its notification. */
  predicate WakeInv(y: System) {
    && (y.worker == AboutToBlock ==> y.queue == [])
    && (y.worker == Blocked(false) && y.queue != [] ==>
          y.lock.ByProducer? && y.lock.id < |y.producers| && y.producers[y.lock.id].Pushed?)
    && (y.stopFlag <==> y.closer.Flagged? || y.closer.NotifiedAll? || y.closer.Joined?)
    && (y.running <==> y.closer == Open)
    && (y.worker == Taking && y.queue == [] ==> y.stopFlag)
  }

  /** `closeServer` returns only after its worker, and the worker leaves only once the server closes. */
  predicate JoinInv(y: System) {
    && (y.closer == Joined ==> y.worker.Exited?)
    && (y.worker.AtEmpty? || y.worker.Exited? ==> !y.running)
    && (y.worker.Got? && y.worker.task == SENTINEL ==> !y.running)
  }

  predicate Inv(y: System) {
    LockInv(y) && FlowInv(y) && WakeInv(y) && JoinInv(y)
  }

  // ---- The object's operations are the threads' steps ---------------------------------

  function SharedOf(y: System): Shared {
    Shared(y.queue, y.stopFlag, y.worker == Blocked(false))
  }

  lemma PushIsItsSteps(y: System, id: nat)
    requires LockInv(y) && id < |y.producers| && y.producers[id].Locked?
    ensures var y1 := Next(y, PushTask(id));
            && Enabled(y1, NotifyOne(id)) && Enabled(Next(y1, NotifyOne(id)), Unlock(id))
            && SharedOf(Next(Next(y1, NotifyOne(id)), Unlock(id))) == AfterPush(SharedOf(y), y.producers[id].task)
  {
  }

  /** Whether `pop` returns or goes to sleep. */
  lemma PopIsItsSteps(y: System)
    requires y.worker == AtPredicate
    ensures var y1 := Next(y, Evaluate);
            var s := if Ready(y.queue, y.stopFlag) then Take else Block;
            && Enabled(y1, s)
            && var z := Next(y1, s);
               && (if z.worker.Got? then Some(z.worker.task) else None, SharedOf(z)) == AfterPop(SharedOf(y))
               && (z.worker.Got? || z.worker == Blocked(false)) && z.lock == Free
  {
  }

  /** The worker leaves its loop by its test exactly if `Empty` says so. */
  lemma EmptyIsItsStep(y: System)
    requires Enabled(y, TestEmpty)
    ensures SharedOf(Next(y, TestEmpty)) == SharedOf(y)
    ensures Next(y, TestEmpty).worker.Exited? <==> NoTasks(SharedOf(y))
  {
  }

  lemma StopIsItsSteps(y: System)
    requires Enabled(y, Flag)
    ensures Enabled(Next(y, Flag), NotifyAll)
    ensures SharedOf(Next(Next(y, Flag), NotifyAll)) == AfterStop(SharedOf(y))
  {
  }

  // ---- One step -----------------------------------------------------------------------

  lemma ResponsesAppend(ts: seq<Task>, t: Task)
    ensures Responses(ts + [t]) == Responses(ts) + [Response(t)]
  {
  }

  lemma ProducerKeepsLock(y: System, s: Step)
    requires LockInv(y) && Enabled(y, s) && IsProducerStep(s)
    ensures LockInv(Next(y, s))
  {
    var z := Next(y, s);
    assert z.producers == y.producers[s.id := z.producers[s.id]];
    assert WorkerHoldsLock(z.worker) <==> WorkerHoldsLock(y.worker);
    assert HoldsLock(z.producers[s.id]) <==> z.lock == ByProducer(s.id);
    assert z.lock == y.lock || z.lock == ByProducer(s.id) || y.lock == ByProducer(s.id);
    assert z.lock != y.lock ==> y.lock == Free || z.lock == Free;
    hide Next, Enabled, HoldsLock, WorkerHoldsLock, IsProducerStep;
  }

  lemma OthersKeepLock(y: System, s: Step)
    requires LockInv(y) && Enabled(y, s) && !IsProducerStep(s)
    ensures LockInv(Next(y, s))
  {
  }

  lemma ProducerKeepsWake(y: System, s: Step)
    requires LockInv(y) && WakeInv(y) && Enabled(y, s) && IsProducerStep(s)
    ensures WakeInv(Next(y, s))
  {
  }

  lemma OthersKeepWake(y: System, s: Step)
    requires LockInv(y) && WakeInv(y) && Enabled(y, s) && !IsProducerStep(s)
    ensures WakeInv(Next(y, s))
  {
  }

  lemma StepConserves(y: System, s: Step)
    requires Conserved(y) && Enabled(y, s)
    ensures Conserved(Next(y, s))
  {
    if s == Take && y.queue != [] {
      assert y.popped + y.queue == (y.popped + [y.queue[0]]) + y.queue[1..];
    } else if s.PushTask? {
      var t := y.producers[s.id].task;
      assert y.popped + (y.queue + [t]) == (y.popped + y.queue) + [t];
    }
  }

  lemma StepKeepsReal(y: System, s: Step)
    requires AllReal(y) && Enabled(y, s)
    ensures AllReal(Next(y, s))
  {
  }

  lemma QueueIsReal(y: System)
    requires Conserved(y) && AllReal(y)
    ensures forall i :: 0 <= i < |y.queue| ==> Real(y.queue[i])
    ensures forall i :: 0 <= i < |y.popped| ==> Real(y.popped[i])
  {
    assert forall i :: 0 <= i < |y.queue| ==> y.queue[i] == y.pushed[|y.popped| + i];
    assert forall i :: 0 <= i < |y.popped| ==> y.popped[i] == y.pushed[i];
  }

  lemma SameWorkerInv(y: System, z: System)
    requires WorkerInv(y) && z.popped == y.popped && z.sent == y.sent
    requires z.worker == y.worker || (!z.worker.Got? && !z.worker.Exited? && !y.worker.Got?)
    ensures WorkerInv(z)
  {
  }

  lemma TakeKeepsWorker(y: System)
    requires FlowInv(y) && y.worker == Taking
    ensures WorkerInv(Next(y, Take))
  {
    QueueIsReal(y);
    hide Responses, AllReal;
    var z := Next(y, Take);
    if y.queue != [] {
      assert Answered(z) == y.popped;
    } else {
      assert y.pushed == y.popped;
    }
  }

  lemma ProcessKeepsWorker(y: System)
    requires FlowInv(y) && y.worker.Got?
    ensures WorkerInv(Next(y, Process))
  {
    QueueIsReal(y);
    hide AllReal;
    if y.worker.task != SENTINEL {
      var n := |y.popped| - 1;
      assert y.popped == y.popped[..n] + [y.worker.task];
      ResponsesAppend(y.popped[..n], y.worker.task);
    }
  }

  lemma TestEmptyKeepsWorker(y: System)
    requires FlowInv(y) && Enabled(y, TestEmpty)
    ensures WorkerInv(Next(y, TestEmpty))
  {
    hide Responses, AllReal;
    if y.queue == [] {
      assert y.pushed == y.popped;
    }
  }

  lemma StepKeepsWorker(y: System, s: Step)
    requires FlowInv(y) && Enabled(y, s)
    ensures WorkerInv(Next(y, s))
  {
    match s
    case Take => TakeKeepsWorker(y);
    case Process => ProcessKeepsWorker(y);
    case TestEmpty => TestEmptyKeepsWorker(y);
    case _ =>
      hide WorkerInv, AllReal, Conserved;
      SameWorkerInv(y, Next(y, s));
  }

  lemma StepKeepsJoin(y: System, s: Step)
    requires JoinInv(y) && WakeInv(y) && FlowInv(y) && Enabled(y, s)
    ensures JoinInv(Next(y, s))
  {
    QueueIsReal(y);
    hide LockInv, Conserved, AllReal, WorkerInv, Responses;
    assert s == Take && y.queue != [] ==> y.queue[0] != SENTINEL;
  }

  lemma StepKeeps(y: System, s: Step)
    requires Inv(y) && Enabled(y, s)
    ensures Inv(Next(y, s))
  {
    hide LockInv, Conserved, AllReal, WorkerInv, WakeInv, JoinInv;
    hide Next, Enabled, IsProducerStep;
    if IsProducerStep(s) {
      ProducerKeepsLock(y, s);
      ProducerKeepsWake(y, s);
    } else {
      OthersKeepLock(y, s);
      OthersKeepWake(y, s);
    }
    StepConserves(y, s);
    StepKeepsJoin(y, s);
    StepKeepsReal(y, s);
    StepKeepsWorker(y, s);
  }

  lemma {:induction false} RunKeeps(y: System, steps: seq<Step>)
    requires Inv(y) && IsRun(y, steps)
    ensures Inv(Run(y, steps))
    decreases |steps|
  {
    hide Inv;
    if steps != [] {
      StepKeeps(y, steps[0]);
      RunKeeps(Next(y, steps[0]), steps[1..]);
    }
  }

  /** Over every run, with any number of producers: the dequeued tasks followed by the queue are all
      pushed tasks in push order, each task dequeued, but the one in the worker's hands, has been
      answered to its own socket, in order, and when the worker leaves, which it does only once the
      server closes, every task pushed before it decided to has been dequeued and answered exactly
      once. No real task is ever mistaken for the sentinel. */
  lemma DrainsInOrder(n: nat, steps: seq<Step>)
    requires IsRun(Start(n), steps)
    ensures var y := Run(Start(n), steps);
            && y.popped + y.queue == y.pushed
            && (forall i :: 0 <= i < |y.popped| ==> y.popped[i] != SENTINEL)
            && |y.sent| <= |y.popped| <= |y.sent| + (if y.worker.Got? then 1 else 0)
            && (forall i :: 0 <= i < |y.sent| ==>
                  y.sent[i] == Reply(y.pushed[i].socket, "PROCESSED: " + y.pushed[i].message))
            && (y.worker.Exited? ==> !y.running)
            && (y.worker.Exited? ==>
                  && y.worker.decided <= |y.pushed|
                  && y.popped == y.pushed[..y.worker.decided]
                  && y.sent == Responses(y.pushed[..y.worker.decided]))
            && (y.closer == Joined ==> y.worker.Exited?)
  {
    assert Start(n).sent == Responses([]);
    RunKeeps(Start(n), steps);
    QueueIsReal(Run(Start(n), steps));
  }

  /** `push` never loses a wake-up: whenever the lock is free and the worker is blocked without a
      notification, the queue is empty. */
  lemma NoLostWakeup(n: nat, steps: seq<Step>)
    requires IsRun(Start(n), steps)
    ensures var y := Run(Start(n), steps);
            y.lock == Free && y.worker == Blocked(false) ==> y.queue == []
  {
    assert Start(n).sent == Responses([]);
    RunKeeps(Start(n), steps);
  }

  // ---- Stopping -----------------------------------------------------------------------

  /** `closeServer` has lowered `isRunning` and `stop` has raised its flag. */
  predicate Stopping(y: System) {
    y.stopFlag && !y.running
  }

  function Rank(w: Worker): nat {
    match w
    case AtTest => 7
    case AtEmpty => 6
    case AtLock => 5
    case AtPredicate => 3
    case AboutToBlock => 6
    case Blocked(_) => 5
    case Waking => 4
    case Taking => 2
    case Got(t, _) => if t == SENTINEL then 1 else 8
    case Exited(_) => 0
  }

  /** A client thread that may still push is worth a task more than one that may not. */
  function ProducerRank(p: Producer): (r: nat)
    ensures r <= 16
  {
    match p
    case AtLoop => 1
    case Receiving => 16
    case Wanting(_) => 15
    case Locked(_) => 14
    case Pushed => 3
    case Notified => 2
    case Gone => 0
  }

  function RankSum(producers: seq<Producer>): (r: nat)
    ensures r <= 16 * |producers|
  {
    if producers == [] then 0 else RankSum(producers[1..]) + ProducerRank(producers[0])
  }

  function CloserRank(c: Closer): nat {
    match c
    case Open => 4
    case Lowered => 3
    case Flagged => 2
    case NotifiedAll => 1
    case Joined => 0
  }

  function Remaining(y: System): nat {
    10 * |y.queue| + Rank(y.worker) + RankSum(y.producers) + CloserRank(y.closer)
  }

  lemma {:induction false} RankUpdate(producers: seq<Producer>, id: nat, p: Producer)
    requires id < |producers|
    ensures RankSum(producers[id := p]) + ProducerRank(producers[id]) == RankSum(producers) + ProducerRank(p)
  {
    if id > 0 {
      RankUpdate(producers[1..], id - 1, p);
      assert producers[id := p][1..] == producers[1..][id - 1 := p];
    } else {
      assert producers[id := p][1..] == producers[1..];
    }
  }

  /** Once the flags are set, every step of anybody brings the system closer to rest. */
  lemma StepsRunOut(y: System, s: Step)
    requires Inv(y) && Stopping(y) && Enabled(y, s)
    ensures Remaining(Next(y, s)) < Remaining(y) && Stopping(Next(y, s))
  {
    hide RankSum, LockInv, Response, Responses, WakeInv, JoinInv, WorkerInv;
    if IsProducerStep(s) {
      RankUpdate(y.producers, s.id, Next(y, s).producers[s.id]);
    } else {
      QueueIsReal(y);
      assert s == Take && y.queue != [] ==> y.queue[0] != SENTINEL;
    }
    hide AllReal, Conserved;
  }

  /** The worker is never stuck: unless it sleeps without a notification or a producer holds the
      lock, it can take its next step; and a producer that holds the lock can take its own. */
  lemma NobodyIsStuck(y: System)
    requires Inv(y)
    ensures !y.lock.ByProducer? && !y.worker.Exited? && y.worker != Blocked(false) ==> Enabled(y, WorkerStep(y))
    ensures y.lock.ByProducer? ==>
              exists s :: s in {PushTask(y.lock.id), NotifyOne(y.lock.id), Unlock(y.lock.id)} && Enabled(y, s)
  {
    if y.lock.ByProducer? {
      var id := y.lock.id;
      assert HoldsLock(y.producers[id]);
      if y.producers[id].Locked? {
        assert Enabled(y, PushTask(id));
      } else if y.producers[id].Pushed? {
        assert Enabled(y, NotifyOne(id));
      } else {
        assert Enabled(y, Unlock(id));
      }
    }
  }

  function WorkerStep(y: System): Step {
    match y.worker
    case AtTest => TestRunning
    case AtEmpty => TestEmpty
    case AtLock => LockPop
    case AtPredicate => Evaluate
    case AboutToBlock => Block
    case Blocked(_) => Wake
    case Waking => Wake
    case Taking => Take
    case Got(_, _) => Process
    case Exited(_) => Process
  }

  /** The worker has nothing to do and nobody is in the middle of giving it something. */
  predicate WorkerAtRest(y: System) {
    !y.lock.ByProducer? && !Enabled(y, WorkerStep(y))
  }

  /** The worker is not in a wait without a notification, nor on its way into one. */
  predicate StopSeen(y: System) {
    Stopping(y) && y.worker != AboutToBlock && y.worker != Blocked(false)
  }

  lemma StopSeenStays(y: System, s: Step)
    requires StopSeen(y) && Enabled(y, s)
    ensures StopSeen(Next(y, s))
  {
  }

  /** Closing cannot go on for ever: from the moment the flags are set the worker, the client
      threads and `closeServer` together take at most a fixed number of steps for each task queued
      and each client thread. A worker that has seen the stop is then gone when it comes to rest. */
  lemma {:induction false} StopTerminates(y: System, steps: seq<Step>)
    requires Inv(y) && Stopping(y) && IsRun(y, steps)
    ensures Inv(Run(y, steps)) && Stopping(Run(y, steps))
    ensures |steps| + Remaining(Run(y, steps)) <= Remaining(y) <= 10 * |y.queue| + 16 * |y.producers| + 12
    ensures var z := Run(y, steps); StopSeen(y) && WorkerAtRest(z) ==> z.worker.Exited?
    decreases |steps|
  {
    if steps == [] {
      NobodyIsStuck(y);
    } else {
      hide Inv, Remaining, WorkerAtRest, StopSeen, Stopping;
      StepKeeps(y, steps[0]);
      StepsRunOut(y, steps[0]);
      if StopSeen(y) {
        StopSeenStays(y, steps[0]);
      }
      StopTerminates(Next(y, steps[0]), steps[1..]);
      RemainingBound(y);
    }
  }

  lemma RemainingBound(y: System)
    ensures Remaining(y) <= 10 * |y.queue| + 16 * |y.producers| + 12
  {
  }

  function PushesBy(steps: seq<Step>, id: nat): nat {
    if steps == [] then 0 else PushesBy(steps[1..], id) + if steps[0] == PushTask(id) then 1 else 0
  }

  /** 1 for a client thread that is past its test of `isRunning` and has not pushed since. */
  function Owes(p: Producer): nat {
    if p.Receiving? || p.Wanting? || p.Locked? then 1 else 0
  }

  /** Once `isRunning` is down, a client thread pushes at most once more, and only if it was past its
      test when it went down. */
  lemma {:induction false} OnePushEach(y: System, steps: seq<Step>, id: nat)
    requires !y.running && id < |y.producers| && IsRun(y, steps)
    ensures |Run(y, steps).producers| == |y.producers|
    ensures PushesBy(steps, id) + Owes(Run(y, steps).producers[id]) <= Owes(y.producers[id])
    decreases |steps|
  {
    if steps != [] {
      OwesStep(y, steps[0], id);
      hide Next, Enabled, Owes;
      OnePushEach(Next(y, steps[0]), steps[1..], id);
    }
  }

  lemma OwesStep(y: System, s: Step, id: nat)
    requires !y.running && id < |y.producers| && Enabled(y, s)
    ensures !Next(y, s).running && |Next(y, s).producers| == |y.producers|
    ensures Owes(Next(y, s).producers[id]) + (if s == PushTask(id) then 1 else 0) <= Owes(y.producers[id])
  {
  }

  // ---- When a stop is lost ------------------------------------------------------------

  /** `stop` has notified, and the worker is on its way into its wait or in it, with nothing under
      way that would wake it. */
  predicate Doomed(y: System) {
    && y.closer == NotifiedAll && (y.worker == AboutToBlock || y.worker == Blocked(false))
    && forall id :: 0 <= id < |y.producers| ==> !y.producers[id].Pushed?
  }

  /** The worker has seen the stop, or is about to be notified of a task. */
  predicate Roused(y: System) {
    || StopSeen(y)
    || (Stopping(y) && y.worker == Blocked(false)
        && y.lock.ByProducer? && y.lock.id < |y.producers| && y.producers[y.lock.id].Pushed?)
  }

  /** A client speaks, or the system wakes the worker by chance. */
  predicate Rouses(s: Step) {
    s.PushTask? || s == Spurious
  }

  predicate SomeRouses(steps: seq<Step>) {
    exists s :: s in steps && Rouses(s)
  }

  lemma DoomedStep(y: System, s: Step)
    requires LockInv(y) && Stopping(y) && Doomed(y) && Enabled(y, s)
    ensures if Rouses(s) then Roused(Next(y, s)) else Doomed(Next(y, s))
  {
  }

  lemma RousedStays(y: System, s: Step)
    requires LockInv(y) && Roused(y) && Enabled(y, s)
    ensures Roused(Next(y, s))
  {
  }

  lemma {:induction false} RousedRun(y: System, steps: seq<Step>)
    requires Inv(y) && Roused(y) && IsRun(y, steps)
    ensures Inv(Run(y, steps)) && Roused(Run(y, steps))
    decreases |steps|
  {
    hide FlowInv, WakeInv, Roused, Next, Enabled;
    if steps != [] {
      StepKeeps(y, steps[0]);
      RousedStays(y, steps[0]);
      RousedRun(Next(y, steps[0]), steps[1..]);
    }
  }

  /** If the notification came too early, then until a client speaks or the system wakes the worker
      by chance, the worker sleeps and `closeServer` waits for it. */
  lemma {:induction false} LostStopSleeps(y: System, steps: seq<Step>)
    requires Inv(y) && Stopping(y) && Doomed(y) && IsRun(y, steps)
    ensures var z := Run(y, steps); Inv(z) && if SomeRouses(steps) then Roused(z) else Doomed(z)
    decreases |steps|
  {
    if steps != [] {
      var s := steps[0];
      hide FlowInv, WakeInv, Roused, Doomed, Stopping, Next, Enabled, Rouses, Remaining;
      assert s in steps;
      StepKeeps(y, s);
      StepsRunOut(y, s);
      DoomedStep(y, s);
      if Rouses(s) {
        RousedRun(Next(y, s), steps[1..]);
      } else {
        assert SomeRouses(steps) <==> SomeRouses(steps[1..]) by {
          assert forall t :: t in steps <==> t == s || t in steps[1..];
        }
        LostStopSleeps(Next(y, s), steps[1..]);
      }
    }
  }

  /** `stop` sets its flag and notifies without the lock, and this decides it: when the worker comes
      to rest it has left, unless the notification fell between its evaluation of the wait predicate
      and its wait, and since then no client has spoken and the system has not woken it by chance.
      Then it sleeps and `closeServer` waits for it. */
  lemma StopSeenExactly(y: System, steps: seq<Step>)
    requires Inv(y) && Enabled(y, NotifyAll) && IsRun(Next(y, NotifyAll), steps)
    requires WorkerAtRest(Run(Next(y, NotifyAll), steps))
    ensures var z := Run(Next(y, NotifyAll), steps);
            && (z.worker.Exited? <==> y.worker != AboutToBlock || SomeRouses(steps))
            && (!z.worker.Exited? ==> z.worker == Blocked(false) && z.closer == NotifiedAll)
  {
    var x := Next(y, NotifyAll);
    StepKeeps(y, NotifyAll);
    AfterNotification(y);
    hide Next, LockInv, FlowInv, WakeInv, JoinInv, SomeRouses;
    var z := Run(x, steps);
    if y.worker != AboutToBlock {
      StopTerminates(x, steps);
    } else {
      LostStopSleeps(x, steps);
      if SomeRouses(steps) {
        NobodyIsStuck(z);
      }
    }
  }

  lemma AfterNotification(y: System)
    requires Inv(y) && Enabled(y, NotifyAll)
    ensures var x := Next(y, NotifyAll);
            Stopping(x) && if y.worker == AboutToBlock then Doomed(x) else StopSeen(x)
  {
    hide FlowInv;
  }

  /** Nobody can move but a client, whoever closes the server, or the worker woken by chance. */
  ghost predicate Resting(y: System) {
    forall s :: Enabled(y, s) ==> s.Receive? || s.Disconnect? || s == Spurious || s == Lower
  }

  /** When everything has come to rest, `closeServer` has returned exactly if the worker has left, and
      every client thread waits for its client or is gone. */
  lemma RestingOutcome(y: System)
    requires Inv(y) && Resting(y)
    ensures WorkerAtRest(y) && (y.closer == Joined <==> y.worker.Exited?)
    ensures forall id :: 0 <= id < |y.producers| ==> y.producers[id].Receiving? || y.producers[id].Gone?
  {
    hide FlowInv;
    NobodyIsStuck(y);
    assert !Enabled(y, WorkerStep(y)) && !Enabled(y, Flag);
    assert !Enabled(y, NotifyAll) && !Enabled(y, JoinWorker);
    forall id | 0 <= id < |y.producers| ensures y.producers[id].Receiving? || y.producers[id].Gone? {
      assert !Enabled(y, TestClient(id)) && !Enabled(y, LockPush(id));
    }
  }

  /** The worker has found the queue empty and the flag down, and holds the lock. */
  const BEFORE_WAIT := Start(0).(worker := AboutToBlock, lock := ByWorker)

  const AFTER_NOTIFY := BEFORE_WAIT.(closer := NotifiedAll, running := false, stopFlag := true)

  const ASLEEP := AFTER_NOTIFY.(worker := Blocked(false), lock := Free)

  lemma WorkerReachesWait(rest: seq<Step>)
    requires IsRun(BEFORE_WAIT, rest)
    ensures var steps := [TestRunning, LockPop, Evaluate] + rest;
            IsRun(Start(0), steps) && Run(Start(0), steps) == Run(BEFORE_WAIT, rest)
  {
    var y1 := Start(0).(worker := AtLock);
    var y2 := Start(0).(worker := AtPredicate, lock := ByWorker);
    assert Next(Start(0), TestRunning) == y1 && Next(y1, LockPop) == y2 && Next(y2, Evaluate) == BEFORE_WAIT;
    RunCons(y2, [Evaluate] + rest);
    RunCons(y1, [LockPop] + ([Evaluate] + rest));
    RunCons(Start(0), [TestRunning] + ([LockPop] + ([Evaluate] + rest)));
    assert [TestRunning, LockPop, Evaluate] + rest == [TestRunning] + ([LockPop] + ([Evaluate] + rest));
  }

  lemma CloserNotifies(rest: seq<Step>)
    requires IsRun(AFTER_NOTIFY, rest)
    ensures var steps := [Lower, Flag, NotifyAll] + rest;
            IsRun(BEFORE_WAIT, steps) && Run(BEFORE_WAIT, steps) == Run(AFTER_NOTIFY, rest)
  {
    var y1 := BEFORE_WAIT.(closer := Lowered, running := false);
    var y2 := y1.(closer := Flagged, stopFlag := true);
    assert Next(BEFORE_WAIT, Lower) == y1 && Next(y1, Flag) == y2 && Next(y2, NotifyAll) == AFTER_NOTIFY;
    RunCons(y2, [NotifyAll] + rest);
    RunCons(y1, [Flag] + ([NotifyAll] + rest));
    RunCons(BEFORE_WAIT, [Lower] + ([Flag] + ([NotifyAll] + rest)));
    assert [Lower, Flag, NotifyAll] + rest == [Lower] + ([Flag] + ([NotifyAll] + rest));
  }

  /** And it can fall there: with no client at all, the worker finds the queue empty and the flag
      down, `closeServer` raises the flag and notifies, and only then does the worker start to wait. */
  lemma StopCanBeLost()
    ensures var steps := [TestRunning, LockPop, Evaluate] + ([Lower, Flag, NotifyAll] + [Block]);
            && IsRun(Start(0), steps) && Run(Start(0), steps) == ASLEEP
    ensures Resting(ASLEEP) && ASLEEP.closer == NotifiedAll && ASLEEP.worker == Blocked(false) && ASLEEP.stopFlag
  {
    AsleepRests();
    RunCons(ASLEEP, []);
    RunCons(AFTER_NOTIFY, [Block]);
    hide Next, Enabled, Start;
    CloserNotifies([Block]);
    WorkerReachesWait([Lower, Flag, NotifyAll] + [Block]);
  }

  lemma AsleepRests()
    ensures Enabled(AFTER_NOTIFY, Block) && Next(AFTER_NOTIFY, Block) == ASLEEP && Resting(ASLEEP)
  {
  }

  lemma RunCons(y: System, steps: seq<Step>)
    ensures steps == [] ==> IsRun(y, steps) && Run(y, steps) == y
    ensures steps != [] && Enabled(y, steps[0]) && IsRun(Next(y, steps[0]), steps[1..]) ==>
              IsRun(y, steps) && Run(y, steps) == Run(Next(y, steps[0]), steps[1..])
  {
  }
}
