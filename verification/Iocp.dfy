/** The worker pool of cool_server/iocp_core.cpp and its shutdown protocol: any number of workers
    blocked on one completion queue, woken by as many posted packets, and taking turns in callbacks. */
module Iocp {

  datatype Key = Connection | Read | Write | Other

  /** A packet without an `overlapped`, or the completion of an operation that succeeded or failed. */
  datatype Packet = Wake | Io(key: Key, ok: bool, id: nat)

  /** What GetQueuedCompletionStatus comes back with: a packet, or none because the wait failed. */
  datatype Return = Got(packet: Packet) | Failed

  /** A callback run by a worker. */
  datatype Call = Call(worker: nat, key: Key, packet: Packet)

  datatype Option<T> = None | Some(value: T)

  /** Where a worker is in the loop of `runWorkerThreads`. */
  datatype Pc =
    | AtTest                // about to test is_running_
    | Waiting               // inside GetQueuedCompletionStatus
    | Woken(back: Return)   // it returned; is_running_ not yet tested again
    | Locking(back: Return) // about to take callbacks_mutex_
    | Working               // holding it, inside a callback if there is one to run
    | Exited

  /** Where `stop` is. */
  datatype Stopper = NotStopping | Posting(posted: nat) | Joining(joined: nat) | Stopped

  /** `callbacks` are the kinds of callback that are installed, `mutex` names the worker that holds
      `callbacks_mutex_`, `calls` are the callbacks run so far, and `taken` counts the packets each
      worker has dequeued since the flag was lowered. */
  datatype Pool = Pool(
    workers: seq<Pc>, queue: seq<Packet>, callbacks: set<Key>, mutex: Option<nat>, calls: seq<Call>,
    running: bool, stopper: Stopper, handleOpen: bool, taken: seq<nat>)

  datatype Step =
    | Test(i: nat)
    | Dequeue(i: nat)
    | Fail(i: nat)      // GetQueuedCompletionStatus returns without a packet
    | Check(i: nat)
    | Lock(i: nat)
    | Finish(i: nat)
    | Arrive(packet: Packet)
    | Stop
    | Post
    | BeginJoin
    | Join
    | Close

  function Start(n: nat, callbacks: set<Key>): Pool {
    Pool(seq(n, i => AtTest), [], callbacks, None, [], true, NotStopping, true, seq(n, i => 0))
  }

  predicate IsWorkerStep(s: Step) {
    s.Test? || s.Dequeue? || s.Fail? || s.Check? || s.Lock? || s.Finish?
  }

  predicate Enabled(p: Pool, s: Step) {
    match s
    case Test(i) => i < |p.workers| && p.workers[i] == AtTest
    case Dequeue(i) => i < |p.workers| && p.workers[i] == Waiting && p.queue != []
    case Fail(i) => i < |p.workers| && p.workers[i] == Waiting
    case Check(i) => i < |p.workers| && p.workers[i].Woken?
    case Lock(i) => i < |p.workers| && p.workers[i].Locking? && p.mutex == None
    case Finish(i) => i < |p.workers| && p.workers[i] == Working
    case Arrive(_) => p.handleOpen
    case Stop => p.running && p.stopper == NotStopping
    case Post => p.stopper.Posting? && p.stopper.posted < |p.workers|
    case BeginJoin => p.stopper == Posting(|p.workers|)
    case Join => p.stopper.Joining? && p.stopper.joined < |p.workers| && p.workers[p.stopper.joined] == Exited
    case Close => p.stopper == Joining(|p.workers|)
  }

  /** The callback for a packet: the one for its key, but none for a failed connection. */
  function CallFor(callbacks: set<Key>, i: nat, packet: Packet): seq<Call> {
    if packet.Io? && packet.key in callbacks && packet.key != Other && (packet.key == Connection ==> packet.ok)
    then [Call(i, packet.key, packet)] else []
  }

  function At(p: Pool, i: nat, pc: Pc): Pool
    requires i < |p.workers|
  {
    p.(workers := p.workers[i := pc])
  }

  function Next(p: Pool, s: Step): Pool
    requires Enabled(p, s) && |p.taken| == |p.workers|
  {
    match s
    case Test(i) => At(p, i, if p.running then Waiting else Exited)
    case Dequeue(i) =>
      At(p, i, Woken(Got(p.queue[0]))).(
        queue := p.queue[1..],
        taken := if p.running then p.taken else p.taken[i := p.taken[i] + 1])
    case Fail(i) => At(p, i, Woken(Failed))
    case Check(i) =>
      var back := p.workers[i].back;
      At(p, i, if !p.running then Exited else if back == Got(Wake) then AtTest else Locking(back))
    case Lock(i) =>
      var back := p.workers[i].back;
      At(p, i, Working).(
        mutex := Some(i),
        calls := p.calls + if back.Got? then CallFor(p.callbacks, i, back.packet) else [])
    case Finish(i) => At(p, i, AtTest).(mutex := None)
    case Arrive(packet) => p.(queue := p.queue + [packet])
    case Stop => p.(running := false, stopper := Posting(0))
    case Post => p.(queue := p.queue + [Wake], stopper := Posting(p.stopper.posted + 1))
    case BeginJoin => p.(stopper := Joining(0))
    case Join => p.(stopper := Joining(p.stopper.joined + 1))
    case Close => p.(stopper := Stopped, handleOpen := false)
  }

  // ---- The counting invariant ---------------------------------------------------------

  /** The workers that still need a packet to get out of the queue. */
  function Needing(workers: seq<Pc>): nat {
    if workers == [] then 0 else Needing(workers[1..]) + if workers[0] == Waiting then 1 else 0
  }

  /** The wake-up packets `stop` has yet to post. */
  function Unposted(p: Pool): nat {
    if p.stopper.Posting? && p.stopper.posted < |p.workers| then |p.workers| - p.stopper.posted else 0
  }

  predicate StageInv(p: Pool) {
    && (p.running <==> p.stopper == NotStopping)
    && (p.handleOpen <==> p.stopper != Stopped)
    && (p.stopper.Posting? ==> p.stopper.posted <= |p.workers|)
    && (p.stopper.Joining? ==>
          p.stopper.joined <= |p.workers| && forall i :: 0 <= i < p.stopper.joined ==> p.workers[i] == Exited)
    && (p.stopper == Stopped ==> forall i :: 0 <= i < |p.workers| ==> p.workers[i] == Exited)
  }

  /** After the flag is down there are never fewer packets queued or still to be posted than blocked
      workers. */
  predicate CountInv(p: Pool) {
    !p.running ==> Needing(p.workers) <= |p.queue| + Unposted(p)
  }

  /** After the flag is down a worker that has dequeued a packet is on its way out. */
  predicate TakenInv(p: Pool) {
    && |p.taken| == |p.workers|
    && (forall i :: 0 <= i < |p.workers| ==>
          p.taken[i] <= 1 && (p.taken[i] == 1 ==> p.workers[i].Woken? || p.workers[i] == Exited))
    && (p.running ==> forall i :: 0 <= i < |p.workers| ==> p.taken[i] == 0)
  }

  /** The worker that holds the mutex is the only one in a callback. */
  predicate MutexInv(p: Pool) {
    && (p.mutex.Some? ==> p.mutex.value < |p.workers|)
    && forall i :: 0 <= i < |p.workers| ==> (p.workers[i] == Working <==> p.mutex == Some(i))
  }

  predicate Inv(p: Pool) {
    StageInv(p) && CountInv(p) && TakenInv(p) && MutexInv(p)
  }

  lemma {:induction false} NeedingUpdate(workers: seq<Pc>, i: nat, pc: Pc)
    requires i < |workers|
    ensures Needing(workers[i := pc]) + (if workers[i] == Waiting then 1 else 0)
            == Needing(workers) + if pc == Waiting then 1 else 0
  {
    if i > 0 {
      NeedingUpdate(workers[1..], i - 1, pc);
      assert workers[i := pc][1..] == workers[1..][i - 1 := pc];
    } else {
      assert workers[i := pc][1..] == workers[1..];
    }
  }

  lemma {:induction false} NeedingBound(workers: seq<Pc>)
    ensures Needing(workers) <= |workers|
  {
    if workers != [] {
      NeedingBound(workers[1..]);
    }
  }

  lemma {:induction false} NeedingOne(workers: seq<Pc>, i: nat)
    requires i < |workers| && workers[i] == Waiting
    ensures Needing(workers) >= 1
  {
    if i > 0 {
      NeedingOne(workers[1..], i - 1);
    }
  }

  lemma StepKeepsStage(p: Pool, s: Step)
    requires StageInv(p) && |p.taken| == |p.workers| && Enabled(p, s)
    ensures StageInv(Next(p, s))
  {
  }

  lemma StepKeepsTaken(p: Pool, s: Step)
    requires StageInv(p) && TakenInv(p) && Enabled(p, s)
    ensures TakenInv(Next(p, s))
  {
  }

  lemma StepKeepsMutex(p: Pool, s: Step)
    requires MutexInv(p) && |p.taken| == |p.workers| && Enabled(p, s)
    ensures MutexInv(Next(p, s))
  {
  }

  lemma StepKeepsCount(p: Pool, s: Step)
    requires CountInv(p) && StageInv(p) && |p.taken| == |p.workers| && Enabled(p, s)
    ensures CountInv(Next(p, s))
  {
    if IsWorkerStep(s) {
      NeedingUpdate(p.workers, s.i, Next(p, s).workers[s.i]);
      assert Next(p, s).workers == p.workers[s.i := Next(p, s).workers[s.i]];
    } else if s.Stop? {
      NeedingBound(p.workers);
    }
  }

  lemma StepKeeps(p: Pool, s: Step)
    requires Inv(p) && Enabled(p, s)
    ensures Inv(Next(p, s))
  {
    StepKeepsStage(p, s);
    StepKeepsTaken(p, s);
    StepKeepsCount(p, s);
    StepKeepsMutex(p, s);
    hide StageInv, CountInv, MutexInv, Next;
  }

  predicate IsRun(p: Pool, steps: seq<Step>)
    decreases |steps|
  {
    steps == [] || (Enabled(p, steps[0]) && |p.taken| == |p.workers| && IsRun(Next(p, steps[0]), steps[1..]))
  }

  function Run(p: Pool, steps: seq<Step>): Pool
    requires IsRun(p, steps)
    decreases |steps|
  {
    if steps == [] then p else Run(Next(p, steps[0]), steps[1..])
  }

  lemma {:induction false} RunKeeps(p: Pool, steps: seq<Step>)
    requires Inv(p) && IsRun(p, steps)
    ensures Inv(Run(p, steps)) && |Run(p, steps).workers| == |p.workers|
    decreases |steps|
  {
    hide Inv;
    if steps != [] {
      StepKeeps(p, steps[0]);
      RunKeeps(Next(p, steps[0]), steps[1..]);
    }
  }

  /** Over every run of any number of workers: once the flag is down a worker dequeues at most one
      more packet, there are never fewer packets queued or still to be posted than workers blocked,
      and the port is closed only after every worker has left. No two workers are ever in a callback
      at the same time. */
  lemma ShutdownCounts(n: nat, callbacks: set<Key>, steps: seq<Step>)
    requires IsRun(Start(n, callbacks), steps)
    ensures var p := Run(Start(n, callbacks), steps);
            && |p.workers| == n && Inv(p)
            && (!p.running ==> Needing(p.workers) <= |p.queue| + Unposted(p))
            && (forall i :: 0 <= i < n ==> p.taken[i] <= 1)
            && (forall i, j :: 0 <= i < j < n ==> !(p.workers[i] == Working && p.workers[j] == Working))
            && (!p.handleOpen ==> forall i :: 0 <= i < n ==> p.workers[i] == Exited)
  {
    RunKeeps(Start(n, callbacks), steps);
  }

  // ---- Packets and callbacks ----------------------------------------------------------

  /** The packets that join the queue in a run, in order. */
  function Arrivals(steps: seq<Step>): seq<Packet> {
    if steps == [] then [] else Joins(steps[0]) + Arrivals(steps[1..])
  }

  function Joins(s: Step): seq<Packet> {
    if s.Arrive? then [s.packet] else if s.Post? then [Wake] else []
  }

  /** The packet a step puts into a worker's hands. */
  function Handed(p: Pool, s: Step): seq<Packet>
    requires Enabled(p, s) && |p.taken| == |p.workers|
  {
    if s.Dequeue? then
      var pc := Next(p, s).workers[s.i];
      if pc.Woken? && pc.back.Got? then [pc.back.packet] else []
    else []
  }

  /** The packets handed to workers in a run, in order. */
  function Dequeued(p: Pool, steps: seq<Step>): seq<Packet>
    requires IsRun(p, steps)
    decreases |steps|
  {
    if steps == [] then [] else Handed(p, steps[0]) + Dequeued(Next(p, steps[0]), steps[1..])
  }

  /** The queue is first in, first out, and loses nothing: the packets handed out and then those still
      queued are those that were queued and then those that arrived. */
  lemma {:induction false} FirstInFirstOut(p: Pool, steps: seq<Step>)
    requires IsRun(p, steps)
    ensures Dequeued(p, steps) + Run(p, steps).queue == p.queue + Arrivals(steps)
    decreases |steps|
  {
    if steps != [] {
      var q, more := Next(p, steps[0]), steps[1..];
      FirstInFirstOut(q, more);
      OnePacket(p, steps[0]);
      hide Next, Enabled, Handed;
      Splice(Handed(p, steps[0]), q.queue, p.queue, Joins(steps[0]),
             Dequeued(q, more), Run(q, more).queue, Arrivals(more));
    }
  }

  lemma Splice(h: seq<Packet>, q1: seq<Packet>, q0: seq<Packet>, j: seq<Packet>,
               d: seq<Packet>, r: seq<Packet>, a: seq<Packet>)
    requires h + q1 == q0 + j && d + r == q1 + a
    ensures (h + d) + r == q0 + (j + a)
  {
    assert (h + d) + r == h + (d + r);
    assert h + (q1 + a) == (h + q1) + a;
    assert (q0 + j) + a == q0 + (j + a);
  }

  lemma OnePacket(p: Pool, s: Step)
    requires Enabled(p, s) && |p.taken| == |p.workers|
    ensures Handed(p, s) + Next(p, s).queue == p.queue + Joins(s)
  {
  }

  /** The packets worker `i` dequeues in a run, in order. */
  function DequeuedBy(p: Pool, steps: seq<Step>, i: nat): seq<Packet>
    requires IsRun(p, steps)
    decreases |steps|
  {
    if steps == [] then [] else
      (if steps[0] == Dequeue(i) then Handed(p, steps[0]) else []) + DequeuedBy(Next(p, steps[0]), steps[1..], i)
  }

  function CallsFor(callbacks: set<Key>, i: nat, packets: seq<Packet>): seq<Call> {
    if packets == [] then [] else CallFor(callbacks, i, packets[0]) + CallsFor(callbacks, i, packets[1..])
  }

  /** The callbacks worker `i` has run, in order. */
  function CallsBy(calls: seq<Call>, i: nat): seq<Call> {
    if calls == [] then [] else
      var n := |calls| - 1;
      CallsBy(calls[..n], i) + if calls[n].worker == i then [calls[n]] else []
  }

  /** The packet a worker has in its hands and has not yet run a callback for. */
  function InHand(pc: Pc): seq<Packet> {
    if (pc.Woken? || pc.Locking?) && pc.back.Got? then [pc.back.packet] else []
  }

  /** What a step does with the packets in the hands of worker `i`. */
  lemma StepHands(p: Pool, s: Step, i: nat)
    requires |p.taken| == |p.workers| && Enabled(p, s) && Next(p, s).running && i < |p.workers|
    ensures var q := Next(p, s);
            && q.callbacks == p.callbacks && |q.workers| == |p.workers|
            && (s == Dequeue(i) ==> InHand(p.workers[i]) == [] && InHand(q.workers[i]) == Handed(p, s))
            && (s == Lock(i) ==> InHand(q.workers[i]) == [])
            && (s != Dequeue(i) && s != Lock(i) ==>
                  InHand(q.workers[i]) == InHand(p.workers[i])
                  || (InHand(p.workers[i]) == [Wake] && InHand(q.workers[i]) == []))
  {
    hide CallFor;
  }

  lemma LockCalls(p: Pool, s: Step, i: nat)
    requires |p.taken| == |p.workers| && Enabled(p, s) && i < |p.workers|
    ensures CallsBy(Next(p, s).calls, i)
            == CallsBy(p.calls, i) + if s == Lock(i) then CallsFor(p.callbacks, i, InHand(p.workers[i])) else []
  {
    OneCall(p.callbacks, i);
    hide CallsFor;
    if s.Lock? && p.workers[s.i].back.Got? {
      var call := CallFor(p.callbacks, s.i, p.workers[s.i].back.packet);
      CallsByAppend(p.calls, call, i);
      OwnCall(p.callbacks, s.i, p.workers[s.i].back.packet, i);
      hide CallFor, CallsBy;
      assert Next(p, s).calls == p.calls + call;
    } else {
      assert Next(p, s).calls == p.calls + [] == p.calls;
    }
  }

  lemma OwnCall(callbacks: set<Key>, j: nat, packet: Packet, i: nat)
    ensures CallsBy(CallFor(callbacks, j, packet), i) == if i == j then CallFor(callbacks, j, packet) else []
  {
    var call := CallFor(callbacks, j, packet);
    if call != [] {
      assert call[..0] == [];
    }
  }

  lemma StepCalls(p: Pool, s: Step, i: nat)
    requires |p.taken| == |p.workers| && Enabled(p, s) && Next(p, s).running && i < |p.workers|
    ensures var q := Next(p, s);
            && q.callbacks == p.callbacks && |q.workers| == |p.workers|
            && CallsBy(q.calls, i) + CallsFor(p.callbacks, i, InHand(q.workers[i]))
               == CallsBy(p.calls, i) + CallsFor(p.callbacks, i, InHand(p.workers[i]))
                  + CallsFor(p.callbacks, i, if s == Dequeue(i) then Handed(p, s) else [])
  {
    OneCall(p.callbacks, i);
    StepHands(p, s, i);
    LockCalls(p, s, i);
    hide CallsBy, CallsFor, InHand, Handed, Next;
  }

  lemma OneCall(callbacks: set<Key>, i: nat)
    ensures CallsFor(callbacks, i, []) == [] && CallsFor(callbacks, i, [Wake]) == []
    ensures forall packet :: CallsFor(callbacks, i, [packet]) == CallFor(callbacks, i, packet)
  {
    hide CallFor;
    assert forall packet: Packet :: [packet][1..] == [];
    assert CallFor(callbacks, i, Wake) == [] by {
      NoCall(callbacks, i);
    }
  }

  lemma NoCall(callbacks: set<Key>, i: nat)
    ensures CallFor(callbacks, i, Wake) == []
  {
  }

  lemma {:induction false} CallsByAppend(a: seq<Call>, b: seq<Call>, i: nat)
    ensures CallsBy(a + b, i) == CallsBy(a, i) + CallsBy(b, i)
  {
    if b == [] {
      assert a + b == a;
    } else {
      CallsByAppend(a, b[..|b| - 1], i);
      assert (a + b)[..|a + b| - 1] == a + b[..|b| - 1];
    }
  }

  lemma {:induction false} CallsForAppend(callbacks: set<Key>, i: nat, a: seq<Packet>, b: seq<Packet>)
    ensures CallsFor(callbacks, i, a + b) == CallsFor(callbacks, i, a) + CallsFor(callbacks, i, b)
  {
    hide CallFor;
    if a == [] {
      assert a + b == b;
    } else {
      CallsForAppend(callbacks, i, a[1..], b);
      assert (a + b)[1..] == a[1..] + b && (a + b)[0] == a[0];
    }
  }

  lemma {:induction false} RunningBefore(p: Pool, steps: seq<Step>)
    requires IsRun(p, steps) && Run(p, steps).running
    ensures p.running
    decreases |steps|
  {
    if steps != [] {
      RunningBefore(Next(p, steps[0]), steps[1..]);
    }
  }

  /** While the pool runs, every packet a worker dequeues is given to the callback for its key, exactly
      once and in the order the worker dequeued them, except the one it may still have in its hands; a
      packet without an `overlapped`, a failed wait, and a key without a callback run none. */
  lemma {:induction false} PacketsReachCallbacks(p: Pool, steps: seq<Step>, i: nat)
    requires IsRun(p, steps) && Run(p, steps).running && i < |p.workers|
    ensures var q := Run(p, steps);
            && |q.workers| == |p.workers|
            && CallsBy(q.calls, i) + CallsFor(p.callbacks, i, InHand(q.workers[i]))
               == CallsBy(p.calls, i) + CallsFor(p.callbacks, i, InHand(p.workers[i]))
                  + CallsFor(p.callbacks, i, DequeuedBy(p, steps, i))
    decreases |steps|
  {
    if steps == [] {
      OneCall(p.callbacks, i);
    } else {
      var q, more := Next(p, steps[0]), steps[1..];
      var handed := if steps[0] == Dequeue(i) then Handed(p, steps[0]) else [];
      assert Run(p, steps) == Run(q, more) && DequeuedBy(p, steps, i) == handed + DequeuedBy(q, more, i);
      hide Next, Enabled, CallsFor, CallsBy, InHand, Handed, DequeuedBy;
      RunningBefore(q, more);
      StepCalls(p, steps[0], i);
      PacketsReachCallbacks(q, more, i);
      CallsForAppend(p.callbacks, i, handed, DequeuedBy(q, more, i));
      hide Run, IsRun;
      Assoc(CallsBy(p.calls, i) + CallsFor(p.callbacks, i, InHand(p.workers[i])),
            CallsFor(p.callbacks, i, handed), CallsFor(p.callbacks, i, DequeuedBy(q, more, i)));
    }
  }

  lemma Assoc(a: seq<Call>, b: seq<Call>, c: seq<Call>)
    ensures (a + b) + c == a + (b + c)
  {
  }

  /** A worker that comes back with a completion while the pool runs is two steps of its own away from
      the callback, if the mutex is free. */
  lemma CallbackIsReached(p: Pool, i: nat)
    requires |p.taken| == |p.workers| && p.running && i < |p.workers| && p.mutex == None
    requires p.workers[i].Woken? && p.workers[i].back != Got(Wake)
    ensures Enabled(p, Check(i)) && Enabled(Next(p, Check(i)), Lock(i))
    ensures var q := Next(Next(p, Check(i)), Lock(i));
            && q.workers[i] == Working && q.mutex == Some(i)
            && q.calls == p.calls + if p.workers[i].back == Failed then [] else
                                      CallFor(p.callbacks, i, p.workers[i].back.packet)
  {
  }

  /** The rest of a worker's loop: the next test, the wait, and back again after a callback; and out of
      the loop at either test once the flag is down. */
  lemma LoopGoesOn(p: Pool, i: nat)
    requires |p.taken| == |p.workers| && i < |p.workers|
    ensures p.workers[i] == AtTest ==> Next(p, Test(i)).workers[i] == if p.running then Waiting else Exited
    ensures p.workers[i] == Waiting && p.queue != [] ==>
              Enabled(p, Dequeue(i)) && Next(p, Dequeue(i)).workers[i] == Woken(Got(p.queue[0]))
    ensures p.workers[i].Woken? && !p.running ==> Next(p, Check(i)).workers[i] == Exited
    ensures p.workers[i] == Woken(Got(Wake)) && p.running ==> Next(p, Check(i)).workers[i] == AtTest
    ensures p.workers[i] == Working ==> Next(p, Finish(i)).workers[i] == AtTest && Next(p, Finish(i)).mutex == None
  {
  }

  /** The callback of a packet, by cases: the key decides which, and a failed operation reaches only the
      read and write callbacks. */
  lemma CallForExactly(callbacks: set<Key>, i: nat, ok: bool, id: nat)
    ensures CallFor(callbacks, i, Wake) == []
    ensures forall key :: key in callbacks && (key in {Read, Write} || (key == Connection && ok)) ==>
              CallFor(callbacks, i, Io(key, ok, id)) == [Call(i, key, Io(key, ok, id))]
    ensures forall key :: key !in callbacks || key == Other || (key == Connection && !ok) ==>
              CallFor(callbacks, i, Io(key, ok, id)) == []
  {
  }

  // ---- No deadlock --------------------------------------------------------------------

  /** The step a live worker would take next. */
  function OwnStep(p: Pool, i: nat): Step
    requires i < |p.workers|
  {
    match p.workers[i]
    case AtTest => Test(i)
    case Waiting => Dequeue(i)
    case Woken(_) => Check(i)
    case Locking(_) => Lock(i)
    case Working => Finish(i)
    case Exited => Test(i)
  }

  function StopperStep(p: Pool): Step {
    match p.stopper
    case NotStopping => Stop
    case Posting(k) => if k < |p.workers| then Post else BeginJoin
    case Joining(k) => if k < |p.workers| then Join else Close
    case Stopped => Close
  }

  /** Worker `i` can take its next step, or is about to take a mutex whose holder can. */
  predicate CanGoOn(p: Pool, i: nat)
    requires i < |p.workers|
  {
    || Enabled(p, OwnStep(p, i))
    || (p.workers[i].Locking? && p.mutex.Some?
        && p.mutex.value < |p.workers| && Enabled(p, OwnStep(p, p.mutex.value)))
  }

  /** Once all packets are posted, every live worker can take its next step or waits for one in a
      callback, which can; and `stop` itself waits only for such a worker. */
  lemma NobodyIsStuck(p: Pool)
    requires Inv(p) && !p.running
    ensures p.stopper.Posting? ==> Enabled(p, StopperStep(p))
    ensures !p.stopper.Posting? ==>
              forall i :: 0 <= i < |p.workers| && p.workers[i] != Exited ==> CanGoOn(p, i)
    ensures p.stopper.Joining? ==>
              Enabled(p, StopperStep(p))
              || (p.workers[p.stopper.joined] != Exited && CanGoOn(p, p.stopper.joined))
  {
    forall i | !p.stopper.Posting? && 0 <= i < |p.workers| && p.workers[i] != Exited
      ensures CanGoOn(p, i)
    {
      if p.workers[i] == Waiting {
        NeedingOne(p.workers, i);
      }
    }
  }

  function Rank(pc: Pc): nat {
    match pc
    case AtTest => 1
    case Waiting => 2
    case Woken(_) => 1
    case Locking(_) => 3
    case Working => 2
    case Exited => 0
  }

  function RankSum(workers: seq<Pc>): nat {
    if workers == [] then 0 else RankSum(workers[1..]) + Rank(workers[0])
  }

  function Remaining(p: Pool): nat {
    var n := |p.workers|;
    RankSum(p.workers) +
    match p.stopper
    case NotStopping => 2 * n + 3
    case Posting(k) => (if k < n then n - k else 0) + n + 2
    case Joining(k) => (if k < n then n - k else 0) + 1
    case Stopped => 0
  }

  lemma {:induction false} RankUpdate(workers: seq<Pc>, i: nat, pc: Pc)
    requires i < |workers|
    ensures RankSum(workers[i := pc]) + Rank(workers[i]) == RankSum(workers) + Rank(pc)
  {
    if i > 0 {
      RankUpdate(workers[1..], i - 1, pc);
      assert workers[i := pc][1..] == workers[1..][i - 1 := pc];
    } else {
      assert workers[i := pc][1..] == workers[1..];
    }
  }

  /** After the flag is down every step but the arrival of more packets brings the joins closer. */
  lemma StepsRunOut(p: Pool, s: Step)
    requires Inv(p) && !p.running && Enabled(p, s)
    ensures if s.Arrive? then Remaining(Next(p, s)) == Remaining(p) else Remaining(Next(p, s)) < Remaining(p)
  {
    match s
    case Test(i) => RankUpdate(p.workers, i, Exited);
    case Dequeue(i) => RankUpdate(p.workers, i, Woken(Got(p.queue[0])));
    case Fail(i) => RankUpdate(p.workers, i, Woken(Failed));
    case Check(i) => RankUpdate(p.workers, i, Exited);
    case Lock(i) => RankUpdate(p.workers, i, Working);
    case Finish(i) => RankUpdate(p.workers, i, AtTest);
    case _ =>
  }

  function Progress(steps: seq<Step>): nat {
    if steps == [] then 0 else Progress(steps[1..]) + if steps[0].Arrive? then 0 else 1
  }

  /** `stop` cannot deadlock or go on for ever: after the flag is down a run has at most a fixed
      number of steps that are not arrivals, and a state in which neither `stop` nor any worker can
      take its next step is one where `stop` has finished and every worker has left. */
  lemma {:induction false} ShutdownTerminates(p: Pool, steps: seq<Step>)
    requires Inv(p) && !p.running && IsRun(p, steps)
    ensures Progress(steps) + Remaining(Run(p, steps)) <= Remaining(p)
    ensures var q := Run(p, steps);
            !Enabled(q, StopperStep(q)) && (forall i :: 0 <= i < |q.workers| ==> !Enabled(q, OwnStep(q, i))) ==>
              q.stopper == Stopped && forall i :: 0 <= i < |q.workers| ==> q.workers[i] == Exited
    decreases |steps|
  {
    if steps == [] {
      NobodyIsStuck(p);
    } else {
      hide Inv, Remaining;
      StepKeeps(p, steps[0]);
      StepsRunOut(p, steps[0]);
      assert !Next(p, steps[0]).running;
      ShutdownTerminates(Next(p, steps[0]), steps[1..]);
    }
  }

  /** One packet per worker is not more than is needed: with fewer packets than blocked workers,
      nothing the workers do gets the last of them off the queue. */
  lemma {:induction false} FewerPacketsDeadlock(p: Pool, steps: seq<Step>)
    requires |p.taken| == |p.workers| && !p.running && |p.queue| < Needing(p.workers) && IsRun(p, steps)
    requires forall s :: s in steps ==> IsWorkerStep(s) && !s.Fail?
    ensures var q := Run(p, steps);
            Needing(q.workers) >= 1 && Needing(q.workers) - |q.queue| == Needing(p.workers) - |p.queue|
    decreases |steps|
  {
    if steps != [] {
      var s := steps[0];
      assert s in steps;
      NeedingUpdate(p.workers, s.i, Next(p, s).workers[s.i]);
      assert forall t :: t in steps[1..] ==> t in steps;
      FewerPacketsDeadlock(Next(p, s), steps[1..]);
    }
  }
}
