/** What whole runs of the task server do with the messages clients send. */
module TaskRuns {
  import opened TaskQueue

  /** The task client thread `id` has received last. */
  function LastReceived(steps: seq<Step>, id: nat): Option<Task> {
    if steps == [] then None else
      var last := steps[|steps| - 1];
      if last.Receive? && last.id == id then Some(last.task) else LastReceived(steps[..|steps| - 1], id)
  }

  /** The tasks a run pushes: each push pushes what its client thread has received last. */
  function Pushes(steps: seq<Step>): seq<Task> {
    if steps == [] then [] else
      var before, last := steps[..|steps| - 1], steps[|steps| - 1];
      Pushes(before)
      + if last.PushTask? && LastReceived(before, last.id).Some? then [LastReceived(before, last.id).value] else []
  }

  lemma {:induction false} RunSnoc(y: System, steps: seq<Step>)
    requires steps != [] && IsRun(y, steps)
    ensures var before, last := steps[..|steps| - 1], steps[|steps| - 1];
            && IsRun(y, before) && Enabled(Run(y, before), last)
            && Run(y, steps) == Next(Run(y, before), last)
    decreases |steps|
  {
    hide Next, Enabled;
    if |steps| > 1 {
      RunSnoc(Next(y, steps[0]), steps[1..]);
      assert steps[1..][..|steps| - 2] == steps[..|steps| - 1][1..];
    } else {
      assert steps[1..] == [];
      assert steps[..0] == [];
    }
  }

  /** A client thread has in its hands what it has received last. */
  predicate Holds(p: Producer, t: Option<Task>) {
    p.Wanting? || p.Locked? ==> t == Some(p.task)
  }

  lemma HoldsStep(y: System, s: Step, id: nat, before: Option<Task>)
    requires Enabled(y, s) && id < |y.producers| && Holds(y.producers[id], before)
    ensures |Next(y, s).producers| == |y.producers|
    ensures Holds(Next(y, s).producers[id], if s.Receive? && s.id == id then Some(s.task) else before)
    ensures Next(y, s).pushed == y.pushed + if s.PushTask? then [y.producers[s.id].task] else []
    ensures s.PushTask? ==> s.id < |y.producers| && y.producers[s.id].Locked?
  {
  }

  /** Over every run the tasks pushed are exactly the messages the client threads have received, each
      pushed by the thread that received it, in the order of the pushes. */
  lemma {:induction false} PushesAreReceived(n: nat, steps: seq<Step>)
    requires IsRun(Start(n), steps)
    ensures var y := Run(Start(n), steps);
            && |y.producers| == n && y.pushed == Pushes(steps)
            && forall id :: 0 <= id < n ==> Holds(y.producers[id], LastReceived(steps, id))
    decreases |steps|
  {
    hide Next, Enabled, Holds, Start;
    if steps == [] {
      StartHolds(n);
    } else {
      var before, last := steps[..|steps| - 1], steps[|steps| - 1];
      RunSnoc(Start(n), steps);
      PushesAreReceived(n, before);
      var y := Run(Start(n), before);
      hide Run, IsRun;
      SameProducers(y, last);
      forall id | 0 <= id < n ensures Holds(Next(y, last).producers[id], LastReceived(steps, id)) {
        HoldsStep(y, last, id, LastReceived(before, id));
      }
      if last.PushTask? {
        PusherHolds(y, last.id, LastReceived(before, last.id));
      } else {
        OnlyPushesPush(y, last);
      }
    }
  }

  lemma StartHolds(n: nat)
    ensures |Start(n).producers| == n && Start(n).pushed == []
    ensures forall id :: 0 <= id < n ==> Holds(Start(n).producers[id], None)
  {
  }

  lemma PusherHolds(y: System, id: nat, t: Option<Task>)
    requires Enabled(y, PushTask(id)) && (id < |y.producers| ==> Holds(y.producers[id], t))
    ensures t.Some? && Next(y, PushTask(id)).pushed == y.pushed + [t.value]
    ensures |Next(y, PushTask(id)).producers| == |y.producers|
  {
  }

  lemma SameProducers(y: System, s: Step)
    requires Enabled(y, s)
    ensures |Next(y, s).producers| == |y.producers|
  {
  }

  lemma OnlyPushesPush(y: System, s: Step)
    requires Enabled(y, s) && !s.PushTask?
    ensures Next(y, s).pushed == y.pushed && |Next(y, s).producers| == |y.producers|
  {
  }

  /** When nobody can move any more but a client, whoever closes the server, or chance, and the server
      is still running, every message received has been answered, and the worker waits for the next. */
  lemma RestingIsDone(n: nat, steps: seq<Step>)
    requires IsRun(Start(n), steps) && Resting(Run(Start(n), steps)) && Run(Start(n), steps).running
    ensures var y := Run(Start(n), steps);
            && y.queue == [] && y.popped == y.pushed == Pushes(steps) && |y.sent| == |Pushes(steps)|
            && y.worker == Blocked(false)
            && forall id :: 0 <= id < |y.producers| ==> y.producers[id].Receiving? || y.producers[id].Gone?
  {
    StartIsRunning(n);
    RunKeeps(Start(n), steps);
    PushesAreReceived(n, steps);
    RestsEmpty(Run(Start(n), steps));
  }

  lemma StartIsRunning(n: nat)
    ensures Inv(Start(n))
  {
    assert Start(n).sent == Responses([]);
  }

  lemma RestsEmpty(y: System)
    requires Inv(y) && Resting(y) && y.running
    ensures y.queue == [] && y.popped == y.pushed && |y.sent| == |y.pushed| && y.worker == Blocked(false)
    ensures forall id :: 0 <= id < |y.producers| ==> y.producers[id].Receiving? || y.producers[id].Gone?
  {
    NobodyIsStuck(y);
    RestingOutcome(y);
    hide AllReal;
  }
}
