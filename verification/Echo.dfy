/** The echo server of tests/IOCP_echo/iocp_server.cpp: every connection alternates between one read
    and one write of the same buffer, handed from worker to worker. */
module Echo {
  import opened Octets

  datatype Kind = Read | Write

  /** The fields of a `ClientContext` that matter: the operation it is in, and the part of its buffer
      that holds data. */
  datatype Context = Context(kind: Kind, data: seq<Octet>)

  /** What a worker does with a context: start the next operation, or close and delete it. */
  datatype Outcome = Starts(kind: Kind) | Deletes

  function AfterCompletion(x: Context, good: bool, started: bool): (Context, Outcome) {
    if !good then (x, Deletes) else
      var k := if x.kind == Read then Write else Read;
      (x.(kind := k), if started then Starts(k) else Deletes)
  }

  class ClientContext {
    var operationType: Kind
    var data: seq<Octet>

    ghost function Value(): Context
      reads this
    {
      Context(operationType, data)
    }

    /** The worker's part after `GetQueuedCompletionStatus`. A completion is good if it succeeded with
        at least one octet; `started` is whether the system accepts the next operation. */
    method Complete(good: bool, started: bool) returns (outcome: Outcome)
      modifies this
      ensures (Value(), outcome) == AfterCompletion(old(Value()), good, started)
    {
      if !good {
        return Deletes;
      }
      if operationType == Read {
        operationType := Write;
        if !started {
          return Deletes;
        }
        return Starts(Write);
      } else {
        operationType := Read;
        if !started {
          return Deletes;
        }
        return Starts(Read);
      }
    }
  }

  // ---- The server ---------------------------------------------------------------------

  datatype Op = Op(context: nat, kind: Kind)

  /** A dequeued completion in a worker's hands. */
  datatype Held = Held(context: nat, good: bool)

  datatype Acceptor = Waiting | Accepted(context: nat)

  /** Contexts are numbered in allocation order. `received` and `echoed` are the octets read from and
      written back to each context's client. */
  datatype World = World(
    contexts: map<nat, Context>, freed: seq<nat>, next: nat, pending: multiset<Op>,
    held: map<nat, Held>, acceptor: Acceptor,
    received: map<nat, seq<Octet>>, echoed: map<nat, seq<Octet>>)

  const START := World(map[], [], 0, multiset{}, map[], Waiting, map[], map[])

  datatype Step =
    | Accept(associated: bool)
    | FirstRead(started: bool)
    | ReadDone(worker: nat, context: nat, bytes: seq<Octet>, success: bool)
    | WriteDone(worker: nat, context: nat, good: bool)
    | Handle(worker: nat, started: bool)

  function Bytes(m: map<nat, seq<Octet>>, c: nat): seq<Octet> {
    if c in m then m[c] else []
  }

  predicate Enabled(w: World, s: Step) {
    match s
    case Accept(_) => w.acceptor.Waiting?
    case FirstRead(_) => w.acceptor.Accepted?
    case ReadDone(worker, c, bytes, _) => worker !in w.held && Op(c, Read) in w.pending && |bytes| <= 1023
    case WriteDone(worker, c, _) => worker !in w.held && Op(c, Write) in w.pending
    case Handle(worker, _) => worker in w.held
  }

  /** No step touches a deleted context. */
  predicate NoDangling(w: World, s: Step)
    requires Enabled(w, s)
  {
    match s
    case Accept(_) => true
    case FirstRead(_) => w.acceptor.context in w.contexts
    case ReadDone(_, c, _, _) => c in w.contexts
    case WriteDone(_, c, _) => c in w.contexts
    case Handle(worker, _) => w.held[worker].context in w.contexts
  }

  function Deleted(w: World, c: nat): World {
    w.(contexts := w.contexts - {c}, freed := w.freed + [c])
  }

  /** A finished read fills the buffer; a finished write has sent what the buffer holds by then. */
  function Next(w: World, s: Step): World
    requires Enabled(w, s) && NoDangling(w, s)
  {
    match s
    case Accept(associated) =>
      if associated then
        w.(contexts := w.contexts[w.next := Context(Read, [])], next := w.next + 1, acceptor := Accepted(w.next))
      else w.(freed := w.freed + [w.next], next := w.next + 1)
    case FirstRead(started) =>
      var c := w.acceptor.context;
      var v := w.(acceptor := Waiting, contexts := w.contexts[c := w.contexts[c].(kind := Read)]);
      if started then v.(pending := v.pending + multiset{Op(c, Read)}) else Deleted(v, c)
    case ReadDone(worker, c, bytes, success) =>
      var good := success && bytes != [];
      var v := w.(pending := w.pending - multiset{Op(c, Read)}, held := w.held[worker := Held(c, good)]);
      if !good then v else
        v.(contexts := v.contexts[c := v.contexts[c].(data := bytes)],
           received := v.received[c := Bytes(v.received, c) + bytes])
    case WriteDone(worker, c, good) =>
      var v := w.(pending := w.pending - multiset{Op(c, Write)}, held := w.held[worker := Held(c, good)]);
      if !good then v else v.(echoed := v.echoed[c := Bytes(v.echoed, c) + v.contexts[c].data])
    case Handle(worker, started) =>
      var Held(c, good) := w.held[worker];
      var (x, outcome) := AfterCompletion(w.contexts[c], good, started);
      var v := w.(held := w.held - {worker}, contexts := w.contexts[c := x]);
      match outcome
      case Starts(k) => v.(pending := v.pending + multiset{Op(c, k)})
      case Deletes => Deleted(v, c)
  }

  // ---- The invariant ------------------------------------------------------------------

  ghost predicate HeldBySome(w: World, c: nat) {
    exists k :: k in w.held && w.held[k].context == c
  }

  function Outstanding(w: World, c: nat): nat {
    w.pending[Op(c, Read)] + w.pending[Op(c, Write)]
  }

  /** Where a live context is decides what has been echoed: everything while a read is outstanding,
      everything but the buffer while a write is. */
  ghost predicate ContextInv(w: World, c: nat) {
    var got, back := Bytes(w.received, c), Bytes(w.echoed, c);
    if c !in w.contexts then
      Outstanding(w, c) == 0 && !HeldBySome(w, c) && w.acceptor != Accepted(c) && back <= got
    else
      var x := w.contexts[c];
      if w.acceptor == Accepted(c) then Outstanding(w, c) == 0 && !HeldBySome(w, c) && back == got
      else if HeldBySome(w, c) then Outstanding(w, c) == 0
      else
        && w.pending[Op(c, x.kind)] == 1 && Outstanding(w, c) == 1
        && got == if x.kind == Read then back else back + x.data
  }

  /** The same for a context whose completion a worker holds: a good read is yet to be echoed, a good
      write has been. */
  ghost predicate HeldInv(w: World, k: nat)
    requires k in w.held
  {
    var c := w.held[k].context;
    && c in w.contexts && w.acceptor != Accepted(c)
    && var x, got, back := w.contexts[c], Bytes(w.received, c), Bytes(w.echoed, c);
       if !w.held[k].good then back <= got
       else got == if x.kind == Read then back + x.data else back
  }

  ghost predicate HeldAll(w: World) {
    && (forall k :: k in w.held ==> HeldInv(w, k))
    && (forall j, k :: j in w.held && k in w.held && j != k ==> w.held[j].context != w.held[k].context)
  }

  /** Contexts are live or freed, never both, and freed at most once. */
  ghost predicate HeapInv(w: World) {
    && (forall c :: c in w.contexts ==> c < w.next && c !in w.freed)
    && (forall c :: c in w.freed ==> c < w.next)
    && (forall i, j :: 0 <= i < j < |w.freed| ==> w.freed[i] != w.freed[j])
    && (forall c: nat :: c >= w.next ==> c !in w.received && c !in w.echoed)
  }

  ghost predicate Inv(w: World) {
    (forall c: nat :: ContextInv(w, c)) && HeldAll(w) && HeapInv(w)
  }

  lemma InvNoDangling(w: World, s: Step)
    requires Inv(w) && Enabled(w, s)
    ensures NoDangling(w, s)
  {
    match s
    case FirstRead(_) => assert ContextInv(w, w.acceptor.context);
    case ReadDone(_, c, _, _) => assert ContextInv(w, c);
    case WriteDone(_, c, _) => assert ContextInv(w, c);
    case _ =>
  }

  /** `operationType` always says which operation has completed. */
  lemma OperationTypeIsRight(w: World, c: nat, k: Kind)
    requires Inv(w) && Op(c, k) in w.pending
    ensures c in w.contexts && w.contexts[c].kind == k && Outstanding(w, c) == 1 && !HeldBySome(w, c)
  {
    assert ContextInv(w, c);
  }

  // ---- One step -----------------------------------------------------------------------

  /** A step leaves everything about `d` as it was. */
  ghost predicate SameFor(w: World, x: World, d: nat) {
    && (d in w.contexts <==> d in x.contexts) && (d in w.contexts ==> w.contexts[d] == x.contexts[d])
    && w.pending[Op(d, Read)] == x.pending[Op(d, Read)] && w.pending[Op(d, Write)] == x.pending[Op(d, Write)]
    && (w.acceptor == Accepted(d) <==> x.acceptor == Accepted(d))
    && Bytes(w.received, d) == Bytes(x.received, d) && Bytes(w.echoed, d) == Bytes(x.echoed, d)
  }

  lemma SameKeepsContext(w: World, x: World, d: nat)
    requires ContextInv(w, d) && SameFor(w, x, d) && (HeldBySome(w, d) <==> HeldBySome(x, d))
    ensures ContextInv(x, d)
  {
  }

  lemma SameKeepsHeld(w: World, x: World, k: nat)
    requires k in w.held && k in x.held && w.held[k] == x.held[k] && HeldInv(w, k) && SameFor(w, x, w.held[k].context)
    ensures HeldInv(x, k)
  {
  }

  /** A step that changes only what concerns `c`, and puts `c` in no other worker's hands. */
  lemma OnlyOneChanges(w: World, x: World, c: nat)
    requires Inv(w) && HeapInv(x) && ContextInv(x, c)
    requires forall d: nat :: d != c ==> SameFor(w, x, d)
    requires forall k :: k in w.held && w.held[k].context != c ==> k in x.held && x.held[k] == w.held[k]
    requires forall k :: k in x.held && x.held[k].context != c ==> k in w.held && w.held[k] == x.held[k]
    requires forall k :: k in x.held && x.held[k].context == c ==> HeldInv(x, k)
    requires forall j, k :: j in x.held && k in x.held && j != k ==> x.held[j].context != c || x.held[k].context != c
    ensures Inv(x)
  {
    hide ContextInv, HeldInv, HeapInv, SameFor;
    forall d: nat ensures ContextInv(x, d) {
      if d != c {
        if HeldBySome(w, d) {
          var k :| k in w.held && w.held[k].context == d;
          assert k in x.held && x.held[k].context == d;
        }
        if HeldBySome(x, d) {
          var k :| k in x.held && x.held[k].context == d;
          assert k in w.held && w.held[k].context == d;
        }
        SameKeepsContext(w, x, d);
      }
    }
    forall k | k in x.held ensures HeldInv(x, k) {
      if x.held[k].context != c {
        SameKeepsHeld(w, x, k);
      }
    }
  }

  lemma NotHeldAnyMore(w: World, k: nat)
    requires HeldAll(w) && k in w.held
    ensures !HeldBySome(w.(held := w.held - {k}), w.held[k].context)
  {
    hide HeldInv;
  }

  lemma FreedOnce(freed: seq<nat>, c: nat)
    requires c !in freed && forall i, j :: 0 <= i < j < |freed| ==> freed[i] != freed[j]
    ensures forall i, j :: 0 <= i < j < |freed + [c]| ==> (freed + [c])[i] != (freed + [c])[j]
    ensures forall d :: d in freed + [c] <==> d in freed || d == c
  {
  }

  lemma AcceptKeeps(w: World, associated: bool)
    requires Inv(w) && Enabled(w, Accept(associated))
    ensures Inv(Next(w, Accept(associated)))
  {
    var x := Next(w, Accept(associated));
    var c := w.next;
    assert ContextInv(w, c) && c !in w.contexts && c !in w.freed;
    FreedOnce(w.freed, c);
    assert HeldBySome(x, c) <==> HeldBySome(w, c);
    assert forall k :: k in w.held ==> w.held[k].context != c;
    OnlyOneChanges(w, x, c);
  }

  lemma FirstReadKeeps(w: World, started: bool)
    requires Inv(w) && Enabled(w, FirstRead(started)) && NoDangling(w, FirstRead(started))
    ensures Inv(Next(w, FirstRead(started)))
  {
    var x := Next(w, FirstRead(started));
    var c := w.acceptor.context;
    assert ContextInv(w, c);
    FreedOnce(w.freed, c);
    assert HeldBySome(x, c) <==> HeldBySome(w, c);
    assert forall k :: k in w.held ==> w.held[k].context != c;
    OnlyOneChanges(w, x, c);
  }

  lemma CompletionElsewhere(w: World, s: Step, d: nat)
    requires Enabled(w, s) && NoDangling(w, s) && (s.ReadDone? || s.WriteDone?) && d != s.context
    ensures SameFor(w, Next(w, s), d)
  {
  }

  /** A completion takes its context from the system and gives it to one worker. */
  lemma CompletionKeepsContext(w: World, s: Step)
    requires (s.ReadDone? || s.WriteDone?) && ContextInv(w, s.context) && Enabled(w, s) && NoDangling(w, s)
    ensures var x, c := Next(w, s), s.context;
            && x.held == w.held[s.worker := x.held[s.worker]] && x.held[s.worker].context == c
            && !HeldBySome(w, c) && ContextInv(x, c) && HeldInv(x, s.worker)
  {
    var x, c := Next(w, s), s.context;
    assert s.worker in x.held && x.held[s.worker].context == c;
    assert HeldBySome(x, c);
  }

  lemma CompletionKeeps(w: World, s: Step)
    requires Inv(w) && Enabled(w, s) && NoDangling(w, s) && (s.ReadDone? || s.WriteDone?)
    ensures Inv(Next(w, s))
  {
    var x, c := Next(w, s), s.context;
    CompletionHeap(w, s);
    hide HeapInv, HeldInv, SameFor, Next, NoDangling, Enabled;
    assert ContextInv(w, c);
    CompletionKeepsContext(w, s);
    hide ContextInv;
    forall d: nat | d != c ensures SameFor(w, x, d) {
      CompletionElsewhere(w, s, d);
    }
    assert forall k :: k in w.held ==> w.held[k].context != c;
    OnlyOneChanges(w, x, c);
  }

  lemma CompletionHeap(w: World, s: Step)
    requires HeapInv(w) && Enabled(w, s) && NoDangling(w, s) && (s.ReadDone? || s.WriteDone?)
    ensures HeapInv(Next(w, s))
  {
  }

  lemma HandleHeap(w: World, worker: nat, started: bool)
    requires HeapInv(w) && Enabled(w, Handle(worker, started)) && NoDangling(w, Handle(worker, started))
    ensures HeapInv(Next(w, Handle(worker, started)))
  {
    FreedOnce(w.freed, w.held[worker].context);
  }

  lemma HandleContext(w: World, worker: nat, started: bool)
    requires HeldAll(w) && Enabled(w, Handle(worker, started)) && NoDangling(w, Handle(worker, started))
    requires ContextInv(w, w.held[worker].context) && HeldInv(w, worker)
    ensures ContextInv(Next(w, Handle(worker, started)), w.held[worker].context)
    ensures Next(w, Handle(worker, started)).held == w.held - {worker}
  {
    hide HeldAll;
    var x := Next(w, Handle(worker, started));
    var c := w.held[worker].context;
    assert HeldBySome(w, c);
    NotHeldAnyMore(w, worker);
    assert x.held == w.held - {worker};
    assert HeldBySome(x, c) <==> HeldBySome(w.(held := w.held - {worker}), c);
  }

  lemma HandleElsewhere(w: World, worker: nat, started: bool, d: nat)
    requires Enabled(w, Handle(worker, started)) && NoDangling(w, Handle(worker, started))
    requires d != w.held[worker].context
    ensures SameFor(w, Next(w, Handle(worker, started)), d)
  {
  }

  lemma HandleKeeps(w: World, worker: nat, started: bool)
    requires Inv(w) && Enabled(w, Handle(worker, started)) && NoDangling(w, Handle(worker, started))
    ensures Inv(Next(w, Handle(worker, started)))
  {
    var x := Next(w, Handle(worker, started));
    var c := w.held[worker].context;
    assert ContextInv(w, c) && HeldInv(w, worker);
    HandleHeap(w, worker, started);
    HandleContext(w, worker, started);
    forall d: nat | d != c ensures SameFor(w, x, d) {
      HandleElsewhere(w, worker, started, d);
    }
    hide ContextInv, HeldInv, HeapInv, SameFor, Next;
    OnlyOneChanges(w, x, c);
  }

  lemma StepKeeps(w: World, s: Step)
    requires Inv(w) && Enabled(w, s)
    ensures NoDangling(w, s) && Inv(Next(w, s))
  {
    InvNoDangling(w, s);
    hide Inv, Next;
    match s
    case Accept(associated) => AcceptKeeps(w, associated);
    case FirstRead(started) => FirstReadKeeps(w, started);
    case ReadDone(_, _, _, _) => CompletionKeeps(w, s);
    case WriteDone(_, _, _) => CompletionKeeps(w, s);
    case Handle(worker, started) => HandleKeeps(w, worker, started);
  }

  // ---- Every run ----------------------------------------------------------------------

  predicate IsRun(w: World, steps: seq<Step>)
    decreases |steps|
  {
    steps == [] || (Enabled(w, steps[0]) && (NoDangling(w, steps[0]) ==> IsRun(Next(w, steps[0]), steps[1..])))
  }

  /** A run in which no step touched a deleted context, and the state it ends in. */
  predicate ReachedBy(w: World, steps: seq<Step>, x: World)
    decreases |steps|
  {
    if steps == [] then w == x
    else Enabled(w, steps[0]) && NoDangling(w, steps[0]) && ReachedBy(Next(w, steps[0]), steps[1..], x)
  }

  lemma {:induction false} RunKeeps(w: World, steps: seq<Step>) returns (x: World)
    requires Inv(w) && IsRun(w, steps)
    ensures ReachedBy(w, steps, x) && Inv(x)
    decreases |steps|
  {
    hide Inv, Next, Enabled, NoDangling;
    if steps == [] {
      x := w;
    } else {
      StepKeeps(w, steps[0]);
      x := RunKeeps(Next(w, steps[0]), steps[1..]);
    }
  }

  lemma EchoedIsPrefix(w: World, c: nat)
    requires Inv(w)
    ensures Bytes(w.echoed, c) <= Bytes(w.received, c)
  {
    assert ContextInv(w, c);
    if HeldBySome(w, c) {
      var k :| k in w.held && w.held[k].context == c;
      assert HeldInv(w, k);
    }
  }

  /** Whatever the interleaving of workers and completions, no step touches a deleted context, a
      context is deleted at most once, it is never both read into and written from, a live one is with
      exactly one party (the acceptor, the system or one worker) and a deleted one with nobody, and
      what has been echoed to a client is always a prefix of what it sent. */
  lemma EveryRunEchoes(steps: seq<Step>) returns (x: World)
    requires IsRun(START, steps)
    ensures ReachedBy(START, steps, x) && Inv(x)
    ensures forall c: nat :: Bytes(x.echoed, c) <= Bytes(x.received, c)
    ensures forall c: nat :: Outstanding(x, c) <= 1
    ensures forall c: nat :: c in x.contexts && x.acceptor != Accepted(c) ==>
              (HeldBySome(x, c) <==> Outstanding(x, c) == 0)
    ensures forall c: nat :: c !in x.contexts || x.acceptor == Accepted(c) ==>
              Outstanding(x, c) == 0 && !HeldBySome(x, c)
    ensures forall j, k :: j in x.held && k in x.held && j != k ==> x.held[j].context != x.held[k].context
    ensures forall c: nat :: x.acceptor == Accepted(c) ==> c in x.contexts
    ensures forall i, j :: 0 <= i < j < |x.freed| ==> x.freed[i] != x.freed[j]
    ensures forall c :: c in x.contexts ==> c !in x.freed
  {
    assert Inv(START);
    x := RunKeeps(START, steps);
    forall c: nat
      ensures Bytes(x.echoed, c) <= Bytes(x.received, c) && Outstanding(x, c) <= 1
      ensures c in x.contexts && x.acceptor != Accepted(c) ==> (HeldBySome(x, c) <==> Outstanding(x, c) == 0)
      ensures c !in x.contexts || x.acceptor == Accepted(c) ==> Outstanding(x, c) == 0 && !HeldBySome(x, c)
      ensures x.acceptor == Accepted(c) ==> c in x.contexts
    {
      EchoedIsPrefix(x, c);
      assert ContextInv(x, c);
    }
  }

  /** Whenever a read is outstanding, everything received has been echoed. */
  lemma CaughtUpWhileReading(w: World, c: nat)
    requires Inv(w) && Op(c, Read) in w.pending
    ensures Bytes(w.echoed, c) == Bytes(w.received, c)
  {
    assert ContextInv(w, c);
  }
}
