/** What becomes of each connection of the echo server: when its context is deleted, and that what a
    client sends comes back. */
module EchoRuns {
  import opened Octets
  import opened Echo

  function Opposite(k: Kind): Kind {
    if k == Read then Write else Read
  }

  /** A dequeued completion is good if it succeeded with octets; a good read has filled the buffer, a
      good write has sent it back. */
  lemma CompletionOutcome(w: World, s: Step)
    requires Inv(w) && Enabled(w, s) && (s.ReadDone? || s.WriteDone?)
    ensures NoDangling(w, s)
    ensures var x, c := Next(w, s), s.context;
            && s.worker in x.held && c in x.contexts && x.freed == w.freed
            && x.held[s.worker] == Held(c, if s.ReadDone? then s.success && s.bytes != [] else s.good)
            && (s.ReadDone? && x.held[s.worker].good ==>
                  x.contexts[c].data == s.bytes && Bytes(x.received, c) == Bytes(w.received, c) + s.bytes)
            && (s.WriteDone? && x.held[s.worker].good ==>
                  x.contexts[c].data == w.contexts[c].data
                  && Bytes(x.echoed, c) == Bytes(w.echoed, c) + w.contexts[c].data)
  {
    InvNoDangling(w, s);
  }

  /** Handling a completion deletes its context exactly if it was not good or the next operation was
      refused. Otherwise the context stays, with the same octets and exactly the opposite operation
      outstanding: a good read starts its echo and a finished echo starts the next read. */
  lemma HandleOutcome(w: World, worker: nat, started: bool)
    requires Inv(w) && Enabled(w, Handle(worker, started))
    ensures NoDangling(w, Handle(worker, started))
    ensures var c, good, x := w.held[worker].context, w.held[worker].good, Next(w, Handle(worker, started));
            && (c in x.freed <==> !good || !started) && (c in x.contexts <==> good && started)
            && worker !in x.held
            && (good && started ==>
                  var next := Opposite(w.contexts[c].kind);
                  && x.contexts[c] == Context(next, w.contexts[c].data)
                  && x.pending[Op(c, next)] == 1 && Outstanding(x, c) == 1 && x.freed == w.freed)
  {
    InvNoDangling(w, Handle(worker, started));
    var c := w.held[worker].context;
    assert HeldInv(w, worker) && HeldBySome(w, c) && ContextInv(w, c);
  }

  // ---- When a context is deleted ------------------------------------------------------

  /** What deletes `c`: its association fails, its first read is refused, or one of its completions was
      not good or has the next operation refused. */
  predicate Deletes(w: World, s: Step, c: nat)
    requires Enabled(w, s)
  {
    match s
    case Accept(associated) => !associated && c == w.next
    case FirstRead(started) => !started && c == w.acceptor.context
    case Handle(worker, started) => c == w.held[worker].context && (!w.held[worker].good || !started)
    case _ => false
  }

  lemma StepDeletes(w: World, s: Step, c: nat)
    requires Inv(w) && Enabled(w, s) && NoDangling(w, s)
    ensures c in Next(w, s).freed <==> c in w.freed || Deletes(w, s, c)
  {
    hide ContextInv, HeldAll;
    var x := Next(w, s);
    if |x.freed| > |w.freed| {
      assert x.freed == w.freed + [x.freed[|w.freed|]];
    }
  }

  predicate SomeDeletes(w: World, steps: seq<Step>, c: nat)
    decreases |steps|
  {
    && steps != [] && Enabled(w, steps[0])
    && (Deletes(w, steps[0], c) || (NoDangling(w, steps[0]) && SomeDeletes(Next(w, steps[0]), steps[1..], c)))
  }

  /** Over every run a context has been deleted exactly if some step of the run deletes it. */
  lemma {:induction false} DeletedExactly(w: World, steps: seq<Step>, x: World, c: nat)
    requires Inv(w) && ReachedBy(w, steps, x)
    ensures c in x.freed <==> c in w.freed || SomeDeletes(w, steps, c)
    decreases |steps|
  {
    if steps != [] {
      StepDeletes(w, steps[0], c);
      StepKeeps(w, steps[0]);
      hide Inv, Next, Enabled, NoDangling, Deletes;
      DeletedExactly(Next(w, steps[0]), steps[1..], x, c);
    }
  }

  /** From the start: exactly the contexts some step deletes. */
  lemma FreedExactly(steps: seq<Step>, x: World, c: nat)
    requires ReachedBy(START, steps, x)
    ensures c in x.freed <==> SomeDeletes(START, steps, c)
  {
    assert Inv(START);
    hide Inv;
    DeletedExactly(START, steps, x, c);
  }

  // ---- What comes back ----------------------------------------------------------------

  /** The octets the good reads of a run bring from the client of `c`. */
  function ReadBytes(steps: seq<Step>, c: nat): seq<Octet> {
    if steps == [] then [] else
      (if steps[0].ReadDone? && steps[0].context == c && steps[0].success then steps[0].bytes else [])
      + ReadBytes(steps[1..], c)
  }

  lemma StepReceives(w: World, s: Step, c: nat)
    requires Enabled(w, s) && NoDangling(w, s)
    ensures Bytes(Next(w, s).received, c) == Bytes(w.received, c) + ReadBytes([s], c)
  {
    assert [s][1..] == [];
  }

  /** Over every run what counts as received from a client is all that its good reads have brought. */
  lemma {:induction false} ReceivedExactly(w: World, steps: seq<Step>, x: World, c: nat)
    requires ReachedBy(w, steps, x)
    ensures Bytes(x.received, c) == Bytes(w.received, c) + ReadBytes(steps, c)
    decreases |steps|
  {
    if steps != [] {
      StepReceives(w, steps[0], c);
      hide Next, Enabled, NoDangling, Bytes;
      ReceivedExactly(Next(w, steps[0]), steps[1..], x, c);
      assert [steps[0]][1..] == [];
    }
  }

  /** One round of the echo: a good read, an accepted send and a good write bring back everything the
      client has sent so far, and then the next read can start. */
  lemma EchoRound(w: World, c: nat, j: nat, k: nat, bytes: seq<Octet>) returns (x: World)
    requires Inv(w) && Op(c, Read) in w.pending && j !in w.held && k !in w.held && 1 <= |bytes| <= 1023
    ensures ReachedBy(w, [ReadDone(j, c, bytes, true), Handle(j, true), WriteDone(k, c, true)], x)
    ensures Bytes(x.received, c) == Bytes(w.received, c) + bytes && Bytes(x.echoed, c) == Bytes(x.received, c)
    ensures k in x.held && x.held[k] == Held(c, true)
  {
    var read, handle, write := ReadDone(j, c, bytes, true), Handle(j, true), WriteDone(k, c, true);
    OperationTypeIsRight(w, c, Read);
    CaughtUpWhileReading(w, c);
    CompletionOutcome(w, read);
    StepKeeps(w, read);
    var w1 := Next(w, read);
    assert w1.contexts[c].kind == Read && Bytes(w1.echoed, c) == Bytes(w.echoed, c);
    HandleOutcome(w1, j, true);
    StepKeeps(w1, handle);
    var w2 := Next(w1, handle);
    assert Bytes(w2.echoed, c) == Bytes(w1.echoed, c) && Bytes(w2.received, c) == Bytes(w1.received, c);
    assert k !in w2.held;
    assert Op(c, Write) in w2.pending;
    CompletionOutcome(w2, write);
    x := Next(w2, write);
    assert Bytes(x.received, c) == Bytes(w2.received, c);
    hide Inv, Next, Bytes;
    ThreeSteps(w, read, handle, write);
  }

  lemma ThreeSteps(w: World, a: Step, b: Step, c: Step)
    requires Enabled(w, a) && NoDangling(w, a)
    requires Enabled(Next(w, a), b) && NoDangling(Next(w, a), b)
    requires Enabled(Next(Next(w, a), b), c) && NoDangling(Next(Next(w, a), b), c)
    ensures ReachedBy(w, [a, b, c], Next(Next(Next(w, a), b), c))
  {
    hide Next, Enabled, NoDangling;
    var x := Next(Next(Next(w, a), b), c);
    assert [a, b, c][1..] == [b, c] && [b, c][1..] == [c] && [c][1..] == [];
    assert ReachedBy(x, [], x);
    assert ReachedBy(Next(Next(w, a), b), [c], x);
    assert ReachedBy(Next(w, a), [b, c], x);
  }
}
