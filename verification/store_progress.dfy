/** How each locked stretch of closing the store ends, and that a close that was asked for
    can always come to its end. */
module StoreProgress {
  import opened Wrappers
  import opened StoreLifetime

  // ----- One stretch under the lock -----

  /** A call to Close turns an open store to closing for good. It returns at once exactly if
      the store is closed, waits for a close in progress, then for active operations, and
      otherwise claims the close for itself. */
  lemma EnterIs(l: Lifetime)
    ensures var (m, v) := EnterClose(l);
      && (v == Back <==> l.stage == Closed)
      && (v == WaitClose <==> l.stage != Closed && l.inProgress)
      && (v == WaitDrain <==> l.stage != Closed && !l.inProgress && l.active > 0)
      && (v == Go <==> l.stage != Closed && !l.inProgress && l.active <= 0)
      && m.stage == (if l.stage == Closed then Closed else Closing)
      && m.active == l.active && (m.inProgress <==> l.inProgress || v == Go)
  {
  }

  /** Woken from another close, the call looks again; woken from the drain, it no longer asks
      about other closers. Neither turns the store back. */
  lemma ResumeIs(l: Lifetime)
    ensures var (m, v) := ResumeClose(l);
      && (v == Back <==> l.stage == Closed)
      && (v == WaitClose <==> l.stage != Closed && l.inProgress)
      && (v == WaitDrain <==> l.stage != Closed && !l.inProgress && l.active > 0)
      && m == l.(inProgress := l.inProgress || v == Go)
    ensures var (m, v) := PassDrain(l);
      v == (if l.active > 0 then WaitDrain else Go) && m == l.(inProgress := l.inProgress || v == Go)
  {
  }

  /** A close lets the next one in, and closes the store for good exactly if it succeeded. */
  lemma FinishIs(l: Lifetime, ok: bool)
    ensures var m := FinishClose(l, ok);
      && !m.inProgress && m.active == l.active
      && (m.stage == Closed <==> ok || l.stage == Closed) && (!ok ==> m.stage == l.stage)
  {
  }

  /** An operation is admitted exactly while the store is open. */
  lemma BeginIs(l: Lifetime)
    ensures var (m, ok) := Begin(l);
      (ok <==> l.stage == Open) && m == l.(active := if ok then l.active + 1 else l.active)
  {
  }

  /** Where a closer is after a stretch under the lock: back, parked on what it waits for, or
      closing the backend. The others stay where they are. */
  predicate LeftAs(w: World, u: World, c: nat, outcome: (Lifetime, Verdict))
    requires c in w.closers
  {
    && u.life == outcome.0 && u.operations == w.operations && u.successes == w.successes
    && u.starts == (if outcome.1 == Go then w.starts + 1 else w.starts)
    && u.closers.Keys == w.closers.Keys && (forall d :: d in w.closers && d != c ==> u.closers[d] == w.closers[d])
    && (u.closers[c].Idle? <==> outcome.1 == Back)
    && (u.closers[c].ParkedClose? <==> outcome.1 == WaitClose)
    && (u.closers[c].ParkedDrain? <==> outcome.1 == WaitDrain)
    && (u.closers[c].Physical? <==> outcome.1 == Go)
  }

  lemma ClosersAre(w: World, c: nat)
    requires c in w.closers
    ensures w.closers[c].Idle? ==> LeftAs(w, Next(w, CallClose(c)), c, EnterClose(w.life))
    ensures w.closers[c].WokenClose? ==> LeftAs(w, Next(w, WakeFromClose(c)), c, ResumeClose(w.life))
    ensures w.closers[c].WokenDrain? ==> LeftAs(w, Next(w, WakeFromDrain(c)), c, PassDrain(w.life))
  {
  }

  /** An operation that is refused is over; one that was admitted counts until its finish
      function is first called. */
  lemma OperationsAre(w: World, o: nat)
    requires o in w.operations
    ensures w.operations[o].NotBegun? ==>
      var u := Next(w, Admit(o));
      && u.operations == w.operations[o := if w.life.stage == Stage.Open then Operation.Active else Over]
      && u.life == w.life.(active := w.life.active + if w.life.stage == Stage.Open then 1 else 0)
      && u.closers == w.closers
    ensures w.operations[o].Active? ==>
      var u := Next(w, Complete(o));
      u.operations == w.operations[o := Over] && u.life == w.life.(active := w.life.active - 1)
    ensures w.operations[o].Over? ==> Next(w, Complete(o)) == w
  {
  }

  /** Nobody stays parked: the end of a close wakes every closer, and so does the end of the
      last active operation. */
  lemma NobodyStaysParked(w: World, step: Step)
    requires Sound(w) && Enabled(w, step)
    requires step.EndClose? || (step.Complete? && w.operations[step.op].Active? && w.life.active == 1)
    ensures forall c :: c in Next(w, step).closers ==>
      !Next(w, step).closers[c].ParkedClose? && !Next(w, step).closers[c].ParkedDrain?
  {
  }

  // ----- The Host comes to its end -----

  ghost predicate HostSound(h: Host) {
    OneWorker(h) && Sound(h.store)
  }

  lemma HostStepKeepsSound(h: Host, step: HostStep)
    requires HostSound(h) && HostEnabled(h, step)
    ensures HostSound(HostNext(h, step))
  {
    hide Sound, OneWorker, Next, Enabled;
    HostStepKeeps(h, step);
    match step
    case StoreStep(s) => StepKeepsSound(h.store, s);
    case EnterStore => StepKeepsSound(h.store, CallClose(0));
    case _ =>
  }

  /** How far the worker still has to go. */
  function Distance(h: Host): nat {
    if h.worker.Started? then 6
    else if !h.worker.InStore? || 0 !in h.store.closers then 0
    else
      match h.store.closers[0]
      case ParkedClose => 6
      case WokenClose => 5
      case ParkedDrain => 4
      case WokenDrain => if h.store.life.active > 0 then 5 else 3
      case Physical => 2
      case Idle => 1
  }

  ghost predicate Leads(h: Host, steps: seq<HostStep>, u: Host) {
    HostRun(h, steps, |steps|) == Some(u)
  }

  lemma {:induction false} HostRunOn(h: Host, first: HostStep, later: seq<HostStep>, k: nat)
    requires HostEnabled(h, first) && k <= |later|
    ensures HostRun(h, [first] + later, k + 1) == HostRun(HostNext(h, first), later, k)
  {
    hide HostEnabled, HostNext;
    var steps := [first] + later;
    if k == 0 {
      assert HostRun(h, steps, 0) == Some(h) && steps[0] == first;
    } else {
      HostRunOn(h, first, later, k - 1);
      assert steps[k] == later[k - 1];
    }
  }

  /** The worker comes nearer to its end, or an operation that it waits for ends. */
  ghost predicate Nearer(h: Host, u: Host) {
    && u.closing
    && (Distance(u) < Distance(h) ||
        (Distance(u) == Distance(h) && |ActiveOnes(u.store.operations)| < |ActiveOnes(h.store.operations)|))
  }

  /** Some step brings the worker on. */
  lemma Onward(h: Host) returns (step: HostStep)
    requires HostSound(h) && h.closing
    ensures HostEnabled(h, step)
    ensures var u := HostNext(h, step);
      if step.FinishShutdown? then u.closed && u.store.starts == 1 else Nearer(h, u)
  {
    if h.worker.Started? {
      step := EnterStore;
    } else {
      var c := WorkerIsInside(h);
      match c
      case WokenClose => step := StoreStep(WakeFromClose(0));
      case ParkedDrain => step := DrainsOn(h);
      case WokenDrain => step := StoreStep(WakeFromDrain(0));
      case Physical =>
        step := StoreStep(EndClose(0, true));
        BroadcastIsWoken(h.store.closers[0 := Closer.Idle]);
      case _ => step := FinishShutdown;
    }
  }

  /** An operation that the worker waits for ends. */
  lemma DrainsOn(h: Host) returns (step: HostStep)
    requires HostSound(h) && h.closing && h.worker.InStore? && IsAt(h.store, 0, ParkedDrain)
    ensures HostEnabled(h, step) && step.StoreStep? && Nearer(h, HostNext(h, step))
  {
    assert ActiveOnes(h.store.operations) != {};
    var o :| o in ActiveOnes(h.store.operations);
    step := StoreStep(Complete(o));
    var u := HostNext(h, step);
    assert ActiveOnes(u.store.operations) == ActiveOnes(h.store.operations) - {o};
    BroadcastIsWoken(h.store.closers);
  }

  /** The worker never waits for another close: there is no other closer. */
  lemma WorkerIsInside(h: Host) returns (c: Closer)
    requires HostSound(h) && h.worker.InStore?
    ensures IsAt(h.store, 0, c) && !c.ParkedClose?
    ensures !c.Physical? ==> !h.store.life.inProgress
    ensures c.ParkedDrain? ==> ActiveOnes(h.store.operations) != {}
  {
    c := h.store.closers[0];
  }

  /** A Host that is closing can always come to its end, and its store has then been closed
      physically exactly once. */
  lemma {:induction false} HostCanFinish(h: Host) returns (steps: seq<HostStep>, u: Host)
    requires HostSound(h) && h.closing
    ensures Leads(h, steps, u) && u.closed && u.store.starts == 1
    decreases Distance(h), |ActiveOnes(h.store.operations)|
  {
    hide HostSound, HostNext, HostEnabled, Distance;
    var first := Onward(h);
    var next := HostNext(h, first);
    HostStepKeepsSound(h, first);
    if first.FinishShutdown? {
      steps, u := [first], next;
      assert HostRun(h, [first], 0) == Some(h);
    } else {
      var later;
      later, u := HostCanFinish(next);
      steps := [first] + later;
      HostRunOn(h, first, later, |later|);
    }
  }

  /** So can every run of the Host once Shutdown was called. */
  lemma {:induction false} HostRunsCanFinish(h: Host, steps: seq<HostStep>, k: nat)
    requires k <= |steps| && HostRun(h, steps, k).Some?
    requires Fresh(h.store) && 0 in h.store.closers && h.worker.NotStarted? && !h.closing && !h.closed
    ensures HostSound(HostRun(h, steps, k).value)
    ensures var now := HostRun(h, steps, k).value;
      now.closing ==> exists rest, end :: Leads(now, rest, end) && end.closed && end.store.starts == 1
  {
    hide Sound, HostNext, HostEnabled, OneWorker, Leads;
    if k > 0 {
      HostRunsCanFinish(h, steps, k - 1);
      HostStepKeepsSound(HostRun(h, steps, k - 1).value, steps[k - 1]);
    } else {
      FreshIsSound(h.store);
      HostClosesOnce(h, steps, 0);
    }
    var now := HostRun(h, steps, k).value;
    if now.closing {
      var rest, end := HostCanFinish(now);
    }
  }
}
