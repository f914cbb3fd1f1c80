/** The readiness of canonical storage: who may proceed, and who is woken when an attempt
    ends. Every method runs under one lock, so it is one step. */
module StorageReadiness {
  import opened Wrappers

  datatype Stage = Pending | Running | Ready | Broken | Cancelled

  datatype Failure = Failure(cancelled: bool, text: string)

  datatype Status = Status(stage: Stage, phase: string, completed: int, total: int, error: string)

  /** The fields, and the channels ever made: those below `made`, of which `open` are not
      closed. Closing a closed channel panics. */
  datatype Book = Book(status: Status, done: Option<nat>, usableDone: nat, running: bool, ready: bool, usable: bool,
                       err: Option<Failure>, open: set<nat>, made: nat, panicked: bool)

  const MIGRATING := "migrating"

  const FRESH := Book(Status(Pending, "", 0, 0, ""), None, 0, false, false, false, None, {0}, 1, false)

  function Close(b: Book, channel: Option<nat>): Book {
    if channel.None? || channel.value !in b.open then b.(panicked := true) else b.(open := b.open - {channel.value})
  }

  function Begun(b: Book): Book {
    b.(running := true, done := Some(b.made), open := b.open + {b.made}, made := b.made + 1,
       status := Status(Running, MIGRATING, 0, 0, ""))
  }

  function MarkReady(b: Book): Book {
    var c := if b.running && b.done.Some? then Close(b, b.done) else b;
    var d := if !b.usable then Close(c, Some(b.usableDone)) else c;
    d.(running := false, ready := true, usable := true, err := None, status := Status(Ready, "", 0, 0, ""))
  }

  function MarkUsable(b: Book): Book {
    var c := if b.usable then b else Close(b.(usable := true), Some(b.usableDone));
    if c.running then c else Begun(c)
  }

  /** Whether this call started an attempt, and what there is to wait for. */
  function Begin(b: Book): (Book, Option<nat>, bool) {
    if b.ready then (b, None, false)
    else if b.running then (b, b.done, false)
    else
      var c := Begun(b.(err := None));
      (c, c.done, true)
  }

  function Update(b: Book, phase: string, completed: int, total: int): Book {
    if !b.running then b
    else b.(status := b.status.(stage := Running, phase := phase, completed := completed, total := total))
  }

  function Finish(b: Book, err: Option<Failure>): Book {
    if !b.running then b
    else
      var c := b.(running := false, err := err);
      var d :=
        if err.None? then
          var closed := if c.usable then c else Close(c, Some(c.usableDone));
          closed.(ready := true, usable := true, status := Status(Ready, "", 0, 0, ""))
        else
          c.(status := c.status.(stage := if err.value.cancelled then Cancelled else Broken, error := err.value.text));
      Close(d, d.done)
  }

  class Readiness {
    var status: Status
    var done: Option<nat>
    var usableDone: nat
    var running: bool
    var ready: bool
    var usable: bool
    var err: Option<Failure>
    var open: set<nat>
    var made: nat
    var panicked: bool

    function Value(): Book
      reads this
    {
      Book(status, done, usableDone, running, ready, usable, err, open, made, panicked)
    }

    constructor ()
      ensures Value() == FRESH
    {
      status := Status(Pending, "", 0, 0, "");
      done, usableDone, running, ready, usable, err := None, 0, false, false, false, None;
      open, made, panicked := {0}, 1, false;
    }

    method CloseChannel(channel: Option<nat>)
      modifies this`open, this`panicked
      ensures Value() == Close(old(Value()), channel)
    {
      if channel.None? || channel.value !in open {
        panicked := true;
      } else {
        open := open - {channel.value};
      }
    }

    method MakeDone()
      modifies this`done, this`open, this`made
      ensures Value() == old(Value()).(done := Some(old(made)), open := old(open) + {old(made)}, made := old(made) + 1)
    {
      done, open, made := Some(made), open + {made}, made + 1;
    }

    method SetReady()
      modifies this
      ensures Value() == MarkReady(old(Value()))
    {
      if running && done.Some? {
        CloseChannel(done);
      }
      if !usable {
        CloseChannel(Some(usableDone));
      }
      running, ready, usable, err := false, true, true, None;
      status := Status(Ready, "", 0, 0, "");
    }

    method SetUsable()
      modifies this
      ensures Value() == MarkUsable(old(Value()))
    {
      if !usable {
        usable := true;
        CloseChannel(Some(usableDone));
      }
      if running {
        return;
      }
      running := true;
      MakeDone();
      status := Status(Running, MIGRATING, 0, 0, "");
    }

    method Start() returns (wait: Option<nat>, started: bool)
      modifies this
      ensures (Value(), wait, started) == Begin(old(Value()))
    {
      if ready {
        return None, false;
      }
      if running {
        return done, false;
      }
      running, err := true, None;
      MakeDone();
      status := Status(Running, MIGRATING, 0, 0, "");
      return done, true;
    }

    method Report(phase: string, completed: int, total: int)
      modifies this`status
      ensures Value() == Update(old(Value()), phase, completed, total)
    {
      if !running {
        return;
      }
      status := status.(stage := Running, phase := phase, completed := completed, total := total);
    }

    method End(failure: Option<Failure>)
      modifies this
      ensures Value() == Finish(old(Value()), failure)
    {
      if !running {
        return;
      }
      running, err := false, failure;
      if failure.None? {
        if !usable {
          CloseChannel(Some(usableDone));
        }
        ready, usable := true, true;
        status := Status(Ready, "", 0, 0, "");
      } else {
        status := status.(stage := if failure.value.cancelled then Cancelled else Broken, error := failure.value.text);
      }
      CloseChannel(done);
    }
  }

  // ----- What every method keeps -----

  /** An attempt runs exactly while its channel is open; storage is usable exactly when the
      usable channel is closed; and no other channel is open. */
  predicate Kept(b: Book) {
    && !b.panicked
    && b.usableDone < b.made
    && (b.done.Some? ==> b.done.value < b.made && b.done.value != b.usableDone)
    && (b.running <==> b.done.Some? && b.done.value in b.open)
    && (b.usable <==> b.usableDone !in b.open)
    && (b.ready ==> b.usable)
    && (b.running <==> b.status.stage.Running?)
    && (forall c :: c in b.open ==> c < b.made && (c == b.usableDone || b.done == Some(c)))
  }

  datatype Op =
    | DoReady
    | DoUsable
    | DoBegin
    | DoUpdate(phase: string, completed: int, total: int)
    | DoFinish(err: Option<Failure>)

  function Apply(b: Book, op: Op): Book {
    match op
    case DoReady => MarkReady(b)
    case DoUsable => MarkUsable(b)
    case DoBegin => Begin(b).0
    case DoUpdate(phase, completed, total) => Update(b, phase, completed, total)
    case DoFinish(err) => Finish(b, err)
  }

  /** What later steps cannot take back. */
  predicate Later(b: Book, c: Book) {
    && (b.usable ==> c.usable) && (b.ready ==> c.ready)
    && b.made <= c.made && b.usableDone == c.usableDone
    && (forall x :: 0 <= x < b.made && x !in b.open ==> x !in c.open)
  }

  lemma ReadyKeeps(b: Book)
    requires Kept(b)
    ensures Kept(MarkReady(b)) && Later(b, MarkReady(b))
  {
  }

  lemma UsableKeeps(b: Book)
    requires Kept(b)
    ensures Kept(MarkUsable(b)) && Later(b, MarkUsable(b))
  {
  }

  lemma FinishKeeps(b: Book, err: Option<Failure>)
    requires Kept(b)
    ensures Kept(Finish(b, err)) && Later(b, Finish(b, err))
  {
  }

  lemma OpKeeps(b: Book, op: Op)
    requires Kept(b)
    ensures Kept(Apply(b, op)) && Later(b, Apply(b, op))
  {
    hide MarkReady, MarkUsable, Finish;
    match op
    case DoReady => ReadyKeeps(b);
    case DoUsable => UsableKeeps(b);
    case DoFinish(err) => FinishKeeps(b, err);
    case _ =>
  }

  // ----- Waiters -----

  datatype Outcome = Through | Refused(err: Failure) | NotStarted

  /** A caller of waitUsable (`early`) or wait. */
  datatype Waiter =
    | Looking(early: bool)
    | Blocked(early: bool, done: nat)
    | Returned(early: bool, outcome: Outcome)

  datatype World = World(book: Book, waiters: seq<Waiter>)

  datatype Step = Act(op: Op) | Arrive(early: bool) | Look(w: nat) | Wake(w: nat)

  function Looked(b: Book, early: bool): Waiter {
    if (if early then b.usable else b.ready) then Returned(early, Through)
    else if b.err.Some? then Returned(early, Refused(b.err.value))
    else if !b.running || b.done.None? then Returned(early, NotStarted)
    else Blocked(early, b.done.value)
  }

  /** The select of a blocked waiter can proceed. */
  predicate CanWake(b: Book, w: Waiter) {
    w.Blocked? && (w.done !in b.open || (w.early && b.usableDone !in b.open))
  }

  predicate Enabled(s: World, step: Step) {
    match step
    case Look(w) => w < |s.waiters| && s.waiters[w].Looking?
    case Wake(w) => w < |s.waiters| && CanWake(s.book, s.waiters[w])
    case _ => true
  }

  function Next(s: World, step: Step): World
    requires Enabled(s, step)
  {
    match step
    case Act(op) => s.(book := Apply(s.book, op))
    case Arrive(early) => s.(waiters := s.waiters + [Looking(early)])
    case Look(w) => s.(waiters := s.waiters[w := Looked(s.book, s.waiters[w].early)])
    case Wake(w) => s.(waiters := s.waiters[w := Looking(s.waiters[w].early)])
  }

  predicate Fair(b: Book, w: Waiter) {
    && (w.Blocked? ==> w.done < b.made && w.done != b.usableDone)
    && (w.Returned? && w.outcome.Through? ==> if w.early then b.usable else b.ready)
  }

  predicate Orderly(s: World) {
    Kept(s.book) && forall w :: 0 <= w < |s.waiters| ==> Fair(s.book, s.waiters[w])
  }

  lemma StepKeepsOrderly(s: World, step: Step)
    requires Orderly(s) && Enabled(s, step)
    ensures Orderly(Next(s, step)) && Later(s.book, Next(s, step).book)
  {
    hide Apply;
    if step.Act? {
      OpKeeps(s.book, step.op);
    }
  }

  function Run(s: World, steps: seq<Step>, k: nat): Option<World>
    requires k <= |steps|
  {
    if k == 0 then Some(s)
    else
      var before := Run(s, steps, k - 1);
      if before.Some? && Enabled(before.value, steps[k - 1]) then Some(Next(before.value, steps[k - 1])) else None
  }

  const OPENING := World(FRESH, [])

  lemma {:induction false} RunsStayOrderly(steps: seq<Step>, k: nat)
    requires k <= |steps| && Run(OPENING, steps, k).Some?
    ensures Orderly(Run(OPENING, steps, k).value)
  {
    hide Enabled, Next;
    if k > 0 {
      RunsStayOrderly(steps, k - 1);
      StepKeepsOrderly(Run(OPENING, steps, k - 1).value, steps[k - 1]);
    }
  }

  lemma {:induction false} RunsOnlyAdd(steps: seq<Step>, j: nat, k: nat)
    requires j <= k <= |steps| && Run(OPENING, steps, k).Some?
    ensures Run(OPENING, steps, j).Some? && Later(Run(OPENING, steps, j).value.book, Run(OPENING, steps, k).value.book)
    decreases k
  {
    hide Enabled, Next, Orderly;
    if j < k {
      RunsOnlyAdd(steps, j, k - 1);
      RunsStayOrderly(steps, k - 1);
      StepKeepsOrderly(Run(OPENING, steps, k - 1).value, steps[k - 1]);
    }
  }

  /** Over every interleaving: the books are kept, so no channel is closed twice; usable and
      ready are never taken back, nor is a closed channel reopened; whoever got through still
      may; and a waiter blocked on an attempt that has ended, or on storage that has become
      usable, can wake. */
  lemma ReadinessIsKept(steps: seq<Step>, j: nat, k: nat)
    requires j <= k <= |steps| && Run(OPENING, steps, k).Some?
    ensures var s := Run(OPENING, steps, k).value;
      && Kept(s.book)
      && Run(OPENING, steps, j).Some? && Later(Run(OPENING, steps, j).value.book, s.book)
      && (forall w :: 0 <= w < |s.waiters| && s.waiters[w].Blocked? ==>
            || CanWake(s.book, s.waiters[w])
            || (&& s.book.running
                && s.book.done == Some(s.waiters[w].done)
                && (s.waiters[w].early ==> !s.book.usable)))
      && (forall w :: 0 <= w < |s.waiters| && s.waiters[w].Returned? && s.waiters[w].outcome.Through? ==>
            if s.waiters[w].early then s.book.usable else s.book.ready)
  {
    RunsStayOrderly(steps, k);
    RunsOnlyAdd(steps, j, k);
  }

  // ----- What each method comes to -----

  /** Ready, for good, with everyone woken and no trace of an attempt. */
  predicate IsReady(b: Book) {
    && b.ready && b.usable && !b.running && b.err.None? && b.open == {}
    && b.status == Status(Ready, "", 0, 0, "")
  }

  /** A new attempt is under way, on a channel of its own that nobody has closed. */
  predicate HasBegun(before: Book, after: Book) {
    && after.running && after.done == Some(before.made) && after.made == before.made + 1
    && before.made in after.open
    && after.status == Status(Running, "migrating", 0, 0, "")
    && after.ready == before.ready
  }

  lemma SetReadyIs(b: Book)
    requires Kept(b)
    ensures IsReady(Apply(b, DoReady))
  {
  }

  /** Early callers are let through, and an attempt is under way: the one that was, or a
      new one. What failed before is still known. */
  lemma SetUsableIs(b: Book)
    requires Kept(b)
    ensures var c := Apply(b, DoUsable);
      && c.usable && c.usableDone !in c.open && c.running && c.err == b.err && c.ready == b.ready
      && if b.running then c.done == b.done && c.status == b.status && c.made == b.made else HasBegun(b, c)
  {
  }

  /** A start begins an attempt exactly if storage is not ready and none is under way; it
      then waits for its own, and otherwise for the one under way or for nothing. */
  lemma StartIs(b: Book)
    requires Kept(b)
    ensures var (c, wait, started) := Begin(b);
      && (started <==> !b.ready && !b.running)
      && (if started then HasBegun(b, c) && c.err.None? && c.usable == b.usable && wait == Some(b.made) else c == b)
      && (!started ==> wait == if b.ready then None else b.done)
      && (wait.Some? ==> wait.value in c.open)
  {
  }

  /** Progress is reported only of an attempt that is under way. */
  lemma ReportIs(b: Book, phase: string, completed: int, total: int)
    requires Kept(b)
    ensures Apply(b, DoUpdate(phase, completed, total)) ==
      if b.running then b.(status := Status(Running, phase, completed, total, b.status.error)) else b
  {
  }

  /** An attempt ends once: a success makes storage ready, a failure is kept with its text
      and the progress it had made, and both wake whoever waits for the attempt. */
  lemma EndIs(b: Book, err: Option<Failure>)
    requires Kept(b)
    ensures var c := Apply(b, DoFinish(err));
      if !b.running then c == b
      else if err.None? then IsReady(c)
      else
        && !c.running && c.err == err && c.ready == b.ready && c.usable == b.usable
        && b.done.value !in c.open && c.open == b.open - {b.done.value}
        && c.status == Status(if err.value.cancelled then Cancelled else Broken, b.status.phase, b.status.completed,
                              b.status.total, err.value.text)
  {
  }

  /** A waiter that looks is let through exactly if what it waits for is there, is refused
      with the last failure exactly if there is one, and otherwise waits for the attempt
      under way if there is any. */
  lemma LookIs(b: Book, early: bool)
    requires Kept(b)
    ensures var w, there := Looked(b, early), if early then b.usable else b.ready;
      && w.early == early
      && (w == Returned(early, Through) <==> there)
      && (forall e :: w == Returned(early, Refused(e)) <==> !there && b.err == Some(e))
      && (w == Returned(early, NotStarted) <==> !there && b.err.None? && !b.running)
      && (w.Blocked? <==> !there && b.err.None? && b.running)
      && (w.Blocked? ==> Some(w.done) == b.done && w.done in b.open)
  {
  }

  /** Closing a channel that is not open is a panic. */
  lemma CloseIs(b: Book, channel: Option<nat>)
    ensures var c := Close(b, channel);
      if exists x :: channel == Some(x) && x in b.open then c == b.(open := b.open - {channel.value})
      else c == b.(panicked := true)
  {
  }

  /** Nobody waits for ever: whatever a waiter is doing, once storage is ready it wakes if it
      was blocked, looks, and is through. */
  lemma WaitersGetThrough(s: World, w: nat)
    requires Orderly(s) && w < |s.waiters| && !s.waiters[w].Returned?
    ensures var steps := [Act(DoReady)] + (if s.waiters[w].Blocked? then [Wake(w)] else []) + [Look(w)];
      var end := Run(s, steps, |steps|);
      end.Some? && w < |end.value.waiters| && end.value.waiters[w] == Returned(s.waiters[w].early, Through)
  {
    hide Apply;
    SetReadyIs(s.book);
    OpKeeps(s.book, DoReady);
    var ready := s.(book := Apply(s.book, DoReady));
    if s.waiters[w].Blocked? {
      var steps := [Act(DoReady), Wake(w), Look(w)];
      assert [Act(DoReady)] + [Wake(w)] + [Look(w)] == steps;
      assert Run(s, steps, 0) == Some(s);
      assert Run(s, steps, 1) == Some(ready);
      assert Run(s, steps, 2) == Some(Next(ready, Wake(w)));
    } else {
      var steps := [Act(DoReady), Look(w)];
      assert [Act(DoReady)] + [] + [Look(w)] == steps;
      assert Run(s, steps, 0) == Some(s);
      assert Run(s, steps, 1) == Some(ready);
    }
  }

  /** Whoever comes is heard: a new caller looks for itself, and is through once storage is
      ready. */
  lemma NewcomersGetThrough(s: World, early: bool)
    requires Orderly(s)
    ensures var end := Run(s, [Arrive(early), Act(DoReady), Look(|s.waiters|)], 3);
      && end.Some? && |end.value.waiters| == |s.waiters| + 1
      && end.value.waiters[|s.waiters|] == Returned(early, Through)
      && forall w :: 0 <= w < |s.waiters| ==> end.value.waiters[w] == s.waiters[w]
  {
    hide Apply;
    var steps := [Arrive(early), Act(DoReady), Look(|s.waiters|)];
    SetReadyIs(s.book);
    var arrived := s.(waiters := s.waiters + [Looking(early)]);
    assert Run(s, steps, 0) == Some(s);
    assert Run(s, steps, 1) == Some(arrived);
    assert Run(s, steps, 2) == Some(arrived.(book := Apply(s.book, DoReady)));
  }
}
