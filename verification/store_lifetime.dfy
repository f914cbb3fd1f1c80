/** The lifetime of the runtime store: operations, any number of closers, and the Host that
    closes it. A step is what a thread does under the lifetime lock until it lets go or waits. */
module StoreLifetime {
  import opened Wrappers

  datatype Stage = Open | Closing | Closed

  datatype Lifetime = Lifetime(stage: Stage, active: int, inProgress: bool)

  /** How a locked stretch of Close ends: returning, waiting for another close, waiting for
      operations to drain, or letting go of the lock to close the backend. */
  datatype Verdict = Back | WaitClose | WaitDrain | Go

  function PassDrain(l: Lifetime): (Lifetime, Verdict) {
    if l.active > 0 then (l, WaitDrain) else (l.(inProgress := true), Go)
  }

  function PassClose(l: Lifetime): (Lifetime, Verdict) {
    if l.inProgress then (l, WaitClose) else PassDrain(l)
  }

  function EnterClose(l: Lifetime): (Lifetime, Verdict) {
    if l.stage.Closed? then (l, Back) else PassClose(l.(stage := Closing))
  }

  /** Woken from the wait for another close. */
  function ResumeClose(l: Lifetime): (Lifetime, Verdict) {
    if l.stage.Closed? then (l, Back) else PassClose(l)
  }

  function FinishClose(l: Lifetime, ok: bool): Lifetime {
    l.(inProgress := false, stage := if ok then Closed else l.stage)
  }

  function Begin(l: Lifetime): (Lifetime, bool) {
    if l.stage.Open? then (l.(active := l.active + 1), true) else (l, false)
  }

  class Store {
    var stage: Stage
    var active: int
    var inProgress: bool

    function Value(): Lifetime
      reads this
    {
      Lifetime(stage, active, inProgress)
    }

    method BeginOperation() returns (ok: bool)
      modifies this`active
      ensures (Value(), ok) == Begin(old(Value()))
    {
      if !stage.Open? {
        return false;
      }
      active := active + 1;
      return true;
    }

    method EndOperation() returns (broadcast: bool)
      modifies this`active
      ensures Value() == old(Value()).(active := old(active) - 1) && broadcast == (active == 0)
    {
      active := active - 1;
      return active == 0;
    }

    method DrainOrGo() returns (verdict: Verdict)
      modifies this`inProgress
      ensures (Value(), verdict) == PassDrain(old(Value()))
    {
      if active > 0 {
        return WaitDrain;
      }
      inProgress := true;
      return Go;
    }

    method Enter() returns (verdict: Verdict)
      modifies this
      ensures (Value(), verdict) == EnterClose(old(Value()))
    {
      if stage.Closed? {
        return Back;
      }
      if stage.Open? {
        stage := Closing;
      }
      if inProgress {
        return WaitClose;
      }
      verdict := DrainOrGo();
    }

    method Resume() returns (verdict: Verdict)
      modifies this
      ensures (Value(), verdict) == ResumeClose(old(Value()))
    {
      if stage.Closed? {
        return Back;
      }
      if inProgress {
        return WaitClose;
      }
      verdict := DrainOrGo();
    }

    method Finish(ok: bool)
      modifies this
      ensures Value() == FinishClose(old(Value()), ok)
    {
      inProgress := false;
      if ok {
        stage := Closed;
      }
    }
  }

  // ----- All interleavings -----

  datatype Closer = Idle | ParkedClose | WokenClose | ParkedDrain | WokenDrain | Physical

  /** The finish function of an operation takes effect once. */
  datatype Operation = NotBegun | Active | Over

  datatype World = World(
    life: Lifetime, closers: map<nat, Closer>, operations: map<nat, Operation>, starts: nat, successes: nat)

  datatype Step =
    | Admit(op: nat)
    | Complete(op: nat)
    | CallClose(closer: nat)
    | WakeFromClose(closer: nat)
    | WakeFromDrain(closer: nat)
    | EndClose(closer: nat, ok: bool)

  predicate Enabled(w: World, step: Step) {
    match step
    case Admit(o) => o in w.operations && w.operations[o].NotBegun?
    case Complete(o) => o in w.operations && !w.operations[o].NotBegun?
    case CallClose(c) => c in w.closers && w.closers[c].Idle?
    case WakeFromClose(c) => c in w.closers && w.closers[c].WokenClose?
    case WakeFromDrain(c) => c in w.closers && w.closers[c].WokenDrain?
    case EndClose(c, _) => c in w.closers && w.closers[c].Physical?
  }

  function Woken(c: Closer): Closer {
    match c
    case ParkedClose => WokenClose
    case ParkedDrain => WokenDrain
    case _ => c
  }

  function Broadcast(closers: map<nat, Closer>): map<nat, Closer> {
    map c | c in closers :: Woken(closers[c])
  }

  function Goes(w: World, c: nat, outcome: (Lifetime, Verdict)): World
    requires c in w.closers
  {
    var closer := match outcome.1
      case Back => Idle
      case WaitClose => ParkedClose
      case WaitDrain => ParkedDrain
      case Go => Physical;
    w.(life := outcome.0, closers := w.closers[c := closer], starts := w.starts + if outcome.1.Go? then 1 else 0)
  }

  function Next(w: World, step: Step): World
    requires Enabled(w, step)
  {
    match step
    case Admit(o) =>
      var (life, ok) := Begin(w.life);
      w.(life := life, operations := w.operations[o := if ok then Active else Over])
    case Complete(o) =>
      if w.operations[o].Over? then w
      else
        var life := w.life.(active := w.life.active - 1);
        var closers := if life.active == 0 then Broadcast(w.closers) else w.closers;
        w.(life := life, operations := w.operations[o := Over], closers := closers)
    case CallClose(c) => Goes(w, c, EnterClose(w.life))
    case WakeFromClose(c) => Goes(w, c, ResumeClose(w.life))
    case WakeFromDrain(c) => Goes(w, c, PassDrain(w.life))
    case EndClose(c, ok) =>
      var closers := Broadcast(w.closers[c := Idle]);
      w.(life := FinishClose(w.life, ok), closers := closers, successes := w.successes + if ok then 1 else 0)
  }

  function ActiveOnes(operations: map<nat, Operation>): set<nat> {
    set o | o in operations && operations[o].Active?
  }

  predicate IsAt(w: World, c: nat, closer: Closer) {
    c in w.closers && w.closers[c] == closer
  }

  /** Operations are counted, a physical close has none beside it, and every wait is for
      something that will end it. */
  predicate Sound(w: World) {
    && w.life.active == |ActiveOnes(w.operations)|
    && (forall c :: c in w.closers && !w.closers[c].Idle? ==> !w.life.stage.Open?)
    && (forall c :: c in w.closers && w.closers[c].ParkedDrain? ==> w.life.active > 0)
    && (forall c :: c in w.closers && w.closers[c].ParkedClose? ==> w.life.inProgress)
    && (w.life.inProgress ==> exists c :: c in w.closers && w.closers[c].Physical?)
    && (w.starts > 0 ==> !w.life.stage.Open? && w.life.active == 0)
    && (forall c :: c in w.closers && w.closers[c].Physical? ==> w.starts > 0)
    && (w.life.stage.Closed? ==> w.successes > 0 && w.starts > 0)
  }

  lemma GoesKeepsSound(w: World, c: nat, outcome: (Lifetime, Verdict))
    requires Sound(w) && c in w.closers && !w.closers[c].Physical?
    requires
      || outcome == EnterClose(w.life)
      || (!w.closers[c].Idle? && (outcome == ResumeClose(w.life) || outcome == PassDrain(w.life)))
    ensures Sound(Goes(w, c, outcome))
  {
    var u := Goes(w, c, outcome);
    if outcome.1.Go? {
      assert u.closers[c].Physical?;
    } else if w.life.inProgress {
      var p :| p in w.closers && w.closers[p].Physical?;
      assert u.closers[p].Physical?;
    }
  }

  lemma AdmitKeepsSound(w: World, o: nat)
    requires Sound(w) && Enabled(w, Admit(o))
    ensures Sound(Next(w, Admit(o)))
  {
    var u := Next(w, Admit(o));
    if w.life.stage.Open? {
      assert ActiveOnes(u.operations) == ActiveOnes(w.operations) + {o};
      assert o !in ActiveOnes(w.operations);
    } else {
      assert ActiveOnes(u.operations) == ActiveOnes(w.operations);
    }
  }

  lemma CompleteKeepsSound(w: World, o: nat)
    requires Sound(w) && Enabled(w, Complete(o))
    ensures Sound(Next(w, Complete(o)))
  {
    if w.operations[o].Active? {
      var u := Next(w, Complete(o));
      assert ActiveOnes(u.operations) == ActiveOnes(w.operations) - {o};
      assert o in ActiveOnes(w.operations);
      BroadcastIsWoken(w.closers);
    }
  }

  lemma BroadcastIsWoken(closers: map<nat, Closer>)
    ensures Broadcast(closers).Keys == closers.Keys
    ensures forall c :: c in closers ==> Broadcast(closers)[c] == Woken(closers[c])
  {
  }

  lemma EndCloseKeepsSound(w: World, c: nat, ok: bool)
    requires Sound(w) && Enabled(w, EndClose(c, ok))
    ensures Sound(Next(w, EndClose(c, ok)))
  {
    BroadcastIsWoken(w.closers[c := Idle]);
  }

  lemma StepKeepsSound(w: World, step: Step)
    requires Sound(w) && Enabled(w, step)
    ensures Sound(Next(w, step))
  {
    hide Sound, Broadcast, EnterClose, ResumeClose, PassDrain, Goes;
    match step
    case Admit(o) => AdmitKeepsSound(w, o);
    case Complete(o) => CompleteKeepsSound(w, o);
    case CallClose(c) => GoesKeepsSound(w, c, EnterClose(w.life));
    case WakeFromClose(c) => GoesKeepsSound(w, c, ResumeClose(w.life));
    case WakeFromDrain(c) => GoesKeepsSound(w, c, PassDrain(w.life));
    case EndClose(c, ok) => EndCloseKeepsSound(w, c, ok);
  }

  function Run(w: World, steps: seq<Step>, k: nat): Option<World>
    requires k <= |steps|
  {
    if k == 0 then Some(w)
    else
      var before := Run(w, steps, k - 1);
      if before.Some? && Enabled(before.value, steps[k - 1]) then Some(Next(before.value, steps[k - 1])) else None
  }

  lemma {:induction false} RunsStaySound(w: World, steps: seq<Step>, k: nat)
    requires k <= |steps| && Sound(w) && Run(w, steps, k).Some?
    ensures Sound(Run(w, steps, k).value)
  {
    hide Sound, Next, Enabled;
    if k > 0 {
      RunsStaySound(w, steps, k - 1);
      StepKeepsSound(Run(w, steps, k - 1).value, steps[k - 1]);
    }
  }

  predicate Fresh(w: World) {
    && w.life == Lifetime(Open, 0, false) && w.starts == 0 && w.successes == 0
    && (forall c :: c in w.closers ==> w.closers[c].Idle?)
    && (forall o :: o in w.operations ==> w.operations[o].NotBegun?)
  }

  lemma FreshIsSound(w: World)
    requires Fresh(w)
    ensures Sound(w)
  {
    assert ActiveOnes(w.operations) == {};
  }

  /** In every interleaving: once a physical close has started no operation is active, none
      is admitted, and that stays so; the count of operations is exact, so each finish took
      effect once; and a parked closer waits for an active operation or a physical close. */
  lemma ClosesAreQuiet(w: World, steps: seq<Step>, k: nat, op: nat)
    requires k <= |steps| && Fresh(w) && Run(w, steps, k).Some?
    ensures var u := Run(w, steps, k).value;
      && u.life.active == |ActiveOnes(u.operations)|
      && (u.starts > 0 ==>
        && ActiveOnes(u.operations) == {}
        && (Enabled(u, Admit(op)) ==> ActiveOnes(Next(u, Admit(op)).operations) == {}))
      && (forall c :: IsAt(u, c, Physical) ==> u.starts > 0)
      && (forall c :: IsAt(u, c, ParkedDrain) ==> ActiveOnes(u.operations) != {})
      && (forall c :: IsAt(u, c, ParkedClose) ==> exists d :: IsAt(u, d, Physical))
  {
    FreshIsSound(w);
    RunsStaySound(w, steps, k);
    var u := Run(w, steps, k).value;
    if u.life.inProgress {
      var d :| d in u.closers && u.closers[d].Physical?;
      assert IsAt(u, d, Physical);
    }
    if u.starts > 0 && Enabled(u, Admit(op)) {
      AdmitKeepsSound(u, op);
    }
  }

  /** A close that failed can be tried again: the next call goes through to the backend. */
  lemma FailedCloseIsRetried(w: World, c: nat, again: nat)
    requires Sound(w) && w.life.stage.Closing? && IsAt(w, c, Physical)
    requires IsAt(Next(w, EndClose(c, false)), again, Idle)
    ensures var u := Next(w, EndClose(c, false));
      Enabled(u, CallClose(again)) && IsAt(Next(u, CallClose(again)), again, Physical)
        && Next(u, CallClose(again)).starts == w.starts + 1
  {
    BroadcastIsWoken(w.closers[c := Idle]);
  }

  // ----- Two closers -----

  /** Past the wait for another close: draining, or closing the backend. */
  predicate Past(w: World, c: nat) {
    c in w.closers && (w.closers[c].ParkedDrain? || w.closers[c].WokenDrain? || w.closers[c].Physical?)
  }

  predicate Crowded(w: World) {
    exists c, d :: c in w.closers && d in w.closers && c != d && Past(w, c) && Past(w, d)
  }

  predicate Overlaps(w: World) {
    exists c, d :: c in w.closers && d in w.closers && c != d && w.closers[c].Physical? && w.closers[d].Physical?
  }

  /** Nothing new: operations end, and woken closers go on. */
  predicate OnlyDrains(steps: seq<Step>) {
    forall k :: 0 <= k < |steps| ==> steps[k].Complete? || steps[k].WakeFromDrain?
  }

  predicate LeadsTo(w: World, steps: seq<Step>, u: World) {
    Run(w, steps, |steps|) == Some(u)
  }

  lemma {:induction false} RunOn(w: World, front: seq<Step>, back: seq<Step>, k: nat)
    requires k <= |back| && Run(w, front, |front|).Some?
    ensures Run(w, front + back, |front| + k) == Run(Run(w, front, |front|).value, back, k)
  {
    if k == 0 {
      RunLooksBack(w, front, back, |front|);
    } else {
      RunOn(w, front, back, k - 1);
      assert (front + back)[|front| + k - 1] == back[k - 1];
    }
  }

  lemma {:induction false} RunLooksBack(w: World, front: seq<Step>, back: seq<Step>, k: nat)
    requires k <= |front|
    ensures Run(w, front + back, k) == Run(w, front, k)
  {
    if k > 0 {
      RunLooksBack(w, front, back, k - 1);
      assert (front + back)[k - 1] == front[k - 1];
    }
  }

  lemma DrainStepKeepsPast(w: World, step: Step, c: nat)
    requires Enabled(w, step) && (step.Complete? || step.WakeFromDrain?)
    ensures Past(Next(w, step), c) == Past(w, c) && Next(w, step).closers.Keys == w.closers.Keys
  {
    BroadcastIsWoken(w.closers);
  }

  lemma {:induction false} DrainsKeepPast(w: World, steps: seq<Step>, k: nat, c: nat)
    requires k <= |steps| && OnlyDrains(steps) && Run(w, steps, k).Some?
    ensures Past(Run(w, steps, k).value, c) == Past(w, c)
  {
    hide Next, Enabled, Past;
    if k > 0 {
      DrainsKeepPast(w, steps, k - 1, c);
      DrainStepKeepsPast(Run(w, steps, k - 1).value, steps[k - 1], c);
    }
  }

  /** Every active operation can end. */
  lemma {:induction false} OperationsEnd(w: World) returns (steps: seq<Step>, u: World)
    requires Sound(w)
    ensures OnlyDrains(steps) && LeadsTo(w, steps, u) && Sound(u) && u.life.active == 0
    decreases |ActiveOnes(w.operations)|
  {
    if w.life.active == 0 {
      steps, u := [], w;
    } else {
      var o :| o in ActiveOnes(w.operations);
      var first := Complete(o);
      var next := Next(w, first);
      CompleteKeepsSound(w, o);
      assert ActiveOnes(next.operations) == ActiveOnes(w.operations) - {o};
      var later;
      later, u := OperationsEnd(next);
      steps := [first] + later;
      assert Run(w, [first], 0) == Some(w);
      assert Run(w, [first], 1) == Some(next);
      RunOn(w, [first], later, |later|);
    }
  }

  lemma GoOn(w: World, c: nat) returns (steps: seq<Step>, u: World)
    requires Sound(w) && w.life.active == 0 && Past(w, c)
    ensures OnlyDrains(steps) && LeadsTo(w, steps, u) && Sound(u) && u.life.active == 0
    ensures IsAt(u, c, Physical)
    ensures forall d :: d in w.closers && d != c ==> d in u.closers && u.closers[d] == w.closers[d]
  {
    if w.closers[c].Physical? {
      steps, u := [], w;
    } else {
      steps, u := [WakeFromDrain(c)], Next(w, WakeFromDrain(c));
      assert Run(w, steps, 0) == Some(w);
      GoesKeepsSound(w, c, PassDrain(w.life));
    }
  }

  /** Runs one after the other. */
  lemma Joins(w: World, front: seq<Step>, mid: World, back: seq<Step>, u: World)
    requires OnlyDrains(front) && LeadsTo(w, front, mid) && OnlyDrains(back) && LeadsTo(mid, back, u)
    ensures OnlyDrains(front + back) && LeadsTo(w, front + back, u)
  {
    RunOn(w, front, back, |back|);
  }

  lemma DrainedCrowdOverlaps(w: World, c: nat, d: nat) returns (steps: seq<Step>, u: World)
    requires Sound(w) && w.life.active == 0 && c != d && Past(w, c) && Past(w, d)
    ensures OnlyDrains(steps) && LeadsTo(w, steps, u) && Overlaps(u)
  {
    hide Sound, Past, Run, OnlyDrains, Next, Enabled;
    PastIsCloser(w, c);
    PastIsCloser(w, d);
    var going, first := GoOn(w, c);
    SamePast(w, first, d);
    var gone;
    gone, u := GoOn(first, d);
    steps := going + gone;
    Joins(w, going, first, gone, u);
  }

  lemma SamePast(w: World, u: World, c: nat)
    requires Past(w, c) && c in u.closers && u.closers[c] == w.closers[c]
    ensures Past(u, c)
  {
  }

  lemma CrowdCanOverlap(w: World, c: nat, d: nat) returns (steps: seq<Step>, u: World)
    requires Sound(w) && c != d && Past(w, c) && Past(w, d)
    ensures OnlyDrains(steps) && LeadsTo(w, steps, u) && Overlaps(u)
  {
    hide Sound, Past, Overlaps, OnlyDrains, Next, Enabled;
    var ending, drained := OperationsEnd(w);
    DrainsKeepPast(w, ending, |ending|, c);
    DrainsKeepPast(w, ending, |ending|, d);
    var later;
    later, u := DrainedCrowdOverlaps(drained, c, d);
    steps := ending + later;
    Joins(w, ending, drained, later, u);
  }

  /** Two physical closes can come to overlap without any further call. */
  ghost predicate CanOverlap(w: World) {
    exists steps, u :: OnlyDrains(steps) && LeadsTo(w, steps, u) && Overlaps(u)
  }

  /** That is so exactly when two closers are past the wait for another close: that wait
      does not count one that drains. */
  lemma OverlapIffCrowded(w: World)
    requires Sound(w)
    ensures CanOverlap(w) <==> Crowded(w)
  {
    hide Sound, Past;
    if Crowded(w) {
      var c, d :| c in w.closers && d in w.closers && c != d && Past(w, c) && Past(w, d);
      var steps, u := CrowdCanOverlap(w, c, d);
    }
    forall steps, u | OnlyDrains(steps) && LeadsTo(w, steps, u) && Overlaps(u)
      ensures Crowded(w)
    {
      var c, d :| c in u.closers && d in u.closers && c != d && u.closers[c].Physical? && u.closers[d].Physical?;
      PhysicalIsPast(u, c);
      PhysicalIsPast(u, d);
      DrainsKeepPast(w, steps, |steps|, c);
      DrainsKeepPast(w, steps, |steps|, d);
      PastIsCloser(w, c);
      PastIsCloser(w, d);
    }
  }

  lemma PhysicalIsPast(w: World, c: nat)
    requires IsAt(w, c, Physical)
    ensures Past(w, c)
  {
  }

  lemma PastIsCloser(w: World, c: nat)
    requires Past(w, c)
    ensures c in w.closers
  {
  }

  lemma TwoClosersDrain(w: World) returns (steps: seq<Step>, u: World)
    requires Fresh(w) && w.closers == map[0 := Idle, 1 := Idle] && w.operations == map[0 := NotBegun]
    ensures LeadsTo(w, steps, u) && Past(u, 0) && Past(u, 1)
  {
    var a := Next(w, Admit(0));
    var b := Next(a, CallClose(0));
    u := Next(b, CallClose(1));
    steps := [Admit(0), CallClose(0), CallClose(1)];
    assert Run(w, steps, 0) == Some(w);
    assert Run(w, steps, 1) == Some(a);
    assert Run(w, steps, 2) == Some(b);
    assert Run(w, steps, 3) == Some(u);
  }

  /** It happens: two calls to Close while one operation is active. */
  lemma TwoClosersOverlap(w: World)
    requires Fresh(w) && w.closers == map[0 := Idle, 1 := Idle] && w.operations == map[0 := NotBegun]
    ensures exists steps, u :: LeadsTo(w, steps, u) && Overlaps(u)
  {
    hide Next, Enabled, Sound, Past, Overlaps;
    var front, crowd := TwoClosersDrain(w);
    FreshIsSound(w);
    RunsStaySound(w, front, |front|);
    var later, u := CrowdCanOverlap(crowd, 0, 1);
    RunOn(w, front, later, |later|);
    assert LeadsTo(w, front + later, u);
  }

  /** The backend was closed once if it was closed, and nobody is about to close it again. */
  predicate ClosedOnce(w: World) {
    && w.successes == (if w.life.stage.Closed? then 1 else 0)
    && (w.life.stage.Closed? ==> forall c :: c in w.closers ==> !Past(w, c))
  }

  lemma UncrowdedStep(w: World, step: Step)
    requires Sound(w) && ClosedOnce(w) && !Crowded(w) && Enabled(w, step)
    ensures ClosedOnce(Next(w, step))
  {
    match step
    case Complete(o) => BroadcastIsWoken(w.closers);
    case EndClose(c, ok) =>
      BroadcastIsWoken(w.closers[c := Idle]);
      assert Past(w, c);
    case _ =>
  }

  // ----- The call that makes the crowd -----

  predicate Draining(w: World, c: nat) {
    c in w.closers && (w.closers[c].ParkedDrain? || w.closers[c].WokenDrain?)
  }

  /** A call to Close that is not turned away, while another closer waits for operations to
      drain and none is closing the backend. */
  predicate CallsIntoDrain(w: World, step: Step) {
    && step.CallClose? && !w.life.stage.Closed? && !w.life.inProgress
    && exists d :: d in w.closers && Draining(w, d)
  }

  predicate Calm(w: World) {
    && !Crowded(w)
    && (forall c :: c in w.closers && w.closers[c].Physical? ==> w.life.inProgress)
    && (w.starts > 0 ==> forall c :: c in w.closers ==> !Draining(w, c))
    && (forall c :: c in w.closers && (w.closers[c].ParkedClose? || w.closers[c].WokenClose?) ==> w.starts > 0)
  }

  lemma CalmStep(w: World, step: Step)
    requires Sound(w) && Calm(w) && Enabled(w, step) && !CallsIntoDrain(w, step)
    ensures Calm(Next(w, step))
  {
    match step
    case Admit(o) => AdmitStaysCalm(w, o);
    case Complete(o) => CompleteStaysCalm(w, o);
    case CallClose(c) => CallStaysCalm(w, c);
    case WakeFromClose(c) => WokenCloseStaysCalm(w, c);
    case WakeFromDrain(c) => WokenDrainStaysCalm(w, c);
    case EndClose(c, ok) => EndStaysCalm(w, c, ok);
  }

  lemma AdmitStaysCalm(w: World, o: nat)
    requires Calm(w) && Enabled(w, Admit(o))
    ensures Calm(Next(w, Admit(o)))
  {
    SameCrowd(w, Next(w, Admit(o)));
  }

  lemma CompleteStaysCalm(w: World, o: nat)
    requires Calm(w) && Enabled(w, Complete(o))
    ensures Calm(Next(w, Complete(o)))
  {
    BroadcastIsWoken(w.closers);
    SameCrowd(w, Next(w, Complete(o)));
  }

  /** Nobody who was not past the wait is past it now. */
  lemma SameCrowd(w: World, u: World)
    requires !Crowded(w) && forall c :: c in u.closers && Past(u, c) ==> Past(w, c)
    ensures !Crowded(u)
  {
  }

  lemma AlonePast(u: World, c: nat)
    requires forall d :: d in u.closers && Past(u, d) ==> d == c
    ensures !Crowded(u)
  {
  }

  lemma CallStaysCalm(w: World, c: nat)
    requires Sound(w) && Calm(w) && Enabled(w, CallClose(c)) && !CallsIntoDrain(w, CallClose(c))
    ensures Calm(Next(w, CallClose(c)))
  {
    var u := Next(w, CallClose(c));
    if w.life.stage.Closed? || w.life.inProgress {
      SameCrowd(w, u);
    } else {
      assert forall d :: d in w.closers ==> !Draining(w, d);
      AlonePast(u, c);
    }
  }

  lemma WokenCloseStaysCalm(w: World, c: nat)
    requires Sound(w) && Calm(w) && Enabled(w, WakeFromClose(c))
    ensures Calm(Next(w, WakeFromClose(c)))
  {
    var u := Next(w, WakeFromClose(c));
    if w.life.stage.Closed? || w.life.inProgress {
      SameCrowd(w, u);
    } else {
      AlonePast(u, c);
    }
  }

  lemma WokenDrainStaysCalm(w: World, c: nat)
    requires Sound(w) && Calm(w) && Enabled(w, WakeFromDrain(c))
    ensures Calm(Next(w, WakeFromDrain(c)))
  {
    var u := Next(w, WakeFromDrain(c));
    SameCrowd(w, u);
    forall d | d in u.closers && d != c
      ensures !Draining(u, d)
    {
      assert Past(w, c);
    }
  }

  lemma EndStaysCalm(w: World, c: nat, ok: bool)
    requires Sound(w) && Calm(w) && Enabled(w, EndClose(c, ok))
    ensures Calm(Next(w, EndClose(c, ok)))
  {
    BroadcastIsWoken(w.closers[c := Idle]);
    assert Past(w, c);
    AlonePast(Next(w, EndClose(c, ok)), c);
  }

  lemma CallIntoDrainCrowds(w: World, step: Step)
    requires Enabled(w, step) && CallsIntoDrain(w, step)
    ensures Crowded(Next(w, step))
  {
    var d :| d in w.closers && Draining(w, d);
    assert Past(Next(w, step), d) && Past(Next(w, step), step.closer);
  }

  lemma FreshIsCalm(w: World)
    requires Fresh(w)
    ensures Calm(w)
  {
  }

  predicate CalledIntoDrain(w: World, steps: seq<Step>, k: nat)
    requires k <= |steps|
  {
    exists j: nat :: j < k && Run(w, steps, j).Some? && CallsIntoDrain(Run(w, steps, j).value, steps[j])
  }

  lemma {:induction false} RunHasPrefix(w: World, steps: seq<Step>, j: nat, k: nat)
    requires j <= k <= |steps| && Run(w, steps, k).Some?
    ensures Run(w, steps, j).Some?
  {
    if j < k {
      RunHasPrefix(w, steps, j, k - 1);
    }
  }

  lemma {:induction false} StaysCalm(w: World, steps: seq<Step>, k: nat)
    requires k <= |steps| && Fresh(w) && Run(w, steps, k).Some? && !CalledIntoDrain(w, steps, k)
    ensures Calm(Run(w, steps, k).value) && ClosedOnce(Run(w, steps, k).value)
  {
    hide Calm, ClosedOnce, Sound, Next, Enabled, CallsIntoDrain, Fresh;
    if k == 0 {
      FreshIsCalm(w);
      FreshIsClosedOnce(w);
    } else {
      var before := Run(w, steps, k - 1).value;
      assert !CallsIntoDrain(before, steps[k - 1]);
      StaysCalm(w, steps, k - 1);
      FreshIsSound(w);
      RunsStaySound(w, steps, k - 1);
      CalmIsUncrowded(before);
      CalmStep(before, steps[k - 1]);
      UncrowdedStep(before, steps[k - 1]);
    }
  }

  lemma CalmIsUncrowded(w: World)
    requires Calm(w)
    ensures !Crowded(w) && !Overlaps(w)
  {
    if Overlaps(w) {
      var c, d :| c in w.closers && d in w.closers && c != d && w.closers[c].Physical? && w.closers[d].Physical?;
      assert Past(w, c) && Past(w, d);
    }
  }

  /** Two physical closes can come to overlap out of some state of the first `k` steps. */
  ghost predicate ComesToOverlap(w: World, steps: seq<Step>, k: nat)
    requires k <= |steps|
  {
    exists j: nat :: j <= k && Run(w, steps, j).Some? && CanOverlap(Run(w, steps, j).value)
  }

  lemma CallMakesOverlap(w: World, steps: seq<Step>, j: nat, k: nat)
    requires j < k <= |steps| && Fresh(w) && Run(w, steps, k).Some?
    requires Run(w, steps, j).Some? && CallsIntoDrain(Run(w, steps, j).value, steps[j])
    ensures ComesToOverlap(w, steps, k)
  {
    hide Sound, Next, Enabled, Crowded, CallsIntoDrain, CanOverlap, Fresh;
    FreshIsSound(w);
    RunHasPrefix(w, steps, j + 1, k);
    CallIntoDrainCrowds(Run(w, steps, j).value, steps[j]);
    RunsStaySound(w, steps, j + 1);
    OverlapIffCrowded(Run(w, steps, j + 1).value);
  }

  /** The exact call: two physical closes can come to overlap, out of some state of a run
      and without any further call, if and only if in that run Close was called while
      another closer was draining and none was closing the backend. */
  lemma OverlapIffCalledIntoDrain(w: World, steps: seq<Step>, k: nat)
    requires k <= |steps| && Fresh(w) && Run(w, steps, k).Some?
    ensures ComesToOverlap(w, steps, k) <==> CalledIntoDrain(w, steps, k)
  {
    hide Sound, Run, Crowded, CallsIntoDrain, CanOverlap, Fresh;
    FreshIsSound(w);
    if CalledIntoDrain(w, steps, k) {
      var j: nat :| j < k && Run(w, steps, j).Some? && CallsIntoDrain(Run(w, steps, j).value, steps[j]);
      CallMakesOverlap(w, steps, j, k);
    }
    if ComesToOverlap(w, steps, k) {
      var j: nat :| j <= k && Run(w, steps, j).Some? && CanOverlap(Run(w, steps, j).value);
      hide CalledIntoDrain, ComesToOverlap;
      RunsStaySound(w, steps, j);
      OverlapIffCrowded(Run(w, steps, j).value);
      CrowdComesFromCall(w, steps, j, k);
    }
  }

  lemma CrowdComesFromCall(w: World, steps: seq<Step>, j: nat, k: nat)
    requires j <= k <= |steps| && Fresh(w) && Run(w, steps, j).Some? && Crowded(Run(w, steps, j).value)
    ensures CalledIntoDrain(w, steps, k)
  {
    hide Crowded, CallsIntoDrain, Fresh, Calm, ClosedOnce;
    if !CalledIntoDrain(w, steps, j) {
      StaysCalm(w, steps, j);
      CalmIsUncrowded(Run(w, steps, j).value);
    }
  }

  /** In a run without such a call the backend is closed at most once, by one closer at a
      time, and never again after it was closed. */
  lemma OtherRunsCloseOnce(w: World, steps: seq<Step>, k: nat)
    requires k <= |steps| && Fresh(w) && Run(w, steps, k).Some? && !CalledIntoDrain(w, steps, k)
    ensures ClosedOnce(Run(w, steps, k).value) && !Overlaps(Run(w, steps, k).value)
  {
    hide Calm, ClosedOnce, Overlaps, CalledIntoDrain, Fresh;
    StaysCalm(w, steps, k);
    CalmIsUncrowded(Run(w, steps, k).value);
  }

  lemma FreshIsClosedOnce(w: World)
    requires Fresh(w)
    ensures ClosedOnce(w)
  {
  }

  // ----- The Host -----

  /** finishShutdown runs on one goroutine, which is closer 0 of the store. */
  datatype Worker = NotStarted | Started | InStore | Done

  datatype Host = Host(closing: bool, closed: bool, worker: Worker, store: World)

  datatype HostStep = Shutdown | StoreStep(step: Step) | EnterStore | FinishShutdown

  predicate HostEnabled(h: Host, step: HostStep) {
    match step
    case Shutdown => true
    case StoreStep(s) => !s.CallClose? && Enabled(h.store, s)
    case EnterStore => h.worker.Started? && Enabled(h.store, CallClose(0))
    case FinishShutdown => h.worker.InStore? && IsAt(h.store, 0, Idle)
  }

  function HostNext(h: Host, step: HostStep): Host
    requires HostEnabled(h, step)
  {
    match step
    case Shutdown => if h.closed || h.closing then h else h.(closing := true, worker := Started)
    case StoreStep(s) => h.(store := Next(h.store, s))
    case EnterStore => h.(worker := InStore, store := Next(h.store, CallClose(0)))
    case FinishShutdown => h.(closed := true, closing := false, worker := Done)
  }

  /** The worker runs once, and only it closes the store. */
  predicate OneWorker(h: Host) {
    && (h.worker.NotStarted? <==> !h.closing && !h.closed)
    && (h.worker.Done? <==> h.closed) && !(h.closing && h.closed)
    && 0 in h.store.closers && (forall c :: c in h.store.closers && c != 0 ==> h.store.closers[c].Idle?)
    && h.store.starts <= 1
    && (h.worker.NotStarted? || h.worker.Started? ==> h.store.starts == 0 && IsAt(h.store, 0, Idle))
    && (h.worker.Done? ==> IsAt(h.store, 0, Idle) && h.store.starts == 1)
    && (h.worker.InStore? && IsAt(h.store, 0, Idle) ==> h.store.starts == 1)
    && (h.store.life.stage.Closed? ==> h.store.starts == 1)
    && (forall c :: c in h.store.closers && !h.store.closers[c].Idle? && !h.store.closers[c].Physical? ==>
      h.store.starts == 0)
    && h.store.successes + (if IsAt(h.store, 0, Physical) then 1 else 0) <= h.store.starts
  }

  lemma HostStepKeeps(h: Host, step: HostStep)
    requires OneWorker(h) && HostEnabled(h, step)
    ensures OneWorker(HostNext(h, step))
  {
    if step.StoreStep? {
      match step.step
      case Complete(o) => BroadcastIsWoken(h.store.closers);
      case EndClose(c, ok) => BroadcastIsWoken(h.store.closers[c := Idle]);
      case _ =>
    }
  }

  function HostRun(h: Host, steps: seq<HostStep>, k: nat): Option<Host>
    requires k <= |steps|
  {
    if k == 0 then Some(h)
    else
      var before := HostRun(h, steps, k - 1);
      if before.Some? && HostEnabled(before.value, steps[k - 1]) then Some(HostNext(before.value, steps[k - 1]))
      else None
  }

  /** However often and by whomever Shutdown is called, the Host starts at most one physical
      close of its store. */
  lemma {:induction false} HostClosesOnce(h: Host, steps: seq<HostStep>, k: nat)
    requires k <= |steps| && HostRun(h, steps, k).Some?
    requires Fresh(h.store) && 0 in h.store.closers && h.worker.NotStarted? && !h.closing && !h.closed
    ensures OneWorker(HostRun(h, steps, k).value)
    ensures HostRun(h, steps, k).value.store.starts <= 1 && !Overlaps(HostRun(h, steps, k).value.store)
  {
    hide HostNext, HostEnabled;
    if k > 0 {
      HostClosesOnce(h, steps, k - 1);
      HostStepKeeps(HostRun(h, steps, k - 1).value, steps[k - 1]);
    }
  }
}
