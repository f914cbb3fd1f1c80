/** Preparing threads one attempt at a time, and remembering a bounded number of failures. */
module ThreadPreparation {
  import opened Wrappers

  const RETAINED_FAILURES := 256

  /** An attempt for a thread; finished when its channel is closed. */
  datatype Attempt = Attempt(thread: string, finished: bool, err: Option<string>)

  /** The table of attempts by thread, and every attempt ever started by its address. */
  datatype Table = Table(threads: map<string, nat>, attempts: seq<Attempt>)

  predicate Finished(t: Table, thread: string) {
    thread in t.threads && t.threads[thread] < |t.attempts| && t.attempts[t.threads[thread]].finished
  }

  function FinishedIn(t: Table): set<string> {
    set thread | thread in t.threads && Finished(t, thread)
  }

  predicate DropsOnlyFinished(t: Table, u: Table) {
    && u.attempts == t.attempts
    && u.threads.Keys <= t.threads.Keys
    && (forall thread :: thread in u.threads ==> u.threads[thread] == t.threads[thread])
    && (forall thread :: thread in t.threads && thread !in u.threads ==> Finished(t, thread))
  }

  /** Trimming drops finished attempts only, and only as many as are over the bound. */
  predicate Trimmed(t: Table, u: Table) {
    && DropsOnlyFinished(t, u)
    && |FinishedIn(u)| == if |FinishedIn(t)| < RETAINED_FAILURES then |FinishedIn(t)| else RETAINED_FAILURES
  }

  lemma FinishedAreThere(t: Table)
    ensures FinishedIn(t) <= t.threads.Keys
  {
  }

  lemma FinishedIsFinished(t: Table, thread: string)
    ensures Finished(t, thread) <==> thread in FinishedIn(t)
  {
  }

  lemma FinishedWithout(t: Table, thread: string)
    requires Finished(t, thread)
    ensures var u := t.(threads := t.threads - {thread});
      FinishedIn(u) == FinishedIn(t) - {thread} && |FinishedIn(u)| == |FinishedIn(t)| - 1
    ensures forall s :: DropsOnlyFinished(s, t) ==> DropsOnlyFinished(s, t.(threads := t.threads - {thread}))
  {
    var u := t.(threads := t.threads - {thread});
    assert thread in FinishedIn(t);
    assert FinishedIn(u) == FinishedIn(t) - {thread};
    forall s | DropsOnlyFinished(s, t)
      ensures DropsOnlyFinished(s, u)
    {
      assert Finished(s, thread);
    }
  }

  class Preparations {
    var threads: map<string, nat>
    var attempts: seq<Attempt>

    function Value(): Table
      reads this
    {
      Table(threads, attempts)
    }

    method CountFinished() returns (completed: nat)
      ensures completed == |FinishedIn(Value())|
    {
      completed := 0;
      var left := threads.Keys;
      ghost var counted: set<string> := {};
      while left != {}
        invariant left <= threads.Keys
        invariant counted == FinishedIn(Value()) - left && completed == |counted|
        decreases left
      {
        var thread :| thread in left;
        left := left - {thread};
        if Finished(Value(), thread) {
          completed := completed + 1;
          counted := counted + {thread};
        }
      }
      assert counted == FinishedIn(Value());
    }

    /** trimThreadPreparationFailures, visiting the table in any order. */
    method Trim()
      modifies this`threads
      ensures Trimmed(old(Value()), Value())
    {
      hide FinishedIn, Finished;
      ghost var before := Value();
      var completed := CountFinished();
      var left := threads.Keys;
      FinishedAreThere(before);
      while left != {} && completed > RETAINED_FAILURES
        invariant left <= threads.Keys && attempts == before.attempts
        invariant DropsOnlyFinished(before, Value()) && completed == |FinishedIn(Value())|
        invariant completed == |FinishedIn(before)| || completed >= RETAINED_FAILURES
        invariant completed <= |FinishedIn(before)| && FinishedIn(Value()) <= left
        decreases left
      {
        var thread :| thread in left;
        left := left - {thread};
        if Finished(Value(), thread) {
          FinishedWithout(Value(), thread);
          threads := threads - {thread};
          completed := completed - 1;
        } else {
          FinishedIsFinished(Value(), thread);
        }
      }
    }

    /** The locked region of PrepareThread: join the attempt under way or start one. */
    method Prepare(thread: string, open: bool) returns (attempt: Option<nat>)
      modifies this
      ensures (Value(), attempt) == Joined(old(Value()), thread, open)
    {
      ghost var before := Value();
      if thread in threads {
        var current := threads[thread];
        if current < |attempts| && attempts[current].finished {
          // Each explicit retry gets a new attempt.
          threads := threads - {thread};
        } else {
          return Some(current);
        }
      }
      assert threads == before.threads - {thread};
      if !open {
        return None;
      }
      attempts := attempts + [Attempt(thread, false, None)];
      threads := threads[thread := |attempts| - 1];
      return Some(|attempts| - 1);
    }

    /** The locked region that ends an attempt. */
    method Finish(attempt: nat, err: Option<string>)
      requires attempt < |attempts|
      modifies this
      ensures Ended(old(Value()), attempt, err, Value())
    {
      var thread := attempts[attempt].thread;
      attempts := attempts[attempt := Attempt(thread, true, err)];
      if err.None? {
        threads := threads - {thread};
      } else {
        Trim();
      }
    }
  }

  function Joined(t: Table, thread: string, open: bool): (Table, Option<nat>) {
    if thread in t.threads && !Finished(t, thread) then (t, Some(t.threads[thread]))
    else if !open then (t.(threads := t.threads - {thread}), None)
    else
      var started := Table((t.threads - {thread})[thread := |t.attempts|], t.attempts + [Attempt(thread, false, None)]);
      (started, Some(|t.attempts|))
  }

  predicate Ended(t: Table, attempt: nat, err: Option<string>, u: Table)
    requires attempt < |t.attempts|
  {
    var thread := t.attempts[attempt].thread;
    var done := t.(attempts := t.attempts[attempt := Attempt(thread, true, err)]);
    if err.None? then u == done.(threads := done.threads - {thread}) else Trimmed(done, u)
  }

  // ----- All interleavings -----

  datatype Step =
    | DoPrepare(thread: string, open: bool)
    | DoFinish(attempt: nat, err: Option<string>)

  predicate Steps(t: Table, step: Step, u: Table) {
    match step
    case DoPrepare(thread, open) => u == Joined(t, thread, open).0
    case DoFinish(attempt, err) => attempt < |t.attempts| && !t.attempts[attempt].finished && Ended(t, attempt, err, u)
  }

  /** One attempt at a time: whatever runs for a thread is what the table shows for it. */
  predicate SingleFlight(t: Table) {
    && (forall thread :: thread in t.threads ==>
          t.threads[thread] < |t.attempts| && t.attempts[t.threads[thread]].thread == thread)
    && (forall a :: 0 <= a < |t.attempts| && !t.attempts[a].finished ==>
          t.attempts[a].thread in t.threads && t.threads[t.attempts[a].thread] == a)
  }

  /** What stays finished in the table is a failure. */
  predicate OnlyFailuresStay(t: Table) {
    && (forall thread :: thread in t.threads && Finished(t, thread) ==> t.attempts[t.threads[thread]].err.Some?)
    && |FinishedIn(t)| <= RETAINED_FAILURES
  }

  lemma PrepareKeeps(t: Table, thread: string, open: bool)
    requires SingleFlight(t) && OnlyFailuresStay(t)
    ensures SingleFlight(Joined(t, thread, open).0) && OnlyFailuresStay(Joined(t, thread, open).0)
  {
    var u := Joined(t, thread, open).0;
    assert FinishedIn(u) <= FinishedIn(t);
    SmallerSet(FinishedIn(u), FinishedIn(t));
  }

  lemma {:induction false} SmallerSet(a: set<string>, b: set<string>)
    requires a <= b
    ensures |a| <= |b|
  {
    if a != {} {
      var x :| x in a;
      SmallerSet(a - {x}, b - {x});
    }
  }

  lemma FinishKeeps(t: Table, attempt: nat, err: Option<string>, u: Table)
    requires SingleFlight(t) && OnlyFailuresStay(t) && Steps(t, DoFinish(attempt, err), u)
    ensures SingleFlight(u) && OnlyFailuresStay(u)
  {
    if err.None? {
      assert FinishedIn(u) <= FinishedIn(t);
      SmallerSet(FinishedIn(u), FinishedIn(t));
    }
  }

  predicate OneUnderWay(t: Table) {
    forall a, b :: 0 <= a < b < |t.attempts| && t.attempts[a].thread == t.attempts[b].thread ==>
      t.attempts[a].finished || t.attempts[b].finished
  }

  predicate IsRun(run: seq<Table>, steps: seq<Step>) {
    && |run| == |steps| + 1 && run[0] == Table(map[], [])
    && forall k :: 0 <= k < |steps| ==> Steps(run[k], steps[k], run[k + 1])
  }

  /** Over every run: at most one attempt per thread is under way, and it is the one that
      every caller joins; at most 256 finished attempts are kept, all of them failures. */
  lemma {:induction false} PreparationIsSingleFlight(run: seq<Table>, steps: seq<Step>, k: nat)
    requires IsRun(run, steps) && k < |run|
    ensures SingleFlight(run[k]) && OnlyFailuresStay(run[k])
    ensures OneUnderWay(run[k])
  {
    hide OnlyFailuresStay, Joined, Ended;
    if k == 0 {
      EmptyTable();
    } else {
      PreparationIsSingleFlight(run, steps, k - 1);
      assert Steps(run[k - 1], steps[k - 1], run[k]);
      match steps[k - 1]
      case DoPrepare(thread, open) => PrepareKeeps(run[k - 1], thread, open);
      case DoFinish(attempt, err) => FinishKeeps(run[k - 1], attempt, err, run[k]);
    }
  }

  lemma EmptyTable()
    ensures SingleFlight(Table(map[], [])) && OnlyFailuresStay(Table(map[], []))
  {
    assert FinishedIn(Table(map[], [])) == {};
  }

  /** A caller that joins an attempt waits on one that is under way, and the end of that
      attempt takes out or keeps that attempt, never a later one for the same thread. */
  lemma JoinersShareTheAttempt(t: Table, thread: string, u: Table, again: bool)
    requires SingleFlight(t) && Joined(t, thread, true).0 == u
    ensures Joined(u, thread, again) == (u, Joined(t, thread, true).1)
    ensures forall err, v :: Steps(u, DoFinish(Joined(t, thread, true).1.value, err), v) ==>
      && (err.None? ==> thread !in v.threads)
      && (thread in v.threads ==> v.threads[thread] == Joined(t, thread, true).1.value)
  {
  }

  /** A caller joins the attempt that is under way. Otherwise one that has finished is
      forgotten, and while the store is open a new one is started, the last of all. */
  lemma PrepareIs(t: Table, thread: string, open: bool)
    ensures var (u, attempt) := Joined(t, thread, open);
      var underWay := thread in t.threads && !Finished(t, thread);
      && (forall other :: other != thread ==> (other in u.threads <==> other in t.threads))
      && (forall other :: other != thread && other in t.threads ==> u.threads[other] == t.threads[other])
      && if underWay then u == t && attempt == Some(t.threads[thread])
         else if !open then u.attempts == t.attempts && thread !in u.threads && attempt.None?
         else
           && attempt == Some(|t.attempts|) && thread in u.threads && u.threads[thread] == |t.attempts|
           && u.attempts == t.attempts + [Attempt(thread, false, None)]
  {
  }

  /** The end of an attempt is written down with its error; a success is forgotten at once,
      and a failure stays unless too many do. */
  lemma EndIs(t: Table, attempt: nat, err: Option<string>, u: Table)
    requires SingleFlight(t) && attempt < |t.attempts| && !t.attempts[attempt].finished && Ended(t, attempt, err, u)
    ensures var thread := t.attempts[attempt].thread;
      && u.attempts == t.attempts[attempt := Attempt(thread, true, err)]
      && (err.None? ==> u.threads == t.threads - {thread})
      && (err.Some? ==> u.threads.Keys <= t.threads.Keys)
      && (forall other :: other in u.threads ==> u.threads[other] == t.threads[other])
      && (forall other :: other in t.threads && !t.attempts[t.threads[other]].finished && other != thread ==>
            other in u.threads)
  {
    var thread := t.attempts[attempt].thread;
    var done := t.(attempts := t.attempts[attempt := Attempt(thread, true, err)]);
    forall other | other in t.threads && !t.attempts[t.threads[other]].finished && other != thread
      ensures !Finished(done, other)
    {
    }
  }
}
