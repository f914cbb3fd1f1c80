/** A mutex per key. Each locked region of the source is one step; the entry's own lock is
    taken and dropped between the two regions that touch the table. */
module KeyedMutex {
  import opened Wrappers

  /** One lock: how many threads are bound to it, and which one holds it. */
  datatype Entry = Entry(refs: int, holder: Option<nat>)

  /** Where a thread stands in `lock` and in the function that `lock` returns. */
  datatype PC =
    | Outside
    | Waiting(key: string, entry: nat)
    | Inside(key: string, entry: nat)
    | Leaving(key: string, entry: nat)

  /** The table of entries, and every entry ever made by its address. */
  datatype Table = Table(entries: map<string, nat>, heap: map<nat, Entry>)

  /** The first region: find or make the entry, and count this thread in. */
  function Enter(t: Table, key: string, spare: nat): (Table, nat)
    requires key in t.entries ==> t.entries[key] in t.heap
  {
    var e := if key in t.entries then t.entries[key] else spare;
    var entry := if key in t.entries then t.heap[e] else Entry(0, None);
    (Table(t.entries[key := e], t.heap[e := entry.(refs := entry.refs + 1)]), e)
  }

  /** The second region: count this thread out, and drop an entry that nobody uses. */
  function Leave(t: Table, key: string, e: nat): Table
    requires e in t.heap
  {
    var entry := t.heap[e].(refs := t.heap[e].refs - 1);
    Table(if entry.refs == 0 then t.entries - {key} else t.entries, t.heap[e := entry])
  }

  class Mutex {
    var entries: map<string, nat>
    var heap: map<nat, Entry>

    function Value(): Table
      reads this
    {
      Table(entries, heap)
    }

    method Lock(key: string, spare: nat) returns (e: nat)
      requires key in entries ==> entries[key] in heap
      modifies this
      ensures (Value(), e) == Enter(old(Value()), key, spare)
    {
      if key !in entries {
        heap := heap[spare := Entry(0, None)];
        entries := entries[key := spare];
      }
      e := entries[key];
      heap := heap[e := heap[e].(refs := heap[e].refs + 1)];
      assert entries == Enter(old(Value()), key, spare).0.entries;
      assert heap == Enter(old(Value()), key, spare).0.heap;
    }

    method Unlock(key: string, e: nat)
      requires e in heap
      modifies this
      ensures Value() == Leave(old(Value()), key, e)
    {
      heap := heap[e := heap[e].(refs := heap[e].refs - 1)];
      if heap[e].refs == 0 {
        entries := entries - {key};
      }
    }
  }

  // ----- All interleavings -----

  datatype State = State(table: Table, threads: map<nat, PC>)

  datatype Step =
    | DoEnter(thread: nat, key: string, spare: nat)
    | DoAcquire(thread: nat)
    | DoRelease(thread: nat)
    | DoLeave(thread: nat)

  /** A step a thread can take. New entries are made at addresses not in use. */
  predicate Enabled(s: State, step: Step) {
    step.thread in s.threads &&
    var pc := s.threads[step.thread];
    match step
    case DoEnter(_, key, spare) =>
      && pc.Outside?
      && spare !in s.table.heap
      && (key in s.table.entries ==> s.table.entries[key] in s.table.heap)
    case DoAcquire(_) => pc.Waiting? && pc.entry in s.table.heap && s.table.heap[pc.entry].holder.None?
    case DoRelease(_) => pc.Inside? && pc.entry in s.table.heap
    case DoLeave(_) => pc.Leaving? && pc.entry in s.table.heap
  }

  function Hold(t: Table, e: nat, holder: Option<nat>): Table
    requires e in t.heap
  {
    t.(heap := t.heap[e := t.heap[e].(holder := holder)])
  }

  function Next(s: State, step: Step): State
    requires Enabled(s, step)
  {
    var pc := s.threads[step.thread];
    match step
    case DoEnter(t, key, spare) =>
      var (table, e) := Enter(s.table, key, spare);
      State(table, s.threads[t := Waiting(key, e)])
    case DoAcquire(t) => State(Hold(s.table, pc.entry, Some(t)), s.threads[t := Inside(pc.key, pc.entry)])
    case DoRelease(t) => State(Hold(s.table, pc.entry, None), s.threads[t := Leaving(pc.key, pc.entry)])
    case DoLeave(t) => State(Leave(s.table, pc.key, pc.entry), s.threads[t := Outside])
  }

  predicate Uses(pc: PC, e: nat) { !pc.Outside? && pc.entry == e }

  function Users(threads: map<nat, PC>, e: nat): set<nat> {
    set t | t in threads && Uses(threads[t], e)
  }

  /** Every thread past the first region is bound to the entry in the table. */
  predicate Bound(s: State) {
    forall t :: t in s.threads && !s.threads[t].Outside? ==>
      && s.threads[t].entry in s.table.heap
      && s.threads[t].key in s.table.entries
      && s.table.entries[s.threads[t].key] == s.threads[t].entry
  }

  predicate Counted(s: State) {
    forall e :: e in s.table.heap ==> s.table.heap[e].refs == |Users(s.threads, e)|
  }

  predicate InUse(s: State) {
    && (forall k :: k in s.table.entries ==>
      s.table.entries[k] in s.table.heap && s.table.heap[s.table.entries[k]].refs > 0)
    && (forall k, l ::
      k in s.table.entries && l in s.table.entries && s.table.entries[k] == s.table.entries[l] ==> k == l)
  }

  predicate Holds(threads: map<nat, PC>, t: nat, e: nat) {
    t in threads && threads[t].Inside? && threads[t].entry == e
  }

  predicate Owned(s: State) {
    && (forall e :: e in s.table.heap && s.table.heap[e].holder.Some? ==>
      Holds(s.threads, s.table.heap[e].holder.value, e))
    && (forall t :: t in s.threads && s.threads[t].Inside? ==>
          s.threads[t].entry in s.table.heap && s.table.heap[s.threads[t].entry].holder == Some(t))
  }

  predicate Sound(s: State) {
    Bound(s) && Counted(s) && InUse(s) && Owned(s)
  }

  lemma UsersJoin(threads: map<nat, PC>, t: nat, pc: PC, e: nat)
    requires t in threads && threads[t].Outside? && Uses(pc, e)
    ensures |Users(threads[t := pc], e)| == |Users(threads, e)| + 1
  {
    assert Users(threads[t := pc], e) == Users(threads, e) + {t};
    assert t !in Users(threads, e);
  }

  lemma UsersGo(threads: map<nat, PC>, t: nat, e: nat)
    requires t in threads && Uses(threads[t], e)
    ensures |Users(threads[t := Outside], e)| == |Users(threads, e)| - 1
  {
    assert Users(threads[t := Outside], e) == Users(threads, e) - {t};
    assert t in Users(threads, e);
  }

  lemma UsersStay(threads: map<nat, PC>, t: nat, pc: PC, e: nat)
    requires t in threads && (Uses(threads[t], e) <==> Uses(pc, e))
    ensures Users(threads[t := pc], e) == Users(threads, e)
  {
  }

  lemma UserCounts(threads: map<nat, PC>, t: nat, e: nat)
    requires t in threads && Uses(threads[t], e)
    ensures |Users(threads, e)| > 0
  {
    assert t in Users(threads, e);
  }

  lemma NobodyYet(s: State, e: nat)
    requires Bound(s) && e !in s.table.heap
    ensures Users(s.threads, e) == {}
  {
  }

  lemma EnterKeepsCounted(s: State, t: nat, key: string, spare: nat)
    requires Sound(s) && Enabled(s, DoEnter(t, key, spare))
    ensures Counted(Next(s, DoEnter(t, key, spare)))
  {
    hide InUse, Owned;
    var u := Next(s, DoEnter(t, key, spare));
    var e := u.threads[t].entry;
    if key !in s.table.entries {
      NobodyYet(s, spare);
    }
    forall x | x in u.table.heap
      ensures u.table.heap[x].refs == |Users(u.threads, x)|
    {
      if x == e {
        UsersJoin(s.threads, t, u.threads[t], e);
      } else {
        UsersStay(s.threads, t, u.threads[t], x);
      }
    }
  }

  lemma EnterKeepsBound(s: State, t: nat, key: string, spare: nat)
    requires Bound(s) && Enabled(s, DoEnter(t, key, spare))
    ensures Bound(Next(s, DoEnter(t, key, spare)))
  {
  }

  lemma EnterKeepsInUse(s: State, t: nat, key: string, spare: nat)
    requires InUse(s) && Enabled(s, DoEnter(t, key, spare))
    ensures InUse(Next(s, DoEnter(t, key, spare)))
  {
  }

  lemma EnterKeepsOwned(s: State, t: nat, key: string, spare: nat)
    requires Owned(s) && Enabled(s, DoEnter(t, key, spare))
    ensures Owned(Next(s, DoEnter(t, key, spare)))
  {
  }

  lemma EnterKeepsSound(s: State, t: nat, key: string, spare: nat)
    requires Sound(s) && Enabled(s, DoEnter(t, key, spare))
    ensures Sound(Next(s, DoEnter(t, key, spare)))
  {
    hide Bound, Counted, InUse, Owned, Next, Enabled;
    EnterKeepsBound(s, t, key, spare);
    EnterKeepsCounted(s, t, key, spare);
    EnterKeepsInUse(s, t, key, spare);
    EnterKeepsOwned(s, t, key, spare);
  }

  lemma HoldKeepsCounted(s: State, step: Step)
    requires Sound(s) && Enabled(s, step) && (step.DoAcquire? || step.DoRelease?)
    ensures Counted(Next(s, step))
  {
    var t, u := step.thread, Next(s, step);
    forall x | x in u.table.heap
      ensures u.table.heap[x].refs == |Users(u.threads, x)|
    {
      UsersStay(s.threads, t, u.threads[t], x);
    }
  }

  lemma HoldKeepsSound(s: State, step: Step)
    requires Sound(s) && Enabled(s, step) && (step.DoAcquire? || step.DoRelease?)
    ensures Sound(Next(s, step))
  {
    HoldKeepsCounted(s, step);
    HoldKeepsOthers(s, step);
    HoldKeepsOwned(s, step);
  }

  lemma HoldKeepsOthers(s: State, step: Step)
    requires Bound(s) && InUse(s) && Enabled(s, step) && (step.DoAcquire? || step.DoRelease?)
    ensures Bound(Next(s, step)) && InUse(Next(s, step))
  {
  }

  lemma HoldKeepsOwned(s: State, step: Step)
    requires Owned(s) && Enabled(s, step) && (step.DoAcquire? || step.DoRelease?)
    ensures Owned(Next(s, step))
  {
  }

  lemma LeaveKeepsCounted(s: State, t: nat)
    requires Counted(s) && Enabled(s, DoLeave(t))
    ensures Counted(Next(s, DoLeave(t)))
  {
    var u, e := Next(s, DoLeave(t)), s.threads[t].entry;
    forall x | x in u.table.heap
      ensures u.table.heap[x].refs == |Users(u.threads, x)|
    {
      if x == e {
        UsersGo(s.threads, t, e);
      } else {
        UsersStay(s.threads, t, Outside, x);
      }
    }
  }

  /** Whoever is still bound to the entry keeps it in the table. */
  lemma LeaveKeepsOthers(s: State, t: nat)
    requires Bound(s) && InUse(s) && Enabled(s, DoLeave(t)) && Counted(Next(s, DoLeave(t)))
    ensures Bound(Next(s, DoLeave(t))) && InUse(Next(s, DoLeave(t)))
  {
    var u, e := Next(s, DoLeave(t)), s.threads[t].entry;
    forall o | o in u.threads && !u.threads[o].Outside? && u.threads[o].entry == e
      ensures u.table.heap[e].refs > 0
    {
      UserCounts(u.threads, o, e);
    }
    forall o | o in u.threads && !u.threads[o].Outside?
      ensures u.threads[o].key in u.table.entries
    {
      assert u.threads[o] == s.threads[o];
      if u.threads[o].entry != e {
        assert u.threads[o].key != s.threads[t].key;
      }
    }
    forall k | k in u.table.entries
      ensures u.table.heap[u.table.entries[k]].refs > 0
    {
      assert u.table.entries[k] == s.table.entries[k];
      if u.table.entries[k] == e {
        assert k == s.threads[t].key;
      }
    }
  }

  lemma LeaveKeepsOwned(s: State, t: nat)
    requires Owned(s) && Enabled(s, DoLeave(t))
    ensures Owned(Next(s, DoLeave(t)))
  {
  }

  lemma LeaveKeepsSound(s: State, t: nat)
    requires Sound(s) && Enabled(s, DoLeave(t))
    ensures Sound(Next(s, DoLeave(t)))
  {
    LeaveKeepsCounted(s, t);
    LeaveKeepsOthers(s, t);
    LeaveKeepsOwned(s, t);
  }

  predicate Start(s: State) {
    s.table == Table(map[], map[]) && forall t :: t in s.threads ==> s.threads[t].Outside?
  }

  /** Runs: any threads, any keys, any order of enabled steps. */
  function Run(s: State, steps: seq<Step>, k: nat): Option<State>
    requires k <= |steps|
  {
    if k == 0 then Some(s)
    else
      var before := Run(s, steps, k - 1);
      if before.Some? && Enabled(before.value, steps[k - 1]) then Some(Next(before.value, steps[k - 1])) else None
  }

  lemma {:induction false} RunsKeepSound(s: State, steps: seq<Step>, k: nat)
    requires k <= |steps| && Sound(s) && Run(s, steps, k).Some?
    ensures Sound(Run(s, steps, k).value)
  {
    hide Sound, Next, Enabled;
    if k > 0 {
      RunsKeepSound(s, steps, k - 1);
      var before := Run(s, steps, k - 1).value;
      match steps[k - 1]
      case DoEnter(t, key, spare) => EnterKeepsSound(before, t, key, spare);
      case DoLeave(t) => LeaveKeepsSound(before, t);
      case _ => HoldKeepsSound(before, steps[k - 1]);
    }
  }

  lemma StartIsSound(s: State)
    requires Start(s)
    ensures Sound(s)
  {
  }

  predicate InsideFor(s: State, t: nat, key: string) {
    t in s.threads && s.threads[t].Inside? && s.threads[t].key == key
  }

  /** After any run from the start, at most one thread is inside for each key; an entry's
      references are the threads bound to it; an entry in use is the one in the table; and
      the table is empty as soon as no thread is bound to anything. */
  lemma LocksAreExclusive(s: State, steps: seq<Step>, k: nat)
    requires k <= |steps| && Start(s) && Run(s, steps, k).Some?
    ensures var u := Run(s, steps, k).value;
      && (forall key: string, a: nat, b: nat :: InsideFor(u, a, key) && InsideFor(u, b, key) ==> a == b)
      && (forall e :: e in u.table.heap ==> u.table.heap[e].refs == |Users(u.threads, e)|)
      && (forall e :: e in u.table.heap && u.table.heap[e].refs > 0 ==> e in u.table.entries.Values)
      && ((forall t :: t in u.threads ==> u.threads[t].Outside?) ==> u.table.entries == map[])
  {
    StartIsSound(s);
    RunsKeepSound(s, steps, k);
    var u := Run(s, steps, k).value;
    forall key: string, a: nat, b: nat | InsideFor(u, a, key) && InsideFor(u, b, key)
      ensures a == b
    {
      var e := u.table.entries[key];
      assert u.table.heap[e].holder == Some(a) && u.table.heap[e].holder == Some(b);
    }
    forall e | e in u.table.heap && u.table.heap[e].refs > 0
      ensures e in u.table.entries.Values
    {
      var t :| t in Users(u.threads, e);
      assert u.threads[t].key in u.table.entries;
    }
    forall k | k in u.table.entries
      ensures exists t :: t in u.threads && !u.threads[t].Outside?
    {
      var t :| t in Users(u.threads, u.table.entries[k]);
    }
    assert u.table.entries.Keys == {} ==> u.table.entries == map[];
  }

  /** A thread that waits for a lock nobody holds can take it: no thread is stuck on an
      entry that has been dropped from the table. */
  lemma WaitersWaitOnTheTable(s: State, steps: seq<Step>, k: nat, t: nat)
    requires k <= |steps| && Start(s) && Run(s, steps, k).Some?
    ensures var u := Run(s, steps, k).value;
      t in u.threads && u.threads[t].Waiting? ==>
        Enabled(u, DoAcquire(t)) || exists o: nat :: InsideFor(u, o, u.threads[t].key)
  {
    StartIsSound(s);
    RunsKeepSound(s, steps, k);
    var u := Run(s, steps, k).value;
    if t in u.threads && u.threads[t].Waiting? && !Enabled(u, DoAcquire(t)) {
      var e := u.threads[t].entry;
      var o := u.table.heap[e].holder.value;
      assert u.table.heap[e].holder == Some(o);
      assert u.table.entries[u.threads[o].key] == e;
      assert InsideFor(u, o, u.threads[t].key);
    }
  }
}
