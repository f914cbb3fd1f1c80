/** What the reducer keeps along whole runs: its own shape, an observer's copy that only
    sees drained batches, and legal timelines. */
module ActivityLaws {
  import opened Wrappers
  import opened ActivityItem
  import opened ActivityItemLaws
  import opened ActivityReducer
  import Text

  // ----- The shape -----

  lemma TouchedKeepsShape(s: State, key: string, ev: Event, at: int)
    requires WellFormed(s)
    ensures WellFormed(Touched(s, key, ev, at))
  {
    hide Revise, Created;
    RevisionKeepsID(EntryFor(s, key, ev, at).item, ev, at);
    CreationNames(key, ev, at);
  }

  lemma RevisionKeepsID(item: Item, ev: Event, at: int)
    ensures Revise(item, ev, at).id == item.id
    ensures Revise(item, ev, at).core == ReviseCore(item.core, ev, at)
    ensures !item.needsAttention ==> !Revise(item, ev, at).needsAttention
  {
    hide ReviseCore, MergeMetadata, TerminalMetadata, FirstNonEmpty, Text.Trim;
    RevisedCore(item, ev, at);
  }

  lemma CreationNames(key: string, ev: Event, at: int)
    ensures Created(key, ev, at).id == key
    ensures Created(key, ev, at).core == CreatedCore(ev, at)
  {
  }

  lemma AppliedKeepsShape(s: State, ev: Event, now: int)
    requires WellFormed(s)
    ensures WellFormed(Applied(s, ev, now))
  {
    hide Touched, Key, Noted;
    var t := s.(index := s.index + 1);
    var u :=
      if ev.kind == RunEnd then Ended(t, ev)
      else t.(explicitControl := t.explicitControl || ev.kind == ControlSignal);
    assert WellFormed(u);
    var at := EventTime(ev, now);
    assert WellFormed(Noted(u, at)) by { NotedOnlyTimes(u, at); }
    TouchedKeepsShape(Noted(u, at), Key(ev, s.index), ev, at);
  }

  lemma NotedOnlyTimes(s: State, at: int)
    ensures Noted(s, at) == s.(firstAt := Noted(s, at).firstAt, lastAt := Noted(s, at).lastAt)
  {
  }

  lemma {:induction false} RenumberedPlaces(items: map<string, Entry>, keys: seq<string>, k: nat)
    requires k <= |keys| && Distinct(keys) && forall key :: key in keys ==> key in items
    ensures forall i :: 0 <= i < k ==> Renumbered(items, keys, k)[keys[i]].order == i
    ensures forall key :: key in items ==> Renumbered(items, keys, k)[key].item == items[key].item
  {
    if k > 0 {
      RenumberedPlaces(items, keys, k - 1);
    }
  }

  lemma RemovedKeepsShape(s: State, ids: seq<string>)
    requires WellFormed(s)
    ensures WellFormed(Removed(s, ids))
    ensures Removed(s, ids).items.Keys == s.items.Keys - IdSet(ids)
    ensures forall key :: key in Removed(s, ids).items ==> Removed(s, ids).items[key].item == s.items[key].item
  {
    hide Select, Renumbered;
    var left := s.items - IdSet(ids);
    var kept := Select(s.order, left.Keys, |s.order|);
    assert s.order[..|s.order|] == s.order;
    SelectIncreasing(s, left.Keys, |s.order|);
    RenumberedPlaces(left, kept, |kept|);
  }

  // ----- An observer that only sees drained batches -----

  datatype Op = Observe(ev: Event, now: int) | Drain(now: int) | Remove(ids: seq<string>)

  datatype System = System(reducer: State, seen: map<string, Item>)

  function Upserted(seen: map<string, Item>, batch: seq<Item>, k: nat): map<string, Item>
    requires k <= |batch|
  {
    if k == 0 then seen else Upserted(seen, batch, k - 1)[batch[k - 1].id := batch[k - 1]]
  }

  function DrainBatch(s: State, now: int): seq<Item>
    requires WellFormed(s)
  {
    SelectedAreLive(s);
    Project(s, ChangedKeys(s), now)
  }

  lemma SelectedAreLive(s: State)
    requires WellFormed(s)
    ensures forall key :: key in ChangedKeys(s) <==> key in s.changed
    ensures Distinct(ChangedKeys(s))
  {
    assert s.order[..|s.order|] == s.order;
    SelectIncreasing(s, s.changed * s.items.Keys, |s.order|);
  }

  function Step(sys: System, op: Op): (r: System)
    requires WellFormed(sys.reducer)
    ensures WellFormed(r.reducer)
  {
    match op
    case Observe(ev, now) =>
      AppliedKeepsShape(sys.reducer, ev, now);
      System(Applied(sys.reducer, ev, now), sys.seen)
    case Drain(now) =>
      var batch := DrainBatch(sys.reducer, now);
      System(Drained(sys.reducer), Upserted(sys.seen, batch, |batch|))
    case Remove(ids) =>
      RemovedKeepsShape(sys.reducer, ids);
      System(Removed(sys.reducer, ids), sys.seen - IdSet(ids))
  }

  function After(ops: seq<Op>, k: nat): (r: System)
    requires k <= |ops|
    ensures WellFormed(r.reducer)
  {
    if k == 0 then System(EMPTY, map[]) else Step(After(ops, k - 1), ops[k - 1])
  }

  /** Run ends say when they were observed. */
  predicate Timed(op: Op) {
    op.Observe? && op.ev.kind == RunEnd && !op.ev.validationError ==> op.ev.observedAt.Some?
  }

  /** The observer misses nothing but what is marked changed, whatever the clock says. */
  ghost predicate InSync(sys: System) {
    && WellFormed(sys.reducer)
    && (sys.reducer.runEnd.Some? ==> sys.reducer.runEnd.value.observedAt.Some?)
    && sys.seen.Keys <= sys.reducer.items.Keys
    && (forall key :: key in sys.reducer.items && key !in sys.reducer.changed ==> Agrees(sys, key))
  }

  ghost predicate Agrees(sys: System, key: string)
    requires key in sys.reducer.items
  {
    key in sys.seen && sys.seen[key] == Projected(sys.reducer.items[key].item, sys.reducer.runEnd, 0)
  }

  lemma ClockIsIrrelevant(item: Item, end: Option<Event>, now: int)
    requires end.Some? ==> end.value.observedAt.Some?
    ensures Projected(item, end, now) == Projected(item, end, 0)
  {
    if now != 0 {
      ClockMattersIff(item, end, now, 0);
    }
  }

  lemma {:induction false} UpsertedLookup(seen: map<string, Item>, batch: seq<Item>, k: nat)
    requires k <= |batch| && forall i, j :: 0 <= i < j < |batch| ==> batch[i].id != batch[j].id
    ensures var r := Upserted(seen, batch, k);
      && (forall i :: 0 <= i < k ==> batch[i].id in r && r[batch[i].id] == batch[i])
      && (forall id :: (forall i :: 0 <= i < k ==> batch[i].id != id) ==>
        (id in r <==> id in seen) && (id in seen ==> r[id] == seen[id]))
      && (forall id :: id in r ==> id in seen || exists i :: 0 <= i < k && batch[i].id == id)
  {
    if k > 0 {
      UpsertedLookup(seen, batch, k - 1);
    }
  }

  lemma ProjectedKeepsID(item: Item, end: Option<Event>, now: int)
    ensures Projected(item, end, now).id == item.id
  {
    hide HasPendingMetadata, TerminalMetadata;
  }

  lemma BatchIsChanged(s: State, now: int)
    requires WellFormed(s) && (s.runEnd.Some? ==> s.runEnd.value.observedAt.Some?)
    ensures var keys, batch := ChangedKeys(s), DrainBatch(s, now);
      && |batch| == |keys|
      && (forall i :: 0 <= i < |keys| ==>
            keys[i] in s.items && batch[i].id == keys[i] && batch[i] == Projected(s.items[keys[i]].item, s.runEnd, 0))
      && (forall i, j :: 0 <= i < j < |batch| ==> batch[i].id != batch[j].id)
  {
    hide Projected, ChangedKeys;
    var keys := ChangedKeys(s);
    SelectedAreLive(s);
    forall i | 0 <= i < |keys|
      ensures keys[i] in s.items && DrainBatch(s, now)[i].id == keys[i]
      ensures DrainBatch(s, now)[i] == Projected(s.items[keys[i]].item, s.runEnd, 0)
    {
      assert keys[i] in keys;
      ClockIsIrrelevant(s.items[keys[i]].item, s.runEnd, now);
      ProjectedKeepsID(s.items[keys[i]].item, s.runEnd, now);
    }
  }

  lemma DrainSyncs(sys: System, now: int)
    requires InSync(sys)
    ensures InSync(Step(sys, Drain(now)))
  {
    hide Projected, WellFormed, ChangedKeys, DrainBatch, Drained, Upserted;
    var s := sys.reducer;
    var batch, keys := DrainBatch(s, now), ChangedKeys(s);
    BatchIsChanged(s, now);
    SelectedAreLive(s);
    UpsertedLookup(sys.seen, batch, |batch|);
    var r := Step(sys, Drain(now));
    assert r.reducer == s.(changed := {}) by { DrainedIs(s); }
    forall key | key in s.items ensures Agrees(r, key) {
      if key in s.changed {
        var i :| 0 <= i < |keys| && keys[i] == key;
        assert batch[i].id == key;
      } else {
        assert forall i :: 0 <= i < |batch| ==> batch[i].id == keys[i] && keys[i] in keys;
        assert Agrees(sys, key);
      }
    }
  }

  lemma DrainedIs(s: State)
    ensures Drained(s) == s.(changed := {})
  {
  }

  lemma ObserveSyncs(sys: System, ev: Event, now: int)
    requires InSync(sys) && Timed(Observe(ev, now))
    ensures InSync(Step(sys, Observe(ev, now)))
  {
    hide Projected, WellFormed, Revise, Created, Key;
    var s, t := sys.reducer, Applied(sys.reducer, ev, now);
    AppliedKeepsShape(s, ev, now);
    forall key | key in t.items && key !in t.changed ensures Agrees(System(t, sys.seen), key) {
      UnchangedKeys(s, ev, now, key);
      assert Agrees(sys, key);
    }
    AppliedGrows(s, ev, now);
  }

  lemma AppliedGrows(s: State, ev: Event, now: int)
    ensures s.items.Keys <= Applied(s, ev, now).items.Keys
    ensures Applied(s, ev, now).runEnd == if ev.kind == RunEnd && !ev.validationError then Some(ev) else s.runEnd
  {
    hide Revise, Created, Key;
  }

  /** A key that an event leaves unmarked was there, unmarked, with the same item under
      the same run end. */
  lemma UnchangedKeys(s: State, ev: Event, now: int, key: string)
    requires key in Applied(s, ev, now).items && key !in Applied(s, ev, now).changed
    ensures key in s.items && key !in s.changed
    ensures Applied(s, ev, now).items[key] == s.items[key]
    ensures Applied(s, ev, now).runEnd == s.runEnd
  {
    hide Revise, Created, Key;
  }

  /** An event touches no key but its own. */
  lemma AppliedElsewhere(s: State, ev: Event, now: int, key: string)
    requires key != Key(ev, s.index) || !Touches(s, ev)
    ensures key in Applied(s, ev, now).items <==> key in s.items
    ensures key in s.items ==> Applied(s, ev, now).items[key] == s.items[key]
  {
    hide Revise, Created, Key;
  }

  /** And its own only by creating and revising it. */
  lemma AppliedHere(s: State, ev: Event, now: int)
    requires Touches(s, ev)
    ensures var key, at := Key(ev, s.index), EventTime(ev, now);
      && key in Applied(s, ev, now).items
      && Applied(s, ev, now).items[key].item ==
        Revise(if key in s.items then s.items[key].item else Created(key, ev, at), ev, at)
  {
    hide Revise, Created, Key;
  }

  lemma RemoveSyncs(sys: System, ids: seq<string>)
    requires InSync(sys)
    ensures InSync(Step(sys, Remove(ids)))
  {
    hide Projected, WellFormed, Select, Renumbered;
    RemovedKeepsShape(sys.reducer, ids);
    var r := Step(sys, Remove(ids));
    forall key | key in r.reducer.items && key !in r.reducer.changed ensures Agrees(r, key) {
      assert Agrees(sys, key);
    }
  }

  lemma {:induction false} RunsStayInSync(ops: seq<Op>, k: nat)
    requires k <= |ops| && forall i :: 0 <= i < |ops| ==> Timed(ops[i])
    ensures InSync(After(ops, k))
  {
    hide Step;
    if k > 0 {
      RunsStayInSync(ops, k - 1);
      assert Timed(ops[k - 1]);
      match ops[k - 1] {
        case Observe(ev, now) => ObserveSyncs(After(ops, k - 1), ev, now);
        case Drain(now) => DrainSyncs(After(ops, k - 1), now);
        case Remove(ids) => RemoveSyncs(After(ops, k - 1), ids);
      }
    }
  }

  lemma TimelineItems(s: State, now: int)
    requires WellFormed(s)
    ensures multiset(Timeline(s, now)) == multiset(Project(s, s.order, now))
    ensures forall item :: item in Timeline(s, now) <==>
      item.id in s.items && item == Projected(s.items[item.id].item, s.runEnd, now)
  {
    hide Projected;
    var list := Project(s, s.order, now);
    forall item | item in Timeline(s, now)
      ensures item.id in s.items && item == Projected(s.items[item.id].item, s.runEnd, now)
    {
      assert item in multiset(list);
      var i :| 0 <= i < |list| && list[i] == item;
      ProjectedKeepsID(s.items[s.order[i]].item, s.runEnd, now);
    }
    forall item: Item | item.id in s.items && item == Projected(s.items[item.id].item, s.runEnd, now)
      ensures item in Timeline(s, now)
    {
      var i :| 0 <= i < |s.order| && s.order[i] == item.id;
      assert list[i] == item;
      assert item in multiset(list);
    }
  }

  /** Delta refinement: along every run of events, drains and removals, right after a
      drain the observer holds exactly the items of the snapshot, whenever it is taken. */
  lemma DrainedObserverIsSnapshot(ops: seq<Op>, k: nat, now: int)
    requires 0 < k <= |ops| && ops[k - 1].Drain? && forall i :: 0 <= i < |ops| ==> Timed(ops[i])
    ensures var sys := After(ops, k);
      && sys.seen.Keys == sys.reducer.items.Keys
      && forall item :: item in Timeline(sys.reducer, now) <==> item.id in sys.seen && sys.seen[item.id] == item
  {
    hide Projected, Timeline;
    RunsStayInSync(ops, k);
    var sys := After(ops, k);
    TimelineItems(sys.reducer, now);
    assert sys.reducer.changed == {};
    forall key | key in sys.reducer.items
      ensures key in sys.seen && sys.seen[key] == Projected(sys.reducer.items[key].item, sys.reducer.runEnd, now)
    {
      assert Agrees(sys, key);
      ClockIsIrrelevant(sys.reducer.items[key].item, sys.reducer.runEnd, now);
    }
  }
}
