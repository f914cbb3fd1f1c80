/** The reducer: folds sanitized events into items, tracks what changed since the last
    drain, retires items, and projects a timeline. */
module ActivityReducer {
  import opened Wrappers
  import opened ActivityItem
  import StableSort

  datatype Entry = Entry(item: Item, order: nat)

  /** The reducer's whole state as a value. */
  datatype State = State(items: map<string, Entry>, order: seq<string>, changed: set<string>, runEnd: Option<Event>,
                         firstAt: int, lastAt: int, index: nat, explicitControl: bool)

  const EMPTY := State(map[], [], {}, None, 0, 0, 0, false)

  // ----- Keys -----

  function Digits(n: nat): string {
    if n < 10 then [('0' as int + n) as char] else Digits(n / 10) + [('0' as int + n % 10) as char]
  }

  function IntText(n: int): string {
    if n < 0 then "-" + Digits(-n) else Digits(n)
  }

  /** The stable identity of an event's item: by tool ID, else by name, step and position. */
  function ToolKey(prefix: string, ev: Event, index: nat): string {
    if ev.toolID != "" then prefix + ev.toolID
    else if ev.toolName != "" then prefix + ev.toolName + ":" + IntText(ev.step) + ":" + IntText(index)
    else prefix + IntText(ev.step) + ":" + IntText(index)
  }

  function Key(ev: Event, index: nat): string {
    if ev.kind == ControlSignal then ToolKey("control:", ev, index)
    else if ev.kind == BudgetExceeded then "budget:" + IntText(ev.step) + ":" + IntText(index)
    else if ev.kind == RunEnd then "control:waiting:" + IntText(ev.step) + ":" + IntText(index)
    else ToolKey("tool:", ev, index)
  }

  // ----- One event -----

  function Noted(s: State, at: int): State {
    if at <= 0 then s
    else
      s.(firstAt := if s.firstAt == 0 || at < s.firstAt then at else s.firstAt,
         lastAt := if at > s.lastAt then at else s.lastAt)
  }

  function EntryFor(s: State, key: string, ev: Event, at: int): Entry {
    if key in s.items then s.items[key] else Entry(Created(key, ev, at), |s.order|)
  }

  /** Find or create the item under `key`, mark it changed, and revise it. */
  function Touched(s: State, key: string, ev: Event, at: int): State {
    var entry := EntryFor(s, key, ev, at);
    s.(items := s.items[key := entry.(item := Revise(entry.item, ev, at))],
       order := if key in s.items then s.order else s.order + [key],
       changed := s.changed + {key})
  }

  /** The event opens or revises an item. */
  predicate Touches(s: State, ev: Event) {
    && !ev.validationError
    && ev.kind != OtherEvent
    && (ev.kind == RunEnd ==> ev.message == SaysWaiting && !s.explicitControl)
  }

  function Ended(s: State, ev: Event): State {
    s.(runEnd := Some(ev), changed := s.changed + s.items.Keys)
  }

  function Applied(s: State, ev: Event, now: int): State {
    var t := s.(index := s.index + 1);
    if ev.validationError || ev.kind == OtherEvent then t
    else
      var u :=
        if ev.kind == RunEnd then Ended(t, ev)
        else t.(explicitControl := t.explicitControl || ev.kind == ControlSignal);
      if Touches(s, ev) then Touched(Noted(u, EventTime(ev, now)), Key(ev, s.index), ev, EventTime(ev, now)) else u
  }

  // ----- Draining, retiring, projecting -----

  /** The keys of `order[..k]` that are in `chosen`, in order. */
  function Select(order: seq<string>, chosen: set<string>, k: nat): (r: seq<string>)
    requires k <= |order|
    ensures forall key :: key in r <==> key in order[..k] && key in chosen
  {
    if k == 0 then []
    else if order[k - 1] in chosen then Select(order, chosen, k - 1) + [order[k - 1]]
    else Select(order, chosen, k - 1)
  }

  function Project(s: State, keys: seq<string>, now: int): seq<Item>
    requires forall key :: key in keys ==> key in s.items
  {
    seq(|keys|, i requires 0 <= i < |keys| => Projected(s.items[keys[i]].item, s.runEnd, now))
  }

  function Drained(s: State): State {
    s.(changed := {})
  }

  function ChangedKeys(s: State): seq<string> {
    Select(s.order, s.changed * s.items.Keys, |s.order|)
  }

  function ByPlace(items: map<string, Entry>): (string, string) -> bool {
    (a: string, b: string) => a in items && b in items && items[a].order < items[b].order
  }

  /** `keys[i]` gets order `i`. */
  function Renumbered(items: map<string, Entry>, keys: seq<string>, k: nat): (r: map<string, Entry>)
    requires k <= |keys| && forall key :: key in keys ==> key in items
    ensures r.Keys == items.Keys
  {
    if k == 0 then items
    else
      var before := Renumbered(items, keys, k - 1);
      before[keys[k - 1] := before[keys[k - 1]].(order := k - 1)]
  }

  function IdSet(ids: seq<string>): set<string> {
    set id | id in ids
  }

  function Removed(s: State, ids: seq<string>): State
    requires forall key :: key in s.order ==> key in s.items
  {
    var gone := IdSet(ids);
    var left := s.items - gone;
    var kept := Select(s.order, left.Keys, |s.order|);
    s.(items := Renumbered(left, kept, |kept|), order := kept, changed := s.changed - gone)
  }

  function SortTime(item: Item): int {
    if item.core.startedAt > 0 then item.core.startedAt else item.core.endedAt
  }

  predicate Before(s: State, left: Item, right: Item)
    requires left.id in s.items && right.id in s.items
  {
    if SortTime(left) != 0 && SortTime(right) != 0 && SortTime(left) != SortTime(right)
    then SortTime(left) < SortTime(right)
    else s.items[left.id].order < s.items[right.id].order
  }

  function Comparator(s: State): (Item, Item) -> bool {
    (left: Item, right: Item) => left.id in s.items && right.id in s.items && Before(s, left, right)
  }

  function Timeline(s: State, now: int): seq<Item>
    requires forall key :: key in s.order ==> key in s.items
  {
    StableSort.Sort(Project(s, s.order, now), Comparator(s))
  }

  // ----- What every run keeps -----

  /** Order lists the item keys once each, every entry knows its place and its own key,
      and only live items can be marked changed. */
  ghost predicate WellFormed(s: State) {
    && (forall i, j :: 0 <= i < j < |s.order| ==> s.order[i] != s.order[j])
    && (forall key :: key in s.order <==> key in s.items)
    && (forall i :: 0 <= i < |s.order| ==> s.items[s.order[i]].order == i)
    && (forall key :: key in s.items ==> s.items[key].item.id == key)
    && s.changed <= s.items.Keys
  }

  class ActivityReducer {
    var items: map<string, Entry>
    var order: seq<string>
    var changed: set<string>
    var runEnd: Option<Event>
    var firstAt: int
    var lastAt: int
    var index: nat
    var explicitControl: bool

    function Value(): State
      reads this
    {
      State(items, order, changed, runEnd, firstAt, lastAt, index, explicitControl)
    }

    constructor ()
      ensures Value() == EMPTY
    {
      items, order, changed, runEnd := map[], [], {}, None;
      firstAt, lastAt, index, explicitControl := 0, 0, 0, false;
    }

    method NoteTime(at: int)
      modifies this`firstAt, this`lastAt
      ensures Value() == Noted(old(Value()), at)
    {
      if at <= 0 {
        return;
      }
      if firstAt == 0 || at < firstAt {
        firstAt := at;
      }
      if at > lastAt {
        lastAt := at;
      }
    }

    method TouchItem(key: string, ev: Event, at: int)
      modifies this`items, this`order, this`changed
      ensures Value() == Touched(old(Value()), key, ev, at)
    {
      hide Created, Revise;
      changed := changed + {key};
      if key !in items {
        items := items[key := Entry(Created(key, ev, at), |order|)];
        order := order + [key];
      }
      items := items[key := items[key].(item := Revise(items[key].item, ev, at))];
    }

    method Apply(ev: Event, now: int)
      modifies this
      ensures Value() == Applied(old(Value()), ev, now)
    {
      hide Created, Revise, Key, EventTime;
      var position := index;
      index := index + 1;
      if ev.validationError {
        return;
      }
      var at := EventTime(ev, now);
      if ev.kind == RunEnd {
        runEnd := Some(ev);
        changed := changed + items.Keys;
        if ev.message == SaysWaiting && !explicitControl {
          NoteTime(at);
          TouchItem(Key(ev, position), ev, at);
        }
      } else if ev.kind != OtherEvent {
        if ev.kind == ControlSignal {
          explicitControl := true;
        }
        NoteTime(at);
        TouchItem(Key(ev, position), ev, at);
      }
    }

    /** Whatever order the changed set is visited in, the batch comes out in item order. */
    method ChangedItems(now: int) returns (batch: seq<Item>)
      requires WellFormed(Value())
      modifies this`changed
      ensures Value() == Drained(old(Value()))
      ensures forall key :: key in ChangedKeys(old(Value())) ==> key in old(Value()).items
      ensures batch == Project(old(Value()), ChangedKeys(old(Value())), now)
    {
      hide WellFormed, Projected;
      ghost var s := Value();
      var keys := Visit(changed);
      changed := {};
      var live, end := items, runEnd;
      var sorted := StableSort.Sort(keys, ByPlace(live));
      SortedKeysAreSelected(s, keys, sorted);
      assert forall key :: key in sorted ==> key in live;
      batch := seq(|sorted|, i requires 0 <= i < |sorted| => Projected(live[sorted[i]].item, end, now));
    }

    method DropItems(ids: seq<string>)
      modifies this`items, this`changed
      ensures items == old(items) - IdSet(ids) && changed == old(changed) - IdSet(ids)
    {
      for i := 0 to |ids|
        invariant items == old(items) - IdSet(ids[..i]) && changed == old(changed) - IdSet(ids[..i])
      {
        assert IdSet(ids[..i + 1]) == IdSet(ids[..i]) + {ids[i]};
        items := items - {ids[i]};
        changed := changed - {ids[i]};
      }
      assert ids[..|ids|] == ids;
    }

    method KeepLive()
      modifies this`order
      ensures order == Select(old(order), items.Keys, |old(order)|)
    {
      var kept := [];
      for i := 0 to |order|
        invariant kept == Select(order, items.Keys, i)
      {
        if order[i] in items {
          kept := kept + [order[i]];
        }
      }
      order := kept;
    }

    method RemoveItems(ids: seq<string>)
      requires WellFormed(Value())
      modifies this`items, this`order, this`changed
      ensures Value() == Removed(old(Value()), ids)
    {
      hide Renumbered, Select, IdSet;
      ghost var s := Value();
      DropItems(ids);
      ghost var left := s.items - IdSet(ids);
      assert items == left;
      KeepLive();
      ghost var kept := Select(s.order, left.Keys, |s.order|);
      assert order == kept;
      Renumber();
      assert items == Renumbered(left, kept, |kept|);
    }

    method Renumber()
      requires forall key :: key in order ==> key in items
      modifies this`items
      ensures items == Renumbered(old(items), order, |order|)
    {
      for i := 0 to |order|
        invariant items == Renumbered(old(items), order, i)
      {
        items := items[order[i] := items[order[i]].(order := i)];
      }
    }

    method Snapshot(now: int) returns (timeline: seq<Item>)
      requires WellFormed(Value())
      ensures timeline == Timeline(Value(), now)
    {
      var list := [];
      for i := 0 to |order|
        invariant list == Project(Value(), order[..i], now)
      {
        list := list + [Projected(items[order[i]].item, runEnd, now)];
      }
      assert order[..|order|] == order;
      timeline := StableSort.Sort(list, Comparator(Value()));
    }
  }

  /** A map iteration: the keys in no particular order. */
  method Visit(keys: set<string>) returns (r: seq<string>)
    ensures Distinct(r) && forall key :: key in r <==> key in keys
  {
    r := [];
    var rest := keys;
    while rest != {}
      invariant rest <= keys
      invariant forall key :: key in r <==> key in keys && key !in rest
      invariant Distinct(r)
      decreases |rest|
    {
      var key :| key in rest;
      rest := rest - {key};
      r := r + [key];
    }
  }

  ghost predicate Distinct(keys: seq<string>) {
    forall i, j :: 0 <= i < j < |keys| ==> keys[i] != keys[j]
  }

  lemma {:induction false} DistinctCounts(keys: seq<string>)
    requires Distinct(keys)
    ensures forall key :: multiset(keys)[key] == if key in keys then 1 else 0
  {
    if keys != [] {
      var front := keys[..|keys| - 1];
      DistinctCounts(front);
      assert keys == front + [keys[|keys| - 1]];
    }
  }

  lemma RepeatCounts(keys: seq<string>, i: nat, j: nat)
    requires i < j < |keys| && keys[i] == keys[j]
    ensures multiset(keys)[keys[i]] >= 2
  {
    assert keys == keys[..j] + keys[j..];
    assert keys[..j][i] == keys[i] && keys[j..][0] == keys[i];
    assert keys[i] in multiset(keys[..j]) && keys[i] in multiset(keys[j..]);
  }

  lemma {:induction false} SelectIncreasing(s: State, chosen: set<string>, k: nat)
    requires WellFormed(s) && k <= |s.order|
    ensures var r := Select(s.order, chosen, k);
      && Distinct(r)
      && (forall i :: 0 <= i < |r| ==> r[i] in s.items && s.items[r[i]].order < k)
      && (forall i, j :: 0 <= i < j < |r| ==> s.items[r[i]].order < s.items[r[j]].order)
  {
    if k > 0 {
      SelectIncreasing(s, chosen, k - 1);
    }
  }

  function Place(s: State): string -> int {
    (a: string) => if a in s.items then s.items[a].order else -1
  }

  lemma SelectedAreKeys(s: State, keys: seq<string>)
    requires WellFormed(s)
    requires Distinct(keys) && forall key :: key in keys <==> key in s.changed
    ensures forall key :: key in keys ==> key in s.items
    ensures multiset(keys) == multiset(ChangedKeys(s))
    ensures StableSort.Increasing(ChangedKeys(s), Place(s))
  {
    var selected := ChangedKeys(s);
    SelectIncreasing(s, s.changed * s.items.Keys, |s.order|);
    assert s.order[..|s.order|] == s.order;
    DistinctCounts(keys);
    DistinctCounts(selected);
  }

  lemma SortedKeysAreSelected(s: State, keys: seq<string>, sorted: seq<string>)
    requires WellFormed(s)
    requires Distinct(keys) && forall key :: key in keys <==> key in s.changed
    requires sorted == StableSort.Sort(keys, ByPlace(s.items))
    ensures sorted == ChangedKeys(s)
  {
    SelectedAreKeys(s, keys);
    hide ChangedKeys;
    StableSort.SortSorted(keys, ByPlace(s.items));
    forall i | 0 <= i < |sorted| ensures sorted[i] in s.items {
      assert sorted[i] in multiset(sorted);
      assert sorted[i] in keys;
    }
    forall i, j | 0 <= i < j < |sorted| ensures s.items[sorted[j]].order >= s.items[sorted[i]].order {
      assert !ByPlace(s.items)(sorted[j], sorted[i]);
    }
    SortedKeysDistinct(s, keys, sorted);
    StableSort.RankedIsUnique(sorted, ChangedKeys(s), Place(s));
  }

  /** Distinct keys have distinct places, so sorting them leaves no ties. */
  lemma SortedKeysDistinct(s: State, keys: seq<string>, sorted: seq<string>)
    requires WellFormed(s) && multiset(sorted) == multiset(keys) && Distinct(keys)
    requires forall i :: 0 <= i < |sorted| ==> sorted[i] in s.items
    requires forall i, j :: 0 <= i < j < |sorted| ==> s.items[sorted[j]].order >= s.items[sorted[i]].order
    ensures forall i, j :: 0 <= i < j < |sorted| ==> s.items[sorted[i]].order < s.items[sorted[j]].order
  {
    DistinctCounts(keys);
    forall i, j | 0 <= i < j < |sorted| ensures s.items[sorted[i]].order < s.items[sorted[j]].order {
      if sorted[i] == sorted[j] {
        RepeatCounts(sorted, i, j);
      }
      var a :| 0 <= a < |s.order| && s.order[a] == sorted[i];
      var b :| 0 <= b < |s.order| && s.order[b] == sorted[j];
    }
  }
}
