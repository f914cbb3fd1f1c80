/** Which events speak of the same item, and what one event does to the reducer. */
module ActivityKeys {
  import opened Wrappers
  import opened ActivityItem
  import opened ActivityReducer
  import ActivityEvents

  // ----- Numbers in keys -----

  /** The number that decimal digits spell. */
  function Reads(s: string): int {
    if s == "" then 0 else 10 * Reads(s[..|s| - 1]) + (s[|s| - 1] as int - '0' as int)
  }

  predicate AllDigits(s: string) {
    s != "" && forall i :: 0 <= i < |s| ==> '0' <= s[i] <= '9'
  }

  lemma {:induction false} DigitsRead(n: nat)
    ensures AllDigits(Digits(n)) && Reads(Digits(n)) == n
  {
    if n < 10 {
      assert Digits(n)[..0] == "";
    } else {
      DigitsRead(n / 10);
      assert Digits(n)[..|Digits(n)| - 1] == Digits(n / 10);
    }
  }

  /** Different numbers are spelled differently, and without a colon. */
  lemma IntTextTellsApart(a: int, b: int)
    ensures IntText(a) == IntText(b) <==> a == b
    ensures ':' !in IntText(a) && IntText(a) != ""
  {
    DigitsRead(if a < 0 then -a else a);
    DigitsRead(if b < 0 then -b else b);
    if a < 0 && b < 0 {
      assert IntText(a)[1..] == Digits(-a) && IntText(b)[1..] == Digits(-b);
    }
    assert a < 0 ==> IntText(a)[0] == '-';
    assert b < 0 ==> IntText(b)[0] == '-';
  }

  lemma LastFieldTellsApart(a: string, x: string, b: string, y: string)
    requires ':' !in x && ':' !in y
    ensures a + ":" + x == b + ":" + y <==> a == b && x == y
  {
    var s, t := a + ":" + x, b + ":" + y;
    if s == t {
      assert s[|a|] == ':' && t[|b|] == ':';
      assert forall i :: |a| < i < |s| ==> s[i] == x[i - |a| - 1];
      assert forall i :: |b| < i < |t| ==> t[i] == y[i - |b| - 1];
      assert |a| == |b|;
      assert s[..|a|] == a && t[..|b|] == b;
      assert s[|a| + 1..] == x && t[|b| + 1..] == y;
    }
  }

  // ----- Keys -----

  datatype Family = Tools | Controls | Budgets

  function FamilyOf(ev: Event): Family {
    if ev.kind == ControlSignal || ev.kind == RunEnd then Controls
    else if ev.kind == BudgetExceeded then Budgets
    else Tools
  }

  /** Budgets and run ends are never known by a tool's ID or name. */
  predicate HasToolID(ev: Event) {
    ev.toolID != "" && ev.kind != BudgetExceeded && ev.kind != RunEnd
  }

  /** What tells an event apart in its family: its tool ID, or else its name, step and
      position in the run. */
  function NameOf(ev: Event, index: nat): string {
    if HasToolID(ev) then ev.toolID
    else
      var name := if ev.kind == BudgetExceeded then "" else if ev.kind == RunEnd then "waiting" else ev.toolName;
      (if name == "" then "" else name + ":") + IntText(ev.step) + ":" + IntText(index)
  }

  lemma KeyIs(ev: Event, index: nat)
    ensures Key(ev, index) ==
      (match FamilyOf(ev) case Tools => "tool:" case Controls => "control:" case Budgets => "budget:")
      + NameOf(ev, index)
  {
    hide IntText;
    var step, place := IntText(ev.step), IntText(index);
    if ev.kind == RunEnd {
      Spliced("control:", "waiting:", step, place);
      assert "control:waiting:" == "control:" + "waiting:" && "waiting" + ":" == "waiting:";
    } else if ev.kind == BudgetExceeded {
      Spliced("budget:", "", step, place);
    } else if ev.toolID == "" {
      var prefix := if ev.kind == ControlSignal then "control:" else "tool:";
      if ev.toolName != "" {
        Spliced(prefix, ev.toolName + ":", step, place);
      } else {
        Spliced(prefix, "", step, place);
      }
    }
  }

  lemma Spliced(prefix: string, name: string, step: string, place: string)
    ensures prefix + (name + step + ":" + place) == prefix + name + step + ":" + place
    ensures prefix + "" == prefix && "" + step == step
  {
  }

  /** Two events speak of the same item exactly if they are of one family and go by the same
      name. */
  lemma KeySharedIff(a: Event, i: nat, b: Event, j: nat)
    ensures Key(a, i) == Key(b, j) <==> FamilyOf(a) == FamilyOf(b) && NameOf(a, i) == NameOf(b, j)
  {
    hide NameOf, Key;
    KeyIs(a, i);
    KeyIs(b, j);
    var x, y := NameOf(a, i), NameOf(b, j);
    assert Key(a, i)[0] == (match FamilyOf(a) case Tools => 't' case Controls => 'c' case Budgets => 'b');
    assert Key(b, j)[0] == (match FamilyOf(b) case Tools => 't' case Controls => 'c' case Budgets => 'b');
    if FamilyOf(a) == FamilyOf(b) {
      var n := match FamilyOf(a) case Tools => 5 case Controls => 8 case Budgets => 7;
      assert Key(a, i)[n..] == x && Key(b, j)[n..] == y;
    }
  }

  /** Events of one tool ID share their item wherever they stand in the run, and different
      tool IDs never do. */
  lemma ToolIDsTellApart(a: Event, i: nat, b: Event, j: nat)
    requires HasToolID(a) && HasToolID(b) && FamilyOf(a) == FamilyOf(b)
    ensures Key(a, i) == Key(b, j) <==> a.toolID == b.toolID
  {
    KeySharedIff(a, i, b, j);
  }

  /** Without a tool ID every event has an item of its own: only a position in the run that
      is the same gives the same key. */
  lemma PositionsTellApart(a: Event, i: nat, b: Event, j: nat)
    requires !HasToolID(a) && !HasToolID(b) && Key(a, i) == Key(b, j)
    ensures i == j && a.step == b.step
  {
    hide Key, IntText;
    KeySharedIff(a, i, b, j);
    IntTextTellsApart(i, j);
    IntTextTellsApart(j, i);
    IntTextTellsApart(a.step, b.step);
    IntTextTellsApart(b.step, a.step);
    var front, back := Front(a), Front(b);
    assert NameOf(a, i) == front + ":" + IntText(i) && NameOf(b, j) == back + ":" + IntText(j);
    LastFieldTellsApart(front, IntText(i), back, IntText(j));
    FrontsTellApart(a, b);
  }

  function Named(ev: Event): string {
    if ev.kind == BudgetExceeded then "" else if ev.kind == RunEnd then "waiting" else ev.toolName
  }

  function Front(ev: Event): string {
    (if Named(ev) == "" then "" else Named(ev) + ":") + IntText(ev.step)
  }

  lemma FrontHasColonIff(ev: Event)
    ensures ':' in Front(ev) <==> Named(ev) != ""
    ensures Named(ev) == "" ==> Front(ev) == IntText(ev.step)
  {
    hide IntText;
    IntTextTellsApart(ev.step, ev.step);
    if Named(ev) != "" {
      assert Front(ev)[|Named(ev)|] == ':';
    }
  }

  lemma FrontsTellApart(a: Event, b: Event)
    requires Front(a) == Front(b)
    ensures a.step == b.step
  {
    hide IntText;
    IntTextTellsApart(a.step, b.step);
    IntTextTellsApart(b.step, a.step);
    FrontHasColonIff(a);
    FrontHasColonIff(b);
    if Named(a) != "" {
      LastFieldTellsApart(Named(a), IntText(a.step), Named(b), IntText(b.step));
    }
  }

  // ----- One event -----

  /** The events that open or revise an item. */
  predicate Counts(s: State, ev: Event) {
    && !ev.validationError && ev.kind != OtherEvent
    && (ev.kind == RunEnd ==> ev.message == SaysWaiting && !s.explicitControl)
  }

  /** One event revises the item under its key, or opens it behind all others, and leaves
      every other item as it was; what changed is marked. Rejected and unrelated events only
      take their position in the run. */
  lemma AppliedTouchesOne(s: State, ev: Event, now: int)
    ensures var t, key := Applied(s, ev, now), Key(ev, s.index);
      var at := if ev.observedAt.Some? then ev.observedAt.value else now;
      var ended := ev.kind == RunEnd && !ev.validationError;
      && t.index == s.index + 1
      && t.runEnd == (if ended then Some(ev) else s.runEnd)
      && (t.explicitControl <==> s.explicitControl || (ev.kind == ControlSignal && !ev.validationError))
      && t.changed == s.changed + (if ended then s.items.Keys else {}) + (if Counts(s, ev) then {key} else {})
      && (forall k :: k in s.items && (k != key || !Counts(s, ev)) ==> k in t.items && t.items[k] == s.items[k])
      && if !Counts(s, ev) then
           t.items == s.items && t.order == s.order && t.firstAt == s.firstAt && t.lastAt == s.lastAt
         else
           && t.items.Keys == s.items.Keys + {key}
           && t.order == (if key in s.items then s.order else s.order + [key])
           && t.items[key].order == (if key in s.items then s.items[key].order else |s.order|)
           && t.items[key].item ==
              ActivityEvents.After(key, if key in s.items then Some(s.items[key].item) else None, ev, at)
           && TimesFollow(s.firstAt, s.lastAt, t.firstAt, t.lastAt, at)
  {
    hide Key, Created, Revise, TimesFollow, Noted, Touched, ActivityEvents.After;
    var at := EventTime(ev, now);
    var t := s.(index := s.index + 1);
    var u := if ev.kind == RunEnd then Ended(t, ev)
             else t.(explicitControl := t.explicitControl || ev.kind == ControlSignal);
    NotedIs(u, at);
    TouchedIs(Noted(u, at), Key(ev, s.index), ev, at);
  }

  lemma TouchedIs(s: State, key: string, ev: Event, at: int)
    ensures var t := Touched(s, key, ev, at);
      && t == s.(items := t.items, order := t.order, changed := s.changed + {key})
      && t.items.Keys == s.items.Keys + {key}
      && (forall k :: k in s.items && k != key ==> t.items[k] == s.items[k])
      && t.order == (if key in s.items then s.order else s.order + [key])
      && t.items[key].order == (if key in s.items then s.items[key].order else |s.order|)
      && t.items[key].item ==
         ActivityEvents.After(key, if key in s.items then Some(s.items[key].item) else None, ev, at)
  {
    hide Created, Revise;
  }

  lemma NotedIs(s: State, at: int)
    ensures var t := Noted(s, at);
      && t == s.(firstAt := t.firstAt, lastAt := t.lastAt)
      && TimesFollow(s.firstAt, s.lastAt, t.firstAt, t.lastAt, at)
  {
  }

  /** The span of the run is that of the times that are known. */
  predicate TimesFollow(first: int, last: int, newFirst: int, newLast: int, at: int) {
    && (at <= 0 ==> newFirst == first && newLast == last)
    && (at > 0 ==>
          && newFirst == (if first == 0 || at < first then at else first)
          && newLast == if at > last then at else last)
  }

  // ----- The order of a snapshot -----

  /** When an item happened: at its start, or at its end if no start is known. */
  predicate Happened(item: Item, time: int) {
    if item.core.startedAt > 0 then time == item.core.startedAt else time == item.core.endedAt
  }

  /** A snapshot compares two items by when they happened, if that is known of both and not
      the same, and otherwise by when they arrived. */
  lemma BeforeIs(s: State, left: Item, right: Item, a: int, b: int)
    requires left.id in s.items && right.id in s.items && Happened(left, a) && Happened(right, b)
    ensures Before(s, left, right) <==>
      (a != 0 && b != 0 && a < b) || ((a == 0 || b == 0 || a == b) && s.items[left.id].order < s.items[right.id].order)
  {
  }
}
