/** What the collector promises over any order of events and any snapshot. */
module ResponsesOutputLaws {
  import opened Wrappers
  import opened ResponsesOutput

  // ----- Any order of events -----

  datatype Event = Event(index: int, raw: Raw)

  function AddAll(events: seq<Event>, k: nat): Result<Collected, Error>
    requires k <= |events|
  {
    if k == 0 then Ok(Collected(map[], 0))
    else
      var before := AddAll(events, k - 1);
      if before.Err? then before else Added(before.value, events[k - 1].index, events[k - 1].raw)
  }

  /** Every event decodes at a nonnegative index, and repeats agree as JSON. */
  predicate Clean(events: seq<Event>) {
    && (forall i :: 0 <= i < |events| ==> Decode(events[i].raw).Ok? && events[i].index >= 0)
    && (forall i, j :: 0 <= i < j < |events| && events[i].index == events[j].index ==>
          events[i].raw.fields == events[j].raw.fields)
  }

  predicate SeenBefore(events: seq<Event>, k: nat)
    requires k < |events|
  {
    exists i :: 0 <= i < k && events[i].index == events[k].index
  }

  /** The length of each index's first event. */
  function FirstBytes(events: seq<Event>, k: nat): nat
    requires k <= |events|
  {
    if k == 0 then 0 else FirstBytes(events, k - 1) + if SeenBefore(events, k - 1) then 0 else events[k - 1].raw.size
  }

  /** What the first `k` events have left behind. */
  ghost predicate Collects(events: seq<Event>, k: nat, c: Collected)
    requires k <= |events|
  {
    && Sound(c)
    && c.bytes == FirstBytes(events, k)
    && (forall i :: 0 <= i < k ==>
      events[i].index in c.items && c.items[events[i].index].fields == events[i].raw.fields)
    && (forall x :: x in c.items ==> exists i :: 0 <= i < k && events[i].index == x)
  }

  lemma {:induction false} FirstBytesGrow(events: seq<Event>, k: nat, n: nat)
    requires k <= n <= |events|
    ensures FirstBytes(events, k) <= FirstBytes(events, n)
  {
    if k < n {
      FirstBytesGrow(events, k, n - 1);
    }
  }

  lemma {:induction false} EmptySize(n: nat)
    ensures SizeBelow(map[], n) == 0
  {
    if n > 0 {
      EmptySize(n - 1);
    }
  }

  lemma {:induction false} AddAllCollects(events: seq<Event>, k: nat)
    requires k <= |events| && AddAll(events, k).Ok?
    ensures Collects(events, k, AddAll(events, k).value)
  {
    hide SizeBelow;
    if k == 0 {
      forall n: nat ensures SizeBelow(map[], n) == 0 {
        EmptySize(n);
      }
    } else {
      AddAllCollects(events, k - 1);
      var c, e := AddAll(events, k - 1).value, events[k - 1];
      AddKeepsSound(c, e.index, e.raw);
      assert SeenBefore(events, k - 1) <==> e.index in c.items;
      var d := AddAll(events, k).value;
      forall x | x in d.items ensures exists i :: 0 <= i < k && events[i].index == x {
        if x == e.index {
          assert events[k - 1].index == x;
        } else {
          var i :| 0 <= i < k - 1 && events[i].index == x;
        }
      }
      forall i | 0 <= i < k
        ensures events[i].index in d.items && d.items[events[i].index].fields == events[i].raw.fields
      {
      }
      assert d.bytes == FirstBytes(events, k);
      assert Sound(d);
    }
  }

  lemma {:induction false} CleanIsCollected(events: seq<Event>, k: nat)
    requires k <= |events| && Clean(events) && FirstBytes(events, k) <= MAX_BYTES
    ensures AddAll(events, k).Ok?
  {
    if k > 0 {
      FirstBytesGrow(events, k - 1, k);
      CleanIsCollected(events, k - 1);
      AddAllCollects(events, k - 1);
      var c, e := AddAll(events, k - 1).value, events[k - 1];
      assert SeenBefore(events, k - 1) <==> e.index in c.items;
      if e.index in c.items {
        var i :| 0 <= i < k - 1 && events[i].index == e.index;
      }
    }
  }

  lemma {:induction false} CollectedIsClean(events: seq<Event>, k: nat, i: nat, j: nat)
    requires i < j < k <= |events| && AddAll(events, k).Ok?
    ensures Decode(events[i].raw).Ok? && events[i].index >= 0 && Decode(events[j].raw).Ok? && events[j].index >= 0
    ensures events[i].index == events[j].index ==> events[i].raw.fields == events[j].raw.fields
  {
    AddAllCollects(events, k);
    EachAdded(events, k, i);
    EachAdded(events, k, j);
  }

  lemma {:induction false} EachAdded(events: seq<Event>, k: nat, i: nat)
    requires i < k <= |events| && AddAll(events, k).Ok?
    ensures Decode(events[i].raw).Ok? && events[i].index >= 0
  {
    if i < k - 1 {
      EachAdded(events, k - 1, i);
    }
  }

  /** All events are accepted exactly when they are clean and each index's first event
      fits the limit together with the others. */
  lemma AddAllSucceedsIff(events: seq<Event>)
    ensures AddAll(events, |events|).Ok? <==> Clean(events) && FirstBytes(events, |events|) <= MAX_BYTES
  {
    var n := |events|;
    if AddAll(events, n).Ok? {
      AddAllCollects(events, n);
      forall i | 0 <= i < n ensures Decode(events[i].raw).Ok? && events[i].index >= 0 {
        EachAdded(events, n, i);
      }
      forall i, j | 0 <= i < j < n && events[i].index == events[j].index
        ensures events[i].raw.fields == events[j].raw.fields
      {
        CollectedIsClean(events, n, i, j);
      }
    } else if Clean(events) && FirstBytes(events, n) <= MAX_BYTES {
      CleanIsCollected(events, n);
    }
  }

  /** The same JSON at the same indices, whatever bytes spell it. */
  ghost predicate SameJson(a: Collected, b: Collected) {
    && a.items.Keys == b.items.Keys
    && forall x :: x in a.items ==> a.items[x].fields == b.items[x].fields
  }

  /** Any two orders of the same events that are both accepted collect the same items. */
  lemma OrderDoesNotMatter(events: seq<Event>, other: seq<Event>)
    requires multiset(events) == multiset(other)
    requires AddAll(events, |events|).Ok? && AddAll(other, |other|).Ok?
    ensures SameJson(AddAll(events, |events|).value, AddAll(other, |other|).value)
  {
    AddAllCollects(events, |events|);
    AddAllCollects(other, |other|);
    SameItems(events, other);
    SameItems(other, events);
    var a, b := AddAll(events, |events|).value.items, AddAll(other, |other|).value.items;
    forall x | x in a.Keys ensures x in b.Keys {
      assert x in a;
    }
    forall x | x in b.Keys ensures x in a.Keys {
      assert x in b;
    }
  }

  lemma SameItems(events: seq<Event>, other: seq<Event>)
    requires multiset(events) == multiset(other)
    requires AddAll(events, |events|).Ok? && AddAll(other, |other|).Ok?
    ensures var a, b := AddAll(events, |events|).value, AddAll(other, |other|).value;
      forall x :: x in a.items ==> x in b.items && a.items[x].fields == b.items[x].fields
  {
    hide Sound;
    AddAllCollects(events, |events|);
    AddAllCollects(other, |other|);
    var a, b := AddAll(events, |events|).value, AddAll(other, |other|).value;
    forall x | x in a.items ensures x in b.items && a.items[x].fields == b.items[x].fields {
      var i :| 0 <= i < |events| && events[i].index == x;
      assert events[i] in multiset(other);
      var j :| 0 <= j < |other| && other[j] == events[i];
    }
  }

  // ----- No snapshot -----

  lemma {:induction false} CountBelow(n: nat) returns (s: set<int>)
    ensures |s| == n && forall k :: k in s <==> 0 <= k < n
  {
    if n == 0 {
      s := {};
    } else {
      s := CountBelow(n - 1);
      s := s + {n - 1};
    }
  }

  /** Without a snapshot, completion succeeds exactly when something was collected and the
      indices are 0 to n-1, and then returns the items in index order. The source only
      looks for 0 to n-1; that nothing else is left is a pigeonhole argument. */
  lemma EmptySnapshotIff(items: map<int, Raw>)
    requires forall i :: i in items ==> Decode(items[i]).Ok?
    ensures Completed(items, []).Ok? <==> items != map[] && forall k :: k in items <==> 0 <= k < |items|
    ensures Completed(items, []).Ok? ==>
      && |Completed(items, []).value| == |items|
      && forall k :: k in items ==> 0 <= k < |items| && Completed(items, []).value[k] == items[k]
  {
    if Completed(items, []).Ok? {
      var s := CountBelow(|items|);
      forall k | k in s ensures k in items.Keys {
        assert 0 <= k < |items|;
      }
      SubsetOfEqualSize(s, items.Keys);
    }
  }

  lemma SubsetOfEqualSize(s: set<int>, t: set<int>)
    requires s <= t && |s| == |t|
    ensures s == t
  {
    assert t == s + (t - s) && s !! (t - s);
  }

  // ----- With a snapshot -----

  /** The output differs from the terminal item in nothing, or only in the ciphertext of
      a reasoning item or the sources of a completed search. */
  ghost predicate Agrees(out: Fields, terminal: Fields) {
    || out == terminal
    || (HasType(terminal, "reasoning") && EqualExcept(out, terminal, "encrypted_content"))
    || (HasType(terminal, "web_search_call") && EqualExcept(out, terminal, "action")
        && Member(out, "action").JObject? && Member(terminal, "action").JObject?
        && EqualExcept(Member(out, "action").members, Member(terminal, "action").members, "sources"))
  }

  lemma ChosenAgrees(previous: Raw, raw: Raw, index: int)
    requires Decode(previous).Ok? && Decode(raw).Ok? && Chosen(previous, raw, index).Ok?
    ensures var out := Chosen(previous, raw, index).value;
      && out in {previous, raw} && Agrees(out.fields.value, raw.fields.value)
      && (CompatibleReasoning(previous.fields.value, raw.fields.value) && Cipher(previous.fields.value).value != "" ==>
        out == previous)
      && (HasType(previous.fields.value, "web_search_call") ==> out == previous)
  {
    hide ValidSources, ValidQueries, SameID, Cipher;
    var prior, value := Decode(previous).value, Decode(raw).value;
    if prior != value && !CompatibleSearch(prior, value) {
      assert CompatibleReasoning(prior, value);
      assert HasType(prior, "reasoning");
    }
  }

  lemma {:induction false} ReconciledAgrees(items: map<int, Raw>, snapshot: seq<Raw>, k: nat)
    requires k <= |snapshot| && forall i :: i in items ==> Decode(items[i]).Ok?
    requires Reconciled(items, snapshot, k).Ok?
    ensures var out := Reconciled(items, snapshot, k).value;
      && TotalSize(out, k) <= MAX_BYTES
      && forall i :: 0 <= i < k ==>
        && Decode(snapshot[i]).Ok? && out[i].fields.Some?
        && (i in items ==> Chosen(items[i], snapshot[i], i) == Ok(out[i]))
        && (i !in items ==> out[i] == snapshot[i])
  {
    hide Chosen;
    if k > 0 {
      ReconciledAgrees(items, snapshot, k - 1);
      var out := Reconciled(items, snapshot, k).value;
      var before := Reconciled(items, snapshot, k - 1).value;
      TotalPrefix(before, out, k - 1);
      if k - 1 in items {
        ChosenIsDecoded(items[k - 1], snapshot[k - 1], k - 1);
      }
    }
  }

  lemma ChosenIsDecoded(previous: Raw, raw: Raw, index: int)
    requires Decode(previous).Ok? && Decode(raw).Ok? && Chosen(previous, raw, index).Ok?
    ensures Chosen(previous, raw, index).value in {previous, raw}
  {
    ChosenAgrees(previous, raw, index);
  }

  /** A successful completion covers every collected index, stays within the limit, keeps
      completed ciphertexts and searches, and otherwise says what the snapshot says. */
  lemma SnapshotDecides(items: map<int, Raw>, snapshot: seq<Raw>)
    requires snapshot != [] && forall i :: i in items ==> 0 <= i && Decode(items[i]).Ok?
    requires Completed(items, snapshot).Ok?
    ensures var out := Completed(items, snapshot).value;
      && |out| == |snapshot| && TotalSize(out, |out|) <= MAX_BYTES
      && (forall i :: i in items ==> i < |snapshot|)
      && (forall i :: 0 <= i < |out| ==>
            out[i].fields.Some? && snapshot[i].fields.Some? && Agrees(out[i].fields.value, snapshot[i].fields.value))
      && (forall i :: 0 <= i < |out| && i !in items ==> out[i] == snapshot[i])
      && (forall i :: 0 <= i < |out| && i in items && HasType(items[i].fields.value, "web_search_call") ==>
        out[i] == items[i])
  {
    hide Chosen, Agrees, HasType;
    ReconciledAgrees(items, snapshot, |snapshot|);
    var out := Completed(items, snapshot).value;
    forall i | 0 <= i < |out|
      ensures out[i].fields.Some? && snapshot[i].fields.Some? && Agrees(out[i].fields.value, snapshot[i].fields.value)
      ensures i in items && HasType(items[i].fields.value, "web_search_call") ==> out[i] == items[i]
    {
      assert Decode(snapshot[i]).Ok?;
      if i in items {
        ChosenAgrees(items[i], snapshot[i], i);
      } else {
        SelfAgrees(out[i].fields.value);
      }
    }
  }

  lemma SelfAgrees(fields: Fields)
    ensures Agrees(fields, fields)
  {
  }
}
