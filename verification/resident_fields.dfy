/** The reading cache of frozen fields: small sources in memory, large ones in spilled
    bodies that growing versions of one field share. */
module ResidentFields {
  import opened Wrappers
  import opened Utf8
  import opened FieldReads

  const MAX_COUNT: nat := 256
  const MAX_BYTES: nat := 0x80_0000
  const MAX_SPILL: nat := 0x1000_0000

  /** SHA-256, injective; `Unset` is the zero array of a missing candidate. */
  datatype Digest = Unset | Sum(text: seq<byte>)

  /** A spilled body and the number of entries that read from it. */
  datatype Storage = Storage(body: seq<byte>, references: int)

  /** Whose field it is: item, run and path. */
  datatype Place = Place(item: string, run: string, path: string)

  datatype Field = Field(
    id: string, place: Place, text: seq<byte>, size: nat, hash: Digest, used: nat, shared: Option<nat>)

  /** The whole cache. Storages are named by number, never reused below `nextStorage`. */
  datatype Cache = Cache(entries: seq<Field>, storages: map<nat, Storage>, nextStorage: nat,
                         bytes: int, spillBytes: int, clock: nat, closed: bool)

  datatype Failure = Unavailable | InvalidSource | NoVictim | CloseFailed | WriteFailed

  /** What an entry's source ID denotes. */
  function Frozen(c: Cache, f: Field): seq<byte> {
    if f.shared.Some? then
      if f.shared.value in c.storages && f.size <= |c.storages[f.shared.value].body|
      then c.storages[f.shared.value].body[..f.size] else []
    else f.text
  }

  // ----- Accounting -----

  function MemoryWeight(f: Field): nat {
    if f.shared.None? then f.size else 0
  }

  function ReferenceWeight(f: Field, storage: nat): nat {
    if f.shared == Some(storage) then 1 else 0
  }

  function MemoryBytes(entries: seq<Field>, k: nat): nat
    requires k <= |entries|
  {
    if k == 0 then 0 else MemoryBytes(entries, k - 1) + MemoryWeight(entries[k - 1])
  }

  function References(entries: seq<Field>, storage: nat, k: nat): nat
    requires k <= |entries|
  {
    if k == 0 then 0 else References(entries, storage, k - 1) + ReferenceWeight(entries[k - 1], storage)
  }

  function SpillBelow(storages: map<nat, Storage>, n: nat): nat {
    if n == 0 then 0 else SpillBelow(storages, n - 1) + if n - 1 in storages then |storages[n - 1].body| else 0
  }

  ghost predicate EntrySound(c: Cache, f: Field) {
    && f.id != ""
    && f.hash == Sum(Frozen(c, f))
    && |Frozen(c, f)| == f.size
    && match f.shared
       case None => f.size <= MAX_BYTES
       case Some(s) => s in c.storages && f.size > MAX_BYTES
  }

  ghost predicate StorageSound(c: Cache, s: nat)
    requires s in c.storages
  {
    && s < c.nextStorage
    && c.storages[s].references == References(c.entries, s, |c.entries|)
    && c.storages[s].references > 0
  }

  /** Budgets hold, every counter is exact, and every ID denotes what was hashed. */
  ghost predicate Sound(c: Cache) {
    && (forall i :: 0 <= i < |c.entries| ==> EntrySound(c, c.entries[i]))
    && (forall i, j :: 0 <= i < j < |c.entries| ==> c.entries[i].id != c.entries[j].id)
    && (forall s :: s in c.storages ==> StorageSound(c, s))
    && c.bytes == MemoryBytes(c.entries, |c.entries|)
    && c.spillBytes == SpillBelow(c.storages, c.nextStorage)
    && |c.entries| <= MAX_COUNT && c.bytes <= MAX_BYTES && c.spillBytes <= MAX_SPILL
  }

  // ----- The steps -----

  /** Swap-remove: the last entry takes the removed one's place. */
  function WithoutEntry(entries: seq<Field>, i: nat): seq<Field>
    requires i < |entries|
  {
    entries[i := entries[|entries| - 1]][..|entries| - 1]
  }

  /** Remove entry `i`; its storage goes with its last reference. */
  function RemovedAt(c: Cache, i: nat): Cache
    requires i < |c.entries|
  {
    var f := c.entries[i];
    var left := c.(entries := WithoutEntry(c.entries, i));
    match f.shared
    case None => left.(bytes := c.bytes - f.size)
    case Some(s) =>
      if s !in c.storages then left
      else if c.storages[s].references == 1 then
        left.(spillBytes := c.spillBytes - |c.storages[s].body|, storages := c.storages - {s})
      else left.(storages := c.storages[s := c.storages[s].(references := c.storages[s].references - 1)])
  }

  /** Keep the last reference to the storage that is about to grow. */
  predicate Guarded(c: Cache, f: Field, shared: Option<nat>) {
    shared.Some? && f.shared == shared && shared.value in c.storages && c.storages[shared.value].references == 1
  }

  predicate NeedsRoom(c: Cache, size: nat, additional: int) {
    || |c.entries| >= MAX_COUNT
    || (size <= MAX_BYTES && c.bytes + additional > MAX_BYTES)
    || (size > MAX_BYTES && c.spillBytes + additional > MAX_SPILL)
  }

  function Additional(c: Cache, size: nat, shared: Option<nat>): int {
    if shared.Some? && shared.value in c.storages then size - |c.storages[shared.value].body| else size
  }

  function WithText(c: Cache, f: Field): Cache {
    c.(entries := c.entries + [f], bytes := c.bytes + f.size)
  }

  function WithSpill(c: Cache, f: Field, source: seq<byte>): Cache {
    c.(entries := c.entries + [f], storages := c.storages[c.nextStorage := Storage(source, 1)],
       nextStorage := c.nextStorage + 1, spillBytes := c.spillBytes + |source|)
  }

  function WithGrowth(c: Cache, f: Field, s: nat, source: seq<byte>): Cache
    requires s in c.storages
  {
    c.(entries := c.entries + [f],
       storages := c.storages[s := Storage(source, c.storages[s].references + 1)],
       spillBytes := c.spillBytes + |source| - |c.storages[s].body|)
  }

  // ----- Sums under each step -----

  lemma {:induction false} MemoryUpdate(entries: seq<Field>, i: nat, f: Field, k: nat)
    requires i < |entries| && k <= |entries|
    ensures MemoryBytes(entries[i := f], k) ==
      MemoryBytes(entries, k) + if i < k then MemoryWeight(f) - MemoryWeight(entries[i]) else 0
  {
    if k > 0 {
      MemoryUpdate(entries, i, f, k - 1);
    }
  }

  lemma {:induction false} MemoryFront(entries: seq<Field>, more: seq<Field>, k: nat)
    requires k <= |entries| && entries <= more
    ensures MemoryBytes(more, k) == MemoryBytes(entries, k)
  {
    if k > 0 {
      MemoryFront(entries, more, k - 1);
    }
  }

  lemma {:induction false} ReferencesUpdate(entries: seq<Field>, s: nat, i: nat, f: Field, k: nat)
    requires i < |entries| && k <= |entries|
    ensures References(entries[i := f], s, k) ==
      References(entries, s, k) + if i < k then ReferenceWeight(f, s) - ReferenceWeight(entries[i], s) else 0
  {
    if k > 0 {
      ReferencesUpdate(entries, s, i, f, k - 1);
    }
  }

  lemma {:induction false} ReferencesFront(entries: seq<Field>, more: seq<Field>, s: nat, k: nat)
    requires k <= |entries| && entries <= more
    ensures References(more, s, k) == References(entries, s, k)
  {
    if k > 0 {
      ReferencesFront(entries, more, s, k - 1);
    }
  }

  lemma {:induction false} NoReferences(entries: seq<Field>, s: nat, k: nat)
    requires k <= |entries|
    ensures References(entries, s, k) == 0 <==> forall i :: 0 <= i < k ==> entries[i].shared != Some(s)
  {
    if k > 0 {
      NoReferences(entries, s, k - 1);
    }
  }

  /** The weights after a swap-remove: one entry's worth less. */
  lemma RemovedSums(entries: seq<Field>, i: nat, s: nat)
    requires i < |entries|
    ensures var left := WithoutEntry(entries, i);
      && MemoryBytes(left, |left|) == MemoryBytes(entries, |entries|) - MemoryWeight(entries[i])
      && References(left, s, |left|) == References(entries, s, |entries|) - ReferenceWeight(entries[i], s)
  {
    var n := |entries| - 1;
    var swapped := entries[i := entries[n]];
    var left := WithoutEntry(entries, i);
    MemoryUpdate(entries, i, entries[n], n);
    MemoryFront(left, swapped, n);
    ReferencesUpdate(entries, s, i, entries[n], n);
    ReferencesFront(left, swapped, s, n);
  }

  lemma AddedSums(entries: seq<Field>, f: Field, s: nat)
    ensures MemoryBytes(entries + [f], |entries| + 1) == MemoryBytes(entries, |entries|) + MemoryWeight(f)
    ensures References(entries + [f], s, |entries| + 1) == References(entries, s, |entries|) + ReferenceWeight(f, s)
  {
    MemoryFront(entries, entries + [f], |entries|);
    ReferencesFront(entries, entries + [f], s, |entries|);
  }

  lemma {:induction false} SpillUpdate(storages: map<nat, Storage>, other: map<nat, Storage>, s: nat, n: nat)
    requires forall t :: t != s ==>
      (t in storages <==> t in other) && (t in storages ==> |storages[t].body| == |other[t].body|)
    ensures SpillBelow(other, n) == SpillBelow(storages, n)
      + if s < n then (if s in other then |other[s].body| else 0) - (if s in storages then |storages[s].body| else 0)
        else 0
  {
    if n > 0 {
      SpillUpdate(storages, other, s, n - 1);
    }
  }

  lemma {:induction false} OneStorageOnly(storages: map<nat, Storage>, s: nat, n: nat)
    requires forall t :: t in storages ==> t == s
    ensures SpillBelow(storages, n) == if s in storages && s < n then |storages[s].body| else 0
  {
    if n > 0 {
      OneStorageOnly(storages, s, n - 1);
    }
  }

  // ----- Every step keeps the cache sound -----

  /** `after` has no entry that `before` had not, and each still denotes the same bytes. */
  ghost predicate OnlyKept(before: Cache, after: Cache) {
    forall f :: f in after.entries ==> f in before.entries && Frozen(after, f) == Frozen(before, f)
  }

  lemma WithoutEntryHas(entries: seq<Field>, i: nat)
    requires i < |entries|
    requires forall a, b :: 0 <= a < b < |entries| ==> entries[a].id != entries[b].id
    ensures var left := WithoutEntry(entries, i);
      && |left| == |entries| - 1
      && (forall k :: 0 <= k < |left| ==> left[k] == if k == i then entries[|entries| - 1] else entries[k])
      && (forall f :: f in left <==> f in entries && f != entries[i])
      && (forall a, b :: 0 <= a < b < |left| ==> left[a].id != left[b].id)
  {
    var left := WithoutEntry(entries, i);
    forall f | f in entries && f != entries[i] ensures f in left {
      var k :| 0 <= k < |entries| && entries[k] == f;
      var at := if k == |entries| - 1 then i else k;
      assert at < |left| && left[at] == f;
    }
  }

  lemma RemoveKeepsSound(c: Cache, i: nat)
    requires Sound(c) && i < |c.entries|
    ensures Sound(RemovedAt(c, i)) && OnlyKept(c, RemovedAt(c, i))
    ensures forall f :: f in RemovedAt(c, i).entries <==> f in c.entries && f != c.entries[i]
  {
    hide References, MemoryBytes, SpillBelow, WithoutEntry;
    var d := RemovedAt(c, i);
    var f := c.entries[i];
    WithoutEntryHas(c.entries, i);
    assert EntrySound(c, f);
    RemovedSums(c.entries, i, 0);
    forall s | s in d.storages ensures StorageSound(d, s) {
      assert StorageSound(c, s);
      RemovedSums(c.entries, i, s);
    }
    forall k | 0 <= k < |d.entries|
      ensures EntrySound(d, d.entries[k]) && Frozen(d, d.entries[k]) == Frozen(c, d.entries[k])
    {
      var g := d.entries[k];
      assert g in d.entries;
      assert EntrySound(c, g);
      if g.shared.Some? && g.shared == f.shared {
        TwoReferences(c, i, g);
      }
    }
    if f.shared.Some? {
      assert StorageSound(c, f.shared.value);
      SpillUpdate(c.storages, d.storages, f.shared.value, c.nextStorage);
    }
  }

  /** A storage that another entry still reads has more than one reference. */
  lemma TwoReferences(c: Cache, i: nat, g: Field)
    requires i < |c.entries| && c.entries[i].shared.Some? && c.entries[i].shared.value in c.storages
    requires StorageSound(c, c.entries[i].shared.value)
    requires g in WithoutEntry(c.entries, i) && g.shared == c.entries[i].shared
    ensures c.storages[c.entries[i].shared.value].references > 1
  {
    hide WithoutEntry;
    var s, left := c.entries[i].shared.value, WithoutEntry(c.entries, i);
    RemovedSums(c.entries, i, s);
    NoReferences(left, s, |left|);
  }

  ghost predicate NewField(c: Cache, f: Field, source: seq<byte>) {
    && f.id != "" && (forall g :: g in c.entries ==> g.id != f.id)
    && f.size == |source| && f.hash == Sum(source)
  }

  lemma AddTextKeepsSound(c: Cache, f: Field, source: seq<byte>)
    requires Sound(c) && NewField(c, f, source) && f.shared.None? && f.text == source
    requires !NeedsRoom(c, |source|, |source|) && |source| <= MAX_BYTES
    ensures Sound(WithText(c, f)) && Frozen(WithText(c, f), f) == source
    ensures forall g :: g in c.entries ==> Frozen(WithText(c, f), g) == Frozen(c, g)
  {
    hide References, MemoryBytes, SpillBelow;
    var d := WithText(c, f);
    AddedSums(c.entries, f, 0);
    forall s | s in d.storages ensures StorageSound(d, s) {
      assert StorageSound(c, s);
      AddedSums(c.entries, f, s);
    }
    forall k | 0 <= k < |d.entries| ensures EntrySound(d, d.entries[k]) {
      assert k < |c.entries| ==> EntrySound(c, c.entries[k]) && c.entries[k] in c.entries;
    }
  }

  lemma AddSpillKeepsSound(c: Cache, f: Field, source: seq<byte>)
    requires Sound(c) && NewField(c, f, source) && f.shared == Some(c.nextStorage)
    requires !NeedsRoom(c, |source|, |source|) && |source| > MAX_BYTES
    ensures Sound(WithSpill(c, f, source)) && Frozen(WithSpill(c, f, source), f) == source
    ensures forall g :: g in c.entries ==> Frozen(WithSpill(c, f, source), g) == Frozen(c, g)
  {
    hide References, MemoryBytes, SpillBelow;
    var d := WithSpill(c, f, source);
    AddedSums(c.entries, f, 0);
    assert c.nextStorage !in c.storages by {
      assert forall s :: s in c.storages ==> StorageSound(c, s);
    }
    forall i | 0 <= i < |c.entries| ensures c.entries[i].shared != Some(c.nextStorage) {
      assert EntrySound(c, c.entries[i]);
    }
    NoReferences(c.entries, c.nextStorage, |c.entries|);
    forall s | s in d.storages ensures StorageSound(d, s) {
      AddedSums(c.entries, f, s);
      assert s != c.nextStorage ==> StorageSound(c, s);
    }
    forall k | 0 <= k < |d.entries| ensures EntrySound(d, d.entries[k]) {
      assert k < |c.entries| ==> EntrySound(c, c.entries[k]) && c.entries[k] in c.entries;
    }
    SpillUpdate(c.storages, d.storages, c.nextStorage, c.nextStorage);
    SpillGrows(d.storages, c.nextStorage);
    forall g | g in c.entries ensures Frozen(d, g) == Frozen(c, g) {
      assert EntrySound(c, g);
    }
  }

  lemma SpillGrows(storages: map<nat, Storage>, n: nat)
    ensures SpillBelow(storages, n + 1) == SpillBelow(storages, n) + if n in storages then |storages[n].body| else 0
  {
  }

  /** Growing a shared body leaves every frozen extent as it was. */
  lemma GrowthKeepsSound(c: Cache, f: Field, s: nat, source: seq<byte>)
    requires Sound(c) && NewField(c, f, source) && f.shared == Some(s) && s in c.storages
    requires c.storages[s].body <= source && |source| > MAX_BYTES
    requires !NeedsRoom(c, |source|, |source| - |c.storages[s].body|)
    ensures Sound(WithGrowth(c, f, s, source)) && Frozen(WithGrowth(c, f, s, source), f) == source
    ensures forall g :: g in c.entries ==> Frozen(WithGrowth(c, f, s, source), g) == Frozen(c, g)
  {
    hide References, MemoryBytes, SpillBelow;
    var d := WithGrowth(c, f, s, source);
    AddedSums(c.entries, f, 0);
    forall g | g in c.entries ensures Frozen(d, g) == Frozen(c, g) {
      assert EntrySound(c, g);
    }
    forall t | t in d.storages ensures StorageSound(d, t) {
      AddedSums(c.entries, f, t);
      assert StorageSound(c, t);
    }
    forall k | 0 <= k < |d.entries| ensures EntrySound(d, d.entries[k]) {
      assert k < |c.entries| ==> EntrySound(c, c.entries[k]) && c.entries[k] in c.entries;
    }
    assert StorageSound(c, s);
    SpillUpdate(c.storages, d.storages, s, c.nextStorage);
  }

  /** The error "no victim" cannot happen: if only the growing storage's last reference
      is left, there is already room for any source within the spill limit. */
  lemma VictimExists(c: Cache, size: nat, shared: Option<nat>)
    requires Sound(c) && size <= MAX_SPILL
    requires shared.Some? ==> shared.value in c.storages && |c.storages[shared.value].body| <= size && size > MAX_BYTES
    requires NeedsRoom(c, size, Additional(c, size, shared))
    ensures exists i :: 0 <= i < |c.entries| && !Guarded(c, c.entries[i], shared)
  {
    hide SpillBelow;
    if forall i :: 0 <= i < |c.entries| ==> Guarded(c, c.entries[i], shared) {
      AllGuardedIsSmall(c, shared);
    }
  }

  lemma AllGuardedIsSmall(c: Cache, shared: Option<nat>)
    requires Sound(c) && forall i :: 0 <= i < |c.entries| ==> Guarded(c, c.entries[i], shared)
    ensures |c.entries| <= 1 && c.bytes == 0
    ensures c.spillBytes == if shared.Some? && shared.value in c.storages then |c.storages[shared.value].body| else 0
  {
    var s := if shared.Some? then shared.value else 0;
    AllShare(c.entries, s, |c.entries|);
    forall t | t in c.storages ensures Some(t) == shared {
      assert StorageSound(c, t);
      NoReferences(c.entries, t, |c.entries|);
    }
    if c.entries != [] {
      assert StorageSound(c, s);
    }
    OneStorageOnly(c.storages, s, c.nextStorage);
    if s in c.storages {
      assert StorageSound(c, s);
    }
  }

  lemma {:induction false} AllShare(entries: seq<Field>, s: nat, k: nat)
    requires k <= |entries| && forall i :: 0 <= i < |entries| ==> entries[i].shared == Some(s)
    ensures References(entries, s, k) == k && MemoryBytes(entries, k) == 0
  {
    if k > 0 {
      AllShare(entries, s, k - 1);
    }
  }
}
