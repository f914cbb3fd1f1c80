/** The cache object. Each method is one region under its mutex; what happens between two
    calls is any sequence of other calls, so a candidate may be stale when it is used. */
module ResidentCache {
  import opened Wrappers
  import opened Utf8
  import FieldReads
  import opened ResidentFields

  /** What a source ID was issued for, for good. */
  datatype Issue = Issue(place: Place, text: seq<byte>)

  /** What retain remembers of an entry while it hashes outside the mutex. */
  datatype Candidate = Candidate(id: string, size: nat, hash: Digest)

  const NO_CANDIDATE := Candidate("", 0, Unset)

  /** Outside failures: storages whose owner does not close, and whether a write fails. */
  datatype Faults = Faults(unclosable: set<nat>, write: bool)

  /** The hashing loop: in chunks, cut at the candidate's end so that the prefix digest
      falls out on the way. */
  method HashSource(source: seq<byte>, candidateSize: nat) returns (prefix: Digest, hash: Digest)
    ensures hash == Sum(source)
    ensures prefix == if 0 < candidateSize <= |source| then Sum(source[..candidateSize]) else Unset
  {
    prefix := Unset;
    var hashed: seq<byte>, offset: nat := [], 0;
    while offset < |source|
      invariant offset <= |source| && hashed == source[..offset]
      invariant prefix == if 0 < candidateSize <= offset then Sum(source[..candidateSize]) else Unset
      decreases |source| - offset
    {
      var end := FieldReads.Min(|source|, offset + 16384);
      if offset < candidateSize {
        end := FieldReads.Min(end, candidateSize);
      }
      hashed := hashed + source[offset..end];
      offset := end;
      if offset == candidateSize {
        prefix := Sum(hashed);
      }
    }
    assert source[..offset] == source;
    hash := Sum(hashed);
  }

  class ResidentActivityFields {
    var entries: seq<Field>
    var storages: map<nat, Storage>
    var nextStorage: nat
    var bytes: int
    var spillBytes: int
    var clock: nat
    var closed: bool
    ghost var issued: map<string, Issue>

    function Value(): Cache
      reads this
    {
      Cache(entries, storages, nextStorage, bytes, spillBytes, clock, closed)
    }

    /** Every live entry still denotes what its ID was issued for, and the clock is not behind
        the last use. */
    ghost predicate Valid()
      reads this
    {
      && Sound(Value())
      && (forall f :: f in entries ==> f.id in issued && issued[f.id] == Issue(f.place, Frozen(Value(), f)))
      && forall f :: f in entries ==> f.used <= clock
    }

    /** IDs are never reissued for anything else. */
    twostate predicate IssuesGrow()
      reads this
    {
      forall id :: id in old(issued) ==> id in issued && issued[id] == old(issued)[id]
    }

    /** A descriptor of some entry that was live at some time, or none. */
    ghost predicate Truthful(candidate: Candidate)
      reads this
    {
      candidate == NO_CANDIDATE ||
      (&& candidate.id in issued
       && candidate.size == |issued[candidate.id].text|
       && candidate.hash == Sum(issued[candidate.id].text))
    }

    /** However stale, a descriptor stays true: hashing outside the mutex is safe. */
    twostate lemma CandidateStaysTruthful(candidate: Candidate)
      requires old(Truthful(candidate)) && IssuesGrow()
      ensures Truthful(candidate)
    {
    }

    constructor ()
      ensures Valid() && Value() == Cache([], map[], 0, 0, 0, 0, false)
    {
      entries, storages, nextStorage, bytes, spillBytes, clock, closed := [], map[], 0, 0, 0, 0, false;
      issued := map[];
    }

    /** First region of retain: the longest extendable version of this field, if any. */
    method PickCandidate(place: Place, size: nat) returns (candidate: Candidate)
      requires Valid()
      ensures Truthful(candidate)
      ensures candidate.size <= size
      ensures forall f :: f in entries && Extendable(Value(), f, place, size) ==> f.size <= candidate.size
      ensures candidate == NO_CANDIDATE <==> forall f :: f in entries ==> !Extendable(Value(), f, place, size)
      ensures candidate != NO_CANDIDATE ==>
        exists f :: f in entries && Extendable(Value(), f, place, size) && candidate == Candidate(f.id, f.size, f.hash)
    {
      candidate := NO_CANDIDATE;
      for i := 0 to |entries|
        invariant Truthful(candidate) && candidate.size <= size
        invariant forall k :: 0 <= k < i && Extendable(Value(), entries[k], place, size) ==>
          0 < entries[k].size <= candidate.size
        invariant candidate != NO_CANDIDATE ==>
          exists k :: 0 <= k < i && Extendable(Value(), entries[k], place, size) && 0 < candidate.size
            && candidate == Candidate(entries[k].id, entries[k].size, entries[k].hash)
      {
        var f := entries[i];
        assert f in entries && EntrySound(Value(), f);
        if f.place == place && f.shared.Some? && f.size == |storages[f.shared.value].body|
          && f.size <= size && f.size > candidate.size
        {
          candidate := Candidate(f.id, f.size, f.hash);
        }
      }
      forall f | f in entries && Extendable(Value(), f, place, size)
        ensures 0 < f.size <= candidate.size
      {
        var k :| 0 <= k < |entries| && entries[k] == f;
      }
    }

    predicate Holds(f: Field, place: Place, hash: Digest, size: nat) {
      f.place == place && f.size == size && f.hash == hash
    }

    /** Storage `s` holds exactly the candidate's bytes, which the source starts with. */
    ghost predicate Extends(s: nat, candidate: Candidate, prefix: Digest)
      reads this
    {
      && s in storages && prefix == candidate.hash == Sum(storages[s].body)
      && |storages[s].body| == candidate.size > MAX_BYTES
    }

    /** Find the entry that already holds the source, or else the storage it can extend. */
    method Lookup(candidate: Candidate, prefix: Digest, place: Place, hash: Digest, size: nat)
      returns (hit: Option<nat>, shared: Option<nat>)
      requires Valid() && Truthful(candidate)
      ensures hit.Some? ==> hit.value < |entries| && Holds(entries[hit.value], place, hash, size)
      ensures hit.None? ==> forall f :: f in entries ==> !Holds(f, place, hash, size)
      ensures shared.Some? ==> Extends(shared.value, candidate, prefix)
      ensures shared.Some? ==>
        exists f :: f in entries && StillExtends(Value(), f, candidate, prefix) && f.shared == shared
      ensures hit.None? && shared.None? ==> forall f :: f in entries ==> !StillExtends(Value(), f, candidate, prefix)
    {
      hit, shared := None, None;
      for i := 0 to |entries|
        invariant forall j :: 0 <= j < i ==> !Holds(entries[j], place, hash, size)
        invariant shared.Some? ==> Extends(shared.value, candidate, prefix)
        invariant shared.Some? ==>
          exists f :: f in entries && StillExtends(Value(), f, candidate, prefix) && f.shared == shared
        invariant shared.None? ==> forall j :: 0 <= j < i ==> !StillExtends(Value(), entries[j], candidate, prefix)
      {
        var f := entries[i];
        assert f in entries && EntrySound(Value(), f);
        if Holds(f, place, hash, size) {
          return Some(i), shared;
        }
        if f.id == candidate.id && f.shared.Some? && |storages[f.shared.value].body| == candidate.size
          && prefix == candidate.hash
        {
          shared := f.shared;
        }
      }
    }

    /** The least recently used entry that may go, or -1. */
    method Oldest(shared: Option<nat>) returns (oldest: int)
      ensures -1 <= oldest < |entries|
      ensures oldest == -1 ==> forall i :: 0 <= i < |entries| ==> Guarded(Value(), entries[i], shared)
      ensures oldest >= 0 ==> !Guarded(Value(), entries[oldest], shared)
      ensures oldest >= 0 ==>
        forall i :: 0 <= i < |entries| && !Guarded(Value(), entries[i], shared) ==>
          entries[oldest].used <= entries[i].used
    {
      oldest := -1;
      for i := 0 to |entries|
        invariant -1 <= oldest < i
        invariant oldest == -1 ==> forall j :: 0 <= j < i ==> Guarded(Value(), entries[j], shared)
        invariant oldest >= 0 ==> !Guarded(Value(), entries[oldest], shared)
        invariant oldest >= 0 ==>
          forall j :: 0 <= j < i && !Guarded(Value(), entries[j], shared) ==> entries[oldest].used <= entries[j].used
      {
        if Guarded(Value(), entries[i], shared) {
          continue;
        }
        if oldest < 0 || entries[i].used < entries[oldest].used {
          oldest := i;
        }
      }
    }

    /** Drop one entry; a storage that will not close keeps its entry. */
    method RemoveEntry(i: nat, faults: Faults) returns (ok: bool)
      requires Valid() && i < |entries|
      modifies this`entries, this`storages, this`bytes, this`spillBytes
      ensures Valid()
      ensures Value() == if ok then RemovedAt(old(Value()), i) else old(Value())
      ensures ok ==> |entries| == |old(entries)| - 1
      ensures !ok ==> Stuck(entries[i], faults)
      ensures ok ==> forall s :: s in old(storages) && s in faults.unclosable ==> s in storages
    {
      hide Sound, Frozen;
      ghost var c := Value();
      var f := entries[i];
      SharedIsStored(c, i);
      RemoveKeepsSound(c, i);
      if f.shared.Some? {
        var s := f.shared.value;
        if storages[s].references == 1 {
          if s in faults.unclosable {
            return false;
          }
          spillBytes := spillBytes - |storages[s].body|;
          storages := storages - {s};
        } else {
          storages := storages[s := storages[s].(references := storages[s].references - 1)];
        }
      } else {
        bytes := bytes - f.size;
      }
      entries := entries[i := entries[|entries| - 1]][..|entries| - 1];
      return true;
    }

    /** Evict until the source fits. The storage about to grow survives with its bytes,
        what is left denotes what it did, and nothing evicted was used more recently than
        anything left that could have gone instead. */
    method MakeRoom(size: nat, shared: Option<nat>, faults: Faults) returns (failure: Option<Failure>)
      requires Valid() && size <= MAX_SPILL
      requires shared.Some? ==> shared.value in storages && |storages[shared.value].body| <= size && size > MAX_BYTES
      modifies this`entries, this`storages, this`bytes, this`spillBytes
      ensures Valid() && OnlyKept(old(Value()), Value()) && SameBodies(old(storages), storages)
      ensures shared.Some? ==>
        shared.value in storages && storages[shared.value].body == old(storages[shared.value].body)
      ensures failure != Some(NoVictim) && (failure == None || failure == Some(CloseFailed))
      ensures faults.unclosable == {} ==> failure == None
      ensures failure == None ==> !NeedsRoom(Value(), size, Additional(Value(), size, shared))
      ensures !NeedsRoom(old(Value()), size, Additional(old(Value()), size, shared)) ==> Value() == old(Value())
      ensures forall f, g ::
        f in old(entries) && f !in entries && g in entries && !Guarded(Value(), g, shared) ==> f.used <= g.used
    {
      hide Sound, Frozen, RemovedAt;
      ghost var before := Value();
      while NeedsRoom(Value(), size, Additional(Value(), size, shared))
        invariant Valid() && OnlyKept(before, Value()) && SameBodies(before.storages, storages)
        invariant shared.Some? ==>
          shared.value in storages && storages[shared.value].body == before.storages[shared.value].body
        invariant !NeedsRoom(before, size, Additional(before, size, shared)) ==> Value() == before
        invariant LeastRecent(before, Value(), shared)
        decreases |entries|
      {
        ghost var c := Value();
        var oldest := Oldest(shared);
        if oldest < 0 {
          VictimExists(c, size, shared);
          return Some(NoVictim);
        }
        RemoveKeepsSound(c, oldest);
        RemovedBodies(c, oldest);
        StorageSurvives(c, oldest, shared);
        EvictionIsLeastRecent(before, c, oldest, shared);
        var ok := RemoveEntry(oldest, faults);
        if !ok {
          return Some(CloseFailed);
        }
      }
      return None;
    }

    /** Second region of retain. On success the returned ID denotes exactly the source. A
        source that some entry of this place holds is only used again. Otherwise it grows the
        candidate's storage if that still can, and is stored alone if not. */
    method Install(candidate: Candidate, prefix: Digest, hash: Digest, place: Place, source: seq<byte>, id: string,
        faults: Faults)
      returns (r: Result<string, Failure>)
      requires Valid() && |source| <= MAX_SPILL
      requires Truthful(candidate) && candidate.size <= |source|
      requires hash == Sum(source)
      requires prefix == if 0 < candidate.size <= |source| then Sum(source[..candidate.size]) else Unset
      requires id != "" && id !in issued
      modifies this
      ensures Valid() && IssuesGrow() && closed == old(closed)
      ensures r.Ok? ==> exists f :: f in entries && f.id == r.value && f.place == place && Frozen(Value(), f) == source
      ensures r != Err(NoVictim)
      ensures !closed && faults == Faults({}, false) ==> r.Ok?
      ensures r == Err(WriteFailed) ==> faults.write && |source| > MAX_BYTES
      ensures r.Ok? && faults.write && |source| > MAX_BYTES ==> Known(old(Value()), place, source)
      ensures closed ==> r == Err(Unavailable) && Value() == old(Value())
      ensures !closed && Known(old(Value()), place, source) ==>
        exists i :: 0 <= i < |old(entries)| && Denotes(old(Value()), old(entries)[i], place, source)
          && r == Ok(old(entries)[i].id) && OnlyUsed(old(Value()), Value(), i)
      ensures r.Ok? && !Known(old(Value()), place, source) ==>
        && r.value == id && Appended(old(Value()), Value(), id, place, source)
        && (forall f :: f in old(entries) && Growable(old(Value()), f, candidate, source) ==>
              StoredTogether(old(Value()), Value(), f.shared.value, source))
        && ((forall f :: f in old(entries) ==> !Growable(old(Value()), f, candidate, source)) ==>
              StoredAlone(old(Value()), Value(), source))
        && (FitsAlone(old(Value()), source) ==> |entries| == |old(entries)| + 1)
    {
      hide Sound, Frozen, Denotes, Known, Growable, StillExtends, StoredAlone, StoredTogether, FitsAlone, Appended;
      if closed {
        return Err(Unavailable);
      }
      ghost var c := Value();
      clock := clock + 1;
      SameUntilClock(c, clock);
      var hit, shared := Lookup(candidate, prefix, place, hash, |source|);
      KnownIff(c, place, source);
      if hit.Some? {
        DenotesIff(c, hit.value, place, source);
        UseEntry(hit.value);
        assert Denotes(c, c.entries[hit.value], place, source) && OnlyUsed(c, Value(), hit.value);
        UsedDenotes(c, Value(), hit.value, place, source);
        return Ok(entries[hit.value].id);
      }
      SharedIsGrowable(c, candidate, prefix, source, shared);
      r := Store(hash, place, source, id, shared, faults, c);
      if r.Ok? {
        AppendedDenotes(c, Value(), id, place, source);
      }
    }

    /** Make room, then add the source to the storage it grows or alone. */
    method Store(hash: Digest, place: Place, source: seq<byte>, id: string, shared: Option<nat>, faults: Faults,
        ghost before: Cache)
      returns (r: Result<string, Failure>)
      requires Valid() && Value() == before.(clock := before.clock + 1) && Sound(before)
      requires forall f :: f in entries ==> f.used <= before.clock
      requires |source| <= MAX_SPILL && hash == Sum(source) && id != "" && id !in issued
      requires shared.Some? ==>
        shared.value in storages && storages[shared.value].body <= source && |source| > MAX_BYTES
      modifies this
      ensures Valid() && IssuesGrow() && closed == old(closed)
      ensures r != Err(NoVictim) && (faults == Faults({}, false) ==> r.Ok?)
      ensures r.Ok? ==> !(faults.write && |source| > MAX_BYTES)
      ensures r == Err(WriteFailed) ==> faults.write && |source| > MAX_BYTES
      ensures r.Ok? ==>
        && r.value == id && Appended(before, Value(), id, place, source)
        && entries != []
        && (shared.Some? ==> StoredTogether(before, Value(), shared.value, source))
        && (shared.None? ==> StoredAlone(before, Value(), source))
        && (FitsAlone(before, source) ==> |entries| == |before.entries| + 1)
    {
      hide Sound, Frozen, Denotes, Appended, StoredAlone, StoredTogether, AddedTo, Added, NeedsRoom, Additional;
      hide SameBodies, FitsAlone;
      SameUntilClock(before, clock);
      var failure := MakeRoom(|source|, shared, faults);
      if failure.Some? {
        return Err(failure.value);
      }
      if faults.write && |source| > MAX_BYTES {
        return Err(WriteFailed);
      }
      ghost var d := Value();
      AddedIs(d, id, place, source, shared);
      AddEntry(place, source, hash, id, shared);
      AppendedAfter(before, d, Value(), id, place, source, shared);
      return Ok(id);
    }

    /** Retaining a source with nothing in between: a longest version of its field grows into
        it if it is a front of it, and otherwise it is stored alone. */
    method Retain(place: Place, source: seq<byte>, id: string, faults: Faults) returns (r: Result<string, Failure>)
      requires Valid() && id != "" && id !in issued
      modifies this
      ensures Valid() && IssuesGrow() && closed == old(closed)
      ensures |source| > MAX_SPILL ==> r == Err(InvalidSource) && Value() == old(Value())
      ensures |source| <= MAX_SPILL && !closed && Known(old(Value()), place, source) ==>
        exists i :: 0 <= i < |old(entries)| && Denotes(old(Value()), old(entries)[i], place, source)
          && r == Ok(old(entries)[i].id) && OnlyUsed(old(Value()), Value(), i)
      ensures r.Ok? && !Known(old(Value()), place, source) ==>
        && r.value == id && Appended(old(Value()), Value(), id, place, source)
        && if exists f :: Longest(old(Value()), f, place, |source|) then
             exists f :: Longest(old(Value()), f, place, |source|)
               && if old(storages)[f.shared.value].body <= source
                  then StoredTogether(old(Value()), Value(), f.shared.value, source)
                  else StoredAlone(old(Value()), Value(), source)
           else StoredAlone(old(Value()), Value(), source)
    {
      hide Sound, Frozen, Denotes, Known, StoredAlone, StoredTogether, FitsAlone, OnlyUsed;
      if |source| > MAX_SPILL {
        return Err(InvalidSource);
      }
      ghost var c := Value();
      var candidate := PickCandidate(place, |source|);
      var prefix, hash := HashSource(source, candidate.size);
      if candidate == NO_CANDIDATE {
        NoneToGrow(source);
      } else {
        ghost var f :| f in entries && Extendable(c, f, place, |source|)
          && candidate == Candidate(f.id, f.size, f.hash);
        assert Longest(c, f, place, |source|);
        OnlyThatGrows(f, candidate, place, source);
      }
      r := Install(candidate, prefix, hash, place, source, id, faults);
    }

    lemma NoneToGrow(source: seq<byte>)
      requires Valid()
      ensures forall f :: f in entries ==> !Growable(Value(), f, NO_CANDIDATE, source)
    {
      hide SpillBelow, MemoryBytes, References, StorageSound, Frozen;
      forall f | f in entries ensures f.id != "" {
        var i :| 0 <= i < |entries| && entries[i] == f;
        assert EntrySound(Value(), entries[i]);
      }
    }

    lemma OnlyThatGrows(f: Field, candidate: Candidate, place: Place, source: seq<byte>)
      requires Valid() && f in entries && Extendable(Value(), f, place, |source|)
      requires candidate == Candidate(f.id, f.size, f.hash)
      ensures forall g :: g in entries && Growable(Value(), g, candidate, source) ==> g == f
      ensures Growable(Value(), f, candidate, source) <==> storages[f.shared.value].body <= source
    {
      hide SpillBelow, MemoryBytes, References, StorageSound, Frozen, EntrySound;
      var i :| 0 <= i < |entries| && entries[i] == f;
      forall g | g in entries && g.id == f.id ensures g == f {
        var j :| 0 <= j < |entries| && entries[j] == g;
      }
    }

    /** What the lookup looks for is what can still grow into the source. */
    lemma GrowableIff(f: Field, candidate: Candidate, prefix: Digest, source: seq<byte>)
      requires Valid() && Truthful(candidate) && candidate.size <= |source| && f in entries
      requires prefix == if 0 < candidate.size <= |source| then Sum(source[..candidate.size]) else Unset
      ensures StillExtends(Value(), f, candidate, prefix) <==> Growable(Value(), f, candidate, source)
    {
      hide SpillBelow, MemoryBytes, References;
      var i :| 0 <= i < |entries| && entries[i] == f;
      assert EntrySound(Value(), entries[i]);
    }

    lemma SharedIsGrowable(c: Cache, candidate: Candidate, prefix: Digest, source: seq<byte>, shared: Option<nat>)
      requires Valid() && Value() == c.(clock := c.clock + 1) && Truthful(candidate) && candidate.size <= |source|
      requires prefix == if 0 < candidate.size <= |source| then Sum(source[..candidate.size]) else Unset
      requires shared.Some? ==>
        exists f :: f in entries && StillExtends(Value(), f, candidate, prefix) && f.shared == shared
      requires shared.None? ==> forall f :: f in entries ==> !StillExtends(Value(), f, candidate, prefix)
      ensures forall f :: f in c.entries && Growable(c, f, candidate, source) ==> f.shared.Some? && f.shared == shared
      ensures shared.Some? ==> exists f :: f in c.entries && Growable(c, f, candidate, source)
      ensures shared.Some? ==>
        shared.value in storages && storages[shared.value].body <= source && |source| > MAX_BYTES
    {
      hide SpillBelow, MemoryBytes, References, StorageSound, Frozen;
      forall f | f in c.entries
        ensures StillExtends(Value(), f, candidate, prefix) <==> Growable(c, f, candidate, source)
      {
        GrowableIff(f, candidate, prefix, source);
      }
      if shared.Some? {
        var f :| f in entries && StillExtends(Value(), f, candidate, prefix) && f.shared == shared;
        var i :| 0 <= i < |entries| && entries[i] == f;
        assert EntrySound(Value(), entries[i]);
        SpilledIsLarge(Value(), i);
      }
    }

    method UseEntry(i: nat)
      requires Valid() && i < |entries|
      modifies this`entries
      ensures Valid() && |entries| == |old(entries)| && IssuesGrow()
      ensures entries == old(entries)[i := old(entries)[i].(used := clock)]
    {
      hide EntrySound, StorageSound, References, MemoryBytes, SpillBelow;
      ghost var c := Value();
      entries := entries[i := entries[i].(used := clock)];
      UseKeepsSound(c, i, clock);
      forall f | f in entries ensures f.id in issued && issued[f.id] == Issue(f.place, Frozen(Value(), f)) {
        var k :| 0 <= k < |entries| && entries[k] == f;
        assert c.entries[k] in c.entries;
      }
    }

    method AddEntry(place: Place, source: seq<byte>, hash: Digest, id: string, shared: Option<nat>)
      requires Valid() && hash == Sum(source) && id != "" && id !in issued
      requires shared.Some? ==>
        shared.value in storages && storages[shared.value].body <= source && |source| > MAX_BYTES
      requires !NeedsRoom(Value(), |source|, Additional(Value(), |source|, shared))
      modifies this
      ensures Valid() && IssuesGrow() && closed == old(closed)
      ensures exists f :: f in entries && f.id == id && f.place == place && Frozen(Value(), f) == source
      ensures Value() == Added(old(Value()), id, place, source, shared)
    {
      hide Sound, Frozen;
      ghost var c := Value();
      var f := Field(id, place, [], |source|, hash, clock, shared);
      assert forall g :: g in entries ==> g.id != id;
      if shared.Some? {
        var s := shared.value;
        GrowthKeepsSound(c, f, s, source);
        spillBytes := spillBytes + (|source| - |storages[s].body|);
        storages := storages[s := Storage(source, storages[s].references + 1)];
      } else if |source| > MAX_BYTES {
        f := f.(shared := Some(nextStorage));
        AddSpillKeepsSound(c, f, source);
        storages := storages[nextStorage := Storage(source, 1)];
        nextStorage := nextStorage + 1;
        spillBytes := spillBytes + |source|;
      } else {
        f := f.(text := source);
        AddTextKeepsSound(c, f, source);
        bytes := bytes + f.size;
      }
      entries := entries + [f];
      issued := issued[id := Issue(place, source)];
      assert f in entries;
      forall g | g in entries ensures g.id in issued && issued[g.id] == Issue(g.place, Frozen(Value(), g)) {
        assert g in c.entries || g == f;
      }
    }

    /** A read returns part of what the ID was issued for, whatever has happened to the
        shared body and to other entries since. */
    method Read(place: Place, id: string, offset: nat, limit: nat, align: bool)
      returns (found: bool, r: Result<FieldReads.Chunk, FieldReads.Error>)
      requires Valid() && 4 <= limit <= FieldReads.MAX_LIMIT
      modifies this`entries, this`clock
      ensures Valid() && IssuesGrow() && closed == old(closed)
      ensures found ==> id in issued && issued[id].place == place
      ensures found ==>
        exists f :: f in old(entries) && f.id == id && f.place == place && r ==
          if f.shared.Some? then FieldReads.SpilledRead(issued[id].text, offset, limit, align)
          else FieldReads.MemoryRead(issued[id].text, offset, limit, align)
      ensures found && Utf8.Valid(issued[id].text) ==> r == FieldReads.MemoryRead(issued[id].text, offset, limit, align)
      ensures found ==>
        exists i :: 0 <= i < |old(entries)| && old(entries)[i].id == id && old(entries)[i].place == place
          && OnlyUsed(old(Value()), Value(), i)
      ensures !found ==> Value() == old(Value())
      ensures !found <==> closed || forall f :: f in old(entries) ==> f.id != id || f.place != place
    {
      hide Sound, FieldReads.SpilledRead, FieldReads.MemoryRead, Frozen, Utf8.Valid;
      r := Err(FieldReads.InvalidQuery);
      if closed {
        return false, r;
      }
      for i := 0 to |entries|
        invariant entries == old(entries) && clock == old(clock)
        invariant forall j :: 0 <= j < i ==> entries[j].id != id || entries[j].place != place
      {
        var f := entries[i];
        if f.id != id || f.place != place {
          continue;
        }
        assert f in old(entries);
        FrozenStored(Value(), i);
        clock := clock + 1;
        SameUntilClock(old(Value()), clock);
        UseEntry(i);
        assert OnlyUsed(old(Value()), Value(), i);
        if f.shared.Some? {
          var extent := storages[f.shared.value].body[..f.size];
          if Utf8.Valid(extent) {
            FieldReads.SpillIsInvisible(extent, offset, limit, align);
          }
          r := FieldReads.SpilledRead(extent, offset, limit, align);
        } else {
          r := FieldReads.MemoryRead(f.text, offset, limit, align);
        }
        return true, r;
      }
      return false, r;
    }

    /** Whatever owners fail to close: only entries of those are left, with their storages
        and nothing in memory. */
    method Close(faults: Faults)
      requires Valid()
      modifies this
      ensures Valid() && IssuesGrow() && closed
      ensures forall f :: f in entries ==> f in old(entries) && Stuck(f, faults)
      ensures storages.Keys == old(storages.Keys) * faults.unclosable
      ensures bytes == 0
      ensures faults.unclosable == {} ==> entries == [] && spillBytes == 0
    {
      hide Sound, Frozen, RemovedAt;
      closed := true;
      SameUntilClock(old(Value()), clock);
      ghost var before := Value();
      var i: nat := |entries|;
      while i > 0
        invariant Valid() && IssuesGrow() && closed && i <= |entries|
        invariant OnlyKept(before, Value())
        invariant forall j :: i <= j < |entries| ==> Stuck(entries[j], faults)
        invariant storages.Keys <= before.storages.Keys
        invariant forall s :: s in before.storages && s in faults.unclosable ==> s in storages
      {
        i := i - 1;
        ghost var c := Value();
        RemoveKeepsSound(c, i);
        RemovedParts(c, i);
        var ok := RemoveEntry(i, faults);
      }
      OnlyStuckLeft(Value(), faults);
    }
  }

  /** A spilled version of this field that is its body's full extent and not longer than
      the source. */
  predicate Extendable(c: Cache, f: Field, place: Place, size: nat) {
    && f.place == place && f.shared.Some? && f.shared.value in c.storages
    && f.size == |c.storages[f.shared.value].body| && f.size <= size
  }

  predicate Longest(c: Cache, f: Field, place: Place, size: nat) {
    && f in c.entries && Extendable(c, f, place, size)
    && forall g :: g in c.entries && Extendable(c, g, place, size) ==> g.size <= f.size
  }

  /** There is room for the source as it is. */
  predicate FitsAlone(c: Cache, source: seq<byte>) {
    && |c.entries| < MAX_COUNT
    && if |source| <= MAX_BYTES then c.bytes + |source| <= MAX_BYTES else c.spillBytes + |source| <= MAX_SPILL
  }

  predicate Denotes(c: Cache, f: Field, place: Place, source: seq<byte>) {
    f.place == place && Frozen(c, f) == source
  }

  predicate Known(c: Cache, place: Place, source: seq<byte>) {
    exists f :: f in c.entries && Denotes(c, f, place, source)
  }

  /** The same as the lookup sees it, by digests. */
  predicate StillExtends(c: Cache, f: Field, candidate: Candidate, prefix: Digest) {
    && f.id == candidate.id && f.shared.Some? && f.shared.value in c.storages
    && |c.storages[f.shared.value].body| == candidate.size && prefix == candidate.hash
  }

  /** The candidate's entry is live, and its storage holds as much as it did then and is a
      front of the source. */
  predicate Growable(c: Cache, f: Field, candidate: Candidate, source: seq<byte>) {
    && f.id == candidate.id && f.shared.Some? && f.shared.value in c.storages
    && |c.storages[f.shared.value].body| == candidate.size
    && c.storages[f.shared.value].body <= source
  }

  /** Entry `i` was used just now and nothing else has changed: it is the newest. */
  predicate OnlyUsed(before: Cache, after: Cache, i: nat) {
    && i < |before.entries|
    && after == before.(clock := before.clock + 1,
                        entries := before.entries[i := before.entries[i].(used := before.clock + 1)])
    && forall j :: 0 <= j < |after.entries| && j != i ==> after.entries[j].used < after.entries[i].used
  }

  /** The last entry is new and the newest; the others were there before and denote what
      they did. */
  predicate Appended(before: Cache, after: Cache, id: string, place: Place, source: seq<byte>) {
    && after.entries != [] && after.clock == before.clock + 1
    && var n := |after.entries| - 1;
    && var f := after.entries[n];
    && f.id == id && f.used == after.clock && Denotes(after, f, place, source)
    && forall k :: 0 <= k < n ==>
      && after.entries[k] in before.entries && after.entries[k].used < f.used
      && Frozen(after, after.entries[k]) == Frozen(before, after.entries[k])
  }

  /** The source is in a storage of its own if it is large, and else in memory. */
  ghost predicate StoredAlone(before: Cache, after: Cache, source: seq<byte>)
    requires after.entries != []
  {
    var f := after.entries[|after.entries| - 1];
    if |source| > MAX_BYTES then
      && after.nextStorage == before.nextStorage + 1 && f.shared == Some(before.nextStorage)
      && before.nextStorage in after.storages && after.storages[before.nextStorage] == Storage(source, 1)
      && SameBodies(before.storages, after.storages - {before.nextStorage})
    else f.shared.None? && after.nextStorage == before.nextStorage && SameBodies(before.storages, after.storages)
  }

  /** No storage is made: storage `s` of the candidate's entry has grown into the source,
      and the others are as they were. */
  ghost predicate StoredTogether(before: Cache, after: Cache, s: nat, source: seq<byte>)
    requires after.entries != []
  {
    && after.nextStorage == before.nextStorage && after.entries[|after.entries| - 1].shared == Some(s)
    && s in before.storages && s in after.storages && after.storages[s].body == source
    && SameBodies(before.storages - {s}, after.storages - {s})
  }

  function Added(c: Cache, id: string, place: Place, source: seq<byte>, shared: Option<nat>): Cache {
    var f := Field(id, place, [], |source|, Sum(source), c.clock, shared);
    if shared.Some? && shared.value in c.storages then WithGrowth(c, f, shared.value, source)
    else if |source| > MAX_BYTES then WithSpill(c, f.(shared := Some(c.nextStorage)), source)
    else WithText(c, f.(text := source))
  }

  lemma AddedIs(c: Cache, id: string, place: Place, source: seq<byte>, shared: Option<nat>)
    requires Sound(c) && id != "" && forall g :: g in c.entries ==> g.id != id
    requires shared.Some? ==>
      shared.value in c.storages && c.storages[shared.value].body <= source && |source| > MAX_BYTES
    requires !NeedsRoom(c, |source|, Additional(c, |source|, shared))
    ensures AddedTo(c, Added(c, id, place, source, shared), id, place, source, shared)
  {
    hide Sound, Frozen;
    var f := Field(id, place, [], |source|, Sum(source), c.clock, shared);
    if shared.Some? {
      GrowthKeepsSound(c, f, shared.value, source);
    } else if |source| > MAX_BYTES {
      AddSpillKeepsSound(c, f.(shared := Some(c.nextStorage)), source);
    } else {
      AddTextKeepsSound(c, f.(text := source), source);
    }
  }

  /** What adding an entry does: one more at the end, in the shared storage or alone. */
  ghost predicate AddedTo(before: Cache, after: Cache, id: string, place: Place, source: seq<byte>,
      shared: Option<nat>)
  {
    && after.clock == before.clock && |after.entries| == |before.entries| + 1
    && after.entries[..|before.entries|] == before.entries
    && var f := after.entries[|before.entries|];
    && f.id == id && f.used == after.clock && Denotes(after, f, place, source)
    && (forall g :: g in before.entries ==> Frozen(after, g) == Frozen(before, g))
    && match shared
       case Some(s) => StoredTogether(before, after, s, source)
       case None => StoredAlone(before, after, source)
  }

  lemma SpilledIsLarge(c: Cache, i: nat)
    requires Sound(c) && i < |c.entries| && c.entries[i].shared.Some?
    ensures c.entries[i].shared.value in c.storages
    ensures |c.storages[c.entries[i].shared.value].body| > MAX_BYTES
  {
    assert EntrySound(c, c.entries[i]);
  }

  lemma UsedDenotes(c: Cache, d: Cache, i: nat, place: Place, source: seq<byte>)
    requires OnlyUsed(c, d, i) && Denotes(c, c.entries[i], place, source)
    ensures i < |d.entries| && d.entries[i] in d.entries && Denotes(d, d.entries[i], place, source)
    ensures d.entries[i].id == c.entries[i].id
  {
  }

  lemma AppendedDenotes(c: Cache, e: Cache, id: string, place: Place, source: seq<byte>)
    requires Appended(c, e, id, place, source)
    ensures exists f :: f in e.entries && f.id == id && f.place == place && Frozen(e, f) == source
    ensures e.entries != []
  {
  }

  /** Making room and then adding leaves what adding alone would, but for what had to go. */
  lemma AppendedAfter(c: Cache, d: Cache, e: Cache, id: string, place: Place, source: seq<byte>, shared: Option<nat>)
    requires forall f :: f in c.entries ==> f.used <= c.clock
    requires OnlyKept(c, d) && SameBodies(c.storages, d.storages)
    requires d.clock == c.clock + 1 && d.nextStorage == c.nextStorage
    requires AddedTo(d, e, id, place, source, shared)
    requires
      var now := c.(clock := c.clock + 1);
      !NeedsRoom(now, |source|, Additional(now, |source|, shared)) ==> d == now
    ensures FitsAlone(c, source) ==> |e.entries| == |c.entries| + 1
    ensures Appended(c, e, id, place, source)
    ensures shared.Some? ==> StoredTogether(c, e, shared.value, source)
    ensures shared.None? ==> StoredAlone(c, e, source)
  {
    hide Frozen;
    var n := |e.entries| - 1;
    forall k | 0 <= k < n
      ensures e.entries[k] in c.entries && Frozen(e, e.entries[k]) == Frozen(c, e.entries[k])
      ensures e.entries[k].used < e.entries[n].used
    {
      assert e.entries[..n][k] == e.entries[k];
      assert e.entries[k] in d.entries;
    }
  }

  lemma DenotesIff(c: Cache, i: nat, place: Place, source: seq<byte>)
    requires Sound(c) && i < |c.entries|
    ensures var f := c.entries[i];
      Denotes(c, f, place, source) <==> f.place == place && f.size == |source| && f.hash == Sum(source)
  {
    hide SpillBelow, MemoryBytes, References;
    assert EntrySound(c, c.entries[i]);
  }

  lemma KnownIff(c: Cache, place: Place, source: seq<byte>)
    requires Sound(c)
    ensures Known(c, place, source) <==>
      exists f :: f in c.entries && f.place == place && f.size == |source| && f.hash == Sum(source)
  {
    hide Sound, Denotes;
    forall f | f in c.entries
      ensures Denotes(c, f, place, source) <==> f.place == place && f.size == |source| && f.hash == Sum(source)
    {
      var i :| 0 <= i < |c.entries| && c.entries[i] == f;
      DenotesIff(c, i, place, source);
    }
  }

  /** A storage whose owner does not close keeps its last entry. */
  predicate Stuck(f: Field, faults: Faults) {
    f.shared.Some? && f.shared.value in faults.unclosable
  }

  lemma RemovedParts(c: Cache, i: nat)
    requires i < |c.entries|
    ensures var d := RemovedAt(c, i);
      && d.storages.Keys <= c.storages.Keys && |d.entries| == |c.entries| - 1
      && forall k :: 0 <= k < |d.entries| ==>
        d.entries[k] == if k == i then c.entries[|c.entries| - 1] else c.entries[k]
  {
  }

  lemma {:induction false} NoMemory(entries: seq<Field>, k: nat)
    requires k <= |entries| && forall i :: 0 <= i < |entries| ==> entries[i].shared.Some?
    ensures MemoryBytes(entries, k) == 0
  {
    if k > 0 {
      NoMemory(entries, k - 1);
    }
  }

  lemma OnlyStuckLeft(c: Cache, faults: Faults)
    requires Sound(c) && forall j :: 0 <= j < |c.entries| ==> Stuck(c.entries[j], faults)
    ensures c.bytes == 0 && c.storages.Keys <= faults.unclosable
    ensures faults.unclosable == {} ==> c.entries == [] && c.spillBytes == 0
  {
    hide SpillBelow, References;
    NoMemory(c.entries, |c.entries|);
    forall s | s in c.storages
      ensures s in faults.unclosable
    {
      assert StorageSound(c, s);
      if s !in faults.unclosable {
        NoReferences(c.entries, s, |c.entries|);
      }
    }
    if faults.unclosable == {} {
      EmptyIsZero(c);
    }
  }

  /** Neither the clock nor the closed flag matters to the accounting. */
  lemma SameUntilClock(c: Cache, clock: nat)
    requires Sound(c)
    ensures Sound(c.(clock := clock)) && Sound(c.(closed := true, clock := clock))
    ensures forall f :: Frozen(c.(clock := clock), f) == Frozen(c, f) == Frozen(c.(closed := true, clock := clock), f)
  {
    hide SpillBelow, MemoryBytes, References;
    assert forall i :: 0 <= i < |c.entries| ==> EntrySound(c, c.entries[i]);
    assert forall s :: s in c.storages ==> StorageSound(c, s);
  }

  lemma UseKeepsSound(c: Cache, i: nat, clock: nat)
    requires Sound(c) && i < |c.entries|
    ensures Sound(c.(entries := c.entries[i := c.entries[i].(used := clock)]))
  {
    hide SpillBelow, MemoryBytes, References;
    var f := c.entries[i].(used := clock);
    var d := c.(entries := c.entries[i := f]);
    MemoryUpdate(c.entries, i, f, |c.entries|);
    forall s | s in d.storages ensures StorageSound(d, s) {
      assert StorageSound(c, s);
      ReferencesUpdate(c.entries, s, i, f, |c.entries|);
    }
    forall k | 0 <= k < |d.entries| ensures EntrySound(d, d.entries[k]) {
      assert EntrySound(c, c.entries[k]);
    }
  }

  lemma SharedIsStored(c: Cache, i: nat)
    requires Sound(c) && i < |c.entries|
    ensures c.entries[i].shared.Some? ==> c.entries[i].shared.value in c.storages
  {
    assert EntrySound(c, c.entries[i]);
  }

  lemma FrozenStored(c: Cache, i: nat)
    requires Sound(c) && i < |c.entries|
    ensures var f := c.entries[i];
      if f.shared.Some? then
        && f.shared.value in c.storages && f.size <= |c.storages[f.shared.value].body|
        && Frozen(c, f) == c.storages[f.shared.value].body[..f.size]
      else Frozen(c, f) == f.text
  {
    assert EntrySound(c, c.entries[i]);
  }

  lemma EmptyIsZero(c: Cache)
    requires Sound(c) && c.entries == []
    ensures c.bytes == 0 && c.spillBytes == 0
  {
    AllGuardedIsSmall(c, None);
  }

  /** Nothing that went was used after anything that is left and could have gone. */
  ghost predicate LeastRecent(before: Cache, after: Cache, shared: Option<nat>) {
    forall f, g ::
      f in before.entries && f !in after.entries && g in after.entries && !Guarded(after, g, shared) ==>
      f.used <= g.used
  }

  /** Storages only go; none is changed or made. */
  ghost predicate SameBodies(before: map<nat, Storage>, after: map<nat, Storage>) {
    forall s :: s in after ==> s in before && after[s].body == before[s].body
  }

  lemma RemovedBodies(c: Cache, i: nat)
    requires i < |c.entries|
    ensures SameBodies(c.storages, RemovedAt(c, i).storages)
  {
  }

  lemma StorageSurvives(c: Cache, oldest: nat, shared: Option<nat>)
    requires Sound(c) && oldest < |c.entries| && !Guarded(c, c.entries[oldest], shared)
    requires shared.Some? ==> shared.value in c.storages
    ensures shared.Some? ==> shared.value in RemovedAt(c, oldest).storages
    ensures shared.Some? ==> RemovedAt(c, oldest).storages[shared.value].body == c.storages[shared.value].body
  {
  }

  lemma EvictionIsLeastRecent(before: Cache, c: Cache, oldest: nat, shared: Option<nat>)
    requires Sound(c) && oldest < |c.entries| && LeastRecent(before, c, shared) && OnlyKept(before, c)
    requires !Guarded(c, c.entries[oldest], shared)
    requires forall i :: 0 <= i < |c.entries| && !Guarded(c, c.entries[i], shared) ==>
      c.entries[oldest].used <= c.entries[i].used
    ensures LeastRecent(before, RemovedAt(c, oldest), shared)
  {
    hide EntrySound, StorageSound, SpillBelow, MemoryBytes, References, WithoutEntry, Frozen;
    var d := RemovedAt(c, oldest);
    RemoveKeepsSound(c, oldest);
    forall f, g | f in before.entries && f !in d.entries && g in d.entries && !Guarded(d, g, shared)
      ensures f.used <= g.used
    {
      assert g in c.entries;
      GuardStays(c, oldest, g, shared);
      var i :| 0 <= i < |c.entries| && c.entries[i] == g;
      if f !in c.entries {
        assert f.used <= g.used;
      } else {
        assert f == c.entries[oldest];
      }
    }
  }

  lemma GuardStays(c: Cache, oldest: nat, g: Field, shared: Option<nat>)
    requires Sound(c) && oldest < |c.entries| && g in RemovedAt(c, oldest).entries
    requires !Guarded(c, c.entries[oldest], shared)
    ensures Guarded(c, g, shared) ==> Guarded(RemovedAt(c, oldest), g, shared)
  {
  }
}
