/** A color profile split over JPEG APP2 segments (ICC.1:2010 Annex B; marker segments of
    ITU-T T.81 section B.1.1): writing it into an image and reading it back. */
module ColorProfile {
  import opened Wrappers

  type byte = x: int | 0 <= x < 256

  const MAX_PROFILE: nat := 0x10_0000
  const CHUNK: nat := 65519
  const SIGNATURE: seq<byte> := [0x49, 0x43, 0x43, 0x5f, 0x50, 0x52, 0x4f, 0x46, 0x49, 0x4c, 0x45, 0]

  datatype Error = InvalidSegment | InvalidOrder | Incomplete | TooLarge

  function Min(a: nat, b: nat): nat { if a < b then a else b }

  /** binary.BigEndian.Uint16 */
  function U16(high: byte, low: byte): nat { (high as int) * 256 + low as int }

  // ----- Writing -----

  function ChunkCount(profile: seq<byte>): nat {
    (|profile| + CHUNK - 1) / CHUNK
  }

  function ChunkAt(profile: seq<byte>, i: nat): (r: seq<byte>)
    requires i * CHUNK < |profile|
    ensures 0 < |r| <= CHUNK
  {
    profile[i * CHUNK..Min(|profile|, (i + 1) * CHUNK)]
  }

  /** APP2 marker, two length bytes, signature, index and count. The byte conversions
      wrap like the source's. */
  function Segment(index: nat, count: nat, chunk: seq<byte>): seq<byte> {
    var length: nat := (|chunk| + 16) % 0x1_0000;
    [0xff, 0xe2, length / 256, length % 256] + SIGNATURE + [index % 256, count % 256] + chunk
  }

  lemma CountCovers(profile: seq<byte>, i: nat)
    requires i < ChunkCount(profile)
    ensures i * CHUNK < |profile|
  {
  }

  /** The segments from chunk `i` on. */
  function SegmentsFrom(profile: seq<byte>, i: nat): seq<byte>
    requires i <= ChunkCount(profile)
    decreases ChunkCount(profile) - i
  {
    if i == ChunkCount(profile) then []
    else
      CountCovers(profile, i);
      Segment(i + 1, ChunkCount(profile), ChunkAt(profile, i)) + SegmentsFrom(profile, i + 1)
  }

  function Embedded(data: seq<byte>, profile: seq<byte>): seq<byte>
    requires 2 <= |data|
  {
    if profile == [] then data else data[..2] + SegmentsFrom(profile, 0) + data[2..]
  }

  lemma NextSegment(profile: seq<byte>, i: nat)
    requires i < ChunkCount(profile)
    ensures i * CHUNK < |profile|
    ensures SegmentsFrom(profile, i)
         == Segment(i + 1, ChunkCount(profile), profile[i * CHUNK..Min(|profile|, (i + 1) * CHUNK)])
            + SegmentsFrom(profile, i + 1)
  {
    hide Segment;
    CountCovers(profile, i);
  }

  method ModelImageWithProfile(data: seq<byte>, profile: seq<byte>) returns (out: seq<byte>)
    requires 2 <= |data|
    ensures out == Embedded(data, profile)
  {
    hide Segment, SegmentsFrom;
    if |profile| == 0 {
      return data;
    }
    out := data[..2];
    var total := (|profile| + CHUNK - 1) / CHUNK;
    for i := 0 to total
      invariant out + SegmentsFrom(profile, i) == data[..2] + SegmentsFrom(profile, 0)
    {
      NextSegment(profile, i);
      var segment := WriteSegment(i + 1, total, profile[i * CHUNK..Min(|profile|, (i + 1) * CHUNK)]);
      assert out + (segment + SegmentsFrom(profile, i + 1)) == (out + segment) + SegmentsFrom(profile, i + 1);
      out := out + segment;
    }
    NoSegmentsLeft(profile);
    out := out + data[2..];
  }

  lemma NoSegmentsLeft(profile: seq<byte>)
    ensures SegmentsFrom(profile, ChunkCount(profile)) == []
  {
  }

  method WriteSegment(index: nat, count: nat, chunk: seq<byte>) returns (segment: seq<byte>)
    ensures segment == Segment(index, count, chunk)
  {
    var payload := SIGNATURE + [index % 256, count % 256];
    payload := payload + chunk;
    var length: nat := (|payload| + 2) % 0x1_0000;
    segment := [0xff, 0xe2, length / 256, length % 256] + payload;
  }

  // ----- Reading -----

  datatype Found = Found(segments: map<nat, seq<byte>>, total: nat)

  predicate IsIcc(marker: byte, payload: seq<byte>) {
    marker == 0xe2 && SIGNATURE <= payload
  }

  /** One ICC payload: well formed, in range, agreeing on the count, and not seen yet. */
  function AddSegment(f: Found, payload: seq<byte>): Result<Found, Error> {
    if |payload| < 14 then Err(InvalidSegment)
    else
      var index, count := payload[12], payload[13];
      if index < 1 || index > count || (f.total != 0 && f.total != count) || index in f.segments then Err(InvalidOrder)
      else Ok(Found(f.segments[index := payload[14..]], count))
  }

  /** The marker segment at the front of `rest` fits; its size past the marker bytes. */
  function MarkerSize(rest: seq<byte>): (r: Option<nat>)
    ensures r.Some? ==> 4 <= r.value + 2 <= |rest|
  {
    if |rest| < 4 || rest[0] != 0xff || rest[1] == 0xda || rest[1] == 0xd9 then None
    else
      var n: nat := U16(rest[2], rest[3]);
      if n < 2 || n > |rest| - 2 then None else Some(n)
  }

  function Scan(rest: seq<byte>, f: Found): Result<Found, Error>
    decreases |rest|
  {
    if MarkerSize(rest).None? then Ok(f)
    else
      var n := MarkerSize(rest).value;
      if IsIcc(rest[1], rest[4..2 + n]) then
        var g := AddSegment(f, rest[4..2 + n]);
        if g.Err? then g else Scan(rest[2 + n..], g.value)
      else Scan(rest[2 + n..], f)
  }

  /** Segments 1 to `i`, joined; missing ones and too many bytes are errors. */
  function Assembled(f: Found, i: nat): Result<seq<byte>, Error> {
    if i == 0 then Ok([])
    else
      var before := Assembled(f, i - 1);
      if before.Err? then before
      else if i !in f.segments then Err(Incomplete)
      else if |before.value| + |f.segments[i]| > MAX_PROFILE then Err(TooLarge)
      else Ok(before.value + f.segments[i])
  }

  function Extracted(data: seq<byte>): Result<seq<byte>, Error> {
    if |data| < 2 then Ok([])
    else
      var f := Scan(data[2..], Found(map[], 0));
      if f.Err? then Err(f.error) else Assembled(f.value, f.value.total)
  }

  method ModelImageColorProfile(data: seq<byte>) returns (r: Result<seq<byte>, Error>)
    ensures r == Extracted(data)
  {
    if |data| < 2 {
      return Ok([]);
    }
    var found := ScanSegments(data);
    if found.Err? {
      return Err(found.error);
    }
    var segments, total := found.value.segments, found.value.total;
    var profile := [];
    for i := 1 to total + 1
      invariant Assembled(Found(segments, total), i - 1) == Ok(profile)
    {
      if i !in segments {
        AssemblyStops(Found(segments, total), i, total);
        return Err(Incomplete);
      }
      if |profile| + |segments[i]| > MAX_PROFILE {
        AssemblyStops(Found(segments, total), i, total);
        return Err(TooLarge);
      }
      profile := profile + segments[i];
    }
    return Ok(profile);
  }

  method ScanSegments(data: seq<byte>) returns (r: Result<Found, Error>)
    requires 2 <= |data|
    ensures r == Scan(data[2..], Found(map[], 0))
  {
    hide IsIcc, AddSegment;
    var f, pos := Found(map[], 0), 2;
    while pos + 4 <= |data|
      invariant 2 <= pos <= |data|
      invariant Scan(data[pos..], f) == Scan(data[2..], Found(map[], 0))
      decreases |data| - pos
    {
      RestHead(data, pos);
      if data[pos] != 0xff {
        return Ok(f);
      }
      var marker := data[pos + 1];
      if marker == 0xda || marker == 0xd9 {
        return Ok(f);
      }
      var n := U16(data[pos + 2], data[pos + 3]);
      if n < 2 || n > |data| - pos - 2 {
        return Ok(f);
      }
      var payload := data[pos + 4..pos + 2 + n];
      RestTail(data, pos, n);
      if IsIcc(marker, payload) {
        var g := RecordSegment(f, payload);
        if g.Err? {
          return g;
        }
        f := g.value;
      }
      pos := pos + 2 + n;
    }
    return Ok(f);
  }

  lemma RestHead(data: seq<byte>, pos: nat)
    requires pos + 4 <= |data|
    ensures var rest := data[pos..];
      rest[0] == data[pos] && rest[1] == data[pos + 1] && rest[2] == data[pos + 2] && rest[3] == data[pos + 3]
  {
  }

  lemma RestTail(data: seq<byte>, pos: nat, n: nat)
    requires 2 <= n <= |data| - pos - 2
    ensures data[pos + 4..pos + 2 + n] == data[pos..][4..2 + n] && data[pos + 2 + n..] == data[pos..][2 + n..]
  {
  }

  method RecordSegment(f: Found, payload: seq<byte>) returns (r: Result<Found, Error>)
    ensures r == AddSegment(f, payload)
  {
    if |payload| < 14 {
      return Err(InvalidSegment);
    }
    var index, count := payload[12], payload[13];
    if index < 1 || index > count || (f.total != 0 && f.total != count) || index in f.segments {
      return Err(InvalidOrder);
    }
    return Ok(Found(f.segments[index := payload[14..]], count));
  }

  lemma {:induction false} AssemblyStops(f: Found, i: nat, n: nat)
    requires i <= n && Assembled(f, i).Err?
    ensures Assembled(f, n) == Assembled(f, i)
  {
    if i < n {
      AssemblyStops(f, i, n - 1);
    }
  }

  // ----- Round trip -----

  /** No ICC segment before the scan data. */
  predicate IccFree(rest: seq<byte>)
    decreases |rest|
  {
    MarkerSize(rest).None? ||
    var n := MarkerSize(rest).value;
    !IsIcc(rest[1], rest[4..2 + n]) && IccFree(rest[2 + n..])
  }

  /** The first `i` chunks, as the reader collects them. */
  ghost predicate Holds(f: Found, profile: seq<byte>, i: nat)
    requires i <= ChunkCount(profile)
  {
    && (forall k :: k in f.segments <==> 1 <= k <= i)
    && (forall k :: 1 <= k <= i ==> (k - 1) * CHUNK < |profile| && f.segments[k] == ChunkAt(profile, k - 1))
    && f.total == if i == 0 then 0 else ChunkCount(profile)
  }

  function Payload(index: nat, count: nat, chunk: seq<byte>): seq<byte> {
    SIGNATURE + [index % 256, count % 256] + chunk
  }

  /** A written segment is one well-formed ICC marker segment, whatever follows it. */
  lemma SegmentParses(index: nat, count: nat, chunk: seq<byte>, rest: seq<byte>)
    requires |chunk| <= CHUNK
    ensures var all, n := Segment(index, count, chunk) + rest, |chunk| + 16;
      && MarkerSize(all) == Some(n)
      && IsIcc(all[1], all[4..2 + n]) && all[4..2 + n] == Payload(index, count, chunk) && all[2 + n..] == rest
  {
    var all := Segment(index, count, chunk) + rest;
    var n: nat := |chunk| + 16;
    assert n < 0x1_0000;
    assert all[..4] == [0xff, 0xe2, n / 256, n % 256];
    assert all[0] == 0xff && all[1] == 0xe2 && all[2] == n / 256 && all[3] == n % 256;
    assert all[4..2 + n] == Payload(index, count, chunk);
    assert Payload(index, count, chunk)[..12] == SIGNATURE;
    assert all[2 + n..] == rest;
  }

  lemma PayloadFields(index: nat, count: nat, chunk: seq<byte>)
    ensures var p := Payload(index, count, chunk);
      |p| == 14 + |chunk| && p[12] == index % 256 && p[13] == count % 256 && p[14..] == chunk
  {
  }

  /** A written segment whose index byte is out of order is refused. */
  lemma SegmentFails(index: nat, count: nat, chunk: seq<byte>, rest: seq<byte>, f: Found)
    requires |chunk| <= CHUNK && (index % 256 < 1 || index % 256 > count % 256)
    ensures Scan(Segment(index, count, chunk) + rest, f) == Err(InvalidOrder)
  {
    hide Segment, Payload, MarkerSize, IsIcc;
    SegmentParses(index, count, chunk, rest);
    PayloadFields(index, count, chunk);
  }

  /** Reading back one written segment, as long as its index has not passed the count byte. */
  lemma SegmentReads(index: nat, count: nat, chunk: seq<byte>, rest: seq<byte>, f: Found)
    requires |chunk| <= CHUNK && 1 <= index <= count % 256
    requires index !in f.segments && (f.total == 0 || f.total == count % 256)
    ensures Scan(Segment(index, count, chunk) + rest, f) == Scan(rest, Found(f.segments[index := chunk], count % 256))
  {
    hide Segment, Payload, MarkerSize, IsIcc;
    SegmentParses(index, count, chunk, rest);
    PayloadFields(index, count, chunk);
  }

  /** A profile of more than 255 chunks never reads back: its count wraps, and the first
      segment past the wrapped count is out of order. */
  lemma {:induction false} WrappedCountFails(profile: seq<byte>, i: nat, rest: seq<byte>, f: Found)
    requires ChunkCount(profile) > 255 && i <= ChunkCount(profile) % 256
    requires forall k :: k in f.segments <==> 1 <= k <= i
    requires f.total == if i == 0 then 0 else ChunkCount(profile) % 256
    ensures Scan(SegmentsFrom(profile, i) + rest, f).Err?
    decreases ChunkCount(profile) % 256 - i
  {
    hide Segment, Scan;
    var count := ChunkCount(profile);
    CountCovers(profile, i);
    var chunk, more := ChunkAt(profile, i), SegmentsFrom(profile, i + 1);
    assert SegmentsFrom(profile, i) + rest == Segment(i + 1, count, chunk) + (more + rest);
    if i == count % 256 {
      SegmentFails(i + 1, count, chunk, more + rest, f);
    } else {
      SegmentReads(i + 1, count, chunk, more + rest, f);
      WrappedCountFails(profile, i + 1, rest, Found(f.segments[i + 1 := chunk], count % 256));
    }
  }

  lemma HoldsOneMore(f: Found, profile: seq<byte>, i: nat)
    requires i < ChunkCount(profile) && i * CHUNK < |profile| && Holds(f, profile, i)
    ensures i + 1 !in f.segments && (f.total == 0 || f.total == ChunkCount(profile))
    ensures Holds(Found(f.segments[i + 1 := ChunkAt(profile, i)], ChunkCount(profile)), profile, i + 1)
  {
    hide ChunkCount, ChunkAt;
  }

  lemma {:induction false} SegmentsRead(profile: seq<byte>, i: nat, rest: seq<byte>, f: Found) returns (g: Found)
    requires 0 < ChunkCount(profile) <= 255 && i <= ChunkCount(profile) && Holds(f, profile, i)
    ensures Scan(SegmentsFrom(profile, i) + rest, f) == Scan(rest, g)
    ensures Holds(g, profile, ChunkCount(profile))
    decreases ChunkCount(profile) - i
  {
    hide Segment, Scan, ChunkCount, Holds, ChunkAt;
    if i == ChunkCount(profile) {
      assert SegmentsFrom(profile, i) + rest == rest;
      g := f;
    } else {
      CountCovers(profile, i);
      var chunk, more := ChunkAt(profile, i), SegmentsFrom(profile, i + 1);
      var segment := Segment(i + 1, ChunkCount(profile), chunk);
      assert SegmentsFrom(profile, i) == segment + more;
      assert segment + more + rest == segment + (more + rest);
      HoldsOneMore(f, profile, i);
      SegmentReads(i + 1, ChunkCount(profile), chunk, more + rest, f);
      g := SegmentsRead(profile, i + 1, rest, Found(f.segments[i + 1 := chunk], ChunkCount(profile)));
    }
  }

  /** With every index taken, the rest of the image either has no ICC segment or is an error. */
  lemma {:induction false} FullScan(profile: seq<byte>, rest: seq<byte>, f: Found)
    requires 0 < ChunkCount(profile) && Holds(f, profile, ChunkCount(profile))
    ensures IccFree(rest) ==> Scan(rest, f) == Ok(f)
    ensures !IccFree(rest) ==> Scan(rest, f).Err?
    decreases |rest|
  {
    if MarkerSize(rest).Some? {
      var n := MarkerSize(rest).value;
      if !IsIcc(rest[1], rest[4..2 + n]) {
        FullScan(profile, rest[2 + n..], f);
      }
    }
  }

  lemma {:induction false} ChunksAssemble(profile: seq<byte>, f: Found, i: nat)
    requires Holds(f, profile, ChunkCount(profile)) && i <= ChunkCount(profile)
    ensures var size := Min(|profile|, i * CHUNK);
      Assembled(f, i) == if size <= MAX_PROFILE then Ok(profile[..size]) else Err(TooLarge)
  {
    if i > 0 {
      ChunksAssemble(profile, f, i - 1);
      CountCovers(profile, i - 1);
      var size := Min(|profile|, (i - 1) * CHUNK);
      assert f.segments[i] == ChunkAt(profile, i - 1);
      assert profile[..size] + ChunkAt(profile, i - 1) == profile[..Min(|profile|, i * CHUNK)];
    }
  }

  /** Embedding and then extracting returns the profile exactly when it is within the
      limit and the image carried no ICC segment of its own. */
  lemma RoundTripIff(data: seq<byte>, profile: seq<byte>)
    requires 2 <= |data| && profile != []
    ensures Extracted(Embedded(data, profile)) == Ok(profile) <==> |profile| <= MAX_PROFILE && IccFree(data[2..])
  {
    hide Scan, IccFree, SegmentsFrom;
    var out, count := Embedded(data, profile), ChunkCount(profile);
    assert out[2..] == SegmentsFrom(profile, 0) + data[2..];
    if count <= 255 {
      var g := SegmentsRead(profile, 0, data[2..], Found(map[], 0));
      FullScan(profile, data[2..], g);
      ChunksAssemble(profile, g, count);
      assert Min(|profile|, count * CHUNK) == |profile|;
      assert profile[..|profile|] == profile;
    } else {
      WrappedCountFails(profile, 0, data[2..], Found(map[], 0));
    }
  }

  lemma SegmentFields(index: nat, count: nat, chunk: seq<byte>)
    requires index < 256 && count < 256 && |chunk| + 16 <= 65535
    ensures var s := Segment(index, count, chunk);
      |s| == 18 + |chunk| && U16(s[2], s[3]) == |s| - 2 && s[16] == index && s[17] == count
  {
  }

  lemma FewChunks(profile: seq<byte>)
    requires |profile| <= MAX_PROFILE
    ensures ChunkCount(profile) <= 17
  {
  }

  /** A profile within the limit needs at most 17 segments, so neither the index and count
      bytes nor the 16-bit lengths wrap. */
  lemma ProfileNeverWraps(profile: seq<byte>, i: nat)
    requires 0 < |profile| <= MAX_PROFILE && i < ChunkCount(profile)
    ensures ChunkCount(profile) <= 17
    ensures i * CHUNK < |profile| && |ChunkAt(profile, i)| + 16 <= 65535
    ensures var s := Segment(i + 1, ChunkCount(profile), ChunkAt(profile, i));
      U16(s[2], s[3]) == |s| - 2 && s[16] == i + 1 && s[17] == ChunkCount(profile)
  {
    hide Segment, ChunkAt, U16, ChunkCount;
    CountCovers(profile, i);
    FewChunks(profile);
    SegmentFields(i + 1, ChunkCount(profile), ChunkAt(profile, i));
  }

  // ----- The image itself -----

  /** What is left of an image's marker segments when every ICC segment is taken out. */
  function Stripped(rest: seq<byte>): seq<byte>
    decreases |rest|
  {
    if MarkerSize(rest).None? then rest
    else
      var n := MarkerSize(rest).value;
      (if IsIcc(rest[1], rest[4..2 + n]) then [] else rest[..2 + n]) + Stripped(rest[2 + n..])
  }

  lemma {:induction false} FreeIsStripped(rest: seq<byte>)
    requires IccFree(rest)
    ensures Stripped(rest) == rest
    decreases |rest|
  {
    if MarkerSize(rest).Some? {
      var n := MarkerSize(rest).value;
      FreeIsStripped(rest[2 + n..]);
      assert rest[..2 + n] + rest[2 + n..] == rest;
    }
  }

  lemma {:induction false} SegmentsStripOff(profile: seq<byte>, i: nat, rest: seq<byte>)
    requires i <= ChunkCount(profile)
    ensures Stripped(SegmentsFrom(profile, i) + rest) == Stripped(rest)
    decreases ChunkCount(profile) - i
  {
    hide Segment, MarkerSize, IsIcc, Payload;
    if i == ChunkCount(profile) {
      assert SegmentsFrom(profile, i) + rest == rest;
    } else {
      CountCovers(profile, i);
      var chunk, more := ChunkAt(profile, i), SegmentsFrom(profile, i + 1);
      assert SegmentsFrom(profile, i) + rest == Segment(i + 1, ChunkCount(profile), chunk) + (more + rest);
      SegmentParses(i + 1, ChunkCount(profile), chunk, more + rest);
      SegmentsStripOff(profile, i + 1, rest);
    }
  }

  /** The image itself survives any profile: a reader that takes out ICC segments finds
      what it finds in the original, and finds the original when that had none. */
  lemma ImageSurvives(data: seq<byte>, profile: seq<byte>)
    requires 2 <= |data|
    ensures var out := Embedded(data, profile);
      && out[..2] == data[..2] && Stripped(out[2..]) == Stripped(data[2..])
      && (IccFree(data[2..]) ==> out[..2] + Stripped(out[2..]) == data)
  {
    hide Stripped, IccFree, SegmentsFrom;
    var out := Embedded(data, profile);
    if profile != [] {
      assert out[2..] == SegmentsFrom(profile, 0) + data[2..];
      SegmentsStripOff(profile, 0, data[2..]);
    }
    if IccFree(data[2..]) {
      FreeIsStripped(data[2..]);
    }
  }
}
