/** Range reads of one frozen field: from memory, from a spilled body, whole, and bounded
    to the wire limit. */
module FieldReads {
  import opened Wrappers
  import opened Utf8

  const MAX_LIMIT: nat := 16384
  const WIRE_LIMIT: nat := 65536

  datatype Error = InvalidQuery

  /** A chunk and the offset it was read from. */
  datatype Chunk = Chunk(offset: nat, text: seq<byte>)

  function Min(a: nat, b: nat): nat { if a < b then a else b }

  /** The nearest rune start at or before `i`, or 0. */
  function BackTo(text: seq<byte>, i: nat, low: nat): (r: nat)
    requires low <= i < |text|
    ensures low <= r <= i
    ensures r == low || RuneStart(text[r])
    ensures forall k :: r < k <= i ==> !RuneStart(text[k])
  {
    if i > low && !RuneStart(text[i]) then BackTo(text, i - 1, low) else i
  }

  function Aligned(text: seq<byte>, offset: nat, align: bool): (r: nat)
    ensures r <= offset
  {
    if align && 0 < offset < |text| then BackTo(text, offset, 0) else offset
  }

  /** Where a read from `offset` stops: at the limit, moved back to a rune start. */
  function ReadEnd(text: seq<byte>, offset: nat, limit: nat): (r: nat)
    requires offset <= |text|
    ensures offset <= r <= |text| && r <= offset + limit
  {
    var end := Min(|text|, offset + limit);
    if end < |text| then BackTo(text, end, offset) else end
  }

  /** A read of the text held in memory. */
  function MemoryRead(text: seq<byte>, offset: nat, limit: nat, align: bool): Result<Chunk, Error> {
    if offset > |text| then Err(InvalidQuery)
    else
      var from := Aligned(text, offset, align);
      if !Boundary(text, from) then Err(InvalidQuery)
      else Ok(Chunk(from, text[from..ReadEnd(text, from, limit)]))
  }

  method ReadMemory(text: seq<byte>, offset: nat, limit: nat, align: bool) returns (r: Result<Chunk, Error>)
    ensures r == MemoryRead(text, offset, limit, align)
  {
    hide RuneStart;
    if offset > |text| {
      return Err(InvalidQuery);
    }
    var from: nat := offset;
    if align {
      while from > 0 && from < |text| && !RuneStart(text[from])
        invariant from <= offset
        invariant Aligned(text, from, true) == Aligned(text, offset, true)
        decreases from
      {
        from := from - 1;
      }
    }
    assert from == Aligned(text, offset, align);
    if from < |text| && !RuneStart(text[from]) {
      return Err(InvalidQuery);
    }
    var end: nat := Min(|text|, from + limit);
    ghost var start := end;
    while end < |text| && end > from && !RuneStart(text[end])
      invariant from <= end <= start
      invariant end < |text| ==> BackTo(text, end, from) == ReadEnd(text, from, limit)
      invariant end == |text| ==> end == ReadEnd(text, from, limit)
      decreases end
    {
      end := end - 1;
    }
    return Ok(Chunk(from, text[from..end]));
  }

  // ----- A spilled body -----

  /** The last rune start of a nonempty text, or 0. */
  function LastStart(text: seq<byte>): nat
    requires text != []
  {
    BackTo(text, |text| - 1, 0)
  }

  /** The spilled body's own read of `[offset, offset+limit)` within the frozen extent: the
      last rune may be cut off by the limit, and then it is left out. */
  function BodyRead(text: seq<byte>, offset: nat, limit: nat): Result<seq<byte>, Error> {
    if limit < 4 || limit > MAX_LIMIT || |text| < offset then Err(InvalidQuery)
    else
      var end := offset + Min(|text| - offset, limit);
      if offset == end then Ok([])
      else
        var part := text[offset..end];
        if !RuneStart(part[0]) then Err(InvalidQuery)
        else
          var start := LastStart(part);
          var cut := if end < |text| && |part| - start < RuneSize(part[start]) then part[..start] else part;
          if !Valid(cut) then Err(InvalidQuery) else Ok(cut)
  }

  /** Probe back from `offset` until the body accepts it, at most three bytes. */
  function BodyAligned(text: seq<byte>, offset: nat, tries: nat): Option<nat> {
    if tries == 0 then Some(offset)
    else if BodyRead(text, offset, 4).Ok? then Some(offset)
    else if offset == 0 then None
    else BodyAligned(text, offset - 1, tries - 1)
  }

  function SpilledRead(text: seq<byte>, offset: nat, limit: nat, align: bool): Result<Chunk, Error> {
    if offset > |text| then Err(InvalidQuery)
    else
      var from := if align then BodyAligned(text, offset, 4) else Some(offset);
      if from.None? then Err(InvalidQuery)
      else
        var part := BodyRead(text, from.value, limit);
        if part.Err? then Err(part.error) else Ok(Chunk(from.value, part.value))
  }

  /** A read that starts at a rune is not cut short of it, and is valid. */
  lemma BodyReadsFromStart(text: seq<byte>, offset: nat, limit: nat)
    requires Valid(text) && offset < |text| && 4 <= limit <= MAX_LIMIT && RuneStart(text[offset])
    ensures BodyRead(text, offset, limit) == Ok(text[offset..ReadEnd(text, offset, limit)])
  {
    hide Valid, RuneStart, RuneSize, LastStart, BackTo, Boundary, BodyRead;
    var end := offset + Min(|text| - offset, limit);
    BodyReadsCut(text, offset, limit);
    BodyCut(text, offset, end);
    assert ReadEnd(text, offset, limit) == if end < |text| then BackTo(text, end, offset) else end;
    EndIsBoundary(text, offset, limit);
    SliceIsValid(text, offset, ReadEnd(text, offset, limit));
  }

  lemma BodyReadsCut(text: seq<byte>, offset: nat, limit: nat)
    requires offset < |text| && 4 <= limit <= MAX_LIMIT && RuneStart(text[offset])
    ensures var end := offset + Min(|text| - offset, limit);
      var part := text[offset..end];
      var start := LastStart(part);
      var cut := if end < |text| && |part| - start < RuneSize(part[start]) then part[..start] else part;
      BodyRead(text, offset, limit) == if Valid(cut) then Ok(cut) else Err(InvalidQuery)
  {
    hide Valid, RuneStart, RuneSize, LastStart;
    var end := offset + Min(|text| - offset, limit);
    assert text[offset..end][0] == text[offset];
  }

  lemma EndIsBoundary(text: seq<byte>, offset: nat, limit: nat)
    requires offset < |text| && RuneStart(text[offset])
    ensures Boundary(text, offset) && Boundary(text, ReadEnd(text, offset, limit))
  {
  }

  /** At a rune start the body returns exactly what memory would. */
  lemma BodyReadsLikeMemory(text: seq<byte>, offset: nat, limit: nat)
    requires Valid(text) && offset <= |text| && 4 <= limit <= MAX_LIMIT
    ensures BodyRead(text, offset, limit) ==
      if Boundary(text, offset) then Ok(text[offset..ReadEnd(text, offset, limit)]) else Err(InvalidQuery)
  {
    hide Valid, LastStart, RuneSize, BackTo;
    if offset == |text| {
      assert text[offset..offset] == [];
    } else if RuneStart(text[offset]) {
      BodyReadsFromStart(text, offset, limit);
    } else {
      var end := offset + Min(|text| - offset, limit);
      assert text[offset..end][0] == text[offset];
    }
  }

  /** Leaving out a last rune that the limit cuts off ends the part where memory does. */
  lemma BodyCut(text: seq<byte>, offset: nat, end: nat)
    requires Valid(text) && offset < end <= |text| && RuneStart(text[offset])
    ensures var part, stop := text[offset..end], if end < |text| then BackTo(text, end, offset) else end;
      var start := LastStart(part);
      (if end < |text| && |part| - start < RuneSize(part[start]) then part[..start] else part) == text[offset..stop]
  {
    hide Valid;
    var part := text[offset..end];
    var start := LastStart(part);
    assert forall k :: 0 <= k < |part| ==> part[k] == text[offset + k];
    assert RuneStart(text[offset + start]);
    assert forall k :: offset + start < k < end ==> text[k] == part[k - offset];
    RuneAt(text, offset + start);
    var n := RuneSize(text[offset + start]);
    if end < |text| {
      if start + n <= |part| {
        assert offset + start + n == end;
      } else {
        BackStops(text, end, offset, offset + start);
        assert part[..start] == text[offset..offset + start];
      }
    }
  }

  lemma {:induction false} BackStops(text: seq<byte>, i: nat, low: nat, j: nat)
    requires low <= j <= i < |text| && RuneStart(text[j]) && forall k :: j < k <= i ==> !RuneStart(text[k])
    ensures BackTo(text, i, low) == j
  {
    if j < i {
      BackStops(text, i - 1, low, j);
    }
  }

  lemma NothingIsValid()
    ensures Valid([])
  {
  }

  lemma SliceIsValid(text: seq<byte>, i: nat, j: nat)
    requires Valid(text) && i <= j <= |text| && Boundary(text, i) && (Boundary(text, j) || i == j)
    ensures Valid(text[i..j])
  {
    hide Valid;
    NothingIsValid();
    if i < j {
      CutAt(text, i);
      assert Boundary(text[i..], j - i);
      CutAt(text[i..], j - i);
      assert text[i..][..j - i] == text[i..j];
    } else {
      assert text[i..j] == [];
    }
  }

  /** Spilling is invisible: every read of a valid source gives the same answer either way. */
  lemma SpillIsInvisible(text: seq<byte>, offset: nat, limit: nat, align: bool)
    requires Valid(text) && 4 <= limit <= MAX_LIMIT
    ensures SpilledRead(text, offset, limit, align) == MemoryRead(text, offset, limit, align)
  {
    if offset <= |text| {
      if align {
        ProbeFindsStart(text, offset);
      }
      BodyReadsLikeMemory(text, Aligned(text, offset, align), limit);
    }
  }

  lemma ProbeFindsStart(text: seq<byte>, offset: nat)
    requires Valid(text) && offset <= |text|
    ensures BodyAligned(text, offset, 4) == Some(Aligned(text, offset, true))
    ensures Boundary(text, Aligned(text, offset, true))
    ensures offset <= Aligned(text, offset, true) + 3
  {
    if offset == |text| {
      BodyReadsLikeMemory(text, offset, 4);
    } else {
      var j := StartNearby(text, offset);
      assert Aligned(text, offset, true) == j;
      ProbeSteps(text, offset, j, 4);
    }
  }

  lemma {:induction false} ProbeSteps(text: seq<byte>, offset: nat, j: nat, tries: nat)
    requires Valid(text) && j <= offset < |text| && offset - j < tries && RuneStart(text[j])
    requires forall k :: j < k <= offset ==> !RuneStart(text[k])
    ensures BodyAligned(text, offset, tries) == Some(j)
  {
    hide BodyRead, ReadEnd, Valid, RuneStart;
    BodyReadsLikeMemory(text, offset, 4);
    if j < offset {
      ProbeSteps(text, offset - 1, j, tries - 1);
    }
  }

  // ----- Reading a whole source -----

  /** An aligned read moves back at most three bytes and never fails inside the text. */
  lemma AlignedReadSucceeds(text: seq<byte>, offset: nat, limit: nat)
    requires Valid(text) && offset <= |text|
    ensures var r := MemoryRead(text, offset, limit, true);
      && r.Ok? && r.value.offset <= offset <= r.value.offset + 3
      && Boundary(text, r.value.offset) && r.value.offset + |r.value.text| <= |text|
  {
    ProbeFindsStart(text, offset);
  }

  /** A read from a boundary makes progress and stops at a boundary. */
  lemma ReadAdvances(text: seq<byte>, offset: nat, limit: nat)
    requires Valid(text) && offset < |text| && Boundary(text, offset) && limit >= 4
    ensures var r := MemoryRead(text, offset, limit, false);
      && r.Ok? && r.value.offset == offset && r.value.text != []
      && Boundary(text, offset + |r.value.text|)
      && r.value.text == text[offset..offset + |r.value.text|]
  {
    hide Valid, RuneSize;
    var end := Min(|text|, offset + limit);
    if end < |text| {
      var j := StartNearby(text, end);
      BackStops(text, end, offset, j);
    }
    assert ReadEnd(text, offset, limit) > offset;
  }

  /** Reading on from where the last chunk ended terminates with the whole source. */
  method ReadWhole(text: seq<byte>, limit: nat) returns (all: seq<byte>)
    requires Valid(text) && limit >= 4
    ensures all == text
  {
    all := [];
    while |all| < |text|
      invariant |all| <= |text| && all == text[..|all|] && Boundary(text, |all|)
      decreases |text| - |all|
    {
      var chunk := ReadMemory(text, |all|, limit, false);
      ReadAdvances(text, |all|, limit);
      all := all + chunk.value.text;
    }
  }

  // ----- The wire limit -----

  /** boundActivityFieldChunk: halve at a rune start until the encoding fits. `escaped` is
      the encoded length of a text, `framing` everything else on the wire. */
  method BoundChunk(text: seq<byte>, framing: nat, escaped: seq<byte> -> nat) returns (r: Result<seq<byte>, Error>)
    requires Valid(text) && framing <= MAX_LIMIT && |text| <= MAX_LIMIT
    requires forall t :: escaped(t) <= 6 * |t|
    ensures r.Ok? && r.value <= text && Valid(r.value)
    ensures framing + escaped(r.value) <= WIRE_LIMIT
    ensures r.value == if framing + escaped(text) <= WIRE_LIMIT then text else Halved(text)
    ensures text != [] ==> r.value != []
  {
    var result, halvings := text, 0;
    while true
      invariant Valid(result) && result <= text && halvings <= 1
      invariant text != [] ==> result != []
      invariant if halvings == 0 then result == text
                else 2 * |result| <= |text| && result == Halved(text) && framing + escaped(text) > WIRE_LIMIT
      decreases |result|
    {
      assert escaped(result) <= 6 * |result|;
      if framing + escaped(result) <= WIRE_LIMIT {
        return Ok(result);
      }
      HalfIsShort(result);
      var end: nat := |result| / 2;
      while end > 0 && !RuneStart(result[end])
        invariant end <= |result| / 2 < |result|
        invariant BackTo(result, end, 0) == BackTo(result, |result| / 2, 0)
      {
        end := end - 1;
      }
      if end == 0 {
        return Err(InvalidQuery);
      }
      CutAt(result, end);
      result, halvings := result[..end], halvings + 1;
    }
  }

  function Halved(text: seq<byte>): seq<byte> {
    if text == [] then [] else text[..BackTo(text, |text| / 2, 0)]
  }

  /** Half of a text of eight bytes or more is never empty. */
  lemma HalfIsShort(text: seq<byte>)
    requires Valid(text) && |text| >= 8
    ensures 0 < BackTo(text, |text| / 2, 0) && RuneStart(text[BackTo(text, |text| / 2, 0)])
  {
    var j := StartNearby(text, |text| / 2);
    assert BackTo(text, |text| / 2, 0) == j;
  }
}
