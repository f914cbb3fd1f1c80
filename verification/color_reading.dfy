/** What reading a color profile means for any image: which segments count, which sets of
    them are refused and why, and how the profile is put together. */
module ColorReading {
  import opened Wrappers
  import opened ColorProfile

  // ----- Marker segments -----

  datatype Marked = Marked(marker: byte, payload: seq<byte>)

  /** A marker, its length in two bytes with themselves, and the payload. */
  function BytesOf(s: Marked): seq<byte>
    requires |s.payload| <= 65533
  {
    var n := |s.payload| + 2;
    [0xff, s.marker, n / 256, n % 256] + s.payload
  }

  predicate Walkable(s: Marked) {
    |s.payload| <= 65533 && s.marker != 0xda && s.marker != 0xd9
  }

  function AllBytes(segments: seq<Marked>): seq<byte>
    requires forall i :: 0 <= i < |segments| ==> Walkable(segments[i])
  {
    if segments == [] then []
    else
      assert Walkable(segments[0]);
      BytesOf(segments[0]) + AllBytes(segments[1..])
  }

  /** Where the walk ends: no marker, the scan or the end of the image, or a length that is
      too small or reaches past the data. */
  predicate EndsHere(rest: seq<byte>) {
    || |rest| < 4
    || rest[0] != 0xff || rest[1] == 0xda || rest[1] == 0xd9
    || (var n := 256 * (rest[2] as int) + rest[3] as int; n < 2 || n > |rest| - 2)
  }

  /** Every image is a walk of segments and a rest. */
  lemma {:induction false} WalkExists(rest: seq<byte>) returns (segments: seq<Marked>, tail: seq<byte>)
    ensures forall i :: 0 <= i < |segments| ==> Walkable(segments[i])
    ensures AllBytes(segments) + tail == rest && EndsHere(tail)
    decreases |rest|
  {
    if EndsHere(rest) {
      segments, tail := [], rest;
    } else {
      var n := 256 * (rest[2] as int) + rest[3] as int;
      var first := Marked(rest[1], rest[4..2 + n]);
      var later;
      later, tail := WalkExists(rest[2 + n..]);
      segments := [first] + later;
      assert segments[1..] == later;
      assert BytesOf(first) == rest[..2 + n] by {
        assert n / 256 == rest[2] as int && n % 256 == rest[3] as int;
      }
      assert BytesOf(first) + (AllBytes(later) + tail) == rest;
    }
  }

  /** The payloads that carry a profile: those of APP2 segments that begin with the
      signature. */
  function ProfilePayloads(segments: seq<Marked>): seq<seq<byte>> {
    if segments == [] then []
    else
      var s := segments[0];
      (if s.marker == 0xe2 && [73, 67, 67, 95, 80, 82, 79, 70, 73, 76, 69, 0] <= s.payload then [s.payload] else [])
      + ProfilePayloads(segments[1..])
  }

  /** Adding payloads one by one, the first error ending it. */
  function TakeAll(ps: seq<seq<byte>>, k: nat): Result<Found, Error>
    requires k <= |ps|
  {
    if k == 0 then Ok(Found(map[], 0))
    else
      var before := TakeAll(ps, k - 1);
      if before.Err? then before else AddSegment(before.value, ps[k - 1])
  }

  function TakeFrom(f: Found, ps: seq<seq<byte>>): Result<Found, Error>
    decreases |ps|
  {
    if ps == [] then Ok(f)
    else
      var g := AddSegment(f, ps[0]);
      if g.Err? then g else TakeFrom(g.value, ps[1..])
  }

  lemma {:induction false} TakeFromIsTakeAll(ps: seq<seq<byte>>, k: nat)
    requires k <= |ps|
    ensures TakeAll(ps, |ps|) ==
      var before := TakeAll(ps, k);
      if before.Err? then before else TakeFrom(before.value, ps[k..])
    decreases |ps| - k
  {
    hide AddSegment;
    if k == |ps| {
      assert ps[k..] == [];
    } else {
      TakeFromIsTakeAll(ps, k + 1);
      assert ps[k..][0] == ps[k] && ps[k..][1..] == ps[k + 1..];
    }
  }

  lemma StepScans(s: Marked, rest: seq<byte>, f: Found)
    requires Walkable(s)
    ensures Scan(BytesOf(s) + rest, f) ==
      if s.marker == 0xe2 && [73, 67, 67, 95, 80, 82, 79, 70, 73, 76, 69, 0] <= s.payload then
        var g := AddSegment(f, s.payload);
        if g.Err? then g else Scan(rest, g.value)
      else Scan(rest, f)
  {
    hide AddSegment;
    var all, n := BytesOf(s) + rest, |s.payload| + 2;
    assert all[..4] == [0xff, s.marker, n / 256, n % 256];
    assert all[0] == 0xff && all[1] == s.marker && all[2] == n / 256 && all[3] == n % 256;
    assert MarkerSize(all) == Some(n);
    assert all[4..2 + n] == s.payload && all[2 + n..] == rest;
  }

  lemma {:induction false} ScanIs(segments: seq<Marked>, tail: seq<byte>, f: Found)
    requires (forall i :: 0 <= i < |segments| ==> Walkable(segments[i])) && EndsHere(tail)
    ensures Scan(AllBytes(segments) + tail, f) == TakeFrom(f, ProfilePayloads(segments))
  {
    hide AddSegment, Scan, BytesOf;
    if segments == [] {
      assert AllBytes(segments) + tail == tail;
      EndScans(tail, f);
    } else {
      var s, later := segments[0], segments[1..];
      assert AllBytes(segments) + tail == BytesOf(s) + (AllBytes(later) + tail);
      StepScans(s, AllBytes(later) + tail, f);
      var p := ProfilePayloads(segments);
      if s.marker == 0xe2 && [73, 67, 67, 95, 80, 82, 79, 70, 73, 76, 69, 0] <= s.payload {
        assert p[0] == s.payload && p[1..] == ProfilePayloads(later);
        var g := AddSegment(f, s.payload);
        if g.Ok? {
          ScanIs(later, tail, g.value);
        }
      } else {
        assert p == ProfilePayloads(later);
        ScanIs(later, tail, f);
      }
    }
  }

  lemma EndScans(tail: seq<byte>, f: Found)
    requires EndsHere(tail)
    ensures Scan(tail, f) == Ok(f)
  {
  }

  // ----- Sets of payloads -----

  // Behind the signature stand an index, a count and a piece of the profile.

  function Index(p: seq<byte>): int { if |p| >= 14 then p[12] as int else 0 }

  function Count(p: seq<byte>): int { if |p| >= 14 then p[13] as int else 0 }

  function Piece(p: seq<byte>): seq<byte> { if |p| >= 14 then p[14..] else [] }

  /** Payload `k` has an index, within the count that the first one names, that none before
      it has. */
  predicate Fits(ps: seq<seq<byte>>, k: nat)
    requires k < |ps|
  {
    && |ps[k]| >= 14
    && 1 <= Index(ps[k]) <= Count(ps[k])
    && forall j :: 0 <= j < k ==> Count(ps[j]) == Count(ps[k]) && Index(ps[j]) != Index(ps[k])
  }

  predicate AllFit(ps: seq<seq<byte>>, k: nat)
    requires k <= |ps|
  {
    forall i :: 0 <= i < k ==> Fits(ps, i)
  }

  ghost predicate Taken(ps: seq<seq<byte>>, k: nat, f: Found)
    requires k <= |ps| && AllFit(ps, k)
  {
    && f.total == (if k == 0 then 0 else Count(ps[0]))
    && (forall i :: i in f.segments <==> exists j :: 0 <= j < k && Index(ps[j]) == i)
    && (forall i, j :: 0 <= j < k && Index(ps[j]) == i && i in f.segments ==> f.segments[i] == Piece(ps[j]))
  }

  lemma {:induction false} TakeAllIs(ps: seq<seq<byte>>, k: nat)
    requires k <= |ps|
    ensures var r := TakeAll(ps, k);
      if AllFit(ps, k) then r.Ok? && Taken(ps, k, r.value)
      else r.Err? && exists i :: 0 <= i < k && !Fits(ps, i) && AllFit(ps, i) && r.error == Misfit(ps, i)
  {
    hide AddSegment;
    if k > 0 {
      TakeAllIs(ps, k - 1);
      if AllFit(ps, k - 1) {
        TakeNext(ps, k, TakeAll(ps, k - 1).value);
      }
    }
  }

  /** Too short for an index and a count, or out of order. */
  function Misfit(ps: seq<seq<byte>>, k: nat): Error
    requires k < |ps|
  {
    if |ps[k]| < 14 then InvalidSegment else InvalidOrder
  }

  lemma TakeNext(ps: seq<seq<byte>>, k: nat, f: Found)
    requires 0 < k <= |ps| && AllFit(ps, k - 1) && Taken(ps, k - 1, f)
    ensures var r := AddSegment(f, ps[k - 1]);
      if Fits(ps, k - 1) then r.Ok? && AllFit(ps, k) && Taken(ps, k, r.value) else r == Err(Misfit(ps, k - 1))
  {
    assert forall j :: 0 <= j < k - 1 ==> Fits(ps, j);
    assert k - 1 > 0 ==> Fits(ps, 0) && f.total > 0;
    var p := ps[k - 1];
    forall j | 0 <= j < k - 1 ensures Count(ps[j]) == Count(ps[0]) {
      assert Fits(ps, j);
    }
  }

  // ----- The profile -----

  /** Some payload has index `i`. */
  ghost predicate HasPiece(ps: seq<seq<byte>>, i: int) {
    exists k :: 0 <= k < |ps| && Index(ps[k]) == i
  }

  /** `profile` is pieces 1 to `n`, one behind the other. */
  ghost predicate JoinsTo(ps: seq<seq<byte>>, n: nat, profile: seq<byte>)
    requires AllFit(ps, |ps|)
    decreases n
  {
    if n == 0 then profile == []
    else
      exists k, front :: 0 <= k < |ps| && Index(ps[k]) == n && JoinsTo(ps, n - 1, front)
        && profile == front + Piece(ps[k])
  }

  lemma {:induction false} AssembledIs(ps: seq<seq<byte>>, f: Found, n: nat)
    requires AllFit(ps, |ps|) && Taken(ps, |ps|, f)
    ensures var r := Assembled(f, n);
      if r.Ok? then JoinsTo(ps, n, r.value) && (n > 0 ==> |r.value| <= 1_048_576)
      else Breaks(ps, n, r.error)
  {
    hide AllFit, Taken, JoinsTo, BreaksAt, Index, Piece;
    if n > 0 {
      AssembledIs(ps, f, n - 1);
      var before := Assembled(f, n - 1);
      if before.Ok? {
        NextAssembled(ps, f, n, before.value);
      }
    } else {
      NothingJoined(ps);
    }
  }

  lemma NothingJoined(ps: seq<seq<byte>>)
    requires AllFit(ps, |ps|)
    ensures JoinsTo(ps, 0, [])
  {
  }

  lemma NextAssembled(ps: seq<seq<byte>>, f: Found, n: nat, front: seq<byte>)
    requires AllFit(ps, |ps|) && Taken(ps, |ps|, f) && n > 0
    requires Assembled(f, n - 1) == Ok(front) && JoinsTo(ps, n - 1, front)
    ensures var r := Assembled(f, n);
      if r.Ok? then JoinsTo(ps, n, r.value) && |r.value| <= 1_048_576 else BreaksAt(ps, n, front, r.error)
  {
    hide Index, Piece, AllFit;
    if n in f.segments {
      var k :| 0 <= k < |ps| && Index(ps[k]) == n;
      assert f.segments[n] == Piece(ps[k]);
      assert JoinsTo(ps, n, front + Piece(ps[k]));
    }
  }

  /** The first piece that is missing, or that makes the profile longer than a mebibyte. */
  ghost predicate Breaks(ps: seq<seq<byte>>, n: nat, e: Error)
    requires AllFit(ps, |ps|)
  {
    exists i, front :: 0 < i <= n && JoinsTo(ps, i - 1, front) && BreaksAt(ps, i, front, e)
  }

  ghost predicate BreaksAt(ps: seq<seq<byte>>, i: nat, front: seq<byte>, e: Error)
    requires AllFit(ps, |ps|)
  {
    if !HasPiece(ps, i) then e == Incomplete
    else e == TooLarge && exists k :: 0 <= k < |ps| && Index(ps[k]) == i && |front + Piece(ps[k])| > 1_048_576
  }

  /** Reading, for every image: of the payloads on its walk the first that does not fit
      decides the error; if all fit, the pieces from 1 to their count are joined in the order
      of their indices, and the first that is missing or too much decides. No payloads, no
      profile. */
  lemma ReadingIs(data: seq<byte>, segments: seq<Marked>, tail: seq<byte>)
    requires |data| >= 2 && (forall i :: 0 <= i < |segments| ==> Walkable(segments[i])) && EndsHere(tail)
    requires data[2..] == AllBytes(segments) + tail
    ensures var r, ps := Extracted(data), ProfilePayloads(segments);
      if !AllFit(ps, |ps|) then
        r.Err? && exists i :: 0 <= i < |ps| && !Fits(ps, i) && AllFit(ps, i) && r.error == Misfit(ps, i)
      else
        var n := if ps == [] then 0 else Count(ps[0]);
        if r.Ok? then JoinsTo(ps, n, r.value) && |r.value| <= 1_048_576 else Breaks(ps, n, r.error)
  {
    hide AddSegment, Scan, Assembled, Fits, JoinsTo, Breaks, Misfit;
    var ps := ProfilePayloads(segments);
    ScanIs(segments, tail, Found(map[], 0));
    TakeFromIsTakeAll(ps, 0);
    assert ps[0..] == ps;
    TakeAllIs(ps, |ps|);
    var f := TakeAll(ps, |ps|);
    if f.Ok? {
      AssembledIs(ps, f.value, f.value.total);
      NothingAssembled(f.value);
    }
  }

  lemma NothingAssembled(f: Found)
    ensures Assembled(f, 0) == Ok([])
  {
  }
}
