/** Valid UTF-8 as bytes: where its runes start and end. */
module Utf8 {

  type byte = x: int | 0 <= x < 256

  /** utf8.RuneStart */
  predicate RuneStart(b: byte) { !(0x80 <= b < 0xc0) }

  /** The length a lead byte announces; 0 for bytes that lead nothing. */
  function RuneSize(lead: byte): nat {
    if lead < 0x80 then 1
    else if 0xc2 <= lead < 0xe0 then 2
    else if 0xe0 <= lead < 0xf0 then 3
    else if 0xf0 <= lead < 0xf5 then 4
    else 0
  }

  /** What may follow a lead byte: no overlong form, no surrogate, nothing past U+10FFFF. */
  predicate SecondFits(lead: byte, second: byte) {
    && (lead == 0xe0 ==> 0xa0 <= second)
    && (lead == 0xed ==> second < 0xa0)
    && (lead == 0xf0 ==> 0x90 <= second)
    && (lead == 0xf4 ==> second < 0x90)
  }

  /** One complete rune at the front: its lead byte and its continuation bytes. */
  predicate RuneFirst(text: seq<byte>) {
    && text != []
    && var n := RuneSize(text[0]);
    && 0 < n <= |text|
    && (forall i :: 1 <= i < n ==> !RuneStart(text[i]))
    && (n > 1 ==> SecondFits(text[0], text[1]))
  }

  predicate Valid(text: seq<byte>)
    decreases |text|
  {
    text == [] || (RuneFirst(text) && Valid(text[RuneSize(text[0])..]))
  }

  /** An offset where the text can be cut. */
  predicate Boundary(text: seq<byte>, i: nat) {
    i == |text| || (i < |text| && RuneStart(text[i]))
  }

  lemma {:induction false} CutAt(text: seq<byte>, i: nat)
    requires Valid(text) && i <= |text| && Boundary(text, i)
    ensures Valid(text[..i]) && Valid(text[i..])
    decreases |text|
  {
    if i == 0 {
      assert text[0..] == text;
    } else if text != [] {
      var n := RuneSize(text[0]);
      var rest := text[n..];
      if i < n {
        assert false;
      }
      assert Boundary(rest, i - n);
      CutAt(rest, i - n);
      assert rest[i - n..] == text[i..];
      assert text[..i][n..] == rest[..i - n];
    }
  }

  /** Every rune start in a valid text begins a complete rune that ends at a boundary. */
  lemma RuneAt(text: seq<byte>, i: nat)
    requires Valid(text) && i < |text| && RuneStart(text[i])
    ensures var n := RuneSize(text[i]);
      && 0 < n && i + n <= |text| && Boundary(text, i + n)
      && forall j :: i < j < i + n ==> !RuneStart(text[j])
  {
    CutAt(text, i);
    var rest := text[i..];
    var n := RuneSize(rest[0]);
    assert forall j :: i < j < i + n ==> text[j] == rest[j - i];
    if i + n < |text| {
      assert rest[n..][0] == text[i + n];
      assert RuneFirst(rest[n..]);
    }
  }

  /** A rune start is never more than three bytes back. */
  lemma {:induction false} StartNearby(text: seq<byte>, i: nat) returns (j: nat)
    requires Valid(text) && i < |text|
    ensures j <= i <= j + 3 && RuneStart(text[j])
    ensures forall k :: j < k <= i ==> !RuneStart(text[k])
    decreases |text|
  {
    var n := RuneSize(text[0]);
    if i < n {
      j := 0;
    } else {
      var rest := text[n..];
      var k := StartNearby(rest, i - n);
      j := k + n;
      assert forall m :: j < m <= i ==> text[m] == rest[m - n];
    }
  }

  lemma RuneGoesOn(a: seq<byte>, b: seq<byte>)
    requires RuneFirst(a)
    ensures RuneFirst(a + b) && 0 < RuneSize(a[0]) <= |a|
  {
    hide SecondFits;
  }

  lemma {:induction false} JoinValid(a: seq<byte>, b: seq<byte>)
    requires Valid(a) && Valid(b)
    ensures Valid(a + b)
    decreases |a|
  {
    hide RuneSize, RuneFirst;
    if a == [] {
      assert a + b == b;
    } else {
      RuneGoesOn(a, b);
      var n := RuneSize(a[0]);
      JoinValid(a[n..], b);
      assert (a + b)[n..] == a[n..] + b;
    }
  }

  // ----- Scalar values -----

  /** A Unicode scalar value. */
  predicate Scalar(code: nat) {
    code < 0xd800 || 0xe000 <= code < 0x11_0000
  }

  /** Section 3 of RFC 3629: six bits to each byte behind the first. */
  function Encode(code: nat): (r: seq<byte>)
    requires Scalar(code)
  {
    var last, high := code % 64, code / 64;
    if code < 0x80 then [code]
    else if code < 0x800 then [0xc0 + high, 0x80 + last]
    else if code < 0x1_0000 then [0xe0 + high / 64, 0x80 + high % 64, 0x80 + last]
    else [0xf0 + high / 64 / 64, 0x80 + high / 64 % 64, 0x80 + high % 64, 0x80 + last]
  }

  function EncodeAll(codes: seq<nat>): seq<byte>
    requires forall i :: 0 <= i < |codes| ==> Scalar(codes[i])
  {
    if codes == [] then [] else Encode(codes[0]) + EncodeAll(codes[1..])
  }

  /** The number that the bytes of one rune carry. */
  function Decoded(text: seq<byte>): int
    requires RuneFirst(text)
  {
    var a: int := text[0];
    if a < 0x80 then a
    else if a < 0xe0 then Carry(a - 0xc0, text[1])
    else if a < 0xf0 then Carry(Carry(a - 0xe0, text[1]), text[2])
    else Carry(Carry(Carry(a - 0xf0, text[1]), text[2]), text[3])
  }

  function Carry(high: int, b: byte): int {
    var low: int := b;
    64 * high + (low - 0x80)
  }

  lemma CarryIs(high: int, b: byte)
    requires 0 <= high && 0x80 <= b < 0xc0
    ensures var c := Carry(high, b); c / 64 == high && 0x80 + c % 64 == b && 64 * high <= c < 64 * high + 64
  {
  }

  lemma DecodedIsScalar(text: seq<byte>)
    requires RuneFirst(text)
    ensures 0 <= Decoded(text) && Scalar(Decoded(text))
    ensures Encode(Decoded(text)) == text[..RuneSize(text[0])]
  {
    hide Carry;
    var n := RuneSize(text[0]);
    assert forall i :: 1 <= i < n ==> 0x80 <= text[i] < 0xc0;
    var a: int := text[0];
    if n == 2 {
      CarryIs(a - 0xc0, text[1]);
    } else if n == 3 {
      CarryIs(a - 0xe0, text[1]);
      CarryIs(Carry(a - 0xe0, text[1]), text[2]);
    } else if n == 4 {
      CarryIs(a - 0xf0, text[1]);
      CarryIs(Carry(a - 0xf0, text[1]), text[2]);
      CarryIs(Carry(Carry(a - 0xf0, text[1]), text[2]), text[3]);
    }
  }

  lemma EncodedIsRune(code: nat, rest: seq<byte>)
    requires Scalar(code)
    ensures RuneFirst(Encode(code) + rest) && RuneSize(Encode(code)[0]) == |Encode(code)|
  {
  }

  /** Valid texts are exactly the encodings of scalar values. */
  lemma {:induction false} ValidMeans(text: seq<byte>) returns (codes: seq<nat>)
    requires Valid(text)
    ensures forall i :: 0 <= i < |codes| ==> Scalar(codes[i])
    ensures EncodeAll(codes) == text
    decreases |text|
  {
    hide Encode, Decoded, RuneFirst, Scalar;
    if text == [] {
      codes := [];
    } else {
      var n := RuneSize(text[0]);
      DecodedIsScalar(text);
      SizeFits(text);
      var later := ValidMeans(text[n..]);
      codes := [Decoded(text)] + later;
      assert codes[1..] == later;
      assert text[..n] + text[n..] == text;
    }
  }

  lemma SizeFits(text: seq<byte>)
    requires RuneFirst(text)
    ensures 0 < RuneSize(text[0]) <= |text|
  {
  }

  lemma {:induction false} EncodedIsValid(codes: seq<nat>)
    requires forall i :: 0 <= i < |codes| ==> Scalar(codes[i])
    ensures Valid(EncodeAll(codes))
  {
    hide Encode, RuneFirst, Scalar, RuneSize;
    if codes != [] {
      var first, rest := Encode(codes[0]), EncodeAll(codes[1..]);
      EncodedIsValid(codes[1..]);
      EncodedIsRune(codes[0], rest);
      var text := first + rest;
      assert text[0] == first[0] && text[|first|..] == rest by {
        EncodedIsRune(codes[0], []);
      }
    }
  }

  lemma ValidIff(text: seq<byte>)
    ensures Valid(text) <==>
      exists codes: seq<nat> :: (forall i :: 0 <= i < |codes| ==> Scalar(codes[i])) && EncodeAll(codes) == text
  {
    if Valid(text) {
      var codes := ValidMeans(text);
    }
    if codes: seq<nat> :| (forall i :: 0 <= i < |codes| ==> Scalar(codes[i])) && EncodeAll(codes) == text {
      EncodedIsValid(codes);
    }
  }
}
