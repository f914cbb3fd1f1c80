/** JSON items as the provider history sees them: an object's fields plus the
    byte-level choices (key order, spacing, bare characters) that a rewrite erases. */
module JsonItems {
  import opened Wrappers

  datatype Part = Part(kind: string, text: string)

  /** A member value. Equal values have equal bytes once encoded again; `spelling` tells
      apart the ways of escaping one decoded text that the encoder leaves alone, 0 being
      its own. */
  datatype Value =
    | Str(spelling: nat, text: string)
    | Parts(spelling: nat, parts: seq<Part>)
    | Null
    | Raw(code: nat)

  /** An object's raw bytes. `bare` says which of the characters that the encoder always
      escapes (<, >, &, U+2028 and U+2029) stand unescaped, and where; 0 is nowhere. */
  datatype Item =
    | Object(order: nat, spacing: nat, bare: nat, fields: map<string, Value>)
    | NullItem
    | Malformed

  function Normal(item: Item): (r: Item)
  {
    if item.Object? then Object(0, 0, 0, item.fields) else item
  }

  /** What embedding raw bytes in a larger document does: spacing goes and bare characters
      are escaped, while key order stays. */
  function Compact(item: Item): (r: Item)
  {
    if item.Object? then item.(spacing := 0, bare := 0) else item
  }

  predicate AllObjects(items: seq<Item>) {
    forall i :: 0 <= i < |items| ==> items[i].Object?
  }

  function NormalAll(items: seq<Item>): (r: seq<Item>)
    ensures |r| == |items|
  {
    seq(|items|, i requires 0 <= i < |items| => Normal(items[i]))
  }

  function CompactAll(items: seq<Item>): (r: seq<Item>)
    ensures |r| == |items|
  {
    seq(|items|, i requires 0 <= i < |items| => Compact(items[i]))
  }

  /** normalizeResponsesItems: one invalid item rejects the whole list. */
  method Normalize(items: seq<Item>) returns (r: Option<seq<Item>>)
    ensures r == if AllObjects(items) then Some(NormalAll(items)) else None
  {
    var out := [];
    for i := 0 to |items|
      invariant AllObjects(items[..i])
      invariant out == NormalAll(items[..i])
    {
      if !items[i].Object? {
        return None;
      }
      out := out + [Normal(items[i])];
    }
    assert items[..|items|] == items;
    return Some(out);
  }

  lemma NormalConcat(a: seq<Item>, b: seq<Item>)
    ensures NormalAll(a + b) == NormalAll(a) + NormalAll(b)
    ensures AllObjects(a + b) <==> AllObjects(a) && AllObjects(b)
  {
    forall i | 0 <= i < |a| + |b|
      ensures (a + b)[i] == if i < |a| then a[i] else b[i - |a|]
    {
    }
    assert AllObjects(a + b) ==> forall i :: 0 <= i < |a| ==> (a + b)[i] == a[i];
    assert AllObjects(a + b) ==> forall i :: 0 <= i < |b| ==> (a + b)[|a| + i] == b[i];
  }

  lemma CompactConcat(a: seq<Item>, b: seq<Item>)
    ensures CompactAll(a + b) == CompactAll(a) + CompactAll(b)
  {
  }

  lemma NormalIdempotent(items: seq<Item>)
    ensures NormalAll(NormalAll(items)) == NormalAll(items)
    ensures CompactAll(NormalAll(items)) == NormalAll(items)
    ensures CompactAll(CompactAll(items)) == CompactAll(items)
    ensures AllObjects(items) ==> AllObjects(NormalAll(items))
  {
  }

  /** An already normal list is a fixpoint of both rewrites, and so is any part of it. */
  ghost predicate IsNormal(items: seq<Item>) {
    forall i :: 0 <= i < |items| ==> items[i].Object? && items[i] == Normal(items[i])
  }

  lemma NormalFixpoint(items: seq<Item>)
    requires IsNormal(items)
    ensures NormalAll(items) == items && CompactAll(items) == items && AllObjects(items)
  {
  }
}
