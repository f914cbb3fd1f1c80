/** Which completed item may stand for a terminal one, and every way in which collecting
    and completing fail, in terms of the members that the items have. */
module ResponsesChoice {
  import opened Wrappers
  import opened ResponsesOutput
  import Text

  // ----- Members -----

  predicate Has(f: Fields, key: string, value: Json) {
    key in f && f[key] == value
  }

  predicate HasText(s: string) {
    exists i :: 0 <= i < |s| && !Text.IsSpace(s[i])
  }

  /** The two objects have the same members but for this one. */
  ghost predicate DifferOnlyIn(a: Fields, b: Fields, key: string) {
    forall k :: k != key ==> (k in a <==> k in b) && (k in a ==> a[k] == b[k])
  }

  predicate Identified(f: Fields) {
    "id" in f && f["id"].JString? && HasText(f["id"].s)
  }

  // ----- Reasoning -----

  predicate HasCipher(f: Fields) {
    "encrypted_content" in f && f["encrypted_content"].JString? && HasText(f["encrypted_content"].s)
  }

  predicate HasNoCipher(f: Fields) {
    "encrypted_content" !in f || f["encrypted_content"] == JNull || f["encrypted_content"] == JString("")
  }

  /** One reasoning item, with its ciphertext on at least one side; a ciphertext that is
      blank or no text at all is never repaired. */
  ghost predicate SameReasoning(a: Fields, b: Fields) {
    && Has(a, "type", JString("reasoning")) && Identified(a)
    && DifferOnlyIn(a, b, "encrypted_content")
    && (HasCipher(a) || HasNoCipher(a)) && (HasCipher(b) || HasNoCipher(b)) && (HasCipher(a) || HasCipher(b))
  }

  // ----- Searches -----

  predicate Letter(c: char) { 'a' <= c <= 'z' || 'A' <= c <= 'Z' }

  /** An address with a scheme before its first colon. */
  predicate Absolute(address: string) {
    exists n :: 0 < n < |address| && address[n] == ':' && Letter(address[0])
      && forall i :: 0 <= i < n ==> Letter(address[i]) || '0' <= address[i] <= '9' || address[i] in "+-."
  }

  /** A web address, with nothing else but a title. */
  predicate IsSource(source: Json) {
    && source.JObject?
    && Has(source.members, "type", JString("url"))
    && "url" in source.members && source.members["url"].JString?
    && (var address := source.members["url"].s;
        address != "" && !Text.IsSpace(address[0]) && !Text.IsSpace(address[|address| - 1]) && Absolute(address))
    && (forall key :: key in source.members ==> key == "type" || key == "url" || key == "title")
    && ("title" in source.members ==> source.members["title"].JString?)
  }

  predicate SourcesFit(action: Fields) {
    "sources" in action ==> action["sources"].JArray? && forall s :: s in action["sources"].items ==> IsSource(s)
  }

  predicate QueriesFit(action: Fields) {
    && ("query" in action ==> action["query"].JString?)
    && ("queries" in action ==>
          action["queries"].JArray? && forall q :: q in action["queries"].items ==> q.JString?)
  }

  ghost predicate SearchActions(a: Fields, b: Fields) {
    && Has(a, "type", JString("search")) && DifferOnlyIn(a, b, "sources")
    && QueriesFit(a) && SourcesFit(a) && SourcesFit(b)
  }

  /** One completed search, whose list of sources alone may differ. */
  ghost predicate SameSearch(a: Fields, b: Fields) {
    && Has(a, "type", JString("web_search_call")) && Has(a, "status", JString("completed")) && Identified(a)
    && DifferOnlyIn(a, b, "action")
    && "action" in a && a["action"].JObject? && "action" in b && b["action"].JObject?
    && SearchActions(a["action"].members, b["action"].members)
  }

  // ----- The checks, read back -----

  lemma EqualExceptIff(a: Fields, b: Fields, key: string)
    ensures EqualExcept(a, b, key) <==> DifferOnlyIn(a, b, key)
  {
    var x, y := a - {key}, b - {key};
    if EqualExcept(a, b, key) {
      forall k | k != key ensures (k in a <==> k in b) && (k in a ==> a[k] == b[k]) {
        assert k in x <==> k in a;
        assert k in y <==> k in b;
      }
    }
    if DifferOnlyIn(a, b, key) {
      forall k ensures (k in x <==> k in y) && (k in x ==> x[k] == y[k]) {
      }
    }
  }

  lemma HasTextIff(s: string)
    ensures HasText(s) <==> !Text.Blank(s)
  {
    hide Text.Blank;
    Text.BlankIff(s);
  }

  lemma CipherIs(f: Fields)
    ensures Cipher(f).Some? <==> HasCipher(f) || HasNoCipher(f)
    ensures Cipher(f).Some? ==> (Cipher(f).value != "" <==> HasCipher(f))
  {
    hide Text.Blank;
    if Member(f, "encrypted_content").JString? {
      HasTextIff(Member(f, "encrypted_content").s);
    }
  }

  lemma IdentifiedIff(a: Fields, b: Fields, key: string)
    requires DifferOnlyIn(a, b, key) && key != "id"
    ensures SameID(a, b) <==> Identified(a)
  {
    hide Text.Blank;
    if Member(a, "id").JString? {
      HasTextIff(Member(a, "id").s);
    }
  }

  lemma SameReasoningIff(a: Fields, b: Fields)
    ensures CompatibleReasoning(a, b) <==> SameReasoning(a, b)
  {
    hide Cipher, HasCipher, HasNoCipher, Identified, SameID, EqualExcept;
    EqualExceptIff(a, b, "encrypted_content");
    CipherIs(a);
    CipherIs(b);
    if DifferOnlyIn(a, b, "encrypted_content") {
      assert "encrypted_content" != "id" && "encrypted_content" != "type" by {
        assert |"encrypted_content"| != |"id"| && |"encrypted_content"| != |"type"|;
      }
      IdentifiedIff(a, b, "encrypted_content");
    }
  }

  lemma SourceIff(source: Json)
    ensures ValidSource(source) <==> IsSource(source)
  {
    hide Text.Trim, HasScheme, Absolute;
    if source.JObject? && Member(source.members, "url").JString? {
      var address := Member(source.members, "url").s;
      TrimmedIff(address);
      AbsoluteIff(address);
    }
  }

  lemma TrimmedIff(s: string)
    ensures Text.Trim(s) == s <==> s == "" || (!Text.IsSpace(s[0]) && !Text.IsSpace(s[|s| - 1]))
  {
    hide Text.Trim, Text.IsSpace;
    Text.TrimIff(s, s);
    assert s == s[0..|s|];
    if s == "" || (!Text.IsSpace(s[0]) && !Text.IsSpace(s[|s| - 1])) {
      assert Text.Bare(s, 0, |s|);
    }
  }

  lemma AbsoluteIff(address: string)
    ensures HasScheme(address) <==> Absolute(address)
  {
    forall n | 0 < n < |address|
      ensures SchemeText(address[..n]) <==>
        Letter(address[0]) && forall i :: 0 <= i < n ==>
          Letter(address[i]) || '0' <= address[i] <= '9' || address[i] in "+-."
    {
      var scheme := address[..n];
      assert forall i :: 0 <= i < n ==> scheme[i] == address[i];
    }
  }

  lemma SourcesFitIff(action: Fields)
    ensures ValidSources(action) <==> SourcesFit(action)
  {
    hide ValidSource, IsSource;
    forall source: Json ensures ValidSource(source) <==> IsSource(source) {
      SourceIff(source);
    }
  }

  lemma SameSearchIff(a: Fields, b: Fields)
    ensures CompatibleSearch(a, b) <==> SameSearch(a, b)
  {
    hide Identified, SameID, EqualExcept, ValidSources, SourcesFit, ValidQueries, QueriesFit;
    EqualExceptIff(a, b, "action");
    if DifferOnlyIn(a, b, "action") {
      assert "action" != "id" && "action" != "type" by {
        assert |"action"| != |"id"| && |"action"| != |"type"|;
      }
      IdentifiedIff(a, b, "action");
    }
    if Member(a, "action").JObject? && Member(b, "action").JObject? {
      var x, y := Member(a, "action").members, Member(b, "action").members;
      EqualExceptIff(x, y, "sources");
      SourcesFitIff(x);
      SourcesFitIff(y);
      QueriesFitIff(x);
    }
  }

  lemma QueriesFitIff(action: Fields)
    ensures ValidQueries(action) <==> QueriesFit(action)
  {
  }

  // ----- Choosing -----

  /** The completed item stands for the terminal one exactly if they are one search or one
      reasoning item; its bytes are kept unless only the terminal one has the ciphertext.
      Of two equal items of another kind the terminal bytes are kept. Anything else
      conflicts. */
  lemma ChoiceIs(previous: Raw, raw: Raw, index: int)
    requires Decode(previous).Ok? && Decode(raw).Ok?
    ensures var a, b, out := previous.fields.value, raw.fields.value, Chosen(previous, raw, index);
      if SameSearch(a, b) || (a == b && Has(a, "type", JString("web_search_call"))) then out == Ok(previous)
      else if SameReasoning(a, b) then out == Ok(if HasCipher(a) then previous else raw)
      else if a == b then out == Ok(raw)
      else out == Err(Conflict(index))
  {
    hide CompatibleReasoning, CompatibleSearch, SameReasoning, Cipher, HasCipher;
    var a, b := previous.fields.value, raw.fields.value;
    SameReasoningIff(a, b);
    SameSearchIff(a, b);
    CipherIs(a);
    if SameReasoning(a, b) {
      ReasoningIsNoSearch(a, b);
    }
  }

  lemma ReasoningIsNoSearch(a: Fields, b: Fields)
    requires SameReasoning(a, b)
    ensures Has(a, "type", JString("reasoning")) && Cipher(a).Some?
  {
    CipherIs(a);
  }

  // ----- Collecting -----

  /** An event is taken in exactly if it is not too long, decodes, has an index and either
      says again what its index has or still fits; the first of these that fails decides. */
  lemma AddOutcome(c: Collected, index: int, raw: Raw)
    ensures var out := Added(c, index, raw);
      if raw.size > 8_388_608 then out == Err(LimitExceeded)
      else if raw.fields.None? || index < 0 then out == Err(InvalidItem)
      else if index in c.items then out == if c.items[index].fields == raw.fields then Ok(c) else Err(Conflict(index))
      else if c.bytes + raw.size > 8_388_608 then out == Err(LimitExceeded)
      else
        && out.Ok? && out.value.bytes == c.bytes + raw.size
        && out.value.items.Keys == c.items.Keys + {index} && out.value.items[index] == raw
        && forall k :: k in c.items ==> out.value.items[k] == c.items[k]
  {
  }

  // ----- Completing -----

  /** The length of all these items together. */
  function BytesIn(raws: seq<Raw>): nat {
    if raws == [] then 0 else raws[0].size + BytesIn(raws[1..])
  }

  lemma {:induction false} BytesSnoc(raws: seq<Raw>, last: Raw)
    ensures BytesIn(raws + [last]) == BytesIn(raws) + last.size
  {
    if raws == [] {
      assert [last][1..] == [];
    } else {
      BytesSnoc(raws[1..], last);
      assert (raws + [last])[1..] == raws[1..] + [last];
    }
  }

  lemma {:induction false} TotalIs(raws: seq<Raw>, k: nat)
    requires k <= |raws|
    ensures TotalSize(raws, k) == BytesIn(raws[..k])
  {
    hide BytesIn;
    if k == 0 {
      NoBytes();
    } else {
      TotalIs(raws, k - 1);
      BytesSnoc(raws[..k - 1], raws[k - 1]);
      assert raws[..k] == raws[..k - 1] + [raws[k - 1]];
    }
  }

  lemma NoBytes()
    ensures BytesIn([]) == 0
  {
  }

  predicate Decodes(raw: Raw) { raw.size <= 8_388_608 && raw.fields.Some? }

  /** The item that is selected for index `i`, if there is one. */
  ghost predicate Selects(items: map<int, Raw>, snapshot: seq<Raw>, i: nat, out: Raw)
    requires i < |snapshot| && forall k :: k in items ==> Decode(items[k]).Ok?
  {
    && Decodes(snapshot[i])
    && if i in items then Chosen(items[i], snapshot[i], i) == Ok(out) else out == snapshot[i]
  }

  /** Why index `i` ends the reconciliation behind the items `out` selected so far. */
  ghost predicate FailsAt(items: map<int, Raw>, snapshot: seq<Raw>, i: nat, out: seq<Raw>, e: Error)
    requires i < |snapshot| && i == |out| && forall k :: k in items ==> Decode(items[k]).Ok?
  {
    if snapshot[i].size > 8_388_608 then e == LimitExceeded
    else if snapshot[i].fields.None? then e == InvalidItem
    else if i in items && Chosen(items[i], snapshot[i], i).Err? then e == Conflict(i)
    else
      e == LimitExceeded && exists raw :: Selects(items, snapshot, i, raw) && BytesIn(out) + raw.size > 8_388_608
  }

  ghost predicate SelectedTo(items: map<int, Raw>, snapshot: seq<Raw>, out: seq<Raw>)
    requires |out| <= |snapshot| && forall k :: k in items ==> Decode(items[k]).Ok?
  {
    (forall i :: 0 <= i < |out| ==> Selects(items, snapshot, i, out[i])) && BytesIn(out) <= 8_388_608
  }

  ghost predicate EndsBefore(items: map<int, Raw>, snapshot: seq<Raw>, n: nat, e: Error)
    requires n <= |snapshot| && forall k :: k in items ==> Decode(items[k]).Ok?
  {
    exists i, out :: 0 <= i < n && |out| == i && SelectedTo(items, snapshot, out) && FailsAt(items, snapshot, i, out, e)
  }

  lemma {:induction false} ReconcileOutcome(items: map<int, Raw>, snapshot: seq<Raw>, n: nat)
    requires n <= |snapshot| && forall k :: k in items ==> Decode(items[k]).Ok?
    ensures var r := Reconciled(items, snapshot, n);
      if r.Ok? then |r.value| == n && SelectedTo(items, snapshot, r.value)
      else EndsBefore(items, snapshot, n, r.error)
  {
    hide Chosen, BytesIn;
    NoBytes();
    if n > 0 {
      ReconcileOutcome(items, snapshot, n - 1);
      var before, raw := Reconciled(items, snapshot, n - 1), snapshot[n - 1];
      if before.Ok? {
        ReconcileNext(items, snapshot, n, before.value);
      }
    }
  }

  lemma ReconcileNext(items: map<int, Raw>, snapshot: seq<Raw>, n: nat, out: seq<Raw>)
    requires 0 < n <= |snapshot| && forall k :: k in items ==> Decode(items[k]).Ok?
    requires Reconciled(items, snapshot, n - 1) == Ok(out) && SelectedTo(items, snapshot, out)
    ensures var r := Reconciled(items, snapshot, n);
      if r.Ok? then SelectedTo(items, snapshot, r.value) else FailsAt(items, snapshot, n - 1, out, r.error)
  {
    hide Chosen, SameReasoning, SameSearch, HasCipher, Has, BytesIn, TotalSize;
    var r, raw := Reconciled(items, snapshot, n), snapshot[n - 1];
    TotalIs(out, n - 1);
    assert out[..n - 1] == out;
    if Decode(raw).Ok? {
      var chosen := if n - 1 in items then Chosen(items[n - 1], raw, n - 1) else Ok(raw);
      if n - 1 in items {
        ChoiceIs(items[n - 1], raw, n - 1);
      }
      if chosen.Ok? {
        assert Selects(items, snapshot, n - 1, chosen.value);
        BytesSnoc(out, chosen.value);
      }
    }
  }

  /** Completion, exactly: without a snapshot the events must be there and have no gap; with
      one, every collected index must be covered, the snapshot must fit, and then its items
      are selected in order until one cannot be. */
  lemma CompleteOutcome(items: map<int, Raw>, snapshot: seq<Raw>)
    requires forall k :: k in items ==> Decode(items[k]).Ok?
    ensures var r := Completed(items, snapshot);
      if snapshot == [] && items == map[] then r == Err(Missing)
      else if snapshot == [] && exists i :: 0 <= i < |items| && i !in items then r == Err(IndexMissing)
      else if snapshot == [] then
        r.Ok? && |r.value| == |items| && forall i :: 0 <= i < |items| ==> r.value[i] == items[i]
      else if exists i :: i in items && i >= |snapshot| then r == Err(SnapshotIncomplete)
      else if BytesIn(snapshot) > 8_388_608 then r == Err(LimitExceeded)
      else if r.Ok? then |r.value| == |snapshot| && SelectedTo(items, snapshot, r.value)
      else EndsBefore(items, snapshot, |snapshot|, r.error)
  {
    hide Chosen, Reconciled, SelectedTo, FailsAt, BytesIn, TotalSize;
    TotalIs(snapshot, |snapshot|);
    assert snapshot[..|snapshot|] == snapshot;
    ReconcileOutcome(items, snapshot, |snapshot|);
  }
}
