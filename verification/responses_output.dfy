/** The output collector: completed items per index, reconciled with a terminal snapshot. */
module ResponsesOutput {
  import opened Wrappers
  import Text

  const MAX_BYTES: nat := 0x80_0000

  datatype Json =
    | JNull
    | JBool(b: bool)
    | JNumber(n: int)
    | JString(s: string)
    | JArray(items: seq<Json>)
    | JObject(members: map<string, Json>)

  type Fields = map<string, Json>

  /** Raw bytes: their length, which spelling they are, and the object they decode to. */
  datatype Raw = Raw(size: nat, spelling: nat, fields: Option<Fields>)

  datatype Error =
    | LimitExceeded | InvalidItem | Conflict(index: int) | Missing | SnapshotIncomplete | IndexMissing

  function Decode(raw: Raw): Result<Fields, Error> {
    if raw.size > MAX_BYTES then Err(LimitExceeded)
    else if raw.fields.None? then Err(InvalidItem)
    else Ok(raw.fields.value)
  }

  // ----- Compatibility -----

  function Member(fields: Fields, key: string): Json {
    if key in fields then fields[key] else JNull
  }

  predicate HasType(fields: Fields, name: string) {
    Member(fields, "type") == JString(name)
  }

  /** Both sides carry the same usable identity. */
  predicate SameID(prior: Fields, value: Fields) {
    && Member(prior, "id").JString?
    && !Text.Blank(Member(prior, "id").s)
    && Member(value, "id") == Member(prior, "id")
  }

  /** Absent, null and empty mean no ciphertext; blank text is malformed. */
  function Cipher(fields: Fields): Option<string> {
    match Member(fields, "encrypted_content")
    case JNull => Some("")
    case JString(s) => if s != "" && Text.Blank(s) then None else Some(s)
    case _ => None
  }

  predicate EqualExcept(a: Fields, b: Fields, except: string) {
    a - {except} == b - {except}
  }

  predicate CompatibleReasoning(prior: Fields, value: Fields) {
    && HasType(prior, "reasoning") && HasType(value, "reasoning")
    && SameID(prior, value)
    && Cipher(prior).Some? && Cipher(value).Some? && !(Cipher(prior).value == "" && Cipher(value).value == "")
    && EqualExcept(prior, value, "encrypted_content")
  }

  /** The scheme that makes an address absolute. */
  predicate HasScheme(address: string) {
    exists i :: 0 < i < |address| && address[i] == ':' && SchemeText(address[..i])
  }

  predicate SchemeText(s: string) {
    forall i :: 0 <= i < |s| ==>
      'a' <= s[i] <= 'z' || 'A' <= s[i] <= 'Z' || (i > 0 && ('0' <= s[i] <= '9' || s[i] in {'+', '-', '.'}))
  }

  predicate ValidSource(source: Json) {
    && source.JObject?
    && var m := source.members;
    && Member(m, "type") == JString("url")
    && Member(m, "url").JString?
    && var address := Member(m, "url").s;
    && Text.Trim(address) == address && address != "" && HasScheme(address)
    && m.Keys <= {"type", "url", "title"}
    && ("title" in m ==> m["title"].JString?)
  }

  predicate ValidSources(action: Fields) {
    "sources" in action ==>
      && action["sources"].JArray?
      && forall i :: 0 <= i < |action["sources"].items| ==> ValidSource(action["sources"].items[i])
  }

  predicate ValidQueries(action: Fields) {
    && ("query" in action ==> action["query"].JString?)
    && ("queries" in action ==>
          && action["queries"].JArray?
          && forall i :: 0 <= i < |action["queries"].items| ==> action["queries"].items[i].JString?)
  }

  predicate CompatibleSearch(prior: Fields, value: Fields) {
    && HasType(prior, "web_search_call") && HasType(value, "web_search_call")
    && Member(prior, "status") == JString("completed") && Member(value, "status") == JString("completed")
    && SameID(prior, value)
    && Member(prior, "action").JObject? && Member(value, "action").JObject?
    && var before, after := Member(prior, "action").members, Member(value, "action").members;
    && HasType(before, "search") && HasType(after, "search")
    && ValidQueries(before)
    && EqualExcept(prior, value, "action") && EqualExcept(before, after, "sources")
    && ValidSources(before) && ValidSources(after)
  }

  // ----- Collecting -----

  datatype Collected = Collected(items: map<int, Raw>, bytes: nat)

  function Added(c: Collected, index: int, raw: Raw): Result<Collected, Error> {
    if Decode(raw).Err? then Err(Decode(raw).error)
    else if index < 0 then Err(InvalidItem)
    else if index in c.items then
      if c.items[index].fields != raw.fields then Err(Conflict(index)) else Ok(c)
    else if c.bytes + raw.size > MAX_BYTES then Err(LimitExceeded)
    else Ok(Collected(c.items[index := raw], c.bytes + raw.size))
  }

  /** The retained length of indices below `n`. */
  function SizeBelow(items: map<int, Raw>, n: nat): nat {
    if n == 0 then 0 else SizeBelow(items, n - 1) + if n - 1 in items then items[n - 1].size else 0
  }

  /** Every retained item decodes, and `bytes` is their total length, within the limit. */
  ghost predicate Sound(c: Collected) {
    && (forall k :: k in c.items ==> 0 <= k && Decode(c.items[k]).Ok?)
    && (forall n: nat :: (forall k :: k in c.items ==> k < n) ==> SizeBelow(c.items, n) == c.bytes)
    && c.bytes <= MAX_BYTES
  }

  lemma {:induction false} SizeAfterAdd(items: map<int, Raw>, index: nat, raw: Raw, n: nat)
    requires index !in items
    ensures SizeBelow(items[index := raw], n) == SizeBelow(items, n) + if index < n then raw.size else 0
  {
    if n > 0 {
      SizeAfterAdd(items, index, raw, n - 1);
    }
  }

  lemma AddKeepsSound(c: Collected, index: int, raw: Raw)
    requires Sound(c) && Added(c, index, raw).Ok?
    ensures Sound(Added(c, index, raw).value)
  {
    var d := Added(c, index, raw).value;
    if index !in c.items {
      forall n: nat | (forall k :: k in d.items ==> k < n) ensures SizeBelow(d.items, n) == d.bytes {
        assert index in d.items;
        assert forall k :: k in c.items ==> k in d.items;
        SizeAfterAdd(c.items, index, raw, n);
      }
    }
  }

  // ----- Completing -----

  /** The raw bytes that stand for one index: the terminal item's, or the completed ones. */
  function Chosen(previous: Raw, raw: Raw, index: int): Result<Raw, Error>
    requires Decode(previous).Ok? && Decode(raw).Ok?
  {
    var prior, value := Decode(previous).value, Decode(raw).value;
    if prior == value then
      if HasType(prior, "web_search_call") || (CompatibleReasoning(prior, value) && Cipher(prior).value != "") then
        Ok(previous)
      else Ok(raw)
    else if CompatibleSearch(prior, value) then Ok(previous)
    else if CompatibleReasoning(prior, value) then Ok(if Cipher(prior).value != "" then previous else raw)
    else Err(Conflict(index))
  }

  function TotalSize(raws: seq<Raw>, k: nat): nat
    requires k <= |raws|
  {
    if k == 0 then 0 else TotalSize(raws, k - 1) + raws[k - 1].size
  }

  /** The first `k` outputs and their length so far. */
  function Reconciled(items: map<int, Raw>, snapshot: seq<Raw>, k: nat): (r: Result<seq<Raw>, Error>)
    requires k <= |snapshot| && forall i :: i in items ==> Decode(items[i]).Ok?
    ensures r.Ok? ==> |r.value| == k
  {
    if k == 0 then Ok([])
    else
      var before, raw := Reconciled(items, snapshot, k - 1), snapshot[k - 1];
      if before.Err? then before
      else if Decode(raw).Err? then Err(Decode(raw).error)
      else
        var out := if k - 1 in items then Chosen(items[k - 1], raw, k - 1) else Ok(raw);
        if out.Err? then Err(out.error)
        else if TotalSize(before.value, k - 1) + out.value.size > MAX_BYTES then Err(LimitExceeded)
        else Ok(before.value + [out.value])
  }

  /** Without a snapshot the completed events are the output, if no index is missing. */
  function FromEvents(items: map<int, Raw>): Result<seq<Raw>, Error> {
    if items == map[] then Err(Missing)
    else if forall i :: 0 <= i < |items| ==> i in items then
      Ok(seq(|items|, i requires 0 <= i < |items| => items[i]))
    else Err(IndexMissing)
  }

  function Completed(items: map<int, Raw>, snapshot: seq<Raw>): Result<seq<Raw>, Error>
    requires forall i :: i in items ==> Decode(items[i]).Ok?
  {
    if snapshot == [] then FromEvents(items)
    else if exists i :: i in items && i >= |snapshot| then Err(SnapshotIncomplete)
    else if TotalSize(snapshot, |snapshot|) > MAX_BYTES then Err(LimitExceeded)
    else Reconciled(items, snapshot, |snapshot|)
  }

  lemma {:induction false} TotalGrows(raws: seq<Raw>, k: nat, n: nat)
    requires k <= n <= |raws|
    ensures TotalSize(raws, k) <= TotalSize(raws, n)
  {
    if k < n {
      TotalGrows(raws, k, n - 1);
    }
  }

  lemma {:induction false} TotalPrefix(a: seq<Raw>, b: seq<Raw>, k: nat)
    requires k <= |a| && a <= b
    ensures TotalSize(a, k) == TotalSize(b, k)
  {
    if k > 0 {
      TotalPrefix(a, b, k - 1);
    }
  }

  lemma {:induction false} ErrorStays(items: map<int, Raw>, snapshot: seq<Raw>, k: nat, n: nat)
    requires k <= n <= |snapshot| && forall i :: i in items ==> Decode(items[i]).Ok?
    requires Reconciled(items, snapshot, k).Err?
    ensures Reconciled(items, snapshot, n) == Reconciled(items, snapshot, k)
  {
    if k < n {
      ErrorStays(items, snapshot, k, n - 1);
    }
  }

  class ResponsesOutput {
    var items: map<int, Raw>
    var bytes: nat

    function Value(): Collected
      reads this
    {
      Collected(items, bytes)
    }

    constructor ()
      ensures Value() == Collected(map[], 0)
    {
      items, bytes := map[], 0;
    }

    method Add(index: int, raw: Raw) returns (error: Option<Error>)
      requires Sound(Value())
      modifies this
      ensures Sound(Value())
      ensures error == match Added(old(Value()), index, raw) case Ok(_) => None case Err(e) => Some(e)
      ensures error.None? ==> Value() == Added(old(Value()), index, raw).value
      ensures error.Some? ==> Value() == old(Value())
    {
      ghost var before := Value();
      var decoded := Decode(raw);
      if decoded.Err? {
        return Some(decoded.error);
      }
      if index < 0 {
        return Some(InvalidItem);
      }
      if index in items {
        if items[index].fields != raw.fields {
          return Some(Conflict(index));
        }
        return None;
      }
      if raw.size > MAX_BYTES - bytes {
        return Some(LimitExceeded);
      }
      items := items[index := raw];
      bytes := bytes + raw.size;
      AddKeepsSound(before, index, raw);
      return None;
    }

    /** Reads only: the collector is the same afterwards, also on failure. */
    method Complete(snapshot: seq<Raw>) returns (r: Result<seq<Raw>, Error>)
      requires Sound(Value())
      ensures r == Completed(items, snapshot)
    {
      if |snapshot| == 0 {
        r := CompleteFromEvents();
        return;
      }
      if exists i :: i in items && i >= |snapshot| {
        return Err(SnapshotIncomplete);
      }
      var total := 0;
      for i := 0 to |snapshot|
        invariant total == TotalSize(snapshot, i) <= MAX_BYTES
      {
        if snapshot[i].size > MAX_BYTES - total {
          TotalGrows(snapshot, i + 1, |snapshot|);
          return Err(LimitExceeded);
        }
        total := total + snapshot[i].size;
      }
      r := Reconcile(snapshot);
    }

    method CompleteFromEvents() returns (r: Result<seq<Raw>, Error>)
      ensures r == FromEvents(items)
    {
      if |items| == 0 {
        assert items == map[];
        return Err(Missing);
      }
      var out := [];
      for i := 0 to |items|
        invariant |out| == i && forall j :: 0 <= j < i ==> j in items && out[j] == items[j]
      {
        if i !in items {
          return Err(IndexMissing);
        }
        out := out + [items[i]];
      }
      assert FromEvents(items).value == out;
      return Ok(out);
    }

    method Reconcile(snapshot: seq<Raw>) returns (r: Result<seq<Raw>, Error>)
      requires Sound(Value())
      ensures r == Reconciled(items, snapshot, |snapshot|)
    {
      hide CompatibleReasoning, CompatibleSearch, SizeBelow;
      var out, selected := [], 0;
      for i := 0 to |snapshot|
        invariant Reconciled(items, snapshot, i) == Ok(out)
        invariant selected == TotalSize(out, i) <= MAX_BYTES
      {
        var raw := snapshot[i];
        if Reconciled(items, snapshot, i + 1).Err? {
          ErrorStays(items, snapshot, i + 1, |snapshot|);
        }
        var decoded := Decode(raw);
        if decoded.Err? {
          return Err(decoded.error);
        }
        if i in items {
          var chosen := Choose(items[i], raw, i);
          if chosen.Err? {
            return Err(chosen.error);
          }
          raw := chosen.value;
        }
        if raw.size > MAX_BYTES - selected {
          return Err(LimitExceeded);
        }
        selected := selected + raw.size;
        TotalPrefix(out, out + [raw], i);
        out := out + [raw];
      }
      return Ok(out);
    }
  }

  /** The body of the reconciliation loop, flag by flag. */
  method Choose(previous: Raw, raw: Raw, index: int) returns (r: Result<Raw, Error>)
    requires Decode(previous).Ok? && Decode(raw).Ok?
    ensures r == Chosen(previous, raw, index)
  {
    hide CompatibleSearch;
    var prior, value := Decode(previous).value, Decode(raw).value;
    var compatible := CompatibleReasoning(prior, value);
    var keep := compatible && Cipher(prior).value != "";
    if prior == value && HasType(prior, "web_search_call") {
      keep := true;
    }
    if prior != value {
      if CompatibleSearch(prior, value) {
        compatible, keep := true, true;
      }
      if !compatible {
        return Err(Conflict(index));
      }
    }
    return Ok(if keep then previous else raw);
  }
}
