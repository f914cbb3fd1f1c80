/** How a saved visible projection is recognised in the canonical conversation. */
module ResponsesBinding {
  import opened Wrappers
  import opened JsonItems
  import Text

  /** An assistant message that carries nothing but plain text; `typed` records
      whether it spells out its type. */
  datatype Plain = Plain(text: string, typed: bool)

  function PlainAssistant(item: Item): Option<Plain> {
    if !item.Object? then None
    else
      var f := item.fields;
      if "role" !in f || f["role"] != Str(0, "assistant") then None
      else if "type" in f && f["type"] != Str(0, "message") then None
      else if !(f.Keys <= {"role", "type", "content"}) then None
      else if "content" !in f || !f["content"].Str? || f["content"].text == "" then None
      else Some(Plain(f["content"].text, "type" in f))
  }

  /** How many items at the front are plain assistant messages. */
  function PlainRun(items: seq<Item>): (n: nat)
    ensures n <= |items|
    ensures forall i :: 0 <= i < n ==> PlainAssistant(items[i]).Some?
    ensures n < |items| ==> PlainAssistant(items[n]).None?
  {
    if items == [] || PlainAssistant(items[0]).None? then 0 else 1 + PlainRun(items[1..])
  }

  function Texts(items: seq<Item>): seq<string>
    requires forall i :: 0 <= i < |items| ==> PlainAssistant(items[i]).Some?
  {
    seq(|items|, i requires 0 <= i < |items| => PlainAssistant(items[i]).value.text)
  }

  predicate SameShape(items: seq<Item>)
    requires forall i :: 0 <= i < |items| ==> PlainAssistant(items[i]).Some?
  {
    forall i :: 0 <= i < |items| ==> PlainAssistant(items[i]).value.typed == PlainAssistant(items[0]).value.typed
  }

  // ----- Native text -----

  /** Text of a native output: closed fragments, the open one, and everything so far. */
  datatype Native = Native(fragments: seq<string>, open: string, all: string)

  function Flush(n: Native): Native {
    var value := Text.Trim(n.open);
    n.(fragments := if value != "" then n.fragments + [value] else n.fragments, open := "")
  }

  /** A string member as a typed decode reads it: absent and null are empty. */
  function StringMember(fields: map<string, Value>, name: string): Option<string> {
    if name !in fields || fields[name].Null? then Some("")
    else if fields[name].Str? then Some(fields[name].text)
    else None
  }

  function ContentParts(fields: map<string, Value>): Option<seq<Part>> {
    if "content" !in fields || fields["content"].Null? then Some([])
    else if fields["content"].Parts? then Some(fields["content"].parts)
    else None
  }

  function PartsText(parts: seq<Part>): string {
    if parts == [] then "" else PartsText(parts[..|parts| - 1]) + parts[|parts| - 1].text
  }

  predicate AllOutputText(parts: seq<Part>) {
    forall i :: 0 <= i < |parts| ==> parts[i].kind == "output_text"
  }

  function NativeStep(n: Native, item: Item): Option<Native> {
    if item.Malformed? then None
    else
      var fields := if item.Object? then item.fields else map[];
      var kind, role, parts := StringMember(fields, "type"), StringMember(fields, "role"), ContentParts(fields);
      if kind.None? || role.None? || parts.None? then None
      else if kind.value == "web_search_call" then Some(Flush(n))
      else if kind.value == "message" then
        if role.value != "assistant" || !AllOutputText(parts.value) then None
        else Some(n.(open := n.open + PartsText(parts.value), all := n.all + PartsText(parts.value)))
      else if kind.value == "reasoning" || kind.value == "function_call" then Some(n)
      else None
  }

  function NativeRun(output: seq<Item>): Option<Native> {
    if output == [] then Some(Native([], "", ""))
    else
      var before := NativeRun(output[..|output| - 1]);
      if before.None? then None else NativeStep(before.value, output[|output| - 1])
  }

  /** The trimmed text fragments between searches, and the trimmed whole text. */
  function NativeText(output: seq<Item>): Option<(seq<string>, string)> {
    var n := NativeRun(output);
    if n.None? then None else Some((Flush(n.value).fragments, Text.Trim(n.value.all)))
  }

  method ReadNativeText(output: seq<Item>) returns (r: Option<(seq<string>, string)>)
    ensures r == NativeText(output)
  {
    var n := Native([], "", "");
    for i := 0 to |output|
      invariant NativeRun(output[..i]) == Some(n)
    {
      assert output[..i + 1][..i] == output[..i];
      var next := NativeStep(n, output[i]);
      if next.None? {
        NoneStays(output, i + 1);
        return None;
      }
      n := next.value;
    }
    assert output[..|output|] == output;
    return Some((Flush(n).fragments, Text.Trim(n.all)));
  }

  lemma {:induction false} NoneStays(output: seq<Item>, k: nat)
    requires k <= |output| && NativeRun(output[..k]).None?
    ensures NativeRun(output).None?
    decreases |output|
  {
    if k == |output| {
      assert output[..k] == output;
    } else {
      assert output[..|output| - 1][..k] == output[..k];
      NoneStays(output[..|output| - 1], k);
    }
  }

  // ----- Matching -----

  /** The one message that the runtime projects for `n` saved fragments: their join,
      unless the native text proves other spacing between the same fragments. */
  function RegroupedText(texts: seq<string>, output: seq<Item>): string {
    var native := NativeText(output);
    if native.Some? && native.value.0 == texts then native.value.1 else Text.Join(texts)
  }

  /** `canonical` starts with one message standing for the saved leading fragments of
      `visible`, followed by the rest of `visible` unchanged. */
  predicate Regroups(canonical: seq<Item>, visible: seq<Item>, output: seq<Item>) {
    var n := PlainRun(visible);
    && 2 <= n
    && SameShape(visible[..n])
    && 1 + |visible| - n <= |canonical|
    && PlainAssistant(canonical[0]) == Some(Plain(RegroupedText(Texts(visible[..n]), output),
                                                  PlainAssistant(visible[0]).value.typed))
    && canonical[1..1 + |visible| - n] == visible[n..]
  }

  function MatchVisible(canonical: seq<Item>, visible: seq<Item>, output: seq<Item>): (r: Option<seq<Item>>)
    ensures r.Some? ==> r.value <= canonical && |r.value| <= |visible|
    ensures visible <= canonical ==> r == Some(visible)
  {
    if visible <= canonical then Some(visible)
    else if Regroups(canonical, visible, output) then Some(canonical[..1 + |visible| - PlainRun(visible)])
    else None
  }

  /** The saved plain fragments at the front, or nothing when their shapes disagree. */
  method ReadPlainRun(visible: seq<Item>) returns (texts: seq<string>, agree: bool)
    ensures agree == SameShape(visible[..PlainRun(visible)])
    ensures agree ==> |texts| == PlainRun(visible) && texts == Texts(visible[..PlainRun(visible)])
  {
    texts, agree := [], true;
    while |texts| < |visible| && PlainAssistant(visible[|texts|]).Some?
      invariant |texts| <= PlainRun(visible)
      invariant forall i :: 0 <= i < |texts| ==>
        PlainAssistant(visible[i]) == Some(Plain(texts[i], PlainAssistant(visible[0]).value.typed))
    {
      var plain := PlainAssistant(visible[|texts|]).value;
      if plain.typed != PlainAssistant(visible[0]).value.typed {
        assert visible[..PlainRun(visible)][|texts|] == visible[|texts|];
        return texts, false;
      }
      texts := texts + [plain.text];
    }
  }

  method FindVisible(canonical: seq<Item>, visible: seq<Item>, output: seq<Item>) returns (r: Option<seq<Item>>)
    ensures r == MatchVisible(canonical, visible, output)
  {
    hide PlainAssistant, PlainRun, Texts, SameShape, NativeText, Text.Join;
    if |visible| <= |canonical| && canonical[..|visible|] == visible {
      return Some(canonical[..|visible|]);
    }
    var texts, agree := ReadPlainRun(visible);
    if !agree {
      return None;
    }
    var count := |texts|;
    if count < 2 || |canonical| < 1 + |visible| - count {
      return None;
    }
    var actual := PlainAssistant(canonical[0]);
    if actual.None? || actual.value.typed != PlainAssistant(visible[0]).value.typed {
      return None;
    }
    var expected := Text.Join(texts);
    var native := ReadNativeText(output);
    if native.Some? && native.value.0 == texts {
      expected := native.value.1;
    }
    var end := 1 + |visible| - count;
    if actual.value.text != expected || canonical[1..end] != visible[count..] {
      return None;
    }
    return Some(canonical[..end]);
  }
}
