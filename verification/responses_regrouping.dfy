/** When a saved segment is found again, and what the native text of an answer is. */
module ResponsesRegrouping {
  import opened Wrappers
  import opened JsonItems
  import opened ResponsesBinding
  import Text

  // ----- Plain assistant messages -----

  /** An assistant message with a text and nothing else but perhaps its type. */
  predicate IsPlain(item: Item, text: string, typed: bool) {
    && item.Object?
    && item.fields.Keys == {"role", "content"} + (if typed then {"type"} else {})
    && item.fields["role"] == Str(0, "assistant")
    && (typed ==> item.fields["type"] == Str(0, "message"))
    && item.fields["content"].Str? && item.fields["content"].text == text
    && text != ""
  }

  lemma PlainIff(item: Item, text: string, typed: bool)
    ensures PlainAssistant(item) == Some(Plain(text, typed)) <==> IsPlain(item, text, typed)
  {
    if item.Object? {
      var keys := item.fields.Keys;
      if PlainAssistant(item) == Some(Plain(text, typed)) {
        assert keys == {"role", "content"} + (if typed then {"type"} else {});
      }
      if IsPlain(item, text, typed) {
        assert "role" in keys && "content" in keys && ("type" in keys <==> typed);
      }
    }
  }

  // ----- The native text -----

  /** A member read as a string, absent and null being empty. */
  predicate Says(item: Item, name: string, text: string) {
    if item.Object? && name in item.fields && !item.fields[name].Null? then
      item.fields[name].Str? && item.fields[name].text == text
    else !item.Malformed? && text == ""
  }

  predicate SaysSomething(item: Item, name: string) {
    !item.Malformed? && (item.Object? && name in item.fields ==> item.fields[name].Null? || item.fields[name].Str?)
  }

  function PartsOf(item: Item): seq<Part> {
    if item.Object? && "content" in item.fields && item.fields["content"].Parts? then item.fields["content"].parts
    else []
  }

  predicate HasParts(item: Item) {
    item.Object? && "content" in item.fields ==> item.fields["content"].Null? || item.fields["content"].Parts?
  }

  predicate IsSearch(item: Item) { Says(item, "type", "web_search_call") }

  predicate IsMessage(item: Item) { Says(item, "type", "message") }

  /** An output item whose text can be read: a search, reasoning, a call, or a message of
      the assistant in output texts alone. */
  predicate Readable(item: Item) {
    && SaysSomething(item, "type") && SaysSomething(item, "role") && HasParts(item)
    && (|| IsSearch(item) || Says(item, "type", "reasoning") || Says(item, "type", "function_call")
        || (IsMessage(item) && Says(item, "role", "assistant")
            && forall part :: part in PartsOf(item) ==> part.kind == "output_text"))
  }

  function TextIn(parts: seq<Part>): string {
    if parts == [] then "" else parts[0].text + TextIn(parts[1..])
  }

  function ItemText(item: Item): string {
    if IsMessage(item) then TextIn(PartsOf(item)) else ""
  }

  function WholeText(output: seq<Item>): string {
    if output == [] then "" else ItemText(output[0]) + WholeText(output[1..])
  }

  /** The text before the first search. */
  function FirstStretch(output: seq<Item>): string {
    if output == [] || IsSearch(output[0]) then "" else ItemText(output[0]) + FirstStretch(output[1..])
  }

  /** What is behind the first search. */
  function BehindSearch(output: seq<Item>): (r: seq<Item>)
    ensures |r| <= |output| && (output != [] ==> |r| < |output|)
  {
    if output == [] then [] else if IsSearch(output[0]) then output[1..] else BehindSearch(output[1..])
  }

  /** The stretches between searches that say anything, each without the white space
      around it; `open` goes before the first. */
  function Stretches(open: string, output: seq<Item>): seq<string>
    decreases |output|
  {
    var first := Text.Trim(open + FirstStretch(output));
    (if first == "" then [] else [first]) + if output == [] then [] else Stretches("", BehindSearch(output))
  }

  predicate AllReadable(output: seq<Item>) {
    forall i :: 0 <= i < |output| ==> Readable(output[i])
  }

  lemma {:induction false} TextInSnoc(parts: seq<Part>, last: Part)
    ensures TextIn(parts + [last]) == TextIn(parts) + last.text
  {
    if parts == [] {
      assert [last][1..] == [];
    } else {
      TextInSnoc(parts[1..], last);
      assert (parts + [last])[1..] == parts[1..] + [last];
    }
  }

  lemma {:induction false} PartsTextIs(parts: seq<Part>)
    ensures PartsText(parts) == TextIn(parts)
  {
    hide TextIn;
    if parts == [] {
      NoParts();
    } else {
      var front, last := parts[..|parts| - 1], parts[|parts| - 1];
      PartsTextIs(front);
      TextInSnoc(front, last);
      assert parts == front + [last];
    }
  }

  lemma NoParts()
    ensures TextIn([]) == ""
  {
  }

  /** One item, read with what came before it. */
  lemma StepIs(n: Native, item: Item)
    ensures var r := NativeStep(n, item);
      && (r.Some? <==> Readable(item))
      && (r.Some? ==> r.value.all == n.all + ItemText(item))
      && (r.Some? && !IsSearch(item) ==>
            r.value.fragments == n.fragments && r.value.open == n.open + ItemText(item))
      && (r.Some? && IsSearch(item) ==>
            r.value.open == "" &&
            r.value.fragments == n.fragments + if Text.Trim(n.open) == "" then [] else [Text.Trim(n.open)])
  {
    hide PartsText, TextIn, Text.Trim;
    PartsTextIs(PartsOf(item));
    if item.Object? {
      MembersAre(item, "type", "reasoning");
      MembersAre(item, "type", "message");
      MembersAre(item, "type", "function_call");
      MembersAre(item, "type", "web_search_call");
      MembersAre(item, "role", "assistant");
    }
  }

  lemma MembersAre(item: Item, name: string, text: string)
    requires item.Object?
    ensures StringMember(item.fields, name).Some? <==> SaysSomething(item, name)
    ensures StringMember(item.fields, name) == Some(text) <==> Says(item, name, text)
  {
  }

  /** Reading on from a given point. */
  function ReadOn(n: Native, output: seq<Item>): Option<Native>
    decreases |output|
  {
    if output == [] then Some(n)
    else
      var next := NativeStep(n, output[0]);
      if next.None? then None else ReadOn(next.value, output[1..])
  }

  lemma {:induction false} ReadOnSnoc(n: Native, output: seq<Item>)
    requires output != []
    ensures ReadOn(n, output) ==
      var before := ReadOn(n, output[..|output| - 1]);
      if before.None? then None else NativeStep(before.value, output[|output| - 1])
    decreases |output|
  {
    hide NativeStep;
    var front := output[..|output| - 1];
    if |output| == 1 {
      assert front == [] && output[1..] == [];
    } else {
      var next := NativeStep(n, output[0]);
      assert front[1..] == output[1..][..|output| - 2];
      if next.Some? {
        ReadOnSnoc(next.value, output[1..]);
      }
    }
  }

  lemma {:induction false} RunIsReadOn(output: seq<Item>)
    ensures NativeRun(output) == ReadOn(Native([], "", ""), output)
  {
    hide NativeStep;
    if output != [] {
      RunIsReadOn(output[..|output| - 1]);
      ReadOnSnoc(Native([], "", ""), output);
    }
  }

  lemma {:induction false} ReadOnIs(n: Native, output: seq<Item>)
    ensures var r := ReadOn(n, output);
      && (r.Some? <==> AllReadable(output))
      && (r.Some? ==>
            && Flush(r.value).fragments == n.fragments + Stretches(n.open, output)
            && r.value.all == n.all + WholeText(output))
    decreases |output|
  {
    hide NativeStep, Readable, IsSearch, ItemText, Text.Trim, Stretches;
    if output == [] {
      LastStretch(n.open);
    } else {
      var item, rest := output[0], output[1..];
      StepIs(n, item);
      var next := NativeStep(n, item);
      assert forall i :: 0 <= i < |rest| ==> rest[i] == output[i + 1];
      if next.Some? {
        ReadOnIs(next.value, rest);
        assert n.all + ItemText(item) + WholeText(rest) == n.all + WholeText(output);
        if IsSearch(item) {
          SearchEndsStretch(n.open, output);
        } else {
          StretchGoesOn(n.open, output);
        }
      }
    }
  }

  lemma LastStretch(open: string)
    ensures Stretches(open, []) == if Text.Trim(open) == "" then [] else [Text.Trim(open)]
  {
    hide Text.Trim;
    assert open + FirstStretch([]) == open;
  }

  lemma SearchEndsStretch(open: string, output: seq<Item>)
    requires output != [] && IsSearch(output[0])
    ensures Stretches(open, output) ==
      (if Text.Trim(open) == "" then [] else [Text.Trim(open)]) + Stretches("", output[1..])
  {
    hide Text.Trim, IsSearch;
    assert open + FirstStretch(output) == open;
  }

  lemma StretchGoesOn(open: string, output: seq<Item>)
    requires output != [] && !IsSearch(output[0])
    ensures Stretches(open, output) == Stretches(open + ItemText(output[0]), output[1..])
  {
    hide IsSearch, ItemText, Text.Trim;
    var text, rest := ItemText(output[0]), output[1..];
    assert open + (text + FirstStretch(rest)) == open + text + FirstStretch(rest);
    if rest == [] {
      assert BehindSearch(output) == [];
      assert Stretches("", []) == [] by {
        assert "" + FirstStretch([]) == "";
        assert Text.Trim("") == "" by { Text.TrimTwice(""); NoTextTrims(); }
      }
    }
  }

  lemma NoTextTrims()
    ensures Text.Trim("") == ""
  {
  }

  /** The native text of an answer: none unless every item can be read, and then the
      stretches between its searches and its whole text, each trimmed. */
  lemma NativeTextIs(output: seq<Item>)
    ensures NativeText(output) ==
      if AllReadable(output) then Some((Stretches("", output), Text.Trim(WholeText(output)))) else None
  {
    hide NativeStep, Readable, Stretches, Text.Trim;
    var start := Native([], "", "");
    RunIsReadOn(output);
    ReadOnIs(start, output);
    assert start.fragments + Stretches("", output) == Stretches("", output);
    assert start.all + WholeText(output) == WholeText(output);
  }

  // ----- Finding a segment -----

  function Glued(texts: seq<string>): string {
    if texts == [] then "" else texts[0] + Glued(texts[1..])
  }

  lemma {:induction false} GluedSnoc(texts: seq<string>, last: string)
    ensures Glued(texts + [last]) == Glued(texts) + last
  {
    if texts == [] {
      assert [last][1..] == [];
    } else {
      GluedSnoc(texts[1..], last);
      assert (texts + [last])[1..] == texts[1..] + [last];
    }
  }

  lemma {:induction false} JoinIs(texts: seq<string>)
    ensures Text.Join(texts) == Glued(texts)
  {
    hide Glued;
    if texts == [] {
      NothingGlued();
    } else {
      var front, last := texts[..|texts| - 1], texts[|texts| - 1];
      JoinIs(front);
      GluedSnoc(front, last);
      assert texts == front + [last];
    }
  }

  lemma NothingGlued()
    ensures Glued([]) == ""
  {
  }

  /** The first items of `visible`, with these texts, are all its leading plain messages, at
      least two and of one shape. */
  ghost predicate Leads(visible: seq<Item>, texts: seq<string>, typed: bool) {
    var n := |texts|;
    && 2 <= n <= |visible|
    && (forall i :: 0 <= i < n ==> IsPlain(visible[i], texts[i], typed))
    && (n < |visible| ==> forall text, shape :: !IsPlain(visible[n], text, shape))
  }

  /** The text that the runtime shows for them: the answer's own if its stretches are these,
      and else all of them glued together. */
  function ShownText(texts: seq<string>, output: seq<Item>): string {
    if AllReadable(output) && Stretches("", output) == texts then Text.Trim(WholeText(output)) else Glued(texts)
  }

  /** `found` is one message with the shown text, then the rest of `visible` as it was. */
  ghost predicate Regrouped(visible: seq<Item>, output: seq<Item>, found: seq<Item>) {
    exists texts, typed :: RegroupedAs(visible, output, found, texts, typed)
  }

  ghost predicate RegroupedAs(visible: seq<Item>, output: seq<Item>, found: seq<Item>, texts: seq<string>, typed: bool)
  {
    && Leads(visible, texts, typed)
    && |found| == 1 + |visible| - |texts| && IsPlain(found[0], ShownText(texts, output), typed)
    && found[1..] == visible[|texts|..]
  }

  lemma ShownTextIs(texts: seq<string>, output: seq<Item>)
    ensures RegroupedText(texts, output) == ShownText(texts, output)
  {
    hide NativeText, Stretches, Text.Trim, Text.Join;
    NativeTextIs(output);
    JoinIs(texts);
  }

  lemma LeadsIff(visible: seq<Item>, texts: seq<string>, typed: bool)
    ensures Leads(visible, texts, typed) <==>
      var n := PlainRun(visible);
      && 2 <= n == |texts| && SameShape(visible[..n]) && Texts(visible[..n]) == texts
      && PlainAssistant(visible[0]).value.typed == typed
  {
    hide PlainAssistant, IsPlain;
    var n := PlainRun(visible);
    if Leads(visible, texts, typed) {
      assert forall i :: 0 <= i < |texts| ==> IsPlain(visible[i], texts[i], typed);
      if n < |texts| {
        PlainIff(visible[n], texts[n], typed);
      }
      if |texts| < n {
        var plain := PlainAssistant(visible[|texts|]).value;
        PlainIff(visible[|texts|], plain.text, plain.typed);
      }
      assert n == |texts|;
      forall i | 0 <= i < n ensures PlainAssistant(visible[..n][i]) == Some(Plain(texts[i], typed)) {
        PlainIff(visible[i], texts[i], typed);
      }
      assert Texts(visible[..n]) == texts;
    }
    if 2 <= n == |texts| && SameShape(visible[..n]) && Texts(visible[..n]) == texts
       && PlainAssistant(visible[0]).value.typed == typed {
      forall i | 0 <= i < n ensures IsPlain(visible[i], texts[i], typed) {
        assert visible[..n][i] == visible[i] && visible[..n][0] == visible[0];
        assert Texts(visible[..n])[i] == texts[i];
        PlainIff(visible[i], texts[i], typed);
      }
      forall text, shape | n < |visible| ensures !IsPlain(visible[n], text, shape) {
        PlainIff(visible[n], text, shape);
      }
    }
  }

  lemma RegroupsIff(canonical: seq<Item>, visible: seq<Item>, output: seq<Item>)
    ensures Regroups(canonical, visible, output) <==>
      exists k :: 0 <= k <= |canonical| && Regrouped(visible, output, canonical[..k])
    ensures Regroups(canonical, visible, output) ==>
      var k := 1 + |visible| - PlainRun(visible);
      k <= |canonical| && Regrouped(visible, output, canonical[..k])
  {
    hide PlainAssistant, IsPlain, RegroupedText, ShownText, PlainRun, SameShape, Texts;
    if Regroups(canonical, visible, output) {
      var n := PlainRun(visible);
      var k, texts, typed := 1 + |visible| - n, Texts(visible[..n]), PlainAssistant(visible[0]).value.typed;
      LeadsIff(visible, texts, typed);
      ShownTextIs(texts, output);
      PlainIff(canonical[0], ShownText(texts, output), typed);
      LengthOfTexts(visible[..n]);
      assert canonical[..k][1..] == canonical[1..k] && canonical[..k][0] == canonical[0];
      assert RegroupedAs(visible, output, canonical[..k], texts, typed);
    }
    if k :| 0 <= k <= |canonical| && Regrouped(visible, output, canonical[..k]) {
      var found := canonical[..k];
      var texts, typed :| RegroupedAs(visible, output, found, texts, typed);
      LeadsIff(visible, texts, typed);
      ShownTextIs(texts, output);
      PlainIff(canonical[0], ShownText(texts, output), typed);
      LengthOfTexts(visible[..PlainRun(visible)]);
      assert found[0] == canonical[0] && found[1..] == canonical[1..k];
    }
  }

  lemma LengthOfTexts(items: seq<Item>)
    requires forall i :: 0 <= i < |items| ==> PlainAssistant(items[i]).Some?
    ensures |Texts(items)| == |items|
  {
  }

  /** A segment is found exactly where the conversation goes on with its items or, if it
      does not, with their leading texts shown as one message. */
  lemma FoundIff(canonical: seq<Item>, visible: seq<Item>, output: seq<Item>, found: seq<Item>)
    ensures MatchVisible(canonical, visible, output) == Some(found) <==>
      found <= canonical && if visible <= canonical then found == visible else Regrouped(visible, output, found)
  {
    hide Regroups, Regrouped, PlainRun;
    RegroupsIff(canonical, visible, output);
    if found <= canonical {
      assert canonical[..|found|] == found;
      if Regrouped(visible, output, found) {
        RegroupedLength(visible, output, found);
      }
    }
  }

  lemma RegroupedLength(visible: seq<Item>, output: seq<Item>, found: seq<Item>)
    requires Regrouped(visible, output, found)
    ensures |found| == 1 + |visible| - PlainRun(visible)
  {
    hide IsPlain, ShownText;
    var texts, typed :| RegroupedAs(visible, output, found, texts, typed);
    LeadsIff(visible, texts, typed);
  }
}
