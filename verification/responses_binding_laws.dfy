/** Regrouping fragments never yields one of them: the one message holds all their text. */
module ResponsesBindingLaws {
  import opened Wrappers
  import opened JsonItems
  import opened ResponsesBinding
  import Text

  /** How many characters are not white space. */
  function Black(s: string): nat {
    if s == "" then 0 else Black(s[..|s| - 1]) + if Text.IsSpace(s[|s| - 1]) then 0 else 1
  }

  function BlackOf(parts: seq<string>): nat {
    if parts == [] then 0 else BlackOf(parts[..|parts| - 1]) + Black(parts[|parts| - 1])
  }

  lemma {:induction false} BlackConcat(a: string, b: string)
    ensures Black(a + b) == Black(a) + Black(b)
  {
    if b == "" {
      assert a + b == a;
    } else {
      var n := |b| - 1;
      assert (a + b)[..|a + b| - 1] == a + b[..n];
      BlackConcat(a, b[..n]);
    }
  }

  lemma {:induction false} TrimLeftKeepsBlack(s: string)
    ensures Black(Text.TrimLeft(s)) == Black(s)
  {
    if s != "" && Text.IsSpace(s[0]) {
      assert s == [s[0]] + s[1..];
      BlackConcat([s[0]], s[1..]);
      assert Black([s[0]]) == 0;
      TrimLeftKeepsBlack(s[1..]);
    }
  }

  lemma {:induction false} TrimRightKeepsBlack(s: string)
    ensures Black(Text.TrimRight(s)) == Black(s)
  {
    if s != "" && Text.IsSpace(s[|s| - 1]) {
      TrimRightKeepsBlack(s[..|s| - 1]);
    }
  }

  lemma TrimKeepsBlack(s: string)
    ensures Black(Text.Trim(s)) == Black(s)
    ensures Text.Trim(s) != "" ==> Black(s) > 0
  {
    TrimLeftKeepsBlack(s);
    TrimRightKeepsBlack(Text.TrimLeft(s));
  }

  /** White space is all that is lost between the fragments and the whole. */
  predicate Balanced(n: Native) {
    && Black(n.all) == BlackOf(n.fragments) + Black(n.open)
    && forall i :: 0 <= i < |n.fragments| ==> Black(n.fragments[i]) > 0
  }

  lemma FlushIsBalanced(n: Native)
    requires Balanced(n)
    ensures Balanced(Flush(n))
  {
    hide Text.Trim;
    var value := Text.Trim(n.open);
    TrimKeepsBlack(n.open);
    if value != "" {
      assert (n.fragments + [value])[..|n.fragments|] == n.fragments;
    }
  }

  lemma StepIsBalanced(n: Native, item: Item)
    requires Balanced(n) && NativeStep(n, item).Some?
    ensures Balanced(NativeStep(n, item).value)
  {
    hide Flush, PartsText, AllOutputText, Black, BlackOf;
    FlushIsBalanced(n);
    if item.Object? && ContentParts(item.fields).Some? {
      var text := PartsText(ContentParts(item.fields).value);
      BlackConcat(n.open, text);
      BlackConcat(n.all, text);
    }
  }

  lemma {:induction false} RunIsBalanced(output: seq<Item>)
    requires NativeRun(output).Some?
    ensures Balanced(NativeRun(output).value)
  {
    hide NativeStep, Balanced;
    if output == [] {
      NothingIsBalanced();
    } else {
      RunIsBalanced(output[..|output| - 1]);
      StepIsBalanced(NativeRun(output[..|output| - 1]).value, output[|output| - 1]);
    }
  }

  lemma NothingIsBalanced()
    ensures Balanced(Native([], "", ""))
  {
  }

  lemma {:induction false} BlackOfMore(parts: seq<string>, i: nat)
    requires i < |parts| && forall k :: 0 <= k < |parts| ==> Black(parts[k]) > 0
    ensures BlackOf(parts) >= Black(parts[i]) + |parts| - 1
    decreases |parts|
  {
    var n := |parts| - 1;
    if i < n {
      BlackOfMore(parts[..n], i);
    } else if n > 0 {
      BlackOfMore(parts[..n], 0);
    }
  }

  lemma {:induction false} JoinIsLonger(parts: seq<string>, i: nat)
    requires i < |parts| && forall k :: 0 <= k < |parts| ==> parts[k] != ""
    ensures |Text.Join(parts)| >= |parts[i]| + |parts| - 1
    decreases |parts|
  {
    var n := |parts| - 1;
    if i < n {
      JoinIsLonger(parts[..n], i);
    } else if n > 0 {
      JoinIsLonger(parts[..n], 0);
    }
  }

  /** Two or more nonempty fragments regroup into a text that is neither empty nor the
      first of them. */
  lemma RegroupedIsNew(fragments: seq<string>, output: seq<Item>)
    requires |fragments| >= 2 && forall i :: 0 <= i < |fragments| ==> fragments[i] != ""
    ensures RegroupedText(fragments, output) !in {"", fragments[0]}
  {
    hide NativeRun, Flush, Text.Trim, Black, BlackOf;
    var native := NativeText(output);
    if native.Some? && native.value.0 == fragments {
      var n := NativeRun(output).value;
      RunIsBalanced(output);
      FlushIsBalanced(n);
      TrimKeepsBlack(n.all);
      FlushEmpties(n);
      BlackOfMore(fragments, 0);
      EmptyIsNotBlack();
    } else {
      JoinIsLonger(fragments, 0);
    }
  }

  lemma FlushEmpties(n: Native)
    ensures Flush(n).open == "" && Flush(n).all == n.all
  {
  }

  lemma EmptyIsNotBlack()
    ensures Black("") == 0
  {
  }
}
