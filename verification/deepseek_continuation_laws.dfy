/** Answers that continue earlier answers: the conversation shows them as one message, and
    the saved signatures take that message apart again, over any number of turns. */
module DeepSeekContinuationLaws {
  import opened Wrappers
  import opened DeepSeekHistory
  import opened DeepSeekHistoryLaws
  import opened DeepSeekRuns

  // ----- Merging in two steps -----

  lemma GrownTwice(front: seq<Message>, a: Message, b: Message)
    requires Mergeable(a) && Mergeable(b)
    ensures Grown(Grown(front, a), b) == Grown(front, Joined(a, b))
  {
    JoinedMergesAlike(a, b);
    if front != [] && Mergeable(front[|front| - 1]) {
      JoinedAssociates(front[|front| - 1], a, b);
    }
  }

  /** Merging looks only at what the front merged to. */
  lemma {:induction false} MergedOnTop(a: seq<Message>, b: seq<Message>, back: seq<Message>, k: nat)
    requires Work(a) == Work(b) && k <= |back|
    ensures Merged(a + back, |a| + k) == Merged(b + back, |b| + k)
    decreases k
  {
    hide Grown;
    if k == 0 {
      MergedLooksBack(a, back, |a|);
      MergedLooksBack(b, back, |b|);
    } else {
      MergedOnTop(a, b, back, k - 1);
      assert (a + back)[|a| + k - 1] == back[k - 1] && (b + back)[|b| + k - 1] == back[k - 1];
    }
  }

  lemma WorkOnTop(a: seq<Message>, b: seq<Message>, back: seq<Message>)
    requires Work(a) == Work(b)
    ensures Work(a + back) == Work(b + back)
  {
    MergedOnTop(a, b, back, |back|);
  }

  lemma WorkGrows(messages: seq<Message>, m: Message)
    ensures Work(messages + [m]) == Grown(Work(messages), m)
  {
    hide Grown;
    MergedLooksBack(messages, [m], |messages|);
  }

  /** Merging a part first changes nothing. */
  lemma {:induction false} MergedAgain(front: seq<Message>, back: seq<Message>)
    ensures Work(front + Work(back)) == Work(front + back)
  {
    hide Mergeable, Joined, Merged, Work, Grown;
    if back == [] {
      assert Work(back) == [] by {
        WorkOfNone();
      }
    } else {
      var rest, m := back[..|back| - 1], back[|back| - 1];
      assert back == rest + [m] && front + back == front + rest + [m];
      MergedAgain(front, rest);
      WorkGrows(rest, m);
      WorkGrows(front + rest, m);
      WorkOfGrown(front, Work(rest), m);
    }
  }

  lemma WorkOfNone()
    ensures Work([]) == []
  {
  }

  lemma WorkOfGrown(front: seq<Message>, w: seq<Message>, m: Message)
    ensures Work(front + Grown(w, m)) == Grown(Work(front + w), m)
  {
    hide Joined, Merged, Work, Mergeable;
    if w != [] && Mergeable(w[|w| - 1]) && Mergeable(m) {
      var most, x := w[..|w| - 1], w[|w| - 1];
      assert front + w == front + most + [x] && front + Grown(w, m) == front + most + [Joined(x, m)];
      WorkGrows(front + most, x);
      WorkGrows(front + most, Joined(x, m));
      GrownTwice(Work(front + most), x, m);
    } else {
      assert front + Grown(w, m) == front + w + [m];
      WorkGrows(front + w, m);
    }
  }

  /** It does not matter whether the runtime shows two neighbours as one message. */
  lemma GroupingKeepsWork(front: seq<Message>, a: Message, b: Message, back: seq<Message>)
    requires Mergeable(a) && Mergeable(b)
    ensures Work(front + [Joined(a, b)] + back) == Work(front + [a, b] + back)
  {
    hide Joined, Merged, Work, Mergeable, Grown;
    assert front + [a, b] == front + [a] + [b];
    WorkGrows(front, a);
    WorkGrows(front + [a], b);
    WorkGrows(front, Joined(a, b));
    GrownTwice(Work(front), a, b);
    WorkOnTop(front + [Joined(a, b)], front + [a, b], back);
  }

  // ----- Reaching over saved input -----

  lemma {:induction false} LimitsCoverBack(front: seq<Input>, back: seq<Input>, k: nat)
    requires k <= |back|
    ensures LimitsGrow(NativeLimits(back, k), NativeLimits(front + back, |front| + k))
  {
    if k > 0 {
      LimitsCoverBack(front, back, k - 1);
      assert (front + back)[|front| + k - 1] == back[k - 1];
    }
  }

  function LimitsIn(input: seq<Input>): Limits { NativeLimits(input, |input|) }

  lemma LimitsCoverPart(front: seq<Input>, part: seq<Input>, back: seq<Input>)
    ensures LimitsGrow(LimitsIn(part), LimitsIn(front + part + back))
    ensures LimitsGrow(LimitsIn(front), LimitsIn(front + part + back))
  {
    hide NativeLimits;
    LimitsCoverBack(front, part, |part|);
    LimitsGrowWithInput(front + part, back, |back|);
    LimitsGrowWithInput(front, part + back, |part + back|);
    assert front + (part + back) == front + part + back;
  }

  lemma {:induction false} SpelledIsNoShorter(text: Runes, k: nat)
    requires k <= |text|
    ensures Bytes(Spelled(text), k) >= Bytes(text, k)
  {
    if k > 0 {
      SpelledIsNoShorter(text, k - 1);
    }
  }

  lemma {:induction false} CallItemsAreNotRead(calls: seq<Call>, front: seq<Input>, k: nat)
    requires k <= |calls|
    ensures |CallItems(calls, k)| == k
    ensures NativeLimits(front + CallItems(calls, k), |front| + k) == LimitsIn(front)
  {
    if k > 0 {
      CallItemsAreNotRead(calls, front, k - 1);
      var items := front + CallItems(calls, k);
      assert items == front + CallItems(calls, k - 1) + [CallItem(calls[k - 1])];
      LimitsLookBack(front + CallItems(calls, k - 1), [CallItem(calls[k - 1])], |front| + k - 1);
    } else {
      assert front + [] == front;
    }
  }

  /** A fragment that was rendered, not saved, is still reached. */
  lemma RenderedIsReached(m: Message)
    requires Mergeable(m)
    ensures Reaches(LimitsIn(Items(m)), m)
  {
    hide Spelled, Bytes;
    SpelledIsNoShorter(m.text, |m.text|);
    SpelledIsNoShorter(m.reasoning, |m.reasoning|);
    NoBytes();
    WordsAreRead(m);
    CallItemsAreNotRead(m.calls, Words(m), |m.calls|);
    assert Items(m) == Words(m) + CallItems(m.calls, |m.calls|);
  }

  lemma WordsAreRead(m: Message)
    requires Mergeable(m)
    ensures LimitsIn(Words(m)) == Limits(Bytes(Spelled(m.reasoning), |m.reasoning|), Bytes(Spelled(m.text), |m.text|))
  {
    hide Spelled, Bytes;
    assert Bytes(Spelled([]), 0) == 0 by { NoSpelledBytes(); }
    var words := Words(m);
    assert NativeLimits(words, 0) == Limits(0, 0);
    if |words| > 1 {
      assert NativeLimits(words, 1) == Limits(Bytes(Spelled(m.reasoning), |m.reasoning|), 0);
    }
  }

  lemma NoSpelledBytes()
    ensures Bytes(Spelled([]), 0) == 0
  {
  }

  lemma NoBytes()
    ensures Bytes([], 0) == 0
  {
  }

  lemma {:induction false} LastIsReached(units: seq<Message>, i: nat)
    requires i < |units| && Mergeable(units[|units| - 1])
    ensures Reaches(LimitsIn(ItemsOf(units, i)), units[|units| - 1])
    decreases |units| - i
  {
    hide Items, Bytes, NativeLimits;
    if i + 1 == |units| {
      assert ItemsOf(units, i) == Items(units[i]) + ItemsOf(units, i + 1) == Items(units[i]);
      RenderedIsReached(units[i]);
    } else {
      LastIsReached(units, i + 1);
      LimitsCoverPart(Items(units[i]), ItemsOf(units, i + 1), []);
      assert Items(units[i]) + ItemsOf(units, i + 1) + [] == ItemsOf(units, i);
    }
  }

  // ----- A whole conversation -----

  /** A turn asks something, or continues the answer before it; and what was asked may end
      in an answer that was interrupted. The output of an answer that is continued holds at
      least its words. */
  predicate GoodStep(turns: seq<Turn>, k: nat)
    requires k < |turns|
  {
    var t := turns[k];
    && ShownAs(t.answer, t.calls)
    && (k == 0 ==> t.output != [] || ItemsOf(Work(t.asked), 0) != [])
    && (if t.asked == [] then k > 0 && Reaches(LimitsIn(turns[k - 1].output), turns[k - 1].answer)
        else !Mergeable(t.asked[0]))
  }

  /** The first `k` turns, message by message. */
  function Units(turns: seq<Turn>, k: nat): seq<Message>
    requires k <= |turns|
  {
    if k == 0 then [] else Units(turns, k - 1) + Work(turns[k - 1].asked) + [turns[k - 1].answer]
  }

  function Request(turns: seq<Turn>, k: nat): seq<Message>
    requires k < |turns|
  {
    Units(turns, k) + Work(turns[k].asked)
  }

  /** The request of turn `k` as if no answer had ever been grouped. */
  function Whole(turns: seq<Turn>, k: nat, img: bool): Result<Rendered, Failure>
    requires k < |turns|
  {
    Apart(Request(turns, k), 0, |Request(turns, k)|, BLANK_PAGE, img)
  }

  /** Every request is acceptable message by message, and where one answer continues
      another, its end can be told. */
  predicate GoodSteps(turns: seq<Turn>, img: bool) {
    && (forall k :: 0 <= k < |turns| ==> GoodStep(turns, k))
    && (forall k :: 0 <= k < |turns| ==> Whole(turns, k, img).Ok? && Whole(turns, k, img).value.pending == {})
    && (forall k :: 0 <= k < |turns| ==> AllLinked(Units(turns, k)))
  }

  predicate AllLinked(units: seq<Message>) {
    forall i :: 0 <= i < |units| && Joins(units, i) ==> Linked(units, i)
  }

  lemma {:induction false} UnitsWork(turns: seq<Turn>, k: nat)
    requires k <= |turns|
    ensures Work(Canonical(turns, k)) == Work(Units(turns, k))
  {
    hide Work;
    if k > 0 {
      UnitsWork(turns, k - 1);
      var t := turns[k - 1];
      RequestWork(turns, k - 1);
      WorkOnTop(Asking(turns, k - 1), Request(turns, k - 1), [t.answer]);
    }
  }

  lemma {:induction false} RequestWork(turns: seq<Turn>, k: nat)
    requires k < |turns| && Work(Canonical(turns, k)) == Work(Units(turns, k))
    ensures Work(Asking(turns, k)) == Work(Request(turns, k))
  {
    hide Work, Canonical, Units;
    WorkOnTop(Canonical(turns, k), Units(turns, k), turns[k].asked);
    MergedAgain(Units(turns, k), turns[k].asked);
  }

  lemma {:induction false} MergedStartsAlike(messages: seq<Message>, k: nat)
    requires 0 < k <= |messages|
    ensures Merged(messages, k) != [] && Mergeable(Merged(messages, k)[0]) == Mergeable(messages[0])
  {
    hide Mergeable, Joined;
    if k > 1 {
      MergedStartsAlike(messages, k - 1);
      var front, m := Merged(messages, k - 1), messages[k - 1];
      JoinedMergesAlike(front[|front| - 1], m);
    } else {
      assert Merged(messages, 0) == [];
    }
  }

  /** What was asked merges no further, and not with what was said before. */
  lemma AskedStaysApart(turns: seq<Turn>, k: nat)
    requires k < |turns| && GoodStep(turns, k)
    ensures var w := Work(turns[k].asked);
      && (w == []) == (turns[k].asked == []) && (w != [] ==> !Mergeable(w[0]))
      && forall i :: !Joins(w, i)
  {
    hide Mergeable, Merged, ShownAs;
    var asked := turns[k].asked;
    MergedConserves(asked, |asked|);
    if asked != [] {
      MergedStartsAlike(asked, |asked|);
    } else {
      WorkOfNone();
    }
    forall i: nat | i + 1 < |Work(asked)|
      ensures !Joins(Work(asked), i)
    {
      assert !(Mergeable(Work(asked)[i + 1 - 1]) && Mergeable(Work(asked)[i + 1]));
    }
  }

  lemma NativeGrows(turns: seq<Turn>, k: nat)
    requires 0 < k <= |turns|
    ensures LimitsGrow(LimitsIn(Native(turns, k - 1)), LimitsIn(Native(turns, k)))
    ensures LimitsGrow(LimitsIn(turns[k - 1].output), LimitsIn(Native(turns, k)))
    ensures LimitsGrow(LimitsIn(ItemsOf(Work(turns[k - 1].asked), 0)), LimitsIn(Native(turns, k)))
  {
    hide NativeLimits, Work, ItemsOf, LimitsIn;
    var before, asked, output := Native(turns, k - 1), ItemsOf(Work(turns[k - 1].asked), 0), turns[k - 1].output;
    LimitsCoverPart(before, asked, output);
    LimitsCoverPart(before + asked, output, []);
    assert before + asked + output + [] == before + asked + output;
  }

  lemma ReachGrows(l: Limits, n: Limits, m: Message)
    requires LimitsGrow(l, n) && Reaches(l, m)
    ensures Reaches(n, m)
  {
  }

  /** The end of every fragment is within reach of the search. */
  lemma {:induction false} UnitsReach(turns: seq<Turn>, k: nat, i: nat, limits: Limits, img: bool)
    requires k <= |turns| && GoodSteps(turns, img) && LimitsGrow(LimitsIn(Native(turns, k)), limits)
    requires Joins(Units(turns, k), i)
    ensures Reaches(limits, Units(turns, k)[i])
  {
    hide Mergeable, Work, Linked, Reaches, NativeLimits, Native, ShownAs, ItemsOf, LimitsIn, Whole;
    var t, front := turns[k - 1], Units(turns, k - 1);
    var w := Work(t.asked);
    assert GoodStep(turns, k - 1);
    AskedStaysApart(turns, k - 1);
    NativeGrows(turns, k);
    assert LimitsGrow(LimitsIn(Native(turns, k - 1)), limits);
    if i + 1 < |front| {
      UnitsReach(turns, k - 1, i, limits, img);
    } else if i + 1 < |front + w| {
      AskedJoinsNothing(front, w, [t.answer], i);
    } else {
      AnswerReaches(turns, k, limits, img);
    }
  }

  lemma AskedJoinsNothing(front: seq<Message>, w: seq<Message>, back: seq<Message>, i: nat)
    requires |front| <= i + 1 < |front + w| && !Mergeable(w[0]) && forall j :: !Joins(w, j)
    ensures !Joins(front + w + back, i)
  {
    hide Mergeable;
    var units := front + w + back;
    assert units[i + 1] == w[i + 1 - |front|];
    if i >= |front| {
      assert units[i] == w[i - |front|];
      assert !Joins(w, i - |front|);
    }
  }

  lemma AnswerReaches(turns: seq<Turn>, k: nat, limits: Limits, img: bool)
    requires 0 < k <= |turns| && GoodSteps(turns, img) && LimitsGrow(LimitsIn(Native(turns, k)), limits)
    requires |Units(turns, k)| > 1 && Joins(Units(turns, k), |Units(turns, k)| - 2)
    ensures Reaches(limits, Units(turns, k)[|Units(turns, k)| - 2])
  {
    hide Mergeable, Work, Linked, Reaches, NativeLimits, Native, ShownAs, ItemsOf, LimitsIn, Whole;
    var t, units := turns[k - 1], Units(turns, k);
    var w, n := Work(t.asked), |units|;
    assert GoodStep(turns, k - 1);
    AskedStaysApart(turns, k - 1);
    NativeGrows(turns, k);
    if w == [] {
      NativeGrows(turns, k - 1);
      assert units[n - 2] == turns[k - 2].answer;
      ReachGrows(LimitsIn(turns[k - 2].output), limits, units[n - 2]);
    } else {
      assert units[n - 2] == w[|w| - 1];
      LastIsReached(w, 0);
      ReachGrows(LimitsIn(ItemsOf(w, 0)), limits, units[n - 2]);
    }
  }

  lemma UnitsChain(turns: seq<Turn>, k: nat, limits: Limits, img: bool)
    requires k < |turns| && GoodSteps(turns, img) && LimitsGrow(LimitsIn(Native(turns, k)), limits)
    ensures Chained(Units(turns, k), limits)
  {
    hide Mergeable, Reaches, LimitsIn, Native, Whole, Units, GoodStep, Linked;
    var units := Units(turns, k);
    assert AllLinked(units);
    forall i: nat | Joins(units, i)
      ensures Linked(units, i) && Reaches(limits, units[i])
    {
      UnitsReach(turns, k, i, limits, img);
    }
  }

  lemma {:induction false} ApartInParts(units: seq<Message>, i: nat, m: nat, n: nat, r: Rendered, img: bool)
    requires i <= m <= n <= |units|
    ensures var first := Apart(units, i, m, r, img);
      Apart(units, i, n, r, img) == if first.Err? then first else Apart(units, m, n, first.value, img)
    decreases m - i
  {
    hide Emit;
    if i < m && Emit(r, units[i], img).Ok? {
      ApartInParts(units, i + 1, m, n, Emit(r, units[i], img).value, img);
    }
  }

  lemma {:induction false} ApartLooksBack(a: seq<Message>, b: seq<Message>, i: nat, n: nat, r: Rendered, img: bool)
    requires i <= n <= |a| && n <= |b| && a[..n] == b[..n]
    ensures Apart(a, i, n, r, img) == Apart(b, i, n, r, img)
    decreases n - i
  {
    hide Emit;
    if i < n {
      assert a[i] == a[..n][i] && b[i] == b[..n][i];
      if Emit(r, a[i], img).Ok? {
        ApartLooksBack(a, b, i + 1, n, Emit(r, a[i], img).value, img);
      }
    }
  }

  lemma {:induction false} ApartItems(units: seq<Message>, i: nat, r: Rendered, img: bool)
    requires i <= |units| && Apart(units, i, |units|, r, img).Ok?
    ensures Apart(units, i, |units|, r, img).value.input == r.input + ItemsOf(units, i)
    decreases |units| - i
  {
    hide Emit, Items;
    if i < |units| {
      EmitItems(r, units[i], img);
      ApartItems(units, i + 1, Emit(r, units[i], img).value, img);
    }
  }

  lemma {:induction false} ApartTidy(units: seq<Message>, i: nat, n: nat, r: Rendered, img: bool)
    requires i <= n <= |units| && Tidy(r) && Apart(units, i, n, r, img).Ok?
    ensures Extends(r, Apart(units, i, n, r, img).value) && Tidy(Apart(units, i, n, r, img).value)
    decreases n - i
  {
    hide Emit, Tidy;
    if i < n {
      EmitTidy(r, units[i], img);
      ApartTidy(units, i + 1, n, Emit(r, units[i], img).value, img);
    }
  }

  lemma {:induction false} ApartAlike(units: seq<Message>, i: nat, r: Rendered, s: Rendered, img: bool)
    requires i <= |units| && Alike(r, s)
    ensures Apart(units, i, |units|, r, img).Ok? == Apart(units, i, |units|, s, img).Ok?
    ensures Apart(units, i, |units|, r, img).Ok? ==>
      Alike(Apart(units, i, |units|, r, img).value, Apart(units, i, |units|, s, img).value)
    decreases |units| - i
  {
    hide Emit, Alike;
    if i < |units| {
      EmitAlike(r, s, units[i], img);
      if Emit(r, units[i], img).Ok? {
        ApartAlike(units, i + 1, Emit(r, units[i], img).value, Emit(s, units[i], img).value, img);
      }
    }
  }

  lemma {:induction false} ApartBehind(front: seq<Message>, back: seq<Message>, j: nat, r: Rendered, img: bool)
    requires j <= |back|
    ensures Apart(front + back, |front| + j, |front + back|, r, img) == Apart(back, j, |back|, r, img)
    decreases |back| - j
  {
    hide Emit;
    if j < |back| {
      assert (front + back)[|front| + j] == back[j];
      if Emit(r, back[j], img).Ok? {
        ApartBehind(front, back, j + 1, Emit(r, back[j], img).value, img);
      }
    }
  }

  /** Past the saved prefix every message stands alone. */
  lemma {:induction false} PastPrefixIsApart(work: seq<Message>, k: nat, r: Rendered, p: seq<Sig>, l: Limits, img: bool)
    requires k <= |work| && |p| <= |r.prefix|
    ensures Feed(work[k..], r, p, l, img) == Apart(work, k, |work|, r, img)
    decreases |work| - k
  {
    hide SplitFirst, Emit;
    if k < |work| {
      assert work[k..][0] == work[k] && work[k..][1..] == work[k + 1..];
      PastPrefix(work[k], p, |r.prefix|, l);
      if Emit(r, work[k], img).Ok? {
        EmitSigns(r, work[k], img);
        PastPrefixIsApart(work, k + 1, Emit(r, work[k], img).value, p, l, img);
      }
    }
  }

  /** The request of turn `k` passes the prefix check and sends every answer in its native
      form. It keeps the same books as if nothing had been grouped, and renders the same
      unless an answer gave reasoning between what is signed and its calls. */
  predicate ReplaysApart(turns: seq<Turn>, k: nat, compatibility: nat, img: bool)
    requires k < |turns|
  {
    var state, whole := StateAfter(turns, k, compatibility, img), Whole(turns, k, img);
    var out := Rendering(Asking(turns, k), Known(state), img);
    && whole.Ok? && out.Ok?
    && Alike(out.value, whole.value)
    && (Tight(Units(turns, k)) ==> out == whole)
    && Known(state).prefix <= whole.value.prefix
    && Spliced(Asking(turns, k), state, compatibility, img)
         == Ok(History(compatibility, whole.value.prefix, Native(turns, k) + ItemsOf(Work(turns[k].asked), 0)))
  }

  /** What the turns before `k` rendered to, message by message. */
  function Before(turns: seq<Turn>, k: nat, img: bool): Result<Rendered, Failure>
    requires k <= |turns|
  {
    Apart(Units(turns, k), 0, |Units(turns, k)|, BLANK_PAGE, img)
  }

  lemma WholeIsBeforeAndAsked(turns: seq<Turn>, k: nat, img: bool)
    requires k < |turns|
    ensures var before, w := Before(turns, k, img), Work(turns[k].asked);
      Whole(turns, k, img) == if before.Err? then before else Apart(w, 0, |w|, before.value, img)
  {
    hide Work, Units;
    var front, w := Units(turns, k), Work(turns[k].asked);
    ApartInParts(Request(turns, k), 0, |front|, |front + w|, BLANK_PAGE, img);
    ApartLooksBack(Request(turns, k), front, 0, |front|, BLANK_PAGE, img);
    if Before(turns, k, img).Ok? {
      ApartBehind(front, w, 0, Before(turns, k, img).value, img);
    }
  }

  /** The turns before `k` are the request of turn `k - 1` and its answer. */
  lemma BeforeIsAnswered(turns: seq<Turn>, k: nat, img: bool)
    requires 0 < k <= |turns| && Whole(turns, k - 1, img).Ok?
    ensures Before(turns, k, img) == Emit(Whole(turns, k - 1, img).value, turns[k - 1].answer, img)
  {
    hide Work, Emit;
    var units, last := Units(turns, k), Request(turns, k - 1);
    var n := |last|;
    assert units == last + [turns[k - 1].answer] && units[..n] == last[..n];
    ApartLooksBack(units, last, 0, n, BLANK_PAGE, img);
    ApartInParts(units, 0, n, n + 1, BLANK_PAGE, img);
    OneApart(units, n, Whole(turns, k - 1, img).value, img);
  }

  lemma OneApart(units: seq<Message>, n: nat, r: Rendered, img: bool)
    requires n < |units|
    ensures Apart(units, n, n + 1, r, img) == Emit(r, units[n], img)
  {
    hide Emit;
    var next := Emit(r, units[n], img);
    assert next.Ok? ==> Apart(units, n + 1, n + 1, next.value, img) == next;
  }

  /** Rendering under the saved prefix: first the turns it binds, up to `x`, then what is asked. */
  lemma RequestRenders(turns: seq<Turn>, k: nat, known: History, img: bool) returns (x: Rendered)
    requires k < |turns| && GoodSteps(turns, img)
    requires Before(turns, k, img).Ok? && known.prefix == Before(turns, k, img).value.prefix
    requires LimitsGrow(LimitsIn(Native(turns, k)), LimitsIn(known.input))
    ensures var out, whole := Rendering(Asking(turns, k), known, img), Whole(turns, k, img);
      && whole.Ok? && out.Ok? && Alike(out.value, whole.value) && (Tight(Units(turns, k)) ==> out == whole)
      && x.prefix == known.prefix && Tidy(x) && Extends(x, out.value)
      && out.value.input == x.input + ItemsOf(Work(turns[k].asked), 0)
  {
    hide Work, Emit, Native, Apart, Chained, NativeLimits, Units, GoodStep, ItemsOf, Tidy, Feed, Rendering, Runs;
    var units, w, limits := Units(turns, k), Work(turns[k].asked), LimitsIn(known.input);
    var before := Before(turns, k, img).value;
    assert Whole(turns, k, img).Ok? && Whole(turns, k, img).value.pending == {} && GoodStep(turns, k);
    WholeIsBeforeAndAsked(turns, k, img);
    UnitsChain(turns, k, limits, img);
    RunsRenderApart(units, 0, BLANK_PAGE, BLANK_PAGE, known.prefix, limits, img);
    x := Feed(Runs(units, 0), BLANK_PAGE, known.prefix, limits, img).value;
    ApartAlike(w, 0, x, before, img);
    assert w[0..] == w;
    PastPrefixIsApart(w, 0, x, known.prefix, limits, img);
    AskedFollows(turns, k);
    FeedInParts(Runs(units, 0), w, BLANK_PAGE, known.prefix, limits, img);
    RenderingIsFeed(Asking(turns, k), known, img);
    FeedItems(w, 0, x, known.prefix, limits, img);
    BlankIsTidy();
    FeedTidy(Runs(units, 0), BLANK_PAGE, known.prefix, limits, img);
    FeedTidy(w, x, known.prefix, limits, img);
  }

  /** What is asked merges behind what was said. */
  lemma AskedFollows(turns: seq<Turn>, k: nat)
    requires k < |turns| && GoodStep(turns, k)
    ensures Work(Asking(turns, k)) == Runs(Units(turns, k), 0) + Work(turns[k].asked)
  {
    hide Mergeable, Merged, Units, Canonical, ShownAs, ItemsOf;
    var asked := turns[k].asked;
    UnitsWork(turns, k);
    MergedIsRuns(Units(turns, k));
    MergedInParts(Canonical(turns, k), asked, |asked|);
  }

  lemma RenderingIsFeed(messages: seq<Message>, known: History, img: bool)
    ensures var out := Feed(Work(messages), BLANK_PAGE, known.prefix, LimitsIn(known.input), img);
      Rendering(messages, known, img) == if out.Ok? && out.value.pending != {} then Err(MissingResult) else out
  {
    hide Feed, Merged;
  }

  /** Replay over conversations whose answers were interrupted and continued: however often
      an answer is continued, every request is accepted, and its input is the conversation
      with each answer replaced by the native output that was saved for it. */
  lemma {:induction false} ContinuedConversationReplays(turns: seq<Turn>, k: nat, compatibility: nat, img: bool)
    requires k < |turns| && GoodSteps(turns, img)
    ensures ReplaysApart(turns, k, compatibility, img)
  {
    hide GoodSteps, ReplaysApart;
    if k == 0 {
      FirstTurnReplays(turns, compatibility, img);
    } else {
      ContinuedConversationReplays(turns, k - 1, compatibility, img);
      NextTurnReplaysApart(turns, k, compatibility, img);
    }
  }

  lemma FirstTurnReplays(turns: seq<Turn>, compatibility: nat, img: bool)
    requires 0 < |turns| && GoodSteps(turns, img)
    ensures ReplaysApart(turns, 0, compatibility, img)
  {
    hide Work, Emit, NativeLimits, ItemsOf, Rendering, Feed, GoodSteps;
    assert Before(turns, 0, img) == Ok(BLANK_PAGE);
    assert LimitsGrow(LimitsIn(Native(turns, 0)), LimitsIn([]));
    var x := RequestRenders(turns, 0, NO_HISTORY, img);
    assert x.input == [];
  }

  lemma NextTurnReplaysApart(turns: seq<Turn>, k: nat, compatibility: nat, img: bool)
    requires 0 < k < |turns| && GoodSteps(turns, img) && ReplaysApart(turns, k - 1, compatibility, img)
    ensures ReplaysApart(turns, k, compatibility, img)
  {
    hide Work, Emit, NativeLimits, ItemsOf, Rendering, Feed, Units, Apart, AssistantSigs, Asking, Request, Tidy;
    var t := turns[k - 1];
    var state := StateAfter(turns, k - 1, compatibility, img);
    var h := Spliced(Asking(turns, k - 1), state, compatibility, img).value;
    var saved := Saved(h, t.answer.text, t.answer.reasoning, t.calls, t.output);
    assert GoodStep(turns, k - 1) && Whole(turns, k, img).Ok?;
    assert StateAfter(turns, k, compatibility, img) == Some(saved);
    WholeIsBeforeAndAsked(turns, k, img);
    BeforeIsAnswered(turns, k, img);
    EmitSigns(Whole(turns, k - 1, img).value, t.answer, img);
    ShownSignsTheSame(t.answer, t.calls);
    assert saved.prefix == Before(turns, k, img).value.prefix;
    assert saved.input == Native(turns, k);
    var x := RequestRenders(turns, k, saved, img);
    NativeNotEmpty(turns, k);
    SplicedAt(Asking(turns, k), saved, x, Rendering(Asking(turns, k), saved, img).value,
              ItemsOf(Work(turns[k].asked), 0), compatibility, img);
  }

  lemma ShownSignsTheSame(answer: Message, calls: seq<Call>)
    requires ShownAs(answer, calls)
    ensures AssistantSigs(Message(Assistant, answer.text, answer.reasoning, calls, None, [])) == AssistantSigs(answer)
  {
    hide Signature;
    assert |CallSigs(answer.calls)| == |CallSigs(calls)|;
  }

  lemma {:induction false} NativeNotEmpty(turns: seq<Turn>, k: nat)
    requires 0 < k <= |turns| && GoodStep(turns, 0)
    ensures Native(turns, k) != []
  {
    hide ItemsOf, Work;
    if k > 1 {
      NativeNotEmpty(turns, k - 1);
    }
  }

  /** Splicing puts the saved input in place of what it binds. */
  lemma SplicedAt(messages: seq<Message>, saved: History, before: Rendered, whole: Rendered, rest: seq<Input>,
                  compatibility: nat, img: bool)
    requires Rendering(messages, saved, img) == Ok(whole) && saved.input != [] && saved.compatibility == compatibility
    requires saved.prefix == before.prefix && Tidy(before) && Extends(before, whole)
    requires whole.input == before.input + rest
    ensures Spliced(messages, Some(saved), compatibility, img)
         == Ok(History(compatibility, whole.prefix, saved.input + rest))
  {
    hide Rendering;
    EndOfAnswer(before, whole);
    assert whole.input[|before.input|..] == rest;
  }

  /** The same for any way in which the runtime groups neighbours: only the merged
      conversation is looked at. */
  lemma GroupedRequestIsTheSame(messages: seq<Message>, other: seq<Message>, previous: Option<History>,
                                compatibility: nat, img: bool)
    requires Work(messages) == Work(other)
    ensures Spliced(messages, previous, compatibility, img) == Spliced(other, previous, compatibility, img)
  {
    hide Feed, Merged;
    RenderingIsFeed(messages, Known(previous), img);
    RenderingIsFeed(other, Known(previous), img);
  }

  // ----- A continuation that is refused -----

  function Asks(text: Runes): Message { Message(User, text, [], [], None, []) }

  function Answers(text: Runes, reasoning: Runes): Message { Message(Assistant, text, reasoning, [], None, []) }

  /** An answer that thought and spoke, cut off and then continued by more text. */
  function ThinkingTurns(question: Runes, thought: Runes, begun: Runes, more: Runes, first: seq<Input>,
      second: seq<Input>): seq<Turn>
  {
    [Turn([Asks(question)], Answers(begun, thought), [], first), Turn([], Answers(more, []), [], second)]
  }

  lemma WorkOfOne(m: Message)
    ensures Work([m]) == [m]
  {
    MergedOfOne(m);
  }

  /** Both of its requests are accepted. */
  lemma ThinkingTurnsAreGood(question: Runes, thought: Runes, begun: Runes, more: Runes, first: seq<Input>,
      second: seq<Input>, img: bool)
    requires question != [] && begun != []
    requires Reaches(LimitsIn(first), Answers(begun, thought))
    ensures GoodSteps(ThinkingTurns(question, thought, begun, more, first, second), img)
    ensures var turns := ThinkingTurns(question, thought, begun, more, first, second);
      && Whole(turns, 1, img).Ok?
      && Whole(turns, 1, img).value.prefix == AsksSigs(question) + AssistantSigs(Answers(begun, thought))
  {
    hide AssistantSigs, Reaches, LimitsIn;
    var q, a, turns := Asks(question), Answers(begun, thought),
                       ThinkingTurns(question, thought, begun, more, first, second);
    WorkOfOne(q);
    WorkOfNone();
    assert Units(turns, 0) == [] && Request(turns, 0) == [q];
    assert Units(turns, 1) == [q, a] && Request(turns, 1) == [q, a];
    var r := AskedRenders(question, img);
    var s := AnswerRenders(begun, thought, r, img);
    assert Apart([q], 1, 1, r, img) == Ok(r);
    assert Apart([q, a], 2, 2, s, img) == Ok(s);
    assert Apart([q, a], 1, 2, r, img) == Ok(s);
    ThinkingStepsAreGood(question, thought, begun, more, first, second);
    hide GoodStep, Emit, Linked, Mergeable, HasContent;
    assert forall i :: !Joins([q, a], i) && !Joins([], i) by { UserJoinsNothing(q, a); }
  }

  lemma UserJoinsNothing(q: Message, a: Message)
    requires q.role == User
    ensures forall i :: !Joins([q, a], i) && !Joins([], i)
  {
  }

  lemma ThinkingStepsAreGood(question: Runes, thought: Runes, begun: Runes, more: Runes, first: seq<Input>,
      second: seq<Input>)
    requires question != [] && Reaches(LimitsIn(first), Answers(begun, thought))
    ensures var turns := ThinkingTurns(question, thought, begun, more, first, second);
      GoodStep(turns, 0) && GoodStep(turns, 1)
  {
    hide Reaches, LimitsIn, Work, CallSigs;
    var q := Asks(question);
    WorkOfOne(q);
    assert ItemsOf([q], 0) == Items(q) + ItemsOf([q], 1);
  }

  function AsksSigs(question: Runes): seq<Sig> { [Signature(MessageItem(User, TextContent(question)))] }

  lemma AskedRenders(question: Runes, img: bool) returns (r: Rendered)
    requires question != []
    ensures Emit(BLANK_PAGE, Asks(question), img) == Ok(r)
    ensures r.pending == {} && r.prefix == AsksSigs(question)
  {
    hide Signature;
    NoCallsAreAdded(AddWords(BLANK_PAGE, Asks(question)));
    r := AddWords(BLANK_PAGE, Asks(question));
  }

  lemma NoCallsAreAdded(r: Rendered)
    ensures AddCalls(r, [], 0) == Ok(r)
  {
  }

  lemma AnswerRenders(text: Runes, reasoning: Runes, r: Rendered, img: bool) returns (s: Rendered)
    requires text != [] && r.pending == {}
    ensures Emit(r, Answers(text, reasoning), img) == Ok(s)
    ensures s.pending == {} && s.prefix == r.prefix + AssistantSigs(Answers(text, reasoning))
  {
    hide Signature, AssistantSigs;
    NoCallsAreAdded(AddWords(r, Answers(text, reasoning)));
    s := AddWords(r, Answers(text, reasoning));
    EmitSigns(r, Answers(text, reasoning), img);
  }

  /** The thinking answer: reasoning and text were said together, and only the text is
      signed. Once more text continues it, its end is never found, and the conversation is
      refused although nothing in it changed. */
  lemma ThinkingAnswerIsRefused(question: Runes, thought: Runes, begun: Runes, more: Runes, next: Runes,
      first: seq<Input>, second: seq<Input>, compatibility: nat, img: bool)
    requires question != [] && thought != [] && begun != [] && more != [] && next != []
    requires Reaches(LimitsIn(first), Answers(begun, thought))
    ensures var turns := ThinkingTurns(question, thought, begun, more, first, second);
      && Spliced(Asking(turns, 0), StateAfter(turns, 0, compatibility, img), compatibility, img).Ok?
      && Spliced(Asking(turns, 1), StateAfter(turns, 1, compatibility, img), compatibility, img).Ok?
      && Spliced(Canonical(turns, 2) + [Asks(next)], StateAfter(turns, 2, compatibility, img), compatibility, img)
           == Err(HistoryMismatch)
  {
    hide AssistantSigs, Reaches, LimitsIn, Rendering, GoodSteps, Native, Whole, Units, ItemsOf, Work;
    var turns := ThinkingTurns(question, thought, begun, more, first, second);
    var a, b := Answers(begun, thought), Answers(more, []);
    ThinkingTurnsAreGood(question, thought, begun, more, first, second, img);
    ContinuedConversationReplays(turns, 0, compatibility, img);
    ContinuedConversationReplays(turns, 1, compatibility, img);
    var h := Spliced(Asking(turns, 1), StateAfter(turns, 1, compatibility, img), compatibility, img).value;
    var saved := Saved(h, more, [], [], second);
    assert StateAfter(turns, 2, compatibility, img) == Some(saved);
    assert saved.prefix == AsksSigs(question) + AssistantSigs(a) + AssistantSigs(b);
    var messages := Canonical(turns, 2) + [Asks(next)];
    assert Canonical(turns, 0) == [];
    assert messages == [Asks(question)] + [a, b] + [Asks(next)];
    ThinkingAnswerRenders(question, thought, begun, more, next, saved, img);
  }

  /** The three merged messages render as they are. */
  lemma ThreeRender(question: Runes, m: Message, next: Runes, prefix: seq<Sig>, limits: Limits, img: bool)
      returns (t: Rendered)
    requires question != [] && next != [] && m == Answers(m.text, m.reasoning) && m.text != []
    requires SplitFirst(m, prefix, 1, limits).None?
    ensures Feed([Asks(question), m, Asks(next)], BLANK_PAGE, prefix, limits, img) == Ok(t)
    ensures t.pending == {} && AsksSigs(question) + AssistantSigs(m) <= t.prefix
  {
    hide AssistantSigs, Feed, Emit, SplitFirst, Signature;
    var q, n := Asks(question), Asks(next);
    var r := AskedRenders(question, img);
    var s := AnswerRenders(m.text, m.reasoning, r, img);
    t := NextRenders(next, s, img);
    assert [q, m, n] == [q] + [m, n] && [m, n] == [m] + [n] && [n] == [n] + [];
    FeedOne(q, [m, n], BLANK_PAGE, prefix, limits, img);
    FeedOne(m, [n], r, prefix, limits, img);
    FeedOne(n, [], s, prefix, limits, img);
    FeedNone(t, prefix, limits, img);
  }

  lemma ThinkingAnswerRenders(question: Runes, thought: Runes, begun: Runes, more: Runes, next: Runes,
      saved: History, img: bool)
    requires question != [] && thought != [] && begun != [] && more != [] && next != []
    requires saved.prefix ==
      AsksSigs(question) + AssistantSigs(Answers(begun, thought)) + AssistantSigs(Answers(more, []))
    ensures var messages := [Asks(question)] + [Answers(begun, thought), Answers(more, [])] + [Asks(next)];
      Rendering(messages, saved, img).Ok? && !(saved.prefix <= Rendering(messages, saved, img).value.prefix)
  {
    hide AssistantSigs, LimitsIn, Rendering, Work, Feed, Emit, Saves, SplitFirst, Signature, StringSig;
    var q, a, b := Asks(question), Answers(begun, thought), Answers(more, []);
    var m, limits := Answers(begun + more, thought), LimitsIn(saved.input);
    assert Joined(a, b) == m by { assert thought + [] == thought; }
    ThinkingAnswerMerges(q, a, b, Asks(next));
    RenderingIsFeed([q] + [a, b] + [Asks(next)], saved, img);
    assert saved.prefix[1..] == AssistantSigs(a) + AssistantSigs(b);
    SavesFront(saved.prefix, 1, a, b);
    TextAmongReasoningStays(a, b, saved.prefix, 1, limits);
    var t := ThreeRender(question, m, next, saved.prefix, limits, img);
    MoreTextSignsApart(begun, more, thought, saved.prefix, t.prefix, question, AssistantSigs(b));
  }

  lemma MoreTextSignsApart(begun: Runes, more: Runes, thought: Runes, saved: seq<Sig>, prefix: seq<Sig>,
      question: Runes, back: seq<Sig>)
    requires begun != [] && more != []
    requires saved == AsksSigs(question) + AssistantSigs(Answers(begun, thought)) + back
    requires AsksSigs(question) + AssistantSigs(Answers(begun + more, thought)) <= prefix
    ensures !(saved <= prefix)
  {
    hide StringSig, Signature;
    var a, m := Answers(begun, thought), Answers(begun + more, thought);
    SignedFirst(a);
    SignedFirst(m);
    hide AssistantSigs;
    DifferentLengthsSignApart(begun + more, begun, false);
    assert saved[1] == AssistantSigs(a)[0];
    assert prefix[1] == AssistantSigs(m)[0];
  }

  lemma SavesFront(prefix: seq<Sig>, offset: nat, a: Message, b: Message)
    requires offset <= |prefix| && prefix[offset..] == AssistantSigs(a) + AssistantSigs(b)
    ensures Saves(prefix, offset, a)
  {
  }

  lemma NextRenders(next: Runes, s: Rendered, img: bool) returns (t: Rendered)
    requires next != [] && s.pending == {}
    ensures Emit(s, Asks(next), img) == Ok(t) && t.pending == {} && s.prefix <= t.prefix
  {
    hide Signature;
    NoCallsAreAdded(AddWords(s, Asks(next)));
    t := AddWords(s, Asks(next));
  }

  lemma ThinkingAnswerMerges(q: Message, a: Message, b: Message, n: Message)
    requires Mergeable(a) && Mergeable(b) && !Mergeable(q) && !Mergeable(n)
    ensures Work([q] + [a, b] + [n]) == [q, Joined(a, b), n]
  {
    hide Mergeable, Joined, Work;
    WorkOfOne(q);
    WorkGrows([q], a);
    WorkGrows([q] + [a], b);
    WorkGrows([q] + [a, b], n);
    assert [q] + [a] + [b] == [q] + [a, b];
    assert Grown([q], a) == [q, a];
    assert Grown([q, a], b) == [q, Joined(a, b)];
  }
}
