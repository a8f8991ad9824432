/**
  The order of the AWS segmenter's minute buckets: when the word items' start times never decrease,
  the buckets come out with strictly increasing minutes.
*/
module AwsTranscribeOrder {
  import opened Wrappers
  import opened ChineseText
  import opened AwsTranscribe
  import opened AwsTranscribeProofs

  /** The start times of the word items, where readable, never decrease along the transcript. */
  predicate StartsSorted(items: seq<Item>) {
    forall q1, q2 ::
      0 <= q1 < q2 < |items| && items[q1].kind == Pronunciation && items[q2].kind == Pronunciation
      && StartOf(items, q1).Success? && StartOf(items, q2).Success?
      ==> StartOf(items, q1).value <= StartOf(items, q2).value
  }

  /** No word item from index `i` on starts before `t` milliseconds. */
  predicate NotAfter(items: seq<Item>, i: nat, t: int) {
    forall q :: i <= q < |items| && items[q].kind == Pronunciation && StartOf(items, q).Success?
      ==> t <= StartOf(items, q).value
  }

  /** No word item from index `i` on starts in a minute before `m`. */
  predicate MinuteNotAfter(items: seq<Item>, i: nat, m: int) {
    forall q :: i <= q < |items| && items[q].kind == Pronunciation && StartOf(items, q).Success?
      ==> m <= StartOf(items, q).value / 60000
  }

  /** The ordering part of the loop invariant. */
  predicate Order(items: seq<Item>, i: nat, st: State) {
    && (forall k :: 0 <= k < |st.segments| - 1 ==> st.segments[k].minute < st.segments[k + 1].minute)
    && (st.segments != [] ==> st.segments[|st.segments| - 1].minute < st.currentMinute)
    && MinuteNotAfter(items, i, st.currentMinute)
    && (st.sentenceStart.Some? ==> NotAfter(items, i, st.sentenceStart.value))
    && (st.sentenceStart.Some? ==> st.currentMinute <= st.sentenceStart.value / 60000)
  }

  lemma MinuteMono(a: nat, b: nat)
    requires a <= b
    ensures a / 60000 <= b / 60000
  {
  }

  lemma MinuteFromStart(items: seq<Item>, i: nat, t: nat)
    requires NotAfter(items, i, t)
    ensures MinuteNotAfter(items, i, t / 60000)
  {
    forall q | i <= q < |items| && items[q].kind == Pronunciation && StartOf(items, q).Success?
      ensures t / 60000 <= StartOf(items, q).value / 60000
    {
      MinuteMono(t, StartOf(items, q).value);
    }
  }

  /** A sorted transcript: the start of the word at `i` bounds every later word's start. */
  lemma SortedFrom(items: seq<Item>, i: nat)
    requires StartsSorted(items) && i < |items| && items[i].kind == Pronunciation && StartOf(items, i).Success?
    ensures NotAfter(items, i, StartOf(items, i).value)
  {
  }

  // ---------------------------------------------------------------------------------------------
  // Taking an item
  // ---------------------------------------------------------------------------------------------

  /** The sentence start after a Take: unchanged, or the taken word's start when none was open. */
  lemma TakeStart(items: seq<Item>, i: nat, st: State)
    requires i < |items| && Take(items, i, st).Success?
    ensures var r := Take(items, i, st).value;
      && (items[i].kind == Punctuation || st.sentenceStart.Some? ==> r.1.sentenceStart == st.sentenceStart)
      && (items[i].kind == Pronunciation && st.sentenceStart.None? ==>
            StartOf(items, i).Success? && r.1.sentenceStart == Some(StartOf(items, i).value))
  {
    if items[i].kind == Pronunciation {
      TakeWord(items, i, st);
      var t := StartOf(items, i).value;
      AppendFacts(items, i, Open(st, Label(items[i]), t).(startTime := t));
    }
  }

  lemma OrderAfterTake(items: seq<Item>, i: nat, st: State, p: nat, st1: State)
    requires StartsSorted(items) && i < p && i < |items| && Order(items, i, st)
    requires st1.segments == st.segments && st1.currentMinute == st.currentMinute
    requires items[i].kind == Punctuation || st.sentenceStart.Some? ==> st1.sentenceStart == st.sentenceStart
    requires items[i].kind == Pronunciation && st.sentenceStart.None? ==>
      StartOf(items, i).Success? && st1.sentenceStart == Some(StartOf(items, i).value)
    ensures Order(items, p, st1)
  {
    if items[i].kind == Pronunciation && st.sentenceStart.None? {
      SortedFrom(items, i);
      var t := StartOf(items, i).value;
      assert st.currentMinute <= t / 60000;
    }
  }

  lemma TakeOrder(items: seq<Item>, i: nat, st: State)
    requires StartsSorted(items) && i < |items| && Order(items, i, st) && Take(items, i, st).Success?
    ensures var r := Take(items, i, st).value; Order(items, r.0 + 1, r.1)
  {
    var r := Take(items, i, st).value;
    TakeEntries(items, i, st);
    TakeStart(items, i, st);
    OrderAfterTake(items, i, st, r.0 + 1, r.1);
  }

  // ---------------------------------------------------------------------------------------------
  // Settling
  // ---------------------------------------------------------------------------------------------

  /** What emitting does to the minute and to the next sentence's start. */
  lemma EmitOrderFacts(items: seq<Item>, w: nat, j: nat, st: State, isChinese: bool, dec: EscapeDecoders)
    requires w <= j < |items| && Emit(items, w, j, st, isChinese, dec).Success?
    ensures st.sentenceStart.Some?
    ensures Emit(items, w, j, st, isChinese, dec).value.currentMinute == st.sentenceStart.value / 60000
    ensures var st2 := Emit(items, w, j, st, isChinese, dec).value;
      var closes := st.currentMinute != -1 && st.currentMinute != st2.currentMinute && st.minuteSegments != [];
      st2.segments == (if closes then st.segments + [MinuteSegment(st.currentMinute, st.minuteSegments)] else st.segments)
    ensures var st2 := Emit(items, w, j, st, isChinese, dec).value;
      st2.sentenceStart.Some? ==>
        && j + 1 < |items| && items[j + 1].kind == Pronunciation && StartOf(items, j + 1).Success?
        && st2.sentenceStart.value == StartOf(items, j + 1).value
  {
  }

  lemma OrderAfterEmit(items: seq<Item>, p: nat, st: State, st2: State)
    requires StartsSorted(items) && p <= |items| && Order(items, p, st) && Buckets(st)
    requires st.sentenceStart.Some? && st2.currentMinute == st.sentenceStart.value / 60000
    requires var closes := st.currentMinute != -1 && st.currentMinute != st2.currentMinute && st.minuteSegments != [];
      st2.segments == (if closes then st.segments + [MinuteSegment(st.currentMinute, st.minuteSegments)] else st.segments)
    requires st2.sentenceStart.Some? ==>
      && p < |items| && items[p].kind == Pronunciation && StartOf(items, p).Success?
      && st2.sentenceStart.value == StartOf(items, p).value
    ensures Order(items, p, st2)
  {
    var s := st.sentenceStart.value;
    MinuteFromStart(items, p, s);
    if st2.sentenceStart.Some? {
      SortedFrom(items, p);
      MinuteMono(s, st2.sentenceStart.value);
    }
    var closes := st.currentMinute != -1 && st.currentMinute != st2.currentMinute && st.minuteSegments != [];
    if closes {
      var n := |st.segments|;
      assert st2.segments[n].minute == st.currentMinute;
      forall k | 0 <= k < |st2.segments| - 1
        ensures st2.segments[k].minute < st2.segments[k + 1].minute
      {
        if k < n - 1 {
          assert st2.segments[k] == st.segments[k] && st2.segments[k + 1] == st.segments[k + 1];
        } else {
          assert st2.segments[k] == st.segments[n - 1];
        }
      }
    }
  }

  lemma SettleOrder(items: seq<Item>, w: nat, j: nat, st: State, isChinese: bool, dec: EscapeDecoders)
    requires StartsSorted(items) && w <= j < |items| && Order(items, j + 1, st) && Buckets(st)
    requires Settle(items, w, j, st, isChinese, dec).Success?
    ensures Order(items, j + 1, Settle(items, w, j, st, isChinese, dec).value)
  {
    if ShouldCut(items, j, st).value && st.sentence != [] {
      EmitOrderFacts(items, w, j, st, isChinese, dec);
      OrderAfterEmit(items, j + 1, st, Emit(items, w, j, st, isChinese, dec).value);
    }
  }

  // ---------------------------------------------------------------------------------------------
  // The whole pass
  // ---------------------------------------------------------------------------------------------

  lemma StepOrder(items: seq<Item>, i: nat, st: State, isChinese: bool, dec: EscapeDecoders)
    requires StartsSorted(items) && i < |items| && Order(items, i, st) && Output(st, isChinese, dec) && Buckets(st)
    requires Step(items, i, st, isChinese, dec).Success?
    ensures var s := Step(items, i, st, isChinese, dec).value; Order(items, s.0, s.1)
  {
    StepSplit(items, i, st, isChinese, dec);
    var r := Take(items, i, st).value;
    TakeOrder(items, i, st);
    TakeOutput(items, i, st, isChinese, dec);
    SettleOrder(items, i, r.0, r.1, isChinese, dec);
  }

  lemma {:induction false} RunOrder(items: seq<Item>, i: nat, st: State, isChinese: bool, dec: EscapeDecoders)
    requires StartsSorted(items) && i <= |items| && Inv(items, i, st, isChinese, dec) && Order(items, i, st)
    requires Run(items, i, st, isChinese, dec).Success?
    ensures Order(items, |items|, Run(items, i, st, isChinese, dec).value)
    decreases |items| - i
  {
    if i < |items| {
      StepInv(items, i, st, isChinese, dec);
      StepOrder(items, i, st, isChinese, dec);
      var s := Step(items, i, st, isChinese, dec).value;
      RunOrder(items, s.0, s.1, isChinese, dec);
    }
  }

  lemma FinishOrder(st: State)
    requires Order([], 0, st) && Buckets(st)
    ensures forall k :: 0 <= k < |Finish(st)| - 1 ==> Finish(st)[k].minute < Finish(st)[k + 1].minute
  {
    if st.minuteSegments != [] {
      var out := Finish(st);
      var n := |st.segments|;
      forall k | 0 <= k < |out| - 1
        ensures out[k].minute < out[k + 1].minute
      {
        if k < n - 1 {
          assert out[k] == st.segments[k] && out[k + 1] == st.segments[k + 1];
        } else {
          assert out[k] == st.segments[n - 1] && out[k + 1].minute == st.currentMinute;
        }
      }
    }
  }

  /** With start times that never decrease, the minute buckets come out in strictly increasing minutes. */
  lemma MinutesIncrease(items: seq<Item>, isChinese: bool, dec: EscapeDecoders)
    requires StartsSorted(items) && Segment(items, isChinese, dec).Success?
    ensures var out := Segment(items, isChinese, dec).value;
      forall k :: 0 <= k < |out| - 1 ==> out[k].minute < out[k + 1].minute
  {
    InitInv(items, isChinese, dec);
    RunInv(items, 0, Init(), isChinese, dec);
    RunOrder(items, 0, Init(), isChinese, dec);
    var st := Run(items, 0, Init(), isChinese, dec).value;
    FinishOrder(st);
  }
}
