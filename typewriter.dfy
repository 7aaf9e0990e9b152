/**
 * `TypewriterText` of components/Hero3D.tsx: an interval of 50 ms whose
 * callback shows one more character of a fixed sentence per tick and
 * clears itself on the first tick after the sentence is complete.
 */
module Typewriter {

  const FullText: string := "We craft performant, animated, and futuristic web experiences."
  const TickMs := 50

  /** The local `index`, the `text` state cell, and whether the interval is still set. */
  datatype TypewriterState = TypewriterState(index: nat, text: string, running: bool)

  const Start := TypewriterState(0, "", true)

  /** One run of the interval callback over the sentence `full`. */
  function Tick(full: string, s: TypewriterState): (t: TypewriterState)
    ensures !s.running ==> t == s
    ensures s.running && s.index < |full| && s.text == full[..s.index] ==>
              t.index == s.index + 1 && t.text == s.text + [full[s.index]] && t.running
    ensures s.running && s.index >= |full| ==> t == s.(running := false)
  {
    if !s.running then s
    else if s.index < |full| then TypewriterState(s.index + 1, full[..s.index + 1], true)
    else s.(running := false)
  }

  function Ticks(full: string, s: TypewriterState, n: nat): TypewriterState
    decreases n
  {
    if n == 0 then s else Tick(full, Ticks(full, s, n - 1))
  }

  /**
   * After n ticks the text is the first min(n, |full|) characters, the
   * index never exceeds the sentence length, and the interval is still set
   * exactly up to the tick that finds the text complete.
   */
  lemma {:induction false} TicksFromStart(full: string, n: nat)
    ensures var m := if n <= |full| then n else |full|;
            Ticks(full, Start, n) == TypewriterState(m, full[..m], n <= |full|)
    decreases n
  {
    if n > 0 {
      TicksFromStart(full, n - 1);
    }
  }

  /** When the k-th character (counting from 0) first shows: at the (k+1)-th tick. */
  function ArrivalMs(k: nat): nat
  {
    TickMs * (k + 1)
  }

  /**
   * Character k is on screen after n ticks (n * 50 ms after mount) exactly
   * when ArrivalMs(k) has passed: the pace is fixed at one character per tick.
   */
  lemma CharShownAt(full: string, k: nat, n: nat)
    requires k < |full|
    ensures k < |Ticks(full, Start, n).text| <==> TickMs * n >= ArrivalMs(k)
    ensures k < |Ticks(full, Start, n).text| ==> Ticks(full, Start, n).text[k] == full[k]
  {
    TicksFromStart(full, n);
  }

  /**
   * The whole sentence is shown after |full| ticks; the interval is still
   * set then, and the next tick only clears it.
   */
  lemma TypewriterSchedule(full: string)
    ensures Ticks(full, Start, |full|) == TypewriterState(|full|, full, true)
    ensures Ticks(full, Start, |full| + 1) == TypewriterState(|full|, full, false)
  {
    TicksFromStart(full, |full|);
    TicksFromStart(full, |full| + 1);
    assert full[..|full|] == full;
  }

  /**
   * The page's sentence has 62 characters: its last one shows at 3100 ms,
   * and the interval is cleared by the tick at 3150 ms.
   */
  lemma FullTextTimes()
    ensures |FullText| == 62
    ensures |Ticks(FullText, Start, 61).text| == 61 && Ticks(FullText, Start, 62).text == FullText
    ensures ArrivalMs(61) == 3100 && TickMs * 62 == 3100
    ensures Ticks(FullText, Start, 62).running && !Ticks(FullText, Start, 63).running && TickMs * 63 == 3150
  {
    TicksFromStart(FullText, 61);
    TypewriterSchedule(FullText);
  }

  /** The component: the effect's `index`, the `text` cell and the interval handle. */
  class TypewriterText {
    const fullText: string
    var index: nat
    var text: string
    var running: bool

    function State(): TypewriterState
      reads this
    {
      TypewriterState(index, text, running)
    }

    ghost predicate Valid()
      reads this
    {
      index <= |fullText| && text == fullText[..index]
    }

    constructor ()
      ensures Valid() && fullText == FullText && State() == Start
    {
      fullText := FullText;
      index := 0;
      text := "";
      running := true;
    }

    /** The interval callback. */
    method OnTick()
      requires Valid()
      modifies this
      ensures Valid()
      ensures State() == Tick(fullText, old(State()))
    {
      if running {
        if index < |fullText| {
          text := fullText[..index + 1];
          index := index + 1;
        } else {
          running := false;
        }
      }
    }

    /** The effect's cleanup clears the interval. */
    method Unmount()
      modifies this
      ensures State() == old(State()).(running := false)
    {
      running := false;
    }
  }
}
