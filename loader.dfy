/**
 * The splash screen of components/Loader.tsx: a 3 s gsap timeline whose
 * progress drives a percentage, a status message chosen by thresholds, and
 * a completion that hides the overlay and calls the parent's `onComplete`
 * 500 ms later.
 *
 * The timeline, the timeout and React's effect lifecycle are events fed to
 * a state machine (`Step`); the `Loader` class holds the same state as
 * fields and applies one event per method.
 */
module Loader {
  import opened Wrappers

  const TimelineMs := 3000
  const GraceMs := 500

  /** The four status messages, from the earliest stage to the last. */
  const StatusTexts: seq<string> :=
    ["Loading 3D models...", "Initializing animations...", "Preparing experience...", "Almost ready!"]

  /** `Math.round(p * 100)`: JavaScript rounds halves upwards. */
  function ProgressPercent(p: real): (r: int)
    requires 0.0 <= p <= 1.0
    ensures 0 <= r <= 100
    ensures r as real - 0.5 <= 100.0 * p < r as real + 0.5
  {
    (100.0 * p + 0.5).Floor
  }

  /** A later point of the timeline never shows a smaller percentage. */
  lemma ProgressMonotone(p: real, q: real)
    requires 0.0 <= p <= q <= 1.0
    ensures ProgressPercent(p) <= ProgressPercent(q)
  {
  }

  /** The messages the four guarded expressions render for `progress`, in order. */
  function Messages(progress: int): (ms: seq<string>)
    ensures |ms| == 1 && ms[0] in StatusTexts
  {
    (if progress < 30 then [StatusTexts[0]] else [])
    + (if progress >= 30 && progress < 60 then [StatusTexts[1]] else [])
    + (if progress >= 60 && progress < 90 then [StatusTexts[2]] else [])
    + (if progress >= 90 then [StatusTexts[3]] else [])
  }

  /** Which of the four stages a percentage belongs to. */
  function Stage(progress: int): (k: nat)
    ensures k < 4 && Messages(progress) == [StatusTexts[k]]
  {
    if progress < 30 then 0 else if progress < 60 then 1 else if progress < 90 then 2 else 3
  }

  /** The stages change exactly at 30, 60 and 90, and never go back as the percentage grows. */
  lemma StageBoundaries(p: int, q: int)
    requires p <= q
    ensures Stage(p) <= Stage(q)
    ensures Messages(29) == ["Loading 3D models..."] && Messages(30) == ["Initializing animations..."]
    ensures Messages(59) == ["Initializing animations..."] && Messages(60) == ["Preparing experience..."]
    ensures Messages(89) == ["Preparing experience..."] && Messages(90) == ["Almost ready!"]
  {
    assert Stage(29) == 0 && Stage(30) == 1 && Stage(59) == 1;
    assert Stage(60) == 2 && Stage(89) == 2 && Stage(90) == 3;
  }

  datatype Timeline = Running | Finished | Killed

  /**
   * The state cells `progress` and `isComplete`, the current timeline, the
   * `onComplete` timeouts scheduled and not yet run, the `onComplete` calls
   * made, and whether the component is mounted.
   */
  datatype LoaderState = LoaderState(
    progress: int, isComplete: bool, timeline: Timeline,
    scheduled: nat, delivered: nat, mounted: bool)

  /** The state right after the first render and its effect. */
  const Initial := LoaderState(0, false, Running, 0, 0, true)

  datatype Event =
    | Update(p: real)      // the timeline's onUpdate, at progress p
    | TimelineDone         // the timeline's onComplete, 3 s after it started
    | GraceElapsed         // a 500 ms onComplete timeout runs
    | CallbackChanged      // a re-render with a new onComplete re-runs the effect
    | Unmount              // the effect's cleanup on unmount

  predicate WellFormed(e: Event)
  {
    e.Update? ==> 0.0 <= e.p <= 1.0
  }

  function Step(s: LoaderState, e: Event): (t: LoaderState)
    requires WellFormed(e)
    ensures t.delivered >= s.delivered
    ensures t.isComplete && !s.isComplete ==> e == TimelineDone && s.timeline == Running && s.mounted
    ensures t.delivered > s.delivered ==> e == GraceElapsed && s.scheduled > 0
    ensures s.isComplete ==> t.isComplete
  {
    match e
    case Update(p) =>
      if s.mounted && s.timeline == Running then s.(progress := ProgressPercent(p)) else s
    case TimelineDone =>
      if s.mounted && s.timeline == Running
      then s.(isComplete := true, timeline := Finished, scheduled := s.scheduled + 1)
      else s
    case GraceElapsed =>
      if s.scheduled > 0 then s.(scheduled := s.scheduled - 1, delivered := s.delivered + 1) else s
    case CallbackChanged =>
      if s.mounted then s.(timeline := Running) else s
    case Unmount =>
      s.(mounted := false, timeline := Killed)
  }

  predicate AllWellFormed(es: seq<Event>)
  {
    forall i :: 0 <= i < |es| ==> WellFormed(es[i])
  }

  function Run(s: LoaderState, es: seq<Event>): LoaderState
    requires AllWellFormed(es)
    decreases |es|
  {
    if es == [] then s else Run(Step(s, es[0]), es[1..])
  }

  lemma {:induction false} RunConcat(s: LoaderState, es: seq<Event>, fs: seq<Event>)
    requires AllWellFormed(es) && AllWellFormed(fs)
    ensures AllWellFormed(es + fs)
    ensures Run(s, es + fs) == Run(Run(s, es), fs)
    decreases |es|
  {
    if es == [] {
      assert es + fs == fs;
    } else {
      assert (es + fs)[1..] == es[1..] + fs;
      RunConcat(Step(s, es[0]), es[1..], fs);
    }
  }

  /** The displayed part of the overlay: bar width and label in percent, and the status messages. */
  datatype Overlay = Overlay(barWidthPct: int, labelPct: int, messages: seq<string>)

  /** The overlay is rendered exactly while the loader is not complete; bar and label show the same value. */
  function Render(s: LoaderState): (r: Option<Overlay>)
    ensures r.Some? <==> !s.isComplete
    ensures r.Some? ==> r.value.barWidthPct == s.progress && r.value.labelPct == s.progress
    ensures r.Some? ==> |r.value.messages| == 1
  {
    if s.isComplete then None else Some(Overlay(s.progress, s.progress, Messages(s.progress)))
  }

  /**
   * While the parent keeps its `onComplete`, the callback is scheduled or
   * delivered exactly once if the loader has completed and not at all
   * otherwise, and a running timeline means the loader is not complete.
   */
  ghost predicate OnceInvariant(s: LoaderState)
  {
    && s.scheduled + s.delivered == (if s.isComplete then 1 else 0)
    && (s.timeline == Running ==> !s.isComplete)
    && 0 <= s.progress <= 100
  }

  /**
   * The parent may hand a new `onComplete` at any re-render; the one-shot
   * guarantee needs only that every such change reaches the loader before
   * it has completed.
   */
  ghost predicate RestartsBeforeCompletion(s: LoaderState, es: seq<Event>)
    requires AllWellFormed(es)
    decreases |es|
  {
    es == [] ||
    ((es[0] == CallbackChanged ==> !s.isComplete) && RestartsBeforeCompletion(Step(s, es[0]), es[1..]))
  }

  /** A stable parent callback restarts nothing. */
  lemma {:induction false} StableCallbackRestartsEarly(s: LoaderState, es: seq<Event>)
    requires AllWellFormed(es) && CallbackChanged !in es
    ensures RestartsBeforeCompletion(s, es)
    decreases |es|
  {
    if es != [] {
      assert CallbackChanged !in es[1..];
      StableCallbackRestartsEarly(Step(s, es[0]), es[1..]);
    }
  }

  lemma {:induction false} OnceInvariantRun(s: LoaderState, es: seq<Event>)
    requires AllWellFormed(es) && OnceInvariant(s)
    requires RestartsBeforeCompletion(s, es)
    ensures OnceInvariant(Run(s, es))
    decreases |es|
  {
    if es != [] {
      OnceInvariantRun(Step(s, es[0]), es[1..]);
    }
  }

  /** From any state keeping the invariant, with every restart before completion, `onComplete` runs at most once and only after completion. */
  lemma OnceFrom(s: LoaderState, es: seq<Event>)
    requires AllWellFormed(es) && OnceInvariant(s) && RestartsBeforeCompletion(s, es)
    ensures Run(s, es).delivered <= 1
    ensures Run(s, es).delivered == 1 ==> Run(s, es).isComplete
    ensures Run(s, es).isComplete <==> Run(s, es).scheduled + Run(s, es).delivered == 1
  {
    OnceInvariantRun(s, es);
  }

  /**
   * From the first render, as long as the parent changes its callback only
   * while the loader is still running, `onComplete` runs at most once and
   * only after completion.
   */
  lemma CompletionCalledOnce(es: seq<Event>)
    requires AllWellFormed(es) && RestartsBeforeCompletion(Initial, es)
    ensures Run(Initial, es).delivered <= 1
    ensures Run(Initial, es).delivered == 1 ==> Run(Initial, es).isComplete
    ensures Run(Initial, es).isComplete <==> Run(Initial, es).scheduled + Run(Initial, es).delivered == 1
  {
    OnceFrom(Initial, es);
  }

  /** A scroll during the splash re-renders the page with a new callback; the loader still calls it once. */
  lemma RestartDuringSplash()
    ensures var es := [Update(0.5), CallbackChanged, Update(0.2), TimelineDone, GraceElapsed];
            AllWellFormed(es) && RestartsBeforeCompletion(Initial, es) && Run(Initial, es).delivered == 1
  {
    var es := [Update(0.5), CallbackChanged, Update(0.2), TimelineDone, GraceElapsed];
    assert es[1..] == [CallbackChanged, Update(0.2), TimelineDone, GraceElapsed];
    assert es[2..] == [Update(0.2), TimelineDone, GraceElapsed];
    assert es[3..] == [TimelineDone, GraceElapsed];
    assert es[4..] == [GraceElapsed];
    CompletionCalledOnce(es);
  }

  /**
   * A new callback during the 500 ms grace window restarts the timeline,
   * but the pending timeout calls the old callback, whose effect unmounts
   * the loader before the new timeline can end: still exactly one call.
   */
  lemma LateRestartUnmounted()
    ensures var es := [TimelineDone, CallbackChanged, GraceElapsed, Unmount];
            AllWellFormed(es) && Run(Initial, es).delivered == 1 && Run(Initial, es).scheduled == 0
            && Run(Initial, es).timeline == Killed
  {
    var es := [TimelineDone, CallbackChanged, GraceElapsed, Unmount];
    assert es[1..] == [CallbackChanged, GraceElapsed, Unmount];
    assert es[2..] == [GraceElapsed, Unmount];
    assert es[3..] == [Unmount];
  }

  /** An unmounted loader with nothing scheduled never changes again. */
  lemma {:induction false} UnmountedIsFrozen(s: LoaderState, es: seq<Event>)
    requires AllWellFormed(es) && !s.mounted && s.timeline == Killed && s.scheduled == 0
    ensures Run(s, es) == s
    decreases |es|
  {
    if es != [] {
      UnmountedIsFrozen(Step(s, es[0]), es[1..]);
    }
  }

  /**
   * Cleanup while the timeline is still running kills it: whatever happens
   * afterwards, the loader never completes and `onComplete` is never called.
   */
  lemma CleanupFrom(s: LoaderState, pre: seq<Event>, post: seq<Event>)
    requires AllWellFormed(pre) && AllWellFormed(post)
    requires OnceInvariant(s) && !s.isComplete && RestartsBeforeCompletion(s, pre)
    requires Run(s, pre).timeline == Running
    ensures AllWellFormed(pre + [Unmount] + post)
    ensures !Run(s, pre + [Unmount] + post).isComplete
    ensures Run(s, pre + [Unmount] + post).delivered == 0
  {
    OnceInvariantRun(s, pre);
    var r := Run(s, pre);
    RunConcat(s, pre, [Unmount]);
    assert [Unmount][1..] == [];
    RunConcat(s, pre + [Unmount], post);
    UnmountedIsFrozen(Step(r, Unmount), post);
  }

  /** From the first render: cleanup before the 3 s timeline ends means no completion and no call, even after restarts. */
  lemma CleanupBeforeEnd(pre: seq<Event>, post: seq<Event>)
    requires AllWellFormed(pre) && AllWellFormed(post) && RestartsBeforeCompletion(Initial, pre)
    requires Run(Initial, pre).timeline == Running
    ensures AllWellFormed(pre + [Unmount] + post)
    ensures !Run(Initial, pre + [Unmount] + post).isComplete
    ensures Run(Initial, pre + [Unmount] + post).delivered == 0
  {
    CleanupFrom(Initial, pre, post);
  }

  /** The grace timeout is not cleared: unmounting during the 500 ms window still calls `onComplete`. */
  lemma GraceSurvivesUnmount(s: LoaderState)
    requires s.scheduled > 0
    ensures Step(Step(s, Unmount), GraceElapsed).delivered == s.delivered + 1
    ensures Run(Initial, [TimelineDone, Unmount, GraceElapsed]).delivered == 1
  {
  }

  /**
   * A new `onComplete` identity kills the old timeline and starts another,
   * whose first update shows 0 %; even after completion that new timeline
   * schedules `onComplete` a second time when it ends.
   */
  lemma CallbackChangeRestarts(s: LoaderState)
    requires s.mounted
    ensures Step(s, CallbackChanged).timeline == Running
    ensures Step(Step(s, CallbackChanged), Update(0.0)).progress == 0
    ensures Run(Initial, [TimelineDone, CallbackChanged, TimelineDone]).scheduled == 2
  {
  }

  /** The component's state cells, together with the timeline and timeout bookkeeping. */
  class Loader {
    var progress: int
    var isComplete: bool
    var timeline: Timeline
    var scheduled: nat
    var delivered: nat
    var mounted: bool

    function State(): LoaderState
      reads this
    {
      LoaderState(progress, isComplete, timeline, scheduled, delivered, mounted)
    }

    /** First render, then the effect creates the timeline. */
    constructor ()
      ensures State() == Initial
    {
      progress, isComplete, timeline := 0, false, Running;
      scheduled, delivered, mounted := 0, 0, true;
    }

    /** The timeline's onUpdate. */
    method OnUpdate(p: real)
      requires 0.0 <= p <= 1.0
      modifies this
      ensures State() == Step(old(State()), Update(p))
      ensures old(mounted && timeline == Running) ==> progress == ProgressPercent(p)
    {
      if mounted && timeline == Running {
        progress := ProgressPercent(p);
      }
    }

    /** The timeline's onComplete: hide the overlay, schedule the parent's callback. */
    method OnTimelineComplete()
      modifies this
      ensures State() == Step(old(State()), TimelineDone)
    {
      if mounted && timeline == Running {
        isComplete := true;
        timeline := Finished;
        scheduled := scheduled + 1;
      }
    }

    /** A 500 ms timeout runs the parent's callback. */
    method OnGraceTimeout()
      modifies this
      ensures State() == Step(old(State()), GraceElapsed)
    {
      if scheduled > 0 {
        scheduled := scheduled - 1;
        delivered := delivered + 1;
      }
    }

    /** The effect re-runs for a new `onComplete`: kill the timeline, create a fresh one. */
    method OnCallbackChanged()
      modifies this
      ensures State() == Step(old(State()), CallbackChanged)
    {
      if mounted {
        timeline := Running;
      }
    }

    /** The cleanup on unmount kills the timeline and leaves the timeouts alone. */
    method Cleanup()
      modifies this
      ensures State() == Step(old(State()), Unmount)
    {
      mounted := false;
      timeline := Killed;
    }
  }
}
