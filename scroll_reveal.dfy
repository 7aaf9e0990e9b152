/**
 * The two hooks of hooks/useScrollReveal.ts.
 *
 * `useScrollReveal` scans every `[data-animate]` element in document
 * order, puts each into the hidden pose of its animation kind, and creates
 * one "play none none reverse" trigger per element whose tween runs to the
 * visible pose for 800 ms after a delay of 100 ms per position.
 * `useStaggerAnimation` hides every match of a selector and drives them
 * all from one trigger on the first match, element i starting i * delay
 * after it fires. The cleanup of either hook kills every ScrollTrigger on
 * the page.
 *
 * gsap itself is represented by the `Gsap` class: the calls the hooks make
 * into it, in order, and ScrollTrigger's global list of live triggers.
 */
module ScrollReveal {
  import opened Wrappers
  import opened ScrollTriggers

  /** The value of an element's `data-animate` attribute, as the switch reads it. */
  datatype Kind = FadeUp | FadeIn | SlideLeft | SlideRight | ScaleUp | DefaultKind

  /** The attribute value each named kind is selected by. */
  function KindName(k: Kind): string
  {
    match k
    case FadeUp => "fade-up"
    case FadeIn => "fade-in"
    case SlideLeft => "slide-left"
    case SlideRight => "slide-right"
    case ScaleUp => "scale"
    case DefaultKind => ""
  }

  /** Any attribute value other than the five names falls to the default case. */
  function KindOf(attr: string): (k: Kind)
    ensures k != DefaultKind ==> KindName(k) == attr
    ensures k == DefaultKind <==> attr !in ["fade-up", "fade-in", "slide-left", "slide-right", "scale"]
  {
    match attr
    case "fade-up" => FadeUp
    case "fade-in" => FadeIn
    case "slide-left" => SlideLeft
    case "slide-right" => SlideRight
    case "scale" => ScaleUp
    case _ => DefaultKind
  }

  /** Reading back the name of a named kind selects that kind. */
  lemma KindRoundTrip(k: Kind)
    requires k != DefaultKind
    ensures KindOf(KindName(k)) == k
  {
  }

  /** The style properties the hooks animate; y and x are pixel translations. */
  datatype Prop = Opacity | X | Y | Scale

  /** A set of property values, as passed to gsap.set or gsap.to. */
  type Pose = map<Prop, real>

  /** The value a property has when the element is at rest. */
  function RestValue(p: Prop): real
  {
    match p
    case Opacity => 1.0
    case X => 0.0
    case Y => 0.0
    case Scale => 1.0
  }

  /** The pose applied by gsap.set before the element's trigger exists. */
  function HiddenPose(k: Kind): (pose: Pose)
    ensures Opacity in pose && pose[Opacity] == 0.0
  {
    match k
    case FadeUp => map[Opacity := 0.0, Y := 50.0]
    case FadeIn => map[Opacity := 0.0]
    case SlideLeft => map[Opacity := 0.0, X := 50.0]
    case SlideRight => map[Opacity := 0.0, X := -50.0]
    case ScaleUp => map[Opacity := 0.0, Scale := 0.8]
    case DefaultKind => map[Opacity := 0.0, Y := 30.0]
  }

  /** The pose the element's tween runs to. */
  function VisiblePose(k: Kind): (pose: Pose)
    ensures pose.Keys == HiddenPose(k).Keys
    ensures forall p :: p in pose ==> pose[p] == RestValue(p)
    ensures pose[Opacity] == 1.0
  {
    match k
    case FadeUp => map[Opacity := 1.0, Y := 0.0]
    case FadeIn => map[Opacity := 1.0]
    case SlideLeft => map[Opacity := 1.0, X := 0.0]
    case SlideRight => map[Opacity := 1.0, X := 0.0]
    case ScaleUp => map[Opacity := 1.0, Scale := 1.0]
    case DefaultKind => map[Opacity := 1.0, Y := 0.0]
  }

  /**
   * The pose table: fade-in hides the element by opacity alone, every
   * other kind by opacity and the one offset below.
   */
  lemma PoseTable()
    ensures HiddenPose(FadeUp) == map[Opacity := 0.0, Y := 50.0]
    ensures HiddenPose(FadeIn) == map[Opacity := 0.0]
    ensures HiddenPose(SlideLeft) == map[Opacity := 0.0, X := 50.0]
    ensures HiddenPose(SlideRight) == map[Opacity := 0.0, X := -50.0]
    ensures HiddenPose(ScaleUp) == map[Opacity := 0.0, Scale := 0.8]
    ensures HiddenPose(DefaultKind) == map[Opacity := 0.0, Y := 30.0]
  {
  }

  type ElementId = nat

  /** A `[data-animate]` element: its identity and its attribute value. */
  datatype Element = Element(id: ElementId, animate: string)

  const TweenDurationMs := 800
  const RevealStepMs := 100

  /** A tween towards `to`, lasting `durationMs` and starting `delayMs` after its trigger plays it. */
  datatype Tween = Tween(to: Pose, durationMs: nat, delayMs: nat)

  datatype Member = Member(element: ElementId, tween: Tween)

  /**
   * One ScrollTrigger: the element whose box decides its region (absent
   * when a selector matched nothing), its lines, its toggle actions and the
   * tweens it controls.
   */
  datatype Registration = Registration(anchor: Option<ElementId>, band: Band, actions: ToggleActions, members: seq<Member>)

  /** The gsap calls the hooks issue. */
  datatype GsapCall = SetPose(element: ElementId, pose: Pose) | CreateTrigger(registration: Registration)

  /** The trigger created for the element at position `index` of the scan. */
  function RevealRegistration(e: Element, index: nat): (r: Registration)
    ensures r.anchor == Some(e.id) && r.band == RevealBand && r.actions == RevealToggle
    ensures |r.members| == 1 && r.members[0].element == e.id
    ensures r.members[0].tween.delayMs == index * 100
    ensures r.members[0].tween.durationMs == 800
    ensures r.members[0].tween.to.Keys == HiddenPose(KindOf(e.animate)).Keys
    ensures r.members[0].tween.to == VisiblePose(KindOf(e.animate)) && r.members[0].tween.to[Opacity] == 1.0
  {
    Registration(Some(e.id), RevealBand, RevealToggle,
      [Member(e.id, Tween(VisiblePose(KindOf(e.animate)), TweenDurationMs, index * RevealStepMs))])
  }

  /** The calls issued for one scanned element: first hide it, then create its trigger. */
  function RevealStep(e: Element, index: nat): seq<GsapCall>
  {
    [SetPose(e.id, HiddenPose(KindOf(e.animate))), CreateTrigger(RevealRegistration(e, index))]
  }

  /** The calls issued by a scan of `es`, in document order. */
  function RevealCalls(es: seq<Element>): seq<GsapCall>
    decreases |es|
  {
    if es == [] then []
    else RevealCalls(es[..|es| - 1]) + RevealStep(es[|es| - 1], |es| - 1)
  }

  /** The triggers created by a scan of `es`, in document order. */
  function RevealRegistrations(es: seq<Element>): seq<Registration>
  {
    seq(|es|, i requires 0 <= i < |es| => RevealRegistration(es[i], i))
  }

  /**
   * Position 2i of a scan's calls hides element i, position 2i+1 creates its
   * trigger, whose delay is i * 100 ms: the index counts every
   * `[data-animate]` element of the page, not of one section.
   */
  lemma {:induction false} RevealCallsAt(es: seq<Element>, i: nat)
    requires i < |es|
    ensures |RevealCalls(es)| == 2 * |es|
    ensures RevealCalls(es)[2 * i] == SetPose(es[i].id, HiddenPose(KindOf(es[i].animate)))
    ensures RevealCalls(es)[2 * i + 1] == CreateTrigger(RevealRegistration(es[i], i))
    decreases |es|
  {
    var n := |es| - 1;
    var init := es[..n];
    RevealCallsLength(init);
    if i < n {
      RevealCallsAt(init, i);
      assert init[i] == es[i];
    }
  }

  lemma {:induction false} RevealCallsLength(es: seq<Element>)
    ensures |RevealCalls(es)| == 2 * |es|
    decreases |es|
  {
    if es != [] {
      RevealCallsLength(es[..|es| - 1]);
    }
  }

  /**
   * Whenever a scan creates a trigger, the call just before it has already
   * put that trigger's element into its hidden pose, whose opacity is 0.
   */
  lemma HiddenBeforeTrigger(es: seq<Element>, j: nat)
    requires j < |RevealCalls(es)| && RevealCalls(es)[j].CreateTrigger?
    ensures j > 0
    ensures RevealCalls(es)[j].registration.anchor.Some?
    ensures var e := RevealCalls(es)[j].registration.anchor.value;
            exists k :: RevealCalls(es)[j - 1] == SetPose(e, HiddenPose(k))
    ensures RevealCalls(es)[j - 1].SetPose? && RevealCalls(es)[j - 1].pose[Opacity] == 0.0
  {
    RevealCallsLength(es);
    var i := j / 2;
    RevealCallsAt(es, i);
    assert j == 2 * i + 1;
  }

  /** The pose every match of a stagger selector is put in, and the one it runs to. */
  const StaggerFrom: Pose := map[Opacity := 0.0, Y := 50.0]
  const StaggerTo: Pose := map[Opacity := 1.0, Y := 0.0]

  /**
   * The single trigger created by `useStaggerAnimation(selector, delay)`
   * on `matches`: on the first match, from "top 80%" to the default end,
   * with the default toggle actions, and one 800 ms tween per match to
   * {opacity 1, y 0}, match i delayed by i * delay.
   */
  function StaggerRegistration(matches: seq<ElementId>, delayMs: nat): (r: Registration)
    ensures r.anchor.Some? <==> matches != []
    ensures matches != [] ==> r.anchor.value == matches[0]
    ensures r.band.startPct == 80 && r.band.endPct == 0
    ensures r.actions == ToggleActions(Play, NoAction, NoAction, NoAction)
    ensures |r.members| == |matches|
    ensures forall i :: 0 <= i < |matches| ==>
              && r.members[i].element == matches[i]
              && r.members[i].tween.to == map[Opacity := 1.0, Y := 0.0]
              && r.members[i].tween.durationMs == 800
              && r.members[i].tween.delayMs == i * delayMs
  {
    Registration(
      if matches == [] then None else Some(matches[0]),
      StaggerBand, DefaultToggle,
      seq(|matches|, i requires 0 <= i < |matches| => Member(matches[i], Tween(StaggerTo, TweenDurationMs, i * delayMs))))
  }

  /** gsap.fromTo renders its from-values {opacity 0, y 50} on every match at once, then registers its trigger. */
  function StaggerCalls(matches: seq<ElementId>, delayMs: nat): (cs: seq<GsapCall>)
    ensures |cs| == |matches| + 1
    ensures forall i :: 0 <= i < |matches| ==> cs[i] == SetPose(matches[i], map[Opacity := 0.0, Y := 50.0])
    ensures cs[|matches|].CreateTrigger? && cs[|matches|].registration == StaggerRegistration(matches, delayMs)
  {
    seq(|matches|, i requires 0 <= i < |matches| => SetPose(matches[i], StaggerFrom))
      + [CreateTrigger(StaggerRegistration(matches, delayMs))]
  }

  /**
   * Every element the stagger trigger animates has been put at opacity 0
   * by an earlier call of the same effect.
   */
  lemma StaggerHiddenBeforeTrigger(matches: seq<ElementId>, delayMs: nat, i: nat)
    requires i < |StaggerRegistration(matches, delayMs).members|
    ensures var cs := StaggerCalls(matches, delayMs);
            var el := StaggerRegistration(matches, delayMs).members[i].element;
            exists j :: 0 <= j < |cs| - 1 && cs[j].SetPose? && cs[j].element == el && cs[j].pose[Opacity] == 0.0
  {
    var cs := StaggerCalls(matches, delayMs);
    assert cs[i].SetPose? && cs[i].element == matches[i];
  }

  /** When the member tweens of a trigger fired at `fireMs` start. */
  function StartTimes(fireMs: int, r: Registration): (ts: seq<int>)
    ensures |ts| == |r.members|
  {
    seq(|r.members|, i requires 0 <= i < |r.members| => fireMs + r.members[i].tween.delayMs)
  }

  /**
   * Match i starts i * delay after the one shared trigger fires, whether or
   * not it is itself in view, and the trigger belongs to the first match
   * and never reverses.
   */
  lemma StaggerSchedule(matches: seq<ElementId>, delayMs: nat, fireMs: int, i: nat)
    requires i < |matches|
    ensures StaggerRegistration(matches, delayMs).anchor == Some(matches[0])
    ensures StaggerRegistration(matches, delayMs).actions.onLeaveBack == NoAction
    ensures StaggerRegistration(matches, delayMs).members[i].element == matches[i]
    ensures StartTimes(fireMs, StaggerRegistration(matches, delayMs))[i] == fireMs + i * delayMs
  {
  }

  /** The example cascade: three matches, 200 ms apart, fired at 5000 ms. */
  lemma StaggerExample(a: ElementId, b: ElementId, c: ElementId)
    ensures StartTimes(5000, StaggerRegistration([a, b, c], 200)) == [5000, 5200, 5400]
  {
  }

  /**
   * Over any scroll history after creation, a scanned element's tween is
   * heading to the visible pose exactly when the element is past its
   * start line, and each downward crossing of that line replays it.
   */
  lemma RevealTriggerBehaviour(e: Element, index: nat, sc: Scene, y0: int, ys: seq<int>)
    ensures var r := RevealRegistration(e, index);
            var s0 := Create(r.actions, r.band, sc, y0);
            var s := Replay(r.actions, r.band, sc, s0, ys);
            && (s.region != Before <==> s.playback.direction == Forward)
            && s.playback.forwardRuns == s0.playback.forwardRuns + StartCrossings(RevealBand, sc, s0.region, ys)
  {
    var s := TriggerState(Before, Paused);
    RevealMovePreserves(sc, s, y0);
    RevealReplay(sc, Move(RevealToggle, RevealBand, sc, s, y0), ys);
  }

  /** However often the first match re-enters, the stagger trigger plays its cascade at most once. */
  lemma StaggerPlaysOnce(matches: seq<ElementId>, delayMs: nat, sc: Scene, y0: int, ys: seq<int>)
    ensures var r := StaggerRegistration(matches, delayMs);
            Replay(r.actions, r.band, sc, Create(r.actions, r.band, sc, y0), ys).playback.forwardRuns <= 1
  {
    var s := TriggerState(Before, Paused);
    PlayOnceMovePreserves(StaggerBand, sc, s, y0);
    PlayOnceReplay(StaggerBand, sc, Move(DefaultToggle, StaggerBand, sc, s, y0), ys);
  }

  /**
   * gsap's state as the hooks see it: every call made into it, in order,
   * and ScrollTrigger's global list of live triggers (what
   * `ScrollTrigger.getAll()` returns).
   */
  class Gsap {
    var calls: seq<GsapCall>
    var live: seq<Registration>

    constructor ()
      ensures calls == [] && live == []
    {
      calls := [];
      live := [];
    }

    /**
     * The mount effect of `useScrollReveal`, given the page's
     * `[data-animate]` elements in document order; returns what the hook's
     * ref then holds.
     */
    method UseScrollReveal(page: seq<Element>) returns (scanned: seq<Element>)
      modifies this
      ensures scanned == page
      ensures calls == old(calls) + RevealCalls(page)
      ensures live == old(live) + RevealRegistrations(page)
    {
      scanned := page;
      var index := 0;
      while index < |scanned|
        invariant 0 <= index <= |scanned|
        invariant calls == old(calls) + RevealCalls(scanned[..index])
        invariant live == old(live) + RevealRegistrations(scanned[..index])
      {
        var element := scanned[index];
        var kind := KindOf(element.animate);
        calls := calls + [SetPose(element.id, HiddenPose(kind))];
        var registration := Registration(Some(element.id), RevealBand, RevealToggle,
          [Member(element.id, Tween(VisiblePose(kind), TweenDurationMs, index * RevealStepMs))]);
        calls := calls + [CreateTrigger(registration)];
        live := live + [registration];
        assert scanned[..index + 1][..index] == scanned[..index];
        assert RevealRegistrations(scanned[..index + 1]) == RevealRegistrations(scanned[..index]) + [registration];
        index := index + 1;
      }
      assert scanned[..|scanned|] == scanned;
    }

    /** The mount effect of `useStaggerAnimation(selector, delay)`, given the selector's matches. */
    method UseStaggerAnimation(matches: seq<ElementId>, delayMs: nat)
      modifies this
      ensures calls == old(calls) + StaggerCalls(matches, delayMs)
      ensures live == old(live) + [StaggerRegistration(matches, delayMs)]
    {
      calls := calls + StaggerCalls(matches, delayMs);
      live := live + [StaggerRegistration(matches, delayMs)];
    }

    /**
     * The cleanup of either hook: every live trigger is killed, including
     * those the other hook created; styles already set stay as they are.
     */
    method KillAll()
      modifies this
      ensures live == []
      ensures calls == old(calls)
    {
      live := [];
    }
  }
}
