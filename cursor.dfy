/**
 * The pointer overlay of components/CustomCursor.tsx.
 *
 * Its state is the last pointer position, the hover flag and the
 * visibility flag. A mousemove only queues an animation frame; the frame
 * writes the position and shows the cursor. Hover listeners sit on the
 * interactive elements present at mount and on those found by every later
 * run of the mutation observer; the cleanup detaches only the first set.
 */
module Cursor {
  import opened Wrappers

  type ElementId = nat

  datatype Point = Point(x: int, y: int)

  /** A DOM element as the selector sees it: tag name (lower case) and attributes. */
  datatype DomElement = DomElement(id: ElementId, tag: string, attributes: map<string, string>)

  /** `button, a, [data-interactive], input, textarea, [role='button']`. */
  predicate IsInteractive(e: DomElement)
  {
    || e.tag in ["button", "a", "input", "textarea"]
    || "data-interactive" in e.attributes
    || ("role" in e.attributes && e.attributes["role"] == "button")
  }

  /** The elements `addHoverListeners` attaches to. */
  function InteractiveIds(doc: seq<DomElement>): (ids: set<ElementId>)
    ensures forall id :: id in ids <==> exists e :: e in doc && IsInteractive(e) && e.id == id
  {
    set e | e in doc && IsInteractive(e) :: e.id
  }

  /**
   * The state cells, the queue of pending animation-frame callbacks (the
   * positions they will write), the elements carrying hover listeners, the
   * elements of the first setup (the only ones cleanup detaches), and
   * whether the component is mounted.
   */
  datatype CursorState = CursorState(
    position: Point, isHovering: bool, isVisible: bool,
    frames: seq<Point>, listened: set<ElementId>, initial: set<ElementId>,
    mounted: bool)

  /** Mount: all cells at their defaults, listeners on the interactive elements of `doc`. */
  function Mount(doc: seq<DomElement>): (s: CursorState)
    ensures !s.isVisible && !s.isHovering && s.position == Point(0, 0)
    ensures s.listened == s.initial == InteractiveIds(doc)
  {
    CursorState(Point(0, 0), false, false, [], InteractiveIds(doc), InteractiveIds(doc), true)
  }

  datatype Event =
    | MouseMove(p: Point)               // document mousemove at client position p
    | AnimationFrame                    // the browser runs the queued frame callbacks
    | MouseOut                          // document mouseout
    | MouseEnter(target: ElementId)     // mouseenter on an element
    | MouseLeave(target: ElementId)     // mouseleave on an element
    | Mutation(doc: seq<DomElement>)    // the observer re-runs addHoverListeners on the new document
    | Teardown                          // the effect's cleanup

  function Last(ps: seq<Point>): Point
    requires ps != []
  {
    ps[|ps| - 1]
  }

  /**
   * One event. Once unmounted, React drops the state updates of every
   * handler still attached.
   */
  function Step(s: CursorState, e: Event): (t: CursorState)
    ensures e.MouseOut? && s.mounted ==> !t.isVisible
    ensures t.isHovering != s.isHovering ==>
              s.mounted && (e.MouseEnter? || e.MouseLeave?) && e.target in s.listened
    ensures t.initial == s.initial
  {
    if !s.mounted then s
    else match e
      case MouseMove(p) => s.(frames := s.frames + [p])
      case AnimationFrame =>
        if s.frames == [] then s else s.(position := Last(s.frames), isVisible := true, frames := [])
      case MouseOut => s.(isVisible := false)
      case MouseEnter(el) => if el in s.listened then s.(isHovering := true) else s
      case MouseLeave(el) => if el in s.listened then s.(isHovering := false) else s
      case Mutation(doc) => s.(listened := s.listened + InteractiveIds(doc))
      case Teardown =>
        // cancelAnimationFrame drops the latest frame; any earlier ones run
        // against an unmounted component and change nothing.
        s.(frames := [], listened := s.listened - s.initial, mounted := false)
  }

  function Run(s: CursorState, es: seq<Event>): CursorState
    decreases |es|
  {
    if es == [] then s else Run(Step(s, es[0]), es[1..])
  }

  predicate NoMove(es: seq<Event>)
  {
    forall i :: 0 <= i < |es| ==> !es[i].MouseMove?
  }

  /** Without any mousemove, no frame is ever queued and the cursor stays hidden at the origin. */
  lemma {:induction false} HiddenWithoutMove(s: CursorState, es: seq<Event>)
    requires !s.isVisible && s.frames == [] && s.position == Point(0, 0)
    requires NoMove(es)
    ensures !Run(s, es).isVisible && Run(s, es).position == Point(0, 0) && Run(s, es).frames == []
    decreases |es|
  {
    if es != [] {
      assert !es[0].MouseMove?;
      assert NoMove(es[1..]) by {
        forall i | 0 <= i < |es[1..]| ensures !es[1..][i].MouseMove? {
          assert es[1..][i] == es[i + 1];
        }
      }
      HiddenWithoutMove(Step(s, es[0]), es[1..]);
    }
  }

  predicate NoFrame(es: seq<Event>)
  {
    forall i :: 0 <= i < |es| ==> !es[i].AnimationFrame?
  }

  /** Moves only queue frames: until a frame runs, a hidden cursor stays hidden where it was. */
  lemma {:induction false} HiddenWithoutFrame(s: CursorState, es: seq<Event>)
    requires !s.isVisible && NoFrame(es)
    ensures !Run(s, es).isVisible && Run(s, es).position == s.position
    decreases |es|
  {
    if es != [] {
      assert NoFrame(es[1..]) by {
        forall i | 0 <= i < |es[1..]| ensures !es[1..][i].AnimationFrame? {
          assert es[1..][i] == es[i + 1];
        }
      }
      HiddenWithoutFrame(Step(s, es[0]), es[1..]);
    }
  }

  /**
   * The cursor stays hidden at the origin until a mousemove has been
   * queued and a frame has run after it: events with no move, followed by
   * events with no frame (moves included), leave it hidden.
   */
  lemma HiddenUntilFirstMove(s: CursorState, es1: seq<Event>, es2: seq<Event>)
    requires !s.isVisible && s.frames == [] && s.position == Point(0, 0)
    requires NoMove(es1) && NoFrame(es2)
    ensures !Run(s, es1 + es2).isVisible && Run(s, es1 + es2).position == Point(0, 0)
  {
    HiddenWithoutMove(s, es1);
    RunConcat(s, es1, es2);
    HiddenWithoutFrame(Run(s, es1), es2);
  }

  /** From mount, a move whose frame has not run yet followed by a mouseout leaves the cursor hidden. */
  lemma MoveThenOutStaysHidden(doc: seq<DomElement>, p: Point)
    ensures !Run(Mount(doc), [MouseMove(p), MouseOut]).isVisible
  {
    HiddenUntilFirstMove(Mount(doc), [], [MouseMove(p), MouseOut]);
    assert [] + [MouseMove(p), MouseOut] == [MouseMove(p), MouseOut];
  }

  /** A mouseout hides the cursor; the next move, once its frame runs, shows it at the new position. */
  lemma OutThenMove(s: CursorState, p: Point)
    requires s.mounted
    ensures !Step(s, MouseOut).isVisible
    ensures var t := Step(Step(Step(s, MouseOut), MouseMove(p)), AnimationFrame);
            t.isVisible && t.position == p
    ensures Step(s, MouseOut).isHovering == s.isHovering
  {
  }

  /** A move whose frame is still pending when the pointer leaves the page shows the cursor again after the mouseout. */
  lemma PendingFrameOutlivesMouseOut(s: CursorState, p: Point)
    requires s.mounted
    ensures Run(s, [MouseMove(p), MouseOut, AnimationFrame]).isVisible
  {
    var es := [MouseMove(p), MouseOut, AnimationFrame];
    var s1 := Step(s, MouseMove(p));
    var s2 := Step(s1, MouseOut);
    assert es[1..] == [MouseOut, AnimationFrame] && es[1..][1..] == [AnimationFrame];
    assert Run(s2, [AnimationFrame]) == Step(s2, AnimationFrame) by {
      assert [AnimationFrame][1..] == [];
    }
    assert s2.frames == s.frames + [p];
  }

  /** Enter, leave and observer re-runs are idempotent: repeating one changes nothing further. */
  lemma HoverIdempotent(s: CursorState, el: ElementId, doc: seq<DomElement>)
    ensures Step(Step(s, MouseEnter(el)), MouseEnter(el)) == Step(s, MouseEnter(el))
    ensures Step(Step(s, MouseLeave(el)), MouseLeave(el)) == Step(s, MouseLeave(el))
    ensures Step(Step(s, Mutation(doc)), Mutation(doc)) == Step(s, Mutation(doc))
  {
  }

  /** Whether an event sets the hover flag of a mounted cursor whose listeners cover `listened`. */
  predicate SetsHover(e: Event, listened: set<ElementId>)
  {
    (e.MouseEnter? || e.MouseLeave?) && e.target in listened
  }

  /** Events that leave the hover flag and the listener set alone. */
  predicate HoverNeutral(e: Event, listened: set<ElementId>)
  {
    !SetsHover(e, listened) && !e.Teardown? && !e.Mutation?
  }

  /**
   * No event of `es` is an enter or leave on an element listened at the
   * moment it arrives; observer runs and teardown are allowed.
   */
  predicate QuietAfter(s: CursorState, es: seq<Event>)
    decreases |es|
  {
    es == [] || (!SetsHover(es[0], s.listened) && QuietAfter(Step(s, es[0]), es[1..]))
  }

  /** Events on no listened element keep the hover flag, even across observer runs and teardown. */
  lemma {:induction false} HoverKeptQuiet(s: CursorState, es: seq<Event>)
    requires QuietAfter(s, es)
    ensures Run(s, es).isHovering == s.isHovering
    decreases |es|
  {
    if es != [] {
      HoverKeptQuiet(Step(s, es[0]), es[1..]);
    }
  }

  /** Events with no enter or leave at all are quiet, whatever the listeners. */
  lemma {:induction false} NoHoverEventIsQuiet(s: CursorState, es: seq<Event>)
    requires forall i :: 0 <= i < |es| ==> !es[i].MouseEnter? && !es[i].MouseLeave?
    ensures QuietAfter(s, es)
    decreases |es|
  {
    if es != [] {
      forall i | 0 <= i < |es[1..]| ensures !es[1..][i].MouseEnter? && !es[1..][i].MouseLeave? {
        assert es[1..][i] == es[i + 1];
      }
      NoHoverEventIsQuiet(Step(s, es[0]), es[1..]);
    }
  }

  /**
   * The hover flag is decided by the last enter or leave on a listened
   * element: the quiet events after it, observer re-runs and teardown
   * included, keep it.
   */
  lemma HoverFollowsLast(s: CursorState, e: Event, es: seq<Event>)
    requires s.mounted && SetsHover(e, s.listened) && QuietAfter(Step(s, e), es)
    ensures Run(s, [e] + es).isHovering == e.MouseEnter?
  {
    assert ([e] + es)[0] == e && ([e] + es)[1..] == es;
    HoverKeptQuiet(Step(s, e), es);
  }

  /** Re-attaching listeners after an enter does not end the hover. */
  lemma EnterSurvivesMutation(s: CursorState, el: ElementId, doc: seq<DomElement>, p: Point)
    requires s.mounted && el in s.listened
    ensures Run(s, [MouseEnter(el), Mutation(doc), MouseMove(p)]).isHovering
  {
    var es := [Mutation(doc), MouseMove(p)];
    NoHoverEventIsQuiet(Step(s, MouseEnter(el)), es);
    HoverFollowsLast(s, MouseEnter(el), es);
    assert [MouseEnter(el)] + es == [MouseEnter(el), Mutation(doc), MouseMove(p)];
  }

  lemma {:induction false} HoverKept(s: CursorState, es: seq<Event>)
    requires forall i :: 0 <= i < |es| ==> HoverNeutral(es[i], s.listened)
    ensures Run(s, es).isHovering == s.isHovering
    decreases |es|
  {
    if es != [] {
      var t := Step(s, es[0]);
      assert t.listened == s.listened;
      forall i | 0 <= i < |es[1..]| ensures HoverNeutral(es[1..][i], t.listened) {
        assert es[1..][i] == es[i + 1];
      }
      HoverKept(t, es[1..]);
    }
  }

  /** The interactive elements found by the observer runs among `es`. */
  function Observed(es: seq<Event>): (ids: set<ElementId>)
    ensures forall id :: id in ids <==>
              exists i :: 0 <= i < |es| && es[i].Mutation? && id in InteractiveIds(es[i].doc)
    decreases |es|
  {
    if es == [] then {}
    else (if es[0].Mutation? then InteractiveIds(es[0].doc) else {}) + Observed(es[1..])
  }

  predicate NoTeardown(es: seq<Event>)
  {
    forall i :: 0 <= i < |es| ==> !es[i].Teardown?
  }

  /**
   * Over any events, hover listeners sit only on elements that were
   * listened to already or that an observer run found interactive, and
   * the first setup's set never changes.
   */
  lemma {:induction false} ListenedOrigin(s: CursorState, es: seq<Event>)
    ensures Run(s, es).listened <= s.listened + Observed(es)
    ensures Run(s, es).initial == s.initial
    decreases |es|
  {
    if es != [] {
      ListenedOrigin(Step(s, es[0]), es[1..]);
    }
  }

  /** Until teardown, every observer run adds its interactive elements and nothing is detached. */
  lemma {:induction false} ListenedUntilTeardown(s: CursorState, es: seq<Event>)
    requires s.mounted && NoTeardown(es)
    ensures Run(s, es).listened == s.listened + Observed(es)
    ensures Run(s, es).mounted && Run(s, es).initial == s.initial
    decreases |es|
  {
    if es != [] {
      assert NoTeardown(es[1..]) by {
        forall i | 0 <= i < |es[1..]| ensures !es[1..][i].Teardown? {
          assert es[1..][i] == es[i + 1];
        }
      }
      ListenedUntilTeardown(Step(s, es[0]), es[1..]);
    }
  }

  lemma {:induction false} RunConcat(s: CursorState, es: seq<Event>, fs: seq<Event>)
    ensures Run(s, es + fs) == Run(Run(s, es), fs)
    decreases |es|
  {
    if es == [] {
      assert es + fs == fs;
    } else {
      assert (es + fs)[1..] == es[1..] + fs;
      RunConcat(Step(s, es[0]), es[1..], fs);
    }
  }

  /**
   * From mount, a hover change is caused only by an enter or leave on an
   * element that matched the selector at mount or in an earlier observer run.
   */
  lemma HoverOnlyFromInteractive(doc0: seq<DomElement>, es: seq<Event>, e: Event)
    requires Step(Run(Mount(doc0), es), e).isHovering != Run(Mount(doc0), es).isHovering
    ensures (e.MouseEnter? || e.MouseLeave?) && e.target in InteractiveIds(doc0) + Observed(es)
  {
    ListenedOrigin(Mount(doc0), es);
  }

  /**
   * After teardown, hover listeners remain exactly on the elements found
   * by the observer runs before it that were not present at the first
   * setup, whatever the number of runs.
   */
  lemma TeardownLeavesLaterListeners(doc0: seq<DomElement>, es: seq<Event>)
    requires NoTeardown(es)
    ensures var s := Run(Mount(doc0), es + [Teardown]);
            s.listened == Observed(es) - InteractiveIds(doc0) && !s.mounted
  {
    ListenedUntilTeardown(Mount(doc0), es);
    RunConcat(Mount(doc0), es, [Teardown]);
    assert [Teardown][1..] == [];
  }

  /** A drawn sprite: translation in pixels, scale, opacity. */
  datatype Sprite = Sprite(x: int, y: int, scale: real, opacity: real)

  datatype CursorView = CursorView(main: Sprite, glow: Sprite)

  /**
   * Rendering: nothing while hidden; otherwise the 24 px dot centred on
   * the pointer and the 40 px glow behind it, sized by the hover flag.
   */
  function Render(s: CursorState): (v: Option<CursorView>)
    ensures v.Some? <==> s.isVisible
    ensures v.Some? ==> v.value.main.x == s.position.x - 12 && v.value.main.y == s.position.y - 12
    ensures v.Some? ==> v.value.glow.x == s.position.x - 20 && v.value.glow.y == s.position.y - 20
    ensures v.Some? ==> v.value.main.scale == (if s.isHovering then 1.5 else 1.0)
    ensures v.Some? ==> v.value.glow.scale == (if s.isHovering then 2.0 else 1.0)
    ensures v.Some? ==> v.value.glow.opacity == (if s.isHovering then 0.3 else 0.1)
  {
    if !s.isVisible then None
    else
      var hover := s.isHovering;
      Some(CursorView(
        Sprite(s.position.x - 12, s.position.y - 12, if hover then 1.5 else 1.0, 1.0),
        Sprite(s.position.x - 20, s.position.y - 20, if hover then 2.0 else 1.0, if hover then 0.3 else 0.1)))
  }

  /** The component: its state cells and the effect's bookkeeping, one handler per method. */
  class CustomCursor {
    var position: Point
    var isHovering: bool
    var isVisible: bool
    var frames: seq<Point>
    var listened: set<ElementId>
    var initial: set<ElementId>
    var mounted: bool

    function State(): CursorState
      reads this
    {
      CursorState(position, isHovering, isVisible, frames, listened, initial, mounted)
    }

    constructor (doc: seq<DomElement>)
      ensures State() == Mount(doc)
    {
      position, isHovering, isVisible := Point(0, 0), false, false;
      frames := [];
      listened, initial := InteractiveIds(doc), InteractiveIds(doc);
      mounted := true;
    }

    /** `updateMousePosition`: request a frame that writes the position. */
    method OnMouseMove(p: Point)
      modifies this
      ensures State() == Step(old(State()), MouseMove(p))
    {
      if mounted {
        frames := frames + [p];
      }
    }

    /** The frame callbacks run, in the order they were requested. */
    method OnAnimationFrame()
      modifies this
      ensures State() == Step(old(State()), AnimationFrame)
    {
      if mounted && frames != [] {
        position := Last(frames);
        isVisible := true;
        frames := [];
      }
    }

    method OnMouseOut()
      modifies this
      ensures State() == Step(old(State()), MouseOut)
    {
      if mounted {
        isVisible := false;
      }
    }

    method OnMouseEnter(el: ElementId)
      modifies this
      ensures State() == Step(old(State()), MouseEnter(el))
    {
      if mounted && el in listened {
        isHovering := true;
      }
    }

    method OnMouseLeave(el: ElementId)
      modifies this
      ensures State() == Step(old(State()), MouseLeave(el))
    {
      if mounted && el in listened {
        isHovering := false;
      }
    }

    /** The mutation observer re-runs `addHoverListeners` and discards the cleanup it returns. */
    method OnMutation(doc: seq<DomElement>)
      modifies this
      ensures State() == Step(old(State()), Mutation(doc))
    {
      if mounted {
        listened := listened + InteractiveIds(doc);
      }
    }

    /** The effect's cleanup. */
    method Teardown()
      modifies this
      ensures State() == Step(old(State()), Event.Teardown)
    {
      if mounted {
        frames := [];
        listened := listened - initial;
        mounted := false;
      }
    }
  }
}
