/**
 * The part of gsap's ScrollTrigger plugin that the reveal hooks rely on,
 * stated over integers: where an element sits relative to its trigger's
 * start and end lines, which callbacks a scroll move fires, and what the
 * `toggleActions` configuration does with each callback.
 *
 * Tween timing, easing and interpolation are not modelled: a tween is only
 * "at its start", "running forward" or "running backward".
 */
module ScrollTriggers {

  /** The four callbacks, in the order in which `toggleActions` names them. */
  datatype Callback = OnEnter | OnLeave | OnEnterBack | OnLeaveBack

  /** The `toggleActions` words the components use ("none" is NoAction). */
  datatype Action = Play | Reverse | NoAction

  datatype ToggleActions = ToggleActions(onEnter: Action, onLeave: Action, onEnterBack: Action, onLeaveBack: Action)

  /** "play none none reverse", the reveal hook's configuration. */
  const RevealToggle := ToggleActions(Play, NoAction, NoAction, Reverse)

  /** gsap's default "play none none none", used when a tween's scrollTrigger names none. */
  const DefaultToggle := ToggleActions(Play, NoAction, NoAction, NoAction)

  function ActionFor(t: ToggleActions, c: Callback): Action
  {
    match c
    case OnEnter => t.onEnter
    case OnLeave => t.onLeave
    case OnEnterBack => t.onEnterBack
    case OnLeaveBack => t.onLeaveBack
  }

  /**
   * Where a trigger's lines sit, as percentages of the viewport height:
   * the trigger starts when the element's top reaches `startPct` % of the
   * viewport and ends when its bottom reaches `endPct` %.
   */
  datatype Band = Band(startPct: nat, endPct: nat)

  /** start "top 80%", end "bottom 20%". */
  const RevealBand := Band(80, 20)

  /** start "top 80%" and ScrollTrigger's default end, "bottom top". */
  const StaggerBand := Band(80, 0)

  /** An element's box in document pixels, and the viewport height. */
  datatype Scene = Scene(top: int, bottom: int, viewport: nat)

  predicate WellFormedScene(sc: Scene)
  {
    sc.top <= sc.bottom
  }

  /** Before the start line, between the lines, or past the end line. */
  datatype Region = Before | Active | After

  function Rank(r: Region): nat
  {
    match r
    case Before => 0
    case Active => 1
    case After => 2
  }

  /**
   * The region of the element at vertical scroll offset `scrollY`. The
   * element's top relative to the viewport is `top - scrollY`; it is before
   * the start line while that is strictly below the line.
   */
  function RegionAt(b: Band, sc: Scene, scrollY: int): (r: Region)
    ensures r == Before <==> 100 * (sc.top - scrollY) > b.startPct * sc.viewport
    ensures r == After <==> r != Before && 100 * (sc.bottom - scrollY) < b.endPct * sc.viewport
  {
    if 100 * (sc.top - scrollY) > b.startPct * sc.viewport then Before
    else if 100 * (sc.bottom - scrollY) < b.endPct * sc.viewport then After
    else Active
  }

  /** Scrolling down never moves an element back towards "before its start line". */
  lemma RegionMonotone(b: Band, sc: Scene, y1: int, y2: int)
    requires b.endPct <= b.startPct && WellFormedScene(sc) && y1 <= y2
    ensures Rank(RegionAt(b, sc, y1)) <= Rank(RegionAt(b, sc, y2))
  {
    assert b.endPct * sc.viewport <= b.startPct * sc.viewport;
  }

  /**
   * The callbacks ScrollTrigger fires when the element moves from region
   * `from` to region `to` in one scroll update, in firing order.
   */
  function Crossings(from: Region, to: Region): (cs: seq<Callback>)
    ensures |cs| <= 2
    ensures OnEnter in cs <==> from == Before && to != Before
    ensures OnLeave in cs <==> from != After && to == After
    ensures OnEnterBack in cs <==> from == After && to != After
    ensures OnLeaveBack in cs <==> from != Before && to == Before
    ensures from == to ==> cs == []
  {
    if Rank(from) < Rank(to) then
      (if from == Before then [OnEnter] else []) + (if to == After then [OnLeave] else [])
    else if Rank(to) < Rank(from) then
      (if from == After then [OnEnterBack] else []) + (if to == Before then [OnLeaveBack] else [])
    else
      []
  }

  datatype Direction = AtStart | Forward | Backward

  /** Where the trigger's tween is heading, and how many forward runs it has begun. */
  datatype Playback = Playback(direction: Direction, forwardRuns: nat)

  /** A ScrollTrigger pauses its animation at creation. */
  const Paused := Playback(AtStart, 0)

  /**
   * `play()` starts a forward run unless the tween is already heading
   * forward; `reverse()` turns a tween that has moved back towards its start.
   */
  function Perform(a: Action, p: Playback): (q: Playback)
    ensures a == NoAction ==> q == p
    ensures a == Play ==> q.direction == Forward
    ensures a == Play ==> q.forwardRuns == p.forwardRuns + (if p.direction == Forward then 0 else 1)
    ensures a == Reverse ==> q.forwardRuns == p.forwardRuns
    ensures a == Reverse && p.direction != AtStart ==> q.direction == Backward
    ensures a == Reverse && p.direction == AtStart ==> q == p
  {
    match a
    case NoAction => p
    case Play => if p.direction == Forward then p else Playback(Forward, p.forwardRuns + 1)
    case Reverse => if p.direction == AtStart then p else Playback(Backward, p.forwardRuns)
  }

  function FireAll(t: ToggleActions, cs: seq<Callback>, p: Playback): Playback
    decreases |cs|
  {
    if cs == [] then p else FireAll(t, cs[1..], Perform(ActionFor(t, cs[0]), p))
  }

  lemma FireAllOne(t: ToggleActions, c: Callback, p: Playback)
    ensures FireAll(t, [c], p) == Perform(ActionFor(t, c), p)
  {
    assert [c][1..] == [];
  }

  lemma FireAllTwo(t: ToggleActions, c: Callback, d: Callback, p: Playback)
    ensures FireAll(t, [c, d], p) == Perform(ActionFor(t, d), Perform(ActionFor(t, c), p))
  {
    assert [c, d][1..] == [d];
    FireAllOne(t, d, Perform(ActionFor(t, c), p));
  }

  /** A live trigger: the element's last region and its tween's playback. */
  datatype TriggerState = TriggerState(region: Region, playback: Playback)

  /** One scroll update to offset `scrollY`. */
  function Move(t: ToggleActions, b: Band, sc: Scene, s: TriggerState, scrollY: int): TriggerState
  {
    var r := RegionAt(b, sc, scrollY);
    TriggerState(r, FireAll(t, Crossings(s.region, r), s.playback))
  }

  /**
   * Creation at scroll offset `scrollY`: the first refresh treats the
   * element as coming from before its start line, so an element already
   * past the line fires onEnter at once.
   */
  function Create(t: ToggleActions, b: Band, sc: Scene, scrollY: int): TriggerState
  {
    Move(t, b, sc, TriggerState(Before, Paused), scrollY)
  }

  /** A sequence of scroll updates. */
  function Replay(t: ToggleActions, b: Band, sc: Scene, s: TriggerState, ys: seq<int>): TriggerState
    decreases |ys|
  {
    if ys == [] then s else Replay(t, b, sc, Move(t, b, sc, s, ys[0]), ys[1..])
  }

  // ----- "play none none reverse" -----

  /** Crossing the start line downwards plays the tween, starting a new forward run if it was not running forward. */
  lemma RevealEnterPlays(sc: Scene, s: TriggerState, y: int)
    requires s.region == Before && RegionAt(RevealBand, sc, y) != Before
    ensures Move(RevealToggle, RevealBand, sc, s, y).playback.direction == Forward
    ensures Move(RevealToggle, RevealBand, sc, s, y).playback.forwardRuns
         == s.playback.forwardRuns + (if s.playback.direction == Forward then 0 else 1)
  {
    var r := RegionAt(RevealBand, sc, y);
    var cs := Crossings(s.region, r);
    if r == After {
      assert cs == [OnEnter, OnLeave];
      FireAllTwo(RevealToggle, OnEnter, OnLeave, s.playback);
    } else {
      assert cs == [OnEnter];
      FireAllOne(RevealToggle, OnEnter, s.playback);
    }
  }

  /** Crossing the start line upwards reverses a tween that has moved. */
  lemma RevealLeaveBackReverses(sc: Scene, s: TriggerState, y: int)
    requires s.region != Before && RegionAt(RevealBand, sc, y) == Before
    requires s.playback.direction != AtStart
    ensures Move(RevealToggle, RevealBand, sc, s, y).playback
         == Playback(Backward, s.playback.forwardRuns)
  {
    var cs := Crossings(s.region, Before);
    if s.region == After {
      assert cs == [OnEnterBack, OnLeaveBack];
      FireAllTwo(RevealToggle, OnEnterBack, OnLeaveBack, s.playback);
    } else {
      assert cs == [OnLeaveBack];
      FireAllOne(RevealToggle, OnLeaveBack, s.playback);
    }
  }

  /** Leaving past the end line, or coming back in from below it, changes nothing. */
  lemma RevealEndLineInert(sc: Scene, s: TriggerState, y: int)
    requires s.region != Before && RegionAt(RevealBand, sc, y) != Before
    ensures Move(RevealToggle, RevealBand, sc, s, y).playback == s.playback
  {
    var r := RegionAt(RevealBand, sc, y);
    var cs := Crossings(s.region, r);
    if cs != [] {
      assert cs == [OnLeave] || cs == [OnEnterBack];
      FireAllOne(RevealToggle, cs[0], s.playback);
    }
  }

  /**
   * The reveal invariant: the tween is heading to the visible pose exactly
   * when the element is past its start line.
   */
  ghost predicate RevealConsistent(s: TriggerState)
  {
    (s.region != Before) == (s.playback.direction == Forward)
  }

  lemma RevealMovePreserves(sc: Scene, s: TriggerState, y: int)
    requires RevealConsistent(s)
    ensures RevealConsistent(Move(RevealToggle, RevealBand, sc, s, y))
  {
    var r := RegionAt(RevealBand, sc, y);
    if s.region == Before && r != Before {
      RevealEnterPlays(sc, s, y);
    } else if s.region != Before && r == Before {
      RevealLeaveBackReverses(sc, s, y);
    } else if s.region != Before {
      RevealEndLineInert(sc, s, y);
    } else {
      assert Crossings(s.region, r) == [];
    }
  }

  /** The number of downward crossings of the start line along a scroll history. */
  function StartCrossings(b: Band, sc: Scene, from: Region, ys: seq<int>): nat
    decreases |ys|
  {
    if ys == [] then 0
    else
      var r := RegionAt(b, sc, ys[0]);
      (if from == Before && r != Before then 1 else 0) + StartCrossings(b, sc, r, ys[1..])
  }

  /**
   * Over any scroll history, the reveal trigger keeps its invariant, and it
   * begins exactly one new forward run per downward crossing of the start
   * line: it replays every time, it is not one-shot.
   */
  lemma {:induction false} RevealReplay(sc: Scene, s: TriggerState, ys: seq<int>)
    requires RevealConsistent(s)
    ensures RevealConsistent(Replay(RevealToggle, RevealBand, sc, s, ys))
    ensures Replay(RevealToggle, RevealBand, sc, s, ys).playback.forwardRuns
         == s.playback.forwardRuns + StartCrossings(RevealBand, sc, s.region, ys)
    decreases |ys|
  {
    if ys != [] {
      var s1 := Move(RevealToggle, RevealBand, sc, s, ys[0]);
      RevealMovePreserves(sc, s, ys[0]);
      var r := RegionAt(RevealBand, sc, ys[0]);
      if s.region == Before && r != Before {
        RevealEnterPlays(sc, s, ys[0]);
      } else if s.region != Before && r == Before {
        RevealLeaveBackReverses(sc, s, ys[0]);
      } else if s.region != Before {
        RevealEndLineInert(sc, s, ys[0]);
      } else {
        assert Crossings(s.region, r) == [];
      }
      RevealReplay(sc, s1, ys[1..]);
    }
  }

  // ----- "play none none none" -----

  /** Invariant of a trigger that only ever plays: it has begun at most one forward run, and never runs backward. */
  ghost predicate PlayOnceConsistent(s: TriggerState)
  {
    && s.playback.direction != Backward
    && s.playback.forwardRuns <= 1
    && (s.playback.forwardRuns == 1 <==> s.playback.direction == Forward)
  }

  lemma PlayOnceMovePreserves(b: Band, sc: Scene, s: TriggerState, y: int)
    requires PlayOnceConsistent(s)
    ensures PlayOnceConsistent(Move(DefaultToggle, b, sc, s, y))
    ensures s.playback.direction == Forward ==> Move(DefaultToggle, b, sc, s, y).playback == s.playback
  {
    var r := RegionAt(b, sc, y);
    var cs := Crossings(s.region, r);
    if |cs| == 2 {
      assert cs == [cs[0], cs[1]];
      FireAllTwo(DefaultToggle, cs[0], cs[1], s.playback);
    } else if |cs| == 1 {
      assert cs == [cs[0]];
      FireAllOne(DefaultToggle, cs[0], s.playback);
    }
  }

  /**
   * A trigger with the default toggle actions plays its tween at most once,
   * however often the element re-enters, and once played it stays played.
   */
  lemma {:induction false} PlayOnceReplay(b: Band, sc: Scene, s: TriggerState, ys: seq<int>)
    requires PlayOnceConsistent(s)
    ensures PlayOnceConsistent(Replay(DefaultToggle, b, sc, s, ys))
    ensures Replay(DefaultToggle, b, sc, s, ys).playback.forwardRuns <= 1
    ensures s.playback.direction == Forward ==> Replay(DefaultToggle, b, sc, s, ys).playback == s.playback
    decreases |ys|
  {
    if ys != [] {
      PlayOnceMovePreserves(b, sc, s, ys[0]);
      PlayOnceReplay(b, sc, Move(DefaultToggle, b, sc, s, ys[0]), ys[1..]);
    }
  }
}
