# DevDuo portfolio: a Dafny model of its interaction rules

DevDuo is a single-page portfolio site. Most of it is rendering built on framer-motion, gsap, Lenis and three.js. This project models the rules in it that decide what the page does step by step:

- **Scroll reveal** (`ScrollReveal`, over `ScrollTriggers`). `useScrollReveal` scans the `[data-animate]` elements in document order. It gives each element the hidden pose of its animation kind, then creates a "play none none reverse" ScrollTrigger whose tween delay is 100 ms per position. `useStaggerAnimation` hides every match of a selector and animates them from one trigger on the first match. Match i starts i × delay after that trigger fires. The cleanup of either hook kills every trigger on the page. `ScrollTriggers` states the part of gsap's ScrollTrigger these hooks depend on: the region an element is in relative to its start and end lines, the callbacks a scroll move fires, and what the toggle actions do.
- **Page rules** (`Page`, from `app/page.tsx`). This covers the scroll spy, the desktop-link underline, the mobile-menu toggle, and `TypingText`, which shows one more character per timeout and waits `delay + 50 × index` ms before each one.
- **Loader** (`Loader`). It maps the progress percentage to one of four status messages. The timeline's completion hides the overlay and calls the parent's `onComplete` 500 ms later. The model also covers what cleanup and a change of callback identity do to that sequence.
- **Custom cursor** (`Cursor`). Move, frame, out, enter, leave, mutation and teardown events drive the position, hover and visibility cells. Rendering is a pure function of those cells.
- **Typewriter** (`Typewriter`). `TypewriterText` in `components/Hero3D.tsx` grows a prefix of a fixed sentence every 50 ms and then stops itself.

The loader, the cursor and the typewriter each have two forms. A datatype with a `Step` function (or `Tick`) is the specification, and the lemmas about event sequences are proved about it. A class holds the component's state cells as fields, and each of its event methods promises `State() == Step(old(State()), event)`; `TypewriterText.Unmount`, which is not an event of `Tick`, promises the old state with the interval cleared. The other classes (`Gsap`, `Portfolio`, `TypingText`) state their new fields directly in terms of functions of the inputs and the old state. Units are integers wherever the source allows: delays in milliseconds, geometry in pixels. A "top 80%" line is tested as `100 × (top − scrollY) > 80 × viewportHeight`. Opacity and scale are `real`.

Timers, DOM listeners, `requestAnimationFrame`, the mutation observer and gsap's tweens are not executed. Their effects enter the model as events: `Update(p)`, `TimelineDone`, `GraceElapsed`, `AnimationFrame`, `Mutation(doc)`, scroll positions, ticks and timeouts. The elements a `querySelectorAll` returns, and the section boxes behind `getElementById`, are parameters.

## Model

| member | source | states |
|---|---|---|
| ScrollReveal.KindOf | hooks/useScrollReveal.ts:19-47 | any attribute value other than the five kind names selects the default case; a named kind is selected by exactly its name |
| ScrollReveal.KindRoundTrip | hooks/useScrollReveal.ts:23-43 | reading back a named kind's attribute value selects that kind |
| ScrollReveal.HiddenPose | hooks/useScrollReveal.ts:25-45 | every hidden pose sets opacity 0 |
| ScrollReveal.VisiblePose | hooks/useScrollReveal.ts:26-46 | the visible pose animates exactly the properties the hidden pose set, each to its resting value (opacity 1, x 0, y 0, scale 1) |
| ScrollReveal.PoseTable | hooks/useScrollReveal.ts:24-46 | fade-up y 50, fade-in opacity only, slide-left x 50, slide-right x −50, scale 0.8, default y 30 |
| ScrollReveal.RevealRegistration | hooks/useScrollReveal.ts:49-60 | element i's trigger is anchored on it, uses "top 80%"/"bottom 20%" and "play none none reverse", and tweens it for 800 ms after i × 100 ms; the tween runs to the kind's visible pose, opacity 1 |
| ScrollReveal.RevealCallsAt | hooks/useScrollReveal.ts:15-61 | a scan issues two calls per element in document order: call 2i hides element i, call 2i+1 creates its trigger with delay i × 100 ms over the whole page |
| ScrollReveal.HiddenBeforeTrigger | hooks/useScrollReveal.ts:23-49 | every trigger a scan creates is preceded by the call that sets its element's hidden pose (opacity 0) |
| ScrollReveal.Gsap.UseScrollReveal | hooks/useScrollReveal.ts:14-68 | the mount effect appends exactly the scan's calls and triggers, and the hook returns the scanned elements in document order |
| ScrollReveal.Gsap.KillAll | hooks/useScrollReveal.ts:63-65 | cleanup leaves no live trigger, whichever hook created it, and leaves the styles already set |
| ScrollReveal.StaggerRegistration | hooks/useScrollReveal.ts:75-88 | one trigger anchored on the first match (none when nothing matched), from "top 80%" to the default end, with the default toggle actions, and per match an 800 ms tween to {opacity 1, y 0} delayed by i × delay |
| ScrollReveal.StaggerCalls | hooks/useScrollReveal.ts:75-88 | the effect first sets {opacity 0, y 50} on every match in order, then creates the one trigger |
| ScrollReveal.StaggerHiddenBeforeTrigger | hooks/useScrollReveal.ts:75-88 | every element the stagger trigger animates was put at opacity 0 by an earlier call |
| ScrollReveal.StartTimes | hooks/useScrollReveal.ts:82 | one start time per controlled tween |
| ScrollReveal.StaggerSchedule | hooks/useScrollReveal.ts:73-88 | match i starts i × delay after the shared trigger fires; the trigger is on the first match and has no reverse action |
| ScrollReveal.StaggerExample | hooks/useScrollReveal.ts:75-88 | three matches 200 ms apart, fired at 5000 ms, start at 5000, 5200 and 5400 ms |
| ScrollReveal.Gsap.UseStaggerAnimation | hooks/useScrollReveal.ts:72-89 | the effect hides every match, then registers the one stagger trigger |
| ScrollReveal.RevealTriggerBehaviour | hooks/useScrollReveal.ts:49-60 | over any scroll history, a scanned element's tween heads to the visible pose exactly while the element is past its start line, and each downward crossing replays it |
| ScrollReveal.StaggerPlaysOnce | hooks/useScrollReveal.ts:84-87 | over any scroll history, the stagger trigger plays its cascade at most once |
| ScrollTriggers.RegionAt | hooks/useScrollReveal.ts:51-52 | an element is before its start line exactly when its top is below the line's height in the viewport, and past its end line exactly when it is not before the start line and its bottom is above the end line |
| ScrollTriggers.RegionMonotone | hooks/useScrollReveal.ts:51-52 | scrolling down never moves an element back towards "before its start line" |
| ScrollTriggers.Crossings | hooks/useScrollReveal.ts:49-60 | onEnter fires exactly on a downward crossing of the start line, onLeaveBack exactly on an upward one, onLeave and onEnterBack exactly on the end line |
| ScrollTriggers.Perform | hooks/useScrollReveal.ts:59 | play starts a forward run unless one is under way; reverse turns a tween that has moved and leaves one at its start alone; none changes nothing |
| ScrollTriggers.RevealEnterPlays | hooks/useScrollReveal.ts:59 | crossing the start line downwards plays the tween |
| ScrollTriggers.RevealLeaveBackReverses | hooks/useScrollReveal.ts:59 | crossing the start line upwards reverses the tween |
| ScrollTriggers.RevealEndLineInert | hooks/useScrollReveal.ts:59 | leaving past the end line, or re-entering from below, changes nothing |
| ScrollTriggers.RevealMovePreserves | hooks/useScrollReveal.ts:59 | one scroll update keeps "heading to visible ⟺ past start line" |
| ScrollTriggers.RevealReplay | hooks/useScrollReveal.ts:49-60 | over any history the invariant holds and forward runs grow by exactly the number of downward start-line crossings |
| ScrollTriggers.PlayOnceMovePreserves | hooks/useScrollReveal.ts:84-87 | with the default toggle actions one update never reverses and never starts a second run |
| ScrollTriggers.PlayOnceReplay | hooks/useScrollReveal.ts:84-87 | with the default toggle actions the tween is played at most once over any history and stays played |
| Page.FirstContaining | app/page.tsx:222-233 | the result is an existing listed section containing the point; there is none exactly when no existing listed section contains it |
| Page.FirstContainingIsFirst | app/page.tsx:222-231 | no section listed before the chosen one contains the point |
| Page.FirstContainingPicks | app/page.tsx:222-231 | the first listed existing section containing the point is the one chosen |
| Page.SpyIntervalHalfOpen | app/page.tsx:222-231 | a point at a section's bottom edge never selects it; a point at its top edge selects it exactly when no section visited earlier contains the point, so the first section always does |
| Page.Portfolio.constructor | app/page.tsx:209-210 | the menu starts closed and the active section starts as "home" |
| Page.Portfolio.HandleScroll | app/page.tsx:218-234 | the handler selects the first of home, services, projects, about, contact containing scrollY + 100, skips missing elements, keeps the old value when none matches, and keeps the active section one of the five ids |
| Page.NavTargets | app/page.tsx:322-331 | each navigation label lower-cased is the section id in the same position |
| Page.ExactlyOneUnderlined | app/page.tsx:338 | while the active section is one of the five ids, exactly one desktop link shows the underline |
| Page.Portfolio.ToggleMenu | app/page.tsx:353 | the menu button flips isMenuOpen |
| Page.Portfolio.ClickMobileLink | app/page.tsx:375-377 | a mobile link click leaves the menu closed |
| Page.Portfolio.ClickDesktopLink | app/page.tsx:329-335 | a desktop link click modifies nothing, so isMenuOpen and the active section are unchanged |
| Page.MenuParity | app/page.tsx:353 | without mobile-link clicks the menu is open exactly when the initial state and the parity of button presses differ, so two presses restore it |
| Page.MenuClosedByMobileLink | app/page.tsx:377 | after a mobile-link click only the button presses since then decide whether the menu is open |
| Page.TypingText.constructor | app/page.tsx:84-88 | the text starts empty at index 0, which is a prefix of the target, and the first timeout is armed at time 0 |
| Page.TypingText.Fire | app/page.tsx:87-99 | a firing appends exactly the next character and advances the index until the text is complete, then changes nothing; the shown text stays the first currentIndex characters, and the re-armed timer starts when the previous wait has elapsed, at the arrival time of the character just shown |
| Page.TypingText.NextWaitMs | app/page.tsx:88-95 | the next wait is the delay plus 50 ms per character already shown, and while text remains it ends exactly at the next character's arrival time TypingArrivalMs |
| Page.TypingArrivalClosedForm | app/page.tsx:88-99 | since the delay is re-applied before every character, character k appears after (k+1) × delay + 25 × k × (k+1) ms (the arrival times NextWaitMs and Fire are proved to follow) |
| Loader.ProgressPercent | components/Loader.tsx:24 | the percentage is Math.round of 100 × p: within half a point of it and in 0..100 |
| Loader.ProgressMonotone | components/Loader.tsx:24 | a later timeline progress never shows a smaller percentage |
| Loader.Messages | components/Loader.tsx:106-109 | every integer progress renders exactly one of the four status messages |
| Loader.Stage | components/Loader.tsx:106-109 | the rendered message is the one for the progress value's stage |
| Loader.StageBoundaries | components/Loader.tsx:106-109 | the stages change exactly at 30, 60 and 90 and never go back as progress grows (29 gives "Loading 3D models...", 30 "Initializing animations...") |
| Loader.Step | components/Loader.tsx:15-50 | isComplete becomes true only in a live timeline's completion; onComplete runs only from a scheduled timeout; completion is never undone |
| Loader.Render | components/Loader.tsx:54-109 | the overlay is rendered exactly while not complete; bar width and label both show progress; one message |
| Loader.StableCallbackRestartsEarly | app/page.tsx:302 | a parent that keeps its callback changes it at no point, in particular not after completion |
| Loader.OnceInvariantRun | components/Loader.tsx:26-50 | as long as every callback change comes before completion, scheduled plus delivered callbacks equal 1 exactly when complete, and a running timeline is never complete |
| Loader.OnceFrom | components/Loader.tsx:26-50 | from any state keeping that invariant, with every callback change before completion, onComplete is called at most once and only after completion |
| Loader.CompletionCalledOnce | components/Loader.tsx:26-50 | from mount, with any number of callback changes before completion (each page re-render hands a new arrow), onComplete is called at most once and only after completion |
| Loader.RestartDuringSplash | app/page.tsx:302 | a re-render with a new callback halfway through the splash restarts the timeline, and onComplete is still called exactly once |
| Loader.LateRestartUnmounted | components/Loader.tsx:26-50 | a new callback during the grace window restarts the timeline, but the pending timeout calls onComplete once and the loader is unmounted with nothing pending |
| Loader.UnmountedIsFrozen | components/Loader.tsx:47-49 | a killed, unmounted loader with nothing scheduled never changes again |
| Loader.CleanupFrom | components/Loader.tsx:47-50 | from any incomplete state keeping the invariant, with callback changes only before completion, cleanup while the timeline runs means the loader never completes and onComplete is never called |
| Loader.CleanupBeforeEnd | components/Loader.tsx:47-50 | from mount, even after callback changes, cleanup before the timeline ends means the loader never completes and onComplete is never called |
| Loader.GraceSurvivesUnmount | components/Loader.tsx:28 | the 500 ms timeout is not cleared: unmounting in the grace window still calls onComplete |
| Loader.CallbackChangeRestarts | components/Loader.tsx:50 | a new onComplete identity restarts the timeline, whose first update shows 0 %, and in the loader alone lets a second completion be scheduled |
| Loader.Loader.constructor | components/Loader.tsx:12-17 | mount starts at 0 %, not complete, with one running timeline |
| Loader.Loader.OnUpdate | components/Loader.tsx:23-25 | a live timeline's update sets progress to the rounded percentage |
| Loader.Loader.OnTimelineComplete | components/Loader.tsx:26-29 | completion sets isComplete and schedules onComplete |
| Loader.Loader.OnGraceTimeout | components/Loader.tsx:28 | a scheduled timeout calls onComplete |
| Loader.Loader.OnCallbackChanged | components/Loader.tsx:50 | the effect re-runs with a fresh timeline |
| Loader.Loader.Cleanup | components/Loader.tsx:47-49 | cleanup kills the timeline and leaves the timeouts |
| Cursor.InteractiveIds | components/CustomCursor.tsx:31-33 | the listened elements are exactly those matching button, a, [data-interactive], input, textarea, [role='button'] |
| Cursor.Mount | components/CustomCursor.tsx:7-9 | the cursor starts hidden at (0, 0), not hovering, listening on the interactive elements present |
| Cursor.Step | components/CustomCursor.tsx:14-23 | mouseout hides the cursor; the hover flag changes only through enter or leave on a listened element |
| Cursor.HiddenWithoutMove | components/CustomCursor.tsx:9-18 | with no mousemove, no frame is queued and the cursor stays hidden at the origin |
| Cursor.HiddenWithoutFrame | components/CustomCursor.tsx:14-18 | moves only queue frames: until a frame runs, a hidden cursor stays hidden at its old position |
| Cursor.HiddenUntilFirstMove | components/CustomCursor.tsx:9-18 | the cursor stays hidden at the origin until a mousemove has been queued and a frame has run after it |
| Cursor.MoveThenOutStaysHidden | components/CustomCursor.tsx:14-23 | from mount, a move whose frame has not run, then a mouseout, leaves the cursor hidden |
| Cursor.OutThenMove | components/CustomCursor.tsx:14-23 | mouseout hides without touching the hover flag; the next move, once its frame runs, shows the cursor at the new position |
| Cursor.PendingFrameOutlivesMouseOut | components/CustomCursor.tsx:14-18 | a move whose frame is still pending when mouseout arrives shows the cursor again afterwards |
| Cursor.HoverIdempotent | components/CustomCursor.tsx:21-51 | enter, leave and observer re-runs are idempotent |
| Cursor.HoverKeptQuiet | components/CustomCursor.tsx:21-51 | events that are no enter or leave on an element listened at that moment keep the hover flag, observer re-runs and teardown included |
| Cursor.NoHoverEventIsQuiet | components/CustomCursor.tsx:21-51 | events with no enter or leave at all are such quiet events |
| Cursor.HoverFollowsLast | components/CustomCursor.tsx:21-51 | the hover flag equals the kind of the last enter or leave on a listened element, whatever observer re-runs and teardown follow it |
| Cursor.EnterSurvivesMutation | components/CustomCursor.tsx:21-51 | an enter on a listened element, then an observer run and a move, still ends hovering |
| Cursor.HoverKept | components/CustomCursor.tsx:14-23 | events other than enter, leave, mutation and teardown keep the hover flag |
| Cursor.Observed | components/CustomCursor.tsx:30-38 | an element is observed exactly when some observer run in the events found it interactive |
| Cursor.ListenedOrigin | components/CustomCursor.tsx:30-51 | over any events, listeners sit only on elements already listened to or found interactive by an observer run, and the first setup's set never changes |
| Cursor.ListenedUntilTeardown | components/CustomCursor.tsx:30-51 | until teardown every observer run adds all its interactive elements and none is detached |
| Cursor.HoverOnlyFromInteractive | components/CustomCursor.tsx:21-51 | from mount, the hover flag changes only through enter or leave on an element that matched the selector at mount or in an earlier observer run |
| Cursor.TeardownLeavesLaterListeners | components/CustomCursor.tsx:49-58 | after any number of observer runs and then teardown, exactly the elements they found that were absent at first setup keep listeners |
| Cursor.Render | components/CustomCursor.tsx:63-91 | nothing is drawn while hidden; the dot is at (x−12, y−12) and the glow at (x−20, y−20); by the hover flag the dot scales 1.5 vs 1, the glow 2 vs 1, and the glow opacity is 0.3 vs 0.1 |
| Cursor.CustomCursor.constructor | components/CustomCursor.tsx:7-49 | the component mounts in the Mount state |
| Cursor.CustomCursor.OnMouseMove | components/CustomCursor.tsx:14-18 | a move queues a frame |
| Cursor.CustomCursor.OnAnimationFrame | components/CustomCursor.tsx:15-18 | the queued frames write the last position and show the cursor |
| Cursor.CustomCursor.OnMouseOut | components/CustomCursor.tsx:23 | mouseout hides the cursor |
| Cursor.CustomCursor.OnMouseEnter | components/CustomCursor.tsx:21 | enter on a listened element sets hovering |
| Cursor.CustomCursor.OnMouseLeave | components/CustomCursor.tsx:22 | leave on a listened element clears hovering |
| Cursor.CustomCursor.OnMutation | components/CustomCursor.tsx:51 | an observer run adds listeners to the interactive elements now present |
| Cursor.CustomCursor.Teardown | components/CustomCursor.tsx:54-59 | teardown detaches only the first setup's listeners |
| Typewriter.Tick | components/Hero3D.tsx:16-21 | a tick below full length appends exactly one character and increments the index; at full length it only clears the interval |
| Typewriter.TicksFromStart | components/Hero3D.tsx:14-22 | after n ticks the text is the first min(n, length) characters, the index never exceeds the length, and the interval runs up to tick length + 1 |
| Typewriter.CharShownAt | components/Hero3D.tsx:15-22 | character k is on screen after n ticks exactly when n × 50 ms has reached its arrival time 50 × (k+1) ms, and it is the sentence's k-th character |
| Typewriter.TypewriterSchedule | components/Hero3D.tsx:15-22 | after length ticks the text is the whole sentence with the interval still set, and the next tick only clears it |
| Typewriter.FullTextTimes | components/Hero3D.tsx:11-22 | the 62-character sentence is incomplete after 61 ticks and complete after 62 (3100 ms); the interval is cleared by tick 63 (3150 ms) |
| Typewriter.TypewriterText.constructor | components/Hero3D.tsx:10-14 | the text starts empty at index 0 |
| Typewriter.TypewriterText.OnTick | components/Hero3D.tsx:15-21 | the interval callback performs one Tick and keeps the text the first index characters |
| Typewriter.TypewriterText.Unmount | components/Hero3D.tsx:24 | the cleanup clears the interval |

## Left out

- Tween interpolation, easing (`power2.out`, `back.out`), framer-motion springs, `whileInView` and Lenis smoothing are not modelled. A tween is only at its start, running forward or running backward, and its timing matters only through its delay and duration.
- ScrollTriggers.Perform: is weaker than gsap. Only the actions "play", "reverse" and "none" exist, and a tween that has finished is not told apart from one that is still running.
- ScrollTriggers.Create: the first refresh is modelled as a move from "before the start line" to the region at the creation offset. Where the refresh happens, and its timing against other layout work, is gsap's business.
- ScrollReveal.Gsap.KillAll: the killed triggers are removed from the live list. The model does not keep the playback state of a killed trigger.
- ScrollReveal.StaggerRegistration: when the selector matches nothing, the model registers a trigger with no anchor and no members. gsap's behaviour with an undefined trigger element is not modelled. The code raises no error here, so no error path is modelled.
- components/SmoothScrollProvider.tsx (Lenis and the gsap ticker) is not part of this model. gsap's scroll position is taken as given.
- Re-scanning `[data-animate]` elements when the DOM changes, configuration errors, isolating subscriber errors, and retiring stale elements are not in the code, so they are not modelled.
- ScrollReveal.Gsap.UseStaggerAnimation: the stagger delay is taken as whole, non-negative milliseconds. The hook's default of 0.1 s is not modelled as a default argument; a caller relying on it passes 100. Fractional and negative stagger values are not modelled.
- Page.TypingText.NextWaitMs: the default `delay = 0` is not modelled as a default argument; a caller relying on it passes 0. `delay` is taken as whole, non-negative milliseconds. Fractional or negative values, and the browser's clamping of timeouts, are not modelled. A change of the `text` prop while typing is not modelled either; the page passes a constant.
- Page.Portfolio.ClickDesktopLink: the smooth `scrollIntoView` of both link kinds is not modelled.
- Loader.CompletionCalledOnce: the page can hand a new callback after completion, during the 500 ms grace window; the pending timeout then unmounts the loader before the restarted 3 s timeline can end. The model has no clock, so that case is excluded by `RestartsBeforeCompletion`; `CallbackChangeRestarts` shows what the loader alone would do, and `LateRestartUnmounted` shows the page's actual order of events.
- Loader.ProgressPercent: `Math.round(this.progress() * 100)` is computed over exact reals, not IEEE doubles, so rounding errors of the multiplication are not modelled.
- Loader: the rotating logo tweens and the overlay's exit fade are animation leaves, so they are left out. Which re-renders of the parent give the loader a new `onComplete` (any state change of `Portfolio`) is an input event, `CallbackChanged`.
- Cursor.Step: after teardown, every handler's state update is dropped, as React does for an unmounted component. Frames requested before the latest one, which `cancelAnimationFrame` does not cancel, are modelled as harmless for that reason. Event bubbling, and the element a real `mouseout` comes from, are not modelled.
- Cursor.CustomCursor.OnMouseMove: `clientX` and `clientY` are taken as whole pixels; fractional pointer coordinates are not modelled.
- Cursor: the mounting of the cursor in both app/layout.tsx and app/page.tsx, and the unused `CustomCursorComponent` in app/page.tsx, are not modelled.
- React semantics are not modelled: effect ordering, StrictMode double effects, batching of state updates.
- The services, projects and stats tables of app/page.tsx are constant rendering data, so they are left out. So are AboutSection, Footer, ProjectCard, the three.js scene and `FloatingElements` (`Math.random`).

## Notes on the design

- `useStaggerAnimation` raises nothing when its selector matches no element (hooks/useScrollReveal.ts:73-88): gsap receives an empty list and an undefined trigger element. The model follows the code: `ScrollReveal.StaggerRegistration` has no anchor and no members then.
- The loader's cleanup kills only the timeline and leaves the 500 ms timeout pending (components/Loader.tsx:28, 47-49), so unmounting in the grace window still calls `onComplete`: `Loader.GraceSurvivesUnmount`.
