/**
 * The stateful rules of the `Portfolio` page in app/page.tsx: the scroll
 * spy that picks the active section, the desktop-link underline, the
 * mobile-menu toggle, and the `TypingText` effect.
 */
module Page {
  import opened Wrappers

  /** The sections the scroll spy visits, in the order it visits them. */
  const SectionIds: seq<string> := ["home", "services", "projects", "about", "contact"]

  /** The navigation labels; each link's target is its label in lower case. */
  const NavItems: seq<string> := ["Home", "Services", "Projects", "About", "Contact"]

  /** The scroll spy tests the point 100 px below the top of the viewport. */
  const SpyOffset := 100

  /** A section element's `offsetTop` and `offsetHeight`. */
  datatype Box = Box(offsetTop: int, offsetHeight: int)

  /** What `document.getElementById` finds: ids absent from the map have no element. */
  type Layout = map<string, Box>

  /** The half-open pixel interval [offsetTop, offsetTop + offsetHeight). */
  predicate Contains(b: Box, pos: int)
  {
    b.offsetTop <= pos < b.offsetTop + b.offsetHeight
  }

  /** The first of `ids`, in order, whose element exists and contains `pos`. */
  function FirstContaining(ids: seq<string>, layout: Layout, pos: int): (r: Option<string>)
    ensures r.Some? ==> r.value in ids && r.value in layout && Contains(layout[r.value], pos)
    ensures r.None? <==> forall i :: 0 <= i < |ids| && ids[i] in layout ==> !Contains(layout[ids[i]], pos)
    decreases |ids|
  {
    if ids == [] then None
    else if ids[0] in layout && Contains(layout[ids[0]], pos) then Some(ids[0])
    else FirstContaining(ids[1..], layout, pos)
  }

  /** No section listed before the chosen one contains the point: the choice is the first match. */
  lemma {:induction false} FirstContainingIsFirst(ids: seq<string>, layout: Layout, pos: int, k: nat)
    requires k < |ids| && FirstContaining(ids, layout, pos) == Some(ids[k])
    requires forall i, j :: 0 <= i < j < |ids| ==> ids[i] != ids[j]
    ensures forall j :: 0 <= j < k && ids[j] in layout ==> !Contains(layout[ids[j]], pos)
    decreases |ids|
  {
    if k > 0 {
      assert ids[0] != ids[k];
      assert !(ids[0] in layout && Contains(layout[ids[0]], pos));
      var rest := ids[1..];
      assert rest[k - 1] == ids[k];
      FirstContainingIsFirst(rest, layout, pos, k - 1);
      forall j | 0 <= j < k && ids[j] in layout
        ensures !Contains(layout[ids[j]], pos)
      {
        if j > 0 {
          assert rest[j - 1] == ids[j];
        }
      }
    }
  }

  /** The section the scroll spy selects at vertical offset `scrollY`, if any. */
  function SpyPick(layout: Layout, scrollY: int): Option<string>
  {
    FirstContaining(SectionIds, layout, scrollY + SpyOffset)
  }

  /** If the k-th id is the first existing one containing the point, it is chosen. */
  lemma {:induction false} FirstContainingPicks(ids: seq<string>, layout: Layout, pos: int, k: nat)
    requires k < |ids| && ids[k] in layout && Contains(layout[ids[k]], pos)
    requires forall j :: 0 <= j < k && ids[j] in layout ==> !Contains(layout[ids[j]], pos)
    ensures FirstContaining(ids, layout, pos) == Some(ids[k])
    decreases |ids|
  {
    if k > 0 {
      var rest := ids[1..];
      assert rest[k - 1] == ids[k];
      forall j | 0 <= j < k - 1 && rest[j] in layout
        ensures !Contains(layout[rest[j]], pos)
      {
        assert rest[j] == ids[j + 1];
      }
      FirstContainingPicks(rest, layout, pos, k - 1);
    }
  }

  /**
   * A point at a section's bottom edge never selects it. A point at its
   * top edge selects it exactly when no section visited earlier contains
   * the point; the first section is always selected at its top edge.
   */
  lemma SpyIntervalHalfOpen(layout: Layout, scrollY: int, k: nat)
    requires k < |SectionIds| && SectionIds[k] in layout
    ensures var b := layout[SectionIds[k]];
            scrollY + SpyOffset == b.offsetTop + b.offsetHeight ==> SpyPick(layout, scrollY) != Some(SectionIds[k])
    ensures var b := layout[SectionIds[k]];
            scrollY + SpyOffset == b.offsetTop && b.offsetHeight > 0 ==>
              (SpyPick(layout, scrollY) == Some(SectionIds[k]) <==>
               forall j :: 0 <= j < k && SectionIds[j] in layout ==> !Contains(layout[SectionIds[j]], scrollY + SpyOffset))
  {
    var pos := scrollY + SpyOffset;
    var b := layout[SectionIds[k]];
    if pos == b.offsetTop && b.offsetHeight > 0 {
      if forall j :: 0 <= j < k && SectionIds[j] in layout ==> !Contains(layout[SectionIds[j]], pos) {
        FirstContainingPicks(SectionIds, layout, pos, k);
      }
      if SpyPick(layout, scrollY) == Some(SectionIds[k]) {
        FirstContainingIsFirst(SectionIds, layout, pos, k);
      }
    }
  }

  /** Lower-casing of the ASCII letters, as `toLowerCase` does for the labels. */
  function ToLower(s: string): (t: string)
    ensures |t| == |s|
  {
    seq(|s|, i requires 0 <= i < |s| => if 'A' <= s[i] <= 'Z' then (s[i] as int + 32) as char else s[i])
  }

  /** Every navigation link targets the section in the same position. */
  lemma NavTargets()
    ensures |NavItems| == |SectionIds|
    ensures forall i :: 0 <= i < |NavItems| ==> ToLower(NavItems[i]) == SectionIds[i]
  {
    assert ToLower("Home") == "home";
    assert ToLower("Services") == "services";
    assert ToLower("Projects") == "projects";
    assert ToLower("About") == "about";
    assert ToLower("Contact") == "contact";
  }

  /** A desktop link shows the underline when its target is the active section. */
  predicate Underlined(activeSection: string, item: string)
  {
    activeSection == ToLower(item)
  }

  /**
   * While the active section is one of the five ids, exactly one desktop
   * link shows the underline.
   */
  lemma ExactlyOneUnderlined(activeSection: string)
    requires activeSection in SectionIds
    ensures exists i :: 0 <= i < |NavItems| && Underlined(activeSection, NavItems[i])
    ensures forall i, j :: 0 <= i < j < |NavItems| && Underlined(activeSection, NavItems[i]) ==> !Underlined(activeSection, NavItems[j])
  {
    NavTargets();
    var k :| 0 <= k < |SectionIds| && SectionIds[k] == activeSection;
    assert Underlined(activeSection, NavItems[k]);
  }

  /** The clicks that can change or keep `isMenuOpen`. */
  datatype Click = MenuButton | MobileLink | DesktopLink

  /** The menu button flips the menu, a mobile link closes it, a desktop link leaves it alone. */
  function MenuNext(open: bool, c: Click): (r: bool)
  {
    match c
    case MenuButton => !open
    case MobileLink => false
    case DesktopLink => open
  }

  function MenuAfter(open: bool, cs: seq<Click>): bool
    decreases |cs|
  {
    if cs == [] then open else MenuAfter(MenuNext(open, cs[0]), cs[1..])
  }

  function Presses(cs: seq<Click>): nat
    decreases |cs|
  {
    if cs == [] then 0 else (if cs[0] == MenuButton then 1 else 0) + Presses(cs[1..])
  }

  /**
   * Without mobile-link clicks the menu is open exactly when the initial
   * state and the parity of the button presses differ: pressing twice
   * restores it, and desktop clicks never count.
   */
  lemma {:induction false} MenuParity(open: bool, cs: seq<Click>)
    requires MobileLink !in cs
    ensures MenuAfter(open, cs) == (open != (Presses(cs) % 2 == 1))
    decreases |cs|
  {
    if cs != [] {
      assert MobileLink !in cs[1..];
      MenuParity(MenuNext(open, cs[0]), cs[1..]);
    }
  }

  lemma {:induction false} MenuAfterConcat(open: bool, cs: seq<Click>, ds: seq<Click>)
    ensures MenuAfter(open, cs + ds) == MenuAfter(MenuAfter(open, cs), ds)
    decreases |cs|
  {
    if cs != [] {
      assert (cs + ds)[1..] == cs[1..] + ds;
      MenuAfterConcat(MenuNext(open, cs[0]), cs[1..], ds);
    } else {
      assert cs + ds == ds;
    }
  }

  /** After a mobile-link click, only the button presses since then decide the menu. */
  lemma MenuClosedByMobileLink(open: bool, cs: seq<Click>, ds: seq<Click>)
    requires MobileLink !in ds
    ensures MenuAfter(open, cs + [MobileLink] + ds) == (Presses(ds) % 2 == 1)
  {
    MenuAfterConcat(open, cs + [MobileLink], ds);
    MenuAfterConcat(open, cs, [MobileLink]);
    assert MenuAfter(MenuAfter(open, cs), [MobileLink]) == false;
    MenuParity(false, ds);
  }

  /** The state cells of `Portfolio` that these rules read and write. */
  class Portfolio {
    var isMenuOpen: bool
    var activeSection: string

    ghost predicate Valid()
      reads this
    {
      activeSection in SectionIds
    }

    constructor ()
      ensures Valid() && !isMenuOpen && activeSection == "home"
    {
      isMenuOpen := false;
      activeSection := "home";
    }

    /**
     * The scroll handler: visit the sections in order, skip missing
     * elements, and select the first containing `scrollY + 100`; with no
     * match the active section stays.
     */
    method HandleScroll(layout: Layout, scrollY: int)
      requires Valid()
      modifies this`activeSection
      ensures Valid()
      ensures activeSection == match SpyPick(layout, scrollY)
                               case Some(id) => id
                               case None => old(activeSection)
    {
      var sections := SectionIds;
      var scrollPosition := scrollY + SpyOffset;
      var i := 0;
      while i < |sections|
        invariant 0 <= i <= |sections|
        invariant activeSection == old(activeSection)
        invariant FirstContaining(sections, layout, scrollPosition) == FirstContaining(sections[i..], layout, scrollPosition)
      {
        var section := sections[i];
        if section in layout {
          var offsetTop := layout[section].offsetTop;
          var offsetHeight := layout[section].offsetHeight;
          if scrollPosition >= offsetTop && scrollPosition < offsetTop + offsetHeight {
            activeSection := section;
            break;
          }
        }
        assert sections[i..][1..] == sections[i + 1..];
        i := i + 1;
      }
    }

    /** The mobile menu button. */
    method ToggleMenu()
      modifies this`isMenuOpen
      ensures isMenuOpen == MenuNext(old(isMenuOpen), MenuButton) == !old(isMenuOpen)
    {
      isMenuOpen := !isMenuOpen;
    }

    /** A link of the mobile menu; scrolling to the section is not modelled. */
    method ClickMobileLink()
      modifies this`isMenuOpen
      ensures isMenuOpen == MenuNext(old(isMenuOpen), MobileLink) == false
    {
      isMenuOpen := false;
    }

    /**
     * A link of the desktop menu only scrolls: the method may modify
     * nothing, and neither state cell changes.
     */
    method ClickDesktopLink()
      ensures unchanged(this)
    {
    }
  }

  /**
   * `TypingText({ text, delay })`: each timeout appends the next character
   * and advances the index, and the following timeout is armed with
   * `delay + 50 * currentIndex`.
   */
  class TypingText {
    const text: string
    const delayMs: nat
    var displayText: string
    var currentIndex: nat
    /** When, in ms after the first effect run, the pending timeout was armed. */
    ghost var armedAtMs: nat

    ghost predicate Valid()
      reads this
    {
      && currentIndex <= |text| && displayText == text[..currentIndex]
      && armedAtMs == (if currentIndex == 0 then 0 else TypingArrivalMs(delayMs, currentIndex - 1))
    }

    constructor (text: string, delayMs: nat)
      ensures Valid() && this.text == text && this.delayMs == delayMs
      ensures displayText == "" && currentIndex == 0 && armedAtMs == 0
    {
      this.text := text;
      this.delayMs := delayMs;
      displayText := "";
      currentIndex := 0;
      armedAtMs := 0;
    }

    /**
     * The wait the effect arms the next timeout with: the delay, plus 50 ms
     * per character already shown. The next character shows when it
     * elapses, at its arrival time.
     */
    function NextWaitMs(): (w: int)
      reads this
      ensures Valid() ==> w == delayMs + 50 * |displayText|
      ensures Valid() && currentIndex < |text| ==> armedAtMs + w == TypingArrivalMs(delayMs, |displayText|)
    {
      delayMs + 50 * currentIndex
    }

    /**
     * One timeout: the text grows by exactly one character until it is
     * complete, and the effect re-arms the timer at the firing time; once
     * complete, nothing changes and no timer is armed again.
     */
    method Fire()
      requires Valid()
      modifies this`displayText, this`currentIndex, this`armedAtMs
      ensures Valid()
      ensures old(currentIndex) < |text| ==>
                && displayText == old(displayText) + [text[old(currentIndex)]] && currentIndex == old(currentIndex) + 1
                && armedAtMs == old(armedAtMs) + old(NextWaitMs())
      ensures old(currentIndex) == |text| ==>
                displayText == old(displayText) && currentIndex == old(currentIndex) && armedAtMs == old(armedAtMs)
    {
      if currentIndex < |text| {
        armedAtMs := armedAtMs + NextWaitMs();
        displayText := displayText + [text[currentIndex]];
        assert text[..currentIndex + 1] == text[..currentIndex] + [text[currentIndex]];
        currentIndex := currentIndex + 1;
      }
    }
  }

  /** The time, after the effect first runs, at which character k appears: the waits before characters 0..k added up. */
  function TypingArrivalMs(delayMs: nat, k: nat): nat
  {
    if k == 0 then delayMs else TypingArrivalMs(delayMs, k - 1) + delayMs + 50 * k
  }

  /**
   * Because the delay is re-applied before every character, character k
   * appears after (k + 1) * delay + 25 * k * (k + 1) ms, growing
   * quadratically.
   */
  lemma {:induction false} TypingArrivalClosedForm(delayMs: nat, k: nat)
    ensures TypingArrivalMs(delayMs, k) == (k + 1) * delayMs + 25 * k * (k + 1)
  {
    if k > 0 {
      TypingArrivalClosedForm(delayMs, k - 1);
      assert 25 * (k - 1) * k + 50 * k == 25 * k * (k + 1);
    }
  }
}
