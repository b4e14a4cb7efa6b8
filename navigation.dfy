/** The navbar's `scrolled` class and the in-page anchor links of main.js.
    Scroll positions and element tops are CSS pixels, as reals. */
module Navigation {

  /** Vertical scroll beyond which the navbar carries `scrolled`. */
  const ScrolledThreshold: real := 80.0
  /** Height left free above an anchor's target when scrolling to it. */
  const AnchorOffset: real := 80.0

  /** The condition of the scroll listener: `window.scrollY > 80`. */
  predicate IsScrolled(scrollY: real) {
    scrollY > ScrolledThreshold
  }

  /** The navbar's `scrolled` flag after the scroll events `positions`,
      starting from `flag`; `listening` says whether the scroll listener was
      installed (it is not when the markup already sets `scrolled`). */
  function ScrolledAfter(flag: bool, listening: bool, positions: seq<real>): bool
    decreases |positions|
  {
    if positions == [] then flag
    else ScrolledAfter(if listening then IsScrolled(positions[0]) else flag, listening, positions[1..])
  }

  /** With the listener installed the flag depends on the latest scroll
      position alone: set exactly when it is beyond 80, cleared otherwise. */
  lemma {:induction false} ScrolledTracksLatest(flag: bool, positions: seq<real>)
    requires positions != []
    ensures ScrolledAfter(flag, true, positions) <==> positions[|positions| - 1] > 80.0
    decreases |positions|
  {
    if |positions| > 1 {
      ScrolledTracksLatest(IsScrolled(positions[0]), positions[1..]);
    }
  }

  /** A navbar whose markup already carries `scrolled` keeps it for good. */
  lemma {:induction false} PresetScrolledKept(positions: seq<real>)
    ensures ScrolledAfter(true, false, positions)
    decreases |positions|
  {
    if positions != [] {
      PresetScrolledKept(positions[1..]);
    }
  }

  /** The navbar element. */
  class Navbar {
    var scrolled: bool
    /** Whether the scroll listener was installed (main.js:5). */
    const listening: bool

    constructor (startsScrolled: bool)
      ensures scrolled == startsScrolled && listening == !startsScrolled
    {
      scrolled := startsScrolled;
      listening := !startsScrolled;
    }

    /** A scroll event at vertical position `scrollY`. */
    method OnScroll(scrollY: real)
      modifies this
      ensures scrolled == ScrolledAfter(old(scrolled), listening, [scrollY])
    {
      if listening {
        if scrollY > ScrolledThreshold {
          scrolled := true;
        } else {
          scrolled := false;
        }
      }
    }
  }

  /** What a click on an in-page anchor leads to. */
  datatype AnchorAction =
    | BrowserDefault           // the handler returns without preventDefault
    | SmoothScrollTo(top: real) // preventDefault, then window.scrollTo({top, behavior: 'smooth'})

  /** The click handler of an anchor whose href starts with '#'. `tops` maps
      the id of each element of the page to its top in document coordinates;
      the target's `getBoundingClientRect().top` is that minus `pageYOffset`.
      The handler requests a smooth scroll to the target's document top
      minus 80, wherever the page was scrolled at click time; the browser
      then clamps that request to the page's scroll range. */
  function OnAnchorClick(href: string, tops: map<string, real>, pageYOffset: real): (r: AnchorAction)
    requires |href| >= 1 && href[0] == '#'
    ensures href == "#" ==> r == BrowserDefault
    ensures href != "#" ==> (r.SmoothScrollTo? <==> href[1..] in tops)
    ensures r.SmoothScrollTo? ==> tops[href[1..]] - r.top == AnchorOffset
  {
    if href == "#" then BrowserDefault
    else if href[1..] !in tops then BrowserDefault
    else
      var rectTop := tops[href[1..]] - pageYOffset;
      SmoothScrollTo(rectTop + pageYOffset - AnchorOffset)
  }
}
