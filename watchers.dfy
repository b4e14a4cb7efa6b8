/** The two IntersectionObserver callbacks of main.js: the reveal observer
    adds the `visible` class, the counter observer starts animateCounter;
    both then stop observing the element. The browser's geometry (the
    thresholds and the root margin) is left to the browser: an entry arrives
    with its `isIntersecting` already decided. Elements are identified by
    natural numbers. */
module Watchers {
  import opened Counter

  /** Options of the reveal observer (main.js:48-51). */
  const RevealThreshold: real := 0.15
  const RevealBottomMarginPx: int := -50
  /** Option of the counter observer (main.js:66). */
  const CounterThreshold: real := 0.5

  /** An IntersectionObserverEntry: its target and whether it intersects. */
  datatype Entry = Entry(target: nat, isIntersecting: bool)

  /** What an observer's callback has done so far: the elements it still
      observes, and the elements it has triggered (for the reveal observer,
      those carrying `visible`; for the counter observer, those whose
      animation has started). */
  datatype Watch = Watch(observed: set<nat>, triggered: set<nat>)

  /** The targets of the intersecting entries of a batch. */
  function Hits(entries: seq<Entry>): set<nat> {
    set e | e in entries && e.isIntersecting :: e.target
  }

  /** The callback body for one entry: if it intersects, trigger the target
      and unobserve it. */
  function Handle(w: Watch, e: Entry): Watch {
    if e.isIntersecting then Watch(w.observed - {e.target}, w.triggered + {e.target}) else w
  }

  /** `entries.forEach(...)`: the callback over one batch. */
  function Deliver(w: Watch, entries: seq<Entry>): (r: Watch)
    ensures r.triggered == w.triggered + Hits(entries)
    ensures r.observed == w.observed - Hits(entries)
    decreases |entries|
  {
    if entries == [] then w
    else
      var last := entries[|entries| - 1];
      var init := entries[..|entries| - 1];
      assert entries == init + [last];
      assert Hits(entries) == Hits(init) + (if last.isIntersecting then {last.target} else {});
      Handle(Deliver(w, init), last)
  }

  /** The browser reports a batch only for elements the observer watches. */
  predicate ReportsObserved(w: Watch, entries: seq<Entry>) {
    forall e :: e in entries ==> e.target in w.observed
  }

  /** The state after a sequence of callback batches. */
  function Replay(w: Watch, batches: seq<seq<Entry>>): Watch
    decreases |batches|
  {
    if batches == [] then w else Replay(Deliver(w, batches[0]), batches[1..])
  }

  /** Every batch of the sequence reports only elements observed when it
      arrives. */
  predicate WellReported(w: Watch, batches: seq<seq<Entry>>)
    decreases |batches|
  {
    batches == [] || (ReportsObserved(w, batches[0]) && WellReported(Deliver(w, batches[0]), batches[1..]))
  }

  /** The number of batches in which the callback acts on element `t`: one
      of the batch's entries for it intersects. The callback itself does not
      check whether `t` is still observed. */
  function TriggerCount(w: Watch, batches: seq<seq<Entry>>, t: nat): nat
    decreases |batches|
  {
    if batches == [] then 0
    else
      (if t in Hits(batches[0]) then 1 else 0)
      + TriggerCount(Deliver(w, batches[0]), batches[1..], t)
  }

  /** Once an element is unobserved, the browser reports it no more, so the
      callback never acts on it again. */
  lemma {:induction false} UnobservedNeverTriggers(w: Watch, batches: seq<seq<Entry>>, t: nat)
    requires WellReported(w, batches)
    requires t !in w.observed
    ensures TriggerCount(w, batches, t) == 0
    decreases |batches|
  {
    if batches != [] {
      assert t !in Hits(batches[0]) by {
        forall e | e in batches[0] ensures e.target != t {
          assert e.target in w.observed;
        }
      }
      UnobservedNeverTriggers(Deliver(w, batches[0]), batches[1..], t);
    }
  }

  /** One-shot: over any sequence of batches the browser can deliver, each
      element is triggered at most once, however often it re-enters the
      viewport. */
  lemma {:induction false} TriggersAtMostOnce(w: Watch, batches: seq<seq<Entry>>, t: nat)
    requires WellReported(w, batches)
    ensures TriggerCount(w, batches, t) <= 1
    decreases |batches|
  {
    if batches != [] {
      var next := Deliver(w, batches[0]);
      if t in Hits(batches[0]) {
        UnobservedNeverTriggers(next, batches[1..], t);
      } else {
        TriggersAtMostOnce(next, batches[1..], t);
      }
    }
  }

  /** The trigger flag is never cleared. */
  lemma {:induction false} TriggeredNeverCleared(w: Watch, batches: seq<seq<Entry>>)
    ensures w.triggered <= Replay(w, batches).triggered
    decreases |batches|
  {
    if batches != [] {
      TriggeredNeverCleared(Deliver(w, batches[0]), batches[1..]);
    }
  }

  /** The `.reveal` elements and the reveal observer. */
  class RevealObserver {
    var observed: set<nat>
    var visible: set<nat>

    /** `revealElements.forEach(el => revealObserver.observe(el))`; the class
        lists are left as the markup has them. */
    constructor (elements: set<nat>, initiallyVisible: set<nat>)
      ensures observed == elements && visible == initiallyVisible
    {
      observed, visible := elements, initiallyVisible;
    }

    /** The reveal observer's callback on one batch of entries. */
    method OnIntersections(entries: seq<Entry>)
      modifies this
      ensures Watch(observed, visible) == Deliver(Watch(old(observed), old(visible)), entries)
    {
      for i := 0 to |entries|
        invariant Watch(observed, visible) == Deliver(Watch(old(observed), old(visible)), entries[..i])
      {
        assert entries[..i + 1][..i] == entries[..i];
        var entry := entries[i];
        if entry.isIntersecting {
          visible := visible + {entry.target};
          observed := observed - {entry.target};
        }
      }
      assert entries[..|entries|] == entries;
    }
  }

  /** The `[data-count]` elements and the counter observer. */
  class CounterObserver {
    var observed: set<nat>
    var started: set<nat>
    /** Text content of the counter elements. */
    var texts: map<nat, string>
    /** `parseInt(el.getAttribute('data-count'))` of each counter element. */
    const counts: map<nat, nat>

    constructor (counts: map<nat, nat>, texts: map<nat, string>)
      ensures observed == counts.Keys && started == {}
      ensures this.counts == counts && this.texts == texts
    {
      this.counts := counts;
      this.texts := texts;
      observed, started := counts.Keys, {};
    }

    /** The counter observer's callback on one batch of entries: each
        intersecting entry runs animateCounter to its end on its element and
        unobserves it. */
    method OnIntersections(entries: seq<Entry>)
      requires forall e :: e in entries ==> e.target in counts
      modifies this
      ensures Watch(observed, started) == Deliver(Watch(old(observed), old(started)), entries)
      ensures texts.Keys == old(texts).Keys + Hits(entries)
      ensures forall t :: t in Hits(entries) ==> texts[t] == Decimal(counts[t]) + "+"
      ensures forall t :: t in old(texts) && t !in Hits(entries) ==> texts[t] == old(texts)[t]
    {
      for i := 0 to |entries|
        invariant Watch(observed, started) == Deliver(Watch(old(observed), old(started)), entries[..i])
        invariant texts.Keys == old(texts).Keys + Hits(entries[..i])
        invariant forall t :: t in Hits(entries[..i]) ==> texts[t] == Decimal(counts[t]) + "+"
        invariant forall t :: t in old(texts) && t !in Hits(entries[..i]) ==> texts[t] == old(texts)[t]
      {
        assert entries[..i + 1][..i] == entries[..i];
        var entry := entries[i];
        assert entries[i] in entries;
        if entry.isIntersecting {
          var frames := AnimateCounter(counts[entry.target]);
          texts := texts[entry.target := frames[|frames| - 1]];
          started := started + {entry.target};
          observed := observed - {entry.target};
        }
        assert Hits(entries[..i + 1]) == Hits(entries[..i]) + (if entry.isIntersecting then {entry.target} else {});
      }
      assert entries[..|entries|] == entries;
    }
  }
}
