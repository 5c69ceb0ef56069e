/**
 The scrollbar activity flag of script.js (`handleScroll` and the global
 `scrollTimeout`), as values. Timers are identified by the handles
 `setTimeout` returns; `pending` is the set of removal timers not yet fired or
 cleared, so that "exactly one removal is pending" is proved, not assumed.
 */
module Scrollbar {
  import opened Wrappers

  type TimerId = nat

  datatype ScrollState = ScrollState(
    scrolling: bool,                  // class `scrolling` on the root element
    scrollTimeout: Option<TimerId>,   // the global `scrollTimeout` (undefined at load)
    pending: set<TimerId>,            // removal timers still queued
    nextTimer: TimerId)               // the handle the next `setTimeout` returns

  function Init(): (s: ScrollState)
    ensures s.scrollTimeout == None
    ensures Inv(s) && !s.scrolling && s.pending == {}
  {
    ScrollState(false, None, {}, 1)
  }

  /** `handleScroll`: set the class, clear the previous removal, queue a new one. */
  function HandleScroll(s: ScrollState): (r: ScrollState)
    ensures r.scrolling && r.scrollTimeout == Some(s.nextTimer) && s.nextTimer in r.pending
    ensures r.nextTimer == s.nextTimer + 1
    ensures s.scrollTimeout.Some? ==> s.scrollTimeout.value !in r.pending || s.scrollTimeout.value == s.nextTimer
    ensures Inv(s) ==> r.pending == {s.nextTimer}
    ensures Inv(s) ==> Inv(r)
  {
    var cleared := if s.scrollTimeout.Some? then s.pending - {s.scrollTimeout.value} else s.pending;
    s.(scrolling := true, pending := cleared + {s.nextTimer}, scrollTimeout := Some(s.nextTimer),
       nextTimer := s.nextTimer + 1)
  }

  /** A queued removal timer fires and removes the class. */
  function FireRemoval(s: ScrollState, id: TimerId): (r: ScrollState)
    requires id in s.pending
    ensures !r.scrolling && id !in r.pending
    ensures r.(scrolling := s.scrolling, pending := s.pending) == s
    ensures Inv(s) ==> r.pending == {}
    ensures Inv(s) ==> Inv(r)
  {
    s.(scrolling := false, pending := s.pending - {id})
  }

  /**
   Every pending removal is the one `scrollTimeout` names, every handle was
   issued already, and the class is set exactly while a removal is pending.
   */
  ghost predicate Inv(s: ScrollState) {
    && (s.scrollTimeout.None? ==> s.pending == {})
    && (s.scrollTimeout.Some? ==> s.pending <= {s.scrollTimeout.value} && s.scrollTimeout.value < s.nextTimer)
    && (s.scrolling <==> s.pending != {})
  }

  datatype ScrollEvent = Scroll | Timeout(id: TimerId)

  /** A timeout runs the timer with that handle, if it is still queued. */
  function Step(s: ScrollState, e: ScrollEvent): (r: ScrollState)
    ensures Inv(s) ==> Inv(r)
  {
    match e
    case Scroll => HandleScroll(s)
    case Timeout(id) => if id in s.pending then FireRemoval(s, id) else s
  }

  function Run(s: ScrollState, events: seq<ScrollEvent>): ScrollState
    decreases |events|
  {
    if events == [] then s else Run(Step(s, events[0]), events[1..])
  }

  lemma {:induction false} RunPreservesInv(s: ScrollState, events: seq<ScrollEvent>)
    requires Inv(s)
    ensures Inv(Run(s, events))
    decreases |events|
  {
    if events != [] {
      RunPreservesInv(Step(s, events[0]), events[1..]);
    }
  }

  /** From script load: at most one removal is pending, and the class is set exactly while one is. */
  lemma AtMostOneRemovalPending(events: seq<ScrollEvent>)
    ensures |Run(Init(), events).pending| <= 1
    ensures Run(Init(), events).scrolling <==> |Run(Init(), events).pending| == 1
  {
    var s := Run(Init(), events);
    RunPreservesInv(Init(), events);
    if s.scrollTimeout.Some? {
      var t := s.scrollTimeout.value;
      assert s.pending == {} || s.pending == {t};
    }
  }

  /**
   After a scroll the class is set and one removal, the latest, is pending;
   once it fires the class is gone and nothing is left to remove it again.
   */
  lemma ScrollThenPause(s: ScrollState)
    requires Inv(s)
    ensures HandleScroll(s).pending == {s.nextTimer} && HandleScroll(s).scrolling
    ensures var r := FireRemoval(HandleScroll(s), s.nextTimer); !r.scrolling && r.pending == {}
  {
  }

  // Each component has its own event type, so `Scrolls`, `Run` and
  // `RunPreservesInv` deliberately repeat the shape of those in `Header`.
  function Scrolls(n: nat): (evs: seq<ScrollEvent>)
    ensures |evs| == n && forall i :: 0 <= i < n ==> evs[i] == Scroll
  {
    seq(n, _ => Scroll)
  }

  /**
   Continuous scrolling keeps the class set, and only the removal queued by the
   last scroll event is pending.
   */
  lemma {:induction false} ContinuousScrolling(s: ScrollState, n: nat)
    requires Inv(s) && n > 0
    ensures Run(s, Scrolls(n)).scrolling
    ensures Run(s, Scrolls(n)).pending == {s.nextTimer + n - 1}
    ensures Run(s, Scrolls(n)).nextTimer == s.nextTimer + n
    decreases n
  {
    assert Scrolls(n)[1..] == Scrolls(n - 1);
    if n > 1 {
      ContinuousScrolling(HandleScroll(s), n - 1);
    }
  }
}
