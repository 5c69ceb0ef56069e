/**
 The header scroll controller of script.js (`updateHeader`, `requestTick` and
 the globals `lastScrollY` and `ticking`), as values.

 A scroll event calls `requestTick`, which queues `updateHeader` for the next
 animation frame unless one is already queued. `pendingFrames` counts the
 queued callbacks, so that "at most one is queued" is a proved invariant and
 not a consequence of the representation. The scroll offset the callback reads
 from `window.scrollY` is a parameter of the frame.
 */
module Header {
  import opened Dom

  datatype HeaderState = HeaderState(
    hasHeader: bool,      // the markup has a `.header` element
    style: HeaderStyle,   // the header's inline style
    lastScrollY: int,
    ticking: bool,
    pendingFrames: nat)   // queued animation-frame callbacks to `updateHeader`

  /** Offset beyond which the header gets its glass look. */
  const GlassOffset := 30
  /** Offset beyond which scrolling down hides the header. */
  const HideOffset := 100

  /** The state at script load: `lastScrollY` is the offset the page was loaded at. */
  function Init(hasHeader: bool, scrollY: int): (s: HeaderState)
    ensures s.hasHeader == hasHeader && s.style == NoInlineStyle && s.lastScrollY == scrollY
    ensures Inv(s) && !s.ticking && s.pendingFrames == 0
  {
    HeaderState(hasHeader, NoInlineStyle, scrollY, false, 0)
  }

  /** Translucent background, blurred backdrop (both spellings) and the subtle border. */
  predicate IsGlass(st: HeaderStyle) {
    st.background == Frosted && st.backdropFilter == Blurred && st.webkitBackdropFilter == Blurred
    && st.borderBottom == Hairline
  }

  /** Transparent background, no backdrop filter, no border. */
  predicate IsClear(st: HeaderStyle) {
    st.background == Transparent && st.backdropFilter == Unfiltered && st.webkitBackdropFilter == Unfiltered
    && st.borderBottom == NoBorder
  }

  /** None of the four glass properties was ever written. */
  predicate GlassUntouched(st: HeaderStyle) {
    st.background == BackgroundUnset && st.backdropFilter == BackdropUnset
    && st.webkitBackdropFilter == BackdropUnset && st.borderBottom == BorderUnset
  }

  /** The glass step of `updateHeader`: depends on the current offset only. */
  function WithGlass(st: HeaderStyle, scrollY: int): (r: HeaderStyle)
    ensures IsGlass(r) <==> scrollY > GlassOffset
    ensures IsClear(r) <==> scrollY <= GlassOffset
    ensures r.transform == st.transform && r.transition == st.transition
  {
    if scrollY > GlassOffset then
      st.(background := Frosted, backdropFilter := Blurred, webkitBackdropFilter := Blurred,
          borderBottom := Hairline)
    else
      st.(background := Transparent, backdropFilter := Unfiltered, webkitBackdropFilter := Unfiltered,
          borderBottom := NoBorder)
  }

  /** The hide/show step of `updateHeader`: compares the current offset with the previous one. */
  function WithDirection(st: HeaderStyle, lastScrollY: int, scrollY: int): (r: HeaderStyle)
    ensures scrollY > lastScrollY && scrollY > HideOffset ==> r.transform == OffScreen && r.transition == Slide
    ensures scrollY < lastScrollY ==> r.transform == InPlace && r.transition == Slide
    ensures !(scrollY > lastScrollY && scrollY > HideOffset) && scrollY >= lastScrollY ==>
              r.transform == st.transform && r.transition == st.transition
    ensures r.(transform := st.transform, transition := st.transition) == st
  {
    if scrollY > lastScrollY && scrollY > HideOffset then
      st.(transform := OffScreen, transition := Slide)
    else if scrollY < lastScrollY then
      st.(transform := InPlace, transition := Slide)
    else
      st
  }

  /** `requestTick`: queue one frame callback unless one is queued already. */
  function RequestTick(s: HeaderState): (r: HeaderState)
    ensures r.ticking
    ensures r.pendingFrames == if s.ticking then s.pendingFrames else s.pendingFrames + 1
    ensures r.(ticking := s.ticking, pendingFrames := s.pendingFrames) == s
    ensures Inv(s) ==> Inv(r)
  {
    if !s.ticking then s.(pendingFrames := s.pendingFrames + 1, ticking := true) else s
  }

  /**
   One queued `updateHeader` callback runs, reading `scrollY`. Without a
   `.header` element the first style write throws, so the callback dies before
   it resets `lastScrollY` and `ticking`.
   */
  function UpdateHeader(s: HeaderState, scrollY: int): (r: HeaderState)
    requires s.pendingFrames > 0
    ensures r.pendingFrames == s.pendingFrames - 1 && r.hasHeader == s.hasHeader
    ensures !s.hasHeader ==> r == s.(pendingFrames := s.pendingFrames - 1)
    ensures s.hasHeader ==> r.lastScrollY == scrollY && !r.ticking
    ensures s.hasHeader ==> (IsGlass(r.style) <==> scrollY > GlassOffset)
    ensures s.hasHeader ==> (IsClear(r.style) <==> scrollY <= GlassOffset)
    ensures s.hasHeader ==>
              (r.style.transform == OffScreen <==>
                 (scrollY > s.lastScrollY && scrollY > HideOffset)
                 || (s.style.transform == OffScreen && scrollY >= s.lastScrollY))
    ensures s.hasHeader && scrollY > s.lastScrollY && scrollY > HideOffset ==> r.style.transition == Slide
    ensures s.hasHeader && scrollY < s.lastScrollY ==> r.style.transform == InPlace && r.style.transition == Slide
    ensures s.hasHeader && !(scrollY > s.lastScrollY && scrollY > HideOffset) && scrollY >= s.lastScrollY ==>
              r.style.transform == s.style.transform && r.style.transition == s.style.transition
    ensures Inv(s) ==> Inv(r)
  {
    if !s.hasHeader then
      s.(pendingFrames := s.pendingFrames - 1)
    else
      var st := WithDirection(WithGlass(s.style, scrollY), s.lastScrollY, scrollY);
      s.(style := st, lastScrollY := scrollY, ticking := false, pendingFrames := s.pendingFrames - 1)
  }

  /**
   What every reachable state satisfies: at most one frame is queued, and one
   is queued whenever `ticking` is set (unless the header is missing); a hidden
   header was last seen beyond the hide offset; a transition is set exactly when
   a transform is; and the glass look matches the last offset seen.
   */
  ghost predicate Inv(s: HeaderState) {
    && s.pendingFrames <= 1
    && (s.pendingFrames == 1 ==> s.ticking)
    && (s.hasHeader && s.ticking ==> s.pendingFrames == 1)
    && (s.style.transform == OffScreen ==> s.lastScrollY > HideOffset)
    && (s.style.transition == Slide <==> s.style.transform != TransformUnset)
    && (|| GlassUntouched(s.style)
        || (IsGlass(s.style) && s.lastScrollY > GlassOffset)
        || (IsClear(s.style) && s.lastScrollY <= GlassOffset))
  }

  /** A scroll event, or an animation frame at which the page is scrolled to `scrollY`. */
  datatype HeaderEvent = Scroll | Frame(scrollY: int)

  /** A frame runs the queued callback, if there is one. */
  function Step(s: HeaderState, e: HeaderEvent): (r: HeaderState)
    ensures Inv(s) ==> Inv(r)
  {
    match e
    case Scroll => RequestTick(s)
    case Frame(y) => if s.pendingFrames > 0 then UpdateHeader(s, y) else s
  }

  function Run(s: HeaderState, events: seq<HeaderEvent>): HeaderState
    decreases |events|
  {
    if events == [] then s else Run(Step(s, events[0]), events[1..])
  }

  function Scrolls(n: nat): (evs: seq<HeaderEvent>)
    ensures |evs| == n && forall i :: 0 <= i < n ==> evs[i] == Scroll
  {
    seq(n, _ => Scroll)
  }

  lemma {:induction false} RunPreservesInv(s: HeaderState, events: seq<HeaderEvent>)
    requires Inv(s)
    ensures Inv(Run(s, events))
    decreases |events|
  {
    if events != [] {
      RunPreservesInv(Step(s, events[0]), events[1..]);
    }
  }

  /**
   From script load, whatever the events: at most one header update is queued,
   a queued one always has `ticking` set, and the header is hidden only if the
   last offset seen is beyond the hide offset.
   */
  lemma AtMostOneFramePending(hasHeader: bool, scrollY: int, events: seq<HeaderEvent>)
    ensures Run(Init(hasHeader, scrollY), events).pendingFrames <= 1
    ensures Run(Init(hasHeader, scrollY), events).pendingFrames == 1 ==> Run(Init(hasHeader, scrollY), events).ticking
    ensures Run(Init(hasHeader, scrollY), events).style.transform == OffScreen ==>
              Run(Init(hasHeader, scrollY), events).lastScrollY > HideOffset
  {
    RunPreservesInv(Init(hasHeader, scrollY), events);
  }

  /** A burst of scroll events between two frames queues exactly one update and changes nothing else. */
  lemma {:induction false} BurstQueuesOneFrame(s: HeaderState, n: nat)
    requires Inv(s) && s.hasHeader && n > 0
    ensures Run(s, Scrolls(n)) == s.(ticking := true, pendingFrames := 1)
    decreases n
  {
    var evs := Scrolls(n);
    assert evs[1..] == Scrolls(n - 1);
    if n > 1 {
      BurstQueuesOneFrame(RequestTick(s), n - 1);
    }
  }

  /**
   Without a header element the first frame throws and leaves `ticking` set
   with nothing queued: from then on no event changes any state.
   */
  lemma {:induction false} FrozenWithoutHeader(s: HeaderState, events: seq<HeaderEvent>)
    requires !s.hasHeader && s.ticking && s.pendingFrames == 0
    ensures Run(s, events) == s
    decreases |events|
  {
    if events != [] {
      FrozenWithoutHeader(Step(s, events[0]), events[1..]);
    }
  }

  lemma MissingHeaderStopsUpdates(scrollY: int, frameY: int, events: seq<HeaderEvent>)
    ensures Run(Init(false, scrollY), [Scroll, Frame(frameY)] + events)
            == Init(false, scrollY).(ticking := true)
  {
    var evs := [Scroll, Frame(frameY)] + events;
    assert evs[1..] == [Frame(frameY)] + events;
    assert evs[1..][1..] == events;
    FrozenWithoutHeader(Init(false, scrollY).(ticking := true), events);
  }

  /**
   Scrolling down from 80 to 90 does not hide the header (offset not beyond
   100) and leaves its transform as it was; scrolling back up to 85 shows it.
   */
  lemma SmallScrollDownThenUpShows(s: HeaderState)
    requires Inv(s) && s.hasHeader && s.lastScrollY == 80 && !s.ticking
    ensures Run(s, [Scroll, Frame(90)]).style.transform == s.style.transform
    ensures Run(s, [Scroll, Frame(90), Scroll, Frame(85)]).style.transform == InPlace
  {
  }
}
