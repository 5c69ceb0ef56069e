/**
 The contact modal controller of script.js (`getModal`, `openModal`,
 `closeModal`, `addModalEventListeners` and the globals `modal`, `isModalOpen`
 and `modalEventListenersAdded`), as values.

 `openModal` queues an animation-frame callback that adds class `show`;
 `closeModal` queues a 200ms timer that sets display to none if the modal is
 closed when it fires. Both are counted (`pendingShows`, `pendingHides`) and
 fired explicitly. There is no clock: a timer may fire at any point after it is
 queued. The listeners registered on the document are counted too.
 */
module Modal {
  import opened Dom

  datatype ModalState = ModalState(
    hasModal: bool,           // the markup has `#contactModal`
    cached: bool,             // the global `modal` holds the element
    open: bool,               // `isModalOpen`
    element: ModalElement,    // the modal's display and `show` class
    bodyOverflow: Overflow,   // `document.body.style.overflow`
    listenersAdded: bool,     // `modalEventListenersAdded`
    clickListeners: nat,      // click listeners registered on the document
    keyListeners: nat,        // keydown listeners registered on the document
    pendingShows: nat,        // queued frame callbacks adding `show`
    pendingHides: nat)        // queued 200ms hide timers

  /** The state at script load, before `addModalEventListeners` runs. */
  function Init(hasModal: bool): (s: ModalState)
    ensures s.hasModal == hasModal && !s.cached && s.element == ModalElement(DisplayUnset, false)
    ensures s.bodyOverflow == OverflowUnset && s.pendingShows == 0 && s.pendingHides == 0
    ensures Inv(s) && !s.open && !s.listenersAdded && s.clickListeners == 0 && s.keyListeners == 0
  {
    ModalState(hasModal, false, false, ModalElement(DisplayUnset, false), OverflowUnset, false, 0, 0, 0, 0)
  }

  /** `getModal`: look the element up only while none is cached. */
  function GetModal(s: ModalState): (r: ModalState)
    ensures r.cached <==> s.cached || s.hasModal
    ensures s.cached ==> r == s
    ensures r.(cached := s.cached) == s
    ensures Inv(s) ==> Inv(r)
  {
    if !s.cached then s.(cached := s.hasModal) else s
  }

  /** `openModal`. */
  function OpenModal(s: ModalState): (r: ModalState)
    ensures s.open ==> r == s
    ensures !s.open && !(s.cached || s.hasModal) ==> r == s
    ensures !s.open && (s.cached || s.hasModal) ==>
              && r.open && r.cached
              && r.element == s.element.(display := DisplayBlock)
              && r.bodyOverflow == OverflowHidden
              && r.pendingShows == s.pendingShows + 1
              && r.pendingHides == s.pendingHides
              && r.listenersAdded == s.listenersAdded
    ensures r.open <==> s.open || s.cached || s.hasModal
    ensures r.(open := s.open, cached := s.cached, element := s.element, bodyOverflow := s.bodyOverflow,
               pendingShows := s.pendingShows) == s
    ensures Inv(s) ==> Inv(r)
  {
    if s.open then s
    else
      var s1 := GetModal(s);
      if s1.cached then
        s1.(open := true, element := s1.element.(display := DisplayBlock), bodyOverflow := OverflowHidden,
            pendingShows := s1.pendingShows + 1)
      else s1
  }

  /** `closeModal`. */
  function CloseModal(s: ModalState): (r: ModalState)
    ensures !s.open ==> r == s
    ensures s.open && (s.cached || s.hasModal) ==>
              && !r.open && r.cached
              && r.element == s.element.(show := false)
              && r.bodyOverflow == OverflowAuto
              && r.pendingHides == s.pendingHides + 1
              && r.pendingShows == s.pendingShows
              && r.listenersAdded == s.listenersAdded
    ensures !r.open <==> !s.open || s.cached || s.hasModal
    ensures r.(open := s.open, cached := s.cached, element := s.element, bodyOverflow := s.bodyOverflow,
               pendingHides := s.pendingHides) == s
    ensures Inv(s) ==> Inv(r)
  {
    if !s.open then s
    else
      var s1 := GetModal(s);
      if s1.cached then
        s1.(open := false, element := s1.element.(show := false), bodyOverflow := OverflowAuto,
            pendingHides := s1.pendingHides + 1)
      else s1
  }

  /** A queued frame callback of `openModal` adds `show`, whether or not the modal is still open. */
  function FireShow(s: ModalState): (r: ModalState)
    requires s.pendingShows > 0
    ensures r.element.show && r.element.display == s.element.display
    ensures r.open == s.open && r.pendingShows == s.pendingShows - 1
    ensures r.(element := s.element, pendingShows := s.pendingShows) == s
    ensures Inv(s) ==> Inv(r)
  {
    s.(element := s.element.(show := true), pendingShows := s.pendingShows - 1)
  }

  /** A queued timer of `closeModal` sets display to none exactly when the modal is closed at that moment. */
  function FireHide(s: ModalState): (r: ModalState)
    requires s.pendingHides > 0
    ensures !s.open ==> r.element.display == DisplayNone
    ensures s.open ==> r.element.display == s.element.display
    ensures r.element.show == s.element.show && r.open == s.open
    ensures r.pendingHides == s.pendingHides - 1
    ensures r.(element := s.element, pendingHides := s.pendingHides) == s
    ensures Inv(s) ==> Inv(r)
  {
    var e := if !s.open then s.element.(display := DisplayNone) else s.element;
    s.(element := e, pendingHides := s.pendingHides - 1)
  }

  /** `addModalEventListeners`: registers one click and one keydown listener, the first time only. */
  function AddListeners(s: ModalState): (r: ModalState)
    ensures r.listenersAdded
    ensures s.listenersAdded ==> r == s
    ensures !s.listenersAdded ==>
              r.clickListeners == s.clickListeners + 1 && r.keyListeners == s.keyListeners + 1
    ensures r.open == s.open && r.element == s.element
    ensures r.(listenersAdded := s.listenersAdded, clickListeners := s.clickListeners,
               keyListeners := s.keyListeners) == s
    ensures Inv(s) ==> Inv(r)
  {
    if s.listenersAdded then s
    else s.(listenersAdded := true, clickListeners := s.clickListeners + 1, keyListeners := s.keyListeners + 1)
  }

  /**
   A click anywhere on the document. If the click listener is registered it
   closes an open modal when the click target is the modal element itself (its
   background, not its content).
   */
  function DocumentClick(s: ModalState, targetIsModal: bool): (r: ModalState)
    ensures r.open <==> s.open && !(s.clickListeners > 0 && targetIsModal && (s.cached || s.hasModal))
    ensures s.open && s.clickListeners > 0 && targetIsModal && (s.cached || s.hasModal) ==>
              r == CloseModal(GetModal(s))
    ensures !s.open || s.clickListeners == 0 || !targetIsModal ==> r.element == s.element
    ensures !(s.open && s.clickListeners > 0 && targetIsModal && (s.cached || s.hasModal)) ==>
              r.(cached := s.cached) == s
    ensures Inv(s) ==> Inv(r)
  {
    if s.clickListeners == 0 then s
    else
      var s1 := GetModal(s);
      if s1.cached && targetIsModal && s1.open then CloseModal(s1) else s1
  }

  /** A key press. If the keydown listener is registered, Escape closes an open modal. */
  function KeyDown(s: ModalState, key: string): (r: ModalState)
    ensures r.open <==> s.open && !(s.keyListeners > 0 && key == "Escape" && (s.cached || s.hasModal))
    ensures s.open && s.keyListeners > 0 && key == "Escape" ==> r == CloseModal(s)
    ensures !(s.open && s.keyListeners > 0 && key == "Escape") ==> r == s
    ensures Inv(s) ==> Inv(r)
  {
    if s.keyListeners > 0 && key == "Escape" && s.open then CloseModal(s) else s
  }

  /**
   What every reachable state satisfies:
   - only an element that exists is cached, and an open modal has it cached and displayed as a block;
   - nothing was touched or queued before the element was found;
   - exactly one listener of each kind is registered once the guard is set, none before;
   - while open, `show` is present or a frame is queued to add it;
   - a closed modal still displayed as a block has a hide timer queued.
   */
  ghost predicate Inv(s: ModalState) {
    && (s.cached ==> s.hasModal)
    && (s.open ==> s.cached && s.element.display == DisplayBlock)
    && (!s.cached ==> s.element == ModalElement(DisplayUnset, false) && s.pendingShows == 0 && s.pendingHides == 0)
    && s.clickListeners == (if s.listenersAdded then 1 else 0)
    && s.keyListeners == (if s.listenersAdded then 1 else 0)
    && (s.open ==> s.element.show || s.pendingShows > 0)
    && (!s.open && s.element.display == DisplayBlock ==> s.pendingHides > 0)
  }

  datatype ModalEvent =
    | OpenCall | CloseCall | RegisterCall
    | Click(targetIsModal: bool) | Key(key: string)
    | ShowFrame | HideTimeout

  /** A frame or timer event runs a queued callback, if there is one. */
  function Step(s: ModalState, e: ModalEvent): (r: ModalState)
    ensures Inv(s) ==> Inv(r)
  {
    match e
    case OpenCall => OpenModal(s)
    case CloseCall => CloseModal(s)
    case RegisterCall => AddListeners(s)
    case Click(t) => DocumentClick(s, t)
    case Key(k) => KeyDown(s, k)
    case ShowFrame => if s.pendingShows > 0 then FireShow(s) else s
    case HideTimeout => if s.pendingHides > 0 then FireHide(s) else s
  }

  // `Run` and `RunPreservesInv` deliberately repeat the shape of those in
  // `Header`: each component has its own state and event type.
  function Run(s: ModalState, events: seq<ModalEvent>): ModalState
    decreases |events|
  {
    if events == [] then s else Run(Step(s, events[0]), events[1..])
  }

  lemma {:induction false} RunPreservesInv(s: ModalState, events: seq<ModalEvent>)
    requires Inv(s)
    ensures Inv(Run(s, events))
    decreases |events|
  {
    if events != [] {
      RunPreservesInv(Step(s, events[0]), events[1..]);
    }
  }

  /**
   From script load, whatever happens: at most one listener of each kind is
   registered; an open modal is displayed and shown or about to be shown; a
   closed modal left displayed has a hide queued.
   */
  lemma Reachable(hasModal: bool, events: seq<ModalEvent>)
    ensures Run(Init(hasModal), events).clickListeners <= 1
    ensures Run(Init(hasModal), events).keyListeners <= 1
    ensures Run(Init(hasModal), events).open ==> Run(Init(hasModal), events).element.display == DisplayBlock
    ensures Run(Init(hasModal), events).open ==>
              Run(Init(hasModal), events).element.show || Run(Init(hasModal), events).pendingShows > 0
    ensures !Run(Init(hasModal), events).open && Run(Init(hasModal), events).element.display == DisplayBlock ==>
              Run(Init(hasModal), events).pendingHides > 0
  {
    RunPreservesInv(Init(hasModal), events);
  }

  /** Without the element the modal never opens and nothing is queued. */
  lemma {:induction false} NeverOpensWithoutElement(s: ModalState, events: seq<ModalEvent>)
    requires Inv(s) && !s.hasModal
    ensures !Run(s, events).open && Run(s, events).pendingShows == 0 && Run(s, events).pendingHides == 0
    ensures Run(s, events).element == s.element
    decreases |events|
  {
    if events != [] {
      NeverOpensWithoutElement(Step(s, events[0]), events[1..]);
    }
  }

  /** Calling `openModal`, `closeModal` or `addModalEventListeners` twice is the same as calling it once. */
  lemma RepeatedCallsAreNoOps(s: ModalState)
    ensures OpenModal(OpenModal(s)) == OpenModal(s)
    ensures CloseModal(CloseModal(s)) == CloseModal(s)
    ensures AddListeners(AddListeners(s)) == AddListeners(s)
  {
  }

  /**
   The frame callback queued by `openModal` does not check `isModalOpen`: a
   close before the next frame leaves the closed modal with `show`, and it keeps
   it after the hide timer sets display to none.
   */
  lemma ShowAddedAfterClose()
    ensures var s := Run(Init(true), [OpenCall, CloseCall, ShowFrame]);
            !s.open && s.element.show && s.pendingHides == 1
    ensures var s := Run(Init(true), [OpenCall, CloseCall, ShowFrame, HideTimeout]);
            !s.open && s.element == ModalElement(DisplayNone, true)
  {
  }

  /**
   A hide timer left from an earlier close still hides the modal if it is closed
   again when it fires, while the later close's own timer is still queued; if
   the modal is open when the stale timer fires, the display is kept.
   */
  lemma StaleHideTimer()
    ensures var s := Run(Init(true), [OpenCall, CloseCall, OpenCall, CloseCall, HideTimeout]);
            !s.open && s.element.display == DisplayNone && s.pendingHides == 1
    ensures var s := Run(Init(true), [OpenCall, CloseCall, OpenCall, HideTimeout]);
            s.open && s.element.display == DisplayBlock && s.pendingHides == 0
  {
  }
}
