# Portfolio page script: the state machines under the page glue

`script.js` wires a portfolio page to browser events. Beneath the event
relaying sit four small controllers, modelled here with the DOM reduced to
plain fields and the browser's frame and timer queues made explicit:

- **Header scroll controller** (`updateHeader`, `requestTick`, `lastScrollY`,
  `ticking`). The header gets a glass look beyond 30px. Scrolling down beyond
  100px hides it and scrolling up shows it. At most one update is queued per
  animation frame.
- **Contact modal controller** (`getModal`, `openModal`, `closeModal`,
  `addModalEventListeners`, `modal`, `isModalOpen`,
  `modalEventListenersAdded`). It is a guarded open/closed machine. Opening
  queues a frame callback that adds `show`. Closing queues a 200ms timer that
  hides the modal if it is closed when the timer fires. The click and Escape
  listeners are registered once.
- **Mobile menu toggle** (`toggleMobileMenu`). It flips four class flags, then
  locks or releases page scrolling and hides or shows the nav bar, according to
  the overlay.
- **Scrollbar activity flag** (`handleScroll`, `scrollTimeout`). This is a
  debounce: each scroll sets class `scrolling`, cancels the pending removal and
  queues a new one.

Layout:

- `dom.dfy` (module `Dom`) holds the element records and opaque style tags. It
  also holds the class `Page`, the live document that all controllers share.
- `header.dfy`, `modal.dfy`, `menu.dfy` and `scrollbar.dfy` (modules `Header`,
  `Modal`, `Menu`, `Scrollbar`) model each controller as values. Each has a
  state record, one function per operation, an invariant `Inv` that every
  operation preserves, and lemmas about sequences of operations. `Header`,
  `Modal` and `Scrollbar` have an event type with `Step`/`Run`. `Menu` has a
  single operation, so its sequences are `Toggles(s, n)`, n toggles in a row.
- `script.dfy` (module `Script`) is the imperative form the script itself
  takes. Its globals are fields of `HeaderController`, `ModalController` and
  `ScrollbarActivity`, and `ToggleMobileMenu` updates the `Page` in place. Each
  method is proved to move its controller's state exactly as the matching model
  function says. The class methods also keep `Valid()` (the model's `Inv`).
  `ToggleMobileMenu` is not in a class. It keeps `Menu.Inv` only when that
  held before, because closing the modal can break it on a reachable page.

A queued animation-frame callback or timer is a counter (`pendingFrames`,
`pendingShows`, `pendingHides`) or a timer handle in a set (`pending`). The
browser running it is an explicit fire operation, allowed only while one is
queued. No clock is modelled: any queued callback may run at any later point.
The current scroll offset, the click target and the key pressed are parameters.
Which elements the markup contains (`.header`, `.logo`, `#contactModal`,
`#mobileMenuOverlay`, `.hamburger`, `.mobile-nav`) is the constant `Page.markup`.

There are two quirks of the source, modelled as written:
- The frame callback of `openModal` adds `show` without checking `isModalOpen`
  (`Modal.ShowAddedAfterClose`).
- A hide timer left from an earlier close still hides the modal if it is closed
  again when the timer fires (`Modal.StaleHideTimer`).

Behaviour of the code worth knowing:
- `updateHeader` does not null-check `.header`. Without it, the first style
  write throws before `lastScrollY` and `ticking` are reset, so `ticking` stays
  set and no header update is ever queued again (`Header.FrozenWithoutHeader`).
- Load reads the text of `.logo` (script.js:85-86) without a null check. On
  a page without it, the load throws there. The header code (script.js:17-59)
  has already run by then, but the modal and scrollbar code have not. So
  `Script.ModalController` and `Script.ScrollbarActivity` can only be
  constructed for a page with `hasLogo`.
- The components share mutable state. `document.body.style.overflow` is
  written by both the modal and the mobile menu, and `document.documentElement`
  carries both the menu's and the scrollbar's classes. Closing the modal while
  the menu is open releases the menu's body scroll lock. The client method
  `Script.SharedBodyOverflow` demonstrates this with asserts over script.js:115,
  131 and 186. It combines the models and is not a model of one source
  function, so it has no row below.
- When the overlay, hamburger and mobile nav exist and the menu starts closed,
  two toggles leave body and root overflow at `''` (script.js:191-192). That is
  not necessarily the value they had before, for example the `'auto'` that
  `closeModal` writes. From an open menu, two toggles leave both at `'hidden'`
  (script.js:186-187).
- If `#contactModal` is missing, `openModal` leaves the state closed.

## Model

| member | source | states |
|---|---|---|
| Header.Init | script.js:17-18 | at load `lastScrollY` is the load offset, the header has no inline style, `ticking` is off, nothing is queued, and the invariant holds |
| Header.WithGlass | script.js:24-35 | the glass look (background, both backdrop filters, border) is on iff the offset is over 30, and the clear look iff it is not; transform and transition are untouched |
| Header.WithDirection | script.js:37-46 | down past 100: hidden and transition set; up: shown and transition set; any other case: transform and transition kept; no other property changes |
| Header.RequestTick | script.js:52-57 | afterwards `ticking` is set; a frame is queued iff `ticking` was off; nothing else changes; the invariant is kept |
| Header.UpdateHeader | script.js:20-50 | consumes one queued frame; with a header, `lastScrollY` becomes the offset and `ticking` is cleared; glass iff offset > 30, whatever the direction; hidden iff (down and past 100) or (already hidden and not up), with the transition set when it scrolls down past 100; up means shown; other cases change neither transform nor transition; without a header, nothing but the queue changes |
| Header.Step | script.js:52-59 | a scroll event or an animation frame keeps the header invariant |
| Header.RunPreservesInv | script.js:20-59 | every event sequence keeps the invariant: at most one frame queued, `ticking` set while one is, transform hidden only when the last offset is over 100, glass matching the last offset |
| Header.AtMostOneFramePending | script.js:48-57 | from script load, whatever the events: at most one header update is queued, `ticking` is set whenever one is, and a hidden header was last seen past 100 |
| Header.BurstQueuesOneFrame | script.js:52-57 | with a header, any burst of scroll events between frames queues exactly one update and changes nothing else |
| Header.FrozenWithoutHeader | script.js:20-26 | once a missing header has left `ticking` set with nothing queued, no event sequence changes the state |
| Header.MissingHeaderStopsUpdates | script.js:20-57 | without a header, one scroll and one frame leave `ticking` stuck on for all later events |
| Header.SmallScrollDownThenUpShows | script.js:38-46 | from 80, scrolling to 90 keeps the transform, and then scrolling to 85 shows the header |
| Modal.Init | script.js:97-98 | at load the modal is closed, no element is cached, the element and body overflow are untouched, nothing is queued, no listener is registered, and the invariant holds |
| Modal.GetModal | script.js:101-106 | the element is available iff it was cached or the document has it; a cached element is never looked up again; nothing else changes |
| Modal.OpenModal | script.js:108-122 | a no-op when open or when the element is missing; otherwise open, display block, body overflow hidden, one more `show` frame queued, presence, hide timers and listener counts unchanged; invariant kept |
| Modal.CloseModal | script.js:124-140 | a no-op when closed; otherwise closed, `show` removed, body overflow auto, one more hide timer queued, presence, `show` frames and listener counts unchanged; invariant kept |
| Modal.FireShow | script.js:118-120 | the frame callback adds `show` and leaves open/closed and display as they are, so it adds `show` even to a closed modal; nothing else changes but the frame queue |
| Modal.FireHide | script.js:134-138 | the timer sets display none iff the modal is closed when it fires, and otherwise keeps display; nothing else changes but the timer queue |
| Modal.AddListeners | script.js:145-163 | registers one click and one keydown listener the first time, changing nothing but the guard and the listener counts; afterwards it is a no-op |
| Modal.DocumentClick | script.js:150-155 | an open modal stays open unless the click listener is registered, the element is available and the target is the modal element itself; in that case the click closes it; a closed modal stays closed; a click that does not close changes nothing but the cache |
| Modal.KeyDown | script.js:158-162 | Escape closes an open modal when the keydown listener is registered; any other key, or a closed modal, changes nothing |
| Modal.Step | script.js:108-163 | every call, event and fired callback keeps the modal invariant |
| Modal.RunPreservesInv | script.js:97-163 | every event sequence keeps the invariant: listeners counted once, open means cached and displayed, closed-but-displayed means a hide is queued |
| Modal.Reachable | script.js:97-163 | from script load: at most one click and one keydown listener; open means displayed and shown or about to be; a closed modal still displayed has a hide queued |
| Modal.NeverOpensWithoutElement | script.js:111-121 | without `#contactModal`, no event sequence opens the modal, queues a callback or touches the element |
| Modal.RepeatedCallsAreNoOps | script.js:109-147 | open twice equals open once, close twice equals close once, and register twice equals register once |
| Modal.ShowAddedAfterClose | script.js:118-138 | open, close and the frame leave a closed modal with `show`; after the hide timer it is display none with `show` still present |
| Modal.StaleHideTimer | script.js:124-140 | open, close, open, close, then one timer hides the modal while the second close's timer is still queued; open, close, open, then the timer keeps it displayed |
| Menu.ToggleMobileMenu | script.js:169-195 | without overlay, hamburger or mobile nav nothing changes; otherwise all four flags flip; the overlay ends active iff nav none and both overflows hidden, and inactive iff nav flex and both overflows `''`; the `scrolling` class is untouched |
| Menu.ToggleTwice | script.js:176-194 | two toggles restore all four class flags, and leave overflow `''` when the menu was closed |
| Menu.TogglesParity | script.js:169-195 | on any page with the three elements, after n toggles the overlay is active iff it started active and n is even, or inactive and n is odd; the four-flags-agree, locked-while-active invariant is kept when it held at the start |
| Menu.ToggleRelocks | script.js:176-194 | one toggle from any page whose four class flags agree, even one whose lock the modal's close removed, restores the whole menu invariant |
| Scrollbar.Init | script.js:198 | at load `scrollTimeout` is undefined, nothing is pending, the class is off, and the invariant holds |
| Scrollbar.HandleScroll | script.js:199-210 | sets the class; `scrollTimeout` names the new timer; the old timer is no longer pending; the next timer id is one higher; under the invariant exactly the new removal is pending |
| Scrollbar.FireRemoval | script.js:207-209 | the fired removal clears the class and leaves nothing pending; `scrollTimeout` and the handle counter are unchanged |
| Scrollbar.Step | script.js:199-213 | a scroll or a timer keeps the debounce invariant |
| Scrollbar.RunPreservesInv | script.js:197-210 | every event sequence keeps the invariant: only the current handle can be pending, and the class is on iff a removal is pending |
| Scrollbar.AtMostOneRemovalPending | script.js:197-210 | from script load at most one removal is pending, and the class is on iff one is |
| Scrollbar.ScrollThenPause | script.js:199-210 | after a scroll exactly the new removal is pending; firing it clears the class and leaves no second removal |
| Scrollbar.ContinuousScrolling | script.js:199-210 | during n scroll events in a row the class stays on, and only the last event's removal is pending |
| Script.HeaderController.constructor | script.js:17-18 | the controller starts in `Header.Init` for the page's markup and load offset |
| Script.HeaderController.RequestTick | script.js:52-57 | updates the fields in place exactly as `Header.RequestTick` says, keeping `Valid()` |
| Script.HeaderController.UpdateHeader | script.js:20-50 | updates the fields and the page header's style in place exactly as `Header.UpdateHeader` says, keeping `Valid()` |
| Script.ModalController.constructor | script.js:97-98 | the controller starts in `Modal.Init`, with the page's current body overflow; it exists only on a page with `.logo`, since the load stops at script.js:86 otherwise |
| Script.ModalController.GetModal | script.js:101-106 | caches as `Modal.GetModal` says and returns whether the element is available |
| Script.ModalController.OpenModal | script.js:108-122 | updates the fields, the modal element and the body overflow exactly as `Modal.OpenModal` says; the body's class is untouched |
| Script.ModalController.CloseModal | script.js:124-140 | updates the fields, the modal element and the body overflow exactly as `Modal.CloseModal` says; the body's class is untouched |
| Script.ModalController.FireShowFrame | script.js:118-120 | runs one queued frame callback as `Modal.FireShow` says |
| Script.ModalController.FireHideTimeout | script.js:134-138 | runs one queued hide timer as `Modal.FireHide` says |
| Script.ModalController.AddModalEventListeners | script.js:145-163 | registers as `Modal.AddListeners` says |
| Script.ModalController.OnDocumentClick | script.js:150-155 | handles a click as `Modal.DocumentClick` says |
| Script.ModalController.OnKeyDown | script.js:158-162 | handles a key as `Modal.KeyDown` says |
| Script.ToggleMobileMenu | script.js:169-195 | updates the page in place exactly as `Menu.ToggleMobileMenu` says, and keeps the menu invariant when it held before |
| Script.ScrollbarActivity.constructor | script.js:198 | the controller starts in `Scrollbar.Init`; it exists only on a page with `.logo`, since the load stops at script.js:86 otherwise |
| Script.ScrollbarActivity.HandleScroll | script.js:199-210 | updates `scrollTimeout`, the timer set and the root's class exactly as `Scrollbar.HandleScroll` says; the root's other class and its overflow are untouched |
| Script.ScrollbarActivity.FireRemoval | script.js:207-209 | runs the queued removal as `Scrollbar.FireRemoval` says; the root's other properties are untouched |

## Left out

- Smooth anchor scrolling (script.js:3-14). It is a thin wrapper over `querySelector` and `scrollIntoView`, with nothing to decide.
- The fade-in observer (script.js:62-82). Card visibility depends on layout geometry and a fractional intersection threshold.
- The logo hover swap (script.js:88-94). It is a plain content assignment; the mouse-leave handler restores the text captured at load.
- A page without `.logo`. Its load throws at script.js:86. The model has no state for that page's modal and scrollbar code, which never ran. There, a later call to `openModal` or `closeModal` throws a `ReferenceError` on `isModalOpen`, and no modal or scrollbar listener is registered. Only the `hasLogo` requirement on the two constructors records this.
- Listener wiring and `DOMContentLoaded` plumbing (script.js:59, 166, 213, 216-232), including the overlay-click and nav-link handlers. These are not part of this model; the modal's click and Escape filters are modelled.
- Real time and queue order. The 200ms and 150ms delays, the 0.3s and 0.6s transitions, and the browser's ordering of frames against timers are not modelled: a queued callback may fire at any later point, so the model allows more orders than a browser does.
- CSS values (colours, blur filters, transforms) are opaque tags.
- Pages whose markup already sets what the script writes. Three constructors require a page in its load-time state:
  - `Script.HeaderController.constructor` requires a header with no inline style;
  - `Script.ModalController.constructor` requires a modal with no inline display and no `show` class;
  - `Script.ScrollbarActivity.constructor` requires a root element without class `scrolling`.
  Markup such as `style="display:block"` on `#contactModal`, or a header with inline styles, is not modelled. The invariants rely on these starting values: for example, a closed modal displayed as a block with no hide queued breaks `Modal.Inv`. The script itself runs on such pages unchanged.
- Fractional scroll offsets. `window.scrollY` is a floating-point number, and the model uses `int`. The script only compares offsets with each other and with 30 and 100, so every case split it makes (above, below, equal) is represented.
- Dispatch to duplicate listeners. When a listener kind is registered, the model runs its handler once per event. It counts registrations but does not run the handler once per duplicate; the proved invariant shows there is never more than one of each kind.
