/**
 The imperative layer of script.js: its module-level globals become the fields
 of one object per controller, the DOM is the shared `Page`, and each function
 of the script is a method that updates them in place. Every method is proved
 to take the controller's state to what the value model in `Header`, `Modal`,
 `Menu` or `Scrollbar` prescribes, and to keep that model's invariant.

 The browser's queues are fields too: a queued animation-frame callback or
 timer is a counter or a timer handle, and the browser running it is a
 `Fire...` method that may be called while one is queued.
 */
module Script {
  import opened Dom
  import opened Wrappers
  import Header
  import Modal
  import Menu
  import Scrollbar

  /** `lastScrollY`, `ticking` and the queued `updateHeader` frames. */
  class HeaderController {
    const page: Page
    var lastScrollY: int
    var ticking: bool
    var pendingFrames: nat

    ghost function State(): Header.HeaderState
      reads this, page
    {
      Header.HeaderState(page.markup.hasHeader, page.header, lastScrollY, ticking, pendingFrames)
    }

    ghost predicate Valid()
      reads this, page
    {
      Header.Inv(State())
    }

    /** Script load on a page whose header has no inline style yet, scrolled to `scrollY`. */
    constructor (page: Page, scrollY: int)
      requires page.header == NoInlineStyle
      ensures this.page == page && Valid()
      ensures State() == Header.Init(page.markup.hasHeader, scrollY)
    {
      this.page := page;
      lastScrollY := scrollY;
      ticking := false;
      pendingFrames := 0;
    }

    /** `requestTick`, run on every scroll event. */
    method RequestTick()
      requires Valid()
      modifies this`ticking, this`pendingFrames
      ensures Valid()
      ensures State() == Header.RequestTick(old(State()))
    {
      if !ticking {
        pendingFrames := pendingFrames + 1;
        ticking := true;
      }
    }

    /** The browser runs one queued `updateHeader` while the page is scrolled to `scrollY`. */
    method UpdateHeader(scrollY: int)
      requires Valid() && pendingFrames > 0
      modifies this`lastScrollY, this`ticking, this`pendingFrames, page`header
      ensures Valid()
      ensures State() == Header.UpdateHeader(old(State()), scrollY)
    {
      pendingFrames := pendingFrames - 1;
      if !page.markup.hasHeader {
        // `header.style` on a missing header throws: the callback stops here
        return;
      }
      if scrollY > Header.GlassOffset {
        page.header := page.header.(background := Frosted, backdropFilter := Blurred,
                                    webkitBackdropFilter := Blurred, borderBottom := Hairline);
      } else {
        page.header := page.header.(background := Transparent, backdropFilter := Unfiltered,
                                    webkitBackdropFilter := Unfiltered, borderBottom := NoBorder);
      }
      if scrollY > lastScrollY && scrollY > Header.HideOffset {
        page.header := page.header.(transform := OffScreen, transition := Slide);
      } else if scrollY < lastScrollY {
        page.header := page.header.(transform := InPlace, transition := Slide);
      }
      lastScrollY := scrollY;
      ticking := false;
    }
  }

  /**
   `modal` (here whether the cached element reference is set), `isModalOpen`,
   `modalEventListenersAdded`, the listeners registered on the document and the
   queued callbacks of `openModal` and `closeModal`.
   */
  class ModalController {
    const page: Page
    var modal: bool
    var isModalOpen: bool
    var modalEventListenersAdded: bool
    var clickListeners: nat
    var keydownListeners: nat
    var pendingShows: nat
    var pendingHides: nat

    ghost function State(): Modal.ModalState
      reads this, page
    {
      Modal.ModalState(page.markup.hasModal, modal, isModalOpen, page.modal, page.body.overflow,
                       modalEventListenersAdded, clickListeners, keydownListeners, pendingShows, pendingHides)
    }

    ghost predicate Valid()
      reads this, page
    {
      Modal.Inv(State())
    }

    /**
     Script load on a page whose modal has no inline display and no `show` class
     yet. The load only gets this far when the page has a `.logo`.
     */
    constructor (page: Page)
      requires page.markup.hasLogo
      requires page.modal == ModalElement(DisplayUnset, false)
      ensures this.page == page && Valid()
      ensures State() == Modal.Init(page.markup.hasModal).(bodyOverflow := page.body.overflow)
    {
      this.page := page;
      modal := false;
      isModalOpen := false;
      modalEventListenersAdded := false;
      clickListeners := 0;
      keydownListeners := 0;
      pendingShows := 0;
      pendingHides := 0;
    }

    /** `getModal`: returns whether the element is available, caching it on first success. */
    method GetModal() returns (present: bool)
      requires Valid()
      modifies this`modal
      ensures Valid()
      ensures State() == Modal.GetModal(old(State()))
      ensures present == modal
    {
      if !modal {
        modal := page.markup.hasModal;
      }
      present := modal;
    }

    /** `openModal`. */
    method OpenModal()
      requires Valid()
      modifies this`modal, this`isModalOpen, this`pendingShows, page`modal, page`body
      ensures Valid()
      ensures State() == Modal.OpenModal(old(State()))
      ensures page.body.menuOpen == old(page.body.menuOpen)
    {
      if isModalOpen {
        return;
      }
      var present := GetModal();
      if present {
        isModalOpen := true;
        page.modal := page.modal.(display := DisplayBlock);
        page.body := page.body.(overflow := OverflowHidden);
        pendingShows := pendingShows + 1;
      }
    }

    /** `closeModal`. */
    method CloseModal()
      requires Valid()
      modifies this`modal, this`isModalOpen, this`pendingHides, page`modal, page`body
      ensures Valid()
      ensures State() == Modal.CloseModal(old(State()))
      ensures page.body.menuOpen == old(page.body.menuOpen)
    {
      if !isModalOpen {
        return;
      }
      var present := GetModal();
      if present {
        isModalOpen := false;
        page.modal := page.modal.(show := false);
        page.body := page.body.(overflow := OverflowAuto);
        pendingHides := pendingHides + 1;
      }
    }

    /** The browser runs one frame callback queued by `openModal`. */
    method FireShowFrame()
      requires Valid() && pendingShows > 0
      modifies this`pendingShows, page`modal
      ensures Valid()
      ensures State() == Modal.FireShow(old(State()))
    {
      pendingShows := pendingShows - 1;
      page.modal := page.modal.(show := true);
    }

    /** The browser runs one 200ms timer queued by `closeModal`. */
    method FireHideTimeout()
      requires Valid() && pendingHides > 0
      modifies this`pendingHides, page`modal
      ensures Valid()
      ensures State() == Modal.FireHide(old(State()))
    {
      pendingHides := pendingHides - 1;
      if !isModalOpen {
        page.modal := page.modal.(display := DisplayNone);
      }
    }

    /** `addModalEventListeners`. */
    method AddModalEventListeners()
      requires Valid()
      modifies this`modalEventListenersAdded, this`clickListeners, this`keydownListeners
      ensures Valid()
      ensures State() == Modal.AddListeners(old(State()))
    {
      if modalEventListenersAdded {
        return;
      }
      modalEventListenersAdded := true;
      clickListeners := clickListeners + 1;
      keydownListeners := keydownListeners + 1;
    }

    /** A click on the document; `targetIsModal` says whether its target is the modal element. */
    method OnDocumentClick(targetIsModal: bool)
      requires Valid()
      modifies this`modal, this`isModalOpen, this`pendingHides, page`modal, page`body
      ensures Valid()
      ensures State() == Modal.DocumentClick(old(State()), targetIsModal)
      ensures page.body.menuOpen == old(page.body.menuOpen)
    {
      if clickListeners == 0 {
        return;
      }
      var present := GetModal();
      if present && targetIsModal && isModalOpen {
        CloseModal();
      }
    }

    /** A keydown on the document. */
    method OnKeyDown(key: string)
      requires Valid()
      modifies this`modal, this`isModalOpen, this`pendingHides, page`modal, page`body
      ensures Valid()
      ensures State() == Modal.KeyDown(old(State()), key)
      ensures page.body.menuOpen == old(page.body.menuOpen)
    {
      if keydownListeners > 0 && key == "Escape" && isModalOpen {
        CloseModal();
      }
    }
  }

  ghost function MenuView(page: Page): Menu.MenuState
    reads page
  {
    Menu.MenuState(page.markup.hasOverlay, page.markup.hasHamburger, page.markup.hasMobileNav,
                   page.menu, page.body, page.html)
  }

  /** `toggleMobileMenu`. */
  method ToggleMobileMenu(page: Page)
    modifies page`menu, page`body, page`html
    ensures MenuView(page) == Menu.ToggleMobileMenu(old(MenuView(page)))
    ensures Menu.Inv(old(MenuView(page))) ==> Menu.Inv(MenuView(page))
  {
    if page.markup.hasOverlay && page.markup.hasHamburger && page.markup.hasMobileNav {
      page.menu := page.menu.(overlayActive := !page.menu.overlayActive);
      page.menu := page.menu.(hamburgerActive := !page.menu.hamburgerActive);
      page.body := page.body.(menuOpen := !page.body.menuOpen);
      page.html := page.html.(menuOpen := !page.html.menuOpen);
      if page.menu.overlayActive {
        page.menu := page.menu.(navDisplay := DisplayNone);
        page.body := page.body.(overflow := OverflowHidden);
        page.html := page.html.(overflow := OverflowHidden);
      } else {
        page.menu := page.menu.(navDisplay := DisplayFlex);
        page.body := page.body.(overflow := OverflowUnset);
        page.html := page.html.(overflow := OverflowUnset);
      }
    }
  }

  /** `scrollTimeout` and the removal timers queued by `handleScroll`. */
  class ScrollbarActivity {
    const page: Page
    var scrollTimeout: Option<Scrollbar.TimerId>
    var pending: set<Scrollbar.TimerId>
    var nextTimer: Scrollbar.TimerId

    ghost function State(): Scrollbar.ScrollState
      reads this, page
    {
      Scrollbar.ScrollState(page.html.scrolling, scrollTimeout, pending, nextTimer)
    }

    ghost predicate Valid()
      reads this, page
    {
      Scrollbar.Inv(State())
    }

    /**
     Script load on a page whose root element does not have class `scrolling`.
     The load only gets this far when the page has a `.logo`.
     */
    constructor (page: Page)
      requires page.markup.hasLogo
      requires !page.html.scrolling
      ensures this.page == page && Valid()
      ensures State() == Scrollbar.Init()
    {
      this.page := page;
      scrollTimeout := None;
      pending := {};
      nextTimer := 1;
    }

    /** `handleScroll`, run on every scroll event. */
    method HandleScroll()
      requires Valid()
      modifies this, page`html
      ensures Valid()
      ensures State() == Scrollbar.HandleScroll(old(State()))
      ensures page.html.(scrolling := false) == old(page.html).(scrolling := false)
    {
      page.html := page.html.(scrolling := true);
      if scrollTimeout.Some? {
        pending := pending - {scrollTimeout.value};
      }
      var id := nextTimer;
      nextTimer := nextTimer + 1;
      pending := pending + {id};
      scrollTimeout := Some(id);
    }

    /** The browser runs the queued removal timer `id`. */
    method FireRemoval(id: Scrollbar.TimerId)
      requires Valid() && id in pending
      modifies this`pending, page`html
      ensures Valid()
      ensures State() == Scrollbar.FireRemoval(old(State()), id)
      ensures page.html.(scrolling := false) == old(page.html).(scrolling := false)
    {
      page.html := page.html.(scrolling := false);
      pending := pending - {id};
    }
  }

  /**
   The modal and the mobile menu write the same `document.body.style.overflow`:
   closing the modal while the menu is open releases the menu's scroll lock on
   the body, so the menu's invariant no longer holds of the page.
   */
  method SharedBodyOverflow()
  {
    var page := new Page(Markup(true, true, true, true, true, true));
    var modal := new ModalController(page);
    assert Menu.Inv(MenuView(page));
    ToggleMobileMenu(page);
    assert page.menu.overlayActive && page.body.overflow == OverflowHidden;
    modal.OpenModal();
    modal.CloseModal();
    assert page.menu.overlayActive && page.body.overflow == OverflowAuto;
    assert !Menu.Inv(MenuView(page));
  }
}
