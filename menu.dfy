/**
 `toggleMobileMenu` of script.js, as values. The menu keeps no state of its own:
 everything is the class lists and inline styles of the overlay, the hamburger,
 the mobile nav, the body and the root element.
 */
module Menu {
  import opened Dom

  datatype MenuState = MenuState(
    hasOverlay: bool,      // the markup has `#mobileMenuOverlay`
    hasHamburger: bool,    // ... `.hamburger`
    hasMobileNav: bool,    // ... `.mobile-nav`
    menu: MenuElements,
    body: BodyElement,
    html: RootElement)

  predicate ElementsPresent(s: MenuState) {
    s.hasOverlay && s.hasHamburger && s.hasMobileNav
  }

  /** Flip the four class flags, then lock or release scrolling according to the overlay. */
  function ToggleMobileMenu(s: MenuState): (r: MenuState)
    ensures !ElementsPresent(s) ==> r == s
    ensures ElementsPresent(s) ==>
              && r.menu.overlayActive == !s.menu.overlayActive
              && r.menu.hamburgerActive == !s.menu.hamburgerActive
              && r.body.menuOpen == !s.body.menuOpen
              && r.html.menuOpen == !s.html.menuOpen
    ensures ElementsPresent(s) ==>
              (r.menu.overlayActive <==>
                 r.menu.navDisplay == DisplayNone && r.body.overflow == OverflowHidden
                 && r.html.overflow == OverflowHidden)
    ensures ElementsPresent(s) ==>
              (!r.menu.overlayActive <==>
                 r.menu.navDisplay == DisplayFlex && r.body.overflow == OverflowUnset
                 && r.html.overflow == OverflowUnset)
    ensures r.html.scrolling == s.html.scrolling
    ensures r.(menu := s.menu, body := s.body, html := s.html) == s
    ensures Inv(s) ==> Inv(r)
  {
    if ElementsPresent(s) then
      var active := !s.menu.overlayActive;
      var flipped := s.(menu := s.menu.(overlayActive := active, hamburgerActive := !s.menu.hamburgerActive),
                        body := s.body.(menuOpen := !s.body.menuOpen),
                        html := s.html.(menuOpen := !s.html.menuOpen));
      if active then
        flipped.(menu := flipped.menu.(navDisplay := DisplayNone),
                 body := flipped.body.(overflow := OverflowHidden),
                 html := flipped.html.(overflow := OverflowHidden))
      else
        flipped.(menu := flipped.menu.(navDisplay := DisplayFlex),
                 body := flipped.body.(overflow := OverflowUnset),
                 html := flipped.html.(overflow := OverflowUnset))
    else s
  }

  /**
   Starting from a page where none of the four classes is set, the four flags
   agree, and an active overlay has scrolling locked and the nav hidden.
   */
  ghost predicate Inv(s: MenuState) {
    && s.menu.hamburgerActive == s.menu.overlayActive
    && s.body.menuOpen == s.menu.overlayActive
    && s.html.menuOpen == s.menu.overlayActive
    && (s.menu.overlayActive ==>
          s.menu.navDisplay == DisplayNone && s.body.overflow == OverflowHidden && s.html.overflow == OverflowHidden)
  }

  /** Two toggles in a row restore all four class flags and unlock scrolling when the menu was closed. */
  lemma ToggleTwice(s: MenuState)
    ensures ToggleMobileMenu(ToggleMobileMenu(s)).menu.overlayActive == s.menu.overlayActive
    ensures ToggleMobileMenu(ToggleMobileMenu(s)).menu.hamburgerActive == s.menu.hamburgerActive
    ensures ToggleMobileMenu(ToggleMobileMenu(s)).body.menuOpen == s.body.menuOpen
    ensures ToggleMobileMenu(ToggleMobileMenu(s)).html.menuOpen == s.html.menuOpen
    ensures ElementsPresent(s) && !s.menu.overlayActive ==>
              ToggleMobileMenu(ToggleMobileMenu(s)).body.overflow == OverflowUnset
              && ToggleMobileMenu(ToggleMobileMenu(s)).html.overflow == OverflowUnset
  {
  }

  function Toggles(s: MenuState, n: nat): MenuState
    decreases n
  {
    if n == 0 then s else Toggles(ToggleMobileMenu(s), n - 1)
  }

  /**
   After `n` toggles the overlay is active iff it was active before with `n`
   even, or inactive with `n` odd; the menu invariant is kept when it held.
   */
  lemma {:induction false} TogglesParity(s: MenuState, n: nat)
    requires ElementsPresent(s)
    ensures Inv(s) ==> Inv(Toggles(s, n))
    ensures Toggles(s, n).menu.overlayActive == (s.menu.overlayActive != (n % 2 == 1))
    ensures Toggles(s, n).html.scrolling == s.html.scrolling
    decreases n
  {
    if n > 0 {
      TogglesParity(ToggleMobileMenu(s), n - 1);
    }
  }

  /**
   The lock can be lost by another writer of the body overflow (the modal's
   close), but one toggle from any page whose four class flags agree restores
   the whole menu invariant.
   */
  lemma ToggleRelocks(s: MenuState)
    requires ElementsPresent(s)
    requires s.menu.hamburgerActive == s.menu.overlayActive && s.body.menuOpen == s.menu.overlayActive
    requires s.html.menuOpen == s.menu.overlayActive
    ensures Inv(ToggleMobileMenu(s))
  {
  }
}
