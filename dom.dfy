/**
 The parts of the rendered document that the script reads and writes.

 Style values are opaque tags: `...Unset` stands for an inline style property
 that was never assigned (or was assigned the empty string), the other tags for
 the concrete CSS strings the script writes. A class-list membership is a `bool`.
 */
module Dom {

  /** `element.style.overflow`: '' (unset), 'hidden' or 'auto'. */
  datatype Overflow = OverflowUnset | OverflowHidden | OverflowAuto

  /** `element.style.display`: unset, 'block', 'flex' or 'none'. */
  datatype Display = DisplayUnset | DisplayBlock | DisplayFlex | DisplayNone

  /** Header background: unset, the translucent white, or 'transparent'. */
  datatype Background = BackgroundUnset | Frosted | Transparent

  /** Header (webkit) backdrop filter: unset, the blur-and-saturate filter, or 'none'. */
  datatype Backdrop = BackdropUnset | Blurred | Unfiltered

  /** Header bottom border: unset, the 1px translucent line, or 'none'. */
  datatype Border = BorderUnset | Hairline | NoBorder

  /** Header transform: unset, 'translateY(-100%)' (hidden) or 'translateY(0)' (shown). */
  datatype Transform = TransformUnset | OffScreen | InPlace

  /** Header transition: unset or 'transform 0.3s ease-in-out'. */
  datatype Transition = TransitionUnset | Slide

  /** The inline style of the `.header` element. */
  datatype HeaderStyle = HeaderStyle(
    background: Background,
    backdropFilter: Backdrop,
    webkitBackdropFilter: Backdrop,
    borderBottom: Border,
    transform: Transform,
    transition: Transition)

  const NoInlineStyle := HeaderStyle(BackgroundUnset, BackdropUnset, BackdropUnset, BorderUnset,
                                     TransformUnset, TransitionUnset)

  /** The `#contactModal` element: its inline display and whether it has class `show`. */
  datatype ModalElement = ModalElement(display: Display, show: bool)

  /**
   The mobile menu elements: `active` on `#mobileMenuOverlay`, `active` on
   `.hamburger`, and the inline display of `.mobile-nav`.
   */
  datatype MenuElements = MenuElements(overlayActive: bool, hamburgerActive: bool, navDisplay: Display)

  /** `document.body`: its inline overflow and class `mobile-menu-open`. */
  datatype BodyElement = BodyElement(overflow: Overflow, menuOpen: bool)

  /** `document.documentElement`: inline overflow, classes `mobile-menu-open` and `scrolling`. */
  datatype RootElement = RootElement(overflow: Overflow, menuOpen: bool, scrolling: bool)

  /**
   Which of the elements the script looks up the page markup contains; the
   script never adds or removes any. `hasLogo` matters only at load: the script
   reads the text of `.logo` without a null check, so without it the load
   throws there and nothing after it (the modal and scrollbar code) runs.
   */
  datatype Markup = Markup(hasHeader: bool, hasLogo: bool, hasModal: bool, hasOverlay: bool, hasHamburger: bool,
                           hasMobileNav: bool)

  /** The live document, shared by every controller of the script. */
  class Page {
    const markup: Markup
    var header: HeaderStyle
    var modal: ModalElement
    var menu: MenuElements
    var body: BodyElement
    var html: RootElement

    /** A freshly loaded page: no inline styles and none of the script's classes. */
    constructor (markup: Markup)
      ensures this.markup == markup
      ensures header == NoInlineStyle
      ensures modal == ModalElement(DisplayUnset, false)
      ensures menu == MenuElements(false, false, DisplayUnset)
      ensures body == BodyElement(OverflowUnset, false)
      ensures html == RootElement(OverflowUnset, false, false)
    {
      this.markup := markup;
      header := NoInlineStyle;
      modal := ModalElement(DisplayUnset, false);
      menu := MenuElements(false, false, DisplayUnset);
      body := BodyElement(OverflowUnset, false);
      html := RootElement(OverflowUnset, false, false);
    }
  }
}
