/**
  * Two small behaviours of the site's pages (js/script.js): the header's shadow,
  * which deepens once the page has scrolled past 100 pixels (lines 93-106), and
  * in-page links, which scroll smoothly to their target except for a bare `#`
  * (lines 44-61).
  */
module SiteChrome {
  import opened Wrappers

  const ElevatedShadow: string := "0 4px 12px rgba(0, 0, 0, 0.15)"
  const RestingShadow: string := "0 1px 2px rgba(0, 0, 0, 0.05)"

  /** `window.pageYOffset || document.documentElement.scrollTop`: a zero offset falls back to the element's. */
  function ScrollOffset(pageYOffset: real, scrollTop: real): real {
    if pageYOffset != 0.0 then pageYOffset else scrollTop
  }

  predicate IsScrolledPast(offset: real) {
    offset > 100.0
  }

  function ShadowFor(offset: real): string {
    if IsScrolledPast(offset) then ElevatedShadow else RestingShadow
  }

  /** The header element, whose inline `box-shadow` the scroll listener rewrites. */
  class Header {
    var boxShadow: string

    constructor(boxShadow: string)
      ensures this.boxShadow == boxShadow
    {
      this.boxShadow := boxShadow;
    }

    method OnScroll(pageYOffset: real, scrollTop: real)
      modifies this
      ensures boxShadow == ShadowFor(ScrollOffset(pageYOffset, scrollTop))
    {
      var offset := if pageYOffset != 0.0 then pageYOffset else scrollTop;
      if offset > 100.0 {
        boxShadow := ElevatedShadow;
      } else {
        boxShadow := RestingShadow;
      }
    }
  }

  /** The shadow is the elevated one exactly past 100 pixels; at exactly 100 it rests. */
  lemma ShadowThreshold(offset: real)
    ensures ShadowFor(offset) == ElevatedShadow <==> offset > 100.0
    ensures ShadowFor(100.0) == RestingShadow
    ensures ShadowFor(offset) == ElevatedShadow || ShadowFor(offset) == RestingShadow
  {
  }

  /**
    * What the scroll listener shows for the two offsets it reads: the header is
    * elevated when the window has scrolled past 100 pixels, or when the window
    * reports no offset at all and the document element has.
    */
  lemma ScrolledShadow(pageYOffset: real, scrollTop: real)
    ensures ShadowFor(ScrollOffset(pageYOffset, scrollTop)) == ElevatedShadow
      <==> pageYOffset > 100.0 || (pageYOffset == 0.0 && scrollTop > 100.0)
  {
  }

  /** Whether the shadow changes depends only on which side of 100 the two offsets lie. */
  lemma ShadowMonotone(lower: real, higher: real)
    requires lower <= higher
    ensures ShadowFor(lower) == ElevatedShadow ==> ShadowFor(higher) == ElevatedShadow
  {
  }

  /** What `document.querySelector(href)` gives: an element, nothing, or a `SyntaxError`. */
  datatype Lookup = Found(element: string) | Missing | InvalidSelector

  /** What a click on an in-page link does. */
  datatype ClickOutcome = ClickOutcome(defaultPrevented: bool, scrollTarget: Option<string>)

  predicate IsBareHash(href: string) {
    href == "#"
  }

  /**
    * The click listener on `a[href^="#"]`: a bare `#` returns before anything
    * happens; otherwise the default navigation is cancelled first, then the
    * selector is looked up and an existing target is scrolled into view. A
    * selector the browser rejects throws after the default was cancelled.
    */
  method OnAnchorClick(href: string, lookup: Lookup) returns (outcome: ClickOutcome)
    ensures outcome.defaultPrevented <==> !IsBareHash(href)
    ensures outcome.scrollTarget.Some? <==> !IsBareHash(href) && lookup.Found?
    ensures outcome.scrollTarget.Some? ==> outcome.scrollTarget.value == lookup.element
  {
    if href == "#" {
      return ClickOutcome(false, None);
    }
    var prevented := true;
    match lookup {
      case Found(element) =>
        outcome := ClickOutcome(prevented, Some(element));
      case Missing =>
        outcome := ClickOutcome(prevented, None);
      case InvalidSelector =>
        outcome := ClickOutcome(prevented, None);
    }
  }
}
