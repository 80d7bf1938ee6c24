/**
  The UI store (`useUIStore`): the viewport record with its breakpoint bands,
  the guard that ignores the resizes a mobile browser makes while scrolling,
  the content-width arithmetic and the naive-ui dark flag.

  Widths and heights are whole pixels here; window measurements are passed
  in as a `Measurement` instead of being read from the DOM.
 */
module UiStore {
  import opened JsPrims

  datatype ViewportRecord = ViewportRecord(
    w: int, h: int,
    mobile: bool, pad: bool, hpad: bool, wider: bool, widest: bool, phone: bool)

  /** What `updateViewport` reads from the window: `innerHeight`, the width
      of the document element, `innerWidth` and `screen.width`. */
  datatype Measurement = Measurement(innerHeight: int, width: int, innerWidth: int, screenWidth: int)

  /** How many of the four width bands `pad`, `hpad`, `wider`, `widest` a
      record claims. */
  function BandCount(v: ViewportRecord): (n: nat)
    ensures n <= 4
  {
    (if v.pad then 1 else 0) + (if v.hpad then 1 else 0)
    + (if v.wider then 1 else 0) + (if v.widest then 1 else 0)
  }

  /** The record `updateViewport` builds from a measurement. */
  function Classify(m: Measurement): (r: ViewportRecord)
    ensures r.w == m.width && r.h == m.innerHeight
    // the four bands are pairwise exclusive ...
    ensures BandCount(r) <= 1
    // ... and, with the widths up to 568, cover every width
    ensures m.innerWidth <= 568 <==> BandCount(r) == 0
    ensures r.mobile <==> m.screenWidth <= 568 || m.innerWidth <= 568
    // `phone` is the two narrowest classes together
    ensures r.phone <==> m.innerWidth <= 568 || r.pad
    // a narrow screen makes a record mobile whatever band the window is in
    ensures m.screenWidth <= 568 ==> r.mobile
  {
    ViewportRecord(
      m.width, m.innerHeight,
      m.screenWidth <= 568 || m.innerWidth <= 568,
      m.innerWidth <= 768 && m.innerWidth > 568,
      m.innerWidth <= 1024 && m.innerWidth > 768,
      m.innerWidth > 1024 && m.innerWidth < 1920,
      m.innerWidth >= 1920,
      m.innerWidth <= 768)
  }

  /** A pad-sized window on a phone-sized screen is `mobile` and `pad` at
      once: the two flags are not exclusive. */
  lemma MobileAndPadTogether(m: Measurement)
    requires m.screenWidth <= 568 && 568 < m.innerWidth <= 768
    ensures Classify(m).mobile && Classify(m).pad
  {
  }

  function Abs(x: int): nat {
    if x < 0 then -x else x
  }

  /** The early return of `updateViewport`: the previous record is kept when
      its height is nonzero, the new inner height is within 80 pixels of it,
      the width is unchanged and the previous record was `hpad`, `pad` or
      `mobile`. An empty previous record (`None`, the initial `{}`) is never
      kept. */
  predicate KeepPrevious(previous: Option<ViewportRecord>, m: Measurement) {
    previous.Some?
    && previous.value.h != 0
    && Abs(m.innerHeight - previous.value.h) < 80
    && m.width == previous.value.w
    && (previous.value.hpad || previous.value.pad || previous.value.mobile)
  }

  /** The viewport after one `updateViewport` call. */
  function NextViewport(previous: Option<ViewportRecord>, m: Measurement): (r: Option<ViewportRecord>)
    ensures r.Some?
    ensures r == previous || r == Some(Classify(m))
    ensures r.value.w == m.width || KeepPrevious(previous, m)
  {
    if KeepPrevious(previous, m) then previous else Some(Classify(m))
  }

  /** Repeating an update with the same measurement changes nothing. */
  lemma NextViewportIdempotent(previous: Option<ViewportRecord>, m: Measurement)
    ensures NextViewport(NextViewport(previous, m), m) == NextViewport(previous, m)
  {
  }

  /** A desktop-sized record (not `hpad`, `pad` or `mobile`) is always
      rebuilt, however small the change in height. */
  lemma DesktopAlwaysRebuilt(previous: ViewportRecord, m: Measurement)
    requires !previous.hpad && !previous.pad && !previous.mobile
    ensures NextViewport(Some(previous), m) == Some(Classify(m))
  {
  }

  /** `contentWidth`: the viewport width less the sidebar, plus the collapse
      width when the sidebar is collapsed; unknown (`NaN` in the store) until
      the first viewport record exists. */
  function ContentWidth(viewport: Option<ViewportRecord>, sidebarWidth: int, collapse: bool, collapseWidth: int): (r: Option<int>)
    ensures r.Some? <==> viewport.Some?
  {
    match viewport
    case None => None
    case Some(v) => Some(v.w - sidebarWidth + (if collapse then collapseWidth else 0))
  }

  /** `contentInsetWidth`: `contentWidth` less six times the root font size. */
  function ContentInsetWidth(viewport: Option<ViewportRecord>, sidebarWidth: int, collapse: bool, collapseWidth: int, fontSize: int): (r: Option<int>)
    ensures r.Some? <==> viewport.Some?
  {
    match ContentWidth(viewport, sidebarWidth, collapse, collapseWidth)
    case None => None
    case Some(cw) => Some(cw - fontSize * 6)
  }

  /** The inset is always exactly six font sizes narrower than the content,
      and collapsing the sidebar widens both by the collapse width. */
  lemma ContentWidthRelations(v: ViewportRecord, sidebarWidth: int, collapseWidth: int, fontSize: int, collapse: bool)
    ensures ContentWidth(Some(v), sidebarWidth, collapse, collapseWidth).value
            - ContentInsetWidth(Some(v), sidebarWidth, collapse, collapseWidth, fontSize).value == 6 * fontSize
    ensures ContentWidth(Some(v), sidebarWidth, true, collapseWidth).value
            == ContentWidth(Some(v), sidebarWidth, false, collapseWidth).value + collapseWidth
    ensures ContentWidth(Some(v), sidebarWidth, false, collapseWidth).value + sidebarWidth == v.w
  {
  }

  /** `sidebarCollapse`'s initial value: collapsed only for a mobile record. */
  predicate CollapsedOnStart(viewport: Option<ViewportRecord>) {
    match viewport
    case None => false
    case Some(v) => v.mobile
  }

  /** The store's mutable state. */
  class UIStore {
    var viewport: Option<ViewportRecord>
    var sidebarWidth: int
    var sidebarCollapse: bool
    var naiveUIDark: bool

    /** The store as created: the viewport record is still empty, so the
        sidebar starts expanded. */
    constructor()
      ensures viewport == None && sidebarWidth == 250 && !sidebarCollapse && !naiveUIDark
    {
      var initial: Option<ViewportRecord> := None;
      viewport := initial;
      sidebarWidth := 250;
      sidebarCollapse := CollapsedOnStart(initial);
      naiveUIDark := false;
    }

    /** `updateViewport`, with the window measurements as input. */
    method UpdateViewport(m: Measurement)
      modifies this
      ensures viewport == NextViewport(old(viewport), m)
      ensures KeepPrevious(old(viewport), m) ==> viewport == old(viewport)
      ensures !KeepPrevious(old(viewport), m) ==> viewport == Some(Classify(m))
      ensures sidebarWidth == old(sidebarWidth) && sidebarCollapse == old(sidebarCollapse)
      ensures naiveUIDark == old(naiveUIDark)
    {
      if viewport.Some? {
        var prev := viewport.value;
        if prev.h != 0 && Abs(m.innerHeight - prev.h) < 80 && m.width == prev.w
           && (prev.hpad || prev.pad || prev.mobile) {
          return;
        }
      }
      viewport := Some(Classify(m));
    }

    /** `onlyToggleNaiveUIDark(dark)`: set the flag to `dark` when given,
        otherwise flip it. */
    method OnlyToggleNaiveUIDark(dark: Option<bool>)
      modifies this
      ensures dark.Some? ==> naiveUIDark == dark.value
      ensures dark.None? ==> naiveUIDark == !old(naiveUIDark)
      ensures viewport == old(viewport) && sidebarWidth == old(sidebarWidth)
      ensures sidebarCollapse == old(sidebarCollapse)
    {
      naiveUIDark := dark.GetOr(!naiveUIDark);
    }
  }
}
