/** The parsed page as the scripts see it: the "compare-sort" resort blocks in
    document order, each reduced to the results of its element lookups. The
    HTML parser and its class matching are not modelled. */
module Page {
  import opened Py
  import opened PyText

  /** The result of `resort.find(...)`: no element, or a tag whose `.string`
      is either a string or None (a tag with several children). A found tag
      is truthy whatever its content. */
  datatype Element = Missing | Found(str: Option<string>)

  /** One "compare-sort" block and the lookups made inside it. */
  datatype ResortBlock = ResortBlock(
    title: Element,          // div "title-location"
    anyText: Element,        // first div whose class matches "text .*"
    summaryValue: Element,   // first div whose class matches "summary-data-value .*"
    textSnow: Element,       // div "text snow"
    textHighSnow: Element,   // div "text highsnow"
    textNoSnow: Element      // div "text nosnow"
  )

  /** The element has a string to strip. */
  predicate Usable(e: Element) {
    e.Found? && e.str.Some?
  }

  /** The stripped string of an element that has one. */
  function Text(e: Element): string
    requires Usable(e)
  {
    Strip(e.str.value)
  }

  /** `e.string.strip()` */
  function StrippedString(e: Element): (r: Outcome<string>)
    ensures r.Ok? <==> Usable(e)
    ensures r.Ok? ==> r.value == Text(e)
    ensures r.Raised? ==> r.error == AttributeError
  {
    match e
    case Missing => Raised(AttributeError)
    case Found(None) => Raised(AttributeError)
    case Found(Some(s)) => Ok(Strip(s))
  }
}
