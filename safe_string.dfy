/** The taint flag of lib/iron/web/string.rb: every string value carries a flag that
    says whether it is already safe to emit as HTML. A plain Ruby `String` is a value
    with the flag off; an `HtmlSafeString` is one with the flag on. */
module SafeStrings {

  datatype SafeString = SafeString(text: string, safe: bool)

  /** A plain string: `Object#html_safe?` answers false for it. */
  function Plain(s: string): (r: SafeString)
    ensures r.text == s && !IsHtmlSafe(r)
  {
    SafeString(s, false)
  }

  /** `html_safe?`: the flag itself; false for every plain value. */
  predicate IsHtmlSafe(v: SafeString) {
    v.safe
  }

  /** `String#html_safe` wraps a copy of the text with the flag on;
      `HtmlSafeString#html_safe` returns the receiver itself. */
  function HtmlSafe(v: SafeString): (r: SafeString)
    ensures r.text == v.text && IsHtmlSafe(r)
    ensures IsHtmlSafe(v) ==> r == v
  {
    if v.safe then v else SafeString(v.text, true)
  }
}
