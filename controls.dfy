/** The two controls the maps read on every redraw: the crime type selector and the
    month slider, looked up with optional chaining and a fallback. */
module Controls {
  import opened Optional
  import opened JsNumbers
  import opened Collections
  import opened JsStrings

  /** `selector?.value || fallback`: a missing selector and an empty choice both give the
      fallback. */
  function Chosen(selector: Option<string>, fallback: string): (c: string)
    ensures c == fallback <==> selector.None? || selector.value == "" || selector.value == fallback
    ensures c != fallback ==> selector == Some(c)
  {
    if selector.None? || selector.value == "" then fallback else selector.value
  }

  /** `this.periods[parseInt(slider?.value || '0')]`, `undefined` when the slider's text is
      not a number or lies outside the list. */
  function SelectedPeriod(periods: seq<string>, slider: Option<string>): (p: Option<string>)
    ensures p.Some? ==> p.value in periods
  {
    var index := ParseInt(Chosen(slider, "0"));
    if index.Some? then Element(periods, index.value) else None
  }

  /** Without a slider, or with an empty one, the map shows the first month. */
  lemma SliderDefault(periods: seq<string>, slider: Option<string>)
    requires periods != [] && (slider.None? || slider.value == "")
    ensures SelectedPeriod(periods, slider) == Some(periods[0])
  {
    ParseIntOfDigits("0");
    assert ValueOf("0", 10) == 0;
  }

  /** A slider whose value is a run of digits selects the month at that index, and nothing
      past the end of the list. */
  lemma SliderIndex(periods: seq<string>, ds: string)
    requires ds != [] && forall k :: 0 <= k < |ds| ==> IsAsciiDigit(ds[k])
    ensures var i := ValueOf(ds, 10);
      SelectedPeriod(periods, Some(ds)) == if i < |periods| then Some(periods[i]) else None
  {
    ParseIntOfDigits(ds);
  }
}
