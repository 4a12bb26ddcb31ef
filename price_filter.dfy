/** The price filter of src/components/Filters/PriceFilter.tsx: with bounds
    [min, max] it shows the selected range clamped into the bounds, and
    every edit (either number input or the slider) is clamped end by end
    before it is passed to `onChange`. With `max <= min` only a disabled
    panel is shown and nothing can be emitted. */
module PriceFilter {
  import opened FlightTypes

  function Max(a: int, b: int): int { if a >= b then a else b }
  function Min(a: int, b: int): int { if a <= b then a else b }

  predicate HasValidRange(min: int, max: int) {
    max > min
  }

  /** `values`: the selected range with each end clamped into the bounds. */
  function DisplayedValues(min: int, max: int, value: NumericRange): (shown: NumericRange)
    ensures min <= shown.min && shown.max <= max
    ensures shown.min == value.min || shown.min == min
    ensures shown.max == value.max || shown.max == max
    ensures value.min <= shown.min && shown.max <= value.max
    ensures min <= value.min && value.max <= max ==> shown == value
  {
    NumericRange(Max(value.min, min), Min(value.max, max))
  }

  /** `updateRange`: the range handed to `onChange`. */
  function UpdateRange(min: int, max: int, newMin: int, newMax: int): (out: NumericRange)
    ensures min <= out.min && out.max <= max
    ensures out.min == (if newMin >= min then newMin else min)
    ensures out.max == (if newMax <= max then newMax else max)
  {
    NumericRange(Max(newMin, min), Min(newMax, max))
  }

  /** Clamping a clamped range changes nothing. */
  lemma UpdateRangeIdempotent(min: int, max: int, newMin: int, newMax: int)
    ensures var out := UpdateRange(min, max, newMin, newMax);
      UpdateRange(min, max, out.min, out.max) == out
  {
  }

  /** What the component shows. */
  datatype View = Disabled(price: int) | Enabled(values: NumericRange)

  function Render(min: int, max: int, value: NumericRange): (view: View)
    ensures view.Disabled? <==> !HasValidRange(min, max)
    ensures view.Disabled? ==> view.price == min
    ensures view.Enabled? ==> view.values == DisplayedValues(min, max, value)
  {
    if !HasValidRange(min, max) then Disabled(min) else Enabled(DisplayedValues(min, max, value))
  }

  /** A user edit. */
  datatype Edit = MinInput(typed: int) | MaxInput(typed: int) | Slider(newMin: int, newMax: int)

  /** The range an edit emits, if the enabled panel is shown. */
  function Emitted(min: int, max: int, value: NumericRange, edit: Edit): (out: Option<NumericRange>)
    ensures out.None? <==> !HasValidRange(min, max)
    ensures out.Some? ==> min <= out.value.min && out.value.max <= max
  {
    if !HasValidRange(min, max) then None
    else
      var shown := DisplayedValues(min, max, value);
      match edit
      case MinInput(typed) => Some(UpdateRange(min, max, typed, shown.max))
      case MaxInput(typed) => Some(UpdateRange(min, max, shown.min, typed))
      case Slider(newMin, newMax) => Some(UpdateRange(min, max, newMin, newMax))
  }

  /** The minimum input moves only the lower end and the maximum input only
      the upper one; the other end stays as displayed. */
  lemma InputsEditOneEnd(min: int, max: int, value: NumericRange, typed: int)
    requires HasValidRange(min, max)
    ensures var shown := DisplayedValues(min, max, value);
      && Emitted(min, max, value, MinInput(typed)) == Some(NumericRange(Max(typed, min), shown.max))
      && Emitted(min, max, value, MaxInput(typed)) == Some(NumericRange(shown.min, Min(typed, max)))
  {
  }

  /** A slider move inside the bounds is emitted as it is. */
  lemma SliderInsideBounds(min: int, max: int, value: NumericRange, newMin: int, newMax: int)
    requires HasValidRange(min, max) && min <= newMin && newMax <= max
    ensures Emitted(min, max, value, Slider(newMin, newMax)) == Some(NumericRange(newMin, newMax))
  {
  }
}
