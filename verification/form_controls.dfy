/** The errors an Angular form control carries, as the built-in validators
    the forms use compute them. `Validators.required` fails on an empty
    value (white space counts as a value); `minLength` and `pattern` pass an
    empty value and leave it to `required`, and `minLength` counts UTF-16
    code units; `min` and `max` compare numbers. */
module FormControls {
  import opened Wrappers
  import opened Text

  /** The keys of a control's error map that the forms look at; for
      `minlength`, `min` and `max`, the bound the validator carries. */
  datatype ControlErrors = ControlErrors(
    required: bool,
    minLength: Option<nat>,
    pattern: bool,
    min: Option<int>,
    max: Option<int>)

  const NoErrors := ControlErrors(false, None, false, None, None)

  predicate HasError(e: ControlErrors) {
    e.required || e.minLength.Some? || e.pattern || e.min.Some? || e.max.Some?
  }

  /** A text control with `required` and optionally `minLength(n)` and a
      pattern; `matches` is whether the text matches the pattern. */
  function TextErrors(v: string, required: bool, minLength: Option<nat>, hasPattern: bool, matches: bool): (e: ControlErrors)
    ensures e.required <==> required && |v| == 0
    ensures e.minLength.Some? <==> minLength.Some? && 0 < |v| && Utf16Length(v) < minLength.value
    ensures e.minLength.Some? ==> e.minLength == minLength
    ensures e.pattern <==> hasPattern && |v| > 0 && !matches
    ensures e.min.None? && e.max.None?
  {
    ControlErrors(
      required && |v| == 0,
      if minLength.Some? && 0 < |v| && Utf16Length(v) < minLength.value then minLength else None,
      hasPattern && |v| > 0 && !matches,
      None, None)
  }

  /** A numeric control with `required`, `min(lo)` and optionally
      `max(hi)` (the forms' bounds are whole numbers); the value is never
      null here. */
  function NumberErrors(x: real, lo: int, hi: Option<int>): (e: ControlErrors)
    ensures !e.required && e.minLength.None? && !e.pattern
    ensures e.min.Some? <==> x < lo as real
    ensures e.max.Some? <==> hi.Some? && x > hi.value as real
    ensures HasError(e) <==> x < lo as real || (hi.Some? && x > hi.value as real)
  {
    ControlErrors(false, None, false,
      if x < lo as real then Some(lo) else None,
      if hi.Some? && x > hi.value as real then hi else None)
  }
}
