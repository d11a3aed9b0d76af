/** The `Progress` bar of `components/ui/progress.tsx`: clamping of its `value` and `max`
    props and the width percentage it draws. Numbers are exact reals; infinities are not
    modelled. */
module ProgressBar {

  /** A prop declared `number` as it reaches the component: left out (so its default applies),
      a finite number, NaN, or a value of another type (including `null`). */
  datatype NumberProp = Absent | Finite(x: real) | NaN | NotANumber

  /** `max = 100`, then `typeof max === 'number' && max > 0 ? max : 100`. */
  function SafeMax(max: NumberProp): (m: real)
    ensures m > 0.0
    ensures max.Finite? && max.x > 0.0 ==> m == max.x
    ensures !(max.Finite? && max.x > 0.0) && max != Absent ==> m == 100.0
    ensures max == Absent ==> m == 100.0
  {
    var max' := if max == Absent then Finite(100.0) else max;
    match max'
    case Finite(x) => if x > 0.0 then x else 100.0
    case _ => 100.0
  }

  /** `value = 0`, then `typeof value === 'number' && !isNaN(value)
      ? Math.max(0, Math.min(safeMax, value)) : 0`: the point of `[0, safeMax]` nearest to the
      value, and 0 for a missing or non-numeric value. */
  function SafeValue(value: NumberProp, max: NumberProp): (v: real)
    ensures 0.0 <= v <= SafeMax(max)
    ensures value.Finite? && 0.0 <= value.x <= SafeMax(max) ==> v == value.x
    ensures value.Finite? && value.x < 0.0 ==> v == 0.0
    ensures value.Finite? && value.x > SafeMax(max) ==> v == SafeMax(max)
    ensures !value.Finite? ==> v == 0.0
  {
    var m := SafeMax(max);
    match value
    case Finite(x) => if x < 0.0 then 0.0 else if x > m then m else x
    case _ => 0.0
  }

  /** `(safeValue / safeMax) * 100`: the drawn width, always within `[0, 100]`, and
      proportional to the clamped value. */
  function Percentage(value: NumberProp, max: NumberProp): (p: real)
    ensures 0.0 <= p <= 100.0
    ensures p * SafeMax(max) == 100.0 * SafeValue(value, max)
  {
    var m := SafeMax(max);
    var v := SafeValue(value, max);
    assert v / m <= 1.0 by {
      assert v <= m;
    }
    (v / m) * 100.0
  }

  /** Clamping is idempotent: feeding the clamped value back in changes nothing. */
  lemma SafeValueIdempotent(value: NumberProp, max: NumberProp)
    ensures SafeValue(Finite(SafeValue(value, max)), max) == SafeValue(value, max)
  {
  }
}
