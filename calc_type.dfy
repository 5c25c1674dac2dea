/**
 * `getCalculationTypeName` of `src/api/taxRate.ts`: the label shown for a
 * tax rate's calculation type (1 truncate, 2 round up, 3 round half up),
 * with a fallback label for any other number.
 */
module CalcType {
  const RoundDown: string := "切り捨て"
  const RoundUp: string := "切り上げ"
  const RoundHalfUp: string := "四捨五入"
  const Unknown: string := "不明"

  /** The calculation types the label table knows. */
  predicate IsKnown(calculationType: int) {
    1 <= calculationType <= 3
  }

  function CalculationTypeName(calculationType: int): (name: string)
    ensures name in {RoundDown, RoundUp, RoundHalfUp, Unknown}
    ensures name == Unknown <==> !IsKnown(calculationType)
    ensures calculationType == 1 <==> name == RoundDown
    ensures calculationType == 2 <==> name == RoundUp
    ensures calculationType == 3 <==> name == RoundHalfUp
  {
    match calculationType
    case 1 => RoundDown
    case 2 => RoundUp
    case 3 => RoundHalfUp
    case _ => Unknown
  }
}
