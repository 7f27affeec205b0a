/**
 * `determine_trend_state` of the sector dashboards (SectorIndexv1 to v12): a
 * quadrant from where the last close sits against its SMA and the sign of
 * the relative performance, with strict comparisons so that any tie, and a
 * missing relative performance, is Neutral.
 */
module Trend {
  import opened Wrappers

  datatype Quadrant = Leading | Weakening | Improving | Lagging | Neutral

  /** The last bar: close, SMA and relative performance (NaN is `None`). */
  datatype LastBar = LastBar(price: real, sma: real, rel: Option<real>)

  /** The state and its colour; an empty frame (`None`) is Neutral. */
  function Classify(last: Option<LastBar>): (q: Quadrant)
    ensures last.None? ==> q == Neutral
    ensures q == Neutral <==> last.None? || last.value.price == last.value.sma || last.value.rel.None? || last.value.rel.value == 0.0
    ensures q == Leading || q == Weakening ==> last.Some? && last.value.price > last.value.sma
    ensures q == Improving || q == Lagging ==> last.Some? && last.value.price < last.value.sma
    ensures q == Leading || q == Improving ==> last.Some? && last.value.rel.Some? && last.value.rel.value > 0.0
    ensures q == Weakening || q == Lagging ==> last.Some? && last.value.rel.Some? && last.value.rel.value < 0.0
  {
    if last.None? then Neutral
    else
      var b := last.value;
      var relPos := b.rel.Some? && b.rel.value > 0.0;
      var relNeg := b.rel.Some? && b.rel.value < 0.0;
      if b.price > b.sma && relPos then Leading
      else if b.price > b.sma && relNeg then Weakening
      else if b.price < b.sma && relPos then Improving
      else if b.price < b.sma && relNeg then Lagging
      else Neutral
  }

  function Colour(q: Quadrant): string
  {
    match q
    case Leading => "#26a69a"
    case Weakening => "#F7DC6F"
    case Improving => "#45B7D1"
    case Lagging => "#ef5350"
    case Neutral => "#8a94a6"
  }

  /** The quadrant diagonally opposite. */
  function Opposite(q: Quadrant): Quadrant
  {
    match q
    case Leading => Lagging
    case Lagging => Leading
    case Weakening => Improving
    case Improving => Weakening
    case Neutral => Neutral
  }

  /** Reflecting the price around its SMA and negating the relative performance gives the opposite quadrant. */
  lemma Reflection(b: LastBar)
    ensures Classify(Some(LastBar(2.0 * b.sma - b.price, b.sma,
      if b.rel.Some? then Some(-b.rel.value) else None))) == Opposite(Classify(Some(b)))
  {
  }
}
