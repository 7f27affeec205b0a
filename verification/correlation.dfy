/**
 * The Gold/DXY correlation annotations of the market monitors: decision
 * tables from a correlation to a status, a colour and a bold flag, and the
 * trailing rolling-correlation list.  A NaN correlation is `None`; like
 * every Python comparison with NaN, `Below` and `Above` are then false.
 */
module Correlation {
  import opened Wrappers

  predicate Below(c: Option<real>, x: real)
  {
    c.Some? && c.value < x
  }

  predicate Above(c: Option<real>, x: real)
  {
    c.Some? && c.value > x
  }

  /** `abs(c) > x`, false for NaN. */
  predicate AbsAbove(c: Option<real>, x: real)
  {
    c.Some? && (c.value > x || -c.value > x)
  }

  datatype Status = StrongInversion | Inversion | Decoupled | Positive | StrongPositive

  datatype Colour = Red | Green | Black | Gray | DarkGreen | DarkRed

  /** Position of a status on the negative-to-positive scale. */
  function Rank(s: Status): int
  {
    match s
    case StrongInversion => -2
    case Inversion => -1
    case Decoupled => 0
    case Positive => 1
    case StrongPositive => 2
  }

  /** The status of the opposite correlation. */
  function Mirror(s: Status): (m: Status)
    ensures Rank(m) == -Rank(s)
  {
    match s
    case StrongInversion => StrongPositive
    case Inversion => Positive
    case Decoupled => Decoupled
    case Positive => Inversion
    case StrongPositive => StrongInversion
  }

  function Negate(c: Option<real>): Option<real>
  {
    if c.Some? then Some(-c.value) else None
  }

  // ------------------------------------------ MarketMonitorLivev3, Livev4

  /** The five-way status with cut points -0.5, -0.2, 0.2, 0.5. */
  function LiveV4Status(c: Option<real>): (s: Status)
    ensures c == None ==> s == Decoupled
    ensures c.Some? ==> (Rank(s) < 0 <==> c.value < -0.2) && (Rank(s) > 0 <==> c.value > 0.2)
    ensures c.Some? ==> (s == StrongInversion || s == StrongPositive <==> c.value < -0.5 || c.value > 0.5)
  {
    if Below(c, -0.5) then StrongInversion
    else if Below(c, -0.2) then Inversion
    else if Above(c, 0.5) then StrongPositive
    else if Above(c, 0.2) then Positive
    else Decoupled
  }

  /** The annotation: its status (None when the text is "N/A") and whether it is bold. */
  datatype Annotation = Annotation(status: Option<Status>, bold: bool)

  /**
   * The 6-month annotation of MarketMonitorLivev3/v4: "N/A" for NaN, bold
   * exactly when the status is one of the two strong ones.
   */
  function LiveV4Annotation(c: Option<real>): (a: Annotation)
    ensures c == None <==> a.status == None
    ensures a.bold <==> a.status == Some(StrongInversion) || a.status == Some(StrongPositive)
  {
    Annotation(if c.Some? then Some(LiveV4Status(c)) else None, AbsAbove(c, 0.5))
  }

  /** Shifting the correlation up never lowers the status; the opposite correlation has the mirrored status. */
  lemma LiveV4Ordered(x: real, y: real)
    ensures x <= y ==> Rank(LiveV4Status(Some(x))) <= Rank(LiveV4Status(Some(y)))
    ensures LiveV4Status(Some(-x)) == Mirror(LiveV4Status(Some(x)))
  {
  }

  // ----------------------------------------------------- MarketMonitorLive

  /** The three-way status with cut points -0.2 and 0.2 (also MarketMonitorv7, v8). */
  function ThreeWayStatus(c: Option<real>): (s: Status)
    ensures s == Inversion || s == Decoupled || s == Positive
    ensures s == Inversion <==> Below(c, -0.2)
    ensures s == Positive <==> Above(c, 0.2)
  {
    if Below(c, -0.2) then Inversion else if Above(c, 0.2) then Positive else Decoupled
  }

  /** The box of MarketMonitorLive: bold beyond 0.7 in magnitude, dark green / dark red beyond +/-0.7. */
  function LiveBoxColour(c: Option<real>): (k: Colour)
    ensures k == DarkGreen || k == DarkRed || k == Gray
    ensures k != Gray <==> AbsAbove(c, 0.7)
    ensures k == DarkGreen ==> ThreeWayStatus(c) == Positive
    ensures k == DarkRed ==> ThreeWayStatus(c) == Inversion
  {
    if Above(c, 0.7) then DarkGreen else if Below(c, -0.7) then DarkRed else Gray
  }

  /** MarketMonitorLive's annotation: "N/A" for NaN, bold beyond 0.7, so a bold box is never decoupled. */
  function LiveAnnotation(c: Option<real>): (a: Annotation)
    ensures c == None <==> a.status == None
    ensures a.bold ==> a.status == Some(Inversion) || a.status == Some(Positive)
    ensures a.bold <==> LiveBoxColour(c) != Gray
  {
    Annotation(if c.Some? then Some(ThreeWayStatus(c)) else None, AbsAbove(c, 0.7))
  }

  lemma ThreeWayOrdered(x: real, y: real)
    ensures x <= y ==> Rank(ThreeWayStatus(Some(x))) <= Rank(ThreeWayStatus(Some(y)))
    ensures ThreeWayStatus(Some(-x)) == Mirror(ThreeWayStatus(Some(x)))
  {
  }

  // ------------------------------------------ LiveMarketv4, LiveMarketv6

  datatype Relation = Unrelated | Inverse | Direct

  /**
   * `"Decoupled" if abs(c) < 0.3 else ("Inverse" if c < 0 else "Direct")`.
   * A NaN correlation fails both tests and is reported as Direct.
   */
  function LiveMarketRelation(c: Option<real>): (r: Relation)
    ensures r == Unrelated <==> c.Some? && -0.3 < c.value < 0.3
    ensures r == Inverse <==> Below(c, -0.3) || c == Some(-0.3)
    ensures c == None ==> r == Direct
  {
    if c.Some? && -0.3 < c.value < 0.3 then Unrelated
    else if Below(c, 0.0) then Inverse
    else Direct
  }

  // --------------------------------------------------------- MarketMonitorv8

  /** The v8 box: green above 0.2, red below -0.2, else black, agreeing with the status. */
  function V8Colour(c: Option<real>): (k: Colour)
    ensures k == Green <==> ThreeWayStatus(c) == Positive
    ensures k == Red <==> ThreeWayStatus(c) == Inversion
    ensures k == Black <==> ThreeWayStatus(c) == Decoupled
  {
    if Above(c, 0.2) then Green else if Below(c, -0.2) then Red else Black
  }

  // --------------------------------------------------------- MarketMonitorv7

  datatype Box = Box(colour: Colour, status: Status, bold: bool)

  /**
   * MarketMonitorv7: a failed `corrcoef` counts as 0; bold beyond 0.7 in
   * magnitude; red/Inversion below -0.2, green/Positive above 0.2, else
   * black/Decoupled.  A failure therefore gives a plain black Decoupled box.
   */
  function V7Box(corr: Option<real>): (b: Box)
    ensures corr == None ==> b == Box(Black, Decoupled, false)
    ensures b.colour == Red <==> b.status == Inversion
    ensures b.colour == Green <==> b.status == Positive
    ensures b.bold ==> b.status != Decoupled
  {
    var c := if corr.Some? then corr else Some(0.0);
    var s := ThreeWayStatus(c);
    Box(if s == Inversion then Red else if s == Positive then Green else Black, s, AbsAbove(c, 0.7))
  }

  // --------------------------------------------------------- MarketMonitorv6

  /**
   * MarketMonitorv6: red below -0.2 ("Strong Inversion" below -0.7), green
   * above 0.2 ("Strong Positive" above 0.7), else black "Decoupled (Neutral)";
   * bold exactly for the strong statuses.
   */
  function V6Box(c: Option<real>): (b: Box)
    ensures b.colour == Red <==> Rank(b.status) < 0
    ensures b.colour == Green <==> Rank(b.status) > 0
    ensures b.colour == Black <==> b.status == Decoupled
    ensures b.bold <==> b.status == StrongInversion || b.status == StrongPositive
    ensures b.status == Decoupled <==> !Below(c, -0.2) && !Above(c, 0.2)
  {
    var bold := AbsAbove(c, 0.7);
    if Below(c, -0.2) then Box(Red, if Below(c, -0.7) then StrongInversion else Inversion, bold)
    else if Above(c, 0.2) then Box(Green, if Above(c, 0.7) then StrongPositive else Positive, bold)
    else Box(Black, Decoupled, bold)
  }

  lemma V6Ordered(x: real, y: real)
    ensures x <= y ==> Rank(V6Box(Some(x)).status) <= Rank(V6Box(Some(y)).status)
    ensures V6Box(Some(-x)).status == Mirror(V6Box(Some(x)).status)
  {
  }

  // --------------------------------------------------------- MarketMonitorv4

  /** MarketMonitorv4 colours the correlation text red exactly when it is negative. */
  function V4TextColour(c: Option<real>): (k: Colour)
    ensures k == Red || k == Black
    ensures k == Red <==> Below(c, 0.0)
  {
    if Below(c, 0.0) then Red else Black
  }

  // ------------------------------------------------ rolling correlation

  const RollWindow: nat := 30

  /**
   * The rolling-correlation list of MarketMonitorv6/v7: one entry per bar;
   * NaN for the first 30 bars; otherwise `corr` of the 30 bars BEFORE bar i
   * (bar i itself excluded).  `corr` stands for `np.corrcoef(...)[0, 1]`.
   */
  method RollingCorrelation(g: seq<real>, d: seq<real>, corr: (seq<real>, seq<real>) -> Option<real>)
    returns (r: seq<Option<real>>)
    requires |g| == |d|
    ensures |r| == |g|
    ensures forall i :: 0 <= i < |r| && i < RollWindow ==> r[i] == None
    ensures forall i :: RollWindow <= i < |r| ==> r[i] == corr(g[i - RollWindow..i], d[i - RollWindow..i])
  {
    r := [];
    var i := 0;
    while i < |g|
      invariant 0 <= i <= |g| && |r| == i
      invariant forall k :: 0 <= k < i && k < RollWindow ==> r[k] == None
      invariant forall k :: RollWindow <= k < i ==> r[k] == corr(g[k - RollWindow..k], d[k - RollWindow..k])
    {
      if i < RollWindow {
        r := r + [None];
      } else {
        r := r + [corr(g[i - RollWindow..i], d[i - RollWindow..i])];
      }
      i := i + 1;
    }
  }
}
