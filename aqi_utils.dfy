/** The PM2.5 breakpoint table of the US EPA Air Quality Index and the three
    conversions the dashboard runs over it: concentration to index, index to
    category, and concentration to category. Concentrations are exact reals
    (micrograms per cubic metre); no floating-point effects are modelled. */
module AqiUtils {

  datatype Option<T> = None | Some(value: T)

  /** One row of the breakpoint table: a closed concentration interval, the
      closed index interval it maps onto, and the texts shown for it. */
  datatype AQICategory = AQICategory(
    category: string,
    minPm25: real,
    maxPm25: real,
    minAqi: int,
    maxAqi: int,
    healthImplications: string,
    cautionaryStatements: string)

  /** The six PM2.5 bands, in ascending order. Consecutive concentration
      bands are one tenth apart and consecutive index bands one unit apart,
      so values strictly between two bands belong to neither. */
  const Breakpoints: seq<AQICategory> := [
    AQICategory("Good", 0.0, 12.0, 0, 50,
      "Air quality is satisfactory, and air pollution poses little or no risk.",
      "None."),
    AQICategory("Moderate", 12.1, 35.4, 51, 100,
      "Air quality is acceptable; however, for some pollutants there may be a moderate health concern for a very small number of people who are unusually sensitive to air pollution.",
      "Active children and adults, and people with respiratory disease, such as asthma, should limit prolonged outdoor exertion."),
    AQICategory("Unhealthy for Sensitive Groups", 35.5, 55.4, 101, 150,
      "Members of sensitive groups may experience health effects. The general public is not likely to be affected.",
      "Active children and adults, and people with respiratory disease, such as asthma, should avoid prolonged outdoor exertion; everyone else, especially children, should limit prolonged outdoor exertion."),
    AQICategory("Unhealthy", 55.5, 150.4, 151, 200,
      "Everyone may begin to experience health effects; members of sensitive groups may experience more serious health effects.",
      "Active children and adults, and people with respiratory disease, such as asthma, should avoid all outdoor exertion; everyone else, especially children, should limit outdoor exertion."),
    AQICategory("Very Unhealthy", 150.5, 250.4, 201, 300,
      "Health warnings of emergency conditions. The entire population is more likely to be affected.",
      "Everyone should avoid all outdoor exertion."),
    AQICategory("Hazardous", 250.5, 500.4, 301, 500,
      "Health alert: everyone may experience more serious health effects.",
      "Everyone should avoid all outdoor exertion.")
  ]

  /** The top band, used for saturation above the table. */
  const Last: AQICategory := Breakpoints[|Breakpoints| - 1]

  /** The sentinel returned for an index that no band covers. */
  const Unknown: AQICategory :=
    AQICategory("Unknown", -1.0, -1.0, -1, -1, "No data or invalid AQI.", "")

  /** Which of a row's two intervals a search looks at. */
  datatype Scale = Pm25 | Aqi

  function Lo(bp: AQICategory, s: Scale): (lo: real) {
    match s
    case Pm25 => bp.minPm25
    case Aqi => bp.minAqi as real
  }

  function Hi(bp: AQICategory, s: Scale): (hi: real) {
    match s
    case Pm25 => bp.maxPm25
    case Aqi => bp.maxAqi as real
  }

  /** Both ends of a band are inclusive. */
  predicate Contains(bp: AQICategory, s: Scale, x: real) {
    Lo(bp, s) <= x <= Hi(bp, s)
  }

  /** A row can be interpolated over: both intervals are non-empty and
      not degenerate. */
  predicate ValidRow(bp: AQICategory) {
    0.0 <= bp.minPm25 < bp.maxPm25 && 0 <= bp.minAqi < bp.maxAqi
  }

  /** x lies strictly between two consecutive bands of scale s. */
  predicate InGap(s: Scale, x: real) {
    exists i :: 0 <= i < |Breakpoints| - 1 &&
      Hi(Breakpoints[i], s) < x < Lo(Breakpoints[i + 1], s)
  }

  /** The first row, at index `from` or later, whose interval on scale s
      contains x: the result of the table scans in both conversions. */
  function FirstBand(s: Scale, x: real, from: nat): (r: Option<nat>)
    requires from <= |Breakpoints|
    decreases |Breakpoints| - from
    ensures r.Some? ==> from <= r.value < |Breakpoints| && Contains(Breakpoints[r.value], s, x)
    ensures r.Some? ==> forall j :: from <= j < r.value ==> !Contains(Breakpoints[j], s, x)
    ensures r.None? <==> forall j :: from <= j < |Breakpoints| ==> !Contains(Breakpoints[j], s, x)
  {
    if from == |Breakpoints| then None
    else if Contains(Breakpoints[from], s, x) then Some(from)
    else FirstBand(s, x, from + 1)
  }

  /** JavaScript's Math.round: the nearest integer, halves rounded up. */
  function Round(x: real): (r: int)
    ensures x - 0.5 < r as real <= x + 0.5
  {
    (x + 0.5).Floor
  }

  /** Linear interpolation of a concentration onto a row's index interval. */
  function Interpolate(bp: AQICategory, p: real): (v: real)
    requires bp.minPm25 < bp.maxPm25
  {
    ((bp.maxAqi - bp.minAqi) as real / (bp.maxPm25 - bp.minPm25)) * (p - bp.minPm25)
      + bp.minAqi as real
  }

  /** What calculateAQIFromPM25 returns for a concentration p. */
  function AqiFromPm25(p: real): (r: int) {
    if p < 0.0 then 0
    else match FirstBand(Pm25, p, 0)
      case Some(i) =>
        assert ValidRow(Breakpoints[i]) by { RowsValid(i); }
        Round(Interpolate(Breakpoints[i], p))
      case None => if p > Last.maxPm25 then Last.maxAqi else 0
  }

  /** What getAQICategory returns for an index value v. */
  function CategoryOf(v: real): (c: AQICategory) {
    match FirstBand(Aqi, v, 0)
    case Some(i) => Breakpoints[i]
    case None => if v > Last.maxAqi as real then Last else Unknown
  }

  /** What getAQICategoryFromPM25 returns for a concentration p. */
  function CategoryFromPm25(p: real): (c: AQICategory) {
    CategoryOf(AqiFromPm25(p) as real)
  }

  lemma RowsValid(i: nat)
    requires i < |Breakpoints|
    ensures ValidRow(Breakpoints[i])
  {
  }

  /** calculateAQIFromPM25: clamp negatives, scan the bands, interpolate in
      the first one that contains the reading, saturate above the table. */
  method CalculateAqiFromPm25(pm25: real) returns (aqi: int)
    ensures aqi == AqiFromPm25(pm25)
  {
    if pm25 < 0.0 {
      return 0;
    }
    for i := 0 to |Breakpoints|
      invariant forall j :: 0 <= j < i ==> !Contains(Breakpoints[j], Pm25, pm25)
    {
      var bp := Breakpoints[i];
      if pm25 >= bp.minPm25 && pm25 <= bp.maxPm25 {
        RowsValid(i);
        return Round(Interpolate(bp, pm25));
      }
    }
    if pm25 > Last.maxPm25 {
      return Last.maxAqi;
    }
    return 0;
  }

  /** getAQICategory: the first band whose index interval contains the
      value, the top band above the table, the sentinel otherwise. */
  method GetAqiCategory(value: real) returns (c: AQICategory)
    ensures c == CategoryOf(value)
  {
    for i := 0 to |Breakpoints|
      invariant forall j :: 0 <= j < i ==> !Contains(Breakpoints[j], Aqi, value)
    {
      var bp := Breakpoints[i];
      if value >= bp.minAqi as real && value <= bp.maxAqi as real {
        return bp;
      }
    }
    if value > Last.maxAqi as real {
      return Last;
    }
    return Unknown;
  }

  /** getAQICategoryFromPM25: the category of the index of a reading. */
  method GetAqiCategoryFromPm25(pm25: real) returns (c: AQICategory)
    ensures c == CategoryFromPm25(pm25)
  {
    var aqiValue := CalculateAqiFromPm25(pm25);
    c := GetAqiCategory(aqiValue as real);
  }
}
