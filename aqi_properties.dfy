/** What the breakpoint table and the three conversions guarantee. */
module AqiProperties {
  import opened AqiUtils

  // ---------------------------------------------------------------------
  // The table
  // ---------------------------------------------------------------------

  /** The bands are ascending and pairwise disjoint on both scales: every
      band ends strictly before any later band starts. */
  lemma BandsAscending(s: Scale, i: nat, j: nat)
    requires i < j < |Breakpoints|
    ensures Hi(Breakpoints[i], s) < Lo(Breakpoints[j], s)
  {
  }

  /** A value inside band i is found at band i, by the first-match scan. */
  lemma {:induction false} FirstBandIs(s: Scale, x: real, i: nat)
    requires i < |Breakpoints| && Contains(Breakpoints[i], s, x)
    ensures FirstBand(s, x, 0) == Some(i)
  {
    forall j | 0 <= j < |Breakpoints| && j != i
      ensures !Contains(Breakpoints[j], s, x)
    {
      if j < i { BandsAscending(s, j, i); } else { BandsAscending(s, i, j); }
    }
  }

  /** A value the scan finds lies inside the table's range and in no gap. */
  lemma FoundNotInGap(s: Scale, x: real, i: nat)
    requires i < |Breakpoints| && Contains(Breakpoints[i], s, x)
    ensures Lo(Breakpoints[0], s) <= x <= Hi(Last, s) && !InGap(s, x)
  {
    if InGap(s, x) {
      var k :| 0 <= k < |Breakpoints| - 1 &&
        Hi(Breakpoints[k], s) < x < Lo(Breakpoints[k + 1], s);
      if i < k { BandsAscending(s, i, k); }
      if k + 1 < i { BandsAscending(s, k + 1, i); }
    }
    if i < |Breakpoints| - 1 { BandsAscending(s, i, |Breakpoints| - 1); }
    if 0 < i { BandsAscending(s, 0, i); }
  }

  /** A value in the table's range that no band contains lies in a gap. */
  lemma {:induction false} NotFoundInGap(s: Scale, x: real)
    requires Lo(Breakpoints[0], s) <= x <= Hi(Last, s)
    requires forall j :: 0 <= j < |Breakpoints| ==> !Contains(Breakpoints[j], s, x)
    ensures InGap(s, x)
  {
    var k := 0;
    while k < |Breakpoints| - 1 && Lo(Breakpoints[k + 1], s) <= x
      invariant 0 <= k < |Breakpoints|
      invariant Lo(Breakpoints[k], s) <= x
    {
      k := k + 1;
    }
    assert !Contains(Breakpoints[k], s, x);
    assert Hi(Breakpoints[k], s) < x < Lo(Breakpoints[k + 1], s);
  }

  /** The bands, together with the gaps between consecutive bands, cover
      the range from the bottom of the first band to the top of the last,
      with nothing left over: the scan finds a band exactly when the value
      lies in that range and not in a gap. */
  lemma FirstBandFoundIff(s: Scale, x: real)
    ensures FirstBand(s, x, 0).Some? <==>
      Lo(Breakpoints[0], s) <= x <= Hi(Last, s) && !InGap(s, x)
  {
    var r := FirstBand(s, x, 0);
    if r.Some? {
      FoundNotInGap(s, x, r.value);
    } else if Lo(Breakpoints[0], s) <= x <= Hi(Last, s) {
      NotFoundInGap(s, x);
    }
  }

  // ---------------------------------------------------------------------
  // Rounding and interpolation
  // ---------------------------------------------------------------------

  lemma RoundMonotone(x: real, y: real)
    requires x <= y
    ensures Round(x) <= Round(y)
  {
  }

  lemma RoundOfInteger(n: int)
    ensures Round(n as real) == n
  {
  }

  /** Inside its row, interpolation starts at the row's lowest index, ends
      at its highest, and is strictly increasing in between. */
  lemma InterpolateWithin(bp: AQICategory, p: real, q: real)
    requires ValidRow(bp) && Contains(bp, Pm25, p) && Contains(bp, Pm25, q)
    ensures Interpolate(bp, bp.minPm25) == bp.minAqi as real
    ensures Interpolate(bp, bp.maxPm25) == bp.maxAqi as real
    ensures bp.minAqi as real <= Interpolate(bp, p) <= bp.maxAqi as real
    ensures p < q ==> Interpolate(bp, p) < Interpolate(bp, q)
  {
    var width := bp.maxPm25 - bp.minPm25;
    var k := (bp.maxAqi - bp.minAqi) as real / width;
    assert k > 0.0;
    assert k * width == (bp.maxAqi - bp.minAqi) as real;
    assert Interpolate(bp, p) == k * (p - bp.minPm25) + bp.minAqi as real;
    assert Interpolate(bp, q) == k * (q - bp.minPm25) + bp.minAqi as real;
    assert k * 0.0 == 0.0;
    MulMonotone(k, p - bp.minPm25, width);
    MulMonotone(k, 0.0, p - bp.minPm25);
    if p < q {
      MulStrict(k, 0.0, q - p);
      assert Interpolate(bp, q) - Interpolate(bp, p) == k * (q - p);
    }
  }

  lemma MulMonotone(k: real, a: real, b: real)
    requires k > 0.0 && a <= b
    ensures k * a <= k * b
  {
    assert k * b - k * a == k * (b - a);
  }

  lemma MulStrict(k: real, a: real, b: real)
    requires k > 0.0 && a < b
    ensures k * a < k * b
  {
    assert k * b - k * a == k * (b - a);
  }

  // ---------------------------------------------------------------------
  // calculateAQIFromPM25
  // ---------------------------------------------------------------------

  /** A reading inside band i gives an index inside band i's index
      interval, and the band's end points map exactly onto its ends. */
  lemma AqiInBand(p: real, i: nat)
    requires i < |Breakpoints| && Contains(Breakpoints[i], Pm25, p)
    ensures Breakpoints[i].minAqi <= AqiFromPm25(p) <= Breakpoints[i].maxAqi
    ensures p == Breakpoints[i].minPm25 ==> AqiFromPm25(p) == Breakpoints[i].minAqi
    ensures p == Breakpoints[i].maxPm25 ==> AqiFromPm25(p) == Breakpoints[i].maxAqi
    ensures ValidRow(Breakpoints[i]) && AqiFromPm25(p) == Round(Interpolate(Breakpoints[i], p))
  {
    var bp := Breakpoints[i];
    RowsValid(i);
    FirstBandIs(Pm25, p, i);
    InterpolateWithin(bp, p, p);
    assert AqiFromPm25(p) == Round(Interpolate(bp, p));
    RoundMonotone(bp.minAqi as real, Interpolate(bp, p));
    RoundMonotone(Interpolate(bp, p), bp.maxAqi as real);
    RoundOfInteger(bp.minAqi);
    RoundOfInteger(bp.maxAqi);
  }

  /** Within one band the index never decreases as the reading grows. */
  lemma AqiMonotoneInBand(p: real, q: real, i: nat)
    requires i < |Breakpoints|
    requires Contains(Breakpoints[i], Pm25, p) && Contains(Breakpoints[i], Pm25, q)
    requires p <= q
    ensures AqiFromPm25(p) <= AqiFromPm25(q)
  {
    var bp := Breakpoints[i];
    RowsValid(i);
    FirstBandIs(Pm25, p, i);
    FirstBandIs(Pm25, q, i);
    InterpolateWithin(bp, p, q);
    RoundMonotone(Interpolate(bp, p), Interpolate(bp, q));
  }

  /** Above the top band the index saturates at the top band's maximum. */
  lemma AqiSaturates(p: real)
    requires p > Last.maxPm25
    ensures AqiFromPm25(p) == Last.maxAqi
  {
    FirstBandFoundIff(Pm25, p);
  }

  /** The index is 0 exactly for a negative reading, a reading so low in
      the first band that it rounds to 0, or a reading in a gap between
      two bands (such as 12.05, between 12.0 and 12.1). */
  lemma AqiZeroIff(p: real)
    ensures AqiFromPm25(p) == 0 <==> p < 0.12 || InGap(Pm25, p)
  {
    if 0.0 <= p {
      FirstBandFoundIff(Pm25, p);
      match FirstBand(Pm25, p, 0)
      case Some(i) =>
        AqiInBand(p, i);
        if 0 < i {
          BandsAscending(Aqi, 0, i);
        } else {
          var v := Interpolate(Breakpoints[0], p);
          assert AqiFromPm25(p) == Round(v);
          assert v == 50.0 / 12.0 * p;
          assert v < 0.5 <==> p < 0.12;
        }
      case None =>
    }
  }

  /** Every result is an index in the table's range, 0 to 500. */
  lemma {:induction false} AqiInRange(p: real)
    ensures Breakpoints[0].minAqi <= AqiFromPm25(p) <= Last.maxAqi
  {
    if 0.0 <= p {
      match FirstBand(Pm25, p, 0)
      case Some(i) =>
        AqiInBand(p, i);
        if 0 < i { BandsAscending(Aqi, 0, i); }
        if i < |Breakpoints| - 1 { BandsAscending(Aqi, i, |Breakpoints| - 1); }
      case None =>
    }
  }

  /** Concrete values: clamping, band ends, a gap and saturation. */
  lemma AqiExamples()
    ensures AqiFromPm25(-5.0) == 0
    ensures AqiFromPm25(0.0) == 0
    ensures AqiFromPm25(12.0) == 50
    ensures AqiFromPm25(12.05) == 0
    ensures AqiFromPm25(12.1) == 51
    ensures AqiFromPm25(35.4) == 100
    ensures AqiFromPm25(35.5) == 101
    ensures AqiFromPm25(500.4) == 500
    ensures AqiFromPm25(600.0) == 500
  {
    AqiInBand(0.0, 0);
    AqiInBand(12.0, 0);
    AqiZeroIff(12.05);
    AqiInBand(12.1, 1);
    AqiInBand(35.4, 1);
    AqiInBand(35.5, 2);
    AqiInBand(500.4, 5);
    AqiSaturates(600.0);
  }

  /** Because of the gaps the conversion is not monotone over all
      non-negative readings. */
  lemma AqiNotMonotoneAcrossGap()
    ensures 0.0 <= 12.0 < 12.05 && AqiFromPm25(12.0) > AqiFromPm25(12.05)
  {
    AqiExamples();
  }

  // ---------------------------------------------------------------------
  // getAQICategory
  // ---------------------------------------------------------------------

  /** An index inside band i's interval gets band i. */
  lemma CategoryInBand(v: real, i: nat)
    requires i < |Breakpoints| && Contains(Breakpoints[i], Aqi, v)
    ensures CategoryOf(v) == Breakpoints[i]
  {
    FirstBandIs(Aqi, v, i);
  }

  /** Every integer index from 0 to 500 lies in exactly one band, and that
      band is the category returned. */
  lemma ExactlyOneCategory(n: int)
    requires Breakpoints[0].minAqi <= n <= Last.maxAqi
    ensures CategoryOf(n as real) in Breakpoints
    ensures Contains(CategoryOf(n as real), Aqi, n as real)
    ensures forall i :: 0 <= i < |Breakpoints| && Contains(Breakpoints[i], Aqi, n as real) ==>
      Breakpoints[i] == CategoryOf(n as real)
  {
    assert !InGap(Aqi, n as real);
    FirstBandFoundIff(Aqi, n as real);
    forall i | 0 <= i < |Breakpoints| && Contains(Breakpoints[i], Aqi, n as real)
      ensures Breakpoints[i] == CategoryOf(n as real)
    {
      CategoryInBand(n as real, i);
    }
  }

  /** Above the table the category saturates at the top band. */
  lemma CategoryAboveTable(v: real)
    requires v > Last.maxAqi as real
    ensures CategoryOf(v) == Last
  {
    FirstBandFoundIff(Aqi, v);
  }

  /** The sentinel is returned exactly for a negative index or one that
      falls strictly between two bands (such as 50.5). */
  lemma CategoryUnknownIff(v: real)
    ensures CategoryOf(v) == Unknown <==> v < 0.0 || InGap(Aqi, v)
  {
    FirstBandFoundIff(Aqi, v);
    assert Unknown !in Breakpoints;
  }

  /** Concrete categories, and the sentinel's marker fields. */
  lemma CategoryExamples()
    ensures CategoryOf(0.0).category == "Good"
    ensures CategoryOf(50.0).category == "Good"
    ensures CategoryOf(51.0).category == "Moderate"
    ensures CategoryOf(500.0).category == "Hazardous"
    ensures CategoryOf(501.0).category == "Hazardous"
    ensures CategoryOf(-1.0) == Unknown
    ensures CategoryOf(50.5) == Unknown
    ensures Unknown.category == "Unknown" && Unknown.cautionaryStatements == ""
    ensures Unknown.minPm25 == Unknown.maxPm25 == -1.0
    ensures Unknown.minAqi == Unknown.maxAqi == -1
  {
    CategoryInBand(0.0, 0);
    CategoryInBand(50.0, 0);
    CategoryInBand(51.0, 1);
    CategoryInBand(500.0, 5);
    CategoryAboveTable(501.0);
    CategoryUnknownIff(-1.0);
    CategoryUnknownIff(50.5);
  }

  // ---------------------------------------------------------------------
  // getAQICategoryFromPM25
  // ---------------------------------------------------------------------

  /** A reading inside a concentration band is shown with that band's
      category: the index it converts to lands back in the same row. */
  lemma CategoryFromPm25InBand(p: real, i: nat)
    requires i < |Breakpoints| && Contains(Breakpoints[i], Pm25, p)
    ensures CategoryFromPm25(p) == Breakpoints[i]
  {
    AqiInBand(p, i);
    CategoryInBand(AqiFromPm25(p) as real, i);
  }

  /** The composition never yields the sentinel: every reading, even a
      negative one or one in a gap, gets one of the six bands. */
  lemma CategoryFromPm25NeverUnknown(p: real)
    ensures CategoryFromPm25(p) in Breakpoints
    ensures CategoryFromPm25(p) != Unknown
  {
    AqiInRange(p);
    ExactlyOneCategory(AqiFromPm25(p));
    assert Unknown !in Breakpoints;
  }

  /** Concrete categories for readings; a gap reading shows as Good. */
  lemma CategoryFromPm25Examples()
    ensures CategoryFromPm25(35.5).category == "Unhealthy for Sensitive Groups"
    ensures CategoryFromPm25(12.0).category == "Good"
    ensures CategoryFromPm25(-5.0).category == "Good"
    ensures CategoryFromPm25(35.45).category == "Good"
    ensures CategoryFromPm25(600.0).category == "Hazardous"
  {
    CategoryFromPm25InBand(35.5, 2);
    CategoryFromPm25InBand(12.0, 0);
    AqiZeroIff(35.45);
    AqiExamples();
    CategoryInBand(0.0, 0);
    CategoryAboveTable(500.0 + 1.0);
    CategoryInBand(500.0, 5);
  }
}
