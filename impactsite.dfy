/** The impact-site helpers of calculation/utilities.py: the longitude wrap,
    the five-way classification of an impact point, the tsunami flag derived
    from it, and the magnitude suffix of `format_large_number`. The spatial
    tests against the Natural Earth layers are inputs of the model. */
module ImpactSite {

  // ---------------------------------------------------------------------
  // Longitude
  // ---------------------------------------------------------------------

  /** Whole turns removed by the wrap: Python's floor division of
      lon + 180 by 360. */
  function Turns(lon: real): int {
    ((lon + 180.0) / 360.0).Floor
  }

  /** `((lon + 180) % 360) - 180`, Python's `%` taking the sign of the
      divisor. */
  function NormaliseLongitude(lon: real): (r: real)
    ensures -180.0 <= r < 180.0
    ensures r == lon - 360.0 * Turns(lon) as real
  {
    (lon + 180.0) - 360.0 * Turns(lon) as real - 180.0
  }

  /** A longitude already in [-180, 180) is left alone. */
  lemma NormaliseLongitudeKeepsRange(lon: real)
    requires -180.0 <= lon < 180.0
    ensures NormaliseLongitude(lon) == lon
  {
    assert Turns(lon) == 0;
  }

  /** Adding whole turns does not change the normalised longitude. */
  lemma NormaliseLongitudeIsPeriodic(lon: real, k: int)
    ensures NormaliseLongitude(lon + 360.0 * k as real) == NormaliseLongitude(lon)
  {
    assert (lon + 360.0 * k as real + 180.0) / 360.0 == (lon + 180.0) / 360.0 + k as real;
    assert Turns(lon + 360.0 * k as real) == Turns(lon) + k;
  }

  /** The wrap is the only value in [-180, 180) that differs from `lon` by
      whole turns. */
  lemma NormaliseLongitudeIsUnique(lon: real, r: real, k: int)
    requires -180.0 <= r < 180.0 && r == lon + 360.0 * k as real
    ensures r == NormaliseLongitude(lon)
  {
    NormaliseLongitudeKeepsRange(r);
    NormaliseLongitudeIsPeriodic(lon, k);
  }

  // ---------------------------------------------------------------------
  // Classification
  // ---------------------------------------------------------------------

  datatype Site = Lake | River | Coastal | Inland | Ocean

  /** The answers of the spatial layers at a point given as (lon, lat):
      whether a lake or a river intersects it, whether it is on land, and
      whether a coastline comes within a buffer of the given radius in
      degrees. */
  datatype Geography = Geography(
    inLake: (real, real) -> bool,
    onRiver: (real, real) -> bool,
    onLand: (real, real) -> bool,
    coastWithin: (real, real, real) -> bool)

  /** The coastal distance converted to degrees, 111 km per degree. */
  function BufferDegrees(coastalKm: real): (b: real)
    ensures b * 111.0 == coastalKm
    ensures b > 0.0 <==> coastalKm > 0.0
  {
    coastalKm / 111.0
  }

  /** `classify_for_meteor_impact`: lakes first, then rivers, then land
      (coastal or inland by the buffered coastline test), else ocean. */
  function Classify(lat: real, lon: real, coastalKm: real, geo: Geography): (s: Site)
    ensures var x := NormaliseLongitude(lon);
      && (s == Lake <==> geo.inLake(x, lat))
      && (s == River <==> !geo.inLake(x, lat) && geo.onRiver(x, lat))
      && (s == Coastal <==> !geo.inLake(x, lat) && !geo.onRiver(x, lat) && geo.onLand(x, lat)
                            && geo.coastWithin(x, lat, BufferDegrees(coastalKm)))
      && (s == Inland <==> !geo.inLake(x, lat) && !geo.onRiver(x, lat) && geo.onLand(x, lat)
                           && !geo.coastWithin(x, lat, BufferDegrees(coastalKm)))
      && (s == Ocean <==> !geo.inLake(x, lat) && !geo.onRiver(x, lat) && !geo.onLand(x, lat))
  {
    var x := NormaliseLongitude(lon);
    if geo.inLake(x, lat) then Lake
    else if geo.onRiver(x, lat) then River
    else if geo.onLand(x, lat) then
      if geo.coastWithin(x, lat, BufferDegrees(coastalKm)) then Coastal else Inland
    else Ocean
  }

  /** Longitudes a whole number of turns apart classify alike. */
  lemma ClassifyIgnoresWholeTurns(lat: real, lon: real, k: int, coastalKm: real, geo: Geography)
    ensures Classify(lat, lon + 360.0 * k as real, coastalKm, geo) == Classify(lat, lon, coastalKm, geo)
  {
    NormaliseLongitudeIsPeriodic(lon, k);
  }

  /** When a larger buffer meets every coastline a smaller one meets,
      widening the coastal distance can turn an inland site coastal but
      never the other way, and leaves every other label alone. */
  lemma WiderCoastalDistanceOnlyAddsCoastal(lat: real, lon: real, km1: real, km2: real, geo: Geography)
    requires km1 <= km2
    requires forall x, y, b1, b2 :: b1 <= b2 && geo.coastWithin(x, y, b1) ==> geo.coastWithin(x, y, b2)
    ensures Classify(lat, lon, km1, geo) == Coastal ==> Classify(lat, lon, km2, geo) == Coastal
    ensures Classify(lat, lon, km2, geo) == Inland ==> Classify(lat, lon, km1, geo) == Inland
    ensures Classify(lat, lon, km1, geo) !in {Coastal, Inland} ==>
      Classify(lat, lon, km2, geo) == Classify(lat, lon, km1, geo)
  {
    assert BufferDegrees(km1) <= BufferDegrees(km2);
  }

  /** `tsunami_risk_flag`: 1 for an ocean or coastal site, else 0. */
  function TsunamiRiskFlag(lat: real, lon: real, coastalKm: real, geo: Geography): (f: int)
    ensures f == 0 || f == 1
    ensures var x := NormaliseLongitude(lon);
      f == 1 <==> !geo.inLake(x, lat) && !geo.onRiver(x, lat)
                  && (!geo.onLand(x, lat) || geo.coastWithin(x, lat, BufferDegrees(coastalKm)))
  {
    var site := Classify(lat, lon, coastalKm, geo);
    if site == Ocean || site == Coastal then 1 else 0
  }

  // ---------------------------------------------------------------------
  // format_large_number
  // ---------------------------------------------------------------------

  datatype Suffix = Thousand | Million | Billion

  function Unit(s: Suffix): real {
    match s
    case Thousand => 1e3
    case Million => 1e6
    case Billion => 1e9
  }

  /** Digits after the decimal point: one for K, two for M and B. */
  function Places(s: Suffix): real {
    match s
    case Thousand => 10.0
    case Million => 100.0
    case Billion => 100.0
  }

  /** What the helper prints: `Scaled(d, s)` is the decimal number
      d / Places(s) followed by the letter of `s`; `Plain(v)` is `str(v)`. */
  datatype Display = Scaled(digits: int, suffix: Suffix) | Plain(value: real)

  /** The scaled number rounded to the suffix's places, as a count of the
      last place (ties rounded up). */
  function RoundedDigits(num: real, s: Suffix): (d: int)
    ensures (d as real) - 0.5 <= num / Unit(s) * Places(s) < (d as real) + 0.5
  {
    (num / Unit(s) * Places(s) + 0.5).Floor
  }

  /** The value a display stands for. */
  function Shown(d: Display): real {
    match d
    case Scaled(digits, s) => digits as real / Places(s) * Unit(s)
    case Plain(v) => v
  }

  /** The helper as written: the suffix is chosen from `num` by the
      descending thresholds and only then is the quotient rounded. */
  function FormatLargeNumber(num: real): (d: Display)
    ensures d == Plain(num) <==> num < 1e3
    ensures d.Scaled? ==> d.digits == RoundedDigits(num, d.suffix)
    ensures d.Scaled? ==> (d.suffix == Billion <==> num >= 1e9)
    ensures d.Scaled? ==> (d.suffix == Million <==> 1e6 <= num < 1e9)
    ensures d.Scaled? ==> (d.suffix == Thousand <==> 1e3 <= num < 1e6)
  {
    if num >= 1e9 then Scaled(RoundedDigits(num, Billion), Billion)
    else if num >= 1e6 then Scaled(RoundedDigits(num, Million), Million)
    else if num >= 1e3 then Scaled(RoundedDigits(num, Thousand), Thousand)
    else Plain(num)
  }

  /** Within half a last place: the printed number is `num` to the shown
      precision. */
  lemma FormatLargeNumberIsAccurate(num: real)
    ensures var d := FormatLargeNumber(num);
      d.Scaled? ==> -0.5 <= (num - Shown(d)) / Unit(d.suffix) * Places(d.suffix) < 0.5
    ensures FormatLargeNumber(num).Plain? ==> Shown(FormatLargeNumber(num)) == num
  {
    var d := FormatLargeNumber(num);
    if d.Scaled? {
      var s := d.suffix;
      assert (num - Shown(d)) / Unit(s) * Places(s) == num / Unit(s) * Places(s) - d.digits as real;
    }
  }

  /** Just under a million prints as "1000.0K", and just under a billion
      as "1000.00M": the rounding carries the mantissa to 1000 after the
      suffix was fixed. */
  lemma FormatLargeNumberPrintsThousandK()
    ensures FormatLargeNumber(999999.0) == Scaled(10000, Thousand)
    ensures FormatLargeNumber(999999999.0) == Scaled(100000, Million)
  {
  }

  /** The suffix is promoted when rounding carries the mantissa to 1000,
      so that K and M show a mantissa in [1, 1000). */
  function FormatLargeNumberCorrected(num: real): (d: Display)
    ensures d == Plain(num) <==> num < 1e3
    ensures d.Scaled? ==> d.digits == RoundedDigits(num, d.suffix)
    ensures d.Scaled? ==> d.digits as real >= Places(d.suffix)
    ensures d.Scaled? && d.suffix != Billion ==> d.digits as real < 1000.0 * Places(d.suffix)
    ensures d.Scaled? && FormatLargeNumber(num).Scaled? ==>
      (d.suffix == FormatLargeNumber(num).suffix <==>
       FormatLargeNumber(num).digits as real < 1000.0 * Places(FormatLargeNumber(num).suffix)
       || FormatLargeNumber(num).suffix == Billion)
  {
    if num >= 1e9 then Scaled(RoundedDigits(num, Billion), Billion)
    else if num >= 1e6 then
      var m := RoundedDigits(num, Million);
      if m < 100000 then Scaled(m, Million) else Scaled(RoundedDigits(num, Billion), Billion)
    else if num >= 1e3 then
      var k := RoundedDigits(num, Thousand);
      if k < 10000 then Scaled(k, Thousand) else Scaled(RoundedDigits(num, Million), Million)
    else Plain(num)
  }

  /** The corrected helper prints 999999 as "1.00M" and 999999999 as
      "1.00B". */
  lemma FormatLargeNumberCorrectedPrintsOneM()
    ensures FormatLargeNumberCorrected(999999.0) == Scaled(100, Million)
    ensures FormatLargeNumberCorrected(999999999.0) == Scaled(100, Billion)
  {
  }
}
