/**
 * Coordinate converter: the fixed-width ICAO token `DDMM[NS]DDDMM[EW]`
 * read as decimal degrees, longitude first (GeoJSON axis order).
 */
module Coordinates {
  import opened Wrappers
  import opened Scan

  /** A GeoJSON position `[lon, lat]`. */
  datatype LonLat = LonLat(lon: real, lat: real)

  /** `(\d{4})([NS])(\d{5})([EW])` matches at `p`. */
  predicate TokenAt(s: string, p: int)
  {
    && AllAt(s, p, 4, Digit)
    && (At(s, p + 4, 'N') || At(s, p + 4, 'S'))
    && AllAt(s, p + 5, 5, Digit)
    && (At(s, p + 10, 'E') || At(s, p + 10, 'W'))
  }

  /** Degrees plus minutes, negated for the southern or western hemisphere. */
  function SignedDegrees(degrees: nat, minutes: nat, negative: bool): real
  {
    (if negative then -1.0 else 1.0) * (degrees as real + minutes as real / 60.0)
  }

  /**
   * `parse_coordinate_str`: `re.match` anchors the token at the start only,
   * so anything after the eleventh character is ignored; the minutes are
   * not range checked.
   */
  function ParseCoordinateStr(s: string): (r: Option<LonLat>)
    ensures r.None? <==> (s == [] || !TokenAt(s, 0))
    ensures r.Some? ==>
      && r.value.lat == SignedDegrees(DigitsValue(s[0..2]), DigitsValue(s[2..4]), s[4] == 'S')
      && r.value.lon == SignedDegrees(DigitsValue(s[5..8]), DigitsValue(s[8..10]), s[10] == 'W')
  {
    if s == [] then None
    else if !TokenAt(s, 0) then None
    else
      var latDeg := DigitsValue(s[..2]);
      var latMin := DigitsValue(s[2..4]);
      var latAbs := latDeg as real + latMin as real / 60.0;
      var lat := if s[4] == 'S' then -latAbs else latAbs;
      var lonDeg := DigitsValue(s[5..8]);
      var lonMin := DigitsValue(s[8..10]);
      var lonAbs := lonDeg as real + lonMin as real / 60.0;
      var lon := if s[10] == 'W' then -lonAbs else lonAbs;
      Some(LonLat(lon, lat))
  }

  /** The token for whole degrees and minutes: the inverse direction of the converter. */
  function FormatToken(latDeg: nat, latMin: nat, south: bool, lonDeg: nat, lonMin: nat, west: bool): string
  {
    Pad(latDeg, 2) + Pad(latMin, 2) + [if south then 'S' else 'N']
    + Pad(lonDeg, 3) + Pad(lonMin, 2) + [if west then 'W' else 'E']
  }

  /**
   * Round trip: any token written from whole degrees and minutes that fit
   * their fields reads back as those degrees and minutes, whatever follows it.
   */
  lemma RoundTrip(latDeg: nat, latMin: nat, south: bool, lonDeg: nat, lonMin: nat, west: bool, rest: string)
    requires latDeg < 100 && latMin < 100 && lonDeg < 1000 && lonMin < 100
    ensures ParseCoordinateStr(FormatToken(latDeg, latMin, south, lonDeg, lonMin, west) + rest)
         == Some(LonLat(SignedDegrees(lonDeg, lonMin, west), SignedDegrees(latDeg, latMin, south)))
  {
    PadValue(latDeg, 2);
    PadValue(latMin, 2);
    PadValue(lonDeg, 3);
    PadValue(lonMin, 2);
    TokenLaid(Pad(latDeg, 2), Pad(latMin, 2), if south then 'S' else 'N',
              Pad(lonDeg, 3), Pad(lonMin, 2), if west then 'W' else 'E', rest);
  }

  /** Where the fields of a token laid out piece by piece are found again. */
  lemma TokenLaid(a: string, b: string, h1: char, c: string, d: string, h2: char, rest: string)
    requires |a| == 2 && |b| == 2 && |c| == 3 && |d| == 2
    requires AllDigits(a) && AllDigits(b) && AllDigits(c) && AllDigits(d)
    requires h1 in "NS" && h2 in "EW"
    ensures var s := a + b + [h1] + c + d + [h2] + rest;
      && TokenAt(s, 0)
      && s[0..2] == a && s[2..4] == b && s[4] == h1
      && s[5..8] == c && s[8..10] == d && s[10] == h2
  {
    var s := a + b + [h1] + c + d + [h2] + rest;
    assert s[0..2] == a && s[2..4] == b && s[4] == h1;
    var t := a + b + [h1] + c;
    assert |t| == 8;
    assert s == t + d + [h2] + rest;
    assert s[5..8] == t[5..8] == c;
    assert s[8..10] == d && s[10] == h2;
  }

  /** The fields of the fixture `5319N11335W`. */
  lemma FixtureFields(s: string)
    requires s == "5319N11335W"
    ensures TokenAt(s, 0) && s[4] == 'N' && s[10] == 'W'
    ensures DigitsValue(s[0..2]) == 53 && DigitsValue(s[2..4]) == 19
    ensures DigitsValue(s[5..8]) == 113 && DigitsValue(s[8..10]) == 35
  {
    assert s == "53" + "19" + ['N'] + "113" + "35" + ['W'] + [];
    TokenLaid("53", "19", 'N', "113", "35", 'W', []);
    TwoDigitsAt("53", 0);
    TwoDigitsAt("19", 0);
    ThreeDigitsAt("113", 0);
    TwoDigitsAt("35", 0);
    assert "53"[0..2] == "53" && "19"[0..2] == "19" && "113"[0..3] == "113" && "35"[0..2] == "35";
  }

  /** The fixture `5319N11335W`: 53 deg 19 min north, 113 deg 35 min west. */
  lemma Fixture()
    ensures ParseCoordinateStr("5319N11335W") == Some(LonLat(-(113.0 + 35.0 / 60.0), 53.0 + 19.0 / 60.0))
  {
    FixtureFields("5319N11335W");
  }
}
