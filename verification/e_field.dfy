/**
 * E-field extractor: the free-text description of a NOTAM searched for
 * the one attribute its category carries, a runway designator, a taxiway
 * designator or an obstacle height.
 */
module EField {
  import opened Wrappers
  import opened Scan
  import opened QLine
  import PyValue

  /** A value of the details dictionary: a string or a Python `int`. */
  datatype Detail = Text(text: string) | Number(n: int)

  /** `[LRC]` at `i`. */
  predicate SideAt(s: string, i: nat)
  {
    i < |s| && (s[i] == 'L' || s[i] == 'R' || s[i] == 'C')
  }

  /** What `\d{2}[LRC]?` captures: two digits and an optional left/right/centre letter. */
  predicate RunwayId(d: string)
  {
    && 2 <= |d| <= 3 && AllDigits(d[..2])
    && (|d| == 3 ==> d[2] == 'L' || d[2] == 'R' || d[2] == 'C')
  }

  /** End of `\d{2}[LRC]?` starting at `q`, the letter taken whenever present. */
  function IdEnd(s: string, q: nat): (e: nat)
    requires AllAt(s, q, 2, Digit)
    ensures q + 2 <= e <= |s| && RunwayId(s[q..e])
  {
    var e := if SideAt(s, q + 2) then q + 3 else q + 2;
    assert s[q..e][..2] == s[q..q + 2];
    e
  }

  /**
   * `RWY\s+(\d{2}[LRC]?)(?:/(\d{2}[LRC]?))?` anchored at `p`: the first
   * designator and the paired one when a `/` and two digits follow.
   * Giving back spaces or the letter never lets a later part match where
   * the greedy choice failed, so the greedy reading is the match.
   */
  function RwyAt(s: string, p: nat): (r: Option<(string, Option<string>)>)
    ensures r.Some? ==> RunwayId(r.value.0) && (r.value.1.Some? ==> RunwayId(r.value.1.value))
  {
    if !LitAt(s, p, "RWY") then None
    else
      var q := SpanWhile(s, p + 3, Space);
      if q == p + 3 || !AllAt(s, q, 2, Digit) then None
      else
        var e := IdEnd(s, q);
        var second := if At(s, e, '/') && AllAt(s, e + 1, 2, Digit) then Some(s[e + 1..IdEnd(s, e + 1)]) else None;
        Some((s[q..e], second))
  }

  /** `TWY\s+([A-Z0-9]+)` anchored at `p`. */
  function TwyAt(s: string, p: nat): (r: Option<string>)
    ensures r.Some? ==> |r.value| >= 1 && AllIn(r.value, UpperOrDigit)
  {
    if !LitAt(s, p, "TWY") then None
    else
      var q := SpanWhile(s, p + 3, Space);
      if q == p + 3 then None
      else
        var e := SpanWhile(s, q, UpperOrDigit);
        if e == q then None
        else
          assert forall i :: 0 <= i < e - q ==> s[q..e][i] == s[q + i];
          Some(s[q..e])
  }

  /** The height reference `AGL|AMSL` at `q`, AGL tried first. */
  function RefAt(s: string, q: nat): (r: Option<string>)
    ensures r.Some? ==> r.value in {"AGL", "AMSL"}
  {
    if LitAt(s, q, "AGL") then Some("AGL")
    else if LitAt(s, q, "AMSL") then Some("AMSL")
    else None
  }

  /** End of the unit `FT|M` at `e`, FT tried first; `e` itself when neither is there. */
  function UnitEnd(s: string, e: nat): (u: nat)
    ensures u == e + 2 <==> LitAt(s, e, "FT")
    ensures u == e + 1 <==> !LitAt(s, e, "FT") && At(s, e, 'M')
    ensures u == e || u == e + 1 || u == e + 2
  {
    if LitAt(s, e, "FT") then e + 2 else if At(s, e, 'M') then e + 1 else e
  }

  /**
   * `(\d+)(?:FT|M)\s+(AGL|AMSL)` anchored at `p`: the height's digits and its
   * reference. A unit or a reference can never start inside the digit or
   * space runs, so the greedy runs are the only way to match.
   */
  function HeightAt(s: string, p: nat): (r: Option<(string, string)>)
    ensures r.Some? ==> |r.value.0| >= 1 && AllDigits(r.value.0) && r.value.1 in {"AGL", "AMSL"}
  {
    if p > |s| then None
    else
      var e := SpanWhile(s, p, Digit);
      if e == p then None
      else
        var u := UnitEnd(s, e);
        if u == e then None
        else
          var q := SpanWhile(s, u, Space);
          if q == u then None
          else match RefAt(s, q)
            case None => None
            case Some(ref) =>
              assert AllDigits(s[p..e]) by {
                forall i | 0 <= i < e - p ensures IsDigit(s[p..e][i]) {
                  assert s[p..e][i] == s[p + i];
                }
              }
              Some((s[p..e], ref))
  }

  /**
   * What the runway pattern matches at `p`: `RWY`, at least one space and
   * two digits; the first designator is the greedy `\d{2}[LRC]?` there, and
   * the paired one is present exactly when a `/` and two digits follow it.
   */
  lemma RunwayMatch(s: string, p: nat)
    ensures RwyAt(s, p).Some? <==>
      LitAt(s, p, "RWY") && SpanWhile(s, p + 3, Space) > p + 3 && AllAt(s, SpanWhile(s, p + 3, Space), 2, Digit)
    ensures RwyAt(s, p).Some? ==>
      (LitAt(s, p, "RWY") && AllAt(s, SpanWhile(s, p + 3, Space), 2, Digit) &&
       var q := SpanWhile(s, p + 3, Space);
       var e := IdEnd(s, q);
       var r := RwyAt(s, p).value;
       && r.0 == s[q..e]
       && (r.1.Some? <==> At(s, e, '/') && AllAt(s, e + 1, 2, Digit))
       && (r.1.Some? ==> AllAt(s, e + 1, 2, Digit) && r.1.value == s[e + 1..IdEnd(s, e + 1)]))
  {
  }

  /**
   * What the taxiway pattern matches at `p`: `TWY`, at least one space and
   * the whole non-empty run of capitals and digits after them.
   */
  lemma TaxiwayMatch(s: string, p: nat)
    ensures TwyAt(s, p).Some? <==>
      LitAt(s, p, "TWY") && SpanWhile(s, p + 3, Space) > p + 3
      && SpanWhile(s, SpanWhile(s, p + 3, Space), UpperOrDigit) > SpanWhile(s, p + 3, Space)
    ensures TwyAt(s, p).Some? ==>
      (LitAt(s, p, "TWY") &&
       var q := SpanWhile(s, p + 3, Space);
       TwyAt(s, p).value == s[q..SpanWhile(s, q, UpperOrDigit)])
  {
  }

  /**
   * What the height pattern matches at `p`: a non-empty digit run, the unit
   * `FT` or `M`, at least one space and a reference; the digits captured
   * are the whole digit run and the reference is the one found after the
   * spaces.
   */
  lemma HeightMatch(s: string, p: nat)
    ensures HeightAt(s, p).Some? <==>
      (p <= |s| && SpanWhile(s, p, Digit) > p &&
       var u := UnitEnd(s, SpanWhile(s, p, Digit));
       u > SpanWhile(s, p, Digit) && u <= |s| && SpanWhile(s, u, Space) > u && RefAt(s, SpanWhile(s, u, Space)).Some?)
    ensures HeightAt(s, p).Some? ==>
      (p <= |s| &&
       var e := SpanWhile(s, p, Digit);
       && p < e && AllDigits(s[p..e]) && HeightAt(s, p).value.0 == s[p..e]
       && (LitAt(s, e, "FT") || At(s, e, 'M'))
       && UnitEnd(s, e) <= |s| && RefAt(s, SpanWhile(s, UnitEnd(s, e), Space)).Some?
       && HeightAt(s, p).value.1 == RefAt(s, SpanWhile(s, UnitEnd(s, e), Space)).value)
  {
  }

  /** The runway branch: `rwy_id`, and `rwy_id_2` only when a paired end follows. */
  function RunwayDetails(text: string): (r: map<string, Detail>)
    ensures r.Keys <= {"rwy_id", "rwy_id_2"} && ("rwy_id_2" in r ==> "rwy_id" in r)
    ensures r == map[] <==> forall p :: 0 <= p <= |text| ==> RwyAt(text, p).None?
    ensures forall k | k in r :: r[k].Text? && RunwayId(r[k].text)
    ensures r != map[] ==>
      exists p :: && 0 <= p <= |text| && RwyAt(text, p).Some?
                  && (forall q :: 0 <= q < p ==> RwyAt(text, q).None?)
                  && r == RunwayEntries(RwyAt(text, p).value)
  {
    match Leftmost(text, 0, RwyAt)
    case None => map[]
    case Some((p, m)) =>
      assert RwyAt(text, p) == Some(m);
      RunwayEntries(m)
  }

  /** The entries one runway match fills: `rwy_id`, and `rwy_id_2` exactly when the paired end was captured. */
  function RunwayEntries(m: (string, Option<string>)): (r: map<string, Detail>)
    ensures r.Keys <= {"rwy_id", "rwy_id_2"}
    ensures "rwy_id" in r && r["rwy_id"] == Text(m.0)
    ensures "rwy_id_2" in r <==> m.1.Some?
    ensures m.1.Some? ==> r["rwy_id_2"] == Text(m.1.value)
  {
    if m.1.Some? then map["rwy_id" := Text(m.0), "rwy_id_2" := Text(m.1.value)]
    else map["rwy_id" := Text(m.0)]
  }

  /** The taxiway branch: `twy_id` alone. */
  function TaxiwayDetails(text: string): (r: map<string, Detail>)
    ensures r.Keys <= {"twy_id"}
    ensures r == map[] <==> forall p :: 0 <= p <= |text| ==> TwyAt(text, p).None?
    ensures "twy_id" in r ==> r["twy_id"].Text? && |r["twy_id"].text| >= 1
    ensures r != map[] ==>
      exists p :: && 0 <= p <= |text| && TwyAt(text, p).Some?
                  && (forall q :: 0 <= q < p ==> TwyAt(text, q).None?)
                  && r == map["twy_id" := Text(TwyAt(text, p).value)]
  {
    match Leftmost(text, 0, TwyAt)
    case None => map[]
    case Some((p, id)) =>
      assert TwyAt(text, p) == Some(id);
      map["twy_id" := Text(id)]
  }

  /**
   * The obstruction branch: `height_val` and `height_ref` together, the
   * reference AGL or AMSL. The value is `int()` of the captured digits,
   * which raises ValueError beyond the digit limit; nothing catches it.
   */
  function HeightDetails(text: string): (r: Result<map<string, Detail>, PyValue.PyError>)
    ensures r == Ok(map[]) <==> forall p :: 0 <= p <= |text| ==> HeightAt(text, p).None?
    ensures r.Err? ==> r.error == PyValue.ValueError
    ensures r.Ok? && r.value != map[] ==>
      r.value.Keys == {"height_val", "height_ref"} && r.value["height_ref"] in {Text("AGL"), Text("AMSL")}
    ensures r != Ok(map[]) ==>
      exists p :: && 0 <= p <= |text| && HeightAt(text, p).Some?
                  && (forall q :: 0 <= q < p ==> HeightAt(text, q).None?)
                  && r == HeightEntries(HeightAt(text, p).value)
  {
    var m := Leftmost(text, 0, HeightAt);
    assert m.None? <==> forall p :: 0 <= p <= |text| ==> HeightAt(text, p).None?;
    match m
    case None => Ok(map[])
    case Some((p, (digits, ref))) =>
      assert HeightAt(text, p) == Some((digits, ref));
      HeightEntries((digits, ref))
  }

  /**
   * The two entries of a height match: `int()` of the digits, which fails
   * exactly beyond the digit limit, and the reference.
   */
  function HeightEntries(m: (string, string)): (r: Result<map<string, Detail>, PyValue.PyError>)
    requires |m.0| >= 1 && AllDigits(m.0)
    ensures r.Err? <==> |m.0| > PyValue.MaxStrDigits
    ensures r.Err? ==> r.error == PyValue.ValueError
    ensures r.Ok? ==> r.value.Keys == {"height_val", "height_ref"}
    ensures r.Ok? ==> r.value == map["height_val" := Number(DigitsValue(m.0)), "height_ref" := Text(m.1)]
  {
    PyValue.ParsePyIntDigits(m.0);
    match PyValue.ParsePyInt(m.0)
    case None => Err(PyValue.ValueError)
    case Some(v) => Ok(map["height_val" := Number(v), "height_ref" := Text(m.1)])
  }

  /**
   * `parse_e_field`: the details dictionary for one category, filled from
   * the leftmost match of that category's pattern; every other category
   * gives the empty dictionary. Only the obstruction branch can raise.
   */
  function ParseEField(text: string, category: Category): (r: Result<map<string, Detail>, PyValue.PyError>)
    ensures category !in {Runway, Taxiway, Obstruction} ==> r == Ok(map[])
    ensures r.Err? ==> category == Obstruction && r.error == PyValue.ValueError
    ensures category == Runway ==> r == Ok(RunwayDetails(text))
    ensures category == Taxiway ==> r == Ok(TaxiwayDetails(text))
    ensures category == Obstruction ==> r == HeightDetails(text)
  {
    match category
    case Runway => Ok(RunwayDetails(text))
    case Taxiway => Ok(TaxiwayDetails(text))
    case Obstruction => HeightDetails(text)
    case _ => Ok(map[])
  }

  // ---------------------------------------------------------------------
  // The inverse direction: descriptions that start with the attribute
  // ---------------------------------------------------------------------

  /** The part of `RWY a/b` up to the slash: the literal, one space and the first end. */
  lemma RunwayFirst(a: string, b: string, rest: string)
    requires RunwayId(a) && RunwayId(b)
    ensures var s := "RWY " + a + "/" + b + rest;
      && LitAt(s, 0, "RWY") && SpanWhile(s, 3, Space) == 4 && AllAt(s, 4, 2, Digit)
      && IdEnd(s, 4) == 4 + |a| && s[4..4 + |a|] == a
      && At(s, 4 + |a|, '/') && AllAt(s, 5 + |a|, 2, Digit)
  {
    var s := "RWY " + a + "/" + b + rest;
    assert s[0..3] == "RWY" && s[3] == ' ' && s[4] == a[0] && s[5] == a[1];
    SpanWhileExact(s, 3, 4, Space);
    assert s[4..4 + |a|] == a && s[4 + |a|] == '/';
    assert s[5 + |a|] == b[0] && s[6 + |a|] == b[1];
    assert |a| == 3 ==> s[6] == a[2];
  }

  /** The second end of `RWY a/b`, not run on by a letter when it has none. */
  lemma RunwaySecond(a: string, b: string, rest: string)
    requires RunwayId(a) && RunwayId(b) && (|b| == 2 ==> rest == [] || !SideAt(rest, 0))
    ensures var s := "RWY " + a + "/" + b + rest;
      && AllAt(s, 5 + |a|, 2, Digit)
      && IdEnd(s, 5 + |a|) == 5 + |a| + |b| && s[5 + |a|..5 + |a| + |b|] == b
  {
    var s := "RWY " + a + "/" + b + rest;
    var e := 5 + |a|;
    assert s[e] == b[0] && s[e + 1] == b[1];
    assert s[e..e + |b|] == b;
    if |b| == 2 {
      assert rest == [] || s[e + 2] == rest[0];
    } else {
      assert s[e + 2] == b[2];
    }
  }

  /** A description opening with `RWY a/b` names both runway ends. */
  lemma RunwayPair(a: string, b: string, rest: string)
    requires RunwayId(a) && RunwayId(b) && (|b| == 2 ==> rest == [] || !SideAt(rest, 0))
    ensures RunwayDetails("RWY " + a + "/" + b + rest) == map["rwy_id" := Text(a), "rwy_id_2" := Text(b)]
  {
    var s := "RWY " + a + "/" + b + rest;
    RunwayFirst(a, b, rest);
    RunwaySecond(a, b, rest);
    assert RwyAt(s, 0) == Some((a, Some(b)));
  }

  /** A description opening with `TWY id`, the id not running on, names the taxiway. */
  lemma TaxiwayAtStart(id: string, rest: string)
    requires |id| >= 1 && AllIn(id, UpperOrDigit) && (rest == [] || !In(rest[0], UpperOrDigit))
    ensures TaxiwayDetails("TWY " + id + rest) == map["twy_id" := Text(id)]
  {
    var s := "TWY " + id + rest;
    assert s[0..3] == "TWY" && s[3] == ' ' && s[4] == id[0];
    SpanWhileExact(s, 3, 4, Space);
    SpanOver("TWY ", id, rest, UpperOrDigit);
    assert TwyAt(s, 0) == Some(id);
  }

  /** A reference written out after any prefix is read back. */
  lemma RefAfter(pre: string, ref: string, rest: string)
    requires ref in {"AGL", "AMSL"}
    ensures RefAt(pre + ref + rest, |pre|) == Some(ref)
  {
    var s := pre + ref + rest;
    var q := |pre|;
    assert s[q..q + |ref|] == ref;
    if ref == "AMSL" {
      assert s[q + 1] == 'M';
    }
  }

  /** A unit `FT` or `M` after any prefix, one space and a reference following: the unit and a one-space run. */
  lemma UnitAfter(pre: string, unit: string, ref: string, rest: string)
    requires unit in {"FT", "M"} && ref in {"AGL", "AMSL"}
    ensures var s := pre + unit + " " + ref + rest;
      UnitEnd(s, |pre|) == |pre| + |unit| && SpanWhile(s, |pre| + |unit|, Space) == |pre| + |unit| + 1
  {
    var s := pre + unit + " " + ref + rest;
    var p, n := |pre|, |pre| + |unit|;
    assert s[n] == ' ' && s[n + 1] == ref[0];
    assert ref[0] == 'A' by {
      if ref == "AGL" {} else {}
    }
    if unit == "FT" {
      assert s[p..p + 2] == unit;
      assert UnitEnd(s, p) == n;
    } else {
      assert s[p] == 'M' && s[p..p + 2][0] == 'M';
      assert UnitEnd(s, p) == n;
    }
    OneSpace(s, n);
  }

  /** The digit run of `<digits><unit> <ref>` stops at the unit. */
  lemma HeightDigits(d: string, unit: string, ref: string, rest: string)
    requires |d| >= 1 && AllDigits(d) && unit in {"FT", "M"}
    ensures var s := d + unit + " " + ref + rest;
      SpanWhile(s, 0, Digit) == |d| && s[0..|d|] == d
  {
    var s := d + unit + " " + ref + rest;
    forall i | 0 <= i < |d| ensures In(s[i], Digit) {
      assert s[i] == d[i];
    }
    assert s[|d|] == unit[0];
    SpanWhileExact(s, 0, |d|, Digit);
    assert s[0..|d|] == d;
  }

  /** The height pattern matches at the start of `<digits><unit> <ref>`, for either unit. */
  lemma HeightAtOpening(d: string, unit: string, ref: string, rest: string)
    requires |d| >= 1 && AllDigits(d) && unit in {"FT", "M"} && ref in {"AGL", "AMSL"}
    ensures HeightAt(d + unit + " " + ref + rest, 0) == Some((d, ref))
  {
    var s := d + unit + " " + ref + rest;
    var e, u := |d|, |d| + |unit|;
    HeightDigits(d, unit, ref, rest);
    assert SpanWhile(s, 0, Digit) == e && s[0..e] == d;
    UnitAfter(d, unit, ref, rest);
    assert UnitEnd(s, e) == u && SpanWhile(s, u, Space) == u + 1;
    RefAfter(d + unit + " ", ref, rest);
    assert RefAt(s, u + 1) == Some(ref);
  }

  /**
   * A description opening with `<digits><unit> <ref>` carries that height and
   * reference, in feet or metres alike, unless the digits exceed the limit
   * of `int()`, which then raises ValueError.
   */
  lemma HeightAtStart(d: string, unit: string, ref: string, rest: string)
    requires |d| >= 1 && AllDigits(d) && unit in {"FT", "M"} && ref in {"AGL", "AMSL"}
    ensures HeightDetails(d + unit + " " + ref + rest)
         == if |d| <= PyValue.MaxStrDigits then Ok(map["height_val" := Number(DigitsValue(d)), "height_ref" := Text(ref)])
            else Err(PyValue.ValueError)
  {
    var s := d + unit + " " + ref + rest;
    HeightAtOpening(d, unit, ref, rest);
    LeftmostHit(s, 0, HeightAt);
    assert HeightDetails(s) == HeightEntries((d, ref));
    PyValue.ParsePyIntDigits(d);
  }

  /**
   * A description opening with `RWY a`, where no letter runs on a two-digit
   * designator and no `/` and two digits follow, names a single runway.
   */
  lemma RunwaySingle(a: string, rest: string)
    requires RunwayId(a) && (|a| == 2 ==> rest == [] || !SideAt(rest, 0))
    requires !(|rest| >= 3 && rest[0] == '/' && IsDigit(rest[1]) && IsDigit(rest[2]))
    ensures RunwayDetails("RWY " + a + rest) == map["rwy_id" := Text(a)]
  {
    var s := "RWY " + a + rest;
    assert s[0..3] == "RWY" && s[3] == ' ' && s[4] == a[0] && s[5] == a[1];
    SpanWhileExact(s, 3, 4, Space);
    assert s[4..4 + |a|] == a;
    if |a| == 2 {
      assert rest == [] || s[6] == rest[0];
    } else {
      assert s[6] == a[2];
    }
    assert IdEnd(s, 4) == 4 + |a|;
    var e := 4 + |a|;
    if |rest| >= 3 {
      assert s[e] == rest[0] && s[e + 1] == rest[1] && s[e + 2] == rest[2];
    }
    assert RwyAt(s, 0) == Some((a, None));
    LeftmostHit(s, 0, RwyAt);
  }

  /** The examples written beside the patterns. */
  lemma RunwayExample(text: string)
    requires text == "RWY " + "04L" + "/" + "22R"
    ensures ParseEField(text, Runway) == Ok(map["rwy_id" := Text("04L"), "rwy_id_2" := Text("22R")])
  {
    RunwayPair("04L", "22R", "");
    assert text == "RWY " + "04L" + "/" + "22R" + "";
  }

  lemma TaxiwayExample(text: string)
    requires text == "TWY " + "B2"
    ensures ParseEField(text, Taxiway) == Ok(map["twy_id" := Text("B2")])
  {
    TaxiwayAtStart("B2", "");
    assert text == "TWY " + "B2" + "";
  }

  lemma HeightExample(text: string)
    requires text == "200" + "FT " + "AMSL"
    ensures ParseEField(text, Obstruction) == Ok(map["height_val" := Number(200), "height_ref" := Text("AMSL")])
  {
    ExampleHeights();
    assert text == "200" + "FT" + " " + "AMSL" + "";
    HeightAtStart("200", "FT", "AMSL", "");
  }

  /** The numbers the height examples spell. */
  lemma ExampleHeights()
    ensures AllDigits("200") && DigitsValue("200") == 200
    ensures AllDigits("100") && DigitsValue("100") == 100
  {
    ThreeDigitsAt("200", 0);
    ThreeDigitsAt("100", 0);
    assert "200"[0..3] == "200" && "100"[0..3] == "100";
  }

  /** A single runway end: `RWY 18` gives `rwy_id` alone. */
  lemma RunwaySingleExample(text: string)
    requires text == "RWY " + "18"
    ensures ParseEField(text, Runway) == Ok(map["rwy_id" := Text("18")])
  {
    RunwaySingle("18", "");
    assert text == "RWY " + "18" + "";
  }

  /** A height in metres: `100M AGL` gives 100 above ground level. */
  lemma HeightMetresExample(text: string)
    requires text == "100" + "M " + "AGL"
    ensures ParseEField(text, Obstruction) == Ok(map["height_val" := Number(100), "height_ref" := Text("AGL")])
  {
    ExampleHeights();
    assert text == "100" + "M" + " " + "AGL" + "";
    HeightAtStart("100", "M", "AGL", "");
  }

  /** A height of more than 4300 digits makes `int()` raise ValueError out of `parse_e_field`. */
  lemma HeightValueError(d: string, unit: string, ref: string, rest: string)
    requires |d| > PyValue.MaxStrDigits && AllDigits(d) && unit in {"FT", "M"} && ref in {"AGL", "AMSL"}
    ensures ParseEField(d + unit + " " + ref + rest, Obstruction) == Err(PyValue.ValueError)
  {
    HeightAtStart(d, unit, ref, rest);
  }
}
