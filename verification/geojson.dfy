/**
 * GeoJSON conversion of NOTAM documents: a point, or a 32-sided polygon
 * approximating the NOTAM's circle of influence, with the document's
 * other fields as the feature's properties.
 */
module GeoJson {
  import opened Wrappers
  import opened PyValue

  /**
   * Sine and cosine of an angle given in degrees (`math.sin(math.radians(x))`
   * and its cosine), taken as parameters: floating-point trigonometry is
   * not modelled.
   */
  datatype Trig = Trig(sin: real -> real, cos: real -> real)

  /** A GeoJSON position `[lon, lat]`. */
  datatype Position = Position(lon: real, lat: real)

  // ---------------------------------------------------------------------
  // create_circle_polygon
  // ---------------------------------------------------------------------

  /** The angle of vertex `i` of `n`, in degrees: `i / n * 360`. */
  function Angle(i: nat, n: nat): real
    requires n > 0
  {
    i as real / n as real * 360.0
  }

  /** Vertex `i`: the centre moved by `radius/60` degrees along the angle, longitude stretched by `1/cos(lat)`. */
  function Vertex(lon: real, lat: real, radius: real, n: nat, trig: Trig, i: nat): Position
    requires n > 0 && trig.cos(lat) != 0.0
  {
    var radiusDeg := radius / 60.0;
    Position(lon + radiusDeg * trig.cos(Angle(i, n)) / trig.cos(lat), lat + radiusDeg * trig.sin(Angle(i, n)))
  }

  /** The first `k` vertices, in order. */
  function Ring(lon: real, lat: real, radius: real, n: nat, trig: Trig, k: nat): (ring: seq<Position>)
    requires n > 0 && trig.cos(lat) != 0.0
    ensures |ring| == k
  {
    if k == 0 then [] else Ring(lon, lat, radius, n, trig, k - 1) + [Vertex(lon, lat, radius, n, trig, k - 1)]
  }

  /** The ring's `i`-th position is vertex `i`. */
  lemma {:induction false} RingVertex(lon: real, lat: real, radius: real, n: nat, trig: Trig, k: nat, i: nat)
    requires n > 0 && trig.cos(lat) != 0.0 && i < k
    ensures Ring(lon, lat, radius, n, trig, k)[i] == Vertex(lon, lat, radius, n, trig, i)
  {
    if i < k - 1 {
      RingVertex(lon, lat, radius, n, trig, k - 1, i);
    }
  }

  /**
   * What `create_circle_polygon` returns: `None` for a radius that is not
   * positive; IndexError when there are no vertices to close the ring
   * with; ZeroDivisionError when `cos(lat)` is zero; otherwise one ring of
   * the `n` vertices followed by the first one again.
   */
  function CirclePolygon(lon: real, lat: real, radius: real, n: nat, trig: Trig): (r: Result<Option<seq<seq<Position>>>, PyError>)
    ensures r.Ok? && r.value.None? <==> radius <= 0.0
    ensures r.Err? <==> radius > 0.0 && (n == 0 || trig.cos(lat) == 0.0)
    ensures r.Err? ==> r.error == (if n == 0 then IndexError else ZeroDivisionError)
    ensures r.Ok? && r.value.Some? ==>
      var rings := r.value.value;
      |rings| == 1 && |rings[0]| == n + 1 && rings[0][n] == rings[0][0]
    ensures r.Ok? && r.value.Some? ==>
      n > 0 && trig.cos(lat) != 0.0 &&
      forall i :: 0 <= i < n ==> r.value.value[0][i] == Vertex(lon, lat, radius, n, trig, i)
  {
    if radius <= 0.0 then Ok(None)
    else if n == 0 then Err(IndexError)
    else if trig.cos(lat) == 0.0 then Err(ZeroDivisionError)
    else
      var ring := Ring(lon, lat, radius, n, trig, n);
      assert forall i :: 0 <= i < n ==> ring[i] == Vertex(lon, lat, radius, n, trig, i) by {
        forall i | 0 <= i < n ensures ring[i] == Vertex(lon, lat, radius, n, trig, i) {
          RingVertex(lon, lat, radius, n, trig, n, i);
        }
      }
      Ok(Some([ring + [ring[0]]]))
  }

  /** `create_circle_polygon`: the loop appending one vertex per step, then the closing point. */
  method CreateCirclePolygon(centerLon: real, centerLat: real, radiusNm: real, numPoints: nat, trig: Trig)
    returns (r: Result<Option<seq<seq<Position>>>, PyError>)
    ensures r == CirclePolygon(centerLon, centerLat, radiusNm, numPoints, trig)
  {
    if radiusNm <= 0.0 {
      return Ok(None);
    }
    var coords: seq<Position> := [];
    var radiusDeg := radiusNm / 60.0;
    for i := 0 to numPoints
      invariant i == 0 ==> coords == []
      invariant i > 0 ==> trig.cos(centerLat) != 0.0 && coords == Ring(centerLon, centerLat, radiusNm, numPoints, trig, i)
    {
      var angle := i as real / numPoints as real * 360.0;
      if trig.cos(centerLat) == 0.0 {
        return Err(ZeroDivisionError);
      }
      var dx := radiusDeg * trig.cos(angle) / trig.cos(centerLat);
      var dy := radiusDeg * trig.sin(angle);
      assert Position(centerLon + dx, centerLat + dy) == Vertex(centerLon, centerLat, radiusNm, numPoints, trig, i);
      coords := coords + [Position(centerLon + dx, centerLat + dy)];
    }
    if |coords| == 0 {
      return Err(IndexError);
    }
    coords := coords + [coords[0]];
    return Ok(Some([coords]));
  }

  function Abs(x: real): real { if x < 0.0 then -x else x }

  /**
   * Given `|sin| <= 1` at the vertex angles, every position of the ring
   * lies within `radius/60` degrees of latitude of the centre.
   */
  lemma LatitudeOffset(lon: real, lat: real, radius: real, n: nat, trig: Trig)
    requires radius > 0.0 && n > 0 && trig.cos(lat) != 0.0
    requires forall i :: 0 <= i < n ==> -1.0 <= trig.sin(Angle(i, n)) <= 1.0
    ensures var ring := CirclePolygon(lon, lat, radius, n, trig).value.value[0];
      forall j :: 0 <= j < |ring| ==> Abs(ring[j].lat - lat) <= radius / 60.0
  {
    var ring := Ring(lon, lat, radius, n, trig, n);
    var closed := ring + [ring[0]];
    forall j | 0 <= j < |closed| ensures Abs(closed[j].lat - lat) <= radius / 60.0 {
      var i := if j < n then j else 0;
      assert closed[j] == ring[i];
      RingVertex(lon, lat, radius, n, trig, n, i);
      var s := trig.sin(Angle(i, n));
      assert closed[j].lat - lat == radius / 60.0 * s;
      BoundedScale(radius / 60.0, s);
    }
  }

  /** Scaling a number between -1 and 1 by a non-negative factor stays within the factor. */
  lemma BoundedScale(k: real, s: real)
    requires k >= 0.0 && -1.0 <= s <= 1.0
    ensures Abs(k * s) <= k
  {
    if s >= 0.0 {
      assert k * s <= k * 1.0;
    } else {
      assert k * -s <= k * 1.0;
    }
  }

  // ---------------------------------------------------------------------
  // to_geojson_feature
  // ---------------------------------------------------------------------

  /** A feature's geometry: the location's own coordinates as a point, or the circle's rings. */
  datatype Geometry = Point(coordinates: Value) | Polygon(rings: seq<seq<Position>>)

  /** A GeoJSON `Feature`: its geometry (`None` when the document has no location) and properties. */
  datatype Feature = Feature(geometry: Option<Geometry>, properties: map<string, Value>)

  /** The vertex count `to_geojson_feature` asks for. */
  const NumPoints: nat := 32

  /** `"location" in doc and doc["location"]`, which is also what `doc.get("location")` tests. */
  predicate Located(doc: map<string, Value>)
  {
    "location" in doc && Truthy(doc["location"])
  }

  /** The copied properties with `_id` turned into its string form. */
  function StringifyId(doc: map<string, Value>, str: Value -> string): map<string, Value>
  {
    if "_id" in doc then doc["_id" := Str(str(doc["_id"]))] else doc
  }

  /**
   * The polygon for a centre and a numeric radius above the threshold,
   * with Python's errors for a centre that is not numeric: the latitude
   * is used first, then the division by its cosine, then the longitude.
   */
  function PolygonAt(lon: Value, lat: Value, radius: real, trig: Trig): (r: Result<seq<seq<Position>>, PyError>)
    requires radius > 0.5
    ensures r.Ok? ==> |r.value| == 1 && |r.value[0]| == NumPoints + 1 && r.value[0][NumPoints] == r.value[0][0]
  {
    match Num(lat)
    case None => Err(TypeError)
    case Some(y) =>
      match Num(lon)
      case None => if trig.cos(y) == 0.0 then Err(ZeroDivisionError) else Err(TypeError)
      case Some(x) =>
        match CirclePolygon(x, y, radius, NumPoints, trig)
        case Err(e) => Err(e)
        case Ok(rings) => Ok(rings.value)
  }

  /**
   * What `to_geojson_feature` returns or raises. `str` stands for Python's
   * `str()` of the `_id` value.
   */
  function FeatureOf(doc: map<string, Value>, str: Value -> string, trig: Trig): (r: Result<Feature, PyError>)
    ensures r.Ok? ==> "location" !in r.value.properties
    ensures r.Ok? ==> (r.value.geometry.Some? <==> Located(doc))
  {
    var props := StringifyId(doc, str);
    if !Located(doc) then Ok(Feature(None, props - {"location"}))
    else
      match Subscript(doc["location"], "coordinates")
      case Err(e) => Err(e)
      case Ok(center) =>
        match Index(center, 0)
        case Err(e) => Err(e)
        case Ok(lon) =>
          match Index(center, 1)
          case Err(e) => Err(e)
          case Ok(lat) =>
            var located := props["longitude" := lon]["latitude" := lat] - {"location"};
            match Num(Get(doc, "radius_nm", Int(0)))
            case None => Err(TypeError)
            case Some(radius) =>
              if radius > 0.5 then
                match PolygonAt(lon, lat, radius, trig)
                case Err(e) => Err(e)
                case Ok(rings) => Ok(Feature(Some(Polygon(rings)), located))
              else Ok(Feature(Some(Point(center)), located))
  }

  /** `to_geojson_feature`: a copy of the document's fields updated in place, then the geometry chosen. */
  method ToGeoJsonFeature(doc: map<string, Value>, str: Value -> string, trig: Trig) returns (r: Result<Feature, PyError>)
    ensures r == FeatureOf(doc, str, trig)
  {
    var props := doc;
    if "_id" in props {
      props := props["_id" := Str(str(props["_id"]))];
    }
    var geometry: Option<Geometry> := None;
    if "location" in doc && Truthy(doc["location"]) {
      var center := Subscript(doc["location"], "coordinates");
      if center.Err? {
        return Err(center.error);
      }
      var lon := Index(center.value, 0);
      if lon.Err? {
        return Err(lon.error);
      }
      props := props["longitude" := lon.value];
      var lat := Index(center.value, 1);
      if lat.Err? {
        return Err(lat.error);
      }
      props := props["latitude" := lat.value];
      var radius := Num(Get(doc, "radius_nm", Int(0)));
      if radius.None? {
        return Err(TypeError);
      }
      if radius.value > 0.5 {
        var polygon := PolygonAt(lon.value, lat.value, radius.value, trig);
        if polygon.Err? {
          return Err(polygon.error);
        }
        geometry := Some(Polygon(polygon.value));
      } else {
        geometry := Some(Point(center.value));
      }
    }
    if "location" in props {
      props := props - {"location"};
    } else {
      assert props == props - {"location"};
    }
    return Ok(Feature(geometry, props));
  }

  /** `notam_doc["location"]["coordinates"]`, the centre of a located document. */
  function Center(doc: map<string, Value>): Result<Value, PyError>
    requires Located(doc)
  {
    Subscript(doc["location"], "coordinates")
  }

  /** The keys `to_geojson_feature` rewrites; every other key is carried over unchanged. */
  const Rewritten: set<string> := {"_id", "location", "longitude", "latitude"}

  /** A document without a (truthy) location never raises and gives a feature without geometry. */
  lemma Unlocated(doc: map<string, Value>, str: Value -> string, trig: Trig)
    requires !Located(doc)
    ensures FeatureOf(doc, str, trig).Ok?
    ensures FeatureOf(doc, str, trig).value.geometry.None?
  {
  }

  /**
   * The properties are the document's keys without `location`, plus
   * `longitude` and `latitude` when it is located; `_id` is stringified,
   * the centre's coordinates are exposed, and every other value is kept.
   */
  lemma PropertiesRule(doc: map<string, Value>, str: Value -> string, trig: Trig)
    requires FeatureOf(doc, str, trig).Ok?
    ensures var p := FeatureOf(doc, str, trig).value.properties;
      && p.Keys == (doc.Keys - {"location"}) + (if Located(doc) then {"longitude", "latitude"} else {})
      && (forall k | k in doc.Keys - Rewritten :: p[k] == doc[k])
      && ("_id" in doc ==> p["_id"] == Str(str(doc["_id"])))
      && (Located(doc) ==>
            && Center(doc).Ok?
            && Index(Center(doc).value, 0).Ok? && p["longitude"] == Index(Center(doc).value, 0).value
            && Index(Center(doc).value, 1).Ok? && p["latitude"] == Index(Center(doc).value, 1).value)
  {
  }

  /**
   * A located document gets a polygon, the circle around its numeric
   * centre with 32 vertices, when its radius exceeds 0.5, and otherwise a
   * point whose coordinates are the location's own.
   */
  lemma GeometryRule(doc: map<string, Value>, str: Value -> string, trig: Trig)
    requires FeatureOf(doc, str, trig).Ok? && Located(doc)
    ensures var g := FeatureOf(doc, str, trig).value.geometry;
      var radius := Num(Get(doc, "radius_nm", Int(0)));
      && radius.Some? && Center(doc).Ok?
      && (radius.value <= 0.5 ==> g == Some(Point(Center(doc).value)))
      && (radius.value > 0.5 ==>
            var lon := Num(Index(Center(doc).value, 0).value);
            var lat := Num(Index(Center(doc).value, 1).value);
            && lon.Some? && lat.Some?
            && g == Some(Polygon(CirclePolygon(lon.value, lat.value, radius.value, NumPoints, trig).value.value)))
  {
  }

  /** The point test: a located obstruction with radius 0 keeps its coordinates as a point. */
  lemma PointExample(doc: map<string, Value>, str: Value -> string, trig: Trig)
    requires doc == map["notam_id" := Str("TEST_1"), "category" := Str("Obstruction"),
                        "location" := Dict(map["type" := Str("Point"), "coordinates" := List([Float(-113.5), Float(53.3)])]),
                        "radius_nm" := Int(0)]
    ensures FeatureOf(doc, str, trig).Ok?
    ensures FeatureOf(doc, str, trig).value.geometry == Some(Point(List([Float(-113.5), Float(53.3)])))
    ensures FeatureOf(doc, str, trig).value.properties["category"] == Str("Obstruction")
  {
    var center := List([Float(-113.5), Float(53.3)]);
    var location := map["type" := Str("Point"), "coordinates" := center];
    assert doc["location"] == Dict(location) && "type" in location;
    assert Located(doc) && Center(doc) == Ok(center);
    assert Index(center, 0) == Ok(Float(-113.5)) && Index(center, 1) == Ok(Float(53.3));
    assert Num(Get(doc, "radius_nm", Int(0))) == Some(0.0);
  }

  /** The polygon test: radius 60 at (0, 0) gives one ring of 33 positions. */
  lemma PolygonExample(doc: map<string, Value>, str: Value -> string, trig: Trig)
    requires doc == map["notam_id" := Str("TEST_2"), "category" := Str("Airspace"),
                        "location" := Dict(map["type" := Str("Point"), "coordinates" := List([Int(0), Int(0)])]),
                        "radius_nm" := Int(60)]
    requires trig.cos(0.0) != 0.0
    ensures FeatureOf(doc, str, trig).Ok?
    ensures var g := FeatureOf(doc, str, trig).value.geometry;
      g.Some? && g.value.Polygon? && |g.value.rings| == 1 && |g.value.rings[0]| == 33
  {
    var center := List([Int(0), Int(0)]);
    var location := map["type" := Str("Point"), "coordinates" := center];
    assert doc["location"] == Dict(location) && "type" in location;
    assert Located(doc) && Center(doc) == Ok(center);
    assert Index(center, 0) == Ok(Int(0)) && Index(center, 1) == Ok(Int(0));
    assert Num(Get(doc, "radius_nm", Int(0))) == Some(60.0);
    assert PolygonAt(Int(0), Int(0), 60.0, trig) == Ok(CirclePolygon(0.0, 0.0, 60.0, NumPoints, trig).value.value);
  }

  // ---------------------------------------------------------------------
  // to_feature_collection
  // ---------------------------------------------------------------------

  /** A GeoJSON `FeatureCollection`. */
  datatype Collection = FeatureCollection(features: seq<Feature>)

  /** The items `keep` accepts, in order: the `if` of a list comprehension. */
  function Filter<A>(keep: A -> bool, xs: seq<A>): (kept: seq<A>)
    ensures |kept| <= |xs|
    ensures forall i :: 0 <= i < |kept| ==> keep(kept[i])
  {
    if xs == [] then []
    else if keep(xs[|xs| - 1]) then Filter(keep, xs[..|xs| - 1]) + [xs[|xs| - 1]]
    else Filter(keep, xs[..|xs| - 1])
  }

  /** Filtering an item in front of the others. */
  lemma {:induction false} FilterCons<A>(keep: A -> bool, x: A, xs: seq<A>)
    ensures Filter(keep, [x] + xs) == (if keep(x) then [x] else []) + Filter(keep, xs)
    decreases |xs|
  {
    if xs != [] {
      var init := xs[..|xs| - 1];
      assert ([x] + xs)[..|xs|] == [x] + init;
      FilterCons(keep, x, init);
    } else {
      assert ([x] + xs)[..0] == [];
    }
  }

  /**
   * A list comprehension `[conv(x) for x in xs if keep(x)]` whose
   * conversion may raise: the accepted items are converted left to right
   * and the first exception ends the evaluation.
   */
  function Comprehension<A, B, E>(keep: A -> bool, conv: A -> Result<B, E>, xs: seq<A>): Result<seq<B>, E>
  {
    if xs == [] then Ok([])
    else if !keep(xs[0]) then Comprehension(keep, conv, xs[1..])
    else
      match conv(xs[0])
      case Err(e) => Err(e)
      case Ok(y) =>
        match Comprehension(keep, conv, xs[1..])
        case Err(e) => Err(e)
        case Ok(ys) => Ok([y] + ys)
  }

  /** Whether every item of `kept` converts without raising. */
  predicate AllConvert<A, B, E>(conv: A -> Result<B, E>, kept: seq<A>)
  {
    forall i :: 0 <= i < |kept| ==> conv(kept[i]).Ok?
  }

  /** Every item of `[x] + ks` converts exactly when `x` and every item of `ks` do. */
  lemma AllConvertCons<A, B, E>(conv: A -> Result<B, E>, x: A, ks: seq<A>)
    ensures AllConvert(conv, [x] + ks) <==> conv(x).Ok? && AllConvert(conv, ks)
  {
    var xs := [x] + ks;
    assert xs[0] == x;
    assert forall i :: 0 <= i < |ks| ==> ks[i] == xs[i + 1];
  }

  /**
   * The comprehension succeeds exactly when every accepted item converts,
   * and then holds one result per accepted item, in order.
   */
  lemma {:induction false} ComprehensionOk<A, B, E>(keep: A -> bool, conv: A -> Result<B, E>, xs: seq<A>)
    ensures var kept := Filter(keep, xs);
      var r := Comprehension(keep, conv, xs);
      && (r.Ok? <==> AllConvert(conv, kept))
      && (r.Ok? ==> |r.value| == |kept| && forall i :: 0 <= i < |kept| ==> Ok(r.value[i]) == conv(kept[i]))
    decreases |xs|
  {
    if xs != [] {
      var x, rest := xs[0], xs[1..];
      ComprehensionOk(keep, conv, rest);
      FilterCons(keep, x, rest);
      assert xs == [x] + rest;
      var kept, keptRest := Filter(keep, xs), Filter(keep, rest);
      if keep(x) {
        assert kept == [x] + keptRest;
        assert forall i :: 0 < i < |kept| ==> kept[i] == keptRest[i - 1];
        AllConvertCons(conv, x, keptRest);
      } else {
        assert kept == keptRest;
      }
    }
  }

  /** A failing comprehension raises the error of the first accepted item that fails to convert. */
  lemma {:induction false} ComprehensionErr<A, B, E>(keep: A -> bool, conv: A -> Result<B, E>, xs: seq<A>)
    requires Comprehension(keep, conv, xs).Err?
    ensures var kept := Filter(keep, xs);
      exists i :: 0 <= i < |kept| && conv(kept[i]) == Err(Comprehension(keep, conv, xs).error) && AllConvert(conv, kept[..i])
    decreases |xs|
  {
    var x, rest := xs[0], xs[1..];
    FilterCons(keep, x, rest);
    assert xs == [x] + rest;
    var e := Comprehension(keep, conv, xs).error;
    var kept, keptRest := Filter(keep, xs), Filter(keep, rest);
    if !keep(x) {
      ComprehensionErr(keep, conv, rest);
      assert kept == keptRest;
    } else if conv(x).Err? {
      assert kept[0] == x && kept[..0] == [];
    } else {
      ComprehensionErr(keep, conv, rest);
      var i :| 0 <= i < |keptRest| && conv(keptRest[i]) == Err(e) && AllConvert(conv, keptRest[..i]);
      assert kept[i + 1] == keptRest[i];
      assert kept[..i + 1] == [x] + keptRest[..i];
    }
  }

  /** `to_geojson_feature` as a function value, for the comprehension. */
  function Convert(str: Value -> string, trig: Trig): map<string, Value> -> Result<Feature, PyError>
  {
    doc => FeatureOf(doc, str, trig)
  }

  /** The documents with a truthy `location`, in input order. */
  function LocatedDocs(docs: seq<map<string, Value>>): seq<map<string, Value>>
  {
    Filter(Located, docs)
  }

  /**
   * `to_feature_collection`: the features of the located documents, in
   * order; the first conversion that raises aborts the whole collection.
   * Every feature it holds has a geometry.
   */
  function ToFeatureCollection(docs: seq<map<string, Value>>, str: Value -> string, trig: Trig): (r: Result<Collection, PyError>)
    ensures r.Ok? ==> forall i :: 0 <= i < |r.value.features| ==> r.value.features[i].geometry.Some?
  {
    ComprehensionOk(Located, Convert(str, trig), docs);
    match Comprehension(Located, Convert(str, trig), docs)
    case Err(e) => Err(e)
    case Ok(fs) =>
      assert forall i :: 0 <= i < |fs| ==> Ok(fs[i]) == FeatureOf(LocatedDocs(docs)[i], str, trig);
      Ok(FeatureCollection(fs))
  }

  /**
   * The collection holds one feature per located document, in order, and
   * each is that document's conversion; it succeeds exactly when every
   * located document converts, and otherwise raises the error of the first
   * located document that fails.
   */
  lemma CollectionOfLocated(docs: seq<map<string, Value>>, str: Value -> string, trig: Trig)
    ensures var kept := LocatedDocs(docs);
      var r := ToFeatureCollection(docs, str, trig);
      && (r.Ok? <==> forall i :: 0 <= i < |kept| ==> FeatureOf(kept[i], str, trig).Ok?)
      && (r.Ok? ==> |r.value.features| == |kept| && forall i :: 0 <= i < |kept| ==> Ok(r.value.features[i]) == FeatureOf(kept[i], str, trig))
      && (r.Err? ==> exists i :: 0 <= i < |kept| && FeatureOf(kept[i], str, trig) == Err(r.error)
                                && forall j :: 0 <= j < i ==> FeatureOf(kept[j], str, trig).Ok?)
  {
    var conv := Convert(str, trig);
    ComprehensionOk(Located, conv, docs);
    if Comprehension(Located, conv, docs).Err? {
      ComprehensionErr(Located, conv, docs);
    }
  }
}
