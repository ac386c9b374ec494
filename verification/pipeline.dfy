/**
 * From an extracted AIXM record to its GeoJSON feature: the two halves of
 * the pipeline composed.
 */
module Pipeline {
  import opened Wrappers
  import opened PyValue
  import Aixm
  import opened GeoJson

  /**
   * An extracted record converts without raising, as long as a circle is
   * not asked for at a latitude whose cosine is zero. A record without
   * coordinates has no geometry; one with coordinates is a point at them
   * when its radius is not positive, and otherwise the 32-vertex circle of
   * that radius around them.
   */
  lemma RecordFeature(r: Aixm.Notam, str: Value -> string, trig: Trig)
    requires r.location.Some? ==> |r.location.value| == 2
    requires r.location.Some? && r.radiusNm > 0 ==> trig.cos(r.location.value[1]) != 0.0
    ensures var f := FeatureOf(Aixm.Doc(r), str, trig);
      && f.Ok?
      && (r.location.None? ==> f.value.geometry.None?)
      && (r.location.Some? && r.radiusNm <= 0 ==>
            f.value.geometry == Some(Point(List([Float(r.location.value[0]), Float(r.location.value[1])]))))
      && (r.location.Some? && r.radiusNm > 0 ==>
            var p := r.location.value;
            f.value.geometry == Some(Polygon(CirclePolygon(p[0], p[1], r.radiusNm as real, NumPoints, trig).value.value)))
  {
    if r.location.Some? {
      RecordCenter(r);
    } else {
      assert !Located(Aixm.Doc(r));
    }
  }

  /** The centre and radius `to_geojson_feature` reads from a record that has coordinates. */
  lemma RecordCenter(r: Aixm.Notam)
    requires r.location.Some? && |r.location.value| == 2
    ensures var doc := Aixm.Doc(r);
      var center := List([Float(r.location.value[0]), Float(r.location.value[1])]);
      && Located(doc) && Center(doc) == Ok(center)
      && Index(center, 0) == Ok(Float(r.location.value[0])) && Index(center, 1) == Ok(Float(r.location.value[1]))
      && Num(Get(doc, "radius_nm", Int(0))) == Some(r.radiusNm as real)
  {
    var doc := Aixm.Doc(r);
    var p := r.location.value;
    var center := List([Float(p[0]), Float(p[1])]);
    var location := map["type" := Str("Point"), "coordinates" := center];
    assert doc["location"] == Dict(location) && "type" in location;
  }
}
