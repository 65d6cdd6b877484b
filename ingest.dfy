/** The per-feature logic shared by CreateFloodMesh and CreateFeatures: which
    features are skipped, the extrusion height taken from a numeric attribute,
    and one extrusion job per coordinate ring. A feature of the GeoJSON
    collection is abstracted to the fields those loops read. */
module Ingest {
  import opened Geometry

  /** A GeoJSON position: longitude first, then latitude. */
  datatype Position = Position(lon: real, lat: real)

  /** How a JSON member reads: `Missing` when the lookup gives no token (a
      null reference), `Null` when the member is present with the JSON value
      null (a null-typed token, which is not a null reference), otherwise the
      member's value. */
  datatype Member<+T> = Missing | Null | Present(value: T)

  /** A feature's `geometry` member. Each element of `coordinates` is one
      ring (the exterior ring first, then any holes). */
  datatype FeatureGeometry = FeatureGeometry(coordinates: Member<seq<seq<Position>>>)

  /** A feature: its `geometry` and its `properties`, each property given as
      the text its value prints as (the empty text for a JSON null). */
  datatype Feature = Feature(geometry: Member<FeatureGeometry>, properties: Member<map<string, string>>)

  /** One call of ExtrudePolygonOnMap: the ring's map points and the height. */
  datatype Job = Job(points: seq<GeoPoint>, height: real)

  /** The map point built from a position: x the longitude, y the latitude,
      elevation 0, in WGS 84. */
  function ToMapPoint(p: Position): GeoPoint
  {
    GeoPoint(p.lon, p.lat, 0.0, Wgs84)
  }

  /** The map points of a ring, in ring order. */
  function RingPoints(ring: seq<Position>): (r: seq<GeoPoint>)
    ensures |r| == |ring|
    ensures forall i :: 0 <= i < |r| ==> r[i] == ToMapPoint(ring[i])
  {
    seq(|ring|, i requires 0 <= i < |ring| => ToMapPoint(ring[i]))
  }

  /** The inner point loop: one map point per position, longitude as x and
      latitude as y. */
  method BuildRingPoints(ring: seq<Position>) returns (points: seq<GeoPoint>)
    ensures |points| == |ring|
    ensures forall i :: 0 <= i < |ring| ==>
              points[i].x == ring[i].lon && points[i].y == ring[i].lat &&
              points[i].z == 0.0 && points[i].wkid == Wgs84
    ensures points == RingPoints(ring)
  {
    points := [];
    for k := 0 to |ring|
      invariant points == RingPoints(ring[..k])
    {
      var lon := ring[k].lon;
      var lat := ring[k].lat;
      points := points + [GeoPoint(lon, lat, 0.0, Wgs84)];
    }
    assert ring[..|ring|] == ring;
  }

  /** The attribute `name` of the feature as a number: 0 when the feature has
      no properties, lacks the attribute, or its text does not parse.
      `parse` stands for double.TryParse. (With `properties` null the lookup
      throws instead; see Throws.) */
  function AttributeValue(f: Feature, name: string, parse: string -> Option<real>): real
  {
    match f.properties
    case Present(props) =>
      if name !in props then 0.0
      else (match parse(props[name])
        case Some(v) => v
        case None => 0.0)
    case _ => 0.0
  }

  /** The extrusion height of a feature: its attribute times the scale. */
  function ExtrusionHeight(f: Feature, name: string, scale: real, parse: string -> Option<real>): real
  {
    AttributeValue(f, name, parse) * scale
  }

  /** The attribute lookup and double.TryParse of the feature loop: the value
      starts at 0 and is overwritten only by a successful parse. `None` when
      `properties` is a JSON null: indexing that token throws. */
  method ReadExtrusionHeight(f: Feature, name: string, scale: real, parse: string -> Option<real>)
    returns (height: Option<real>)
    ensures f.properties.Null? ==> height == None
    ensures !f.properties.Null? ==> height == Some(ExtrusionHeight(f, name, scale, parse))
  {
    var value := 0.0;
    var attr := f.properties;
    if attr.Null? {
      height := None;
    } else {
      if attr.Present? && name in attr.value {
        var parsed := parse(attr.value[name]);
        if parsed.Some? { value := parsed.value; }
      }
      assert value * scale == ExtrusionHeight(f, name, scale, parse);
      height := Some(value * scale);
    }
  }

  /** The feature is skipped: no `geometry`, or a geometry without `coordinates`. */
  predicate Skipped(f: Feature)
  {
    f.geometry.Missing? || (f.geometry.Present? && f.geometry.value.coordinates.Missing?)
  }

  /** Processing the feature throws: `geometry` is a JSON null (indexing it
      for `coordinates` throws), or the feature is not skipped and
      `properties` is a JSON null (indexing it for the attribute throws). */
  predicate Throws(f: Feature)
  {
    f.geometry.Null? ||
    (f.geometry.Present? && !f.geometry.value.coordinates.Missing? && f.properties.Null?)
  }

  /** The rings a feature contributes: none when skipped, none when
      `coordinates` is a JSON null (enumerating that token gives nothing). */
  function Rings(f: Feature): seq<seq<Position>>
  {
    if f.geometry.Present? && f.geometry.value.coordinates.Present?
    then f.geometry.value.coordinates.value
    else []
  }

  /** The number of leading features processed before one throws: all of
      them when none throws. */
  function ThrowIndex(fs: seq<Feature>): (r: nat)
    ensures r <= |fs|
    ensures forall k :: 0 <= k < r ==> !Throws(fs[k])
    ensures r < |fs| ==> Throws(fs[r])
  {
    if fs == [] then 0
    else if Throws(fs[0]) then 0
    else 1 + ThrowIndex(fs[1..])
  }

  /** One job per ring, in ring order, all at `height`. */
  function RingJobs(rings: seq<seq<Position>>, height: real): (r: seq<Job>)
    ensures |r| == |rings|
    ensures forall k :: 0 <= k < |rings| ==> r[k] == Job(RingPoints(rings[k]), height)
  {
    seq(|rings|, k requires 0 <= k < |rings| => Job(RingPoints(rings[k]), height))
  }

  /** The jobs for one feature: one per ring, all at the feature's height. */
  function FeatureJobs(f: Feature, name: string, scale: real, parse: string -> Option<real>): seq<Job>
  {
    RingJobs(Rings(f), ExtrusionHeight(f, name, scale, parse))
  }

  /** The jobs for a feature list, feature by feature. */
  function Jobs(fs: seq<Feature>, name: string, scale: real, parse: string -> Option<real>): seq<Job>
  {
    if fs == [] then []
    else Jobs(fs[..|fs| - 1], name, scale, parse) + FeatureJobs(fs[|fs| - 1], name, scale, parse)
  }

  /** The number of rings over all features that are not skipped. */
  function TotalRings(fs: seq<Feature>): nat
  {
    if fs == [] then 0 else TotalRings(fs[..|fs| - 1]) + |Rings(fs[|fs| - 1])|
  }

  /** A skipped feature yields no job; any other feature yields one job per
      ring of its coordinates, holes included, each with the points of its
      own ring and the feature's height. */
  lemma FeatureJobsPerRing(f: Feature, name: string, scale: real, parse: string -> Option<real>)
    ensures Skipped(f) ==> FeatureJobs(f, name, scale, parse) == []
    ensures f.geometry.Present? && f.geometry.value.coordinates.Null? ==>
              FeatureJobs(f, name, scale, parse) == []
    ensures f.geometry.Present? && f.geometry.value.coordinates.Present? ==>
              var rings := f.geometry.value.coordinates.value;
              |FeatureJobs(f, name, scale, parse)| == |rings| &&
              forall k :: 0 <= k < |rings| ==>
                FeatureJobs(f, name, scale, parse)[k].points == RingPoints(rings[k]) &&
                FeatureJobs(f, name, scale, parse)[k].height == AttributeValue(f, name, parse) * scale
  {
  }

  /** The attribute counts as 0 unless present and parseable, so a feature
      without it is extruded with height 0. */
  lemma MissingAttributeGivesZeroHeight(f: Feature, name: string, scale: real, parse: string -> Option<real>)
    requires f.properties.Missing? || (f.properties.Present? && name !in f.properties.value) ||
             (f.properties.Present? && name in f.properties.value && parse(f.properties.value[name]).None?)
    ensures ExtrusionHeight(f, name, scale, parse) == 0.0
  {
  }

  /** A present attribute that parses gives height value times scale. */
  lemma ParsedAttributeHeight(f: Feature, name: string, scale: real, parse: string -> Option<real>)
    requires f.properties.Present? && name in f.properties.value
    requires parse(f.properties.value[name]).Some?
    ensures ExtrusionHeight(f, name, scale, parse) == parse(f.properties.value[name]).value * scale
  {
  }

  /** Exactly one job per ring of the features that are not skipped. */
  lemma {:induction false} OneJobPerRing(fs: seq<Feature>, name: string, scale: real, parse: string -> Option<real>)
    ensures |Jobs(fs, name, scale, parse)| == TotalRings(fs)
  {
    if fs != [] {
      OneJobPerRing(fs[..|fs| - 1], name, scale, parse);
    }
  }

  /** The jobs of a list of features followed by one more feature. */
  lemma JobsSnoc(fs: seq<Feature>, f: Feature, name: string, scale: real, parse: string -> Option<real>)
    ensures Jobs(fs + [f], name, scale, parse) == Jobs(fs, name, scale, parse) + FeatureJobs(f, name, scale, parse)
  {
  }

  /** Skipped features add nothing: the jobs are those of the remaining
      features. */
  lemma {:induction false} SkippedFeaturesAddNothing(fs: seq<Feature>, name: string, scale: real, parse: string -> Option<real>)
    ensures Jobs(fs, name, scale, parse) == Jobs(Kept(fs), name, scale, parse)
  {
    if fs != [] {
      var init, f := fs[..|fs| - 1], fs[|fs| - 1];
      SkippedFeaturesAddNothing(init, name, scale, parse);
      if !Skipped(f) {
        JobsSnoc(Kept(init), f, name, scale, parse);
      }
    }
  }

  /** A feature that throws hides itself and every later feature: at most
      the features before it are processed (a corollary of ThrowIndex's
      contract). */
  lemma ThrowHidesLaterFeatures(fs: seq<Feature>, k: nat)
    requires k < |fs| && Throws(fs[k])
    ensures ThrowIndex(fs) <= k
  {
  }

  /** The features that are not skipped, in order. */
  function Kept(fs: seq<Feature>): (r: seq<Feature>)
    ensures forall f :: f in r ==> f in fs && !Skipped(f)
    ensures forall f :: f in fs && !Skipped(f) ==> f in r
  {
    if fs == [] then []
    else if Skipped(fs[|fs| - 1]) then Kept(fs[..|fs| - 1])
    else Kept(fs[..|fs| - 1]) + [fs[|fs| - 1]]
  }
}
