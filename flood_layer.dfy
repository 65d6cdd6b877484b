/** FloodMeshDraped (Assets/Scripts/floodlayer.cs): builds one extruded,
    collidable prism per coordinate ring of every flood feature, with the
    bottom ring exactly at the projected positions and the height taken from
    the feature's CorrectedFlood attribute. */
module FloodLayer {
  import opened Geometry
  import opened Prism
  import opened Ingest

  /** The attribute that gives a flood feature its height. */
  const FloodAttribute: string := "CorrectedFlood"

  /** The prism ExtrudePolygonOnMap builds for `points`: the projected ring,
      unlifted, extruded by `height`. */
  function ExtrudedMesh(project: GeoPoint -> Vec3, points: seq<GeoPoint>, height: real): Mesh
  {
    Extruded(ProjectRing(project, points), height)
  }

  /** Projects each point to the engine, keeps it as it is, and builds the
      prism: 2n vertices (the projected ring, then the same ring raised by
      `height`) and the index list for n points. */
  method ExtrudePolygonOnMap(project: GeoPoint -> Vec3, points: seq<GeoPoint>, height: real)
    returns (mesh: Mesh)
    ensures |mesh.vertices| == 2 * |points|
    ensures forall i :: 0 <= i < |points| ==>
              mesh.vertices[i] == project(points[i]) &&
              mesh.vertices[|points| + i] == Lift(project(points[i]), height)
    ensures mesh.triangles == PrismTriangles(|points|)
    ensures mesh == ExtrudedMesh(project, points, height)
  {
    var baseVertices: seq<Vec3> := [];
    for k := 0 to |points|
      invariant baseVertices == ProjectRing(project, points[..k])
    {
      var v := project(points[k]);
      baseVertices := baseVertices + [v];
    }
    assert points[..|points|] == points;
    mesh := BuildPrism(baseVertices, height);
  }

  /** The meshes built for a list of jobs, one per job, in order. */
  function Meshes(project: GeoPoint -> Vec3, jobs: seq<Job>): (r: seq<Mesh>)
    ensures |r| == |jobs|
    ensures forall k :: 0 <= k < |jobs| ==> r[k] == ExtrudedMesh(project, jobs[k].points, jobs[k].height)
  {
    seq(|jobs|, k requires 0 <= k < |jobs| => ExtrudedMesh(project, jobs[k].points, jobs[k].height))
  }

  lemma MeshesAppend(project: GeoPoint -> Vec3, a: seq<Job>, b: seq<Job>)
    ensures Meshes(project, a + b) == Meshes(project, a) + Meshes(project, b)
  {
  }

  /** The ring loop of one feature: one prism per ring, all at `height`. */
  method ExtrudeRings(project: GeoPoint -> Vec3, rings: seq<seq<Position>>, height: real)
    returns (meshes: seq<Mesh>)
    ensures meshes == Meshes(project, RingJobs(rings, height))
  {
    meshes := [];
    for r := 0 to |rings|
      invariant meshes == Meshes(project, RingJobs(rings[..r], height))
    {
      var points := BuildRingPoints(rings[r]);
      var mesh := ExtrudePolygonOnMap(project, points, height);
      meshes := meshes + [mesh];
    }
    assert rings[..|rings|] == rings;
  }

  /** The meshes of the first j + 1 features: those of the first j, then
      those of feature j. */
  lemma MeshesOfNextFeature(project: GeoPoint -> Vec3, extrusionScale: real,
                            parse: string -> Option<real>, features: seq<Feature>, j: nat)
    requires j < |features|
    ensures Meshes(project, Jobs(features[..j + 1], FloodAttribute, extrusionScale, parse)) ==
            Meshes(project, Jobs(features[..j], FloodAttribute, extrusionScale, parse)) +
            Meshes(project, FeatureJobs(features[j], FloodAttribute, extrusionScale, parse))
  {
    assert features[..j + 1] == features[..j] + [features[j]];
    JobsSnoc(features[..j], features[j], FloodAttribute, extrusionScale, parse);
    MeshesAppend(project, Jobs(features[..j], FloodAttribute, extrusionScale, parse),
                 FeatureJobs(features[j], FloodAttribute, extrusionScale, parse));
  }

  /** The body of the feature loop for one feature: nothing when it has no
      geometry or no coordinates, otherwise one prism per ring at its height.
      `thrown` when indexing a JSON-null `geometry` or `properties` throws. */
  method ExtrudeFeature(project: GeoPoint -> Vec3, extrusionScale: real,
                        parse: string -> Option<real>, feature: Feature)
    returns (built: seq<Mesh>, thrown: bool)
    ensures thrown <==> Throws(feature)
    ensures !thrown ==> built == Meshes(project, FeatureJobs(feature, FloodAttribute, extrusionScale, parse))
  {
    built, thrown := [], false;
    var geometry := feature.geometry;
    if geometry.Missing? { return; }
    // Indexing a JSON-null geometry for its coordinates throws.
    if geometry.Null? { thrown := true; return; }
    var coordinates := geometry.value.coordinates;
    if coordinates.Missing? { return; }

    var extrusionHeight := ReadExtrusionHeight(feature, FloodAttribute, extrusionScale, parse);
    if extrusionHeight.None? { thrown := true; return; }

    // Enumerating JSON-null coordinates gives no rings.
    var rings := if coordinates.Present? then coordinates.value else [];
    built := ExtrudeRings(project, rings, extrusionHeight.value);
  }

  /** Walks the features, skipping those without geometry or coordinates,
      and builds one prism per ring at height CorrectedFlood times the scale
      (CorrectedFlood 0 when absent or unparsable). A JSON-null `geometry`, or a
      JSON-null `properties` on a feature that is not skipped, throws: the
      walk stops there (`failed`), keeping the prisms of the features before. */
  method CreateFloodMesh(project: GeoPoint -> Vec3, extrusionScale: real,
                         parse: string -> Option<real>, features: seq<Feature>)
    returns (meshes: seq<Mesh>, failed: bool)
    ensures failed <==> ThrowIndex(features) < |features|
    ensures |meshes| == TotalRings(features[..ThrowIndex(features)])
    ensures meshes == Meshes(project, Jobs(features[..ThrowIndex(features)], FloodAttribute, extrusionScale, parse))
  {
    meshes, failed := [], false;
    var j := 0;
    while j < |features|
      invariant j <= ThrowIndex(features) && !failed
      invariant meshes == Meshes(project, Jobs(features[..j], FloodAttribute, extrusionScale, parse))
    {
      var built, thrown := ExtrudeFeature(project, extrusionScale, parse, features[j]);
      if thrown {
        ThrowHidesLaterFeatures(features, j);
        failed := true;
        break;
      }
      MeshesOfNextFeature(project, extrusionScale, parse, features, j);
      meshes := meshes + built;
      j := j + 1;
    }
    OneJobPerRing(features[..ThrowIndex(features)], FloodAttribute, extrusionScale, parse);
  }
}
