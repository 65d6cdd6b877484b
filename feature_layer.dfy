/** ArcGISFeatureLayerComponent (Assets/Scripts/ArcGISFeatureLayerComponent.cs):
    the same prism construction as the flood layer, except that every
    projected position is first lifted by `terrainOffset`, and the height
    comes from the feature's gridcode attribute. */
module FeatureLayer {
  import opened Geometry
  import opened Prism
  import opened Ingest
  import FloodLayer

  /** The attribute that gives a feature its height. */
  const GridcodeAttribute: string := "gridcode"

  /** The bottom ring: each projected position lifted by `terrainOffset`. */
  function BaseRing(project: GeoPoint -> Vec3, terrainOffset: real, points: seq<GeoPoint>): seq<Vec3>
  {
    LiftRing(ProjectRing(project, points), terrainOffset)
  }

  /** The prism ExtrudePolygonOnMap builds for `points`. */
  function ExtrudedMesh(project: GeoPoint -> Vec3, terrainOffset: real, points: seq<GeoPoint>, height: real): Mesh
  {
    Extruded(BaseRing(project, terrainOffset, points), height)
  }

  /** Projects each point, lifts it by `terrainOffset`, and builds the prism:
      the lifted ring, then the lifted ring raised by `height`, and the index
      list for n points. */
  method ExtrudePolygonOnMap(project: GeoPoint -> Vec3, terrainOffset: real,
                             points: seq<GeoPoint>, height: real)
    returns (mesh: Mesh)
    ensures |mesh.vertices| == 2 * |points|
    ensures forall i :: 0 <= i < |points| ==>
              mesh.vertices[i] == Lift(project(points[i]), terrainOffset)
    ensures forall i :: 0 <= i < |points| ==>
              mesh.vertices[|points| + i].x == project(points[i]).x &&
              mesh.vertices[|points| + i].z == project(points[i]).z &&
              mesh.vertices[|points| + i].y == project(points[i]).y + terrainOffset + height
    ensures mesh.triangles == PrismTriangles(|points|)
    ensures mesh == ExtrudedMesh(project, terrainOffset, points, height)
  {
    var baseVertices: seq<Vec3> := [];
    for k := 0 to |points|
      invariant baseVertices == BaseRing(project, terrainOffset, points[..k])
    {
      var v := project(points[k]);
      v := v.(y := v.y + terrainOffset);
      baseVertices := baseVertices + [v];
    }
    assert points[..|points|] == points;
    mesh := BuildPrism(baseVertices, height);
  }

  /** The meshes built for a list of jobs, one per job, in order. */
  function Meshes(project: GeoPoint -> Vec3, terrainOffset: real, jobs: seq<Job>): (r: seq<Mesh>)
    ensures |r| == |jobs|
    ensures forall k :: 0 <= k < |jobs| ==>
              r[k] == ExtrudedMesh(project, terrainOffset, jobs[k].points, jobs[k].height)
  {
    seq(|jobs|, k requires 0 <= k < |jobs| => ExtrudedMesh(project, terrainOffset, jobs[k].points, jobs[k].height))
  }

  lemma MeshesAppend(project: GeoPoint -> Vec3, terrainOffset: real, a: seq<Job>, b: seq<Job>)
    ensures Meshes(project, terrainOffset, a + b) == Meshes(project, terrainOffset, a) + Meshes(project, terrainOffset, b)
  {
  }

  /** The ring loop of one feature: one prism per ring, all at `height`. */
  method ExtrudeRings(project: GeoPoint -> Vec3, terrainOffset: real,
                      rings: seq<seq<Position>>, height: real)
    returns (meshes: seq<Mesh>)
    ensures meshes == Meshes(project, terrainOffset, RingJobs(rings, height))
  {
    meshes := [];
    for r := 0 to |rings|
      invariant meshes == Meshes(project, terrainOffset, RingJobs(rings[..r], height))
    {
      var arcGISPoints := BuildRingPoints(rings[r]);
      var mesh := ExtrudePolygonOnMap(project, terrainOffset, arcGISPoints, height);
      meshes := meshes + [mesh];
    }
    assert rings[..|rings|] == rings;
  }

  /** The meshes of the first j + 1 features: those of the first j, then
      those of feature j. */
  lemma MeshesOfNextFeature(project: GeoPoint -> Vec3, terrainOffset: real, extrusionScale: real,
                            parse: string -> Option<real>, features: seq<Feature>, j: nat)
    requires j < |features|
    ensures Meshes(project, terrainOffset, Jobs(features[..j + 1], GridcodeAttribute, extrusionScale, parse)) ==
            Meshes(project, terrainOffset, Jobs(features[..j], GridcodeAttribute, extrusionScale, parse)) +
            Meshes(project, terrainOffset, FeatureJobs(features[j], GridcodeAttribute, extrusionScale, parse))
  {
    assert features[..j + 1] == features[..j] + [features[j]];
    JobsSnoc(features[..j], features[j], GridcodeAttribute, extrusionScale, parse);
    MeshesAppend(project, terrainOffset, Jobs(features[..j], GridcodeAttribute, extrusionScale, parse),
                 FeatureJobs(features[j], GridcodeAttribute, extrusionScale, parse));
  }

  /** The body of the feature loop for one feature: nothing when it has no
      geometry or no coordinates, otherwise one prism per ring at its height.
      `thrown` when indexing a JSON-null `geometry` or `properties` throws. */
  method ExtrudeFeature(project: GeoPoint -> Vec3, terrainOffset: real, extrusionScale: real,
                        parse: string -> Option<real>, feature: Feature)
    returns (built: seq<Mesh>, thrown: bool)
    ensures thrown <==> Throws(feature)
    ensures !thrown ==> built == Meshes(project, terrainOffset, FeatureJobs(feature, GridcodeAttribute, extrusionScale, parse))
  {
    built, thrown := [], false;
    var geometry := feature.geometry;
    if geometry.Missing? { return; }
    // Indexing a JSON-null geometry for its coordinates throws.
    if geometry.Null? { thrown := true; return; }
    var coordinates := geometry.value.coordinates;
    if coordinates.Missing? { return; }

    var extrusionHeight := ReadExtrusionHeight(feature, GridcodeAttribute, extrusionScale, parse);
    if extrusionHeight.None? { thrown := true; return; }

    // Enumerating JSON-null coordinates gives no rings.
    var rings := if coordinates.Present? then coordinates.value else [];
    built := ExtrudeRings(project, terrainOffset, rings, extrusionHeight.value);
  }

  /** Walks the features, skipping those without geometry or coordinates,
      and builds one prism per ring at height gridcode times the scale
      (gridcode 0 when absent or unparsable). A JSON-null `geometry`, or a
      JSON-null `properties` on a feature that is not skipped, throws: the
      walk stops there (`failed`), keeping the prisms of the features before. */
  method CreateFeatures(project: GeoPoint -> Vec3, terrainOffset: real, extrusionScale: real,
                         parse: string -> Option<real>, features: seq<Feature>)
    returns (meshes: seq<Mesh>, failed: bool)
    ensures failed <==> ThrowIndex(features) < |features|
    ensures |meshes| == TotalRings(features[..ThrowIndex(features)])
    ensures meshes == Meshes(project, terrainOffset, Jobs(features[..ThrowIndex(features)], GridcodeAttribute, extrusionScale, parse))
  {
    meshes, failed := [], false;
    var j := 0;
    while j < |features|
      invariant j <= ThrowIndex(features) && !failed
      invariant meshes == Meshes(project, terrainOffset, Jobs(features[..j], GridcodeAttribute, extrusionScale, parse))
    {
      var built, thrown := ExtrudeFeature(project, terrainOffset, extrusionScale, parse, features[j]);
      if thrown {
        ThrowHidesLaterFeatures(features, j);
        failed := true;
        break;
      }
      MeshesOfNextFeature(project, terrainOffset, extrusionScale, parse, features, j);
      meshes := meshes + built;
      j := j + 1;
    }
    OneJobPerRing(features[..ThrowIndex(features)], GridcodeAttribute, extrusionScale, parse);
  }

  /** Against the flood layer on the same ring and height: the same index
      list, and every vertex lifted by `terrainOffset`. */
  lemma TerrainOffsetLiftsEveryVertex(project: GeoPoint -> Vec3, terrainOffset: real,
                                      points: seq<GeoPoint>, height: real)
    ensures var lifted := ExtrudedMesh(project, terrainOffset, points, height);
            var flat := FloodLayer.ExtrudedMesh(project, points, height);
            lifted.triangles == flat.triangles &&
            |lifted.vertices| == |flat.vertices| == 2 * |points| &&
            forall k :: 0 <= k < 2 * |points| ==> lifted.vertices[k] == Lift(flat.vertices[k], terrainOffset)
  {
  }

  /** With offset 0 the two layers build the same prism. */
  lemma ZeroOffsetMatchesFloodLayer(project: GeoPoint -> Vec3, points: seq<GeoPoint>, height: real)
    ensures ExtrudedMesh(project, 0.0, points, height) == FloodLayer.ExtrudedMesh(project, points, height)
  {
  }

  /** The index list depends on the number of points alone: not on their
      coordinates, the projection, the offset or the height. */
  lemma TrianglesDependOnRingLengthOnly(project1: GeoPoint -> Vec3, project2: GeoPoint -> Vec3,
                                        offset1: real, offset2: real,
                                        points1: seq<GeoPoint>, points2: seq<GeoPoint>,
                                        height1: real, height2: real)
    requires |points1| == |points2|
    ensures ExtrudedMesh(project1, offset1, points1, height1).triangles ==
            ExtrudedMesh(project2, offset2, points2, height2).triangles ==
            FloodLayer.ExtrudedMesh(project2, points2, height2).triangles
  {
  }
}
