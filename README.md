# Flood-layer prism extrusion and swim state, in Dafny

This project models the logic of a Unity scene that drapes flood-extent
polygons, fetched as a GeoJSON feature collection, over an ArcGIS map:

- **Prism extrusion** (`ExtrudePolygonOnMap`, present in two copies). It turns
  a ring of N map points into a mesh. The vertex buffer holds 2N vertices: the
  projected ring, then the same ring raised by the extrusion height. The
  triangle index list holds fan caps from vertex 0 for the bottom and the top,
  then two wall triangles per ring edge, including the closing edge N-1 → 0.
  The copy in `ArcGISFeatureLayerComponent.cs` first lifts every projected
  position by `terrainOffset`. The copy in `floodlayer.cs` does not.
- **The per-feature loop** (`CreateFloodMesh`, `CreateFeatures`). It skips
  features without `geometry` or `coordinates`. The height is a numeric
  attribute (`CorrectedFlood` or `gridcode`) times a scale; the attribute
  counts as 0 when it is missing or does not parse. One prism is built per
  coordinate ring, holes included. A JSON-null `geometry` or `properties`
  throws and ends the loop.
- **The swim state** of `SwimController`: the fields `isSwimming` and
  `currentWater`, changed by trigger enter and exit events, and the
  swim-or-walk choice in `Update`.

Modules, one per source file plus two shared ones:

| file | module | models |
|---|---|---|
| geometry.dfy | `Geometry` | engine vectors, map points, vertical lift |
| prism.dfy | `Prism` | the vertex and index construction shared by both copies, and its properties |
| ingest.dfy | `Ingest` | features, skipping, attribute height, one job per ring |
| flood_layer.dfy | `FloodLayer` | `floodlayer.cs`: the unlifted extruder and `CreateFloodMesh` |
| feature_layer.dfy | `FeatureLayer` | `ArcGISFeatureLayerComponent.cs`: the lifted extruder and `CreateFeatures` |
| swim_controller.dfy | `Swim` | `SwimController.cs` trigger handling and `Update`'s branch |

The loops of the source are methods with `while`/`for` loops. Each method is
proved equal to a specification function (`Prism.Extruded`,
`Ingest.Jobs`, …). The properties are lemmas about those functions.

Design decisions:

- The map component's `GeographicToEngine` is a function-valued parameter
  `project`. Nothing is assumed about it.
- `double.TryParse` is a parameter `parse: string -> Option<real>`. On failure
  the out value is 0, and the model gives 0 too.
- A JSON feature is abstracted as a datatype whose members are `Missing`
  (the lookup gives no token), `Null` (a JSON null token) or `Present`. A
  property value is represented by the text it prints as.
- A JSON-null `geometry`, or a JSON-null `properties` on a feature that is
  not skipped, makes the indexing in the loop throw. The exception ends the
  loop, so the features from that one on get no prisms. The loop methods
  return the prisms built before the throw and a `failed` flag
  (`Ingest.Throws`, `Ingest.ThrowIndex`). A JSON-null `coordinates`
  enumerates as nothing and yields no prism.
- Vertex coordinates are `real`.
- The triangle-building loops are identical in both copies, so they are
  modelled once (`Prism.BuildPrism` and its three loop methods). Each copy keeps
  its own base-vertex loop, because that loop is where the two copies differ.
- Nothing guards rings of fewer than 3 points. N = 0 yields nothing. N = 1
  and N = 2 yield 2N vertices and 2N wall triangles (`Prism.TriangleCount`,
  `Prism.SinglePointRing`). Triangles have three distinct indices only for
  N ≥ 2 (`Prism.DistinctCornersFromTwoPoints`).

## Model

| member | source | states |
|---|---|---|
| `Prism.BuildPrism` | Assets/Scripts/floodlayer.cs:110-145 | the result is the prism of the base ring: 2N vertices, the base ring in order, then each base vertex raised by the height; the index list is `PrismTriangles(N)` |
| `Prism.AppendTopRing` | Assets/Scripts/floodlayer.cs:116-118 | appends, in ring order, each base vertex with y increased by the height and x, z unchanged |
| `Prism.AppendCaps` | Assets/Scripts/floodlayer.cs:120-132 | the cap loop runs max(0, N-2) times, appending the bottom and top fan triangles of each iteration |
| `Prism.AppendWalls` | Assets/Scripts/floodlayer.cs:134-145 | the side loop appends two wall triangles per ring edge, N edges including the closing one |
| `Prism.TriangleCount` | Assets/Scripts/floodlayer.cs:121-145 | the index list length is a multiple of 3, with 2·max(0, N-2) + 2N triangles: 4N-4 for N ≥ 3, 4 for N = 2, 2 for N = 1, none for N = 0 |
| `Prism.CapTriangles` | Assets/Scripts/floodlayer.cs:121-132 | caps come first; cap iteration i gives bottom (0, i+1, i) then top (N, N+i, N+i+1), the bottom shifted by N with its last two corners swapped |
| `Prism.WallTriangles` | Assets/Scripts/floodlayer.cs:135-145 | after all caps, edge i gives (i, N+i, N+next) then (i, N+next, next) with next = (i+1) mod N |
| `Prism.TriangleMatchesClosedForm` | Assets/Scripts/floodlayer.cs:121-145 | every emitted triangle equals an independent closed-form description of the triangle at that position |
| `Prism.IndicesInRange` | Assets/Scripts/floodlayer.cs:121-145 | every emitted index lies in [0, 2N) |
| `Prism.DistinctCornersFromTwoPoints` | Assets/Scripts/floodlayer.cs:121-144 | for N ≥ 2 no triangle names the same vertex twice |
| `Prism.SinglePointRing` | Assets/Scripts/floodlayer.cs:135-144 | for N = 1 the list is (0, 1, 1), (0, 1, 0): both wall triangles repeat an index |
| `Prism.ExtrudedVertices` | Assets/Scripts/floodlayer.cs:110-118 | 2N vertices; vertex i is base vertex i; vertex N+i has the x and z of base vertex i and its y plus the height |
| `Prism.ZeroHeightFlatPrism` | Assets/Scripts/floodlayer.cs:116-118 | with height 0 every top vertex equals its bottom vertex |
| `Prism.ExtrudedWellFormed` | Assets/Scripts/floodlayer.cs:110-149 | the mesh handed to the engine has 2N vertices and every index names one of them |
| `Prism.ClosedRingDegenerateTriangles` | Assets/Scripts/floodlayer.cs:121-145 | when the ring repeats its first point as its last (a GeoJSON linear ring), both closing-edge walls and, for N ≥ 3, the last bottom and top cap triangles have two corners at one position |
| `FloodLayer.ExtrudePolygonOnMap` | Assets/Scripts/floodlayer.cs:100-152 | vertex i is exactly `project(points[i])` with no vertical offset; vertex N+i is it raised by the height; the index list is `PrismTriangles(N)` |
| `FloodLayer.ExtrudeRings` | Assets/Scripts/floodlayer.cs:71-96 | one prism per ring, in ring order, each built from that ring's map points at the feature's height |
| `FloodLayer.ExtrudeFeature` | Assets/Scripts/floodlayer.cs:58-96 | one feature's loop body: it throws iff `Ingest.Throws` holds; otherwise the prisms are those of the feature's jobs (none when skipped) |
| `FloodLayer.CreateFloodMesh` | Assets/Scripts/floodlayer.cs:54-98 | the loop fails iff some feature throws; the meshes are exactly those of `Jobs` for attribute `CorrectedFlood` over the features before the first one that throws (all of them when none does), one per ring of the features not skipped |
| `Ingest.BuildRingPoints` | Assets/Scripts/floodlayer.cs:73-79 | one map point per position, in order, with x the longitude, y the latitude, z 0, spatial reference 4326 |
| `Ingest.ReadExtrusionHeight` | Assets/Scripts/floodlayer.cs:64-69 | no height (the lookup throws) when `properties` is a JSON null; otherwise the parsed attribute times the scale, the attribute 0 when properties or attribute are absent or the text does not parse |
| `Ingest.FeatureJobsPerRing` | Assets/Scripts/floodlayer.cs:58-96 | a feature without geometry or coordinates, or with JSON-null coordinates, yields nothing; otherwise one job per ring, holes included, each with its own ring's points and the feature's height |
| `Ingest.MissingAttributeGivesZeroHeight` | Assets/Scripts/floodlayer.cs:64-69 | missing properties, a missing attribute or a failed parse give height 0 |
| `Ingest.ParsedAttributeHeight` | Assets/Scripts/ArcGISFeatureLayerComponent.cs:66-71 | a present attribute that parses to v gives height v × scale |
| `Ingest.OneJobPerRing` | Assets/Scripts/floodlayer.cs:56-96 | the number of jobs equals the number of rings over all features that are not skipped |
| `Ingest.ThrowIndex` | Assets/Scripts/floodlayer.cs:56-66 | the features processed are a prefix: none before the returned position throws, and the feature at it, if any, throws |
| `Ingest.ThrowHidesLaterFeatures` | Assets/Scripts/floodlayer.cs:56-66 | a feature that throws ends the loop: no feature at or after it is processed |
| `Ingest.Kept` | Assets/Scripts/ArcGISFeatureLayerComponent.cs:57-63 | the features kept are exactly the listed features that are not skipped |
| `Ingest.SkippedFeaturesAddNothing` | Assets/Scripts/ArcGISFeatureLayerComponent.cs:57-63 | the jobs of a feature list equal those of the same list with the skipped features removed |
| `FeatureLayer.ExtrudePolygonOnMap` | Assets/Scripts/ArcGISFeatureLayerComponent.cs:97-149 | vertex i is `project(points[i])` with y increased by `terrainOffset`; vertex N+i has the projected x and z and y = projected y + `terrainOffset` + height; the index list is `PrismTriangles(N)` |
| `FeatureLayer.ExtrudeRings` | Assets/Scripts/ArcGISFeatureLayerComponent.cs:73-93 | one lifted prism per ring, in ring order, at the feature's height |
| `FeatureLayer.ExtrudeFeature` | Assets/Scripts/ArcGISFeatureLayerComponent.cs:59-93 | one feature's loop body: it throws iff `Ingest.Throws` holds; otherwise the lifted prisms are those of the feature's jobs (none when skipped) |
| `FeatureLayer.CreateFeatures` | Assets/Scripts/ArcGISFeatureLayerComponent.cs:55-95 | the loop fails iff some feature throws; the meshes are exactly those of `Jobs` for attribute `gridcode` over the features before the first one that throws (all of them when none does), one per ring of the features not skipped |
| `FeatureLayer.TerrainOffsetLiftsEveryVertex` | Assets/Scripts/ArcGISFeatureLayerComponent.cs:99-105 | against the flood-layer copy on the same input: the same index list, and every vertex lifted by `terrainOffset` |
| `FeatureLayer.ZeroOffsetMatchesFloodLayer` | Assets/Scripts/ArcGISFeatureLayerComponent.cs:103 | with offset 0 the two copies build the same mesh |
| `FeatureLayer.TrianglesDependOnRingLengthOnly` | Assets/Scripts/ArcGISFeatureLayerComponent.cs:117-142 | the index list depends on N alone, and equals the flood-layer list for the same N |
| `Swim.SwimController.constructor` | Assets/Scripts/SwimController.cs:15-16 | a new controller is not swimming and has no current water |
| `Swim.SwimController.OnTriggerEnter` | Assets/Scripts/SwimController.cs:78-85 | a Water-tagged collider sets swimming on and becomes the current water; any other collider changes nothing; a consistent state stays consistent |
| `Swim.SwimController.OnTriggerExit` | Assets/Scripts/SwimController.cs:87-94 | both fields are cleared only when the collider is Water-tagged and is the current water; otherwise nothing changes; a consistent state stays consistent |
| `Swim.SwimController.Update` | Assets/Scripts/SwimController.cs:29-39 | the swim branch is taken iff `isSwimming` and `currentWater` is set; in a consistent state, iff `isSwimming` |
| `Swim.StepPreservesConsistency` | Assets/Scripts/SwimController.cs:78-94 | one enter or exit event keeps `isSwimming ⇔ currentWater ≠ null`, and keeps the current water Water-tagged |
| `Swim.RunPreservesConsistency` | Assets/Scripts/SwimController.cs:78-94 | any sequence of events keeps that invariant |
| `Swim.ReachableStatesConsistent` | Assets/Scripts/SwimController.cs:15-39 | from the initial state, after any events, `isSwimming ⇔ currentWater ≠ null`, and Update swims iff `isSwimming` |
| `Swim.NonWaterEventsChangeNothing` | Assets/Scripts/SwimController.cs:80-89 | events whose colliders are not Water-tagged leave the state as it was |
| `Swim.SecondWaterReplacesFirst` | Assets/Scripts/SwimController.cs:82-89 | entering a second water replaces the current one, and a later exit from the first leaves swimming on in the second |
| `Swim.ExitFromSecondWaterEndsSwimming` | Assets/Scripts/SwimController.cs:82-93 | after entering two waters, leaving the second ends swimming although the first was never left |

## Left out

- HTTP fetching, coroutines and the start-up wait are not modelled: they are I/O and scheduling.
- JSON parsing is not modelled. Features are datatypes. A position with fewer than two numbers, which would make the source throw, cannot be represented. A MultiPolygon's extra nesting level cannot be represented either.
- The projection `GeographicToEngine` is a parameter, not modelled: it is in the map SDK.
- Unity `Mesh`, `MeshFilter`, `MeshRenderer`, `MeshCollider`, material and game-object creation and parenting are left out. They are engine plumbing; the model returns the vertex and index lists that are handed to the `Mesh`.
- `RecalculateNormals` is left out: it is an engine call whose result and winding convention are not visible.
- Float arithmetic is left out. The `(float)` cast of attribute × scale and single-precision vertex coordinates are modelled as exact real arithmetic. The serialized defaults (`extrusionScale` 0.33 and 1, `terrainOffset` 0.1) are parameters.
- Swim.Consistent, Swim.ReachableStatesConsistent, Swim.SwimController.Update: destroying or re-tagging a collider is not modelled (`Collider.tag` is constant, and Unity's overloaded `==` reporting a destroyed collider as null is not represented), so the invariant `isSwimming ⇔ currentWater ≠ null` is proved for enter and exit events only; in the engine a destroyed current water leaves `isSwimming` on with `currentWater == null`, and a re-tagged one is no longer cleared by exit.
- `SwimMovement` and `WalkMovement` are left out (input, physics, `Time.deltaTime`, `Mathf.Lerp`); `Update` returns which one it would call.
- `ThirdPersonController.cs`, `sunbehavior.cs`, `FloodWaterAnimation.cs`, `WaterAligner.cs` and `ChildWaterAligner.cs` are not part of this model: they are engine and floating-point behaviour with no discrete logic.
