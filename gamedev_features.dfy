/**
 * The game-development helpers of the back end (`gamedev_features`): batch
 * variations of one asset, a level-of-detail chain, a collision mesh, a
 * themed asset pack and per-platform optimisation.
 *
 * A mesh is its vertex and face lists. The geometry library's operations are
 * not modelled: quadric decimation and the collision shapes are oracles
 * passed in as functions, and a variation records which change was applied
 * to its copy of the base mesh rather than the moved vertices.
 */
module GamedevFeatures {
  import opened Text

  datatype Point = Point(x: real, y: real, z: real)
  datatype Mesh = Mesh(vertices: seq<Point>, faces: seq<(nat, nat, nat)>)

  function FaceCount(m: Mesh): nat {
    |m.faces|
  }

  /** `simplify_quadric_decimation(target)`, as a function from a mesh and a target face count. */
  type Decimator = (Mesh, int) -> Mesh

  /** A decimator that never leaves more faces than a non-negative target asks for. */
  ghost predicate RespectsTarget(decimate: Decimator) {
    forall m: Mesh, target: int | target >= 0 :: FaceCount(decimate(m, target)) <= target
  }

  lemma MulStrict(a: int, b: int, k: int)
    requires a < b && k > 0
    ensures a * k < b * k
  {
    assert b * k - a * k == (b - a) * k;
  }

  /** Floor division by a positive `d` is below `f` exactly when the dividend is below `f * d`. */
  lemma DivBelow(x: nat, d: nat, f: nat)
    requires d > 0
    ensures x / d < f <==> x < f * d
  {
    var q := x / d;
    assert x == q * d + x % d;
    if q < f {
      MulStrict(q, f, d);
      assert (q + 1) * d <= f * d by {
        if q + 1 < f { MulStrict(q + 1, f, d); }
      }
    } else {
      if f < q { MulStrict(f, q, d); }
    }
  }

  // ---------------------------------------------------------------------------
  // generate_batch_variations
  // ---------------------------------------------------------------------------

  /** What is done to the copy of the base mesh for one variation. */
  datatype Change =
    | Scaled(factor: real)
    | Decimated(targetFaces: nat)
    | Subdivided
    | Rotated(turns: real)
    | Jittered

  /** The mesh of a variation: the base mesh with one change applied to a copy. */
  datatype Variant = Variant(base: Mesh, change: Change)

  datatype Variation = Variation(mesh: Variant, variationId: nat, kind: string)

  /** `int(len(faces) * (0.5 + i / count))` on exact arithmetic. */
  function DetailTarget(faces: nat, i: nat, count: nat): nat
    requires count > 0
  {
    var scaled: nat := faces * (count + 2 * i);
    scaled / (2 * count)
  }

  /** The change made for variation `i` of `count`, by variation type. */
  function VariationChange(kind: string, base: Mesh, i: nat, count: nat): Change
    requires i < count
  {
    if kind == "size" then
      Scaled(0.8 + (i as real / count as real) * 0.4)
    else if kind == "detail" then
      var target := DetailTarget(FaceCount(base), i, count);
      if target < FaceCount(base) then Decimated(target) else Subdivided
    else if kind == "rotation" then
      Rotated(i as real / count as real)
    else
      Jittered
  }

  /**
   * `generate_batch_variations(base_mesh, prompt, count=10, variation_type="style")`:
   * one entry per `i` in `range(count)`, each a changed copy of the base
   * carrying its index and the requested type.
   */
  method GenerateBatchVariations(baseMesh: Mesh, prompt: string, count: int := 10, variationType: string := "style")
    returns (variations: seq<Variation>)
    ensures |variations| == if count > 0 then count else 0
    ensures forall i | 0 <= i < |variations| ::
      && variations[i].variationId == i
      && variations[i].kind == variationType
      && variations[i].mesh == Variant(baseMesh, VariationChange(variationType, baseMesh, i, count))
  {
    variations := [];
    var n := if count > 0 then count else 0;
    for i := 0 to n
      invariant |variations| == i
      invariant forall k | 0 <= k < i ::
        variations[k] == Variation(Variant(baseMesh, VariationChange(variationType, baseMesh, k, count)), k, variationType)
    {
      var change: Change;
      if variationType == "size" {
        change := Scaled(0.8 + (i as real / count as real) * 0.4);
      } else if variationType == "detail" {
        var targetFaces := DetailTarget(FaceCount(baseMesh), i, count);
        if targetFaces < FaceCount(baseMesh) {
          change := Decimated(targetFaces);
        } else {
          change := Subdivided;
        }
      } else if variationType == "rotation" {
        change := Rotated(i as real / count as real);
      } else {
        change := Jittered;
      }
      variations := variations + [Variation(Variant(baseMesh, change), i, variationType)];
    }
  }

  lemma FractionOrder(i: nat, j: nat, n: nat)
    requires i < j <= n
    ensures i as real / n as real < j as real / n as real <= 1.0
  {
    var c := n as real;
    var a := i as real / c;
    var b := j as real / c;
    assert a * c == i as real && b * c == j as real;
    assert (b - a) * c == (j - i) as real;
    assert 1.0 * c == c;
    assert (1.0 - b) * c == (n - j) as real;
  }

  /** Size variations scale from 80% upwards in equal steps and stay below 120%. */
  lemma SizeScales(base: Mesh, i: nat, j: nat, count: nat)
    requires i < j < count
    ensures var a := VariationChange("size", base, i, count);
      var b := VariationChange("size", base, j, count);
      && a.Scaled? && b.Scaled?
      && 0.8 <= a.factor < b.factor < 1.2
  {
    FractionOrder(i, j, count);
    FractionOrder(j, count, count);
  }

  /**
   * A detail variation decimates exactly in the first half of the batch
   * (when the base has faces), to at least half the base's faces; the other
   * half is subdivided.
   */
  lemma DetailDecimatesFirstHalf(base: Mesh, i: nat, count: nat)
    requires i < count
    ensures var ch := VariationChange("detail", base, i, count);
      && (ch.Decimated? <==> FaceCount(base) > 0 && 2 * i < count)
      && (ch.Decimated? ==> FaceCount(base) / 2 <= ch.targetFaces < FaceCount(base))
      && (!ch.Decimated? ==> ch == Subdivided)
  {
    var f := FaceCount(base);
    DetailTargetBelow(f, i, count);
    HalfOf(f, count);
    DivMonotone(f * count, f * (count + 2 * i), 2 * count);
  }

  lemma DetailTargetBelow(f: nat, i: nat, count: nat)
    requires count > 0
    ensures DetailTarget(f, i, count) < f <==> f > 0 && 2 * i < count
    ensures f * count <= f * (count + 2 * i)
  {
    var x := f * (count + 2 * i);
    DivBelow(x, 2 * count, f);
    MulLessIff(f, count + 2 * i, 2 * count);
    assert f * (2 * count) == 2 * count * f;
    assert x - f * count == f * (2 * i);
  }

  /** For naturals, `f * a < f * b` exactly when `f` is positive and `a < b`. */
  lemma MulLessIff(f: nat, a: nat, b: nat)
    ensures f * a < f * b <==> f > 0 && a < b
  {
    if f > 0 && a < b {
      MulStrict(a, b, f);
    } else if f > 0 && b < a {
      MulStrict(b, a, f);
    }
  }

  lemma HalfOf(f: nat, c: nat)
    requires c > 0
    ensures f * c / (2 * c) == f / 2
  {
    var q := f / 2;
    var r := f % 2;
    assert f * c == q * (2 * c) + r * c;
    assert r * c < 2 * c;
    DivUnique(f * c, 2 * c, q, r * c);
  }

  lemma DivUnique(x: nat, d: nat, q: nat, r: nat)
    requires d > 0 && r < d && x == q * d + r
    ensures x / d == q
  {
    DivBelow(x, d, q + 1);
    assert (q + 1) * d == q * d + d;
    if x / d < q {
      DivBelow(x, d, q);
      assert false;
    }
  }

  lemma DivMonotone(a: nat, b: nat, d: nat)
    requires a <= b && d > 0
    ensures a / d <= b / d
  {
    DivBelow(b, d, b / d + 1);
    DivBelow(a, d, b / d + 1);
  }

  /** Rotations step through one full turn: fractions in `[0, 1)` that grow with the index. */
  lemma RotationsStepThroughATurn(base: Mesh, i: nat, j: nat, count: nat)
    requires i < j < count
    ensures var a := VariationChange("rotation", base, i, count);
      var b := VariationChange("rotation", base, j, count);
      && a.Rotated? && b.Rotated?
      && 0.0 <= a.turns < b.turns < 1.0
  {
    FractionOrder(i, j, count);
    FractionOrder(j, count, count);
  }

  // ---------------------------------------------------------------------------
  // generate_lod_chain
  // ---------------------------------------------------------------------------

  datatype Lod = Lod(mesh: Mesh, faces: nat, vertices: nat, reduction: real)

  /** The reduction percentage divides by the base's face count, which raises on an empty mesh. */
  datatype LodOutcome = ZeroDivision | Chain(lods: map<string, Lod>)

  /** `f"LOD{i}"`. */
  function LodName(i: nat): string {
    "LOD" + NatToString(i)
  }

  lemma LodNameInjective(i: nat, j: nat)
    requires LodName(i) == LodName(j)
    ensures i == j
  {
    assert NatToString(i) == LodName(i)[3..];
    NatToStringValue(i);
    NatToStringValue(j);
  }

  /** The copy kept for a level: unchanged when the target covers the mesh, decimated otherwise. */
  function LodMesh(mesh: Mesh, target: int, decimate: Decimator): Mesh {
    if target >= FaceCount(mesh) then mesh else decimate(mesh, target)
  }

  function LodEntry(mesh: Mesh, target: int, decimate: Decimator): Lod
    requires FaceCount(mesh) > 0
  {
    var m := LodMesh(mesh, target, decimate);
    Lod(m, FaceCount(m), |m.vertices|, (1.0 - FaceCount(m) as real / FaceCount(mesh) as real) * 100.0)
  }

  /**
   * `generate_lod_chain(mesh, levels=[8000, 4000, 1000, 100])`: one entry
   * `LOD<i>` per level, or a division by zero at the first level when the
   * mesh has no faces.
   */
  method GenerateLodChain(mesh: Mesh, decimate: Decimator, levels: seq<int> := [8000, 4000, 1000, 100])
    returns (r: LodOutcome)
    ensures r.ZeroDivision? <==> levels != [] && FaceCount(mesh) == 0
    ensures r.Chain? ==> r.lods.Keys == set i | 0 <= i < |levels| :: LodName(i)
    ensures r.Chain? ==> forall i | 0 <= i < |levels| ::
      FaceCount(mesh) > 0 && r.lods[LodName(i)] == LodEntry(mesh, levels[i], decimate)
  {
    var lods: map<string, Lod> := map[];
    for i := 0 to |levels|
      invariant i > 0 ==> FaceCount(mesh) > 0
      invariant lods.Keys == set k | 0 <= k < i :: LodName(k)
      invariant forall k | 0 <= k < i :: FaceCount(mesh) > 0 && lods[LodName(k)] == LodEntry(mesh, levels[k], decimate)
    {
      var lodMesh: Mesh;
      if levels[i] >= FaceCount(mesh) {
        lodMesh := mesh;
      } else {
        lodMesh := decimate(mesh, levels[i]);
      }
      if FaceCount(mesh) == 0 {
        return ZeroDivision;
      }
      var reduction := (1.0 - FaceCount(lodMesh) as real / FaceCount(mesh) as real) * 100.0;
      forall k | 0 <= k < i
        ensures LodName(k) != LodName(i)
      {
        if LodName(k) == LodName(i) {
          LodNameInjective(k, i);
        }
      }
      lods := lods[LodName(i) := Lod(lodMesh, FaceCount(lodMesh), |lodMesh.vertices|, reduction)];
    }
    return Chain(lods);
  }

  /**
   * A level whose target covers the mesh is an unchanged copy with no
   * reduction; with a decimator that honours its target, any other level
   * has at most the target's faces, and every reduction lies in `[0, 100]`.
   */
  lemma LodLevel(mesh: Mesh, target: int, decimate: Decimator)
    requires FaceCount(mesh) > 0
    ensures target >= FaceCount(mesh) ==>
      LodEntry(mesh, target, decimate).mesh == mesh && LodEntry(mesh, target, decimate).reduction == 0.0
    ensures RespectsTarget(decimate) && target >= 0 ==>
      var e := LodEntry(mesh, target, decimate);
      && (target < FaceCount(mesh) ==> e.faces <= target)
      && 0.0 <= e.reduction <= 100.0
  {
    var f := FaceCount(mesh) as real;
    if RespectsTarget(decimate) && target >= 0 {
      var e := LodEntry(mesh, target, decimate);
      if target < FaceCount(mesh) {
        assert FaceCount(decimate(mesh, target)) <= target;
      }
      assert 0.0 <= e.faces as real / f <= 1.0;
    }
  }

  // ---------------------------------------------------------------------------
  // generate_collision_mesh
  // ---------------------------------------------------------------------------

  /** The geometry library's convex hull, bounding box and bounding sphere of a mesh. */
  datatype Shapes = Shapes(hull: Mesh -> Mesh, box: Mesh -> Mesh, sphere: Mesh -> Mesh)

  /**
   * `generate_collision_mesh(mesh, method="convex_hull", max_triangles=100)`:
   * the shape named by `method` (here `shape`) (an unknown name decimates a copy), decimated
   * again while it has more than `max_triangles` faces.
   */
  function GenerateCollisionMesh(mesh: Mesh, shapes: Shapes, decimate: Decimator, shape: string := "convex_hull", maxTriangles: int := 100): Mesh {
    var collision :=
      if shape == "convex_hull" then shapes.hull(mesh)
      else if shape == "box" then shapes.box(mesh)
      else if shape == "sphere" then shapes.sphere(mesh)
      else decimate(mesh, maxTriangles);
    if FaceCount(collision) > maxTriangles then decimate(collision, maxTriangles) else collision
  }

  /** A shape already within budget is kept; with a decimator that honours its target, the result always is. */
  lemma CollisionWithinBudget(mesh: Mesh, shapes: Shapes, decimate: Decimator, shape: string, maxTriangles: int)
    ensures shape == "box" && FaceCount(shapes.box(mesh)) <= maxTriangles ==>
      GenerateCollisionMesh(mesh, shapes, decimate, shape, maxTriangles) == shapes.box(mesh)
    ensures shape == "convex_hull" && FaceCount(shapes.hull(mesh)) <= maxTriangles ==>
      GenerateCollisionMesh(mesh, shapes, decimate, shape, maxTriangles) == shapes.hull(mesh)
    ensures RespectsTarget(decimate) && maxTriangles >= 0 ==>
      FaceCount(GenerateCollisionMesh(mesh, shapes, decimate, shape, maxTriangles)) <= maxTriangles
  {
    if RespectsTarget(decimate) && maxTriangles >= 0 {
      var collision :=
        if shape == "convex_hull" then shapes.hull(mesh)
        else if shape == "box" then shapes.box(mesh)
        else if shape == "sphere" then shapes.sphere(mesh)
        else decimate(mesh, maxTriangles);
      assert FaceCount(decimate(collision, maxTriangles)) <= maxTriangles;
    }
  }

  // ---------------------------------------------------------------------------
  // generate_asset_pack
  // ---------------------------------------------------------------------------

  /** The placeholder geometry: `box`, `cylinder` and `icosphere` with the source's dimensions. */
  datatype Primitive =
    | Box(extentX: real, extentY: real, extentZ: real)
    | Cylinder(radius: real, height: real)
    | Icosphere(subdivisions: nat)

  function Placeholder(assetType: string): Primitive {
    if assetType == "building" then Box(2.0, 2.0, 3.0)
    else if assetType == "prop" then Cylinder(0.5, 1.0)
    else if assetType == "character" then Icosphere(2)
    else Box(1.0, 1.0, 1.0)
  }

  datatype Asset = Asset(mesh: Primitive, name: string, id: nat)
  datatype AssetPack = AssetPack(theme: string, assets: map<string, seq<Asset>>)

  /** `f"{theme}_{asset_type}_{i:02d}"`. */
  function AssetName(theme: string, assetType: string, i: nat): string {
    theme + "_" + assetType + "_" + Pad2(i)
  }

  /** The list built for one type: `count` placeholders, named and numbered from 0. */
  function TypeAssets(theme: string, assetType: string, count: int): seq<Asset> {
    var n := if count > 0 then count else 0;
    seq(n, i requires 0 <= i < n => Asset(Placeholder(assetType), AssetName(theme, assetType, i), i))
  }

  /**
   * `generate_asset_pack(theme, asset_types, count_per_type=5)`: every type
   * listed gets a fresh list, so a repeated type replaces its earlier list.
   */
  method GenerateAssetPack(theme: string, assetTypes: seq<string>, countPerType: int := 5) returns (pack: AssetPack)
    ensures pack.theme == theme
    ensures pack.assets.Keys == set t | t in assetTypes
    ensures forall t | t in assetTypes :: pack.assets[t] == TypeAssets(theme, t, countPerType)
  {
    pack := AssetPack(theme, map[]);
    var n := if countPerType > 0 then countPerType else 0;
    for j := 0 to |assetTypes|
      invariant pack.theme == theme
      invariant pack.assets.Keys == set t | t in assetTypes[..j]
      invariant forall t | t in pack.assets :: pack.assets[t] == TypeAssets(theme, t, countPerType)
    {
      var assetType := assetTypes[j];
      var list: seq<Asset> := [];
      for i := 0 to n
        invariant |list| == i
        invariant forall k | 0 <= k < i :: list[k] == Asset(Placeholder(assetType), AssetName(theme, assetType, k), k)
      {
        var asset := Placeholder(assetType);
        list := list + [Asset(asset, AssetName(theme, assetType, i), i)];
      }
      assert list == TypeAssets(theme, assetType, countPerType);
      pack := pack.(assets := pack.assets[assetType := list]);
      assert assetTypes[..j + 1] == assetTypes[..j] + [assetType];
    }
    assert assetTypes[..|assetTypes|] == assetTypes;
  }

  /** Within one type the names are all different, and each name's two-digit tail reads back as its id. */
  lemma AssetNames(theme: string, assetType: string, count: int)
    ensures var list := TypeAssets(theme, assetType, count);
      && (forall i, j | 0 <= i < j < |list| :: list[i].name != list[j].name)
      && forall i | 0 <= i < |list| ::
           var prefix := |theme| + |assetType| + 2;
           && |list[i].name| >= prefix + 2
           && list[i].name[..prefix] == theme + "_" + assetType + "_"
           && (forall k | prefix <= k < |list[i].name| :: IsDigit(list[i].name[k]))
           && DecimalValue(list[i].name[prefix..]) == list[i].id
  {
    var list := TypeAssets(theme, assetType, count);
    var head := theme + "_" + assetType + "_";
    forall i, j | 0 <= i < j < |list|
      ensures list[i].name != list[j].name
    {
      if list[i].name == list[j].name {
        assert Pad2(i) == list[i].name[|head|..];
        assert Pad2(j) == list[j].name[|head|..];
        Pad2Injective(i, j);
      }
    }
    forall i | 0 <= i < |list|
      ensures DecimalValue(list[i].name[|head|..]) == list[i].id
    {
      assert list[i].name[|head|..] == Pad2(i);
      Pad2Value(i);
    }
  }

  // ---------------------------------------------------------------------------
  // optimize_for_platform
  // ---------------------------------------------------------------------------

  datatype Budget = Budget(maxFaces: nat, textureResolution: nat, maxMaterials: nat)

  /** The per-platform budget; any name but the three listed gets the PC budget. */
  function PlatformBudget(platform: string): Budget {
    if platform == "mobile" then Budget(2000, 1024, 1)
    else if platform == "vr" then Budget(5000, 2048, 2)
    else if platform == "web" then Budget(3000, 1024, 1)
    else Budget(10000, 4096, 4)
  }

  datatype Optimized = Optimized(
    mesh: Mesh,
    platform: string,
    textureResolution: nat,
    maxMaterials: nat,
    estimatedPerformance: string)

  /** `optimize_for_platform(mesh, platform="pc", target_fps=60)`. */
  function OptimizeForPlatform(mesh: Mesh, decimate: Decimator, platform: string := "pc", targetFps: int := 60): Optimized {
    var budget := PlatformBudget(platform);
    var optimized := if FaceCount(mesh) > budget.maxFaces then decimate(mesh, budget.maxFaces) else mesh;
    Optimized(optimized, platform, budget.textureResolution, budget.maxMaterials, IntToString(targetFps) + " FPS")
  }

  lemma PlatformTable(platform: string)
    ensures platform == "mobile" ==> PlatformBudget(platform) == Budget(2000, 1024, 1)
    ensures platform == "vr" ==> PlatformBudget(platform) == Budget(5000, 2048, 2)
    ensures platform == "web" ==> PlatformBudget(platform) == Budget(3000, 1024, 1)
    ensures platform !in {"mobile", "vr", "web"} ==> PlatformBudget(platform) == PlatformBudget("pc")
    ensures PlatformBudget("pc") == Budget(10000, 4096, 4)
  {
  }

  /**
   * The result echoes the platform and its budget; the mesh is the input
   * itself when within budget and is decimated to the budget otherwise (so
   * it ends within budget whenever the decimator honours its target); the
   * performance label reads back as the frame rate followed by " FPS".
   */
  lemma Optimization(mesh: Mesh, decimate: Decimator, platform: string, targetFps: int)
    ensures var r := OptimizeForPlatform(mesh, decimate, platform, targetFps);
      var budget := PlatformBudget(platform);
      && r.platform == platform
      && r.textureResolution == budget.textureResolution
      && r.maxMaterials == budget.maxMaterials
      && (FaceCount(mesh) <= budget.maxFaces ==> r.mesh == mesh)
      && (FaceCount(mesh) > budget.maxFaces ==> r.mesh == decimate(mesh, budget.maxFaces))
      && (RespectsTarget(decimate) ==> FaceCount(r.mesh) <= budget.maxFaces)
      && |r.estimatedPerformance| >= 5
      && r.estimatedPerformance[|r.estimatedPerformance| - 4..] == " FPS"
      && (targetFps >= 0 ==> DecimalValue(r.estimatedPerformance[..|r.estimatedPerformance| - 4]) == targetFps)
  {
    var r := OptimizeForPlatform(mesh, decimate, platform, targetFps);
    var budget := PlatformBudget(platform);
    if RespectsTarget(decimate) {
      assert FaceCount(decimate(mesh, budget.maxFaces)) <= budget.maxFaces;
    }
    assert r.estimatedPerformance[..|r.estimatedPerformance| - 4] == IntToString(targetFps);
    if targetFps >= 0 {
      NatToStringValue(targetFps);
    }
  }
}
