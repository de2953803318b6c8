/** The scene: five append-only tables and the two ray queries over them. */
module Scenes {
  import opened Maths
  import opened Geometry
  import opened Externals
  import opened Traversal

  class Scene {
    var spheres: seq<Sphere>
    var planes: seq<Plane>
    var meshes: seq<TriangleMesh>
    var lights: seq<Light>
    var materials: seq<Material>

    /** The material table is never empty: it starts with the default. */
    ghost predicate Valid()
      reads this
    {
      |materials| >= 1
    }

    function Contents(): World
      reads this
    {
      World(spheres, planes, meshes, lights, materials)
    }

    /** A new scene holds exactly one material, solid red, at index 0. */
    constructor ()
      ensures Valid()
      ensures Contents() == World([], [], [], [], [DefaultMaterial])
      ensures PrimitivesNameMaterials(Contents())
      ensures materials[0] == SolidColor(ColorRGB(1.0, 0.0, 0.0))
    {
      spheres, planes, meshes, lights := [], [], [], [];
      materials := [DefaultMaterial];
    }

    /** Offers the hit of every sphere, then every plane, then every mesh to
        `closestHit`, keeping one only on a reported, strictly closer hit. */
    method GetClosestHit(num: Numerics, ray: Ray, closestHit: HitRecord) returns (result: HitRecord)
      ensures result == ClosestHit(Contents(), num, ray, closestHit)
      ensures result.t <= closestHit.t
    {
      var tempHit := NoHit;
      result := closestHit;

      for i := 0 to |spheres|
        invariant SweepOf(num.hitSphere, true, num.normalized, spheres[..i], ray, NoHit).temp == tempHit
        invariant result == Closest(closestHit, SweepOf(num.hitSphere, true, num.normalized, spheres[..i], ray, NoHit).reports)
      {
        SweepStep(num.hitSphere, true, num.normalized, spheres, i, ray, NoHit, closestHit);
        var test := num.hitSphere(spheres[i], ray, tempHit);
        tempHit := test.record;
        if test.hit && tempHit.t < result.t {
          result := tempHit;
          result := result.(normal := num.normalized(result.normal));
        }
      }
      assert spheres[..|spheres|] == spheres;
      ghost var s := SweepOf(num.hitSphere, true, num.normalized, spheres, ray, NoHit);

      for i := 0 to |planes|
        invariant SweepOf(num.hitPlane, false, num.normalized, planes[..i], ray, s.temp).temp == tempHit
        invariant result == Closest(Closest(closestHit, s.reports),
                                    SweepOf(num.hitPlane, false, num.normalized, planes[..i], ray, s.temp).reports)
      {
        SweepStep(num.hitPlane, false, num.normalized, planes, i, ray, s.temp, Closest(closestHit, s.reports));
        var test := num.hitPlane(planes[i], ray, tempHit);
        tempHit := test.record;
        if test.hit && tempHit.t < result.t {
          result := tempHit;
        }
      }
      assert planes[..|planes|] == planes;
      ghost var p := SweepOf(num.hitPlane, false, num.normalized, planes, ray, s.temp);

      for i := 0 to |meshes|
        invariant SweepOf(num.hitMesh, false, num.normalized, meshes[..i], ray, p.temp).temp == tempHit
        invariant result == Closest(Closest(Closest(closestHit, s.reports), p.reports),
                                    SweepOf(num.hitMesh, false, num.normalized, meshes[..i], ray, p.temp).reports)
      {
        SweepStep(num.hitMesh, false, num.normalized, meshes, i, ray, p.temp, Closest(Closest(closestHit, s.reports), p.reports));
        var test := num.hitMesh(meshes[i], ray, tempHit);
        tempHit := test.record;
        if test.hit && tempHit.t < result.t {
          result := tempHit;
        }
      }
      assert meshes[..|meshes|] == meshes;
      ghost var m := SweepOf(num.hitMesh, false, num.normalized, meshes, ray, p.temp);

      ClosestAppend(closestHit, s.reports, p.reports);
      ClosestAppend(closestHit, s.reports + p.reports, m.reports);
      ClosestIsMinimum(closestHit, AllReports(Contents(), num, ray));
    }

    /** Answers whether any sphere, plane or mesh blocks `ray`, stopping at
        the first one that does. */
    method DoesHit(num: Numerics, ray: Ray) returns (hit: bool)
      ensures hit == AnyHit(Contents(), num, ray)
      ensures spheres == [] && planes == [] && meshes == [] ==> !hit
    {
      for i := 0 to |spheres|
        invariant forall j :: 0 <= j < i ==> !num.occludedBySphere(spheres[j], ray)
      {
        if num.occludedBySphere(spheres[i], ray) {
          return true;
        }
      }
      for i := 0 to |planes|
        invariant forall j :: 0 <= j < i ==> !num.occludedByPlane(planes[j], ray)
      {
        if num.occludedByPlane(planes[i], ray) {
          return true;
        }
      }
      for i := 0 to |meshes|
        invariant forall j :: 0 <= j < i ==> !num.occludedByMesh(meshes[j], ray)
      {
        if num.occludedByMesh(meshes[i], ray) {
          return true;
        }
      }
      return false;
    }

    /** Appends a sphere and answers its index (the source hands back a
        pointer to the new last element). */
    method AddSphere(origin: Vector3, radius: real, materialIndex: byte) returns (index: nat)
      requires Valid()
      modifies this
      ensures Valid()
      ensures spheres == old(spheres) + [Sphere(origin, radius, materialIndex)]
      ensures index == |old(spheres)| && spheres[index] == Sphere(origin, radius, materialIndex)
      ensures planes == old(planes) && meshes == old(meshes) && lights == old(lights) && materials == old(materials)
      ensures PrimitivesNameMaterials(old(Contents())) && materialIndex as int < |materials| ==> PrimitivesNameMaterials(Contents())
    {
      spheres := spheres + [Sphere(origin, radius, materialIndex)];
      index := |spheres| - 1;
    }

    method AddPlane(origin: Vector3, normal: Vector3, materialIndex: byte) returns (index: nat)
      requires Valid()
      modifies this
      ensures Valid()
      ensures planes == old(planes) + [Plane(origin, normal, materialIndex)]
      ensures index == |old(planes)| && planes[index] == Plane(origin, normal, materialIndex)
      ensures spheres == old(spheres) && meshes == old(meshes) && lights == old(lights) && materials == old(materials)
      ensures PrimitivesNameMaterials(old(Contents())) && materialIndex as int < |materials| ==> PrimitivesNameMaterials(Contents())
    {
      planes := planes + [Plane(origin, normal, materialIndex)];
      index := |planes| - 1;
    }

    /** Appends an empty mesh with the given culling mode and material. */
    method AddTriangleMesh(cullMode: TriangleCullMode, materialIndex: byte) returns (index: nat)
      requires Valid()
      modifies this
      ensures Valid()
      ensures meshes == old(meshes) + [TriangleMesh([], [], [], cullMode, materialIndex)]
      ensures index == |old(meshes)| && meshes[index].cullMode == cullMode && meshes[index].materialIndex == materialIndex
      ensures spheres == old(spheres) && planes == old(planes) && lights == old(lights) && materials == old(materials)
      ensures PrimitivesNameMaterials(old(Contents())) && materialIndex as int < |materials| ==> PrimitivesNameMaterials(Contents())
    {
      meshes := meshes + [TriangleMesh([], [], [], cullMode, materialIndex)];
      index := |meshes| - 1;
    }

    /** Appends a point light; its direction keeps the zero default. */
    method AddPointLight(origin: Vector3, intensity: real, color: ColorRGB) returns (index: nat)
      requires Valid()
      modifies this
      ensures Valid()
      ensures lights == old(lights) + [Light(origin, Zero, intensity, color, Point)]
      ensures index == |old(lights)| && lights[index].kind == Point
      ensures spheres == old(spheres) && planes == old(planes) && meshes == old(meshes) && materials == old(materials)
      ensures PrimitivesNameMaterials(old(Contents())) ==> PrimitivesNameMaterials(Contents())
    {
      lights := lights + [Light(origin, Zero, intensity, color, Point)];
      index := |lights| - 1;
    }

    /** Appends a directional light; its origin keeps the zero default. */
    method AddDirectionalLight(direction: Vector3, intensity: real, color: ColorRGB) returns (index: nat)
      requires Valid()
      modifies this
      ensures Valid()
      ensures lights == old(lights) + [Light(Zero, direction, intensity, color, Directional)]
      ensures index == |old(lights)| && lights[index].kind == Directional
      ensures spheres == old(spheres) && planes == old(planes) && meshes == old(meshes) && materials == old(materials)
      ensures PrimitivesNameMaterials(old(Contents())) ==> PrimitivesNameMaterials(Contents())
    {
      lights := lights + [Light(Zero, direction, intensity, color, Directional)];
      index := |lights| - 1;
    }

    /** Appends a material and answers the new size minus one, truncated to
        an `unsigned char`: the new index while the table has at most 256
        entries, an older entry's index after that. */
    method AddMaterial(material: Material) returns (index: byte)
      modifies this
      ensures Valid()
      ensures materials == old(materials) + [material]
      ensures index as int == |old(materials)| % 256
      ensures |materials| <= 256 ==> materials[index] == material
      ensures spheres == old(spheres) && planes == old(planes) && meshes == old(meshes) && lights == old(lights)
      ensures PrimitivesNameMaterials(old(Contents())) ==> PrimitivesNameMaterials(Contents())
    {
      materials := materials + [material];
      index := ((|materials| - 1) % 256) as byte;
    }
  }
}
