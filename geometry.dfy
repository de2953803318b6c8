/** The passive data of a scene: rays, hit records, primitives, lights and
    materials. Their declarations live in headers that are not part of this
    model; the fields here are the ones Scene.cpp and Renderer.cpp touch. */
module Geometry {
  import opened Maths

  /** A ray with its valid distance range `[tMin, tMax]`. The reciprocal
      direction the source precomputes for slab tests is not modelled. */
  datatype Ray = Ray(origin: Vector3, direction: Vector3, tMin: real, tMax: real)

  /** The closest-hit accumulator: hit point, surface normal, distance along
      the ray, whether anything was hit, and the index of the hit material. */
  datatype HitRecord = HitRecord(
    origin: Vector3,
    normal: Vector3,
    t: real,
    didHit: bool,
    materialIndex: byte)

  /** The largest finite `float`, the distance a fresh record starts at. */
  const FarthestT: real := 340282346638528859811704183484516925440.0

  /** `HitRecord{}`: no hit yet, farther than any real hit, material 0. */
  const NoHit: HitRecord := HitRecord(Zero, Zero, FarthestT, false, 0)

  datatype Sphere = Sphere(origin: Vector3, radius: real, materialIndex: byte)

  datatype Plane = Plane(origin: Vector3, normal: Vector3, materialIndex: byte)

  datatype TriangleCullMode = FrontFaceCulling | BackFaceCulling | NoCulling

  /** An indexed triangle mesh; a freshly added mesh has no triangles yet. */
  datatype TriangleMesh = TriangleMesh(
    positions: seq<Vector3>,
    normals: seq<Vector3>,
    indices: seq<nat>,
    cullMode: TriangleCullMode,
    materialIndex: byte)

  datatype LightType = Point | Directional

  datatype Light = Light(
    origin: Vector3,
    direction: Vector3,
    intensity: real,
    color: ColorRGB,
    kind: LightType)

  /** The four shading strategies; `Shade` itself stays abstract. */
  datatype Material =
    | SolidColor(color: ColorRGB)
    | Lambert(diffuseColor: ColorRGB, diffuseReflectance: real)
    | LambertPhong(diffuseColor: ColorRGB, diffuseReflectance: real, specularReflectance: real, phongExponent: real)
    | CookTorrance(albedo: ColorRGB, metalness: real, roughness: real)

  /** The scene's default material, solid red. */
  const DefaultMaterial: Material := SolidColor(ColorRGB(1.0, 0.0, 0.0))

  /** A snapshot of everything a scene owns, in insertion order. */
  datatype World = World(
    spheres: seq<Sphere>,
    planes: seq<Plane>,
    meshes: seq<TriangleMesh>,
    lights: seq<Light>,
    materials: seq<Material>)

  /** What a closest-hit primitive test returns: its flag, and the record it
      leaves in the caller's (shared) temporary. */
  datatype HitTest = HitTest(hit: bool, record: HitRecord)
}

/** The floating-point kernels from headers that are not part of this model
    (`GeometryUtils`, `LightUtils`, `Material::Shade`, `Vector3::Normalize`,
    `ColorRGB::MaxToOne`, `SDL_MapRGB`, and the camera projection). They are
    kept abstract: every property proved holds for ANY such functions. */
module Externals {
  import opened Maths
  import opened Geometry

  datatype Numerics = Numerics(
    /** `HitTest_Sphere(sphere, ray, hitRecord)`, given the record it is handed */
    hitSphere: (Sphere, Ray, HitRecord) -> HitTest,
    hitPlane: (Plane, Ray, HitRecord) -> HitTest,
    hitMesh: (TriangleMesh, Ray, HitRecord) -> HitTest,
    /** `HitTest_Sphere(sphere, ray)`: the any-hit form used for shadows */
    occludedBySphere: (Sphere, Ray) -> bool,
    occludedByPlane: (Plane, Ray) -> bool,
    occludedByMesh: (TriangleMesh, Ray) -> bool,
    /** `v.Normalized()`, and the length `v.Normalize()` returns */
    normalized: Vector3 -> Vector3,
    magnitude: Vector3 -> real,
    /** `LightUtils::GetDirectionToLight` and `LightUtils::GetRadiance` */
    directionToLight: (Light, Vector3) -> Vector3,
    radiance: (Light, Vector3) -> ColorRGB,
    /** `Material::Shade(hit, lightDirection, viewDirection)` */
    shade: (Material, HitRecord, Vector3, Vector3) -> ColorRGB,
    /** `ColorRGB::MaxToOne` and the `uint8_t` casts packed by `SDL_MapRGB` */
    maxToOne: ColorRGB -> ColorRGB,
    mapRGB: ColorRGB -> Pixel,
    /** the world-space view ray of pixel `(px, py)` for this frame's camera */
    cameraRay: (int, int) -> Ray)

  /** Every record that a closest-hit test reports as a hit on one of the
      world's own primitives names a material the world has. */
  ghost predicate ReportsValidMaterials(num: Numerics, w: World) {
    && (forall s, r, h :: s in w.spheres && num.hitSphere(s, r, h).hit ==>
          num.hitSphere(s, r, h).record.materialIndex as int < |w.materials|)
    && (forall p, r, h :: p in w.planes && num.hitPlane(p, r, h).hit ==>
          num.hitPlane(p, r, h).record.materialIndex as int < |w.materials|)
    && (forall m, r, h :: m in w.meshes && num.hitMesh(m, r, h).hit ==>
          num.hitMesh(m, r, h).record.materialIndex as int < |w.materials|)
  }

  /** Tests that report the hit primitive's own material index. */
  ghost predicate ReportsOwnMaterials(num: Numerics) {
    && (forall s, r, h :: num.hitSphere(s, r, h).hit ==> num.hitSphere(s, r, h).record.materialIndex == s.materialIndex)
    && (forall p, r, h :: num.hitPlane(p, r, h).hit ==> num.hitPlane(p, r, h).record.materialIndex == p.materialIndex)
    && (forall m, r, h :: num.hitMesh(m, r, h).hit ==> num.hitMesh(m, r, h).record.materialIndex == m.materialIndex)
  }

  /** Every sphere, plane and mesh of the world names a material it has. */
  ghost predicate PrimitivesNameMaterials(w: World) {
    && (forall s :: s in w.spheres ==> s.materialIndex as int < |w.materials|)
    && (forall p :: p in w.planes ==> p.materialIndex as int < |w.materials|)
    && (forall m :: m in w.meshes ==> m.materialIndex as int < |w.materials|)
  }

  /** With tests that report the hit primitive's own material, the material
      contract holds whenever every primitive of the world names one of its
      materials. */
  lemma OwnMaterialsAreValid(num: Numerics, w: World)
    requires ReportsOwnMaterials(num) && PrimitivesNameMaterials(w)
    ensures ReportsValidMaterials(num, w)
  {
  }
}
