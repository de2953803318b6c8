/** What one pixel shows: the per-light accumulation under the four lighting
    modes, the shadow test that skips a light, and the interlacing rule. */
module Shading {
  import opened Maths
  import opened Geometry
  import opened Externals
  import opened Traversal

  /** The four lighting modes, in the order the cycle visits them. */
  datatype LightingMode = ObservedArea | Radiance | BRDF | Combined

  function ModeIndex(m: LightingMode): int {
    match m
    case ObservedArea => 0
    case Radiance => 1
    case BRDF => 2
    case Combined => 3
  }

  function ModeAt(i: int): (m: LightingMode)
    requires 0 <= i < 4
    ensures ModeIndex(m) == i
  {
    if i == 0 then ObservedArea else if i == 1 then Radiance else if i == 2 then BRDF else Combined
  }

  /** `LightingMode((int(mode) + 1) % 4)`. */
  function NextMode(m: LightingMode): LightingMode {
    ModeAt((ModeIndex(m) + 1) % 4)
  }

  /** The cycle visits ObservedArea, Radiance, BRDF, Combined and then comes
      back: every mode differs from its successor, and four steps restore it. */
  lemma NextModeCycles(m: LightingMode)
    ensures NextMode(ObservedArea) == Radiance && NextMode(Radiance) == BRDF
    ensures NextMode(BRDF) == Combined && NextMode(Combined) == ObservedArea
    ensures NextMode(m) != m
    ensures NextMode(NextMode(NextMode(NextMode(m)))) == m
  {
    assert NextMode(ObservedArea) == Radiance;
    assert NextMode(Radiance) == BRDF;
    assert NextMode(BRDF) == Combined;
    assert NextMode(Combined) == ObservedArea;
    match m
    case ObservedArea =>
    case Radiance =>
    case BRDF =>
    case Combined =>
  }

  /** Everything a pixel's colour depends on besides its coordinates. */
  datatype Context = Context(num: Numerics, world: World, mode: LightingMode, shadowsEnabled: bool)

  /** Only the BRDF and Combined modes look up the hit's material. */
  predicate ReadsMaterial(mode: LightingMode) {
    mode == BRDF || mode == Combined
  }

  /** The hit's material index is in range wherever the mode reads it. */
  predicate MaterialInRange(ctx: Context, hit: HitRecord) {
    ReadsMaterial(ctx.mode) ==> hit.materialIndex as int < |ctx.world.materials|
  }

  /** The material the BRDF and Combined modes look up. The source indexes
      the table without a check, so an out-of-range index is undefined
      there; the model answers the default material, which no render that
      meets `MaterialsReadable` ever looks up. */
  function MaterialOf(ctx: Context, hit: HitRecord): (m: Material)
    ensures hit.materialIndex as int < |ctx.world.materials| ==> m == ctx.world.materials[hit.materialIndex]
  {
    if hit.materialIndex as int < |ctx.world.materials| then ctx.world.materials[hit.materialIndex] else DefaultMaterial
  }

  /** Wherever the mode reads materials, the table is non-empty and every
      hit on the world's own primitives names one of its materials. */
  ghost predicate MaterialsReadable(ctx: Context) {
    ReadsMaterial(ctx.mode) ==> |ctx.world.materials| > 0 && ReportsValidMaterials(ctx.num, ctx.world)
  }

  /** The hit point nudged along the normal, so shadow rays do not start
      inside the surface they leave. */
  function OffsetOrigin(hit: HitRecord): Vector3 {
    Plus(hit.origin, Times(hit.normal, 0.0001))
  }

  function LightDirection(ctx: Context, hit: HitRecord, light: Light): Vector3 {
    ctx.num.normalized(ctx.num.directionToLight(light, OffsetOrigin(hit)))
  }

  /** The ray from the hit towards `light`, limited to `[0, distance]`. */
  function ShadowRay(ctx: Context, hit: HitRecord, light: Light): Ray {
    var toLight := ctx.num.directionToLight(light, OffsetOrigin(hit));
    Ray(OffsetOrigin(hit), ctx.num.normalized(toLight), 0.0, ctx.num.magnitude(toLight))
  }

  /** A light is skipped when shadows are on and something blocks its ray. */
  predicate Shadowed(ctx: Context, hit: HitRecord, light: Light) {
    ctx.shadowsEnabled && AnyHit(ctx.world, ctx.num, ShadowRay(ctx, hit, light))
  }

  /** The cosine term `max(dot(normal, lightDirection), 0)`. */
  function ObservedAreaOf(ctx: Context, hit: HitRecord, light: Light): (a: real)
    ensures a >= 0.0
  {
    ClampToZero(Dot(hit.normal, LightDirection(ctx, hit, light)))
  }

  /** The contribution of one unshadowed light under the current mode. */
  function LightTerm(ctx: Context, hit: HitRecord, viewDirection: Vector3, light: Light): ColorRGB
  {
    var lightDirection := LightDirection(ctx, hit, light);
    var material := MaterialOf(ctx, hit);
    match ctx.mode
    case ObservedArea => Grey(ObservedAreaOf(ctx, hit, light))
    case Radiance => ctx.num.radiance(light, hit.origin)
    case BRDF => ctx.num.shade(material, hit, lightDirection, viewDirection)
    case Combined =>
      Scale(Mul(ctx.num.radiance(light, hit.origin), ctx.num.shade(material, hit, lightDirection, viewDirection)),
            ObservedAreaOf(ctx, hit, light))
  }

  /** What one light adds in the lights loop: nothing when it is shadowed
      (the loop `continue`s), its term under the current mode otherwise. */
  function Contribution(ctx: Context, hit: HitRecord, viewDirection: Vector3, light: Light): ColorRGB {
    if Shadowed(ctx, hit, light) then Black else LightTerm(ctx, hit, viewDirection, light)
  }

  function ContributionOf(ctx: Context, hit: HitRecord, viewDirection: Vector3): Light -> ColorRGB {
    light => Contribution(ctx, hit, viewDirection, light)
  }

  /** The colour after the lights loop has seen `lights`, first to last. */
  function Accumulate(ctx: Context, hit: HitRecord, viewDirection: Vector3, lights: seq<Light>): ColorRGB {
    Sum(ContributionOf(ctx, hit, viewDirection), lights)
  }

  /** One more light seen: it adds its term unless it is shadowed. */
  lemma AccumulateStep(ctx: Context, hit: HitRecord, viewDirection: Vector3, lights: seq<Light>, i: nat)
    requires i < |lights|
    ensures Accumulate(ctx, hit, viewDirection, lights[..i + 1])
         == if Shadowed(ctx, hit, lights[i]) then Accumulate(ctx, hit, viewDirection, lights[..i])
            else Add(Accumulate(ctx, hit, viewDirection, lights[..i]), LightTerm(ctx, hit, viewDirection, lights[i]))
  {
    assert lights[..i + 1][..i] == lights[..i];
  }

  /** Whether a light passes the shadow test. */
  function Lit(ctx: Context, hit: HitRecord): Light -> bool {
    light => !Shadowed(ctx, hit, light)
  }

  /** The lights that are not shadowed, in order. */
  function Unshadowed(ctx: Context, hit: HitRecord, lights: seq<Light>): seq<Light> {
    Filter(Lit(ctx, hit), lights)
  }

  /** A light is among the unshadowed ones iff it is one of the lights and
      its shadow ray is clear. */
  lemma UnshadowedMembers(ctx: Context, hit: HitRecord, lights: seq<Light>, light: Light)
    ensures light in Unshadowed(ctx, hit, lights) <==> light in lights && !Shadowed(ctx, hit, light)
  {
    FilterMembers(Lit(ctx, hit), lights, light);
  }

  /** A light's term does not depend on the shadow switch. */
  lemma LightTermIgnoresShadows(ctx: Context, hit: HitRecord, viewDirection: Vector3, light: Light)
    ensures LightTerm(ctx.(shadowsEnabled := false), hit, viewDirection, light) == LightTerm(ctx, hit, viewDirection, light)
  {
  }

  /** With shadows on, the colour is what the unshadowed lights alone give
      with shadows off: a shadowed light contributes nothing. */
  lemma ShadowedLightsContributeNothing(ctx: Context, hit: HitRecord, viewDirection: Vector3, lights: seq<Light>)
    ensures Accumulate(ctx, hit, viewDirection, lights)
         == Accumulate(ctx.(shadowsEnabled := false), hit, viewDirection, Unshadowed(ctx, hit, lights))
  {
    var off := ctx.(shadowsEnabled := false);
    var f, g, keep := ContributionOf(ctx, hit, viewDirection), ContributionOf(off, hit, viewDirection), Lit(ctx, hit);
    forall l
      ensures f(l) == if keep(l) then g(l) else Black
    {
      LightTermIgnoresShadows(ctx, hit, viewDirection, l);
    }
    SumFilter(f, g, keep, lights);
  }

  /** In ObservedArea mode every light adds the same non-negative amount to
      all three channels: the colour is a non-negative grey. */
  lemma {:induction false} ObservedAreaIsGrey(ctx: Context, hit: HitRecord, viewDirection: Vector3, lights: seq<Light>)
    ensures var c := Accumulate(ctx, hit, viewDirection, lights); ctx.mode == ObservedArea ==> c.r == c.g == c.b >= 0.0
    decreases |lights|
  {
    if lights != [] {
      ObservedAreaIsGrey(ctx, hit, viewDirection, lights[..|lights| - 1]);
    }
  }

  /** Lights add up independently: the lights loop over two lists in turn
      sums the two loops' colours. */
  lemma {:induction false} AccumulateAppend(ctx: Context, hit: HitRecord, viewDirection: Vector3, xs: seq<Light>, ys: seq<Light>)
    ensures Accumulate(ctx, hit, viewDirection, xs + ys)
         == Add(Accumulate(ctx, hit, viewDirection, xs), Accumulate(ctx, hit, viewDirection, ys))
  {
    SumAppend(ContributionOf(ctx, hit, viewDirection), xs, ys);
  }

  /** `py = i / W`, `px = i % W`: a column inside the row, and the pair
      names `i` again as `px + py * W`. */
  function PixelCoords(i: nat, width: int): (c: (int, int))
    requires width > 0
    ensures 0 <= c.0 < width && 0 <= c.1
    ensures c.0 + c.1 * width == i
  {
    (i % width, i / width)
  }

  /** A pixel inside a `width` by `height` image lies on one of its rows. */
  lemma PixelRowInImage(i: nat, width: int, height: int)
    requires width > 0 && i < width * height
    ensures PixelCoords(i, width).1 < height
  {
  }

  /** Interlacing: row `py` is shaded in frames whose counter has the
      row's parity (C++ `%`, so a negative odd counter matches no row). */
  predicate RowShaded(py: int, counter: int)
    requires py >= 0
  {
    py % 2 == TruncRem(counter, 2)
  }

  /** Of two consecutive non-negative frame counters, exactly one shades a
      given row. */
  lemma InterlaceAlternates(py: int, counter: int)
    requires py >= 0 && counter >= 0
    ensures RowShaded(py, counter) != RowShaded(py, counter + 1)
  {
  }

  /** The colour the lights loop leaves for the pixel whose view ray is
      `ray`, before clamping. */
  function PixelColor(ctx: Context, ray: Ray): (c: ColorRGB)
    ensures !ClosestHit(ctx.world, ctx.num, ray, NoHit).didHit ==> c == Black
    ensures ctx.mode == ObservedArea ==> c.r == c.g == c.b >= 0.0
  {
    var hit := ClosestHit(ctx.world, ctx.num, ray, NoHit);
    if hit.didHit then
      ObservedAreaIsGrey(ctx, hit, ray.direction, ctx.world.lights);
      Accumulate(ctx, hit, ray.direction, ctx.world.lights)
    else Black
  }

  /** The packed value written for pixel `(px, py)`. */
  function PixelValue(ctx: Context, px: int, py: int): Pixel
  {
    ctx.num.mapRGB(ctx.num.maxToOne(PixelColor(ctx, ctx.num.cameraRay(px, py))))
  }
}
