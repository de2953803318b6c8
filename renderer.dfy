/** The renderer: a `width * height` pixel buffer, the frame counter that
    drives interlacing, the lighting mode and the shadow switch. */
module Rendering {
  import opened Maths
  import opened Geometry
  import opened Externals
  import opened Traversal
  import opened Scenes
  import opened Shading
  import opened Partition

  class Renderer {
    const width: int
    const height: int
    /** The window surface's pixels, row-major. */
    const buffer: array<Pixel>
    var counter: int
    var lightingMode: LightingMode
    var shadowsEnabled: bool

    ghost predicate Valid()
      reads this
    {
      width > 0 && height > 0 && buffer.Length == width * height
    }

    /** The surface of a `width` by `height` window. The initial counter,
        lighting mode and shadow switch are set in the class declaration,
        which is not part of this model. */
    constructor (width: int, height: int)
      requires width > 0 && height > 0
      ensures Valid() && this.width == width && this.height == height && fresh(buffer)
    {
      this.width := width;
      this.height := height;
      buffer := new Pixel[width * height];
    }

    function Settings(scene: Scene, num: Numerics): Context
      reads this, scene
    {
      Context(num, scene.Contents(), lightingMode, shadowsEnabled)
    }

    /** Whether this frame shades the row of pixel `i`. */
    predicate Shades(i: nat)
      reads this
      requires width > 0
    {
      RowShaded(i / width, counter)
    }

    /** What a render leaves in pixel `j` when it renders the indices in
        `[from, to)`: its own shaded value if its row is due this frame, the
        earlier content otherwise. */
    ghost predicate Rendered(scene: Scene, num: Numerics, before: seq<Pixel>, after: seq<Pixel>, from: int, to: int)
      reads this, scene
      requires Valid() && scene.Valid()
    {
      && |after| == |before|
      && forall j :: 0 <= j < |after| ==>
           after[j] == if from <= j < to && Shades(j)
                       then PixelValue(Settings(scene, num), j % width, j / width)
                       else before[j]
    }

    /** One more pixel rendered extends the rendered range by one index. */
    lemma RenderedStep(scene: Scene, num: Numerics, before: seq<Pixel>, mid: seq<Pixel>, after: seq<Pixel>, from: int, i: nat)
      requires Valid() && scene.Valid()
      requires from <= i < |mid|
      requires Rendered(scene, num, before, mid, from, i)
      requires after == if Shades(i) then mid[i := PixelValue(Settings(scene, num), i % width, i / width)] else mid
      ensures Rendered(scene, num, before, after, from, i + 1)
    {
    }

    /** Shades pixel `pixelIndex` into its own slot, or leaves the buffer
        alone when its row is not due this frame. */
    method RenderPixel(scene: Scene, num: Numerics, pixelIndex: nat)
      requires Valid() && scene.Valid() && MaterialsReadable(Settings(scene, num))
      requires pixelIndex < width * height
      modifies buffer
      ensures !Shades(pixelIndex) ==> buffer[..] == old(buffer[..])
      ensures Shades(pixelIndex) ==>
                buffer[..] == old(buffer[..])[pixelIndex := PixelValue(Settings(scene, num), pixelIndex % width, pixelIndex / width)]
    {
      var py := pixelIndex / width;
      if py % 2 != TruncRem(counter, 2) {
        return;
      }
      var px := pixelIndex % width;

      var viewRay := num.cameraRay(px, py);
      var finalColor := Black;
      var closestHit := scene.GetClosestHit(num, viewRay, NoHit);
      if closestHit.didHit {
        if ReadsMaterial(lightingMode) {
          ClosestHitHasValidMaterial(scene.Contents(), num, viewRay);
        }
        finalColor := ShadeHit(scene, num, closestHit, viewRay.direction);
      }
      assert finalColor == PixelColor(Settings(scene, num), viewRay);

      finalColor := num.maxToOne(finalColor);
      var slot := px + py * width;
      assert slot == pixelIndex by {
        assert (px, py) == PixelCoords(pixelIndex, width);
      }
      buffer[slot] := num.mapRGB(finalColor);
    }

    /** The lights loop of `RenderPixel` for a pixel whose view ray hit
        `closestHit`: each light not in shadow adds its term under the
        current lighting mode. */
    method ShadeHit(scene: Scene, num: Numerics, closestHit: HitRecord, viewDirection: Vector3) returns (finalColor: ColorRGB)
      requires MaterialInRange(Settings(scene, num), closestHit)
      ensures finalColor == Accumulate(Settings(scene, num), closestHit, viewDirection, scene.lights)
      ensures lightingMode == ObservedArea ==> finalColor.r == finalColor.g == finalColor.b >= 0.0
    {
      ghost var ctx := Settings(scene, num);
      var originOffset := Plus(closestHit.origin, Times(closestHit.normal, 0.0001));
      var lights, materials := scene.lights, scene.materials;
      finalColor := Black;
      for i := 0 to |lights|
        invariant finalColor == Accumulate(ctx, closestHit, viewDirection, lights[..i])
      {
        AccumulateStep(ctx, closestHit, viewDirection, lights, i);
        var light := lights[i];
        var lightDirection := num.directionToLight(light, originOffset);
        var lightDistance := num.magnitude(lightDirection);
        lightDirection := num.normalized(lightDirection);
        assert lightDirection == LightDirection(ctx, closestHit, light);

        if shadowsEnabled {
          var invLightRay := Ray(originOffset, lightDirection, 0.0, lightDistance);
          assert invLightRay == ShadowRay(ctx, closestHit, light);
          var blocked := scene.DoesHit(num, invLightRay);
          if blocked {
            continue;
          }
        }

        var term: ColorRGB;
        match lightingMode {
          case ObservedArea =>
            var normalLightAngle := ClampToZero(Dot(closestHit.normal, lightDirection));
            term := Grey(normalLightAngle);
          case Radiance =>
            term := num.radiance(light, closestHit.origin);
          case BRDF =>
            term := num.shade(materials[closestHit.materialIndex], closestHit, lightDirection, viewDirection);
          case Combined =>
            var normalLightAngle := ClampToZero(Dot(closestHit.normal, lightDirection));
            var radiance := num.radiance(light, closestHit.origin);
            var brdf := num.shade(materials[closestHit.materialIndex], closestHit, lightDirection, viewDirection);
            term := Scale(Mul(radiance, brdf), normalLightAngle);
        }
        assert term == LightTerm(ctx, closestHit, viewDirection, light);
        finalColor := Add(finalColor, term);
      }
      assert lights[..|lights|] == lights;
      ObservedAreaIsGrey(ctx, closestHit, viewDirection, lights);
    }

    /** The synchronous render: every pixel index in ascending order. */
    method Render(scene: Scene, num: Numerics)
      requires Valid() && scene.Valid() && MaterialsReadable(Settings(scene, num))
      modifies buffer
      ensures Rendered(scene, num, old(buffer[..]), buffer[..], 0, width * height)
    {
      var numPixels := width * height;
      for i := 0 to numPixels
        invariant Rendered(scene, num, old(buffer[..]), buffer[..], 0, i)
      {
        ghost var mid := buffer[..];
        RenderPixel(scene, num, i);
        RenderedStep(scene, num, old(buffer[..]), mid, buffer[..], 0, i);
      }
    }

    /** The body of one futures-based task: the indices of `[start, start + size)`. */
    method RenderTask(scene: Scene, num: Numerics, start: nat, size: nat)
      requires Valid() && scene.Valid() && MaterialsReadable(Settings(scene, num))
      requires start + size <= width * height
      modifies buffer
      ensures Rendered(scene, num, old(buffer[..]), buffer[..], start, start + size)
    {
      var pixelIndexEnd := start + size;
      for pixelIndex := start to pixelIndexEnd
        invariant Rendered(scene, num, old(buffer[..]), buffer[..], start, pixelIndex)
      {
        ghost var mid := buffer[..];
        RenderPixel(scene, num, pixelIndex);
        RenderedStep(scene, num, old(buffer[..]), mid, buffer[..], start, pixelIndex);
      }
    }

    /** The futures-based render on `numCores` workers, with the tasks run
        one after another: because the tasks' ranges tile the image, it
        leaves the same buffer as the synchronous render. */
    method RenderAsync(scene: Scene, num: Numerics, numCores: nat)
      requires Valid() && scene.Valid() && MaterialsReadable(Settings(scene, num))
      requires numCores > 0
      modifies buffer
      ensures Rendered(scene, num, old(buffer[..]), buffer[..], 0, width * height)
    {
      var numPixels := width * height;
      var tasks := PlanTasks(numPixels, numCores);
      for coreId := 0 to |tasks|
        invariant Rendered(scene, num, old(buffer[..]), buffer[..], 0, if coreId == 0 then 0 else End(tasks[coreId - 1]))
      {
        if coreId < |tasks| - 1 {
          ChainOrdered(tasks, 0, numPixels, coreId, |tasks| - 1);
        }
        RenderTask(scene, num, tasks[coreId].start, tasks[coreId].size);
      }
    }

    /** The parallel-for render, with the scheduler's order of pixel indices
        as a parameter: whatever the order, so long as it reaches every
        index, it leaves the same buffer as the synchronous render. */
    method RenderInOrder(scene: Scene, num: Numerics, order: seq<nat>)
      requires Valid() && scene.Valid() && MaterialsReadable(Settings(scene, num))
      requires forall k :: 0 <= k < |order| ==> order[k] < width * height
      requires forall i :: 0 <= i < width * height ==> i in order
      modifies buffer
      ensures Rendered(scene, num, old(buffer[..]), buffer[..], 0, width * height)
    {
      for k := 0 to |order|
        invariant |buffer[..]| == |old(buffer[..])|
        invariant forall j :: 0 <= j < buffer.Length ==>
                    buffer[j] == if j in order[..k] && Shades(j)
                                 then PixelValue(Settings(scene, num), j % width, j / width)
                                 else old(buffer[j])
      {
        assert forall j :: j in order[..k + 1] <==> j in order[..k] || j == order[k];
        RenderPixel(scene, num, order[k]);
      }
      assert order[..|order|] == order;
    }

    /** Advances the lighting mode to the next of the four. */
    method CycleLightingMode()
      modifies this
      ensures lightingMode == NextMode(old(lightingMode))
      ensures counter == old(counter) && shadowsEnabled == old(shadowsEnabled)
    {
      lightingMode := ModeAt((ModeIndex(lightingMode) + 1) % 4);
    }
  }
}
