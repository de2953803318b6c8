/** The value-level meaning of the scene's two queries.

    Closest hit: the primitive tests run in a fixed order (spheres, then
    planes, then meshes, each in insertion order) and all write into one
    shared temporary record. Each test yields a `Report`; the caller keeps a
    report's record only when the test said "hit" AND its distance is
    strictly smaller than the best so far. `Closest` folds that rule over
    the reports, and the lemmas below say what the fold computes.

    Any hit: some primitive's any-hit test says "hit". */
module Traversal {
  import opened Maths
  import opened Geometry
  import opened Externals

  /** One closest-hit test as the caller sees it: the test's flag and the
      record it would keep (for spheres, with the normal normalized). */
  datatype Report = Report(hit: bool, record: HitRecord)

  /** The keep rule of one loop iteration: replace only on a reported hit
      that is strictly closer. */
  function Keep(best: HitRecord, r: Report): HitRecord {
    if r.hit && r.record.t < best.t then r.record else best
  }

  /** `best` after every report in `rs` has been offered, first to last. */
  function Closest(best: HitRecord, rs: seq<Report>): HitRecord
    decreases |rs|
  {
    if rs == [] then best else Keep(Closest(best, rs[..|rs| - 1]), rs[|rs| - 1])
  }

  /** The reports of one primitive loop and the temporary it leaves behind. */
  datatype Sweep = Sweep(reports: seq<Report>, temp: HitRecord)

  /** Runs `test` over `prims` in order, each test handed the record the
      previous one left in the shared temporary (initially `temp`). */
  function SweepOf<P>(test: (P, Ray, HitRecord) -> HitTest, normalizeNormal: bool,
                      normalized: Vector3 -> Vector3, prims: seq<P>, ray: Ray, temp: HitRecord): (s: Sweep)
    ensures |s.reports| == |prims|
    decreases |prims|
  {
    if prims == [] then Sweep([], temp)
    else
      var prev := SweepOf(test, normalizeNormal, normalized, prims[..|prims| - 1], ray, temp);
      var o := test(prims[|prims| - 1], ray, prev.temp);
      var kept := if normalizeNormal then o.record.(normal := normalized(o.record.normal)) else o.record;
      Sweep(prev.reports + [Report(o.hit, kept)], o.record)
  }

  /** One more primitive tested: the sweep over `prims[..i + 1]` is the sweep
      over `prims[..i]` followed by the test of `prims[i]` on the temporary
      it left, and the fold takes one more `Keep` step. */
  lemma SweepStep<P>(test: (P, Ray, HitRecord) -> HitTest, normalizeNormal: bool, normalized: Vector3 -> Vector3,
                     prims: seq<P>, i: nat, ray: Ray, temp: HitRecord, best: HitRecord)
    requires i < |prims|
    ensures var prev := SweepOf(test, normalizeNormal, normalized, prims[..i], ray, temp);
            var o := test(prims[i], ray, prev.temp);
            var kept := if normalizeNormal then o.record.(normal := normalized(o.record.normal)) else o.record;
            var next := SweepOf(test, normalizeNormal, normalized, prims[..i + 1], ray, temp);
            && next.temp == o.record
            && Closest(best, next.reports) == Keep(Closest(best, prev.reports), Report(o.hit, kept))
  {
    assert prims[..i + 1][..i] == prims[..i];
    var next := SweepOf(test, normalizeNormal, normalized, prims[..i + 1], ray, temp);
    assert next.reports[..|next.reports| - 1] == SweepOf(test, normalizeNormal, normalized, prims[..i], ray, temp).reports;
  }

  /** Every report in `rs` that says "hit" names a material below `count`. */
  predicate HitsNameMaterialsBelow(rs: seq<Report>, count: nat) {
    forall k :: 0 <= k < |rs| && rs[k].hit ==> rs[k].record.materialIndex as int < count
  }

  lemma HitsNameMaterialsBelowAppend(xs: seq<Report>, ys: seq<Report>, count: nat)
    requires HitsNameMaterialsBelow(xs, count) && HitsNameMaterialsBelow(ys, count)
    ensures HitsNameMaterialsBelow(xs + ys, count)
  {
    forall k | 0 <= k < |xs + ys| && (xs + ys)[k].hit ensures (xs + ys)[k].record.materialIndex as int < count {
      if k < |xs| {
        assert (xs + ys)[k] == xs[k];
      } else {
        assert (xs + ys)[k] == ys[k - |xs|];
      }
    }
  }

  /** Every report of a sweep that says "hit" names a material below `count`
      when the test reports only such hits on the swept primitives. */
  lemma {:induction false} SweepReportsValidMaterials<P>(test: (P, Ray, HitRecord) -> HitTest, normalizeNormal: bool,
                                                         normalized: Vector3 -> Vector3, prims: seq<P>, ray: Ray,
                                                         temp: HitRecord, count: nat)
    requires forall p, r, h :: p in prims && test(p, r, h).hit ==> test(p, r, h).record.materialIndex as int < count
    ensures HitsNameMaterialsBelow(SweepOf(test, normalizeNormal, normalized, prims, ray, temp).reports, count)
    decreases |prims|
  {
    if prims != [] {
      var prev := SweepOf(test, normalizeNormal, normalized, prims[..|prims| - 1], ray, temp);
      var o := test(prims[|prims| - 1], ray, prev.temp);
      var kept := if normalizeNormal then o.record.(normal := normalized(o.record.normal)) else o.record;
      assert SweepOf(test, normalizeNormal, normalized, prims, ray, temp).reports == prev.reports + [Report(o.hit, kept)];
      assert kept.materialIndex == o.record.materialIndex;
      assert forall p :: p in prims[..|prims| - 1] ==> p in prims;
      SweepReportsValidMaterials(test, normalizeNormal, normalized, prims[..|prims| - 1], ray, temp, count);
      HitsNameMaterialsBelowAppend(prev.reports, [Report(o.hit, kept)], count);
    }
  }

  /** The reports of `GetClosestHit`, in test order: spheres, then planes,
      then meshes, one shared temporary threaded through all three loops. */
  function AllReports(w: World, num: Numerics, ray: Ray): (rs: seq<Report>)
    ensures |rs| == |w.spheres| + |w.planes| + |w.meshes|
  {
    var s := SweepOf(num.hitSphere, true, num.normalized, w.spheres, ray, NoHit);
    var p := SweepOf(num.hitPlane, false, num.normalized, w.planes, ray, s.temp);
    var m := SweepOf(num.hitMesh, false, num.normalized, w.meshes, ray, p.temp);
    s.reports + p.reports + m.reports
  }

  /** What `GetClosestHit(ray, closestHit)` leaves in `closestHit`. */
  function ClosestHit(w: World, num: Numerics, ray: Ray, closestHit: HitRecord): HitRecord {
    Closest(closestHit, AllReports(w, num, ray))
  }

  /** What `DoesHit(ray)` answers: some any-hit test reports a hit. */
  predicate AnyHit(w: World, num: Numerics, ray: Ray) {
    || (exists s :: s in w.spheres && num.occludedBySphere(s, ray))
    || (exists p :: p in w.planes && num.occludedByPlane(p, ray))
    || (exists m :: m in w.meshes && num.occludedByMesh(m, ray))
  }

  /** Report `k` wins against `best`: it is a hit strictly closer than `best`,
      strictly closer than every earlier hit (a tie goes to the report tested
      first), and no farther than every later hit. */
  predicate Wins(best: HitRecord, rs: seq<Report>, k: int) {
    && 0 <= k < |rs|
    && rs[k].hit && rs[k].record.t < best.t
    && (forall j :: 0 <= j < k && rs[j].hit ==> rs[k].record.t < rs[j].record.t)
    && (forall j :: k < j < |rs| && rs[j].hit ==> rs[k].record.t <= rs[j].record.t)
  }

  /** With no reported hit strictly closer than `best`, the fold returns
      `best` unchanged. */
  lemma {:induction false} ClosestKeepsIncoming(best: HitRecord, rs: seq<Report>)
    requires forall k :: 0 <= k < |rs| && rs[k].hit ==> best.t <= rs[k].record.t
    ensures Closest(best, rs) == best
    decreases |rs|
  {
    if rs != [] {
      var n := |rs| - 1;
      assert forall j :: 0 <= j < n ==> rs[..n][j] == rs[j];
      ClosestKeepsIncoming(best, rs[..n]);
    }
  }

  /** When some reported hit is strictly closer than `best`, the fold ends on
      the record of the winning report. */
  lemma {:induction false} ClosestIsFirstNearest(best: HitRecord, rs: seq<Report>)
    requires exists k :: 0 <= k < |rs| && rs[k].hit && rs[k].record.t < best.t
    ensures exists k :: Wins(best, rs, k) && Closest(best, rs) == rs[k].record
    decreases |rs|
  {
    var n := |rs| - 1;
    var pre, last := rs[..n], rs[n];
    assert forall j :: 0 <= j < n ==> pre[j] == rs[j];
    assert Closest(best, rs) == Keep(Closest(best, pre), last);
    if exists k :: 0 <= k < n && pre[k].hit && pre[k].record.t < best.t {
      ClosestIsFirstNearest(best, pre);
      var k :| Wins(best, pre, k) && Closest(best, pre) == pre[k].record;
      WinsExtends(best, rs, k);
    } else {
      ClosestKeepsIncoming(best, pre);
      assert forall j :: 0 <= j < n && rs[j].hit ==> last.record.t < rs[j].record.t;
      assert Wins(best, rs, n);
    }
  }

  /** One step of the induction above: a winner of all but the last report
      stays the winner unless the last report is a strictly closer hit. */
  lemma WinsExtends(best: HitRecord, rs: seq<Report>, k: int)
    requires |rs| > 0 && Wins(best, rs[..|rs| - 1], k)
    ensures var n := |rs| - 1;
            if rs[n].hit && rs[n].record.t < rs[k].record.t then Wins(best, rs, n) else Wins(best, rs, k)
  {
    var n := |rs| - 1;
    var pre := rs[..n];
    assert forall j :: 0 <= j < n ==> pre[j] == rs[j];
    var c := rs[k].record.t;
    if rs[n].hit && rs[n].record.t < c {
      forall j | 0 <= j < n && rs[j].hit ensures rs[n].record.t < rs[j].record.t {
        if j < k {
          assert c < rs[j].record.t;
        } else if j > k {
          assert c <= rs[j].record.t;
        }
      }
    }
  }

  /** The kept distance never increases, and it is at most the distance of
      every reported hit: the minimum of the incoming and the reported hits. */
  lemma {:induction false} ClosestIsMinimum(best: HitRecord, rs: seq<Report>)
    ensures Closest(best, rs).t <= best.t
    ensures forall k :: 0 <= k < |rs| && rs[k].hit ==> Closest(best, rs).t <= rs[k].record.t
    ensures Closest(best, rs) == best || exists k :: 0 <= k < |rs| && rs[k].hit && Closest(best, rs) == rs[k].record
  {
    if exists k :: 0 <= k < |rs| && rs[k].hit && rs[k].record.t < best.t {
      ClosestIsFirstNearest(best, rs);
      var k :| Wins(best, rs, k) && Closest(best, rs) == rs[k].record;
      assert forall j :: 0 <= j < |rs| && rs[j].hit ==> rs[k].record.t <= rs[j].record.t by {
        forall j | 0 <= j < |rs| && rs[j].hit ensures rs[k].record.t <= rs[j].record.t {
          if j < k {} else if j > k {}
        }
      }
    } else {
      ClosestKeepsIncoming(best, rs);
    }
  }

  /** Offering two batches of reports one after the other is offering their
      concatenation: the three loops compose into one fold. */
  lemma {:induction false} ClosestAppend(best: HitRecord, xs: seq<Report>, ys: seq<Report>)
    ensures Closest(best, xs + ys) == Closest(Closest(best, xs), ys)
    decreases |ys|
  {
    if ys == [] {
      assert xs + ys == xs;
    } else {
      var n := |ys| - 1;
      assert (xs + ys)[..|xs + ys| - 1] == xs + ys[..n];
      ClosestAppend(best, xs, ys[..n]);
    }
  }

  /** Starting from a fresh record, the closest hit names a material of the
      scene when the tests report only existing materials for its primitives. */
  lemma ClosestHitHasValidMaterial(w: World, num: Numerics, ray: Ray)
    requires |w.materials| > 0
    requires ReportsValidMaterials(num, w)
    ensures ClosestHit(w, num, ray, NoHit).materialIndex as int < |w.materials|
  {
    var n := |w.materials|;
    var s := SweepOf(num.hitSphere, true, num.normalized, w.spheres, ray, NoHit);
    var p := SweepOf(num.hitPlane, false, num.normalized, w.planes, ray, s.temp);
    var m := SweepOf(num.hitMesh, false, num.normalized, w.meshes, ray, p.temp);
    SweepReportsValidMaterials(num.hitSphere, true, num.normalized, w.spheres, ray, NoHit, n);
    SweepReportsValidMaterials(num.hitPlane, false, num.normalized, w.planes, ray, s.temp, n);
    SweepReportsValidMaterials(num.hitMesh, false, num.normalized, w.meshes, ray, p.temp, n);
    HitsNameMaterialsBelowAppend(s.reports, p.reports, n);
    HitsNameMaterialsBelowAppend(s.reports + p.reports, m.reports, n);
    var rs := AllReports(w, num, ray);
    assert rs == s.reports + p.reports + m.reports;
    ClosestIsMinimum(NoHit, rs);
  }
}
