/** The work split of the futures-based render: `numPixels` flat pixel
    indices are cut into `numCores` contiguous ranges whose sizes differ by
    at most one, the larger ones first. */
module Partition {

  /** The pixel range `[start, start + size)` of one task. */
  datatype Task = Task(start: nat, size: nat)

  function End(t: Task): nat {
    t.start + t.size
  }

  predicate Contains(t: Task, p: int) {
    t.start <= p < End(t)
  }

  /** The tasks are laid end to end, the first starting at `from` and the
      last ending at `to`. */
  predicate Chain(tasks: seq<Task>, from: nat, to: nat) {
    && (tasks == [] ==> from == to)
    && (tasks != [] ==> tasks[0].start == from && End(tasks[|tasks| - 1]) == to)
    && (forall k :: 0 <= k < |tasks| - 1 ==> tasks[k + 1].start == End(tasks[k]))
  }

  function TotalSize(tasks: seq<Task>): nat
    decreases |tasks|
  {
    if tasks == [] then 0 else TotalSize(tasks[..|tasks| - 1]) + tasks[|tasks| - 1].size
  }

  /** Every task has `share` pixels, plus one for the first `extra` tasks. */
  predicate Balanced(tasks: seq<Task>, share: nat, extra: nat) {
    forall k :: 0 <= k < |tasks| ==> tasks[k].size == share + (if k < extra then 1 else 0)
  }

  /** The task-creation loop: each task gets `numPixels / numCores` pixels,
      one more while unassigned pixels remain, and starts where the previous
      one ended. */
  method PlanTasks(numPixels: nat, numCores: nat) returns (tasks: seq<Task>)
    requires numCores > 0
    ensures |tasks| == numCores
    ensures Balanced(tasks, numPixels / numCores, numPixels % numCores)
    ensures Chain(tasks, 0, numPixels)
  {
    var numPixelsPerTask := numPixels / numCores;
    var numUnassignedPixels: nat := numPixels % numCores;
    var currPixelIndex: nat := 0;
    ghost var extra := numUnassignedPixels;
    SharesSplit(numPixels, numCores);
    tasks := [];
    for coreId := 0 to numCores
      invariant |tasks| == coreId
      invariant Balanced(tasks, numPixelsPerTask, extra)
      invariant Chain(tasks, 0, currPixelIndex)
      invariant numUnassignedPixels == if coreId <= extra then extra - coreId else 0
      invariant currPixelIndex + Shares(numCores - coreId, numPixelsPerTask) + numUnassignedPixels == numPixels
    {
      assert Shares(numCores - coreId, numPixelsPerTask) == Shares(numCores - (coreId + 1), numPixelsPerTask) + numPixelsPerTask;
      var taskSize := numPixelsPerTask;
      if numUnassignedPixels > 0 {
        taskSize := taskSize + 1;
        numUnassignedPixels := numUnassignedPixels - 1;
      }
      ChainSnoc(tasks, 0, currPixelIndex, taskSize);
      tasks := tasks + [Task(currPixelIndex, taskSize)];
      currPixelIndex := currPixelIndex + taskSize;
    }
  }

  lemma ChainSnoc(tasks: seq<Task>, from: nat, to: nat, size: nat)
    requires Chain(tasks, from, to)
    ensures Chain(tasks + [Task(to, size)], from, to + size)
  {
  }

  /** `n` shares of `q` pixels each, kept apart from `*` so that the loop
      proof stays linear. */
  function Shares(n: nat, q: nat): nat {
    if n == 0 then 0 else Shares(n - 1, q) + q
  }

  /** `n` pixels are `c` shares of `n / c` and `n % c` left over. */
  lemma SharesSplit(n: nat, c: nat)
    requires c > 0
    ensures n == Shares(c, n / c) + n % c && n % c < c
  {
    SharesAreProduct(c, n / c);
  }

  lemma {:induction false} SharesAreProduct(n: nat, q: nat)
    ensures Shares(n, q) == n * q
  {
    if n > 0 {
      SharesAreProduct(n - 1, q);
    }
  }

  /** Laid end to end, the task sizes add up to the length of the range. */
  lemma {:induction false} ChainSize(tasks: seq<Task>, from: nat, to: nat)
    requires Chain(tasks, from, to)
    ensures from + TotalSize(tasks) == to
    decreases |tasks|
  {
    if tasks != [] {
      var n := |tasks| - 1;
      if n == 0 {
        assert TotalSize(tasks[..0]) == 0;
      } else {
        var pre := tasks[..n];
        assert Chain(pre, from, End(tasks[n - 1]));
        ChainSize(pre, from, End(tasks[n - 1]));
      }
    }
  }

  /** Tasks laid end to end are pairwise disjoint: an earlier task ends no
      later than a later one starts. */
  lemma {:induction false} ChainOrdered(tasks: seq<Task>, from: nat, to: nat, k: int, l: int)
    requires Chain(tasks, from, to)
    requires 0 <= k < l < |tasks|
    ensures End(tasks[k]) <= tasks[l].start
    decreases l - k
  {
    if k + 1 < l {
      ChainOrdered(tasks, from, to, k + 1, l);
    }
  }

  /** Every index of `[from, to)` lies in exactly one task, and no task
      reaches outside `[from, to)`. */
  lemma {:induction false} ChainCoversOnce(tasks: seq<Task>, from: nat, to: nat, p: int)
    requires Chain(tasks, from, to)
    ensures from <= p < to <==> exists k :: 0 <= k < |tasks| && Contains(tasks[k], p)
    ensures forall k, l :: 0 <= k < |tasks| && 0 <= l < |tasks| && Contains(tasks[k], p) && Contains(tasks[l], p) ==> k == l
    decreases |tasks|
  {
    forall k, l | 0 <= k < |tasks| && 0 <= l < |tasks| && Contains(tasks[k], p) && Contains(tasks[l], p)
      ensures k == l
    {
      if k < l {
        ChainOrdered(tasks, from, to, k, l);
      } else if l < k {
        ChainOrdered(tasks, from, to, l, k);
      }
    }
    if tasks != [] {
      var n := |tasks| - 1;
      var pre := tasks[..n];
      var mid := tasks[n].start;
      assert Chain(pre, from, mid);
      ChainCoversOnce(pre, from, mid, p);
      ChainSize(pre, from, mid);
      if exists k :: 0 <= k < |pre| && Contains(pre[k], p) {
        var k :| 0 <= k < |pre| && Contains(pre[k], p);
        assert Contains(tasks[k], p);
      }
      if exists k :: 0 <= k < |tasks| && Contains(tasks[k], p) {
        var k :| 0 <= k < |tasks| && Contains(tasks[k], p);
        if k < n {
          assert Contains(pre[k], p);
        }
      }
    }
  }
}
