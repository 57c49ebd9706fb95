/**
 * The block-update snapshot a served request sends (AntiGhostPlugin.java,
 * `onPluginMessageReceived`): the offsets of a cube of half-width `radius`
 * around the player's block, layer `y` outermost, then `x`, then `z`.
 *
 * A layer is skipped when its RELATIVE offset `y` (not the absolute height of
 * the block) lies outside the world's `[minHeight, maxHeight)`; the model keeps
 * that comparison as the code makes it.
 */
module Snapshots {

  /** A position relative to the player's block; its block state is not modelled. */
  datatype Offset = Offset(x: int, y: int, z: int)

  /** The layer test of the outer loop: the layer is kept unless `y < min || y >= max`. */
  predicate LayerKept(y: int, minHeight: int, maxHeight: int): (kept: bool)
    ensures kept <==> minHeight <= y < maxHeight
  {
    !(y < minHeight || y >= maxHeight)
  }

  /** `part(lo) + part(lo + 1) + ... + part(hi - 1)`: what a loop counting from `lo` to `hi` appends. */
  function Gather(lo: int, hi: int, part: int -> seq<Offset>): seq<Offset>
    decreases hi - lo
  {
    if hi <= lo then [] else Gather(lo, hi - 1, part) + part(hi - 1)
  }

  /** The innermost loop body for column `(x, z)` of layer `y`: one offset. */
  function Cell(y: int, x: int): int -> seq<Offset>
  {
    z => [Offset(x, y, z)]
  }

  /** The innermost loop run to completion: row `x` of layer `y`. */
  function Row(r: int, y: int, x: int): seq<Offset>
  {
    Gather(-r, r + 1, Cell(y, x))
  }

  function Rows(r: int, y: int): int -> seq<Offset>
  {
    x => Row(r, y, x)
  }

  /** The middle loop run to completion: the whole layer `y`. */
  function Plane(r: int, y: int): seq<Offset>
  {
    Gather(-r, r + 1, Rows(r, y))
  }

  /** One outer-loop iteration: layer `y` if it passes the height test, else nothing. */
  function Layers(r: int, minHeight: int, maxHeight: int): int -> seq<Offset>
  {
    y => if LayerKept(y, minHeight, maxHeight) then Plane(r, y) else []
  }

  /** The offsets a served request sends, in the order the loops produce them. */
  function Snapshot(r: int, minHeight: int, maxHeight: int): seq<Offset>
  {
    Gather(-r, r + 1, Layers(r, minHeight, maxHeight))
  }

  /** The cube `[-r, r]^3`. */
  predicate InCube(o: Offset, r: int)
  {
    -r <= o.x <= r && -r <= o.y <= r && -r <= o.z <= r
  }

  /** Traversal order: `y` first, then `x`, then `z`, each ascending. */
  predicate Precedes(a: Offset, b: Offset)
  {
    a.y < b.y || (a.y == b.y && (a.x < b.x || (a.x == b.x && a.z < b.z)))
  }

  predicate StrictlyOrdered(s: seq<Offset>)
  {
    forall i, j :: 0 <= i < j < |s| ==> Precedes(s[i], s[j])
  }

  /** The number of integers in both `[lo, hi)` and `[minHeight, maxHeight)`. */
  function Overlap(lo: int, hi: int, minHeight: int, maxHeight: int): nat
  {
    var a := if lo < minHeight then minHeight else lo;
    var b := if hi < maxHeight then hi else maxHeight;
    if a < b then b - a else 0
  }

  /** The triple loop of the request handler, appending one offset per innermost step. */
  method BuildSnapshot(radius: int, minHeight: int, maxHeight: int) returns (states: seq<Offset>)
    requires 0 <= radius
    ensures states == Snapshot(radius, minHeight, maxHeight)
  {
    states := [];
    for y := -radius to radius + 1
      invariant states == Gather(-radius, y, Layers(radius, minHeight, maxHeight))
    {
      if y < minHeight || y >= maxHeight {
        continue;
      }
      states := AppendLayer(states, radius, y);
    }
  }

  /** The middle and inner loops for one kept layer `y`. */
  method AppendLayer(states: seq<Offset>, radius: int, y: int) returns (out: seq<Offset>)
    requires 0 <= radius
    ensures out == states + Plane(radius, y)
  {
    out := states;
    for x := -radius to radius + 1
      invariant out == states + Gather(-radius, x, Rows(radius, y))
    {
      ghost var rowStart := out;
      for z := -radius to radius + 1
        invariant out == rowStart + Gather(-radius, z, Cell(y, x))
      {
        out := out + [Offset(x, y, z)];
      }
      assert out == rowStart + Row(radius, y, x);
    }
  }

  // Generic facts about Gather, stated for an arbitrary loop body `part`.

  /** `k * a + a == (k + 1) * a`, kept apart so the inductions stay linear. */
  lemma MulSucc(k: int, a: int)
    ensures k * a + a == (k + 1) * a
  {
  }

  lemma {:induction false} GatherCount(lo: int, hi: int, part: int -> seq<Offset>, n: nat, minHeight: int, maxHeight: int)
    requires lo <= hi
    requires forall i :: lo <= i < hi ==> |part(i)| == if LayerKept(i, minHeight, maxHeight) then n else 0
    ensures |Gather(lo, hi, part)| == Overlap(lo, hi, minHeight, maxHeight) * n
    decreases hi - lo
  {
    if hi > lo {
      GatherCount(lo, hi - 1, part, n, minHeight, maxHeight);
      var k := Overlap(lo, hi - 1, minHeight, maxHeight);
      if LayerKept(hi - 1, minHeight, maxHeight) {
        assert Overlap(lo, hi, minHeight, maxHeight) == k + 1;
        MulSucc(k, n);
      } else {
        assert Overlap(lo, hi, minHeight, maxHeight) == k;
      }
    }
  }

  lemma {:induction false} GatherSize(lo: int, hi: int, part: int -> seq<Offset>, n: nat)
    requires lo <= hi
    requires forall i :: lo <= i < hi ==> |part(i)| == n
    ensures |Gather(lo, hi, part)| == (hi - lo) * n
    decreases hi - lo
  {
    if hi > lo {
      GatherSize(lo, hi - 1, part, n);
      MulSucc(hi - 1 - lo, n);
    }
  }

  /** Every element of the gathered sequence comes from some `part(i)` with `lo <= i < hi`, and vice versa. */
  lemma {:induction false} GatherMembers(lo: int, hi: int, part: int -> seq<Offset>)
    ensures forall o :: o in Gather(lo, hi, part) ==> exists i :: lo <= i < hi && o in part(i)
    ensures forall i, o :: lo <= i < hi && o in part(i) ==> o in Gather(lo, hi, part)
    decreases hi - lo
  {
    if hi > lo {
      GatherMembers(lo, hi - 1, part);
    }
  }

  /** Ordered parts, each wholly before the later ones, gather into an ordered sequence. */
  lemma {:induction false} GatherOrdered(lo: int, hi: int, part: int -> seq<Offset>)
    requires forall i :: lo <= i < hi ==> StrictlyOrdered(part(i))
    requires forall i, j, a, b :: lo <= i < j < hi && a in part(i) && b in part(j) ==> Precedes(a, b)
    ensures StrictlyOrdered(Gather(lo, hi, part))
    decreases hi - lo
  {
    if hi > lo {
      GatherOrdered(lo, hi - 1, part);
      GatherMembers(lo, hi - 1, part);
      var g := Gather(lo, hi - 1, part);
      var p := part(hi - 1);
      forall i, j | 0 <= i < |g| && 0 <= j < |p| ensures Precedes(g[i], p[j]) {
        assert g[i] in g && p[j] in p;
      }
      OrderedConcat(g, p);
    }
  }

  /** When `part(i)` holds exactly the offsets with key `i` passing `keep`, the gathered sequence holds exactly those with a key in `[lo, hi)`. */
  lemma GatherMembersByKey(lo: int, hi: int, part: int -> seq<Offset>, key: Offset -> int, keep: Offset -> bool)
    requires forall i, o :: lo <= i < hi ==> (o in part(i) <==> key(o) == i && keep(o))
    ensures forall o :: o in Gather(lo, hi, part) <==> lo <= key(o) < hi && keep(o)
  {
    GatherMembers(lo, hi, part);
    forall o | lo <= key(o) < hi && keep(o) ensures o in Gather(lo, hi, part) {
      assert o in part(key(o));
    }
  }

  /** Layers each confined to their own height `i` and ordered within gather into an ordered sequence. */
  lemma GatherOrderedByHeight(lo: int, hi: int, part: int -> seq<Offset>)
    requires forall i :: lo <= i < hi ==> (forall o :: o in part(i) ==> o.y == i) && StrictlyOrdered(part(i))
    ensures StrictlyOrdered(Gather(lo, hi, part))
  {
    GatherOrdered(lo, hi, part);
  }

  /** Rows of one layer `y`, each confined to its own `x` and ordered within, gather into an ordered sequence. */
  lemma GatherOrderedByRow(lo: int, hi: int, y: int, part: int -> seq<Offset>)
    requires forall i :: lo <= i < hi ==> (forall o :: o in part(i) ==> o.x == i && o.y == y) && StrictlyOrdered(part(i))
    ensures StrictlyOrdered(Gather(lo, hi, part))
  {
    GatherOrdered(lo, hi, part);
  }

  /** Two ordered runs, the first wholly before the second, make an ordered sequence. */
  lemma OrderedConcat(a: seq<Offset>, b: seq<Offset>)
    requires StrictlyOrdered(a) && StrictlyOrdered(b)
    requires forall i, j :: 0 <= i < |a| && 0 <= j < |b| ==> Precedes(a[i], b[j])
    ensures StrictlyOrdered(a + b)
  {
    forall i, j | 0 <= i < j < |a + b| ensures Precedes((a + b)[i], (a + b)[j]) {
      if j < |a| {
      } else if i >= |a| {
        assert (a + b)[i] == b[i - |a|] && (a + b)[j] == b[j - |a|];
      }
    }
  }

  // The three loops, one at a time.

  /** A row holds the `2r+1` offsets `(x, y, z)` with `-r <= z <= r`, by ascending `z`. */
  lemma RowSize(r: int, y: int, x: int)
    requires 0 <= r
    ensures |Row(r, y, x)| == 2 * r + 1
  {
    GatherSize(-r, r + 1, Cell(y, x), 1);
  }

  lemma RowMembers(r: int, y: int, x: int)
    ensures forall o :: o in Row(r, y, x) <==> o.x == x && o.y == y && -r <= o.z <= r
  {
    var cell := Cell(y, x);
    GatherMembers(-r, r + 1, cell);
    forall o: Offset | o.x == x && o.y == y && -r <= o.z <= r ensures o in Row(r, y, x) {
      assert o in cell(o.z);
    }
  }

  lemma RowOrdered(r: int, y: int, x: int)
    ensures StrictlyOrdered(Row(r, y, x))
  {
    GatherOrdered(-r, r + 1, Cell(y, x));
  }

  /** A layer holds the `(2r+1)^2` offsets of height `y` in the cube, by ascending `x` then `z`. */
  lemma PlaneSize(r: int, y: int)
    requires 0 <= r
    ensures |Plane(r, y)| == (2 * r + 1) * (2 * r + 1)
  {
    var rows := Rows(r, y);
    forall x ensures |rows(x)| == 2 * r + 1 {
      RowSize(r, y, x);
    }
    GatherSize(-r, r + 1, rows, 2 * r + 1);
  }

  lemma PlaneMembers(r: int, y: int)
    ensures forall o :: o in Plane(r, y) <==> o.y == y && -r <= o.x <= r && -r <= o.z <= r
  {
    var rows := Rows(r, y);
    var column := (o: Offset) => o.x;
    var keep := (o: Offset) => o.y == y && -r <= o.z <= r;
    forall x, o | -r <= x < r + 1 ensures o in rows(x) <==> column(o) == x && keep(o) {
      RowMembers(r, y, x);
    }
    GatherMembersByKey(-r, r + 1, rows, column, keep);
    forall o ensures o in Plane(r, y) <==> o.y == y && -r <= o.x <= r && -r <= o.z <= r {
      assert o in Plane(r, y) <==> -r <= column(o) < r + 1 && keep(o);
    }
  }

  lemma PlaneOrdered(r: int, y: int)
    ensures StrictlyOrdered(Plane(r, y))
  {
    var rows := Rows(r, y);
    forall x ensures (forall o :: o in rows(x) ==> o.x == x && o.y == y) && StrictlyOrdered(rows(x)) {
      RowMembers(r, y, x);
      RowOrdered(r, y, x);
    }
    GatherOrderedByRow(-r, r + 1, y, rows);
  }

  /**
   * The snapshot holds `(2r+1)^2` offsets per kept layer: its size is `(2r+1)^2`
   * times the number of `y` in `[-r, r]` with `minHeight <= y < maxHeight`.
   */
  lemma SnapshotSize(r: int, minHeight: int, maxHeight: int)
    requires 0 <= r
    ensures |Snapshot(r, minHeight, maxHeight)| == Overlap(-r, r + 1, minHeight, maxHeight) * ((2 * r + 1) * (2 * r + 1))
  {
    var layers := Layers(r, minHeight, maxHeight);
    forall y ensures |layers(y)| == if LayerKept(y, minHeight, maxHeight) then (2 * r + 1) * (2 * r + 1) else 0 {
      PlaneSize(r, y);
    }
    GatherCount(-r, r + 1, layers, (2 * r + 1) * (2 * r + 1), minHeight, maxHeight);
  }

  /**
   * The snapshot never outgrows the list capacity `(2r+1)^3` the handler
   * allocates, and fills it exactly when every layer offset is in bounds.
   */
  lemma SnapshotWithinCapacity(r: int, minHeight: int, maxHeight: int)
    requires 0 <= r
    ensures |Snapshot(r, minHeight, maxHeight)| <= (2 * r + 1) * (2 * r + 1) * (2 * r + 1)
    ensures |Snapshot(r, minHeight, maxHeight)| == (2 * r + 1) * (2 * r + 1) * (2 * r + 1) <==>
      minHeight <= -r && r < maxHeight
  {
    SnapshotSize(r, minHeight, maxHeight);
    var d := 2 * r + 1;
    var k := Overlap(-r, r + 1, minHeight, maxHeight);
    MulMonotonic(d * d, k, d);
    if k < d {
      MulStrict(d * d, k, d);
      OverlapFull(-r, r + 1, minHeight, maxHeight);
    }
  }

  lemma MulMonotonic(a: nat, b: int, c: int)
    requires b <= c
    ensures b * a <= c * a && a * c == c * a
  {
  }

  lemma MulStrict(a: int, b: int, c: int)
    requires 0 < a && b < c
    ensures b * a < c * a
  {
  }

  /** The overlap covers all of `[lo, hi)` exactly when `[minHeight, maxHeight)` contains it. */
  lemma OverlapFull(lo: int, hi: int, minHeight: int, maxHeight: int)
    requires lo < hi
    ensures Overlap(lo, hi, minHeight, maxHeight) == hi - lo <==> minHeight <= lo && hi <= maxHeight
  {
  }

  /** With radius 0 only the player's own block is sent, and only if offset 0 passes the layer test. */
  lemma SnapshotRadiusZero(minHeight: int, maxHeight: int)
    ensures Snapshot(0, minHeight, maxHeight) ==
      if minHeight <= 0 < maxHeight then [Offset(0, 0, 0)] else []
  {
    assert Row(0, 0, 0) == [Offset(0, 0, 0)];
    assert Plane(0, 0) == [Offset(0, 0, 0)];
  }

  /**
   * The snapshot holds exactly the cube offsets whose layer passes the test, each
   * once, in `y`, `x`, `z` order; these properties determine it completely.
   */
  lemma SnapshotContents(r: int, minHeight: int, maxHeight: int)
    ensures forall o :: o in Snapshot(r, minHeight, maxHeight) <==> InCube(o, r) && LayerKept(o.y, minHeight, maxHeight)
    ensures StrictlyOrdered(Snapshot(r, minHeight, maxHeight))
  {
    SnapshotMembers(r, minHeight, maxHeight);
    SnapshotOrdered(r, minHeight, maxHeight);
  }

  lemma SnapshotMembers(r: int, minHeight: int, maxHeight: int)
    ensures forall o :: o in Snapshot(r, minHeight, maxHeight) <==> InCube(o, r) && LayerKept(o.y, minHeight, maxHeight)
  {
    var layers := Layers(r, minHeight, maxHeight);
    var height := (o: Offset) => o.y;
    var keep := (o: Offset) => LayerKept(o.y, minHeight, maxHeight) && -r <= o.x <= r && -r <= o.z <= r;
    forall y, o | -r <= y < r + 1 ensures o in layers(y) <==> height(o) == y && keep(o) {
      LayerMembers(r, y, minHeight, maxHeight);
    }
    GatherMembersByKey(-r, r + 1, layers, height, keep);
    forall o ensures o in Snapshot(r, minHeight, maxHeight) <==> InCube(o, r) && LayerKept(o.y, minHeight, maxHeight) {
      assert o in Snapshot(r, minHeight, maxHeight) <==> -r <= height(o) < r + 1 && keep(o);
    }
  }

  /** One outer-loop iteration appends exactly the cube offsets at height `y`, or nothing when the layer is skipped. */
  lemma LayerMembers(r: int, y: int, minHeight: int, maxHeight: int)
    ensures forall o :: o in Layers(r, minHeight, maxHeight)(y) <==>
      o.y == y && LayerKept(o.y, minHeight, maxHeight) && -r <= o.x <= r && -r <= o.z <= r
  {
    if LayerKept(y, minHeight, maxHeight) {
      PlaneMembers(r, y);
    }
  }

  lemma SnapshotOrdered(r: int, minHeight: int, maxHeight: int)
    ensures StrictlyOrdered(Snapshot(r, minHeight, maxHeight))
  {
    var layers := Layers(r, minHeight, maxHeight);
    forall y ensures (forall o :: o in layers(y) ==> o.y == y) && StrictlyOrdered(layers(y)) {
      LayerFacts(r, y, minHeight, maxHeight);
    }
    GatherOrderedByHeight(-r, r + 1, layers);
  }

  /** One outer-loop iteration appends an ordered run of offsets at height `y`. */
  lemma LayerFacts(r: int, y: int, minHeight: int, maxHeight: int)
    ensures forall o :: o in Layers(r, minHeight, maxHeight)(y) ==> o.y == y
    ensures StrictlyOrdered(Layers(r, minHeight, maxHeight)(y))
  {
    if LayerKept(y, minHeight, maxHeight) {
      PlaneMembers(r, y);
      PlaneOrdered(r, y);
    }
  }
}
