/** Geophagia's Voronoi generator: random centroids with random elevations, each cell of
    the terrain taking the elevation of the centroid its scan settles on. */
module Voronoi {
  import opened Common
  import opened Heightmap

  const DEFAULT_CENTROIDS: i32 := 15
  /** Elevations are drawn in [0, 256). */
  const ELEVATION_RANGE: real := 256.0

  /** A centroid is stored as (x, elevation, z). Centroid k uses draws 3k, 3k + 1, 3k + 2,
      scaled by the width, the depth and 256. */
  function CentroidOf(draws: seq<real>, k: nat, width: nat, depth: nat): (c: Vec3)
    requires 3 * k + 2 < |draws|
  {
    Vec3(draws[3 * k] * width as real, draws[3 * k + 2] * ELEVATION_RANGE, draws[3 * k + 1] * depth as real)
  }

  /** The n centroids of the generator, in creation order. */
  function Centroids(draws: seq<real>, n: nat, width: nat, depth: nat): (cs: seq<Vec3>)
    requires 3 * n <= |draws|
    ensures |cs| == n
  {
    seq(n, k requires 0 <= k < n => CentroidOf(draws, k, width, depth))
  }

  /** With draws in [0, 1), centroids lie over the terrain and elevations in [0, 256). */
  lemma CentroidInsideTerrain(draws: seq<real>, k: nat, width: nat, depth: nat)
    requires 3 * k + 2 < |draws|
    requires forall i :: 0 <= i < |draws| ==> 0.0 <= draws[i] < 1.0
    ensures var c := CentroidOf(draws, k, width, depth);
      0.0 <= c.x <= width as real && 0.0 <= c.z <= depth as real && 0.0 <= c.y < ELEVATION_RANGE
    ensures width > 0 ==> CentroidOf(draws, k, width, depth).x < width as real
    ensures depth > 0 ==> CentroidOf(draws, k, width, depth).z < depth as real
  {
    var a, b, e := draws[3 * k], draws[3 * k + 1], draws[3 * k + 2];
    assert 0.0 <= a < 1.0 && 0.0 <= b < 1.0 && 0.0 <= e < 1.0;
    ScaleBelow(a, width as real);
    ScaleBelow(b, depth as real);
    ScaleBelow(e, ELEVATION_RANGE);
    var c := CentroidOf(draws, k, width, depth);
    assert c.x == a * width as real && c.z == b * depth as real && c.y == e * ELEVATION_RANGE;
    assert width > 0 ==> width as real > 0.0 && c.x < width as real;
    assert depth > 0 ==> depth as real > 0.0 && c.z < depth as real;
  }

  lemma ScaleBelow(a: real, s: real)
    requires 0.0 <= a < 1.0 && 0.0 <= s
    ensures 0.0 <= a * s <= s
    ensures s > 0.0 ==> a * s < s
  {
  }

  /** Distance from a point of the grid to a centroid, through the length function. */
  function Distance(length: Vec2 -> real, p: Vec2, c: Vec3): real
  {
    length(Vec2(p.x - c.x, p.y - c.z))
  }

  /** The grid point of cell i: (i % width, i / width). */
  function CellPoint(width: nat, i: nat): Vec2
    requires width > 0
  {
    Vec2((i % width) as real, (i / width) as real)
  }

  /** The running minimum and the cell's height during the scan. */
  datatype Scan = Scan(minD: real, height: real)

  /** The scan as written, after centroids 1 .. j - 1: the minimum starts at centroid 0's
      distance from the origin and the height at 0; a centroid strictly nearer than the
      minimum replaces both. */
  function ScanAsWritten(cs: seq<Vec3>, p: Vec2, length: Vec2 -> real, j: nat): (s: Scan)
    requires 1 <= j <= |cs|
  {
    if j == 1 then Scan(Distance(length, Vec2(0.0, 0.0), cs[0]), 0.0)
    else
      var s := ScanAsWritten(cs, p, length, j - 1);
      var d := Distance(length, p, cs[j - 1]);
      if d < s.minD then Scan(d, cs[j - 1].y) else s
  }

  /** What the scan settles on: the minimum is the least of centroid 0's distance from the
      origin and the distances of centroids 1 .. j - 1. The height is that of the first of
      centroids 1 .. j - 1 at the minimum when it is strictly below the origin distance, and
      0 otherwise; centroid 0's elevation is never taken. */
  lemma {:induction false} ScanAsWrittenSettles(cs: seq<Vec3>, p: Vec2, length: Vec2 -> real, j: nat)
    requires 1 <= j <= |cs|
    ensures var s := ScanAsWritten(cs, p, length, j);
      s.minD <= Distance(length, Vec2(0.0, 0.0), cs[0])
      && (forall k :: 1 <= k < j ==> s.minD <= Distance(length, p, cs[k]))
    ensures var s := ScanAsWritten(cs, p, length, j);
      (s.height == 0.0 && s.minD == Distance(length, Vec2(0.0, 0.0), cs[0]))
      || (exists k :: 1 <= k < j && s.height == cs[k].y && s.minD == Distance(length, p, cs[k])
            && s.minD < Distance(length, Vec2(0.0, 0.0), cs[0])
            && forall i :: 1 <= i < k ==> Distance(length, p, cs[i]) > s.minD)
  {
    if j > 1 {
      ScanAsWrittenSettles(cs, p, length, j - 1);
      var s := ScanAsWritten(cs, p, length, j - 1);
      var d := Distance(length, p, cs[j - 1]);
      if d < s.minD {
        assert ScanAsWritten(cs, p, length, j).height == cs[j - 1].y;
      }
    }
  }

  /** The heights as written: the buffer holds width * depth cells, a uint32 product taken
      modulo 2^32, and cell i gets what the scan over all centroids settles on. */
  function FieldAsWritten(cs: seq<Vec3>, width: u32, depth: u32, length: Vec2 -> real): (hs: seq<real>)
    requires |cs| >= 1
    ensures |hs| == MulU32(width, depth)
  {
    seq(MulU32(width, depth), i requires 0 <= i < MulU32(width, depth) =>
      assert width > 0;
      ScanAsWritten(cs, CellPoint(width, i), length, |cs|).height)
  }

  /** Every height as written is 0 or the elevation of a centroid other than centroid 0;
      with a single centroid every height is 0. */
  lemma FieldAsWrittenHeights(cs: seq<Vec3>, width: u32, depth: u32, length: Vec2 -> real, i: nat)
    requires |cs| >= 1 && i < MulU32(width, depth)
    ensures var h := FieldAsWritten(cs, width, depth, length)[i];
      h == 0.0 || exists k :: 1 <= k < |cs| && h == cs[k].y
    ensures |cs| == 1 ==> FieldAsWritten(cs, width, depth, length)[i] == 0.0
  {
    assert width > 0;
    ScanAsWrittenSettles(cs, CellPoint(width, i), length, |cs|);
  }

  /** The scan as evidently intended, after centroids 0 .. j - 1: it starts from centroid 0
      measured from the cell itself, with centroid 0's elevation. */
  function ScanNearest(cs: seq<Vec3>, p: Vec2, length: Vec2 -> real, j: nat): (s: Scan)
    requires 1 <= j <= |cs|
  {
    if j == 1 then Scan(Distance(length, p, cs[0]), cs[0].y)
    else
      var s := ScanNearest(cs, p, length, j - 1);
      var d := Distance(length, p, cs[j - 1]);
      if d < s.minD then Scan(d, cs[j - 1].y) else s
  }

  /** The intended scan finds the nearest centroid: the minimum is the least distance over
      centroids 0 .. j - 1 and the height is the elevation of the first centroid at it. */
  lemma {:induction false} ScanNearestIsNearest(cs: seq<Vec3>, p: Vec2, length: Vec2 -> real, j: nat)
    requires 1 <= j <= |cs|
    ensures var s := ScanNearest(cs, p, length, j);
      forall k :: 0 <= k < j ==> s.minD <= Distance(length, p, cs[k])
    ensures var s := ScanNearest(cs, p, length, j);
      exists k :: 0 <= k < j && s.height == cs[k].y && s.minD == Distance(length, p, cs[k])
        && forall i :: 0 <= i < k ==> Distance(length, p, cs[i]) > s.minD
  {
    if j == 1 {
      assert ScanNearest(cs, p, length, j).height == cs[0].y;
    } else {
      ScanNearestIsNearest(cs, p, length, j - 1);
      var s := ScanNearest(cs, p, length, j - 1);
      var d := Distance(length, p, cs[j - 1]);
      if d < s.minD {
        assert ScanNearest(cs, p, length, j).height == cs[j - 1].y;
      }
    }
  }

  /** The intended heights: over the same width * depth (modulo 2^32) cells, cell i gets
      the elevation of its nearest centroid. */
  function NearestField(cs: seq<Vec3>, width: u32, depth: u32, length: Vec2 -> real): (hs: seq<real>)
    requires |cs| >= 1
    ensures |hs| == MulU32(width, depth)
  {
    seq(MulU32(width, depth), i requires 0 <= i < MulU32(width, depth) =>
      assert width > 0;
      ScanNearest(cs, CellPoint(width, i), length, |cs|).height)
  }

  /** Each intended height is the elevation of a centroid nearest to its cell. */
  lemma NearestFieldIsNearest(cs: seq<Vec3>, width: u32, depth: u32, length: Vec2 -> real, i: nat)
    requires |cs| >= 1 && i < MulU32(width, depth)
    ensures width > 0
    ensures exists k ::
      && 0 <= k < |cs|
      && NearestField(cs, width, depth, length)[i] == cs[k].y
      && (forall m :: 0 <= m < |cs| ==>
            Distance(length, CellPoint(width, i), cs[k]) <= Distance(length, CellPoint(width, i), cs[m]))
  {
    assert width > 0;
    ScanNearestIsNearest(cs, CellPoint(width, i), length, |cs|);
  }

  /** With a single centroid of non-zero elevation every height as written is 0, while the
      intended field takes that elevation everywhere. */
  lemma SingleCentroidDiscrepancy(c: Vec3, width: u32, depth: u32, length: Vec2 -> real, i: nat)
    requires c.y != 0.0 && i < MulU32(width, depth)
    ensures FieldAsWritten([c], width, depth, length)[i] == 0.0
    ensures NearestField([c], width, depth, length)[i] == c.y
    ensures FieldAsWritten([c], width, depth, length) != NearestField([c], width, depth, length)
  {
    FieldAsWrittenHeights([c], width, depth, length, i);
  }

  /** VoronoiGenerator: the terrain it generates for and the number of centroids. */
  class VoronoiGenerator {
    const terrain: Terrain?
    var numCentroids: i32

    /** VoronoiGenerator() and VoronoiGenerator(terrain): 15 centroids. */
    constructor (terrain: Terrain?)
      ensures this.terrain == terrain && numCentroids == DEFAULT_CENTROIDS
    {
      this.terrain := terrain;
      numCentroids := DEFAULT_CENTROIDS;
    }

    /** The centroid loop: n centroids, three draws each, appended in order. */
    static method MakeCentroids(draws: seq<real>, n: nat, width: nat, depth: nat) returns (centroids: seq<Vec3>)
      requires 3 * n <= |draws|
      ensures |centroids| == n
      ensures forall k :: 0 <= k < n ==> centroids[k] == CentroidOf(draws, k, width, depth)
    {
      centroids := [];
      var i := 0;
      while i < n
        invariant 0 <= i <= n && |centroids| == i
        invariant forall k :: 0 <= k < i ==> centroids[k] == CentroidOf(draws, k, width, depth)
      {
        var x := draws[3 * i] * width as real;
        var z := draws[3 * i + 1] * depth as real;
        var elevation := draws[3 * i + 2] * ELEVATION_RANGE;
        centroids := centroids + [Vec3(x, elevation, z)];
        i := i + 1;
      }
    }

    /** The centroid loop of one cell: from the running minimum and height after centroid 0,
        each later centroid strictly nearer than the minimum replaces both. Started as the
        source starts it, it ends where ScanAsWritten settles; started from centroid 0
        measured from the cell, it ends where ScanNearest does. */
    static method ScanCentroids(centroids: seq<Vec3>, current: Vec2, length: Vec2 -> real, minD0: real, h0: real)
      returns (h: real)
      requires |centroids| >= 1
      ensures ScanAsWritten(centroids, current, length, 1) == Scan(minD0, h0) ==>
        h == ScanAsWritten(centroids, current, length, |centroids|).height
      ensures ScanNearest(centroids, current, length, 1) == Scan(minD0, h0) ==>
        h == ScanNearest(centroids, current, length, |centroids|).height
    {
      var minD := minD0;
      h := h0;
      var j := 1;
      while j < |centroids|
        invariant 1 <= j <= |centroids|
        invariant ScanAsWritten(centroids, current, length, 1) == Scan(minD0, h0) ==>
          ScanAsWritten(centroids, current, length, j) == Scan(minD, h)
        invariant ScanNearest(centroids, current, length, 1) == Scan(minD0, h0) ==>
          ScanNearest(centroids, current, length, j) == Scan(minD, h)
      {
        var c := centroids[j];
        var d := length(Vec2(current.x - c.x, current.y - c.z));
        if d < minD {
          minD := d;
          h := c.y;
        }
        j := j + 1;
      }
    }

    /** The cell loop: each height starts at 0 and the scan over centroids 1 .. n - 1
        overwrites it whenever a centroid is strictly nearer than the running minimum. */
    static method ScanCells(centroids: seq<Vec3>, width: u32, depth: u32, length: Vec2 -> real)
      returns (heights: seq<real>)
      requires |centroids| >= 1
      ensures heights == FieldAsWritten(centroids, width, depth, length)
    {
      var n := MulU32(width, depth);
      var buffer := new real[n](_ => 0.0);
      var i := 0;
      while i < n
        invariant 0 <= i <= n
        invariant forall k :: 0 <= k < i ==> buffer[k] == FieldAsWritten(centroids, width, depth, length)[k]
        invariant forall k :: i <= k < n ==> buffer[k] == 0.0
      {
        assert width > 0;
        var current := Vec2((i % width) as real, (i / width) as real);
        var minD := length(Vec2(0.0 - centroids[0].x, 0.0 - centroids[0].z));
        buffer[i] := ScanCentroids(centroids, current, length, minD, buffer[i]);
        i := i + 1;
      }
      heights := buffer[..];
    }

    /** The cell loop as evidently intended: the running minimum starts at centroid 0's
        distance from the cell and the height at centroid 0's elevation. */
    static method ScanCellsNearest(centroids: seq<Vec3>, width: u32, depth: u32, length: Vec2 -> real)
      returns (heights: seq<real>)
      requires |centroids| >= 1
      ensures heights == NearestField(centroids, width, depth, length)
    {
      var n := MulU32(width, depth);
      var buffer := new real[n];
      ghost var field := NearestField(centroids, width, depth, length);
      var i := 0;
      while i < n
        invariant 0 <= i <= n
        invariant forall k :: 0 <= k < i ==> buffer[k] == field[k]
      {
        assert width > 0;
        var current := Vec2((i % width) as real, (i / width) as real);
        var minD := length(Vec2(current.x - centroids[0].x, current.y - centroids[0].z));
        buffer[i] := ScanCentroids(centroids, current, length, minD, centroids[0].y);
        assert buffer[i] == field[i];
        i := i + 1;
      }
      heights := buffer[..];
    }

    /** _generateHeightmap with the random stream given as draws and glm::length as the
        length function. Without a terrain, or with fewer than one centroid, nothing is
        generated; otherwise the heights for the terrain's grid, as the cell loop as written
        computes them, are returned for the terrain to load. */
    method GenerateHeightmap(draws: seq<real>, length: Vec2 -> real) returns (heights: Option<seq<real>>)
      requires terrain != null && numCentroids >= 1 ==> 3 * numCentroids <= |draws|
      ensures terrain == null || numCentroids < 1 <==> heights == None
      ensures heights.Some? ==>
        terrain != null && numCentroids >= 1
        && heights.value == FieldAsWritten(
             Centroids(draws, numCentroids, terrain.width, terrain.depth), terrain.width, terrain.depth, length)
    {
      if terrain == null {
        return None;
      }
      if numCentroids < 1 {
        return None;
      }
      var width := terrain.width;
      var depth := terrain.depth;
      var centroids := MakeCentroids(draws, numCentroids, width, depth);
      assert centroids == Centroids(draws, numCentroids, width, depth);
      var field := ScanCells(centroids, width, depth, length);
      heights := Some(field);
    }
  }
}
