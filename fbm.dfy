/** Geophagia's fractal Brownian motion generator: Perlin noise over a 256 x 256 lattice
    of random unit gradients, chosen through a shuffled 512-entry permutation table, summed
    over octaves of doubling frequency and halving amplitude. */
module Fbm {
  import opened Common
  import opened Heightmap

  const TABLE_SIZE: nat := 512
  const GRADIENTS: nat := 256
  const MIN_OCTAVES: int := 1
  const MAX_OCTAVES: int := 8
  const DEFAULT_OCTAVES: i32 := 3
  /** Frequency of the first octave. */
  const BASE_FREQUENCY: real := 0.01

  /** The octave count as the generator clamps it before use. */
  function ClampOctaves(n: i32): (r: i32)
    ensures MIN_OCTAVES <= r <= MAX_OCTAVES
    ensures n < MIN_OCTAVES ==> r == MIN_OCTAVES
    ensures n > MAX_OCTAVES ==> r == MAX_OCTAVES
    ensures MIN_OCTAVES <= n <= MAX_OCTAVES ==> r == n
  {
    if n < 1 then 1 else if n > 8 then 8 else n
  }

  /** The clamped count is the value of [1, 8] nearest to the requested one, and clamping
      twice changes nothing. */
  lemma ClampOctavesIsNearest(n: i32, k: int)
    requires MIN_OCTAVES <= k <= MAX_OCTAVES
    ensures var r := ClampOctaves(n);
      (if r <= n then n - r else r - n) <= (if k <= n then n - k else k - n)
    ensures ClampOctaves(ClampOctaves(n)) == ClampOctaves(n)
  {
  }

  /** v & 0xff for a two's-complement int: the residue of v modulo 256. */
  function Mask(v: int): (r: int)
    ensures 0 <= r < 256
    ensures (v - r) % 256 == 0
  {
    v % 256
  }

  /** _hash(x, y): the table entry at perm[x & 0xff] + (y & 0xff). */
  function Hash(perm: seq<byte>, x: int, y: int): (h: byte)
    requires |perm| == TABLE_SIZE
  {
    perm[perm[Mask(x)] + Mask(y)]
  }

  /** The inner lookup stays at or below 510, inside the 512-entry table, and the hash is a
      valid index into the 256 gradients. */
  lemma HashInBounds(perm: seq<byte>, x: int, y: int)
    requires |perm| == TABLE_SIZE
    ensures perm[Mask(x)] + Mask(y) <= 510 < TABLE_SIZE
    ensures 0 <= Hash(perm, x, y) < GRADIENTS
  {
  }

  /** The hash repeats every 256 lattice cells in both directions. */
  lemma HashIsPeriodic(perm: seq<byte>, x: int, y: int)
    requires |perm| == TABLE_SIZE
    ensures Hash(perm, x + 256, y) == Hash(perm, x, y)
    ensures Hash(perm, x, y + 256) == Hash(perm, x, y)
  {
    assert Mask(x + 256) == Mask(x) && Mask(y + 256) == Mask(y);
  }

  /** The lattice cell of a point, as _sample computes it: the masked floor of each
      coordinate, the masked next cell, and the offset of the point from the masked floor. */
  datatype Cell = Cell(x0: int, y0: int, x1: int, y1: int, u: real, v: real)

  function LatticeOf(p: Vec2): Cell
  {
    var x0 := Mask(p.x.Floor);
    var y0 := Mask(p.y.Floor);
    Cell(x0, y0, Mask(x0 + 1), Mask(y0 + 1), p.x - x0 as real, p.y - y0 as real)
  }

  /** The corners lie in [0, 255], the next corner wraps 255 to 0, and the offset lies in
      [0, 1) exactly when the coordinate lies in [0, 256), since the floor is masked before
      the subtraction. */
  lemma LatticeBounds(p: Vec2)
    ensures var c := LatticeOf(p);
      0 <= c.x0 < 256 && 0 <= c.y0 < 256 && 0 <= c.x1 < 256 && 0 <= c.y1 < 256
      && c.x1 == (if c.x0 == 255 then 0 else c.x0 + 1)
      && c.y1 == (if c.y0 == 255 then 0 else c.y0 + 1)
    ensures 0.0 <= LatticeOf(p).u < 1.0 <==> 0.0 <= p.x < 256.0
    ensures 0.0 <= LatticeOf(p).v < 1.0 <==> 0.0 <= p.y < 256.0
  {
    OffsetInUnit(p.x);
    OffsetInUnit(p.y);
  }

  lemma OffsetInUnit(t: real)
    ensures 0.0 <= t - Mask(t.Floor) as real < 1.0 <==> 0.0 <= t < 256.0
  {
    var f := t.Floor;
    var m := Mask(f);
    if 0.0 <= t < 256.0 {
      assert 0 <= f < 256;
      assert m == f;
    }
    if 0.0 <= t - m as real < 1.0 {
      assert f == m;
    }
  }

  /** fade(t) = t^2 (3 - 2t), the smoothstep curve. */
  function Fade(t: real): real
  {
    t * t * (3.0 - 2.0 * t)
  }

  /** lerp(p, q, t) = p (1 - t) + q t. */
  function Lerp(p: real, q: real, t: real): real
  {
    p * (1.0 - t) + q * t
  }

  /** The fade curve runs from 0 to 1 and is symmetric about t = 1/2. */
  lemma FadeEndpoints(t: real)
    ensures Fade(0.0) == 0.0 && Fade(1.0) == 1.0
    ensures Fade(1.0 - t) == 1.0 - Fade(t)
  {
    assert Fade(1.0 - t) == (1.0 - t) * (1.0 - t) * (1.0 + 2.0 * t);
  }

  /** lerp gives its first argument at 0 and its second at 1, and a constant between equal ends. */
  lemma LerpEndpoints(p: real, q: real, t: real)
    ensures Lerp(p, q, 0.0) == p && Lerp(p, q, 1.0) == q
    ensures Lerp(p, p, t) == p
  {
  }

  function Dot(a: Vec2, b: Vec2): real
  {
    a.x * b.x + a.y * b.y
  }

  /** _sample(point): the Perlin noise value at a point, from the gradients at the four
      corners of its lattice cell, smoothed by fade and blended by lerp. */
  function Sample(perm: seq<byte>, grads: seq<Vec2>, p: Vec2): real
    requires |perm| == TABLE_SIZE && |grads| == GRADIENTS
  {
    var c := LatticeOf(p);
    var g00 := grads[Hash(perm, c.x0, c.y0)];
    var g01 := grads[Hash(perm, c.x1, c.y0)];
    var g10 := grads[Hash(perm, c.x0, c.y1)];
    var g11 := grads[Hash(perm, c.x1, c.y1)];
    var a := Lerp(Dot(g00, Vec2(c.u, c.v)), Dot(g01, Vec2(c.u - 1.0, c.v)), Fade(c.u));
    var b := Lerp(Dot(g10, Vec2(c.u, c.v - 1.0)), Dot(g11, Vec2(c.u - 1.0, c.v - 1.0)), Fade(c.u));
    Lerp(a, b, Fade(c.v))
  }

  /** The noise vanishes at the lattice points of the first period. */
  lemma SampleVanishesOnLattice(perm: seq<byte>, grads: seq<Vec2>, i: int, j: int)
    requires |perm| == TABLE_SIZE && |grads| == GRADIENTS
    requires 0 <= i < 256 && 0 <= j < 256
    ensures Sample(perm, grads, Vec2(i as real, j as real)) == 0.0
  {
    var c := LatticeOf(Vec2(i as real, j as real));
    assert (i as real).Floor == i && (j as real).Floor == j;
    assert c.u == 0.0 && c.v == 0.0;
  }

  /** The running values of the octave loop for one cell. */
  datatype Octave = Octave(height: real, total: real, amplitude: real, frequency: real)

  /** One pass of the octave loop at cell (x, z): the noise at the scaled point, moved to
      [0, 1] and weighted by the amplitude, is added; the amplitude joins the total; then the
      amplitude halves and the frequency doubles. */
  function NextOctave(perm: seq<byte>, grads: seq<Vec2>, x: nat, z: nat, o: Octave): Octave
    requires |perm| == TABLE_SIZE && |grads| == GRADIENTS
  {
    var p := Vec2(x as real * o.frequency, z as real * o.frequency);
    Octave(o.height + o.amplitude * ((Sample(perm, grads, p) + 1.0) * 0.5),
           o.total + o.amplitude, o.amplitude * 0.5, o.frequency * 2.0)
  }

  /** The values after n octaves at cell (x, z). */
  function Octaves(perm: seq<byte>, grads: seq<Vec2>, x: nat, z: nat, n: nat): Octave
    requires |perm| == TABLE_SIZE && |grads| == GRADIENTS
  {
    if n == 0 then Octave(0.0, 0.0, 1.0, BASE_FREQUENCY)
    else NextOctave(perm, grads, x, z, Octaves(perm, grads, x, z, n - 1))
  }

  /** Amplitudes halve from 1 and the total of the amplitudes used is 2 (1 - amplitude), so
      after at least one octave the total is at least 1: the final division is defined. */
  lemma {:induction false} OctaveTotals(perm: seq<byte>, grads: seq<Vec2>, x: nat, z: nat, n: nat)
    requires |perm| == TABLE_SIZE && |grads| == GRADIENTS
    ensures 0.0 < Octaves(perm, grads, x, z, n).amplitude <= 1.0
    ensures Octaves(perm, grads, x, z, n).total == 2.0 * (1.0 - Octaves(perm, grads, x, z, n).amplitude)
    ensures n >= 1 ==> Octaves(perm, grads, x, z, n).total >= 1.0
  {
    if n > 0 {
      OctaveTotals(perm, grads, x, z, n - 1);
    }
  }

  /** The height of cell (x, z): the octave sum rescaled by total / 256. */
  function FbmHeight(perm: seq<byte>, grads: seq<Vec2>, octaves: nat, x: nat, z: nat): real
    requires |perm| == TABLE_SIZE && |grads| == GRADIENTS && octaves >= 1
  {
    OctaveTotals(perm, grads, x, z, octaves);
    var o := Octaves(perm, grads, x, z, octaves);
    Rescale(o.height, o.total)
  }

  /** The final division of a cell's sum by total / 256. */
  function Rescale(height: real, total: real): real
    requires total >= 1.0
  {
    height / (total / 256.0)
  }

  /** The heights of a width x depth grid, cell i at (i % width, i / width). */
  function FbmField(perm: seq<byte>, grads: seq<Vec2>, octaves: nat, width: nat, depth: nat): (hs: seq<real>)
    requires |perm| == TABLE_SIZE && |grads| == GRADIENTS && octaves >= 1
    ensures |hs| == width * depth
  {
    seq(width * depth, i requires 0 <= i < width * depth =>
      CellOfSlot(width, depth, i);
      FbmHeight(perm, grads, octaves, i % width, i / width))
  }

  /** Cell (x, z) of the field is at slot z * width + x. */
  lemma FbmFieldAtCell(perm: seq<byte>, grads: seq<Vec2>, octaves: nat, width: nat, depth: nat, x: nat, z: nat)
    requires |perm| == TABLE_SIZE && |grads| == GRADIENTS && octaves >= 1
    requires x < width && z < depth
    ensures Slot(width, x, z) < width * depth
    ensures FbmField(perm, grads, octaves, width, depth)[Slot(width, x, z)] == FbmHeight(perm, grads, octaves, x, z)
  {
    SlotRoundTrip(width, depth, x, z);
  }

  /** The table with its first half reset to 0 .. 255, the second half as it was. */
  function IdentityHalf(t: seq<byte>): (r: seq<byte>)
    requires |t| == TABLE_SIZE
    ensures |r| == TABLE_SIZE
  {
    seq(TABLE_SIZE, i requires 0 <= i < TABLE_SIZE => if i < 256 then i else t[i])
  }

  /** 0, 1, ..., 255. */
  function Iota(): (r: seq<byte>)
    ensures |r| == 256
  {
    seq(256, i requires 0 <= i < 256 => i)
  }

  /** Step i of the shuffle: swap entries i and j, then copy entry i to entry i + 256. */
  function ShuffleStep(t: seq<byte>, i: nat, j: byte): (r: seq<byte>)
    requires |t| == TABLE_SIZE && i < 256
    ensures |r| == TABLE_SIZE
  {
    var s := t[i := t[j]][j := t[i]];
    s[i + 256 := s[i]]
  }

  /** The table after the first k steps of the shuffle, with draw i used at step i. */
  function Shuffle(t: seq<byte>, draws: seq<byte>, k: nat): (r: seq<byte>)
    requires |t| == TABLE_SIZE && k <= 256 && k <= |draws|
    ensures |r| == TABLE_SIZE
  {
    if k == 0 then t else ShuffleStep(Shuffle(t, draws, k - 1), k - 1, draws[k - 1])
  }

  /** A step permutes the first half. */
  lemma StepPermutesFirstHalf(t: seq<byte>, i: nat, j: byte)
    requires |t| == TABLE_SIZE && i < 256
    ensures multiset(ShuffleStep(t, i, j)[..256]) == multiset(t[..256])
  {
    var s := t[i := t[j]][j := t[i]];
    assert s[..256] == t[..256][i := t[j]][j := t[i]];
    assert ShuffleStep(t, i, j)[..256] == s[..256];
  }

  /** After any number of steps, the first half of the table holds 0 .. 255 in some order. */
  lemma {:induction false} ShuffleIsPermutation(t: seq<byte>, draws: seq<byte>, k: nat)
    requires |t| == TABLE_SIZE && k <= 256 && k <= |draws|
    ensures multiset(Shuffle(IdentityHalf(t), draws, k)[..256]) == multiset(Iota())
  {
    if k == 0 {
      assert IdentityHalf(t)[..256] == Iota();
    } else {
      ShuffleIsPermutation(t, draws, k - 1);
      StepPermutesFirstHalf(Shuffle(IdentityHalf(t), draws, k - 1), k - 1, draws[k - 1]);
    }
  }

  /** Entry i + 256 is entry i as it stood right after step i, and no later step changes it. */
  lemma {:induction false} SecondHalfIsSnapshot(t: seq<byte>, draws: seq<byte>, i: nat, k: nat)
    requires |t| == TABLE_SIZE && i < k <= 256 && k <= |draws|
    ensures Shuffle(t, draws, k)[i + 256] == Shuffle(t, draws, i + 1)[i]
  {
    if k > i + 1 {
      SecondHalfIsSnapshot(t, draws, i, k - 1);
    }
  }

  /** A step that swaps an entry with itself leaves the first half alone. */
  lemma {:induction false} FixedDrawsKeepFirstHalf(t: seq<byte>, draws: seq<byte>, m: nat, k: nat)
    requires |t| == TABLE_SIZE && m <= k <= 256 && k <= |draws|
    requires forall i :: m <= i < k ==> draws[i] == i
    ensures Shuffle(t, draws, k)[..256] == Shuffle(t, draws, m)[..256]
  {
    if k > m {
      FixedDrawsKeepFirstHalf(t, draws, m, k - 1);
      var s := Shuffle(t, draws, k - 1);
      assert Shuffle(t, draws, k)[..256] == s[..256];
    }
  }

  /** The two halves need not agree: with draws 0, 0, 2, 3, ..., 255 entry 0 ends as 1
      while entry 256 keeps the 0 it was given at step 0. */
  lemma HalvesCanDiffer(t: seq<byte>)
    requires |t| == TABLE_SIZE
    ensures var draws := [0, 0] + seq(254, i requires 0 <= i < 254 => i + 2);
      Shuffle(IdentityHalf(t), draws, 256)[0] == 1
      && Shuffle(IdentityHalf(t), draws, 256)[256] == 0
  {
    var draws: seq<byte> := [0, 0] + seq(254, i requires 0 <= i < 254 => i + 2);
    var t0 := IdentityHalf(t);
    assert Shuffle(t0, draws, 1)[0] == 0;
    assert Shuffle(t0, draws, 1)[1] == 1;
    assert Shuffle(t0, draws, 2)[0] == 1;
    FixedDrawsKeepFirstHalf(t0, draws, 2, 256);
    assert Shuffle(t0, draws, 256)[..256][0] == Shuffle(t0, draws, 2)[..256][0];
    SecondHalfIsSnapshot(t0, draws, 0, 256);
  }

  /** FbmGenerator: the terrain it generates for, the octave count, the gradients and the
      permutation table. */
  class FbmGenerator {
    const terrain: Terrain?
    var numOctaves: i32
    const gradients: array<Vec2>
    const permutationTable: array<byte>

    ghost predicate Valid()
      reads this
    {
      gradients.Length == GRADIENTS && permutationTable.Length == TABLE_SIZE
    }

    /** FbmGenerator(terrain): three octaves; the tables are filled on generation. */
    constructor (terrain: Terrain?)
      ensures Valid()
      ensures this.terrain == terrain && numOctaves == DEFAULT_OCTAVES
      ensures fresh(gradients) && fresh(permutationTable)
    {
      this.terrain := terrain;
      numOctaves := DEFAULT_OCTAVES;
      gradients := new Vec2[GRADIENTS](_ => Vec2(0.0, 0.0));
      permutationTable := new byte[TABLE_SIZE](_ => 0);
    }

    /** Fills the gradients from the first 256 draws of the float stream, in order. */
    method FillGradients(gradientDraws: seq<Vec2>)
      requires Valid() && |gradientDraws| >= GRADIENTS
      modifies gradients
      ensures gradients[..] == gradientDraws[..GRADIENTS]
    {
      var i := 0;
      while i < GRADIENTS
        invariant 0 <= i <= GRADIENTS
        invariant gradients[..i] == gradientDraws[..i]
      {
        gradients[i] := gradientDraws[i];
        assert gradients[..i + 1] == gradients[..i] + [gradients[i]];
        i := i + 1;
      }
      assert gradients[..] == gradients[..GRADIENTS];
    }

    /** Resets the first half to 0 .. 255 and shuffles it in place, one swap per step with
        the j drawn for that step, copying each entry into the second half. */
    method ShuffleTable(permDraws: seq<byte>)
      requires Valid() && |permDraws| >= 256
      modifies permutationTable
      ensures permutationTable[..] == Shuffle(IdentityHalf(old(permutationTable[..])), permDraws, 256)
    {
      var i := 0;
      while i < 256
        invariant 0 <= i <= 256
        invariant forall k :: 0 <= k < i ==> permutationTable[k] == k
        invariant forall k :: 256 <= k < TABLE_SIZE ==> permutationTable[k] == old(permutationTable[k])
      {
        permutationTable[i] := i;
        i := i + 1;
      }
      ghost var start := IdentityHalf(old(permutationTable[..]));
      assert permutationTable[..] == start;
      i := 0;
      while i < 256
        invariant 0 <= i <= 256
        invariant permutationTable[..] == Shuffle(start, permDraws, i)
      {
        var j := permDraws[i];
        permutationTable[i], permutationTable[j] := permutationTable[j], permutationTable[i];
        permutationTable[i + 256] := permutationTable[i];
        i := i + 1;
      }
    }

    /** The octave loop for cell (x, z), ending in the rescaled height. */
    static method CellHeight(perm: seq<byte>, grads: seq<Vec2>, x: nat, z: nat, octaves: i32) returns (h: real)
      requires |perm| == TABLE_SIZE && |grads| == GRADIENTS && MIN_OCTAVES <= octaves
      ensures h == FbmHeight(perm, grads, octaves, x, z)
    {
      var frequency := BASE_FREQUENCY;
      var amplitude := 1.0;
      var total := 0.0;
      h := 0.0;
      var oct := 0;
      while oct < octaves
        invariant 0 <= oct <= octaves
        invariant Octaves(perm, grads, x, z, oct) == Octave(h, total, amplitude, frequency)
      {
        var o := NextOctave(perm, grads, x, z, Octave(h, total, amplitude, frequency));
        h, total, amplitude, frequency := o.height, o.total, o.amplitude, o.frequency;
        oct := oct + 1;
      }
      OctaveTotals(perm, grads, x, z, octaves);
      h := Rescale(h, total);
    }

    /** The cell loops of _generateHeightmap: a width * depth buffer, cell (x, z) written at
        slot z * width + x. */
    static method BuildField(perm: seq<byte>, grads: seq<Vec2>, octaves: i32, width: nat, depth: nat)
      returns (heights: seq<real>)
      requires |perm| == TABLE_SIZE && |grads| == GRADIENTS && MIN_OCTAVES <= octaves
      ensures heights == FbmField(perm, grads, octaves, width, depth)
    {
      var buffer := new real[width * depth];
      ghost var field := FbmField(perm, grads, octaves, width, depth);
      ghost var index := 0;
      var z := 0;
      while z < depth
        invariant 0 <= z <= depth && index == z * width && index <= width * depth
        invariant forall i :: 0 <= i < index ==> buffer[i] == field[i]
      {
        MulMonotonic(z + 1, depth, width);
        var x := 0;
        while x < width
          invariant 0 <= x <= width && index == z * width + x && index <= width * depth
          invariant forall i :: 0 <= i < index ==> buffer[i] == field[i]
        {
          FbmFieldAtCell(perm, grads, octaves, width, depth, x, z);
          var h := CellHeight(perm, grads, x, z, octaves);
          assert h == field[index];
          buffer[z * width + x] := h;
          index := index + 1;
          x := x + 1;
        }
        z := z + 1;
      }
      assert buffer[..] == field;
      heights := buffer[..];
    }

    /** _generateHeightmap with the random streams given as draws. Without a terrain nothing
        happens. Otherwise the octave count is clamped, the gradients and the table are
        rebuilt, and the heights for the terrain's grid are returned, for the terrain to
        load. */
    method GenerateHeightmap(gradientDraws: seq<Vec2>, permDraws: seq<byte>) returns (heights: Option<seq<real>>)
      requires Valid() && |gradientDraws| >= GRADIENTS && |permDraws| >= 256
      modifies this, gradients, permutationTable
      ensures Valid()
      ensures terrain == null ==>
        heights == None && numOctaves == old(numOctaves)
        && gradients[..] == old(gradients[..]) && permutationTable[..] == old(permutationTable[..])
      ensures terrain != null ==>
        numOctaves == ClampOctaves(old(numOctaves))
        && gradients[..] == gradientDraws[..GRADIENTS]
        && permutationTable[..] == Shuffle(IdentityHalf(old(permutationTable[..])), permDraws, 256)
        && heights == Some(FbmField(permutationTable[..], gradients[..], numOctaves, terrain.width, terrain.depth))
    {
      if terrain == null {
        return None;
      }
      if numOctaves < 1 {
        numOctaves := 1;
      } else if numOctaves > 8 {
        numOctaves := 8;
      }
      FillGradients(gradientDraws);
      ShuffleTable(permDraws);
      var perm := permutationTable[..];
      var grads := gradients[..];
      var field := BuildField(perm, grads, numOctaves, terrain.width, terrain.depth);
      heights := Some(field);
    }
  }
}
