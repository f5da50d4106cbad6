/** Types shared by the engine (Necrosis) and the terrain editor (Geophagia). */
module Common {

  /** Unsigned machine integers of the C++ code. */
  type u32 = x: int | 0 <= x < 0x1_0000_0000
  type u64 = x: int | 0 <= x < 0x1_0000_0000_0000_0000
  type byte = x: int | 0 <= x < 0x100
  type i32 = x: int | -0x8000_0000 <= x < 0x8000_0000

  /** Arithmetic on uint32_t and uint64_t wraps around. */
  const U32_MOD: nat := 0x1_0000_0000
  const U64_MOD: nat := 0x1_0000_0000_0000_0000

  /** The product of two uint32 values as C++ computes it: modulo 2^32. It is the true
      product exactly when that product fits in 32 bits, never exceeds it, and is positive
      only when both factors are. */
  function MulU32(a: u32, b: u32): (r: u32)
    ensures r <= a * b
    ensures r == a * b <==> a * b < U32_MOD
    ensures r > 0 ==> a > 0 && b > 0
  {
    MulMonotonic(0, a, b);
    (a * b) % U32_MOD
  }

  /** A pointer that may be null, or a call that may fail. */
  datatype Option<+T> = None | Some(value: T)

  /** glm::vec2 and glm::vec3 over the reals. */
  datatype Vec2 = Vec2(x: real, y: real)
  datatype Vec3 = Vec3(x: real, y: real, z: real)

  function Min(a: real, b: real): (r: real)
    ensures r <= a && r <= b && (r == a || r == b)
  {
    if b < a then b else a
  }

  /** std::clamp(v, lo, hi) for lo <= hi. */
  function Clamp(v: int, lo: int, hi: int): (r: int)
    requires lo <= hi
    ensures lo <= r <= hi
    ensures lo <= v <= hi ==> r == v
    ensures v < lo ==> r == lo
    ensures v > hi ==> r == hi
  {
    if v < lo then lo else if hi < v then hi else v
  }

  /** Slot of grid cell (x, z) in a row-major buffer whose rows hold `width` cells. */
  function Slot(width: nat, x: nat, z: nat): nat
  {
    z * width + x
  }

  /** The slot of (x, z) lies inside a width*depth buffer, and the cell is recovered
      from the slot as (slot % width, slot / width). */
  lemma SlotRoundTrip(width: nat, depth: nat, x: nat, z: nat)
    requires x < width && z < depth
    ensures Slot(width, x, z) < width * depth
    ensures Slot(width, x, z) % width == x && Slot(width, x, z) / width == z
  {
    assert z * width + x < (z + 1) * width <= depth * width;
    DivModOf(z * width + x, width, z, x);
  }

  /** Every slot of a width*depth buffer is the slot of the cell (i % width, i / width). */
  lemma CellOfSlot(width: nat, depth: nat, i: nat)
    requires i < width * depth
    ensures width > 0 && i % width < width && i / width < depth
    ensures Slot(width, i % width, i / width) == i
  {
    assert width > 0;
  }

  /** Multiplying by a natural number is monotonic. */
  lemma MulMonotonic(a: nat, b: nat, c: nat)
    requires a <= b
    ensures a * c <= b * c
  {
  }

  lemma MulAtLeast(k: int, b: int)
    requires k >= 1 && b > 0
    ensures k * b >= b
  {
  }

  /** Euclidean division is determined by quotient and remainder. */
  lemma DivModOf(a: int, b: int, q: int, r: int)
    requires b > 0 && 0 <= r < b && a == q * b + r
    ensures a / b == q && a % b == r
  {
    var q', r' := a / b, a % b;
    assert a == q' * b + r';
    if q' < q {
      MulAtLeast(q - q', b);
    } else if q' > q {
      MulAtLeast(q' - q, b);
    }
  }
}
