/**
 * The discrete parts of the 3D simplex noise embedded in the dissolve shader (Ashima Arts'
 * webgl-noise): the period-289 hash, the choice of the simplex corners, and the split of a
 * hash into 7x7 gradient-grid coordinates. The floating-point falloff and scaling that make
 * the final noise value are not modelled; the noise value is an input of the fragment test.
 */
module SimplexNoise {

  import opened Geometry

  const N: int := 289

  // ---------------------------------------------------------------------------------------
  // mod289 and permute, as the shader writes them (over reals)
  // ---------------------------------------------------------------------------------------

  /** The shader's reduction mod 289: subtract 289 times the floor of a 289th of x. */
  function Mod289(x: real): (r: real)
    ensures 0.0 <= r < 289.0
  {
    x - (x * (1.0 / 289.0)).Floor as real * 289.0
  }

  /** The shader's permutation: the polynomial 34x^2 + x, reduced by Mod289. */
  function Permute(x: real): (r: real)
    ensures 0.0 <= r < 289.0
  {
    Mod289(((x * 34.0) + 1.0) * x)
  }

  /** The floor of q / d for integers is integer division (Dafny's division rounds down for
      a positive divisor). */
  lemma FloorOfQuotient(q: int, d: int)
    requires d > 0
    ensures ((q as real) / (d as real)).Floor == q / d
  {
    var k, m := q / d, q % d;
    assert q == d * k + m && 0 <= m < d;
    assert (q as real) / (d as real) == k as real + (m as real) / (d as real);
    assert 0.0 <= (m as real) / (d as real) < 1.0;
  }

  /** On an integer, mod289 is the least non-negative residue mod 289. */
  lemma Mod289OfInteger(n: int)
    ensures Mod289(n as real) == (n % N) as real
  {
    assert (n as real) * (1.0 / 289.0) == (n as real) / (289 as real);
    FloorOfQuotient(n, N);
  }

  /** On integers the permutation polynomial (34x + 1)x reduced mod 289. */
  function Hash(n: int): (r: int)
    ensures 0 <= r < N
  {
    ((34 * n + 1) * n) % N
  }

  /** On an integer, permute is the integer hash. */
  lemma PermuteOfInteger(n: int)
    ensures Permute(n as real) == Hash(n) as real
  {
    var y := (34 * n + 1) * n;
    assert ((n as real * 34.0) + 1.0) * (n as real) == y as real;
    Mod289OfInteger(y);
  }

  /** Adding a multiple of 289 does not change a residue. */
  lemma ModShift(a: int, k: int)
    ensures (a + N * k) % N == a % N
  {
    var q, r := a / N, a % N;
    assert a + N * k == N * (q + k) + r;
  }

  /** The hash depends only on its argument mod 289 (the webgl-noise
      "period 289" property). */
  lemma HashPeriodic(n: int)
    ensures Hash(n + N) == Hash(n)
  {
    var a := (34 * n + 1) * n;
    var k := 68 * n + 1 + 34 * N;
    assert (34 * (n + N) + 1) * (n + N) == a + N * k;
    ModShift(a, k);
  }

  lemma HashPeriodicMany(n: int, k: nat)
    ensures Hash(n + N * k) == Hash(n)
  {
    if k > 0 {
      HashPeriodicMany(n, k - 1);
      HashPeriodic(n + N * (k - 1));
      assert n + N * (k - 1) + N == n + N * k;
    }
  }

  // ---------------------------------------------------------------------------------------
  // First corner and corner selection
  // ---------------------------------------------------------------------------------------

  /** The first corner of the simplex holding a point: the cell `i` is found by skewing the
      point (adding a third of its coordinate sum) and rounding down; `x0` is the point's
      offset from that corner after unskewing (adding back a sixth of the cell's sum). */
  datatype FirstCorner = FirstCorner(i: Int3, x0: Vec3)

  function SkewedCell(v: Vec3): (c: FirstCorner)
    // x0 skewed back into the simplex grid lies in the unit cell of that grid
    ensures var s := Sum3(c.x0) / 3.0;
      && 0.0 <= c.x0.x + s < 1.0
      && 0.0 <= c.x0.y + s < 1.0
      && 0.0 <= c.x0.z + s < 1.0
    // unskewing the cell corner and adding x0 gives the point back
    ensures var t := Sum(c.i) as real / 6.0;
      v == Vec3(c.i.x as real - t + c.x0.x, c.i.y as real - t + c.x0.y, c.i.z as real - t + c.x0.z)
  {
    var s := Sum3(v) * (1.0 / 3.0);
    var i := Int3((v.x + s).Floor, (v.y + s).Floor, (v.z + s).Floor);
    var t := Sum(i) as real * (1.0 / 6.0);
    FirstCorner(i, Vec3(v.x - i.x as real + t, v.y - i.y as real + t, v.z - i.z as real + t))
  }

  /** The shader's step: 0 below the edge, 1 at or above it. */
  function Step(edge: real, x: real): int
  {
    if x < edge then 0 else 1
  }

  /** The offsets of the second and third simplex corners from the first. */
  datatype Corners = Corners(i1: Int3, i2: Int3)

  predicate IsBit(b: int) { b == 0 || b == 1 }

  predicate Bits(v: Int3) { IsBit(v.x) && IsBit(v.y) && IsBit(v.z) }

  predicate Below(a: Int3, b: Int3) { a.x <= b.x && a.y <= b.y && a.z <= b.z }

  /** Corner selection by cyclic comparison of the components of x0: `g` records for each
      component whether it is at least the next one (x against y, y against z, z against x),
      `l` is its complement, and each component of i1 (i2) is the smaller (larger) of that
      component of `g` and the complement of the previous one. */
  function SelectCorners(x0: Vec3): (c: Corners)
    ensures Bits(c.i1) && Bits(c.i2) && Below(c.i1, c.i2)
    ensures !(x0.x == x0.y == x0.z) ==> Sum(c.i1) == 1 && Sum(c.i2) == 2
    ensures x0.x == x0.y == x0.z ==> c.i1 == Int3(0, 0, 0) && c.i2 == Int3(1, 1, 1)
    // i1 marks a largest component of x0, and the 0 of i2 marks a smallest one
    ensures c.i1.x == 1 ==> x0.x >= x0.y && x0.x >= x0.z
    ensures c.i1.y == 1 ==> x0.y >= x0.z && x0.y >= x0.x
    ensures c.i1.z == 1 ==> x0.z >= x0.x && x0.z >= x0.y
    ensures c.i2.x == 0 ==> x0.x <= x0.y && x0.x <= x0.z
    ensures c.i2.y == 0 ==> x0.y <= x0.z && x0.y <= x0.x
    ensures c.i2.z == 0 ==> x0.z <= x0.x && x0.z <= x0.y
  {
    var g := Int3(Step(x0.y, x0.x), Step(x0.z, x0.y), Step(x0.x, x0.z));
    var l := Int3(1 - g.x, 1 - g.y, 1 - g.z);
    var i1 := Int3(Min(g.x, l.z), Min(g.y, l.x), Min(g.z, l.y));
    var i2 := Int3(Max(g.x, l.z), Max(g.y, l.x), Max(g.z, l.y));
    Corners(i1, i2)
  }

  function Min(a: int, b: int): int { if a <= b then a else b }

  function Max(a: int, b: int): int { if a <= b then b else a }

  // ---------------------------------------------------------------------------------------
  // Corner hashes
  // ---------------------------------------------------------------------------------------

  /** The hash of the corner at offset `o` from cell `i`: the cell is reduced mod 289, then the
      hash is applied three times, adding the y and then the x coordinate (with their offsets)
      between the applications, starting from the z coordinate. */
  function CornerHash(i: Int3, o: Int3): (p: int)
    ensures 0 <= p < N
  {
    var m := Int3(i.x % N, i.y % N, i.z % N);
    Hash(Hash(Hash(m.z + o.z) + m.y + o.y) + m.x + o.x)
  }

  /** The hashes of the four corners: offsets 0, i1, i2 and (1, 1, 1). */
  function CornerHashes(i: Int3, c: Corners): (p: seq<int>)
    ensures |p| == 4
    ensures forall k :: 0 <= k < 4 ==> 0 <= p[k] < N
  {
    [CornerHash(i, Int3(0, 0, 0)), CornerHash(i, c.i1), CornerHash(i, c.i2), CornerHash(i, Int3(1, 1, 1))]
  }

  /** The hash of a corner repeats with period 289 along every axis of the cell grid. */
  lemma CornerHashPeriodic(i: Int3, o: Int3, kx: int, ky: int, kz: int)
    ensures CornerHash(Int3(i.x + N * kx, i.y + N * ky, i.z + N * kz), o) == CornerHash(i, o)
  {
    ModShift(i.x, kx);
    ModShift(i.y, ky);
    ModShift(i.z, kz);
  }

  /** The integer corner hash is what the shader's nested Permute and Mod289 compute on the
      integer-valued cell. */
  lemma ShaderCornerHash(i: Int3, o: Int3)
    ensures Permute(Permute(Permute(Mod289(i.z as real) + o.z as real) + Mod289(i.y as real) + o.y as real)
                    + Mod289(i.x as real) + o.x as real)
            == CornerHash(i, o) as real
  {
    Mod289OfInteger(i.x);
    Mod289OfInteger(i.y);
    Mod289OfInteger(i.z);
    var m := Int3(i.x % N, i.y % N, i.z % N);
    var a1 := m.z + o.z;
    PermuteOfInteger(a1);
    var a2 := Hash(a1) + m.y + o.y;
    PermuteOfInteger(a2);
    PermuteOfInteger(Hash(a2) + m.x + o.x);
  }

  /** Every argument passed to permute for a corner hash is an integer below 578, whose
      polynomial (34x + 1)x stays below 2^24, so single-precision floats hold these values
      exactly and the integer model of the hash is not an idealisation of the products. */
  lemma CornerHashArgumentsExact(i: Int3, o: Int3)
    requires Bits(o)
    ensures var m := Int3(i.x % N, i.y % N, i.z % N);
      var a1 := m.z + o.z;
      var a2 := Hash(a1) + m.y + o.y;
      var a3 := Hash(a2) + m.x + o.x;
      && 0 <= a1 < 2 * N && 0 <= a2 < 2 * N && 0 <= a3 < 2 * N
      && (34 * a1 + 1) * a1 < 0x100_0000
      && (34 * a2 + 1) * a2 < 0x100_0000
      && (34 * a3 + 1) * a3 < 0x100_0000
  {
    var m := Int3(i.x % N, i.y % N, i.z % N);
    var a1 := m.z + o.z;
    var a2 := Hash(a1) + m.y + o.y;
    var a3 := Hash(a2) + m.x + o.x;
    PolynomialBound(a1);
    PolynomialBound(a2);
    PolynomialBound(a3);
  }

  lemma PolynomialBound(a: int)
    requires 0 <= a < 2 * N
    ensures (34 * a + 1) * a < 0x100_0000
  {
    MulMonotone(a, 577, a);
    MulMonotone(a, 577, 577);
    assert (34 * a + 1) * a == 34 * (a * a) + a;
  }

  lemma MulMonotone(a: int, b: int, c: int)
    requires a <= b && 0 <= c
    ensures a * c <= b * c
  {
    assert b * c - a * c == (b - a) * c;
  }

  // ---------------------------------------------------------------------------------------
  // Gradient index decomposition
  // ---------------------------------------------------------------------------------------

  /** The shader's constant n_, a decimal approximation of 1/7, taken here as exactly 1/7. */
  const NInv: real := 1.0 / 7.0

  /** The 7x7 grid position that a corner hash selects. */
  datatype GradientIndex = GradientIndex(j: int, gx: int, gy: int)

  /** The hash reduced mod 49 (by subtracting 49 times the floor of p/49, computed as p times
      n_ squared), split into a row (the floor of a seventh of it) and a column (what is left
      after removing seven rows) of a 7x7 grid. */
  function GradientIndexOf(p: int): (g: GradientIndex)
    ensures g.j == p % 49
    ensures 0 <= g.gx < 7 && 0 <= g.gy < 7
    ensures g.j == 7 * g.gx + g.gy
  {
    assert (p as real) * NInv * NInv == (p as real) / (49 as real);
    FloorOfQuotient(p, 49);
    var j := p - 49 * ((p as real) * NInv * NInv).Floor;
    assert (j as real) * NInv == (j as real) / (7 as real);
    FloorOfQuotient(j, 7);
    var gx := ((j as real) * NInv).Floor;
    var gy := ((j - 7 * gx) as real).Floor;
    GradientIndex(j, gx, gy)
  }

  /** Distinct grid cells come from distinct residues mod 49: the split into row and column
      is one-to-one. */
  lemma GradientIndexInjective(p: int, q: int)
    requires GradientIndexOf(p).gx == GradientIndexOf(q).gx && GradientIndexOf(p).gy == GradientIndexOf(q).gy
    ensures p % 49 == q % 49
  {
  }
}
