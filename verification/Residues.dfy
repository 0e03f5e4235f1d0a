/**
 Which rates b and p in basis points have the property that every amount at which the rounded-down
 b-share steps up is also one at which the p-share does: exactly those where b divides p.
 */
module Residues {
  import opened Arithmetic
  import opened State

  /** What is left over of k basis points of x. The k-share steps up at x when this is below k. */
  function R(k: nat, x: nat): nat {
    k * x % BPS
  }

  predicate StepsUp(k: nat, x: nat) {
    R(k, x) < k
  }

  ghost predicate Covered(b: nat, p: nat) {
    forall x: nat :: StepsUp(b, x) ==> StepsUp(p, x)
  }

  lemma DropMultiple(a: int, c: int)
    ensures (a + c * BPS) % BPS == a % BPS
  {}

  lemma RScale(k: nat, x: nat, s: nat)
    ensures R(k, s * x) == s * R(k, x) % BPS
  {
    var q := k * x / BPS;
    assert k * (s * x) == s * R(k, x) + s * q * BPS by {
      assert k * (s * x) == s * (k * x);
      assert k * x == q * BPS + R(k, x);
      assert s * (q * BPS + R(k, x)) == s * (q * BPS) + s * R(k, x);
    }
    DropMultiple(s * R(k, x), s * q);
  }

  /** Residues repeat with the modulus, so a multiplier below it stands for all. */
  lemma RPeriodic(k: nat, x: nat)
    ensures R(k, x % BPS) == R(k, x)
  {
    assert k * x == k * (x % BPS) + (k * (x / BPS)) * BPS;
    DropMultiple(k * (x % BPS), k * (x / BPS));
  }

  lemma ModSum(a: int, b: int)
    ensures (a + b) % BPS == (a % BPS + b % BPS) % BPS
  {
    DropMultiple(a % BPS + b % BPS, a / BPS + b / BPS);
  }

  lemma RAdd(k: nat, x: nat, y: nat)
    ensures R(k, x + y) == (R(k, x) + R(k, y)) % BPS
  {
    assert k * (x + y) == k * x + k * y;
    ModSum(k * x, k * y);
  }

  lemma Magnitude(g: int, u: int)
    requires g > 0
    ensures u >= 1 ==> g * u >= g
    ensures u <= -1 ==> g * u <= -g
  {}

  /** A multiplier whose residue is the least positive one. */
  lemma Least(b: nat, start: nat) returns (x: nat)
    requires R(b, start) > 0
    ensures R(b, x) > 0
    ensures forall z: nat :: R(b, z) > 0 ==> R(b, x) <= R(b, z)
    decreases R(b, start)
  {
    if z: nat :| R(b, z) > 0 && R(b, z) < R(b, start) {
      x := Least(b, z);
    } else {
      x := start;
    }
  }

  lemma Regroup(q: nat, g: nat)
    ensures q * (BPS - 1) * g == (q * g) * BPS - q * g
  {}

  /** Taking q times the residue of x away from another residue is again a residue. */
  lemma RSubtract(b: nat, z: nat, x: nat, q: nat)
    requires q * R(b, x) <= R(b, z)
    ensures R(b, z + q * (BPS - 1) * x) == R(b, z) - q * R(b, x)
  {
    RScale(b, x, q * (BPS - 1));
    Regroup(q, R(b, x));
    RLess(b, z, q * (BPS - 1) * x, q * R(b, x));
  }

  lemma RLess(b: nat, z: nat, w: nat, k: nat)
    requires R(b, w) == (k * BPS - k) % BPS && k <= R(b, z)
    ensures R(b, z + w) == R(b, z) - k
  {
    RAdd(b, z, w);
    Less(R(b, z), k);
  }

  lemma Less(r: nat, k: nat)
    requires k <= r < BPS
    ensures (r + (k * BPS - k) % BPS) % BPS == r - k
  {
    ModSum(r, k * BPS - k);
    DropMultiple(r - k, k);
  }

  /** The least positive residue divides every residue. */
  lemma LeastDivides(b: nat, x: nat, z: nat)
    requires R(b, x) > 0 && forall y: nat :: R(b, y) > 0 ==> R(b, x) <= R(b, y)
    ensures R(b, z) % R(b, x) == 0
  {
    var g := R(b, x);
    var q := R(b, z) / g;
    DivMod(R(b, z), g);
    RSubtract(b, z, x, q);
    assert R(b, z + q * (BPS - 1) * x) == R(b, z) % g;
  }

  /** It divides the modulus too. */
  lemma LeastDividesModulus(b: nat, x: nat)
    requires R(b, x) > 0 && forall y: nat :: R(b, y) > 0 ==> R(b, x) <= R(b, y)
    ensures BPS % R(b, x) == 0
  {
    var g := R(b, x);
    var q := BPS / g;
    DivMod(BPS, g);
    RScale(b, x, q * (BPS - 1));
    Regroup(q, g);
    DropMultiple(BPS % g, q * g - 1);
    assert R(b, q * (BPS - 1) * x) == BPS % g;
  }

  /** Multiples that stay below p one by one never wrap: s * t is its own residue. */
  lemma {:induction false} NoWrap(b: nat, p: nat, x: nat, s: nat, limit: nat)
    requires 0 < p && 2 * p <= BPS && s < limit
    requires R(p, x) < p
    requires forall i: nat | i < limit :: R(p, i * x) < p
    ensures s * R(p, x) < p
  {
    if s > 0 {
      NoWrap(b, p, x, s - 1, limit);
      assert s * R(p, x) == (s - 1) * R(p, x) + R(p, x);
      RScale(p, x, s);
      assert R(p, s * x) < p;
    }
  }

  /** Where b leaves nothing over, p leaves nothing over. */
  lemma ZerosAgree(b: nat, p: nat, z: nat)
    requires 0 < b && 0 < p && 2 * p <= BPS && Covered(b, p)
    requires R(b, z) == 0
    ensures R(p, z) == 0
  {
    forall i: nat ensures R(p, i * z) < p {
      RScale(b, z, i);
      assert StepsUp(b, i * z);
    }
    assert 1 * z == z;
    NoWrap(b, p, z, p, p + 1);
    Magnitude(p, R(p, z));
  }

  lemma FactorOut(p: nat, g: nat, m: nat, j: nat)
    requires g * m == BPS && p * m == j * BPS
    ensures p == g * j
  {
    assert p * m == (g * j) * m by {
      assert j * BPS == j * (g * m);
    }
    assert (p - g * j) * m == 0;
  }

  /** The least positive residue g of b divides p. */
  lemma LeastDividesP(b: nat, p: nat, x: nat)
    requires 0 < b && 0 < p && 2 * p <= BPS && 2 * b <= BPS && Covered(b, p)
    requires R(b, x) > 0 && forall y: nat :: R(b, y) > 0 ==> R(b, x) <= R(b, y)
    ensures p % R(b, x) == 0
  {
    var g := R(b, x);
    LeastDividesModulus(b, x);
    LeastDivides(b, x, 1);
    assert R(b, 1) == b;
    var m, n := BPS / g, b / g;
    assert g * m == BPS && g * n == b;
    assert b * m == n * BPS by {
      assert b * m == (g * n) * m;
    }
    DropMultiple(0, n);
    ZerosAgree(b, p, m);
    var j := p * m / BPS;
    FactorOut(p, g, m, j);
    ModuloOfProduct(g, j);
  }

  lemma ModuloOfProduct(g: nat, j: nat)
    requires g > 0
    ensures g * j % g == 0
  {
    var a := g * j;
    DivMod(a, g);
    assert a % g == g * (j - a / g);
    Magnitude(g, j - a / g);
  }

  lemma MulMono(i: nat, n: nat, g: nat)
    requires i < n
    ensures i * g + g <= n * g
  {
    assert n * g == i * g + g + (n - i - 1) * g;
  }

  lemma StepsBelow(b: nat, p: nat, x: nat, n: nat, i: nat)
    requires 0 < b < BPS && Covered(b, p) && b == n * R(b, x) && i < n
    ensures R(p, i * x) < p
  {
    RScale(b, x, i);
    MulMono(i, n, R(b, x));
    assert StepsUp(b, i * x);
  }

  /** Before b's residues meet b again, p's residues have not wrapped. */
  lemma BelowModulus(b: nat, p: nat, x: nat, n: nat)
    requires 0 < b < BPS && 0 < p && 2 * p <= BPS && Covered(b, p) && b == n * R(b, x)
    ensures n * R(p, x) < BPS
  {
    if n > 1 {
      forall i: nat | i < n ensures R(p, i * x) < p {
        StepsBelow(b, p, x, n, i);
      }
      assert 1 * x == x;
      NoWrap(b, p, x, n - 1, n);
      var t := R(p, x);
      assert n * t == (n - 1) * t + t;
    }
  }

  /** A multiplier that brings b back to where one unit is brings p there too. */
  lemma Meets(b: nat, p: nat, y: nat)
    requires 0 < b && 0 < p && 2 * p <= BPS && 2 * b <= BPS && Covered(b, p)
    requires R(b, y + 1) == b
    ensures R(p, y + 1) == p
  {
    RAdd(b, y, 1);
    assert R(b, 1) == b;
    ZerosAgree(b, p, y);
    RAdd(p, y, 1);
    assert R(p, 1) == p;
  }

  lemma Assemble(b: nat, p: nat, g: nat, n: nat, t: nat)
    requires 0 < b && 0 < g && b == n * g && p == n * t && t % g == 0
    ensures p % b == 0
  {
    DivMod(t, g);
    var u := t / g;
    assert p == b * u by {
      assert n * (g * u) == (n * g) * u;
    }
    ModuloOfProduct(b, u);
  }

  /** How many times the least positive residue goes into b. */
  lemma Quotient(b: nat, x: nat) returns (n: nat)
    requires 0 < b < BPS && R(b, x) > 0
    requires forall y: nat :: R(b, y) > 0 ==> R(b, x) <= R(b, y)
    ensures b == n * R(b, x)
  {
    assert R(b, 1) == b;
    LeastDivides(b, x, 1);
    DivMod(b, R(b, x));
    n := b / R(b, x);
  }

  /** As many steps of p make up p, since p's residues meet p where b's meet b. */
  lemma ReachesBoth(b: nat, p: nat, x: nat, n: nat)
    requires 0 < b && 0 < p && 2 * p <= BPS && 2 * b <= BPS && Covered(b, p)
    requires b == n * R(b, x)
    ensures p == n * R(p, x)
  {
    BelowModulus(b, p, x, n);
    PositiveMultiple(b, x, n);
    RScale(b, x, n);
    RScale(p, x, n);
    Meets(b, p, n * x - 1);
  }

  /** Covering forces divisibility. */
  lemma CoveredDivides(b: nat, p: nat)
    requires 0 < b && 0 < p && 2 * p <= BPS && 2 * b <= BPS && Covered(b, p)
    ensures p % b == 0
  {
    assert R(b, 1) == b;
    var x := Least(b, 1);
    var n := Quotient(b, x);
    LeastDividesP(b, p, x);
    LeastDividesModulus(b, x);
    CommonFactor(p, R(b, x), x);
    ReachesBoth(b, p, x, n);
    Assemble(b, p, R(b, x), n, R(p, x));
  }

  lemma PositiveMultiple(b: nat, x: nat, n: nat)
    requires 0 < b && b == n * R(b, x)
    ensures 1 <= n * x
  {
    assert x == 0 ==> R(b, x) == 0;
    ProductNonNegative(n - 1, x - 1);
  }

  /** A common divisor of p and the modulus divides every residue of p. */
  lemma CommonFactor(p: nat, g: nat, x: nat)
    requires g > 0 && p % g == 0 && BPS % g == 0
    ensures R(p, x) % g == 0
  {
    DivMod(p, g);
    DivMod(BPS, g);
    var a, m, q := p / g, BPS / g, p * x / BPS;
    assert R(p, x) == p * x - q * BPS;
    assert p * x == g * (a * x) && q * BPS == g * (q * m);
    assert R(p, x) == g * (a * x - q * m);
    assert a * x - q * m >= 0 by {
      Magnitude(g, a * x - q * m);
    }
    ModuloOfProduct(g, a * x - q * m);
  }
}
