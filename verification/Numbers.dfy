/** Arithmetic the kernel code leans on: little-endian fields, powers of two, division with remainder. */
module Numbers {
  import opened Base

  // ----- Division -----

  /** Quotient and remainder are what they should be. */
  lemma DivUnique(x: nat, q: nat, r: nat, a: nat)
    requires a > 0 && r < a && x == q * a + r
    ensures x / a == q && x % a == r
  {
    var d := x / a;
    assert x == d * a + x % a;
    assert q * a - d * a == (q - d) * a && d * a - q * a == (d - q) * a;
    if d < q { AtLeastOne(q - d, a); }
    if q < d { AtLeastOne(d - q, a); }
  }

  lemma AtLeastOne(k: nat, a: nat)
    requires k > 0
    ensures k * a >= a
  {
    assert k * a == a + (k - 1) * a;
  }

  lemma MultipleMod(k: nat, a: nat)
    requires a > 0
    ensures (k * a) % a == 0
  {
    DivUnique(k * a, k, 0, a);
  }

  lemma ModOfMultiple(x: nat, a: nat, b: nat)
    requires a > 0 && b > 0 && x % a == 0 && a % b == 0
    ensures x % b == 0
  {
    var k, m := x / a, a / b;
    assert x == k * a && a == m * b;
    assert x == k * m * b;
    MultipleMod(k * m, b);
  }

  // ----- Powers of two -----

  predicate IsPow2(n: nat) { n == 1 || (n > 1 && n % 2 == 0 && IsPow2(n / 2)) }

  lemma {:induction false} Pow2Divides(a: nat, b: nat)
    requires IsPow2(a) && IsPow2(b) && a <= b
    ensures b % a == 0
  {
    if a > 1 {
      Pow2Divides(a / 2, b / 2);
      var k := (b / 2) / (a / 2);
      assert b / 2 == k * (a / 2);
      assert b == k * a;
      MultipleMod(k, a);
    }
  }

  // ----- Little-endian fields -----

  /** The `k` low bytes of `n`, least significant first (Rust's `to_le_bytes` after a truncating cast). */
  function ToLe(n: nat, k: nat): (b: Bytes)
    ensures |b| == k
  {
    if k == 0 then [] else [n % 256] + ToLe(n / 256, k - 1)
  }

  function FromLe(b: Bytes): (n: nat)
  {
    if b == [] then 0 else b[0] + 256 * FromLe(b[1..])
  }

  function Pow256(k: nat): (p: nat)
    ensures p > 0
  {
    if k == 0 then 1 else 256 * Pow256(k - 1)
  }

  /** Reading back a little-endian field gives the value reduced to the field's width. */
  lemma {:induction false} LeRoundTrip(n: nat, k: nat)
    ensures FromLe(ToLe(n, k)) == n % Pow256(k)
  {
    if k == 0 {
      assert n % 1 == 0;
    } else {
      LeRoundTrip(n / 256, k - 1);
      assert ToLe(n, k)[1..] == ToLe(n / 256, k - 1);
      ModSplit(n, Pow256(k - 1));
    }
  }

  lemma ModSplit(n: nat, p: nat)
    requires p > 0
    ensures n % (256 * p) == n % 256 + 256 * ((n / 256) % p)
  {
    var q := n / 256;
    var d, r := q / p, n % 256 + 256 * (q % p);
    assert q == d * p + q % p;
    assert 256 * (d * p) == d * (256 * p);
    assert n == d * (256 * p) + r;
    DivUnique(n, d, r, 256 * p);
  }

  lemma Pow256Values()
    ensures Pow256(1) == 0x100 && Pow256(4) == 0x1_0000_0000 && Pow256(8) == 0x1_0000_0000_0000_0000
  {
    assert Pow256(2) == 0x1_0000;
    assert Pow256(3) == 0x100_0000;
    assert Pow256(4) == 0x1_0000_0000;
    assert Pow256(5) == 0x100_0000_0000;
    assert Pow256(6) == 0x1_0000_0000_0000;
    assert Pow256(7) == 0x100_0000_0000_0000;
  }

  lemma {:induction false} ZeroFromLe(b: Bytes)
    requires forall i | 0 <= i < |b| :: b[i] == 0
    ensures FromLe(b) == 0
  {
    if b != [] { ZeroFromLe(b[1..]); }
  }
}
