/** The seeded generator of the engine (src/lib/engine/generate.ts):
    `mulberry32` and the string hash `hashInput`, in 32-bit words. */
module Prng {

  const TwoTo32: int := 0x1_0000_0000

  /** One draw: the advanced state, and the word u that `next()` turns into
      the number u / 2^32. */
  datatype Draw = Draw(state: bv32, u: bv32)

  /** The body of `next()`: `Math.imul` is the low 32 bits of the product,
      `>>>` the logical shift, so every step is plain 32-bit arithmetic. */
  function Next(state: bv32): Draw
  {
    var s := state + 0x6D2B_79F5;
    var t := (s ^ (s >> 15)) * (1 | s);
    var t2 := (t + (t ^ (t >> 7)) * (61 | t)) ^ t;
    Draw(s, t2 ^ (t2 >> 14))
  }

  /** A word read as an unsigned number, `>>> 0`. */
  function Word(u: bv32): (r: nat)
    ensures r < TwoTo32
  {
    u as int
  }

  /** The words of n successive calls of `next()` from a state, and the
      state after them. */
  function Words(state: bv32, n: nat): (r: (seq<nat>, bv32))
    decreases n
    ensures |r.0| == n
    ensures forall k :: 0 <= k < n ==> r.0[k] < TwoTo32
  {
    if n == 0 then ([], state)
    else
      var d := Next(state);
      var rest := Words(d.state, n - 1);
      ([Word(d.u)] + rest.0, rest.1)
  }

  /** The number `next()` returns for the word w. */
  function Fraction(w: nat): (r: real)
    requires w < TwoTo32
    ensures 0.0 <= r < 1.0
  {
    w as real / TwoTo32 as real
  }

  /** `Math.floor(rand() * k)` for the word w. The product of a 32-bit
      fraction and a small whole k is exact in a double, so the floor is
      whole-number division. */
  function PickIndex(w: nat, k: nat): (r: nat)
    requires w < TwoTo32
    ensures k == 0 ==> r == 0
    ensures k > 0 ==> r < k
    ensures r as real <= Fraction(w) * k as real < r as real + 1.0
  {
    QuotientBelow(w, k, TwoTo32);
    FloorOfQuotient(w * k, TwoTo32);
    ScaledFraction(w, k, TwoTo32);
    (w * k) / TwoTo32
  }

  lemma QuotientBelow(u: nat, k: nat, d: int)
    requires u < d
    ensures k == 0 ==> (u * k) / d == 0
    ensures k > 0 ==> (u * k) / d < k
  {
    if k > 0 {
      var n := u * k;
      assert n < d * k by { MulStrict(u, d, k); }
      var q := n / d;
      assert q * d <= n;
      if q >= k {
        MulMonotoneNat(k, q, d);
      }
    }
  }

  lemma MulStrict(a: int, b: int, k: int)
    requires a < b && k > 0
    ensures a * k < b * k
  {}

  lemma MulMonotoneNat(a: int, b: int, d: int)
    requires a <= b && d > 0
    ensures a * d <= b * d
  {}

  lemma ScaledFraction(u: nat, k: nat, d: int)
    requires d > 0
    ensures (u as real / d as real) * k as real == (u * k) as real / d as real
  {}

  lemma FloorOfQuotient(n: nat, d: int)
    requires d > 0
    ensures ((n / d) as real) <= n as real / d as real < (n / d) as real + 1.0
  {
    var q, m := n / d, n % d;
    assert n == q * d + m && 0 <= m < d;
    assert n as real == q as real * d as real + m as real;
    assert n as real / d as real == q as real + m as real / d as real;
  }

  /** One step of the loop of `hashInput`: `(hash << 5) - hash + c`, kept to
      32 bits by `hash |= 0`. */
  function HashStep(h: bv32, c: bv16): bv32
  {
    (h << 5) - h + CodeUnit(c)
  }

  /** The shift-and-subtract of `HashStep` is the multiply-by-31 step of
      the polynomial string hash, modulo 2^32. */
  lemma ShiftSubtractIsMultiply(h: bv32, x: bv32)
    ensures (h << 5) - h + x == h * 31 + x
  {}

  /** `text.charCodeAt(i)` widened to a word. */
  function CodeUnit(c: bv16): bv32
  {
    c as bv32
  }

  /** The hash of a sequence of UTF-16 code units, folded from the left. */
  function HashWords(text: seq<bv16>): bv32
  {
    if |text| == 0 then 0 else HashStep(HashWords(text[..|text| - 1]), text[|text| - 1])
  }

  /** `Math.abs(hash) || 42` with hash read as a signed 32-bit integer. */
  function HashInput(text: seq<bv16>): (r: int)
    ensures 1 <= r <= 0x8000_0000
    ensures r == 42 <==> HashWords(text) == 0 || HashWords(text) == 42 || HashWords(text) as int == TwoTo32 - 42
  {
    var h := HashWords(text) as int;
    var signed := if h < 0x8000_0000 then h else h - TwoTo32;
    var a := if signed < 0 then -signed else signed;
    if a == 0 then 42 else a
  }

  /** The generator's initial state: `seed |= 0` keeps the 32 bits of the
      seed, so 2^31 becomes the word 0x8000_0000. */
  function Seed(text: seq<bv16>): bv32
  {
    HashInput(text) as bv32
  }
}
