/**
 * Shared vocabulary of the model: the Option/Result wrappers that stand for
 * Rust's `Option` and `anyhow::Result`, and the fixed-width integer types of
 * the proxy together with the saturating and wrapping operations it uses.
 */
module Common {

  datatype Option<T> = None | Some(value: T) {
    function GetOr(default: T): T {
      match this
      case Some(v) => v
      case None => default
    }
  }

  datatype Result<T, E> = Ok(value: T) | Err(error: E)

  /** The request method (`http::Method`): the four the routers compare against, and any other. */
  datatype Method = GET | POST | PUT | DELETE | OtherMethod(token: string)

  const U32_MODULUS: int := 0x1_0000_0000
  const U64_MODULUS: int := 0x1_0000_0000_0000_0000
  const U64_MAX: int := 0xFFFF_FFFF_FFFF_FFFF
  const I64_MAX: int := 0x7FFF_FFFF_FFFF_FFFF
  const I64_MIN: int := -0x8000_0000_0000_0000

  type u32 = x: int | 0 <= x < 0x1_0000_0000
  type u64 = x: int | 0 <= x < 0x1_0000_0000_0000_0000
  type i64 = x: int | -0x8000_0000_0000_0000 <= x < 0x8000_0000_0000_0000
  type byte = x: int | 0 <= x < 256

  function Min(a: int, b: int): int { if a <= b then a else b }
  function Max(a: int, b: int): int { if a >= b then a else b }

  /** Rust's `clamp(lo, hi)`. */
  function Clamp(x: int, lo: int, hi: int): (r: int)
    requires lo <= hi
    ensures lo <= r <= hi
    ensures lo <= x <= hi ==> r == x
    ensures x < lo ==> r == lo
    ensures x > hi ==> r == hi
  {
    if x < lo then lo else if x > hi then hi else x
  }

  /** `u64::saturating_add`: the exact sum unless it leaves the type. */
  function SaturatingAddU64(a: u64, b: u64): (r: u64)
    ensures a <= r && b <= r
    ensures r < U64_MAX ==> r == a + b
    ensures a + b <= U64_MAX ==> r == a + b
  {
    if a + b > U64_MAX then U64_MAX else a + b
  }

  /** `u64::saturating_mul`. */
  function SaturatingMulU64(a: u64, b: u64): (r: u64)
    ensures r <= a * b
    ensures a * b <= U64_MAX ==> r == a * b
    ensures a * b > U64_MAX ==> r == U64_MAX
  {
    if a * b > U64_MAX then U64_MAX else a * b
  }

  /** `i64::saturating_add`. */
  function SaturatingAddI64(a: i64, b: i64): (r: i64)
    ensures I64_MIN <= a + b <= I64_MAX ==> r == a + b
    ensures a + b > I64_MAX ==> r == I64_MAX
    ensures a + b < I64_MIN ==> r == I64_MIN
  {
    if a + b > I64_MAX then I64_MAX else if a + b < I64_MIN then I64_MIN else a + b
  }

  /** Release-mode (wrapping) `u64` addition, as `fetch_add` and unchecked `+` behave. */
  function WrappingAddU64(a: u64, b: u64): u64 {
    (a + b) % U64_MODULUS
  }

  function WrappingAddU32(a: u32, b: u32): u32 {
    (a + b) % U32_MODULUS
  }

  /** 2 to the power `n`. */
  function Pow2(n: nat): (r: nat)
    ensures r >= 1
  {
    if n == 0 then 1 else 2 * Pow2(n - 1)
  }

  lemma {:induction false} Pow2Monotone(a: nat, b: nat)
    requires a <= b
    ensures Pow2(a) <= Pow2(b)
  {
    if a < b {
      Pow2Monotone(a, b - 1);
    }
  }

  // ---- multiples and remainders ----

  lemma MulModZero(q: nat, step: nat)
    requires step > 0
    ensures (q * step) % step == 0 && (q * step) / step == q
  {
    var x := q * step;
    var d := x / step;
    var m := x % step;
    assert x == step * d + m;
    if d < q {
      assert step * (q - d) == m;
      MulAtLeast(q - d, step);
    } else if d > q {
      assert step * (d - q) == -m;
      MulAtLeast(d - q, step);
    }
  }

  lemma MulAtLeast(k: nat, step: nat)
    requires k >= 1
    ensures step * k >= step
  {
    if k > 1 {
      MulAtLeast(k - 1, step);
      assert step * k == step * (k - 1) + step;
    }
  }

  /** A remainder is determined by the quotient it is added to. */
  lemma ModOfMulPlus(q: nat, n: nat, j: nat)
    requires j < n
    ensures (q * n + j) % n == j && (q * n + j) / n == q
  {
    var x := q * n + j;
    var d := x / n;
    var m := x % n;
    assert x == n * d + m;
    if d < q {
      assert n * (q - d) == m - j;
      MulAtLeast(q - d, n);
    } else if d > q {
      assert n * (d - q) == j - m;
      MulAtLeast(d - q, n);
    }
  }

  /** How far past `rr` a round-robin scan of `n` slots reaches slot `j`. */
  function RoundRobinOffset(rr: nat, n: nat, j: nat): (i: nat)
    requires j < n
    ensures i < n
  {
    if j >= rr % n then j - rr % n else n - rr % n + j
  }

  /** `n` consecutive positions from any start visit every one of `n` slots. */
  lemma RoundRobinHits(rr: nat, n: nat, j: nat)
    requires j < n
    ensures (rr + RoundRobinOffset(rr, n, j)) % n == j
  {
    var q := rr / n;
    var r := rr % n;
    assert rr == q * n + r;
    if j >= r {
      ModOfMulPlus(q, n, j);
    } else {
      assert rr + (n - r + j) == (q + 1) * n + j;
      ModOfMulPlus(q + 1, n, j);
    }
  }
}
