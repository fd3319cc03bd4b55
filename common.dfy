/**
 * Java value types the rest of the model relies on: the 64-bit `long`, the
 * Optional/exception pair as Option and Result, Java's wrapping `long`
 * multiplication and its truncating division, and the two value types
 * (table reference, repair configuration) shared by the scheduler and the
 * configuration provider.
 */
module Common {

  const LONG_MIN: int := -0x8000_0000_0000_0000
  const LONG_MAX: int := 0x7FFF_FFFF_FFFF_FFFF
  const TWO_TO_64: int := 0x1_0000_0000_0000_0000

  /** A Java `long`. */
  type Long = x: int | LONG_MIN <= x <= LONG_MAX

  datatype Option<+T> = None | Some(value: T)

  /** A value, or the exception the Java code throws instead of returning one. */
  datatype Result<+T, +E> = Ok(value: T) | Err(error: E)

  /** The `long` that Java's arithmetic yields for the exact value `x`: the one congruent to `x` modulo 2^64. */
  function WrapLong(x: int): (r: Long)
    ensures LONG_MIN <= x <= LONG_MAX ==> r == x
  {
    var m := x % TWO_TO_64;
    DivModIdentity(x);
    if m <= LONG_MAX then m else m - TWO_TO_64
  }

  /** WrapLong(x) differs from x by a multiple of 2^64: it is the two's-complement truncation of x. */
  lemma WrapLongCongruent(x: int)
    ensures (x - WrapLong(x)) % TWO_TO_64 == 0
  {
    DivModIdentity(x);
  }

  lemma DivModIdentity(x: int)
    ensures x == (x / TWO_TO_64) * TWO_TO_64 + x % TWO_TO_64
    ensures (x - x % TWO_TO_64) % TWO_TO_64 == 0
    ensures (x - (x % TWO_TO_64 - TWO_TO_64)) % TWO_TO_64 == 0
  {
    var q := x / TWO_TO_64;
    assert x - x % TWO_TO_64 == q * TWO_TO_64;
    assert x - (x % TWO_TO_64 - TWO_TO_64) == (q + 1) * TWO_TO_64;
  }

  /** Java's `/` for a positive divisor: the exact quotient truncated toward zero. */
  function TruncDiv(a: int, b: int): (q: int)
    requires b > 0
    ensures 0 <= a ==> 0 <= q <= a
    ensures a < 0 ==> a <= q <= 0
  {
    if a >= 0 then
      DivAtMost(a, b);
      a / b
    else
      DivAtMost(-a, b);
      -((-a) / b)
  }

  lemma DivAtMost(a: nat, b: int)
    requires b > 0
    ensures 0 <= a / b <= a
  {
    var q, r := a / b, a % b;
    assert a == q * b + r;
    assert 0 <= r;
    MulAtLeast(q, b);
  }

  lemma MulAtLeast(q: int, b: int)
    requires q >= 0 && b >= 1
    ensures q * b >= q
  {
    assert q * b == q * (b - 1) + q;
    assert q * (b - 1) >= 0;
  }

  /** TableReference: a keyspace and a table of the data store. */
  datatype TableReference = TableReference(keyspace: string, table: string)

  /** A repair configuration; its settings are not part of this model, only its identity. */
  datatype RepairConfiguration = RepairConfiguration(id: nat)
}
