/** Go's integer arithmetic, where it differs from Dafny's: `/` and `%` truncate
    toward zero, and `int` is 64 bits wide. Also map iteration. */
module GoInt {

  const MAX_INT: int := 0x7FFF_FFFF_FFFF_FFFF
  const MIN_INT: int := -0x8000_0000_0000_0000

  /** Go's `int` (and `int64`) on the 64-bit platforms gotop ships for. */
  type Int64 = n: int | MIN_INT <= n <= MAX_INT

  predicate FitsInt(n: int) {
    MIN_INT <= n <= MAX_INT
  }

  /** The value a 64-bit addition leaves behind. */
  function Wrap(n: int): Int64 {
    (n - MIN_INT) % 0x1_0000_0000_0000_0000 + MIN_INT
  }

  /** Additions can wrap around one by one, or once at the end. */
  lemma WrapTwice(m: int, n: int)
    ensures Wrap(Wrap(m) + n) == Wrap(m + n)
    ensures FitsInt(m) <==> Wrap(m) == m
  {
    var big := 0x1_0000_0000_0000_0000;
    var k := (m - MIN_INT) / big;
    assert Wrap(m) == m - k * big;
    ShiftByMultiple(m + n - MIN_INT, k, big);
  }

  lemma ShiftByMultiple(a: int, k: int, big: int)
    requires big == 0x1_0000_0000_0000_0000
    ensures (a - k * big) % big == a % big
  {
  }

  /** Go's `/`. */
  function Quo(a: int, b: int): int
    requires b != 0
  {
    if a >= 0 then a / b else -((-a) / b)
  }

  /** Go's `%`. */
  function Rem(a: int, b: int): int
    requires b != 0
  {
    if a >= 0 then a % b else -((-a) % b)
  }

  function Abs(n: int): nat {
    if n < 0 then -n else n
  }

  function Max(a: int, b: int): int {
    if a > b then a else b
  }

  function Min(a: int, b: int): int {
    if a < b then a else b
  }

  /** Go's conversion of a float to an int drops the fraction. */
  function Trunc(r: real): int {
    if r >= 0.0 then r.Floor else -((-r).Floor)
  }

  /** One turn of `range` over a Go map: some key not visited yet, in no particular order. */
  method NextKey<T>(keys: set<T>) returns (key: T)
    requires keys != {}
    ensures key in keys
  {
    key :| key in keys;
  }
}
