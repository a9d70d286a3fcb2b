/** Shared definitions: the error values the engine throws and fixed-width integer bounds. */
module Common {

  /** The failures the engine signals by throwing a message string. */
  datatype Error =
    | NotEnoughNames   // "Not enough names for each animation!"
    | NotEnoughDelays  // "Not enough delays for amount of frames! ..."

  /** The value an operation returns, or the error it throws. */
  datatype Result<T> = Ok(value: T) | Err(error: Error)

  /** The outcome of an operation that returns nothing but may throw. */
  datatype Outcome = Pass | Fail(error: Error)

  /** 2^32: C++ `unsigned int` arithmetic is modulo this value. */
  const U32: nat := 0x1_0000_0000

  /** The range of a C++ `int`, whose overflow is undefined behaviour. */
  predicate IsInt32(v: int) {
    -0x8000_0000 <= v < 0x8000_0000
  }

  /** `a <= b` scales by any natural factor. */
  lemma MulMono(a: nat, b: nat, k: nat)
    requires a <= b
    ensures a * k <= b * k
  {
    var d := b - a;
    assert b * k == a * k + d * k;
  }

  /** One more factor of `c`. */
  lemma MulSucc(k: nat, c: nat)
    ensures k * c + c == (k + 1) * c
  {
  }

  /** Reducing the left operand of a sum modulo `m` first does not change the sum modulo `m`. */
  lemma ModShift(a: nat, m: nat, b: nat)
    requires m > 0
    ensures (a % m + b) % m == (a + b) % m
  {
    var y := a % m + b;
    var d := y / m;
    assert y == d * m + y % m;
    assert a + b == (a / m + d) * m + y % m by {
      assert a == (a / m) * m + a % m;
      assert (a / m + d) * m == (a / m) * m + d * m;
    }
    DivModUnique(a + b, a / m + d, y % m, m);
  }

  /** The quotient and remainder of a division are the only ones. */
  lemma DivModUnique(y: nat, d: nat, r: nat, m: nat)
    requires m > 0 && r < m && y == d * m + r
    ensures y % m == r && y / m == d
  {
    var d', r' := y / m, y % m;
    assert y == d' * m + r';
    if d' > d {
      MulMono(d + 1, d', m);
      assert false;
    } else if d' < d {
      MulMono(d' + 1, d, m);
      assert false;
    }
  }
}
