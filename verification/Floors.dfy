/** Floors of quotients of integers. */
module Floors {

  lemma MulMono(a: int, b: int, k: nat)
    requires a <= b
    ensures a * k <= b * k
  {
  }

  /** q is the floor of a/b. */
  lemma FloorUnique(a: int, b: nat, q: int)
    requires b > 0 && q * b <= a < q * b + b
    ensures a / b == q
  {
    var p := a / b;
    FloorBounds(a, b);
    assert (p + 1) * b == p * b + b && (q + 1) * b == q * b + b;
    CancelLt(q, p + 1, b);
    CancelLt(p, q + 1, b);
  }

  lemma FloorBounds(a: int, b: nat)
    requires b > 0
    ensures a / b * b <= a < a / b * b + b
  {
    assert a / b * b + a % b == a;
  }

  lemma FloorMono(a: int, c: int, b: nat)
    requires b > 0 && a <= c
    ensures a / b <= c / b
  {
    FloorBounds(a, b);
    FloorBounds(c, b);
    assert (c / b + 1) * b == c / b * b + b;
    CancelLt(a / b, c / b + 1, b);
  }

  lemma CancelLtIntro(a: int, b: int, k: nat)
    requires k > 0 && a < b
    ensures a * k < b * k
  {
    MulMono(a + 1, b, k);
  }

  lemma CancelLe(a: int, b: int, k: nat)
    requires k > 0 && a * k <= b * k
    ensures a <= b
  {
    if b < a { CancelLtIntro(b, a, k); }
  }

  lemma CancelLt(a: int, b: int, k: nat)
    requires k > 0 && a * k < b * k
    ensures a < b
  {
    if b <= a { MulMono(b, a, k); }
  }

  /** Equal fractions have equal floors, whatever terms they are written in. */
  lemma FloorOfEqual(a: int, b: nat, c: int, d: nat)
    requires b > 0 && d > 0 && a * d == c * b
    ensures a / b == c / d
  {
    var q := a / b;
    FloorBounds(a, b);
    MulMono(q * b, a, d);
    assert q * b * d == (q * d) * b;
    CancelLe(q * d, c, b);
    assert (q * b + b) * d == (q * d + d) * b;
    assert a * d < (q * b + b) * d by { CancelLtIntro(a, q * b + b, d); }
    CancelLt(c, q * d + d, b);
    FloorUnique(c, d, q);
  }

  lemma FloorOfFloor(n: int, p: nat, d: nat)
    requires p > 0 && d > 0
    ensures p * d > 0 && n / p / d == n / (p * d)
  {
    MulMono(1, p, d);
    var x, q := n / p, n / p / d;
    FloorBounds(n, p);
    FloorBounds(x, d);
    MulMono(q * d, x, p);
    MulMono(x + 1, q * d + d, p);
    assert q * d * p == q * (p * d);
    assert (q * d + d) * p == q * (p * d) + p * d;
    assert (x + 1) * p == x * p + p;
    FloorUnique(n, p * d, q);
  }

  lemma NonNegative(a: int, b: nat)
    requires a >= 0 && b > 0
    ensures a / b >= 0
  {
    FloorMono(0, a, b);
    FloorUnique(0, b, 0);
  }

  /** `big.Int.Quo`, which truncates toward zero. */
  function QuoTrunc(a: int, b: nat): int
    requires b > 0
  {
    if a >= 0 then a / b else -((-a) / b)
  }

  lemma QuoTruncNegative(a: int, b: nat)
    requires a < 0 && b > 0
    ensures QuoTrunc(a, b) <= 0 && (QuoTrunc(a, b) == 0 <==> a + b > 0)
  {
    NonNegative(-a, b);
    if a + b > 0 { FloorUnique(-a, b, 0); }
    else {
      FloorMono(b, -a, b);
      FloorUnique(b, b, 1);
    }
  }
}
