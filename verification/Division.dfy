/** Quotient and remainder by a variable divisor: what the layout, grid and buffer arithmetic needs of them. */
module Division {

  lemma Distribute(k: int, l: int, b: int)
    ensures (k + l) * b == k * b + l * b
  {
  }

  lemma AtLeastOne(k: int, b: int)
    requires k >= 1 && b >= 0
    ensures k * b >= b
  {
  }

  lemma Monotone(k: int, l: int, b: int)
    requires k <= l && b >= 0
    ensures k * b <= l * b
  {
  }

  lemma QuotientIsUnique(x: nat, b: nat, q: nat, r: nat)
    requires r < b && x == q * b + r
    ensures x / b == q && x % b == r
  {
    var p := x / b;
    Distribute(p - q, q, b);
    if p > q {
      AtLeastOne(p - q, b);
    } else if p < q {
      Distribute(q - p, p, b);
      AtLeastOne(q - p, b);
    }
  }

  lemma StepUp(x: nat, b: nat)
    requires b > 0
    ensures (x + b) / b == x / b + 1 && (x + b) % b == x % b
  {
    Distribute(x / b, 1, b);
    QuotientIsUnique(x + b, b, x / b + 1, x % b);
  }
}
