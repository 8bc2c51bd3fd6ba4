/** Facts about division by a variable. */
module Division {
  lemma AtLeastOnce(d: int, a: nat)
    requires d >= 1
    ensures d * a >= a
  {
  }

  lemma DivModUnique(x: nat, a: nat, q: nat, r: nat)
    requires a > 0 && x == q * a + r && r < a
    ensures x / a == q && x % a == r
  {
    var q', r' := x / a, x % a;
    assert x == q' * a + r';
    assert (q' - q) * a == q' * a - q * a;
    assert (q - q') * a == q * a - q' * a;
    if q < q' {
      AtLeastOnce(q' - q, a);
    } else if q' < q {
      AtLeastOnce(q - q', a);
    }
  }

  lemma MultipleMod(k: nat, a: nat)
    requires a > 0
    ensures (k * a) % a == 0 && (k * a) / a == k
  {
    DivModUnique(k * a, a, k, 0);
  }
}
