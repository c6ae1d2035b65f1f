/** Facts about quotients and remainders that the codecs share. */
module Division {
  lemma UniqueRemainder(x: nat, q: nat, t: nat, a: nat)
    requires a > 0 && x == a * q + t && t < a
    ensures x % a == t && x / a == q
  {
    var d := x / a - q;
    assert a * d == t - x % a;
    MultiplesAreFar(a, d);
  }

  lemma MultiplesAreFar(a: int, d: int)
    requires a >= 0
    ensures d >= 1 ==> a * d >= a
    ensures d <= -1 ==> a * d <= -a
  {
  }
}
