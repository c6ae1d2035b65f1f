/** Fixed-width numbers as bytes, in both byte orders. */
module Bytes {
  import opened Vocabulary

  function Pow256(w: nat): (p: nat)
    ensures p > 0
  {
    if w == 0 then 1 else 256 * Pow256(w - 1)
  }

  lemma {:induction false} PowersMultiply(v: nat, w: nat)
    ensures Pow256(v + w) == Pow256(v) * Pow256(w)
  {
    if v > 0 { PowersMultiply(v - 1, w); }
  }

  /** The number a little-endian byte string stands for. */
  function LittleValue(s: seq<byte>): (n: nat)
    ensures n < Pow256(|s|)
  {
    if s == [] then 0 else s[0] + 256 * LittleValue(s[1..])
  }

  function LittleEndian(n: nat, w: nat): (s: seq<byte>)
    ensures |s| == w
  {
    if w == 0 then [] else [n % 256] + LittleEndian(n / 256, w - 1)
  }

  function BigValue(s: seq<byte>): (n: nat)
    ensures n < Pow256(|s|)
  {
    if s == [] then 0 else BigValue(s[..|s| - 1]) * 256 + s[|s| - 1]
  }

  function BigEndian(n: nat, w: nat): (s: seq<byte>)
    ensures |s| == w
  {
    if w == 0 then [] else BigEndian(n / 256, w - 1) + [n % 256]
  }

  lemma {:induction false} LittleRoundTrip(n: nat, w: nat)
    requires n < Pow256(w)
    ensures LittleValue(LittleEndian(n, w)) == n
  {
    if w > 0 {
      LittleRoundTrip(n / 256, w - 1);
      assert LittleEndian(n, w)[1..] == LittleEndian(n / 256, w - 1);
    }
  }

  lemma {:induction false} LittleIsCanonical(s: seq<byte>)
    ensures LittleEndian(LittleValue(s), |s|) == s
  {
    if s != [] {
      var n := LittleValue(s);
      assert n % 256 == s[0] && n / 256 == LittleValue(s[1..]);
      LittleIsCanonical(s[1..]);
    }
  }

  lemma {:induction false} BigRoundTrip(n: nat, w: nat)
    requires n < Pow256(w)
    ensures BigValue(BigEndian(n, w)) == n
  {
    if w > 0 {
      BigRoundTrip(n / 256, w - 1);
      assert BigEndian(n, w)[..w - 1] == BigEndian(n / 256, w - 1);
    }
  }

  lemma {:induction false} BigIsCanonical(s: seq<byte>)
    ensures BigEndian(BigValue(s), |s|) == s
  {
    if s != [] {
      var n := BigValue(s);
      assert n % 256 == s[|s| - 1] && n / 256 == BigValue(s[..|s| - 1]);
      BigIsCanonical(s[..|s| - 1]);
      assert s == s[..|s| - 1] + [s[|s| - 1]];
    }
  }
}
