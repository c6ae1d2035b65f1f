/**
 Strings of fixed-width symbols as strings of bits, and the accumulator both text decoders use to
 regroup symbols into bytes.
 */
module Bits {
  import opened Vocabulary
  import opened Division

  const OCTET: nat := 8
  const WORD: nat := 0x1_0000_0000

  function Pow2(k: nat): (p: nat)
    ensures p > 0
  {
    if k == 0 then 1 else 2 * Pow2(k - 1)
  }

  /** The lowest `w` bits of `v`, highest first. */
  function BitsOf(v: int, w: nat): (bits: seq<bool>)
    ensures |bits| == w
    decreases w, v
  {
    if w == 0 then [] else BitsOf(v / 2, w - 1) + [v % 2 == 1]
  }

  function SymbolBits(symbols: seq<int>, w: nat): seq<bool> {
    if symbols == [] then [] else SymbolBits(symbols[..|symbols| - 1], w) + BitsOf(symbols[|symbols| - 1], w)
  }

  lemma {:induction false} SymbolBitsLength(symbols: seq<int>, w: nat)
    ensures |SymbolBits(symbols, w)| == w * |symbols|
  {
    if symbols != [] {
      SymbolBitsLength(symbols[..|symbols| - 1], w);
      OneMore(w, |symbols| - 1);
    }
  }

  lemma OneMore(w: nat, n: nat)
    ensures w * n + w == w * (n + 1)
  {
  }

  function Zeros(k: nat): (bits: seq<bool>)
    ensures |bits| == k
  {
    seq(k, _ => false)
  }

  predicate Fits(symbols: seq<int>, w: nat) {
    forall i :: 0 <= i < |symbols| ==> 0 <= symbols[i] < Pow2(w)
  }

  // ----- numbers put side by side -----

  /** `high` followed by the lowest `b` bits of `low`. */
  function Join(high: nat, low: nat, b: nat): nat {
    if b == 0 then high else 2 * Join(high, low / 2, b - 1) + low % 2
  }

  lemma {:induction false} JoinIsArithmetic(high: nat, low: nat, b: nat, p: nat)
    requires p == Pow2(b) && low < p
    ensures Join(high, low, b) == high * p + low
  {
    if b > 0 {
      JoinIsArithmetic(high, low / 2, b - 1, Pow2(b - 1));
      Doubled(high, Pow2(b - 1), p);
    }
  }

  lemma Doubled(h: nat, q: nat, p: nat)
    requires p == 2 * q
    ensures 2 * (h * q) == h * p
  {
  }

  lemma {:induction false} JoinedBits(high: nat, low: nat, a: nat, b: nat)
    ensures BitsOf(Join(high, low, b), a + b) == BitsOf(high, a) + BitsOf(low, b)
  {
    if b > 0 {
      var rest := Join(high, low / 2, b - 1);
      assert (2 * rest + low % 2) / 2 == rest && (2 * rest + low % 2) % 2 == low % 2;
      JoinedBits(high, low / 2, a, b - 1);
    }
  }

  /** Bits are cut where the number is. */
  lemma BitsSplit(high: nat, low: nat, a: nat, b: nat, p: nat)
    requires p == Pow2(b) && low < p
    ensures BitsOf(high * p + low, a + b) == BitsOf(high, a) + BitsOf(low, b)
  {
    JoinIsArithmetic(high, low, b, p);
    JoinedBits(high, low, a, b);
  }

  lemma HalfOfRemainder(n: nat, q: nat)
    requires q > 0
    ensures (n % (2 * q)) / 2 == (n / 2) % q && (n % (2 * q)) % 2 == n % 2
  {
    var d, r := (n / 2) / q, (n / 2) % q;
    assert n / 2 == q * d + r;
    var whole := 2 * q;
    assert n == whole * d + (2 * r + n % 2);
    UniqueRemainder(n, d, 2 * r + n % 2, whole);
  }

  /** A remainder keeps the low bits: wrap-around does not reach them. */
  lemma {:induction false} RemainderKeepsBits(n: nat, k: nat, b: nat)
    requires b <= k
    ensures BitsOf(n % Pow2(k), b) == BitsOf(n, b)
  {
    if b > 0 {
      HalfOfRemainder(n, Pow2(k - 1));
      RemainderKeepsBits(n / 2, k - 1, b - 1);
    }
  }

  /** A right shift drops the low bits. */
  lemma {:induction false} ShiftDropsBits(n: nat, a: nat, b: nat, p: nat)
    requires p == Pow2(b)
    ensures BitsOf(n, a + b) == BitsOf(n / p, a) + BitsOf(n, b)
  {
    if b > 0 {
      var q := Pow2(b - 1);
      ShiftDropsBits(n / 2, a, b - 1, q);
      HalvesTwice(n, q, p);
    }
  }

  lemma HalvesTwice(n: nat, q: nat, p: nat)
    requires q > 0 && p == 2 * q
    ensures (n / 2) / q == n / p
  {
    var d, r := (n / 2) / q, (n / 2) % q;
    assert n / 2 == q * d + r;
    assert n == p * d + (2 * r + n % 2);
    UniqueRemainder(n, d, 2 * r + n % 2, p);
  }

  lemma {:induction false} ZeroBits(n: nat, b: nat)
    ensures BitsOf(n, b) == Zeros(b) <==> n % Pow2(b) == 0
  {
    if b > 0 {
      ZeroBits(n / 2, b - 1);
      HalfOfRemainder(n, Pow2(b - 1));
      var bits := BitsOf(n, b);
      assert bits[..b - 1] == BitsOf(n / 2, b - 1) && bits[b - 1] == (n % 2 == 1);
      assert Zeros(b) == Zeros(b - 1) + [false] && Zeros(b)[..b - 1] == Zeros(b - 1);
    }
  }

  lemma {:induction false} BitsInjective(x: nat, y: nat, w: nat)
    requires x < Pow2(w) && y < Pow2(w) && BitsOf(x, w) == BitsOf(y, w)
    ensures x == y
  {
    if w > 0 {
      CutsAgree(BitsOf(x / 2, w - 1), [x % 2 == 1], BitsOf(y / 2, w - 1), [y % 2 == 1]);
      BitsInjective(x / 2, y / 2, w - 1);
    }
  }

  lemma CutsAgree<T>(a: seq<T>, b: seq<T>, c: seq<T>, d: seq<T>)
    requires a + b == c + d && |b| == |d|
    ensures a == c && b == d
  {
    assert |a| == |c|;
    assert a == (a + b)[..|a|] && c == (c + d)[..|c|];
    assert b == (a + b)[|a|..] && d == (c + d)[|c|..];
  }

  // ----- strings of symbols -----

  lemma SymbolBitsSnoc(s: seq<int>, v: int, w: nat)
    ensures SymbolBits(s + [v], w) == SymbolBits(s, w) + BitsOf(v, w)
  {
    assert (s + [v])[..|s|] == s;
  }

  lemma {:induction false} SymbolBitsAppend(s: seq<int>, t: seq<int>, w: nat)
    ensures SymbolBits(s + t, w) == SymbolBits(s, w) + SymbolBits(t, w)
  {
    if t == [] {
      assert s + t == s;
    } else {
      var u, v := t[..|t| - 1], t[|t| - 1];
      assert s + t == (s + u) + [v];
      SymbolBitsSnoc(s + u, v, w);
      SymbolBitsAppend(s, u, w);
      Associative(SymbolBits(s, w), SymbolBits(u, w), BitsOf(v, w));
    }
  }

  lemma Associative<T>(a: seq<T>, b: seq<T>, c: seq<T>)
    ensures (a + b) + c == a + (b + c)
  {
  }

  /** Symbols in front of a symbol: the number they spell together. */
  lemma NumberGrows(s: seq<int>, n: nat, v: nat, w: nat, p: nat, bits: nat)
    requires SymbolBits(s, w) == BitsOf(n, bits) && p == Pow2(w) && v < p
    ensures SymbolBits(s + [v], w) == BitsOf(n * p + v, bits + w)
  {
    SymbolBitsSnoc(s, v, w);
    BitsSplit(n, v, bits, w, p);
  }

  lemma OneNumber(v: int, w: nat)
    ensures SymbolBits([v], w) == BitsOf(v, w)
  {
    SymbolBitsSnoc([], v, w);
    assert [] + [v] == [v];
  }

  /** A bit string reads as at most one string of symbols. */
  lemma {:induction false} SymbolBitsInjective(s: seq<int>, t: seq<int>, w: nat)
    requires w > 0 && Fits(s, w) && Fits(t, w) && SymbolBits(s, w) == SymbolBits(t, w)
    ensures s == t
  {
    hide BitsOf, Pow2;
    assert t == [] ==> SymbolBits(t, w) == [];
    assert s == [] ==> SymbolBits(s, w) == [];
    assert s != [] ==> |SymbolBits(s, w)| >= w;
    assert t != [] ==> |SymbolBits(t, w)| >= w;
    if s != [] {
      var m, n := |s| - 1, |t| - 1;
      LastSymbolsAgree(s[..m], s[m], t[..n], t[n], w);
      SymbolBitsInjective(s[..m], t[..n], w);
      assert s == s[..m] + [s[m]] && t == t[..n] + [t[n]];
    }
  }

  lemma LastSymbolsAgree(s: seq<int>, v: int, t: seq<int>, u: int, w: nat)
    requires 0 <= v < Pow2(w) && 0 <= u < Pow2(w)
    requires SymbolBits(s, w) + BitsOf(v, w) == SymbolBits(t, w) + BitsOf(u, w)
    ensures SymbolBits(s, w) == SymbolBits(t, w) && v == u
  {
    CutsAgree(SymbolBits(s, w), BitsOf(v, w), SymbolBits(t, w), BitsOf(u, w));
    BitsInjective(v, u, w);
  }

  // ----- regrouping -----

  /** A 32-bit accumulator taking in a symbol below `p`: earlier symbols fall out of its top. */
  function Shifted(accumulator: nat, symbol: nat, p: nat): (r: nat)
    ensures r < WORD
  {
    (accumulator * p + symbol) % WORD
  }

  /** The bytes so far, and the accumulator's lowest `bits` bits, are exactly the symbols so far. */
  ghost predicate Regrouped(symbols: seq<int>, w: nat, out: seq<byte>, accumulator: nat, bits: nat) {
    SymbolBits(symbols, w) == SymbolBits(out, OCTET) + BitsOf(accumulator, bits)
  }

  lemma WordIsPow2()
    ensures Pow2(32) == WORD
  {
    assert Pow2(8) == 256;
    assert Pow2(16) == 0x1_0000;
    assert Pow2(24) == 0x100_0000;
  }

  /** One symbol in: the first half of the loop body of both decoders. */
  lemma SymbolComesIn(symbols: seq<int>, symbol: nat, w: nat, p: nat, out: seq<byte>, accumulator: nat, bits: nat)
    requires bits + w <= 32 && p == Pow2(w) && symbol < p && Regrouped(symbols, w, out, accumulator, bits)
    ensures Regrouped(symbols + [symbol], w, out, Shifted(accumulator, symbol, p), bits + w)
  {
    ShiftedBits(accumulator, symbol, w, p, bits);
    SymbolBitsSnoc(symbols, symbol, w);
    Associative(SymbolBits(out, OCTET), BitsOf(accumulator, bits), BitsOf(symbol, w));
  }

  lemma ShiftedBits(accumulator: nat, symbol: nat, w: nat, p: nat, bits: nat)
    requires bits + w <= 32 && p == Pow2(w) && symbol < p
    ensures BitsOf(Shifted(accumulator, symbol, p), bits + w) == BitsOf(accumulator, bits) + BitsOf(symbol, w)
  {
    var n := accumulator * p + symbol;
    WordIsPow2();
    RemainderKeepsBits(n, 32, bits + w);
    BitsSplit(accumulator, symbol, bits, w, p);
  }

  /** One byte out: the second half, `p` being the weight of what stays. */
  lemma ByteLeaves(symbols: seq<int>, w: nat, out: seq<byte>, accumulator: nat, bits: nat, p: nat)
    requires p == Pow2(bits) && Regrouped(symbols, w, out, accumulator, bits + OCTET)
    ensures Regrouped(symbols, w, out + [(accumulator / p) % 256], accumulator, bits)
  {
    var b: byte := (accumulator / p) % 256;
    TopByte(accumulator, bits, p);
    SymbolBitsSnoc(out, b, OCTET);
    Associative(SymbolBits(out, OCTET), BitsOf(b, OCTET), BitsOf(accumulator, bits));
  }

  lemma TopByte(accumulator: nat, bits: nat, p: nat)
    requires p == Pow2(bits)
    ensures BitsOf(accumulator, bits + OCTET) == BitsOf((accumulator / p) % 256, OCTET) + BitsOf(accumulator, bits)
  {
    ShiftDropsBits(accumulator, OCTET, bits, p);
    LowByte(accumulator / p);
  }

  lemma LowByte(n: nat)
    ensures BitsOf(n % 256, OCTET) == BitsOf(n, OCTET)
  {
    assert Pow2(OCTET) == 256;
    RemainderKeepsBits(n, OCTET, OCTET);
  }

  // ----- symbols filled up with zeros -----

  /** The symbols spell the bytes' bits, filled up with `k` zeros. */
  ghost predicate FilledUp(values: seq<int>, w: nat, bytes: seq<byte>, k: nat) {
    SymbolBits(values, w) == SymbolBits(bytes, OCTET) + Zeros(k)
  }

  lemma FillIsDetermined(values: seq<int>, w: nat, bytes: seq<byte>, k: nat)
    requires FilledUp(values, w, bytes, k)
    ensures w * |values| == 8 * |bytes| + k
  {
    SymbolBitsLength(values, w);
    SymbolBitsLength(bytes, OCTET);
  }

  /** With less than a byte of fill, the symbols determine the bytes. */
  lemma BytesAgree(values: seq<int>, w: nat, a: seq<byte>, b: seq<byte>, j: nat, k: nat)
    requires FilledUp(values, w, a, j) && FilledUp(values, w, b, k) && j < 8 && k < 8
    ensures a == b && j == k
  {
    FillIsDetermined(values, w, a, j);
    FillIsDetermined(values, w, b, k);
    SameRemainder(|a|, |b|, j, k);
    CutsAgree(SymbolBits(a, OCTET), Zeros(j), SymbolBits(b, OCTET), Zeros(k));
    BytesFit(a);
    BytesFit(b);
    SymbolBitsInjective(a, b, OCTET);
  }

  lemma SameRemainder(m: nat, n: nat, j: nat, k: nat)
    requires 8 * m + j == 8 * n + k && j < 8 && k < 8
    ensures m == n && j == k
  {
  }

  lemma BytesFit(bytes: seq<byte>)
    ensures Fits(bytes, OCTET)
  {
    assert Pow2(OCTET) == 256;
  }

  /** What waits is fill when the mask test passes, and otherwise nothing spells these symbols. */
  lemma LeftoverIsFill(values: seq<int>, w: nat, out: seq<byte>, accumulator: nat, bits: nat)
    requires Regrouped(values, w, out, accumulator, bits) && bits < 8
    ensures accumulator % Pow2(bits) == 0 ==> FilledUp(values, w, out, bits)
    ensures accumulator % Pow2(bits) != 0 ==> forall bytes: seq<byte>, k: nat :: FilledUp(values, w, bytes, k) ==> k >= 8
  {
    ZeroBits(accumulator, bits);
    forall bytes: seq<byte>, k: nat | FilledUp(values, w, bytes, k) && k < 8 ensures BitsOf(accumulator, bits) == Zeros(bits) {
      SameLeftover(values, w, out, BitsOf(accumulator, bits), bytes, k);
    }
  }

  lemma SameLeftover(values: seq<int>, w: nat, out: seq<byte>, rest: seq<bool>, bytes: seq<byte>, k: nat)
    requires SymbolBits(values, w) == SymbolBits(out, OCTET) + rest && |rest| < 8
    requires FilledUp(values, w, bytes, k) && k < 8
    ensures rest == Zeros(k)
  {
    SymbolBitsLength(out, OCTET);
    SymbolBitsLength(bytes, OCTET);
    SameRemainder(|out|, |bytes|, |rest|, k);
    CutsAgree(SymbolBits(out, OCTET), rest, SymbolBits(bytes, OCTET), Zeros(k));
  }
}
