/** Base32 secrets (section 6 of RFC 4648), as the firmware reads them. */
module Base32 {
  import opened Vocabulary
  import opened Bits

  const QUINTET: nat := 5

  /** Letters of either case, then the digits 2 to 7. */
  function LetterValue(ch: char): Option<nat> {
    if 'A' <= ch <= 'Z' then Some(ch as nat - 'A' as nat)
    else if 'a' <= ch <= 'z' then Some(ch as nat - 'a' as nat)
    else if '2' <= ch <= '7' then Some(ch as nat - '2' as nat + 26)
    else None
  }

  predicate Spelled(text: string) {
    forall i :: 0 <= i < |text| ==> LetterValue(text[i]).Some?
  }

  function Values(text: string): (values: seq<int>)
    requires Spelled(text)
    ensures |values| == |text| && Fits(values, QUINTET)
  {
    assert Pow2(QUINTET) == 32;
    seq(|text|, i requires 0 <= i < |text| => LetterValue(text[i]).value)
  }

  predicate AllPadding(text: string) {
    forall i :: 0 <= i < |text| ==> text[i] == '='
  }

  /** Where the letters end, and nothing but padding follows. */
  ghost predicate SplitsAt(text: string, n: int) {
    0 <= n <= |text| && Spelled(text[..n]) && AllPadding(text[n..])
  }

  /** The letters spell the bytes with `k` zeros of fill; any amount of padding may follow. */
  ghost predicate Spells(text: string, bytes: seq<byte>, n: int, k: nat) {
    SplitsAt(text, n) && FilledUp(Values(text[..n]), QUINTET, bytes, k)
  }

  /** What the decoder turns into `bytes`: less than a byte of fill, and at least one byte. */
  ghost predicate Accepts(text: string, bytes: seq<byte>) {
    bytes != [] && exists n: int, k: nat :: Spells(text, bytes, n, k) && k < 8
  }

  /** The encoding of the standard, with its padding or without. */
  ghost predicate Encodes(text: string, bytes: seq<byte>) {
    exists n: int, k: nat :: Spells(text, bytes, n, k) && k < 5 && (n == |text| || |text| == 8 * ((n + 7) / 8))
  }

  /** Every encoding of a secret is accepted, and as that secret. */
  lemma EncodingsAreAccepted(text: string, bytes: seq<byte>)
    requires bytes != [] && Encodes(text, bytes)
    ensures Accepts(text, bytes)
  {
    var n: int, k: nat :| Spells(text, bytes, n, k) && k < 5;
    assert Spells(text, bytes, n, k) && k < 8;
  }

  /** Padding is recognized character by character. */
  lemma SplitMeans(text: string, n: int)
    requires SplitsAt(text, n)
    ensures forall i :: 0 <= i < |text| ==> (text[i] == '=' <==> n <= i) && (i < n ==> LetterValue(text[i]).Some?)
  {
    forall i | 0 <= i < |text|
      ensures (text[i] == '=' <==> n <= i) && (i < n ==> LetterValue(text[i]).Some?)
    {
      if i < n { assert text[..n][i] == text[i]; } else { assert text[n..][i - n] == text[i]; }
    }
  }

  lemma SplitIsUnique(text: string, m: int, n: int)
    requires SplitsAt(text, m) && SplitsAt(text, n)
    ensures m == n
  {
    SplitMeans(text, m);
    SplitMeans(text, n);
    assert m < |text| ==> text[m] == '=';
    assert n < |text| ==> text[n] == '=';
  }

  lemma AcceptedAsOneSecret(text: string, a: seq<byte>, b: seq<byte>)
    requires Accepts(text, a) && Accepts(text, b)
    ensures a == b
  {
    var m: int, j: nat :| Spells(text, a, m, j) && j < 8;
    var n: int, k: nat :| Spells(text, b, n, k) && k < 8;
    SplitIsUnique(text, m, n);
    BytesAgree(Values(text[..m]), QUINTET, a, b, j, k);
  }

  /** Five or more zeros of fill are a surplus letter of value zero after a shorter spelling. */
  lemma SurplusLetter(values: seq<int>, bytes: seq<byte>, k: nat)
    requires Fits(values, QUINTET) && 5 <= k && values != []
    ensures FilledUp(values, QUINTET, bytes, k) <==>
            values[|values| - 1] == 0 && FilledUp(values[..|values| - 1], QUINTET, bytes, k - 5)
  {
    var shorter, last := values[..|values| - 1], values[|values| - 1];
    LetterIsZero(last);
    TailIsZeros(SymbolBits(shorter, QUINTET), BitsOf(last, QUINTET), SymbolBits(bytes, OCTET), k);
  }

  lemma LetterIsZero(letter: int)
    requires 0 <= letter < Pow2(QUINTET)
    ensures BitsOf(letter, QUINTET) == Zeros(5) <==> letter == 0
  {
    assert Pow2(QUINTET) == 32;
    ZeroBits(letter, QUINTET);
  }

  lemma TailIsZeros(front: seq<bool>, tail: seq<bool>, spelled: seq<bool>, k: nat)
    requires |tail| == 5 <= k
    ensures front + tail == spelled + Zeros(k) <==> tail == Zeros(5) && front == spelled + Zeros(k - 5)
  {
    assert Zeros(k) == Zeros(k - 5) + Zeros(5);
    Associative(spelled, Zeros(k - 5), Zeros(5));
    if front + tail == spelled + Zeros(k) { CutsAgree(front, tail, spelled + Zeros(k - 5), Zeros(5)); }
  }

  /** So the decoder is not injective: a surplus A is silently accepted. */
  lemma SurplusIsAccepted()
    ensures Accepts("AA", [0]) && Accepts("AAA", [0]) && Accepts("aa=", [0])
  {
    TwoZeros();
    ThreeZeros();
    assert "AA"[..2] == "AA" && Values("AA") == [0, 0];
    assert Spells("AA", [0], 2, 2);
    assert "AAA"[..3] == "AAA" && Values("AAA") == [0, 0, 0];
    assert Spells("AAA", [0], 3, 7);
    assert "aa="[..2] == "aa" && Values("aa") == [0, 0];
    assert Spells("aa=", [0], 2, 2);
  }

  lemma {:induction false} ZerosSpellZeros(values: seq<int>, w: nat)
    requires forall i :: 0 <= i < |values| ==> values[i] == 0
    ensures SymbolBits(values, w) == Zeros(w * |values|)
  {
    SymbolBitsLength(values, w);
    if values != [] {
      ZerosSpellZeros(values[..|values| - 1], w);
      ZeroBits(0, w);
    }
  }

  lemma TwoZeros()
    ensures FilledUp([0, 0], QUINTET, [0], 2)
  {
    ZerosSpellZeros([0, 0], QUINTET);
    ZerosSpellZeros([0], OCTET);
    assert Zeros(10) == Zeros(8) + Zeros(2);
  }

  lemma ThreeZeros()
    ensures FilledUp([0, 0, 0], QUINTET, [0], 7)
  {
    ZerosSpellZeros([0, 0, 0], QUINTET);
    ZerosSpellZeros([0], OCTET);
    assert Zeros(15) == Zeros(8) + Zeros(7);
  }

  lemma LetterRegroups(encoded: string, i: nat, v: nat, accumulator: nat, bits: nat, out: seq<byte>)
    requires i < |encoded| && Spelled(encoded[..i]) && LetterValue(encoded[i]) == Some(v) && bits < 8
    requires Regrouped(Values(encoded[..i]), QUINTET, out, accumulator, bits)
    ensures Spelled(encoded[..i + 1])
    ensures var next := Shifted(accumulator, v, 32);
            if bits + 5 >= 8 then
              Regrouped(Values(encoded[..i + 1]), QUINTET, out + [(next / Pow2(bits - 3)) % 256], next, bits - 3)
            else Regrouped(Values(encoded[..i + 1]), QUINTET, out, next, bits + 5)
  {
    LetterIsSpelled(encoded, i, v);
    assert Pow2(QUINTET) == 32;
    SymbolComesIn(Values(encoded[..i]), v, QUINTET, 32, out, accumulator, bits);
    if bits + 5 >= 8 {
      ByteLeaves(Values(encoded[..i]) + [v], QUINTET, out, Shifted(accumulator, v, 32), bits - 3, Pow2(bits - 3));
    }
  }

  lemma LetterIsSpelled(encoded: string, i: nat, v: nat)
    requires i < |encoded| && Spelled(encoded[..i]) && LetterValue(encoded[i]) == Some(v)
    ensures Spelled(encoded[..i + 1]) && Values(encoded[..i + 1]) == Values(encoded[..i]) + [v] && v < 32
  {
    var longer := encoded[..i + 1];
    assert longer == encoded[..i] + [encoded[i]];
    assert forall j :: 0 <= j < i ==> longer[j] == encoded[..i][j];
    assert Spelled(longer);
    assert Values(longer) == Values(encoded[..i]) + [v];
  }

  /** A letter after padding, or a character outside the alphabet, spoils the whole text. */
  lemma Spoiled(encoded: string, n: nat, i: nat, bytes: seq<byte>)
    requires n <= i < |encoded| && encoded[i] != '=' && (n < i ==> encoded[n] == '=')
    requires LetterValue(encoded[i]).None? || n < i
    ensures !Accepts(encoded, bytes)
  {
    if Accepts(encoded, bytes) {
      var m: int, k: nat :| Spells(encoded, bytes, m, k) && k < 8;
      SplitMeans(encoded, m);
    }
  }

  lemma Verdict(encoded: string, n: nat, out: seq<byte>, accumulator: nat, bits: nat)
    requires SplitsAt(encoded, n) && bits < 8
    requires Regrouped(Values(encoded[..n]), QUINTET, out, accumulator, bits)
    ensures out != [] && accumulator % Pow2(bits) == 0 ==> Accepts(encoded, out)
    ensures out == [] || accumulator % Pow2(bits) != 0 ==> forall bytes: seq<byte> :: !Accepts(encoded, bytes)
  {
    LeftoverIsFill(Values(encoded[..n]), QUINTET, out, accumulator, bits);
    if accumulator % Pow2(bits) == 0 { assert Spells(encoded, out, n, bits); }
    forall bytes: seq<byte> | Accepts(encoded, bytes) ensures out == bytes && accumulator % Pow2(bits) == 0 {
      var m: int, k: nat :| Spells(encoded, bytes, m, k) && k < 8;
      SplitIsUnique(encoded, m, n);
      BytesAgree(Values(encoded[..n]), QUINTET, out, bytes, bits, k);
    }
  }

  /** One letter into the accumulator, and one byte out of it when there is one. */
  method TakeLetter(ghost encoded: string, ghost i: nat, v: nat, accumulator: nat, bits: nat, out: seq<byte>)
    returns (next: nat, left: nat, longer: seq<byte>)
    requires i < |encoded| && Spelled(encoded[..i]) && LetterValue(encoded[i]) == Some(v) && bits < 8
    requires Regrouped(Values(encoded[..i]), QUINTET, out, accumulator, bits)
    ensures Spelled(encoded[..i + 1]) && left < 8
    ensures Regrouped(Values(encoded[..i + 1]), QUINTET, longer, next, left)
  {
    LetterRegroups(encoded, i, v, accumulator, bits, out);
    next, left, longer := Shifted(accumulator, v, 32), bits + 5, out;
    if left >= 8 {
      left := left - 8;
      longer := longer + [(next / Pow2(left)) % 256];
    }
  }

  /** Accepts exactly the texts described above, whatever the accumulator has lost off its top. */
  method Decode(encoded: string) returns (ok: bool, decoded: seq<byte>)
    ensures ok ==> Accepts(encoded, decoded)
    ensures !ok ==> forall bytes: seq<byte> :: !Accepts(encoded, bytes)
  {
    decoded := [];
    var accumulator: nat, bits: nat := 0, 0;
    var paddingStarted := false;
    ghost var n := 0;
    var i := 0;
    assert encoded[..0] == [];
    while i < |encoded|
      invariant 0 <= n <= i <= |encoded| && Spelled(encoded[..n])
      invariant forall j :: n <= j < i ==> encoded[j] == '='
      invariant bits < 8 && (paddingStarted <==> n < i)
      invariant Regrouped(Values(encoded[..n]), QUINTET, decoded, accumulator, bits)
    {
      if encoded[i] == '=' {
        paddingStarted := true;
      } else {
        var letter := LetterValue(encoded[i]);
        if paddingStarted || letter.None? {
          forall bytes: seq<byte> ensures !Accepts(encoded, bytes) { Spoiled(encoded, n, i, bytes); }
          return false, decoded;
        }
        accumulator, bits, decoded := TakeLetter(encoded, i, letter.value, accumulator, bits, decoded);
        n := i + 1;
      }
      i := i + 1;
    }
    Verdict(encoded, n, decoded, accumulator, bits);
    assert Pow2(0) == 1;
    ok := decoded != [] && !(bits > 0 && accumulator % Pow2(bits) != 0);
  }
}
