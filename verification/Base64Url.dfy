/** Base64url without padding (section 5 of RFC 4648), as the protocol reads and writes it. */
module Base64Url {
  import opened Vocabulary
  import opened Bits

  const SEXTET: nat := 6

  function Letter(v: nat): char
    requires v < 64
  {
    if v < 26 then 'A' + v as char
    else if v < 52 then 'a' + (v - 26) as char
    else if v < 62 then '0' + (v - 52) as char
    else if v == 62 then '-' else '_'
  }

  /** The value of a letter of the alphabet, or None. */
  function LetterValue(ch: char): Option<nat> {
    if 'A' <= ch <= 'Z' then Some(ch as nat - 'A' as nat)
    else if 'a' <= ch <= 'z' then Some(ch as nat - 'a' as nat + 26)
    else if '0' <= ch <= '9' then Some(ch as nat - '0' as nat + 52)
    else if ch == '-' then Some(62)
    else if ch == '_' then Some(63)
    else None
  }

  lemma LettersRoundTrip(ch: char, v: nat)
    requires v < 64
    ensures LetterValue(ch) == Some(v) <==> ch == Letter(v)
  {
  }

  predicate Spelled(text: string) {
    forall i :: 0 <= i < |text| ==> LetterValue(text[i]).Some?
  }

  function Values(text: string): (values: seq<int>)
    requires Spelled(text)
    ensures |values| == |text| && Fits(values, SEXTET)
  {
    assert Pow2(6) == 64;
    seq(|text|, i requires 0 <= i < |text| => LetterValue(text[i]).value)
  }

  lemma SpellingIsUnique(s: string, t: string)
    requires Spelled(s) && Spelled(t) && Values(s) == Values(t)
    ensures s == t
  {
    forall i | 0 <= i < |s| ensures s[i] == t[i] {
      assert Values(s)[i] == Values(t)[i];
      LettersRoundTrip(s[i], Values(s)[i]);
      LettersRoundTrip(t[i], Values(s)[i]);
    }
  }

  /**
   `text` is the encoding of `bytes`: its six-bit letters spell the bytes' bits, filled up with
   fewer than six zeros.
   */
  ghost predicate Encodes(text: string, bytes: seq<byte>) {
    Spelled(text) && exists k: nat :: FilledUp(Values(text), SEXTET, bytes, k) && k < 6
  }


  lemma EncodingIsUnique(s: string, t: string, bytes: seq<byte>)
    requires Encodes(s, bytes) && Encodes(t, bytes)
    ensures s == t
  {
    var j: nat :| FilledUp(Values(s), SEXTET, bytes, j) && j < 6;
    var k: nat :| FilledUp(Values(t), SEXTET, bytes, k) && k < 6;
    ValuesAgree(Values(s), Values(t), bytes, j, k);
    SpellingIsUnique(s, t);
  }

  lemma ValuesAgree(s: seq<int>, t: seq<int>, bytes: seq<byte>, j: nat, k: nat)
    requires Fits(s, SEXTET) && Fits(t, SEXTET) && FilledUp(s, SEXTET, bytes, j) && FilledUp(t, SEXTET, bytes, k) && j < 6 && k < 6
    ensures s == t
  {
    assert j == k by { FillDependsOnLength(s, t, bytes, j, k); }
    SymbolBitsInjective(s, t, SEXTET);
  }

  lemma FillDependsOnLength(s: seq<int>, t: seq<int>, bytes: seq<byte>, j: nat, k: nat)
    requires FilledUp(s, SEXTET, bytes, j) && FilledUp(t, SEXTET, bytes, k) && j < 6 && k < 6
    ensures j == k
  {
    FillIsDetermined(s, SEXTET, bytes, j);
    FillIsDetermined(t, SEXTET, bytes, k);
    SameFill(|s|, |t|, |bytes|, j, k);
  }

  lemma SameFill(m: nat, n: nat, bytes: nat, j: nat, k: nat)
    requires 6 * m == 8 * bytes + j && 6 * n == 8 * bytes + k && j < 6 && k < 6
    ensures j == k
  {
    var d := m - n;
    assert j - k == 6 * d;
  }

  lemma DecodingIsUnique(text: string, a: seq<byte>, b: seq<byte>)
    requires Encodes(text, a) && Encodes(text, b)
    ensures a == b
  {
    var j: nat :| FilledUp(Values(text), SEXTET, a, j) && j < 6;
    var k: nat :| FilledUp(Values(text), SEXTET, b, k) && k < 6;
    BytesAgree(Values(text), SEXTET, a, b, j, k);
  }

  // ----- encoding, three bytes at a time -----

  function Word(a: byte, b: byte, c: byte): nat {
    a * 0x1_0000 + b * 0x100 + c
  }

  function FourValues(x: nat): seq<int> {
    [(x / 0x4_0000) % 64, (x / 0x1000) % 64, (x / 0x40) % 64, x % 64]
  }

  lemma TwoAsNumber(v: nat, u: nat, n: nat)
    requires v < 64 && u < 64 && n == v * 64 + u
    ensures SymbolBits([v, u], SEXTET) == BitsOf(n, 12)
  {
    hide BitsOf, SymbolBits;
    assert Pow2(SEXTET) == 64;
    OneNumber(v, SEXTET);
    NumberGrows([v], v, u, SEXTET, 64, SEXTET);
    assert [v] + [u] == [v, u];
  }

  lemma ThreeAsNumber(v: nat, u: nat, t: nat, n: nat)
    requires v < 64 && u < 64 && t < 64 && n == (v * 64 + u) * 64 + t
    ensures SymbolBits([v, u, t], SEXTET) == BitsOf(n, 18)
  {
    hide BitsOf, SymbolBits;
    assert Pow2(SEXTET) == 64;
    TwoAsNumber(v, u, v * 64 + u);
    NumberGrows([v, u], v * 64 + u, t, SEXTET, 64, 12);
    assert [v, u] + [t] == [v, u, t];
  }

  lemma FourAsNumber(v: nat, u: nat, t: nat, s: nat, n: nat)
    requires v < 64 && u < 64 && t < 64 && s < 64 && n == ((v * 64 + u) * 64 + t) * 64 + s
    ensures SymbolBits([v, u, t, s], SEXTET) == BitsOf(n, 24)
  {
    hide BitsOf, SymbolBits;
    assert Pow2(SEXTET) == 64;
    ThreeAsNumber(v, u, t, (v * 64 + u) * 64 + t);
    NumberGrows([v, u, t], (v * 64 + u) * 64 + t, s, SEXTET, 64, 18);
    assert [v, u, t] + [s] == [v, u, t, s];
  }

  lemma BytesAsNumber(a: byte, b: byte, c: byte, w: nat)
    requires w == 8
    ensures SymbolBits([a], w) == BitsOf(a, w)
    ensures SymbolBits([a, b], w) == BitsOf(a * 256 + b, 2 * w)
    ensures SymbolBits([a, b, c], w) == BitsOf((a * 256 + b) * 256 + c, 3 * w)
  {
    hide BitsOf, SymbolBits;
    assert Pow2(8) == 256;
    OneNumber(a, w);
    NumberGrows([a], a, b, w, 256, w);
    assert [a] + [b] == [a, b];
    NumberGrows([a, b], a * 256 + b, c, w, 256, 2 * w);
    assert [a, b] + [c] == [a, b, c];
  }

  lemma ThreeBytesAsNumber(a: byte, b: byte, c: byte, n: nat)
    requires n == (a * 256 + b) * 256 + c
    ensures SymbolBits([a, b, c], OCTET) == BitsOf(n, 24)
  {
    hide BitsOf, SymbolBits;
    BytesAsNumber(a, b, c, OCTET);
  }

  /** The letters cut the same number the bytes spell. */
  lemma WordIsCut(a: byte, b: byte, c: byte)
    ensures var v := FourValues(Word(a, b, c));
            ((v[0] * 64 + v[1]) * 64 + v[2]) * 64 + v[3] == (a * 256 + b) * 256 + c
    ensures var v := FourValues(Word(a, b, 0)); (v[0] * 64 + v[1]) * 64 + v[2] == (a * 256 + b) * 4
    ensures var v := FourValues(Word(a, 0, 0)); v[0] * 64 + v[1] == a * 16
  {
    Cut(Word(a, b, c));
    Cut(Word(a, b, 0));
    Cut(Word(a, 0, 0));
  }

  lemma Cut(x: nat)
    requires x < 0x100_0000
    ensures var v := FourValues(x);
            && ((v[0] * 64 + v[1]) * 64 + v[2]) * 64 + v[3] == x
            && (v[0] * 64 + v[1]) * 64 + v[2] == x / 0x40
            && v[0] * 64 + v[1] == x / 0x1000
  {
    var q := x / 0x40;
    var r := q / 64;
    assert x / 0x1000 == r;
    assert x / 0x4_0000 == r / 64 < 64;
  }

  predicate Sextets(v: seq<int>) {
    |v| == 4 && 0 <= v[0] < 64 && 0 <= v[1] < 64 && 0 <= v[2] < 64 && 0 <= v[3] < 64
  }

  lemma FullGroup(a: byte, b: byte, c: byte)
    ensures FilledUp(FourValues(Word(a, b, c)), SEXTET, [a, b, c], 0)
  {
    WordIsCut(a, b, c);
    FullGroupOf(FourValues(Word(a, b, c)), a, b, c);
  }

  lemma FullGroupOf(v: seq<int>, a: byte, b: byte, c: byte)
    requires Sextets(v) && ((v[0] * 64 + v[1]) * 64 + v[2]) * 64 + v[3] == (a * 256 + b) * 256 + c
    ensures FilledUp(v, SEXTET, [a, b, c], 0)
  {
    hide BitsOf, SymbolBits;
    var n := (a * 256 + b) * 256 + c;
    FourAsNumber(v[0], v[1], v[2], v[3], n);
    ThreeBytesAsNumber(a, b, c, n);
    assert v == [v[0], v[1], v[2], v[3]];
    NoFill(v, [a, b, c], n, 24);
  }

  lemma NoFill(values: seq<int>, bytes: seq<byte>, n: nat, bits: nat)
    requires SymbolBits(values, SEXTET) == BitsOf(n, bits) && SymbolBits(bytes, OCTET) == BitsOf(n, bits)
    ensures FilledUp(values, SEXTET, bytes, 0)
  {
    hide BitsOf, SymbolBits;
    assert SymbolBits(bytes, OCTET) + Zeros(0) == SymbolBits(bytes, OCTET);
  }

  lemma ZeroFill(n: nat, bits: nat, k: nat, p: nat)
    requires p == Pow2(k)
    ensures BitsOf(n * p, bits + k) == BitsOf(n, bits) + Zeros(k)
  {
    BitsSplit(n, 0, bits, k, p);
    ZeroBits(0, k);
  }

  lemma GroupFills(values: seq<int>, bytes: seq<byte>, n: nat, bits: nat, k: nat, p: nat)
    requires SymbolBits(values, SEXTET) == BitsOf(n * p, bits + k) && SymbolBits(bytes, OCTET) == BitsOf(n, bits)
    requires p == Pow2(k)
    ensures FilledUp(values, SEXTET, bytes, k)
  {
    hide BitsOf, SymbolBits;
    ZeroFill(n, bits, k, p);
  }

  /** The two short groups, whose missing bytes are zero fill. */
  lemma TwoByteGroup(a: byte, b: byte)
    ensures FilledUp(FourValues(Word(a, b, 0))[..3], SEXTET, [a, b], 2)
  {
    WordIsCut(a, b, 0);
    TwoByteGroupOf(FourValues(Word(a, b, 0)), a, b);
  }

  lemma TwoByteGroupOf(v: seq<int>, a: byte, b: byte)
    requires Sextets(v) && (v[0] * 64 + v[1]) * 64 + v[2] == (a * 256 + b) * 4
    ensures FilledUp(v[..3], SEXTET, [a, b], 2)
  {
    hide BitsOf, SymbolBits;
    assert Pow2(2) == 4;
    var n := a * 256 + b;
    ThreeAsNumber(v[0], v[1], v[2], n * 4);
    BytesAsNumber(a, b, 0, OCTET);
    assert v[..3] == [v[0], v[1], v[2]];
    GroupFills([v[0], v[1], v[2]], [a, b], n, 16, 2, 4);
  }

  lemma OneByteGroup(a: byte)
    ensures FilledUp(FourValues(Word(a, 0, 0))[..2], SEXTET, [a], 4)
  {
    WordIsCut(a, 0, 0);
    OneByteGroupOf(FourValues(Word(a, 0, 0)), a);
  }

  lemma OneByteGroupOf(v: seq<int>, a: byte)
    requires Sextets(v) && v[0] * 64 + v[1] == a * 16
    ensures FilledUp(v[..2], SEXTET, [a], 4)
  {
    hide BitsOf, SymbolBits;
    assert Pow2(4) == 16;
    TwoAsNumber(v[0], v[1], a * 16);
    BytesAsNumber(a, 0, 0, OCTET);
    assert v[..2] == [v[0], v[1]];
    GroupFills([v[0], v[1]], [a], a, 8, 4, 16);
  }

  function Letters(values: seq<int>): (text: string)
    requires Fits(values, SEXTET)
    ensures |text| == |values| && Spelled(text) && Values(text) == values
  {
    assert Pow2(6) == 64;
    var text := seq(|values|, i requires 0 <= i < |values| => Letter(values[i]));
    assert forall i :: 0 <= i < |values| ==> LetterValue(text[i]) == Some(values[i]) by {
      forall i | 0 <= i < |values| ensures LetterValue(text[i]) == Some(values[i]) {
        LettersRoundTrip(text[i], values[i]);
      }
    }
    text
  }

  /** The letters of one group, of which the missing bytes count as zero. */
  method EncodeGroup(x: nat, count: nat) returns (text: string)
    requires count <= 4
    ensures Spelled(text) && Values(text) == FourValues(x)[..count]
  {
    assert Pow2(6) == 64;
    text := Letters(FourValues(x)[..count]);
  }

  lemma GroupAppends(text: string, group: string, before: seq<byte>, bytes: seq<byte>, k: nat)
    requires Spelled(text) && Spelled(group)
    requires FilledUp(Values(text), SEXTET, before, 0) && FilledUp(Values(group), SEXTET, bytes, k)
    ensures Spelled(text + group) && FilledUp(Values(text + group), SEXTET, before + bytes, k)
  {
    hide BitsOf, SymbolBits;
    assert Values(text + group) == Values(text) + Values(group);
    FillsAppend(Values(text), Values(group), before, bytes, k);
  }

  lemma FillsAppend(s: seq<int>, t: seq<int>, before: seq<byte>, bytes: seq<byte>, k: nat)
    requires FilledUp(s, SEXTET, before, 0) && FilledUp(t, SEXTET, bytes, k)
    ensures FilledUp(s + t, SEXTET, before + bytes, k)
  {
    hide BitsOf, SymbolBits;
    SymbolBitsAppend(s, t, 6);
    SymbolBitsAppend(before, bytes, OCTET);
    assert SymbolBits(before, OCTET) + Zeros(0) == SymbolBits(before, OCTET);
    assert SymbolBits(s, SEXTET) + SymbolBits(t, SEXTET) == SymbolBits(before, OCTET) + SymbolBits(bytes, OCTET) + Zeros(k);
  }

  lemma GroupOfThree(text: string, group: string, value: seq<byte>, index: nat)
    requires index + 3 <= |value| && Spelled(text) && Spelled(group)
    requires FilledUp(Values(text), SEXTET, value[..index], 0)
    requires Values(group) == FourValues(Word(value[index], value[index + 1], value[index + 2]))[..4]
    ensures Spelled(text + group) && FilledUp(Values(text + group), SEXTET, value[..index + 3], 0)
  {
    hide BitsOf, SymbolBits, FilledUp;
    var bytes := [value[index], value[index + 1], value[index + 2]];
    FullGroup(value[index], value[index + 1], value[index + 2]);
    Whole(Values(group), FourValues(Word(value[index], value[index + 1], value[index + 2])));
    GroupAppends(text, group, value[..index], bytes, 0);
    assert value[..index + 3] == value[..index] + bytes;
  }

  lemma GroupOfTwo(text: string, group: string, value: seq<byte>, index: nat)
    requires index + 2 == |value| && Spelled(text) && Spelled(group)
    requires FilledUp(Values(text), SEXTET, value[..index], 0)
    requires Values(group) == FourValues(Word(value[index], value[index + 1], 0))[..3]
    ensures Spelled(text + group) && FilledUp(Values(text + group), SEXTET, value, 2)
  {
    hide BitsOf, SymbolBits, FilledUp, FourValues;
    TwoByteGroup(value[index], value[index + 1]);
    GroupAppends(text, group, value[..index], [value[index], value[index + 1]], 2);
    assert value == value[..index] + [value[index], value[index + 1]];
  }

  lemma GroupOfOne(text: string, group: string, value: seq<byte>, index: nat)
    requires index + 1 == |value| && Spelled(text) && Spelled(group)
    requires FilledUp(Values(text), SEXTET, value[..index], 0)
    requires Values(group) == FourValues(Word(value[index], 0, 0))[..2]
    ensures Spelled(text + group) && FilledUp(Values(text + group), SEXTET, value, 4)
  {
    hide BitsOf, SymbolBits, FilledUp, FourValues;
    OneByteGroup(value[index]);
    GroupAppends(text, group, value[..index], [value[index]], 4);
    assert value == value[..index] + [value[index]];
  }

  /** The encoder of the firmware: whole groups of three bytes, then what is left. */
  method Encode(value: seq<byte>) returns (text: string)
    ensures Encodes(text, value)
  {
    text := "";
    var index := 0;
    while index + 3 <= |value|
      invariant 0 <= index <= |value|
      invariant Spelled(text) && FilledUp(Values(text), SEXTET, value[..index], 0)
    {
      var group := EncodeGroup(Word(value[index], value[index + 1], value[index + 2]), 4);
      GroupOfThree(text, group, value, index);
      text := text + group;
      index := index + 3;
    }
    if |value| - index == 1 {
      var group := EncodeGroup(Word(value[index], 0, 0), 2);
      GroupOfOne(text, group, value, index);
      text := text + group;
    } else if |value| - index == 2 {
      var group := EncodeGroup(Word(value[index], value[index + 1], 0), 3);
      GroupOfTwo(text, group, value, index);
      text := text + group;
    } else {
      assert value == value[..index];
    }
  }

  lemma Whole(values: seq<int>, v: seq<int>)
    requires |v| == 4 && values == v[..4]
    ensures values == v
  {
  }

  /** One turn of the decoder's loop. */
  lemma LetterRegroups(value: string, i: nat, v: nat, accumulator: nat, bits: nat, out: seq<byte>)
    requires i < |value| && Spelled(value[..i]) && LetterValue(value[i]) == Some(v) && bits < 8
    requires Regrouped(Values(value[..i]), SEXTET, out, accumulator, bits)
    ensures Spelled(value[..i + 1])
    ensures var next := Shifted(accumulator, v, 64);
            if bits + 6 >= 8 then
              Regrouped(Values(value[..i + 1]), SEXTET, out + [(next / Pow2(bits - 2)) % 256], next, bits - 2)
            else Regrouped(Values(value[..i + 1]), SEXTET, out, next, bits + 6)
  {
    LetterIsSpelled(value, i, v);
    assert Pow2(6) == 64;
    SymbolComesIn(Values(value[..i]), v, SEXTET, 64, out, accumulator, bits);
    if bits + 6 >= 8 {
      ByteLeaves(Values(value[..i]) + [v], SEXTET, out, Shifted(accumulator, v, 64), bits - 2, Pow2(bits - 2));
    }
  }

  lemma LetterIsSpelled(value: string, i: nat, v: nat)
    requires i < |value| && Spelled(value[..i]) && LetterValue(value[i]) == Some(v)
    ensures Spelled(value[..i + 1]) && Values(value[..i + 1]) == Values(value[..i]) + [v] && v < 64
  {
    var longer := value[..i + 1];
    assert longer == value[..i] + [value[i]];
    assert forall j :: 0 <= j < i ==> longer[j] == value[..i][j];
    assert Spelled(longer);
    assert Values(value[..i + 1]) == Values(value[..i]) + [v];
  }

  lemma OddLengthsEncodeNothing(value: string, bytes: seq<byte>)
    requires |value| % 4 == 1
    ensures !Encodes(value, bytes)
  {
    if Encodes(value, bytes) {
      var k: nat :| FilledUp(Values(value), SEXTET, bytes, k) && k < 6;
      FillIsDetermined(Values(value), SEXTET, bytes, k);
      FillOfLength(|value|, |bytes|, k);
    }
  }

  lemma Verdict(value: string, out: seq<byte>, accumulator: nat, bits: nat)
    requires Spelled(value) && Regrouped(Values(value), SEXTET, out, accumulator, bits) && bits < 8 && |value| % 4 != 1
    ensures accumulator % Pow2(bits) == 0 ==> Encodes(value, out)
    ensures accumulator % Pow2(bits) != 0 ==> forall bytes: seq<byte> :: !Encodes(value, bytes)
  {
    LeftoverIsFill(Values(value), SEXTET, out, accumulator, bits);
    if accumulator % Pow2(bits) == 0 { EnoughFill(value, out, bits); }
  }

  lemma EnoughFill(value: string, out: seq<byte>, bits: nat)
    requires Spelled(value) && FilledUp(Values(value), SEXTET, out, bits) && bits < 8 && |value| % 4 != 1
    ensures Encodes(value, out)
  {
    FillIsDetermined(Values(value), SEXTET, out, bits);
    FillOfLength(|value|, |out|, bits);
  }

  lemma FillOfLength(letters: nat, bytes: nat, k: nat)
    requires 6 * letters == 8 * bytes + k && k < 8
    ensures k < 6 <==> letters % 4 != 1
  {
    var m, r := letters / 4, letters % 4;
    var d := 3 * m - bytes;
    assert k == 6 * r + 8 * d;
    assert r == 0 || r == 1 || r == 2 || r == 3;
  }

  /**
   The decoder: it accepts exactly the encodings, inverts them, and its closing comparison with
   the re-encoded bytes never rejects anything.
   */
  method Decode(value: string) returns (ok: bool, out: seq<byte>)
    ensures ok ==> Encodes(value, out)
    ensures !ok ==> out == [] && forall bytes: seq<byte> :: !Encodes(value, bytes)
  {
    out := [];
    if |value| % 4 == 1 {
      forall bytes: seq<byte> ensures !Encodes(value, bytes) { OddLengthsEncodeNothing(value, bytes); }
      return false, [];
    }
    var accumulator: nat, bits: nat := 0, 0;
    var i := 0;
    assert value[..0] == [];
    while i < |value|
      invariant 0 <= i <= |value| && Spelled(value[..i])
      invariant bits in {0, 2, 4, 6}
      invariant Regrouped(Values(value[..i]), SEXTET, out, accumulator, bits)
    {
      var letter := LetterValue(value[i]);
      if letter.None? { return false, []; }
      LetterRegroups(value, i, letter.value, accumulator, bits, out);
      accumulator := Shifted(accumulator, letter.value, 64);
      bits := bits + 6;
      if bits >= 8 {
        bits := bits - 8;
        out := out + [(accumulator / Pow2(bits)) % 256];
      }
      i := i + 1;
    }
    assert value[..i] == value;
    Verdict(value, out, accumulator, bits);
    assert Pow2(0) == 1;
    if bits > 0 && accumulator % Pow2(bits) != 0 { return false, []; }
    var again := Encode(out);
    EncodingIsUnique(again, value, out);
    ok := again == value;
  }
}
