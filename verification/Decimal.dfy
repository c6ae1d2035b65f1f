/** Generations travel as decimal strings: exactly one spelling for each 64-bit number. */
module Decimal {
  import opened Vocabulary

  function Digit(d: nat): char
    requires d < 10
  {
    '0' + d as char
  }

  /** The usual spelling, without leading zeros. */
  function Spelled(n: nat): (text: string)
    ensures text != []
  {
    if n < 10 then [Digit(n)] else Spelled(n / 10) + [Digit(n % 10)]
  }

  predicate IsDigit(ch: char) {
    '0' <= ch <= '9'
  }

  function ValueOf(text: string): nat
    requires forall i :: 0 <= i < |text| ==> IsDigit(text[i])
  {
    if text == [] then 0 else
      assert IsDigit(text[|text| - 1]);
      ValueOf(text[..|text| - 1]) * 10 + (text[|text| - 1] as nat - '0' as nat)
  }

  /** Only digits, and a zero in front only when it is alone. */
  predicate Canonical(text: string) {
    text != [] && (forall i :: 0 <= i < |text| ==> IsDigit(text[i])) && (text[0] == '0' ==> |text| == 1)
  }

  lemma {:induction false} SpellingIsCanonical(n: nat)
    ensures Canonical(Spelled(n)) && ValueOf(Spelled(n)) == n && (Spelled(n)[0] == '0' ==> n == 0)
  {
    if n < 10 {
      assert Spelled(n)[..0] == [];
    } else {
      SpellingIsCanonical(n / 10);
      var shorter := Spelled(n / 10);
      assert (shorter + [Digit(n % 10)])[..|shorter|] == shorter;
    }
  }

  lemma {:induction false} CanonicalIsSpelled(text: string)
    requires Canonical(text)
    ensures text == Spelled(ValueOf(text))
  {
    var shorter, d := text[..|text| - 1], text[|text| - 1] as nat - '0' as nat;
    if |text| == 1 {
      assert shorter == [] && text == [Digit(d)];
    } else {
      CanonicalIsSpelled(shorter);
      NonZero(shorter);
      assert (ValueOf(shorter) * 10 + d) / 10 == ValueOf(shorter) && (ValueOf(shorter) * 10 + d) % 10 == d;
      assert text == shorter + [Digit(d)];
    }
  }

  lemma {:induction false} NonZero(text: string)
    requires text != [] && (forall i :: 0 <= i < |text| ==> IsDigit(text[i])) && text[0] != '0'
    ensures ValueOf(text) > 0
  {
    if |text| > 1 { NonZero(text[..|text| - 1]); } else { assert text[..0] == []; }
  }

  lemma {:induction false} PrefixIsNoLarger(text: string, k: nat)
    requires k <= |text| && forall i :: 0 <= i < |text| ==> IsDigit(text[i])
    ensures ValueOf(text[..k]) <= ValueOf(text)
    decreases |text| - k
  {
    if k == |text| {
      assert text[..k] == text;
    } else {
      assert text[..k + 1][..k] == text[..k];
      PrefixIsNoLarger(text, k + 1);
    }
  }

  /** Accepts exactly the spellings of 64-bit numbers; the test before each step prevents overflow. */
  method ParseU64(text: string) returns (value: Option<u64>)
    ensures value.Some? ==> text == Spelled(value.value)
    ensures value.None? ==> forall n: u64 :: text != Spelled(n)
  {
    forall n: nat ensures text == Spelled(n) ==> Canonical(text) && ValueOf(text) == n { SpellingIsCanonical(n); }
    if text == [] { return None; }
    if text[0] == '0' && |text| > 1 { return None; }
    var parsed: u64 := 0;
    var i := 0;
    assert text[..0] == [];
    while i < |text|
      invariant 0 <= i <= |text|
      invariant forall j :: 0 <= j < i ==> IsDigit(text[j])
      invariant parsed == ValueOf(text[..i])
    {
      if !IsDigit(text[i]) { return None; }
      var digit := text[i] as nat - '0' as nat;
      assert text[..i + 1][..i] == text[..i];
      if parsed > (MAX_U64 - digit) / 10 {
        assert ValueOf(text[..i + 1]) > MAX_U64;
        if Canonical(text) { PrefixIsNoLarger(text, i + 1); }
        return None;
      }
      parsed := parsed * 10 + digit;
      i := i + 1;
    }
    assert text[..i] == text;
    CanonicalIsSpelled(text);
    value := Some(parsed);
  }
}
