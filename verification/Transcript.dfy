/** The byte string every signature and sealed key of a session attempt is bound to. */
module Transcript {
  import opened Vocabulary
  import opened Bytes
  import opened Division
  import opened Presence

  const MAX_DEVICE_ID: nat := 64
  const FIXED_BYTES: nat := 360
  const MAGIC: seq<byte> := [77, 53, 65, 83]
  const TRANSCRIPT_VERSION: byte := 1
  const PROTOCOL_VERSION: byte := 2

  datatype Input = Input(
    operation: SessionOperation,
    deviceId: seq<byte>,
    vaultId: seq<byte>,
    expectedGeneration: u64,
    registrationId: seq<byte>,
    registrationEpoch: u32,
    attemptId: seq<byte>,
    challenge: seq<byte>,
    deviceKey: seq<byte>,
    webKey: seq<byte>,
    currentKey: seq<byte>,
    proposedKey: seq<byte>)

  /** The widths of the fixed-size fields. */
  predicate Sized(t: Input) {
    && |t.vaultId| == 16 && |t.registrationId| == 16 && |t.attemptId| == 16 && |t.challenge| == 32
    && |t.deviceKey| == 65 && |t.webKey| == 65 && |t.currentKey| == 65 && |t.proposedKey| == 65
  }

  predicate IsZero(key: seq<byte>) {
    forall i :: 0 <= i < |key| ==> key[i] == 0
  }

  function Code(operation: SessionOperation): byte {
    match operation
    case TrustedBrowserUnlock => 1
    case InitialProvisioning => 2
    case Recovery => 3
    case BrowserReplacement => 4
    case VmkRekey => 5
  }

  predicate Acceptable(t: Input, onCurve: seq<byte> -> bool) {
    && 0 < |t.deviceId| <= MAX_DEVICE_ID
    && onCurve(t.deviceKey) && onCurve(t.webKey)
    && (IsZero(t.currentKey) || onCurve(t.currentKey)) && (IsZero(t.proposedKey) || onCurve(t.proposedKey))
    && match t.operation
       case TrustedBrowserUnlock | VmkRekey => !IsZero(t.currentKey) && t.registrationEpoch != 0
       case InitialProvisioning => IsZero(t.currentKey) && !IsZero(t.proposedKey) && t.registrationEpoch == 0
       case Recovery | BrowserReplacement => !IsZero(t.proposedKey)
  }

  function Numbers(t: Input): seq<byte> {
    t.vaultId + (BigEndian(t.expectedGeneration, 8) + (t.registrationId + BigEndian(t.registrationEpoch, 4)))
  }

  function Keys(t: Input): seq<byte> {
    t.attemptId + (t.challenge + (t.deviceKey + (t.webKey + (t.currentKey + t.proposedKey))))
  }

  function Header(t: Input): seq<byte>
    requires |t.deviceId| < 256
  {
    MAGIC + [TRANSCRIPT_VERSION, PROTOCOL_VERSION, Code(t.operation), |t.deviceId|]
  }

  function Encoded(t: Input): seq<byte>
    requires |t.deviceId| < 256
  {
    Header(t) + (t.deviceId + (Numbers(t) + Keys(t)))
  }

  /** Two strings with equal first parts' lengths agree part by part. */
  lemma PartsAgree(a: seq<byte>, x: seq<byte>, b: seq<byte>, y: seq<byte>)
    requires |a| == |b| && a + x == b + y
    ensures a == b && x == y
  {
    assert a == (a + x)[..|a|] && b == (b + y)[..|b|];
    assert x == (a + x)[|a|..] && y == (b + y)[|b|..];
  }

  lemma NumberIsDetermined(m: nat, n: nat, w: nat)
    requires m < Pow256(w) && n < Pow256(w) && BigEndian(m, w) == BigEndian(n, w)
    ensures m == n
  {
    BigRoundTrip(m, w);
    BigRoundTrip(n, w);
  }

  lemma NumbersAgree(s: Input, t: Input)
    requires Sized(s) && Sized(t) && Numbers(s) == Numbers(t)
    ensures s.vaultId == t.vaultId && s.expectedGeneration == t.expectedGeneration
    ensures s.registrationId == t.registrationId && s.registrationEpoch == t.registrationEpoch
  {
    hide BigEndian;
    assert Pow256(4) == MAX_U32 + 1 && Pow256(8) == MAX_U64 + 1;
    var g, h := BigEndian(s.expectedGeneration, 8), BigEndian(t.expectedGeneration, 8);
    var d, e := BigEndian(s.registrationEpoch, 4), BigEndian(t.registrationEpoch, 4);
    PartsAgree(s.vaultId, g + (s.registrationId + d), t.vaultId, h + (t.registrationId + e));
    PartsAgree(g, s.registrationId + d, h, t.registrationId + e);
    PartsAgree(s.registrationId, d, t.registrationId, e);
    NumberIsDetermined(s.expectedGeneration, t.expectedGeneration, 8);
    NumberIsDetermined(s.registrationEpoch, t.registrationEpoch, 4);
  }

  lemma KeysAgree(s: Input, t: Input)
    requires Sized(s) && Sized(t) && Keys(s) == Keys(t)
    ensures s.attemptId == t.attemptId && s.challenge == t.challenge && s.deviceKey == t.deviceKey
    ensures s.webKey == t.webKey && s.currentKey == t.currentKey && s.proposedKey == t.proposedKey
  {
    PartsAgree(s.attemptId, s.challenge + (s.deviceKey + (s.webKey + (s.currentKey + s.proposedKey))),
               t.attemptId, t.challenge + (t.deviceKey + (t.webKey + (t.currentKey + t.proposedKey))));
    PartsAgree(s.challenge, s.deviceKey + (s.webKey + (s.currentKey + s.proposedKey)),
               t.challenge, t.deviceKey + (t.webKey + (t.currentKey + t.proposedKey)));
    PartsAgree(s.deviceKey, s.webKey + (s.currentKey + s.proposedKey), t.deviceKey, t.webKey + (t.currentKey + t.proposedKey));
    PartsAgree(s.webKey, s.currentKey + s.proposedKey, t.webKey, t.currentKey + t.proposedKey);
    PartsAgree(s.currentKey, s.proposedKey, t.currentKey, t.proposedKey);
  }

  /** A transcript says everything: equal bytes mean equal inputs, despite the id of varying length. */
  lemma TranscriptIsInjective(s: Input, t: Input)
    requires Sized(s) && Sized(t) && |s.deviceId| < 256 && |t.deviceId| < 256
    requires Encoded(s) == Encoded(t)
    ensures s == t
  {
    hide Numbers, Keys;
    PartsAgree(Header(s), s.deviceId + (Numbers(s) + Keys(s)), Header(t), t.deviceId + (Numbers(t) + Keys(t)));
    assert Header(s)[6] == Header(t)[6] && Header(s)[7] == Header(t)[7];
    PartsAgree(s.deviceId, Numbers(s) + Keys(s), t.deviceId, Numbers(t) + Keys(t));
    assert |Numbers(s)| == |Numbers(t)| == 44 by { NumbersLength(s); NumbersLength(t); }
    PartsAgree(Numbers(s), Keys(s), Numbers(t), Keys(t));
    NumbersAgree(s, t);
    KeysAgree(s, t);
  }

  lemma NumbersLength(t: Input)
    requires Sized(t)
    ensures |Numbers(t)| == 44
  {
  }

  /** The byte of weight `p` of a number. */
  lemma {:induction false} BigEndianByte(n: nat, w: nat, k: nat, p: nat)
    requires k < w && p == Pow256(w - 1 - k)
    ensures BigEndian(n, w)[k] == (n / p) % 256
  {
    if k < w - 1 {
      var q := Pow256(w - 2 - k);
      BigEndianByte(n / 256, w - 1, k, q);
      DividedTwice(n, q, p);
    }
  }

  lemma DividedTwice(n: nat, q: nat, p: nat)
    requires q > 0 && p == 256 * q
    ensures (n / 256) / q == n / p
  {
    var d, r := (n / 256) / q, (n / 256) % q;
    assert n / 256 == q * d + r;
    assert n == p * d + (256 * r + n % 256);
    UniqueRemainder(n, d, 256 * r + n % 256, p);
  }

  /** Appends a number's bytes, highest first, as the shifts of the firmware pick them. */
  method AppendNumber(out: seq<byte>, value: nat, w: nat) returns (longer: seq<byte>)
    ensures longer == out + BigEndian(value, w)
  {
    longer := out;
    var k := 0;
    while k < w
      invariant 0 <= k <= w && longer == out + BigEndian(value, w)[..k]
    {
      var weight := Pow256(w - 1 - k);
      BigEndianByte(value, w, k, weight);
      longer := longer + [(value / weight) % 256];
      k := k + 1;
    }
    assert BigEndian(value, w)[..k] == BigEndian(value, w);
  }

  /** Refuses exactly the unacceptable inputs; otherwise 360 bytes and the device id. */
  method EncodeTranscript(t: Input, onCurve: seq<byte> -> bool) returns (output: Option<seq<byte>>)
    requires Sized(t)
    ensures output.Some? <==> Acceptable(t, onCurve)
    ensures output.Some? ==> output.value == Encoded(t) && |output.value| == FIXED_BYTES + |t.deviceId|
  {
    hide BigEndian;
    output := None;
    if |t.deviceId| == 0 || |t.deviceId| > MAX_DEVICE_ID { return; }
    if !onCurve(t.deviceKey) || !onCurve(t.webKey) { return; }
    if !(IsZero(t.currentKey) || onCurve(t.currentKey)) || !(IsZero(t.proposedKey) || onCurve(t.proposedKey)) { return; }
    match t.operation {
      case TrustedBrowserUnlock =>
        if IsZero(t.currentKey) || t.registrationEpoch == 0 { return; }
      case InitialProvisioning =>
        if !IsZero(t.currentKey) || IsZero(t.proposedKey) || t.registrationEpoch != 0 { return; }
      case Recovery =>
        if IsZero(t.proposedKey) { return; }
      case BrowserReplacement =>
        if IsZero(t.proposedKey) { return; }
      case VmkRekey =>
        if IsZero(t.currentKey) || t.registrationEpoch == 0 { return; }
    }
    var out := MAGIC + [TRANSCRIPT_VERSION, PROTOCOL_VERSION, Code(t.operation), |t.deviceId|];
    out := out + t.deviceId + t.vaultId;
    out := AppendNumber(out, t.expectedGeneration, 8);
    out := out + t.registrationId;
    out := AppendNumber(out, t.registrationEpoch, 4);
    out := out + t.attemptId + t.challenge + t.deviceKey + t.webKey + t.currentKey + t.proposedKey;
    assert out == Encoded(t);
    output := Some(out);
  }
}
