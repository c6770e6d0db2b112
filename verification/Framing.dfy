/** Length-prefixed framing: the bytes hashed into batch ids and fingerprints. */
module Framing {
  /* The hashes themselves are taken to be injective; what is proved is that the hashed bytes
     determine what was put into them. */

  import opened Ledgers
  import opened Text

  type byte = x: int | 0 <= x < 256
  type Bytes = seq<byte>

  /** The `width` low bytes of `n`, the lowest first */
  function LittleEndian(n: nat, width: nat): (r: Bytes)
    ensures |r| == width
  {
    if width == 0 then [] else [n % 256] + LittleEndian(n / 256, width - 1)
  }

  function FromLittleEndian(bytes: Bytes): nat {
    if bytes == [] then 0 else bytes[0] + 256 * FromLittleEndian(bytes[1..])
  }

  function Power(base: nat, width: nat): nat {
    if width == 0 then 1 else base * Power(base, width - 1)
  }

  lemma {:induction false} LittleEndianRoundTrip(n: nat, width: nat)
    requires n < Power(256, width)
    ensures FromLittleEndian(LittleEndian(n, width)) == n
  {
    if width > 0 {
      DivBelow(n, Power(256, width - 1));
      LittleEndianRoundTrip(n / 256, width - 1);
      assert LittleEndian(n, width)[1..] == LittleEndian(n / 256, width - 1);
    }
  }

  lemma {:induction false} DivBelow(n: nat, p: nat)
    requires n < 256 * p
    ensures n / 256 < p
  {}

  lemma {:induction false} EightBytes()
    ensures Power(256, 8) == U64_MAX + 1
  {
    assert Power(256, 4) == 0x1_0000_0000;
    assert Power(256, 8) == 256 * (256 * (256 * (256 * Power(256, 4))));
  }

  /** `(value.len() as u64).to_le_bytes()`, then the value */
  function Frame(value: Bytes): Bytes {
    LittleEndian(|value|, 8) + value
  }

  function Frames(values: seq<Bytes>): Bytes {
    if values == [] then [] else Frame(values[0]) + Frames(values[1..])
  }

  predicate Short(values: seq<Bytes>) {
    forall i | 0 <= i < |values| :: |values[i]| <= U64_MAX
  }

  lemma {:induction false} LengthIsFramed(a: Bytes, b: Bytes, rest: Bytes, rest': Bytes)
    requires |a| <= U64_MAX && |b| <= U64_MAX
    requires Frame(a) + rest == Frame(b) + rest'
    ensures a == b && rest == rest'
  {
    var x, y := LittleEndian(|a|, 8), LittleEndian(|b|, 8);
    var whole := Frame(a) + rest;
    assert whole[..8] == x;
    assert (Frame(b) + rest')[..8] == y;
    EightBytes();
    LittleEndianRoundTrip(|a|, 8);
    LittleEndianRoundTrip(|b|, 8);
    assert whole[8..8 + |a|] == a && (Frame(b) + rest')[8..8 + |b|] == b;
    assert whole[8 + |a|..] == rest && (Frame(b) + rest')[8 + |b|..] == rest';
  }

  /** The framed bytes determine the list of values, its length and its order. */
  lemma {:induction false} FramesInjective(a: seq<Bytes>, b: seq<Bytes>)
    requires Short(a) && Short(b) && Frames(a) == Frames(b)
    ensures a == b
  {
    FramesStart(a);
    FramesStart(b);
    if a != [] && b != [] {
      LengthIsFramed(a[0], b[0], Frames(a[1..]), Frames(b[1..]));
      FramesInjective(a[1..], b[1..]);
    }
  }

  lemma {:induction false} FramesStart(values: seq<Bytes>)
    ensures values == [] <==> Frames(values) == []
  {
    if values != [] {
      assert |Frame(values[0])| >= 8;
    }
  }

  /** The loop over the snapshots, or the settings */
  method UpdateDigest(start: Bytes, values: seq<Bytes>) returns (hashed: Bytes)
    ensures hashed == start + Frames(values)
  {
    hashed := start;
    assert values[0..] == values;
    for i := 0 to |values|
      invariant hashed + Frames(values[i..]) == start + Frames(values)
    {
      assert values[i..][1..] == values[i + 1..];
      assert hashed + Frames(values[i..]) == hashed + Frame(values[i]) + Frames(values[i + 1..]);
      hashed := hashed + Frame(values[i]);
    }
    assert hashed + [] == hashed;
  }

  /* ---- Batch ids ---- */

  /** "2" */
  const SCHEMA_VERSION: Bytes := [50]

  /** What is hashed into the id of a batch of encoded snapshots */
  function BatchBytes(encoded: seq<Bytes>): Bytes {
    SCHEMA_VERSION + Frames(encoded)
  }

  lemma {:induction false} BatchBytesInjective(a: seq<Bytes>, b: seq<Bytes>)
    requires Short(a) && Short(b)
    ensures BatchBytes(a) == BatchBytes(b) <==> a == b
  {
    if BatchBytes(a) == BatchBytes(b) {
      assert BatchBytes(a)[1..] == Frames(a) && BatchBytes(b)[1..] == Frames(b);
      FramesInjective(a, b);
    }
  }

  /* ---- Classifier fingerprints ---- */

  datatype ExecutionMode = Local | Managed

  datatype ResolvedClassifier = ResolvedClassifier(
    executionMode: ExecutionMode,
    endpoint: Bytes,
    model: Bytes,
    apiKey: Option<Bytes>,
    installationToken: Option<Bytes>,
    configVersion: Bytes,
    responseMode: nat)

  /** "true", "false" */
  function BoolText(b: bool): Bytes {
    if b then [116, 114, 117, 101] else [102, 97, 108, 115, 101]
  }

  /** "local", "managed" */
  function ModeText(mode: ExecutionMode): Bytes {
    match mode
    case Local => [108, 111, 99, 97, 108]
    case Managed => [109, 97, 110, 97, 103, 101, 100]
  }

  function OrEmpty(value: Option<Bytes>): Bytes {
    if value.Some? then value.value else []
  }

  function FingerprintParts(disabled: bool, settings: Option<ResolvedClassifier>): seq<Bytes> {
    match settings
    case None => [BoolText(disabled), [], [], [], [], []]
    case Some(s) =>
      [BoolText(disabled), ModeText(s.executionMode), s.endpoint, s.model, OrEmpty(s.apiKey), s.configVersion]
  }

  /** What is hashed into the classifier fingerprint */
  function FingerprintBytes(disabled: bool, settings: Option<ResolvedClassifier>): Bytes {
    Frames(FingerprintParts(disabled, settings))
  }

  /** No difference that the fingerprint is meant to see: a missing API key counts as an empty one,
      installation token and response mode do not count. */
  predicate SameClassifier(a: Option<ResolvedClassifier>, b: Option<ResolvedClassifier>) {
    match (a, b)
    case (None, None) => true
    case (Some(s), Some(t)) =>
      && s.executionMode == t.executionMode && s.endpoint == t.endpoint && s.model == t.model
      && OrEmpty(s.apiKey) == OrEmpty(t.apiKey) && s.configVersion == t.configVersion
    case _ => false
  }

  /** The fingerprint changes exactly when one of these settings does. */
  lemma {:induction false} FingerprintDistinguishes(d: bool, a: Option<ResolvedClassifier>, e: bool,
                                                    b: Option<ResolvedClassifier>)
    requires Short(FingerprintParts(d, a)) && Short(FingerprintParts(e, b))
    ensures FingerprintBytes(d, a) == FingerprintBytes(e, b) <==> d == e && SameClassifier(a, b)
  {
    var x, y := FingerprintParts(d, a), FingerprintParts(e, b);
    if FingerprintBytes(d, a) == FingerprintBytes(e, b) {
      FramesInjective(x, y);
      assert x[0] == y[0] && x[1] == y[1] && x[2] == y[2] && x[3] == y[3] && x[4] == y[4] && x[5] == y[5];
      assert |x[0]| == |y[0]| && |x[1]| == |y[1]|;
    }
  }
}
