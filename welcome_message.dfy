/**
 * The handshake payload a device sends when it connects: whether it has
 * pending changes, an optional new public key with its rotation index and the
 * name of the signing scheme, and the exact byte string that is signed.
 */
module Messages {
  import opened Decimal

  type Bytes8 = s: seq<Byte> | |s| == 8 witness [0, 0, 0, 0, 0, 0, 0, 0]

  /** A device id as `QUuid` holds it: a 32-bit, two 16-bit and eight 8-bit fields. */
  datatype Uuid = Uuid(data1: bv32, data2: bv16, data3: bv16, data4: Bytes8)

  /** A 32-bit field as four bytes, most significant first. */
  function Split32(x: bv32): (b: seq<Byte>)
    ensures |b| == 4
  {
    [(x >> 24) as Byte, ((x >> 16) & 0xFF) as Byte, ((x >> 8) & 0xFF) as Byte, (x & 0xFF) as Byte]
  }

  /** A 16-bit field as two bytes, most significant first. */
  function Split16(x: bv16): (b: seq<Byte>)
    ensures |b| == 2
  {
    [(x >> 8) as Byte, (x & 0xFF) as Byte]
  }

  function Join32(b0: Byte, b1: Byte, b2: Byte, b3: Byte): bv32 {
    (b0 as bv32 << 24) | (b1 as bv32 << 16) | (b2 as bv32 << 8) | b3 as bv32
  }

  function Join16(b0: Byte, b1: Byte): bv16 {
    (b0 as bv16 << 8) | b1 as bv16
  }

  lemma Join32Split32(x: bv32)
    ensures var b := Split32(x); Join32(b[0], b[1], b[2], b[3]) == x
  {
  }

  lemma Join16Split16(x: bv16)
    ensures var b := Split16(x); Join16(b[0], b[1]) == x
  {
  }

  /**
   * The 16-byte form of section 4.1.2 of RFC 4122 (`QUuid::toRfc4122`): each
   * multi-byte field in network byte order, most significant byte first.
   */
  function ToRfc4122(u: Uuid): (b: seq<Byte>)
    ensures |b| == 16
    ensures b[8..] == u.data4
  {
    Split32(u.data1) + Split16(u.data2) + Split16(u.data3) + u.data4
  }

  /** `QUuid::fromRfc4122`: reads the 16 bytes back into the four fields. */
  function FromRfc4122(b: seq<Byte>): (u: Uuid)
    requires |b| == 16
    ensures u.data4 == b[8..]
  {
    Uuid(Join32(b[0], b[1], b[2], b[3]), Join16(b[4], b[5]), Join16(b[6], b[7]), b[8..])
  }

  lemma Rfc4122RoundTrip(u: Uuid)
    ensures FromRfc4122(ToRfc4122(u)) == u
  {
    var b := ToRfc4122(u);
    var s1, s2, s3 := Split32(u.data1), Split16(u.data2), Split16(u.data3);
    assert b[0] == s1[0] && b[1] == s1[1] && b[2] == s1[2] && b[3] == s1[3];
    assert b[4] == s2[0] && b[5] == s2[1] && b[6] == s3[0] && b[7] == s3[1];
    Join32Split32(u.data1);
    Join16Split16(u.data2);
    Join16Split16(u.data3);
  }

  /** Distinct device ids have distinct RFC 4122 encodings. */
  lemma ToRfc4122Injective(u: Uuid, v: Uuid)
    ensures ToRfc4122(u) == ToRfc4122(v) ==> u == v
  {
    Rfc4122RoundTrip(u);
    Rfc4122RoundTrip(v);
  }

  datatype WelcomeMessage = WelcomeMessage(hasChanges: bool, keyIndex: int, scheme: seq<Byte>, key: seq<Byte>)

  /** `WelcomeMessage(bool hasChanges)`: the other fields keep their defaults (empty scheme and key). */
  function NewWelcomeMessage(hasChanges: bool): (m: WelcomeMessage)
    ensures m.hasChanges == hasChanges
    ensures !HasKeyUpdate(m)
  {
    WelcomeMessage(hasChanges, 0, [], [])
  }

  /** A message offers a new key exactly when its key is not empty. */
  function HasKeyUpdate(m: WelcomeMessage): (r: bool)
    ensures r <==> |m.key| > 0
  {
    m.key != []
  }

  /** The bytes that get signed: decimal key index, scheme, RFC 4122 device id, key, in that order. */
  function SignatureData(m: WelcomeMessage, deviceId: Uuid): (r: seq<Byte>)
    ensures |r| == |IntToDecimal(m.keyIndex)| + |m.scheme| + 16 + |m.key|
  {
    ByteArrayNumber(m.keyIndex) + m.scheme + ToRfc4122(deviceId) + m.key
  }

  /** Where each field sits in the signed data. */
  lemma SignatureDataLayout(m: WelcomeMessage, deviceId: Uuid)
    ensures var r := SignatureData(m, deviceId);
      && r[..|IntToDecimal(m.keyIndex)|] == ByteArrayNumber(m.keyIndex)
      && r[|IntToDecimal(m.keyIndex)|..|IntToDecimal(m.keyIndex)| + |m.scheme|] == m.scheme
      && r[|r| - |m.key| - 16..|r| - |m.key|] == ToRfc4122(deviceId)
      && r[|r| - |m.key|..] == m.key
  {
  }

  /** The signed data is the decimal key index followed by the fields that do not depend on it. */
  lemma SignatureDataSplitsAtIndex(m: WelcomeMessage, deviceId: Uuid)
    ensures SignatureData(m, deviceId) == ByteArrayNumber(m.keyIndex) + (m.scheme + ToRfc4122(deviceId) + m.key)
  {
  }

  /** A key update is offered exactly when key bytes follow the device id in the signed data. */
  lemma KeyUpdateIsSigned(m: WelcomeMessage, deviceId: Uuid)
    ensures HasKeyUpdate(m) <==> |SignatureData(m, deviceId)| > |ByteArrayNumber(m.keyIndex)| + |m.scheme| + 16
  {
  }

  /** The signed data leaves out `hasChanges`. */
  lemma SignatureDataIgnoresHasChanges(m: WelcomeMessage, deviceId: Uuid, hasChanges: bool)
    ensures SignatureData(m.(hasChanges := hasChanges), deviceId) == SignatureData(m, deviceId)
  {
  }

  /** With the other fields fixed, distinct device ids give distinct signed data. */
  lemma SignatureDataDistinguishesDevices(m: WelcomeMessage, d1: Uuid, d2: Uuid)
    ensures SignatureData(m, d1) == SignatureData(m, d2) ==> d1 == d2
  {
    var r1, r2 := SignatureData(m, d1), SignatureData(m, d2);
    if r1 == r2 {
      SignatureDataLayout(m, d1);
      SignatureDataLayout(m, d2);
      assert ToRfc4122(d1) == r1[|r1| - |m.key| - 16..|r1| - |m.key|] == ToRfc4122(d2);
      ToRfc4122Injective(d1, d2);
    }
  }

  lemma CancelSuffix(a: seq<Byte>, b: seq<Byte>, tail: seq<Byte>)
    requires a + tail == b + tail
    ensures a == b
  {
    assert a == (a + tail)[..|a|];
    assert b == (b + tail)[..|b|];
  }

  /** With the other fields fixed, distinct key indices give distinct signed data. */
  lemma SignatureDataDistinguishesKeyIndices(m: WelcomeMessage, keyIndex: int, deviceId: Uuid)
    ensures SignatureData(m, deviceId) == SignatureData(m.(keyIndex := keyIndex), deviceId) ==> m.keyIndex == keyIndex
  {
    var m' := m.(keyIndex := keyIndex);
    SignatureDataSplitsAtIndex(m, deviceId);
    SignatureDataSplitsAtIndex(m', deviceId);
    if SignatureData(m, deviceId) == SignatureData(m', deviceId) {
      CancelSuffix(ByteArrayNumber(m.keyIndex), ByteArrayNumber(keyIndex), m.scheme + ToRfc4122(deviceId) + m.key);
      ByteArrayNumberInjective(m.keyIndex, keyIndex);
    }
  }

  /**
   * The concatenation carries no field boundaries: key index 1 with scheme "2"
   * and key index 12 with an empty scheme sign the same bytes.
   */
  lemma SignatureDataFieldBoundariesNotEncoded(deviceId: Uuid)
    ensures SignatureData(WelcomeMessage(false, 1, [50], []), deviceId)
         == SignatureData(WelcomeMessage(false, 12, [], []), deviceId)
  {
    assert IntToDecimal(12) == NatToDecimal(1) + [DigitChar(2)];
    assert ByteArrayNumber(12) == [49, 50];
    assert ByteArrayNumber(1) == [49];
  }
}
