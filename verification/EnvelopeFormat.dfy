/** The bytes of a snapshot envelope: magic, version, watermark, length, sealed state. */
module EnvelopeFormat {
  import opened Types

  type Byte = b: int | 0 <= b < 256

  type Bytes = seq<Byte>

  const MAGIC: Bytes := [0x44, 0x50, 0x53, 0x32]
  const ENVELOPE_VERSION: nat := 3
  const AAD_LEN: nat := 16
  const HEADER_LEN: nat := 20
  const U32_LIMIT: nat := 0x1_0000_0000
  const U64_LIMIT: nat := 0x1_0000_0000_0000_0000

  // ---------------------------------------------------------------- big-endian numbers

  function Power(width: nat): nat {
    if width == 0 then 1 else 256 * Power(width - 1)
  }

  function ToBigEndian(n: nat, width: nat): (bs: Bytes)
    ensures |bs| == width
  {
    if width == 0 then [] else ToBigEndian(n / 256, width - 1) + [n % 256]
  }

  function FromBigEndian(bs: Bytes): nat {
    if bs == [] then 0 else 256 * FromBigEndian(bs[..|bs| - 1]) + bs[|bs| - 1]
  }

  lemma {:induction false} FromTo(n: nat, width: nat)
    requires n < Power(width)
    ensures FromBigEndian(ToBigEndian(n, width)) == n
  {
    if width > 0 {
      FromTo(n / 256, width - 1);
      var high := ToBigEndian(n / 256, width - 1);
      assert (high + [n % 256])[..|high|] == high;
    }
  }

  lemma {:induction false} ToFrom(bs: Bytes)
    ensures FromBigEndian(bs) < Power(|bs|) && ToBigEndian(FromBigEndian(bs), |bs|) == bs
  {
    if bs != [] {
      var n := |bs| - 1;
      ToFrom(bs[..n]);
      assert FromBigEndian(bs) / 256 == FromBigEndian(bs[..n]) && FromBigEndian(bs) % 256 == bs[n];
      assert bs == bs[..n] + [bs[n]];
    }
  }

  /** The most significant byte comes first. */
  lemma BigEndianIs(bs: Bytes)
    requires |bs| == 4
    ensures FromBigEndian(bs) == 0x100_0000 * (bs[0] as int) + 0x1_0000 * (bs[1] as int) + 0x100 * (bs[2] as int) + bs[3] as int
  {
    var three, two, one := bs[..3], bs[..3][..2], bs[..3][..2][..1];
    assert one[..0] == [] && one[0] == bs[0] && two[1] == bs[1] && three[2] == bs[2];
    assert FromBigEndian(one) == 256 * FromBigEndian(one[..0]) + bs[0];
    assert FromBigEndian(two) == 256 * FromBigEndian(one) + bs[1];
    assert FromBigEndian(three) == 256 * FromBigEndian(two) + bs[2];
  }

  lemma Limits()
    ensures Power(4) == U32_LIMIT && Power(8) == U64_LIMIT
  {
  }

  // ---------------------------------------------------------------- the envelope

  /** The authenticated cipher and the state's serialization, as fixed but arbitrary functions. */
  datatype Cipher<!S> = Cipher(
    seal: (Bytes, Bytes, Bytes) -> Bytes,
    open: (Bytes, Bytes) -> Option<Bytes>,
    serialize: S -> Bytes,
    deserialize: Bytes -> Option<S>)

  datatype SnapshotError =
    | Truncated
    | BadMagic
    | UnsupportedVersion
    | LengthMismatch
    | Decrypt
    | Undeserializable

  /** What the cipher authenticates beside the payload. */
  function Header(watermark: nat): (h: Bytes)
    ensures |h| == AAD_LEN
  {
    MAGIC + ToBigEndian(ENVELOPE_VERSION, 4) + ToBigEndian(watermark, 8)
  }

  function SealedState<S>(c: Cipher<S>, s: S, watermark: nat, nonce: Bytes): Bytes {
    c.seal(nonce, c.serialize(s), Header(watermark))
  }

  function Encode<S>(c: Cipher<S>, s: S, watermark: nat, nonce: Bytes): Result<Bytes, SnapshotError> {
    var sealed := SealedState(c, s, watermark, nonce);
    if |sealed| >= U32_LIMIT then Err(LengthMismatch)
    else Ok(Header(watermark) + ToBigEndian(|sealed|, 4) + sealed)
  }

  function Decode<S>(c: Cipher<S>, bytes: Bytes): Result<(nat, S), SnapshotError> {
    if |bytes| < HEADER_LEN then Err(Truncated)
    else if bytes[0..4] != MAGIC then Err(BadMagic)
    else if FromBigEndian(bytes[4..8]) != ENVELOPE_VERSION then Err(UnsupportedVersion)
    else
      var watermark := FromBigEndian(bytes[8..16]);
      var payload := bytes[HEADER_LEN..];
      if |payload| != FromBigEndian(bytes[16..20]) then Err(LengthMismatch)
      else
        match c.open(payload, bytes[0..AAD_LEN])
        case None => Err(Decrypt)
        case Some(blob) =>
          match c.deserialize(blob)
          case None => Err(Undeserializable)
          case Some(s) => Ok((watermark, s))
  }

  /** What can be wrong with bytes found in place of an envelope, each fault on its own. */
  ghost predicate Flawed<S(!new)>(c: Cipher<S>, bytes: Bytes, e: SnapshotError) {
    match e
    case Truncated => |bytes| < 20
    case BadMagic => |bytes| >= 20 && bytes[..4] != [0x44, 0x50, 0x53, 0x32]
    case UnsupportedVersion => |bytes| >= 20 && bytes[4..8] != [0, 0, 0, 3]
    case LengthMismatch => |bytes| >= 20 && FromBigEndian(bytes[16..20]) != |bytes| - 20
    case Decrypt => |bytes| >= 20 && c.open(bytes[20..], bytes[..16]) == None
    case Undeserializable =>
      |bytes| >= 20 && c.open(bytes[20..], bytes[..16]).Some? && c.deserialize(c.open(bytes[20..], bytes[..16]).value) == None
  }

  function Reported(e: SnapshotError): nat {
    match e
    case Truncated => 0
    case BadMagic => 1
    case UnsupportedVersion => 2
    case LengthMismatch => 3
    case Decrypt => 4
    case Undeserializable => 5
  }

  lemma VersionIs(bs: Bytes)
    requires |bs| == 4
    ensures FromBigEndian(bs) == 3 <==> bs == [0, 0, 0, 3]
  {
    BigEndianIs(bs);
  }

  /** Decoding fails exactly on flawed bytes, and reports the first flaw. */
  lemma DecodeFailsExactly<S(!new)>(c: Cipher<S>, bytes: Bytes, f: SnapshotError)
    ensures Flawed(c, bytes, f) ==> Decode(c, bytes).Err? && Reported(Decode(c, bytes).error) <= Reported(f)
    ensures Decode(c, bytes).Err? ==> Flawed(c, bytes, Decode(c, bytes).error)
  {
    if |bytes| >= 20 {
      VersionIs(bytes[4..8]);
      assert bytes[0..4] == bytes[..4] && bytes[0..16] == bytes[..16];
    }
  }

  /** Splitting what `Encode` put together. */
  lemma Layout(watermark: nat, sealed: Bytes)
    requires watermark < U64_LIMIT && |sealed| < U32_LIMIT
    ensures var bytes := Header(watermark) + ToBigEndian(|sealed|, 4) + sealed;
            && |bytes| >= HEADER_LEN && bytes[0..4] == MAGIC && FromBigEndian(bytes[4..8]) == ENVELOPE_VERSION
            && FromBigEndian(bytes[8..16]) == watermark && FromBigEndian(bytes[16..20]) == |sealed|
            && bytes[0..AAD_LEN] == Header(watermark) && bytes[HEADER_LEN..] == sealed
  {
    var bytes := Header(watermark) + ToBigEndian(|sealed|, 4) + sealed;
    Limits();
    FromTo(ENVELOPE_VERSION, 4);
    FromTo(watermark, 8);
    FromTo(|sealed|, 4);
    assert bytes[4..8] == ToBigEndian(ENVELOPE_VERSION, 4);
    assert bytes[8..16] == ToBigEndian(watermark, 8);
    assert bytes[16..20] == ToBigEndian(|sealed|, 4);
  }

  /** Bytes whose fixed fields read back as expected are put together from them. */
  lemma Relayout(bytes: Bytes, watermark: nat, sealed: Bytes)
    requires |bytes| >= HEADER_LEN && bytes[0..4] == MAGIC && FromBigEndian(bytes[4..8]) == ENVELOPE_VERSION
    requires FromBigEndian(bytes[8..16]) == watermark && FromBigEndian(bytes[16..20]) == |sealed| && bytes[HEADER_LEN..] == sealed
    ensures watermark < U64_LIMIT && |sealed| < U32_LIMIT
    ensures bytes[0..AAD_LEN] == Header(watermark)
    ensures bytes == Header(watermark) + ToBigEndian(|sealed|, 4) + sealed
  {
    Limits();
    ToFrom(bytes[4..8]);
    ToFrom(bytes[8..16]);
    ToFrom(bytes[16..20]);
    assert bytes[0..AAD_LEN] == bytes[0..4] + bytes[4..8] + bytes[8..16];
    assert bytes == bytes[0..AAD_LEN] + bytes[16..20] + bytes[HEADER_LEN..];
  }

  /** One envelope that was sealed. */
  datatype Seal<!S> = Seal(state: S, watermark: nat, nonce: Bytes)

  ghost predicate SealedAs<S(!new)>(c: Cipher<S>, w: Seal<S>, payload: Bytes, aad: Bytes, blob: Bytes) {
    payload == SealedState(c, w.state, w.watermark, w.nonce) && aad == Header(w.watermark) && blob == c.serialize(w.state)
  }

  /** An ideal cipher: it opens exactly what was sealed, under exactly the data it was sealed with. */
  ghost predicate Ideal<S(!new)>(c: Cipher<S>, written: set<Seal<S>>) {
    && (forall payload, aad, blob ::
          c.open(payload, aad) == Some(blob) <==> exists w :: w in written && SealedAs(c, w, payload, aad, blob))
    && (forall s :: c.deserialize(c.serialize(s)) == Some(s))
    && (forall w :: w in written ==> w.watermark < U64_LIMIT)
  }

  /** What was encoded decodes to the state and watermark that went in. */
  lemma RoundTrip<S(!new)>(c: Cipher<S>, written: set<Seal<S>>, w: Seal<S>)
    requires Ideal(c, written) && w in written && Encode(c, w.state, w.watermark, w.nonce).Ok?
    ensures Decode(c, Encode(c, w.state, w.watermark, w.nonce).value) == Ok((w.watermark, w.state))
  {
    var sealed := SealedState(c, w.state, w.watermark, w.nonce);
    Layout(w.watermark, sealed);
    assert SealedAs(c, w, sealed, Header(w.watermark), c.serialize(w.state));
    assert c.open(sealed, Header(w.watermark)) == Some(c.serialize(w.state));
    var bytes := Header(w.watermark) + ToBigEndian(|sealed|, 4) + sealed;
    assert |bytes[HEADER_LEN..]| == FromBigEndian(bytes[16..20]);
    assert c.open(bytes[HEADER_LEN..], bytes[0..AAD_LEN]) == Some(c.serialize(w.state));
  }

  /**
    Whatever bytes are found, decoding them succeeds only if they are, byte for byte, an envelope that was
    encoded, and then it yields the watermark and state that were sealed together.
   */
  lemma DecodesOnlyWhatWasEncoded<S(!new)>(c: Cipher<S>, written: set<Seal<S>>, bytes: Bytes)
    requires Ideal(c, written) && Decode(c, bytes).Ok?
    ensures exists w :: && w in written && Decode(c, bytes) == Ok((w.watermark, w.state))
                        && Encode(c, w.state, w.watermark, w.nonce) == Ok(bytes)
  {
    var payload, watermark := bytes[HEADER_LEN..], FromBigEndian(bytes[8..16]);
    Relayout(bytes, watermark, payload);
    var blob := c.open(payload, bytes[0..AAD_LEN]).value;
    var w :| w in written && SealedAs(c, w, payload, Header(watermark), blob);
    SameHeader(w.watermark, watermark);
  }

  lemma SameHeader(a: nat, b: nat)
    requires a < U64_LIMIT && b < U64_LIMIT && Header(a) == Header(b)
    ensures a == b
  {
    Limits();
    FromTo(a, 8);
    FromTo(b, 8);
    assert Header(a)[8..] == ToBigEndian(a, 8) && Header(b)[8..] == ToBigEndian(b, 8);
  }
}
