/** Field encryption (apps/backend/src/shared/encryption.ts): the v1 and v2 blob layouts, byte for byte. */
module Envelope {
  import opened Wrappers
  import opened Kms

  const VERSION_V1: Byte := 1
  const VERSION_V2: Byte := 2
  const MIN_BLOB := 1 + 2 + IV_LEN + TAG_LEN + 1
  const MAX_WRAPPED_DEK := 0xFFFF
  const MAX_KEK_ID := 0xFF

  datatype FieldError =
    | BlobTooShort | UnsupportedVersion | EmptyKekId | TruncatedHeader | MalformedBlob
    | DekTooLong | KekIdLength | KmsFailure(cause: KmsError) | TagMismatch

  datatype Parts = Parts(kekId: Option<KekId>, wrappedDek: Bytes, iv: Bytes, ct: Bytes, tag: Bytes)

  /** The random bytes one encryption draws. */
  datatype Coins = Coins(dek: Bytes, dekIv: Bytes, iv: Bytes) {
    predicate Valid() {
      |dek| == DEK_LEN && |dekIv| == IV_LEN && |iv| == IV_LEN
    }
  }

  /** `Buffer.from(id, 'ascii')` keeps the low byte of each unit. */
  function AsciiEncode(id: KekId): (b: Bytes)
    ensures |b| == |id|
  {
    seq(|id|, i requires 0 <= i < |id| => id[i] as int % 256)
  }

  /** `toString('ascii')` also clears the high bit. */
  function AsciiDecode(b: Bytes): (id: KekId)
    ensures |id| == |b|
  {
    seq(|b|, i requires 0 <= i < |b| => (b[i] % 128) as char)
  }

  predicate IsAscii(id: KekId) {
    forall i :: 0 <= i < |id| ==> id[i] as int < 128
  }

  function Uint16BE(n: nat): Bytes
    requires n <= MAX_WRAPPED_DEK
  {
    [n / 256, n % 256]
  }

  function ReadUint16BE(b: Bytes, at: nat): nat
    requires at + 2 <= |b|
  {
    var high: int, low: int := b[at], b[at + 1];
    256 * high + low
  }

  function SerializeV2(id: Bytes, wrappedDek: Bytes, iv: Bytes, ct: Bytes, tag: Bytes): Bytes
    requires 1 <= |id| <= MAX_KEK_ID && |wrappedDek| <= MAX_WRAPPED_DEK
  {
    [VERSION_V2, |id|] + id + Uint16BE(|wrappedDek|) + wrappedDek + iv + ct + tag
  }

  /** Blobs written before v2; the code still reads them. */
  function SerializeV1(wrappedDek: Bytes, iv: Bytes, ct: Bytes, tag: Bytes): Bytes
    requires |wrappedDek| <= MAX_WRAPPED_DEK
  {
    [VERSION_V1] + Uint16BE(|wrappedDek|) + wrappedDek + iv + ct + tag
  }

  /** Cut the body that starts at `at`, with a wrapped key of length `len`. */
  function ParseBody(blob: Bytes, kekId: Option<KekId>, at: nat, len: nat): Result<Parts, FieldError> {
    var ivStart := at + len;
    var ctStart, tagStart := ivStart + IV_LEN, |blob| - TAG_LEN;
    if ivStart > |blob| || ctStart > tagStart then Err(MalformedBlob)
    else Ok(Parts(kekId, blob[at..ivStart], blob[ivStart..ctStart], blob[ctStart..tagStart], blob[tagStart..]))
  }

  function Parse(blob: Bytes): Result<Parts, FieldError> {
    if |blob| < MIN_BLOB then Err(BlobTooShort)
    else if blob[0] == VERSION_V1 then ParseBody(blob, None, 3, ReadUint16BE(blob, 1))
    else if blob[0] == VERSION_V2 then
      var idLen: int := blob[1];
      var lenOffset := 2 + idLen;
      if blob[1] == 0 then Err(EmptyKekId)
      else if lenOffset + 2 > |blob| then Err(TruncatedHeader)
      else ParseBody(blob, Some(AsciiDecode(blob[2..lenOffset])), lenOffset + 2, ReadUint16BE(blob, lenOffset))
    else Err(UnsupportedVersion)
  }

  /** Which key wrapped this blob, for the re-wrap scan; it does not parse the rest. */
  function EnvelopeKekId(blob: Bytes): Option<KekId> {
    if |blob| < 2 || blob[0] != VERSION_V2 then None
    else if blob[1] == 0 || 2 + blob[1] > |blob| then None
    else Some(AsciiDecode(blob[2..2 + blob[1]]))
  }

  function EncryptField(g: Aead, kms: LocalKms, plain: Bytes, coins: Coins): Result<Bytes, FieldError> {
    var wrappedDek := kms.Wrap(g, coins.dek, coins.dekIv);
    var id := AsciiEncode(kms.kekId);
    if |wrappedDek| > MAX_WRAPPED_DEK then Err(DekTooLong)
    else if !(1 <= |id| <= MAX_KEK_ID) then Err(KekIdLength)
    else
      var s := g.seal(coins.dek, coins.iv, plain);
      Ok(SerializeV2(id, wrappedDek, coins.iv, s.ct, s.tag))
  }

  function DecryptFieldRaw(g: Aead, kms: LocalKms, blob: Bytes): Result<Bytes, FieldError> {
    match Parse(blob)
    case Err(e) => Err(e)
    case Ok(p) =>
      match kms.Unwrap(g, p.wrappedDek, p.kekId)
      case Err(e) => Err(KmsFailure(e))
      case Ok(dek) =>
        match g.open(dek, p.iv, p.ct, p.tag)
        case None => Err(TagMismatch)
        case Some(plain) => Ok(plain)
  }

  /** The blob is some header followed by these parts. */
  ghost predicate LaidOut(blob: Bytes, header: Bytes, p: Parts) {
    |p.iv| == IV_LEN && |p.tag| == TAG_LEN && blob == header + p.wrappedDek + p.iv + p.ct + p.tag
  }

  /** What the parser accepts, it cuts without losing or inventing a byte. */
  lemma ParseIsLayout(blob: Bytes) returns (header: Bytes)
    requires Parse(blob).Ok?
    ensures LaidOut(blob, header, Parse(blob).value)
  {
    hide AsciiDecode, ReadUint16BE;
    if blob[0] == VERSION_V1 {
      BodyIsLayout(blob, None, 3, ReadUint16BE(blob, 1));
      header := blob[..3];
    } else {
      var at := 2 + blob[1] as int;
      BodyIsLayout(blob, Some(AsciiDecode(blob[2..at])), at + 2, ReadUint16BE(blob, at));
      header := blob[..at + 2];
    }
  }

  lemma BodyIsLayout(blob: Bytes, id: Option<KekId>, at: nat, len: nat)
    requires at <= |blob| && ParseBody(blob, id, at, len).Ok?
    ensures LaidOut(blob, blob[..at], ParseBody(blob, id, at, len).value)
  {
    var p := ParseBody(blob, id, at, len).value;
    assert blob == blob[..at] + p.wrappedDek + p.iv + p.ct + p.tag;
  }

  /**
   * Nothing unauthenticated is ever returned: a blob decrypts exactly if a candidate key opens its wrapped data key, and
   * the data key the first such candidate yields opens the body; and then to what that gives.
   */
  lemma DecryptAuthenticates(g: Aead, kms: LocalKms, blob: Bytes, plain: Bytes)
    ensures DecryptFieldRaw(g, kms, blob) == Ok(plain) <==>
      && Parse(blob).Ok?
      && var p := Parse(blob).value;
         exists keys, i :: kms.CandidateKeys(p.kekId) == Ok(keys) && OpensFirst(g, keys, i, p, plain)
  {
    if Parse(blob).Ok? {
      var p := Parse(blob).value;
      var keys := kms.CandidateKeys(p.kekId);
      if keys.Ok? && |p.wrappedDek| >= Kms.IV_LEN + Kms.TAG_LEN {
        var i := FirstExact(g, keys.value, p.wrappedDek);
        if exists i' :: OpensFirst(g, keys.value, i', p, plain) {
          var i' :| OpensFirst(g, keys.value, i', p, plain);
        }
        if DecryptFieldRaw(g, kms, blob) == Ok(plain) {
          assert OpensFirst(g, keys.value, i, p, plain);
        }
      }
    }
  }

  ghost predicate OpensFirst(g: Aead, keys: seq<Bytes>, i: nat, p: Parts, plain: Bytes) {
    && i < |keys| && |p.wrappedDek| >= 28
    && Opening(g, keys[i], p.wrappedDek).Some? && (forall j :: 0 <= j < i ==> Opening(g, keys[j], p.wrappedDek) == None)
    && g.open(Opening(g, keys[i], p.wrappedDek).value, p.iv, p.ct, p.tag) == Some(plain)
  }

  lemma {:induction false} FirstExact(g: Aead, keys: seq<Bytes>, wrapped: Bytes) returns (i: nat)
    requires |wrapped| >= 28
    ensures i <= |keys| && forall j :: 0 <= j < i ==> Opening(g, keys[j], wrapped) == None
    ensures if i < |keys| then Opening(g, keys[i], wrapped).Some? && FirstOpening(g, keys, wrapped) == Opening(g, keys[i], wrapped)
            else FirstOpening(g, keys, wrapped) == None
  {
    if keys == [] || Opening(g, keys[0], wrapped).Some? {
      i := 0;
    } else {
      var k := FirstExact(g, keys[1..], wrapped);
      i := k + 1;
      forall j | 0 <= j < i ensures Opening(g, keys[j], wrapped) == None {
        assert j > 0 ==> keys[j] == keys[1..][j - 1];
      }
    }
  }

  /** A body splits back into its parts behind any header. */
  lemma BodyParts(header: Bytes, wrappedDek: Bytes, iv: Bytes, ct: Bytes, tag: Bytes)
    requires |iv| == IV_LEN && |tag| == TAG_LEN
    ensures forall id :: ParseBody(header + wrappedDek + iv + ct + tag, id, |header|, |wrappedDek|)
                         == Ok(Parts(id, wrappedDek, iv, ct, tag))
  {
    var blob, w := header + wrappedDek + iv + ct + tag, |header| + |wrappedDek|;
    assert blob[|header|..w] == wrappedDek;
    assert blob[w..w + IV_LEN] == iv;
    assert blob[w + IV_LEN..|blob| - TAG_LEN] == ct;
    assert blob[|blob| - TAG_LEN..] == tag;
  }

  lemma ParseSerializedV2(id: Bytes, wrappedDek: Bytes, iv: Bytes, ct: Bytes, tag: Bytes)
    requires 1 <= |id| <= MAX_KEK_ID && |wrappedDek| <= MAX_WRAPPED_DEK && |iv| == IV_LEN && |tag| == TAG_LEN
    ensures var blob := SerializeV2(id, wrappedDek, iv, ct, tag);
      && |blob| == 4 + |id| + |wrappedDek| + IV_LEN + |ct| + TAG_LEN
      && EnvelopeKekId(blob) == Some(AsciiDecode(id))
      && Parse(blob) ==
         if |blob| < MIN_BLOB then Err(BlobTooShort) else Ok(Parts(Some(AsciiDecode(id)), wrappedDek, iv, ct, tag))
  {
    var blob := SerializeV2(id, wrappedDek, iv, ct, tag);
    var k, w := |id|, |wrappedDek|;
    var header := [VERSION_V2, k] + id + Uint16BE(w);
    assert header[2..2 + k] == id && header[2 + k] == w / 256 && header[3 + k] == w % 256;
    assert blob[2..2 + k] == header[2..2 + k];
    BodyParts(header, wrappedDek, iv, ct, tag);
  }

  lemma ParseSerializedV1(wrappedDek: Bytes, iv: Bytes, ct: Bytes, tag: Bytes)
    requires |wrappedDek| <= MAX_WRAPPED_DEK && |iv| == IV_LEN && |tag| == TAG_LEN
    ensures var blob := SerializeV1(wrappedDek, iv, ct, tag);
      && |blob| == 3 + |wrappedDek| + IV_LEN + |ct| + TAG_LEN
      && EnvelopeKekId(blob) == None
      && Parse(blob) == if |blob| < MIN_BLOB then Err(BlobTooShort) else Ok(Parts(None, wrappedDek, iv, ct, tag))
  {
    var blob := SerializeV1(wrappedDek, iv, ct, tag);
    var w := |wrappedDek|;
    var header := [VERSION_V1] + Uint16BE(w);
    assert header[1] == w / 256 && header[2] == w % 256;
    BodyParts(header, wrappedDek, iv, ct, tag);
  }

  /** Which blobs name a key: those of version 2 whose id is not empty and not cut short. */
  lemma NamesAKeyExact(blob: Bytes)
    ensures EnvelopeKekId(blob).Some? <==> |blob| >= 2 && blob[0] == 2 && blob[1] > 0 && 2 + blob[1] <= |blob|
    ensures Parse(blob) == Err(TruncatedHeader) <==>
      |blob| >= 32 && blob[0] == 2 && blob[1] > 0 && 4 + blob[1] > |blob|
  {
  }

  /** The cheap scan and the full parser agree on the key id of every blob the parser accepts. */
  lemma ScanAgreesWithParse(blob: Bytes)
    requires Parse(blob).Ok?
    ensures EnvelopeKekId(blob) == Parse(blob).value.kekId
  {
    if blob[0] == VERSION_V2 {
      assert 2 + blob[1] <= |blob|;
    }
  }

  /** The id that comes back is the id that was written if and only if it was ASCII. */
  lemma AsciiExact(id: KekId)
    ensures AsciiDecode(AsciiEncode(id)) == id <==> IsAscii(id)
  {
    var back := AsciiDecode(AsciiEncode(id));
    forall i | 0 <= i < |id| ensures back[i] == id[i] <==> id[i] as int < 128 {
      assert back[i] as int == id[i] as int % 256 % 128;
    }
    if back != id {
      var i :| 0 <= i < |id| && back[i] != id[i];
    }
  }

  /** The header alone decides the id a written blob names; no property of the cipher is needed. */
  lemma EncryptNamesId(g: Aead, kms: LocalKms, plain: Bytes, coins: Coins)
    requires EncryptField(g, kms, plain, coins).Ok?
    ensures EnvelopeKekId(EncryptField(g, kms, plain, coins).value) == Some(AsciiDecode(AsciiEncode(kms.kekId)))
  {
    var blob := EncryptField(g, kms, plain, coins).value;
    assert blob[2..2 + |kms.kekId|] == AsciiEncode(kms.kekId);
  }

  /** Encryption succeeds exactly for an id of 1 to 255 units, and its output always names the (decoded) active id. */
  lemma EncryptStamps(g: Aead, kms: LocalKms, plain: Bytes, coins: Coins)
    requires g.Correct() && coins.Valid()
    ensures EncryptField(g, kms, plain, coins).Ok? <==> 1 <= |kms.kekId| <= MAX_KEK_ID
    ensures EncryptField(g, kms, plain, coins).Ok? ==>
      (EnvelopeKekId(EncryptField(g, kms, plain, coins).value) == Some(kms.kekId) <==> IsAscii(kms.kekId))
  {
    WrapSplits(g, kms, coins.dek, coins.dekIv);
    assert g.SealsBack(kms.kek, coins.dekIv, coins.dek) && g.SealsBack(coins.dek, coins.iv, plain);
    if EncryptField(g, kms, plain, coins).Ok? {
      var s := g.seal(coins.dek, coins.iv, plain);
      ParseSerializedV2(AsciiEncode(kms.kekId), kms.Wrap(g, coins.dek, coins.dekIv), coins.iv, s.ct, s.tag);
      AsciiExact(kms.kekId);
    }
  }

  /**
   * encrypt then decrypt, through a later key service that may have rotated since: it gives the plaintext back whenever
   * the id stamped on the blob still selects the key that wrapped it.
   */
  lemma FieldRoundTrip(g: Aead, writer: LocalKms, reader: LocalKms, plain: Bytes, coins: Coins)
    requires g.Correct() && coins.Valid() && EncryptField(g, writer, plain, coins).Ok?
    requires reader.CandidateKeys(Some(AsciiDecode(AsciiEncode(writer.kekId)))) == Ok([writer.kek])
    ensures DecryptFieldRaw(g, reader, EncryptField(g, writer, plain, coins).value) == Ok(plain)
  {
    WrapSplits(g, writer, coins.dek, coins.dekIv);
    assert g.SealsBack(writer.kek, coins.dekIv, coins.dek) && g.SealsBack(coins.dek, coins.iv, plain);
    var s := g.seal(coins.dek, coins.iv, plain);
    ParseSerializedV2(AsciiEncode(writer.kekId), writer.Wrap(g, coins.dek, coins.dekIv), coins.iv, s.ct, s.tag);
    assert FirstOpening(g, [writer.kek], writer.Wrap(g, coins.dek, coins.dekIv)) == Some(coins.dek);
  }

  /** With an ASCII id, what was just written reads back; with any other id it reads back only by accident. */
  lemma FreshWriteReads(g: Aead, kms: LocalKms, plain: Bytes, coins: Coins)
    requires g.Correct() && coins.Valid() && EncryptField(g, kms, plain, coins).Ok?
    requires !Lists(kms.previous, AsciiDecode(AsciiEncode(kms.kekId)))
    ensures DecryptFieldRaw(g, kms, EncryptField(g, kms, plain, coins).value) ==
      if IsAscii(kms.kekId) then Ok(plain)
      else Err(KmsFailure(UnknownKek(AsciiDecode(AsciiEncode(kms.kekId)))))
  {
    AsciiExact(kms.kekId);
    if IsAscii(kms.kekId) {
      FieldRoundTrip(g, kms, kms, plain, coins);
    } else {
      WrapSplits(g, kms, coins.dek, coins.dekIv);
      assert g.SealsBack(kms.kek, coins.dekIv, coins.dek) && g.SealsBack(coins.dek, coins.iv, plain);
      var s := g.seal(coins.dek, coins.iv, plain);
      ParseSerializedV2(AsciiEncode(kms.kekId), kms.Wrap(g, coins.dek, coins.dekIv), coins.iv, s.ct, s.tag);
    }
  }

  /** A blob that names the active key decrypts without any retired key, with the same outcome. */
  lemma ActiveBlobNeedsNoRetired(g: Aead, kms: LocalKms, blob: Bytes)
    requires EnvelopeKekId(blob) == Some(kms.kekId)
    ensures DecryptFieldRaw(g, kms.(previous := []), blob) == DecryptFieldRaw(g, kms, blob)
  {
    if Parse(blob).Ok? {
      ScanAgreesWithParse(blob);
      ActiveNeedsNoRetired(g, kms, Parse(blob).value.wrappedDek);
    }
  }
}
