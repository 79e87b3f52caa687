/** The checksummed binary format of one disk entry. */
module EntryCodec {
  import opened Wrappers
  import opened ByteStrings
  import opened KeyCodec

  /** "XVCACHE" and a zero byte. */
  const MAGIC: Bytes := [88, 86, 67, 65, 67, 72, 69, 0]
  const SCHEMA_VERSION: nat := 1
  const HEADER_BYTES: nat := 8 + 4 + 4 + 8 + 32 + 32

  datatype CacheError = PayloadTooLarge

  /** The bytes of an entry: magic, schema, flags, length, key, checksum, payload. */
  ghost function Encoded(hash: Hasher, key: CacheKey, payload: Bytes): Bytes {
    MAGIC + LittleEndian(SCHEMA_VERSION, 4) + LittleEndian(0, 4) + LittleEndian(|payload|, 8)
    + key.bytes + hash(payload) + payload
  }

  method EncodeEntry(hash: Hasher, key: CacheKey, payload: Bytes)
    returns (result: Result<Bytes, CacheError>)
    ensures result.Success? <==> |payload| < U64_LIMIT
    ensures result.Success? ==> DecodeEntry(hash, key, result.value) == Some(payload)
    ensures result.Success? ==> result.value == Encoded(hash, key, payload)
  {
    if |payload| >= U64_LIMIT {
      return Failure(PayloadTooLarge);
    }
    var checksum := hash(payload);
    var output := MAGIC;
    output := output + LittleEndian(SCHEMA_VERSION, 4);
    output := output + LittleEndian(0, 4);
    output := output + LittleEndian(|payload|, 8);
    output := output + key.bytes;
    output := output + checksum;
    output := output + payload;
    EntryExact(hash, key, output, payload);
    result := Success(output);
  }

  function DecodeEntry(hash: Hasher, key: CacheKey, bytes: Bytes): Option<Bytes> {
    if |bytes| < HEADER_BYTES || bytes[..8] != MAGIC then None
    else
      var schema := FromLittleEndian(bytes[8..12]);
      var flags := FromLittleEndian(bytes[12..16]);
      var length := FromLittleEndian(bytes[16..24]);
      if schema != SCHEMA_VERSION || flags != 0 || bytes[24..56] != key.bytes then None
      else if |bytes| != HEADER_BYTES + length then None
      else
        var payload := bytes[HEADER_BYTES..];
        if bytes[56..88] == hash(payload) then Some(payload) else None
  }

  /** A piece in the middle of a byte string is the front of what follows its offset. */
  lemma Piece(whole: Bytes, front: Bytes, piece: Bytes, rest: Bytes)
    requires whole == front + (piece + rest)
    ensures whole[|front|..|front| + |piece|] == piece
    ensures whole == (front + piece) + rest
  {
  }

  lemma EncodedFields(hash: Hasher, key: CacheKey, payload: Bytes, b: Bytes)
    requires b == Encoded(hash, key, payload)
    ensures |b| == HEADER_BYTES + |payload|
    ensures b[..8] == MAGIC
    ensures b[8..12] == LittleEndian(SCHEMA_VERSION, 4)
    ensures b[12..16] == LittleEndian(0, 4)
    ensures b[16..24] == LittleEndian(|payload|, 8)
    ensures b[24..56] == key.bytes
    ensures b[56..88] == hash(payload)
    ensures b[88..] == payload
  {
    var schema, flags, length := LittleEndian(SCHEMA_VERSION, 4), LittleEndian(0, 4), LittleEndian(|payload|, 8);
    var r5 := hash(payload) + payload;
    var r4 := key.bytes + r5;
    var r3 := length + r4;
    var r2 := flags + r3;
    var r1 := schema + r2;
    Regroup(MAGIC, schema, flags, length, key.bytes, hash(payload), payload);
    assert b == MAGIC + r1;
    assert b[..8] == MAGIC;
    Piece(b, MAGIC, schema, r2);
    Piece(b, MAGIC + schema, flags, r3);
    Piece(b, MAGIC + schema + flags, length, r4);
    Piece(b, MAGIC + schema + flags + length, key.bytes, r5);
    Piece(b, MAGIC + schema + flags + length + key.bytes, hash(payload), payload);
  }

  lemma Regroup(a: Bytes, b: Bytes, c: Bytes, d: Bytes, e: Bytes, f: Bytes, g: Bytes)
    ensures a + b + c + d + e + f + g == a + (b + (c + (d + (e + (f + g)))))
  {
    Assoc(a + b + c + d + e, f, g);
    Assoc(a + b + c + d, e, f + g);
    Assoc(a + b + c, d, e + (f + g));
    Assoc(a + b, c, d + (e + (f + g)));
    Assoc(a, b, c + (d + (e + (f + g))));
  }

  lemma Assoc(a: Bytes, b: Bytes, c: Bytes)
    ensures (a + b) + c == a + (b + c)
  {
  }

  lemma WordValues()
    ensures FromLittleEndian(LittleEndian(SCHEMA_VERSION, 4)) == SCHEMA_VERSION
    ensures FromLittleEndian(LittleEndian(0, 4)) == 0
  {
    WordSizes();
    FromToLittleEndian(SCHEMA_VERSION, 4);
    FromToLittleEndian(0, 4);
  }

  /** Decoding accepts exactly the encodings: any other header, length, key, flag or
      checksum is refused. */
  lemma EntryExact(hash: Hasher, key: CacheKey, bytes: Bytes, payload: Bytes)
    ensures DecodeEntry(hash, key, bytes) == Some(payload)
        <==> |payload| < U64_LIMIT && bytes == Encoded(hash, key, payload)
  {
    WordSizes();
    WordValues();
    if |payload| < U64_LIMIT && bytes == Encoded(hash, key, payload) {
      EncodedFields(hash, key, payload, bytes);
      FromToLittleEndian(|payload|, 8);
    } else if DecodeEntry(hash, key, bytes) == Some(payload) {
      DecodedIsEncoded(hash, key, bytes, payload);
    }
  }

  lemma DecodedIsEncoded(hash: Hasher, key: CacheKey, bytes: Bytes, payload: Bytes)
    requires DecodeEntry(hash, key, bytes) == Some(payload)
    ensures |payload| < U64_LIMIT && bytes == Encoded(hash, key, payload)
  {
    WordSizes();
    ToFromLittleEndian(bytes[8..12]);
    ToFromLittleEndian(bytes[12..16]);
    ToFromLittleEndian(bytes[16..24]);
    SevenSlices(bytes);
  }

  lemma SevenSlices(b: Bytes)
    requires |b| >= 88
    ensures b == b[..8] + b[8..12] + b[12..16] + b[16..24] + b[24..56] + b[56..88] + b[88..]
  {
    assert b[..8] + b[8..12] == b[..12];
    assert b[..12] + b[12..16] == b[..16];
    assert b[..16] + b[16..24] == b[..24];
    assert b[..24] + b[24..56] == b[..56];
    assert b[..56] + b[56..88] == b[..88];
    assert b[..88] + b[88..] == b;
  }

  /** One byte string is an entry of at most one key, with one payload. */
  lemma EntryOwner(hash: Hasher, key: CacheKey, other: CacheKey, bytes: Bytes)
    requires DecodeEntry(hash, key, bytes).Some? && DecodeEntry(hash, other, bytes).Some?
    ensures key == other
  {
    assert bytes[24..56] == key.bytes == other.bytes;
  }
}
