/** Cache keys: the byte stream that is hashed into a key, and the file name of a key. */
module KeyCodec {
  import opened Wrappers
  import opened ByteStrings

  datatype CacheKey = CacheKey(bytes: Digest)

  /** The hash function, of which only its type is used. */
  type Hasher = Bytes -> Digest

  /** "XVARNA_CACHE_KEY_V1" and a zero byte. */
  const KEY_PREFIX: Bytes :=
    [88, 86, 65, 82, 78, 65, 95, 67, 65, 67, 72, 69, 95, 75, 69, 89, 95, 86, 49, 0]

  /** One length-prefixed field. */
  function Field(part: Bytes): Bytes {
    LittleEndian(|part|, 8) + part
  }

  function Fields(parts: seq<Bytes>): Bytes {
    if parts == [] then [] else Field(parts[0]) + Fields(parts[1..])
  }

  /** Everything fed to the hasher for one namespace and part list. */
  function KeyStream(space: Bytes, parts: seq<Bytes>): Bytes {
    KEY_PREFIX + Field(space) + Fields(parts)
  }

  /** Slice lengths are 64-bit machine words. */
  predicate Addressable(parts: seq<Bytes>) {
    forall i :: 0 <= i < |parts| ==> |parts[i]| < U64_LIMIT
  }

  method FromParts(hash: Hasher, space: Bytes, parts: seq<Bytes>) returns (key: CacheKey)
    ensures key.bytes == hash(KeyStream(space, parts))
  {
    var fed := KEY_PREFIX;
    fed := fed + LittleEndian(|space|, 8);
    fed := fed + space;
    for i := 0 to |parts|
      invariant fed == KEY_PREFIX + Field(space) + Fields(parts[..i])
    {
      FieldsAppend(parts[..i], parts[i]);
      assert parts[..i + 1] == parts[..i] + [parts[i]];
      fed := fed + LittleEndian(|parts[i]|, 8);
      fed := fed + parts[i];
    }
    assert parts[..|parts|] == parts;
    key := CacheKey(hash(fed));
  }

  lemma {:induction false} FieldsAppend(parts: seq<Bytes>, part: Bytes)
    ensures Fields(parts + [part]) == Fields(parts) + Field(part)
  {
    if parts != [] {
      FieldsAppend(parts[1..], part);
      assert (parts + [part])[1..] == parts[1..] + [part];
    }
  }

  // ---- A reader for the key stream ----

  datatype Parsed = Parsed(field: Bytes, rest: Bytes)

  function ReadField(s: Bytes): (r: Option<Parsed>)
    ensures r.Some? ==> |r.value.rest| < |s|
  {
    if |s| < 8 then None
    else
      var n := FromLittleEndian(s[..8]);
      if |s| - 8 < n then None else Some(Parsed(s[8..8 + n], s[8 + n..]))
  }

  function ReadFields(s: Bytes): Option<seq<Bytes>>
    decreases |s|
  {
    if s == [] then Some([])
    else match ReadField(s)
      case None => None
      case Some(p) =>
        match ReadFields(p.rest)
        case None => None
        case Some(tail) => Some([p.field] + tail)
  }

  /** Namespace first, then the remaining fields. */
  function ReadKeyStream(s: Bytes): Option<(Bytes, seq<Bytes>)> {
    if |s| < 20 || s[..20] != KEY_PREFIX then None
    else match ReadFields(s[20..])
      case None => None
      case Some(fields) =>
        if fields == [] then None else Some((fields[0], fields[1..]))
  }

  lemma ReadFieldAfterWrite(part: Bytes, rest: Bytes)
    requires |part| < U64_LIMIT
    ensures ReadField(Field(part) + rest) == Some(Parsed(part, rest))
  {
    var s := Field(part) + rest;
    WordSizes();
    FromToLittleEndian(|part|, 8);
    assert s[..8] == LittleEndian(|part|, 8);
    assert s[8..8 + |part|] == part;
    assert s[8 + |part|..] == rest;
  }

  lemma WriteFieldAfterRead(s: Bytes)
    requires ReadField(s).Some?
    ensures var p := ReadField(s).value; Field(p.field) + p.rest == s && |p.field| < U64_LIMIT
  {
    WordSizes();
    ToFromLittleEndian(s[..8]);
    var p := ReadField(s).value;
    assert s == s[..8] + p.field + p.rest;
  }

  lemma {:induction false} ReadFieldsAfterWrite(parts: seq<Bytes>)
    requires Addressable(parts)
    ensures ReadFields(Fields(parts)) == Some(parts)
  {
    if parts != [] {
      ReadFieldAfterWrite(parts[0], Fields(parts[1..]));
      ReadFieldsAfterWrite(parts[1..]);
      assert |Fields(parts)| >= 8;
      assert [parts[0]] + parts[1..] == parts;
      hide ReadField, Field;
    }
  }

  lemma {:induction false} WriteFieldsAfterRead(s: Bytes)
    requires ReadFields(s).Some?
    ensures Fields(ReadFields(s).value) == s && Addressable(ReadFields(s).value)
    decreases |s|
  {
    if s != [] {
      var p := ReadField(s).value;
      WriteFieldAfterRead(s);
      WriteFieldsAfterRead(p.rest);
      assert ReadFields(s).value[1..] == ReadFields(p.rest).value;
    }
  }

  /** The framed stream reads back as exactly what was framed, and every readable stream is
      a framed one: no part count is needed. */
  lemma KeyStreamExact(s: Bytes, space: Bytes, parts: seq<Bytes>)
    requires |space| < U64_LIMIT && Addressable(parts)
    ensures ReadKeyStream(s) == Some((space, parts)) <==> s == KeyStream(space, parts)
  {
    if s == KeyStream(space, parts) {
      ReadKeyStreamAfterWrite(space, parts);
    }
    if ReadKeyStream(s) == Some((space, parts)) {
      WriteKeyStreamAfterRead(s);
    }
  }

  lemma ReadKeyStreamAfterWrite(space: Bytes, parts: seq<Bytes>)
    requires |space| < U64_LIMIT && Addressable(parts)
    ensures ReadKeyStream(KeyStream(space, parts)) == Some((space, parts))
  {
    var s := KeyStream(space, parts);
    var all := [space] + parts;
    assert all[1..] == parts;
    assert s[..20] == KEY_PREFIX;
    assert s[20..] == Fields(all);
    ReadFieldsAfterWrite(all);
  }

  lemma WriteKeyStreamAfterRead(s: Bytes)
    requires ReadKeyStream(s).Some?
    ensures var (space, parts) := ReadKeyStream(s).value; s == KeyStream(space, parts)
  {
    var all := ReadFields(s[20..]).value;
    WriteFieldsAfterRead(s[20..]);
    assert s == KEY_PREFIX + s[20..];
    assert s[20..] == Field(all[0]) + Fields(all[1..]);
    assert KEY_PREFIX + (Field(all[0]) + Fields(all[1..])) == KEY_PREFIX + Field(all[0]) + Fields(all[1..]);
  }

  /** Different inputs never feed the hasher the same bytes. */
  lemma KeyStreamInjective(space: Bytes, parts: seq<Bytes>, space': Bytes, parts': seq<Bytes>)
    requires |space| < U64_LIMIT && Addressable(parts)
    requires |space'| < U64_LIMIT && Addressable(parts')
    ensures KeyStream(space, parts) == KeyStream(space', parts') <==> space == space' && parts == parts'
  {
    KeyStreamExact(KeyStream(space, parts), space, parts);
    KeyStreamExact(KeyStream(space', parts'), space', parts');
  }

  // ---- Hexadecimal names ----

  function HexDigit(n: nat): char
    requires n < 16
  {
    "0123456789abcdef"[n]
  }

  function HexValue(c: char): Option<nat> {
    if '0' <= c <= '9' then Some(c as nat - '0' as nat)
    else if 'a' <= c <= 'f' then Some(c as nat - 'a' as nat + 10)
    else None
  }

  function Hex(bytes: Bytes): (r: string)
    ensures |r| == 2 * |bytes|
  {
    if bytes == [] then [] else [HexDigit(bytes[0] / 16), HexDigit(bytes[0] % 16)] + Hex(bytes[1..])
  }

  function UnHex(text: string): Option<Bytes> {
    if text == "" then Some([])
    else if |text| == 1 then None
    else match (HexValue(text[0]), HexValue(text[1]), UnHex(text[2..]))
      case (Some(hi), Some(lo), Some(rest)) =>
        if hi < 16 && lo < 16 then Some([hi * 16 + lo] + rest) else None
      case _ => None
  }

  lemma HexDigitValue(n: nat)
    requires n < 16
    ensures HexValue(HexDigit(n)) == Some(n)
  {
    if n < 10 {
      assert "0123456789abcdef"[n] == "0123456789"[n];
    }
  }

  /** Hexadecimal text reads back to the bytes it was written from. */
  lemma {:induction false} UnHexHex(bytes: Bytes)
    ensures UnHex(Hex(bytes)) == Some(bytes)
  {
    if bytes != [] {
      UnHexHex(bytes[1..]);
      UnHexByte(bytes[0], Hex(bytes[1..]), bytes[1..]);
      assert [bytes[0]] + bytes[1..] == bytes;
    }
  }

  lemma UnHexByte(first: byte, text: string, rest: Bytes)
    requires UnHex(text) == Some(rest)
    ensures UnHex([HexDigit(first / 16), HexDigit(first % 16)] + text) == Some([first] + rest)
  {
    hide Hex;
    HexDigitValue(first / 16);
    HexDigitValue(first % 16);
    hide HexValue, HexDigit;
    assert ([HexDigit(first / 16), HexDigit(first % 16)] + text)[2..] == text;
  }

  method ToHex(key: CacheKey) returns (text: string)
    ensures text == Hex(key.bytes)
    ensures |text| == 64
  {
    text := "";
    for i := 0 to 32
      invariant text + Hex(key.bytes[i..]) == Hex(key.bytes)
    {
      assert key.bytes[i..] == [key.bytes[i]] + key.bytes[i + 1..];
      text := text + [HexDigit(key.bytes[i] / 16), HexDigit(key.bytes[i] % 16)];
    }
    assert text + "" == text;
  }

  /** Name of the disk entry of a key. */
  function EntryName(key: CacheKey): string {
    Hex(key.bytes) + ".xvc"
  }

  function Decimal(n: nat): string {
    if n < 10 then ["0123456789"[n]] else Decimal(n / 10) + ["0123456789"[n % 10]]
  }

  /** Name of the file a store writes before renaming it into place. */
  function TemporaryName(key: CacheKey, process: nat): string {
    Hex(key.bytes) + "." + Decimal(process) + ".tmp"
  }

  /** What `Path::extension` calls an `xvc` file name: a non-empty stem, then ".xvc". */
  predicate HasXvcExtension(name: string) {
    |name| > 4 && name[|name| - 4..] == ".xvc"
  }

  /** So ".xvc" alone is not a cache entry, and "a.b.xvc" is one. */
  lemma XvcExtensionIff(name: string)
    ensures HasXvcExtension(name) <==> exists stem :: stem != "" && name == stem + ".xvc"
  {
    if HasXvcExtension(name) {
      assert name == name[..|name| - 4] + ".xvc";
    }
  }

  /** Keys and their file names correspond one to one, and every name is a lowercase
      hexadecimal stem of 64 characters with the cache extension. */
  lemma EntryNameFaithful(key: CacheKey, other: CacheKey)
    ensures EntryName(key) == EntryName(other) <==> key == other
    ensures HasXvcExtension(EntryName(key)) && |EntryName(key)| == 68
    ensures forall i :: 0 <= i < 64 ==> HexValue(EntryName(key)[i]).Some?
  {
    UnHexHex(key.bytes);
    UnHexHex(other.bytes);
    assert EntryName(key)[..64] == Hex(key.bytes);
    assert EntryName(other)[..64] == Hex(other.bytes);
    HexOnly(key.bytes);
  }

  /** A temporary file is never taken for a cache entry. */
  lemma TemporaryIsForeign(key: CacheKey, process: nat)
    ensures !HasXvcExtension(TemporaryName(key, process))
  {
    var front := Hex(key.bytes) + "." + Decimal(process);
    assert TemporaryName(key, process) == front + ".tmp";
    assert (front + ".tmp")[|front + ".tmp"| - 1] == 'p';
    assert ".xvc"[3] == 'c';
  }

  lemma {:induction false} HexOnly(bytes: Bytes)
    ensures forall i :: 0 <= i < |Hex(bytes)| ==> HexValue(Hex(bytes)[i]).Some?
  {
    if bytes != [] {
      HexOnly(bytes[1..]);
      HexDigitValue(bytes[0] / 16);
      HexDigitValue(bytes[0] % 16);
    }
  }

  function FromDecimal(text: string): nat {
    if text == "" then 0
    else 10 * FromDecimal(text[..|text| - 1]) + (if HexValue(text[|text| - 1]).Some? then HexValue(text[|text| - 1]).value else 0)
  }

  lemma {:induction false} DecimalReads(n: nat)
    ensures FromDecimal(Decimal(n)) == n
  {
    if n < 10 {
      HexDigitValue(n);
      assert "0123456789abcdef"[n] == "0123456789"[n];
      assert Decimal(n)[..0] == "";
    } else {
      var front, last := Decimal(n / 10), "0123456789"[n % 10];
      DecimalReads(n / 10);
      HexDigitValue(n % 10);
      assert "0123456789abcdef"[n % 10] == last;
      assert (front + [last])[..|front|] == front;
    }
  }

  /** Two stores write under one temporary name exactly if key and process are the same. */
  lemma TemporaryNameFaithful(key: CacheKey, process: nat, other: CacheKey, otherProcess: nat)
    ensures TemporaryName(key, process) == TemporaryName(other, otherProcess) <==> key == other && process == otherProcess
  {
    UnHexHex(key.bytes);
    UnHexHex(other.bytes);
    DecimalReads(process);
    DecimalReads(otherProcess);
    TemporaryParts(key, process);
    TemporaryParts(other, otherProcess);
  }

  lemma TemporaryParts(key: CacheKey, process: nat)
    ensures var name := TemporaryName(key, process);
      |name| >= 69 && name[..64] == Hex(key.bytes) && name[65..|name| - 4] == Decimal(process)
  {
  }
}
