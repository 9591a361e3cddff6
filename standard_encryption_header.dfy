/** The EncryptionHeader structure of standard (CryptoAPI / AES) encryption,
    [MS-OFFCRYPTO] section 2.3.2: flags, sizeExtra, algorithm id, hash
    algorithm id, key size, provider type, two reserved ints, and the
    null-terminated UTF-16LE name of the cryptographic service provider
    (CSP). When written it is preceded by its own size.

    Java `char`s are 16-bit code units, modelled as ints in 0..0xFFFF. The
    cipher, hash and provider enums are identified by their ecma ids; which
    ids each enum knows is a parameter. */
module StandardEncryptionHeader {
  import opened Wrappers
  import opened LittleEndian

  /** [MS-OFFCRYPTO] section 2.3.5.1: a key size of 0 means 0x28 bits. */
  const DEFAULT_KEY_SIZE: int := 0x28
  /** The salt size that opens the EncryptionVerifier; seeing it where the
      CSP name would start means the name is absent. */
  const SALT_SIZE: int := 16
  /** Eight 4-byte fields precede the name. */
  const FIXED_SIZE: int := 32

  datatype ChainingMode = Ecb | Cbc | Cfb

  /** The fields of `EncryptionHeader` that this header sets. Nullable ones
      are options. */
  datatype HeaderFields = HeaderFields(
    flags: int, sizeExtra: int, cipherId: int, hashId: int,
    keySize: int, blockSize: int, providerId: int,
    cspName: Option<seq<int>>, chainingMode: Option<ChainingMode>, keySalt: Option<seq<byte>>)

  /** The ecma ids for which `CipherAlgorithm.fromEcmaId`,
      `HashAlgorithm.fromEcmaId` and `CipherProvider.fromEcmaId` find a
      constant; any other id makes the lookup throw. */
  datatype EcmaIds = EcmaIds(cipher: int -> bool, hash: int -> bool, provider: int -> bool)

  /** The header's ids are all known to their enums, as they are for a
      header built from enum constants. */
  predicate KnownIds(ids: EcmaIds, f: HeaderFields) {
    ids.cipher(f.cipherId) && ids.hash(f.hashId) && ids.provider(f.providerId)
  }

  /** A name that can be written and read back: every unit a non-zero
      16-bit value. */
  predicate IsCspName(name: seq<int>) {
    forall k :: 0 <= k < |name| ==> 0 < name[k] < 0x1_0000
  }

  // ------------------------------------------------------------- reading

  /** Java's `(char)` of a `short`: the low 16 bits, unsigned. */
  function CharOf(v: int): (c: int)
    ensures 0 <= c < 0x1_0000
  {
    v % 0x1_0000
  }

  /** The name loop: 16-bit units up to and including a 0 terminator. */
  function TakeCspName(s: seq<byte>): (r: Result<(seq<int>, seq<byte>), Fault>)
    ensures r.Success? ==> IsCspName(r.value.0) && |r.value.1| < |s|
    decreases |s|
  {
    var c :- TakeShort(s);
    if CharOf(c.0) == 0 then Success(([], c.1))
    else
      var more :- TakeCspName(c.1);
      Success(([CharOf(c.0)] + more.0, more.1))
  }

  /** Flags, sizeExtra, algorithm id and hash algorithm id. */
  datatype Algorithms = Algorithms(flags: int, sizeExtra: int, cipherId: int, hashId: int)

  /** Each algorithm id is looked up as soon as it is read, so an unknown
      cipher id fails before the hash id is read. */
  function TakeAlgorithms(s: seq<byte>, ids: EcmaIds): (r: Result<(Algorithms, seq<byte>), Fault>)
    ensures |s| < 12 ==> r == Failure(TruncatedInput)
    ensures |s| >= 12 && !ids.cipher(TakeInt(s[8..]).value.0) ==> r == Failure(UnknownAlgorithm)
    ensures r.Success? <==> |s| >= 16 && ids.cipher(TakeInt(s[8..]).value.0) && ids.hash(TakeInt(s[12..]).value.0)
    ensures r.Success? ==> r.value.1 == s[16..] && ids.cipher(r.value.0.cipherId) && ids.hash(r.value.0.hashId)
  {
    var flags :- TakeInt(s);
    var extra :- TakeInt(flags.1);
    assert extra.1 == s[8..];
    var cipher :- TakeInt(extra.1);
    if !ids.cipher(cipher.0) then Failure(UnknownAlgorithm)
    else
      assert cipher.1 == s[12..];
      var hash :- TakeInt(cipher.1);
      if !ids.hash(hash.0) then Failure(UnknownAlgorithm)
      else Success((Algorithms(flags.0, extra.0, cipher.0, hash.0), hash.1))
  }

  /** Key size and provider type, the provider looked up at once, then
      `readLong()` over the two reserved ints. */
  function TakeKey(s: seq<byte>, ids: EcmaIds): (r: Result<((int, int), seq<byte>), Fault>)
    ensures |s| < 8 ==> r == Failure(TruncatedInput)
    ensures |s| >= 8 && !ids.provider(TakeInt(s[4..]).value.0) ==> r == Failure(UnknownAlgorithm)
    ensures r.Success? <==> |s| >= 16 && ids.provider(TakeInt(s[4..]).value.0)
    ensures r.Success? ==> r.value.1 == s[16..] && ids.provider(r.value.0.1)
  {
    var ks :- TakeInt(s);
    var provider :- TakeInt(ks.1);
    if !ids.provider(provider.0) then Failure(UnknownAlgorithm)
    else
      var reserved :- TakeBytes(provider.1, 8);
      Success(((ks.0, provider.0), reserved.1))
  }

  /** The name part: the next int is peeked (the stream is reset after
      it); if it is the salt size the name is empty and nothing is
      consumed, otherwise the name loop runs. */
  function TakeCspNameField(s: seq<byte>): (r: Result<(seq<int>, seq<byte>), Fault>)
    ensures r.Success? ==> |s| >= 4
  {
    var check :- TakeInt(s);
    if check.0 == SALT_SIZE then Success(([], s)) else TakeCspName(s)
  }

  /** The key size as stored: 0 is read as 0x28. */
  function StoredKeySize(keySize: int): (r: int)
    ensures keySize != 0 ==> r == keySize
    ensures keySize == 0 ==> r == DEFAULT_KEY_SIZE
  {
    if keySize == 0 then DEFAULT_KEY_SIZE else keySize
  }

  /** The parsing constructor on the bytes after the size prefix. The
      block size is the key size; the chaining mode is ECB and there is no
      key salt. */
  function ParseHeader(s: seq<byte>, ids: EcmaIds): (r: Result<(HeaderFields, seq<byte>), Fault>)
    ensures r.Success? ==> r.value.0.blockSize == r.value.0.keySize && r.value.0.keySize != 0
    ensures r.Success? ==> r.value.0.chainingMode == Some(Ecb) && r.value.0.keySalt.None? && r.value.0.cspName.Some?
    ensures r.Success? ==> |s| >= FIXED_SIZE + 4 && KnownIds(ids, r.value.0)
    ensures |s| >= 12 && !ids.cipher(TakeInt(s[8..]).value.0) ==> r == Failure(UnknownAlgorithm)
  {
    var alg :- TakeAlgorithms(s, ids);
    var key :- TakeKey(alg.1, ids);
    var name :- TakeCspNameField(key.1);
    var keySize := StoredKeySize(key.0.0);
    Success((HeaderFields(alg.0.flags, alg.0.sizeExtra, alg.0.cipherId, alg.0.hashId,
                          keySize, keySize, key.0.1, Some(name.0), Some(Ecb), None), name.1))
  }

  // ------------------------------------------------------------- writing

  /** The character the UTF-16 encoder puts in place of a unit it cannot
      encode. */
  const REPLACEMENT: int := 0xFFFD

  predicate IsHighSurrogate(u: int) { 0xD800 <= u <= 0xDBFF }
  predicate IsLowSurrogate(u: int) { 0xDC00 <= u <= 0xDFFF }
  predicate IsSurrogate(u: int) { IsHighSurrogate(u) || IsLowSurrogate(u) }

  /** Well-formed UTF-16: every high surrogate is followed by a low one,
      and no low surrogate stands on its own. */
  predicate WellFormedUtf16(units: seq<int>)
    decreases |units|
  {
    if units == [] then true
    else if IsHighSurrogate(units[0]) then
      |units| >= 2 && IsLowSurrogate(units[1]) && WellFormedUtf16(units[2..])
    else !IsLowSurrogate(units[0]) && WellFormedUtf16(units[1..])
  }

  /** What the UTF-16 encoder encodes: a surrogate pair is kept, and an
      unpaired surrogate becomes U+FFFD. Every other unit is kept. */
  function ReplaceUnpaired(units: seq<int>): (r: seq<int>)
    ensures |r| == |units|
    ensures forall k :: 0 <= k < |units| ==>
              r[k] == units[k] || (IsSurrogate(units[k]) && r[k] == REPLACEMENT)
    decreases |units|
  {
    if units == [] then []
    else if IsHighSurrogate(units[0]) && |units| >= 2 && IsLowSurrogate(units[1]) then
      units[..2] + ReplaceUnpaired(units[2..])
    else if IsSurrogate(units[0]) then [REPLACEMENT] + ReplaceUnpaired(units[1..])
    else [units[0]] + ReplaceUnpaired(units[1..])
  }

  /** The repaired units are well formed. */
  lemma {:induction false} ReplaceUnpairedWellFormed(units: seq<int>)
    ensures WellFormedUtf16(ReplaceUnpaired(units))
    decreases |units|
  {
    var r := ReplaceUnpaired(units);
    if units == [] {
    } else if IsHighSurrogate(units[0]) && |units| >= 2 && IsLowSurrogate(units[1]) {
      ReplaceUnpairedWellFormed(units[2..]);
      assert r[2..] == ReplaceUnpaired(units[2..]);
    } else {
      ReplaceUnpairedWellFormed(units[1..]);
      assert r[1..] == ReplaceUnpaired(units[1..]);
    }
  }

  /** Well-formed units are left alone, and only they are: the name is
      written as is exactly when it is well-formed UTF-16. */
  lemma {:induction false} ReplaceUnpairedKeepsIffWellFormed(units: seq<int>)
    ensures ReplaceUnpaired(units) == units <==> WellFormedUtf16(units)
    decreases |units|
  {
    ReplaceUnpairedWellFormed(units);
    if units == [] {
    } else if IsHighSurrogate(units[0]) && |units| >= 2 && IsLowSurrogate(units[1]) {
      ReplaceUnpairedKeepsIffWellFormed(units[2..]);
      if WellFormedUtf16(units) {
        assert units == units[..2] + units[2..];
      }
    } else {
      ReplaceUnpairedKeepsIffWellFormed(units[1..]);
      if WellFormedUtf16(units) {
        assert units == [units[0]] + units[1..];
      }
    }
  }

  /** A lone high surrogate is written as the bytes of U+FFFD. */
  lemma LoneSurrogateIsReplaced()
    ensures UnicodeLE([0xD800]) == [0xFD, 0xFF]
  {
    assert ReplaceUnpaired([0xD800]) == [REPLACEMENT] + ReplaceUnpaired([]);
  }

  /** Each unit as two bytes, low byte first. */
  function UnitsLE(units: seq<int>): (r: seq<byte>)
    ensures |r| == 2 * |units|
  {
    if units == [] then [] else ShortBytes(units[0]) + UnitsLE(units[1..])
  }

  /** `StringUtil.getToUnicodeLE`, which is `getBytes` in UTF-16LE: the
      repaired units, two bytes each, low byte first. */
  function UnicodeLE(name: seq<int>): (r: seq<byte>)
    ensures |r| == 2 * |name|
    ensures WellFormedUtf16(name) ==> r == UnitsLE(name)
  {
    ReplaceUnpairedKeepsIffWellFormed(name);
    UnitsLE(ReplaceUnpaired(name))
  }

  /** The name `write` uses: the stored one, or the provider's default name
      when none is stored. */
  function NameToWrite(f: HeaderFields, providerName: int -> seq<int>): seq<int> {
    if f.cspName.Some? then f.cspName.value else providerName(f.providerId)
  }

  function AlgorithmBytes(f: HeaderFields): seq<byte> {
    IntBytes(f.flags) + (IntBytes(0) + (IntBytes(f.cipherId) + IntBytes(f.hashId)))
  }

  function KeyBytes(f: HeaderFields): seq<byte> {
    IntBytes(f.keySize) + (IntBytes(f.providerId) + (IntBytes(0) + IntBytes(0)))
  }

  function NameBytes(name: seq<int>): seq<byte> {
    UnicodeLE(name) + ShortBytes(0)
  }

  /** What `write` puts after the size prefix. */
  function Body(f: HeaderFields, providerName: int -> seq<int>): (r: seq<byte>)
    ensures |r| == FIXED_SIZE + 2 * |NameToWrite(f, providerName)| + 2
  {
    AlgorithmBytes(f) + (KeyBytes(f) + NameBytes(NameToWrite(f, providerName)))
  }

  /** `write`: the body preceded by its length. */
  function HeaderBytes(f: HeaderFields, providerName: int -> seq<int>): seq<byte> {
    var body := Body(f, providerName);
    IntBytes(|body|) + body
  }

  // --------------------------------------------------------- properties

  /** The size prefix counts exactly the bytes after it: the eight fixed
      ints, two bytes per name unit and the terminator. */
  lemma SizePrefix(f: HeaderFields, providerName: int -> seq<int>)
    ensures |HeaderBytes(f, providerName)| == 4 + FIXED_SIZE + 2 * |NameToWrite(f, providerName)| + 2
    ensures HeaderBytes(f, providerName)[..4] == IntBytes(|HeaderBytes(f, providerName)| - 4)
    ensures HeaderBytes(f, providerName)[4..] == Body(f, providerName)
  {
    var body := Body(f, providerName);
    assert (IntBytes(|body|) + body)[..4] == IntBytes(|body|);
    assert (IntBytes(|body|) + body)[4..] == body;
  }

  /** `write` ignores the parsed sizeExtra and reserved fields: they are
      always written as zeros. */
  lemma ZeroFieldsWritten(f: HeaderFields, providerName: int -> seq<int>)
    ensures Body(f, providerName)[4..8] == Zeros(4)
    ensures Body(f, providerName)[24..32] == Zeros(8)
  {
    var a := AlgorithmBytes(f);
    var k := KeyBytes(f);
    var n := NameBytes(NameToWrite(f, providerName));
    assert IntBytes(0) == [0, 0, 0, 0];
    assert a[4..8] == IntBytes(0) == Zeros(4);
    assert k[8..16] == IntBytes(0) + IntBytes(0) == Zeros(8);
    assert Body(f, providerName) == a + k + n;
    assert (a + k + n)[4..8] == a[4..8];
    assert (a + k + n)[24..32] == k[8..16];
  }

  /** A written name reads back as the units the encoder wrote. */
  lemma TakeCspNameOfWritten(name: seq<int>, rest: seq<byte>)
    requires IsCspName(name)
    ensures TakeCspName(NameBytes(name) + rest) == Success((ReplaceUnpaired(name), rest))
  {
    TakeUnitsOfWritten(ReplaceUnpaired(name), rest);
  }

  lemma {:induction false} TakeUnitsOfWritten(units: seq<int>, rest: seq<byte>)
    requires IsCspName(units)
    ensures TakeCspName(UnitsLE(units) + ShortBytes(0) + rest) == Success((units, rest))
    decreases |units|
  {
    if units == [] {
      TakeShortOfWritten(0, rest);
    } else {
      var tail := UnitsLE(units[1..]) + ShortBytes(0) + rest;
      assert UnitsLE(units) + ShortBytes(0) + rest == ShortBytes(units[0]) + tail;
      var u := units[0];
      TakeUShortOfWritten(u, tail);
      TakeShort16(ShortBytes(u) + tail);
      TakeUnitsOfWritten(units[1..], rest);
      assert [u] + units[1..] == units;
    }
  }

  /** `readShort()` and `readUShort()` see the same 16 bits. */
  lemma TakeShort16(s: seq<byte>)
    ensures TakeShort(s).Success? <==> TakeUShort(s).Success?
    ensures TakeShort(s).Success? ==>
              CharOf(TakeShort(s).value.0) == TakeUShort(s).value.0 && TakeShort(s).value.1 == TakeUShort(s).value.1
  {
  }

  lemma {:induction false} TakeAlgorithmsOfWritten(f: HeaderFields, ids: EcmaIds, rest: seq<byte>)
    requires IsInt(f.flags) && IsInt(f.cipherId) && IsInt(f.hashId)
    requires ids.cipher(f.cipherId) && ids.hash(f.hashId)
    ensures TakeAlgorithms(AlgorithmBytes(f) + rest, ids) == Success((Algorithms(f.flags, 0, f.cipherId, f.hashId), rest))
  {
    var s3 := IntBytes(f.hashId) + rest;
    var s2 := IntBytes(f.cipherId) + s3;
    var s1 := IntBytes(0) + s2;
    assert AlgorithmBytes(f) + rest == IntBytes(f.flags) + s1;
    TakeIntOfWritten(f.flags, s1);
    TakeIntOfWritten(0, s2);
    TakeIntOfWritten(f.cipherId, s3);
    TakeIntOfWritten(f.hashId, rest);
  }

  lemma {:induction false} TakeKeyOfWritten(f: HeaderFields, ids: EcmaIds, rest: seq<byte>)
    requires IsInt(f.keySize) && IsInt(f.providerId) && ids.provider(f.providerId)
    ensures TakeKey(KeyBytes(f) + rest, ids) == Success(((f.keySize, f.providerId), rest))
  {
    var s2 := IntBytes(0) + IntBytes(0) + rest;
    var s1 := IntBytes(f.providerId) + s2;
    assert KeyBytes(f) + rest == IntBytes(f.keySize) + s1;
    TakeIntOfWritten(f.keySize, s1);
    TakeIntOfWritten(f.providerId, s2);
    TakeBytesOfWritten(IntBytes(0) + IntBytes(0), rest);
  }

  /** The peeked int is the salt size exactly when the next four bytes
      are 16, 0, 0, 0. */
  lemma PeekIsSaltSize(s: seq<byte>)
    requires |s| >= 4
    ensures TakeInt(s).value.0 == SALT_SIZE <==> s[..4] == [16, 0, 0, 0]
  {
    var u := s[0] as int + 0x100 * s[1] as int + 0x1_0000 * s[2] as int + 0x100_0000 * s[3] as int;
    assert 0 <= u < INT_RANGE;
    assert TakeInt(s).value.0 == ToInt(u);
    if s[..4] == [16, 0, 0, 0] {
      assert s[0] == 16 && s[1] == 0 && s[2] == 0 && s[3] == 0;
    }
  }

  /** The peek does not mistake a written name for the salt size, unless
      the name is the single unit 16. An empty name needs two more bytes
      after its terminator for the peek to read. */
  lemma {:induction false} TakeCspNameFieldOfWritten(name: seq<int>, rest: seq<byte>)
    requires IsCspName(name) && name != [SALT_SIZE]
    requires name == [] ==> |rest| >= 2
    ensures TakeCspNameField(NameBytes(name) + rest) == Success((ReplaceUnpaired(name), rest))
  {
    var s := NameBytes(name) + rest;
    TakeCspNameOfWritten(name, rest);
    NameBytesStart(name, rest);
    PeekIsSaltSize(s);
  }

  /** The first four bytes of a written name never read as 16, 0, 0, 0,
      unless the name is the single unit 16. */
  lemma NameBytesStart(name: seq<int>, rest: seq<byte>)
    requires IsCspName(name) && name != [SALT_SIZE]
    requires name == [] ==> |rest| >= 2
    ensures |NameBytes(name) + rest| >= 4 && (NameBytes(name) + rest)[..4] != [16, 0, 0, 0]
  {
    var s := NameBytes(name) + rest;
    var units := ReplaceUnpaired(name);
    if name == [] {
      assert s[0] == 0;
    } else {
      assert UnicodeLE(name) == ShortBytes(units[0]) + UnitsLE(units[1..]);
      assert s[0] as int + 0x100 * s[1] as int == units[0];
      if units[0] == SALT_SIZE {
        if |name| == 1 {
          assert false;
        }
        assert UnitsLE(units[1..]) == ShortBytes(units[1]) + UnitsLE(units[2..]);
        assert s[2] as int + 0x100 * s[3] as int == units[1];
      }
    }
  }

  /** The header as the parsing constructor leaves it when reading what
      `write` wrote. */
  function AsRead(f: HeaderFields, providerName: int -> seq<int>): (g: HeaderFields)
    ensures g.sizeExtra == 0 && g.blockSize == g.keySize
    ensures g.chainingMode == Some(Ecb) && g.keySalt == None
  {
    var keySize := StoredKeySize(f.keySize);
    f.(sizeExtra := 0, keySize := keySize, blockSize := keySize,
       cspName := Some(ReplaceUnpaired(NameToWrite(f, providerName))), chainingMode := Some(Ecb), keySalt := None)
  }

  /** Reading back what `write` wrote gives the same flags, ids and key
      size, the name with every unpaired surrogate replaced by U+FFFD (so a
      well-formed name comes back as is), a zero sizeExtra, the block size
      equal to the key size, and leaves what followed unread. A key size of
      0 comes back as 0x28. */
  lemma {:induction false} ParseWritten(f: HeaderFields, ids: EcmaIds, providerName: int -> seq<int>, rest: seq<byte>)
    requires IsInt(f.flags) && IsInt(f.cipherId) && IsInt(f.hashId) && IsInt(f.keySize) && IsInt(f.providerId)
    requires KnownIds(ids, f)
    requires IsCspName(NameToWrite(f, providerName)) && NameToWrite(f, providerName) != [SALT_SIZE]
    requires NameToWrite(f, providerName) == [] ==> |rest| >= 2
    ensures ParseHeader(HeaderBytes(f, providerName)[4..] + rest, ids) == Success((AsRead(f, providerName), rest))
  {
    SizePrefix(f, providerName);
    var name := NameToWrite(f, providerName);
    var s2 := NameBytes(name) + rest;
    var s1 := KeyBytes(f) + s2;
    assert Body(f, providerName) + rest == AlgorithmBytes(f) + s1;
    TakeAlgorithmsOfWritten(f, ids, s1);
    TakeKeyOfWritten(f, ids, s2);
    TakeCspNameFieldOfWritten(name, rest);
  }

  /** The single-unit name U+0010 starts with the bytes of the salt size,
      so it reads back as the empty name and its bytes are left unread. */
  lemma SaltSizeNameIsLost(f: HeaderFields, ids: EcmaIds, providerName: int -> seq<int>, rest: seq<byte>)
    requires IsInt(f.flags) && IsInt(f.cipherId) && IsInt(f.hashId) && IsInt(f.keySize) && IsInt(f.providerId)
    requires KnownIds(ids, f)
    requires NameToWrite(f, providerName) == [SALT_SIZE]
    ensures ParseHeader(HeaderBytes(f, providerName)[4..] + rest, ids)
         == Success((AsRead(f, providerName).(cspName := Some([])), NameBytes([SALT_SIZE]) + rest))
  {
    SizePrefix(f, providerName);
    var name := NameToWrite(f, providerName);
    var s2 := NameBytes(name) + rest;
    var s1 := KeyBytes(f) + s2;
    assert Body(f, providerName) + rest == AlgorithmBytes(f) + s1;
    TakeAlgorithmsOfWritten(f, ids, s1);
    TakeKeyOfWritten(f, ids, s2);
    TakeCspNameFieldOfSaltName(rest);
  }

  /** The peek sees the written single-unit name U+0010 as the salt size
      and consumes nothing. */
  lemma TakeCspNameFieldOfSaltName(rest: seq<byte>)
    ensures TakeCspNameField(NameBytes([SALT_SIZE]) + rest) == Success(([], NameBytes([SALT_SIZE]) + rest))
  {
    var s := NameBytes([SALT_SIZE]) + rest;
    assert ReplaceUnpaired([SALT_SIZE]) == [SALT_SIZE] + ReplaceUnpaired([]);
    assert UnitsLE([SALT_SIZE]) == ShortBytes(SALT_SIZE) + UnitsLE([]);
    assert NameBytes([SALT_SIZE]) == [16, 0, 0, 0];
    assert s[..4] == [16, 0, 0, 0];
    PeekIsSaltSize(s);
  }

  /** A header whose cipher id its enum does not know is written, but
      reading it back fails on that id. */
  lemma UnknownCipherIsRejected(f: HeaderFields, ids: EcmaIds, providerName: int -> seq<int>, rest: seq<byte>)
    requires IsInt(f.flags) && IsInt(f.cipherId) && !ids.cipher(f.cipherId)
    ensures ParseHeader(HeaderBytes(f, providerName)[4..] + rest, ids) == Failure(UnknownAlgorithm)
  {
    SizePrefix(f, providerName);
    var s := HeaderBytes(f, providerName)[4..] + rest;
    var tail := IntBytes(f.hashId) + (KeyBytes(f) + NameBytes(NameToWrite(f, providerName))) + rest;
    assert s == IntBytes(f.flags) + IntBytes(0) + (IntBytes(f.cipherId) + tail);
    assert s[8..] == IntBytes(f.cipherId) + tail;
    TakeIntOfWritten(f.cipherId, tail);
  }

  /** Patching the reserved prefix with the body's length yields the
      header bytes. */
  lemma PatchedPrefix(w: seq<byte>, body: seq<byte>)
    ensures var d := w + Zeros(4) + body;
            d[..|w|] + IntBytes(|body|) + d[|w| + 4..] == w + (IntBytes(|body|) + body)
  {
    var d := w + Zeros(4) + body;
    assert d[..|w|] == w;
    assert d[|w| + 4..] == body;
  }

  // ------------------------------------------------------------ the object

  /** The header object; the parsing constructor fills its fields, `write`
      serializes them. */
  class EncryptionHeader {
    var flags: int
    var sizeExtra: int
    var cipherId: int
    var hashId: int
    var keySize: int
    var blockSize: int
    var providerId: int
    var cspName: Option<seq<int>>
    var chainingMode: Option<ChainingMode>
    var keySalt: Option<seq<byte>>

    function Fields(): HeaderFields
      reads this
    {
      HeaderFields(flags, sizeExtra, cipherId, hashId, keySize, blockSize, providerId,
                   cspName, chainingMode, keySalt)
    }

    constructor FromFields(f: HeaderFields)
      ensures Fields() == f
    {
      flags := f.flags;
      sizeExtra := f.sizeExtra;
      cipherId := f.cipherId;
      hashId := f.hashId;
      keySize := f.keySize;
      blockSize := f.blockSize;
      providerId := f.providerId;
      cspName := f.cspName;
      chainingMode := f.chainingMode;
      keySalt := f.keySalt;
    }

    /** `StandardEncryptionHeader(LittleEndianInput)`, as a factory since
        the read can fail. */
    static method Read(input: ByteCursor, ids: EcmaIds) returns (r: Result<EncryptionHeader, Fault>)
      requires input.Valid()
      modifies input
      ensures input.Valid()
      ensures match ParseHeader(old(input.Rest()), ids)
              case Success(p) => r.Success? && fresh(r.value) && r.value.Fields() == p.0 && input.Rest() == p.1
              case Failure(e) => r == Failure(e)
    {
      var alg := ReadAlgorithms(input, ids);
      if alg.Failure? {
        return Failure(alg.error);
      }
      var ks := input.ReadInt();
      if ks.Failure? {
        return Failure(ks.error);
      }
      var keySize := ks.value;
      if keySize == 0 {
        keySize := DEFAULT_KEY_SIZE;
      }
      var provider := input.ReadInt();
      if provider.Failure? {
        return Failure(provider.error);
      }
      if !ids.provider(provider.value) {
        return Failure(UnknownAlgorithm);
      }
      var reserved := input.ReadBytes(8);
      if reserved.Failure? {
        return Failure(reserved.error);
      }
      var name := ReadCspNameField(input);
      if name.Failure? {
        return Failure(name.error);
      }
      var h := new EncryptionHeader.FromFields(
        HeaderFields(alg.value.flags, alg.value.sizeExtra, alg.value.cipherId, alg.value.hashId,
                     keySize, keySize, provider.value, Some(name.value), Some(Ecb), None));
      r := Success(h);
    }

    /** `write`: reserves the size prefix, writes the body, then patches
        the prefix with the number of bytes written after it. */
    method Write(out: ByteSink, providerName: int -> seq<int>)
      modifies out
      ensures out.written == old(out.written) + HeaderBytes(Fields(), providerName)
    {
      var f := Fields();
      ghost var body := Body(f, providerName);
      var start := out.CreateDelayedInt();
      WriteBody(out, f, providerName);
      assert |out.written| - start - 4 == |body|;
      out.PatchInt(start, |out.written| - start - 4);
      PatchedPrefix(old(out.written), body);
    }
  }

  /** Everything `write` puts after the size prefix. */
  method WriteBody(out: ByteSink, f: HeaderFields, providerName: int -> seq<int>)
    modifies out
    ensures out.written == old(out.written) + Body(f, providerName)
  {
    ghost var w0 := out.written;
    WriteInts(out, f.flags, 0, f.cipherId, f.hashId);
    ghost var w1 := out.written;
    assert w1 == w0 + AlgorithmBytes(f);
    WriteInts(out, f.keySize, f.providerId, 0, 0);
    ghost var w2 := out.written;
    assert w2 == w1 + KeyBytes(f);
    var name := NameToWrite(f, providerName);
    WriteCspName(out, name);
    BodyConcat(w0, AlgorithmBytes(f), KeyBytes(f), NameBytes(name));
  }

  lemma BodyConcat(w: seq<byte>, a: seq<byte>, k: seq<byte>, n: seq<byte>)
    ensures w + a + k + n == w + (a + (k + n))
  {
  }

  /** Four consecutive `writeInt`s. */
  method WriteInts(out: ByteSink, a: int, b: int, c: int, d: int)
    modifies out
    ensures out.written == old(out.written) + (IntBytes(a) + (IntBytes(b) + (IntBytes(c) + IntBytes(d))))
  {
    out.WriteInt(a);
    out.WriteInt(b);
    out.WriteInt(c);
    out.WriteInt(d);
    assert out.written == old(out.written) + IntBytes(a) + IntBytes(b) + IntBytes(c) + IntBytes(d);
  }

  method ReadAlgorithms(input: ByteCursor, ids: EcmaIds) returns (r: Result<Algorithms, Fault>)
    requires input.Valid()
    modifies input
    ensures input.Valid()
    ensures match TakeAlgorithms(old(input.Rest()), ids)
            case Success(p) => r == Success(p.0) && input.Rest() == p.1
            case Failure(e) => r == Failure(e)
  {
    var flags := input.ReadInt();
    if flags.Failure? {
      return Failure(flags.error);
    }
    var extra := input.ReadInt();
    if extra.Failure? {
      return Failure(extra.error);
    }
    var cipher := input.ReadInt();
    if cipher.Failure? {
      return Failure(cipher.error);
    }
    if !ids.cipher(cipher.value) {
      return Failure(UnknownAlgorithm);
    }
    var hash := input.ReadInt();
    if hash.Failure? {
      return Failure(hash.error);
    }
    if !ids.hash(hash.value) {
      return Failure(UnknownAlgorithm);
    }
    r := Success(Algorithms(flags.value, extra.value, cipher.value, hash.value));
  }

  /** The name part: peek at the next int, then either the empty name or
      the name loop. */
  method ReadCspNameField(input: ByteCursor) returns (r: Result<seq<int>, Fault>)
    requires input.Valid()
    modifies input
    ensures input.Valid()
    ensures match TakeCspNameField(old(input.Rest()))
            case Success(p) => r == Success(p.0) && input.Rest() == p.1
            case Failure(e) => r == Failure(e)
  {
    var check := input.PeekInt();
    if check.Failure? {
      return Failure(check.error);
    }
    if check.value == SALT_SIZE {
      return Success([]);
    }
    r := ReadCspName(input);
  }

  /** `readUntilTerminator`'s result prefixed with what was already read. */
  function Prefixed(read: seq<int>, r: Result<(seq<int>, seq<byte>), Fault>): Result<(seq<int>, seq<byte>), Fault> {
    match r
    case Success(p) => Success((read + p.0, p.1))
    case Failure(e) => Failure(e)
  }

  lemma PrefixedNothing(r: Result<(seq<int>, seq<byte>), Fault>)
    ensures Prefixed([], r) == r
  {
    if r.Success? {
      assert [] + r.value.0 == r.value.0;
    }
  }

  lemma PrefixedTwice(a: seq<int>, b: seq<int>, r: Result<(seq<int>, seq<byte>), Fault>)
    ensures Prefixed(a, Prefixed(b, r)) == Prefixed(a + b, r)
  {
    if r.Success? {
      assert a + (b + r.value.0) == (a + b) + r.value.0;
    }
  }

  /** The `while (true)` loop appending units to a `StringBuilder`. */
  method ReadCspName(input: ByteCursor) returns (r: Result<seq<int>, Fault>)
    requires input.Valid()
    modifies input
    ensures input.Valid()
    ensures match TakeCspName(old(input.Rest()))
            case Success(p) => r == Success(p.0) && input.Rest() == p.1
            case Failure(e) => r == Failure(e)
  {
    var builder: seq<int> := [];
    ghost var start := input.Rest();
    PrefixedNothing(TakeCspName(start));
    while true
      invariant input.Valid()
      invariant TakeCspName(start) == Prefixed(builder, TakeCspName(input.Rest()))
      decreases |input.Rest()|
    {
      ghost var before := input.Rest();
      var c := input.ReadShort();
      if c.Failure? {
        return Failure(c.error);
      }
      var unit := CharOf(c.value);
      if unit == 0 {
        assert builder + [] == builder;
        return Success(builder);
      }
      assert TakeCspName(before) == Prefixed([unit], TakeCspName(input.Rest()));
      PrefixedTwice(builder, [unit], TakeCspName(input.Rest()));
      builder := builder + [unit];
    }
  }

  /** `write(getToUnicodeLE(name))` followed by the 0 terminator. */
  method WriteCspName(out: ByteSink, name: seq<int>)
    modifies out
    ensures out.written == old(out.written) + NameBytes(name)
  {
    var units := ReplaceUnpaired(name);
    var i := 0;
    while i < |units|
      invariant 0 <= i <= |units|
      invariant out.written + UnitsLE(units[i..]) == old(out.written) + UnicodeLE(name)
    {
      assert UnitsLE(units[i..]) == ShortBytes(units[i]) + UnitsLE(units[i + 1..]);
      out.WriteShort(units[i]);
      i := i + 1;
    }
    assert units[i..] == [];
    assert out.written == old(out.written) + UnicodeLE(name);
    out.WriteShort(0);
    assert out.written == old(out.written) + UnicodeLE(name) + ShortBytes(0);
  }
}
