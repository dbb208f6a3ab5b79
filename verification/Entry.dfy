/** The MerkleTreeLeaf decoder: `decode_leaf`, its mutable `Reader`, and the encoding of
    RFC 6962 section 3.4 that the decoder is proved to invert. */
module Entry {
  import opened Wrappers

  type byte = x: int | 0 <= x < 256
  type bytes = seq<byte>

  datatype EntryKind =
    | Precert(issuerKeyHash: bytes, tbs: bytes)
    | FinalCert(der: bytes)

  datatype DecodedEntry = DecodedEntry(timestampMs: nat, kind: EntryKind, precertDer: Option<bytes>)

  datatype DecodeError =
    | ShortRead
    | ShortVarBytes
    | UnsupportedVersion(version: nat)
    | UnsupportedLeafType(leafType: nat)
    | UnknownEntryType(entryType: nat)

  // ---------------------------------------------------------------------------------------------
  // The wire format: big-endian integers and length-prefixed vectors (RFC 5246 section 4)
  // ---------------------------------------------------------------------------------------------

  function Pow256(width: nat): nat {
    if width == 0 then 1 else 256 * Pow256(width - 1)
  }

  function BigEndian(n: nat, width: nat): (s: bytes)
    ensures |s| == width
  {
    if width == 0 then [] else BigEndian(n / 256, width - 1) + [n % 256]
  }

  function FromBe(s: bytes): nat {
    if s == [] then 0 else 256 * FromBe(s[..|s| - 1]) + s[|s| - 1]
  }

  /** A vector whose length prefix takes `width` bytes. */
  function Vector(width: nat, body: bytes): bytes {
    BigEndian(|body|, width) + body
  }

  function EncodeKind(kind: EntryKind): bytes {
    match kind
    case FinalCert(der) => BigEndian(0, 2) + Vector(3, der)
    case Precert(hash, tbs) => BigEndian(1, 2) + hash + Vector(3, tbs)
  }

  function EncodeLeaf(timestampMs: nat, kind: EntryKind, extensions: bytes): bytes {
    [0, 0] + BigEndian(timestampMs, 8) + EncodeKind(kind) + Vector(2, extensions)
  }

  /** The sizes the wire format can carry: a u64 timestamp, a 32-byte key hash, bodies below 2^24. */
  predicate Encodable(e: DecodedEntry) {
    && e.timestampMs < Pow256(8)
    && match e.kind
       case FinalCert(der) => |der| < Pow256(3) && e.precertDer == None
       case Precert(hash, tbs) =>
         |hash| == 32 && |tbs| < Pow256(3) && e.precertDer.Some? && |e.precertDer.value| < Pow256(3)
  }

  /** (leaf, extra) carries entry `e`: leaf starts with the encoding of `e` and some extensions, and
      for a precert extra starts with the vector holding its DER; anything may follow. */
  predicate Carries(leaf: bytes, extra: bytes, e: DecodedEntry, extensions: bytes, leafRest: bytes, extraRest: bytes) {
    && Encodable(e)
    && |extensions| < Pow256(2)
    && leaf == EncodeLeaf(e.timestampMs, e.kind, extensions) + leafRest
    && (e.kind.Precert? ==> extra == Vector(3, e.precertDer.value) + extraRest)
  }

  // ---------------------------------------------------------------------------------------------
  // What the reader computes, on the bytes not yet read
  // ---------------------------------------------------------------------------------------------

  type Parse<T> = Result<(T, bytes), DecodeError>

  function ParseExact(s: bytes, n: nat): Parse<bytes> {
    if n > |s| then Err(ShortRead) else Ok((s[..n], s[n..]))
  }

  function ParseUint(s: bytes, width: nat): Parse<nat> {
    var (b, rest) :- ParseExact(s, width);
    Ok((FromBe(b), rest))
  }

  function ParseVar(s: bytes, width: nat): Parse<bytes> {
    var (len, rest) :- ParseUint(s, width);
    if len > |rest| then Err(ShortVarBytes) else Ok((rest[..len], rest[len..]))
  }

  function ParseKind(s: bytes, extra: bytes, entryType: nat): Parse<(EntryKind, Option<bytes>)> {
    if entryType == 0 then
      var (der, rest) :- ParseVar(s, 3);
      Ok(((FinalCert(der), None), rest))
    else if entryType == 1 then
      var (hash, s1) :- ParseExact(s, 32);
      var (tbs, rest) :- ParseVar(s1, 3);
      var (der, _) :- ParseVar(extra, 3);
      Ok(((Precert(hash, tbs), Some(der)), rest))
    else
      Err(UnknownEntryType(entryType))
  }

  function Decode(leaf: bytes, extra: bytes): Result<DecodedEntry, DecodeError> {
    var (version, s1) :- ParseUint(leaf, 1);
    if version != 0 then Err(UnsupportedVersion(version)) else
    var (leafType, s2) :- ParseUint(s1, 1);
    if leafType != 0 then Err(UnsupportedLeafType(leafType)) else
    var (timestampMs, s3) :- ParseUint(s2, 8);
    var (entryType, s4) :- ParseUint(s3, 2);
    var ((kind, precertDer), s5) :- ParseKind(s4, extra, entryType);
    var (_, _) :- ParseVar(s5, 2);
    Ok(DecodedEntry(timestampMs, kind, precertDer))
  }

  // ---------------------------------------------------------------------------------------------
  // The imperative reader
  // ---------------------------------------------------------------------------------------------

  const U64_MODULUS := 0x1_0000_0000_0000_0000

  /** `x << 8` on a u64: the bits pushed past the top are gone. */
  function ShiftLeft8(x: nat): nat {
    (x * 256) % U64_MODULUS
  }

  function BitOr(x: nat, y: nat): nat
    decreases x + y
  {
    if x == 0 && y == 0 then 0
    else 2 * BitOr(x / 2, y / 2) + (if x % 2 == 1 || y % 2 == 1 then 1 else 0)
  }

  function Pow2(k: nat): nat {
    if k == 0 then 1 else 2 * Pow2(k - 1)
  }

  lemma {:induction false} OrWithZero(x: nat)
    ensures BitOr(x, 0) == x
  {
    if x != 0 {
      OrWithZero(x / 2);
    }
  }

  /** Operands that share no bit are added by `|`. */
  lemma {:induction false} OrIsSum(x: nat, y: nat, k: nat)
    requires y < Pow2(k)
    ensures BitOr(x * Pow2(k), y) == x * Pow2(k) + y
  {
    if k == 0 {
      OrWithZero(x);
    } else if x * Pow2(k) != 0 || y != 0 {
      assert x * Pow2(k) == 2 * (x * Pow2(k - 1));
      OrIsSum(x, y / 2, k - 1);
    }
  }

  /** One turn of the length loop of `var_bytes` is one big-endian step modulo 2^64. As long as the value so far fits in
      56 bits, and so for up to eight length bytes, nothing is lost. */
  lemma ShiftOrIsBigEndian(len: nat, b: byte)
    ensures BitOr(ShiftLeft8(len), b) == (256 * len + b as int) % 0x1_0000_0000_0000_0000
    ensures BitOr(ShiftLeft8(len), b) == 256 * len + b as int <==> len < Pow256(7)
  {
    hide BitOr;
    var q, r := len / 0x100_0000_0000_0000, len % 0x100_0000_0000_0000;
    assert Pow256(7) == 0x100_0000_0000_0000 && Pow2(8) == 256;
    assert 256 * len == q * 0x1_0000_0000_0000_0000 + 256 * r;
    assert ShiftLeft8(len) == 256 * r;
    OrIsSum(r, b, 8);
  }

  lemma {:induction false} FromBeBound(s: bytes)
    ensures FromBe(s) < Pow256(|s|)
  {
    if s != [] {
      FromBeBound(s[..|s| - 1]);
    }
  }

  /** `result` and the bytes left over are what the parse function says they are. */
  ghost predicate Agrees<T>(spec: Parse<T>, result: Result<T, DecodeError>, rest: bytes) {
    match spec
    case Ok((value, after)) => result == Ok(value) && rest == after
    case Err(error) => result == Err(error)
  }

  lemma {:induction false} PowMonotone(i: nat, j: nat)
    requires i <= j
    ensures Pow256(i) <= Pow256(j)
  {
    if i < j {
      PowMonotone(i, j - 1);
    }
  }

  class Reader {
    const buf: bytes
    var pos: nat

    ghost predicate Valid()
      reads this
    {
      pos <= |buf|
    }

    ghost function Rest(): bytes
      requires Valid()
      reads this
    {
      buf[pos..]
    }

    constructor (buf: bytes)
      ensures Valid() && this.buf == buf && Rest() == buf
    {
      this.buf := buf;
      pos := 0;
    }

    method ReadExact(dst: array<byte>) returns (r: Result<(), DecodeError>)
      requires Valid()
      modifies this, dst
      ensures Valid()
      ensures match ParseExact(old(Rest()), dst.Length)
              case Ok((value, after)) => r.Ok? && dst[..] == value && Rest() == after
              case Err(error) => r == Err(error) && pos == old(pos) && dst[..] == old(dst[..])
    {
      if pos + dst.Length > |buf| {
        return Err(ShortRead);
      }
      forall i | 0 <= i < dst.Length {
        dst[i] := buf[pos + i];
      }
      pos := pos + dst.Length;
      return Ok(());
    }

    /** `u8`, `u16` and `u64` are the widths 1, 2 and 8. */
    method Uint(width: nat) returns (r: Result<nat, DecodeError>)
      requires Valid()
      modifies this
      ensures Valid() && Agrees(ParseUint(old(Rest()), width), r, Rest())
      ensures r.Err? ==> pos == old(pos)
    {
      var b := new byte[width];
      var _ :- ReadExact(b);
      return Ok(FromBe(b[..]));
    }

    /** The length is accumulated by shift and or in a u64, which holds up to eight length bytes. */
    method VarBytes(lenBytes: nat) returns (r: Result<bytes, DecodeError>)
      requires Valid() && lenBytes <= 8
      modifies this
      ensures Valid() && Agrees(ParseVar(old(Rest()), lenBytes), r, Rest())
    {
      var len: nat := 0;
      ghost var before := Rest();
      for i := 0 to lenBytes
        invariant Valid() && i <= |before| && Rest() == before[i..]
        invariant len == FromBe(before[..i])
      {
        var b :- Uint(1);
        assert before[i..][..1] == [before[i]] && FromBe([before[i]]) == before[i];
        FromBeBound(before[..i]);
        PowMonotone(i, 7);
        ShiftOrIsBigEndian(len, b);
        len := BitOr(ShiftLeft8(len), b);
        assert before[..i + 1][..i] == before[..i];
      }
      assert before == old(Rest()) && Rest() == before[lenBytes..];
      if pos + len > |buf| {
        return Err(ShortVarBytes);
      }
      var v := buf[pos..pos + len];
      pos := pos + len;
      assert v == before[lenBytes..][..len] && Rest() == before[lenBytes..][len..];
      return Ok(v);
    }
  }

  method DecodeKind(reader: Reader, entryType: nat, extraData: bytes)
    returns (r: Result<(EntryKind, Option<bytes>), DecodeError>)
    requires reader.Valid()
    modifies reader
    ensures reader.Valid() && Agrees(ParseKind(old(reader.Rest()), extraData, entryType), r, reader.Rest())
  {
    hide ParseExact, ParseVar, ParseUint, FromBe;
    if entryType == 0 {
      var der :- reader.VarBytes(3);
      return Ok((FinalCert(der), None));
    } else if entryType == 1 {
      var hash := new byte[32];
      var _ :- reader.ReadExact(hash);
      var issuerKeyHash := hash[..];
      var tbs :- reader.VarBytes(3);
      var extraReader := new Reader(extraData);
      var der :- extraReader.VarBytes(3);
      return Ok((Precert(issuerKeyHash, tbs), Some(der)));
    } else {
      return Err(UnknownEntryType(entryType));
    }
  }

  method DecodeLeaf(leafInput: bytes, extraData: bytes) returns (r: Result<DecodedEntry, DecodeError>)
    ensures r == Decode(leafInput, extraData)
  {
    hide ParseUint, ParseVar, ParseKind, Reader.Valid, Reader.Rest;
    var reader := new Reader(leafInput);
    var version :- reader.Uint(1);
    if version != 0 {
      return Err(UnsupportedVersion(version));
    }
    var leafType :- reader.Uint(1);
    if leafType != 0 {
      return Err(UnsupportedLeafType(leafType));
    }
    var timestampMs :- reader.Uint(8);
    var entryType :- reader.Uint(2);
    var k :- DecodeKind(reader, entryType, extraData);
    var _ :- reader.VarBytes(2);
    return Ok(DecodedEntry(timestampMs, k.0, k.1));
  }

  // ---------------------------------------------------------------------------------------------
  // Decoding inverts encoding, in both directions
  // ---------------------------------------------------------------------------------------------

  lemma {:induction false} FromBeOfBigEndian(n: nat, width: nat)
    requires n < Pow256(width)
    ensures FromBe(BigEndian(n, width)) == n
  {
    if width != 0 {
      FromBeOfBigEndian(n / 256, width - 1);
      assert BigEndian(n, width)[..width - 1] == BigEndian(n / 256, width - 1);
    }
  }

  lemma {:induction false} BigEndianOfFromBe(s: bytes)
    ensures BigEndian(FromBe(s), |s|) == s
  {
    if s != [] {
      BigEndianOfFromBe(s[..|s| - 1]);
      assert FromBe(s) / 256 == FromBe(s[..|s| - 1]) && FromBe(s) % 256 == s[|s| - 1];
    }
  }

  lemma UintComplete(n: nat, width: nat, rest: bytes)
    requires n < Pow256(width)
    ensures ParseUint(BigEndian(n, width) + rest, width) == Ok((n, rest))
  {
    FromBeOfBigEndian(n, width);
    var s := BigEndian(n, width) + rest;
    assert s[..width] == BigEndian(n, width) && s[width..] == rest;
  }

  lemma UintSound(s: bytes, width: nat)
    requires ParseUint(s, width).Ok?
    ensures var (n, rest) := ParseUint(s, width).value; n < Pow256(width) && s == BigEndian(n, width) + rest
  {
    BigEndianOfFromBe(s[..width]);
    FromBeBound(s[..width]);
  }

  lemma VarComplete(width: nat, body: bytes, rest: bytes)
    requires |body| < Pow256(width)
    ensures ParseVar(Vector(width, body) + rest, width) == Ok((body, rest))
  {
    assert Vector(width, body) + rest == BigEndian(|body|, width) + (body + rest);
    UintComplete(|body|, width, body + rest);
    assert (body + rest)[..|body|] == body && (body + rest)[|body|..] == rest;
  }

  lemma VarSound(s: bytes, width: nat)
    requires ParseVar(s, width).Ok?
    ensures var (body, rest) := ParseVar(s, width).value;
            |body| < Pow256(width) && s == Vector(width, body) + rest
  {
    UintSound(s, width);
    var (body, rest) := ParseVar(s, width).value;
    assert BigEndian(|body|, width) + (body + rest) == Vector(width, body) + rest;
  }

  lemma KindComplete(e: DecodedEntry, rest: bytes, extra: bytes, extraRest: bytes)
    requires Encodable(e) && (e.kind.Precert? ==> extra == Vector(3, e.precertDer.value) + extraRest)
    ensures var s := EncodeKind(e.kind) + rest;
            && ParseUint(s, 2).Ok?
            && var (entryType, s') := ParseUint(s, 2).value;
               ParseKind(s', extra, entryType) == Ok(((e.kind, e.precertDer), rest))
  {
    hide BigEndian, FromBe, Vector, ParseUint, ParseVar;
    assert Pow256(2) == 0x10000;
    match e.kind
    case FinalCert(der) =>
      assert EncodeKind(e.kind) + rest == BigEndian(0, 2) + (Vector(3, der) + rest);
      UintComplete(0, 2, Vector(3, der) + rest);
      VarComplete(3, der, rest);
    case Precert(hash, tbs) =>
      var body := Vector(3, tbs) + rest;
      assert EncodeKind(e.kind) + rest == BigEndian(1, 2) + (hash + body);
      UintComplete(1, 2, hash + body);
      assert (hash + body)[..32] == hash && (hash + body)[32..] == body;
      VarComplete(3, tbs, rest);
      VarComplete(3, e.precertDer.value, extraRest);
  }

  lemma ZeroByte()
    ensures BigEndian(0, 1) == [0]
  {
    assert BigEndian(0, 0) == [];
  }

  /** Round trip: whatever carries `e` decodes to `e`, whatever the extensions and trailing bytes. */
  lemma DecodeComplete(leaf: bytes, extra: bytes, e: DecodedEntry, ext: bytes, leafRest: bytes, extraRest: bytes)
    requires Carries(leaf, extra, e, ext, leafRest, extraRest)
    ensures Decode(leaf, extra) == Ok(e)
  {
    ZeroByte();
    hide BigEndian, FromBe, ParseExact, ParseVar, ParseUint, EncodeKind, ParseKind;
    var s5 := Vector(2, ext) + leafRest;
    var s3 := EncodeKind(e.kind) + s5;
    var s2 := BigEndian(e.timestampMs, 8) + s3;
    assert leaf == BigEndian(0, 1) + (BigEndian(0, 1) + s2);
    UintComplete(0, 1, BigEndian(0, 1) + s2);
    UintComplete(0, 1, s2);
    UintComplete(e.timestampMs, 8, s3);
    KindComplete(e, s5, extra, extraRest);
    VarComplete(2, ext, leafRest);
  }

  lemma KindSound(s: bytes, extra: bytes) returns (extraRest: bytes)
    requires ParseUint(s, 2).Ok?
    requires var (entryType, s') := ParseUint(s, 2).value; ParseKind(s', extra, entryType).Ok?
    ensures var (entryType, s') := ParseUint(s, 2).value;
            var ((kind, der), rest) := ParseKind(s', extra, entryType).value;
            && Encodable(DecodedEntry(0, kind, der))
            && s == EncodeKind(kind) + rest
            && (kind.Precert? ==> extra == Vector(3, der.value) + extraRest)
  {
    hide BigEndian, FromBe, Vector, ParseUint, ParseVar;
    extraRest := [];
    UintSound(s, 2);
    var (entryType, s') := ParseUint(s, 2).value;
    var ((kind, der), rest) := ParseKind(s', extra, entryType).value;
    match kind
    case FinalCert(body) =>
      VarSound(s', 3);
      assert BigEndian(0, 2) + (Vector(3, body) + rest) == EncodeKind(kind) + rest;
    case Precert(hash, tbs) =>
      VarSound(s'[32..], 3);
      VarSound(extra, 3);
      extraRest := ParseVar(extra, 3).value.1;
      assert s' == hash + s'[32..];
      assert BigEndian(1, 2) + (hash + (Vector(3, tbs) + rest)) == EncodeKind(kind) + rest;
  }

  lemma DecodeSound(leaf: bytes, extra: bytes) returns (ext: bytes, leafRest: bytes, extraRest: bytes)
    requires Decode(leaf, extra).Ok?
    ensures Carries(leaf, extra, Decode(leaf, extra).value, ext, leafRest, extraRest)
  {
    ZeroByte();
    hide BigEndian, FromBe, ParseExact, ParseVar, ParseUint, EncodeKind, ParseKind;
    var e := Decode(leaf, extra).value;
    UintSound(leaf, 1);
    var s1 := ParseUint(leaf, 1).value.1;
    UintSound(s1, 1);
    var s2 := ParseUint(s1, 1).value.1;
    UintSound(s2, 8);
    var s3 := ParseUint(s2, 8).value.1;
    extraRest := KindSound(s3, extra);
    var (entryType, s4) := ParseUint(s3, 2).value;
    var s5 := ParseKind(s4, extra, entryType).value.1;
    VarSound(s5, 2);
    ext, leafRest := ParseVar(s5, 2).value.0, ParseVar(s5, 2).value.1;
    assert [0] + ([0] + (BigEndian(e.timestampMs, 8) + (EncodeKind(e.kind) + (Vector(2, ext) + leafRest))))
        == EncodeLeaf(e.timestampMs, e.kind, ext) + leafRest;
  }

  /** Exactness: the decoder succeeds with `e` on exactly the inputs that carry `e`. */
  lemma DecodeExact(leaf: bytes, extra: bytes, e: DecodedEntry)
    ensures Decode(leaf, extra) == Ok(e) <==>
            exists ext, leafRest, extraRest :: Carries(leaf, extra, e, ext, leafRest, extraRest)
  {
    hide Decode, Carries;
    if Decode(leaf, extra) == Ok(e) {
      var ext, leafRest, extraRest := DecodeSound(leaf, extra);
    }
    forall ext, leafRest, extraRest | Carries(leaf, extra, e, ext, leafRest, extraRest)
      ensures Decode(leaf, extra) == Ok(e)
    {
      DecodeComplete(leaf, extra, e, ext, leafRest, extraRest);
    }
  }

  lemma OneByte(s: bytes)
    requires s != []
    ensures ParseUint(s, 1) == Ok((s[0], s[1..]))
  {
    assert s[..1] == [s[0]] && [s[0]][..0] == [];
    assert FromBe([s[0]]) == s[0];
  }

  lemma TwoBytes(s: bytes)
    requires |s| >= 2
    ensures ParseUint(s, 2) == Ok((256 * (s[0] as int) + s[1] as int, s[2..]))
  {
    OneByte(s);
    assert s[..2][..1] == s[..1];
  }

  /** How malformed input is refused: by the first field that is missing or has a value the decoder does not know. */
  lemma HeaderRefused(leaf: bytes, extra: bytes)
    ensures var n, r := |leaf|, Decode(leaf, extra);
      if n == 0 then r == Err(ShortRead)
      else if leaf[0] != 0 then r == Err(UnsupportedVersion(leaf[0]))
      else if n == 1 then r == Err(ShortRead)
      else if leaf[1] != 0 then r == Err(UnsupportedLeafType(leaf[1]))
      else if n < 12 then r == Err(ShortRead)
      else if leaf[10] != 0 || leaf[11] > 1 then r == Err(UnknownEntryType(256 * (leaf[10] as int) + leaf[11] as int))
      else r.Err? ==> r.error == ShortRead || r.error == ShortVarBytes
  {
    if |leaf| >= 1 {
      OneByte(leaf);
    }
    if |leaf| >= 2 {
      OneByte(leaf[1..]);
      assert leaf[1..][1..] == leaf[2..];
    }
    if |leaf| >= 12 {
      TwoBytes(leaf[10..]);
      assert leaf[2..][8..] == leaf[10..];
    }
    hide FromBe;
  }

  /** Bytes after a decodable entry change nothing. */
  lemma TrailingBytesIgnored(leaf: bytes, extra: bytes, leafTail: bytes, extraTail: bytes)
    requires Decode(leaf, extra).Ok?
    ensures Decode(leaf + leafTail, extra + extraTail) == Decode(leaf, extra)
  {
    hide Decode, BigEndian, EncodeKind, Vector;
    var e := Decode(leaf, extra).value;
    var ext, leafRest, extraRest := DecodeSound(leaf, extra);
    assert leaf + leafTail == EncodeLeaf(e.timestampMs, e.kind, ext) + (leafRest + leafTail);
    if e.kind.Precert? {
      assert extra + extraTail == Vector(3, e.precertDer.value) + (extraRest + extraTail);
    }
    DecodeComplete(leaf + leafTail, extra + extraTail, e, ext, leafRest + leafTail, extraRest + extraTail);
  }

  /** The encoding is prefix-free: one leaf is the encoding of at most one entry and one extension
      block, so what follows is determined too. */
  lemma EncodingUnambiguous(leaf: bytes, extra: bytes, e: DecodedEntry, ext: bytes, rest: bytes, extraRest: bytes,
                            e': DecodedEntry, ext': bytes, rest': bytes, extraRest': bytes)
    requires Carries(leaf, extra, e, ext, rest, extraRest)
    requires Carries(leaf, extra, e', ext', rest', extraRest')
    ensures e == e' && ext == ext' && rest == rest'
  {
    hide Decode, BigEndian, EncodeKind, ParseVar;
    DecodeComplete(leaf, extra, e, ext, rest, extraRest);
    DecodeComplete(leaf, extra, e', ext', rest', extraRest');
    var head := [0, 0] + BigEndian(e.timestampMs, 8) + EncodeKind(e.kind);
    assert leaf[|head|..] == Vector(2, ext) + rest;
    assert leaf[|head|..] == Vector(2, ext') + rest';
    VarComplete(2, ext, rest);
    VarComplete(2, ext', rest');
  }
}
