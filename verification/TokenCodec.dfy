/**
 * The two encodings of a user management token: the serialized form kept in snapshots and the
 * field list kept on chain.  Writers and readers are proved against functions on byte strings;
 * the round trips are proved about those functions.
 */
module TokenCodec {
  import opened Common

  /** Parameters of a password key derivation. */
  datatype Kdf = Kdf(algorithm: string, params: KdfParams)

  datatype KdfParams = KdfParams(iterations: int, memoryKiB: Option<int>, parallelism: Option<int>,
                                 hashLength: Option<int>)

  /** The fields every token has, in the order of both encodings. */
  datatype Core = Core(passwordSalt: Bytes, passwordPresentationPrimary: Bytes, passwordRecoveryPrimary: Bytes,
                       presentationRecoveryPrimary: Bytes, passwordPrimaryPrivileged: Bytes,
                       presentationRecoveryPrivileged: Bytes, presentationHash: Bytes, recoveryHash: Bytes,
                       presentationKeyEncrypted: Bytes, passwordKeyEncrypted: Bytes, recoveryKeyEncrypted: Bytes)

  datatype Token = Token(core: Core, profilesEncrypted: Option<Bytes>, umpVersion: Option<Byte>,
                         passwordKdf: Option<Kdf>, currentOutpoint: Option<string>)

  /** Conversions of strings and KDF parameters to bytes (UTF-8 and JSON). */
  datatype Text = Text(utf8: string -> Bytes, fromUtf8: Bytes -> string,
                       json: KdfParams -> Bytes, parseJson: Bytes -> Option<KdfParams>)

  ghost predicate Inverts(x: Text) {
    && (forall s :: x.fromUtf8(x.utf8(s)) == s)
    && (forall p :: x.parseJson(x.json(p)) == Some(p))
  }

  // ----- Variable-length integers

  const TRUNCATED := "read beyond the end of the buffer"

  function LittleEndian(n: nat, k: nat): (r: Bytes)
    ensures |r| == k
  {
    if k == 0 then [] else [n % 256] + LittleEndian(n / 256, k - 1)
  }

  function Pow256(k: nat): nat { if k == 0 then 1 else 256 * Pow256(k - 1) }

  lemma {:induction false} LittleEndianInverts(n: nat, k: nat)
    requires n < Pow256(k)
    ensures FromLittleEndian(LittleEndian(n, k)) == n
  {
    if k > 0 {
      LittleEndianInverts(n / 256, k - 1);
    }
  }

  function VarInt(n: nat): Bytes {
    if n < 0xfd then [n]
    else if n < 0x1_0000 then [0xfd] + LittleEndian(n, 2)
    else if n < 0x1_0000_0000 then [0xfe] + LittleEndian(n, 4)
    else [0xff] + LittleEndian(n, 8)
  }

  /** The encoding has 1, 3, 5 or 9 bytes; the first of the longer ones tells which, the others are the number. */
  lemma VarIntLayout(n: nat)
    requires n < 0x1_0000_0000_0000_0000
    ensures var b := VarInt(n);
            if n <= 252 then b == [n]
            else
              && b != [] && FromLittleEndian(b[1..]) == n
              && (if n <= 65_535 then b[0] == 253 && |b| == 3
                  else if n <= 4_294_967_295 then b[0] == 254 && |b| == 5
                  else b[0] == 255 && |b| == 9)
  {
    PowersOf256();
    if n > 252 {
      var k := if n <= 65_535 then 2 else if n <= 4_294_967_295 then 4 else 8;
      LittleEndianInverts(n, k);
      assert VarInt(n)[1..] == LittleEndian(n, k);
    }
  }

  lemma PowersOf256()
    ensures Pow256(2) == 0x1_0000 && Pow256(4) == 0x1_0000_0000 && Pow256(8) == 0x1_0000_0000_0000_0000
  {
    assert Pow256(4) == 256 * (256 * Pow256(2));
    assert Pow256(8) == 256 * (256 * (256 * (256 * Pow256(4))));
  }

  function TakeByte(b: Bytes): Result<(Byte, Bytes)> {
    if b == [] then Err(TRUNCATED) else Ok((b[0], b[1..]))
  }

  function Take(b: Bytes, n: nat): Result<(Bytes, Bytes)> {
    if n <= |b| then Ok((b[..n], b[n..])) else Err(TRUNCATED)
  }

  function TakeVarInt(b: Bytes): Result<(nat, Bytes)> {
    var first :- TakeByte(b);
    if first.0 < 0xfd then Ok((first.0, first.1))
    else
      var digits :- Take(first.1, if first.0 == 0xfd then 2 else if first.0 == 0xfe then 4 else 8);
      Ok((FromLittleEndian(digits.0), digits.1))
  }

  lemma TakeOfConcat(a: Bytes, rest: Bytes)
    ensures Take(a + rest, |a|) == Ok((a, rest))
  {
    assert (a + rest)[..|a|] == a && (a + rest)[|a|..] == rest;
  }

  lemma TakeByteOfConcat(b: Byte, rest: Bytes)
    ensures TakeByte([b] + rest) == Ok((b, rest))
  {
    assert ([b] + rest)[1..] == rest;
  }

  lemma Digits(tag: Byte, n: nat, k: nat, rest: Bytes)
    requires 0xfd <= tag && n < Pow256(k)
    requires k == if tag == 0xfd then 2 else if tag == 0xfe then 4 else 8
    ensures TakeVarInt([tag] + LittleEndian(n, k) + rest) == Ok((n, rest))
  {
    var digits := LittleEndian(n, k);
    assert [tag] + digits + rest == [tag] + (digits + rest);
    TakeByteOfConcat(tag, digits + rest);
    TakeOfConcat(digits, rest);
    LittleEndianInverts(n, k);
  }

  /** A length is recovered from its encoding whatever follows it. */
  lemma VarIntInverts(n: nat, rest: Bytes)
    requires n < 0x1_0000_0000_0000_0000
    ensures TakeVarInt(VarInt(n) + rest) == Ok((n, rest))
  {
    assert Pow256(2) == 0x1_0000;
    assert Pow256(4) == 0x1_0000_0000;
    assert Pow256(6) == 0x1_0000_0000_0000;
    assert Pow256(8) == 0x1_0000_0000_0000_0000;
    if n < 0xfd {
      TakeByteOfConcat(n, rest);
    } else if n < 0x1_0000 {
      Digits(0xfd, n, 2, rest);
    } else if n < 0x1_0000_0000 {
      Digits(0xfe, n, 4, rest);
    } else {
      Digits(0xff, n, 8, rest);
    }
  }

  /** An array with its length in front. */
  function Prefixed(a: Bytes): Bytes { VarInt(|a|) + a }

  function TakeArray(b: Bytes): Result<(Bytes, Bytes)> {
    var length :- TakeVarInt(b);
    Take(length.1, length.0)
  }

  predicate Storable(a: Bytes) { |a| < 0x1_0000_0000_0000_0000 }

  lemma Associative(a: Bytes, b: Bytes, c: Bytes)
    ensures (a + b) + c == a + (b + c)
  {
  }

  lemma PrefixedInverts(a: Bytes, rest: Bytes)
    requires Storable(a)
    ensures TakeArray(Prefixed(a) + rest) == Ok((a, rest))
  {
    Associative(VarInt(|a|), a, rest);
    VarIntInverts(|a|, a + rest);
    TakeOfConcat(a, rest);
  }

  class Writer {
    var buf: Bytes

    constructor ()
      ensures buf == []
    {
      buf := [];
    }

    method WriteUInt8(b: Byte)
      modifies this
      ensures buf == old(buf) + [b]
    {
      buf := buf + [b];
    }

    method Write(a: Bytes)
      modifies this
      ensures buf == old(buf) + a
    {
      buf := buf + a;
    }

    method WriteVarIntNum(n: nat)
      modifies this
      ensures buf == old(buf) + VarInt(n)
    {
      if n < 0xfd {
        WriteUInt8(n);
      } else if n < 0x1_0000 {
        WriteUInt8(0xfd);
        Write(LittleEndian(n, 2));
        Associative(old(buf), [0xfd], LittleEndian(n, 2));
      } else if n < 0x1_0000_0000 {
        WriteUInt8(0xfe);
        Write(LittleEndian(n, 4));
        Associative(old(buf), [0xfe], LittleEndian(n, 4));
      } else {
        WriteUInt8(0xff);
        Write(LittleEndian(n, 8));
        Associative(old(buf), [0xff], LittleEndian(n, 8));
      }
    }

    method WriteArray(a: Bytes)
      modifies this
      ensures buf == old(buf) + Prefixed(a)
    {
      WriteVarIntNum(|a|);
      Write(a);
      Associative(old(buf), VarInt(|a|), a);
    }
  }

  /** What a successful read leaves behind: the value, and the reader just after it. */
  ghost predicate Reads<T(!new)>(outcome: Result<(T, Bytes)>, r: Result<T>, rest: Bytes) {
    match outcome
    case Ok(taken) => r == Ok(taken.0) && rest == taken.1
    case Err(e) => r == Err(e)
  }

  class Reader {
    const bin: Bytes
    var pos: nat

    ghost predicate Valid()
      reads this
    {
      pos <= |bin|
    }

    ghost function Rest(): Bytes
      reads this
      requires Valid()
    {
      bin[pos..]
    }

    constructor (bin: Bytes)
      ensures Valid() && Rest() == bin
    {
      this.bin := bin;
      pos := 0;
    }

    method ReadUInt8() returns (r: Result<Byte>)
      requires Valid()
      modifies this
      ensures Valid() && Reads(TakeByte(old(Rest())), r, Rest())
    {
      if pos == |bin| {
        return Err(TRUNCATED);
      }
      r := Ok(bin[pos]);
      pos := pos + 1;
    }

    method Read(n: nat) returns (r: Result<Bytes>)
      requires Valid()
      modifies this
      ensures Valid() && Reads(Take(old(Rest()), n), r, Rest())
    {
      if pos + n > |bin| {
        return Err(TRUNCATED);
      }
      r := Ok(bin[pos..pos + n]);
      pos := pos + n;
      assert old(Rest())[..n] == bin[old(pos)..pos] && old(Rest())[n..] == Rest();
    }

    method ReadVarIntNum() returns (r: Result<nat>)
      requires Valid()
      modifies this
      ensures Valid() && Reads(TakeVarInt(old(Rest())), r, Rest())
    {
      var first :- ReadUInt8();
      if first < 0xfd {
        return Ok(first);
      }
      var digits :- Read(if first == 0xfd then 2 else if first == 0xfe then 4 else 8);
      return Ok(FromLittleEndian(digits));
    }

    method ReadArray() returns (r: Result<Bytes>)
      requires Valid()
      modifies this
      ensures Valid() && Reads(TakeArray(old(Rest())), r, Rest())
    {
      var length :- ReadVarIntNum();
      r := Read(length);
    }
  }

  // ----- The serialized form

  predicate HasKdfMetadata(t: Token) { t.umpVersion == Some(3) && t.passwordKdf.Some? }

  predicate HasProfiles(t: Token) { t.profilesEncrypted.Some? && |t.profilesEncrypted.value| > 0 }

  function CoreOnto(buf: Bytes, c: Core): Bytes {
    buf + Prefixed(c.passwordSalt) + Prefixed(c.passwordPresentationPrimary) + Prefixed(c.passwordRecoveryPrimary)
    + Prefixed(c.presentationRecoveryPrimary) + Prefixed(c.passwordPrimaryPrivileged)
    + Prefixed(c.presentationRecoveryPrivileged) + Prefixed(c.presentationHash) + Prefixed(c.recoveryHash)
    + Prefixed(c.presentationKeyEncrypted) + Prefixed(c.passwordKeyEncrypted) + Prefixed(c.recoveryKeyEncrypted)
  }

  function ProfilesOnto(buf: Bytes, t: Token): Bytes {
    if HasProfiles(t) then buf + [1] + Prefixed(t.profilesEncrypted.value) else buf + [0]
  }

  function KdfOnto(x: Text, buf: Bytes, t: Token): Bytes {
    if HasKdfMetadata(t) then
      var kdf := t.passwordKdf.value;
      buf + [1] + [3] + Prefixed(x.utf8(kdf.algorithm)) + Prefixed(x.json(kdf.params))
    else buf
  }

  function SerializedVersion(t: Token): Byte { if HasKdfMetadata(t) then 3 else 2 }

  function Serialize(x: Text, t: Token): Result<Bytes> {
    if t.currentOutpoint.None? || t.currentOutpoint.value == "" then Err("Token must have outpoint for serialization")
    else Ok(KdfOnto(x, ProfilesOnto(CoreOnto([SerializedVersion(t)], t.core), t), t) +
            Prefixed(x.utf8(t.currentOutpoint.value)))
  }

  method SerializeToken(x: Text, t: Token) returns (r: Result<Bytes>)
    ensures r == Serialize(x, t)
  {
    if t.currentOutpoint.None? || t.currentOutpoint.value == "" {
      return Err("Token must have outpoint for serialization");
    }
    var writer := new Writer();
    var hasKdfMetadata := t.umpVersion == Some(3) && t.passwordKdf.Some?;
    writer.WriteUInt8(if hasKdfMetadata then 3 else 2);
    assert writer.buf == [SerializedVersion(t)];
    WriteCore(writer, t.core);
    if t.profilesEncrypted.Some? && |t.profilesEncrypted.value| > 0 {
      writer.WriteUInt8(1);
      writer.WriteArray(t.profilesEncrypted.value);
    } else {
      writer.WriteUInt8(0);
    }
    if hasKdfMetadata {
      writer.WriteUInt8(1);
      writer.WriteUInt8(3);
      writer.WriteArray(x.utf8(t.passwordKdf.value.algorithm));
      writer.WriteArray(x.json(t.passwordKdf.value.params));
    }
    writer.WriteArray(x.utf8(t.currentOutpoint.value));
    return Ok(writer.buf);
  }

  method WriteCore(writer: Writer, c: Core)
    modifies writer
    ensures writer.buf == CoreOnto(old(writer.buf), c)
  {
    writer.WriteArray(c.passwordSalt);
    writer.WriteArray(c.passwordPresentationPrimary);
    writer.WriteArray(c.passwordRecoveryPrimary);
    writer.WriteArray(c.presentationRecoveryPrimary);
    writer.WriteArray(c.passwordPrimaryPrivileged);
    writer.WriteArray(c.presentationRecoveryPrivileged);
    writer.WriteArray(c.presentationHash);
    writer.WriteArray(c.recoveryHash);
    writer.WriteArray(c.presentationKeyEncrypted);
    writer.WriteArray(c.passwordKeyEncrypted);
    writer.WriteArray(c.recoveryKeyEncrypted);
  }

  function TakeCore(b: Bytes): Result<(Core, Bytes)> {
    var a0 :- TakeArray(b);
    var a1 :- TakeArray(a0.1);
    var a2 :- TakeArray(a1.1);
    var a3 :- TakeArray(a2.1);
    var a4 :- TakeArray(a3.1);
    var a5 :- TakeArray(a4.1);
    var a6 :- TakeArray(a5.1);
    var a7 :- TakeArray(a6.1);
    var a8 :- TakeArray(a7.1);
    var a9 :- TakeArray(a8.1);
    var a10 :- TakeArray(a9.1);
    Ok((Core(a0.0, a1.0, a2.0, a3.0, a4.0, a5.0, a6.0, a7.0, a8.0, a9.0, a10.0), a10.1))
  }

  function TakeProfiles(version: Byte, b: Bytes): Result<(Option<Bytes>, Bytes)> {
    if version < 2 then Ok((None, b))
    else
      var flag :- TakeByte(b);
      if flag.0 != 1 then Ok((None, flag.1))
      else
        var profiles :- TakeArray(flag.1);
        Ok((Some(profiles.0), profiles.1))
  }

  datatype Metadata = Metadata(umpVersion: Option<Byte>, passwordKdf: Option<Kdf>)

  /** Parameters that do not parse leave the metadata without a KDF. */
  function ParsedKdf(x: Text, algorithm: Bytes, params: Bytes): Option<Kdf> {
    match x.parseJson(params)
    case None => None
    case Some(p) => Some(Kdf(x.fromUtf8(algorithm), p))
  }

  function TakeMetadata(x: Text, version: Byte, b: Bytes): Result<(Metadata, Bytes)> {
    if version != 3 then Ok((Metadata(None, None), b))
    else
      var flag :- TakeByte(b);
      if flag.0 != 1 then Ok((Metadata(None, None), flag.1))
      else
        var umpVersion :- TakeByte(flag.1);
        var algorithm :- TakeArray(umpVersion.1);
        var params :- TakeArray(algorithm.1);
        Ok((Metadata(Some(umpVersion.0), ParsedKdf(x, algorithm.0, params.0)), params.1))
  }

  function Deserialize(x: Text, bin: Bytes): Result<Token> {
    var version :- TakeByte(bin);
    if version.0 != 1 && version.0 != 2 && version.0 != 3 then Err("Unsupported UMP token serialization version")
    else
      var core :- TakeCore(version.1);
      TokenAfterCore(x, version.0, core.0, core.1)
  }

  function TokenAfterCore(x: Text, version: Byte, core: Core, b: Bytes): Result<Token> {
    var profiles :- TakeProfiles(version, b);
    var metadata :- TakeMetadata(x, version, profiles.1);
    var outpoint :- TakeArray(metadata.1);
    Ok(Token(core, profiles.0, metadata.0.umpVersion, metadata.0.passwordKdf, Some(x.fromUtf8(outpoint.0))))
  }

  method DeserializeToken(x: Text, bin: Bytes) returns (r: Result<Token>)
    ensures r == Deserialize(x, bin)
  {
    var reader := new Reader(bin);
    var version :- reader.ReadUInt8();
    if version != 1 && version != 2 && version != 3 {
      return Err("Unsupported UMP token serialization version");
    }
    var core :- ReadCore(reader);
    var profilesEncrypted :- ReadProfiles(reader, version);
    var metadata :- ReadMetadata(x, reader, version);
    var outpoint :- reader.ReadArray();
    return Ok(Token(core, profilesEncrypted, metadata.umpVersion, metadata.passwordKdf, Some(x.fromUtf8(outpoint))));
  }

  method ReadCore(reader: Reader) returns (r: Result<Core>)
    requires reader.Valid()
    modifies reader
    ensures reader.Valid() && Reads(TakeCore(old(reader.Rest())), r, reader.Rest())
  {
    var passwordSalt :- reader.ReadArray();
    var passwordPresentationPrimary :- reader.ReadArray();
    var passwordRecoveryPrimary :- reader.ReadArray();
    var presentationRecoveryPrimary :- reader.ReadArray();
    var passwordPrimaryPrivileged :- reader.ReadArray();
    var presentationRecoveryPrivileged :- reader.ReadArray();
    var presentationHash :- reader.ReadArray();
    var recoveryHash :- reader.ReadArray();
    var presentationKeyEncrypted :- reader.ReadArray();
    var passwordKeyEncrypted :- reader.ReadArray();
    var recoveryKeyEncrypted :- reader.ReadArray();
    return Ok(Core(passwordSalt, passwordPresentationPrimary, passwordRecoveryPrimary, presentationRecoveryPrimary,
                   passwordPrimaryPrivileged, presentationRecoveryPrivileged, presentationHash, recoveryHash,
                   presentationKeyEncrypted, passwordKeyEncrypted, recoveryKeyEncrypted));
  }

  method ReadProfiles(reader: Reader, version: Byte) returns (r: Result<Option<Bytes>>)
    requires reader.Valid()
    modifies reader
    ensures reader.Valid() && Reads(TakeProfiles(version, old(reader.Rest())), r, reader.Rest())
  {
    if version < 2 {
      return Ok(None);
    }
    var flag :- reader.ReadUInt8();
    if flag != 1 {
      return Ok(None);
    }
    var profiles :- reader.ReadArray();
    return Ok(Some(profiles));
  }

  method ReadMetadata(x: Text, reader: Reader, version: Byte) returns (r: Result<Metadata>)
    requires reader.Valid()
    modifies reader
    ensures reader.Valid() && Reads(TakeMetadata(x, version, old(reader.Rest())), r, reader.Rest())
  {
    if version != 3 {
      return Ok(Metadata(None, None));
    }
    var flag :- reader.ReadUInt8();
    if flag != 1 {
      return Ok(Metadata(None, None));
    }
    var umpVersion :- reader.ReadUInt8();
    var algorithm :- reader.ReadArray();
    var params :- reader.ReadArray();
    return Ok(Metadata(Some(umpVersion), ParsedKdf(x, algorithm, params)));
  }

  // ----- Round trip of the serialized form

  /** The same bytes as CoreOnto, seen from the front: every field in front of what follows it. */
  function CoreThen(c: Core, rest: Bytes): Bytes {
    Prefixed(c.passwordSalt) + (Prefixed(c.passwordPresentationPrimary) + (Prefixed(c.passwordRecoveryPrimary)
    + (Prefixed(c.presentationRecoveryPrimary) + (Prefixed(c.passwordPrimaryPrivileged)
    + (Prefixed(c.presentationRecoveryPrivileged) + SecondHalfThen(c, rest))))))
  }

  function SecondHalfThen(c: Core, rest: Bytes): Bytes {
    Prefixed(c.presentationHash) + (Prefixed(c.recoveryHash) + (Prefixed(c.presentationKeyEncrypted)
    + (Prefixed(c.passwordKeyEncrypted) + (Prefixed(c.recoveryKeyEncrypted) + rest))))
  }

  lemma CoreSeenFromTheFront(buf: Bytes, c: Core, rest: Bytes)
    ensures CoreOnto(buf, c) + rest == buf + CoreThen(c, rest)
  {
    var b1 := buf + Prefixed(c.passwordSalt);
    var b2 := b1 + Prefixed(c.passwordPresentationPrimary);
    var b3 := b2 + Prefixed(c.passwordRecoveryPrimary);
    var b4 := b3 + Prefixed(c.presentationRecoveryPrimary);
    var b5 := b4 + Prefixed(c.passwordPrimaryPrivileged);
    var b6 := b5 + Prefixed(c.presentationRecoveryPrivileged);
    var s6 := SecondHalfThen(c, rest);
    SecondHalfSeenFromTheFront(b6, c, rest);
    var s5 := Prefixed(c.presentationRecoveryPrivileged) + s6;
    var s4 := Prefixed(c.passwordPrimaryPrivileged) + s5;
    var s3 := Prefixed(c.presentationRecoveryPrimary) + s4;
    var s2 := Prefixed(c.passwordRecoveryPrimary) + s3;
    var s1 := Prefixed(c.passwordPresentationPrimary) + s2;
    Associative(b5, Prefixed(c.presentationRecoveryPrivileged), s6);
    Associative(b4, Prefixed(c.passwordPrimaryPrivileged), s5);
    Associative(b3, Prefixed(c.presentationRecoveryPrimary), s4);
    Associative(b2, Prefixed(c.passwordRecoveryPrimary), s3);
    Associative(b1, Prefixed(c.passwordPresentationPrimary), s2);
    Associative(buf, Prefixed(c.passwordSalt), s1);
  }

  lemma SecondHalfSeenFromTheFront(b6: Bytes, c: Core, rest: Bytes)
    ensures b6 + Prefixed(c.presentationHash) + Prefixed(c.recoveryHash) + Prefixed(c.presentationKeyEncrypted)
            + Prefixed(c.passwordKeyEncrypted) + Prefixed(c.recoveryKeyEncrypted) + rest == b6 + SecondHalfThen(c, rest)
  {
    var b7 := b6 + Prefixed(c.presentationHash);
    var b8 := b7 + Prefixed(c.recoveryHash);
    var b9 := b8 + Prefixed(c.presentationKeyEncrypted);
    var b10 := b9 + Prefixed(c.passwordKeyEncrypted);
    var s10 := Prefixed(c.recoveryKeyEncrypted) + rest;
    var s9 := Prefixed(c.passwordKeyEncrypted) + s10;
    var s8 := Prefixed(c.presentationKeyEncrypted) + s9;
    var s7 := Prefixed(c.recoveryHash) + s8;
    Associative(b10, Prefixed(c.recoveryKeyEncrypted), rest);
    Associative(b9, Prefixed(c.passwordKeyEncrypted), s10);
    Associative(b8, Prefixed(c.presentationKeyEncrypted), s9);
    Associative(b7, Prefixed(c.recoveryHash), s8);
    Associative(b6, Prefixed(c.presentationHash), s7);
  }

  predicate StorableCore(c: Core) {
    && Storable(c.passwordSalt) && Storable(c.passwordPresentationPrimary) && Storable(c.passwordRecoveryPrimary)
    && Storable(c.presentationRecoveryPrimary) && Storable(c.passwordPrimaryPrivileged)
    && Storable(c.presentationRecoveryPrivileged) && Storable(c.presentationHash) && Storable(c.recoveryHash)
    && Storable(c.presentationKeyEncrypted) && Storable(c.passwordKeyEncrypted) && Storable(c.recoveryKeyEncrypted)
  }

  /** Every part of the token has a length that fits an 8-byte length prefix. */
  predicate StorableToken(x: Text, t: Token) {
    && StorableCore(t.core)
    && (t.profilesEncrypted.Some? ==> Storable(t.profilesEncrypted.value))
    && (t.passwordKdf.Some? ==>
        Storable(x.utf8(t.passwordKdf.value.algorithm)) && Storable(x.json(t.passwordKdf.value.params)))
    && (t.currentOutpoint.Some? ==> Storable(x.utf8(t.currentOutpoint.value)))
  }

  lemma CoreInverts(c: Core, rest: Bytes)
    requires StorableCore(c)
    ensures TakeCore(CoreThen(c, rest)) == Ok((c, rest))
  {
    var s10 := Prefixed(c.recoveryKeyEncrypted) + rest;
    var s9 := Prefixed(c.passwordKeyEncrypted) + s10;
    var s8 := Prefixed(c.presentationKeyEncrypted) + s9;
    var s7 := Prefixed(c.recoveryHash) + s8;
    var s6 := Prefixed(c.presentationHash) + s7;
    var s5 := Prefixed(c.presentationRecoveryPrivileged) + s6;
    var s4 := Prefixed(c.passwordPrimaryPrivileged) + s5;
    var s3 := Prefixed(c.presentationRecoveryPrimary) + s4;
    var s2 := Prefixed(c.passwordRecoveryPrimary) + s3;
    var s1 := Prefixed(c.passwordPresentationPrimary) + s2;
    PrefixedInverts(c.passwordSalt, s1);
    PrefixedInverts(c.passwordPresentationPrimary, s2);
    PrefixedInverts(c.passwordRecoveryPrimary, s3);
    PrefixedInverts(c.presentationRecoveryPrimary, s4);
    PrefixedInverts(c.passwordPrimaryPrivileged, s5);
    PrefixedInverts(c.presentationRecoveryPrivileged, s6);
    PrefixedInverts(c.presentationHash, s7);
    PrefixedInverts(c.recoveryHash, s8);
    PrefixedInverts(c.presentationKeyEncrypted, s9);
    PrefixedInverts(c.passwordKeyEncrypted, s10);
    PrefixedInverts(c.recoveryKeyEncrypted, rest);
  }

  function ProfilesThen(t: Token, rest: Bytes): Bytes {
    if HasProfiles(t) then [1] + (Prefixed(t.profilesEncrypted.value) + rest) else [0] + rest
  }

  function KdfThen(x: Text, t: Token, rest: Bytes): Bytes {
    if HasKdfMetadata(t) then
      [1] + ([3] + (Prefixed(x.utf8(t.passwordKdf.value.algorithm)) +
                    (Prefixed(x.json(t.passwordKdf.value.params)) + rest)))
    else rest
  }

  lemma ProfilesSeenFromTheFront(buf: Bytes, t: Token, rest: Bytes)
    ensures ProfilesOnto(buf, t) + rest == buf + ProfilesThen(t, rest)
  {
    if HasProfiles(t) {
      var profiles := Prefixed(t.profilesEncrypted.value);
      Associative(buf + [1], profiles, rest);
      Associative(buf, [1], profiles + rest);
    } else {
      Associative(buf, [0], rest);
    }
  }

  lemma KdfSeenFromTheFront(x: Text, buf: Bytes, t: Token, rest: Bytes)
    ensures KdfOnto(x, buf, t) + rest == buf + KdfThen(x, t, rest)
  {
    if HasKdfMetadata(t) {
      var algorithm, params := Prefixed(x.utf8(t.passwordKdf.value.algorithm)),
          Prefixed(x.json(t.passwordKdf.value.params));
      Associative(buf + [1] + [3] + algorithm, params, rest);
      Associative(buf + [1] + [3], algorithm, params + rest);
      Associative(buf + [1], [3], algorithm + (params + rest));
      Associative(buf, [1], [3] + (algorithm + (params + rest)));
    }
  }

  lemma ProfilesInvert(t: Token, version: Byte, rest: Bytes)
    requires version >= 2 && (t.profilesEncrypted.Some? ==> Storable(t.profilesEncrypted.value))
    ensures TakeProfiles(version, ProfilesThen(t, rest)) ==
            Ok((if HasProfiles(t) then t.profilesEncrypted else None, rest))
  {
    if HasProfiles(t) {
      TakeByteOfConcat(1, Prefixed(t.profilesEncrypted.value) + rest);
      PrefixedInverts(t.profilesEncrypted.value, rest);
    } else {
      TakeByteOfConcat(0, rest);
    }
  }

  lemma MetadataInverts(x: Text, t: Token, rest: Bytes)
    requires Inverts(x) && StorableToken(x, t)
    ensures TakeMetadata(x, SerializedVersion(t), KdfThen(x, t, rest))
         == Ok((if HasKdfMetadata(t) then Metadata(Some(3), t.passwordKdf) else Metadata(None, None), rest))
  {
    if HasKdfMetadata(t) {
      var kdf := t.passwordKdf.value;
      var algorithm, params := x.utf8(kdf.algorithm), x.json(kdf.params);
      TakeByteOfConcat(1, [3] + (Prefixed(algorithm) + (Prefixed(params) + rest)));
      TakeByteOfConcat(3, Prefixed(algorithm) + (Prefixed(params) + rest));
      PrefixedInverts(algorithm, Prefixed(params) + rest);
      PrefixedInverts(params, rest);
      assert ParsedKdf(x, algorithm, params) == Some(kdf);
    }
  }

  /** What both encodings keep of a token: empty profiles, and a version or a KDF without the other, are dropped. */
  function Kept(t: Token): Token {
    t.(profilesEncrypted := if HasProfiles(t) then t.profilesEncrypted else None,
       umpVersion := if HasKdfMetadata(t) then t.umpVersion else None,
       passwordKdf := if HasKdfMetadata(t) then t.passwordKdf else None)
  }

  /** The layouts the encodings support: profiles are non-empty, and version 3 goes with KDF metadata. */
  predicate Encodable(t: Token) {
    && t.profilesEncrypted != Some([])
    && (t.umpVersion.Some? ==> t.umpVersion == Some(3))
    && (t.umpVersion.Some? <==> t.passwordKdf.Some?)
  }

  lemma KeepsExactlyEncodable(t: Token)
    ensures Kept(t) == t <==> Encodable(t)
  {
  }

  lemma SerializedSeenFromTheFront(x: Text, t: Token)
    requires t.currentOutpoint.Some? && t.currentOutpoint.value != ""
    ensures Serialize(x, t) == Ok([SerializedVersion(t)] + CoreThen(t.core,
              ProfilesThen(t, KdfThen(x, t, Prefixed(x.utf8(t.currentOutpoint.value))))))
  {
    var version := [SerializedVersion(t)];
    var outpoint := Prefixed(x.utf8(t.currentOutpoint.value));
    var core := CoreOnto(version, t.core);
    KdfSeenFromTheFront(x, ProfilesOnto(core, t), t, outpoint);
    ProfilesSeenFromTheFront(core, t, KdfThen(x, t, outpoint));
    CoreSeenFromTheFront(version, t.core, ProfilesThen(t, KdfThen(x, t, outpoint)));
  }

  /** Everything after the core fields. */
  function TailOf(x: Text, t: Token): Bytes
    requires t.currentOutpoint.Some?
  {
    ProfilesThen(t, KdfThen(x, t, Prefixed(x.utf8(t.currentOutpoint.value))))
  }

  lemma TailInverts(x: Text, t: Token)
    requires Inverts(x) && StorableToken(x, t) && t.currentOutpoint.Some?
    ensures TokenAfterCore(x, SerializedVersion(t), t.core, TailOf(x, t)) == Ok(Kept(t))
  {
    var outpoint := x.utf8(t.currentOutpoint.value);
    ProfilesInvert(t, SerializedVersion(t), KdfThen(x, t, Prefixed(outpoint)));
    MetadataInverts(x, t, Prefixed(outpoint));
    PrefixedInverts(outpoint, []);
    assert Prefixed(outpoint) + [] == Prefixed(outpoint);
  }

  /**
   * Deserializing a serialized token gives back what the layout keeps of it; that is the token
   * itself exactly for the supported layouts, with or without profiles and KDF metadata.
   */
  lemma SerializedTokenRoundTrips(x: Text, t: Token)
    requires Inverts(x) && StorableToken(x, t)
    requires t.currentOutpoint.Some? && t.currentOutpoint.value != ""
    ensures Serialize(x, t).Ok? && Deserialize(x, Serialize(x, t).value) == Ok(Kept(t))
    ensures Deserialize(x, Serialize(x, t).value) == Ok(t) <==> Encodable(t)
  {
    var tail := TailOf(x, t);
    SerializedSeenFromTheFront(x, t);
    TakeByteOfConcat(SerializedVersion(t), CoreThen(t.core, tail));
    CoreInverts(t.core, tail);
    TailInverts(x, t);
    KeepsExactlyEncodable(t);
  }

  lemma CoreIsRead(x: Text, version: Byte, core: Core, tail: Bytes)
    requires StorableCore(core) && 1 <= version <= 3
    ensures Deserialize(x, [version] + CoreThen(core, tail)) == TokenAfterCore(x, version, core, tail)
  {
    TakeByteOfConcat(version, CoreThen(core, tail));
    CoreInverts(core, tail);
  }

  lemma OutpointInverts(x: Text, outpoint: string)
    requires Inverts(x) && Storable(x.utf8(outpoint))
    ensures TakeArray(Prefixed(x.utf8(outpoint))) == Ok((x.utf8(outpoint), [])) &&
            x.fromUtf8(x.utf8(outpoint)) == outpoint
  {
    PrefixedInverts(x.utf8(outpoint), []);
    assert Prefixed(x.utf8(outpoint)) + [] == Prefixed(x.utf8(outpoint));
  }

  /** The layout of version 1, which has neither profiles nor metadata, is read. */
  lemma VersionOneIsRead(x: Text, t: Token)
    requires Inverts(x) && StorableToken(x, t) && t.currentOutpoint.Some?
    ensures Deserialize(x, [1] + CoreThen(t.core, Prefixed(x.utf8(t.currentOutpoint.value))))
         == Ok(t.(profilesEncrypted := None, umpVersion := None, passwordKdf := None))
  {
    CoreIsRead(x, 1, t.core, Prefixed(x.utf8(t.currentOutpoint.value)));
    OutpointInverts(x, t.currentOutpoint.value);
  }

  /** The layout of version 2, which has no metadata, is read. */
  lemma VersionTwoIsRead(x: Text, t: Token)
    requires Inverts(x) && StorableToken(x, t) && t.currentOutpoint.Some?
    ensures Deserialize(x, [2] + CoreThen(t.core, ProfilesThen(t, Prefixed(x.utf8(t.currentOutpoint.value)))))
         == Ok(t.(profilesEncrypted := if HasProfiles(t) then t.profilesEncrypted else None,
                  umpVersion := None, passwordKdf := None))
  {
    var outpoint := Prefixed(x.utf8(t.currentOutpoint.value));
    CoreIsRead(x, 2, t.core, ProfilesThen(t, outpoint));
    ProfilesInvert(t, 2, outpoint);
    OutpointInverts(x, t.currentOutpoint.value);
  }

  /** A version 3 layout whose flag is not 1 has no metadata. */
  lemma VersionThreeMayLackMetadata(x: Text, t: Token, flag: Byte)
    requires Inverts(x) && StorableToken(x, t) && t.currentOutpoint.Some? && flag != 1
    ensures var outpoint := Prefixed(x.utf8(t.currentOutpoint.value));
            Deserialize(x, [3] + CoreThen(t.core, ProfilesThen(t, [flag] + outpoint)))
            == Ok(t.(profilesEncrypted := if HasProfiles(t) then t.profilesEncrypted else None,
                     umpVersion := None, passwordKdf := None))
  {
    var outpoint := Prefixed(x.utf8(t.currentOutpoint.value));
    CoreIsRead(x, 3, t.core, ProfilesThen(t, [flag] + outpoint));
    ProfilesInvert(t, 3, [flag] + outpoint);
    TakeByteOfConcat(flag, outpoint);
    OutpointInverts(x, t.currentOutpoint.value);
  }

  /** Layouts of any other version are refused. */
  lemma OtherVersionsAreRefused(x: Text, version: Byte, rest: Bytes)
    requires version == 0 || version > 3
    ensures Deserialize(x, [version] + rest).Err? && Deserialize(x, []).Err?
  {
    TakeByteOfConcat(version, rest);
  }

  /** The core fields by their position in both encodings. */
  function CoreField(c: Core, i: nat): Bytes
    requires i < 11
  {
    match i
    case 0 => c.passwordSalt
    case 1 => c.passwordPresentationPrimary
    case 2 => c.passwordRecoveryPrimary
    case 3 => c.presentationRecoveryPrimary
    case 4 => c.passwordPrimaryPrivileged
    case 5 => c.presentationRecoveryPrivileged
    case 6 => c.presentationHash
    case 7 => c.recoveryHash
    case 8 => c.presentationKeyEncrypted
    case 9 => c.passwordKeyEncrypted
    case _ => c.recoveryKeyEncrypted
  }

  function CoreFrom(c: Core, i: nat, rest: Bytes): Bytes
    requires i <= 11
    decreases 11 - i
  {
    if i == 11 then rest else Prefixed(CoreField(c, i)) + CoreFrom(c, i + 1, rest)
  }

  lemma CoreByPosition(c: Core, rest: Bytes)
    ensures CoreThen(c, rest) == CoreFrom(c, 0, rest)
  {
    assert CoreFrom(c, 11, rest) == rest;
    assert CoreFrom(c, 10, rest) == Prefixed(c.recoveryKeyEncrypted) + CoreFrom(c, 11, rest);
    assert CoreFrom(c, 9, rest) == Prefixed(c.passwordKeyEncrypted) + CoreFrom(c, 10, rest);
    assert CoreFrom(c, 8, rest) == Prefixed(c.presentationKeyEncrypted) + CoreFrom(c, 9, rest);
    assert CoreFrom(c, 7, rest) == Prefixed(c.recoveryHash) + CoreFrom(c, 8, rest);
    assert CoreFrom(c, 6, rest) == Prefixed(c.presentationHash) + CoreFrom(c, 7, rest);
    assert CoreFrom(c, 5, rest) == Prefixed(c.presentationRecoveryPrivileged) + CoreFrom(c, 6, rest);
    assert CoreFrom(c, 4, rest) == Prefixed(c.passwordPrimaryPrivileged) + CoreFrom(c, 5, rest);
    assert CoreFrom(c, 3, rest) == Prefixed(c.presentationRecoveryPrimary) + CoreFrom(c, 4, rest);
    assert CoreFrom(c, 2, rest) == Prefixed(c.passwordRecoveryPrimary) + CoreFrom(c, 3, rest);
    assert CoreFrom(c, 1, rest) == Prefixed(c.passwordPresentationPrimary) + CoreFrom(c, 2, rest);
  }

  /**
   * Both encodings have the core fields in the documented order; the serialized one has them behind
   * the version byte, each with its length.
   */
  lemma FieldsInOrder(x: Text, t: Token, i: nat)
    requires i < 11
    ensures BuildFields(x, t)[i] == CoreField(t.core, i)
    ensures Serialize(x, t).Ok? ==>
              t.currentOutpoint.Some?
              && Serialize(x, t).value == [SerializedVersion(t)] + CoreFrom(t.core, 0, TailOf(x, t))
  {
    if Serialize(x, t).Ok? {
      SerializedSeenFromTheFront(x, t);
      CoreByPosition(t.core, TailOf(x, t));
    }
  }

  // ----- The on-chain form

  type Fields = seq<Bytes>

  function CoreFields(c: Core): (r: Fields)
    ensures |r| == 11
  {
    [c.passwordSalt, c.passwordPresentationPrimary, c.passwordRecoveryPrimary, c.presentationRecoveryPrimary,
     c.passwordPrimaryPrivileged, c.presentationRecoveryPrivileged, c.presentationHash, c.recoveryHash,
     c.presentationKeyEncrypted, c.passwordKeyEncrypted, c.recoveryKeyEncrypted]
  }

  function MetadataFields(x: Text, t: Token): Fields {
    if HasKdfMetadata(t) then [[3], x.utf8(t.passwordKdf.value.algorithm), x.json(t.passwordKdf.value.params)] else []
  }

  function BuildFields(x: Text, t: Token): Fields {
    CoreFields(t.core) + (if t.profilesEncrypted.Some? then [t.profilesEncrypted.value] else []) + MetadataFields(x, t)
  }

  /** buildUMPTokenFields: the fields of a token, in order. */
  method BuildTokenFields(x: Text, t: Token) returns (fields: Fields)
    ensures fields == BuildFields(x, t)
  {
    var c := t.core;
    fields := [c.passwordSalt, c.passwordPresentationPrimary, c.passwordRecoveryPrimary, c.presentationRecoveryPrimary,
               c.passwordPrimaryPrivileged, c.presentationRecoveryPrivileged, c.presentationHash, c.recoveryHash,
               c.presentationKeyEncrypted, c.passwordKeyEncrypted, c.recoveryKeyEncrypted];
    if t.profilesEncrypted.Some? {
      fields := fields + [t.profilesEncrypted.value];
    }
    if t.umpVersion == Some(3) && t.passwordKdf.Some? {
      fields := fields + [[3]];
      fields := fields + [x.utf8(t.passwordKdf.value.algorithm)];
      fields := fields + [x.json(t.passwordKdf.value.params)];
    }
  }

  predicate LikelyDerSignature(field: Bytes) {
    8 <= |field| <= 80 && field[0] == 0x30 && field[1] == |field| - 2
  }

  function Joined(fields: Fields): Bytes {
    if fields == [] then [] else Joined(fields[..|fields| - 1]) + fields[|fields| - 1]
  }

  /** A signature in DER: a sequence of two integers of one tag and one length byte each. */
  function Der(r: Bytes, s: Bytes): Bytes
    requires |r| + |s| < 252
  {
    [0x30, 4 + |r| + |s|] + [2, |r|] + r + [2, |s|] + s
  }

  /**
   * Fields that look like a signature are those of 8 to 80 bytes with the tag and length of DER;
   * all short signatures do.
   */
  lemma SignaturesLookLikely(field: Bytes, r: Bytes, s: Bytes)
    requires |r| + |s| < 252
    ensures LikelyDerSignature(field) <==>
              |field| >= 8 && |field| <= 80 && field[0] == 48 && |field| - 2 == field[1]
    ensures LikelyDerSignature(Der(r, s)) <==> 2 <= |r| + |s| && |r| + |s| <= 74
  {
    assert |Der(r, s)| == 6 + |r| + |s| && Der(r, s)[0] == 48 && Der(r, s)[1] == 4 + |r| + |s|;
  }

  lemma JoinedLast(fields: Fields)
    requires fields != []
    ensures Joined(fields) == Joined(fields[..|fields| - 1]) + fields[|fields| - 1]
  {
  }

  /** What is verified is all the bytes of the fields in order. */
  lemma {:induction false} JoinedInOrder(a: Fields, b: Fields)
    ensures Joined(a + b) == Joined(a) + Joined(b)
    ensures |b| == 1 ==> Joined(b) == b[0]
  {
    if b == [] {
      assert a + b == a;
    } else {
      var n := |b| - 1;
      JoinedInOrder(a, b[..n]);
      JoinedLast(b);
      JoinedLast(a + b);
      assert (a + b)[..|a + b| - 1] == a + b[..n];
      Associative(Joined(a), Joined(b[..n]), b[n]);
    }
  }

  /** Checks a signature over the given data with the key of the locking script; false: it throws or does not verify. */
  type Verifier = (Bytes, Bytes) -> bool

  /** The fields without a trailing field that verifies as their signature. */
  function Strip(fields: Fields, verify: Verifier): Fields {
    if |fields| <= 11 then fields
    else
      var n := |fields| - 1;
      if LikelyDerSignature(fields[n]) && verify(Joined(fields[..n]), fields[n]) then fields[..n] else fields
  }

  method StripVerifiedSignature(fields: Fields, verify: Verifier) returns (r: Fields)
    ensures r == Strip(fields, verify)
  {
    if |fields| <= 11 {
      return fields;
    }
    var n := |fields| - 1;
    if !LikelyDerSignature(fields[n]) {
      return fields;
    }
    var data := [];
    for i := 0 to n
      invariant data == Joined(fields[..n][..i])
    {
      assert fields[..n][..i + 1][..i] == fields[..n][..i];
      data := data + fields[i];
    }
    assert fields[..n][..n] == fields[..n];
    if verify(data, fields[n]) {
      return fields[..n];
    }
    return fields;
  }

  /** The metadata starts with the one-byte field 3, after the profiles or in their place. */
  predicate MetadataAt(fields: Fields, i: nat) {
    |fields| >= i + 3 && fields[i] == [3]
  }

  /** parseLookupAnswer, from the decoded fields of the token output on. */
  function ParseFields(x: Text, decoded: Fields, verify: Verifier, outpoint: string): Option<Token> {
    if |decoded| < 11 then None
    else
      var fields := Strip(decoded, verify);
      var withProfiles := MetadataAt(fields, 12);
      var withoutProfiles := MetadataAt(fields, 11);
      var core := Core(fields[0], fields[1], fields[2], fields[3], fields[4], fields[5], fields[6], fields[7],
                       fields[8], fields[9], fields[10]);
      var profiles := if (withProfiles || !withoutProfiles) && |fields| > 11 && |fields[11]| > 0 then Some(fields[11])
          else None;
      var t := Token(core, profiles, None, None, Some(outpoint));
      if withProfiles then Some(t.(umpVersion := Some(3), passwordKdf := ParsedKdf(x, fields[13], fields[14])))
      else if withoutProfiles then Some(t.(umpVersion := Some(3), passwordKdf := ParsedKdf(x, fields[12], fields[13])))
      else Some(t)
  }

  /** The signature appended on publication is recognised and removed again. */
  lemma StripsTheSignature(x: Text, t: Token, signature: Bytes, verify: Verifier)
    requires LikelyDerSignature(signature) && verify(Joined(BuildFields(x, t)), signature)
    ensures Strip(BuildFields(x, t) + [signature], verify) == BuildFields(x, t)
  {
    var fields := BuildFields(x, t);
    assert (fields + [signature])[..|fields|] == fields;
  }

  /**
   * Parsing the published fields of a token, its signature verified and stripped, gives back what
   * the layout keeps of it; that is the token itself exactly for the supported layouts.
   */
  lemma PublishedTokenRoundTrips(x: Text, t: Token, signature: Bytes, verify: Verifier)
    requires Inverts(x) && t.currentOutpoint.Some?
    requires LikelyDerSignature(signature) && verify(Joined(BuildFields(x, t)), signature)
    ensures var parsed := ParseFields(x, BuildFields(x, t) + [signature], verify, t.currentOutpoint.value);
            parsed == Some(Kept(t)) && (parsed == Some(t) <==> Encodable(t))
  {
    StripsTheSignature(x, t, signature, verify);
    StrippedFieldsRead(x, t, BuildFields(x, t) + [signature], verify);
  }

  lemma StrippedFieldsRead(x: Text, t: Token, decoded: Fields, verify: Verifier)
    requires Inverts(x) && t.currentOutpoint.Some? && |decoded| >= 11 && Strip(decoded, verify) == BuildFields(x, t)
    ensures var parsed := ParseFields(x, decoded, verify, t.currentOutpoint.value);
            parsed == Some(Kept(t)) && (parsed == Some(t) <==> Encodable(t))
  {
    var fields := BuildFields(x, t);
    assert fields[..11] == CoreFields(t.core);
    assert forall i :: 0 <= i < 11 ==> fields[i] == fields[..11][i];
    if HasKdfMetadata(t) {
      var kdf := t.passwordKdf.value;
      var at := if t.profilesEncrypted.Some? then 12 else 11;
      assert fields[at..] == MetadataFields(x, t);
      assert fields[at] == [3] && fields[at + 1] == x.utf8(kdf.algorithm) && fields[at + 2] == x.json(kdf.params);
      assert ParsedKdf(x, fields[at + 1], fields[at + 2]) == Some(kdf);
    }
    KeepsExactlyEncodable(t);
  }

  /**
   * Fields published without a signature read the same, unless the last one passes for one; fewer
   * than 11 are no token.
   */
  lemma UnsignedFieldsRead(x: Text, t: Token, fields: Fields, verify: Verifier)
    requires Inverts(x) && t.currentOutpoint.Some?
    ensures Strip(BuildFields(x, t), verify) == BuildFields(x, t) ==>
              ParseFields(x, BuildFields(x, t), verify, t.currentOutpoint.value) == Some(Kept(t))
    ensures |fields| < 11 ==> ParseFields(x, fields, verify, t.currentOutpoint.value) == None
  {
    if Strip(BuildFields(x, t), verify) == BuildFields(x, t) {
      StrippedFieldsRead(x, t, BuildFields(x, t), verify);
    }
  }

  /**
   * An unverified signature is not stripped: on a token without profiles or metadata it is then
   * taken for the encrypted profiles.
   */
  lemma UnverifiedSignatureBecomesProfiles(x: Text, t: Token, signature: Bytes, verify: Verifier)
    requires t.profilesEncrypted.None? && !HasKdfMetadata(t) && |signature| > 0
    ensures var parsed := ParseFields(x, BuildFields(x, t) + [signature], verify, "");
            parsed.Some? && (parsed.value.profilesEncrypted == Some(signature)
                             <==> !(LikelyDerSignature(signature) && verify(Joined(CoreFields(t.core)), signature)))
  {
    var fields := BuildFields(x, t);
    assert fields == CoreFields(t.core);
    assert (fields + [signature])[..11] == fields;
  }
}
