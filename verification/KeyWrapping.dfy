/**
 * Root keys wrapped under pairs of authentication factors, and the operations that change a factor
 * or a profile and wrap the keys anew.  Cryptography is symbolic.  The manager's methods are proved
 * against functions on states; the long-run properties are proved about sequences of operations.
 */
module KeyWrapping {
  import opened Common
  import opened TokenCodec

  const PBKDF2_NUM_ROUNDS := 7777
  const ARGON2ID_DEFAULT_MEMORY_KIB := 131072
  const ARGON2ID_DEFAULT_PARALLELISM := 1
  const ARGON2ID_DEFAULT_HASH_LENGTH := 32

  /** Sixteen zero bytes. */
  const DEFAULT_PROFILE_ID: Bytes := Zeros(16)

  datatype Profile = Profile(name: string, id: Bytes, primaryPad: Bytes, privilegedPad: Bytes, createdAt: int)

  /**
   * Encryption takes (key, initialisation vector, plaintext); wrap and unwrap are the encryption of
   * a key manager holding the given privileged key -- as its number, without leading zero bytes --
   * for the key wrapping protocol.
   */
  datatype Crypto = Crypto(
    enc: (Bytes, Bytes, Bytes) -> Bytes, dec: (Bytes, Bytes) -> Option<Bytes>,
    wrap: (Bytes, Bytes, Bytes) -> Bytes, unwrap: (Bytes, Bytes) -> Option<Bytes>,
    sha256: Bytes -> Bytes,
    pbkdf2: (string, Bytes, int) -> Bytes, argon2id: (string, Bytes, int, int, int, int) -> Bytes,
    profilesJson: seq<Profile> -> Bytes, parseProfiles: Bytes -> Option<seq<Profile>>, lowerCase: string -> string)

  /** Decryption inverts encryption under the same key and fails under any other; key wrapping and JSON invert. */
  ghost predicate Lawful(c: Crypto) {
    && (forall key, other, iv, m :: c.dec(other, c.enc(key, iv, m)) == if other == key then Some(m) else None)
    && (forall key, iv, m :: |c.enc(key, iv, m)| > 0)
    && (forall key, iv, m :: c.unwrap(key, c.wrap(key, iv, m)) == Some(m))
    && (forall ps :: c.parseProfiles(c.profilesJson(ps)) == Some(ps))
  }

  // ----- Exclusive or

  function XorBits(a: nat, b: nat, bits: nat): nat {
    if bits == 0 then 0
    else (if a % 2 == b % 2 then 0 else 1) + 2 * XorBits(a / 2, b / 2, bits - 1)
  }

  lemma {:induction false} XorBitsLaws(a: nat, b: nat, bits: nat)
    requires a < Pow2(bits) && b < Pow2(bits)
    ensures XorBits(a, b, bits) < Pow2(bits)
    ensures XorBits(a, b, bits) == XorBits(b, a, bits)
    ensures XorBits(XorBits(a, b, bits), b, bits) == a
  {
    if bits > 0 {
      XorBitsLaws(a / 2, b / 2, bits - 1);
      var low := if a % 2 == b % 2 then 0 else 1;
      var high := XorBits(a / 2, b / 2, bits - 1);
      assert (low + 2 * high) % 2 == low && (low + 2 * high) / 2 == high;
    }
  }

  function XorByte(a: Byte, b: Byte): Byte {
    assert Pow2(8) == 256;
    XorBitsLaws(a, b, 8);
    XorBits(a, b, 8)
  }

  function XorBytes(a: Bytes, b: Bytes): (r: Bytes)
    requires |a| == |b|
    ensures |r| == |a|
    ensures forall i :: 0 <= i < |r| ==> r[i] == XorByte(a[i], b[i])
  {
    if a == [] then [] else [XorByte(a[0], b[0])] + XorBytes(a[1..], b[1..])
  }

  function Xor(a: Bytes, b: Bytes): Result<Bytes> {
    if |a| != |b| then Err("XOR length mismatch") else Ok(XorBytes(a, b))
  }

  /** Exclusive or of keys is commutative and undoes itself. */
  lemma XorLaws(a: Bytes, b: Bytes)
    requires |a| == |b|
    ensures XorBytes(a, b) == XorBytes(b, a)
    ensures XorBytes(XorBytes(a, b), b) == a
  {
    assert Pow2(8) == 256;
    forall i | 0 <= i < |a|
      ensures XorBytes(a, b)[i] == XorBytes(b, a)[i] && XorBytes(XorBytes(a, b), b)[i] == a[i]
    {
      XorBitsLaws(a[i], b[i], 8);
    }
  }

  /** Bit i of a number, counted from the lowest. */
  function Bit(n: nat, i: nat): nat { if i == 0 then n % 2 else Bit(n / 2, i - 1) }

  lemma {:induction false} XorBitsBitwise(a: nat, b: nat, bits: nat, i: nat)
    requires i < bits
    ensures Bit(XorBits(a, b, bits), i) == if Bit(a, i) == Bit(b, i) then 0 else 1
  {
    var low := if a % 2 == b % 2 then 0 else 1;
    var high := XorBits(a / 2, b / 2, bits - 1);
    assert (low + 2 * high) % 2 == low && (low + 2 * high) / 2 == high;
    if i > 0 {
      XorBitsBitwise(a / 2, b / 2, bits - 1, i - 1);
    }
  }

  /** Each bit of the combined key is set exactly if the two keys differ there. */
  lemma XorIsBitwise(a: Bytes, b: Bytes, k: nat, i: nat)
    requires |a| == |b| && k < |a| && i < 8
    ensures Bit(XorBytes(a, b)[k], i) == if Bit(a[k], i) == Bit(b[k], i) then 0 else 1
  {
    XorBitsBitwise(a[k], b[k], 8, i);
  }

  method XorKeys(n1: Bytes, n2: Bytes) returns (r: Result<Bytes>)
    ensures r == Xor(n1, n2)
  {
    if |n1| != |n2| {
      return Err("XOR length mismatch");
    }
    var a := new Byte[|n1|];
    for i := 0 to |n1|
      invariant forall j :: 0 <= j < i ==> a[j] == XorByte(n1[j], n2[j])
    {
      a[i] := XorByte(n1[i], n2[i]);
    }
    assert a[..] == XorBytes(n1, n2);
    return Ok(a[..]);
  }

  // ----- Private keys are numbers

  /** The number with these base-256 digits, highest first. */
  function Number(b: Bytes): nat {
    if b == [] then 0 else 256 * Number(b[..|b| - 1]) + b[|b| - 1]
  }

  /** What a private key made of the bytes converts back to: its number has no leading zeros. */
  function Converted(b: Bytes): (r: Bytes)
    ensures |r| <= |b| && (|r| == |b| <==> r == b)
    ensures |b| > 1 ==> (r == b <==> b[0] != 0)
    ensures b != [] ==> r != []
  {
    if |b| > 1 && b[0] == 0 then Converted(b[1..]) else b
  }

  lemma {:induction false} LeadingZero(b: Bytes)
    ensures Number([0] + b) == Number(b)
  {
    var padded := [0] + b;
    if b == [] {
      assert padded[..0] == [];
    } else {
      LeadingZero(b[..|b| - 1]);
      assert padded[..|padded| - 1] == [0] + b[..|b| - 1];
    }
  }

  /** Converting changes no number, and nothing a second time. */
  lemma {:induction false} ConversionKeepsNumber(b: Bytes)
    ensures Number(Converted(b)) == Number(b) && Converted(Converted(b)) == Converted(b)
  {
    if |b| > 1 && b[0] == 0 {
      ConversionKeepsNumber(b[1..]);
      LeadingZero(b[1..]);
      assert b == [0] + b[1..];
    }
  }

  // ----- Wrapping and unwrapping the root keys

  /** The password key that the metadata calls for; legacy tokens have none. */
  function Derive(c: Crypto, salt: Bytes, kdf: Option<Kdf>, password: string): Result<Bytes> {
    if kdf.None? then Ok(c.pbkdf2(password, salt, PBKDF2_NUM_ROUNDS))
    else
      var p := kdf.value.params;
      if kdf.value.algorithm == "pbkdf2-sha512" then Ok(c.pbkdf2(password, salt, p.iterations))
      else if kdf.value.algorithm == "argon2id" then
        Ok(c.argon2id(password, salt, p.iterations, p.memoryKiB.GetOr(ARGON2ID_DEFAULT_MEMORY_KIB),
                      p.parallelism.GetOr(ARGON2ID_DEFAULT_PARALLELISM),
                          p.hashLength.GetOr(ARGON2ID_DEFAULT_HASH_LENGTH)))
      else Err("Unsupported KDF algorithm")
  }

  /**
   * Tokens without metadata use 7777 rounds of PBKDF2; metadata names PBKDF2 or Argon2id and its
   * parameters, of which Argon2id's memory defaults to 128 MiB, its parallelism to 1 and its key
   * length to 32; any other algorithm is refused.
   */
  lemma DerivationParameters(c: Crypto, salt: Bytes, algorithm: string, p: KdfParams, password: string)
    ensures Derive(c, salt, None, password) == Ok(c.pbkdf2(password, salt, 7777))
    ensures Derive(c, salt, Some(Kdf(algorithm, p)), password) ==
            if algorithm == "argon2id" then
              Ok(c.argon2id(password, salt, p.iterations, if p.memoryKiB == None then 131_072 else p.memoryKiB.value,
                            if p.parallelism == None then 1 else p.parallelism.value,
                            if p.hashLength == None then 32 else p.hashLength.value))
            else if algorithm == "pbkdf2-sha512" then Ok(c.pbkdf2(password, salt, p.iterations))
            else Err("Unsupported KDF algorithm")
  {
    assert "argon2id"[0] != "pbkdf2-sha512"[0];
  }

  function Decrypt(c: Crypto, key: Bytes, ciphertext: Bytes): Result<Bytes> {
    match c.dec(key, ciphertext) case Some(m) => Ok(m) case None => Err("Decryption failed")
  }

  /** The three factor keys and the two root keys. */
  datatype Keys = Keys(password: Bytes, presentation: Bytes, recovery: Bytes, primary: Bytes, privileged: Bytes)

  /** A token, not published yet, in which the keys and profiles are wrapped. */
  function Wrap(c: Crypto, salt: Bytes, k: Keys, profiles: seq<Profile>, kdf: Option<Kdf>,
                ivs: nat -> Bytes): Result<Token> {
    var presentationPassword :- Xor(k.presentation, k.password);
    var presentationRecovery :- Xor(k.presentation, k.recovery);
    var recoveryPassword :- Xor(k.recovery, k.password);
    var primaryPassword :- Xor(k.primary, k.password);
    Ok(Token(
         Core(salt, c.enc(presentationPassword, ivs(0), k.primary), c.enc(recoveryPassword, ivs(1), k.primary),
              c.enc(presentationRecovery, ivs(2), k.primary), c.enc(primaryPassword, ivs(3), k.privileged),
              c.enc(presentationRecovery, ivs(4), k.privileged), c.sha256(k.presentation), c.sha256(k.recovery),
              c.wrap(Converted(k.privileged), ivs(5), k.presentation),
                  c.wrap(Converted(k.privileged), ivs(6), k.password),
              c.wrap(Converted(k.privileged), ivs(7), k.recovery)),
         if profiles == [] then None else Some(c.enc(k.primary, ivs(8), c.profilesJson(profiles))),
         if kdf.Some? then Some(3) else None, kdf, None))
  }

  function UnlockWithPresentationAndPassword(c: Crypto, t: Token, presentation: Bytes,
                                             password: string): Result<Bytes> {
    var passwordKey :- Derive(c, t.core.passwordSalt, t.passwordKdf, password);
    var key :- Xor(presentation, passwordKey);
    Decrypt(c, key, t.core.passwordPresentationPrimary)
  }

  function PrivilegedFromPassword(c: Crypto, t: Token, primary: Bytes, password: string): Result<Bytes> {
    var passwordKey :- Derive(c, t.core.passwordSalt, t.passwordKdf, password);
    var key :- Xor(primary, passwordKey);
    Decrypt(c, key, t.core.passwordPrimaryPrivileged)
  }

  /** The root primary and privileged keys. */
  function UnlockWithRecoveryAndPassword(c: Crypto, t: Token, recovery: Bytes,
                                         password: string): Result<(Bytes, Bytes)> {
    var passwordKey :- Derive(c, t.core.passwordSalt, t.passwordKdf, password);
    var key :- Xor(recovery, passwordKey);
    var primary :- Decrypt(c, key, t.core.passwordRecoveryPrimary);
    var privileged :- PrivilegedFromPassword(c, t, primary, password);
    Ok((primary, privileged))
  }

  function UnlockWithPresentationAndRecovery(c: Crypto, t: Token, presentation: Bytes,
                                             recovery: Bytes): Result<(Bytes, Bytes)> {
    var key :- Xor(presentation, recovery);
    var primary :- Decrypt(c, key, t.core.presentationRecoveryPrimary);
    var privileged :- Decrypt(c, key, t.core.presentationRecoveryPrivileged);
    Ok((primary, privileged))
  }

  /** Every pair of factors, and the primary key with the password, opens the token to the same root keys. */
  ghost predicate Opens(c: Crypto, t: Token, k: Keys, password: string) {
    && UnlockWithPresentationAndPassword(c, t, k.presentation, password) == Ok(k.primary)
    && UnlockWithRecoveryAndPassword(c, t, k.recovery, password) == Ok((k.primary, k.privileged))
    && UnlockWithPresentationAndRecovery(c, t, k.presentation, k.recovery) == Ok((k.primary, k.privileged))
    && PrivilegedFromPassword(c, t, k.primary, password) == Ok(k.privileged)
  }

  /** The privileged key recovers the factors, under whose hashes the token is found. */
  ghost predicate HoldsFactors(c: Crypto, t: Token, k: Keys, password: string) {
    && Derive(c, t.core.passwordSalt, t.passwordKdf, password) == Ok(k.password)
    && c.unwrap(Converted(k.privileged), t.core.presentationKeyEncrypted) == Some(k.presentation)
    && c.unwrap(Converted(k.privileged), t.core.passwordKeyEncrypted) == Some(k.password)
    && c.unwrap(Converted(k.privileged), t.core.recoveryKeyEncrypted) == Some(k.recovery)
    && t.core.presentationHash == c.sha256(k.presentation) && t.core.recoveryHash == c.sha256(k.recovery)
    && |k.presentation| == |k.password| == |k.recovery| == |k.primary|
  }

  /** No password makes the key manager produce another privileged key: a wrong one is rejected. */
  ghost predicate RejectsOthers(c: Crypto, t: Token, k: Keys) {
    forall p :: PrivilegedFromPassword(c, t, k.primary, p).Ok? ==>
          PrivilegedFromPassword(c, t, k.primary, p).value == k.privileged
  }

  /** The profiles in the token, as loading it decrypts them; None: they do not decrypt or parse. */
  function TokenProfiles(c: Crypto, t: Token, primary: Bytes): Option<seq<Profile>> {
    if !HasProfiles(t) then Some([])
    else match c.dec(primary, t.profilesEncrypted.value)
      case None => None
      case Some(json) => c.parseProfiles(json)
  }

  /** Wrapping succeeds exactly when the keys have one length. */
  lemma WrapsEqualLengths(c: Crypto, salt: Bytes, k: Keys, profiles: seq<Profile>, kdf: Option<Kdf>, ivs: nat -> Bytes)
    requires Lawful(c)
    ensures Wrap(c, salt, k, profiles, kdf, ivs).Ok? <==>
              |k.presentation| == |k.password| == |k.recovery| == |k.primary|
    ensures var w := Wrap(c, salt, k, profiles, kdf, ivs);
            w.Ok? ==> TokenProfiles(c, w.value, k.primary) == Some(profiles) && Encodable(w.value)
                      && w.value.passwordKdf == kdf && w.value.core.passwordSalt == salt
  {
  }

  /** Wrapping makes a token that opens, whichever keys are wrapped. */
  lemma WrapOpens(c: Crypto, salt: Bytes, k: Keys, profiles: seq<Profile>, kdf: Option<Kdf>, ivs: nat -> Bytes,
                  password: string)
    requires Lawful(c) && Derive(c, salt, kdf, password) == Ok(k.password)
    requires Wrap(c, salt, k, profiles, kdf, ivs).Ok?
    ensures var t := Wrap(c, salt, k, profiles, kdf, ivs).value;
            Opens(c, t, k, password) && HoldsFactors(c, t, k, password)
  {
    var t := Wrap(c, salt, k, profiles, kdf, ivs).value;
    assert Derive(c, t.core.passwordSalt, t.passwordKdf, password) == Ok(k.password);
    assert PrivilegedFromPassword(c, t, k.primary, password) == Ok(k.privileged);
    assert UnlockWithPresentationAndRecovery(c, t, k.presentation, k.recovery) == Ok((k.primary, k.privileged));
  }

  lemma WrapRejectsOthers(c: Crypto, salt: Bytes, k: Keys, profiles: seq<Profile>, kdf: Option<Kdf>, ivs: nat -> Bytes)
    requires Lawful(c) && Wrap(c, salt, k, profiles, kdf, ivs).Ok?
    ensures RejectsOthers(c, Wrap(c, salt, k, profiles, kdf, ivs).value, k)
  {
  }

  // ----- The manager

  /** The wallet of a profile: its primary key, and the pad to apply to the root privileged key. */
  datatype Built = Built(primaryKey: Bytes, privilegedPad: Option<Bytes>, profileId: Bytes)

  /** privileged is a root privileged key that the key manager has at hand; otherwise it asks for the password. */
  datatype State = State(authenticated: bool, token: Option<Token>, rootPrimaryKey: Option<Bytes>,
                         privileged: Option<Bytes>,
                         profiles: seq<Profile>, activeProfileId: Bytes, underlying: Option<Built>,
                         presentationKey: Option<Bytes>, recoveryKey: Option<Bytes>)

  /** What an operation depends on besides its arguments: the password typed when prompted, random initialisation
      vectors, and the outpoint of the published token (None: publishing fails). */
  datatype Env = Env(prompt: string, ivs: nat -> Bytes, published: Option<string>)

  type Step = (Result<()>, State)

  /** The first profile whose id the given one starts with. */
  function FindProfile(profiles: seq<Profile>, id: Bytes): Option<nat> {
    if profiles == [] then None
    else if profiles[0].id <= id then Some(0)
    else match FindProfile(profiles[1..], id) case None => None case Some(i) => Some(i + 1)
  }

  lemma {:induction false} FindProfileFinds(profiles: seq<Profile>, id: Bytes)
    ensures match FindProfile(profiles, id)
            case Some(i) => i < |profiles| && profiles[i].id <= id && forall j :: 0 <= j < i ==> !(profiles[j].id <= id)
            case None => forall j :: 0 <= j < |profiles| ==> !(profiles[j].id <= id)
  {
    if profiles != [] {
      FindProfileFinds(profiles[1..], id);
      assert forall j :: 0 < j < |profiles| ==> profiles[j] == profiles[1..][j - 1];
    }
  }

  function SwitchTo(s: State, id: Bytes): Step {
    if !s.authenticated || s.rootPrimaryKey.None? then (Err("Cannot switch profile"), s)
    else if AllZero(id) then
      (Ok(()), s.(activeProfileId := DEFAULT_PROFILE_ID,
                  underlying := Some(Built(s.rootPrimaryKey.value, None, DEFAULT_PROFILE_ID))))
    else
      FindProfileFinds(s.profiles, id);
      match FindProfile(s.profiles, id)
      case None => (Err("Profile not found."), s)
      case Some(i) =>
        match Xor(s.rootPrimaryKey.value, s.profiles[i].primaryPad)
        case Err(e) => (Err(e), s)
        case Ok(key) =>
          (Ok(()), s.(activeProfileId := id, underlying := Some(Built(key, Some(s.profiles[i].privilegedPad), id))))
  }

  predicate Ready(s: State) { s.authenticated && s.rootPrimaryKey.Some? && s.token.Some? }

  /** The root privileged key as the key manager returns it: converted from a private key. */
  function PrivilegedKey(c: Crypto, s: State, prompt: string): Result<Bytes>
    requires Ready(s)
  {
    var key :- if s.privileged.Some? then Ok(s.privileged.value)
               else PrivilegedFromPassword(c, s.token.value, s.rootPrimaryKey.value, prompt);
    Ok(Converted(key))
  }

  /** The key of the active profile's own key manager: the root key with the profile's pad applied, if it has one. */
  function ProfilePrivilegedKey(c: Crypto, s: State, prompt: string): Result<Bytes>
    requires Ready(s) && s.underlying.Some?
  {
    var root :- PrivilegedKey(c, s, prompt);
    if s.underlying.value.privilegedPad.None? then Ok(root)
    else
      var key :- Xor(root, s.underlying.value.privilegedPad.value);
      Ok(Converted(key))
  }

  /** getFactor: a factor encrypted in the token. */
  function Factor(c: Crypto, s: State, prompt: string, ciphertext: Bytes): Result<Bytes>
    requires Ready(s)
  {
    var privileged :- PrivilegedKey(c, s, prompt);
    match c.unwrap(privileged, ciphertext) case Some(m) => Ok(m) case None => Err("Failed to decrypt factor")
  }

  /** updateAuthFactors: wraps the keys anew and replaces the published token. */
  function Update(c: Crypto, s: State, salt: Bytes, k: Keys, env: Env): Step
    requires Ready(s)
  {
    if s.token.value.currentOutpoint.None? || s.token.value.currentOutpoint.value == "" then
      (Err("Old token has no outpoint."), s)
    else
      match Wrap(c, salt, k, s.profiles, s.token.value.passwordKdf, env.ivs)
      case Err(e) => (Err(e), s)
      case Ok(t) => Replace(s, t, env)
  }

  /** Publishes from the default profile's wallet, and returns to the active profile. */
  function Replace(s: State, t: Token, env: Env): Step {
    if AllZero(s.activeProfileId) then
      if s.underlying.None? then (Err("Default profile wallet could not be activated"), s) else Publish(s, t, env)
    else
      var published := Publish(SwitchTo(s, DEFAULT_PROFILE_ID).1, t, env);
      var back := SwitchTo(published.1, s.activeProfileId);
      if back.0.Err? then back else (published.0, back.1)
  }

  function Publish(s: State, t: Token, env: Env): Step {
    match env.published
    case None => (Err("Publishing failed"), s)
    case Some(outpoint) => (Ok(()), s.(token := Some(t.(currentOutpoint := Some(outpoint)))))
  }

  /** Updates with the keys, if they could be obtained. */
  function UpdateWith(c: Crypto, s: State, salt: Bytes, keys: Result<Keys>, env: Env): Step
    requires Ready(s)
  {
    match keys case Err(e) => (Err(e), s) case Ok(k) => Update(c, s, salt, k, env)
  }

  datatype Op =
    | ChangePassword(newPassword: string, salt: Bytes, env: Env)
    | ChangePresentationKey(newKey: Bytes, env: Env)
    | ChangeRecoveryKey(newKey: Bytes, env: Env)
    | AddProfile(profile: Profile, env: Env)
    | DeleteProfile(profileId: Bytes, env: Env)
    | SwitchProfile(profileId: Bytes)

  function PasswordChange(c: Crypto, s: State, config: Kdf, newPassword: string, salt: Bytes,
                          prompt: string): Result<Keys>
    requires Ready(s)
  {
    var core := s.token.value.core;
    var kdf := if s.token.value.passwordKdf.Some? then s.token.value.passwordKdf else Some(config);
    var passwordKey :- Derive(c, salt, kdf, newPassword);
    var recoveryKey :- Factor(c, s, prompt, core.recoveryKeyEncrypted);
    var presentationKey :- Factor(c, s, prompt, core.presentationKeyEncrypted);
    var privileged :- PrivilegedKey(c, s, prompt);
    Ok(Keys(passwordKey, presentationKey, recoveryKey, s.rootPrimaryKey.value, privileged))
  }

  function PresentationChange(c: Crypto, s: State, newKey: Bytes, prompt: string): Result<Keys>
    requires Ready(s)
  {
    var recoveryKey :- Factor(c, s, prompt, s.token.value.core.recoveryKeyEncrypted);
    var passwordKey :- Factor(c, s, prompt, s.token.value.core.passwordKeyEncrypted);
    var privileged :- PrivilegedKey(c, s, prompt);
    Ok(Keys(passwordKey, newKey, recoveryKey, s.rootPrimaryKey.value, privileged))
  }

  function RecoveryChange(c: Crypto, s: State, newKey: Bytes, prompt: string): Result<Keys>
    requires Ready(s)
  {
    var passwordKey :- Factor(c, s, prompt, s.token.value.core.passwordKeyEncrypted);
    var presentationKey :- Factor(c, s, prompt, s.token.value.core.presentationKeyEncrypted);
    var privileged :- PrivilegedKey(c, s, prompt);
    Ok(Keys(passwordKey, presentationKey, newKey, s.rootPrimaryKey.value, privileged))
  }

  function SameKeys(c: Crypto, s: State, prompt: string): Result<Keys>
    requires Ready(s)
  {
    var passwordKey :- Factor(c, s, prompt, s.token.value.core.passwordKeyEncrypted);
    var presentationKey :- Factor(c, s, prompt, s.token.value.core.presentationKeyEncrypted);
    var recoveryKey :- Factor(c, s, prompt, s.token.value.core.recoveryKeyEncrypted);
    var privileged :- PrivilegedKey(c, s, prompt);
    Ok(Keys(passwordKey, presentationKey, recoveryKey, s.rootPrimaryKey.value, privileged))
  }

  predicate NameInUse(c: Crypto, profiles: seq<Profile>, name: string) {
    name == "default" || exists i :: 0 <= i < |profiles| && c.lowerCase(profiles[i].name) == c.lowerCase(name)
  }

  /** The presentation key kept in memory follows a successful change. */
  function Remembered(step: Step, newKey: Bytes): Step {
    if step.0.Ok? && step.1.presentationKey.Some? then (step.0, step.1.(presentationKey := Some(newKey))) else step
  }

  /** The profile is gone from memory, and if it was active the default one is. */
  function Removed(s: State, i: nat, id: Bytes): Step
    requires i < |s.profiles|
  {
    var rest := s.(profiles := s.profiles[..i] + s.profiles[i + 1..]);
    if s.activeProfileId <= id then SwitchTo(rest, DEFAULT_PROFILE_ID) else (Ok(()), rest)
  }

  /** Wraps the same keys again, with the profiles now in memory. */
  function SaveProfiles(c: Crypto, s: State, env: Env): Step
    requires Ready(s)
  {
    UpdateWith(c, s, s.token.value.core.passwordSalt, SameKeys(c, s, env.prompt), env)
  }

  function Add(c: Crypto, s: State, profile: Profile, env: Env): Step
    requires Ready(s)
  {
    if NameInUse(c, s.profiles, profile.name) then (Err("Profile name is already in use."), s)
    else SaveProfiles(c, s.(profiles := s.profiles + [profile]), env)
  }

  function Delete(c: Crypto, s: State, id: Bytes, env: Env): Step
    requires Ready(s)
  {
    if AllZero(id) then (Err("Cannot delete the default profile."), s)
    else
      FindProfileFinds(s.profiles, id);
      match FindProfile(s.profiles, id)
      case None => (Err("Profile not found."), s)
      case Some(i) =>
        var removed := Removed(s, i, id);
        if removed.0.Err? then removed else SaveProfiles(c, removed.1, env)
  }

  function Apply(c: Crypto, config: Kdf, s: State, op: Op): Step {
    if op.SwitchProfile? then SwitchTo(s, op.profileId)
    else if !Ready(s) then (Err("Not authenticated or missing required data."), s)
    else
      var salt := s.token.value.core.passwordSalt;
      match op
      case ChangePassword(password, newSalt, env) =>
        UpdateWith(c, s, newSalt, PasswordChange(c, s, config, password, newSalt, env.prompt), env)
      case ChangePresentationKey(key, env) =>
        if |key| != 32 then (Err("Presentation key must be 32 bytes."), s)
        else Remembered(UpdateWith(c, s, salt, PresentationChange(c, s, key, env.prompt), env), key)
      case ChangeRecoveryKey(key, env) =>
        UpdateWith(c, s, salt, RecoveryChange(c, s, key, env.prompt), env)
      case AddProfile(profile, env) => Add(c, s, profile, env)
      case DeleteProfile(id, env) => Delete(c, s, id, env)
  }

  // ----- Logging in

  /** setupRootInfrastructure */
  function SetupRoot(c: Crypto, s: State, primary: Bytes, ephemeral: Option<Bytes>): Step {
    if s.token.None? then (Err("A UMP token must exist before setting up root infrastructure!"), s)
    else
      var started := s.(rootPrimaryKey := Some(primary), privileged := ephemeral, profiles := []);
      match TokenProfiles(c, s.token.value, primary)
      case None => (Err("Failed to load profiles"), started)
      case Some(profiles) => (Ok(()), started.(profiles := profiles, authenticated := true))
  }

  function SetupAndSwitch(c: Crypto, s: State, primary: Bytes, ephemeral: Option<Bytes>, id: Bytes): Step {
    var root := SetupRoot(c, s, primary, ephemeral);
    if root.0.Err? then root else SwitchTo(root.1, id)
  }

  /** Random values of the new-user flow. */
  datatype Fresh = Fresh(recovery: Bytes, salt: Bytes, primary: Bytes, privileged: Bytes)

  /** handleNewUserPassword, in the mode it requires; funded is false when the funder throws. */
  function NewUser(c: Crypto, config: Kdf, s: State, password: string, r: Fresh, funded: bool, env: Env): Step {
    if s.presentationKey.None? then (Err("No presentation key provided for new-user flow."), s)
    else
      match Derive(c, r.salt, Some(config), password)
      case Err(e) => (Err(e), s)
      case Ok(passwordKey) =>
        var k := Keys(passwordKey, s.presentationKey.value, r.recovery, r.primary, r.privileged);
        match Wrap(c, r.salt, k, [], Some(config), env.ivs)
        case Err(e) => (Err(e), s)
        case Ok(t) =>
          var ready := SetupAndSwitch(c, s.(token := Some(t)), r.primary, None, DEFAULT_PROFILE_ID);
          if ready.0.Err? then ready
          else if !funded then (Err("Failed to fund new wallet before publishing UMP token"), ready.1)
          else Publish(ready.1, t, env)
  }

  datatype Mode = PresentationAndPassword | PresentationAndRecovery | RecoveryAndPassword

  /** Logging in with the factors kept in the state and a password or recovery key, on the token found for them. */
  function Login(c: Crypto, s: State, mode: Mode, password: string, recovery: Bytes): Step {
    if s.token.None? then (Err("Provide presentation or recovery key first."), s)
    else match mode
      case PresentationAndPassword =>
        if s.presentationKey.None? then (Err("No presentation key found!"), s)
        else (match UnlockWithPresentationAndPassword(c, s.token.value, s.presentationKey.value, password)
              case Err(e) => (Err(e), s)
              case Ok(primary) => SetupAndSwitch(c, s, primary, None, s.activeProfileId))
      case RecoveryAndPassword =>
        if s.recoveryKey.None? then (Err("No recovery key found!"), s)
        else (match UnlockWithRecoveryAndPassword(c, s.token.value, s.recoveryKey.value, password)
              case Err(e) => (Err(e), s)
              case Ok(keys) => SetupAndSwitch(c, s, keys.0, Some(keys.1), s.activeProfileId))
      case PresentationAndRecovery =>
        if s.presentationKey.None? then (Err("Provide the presentation key first"), s)
        else (match UnlockWithPresentationAndRecovery(c, s.token.value, s.presentationKey.value, recovery)
              case Err(e) => (Err(e), s)
              case Ok(keys) => SetupAndSwitch(c, s, keys.0, Some(keys.1), s.activeProfileId))
  }

  // ----- What every run keeps

  /** What the user knows and holds: the password, and the keys it stands for or unlocks. */
  datatype Known = Known(password: string, keys: Keys)

  ghost predicate TokenWraps(c: Crypto, t: Token, known: Known) {
    Wraps(c, t, known) && t.currentOutpoint.Some? && t.currentOutpoint.value != ""
  }

  predicate WellSized(p: Profile) { |p.id| == 16 && |p.primaryPad| == 32 && |p.privilegedPad| == 32 }

  predicate ActiveExists(s: State) {
    && (forall i :: 0 <= i < |s.profiles| ==> WellSized(s.profiles[i]))
    && |s.activeProfileId| == 16 && (AllZero(s.activeProfileId) || FindProfile(s.profiles, s.activeProfileId).Some?)
  }

  /**
   * The wallet of the active profile: its key is the root key under the primary pad, and its pad
   * the privileged one.
   */
  predicate WalletOfActive(s: State, root: Bytes, b: Built) {
    if AllZero(s.activeProfileId) then b == Built(root, None, DEFAULT_PROFILE_ID)
    else
      var i := FindProfile(s.profiles, s.activeProfileId);
      && i.Some? && i.value < |s.profiles| && |s.profiles[i.value].primaryPad| == |root|
      && b.primaryKey == XorBytes(root, s.profiles[i.value].primaryPad)
      && b.privilegedPad == Some(s.profiles[i.value].privilegedPad) && b.profileId == s.activeProfileId
  }

  predicate HasWallet(s: State) {
    s.rootPrimaryKey.Some? && s.underlying.Some? && WalletOfActive(s, s.rootPrimaryKey.value, s.underlying.value)
  }

  ghost predicate Inv(c: Crypto, s: State, known: Known) {
    && Ready(s) && HasWallet(s) && TokenWraps(c, s.token.value, known)
    && s.rootPrimaryKey == Some(known.keys.primary) && |known.keys.primary| == 32
    && (s.privileged.Some? ==> Converted(s.privileged.value) == Converted(known.keys.privileged))
    && ActiveExists(s)
  }

  predicate WellFormed(op: Op) {
    match op
    case SwitchProfile(id) => |id| == 16
    case AddProfile(p, env) => WellSized(p) && env.published != Some("")
    case _ => op.env.published != Some("")
  }

  /** Once a token is wrapped anew the privileged key in it is the converted one. */
  function Rewrapped(known: Known): Known {
    known.(keys := known.keys.(privileged := Converted(known.keys.privileged)))
  }

  /** What the user knows after the operation succeeded. */
  function Learned(c: Crypto, s: State, op: Op, known: Known): Known {
    var same := Rewrapped(known);
    match op
    case ChangePassword(password, salt, _) =>
      if s.token.Some? && Derive(c, salt, s.token.value.passwordKdf, password).Ok? then
        Known(password, same.keys.(password := Derive(c, salt, s.token.value.passwordKdf, password).value))
      else same
    case ChangePresentationKey(key, _) => same.(keys := same.keys.(presentation := key))
    case ChangeRecoveryKey(key, _) => same.(keys := same.keys.(recovery := key))
    case SwitchProfile(_) => known
    case _ => same
  }

  function After(c: Crypto, config: Kdf, s: State, op: Op, known: Known): Known {
    if Apply(c, config, s, op).0.Ok? then Learned(c, s, op, known) else known
  }

  /** Two states that differ at most in the profiles, the active profile and its wallet. */
  predicate SameSession(s: State, u: State) {
    && u.authenticated == s.authenticated && u.token == s.token && u.rootPrimaryKey == s.rootPrimaryKey
    && u.privileged == s.privileged && u.presentationKey == s.presentationKey && u.recoveryKey == s.recoveryKey
  }

  lemma SameSessionKeeps(c: Crypto, s: State, u: State, known: Known)
    requires Inv(c, s, known) && SameSession(s, u) && HasWallet(u) && ActiveExists(u)
    ensures Inv(c, u, known)
  {
  }

  lemma SwitchSelects(s: State, id: Bytes)
    requires Ready(s) && HasWallet(s) && |s.rootPrimaryKey.value| == 32 && ActiveExists(s) && |id| == 16
    ensures var u := SwitchTo(s, id).1;
            SameSession(s, u) && u.profiles == s.profiles && HasWallet(u) && ActiveExists(u)
    ensures SwitchTo(s, id).0.Ok? <==> AllZero(id) || FindProfile(s.profiles, id).Some?
    ensures SwitchTo(s, id).0.Ok? && !AllZero(id) ==> SwitchTo(s, id).1.activeProfileId == id
  {
    if !AllZero(id) {
      FindProfileFinds(s.profiles, id);
      if FindProfile(s.profiles, id).Some? {
        assert WellSized(s.profiles[FindProfile(s.profiles, id).value]);
      }
    }
  }

  lemma SwitchKeeps(c: Crypto, s: State, id: Bytes, known: Known)
    requires Inv(c, s, known) && |id| == 16
    ensures Inv(c, SwitchTo(s, id).1, known)
    ensures SwitchTo(s, id).1.profiles == s.profiles && SwitchTo(s, id).1.presentationKey == s.presentationKey
    ensures SwitchTo(s, id).0.Ok? <==> AllZero(id) || FindProfile(s.profiles, id).Some?
    ensures SwitchTo(s, id).0.Ok? && !AllZero(id) ==> SwitchTo(s, id).1.activeProfileId == id
  {
    SwitchSelects(s, id);
    SameSessionKeeps(c, s, SwitchTo(s, id).1, known);
  }

  /** Factors obtained from the token are the known ones, whatever password is typed. */
  lemma FactorsAreKnown(c: Crypto, s: State, prompt: string, known: Known)
    requires Inv(c, s, known)
    ensures PrivilegedKey(c, s, prompt).Ok? ==> PrivilegedKey(c, s, prompt).value == Converted(known.keys.privileged)
    ensures SameKeys(c, s, prompt).Ok? <==> PrivilegedKey(c, s, prompt).Ok?
    ensures SameKeys(c, s, prompt).Ok? ==> SameKeys(c, s, prompt).value == Rewrapped(known).keys
  {
  }

  /** The token wraps the keys, but is not published yet. */
  ghost predicate Wraps(c: Crypto, t: Token, known: Known) {
    && Opens(c, t, known.keys, known.password) && HoldsFactors(c, t, known.keys, known.password)
    && RejectsOthers(c, t, known.keys) && t.passwordKdf.Some? && Encodable(t)
  }

  lemma OutpointIsNotWrapped(c: Crypto, t: Token, outpoint: string, known: Known)
    requires Wraps(c, t, known) && outpoint != ""
    ensures TokenWraps(c, t.(currentOutpoint := Some(outpoint)), known)
  {
    var u := t.(currentOutpoint := Some(outpoint));
    forall p | PrivilegedFromPassword(c, u, known.keys.primary, p).Ok?
      ensures PrivilegedFromPassword(c, u, known.keys.primary, p).value == known.keys.privileged
    {
      assert PrivilegedFromPassword(c, t, known.keys.primary, p) == PrivilegedFromPassword(c, u, known.keys.primary, p);
    }
  }

  /** The same root keys, the privileged one as a number. */
  predicate SameRoot(a: Known, b: Known) {
    a.keys.primary == b.keys.primary && Converted(a.keys.privileged) == Converted(b.keys.privileged)
  }

  lemma PublishKeeps(c: Crypto, s: State, t: Token, env: Env, known: Known, next: Known)
    requires Inv(c, s, known) && Wraps(c, t, next) && SameRoot(known, next) && env.published != Some("")
    ensures var p := Publish(s, t, env); Inv(c, p.1, if p.0.Ok? then next else known)
  {
    if env.published.Some? {
      OutpointIsNotWrapped(c, t, env.published.value, next);
    }
  }

  /** The published token is in place exactly if publishing succeeded; the rest of the state stays. */
  predicate Replaces(s: State, t: Token, env: Env, r: Step) {
    && (r.0.Ok? ==> env.published.Some? && r.1.token == Some(t.(currentOutpoint := env.published)))
    && (r.0.Err? ==> r.1.token == s.token)
    && r.1.profiles == s.profiles && r.1.presentationKey == s.presentationKey
  }

  lemma ReplaceReplaces(s: State, t: Token, env: Env)
    requires Ready(s) && HasWallet(s) && |s.rootPrimaryKey.value| == 32 && ActiveExists(s)
    ensures Replaces(s, t, env, Replace(s, t, env)) && (Replace(s, t, env).0.Ok? <==> env.published.Some?)
  {
    if !AllZero(s.activeProfileId) {
      var home := SwitchTo(s, DEFAULT_PROFILE_ID).1;
      SwitchSelects(s, DEFAULT_PROFILE_ID);
      SwitchSelects(Publish(home, t, env).1, s.activeProfileId);
    }
  }

  lemma ReplaceKeeps(c: Crypto, s: State, t: Token, env: Env, known: Known, next: Known)
    requires Inv(c, s, known) && Wraps(c, t, next) && SameRoot(known, next) && env.published != Some("")
    ensures var r := Replace(s, t, env); Inv(c, r.1, if r.0.Ok? then next else known)
  {
    if AllZero(s.activeProfileId) {
      PublishKeeps(c, s, t, env, known, next);
    } else {
      var home := SwitchTo(s, DEFAULT_PROFILE_ID).1;
      SwitchKeeps(c, s, DEFAULT_PROFILE_ID, known);
      PublishKeeps(c, home, t, env, known, next);
      var published := Publish(home, t, env);
      SwitchKeeps(c, published.1, s.activeProfileId, if published.0.Ok? then next else known);
    }
  }

  /** An update with keys of the same root: on success the new token wraps them, otherwise nothing is lost. */
  lemma UpdateKeeps(c: Crypto, s: State, salt: Bytes, next: Known, env: Env, known: Known)
    requires Lawful(c) && Inv(c, s, known) && env.published != Some("") && SameRoot(known, next)
    requires Derive(c, salt, s.token.value.passwordKdf, next.password) == Ok(next.keys.password)
    ensures var u := Update(c, s, salt, next.keys, env);
            && Inv(c, u.1, if u.0.Ok? then next else known)
            && (u.0.Ok? ==> TokenProfiles(c, u.1.token.value, known.keys.primary) == Some(s.profiles))
            && (u.0.Err? ==> u.1.token == s.token)
            && u.1.profiles == s.profiles && u.1.presentationKey == s.presentationKey
  {
    var kdf := s.token.value.passwordKdf;
    var w := Wrap(c, salt, next.keys, s.profiles, kdf, env.ivs);
    if w.Ok? {
      WrapMakesWrapped(c, salt, next, s.profiles, kdf, env.ivs);
      ReplaceKeeps(c, s, w.value, env, known, next);
      ReplaceReplaces(s, w.value, env);
      OutpointIsNotInProfiles(c, w.value, env.published, next.keys.primary);
    }
  }

  lemma OutpointIsNotInProfiles(c: Crypto, t: Token, outpoint: Option<string>, primary: Bytes)
    ensures TokenProfiles(c, t.(currentOutpoint := outpoint), primary) == TokenProfiles(c, t, primary)
  {
  }

  lemma WrapMakesWrapped(c: Crypto, salt: Bytes, next: Known, profiles: seq<Profile>, kdf: Option<Kdf>,
                         ivs: nat -> Bytes)
    requires Lawful(c) && kdf.Some? && Derive(c, salt, kdf, next.password) == Ok(next.keys.password)
    requires Wrap(c, salt, next.keys, profiles, kdf, ivs).Ok?
    ensures Wraps(c, Wrap(c, salt, next.keys, profiles, kdf, ivs).value, next)
    ensures TokenProfiles(c, Wrap(c, salt, next.keys, profiles, kdf, ivs).value, next.keys.primary) == Some(profiles)
  {
    WrapsEqualLengths(c, salt, next.keys, profiles, kdf, ivs);
    WrapOpens(c, salt, next.keys, profiles, kdf, ivs, next.password);
    WrapRejectsOthers(c, salt, next.keys, profiles, kdf, ivs);
  }

  lemma PasswordKeeps(c: Crypto, config: Kdf, s: State, op: Op, known: Known)
    requires Lawful(c) && Inv(c, s, known) && WellFormed(op) && op.ChangePassword?
    ensures Inv(c, Apply(c, config, s, op).1, After(c, config, s, op, known))
  {
    ConversionKeepsNumber(known.keys.privileged);
    FactorsAreKnown(c, s, op.env.prompt, known);
    if PasswordChange(c, s, config, op.newPassword, op.salt, op.env.prompt).Ok? {
      UpdateKeeps(c, s, op.salt, Learned(c, s, op, known), op.env, known);
    }
  }

  lemma RememberedKeeps(c: Crypto, step: Step, newKey: Bytes, known: Known)
    requires Inv(c, step.1, known)
    ensures Inv(c, Remembered(step, newKey).1, known) && Remembered(step, newKey).0 == step.0
  {
  }

  lemma PresentationIsLearned(c: Crypto, s: State, op: Op, known: Known)
    requires Inv(c, s, known) && op.ChangePresentationKey?
    ensures var keys := PresentationChange(c, s, op.newKey, op.env.prompt);
            keys.Ok? ==> keys.value == Learned(c, s, op, known).keys
  {
    FactorsAreKnown(c, s, op.env.prompt, known);
  }

  lemma PresentationKeeps(c: Crypto, config: Kdf, s: State, op: Op, known: Known)
    requires Lawful(c) && Inv(c, s, known) && WellFormed(op) && op.ChangePresentationKey?
    ensures Inv(c, Apply(c, config, s, op).1, After(c, config, s, op, known))
  {
    ConversionKeepsNumber(known.keys.privileged);
    PresentationIsLearned(c, s, op, known);
    if PresentationChange(c, s, op.newKey, op.env.prompt).Ok? {
      var next, salt := Learned(c, s, op, known), s.token.value.core.passwordSalt;
      UpdateKeeps(c, s, salt, next, op.env, known);
      var u := Update(c, s, salt, next.keys, op.env);
      RememberedKeeps(c, u, op.newKey, if u.0.Ok? then next else known);
    }
  }

  lemma RecoveryKeeps(c: Crypto, config: Kdf, s: State, op: Op, known: Known)
    requires Lawful(c) && Inv(c, s, known) && WellFormed(op) && op.ChangeRecoveryKey?
    ensures Inv(c, Apply(c, config, s, op).1, After(c, config, s, op, known))
  {
    ConversionKeepsNumber(known.keys.privileged);
    FactorsAreKnown(c, s, op.env.prompt, known);
    if RecoveryChange(c, s, op.newKey, op.env.prompt).Ok? {
      UpdateKeeps(c, s, s.token.value.core.passwordSalt, Learned(c, s, op, known), op.env, known);
    }
  }

  /** Every operation keeps the invariant for what the user knows afterwards. */
  lemma StepKeeps(c: Crypto, config: Kdf, s: State, op: Op, known: Known)
    requires Lawful(c) && Inv(c, s, known) && WellFormed(op)
    ensures Inv(c, Apply(c, config, s, op).1, After(c, config, s, op, known))
  {
    match op
    case ChangePassword(_, _, _) => PasswordKeeps(c, config, s, op, known);
    case ChangePresentationKey(_, _) => PresentationKeeps(c, config, s, op, known);
    case ChangeRecoveryKey(_, _) => RecoveryKeeps(c, config, s, op, known);
    case AddProfile(profile, env) => AddKeeps(c, s, profile, env, known);
    case DeleteProfile(id, env) => DeleteKeeps(c, s, id, env, known);
    case SwitchProfile(id) => SwitchKeeps(c, s, id, known);
  }

  lemma SavingKeeps(c: Crypto, s: State, env: Env, known: Known)
    requires Lawful(c) && Inv(c, s, known) && env.published != Some("")
    ensures var u := SaveProfiles(c, s, env);
            Inv(c, u.1, if u.0.Ok? then Rewrapped(known) else known) && u.1.profiles == s.profiles
            && (u.0.Ok? ==> TokenProfiles(c, u.1.token.value, known.keys.primary) == Some(s.profiles))
            && (u.0.Err? ==> u.1.token == s.token)
  {
    ConversionKeepsNumber(known.keys.privileged);
    FactorsAreKnown(c, s, env.prompt, known);
    if SameKeys(c, s, env.prompt).Ok? {
      UpdateKeeps(c, s, s.token.value.core.passwordSalt, Rewrapped(known), env, known);
    }
  }

  lemma AddedExists(s: State, profile: Profile)
    requires ActiveExists(s) && WellSized(profile) && HasWallet(s)
    ensures ActiveExists(s.(profiles := s.profiles + [profile])) && HasWallet(s.(profiles := s.profiles + [profile]))
  {
    var added := s.profiles + [profile];
    FindProfileFinds(s.profiles, s.activeProfileId);
    FindProfileFinds(added, s.activeProfileId);
    if !AllZero(s.activeProfileId) {
      var i, j := FindProfile(s.profiles, s.activeProfileId).value, FindProfile(added, s.activeProfileId);
      assert added[i].id <= s.activeProfileId;
      assert j == Some(i);
    }
  }

  lemma AddKeeps(c: Crypto, s: State, profile: Profile, env: Env, known: Known)
    requires Lawful(c) && Inv(c, s, known) && WellSized(profile) && env.published != Some("")
    ensures Inv(c, Add(c, s, profile, env).1, if Add(c, s, profile, env).0.Ok? then Rewrapped(known) else known)
  {
    var added := s.(profiles := s.profiles + [profile]);
    AddedExists(s, profile);
    SameSessionKeeps(c, s, added, known);
    SavingKeeps(c, added, env, known);
  }

  lemma {:induction false} FindInConcat(a: seq<Profile>, b: seq<Profile>, id: Bytes)
    ensures FindProfile(a, id).Some? ==> FindProfile(a + b, id) == FindProfile(a, id)
    ensures FindProfile(a, id).None? && FindProfile(b, id).None? ==> FindProfile(a + b, id).None?
    ensures FindProfile(a, id).None? && FindProfile(b, id).Some? ==>
              FindProfile(a + b, id) == Some(|a| + FindProfile(b, id).value)
  {
    if a == [] {
      assert a + b == b;
    } else {
      FindInConcat(a[1..], b, id);
      assert (a + b)[1..] == a[1..] + b && (a + b)[0] == a[0];
    }
  }

  /** Removing another profile moves the one that an id selects, if at all, one place down. */
  lemma FindAfterRemoval(profiles: seq<Profile>, id: Bytes, i: nat)
    requires i < |profiles| && FindProfile([profiles[i]], id).None? && FindProfile(profiles, id).Some?
    ensures var rest := profiles[..i] + profiles[i + 1..];
            var j := FindProfile(profiles, id).value;
            var k := if j < i then j else j - 1;
            FindProfile(rest, id) == Some(k) && j < |profiles| && 0 <= k < |rest| && rest[k] == profiles[j]
  {
    var a, b := profiles[..i], profiles[i + 1..];
    FindInConcat(a, [profiles[i]] + b, id);
    FindInConcat([profiles[i]], b, id);
    FindInConcat(a, b, id);
    FindProfileFinds(a, id);
    FindProfileFinds(profiles, id);
    assert profiles == a + ([profiles[i]] + b);
  }

  lemma RestExists(s: State, i: nat, id: Bytes)
    requires ActiveExists(s) && HasWallet(s) && i < |s.profiles| && s.profiles[i].id <= id && !(s.activeProfileId <= id)
    ensures ActiveExists(s.(profiles := s.profiles[..i] + s.profiles[i + 1..]))
    ensures HasWallet(s.(profiles := s.profiles[..i] + s.profiles[i + 1..]))
  {
    if !AllZero(s.activeProfileId) {
      assert WellSized(s.profiles[i]);
      assert FindProfile([s.profiles[i]][1..], s.activeProfileId).None?;
      FindAfterRemoval(s.profiles, s.activeProfileId, i);
    }
  }

  lemma RemovedKeeps(c: Crypto, s: State, i: nat, id: Bytes, known: Known)
    requires Inv(c, s, known) && i < |s.profiles| && s.profiles[i].id <= id
    ensures Removed(s, i, id).0.Ok? && Inv(c, Removed(s, i, id).1, known)
  {
    if !(s.activeProfileId <= id) {
      RestExists(s, i, id);
    }
    SameSessionKeeps(c, s, Removed(s, i, id).1, known);
  }

  lemma DeleteKeeps(c: Crypto, s: State, id: Bytes, env: Env, known: Known)
    requires Lawful(c) && Inv(c, s, known) && env.published != Some("")
    ensures Inv(c, Delete(c, s, id, env).1, if Delete(c, s, id, env).0.Ok? then Rewrapped(known) else known)
  {
    FindProfileFinds(s.profiles, id);
    if !AllZero(id) && FindProfile(s.profiles, id).Some? {
      var i := FindProfile(s.profiles, id).value;
      RemovedKeeps(c, s, i, id, known);
      SavingKeeps(c, Removed(s, i, id).1, env, known);
    }
  }

  function RunOps(c: Crypto, config: Kdf, s: State, ops: seq<Op>): State
    decreases |ops|
  {
    if ops == [] then s else RunOps(c, config, Apply(c, config, s, ops[0]).1, ops[1..])
  }

  function KnownAfter(c: Crypto, config: Kdf, s: State, ops: seq<Op>, known: Known): Known
    decreases |ops|
  {
    if ops == [] then known
    else KnownAfter(c, config, Apply(c, config, s, ops[0]).1, ops[1..], After(c, config, s, ops[0], known))
  }

  /** Some operation of the run has replaced the token. */
  predicate Updated(c: Crypto, config: Kdf, s: State, ops: seq<Op>)
    decreases |ops|
  {
    ops != [] && (var step := Apply(c, config, s, ops[0]);
                  (step.0.Ok? && !ops[0].SwitchProfile?) || Updated(c, config, step.1, ops[1..]))
  }

  lemma {:induction false} RunKeeps(c: Crypto, config: Kdf, s: State, ops: seq<Op>, known: Known)
    requires Lawful(c) && Inv(c, s, known) && forall i :: 0 <= i < |ops| ==> WellFormed(ops[i])
    ensures Inv(c, RunOps(c, config, s, ops), KnownAfter(c, config, s, ops, known))
    decreases |ops|
  {
    if ops != [] {
      StepKeeps(c, config, s, ops[0], known);
      RunKeeps(c, config, Apply(c, config, s, ops[0]).1, ops[1..], After(c, config, s, ops[0], known));
    }
  }

  lemma RootAfter(c: Crypto, config: Kdf, s: State, op: Op, known: Known)
    ensures After(c, config, s, op, known).keys.primary == known.keys.primary
    ensures After(c, config, s, op, known).keys.privileged
         == if Apply(c, config, s, op).0.Ok? && !op.SwitchProfile? then Converted(known.keys.privileged)
            else known.keys.privileged
  {
  }

  /** The root keys stay what they are, but for the conversion of the privileged one at the first replacement. */
  lemma {:induction false} RootAfterRun(c: Crypto, config: Kdf, s: State, ops: seq<Op>, known: Known)
    ensures KnownAfter(c, config, s, ops, known).keys.primary == known.keys.primary
    ensures KnownAfter(c, config, s, ops, known).keys.privileged
         == if Updated(c, config, s, ops) then Converted(known.keys.privileged) else known.keys.privileged
    decreases |ops|
  {
    if ops != [] {
      ConversionKeepsNumber(known.keys.privileged);
      RootAfter(c, config, s, ops[0], known);
      RootAfterRun(c, config, Apply(c, config, s, ops[0]).1, ops[1..], After(c, config, s, ops[0], known));
    }
  }

  // ----- Main results

  predicate RandomSizes(r: Fresh) { |r.recovery| == 32 && |r.salt| == 32 && |r.primary| == 32 && |r.privileged| == 32 }

  /** What a new user knows after setting up with these values. */
  function Registered(c: Crypto, config: Kdf, presentation: Bytes, password: string, r: Fresh): Known {
    var passwordKey := match Derive(c, r.salt, Some(config), password) case Ok(k) => k case Err(_) => [];
    Known(password, Keys(passwordKey, presentation, r.recovery, r.primary, r.privileged))
  }

  /**
   * Setting up a new user succeeds exactly when both given factors make 32-byte keys and the token
   * can be funded and published; the token then wraps the new root keys.
   */
  lemma NewUserSucceedsExactly(c: Crypto, config: Kdf, s: State, password: string, r: Fresh, funded: bool, env: Env)
    requires Lawful(c) && RandomSizes(r) && env.published != Some("")
    ensures var passwordKey := Derive(c, r.salt, Some(config), password);
            NewUser(c, config, s, password, r, funded, env).0.Ok? <==>
              && s.presentationKey.Some? && |s.presentationKey.value| == 32
              && passwordKey.Ok? && |passwordKey.value| == 32 && funded && env.published.Some?
    ensures var u := NewUser(c, config, s, password, r, funded, env);
            u.0.Ok? ==> Inv(c, u.1, Registered(c, config, s.presentationKey.value, password, r))
                        && TokenProfiles(c, u.1.token.value, r.primary) == Some(u.1.profiles)
  {
    var passwordKey := Derive(c, r.salt, Some(config), password);
    if s.presentationKey.Some? && passwordKey.Ok? {
      var known := Registered(c, config, s.presentationKey.value, password, r);
      WrapsEqualLengths(c, r.salt, known.keys, [], Some(config), env.ivs);
      var w := Wrap(c, r.salt, known.keys, [], Some(config), env.ivs);
      if w.Ok? {
        WrapMakesWrapped(c, r.salt, known, [], Some(config), env.ivs);
        if env.published.Some? {
          OutpointIsNotWrapped(c, w.value, env.published.value, known);
          OutpointIsNotInProfiles(c, w.value, env.published, r.primary);
        }
      }
    }
  }

  /**
   * After new-user setup and any password, presentation-key, recovery-key and profile changes --
   * successful or not -- the token opens to the original root keys under each pair of factors the
   * user then has, and under the primary key with the password.  The privileged key is the original
   * one as a number; its bytes are the original ones exactly if they do not start with a zero or no
   * change has replaced the token.
   */
  lemma RootKeysSurviveEveryRun(c: Crypto, config: Kdf, s: State, password: string, r: Fresh, funded: bool, env: Env,
                                ops: seq<Op>)
    requires Lawful(c) && RandomSizes(r) && env.published != Some("")
    requires NewUser(c, config, s, password, r, funded, env).0.Ok?
    requires forall i :: 0 <= i < |ops| ==> WellFormed(ops[i])
    ensures s.presentationKey.Some?
    ensures var start := NewUser(c, config, s, password, r, funded, env).1;
            var end := RunOps(c, config, start, ops);
            var now := KnownAfter(c, config, start, ops, Registered(c, config, s.presentationKey.value, password, r));
            var privileged := now.keys.privileged;
            && end.token.Some? && end.rootPrimaryKey == Some(r.primary)
            && UnlockWithPresentationAndPassword(c, end.token.value, now.keys.presentation, now.password) ==
               Ok(r.primary)
            && UnlockWithRecoveryAndPassword(c, end.token.value, now.keys.recovery, now.password) ==
               Ok((r.primary, privileged))
            && UnlockWithPresentationAndRecovery(c, end.token.value, now.keys.presentation, now.keys.recovery)
               == Ok((r.primary, privileged))
            && PrivilegedFromPassword(c, end.token.value, r.primary, now.password) == Ok(privileged)
            && Number(privileged) == Number(r.privileged)
            && (privileged == r.privileged <==> r.privileged[0] != 0 || !Updated(c, config, start, ops))
  {
    NewUserSucceedsExactly(c, config, s, password, r, funded, env);
    var start := NewUser(c, config, s, password, r, funded, env).1;
    var known := Registered(c, config, s.presentationKey.value, password, r);
    RunKeeps(c, config, start, ops, known);
    RootAfterRun(c, config, start, ops, known);
    ConversionKeepsNumber(r.privileged);
    assert Inv(c, RunOps(c, config, start, ops), KnownAfter(c, config, start, ops, known));
  }

  /** Whoever types the password gets the profile's privileged key exactly if the root one keeps its 32 bytes. */
  lemma ProfileKeyDerives(c: Crypto, s: State, known: Known)
    requires Inv(c, s, known)
    ensures ProfilePrivilegedKey(c, s, known.password)
         == if AllZero(s.activeProfileId) then Ok(Converted(known.keys.privileged))
            else if |Converted(known.keys.privileged)| != 32 then Err("XOR length mismatch")
            else Ok(Converted(XorBytes(Converted(known.keys.privileged), s.underlying.value.privilegedPad.value)))
  {
    FactorsAreKnown(c, s, known.password, known);
    if !AllZero(s.activeProfileId) {
      assert WellSized(s.profiles[FindProfile(s.profiles, s.activeProfileId).value]);
    }
  }

  /** The profile at i is the one that an id selects: the first with that id. */
  ghost predicate FirstWithId(profiles: seq<Profile>, id: Bytes, i: int) {
    0 <= i < |profiles| && profiles[i].id == id && forall j :: 0 <= j < i ==> profiles[j].id != id
  }

  lemma FindsFirstWithId(profiles: seq<Profile>, id: Bytes)
    requires (forall i :: 0 <= i < |profiles| ==> WellSized(profiles[i])) && |id| == 16
    ensures forall i: nat :: FirstWithId(profiles, id, i) <==> FindProfile(profiles, id) == Some(i)
    ensures FindProfile(profiles, id).Some? <==> exists i :: 0 <= i < |profiles| && profiles[i].id == id
  {
    FindProfileFinds(profiles, id);
    forall i | 0 <= i < |profiles|
      ensures profiles[i].id <= id <==> profiles[i].id == id
    {
      assert WellSized(profiles[i]);
    }
  }

  /** The state's wallet is built from the root key and the pads of the first profile with the active id. */
  ghost predicate BuiltForActive(s: State) {
    s.rootPrimaryKey.Some? && s.underlying.Some? &&
    var root, b := s.rootPrimaryKey.value, s.underlying.value;
    if AllZero(s.activeProfileId) then b == Built(root, None, DEFAULT_PROFILE_ID)
    else exists i :: && FirstWithId(s.profiles, s.activeProfileId, i) && |s.profiles[i].primaryPad| == |root|
                     && b.primaryKey == XorBytes(root, s.profiles[i].primaryPad)
                     && b.privilegedPad == Some(s.profiles[i].privilegedPad) && b.profileId == s.activeProfileId
  }

  lemma WalletIsBuilt(s: State)
    requires HasWallet(s) && ActiveExists(s)
    ensures BuiltForActive(s)
  {
    if !AllZero(s.activeProfileId) {
      FindsFirstWithId(s.profiles, s.activeProfileId);
      var i := FindProfile(s.profiles, s.activeProfileId).value;
      assert FirstWithId(s.profiles, s.activeProfileId, i);
    }
  }

  /**
   * Switching succeeds exactly for the default profile and the stored ids.  The new wallet's key is
   * the root key under the primary pad of the first profile with the id, and its key manager gets
   * that profile's privileged pad; the default wallet has the root key and no pad.
   */
  lemma SwitchBuildsTheProfile(s: State, id: Bytes)
    requires s.authenticated && s.rootPrimaryKey.Some? && |s.rootPrimaryKey.value| == 32 && |id| == 16
    requires forall i :: 0 <= i < |s.profiles| ==> WellSized(s.profiles[i])
    ensures SwitchTo(s, id).0.Ok? <==> AllZero(id) || exists i :: 0 <= i < |s.profiles| && s.profiles[i].id == id
    ensures var u := SwitchTo(s, id).1;
            if SwitchTo(s, id).0.Ok? then
              && BuiltForActive(u) && SameSession(s, u) && u.profiles == s.profiles
              && u.activeProfileId == (if AllZero(id) then DEFAULT_PROFILE_ID else id)
            else u == s
  {
    FindsFirstWithId(s.profiles, id);
    if !AllZero(id) && FindProfile(s.profiles, id).Some? {
      var i := FindProfile(s.profiles, id).value;
      assert FirstWithId(s.profiles, id, i) && WellSized(s.profiles[i]);
    }
  }

  /**
   * After any such run the wallet is that of the active profile, and a profile other than the
   * default one can derive its privileged key -- the root key under the profile's privileged pad --
   * exactly if the root key generated at set-up does not start with a zero byte; the default
   * profile's wallet always can.
   */
  lemma ProfileKeyDerivesExactly(c: Crypto, config: Kdf, s: State, password: string, r: Fresh, funded: bool, env: Env,
                                 ops: seq<Op>)
    requires Lawful(c) && RandomSizes(r) && env.published != Some("")
    requires NewUser(c, config, s, password, r, funded, env).0.Ok?
    requires forall i :: 0 <= i < |ops| ==> WellFormed(ops[i])
    ensures s.presentationKey.Some?
    ensures var start := NewUser(c, config, s, password, r, funded, env).1;
            var end := RunOps(c, config, start, ops);
            var now := KnownAfter(c, config, start, ops, Registered(c, config, s.presentationKey.value, password, r));
            && Ready(end) && BuiltForActive(end) && end.rootPrimaryKey == Some(r.primary)
            && (AllZero(end.activeProfileId) ==>
                ProfilePrivilegedKey(c, end, now.password) == Ok(Converted(r.privileged)))
            && (!AllZero(end.activeProfileId) ==>
                  exists i :: FirstWithId(end.profiles, end.activeProfileId, i) && WellSized(end.profiles[i])
                              && DerivesExactly(ProfilePrivilegedKey(c, end, now.password), r.privileged,
                                                end.profiles[i].privilegedPad))
  {
    NewUserSucceedsExactly(c, config, s, password, r, funded, env);
    var start := NewUser(c, config, s, password, r, funded, env).1;
    var known := Registered(c, config, s.presentationKey.value, password, r);
    RunKeeps(c, config, start, ops, known);
    RootAfterRun(c, config, start, ops, known);
    ConversionKeepsNumber(r.privileged);
    ActiveKeyDerives(c, RunOps(c, config, start, ops), KnownAfter(c, config, start, ops, known), r.privileged);
  }

  lemma ActiveKeyDerives(c: Crypto, s: State, known: Known, root: Bytes)
    requires Inv(c, s, known) && |root| == 32 && Converted(known.keys.privileged) == Converted(root)
    ensures BuiltForActive(s)
    ensures AllZero(s.activeProfileId) ==> ProfilePrivilegedKey(c, s, known.password) == Ok(Converted(root))
    ensures !AllZero(s.activeProfileId) ==>
              exists i :: FirstWithId(s.profiles, s.activeProfileId, i) && WellSized(s.profiles[i])
                          && DerivesExactly(ProfilePrivilegedKey(c, s, known.password), root,
                                            s.profiles[i].privilegedPad)
  {
    ProfileKeyDerives(c, s, known);
    WalletIsBuilt(s);
    if !AllZero(s.activeProfileId) {
      FindsFirstWithId(s.profiles, s.activeProfileId);
      var i := FindProfile(s.profiles, s.activeProfileId).value;
      assert FirstWithId(s.profiles, s.activeProfileId, i) && WellSized(s.profiles[i]);
      ConversionKeepsNumber(XorBytes(root, s.profiles[i].privilegedPad));
    }
  }

  /** The key is the root key under the pad, as a number, exactly if the root key does not start with a zero byte. */
  predicate DerivesExactly(key: Result<Bytes>, root: Bytes, pad: Bytes)
    requires |root| == |pad| == 32
  {
    && (key.Ok? <==> root[0] != 0)
    && (key.Ok? ==> Number(key.value) == Number(XorBytes(root, pad)))
  }

  lemma SwitchKeepsToken(s: State, id: Bytes)
    ensures SwitchTo(s, id).1.token == s.token
  {
  }

  lemma UpdateFails(c: Crypto, s: State, salt: Bytes, keys: Result<Keys>, env: Env)
    requires Ready(s) && env.published.None?
    ensures UpdateWith(c, s, salt, keys, env).0.Err? && UpdateWith(c, s, salt, keys, env).1.token == s.token
  {
    if keys.Ok? && Wrap(c, salt, keys.value, s.profiles, s.token.value.passwordKdf, env.ivs).Ok? &&
        !AllZero(s.activeProfileId) {
      var w := Wrap(c, salt, keys.value, s.profiles, s.token.value.passwordKdf, env.ivs).value;
      SwitchKeepsToken(s, DEFAULT_PROFILE_ID);
      SwitchKeepsToken(Publish(SwitchTo(s, DEFAULT_PROFILE_ID).1, w, env).1, s.activeProfileId);
    }
  }

  lemma SavingFails(c: Crypto, s: State, env: Env)
    requires Ready(s) && env.published.None?
    ensures SaveProfiles(c, s, env).0.Err? && SaveProfiles(c, s, env).1.token == s.token
  {
    UpdateFails(c, s, s.token.value.core.passwordSalt, SameKeys(c, s, env.prompt), env);
  }

  lemma RemovalKeepsToken(s: State, i: nat, id: Bytes)
    requires i < |s.profiles|
    ensures Removed(s, i, id).1.token == s.token
  {
    SwitchKeepsToken(s.(profiles := s.profiles[..i] + s.profiles[i + 1..]), DEFAULT_PROFILE_ID);
  }

  /** Whatever the state, an operation whose publication fails reports it and leaves the working token in place. */
  lemma FailedPublishKeepsToken(c: Crypto, config: Kdf, s: State, op: Op)
    requires !op.SwitchProfile? && op.env.published.None?
    ensures Apply(c, config, s, op).0.Err? && Apply(c, config, s, op).1.token == s.token
  {
    if Ready(s) {
      var salt := s.token.value.core.passwordSalt;
      match op
      case ChangePassword(password, newSalt, env) =>
        UpdateFails(c, s, newSalt, PasswordChange(c, s, config, password, newSalt, env.prompt), env);
      case ChangePresentationKey(key, env) => UpdateFails(c, s, salt, PresentationChange(c, s, key, env.prompt), env);
      case ChangeRecoveryKey(key, env) => UpdateFails(c, s, salt, RecoveryChange(c, s, key, env.prompt), env);
      case AddProfile(profile, env) => SavingFails(c, s.(profiles := s.profiles + [profile]), env);
      case DeleteProfile(id, env) => DeleteFails(c, s, id, env);
    }
  }

  lemma DeleteFails(c: Crypto, s: State, id: Bytes, env: Env)
    requires Ready(s) && env.published.None?
    ensures Delete(c, s, id, env).0.Err? && Delete(c, s, id, env).1.token == s.token
  {
    if !AllZero(id) && FindProfile(s.profiles, id).Some? {
      FindProfileFinds(s.profiles, id);
      var i := FindProfile(s.profiles, id).value;
      RemovalKeepsToken(s, i, id);
      SavingFails(c, Removed(s, i, id).1, env);
    }
  }

  /**
   * A new user whose first publication (or funding) fails is left with an unpublished token, which
   * no later operation can replace.
   */
  lemma UnpublishedTokenIsStuck(c: Crypto, config: Kdf, s: State, password: string, r: Fresh, funded: bool, env: Env,
                                op: Op)
    requires Lawful(c) && RandomSizes(r) && s.presentationKey.Some? && |s.presentationKey.value| == 32
    requires Derive(c, r.salt, Some(config), password).Ok? && |Derive(c, r.salt, Some(config), password).value| == 32
    requires !funded || env.published.None?
    requires !op.SwitchProfile?
    ensures var u := NewUser(c, config, s, password, r, funded, env);
            && u.0.Err? && u.1.authenticated && u.1.token.Some? && u.1.token.value.currentOutpoint.None?
            && Apply(c, config, u.1, op).0.Err? && Apply(c, config, u.1, op).1.token == u.1.token
  {
    var u := NewUser(c, config, s, password, r, funded, env).1;
    var known := Registered(c, config, s.presentationKey.value, password, r);
    WrapsEqualLengths(c, r.salt, known.keys, [], Some(config), env.ivs);
    assert Ready(u);
    StuckWithoutOutpoint(c, config, u, op);
  }

  lemma StuckWithoutOutpoint(c: Crypto, config: Kdf, s: State, op: Op)
    requires Ready(s) && s.token.value.currentOutpoint.None? && !op.SwitchProfile?
    ensures Apply(c, config, s, op).0.Err? && Apply(c, config, s, op).1.token == s.token
  {
    if op.DeleteProfile? {
      FindProfileFinds(s.profiles, op.profileId);
    }
  }

  /** The token holds the profiles that are in memory. */
  predicate Synced(c: Crypto, s: State) {
    s.token.Some? && s.rootPrimaryKey.Some? &&
        TokenProfiles(c, s.token.value, s.rootPrimaryKey.value) == Some(s.profiles)
  }

  /** A successful update of profiles writes the ones in memory, also those an earlier failed update left there. */
  lemma SavingSyncs(c: Crypto, s: State, env: Env, known: Known)
    requires Lawful(c) && Inv(c, s, known) && env.published != Some("") && SaveProfiles(c, s, env).0.Ok?
    ensures Synced(c, SaveProfiles(c, s, env).1) && SaveProfiles(c, s, env).1.profiles == s.profiles
  {
    SavingKeeps(c, s, env, known);
  }

  lemma SavedExactlyWhenPublished(c: Crypto, s: State, env: Env, known: Known)
    requires Lawful(c) && Inv(c, s, known) && !Synced(c, s) && env.published != Some("") && env.prompt == known.password
    ensures var u := SaveProfiles(c, s, env);
            && u.1.profiles == s.profiles
            && (u.0.Ok? <==> env.published.Some?) && (Synced(c, u.1) <==> env.published.Some?)
  {
    SavingKeeps(c, s, env, known);
    if env.published.Some? {
      SavingSucceeds(c, s, env, known);
    } else {
      SavingFails(c, s, env);
    }
  }

  /** Adding a profile with a free name: memory has it even if publishing fails, the token only if it succeeds. */
  lemma AddedProfileIsSavedExactlyWhenPublished(c: Crypto, s: State, profile: Profile, env: Env, known: Known)
    requires Lawful(c) && Inv(c, s, known) && Synced(c, s) && WellSized(profile) && env.published != Some("")
    requires !NameInUse(c, s.profiles, profile.name) && env.prompt == known.password
    ensures var a := Add(c, s, profile, env);
            && a.1.profiles == s.profiles + [profile]
            && (a.0.Ok? <==> env.published.Some?) && (Synced(c, a.1) <==> env.published.Some?)
  {
    var added := s.(profiles := s.profiles + [profile]);
    AddedExists(s, profile);
    SameSessionKeeps(c, s, added, known);
    assert added.profiles != s.profiles by { assert |added.profiles| == |s.profiles| + 1; }
    SavedExactlyWhenPublished(c, added, env, known);
  }

  /** No two profiles have the same name but for case, and none is called "default". */
  ghost predicate DistinctNames(c: Crypto, profiles: seq<Profile>) {
    && (forall i, j :: 0 <= i < j < |profiles| ==> c.lowerCase(profiles[i].name) != c.lowerCase(profiles[j].name))
    && (forall i :: 0 <= i < |profiles| ==> profiles[i].name != "default")
  }

  lemma UpdateKeepsProfiles(c: Crypto, s: State, salt: Bytes, keys: Result<Keys>, env: Env)
    requires Ready(s)
    ensures UpdateWith(c, s, salt, keys, env).1.profiles == s.profiles
  {
    if keys.Ok? {
      var w := Wrap(c, salt, keys.value, s.profiles, s.token.value.passwordKdf, env.ivs);
      if w.Ok? {
        ReplaceLeaves(s, w.value, env);
      }
    }
  }

  /** Whatever happens to the token, the profiles and the remembered presentation key stay. */
  lemma ReplaceLeaves(s: State, t: Token, env: Env)
    ensures Replace(s, t, env).1.profiles == s.profiles && Replace(s, t, env).1.presentationKey == s.presentationKey
  {
    if !AllZero(s.activeProfileId) {
      var published := Publish(SwitchTo(s, DEFAULT_PROFILE_ID).1, t, env);
      SwitchLeaves(s, DEFAULT_PROFILE_ID);
      SwitchLeaves(published.1, s.activeProfileId);
    }
  }

  lemma SwitchLeaves(s: State, id: Bytes)
    ensures SwitchTo(s, id).1.profiles == s.profiles && SwitchTo(s, id).1.presentationKey == s.presentationKey
  {
  }

  lemma StepKeepsNames(c: Crypto, config: Kdf, s: State, op: Op)
    requires DistinctNames(c, s.profiles)
    ensures DistinctNames(c, Apply(c, config, s, op).1.profiles)
    ensures op.AddProfile? && Ready(s) ==>
              (Apply(c, config, s, op).1.profiles == s.profiles + [op.profile]
               <==> op.profile.name != "default"
                    && forall i :: 0 <= i < |s.profiles| ==>
                         c.lowerCase(s.profiles[i].name) != c.lowerCase(op.profile.name))
  {
    if op.AddProfile? && Ready(s) {
      var added := s.(profiles := s.profiles + [op.profile]);
      UpdateKeepsProfiles(c, added, s.token.value.core.passwordSalt, SameKeys(c, added, op.env.prompt), op.env);
    } else if op.DeleteProfile? && Ready(s) {
      DeleteKeepsNames(c, s, op.profileId, op.env);
    } else if !op.SwitchProfile? && Ready(s) {
      ChangeKeepsProfiles(c, config, s, op);
    }
  }

  lemma ChangeKeepsProfiles(c: Crypto, config: Kdf, s: State, op: Op)
    requires op.ChangePassword? || op.ChangePresentationKey? || op.ChangeRecoveryKey?
    ensures Apply(c, config, s, op).1.profiles == s.profiles
  {
    if Ready(s) {
      var salt := s.token.value.core.passwordSalt;
      match op
      case ChangePassword(password, newSalt, env) =>
        UpdateKeepsProfiles(c, s, newSalt, PasswordChange(c, s, config, password, newSalt, env.prompt), env);
      case ChangePresentationKey(key, env) =>
        var step := UpdateWith(c, s, salt, PresentationChange(c, s, key, env.prompt), env);
        UpdateKeepsProfiles(c, s, salt, PresentationChange(c, s, key, env.prompt), env);
        assert Remembered(step, key).1.profiles == step.1.profiles;
      case ChangeRecoveryKey(key, env) =>
        UpdateKeepsProfiles(c, s, salt, RecoveryChange(c, s, key, env.prompt), env);
    }
  }

  lemma DeleteKeepsNames(c: Crypto, s: State, id: Bytes, env: Env)
    requires Ready(s) && DistinctNames(c, s.profiles)
    ensures DistinctNames(c, Delete(c, s, id, env).1.profiles)
  {
    FindProfileFinds(s.profiles, id);
    if !AllZero(id) && FindProfile(s.profiles, id).Some? {
      var i := FindProfile(s.profiles, id).value;
      RemovedChangesProfiles(s, i, id);
      if Removed(s, i, id).0.Ok? {
        var u := Removed(s, i, id).1;
        UpdateKeepsProfiles(c, u, u.token.value.core.passwordSalt, SameKeys(c, u, env.prompt), env);
      }
    }
  }

  /** Names stay distinct over every run: a profile is added exactly if its name is free. */
  lemma {:induction false} NamesStayDistinct(c: Crypto, config: Kdf, s: State, ops: seq<Op>)
    requires DistinctNames(c, s.profiles)
    ensures DistinctNames(c, RunOps(c, config, s, ops).profiles)
    decreases |ops|
  {
    if ops != [] {
      StepKeepsNames(c, config, s, ops[0]);
      NamesStayDistinct(c, config, Apply(c, config, s, ops[0]).1, ops[1..]);
    }
  }

  lemma RemovedChangesProfiles(s: State, i: nat, id: Bytes)
    requires i < |s.profiles|
    ensures var u := Removed(s, i, id).1;
            && u.profiles == s.profiles[..i] + s.profiles[i + 1..] && u.profiles != s.profiles
            && u.token == s.token && u.rootPrimaryKey == s.rootPrimaryKey
  {
    assert |s.profiles[..i] + s.profiles[i + 1..]| == |s.profiles| - 1;
  }

  /** Deleting a profile: memory loses it even if publishing fails, the token only if it succeeds. */
  lemma DeletedProfileIsSavedExactlyWhenPublished(c: Crypto, s: State, id: Bytes, env: Env, known: Known)
    requires Lawful(c) && Inv(c, s, known) && Synced(c, s) && env.published != Some("")
    requires !AllZero(id) && FindProfile(s.profiles, id).Some? && env.prompt == known.password
    ensures FindProfile(s.profiles, id).value < |s.profiles|
    ensures var i := FindProfile(s.profiles, id).value;
            var d := Delete(c, s, id, env);
            && d.1.profiles == s.profiles[..i] + s.profiles[i + 1..]
            && (d.0.Ok? <==> env.published.Some?) && (Synced(c, d.1) <==> env.published.Some?)
            && d.1.activeProfileId == if s.activeProfileId == s.profiles[i].id then DEFAULT_PROFILE_ID
               else s.activeProfileId
  {
    FindProfileFinds(s.profiles, id);
    var i := FindProfile(s.profiles, id).value;
    RemovedKeeps(c, s, i, id, known);
    RemovedChangesProfiles(s, i, id);
    SavedExactlyWhenPublished(c, Removed(s, i, id).1, env, known);
    RemovalLeavesOnlyTheActive(s, i, id);
    SavingKeepsActive(c, Removed(s, i, id).1, env);
  }

  lemma RemovalLeavesOnlyTheActive(s: State, i: nat, id: Bytes)
    requires Ready(s) && ActiveExists(s) && i < |s.profiles| && s.profiles[i].id <= id
    ensures Removed(s, i, id).1.activeProfileId
         == if s.activeProfileId == s.profiles[i].id then DEFAULT_PROFILE_ID else s.activeProfileId
  {
    assert WellSized(s.profiles[i]);
    assert s.activeProfileId <= id <==> s.activeProfileId == s.profiles[i].id;
  }

  /** Saving leaves the active profile as it is, the default one in its own spelling. */
  lemma SavingKeepsActive(c: Crypto, s: State, env: Env)
    requires Ready(s) && HasWallet(s) && |s.rootPrimaryKey.value| == 32 && ActiveExists(s)
    ensures SaveProfiles(c, s, env).1.activeProfileId == s.activeProfileId
  {
    var keys := SameKeys(c, s, env.prompt);
    if keys.Ok? {
      var w := Wrap(c, s.token.value.core.passwordSalt, keys.value, s.profiles, s.token.value.passwordKdf, env.ivs);
      if w.Ok? {
        ReplaceKeepsActive(s, w.value, env);
      }
    }
  }

  lemma ReplaceKeepsActive(s: State, t: Token, env: Env)
    requires Ready(s) && HasWallet(s) && |s.rootPrimaryKey.value| == 32 && ActiveExists(s)
    ensures Replace(s, t, env).1.activeProfileId == s.activeProfileId
  {
    if !AllZero(s.activeProfileId) {
      var home := SwitchTo(s, DEFAULT_PROFILE_ID).1;
      SwitchSelects(s, DEFAULT_PROFILE_ID);
      SwitchSelects(Publish(home, t, env).1, s.activeProfileId);
    }
  }

  lemma SavingSucceeds(c: Crypto, s: State, env: Env, known: Known)
    requires Lawful(c) && Inv(c, s, known) && env.published.Some? && env.published != Some("") &&
             env.prompt == known.password
    ensures SaveProfiles(c, s, env).0.Ok?
  {
    FactorsAreKnown(c, s, env.prompt, known);
    var salt, kdf, keys := s.token.value.core.passwordSalt, s.token.value.passwordKdf, Rewrapped(known).keys;
    assert SameKeys(c, s, env.prompt) == Ok(keys);
    WrapsEqualLengths(c, salt, keys, s.profiles, kdf, env.ivs);
    ReplaceReplaces(s, Wrap(c, salt, keys, s.profiles, kdf, env.ivs).value, env);
  }

  lemma WrappingSucceeds(c: Crypto, s: State, salt: Bytes, keys: Keys, env: Env, known: Known)
    requires Inv(c, s, known) && env.published.Some? && Lawful(c)
    ensures Update(c, s, salt, keys, env).0.Ok? <==>
              |keys.presentation| == |keys.password| == |keys.recovery| == |keys.primary|
  {
    WrapsEqualLengths(c, salt, keys, s.profiles, s.token.value.passwordKdf, env.ivs);
    var w := Wrap(c, salt, keys, s.profiles, s.token.value.passwordKdf, env.ivs);
    if w.Ok? {
      ReplaceReplaces(s, w.value, env);
    }
  }

  /** What a change asks of its new factor: a password that derives a 32-byte key, or a 32-byte key. */
  predicate GoodFactor(c: Crypto, s: State, op: Op)
    requires s.token.Some? && (op.ChangePassword? || op.ChangePresentationKey? || op.ChangeRecoveryKey?)
  {
    match op
    case ChangePassword(password, salt, _) =>
      var key := Derive(c, salt, s.token.value.passwordKdf, password); key.Ok? && |key.value| == 32
    case ChangePresentationKey(key, _) => |key| == 32
    case ChangeRecoveryKey(key, _) => |key| == 32
  }

  lemma LearnedLengths(c: Crypto, s: State, op: Op, known: Known)
    requires Inv(c, s, known) && (op.ChangePassword? || op.ChangePresentationKey? || op.ChangeRecoveryKey?)
    requires op.ChangePassword? ==> Derive(c, op.salt, s.token.value.passwordKdf, op.newPassword).Ok?
    ensures var k := Learned(c, s, op, known).keys;
            |k.presentation| == |k.password| == |k.recovery| == |k.primary| <==> GoodFactor(c, s, op)
  {
  }

  lemma ChangeIsUpdate(c: Crypto, config: Kdf, s: State, op: Op, known: Known)
    requires Inv(c, s, known) && (op.ChangePassword? || op.ChangePresentationKey? || op.ChangeRecoveryKey?)
    requires op.env.prompt == known.password && (op.ChangePresentationKey? ==> |op.newKey| == 32)
    requires op.ChangePassword? ==> Derive(c, op.salt, s.token.value.passwordKdf, op.newPassword).Ok?
    ensures var salt := if op.ChangePassword? then op.salt else s.token.value.core.passwordSalt;
            Apply(c, config, s, op).0 == Update(c, s, salt, Learned(c, s, op, known).keys, op.env).0
  {
    FactorsAreKnown(c, s, op.env.prompt, known);
  }

  /**
   * Whoever types the right password can change each factor: a change succeeds exactly when its new
   * factor is good and the new token can be published.
   */
  lemma ChangesSucceedExactly(c: Crypto, config: Kdf, s: State, op: Op, known: Known)
    requires op.ChangePassword? || op.ChangePresentationKey? || op.ChangeRecoveryKey?
    requires Lawful(c) && Inv(c, s, known) && op.env.prompt == known.password
    ensures Apply(c, config, s, op).0.Ok? <==> op.env.published.Some? && GoodFactor(c, s, op)
  {
    if op.env.published.None? {
      FailedPublishKeepsToken(c, config, s, op);
    } else if op.ChangePassword? && Derive(c, op.salt, s.token.value.passwordKdf, op.newPassword).Err? {
      assert PasswordChange(c, s, config, op.newPassword, op.salt, op.env.prompt).Err?;
    } else if !(op.ChangePresentationKey? && |op.newKey| != 32) {
      var salt := if op.ChangePassword? then op.salt else s.token.value.core.passwordSalt;
      ChangeIsUpdate(c, config, s, op, known);
      LearnedLengths(c, s, op, known);
      WrappingSucceeds(c, s, salt, Learned(c, s, op, known).keys, op.env, known);
    }
  }

  // ----- The presentation key in memory

  lemma PresentationKeyStep(c: Crypto, config: Kdf, s: State, op: Op)
    ensures Apply(c, config, s, op).1.presentationKey
         == if s.presentationKey.Some? && op.ChangePresentationKey? && Apply(c, config, s, op).0.Ok?
            then Some(op.newKey) else s.presentationKey
  {
    if Ready(s) && !op.SwitchProfile? {
      var salt := s.token.value.core.passwordSalt;
      match op
      case ChangePassword(password, newSalt, env) =>
        UpdateKeepsPresentation(c, s, newSalt, PasswordChange(c, s, config, password, newSalt, env.prompt), env);
      case ChangePresentationKey(key, env) =>
        UpdateKeepsPresentation(c, s, salt, PresentationChange(c, s, key, env.prompt), env);
      case ChangeRecoveryKey(key, env) =>
        UpdateKeepsPresentation(c, s, salt, RecoveryChange(c, s, key, env.prompt), env);
      case AddProfile(profile, env) =>
        var added := s.(profiles := s.profiles + [profile]);
        UpdateKeepsPresentation(c, added, salt, SameKeys(c, added, env.prompt), env);
      case DeleteProfile(id, env) => DeleteKeepsPresentation(c, s, id, env);
    }
  }

  lemma UpdateKeepsPresentation(c: Crypto, s: State, salt: Bytes, keys: Result<Keys>, env: Env)
    requires Ready(s)
    ensures UpdateWith(c, s, salt, keys, env).1.presentationKey == s.presentationKey
  {
    if keys.Ok? {
      var w := Wrap(c, salt, keys.value, s.profiles, s.token.value.passwordKdf, env.ivs);
      if w.Ok? {
        ReplaceLeaves(s, w.value, env);
      }
    }
  }

  lemma DeleteKeepsPresentation(c: Crypto, s: State, id: Bytes, env: Env)
    requires Ready(s)
    ensures Delete(c, s, id, env).1.presentationKey == s.presentationKey
  {
    FindProfileFinds(s.profiles, id);
    if !AllZero(id) && FindProfile(s.profiles, id).Some? {
      var removed := Removed(s, FindProfile(s.profiles, id).value, id);
      if removed.0.Ok? {
        var u := removed.1;
        UpdateKeepsPresentation(c, u, u.token.value.core.passwordSalt, SameKeys(c, u, env.prompt), env);
      }
    }
  }

  /**
   * The presentation key that the manager keeps in memory is, after any run, still the one that
   * opens the token: changed with every successful change of it, and by nothing else.
   */
  lemma {:induction false} RememberedKeyIsCurrent(c: Crypto, config: Kdf, s: State, ops: seq<Op>, known: Known)
    requires s.presentationKey == Some(known.keys.presentation)
    ensures RunOps(c, config, s, ops).presentationKey == Some(KnownAfter(c, config, s, ops, known).keys.presentation)
    decreases |ops|
  {
    if ops != [] {
      PresentationKeyStep(c, config, s, ops[0]);
      RememberedKeyIsCurrent(c, config, Apply(c, config, s, ops[0]).1, ops[1..], After(c, config, s, ops[0], known));
    }
  }

  // ----- Updates outside the invariant

  /** An update needs a wallet: from the default profile it is refused without one. */
  lemma UpdateNeedsWallet(s: State, t: Token, env: Env)
    requires AllZero(s.activeProfileId) && s.underlying.None?
    ensures Replace(s, t, env).0.Err? && Replace(s, t, env).1 == s
  {
  }

  /**
   * When the active profile is not stored any more, an update from it reports that, though the
   * token may be replaced.
   */
  lemma FailedReturnIsReported(s: State, t: Token, env: Env)
    requires Ready(s) && !AllZero(s.activeProfileId) && FindProfile(s.profiles, s.activeProfileId).None?
    ensures var r := Replace(s, t, env);
            && r.0.Err? && AllZero(r.1.activeProfileId)
            && (r.1.token == if env.published.Some? then Some(t.(currentOutpoint := env.published)) else s.token)
  {
  }

  /** Logging in with any two factors restores the root key and the profiles in the token. */
  lemma LoginRestores(c: Crypto, s: State, mode: Mode, known: Known)
    requires s.token.Some? && TokenWraps(c, s.token.value, known)
    requires TokenProfiles(c, s.token.value, known.keys.primary).Some? && AllZero(s.activeProfileId)
    requires mode != RecoveryAndPassword ==> s.presentationKey == Some(known.keys.presentation)
    requires mode == RecoveryAndPassword ==> s.recoveryKey == Some(known.keys.recovery)
    ensures var l := Login(c, s, mode, known.password, known.keys.recovery);
            && l.0.Ok? && l.1.authenticated && l.1.rootPrimaryKey == Some(known.keys.primary) && Synced(c, l.1)
            && l.1.privileged == (if mode == PresentationAndPassword then None else Some(known.keys.privileged))
            && l.1.underlying == Some(Built(known.keys.primary, None, DEFAULT_PROFILE_ID))
  {
  }

  /** Two profiles have the same primary key exactly when they have the same pad. */
  lemma ProfileKeysFollowPads(root: Bytes, a: Bytes, b: Bytes)
    requires |a| == |root| && |b| == |root|
    ensures XorBytes(root, a) == XorBytes(root, b) <==> a == b
  {
    XorLaws(root, a);
    XorLaws(root, b);
    XorLaws(a, root);
    XorLaws(b, root);
  }

  // ----- Legacy tokens

  /** At this salt and password, the configured KDF gives the legacy key only if it is the legacy KDF. */
  predicate SeparatesParameters(c: Crypto, config: Kdf, salt: Bytes, password: string) {
    Derive(c, salt, Some(config), password) == Derive(c, salt, None, password) ==> IsLegacyKdf(config)
  }

  predicate IsLegacyKdf(kdf: Kdf) { kdf.algorithm == "pbkdf2-sha512" && kdf.params.iterations == PBKDF2_NUM_ROUNDS }

  /**
   * Changing the password on a token without KDF metadata derives the new key with the configured
   * KDF but publishes no metadata: the new password opens the new token exactly when the
   * configuration is the legacy derivation.
   */
  lemma LegacyPasswordChangeWorksExactlyForLegacyKdf(c: Crypto, config: Kdf, s: State, newPassword: string, salt: Bytes,
                                                     env: Env, keys: Keys)
    requires Lawful(c) && SeparatesParameters(c, config, salt, newPassword)
    requires Ready(s) && s.token.value.passwordKdf.None?
    requires PasswordChange(c, s, config, newPassword, salt, env.prompt) == Ok(keys)
    requires Update(c, s, salt, keys, env).0.Ok?
    ensures Apply(c, config, s, Op.ChangePassword(newPassword, salt, env)) == Update(c, s, salt, keys, env)
    ensures Update(c, s, salt, keys, env).1.token.Some?
    ensures var t := Update(c, s, salt, keys, env).1.token.value;
            UnlockWithPresentationAndPassword(c, t, keys.presentation, newPassword) == Ok(keys.primary) <==>
                  IsLegacyKdf(config)
  {
    LegacyTokenAfterUpdate(c, s, salt, keys, env);
    var login := Derive(c, salt, None, newPassword).value;
    assert Derive(c, salt, Some(config), newPassword) == Ok(keys.password);
    if |keys.presentation| == |login| {
      ProfileKeysFollowPads(keys.presentation, login, keys.password);
    }
  }

  lemma LegacyTokenAfterUpdate(c: Crypto, s: State, salt: Bytes, k: Keys, env: Env)
    requires Ready(s) && s.token.value.passwordKdf.None? && Update(c, s, salt, k, env).0.Ok?
    ensures |k.presentation| == |k.password|
    ensures var t := Update(c, s, salt, k, env).1.token;
            && t.Some? && t.value.passwordKdf.None? && t.value.core.passwordSalt == salt
            && t.value.core.passwordPresentationPrimary ==
               c.enc(XorBytes(k.presentation, k.password), env.ivs(0), k.primary)
  {
    var w := Wrap(c, salt, k, s.profiles, None, env.ivs).value;
    if !AllZero(s.activeProfileId) {
      SwitchKeepsToken(s, DEFAULT_PROFILE_ID);
      SwitchKeepsToken(Publish(SwitchTo(s, DEFAULT_PROFILE_ID).1, w, env).1, s.activeProfileId);
    }
  }

  // ----- Snapshots

  const DESTROYED := State(false, None, None, None, [], DEFAULT_PROFILE_ID, None, None, None)

  datatype Snapshot = Snapshot(rootPrimaryKey: Bytes, token: Token, activeProfileId: Bytes)

  function Payload(rootPrimaryKey: Bytes, serialized: Bytes): Bytes {
    rootPrimaryKey + VarInt(|serialized|) + serialized
  }

  function SavedSnapshot(c: Crypto, x: Text, s: State, key: Bytes, iv: Bytes): Result<Bytes> {
    if s.rootPrimaryKey.None? || s.token.None? then Err("No root primary key or current UMP token set")
    else
      var serialized :- Serialize(x, s.token.value);
      Ok([2] + key + s.activeProfileId + c.enc(key, iv, Payload(s.rootPrimaryKey.value, serialized)))
  }

  function ReadPayload(x: Text, payload: Bytes, activeProfileId: Bytes): Result<Snapshot> {
    var root :- Take(payload, 32);
    var tokenBytes :- TakeArray(root.1);
    var token :- Deserialize(x, tokenBytes.0);
    Ok(Snapshot(root.0, token, activeProfileId))
  }

  /** Versions 1, without an active profile, and 2. */
  function ReadSnapshot(c: Crypto, x: Text, snapshot: Bytes): Result<Snapshot> {
    var version :- TakeByte(snapshot);
    if version.0 == 1 then
      var key :- Take(version.1, 32);
      var payload :- Decrypt(c, key.0, key.1);
      ReadPayload(x, payload, DEFAULT_PROFILE_ID)
    else if version.0 == 2 then
      var key :- Take(version.1, 32);
      var id :- Take(key.1, 16);
      var payload :- Decrypt(c, key.0, id.1);
      ReadPayload(x, payload, id.0)
    else Err("Unsupported snapshot version")
  }

  /** Loading clears the state on any error. */
  function LoadedSnapshot(c: Crypto, x: Text, s: State, snapshot: Bytes): Step {
    match ReadSnapshot(c, x, snapshot)
    case Err(e) => (Err(e), DESTROYED)
    case Ok(read) =>
      var loaded := SetupAndSwitch(c, s.(token := Some(read.token)), read.rootPrimaryKey, None, read.activeProfileId);
      if loaded.0.Err? then (loaded.0, DESTROYED) else loaded
  }

  lemma PayloadInverts(x: Text, root: Bytes, token: Token, id: Bytes)
    requires Inverts(x) && StorableToken(x, token) && Encodable(token) && |root| == 32
    requires token.currentOutpoint.Some? && token.currentOutpoint.value != ""
    requires Storable(Serialize(x, token).value)
    ensures ReadPayload(x, Payload(root, Serialize(x, token).value), id) == Ok(Snapshot(root, token, id))
  {
    var serialized := Serialize(x, token).value;
    Associative(root, VarInt(|serialized|), serialized);
    TakeOfConcat(root, Prefixed(serialized));
    PrefixedInverts(serialized, []);
    assert Prefixed(serialized) + [] == Prefixed(serialized);
    SerializedTokenRoundTrips(x, token);
  }

  lemma SnapshotBytesInvert(c: Crypto, x: Text, root: Bytes, token: Token, id: Bytes, key: Bytes, iv: Bytes)
    requires Lawful(c) && Inverts(x) && StorableToken(x, token) && Encodable(token)
    requires |root| == 32 && |id| == 16 && |key| == 32
    requires token.currentOutpoint.Some? && token.currentOutpoint.value != ""
    requires Storable(Serialize(x, token).value)
    ensures ReadSnapshot(c, x, [2] + key + id + c.enc(key, iv, Payload(root, Serialize(x, token).value)))
         == Ok(Snapshot(root, token, id))
  {
    var payload := Payload(root, Serialize(x, token).value);
    var encrypted := c.enc(key, iv, payload);
    Associative([2] + key, id, encrypted);
    Associative([2], key, id + encrypted);
    TakeByteOfConcat(2, key + (id + encrypted));
    TakeOfConcat(key, id + encrypted);
    TakeOfConcat(id, encrypted);
    assert Decrypt(c, key, encrypted) == Ok(payload);
    PayloadInverts(x, root, token, id);
  }

  lemma SnapshotInverts(c: Crypto, x: Text, s: State, key: Bytes, iv: Bytes, known: Known)
    requires Lawful(c) && Inverts(x) && Inv(c, s, known) && |key| == 32
    requires StorableToken(x, s.token.value) && Storable(Serialize(x, s.token.value).value)
    ensures SavedSnapshot(c, x, s, key, iv).Ok?
    ensures ReadSnapshot(c, x, SavedSnapshot(c, x, s, key, iv).value)
         == Ok(Snapshot(known.keys.primary, s.token.value, s.activeProfileId))
  {
    SnapshotBytesInvert(c, x, known.keys.primary, s.token.value, s.activeProfileId, key, iv);
  }

  /** Snapshots of version 1 have no active profile, and open in the default one. */
  lemma VersionOneSnapshotInverts(c: Crypto, x: Text, root: Bytes, token: Token, key: Bytes, iv: Bytes)
    requires Lawful(c) && Inverts(x) && StorableToken(x, token) && Encodable(token) && |root| == 32 && |key| == 32
    requires token.currentOutpoint.Some? && token.currentOutpoint.value != ""
    requires Storable(Serialize(x, token).value)
    ensures ReadSnapshot(c, x, [1] + key + c.enc(key, iv, Payload(root, Serialize(x, token).value)))
         == Ok(Snapshot(root, token, Zeros(16)))
  {
    var payload := Payload(root, Serialize(x, token).value);
    var encrypted := c.enc(key, iv, payload);
    Associative([1], key, encrypted);
    TakeByteOfConcat(1, key + encrypted);
    TakeOfConcat(key, encrypted);
    assert Decrypt(c, key, encrypted) == Ok(payload);
    PayloadInverts(x, root, token, DEFAULT_PROFILE_ID);
  }

  /** Snapshots of other versions are refused, and a load that fails for any reason leaves nothing behind. */
  lemma FailedLoadClears(c: Crypto, x: Text, s: State, snapshot: Bytes)
    ensures snapshot == [] || snapshot[0] == 0 || snapshot[0] > 2 ==> LoadedSnapshot(c, x, s, snapshot).0.Err?
    ensures LoadedSnapshot(c, x, s, snapshot).0.Err? ==>
              LoadedSnapshot(c, x, s, snapshot).1 == State(false, None, None, None, [], Zeros(16), None, None, None)
    ensures LoadedSnapshot(c, x, s, snapshot).0.Ok? ==> LoadedSnapshot(c, x, s, snapshot).1.authenticated
  {
    var read := ReadSnapshot(c, x, snapshot);
    if read.Ok? {
      SetupLoads(c, s.(token := Some(read.value.token)), read.value.rootPrimaryKey, read.value.activeProfileId);
    }
  }

  /** Setting up from a token loads its profiles, and selects the profile as switching to it does. */
  lemma SetupLoads(c: Crypto, s: State, primary: Bytes, id: Bytes)
    requires s.token.Some?
    ensures var u := SetupAndSwitch(c, s, primary, None, id);
            u.0.Ok? ==>
                  u.1.authenticated && u.1.token == s.token && u.1.rootPrimaryKey == Some(primary) && Synced(c, u.1)
  {
    FindProfileFinds(SetupRoot(c, s, primary, None).1.profiles, id);
  }

  lemma SetupSelects(c: Crypto, s: State, u: State, primary: Bytes, id: Bytes)
    requires s.token.Some? && u.token == s.token && u.rootPrimaryKey == Some(primary) && u.authenticated && Synced(c, u)
    ensures SetupAndSwitch(c, s, primary, None, id).0 == SwitchTo(u, id).0
    ensures SwitchTo(u, id).0.Ok? ==>
              SetupAndSwitch(c, s, primary, None, id).1.underlying == SwitchTo(u, id).1.underlying
              && SetupAndSwitch(c, s, primary, None, id).1.activeProfileId == SwitchTo(u, id).1.activeProfileId
  {
    assert SetupRoot(c, s, primary, None).1.profiles == u.profiles;
    FindProfileFinds(u.profiles, id);
  }

  /**
   * A snapshot saved by a manager whose profiles are all in its token restores the root key, the
   * token, the profiles, the active profile and its wallet, into any manager.
   */
  lemma SnapshotRoundTrips(c: Crypto, x: Text, s: State, key: Bytes, iv: Bytes, known: Known, into: State)
    requires Lawful(c) && Inverts(x) && Inv(c, s, known) && Synced(c, s) && |key| == 32
    requires StorableToken(x, s.token.value) && Storable(Serialize(x, s.token.value).value)
    ensures SavedSnapshot(c, x, s, key, iv).Ok?
    ensures var loaded := LoadedSnapshot(c, x, into, SavedSnapshot(c, x, s, key, iv).value);
            && loaded.0.Ok? && loaded.1.authenticated && loaded.1.token == s.token &&
               loaded.1.rootPrimaryKey == s.rootPrimaryKey
            && loaded.1.profiles == s.profiles
            && loaded.1.activeProfileId == (if AllZero(s.activeProfileId) then DEFAULT_PROFILE_ID
                                            else s.activeProfileId)
            && loaded.1.underlying == s.underlying && BuiltForActive(loaded.1)
  {
    SnapshotInverts(c, x, s, key, iv, known);
    var start := into.(token := s.token);
    SetupSelects(c, start, s, known.keys.primary, s.activeProfileId);
    SetupLoads(c, start, known.keys.primary, s.activeProfileId);
    SwitchActive(s);
  }

  lemma SwitchActive(s: State)
    requires Ready(s) && HasWallet(s) && |s.rootPrimaryKey.value| == 32 && ActiveExists(s)
    ensures SwitchTo(s, s.activeProfileId).0.Ok?
    ensures SwitchTo(s, s.activeProfileId).1.activeProfileId
         == if AllZero(s.activeProfileId) then DEFAULT_PROFILE_ID else s.activeProfileId
    ensures SwitchTo(s, s.activeProfileId).1.underlying == s.underlying && BuiltForActive(s)
  {
    SwitchSelects(s, s.activeProfileId);
    WalletIsBuilt(s);
  }

  /**
   * A profile that is only in memory is missing after loading: the snapshot restores the profiles
   * exactly when they are synced.
   */
  lemma SnapshotRestoresProfilesExactlyWhenSynced(c: Crypto, x: Text, s: State, key: Bytes, iv: Bytes, known: Known,
                                                  into: State)
    requires Lawful(c) && Inverts(x) && Inv(c, s, known) && |key| == 32
    requires StorableToken(x, s.token.value) && Storable(Serialize(x, s.token.value).value)
    requires SavedSnapshot(c, x, s, key, iv).Ok?
    ensures var loaded := LoadedSnapshot(c, x, into, SavedSnapshot(c, x, s, key, iv).value);
            loaded.0.Ok? && loaded.1.profiles == s.profiles <==> Synced(c, s)
  {
    if Synced(c, s) {
      SnapshotRoundTrips(c, x, s, key, iv, known, into);
    } else {
      SnapshotInverts(c, x, s, key, iv, known);
      SetupLoads(c, into.(token := s.token), known.keys.primary, s.activeProfileId);
    }
  }

  // ----- The manager's methods

  class Manager {
    const crypto: Crypto
    const text: Text
    const kdfConfig: Kdf
    var authenticated: bool
    var token: Option<Token>
    var rootPrimaryKey: Option<Bytes>
    var privileged: Option<Bytes>
    var profiles: seq<Profile>
    var activeProfileId: Bytes
    var underlying: Option<Built>
    var presentationKey: Option<Bytes>
    var recoveryKey: Option<Bytes>

    function Value(): State
      reads this
    {
      State(authenticated, token, rootPrimaryKey, privileged, profiles, activeProfileId, underlying,
            presentationKey, recoveryKey)
    }

    constructor (crypto: Crypto, text: Text, kdfConfig: Kdf)
      ensures Value() == DESTROYED && this.crypto == crypto && this.text == text && this.kdfConfig == kdfConfig
    {
      this.crypto, this.text, this.kdfConfig := crypto, text, kdfConfig;
      authenticated, token, rootPrimaryKey, privileged, profiles := false, None, None, None, [];
      activeProfileId, underlying, presentationKey, recoveryKey := DEFAULT_PROFILE_ID, None, None, None;
    }

    method Destroy()
      modifies this
      ensures Value() == DESTROYED
    {
      underlying, privileged, authenticated, rootPrimaryKey, token := None, None, false, None, None;
      presentationKey, recoveryKey, profiles, activeProfileId := None, None, [], DEFAULT_PROFILE_ID;
    }

    method SwitchProfile(profileId: Bytes) returns (r: Result<()>)
      modifies this
      ensures (r, Value()) == SwitchTo(old(Value()), profileId)
    {
      if !authenticated || rootPrimaryKey.None? {
        return Err("Cannot switch profile");
      }
      var profileKey, pad := rootPrimaryKey.value, None;
      if AllZero(profileId) {
        activeProfileId := DEFAULT_PROFILE_ID;
      } else {
        FindProfileFinds(profiles, profileId);
        var found := FindProfile(profiles, profileId);
        if found.None? {
          return Err("Profile not found.");
        }
        var profile := profiles[found.value];
        profileKey :- XorKeys(rootPrimaryKey.value, profile.primaryPad);
        pad := Some(profile.privilegedPad);
        activeProfileId := profileId;
      }
      underlying := Some(Built(profileKey, pad, activeProfileId));
      return Ok(());
    }

    /** The key getter that switching gives to the profile's key manager. */
    method GetProfilePrivilegedKey(prompt: string) returns (r: Result<Bytes>)
      requires Ready(Value()) && underlying.Some?
      ensures r == ProfilePrivilegedKey(crypto, Value(), prompt)
    {
      var rootPrivileged :- PrivilegedKey(crypto, Value(), prompt);
      if underlying.value.privilegedPad.None? {
        return Ok(rootPrivileged);
      }
      var profilePrivileged :- XorKeys(rootPrivileged, underlying.value.privilegedPad.value);
      return Ok(Converted(profilePrivileged));
    }

    method PublishToken(newToken: Token, published: Option<string>) returns (r: Result<()>)
      modifies this
      ensures forall env: Env :: env.published == published ==> (r, Value()) == Publish(old(Value()), newToken, env)
    {
      if published.None? {
        return Err("Publishing failed");
      }
      token := Some(newToken.(currentOutpoint := published));
      return Ok(());
    }

    method WrapKeys(salt: Bytes, k: Keys, profileList: seq<Profile>, kdf: Option<Kdf>,
                    ivs: nat -> Bytes) returns (r: Result<Token>)
      ensures r == Wrap(crypto, salt, k, profileList, kdf, ivs)
    {
      var presentationPassword :- XorKeys(k.presentation, k.password);
      var presentationRecovery :- XorKeys(k.presentation, k.recovery);
      var recoveryPassword :- XorKeys(k.recovery, k.password);
      var primaryPassword :- XorKeys(k.primary, k.password);
      var profilesEncrypted := None;
      if |profileList| > 0 {
        profilesEncrypted := Some(crypto.enc(k.primary, ivs(8), crypto.profilesJson(profileList)));
      }
      return Ok(Token(
        Core(salt, crypto.enc(presentationPassword, ivs(0), k.primary), crypto.enc(recoveryPassword, ivs(1), k.primary),
             crypto.enc(presentationRecovery, ivs(2), k.primary), crypto.enc(primaryPassword, ivs(3), k.privileged),
             crypto.enc(presentationRecovery, ivs(4), k.privileged), crypto.sha256(k.presentation),
                 crypto.sha256(k.recovery),
             crypto.wrap(Converted(k.privileged), ivs(5), k.presentation),
                 crypto.wrap(Converted(k.privileged), ivs(6), k.password),
             crypto.wrap(Converted(k.privileged), ivs(7), k.recovery)),
        profilesEncrypted, if kdf.Some? then Some(3) else None, kdf, None));
    }

    method UpdateAuthFactors(salt: Bytes, k: Keys, env: Env) returns (r: Result<()>)
      requires Ready(Value())
      modifies this
      ensures (r, Value()) == Update(crypto, old(Value()), salt, k, env)
    {
      if token.value.currentOutpoint.None? || token.value.currentOutpoint.value == "" {
        return Err("Old token has no outpoint.");
      }
      var newToken :- WrapKeys(salt, k, profiles, token.value.passwordKdf, env.ivs);
      var currentActiveId := activeProfileId;
      var switched := !AllZero(currentActiveId);
      if switched {
        var home := SwitchProfile(DEFAULT_PROFILE_ID);
      }
      if underlying.None? {
        return Err("Default profile wallet could not be activated");
      }
      r := PublishToken(newToken, env.published);
      if switched {
        var back := SwitchProfile(currentActiveId);
        if back.Err? {
          return back;
        }
      }
    }

    method ChangePassword(newPassword: string, salt: Bytes, env: Env) returns (r: Result<()>)
      modifies this
      ensures (r, Value()) == Apply(crypto, kdfConfig, old(Value()), Op.ChangePassword(newPassword, salt, env))
    {
      if !Ready(Value()) {
        return Err("Not authenticated or missing required data.");
      }
      var core := token.value.core;
      var kdf := if token.value.passwordKdf.Some? then token.value.passwordKdf else Some(kdfConfig);
      var newPasswordKey :- Derive(crypto, salt, kdf, newPassword);
      var recovery :- Factor(crypto, Value(), env.prompt, core.recoveryKeyEncrypted);
      var presentation :- Factor(crypto, Value(), env.prompt, core.presentationKeyEncrypted);
      var rootPrivileged := PrivilegedKey(crypto, Value(), env.prompt).value;
      r := UpdateAuthFactors(salt, Keys(newPasswordKey, presentation, recovery, rootPrimaryKey.value, rootPrivileged),
                             env);
    }

    method ChangePresentationKey(newKey: Bytes, env: Env) returns (r: Result<()>)
      modifies this
      ensures (r, Value()) == Apply(crypto, kdfConfig, old(Value()), Op.ChangePresentationKey(newKey, env))
    {
      if !Ready(Value()) {
        return Err("Not authenticated or missing required data.");
      }
      if |newKey| != 32 {
        return Err("Presentation key must be 32 bytes.");
      }
      var core := token.value.core;
      var recovery :- Factor(crypto, Value(), env.prompt, core.recoveryKeyEncrypted);
      var passwordKey :- Factor(crypto, Value(), env.prompt, core.passwordKeyEncrypted);
      var rootPrivileged := PrivilegedKey(crypto, Value(), env.prompt).value;
      var keys := Keys(passwordKey, newKey, recovery, rootPrimaryKey.value, rootPrivileged);
      var updated :- UpdateAuthFactors(core.passwordSalt, keys, env);
      if presentationKey.Some? {
        presentationKey := Some(newKey);
      }
      return Ok(());
    }

    method ChangeRecoveryKey(newKey: Bytes, env: Env) returns (r: Result<()>)
      modifies this
      ensures (r, Value()) == Apply(crypto, kdfConfig, old(Value()), Op.ChangeRecoveryKey(newKey, env))
    {
      if !Ready(Value()) {
        return Err("Not authenticated or missing required data.");
      }
      var core := token.value.core;
      var passwordKey :- Factor(crypto, Value(), env.prompt, core.passwordKeyEncrypted);
      var presentation :- Factor(crypto, Value(), env.prompt, core.presentationKeyEncrypted);
      var rootPrivileged := PrivilegedKey(crypto, Value(), env.prompt).value;
      var keys := Keys(passwordKey, presentation, newKey, rootPrimaryKey.value, rootPrivileged);
      r := UpdateAuthFactors(core.passwordSalt, keys, env);
    }

    /** The update at the end of adding and deleting a profile. */
    method SaveProfileList(env: Env) returns (r: Result<()>)
      requires Ready(Value())
      modifies this
      ensures (r, Value()) == SaveProfiles(crypto, old(Value()), env)
    {
      var core := token.value.core;
      var passwordKey :- Factor(crypto, Value(), env.prompt, core.passwordKeyEncrypted);
      var presentation :- Factor(crypto, Value(), env.prompt, core.presentationKeyEncrypted);
      var recovery :- Factor(crypto, Value(), env.prompt, core.recoveryKeyEncrypted);
      var rootPrivileged := PrivilegedKey(crypto, Value(), env.prompt).value;
      var keys := Keys(passwordKey, presentation, recovery, rootPrimaryKey.value, rootPrivileged);
      r := UpdateAuthFactors(core.passwordSalt, keys, env);
    }

    method AddProfile(profile: Profile, env: Env) returns (r: Result<()>)
      modifies this
      ensures (r, Value()) == Apply(crypto, kdfConfig, old(Value()), Op.AddProfile(profile, env))
    {
      if !Ready(Value()) {
        return Err("Not authenticated or missing required data.");
      }
      if NameInUse(crypto, profiles, profile.name) {
        return Err("Profile name is already in use.");
      }
      profiles := profiles + [profile];
      r := SaveProfileList(env);
    }

    method DeleteProfile(profileId: Bytes, env: Env) returns (r: Result<()>)
      modifies this
      ensures (r, Value()) == Apply(crypto, kdfConfig, old(Value()), Op.DeleteProfile(profileId, env))
    {
      if !Ready(Value()) {
        return Err("Not authenticated or missing required data.");
      }
      if AllZero(profileId) {
        return Err("Cannot delete the default profile.");
      }
      FindProfileFinds(profiles, profileId);
      var found := FindProfile(profiles, profileId);
      if found.None? {
        return Err("Profile not found.");
      }
      profiles := profiles[..found.value] + profiles[found.value + 1..];
      if activeProfileId <= profileId {
        var switched :- SwitchProfile(DEFAULT_PROFILE_ID);
      }
      r := SaveProfileList(env);
    }

    method SetupRootInfrastructure(primary: Bytes, ephemeral: Option<Bytes>) returns (r: Result<()>)
      modifies this
      ensures (r, Value()) == SetupRoot(crypto, old(Value()), primary, ephemeral)
    {
      if token.None? {
        return Err("A UMP token must exist before setting up root infrastructure!");
      }
      rootPrimaryKey, privileged, profiles := Some(primary), ephemeral, [];
      if HasProfiles(token.value) {
        var json := crypto.dec(primary, token.value.profilesEncrypted.value);
        if json.None? {
          return Err("Failed to load profiles");
        }
        var parsed := crypto.parseProfiles(json.value);
        if parsed.None? {
          return Err("Failed to load profiles");
        }
        profiles := parsed.value;
      }
      authenticated := true;
      return Ok(());
    }

    method HandleNewUserPassword(password: string, random: Fresh, funded: bool, env: Env) returns (r: Result<()>)
      modifies this
      ensures (r, Value()) == NewUser(crypto, kdfConfig, old(Value()), password, random, funded, env)
    {
      if presentationKey.None? {
        return Err("No presentation key provided for new-user flow.");
      }
      var passwordKey :- Derive(crypto, random.salt, Some(kdfConfig), password);
      var keys := Keys(passwordKey, presentationKey.value, random.recovery, random.primary, random.privileged);
      var newToken :- WrapKeys(random.salt, keys, [], Some(kdfConfig), env.ivs);
      token := Some(newToken);
      var ready :- SetupRootInfrastructure(random.primary, None);
      var switched :- SwitchProfile(DEFAULT_PROFILE_ID);
      if !funded {
        return Err("Failed to fund new wallet before publishing UMP token");
      }
      r := PublishToken(newToken, env.published);
    }

    method ProvideFactors(mode: Mode, password: string, recovery: Bytes) returns (r: Result<()>)
      modifies this
      ensures (r, Value()) == Login(crypto, old(Value()), mode, password, recovery)
    {
      if token.None? {
        return Err("Provide presentation or recovery key first.");
      }
      var primary, rootPrivileged := [], None;
      match mode {
        case PresentationAndPassword =>
          if presentationKey.None? {
            return Err("No presentation key found!");
          }
          primary :- UnlockWithPresentationAndPassword(crypto, token.value, presentationKey.value, password);
        case RecoveryAndPassword =>
          if recoveryKey.None? {
            return Err("No recovery key found!");
          }
          var keys :- UnlockWithRecoveryAndPassword(crypto, token.value, recoveryKey.value, password);
          primary, rootPrivileged := keys.0, Some(keys.1);
        case PresentationAndRecovery =>
          if presentationKey.None? {
            return Err("Provide the presentation key first");
          }
          var keys :- UnlockWithPresentationAndRecovery(crypto, token.value, presentationKey.value, recovery);
          primary, rootPrivileged := keys.0, Some(keys.1);
      }
      var ready :- SetupRootInfrastructure(primary, rootPrivileged);
      r := SwitchProfile(activeProfileId);
    }

    method SaveSnapshot(snapshotKey: Bytes, iv: Bytes) returns (r: Result<Bytes>)
      ensures r == SavedSnapshot(crypto, text, Value(), snapshotKey, iv)
    {
      if rootPrimaryKey.None? || token.None? {
        return Err("No root primary key or current UMP token set");
      }
      var preimageWriter := new Writer();
      preimageWriter.Write(rootPrimaryKey.value);
      var serialized :- SerializeToken(text, token.value);
      preimageWriter.WriteVarIntNum(|serialized|);
      preimageWriter.Write(serialized);
      assert [] + rootPrimaryKey.value == rootPrimaryKey.value;
      var payload := crypto.enc(snapshotKey, iv, preimageWriter.buf);
      var writer := new Writer();
      writer.WriteUInt8(2);
      writer.Write(snapshotKey);
      writer.Write(activeProfileId);
      writer.Write(payload);
      assert [] + [2] == [2];
      return Ok(writer.buf);
    }

    method ReadSnapshotBytes(snapshot: Bytes) returns (r: Result<Snapshot>)
      ensures r == ReadSnapshot(crypto, text, snapshot)
    {
      var reader := new Reader(snapshot);
      var version :- reader.ReadUInt8();
      if version != 1 && version != 2 {
        return Err("Unsupported snapshot version");
      }
      var key :- reader.Read(32);
      var id := DEFAULT_PROFILE_ID;
      if version == 2 {
        id :- reader.Read(16);
      }
      var payload :- Decrypt(crypto, key, reader.bin[reader.pos..]);
      var payloadReader := new Reader(payload);
      var root :- payloadReader.Read(32);
      var tokenBytes :- payloadReader.ReadArray();
      var read :- DeserializeToken(text, tokenBytes);
      return Ok(Snapshot(root, read, id));
    }

    method LoadSnapshot(snapshot: Bytes) returns (r: Result<()>)
      modifies this
      ensures (r, Value()) == LoadedSnapshot(crypto, text, old(Value()), snapshot)
    {
      var read := ReadSnapshotBytes(snapshot);
      if read.Err? {
        Destroy();
        return Err(read.error);
      }
      token := Some(read.value.token);
      r := SetupRootInfrastructure(read.value.rootPrimaryKey, None);
      if r.Ok? {
        r := SwitchProfile(read.value.activeProfileId);
      }
      if r.Err? {
        Destroy();
      }
    }
  }
}
