/**
 TOTP secrets at rest: how the service encrypts and decrypts a stored secret, and the migration that
 encrypts the plaintext secrets an older version left behind.
 */
module TotpSecrets {
  import opened AuthStore
  import opened Keyring
  import opened Text
  import opened Wrappers

  datatype Config = Config(cipher: Cipher, ring: Option<Ring>)

  function TotpSecretAAD(userID: string): string {
    "auth.totp:" + Trim(userID)
  }

  function EncryptTOTPSecret(cfg: Config, userID: string, secret: seq<Byte>, draw: Option<Draw>)
    : Result<seq<Byte>, KeyError>
  {
    var secret := TrimBytes(secret);
    if secret == "" || cfg.ring.None? || IsEncrypted(secret) then Ok(secret)
    else Encrypt(cfg.cipher, cfg.ring.value, secret, TotpSecretAAD(userID), draw)
  }

  /** None stands for the missing keyring. */
  function DecryptTOTPSecret(cfg: Config, userID: string, secret: seq<Byte>): Option<Result<seq<Byte>, KeyError>> {
    var secret := TrimBytes(secret);
    if secret == "" || !IsEncrypted(secret) then Some(Ok(secret))
    else if cfg.ring.None? then None
    else Some(Decrypt(cfg.cipher, cfg.ring.value, secret, TotpSecretAAD(userID)))
  }

  ghost predicate Ready(cfg: Config) {
    Sound(cfg.cipher) && (cfg.ring.Some? ==> Plain(cfg.ring.value.active.id))
  }

  /** Encrypting a secret does not change what decryption finds, and leaves nothing to encrypt again. */
  lemma EncryptionKeepsSecret(cfg: Config, userID: string, secret: seq<Byte>, draw: Option<Draw>)
    requires Ready(cfg) && EncryptTOTPSecret(cfg, userID, secret, draw).Ok?
    ensures var stored := EncryptTOTPSecret(cfg, userID, secret, draw).value;
            && Trim(stored) == stored
            && DecryptTOTPSecret(cfg, userID, stored) == DecryptTOTPSecret(cfg, userID, secret)
            && forall draw' :: EncryptTOTPSecret(cfg, userID, stored, draw') == Ok(stored)
  {
    TrimIsTight(secret);
    var plaintext := TrimBytes(secret);
    if plaintext != "" && cfg.ring.Some? && !IsEncrypted(plaintext) {
      var ring, d := cfg.ring.value, draw.value;
      var blob := Envelope(cfg.cipher, ring.active, plaintext, TotpSecretAAD(userID), d);
      CiphertextSplits(ring.active.id, blob);
      TightIsTrimmed(Ciphertext(ring.active.id, blob));
      DecryptUndoesEncrypt(cfg.cipher, ring, plaintext, TotpSecretAAD(userID), d, ring);
    }
  }

  /** A stored secret that is encrypted, or nothing. */
  predicate Sealed(secret: string) { Trim(secret) == "" || "enc:v1:" <= Trim(secret) }

  /** What was there before is sealed, and a plaintext is, with the active key: rings without it cannot read it. */
  ghost predicate SealedFrom(cfg: Config, userID: string, before: seq<Byte>, after: seq<Byte>)
    requires cfg.ring.Some?
  {
    && (Trim(before) != "" ==> Trim(after) != "") && Sealed(after)
    && (Sealed(before) ==> Trim(after) == Trim(before))
    && (!Sealed(before) ==> forall later: Ring ::
          later.active.id != cfg.ring.value.active.id && cfg.ring.value.active.id !in later.retired ==>
            DecryptTOTPSecret(cfg.(ring := Some(later)), userID, after) == Some(Err(KeyNotAvailable)))
  }

  /** With a ring, an encryption that succeeds leaves no plaintext. */
  lemma EncryptionSeals(cfg: Config, userID: string, secret: seq<Byte>, draw: Option<Draw>)
    requires cfg.ring.Some? && Plain(cfg.ring.value.active.id)
    requires EncryptTOTPSecret(cfg, userID, secret, draw).Ok?
    ensures SealedFrom(cfg, userID, secret, EncryptTOTPSecret(cfg, userID, secret, draw).value)
  {
    TrimIsTight(secret);
    var plaintext := TrimBytes(secret);
    if !Sealed(secret) {
      var ring := cfg.ring.value;
      var blob := Envelope(cfg.cipher, ring.active, plaintext, TotpSecretAAD(userID), draw.value);
      CiphertextSplits(ring.active.id, blob);
      TightIsTrimmed(Ciphertext(ring.active.id, blob));
    }
  }

  /** One user's secret is not read as another's, as far as the cipher tells their associated data apart. */
  lemma SecretIsBoundToUser(cfg: Config, userID: string, other: string, secret: seq<Byte>, draw: Option<Draw>)
    requires Ready(cfg) && cfg.ring.Some? && !Sealed(secret)
    requires EncryptTOTPSecret(cfg, userID, secret, draw).Ok?
    requires TellsApart(cfg.cipher, "auth.totp:" + Trim(userID), "auth.totp:" + Trim(other))
    ensures DecryptTOTPSecret(cfg, other, EncryptTOTPSecret(cfg, userID, secret, draw).value) == Some(Err(CannotOpen))
  {
    TrimIsTight(secret);
    var ring, plaintext, d := cfg.ring.value, TrimBytes(secret), draw.value;
    var blob := Envelope(cfg.cipher, ring.active, plaintext, TotpSecretAAD(userID), d);
    OtherDataIsRefused(cfg.cipher, ring, plaintext, TotpSecretAAD(userID), TotpSecretAAD(other), d);
    CiphertextSplits(ring.active.id, blob);
    TightIsTrimmed(Ciphertext(ring.active.id, blob));
  }

  /** `draws` is the randomness each slot gets. */
  function SecretTransform(cfg: Config, draws: Slot -> Option<Draw>): Transform {
    (slot: Slot, userID: string, secret: seq<Byte>) =>
      match EncryptTOTPSecret(cfg, userID, secret, draws(slot))
      case Err(_) => None
      case Ok(stored) => Some(stored)
  }

  class Service {
    const cfg: Config
    const store: MemoryStore

    constructor (cfg: Config, store: MemoryStore)
      ensures this.cfg == cfg && this.store == store
    {
      this.cfg, this.store := cfg, store;
    }

    method MigrateTOTPSecrets(draws: Slot -> Option<Draw>)
      returns (r: Result<(), StoreError>, ghost usersDone: set<string>, ghost setupsDone: set<string>)
      modifies store
      ensures cfg.ring.None? ==> r.Ok? && store.Contents() == old(store.Contents())
      ensures cfg.ring.Some? ==>
                store.Contents() == Migrated(old(store.Contents()), SecretTransform(cfg, draws), usersDone, setupsDone)
      ensures cfg.ring.Some? && r.Ok? ==>
                MigratedAll(old(store.Contents()), SecretTransform(cfg, draws), usersDone, setupsDone)
      ensures cfg.ring.Some? && Plain(cfg.ring.value.active.id) && r.Ok? ==>
                MigrationSeals(cfg, old(store.Contents()), store.Contents())
    {
      ghost var st := store.Contents();
      usersDone, setupsDone := {}, {};
      if cfg.ring.None? {
        return Ok(()), {}, {};
      }
      r, usersDone, setupsDone := store.MigrateTOTPSecrets(SecretTransform(cfg, draws));
      if r.Ok? && Plain(cfg.ring.value.active.id) {
        CompleteMigrationSeals(cfg, st, draws, usersDone, setupsDone);
      }
    }
  }

  /** The migration came to its end. */
  ghost predicate MigratedAll(st: State, t: Transform, usersDone: set<string>, setupsDone: set<string>) {
    AllTransformed(st.usersByID, UserTransform(t), usersDone)
        && AllTransformed(st.pendingTOTP, SetupTransform(t), setupsDone)
  }

  /** No secret of a user or a pending setup is stored in the clear any more. */
  ghost predicate MigrationSeals(cfg: Config, st: State, st': State)
    requires cfg.ring.Some?
  {
    && st'.usersByID.Keys == st.usersByID.Keys && st'.pendingTOTP.Keys == st.pendingTOTP.Keys
    && (forall id :: id in st.usersByID ==>
          SealedFrom(cfg, st.usersByID[id].id, st.usersByID[id].totpSecret, st'.usersByID[id].totpSecret))
    && (forall id :: id in st.pendingTOTP ==>
          SealedFrom(cfg, st.pendingTOTP[id].userID, st.pendingTOTP[id].secret, st'.pendingTOTP[id].secret))
  }

  lemma CompleteMigrationSeals(cfg: Config, st: State, draws: Slot -> Option<Draw>, usersDone: set<string>,
                               setupsDone: set<string>)
    requires cfg.ring.Some? && Plain(cfg.ring.value.active.id)
    requires MigratedAll(st, SecretTransform(cfg, draws), usersDone, setupsDone)
    ensures MigrationSeals(cfg, st, Migrated(st, SecretTransform(cfg, draws), usersDone, setupsDone))
  {
    var t := SecretTransform(cfg, draws);
    forall id | id in st.usersByID
      ensures SealedFrom(cfg, st.usersByID[id].id, st.usersByID[id].totpSecret,
                         UserTransform(t)(id, st.usersByID[id]).value.totpSecret)
    {
      var u := st.usersByID[id];
      if HasSecret(u.totpSecret) { EncryptionSeals(cfg, u.id, u.totpSecret, draws(UserSlot(id))); }
    }
    forall id | id in st.pendingTOTP
      ensures SealedFrom(cfg, st.pendingTOTP[id].userID, st.pendingTOTP[id].secret,
                         SetupTransform(t)(id, st.pendingTOTP[id]).value.secret)
    {
      var s := st.pendingTOTP[id];
      if HasSecret(s.secret) { EncryptionSeals(cfg, s.userID, s.secret, draws(SetupSlot(id))); }
    }
  }

  /** `u'` is `u` with at most the stored form of its secret changed. */
  ghost predicate SameUser(cfg: Config, u: User, u': User) {
    && u'.(totpSecret := u.totpSecret) == u
    && DecryptTOTPSecret(cfg, u.id, u'.totpSecret) == DecryptTOTPSecret(cfg, u.id, u.totpSecret)
  }

  ghost predicate SameSetup(cfg: Config, s: Setup, s': Setup) {
    && s'.(secret := s.secret) == s
    && DecryptTOTPSecret(cfg, s.userID, s'.secret) == DecryptTOTPSecret(cfg, s.userID, s.secret)
  }

  lemma UserStep(cfg: Config, draws: Slot -> Option<Draw>, draws': Slot -> Option<Draw>, id: string, u: User)
    requires Ready(cfg) && UserTransform(SecretTransform(cfg, draws))(id, u).Some?
    ensures var u' := UserTransform(SecretTransform(cfg, draws))(id, u).value;
            SameUser(cfg, u, u') && UserTransform(SecretTransform(cfg, draws'))(id, u') == Some(u')
  {
    if HasSecret(u.totpSecret) { EncryptionKeepsSecret(cfg, u.id, u.totpSecret, draws(UserSlot(id))); }
  }

  lemma SetupStep(cfg: Config, draws: Slot -> Option<Draw>, draws': Slot -> Option<Draw>, id: string, s: Setup)
    requires Ready(cfg) && SetupTransform(SecretTransform(cfg, draws))(id, s).Some?
    ensures var s' := SetupTransform(SecretTransform(cfg, draws))(id, s).value;
            SameSetup(cfg, s, s') && SetupTransform(SecretTransform(cfg, draws'))(id, s') == Some(s')
  {
    if HasSecret(s.secret) { EncryptionKeepsSecret(cfg, s.userID, s.secret, draws(SetupSlot(id))); }
  }

  /** A migration, complete or broken off, changes no decrypted secret and nothing else. */
  lemma MigrationKeepsSecrets(cfg: Config, st: State, draws: Slot -> Option<Draw>, usersDone: set<string>,
      setupsDone: set<string>)
    requires Ready(cfg)
    ensures var st' := Migrated(st, SecretTransform(cfg, draws), usersDone, setupsDone);
            && st'.(usersByID := st.usersByID, pendingTOTP := st.pendingTOTP) == st
            && st'.usersByID.Keys == st.usersByID.Keys && st'.pendingTOTP.Keys == st.pendingTOTP.Keys
            && (forall id :: id in st.usersByID ==> SameUser(cfg, st.usersByID[id], st'.usersByID[id]))
            && (forall id :: id in st.pendingTOTP ==> SameSetup(cfg, st.pendingTOTP[id], st'.pendingTOTP[id]))
  {
    var t := SecretTransform(cfg, draws);
    forall id | id in st.usersByID
      ensures SameUser(cfg, st.usersByID[id], Rewritten(st.usersByID, UserTransform(t), usersDone)[id])
    {
      if UserTransform(t)(id, st.usersByID[id]).Some? { UserStep(cfg, draws, draws, id, st.usersByID[id]); }
    }
    forall id | id in st.pendingTOTP
      ensures SameSetup(cfg, st.pendingTOTP[id], Rewritten(st.pendingTOTP, SetupTransform(t), setupsDone)[id])
    {
      if SetupTransform(t)(id, st.pendingTOTP[id]).Some? { SetupStep(cfg, draws, draws, id, st.pendingTOTP[id]); }
    }
  }

  /**
   Migrating twice equals migrating once: after a complete migration every further one, with
   whatever randomness and even none, succeeds and changes nothing.
   */
  lemma MigratingTwiceIsOnce(
    cfg: Config, st: State, draws: Slot -> Option<Draw>, usersDone: set<string>, setupsDone: set<string>,
    draws': Slot -> Option<Draw>, usersDone': set<string>, setupsDone': set<string>
  )
    requires Ready(cfg) && MigratedAll(st, SecretTransform(cfg, draws), usersDone, setupsDone)
    ensures var st' := Migrated(st, SecretTransform(cfg, draws), usersDone, setupsDone);
            && MigratedAll(st', SecretTransform(cfg, draws'), st.usersByID.Keys, st.pendingTOTP.Keys)
            && Migrated(st', SecretTransform(cfg, draws'), usersDone', setupsDone') == st'
  {
    var t, t' := SecretTransform(cfg, draws), SecretTransform(cfg, draws');
    var users, setups := Rewritten(st.usersByID, UserTransform(t), usersDone), Rewritten(st.pendingTOTP,
        SetupTransform(t), setupsDone);
    forall id | id in st.usersByID ensures UserTransform(t')(id, users[id]) == Some(users[id]) {
      UserStep(cfg, draws, draws', id, st.usersByID[id]);
    }
    forall id | id in st.pendingTOTP ensures SetupTransform(t')(id, setups[id]) == Some(setups[id]) {
      SetupStep(cfg, draws, draws', id, st.pendingTOTP[id]);
    }
    assert Rewritten(users, UserTransform(t'), usersDone') == users;
    assert Rewritten(setups, SetupTransform(t'), setupsDone') == setups;
  }
}
