/**
 Envelope encryption: a fresh data key encrypts the payload, the active key encrypts the data key,
 and the text names the active key. Retired keys still decrypt.

 The digest and the authenticated cipher are parameters.
 */
module Keyring {
  import opened Base64
  import opened Text
  import opened Wrappers

  const CIPHERTEXT_PREFIX: seq<Byte> := "enc:v1:"
  const SEPARATOR: seq<Byte> := ":"
  const MIN_KEY_LENGTH: nat := 16
  const KEY_LENGTH: nat := 32
  const NONCE_LENGTH: nat := 12
  const WRAPPED_DEK: nat := KEY_LENGTH + 16
  const KEY_ID_LENGTH: nat := 16
  const VALUE_LABEL: string := "accounting-keyring:v1:value:"
  const ID_LABEL: string := "accounting-keyring:v1:ident:"

  /** A SHA-256 digest, or a key cut from one. */
  type Digest = d: seq<Byte> | |d| == KEY_LENGTH witness seq(KEY_LENGTH, _ => 'A')

  datatype Cipher = Cipher(
    digest: string -> Digest,
    seal: (seq<Byte>, seq<Byte>, seq<Byte>, string) -> seq<Byte>,          // key, nonce, plaintext, data
    open: (seq<Byte>, seq<Byte>, seq<Byte>, string) -> Option<seq<Byte>>)  // key, nonce, sealed, data

  predicate IsKey(key: seq<Byte>) { |key| == 16 || |key| == 24 || |key| == 32 }

  /** What AES-GCM promises: opening undoes sealing, and sealing adds a 16-byte tag. */
  ghost predicate Sound(c: Cipher) {
    forall key: seq<Byte>, nonce: seq<Byte>, plaintext: seq<Byte>, data: string ::
      IsKey(key) && |nonce| == NONCE_LENGTH ==>
      && |c.seal(key, nonce, plaintext, data)| == |plaintext| + 16
      && c.open(key, nonce, c.seal(key, nonce, plaintext, data), data) == Some(plaintext)
  }

  /** The cipher opens nothing under `other` that it sealed under `aad`. */
  ghost predicate TellsApart(c: Cipher, aad: string, other: string) {
    forall key: seq<Byte>, nonce: seq<Byte>, plaintext: seq<Byte> ::
      IsKey(key) && |nonce| == NONCE_LENGTH ==> c.open(key, nonce, c.seal(key, nonce, plaintext, aad), other) == None
  }

  /** One tag for the data `aad`, another for all other data. */
  function TagFor(data: string, aad: string): (tag: seq<Byte>)
    ensures |tag| == 16
  {
    if data == aad then "0123456789abcdef" else "fedcba9876543210"
  }

  /** A cipher that meets what is assumed, if nothing else: it appends the tag and looks for it. */
  function Tagging(digest: string -> Digest, aad: string): Cipher {
    Cipher(digest,
           (key: seq<Byte>, nonce: seq<Byte>, plaintext: seq<Byte>, data: string) => plaintext + TagFor(data, aad),
           (key: seq<Byte>, nonce: seq<Byte>, sealed: seq<Byte>, data: string) =>
             if |sealed| < 16 || sealed[|sealed| - 16..] != TagFor(data, aad) then None
             else Some(sealed[..|sealed| - 16]))
  }

  /** What is assumed of the cipher can be met. */
  lemma SomeCipherIsSound(digest: string -> Digest, aad: string, other: string)
    ensures Sound(Tagging(digest, aad)) && (aad != other ==> TellsApart(Tagging(digest, aad), aad, other))
  {
    forall plaintext: seq<Byte>, data: string
      ensures (plaintext + TagFor(data, aad))[..|plaintext|] == plaintext
      ensures (plaintext + TagFor(data, aad))[|plaintext|..] == TagFor(data, aad) {}
    if aad != other { TagsDiffer(aad, other); }
  }

  lemma TagsDiffer(aad: string, other: string)
    requires aad != other
    ensures TagFor(aad, aad) != TagFor(other, aad)
  {
    assert TagFor(aad, aad)[0] == '0' && TagFor(other, aad)[0] == 'f';
  }

  datatype Key = Key(id: seq<Byte>, value: Digest)

  datatype Ring = Ring(active: Key, retired: map<string, Key>)

  datatype KeyError =
    | SecretTooShort | DuplicatesActive | Duplicated
    | NoRandomness | PrefixMissing | PartMissing | KeyNotAvailable | BadBase64 | TooShort | BadKey | CannotOpen

  /** The randomness one encryption draws. */
  datatype Draw = Draw(dek: Digest, dekNonce: Nonce, payloadNonce: Nonce)

  type Nonce = d: seq<Byte> | |d| == NONCE_LENGTH witness seq(NONCE_LENGTH, _ => 'A')

  // ---------------------------------------------------------------------------------------------
  // Keys

  function HexDigit(v: nat): Byte
    requires v < 16
  {
    if v < 10 then (v + 48) as char else (v + 87) as char
  }

  function Hex(b: seq<Byte>): (s: seq<Byte>)
    ensures |s| == 2 * |b|
    ensures forall i :: 0 <= i < |s| ==> s[i] != ':' && !IsSpace(s[i])
  {
    if b == [] then "" else [HexDigit(b[0] as int / 16), HexDigit(b[0] as int % 16)] + Hex(b[1..])
  }

  lemma HexDigitIsInjective(v: nat, w: nat)
    requires v < 16 && w < 16 && HexDigit(v) == HexDigit(w)
    ensures v == w
  {}

  /** Different bytes have different hexadecimal texts. */
  lemma {:induction false} HexIsInjective(b: seq<Byte>, b': seq<Byte>)
    requires Hex(b) == Hex(b')
    ensures b == b'
  {
    if b != [] && b' != [] {
      var s, s' := Hex(b), Hex(b');
      assert s[0] == s'[0] && s[1] == s'[1] && s[2..] == Hex(b[1..]) && s'[2..] == Hex(b'[1..]);
      HexDigitIsInjective(b[0] as int / 16, b'[0] as int / 16);
      HexDigitIsInjective(b[0] as int % 16, b'[0] as int % 16);
      HexIsInjective(b[1..], b'[1..]);
      assert b == [b[0]] + b[1..] && b' == [b'[0]] + b'[1..];
    }
  }

  function DeriveKey(c: Cipher, secret: string): Result<Key, KeyError> {
    var trimmed := Trim(secret);
    if |trimmed| < MIN_KEY_LENGTH then Err(SecretTooShort)
    else Ok(Key(Hex(c.digest(ID_LABEL + trimmed))[..KEY_ID_LENGTH], c.digest(VALUE_LABEL + trimmed)))
  }

  /** Nothing to trim and no separator. */
  predicate Plain(id: string) { id != "" && Tight(id) && ':' !in id }

  lemma KeyIdIsPlain(c: Cipher, secret: string)
    requires DeriveKey(c, secret).Ok?
    ensures Plain(DeriveKey(c, secret).value.id)
  {}

  /** What a retired secret contributes: nothing when blank, its key, or an error. */
  type Derivation = string -> Result<Option<Key>, KeyError>

  function Retirement(c: Cipher): Derivation {
    (spec: string) =>
      if Trim(spec) == "" then Ok(None)
      else
        match DeriveKey(c, spec)
        case Err(e) => Err(e)
        case Ok(key) => Ok(Some(key))
  }

  /** The retired keys, each under its id. */
  function RetiredKeys(derive: Derivation, activeID: string, specs: seq<string>): Result<map<string, Key>, KeyError> {
    if specs == [] then Ok(map[])
    else
      match RetiredKeys(derive, activeID, specs[..|specs| - 1])
      case Err(e) => Err(e)
      case Ok(keys) =>
        match derive(specs[|specs| - 1])
        case Err(e) => Err(e)
        case Ok(None) => Ok(keys)
        case Ok(Some(key)) =>
          if key.id == activeID then Err(DuplicatesActive)
          else if key.id in keys then Err(Duplicated)
          else Ok(keys[key.id := key])
  }

  function NewRing(c: Cipher, active: string, retired: seq<string>): Result<Ring, KeyError> {
    match DeriveKey(c, active)
    case Err(e) => Err(e)
    case Ok(key) =>
      match RetiredKeys(Retirement(c), key.id, retired)
      case Err(e) => Err(e)
      case Ok(keys) => Ok(Ring(key, keys))
  }

  lemma {:induction false} FirstErrorStays(derive: Derivation, activeID: string, specs: seq<string>, n: nat)
    requires n <= |specs| && RetiredKeys(derive, activeID, specs[..n]).Err?
    ensures RetiredKeys(derive, activeID, specs) == RetiredKeys(derive, activeID, specs[..n])
  {
    if n == |specs| {
      assert specs[..n] == specs;
    } else {
      assert specs[..|specs| - 1][..n] == specs[..n];
      FirstErrorStays(derive, activeID, specs[..|specs| - 1], n);
    }
  }

  method New(c: Cipher, active: string, retired: seq<string>) returns (r: Result<Ring, KeyError>)
    ensures r == NewRing(c, active, retired)
  {
    var activeKey :- DeriveKey(c, active);
    var keys: map<string, Key> := map[];
    for i := 0 to |retired|
      invariant RetiredKeys(Retirement(c), activeKey.id, retired[..i]) == Ok(keys)
    {
      assert retired[..i + 1][..i] == retired[..i];
      if Trim(retired[i]) != "" {
        var key := DeriveKey(c, retired[i]);
        if key.Err? {
          FirstErrorStays(Retirement(c), activeKey.id, retired, i + 1);
          return Err(key.error);
        }
        if key.value.id == activeKey.id {
          FirstErrorStays(Retirement(c), activeKey.id, retired, i + 1);
          return Err(DuplicatesActive);
        }
        if key.value.id in keys {
          FirstErrorStays(Retirement(c), activeKey.id, retired, i + 1);
          return Err(Duplicated);
        }
        keys := keys[key.value.id := key.value];
      }
    }
    assert retired[..|retired|] == retired;
    return Ok(Ring(activeKey, keys));
  }

  /** Secret `i` has a key with this id. */
  predicate Names(derive: Derivation, specs: seq<string>, i: nat, id: string) {
    i < |specs| && derive(specs[i]).Ok? && derive(specs[i]).value.Some? && derive(specs[i]).value.value.id == id
  }

  /** The retired keys are those of the secrets: none is lost, none is shadowed. */
  ghost predicate Holds(derive: Derivation, activeID: string, specs: seq<string>, keys: map<string, Key>) {
    && (forall id :: id in keys ==> exists i: nat :: Names(derive, specs, i, id))
    && (forall i: nat, id :: Names(derive, specs, i, id) ==>
          id != activeID && id in keys && keys[id] == derive(specs[i]).value.value)
  }

  lemma {:induction false} RetiredKeysHold(derive: Derivation, activeID: string, specs: seq<string>)
    requires RetiredKeys(derive, activeID, specs).Ok?
    ensures Holds(derive, activeID, specs, RetiredKeys(derive, activeID, specs).value)
  {
    if specs != [] {
      var n, init := |specs| - 1, specs[..|specs| - 1];
      RetiredKeysHold(derive, activeID, init);
      var before, keys := RetiredKeys(derive, activeID, init).value, RetiredKeys(derive, activeID, specs).value;
      forall id | id in keys ensures exists i: nat :: Names(derive, specs, i, id) {
        if id in before {
          var i: nat :| Names(derive, init, i, id);
          assert Names(derive, specs, i, id);
        } else {
          assert Names(derive, specs, n, id);
        }
      }
      forall i: nat, id | Names(derive, specs, i, id)
        ensures id != activeID && id in keys && keys[id] == derive(specs[i]).value.value
      {
        if i < n { assert Names(derive, init, i, id); }
      }
    }
  }

  /** Every retired secret is blank or long enough, and all keys have different ids. */
  ghost predicate Usable(derive: Derivation, activeID: string, specs: seq<string>) {
    && (forall i :: 0 <= i < |specs| ==> derive(specs[i]).Ok?)
    && (forall i: nat :: !Names(derive, specs, i, activeID))
    && (forall i: nat, j: nat, id :: i < j && Names(derive, specs, i, id) ==> !Names(derive, specs, j, id))
  }

  lemma PrefixIsUsable(derive: Derivation, activeID: string, specs: seq<string>)
    requires specs != [] && Usable(derive, activeID, specs)
    ensures Usable(derive, activeID, specs[..|specs| - 1])
  {
    var init := specs[..|specs| - 1];
    forall i: nat, id | Names(derive, init, i, id) ensures Names(derive, specs, i, id) {}
  }

  lemma {:induction false} UsableSuffices(derive: Derivation, activeID: string, specs: seq<string>)
    requires Usable(derive, activeID, specs)
    ensures RetiredKeys(derive, activeID, specs).Ok?
  {
    if specs != [] {
      var n, init := |specs| - 1, specs[..|specs| - 1];
      PrefixIsUsable(derive, activeID, specs);
      UsableSuffices(derive, activeID, init);
      RetiredKeysHold(derive, activeID, init);
      var key := derive(specs[n]).value;
      if key.Some? {
        assert Names(derive, specs, n, key.value.id);
        if i: nat :| Names(derive, init, i, key.value.id) {
          assert Names(derive, specs, i, key.value.id);
        }
      }
    }
  }

  lemma {:induction false} UsableIsNeeded(derive: Derivation, activeID: string, specs: seq<string>)
    requires RetiredKeys(derive, activeID, specs).Ok?
    ensures Usable(derive, activeID, specs)
  {
    if specs != [] {
      var n, init := |specs| - 1, specs[..|specs| - 1];
      UsableIsNeeded(derive, activeID, init);
      RetiredKeysHold(derive, activeID, init);
      RetiredKeysHold(derive, activeID, specs);
      forall i | 0 <= i < |specs| ensures derive(specs[i]).Ok? {
        if i < n { assert init[i] == specs[i]; }
      }
      forall i: nat, j: nat, id | i < j && Names(derive, specs, i, id) ensures !Names(derive, specs, j, id) {
        assert i < n ==> Names(derive, init, i, id);
        assert j < n ==> (Names(derive, specs, j, id) <==> Names(derive, init, j, id));
      }
    }
  }

  /** A ring exists exactly when all its secrets can be used together. */
  lemma RingExistsIff(c: Cipher, active: string, retired: seq<string>)
    ensures NewRing(c, active, retired).Ok? <==>
              DeriveKey(c, active).Ok? && Usable(Retirement(c), DeriveKey(c, active).value.id, retired)
  {
    if DeriveKey(c, active).Ok? {
      var id := DeriveKey(c, active).value.id;
      if RetiredKeys(Retirement(c), id, retired).Ok? { UsableIsNeeded(Retirement(c), id, retired); }
      if Usable(Retirement(c), id, retired) { UsableSuffices(Retirement(c), id, retired); }
    }
  }

  // ---------------------------------------------------------------------------------------------
  // Envelopes

  predicate IsEncrypted(value: string) {
    CIPHERTEXT_PREFIX <= Trim(value)
  }

  function Envelope(c: Cipher, key: Key, plaintext: seq<Byte>, aad: string, d: Draw): seq<Byte> {
    d.dekNonce + c.seal(key.value, d.dekNonce, d.dek, aad)
    + d.payloadNonce + c.seal(d.dek, d.payloadNonce, plaintext, aad)
  }

  function Ciphertext(id: seq<Byte>, blob: seq<Byte>): seq<Byte> {
    CIPHERTEXT_PREFIX + id + SEPARATOR + Encode(Url, blob)
  }

  /** None stands for a failing random source. */
  function Encrypt(c: Cipher, ring: Ring, plaintext: seq<Byte>, aad: string, draw: Option<Draw>)
    : Result<seq<Byte>, KeyError>
  {
    match draw
    case None => Err(NoRandomness)
    case Some(d) => Ok(Ciphertext(ring.active.id, Envelope(c, ring.active, plaintext, aad, d)))
  }

  function KeyByID(ring: Ring, id: string): Option<Key> {
    if ring.active.id == id then Some(ring.active)
    else if id in ring.retired then Some(ring.retired[id])
    else None
  }

  /** Key id and encoded blob. */
  function SplitCiphertext(value: string): Result<(string, string), KeyError> {
    var trimmed := Trim(value);
    if !(CIPHERTEXT_PREFIX <= trimmed) then Err(PrefixMissing)
    else
      match Cut(trimmed[|CIPHERTEXT_PREFIX|..], ':')
      case Whole => Err(PartMissing)
      case Pieces(id, encoded) =>
        if Trim(id) == "" || Trim(encoded) == "" then Err(PartMissing) else Ok((Trim(id), Trim(encoded)))
  }

  function OpenEnvelope(c: Cipher, key: Key, blob: seq<Byte>, aad: string): Result<seq<Byte>, KeyError> {
    var wrappedEnd := NONCE_LENGTH + WRAPPED_DEK;
    if |blob| <= wrappedEnd + NONCE_LENGTH then Err(TooShort)
    else
      match c.open(key.value, blob[..NONCE_LENGTH], blob[NONCE_LENGTH..wrappedEnd], aad)
      case None => Err(CannotOpen)
      case Some(dek) =>
        if !IsKey(dek) then Err(BadKey)
        else
          match c.open(dek, blob[wrappedEnd..wrappedEnd + NONCE_LENGTH], blob[wrappedEnd + NONCE_LENGTH..], aad)
          case None => Err(CannotOpen)
          case Some(plaintext) => Ok(plaintext)
  }

  function Decrypt(c: Cipher, ring: Ring, ciphertext: string, aad: string): Result<seq<Byte>, KeyError> {
    match SplitCiphertext(ciphertext)
    case Err(e) => Err(e)
    case Ok((id, encoded)) =>
      match KeyByID(ring, id)
      case None => Err(KeyNotAvailable)
      case Some(key) =>
        match Decode(Url, encoded)
        case None => Err(BadBase64)
        case Some(blob) => OpenEnvelope(c, key, blob, aad)
  }

  /** The four parts of an envelope are cut where they were joined. */
  lemma OpenUndoesSeal(c: Cipher, key: Key, plaintext: seq<Byte>, aad: string, d: Draw)
    requires Sound(c)
    ensures OpenEnvelope(c, key, Envelope(c, key, plaintext, aad, d), aad) == Ok(plaintext)
  {
    EnvelopeParts(c, key, plaintext, aad, d);
  }

  lemma EnvelopeParts(c: Cipher, key: Key, plaintext: seq<Byte>, aad: string, d: Draw)
    requires Sound(c)
    ensures var blob, end := Envelope(c, key, plaintext, aad, d), NONCE_LENGTH + WRAPPED_DEK;
            && |blob| > end + NONCE_LENGTH && blob[..NONCE_LENGTH] == d.dekNonce
            && blob[NONCE_LENGTH..end] == c.seal(key.value, d.dekNonce, d.dek, aad)
            && blob[end..end + NONCE_LENGTH] == d.payloadNonce
            && blob[end + NONCE_LENGTH..] == c.seal(d.dek, d.payloadNonce, plaintext, aad)
  {
    var wrapped, payload := c.seal(key.value, d.dekNonce, d.dek, aad), c.seal(d.dek, d.payloadNonce, plaintext, aad);
    assert |wrapped| == WRAPPED_DEK && |payload| >= 16;
    CutFour(d.dekNonce, wrapped, d.payloadNonce, payload);
  }

  lemma CutFour(a: seq<Byte>, b: seq<Byte>, c: seq<Byte>, d: seq<Byte>)
    ensures var s := a + b + c + d;
            && s[..|a|] == a && s[|a|..|a| + |b|] == b && s[|a| + |b|..|a| + |b| + |c|] == c
            && s[|a| + |b| + |c|..] == d
  {}

  lemma EncodedIsTight(blob: seq<Byte>)
    requires blob != []
    ensures Tight(Encode(Url, blob)) && Encode(Url, blob) != ""
  {
    DecodeUndoesEncode(Url, blob);
  }

  /** A ciphertext is recognised, and splits into its key id and its encoded blob. */
  lemma CiphertextSplits(id: seq<Byte>, blob: seq<Byte>)
    requires Plain(id) && blob != []
    ensures var s := Ciphertext(id, blob);
            Tight(s) && IsEncrypted(s) && SplitCiphertext(s) == Ok((id, Encode(Url, blob)))
  {
    var s, encoded := Ciphertext(id, blob), Encode(Url, blob);
    EncodedIsTight(blob);
    assert s[0] == 'e' && s[|s| - 1] == encoded[|encoded| - 1];
    TightIsTrimmed(s);
    TightIsTrimmed(id);
    TightIsTrimmed(encoded);
    assert CIPHERTEXT_PREFIX <= s;
    assert s[|CIPHERTEXT_PREFIX|..] == id + [':'] + encoded;
    CutAt(id, encoded, ':');
  }

  /**
   Decryption undoes encryption, for every plaintext and associated data, in every ring that still
   has the encrypting key; any other ring reports the key as missing.
   */
  lemma DecryptUndoesEncrypt(c: Cipher, ring: Ring, plaintext: seq<Byte>, aad: string, d: Draw, later: Ring)
    requires Sound(c) && Plain(ring.active.id)
    requires KeyByID(later, ring.active.id) in {None, Some(ring.active)}
    ensures Decrypt(c, later, Encrypt(c, ring, plaintext, aad, Some(d)).value, aad) ==
              if KeyByID(later, ring.active.id).Some? then Ok(plaintext) else Err(KeyNotAvailable)
  {
    var blob := Envelope(c, ring.active, plaintext, aad, d);
    CiphertextSplits(ring.active.id, blob);
    DecodeUndoesEncode(Url, blob);
    OpenUndoesSeal(c, ring.active, plaintext, aad, d);
  }

  /** A ciphertext is bound to its associated data as far as the cipher tells it from other data. */
  lemma OtherDataIsRefused(c: Cipher, ring: Ring, plaintext: seq<Byte>, aad: string, other: string, d: Draw)
    requires Sound(c) && Plain(ring.active.id) && TellsApart(c, aad, other)
    ensures Decrypt(c, ring, Encrypt(c, ring, plaintext, aad, Some(d)).value, other) == Err(CannotOpen)
  {
    var blob := Envelope(c, ring.active, plaintext, aad, d);
    CiphertextSplits(ring.active.id, blob);
    DecodeUndoesEncode(Url, blob);
    OtherDataStaysShut(c, ring.active, plaintext, aad, other, d);
  }

  lemma OtherDataStaysShut(c: Cipher, key: Key, plaintext: seq<Byte>, aad: string, other: string, d: Draw)
    requires Sound(c) && TellsApart(c, aad, other)
    ensures OpenEnvelope(c, key, Envelope(c, key, plaintext, aad, d), other) == Err(CannotOpen)
  {
    EnvelopeParts(c, key, plaintext, aad, d);
  }

  /** Rotation: whatever the old ring encrypted, the ring that retired its active secret decrypts. */
  lemma RotationKeepsSecrets(
    c: Cipher, active: string, retired: seq<string>, active': string, retired': seq<string>, i: nat,
    plaintext: seq<Byte>, aad: string, d: Draw
  )
    requires Sound(c) && NewRing(c, active, retired).Ok? && NewRing(c, active', retired').Ok?
    requires i < |retired'| && Trim(retired'[i]) == Trim(active)
    ensures Decrypt(c, NewRing(c, active', retired').value,
                    Encrypt(c, NewRing(c, active, retired).value, plaintext, aad, Some(d)).value, aad) == Ok(plaintext)
  {
    var ring, later := NewRing(c, active, retired).value, NewRing(c, active', retired').value;
    KeyIdIsPlain(c, active);
    RetiredKeysHold(Retirement(c), later.active.id, retired');
    assert DeriveKey(c, retired'[i]) == DeriveKey(c, active);
    assert Names(Retirement(c), retired', i, ring.active.id);
    DecryptUndoesEncrypt(c, ring, plaintext, aad, d, later);
  }
}
