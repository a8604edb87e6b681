/**
 Password hashes: the Argon2id text format, its printer and parser, verification and the question
 whether a stored hash needs to be replaced. The key derivation function is a parameter. The
 legacy PBKDF2 format is not part of this model beyond its algorithm marker.
 */
module Password {
  import opened Base64
  import opened Text
  import opened Wrappers

  const VERSION: int := 19
  const MEMORY_KIB: int := 19456
  const ITERATIONS: int := 2
  const PARALLELISM: int := 1
  const KEY_BYTES: int := 32
  const MAX_UINT8: int := 255
  const MAX_UINT32: int := 0xFFFF_FFFF
  const MAX_INT: int := 0x7FFF_FFFF_FFFF_FFFF
  const ARGON2ID: string := "argon2id"
  const PBKDF2: string := "pbkdf2-sha256"

  datatype Params = Params(version: int, memoryKiB: int, iterations: int, parallelism: int, keyLength: int)

  datatype Hash = Hash(params: Params, salt: seq<Byte>, key: seq<Byte>)

  datatype PasswordError =
    | UnsupportedFormat | InvalidVersion | InvalidParameter | UnknownParameter | InvalidNumber | Incomplete
    | UnsupportedVersion | TooLow | TooLarge | BadBase64 | BadPassword

  // ---------------------------------------------------------------------------------------------
  // Numbers

  /** `strconv.Atoi`: an optional sign and decimal digits, within 64 bits. */
  function Atoi(s: string): Option<int> {
    var negative := s != "" && s[0] == '-';
    var digits := if s != "" && (s[0] == '-' || s[0] == '+') then s[1..] else s;
    if digits == "" || !AllDigits(digits) then None
    else
      var n: int := if negative then 0 - DigitsValue(digits) else DigitsValue(digits);
      if -MAX_INT - 1 <= n <= MAX_INT then Some(n) else None
  }

  lemma AtoiOfDecimal(n: nat)
    requires n <= MAX_INT
    ensures Atoi(Decimal(n)) == Some(n)
  {
    DigitsOfDecimal(n);
    assert IsDigit(Decimal(n)[0]);
  }

  /** A sign counts, and only one. */
  lemma AtoiOfSigned(n: int)
    requires 0 <= n <= MAX_INT
    ensures Atoi("-" + Decimal(n)) == Some(-n) && Atoi("+" + Decimal(n)) == Some(n)
    ensures Atoi("--" + Decimal(n)) == None && Atoi("") == None && Atoi("-") == None
  {
    DigitsOfDecimal(n);
    assert ("-" + Decimal(n))[1..] == Decimal(n) && ("+" + Decimal(n))[1..] == Decimal(n);
    assert ("--" + Decimal(n))[1..][0] == '-';
  }

  // ---------------------------------------------------------------------------------------------
  // The printer

  /** `%d`. */
  function Number(n: int): string {
    if n < 0 then "-" + Decimal(-n) else Decimal(n)
  }

  function Setting(name: char, n: int): string {
    [name, '='] + Number(n)
  }

  function CostText(p: Params): string {
    Join([Setting('m', p.memoryKiB), Setting('t', p.iterations), Setting('p', p.parallelism)], ',')
  }

  /** `fmt.Sprintf("$%s$v=%d$m=%d,t=%d,p=%d$%s$%s", …)`. */
  function Format(h: Hash): string {
    Join(["", ARGON2ID, Setting('v', h.params.version), CostText(h.params), Encode(Std, h.salt), Encode(Std, h.key)], '$')
  }

  // ---------------------------------------------------------------------------------------------
  // The parser

  function Assign(p: Params, part: string): Result<Params, PasswordError> {
    match Cut(part, '=')
    case Whole => Err(InvalidParameter)
    case Pieces(name, text) =>
      match Atoi(text)
      case None => Err(InvalidNumber)
      case Some(n) => Put(p, name, n)
  }

  function Put(p: Params, name: string, n: int): Result<Params, PasswordError> {
    if name == "m" then Ok(p.(memoryKiB := n))
    else if name == "t" then Ok(p.(iterations := n))
    else if name == "p" then Ok(p.(parallelism := n))
    else Err(UnknownParameter)
  }

  /** Every part in turn assigns its parameter; a later assignment replaces an earlier one. */
  function Assigned(p: Params, parts: seq<string>): Result<Params, PasswordError>
    decreases |parts|
  {
    if parts == [] then Ok(p)
    else
      match Assign(p, parts[0])
      case Err(e) => Err(e)
      case Ok(q) => Assigned(q, parts[1..])
  }

  function VersionOf(text: string): Result<int, PasswordError> {
    match Cut(text, '=')
    case Whole => Err(InvalidVersion)
    case Pieces(name, number) =>
      if name != "v" then Err(InvalidVersion)
      else if Atoi(number).None? then Err(InvalidNumber)
      else Ok(Atoi(number).value)
  }

  function CheckedParams(versionText: string, costText: string): Result<Params, PasswordError> {
    match VersionOf(versionText)
    case Err(e) => Err(e)
    case Ok(version) =>
      match Assigned(Params(version, 0, 0, 0, 0), Split(costText, ','))
      case Err(e) => Err(e)
      case Ok(p) =>
        if p.version == 0 || p.memoryKiB == 0 || p.iterations == 0 || p.parallelism == 0 then Err(Incomplete) else Ok(p)
  }

  /** The costs the parser accepts. */
  predicate InRange(p: Params) {
    && p.version == VERSION
    && MEMORY_KIB <= p.memoryKiB <= MAX_UINT32
    && ITERATIONS <= p.iterations <= MAX_UINT32
    && PARALLELISM <= p.parallelism <= MAX_UINT8
  }

  function Parsed(s: string): Result<Hash, PasswordError> {
    var parts := Split(s, '$');
    if |parts| != 6 || parts[1] != ARGON2ID then Err(UnsupportedFormat)
    else
      match CheckedParams(parts[2], parts[3])
      case Err(e) => Err(e)
      case Ok(p) =>
        if p.version != VERSION then Err(UnsupportedVersion)
        else if p.memoryKiB < MEMORY_KIB || p.iterations < ITERATIONS || p.parallelism < PARALLELISM then Err(TooLow)
        else if !InRange(p) then Err(TooLarge)
        else ParsedBytes(p, parts[4], parts[5])
  }

  function ParsedBytes(p: Params, saltText: string, keyText: string): Result<Hash, PasswordError> {
    match Decode(Std, saltText)
    case None => Err(BadBase64)
    case Some(salt) =>
      match Decode(Std, keyText)
      case None => Err(BadBase64)
      case Some(key) =>
        if |key| < KEY_BYTES then Err(TooLow)
        else if |key| > MAX_UINT32 then Err(TooLarge)
        else Ok(Hash(p.(keyLength := |key|), salt, key))
  }

  method ParseArgon2idParams(versionText: string, costText: string) returns (r: Result<Params, PasswordError>)
    ensures r == CheckedParams(versionText, costText)
  {
    var version := Cut(versionText, '=');
    if version.Whole? || version.before != "v" {
      return Err(InvalidVersion);
    }
    var number := Atoi(version.after);
    if number.None? {
      return Err(InvalidNumber);
    }
    var params := Params(number.value, 0, 0, 0, 0);
    var parts := Split(costText, ',');
    for i := 0 to |parts|
      invariant Assigned(params, parts[i..]) == Assigned(Params(number.value, 0, 0, 0, 0), parts)
    {
      assert parts[i..][1..] == parts[i + 1..];
      params :- Assign(params, parts[i]);
    }
    if params.version == 0 || params.memoryKiB == 0 || params.iterations == 0 || params.parallelism == 0 {
      return Err(Incomplete);
    }
    return Ok(params);
  }

  method ParseArgon2idHash(s: string) returns (r: Result<Hash, PasswordError>)
    ensures r == Parsed(s)
  {
    var parts := Split(s, '$');
    if |parts| != 6 || parts[1] != ARGON2ID {
      return Err(UnsupportedFormat);
    }
    var params :- ParseArgon2idParams(parts[2], parts[3]);
    if params.version != VERSION {
      return Err(UnsupportedVersion);
    }
    if params.memoryKiB < MEMORY_KIB || params.iterations < ITERATIONS || params.parallelism < PARALLELISM {
      return Err(TooLow);
    }
    if params.memoryKiB > MAX_UINT32 || params.iterations > MAX_UINT32 || params.parallelism > MAX_UINT8 {
      return Err(TooLarge);
    }
    return ParsedBytes(params, parts[4], parts[5]);
  }

  /** `passwordHashAlgorithm`. */
  function Algorithm(s: string): Result<string, PasswordError> {
    var parts := Split(s, '$');
    if |parts| < 2 || parts[0] != "" || Trim(parts[1]) == "" then Err(UnsupportedFormat) else Ok(parts[1])
  }

  function NeedsPasswordRehash(s: string): Result<bool, PasswordError> {
    match Algorithm(s)
    case Err(e) => Err(e)
    case Ok(algorithm) =>
      if algorithm != ARGON2ID then Ok(true)
      else
        match Parsed(s)
        case Err(e) => Err(e)
        case Ok(h) =>
          Ok(|| h.params.version != VERSION || h.params.memoryKiB < MEMORY_KIB || h.params.iterations < ITERATIONS
             || h.params.parallelism < PARALLELISM || h.params.keyLength < KEY_BYTES)
  }

  // ---------------------------------------------------------------------------------------------
  // The parser undoes the printer

  /** A text the printer may be asked for: costs in range and a key of at least 32 bytes. */
  predicate Printable(h: Hash) {
    InRange(h.params) && KEY_BYTES <= |h.key| <= MAX_UINT32 && h.params.keyLength == |h.key|
  }

  lemma SettingIsCut(name: char, n: nat)
    requires name != '=' && n <= MAX_INT
    ensures Cut(Setting(name, n), '=') == Pieces([name], Number(n)) && Atoi(Number(n)) == Some(n)
  {
    assert Setting(name, n) == [name] + ['='] + Number(n);
    CutAt([name], Number(n), '=');
    AtoiOfDecimal(n);
  }

  lemma SettingIsPut(p: Params, name: char, n: nat)
    requires name != '=' && n <= MAX_INT
    ensures Assign(p, Setting(name, n)) == Put(p, [name], n)
  {
    SettingIsCut(name, n);
  }

  lemma SettingAvoids(name: char, n: nat, c: char)
    requires !IsDigit(c) && c != '=' && c != name
    ensures c !in Setting(name, n)
  {}

  lemma CostPartsSplit(p: Params)
    requires InRange(p)
    ensures Split(CostText(p), ',') == [Setting('m', p.memoryKiB), Setting('t', p.iterations), Setting('p',
        p.parallelism)]
    ensures '$' !in CostText(p)
  {
    var m, t, q := Setting('m', p.memoryKiB), Setting('t', p.iterations), Setting('p', p.parallelism);
    SettingAvoids('m', p.memoryKiB, ',');
    SettingAvoids('t', p.iterations, ',');
    SettingAvoids('p', p.parallelism, ',');
    SplitUndoesJoin([m, t, q], ',');
    SettingAvoids('m', p.memoryKiB, '$');
    SettingAvoids('t', p.iterations, '$');
    SettingAvoids('p', p.parallelism, '$');
    JoinOfThree(m, t, q, ',');
  }

  lemma JoinOfThree(a: string, b: string, c: string, sep: char)
    ensures Join([a, b, c], sep) == a + [sep] + (b + [sep] + c)
  {
    calc {
      Join([a, b, c], sep);
      { assert [a, b, c][1..] == [b, c]; }
      a + [sep] + Join([b, c], sep);
      { assert [b, c][1..] == [c]; }
      a + [sep] + (b + [sep] + Join([c], sep));
      a + [sep] + (b + [sep] + c);
    }
  }

  lemma AssignedThree(p: Params, a: string, b: string, c: string)
    requires Assign(p, a).Ok? && Assign(Assign(p, a).value, b).Ok?
    ensures Assigned(p, [a, b, c]) == Assign(Assign(Assign(p, a).value, b).value, c)
  {
    var q := Assign(p, a).value;
    var r := Assign(q, b).value;
    assert [a, b, c][1..] == [b, c] && [b, c][1..] == [c] && [c][1..] == [];
    assert Assigned(r, [c]) == Assign(r, c);
    assert Assigned(q, [b, c]) == Assigned(r, [c]);
    assert Assigned(p, [a, b, c]) == Assigned(q, [b, c]);
  }

  lemma CostsRoundTrip(p: Params, p0: Params)
    requires InRange(p)
    ensures Assigned(p0, Split(CostText(p), ',')) ==
              Ok(Params(p0.version, p.memoryKiB, p.iterations, p.parallelism, p0.keyLength))
  {
    CostPartsSplit(p);
    SettingIsPut(p0, 'm', p.memoryKiB);
    var p1 := p0.(memoryKiB := p.memoryKiB);
    SettingIsPut(p1, 't', p.iterations);
    var p2 := p1.(iterations := p.iterations);
    SettingIsPut(p2, 'p', p.parallelism);
    AssignedThree(p0, Setting('m', p.memoryKiB), Setting('t', p.iterations), Setting('p', p.parallelism));
  }

  lemma VersionRoundTrip(n: nat)
    requires n <= MAX_INT
    ensures VersionOf(Setting('v', n)) == Ok(n)
  {
    SettingIsCut('v', n);
  }

  lemma ParamsRoundTrip(p: Params)
    requires InRange(p)
    ensures CheckedParams(Setting('v', p.version), CostText(p)) == Ok(p.(keyLength := 0))
  {
    VersionRoundTrip(p.version);
    CostsRoundTrip(p, Params(p.version, 0, 0, 0, 0));
  }

  lemma FieldsSplit(h: Hash)
    requires Printable(h)
    ensures Split(Format(h), '$') ==
              ["", ARGON2ID, Setting('v', h.params.version), CostText(h.params), Encode(Std, h.salt), Encode(Std, h.key)]
  {
    SettingAvoids('v', h.params.version, '$');
    CostPartsSplit(h.params);
    EncodeAvoids(Std, h.salt, '$');
    EncodeAvoids(Std, h.key, '$');
    SplitUndoesJoin(
      ["", ARGON2ID, Setting('v', h.params.version), CostText(h.params), Encode(Std, h.salt), Encode(Std, h.key)], '$');
  }

  /** Parsing a printed hash gives back exactly its costs, salt and key. */
  lemma ParseUndoesFormat(h: Hash)
    requires Printable(h)
    ensures Parsed(Format(h)) == Ok(h)
  {
    FieldsSplit(h);
    ParamsRoundTrip(h.params);
    DecodeUndoesEncode(Std, h.salt);
    DecodeUndoesEncode(Std, h.key);
  }

  /** Whatever the parser accepts can be printed, and so parsed again. */
  lemma ParsedIsPrintable(s: string)
    requires Parsed(s).Ok?
    ensures Printable(Parsed(s).value) && Parsed(Format(Parsed(s).value)) == Parsed(s)
  {
    ParseUndoesFormat(Parsed(s).value);
  }

  // ---------------------------------------------------------------------------------------------
  // Rehash

  lemma FirstPartIsEmpty(s: string, sep: char)
    requires |Split(s, sep)| >= 2
    ensures s != "" && (Split(s, sep)[0] == "" <==> s[0] == sep)
  {}

  lemma AlgorithmOfParts(s: string)
    requires |Split(s, '$')| >= 2 && Split(s, '$')[1] == ARGON2ID
    ensures s != "" && Algorithm(s) == if s[0] == '$' then Ok(ARGON2ID) else Err(UnsupportedFormat)
  {
    FirstPartIsEmpty(s, '$');
    assert Trim(ARGON2ID) == ARGON2ID;
  }

  lemma AlgorithmOfParsed(s: string)
    requires Parsed(s).Ok?
    ensures s != "" && Algorithm(s) == if s[0] == '$' then Ok(ARGON2ID) else Err(UnsupportedFormat)
  {
    AlgorithmOfParts(s);
  }

  /**
   No accepted hash is ever reported for replacement. A hash is reported fresh exactly when the
   parser accepts it and it starts with the separator: the parser itself does not look at what
   comes before the first separator, `passwordHashAlgorithm` does. Exactly the texts that name another
   algorithm are reported for replacement.
   */
  lemma FreshIffParsed(s: string)
    ensures NeedsPasswordRehash(s) == Ok(false) <==> Parsed(s).Ok? && s[0] == '$'
    ensures Parsed(s).Ok? ==> s != "" && NeedsPasswordRehash(s) != Ok(true)
    ensures NeedsPasswordRehash(s) == Ok(true) <==> Algorithm(s).Ok? && Algorithm(s).value != ARGON2ID
  {
    if Parsed(s).Ok? {
      AlgorithmOfParsed(s);
      ParsedIsPrintable(s);
    }
  }

  lemma PrefixChangesFirstPart(prefix: string, s: string, sep: char)
    requires sep !in prefix && s != "" && s[0] == sep
    ensures Split(prefix + s, sep) == [prefix] + Split(s, sep)[1..]
  {
    SplitPrefix(prefix, s[1..], sep);
    assert prefix + s == prefix + [sep] + s[1..];
  }

  /** The gap between the two: behind a prefix a text parses as before, and the rehash check refuses it. */
  lemma PrefixedHashIsRefused(s: string, prefix: string)
    requires s != "" && s[0] == '$' && prefix != "" && '$' !in prefix
    ensures Parsed(prefix + s) == Parsed(s)
    ensures NeedsPasswordRehash(prefix + s) == Err(UnsupportedFormat)
  {
    PrefixChangesFirstPart(prefix, s, '$');
    FirstPartIsIgnored(prefix + s, s);
  }

  /** The parser looks at no more than how many parts there are and what the later ones say. */
  lemma FirstPartIsIgnored(s: string, t: string)
    requires var parts, parts' := Split(s, '$'), Split(t, '$'); |parts| == |parts'| && parts[1..] == parts'[1..]
    ensures Parsed(s) == Parsed(t)
  {
    var parts, parts' := Split(s, '$'), Split(t, '$');
    assert forall i :: 1 <= i < |parts| ==> parts[i] == parts[1..][i - 1] && parts'[i] == parts'[1..][i - 1];
  }

  // ---------------------------------------------------------------------------------------------
  // Hashing and verifying

  /** password, salt, iterations, memory, parallelism, key length. */
  type Kdf = (string, seq<Byte>, int, int, int, int) -> seq<Byte>

  function DefaultHash(kdf: Kdf, password: string, salt: seq<Byte>): Hash {
    Hash(Params(VERSION, MEMORY_KIB, ITERATIONS, PARALLELISM, KEY_BYTES), salt,
         kdf(password, salt, ITERATIONS, MEMORY_KIB, PARALLELISM, KEY_BYTES))
  }

  /** `salt` is the randomness the call draws. */
  function HashPassword(kdf: Kdf, password: string, salt: seq<Byte>): Result<string, PasswordError> {
    if |password| < 8 || |password| > 1024 then Err(BadPassword) else Ok(Format(DefaultHash(kdf, password, salt)))
  }

  /** `legacy` verifies the PBKDF2 format. */
  function VerifyPassword(
    kdf: Kdf, legacy: (string, string) -> Result<bool, PasswordError>, password: string, s: string
  ): Result<bool, PasswordError> {
    match Algorithm(s)
    case Err(e) => Err(e)
    case Ok(algorithm) =>
      if algorithm == PBKDF2 then legacy(password, s)
      else if algorithm != ARGON2ID then Err(UnsupportedFormat)
      else
        match Parsed(s)
        case Err(e) => Err(e)
        case Ok(h) =>
          var p := h.params;
          Ok(kdf(password, h.salt, p.iterations, p.memoryKiB, p.parallelism, p.keyLength) == h.key)
  }

  /** A new hash verifies exactly the passwords that derive the same key, and needs no replacement. */
  lemma VerifyAcceptsIff(
    kdf: Kdf, legacy: (string, string) -> Result<bool, PasswordError>, password: string, salt: seq<Byte>, attempt: string
  )
    requires |kdf(password, salt, ITERATIONS, MEMORY_KIB, PARALLELISM, KEY_BYTES)| == KEY_BYTES
    requires HashPassword(kdf, password, salt).Ok?
    ensures var s := HashPassword(kdf, password, salt).value;
            && NeedsPasswordRehash(s) == Ok(false)
            && VerifyPassword(kdf, legacy, attempt, s) ==
                 Ok(kdf(attempt, salt, ITERATIONS, MEMORY_KIB, PARALLELISM, KEY_BYTES)
                    == kdf(password, salt, ITERATIONS, MEMORY_KIB, PARALLELISM, KEY_BYTES))
  {
    var h := DefaultHash(kdf, password, salt);
    FieldsSplit(h);
    FirstPartIsEmpty(Format(h), '$');
    ParseUndoesFormat(h);
    AlgorithmOfParsed(Format(h));
    FreshIffParsed(Format(h));
  }

  /** Which passwords are hashed, and the text a hash is stored as. */
  lemma HashIsText(kdf: Kdf, password: string, salt: seq<Byte>)
    ensures HashPassword(kdf, password, salt).Ok? <==> 8 <= |password| <= 1024
    ensures 8 <= |password| <= 1024 ==>
              HashPassword(kdf, password, salt).value ==
              "$argon2id$v=19$m=19456,t=2,p=1$" + Encode(Std, salt) + "$" + Encode(Std, kdf(password, salt, 2, 19456, 1, 32))
  {
    var salted, keyed := Encode(Std, salt), Encode(Std, kdf(password, salt, 2, 19456, 1, 32));
    CostsAreText();
    JoinSix("", ARGON2ID, "v=19", "m=19456,t=2,p=1", salted, keyed);
    HeadIsText();
    assert Format(DefaultHash(kdf, password, salt)) ==
           Join(["", ARGON2ID, "v=19", "m=19456,t=2,p=1", salted, keyed], '$');
  }

  lemma HeadIsText()
    ensures "" + "$" + ARGON2ID + "$" + "v=19" + "$" + "m=19456,t=2,p=1" + "$" == "$argon2id$v=19$m=19456,t=2,p=1$"
  {}

  lemma NumbersAreText()
    ensures Decimal(1) == "1" && Decimal(2) == "2" && Decimal(19) == "19" && Decimal(19456) == "19456"
  {
    assert Decimal(1) == "1" && Decimal(2) == "2" && Decimal(19) == "19";
    assert Decimal(194) == "194" && Decimal(1945) == "1945";
  }

  lemma CostsAreText()
    ensures Setting('v', 19) == "v=19"
    ensures CostText(Params(19, 19456, 2, 1, 32)) == "m=19456,t=2,p=1"
  {
    NumbersAreText();
    var parts := [Setting('m', 19456), Setting('t', 2), Setting('p', 1)];
    assert parts[1..] == [parts[1], parts[2]] && parts[1..][1..] == [parts[2]];
    assert parts[0] == "m=19456" && parts[1] == "t=2" && parts[2] == "p=1";
  }

  lemma JoinSix(a: string, b: string, c: string, d: string, e: string, f: string)
    ensures Join([a, b, c, d, e, f], '$') == a + "$" + b + "$" + c + "$" + d + "$" + e + "$" + f
  {
    var parts := [a, b, c, d, e, f];
    assert parts[1..][1..] == parts[2..] && parts[2..][1..] == parts[3..] && parts[3..][1..] == parts[4..];
    assert parts[4..][1..] == [f] && Join(parts[4..], '$') == e + "$" + f;
    assert Join(parts[3..], '$') == d + "$" + (e + "$" + f);
    assert Join(parts[2..], '$') == c + "$" + (d + "$" + (e + "$" + f));
    assert Join(parts[1..], '$') == b + "$" + (c + "$" + (d + "$" + (e + "$" + f)));
  }
}
