/**
 The in-memory authentication store: users indexed by id and by email, passkeys by id and by
 credential id, keyed records, and the durable snapshot of them all.

 Record fields that no store operation looks at are gathered in one `rest` field. Credential ids
 are byte strings. A zero time is 0.
 */
module AuthStore {
  import opened Text
  import opened Wrappers

  const DEFAULT_BASE_CURRENCY: string := "USD"

  datatype User = User(id: string, email: string, baseCurrency: string, totpSecret: seq<Byte>, rest: string)
  datatype Session = Session(userID: string, rest: string)
  datatype EmailCode = EmailCode(email: string, purpose: string, rest: string)
  datatype Setup = Setup(userID: string, secret: seq<Byte>, rest: string)
  datatype Throttle = Throttle(email: string, failedCount: int, lockedUntil: int, updatedAt: int)
  datatype Passkey = Passkey(id: string, userID: string, credentialID: string, rest: string)
  datatype Ceremony = Ceremony(id: string, rest: string)
  datatype Replay = Replay(userID: string, codeHash: string, expiresAt: int)

  datatype StoreError = Exists | NotFound | Immutable | EmailRequired | EncryptFailed

  type CodeKey = (string, string)     // email, purpose
  type ReplayKey = (string, string)   // user id, code hash

  datatype State = State(
    usersByID: map<string, User>,
    userIDsByEmail: map<string, string>,
    sessions: map<string, Session>,
    emailCodes: map<CodeKey, EmailCode>,
    pendingTOTP: map<string, Setup>,
    totpReplays: map<ReplayKey, int>,
    failedTOTPs: map<string, int>,
    loginThrottles: map<string, Throttle>,
    passkeysByID: map<string, Passkey>,
    passkeyIDsByCredentialID: map<string, string>,
    passkeyCeremonies: map<string, Ceremony>)

  const EMPTY: State := State(map[], map[], map[], map[], map[], map[], map[], map[], map[], map[], map[])

  predicate HasCurrency(u: User) { Trim(u.baseCurrency) != "" }

  /** `cloneUserRecord`. */
  function Clone(u: User): (r: User)
    ensures HasCurrency(r) && (HasCurrency(u) ==> r == u)
    ensures r.(baseCurrency := u.baseCurrency) == u
  {
    assert Trim(DEFAULT_BASE_CURRENCY) == DEFAULT_BASE_CURRENCY;
    if HasCurrency(u) then u else u.(baseCurrency := DEFAULT_BASE_CURRENCY)
  }

  /** `FailedTOTPCount`. */
  function FailedCount(failed: map<string, int>, userID: string): int {
    if userID in failed then failed[userID] else 0
  }

  /** What `TOTPReplayExists` leaves: an expired marker is dropped when it is read. */
  function DropExpired(replays: map<ReplayKey, int>, key: ReplayKey, now: int): map<ReplayKey, int> {
    if key in replays && replays[key] <= now then replays - {key} else replays
  }

  /** A missing email reads as the zero throttle. */
  function ThrottleOf(throttles: map<string, Throttle>, email: string): Throttle {
    if email in throttles then throttles[email] else Throttle("", 0, 0, 0)
  }

  // ---------------------------------------------------------------------------------------------
  // The writing operations

  /** What a migration encrypts: the secret of a user or of a pending setup. */
  datatype Slot = UserSlot(userID: string) | SetupSlot(sessionID: string)

  /** The transform of a secret; the slot stands for the randomness drawn there. None is an error. */
  type Transform = (Slot, string, seq<Byte>) -> Option<seq<Byte>>

  datatype Op =
    | OnUsers(userOp: UserOp)
    | OnPasskeys(passkeyOp: PasskeyOp)
    | OnRecords(recordOp: RecordOp)
    /** The users and setups visited before the transform failed, or all of them. */
    | MigrateTOTPSecrets(encrypt: Transform, usersDone: set<string>, setupsDone: set<string>)

  datatype UserOp = CreateUser(user: User) | UpdateUser(user: User)

  datatype PasskeyOp =
    | CreatePasskey(passkey: Passkey)
    | UpdatePasskey(passkey: Passkey)
    | DeletePasskey(userID: string, passkeyID: string)

  datatype RecordOp =
    | StoreSession(tokenHash: string, session: Session)
    | DeleteSession(tokenHash: string)
    | DeleteSessionsByUser(userID: string)
    | StoreEmailCode(code: EmailCode)
    | DeleteEmailCode(email: string, purpose: string)
    | StorePendingTOTPSetup(sessionID: string, setup: Setup)
    | DeletePendingTOTPSetup(sessionID: string)
    | StoreTOTPReplay(userID: string, codeHash: string, expiresAt: int)
    | TOTPReplayExists(userID: string, codeHash: string, now: int)
    | IncrementFailedTOTP(userID: string)
    | ResetFailedTOTP(userID: string)
    | StoreLoginThrottle(throttle: Throttle)
    | ResetLoginThrottle(email: string)
    | StorePasskeyCeremony(ceremony: Ceremony)
    | DeletePasskeyCeremony(ceremonyID: string)

  predicate HasSecret(secret: string) { Trim(secret) != "" }

  function UserTransform(encrypt: Transform): (string, User) -> Option<User> {
    (id: string, u: User) =>
      if !HasSecret(u.totpSecret) then Some(u)
      else
        match encrypt(UserSlot(id), u.id, u.totpSecret)
        case None => None
        case Some(secret) => Some(u.(totpSecret := secret))
  }

  function SetupTransform(encrypt: Transform): (string, Setup) -> Option<Setup> {
    (id: string, s: Setup) =>
      if !HasSecret(s.secret) then Some(s)
      else
        match encrypt(SetupSlot(id), s.userID, s.secret)
        case None => None
        case Some(secret) => Some(s.(secret := secret))
  }

  /** The visited entries transformed, the others as they were. */
  function Rewritten<V>(m: map<string, V>, f: (string, V) -> Option<V>, done: set<string>): map<string, V> {
    map id | id in m :: if id in done && f(id, m[id]).Some? then f(id, m[id]).value else m[id]
  }

  function Migrated(st: State, encrypt: Transform, usersDone: set<string>, setupsDone: set<string>): State {
    st.(usersByID := Rewritten(st.usersByID, UserTransform(encrypt), usersDone),
        pendingTOTP := Rewritten(st.pendingTOTP, SetupTransform(encrypt), setupsDone))
  }

  /** Every entry was visited and transformed. */
  ghost predicate AllTransformed<V>(m: map<string, V>, f: (string, V) -> Option<V>, done: set<string>) {
    forall id :: id in m ==> id in done && f(id, m[id]).Some?
  }

  /** Transforms the entries one by one and stops at the first that fails. */
  method Rewrite<V>(m: map<string, V>, f: (string, V) -> Option<V>)
    returns (r: map<string, V>, ok: bool, ghost done: set<string>)
    ensures r == Rewritten(m, f, done)
    ensures ok <==> forall id :: id in m ==> f(id, m[id]).Some?
    ensures ok ==> AllTransformed(m, f, done)
  {
    r, done := m, {};
    var todo := m.Keys;
    while todo != {}
      invariant todo <= m.Keys && done == m.Keys - todo
      invariant r == Rewritten(m, f, done)
      invariant forall id :: id in done ==> f(id, m[id]).Some?
      decreases todo
    {
      var id :| id in todo;
      var v := f(id, r[id]);
      if v.None? {
        return r, false, done;
      }
      r := r[id := v.value];
      todo, done := todo - {id}, done + {id};
    }
    return r, true, done;
  }

  type Users = (map<string, User>, map<string, string>)         // by id; ids by email
  type Passkeys = (map<string, Passkey>, map<string, string>)   // by id; ids by credential id

  function AfterUserOp(users: map<string, User>, ids: map<string, string>, op: UserOp): Users {
    match op
    case CreateUser(u) =>
      if u.id in users || u.email in ids then (users, ids) else (users[u.id := Clone(u)], ids[u.email := u.id])
    case UpdateUser(u) =>
      if u.id !in users || users[u.id].email != u.email then (users, ids) else (users[u.id := Clone(u)], ids)
  }

  function AfterPasskeyOp(passkeys: map<string, Passkey>, ids: map<string, string>, op: PasskeyOp): Passkeys {
    match op
    case CreatePasskey(p) =>
      if p.id in passkeys || p.credentialID in ids then (passkeys, ids)
      else (passkeys[p.id := p], ids[p.credentialID := p.id])
    case UpdatePasskey(p) =>
      if || p.id !in passkeys || passkeys[p.id].userID != p.userID || passkeys[p.id].credentialID != p.credentialID
      then (passkeys, ids)
      else (passkeys[p.id := p], ids)
    case DeletePasskey(userID, passkeyID) =>
      if passkeyID !in passkeys || passkeys[passkeyID].userID != userID then (passkeys, ids)
      else (passkeys - {passkeyID}, ids - {passkeys[passkeyID].credentialID})
  }

  /** None of these operations touches an index. */
  function DoRecords(st: State, op: RecordOp): (st': State)
    ensures st'.usersByID == st.usersByID && st'.userIDsByEmail == st.userIDsByEmail
    ensures st'.passkeysByID == st.passkeysByID && st'.passkeyIDsByCredentialID == st.passkeyIDsByCredentialID
  {
    match op
    case StoreSession(tokenHash, session) => st.(sessions := st.sessions[tokenHash := session])
    case DeleteSession(tokenHash) => st.(sessions := st.sessions - {tokenHash})
    case DeleteSessionsByUser(userID) =>
      st.(sessions := map t | t in st.sessions && st.sessions[t].userID != userID :: st.sessions[t])
    case StoreEmailCode(code) => st.(emailCodes := st.emailCodes[(code.email, code.purpose) := code])
    case DeleteEmailCode(email, purpose) => st.(emailCodes := st.emailCodes - {(email, purpose)})
    case StorePendingTOTPSetup(sessionID, setup) => st.(pendingTOTP := st.pendingTOTP[sessionID := setup])
    case DeletePendingTOTPSetup(sessionID) => st.(pendingTOTP := st.pendingTOTP - {sessionID})
    case StoreTOTPReplay(userID, codeHash, expiresAt) =>
      st.(totpReplays := st.totpReplays[(userID, codeHash) := expiresAt])
    case TOTPReplayExists(userID, codeHash, now) =>
      st.(totpReplays := DropExpired(st.totpReplays, (userID, codeHash), now))
    case IncrementFailedTOTP(userID) =>
      st.(failedTOTPs := st.failedTOTPs[userID := FailedCount(st.failedTOTPs, userID) + 1])
    case ResetFailedTOTP(userID) => st.(failedTOTPs := st.failedTOTPs - {userID})
    case StoreLoginThrottle(t) =>
      if Trim(t.email) == "" then st else st.(loginThrottles := st.loginThrottles[t.email := t])
    case ResetLoginThrottle(email) => st.(loginThrottles := st.loginThrottles - {email})
    case StorePasskeyCeremony(c) => st.(passkeyCeremonies := st.passkeyCeremonies[c.id := c])
    case DeletePasskeyCeremony(ceremonyID) => st.(passkeyCeremonies := st.passkeyCeremonies - {ceremonyID})
  }

  function Do(st: State, op: Op): State {
    match op
    case OnUsers(o) =>
      var (users, ids) := AfterUserOp(st.usersByID, st.userIDsByEmail, o);
      st.(usersByID := users, userIDsByEmail := ids)
    case OnPasskeys(o) =>
      var (passkeys, ids) := AfterPasskeyOp(st.passkeysByID, st.passkeyIDsByCredentialID, o);
      st.(passkeysByID := passkeys, passkeyIDsByCredentialID := ids)
    case OnRecords(o) => DoRecords(st, o)
    case MigrateTOTPSecrets(encrypt, usersDone, setupsDone) => Migrated(st, encrypt, usersDone, setupsDone)
  }

  function Run(ops: seq<Op>): State {
    if ops == [] then EMPTY else Do(Run(ops[..|ops| - 1]), ops[|ops| - 1])
  }

  // ---------------------------------------------------------------------------------------------
  // The indexes

  /** Users by id and ids by email are inverse to each other. */
  ghost predicate UsersIndexed(users: map<string, User>, idsByEmail: map<string, string>) {
    && (forall id :: id in users ==>
          users[id].id == id && users[id].email in idsByEmail && idsByEmail[users[id].email] == id)
    && (forall email :: email in idsByEmail ==>
          idsByEmail[email] in users && users[idsByEmail[email]].email == email)
  }

  /** Passkeys by id and ids by credential are inverse to each other. */
  ghost predicate PasskeysIndexed(passkeys: map<string, Passkey>, idsByCredential: map<string, string>) {
    && (forall id :: id in passkeys ==>
          && passkeys[id].id == id
          && passkeys[id].credentialID in idsByCredential && idsByCredential[passkeys[id].credentialID] == id)
    && (forall c :: c in idsByCredential ==>
          idsByCredential[c] in passkeys && passkeys[idsByCredential[c]].credentialID == c)
  }

  /** Every stored user has a base currency. */
  ghost predicate Cloned(users: map<string, User>) {
    forall id :: id in users ==> HasCurrency(users[id])
  }

  ghost predicate CodesKeyed(codes: map<CodeKey, EmailCode>) {
    forall k: CodeKey :: k in codes ==> (codes[k].email, codes[k].purpose) == k
  }

  ghost predicate ThrottlesKeyed(throttles: map<string, Throttle>) {
    forall email :: email in throttles ==> throttles[email].email == email
  }

  ghost predicate CeremoniesKeyed(ceremonies: map<string, Ceremony>) {
    forall id :: id in ceremonies ==> ceremonies[id].id == id
  }

  ghost predicate Valid(st: State) {
    && UsersIndexed(st.usersByID, st.userIDsByEmail)
    && PasskeysIndexed(st.passkeysByID, st.passkeyIDsByCredentialID)
    && Cloned(st.usersByID)
    && RecordsKeyed(st)
  }

  ghost predicate RecordsKeyed(st: State) {
    CodesKeyed(st.emailCodes) && ThrottlesKeyed(st.loginThrottles) && CeremoniesKeyed(st.passkeyCeremonies)
  }

  /** Changing records under keys that exist, but no id and no email, keeps the index. */
  lemma UsersRewritten(users: map<string, User>, users': map<string, User>, ids: map<string, string>)
    requires UsersIndexed(users, ids) && users'.Keys == users.Keys
    requires forall id :: id in users ==> users'[id].id == users[id].id && users'[id].email == users[id].email
    ensures UsersIndexed(users', ids)
  {}

  lemma UserInserted(users: map<string, User>, ids: map<string, string>, u: User)
    requires UsersIndexed(users, ids) && u.id !in users && u.email !in ids
    ensures UsersIndexed(users[u.id := Clone(u)], ids[u.email := u.id])
  {}

  lemma UserOpKeepsIndex(users: map<string, User>, ids: map<string, string>, op: UserOp)
    requires UsersIndexed(users, ids) && Cloned(users)
    ensures var (users', ids') := AfterUserOp(users, ids, op); UsersIndexed(users', ids') && Cloned(users')
  {
    match op
    case CreateUser(u) =>
      if u.id !in users && u.email !in ids { UserInserted(users, ids, u); }
    case UpdateUser(u) =>
      if u.id in users && users[u.id].email == u.email { UsersRewritten(users, users[u.id := Clone(u)], ids); }
  }

  lemma MigrationKeepsIndexes(users: map<string, User>, ids: map<string, string>, encrypt: Transform, done: set<string>)
    requires UsersIndexed(users, ids) && Cloned(users)
    ensures var users' := Rewritten(users, UserTransform(encrypt), done); UsersIndexed(users', ids) && Cloned(users')
  {
    var users' := Rewritten(users, UserTransform(encrypt), done);
    forall id | id in users
      ensures users'[id].id == users[id].id && users'[id].email == users[id].email && HasCurrency(users'[id])
    {
      assert users'[id].baseCurrency == users[id].baseCurrency;
    }
    UsersRewritten(users, users', ids);
  }

  lemma PasskeyInserted(passkeys: map<string, Passkey>, ids: map<string, string>, p: Passkey)
    requires PasskeysIndexed(passkeys, ids) && p.id !in passkeys && p.credentialID !in ids
    ensures PasskeysIndexed(passkeys[p.id := p], ids[p.credentialID := p.id])
  {}

  lemma PasskeyReplaced(passkeys: map<string, Passkey>, ids: map<string, string>, p: Passkey)
    requires PasskeysIndexed(passkeys, ids) && p.id in passkeys && passkeys[p.id].credentialID == p.credentialID
    ensures PasskeysIndexed(passkeys[p.id := p], ids)
  {}

  lemma PasskeyRemoved(passkeys: map<string, Passkey>, ids: map<string, string>, id: string)
    requires PasskeysIndexed(passkeys, ids) && id in passkeys
    ensures PasskeysIndexed(passkeys - {id}, ids - {passkeys[id].credentialID})
  {}

  lemma PasskeyOpKeepsIndex(passkeys: map<string, Passkey>, ids: map<string, string>, op: PasskeyOp)
    requires PasskeysIndexed(passkeys, ids)
    ensures var (passkeys', ids') := AfterPasskeyOp(passkeys, ids, op); PasskeysIndexed(passkeys', ids')
  {
    match op
    case CreatePasskey(p) =>
      if p.id !in passkeys && p.credentialID !in ids { PasskeyInserted(passkeys, ids, p); }
    case UpdatePasskey(p) =>
      if p.id in passkeys && passkeys[p.id].credentialID == p.credentialID { PasskeyReplaced(passkeys, ids, p); }
    case DeletePasskey(userID, passkeyID) =>
      if passkeyID in passkeys { PasskeyRemoved(passkeys, ids, passkeyID); }
  }

  lemma CodesStayKeyed(st: State, op: RecordOp)
    requires CodesKeyed(st.emailCodes)
    ensures CodesKeyed(DoRecords(st, op).emailCodes)
  {}

  lemma ThrottlesStayKeyed(st: State, op: RecordOp)
    requires ThrottlesKeyed(st.loginThrottles)
    ensures ThrottlesKeyed(DoRecords(st, op).loginThrottles)
  {}

  lemma CeremoniesStayKeyed(st: State, op: RecordOp)
    requires CeremoniesKeyed(st.passkeyCeremonies)
    ensures CeremoniesKeyed(DoRecords(st, op).passkeyCeremonies)
  {}

  lemma RecordsStayKeyed(st: State, op: RecordOp)
    requires RecordsKeyed(st)
    ensures RecordsKeyed(DoRecords(st, op))
  {
    CodesStayKeyed(st, op);
    ThrottlesStayKeyed(st, op);
    CeremoniesStayKeyed(st, op);
  }

  lemma DoKeepsValid(st: State, op: Op)
    requires Valid(st)
    ensures Valid(Do(st, op))
  {
    match op
    case OnUsers(o) => UserOpKeepsIndex(st.usersByID, st.userIDsByEmail, o);
    case OnPasskeys(o) => PasskeyOpKeepsIndex(st.passkeysByID, st.passkeyIDsByCredentialID, o);
    case OnRecords(o) => RecordsStayKeyed(st, o);
    case MigrateTOTPSecrets(encrypt, usersDone, _) =>
      MigrationKeepsIndexes(st.usersByID, st.userIDsByEmail, encrypt, usersDone);
  }

  /** In every reachable state both indexes are inverse and every record carries its key. */
  lemma {:induction false} RunKeepsIndexes(ops: seq<Op>)
    ensures Valid(Run(ops))
  {
    if ops != [] {
      RunKeepsIndexes(ops[..|ops| - 1]);
      DoKeepsValid(Run(ops[..|ops| - 1]), ops[|ops| - 1]);
    }
  }

  // ---------------------------------------------------------------------------------------------
  // Snapshots

  datatype Snapshot = Durable(
    users: seq<User>,
    sessions: map<string, Session>,
    emailCodes: seq<EmailCode>,
    pendingTOTP: map<string, Setup>,
    totpReplays: seq<Replay>,
    failedTOTPs: map<string, int>,
    loginThrottles: map<string, Throttle>,
    failedLogins: map<string, int>,       // written by older versions only
    passkeys: seq<Passkey>,
    passkeyCeremonies: seq<Ceremony>)

  /** `l` lists the entries of `m` as `view` shows them, in some order. */
  ghost predicate Lists<K(!new), V, X>(l: seq<X>, m: map<K, V>, view: (K, V) -> X) {
    && |l| == |m|
    && (forall i :: 0 <= i < |l| ==> exists k :: k in m && l[i] == view(k, m[k]))
    && (forall k :: k in m ==> view(k, m[k]) in l)
  }

  function CloneOf(id: string, u: User): User { Clone(u) }
  function CodeOf(k: CodeKey, c: EmailCode): EmailCode { c }
  function ReplayOf(k: ReplayKey, expiresAt: int): Replay { Replay(k.0, k.1, expiresAt) }
  function PasskeyOf(id: string, p: Passkey): Passkey { p }
  function CeremonyOf(id: string, c: Ceremony): Ceremony { c }

  ghost predicate IsSnapshot(snap: Snapshot, st: State) {
    && Lists(snap.users, st.usersByID, CloneOf)
    && snap.sessions == st.sessions
    && Lists(snap.emailCodes, st.emailCodes, CodeOf)
    && snap.pendingTOTP == st.pendingTOTP
    && Lists(snap.totpReplays, st.totpReplays, ReplayOf)
    && snap.failedTOTPs == st.failedTOTPs
    && snap.loginThrottles == st.loginThrottles
    && snap.failedLogins == map[]
    && Lists(snap.passkeys, st.passkeysByID, PasskeyOf)
    && Lists(snap.passkeyCeremonies, st.passkeyCeremonies, CeremonyOf)
  }

  /** The map a loop `m[key(x)] = val(x)` over the list fills. */
  function Folded<X, K, V>(l: seq<X>, key: X -> K, val: X -> V): map<K, V> {
    if l == [] then map[] else Folded(l[..|l| - 1], key, val)[key(l[|l| - 1]) := val(l[|l| - 1])]
  }

  function UserID(u: User): string { u.id }
  function UserEmail(u: User): string { u.email }
  function CodeKeyOf(c: EmailCode): CodeKey { (c.email, c.purpose) }
  function CodeSelf(c: EmailCode): EmailCode { c }
  function ReplayKeyOf(r: Replay): ReplayKey { (r.userID, r.codeHash) }
  function ReplayExpiry(r: Replay): int { r.expiresAt }
  function PasskeyID(p: Passkey): string { p.id }
  function PasskeyCredential(p: Passkey): string { p.credentialID }
  function PasskeySelf(p: Passkey): Passkey { p }
  function CeremonyID(c: Ceremony): string { c.id }
  function CeremonySelf(c: Ceremony): Ceremony { c }

  /** Each throttle under its key, a blank email filled in; old failure counts where there is none. */
  function MergedThrottles(throttles: map<string, Throttle>, failedLogins: map<string, int>): map<string, Throttle> {
    map email | email in throttles.Keys + failedLogins.Keys ::
      if email !in throttles then Throttle(email, failedLogins[email], 0, 0)
      else if throttles[email].email == "" then throttles[email].(email := email)
      else throttles[email]
  }

  function Restored(snap: Snapshot): State {
    State(
      Folded(snap.users, UserID, Clone), Folded(snap.users, UserEmail, UserID),
      snap.sessions,
      Folded(snap.emailCodes, CodeKeyOf, CodeSelf),
      snap.pendingTOTP,
      Folded(snap.totpReplays, ReplayKeyOf, ReplayExpiry),
      snap.failedTOTPs,
      MergedThrottles(snap.loginThrottles, snap.failedLogins),
      Folded(snap.passkeys, PasskeyID, PasskeySelf), Folded(snap.passkeys, PasskeyCredential, PasskeyID),
      Folded(snap.passkeyCeremonies, CeremonyID, CeremonySelf))
  }

  lemma {:induction false} FoldedEntries<X, K, V>(l: seq<X>, key: X -> K, val: X -> V, m: map<K, V>)
    requires forall i :: 0 <= i < |l| ==> key(l[i]) in m && m[key(l[i])] == val(l[i])
    ensures Folded(l, key, val).Keys <= m.Keys
    ensures forall k :: k in Folded(l, key, val) ==> Folded(l, key, val)[k] == m[k]
    ensures forall i :: 0 <= i < |l| ==> key(l[i]) in Folded(l, key, val)
  {
    if l != [] { FoldedEntries(l[..|l| - 1], key, val, m); }
  }

  /** A list that agrees with a map and covers its keys folds to that map, whatever its order. */
  lemma FoldedIs<X, K, V>(l: seq<X>, key: X -> K, val: X -> V, m: map<K, V>)
    requires forall i :: 0 <= i < |l| ==> key(l[i]) in m && m[key(l[i])] == val(l[i])
    requires forall k :: k in m ==> exists i :: 0 <= i < |l| && key(l[i]) == k
    ensures Folded(l, key, val) == m
  {
    FoldedEntries(l, key, val, m);
  }

  /** A listing of `m`, in whatever order, folds to `m'` when the entries of `m` determine those of `m'`. */
  lemma ListFoldsTo<K(!new), V, X, K'(!new), V'>(
    l: seq<X>, m: map<K, V>, view: (K, V) -> X, key: X -> K', val: X -> V', m': map<K', V'>
  )
    requires Lists(l, m, view)
    requires forall k :: k in m ==> key(view(k, m[k])) in m' && m'[key(view(k, m[k]))] == val(view(k, m[k]))
    requires forall k' :: k' in m' ==> exists k :: k in m && key(view(k, m[k])) == k'
    ensures Folded(l, key, val) == m'
  {
    forall k' | k' in m' ensures exists i :: 0 <= i < |l| && key(l[i]) == k' {
      var k :| k in m && key(view(k, m[k])) == k';
      assert view(k, m[k]) in l;
    }
    FoldedIs(l, key, val, m');
  }

  lemma UsersRestored(users: seq<User>, byID: map<string, User>, byEmail: map<string, string>)
    requires UsersIndexed(byID, byEmail) && Cloned(byID) && Lists(users, byID, CloneOf)
    ensures Folded(users, UserID, Clone) == byID && Folded(users, UserEmail, UserID) == byEmail
  {
    forall id | id in byID ensures UserID(CloneOf(id, byID[id])) == id && Clone(CloneOf(id, byID[id])) == byID[id] {}
    ListFoldsTo(users, byID, CloneOf, UserID, Clone, byID);
    forall email | email in byEmail ensures exists id :: id in byID && UserEmail(CloneOf(id, byID[id])) == email {
      assert UserEmail(CloneOf(byEmail[email], byID[byEmail[email]])) == email;
    }
    ListFoldsTo(users, byID, CloneOf, UserEmail, UserID, byEmail);
  }

  lemma PasskeysRestored(passkeys: seq<Passkey>, byID: map<string, Passkey>, byCredential: map<string, string>)
    requires PasskeysIndexed(byID, byCredential) && Lists(passkeys, byID, PasskeyOf)
    ensures Folded(passkeys, PasskeyID, PasskeySelf) == byID
    ensures Folded(passkeys, PasskeyCredential, PasskeyID) == byCredential
  {
    forall id | id in byID ensures PasskeyID(PasskeyOf(id, byID[id])) == id {}
    ListFoldsTo(passkeys, byID, PasskeyOf, PasskeyID, PasskeySelf, byID);
    forall c | c in byCredential ensures exists id :: id in byID && PasskeyCredential(PasskeyOf(id, byID[id])) == c {
      assert PasskeyCredential(PasskeyOf(byCredential[c], byID[byCredential[c]])) == c;
    }
    ListFoldsTo(passkeys, byID, PasskeyOf, PasskeyCredential, PasskeyID, byCredential);
  }

  lemma CodesRestored(codes: seq<EmailCode>, m: map<CodeKey, EmailCode>)
    requires CodesKeyed(m) && Lists(codes, m, CodeOf)
    ensures Folded(codes, CodeKeyOf, CodeSelf) == m
  {
    forall k: CodeKey | k in m ensures CodeKeyOf(CodeOf(k, m[k])) == k {}
    ListFoldsTo(codes, m, CodeOf, CodeKeyOf, CodeSelf, m);
  }

  lemma ReplaysRestored(replays: seq<Replay>, m: map<ReplayKey, int>)
    requires Lists(replays, m, ReplayOf)
    ensures Folded(replays, ReplayKeyOf, ReplayExpiry) == m
  {
    forall k: ReplayKey | k in m ensures ReplayKeyOf(ReplayOf(k, m[k])) == k {}
    ListFoldsTo(replays, m, ReplayOf, ReplayKeyOf, ReplayExpiry, m);
  }

  lemma CeremoniesRestored(ceremonies: seq<Ceremony>, m: map<string, Ceremony>)
    requires CeremoniesKeyed(m) && Lists(ceremonies, m, CeremonyOf)
    ensures Folded(ceremonies, CeremonyID, CeremonySelf) == m
  {
    forall id | id in m ensures CeremonyID(CeremonyOf(id, m[id])) == id {}
    ListFoldsTo(ceremonies, m, CeremonyOf, CeremonyID, CeremonySelf, m);
  }

  lemma ThrottlesRestored(throttles: map<string, Throttle>)
    requires ThrottlesKeyed(throttles)
    ensures MergedThrottles(throttles, map[]) == throttles
  {}

  lemma IndexesRestored(st: State, snap: Snapshot)
    requires Valid(st) && IsSnapshot(snap, st)
    ensures var r := Restored(snap);
            && r.usersByID == st.usersByID && r.userIDsByEmail == st.userIDsByEmail
            && r.passkeysByID == st.passkeysByID && r.passkeyIDsByCredentialID == st.passkeyIDsByCredentialID
  {
    UsersRestored(snap.users, st.usersByID, st.userIDsByEmail);
    PasskeysRestored(snap.passkeys, st.passkeysByID, st.passkeyIDsByCredentialID);
  }

  lemma RecordsRestored(st: State, snap: Snapshot)
    requires Valid(st) && IsSnapshot(snap, st)
    ensures var r := Restored(snap);
            && r.emailCodes == st.emailCodes && r.totpReplays == st.totpReplays
            && r.passkeyCeremonies == st.passkeyCeremonies && r.loginThrottles == st.loginThrottles
  {
    CodesRestored(snap.emailCodes, st.emailCodes);
    ReplaysRestored(snap.totpReplays, st.totpReplays);
    CeremoniesRestored(snap.passkeyCeremonies, st.passkeyCeremonies);
    ThrottlesRestored(st.loginThrottles);
  }

  lemma RestoredIs(st: State, snap: Snapshot)
    requires Valid(st) && IsSnapshot(snap, st)
    ensures Restored(snap) == st
  {
    IndexesRestored(st, snap);
    RecordsRestored(st, snap);
  }

  /** Rebuilding a reachable store from any snapshot of it, in any order, gives back the store. */
  lemma SnapshotRoundTrip(ops: seq<Op>, snap: Snapshot)
    requires IsSnapshot(snap, Run(ops))
    ensures Restored(snap) == Run(ops)
  {
    RunKeepsIndexes(ops);
    RestoredIs(Run(ops), snap);
  }

  method List<K(==, !new), V, X>(m: map<K, V>, view: (K, V) -> X) returns (l: seq<X>)
    ensures Lists(l, m, view)
  {
    l := [];
    var todo := m.Keys;
    while todo != {}
      invariant todo <= m.Keys && |l| + |todo| == |m|
      invariant forall i :: 0 <= i < |l| ==> exists k :: k in m && l[i] == view(k, m[k])
      invariant forall k :: k in m && k !in todo ==> view(k, m[k]) in l
      decreases todo
    {
      var k :| k in todo;
      l := l + [view(k, m[k])];
      todo := todo - {k};
    }
  }

  method Fold<X, K(==), V>(l: seq<X>, key: X -> K, val: X -> V) returns (m: map<K, V>)
    ensures m == Folded(l, key, val)
  {
    m := map[];
    for i := 0 to |l|
      invariant m == Folded(l[..i], key, val)
    {
      assert l[..i + 1][..i] == l[..i];
      m := m[key(l[i]) := val(l[i])];
    }
    assert l[..|l|] == l;
  }

  method MergeThrottles(throttles: map<string, Throttle>, failedLogins: map<string, int>) returns (m: map<string,
      Throttle>)
    ensures m == MergedThrottles(throttles, failedLogins)
  {
    m := map[];
    var todo := throttles.Keys;
    while todo != {}
      invariant todo <= throttles.Keys && m.Keys == throttles.Keys - todo
      invariant forall email :: email in m ==> m[email] == MergedThrottles(throttles, failedLogins)[email]
      decreases todo
    {
      var email :| email in todo;
      var throttle := throttles[email];
      if throttle.email == "" {
        throttle := throttle.(email := email);
      }
      m := m[email := throttle];
      todo := todo - {email};
    }
    todo := failedLogins.Keys;
    while todo != {}
      invariant todo <= failedLogins.Keys && m.Keys == throttles.Keys + (failedLogins.Keys - todo)
      invariant forall email :: email in m ==> m[email] == MergedThrottles(throttles, failedLogins)[email]
      decreases todo
    {
      var email :| email in todo;
      if email !in m {
        m := m[email := Throttle(email, failedLogins[email], 0, 0)];
      }
      todo := todo - {email};
    }
  }

  // ---------------------------------------------------------------------------------------------
  // The store

  class MemoryStore {
    var usersByID: map<string, User>
    var userIDsByEmail: map<string, string>
    var sessions: map<string, Session>
    var emailCodes: map<CodeKey, EmailCode>
    var pendingTOTP: map<string, Setup>
    var totpReplays: map<ReplayKey, int>
    var failedTOTPs: map<string, int>
    var loginThrottles: map<string, Throttle>
    var passkeysByID: map<string, Passkey>
    var passkeyIDsByCredentialID: map<string, string>
    var passkeyCeremonies: map<string, Ceremony>

    ghost function Contents(): State
      reads this
    {
      State(usersByID, userIDsByEmail, sessions, emailCodes, pendingTOTP, totpReplays, failedTOTPs, loginThrottles,
            passkeysByID, passkeyIDsByCredentialID, passkeyCeremonies)
    }

    constructor ()
      ensures Contents() == EMPTY
    {
      usersByID, userIDsByEmail, sessions, emailCodes, pendingTOTP := map[], map[], map[], map[], map[];
      totpReplays, failedTOTPs, loginThrottles := map[], map[], map[];
      passkeysByID, passkeyIDsByCredentialID, passkeyCeremonies := map[], map[], map[];
    }

    /** `NewMemoryStoreFromSnapshot`. */
    constructor FromSnapshot(snap: Snapshot)
      ensures Contents() == Restored(snap)
    {
      var users := Fold(snap.users, UserID, Clone);
      var ids := Fold(snap.users, UserEmail, UserID);
      var codes := Fold(snap.emailCodes, CodeKeyOf, CodeSelf);
      var replays := Fold(snap.totpReplays, ReplayKeyOf, ReplayExpiry);
      var throttles := MergeThrottles(snap.loginThrottles, snap.failedLogins);
      var passkeys := Fold(snap.passkeys, PasskeyID, PasskeySelf);
      var credentials := Fold(snap.passkeys, PasskeyCredential, PasskeyID);
      var ceremonies := Fold(snap.passkeyCeremonies, CeremonyID, CeremonySelf);
      usersByID, userIDsByEmail := users, ids;
      sessions, emailCodes, pendingTOTP := snap.sessions, codes, snap.pendingTOTP;
      totpReplays, failedTOTPs, loginThrottles := replays, snap.failedTOTPs, throttles;
      passkeysByID, passkeyIDsByCredentialID, passkeyCeremonies := passkeys, credentials, ceremonies;
    }

    method Snapshot() returns (snap: Snapshot)
      ensures IsSnapshot(snap, Contents())
    {
      var users := List(usersByID, CloneOf);
      var codes := List(emailCodes, CodeOf);
      var replays := List(totpReplays, ReplayOf);
      var passkeys := List(passkeysByID, PasskeyOf);
      var ceremonies := List(passkeyCeremonies, CeremonyOf);
      snap := Durable(users, sessions, codes, pendingTOTP, replays, failedTOTPs, loginThrottles, map[],
                      passkeys, ceremonies);
    }

    method CreateUser(user: User) returns (r: Result<User, StoreError>)
      modifies this
      ensures Contents() == Do(old(Contents()), OnUsers(UserOp.CreateUser(user)))
      ensures r.Ok? <==> user.id !in old(usersByID) && user.email !in old(userIDsByEmail)
      ensures r.Ok? ==> r.value == usersByID[user.id]
    {
      if user.id in usersByID {
        return Err(Exists);
      }
      if user.email in userIDsByEmail {
        return Err(Exists);
      }
      usersByID := usersByID[user.id := Clone(user)];
      userIDsByEmail := userIDsByEmail[user.email := user.id];
      return Ok(Clone(user));
    }

    /** With the index intact the lookup finds exactly the user that has the email. */
    method UserByEmail(email: string) returns (r: Result<User, StoreError>)
      requires Valid(Contents())
      ensures r.Ok? ==> r.value in usersByID.Values && r.value.email == email
      ensures r.Err? ==> forall id :: id in usersByID ==> usersByID[id].email != email
    {
      if email !in userIDsByEmail {
        return Err(NotFound);
      }
      return Ok(Clone(usersByID[userIDsByEmail[email]]));
    }

    method UpdateUser(user: User) returns (r: Result<User, StoreError>)
      modifies this
      ensures Contents() == Do(old(Contents()), OnUsers(UserOp.UpdateUser(user)))
      ensures r.Ok? <==> user.id in old(usersByID) && old(usersByID)[user.id].email == user.email
      ensures r.Ok? ==> r.value == usersByID[user.id]
    {
      if user.id !in usersByID {
        return Err(NotFound);
      }
      if usersByID[user.id].email != user.email {
        return Err(Immutable);
      }
      usersByID := usersByID[user.id := Clone(user)];
      return Ok(Clone(user));
    }

    method DeleteSessionsByUser(userID: string)
      modifies this
      ensures Contents() == DoRecords(old(Contents()), RecordOp.DeleteSessionsByUser(userID))
    {
      ghost var before := sessions;
      var todo := sessions.Keys;
      while todo != {}
        invariant Contents() == old(Contents()).(sessions := sessions)
        invariant todo <= sessions.Keys <= before.Keys
        invariant forall t :: t in before ==> (t in sessions <==> t in todo || before[t].userID != userID)
        invariant forall t :: t in sessions ==> sessions[t] == before[t]
        decreases todo
      {
        var tokenHash :| tokenHash in todo;
        if sessions[tokenHash].userID == userID {
          sessions := sessions - {tokenHash};
        }
        todo := todo - {tokenHash};
      }
    }

    method StoreSession(tokenHash: string, session: Session)
      modifies this`sessions
      ensures Contents() == DoRecords(old(Contents()), RecordOp.StoreSession(tokenHash, session))
    {
      sessions := sessions[tokenHash := session];
    }

    method DeleteSession(tokenHash: string)
      modifies this`sessions
      ensures Contents() == DoRecords(old(Contents()), RecordOp.DeleteSession(tokenHash))
    {
      sessions := sessions - {tokenHash};
    }

    method StoreEmailCode(code: EmailCode)
      modifies this`emailCodes
      ensures Contents() == DoRecords(old(Contents()), RecordOp.StoreEmailCode(code))
    {
      emailCodes := emailCodes[(code.email, code.purpose) := code];
    }

    method DeleteEmailCode(email: string, purpose: string)
      modifies this`emailCodes
      ensures Contents() == DoRecords(old(Contents()), RecordOp.DeleteEmailCode(email, purpose))
    {
      emailCodes := emailCodes - {(email, purpose)};
    }

    method StorePendingTOTPSetup(sessionID: string, setup: Setup)
      modifies this`pendingTOTP
      ensures Contents() == DoRecords(old(Contents()), RecordOp.StorePendingTOTPSetup(sessionID, setup))
    {
      pendingTOTP := pendingTOTP[sessionID := setup];
    }

    method DeletePendingTOTPSetup(sessionID: string)
      modifies this`pendingTOTP
      ensures Contents() == DoRecords(old(Contents()), RecordOp.DeletePendingTOTPSetup(sessionID))
    {
      pendingTOTP := pendingTOTP - {sessionID};
    }

    method StoreTOTPReplay(userID: string, codeHash: string, expiresAt: int)
      modifies this`totpReplays
      ensures Contents() == DoRecords(old(Contents()), RecordOp.StoreTOTPReplay(userID, codeHash, expiresAt))
    {
      totpReplays := totpReplays[(userID, codeHash) := expiresAt];
    }

    method IncrementFailedTOTP(userID: string) returns (count: int)
      modifies this`failedTOTPs
      ensures Contents() == DoRecords(old(Contents()), RecordOp.IncrementFailedTOTP(userID))
      ensures userID in failedTOTPs && count == failedTOTPs[userID]
    {
      count := FailedTOTPCount(userID);
      count := count + 1;
      failedTOTPs := failedTOTPs[userID := count];
    }

    method FailedTOTPCount(userID: string) returns (count: int)
      ensures count == FailedCount(failedTOTPs, userID)
    {
      return if userID in failedTOTPs then failedTOTPs[userID] else 0;
    }

    method ResetFailedTOTP(userID: string)
      modifies this`failedTOTPs
      ensures Contents() == DoRecords(old(Contents()), RecordOp.ResetFailedTOTP(userID))
    {
      failedTOTPs := failedTOTPs - {userID};
    }

    method LoginThrottle(email: string) returns (throttle: Throttle)
      ensures throttle == ThrottleOf(loginThrottles, email)
    {
      return if email in loginThrottles then loginThrottles[email] else Throttle("", 0, 0, 0);
    }

    method ResetLoginThrottle(email: string)
      modifies this`loginThrottles
      ensures Contents() == DoRecords(old(Contents()), RecordOp.ResetLoginThrottle(email))
    {
      loginThrottles := loginThrottles - {email};
    }

    method StorePasskeyCeremony(ceremony: Ceremony)
      modifies this`passkeyCeremonies
      ensures Contents() == DoRecords(old(Contents()), RecordOp.StorePasskeyCeremony(ceremony))
    {
      passkeyCeremonies := passkeyCeremonies[ceremony.id := ceremony];
    }

    method DeletePasskeyCeremony(ceremonyID: string)
      modifies this`passkeyCeremonies
      ensures Contents() == DoRecords(old(Contents()), RecordOp.DeletePasskeyCeremony(ceremonyID))
    {
      passkeyCeremonies := passkeyCeremonies - {ceremonyID};
    }

    method TOTPReplayExists(userID: string, codeHash: string, now: int) returns (exists_: bool)
      modifies this`totpReplays
      ensures Contents() == DoRecords(old(Contents()), RecordOp.TOTPReplayExists(userID, codeHash, now))
      ensures exists_ <==> (userID, codeHash) in totpReplays
      ensures exists_ <==> (userID, codeHash) in old(totpReplays) && old(totpReplays)[(userID, codeHash)] > now
    {
      var key := (userID, codeHash);
      if key !in totpReplays {
        return false;
      }
      if totpReplays[key] <= now {
        totpReplays := totpReplays - {key};
        return false;
      }
      return true;
    }

    method StoreLoginThrottle(throttle: Throttle) returns (r: Result<(), StoreError>)
      modifies this`loginThrottles
      ensures Contents() == DoRecords(old(Contents()), RecordOp.StoreLoginThrottle(throttle))
      ensures r.Ok? <==> Trim(throttle.email) != ""
    {
      if Trim(throttle.email) == "" {
        return Err(EmailRequired);
      }
      loginThrottles := loginThrottles[throttle.email := throttle];
      return Ok(());
    }

    method CreatePasskey(passkey: Passkey) returns (r: Result<Passkey, StoreError>)
      modifies this
      ensures Contents() == Do(old(Contents()), OnPasskeys(PasskeyOp.CreatePasskey(passkey)))
      ensures r.Ok? <==> passkey.id !in old(passkeysByID) && passkey.credentialID !in old(passkeyIDsByCredentialID)
      ensures r.Ok? ==> r.value == passkeysByID[passkey.id]
    {
      if passkey.id in passkeysByID {
        return Err(Exists);
      }
      if passkey.credentialID in passkeyIDsByCredentialID {
        return Err(Exists);
      }
      passkeysByID := passkeysByID[passkey.id := passkey];
      passkeyIDsByCredentialID := passkeyIDsByCredentialID[passkey.credentialID := passkey.id];
      return Ok(passkey);
    }

    method UpdatePasskey(passkey: Passkey) returns (r: Result<Passkey, StoreError>)
      modifies this
      ensures Contents() == Do(old(Contents()), OnPasskeys(PasskeyOp.UpdatePasskey(passkey)))
      ensures r.Ok? ==> passkey.id in passkeysByID && r.value == passkeysByID[passkey.id]
    {
      if passkey.id !in passkeysByID {
        return Err(NotFound);
      }
      var existing := passkeysByID[passkey.id];
      if existing.userID != passkey.userID {
        return Err(Immutable);
      }
      if existing.credentialID != passkey.credentialID {
        return Err(Immutable);
      }
      passkeysByID := passkeysByID[passkey.id := passkey];
      return Ok(passkey);
    }

    method DeletePasskey(userID: string, passkeyID: string) returns (r: Result<(), StoreError>)
      modifies this
      ensures Contents() == Do(old(Contents()), OnPasskeys(PasskeyOp.DeletePasskey(userID, passkeyID)))
      ensures r.Ok? <==> passkeyID in old(passkeysByID) && old(passkeysByID)[passkeyID].userID == userID
    {
      if passkeyID !in passkeysByID || passkeysByID[passkeyID].userID != userID {
        return Err(NotFound);
      }
      var passkey := passkeysByID[passkeyID];
      passkeysByID := passkeysByID - {passkeyID};
      passkeyIDsByCredentialID := passkeyIDsByCredentialID - {passkey.credentialID};
      return Ok(());
    }

    /** With the index intact the lookup finds exactly the passkey that has the credential. */
    method PasskeyByCredentialID(credentialID: string) returns (r: Result<Passkey, StoreError>)
      requires Valid(Contents())
      ensures r.Ok? ==> r.value in passkeysByID.Values && r.value.credentialID == credentialID
      ensures r.Err? ==> forall id :: id in passkeysByID ==> passkeysByID[id].credentialID != credentialID
    {
      if credentialID !in passkeyIDsByCredentialID {
        return Err(NotFound);
      }
      return Ok(passkeysByID[passkeyIDsByCredentialID[credentialID]]);
    }

    /** Stops at the first secret that cannot be encrypted, with the secrets before it rewritten. */
    method MigrateTOTPSecrets(encrypt: Transform)
      returns (r: Result<(), StoreError>, ghost usersDone: set<string>, ghost setupsDone: set<string>)
      modifies this
      ensures Contents() == Do(old(Contents()), Op.MigrateTOTPSecrets(encrypt, usersDone, setupsDone))
      ensures r.Ok? ==>
                && AllTransformed(old(usersByID), UserTransform(encrypt), usersDone)
                && AllTransformed(old(pendingTOTP), SetupTransform(encrypt), setupsDone)
    {
      var ok;
      setupsDone := {};
      usersByID, ok, usersDone := Rewrite(usersByID, UserTransform(encrypt));
      if ok {
        pendingTOTP, ok, setupsDone := Rewrite(pendingTOTP, SetupTransform(encrypt));
      } else {
        assert Rewritten(pendingTOTP, SetupTransform(encrypt), {}) == pendingTOTP;
      }
      r := if ok then Ok(()) else Err(EncryptFailed);
    }
  }
}
