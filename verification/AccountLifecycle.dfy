/**
 Accounts and the rows they own: the transactions of the account service
 (internal/account/service/account_service*.go) and of the social login
 (internal/auth/service/social_login_service.go) over the live rows of the
 tables, with their partial unique indexes.  A soft-deleted credential,
 identity or role link has left its table; a deleted account stays, marked.
 */
module AccountLifecycle {
  import opened Common

  datatype Status = Active | Suspended | Deleted
  datatype Kind = Password | Email | Phone | Totp | WebAuthn | BackupCode

  datatype Account = Account(status: Status, username: Option<string>)
  datatype Credential = Credential(account: string, kind: Kind, identifier: Option<string>, value: string, verified: bool)
  datatype Identity = Identity(account: string, provider: string, user: string)

  type Accounts = map<string, Account>
  type Credentials = map<string, Credential>
  type Identities = map<string, Identity>

  datatype Db = Db(accounts: Accounts, creds: Credentials, identities: Identities, roles: set<(string, string)>, knownRoles: set<string>)

  datatype Error = Invalid | NotFound | NotActive | Taken | LastWayIn | WrongPassword | BadTransition

  // ----- lookups and the unique indexes -----

  predicate IsActive(accounts: Accounts, a: string) {
    a in accounts && accounts[a].status.Active?
  }

  predicate Live(accounts: Accounts, a: string) {
    a in accounts && !accounts[a].status.Deleted?
  }

  predicate CredTaken(creds: Credentials, kind: Kind, identifier: string) {
    exists c :: c in creds && creds[c].kind == kind && creds[c].identifier == Some(identifier)
  }

  predicate IdentityTaken(identities: Identities, provider: string, user: string) {
    exists i :: i in identities && identities[i].provider == provider && identities[i].user == user
  }

  predicate UsernameTaken(accounts: Accounts, username: Option<string>) {
    username.Some? && exists a :: a in accounts && !accounts[a].status.Deleted? && accounts[a].username == username
  }

  predicate HasPassword(creds: Credentials, a: string) {
    exists c :: c in creds && creds[c].account == a && creds[c].kind.Password?
  }

  /** An identity of the account other than `but`. */
  predicate HasOtherIdentity(identities: Identities, a: string, but: string) {
    exists i :: i in identities && identities[i].account == a && i != but
  }

  predicate HasIdentity(identities: Identities, a: string) {
    exists i :: i in identities && identities[i].account == a
  }

  // ----- the transactions -----

  datatype Registration = Registration(
    id: string, username: Option<string>, email: string, phone: string, passwordHash: string,
    passwordId: string, emailId: string, phoneId: string, wellFormed: bool)

  function AddContact(creds: Credentials, id: string, account: string, kind: Kind, identifier: string, verified: bool): Credentials {
    if identifier == "" then creds else creds[id := Credential(account, kind, Some(identifier), "", verified)]
  }

  /** The batch of credentials a registration inserts. */
  function WithRegistered(creds: Credentials, q: Registration): Credentials {
    var c0 := creds[q.passwordId := Credential(q.id, Password, None, q.passwordHash, true)];
    var c1 := AddContact(c0, q.emailId, q.id, Email, q.email, false);
    AddContact(c1, q.phoneId, q.id, Phone, q.phone, false)
  }

  function Register(db: Db, q: Registration): Result<Db, Error> {
    if !q.wellFormed || (q.email == "" && q.phone == "") then Err(Invalid)
    else if q.email != "" && CredTaken(db.creds, Email, q.email) then Err(Taken)
    else if q.phone != "" && CredTaken(db.creds, Phone, q.phone) then Err(Taken)
    else if q.id in db.accounts || UsernameTaken(db.accounts, q.username) then Err(Taken)
    else if q.passwordId == q.emailId || q.emailId == q.phoneId || q.passwordId == q.phoneId || q.passwordId in db.creds || q.emailId in db.creds || q.phoneId in db.creds
    then Err(Taken)
    else Ok(db.(accounts := db.accounts[q.id := Account(Active, q.username)], creds := WithRegistered(db.creds, q)))
  }

  function Bind(db: Db, a: string, id: string, provider: string, user: string): Result<Db, Error> {
    if provider == "" || user == "" then Err(Invalid)
    else if !Live(db.accounts, a) then Err(NotFound)
    else if !IsActive(db.accounts, a) then Err(NotActive)
    else if id in db.identities || IdentityTaken(db.identities, provider, user) then Err(Taken)
    else Ok(db.(identities := db.identities[id := Identity(a, provider, user)]))
  }

  function Unbind(db: Db, a: string, id: string): Result<Db, Error> {
    if !IsActive(db.accounts, a) then Err(NotActive)
    else if !HasPassword(db.creds, a) && !HasOtherIdentity(db.identities, a, id) then Err(LastWayIn)
    else if id !in db.identities || db.identities[id].account != a then Err(NotFound)
    else Ok(db.(identities := db.identities - {id}))
  }

  function AssignRole(db: Db, a: string, role: string): Result<Db, Error> {
    if !IsActive(db.accounts, a) then Err(NotActive)
    else if role !in db.knownRoles then Err(NotFound)
    else Ok(db.(roles := db.roles + {(a, role)}))
  }

  function RemoveRole(db: Db, a: string, role: string): Result<Db, Error> {
    if !IsActive(db.accounts, a) then Err(NotActive)
    else if (a, role) !in db.roles then Err(NotFound)
    else Ok(db.(roles := db.roles - {(a, role)}))
  }

  predicate IsMfa(k: Kind) {
    k.Totp? || k.BackupCode? || k.WebAuthn?
  }

  function WithoutMfa(creds: Credentials, a: string): (r: Credentials)
    ensures forall c :: c in r <==> c in creds && !(creds[c].account == a && IsMfa(creds[c].kind))
    ensures forall c | c in r :: r[c] == creds[c]
  {
    map c | c in creds && !(creds[c].account == a && IsMfa(creds[c].kind)) :: creds[c]
  }

  /** The account is looked up before the transaction; only deletion hides it. */
  function ResetMfa(db: Db, a: string): Result<Db, Error> {
    if !Live(db.accounts, a) then Err(NotFound) else Ok(db.(creds := WithoutMfa(db.creds, a)))
  }

  function CredsWithout(creds: Credentials, a: string): (r: Credentials)
    ensures forall c :: c in r <==> c in creds && creds[c].account != a
    ensures forall c | c in r :: r[c] == creds[c]
  {
    map c | c in creds && creds[c].account != a :: creds[c]
  }

  function IdentitiesWithout(identities: Identities, a: string): (r: Identities)
    ensures forall i :: i in r <==> i in identities && identities[i].account != a
    ensures forall i | i in r :: r[i] == identities[i]
  {
    map i | i in identities && identities[i].account != a :: identities[i]
  }

  /** Idempotent: deleting a deleted account succeeds and changes nothing. */
  function SoftDelete(db: Db, a: string): Result<Db, Error> {
    if a !in db.accounts then Err(NotFound)
    else if db.accounts[a].status.Deleted? then Ok(db)
    else Ok(db.(accounts := db.accounts[a := db.accounts[a].(status := Deleted)],
                creds := CredsWithout(db.creds, a),
                identities := IdentitiesWithout(db.identities, a),
                roles := set r | r in db.roles && r.0 != a))
  }

  function Transition(db: Db, a: string, from: Status, to: Status): Result<Db, Error> {
    if a !in db.accounts || db.accounts[a].status != from then Err(BadTransition)
    else Ok(db.(accounts := db.accounts[a := db.accounts[a].(status := to)]))
  }

  function Suspend(db: Db, a: string): Result<Db, Error> { Transition(db, a, Active, Suspended) }
  function Activate(db: Db, a: string): Result<Db, Error> { Transition(db, a, Suspended, Active) }

  /** c is the row the query returned first; `matches` is VerifyPassword on the old password. */
  function ChangePassword(db: Db, a: string, c: string, matches: bool, newHash: string): Result<Db, Error> {
    if !IsActive(db.accounts, a) then Err(NotActive)
    else if c !in db.creds || db.creds[c].account != a || !db.creds[c].kind.Password? then Err(NotFound)
    else if !matches then Err(WrongPassword)
    else Ok(db.(creds := db.creds[c := db.creds[c].(value := newHash)]))
  }

  function VerifyContact(db: Db, a: string, c: string): Result<Db, Error> {
    if !IsActive(db.accounts, a) then Err(NotActive)
    else if c !in db.creds || db.creds[c].account != a || !(db.creds[c].kind.Email? || db.creds[c].kind.Phone?) then Err(NotFound)
    else Ok(db.(creds := db.creds[c := db.creds[c].(verified := true)]))
  }

  /** createAccountWithIdentity: all or nothing. */
  function CreateWithIdentity(db: Db, a: string, email: string, emailVerified: bool, emailId: string,
                              id: string, provider: string, user: string): Result<Db, Error>
  {
    if provider == "" || user == "" then Err(Invalid)
    else if a in db.accounts then Err(Taken)
    else if email != "" && (CredTaken(db.creds, Email, email) || emailId in db.creds) then Err(Taken)
    else if id in db.identities || IdentityTaken(db.identities, provider, user) then Err(Taken)
    else Ok(db.(accounts := db.accounts[a := Account(Active, None)],
                creds := AddContact(db.creds, emailId, a, Email, email, emailVerified),
                identities := db.identities[id := Identity(a, provider, user)]))
  }

  /** linkByEmailIfVerified, first half: the account of a verified credential with this email. */
  function FindVerified(db: Db, c: string, email: string): Option<string> {
    if c in db.creds && db.creds[c].kind.Email? && db.creds[c].identifier == Some(email) && db.creds[c].verified
    then Some(db.creds[c].account) else None
  }

  /** Second half, a transaction of its own that does not look at the account. */
  function LinkIdentity(db: Db, a: string, id: string, provider: string, user: string): Result<Db, Error> {
    if provider == "" || user == "" then Err(Invalid)
    else if id in db.identities || IdentityTaken(db.identities, provider, user) then Err(Taken)
    else Ok(db.(identities := db.identities[id := Identity(a, provider, user)]))
  }

  function LinkByEmail(db: Db, c: string, email: string, id: string, provider: string, user: string): Result<Db, Error> {
    match FindVerified(db, c, email)
    case None => Err(NotFound)
    case Some(a) => LinkIdentity(db, a, id, provider, user)
  }

  datatype Op =
    | ORegister(q: Registration)
    | OBind(a: string, id: string, provider: string, user: string)
    | OUnbind(a: string, id: string)
    | OAssignRole(a: string, role: string)
    | ORemoveRole(a: string, role: string)
    | OResetMfa(a: string)
    | OSoftDelete(a: string)
    | OSuspend(a: string)
    | OActivate(a: string)
    | OChangePassword(a: string, c: string, matches: bool, newHash: string)
    | OVerifyContact(a: string, c: string)
    | OCreateWithIdentity(a: string, email: string, emailVerified: bool, emailId: string, id: string, provider: string, user: string)
    | OLinkByEmail(c: string, email: string, id: string, provider: string, user: string)

  function Apply(db: Db, op: Op): Result<Db, Error> {
    match op
    case ORegister(q) => Register(db, q)
    case OBind(a, id, provider, user) => Bind(db, a, id, provider, user)
    case OUnbind(a, id) => Unbind(db, a, id)
    case OAssignRole(a, role) => AssignRole(db, a, role)
    case ORemoveRole(a, role) => RemoveRole(db, a, role)
    case OResetMfa(a) => ResetMfa(db, a)
    case OSoftDelete(a) => SoftDelete(db, a)
    case OSuspend(a) => Suspend(db, a)
    case OActivate(a) => Activate(db, a)
    case OChangePassword(a, c, matches, newHash) => ChangePassword(db, a, c, matches, newHash)
    case OVerifyContact(a, c) => VerifyContact(db, a, c)
    case OCreateWithIdentity(a, email, verified, emailId, id, provider, user) =>
      CreateWithIdentity(db, a, email, verified, emailId, id, provider, user)
    case OLinkByEmail(c, email, id, provider, user) => LinkByEmail(db, c, email, id, provider, user)
  }

  /** A failed transaction is rolled back. */
  function Run(db: Db, ops: seq<Op>): Db {
    if ops == [] then db
    else
      var before := Run(db, ops[..|ops| - 1]);
      match Apply(before, ops[|ops| - 1]) case Ok(after) => after case Err(_) => before
  }

  // ----- the invariant -----

  /** Every live row belongs to an account that is not deleted: a deleted account owns none. */
  ghost predicate OwnersLive(db: Db) {
    && (forall c | c in db.creds :: Live(db.accounts, db.creds[c].account))
    && (forall i | i in db.identities :: Live(db.accounts, db.identities[i].account))
    && (forall r | r in db.roles :: Live(db.accounts, r.0))
  }

  /** An account that is not deleted can be entered with a password or an identity. */
  ghost predicate WaysIn(db: Db) {
    forall a | a in db.accounts && !db.accounts[a].status.Deleted? :: HasPassword(db.creds, a) || HasIdentity(db.identities, a)
  }

  ghost predicate UniqueCreds(creds: Credentials) {
    forall c, d | c in creds && d in creds && creds[c].kind == creds[d].kind && creds[c].identifier.Some?
                  && creds[c].identifier == creds[d].identifier :: c == d
  }

  ghost predicate UniqueIdentities(identities: Identities) {
    forall i, j | i in identities && j in identities && identities[i].provider == identities[j].provider
                  && identities[i].user == identities[j].user :: i == j
  }

  ghost predicate UniqueUsernames(accounts: Accounts) {
    forall a, b | a in accounts && b in accounts && !accounts[a].status.Deleted? && !accounts[b].status.Deleted?
                  && accounts[a].username.Some? && accounts[a].username == accounts[b].username :: a == b
  }

  ghost predicate Uniques(db: Db) {
    UniqueCreds(db.creds) && UniqueIdentities(db.identities) && UniqueUsernames(db.accounts)
  }

  ghost predicate Inv(db: Db) {
    OwnersLive(db) && WaysIn(db) && Uniques(db)
  }

  lemma AddContactKeeps(creds: Credentials, id: string, account: string, kind: Kind, identifier: string, verified: bool)
    requires UniqueCreds(creds) && id !in creds && (identifier != "" ==> !CredTaken(creds, kind, identifier))
    ensures var r := AddContact(creds, id, account, kind, identifier, verified);
            UniqueCreds(r) && (forall c | c in creds :: c in r && r[c] == creds[c])
            && (forall c | c in r && c !in creds :: c == id && r[c].account == account && r[c].kind == kind)
  {
  }

  lemma AddIdentityKeeps(identities: Identities, id: string, i: Identity)
    requires UniqueIdentities(identities) && id !in identities && !IdentityTaken(identities, i.provider, i.user)
    ensures UniqueIdentities(identities[id := i])
  {
  }

  /** Rows and accounts only come in: nobody loses a way in, and the new rows name their own account. */
  ghost predicate Adds(db: Db, db': Db, a: string) {
    && (forall b | b in db.accounts :: b in db'.accounts && db'.accounts[b] == db.accounts[b])
    && (forall b | b in db'.accounts && b !in db.accounts :: b == a)
    && (forall c | c in db.creds :: c in db'.creds && db'.creds[c].account == db.creds[c].account && db'.creds[c].kind == db.creds[c].kind)
    && (forall c | c in db'.creds && c !in db.creds :: db'.creds[c].account == a)
    && (forall i | i in db.identities :: i in db'.identities && db'.identities[i] == db.identities[i])
    && (forall i | i in db'.identities && i !in db.identities :: db'.identities[i].account == a)
    && (forall r | r in db'.roles && r !in db.roles :: r.0 == a)
  }

  lemma AddsKeepsOwners(db: Db, db': Db, a: string)
    requires OwnersLive(db) && Adds(db, db', a) && Live(db'.accounts, a)
    ensures OwnersLive(db')
  {
  }

  lemma AddsKeepsWays(db: Db, db': Db, a: string)
    requires WaysIn(db) && Adds(db, db', a)
    requires a in db.accounts || HasPassword(db'.creds, a) || HasIdentity(db'.identities, a)
    ensures WaysIn(db')
  {
    forall b | b in db'.accounts && !db'.accounts[b].status.Deleted? ensures HasPassword(db'.creds, b) || HasIdentity(db'.identities, b) {
      if b in db.accounts {
        if HasPassword(db.creds, b) {
          var c :| c in db.creds && db.creds[c].account == b && db.creds[c].kind.Password?;
          assert c in db'.creds;
        } else {
          var i :| i in db.identities && db.identities[i].account == b;
          assert i in db'.identities;
        }
      }
    }
  }

  /** One more credential of another kind takes no identifier of this one. */
  lemma StillFree(creds: Credentials, creds': Credentials, id: string, kind: Kind, identifier: string)
    requires !CredTaken(creds, kind, identifier)
    requires forall c | c in creds' && c != id :: c in creds && creds'[c] == creds[c]
    requires id in creds' ==> creds'[id].kind != kind
    ensures !CredTaken(creds', kind, identifier)
  {
  }

  lemma RegisteredCreds(creds: Credentials, q: Registration)
    requires UniqueCreds(creds)
    requires q.email != "" ==> !CredTaken(creds, Email, q.email)
    requires q.phone != "" ==> !CredTaken(creds, Phone, q.phone)
    requires q.passwordId !in creds && q.emailId !in creds && q.phoneId !in creds
    requires q.passwordId != q.emailId && q.emailId != q.phoneId && q.passwordId != q.phoneId
    ensures var r := WithRegistered(creds, q);
            && UniqueCreds(r)
            && (forall c | c in creds :: c in r && r[c] == creds[c])
            && (forall c | c in r && c !in creds :: r[c].account == q.id)
            && q.passwordId in r && r[q.passwordId].account == q.id && r[q.passwordId].kind.Password?
  {
    var c0 := creds[q.passwordId := Credential(q.id, Password, None, q.passwordHash, true)];
    var c1 := AddContact(c0, q.emailId, q.id, Email, q.email, false);
    assert UniqueCreds(c0);
    hide CredTaken, UniqueCreds;
    if q.email != "" { StillFree(creds, c0, q.passwordId, Email, q.email); }
    AddContactKeeps(c0, q.emailId, q.id, Email, q.email, false);
    if q.phone != "" {
      StillFree(creds, c0, q.passwordId, Phone, q.phone);
      StillFree(c0, c1, q.emailId, Phone, q.phone);
    }
    assert q.phoneId !in c1;
    AddContactKeeps(c1, q.phoneId, q.id, Phone, q.phone, false);
  }

  lemma RegisterKeeps(db: Db, q: Registration)
    requires Inv(db) && Register(db, q).Ok?
    ensures Inv(Register(db, q).value)
  {
    hide OwnersLive, WaysIn, CredTaken, UniqueCreds, UniqueIdentities, WithRegistered;
    var db' := Register(db, q).value;
    RegisteredCreds(db.creds, q);
    assert UniqueUsernames(db'.accounts);
    hide UniqueUsernames, UsernameTaken;
    assert Adds(db, db', q.id);
    assert HasPassword(db'.creds, q.id) by { assert q.passwordId in db'.creds; }
    hide Adds, HasPassword;
    AddsKeepsOwners(db, db', q.id);
    AddsKeepsWays(db, db', q.id);
  }

  /** One more identity of an account that is there. */
  lemma NewIdentityKeeps(db: Db, a: string, id: string, provider: string, user: string)
    requires Inv(db) && Live(db.accounts, a) && id !in db.identities && !IdentityTaken(db.identities, provider, user)
    ensures Inv(db.(identities := db.identities[id := Identity(a, provider, user)]))
  {
    hide OwnersLive, WaysIn, UniqueCreds, UniqueUsernames, HasPassword, HasIdentity;
    var db' := db.(identities := db.identities[id := Identity(a, provider, user)]);
    AddIdentityKeeps(db.identities, id, Identity(a, provider, user));
    hide UniqueIdentities, IdentityTaken;
    assert Adds(db, db', a);
    AddsKeepsOwners(db, db', a);
    AddsKeepsWays(db, db', a);
  }

  lemma CreateWithIdentityKeeps(db: Db, a: string, email: string, verified: bool, emailId: string,
                                id: string, provider: string, user: string)
    requires Inv(db) && CreateWithIdentity(db, a, email, verified, emailId, id, provider, user).Ok?
    ensures Inv(CreateWithIdentity(db, a, email, verified, emailId, id, provider, user).value)
  {
    hide OwnersLive, WaysIn, UniqueCreds, UniqueIdentities, AddContact, CredTaken, IdentityTaken;
    var db' := CreateWithIdentity(db, a, email, verified, emailId, id, provider, user).value;
    if email == "" {
      assert db'.creds == db.creds by { NoContact(db.creds, emailId, a, verified); }
    } else {
      AddContactKeeps(db.creds, emailId, a, Email, email, verified);
    }
    AddIdentityKeeps(db.identities, id, Identity(a, provider, user));
    assert UniqueUsernames(db'.accounts);
    hide UniqueUsernames;
    assert Adds(db, db', a);
    assert HasIdentity(db'.identities, a) by { assert id in db'.identities; }
    hide Adds, HasIdentity;
    AddsKeepsOwners(db, db', a);
    AddsKeepsWays(db, db', a);
  }

  lemma NoContact(creds: Credentials, id: string, a: string, verified: bool)
    ensures AddContact(creds, id, a, Email, "", verified) == creds
  {
  }

  /** The guard of Unbind: a way in is left. */
  lemma UnbindKeeps(db: Db, a: string, id: string)
    requires Inv(db) && Unbind(db, a, id).Ok?
    ensures Inv(Unbind(db, a, id).value)
  {
    var db' := Unbind(db, a, id).value;
    assert OwnersLive(db') && Uniques(db') by { hide WaysIn, HasPassword, HasOtherIdentity; }
    hide OwnersLive, Uniques;
    forall b | b in db'.accounts && !db'.accounts[b].status.Deleted? ensures HasPassword(db'.creds, b) || HasIdentity(db'.identities, b) {
      if !HasPassword(db.creds, b) {
        var i :| i in db.identities && db.identities[i].account == b && (b == a ==> i != id);
        assert i in db'.identities;
      }
    }
  }

  lemma RolesKeep(db: Db, roles: set<(string, string)>)
    requires Inv(db) && forall r | r in roles :: r in db.roles || Live(db.accounts, r.0)
    ensures Inv(db.(roles := roles))
  {
    hide WaysIn, Uniques, HasPassword, HasIdentity;
    var db' := db.(roles := roles);
    assert OwnersLive(db');
    hide OwnersLive;
    assert WaysIn(db') by { SameWays(db, db'); }
    assert Uniques(db') by { SameUniques(db, db'); }
  }

  lemma SameUniques(db: Db, db': Db)
    requires Uniques(db) && db'.creds == db.creds && db'.identities == db.identities && db'.accounts == db.accounts
    ensures Uniques(db')
  {
  }

  lemma SameWays(db: Db, db': Db)
    requires WaysIn(db) && db'.accounts == db.accounts && db'.identities == db.identities
    requires forall c | c in db.creds && db.creds[c].kind.Password? ::
               c in db'.creds && db'.creds[c].account == db.creds[c].account && db'.creds[c].kind.Password?
    ensures WaysIn(db')
  {
    forall b | b in db'.accounts && !db'.accounts[b].status.Deleted? ensures HasPassword(db'.creds, b) || HasIdentity(db'.identities, b) {
      if HasPassword(db.creds, b) {
        var c :| c in db.creds && db.creds[c].account == b && db.creds[c].kind.Password?;
        assert c in db'.creds;
      }
    }
  }

  /** Credentials change their value or flags, or go, but no password goes. */
  lemma CredsKeep(db: Db, creds: Credentials)
    requires Inv(db)
    requires forall c | c in creds :: c in db.creds && creds[c].account == db.creds[c].account && creds[c].kind == db.creds[c].kind
                                      && creds[c].identifier == db.creds[c].identifier
    requires forall c | c in db.creds && db.creds[c].kind.Password? :: c in creds
    ensures Inv(db.(creds := creds))
  {
    var db' := db.(creds := creds);
    assert OwnersLive(db') by { hide WaysIn, Uniques; }
    assert Uniques(db') by { hide WaysIn, OwnersLive; }
    hide OwnersLive, Uniques;
    assert WaysIn(db') by { SameWays(db, db'); }
  }

  /** What the cascade leaves of a database. */
  function Cascaded(db: Db, a: string): Db
    requires a in db.accounts
  {
    db.(accounts := db.accounts[a := db.accounts[a].(status := Deleted)],
        creds := CredsWithout(db.creds, a),
        identities := IdentitiesWithout(db.identities, a),
        roles := set r | r in db.roles && r.0 != a)
  }

  lemma CascadeKeepsOwners(db: Db, a: string)
    requires OwnersLive(db) && a in db.accounts
    ensures OwnersLive(Cascaded(db, a))
  {
  }

  lemma CascadeKeepsUniques(db: Db, a: string)
    requires Uniques(db) && a in db.accounts
    ensures Uniques(Cascaded(db, a))
  {
  }

  lemma CascadeKeepsWays(db: Db, a: string)
    requires WaysIn(db) && a in db.accounts
    ensures WaysIn(Cascaded(db, a))
  {
    var db' := Cascaded(db, a);
    forall b | b in db'.accounts && !db'.accounts[b].status.Deleted? ensures HasPassword(db'.creds, b) || HasIdentity(db'.identities, b) {
      if HasPassword(db.creds, b) {
        var c :| c in db.creds && db.creds[c].account == b && db.creds[c].kind.Password?;
        assert c in db'.creds;
      } else {
        var i :| i in db.identities && db.identities[i].account == b;
        assert i in db'.identities;
      }
    }
  }

  lemma SoftDeleteKeeps(db: Db, a: string)
    requires Inv(db) && SoftDelete(db, a).Ok?
    ensures Inv(SoftDelete(db, a).value)
  {
    hide OwnersLive, Uniques, WaysIn, CredsWithout, IdentitiesWithout;
    CascadeKeepsOwners(db, a);
    CascadeKeepsUniques(db, a);
    CascadeKeepsWays(db, a);
  }

  lemma StatusKeepsOwners(db: Db, a: string, to: Status)
    requires OwnersLive(db) && a in db.accounts && !to.Deleted?
    ensures OwnersLive(db.(accounts := db.accounts[a := db.accounts[a].(status := to)]))
  {
  }

  lemma StatusKeepsUniques(db: Db, a: string, to: Status)
    requires Uniques(db) && Live(db.accounts, a)
    ensures Uniques(db.(accounts := db.accounts[a := db.accounts[a].(status := to)]))
  {
    hide UniqueCreds, UniqueIdentities;
  }

  lemma StatusKeepsWays(db: Db, a: string, to: Status)
    requires WaysIn(db) && Live(db.accounts, a)
    ensures WaysIn(db.(accounts := db.accounts[a := db.accounts[a].(status := to)]))
  {
    hide HasPassword, HasIdentity;
  }

  lemma TransitionKeeps(db: Db, a: string, from: Status, to: Status)
    requires Inv(db) && !from.Deleted? && !to.Deleted? && Transition(db, a, from, to).Ok?
    ensures Inv(Transition(db, a, from, to).value)
  {
    hide OwnersLive, Uniques, WaysIn;
    StatusKeepsOwners(db, a, to);
    StatusKeepsUniques(db, a, to);
    StatusKeepsWays(db, a, to);
  }

  lemma LinkByEmailKeeps(db: Db, c: string, email: string, id: string, provider: string, user: string)
    requires Inv(db) && LinkByEmail(db, c, email, id, provider, user).Ok?
    ensures Inv(LinkByEmail(db, c, email, id, provider, user).value)
  {
    assert Live(db.accounts, db.creds[c].account) by { hide WaysIn, Uniques, IdentityTaken; }
    hide Inv, IdentityTaken, Live;
    NewIdentityKeeps(db, db.creds[c].account, id, provider, user);
  }

  lemma ApplyKeeps(db: Db, op: Op)
    requires Inv(db) && Apply(db, op).Ok?
    ensures Inv(Apply(db, op).value)
  {
    hide Inv, Register, CreateWithIdentity, SoftDelete, LinkByEmail, Unbind, IdentityTaken, Transition;
    match op
    case ORegister(q) => RegisterKeeps(db, q);
    case OBind(a, id, provider, user) => NewIdentityKeeps(db, a, id, provider, user);
    case OUnbind(a, id) => UnbindKeeps(db, a, id);
    case OAssignRole(a, role) => RolesKeep(db, db.roles + {(a, role)});
    case ORemoveRole(a, role) => RolesKeep(db, db.roles - {(a, role)});
    case OResetMfa(a) => CredsKeep(db, WithoutMfa(db.creds, a));
    case OSoftDelete(a) => SoftDeleteKeeps(db, a);
    case OSuspend(a) => TransitionKeeps(db, a, Active, Suspended);
    case OActivate(a) => TransitionKeeps(db, a, Suspended, Active);
    case OChangePassword(a, c, matches, newHash) => CredsKeep(db, db.creds[c := db.creds[c].(value := newHash)]);
    case OVerifyContact(a, c) => CredsKeep(db, db.creds[c := db.creds[c].(verified := true)]);
    case OCreateWithIdentity(a, email, verified, emailId, id, provider, user) =>
      CreateWithIdentityKeeps(db, a, email, verified, emailId, id, provider, user);
    case OLinkByEmail(c, email, id, provider, user) => LinkByEmailKeeps(db, c, email, id, provider, user);
  }

  lemma {:induction false} RunKeeps(db: Db, ops: seq<Op>)
    requires Inv(db)
    ensures Inv(Run(db, ops))
  {
    hide Inv, Apply;
    if ops != [] {
      RunKeeps(db, ops[..|ops| - 1]);
      var before := Run(db, ops[..|ops| - 1]);
      if Apply(before, ops[|ops| - 1]).Ok? { ApplyKeeps(before, ops[|ops| - 1]); }
    }
  }

  // ----- what every serial run guarantees -----

  /** From an empty database, whatever is called: no live account without a way in, no row left to a deleted one. */
  lemma NobodyLockedOut(knownRoles: set<string>, ops: seq<Op>, a: string)
    requires a in Run(Db(map[], map[], map[], {}, knownRoles), ops).accounts
    ensures var db := Run(Db(map[], map[], map[], {}, knownRoles), ops);
            && (!db.accounts[a].status.Deleted? ==> HasPassword(db.creds, a) || HasIdentity(db.identities, a))
            && (db.accounts[a].status.Deleted? ==>
                  && (forall c | c in db.creds :: db.creds[c].account != a)
                  && (forall i | i in db.identities :: db.identities[i].account != a)
                  && (forall r | r in db.roles :: r.0 != a))
  {
    hide Run, HasPassword, HasIdentity, Uniques;
    EmptyOkWith(knownRoles);
    RunKeeps(Db(map[], map[], map[], {}, knownRoles), ops);
  }

  lemma EmptyOkWith(knownRoles: set<string>)
    ensures Inv(Db(map[], map[], map[], {}, knownRoles))
  {
  }

  /** Unbinding is refused as the last way in exactly when nothing else would be left. */
  lemma UnbindExact(db: Db, a: string, id: string)
    requires Inv(db) && IsActive(db.accounts, a) && id in db.identities && db.identities[id].account == a
    ensures Unbind(db, a, id).Ok? <==> Inv(db.(identities := db.identities - {id}))
    ensures Unbind(db, a, id).Err? ==> Unbind(db, a, id).error == LastWayIn
  {
    if Unbind(db, a, id).Ok? {
      UnbindKeeps(db, a, id);
    } else {
      var db' := db.(identities := db.identities - {id});
      assert !HasPassword(db'.creds, a) && !HasIdentity(db'.identities, a);
    }
  }

  /**
   Linking does not look at the account again: the link keeps the invariant
   exactly when the account found before is still not deleted.
   */
  lemma LinkExact(db: Db, a: string, id: string, provider: string, user: string)
    requires Inv(db) && LinkIdentity(db, a, id, provider, user).Ok?
    ensures Inv(LinkIdentity(db, a, id, provider, user).value) <==> Live(db.accounts, a)
  {
    hide WaysIn, Uniques, IdentityTaken;
    if Live(db.accounts, a) {
      NewIdentityKeeps(db, a, id, provider, user);
    } else {
      var db' := LinkIdentity(db, a, id, provider, user).value;
      assert id in db'.identities && db'.identities[id].account == a;
    }
  }

  /** A deletion between the two halves of a link leaves a deleted account with a live identity. */
  lemma DeletionBetweenFindAndLink(db: Db, c: string, email: string, id: string, provider: string, user: string)
    requires Inv(db) && FindVerified(db, c, email).Some? && provider != "" && user != ""
    requires id !in db.identities && !IdentityTaken(db.identities, provider, user)
    ensures var a := FindVerified(db, c, email).value;
            SoftDelete(db, a).Ok?
            && var deleted := SoftDelete(db, a).value;
               LinkIdentity(deleted, a, id, provider, user).Ok? && !Inv(LinkIdentity(deleted, a, id, provider, user).value)
  {
    var a := FindVerified(db, c, email).value;
    assert Live(db.accounts, a) by { hide WaysIn, Uniques; }
    SoftDeleteKeeps(db, a);
    var deleted := SoftDelete(db, a).value;
    assert !IdentityTaken(deleted.identities, provider, user);
    hide Inv, IdentityTaken;
    LinkExact(deleted, a, id, provider, user);
  }

  // ----- the checks of UnbindFederatedIdentity -----

  class AccountService {
    var db: Db

    constructor (db: Db)
      requires Inv(db)
      ensures this.db == db
    {
      this.db := db;
    }

    /** passwords and owned are the ids the two queries return for the account. */
    method UnbindFederatedIdentity(a: string, id: string, passwords: seq<string>, owned: seq<string>) returns (err: Option<Error>)
      requires Inv(db)
      requires forall c :: c in passwords <==> c in db.creds && db.creds[c].account == a && db.creds[c].kind.Password?
      requires forall i :: i in owned <==> i in db.identities && db.identities[i].account == a
      modifies this
      ensures Inv(db)
      ensures err.None? ==> Unbind(old(db), a, id) == Ok(db)
      ensures err.Some? ==> Unbind(old(db), a, id) == Err(err.value) && db == old(db)
    {
      if Unbind(db, a, id).Ok? { UnbindKeeps(db, a, id); }
      hide Inv;
      if !(a in db.accounts && db.accounts[a].status.Active?) { return Some(NotActive); }
      var hasPassword := passwords != [];
      assert hasPassword <==> HasPassword(db.creds, a) by { if hasPassword { assert passwords[0] in passwords; } }
      if !hasPassword {
        var others := 0;
        for k := 0 to |owned|
          invariant others > 0 <==> exists j :: 0 <= j < k && owned[j] != id
          invariant others >= 0
        {
          if owned[k] != id { others := others + 1; }
        }
        assert others > 0 <==> HasOtherIdentity(db.identities, a, id) by {
          if others > 0 {
            var j :| 0 <= j < |owned| && owned[j] != id;
            assert owned[j] in owned;
          }
        }
        if others == 0 { return Some(LastWayIn); }
      }
      if id !in db.identities || db.identities[id].account != a { return Some(NotFound); }
      db := db.(identities := db.identities - {id});
      return None;
    }

    /** The cascade, table by table. */
    method SoftDeleteAccount(a: string) returns (err: Option<Error>)
      requires Inv(db)
      modifies this
      ensures Inv(db)
      ensures err.None? ==> SoftDelete(old(db), a) == Ok(db) && a in db.accounts && db.accounts[a].status.Deleted?
      ensures err.Some? ==> SoftDelete(old(db), a) == Err(err.value) && db == old(db)
    {
      if SoftDelete(db, a).Ok? { SoftDeleteKeeps(db, a); }
      hide Inv;
      if a !in db.accounts { return Some(NotFound); }
      if db.accounts[a].status.Deleted? { return None; }
      var tx := db;
      tx := tx.(creds := CredsWithout(tx.creds, a));
      tx := tx.(identities := IdentitiesWithout(tx.identities, a));
      tx := tx.(roles := set r | r in tx.roles && r.0 != a);
      db := tx.(accounts := tx.accounts[a := tx.accounts[a].(status := Deleted)]);
      return None;
    }
  }
}
