/**
 The account registry: accounts by id and by FIX username, provisioning, revocation
 epochs, FIX password checks, gated token minting, and idempotent seeding. Hashing,
 password checks and signing are foreign; what they return arrives as a parameter.
 */
module Accounts {
  import opened Collections
  import opened Envelope
  import opened RateLimits
  import opened Words

  datatype CompIdBinding = CompIdBinding(senderCompId: string, targetCompId: string)

  datatype Credentials = Credentials(
    fixUsername: Option<string>,
    passwordHash: Option<string>,
    fixCompIds: Option<CompIdBinding>)

  datatype Account = Account(
    id: AccountId,
    owner: Hash32,
    permissions: seq<Permission>,
    credentials: Credentials,
    revocationEpoch: u64)

  datatype AccountProvision = AccountProvision(
    id: AccountId,
    owner: Hash32,
    permissions: seq<Permission>,
    fixUsername: Option<string>,
    fixPassword: Option<string>,
    fixCompIds: Option<CompIdBinding>)

  datatype ProvisioningFault = ReservedAccountId | ReservedOwner | DuplicateAccountId | DuplicateFixUsername

  datatype AuthError =
    | BootstrapDisabled
    | BootstrapMismatch
    | PasswordHash
    | Provisioning(fault: ProvisioningFault)
    | UnknownAccount
    | AccountRevoked
    | TokenLifetime
    | Signing

  datatype PasswordVerification = Verified | VerifiedRehash(rehash: string) | PasswordRejected

  /** What the hasher answers for a presented password and a stored hash. */
  type Verifier = (string, string) -> Result<PasswordVerification, AuthError>

  datatype FixLoginOutcome = Authenticated(account: AccountId, permissions: seq<Permission>) | LoginRejected

  // ---------------------------------------------------------------- permissions

  predicate Grants(held: Permission, required: Permission) {
    match held
    case Admin => true
    case Trade => required.Read? || required.Trade?
    case Read => required.Read?
  }

  function Rank(p: Permission): nat {
    match p
    case Read => 0
    case Trade => 1
    case Admin => 2
  }

  /** The highest permission held; `Read` when there is none. */
  function TierOf(permissions: seq<Permission>): RateLimitTier {
    if permissions == [] then Read
    else
      var rest := TierOf(permissions[1..]);
      if Rank(permissions[0]) >= Rank(rest) then permissions[0] else rest
  }

  predicate AnyGrants(permissions: seq<Permission>, required: Permission) {
    exists held :: held in permissions && Grants(held, required)
  }

  /** Authorization and the rate-limit tier agree: a non-empty set grants exactly what its tier grants. */
  lemma {:induction false} TierDecidesPermission(permissions: seq<Permission>, required: Permission)
    ensures AnyGrants(permissions, required) <==> permissions != [] && Rank(required) <= Rank(TierOf(permissions))
    ensures permissions != [] ==> TierOf(permissions) in permissions
    decreases |permissions|
  {
    if permissions != [] {
      TierDecidesPermission(permissions[1..], required);
      assert permissions == [permissions[0]] + permissions[1..];
      assert permissions[0] in permissions;
    }
  }

  /** The tier is the strongest permission in the set. */
  lemma {:induction false} TierIs(permissions: seq<Permission>)
    ensures TierOf(permissions) == Admin <==> Admin in permissions
    ensures TierOf(permissions) == Trade <==> Trade in permissions && Admin !in permissions
    ensures TierOf(permissions) == Read <==> Trade !in permissions && Admin !in permissions
    decreases |permissions|
  {
    if permissions != [] {
      TierIs(permissions[1..]);
      assert permissions == [permissions[0]] + permissions[1..];
    }
  }

  /** What a set of permissions covers. */
  lemma GrantsWhen(permissions: seq<Permission>)
    ensures AnyGrants(permissions, Admin) <==> Admin in permissions
    ensures AnyGrants(permissions, Trade) <==> Trade in permissions || Admin in permissions
    ensures AnyGrants(permissions, Read) <==> permissions != []
  {
    if permissions != [] {
      assert permissions[0] in permissions;
    }
    if Admin in permissions {
      assert Grants(Admin, Admin) && Grants(Admin, Trade);
    }
    if Trade in permissions {
      assert Grants(Trade, Trade);
    }
  }

  // ---------------------------------------------------------------- claims and minting

  datatype Claims = Claims(sub: AccountId, permissions: seq<Permission>, iat: u64, exp: u64, revocationEpoch: u64)

  /** The operator's secret; without one no token can be minted. */
  datatype BootstrapGate = BootstrapGate(secret: Option<string>)

  function Authorize(gate: BootstrapGate, presented: string): Option<AuthError> {
    match gate.secret
    case None => Some(BootstrapDisabled)
    case Some(secret) => if secret == presented then None else Some(BootstrapMismatch)
  }

  // ---------------------------------------------------------------- the registry as a value

  datatype Registry = Registry(byId: map<AccountId, Account>, byFixUsername: map<string, AccountId>)

  const EMPTY_REGISTRY := Registry(map[], map[])

  function InsertError(r: Registry, account: Account): Option<AuthError> {
    if account.id == MARKET_MAKER_ACCOUNT then Some(Provisioning(ReservedAccountId))
    else if account.owner == MARKET_MAKER_OWNER then Some(Provisioning(ReservedOwner))
    else if account.id in r.byId then Some(Provisioning(DuplicateAccountId))
    else
      match account.credentials.fixUsername
      case Some(username) => if username in r.byFixUsername then Some(Provisioning(DuplicateFixUsername)) else None
      case None => None
  }

  function Inserted(r: Registry, account: Account): Registry {
    Registry(r.byId[account.id := account],
             match account.credentials.fixUsername
             case Some(username) => r.byFixUsername[username := account.id]
             case None => r.byFixUsername)
  }

  function Insert(r: Registry, account: Account): Result<Registry, AuthError> {
    match InsertError(r, account)
    case Some(error) => Err(error)
    case None => Ok(Inserted(r, account))
  }

  function NewAccount(p: AccountProvision, passwordHash: Option<string>): Account {
    Account.Account(p.id, p.owner, p.permissions, Credentials(p.fixUsername, passwordHash, p.fixCompIds), 0)
  }

  /** A plaintext password is hashed before anything else is looked at; `hashed` is what the hasher gave. */
  function Provision(r: Registry, p: AccountProvision, hashed: Result<string, AuthError>): Result<Registry, AuthError> {
    if p.fixPassword.None? then Insert(r, NewAccount(p, None))
    else
      match hashed
      case Err(error) => Err(error)
      case Ok(hash) => Insert(r, NewAccount(p, Some(hash)))
  }

  /** The epoch bump is pinned at the top of the word. */
  function NextEpoch(epoch: u64): u64 {
    if epoch < U64_MAX then epoch + 1 else U64_MAX
  }

  function Revoke(r: Registry, id: AccountId): (Registry, Option<u64>) {
    if id !in r.byId then (r, None)
    else
      var next := NextEpoch(r.byId[id].revocationEpoch);
      (r.(byId := r.byId[id := r.byId[id].(revocationEpoch := next)]), Some(next))
  }

  function WithPasswordHash(r: Registry, id: AccountId, hash: string): Registry
    requires id in r.byId
  {
    var account := r.byId[id];
    r.(byId := r.byId[id := account.(credentials := account.credentials.(passwordHash := Some(hash)))])
  }

  /** The hash a FIX username's password is checked against, with its account. */
  function StoredHash(r: Registry, username: string): Option<(AccountId, string)> {
    if username !in r.byFixUsername || r.byFixUsername[username] !in r.byId then None
    else
      match r.byId[r.byFixUsername[username]].credentials.passwordHash
      case Some(hash) => Some((r.byFixUsername[username], hash))
      case None => None
  }

  function VerifyFixPassword(r: Registry, username: string, password: string, verify: Verifier): (Registry, FixLoginOutcome) {
    match StoredHash(r, username)
    case None => (r, LoginRejected)
    case Some((id, hash)) =>
      match verify(password, hash)
      case Ok(Verified) => (r, Authenticated(id, r.byId[id].permissions))
      case Ok(VerifiedRehash(rehash)) => (WithPasswordHash(r, id, rehash), Authenticated(id, r.byId[id].permissions))
      case _ => (r, LoginRejected)
  }

  /** `signed` is whether the signing library succeeds. */
  function MintForAccount(r: Registry, gate: BootstrapGate, id: AccountId, presented: string, iat: u64, ttl: u64, signed: bool)
    : Result<Claims, AuthError>
  {
    match Authorize(gate, presented)
    case Some(error) => Err(error)
    case None =>
      if id !in r.byId then Err(UnknownAccount)
      else if r.byId[id].revocationEpoch > 0 then Err(AccountRevoked)
      else if iat + ttl > U64_MAX then Err(TokenLifetime)
      else if !signed then Err(Signing)
      else Ok(Claims(r.byId[id].id, r.byId[id].permissions, iat, iat + ttl, r.byId[id].revocationEpoch))
  }

  // ---------------------------------------------------------------- what each operation does

  /**
   A token is minted exactly for the holder of the operator's secret, for a known account
   never revoked, when the lifetime fits and signing succeeds; its claims are the account's.
   Whoever lacks the secret learns nothing else.
   */
  lemma MintsIff(r: Registry, gate: BootstrapGate, id: AccountId, presented: string, iat: u64, ttl: u64, signed: bool)
    ensures var minted := MintForAccount(r, gate, id, presented, iat, ttl, signed);
            && (minted.Ok? <==> gate.secret == Some(presented) && id in r.byId && r.byId[id].revocationEpoch == 0
                                && iat + ttl < 0x1_0000_0000_0000_0000 && signed)
            && (minted.Ok? ==> minted.value == Claims(r.byId[id].id, r.byId[id].permissions, iat, iat + ttl, 0))
            && (gate.secret == None ==> minted == Err(BootstrapDisabled))
            && (gate.secret.Some? && gate.secret.value != presented ==> minted == Err(BootstrapMismatch))
  {}

  /**
   An account is accepted exactly when it has neither the market maker's id nor its owner,
   its id is new, and its FIX username, if it has one, is new; it then stands under its id
   and its username, and everybody else as before. A refusal names the first that fails.
   */
  lemma InsertsIff(r: Registry, account: Account)
    ensures var reservedOwner := forall i :: 0 <= i < 32 ==> account.owner[i] == 0xEE;
            var username := account.credentials.fixUsername;
            var taken := username.Some? && username.value in r.byFixUsername;
            var inserted := Insert(r, account);
            && (inserted.Ok? <==> account.id != "@market-maker" && !reservedOwner && account.id !in r.byId && !taken)
            && (inserted.Ok? ==> inserted.value.byId == r.byId[account.id := account])
            && (inserted.Ok? && username.None? ==> inserted.value.byFixUsername == r.byFixUsername)
            && (inserted.Ok? && username.Some? ==> inserted.value.byFixUsername == r.byFixUsername[username.value := account.id])
            && (inserted.Err? ==>
                  inserted.error == Provisioning(if account.id == "@market-maker" then ReservedAccountId
                                                 else if reservedOwner then ReservedOwner
                                                 else if account.id in r.byId then DuplicateAccountId
                                                 else DuplicateFixUsername))
  {
    if forall i :: 0 <= i < 32 ==> account.owner[i] == 0xEE {
      assert account.owner == MARKET_MAKER_OWNER;
    }
  }

  /** Provisioning stores what was asked for, at epoch zero, with the hash of the password if there was one. */
  lemma ProvisionStores(r: Registry, p: AccountProvision, hashed: Result<string, AuthError>)
    ensures p.fixPassword.Some? && hashed.Err? ==> Provision(r, p, hashed) == Err(hashed.error)
    ensures Provision(r, p, hashed).Ok? ==>
              var account := Provision(r, p, hashed).value.byId[p.id];
              && account.id == p.id && account.owner == p.owner && account.permissions == p.permissions
              && account.revocationEpoch == 0
              && account.credentials.fixUsername == p.fixUsername && account.credentials.fixCompIds == p.fixCompIds
              && account.credentials.passwordHash == (if p.fixPassword.Some? then Some(hashed.value) else None)
  {}

  /** A revocation raises one epoch by one, stopping at the largest, and changes nothing else. */
  lemma RevokeRaises(r: Registry, id: AccountId)
    ensures id !in r.byId ==> Revoke(r, id) == (r, None)
    ensures id in r.byId ==>
              var (next, epoch) := Revoke(r, id);
              && next.byFixUsername == r.byFixUsername && next.byId.Keys == r.byId.Keys
              && (forall other :: other in r.byId && other != id ==> next.byId[other] == r.byId[other])
              && next.byId[id] == r.byId[id].(revocationEpoch := next.byId[id].revocationEpoch)
              && epoch == Some(next.byId[id].revocationEpoch)
              && (r.byId[id].revocationEpoch < 0xFFFF_FFFF_FFFF_FFFF ==> epoch == Some(r.byId[id].revocationEpoch + 1))
              && (r.byId[id].revocationEpoch == 0xFFFF_FFFF_FFFF_FFFF ==> epoch == Some(r.byId[id].revocationEpoch))
  {}

  /** A password check changes one stored hash at most: to the fresh hash the hasher asked to keep. */
  lemma VerifyStores(r: Registry, username: string, password: string, verify: Verifier)
    ensures var (next, outcome) := VerifyFixPassword(r, username, password, verify);
            && next.byFixUsername == r.byFixUsername && next.byId.Keys == r.byId.Keys
            && (outcome.LoginRejected? ==> next == r)
            && (outcome.Authenticated? ==>
                  && username in r.byFixUsername && r.byFixUsername[username] == outcome.account && outcome.account in r.byId
                  && var stored := r.byId[outcome.account].credentials.passwordHash;
                  && stored.Some? && verify(password, stored.value).Ok?
                  && (forall other :: other in r.byId && other != outcome.account ==> next.byId[other] == r.byId[other])
                  && match verify(password, stored.value).value
                     case VerifiedRehash(rehash) =>
                       next.byId[outcome.account]
                       == r.byId[outcome.account].(credentials := r.byId[outcome.account].credentials.(passwordHash := Some(rehash)))
                     case Verified => next == r
                     case PasswordRejected => false)
  {}

  // ---------------------------------------------------------------- the registry as an object

  class AccountRegistry {
    var byId: map<AccountId, Account>
    var byFixUsername: map<string, AccountId>

    function State(): Registry
      reads this
    {
      Registry(byId, byFixUsername)
    }

    constructor ()
      ensures State() == EMPTY_REGISTRY
    {
      byId := map[];
      byFixUsername := map[];
    }

    method InsertAccount(account: Account) returns (r: Result<(), AuthError>)
      modifies this
      ensures match Insert(old(State()), account)
              case Ok(next) => r == Ok(()) && State() == next
              case Err(error) => r == Err(error) && State() == old(State())
    {
      if account.id == MARKET_MAKER_ACCOUNT {
        return Err(Provisioning(ReservedAccountId));
      }
      if account.owner == MARKET_MAKER_OWNER {
        return Err(Provisioning(ReservedOwner));
      }
      if account.id in byId {
        return Err(Provisioning(DuplicateAccountId));
      }
      if account.credentials.fixUsername.Some? {
        var username := account.credentials.fixUsername.value;
        if username in byFixUsername {
          return Err(Provisioning(DuplicateFixUsername));
        }
        byFixUsername := byFixUsername[username := account.id];
      }
      byId := byId[account.id := account];
      return Ok(());
    }

    method ProvisionAccount(p: AccountProvision, hashed: Result<string, AuthError>) returns (r: Result<(), AuthError>)
      modifies this
      ensures match Provision(old(State()), p, hashed)
              case Ok(next) => r == Ok(()) && State() == next
              case Err(error) => r == Err(error) && State() == old(State())
    {
      var passwordHash: Option<string> := None;
      if p.fixPassword.Some? {
        if hashed.Err? {
          return Err(hashed.error);
        }
        passwordHash := Some(hashed.value);
      }
      r := InsertAccount(Account.Account(p.id, p.owner, p.permissions, Credentials(p.fixUsername, passwordHash, p.fixCompIds), 0));
    }

    method RevokeAccount(id: AccountId) returns (epoch: Option<u64>)
      modifies this`byId
      ensures (State(), epoch) == Revoke(old(State()), id)
    {
      if id !in byId {
        return None;
      }
      var entry := byId[id];
      var next: u64 := U64_MAX;
      if entry.revocationEpoch < U64_MAX {
        next := entry.revocationEpoch + 1;
      }
      byId := byId[id := entry.(revocationEpoch := next)];
      return Some(next);
    }

    /** A verified password whose hash was weak is stored again under a fresh hash. */
    method VerifyPassword(username: string, password: string, verify: Verifier) returns (outcome: FixLoginOutcome)
      modifies this`byId
      ensures (State(), outcome) == VerifyFixPassword(old(State()), username, password, verify)
    {
      if username !in byFixUsername {
        return LoginRejected;
      }
      var id := byFixUsername[username];
      if id !in byId || byId[id].credentials.passwordHash.None? {
        return LoginRejected;
      }
      var stored, permissions := byId[id].credentials.passwordHash.value, byId[id].permissions;
      match verify(password, stored) {
        case Ok(Verified) => return Authenticated(id, permissions);
        case Ok(VerifiedRehash(rehash)) =>
          var entry := byId[id];
          byId := byId[id := entry.(credentials := entry.credentials.(passwordHash := Some(rehash)))];
          return Authenticated(id, permissions);
        case _ => return LoginRejected;
      }
    }

    method AccountByFixUsername(username: string) returns (account: Option<Account>)
      requires Coherent(State())
      ensures account.Some? ==> account.value.credentials.fixUsername == Some(username) && account.value.id in byId
      ensures account.None? ==> forall id :: id in byId ==> byId[id].credentials.fixUsername != Some(username)
    {
      if username !in byFixUsername {
        return None;
      }
      return if byFixUsername[username] in byId then Some(byId[byFixUsername[username]]) else None;
    }
  }

  // ---------------------------------------------------------------- what every registry keeps

  predicate Holds(r: Registry, username: string, id: AccountId) {
    username in r.byFixUsername && r.byFixUsername[username] == id
  }

  /** The username index and the account map are inverse to each other, and nobody holds a reserved identity. */
  ghost predicate Coherent(r: Registry) {
    && (forall id :: id in r.byId ==> r.byId[id].id == id && id != MARKET_MAKER_ACCOUNT && r.byId[id].owner != MARKET_MAKER_OWNER)
    && (forall id :: id in r.byId && r.byId[id].credentials.fixUsername.Some? ==>
          Holds(r, r.byId[id].credentials.fixUsername.value, id))
    && (forall username :: username in r.byFixUsername ==>
          && r.byFixUsername[username] in r.byId
          && r.byId[r.byFixUsername[username]].credentials.fixUsername == Some(username))
  }

  /** A later form of the same account: only its password hash may differ, and its epoch may have risen. */
  ghost predicate SameAccountLater(a: Account, b: Account) {
    && b.id == a.id && b.owner == a.owner && b.permissions == a.permissions
    && b.credentials.fixUsername == a.credentials.fixUsername && b.credentials.fixCompIds == a.credentials.fixCompIds
    && a.revocationEpoch <= b.revocationEpoch
  }

  /** No account or username is ever dropped or reassigned, and no epoch falls. */
  ghost predicate Grows(r: Registry, s: Registry) {
    && (forall id :: id in r.byId ==> id in s.byId && SameAccountLater(r.byId[id], s.byId[id]))
    && (forall username :: username in r.byFixUsername ==>
          username in s.byFixUsername && s.byFixUsername[username] == r.byFixUsername[username])
  }

  lemma GrowsItself(r: Registry)
    ensures Grows(r, r)
  {}

  lemma GrowsTransitive(r: Registry, s: Registry, t: Registry)
    requires Grows(r, s) && Grows(s, t)
    ensures Grows(r, t)
  {
    forall id | id in r.byId ensures id in t.byId && SameAccountLater(r.byId[id], t.byId[id]) {
      assert SameAccountLater(r.byId[id], s.byId[id]) && SameAccountLater(s.byId[id], t.byId[id]);
    }
  }

  lemma InsertGrows(r: Registry, account: Account)
    requires Insert(r, account).Ok?
    ensures Grows(r, Inserted(r, account))
    ensures Inserted(r, account).byId == r.byId[account.id := account] && account.id !in r.byId
  {}

  lemma InsertCoherent(r: Registry, account: Account)
    requires Coherent(r) && Insert(r, account).Ok?
    ensures Coherent(Inserted(r, account))
  {
    var next := Inserted(r, account);
    assert next.byId[account.id] == account;
    if account.credentials.fixUsername.Some? {
      assert next.byFixUsername[account.credentials.fixUsername.value] == account.id;
    }
  }

  lemma InsertKeeps(r: Registry, account: Account)
    requires Coherent(r) && Insert(r, account).Ok?
    ensures Coherent(Insert(r, account).value) && Grows(r, Insert(r, account).value)
    ensures Insert(r, account).value.byId == r.byId[account.id := account] && account.id !in r.byId
  {
    hide Coherent, Grows, Inserted;
    InsertCoherent(r, account);
    InsertGrows(r, account);
  }

  lemma ProvisionKeeps(r: Registry, p: AccountProvision, hashed: Result<string, AuthError>)
    requires Coherent(r) && Provision(r, p, hashed).Ok?
    ensures var next := Provision(r, p, hashed).value;
            && Coherent(next) && Grows(r, next) && p.id !in r.byId
            && next.byId.Keys == r.byId.Keys + {p.id}
            && SameShape(next.byId[p.id], p)
  {
    var account := NewAccount(p, if p.fixPassword.None? then None else Some(hashed.value));
    assert Insert(r, account) == Provision(r, p, hashed);
    InsertKeeps(r, account);
    assert SameShape(account, p);
    hide Coherent, Grows, Insert, Provision, SameShape;
  }

  /** Writing a later form of an account over it keeps the indices and grows the registry. */
  lemma UpdateKeeps(r: Registry, id: AccountId, account: Account)
    requires Coherent(r) && id in r.byId && SameAccountLater(r.byId[id], account)
    ensures Coherent(r.(byId := r.byId[id := account])) && Grows(r, r.(byId := r.byId[id := account]))
  {}

  lemma RevokeKeeps(r: Registry, id: AccountId)
    requires Coherent(r)
    ensures Coherent(Revoke(r, id).0) && Grows(r, Revoke(r, id).0)
  {
    if id in r.byId {
      UpdateKeeps(r, id, r.byId[id].(revocationEpoch := NextEpoch(r.byId[id].revocationEpoch)));
    }
    hide Coherent, Holds;
  }

  lemma VerifyKeeps(r: Registry, username: string, password: string, verify: Verifier)
    requires Coherent(r)
    ensures var (next, outcome) := VerifyFixPassword(r, username, password, verify);
            Coherent(next) && Grows(r, next)
  {
    var next := VerifyFixPassword(r, username, password, verify).0;
    if next != r {
      var id := StoredHash(r, username).value.0;
      UpdateKeeps(r, id, next.byId[id]);
      hide Coherent, Grows;
    }
  }

  /**
   A FIX password check accepts exactly when some account holds that username with a
   stored hash the hasher accepts, and it then names that account and its registered
   permissions. It does not look at the revocation epoch.
   */
  lemma VerifyAcceptsIff(r: Registry, username: string, password: string, verify: Verifier, id: AccountId)
    requires Coherent(r)
    ensures var outcome := VerifyFixPassword(r, username, password, verify).1;
            (outcome.Authenticated? && outcome.account == id) <==>
              && id in r.byId
              && r.byId[id].credentials.fixUsername == Some(username)
              && r.byId[id].credentials.passwordHash.Some?
              && verify(password, r.byId[id].credentials.passwordHash.value).Ok?
              && !verify(password, r.byId[id].credentials.passwordHash.value).value.PasswordRejected?
    ensures var outcome := VerifyFixPassword(r, username, password, verify).1;
            outcome.Authenticated? ==> outcome.account in r.byId && outcome.permissions == r.byId[outcome.account].permissions
  {
    if id in r.byId && r.byId[id].credentials.fixUsername.Some? {
      assert r.byFixUsername[r.byId[id].credentials.fixUsername.value] == id;
    }
  }

  // ---------------------------------------------------------------- seeding

  datatype SeedError = AccountConflict(id: AccountId) | AccountError(error: AuthError)

  /** What can be compared of an account already present: its stored password cannot. */
  predicate SameShape(existing: Account, p: AccountProvision) {
    existing.permissions == p.permissions && existing.credentials.fixUsername == p.fixUsername
  }

  /** What hashing the i-th provision's password yields. */
  type Hashes = nat -> Result<string, AuthError>

  datatype SeedResult = SeedResult(registry: Registry, counts: Result<(nat, nat), SeedError>)

  function SeedOne(r: Registry, p: AccountProvision, hashed: Result<string, AuthError>, counts: (nat, nat)): SeedResult {
    if p.id in r.byId then
      if SameShape(r.byId[p.id], p) then SeedResult(r, Ok((counts.0, counts.1 + 1)))
      else SeedResult(r, Err(AccountConflict(p.id)))
    else
      match Provision(r, p, hashed)
      case Ok(next) => SeedResult(next, Ok((counts.0 + 1, counts.1)))
      case Err(error) => SeedResult(r, Err(AccountError(error)))
  }

  /** Seeding the first `n` provisions; it stops at the first that fails and keeps what came before. */
  function Seed(r: Registry, provisions: seq<AccountProvision>, hashes: Hashes, n: nat): SeedResult
    requires n <= |provisions|
  {
    if n == 0 then SeedResult(r, Ok((0, 0)))
    else
      var before := Seed(r, provisions, hashes, n - 1);
      if before.counts.Err? then before
      else SeedOne(before.registry, provisions[n - 1], hashes(n - 1), before.counts.value)
  }

  lemma SeedUnfolds(r: Registry, provisions: seq<AccountProvision>, hashes: Hashes, n: nat)
    requires n <= |provisions|
    ensures n == 0 ==> Seed(r, provisions, hashes, n) == SeedResult(r, Ok((0, 0)))
    ensures n > 0 ==>
              var before := Seed(r, provisions, hashes, n - 1);
              Seed(r, provisions, hashes, n)
              == if before.counts.Err? then before
                 else SeedOne(before.registry, provisions[n - 1], hashes(n - 1), before.counts.value)
  {}

  lemma {:induction false} SeedStaysFailed(r: Registry, provisions: seq<AccountProvision>, hashes: Hashes, m: nat, n: nat)
    requires m <= n <= |provisions| && Seed(r, provisions, hashes, m).counts.Err?
    ensures Seed(r, provisions, hashes, n) == Seed(r, provisions, hashes, m)
    decreases n
  {
    hide Seed, SeedOne;
    if m < n {
      SeedUnfolds(r, provisions, hashes, n);
      SeedStaysFailed(r, provisions, hashes, m, n - 1);
    }
  }

  method ProvisionSeedAccounts(registry: AccountRegistry, provisions: seq<AccountProvision>, hashes: Hashes)
    returns (counts: Result<(nat, nat), SeedError>)
    modifies registry
    ensures SeedResult(registry.State(), counts) == Seed(old(registry.State()), provisions, hashes, |provisions|)
  {
    ghost var r := registry.State();
    var provisioned: nat, already: nat := 0, 0;
    for i := 0 to |provisions|
      invariant SeedResult(registry.State(), Ok((provisioned, already))) == Seed(r, provisions, hashes, i)
    {
      var p := provisions[i];
      if p.id in registry.byId {
        var existing := registry.byId[p.id];
        if existing.permissions != p.permissions || existing.credentials.fixUsername != p.fixUsername {
          counts := Err(AccountConflict(p.id));
          SeedStaysFailed(r, provisions, hashes, i + 1, |provisions|);
          return;
        }
        already := already + 1;
      } else {
        var outcome := registry.ProvisionAccount(p, hashes(i));
        if outcome.Err? {
          counts := Err(AccountError(outcome.error));
          SeedStaysFailed(r, provisions, hashes, i + 1, |provisions|);
          return;
        }
        provisioned := provisioned + 1;
      }
    }
    counts := Ok((provisioned, already));
  }

  lemma {:induction false} SeedKeeps(r: Registry, provisions: seq<AccountProvision>, hashes: Hashes, n: nat)
    requires n <= |provisions| && Coherent(r)
    ensures Coherent(Seed(r, provisions, hashes, n).registry) && Grows(r, Seed(r, provisions, hashes, n).registry)
  {
    hide *;
    SeedUnfolds(r, provisions, hashes, n);
    GrowsItself(r);
    if n > 0 {
      SeedKeeps(r, provisions, hashes, n - 1);
      var before := Seed(r, provisions, hashes, n - 1);
      if before.counts.Ok? {
        SeedOneKeeps(before.registry, provisions[n - 1], hashes(n - 1), before.counts.value);
        GrowsTransitive(r, before.registry, Seed(r, provisions, hashes, n).registry);
      }
    }
  }

  lemma SeedOneKeeps(r: Registry, p: AccountProvision, hashed: Result<string, AuthError>, counts: (nat, nat))
    requires Coherent(r)
    ensures var after := SeedOne(r, p, hashed, counts);
            Coherent(after.registry) && Grows(r, after.registry)
  {
    if p.id !in r.byId && Provision(r, p, hashed).Ok? {
      ProvisionKeeps(r, p, hashed);
    }
  }

  lemma SeedOneAdds(r: Registry, p: AccountProvision, hashed: Result<string, AuthError>, counts: (nat, nat))
    requires Coherent(r) && SeedOne(r, p, hashed, counts).counts.Ok?
    ensures var after := SeedOne(r, p, hashed, counts);
            && after.counts.value.0 + after.counts.value.1 == counts.0 + counts.1 + 1
            && after.registry.byId.Keys == r.byId.Keys + {p.id}
            && SameShape(after.registry.byId[p.id], p)
            && after.counts.value.0 == if p.id in r.byId then counts.0 else counts.0 + 1
  {
    hide Coherent, Provision, SameShape;
    if p.id !in r.byId {
      ProvisionKeeps(r, p, hashed);
    }
  }

  /** Every account named so far is present at the shape it was named with. */
  ghost predicate AllPresent(r: Registry, provisions: seq<AccountProvision>, n: nat)
    requires n <= |provisions|
  {
    forall i :: 0 <= i < n ==> provisions[i].id in r.byId && SameShape(r.byId[provisions[i].id], provisions[i])
  }

  lemma PresentLater(r: Registry, s: Registry, provisions: seq<AccountProvision>, n: nat)
    requires n <= |provisions| && AllPresent(r, provisions, n) && Grows(r, s)
    ensures AllPresent(s, provisions, n)
  {
    forall i | 0 <= i < n ensures provisions[i].id in s.byId && SameShape(s.byId[provisions[i].id], provisions[i]) {
      assert SameAccountLater(r.byId[provisions[i].id], s.byId[provisions[i].id]);
    }
  }

  lemma {:induction false} SeedingPresents(r: Registry, provisions: seq<AccountProvision>, hashes: Hashes, n: nat)
    requires n <= |provisions| && Coherent(r) && Seed(r, provisions, hashes, n).counts.Ok?
    ensures AllPresent(Seed(r, provisions, hashes, n).registry, provisions, n)
  {
    hide Coherent, Grows, Seed, SeedOne, SameShape;
    SeedUnfolds(r, provisions, hashes, n);
    if n > 0 {
      var before, after := Seed(r, provisions, hashes, n - 1), Seed(r, provisions, hashes, n);
      SeedingPresents(r, provisions, hashes, n - 1);
      SeedKeeps(r, provisions, hashes, n - 1);
      SeedOneKeeps(before.registry, provisions[n - 1], hashes(n - 1), before.counts.value);
      SeedOneAdds(before.registry, provisions[n - 1], hashes(n - 1), before.counts.value);
      PresentLater(before.registry, after.registry, provisions, n - 1);
    }
  }

  /** A seeding succeeds only if every account it names then has the permissions and the username it was named with. */
  lemma SeededAsNamed(r: Registry, provisions: seq<AccountProvision>, hashes: Hashes, n: nat, i: nat)
    requires i < n <= |provisions| && Coherent(r) && Seed(r, provisions, hashes, n).counts.Ok?
    ensures var after, p := Seed(r, provisions, hashes, n).registry, provisions[i];
            && p.id in after.byId
            && after.byId[p.id].permissions == p.permissions
            && after.byId[p.id].credentials.fixUsername == p.fixUsername
  {
    hide Coherent, Seed;
    SeedingPresents(r, provisions, hashes, n);
    assert SameShape(Seed(r, provisions, hashes, n).registry.byId[provisions[i].id], provisions[i]);
  }

  function NamedIds(provisions: seq<AccountProvision>, n: nat): set<AccountId>
    requires n <= |provisions|
  {
    set i | 0 <= i < n :: provisions[i].id
  }

  lemma NobodyNamed(provisions: seq<AccountProvision>)
    ensures NamedIds(provisions, 0) == {}
  {}

  lemma NamedIdsGrow(provisions: seq<AccountProvision>, n: nat)
    requires 0 < n <= |provisions|
    ensures NamedIds(provisions, n) == NamedIds(provisions, n - 1) + {provisions[n - 1].id}
  {}

  /** After a successful seeding the accounts are those from before and those named. */
  lemma {:induction false} SeedingAddsNamed(r: Registry, provisions: seq<AccountProvision>, hashes: Hashes, n: nat)
    requires n <= |provisions| && Coherent(r) && Seed(r, provisions, hashes, n).counts.Ok?
    ensures Seed(r, provisions, hashes, n).registry.byId.Keys == r.byId.Keys + NamedIds(provisions, n)
  {
    hide Coherent, Grows, Seed, SeedOne, NamedIds;
    SeedUnfolds(r, provisions, hashes, n);
    if n == 0 {
      NobodyNamed(provisions);
    } else {
      var before := Seed(r, provisions, hashes, n - 1);
      SeedingAddsNamed(r, provisions, hashes, n - 1);
      SeedKeeps(r, provisions, hashes, n - 1);
      SeedOneAdds(before.registry, provisions[n - 1], hashes(n - 1), before.counts.value);
      NamedIdsGrow(provisions, n);
    }
  }

  /** The two counts of a successful seeding split the provisions, and the first is how many accounts were added. */
  lemma {:induction false} SeedingCounts(r: Registry, provisions: seq<AccountProvision>, hashes: Hashes, n: nat)
    requires n <= |provisions| && Coherent(r) && Seed(r, provisions, hashes, n).counts.Ok?
    ensures var after := Seed(r, provisions, hashes, n);
            && after.counts.value.0 + after.counts.value.1 == n
            && |after.registry.byId.Keys| == |r.byId.Keys| + after.counts.value.0
  {
    hide Coherent, Grows, Seed, SeedOne;
    SeedUnfolds(r, provisions, hashes, n);
    if n > 0 {
      var before := Seed(r, provisions, hashes, n - 1);
      SeedingCounts(r, provisions, hashes, n - 1);
      SeedKeeps(r, provisions, hashes, n - 1);
      SeedOneAdds(before.registry, provisions[n - 1], hashes(n - 1), before.counts.value);
      InsertedCardinality(before.registry.byId.Keys, provisions[n - 1].id);
    }
  }

  lemma InsertedCardinality<T>(s: set<T>, x: T)
    ensures |s + {x}| == |s| + if x in s then 0 else 1
  {
    if x in s {
      assert s + {x} == s;
    }
  }

  lemma {:induction false} PresentIsNoOp(r: Registry, provisions: seq<AccountProvision>, hashes: Hashes, n: nat)
    requires n <= |provisions| && AllPresent(r, provisions, n)
    ensures Seed(r, provisions, hashes, n) == SeedResult(r, Ok((0, n)))
  {
    if n > 0 {
      PresentIsNoOp(r, provisions, hashes, n - 1);
    }
  }

  /**
   Seeding is idempotent: after it has succeeded once, seeding the same list again
   changes nothing and reports (0, n), whatever the hasher now answers and however far
   the registry has moved on in between: further accounts, rehashed passwords, or
   revocations, which reseeding therefore never lifts.
   */
  lemma SeedingIdempotent(
      r: Registry, provisions: seq<AccountProvision>, hashes: Hashes, later: Registry, hashesLater: Hashes)
    requires Coherent(r) && Seed(r, provisions, hashes, |provisions|).counts.Ok?
    requires Grows(Seed(r, provisions, hashes, |provisions|).registry, later)
    ensures Seed(later, provisions, hashesLater, |provisions|) == SeedResult(later, Ok((0, |provisions|)))
  {
    var n := |provisions|;
    SeedingPresents(r, provisions, hashes, n);
    SeedKeeps(r, provisions, hashes, n);
    PresentLater(Seed(r, provisions, hashes, n).registry, later, provisions, n);
    PresentIsNoOp(later, provisions, hashesLater, n);
  }

  /**
   A failing seeding stops at one provision: everything before it took effect and
   stays, nothing after it did, and it is a conflict exactly when that account already
   exists at another shape.
   */
  lemma {:induction false} SeedingStopsAt(r: Registry, provisions: seq<AccountProvision>, hashes: Hashes, n: nat) returns (k: nat)
    requires n <= |provisions| && Seed(r, provisions, hashes, n).counts.Err?
    ensures k < n && Seed(r, provisions, hashes, k).counts.Ok?
    ensures var after, failed := Seed(r, provisions, hashes, n), provisions[k];
            && after.registry == Seed(r, provisions, hashes, k).registry
            && (after.counts.error == AccountConflict(failed.id) <==>
                  && failed.id in after.registry.byId
                  && (after.registry.byId[failed.id].permissions != failed.permissions
                      || after.registry.byId[failed.id].credentials.fixUsername != failed.fixUsername))
            && (after.counts.error.AccountError? <==> failed.id !in after.registry.byId)
  {
    if Seed(r, provisions, hashes, n - 1).counts.Err? {
      k := SeedingStopsAt(r, provisions, hashes, n - 1);
    } else {
      k := n - 1;
    }
  }

  // ---------------------------------------------------------------- runs

  datatype RegistryOp =
    | InsertOp(account: Account)
    | ProvisionOp(provision: AccountProvision, hashed: Result<string, AuthError>)
    | RevokeOp(id: AccountId)
    | VerifyOp(username: string, password: string, verify: Verifier)
    | SeedOp(provisions: seq<AccountProvision>, hashes: Hashes)

  function OrElse(r: Result<Registry, AuthError>, default: Registry): Registry {
    match r
    case Ok(next) => next
    case Err(_) => default
  }

  function RegistryStep(r: Registry, op: RegistryOp): Registry {
    match op
    case InsertOp(account) => OrElse(Insert(r, account), r)
    case ProvisionOp(provision, hashed) => OrElse(Provision(r, provision, hashed), r)
    case RevokeOp(id) => Revoke(r, id).0
    case VerifyOp(username, password, verify) => VerifyFixPassword(r, username, password, verify).0
    case SeedOp(provisions, hashes) => Seed(r, provisions, hashes, |provisions|).registry
  }

  function RegistryRun(r: Registry, ops: seq<RegistryOp>): Registry
    decreases |ops|
  {
    if ops == [] then r else RegistryRun(RegistryStep(r, ops[0]), ops[1..])
  }

  lemma RegistryStepKeeps(r: Registry, op: RegistryOp)
    requires Coherent(r)
    ensures Coherent(RegistryStep(r, op)) && Grows(r, RegistryStep(r, op))
  {
    match op {
      case InsertOp(account) =>
        if Insert(r, account).Ok? {
          InsertKeeps(r, account);
        }
      case ProvisionOp(p, hashed) =>
        if Provision(r, p, hashed).Ok? {
          ProvisionKeeps(r, p, hashed);
        }
      case RevokeOp(id) => RevokeKeeps(r, id);
      case VerifyOp(username, password, verify) => VerifyKeeps(r, username, password, verify);
      case SeedOp(provisions, hashes) => SeedKeeps(r, provisions, hashes, |provisions|);
    }
  }

  /** Every run of registry operations keeps the two indices inverse to each other and only ever grows. */
  lemma {:induction false} RegistryRunKeeps(r: Registry, ops: seq<RegistryOp>)
    requires Coherent(r)
    ensures Coherent(RegistryRun(r, ops)) && Grows(r, RegistryRun(r, ops))
    decreases |ops|
  {
    if ops != [] {
      RegistryStepKeeps(r, ops[0]);
      RegistryRunKeeps(RegistryStep(r, ops[0]), ops[1..]);
      GrowsTransitive(r, RegistryStep(r, ops[0]), RegistryRun(r, ops));
    }
  }

  /** In every registry reachable from the empty one. */
  lemma ReachableCoherent(ops: seq<RegistryOp>)
    ensures Coherent(RegistryRun(EMPTY_REGISTRY, ops))
  {
    RegistryRunKeeps(EMPTY_REGISTRY, ops);
  }
}
