/**
 What the credential plane promises over whole runs: one budget per account, who is let
 in and why not, what a revocation still leaves served and for how long, tickets that work
 once, and reseeding.
 */
module Access {
  import opened Accounts
  import A = Admission
  import opened BucketLog
  import opened Collections
  import opened Envelope
  import opened RateLimits
  import opened Sessions
  import opened Words

  // ---------------------------------------------------------------- one account, one budget

  lemma LimiterAfter(cfg: Config, w: World, op: WorldOp)
    ensures WorldStep(cfg, w, op).limiter
         == match LimiterOp(w, op)
            case None => w.limiter
            case Some(l) => Step(cfg, w.limiter, l)
  {
    hide Step, Outcome, ChargedKey, A.Admit, A.AdmitRedeemed, A.Mint, A.Redeem, A.SessionHolds, RegistryStep, VerifyFixPassword, LogonSession;
  }

  /** The decisions and sweeps that reach the bucket of a key along a run, in the order in which they do. */
  function WorldTrace(cfg: Config, w: World, ops: seq<WorldOp>, key: RateLimitKey): seq<BucketOp>
    decreases |ops|
  {
    if ops == [] then []
    else
      (match LimiterOp(w, ops[0])
       case None => []
       case Some(l) => OpTrace(cfg, w.limiter, l, key))
      + WorldTrace(cfg, WorldStep(cfg, w, ops[0]), ops[1..], key)
  }

  lemma {:induction false} WorldFollowsTrace(cfg: Config, w: World, ops: seq<WorldOp>, key: RateLimitKey)
    ensures BucketOf(WorldRun(cfg, w, ops).limiter, key)
         == BucketRun(BucketOf(w.limiter, key), WorldTrace(cfg, w, ops, key), LimitForKey(cfg, key), cfg.budgets.windowMs)
    decreases |ops|
  {
    if ops != [] {
      var next, l := WorldStep(cfg, w, ops[0]), LimiterOp(w, ops[0]);
      var rest := WorldTrace(cfg, next, ops[1..], key);
      LimiterAfter(cfg, w, ops[0]);
      WorldFollowsTrace(cfg, next, ops[1..], key);
      if l.Some? {
        OpFollowsTrace(cfg, w.limiter, l.value, key);
        BucketRunAppend(BucketOf(w.limiter, key), OpTrace(cfg, w.limiter, l.value, key), rest,
                        LimitForKey(cfg, key), cfg.budgets.windowMs);
      } else {
        assert [] + rest == rest;
      }
      hide WorldStep, LimiterOp, BucketOf, BucketRun, OpTrace, LimitForKey;
    }
  }

  /**
   One account, one budget. Over every possible run of the whole credential plane along
   which the decisions on the account's one key agree with its history, the requests of
   the account that the limiter let through in any half-open interval of one window
   length, counted over bearer requests, ticket handshakes, socket controls and FIX orders
   together, number at most the limit of the account's tier.
   */
  lemma OneAccountOneBudget(cfg: Config, ops: seq<WorldOp>, id: AccountId, from: nat)
    requires PossibleRun(cfg, EMPTY_WORLD, ops) && id in WorldRun(cfg, EMPTY_WORLD, ops).registry.byId
    requires var key := AccountKey(WorldRun(cfg, EMPTY_WORLD, ops).registry, id);
             AllAgree(EMPTY_BUCKET, WorldTrace(cfg, EMPTY_WORLD, ops, key), LimitForKey(cfg, key), cfg.budgets.windowMs)
    ensures var w := WorldRun(cfg, EMPTY_WORLD, ops);
            CountIn(Passed(w, id), from, cfg.budgets.windowMs) <= LimitFor(cfg.budgets, TierOf(w.registry.byId[id].permissions))
  {
    var w := WorldRun(cfg, EMPTY_WORLD, ops);
    var key := AccountKey(w.registry, id);
    EmptyWorldInv();
    WorldRunKeeps(cfg, EMPTY_WORLD, ops);
    assert BudgetsSound(w);
    WorldFollowsTrace(cfg, EMPTY_WORLD, ops, key);
    AgreeingFromEmpty(WorldTrace(cfg, EMPTY_WORLD, ops, key), LimitForKey(cfg, key), cfg.budgets.windowMs, from);
  }

  /** In particular whenever decisions and sweeps reach the account's bucket in the order of their clock reads. */
  lemma OneAccountOneBudgetInOrder(cfg: Config, ops: seq<WorldOp>, id: AccountId, from: nat)
    requires PossibleRun(cfg, EMPTY_WORLD, ops) && id in WorldRun(cfg, EMPTY_WORLD, ops).registry.byId
    requires InOrder(0, WorldTrace(cfg, EMPTY_WORLD, ops, AccountKey(WorldRun(cfg, EMPTY_WORLD, ops).registry, id)))
    ensures var w := WorldRun(cfg, EMPTY_WORLD, ops);
            CountIn(Passed(w, id), from, cfg.budgets.windowMs) <= LimitFor(cfg.budgets, TierOf(w.registry.byId[id].permissions))
  {
    var key := AccountKey(WorldRun(cfg, EMPTY_WORLD, ops).registry, id);
    InOrderFromEmpty(0, WorldTrace(cfg, EMPTY_WORLD, ops, key), LimitForKey(cfg, key), cfg.budgets.windowMs);
    OneAccountOneBudget(cfg, ops, id, from);
  }

  // ---------------------------------------------------------------- who gets in

  /** In every reachable world, minted claims are current exactly while their account is not revoked. */
  lemma CurrentIffNotRevoked(w: World, claims: Claims)
    requires WorldInv(w) && claims in w.issued
    ensures A.Current(w.registry, claims) <==> w.registry.byId[claims.sub].revocationEpoch == 0
  {
    assert Minted(w.registry, claims);
  }

  /**
   A bearer request is admitted exactly when the limiter lets it through, its token
   verifies, its account has never been revoked, and the account's registered tier
   covers the required permission.
   */
  lemma BearerAdmittedIff(cfg: Config, w: World, op: WorldOp)
    requires WorldInv(w) && Possible(w, op) && op.Bearer? && op.path != A.HEALTH_PATH
    ensures var admission := BearerAdmission(cfg, w, op);
            admission.Admitted? <==>
              && op.verified.Some?
              && Outcome(cfg, w.limiter, Request(AccountKey(w.registry, op.verified.value.sub), op.now, op.sweepNow)).allowed
              && w.registry.byId[op.verified.value.sub].revocationEpoch == 0
              && w.registry.byId[op.verified.value.sub].permissions != []
              && Rank(op.required) <= Rank(TierOf(w.registry.byId[op.verified.value.sub].permissions))
  {
    if op.verified.Some? {
      var claims := op.verified.value;
      assert Minted(w.registry, claims);
      OneKeyPerAccount(w, op);
      CurrentIffNotRevoked(w, claims);
      TierDecidesPermission(claims.permissions, op.required);
    }
  }

  /**
   Why a bearer request is refused: throttled exactly when the limiter denies it;
   otherwise unauthorized exactly when its token does not verify or its account was
   revoked; otherwise forbidden exactly when the account's tier does not cover the
   permission.
   */
  lemma BearerRefusedWhy(cfg: Config, w: World, op: WorldOp)
    requires WorldInv(w) && Possible(w, op) && op.Bearer? && op.path != A.HEALTH_PATH
    ensures var admission := BearerAdmission(cfg, w, op);
            var allowed := Outcome(cfg, w.limiter, Request(ChargedKey(w, op).value, op.now, op.sweepNow)).allowed;
            var known := op.verified.Some? && w.registry.byId[op.verified.value.sub].revocationEpoch == 0;
            && (admission.NotAdmitted? && admission.error == A.RateLimited <==> !allowed)
            && (admission.NotAdmitted? && admission.error == A.Unauthorized <==> allowed && !known)
            && (admission.NotAdmitted? && admission.error == A.Forbidden(op.required) <==>
                  allowed && known && !AnyGrants(w.registry.byId[op.verified.value.sub].permissions, op.required))
  {
    if op.verified.Some? {
      assert Minted(w.registry, op.verified.value);
      CurrentIffNotRevoked(w, op.verified.value);
    }
  }

  /**
   Every bearer request and every handshake is charged, whether or not it is then let in:
   the limiter is left in the very state the admission decision left it in, which is that
   of one request under the charged key.
   */
  lemma ChargedEvenWhenRefused(cfg: Config, w: World, op: WorldOp)
    requires op.Bearer? || op.Handshake?
    ensures WorldStep(cfg, w, op).limiter.windows
         == if op.Bearer? then
              A.Admit(cfg, w.registry, w.limiter.windows, op.path, op.verified, op.peer, op.required, op.now, op.sweepNow).0
            else
              A.AdmitRedeemed(cfg, w.registry, w.limiter.windows, A.Redeem(w.tickets, op.presentedTicket, op.nowSecs).1,
                              op.peer, op.nowSecs, op.now, op.sweepNow).0
    ensures ChargedKey(w, op).Some? ==>
              WorldStep(cfg, w, op).limiter.windows == Check(cfg, w.limiter.windows, ChargedKey(w, op).value, op.now, op.sweepNow).0
  {
    LimiterAfter(cfg, w, op);
    hide WorldStep, Check, A.Redeem;
  }

  /**
   A handshake is admitted exactly when its ticket is out and unexpired, the token behind
   it has not expired, the limiter lets the account through, and the account has never
   been revoked.
   */
  lemma HandshakeAdmittedIff(cfg: Config, w: World, op: WorldOp)
    requires WorldInv(w) && op.Handshake?
    ensures HandshakeAdmission(cfg, w, op).Admitted? <==>
              && op.presentedTicket in w.tickets
              && var entry := w.tickets[op.presentedTicket];
              && op.nowSecs < entry.expiresAtSecs
              && op.nowSecs < entry.claims.exp
              && Outcome(cfg, w.limiter, Request(AccountKey(w.registry, entry.claims.sub), op.now, op.sweepNow)).allowed
              && w.registry.byId[entry.claims.sub].revocationEpoch == 0
  {
    if op.presentedTicket in w.tickets {
      var claims := w.tickets[op.presentedTicket].claims;
      assert Minted(w.registry, claims);
      CurrentIffNotRevoked(w, claims);
    }
  }

  /** A ticket grants exactly what the bearer token it was drawn for would, in every reachable world. */
  lemma TicketStandsForBearer(cfg: Config, w: World, op: WorldOp, path: string)
    requires WorldInv(w) && op.Handshake? && path != A.HEALTH_PATH
    requires op.presentedTicket in w.tickets && op.nowSecs < w.tickets[op.presentedTicket].expiresAtSecs
    requires op.nowSecs < w.tickets[op.presentedTicket].claims.exp
    ensures var claims := w.tickets[op.presentedTicket].claims;
            && claims in w.issued
            && A.AdmitRedeemed(cfg, w.registry, w.limiter.windows, A.Redeem(w.tickets, op.presentedTicket, op.nowSecs).1,
                               op.peer, op.nowSecs, op.now, op.sweepNow)
            == A.Admit(cfg, w.registry, w.limiter.windows, path, Some(claims), op.peer, Read, op.now, op.sweepNow)
  {
    var claims := w.tickets[op.presentedTicket].claims;
    assert Reader(w, claims);
    A.TicketMirrorsBearer(cfg, w.registry, w.limiter.windows, path, claims, op.peer, op.nowSecs, op.now, op.sweepNow);
  }

  // ---------------------------------------------------------------- revocation is permanent

  predicate Revoked(r: Registry, id: AccountId) {
    id in r.byId && r.byId[id].revocationEpoch > 0
  }

  /** The account that an operation lets in, serves or hands a credential to, if it does. */
  function GrantedTo(cfg: Config, w: World, op: WorldOp): Option<AccountId> {
    match op
    case Bearer(_, _, _, _, _, _, _) => Identity(BearerAdmission(cfg, w, op))
    case Handshake(_, _, _, _, _, _, _) => Identity(HandshakeAdmission(cfg, w, op))
    case MintToken(id, gate, presented, iat, ttl, signed) =>
      var minted := MintForAccount(w.registry, gate, id, presented, iat, ttl, signed);
      if minted.Ok? then Some(minted.value.sub) else None
    case SocketControl(socket, now, sweepNow) =>
      if socket in w.sockets && ControlServed(cfg, w, w.sockets[socket], now, sweepNow) then Some(w.sockets[socket].sub) else None
    case SocketSubscribe(socket) => if socket in w.sockets then Some(w.sockets[socket].sub) else None
    case Heartbeat(socket, nowSecs) =>
      if socket in w.sockets && A.SessionHolds(w.registry, w.sockets[socket], nowSecs) then Some(w.sockets[socket].sub) else None
    case FixLogon(username, password, verify, compIds, _, _, _) =>
      var session := LogonSession(w.registry, username, password, verify, compIds);
      if session.Some? then Some(session.value.account) else None
    case FixOrder(session, _, _) => if FixDropped(w.registry, session) then None else Some(session.account)
    case _ => None
  }

  function Identity(admission: A.Admission): Option<AccountId> {
    if admission.Admitted? then Some(admission.identity.sub) else None
  }

  /** A control frame on an open socket passes the limiter and the permission check, and no other. */
  predicate ControlServed(cfg: Config, w: World, claims: Claims, now: u64, sweepNow: u64) {
    Outcome(cfg, w.limiter, Request(A.ClaimsKey(claims), now, sweepNow)).allowed && AnyGrants(claims.permissions, Admin)
  }

  lemma RequestsRefused(cfg: Config, w: World, id: AccountId, op: WorldOp)
    requires WorldInv(w) && Revoked(w.registry, id) && Possible(w, op) && (op.Bearer? || op.Handshake?)
    ensures GrantedTo(cfg, w, op) != Some(id)
  {
    if op.Bearer? {
      if op.path != A.HEALTH_PATH && BearerAdmission(cfg, w, op).Admitted? {
        BearerAdmittedIff(cfg, w, op);
        AdmittedBearer(cfg, w, op);
      }
    } else {
      HandshakeAdmittedIff(cfg, w, op);
      RedeemedIdentity(cfg, w, op);
    }
    hide WorldInv, Outcome, AccountKey, TierOf, Rank;
  }

  lemma LogonRefused(r: Registry, id: AccountId, username: string, password: string, verify: Verifier, compIds: CompIdBinding)
    requires Coherent(r) && Revoked(r, id)
    ensures LogonSession(r, username, password, verify, compIds) == None
         || LogonSession(r, username, password, verify, compIds).value.account != id
  {
    VerifyKeeps(r, username, password, verify);
  }

  /**
   A FIX logon opens a session for an account exactly when the account holds the username
   with a stored hash the hasher accepts, has never been revoked, and is bound to the
   presented pair of comp ids.
   */
  lemma LogonOpensIff(r: Registry, id: AccountId, username: string, password: string, verify: Verifier, compIds: CompIdBinding)
    requires Coherent(r)
    ensures var session := LogonSession(r, username, password, verify, compIds);
            (session.Some? && session.value.account == id) <==>
              && id in r.byId
              && r.byId[id].credentials.fixUsername == Some(username)
              && r.byId[id].credentials.passwordHash.Some?
              && verify(password, r.byId[id].credentials.passwordHash.value).Ok?
              && !verify(password, r.byId[id].credentials.passwordHash.value).value.PasswordRejected?
              && r.byId[id].revocationEpoch == 0
              && r.byId[id].credentials.fixCompIds == Some(compIds)
  {
    VerifyKeeps(r, username, password, verify);
    VerifyAcceptsIff(r, username, password, verify, id);
    var (next, outcome) := VerifyFixPassword(r, username, password, verify);
    if outcome.Authenticated? {
      assert outcome.account in r.byId && SameAccountLater(r.byId[outcome.account], next.byId[outcome.account]);
      assert next.byId[outcome.account].revocationEpoch == r.byId[outcome.account].revocationEpoch;
    }
  }

  /** In every reachable world a control frame is served exactly when the limiter allows it and the account is an admin's, revoked or not. */
  lemma ControlServedIff(cfg: Config, w: World, id: AccountId, op: WorldOp)
    requires WorldInv(w) && op.SocketControl? && Possible(w, op)
    ensures GrantedTo(cfg, w, op) == Some(id) <==>
              && w.sockets[op.socket].sub == id
              && Outcome(cfg, w.limiter, Request(AccountKey(w.registry, id), op.now, op.sweepNow)).allowed
              && TierOf(w.registry.byId[id].permissions) == Admin
  {
    var claims := w.sockets[op.socket];
    assert Reader(w, claims) && Minted(w.registry, claims);
    TierDecidesPermission(claims.permissions, Admin);
    TierDecidesPermission(claims.permissions, Read);
    hide Outcome, BudgetsSound, TicketsSound, Coherent;
  }

  lemma RevokedSessionEnds(w: World, id: AccountId, claims: Claims, nowSecs: u64)
    requires WorldInv(w) && Revoked(w.registry, id) && claims in w.issued && claims.sub == id
    ensures !A.SessionHolds(w.registry, claims, nowSecs)
  {
    CurrentIffNotRevoked(w, claims);
  }

  /** What an open socket of an account serves it whatever its epoch: subscriptions, and control frames to an admin. */
  predicate ServedOnSocket(cfg: Config, w: World, id: AccountId, op: WorldOp)
    requires id in w.registry.byId
  {
    || (op.SocketSubscribe? && op.socket in SocketsOf(w, id))
    || (op.SocketControl? && op.socket in SocketsOf(w, id)
        && Outcome(cfg, w.limiter, Request(AccountKey(w.registry, id), op.now, op.sweepNow)).allowed
        && TierOf(w.registry.byId[id].permissions) == Admin)
  }

  function SocketsOf(w: World, id: AccountId): set<SocketId> {
    SocketsIn(w.sockets, id)
  }

  lemma OrderRefused(w: World, id: AccountId, session: FixSession)
    requires WorldInv(w) && Revoked(w.registry, id) && session in w.fixSessions && session.account == id
    ensures FixDropped(w.registry, session)
  {
    assert LoggedOn(w.registry, session);
  }

  lemma HeartbeatRefused(w: World, id: AccountId, socket: SocketId, nowSecs: u64)
    requires WorldInv(w) && Revoked(w.registry, id) && socket in w.sockets && w.sockets[socket].sub == id
    ensures !A.SessionHolds(w.registry, w.sockets[socket], nowSecs)
  {
    assert Reader(w, w.sockets[socket]);
    hide AnyGrants;
    RevokedSessionEnds(w, id, w.sockets[socket], nowSecs);
  }

  lemma MintRefused(r: Registry, id: AccountId, op: WorldOp)
    requires Coherent(r) && Revoked(r, id) && op.MintToken?
    ensures var minted := MintForAccount(r, op.gate, op.id, op.presented, op.iat, op.ttl, op.signed);
            minted.Ok? ==> minted.value.sub != id
  {}

  lemma WorldIsCoherent(w: World)
    requires WorldInv(w)
    ensures Coherent(w.registry)
  {}

  lemma RevokedOffSocket(cfg: Config, w: World, id: AccountId, op: WorldOp)
    requires WorldInv(w) && Revoked(w.registry, id) && Possible(w, op)
    requires !op.SocketControl? && !op.SocketSubscribe?
    ensures GrantedTo(cfg, w, op) != Some(id)
  {
    hide WorldInv, Revoked, LogonSession, MintForAccount, BearerAdmission, HandshakeAdmission, A.SessionHolds, FixDropped, AnyGrants;
    WorldIsCoherent(w);
    match op {
      case Bearer(_, _, _, _, _, _, _) => RequestsRefused(cfg, w, id, op);
      case Handshake(_, _, _, _, _, _, _) => RequestsRefused(cfg, w, id, op);
      case MintToken(_, _, _, _, _, _) => MintRefused(w.registry, id, op);
      case FixLogon(username, password, verify, compIds, _, _, _) =>
        LogonRefused(w.registry, id, username, password, verify, compIds);
      case FixOrder(session, _, _) =>
        if session.account == id {
          OrderRefused(w, id, session);
        }
      case Heartbeat(socket, nowSecs) =>
        if w.sockets[socket].sub == id {
          HeartbeatRefused(w, id, socket, nowSecs);
        }
      case _ =>
    }
  }

  /**
   What a revoked account still gets, exactly: subscriptions on a socket it has open, and,
   for an admin the limiter allows, control frames on one. Everything else is refused: every
   request, ticket, fresh token, FIX logon and FIX order, and the next heartbeat.
   */
  lemma RevokedServedIff(cfg: Config, w: World, id: AccountId, op: WorldOp)
    requires WorldInv(w) && Revoked(w.registry, id) && Possible(w, op)
    ensures GrantedTo(cfg, w, op) == Some(id) <==> ServedOnSocket(cfg, w, id, op)
  {
    if op.SocketControl? {
      ControlServedIff(cfg, w, id, op);
    } else if !op.SocketSubscribe? {
      RevokedOffSocket(cfg, w, id, op);
    }
    hide WorldInv, Outcome, AccountKey, A.Admit, A.AdmitRedeemed, A.Redeem, LogonSession, ControlServed;
  }

  lemma RevokedStays(cfg: Config, w: World, id: AccountId, op: WorldOp)
    requires WorldInv(w) && Revoked(w.registry, id) && Possible(w, op)
    ensures Revoked(WorldStep(cfg, w, op).registry, id)
  {
    WorldStepKeeps(cfg, w, op);
    assert SameAccountLater(w.registry.byId[id], WorldStep(cfg, w, op).registry.byId[id]);
    hide WorldStep, WorldInv;
  }

  /** What an operation does to the open sockets. */
  function SocketsAfter(cfg: Config, w: World, op: WorldOp): map<SocketId, Claims> {
    match op
    case Bearer(_, _, _, _, _, _, OpenSocket(socket, true)) =>
      var admission := BearerAdmission(cfg, w, op);
      if admission.Admitted? then w.sockets[socket := admission.identity] else w.sockets
    case Handshake(_, _, _, _, _, opening, true) =>
      var admission := HandshakeAdmission(cfg, w, op);
      if admission.Admitted? then w.sockets[opening := admission.identity] else w.sockets
    case Heartbeat(socket, nowSecs) =>
      if socket in w.sockets && !A.SessionHolds(w.registry, w.sockets[socket], nowSecs) then w.sockets - {socket} else w.sockets
    case CloseSocket(socket) => w.sockets - {socket}
    case _ => w.sockets
  }

  lemma SocketsAfterStep(cfg: Config, w: World, op: WorldOp)
    ensures WorldStep(cfg, w, op).sockets == SocketsAfter(cfg, w, op)
  {
    ChargedElsewhere(cfg, w, op);
    hide Charged, BearerAdmission, HandshakeAdmission, LogonSession, VerifyFixPassword, RegistryStep, A.Mint, A.Redeem,
         MintForAccount, A.SessionHolds, Outcome;
  }

  function SocketsIn(sockets: map<SocketId, Claims>, id: AccountId): set<SocketId> {
    set k | k in sockets && sockets[k].sub == id
  }

  /** A request that does not let an account in opens no socket for it. */
  lemma OpensForOthers(cfg: Config, w: World, id: AccountId, op: WorldOp)
    requires (op.Bearer? || op.Handshake?) && GrantedTo(cfg, w, op) != Some(id)
    ensures SocketsIn(SocketsAfter(cfg, w, op), id) <= SocketsIn(w.sockets, id)
  {
    hide BearerAdmission, HandshakeAdmission;
  }

  lemma EndingCloses(cfg: Config, w: World, id: AccountId, op: WorldOp)
    requires WorldInv(w) && Revoked(w.registry, id) && Possible(w, op) && Ends(op)
    ensures SocketsIn(SocketsAfter(cfg, w, op), id) <= SocketsIn(w.sockets, id) - {op.socket}
  {
    hide WorldInv, Revoked, A.SessionHolds;
    if op.Heartbeat? && w.sockets[op.socket].sub == id {
      HeartbeatRefused(w, id, op.socket, op.nowSecs);
    }
  }

  /** A revoked account opens no socket, and a heartbeat or a close takes one away. */
  lemma SocketsShrink(cfg: Config, w: World, id: AccountId, op: WorldOp)
    requires WorldInv(w) && Revoked(w.registry, id) && Possible(w, op)
    ensures SocketsOf(WorldStep(cfg, w, op), id) <= SocketsOf(w, id) - if Ends(op) then {op.socket} else {}
  {
    hide WorldInv, WorldStep, Revoked, Possible, GrantedTo;
    SocketsAfterStep(cfg, w, op);
    if Ends(op) {
      EndingCloses(cfg, w, id, op);
    } else if op.Bearer? || op.Handshake? {
      RequestsRefused(cfg, w, id, op);
      OpensForOthers(cfg, w, id, op);
    }
    hide BearerAdmission, HandshakeAdmission;
  }

  /** A heartbeat on a socket, or its close. */
  predicate Ends(op: WorldOp) {
    op.Heartbeat? || op.CloseSocket?
  }

  /** The sockets that had a heartbeat or were closed. */
  function Ended(ops: seq<WorldOp>): set<SocketId>
    decreases |ops|
  {
    if ops == [] then {} else (if Ends(ops[0]) then {ops[0].socket} else {}) + Ended(ops[1..])
  }

  lemma {:induction false} RevokedRun(cfg: Config, w: World, ops: seq<WorldOp>, id: AccountId)
    requires WorldInv(w) && Revoked(w.registry, id) && PossibleRun(cfg, w, ops)
    ensures var v := WorldRun(cfg, w, ops);
            && WorldInv(v) && Revoked(v.registry, id)
            && SocketsOf(v, id) <= SocketsOf(w, id) - Ended(ops)
    decreases |ops|
  {
    if ops != [] {
      var op, next := ops[0], WorldStep(cfg, w, ops[0]);
      WorldStepKeeps(cfg, w, op);
      RevokedStays(cfg, w, id, op);
      SocketsShrink(cfg, w, id, op);
      hide WorldInv, WorldStep, Revoked, Grows, SocketsOf, Possible;
      RevokedRun(cfg, next, ops[1..], id);
    }
  }

  /**
   Revocation is permanent. Revoke any known account in any reachable world and let the
   run go on in any way: the account stays revoked, its open sockets are among those it
   had at the revoke and that have had neither heartbeat nor close since, and a step that
   is then possible serves it exactly on those sockets. In particular, once each of its
   sockets has had one heartbeat, nothing is served to it ever again.
   */
  lemma RevocationIsPermanent(cfg: Config, w: World, id: AccountId, ops: seq<WorldOp>, next: WorldOp)
    requires WorldInv(w) && id in w.registry.byId
    requires PossibleRun(cfg, WorldStep(cfg, w, Administer(RevokeOp(id))), ops)
    requires Possible(WorldRun(cfg, WorldStep(cfg, w, Administer(RevokeOp(id))), ops), next)
    ensures var v := WorldRun(cfg, WorldStep(cfg, w, Administer(RevokeOp(id))), ops);
            && Revoked(v.registry, id)
            && SocketsOf(v, id) <= SocketsOf(w, id) - Ended(ops)
            && (GrantedTo(cfg, v, next) == Some(id) <==> ServedOnSocket(cfg, v, id, next))
            && (SocketsOf(w, id) <= Ended(ops) ==> GrantedTo(cfg, v, next) != Some(id))
  {
    var after := WorldStep(cfg, w, Administer(RevokeOp(id)));
    RevokeStep(cfg, w, id);
    hide *;
    RevokedRun(cfg, after, ops, id);
    RevokedServedIff(cfg, WorldRun(cfg, after, ops), id, next);
    if SocketsOf(w, id) <= Ended(ops) {
      NoSocketNoService(cfg, WorldRun(cfg, after, ops), id, next);
    }
  }

  lemma RevokeStep(cfg: Config, w: World, id: AccountId)
    requires WorldInv(w) && id in w.registry.byId
    ensures var after := WorldStep(cfg, w, Administer(RevokeOp(id)));
            WorldInv(after) && Revoked(after.registry, id) && SocketsOf(after, id) == SocketsOf(w, id)
  {
    hide Revoke, Revoked, SocketsIn, Grows, Coherent, Minted, CredentialsSound, BudgetsSound, TicketsSound, SocketsSound;
    RevokeTakesEffect(w.registry, id);
    WorldStepKeeps(cfg, w, Administer(RevokeOp(id)));
  }

  lemma NoSocketNoService(cfg: Config, w: World, id: AccountId, op: WorldOp)
    requires id in w.registry.byId && SocketsOf(w, id) == {}
    ensures !ServedOnSocket(cfg, w, id, op)
  {}

  lemma RevokeTakesEffect(r: Registry, id: AccountId)
    requires id in r.byId
    ensures Revoked(Revoke(r, id).0, id)
  {}

  // ---------------------------------------------------------------- a revoked admin is still served until the heartbeat

  function NewAdmin(id: AccountId): Account {
    Account.Account(id, Repeated(0), [Admin], Credentials(None, None, None), 0)
  }

  function AdminClaims(id: AccountId): Claims {
    Claims(id, [Admin], 0, 3_600, 0)
  }

  const SECRET := BootstrapGate(Some("s"))

  /** An admin is inserted, gets a token, opens a socket and is revoked. */
  function RevokedAdminRun(id: AccountId): seq<WorldOp> {
    [Administer(InsertOp(NewAdmin(id))),
     MintToken(id, SECRET, "s", 0, 3_600, true),
     Bearer(WS_PATH, Some(AdminClaims(id)), "peer", Read, 0, 0, OpenSocket(1, true)),
     Administer(RevokeOp(id))]
  }

  lemma AdminInserted(cfg: Config, id: AccountId)
    requires id != MARKET_MAKER_ACCOUNT
    ensures WorldStep(cfg, EMPTY_WORLD, Administer(InsertOp(NewAdmin(id))))
         == EMPTY_WORLD.(registry := Registry(map[id := NewAdmin(id)], map[]))
  {
    assert Repeated(0)[0] != MARKET_MAKER_OWNER[0];
  }

  lemma FreshKeyAllowed(cfg: Config, key: RateLimitKey)
    requires cfg.maxKeys >= 1 && LimitForKey(cfg, key) >= 2
    ensures Check(cfg, map[], key, 0, 0).1.allowed
    ensures Check(cfg, Check(cfg, map[], key, 0, 0).0, key, 0, 0).1.allowed
  {
    var none: Windows, first: seq<u64> := map[], [0];
    var w := Check(cfg, none, key, 0, 0).0;
    assert |none| == 0;
    assert Decide([], 0, LimitForKey(cfg, key), cfg.budgets.windowMs).0 == first;
    assert w == none[key := first];
    assert [0][1..] == [];
    assert |Live([0], 0, cfg.budgets.windowMs)| <= 1;
  }

  lemma AdminSocketOpens(cfg: Config, id: AccountId, w: World)
    requires cfg.maxKeys >= 1 && cfg.budgets.admin >= 2
    requires w == EMPTY_WORLD.(registry := Registry(map[id := NewAdmin(id)], map[]), issued := {AdminClaims(id)})
    ensures var v := WorldStep(cfg, w, Bearer(WS_PATH, Some(AdminClaims(id)), "peer", Read, 0, 0, OpenSocket(1, true)));
            && v.sockets == map[1 := AdminClaims(id)] && v.registry == w.registry
            && Outcome(cfg, v.limiter, Request(A.ClaimsKey(AdminClaims(id)), 0, 0)).allowed
  {
    var op := Bearer(WS_PATH, Some(AdminClaims(id)), "peer", Read, 0, 0, OpenSocket(1, true));
    var key := A.ClaimsKey(AdminClaims(id));
    assert [Admin][1..] == [];
    assert TierOf([Admin]) == Admin;
    assert Admin in [Admin] && Grants(Admin, Read);
    assert AnyGrants([Admin], Read);
    FreshKeyAllowed(cfg, key);
    assert WS_PATH != A.HEALTH_PATH;
    LimiterAfter(cfg, w, op);
    SocketsAfterStep(cfg, w, op);
    RegistryAfter(cfg, w, op);
    hide WorldStep, Check, TierOf, AnyGrants;
    assert BearerAdmission(cfg, w, op) == A.Admitted(AdminClaims(id), Check(cfg, map[], key, 0, 0).1);
  }

  lemma RevokedAdminStep(cfg: Config, id: AccountId, w: World)
    requires id in w.registry.byId && w.sockets == map[1 := AdminClaims(id)]
    requires Outcome(cfg, w.limiter, Request(A.ClaimsKey(AdminClaims(id)), 0, 0)).allowed
    ensures var v := WorldStep(cfg, w, Administer(RevokeOp(id)));
            && Revoked(v.registry, id) && Possible(v, SocketControl(1, 0, 0))
            && GrantedTo(cfg, v, SocketControl(1, 0, 0)) == Some(id)
  {
    assert Admin in [Admin] && AnyGrants([Admin], Admin);
    hide Outcome;
  }

  lemma {:induction false} RunOfFour(cfg: Config, w: World, ops: seq<WorldOp>)
    requires |ops| == 4
    requires var w1 := WorldStep(cfg, w, ops[0]);
             var w2 := WorldStep(cfg, w1, ops[1]);
             Possible(w, ops[0]) && Possible(w1, ops[1]) && Possible(w2, ops[2]) && Possible(WorldStep(cfg, w2, ops[2]), ops[3])
    ensures PossibleRun(cfg, w, ops)
    ensures WorldRun(cfg, w, ops)
         == WorldStep(cfg, WorldStep(cfg, WorldStep(cfg, WorldStep(cfg, w, ops[0]), ops[1]), ops[2]), ops[3])
  {
    hide WorldStep, Possible;
    var w2 := WorldStep(cfg, WorldStep(cfg, w, ops[0]), ops[1]);
    var later := ops[1..][1..];
    assert later == [ops[2], ops[3]] && later[1..] == [ops[3]] && later[1..][1..] == [];
    var w3 := WorldStep(cfg, w2, ops[2]);
    assert PossibleRun(cfg, w3, later[1..]) && WorldRun(cfg, w3, later[1..]) == WorldStep(cfg, w3, ops[3]);
    assert PossibleRun(cfg, w2, later) && WorldRun(cfg, w2, later) == WorldStep(cfg, w3, ops[3]);
  }

  /**
   The socket case is real: for every admin account and every limiter that allows an
   admin two requests, there is a possible run from the empty world after which the
   account is revoked and yet the next control frame on its open socket is served.
   */
  lemma RevokedAdminStillServed(cfg: Config, id: AccountId)
    requires id != MARKET_MAKER_ACCOUNT && cfg.maxKeys >= 1 && cfg.budgets.admin >= 2
    ensures PossibleRun(cfg, EMPTY_WORLD, RevokedAdminRun(id))
    ensures var v := WorldRun(cfg, EMPTY_WORLD, RevokedAdminRun(id));
            && Revoked(v.registry, id) && Possible(v, SocketControl(1, 0, 0))
            && GrantedTo(cfg, v, SocketControl(1, 0, 0)) == Some(id)
  {
    var ops := RevokedAdminRun(id);
    var w1 := EMPTY_WORLD.(registry := Registry(map[id := NewAdmin(id)], map[]));
    var w2 := w1.(issued := {AdminClaims(id)});
    var w3 := WorldStep(cfg, w2, ops[2]);
    assert WorldStep(cfg, w1, ops[1]) == w2;
    assert Possible(EMPTY_WORLD, ops[0]) && Possible(w1, ops[1]) && Possible(w2, ops[2]) && Possible(w3, ops[3]);
    hide WorldStep, Possible, GrantedTo, Revoked, Outcome, PossibleRun, WorldRun;
    AdminInserted(cfg, id);
    AdminSocketOpens(cfg, id, w2);
    RevokedAdminStep(cfg, id, w3);
    RunOfFour(cfg, EMPTY_WORLD, ops);
  }

  // ---------------------------------------------------------------- tickets work once

  predicate Spent(w: World, ticket: string) {
    ticket in w.drawn && ticket !in w.tickets
  }

  /** What an operation does to the tickets that are out. */
  function TicketsAfter(cfg: Config, w: World, op: WorldOp): A.Tickets {
    match op
    case Bearer(_, _, _, _, _, _, DrawTicket(nowSecs, ticket)) =>
      var admission := BearerAdmission(cfg, w, op);
      if admission.Admitted? then A.Mint(w.tickets, A.MAX_WS_TICKETS, admission.identity, nowSecs, ticket).0 else w.tickets
    case Handshake(ticket, _, nowSecs, _, _, _, _) => A.Redeem(w.tickets, ticket, nowSecs).0
    case _ => w.tickets
  }

  lemma TicketsAfterStep(cfg: Config, w: World, op: WorldOp)
    ensures WorldStep(cfg, w, op).tickets == TicketsAfter(cfg, w, op)
    ensures w.drawn <= WorldStep(cfg, w, op).drawn
  {
    ChargedElsewhere(cfg, w, op);
    hide Charged, BearerAdmission, HandshakeAdmission, LogonSession, VerifyFixPassword, RegistryStep, A.Mint, A.Redeem,
         MintForAccount, A.SessionHolds, Outcome;
  }

  lemma HandshakeSpends(cfg: Config, w: World, op: WorldOp)
    requires op.Handshake? && op.presentedTicket in w.drawn
    ensures Spent(WorldStep(cfg, w, op), op.presentedTicket)
  {
    TicketsAfterStep(cfg, w, op);
    hide WorldStep;
  }

  lemma SpentStepStays(cfg: Config, w: World, op: WorldOp, ticket: string)
    requires Spent(w, ticket) && Possible(w, op)
    ensures Spent(WorldStep(cfg, w, op), ticket)
  {
    TicketsAfterStep(cfg, w, op);
    hide WorldStep, BearerAdmission;
  }

  lemma {:induction false} SpentStays(cfg: Config, w: World, ops: seq<WorldOp>, ticket: string)
    requires Spent(w, ticket) && PossibleRun(cfg, w, ops)
    ensures Spent(WorldRun(cfg, w, ops), ticket)
    decreases |ops|
  {
    if ops != [] {
      SpentStepStays(cfg, w, ops[0], ticket);
      hide WorldStep, Spent;
      SpentStays(cfg, WorldStep(cfg, w, ops[0]), ops[1..], ticket);
    }
  }

  /**
   A ticket is good for one handshake: once presented, admitted or not, no later
   handshake with it is ever admitted, however the run goes on.
   */
  lemma TicketWorksOnce(cfg: Config, w: World, first: WorldOp, ops: seq<WorldOp>, again: WorldOp)
    requires first.Handshake? && first.presentedTicket in w.drawn
    requires PossibleRun(cfg, w, [first] + ops) && again.Handshake? && again.presentedTicket == first.presentedTicket
    ensures !HandshakeAdmission(cfg, WorldRun(cfg, WorldStep(cfg, w, first), ops), again).Admitted?
  {
    assert ([first] + ops)[1..] == ops;
    hide WorldStep, WorldRun;
    HandshakeSpends(cfg, w, first);
    SpentStays(cfg, WorldStep(cfg, w, first), ops, first.presentedTicket);
  }

  /** A ticket is either gone or still the one drawn with these claims and this expiry. */
  predicate Bound(w: World, ticket: string, entry: A.TicketEntry) {
    ticket in w.drawn && (ticket in w.tickets ==> w.tickets[ticket] == entry)
  }

  lemma BoundStepStays(cfg: Config, w: World, op: WorldOp, ticket: string, entry: A.TicketEntry)
    requires Bound(w, ticket, entry) && Possible(w, op)
    ensures Bound(WorldStep(cfg, w, op), ticket, entry)
  {
    TicketsAfterStep(cfg, w, op);
    hide WorldStep, BearerAdmission;
  }

  lemma {:induction false} BoundStays(cfg: Config, w: World, ops: seq<WorldOp>, ticket: string, entry: A.TicketEntry)
    requires Bound(w, ticket, entry) && PossibleRun(cfg, w, ops)
    ensures Bound(WorldRun(cfg, w, ops), ticket, entry)
    decreases |ops|
  {
    if ops != [] {
      BoundStepStays(cfg, w, ops[0], ticket, entry);
      hide WorldStep, Bound;
      BoundStays(cfg, WorldStep(cfg, w, ops[0]), ops[1..], ticket, entry);
    }
  }

  /** A request admitted to draw a ticket string that is not out yet. */
  predicate Draws(cfg: Config, w: World, op: WorldOp, ticket: string, nowSecs: u64) {
    && op.Bearer? && op.purpose == DrawTicket(nowSecs, Some(ticket)) && BearerAdmission(cfg, w, op).Admitted?
    && ticket !in w.tickets && nowSecs + A.WS_TICKET_TTL_SECS <= U64_MAX
  }

  lemma DrawBinds(cfg: Config, w: World, op: WorldOp, ticket: string, nowSecs: u64)
    requires Draws(cfg, w, op, ticket, nowSecs)
    ensures Bound(WorldStep(cfg, w, op), ticket,
                  A.TicketEntry(BearerAdmission(cfg, w, op).identity, nowSecs + A.WS_TICKET_TTL_SECS))
  {
    ChargedElsewhere(cfg, w, op);
    hide Charged, BearerAdmission;
  }

  /**
   However the run goes on after a ticket not yet out is drawn, a handshake it wins is for
   the claims it was drawn for, within 30 seconds of the draw.
   */
  lemma TicketIsBound(cfg: Config, w: World, draw: WorldOp, ticket: string, nowSecs: u64, ops: seq<WorldOp>, use: WorldOp)
    requires Draws(cfg, w, draw, ticket, nowSecs)
    requires PossibleRun(cfg, WorldStep(cfg, w, draw), ops) && use.Handshake? && use.presentedTicket == ticket
    ensures var admission := HandshakeAdmission(cfg, WorldRun(cfg, WorldStep(cfg, w, draw), ops), use);
            admission.Admitted? ==> admission.identity == BearerAdmission(cfg, w, draw).identity && use.nowSecs < nowSecs + 30
  {
    var v := WorldRun(cfg, WorldStep(cfg, w, draw), ops);
    var entry := A.TicketEntry(BearerAdmission(cfg, w, draw).identity, nowSecs + A.WS_TICKET_TTL_SECS);
    hide WorldStep, WorldRun, PossibleRun, HandshakeAdmission, BearerAdmission;
    DrawBinds(cfg, w, draw, ticket, nowSecs);
    BoundStays(cfg, WorldStep(cfg, w, draw), ops, ticket, entry);
    RedeemedIdentity(cfg, v, use);
  }

  // ---------------------------------------------------------------- seeding again, anywhere

  /**
   Reseeding after a restart of the seed phase: once a list has been seeded, then in
   every world reachable from there seeding it again changes nothing at all and reports
   (0, n).
   */
  lemma ReseedingAnywhere(
      cfg: Config, w: World, provisions: seq<AccountProvision>, hashes: Hashes, ops: seq<WorldOp>, hashesLater: Hashes)
    requires WorldInv(w) && Seed(w.registry, provisions, hashes, |provisions|).counts.Ok?
    requires PossibleRun(cfg, WorldStep(cfg, w, Administer(SeedOp(provisions, hashes))), ops)
    ensures var v := WorldRun(cfg, WorldStep(cfg, w, Administer(SeedOp(provisions, hashes))), ops);
            && Seed(v.registry, provisions, hashesLater, |provisions|).counts == Ok((0, |provisions|))
            && WorldStep(cfg, v, Administer(SeedOp(provisions, hashesLater))) == v
  {
    var op := Administer(SeedOp(provisions, hashes));
    WorldStepKeeps(cfg, w, op);
    WorldRunKeeps(cfg, WorldStep(cfg, w, op), ops);
    SeedingIdempotent(w.registry, provisions, hashes, WorldRun(cfg, WorldStep(cfg, w, op), ops).registry, hashesLater);
  }
}
