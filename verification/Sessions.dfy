/**
 The whole credential plane as one transition system: the registry, the rate limiter
 with its admission history, the ticket store, and everything ever handed out. Tokens
 cannot be forged, so a verified bearer's claims are among those minted; a drawn ticket
 string has never been drawn before.
 */
module Sessions {
  import opened Accounts
  import A = Admission
  import opened Collections
  import opened Envelope
  import opened RateLimits
  import opened Words

  /** A logged-on FIX session: what it remembers of its account from the logon. */
  datatype FixSession = FixSession(account: AccountId, permissions: seq<Permission>, epoch: u64)

  type SocketId = nat

  /**
   `issued` holds the claims of every token minted, `sockets` the claims behind every open
   WebSocket, `everOpen` every socket there ever was, `drawn` every ticket string, and
   `passed` per account the times at which the limiter let one of its requests through,
   whatever the surface.
   */
  datatype World = World(
    registry: Registry,
    limiter: History,
    tickets: A.Tickets,
    issued: set<Claims>,
    fixSessions: set<FixSession>,
    sockets: map<SocketId, Claims>,
    everOpen: set<SocketId>,
    drawn: set<string>,
    passed: map<AccountId, seq<u64>>)

  const EMPTY_WORLD := World(EMPTY_REGISTRY, EMPTY_HISTORY, map[], {}, {}, map[], {}, {}, map[])

  const WS_PATH := "/ws"
  const TICKET_PATH := "/api/v1/auth/ws-ticket"

  /** What the handler behind an admitted bearer request goes on to do with its claims. */
  datatype Purpose =
    | Plain
    | OpenSocket(socket: SocketId, slotFree: bool)
    | DrawTicket(nowSecs: u64, ticket: Option<string>)

  datatype WorldOp =
    | Administer(op: RegistryOp)
    | MintToken(id: AccountId, gate: BootstrapGate, presented: string, iat: u64, ttl: u64, signed: bool)
    | Bearer(path: string, verified: Option<Claims>, peer: string, required: Permission, now: u64, sweepNow: u64, purpose: Purpose)
    | Handshake(presentedTicket: string, peer: string, nowSecs: u64, now: u64, sweepNow: u64, opening: SocketId, slotFree: bool)
    | SocketControl(socket: SocketId, now: u64, sweepNow: u64)
    | SocketSubscribe(socket: SocketId)
    | Heartbeat(socket: SocketId, nowSecs: u64)
    | CloseSocket(socket: SocketId)
    | FixLogon(username: string, password: string, verify: Verifier, compIds: CompIdBinding, peer: string, now: u64, sweepNow: u64)
    | FixOrder(session: FixSession, now: u64, sweepNow: u64)
    | SweepLimiter(now: u64)

  /** A socket is opened on the socket path and a ticket drawn on the ticket path, both for readers; ids and tickets are new. */
  predicate PurposePossible(w: World, path: string, required: Permission, purpose: Purpose) {
    match purpose
    case Plain => true
    case OpenSocket(socket, _) => path == WS_PATH && required == Read && socket !in w.everOpen
    case DrawTicket(_, ticket) => path == TICKET_PATH && required == Read && (ticket.Some? ==> ticket.value !in w.drawn)
  }

  /** What a caller cannot do: forge a token, act on a socket or session that is not open, guess a ticket in advance. */
  predicate Possible(w: World, op: WorldOp) {
    match op
    case Bearer(path, verified, _, required, _, _, purpose) =>
      (verified.Some? ==> verified.value in w.issued) && PurposePossible(w, path, required, purpose)
    case Handshake(_, _, _, _, _, opening, _) => opening !in w.everOpen
    case SocketControl(socket, _, _) => socket in w.sockets
    case SocketSubscribe(socket) => socket in w.sockets
    case Heartbeat(socket, _) => socket in w.sockets
    case CloseSocket(socket) => socket in w.sockets
    case FixOrder(session, _, _) => session in w.fixSessions
    case _ => true
  }

  // ---------------------------------------------------------------- steps

  function SessionKey(session: FixSession): RateLimitKey {
    RateLimitKey.Account(session.account, session.epoch, TierOf(session.permissions))
  }

  /** A FIX session is dropped when its account's epoch has risen above the one seen at logon. */
  predicate FixDropped(r: Registry, session: FixSession) {
    session.account !in r.byId || r.byId[session.account].revocationEpoch > session.epoch
  }

  /** Under which limiter key an operation is charged, if it is. */
  function ChargedKey(w: World, op: WorldOp): Option<RateLimitKey> {
    match op
    case Bearer(path, verified, peer, _, _, _, _) =>
      if path == A.HEALTH_PATH then None
      else if verified.Some? then Some(A.ClaimsKey(verified.value))
      else Some(Peer(peer))
    case Handshake(ticket, peer, nowSecs, _, _, _, _) =>
      var claims := A.Redeem(w.tickets, ticket, nowSecs).1;
      if claims.Some? then Some(A.ClaimsKey(claims.value)) else Some(Peer(peer))
    case SocketControl(socket, _, _) => if socket in w.sockets then Some(A.ClaimsKey(w.sockets[socket])) else None
    case FixLogon(_, _, _, _, peer, _, _) => Some(Peer(peer))
    case FixOrder(session, _, _) => if FixDropped(w.registry, session) then None else Some(SessionKey(session))
    case _ => None
  }

  function LimiterOp(w: World, op: WorldOp): Option<Op> {
    if op.SweepLimiter? then Some(SweepAt(op.now))
    else if ChargedKey(w, op).Some? && (op.Bearer? || op.Handshake? || op.SocketControl? || op.FixLogon? || op.FixOrder?)
    then Some(Request(ChargedKey(w, op).value, op.now, op.sweepNow))
    else None
  }

  function Charged(cfg: Config, w: World, op: WorldOp): World {
    match LimiterOp(w, op)
    case None => w
    case Some(limiterOp) => Charge(cfg, w, limiterOp)
  }

  function Charge(cfg: Config, w: World, op: Op): World {
    var charged := w.(limiter := Step(cfg, w.limiter, op));
    if op.Request? && op.key.Account? && Outcome(cfg, w.limiter, op).allowed
    then charged.(passed := w.passed[op.key.account := Passed(w, op.key.account) + [op.now]])
    else charged
  }

  function Passed(w: World, id: AccountId): seq<u64> {
    if id in w.passed then w.passed[id] else []
  }

  /** The FIX logon: a verified password is not enough, the account must also not be revoked and own the CompIDs. */
  function LogonSession(r: Registry, username: string, password: string, verify: Verifier, compIds: CompIdBinding): Option<FixSession> {
    var (next, outcome) := VerifyFixPassword(r, username, password, verify);
    if outcome.LoginRejected? || outcome.account !in next.byId then None
    else
      var account := next.byId[outcome.account];
      if account.revocationEpoch > 0 || account.credentials.fixCompIds != Some(compIds) then None
      else Some(FixSession(account.id, account.permissions, account.revocationEpoch))
  }

  function Opening(w: World, socket: SocketId, slotFree: bool, claims: Claims): World {
    if slotFree then w.(sockets := w.sockets[socket := claims], everOpen := w.everOpen + {socket}) else w
  }

  /** What an admitted bearer request does to the world. */
  function Serve(w: World, claims: Claims, purpose: Purpose): World {
    match purpose
    case Plain => w
    case OpenSocket(socket, slotFree) => Opening(w, socket, slotFree, claims)
    case DrawTicket(nowSecs, ticket) =>
      w.(tickets := A.Mint(w.tickets, A.MAX_WS_TICKETS, claims, nowSecs, ticket).0,
         drawn := if ticket.Some? then w.drawn + {ticket.value} else w.drawn)
  }

  function BearerAdmission(cfg: Config, w: World, op: WorldOp): A.Admission
    requires op.Bearer?
  {
    A.Admit(cfg, w.registry, w.limiter.windows, op.path, op.verified, op.peer, op.required, op.now, op.sweepNow).1
  }

  function HandshakeAdmission(cfg: Config, w: World, op: WorldOp): A.Admission
    requires op.Handshake?
  {
    A.AdmitRedeemed(cfg, w.registry, w.limiter.windows, A.Redeem(w.tickets, op.presentedTicket, op.nowSecs).1,
                    op.peer, op.nowSecs, op.now, op.sweepNow).1
  }

  function Closed(w: World, socket: SocketId): World {
    w.(sockets := w.sockets - {socket})
  }

  function WorldStep(cfg: Config, w: World, op: WorldOp): World {
    match op
    case Administer(rop) => w.(registry := RegistryStep(w.registry, rop))
    case MintToken(id, gate, presented, iat, ttl, signed) =>
      (match MintForAccount(w.registry, gate, id, presented, iat, ttl, signed)
       case Ok(claims) => w.(issued := w.issued + {claims})
       case Err(_) => w)
    case Bearer(_, _, _, _, _, _, purpose) =>
      var admission := BearerAdmission(cfg, w, op);
      if admission.Admitted? then Serve(Charged(cfg, w, op), admission.identity, purpose) else Charged(cfg, w, op)
    case Handshake(ticket, _, nowSecs, _, _, opening, slotFree) =>
      var admission := HandshakeAdmission(cfg, w, op);
      var spent := Charged(cfg, w, op).(tickets := A.Redeem(w.tickets, ticket, nowSecs).0);
      if admission.Admitted? then Opening(spent, opening, slotFree, admission.identity) else spent
    case Heartbeat(socket, nowSecs) =>
      if socket in w.sockets && !A.SessionHolds(w.registry, w.sockets[socket], nowSecs) then Closed(w, socket) else w
    case CloseSocket(socket) => Closed(w, socket)
    case SocketSubscribe(_) => w
    case FixLogon(username, password, verify, compIds, peer, now, sweepNow) =>
      var charged := Charged(cfg, w, op);
      if !Outcome(cfg, w.limiter, Request(Peer(peer), now, sweepNow)).allowed then charged
      else
        var session := LogonSession(w.registry, username, password, verify, compIds);
        charged.(registry := VerifyFixPassword(w.registry, username, password, verify).0,
                 fixSessions := if session.Some? then w.fixSessions + {session.value} else w.fixSessions)
    case _ => Charged(cfg, w, op)
  }

  ghost predicate PossibleRun(cfg: Config, w: World, ops: seq<WorldOp>)
    decreases |ops|
  {
    ops == [] || (Possible(w, ops[0]) && PossibleRun(cfg, WorldStep(cfg, w, ops[0]), ops[1..]))
  }

  function WorldRun(cfg: Config, w: World, ops: seq<WorldOp>): World
    decreases |ops|
  {
    if ops == [] then w else WorldRun(cfg, WorldStep(cfg, w, ops[0]), ops[1..])
  }

  // ---------------------------------------------------------------- what every reachable world keeps

  /** The one key of an account: epoch zero and the tier of its registered permissions. */
  function AccountKey(r: Registry, id: AccountId): RateLimitKey
    requires id in r.byId
  {
    RateLimitKey.Account(id, 0, TierOf(r.byId[id].permissions))
  }

  /** Claims as minting makes them. */
  ghost predicate Minted(r: Registry, claims: Claims) {
    claims.sub in r.byId && claims.permissions == r.byId[claims.sub].permissions && claims.revocationEpoch == 0
  }

  ghost predicate LoggedOn(r: Registry, session: FixSession) {
    session.account in r.byId && session.permissions == r.byId[session.account].permissions && session.epoch == 0
  }

  /** Claims of a minted token that may read. */
  ghost predicate Reader(w: World, claims: Claims) {
    claims in w.issued && AnyGrants(claims.permissions, Read)
  }

  ghost predicate CredentialsSound(w: World) {
    && (forall claims :: claims in w.issued ==> Minted(w.registry, claims))
    && (forall session :: session in w.fixSessions ==> LoggedOn(w.registry, session))
  }

  ghost predicate SocketsSound(w: World) {
    forall k :: k in w.sockets ==> k in w.everOpen && Reader(w, w.sockets[k])
  }

  ghost predicate TicketsSound(w: World) {
    && |w.tickets| <= A.MAX_WS_TICKETS
    && (forall t :: t in w.tickets ==> t in w.drawn && Reader(w, w.tickets[t].claims))
  }

  /** An account's admissions sit under its one key, and nowhere else. */
  ghost predicate AccountCharged(w: World, key: RateLimitKey) {
    key.Account? && AdmittedTo(w.limiter, key) != [] ==>
      key.account in w.registry.byId && key == AccountKey(w.registry, key.account)
  }

  ghost predicate BudgetsSound(w: World) {
    && (forall key :: AccountCharged(w, key))
    && (forall id :: id in w.registry.byId ==> Passed(w, id) == AdmittedTo(w.limiter, AccountKey(w.registry, id)))
    && (forall id :: id !in w.registry.byId ==> Passed(w, id) == [])
  }

  ghost predicate WorldInv(w: World) {
    Coherent(w.registry) && CredentialsSound(w) && SocketsSound(w) && TicketsSound(w) && BudgetsSound(w)
  }

  // ---------------------------------------------------------------- steps keep the invariant

  lemma KeyStaysWithAccount(r: Registry, s: Registry, id: AccountId)
    requires Grows(r, s) && id in r.byId
    ensures id in s.byId && AccountKey(s, id) == AccountKey(r, id)
  {
    assert SameAccountLater(r.byId[id], s.byId[id]);
  }

  lemma CredentialsOutlast(w: World, next: Registry)
    requires CredentialsSound(w) && Grows(w.registry, next)
    ensures CredentialsSound(w.(registry := next))
  {
    forall claims | claims in w.issued ensures Minted(next, claims) {
      assert Minted(w.registry, claims) && SameAccountLater(w.registry.byId[claims.sub], next.byId[claims.sub]);
    }
    forall session | session in w.fixSessions ensures LoggedOn(next, session) {
      assert LoggedOn(w.registry, session) && SameAccountLater(w.registry.byId[session.account], next.byId[session.account]);
    }
  }

  lemma BudgetsOutlast(w: World, next: Registry)
    requires BudgetsSound(w) && Grows(w.registry, next)
    ensures BudgetsSound(w.(registry := next))
  {
    var v := w.(registry := next);
    forall key ensures AccountCharged(v, key) {
      assert AccountCharged(w, key);
      if key.Account? && key.account in w.registry.byId {
        KeyStaysWithAccount(w.registry, next, key.account);
      }
    }
    forall id | id in next.byId ensures Passed(v, id) == AdmittedTo(v.limiter, AccountKey(next, id)) {
      if id in w.registry.byId {
        KeyStaysWithAccount(w.registry, next, id);
      } else {
        assert AccountCharged(w, AccountKey(next, id));
      }
    }
  }

  /** Whatever the registry becomes by growing, everything handed out stays sound. */
  lemma GrowingKeepsInv(w: World, next: Registry)
    requires WorldInv(w) && Grows(w.registry, next) && Coherent(next)
    ensures WorldInv(w.(registry := next))
  {
    CredentialsOutlast(w, next);
    BudgetsOutlast(w, next);
  }

  /** Every surface charges an account's request to that account's one key. */
  lemma OneKeyPerAccount(w: World, op: WorldOp)
    requires CredentialsSound(w) && SocketsSound(w) && TicketsSound(w) && Possible(w, op)
    requires ChargedKey(w, op).Some? && ChargedKey(w, op).value.Account?
    ensures var key := ChargedKey(w, op).value;
            key.account in w.registry.byId && key == AccountKey(w.registry, key.account)
  {
    match op {
      case Bearer(_, verified, _, _, _, _, _) => assert Minted(w.registry, verified.value);
      case Handshake(ticket, _, _, _, _, _, _) => assert Minted(w.registry, w.tickets[ticket].claims);
      case SocketControl(socket, _, _) => assert Minted(w.registry, w.sockets[socket]);
      case FixOrder(session, _, _) => assert LoggedOn(w.registry, session);
      case _ =>
    }
  }

  lemma AdmittedAfter(cfg: Config, h: History, op: Op, key: RateLimitKey)
    ensures AdmittedTo(Step(cfg, h, op), key)
         == if op.Request? && op.key == key && Outcome(cfg, h, op).allowed then AdmittedTo(h, key) + [op.now]
            else AdmittedTo(h, key)
  {}

  lemma ChargeKeepsKey(cfg: Config, w: World, op: Op, key: RateLimitKey)
    requires AccountCharged(w, key)
    requires op.Request? && op.key.Account? ==>
               op.key.account in w.registry.byId && op.key == AccountKey(w.registry, op.key.account)
    ensures AccountCharged(Charge(cfg, w, op), key)
  {
    AdmittedAfter(cfg, w.limiter, op, key);
    hide Step, Outcome, TierOf;
  }

  lemma ChargeKeepsTally(cfg: Config, w: World, op: Op, id: AccountId)
    requires id in w.registry.byId && Passed(w, id) == AdmittedTo(w.limiter, AccountKey(w.registry, id))
    requires op.Request? && op.key.Account? ==>
               op.key.account in w.registry.byId && op.key == AccountKey(w.registry, op.key.account)
    ensures Passed(Charge(cfg, w, op), id) == AdmittedTo(Charge(cfg, w, op).limiter, AccountKey(w.registry, id))
  {
    AdmittedAfter(cfg, w.limiter, op, AccountKey(w.registry, id));
    hide Step, Outcome, TierOf;
  }

  lemma ChargeElsewhere(cfg: Config, w: World, op: Op)
    ensures var v := Charge(cfg, w, op);
            && v.registry == w.registry
            && forall id :: !(op.Request? && op.key.Account? && op.key.account == id) ==> Passed(v, id) == Passed(w, id)
  {}

  lemma ChargeKeepsBudgets(cfg: Config, w: World, op: Op)
    requires BudgetsSound(w)
    requires op.Request? && op.key.Account? ==>
               op.key.account in w.registry.byId && op.key == AccountKey(w.registry, op.key.account)
    ensures BudgetsSound(Charge(cfg, w, op))
  {
    hide Step, Outcome, TierOf;
    var v := Charge(cfg, w, op);
    ChargeElsewhere(cfg, w, op);
    hide Charge;
    forall key ensures AccountCharged(v, key) {
      ChargeKeepsKey(cfg, w, op, key);
    }
    forall id | id in w.registry.byId ensures Passed(v, id) == AdmittedTo(v.limiter, AccountKey(w.registry, id)) {
      ChargeKeepsTally(cfg, w, op, id);
    }
  }

  lemma ChargedKeepsBudgets(cfg: Config, w: World, op: WorldOp)
    requires WorldInv(w) && Possible(w, op)
    ensures BudgetsSound(Charged(cfg, w, op))
  {
    var limiterOp := LimiterOp(w, op);
    if limiterOp.Some? {
      if limiterOp.value.Request? && limiterOp.value.key.Account? {
        OneKeyPerAccount(w, op);
      }
      hide Charge, BudgetsSound, ChargedKey;
      ChargeKeepsBudgets(cfg, w, limiterOp.value);
    }
  }

  lemma ChargedElsewhere(cfg: Config, w: World, op: WorldOp)
    ensures var v := Charged(cfg, w, op);
            v.(limiter := w.limiter, passed := w.passed) == w
  {}

  lemma ChargedKeepsInv(cfg: Config, w: World, op: WorldOp)
    requires WorldInv(w) && Possible(w, op)
    ensures WorldInv(Charged(cfg, w, op)) && Charged(cfg, w, op).registry == w.registry
  {
    ChargedKeepsBudgets(cfg, w, op);
    ChargedElsewhere(cfg, w, op);
    hide Charged, BudgetsSound, Coherent;
  }

  lemma BudgetsIgnoreCredentials(w: World, v: World)
    requires BudgetsSound(w) && v.registry == w.registry && v.limiter == w.limiter && v.passed == w.passed
    ensures BudgetsSound(v)
  {
    forall key ensures AccountCharged(v, key) {
      assert AccountCharged(w, key);
    }
  }

  lemma HoldersOutlast(w: World, v: World)
    requires SocketsSound(w) && TicketsSound(w) && w.issued <= v.issued
    requires v.sockets == w.sockets && v.everOpen == w.everOpen && v.tickets == w.tickets && v.drawn == w.drawn
    ensures SocketsSound(v) && TicketsSound(v)
  {}

  lemma MintKeepsInv(cfg: Config, w: World, op: WorldOp)
    requires WorldInv(w) && op.MintToken?
    ensures WorldInv(WorldStep(cfg, w, op))
  {
    hide BudgetsSound, SocketsSound, TicketsSound, Coherent;
    var minted := MintForAccount(w.registry, op.gate, op.id, op.presented, op.iat, op.ttl, op.signed);
    assert Coherent(w.registry);
    if minted.Ok? {
      MintedByMint(w.registry, op);
    }
    BudgetsIgnoreCredentials(w, WorldStep(cfg, w, op));
    HoldersOutlast(w, WorldStep(cfg, w, op));
  }

  lemma MintedByMint(r: Registry, op: WorldOp)
    requires Coherent(r) && op.MintToken? && MintForAccount(r, op.gate, op.id, op.presented, op.iat, op.ttl, op.signed).Ok?
    ensures Minted(r, MintForAccount(r, op.gate, op.id, op.presented, op.iat, op.ttl, op.signed).value)
  {}

  lemma GrantsImpliesRead(permissions: seq<Permission>, required: Permission)
    requires AnyGrants(permissions, required)
    ensures AnyGrants(permissions, Read)
  {
    TierDecidesPermission(permissions, required);
    TierDecidesPermission(permissions, Read);
  }

  /** Opening a socket for a reader under a new id, or closing one, keeps the invariant. */
  lemma SocketsChange(w: World, v: World)
    requires WorldInv(w) && SocketsSound(v)
    requires v.(sockets := w.sockets, everOpen := w.everOpen) == w
    ensures WorldInv(v)
  {
    hide SocketsSound, Coherent;
    BudgetsIgnoreCredentials(w, v);
    hide BudgetsSound, AnyGrants;
  }

  lemma OpeningKeepsInv(w: World, socket: SocketId, slotFree: bool, claims: Claims)
    requires WorldInv(w) && Reader(w, claims)
    ensures WorldInv(Opening(w, socket, slotFree, claims))
  {
    var v := Opening(w, socket, slotFree, claims);
    assert SocketsSound(v);
    hide Coherent, BudgetsSound, TicketsSound, AnyGrants;
    SocketsChange(w, v);
  }

  lemma ClosedKeepsInv(w: World, socket: SocketId)
    requires WorldInv(w)
    ensures WorldInv(Closed(w, socket))
  {
    assert SocketsSound(Closed(w, socket));
    hide Coherent, BudgetsSound, TicketsSound, AnyGrants, SocketsSound;
    SocketsChange(w, Closed(w, socket));
  }

  lemma TicketStepKeepsInv(w: World, v: World)
    requires WorldInv(w) && TicketsSound(v)
    requires v.(tickets := w.tickets, drawn := w.drawn) == w
    ensures WorldInv(v)
  {
    BudgetsIgnoreCredentials(w, v);
    hide BudgetsSound, TicketsSound, AnyGrants;
  }

  lemma MintSound(w: World, claims: Claims, nowSecs: u64, ticket: Option<string>)
    requires TicketsSound(w) && Reader(w, claims)
    ensures TicketsSound(Serve(w, claims, DrawTicket(nowSecs, ticket)))
  {
    if ticket.Some? && nowSecs + A.WS_TICKET_TTL_SECS <= U64_MAX {
      A.MintBounded(w.tickets, A.MAX_WS_TICKETS, claims, nowSecs, ticket.value);
    }
    hide AnyGrants;
  }

  lemma ServeKeepsInv(w: World, claims: Claims, purpose: Purpose)
    requires WorldInv(w) && Reader(w, claims)
    ensures WorldInv(Serve(w, claims, purpose))
  {
    match purpose {
      case Plain =>
      case OpenSocket(socket, slotFree) => OpeningKeepsInv(w, socket, slotFree, claims);
      case DrawTicket(nowSecs, ticket) =>
        MintSound(w, claims, nowSecs, ticket);
        hide A.Mint, BudgetsSound, CredentialsSound, SocketsSound, TicketsSound, Coherent, Reader;
        TicketStepKeepsInv(w, Serve(w, claims, purpose));
    }
  }

  /** Only a verified bearer is admitted, and only with a permission that includes reading. */
  lemma AdmittedBearer(cfg: Config, w: World, op: WorldOp)
    requires op.Bearer? && BearerAdmission(cfg, w, op).Admitted? && Possible(w, op)
    ensures op.verified == Some(BearerAdmission(cfg, w, op).identity)
    ensures Reader(w, BearerAdmission(cfg, w, op).identity)
  {
    GrantsImpliesRead(op.verified.value.permissions, op.required);
    hide AnyGrants, A.Current, Check;
  }

  lemma BearerKeepsInv(cfg: Config, w: World, op: WorldOp)
    requires WorldInv(w) && Possible(w, op) && op.Bearer?
    ensures WorldInv(WorldStep(cfg, w, op))
  {
    var charged, admission := Charged(cfg, w, op), BearerAdmission(cfg, w, op);
    assert WorldStep(cfg, w, op) == if admission.Admitted? then Serve(charged, admission.identity, op.purpose) else charged;
    ChargedKeepsInv(cfg, w, op);
    ChargedElsewhere(cfg, w, op);
    if admission.Admitted? {
      AdmittedBearer(cfg, w, op);
      assert Reader(charged, admission.identity);
      hide *;
      ServeKeepsInv(charged, admission.identity, op.purpose);
    }
  }

  lemma RedeemSound(w: World, ticket: string, nowSecs: u64)
    requires TicketsSound(w)
    ensures var (tickets, claims) := A.Redeem(w.tickets, ticket, nowSecs);
            && TicketsSound(w.(tickets := tickets))
            && (claims.Some? ==> Reader(w, claims.value))
  {
    SubmapSmaller(A.Redeem(w.tickets, ticket, nowSecs).0, w.tickets);
    hide AnyGrants;
  }

  lemma RedeemedIdentity(cfg: Config, w: World, op: WorldOp)
    requires op.Handshake?
    ensures var admission := HandshakeAdmission(cfg, w, op);
            admission.Admitted? ==> A.Redeem(w.tickets, op.presentedTicket, op.nowSecs).1 == Some(admission.identity)
  {}

  lemma HandshakeKeepsInv(cfg: Config, w: World, op: WorldOp)
    requires WorldInv(w) && Possible(w, op) && op.Handshake?
    ensures WorldInv(WorldStep(cfg, w, op))
  {
    var charged, admission := Charged(cfg, w, op), HandshakeAdmission(cfg, w, op);
    var spent := charged.(tickets := A.Redeem(w.tickets, op.presentedTicket, op.nowSecs).0);
    assert WorldStep(cfg, w, op)
        == if admission.Admitted? then Opening(spent, op.opening, op.slotFree, admission.identity) else spent;
    ChargedKeepsInv(cfg, w, op);
    ChargedElsewhere(cfg, w, op);
    RedeemSound(charged, op.presentedTicket, op.nowSecs);
    RedeemedIdentity(cfg, w, op);
    assert admission.Admitted? ==> Reader(spent, admission.identity);
    hide *;
    TicketStepKeepsInv(charged, spent);
    if admission.Admitted? {
      OpeningKeepsInv(spent, op.opening, op.slotFree, admission.identity);
    }
  }

  lemma LogonSound(r: Registry, username: string, password: string, verify: Verifier, compIds: CompIdBinding)
    requires Coherent(r) && LogonSession(r, username, password, verify, compIds).Some?
    ensures LoggedOn(VerifyFixPassword(r, username, password, verify).0, LogonSession(r, username, password, verify, compIds).value)
  {
    VerifyKeeps(r, username, password, verify);
  }

  lemma SessionKeepsInv(w: World, session: FixSession)
    requires WorldInv(w) && LoggedOn(w.registry, session)
    ensures WorldInv(w.(fixSessions := w.fixSessions + {session}))
  {
    BudgetsIgnoreCredentials(w, w.(fixSessions := w.fixSessions + {session}));
    hide BudgetsSound, Coherent, LoggedOn, Minted;
  }

  lemma LogonShape(cfg: Config, w: World, op: WorldOp)
    requires op.FixLogon?
    ensures var v, charged := WorldStep(cfg, w, op), Charged(cfg, w, op);
            var grown := VerifyFixPassword(w.registry, op.username, op.password, op.verify).0;
            var session := LogonSession(w.registry, op.username, op.password, op.verify, op.compIds);
            v == charged || v == charged.(registry := grown)
            || (session.Some? && v == charged.(registry := grown).(fixSessions := charged.fixSessions + {session.value}))
  {
    ChargedElsewhere(cfg, w, op);
    hide Charged, VerifyFixPassword, LogonSession, Outcome;
  }

  lemma LogonKeepsInv(cfg: Config, w: World, op: WorldOp)
    requires WorldInv(w) && Possible(w, op) && op.FixLogon?
    ensures WorldInv(WorldStep(cfg, w, op)) && Grows(w.registry, WorldStep(cfg, w, op).registry)
  {
    var charged := Charged(cfg, w, op);
    var grown := VerifyFixPassword(w.registry, op.username, op.password, op.verify).0;
    var session := LogonSession(w.registry, op.username, op.password, op.verify, op.compIds);
    assert Coherent(w.registry) && Grows(w.registry, w.registry);
    hide *;
    LogonShape(cfg, w, op);
    ChargedKeepsInv(cfg, w, op);
    VerifyKeeps(w.registry, op.username, op.password, op.verify);
    GrowingKeepsInv(charged, grown);
    if session.Some? {
      LogonSound(w.registry, op.username, op.password, op.verify, op.compIds);
      SessionKeepsInv(charged.(registry := grown), session.value);
    }
  }

  /** Apart from administration and logons no step touches the registry. */
  lemma RegistryAfter(cfg: Config, w: World, op: WorldOp)
    ensures var next := WorldStep(cfg, w, op).registry;
            if op.Administer? then next == RegistryStep(w.registry, op.op) else op.FixLogon? || next == w.registry
  {
    ChargedElsewhere(cfg, w, op);
    hide Charged, RegistryStep;
  }

  lemma ChargingIsCharged(cfg: Config, w: World, op: WorldOp)
    requires op.SocketControl? || op.FixOrder? || op.SweepLimiter?
    ensures WorldStep(cfg, w, op) == Charged(cfg, w, op)
  {
    hide Charged;
  }

  lemma ClosingCloses(cfg: Config, w: World, op: WorldOp)
    requires op.SocketSubscribe? || op.Heartbeat? || op.CloseSocket?
    ensures WorldStep(cfg, w, op) == w || WorldStep(cfg, w, op) == Closed(w, op.socket)
  {
    hide Closed, A.SessionHolds;
  }

  lemma ChargingKeepsInv(cfg: Config, w: World, op: WorldOp)
    requires WorldInv(w) && Possible(w, op) && (op.SocketControl? || op.FixOrder? || op.SweepLimiter?)
    ensures WorldInv(WorldStep(cfg, w, op))
  {
    hide *;
    ChargingIsCharged(cfg, w, op);
    ChargedKeepsInv(cfg, w, op);
  }

  lemma ClosingKeepsInv(cfg: Config, w: World, op: WorldOp)
    requires WorldInv(w) && (op.SocketSubscribe? || op.Heartbeat? || op.CloseSocket?)
    ensures WorldInv(WorldStep(cfg, w, op))
  {
    hide *;
    ClosingCloses(cfg, w, op);
    ClosedKeepsInv(w, op.socket);
  }

  lemma AdministerKeepsInv(cfg: Config, w: World, op: WorldOp)
    requires WorldInv(w) && op.Administer?
    ensures WorldInv(WorldStep(cfg, w, op)) && Grows(w.registry, WorldStep(cfg, w, op).registry)
  {
    assert WorldStep(cfg, w, op) == w.(registry := RegistryStep(w.registry, op.op));
    assert Coherent(w.registry);
    hide *;
    RegistryStepKeeps(w.registry, op.op);
    GrowingKeepsInv(w, RegistryStep(w.registry, op.op));
  }

  /** Each step keeps every part of the invariant, and the registry only grows. */
  lemma WorldStepKeeps(cfg: Config, w: World, op: WorldOp)
    requires WorldInv(w) && Possible(w, op)
    ensures WorldInv(WorldStep(cfg, w, op)) && Grows(w.registry, WorldStep(cfg, w, op).registry)
  {
    hide *;
    RegistryAfter(cfg, w, op);
    GrowsItself(w.registry);
    match op {
      case Administer(_) => AdministerKeepsInv(cfg, w, op);
      case MintToken(_, _, _, _, _, _) => MintKeepsInv(cfg, w, op);
      case Bearer(_, _, _, _, _, _, _) => BearerKeepsInv(cfg, w, op);
      case Handshake(_, _, _, _, _, _, _) => HandshakeKeepsInv(cfg, w, op);
      case SocketSubscribe(_) => ClosingKeepsInv(cfg, w, op);
      case Heartbeat(_, _) => ClosingKeepsInv(cfg, w, op);
      case CloseSocket(_) => ClosingKeepsInv(cfg, w, op);
      case FixLogon(_, _, _, _, _, _, _) => LogonKeepsInv(cfg, w, op);
      case _ => ChargingKeepsInv(cfg, w, op);
    }
  }

  lemma {:induction false} WorldRunKeeps(cfg: Config, w: World, ops: seq<WorldOp>)
    requires WorldInv(w) && PossibleRun(cfg, w, ops)
    ensures WorldInv(WorldRun(cfg, w, ops)) && Grows(w.registry, WorldRun(cfg, w, ops).registry)
    decreases |ops|
  {
    if ops != [] {
      WorldStepKeeps(cfg, w, ops[0]);
      WorldRunKeeps(cfg, WorldStep(cfg, w, ops[0]), ops[1..]);
      hide WorldInv, WorldStep, Grows;
      GrowsTransitive(w.registry, WorldStep(cfg, w, ops[0]).registry, WorldRun(cfg, w, ops).registry);
    }
  }

  lemma EmptyWorldInv()
    ensures WorldInv(EMPTY_WORLD)
  {
    assert forall key :: AdmittedTo(EMPTY_HISTORY, key) == [];
  }
}
