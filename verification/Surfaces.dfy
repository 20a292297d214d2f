/**
 The credential surfaces in an account's own terms: whose budget a request is charged to,
 how large that budget is, and what a session, a FIX order or a logon needs to go through.
 */
module Surfaces {
  import opened Access
  import opened Accounts
  import A = Admission
  import opened BucketLog
  import opened Collections
  import opened Envelope
  import opened RateLimits
  import opened Sessions
  import opened Words

  // ---------------------------------------------------------------- who is charged, and how much is allowed

  /** The key an account is charged under: its strongest permission names the budget. */
  function OwnKey(r: Registry, id: AccountId): RateLimitKey
    requires id in r.byId
  {
    var permissions := r.byId[id].permissions;
    RateLimitKey.Account(id, 0, if Admin in permissions then Admin else if Trade in permissions then Trade else Read)
  }

  lemma OwnKeyIsAccountKey(r: Registry, id: AccountId)
    requires id in r.byId
    ensures AccountKey(r, id) == OwnKey(r, id)
  {
    TierIs(r.byId[id].permissions);
  }

  /**
   Whom each request is charged to: the account behind a verified token, a live ticket, an
   open socket or an unrevoked FIX session; otherwise, before anybody is known, the peer.
   Nothing else is charged.
   */
  lemma ChargedTo(w: World, op: WorldOp)
    requires WorldInv(w) && Possible(w, op)
    ensures op.Bearer? ==>
              ChargedKey(w, op) == if op.path == "/health" then None
                                   else if op.verified.Some? then Some(OwnKey(w.registry, op.verified.value.sub))
                                   else Some(Peer(op.peer))
    ensures op.Handshake? ==>
              ChargedKey(w, op)
              == if op.presentedTicket in w.tickets && op.nowSecs < w.tickets[op.presentedTicket].expiresAtSecs
                 then Some(OwnKey(w.registry, w.tickets[op.presentedTicket].claims.sub)) else Some(Peer(op.peer))
    ensures op.SocketControl? ==> ChargedKey(w, op) == Some(OwnKey(w.registry, w.sockets[op.socket].sub))
    ensures op.FixLogon? ==> ChargedKey(w, op) == Some(Peer(op.peer))
    ensures op.FixOrder? ==>
              ChargedKey(w, op) == if w.registry.byId[op.session.account].revocationEpoch == 0
                                   then Some(OwnKey(w.registry, op.session.account)) else None
    ensures op.Administer? || op.MintToken? || op.SocketSubscribe? || op.Heartbeat? || op.CloseSocket? ==> ChargedKey(w, op) == None
  {
    hide Coherent, BudgetsSound, OwnKey, AccountKey;
    match op {
      case Bearer(_, verified, _, _, _, _, _) =>
        if verified.Some? {
          assert Minted(w.registry, verified.value);
          ClaimsChargeAccount(w.registry, verified.value);
        }
      case Handshake(ticket, _, _, _, _, _, _) =>
        if ticket in w.tickets {
          assert Reader(w, w.tickets[ticket].claims) && Minted(w.registry, w.tickets[ticket].claims);
          ClaimsChargeAccount(w.registry, w.tickets[ticket].claims);
        }
      case SocketControl(socket, _, _) =>
        assert Reader(w, w.sockets[socket]) && Minted(w.registry, w.sockets[socket]);
        ClaimsChargeAccount(w.registry, w.sockets[socket]);
      case FixOrder(session, _, _) =>
        assert LoggedOn(w.registry, session);
        SessionChargesAccount(w.registry, session);
      case _ =>
    }
  }

  lemma ClaimsChargeAccount(r: Registry, claims: Claims)
    requires Minted(r, claims)
    ensures A.ClaimsKey(claims) == OwnKey(r, claims.sub)
  {
    TierIs(claims.permissions);
  }

  lemma SessionChargesAccount(r: Registry, session: FixSession)
    requires LoggedOn(r, session)
    ensures SessionKey(session) == OwnKey(r, session.account)
  {
    TierIs(session.permissions);
  }

  /**
   An account's budget in the configured fields: over all surfaces together, no window
   holds more of its requests than the admin budget for an admin, the trade budget for a
   trader, and the read budget for anybody else, as long as the decisions on its key agree
   with its history.
   */
  lemma OwnBudget(cfg: Config, ops: seq<WorldOp>, id: AccountId, from: nat)
    requires PossibleRun(cfg, EMPTY_WORLD, ops) && id in WorldRun(cfg, EMPTY_WORLD, ops).registry.byId
    requires var key := AccountKey(WorldRun(cfg, EMPTY_WORLD, ops).registry, id);
             AllAgree(EMPTY_BUCKET, WorldTrace(cfg, EMPTY_WORLD, ops, key), LimitForKey(cfg, key), cfg.budgets.windowMs)
    ensures var w := WorldRun(cfg, EMPTY_WORLD, ops);
            var permissions := w.registry.byId[id].permissions;
            CountIn(Passed(w, id), from, cfg.budgets.windowMs)
            <= if Admin in permissions then cfg.budgets.admin
               else if Trade in permissions then cfg.budgets.trade
               else cfg.budgets.read
  {
    var w := WorldRun(cfg, EMPTY_WORLD, ops);
    OneAccountOneBudget(cfg, ops, id, from);
    hide PossibleRun, WorldRun, WorldTrace, AllAgree, CountIn, Passed;
    TierIs(w.registry.byId[id].permissions);
  }

  // ---------------------------------------------------------------- sessions that go on

  lemma SocketsIssued(w: World, socket: SocketId)
    requires WorldInv(w) && socket in w.sockets
    ensures w.sockets[socket] in w.issued
  {
    assert Reader(w, w.sockets[socket]);
    hide Coherent, BudgetsSound;
  }

  lemma TicketsIssued(w: World, ticket: string)
    requires WorldInv(w) && ticket in w.tickets
    ensures w.tickets[ticket].claims in w.issued
  {
    assert Reader(w, w.tickets[ticket].claims);
    hide Coherent, BudgetsSound;
  }

  /** The account behind minted claims is known, and it is charged under its own key. */
  lemma HolderKnown(w: World, claims: Claims)
    requires WorldInv(w) && claims in w.issued
    ensures claims.sub in w.registry.byId && A.ClaimsKey(claims) == OwnKey(w.registry, claims.sub)
    ensures A.Current(w.registry, claims) <==> w.registry.byId[claims.sub].revocationEpoch == 0
  {
    hide Coherent, BudgetsSound, OwnKey;
    assert Minted(w.registry, claims);
    ClaimsChargeAccount(w.registry, claims);
  }

  lemma HeartbeatCloses(cfg: Config, w: World, socket: SocketId, nowSecs: u64)
    requires socket in w.sockets
    ensures WorldStep(cfg, w, Heartbeat(socket, nowSecs)).sockets
         == if A.SessionHolds(w.registry, w.sockets[socket], nowSecs) then w.sockets else w.sockets - {socket}
  {
    hide A.SessionHolds;
  }

  /**
   A heartbeat keeps its socket exactly while the token behind it has not expired and its
   account has never been revoked, and touches no other socket. So no socket outlives a
   heartbeat at or after its token's expiry.
   */
  lemma HeartbeatKeepsIff(cfg: Config, w: World, socket: SocketId, nowSecs: u64)
    requires WorldInv(w) && socket in w.sockets
    ensures var next := WorldStep(cfg, w, Heartbeat(socket, nowSecs));
            var claims := w.sockets[socket];
            && claims.sub in w.registry.byId
            && (socket in next.sockets <==> nowSecs < claims.exp && w.registry.byId[claims.sub].revocationEpoch == 0)
            && (forall k :: k != socket ==> (k in next.sockets <==> k in w.sockets))
            && (forall k :: k in next.sockets ==> next.sockets[k] == w.sockets[k])
  {
    hide *;
    SocketsIssued(w, socket);
    HolderKnown(w, w.sockets[socket]);
    HeartbeatCloses(cfg, w, socket, nowSecs);
    SessionGoesOnIff(w, w.sockets[socket], nowSecs);
  }

  /** A long-lived session of a minted token goes on exactly while the token has not expired and its account is unrevoked. */
  lemma SessionGoesOnIff(w: World, claims: Claims, nowSecs: u64)
    requires WorldInv(w) && claims in w.issued
    ensures A.SessionHolds(w.registry, claims, nowSecs) <==>
              nowSecs < claims.exp && claims.sub in w.registry.byId && w.registry.byId[claims.sub].revocationEpoch == 0
  {
    assert Minted(w.registry, claims);
    hide Coherent, BudgetsSound;
  }

  /**
   A socket opens when a bearer or a ticket is admitted for it and a slot is free, for the
   claims admitted, and is gone once it is closed. Nothing but these and a heartbeat
   changes which sockets are open.
   */
  lemma SocketsOpenAndClose(cfg: Config, w: World, op: WorldOp)
    ensures var before, after := w.sockets, WorldStep(cfg, w, op).sockets;
            && (op.Bearer? && op.purpose.OpenSocket? ==>
                  after == if op.purpose.slotFree && BearerAdmission(cfg, w, op).Admitted? && op.verified.Some?
                           then before[op.purpose.socket := op.verified.value] else before)
            && (op.Handshake? ==>
                  after == if op.slotFree && HandshakeAdmission(cfg, w, op).Admitted? && op.presentedTicket in w.tickets
                           then before[op.opening := w.tickets[op.presentedTicket].claims] else before)
            && (op.CloseSocket? ==> after == before - {op.socket})
            && (!op.Handshake? && !op.CloseSocket? && !op.Heartbeat? && !(op.Bearer? && op.purpose.OpenSocket?) ==> after == before)
  {
    SocketsAfterStep(cfg, w, op);
    hide WorldStep, AnyGrants, Check, A.ClaimsKey;
  }

  /**
   Which tickets are out: a request for a ticket that is let in puts the drawn one out for
   30 seconds, unless 65536 others are live, and drops those whose time has come; a
   handshake takes the presented one back. Nothing else changes them.
   */
  lemma TicketsOut(cfg: Config, w: World, op: WorldOp)
    ensures var next := WorldStep(cfg, w, op).tickets;
            && (op.Bearer? && op.purpose.DrawTicket? && op.purpose.ticket.Some? && BearerAdmission(cfg, w, op).Admitted?
                && op.purpose.nowSecs + 30 < 0x1_0000_0000_0000_0000 ==>
                  var live := map t | t in w.tickets && op.purpose.nowSecs < w.tickets[t].expiresAtSecs :: w.tickets[t];
                  next == if |live| < 65_536
                          then live[op.purpose.ticket.value := A.TicketEntry(BearerAdmission(cfg, w, op).identity, op.purpose.nowSecs + 30)]
                          else live)
            && (op.Handshake? ==> next == w.tickets - {op.presentedTicket})
            && (!op.Handshake? && !(op.Bearer? && op.purpose.DrawTicket? && BearerAdmission(cfg, w, op).Admitted?) ==> next == w.tickets)
  {
    TicketsAfterStep(cfg, w, op);
    hide WorldStep, A.Admit;
    if op.Bearer? && op.purpose.DrawTicket? {
      assert A.LiveTickets(w.tickets, op.purpose.nowSecs)
          == map t | t in w.tickets && op.purpose.nowSecs < w.tickets[t].expiresAtSecs :: w.tickets[t];
    }
  }

  /** A FIX order is taken exactly while the account of its session has never been revoked. */
  lemma FixOrderServedIff(cfg: Config, w: World, op: WorldOp)
    requires WorldInv(w) && Possible(w, op) && op.FixOrder?
    ensures GrantedTo(cfg, w, op) == Some(op.session.account) <==> w.registry.byId[op.session.account].revocationEpoch == 0
  {
    assert LoggedOn(w.registry, op.session);
    hide Coherent, BudgetsSound;
  }

  /**
   A logon the limiter lets through leaves the session it opens behind, and no other, and
   the registry as the password check leaves it, whether or not a session opens.
   */
  lemma LogonLeavesSession(cfg: Config, w: World, op: WorldOp)
    requires op.FixLogon?
    ensures var session := LogonSession(w.registry, op.username, op.password, op.verify, op.compIds);
            var allowed := Outcome(cfg, w.limiter, Request(Peer(op.peer), op.now, op.sweepNow)).allowed;
            var next := WorldStep(cfg, w, op);
            && next.fixSessions == (if allowed && session.Some? then w.fixSessions + {session.value} else w.fixSessions)
            && next.registry == (if allowed then VerifyFixPassword(w.registry, op.username, op.password, op.verify).0 else w.registry)
  {
    ChargedElsewhere(cfg, w, op);
    hide Charged, LogonSession, VerifyFixPassword, Outcome;
  }

  /**
   Why a handshake is refused: a ticket that is not out or whose time has come is
   unauthorized, whatever the limiter says; behind a live ticket the limiter comes first,
   and then the token's expiry and the account's revocation.
   */
  lemma HandshakeRefusedWhy(cfg: Config, w: World, op: WorldOp)
    requires WorldInv(w) && op.Handshake?
    ensures var admission := HandshakeAdmission(cfg, w, op);
            var live := op.presentedTicket in w.tickets && op.nowSecs < w.tickets[op.presentedTicket].expiresAtSecs;
            && !admission.Exempt?
            && (!live ==> admission.NotAdmitted? && admission.error == A.Unauthorized)
            && (live ==>
                  var claims := w.tickets[op.presentedTicket].claims;
                  var allowed := Outcome(cfg, w.limiter, Request(OwnKey(w.registry, claims.sub), op.now, op.sweepNow)).allowed;
                  && (!allowed <==> admission.NotAdmitted? && admission.error == A.RateLimited)
                  && (allowed && (op.nowSecs >= claims.exp || w.registry.byId[claims.sub].revocationEpoch > 0) <==>
                        admission.NotAdmitted? && admission.error == A.Unauthorized))
  {
    hide WorldInv, OwnKey, Check, A.Current;
    if op.presentedTicket in w.tickets {
      TicketsIssued(w, op.presentedTicket);
      HolderKnown(w, w.tickets[op.presentedTicket].claims);
    }
  }

  /** Which permissions let a bearer request through, beside the limiter and the account's standing. */
  lemma BearerNeeds(cfg: Config, w: World, op: WorldOp)
    requires WorldInv(w) && Possible(w, op) && op.Bearer? && op.path != "/health" && op.verified.Some?
    ensures var permissions := w.registry.byId[op.verified.value.sub].permissions;
            var allowed := Outcome(cfg, w.limiter, Request(OwnKey(w.registry, op.verified.value.sub), op.now, op.sweepNow)).allowed;
            BearerAdmission(cfg, w, op).Admitted? <==>
              && allowed && w.registry.byId[op.verified.value.sub].revocationEpoch == 0
              && match op.required
                 case Read => permissions != []
                 case Trade => Trade in permissions || Admin in permissions
                 case Admin => Admin in permissions
  {
    var claims := op.verified.value;
    assert Minted(w.registry, claims);
    OwnKeyIsAccountKey(w.registry, claims.sub);
    BearerAdmittedIff(cfg, w, op);
    TierDecidesPermission(claims.permissions, op.required);
    GrantsWhen(claims.permissions);
    hide WorldInv, OwnKey, AccountKey, BearerAdmission, TierOf, Outcome;
  }
}
