/**
 Admission: the single-use handshake ticket store, and the two ways a request is
 admitted (a bearer token, or a ticket that stands for one), which share the rate
 limiter and the revocation check.
 */
module Admission {
  import opened Accounts
  import opened Collections
  import opened Envelope
  import opened RateLimits
  import opened Words

  const WS_TICKET_TTL_SECS: u64 := 30
  const MAX_WS_TICKETS: nat := 65_536
  const HEALTH_PATH := "/health"

  datatype VenueError = RateLimited | Unauthorized | Forbidden(required: Permission) | Overflow

  datatype TicketEntry = TicketEntry(claims: Claims, expiresAtSecs: u64)

  type Tickets = map<string, TicketEntry>

  // ---------------------------------------------------------------- tickets as a value

  function LiveTickets(tickets: Tickets, now: u64): Tickets {
    map t | t in tickets && tickets[t].expiresAtSecs > now :: tickets[t]
  }

  /** `drawn` is the random ticket string, or nothing when the generator fails. */
  function Mint(tickets: Tickets, max: nat, claims: Claims, now: u64, drawn: Option<string>): (Tickets, Result<string, VenueError>) {
    if now + WS_TICKET_TTL_SECS > U64_MAX then (tickets, Err(Overflow))
    else
      match drawn
      case None => (tickets, Err(Overflow))
      case Some(ticket) =>
        var live := LiveTickets(tickets, now);
        if |live| >= max then (live, Err(RateLimited))
        else (live[ticket := TicketEntry(claims, now + WS_TICKET_TTL_SECS)], Ok(ticket))
  }

  function Redeem(tickets: Tickets, ticket: string, now: u64): (Tickets, Option<Claims>) {
    if ticket !in tickets then (tickets, None)
    else (tickets - {ticket}, if tickets[ticket].expiresAtSecs > now then Some(tickets[ticket].claims) else None)
  }

  class WsTicketStore {
    var tickets: Tickets
    const maxTickets: nat

    constructor (max: nat)
      ensures tickets == map[] && maxTickets == if max >= 1 then max else 1
    {
      tickets := map[];
      maxTickets := if max >= 1 then max else 1;
    }

    method MintTicket(claims: Claims, now: u64, drawn: Option<string>) returns (r: Result<string, VenueError>)
      modifies this
      ensures (tickets, r) == Mint(old(tickets), maxTickets, claims, now, drawn)
    {
      if now > U64_MAX - WS_TICKET_TTL_SECS || drawn.None? {
        return Err(Overflow);
      }
      SweepExpired(now);
      if |tickets| >= maxTickets {
        return Err(RateLimited);
      }
      tickets := tickets[drawn.value := TicketEntry(claims, now + WS_TICKET_TTL_SECS)];
      return Ok(drawn.value);
    }

    method RedeemTicket(ticket: string, now: u64) returns (claims: Option<Claims>)
      modifies this
      ensures (tickets, claims) == Redeem(old(tickets), ticket, now)
    {
      if ticket !in tickets {
        return None;
      }
      var entry := tickets[ticket];
      tickets := tickets - {ticket};
      return if entry.expiresAtSecs > now then Some(entry.claims) else None;
    }

    method SweepExpired(now: u64)
      modifies this
      ensures tickets == LiveTickets(old(tickets), now)
    {
      var todo := tickets.Keys;
      var kept: Tickets := map[];
      while todo != {}
        invariant todo <= tickets.Keys && tickets == old(tickets)
        invariant kept == map t | t in tickets && t !in todo && tickets[t].expiresAtSecs > now :: tickets[t]
        decreases |todo|
      {
        var ticket :| ticket in todo;
        todo := todo - {ticket};
        if tickets[ticket].expiresAtSecs > now {
          kept := kept[ticket := tickets[ticket]];
        }
      }
      tickets := kept;
    }
  }

  /** Minting never passes the ceiling, and is refused for it exactly when that many unexpired tickets are out. */
  lemma MintBounded(tickets: Tickets, max: nat, claims: Claims, now: u64, ticket: string)
    requires now + WS_TICKET_TTL_SECS <= U64_MAX && |tickets| <= max
    ensures var (next, r) := Mint(tickets, max, claims, now, Some(ticket));
            && |next| <= max
            && (r == Err(RateLimited) <==> |LiveTickets(tickets, now)| >= max)
            && (r.Err? ==> next == LiveTickets(tickets, now))
  {
    SubmapSmaller(LiveTickets(tickets, now), tickets);
  }

  /** A mint drops the tickets whose time has come, keeps the others as they are, and adds the new one for 30 seconds. */
  lemma MintStores(tickets: Tickets, max: nat, claims: Claims, now: u64, ticket: string)
    ensures var (next, r) := Mint(tickets, max, claims, now, Some(ticket));
            && (r == Err(Overflow) <==> now + 30 >= 0x1_0000_0000_0000_0000)
            && (r == Err(Overflow) ==> next == tickets)
            && (r.Ok? ==> r.value == ticket && ticket in next && next[ticket] == TicketEntry(claims, now + 30))
            && (r != Err(Overflow) ==>
                  forall t :: t != ticket || r.Err? ==>
                    (t in next <==> t in tickets && now < tickets[t].expiresAtSecs) && (t in next ==> next[t] == tickets[t]))
            && Mint(tickets, max, claims, now, None) == (tickets, Err(Overflow))
  {}

  /** Redeeming takes exactly the presented ticket away, and yields its claims while its time has not come. */
  lemma RedeemTakesOne(tickets: Tickets, ticket: string, now: u64)
    ensures var (next, claims) := Redeem(tickets, ticket, now);
            && (forall t :: t in next <==> t in tickets && t != ticket)
            && (forall t :: t in next ==> next[t] == tickets[t])
            && (claims.Some? <==> ticket in tickets && now < tickets[ticket].expiresAtSecs)
            && (claims.Some? ==> claims.value == tickets[ticket].claims)
  {}

  // ---------------------------------------------------------------- admission as functions

  datatype Admission =
    | Exempt
    | Admitted(identity: Claims, rateLimit: Decision)
    | NotAdmitted(error: VenueError, decision: Decision)

  function ClaimsKey(claims: Claims): RateLimitKey {
    RateLimitKey.Account(claims.sub, claims.revocationEpoch, TierOf(claims.permissions))
  }

  /** The claims are not below their account's current epoch, and the account is known. */
  predicate Current(r: Registry, claims: Claims) {
    claims.sub in r.byId && claims.revocationEpoch >= r.byId[claims.sub].revocationEpoch
  }

  /**
   One request with a bearer token; `verified` is what the token's signature and expiry
   check yields. The limiter is charged before anything is refused.
   */
  function Admit(cfg: Config, r: Registry, w: Windows, path: string, verified: Option<Claims>, peer: string,
                 required: Permission, now: u64, sweepNow: u64): (Windows, Admission)
  {
    if path == HEALTH_PATH then (w, Exempt)
    else
      var key := if verified.Some? then ClaimsKey(verified.value) else Peer(peer);
      var (next, decision) := Check(cfg, w, key, now, sweepNow);
      (next,
       if !decision.allowed then NotAdmitted(RateLimited, decision)
       else if verified.None? || !Current(r, verified.value) then NotAdmitted(Unauthorized, decision)
       else if !AnyGrants(verified.value.permissions, required) then NotAdmitted(Forbidden(required), decision)
       else Admitted(verified.value, decision))
  }

  /** Only the health path is exempt, and it is not charged. */
  lemma HealthIsExempt(cfg: Config, r: Registry, w: Windows, path: string, verified: Option<Claims>, peer: string,
                       required: Permission, now: u64, sweepNow: u64)
    ensures Admit(cfg, r, w, path, verified, peer, required, now, sweepNow).1.Exempt? <==> path == "/health"
    ensures path == "/health" ==> Admit(cfg, r, w, path, verified, peer, required, now, sweepNow).0 == w
  {}

  /** One handshake whose ticket has been redeemed to `claims`, or to nothing. */
  function AdmitRedeemed(cfg: Config, r: Registry, w: Windows, claims: Option<Claims>, peer: string, nowSecs: u64, now: u64, sweepNow: u64)
    : (Windows, Admission)
  {
    match claims
    case None =>
      var (next, decision) := Check(cfg, w, Peer(peer), now, sweepNow);
      (next, NotAdmitted(Unauthorized, decision))
    case Some(c) =>
      var (next, decision) := Check(cfg, w, ClaimsKey(c), now, sweepNow);
      (next,
       if !decision.allowed then NotAdmitted(RateLimited, decision)
       else if nowSecs >= c.exp || !Current(r, c) then NotAdmitted(Unauthorized, decision)
       else Admitted(c, decision))
  }

  /** Whether a long-lived session may go on. */
  predicate SessionHolds(r: Registry, claims: Claims, nowSecs: u64) {
    nowSecs < claims.exp && Current(r, claims)
  }

  class AuthService {
    const rateLimiter: RateLimiter
    const registry: AccountRegistry
    const wsTickets: WsTicketStore

    constructor (rateLimiter: RateLimiter, registry: AccountRegistry)
      ensures this.rateLimiter == rateLimiter && this.registry == registry && fresh(wsTickets)
      ensures wsTickets.tickets == map[] && wsTickets.maxTickets == 65_536
    {
      this.rateLimiter := rateLimiter;
      this.registry := registry;
      wsTickets := new WsTicketStore(MAX_WS_TICKETS);
    }

    method AdmitBearer(path: string, verified: Option<Claims>, peer: string, required: Permission, now: u64, sweepNow: u64)
      returns (admission: Admission)
      modifies rateLimiter
      ensures (rateLimiter.windows, admission)
           == Admit(rateLimiter.cfg, registry.State(), old(rateLimiter.windows), path, verified, peer, required, now, sweepNow)
    {
      if path == HEALTH_PATH {
        return Exempt;
      }
      var key := Peer(peer);
      if verified.Some? {
        key := ClaimsKey(verified.value);
      }
      var decision := rateLimiter.CheckAndRecordStatus(key, now, sweepNow);
      if !decision.allowed {
        return NotAdmitted(RateLimited, decision);
      }
      if verified.None? {
        return NotAdmitted(Unauthorized, decision);
      }
      var claims := verified.value;
      if claims.sub !in registry.byId || claims.revocationEpoch < registry.byId[claims.sub].revocationEpoch {
        return NotAdmitted(Unauthorized, decision);
      }
      if !AnyGrants(claims.permissions, required) {
        return NotAdmitted(Forbidden(required), decision);
      }
      return Admitted(claims, decision);
    }

    method AdmitWsTicket(ticket: string, peer: string, nowSecs: u64, now: u64, sweepNow: u64) returns (admission: Admission)
      modifies rateLimiter, wsTickets
      ensures var (tickets, claims) := Redeem(old(wsTickets.tickets), ticket, nowSecs);
              && wsTickets.tickets == tickets
              && (rateLimiter.windows, admission)
                 == AdmitRedeemed(rateLimiter.cfg, registry.State(), old(rateLimiter.windows), claims, peer, nowSecs, now, sweepNow)
    {
      var redeemed := wsTickets.RedeemTicket(ticket, nowSecs);
      if redeemed.None? {
        var charged := rateLimiter.CheckAndRecordStatus(Peer(peer), now, sweepNow);
        return NotAdmitted(Unauthorized, charged);
      }
      var claims := redeemed.value;
      var decision := rateLimiter.CheckAndRecordStatus(ClaimsKey(claims), now, sweepNow);
      if !decision.allowed {
        return NotAdmitted(RateLimited, decision);
      }
      if nowSecs >= claims.exp {
        return NotAdmitted(Unauthorized, decision);
      }
      if claims.sub !in registry.byId || claims.revocationEpoch < registry.byId[claims.sub].revocationEpoch {
        return NotAdmitted(Unauthorized, decision);
      }
      return Admitted(claims, decision);
    }

    method RevalidateSession(claims: Claims, nowSecs: u64) returns (r: Result<(), VenueError>)
      ensures r.Ok? <==> nowSecs < claims.exp && claims.sub in registry.byId
                         && registry.byId[claims.sub].revocationEpoch <= claims.revocationEpoch
      ensures r.Err? ==> r.error == Unauthorized
      ensures r.Ok? <==> SessionHolds(registry.State(), claims, nowSecs)
    {
      if nowSecs >= claims.exp {
        return Err(Unauthorized);
      }
      if claims.sub in registry.byId && claims.revocationEpoch >= registry.byId[claims.sub].revocationEpoch {
        return Ok(());
      }
      return Err(Unauthorized);
    }
  }

  /**
   The ticket path grants what the bearer path would: for claims that may read and have
   not expired, a redeemed ticket and the bearer token itself charge the same key and
   get the same answer, from the same limiter state.
   */
  lemma TicketMirrorsBearer(
      cfg: Config, r: Registry, w: Windows, path: string, claims: Claims, peer: string, nowSecs: u64, now: u64, sweepNow: u64)
    requires path != HEALTH_PATH && nowSecs < claims.exp && AnyGrants(claims.permissions, Read)
    ensures AdmitRedeemed(cfg, r, w, Some(claims), peer, nowSecs, now, sweepNow)
         == Admit(cfg, r, w, path, Some(claims), peer, Read, now, sweepNow)
  {}
}
