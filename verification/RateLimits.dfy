/**
 The sliding-window rate limiter: per-key admission logs pruned lazily, a ceiling on
 the number of tracked keys, and the proof that the pruned logs decide exactly as a
 count over the whole admission history would.
 */
module RateLimits {
  import opened Collections
  import opened Words

  datatype Permission = Read | Trade | Admin

  /** A principal's tier is its highest permission; peers without one are `Read`. */
  type RateLimitTier = Permission

  datatype RateLimitKey =
    | Account(account: string, revocationEpoch: u64, tier: RateLimitTier)
    | Peer(address: string)

  datatype Budgets = Budgets(windowMs: u64, read: u32, trade: u32, admin: u32)

  /** A limiter's fixed parameters; the key ceiling is at least one. */
  datatype Config = Config(budgets: Budgets, maxKeys: nat)

  datatype Decision = Decision(allowed: bool, limit: u32, remaining: u32, resetMs: u64, retryAfterMs: Option<u64>)

  type Windows = map<RateLimitKey, seq<u64>>

  function LimitFor(budgets: Budgets, tier: RateLimitTier): u32 {
    match tier
    case Read => budgets.read
    case Trade => budgets.trade
    case Admin => budgets.admin
  }

  function LimitForKey(cfg: Config, key: RateLimitKey): u32 {
    match key
    case Account(_, _, tier) => LimitFor(cfg.budgets, tier)
    case Peer(_) => LimitFor(cfg.budgets, Read)
  }

  // ---------------------------------------------------------------- one bucket

  /** Within the window at `now`; a time in the future counts as within it. */
  predicate InWindow(recorded: u64, now: u64, window: u64) {
    recorded > now || now - recorded < window
  }

  function Live(times: seq<u64>, now: u64, window: u64): seq<u64> {
    if times == [] then []
    else (if InWindow(times[0], now, window) then [times[0]] else []) + Live(times[1..], now, window)
  }

  function Oldest(times: seq<u64>, default: u64): u64 {
    if times == [] then default
    else if |times| == 1 then times[0]
    else
      var rest := Oldest(times[1..], default);
      if times[0] <= rest then times[0] else rest
  }

  function PlusWindow(time: u64, window: u64): u64 {
    if time + window <= U64_MAX then time + window else U64_MAX
  }

  /** The admission rule on a pruned bucket: record and admit below the limit, otherwise say when to retry. */
  function Decide(live: seq<u64>, now: u64, limit: u32, window: u64): (seq<u64>, Decision) {
    var reset := PlusWindow(Oldest(live, now), window);
    if |live| < limit then
      (live + [now], Decision(true, limit, limit - |live| - 1, reset, None))
    else
      (live, Decision(false, limit, 0, reset, Some(if now <= reset then reset - now else 0)))
  }

  function DeniedCapacity(now: u64, limit: u32, window: u64): Decision {
    Decision(false, limit, 0, PlusWindow(now, window), Some(window))
  }

  // ---------------------------------------------------------------- the whole limiter

  /** A sweep also drops times in the future, and keys left with nothing. */
  function Swept(times: seq<u64>, now: u64, window: u64): seq<u64> {
    if times == [] then []
    else (if times[0] <= now && now - times[0] < window then [times[0]] else []) + Swept(times[1..], now, window)
  }

  function Sweep(w: Windows, now: u64, window: u64): Windows {
    map key | key in w && Swept(w[key], now, window) != [] :: Swept(w[key], now, window)
  }

  /**
   One request: `now` is the clock read on entry, `sweepNow` the second read made when
   the key is new and the limiter is full.
   */
  function Check(cfg: Config, w: Windows, key: RateLimitKey, now: u64, sweepNow: u64): (Windows, Decision) {
    var limit, window := LimitForKey(cfg, key), cfg.budgets.windowMs;
    if key in w then
      var (times, decision) := Decide(Live(w[key], now, window), now, limit, window);
      (w[key := times], decision)
    else
      var room := if |w| >= cfg.maxKeys then Sweep(w, sweepNow, window) else w;
      if |room| >= cfg.maxKeys then (room, DeniedCapacity(now, limit, window))
      else
        var (times, decision) := Decide([], now, limit, window);
        (room[key := times], decision)
  }

  class RateLimiter {
    const cfg: Config
    var windows: Windows

    constructor (budgets: Budgets, maxKeys: nat)
      ensures cfg == Config(budgets, if maxKeys >= 1 then maxKeys else 1)
      ensures windows == map[]
    {
      cfg := Config(budgets, if maxKeys >= 1 then maxKeys else 1);
      windows := map[];
    }

    /** Prunes one log, then admits (recording `now`) or throttles. */
    static method DecideBucket(timestamps: seq<u64>, now: u64, limit: u32, window: u64)
      returns (kept: seq<u64>, decision: Decision)
      ensures (kept, decision) == Decide(Live(timestamps, now, window), now, limit, window)
    {
      kept := [];
      for i := 0 to |timestamps|
        invariant kept + Live(timestamps[i..], now, window) == Live(timestamps, now, window)
      {
        assert timestamps[i..][1..] == timestamps[i + 1..];
        var recorded := timestamps[i];
        if now < recorded || now - recorded < window {
          kept := kept + [recorded];
        }
      }
      assert kept == Live(timestamps, now, window);
      var used := |kept|;
      var oldest := Oldest(kept, now);
      var reset: u64 := if oldest + window <= U64_MAX then oldest + window else U64_MAX;
      if used < limit {
        kept := kept + [now];
        decision := Decision(true, limit, limit - (used + 1), reset, None);
      } else {
        var retry: u64 := if now <= reset then reset - now else 0;
        decision := Decision(false, limit, 0, reset, Some(retry));
      }
    }

    method CheckAndRecordStatus(key: RateLimitKey, now: u64, sweepNow: u64) returns (decision: Decision)
      modifies this
      ensures (windows, decision) == Check(cfg, old(windows), key, now, sweepNow)
    {
      var limit, window := LimitForKey(cfg, key), cfg.budgets.windowMs;
      var times: seq<u64>;
      if key in windows {
        times, decision := DecideBucket(windows[key], now, limit, window);
        windows := windows[key := times];
        return;
      }
      if |windows| >= cfg.maxKeys {
        SweepExpired(sweepNow);
        if |windows| >= cfg.maxKeys {
          return DeniedCapacity(now, limit, window);
        }
      }
      times, decision := DecideBucket([], now, limit, window);
      windows := windows[key := times];
    }

    /** Drops expired and future times everywhere, and every key left empty. */
    method SweepExpired(now: u64)
      modifies this
      ensures windows == Sweep(old(windows), now, cfg.budgets.windowMs)
    {
      var window := cfg.budgets.windowMs;
      var todo := windows.Keys;
      var result: Windows := map[];
      while todo != {}
        invariant todo <= windows.Keys && windows == old(windows)
        invariant result == map key | key in windows && key !in todo && Swept(windows[key], now, window) != [] ::
                              Swept(windows[key], now, window)
        decreases |todo|
      {
        var key :| key in todo;
        todo := todo - {key};
        var kept := Swept(windows[key], now, window);
        if kept != [] {
          result := result[key := kept];
        }
      }
      windows := result;
    }
  }

  // ---------------------------------------------------------------- runs and their history

  datatype Op = Request(key: RateLimitKey, now: u64, sweepNow: u64) | SweepAt(now: u64)

  /** The limiter beside every admission it ever made, per key and in order. */
  datatype History = History(windows: Windows, admitted: Windows)

  const EMPTY_HISTORY := History(map[], map[])

  function AdmittedTo(h: History, key: RateLimitKey): seq<u64> {
    if key in h.admitted then h.admitted[key] else []
  }

  function Step(cfg: Config, h: History, op: Op): History {
    match op
    case SweepAt(now) => h.(windows := Sweep(h.windows, now, cfg.budgets.windowMs))
    case Request(key, now, sweepNow) =>
      var (windows, decision) := Check(cfg, h.windows, key, now, sweepNow);
      History(windows, if decision.allowed then h.admitted[key := AdmittedTo(h, key) + [now]] else h.admitted)
  }

  function Outcome(cfg: Config, h: History, op: Op): Decision
    requires op.Request?
  {
    Check(cfg, h.windows, op.key, op.now, op.sweepNow).1
  }

  function Run(cfg: Config, h: History, ops: seq<Op>): History
    decreases |ops|
  {
    if ops == [] then h else Run(cfg, Step(cfg, h, ops[0]), ops[1..])
  }

  function OpStart(op: Op): u64 { op.now }

  function OpEnd(op: Op): u64 {
    match op
    case Request(_, now, sweepNow) => if now <= sweepNow then sweepNow else now
    case SweepAt(now) => now
  }

  function ClockAfter(clock: u64, ops: seq<Op>): u64
    decreases |ops|
  {
    if ops == [] then clock else ClockAfter(OpEnd(ops[0]), ops[1..])
  }

  /** The venue clock never goes backwards, within an operation or between two. */
  ghost predicate Monotone(clock: u64, ops: seq<Op>)
    decreases |ops|
  {
    ops == [] || (clock <= OpStart(ops[0]) && (ops[0].Request? ==> ops[0].now <= ops[0].sweepNow)
                  && Monotone(OpEnd(ops[0]), ops[1..]))
  }

  ghost predicate AllBefore(times: seq<u64>, clock: u64) {
    forall i :: 0 <= i < |times| ==> times[i] <= clock
  }

  /** A tracked log agrees with the history on everything in the window; an untracked key has nothing there. */
  ghost predicate KeyRefines(cfg: Config, h: History, clock: u64, key: RateLimitKey) {
    var window, past := cfg.budgets.windowMs, AdmittedTo(h, key);
    && AllBefore(past, clock)
    && (if key in h.windows then
          && |h.windows[key]| <= LimitForKey(cfg, key)
          && AllBefore(h.windows[key], clock)
          && Live(h.windows[key], clock, window) == Live(past, clock, window)
        else Live(past, clock, window) == [])
  }

  /** What every run keeps at its current clock: the key ceiling, and `KeyRefines` for every key. */
  ghost predicate Refines(cfg: Config, h: History, clock: u64) {
    && |h.windows| <= cfg.maxKeys
    && forall key :: KeyRefines(cfg, h, clock, key)
  }

  // ---------------------------------------------------------------- facts about logs

  lemma {:induction false} LiveAdvances(times: seq<u64>, t: u64, later: u64, window: u64)
    requires t <= later && AllBefore(times, t)
    ensures Live(Live(times, t, window), later, window) == Live(times, later, window)
    ensures AllBefore(Live(times, t, window), t)
    ensures |Live(times, t, window)| <= |times|
    decreases |times|
  {
    if times != [] {
      var head := if InWindow(times[0], t, window) then [times[0]] else [];
      var rest := Live(times[1..], t, window);
      LiveAdvances(times[1..], t, later, window);
      LiveAppend(head, rest, later, window);
      assert head != [] ==> head[1..] == [];
    }
  }

  lemma {:induction false} LiveAppend(a: seq<u64>, b: seq<u64>, now: u64, window: u64)
    ensures Live(a + b, now, window) == Live(a, now, window) + Live(b, now, window)
    decreases |a|
  {
    if a == [] {
      assert a + b == b;
    } else {
      var head := if InWindow(a[0], now, window) then [a[0]] else [];
      assert (a + b)[0] == a[0] && (a + b)[1..] == a[1..] + b;
      assert Live(a + b, now, window) == head + Live(a[1..] + b, now, window);
      assert Live(a, now, window) == head + Live(a[1..], now, window);
      hide Live, InWindow;
      LiveAppend(a[1..], b, now, window);
    }
  }

  lemma {:induction false} SweptIsLive(times: seq<u64>, now: u64, window: u64)
    requires AllBefore(times, now)
    ensures Swept(times, now, window) == Live(times, now, window)
    decreases |times|
  {
    if times != [] {
      SweptIsLive(times[1..], now, window);
    }
  }

  /** Two logs that agree at `t` agree at every later time. */
  lemma LiveStaysEqual(a: seq<u64>, b: seq<u64>, t: u64, later: u64, window: u64)
    requires t <= later && AllBefore(a, t) && AllBefore(b, t)
    requires Live(a, t, window) == Live(b, t, window)
    ensures Live(a, later, window) == Live(b, later, window)
  {
    LiveAdvances(a, t, later, window);
    LiveAdvances(b, t, later, window);
  }

  lemma KeyRefinesLater(cfg: Config, h: History, t: u64, later: u64, key: RateLimitKey)
    requires KeyRefines(cfg, h, t, key) && t <= later
    ensures KeyRefines(cfg, h, later, key)
  {
    var window := cfg.budgets.windowMs;
    if key in h.windows {
      LiveStaysEqual(h.windows[key], AdmittedTo(h, key), t, later, window);
    } else {
      LiveAdvances(AdmittedTo(h, key), t, later, window);
    }
  }

  lemma RefinesLater(cfg: Config, h: History, t: u64, later: u64)
    requires Refines(cfg, h, t) && t <= later
    ensures Refines(cfg, h, later)
  {
    forall key ensures KeyRefines(cfg, h, later, key) {
      KeyRefinesLater(cfg, h, t, later, key);
    }
  }

  // ---------------------------------------------------------------- steps keep the refinement

  lemma SweepShows(cfg: Config, h: History, now: u64, key: RateLimitKey)
    requires KeyRefines(cfg, h, now, key)
    ensures var window := cfg.budgets.windowMs;
            var swept := Sweep(h.windows, now, window);
            && (key in swept <==> Live(AdmittedTo(h, key), now, window) != [])
            && (key in swept ==> key in h.windows && swept[key] == Live(h.windows[key], now, window))
  {
    if key in h.windows {
      SweptIsLive(h.windows[key], now, cfg.budgets.windowMs);
    }
  }

  lemma SweepRefines(cfg: Config, h: History, now: u64)
    requires Refines(cfg, h, now)
    ensures Refines(cfg, h.(windows := Sweep(h.windows, now, cfg.budgets.windowMs)), now)
  {
    var window := cfg.budgets.windowMs;
    var next := h.(windows := Sweep(h.windows, now, window));
    SubmapSmaller(next.windows, h.windows);
    forall key ensures KeyRefines(cfg, next, now, key) {
      SweepShows(cfg, h, now, key);
      if key in next.windows {
        LiveAdvances(h.windows[key], now, now, window);
      }
    }
  }

  /** The state after `key` was decided on the bucket `base`, its admission recorded at `now`. */
  function Decided(cfg: Config, h: History, key: RateLimitKey, base: seq<u64>, now: u64): History {
    var window := cfg.budgets.windowMs;
    var (times, decision) := Decide(Live(base, now, window), now, LimitForKey(cfg, key), window);
    History(h.windows[key := times],
            if decision.allowed then h.admitted[key := AdmittedTo(h, key) + [now]] else h.admitted)
  }

  /** Deciding a key on a log that agrees with its history at `now` keeps the two in agreement at `clock`. */
  lemma DecidedKeyRefines(cfg: Config, h: History, key: RateLimitKey, base: seq<u64>, now: u64, clock: u64)
    requires now <= clock && AllBefore(base, now) && AllBefore(AdmittedTo(h, key), now)
    requires |base| <= LimitForKey(cfg, key)
    requires Live(base, now, cfg.budgets.windowMs) == Live(AdmittedTo(h, key), now, cfg.budgets.windowMs)
    ensures KeyRefines(cfg, Decided(cfg, h, key, base, now), clock, key)
  {
    hide Live, InWindow;
    var window := cfg.budgets.windowMs;
    var live, past := Live(base, now, window), AdmittedTo(h, key);
    LiveAdvances(base, now, clock, window);
    LiveAdvances(past, now, clock, window);
    LiveAppend(live, [now], clock, window);
    LiveAppend(past, [now], clock, window);
  }

  lemma DecideRefines(cfg: Config, h: History, key: RateLimitKey, base: seq<u64>, now: u64, clock: u64)
    requires Refines(cfg, h, clock) && now <= clock && AllBefore(base, now) && AllBefore(AdmittedTo(h, key), now)
    requires |base| <= LimitForKey(cfg, key) && (key in h.windows || |h.windows| < cfg.maxKeys)
    requires Live(base, now, cfg.budgets.windowMs) == Live(AdmittedTo(h, key), now, cfg.budgets.windowMs)
    ensures Refines(cfg, Decided(cfg, h, key, base, now), clock)
  {
    var next := Decided(cfg, h, key, base, now);
    DecidedKeyRefines(cfg, h, key, base, now, clock);
    hide Live, Decide;
    forall other ensures KeyRefines(cfg, next, clock, other) {
      if other != key {
        assert KeyRefines(cfg, h, clock, other);
      }
    }
    if key in h.windows {
      SubmapSmaller(next.windows, h.windows);
    } else {
      assert |next.windows| == |h.windows| + 1;
    }
  }

  lemma StepRefines(cfg: Config, h: History, op: Op)
    requires cfg.maxKeys >= 1 && Refines(cfg, h, OpStart(op))
    requires op.Request? ==> op.now <= op.sweepNow
    ensures Refines(cfg, Step(cfg, h, op), OpEnd(op))
  {
    match op {
      case SweepAt(now) => SweepRefines(cfg, h, now);
      case Request(key, now, sweepNow) =>
        assert KeyRefines(cfg, h, now, key);
        if key in h.windows {
          DecideRefines(cfg, h, key, h.windows[key], now, now);
          assert Step(cfg, h, op) == Decided(cfg, h, key, h.windows[key], now);
          RefinesLater(cfg, Step(cfg, h, op), now, sweepNow);
        } else {
          NewKeyRefines(cfg, h, op);
        }
    }
  }

  /** A new key may sweep first, at a later clock; the recorded time is still the one read on entry. */
  lemma NewKeyRefines(cfg: Config, h: History, op: Op)
    requires cfg.maxKeys >= 1 && op.Request? && op.now <= op.sweepNow
    requires Refines(cfg, h, op.now) && op.key !in h.windows
    ensures Refines(cfg, Step(cfg, h, op), op.sweepNow)
  {
    assert KeyRefines(cfg, h, op.now, op.key);
    assert Live([], op.now, cfg.budgets.windowMs) == [];
    RefinesLater(cfg, h, op.now, op.sweepNow);
    hide KeyRefines, Decide, Sweep;
    if |h.windows| < cfg.maxKeys {
      DecideRefines(cfg, h, op.key, [], op.now, op.sweepNow);
    } else {
      SweepRefines(cfg, h, op.sweepNow);
      var room := h.(windows := Sweep(h.windows, op.sweepNow, cfg.budgets.windowMs));
      if |room.windows| < cfg.maxKeys {
        DecideRefines(cfg, room, op.key, [], op.now, op.sweepNow);
      }
    }
  }

  lemma {:induction false} RunRefines(cfg: Config, h: History, clock: u64, ops: seq<Op>)
    requires cfg.maxKeys >= 1 && Refines(cfg, h, clock) && Monotone(clock, ops)
    ensures Refines(cfg, Run(cfg, h, ops), ClockAfter(clock, ops))
    decreases |ops|
  {
    if ops != [] {
      RefinesLater(cfg, h, clock, OpStart(ops[0]));
      StepRefines(cfg, h, ops[0]);
      RunRefines(cfg, Step(cfg, h, ops[0]), OpEnd(ops[0]), ops[1..]);
    }
  }

  lemma EmptyRefines(cfg: Config, clock: u64)
    ensures Refines(cfg, EMPTY_HISTORY, clock)
  {}

  // ---------------------------------------------------------------- decisions follow the history

  /** The keys with an admission still in the window. */
  ghost function LiveKeys(cfg: Config, h: History, now: u64): set<RateLimitKey> {
    set key | key in h.admitted && Live(h.admitted[key], now, cfg.budgets.windowMs) != []
  }

  lemma SweepKeepsLiveKeys(cfg: Config, h: History, now: u64)
    requires Refines(cfg, h, now)
    ensures Sweep(h.windows, now, cfg.budgets.windowMs).Keys == LiveKeys(cfg, h, now)
    ensures |LiveKeys(cfg, h, now)| <= |h.windows|
  {
    var swept := Sweep(h.windows, now, cfg.budgets.windowMs);
    forall key ensures key in swept <==> key in LiveKeys(cfg, h, now) {
      assert KeyRefines(cfg, h, now, key);
      SweepShows(cfg, h, now, key);
    }
    SubmapSmaller(swept, h.windows);
    assert |swept| == |swept.Keys|;
  }

  /**
   The pruned logs decide as the full history would: a request is admitted exactly
   when fewer than `limit` past admissions of its key are younger than the window,
   unless the key is not tracked and the keys with a young admission already fill the
   ceiling. The advertised remainder counts the same admissions.
   */
  lemma DecisionFollowsHistory(cfg: Config, h: History, key: RateLimitKey, now: u64, sweepNow: u64)
    requires Refines(cfg, h, now) && now <= sweepNow
    ensures var young := |Live(AdmittedTo(h, key), now, cfg.budgets.windowMs)|;
            var refused := key !in h.windows && |LiveKeys(cfg, h, sweepNow)| >= cfg.maxKeys;
            var decision := Outcome(cfg, h, Request(key, now, sweepNow));
            && (decision.allowed <==> young < LimitForKey(cfg, key) && !refused)
            && (decision.allowed ==> decision.remaining == LimitForKey(cfg, key) - young - 1)
            && decision.limit == LimitForKey(cfg, key)
  {
    assert KeyRefines(cfg, h, now, key);
    if key !in h.windows {
      RefinesLater(cfg, h, now, sweepNow);
      SweepKeepsLiveKeys(cfg, h, sweepNow);
      var swept := Sweep(h.windows, sweepNow, cfg.budgets.windowMs);
      assert |swept| == |swept.Keys|;
    }
  }

  /**
   Whose budget is whose: an unauthenticated peer and an account of the lowest tier are
   held to the read budget, the other tiers to their own.
   */
  lemma WhoseBudget(cfg: Config, h: History, key: RateLimitKey, now: u64, sweepNow: u64)
    requires Refines(cfg, h, now) && now <= sweepNow
    ensures var decision := Outcome(cfg, h, Request(key, now, sweepNow));
            var young := |Live(AdmittedTo(h, key), now, cfg.budgets.windowMs)|;
            var tracked := key in h.windows;
            && (key.Peer? ==>
                  decision.limit == cfg.budgets.read && (tracked ==> (decision.allowed <==> young < cfg.budgets.read)))
            && (key.Account? && key.tier == Read ==>
                  decision.limit == cfg.budgets.read && (tracked ==> (decision.allowed <==> young < cfg.budgets.read)))
            && (key.Account? && key.tier == Trade ==>
                  decision.limit == cfg.budgets.trade && (tracked ==> (decision.allowed <==> young < cfg.budgets.trade)))
            && (key.Account? && key.tier == Admin ==>
                  decision.limit == cfg.budgets.admin && (tracked ==> (decision.allowed <==> young < cfg.budgets.admin)))
  {
    DecisionFollowsHistory(cfg, h, key, now, sweepNow);
    hide Check, Live;
  }

  /**
   What a decision advertises, in terms of the past admissions in the window: the reset is
   one window after the oldest of them (after now when there is none), at most the largest
   clock value; a denial leaves nothing and says how long to wait for the reset; a refusal
   for capacity says to wait one whole window.
   */
  lemma DecisionAdvertises(cfg: Config, h: History, key: RateLimitKey, now: u64, sweepNow: u64)
    requires Refines(cfg, h, now) && now <= sweepNow
    ensures var window := cfg.budgets.windowMs;
            var young := Live(AdmittedTo(h, key), now, window);
            var refused := key !in h.windows && |LiveKeys(cfg, h, sweepNow)| >= cfg.maxKeys;
            var d := Outcome(cfg, h, Request(key, now, sweepNow));
            && (young == [] || refused ==> d.resetMs == Least64(now + window))
            && (young != [] && !refused ==>
                  (forall x :: x in young ==> d.resetMs <= Least64(x + window)) && exists x :: x in young && d.resetMs == Least64(x + window))
            && (d.allowed ==> d.retryAfterMs == None)
            && (!d.allowed ==> d.remaining == 0)
            && (refused ==> d.retryAfterMs == Some(window))
            && (!d.allowed && !refused ==> d.retryAfterMs == Some(if now <= d.resetMs then d.resetMs - now else 0))
  {
    hide Live, LiveKeys, Refines, Sweep;
    DecisionFollowsHistory(cfg, h, key, now, sweepNow);
    if key in h.windows {
      TrackedLog(cfg, h, key, now);
      if Live(h.windows[key], now, cfg.budgets.windowMs) != [] {
        OldestIsLeast(Live(h.windows[key], now, cfg.budgets.windowMs), now);
      }
    } else {
      UntrackedLog(cfg, h, key, now, sweepNow);
    }
  }

  lemma TrackedLog(cfg: Config, h: History, key: RateLimitKey, now: u64)
    requires Refines(cfg, h, now) && key in h.windows
    ensures Live(h.windows[key], now, cfg.budgets.windowMs) == Live(AdmittedTo(h, key), now, cfg.budgets.windowMs)
  {
    assert KeyRefines(cfg, h, now, key);
  }

  /** A key that is not tracked has nothing in the window, and after a sweep only keys that have are tracked. */
  lemma UntrackedLog(cfg: Config, h: History, key: RateLimitKey, now: u64, sweepNow: u64)
    requires Refines(cfg, h, now) && key !in h.windows && now <= sweepNow
    ensures Live(AdmittedTo(h, key), now, cfg.budgets.windowMs) == []
    ensures |Sweep(h.windows, sweepNow, cfg.budgets.windowMs)| == |LiveKeys(cfg, h, sweepNow)| <= |h.windows|
  {
    assert KeyRefines(cfg, h, now, key);
    RefinesLater(cfg, h, now, sweepNow);
    SweepKeepsLiveKeys(cfg, h, sweepNow);
    var swept := Sweep(h.windows, sweepNow, cfg.budgets.windowMs);
    assert |swept| == |swept.Keys|;
  }

  function Least64(x: nat): u64 {
    if x <= 0xFFFF_FFFF_FFFF_FFFF then x else 0xFFFF_FFFF_FFFF_FFFF
  }

  // ---------------------------------------------------------------- no window holds more than the limit

  /** How many times fall in the half-open interval of one window length that starts at `from`. */
  function CountIn(times: seq<u64>, from: nat, window: u64): nat {
    if times == [] then 0
    else (if from <= times[0] < from + window then 1 else 0) + CountIn(times[1..], from, window)
  }

  lemma {:induction false} CountInAppend(times: seq<u64>, last: u64, from: nat, window: u64)
    ensures CountIn(times + [last], from, window)
         == CountIn(times, from, window) + if from <= last < from + window then 1 else 0
    decreases |times|
  {
    if times == [] {
      assert [last][1..] == [];
    } else {
      assert (times + [last])[1..] == times[1..] + [last];
      CountInAppend(times[1..], last, from, window);
    }
  }

  // ---------------------------------------------------------------- the retry hint

  lemma {:induction false} OldestIsLeast(times: seq<u64>, default: u64)
    requires times != []
    ensures Oldest(times, default) in times
    ensures forall x :: x in times ==> Oldest(times, default) <= x
    decreases |times|
  {
    if |times| > 1 {
      OldestIsLeast(times[1..], default);
      assert times == [times[0]] + times[1..];
    } else {
      assert times == [times[0]];
    }
  }

  /** Until the oldest live time ages out, every live time stays; once it does, at least one is gone. */
  lemma {:induction false} LiveUntil(live: seq<u64>, t: u64, window: u64)
    requires AllBefore(live, t)
    ensures (forall x :: x in live ==> t - x < window) ==> Live(live, t, window) == live
    ensures (exists x :: x in live && t - x >= window) ==> |Live(live, t, window)| < |live|
    ensures |Live(live, t, window)| <= |live|
    decreases |live|
  {
    if live != [] {
      assert live == [live[0]] + live[1..];
      assert live[0] in live && forall x :: x in live[1..] ==> x in live;
      LiveUntil(live[1..], t, window);
    }
  }

  /** A log that fills its limit frees exactly when its oldest live time ages out. */
  lemma FullUntilReset(times: seq<u64>, now: u64, t: u64, limit: u32, window: u64)
    requires AllBefore(times, now) && now <= t && 1 <= limit && now + window <= U64_MAX
    requires |Live(times, now, window)| == limit
    ensures |Live(times, t, window)| < limit <==> t >= PlusWindow(Oldest(Live(times, now, window), now), window)
  {
    var live := Live(times, now, window);
    LiveAdvances(times, now, t, window);
    OldestIsLeast(live, now);
    var oldest := Oldest(live, now);
    assert forall x :: x in live ==> x <= now;
    LiveUntil(live, t, window);
    if t < oldest + window {
      assert forall x :: x in live ==> t - x < window;
    } else {
      assert oldest in live && t - oldest >= window;
    }
  }

  /** While a full log has not freed, its key stays tracked and every request for it is denied. */
  lemma FullStepDenied(cfg: Config, h: History, key: RateLimitKey, op: Op)
    requires cfg.maxKeys >= 1 && Refines(cfg, h, OpStart(op)) && key in h.windows
    requires op.Request? ==> op.now <= op.sweepNow
    requires LimitForKey(cfg, key) >= 1
    requires |Live(AdmittedTo(h, key), OpEnd(op), cfg.budgets.windowMs)| >= LimitForKey(cfg, key)
    ensures op.Request? && op.key == key ==> !Outcome(cfg, h, op).allowed
    ensures AdmittedTo(Step(cfg, h, op), key) == AdmittedTo(h, key)
    ensures key in Step(cfg, h, op).windows
  {
    var window := cfg.budgets.windowMs;
    assert KeyRefines(cfg, h, OpStart(op), key);
    LiveAdvances(AdmittedTo(h, key), OpStart(op), OpEnd(op), window);
    if op.Request? {
      DecisionFollowsHistory(cfg, h, op.key, op.now, op.sweepNow);
      if op.key == key {
        LiveShrinks(AdmittedTo(h, key), op.now, op.sweepNow, window);
      }
    }
    RefinesLater(cfg, h, OpStart(op), OpEnd(op));
    assert KeyRefines(cfg, h, OpEnd(op), key);
    SweepShows(cfg, h, OpEnd(op), key);
  }

  lemma LiveShrinks(times: seq<u64>, t: u64, later: u64, window: u64)
    requires AllBefore(times, t) && t <= later
    ensures |Live(times, later, window)| <= |Live(times, t, window)|
  {
    LiveAdvances(times, t, later, window);
    LiveAdvances(Live(times, t, window), t, later, window);
    LiveUntil(Live(times, t, window), later, window);
  }

  lemma {:induction false} FullRunDenied(cfg: Config, h: History, clock: u64, key: RateLimitKey, ops: seq<Op>)
    requires cfg.maxKeys >= 1 && Refines(cfg, h, clock) && key in h.windows && Monotone(clock, ops)
    requires LimitForKey(cfg, key) >= 1
    requires |Live(AdmittedTo(h, key), ClockAfter(clock, ops), cfg.budgets.windowMs)| >= LimitForKey(cfg, key)
    ensures AdmittedTo(Run(cfg, h, ops), key) == AdmittedTo(h, key)
    ensures key in Run(cfg, h, ops).windows
    decreases |ops|
  {
    if ops != [] {
      var op := ops[0];
      RefinesLater(cfg, h, clock, OpStart(op));
      StepRefines(cfg, h, op);
      ClockGrows(OpEnd(op), ops[1..]);
      assert KeyRefines(cfg, h, OpStart(op), key);
      BeforeLater(AdmittedTo(h, key), OpStart(op), OpEnd(op));
      LiveShrinks(AdmittedTo(h, key), OpEnd(op), ClockAfter(clock, ops), cfg.budgets.windowMs);
      FullStepDenied(cfg, h, key, op);
      FullRunDenied(cfg, Step(cfg, h, op), OpEnd(op), key, ops[1..]);
    }
  }

  lemma BeforeLater(times: seq<u64>, t: u64, later: u64)
    requires AllBefore(times, t) && t <= later
    ensures AllBefore(times, later)
  {}

  lemma {:induction false} ClockGrows(clock: u64, ops: seq<Op>)
    requires Monotone(clock, ops)
    ensures clock <= ClockAfter(clock, ops)
    decreases |ops|
  {
    if ops != [] {
      ClockGrows(OpEnd(ops[0]), ops[1..]);
    }
  }

  /**
   The retry hint is exact. After a tracked key with a positive limit is denied, take
   any run of requests and sweeps (retries of this key among them) whose clock is
   still before the advertised reset, and then one more request for the key: it is
   admitted if and only if its time has reached the reset. All the retries in between
   were denied, for the run recorded no admission of the key.
   */
  lemma RetryHintExact(cfg: Config, h: History, key: RateLimitKey, now: u64, sweepNow: u64, ops: seq<Op>, t: u64, tSweep: u64)
    requires cfg.maxKeys >= 1 && Refines(cfg, h, now) && now <= sweepNow && key in h.windows
    requires LimitForKey(cfg, key) >= 1 && now + cfg.budgets.windowMs <= U64_MAX
    requires !Outcome(cfg, h, Request(key, now, sweepNow)).allowed
    requires Monotone(sweepNow, ops) && ClockAfter(sweepNow, ops) <= t <= tSweep
    requires ClockAfter(sweepNow, ops) < Outcome(cfg, h, Request(key, now, sweepNow)).resetMs
    ensures var denied := Step(cfg, h, Request(key, now, sweepNow));
            var decision := Outcome(cfg, h, Request(key, now, sweepNow));
            && decision.retryAfterMs == Some(decision.resetMs - now)
            && AdmittedTo(Run(cfg, denied, ops), key) == AdmittedTo(h, key)
            && (Outcome(cfg, Run(cfg, denied, ops), Request(key, t, tSweep)).allowed <==> t >= decision.resetMs)
  {
    var window := cfg.budgets.windowMs;
    var limit := LimitForKey(cfg, key);
    var denied := Step(cfg, h, Request(key, now, sweepNow));
    var past := AdmittedTo(h, key);
    var after := ClockAfter(sweepNow, ops);
    assert KeyRefines(cfg, h, now, key);
    LiveAdvances(h.windows[key], now, now, window);
    DecisionFollowsHistory(cfg, h, key, now, sweepNow);
    ClockGrows(sweepNow, ops);
    FullUntilReset(past, now, after, limit, window);
    FullUntilReset(past, now, t, limit, window);
    StepRefines(cfg, h, Request(key, now, sweepNow));
    FullRunDenied(cfg, denied, sweepNow, key, ops);
    RunRefines(cfg, denied, sweepNow, ops);
    RefinesLater(cfg, Run(cfg, denied, ops), after, t);
    DecisionFollowsHistory(cfg, Run(cfg, denied, ops), key, t, tSweep);
  }
}
