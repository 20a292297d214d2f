/**
 The rate limiter under concurrency: any number of threads run requests and sweeps,
 interleaved at the granularity of one shard lock. A request first tries the
 lock-free path; only a miss takes the new-key gate, rechecks, counts the keys shard
 by shard, sweeps shard by shard if the map looks full, counts again and inserts.
 */
module LimiterInterleaving {
  import opened BucketLog
  import opened Collections
  import opened RateLimits
  import opened Words

  type Thread = nat

  /** How the key space is split over the map's shards. */
  datatype Layout = Layout(shards: nat, shardOf: RateLimitKey -> nat)

  ghost predicate ValidLayout(layout: Layout) {
    forall key :: layout.shardOf(key) < layout.shards
  }

  /** Where a thread stands; `next` is the first shard its pass has not visited yet. */
  datatype Pc =
    | Idle
    | Entered(key: RateLimitKey, now: u64)
    | Missed(key: RateLimitKey, now: u64)
    | Gated(key: RateLimitKey, now: u64)
    | Counting(key: RateLimitKey, now: u64, swept: bool, counted: nat, next: nat)
    | Sweeping(key: RateLimitKey, now: u64, sweepNow: u64, next: nat)
    | Inserting(key: RateLimitKey, now: u64)
    | Refusing(key: RateLimitKey, now: u64)
    | Patrolling(sweepNow: u64, next: nat)

  datatype State = State(windows: Windows, gate: Option<Thread>, pcs: map<Thread, Pc>)

  const INITIAL := State(map[], None, map[])

  function PcOf(s: State, t: Thread): Pc {
    if t in s.pcs then s.pcs[t] else Idle
  }

  predicate InGate(pc: Pc) {
    pc.Gated? || pc.Counting? || pc.Sweeping? || pc.Inserting? || pc.Refusing?
  }

  /** The thread has seen under the gate that its key is new. */
  predicate PastRecheck(pc: Pc) {
    pc.Counting? || pc.Sweeping? || pc.Inserting? || pc.Refusing?
  }

  // ---------------------------------------------------------------- steps

  datatype Action =
    | Enter(t: Thread, key: RateLimitKey, now: u64)
    | Advance(t: Thread, clock: u64)
    | StartPatrol(t: Thread, clock: u64)

  /** A thread can always move, except that a missed request waits for the gate. */
  predicate Enabled(s: State, a: Action) {
    match a
    case Enter(t, _, _) => PcOf(s, t).Idle?
    case StartPatrol(t, _) => PcOf(s, t).Idle?
    case Advance(t, _) => !PcOf(s, t).Idle? && (PcOf(s, t).Missed? ==> s.gate.None?)
  }

  /** Prunes and decides one bucket under its shard lock. */
  function DecideAt(cfg: Config, w: Windows, key: RateLimitKey, now: u64): Windows {
    var base := if key in w then w[key] else [];
    w[key := Decide(Live(base, now, cfg.budgets.windowMs), now, LimitForKey(cfg, key), cfg.budgets.windowMs).0]
  }

  function SweepShard(cfg: Config, layout: Layout, w: Windows, shard: nat, now: u64): Windows {
    var window := cfg.budgets.windowMs;
    map key | key in w && (layout.shardOf(key) != shard || Swept(w[key], now, window) != []) ::
      if layout.shardOf(key) == shard then Swept(w[key], now, window) else w[key]
  }

  function ShardKeys(layout: Layout, w: Windows, shard: nat): set<RateLimitKey> {
    set key | key in w && layout.shardOf(key) == shard
  }

  function Moved(s: State, t: Thread, pc: Pc): State {
    s.(pcs := s.pcs[t := pc])
  }

  function Released(s: State, t: Thread): State {
    s.(gate := None, pcs := s.pcs[t := Idle])
  }

  /** One atomic step of a request or sweep already under way; `clock` is what a clock read returns now. */
  function AdvanceThread(cfg: Config, layout: Layout, s: State, t: Thread, clock: u64): State {
    match PcOf(s, t)
    case Idle => s
    case Entered(key, now) =>
      if key in s.windows then Moved(s, t, Idle).(windows := DecideAt(cfg, s.windows, key, now))
      else Moved(s, t, Missed(key, now))
    case Missed(key, now) => Moved(s, t, Gated(key, now)).(gate := Some(t))
    case Gated(key, now) =>
      if key in s.windows then Released(s, t).(windows := DecideAt(cfg, s.windows, key, now))
      else Moved(s, t, Counting(key, now, false, 0, 0))
    case Counting(key, now, swept, counted, next) =>
      if next < layout.shards then
        Moved(s, t, Counting(key, now, swept, counted + |ShardKeys(layout, s.windows, next)|, next + 1))
      else if counted < cfg.maxKeys then Moved(s, t, Inserting(key, now))
      else if swept then Moved(s, t, Refusing(key, now))
      else Moved(s, t, Sweeping(key, now, clock, 0))
    case Sweeping(key, now, sweepNow, next) =>
      if next < layout.shards then
        Moved(s, t, Sweeping(key, now, sweepNow, next + 1)).(windows := SweepShard(cfg, layout, s.windows, next, sweepNow))
      else Moved(s, t, Counting(key, now, true, 0, 0))
    case Inserting(key, now) => Released(s, t).(windows := DecideAt(cfg, s.windows, key, now))
    case Refusing(key, now) => Released(s, t)
    case Patrolling(sweepNow, next) =>
      if next < layout.shards then
        Moved(s, t, Patrolling(sweepNow, next + 1)).(windows := SweepShard(cfg, layout, s.windows, next, sweepNow))
      else Moved(s, t, Idle)
  }

  function Do(cfg: Config, layout: Layout, s: State, a: Action): State {
    match a
    case Enter(t, key, now) => Moved(s, t, Entered(key, now))
    case StartPatrol(t, clock) => Moved(s, t, Patrolling(clock, 0))
    case Advance(t, clock) => AdvanceThread(cfg, layout, s, t, clock)
  }

  /** A schedule whose every action is enabled when it is taken. */
  ghost predicate Schedule(cfg: Config, layout: Layout, s: State, actions: seq<Action>)
    decreases |actions|
  {
    actions == [] || (Enabled(s, actions[0]) && Schedule(cfg, layout, Do(cfg, layout, s, actions[0]), actions[1..]))
  }

  function Execute(cfg: Config, layout: Layout, s: State, actions: seq<Action>): State
    decreases |actions|
  {
    if actions == [] then s else Execute(cfg, layout, Do(cfg, layout, s, actions[0]), actions[1..])
  }

  // ---------------------------------------------------------------- the invariant

  ghost function CountedKeys(layout: Layout, w: Windows, next: nat): set<RateLimitKey> {
    set key | key in w && layout.shardOf(key) < next
  }

  ghost predicate BucketsBounded(cfg: Config, w: Windows) {
    forall key :: key in w ==> |w[key]| <= LimitForKey(cfg, key)
  }

  /** What the gate holder may rely on at its program counter. */
  ghost predicate GateFacts(cfg: Config, layout: Layout, s: State, t: Thread) {
    var pc := PcOf(s, t);
    && (InGate(pc) <==> s.gate == Some(t))
    && (PastRecheck(pc) ==> pc.key !in s.windows)
    && (pc.Counting? ==> |CountedKeys(layout, s.windows, pc.next)| <= pc.counted)
    && (pc.Inserting? ==> |s.windows| < cfg.maxKeys)
  }

  ghost predicate Inv(cfg: Config, layout: Layout, s: State) {
    && |s.windows| <= cfg.maxKeys
    && BucketsBounded(cfg, s.windows)
    && forall t :: GateFacts(cfg, layout, s, t)
  }

  lemma {:induction false} LiveNoLonger(times: seq<u64>, now: u64, window: u64)
    ensures |Live(times, now, window)| <= |times|
    ensures |Swept(times, now, window)| <= |times|
    decreases |times|
  {
    if times != [] {
      LiveNoLonger(times[1..], now, window);
    }
  }

  lemma DecideBounded(cfg: Config, w: Windows, key: RateLimitKey, now: u64)
    requires BucketsBounded(cfg, w)
    ensures BucketsBounded(cfg, DecideAt(cfg, w, key, now))
    ensures DecideAt(cfg, w, key, now).Keys == w.Keys + {key}
  {
    LiveNoLonger(if key in w then w[key] else [], now, cfg.budgets.windowMs);
  }

  lemma SweepBounded(cfg: Config, layout: Layout, w: Windows, shard: nat, now: u64)
    requires BucketsBounded(cfg, w)
    ensures BucketsBounded(cfg, SweepShard(cfg, layout, w, shard, now))
    ensures SweepShard(cfg, layout, w, shard, now).Keys <= w.Keys
  {
    forall key | key in w ensures |Swept(w[key], now, cfg.budgets.windowMs)| <= |w[key]| {
      LiveNoLonger(w[key], now, cfg.budgets.windowMs);
    }
  }

  /** Losing keys never invalidates what a gate holder relies on. */
  lemma FactsSurviveShrinking(cfg: Config, layout: Layout, s: State, w: Windows, t: Thread)
    requires GateFacts(cfg, layout, s, t) && w.Keys <= s.windows.Keys
    ensures GateFacts(cfg, layout, s.(windows := w), t)
  {
    var pc := PcOf(s, t);
    if pc.Counting? {
      SubsetCardinality(CountedKeys(layout, w, pc.next), CountedKeys(layout, s.windows, pc.next));
    }
    SubmapSmaller(w, s.windows);
  }

  /** A step that keeps or shrinks the key set and moves one thread without touching the gate. */
  lemma QuietStep(cfg: Config, layout: Layout, s: State, next: State, t: Thread)
    requires Inv(cfg, layout, s) && next.gate == s.gate && next.pcs == s.pcs[t := PcOf(next, t)]
    requires next.windows.Keys <= s.windows.Keys && BucketsBounded(cfg, next.windows)
    requires GateFacts(cfg, layout, next, t)
    ensures Inv(cfg, layout, next)
  {
    SubmapSmaller(next.windows, s.windows);
    forall u ensures GateFacts(cfg, layout, next, u) {
      if u != t {
        assert GateFacts(cfg, layout, s, u);
        FactsSurviveShrinking(cfg, layout, s, next.windows, u);
      }
    }
  }

  /** The gate holder leaves: nobody else was past the gate, so nobody relies on anything. */
  lemma ReleaseStep(cfg: Config, layout: Layout, s: State, t: Thread, w: Windows)
    requires Inv(cfg, layout, s) && s.gate == Some(t)
    requires BucketsBounded(cfg, w) && |w| <= cfg.maxKeys
    ensures Inv(cfg, layout, Released(s, t).(windows := w))
  {
    var next := Released(s, t).(windows := w);
    forall u ensures GateFacts(cfg, layout, next, u) {
      if u != t {
        assert GateFacts(cfg, layout, s, u);
      }
    }
  }

  lemma TakeGateStep(cfg: Config, layout: Layout, s: State, t: Thread, key: RateLimitKey, now: u64)
    requires Inv(cfg, layout, s) && s.gate.None?
    ensures Inv(cfg, layout, Moved(s, t, Gated(key, now)).(gate := Some(t)))
  {
    var next := Moved(s, t, Gated(key, now)).(gate := Some(t));
    forall u ensures GateFacts(cfg, layout, next, u) {
      if u != t {
        assert GateFacts(cfg, layout, s, u);
      }
    }
  }

  lemma CountStep(layout: Layout, w: Windows, next: nat)
    ensures |CountedKeys(layout, w, next + 1)| == |CountedKeys(layout, w, next)| + |ShardKeys(layout, w, next)|
  {
    assert CountedKeys(layout, w, next + 1) == CountedKeys(layout, w, next) + ShardKeys(layout, w, next);
    assert CountedKeys(layout, w, next) !! ShardKeys(layout, w, next);
  }

  /** A finished count is never below the true number of keys: only the gate holder inserts. */
  lemma FullCount(cfg: Config, layout: Layout, s: State, t: Thread)
    requires ValidLayout(layout) && GateFacts(cfg, layout, s, t)
    requires PcOf(s, t).Counting? && PcOf(s, t).next >= layout.shards
    ensures |s.windows| <= PcOf(s, t).counted
  {
    assert CountedKeys(layout, s.windows, PcOf(s, t).next) == s.windows.Keys;
    assert |s.windows| == |s.windows.Keys|;
  }

  lemma CountingKeepsInv(cfg: Config, layout: Layout, s: State, t: Thread, clock: u64)
    requires ValidLayout(layout) && Inv(cfg, layout, s) && PcOf(s, t).Counting?
    ensures Inv(cfg, layout, AdvanceThread(cfg, layout, s, t, clock))
  {
    var next := AdvanceThread(cfg, layout, s, t, clock);
    var pc := PcOf(s, t);
    assert GateFacts(cfg, layout, s, t);
    if pc.next < layout.shards {
      CountStep(layout, s.windows, pc.next);
    } else {
      FullCount(cfg, layout, s, t);
    }
    QuietStep(cfg, layout, s, next, t);
  }

  lemma SweepingKeepsInv(cfg: Config, layout: Layout, s: State, t: Thread, clock: u64)
    requires Inv(cfg, layout, s) && (PcOf(s, t).Sweeping? || PcOf(s, t).Patrolling?)
    ensures Inv(cfg, layout, AdvanceThread(cfg, layout, s, t, clock))
  {
    var next := AdvanceThread(cfg, layout, s, t, clock);
    var pc := PcOf(s, t);
    assert GateFacts(cfg, layout, s, t);
    if pc.next < layout.shards {
      SweepBounded(cfg, layout, s.windows, pc.next, pc.sweepNow);
    } else if pc.Sweeping? {
      assert CountedKeys(layout, s.windows, 0) == {};
    }
    QuietStep(cfg, layout, s, next, t);
  }

  lemma EnteredKeepsInv(cfg: Config, layout: Layout, s: State, t: Thread, clock: u64)
    requires Inv(cfg, layout, s) && PcOf(s, t).Entered?
    ensures Inv(cfg, layout, AdvanceThread(cfg, layout, s, t, clock))
  {
    var next := AdvanceThread(cfg, layout, s, t, clock);
    var pc := PcOf(s, t);
    assert GateFacts(cfg, layout, s, t);
    if pc.key in s.windows {
      DecideBounded(cfg, s.windows, pc.key, pc.now);
    }
    hide DecideAt, BucketsBounded, LimitForKey, CountedKeys, ShardKeys, SweepShard;
    QuietStep(cfg, layout, s, next, t);
  }

  /** Only a key seen to be new under the gate, with room left, adds to the map. */
  lemma GatedKeepsInv(cfg: Config, layout: Layout, s: State, t: Thread, clock: u64)
    requires Inv(cfg, layout, s) && (PcOf(s, t).Gated? || PcOf(s, t).Inserting?)
    ensures Inv(cfg, layout, AdvanceThread(cfg, layout, s, t, clock))
  {
    var next := AdvanceThread(cfg, layout, s, t, clock);
    var pc := PcOf(s, t);
    assert GateFacts(cfg, layout, s, t);
    DecideBounded(cfg, s.windows, pc.key, pc.now);
    var decided := DecideAt(cfg, s.windows, pc.key, pc.now);
    hide DecideAt, BucketsBounded;
    if pc.key in s.windows || pc.Inserting? {
      assert |decided| == |decided.Keys| && |s.windows| == |s.windows.Keys|;
      assert pc.key in s.windows ==> decided.Keys == s.windows.Keys;
      ReleaseStep(cfg, layout, s, t, decided);
    } else {
      assert CountedKeys(layout, s.windows, 0) == {};
      QuietStep(cfg, layout, s, next, t);
    }
  }

  lemma StepKeepsInv(cfg: Config, layout: Layout, s: State, a: Action)
    requires ValidLayout(layout) && Inv(cfg, layout, s) && Enabled(s, a)
    ensures Inv(cfg, layout, Do(cfg, layout, s, a))
  {
    assert GateFacts(cfg, layout, s, a.t);
    match a {
      case Enter(t, key, now) => QuietStep(cfg, layout, s, Do(cfg, layout, s, a), t);
      case StartPatrol(t, clock) => QuietStep(cfg, layout, s, Do(cfg, layout, s, a), t);
      case Advance(t, clock) =>
        match PcOf(s, t) {
          case Missed(key, now) => TakeGateStep(cfg, layout, s, t, key, now);
          case Counting(_, _, _, _, _) => CountingKeepsInv(cfg, layout, s, t, clock);
          case Sweeping(_, _, _, _) => SweepingKeepsInv(cfg, layout, s, t, clock);
          case Patrolling(_, _) => SweepingKeepsInv(cfg, layout, s, t, clock);
          case Refusing(_, _) => ReleaseStep(cfg, layout, s, t, s.windows);
          case Entered(_, _) => EnteredKeepsInv(cfg, layout, s, t, clock);
          case _ => GatedKeepsInv(cfg, layout, s, t, clock);
        }
    }
  }

  lemma InitialInv(cfg: Config, layout: Layout)
    ensures Inv(cfg, layout, INITIAL)
  {}

  lemma {:induction false} ExecuteKeepsInv(cfg: Config, layout: Layout, s: State, actions: seq<Action>)
    requires ValidLayout(layout) && Inv(cfg, layout, s) && Schedule(cfg, layout, s, actions)
    ensures Inv(cfg, layout, Execute(cfg, layout, s, actions))
    decreases |actions|
  {
    if actions != [] {
      StepKeepsInv(cfg, layout, s, actions[0]);
      ExecuteKeepsInv(cfg, layout, Do(cfg, layout, s, actions[0]), actions[1..]);
    }
  }

  /**
   Under every schedule of any number of threads, requests and sweeps, whatever their
   clocks read: the tracked keys never exceed the ceiling, no bucket exceeds its key's
   limit, and a request about to be refused for capacity has a key that is not
   tracked at that moment.
   */
  lemma CeilingHolds(cfg: Config, layout: Layout, actions: seq<Action>)
    requires ValidLayout(layout) && Schedule(cfg, layout, INITIAL, actions)
    ensures var s := Execute(cfg, layout, INITIAL, actions);
            && |s.windows| <= cfg.maxKeys
            && (forall key :: key in s.windows ==> |s.windows[key]| <= LimitForKey(cfg, key))
            && (forall t: Thread :: PcOf(s, t).Refusing? ==> PcOf(s, t).key !in s.windows)
            && (forall t: Thread, u: Thread :: InGate(PcOf(s, t)) && InGate(PcOf(s, u)) ==> t == u)
  {
    InitialInv(cfg, layout);
    ExecuteKeepsInv(cfg, layout, INITIAL, actions);
    var s := Execute(cfg, layout, INITIAL, actions);
    forall t: Thread ensures PcOf(s, t).Refusing? ==> PcOf(s, t).key !in s.windows
                     ensures InGate(PcOf(s, t)) ==> s.gate == Some(t) {
      assert GateFacts(cfg, layout, s, t);
    }
  }

  // ---------------------------------------------------------------- the gate is always given back

  /** How many of its own steps a gate holder still needs at most. */
  function StepsToRelease(layout: Layout, pc: Pc): nat {
    match pc
    case Gated(_, _) => 3 * layout.shards + 5
    case Counting(_, _, swept, _, next) =>
      var rest := if next <= layout.shards then layout.shards - next else 0;
      if swept then rest + 2 else rest + 2 * layout.shards + 4
    case Sweeping(_, _, _, next) =>
      var rest := if next <= layout.shards then layout.shards - next else 0;
      rest + layout.shards + 3
    case Inserting(_, _) => 1
    case Refusing(_, _) => 1
    case _ => 0
  }

  /**
   No deadlock: a waiting request waits for a holder that can itself always move, every
   move of the holder brings it closer to giving the gate back, and moves of other
   threads leave its progress alone.
   */
  lemma GateIsReleased(cfg: Config, layout: Layout, s: State, holder: Thread, a: Action)
    requires ValidLayout(layout) && Inv(cfg, layout, s) && s.gate == Some(holder) && Enabled(s, a)
    ensures forall clock :: Enabled(s, Advance(holder, clock))
    ensures var next := Do(cfg, layout, s, a);
            if a.t == holder then
              next.gate.None? || StepsToRelease(layout, PcOf(next, holder)) < StepsToRelease(layout, PcOf(s, holder))
            else next.gate == s.gate && PcOf(next, holder) == PcOf(s, holder)
  {
    assert GateFacts(cfg, layout, s, holder);
    assert GateFacts(cfg, layout, s, a.t);
  }

  // ---------------------------------------------------------------- one bucket under a schedule

  /** The key and clock value an action decides on, if it decides at all. */
  function DecidedBy(s: State, a: Action): Option<(RateLimitKey, u64)> {
    if !a.Advance? then None
    else
      match PcOf(s, a.t)
      case Entered(key, now) => if key in s.windows then Some((key, now)) else None
      case Gated(key, now) => if key in s.windows then Some((key, now)) else None
      case Inserting(key, now) => Some((key, now))
      case _ => None
  }

  function LogOf(s: State, key: RateLimitKey): seq<u64> {
    if key in s.windows then s.windows[key] else []
  }

  /** What an action admits for a key: its clock value when it decides the key and lets it through. */
  function StepAdmits(cfg: Config, s: State, a: Action, key: RateLimitKey): seq<u64> {
    var decided := DecidedBy(s, a);
    if decided.None? || decided.value.0 != key then []
    else
      var now := decided.value.1;
      if Decide(Live(LogOf(s, key), now, cfg.budgets.windowMs), now, LimitForKey(cfg, key), cfg.budgets.windowMs).1.allowed
      then [now] else []
  }

  /** Everything a schedule admits for a key, in the order of the decisions. */
  function Admissions(cfg: Config, layout: Layout, s: State, actions: seq<Action>, key: RateLimitKey): seq<u64>
    decreases |actions|
  {
    if actions == [] then []
    else StepAdmits(cfg, s, actions[0], key) + Admissions(cfg, layout, Do(cfg, layout, s, actions[0]), actions[1..], key)
  }

  /** Whether an action sweeps the shard of a tracked key, and with which clock value. */
  function SweptBy(layout: Layout, s: State, a: Action, key: RateLimitKey): Option<u64> {
    if !a.Advance? || key !in s.windows then None
    else
      match PcOf(s, a.t)
      case Sweeping(_, _, sweepNow, next) =>
        if next < layout.shards && layout.shardOf(key) == next then Some(sweepNow) else None
      case Patrolling(sweepNow, next) =>
        if next < layout.shards && layout.shardOf(key) == next then Some(sweepNow) else None
      case _ => None
  }

  function StepTrace(layout: Layout, s: State, a: Action, key: RateLimitKey): seq<BucketOp> {
    var decided, swept := DecidedBy(s, a), SweptBy(layout, s, a, key);
    if decided.Some? && decided.value.0 == key then [Deciding(decided.value.1)]
    else if swept.Some? then [Pruning(swept.value)]
    else []
  }

  /** The decisions and sweeps that reach the bucket of a key along a schedule, in the order in which they do. */
  function Trace(cfg: Config, layout: Layout, s: State, actions: seq<Action>, key: RateLimitKey): seq<BucketOp>
    decreases |actions|
  {
    if actions == [] then []
    else StepTrace(layout, s, actions[0], key) + Trace(cfg, layout, Do(cfg, layout, s, actions[0]), actions[1..], key)
  }

  /** Each action does to a key's bucket what its trace says, and nothing else. */
  lemma StepFollowsTrace(cfg: Config, layout: Layout, s: State, a: Action, key: RateLimitKey, before: seq<u64>)
    ensures Bucket(LogOf(Do(cfg, layout, s, a), key), before + StepAdmits(cfg, s, a, key))
         == BucketRun(Bucket(LogOf(s, key), before), StepTrace(layout, s, a, key), LimitForKey(cfg, key), cfg.budgets.windowMs)
  {
    var trace := StepTrace(layout, s, a, key);
    if trace != [] {
      OneBucketStep(Bucket(LogOf(s, key), before), trace[0], LimitForKey(cfg, key), cfg.budgets.windowMs);
    }
    assert before + [] == before;
    hide Decide, Live, Swept, LimitForKey, BucketRun;
  }

  lemma {:induction false} ScheduleFollowsTrace(
      cfg: Config, layout: Layout, s: State, actions: seq<Action>, key: RateLimitKey, before: seq<u64>)
    ensures Bucket(LogOf(Execute(cfg, layout, s, actions), key), before + Admissions(cfg, layout, s, actions, key))
         == BucketRun(Bucket(LogOf(s, key), before), Trace(cfg, layout, s, actions, key), LimitForKey(cfg, key), cfg.budgets.windowMs)
    decreases |actions|
  {
    if actions == [] {
      assert before + [] == before;
    } else {
      hide Do, StepAdmits, StepTrace, BucketRun, LimitForKey, LogOf;
      var a, next := actions[0], Do(cfg, layout, s, actions[0]);
      var step, rest := StepAdmits(cfg, s, a, key), Admissions(cfg, layout, next, actions[1..], key);
      var first, later := StepTrace(layout, s, a, key), Trace(cfg, layout, next, actions[1..], key);
      assert Execute(cfg, layout, s, actions) == Execute(cfg, layout, next, actions[1..]);
      assert Admissions(cfg, layout, s, actions, key) == step + rest && Trace(cfg, layout, s, actions, key) == first + later;
      StepFollowsTrace(cfg, layout, s, a, key, before);
      ScheduleFollowsTrace(cfg, layout, next, actions[1..], key, before + step);
      hide *;
      BucketRunAppend(Bucket(LogOf(s, key), before), first, later, LimitForKey(cfg, key), cfg.budgets.windowMs);
      Regrouped(before, step, rest);
    }
  }

  lemma Regrouped(a: seq<u64>, b: seq<u64>, c: seq<u64>)
    ensures a + b + c == a + (b + c)
  {}

  /** The bucket of a key after a schedule from the empty limiter. */
  function BucketAfter(cfg: Config, layout: Layout, actions: seq<Action>, key: RateLimitKey): Bucket {
    Bucket(LogOf(Execute(cfg, layout, INITIAL, actions), key), Admissions(cfg, layout, INITIAL, actions, key))
  }

  lemma BucketAfterIsRun(cfg: Config, layout: Layout, actions: seq<Action>, key: RateLimitKey)
    ensures BucketAfter(cfg, layout, actions, key)
         == BucketRun(EMPTY_BUCKET, Trace(cfg, layout, INITIAL, actions, key), LimitForKey(cfg, key), cfg.budgets.windowMs)
  {
    ScheduleFollowsTrace(cfg, layout, INITIAL, actions, key, []);
    assert [] + Admissions(cfg, layout, INITIAL, actions, key) == Admissions(cfg, layout, INITIAL, actions, key);
  }

  /**
   After any schedule, a decision at `now` counts exactly the admissions of its key that
   are younger than the window, over the whole history, if and only if none of the
   admissions pruned before it is that young.
   */
  lemma InterleavedDecisionAgreesIff(cfg: Config, layout: Layout, actions: seq<Action>, a: Action)
    requires DecidedBy(Execute(cfg, layout, INITIAL, actions), a).Some?
    ensures var s := Execute(cfg, layout, INITIAL, actions);
            var (key, now) := DecidedBy(s, a).value;
            var window := cfg.budgets.windowMs;
            var b := BucketAfter(cfg, layout, actions, key);
            && |Live(b.log, now, window)| <= |Live(b.admitted, now, window)|
            && (StepAdmits(cfg, s, a, key) != [] <==> |Live(b.log, now, window)| < LimitForKey(cfg, key))
            && (|Live(b.log, now, window)| == |Live(b.admitted, now, window)| <==> NothingYoungMissing(b, now, window))
  {
    var s := Execute(cfg, layout, INITIAL, actions);
    var (key, now) := DecidedBy(s, a).value;
    BucketAfterIsRun(cfg, layout, actions, key);
    RunTraced(EMPTY_BUCKET, Trace(cfg, layout, INITIAL, actions, key), LimitForKey(cfg, key), cfg.budgets.windowMs);
    DecisionAgreesIff(BucketAfter(cfg, layout, actions, key), now, cfg.budgets.windowMs);
  }

  /**
   The same in clock reads: a decision at `now` counts too few exactly when an admission
   still in the window at `now` was since reached, under the schedule, by a request or a
   sweep that had read its clock a whole window past it, or by a sweep that had read it
   before.
   */
  lemma InterleavedMiscountsIff(cfg: Config, layout: Layout, actions: seq<Action>, key: RateLimitKey, now: u64)
    ensures var b := BucketAfter(cfg, layout, actions, key);
            var window := cfg.budgets.windowMs;
            |Live(b.log, now, window)| < |Live(b.admitted, now, window)| <==>
              Overtaken(Trace(cfg, layout, INITIAL, actions, key), now, LimitForKey(cfg, key), window)
  {
    BucketAfterIsRun(cfg, layout, actions, key);
    MiscountsIff(Trace(cfg, layout, INITIAL, actions, key), now, LimitForKey(cfg, key), cfg.budgets.windowMs);
  }

  /**
   On every schedule along which each decision of a key agrees with its history, no
   half-open interval of one window's length holds more admissions of the key than its
   limit, whatever the other keys, the sweeps and the clocks do.
   */
  lemma InterleavedBudget(cfg: Config, layout: Layout, actions: seq<Action>, key: RateLimitKey, from: nat)
    requires AllAgree(EMPTY_BUCKET, Trace(cfg, layout, INITIAL, actions, key), LimitForKey(cfg, key), cfg.budgets.windowMs)
    ensures CountIn(Admissions(cfg, layout, INITIAL, actions, key), from, cfg.budgets.windowMs) <= LimitForKey(cfg, key)
  {
    BucketAfterIsRun(cfg, layout, actions, key);
    AgreeingFromEmpty(Trace(cfg, layout, INITIAL, actions, key), LimitForKey(cfg, key), cfg.budgets.windowMs, from);
  }

  /** In particular on every schedule whose decisions and sweeps reach the key's bucket in the order of their clock reads. */
  lemma InterleavedBudgetInOrder(cfg: Config, layout: Layout, actions: seq<Action>, key: RateLimitKey, from: nat)
    requires InOrder(0, Trace(cfg, layout, INITIAL, actions, key))
    ensures CountIn(Admissions(cfg, layout, INITIAL, actions, key), from, cfg.budgets.windowMs) <= LimitForKey(cfg, key)
  {
    InOrderFromEmpty(0, Trace(cfg, layout, INITIAL, actions, key), LimitForKey(cfg, key), cfg.budgets.windowMs);
    InterleavedBudget(cfg, layout, actions, key, from);
  }
}
