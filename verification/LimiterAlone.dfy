/**
 The interleaved limiter refines the sequential one: a request whose thread runs without
 interference does to the tracked logs exactly what one sequential request does.
 */
module LimiterAlone {
  import opened Collections
  import opened LimiterInterleaving
  import opened RateLimits
  import opened Words

  /** `n` steps of one thread, with the same clock read at each. */
  function Steps(cfg: Config, layout: Layout, s: State, t: Thread, clock: u64, n: nat): State
    decreases n
  {
    if n == 0 then s else Steps(cfg, layout, Do(cfg, layout, s, Advance(t, clock)), t, clock, n - 1)
  }

  lemma {:induction false} StepsAdd(cfg: Config, layout: Layout, s: State, t: Thread, clock: u64, m: nat, n: nat)
    ensures Steps(cfg, layout, s, t, clock, m + n) == Steps(cfg, layout, Steps(cfg, layout, s, t, clock, m), t, clock, n)
    decreases m
  {
    hide Do;
    if m > 0 {
      StepsAdd(cfg, layout, Do(cfg, layout, s, Advance(t, clock)), t, clock, m - 1, n);
    }
  }

  lemma StepOnce(cfg: Config, layout: Layout, s: State, t: Thread, clock: u64)
    ensures Steps(cfg, layout, s, t, clock, 1) == AdvanceThread(cfg, layout, s, t, clock)
  {
    assert Steps(cfg, layout, s, t, clock, 1) == Steps(cfg, layout, AdvanceThread(cfg, layout, s, t, clock), t, clock, 0);
  }

  lemma MovedTwice(s: State, t: Thread, pc: Pc, next: Pc)
    ensures Moved(Moved(s, t, pc), t, next) == Moved(s, t, next)
    ensures PcOf(Moved(s, t, pc), t) == pc
  {}

  // ---------------------------------------------------------------- counting and sweeping, undisturbed

  lemma CountsAll(layout: Layout, w: Windows)
    requires ValidLayout(layout)
    ensures |CountedKeys(layout, w, layout.shards)| == |w| && CountedKeys(layout, w, 0) == {}
  {
    assert CountedKeys(layout, w, layout.shards) == w.Keys;
    assert |w.Keys| == |w|;
  }

  /** A pass over the remaining shards arrives at the number of all tracked keys. */
  lemma {:induction false} CountingAlone(
      cfg: Config, layout: Layout, s: State, t: Thread, clock: u64, key: RateLimitKey, now: u64, swept: bool, next: nat) returns (n: nat)
    requires ValidLayout(layout) && next <= layout.shards
    requires PcOf(s, t) == Counting(key, now, swept, |CountedKeys(layout, s.windows, next)|, next)
    ensures Steps(cfg, layout, s, t, clock, n) == Moved(s, t, Counting(key, now, swept, |s.windows|, layout.shards))
    decreases layout.shards - next
  {
    if next == layout.shards {
      CountsAll(layout, s.windows);
      n := 0;
      assert s.pcs[t := s.pcs[t]] == s.pcs;
    } else {
      var pc := Counting(key, now, swept, |CountedKeys(layout, s.windows, next + 1)|, next + 1);
      CountStep(layout, s.windows, next);
      assert AdvanceThread(cfg, layout, s, t, clock) == Moved(s, t, pc);
      hide Steps, AdvanceThread, CountedKeys, ShardKeys;
      MovedTwice(s, t, pc, Counting(key, now, swept, |s.windows|, layout.shards));
      var rest := CountingAlone(cfg, layout, Moved(s, t, pc), t, clock, key, now, swept, next + 1);
      StepOnce(cfg, layout, s, t, clock);
      StepsAdd(cfg, layout, s, t, clock, 1, rest);
      n := 1 + rest;
    }
  }

  /** The logs after the shards before `next` have been swept. */
  function SweptBelow(layout: Layout, w: Windows, next: nat, now: u64, window: u64): Windows {
    map key | key in w && (layout.shardOf(key) >= next || Swept(w[key], now, window) != []) ::
      if layout.shardOf(key) < next then Swept(w[key], now, window) else w[key]
  }

  lemma SweepsOneShard(cfg: Config, layout: Layout, w: Windows, next: nat, now: u64)
    ensures SweepShard(cfg, layout, SweptBelow(layout, w, next, now, cfg.budgets.windowMs), next, now)
         == SweptBelow(layout, w, next + 1, now, cfg.budgets.windowMs)
  {
    hide Swept;
  }

  lemma SweepsAll(layout: Layout, w: Windows, now: u64, window: u64)
    requires ValidLayout(layout)
    ensures SweptBelow(layout, w, layout.shards, now, window) == Sweep(w, now, window)
    ensures SweptBelow(layout, w, 0, now, window) == w
  {
    hide Swept;
  }

  /** A pass over the remaining shards leaves what one sweep of the whole map leaves. */
  lemma {:induction false} SweepingAlone(
      cfg: Config, layout: Layout, s: State, t: Thread, clock: u64, w: Windows, key: RateLimitKey, now: u64, sweepNow: u64, next: nat)
    returns (n: nat)
    requires ValidLayout(layout) && next <= layout.shards
    requires PcOf(s, t) == Sweeping(key, now, sweepNow, next)
    requires s.windows == SweptBelow(layout, w, next, sweepNow, cfg.budgets.windowMs)
    ensures Steps(cfg, layout, s, t, clock, n)
         == Moved(s, t, Sweeping(key, now, sweepNow, layout.shards)).(windows := Sweep(w, sweepNow, cfg.budgets.windowMs))
    decreases layout.shards - next
  {
    hide SweptBelow, Sweep, SweepShard;
    if next == layout.shards {
      SweepsAll(layout, w, sweepNow, cfg.budgets.windowMs);
      n := 0;
      assert s.pcs[t := s.pcs[t]] == s.pcs;
    } else {
      var swept := SweptBelow(layout, w, next + 1, sweepNow, cfg.budgets.windowMs);
      var after := Moved(s, t, Sweeping(key, now, sweepNow, next + 1)).(windows := swept);
      SweepsOneShard(cfg, layout, w, next, sweepNow);
      assert AdvanceThread(cfg, layout, s, t, clock) == after;
      hide Steps, AdvanceThread;
      var rest := SweepingAlone(cfg, layout, after, t, clock, w, key, now, sweepNow, next + 1);
      StepOnce(cfg, layout, s, t, clock);
      StepsAdd(cfg, layout, s, t, clock, 1, rest);
      n := 1 + rest;
    }
  }

  // ---------------------------------------------------------------- one request

  lemma CountEnds(cfg: Config, layout: Layout, s: State, t: Thread, clock: u64, key: RateLimitKey, now: u64, swept: bool)
    ensures AdvanceThread(cfg, layout, Moved(s, t, Counting(key, now, swept, |s.windows|, layout.shards)), t, clock)
         == Moved(s, t, if |s.windows| < cfg.maxKeys then Inserting(key, now)
                        else if swept then Refusing(key, now) else Sweeping(key, now, clock, 0))
  {
    hide DecideAt, SweepShard;
  }

  lemma RequestEnds(cfg: Config, layout: Layout, s: State, t: Thread, clock: u64, key: RateLimitKey, now: u64)
    ensures AdvanceThread(cfg, layout, Moved(s, t, Inserting(key, now)), t, clock)
         == Released(s, t).(windows := DecideAt(cfg, s.windows, key, now))
    ensures AdvanceThread(cfg, layout, Moved(s, t, Refusing(key, now)), t, clock) == Released(s, t)
    ensures Released(s, t).(windows := s.windows) == Released(s, t)
  {
    hide DecideAt, SweepShard;
  }

  lemma SweepEnds(cfg: Config, layout: Layout, s: State, t: Thread, clock: u64, w: Windows, key: RateLimitKey, now: u64)
    ensures AdvanceThread(cfg, layout, Moved(s, t, Sweeping(key, now, clock, layout.shards)).(windows := w), t, clock)
         == Moved(s, t, Counting(key, now, true, 0, 0)).(windows := w)
  {
    hide DecideAt, SweepShard;
  }

  /** From a fresh count to the decision or the refusal, with the gate given back. */
  lemma DecidesAfterCount(cfg: Config, layout: Layout, s: State, t: Thread, clock: u64, key: RateLimitKey, now: u64, swept: bool)
    returns (n: nat)
    requires ValidLayout(layout) && PcOf(s, t) == Counting(key, now, swept, 0, 0)
    requires |s.windows| < cfg.maxKeys || swept
    ensures Steps(cfg, layout, s, t, clock, n)
         == Released(s, t).(windows := if |s.windows| < cfg.maxKeys then DecideAt(cfg, s.windows, key, now) else s.windows)
  {
    hide Steps, AdvanceThread, DecideAt, CountedKeys, Moved, Released;
    CountsAll(layout, s.windows);
    var counting := CountingAlone(cfg, layout, s, t, clock, key, now, swept, 0);
    var counted := Moved(s, t, Counting(key, now, swept, |s.windows|, layout.shards));
    var next := Moved(s, t, if |s.windows| < cfg.maxKeys then Inserting(key, now) else Refusing(key, now));
    CountEnds(cfg, layout, s, t, clock, key, now, swept);
    RequestEnds(cfg, layout, s, t, clock, key, now);
    StepOnce(cfg, layout, counted, t, clock);
    StepOnce(cfg, layout, next, t, clock);
    StepsAdd(cfg, layout, s, t, clock, counting, 1);
    StepsAdd(cfg, layout, s, t, clock, counting + 1, 1);
    n := counting + 1 + 1;
  }

  /** A full map is swept before the second count. */
  lemma SweepsWhenFull(cfg: Config, layout: Layout, s: State, t: Thread, clock: u64, key: RateLimitKey, now: u64) returns (n: nat)
    requires ValidLayout(layout) && PcOf(s, t) == Counting(key, now, false, 0, 0) && |s.windows| >= cfg.maxKeys
    ensures Steps(cfg, layout, s, t, clock, n)
         == Moved(s, t, Counting(key, now, true, 0, 0)).(windows := Sweep(s.windows, clock, cfg.budgets.windowMs))
  {
    hide Sweep, SweptBelow, SweepShard, Steps, AdvanceThread, CountedKeys;
    CountsAll(layout, s.windows);
    SweepsAll(layout, s.windows, clock, cfg.budgets.windowMs);
    var counting := CountingAlone(cfg, layout, s, t, clock, key, now, false, 0);
    var counted := Moved(s, t, Counting(key, now, false, |s.windows|, layout.shards));
    var begun := Moved(s, t, Sweeping(key, now, clock, 0));
    CountEnds(cfg, layout, s, t, clock, key, now, false);
    MovedTwice(s, t, Sweeping(key, now, clock, 0), Sweeping(key, now, clock, layout.shards));
    var sweeping := SweepingAlone(cfg, layout, begun, t, clock, s.windows, key, now, clock, 0);
    var swept := Moved(s, t, Sweeping(key, now, clock, layout.shards)).(windows := Sweep(s.windows, clock, cfg.budgets.windowMs));
    SweepEnds(cfg, layout, s, t, clock, Sweep(s.windows, clock, cfg.budgets.windowMs), key, now);
    StepOnce(cfg, layout, counted, t, clock);
    StepOnce(cfg, layout, swept, t, clock);
    StepsAdd(cfg, layout, s, t, clock, counting, 1);
    StepsAdd(cfg, layout, s, t, clock, counting + 1, sweeping);
    StepsAdd(cfg, layout, s, t, clock, counting + 1 + sweeping, 1);
    n := counting + 1 + sweeping + 1;
  }

  /**
   A request that runs alone, from a state in which nobody holds the gate, ends idle with
   the gate free, and leaves exactly the logs that one sequential request leaves: tracked
   key, new key, sweep when full, refusal when still full.
   */
  lemma AloneIsSequential(cfg: Config, layout: Layout, s: State, t: Thread, key: RateLimitKey, now: u64, clock: u64) returns (n: nat)
    requires ValidLayout(layout) && PcOf(s, t).Idle? && s.gate.None?
    ensures var end := Steps(cfg, layout, Do(cfg, layout, s, Enter(t, key, now)), t, clock, n);
            && end.windows == Check(cfg, s.windows, key, now, clock).0
            && end.gate.None? && PcOf(end, t).Idle?
            && forall u: Thread :: u != t ==> PcOf(end, u) == PcOf(s, u)
  {
    var entered := Moved(s, t, Entered(key, now));
    if key in s.windows {
      StepOnce(cfg, layout, entered, t, clock);
      n := 1;
    } else {
      var gated := Moved(s, t, Counting(key, now, false, 0, 0)).(gate := Some(t));
      ReachesCount(cfg, layout, s, t, key, now, clock);
      var more := NewKeyAlone(cfg, layout, gated, t, clock, key, now);
      StepsAdd(cfg, layout, entered, t, clock, 3, more);
      NewKeyIsCheck(cfg, s.windows, key, now, clock);
      hide Steps, Check, DecideAt;
      n := 3 + more;
    }
  }

  lemma ReachesCount(cfg: Config, layout: Layout, s: State, t: Thread, key: RateLimitKey, now: u64, clock: u64)
    requires key !in s.windows
    ensures Steps(cfg, layout, Moved(s, t, Entered(key, now)), t, clock, 3)
         == Moved(s, t, Counting(key, now, false, 0, 0)).(gate := Some(t))
  {
    var entered, missed := Moved(s, t, Entered(key, now)), Moved(s, t, Missed(key, now));
    var gated := Moved(s, t, Gated(key, now)).(gate := Some(t));
    hide DecideAt, SweepShard, Steps;
    MovedTwice(s, t, Entered(key, now), Missed(key, now));
    MovedTwice(s, t, Missed(key, now), Gated(key, now));
    MovedTwice(s, t, Gated(key, now), Counting(key, now, false, 0, 0));
    assert AdvanceThread(cfg, layout, entered, t, clock) == missed;
    assert AdvanceThread(cfg, layout, missed, t, clock) == gated;
    StepOnce(cfg, layout, entered, t, clock);
    StepOnce(cfg, layout, missed, t, clock);
    StepOnce(cfg, layout, gated, t, clock);
    StepsAdd(cfg, layout, entered, t, clock, 1, 1);
    StepsAdd(cfg, layout, entered, t, clock, 2, 1);
  }

  /** What a new key does to the logs. */
  function AfterNewKey(cfg: Config, w: Windows, key: RateLimitKey, now: u64, sweepNow: u64): Windows {
    var room := if |w| >= cfg.maxKeys then Sweep(w, sweepNow, cfg.budgets.windowMs) else w;
    if |room| >= cfg.maxKeys then room else DecideAt(cfg, room, key, now)
  }

  lemma NewKeyIsCheck(cfg: Config, w: Windows, key: RateLimitKey, now: u64, sweepNow: u64)
    requires key !in w
    ensures Check(cfg, w, key, now, sweepNow).0 == AfterNewKey(cfg, w, key, now, sweepNow)
  {
    assert Live([], now, cfg.budgets.windowMs) == [];
    hide Decide, Live, Swept;
  }

  lemma NewKeyAlone(cfg: Config, layout: Layout, s: State, t: Thread, clock: u64, key: RateLimitKey, now: u64) returns (n: nat)
    requires ValidLayout(layout) && PcOf(s, t) == Counting(key, now, false, 0, 0)
    ensures Steps(cfg, layout, s, t, clock, n) == Released(s, t).(windows := AfterNewKey(cfg, s.windows, key, now, clock))
  {
    hide Steps, DecideAt, Sweep;
    if |s.windows| < cfg.maxKeys {
      n := DecidesAfterCount(cfg, layout, s, t, clock, key, now, false);
    } else {
      var sweeping := SweepsWhenFull(cfg, layout, s, t, clock, key, now);
      var swept := Moved(s, t, Counting(key, now, true, 0, 0)).(windows := Sweep(s.windows, clock, cfg.budgets.windowMs));
      var deciding := DecidesAfterCount(cfg, layout, swept, t, clock, key, now, true);
      StepsAdd(cfg, layout, s, t, clock, sweeping, deciding);
      n := sweeping + deciding;
    }
  }
}
