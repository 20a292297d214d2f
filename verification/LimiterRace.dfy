/**
 One schedule of the interleaved limiter on which the clock only rises and a key's budget
 is nevertheless exceeded, because two requests decide in the other order than they read
 their clocks.
 */
module LimiterRace {
  import opened BucketLog
  import opened Collections
  import opened LimiterInterleaving
  import opened RateLimits
  import opened Words

  /** What an action reads off the clock; an advance that reads no clock may carry any value. */
  function ClockRead(a: Action): u64 {
    match a
    case Enter(_, _, now) => now
    case Advance(_, clock) => clock
    case StartPatrol(_, clock) => clock
  }

  /** No action reads an earlier clock value than one before it. */
  ghost predicate ClockNeverBack(clock: u64, actions: seq<Action>)
    decreases |actions|
  {
    actions == [] || (clock <= ClockRead(actions[0]) && ClockNeverBack(ClockRead(actions[0]), actions[1..]))
  }

  /** The actions can be taken from `s`, lead to `end` and admit `admitted` for the key. */
  ghost predicate LeadsTo(
      cfg: Config, layout: Layout, s: State, actions: seq<Action>, key: RateLimitKey, end: State, admitted: seq<u64>)
  {
    && Schedule(cfg, layout, s, actions)
    && Execute(cfg, layout, s, actions) == end
    && Admissions(cfg, layout, s, actions, key) == admitted
  }

  lemma LeadsOn(cfg: Config, layout: Layout, s: State, a: Action, rest: seq<Action>, key: RateLimitKey, end: State, admitted: seq<u64>)
    requires Enabled(s, a) && LeadsTo(cfg, layout, Do(cfg, layout, s, a), rest, key, end, admitted)
    ensures LeadsTo(cfg, layout, s, [a] + rest, key, end, StepAdmits(cfg, s, a, key) + admitted)
  {
    hide Enabled, Do, StepAdmits;
    assert ([a] + rest)[1..] == rest;
  }

  const ONE_SHARD := Layout(1, (key: RateLimitKey) => 0)

  const TWO_PER_MINUTE := Config(Budgets(60, 2, 2, 2), 10)

  /** One thread at work, and two. */
  function Alone(key: RateLimitKey, log: seq<u64>, gate: Option<Thread>, pc: Pc): State {
    State(if log == [] then map[] else map[key := log], gate, map[1 := pc])
  }

  function Pair(key: RateLimitKey, log: seq<u64>, first: Pc, second: Pc): State {
    State(map[key := log], None, map[1 := first, 2 := second])
  }

  /** The decisions of the example: the one at 115 drops both older times, the one at 105 then finds only 115. */
  lemma ExampleDecisions(key: RateLimitKey)
    requires key.Peer?
    ensures var decide := (log: seq<u64>, now: u64) => Decide(Live(log, now, 60), now, LimitForKey(TWO_PER_MINUTE, key), 60);
            && decide([], 50).0 == [50] && decide([], 50).1.allowed
            && decide([50], 51).0 == [50, 51] && decide([50], 51).1.allowed
            && decide([50, 51], 115).0 == [115] && decide([50, 51], 115).1.allowed
            && decide([115], 105).0 == [115, 105] && decide([115], 105).1.allowed
  {
    assert Live([50], 51, 60) == [50];
    assert Live([50, 51], 115, 60) == [] by {
      assert [50, 51][1..] == [51];
    }
    assert Live([115], 105, 60) == [115];
  }

  lemma RaceEnters(key: RateLimitKey)
    ensures Do(TWO_PER_MINUTE, ONE_SHARD, Alone(key, [50, 51], None, Idle), Enter(1, key, 105))
         == Alone(key, [50, 51], None, Entered(key, 105))
    ensures Do(TWO_PER_MINUTE, ONE_SHARD, Alone(key, [50, 51], None, Entered(key, 105)), Enter(2, key, 115))
         == Pair(key, [50, 51], Entered(key, 105), Entered(key, 115))
  {}

  lemma SecondThreadDecides(key: RateLimitKey)
    requires key.Peer?
    ensures Do(TWO_PER_MINUTE, ONE_SHARD, Pair(key, [50, 51], Entered(key, 105), Entered(key, 115)), Advance(2, 115))
         == Pair(key, [115], Entered(key, 105), Idle)
  {
    hide Decide, Live, LimitForKey;
    ExampleDecisions(key);
  }

  lemma FirstThreadDecides(key: RateLimitKey)
    requires key.Peer?
    ensures Do(TWO_PER_MINUTE, ONE_SHARD, Pair(key, [115], Entered(key, 105), Idle), Advance(1, 115))
         == Pair(key, [115, 105], Idle, Idle)
  {
    hide Decide, Live, LimitForKey;
    ExampleDecisions(key);
  }

  /** Two requests read their clocks as 105 and 115 and decide the other way round. */
  lemma RaceLeads(key: RateLimitKey)
    requires key.Peer?
    ensures LeadsTo(TWO_PER_MINUTE, ONE_SHARD, Alone(key, [50, 51], None, Idle),
                    [Enter(1, key, 105), Enter(2, key, 115), Advance(2, 115), Advance(1, 115)],
                    key, Pair(key, [115, 105], Idle, Idle), [115, 105])
  {
    hide Do, Decide, Live, LimitForKey;
    var cfg, layout := TWO_PER_MINUTE, ONE_SHARD;
    RaceEnters(key);
    SecondThreadDecides(key);
    FirstThreadDecides(key);
    ExampleDecisions(key);
    var s2, s3 := Pair(key, [50, 51], Entered(key, 105), Entered(key, 115)), Pair(key, [115], Entered(key, 105), Idle);
    var end := Pair(key, [115, 105], Idle, Idle);
    assert LeadsTo(cfg, layout, end, [], key, end, []);
    LeadsOn(cfg, layout, s3, Advance(1, 115), [], key, end, []);
    LeadsOn(cfg, layout, s2, Advance(2, 115), [Advance(1, 115)], key, end, [105]);
    hide LeadsTo;
    LeadsOn(cfg, layout, Alone(key, [50, 51], None, Entered(key, 105)), Enter(2, key, 115),
            [Advance(2, 115), Advance(1, 115)], key, end, [115, 105]);
    LeadsOn(cfg, layout, Alone(key, [50, 51], None, Idle), Enter(1, key, 105),
            [Enter(2, key, 115), Advance(2, 115), Advance(1, 115)], key, end, [115, 105]);
  }

  lemma SecondSteps(key: RateLimitKey)
    requires key.Peer?
    ensures var s := (log: seq<u64>, pc: Pc) => Alone(key, log, None, pc);
            && Do(TWO_PER_MINUTE, ONE_SHARD, s([50], Idle), Enter(1, key, 51)) == s([50], Entered(key, 51))
            && Do(TWO_PER_MINUTE, ONE_SHARD, s([50], Entered(key, 51)), Advance(1, 51)) == s([50, 51], Idle)
  {
    hide Decide, Live, LimitForKey;
    ExampleDecisions(key);
  }

  /** One step of the first thread. */
  function Go(s: State): State {
    Do(TWO_PER_MINUTE, ONE_SHARD, s, Advance(1, 50))
  }

  /** A request for a new key, alone: miss, gate, recheck ... */
  lemma FirstMisses(key: RateLimitKey)
    ensures Do(TWO_PER_MINUTE, ONE_SHARD, INITIAL, Enter(1, key, 50)) == Alone(key, [], None, Entered(key, 50))
    ensures Go(Alone(key, [], None, Entered(key, 50))) == Alone(key, [], None, Missed(key, 50))
    ensures Go(Alone(key, [], None, Missed(key, 50))) == Alone(key, [], Some(1), Gated(key, 50))
    ensures Go(Alone(key, [], Some(1), Gated(key, 50))) == Alone(key, [], Some(1), Counting(key, 50, false, 0, 0))
  {
    hide DecideAt, SweepShard;
  }

  /** ... count the one shard ... */
  lemma FirstCounts(key: RateLimitKey)
    ensures Go(Alone(key, [], Some(1), Counting(key, 50, false, 0, 0))) == Alone(key, [], Some(1), Counting(key, 50, false, 0, 1))
    ensures Go(Alone(key, [], Some(1), Counting(key, 50, false, 0, 1))) == Alone(key, [], Some(1), Inserting(key, 50))
  {
    assert ShardKeys(ONE_SHARD, map[], 0) == {};
    hide DecideAt, SweepShard;
  }

  /** ... insert. */
  lemma FirstInserts(key: RateLimitKey)
    requires key.Peer?
    ensures Go(Alone(key, [], Some(1), Inserting(key, 50))) == Alone(key, [50], None, Idle)
  {
    hide Decide, Live, LimitForKey, SweepShard, ShardKeys;
    ExampleDecisions(key);
  }

  function SecondRequest(key: RateLimitKey): seq<Action> {
    [Enter(1, key, 51), Advance(1, 51)]
      + [Enter(1, key, 105), Enter(2, key, 115), Advance(2, 115), Advance(1, 115)]
  }

  lemma SecondLeads(key: RateLimitKey)
    requires key.Peer?
    ensures LeadsTo(TWO_PER_MINUTE, ONE_SHARD, Alone(key, [50], None, Idle), SecondRequest(key),
                    key, Pair(key, [115, 105], Idle, Idle), [51, 115, 105])
  {
    var cfg, layout, end := TWO_PER_MINUTE, ONE_SHARD, Pair(key, [115, 105], Idle, Idle);
    var race := [Enter(1, key, 105), Enter(2, key, 115), Advance(2, 115), Advance(1, 115)];
    SecondSteps(key);
    ExampleDecisions(key);
    RaceLeads(key);
    hide Do, Decide, Live, LimitForKey, LeadsTo;
    LeadsOn(cfg, layout, Alone(key, [50], None, Entered(key, 51)), Advance(1, 51), race, key, end, [115, 105]);
    LeadsOn(cfg, layout, Alone(key, [50], None, Idle), Enter(1, key, 51), [Advance(1, 51)] + race, key, end, [51, 115, 105]);
    assert [Enter(1, key, 51)] + ([Advance(1, 51)] + race) == SecondRequest(key);
  }

  /** `n` steps of the first thread, and then the rest of the example. */
  function Steps(n: nat, key: RateLimitKey): seq<Action> {
    if n == 0 then SecondRequest(key) else [Advance(1, 50)] + Steps(n - 1, key)
  }

  lemma StepLeads(key: RateLimitKey, s: State, n: nat, end: State, admitted: seq<u64>)
    requires n > 0 && !PcOf(s, 1).Idle? && (PcOf(s, 1).Missed? ==> s.gate.None?)
    requires LeadsTo(TWO_PER_MINUTE, ONE_SHARD, Go(s), Steps(n - 1, key), key, end, admitted)
    ensures LeadsTo(TWO_PER_MINUTE, ONE_SHARD, s, Steps(n, key), key, end,
                    StepAdmits(TWO_PER_MINUTE, s, Advance(1, 50), key) + admitted)
  {
    LeadsOn(TWO_PER_MINUTE, ONE_SHARD, s, Advance(1, 50), Steps(n - 1, key), key, end, admitted);
  }

  /** The whole schedule of the example. */
  function RaceSchedule(key: RateLimitKey): seq<Action> {
    [Enter(1, key, 50)] + Steps(6, key)
  }

  lemma InsertLeads(key: RateLimitKey)
    requires key.Peer?
    ensures LeadsTo(TWO_PER_MINUTE, ONE_SHARD, Alone(key, [], Some(1), Counting(key, 50, false, 0, 0)), Steps(3, key),
                    key, Pair(key, [115, 105], Idle, Idle), [50, 51, 115, 105])
  {
    hide Go, Do, Decide, Live, LimitForKey, LeadsTo;
    var end := Pair(key, [115, 105], Idle, Idle);
    FirstCounts(key);
    FirstInserts(key);
    SecondLeads(key);
    ExampleDecisions(key);
    StepLeads(key, Alone(key, [], Some(1), Inserting(key, 50)), 1, end, [51, 115, 105]);
    StepLeads(key, Alone(key, [], Some(1), Counting(key, 50, false, 0, 1)), 2, end, [50, 51, 115, 105]);
    StepLeads(key, Alone(key, [], Some(1), Counting(key, 50, false, 0, 0)), 3, end, [50, 51, 115, 105]);
  }

  lemma RaceScheduleLeads(key: RateLimitKey)
    requires key.Peer?
    ensures LeadsTo(TWO_PER_MINUTE, ONE_SHARD, INITIAL, RaceSchedule(key), key, Pair(key, [115, 105], Idle, Idle), [50, 51, 115, 105])
  {
    hide Go, Do, Decide, Live, LimitForKey, LeadsTo, Steps;
    var end := Pair(key, [115, 105], Idle, Idle);
    FirstMisses(key);
    InsertLeads(key);
    StepLeads(key, Alone(key, [], Some(1), Gated(key, 50)), 4, end, [50, 51, 115, 105]);
    StepLeads(key, Alone(key, [], None, Missed(key, 50)), 5, end, [50, 51, 115, 105]);
    StepLeads(key, Alone(key, [], None, Entered(key, 50)), 6, end, [50, 51, 115, 105]);
    LeadsOn(TWO_PER_MINUTE, ONE_SHARD, INITIAL, Enter(1, key, 50), Steps(6, key), key, end, [50, 51, 115, 105]);
  }

  lemma {:induction false} StepsNeverBack(n: nat, key: RateLimitKey)
    ensures ClockNeverBack(50, Steps(n, key))
  {
    if n == 0 {
      var a := SecondRequest(key);
      assert a[1..][1..][1..][1..][1..][1..] == [];
      assert ClockNeverBack(115, a[1..][1..][1..][1..][1..]);
      assert ClockNeverBack(105, a[1..][1..][1..]);
      assert ClockNeverBack(51, a[1..]);
    } else {
      StepsNeverBack(n - 1, key);
      assert Steps(n, key)[1..] == Steps(n - 1, key);
    }
  }

  /**
   A clock that never goes backwards is not enough. Clock values are read before the
   bucket's lock is taken, so two requests may decide in the other order: on this
   schedule the clock reads only rise (50, 51, 105, 115), yet a key with a limit of two is
   admitted at 50, 51 and 105, all within one window length of 60.
   */
  lemma RacingDecisionsOverspend(key: RateLimitKey)
    requires key.Peer?
    ensures ValidLayout(ONE_SHARD) && LimitForKey(TWO_PER_MINUTE, key) == 2
    ensures ClockNeverBack(0, RaceSchedule(key)) && Schedule(TWO_PER_MINUTE, ONE_SHARD, INITIAL, RaceSchedule(key))
    ensures var admitted := Admissions(TWO_PER_MINUTE, ONE_SHARD, INITIAL, RaceSchedule(key), key);
            admitted == [50, 51, 115, 105] && CountIn(admitted, 50, TWO_PER_MINUTE.budgets.windowMs) == 3
  {
    RaceScheduleLeads(key);
    StepsNeverBack(6, key);
    assert RaceSchedule(key)[1..] == Steps(6, key);
    CountOfExample();
    hide Schedule, Admissions, Execute, Steps;
  }
}
