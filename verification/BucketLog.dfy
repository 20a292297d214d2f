/**
 One key's log on its own: decisions and sweeps in the order in which they reach the
 bucket, which need not be the order in which their clocks were read. Says exactly when
 a decision on the pruned log agrees with the whole history, and proves the budget for
 every order in which it does.
 */
module BucketLog {
  import opened Collections
  import opened RateLimits
  import opened Words

  /** What reaches a bucket; `now` is the clock value the request or sweep read, however long ago. */
  datatype BucketOp = Deciding(now: u64) | Pruning(now: u64)

  /** A bucket beside every admission it ever granted, in the order of the decisions. */
  datatype Bucket = Bucket(log: seq<u64>, admitted: seq<u64>)

  const EMPTY_BUCKET := Bucket([], [])

  function BucketStep(b: Bucket, op: BucketOp, limit: u32, window: u64): Bucket {
    match op
    case Deciding(now) =>
      var (log, decision) := Decide(Live(b.log, now, window), now, limit, window);
      Bucket(log, if decision.allowed then b.admitted + [now] else b.admitted)
    case Pruning(now) => Bucket(Swept(b.log, now, window), b.admitted)
  }

  function BucketRun(b: Bucket, ops: seq<BucketOp>, limit: u32, window: u64): Bucket
    decreases |ops|
  {
    if ops == [] then b else BucketRun(BucketStep(b, ops[0], limit, window), ops[1..], limit, window)
  }

  lemma {:induction false} BucketRunAppend(b: Bucket, first: seq<BucketOp>, rest: seq<BucketOp>, limit: u32, window: u64)
    ensures BucketRun(b, first + rest, limit, window) == BucketRun(BucketRun(b, first, limit, window), rest, limit, window)
    decreases |first|
  {
    if first == [] {
      assert first + rest == rest;
    } else {
      assert (first + rest)[1..] == first[1..] + rest;
      BucketRunAppend(BucketStep(b, first[0], limit, window), first[1..], rest, limit, window);
    }
  }

  lemma OneBucketStep(b: Bucket, op: BucketOp, limit: u32, window: u64)
    ensures BucketRun(b, [op], limit, window) == BucketStep(b, op, limit, window)
  {
    assert [op][1..] == [];
  }

  // ---------------------------------------------------------------- what has been pruned

  /** The admissions no longer in the log. */
  ghost function Missing(b: Bucket): multiset<u64> {
    multiset(b.admitted) - multiset(b.log)
  }

  ghost predicate Traced(b: Bucket) {
    multiset(b.log) <= multiset(b.admitted)
  }

  /** No admission missing from the log is still in the window at `now`. */
  ghost predicate NothingYoungMissing(b: Bucket, now: u64, window: u64) {
    forall x: u64 :: x in Missing(b) ==> !InWindow(x, now, window)
  }

  /** The log without its head, as multisets. */
  lemma HeadAndTail(times: seq<u64>)
    requires times != []
    ensures multiset(times) == multiset{times[0]} + multiset(times[1..])
  {
    assert times == [times[0]] + times[1..];
  }

  lemma {:induction false} LiveMembers(times: seq<u64>, now: u64, window: u64, x: u64)
    ensures multiset(Live(times, now, window))[x] == if InWindow(x, now, window) then multiset(times)[x] else 0
    decreases |times|
  {
    if times != [] {
      LiveMembers(times[1..], now, window, x);
      HeadAndTail(times);
      var head := if InWindow(times[0], now, window) then [times[0]] else [];
      assert multiset(head + Live(times[1..], now, window)) == multiset(head) + multiset(Live(times[1..], now, window));
    }
  }

  lemma {:induction false} SweptMembers(times: seq<u64>, now: u64, window: u64, x: u64)
    ensures multiset(Swept(times, now, window))[x] == if x <= now && now - x < window then multiset(times)[x] else 0
    decreases |times|
  {
    if times != [] {
      SweptMembers(times[1..], now, window, x);
      HeadAndTail(times);
      var head := if times[0] <= now && now - times[0] < window then [times[0]] else [];
      assert multiset(head + Swept(times[1..], now, window)) == multiset(head) + multiset(Swept(times[1..], now, window));
    }
  }

  lemma SameSizeSubset(a: multiset<u64>, b: multiset<u64>)
    requires a <= b && |a| == |b|
    ensures a == b
  {
    assert b == a + (b - a);
    assert |b - a| == 0;
  }

  /**
   A decision at `now` counts what the whole history would count if and only if no
   admission pruned before it is younger than the window at `now`; otherwise it counts
   fewer.
   */
  lemma DecisionAgreesIff(b: Bucket, now: u64, window: u64)
    requires Traced(b)
    ensures |Live(b.log, now, window)| <= |Live(b.admitted, now, window)|
    ensures |Live(b.log, now, window)| == |Live(b.admitted, now, window)| <==> NothingYoungMissing(b, now, window)
  {
    hide Live, InWindow;
    var kept, young := multiset(Live(b.log, now, window)), multiset(Live(b.admitted, now, window));
    forall x: u64
      ensures kept[x] == (if InWindow(x, now, window) then multiset(b.log)[x] else 0)
      ensures young[x] == if InWindow(x, now, window) then multiset(b.admitted)[x] else 0
    {
      LiveMembers(b.log, now, window, x);
      LiveMembers(b.admitted, now, window, x);
    }
    assert kept <= young;
    assert young == kept + (young - kept);
    if |kept| == |young| {
      SameSizeSubset(kept, young);
      forall x: u64 | x in Missing(b) ensures !InWindow(x, now, window) {
        assert multiset(b.admitted)[x] > multiset(b.log)[x];
        assert kept[x] == young[x];
      }
    }
    if NothingYoungMissing(b, now, window) {
      forall x: u64 ensures kept[x] == young[x] {
        if InWindow(x, now, window) {
          assert x !in Missing(b);
        }
      }
      assert kept == young;
    }
  }

  lemma StepTraced(b: Bucket, op: BucketOp, limit: u32, window: u64)
    requires Traced(b)
    ensures Traced(BucketStep(b, op, limit, window))
  {
    var next := BucketStep(b, op, limit, window);
    match op {
      case Deciding(now) =>
        var kept: multiset<u64>, all: multiset<u64> := multiset(Live(b.log, now, window)), multiset(b.admitted);
        forall x: u64 ensures kept[x] <= all[x] {
          LiveMembers(b.log, now, window, x);
        }
        assert kept <= all;
      case Pruning(now) =>
        var kept: multiset<u64>, all: multiset<u64> := multiset(next.log), multiset(b.admitted);
        forall x: u64 ensures kept[x] <= all[x] {
          SweptMembers(b.log, now, window, x);
        }
    }
  }

  lemma {:induction false} RunTraced(b: Bucket, ops: seq<BucketOp>, limit: u32, window: u64)
    requires Traced(b)
    ensures Traced(BucketRun(b, ops, limit, window))
    decreases |ops|
  {
    if ops != [] {
      StepTraced(b, ops[0], limit, window);
      RunTraced(BucketStep(b, ops[0], limit, window), ops[1..], limit, window);
    }
  }

  // ---------------------------------------------------------------- the budget

  /** Every decision of the list finds nothing young missing when it is taken. */
  ghost predicate AllAgree(b: Bucket, ops: seq<BucketOp>, limit: u32, window: u64)
    decreases |ops|
  {
    ops == [] ||
    ((ops[0].Deciding? ==> NothingYoungMissing(b, ops[0].now, window))
     && AllAgree(BucketStep(b, ops[0], limit, window), ops[1..], limit, window))
  }

  ghost predicate Budgeted(b: Bucket, limit: u32, window: u64) {
    forall from: nat :: CountIn(b.admitted, from, window) <= limit
  }

  /** Times in one interval of a window's length are in each other's window, whichever came first. */
  lemma {:induction false} IntervalIsLive(times: seq<u64>, from: nat, now: u64, window: u64)
    requires from <= now < from + window
    ensures CountIn(times, from, window) <= |Live(times, now, window)|
    decreases |times|
  {
    if times != [] {
      IntervalIsLive(times[1..], from, now, window);
    }
  }

  lemma StepBudgeted(b: Bucket, op: BucketOp, limit: u32, window: u64)
    requires Traced(b) && Budgeted(b, limit, window)
    requires op.Deciding? ==> NothingYoungMissing(b, op.now, window)
    ensures Budgeted(BucketStep(b, op, limit, window), limit, window)
  {
    var next := BucketStep(b, op, limit, window);
    if op.Deciding? && next.admitted != b.admitted {
      DecisionAgreesIff(b, op.now, window);
      forall from: nat ensures CountIn(next.admitted, from, window) <= limit {
        CountInAppend(b.admitted, op.now, from, window);
        if from <= op.now < from + window {
          IntervalIsLive(b.admitted, from, op.now, window);
        }
      }
    }
  }

  /** If every decision agrees with the history, no interval of one window's length holds more than the limit. */
  lemma {:induction false} AgreeingBudgeted(b: Bucket, ops: seq<BucketOp>, limit: u32, window: u64)
    requires Traced(b) && Budgeted(b, limit, window) && AllAgree(b, ops, limit, window)
    ensures Budgeted(BucketRun(b, ops, limit, window), limit, window)
    decreases |ops|
  {
    if ops != [] {
      StepTraced(b, ops[0], limit, window);
      StepBudgeted(b, ops[0], limit, window);
      AgreeingBudgeted(BucketStep(b, ops[0], limit, window), ops[1..], limit, window);
    }
  }

  lemma AgreeingFromEmpty(ops: seq<BucketOp>, limit: u32, window: u64, from: nat)
    requires AllAgree(EMPTY_BUCKET, ops, limit, window)
    ensures CountIn(BucketRun(EMPTY_BUCKET, ops, limit, window).admitted, from, window) <= limit
  {
    AgreeingBudgeted(EMPTY_BUCKET, ops, limit, window);
  }

  // ---------------------------------------------------------------- in clock order

  /** Decisions and sweeps reach the bucket in the order of their clock values. */
  ghost predicate InOrder(clock: u64, ops: seq<BucketOp>)
    decreases |ops|
  {
    ops == [] || (clock <= ops[0].now && InOrder(ops[0].now, ops[1..]))
  }

  /** Everything admitted is at or before the clock, and everything missing has aged out by then. */
  ghost predicate SettledAt(b: Bucket, clock: u64, window: u64) {
    && Traced(b)
    && (forall x: u64 :: x in b.admitted ==> x <= clock)
    && NothingYoungMissing(b, clock, window)
  }

  lemma SettledLater(b: Bucket, clock: u64, later: u64, window: u64)
    requires SettledAt(b, clock, window) && clock <= later
    ensures SettledAt(b, later, window)
  {
    forall x: u64 | x in Missing(b) ensures !InWindow(x, later, window) {
      assert x in multiset(b.admitted);
      assert x in b.admitted;
    }
  }

  lemma SettledStep(b: Bucket, op: BucketOp, limit: u32, window: u64)
    requires SettledAt(b, op.now, window)
    ensures SettledAt(BucketStep(b, op, limit, window), op.now, window)
  {
    var next := BucketStep(b, op, limit, window);
    StepTraced(b, op, limit, window);
    forall x: u64 | x in Missing(next) ensures !InWindow(x, op.now, window) {
      MissingStep(b, op, limit, window, x);
    }
  }

  function Count(times: seq<u64>, x: u64): nat {
    multiset(times)[x]
  }

  predicate Keeps(op: BucketOp, x: u64, window: u64) {
    match op
    case Deciding(now) => InWindow(x, now, window)
    case Pruning(now) => x <= now && now - x < window
  }

  /** A step drops the copies of a time it does not keep; a new admission enters the log and the history alike. */
  lemma StepCounts(b: Bucket, op: BucketOp, limit: u32, window: u64, x: u64)
    ensures var next := BucketStep(b, op, limit, window);
            Count(next.admitted, x) + (if Keeps(op, x, window) then Count(b.log, x) else 0)
            == Count(next.log, x) + Count(b.admitted, x)
  {
    match op {
      case Deciding(now) =>
        LiveMembers(b.log, now, window, x);
        hide Live, InWindow;
        CountAppended(Live(b.log, now, window), now, x);
        CountAppended(b.admitted, now, x);
      case Pruning(now) =>
        SweptMembers(b.log, now, window, x);
        hide Swept;
    }
  }

  lemma CountAppended(times: seq<u64>, now: u64, x: u64)
    ensures Count(times + [now], x) == Count(times, x) + if x == now then 1 else 0
  {}

  lemma MissingCount(b: Bucket, x: u64)
    ensures x in Missing(b) <==> Count(b.admitted, x) > Count(b.log, x)
    ensures Count(b.admitted, x) > 0 ==> x in b.admitted
  {
    assert Count(b.admitted, x) > 0 ==> x in multiset(b.admitted);
  }

  /** In clock order a step loses only what has aged out. */
  lemma MissingStep(b: Bucket, op: BucketOp, limit: u32, window: u64, x: u64)
    requires SettledAt(b, op.now, window)
    requires x in Missing(BucketStep(b, op, limit, window))
    ensures !InWindow(x, op.now, window)
  {
    StepCounts(b, op, limit, window, x);
    MissingCount(b, x);
    MissingCount(BucketStep(b, op, limit, window), x);
    hide Missing, BucketStep, Count;
  }

  lemma {:induction false} InOrderAgrees(b: Bucket, clock: u64, ops: seq<BucketOp>, limit: u32, window: u64)
    requires SettledAt(b, clock, window) && InOrder(clock, ops)
    ensures AllAgree(b, ops, limit, window)
    decreases |ops|
  {
    if ops != [] {
      SettledLater(b, clock, ops[0].now, window);
      SettledStep(b, ops[0], limit, window);
      InOrderAgrees(BucketStep(b, ops[0], limit, window), ops[0].now, ops[1..], limit, window);
    }
  }

  /** In clock order every decision agrees with the history. */
  lemma InOrderFromEmpty(clock: u64, ops: seq<BucketOp>, limit: u32, window: u64)
    requires InOrder(clock, ops)
    ensures AllAgree(EMPTY_BUCKET, ops, limit, window)
  {
    InOrderAgrees(EMPTY_BUCKET, clock, ops, limit, window);
  }

  // ---------------------------------------------------------------- exactly when a decision miscounts

  /** The bucket after the first `n` of the operations. */
  function BucketAt(ops: seq<BucketOp>, n: nat, limit: u32, window: u64): Bucket
    requires n <= |ops|
  {
    if n == 0 then EMPTY_BUCKET else BucketStep(BucketAt(ops, n - 1, limit, window), ops[n - 1], limit, window)
  }

  lemma {:induction false} BucketAtIsRun(ops: seq<BucketOp>, n: nat, limit: u32, window: u64)
    requires n <= |ops|
    ensures BucketAt(ops, n, limit, window) == BucketRun(EMPTY_BUCKET, ops[..n], limit, window)
  {
    if n > 0 {
      BucketAtIsRun(ops, n - 1, limit, window);
      assert ops[..n] == ops[..n - 1] + [ops[n - 1]];
      BucketRunAppend(EMPTY_BUCKET, ops[..n - 1], [ops[n - 1]], limit, window);
      OneBucketStep(BucketAt(ops, n - 1, limit, window), ops[n - 1], limit, window);
    }
  }

  /** Operation `i` is a request that is let through. */
  predicate Admits(ops: seq<BucketOp>, i: nat, limit: u32, window: u64)
    requires i < |ops|
  {
    ops[i].Deciding?
    && Decide(Live(BucketAt(ops, i, limit, window).log, ops[i].now, window), ops[i].now, limit, window).1.allowed
  }

  /** The clock value of an operation is a whole window past `x`, or it is a sweep with a clock value before `x`. */
  predicate Overtakes(op: BucketOp, x: u64, window: u64) {
    op.now >= x + window || (op.Pruning? && op.now < x)
  }

  /** An admission still in the window at `now` was reached by a later operation that overtakes it. */
  ghost predicate Overtaken(ops: seq<BucketOp>, now: u64, limit: u32, window: u64) {
    exists i, j :: 0 <= i < j < |ops| && Admits(ops, i, limit, window) && InWindow(ops[i].now, now, window)
                   && Overtakes(ops[j], ops[i].now, window)
  }

  ghost predicate AdmittedBefore(ops: seq<BucketOp>, n: nat, limit: u32, window: u64, x: u64)
    requires n <= |ops|
  {
    exists i :: 0 <= i < n && Admits(ops, i, limit, window) && ops[i].now == x
  }

  ghost predicate OvertakenBefore(ops: seq<BucketOp>, n: nat, limit: u32, window: u64, x: u64)
    requires n <= |ops|
  {
    exists i, j :: 0 <= i < j < n && Admits(ops, i, limit, window) && ops[i].now == x && Overtakes(ops[j], x, window)
  }

  lemma NothingYet(ops: seq<BucketOp>, limit: u32, window: u64, x: u64)
    ensures Count(BucketAt(ops, 0, limit, window).log, x) == Count(BucketAt(ops, 0, limit, window).admitted, x) == 0
    ensures !AdmittedBefore(ops, 0, limit, window, x) && !OvertakenBefore(ops, 0, limit, window, x)
  {}

  lemma BucketAtStep(ops: seq<BucketOp>, n: nat, limit: u32, window: u64)
    requires 0 < n <= |ops|
    ensures BucketAt(ops, n, limit, window) == BucketStep(BucketAt(ops, n - 1, limit, window), ops[n - 1], limit, window)
  {}

  lemma StepAdmitted(ops: seq<BucketOp>, i: nat, limit: u32, window: u64, x: u64)
    requires i < |ops|
    ensures Count(BucketAt(ops, i + 1, limit, window).admitted, x)
         == Count(BucketAt(ops, i, limit, window).admitted, x)
            + if Admits(ops, i, limit, window) && ops[i].now == x then 1 else 0
  {
    CountAppended(BucketAt(ops, i, limit, window).admitted, ops[i].now, x);
    hide Count, Live;
  }

  lemma AdmittedOneMore(ops: seq<BucketOp>, n: nat, limit: u32, window: u64, x: u64)
    requires 0 < n <= |ops|
    ensures AdmittedBefore(ops, n, limit, window, x) <==>
              AdmittedBefore(ops, n - 1, limit, window, x) || (Admits(ops, n - 1, limit, window) && ops[n - 1].now == x)
  {
    hide Admits;
  }

  lemma {:induction false} AdmittedIff(ops: seq<BucketOp>, n: nat, limit: u32, window: u64, x: u64)
    requires n <= |ops|
    ensures Count(BucketAt(ops, n, limit, window).admitted, x) > 0 <==> AdmittedBefore(ops, n, limit, window, x)
  {
    hide *;
    if n == 0 {
      NothingYet(ops, limit, window, x);
    } else {
      AdmittedIff(ops, n - 1, limit, window, x);
      StepAdmitted(ops, n - 1, limit, window, x);
      AdmittedOneMore(ops, n, limit, window, x);
    }
  }

  /** An operation that overtakes a time drops every copy of it from the log, and no other operation drops one. */
  lemma {:induction false} MissingIff(ops: seq<BucketOp>, n: nat, limit: u32, window: u64, x: u64)
    requires n <= |ops|
    ensures var b := BucketAt(ops, n, limit, window);
            Count(b.log, x) <= Count(b.admitted, x)
            && (Count(b.log, x) < Count(b.admitted, x) <==> OvertakenBefore(ops, n, limit, window, x))
  {
    hide *;
    if n == 0 {
      NothingYet(ops, limit, window, x);
    } else {
      MissingIff(ops, n - 1, limit, window, x);
      AdmittedIff(ops, n - 1, limit, window, x);
      BucketAtStep(ops, n, limit, window);
      StepCounts(BucketAt(ops, n - 1, limit, window), ops[n - 1], limit, window, x);
      KeepsUnlessOvertaken(ops[n - 1], x, window);
      OvertakenStep(ops, n, limit, window, x);
    }
  }

  lemma KeepsUnlessOvertaken(op: BucketOp, x: u64, window: u64)
    ensures Keeps(op, x, window) <==> !Overtakes(op, x, window)
  {}

  lemma OvertakenStep(ops: seq<BucketOp>, n: nat, limit: u32, window: u64, x: u64)
    requires 0 < n <= |ops|
    ensures OvertakenBefore(ops, n, limit, window, x) <==>
              OvertakenBefore(ops, n - 1, limit, window, x)
              || (AdmittedBefore(ops, n - 1, limit, window, x) && Overtakes(ops[n - 1], x, window))
  {
    hide Admits, Overtakes;
  }

  /**
   A decision at `now` counts fewer admissions than the history has in the window exactly
   when one of those, admitted at `x`, was since reached by a request or a sweep that had
   read its clock a whole window past `x`, or by a sweep that had read it before `x`.
   */
  lemma MiscountsIff(ops: seq<BucketOp>, now: u64, limit: u32, window: u64)
    ensures var b := BucketRun(EMPTY_BUCKET, ops, limit, window);
            |Live(b.log, now, window)| < |Live(b.admitted, now, window)| <==> Overtaken(ops, now, limit, window)
  {
    hide Live, BucketAt, BucketRun, Admits, Overtakes, InWindow, Missing, Count;
    var n, b := |ops|, BucketRun(EMPTY_BUCKET, ops, limit, window);
    BucketAtIsRun(ops, n, limit, window);
    assert ops[..n] == ops;
    RunTraced(EMPTY_BUCKET, ops, limit, window);
    DecisionAgreesIff(b, now, window);
    forall x: u64 ensures x in Missing(b) <==> OvertakenBefore(ops, n, limit, window, x) {
      MissingIff(ops, n, limit, window, x);
      MissingCount(b, x);
    }
    if x: u64 :| x in Missing(b) && InWindow(x, now, window) {
      assert OvertakenBefore(ops, n, limit, window, x);
    }
    if Overtaken(ops, now, limit, window) {
      var i, j :| 0 <= i < j < |ops| && Admits(ops, i, limit, window) && InWindow(ops[i].now, now, window)
                  && Overtakes(ops[j], ops[i].now, window);
      assert OvertakenBefore(ops, n, limit, window, ops[i].now);
    }
  }

  // ---------------------------------------------------------------- the buckets of a limiter

  function BucketOf(h: History, key: RateLimitKey): Bucket {
    Bucket(if key in h.windows then h.windows[key] else [], AdmittedTo(h, key))
  }

  /** What one limiter operation does to the bucket of a key: a new key in a full limiter sweeps all the others. */
  function OpTrace(cfg: Config, h: History, op: Op, key: RateLimitKey): seq<BucketOp> {
    match op
    case SweepAt(now) => if key in h.windows then [Pruning(now)] else []
    case Request(asked, now, sweepNow) =>
      var full := asked !in h.windows && |h.windows| >= cfg.maxKeys;
      if asked == key then
        if full && |Sweep(h.windows, sweepNow, cfg.budgets.windowMs)| >= cfg.maxKeys then [] else [Deciding(now)]
      else if full && key in h.windows then [Pruning(sweepNow)]
      else []
  }

  lemma OpFollowsTrace(cfg: Config, h: History, op: Op, key: RateLimitKey)
    ensures BucketOf(Step(cfg, h, op), key)
         == BucketRun(BucketOf(h, key), OpTrace(cfg, h, op, key), LimitForKey(cfg, key), cfg.budgets.windowMs)
  {
    var trace := OpTrace(cfg, h, op, key);
    if trace != [] {
      OneBucketStep(BucketOf(h, key), trace[0], LimitForKey(cfg, key), cfg.budgets.windowMs);
    }
    assert Live([], op.now, cfg.budgets.windowMs) == [];
    hide Live, Swept, LimitForKey, BucketRun;
  }

  function RunTrace(cfg: Config, h: History, ops: seq<Op>, key: RateLimitKey): seq<BucketOp>
    decreases |ops|
  {
    if ops == [] then [] else OpTrace(cfg, h, ops[0], key) + RunTrace(cfg, Step(cfg, h, ops[0]), ops[1..], key)
  }

  lemma {:induction false} RunFollowsTrace(cfg: Config, h: History, ops: seq<Op>, key: RateLimitKey)
    ensures BucketOf(Run(cfg, h, ops), key)
         == BucketRun(BucketOf(h, key), RunTrace(cfg, h, ops, key), LimitForKey(cfg, key), cfg.budgets.windowMs)
    decreases |ops|
  {
    if ops != [] {
      OpFollowsTrace(cfg, h, ops[0], key);
      RunFollowsTrace(cfg, Step(cfg, h, ops[0]), ops[1..], key);
      BucketRunAppend(BucketOf(h, key), OpTrace(cfg, h, ops[0], key), RunTrace(cfg, Step(cfg, h, ops[0]), ops[1..], key),
                      LimitForKey(cfg, key), cfg.budgets.windowMs);
    }
  }

  /** A clock that never goes backwards from request to request keeps every bucket's trace in order. */
  lemma {:induction false} MonotoneInOrder(cfg: Config, h: History, clock: u64, since: u64, ops: seq<Op>, key: RateLimitKey)
    requires Monotone(clock, ops) && since <= clock
    ensures InOrder(since, RunTrace(cfg, h, ops, key))
    decreases |ops|
  {
    if ops != [] {
      var trace := OpTrace(cfg, h, ops[0], key);
      var next := Step(cfg, h, ops[0]);
      var reached := if trace == [] then since else trace[0].now;
      MonotoneInOrder(cfg, next, OpEnd(ops[0]), reached, ops[1..], key);
      if trace != [] {
        assert RunTrace(cfg, h, ops, key)[1..] == RunTrace(cfg, next, ops[1..], key);
      } else {
        assert RunTrace(cfg, h, ops, key) == RunTrace(cfg, next, ops[1..], key);
      }
    }
  }

  /**
   From an empty limiter, over every run of requests and sweeps whose decisions and sweeps
   reach the key's bucket in the order of their clock values, no half-open interval of one
   window's length holds more admissions of the key than its limit.
   */
  lemma BudgetHolds(cfg: Config, clock: u64, ops: seq<Op>, key: RateLimitKey, from: nat)
    requires InOrder(clock, RunTrace(cfg, EMPTY_HISTORY, ops, key))
    ensures CountIn(AdmittedTo(Run(cfg, EMPTY_HISTORY, ops), key), from, cfg.budgets.windowMs) <= LimitForKey(cfg, key)
  {
    var trace, limit := RunTrace(cfg, EMPTY_HISTORY, ops, key), LimitForKey(cfg, key);
    InOrderFromEmpty(clock, trace, limit, cfg.budgets.windowMs);
    AgreeingFromEmpty(trace, limit, cfg.budgets.windowMs, from);
    RunFollowsTrace(cfg, EMPTY_HISTORY, ops, key);
  }

  /**
   The limiter over every run of requests and sweeps taken one at a time on a clock that
   never goes backwards, from the empty limiter: no half-open interval of one window's
   length ever holds more admissions of a key than its limit, the tracked keys stay within
   the ceiling, and whatever is asked next is admitted exactly when fewer than its limit of
   all the past admissions are younger than the window, unless it is a new key and the keys
   with a young admission fill the ceiling.
   */
  lemma MonotoneClockRun(
      cfg: Config, clock: u64, ops: seq<Op>, key: RateLimitKey, now: u64, sweepNow: u64, from: nat)
    requires cfg.maxKeys >= 1 && Monotone(clock, ops) && ClockAfter(clock, ops) <= now <= sweepNow
    ensures var h := Run(cfg, EMPTY_HISTORY, ops);
            var limit, window := LimitForKey(cfg, key), cfg.budgets.windowMs;
            var refused := key !in h.windows && |LiveKeys(cfg, h, sweepNow)| >= cfg.maxKeys;
            && |h.windows| <= cfg.maxKeys
            && CountIn(AdmittedTo(h, key), from, window) <= limit
            && (Outcome(cfg, h, Request(key, now, sweepNow)).allowed <==>
                  |Live(AdmittedTo(h, key), now, window)| < limit && !refused)
  {
    var h := Run(cfg, EMPTY_HISTORY, ops);
    EmptyRefines(cfg, clock);
    RunRefines(cfg, EMPTY_HISTORY, clock, ops);
    RefinesLater(cfg, h, ClockAfter(clock, ops), now);
    MonotoneInOrder(cfg, EMPTY_HISTORY, clock, clock, ops, key);
    BudgetHolds(cfg, clock, ops, key, from);
    assert |h.windows| <= cfg.maxKeys;
    hide *;
    DecisionFollowsHistory(cfg, h, key, now, sweepNow);
  }

  // ---------------------------------------------------------------- out of clock order

  lemma CountOfExample()
    ensures CountIn([50, 51, 115, 105], 50, 60) == 3
  {
    CountInAppend([50, 51, 115], 105, 50, 60);
    CountInAppend([50, 51], 115, 50, 60);
    CountInAppend([50], 51, 50, 60);
    CountInAppend([], 50, 50, 60);
    assert [] + [50] == [50] && [50] + [51] == [50, 51] && [50, 51] + [115] == [50, 51, 115];
    assert [50, 51, 115] + [105] == [50, 51, 115, 105];
  }
}
