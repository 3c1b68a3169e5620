/** Sustained-anomaly streaks over evaluation cycles (pipeline/stages/peak.py) and the scheduler's interval
    boundaries (pipeline/scheduler.py). Time is whole seconds after the epoch. */
module Sustained {
  import opened Wrappers

  type Key = (string, string, string, string)
  datatype Finding = Finding(scope: seq<string>, family: string)

  /** The identity key of a finding; scopes of another length are ignored. */
  function KeyOf(f: Finding): Option<Key> {
    if |f.scope| == 3 then Some((f.scope[0], f.scope[1], "topic:" + f.scope[2], f.family))
    else if |f.scope| == 4 then Some((f.scope[0], f.scope[1], "group:" + f.scope[2], f.family))
    else None
  }

  datatype Cycle = Cycle(time: nat, findings: seq<Finding>, insufficient: Key -> bool)
  {
    predicate Anomalous(k: Key) { exists i :: 0 <= i < |findings| && KeyOf(findings[i]) == Some(k) }

    /** An anomaly backed by evidence. */
    predicate Counts(k: Key) { Anomalous(k) && !insufficient(k) }

    /** Evidence, and no anomaly. */
    predicate Clean(k: Key) { !Anomalous(k) && !insufficient(k) }

    function AnomalousKeys(): (s: set<Key>)
      ensures forall k :: k in s <==> Anomalous(k)
    {
      set i | 0 <= i < |findings| && KeyOf(findings[i]).Some? :: KeyOf(findings[i]).value
    }
  }

  datatype Window = Window(streak: nat, lastAt: nat)
  type Windows = map<Key, Window>
  datatype Status = Status(isSustained: bool, streak: nat, required: int, lastAt: nat, reasons: seq<Reason>)

  datatype Reason =
    | InsufficientEvidence | NonAnomalousInterval | AnomalousInterval
    | StreakHeld | StreakInactive | StreakResetGap | StreakReset | StreakStarted | StreakContinues
    | SustainedUncertain | SustainedThresholdMet | SustainedInactive | SustainedThresholdNotMet

  // ---------------------------------------------------------------- one cycle

  function Bucket(t: nat, minutes: int): int
    requires minutes >= 1
  {
    t / (60 * minutes)
  }

  predicate Consecutive(previous: nat, current: nat, minutes: int)
    requires minutes >= 1
  {
    Bucket(current, minutes) - Bucket(previous, minutes) == 1
  }

  /** _next_streak_count */
  function NextStreak(prior: Option<Window>, anomalous: bool, insufficient: bool, now: nat, minutes: int): nat
    requires prior.Some? && (insufficient || anomalous) ==> minutes >= 1
  {
    if insufficient then
      if prior.None? || !Consecutive(prior.value.lastAt, now, minutes) then 0 else prior.value.streak
    else if !anomalous then 0
    else if prior.None? || !Consecutive(prior.value.lastAt, now, minutes) then 1
    else prior.value.streak + 1
  }

  /** The first one or two reason codes: what kind of interval it was and what became of the streak. */
  function StreakReasons(prior: Option<Window>, anomalous: bool, insufficient: bool, now: nat, minutes: int): seq<Reason>
    requires prior.Some? && (insufficient || anomalous) ==> minutes >= 1
  {
    if insufficient then
      if prior.None? then [InsufficientEvidence]
      else if !Consecutive(prior.value.lastAt, now, minutes) then [InsufficientEvidence, StreakResetGap]
      else if prior.value.streak > 0 then [InsufficientEvidence, StreakHeld] else [InsufficientEvidence, StreakInactive]
    else if !anomalous then
      if prior.Some? && prior.value.streak > 0 then [NonAnomalousInterval, StreakReset] else [NonAnomalousInterval]
    else if prior.None? then [AnomalousInterval, StreakStarted]
    else if !Consecutive(prior.value.lastAt, now, minutes) then [AnomalousInterval, StreakResetGap]
    else if prior.value.streak == 0 then [AnomalousInterval, StreakStarted] else [AnomalousInterval, StreakContinues]
  }

  function Verdict(streak: nat, sustained: bool, insufficient: bool): Reason {
    if insufficient then SustainedUncertain
    else if sustained then SustainedThresholdMet
    else if streak == 0 then SustainedInactive else SustainedThresholdNotMet
  }

  /** The reason codes determine what happened to the streak. */
  lemma ReasonsTellTheStreak(prior: Option<Window>, anomalous: bool, insufficient: bool, now: nat, minutes: int)
    requires prior.Some? && (insufficient || anomalous) ==> minutes >= 1
    ensures var reasons := StreakReasons(prior, anomalous, insufficient, now, minutes);
            var before, after := if prior.Some? then prior.value.streak else 0, NextStreak(prior, anomalous, insufficient, now, minutes);
            && (InsufficientEvidence in reasons <==> insufficient)
            && (AnomalousInterval in reasons <==> anomalous && !insufficient)
            && (NonAnomalousInterval in reasons <==> !anomalous && !insufficient)
            && (StreakHeld in reasons <==> insufficient && after == before > 0)
            && (StreakContinues in reasons <==> !insufficient && after == before + 1 >= 2)
            && (StreakReset in reasons <==> !insufficient && !anomalous && before > 0)
            && (StreakStarted in reasons ==> after == 1) && (StreakInactive in reasons ==> after == 0)
            && (StreakResetGap in reasons ==> after == if insufficient then 0 else 1)
  {
  }

  function Prior(ws: Windows, k: Key): Option<Window> { if k in ws then Some(ws[k]) else None }

  /** Whether evaluating this key compares interval buckets. */
  predicate ComparesBuckets(ws: Windows, c: Cycle, k: Key) { k in ws && (c.insufficient(k) || c.Anomalous(k)) }

  function StatusOf(ws: Windows, c: Cycle, required: int, minutes: int, k: Key): Status
    requires ComparesBuckets(ws, c, k) ==> minutes >= 1
  {
    StatusFrom(Prior(ws, k), c.Anomalous(k), c.insufficient(k), c.time, required, minutes)
  }

  function StatusFrom(prior: Option<Window>, anomalous: bool, insufficient: bool, now: nat, required: int, minutes: int): Status
    requires prior.Some? && (insufficient || anomalous) ==> minutes >= 1
  {
    var streak := NextStreak(prior, anomalous, insufficient, now, minutes);
    var sustained := streak >= required && !insufficient;
    Status(sustained, streak, required, now,
           StreakReasons(prior, anomalous, insufficient, now, minutes) + [Verdict(streak, sustained, insufficient)])
  }

  /** A non-positive interval raises as soon as some tracked key needs its buckets compared. */
  predicate Raises(ws: Windows, c: Cycle, minutes: int) {
    minutes <= 0 && exists k :: k in ws && ComparesBuckets(ws, c, k)
  }

  /** compute_sustained_status_by_key */
  function Compute(ws: Windows, c: Cycle, required: int, minutes: int): Result<map<Key, Status>> {
    if Raises(ws, c, minutes) then Err("evaluation_interval_minutes must be a positive integer")
    else Ok(map k | k in ws.Keys + c.AnomalousKeys() :: StatusOf(ws, c, required, minutes, k))
  }

  method CurrentAnomalousKeys(c: Cycle) returns (current: set<Key>)
    ensures current == c.AnomalousKeys()
  {
    current := {};
    for i := 0 to |c.findings|
      invariant forall k :: k in current <==> exists j :: 0 <= j < i && KeyOf(c.findings[j]) == Some(k)
    {
      var key := KeyOf(c.findings[i]);
      if key.Some? { current := current + {key.value}; }
    }
  }

  method InsufficientKeys(c: Cycle, keys: set<Key>) returns (insufficient: set<Key>)
    ensures forall k :: k in insufficient <==> k in keys && c.insufficient(k)
  {
    insufficient := {};
    var rest := keys;
    while rest != {}
      invariant rest <= keys && forall k :: k in insufficient <==> k in keys - rest && c.insufficient(k)
      decreases rest
    {
      var k :| k in rest;
      rest := rest - {k};
      if c.insufficient(k) { insufficient := insufficient + {k}; }
    }
  }

  method ComputeSustainedStatusByKey(ws: Windows, c: Cycle, required: int, minutes: int) returns (r: Result<map<Key, Status>>)
    ensures r == Compute(ws, c, required, minutes)
  {
    var current := CurrentAnomalousKeys(c);
    var keys := ws.Keys + current;
    var insufficient := InsufficientKeys(c, keys);
    var statuses: map<Key, Status> := map[];
    var rest := keys;
    while rest != {}
      invariant rest <= keys && statuses.Keys == keys - rest
      invariant forall k :: k in keys && k !in rest && ComparesBuckets(ws, c, k) ==> minutes >= 1
      invariant forall k :: k in statuses ==> statuses[k] == StatusOf(ws, c, required, minutes, k)
      decreases rest
    {
      var k :| k in rest;
      assert (k in current <==> c.Anomalous(k)) && (k in insufficient <==> c.insufficient(k));
      if k in ws && (k in insufficient || k in current) && minutes <= 0 {
        assert ComparesBuckets(ws, c, k);
        return Err("evaluation_interval_minutes must be a positive integer");
      }
      statuses := statuses[k := StatusFrom(Prior(ws, k), k in current, k in insufficient, c.time, required, minutes)];
      rest := rest - {k};
    }
    AllComputed(ws, c, required, minutes, statuses);
    return Ok(statuses);
  }

  lemma AllComputed(ws: Windows, c: Cycle, required: int, minutes: int, statuses: map<Key, Status>)
    requires statuses.Keys == ws.Keys + c.AnomalousKeys()
    requires forall k :: k in statuses && ComparesBuckets(ws, c, k) ==> minutes >= 1
    requires forall k :: k in statuses ==> statuses[k] == StatusOf(ws, c, required, minutes, k)
    ensures Compute(ws, c, required, minutes) == Ok(statuses)
  {
    assert !Raises(ws, c, minutes);
    assert statuses == map k | k in ws.Keys + c.AnomalousKeys() :: StatusOf(ws, c, required, minutes, k);
  }

  /** build_sustained_window_state_by_key */
  function WindowsOf(statuses: map<Key, Status>): Windows {
    map k | k in statuses :: Window(statuses[k].streak, statuses[k].lastAt)
  }

  // ---------------------------------------------------------------- a run of cycles

  /** Statuses after the first n cycles. */
  function StatusesAfter(run: seq<Cycle>, required: int, minutes: int, n: nat): map<Key, Status>
    requires minutes >= 1 && n <= |run|
  {
    if n == 0 then map[]
    else Compute(WindowsOf(StatusesAfter(run, required, minutes, n - 1)), run[n - 1], required, minutes).value
  }

  /** A key that is not tracked counts as zero. */
  function Streak(run: seq<Cycle>, required: int, minutes: int, n: nat, k: Key): nat
    requires minutes >= 1 && n <= |run|
  {
    var s := StatusesAfter(run, required, minutes, n);
    if k in s then s[k].streak else 0
  }

  /** Cycles i..n are bucket-consecutive and none of them is clean for the key. */
  predicate Unbroken(run: seq<Cycle>, minutes: int, k: Key, i: nat, n: nat)
    requires minutes >= 1 && i <= n <= |run|
  {
    && (forall j :: i <= j < n ==> !run[j].Clean(k))
    && (forall j :: i < j < n ==> Consecutive(run[j - 1].time, run[j].time, minutes))
  }

  /** The longest such suffix starts at i. */
  predicate LongestFrom(run: seq<Cycle>, minutes: int, k: Key, i: nat, n: nat)
    requires minutes >= 1 && i <= n <= |run|
  {
    Unbroken(run, minutes, k, i, n) && (i == 0 || !Unbroken(run, minutes, k, i - 1, n))
  }

  function CountFrom(run: seq<Cycle>, k: Key, i: nat, n: nat): nat
    requires i <= n <= |run|
    decreases n
  {
    if i == n then 0 else CountFrom(run, k, i, n - 1) + if run[n - 1].Counts(k) then 1 else 0
  }

  predicate EverAnomalous(run: seq<Cycle>, k: Key, n: nat)
    requires n <= |run|
  {
    n > 0 && (EverAnomalous(run, k, n - 1) || run[n - 1].Anomalous(k))
  }

  /** After each cycle the tracked keys are those ever anomalous, all stamped with that cycle's time. */
  lemma {:induction false} TrackedKeys(run: seq<Cycle>, required: int, minutes: int, n: nat)
    requires minutes >= 1 && n <= |run|
    ensures Tracked(run, n, StatusesAfter(run, required, minutes, n))
  {
    if n > 0 {
      TrackedKeys(run, required, minutes, n - 1);
      var before := StatusesAfter(run, required, minutes, n - 1);
      ComputedKeys(WindowsOf(before), run[n - 1], required, minutes);
      TrackedNext(run, n, before, Compute(WindowsOf(before), run[n - 1], required, minutes).value);
    }
  }

  ghost predicate Tracked(run: seq<Cycle>, n: nat, s: map<Key, Status>)
    requires n <= |run|
  {
    && (forall k :: k in s <==> EverAnomalous(run, k, n))
    && (forall k :: k in s ==> s[k].lastAt == run[n - 1].time)
  }

  lemma TrackedNext(run: seq<Cycle>, n: nat, before: map<Key, Status>, s: map<Key, Status>)
    requires 0 < n <= |run| && Tracked(run, n - 1, before)
    requires forall k :: k in s <==> k in before || run[n - 1].Anomalous(k)
    requires forall k :: k in s ==> s[k].lastAt == run[n - 1].time
    ensures Tracked(run, n, s)
  {
  }

  lemma ComputedKeys(ws: Windows, c: Cycle, required: int, minutes: int)
    requires minutes >= 1
    ensures var s := Compute(ws, c, required, minutes).value;
            (forall k :: k in s <==> k in ws || c.Anomalous(k)) && (forall k :: k in s ==> s[k].lastAt == c.time)
  {
  }

  /** The incremental streak, cycle by cycle. */
  lemma StreakStep(run: seq<Cycle>, required: int, minutes: int, n: nat, k: Key)
    requires minutes >= 1 && 0 < n <= |run|
    ensures var now, before := run[n - 1], Streak(run, required, minutes, n - 1, k);
            var held := if n >= 2 && Consecutive(run[n - 2].time, now.time, minutes) then before else 0;
            Streak(run, required, minutes, n, k) == if now.Clean(k) then 0 else if now.Counts(k) then held + 1 else held
  {
    TrackedKeys(run, required, minutes, n - 1);
    TrackedKeys(run, required, minutes, n);
    var before := StatusesAfter(run, required, minutes, n - 1);
    var after := StatusesAfter(run, required, minutes, n);
    if k in after {
      assert after[k] == StatusOf(WindowsOf(before), run[n - 1], required, minutes, k);
      assert k in before ==> WindowsOf(before)[k] == Window(before[k].streak, before[k].lastAt);
    } else {
      assert !run[n - 1].Anomalous(k);
    }
  }

  lemma {:induction false} LongestExists(run: seq<Cycle>, minutes: int, k: Key, i: nat, n: nat)
    requires minutes >= 1 && i <= n <= |run| && Unbroken(run, minutes, k, i, n)
    ensures exists j :: 0 <= j <= i && LongestFrom(run, minutes, k, j, n)
    decreases i
  {
    if i > 0 && Unbroken(run, minutes, k, i - 1, n) {
      LongestExists(run, minutes, k, i - 1, n);
    } else {
      assert LongestFrom(run, minutes, k, i, n);
    }
  }

  /** The streak is the number of evidence-backed anomalies in any suffix that is unbroken and cannot be extended. */
  lemma {:induction false} StreakCountsSuffix(run: seq<Cycle>, required: int, minutes: int, n: nat, k: Key, i: nat)
    requires minutes >= 1 && i <= n <= |run| && LongestFrom(run, minutes, k, i, n)
    ensures Streak(run, required, minutes, n, k) == CountFrom(run, k, i, n)
    decreases n
  {
    if n > 0 {
      StreakStep(run, required, minutes, n, k);
      if i == n {
        EmptySuffix(run, minutes, k, n);
      } else if i == n - 1 {
        SingletonSuffix(run, required, minutes, n, k);
      } else {
        LongestShrinks(run, minutes, k, i, n);
        StreakCountsSuffix(run, required, minutes, n - 1, k, i);
      }
    }
  }

  /** No suffix at all means that the last cycle was clean. */
  lemma EmptySuffix(run: seq<Cycle>, minutes: int, k: Key, n: nat)
    requires minutes >= 1 && 0 < n <= |run| && LongestFrom(run, minutes, k, n, n)
    ensures run[n - 1].Clean(k)
  {
  }

  lemma LongestShrinks(run: seq<Cycle>, minutes: int, k: Key, i: nat, n: nat)
    requires minutes >= 1 && i + 1 < n <= |run| && LongestFrom(run, minutes, k, i, n)
    ensures LongestFrom(run, minutes, k, i, n - 1) && !run[n - 1].Clean(k) && Consecutive(run[n - 2].time, run[n - 1].time, minutes)
  {
  }

  /** A suffix of one cycle: the one before was clean (its streak is zero) or is not bucket-consecutive. */
  lemma SingletonSuffix(run: seq<Cycle>, required: int, minutes: int, n: nat, k: Key)
    requires minutes >= 1 && 0 < n <= |run| && LongestFrom(run, minutes, k, n - 1, n)
    ensures !run[n - 1].Clean(k)
    ensures n >= 2 && Consecutive(run[n - 2].time, run[n - 1].time, minutes) ==> Streak(run, required, minutes, n - 1, k) == 0
  {
    if n >= 2 && Consecutive(run[n - 2].time, run[n - 1].time, minutes) {
      assert run[n - 2].Clean(k);
      StreakStep(run, required, minutes, n - 1, k);
    }
  }

  /** The refinement for every run and key: some suffix is longest, and every longest suffix has exactly as many
      evidence-backed anomalies as the incremental streak says. */
  lemma StreakRefinesHistory(run: seq<Cycle>, required: int, minutes: int, n: nat, k: Key)
    requires minutes >= 1 && n <= |run|
    ensures exists i :: 0 <= i <= n && LongestFrom(run, minutes, k, i, n)
    ensures forall i :: 0 <= i <= n && LongestFrom(run, minutes, k, i, n) ==>
              Streak(run, required, minutes, n, k) == CountFrom(run, k, i, n)
  {
    LongestExists(run, minutes, k, n, n);
    forall i | 0 <= i <= n && LongestFrom(run, minutes, k, i, n)
      ensures Streak(run, required, minutes, n, k) == CountFrom(run, k, i, n)
    {
      StreakCountsSuffix(run, required, minutes, n, k, i);
    }
  }

  /** The interval buckets in which the key was anomalous with evidence. */
  function AnomalousBuckets(run: seq<Cycle>, minutes: int, k: Key, i: nat, n: nat): set<int>
    requires minutes >= 1 && i <= n <= |run|
  {
    set j | i <= j < n && run[j].Counts(k) :: Bucket(run[j].time, minutes)
  }

  lemma {:induction false} BucketsIncrease(run: seq<Cycle>, minutes: int, k: Key, i: nat, n: nat, j: nat)
    requires minutes >= 1 && i <= j < n <= |run| && Unbroken(run, minutes, k, i, n)
    ensures Bucket(run[n - 1].time, minutes) == Bucket(run[j].time, minutes) + (n - 1 - j)
    decreases n
  {
    if j < n - 1 {
      BucketsIncrease(run, minutes, k, i, n - 1, j);
      assert Consecutive(run[n - 2].time, run[n - 1].time, minutes);
    }
  }

  lemma LastBucketIsNew(run: seq<Cycle>, minutes: int, k: Key, i: nat, n: nat)
    requires minutes >= 1 && i < n <= |run| && Unbroken(run, minutes, k, i, n)
    ensures Bucket(run[n - 1].time, minutes) !in AnomalousBuckets(run, minutes, k, i, n - 1)
  {
    forall j | i <= j < n - 1 ensures Bucket(run[j].time, minutes) != Bucket(run[n - 1].time, minutes) {
      BucketsIncrease(run, minutes, k, i, n, j);
    }
  }

  lemma BucketsGrow(run: seq<Cycle>, minutes: int, k: Key, i: nat, n: nat, last: int)
    requires minutes >= 1 && i < n <= |run| && last == Bucket(run[n - 1].time, minutes)
    ensures AnomalousBuckets(run, minutes, k, i, n) == AnomalousBuckets(run, minutes, k, i, n - 1) + if run[n - 1].Counts(k) then {last} else {}
  {
  }

  lemma AddOne(s: set<int>, x: int, add: bool)
    requires x !in s
    ensures |s + if add then {x} else {}| == |s| + if add then 1 else 0
  {
  }

  /** Along an unbroken suffix no bucket repeats, so counting cycles counts buckets. */
  lemma {:induction false} SuffixBuckets(run: seq<Cycle>, minutes: int, k: Key, i: nat, n: nat)
    requires minutes >= 1 && i <= n <= |run| && Unbroken(run, minutes, k, i, n)
    ensures |AnomalousBuckets(run, minutes, k, i, n)| == CountFrom(run, k, i, n)
    decreases n
  {
    if i < n {
      assert Unbroken(run, minutes, k, i, n - 1);
      SuffixBuckets(run, minutes, k, i, n - 1);
      LastBucketIsNew(run, minutes, k, i, n);
      BucketsGrow(run, minutes, k, i, n, Bucket(run[n - 1].time, minutes));
      AddOne(AnomalousBuckets(run, minutes, k, i, n - 1), Bucket(run[n - 1].time, minutes), run[n - 1].Counts(k));
    }
  }

  /** A sustained key was anomalous, with evidence, in at least `required` distinct interval buckets, and the cycle
      that reports it has evidence. */
  lemma SustainedMeansBuckets(run: seq<Cycle>, required: int, minutes: int, n: nat, k: Key)
    requires minutes >= 1 && 0 < n <= |run| && k in StatusesAfter(run, required, minutes, n)
    requires StatusesAfter(run, required, minutes, n)[k].isSustained
    ensures |AnomalousBuckets(run, minutes, k, 0, n)| >= required && !run[n - 1].insufficient(k)
  {
    StreakRefinesHistory(run, required, minutes, n, k);
    var i :| 0 <= i <= n && LongestFrom(run, minutes, k, i, n);
    SuffixBuckets(run, minutes, k, i, n);
    var part, all := AnomalousBuckets(run, minutes, k, i, n), AnomalousBuckets(run, minutes, k, 0, n);
    assert part <= all;
    SubsetSize(part, all);
  }

  lemma {:induction false} SubsetSize<T>(a: set<T>, b: set<T>)
    requires a <= b
    ensures |a| <= |b|
  {
    if x :| x in a { SubsetSize(a - {x}, b - {x}); }
  }

  /** After every run, a tracked key is reported sustained if and only if its longest unbroken suffix has at least
      `required` evidence-backed anomalies and the last cycle has evidence for it; and exactly then the last reason code
      says that the threshold is met. */
  lemma SustainedIff(run: seq<Cycle>, required: int, minutes: int, n: nat, k: Key, i: nat)
    requires minutes >= 1 && 0 < n <= |run| && k in StatusesAfter(run, required, minutes, n)
    requires i <= n && LongestFrom(run, minutes, k, i, n)
    ensures var s := StatusesAfter(run, required, minutes, n)[k];
            && (s.isSustained <==> CountFrom(run, k, i, n) >= required && !run[n - 1].insufficient(k))
            && s.reasons != [] && (s.reasons[|s.reasons| - 1] == SustainedThresholdMet <==> s.isSustained)
            && (s.reasons[|s.reasons| - 1] == SustainedUncertain <==> run[n - 1].insufficient(k))
            && s.required == required && s.lastAt == run[n - 1].time && s.streak == CountFrom(run, k, i, n)
  {
    StreakCountsSuffix(run, required, minutes, n, k, i);
    StatusVerdict(WindowsOf(StatusesAfter(run, required, minutes, n - 1)), run[n - 1], required, minutes, k);
  }

  /** The flag and the last reason of one cycle's status, against its own streak. */
  lemma StatusVerdict(ws: Windows, c: Cycle, required: int, minutes: int, k: Key)
    requires minutes >= 1 && (k in ws || c.Anomalous(k))
    ensures var all := Compute(ws, c, required, minutes).value;
            && k in all
            && var s := all[k];
               && (s.isSustained <==> s.streak >= required && !c.insufficient(k)) && s.required == required && s.lastAt == c.time
               && s.reasons != [] && (s.reasons[|s.reasons| - 1] == SustainedThresholdMet <==> s.isSustained)
               && (s.reasons[|s.reasons| - 1] == SustainedUncertain <==> c.insufficient(k))
               && (s.reasons[|s.reasons| - 1] == SustainedInactive <==> !s.isSustained && !c.insufficient(k) && s.streak == 0)
  {
  }

  /** The key of a finding: the topic of a three-part scope, the group of a four-part one. */
  lemma KeyNames(f: Finding, k: Key)
    ensures KeyOf(f) == Some(k) <==>
            && (|f.scope| == 3 || |f.scope| == 4) && k.0 == f.scope[0] && k.1 == f.scope[1] && k.3 == f.family
            && k.2 == (if |f.scope| == 3 then "topic:" else "group:") + f.scope[2]
  {
  }

  // ---------------------------------------------------------------- scheduler boundaries

  function Floor(t: nat, interval: int): int
    requires interval > 0
  {
    t - t % interval
  }

  function NextBoundary(t: nat, interval: int): int
    requires interval > 0
  {
    Floor(t, interval) + interval
  }

  datatype Tick = Tick(expectedBoundary: int, drift: int, missed: int)

  /** evaluate_scheduler_tick */
  function EvaluateTick(fired: nat, previousBoundary: Option<int>, interval: int): Tick
    requires interval > 0
  {
    var expected := Floor(fired, interval);
    Tick(expected, fired - expected,
         if previousBoundary.None? then 0
         else if (expected - previousBoundary.value) / interval - 1 > 0 then (expected - previousBoundary.value) / interval - 1 else 0)
  }

  lemma MultipleIsFar(k: int, n: int)
    requires n > 0
    ensures (k >= 1 ==> k * n >= n) && (k <= -1 ==> k * n <= -n)
  {
    if k <= -1 { assert (-k) * n >= n && (-k) * n == -(k * n); }
  }

  /** (q * n) / n == q for Euclidean division. */
  lemma DivideMultiple(q: int, n: int)
    requires n > 0
    ensures (q * n) / n == q
  {
    var p := q * n;
    assert p == p / n * n + p % n;
    assert (q - p / n) * n == q * n - p / n * n;
    MultipleIsFar(q - p / n, n);
  }

  lemma FloorIsBucket(t: nat, interval: int)
    requires interval > 0
    ensures Floor(t, interval) == (t / interval) * interval
    ensures 0 <= t - Floor(t, interval) < interval
  {
  }

  /** A tick expects the boundary at or before the fire time, a multiple of the interval, and its drift is the distance; the
      first tick has missed nothing. */
  lemma TickMeans(fired: nat, interval: int)
    requires interval > 0
    ensures var tick := EvaluateTick(fired, None, interval);
            && tick.expectedBoundary + tick.drift == fired && 0 <= tick.drift < interval && tick.missed == 0
            && (exists q: int :: tick.expectedBoundary == q * interval)
            && NextBoundary(fired, interval) == tick.expectedBoundary + interval > fired
    ensures forall previous: Option<int> :: EvaluateTick(fired, previous, interval).expectedBoundary == EvaluateTick(fired, None, interval).expectedBoundary
                                            && EvaluateTick(fired, previous, interval).drift == EvaluateTick(fired, None, interval).drift
  {
    FloorIsBucket(fired, interval);
    assert EvaluateTick(fired, None, interval).expectedBoundary == (fired / interval) * interval;
  }

  /** Two fire times are streak-consecutive exactly when the later boundary is the next one after the earlier, which
      is exactly when the boundary moved and the tick reports no missed interval. */
  lemma ConsecutiveIffNoMiss(previous: nat, fired: nat, minutes: int)
    requires minutes >= 1
    ensures Consecutive(previous, fired, minutes) <==> Floor(fired, 60 * minutes) == NextBoundary(previous, 60 * minutes)
    ensures Consecutive(previous, fired, minutes) <==>
            && Floor(fired, 60 * minutes) > Floor(previous, 60 * minutes)
            && EvaluateTick(fired, Some(Floor(previous, 60 * minutes)), 60 * minutes).missed == 0
    ensures var missed := EvaluateTick(fired, Some(Floor(previous, 60 * minutes)), 60 * minutes).missed;
            var ahead := Bucket(fired, minutes) - Bucket(previous, minutes);
            missed == if ahead > 1 then ahead - 1 else 0
  {
    var n := 60 * minutes;
    var a, b := previous / n, fired / n;
    FloorIsBucket(previous, n);
    FloorIsBucket(fired, n);
    DivideMultiple(b - a, n);
    assert Floor(fired, n) - Floor(previous, n) == (b - a) * n;
    ScaledOrder(b - a, n);
  }

  lemma ScaledOrder(q: int, n: int)
    requires n > 0
    ensures (q * n > 0 <==> q > 0) && (q * n == n <==> q == 1)
  {
    if q > 1 { assert q * n == n + (q - 1) * n && (q - 1) * n > 0; }
    if q <= 0 { assert q * n <= 0; }
  }
}
