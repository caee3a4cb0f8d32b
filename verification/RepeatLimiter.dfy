/**
 What forgetting old messages does to the repeat limiter (internal/daemon/diagnostics.go): nothing,
 as long as the intervals of a run never grow.
 */
module RepeatLimiter {
  import opened Text
  import opened LogLimiter

  datatype Call = Call(key: string, interval: int, now: int)

  /** What is remembered after `n` calls */
  function LastAt(calls: seq<Call>, n: nat): map<string, int>
    requires n <= |calls|
  {
    if n == 0 then map[]
    else RememberedAfter(LastAt(calls, n - 1), calls[n - 1].key, calls[n - 1].interval, calls[n - 1].now)
  }

  /** The same limiter when it never forgets */
  function AllAt(calls: seq<Call>, n: nat): map<string, int>
    requires n <= |calls|
  {
    if n == 0 then map[]
    else
      var c, all := calls[n - 1], AllAt(calls, n - 1);
      if LetThrough(all, c.key, c.interval, c.now) then all[TrimSpace(c.key) := c.now] else all
  }

  predicate Allowed(calls: seq<Call>, i: nat)
    requires i < |calls|
  {
    LetThrough(LastAt(calls, i), calls[i].key, calls[i].interval, calls[i].now)
  }

  predicate AllowedWithoutForgetting(calls: seq<Call>, i: nat)
    requires i < |calls|
  {
    LetThrough(AllAt(calls, i), calls[i].key, calls[i].interval, calls[i].now)
  }

  predicate ClockRuns(calls: seq<Call>) {
    forall i, j | 0 <= i <= j < |calls| :: calls[i].now <= calls[j].now
  }

  /** One interval for all calls, or at least none that is longer than one used before */
  predicate IntervalsNeverGrow(calls: seq<Call>) {
    forall i, j | 0 <= i <= j < |calls| :: calls[j].interval <= calls[i].interval
  }

  /** `last` is `all` without some entries that are too old to matter at time `now` and later. */
  predicate Forgot(last: map<string, int>, all: map<string, int>, interval: int, now: int) {
    && (forall k | k in last :: k in all && last[k] == all[k])
    && forall k | k in all && k !in last :: now - all[k] >= interval
  }

  lemma StepForgets(last: map<string, int>, all: map<string, int>, c: Call)
    requires Forgot(last, all, c.interval, c.now)
    ensures LetThrough(last, c.key, c.interval, c.now) == LetThrough(all, c.key, c.interval, c.now)
    ensures var all' := if LetThrough(all, c.key, c.interval, c.now) then all[TrimSpace(c.key) := c.now] else all;
            Forgot(RememberedAfter(last, c.key, c.interval, c.now), all', c.interval, c.now)
  {
    hide TrimSpace;
  }

  lemma {:induction false} ForgettingIsHarmless(calls: seq<Call>, n: nat)
    requires n <= |calls| && ClockRuns(calls) && IntervalsNeverGrow(calls)
    ensures n > 0 ==> Forgot(LastAt(calls, n), AllAt(calls, n), calls[n - 1].interval, calls[n - 1].now)
    ensures forall i | 0 <= i < n :: Allowed(calls, i) <==> AllowedWithoutForgetting(calls, i)
  {
    hide RememberedAfter, LetThrough;
    if n == 0 {
    } else {
      ForgettingIsHarmless(calls, n - 1);
      StepForgets(LastAt(calls, n - 1), AllAt(calls, n - 1), calls[n - 1]);
    }
  }

  // ---- Intervals that grow ----

  function Marks(n: nat): string {
    seq(n, _ => 'x')
  }

  /** A time by which the short interval is over and the long one is not */
  function Between(short: int): int {
    if short > 0 then short else 0
  }

  /** A message with a long interval, then 1024 different ones with a short one, then the first again */
  function Flood(short: int, long: int): seq<Call> {
    seq(1026, i requires 0 <= i < 1026 =>
      Call(Marks(if i == 1025 then 1 else i + 1), if i == 0 || i == 1025 then long else short,
           if i == 0 then 0 else Between(short)))
  }

  lemma {:induction false} MarksAreTidy(n: nat)
    requires n > 0
    ensures TrimSpace(Marks(n)) == Marks(n) && !Blank(Marks(n))
  {
    assert Marks(n)[0] == 'x' && Marks(n)[n - 1] == 'x';
    assert TrimLeft(Marks(n)) == Marks(n);
  }

  predicate Flooded(m: map<string, int>, n: nat, time: int) {
    m.Keys == (set i: nat | 1 <= i <= n :: Marks(i)) && Marks(1) in m && m[Marks(1)] == 0
    && forall k | k in m && k != Marks(1) :: m[k] == time
  }

  lemma {:induction false} MarksCount(n: nat)
    ensures |set i: nat | 1 <= i <= n :: Marks(i)| == n
  {
    if n == 0 {
    } else {
      MarksCount(n - 1);
      var before := set i: nat | 1 <= i <= n - 1 :: Marks(i);
      assert (set i: nat | 1 <= i <= n :: Marks(i)) == before + {Marks(n)};
      assert Marks(n) !in before by {
        assert forall i: nat | 1 <= i <= n - 1 :: |Marks(i)| != |Marks(n)|;
      }
    }
  }

  lemma FloodStep(m: map<string, int>, n: nat, interval: int, time: int)
    requires 1 <= n < 1025 && Flooded(m, n, time)
    ensures LetThrough(m, Marks(n + 1), interval, time)
    ensures Flooded(m[Marks(n + 1) := time], n + 1, time) && |m[Marks(n + 1) := time]| == n + 1
  {
    hide TrimSpace;
    MarksAreTidy(n + 1);
    MarksCount(n + 1);
    var next := m[Marks(n + 1) := time];
    assert Marks(n + 1) !in m && Marks(n + 1) != Marks(1) by {
      assert forall i: nat | 1 <= i <= n :: |Marks(i)| != |Marks(n + 1)|;
    }
    assert next.Keys == (set i: nat | 1 <= i <= n + 1 :: Marks(i));
  }

  lemma {:induction false} FloodFills(short: int, long: int, n: nat)
    requires 1 <= n <= 1025 && short < long && 0 < long
    ensures Flooded(AllAt(Flood(short, long), n), n, Between(short))
    ensures n < 1025 ==> LastAt(Flood(short, long), n) == AllAt(Flood(short, long), n)
    ensures n == 1025 ==> Marks(1) !in LastAt(Flood(short, long), n)
  {
    hide TrimSpace, LetThrough, Marks, Flooded;
    var calls, time := Flood(short, long), Between(short);
    MarksAreTidy(n);
    if n == 1 {
      FirstOfFlood(long, time);
      assert calls[0] == Call(Marks(1), long, 0);
    } else {
      FloodFills(short, long, n - 1);
      FloodStep(AllAt(calls, n - 1), n - 1, short, time);
      assert calls[n - 1] == Call(Marks(n), short, time);
      var all := AllAt(calls, n - 1)[Marks(n) := time];
      assert RememberedAfter(AllAt(calls, n - 1), Marks(n), short, time)
          == Remembered(AllAt(calls, n - 1), Marks(n), short, time);
      if n == 1025 {
        assert all[Marks(1)] == 0 by {
          FloodedStart(all, n, time);
        }
      }
    }
  }

  lemma FloodedStart(m: map<string, int>, n: nat, time: int)
    requires Flooded(m, n, time)
    ensures Marks(1) in m && m[Marks(1)] == 0
  {
  }

  lemma FirstOfFlood(long: int, time: int)
    ensures LetThrough(map[], Marks(1), long, 0)
    ensures Flooded(map[Marks(1) := 0], 1, time)
  {
    hide TrimSpace;
    MarksAreTidy(1);
    assert map[Marks(1) := 0].Keys == (set i: nat | 1 <= i <= 1 :: Marks(i));
  }

  /**
   For any two intervals a service uses side by side, the one longer than the other, there is a run
   in which a message that should still be held back is let through again.
   */
  lemma GrowingIntervalsRepeat(short: int, long: int)
    requires short < long && 0 < long
    ensures ClockRuns(Flood(short, long))
    ensures Allowed(Flood(short, long), 1025) && !AllowedWithoutForgetting(Flood(short, long), 1025)
  {
    hide Marks, LastAt, AllAt, TrimSpace;
    FloodFills(short, long, 1025);
    MarksAreTidy(1);
    FloodedStart(AllAt(Flood(short, long), 1025), 1025, Between(short));
  }

  // ---- Which intervals can share the map ----

  predicate Uses(calls: seq<Call>, intervals: set<int>) {
    forall c | c in calls :: c.interval in intervals
  }

  /** In every run with these intervals, forgetting changes no decision. */
  ghost predicate CanShare(intervals: set<int>) {
    forall calls: seq<Call>, i: nat | ClockRuns(calls) && Uses(calls, intervals) && i < |calls| ::
      Allowed(calls, i) == AllowedWithoutForgetting(calls, i)
  }

  predicate AllBefore(m: map<string, int>, now: int) {
    forall k | k in m :: m[k] <= now
  }

  /** An interval of zero or less holds nothing back, so it does not matter what is forgotten. */
  lemma {:induction false} NothingIsHeldBack(calls: seq<Call>, n: nat)
    requires n <= |calls| && ClockRuns(calls) && forall c | c in calls :: c.interval <= 0
    ensures n > 0 ==> AllBefore(LastAt(calls, n), calls[n - 1].now) && AllBefore(AllAt(calls, n), calls[n - 1].now)
    ensures forall i | 0 <= i < n :: Allowed(calls, i) == AllowedWithoutForgetting(calls, i)
  {
    hide TrimSpace;
    if n == 0 {
    } else {
      NothingIsHeldBack(calls, n - 1);
      assert calls[n - 1] in calls;
    }
  }

  /**
   Messages with different intervals can share the map exactly when no interval is longer than another
   and above zero: one positive interval alone is safe, two different ones never are.
   */
  lemma CanShareIff(intervals: set<int>)
    ensures CanShare(intervals) <==> forall a, b | a in intervals && b in intervals && a < b :: b <= 0
  {
    hide LastAt, AllAt, Flood, Allowed, AllowedWithoutForgetting;
    if short, long :| short in intervals && long in intervals && short < long && 0 < long {
      GrowingIntervalsRepeat(short, long);
      FloodUses(short, long, intervals);
    } else {
      forall calls: seq<Call>, i: nat | ClockRuns(calls) && Uses(calls, intervals) && i < |calls|
        ensures Allowed(calls, i) == AllowedWithoutForgetting(calls, i)
      {
        if forall c | c in calls :: c.interval <= 0 {
          NothingIsHeldBack(calls, |calls|);
        } else {
          assert IntervalsNeverGrow(calls) by {
            OneInterval(calls, intervals);
          }
          ForgettingIsHarmless(calls, |calls|);
        }
      }
    }
  }

  lemma OneInterval(calls: seq<Call>, intervals: set<int>)
    requires Uses(calls, intervals) && exists c | c in calls :: c.interval > 0
    requires forall a, b | a in intervals && b in intervals && a < b :: b <= 0
    ensures IntervalsNeverGrow(calls)
  {
    var c :| c in calls && c.interval > 0;
    forall i | 0 <= i < |calls| ensures calls[i].interval == c.interval {
      assert calls[i] in calls;
    }
  }

  lemma FloodUses(short: int, long: int, intervals: set<int>)
    requires short in intervals && long in intervals
    ensures Uses(Flood(short, long), intervals) && |Flood(short, long)| == 1026
  {
  }
}
