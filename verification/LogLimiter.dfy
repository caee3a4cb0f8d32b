/** Limits on diagnostic lines (internal/daemon/diagnostics.go), with the clock in nanoseconds. */
module LogLimiter {
  import opened Options
  import opened Text

  const WINDOW: int := 60 * 1_000_000_000
  const MAX_PER_WINDOW: nat := 120
  const MAX_REMEMBERED: nat := 1024

  // ---- Lines per window ----

  /** diagnosticEventLimit */
  function EventLimit(event: string): nat {
    var e := ToLower(event);
    if Contains(e, "error") || Contains(e, "failed") || Contains(e, "closed") || Contains(e, "repair") then 60 else 30
  }

  /** The window in progress: its start, the lines admitted in it, and how many of each event */
  datatype Window = Window(start: Option<int>, total: nat, counts: map<string, nat>)

  const NO_WINDOW := Window(None, 0, map[])

  function CountOf(counts: map<string, nat>, event: string): nat {
    if event in counts then counts[event] else 0
  }

  predicate Expired(w: Window, now: int) {
    w.start.None? || now - w.start.value >= WINDOW
  }

  function Opened(w: Window, now: int): Window {
    if Expired(w, now) then Window(Some(now), 0, map[]) else w
  }

  predicate Admits(w: Window, event: string, now: int) {
    var o := Opened(w, now);
    o.total < MAX_PER_WINDOW && CountOf(o.counts, event) < EventLimit(event)
  }

  function After(w: Window, event: string, now: int): Window {
    var o := Opened(w, now);
    if Admits(w, event, now) then Window(o.start, o.total + 1, o.counts[event := CountOf(o.counts, event) + 1]) else o
  }

  // ---- Repeats of one message ----

  function Remembered(last: map<string, int>, key: string, interval: int, now: int): map<string, int> {
    var m := last[key := now];
    if |m| > MAX_REMEMBERED then map k | k in m && now - m[k] < interval :: m[k] else m
  }

  predicate Repeats(last: map<string, int>, key: string, interval: int, now: int) {
    key in last && now - last[key] < interval
  }

  /** One call: is the message let through, and what is remembered afterwards */
  predicate LetThrough(last: map<string, int>, key: string, interval: int, now: int) {
    !Blank(key) && !Repeats(last, TrimSpace(key), interval, now)
  }

  function RememberedAfter(last: map<string, int>, key: string, interval: int, now: int): map<string, int> {
    if LetThrough(last, key, interval, now) then Remembered(last, TrimSpace(key), interval, now) else last
  }

  /** The service's fields behind its diagnostic lock */
  class Limiter {
    var start: Option<int>
    var total: nat
    var counts: map<string, nat>
    var last: map<string, int>

    constructor ()
      ensures State() == NO_WINDOW && last == map[]
    {
      start, total, counts, last := None, 0, map[], map[];
    }

    function State(): Window
      reads this
    {
      Window(start, total, counts)
    }

    method AllowLifecycleLog(event: string, now: int) returns (ok: bool)
      modifies this`start, this`total, this`counts
      ensures ok == Admits(old(State()), event, now)
      ensures State() == After(old(State()), event, now)
    {
      if start.None? || now - start.value >= WINDOW {
        start, total, counts := Some(now), 0, map[];
      }
      if total >= MAX_PER_WINDOW {
        return false;
      }
      var limit := EventLimit(event);
      if CountOf(counts, event) >= limit {
        return false;
      }
      total := total + 1;
      counts := counts[event := CountOf(counts, event) + 1];
      return true;
    }

    method AllowDiagnosticRepeat(key: string, interval: int, now: int) returns (ok: bool)
      modifies this`last
      ensures ok == LetThrough(old(last), key, interval, now)
      ensures last == RememberedAfter(old(last), key, interval, now)
    {
      hide TrimSpace;
      var k := TrimSpace(key);
      if k == "" {
        return false;
      }
      if k in last && now - last[k] < interval {
        return false;
      }
      last := last[k := now];
      if |last| > MAX_REMEMBERED {
        ghost var all := last;
        var todo := last.Keys;
        while todo != {}
          invariant todo <= all.Keys
          invariant forall e :: e in last <==> e in all && (e in todo || now - all[e] < interval)
          invariant forall e | e in last :: last[e] == all[e]
          decreases todo
        {
          var e :| e in todo;
          if now - last[e] >= interval {
            last := last - {e};
          }
          todo := todo - {e};
        }
      }
      return true;
    }
  }

  // ---- The total ----

  ghost function Pick(m: map<string, nat>): string
    requires m != map[]
    ensures Pick(m) in m
  {
    var k :| k in m;
    k
  }

  ghost function Sum(m: map<string, nat>): nat {
    if m == map[] then 0 else m[Pick(m)] + Sum(m - {Pick(m)})
  }

  lemma {:induction false} SumWithout(m: map<string, nat>, k: string)
    requires k in m
    ensures Sum(m) == m[k] + Sum(m - {k})
    decreases |m|
  {
    var p := Pick(m);
    if p != k {
      var rest := m - {p};
      SumWithout(rest, k);
      SumWithout(m - {k}, p);
      assert rest - {k} == m - {k} - {p};
    }
  }

  lemma SumOneMore(m: map<string, nat>, k: string)
    ensures Sum(m[k := CountOf(m, k) + 1]) == Sum(m) + 1
  {
    var n := m[k := CountOf(m, k) + 1];
    SumWithout(n, k);
    if k in m {
      SumWithout(m, k);
      assert n - {k} == m - {k};
    } else {
      assert n - {k} == m;
    }
  }

  /** What holds of every window: the total is the sum of the counts, and no limit is exceeded. */
  ghost predicate Sound(w: Window) {
    && w.total == Sum(w.counts) && w.total <= MAX_PER_WINDOW
    && forall e | e in w.counts :: w.counts[e] <= EventLimit(e)
  }

  lemma StepKeepsSound(w: Window, event: string, now: int)
    requires Sound(w)
    ensures Sound(After(w, event, now))
  {
    hide EventLimit;
    SumOneMore(Opened(w, now).counts, event);
  }

  // ---- Runs ----

  datatype Line = Line(event: string, now: int)

  function WindowAt(lines: seq<Line>, n: nat): Window
    requires n <= |lines|
  {
    if n == 0 then NO_WINDOW else After(WindowAt(lines, n - 1), lines[n - 1].event, lines[n - 1].now)
  }

  predicate ClockRuns(lines: seq<Line>) {
    forall i, j | 0 <= i <= j < |lines| :: lines[i].now <= lines[j].now
  }

  /** Is line `i` admitted, between `from` and 60 s later, and of the event asked for, if any? */
  predicate Counts(lines: seq<Line>, i: nat, from: int, event: Option<string>)
    requires i < |lines|
  {
    && from <= lines[i].now < from + WINDOW
    && (event.None? || event.value == lines[i].event)
    && Admits(WindowAt(lines, i), lines[i].event, lines[i].now)
  }

  /** How many of the first `n` lines count */
  function Counted(lines: seq<Line>, n: nat, from: int, event: Option<string>): nat
    requires n <= |lines|
  {
    if n == 0 then 0
    else Counted(lines, n - 1, from, event) + if Counts(lines, n - 1, from, event) then 1 else 0
  }

  function Level(w: Window, event: Option<string>): nat {
    if event.None? then w.total else CountOf(w.counts, event.value)
  }

  function Cap(event: Option<string>): nat {
    if event.None? then MAX_PER_WINDOW else EventLimit(event.value)
  }

  lemma {:induction false} RunKeepsSound(lines: seq<Line>, n: nat)
    requires n <= |lines|
    ensures Sound(WindowAt(lines, n))
  {
    hide After, Sound;
    if n == 0 {
      assert Sound(NO_WINDOW) by {
        EmptyIsSound();
      }
    } else {
      RunKeepsSound(lines, n - 1);
      StepKeepsSound(WindowAt(lines, n - 1), lines[n - 1].event, lines[n - 1].now);
    }
  }

  lemma EmptyIsSound()
    ensures Sound(NO_WINDOW)
  {
  }

  /** How one call changes the level of an event, or the total */
  lemma StepLevel(w: Window, event: string, now: int, asked: Option<string>)
    requires Sound(w)
    ensures var o, a := Opened(w, now), After(w, event, now);
            && Level(a, asked) == Level(o, asked)
               + (if Admits(w, event, now) && (asked.None? || asked.value == event) then 1 else 0)
            && a.start == o.start && Level(w, asked) <= Cap(asked)
            && (if Expired(w, now) then o.start == Some(now) && Level(o, asked) == 0 else o == w)
  {
    hide EventLimit, Sum;
  }

  /** Before the span ends: all lines counted so far are in the current window, or in it and the one before. */
  predicate TwoWindows(w: Window, counted: nat, from: int, event: Option<string>) {
    || counted <= Level(w, event)
    || (w.start.Some? && w.start.value >= from && counted <= Cap(event) + Level(w, event))
  }

  lemma {:induction false} SpanStaysInTwoWindows(lines: seq<Line>, n: nat, from: int, event: Option<string>)
    requires n <= |lines| && ClockRuns(lines)
    ensures var c := Counted(lines, n, from, event);
            && c <= 2 * Cap(event)
            && (n > 0 && lines[n - 1].now < from ==> c == 0)
            && (n == 0 || lines[n - 1].now < from + WINDOW ==> TwoWindows(WindowAt(lines, n), c, from, event))
  {
    hide After, Opened, Admits, Sound, Level, Cap;
    if n == 0 {
    } else {
      var w, line := WindowAt(lines, n - 1), lines[n - 1];
      SpanStaysInTwoWindows(lines, n - 1, from, event);
      RunKeepsSound(lines, n - 1);
      RunKeepsSound(lines, n);
      StepLevel(w, line.event, line.now, event);
      StepLevel(WindowAt(lines, n), line.event, line.now, event);
      if n > 1 {
        assert lines[n - 2].now <= line.now;
      }
    }
  }

  /** In any span of 60 s that excludes its end, a run admits at most 240 lines and at most twice an event's limit. */
  lemma AnySpanIsLimited(lines: seq<Line>, from: int, event: string)
    requires ClockRuns(lines)
    ensures Counted(lines, |lines|, from, None) <= 240
    ensures Counted(lines, |lines|, from, Some(event)) <= 2 * EventLimit(event)
    ensures EventLimit(event) <= 60
  {
    hide Counted;
    SpanStaysInTwoWindows(lines, |lines|, from, None);
    SpanStaysInTwoWindows(lines, |lines|, from, Some(event));
  }
}
