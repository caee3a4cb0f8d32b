/** Which diagnostic lines are admitted (internal/daemon/diagnostics.go), counted over a run of lines. */
module LimitRules {
  import opened Options
  import opened Text
  import opened LogLimiter
  import RepeatLimiter
  import GateRules

  /** Sixty lines of an event that tells of trouble, thirty of any other */
  lemma LimitIs(event: string)
    ensures EventLimit(event) == if GateRules.Says(event, ["error", "failed", "closed", "repair"]) then 60 else 30
  {
    hide Contains, ToLower;
    var words := ["error", "failed", "closed", "repair"];
    assert words[0] in words && words[1] in words && words[2] in words && words[3] in words;
  }

  predicate AdmittedAt(lines: seq<Line>, k: nat)
    requires k < |lines|
  {
    Admits(WindowAt(lines, k), lines[k].event, lines[k].now)
  }

  /** How many of the lines from `o` to before `n` were admitted, of one event or of all */
  function AdmittedSince(lines: seq<Line>, o: nat, n: nat, event: Option<string>): nat
    requires o <= n <= |lines|
  {
    if n == o then 0
    else
      AdmittedSince(lines, o, n - 1, event)
      + if AdmittedAt(lines, n - 1) && (event.None? || event.value == lines[n - 1].event) then 1 else 0
  }

  /** Line `o` opened the window that is in progress before line `n`. */
  predicate OpenedAt(lines: seq<Line>, o: nat, n: nat) {
    && o < n <= |lines|
    && (forall k | o <= k < n :: lines[k].now - lines[o].now < 60_000_000_000)
    && WindowAt(lines, n).start == Some(lines[o].now)
    && WindowAt(lines, n).total == AdmittedSince(lines, o, n, None)
  }

  lemma {:induction false} WindowWasOpened(lines: seq<Line>, n: nat) returns (o: nat)
    requires 0 < n <= |lines|
    ensures OpenedAt(lines, o, n)
    ensures forall e :: CountOf(WindowAt(lines, n).counts, e) == AdmittedSince(lines, o, n, Some(e))
    ensures o == 0 || Expired(WindowAt(lines, o), lines[o].now)
  {
    hide EventLimit;
    var w, line := WindowAt(lines, n - 1), lines[n - 1];
    if n == 1 || Expired(w, line.now) {
      o := n - 1;
      forall e ensures AdmittedSince(lines, o, n, Some(e)) == CountOf(WindowAt(lines, n).counts, e) {
        assert AdmittedSince(lines, o, n - 1, Some(e)) == 0;
      }
      assert AdmittedSince(lines, o, n - 1, None) == 0;
    } else {
      o := WindowWasOpened(lines, n - 1);
      forall e ensures AdmittedSince(lines, o, n, Some(e)) == CountOf(WindowAt(lines, n).counts, e) {
        assert AdmittedSince(lines, o, n - 1, Some(e)) == CountOf(w.counts, e);
      }
    }
  }

  /**
   A line is admitted exactly when it opens a window, or fewer than 120 lines, and fewer of its event
   than its limit, were admitted since the line that opened the window in progress, at most 60 s before.
   */
  lemma LineIsAdmittedIff(lines: seq<Line>, n: nat) returns (o: nat)
    requires n < |lines|
    ensures o <= n && forall k | o <= k < n :: lines[k].now - lines[o].now < 60_000_000_000
    ensures lines[n].now - lines[o].now < 60_000_000_000
    ensures AdmittedAt(lines, n)
            <==> && AdmittedSince(lines, o, n, None) < 120
                 && AdmittedSince(lines, o, n, Some(lines[n].event)) < EventLimit(lines[n].event)
    ensures o < n ==> OpenedAt(lines, o, n)
    ensures o == n ==> n == 0 || Expired(WindowAt(lines, n), lines[n].now)
  {
    hide EventLimit;
    SomeAreAllowed(lines[n].event);
    if n == 0 || Expired(WindowAt(lines, n), lines[n].now) {
      o := n;
    } else {
      o := WindowWasOpened(lines, n);
      assert CountOf(WindowAt(lines, n).counts, lines[n].event) == AdmittedSince(lines, o, n, Some(lines[n].event));
    }
  }

  lemma SomeAreAllowed(event: string)
    ensures EventLimit(event) > 0
  {
  }

  // ---- Repeats ----

  predicate Kept(calls: seq<RepeatLimiter.Call>, i: nat)
    requires i < |calls|
  {
    RepeatLimiter.AllowedWithoutForgetting(calls, i)
  }

  predicate SameMessage(a: RepeatLimiter.Call, b: RepeatLimiter.Call) {
    TrimSpace(a.key) == TrimSpace(b.key)
  }

  lemma {:induction false} LastIsRemembered(calls: seq<RepeatLimiter.Call>, n: nat, key: string)
    requires n <= |calls| && RepeatLimiter.ClockRuns(calls)
    ensures var all := RepeatLimiter.AllAt(calls, n);
            && (key in all ==>
                  exists j | 0 <= j < n ::
                    Kept(calls, j) && TrimSpace(calls[j].key) == key && all[key] == calls[j].now)
            && forall j | 0 <= j < n && Kept(calls, j) && TrimSpace(calls[j].key) == key ::
                 key in all && calls[j].now <= all[key]
  {
    hide TrimSpace, LetThrough;
    if n == 0 {
    } else {
      LastIsRemembered(calls, n - 1, key);
    }
  }

  /**
   With a map that forgets nothing, a message is let through exactly when it is not blank and no equal
   one was let through within its interval.
   */
  lemma MessageIsLetThroughIff(calls: seq<RepeatLimiter.Call>, i: nat)
    requires i < |calls| && RepeatLimiter.ClockRuns(calls)
    ensures Kept(calls, i)
            <==> && !Blank(calls[i].key)
                 && forall j | 0 <= j < i :: Kept(calls, j) && SameMessage(calls[j], calls[i]) ==>
                      calls[i].now - calls[j].now >= calls[i].interval
  {
    hide TrimSpace;
    LastIsRemembered(calls, i, TrimSpace(calls[i].key));
  }

  /** What is remembered of a message that was let through: above 1024, only those still within its interval. */
  lemma RememberedIs(last: map<string, int>, key: string, interval: int, now: int)
    ensures var m := Remembered(last, key, interval, now);
            && (forall k | k in m :: m[k] == if k == key then now else if k in last then last[k] else now)
            && forall k ::
                 k in m <==>
                 && (k == key || k in last)
                 && (|last[key := now]| <= 1024 || now - (if k == key then now else last[k]) < interval)
  {
  }

  /** A call that is refused is not remembered, and one that is let through is, under its trimmed message. */
  lemma RememberedAfterIs(last: map<string, int>, key: string, interval: int, now: int)
    ensures var k := TrimSpace(key);
            var refused := Blank(key) || (k in last && now - last[k] < interval);
            && (LetThrough(last, key, interval, now) <==> !refused)
            && RememberedAfter(last, key, interval, now) == if refused then last else Remembered(last, k, interval, now)
  {
    hide TrimSpace, Remembered;
  }
}
