/**
 The coloured markers that tell threads apart in chat (internal/daemon/visual_identity.go). A marker
 is leased to a thread for half an hour; times are in whole seconds.
 */
module Markers {
  import opened Options
  import opened Text

  const TTL: int := 30 * 60

  const PALETTE: seq<string> := [
    "\U{1F7E6}", "\U{1F7E9}", "\U{1F7E8}", "\U{1F7E7}", "\U{1F7E5}", "\U{1F7EA}", "\U{2B1B}", "\U{2B1C}", "\U{1F7EB}",
    "\U{1F535}", "\U{1F7E2}", "\U{1F7E1}", "\U{1F7E0}", "\U{1F534}", "\U{1F7E3}", "\U{26AB}", "\U{26AA}", "\U{1F7E4}",
    "\U{1F499}", "\U{1F49A}", "\U{1F49B}", "\U{1F9E1}", "\U{2764}\U{FE0F}", "\U{1F49C}", "\U{1F5A4}", "\U{1F90D}",
    "\U{1F90E}", "\U{1FA77}", "\U{1FA75}", "\U{1FA76}"]

  datatype Lease = Lease(marker: string, expires: int)

  /** The stored leases by thread; `None` is a record that cannot be read. */
  type Leases = map<string, Option<Lease>>

  predicate Live(lease: Option<Lease>, now: int) {
    lease.Some? && !Blank(lease.value.marker) && now < lease.value.expires
  }

  predicate HasLive(leases: Leases, thread: string, now: int) {
    thread in leases && Live(leases[thread], now)
  }

  /** The markers other threads hold */
  function Occupied(leases: Leases, thread: string, now: int): set<string> {
    set o | o in leases && o != thread && HasLive(leases, o, now) :: leases[o].value.marker
  }

  // ---- Decimal suffixes ----

  function Digit(n: nat): char
    requires n < 10
  {
    '0' + n as char
  }

  function Decimal(n: nat): (d: string)
    ensures d != ""
  {
    if n < 10 then [Digit(n)] else Decimal(n / 10) + [Digit(n % 10)]
  }

  lemma {:induction false} DecimalIsInjective(a: nat, b: nat)
    requires Decimal(a) == Decimal(b)
    ensures a == b
  {
    var d := Decimal(a);
    assert d[|d| - 1] == Digit(a % 10) == Digit(b % 10);
    assert d[..|d| - 1] == (if a < 10 then "" else Decimal(a / 10));
    assert d[..|d| - 1] == (if b < 10 then "" else Decimal(b / 10));
    if a >= 10 {
      DecimalIsInjective(a / 10, b / 10);
    }
  }

  function Suffixed(base: string, suffix: nat): string {
    base + "#" + Decimal(suffix)
  }

  lemma SuffixedIsInjective(base: string, a: nat, b: nat)
    requires Suffixed(base, a) == Suffixed(base, b)
    ensures a == b
  {
    assert Suffixed(base, a)[|base| + 1..] == Decimal(a);
    assert Suffixed(base, b)[|base| + 1..] == Decimal(b);
    DecimalIsInjective(a, b);
  }

  /** Pigeonhole: as many suffixed markers as there are occupied ones, and one more, cannot all be occupied. */
  lemma {:induction false} OccupiedSuffixes(base: string, occupied: set<string>, n: nat)
    requires forall i: nat | 2 <= i < 2 + n :: Suffixed(base, i) in occupied
    ensures n <= |occupied|
  {
    hide Suffixed;
    if n == 0 {
    } else {
      var last := Suffixed(base, 1 + n);
      forall i: nat | 2 <= i < 1 + n ensures Suffixed(base, i) in occupied - {last} {
        if Suffixed(base, i) == last {
          SuffixedIsInjective(base, i, 1 + n);
        }
      }
      OccupiedSuffixes(base, occupied - {last}, n - 1);
    }
  }

  // ---- Choosing ----

  predicate Free(occupied: set<string>, marker: string) {
    marker !in occupied
  }

  /** The palette from `start` on, around to it again */
  function FromPalette(start: nat, offset: nat): string {
    PALETTE[(start + offset) % |PALETTE|]
  }

  ghost predicate IsColour(start: nat, occupied: set<string>, marker: string, offset: nat) {
    && marker == FromPalette(start, offset) && Free(occupied, marker)
    && forall o: nat | o < offset :: !Free(occupied, FromPalette(start, o))
  }

  ghost predicate IsSuffixed(base: string, occupied: set<string>, marker: string, suffix: nat) {
    && marker == Suffixed(base, suffix) && Free(occupied, marker)
    && forall i: nat | 2 <= i < suffix :: !Free(occupied, Suffixed(base, i))
  }

  ghost predicate PaletteTaken(start: nat, occupied: set<string>) {
    forall o: nat | o < |PALETTE| :: !Free(occupied, FromPalette(start, o))
  }

  /** The first free marker of the palette, or the thread's own colour with the first free suffix */
  ghost predicate IsChoice(start: nat, occupied: set<string>, marker: string) {
    || (exists offset: nat | offset < |PALETTE| :: IsColour(start, occupied, marker, offset))
    || (PaletteTaken(start, occupied)
        && exists suffix: nat | 2 <= suffix <= |occupied| + 2 ::
             IsSuffixed(FromPalette(start, 0), occupied, marker, suffix))
  }

  /** The search among the suffixes ends after at most |occupied| + 1 of them. */
  method FirstFreeSuffix(base: string, occupied: map<string, string>) returns (marker: string)
    requires forall m | m in occupied :: occupied[m] != ""
    ensures exists suffix: nat | 2 <= suffix <= |occupied.Keys| + 2 :: IsSuffixed(base, occupied.Keys, marker, suffix)
  {
    hide Suffixed;
    var n: nat := 2;
    marker := Suffixed(base, n);
    while !(marker !in occupied || occupied[marker] == "")
      invariant 2 <= n <= |occupied.Keys| + 2 && marker == Suffixed(base, n)
      invariant forall i: nat | 2 <= i < n :: !Free(occupied.Keys, Suffixed(base, i))
      decreases |occupied.Keys| + 2 - n
    {
      OccupiedSuffixes(base, occupied.Keys, n - 1);
      n := n + 1;
      marker := Suffixed(base, n);
    }
    assert IsSuffixed(base, occupied.Keys, marker, n);
  }

  /** chooseVisualMarker */
  method ChooseVisualMarker(start: nat, occupied: map<string, string>) returns (marker: string)
    requires start < |PALETTE|
    requires forall m | m in occupied :: occupied[m] != ""
    ensures IsChoice(start, occupied.Keys, marker)
  {
    hide IsSuffixed;
    for offset := 0 to |PALETTE|
      invariant forall o: nat | o < offset :: !Free(occupied.Keys, FromPalette(start, o))
    {
      marker := FromPalette(start, offset);
      if marker !in occupied || occupied[marker] == "" {
        assert IsColour(start, occupied.Keys, marker, offset);
        return;
      }
    }
    marker := FirstFreeSuffix(FromPalette(start, 0), occupied);
  }

  lemma ChoiceIsFree(start: nat, occupied: set<string>, marker: string)
    requires IsChoice(start, occupied, marker)
    ensures Free(occupied, marker) && !Blank(marker)
  {
    hide Blank;
    if offset: nat :| offset < |PALETTE| && IsColour(start, occupied, marker, offset) {
      PaletteIsVisible((start + offset) % |PALETTE|);
    } else {
      PaletteIsVisible(start % |PALETTE|);
    }
    NonSpaceIsNotBlank(marker);
  }

  lemma PaletteIsVisible(i: nat)
    requires i < |PALETTE|
    ensures PALETTE[i] != "" && !IsSpace(PALETTE[i][0])
  {
  }

  // ---- Leasing ----

  /** Both threads' leases hold at `now`: are their markers different? */
  ghost predicate Distinct(leases: Leases, now: int) {
    forall a, b | HasLive(leases, a, now) && HasLive(leases, b, now) && a != b ::
      leases[a].value.marker != leases[b].value.marker
  }

  predicate NoBlankOwner(leases: Leases) {
    "" !in leases
  }

  /** The marker a call gives a thread: the one it holds unless another thread holds it too, else a free one */
  ghost predicate GivesMarker(hash: string -> nat, leases: Leases, thread: string, now: int, marker: string) {
    var occupied := Occupied(leases, thread, now);
    if HasLive(leases, thread, now) && Free(occupied, leases[thread].value.marker)
    then marker == leases[thread].value.marker
    else IsChoice(hash(thread) % |PALETTE|, occupied, marker)
  }

  function Renewed(leases: Leases, thread: string, marker: string, now: int): Leases {
    leases[thread := Some(Lease(marker, now + TTL))]
  }

  /** A lease is for half an hour and leaves those of other threads alone. */
  lemma LeaseIs(leases: Leases, thread: string, marker: string, now: int, other: string)
    ensures var after := Renewed(leases, thread, marker, now);
            && thread in after && after[thread] == Some(Lease(marker, now + 1800))
            && (other != thread ==>
                  (other in after <==> other in leases) && (other in leases ==> after[other] == leases[other]))
  {
  }

  /** The store's lease records; `hash` is the FNV hash of a thread id. */
  class MarkerStore {
    var leases: Leases
    const hash: string -> nat

    constructor (hash: string -> nat)
      ensures leases == map[] && this.hash == hash
    {
      leases := map[];
      this.hash := hash;
    }

    /** visualMarker */
    method VisualMarker(threadId: string, now: int) returns (marker: string)
      requires NoBlankOwner(leases)
      modifies this`leases
      ensures NoBlankOwner(leases)
      ensures Blank(threadId) ==> marker == PALETTE[0] && leases == old(leases)
      ensures !Blank(threadId) ==>
                var thread := TrimSpace(threadId);
                && GivesMarker(hash, old(leases), thread, now, marker)
                && leases == Renewed(old(leases), thread, marker, now)
    {
      hide TrimSpace, IsChoice;
      var thread := TrimSpace(threadId);
      if thread == "" {
        return PALETTE[0];
      }
      var mine: Option<string> := None;
      var occupied: map<string, string> := map[];
      var todo := leases.Keys;
      while todo != {}
        invariant todo <= leases.Keys
        invariant forall m | m in occupied :: occupied[m] != ""
        invariant forall m :: m in occupied <==>
                    exists o | o in leases && o !in todo && o != thread && HasLive(leases, o, now) ::
                      leases[o].value.marker == m
        invariant mine == if thread !in todo && HasLive(leases, thread, now) then Some(leases[thread].value.marker)
                          else None
        decreases todo
      {
        var owner :| owner in todo;
        todo := todo - {owner};
        var lease := leases[owner];
        if lease.None? || Blank(lease.value.marker) || lease.value.expires <= now {
          continue;
        }
        if owner != thread {
          occupied := occupied[lease.value.marker := owner];
        } else {
          mine := Some(lease.value.marker);
        }
      }
      assert occupied.Keys == Occupied(leases, thread, now);
      if mine.Some? && (mine.value !in occupied || occupied[mine.value] == "") {
        marker := mine.value;
      } else {
        marker := ChooseVisualMarker(hash(thread) % |PALETTE|, occupied);
      }
      leases := leases[thread := Some(Lease(marker, now + TTL))];
    }
  }

  // ---- Runs ----

  datatype Call = Call(thread: string, now: int)

  /** A run of calls for named threads: `leases[i]` is stored before call `i`, which gives `markers[i]`. */
  datatype Run = Run(hash: string -> nat, calls: seq<Call>, leases: seq<Leases>, markers: seq<string>)

  ghost predicate IsStep(hash: string -> nat, before: Leases, call: Call, marker: string, after: Leases) {
    && !Blank(call.thread)
    && GivesMarker(hash, before, TrimSpace(call.thread), call.now, marker)
    && after == Renewed(before, TrimSpace(call.thread), marker, call.now)
  }

  ghost predicate IsRun(r: Run) {
    && |r.leases| == |r.calls| + 1 && |r.markers| == |r.calls|
    && r.leases[0] == map[]
    && (forall i | 0 <= i < |r.calls| :: IsStep(r.hash, r.leases[i], r.calls[i], r.markers[i], r.leases[i + 1]))
    && forall i, j | 0 <= i <= j < |r.calls| :: r.calls[i].now <= r.calls[j].now
  }

  lemma GivenMarkerIsFree(hash: string -> nat, leases: Leases, thread: string, now: int, marker: string)
    requires GivesMarker(hash, leases, thread, now, marker)
    ensures Free(Occupied(leases, thread, now), marker) && !Blank(marker)
  {
    hide IsChoice, Blank;
    var occupied := Occupied(leases, thread, now);
    if !(HasLive(leases, thread, now) && Free(occupied, leases[thread].value.marker)) {
      ChoiceIsFree(hash(thread) % |PALETTE|, occupied, marker);
    }
  }

  lemma StepKeepsDistinct(hash: string -> nat, leases: Leases, thread: string, now: int, marker: string)
    requires Distinct(leases, now) && GivesMarker(hash, leases, thread, now, marker)
    ensures Distinct(Renewed(leases, thread, marker, now), now)
  {
    hide GivesMarker, Blank;
    GivenMarkerIsFree(hash, leases, thread, now, marker);
    var next := Renewed(leases, thread, marker, now);
    forall o | o != thread && HasLive(next, o, now)
      ensures HasLive(leases, o, now) && leases[o].value.marker != marker
    {
      assert leases[o].value.marker in Occupied(leases, thread, now);
    }
  }

  lemma LaterIsDistinct(leases: Leases, now: int, later: int)
    requires Distinct(leases, now) && now <= later
    ensures Distinct(leases, later)
  {
    assert forall o | HasLive(leases, o, later) :: HasLive(leases, o, now);
  }

  /** After any run, at the time of its last call and later, no two threads hold the same marker. */
  lemma {:induction false} HeldMarkersAreDistinct(r: Run, n: nat, now: int)
    requires IsRun(r) && n <= |r.calls| && (n > 0 ==> r.calls[n - 1].now <= now)
    ensures Distinct(r.leases[n], now)
  {
    hide GivesMarker, Distinct, Renewed, Blank;
    if n == 0 {
      NothingIsDistinct(now);
    } else {
      var c := r.calls[n - 1];
      assert IsStep(r.hash, r.leases[n - 1], c, r.markers[n - 1], r.leases[n]);
      HeldMarkersAreDistinct(r, n - 1, c.now);
      StepKeepsDistinct(r.hash, r.leases[n - 1], TrimSpace(c.thread), c.now, r.markers[n - 1]);
      LaterIsDistinct(r.leases[n], c.now, now);
    }
  }

  lemma NothingIsDistinct(now: int)
    ensures Distinct(map[], now)
  {
  }

  predicate CallsFor(r: Run, i: nat, thread: string)
    requires i < |r.calls|
  {
    TrimSpace(r.calls[i].thread) == thread
  }

  /** Call `k` comes less than half an hour after an earlier one for the thread, not before call `i`. */
  predicate InTime(r: Run, thread: string, i: nat, k: nat)
    requires k < |r.calls|
  {
    exists m: nat | i <= m < k :: CallsFor(r, m, thread) && r.calls[k].now < r.calls[m].now + TTL
  }

  predicate NeverLapses(r: Run, thread: string, i: nat, j: nat)
    requires j < |r.calls|
  {
    forall k: nat {:trigger InTime(r, thread, i, k)} | i < k <= j :: CallsFor(r, k, thread) ==> InTime(r, thread, i, k)
  }

  lemma HeldMarkerIsGivenAgain(hash: string -> nat, leases: Leases, thread: string, now: int, marker: string)
    requires Distinct(leases, now) && HasLive(leases, thread, now) && GivesMarker(hash, leases, thread, now, marker)
    ensures marker == leases[thread].value.marker
  {
    hide IsChoice, Blank;
  }

  /** A lease with `marker` that outlasts every call for the thread from `i` to `n` by half an hour */
  ghost predicate Holds(r: Run, thread: string, i: nat, n: nat, marker: string)
    requires n <= |r.calls| && n < |r.leases|
  {
    && thread in r.leases[n] && r.leases[n][thread].Some?
    && r.leases[n][thread].value.marker == marker && !Blank(marker)
    && forall m: nat | i <= m < n && CallsFor(r, m, thread) :: r.calls[m].now + TTL <= r.leases[n][thread].value.expires
  }

  lemma StepOfRun(r: Run, k: nat)
    requires IsRun(r) && k < |r.calls|
    ensures |r.leases| == |r.calls| + 1 && |r.markers| == |r.calls|
    ensures IsStep(r.hash, r.leases[k], r.calls[k], r.markers[k], r.leases[k + 1])
    ensures forall m: nat | m <= k :: r.calls[m].now <= r.calls[k].now
  {
  }

  lemma OwnCallHolds(r: Run, thread: string, i: nat, k: nat)
    requires IsRun(r) && i <= k < |r.calls| && CallsFor(r, k, thread)
    ensures |r.leases| == |r.calls| + 1 && |r.markers| == |r.calls| && Holds(r, thread, i, k + 1, r.markers[k])
  {
    hide IsRun, GivesMarker, Blank, TrimSpace;
    StepOfRun(r, k);
    GivenMarkerIsFree(r.hash, r.leases[k], thread, r.calls[k].now, r.markers[k]);
  }

  lemma OtherCallHolds(r: Run, thread: string, i: nat, k: nat, marker: string)
    requires IsRun(r) && i <= k < |r.calls| && !CallsFor(r, k, thread)
    requires k < |r.leases| && Holds(r, thread, i, k, marker)
    ensures |r.leases| == |r.calls| + 1 && Holds(r, thread, i, k + 1, marker)
  {
    hide IsRun, GivesMarker, Blank, TrimSpace;
    StepOfRun(r, k);
  }

  lemma OwnCallKeepsMarker(r: Run, thread: string, i: nat, k: nat, marker: string)
    requires IsRun(r) && i <= k < |r.calls| && CallsFor(r, k, thread)
    requires k < |r.leases| && Holds(r, thread, i, k, marker)
    requires InTime(r, thread, i, k)
    ensures |r.markers| == |r.calls| && r.markers[k] == marker
  {
    hide IsRun, GivesMarker, Blank, TrimSpace, Distinct;
    StepOfRun(r, k);
    assert k > 0 ==> r.calls[k - 1].now <= r.calls[k].now;
    HeldMarkersAreDistinct(r, k, r.calls[k].now);
    HeldMarkerIsGivenAgain(r.hash, r.leases[k], thread, r.calls[k].now, r.markers[k]);
  }

  lemma {:induction false} LeaseIsKept(r: Run, thread: string, i: nat, n: nat)
    requires IsRun(r) && i < n <= |r.calls| && CallsFor(r, i, thread)
    requires NeverLapses(r, thread, i, n - 1)
    ensures |r.leases| == |r.calls| + 1 && |r.markers| == |r.calls|
    ensures Holds(r, thread, i, n, r.markers[i])
    ensures CallsFor(r, n - 1, thread) ==> r.markers[n - 1] == r.markers[i]
  {
    hide IsRun, Holds, CallsFor, InTime;
    if i == n - 1 {
      OwnCallHolds(r, thread, i, i);
    } else {
      LeaseIsKept(r, thread, i, n - 1);
      if CallsFor(r, n - 1, thread) {
        assert InTime(r, thread, i, n - 1);
        OwnCallKeepsMarker(r, thread, i, n - 1, r.markers[i]);
        OwnCallHolds(r, thread, i, n - 1);
      } else {
        OtherCallHolds(r, thread, i, n - 1, r.markers[i]);
      }
    }
  }

  /** A thread whose lease never lapses shows one marker throughout. */
  lemma MarkerIsKept(r: Run, thread: string, i: nat, j: nat)
    requires IsRun(r) && i < j < |r.calls| && CallsFor(r, i, thread) && CallsFor(r, j, thread)
    requires NeverLapses(r, thread, i, j)
    ensures r.markers[j] == r.markers[i]
  {
    LeaseIsKept(r, thread, i, j + 1);
  }
}
