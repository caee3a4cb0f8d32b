/** Markers in numbers and digits (internal/daemon/visual_identity.go). */
module MarkerRules {
  import opened Options
  import opened Text
  import opened Markers

  const DIGITS := "0123456789"

  /** The number that decimal digits stand for */
  function ValueOf(d: seq<nat>): nat {
    if d == [] then 0 else 10 * ValueOf(d[..|d| - 1]) + d[|d| - 1]
  }

  /** A suffix is printed in decimal digits, without a zero in front. */
  lemma {:induction false} DecimalIs(n: nat) returns (d: seq<nat>)
    ensures |d| == |Decimal(n)| > 0 && ValueOf(d) == n
    ensures forall i | 0 <= i < |d| :: d[i] < 10 && Decimal(n)[i] == DIGITS[d[i]]
    ensures n > 0 ==> d[0] != 0
  {
    DigitIs(n % 10);
    if n < 10 {
      d := [n];
      assert d[..0] == [];
    } else {
      var front := DecimalIs(n / 10);
      d := front + [n % 10];
      assert d[..|d| - 1] == front;
    }
  }

  lemma DigitIs(v: nat)
    requires v < 10
    ensures Digit(v) == DIGITS[v]
  {
    assert DIGITS[v] as int == '0' as int + v;
  }

  /** The colours are tried from the thread's own to the last one, and then from the first. */
  lemma PaletteIsTried(start: nat, offset: nat)
    requires start < |PALETTE| && offset < |PALETTE|
    ensures FromPalette(start, offset)
            == if start + offset < |PALETTE| then PALETTE[start + offset] else PALETTE[start + offset - |PALETTE|]
  {
    hide PALETTE;
    AroundOnce(start + offset, |PALETTE|);
  }

  lemma AroundOnce(a: nat, n: nat)
    requires 0 < n && a < 2 * n
    ensures a % n == if a < n then a else a - n
  {
  }

  /** A lease holds exactly while it has a marker and has not expired. */
  lemma LeaseHoldsIff(leases: Leases, thread: string, now: int)
    ensures HasLive(leases, thread, now)
            <==> && thread in leases && leases[thread].Some? && !Blank(leases[thread].value.marker)
                 && now < leases[thread].value.expires
  {
  }

  /** A marker is taken exactly when another thread has a lease of it that holds. */
  lemma MarkerIsTakenIff(leases: Leases, thread: string, now: int, marker: string)
    ensures marker in Occupied(leases, thread, now)
            <==> exists o | o in leases :: o != thread && HasLive(leases, o, now) && leases[o].value.marker == marker
  {
  }

  /** A suffixed marker is the colour, a number sign and the number. */
  lemma SuffixIs(base: string, n: nat)
    ensures |Suffixed(base, n)| == |base| + 1 + |Decimal(n)| && Suffixed(base, n)[..|base|] == base
    ensures Suffixed(base, n)[|base|] == '#' && Suffixed(base, n)[|base| + 1..] == Decimal(n)
  {
  }
}
