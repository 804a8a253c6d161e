/**
 The lifetime-relative renewal rule. Times and durations are whole microseconds, as the
 source's timestamps are.
 */
module RenewalWindow {

  const HOUR := 3_600_000_000
  const DAY := 24 * HOUR
  const SHORT_LIVED_CERTIFICATE_LIFETIME := 10 * DAY
  const MINIMUM_ACTIVATION_REMAINING := 7 * DAY

  /** Division of a duration by a small number: to the nearest microsecond, ties to even. */
  function DivideAndRound(a: nat, b: nat): (q: nat)
    requires b > 0
    ensures -(b as int) <= 2 * (b * q - a) <= b
  {
    var q, twice := a / b, 2 * (a % b);
    assert a == b * q + a % b;
    assert b * (q + 1) == b * q + b;
    if twice > b || (twice == b && q % 2 == 1) then q + 1 else q
  }

  /** The remaining validity below which a certificate is due. */
  function DueFraction(notBefore: int, notAfter: int): nat
    requires notBefore < notAfter
  {
    var lifetime := notAfter - notBefore;
    DivideAndRound(lifetime, if lifetime <= SHORT_LIVED_CERTIFICATE_LIFETIME then 2 else 3)
  }

  predicate IsDue(notBefore: int, notAfter: int, now: int) {
    notAfter <= notBefore || notAfter - now < DueFraction(notBefore, notAfter)
  }

  /** When a certificate is due, in microseconds: with a lifetime of up to ten days once less than half of
      it is left, with a longer one once less than a third is, and one without a lifetime always. Rounding
      to whole microseconds never makes more than one of a difference. */
  lemma DueExactly(notBefore: int, notAfter: int, now: int)
    ensures var lifetime, left := notAfter - notBefore, notAfter - now;
            IsDue(notBefore, notAfter, now) <==>
              || lifetime <= 0
              || (lifetime <= 864_000_000_000
                  && (2 * left < lifetime - 1 || (2 * left == lifetime - 1 && left % 2 == 1)))
              || (lifetime > 864_000_000_000 && 3 * left < lifetime - 1)
  {
  }

  lemma DueStaysDue(notBefore: int, notAfter: int, earlier: int, later: int)
    requires earlier <= later && IsDue(notBefore, notAfter, earlier)
    ensures IsDue(notBefore, notAfter, later)
  {
  }

  /** A certificate that is not due still has its due fraction left, and an expired one is due. */
  lemma NotDueIsValid(notBefore: int, notAfter: int, now: int)
    requires !IsDue(notBefore, notAfter, now)
    ensures now <= notAfter && notAfter - now >= DueFraction(notBefore, notAfter)
  {
  }

  /** Health checks in time order that begin while the certificate is not due and go on past expiry. */
  ghost predicate Schedule(checks: seq<int>, notBefore: int, notAfter: int, gap: nat) {
    && |checks| > 0
    && !IsDue(notBefore, notAfter, checks[0])
    && checks[|checks| - 1] > notAfter
    && forall i :: 0 <= i < |checks| - 1 ==> checks[i] <= checks[i + 1] <= checks[i] + gap
  }

  /** With gaps no longer than the due fraction, some check finds the certificate due while at least
      the fraction less one gap of validity is left. */
  lemma CaughtInTime(checks: seq<int>, notBefore: int, notAfter: int, gap: nat) returns (i: nat)
    requires notBefore < notAfter && gap <= DueFraction(notBefore, notAfter)
    requires Schedule(checks, notBefore, notAfter, gap)
    ensures i < |checks| && IsDue(notBefore, notAfter, checks[i])
    ensures notAfter - checks[i] >= DueFraction(notBefore, notAfter) - gap
    ensures forall k :: 0 <= k < i ==> !IsDue(notBefore, notAfter, checks[k])
  {
    i := 0;
    while !IsDue(notBefore, notAfter, checks[i])
      invariant i < |checks|
      invariant forall k :: 0 <= k < i ==> !IsDue(notBefore, notAfter, checks[k])
      decreases |checks| - i
    {
      NotDueIsValid(notBefore, notAfter, checks[i]);
      i := i + 1;
    }
    assert !IsDue(notBefore, notAfter, checks[i - 1]);
  }

  function Evenly(start: int, gap: nat, n: nat): seq<int> {
    seq(n, i => start + i * gap)
  }

  /** The bound cannot be improved: for every certificate and every positive gap some schedule
      never finds it due with more validity left than that. */
  lemma BoundIsTight(notBefore: int, notAfter: int, gap: nat) returns (checks: seq<int>)
    requires notBefore < notAfter && 0 < gap <= DueFraction(notBefore, notAfter)
    ensures Schedule(checks, notBefore, notAfter, gap)
    ensures forall i :: 0 <= i < |checks| && IsDue(notBefore, notAfter, checks[i])
              ==> notAfter - checks[i] <= DueFraction(notBefore, notAfter) - gap
  {
    var fraction := DueFraction(notBefore, notAfter);
    checks := Evenly(notAfter - fraction, gap, fraction + 2);
    assert (fraction + 1) * gap >= fraction + 1;
    forall i | 0 <= i < |checks| - 1 ensures checks[i] <= checks[i + 1] <= checks[i] + gap {
      assert (i + 1) * gap == i * gap + gap;
    }
    forall i | 0 <= i < |checks| && IsDue(notBefore, notAfter, checks[i])
      ensures notAfter - checks[i] <= fraction - gap
    {
      if i > 0 {
        assert i * gap >= gap;
      }
    }
  }

  /** A certificate that is already valid and passes the activation window of seven days has a due
      fraction of at least eighty hours, so short lifetimes never shrink it further. */
  lemma ActivatedFraction(notBefore: int, notAfter: int, now: int)
    requires notBefore <= now && notAfter >= now + MINIMUM_ACTIVATION_REMAINING
    ensures notBefore < notAfter && DueFraction(notBefore, notAfter) >= 80 * HOUR
  {
  }

  /** Checking twice a day finds every activated certificate due with at least 68 hours left. */
  lemma TwiceDailySuffices(checks: seq<int>, notBefore: int, notAfter: int, activated: int) returns (i: nat)
    requires notBefore <= activated && notAfter >= activated + MINIMUM_ACTIVATION_REMAINING
    requires Schedule(checks, notBefore, notAfter, 12 * HOUR)
    ensures i < |checks| && IsDue(notBefore, notAfter, checks[i]) && notAfter - checks[i] >= 68 * HOUR
  {
    ActivatedFraction(notBefore, notAfter, activated);
    i := CaughtInTime(checks, notBefore, notAfter, 12 * HOUR);
  }
}
