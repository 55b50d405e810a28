/** When certificate renewals are attempted (agent/identity/renew.go). Times and
    durations are nanoseconds; an attempt itself takes no time. */
module Renewal {

  const SECOND := 1_000_000_000
  const MIN_RETRY := 30 * SECOND
  const MAX_RETRY := 3600 * SECOND
  const MAX_SLEEP := 6 * 3600 * SECOND

  /** Two thirds of the way through the validity window, truncated. */
  function RenewAt(notBefore: int, notAfter: int): (at: int)
    ensures notBefore < notAfter ==> notBefore <= at < notAfter
    ensures notBefore < notAfter ==> 3 * (at - notBefore) <= 2 * (notAfter - notBefore) < 3 * (at - notBefore) + 3
    ensures notBefore >= notAfter ==> at == notAfter
  {
    var lifetime := notAfter - notBefore;
    if lifetime <= 0 then notAfter else notBefore + lifetime * 2 / 3
  }

  /** A quarter of the time left, between half a minute and an hour. */
  function RetryIn(left: int): (retry: int)
    ensures MIN_RETRY <= retry <= MAX_RETRY
    ensures left >= 4 * MIN_RETRY ==> 4 * retry <= left
    ensures 4 * MIN_RETRY <= left <= 4 * MAX_RETRY ==> left - 4 < 4 * retry
    ensures left < 120 * SECOND ==> retry == 30 * SECOND
    ensures left > 14400 * SECOND ==> retry == 3600 * SECOND
  {
    var quarter := if left >= 0 then left / 4 else -((-left) / 4);
    if quarter < MIN_RETRY then MIN_RETRY else if quarter > MAX_RETRY then MAX_RETRY else quarter
  }

  /** With two minutes left there is time for three more attempts: the first leaves at
      least 90 seconds, the second 60, the third 30. */
  lemma ThreeMore(left: int)
    requires left >= 120 * SECOND
    ensures var one := left - RetryIn(left);
            var two := one - RetryIn(one);
            var three := two - RetryIn(two);
            one >= 90 * SECOND && two >= 60 * SECOND && three >= 30 * SECOND
  {
    var one := left - RetryIn(left);
    assert one >= 90 * SECOND;
    if one < 120 * SECOND {
      assert RetryIn(one) == MIN_RETRY;
    }
    var two := one - RetryIn(one);
    if two < 120 * SECOND {
      assert RetryIn(two) == MIN_RETRY;
    }
  }

  /** The attempts follow the schedule: the next one comes exactly RetryIn later, and
      there is a next one whenever it would come before expiry. */
  ghost predicate Scheduled(attempts: seq<int>, notAfter: int, i: int)
    requires 0 <= i < |attempts|
  {
    var next := attempts[i] + RetryIn(notAfter - attempts[i]);
    if i + 1 < |attempts| then attempts[i + 1] == next else next >= notAfter
  }

  /** Run from `start` with a plane that never answers, until the certificate expires:
      the times at which renewal was attempted. */
  method FailingRun(notBefore: int, notAfter: int, start: int) returns (attempts: seq<int>)
    ensures forall i :: 0 <= i < |attempts| ==> RenewAt(notBefore, notAfter) <= attempts[i] < notAfter && start <= attempts[i]
    ensures forall i :: 0 <= i < |attempts| ==> Scheduled(attempts, notAfter, i)
    ensures var due := if start < RenewAt(notBefore, notAfter) then RenewAt(notBefore, notAfter) else start;
            if due < notAfter then attempts != [] && attempts[0] == due else attempts == []
  {
    hide RenewAt; hide RetryIn; hide Scheduled;
    var now := start;
    attempts := [];
    while now < notAfter
      invariant forall i :: 0 <= i < |attempts| ==>
        RenewAt(notBefore, notAfter) <= attempts[i] < notAfter && start <= attempts[i]
      invariant forall i :: 0 <= i < |attempts| - 1 ==> Scheduled(attempts, notAfter, i)
      invariant attempts != [] ==> var last := attempts[|attempts| - 1]; now == last + RetryIn(notAfter - last)
      invariant attempts != [] ==> RenewAt(notBefore, notAfter) <= now
      invariant start <= now
      invariant attempts == [] ==> now == start || now <= RenewAt(notBefore, notAfter)
      invariant attempts != [] ==>
        attempts[0] == if start < RenewAt(notBefore, notAfter) then RenewAt(notBefore, notAfter) else start
      decreases notAfter - now
    {
      var wait := RenewAt(notBefore, notAfter) - now;
      if wait > 0 {
        now := now + if wait > MAX_SLEEP then MAX_SLEEP else wait;
      } else {
        NextAttempt(attempts, now, notAfter);
        attempts := attempts + [now];
        now := now + RetryIn(notAfter - now);
      }
    }
    if attempts != [] {
      LastAttempt(attempts, notAfter);
    }
  }

  /** One more attempt, exactly when the last one said. */
  lemma NextAttempt(attempts: seq<int>, now: int, notAfter: int)
    requires forall i :: 0 <= i < |attempts| - 1 ==> Scheduled(attempts, notAfter, i)
    requires attempts != [] ==> var last := attempts[|attempts| - 1]; now == last + RetryIn(notAfter - last)
    ensures forall i :: 0 <= i < |attempts| ==> Scheduled(attempts + [now], notAfter, i)
  {
    hide RetryIn;
    forall i | 0 <= i < |attempts| ensures Scheduled(attempts + [now], notAfter, i) {
      if i < |attempts| - 1 {
        assert Scheduled(attempts, notAfter, i);
      }
    }
  }

  /** ... and none once it would come after expiry. */
  lemma LastAttempt(attempts: seq<int>, notAfter: int)
    requires attempts != [] && var last := attempts[|attempts| - 1]; last + RetryIn(notAfter - last) >= notAfter
    ensures Scheduled(attempts, notAfter, |attempts| - 1)
  {
    hide RetryIn;
  }

  ghost predicate Schedule(attempts: seq<int>, notAfter: int) {
    && (forall i :: 0 <= i < |attempts| ==> attempts[i] < notAfter)
    && forall i :: 0 <= i < |attempts| ==> Scheduled(attempts, notAfter, i)
  }

  /** A failure with at least 120 s left is followed by at least three more attempts
      before expiry. */
  lemma ThreeMoreAttempts(attempts: seq<int>, notAfter: int, i: nat)
    requires Schedule(attempts, notAfter) && i < |attempts| && notAfter - attempts[i] >= 120 * SECOND
    ensures i + 3 < |attempts|
  {
    ThreeMore(notAfter - attempts[i]);
    assert Scheduled(attempts, notAfter, i);
    assert Scheduled(attempts, notAfter, i + 1);
    assert Scheduled(attempts, notAfter, i + 2);
  }

  /** Failed attempts are half a minute to an hour apart, so attempt j comes no sooner
      than 30 s and no later than an hour per step after attempt i. */
  lemma {:induction false} Spacing(attempts: seq<int>, notAfter: int, i: nat, j: nat)
    requires Schedule(attempts, notAfter) && i <= j < |attempts|
    ensures (j - i) * MIN_RETRY <= attempts[j] - attempts[i] <= (j - i) * MAX_RETRY
    decreases j - i
  {
    if i < j {
      assert Scheduled(attempts, notAfter, j - 1);
      Spacing(attempts, notAfter, i, j - 1);
    }
  }

  /** The number of attempts before expiry is at most one per 30 s of validity left at
      the first one, and at least one per hour of it. */
  lemma AttemptsBounded(attempts: seq<int>, notAfter: int)
    requires Schedule(attempts, notAfter) && attempts != []
    ensures (|attempts| - 1) * MIN_RETRY < notAfter - attempts[0] <= |attempts| * MAX_RETRY
  {
    var last := |attempts| - 1;
    Spacing(attempts, notAfter, 0, last);
    assert Scheduled(attempts, notAfter, last);
  }
}
