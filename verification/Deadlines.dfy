/** Expiry decided by comparing stored texts, and how far that is from comparing times. */
module Deadlines {
  import opened TextOrder
  import opened Timestamp

  // The expiry query's `deadline <= now`, on the stored texts. Years outside 0..9999 never reach it.
  predicate Due(deadline: Instant, now: Instant) {
    InRange(deadline) && InRange(now) && Leq(Format(deadline), Format(now))
  }

  // The approve handler's test, on the times themselves.
  predicate Late(deadline: Instant, now: Instant) {
    now > deadline
  }

  // The two tests differ only inside one second: on equal instants, where the query fires and
  // the handler does not, and on the pairs whose texts compare the wrong way round.
  lemma DueAgainstLate(deadline: Instant, now: Instant)
    requires InRange(deadline) && InRange(now)
    ensures deadline == now ==> Due(deadline, now) && !Late(deadline, now)
    ensures deadline != now ==> (Due(deadline, now) != Late(deadline, now) <==> Reversed(deadline, now))
  {
    TextOrderIsTimeOrder(deadline, now);
  }

  // So the two tests agree on every deadline a second or more away, in either direction.
  lemma DueOutsideOneSecond(deadline: Instant, now: Instant)
    requires InRange(deadline) && InRange(now)
    ensures deadline + SECOND <= now ==> Due(deadline, now) && Late(deadline, now)
    ensures now + SECOND <= deadline ==> !Due(deadline, now) && !Late(deadline, now)
  {
    TextOrderIsTimeOrder(deadline, now);
  }

  // Whatever is due at `n` is due at `m` exactly when the text of `n` is not after that of `m`.
  lemma DueCarriesOver(n: Instant, m: Instant)
    requires InRange(n) && InRange(m)
    ensures (forall d :: Due(d, n) ==> Due(d, m)) <==> Leq(Format(n), Format(m))
  {
    if Leq(Format(n), Format(m)) {
      forall d | Due(d, n) ensures Due(d, m) {
        LeqTransitive(Format(d), Format(n), Format(m));
      }
    } else {
      Trichotomy(Format(n), Format(n));
      assert Due(n, n) && !Due(n, m);
    }
  }

  lemma LaterSecondComesAfter(n: Instant, m: Instant)
    requires InRange(n) && InRange(m) && n / SECOND < m / SECOND
    ensures Leq(Format(n), Format(m))
  {
    TextOrderIsTimeOrder(n, m);
  }

  // The text comparison can be wrong by the whole second but one nanosecond: a deadline on a
  // whole second is still not due 999999999ns later.
  lemma AlmostOneSecondMissed(deadline: Instant)
    requires InRange(deadline) && deadline % SECOND == 0
    ensures InRange(deadline + SECOND - 1) && !Due(deadline, deadline + SECOND - 1)
    ensures InRange(deadline + SECOND) ==> Due(deadline, deadline + SECOND)
  {
    var now := deadline + SECOND - 1;
    assert now / SECOND == deadline / SECOND && now % SECOND == SECOND - 1;
    assert Fraction(0) == "" && Fraction(SECOND - 1) != "";
    assert Reversed(deadline, now);
    TextOrderIsTimeOrder(deadline, now);
    if InRange(deadline + SECOND) {
      DueOutsideOneSecond(deadline, deadline + SECOND);
    }
  }
}
