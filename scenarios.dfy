/**
 * Concrete situations: what the server answers and computes for small,
 * fully specified inputs.
 */
module Scenarios {
  import opened Options
  import opened Registrations
  import opened OrderedKeys
  import opened LotterySpec

  /** Two tickets for the same slot and number under different emails are different registrations, so both are accepted. */
  lemma SameSlotDifferentEmailsAccepted(now: int)
    ensures CheckOutcome(map[], now, [UserRegistration("a@x.com", now + MillisPerHour, 5),
                                      UserRegistration("b@x.com", now + MillisPerHour, 5)]) == OkResponse
  {
    var regs := [UserRegistration("a@x.com", now + MillisPerHour, 5), UserRegistration("b@x.com", now + MillisPerHour, 5)];
    assert regs[0].userEmail[0] != regs[1].userEmail[0];
    CheckAccepts(map[], now, regs);
  }

  /**
   * The same registration twice in one batch is refused with the repeat
   * message; by the contract of HandleReg, such a batch commits nothing.
   */
  lemma RepeatedRegistrationRejected(now: int)
    ensures var regs := [UserRegistration("a@x.com", now + MillisPerHour, 5),
                         UserRegistration("a@x.com", now + MillisPerHour, 5)];
      RegistrationResponse(map[], now, Some(regs)) == RepeatedSlotResponse
  {
    var regs := [UserRegistration("a@x.com", now + MillisPerHour, 5), UserRegistration("a@x.com", now + MillisPerHour, 5)];
    assert !NoRepeats(regs) by { assert regs[0] == regs[1]; }
    FirstElementErrorNone(map[], now, regs);
  }

  /** A draw time equal to the current time is not in the past. */
  lemma DrawTimeEqualToNowAccepted(now: int)
    ensures CheckOutcome(map[], now, [UserRegistration("a@x.com", now, 7)]) == OkResponse
  {
    CheckAccepts(map[], now, [UserRegistration("a@x.com", now, 7)]);
  }

  /** The first failing registration decides the message, even when a later one fails an earlier test. */
  lemma FirstFailingRegistrationReported(now: int)
    ensures CheckOutcome(map[], now, [UserRegistration("a@x.com", now, 300),
                                      UserRegistration("b@x.com", now - 1, 5)]) == NumberRangeResponse
  {
  }

  /** Within one registration the past-date test comes before the range test. */
  lemma PastDateReportedBeforeRange(now: int)
    ensures CheckOutcome(map[], now, [UserRegistration("a@x.com", now - 1, 300)]) == PastDateResponse
  {
  }

  /** A draw that starts from an empty pool pays a single winning ticket 100, and the pool stays empty. */
  lemma SingleWinnerTakesStake(t: int)
    ensures var store := map[t := [UserRegistration("a@x.com", t, 9)]];
      DrawSweep(store, [t], t, 0, [9]) == Sweep(0, [Notice(UserRegistration("a@x.com", t, 9), 100.0)])
  {
    var r := UserRegistration("a@x.com", t, 9);
    var store := map[t := [r]];
    assert Winners([r], 9) == [r] by { assert [r][..0] == []; }
    assert Draw([r], 0, 9) == DrawOutcome([r], 100.0, 0);
    assert Notify([r], 100.0) == [Notice(r, 100.0)] by { assert [r][..0] == []; }
    assert DrawSweep(store, [t][1..], t, 0, [9][1..]) == Sweep(0, []) by { assert [t][1..] == []; }
  }

  /** A draw that starts from an empty pool leaves 100 in it when its single ticket loses, and nobody is notified. */
  lemma SingleLoserRollsOver(t: int)
    ensures var store := map[t := [UserRegistration("a@x.com", t, 9)]];
      DrawSweep(store, [t], t, 0, [3]) == Sweep(100, [])
  {
    var r := UserRegistration("a@x.com", t, 9);
    var store := map[t := [r]];
    assert Winners([r], 3) == [] by { assert [r][..0] == []; }
    assert Draw([r], 0, 3) == DrawOutcome([], 0.0, 100);
    assert DrawSweep(store, [t][1..], t, 100, [3][1..]) == Sweep(100, []) by { assert [t][1..] == []; }
  }

  /** A draw time exactly one hour old is no longer due, so it is neither drawn nor removed. */
  lemma HourOldDrawTimeNotDue(t: int)
    ensures !Due(t, t + MillisPerHour)
  {
  }

  /**
   * End to end, the stake of a ticket is counted twice: committing the ticket
   * adds 100 to the pool, and drawing its time adds its 100 again. A lone
   * ticket registered at an empty pool therefore wins 200, or leaves 200 in
   * the pool when it loses.
   */
  lemma StakeCountedTwice(t: int)
    ensures var r := UserRegistration("a@x.com", t, 9);
      var store := AppendAll(map[], [r]);
      var pool := 0 + Stake * |[r]|;
      && store == map[t := [r]]
      && SortedKeys(store.Keys) == [t]
      && DrawSweep(store, SortedKeys(store.Keys), t, pool, [9]) == Sweep(0, [Notice(r, 200.0)])
      && DrawSweep(store, SortedKeys(store.Keys), t, pool, [3]) == Sweep(200, [])
  {
    var r := UserRegistration("a@x.com", t, 9);
    assert [r][..0] == [];
    var store := AppendAll(map[], [r]);
    assert store == map[t := [r]] by {
      assert AppendAll(map[], [r]) == Append(map[], r);
      assert Bucket(map[], t) + [r] == [r];
    }
    assert SortedKeys({t} - {t}) == [] by { assert {t} - {t} == {}; }
    assert SortedKeys(store.Keys) == [t] by { assert store.Keys == {t}; }
    assert Winners([r], 9) == [r];
    assert Draw([r], 100, 9) == DrawOutcome([r], 200.0, 0);
    assert Notify([r], 200.0) == [Notice(r, 200.0)];
    assert DrawSweep(store, [t][1..], t, 0, [9][1..]) == Sweep(0, []) by { assert [t][1..] == []; }
    assert Winners([r], 3) == [];
    assert Draw([r], 100, 3) == DrawOutcome([], 0.0, 200);
    assert DrawSweep(store, [t][1..], t, 200, [3][1..]) == Sweep(200, []) by { assert [t][1..] == []; }
  }
}
