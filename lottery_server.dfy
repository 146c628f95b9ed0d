/**
 * The lottery server's state and request handlers. The store maps each draw
 * time to the registrations waiting for it and is visited in ascending key
 * order, as a TreeMap is; the pool is a server-wide prize accumulator. The
 * clock value and the random winning numbers are parameters, and winner
 * notifications are recorded in a ghost log.
 */
module Lottery {
  import opened Options
  import opened Registrations
  import opened Results
  import opened OrderedKeys
  import opened LotterySpec

  class LotteryServer {
    var comingReg: Store
    var pool: nat
    /** Every (winner, amount) handed to the notification service, oldest first. */
    ghost var notified: seq<Notice>

    ghost predicate Valid()
      reads this
    {
      StoreInvariant(comingReg) && pool % Stake == 0
    }

    constructor ()
      ensures Valid()
      ensures comingReg == map[] && pool == 0 && notified == []
    {
      comingReg := map[];
      pool := 0;
      notified := [];
    }

    /** The delay from now to the next whole hour, when the draw thread wakes. */
    static function MillisUntilNextHour(now: int): (delay: int)
      ensures 0 < delay <= MillisPerHour
      ensures OnTheHour(now + delay)
      ensures forall t :: now < t < now + delay ==> !OnTheHour(t)
    {
      var nextHour := (now + MillisPerHour) / MillisPerHour * MillisPerHour;
      NextHourIsFirst(now, nextHour);
      nextHour - now
    }

    /**
     * Validates a batch without changing anything: for each registration in
     * list order the past-date, number-range and already-registered tests,
     * then the in-batch repeat test over all pairs of positions.
     */
    method CheckReg(registrations: seq<UserRegistration>, now: int) returns (response: string)
      ensures response == CheckOutcome(comingReg, now, registrations)
    {
      var n := |registrations|;
      var k := 0;
      while k < n
        invariant 0 <= k <= n
        invariant FirstElementError(comingReg, now, registrations) == FirstElementError(comingReg, now, registrations[k..])
      {
        var registration := registrations[k];
        assert registrations[k..][0] == registration && registrations[k..][1..] == registrations[k + 1..];
        if registration.regDate < now {
          return PastDateResponse;
        }
        if registration.regNum < 0 || registration.regNum > 255 {
          return NumberRangeResponse;
        }
        if registration.regDate in comingReg && registration in comingReg[registration.regDate] {
          return RegisteredBeforeResponse;
        }
        k := k + 1;
      }
      assert registrations[n..] == [];
      var i := 0;
      while i < n
        invariant 0 <= i <= n
        invariant forall a, b :: 0 <= a < i && 0 <= b < n && a != b ==> registrations[a] != registrations[b]
      {
        var j := 0;
        while j < n
          invariant 0 <= j <= n
          invariant forall b :: 0 <= b < j && i != b ==> registrations[i] != registrations[b]
        {
          if i != j && registrations[i] == registrations[j] {
            return RepeatedSlotResponse;
          }
          j := j + 1;
        }
        i := i + 1;
      }
      return OkResponse;
    }

    /** Files each registration at the end of its draw time's list and adds the stake to the pool. */
    method ProcessReg(registrations: seq<UserRegistration>)
      modifies this
      ensures comingReg == AppendAll(old(comingReg), registrations)
      ensures pool == old(pool) + Stake * |registrations|
      ensures notified == old(notified)
    {
      var i := 0;
      while i < |registrations|
        invariant 0 <= i <= |registrations|
        invariant comingReg == AppendAll(old(comingReg), registrations[..i])
        invariant pool == old(pool) + Stake * i
        invariant notified == old(notified)
      {
        var registration := registrations[i];
        var dateTime := registration.regDate;
        var list := if dateTime in comingReg then comingReg[dateTime] else [];
        comingReg := comingReg[dateTime := list + [registration]];
        pool := pool + Stake;
        assert registrations[..i + 1][..i] == registrations[..i];
        i := i + 1;
      }
      assert registrations[..i] == registrations;
    }

    /**
     * Handles one registration request: a null or empty batch is refused,
     * otherwise the batch is validated, and only an exact "OK" commits it.
     */
    method HandleReg(registrations: Option<seq<UserRegistration>>, now: int) returns (response: string)
      requires Valid()
      modifies this
      ensures Valid()
      ensures response == RegistrationResponse(old(comingReg), now, registrations)
      ensures response == OkResponse ==>
        comingReg == AppendAll(old(comingReg), registrations.value) &&
        pool == old(pool) + Stake * |registrations.value|
      ensures response != OkResponse ==> comingReg == old(comingReg) && pool == old(pool)
      ensures notified == old(notified)
    {
      if registrations.None? || |registrations.value| == 0 {
        response := NoDataResponse;
      } else {
        response := CheckReg(registrations.value, now);
      }
      if response == OkResponse {
        assert |NoDataResponse| != |OkResponse|;
        AcceptedBatchKeepsInvariant(comingReg, now, registrations.value);
        ProcessReg(registrations.value);
      }
    }

    /**
     * Runs every due draw: visits the draw times in ascending order, draws the
     * next random number for each due one, notifies its winners or rolls its
     * stakes into the pool, and finally removes the due draw times.
     */
    method MakeDraw(now: int, draws: seq<int>)
      requires Valid()
      requires forall i :: 0 <= i < |draws| ==> 0 <= draws[i] <= MaxNumber
      requires CountDue(SortedKeys(comingReg.Keys), now) <= |draws|
      modifies this
      ensures Valid()
      ensures comingReg == old(comingReg) - DueKeys(old(comingReg), now)
      ensures var s := DrawSweep(old(comingReg), SortedKeys(old(comingReg).Keys), now, old(pool), draws);
        pool == s.pool && notified == old(notified) + s.notices
    {
      var store := comingReg;
      var keys := SortedKeys(store.Keys);
      var toBeRemoved := DrawDue(store, keys, now, draws);
      RemoveAll(toBeRemoved);
      CollectedDueKeys(store, keys, now);
      RemovalKeepsInvariant(store, ElementsOf(toBeRemoved));
    }

    /**
     * The loop of makeDraw over the draw times in the given order: each due
     * time takes the next random number and is drawn with the pool left by the
     * previous one; the due times are collected for removal.
     */
    method DrawDue(store: Store, keys: seq<int>, now: int, draws: seq<int>) returns (toBeRemoved: seq<int>)
      requires pool % Stake == 0
      requires forall k :: k in keys ==> k in store
      requires CountDue(keys, now) <= |draws|
      modifies this`pool, this`notified
      ensures pool % Stake == 0
      ensures toBeRemoved == DueOnly(keys, now)
      ensures var s := DrawSweep(store, keys, now, old(pool), draws);
        pool == s.pool && notified == old(notified) + s.notices
    {
      ghost var total := DrawSweep(store, keys, now, pool, draws);
      toBeRemoved := [];
      var used := 0;
      var i := 0;
      while i < |keys|
        invariant 0 <= i <= |keys|
        invariant used + CountDue(keys[i..], now) == CountDue(keys, now)
        invariant toBeRemoved == DueOnly(keys[..i], now)
        invariant pool % Stake == 0
        invariant var s := DrawSweep(store, keys[i..], now, pool, draws[used..]);
          total.pool == s.pool && old(notified) + total.notices == notified + s.notices
      {
        var dateTime := keys[i];
        SweepStep(store, keys, i, now, pool, draws, used);
        assert keys[..i + 1][..i] == keys[..i];
        if dateTime <= now && HoursBetween(dateTime, now) < 1 {
          var winningNumber := draws[used];
          DrawBucket(store[dateTime], winningNumber);
          toBeRemoved := toBeRemoved + [dateTime];
          used := used + 1;
        }
        i := i + 1;
      }
      assert keys[..i] == keys;
    }

    /**
     * The draw for one due time: collect the winners, then either pay each of
     * them an equal share of the pool plus this list's stakes and empty the
     * pool, or roll the stakes into the pool.
     */
    method DrawBucket(bucket: seq<UserRegistration>, winningNumber: int)
      requires pool % Stake == 0
      modifies this`pool, this`notified
      ensures pool % Stake == 0
      ensures var o := Draw(bucket, old(pool), winningNumber);
        pool == o.poolAfter && notified == old(notified) + Notify(o.winners, o.winnings)
    {
      var winners := CollectWinners(bucket, winningNumber);
      var winnings: real := 0.0;
      if |winners| > 0 {
        winnings := (pool + |bucket| * Stake) as real / |winners| as real;
        NotifyWinners(winners, winnings);
        pool := 0;
      } else {
        StakeMultiple(pool, |bucket|);
        pool := pool + Stake * |bucket|;
      }
    }

    /** Hands each winner and the amount won to the notification service, in winner order. */
    method NotifyWinners(winners: seq<UserRegistration>, winnings: real)
      modifies this`notified
      ensures notified == old(notified) + Notify(winners, winnings)
    {
      var w := 0;
      while w < |winners|
        invariant 0 <= w <= |winners|
        invariant notified == old(notified) + Notify(winners[..w], winnings)
      {
        assert winners[..w + 1][..w] == winners[..w];
        notified := notified + [Notice(winners[w], winnings)];
        w := w + 1;
      }
      assert winners[..w] == winners;
    }

    /** Drops every listed draw time, with its list, from the store. */
    method RemoveAll(toBeRemoved: seq<int>)
      modifies this`comingReg
      ensures comingReg == old(comingReg) - ElementsOf(toBeRemoved)
    {
      var t := 0;
      while t < |toBeRemoved|
        invariant 0 <= t <= |toBeRemoved|
        invariant comingReg == old(comingReg) - ElementsOf(toBeRemoved[..t])
      {
        assert toBeRemoved[..t + 1] == toBeRemoved[..t] + [toBeRemoved[t]];
        assert ElementsOf(toBeRemoved[..t + 1]) == ElementsOf(toBeRemoved[..t]) + {toBeRemoved[t]};
        comingReg := comingReg - {toBeRemoved[t]};
        t := t + 1;
      }
      assert toBeRemoved[..t] == toBeRemoved;
    }

    /**
     * Builds one result per draw time in [from, to], in ascending order, each
     * with a fresh random number and the current pool; nothing is changed.
     */
    method GetHisRec(from: int, to: int, draws: seq<int>) returns (results: seq<LotteryResult>)
      requires forall i :: 0 <= i < |draws| ==> 0 <= draws[i] <= MaxNumber
      requires CountInRange(SortedKeys(comingReg.Keys), from, to) <= |draws|
      ensures results == History(comingReg, SortedKeys(comingReg.Keys), from, to, pool, draws)
    {
      results := RecordsInRange(comingReg, SortedKeys(comingReg.Keys), from, to, pool, draws);
    }

    /** The loop of the history query over the given draw times, in their order. */
    static method RecordsInRange(store: Store, keys: seq<int>, from: int, to: int, currentPool: nat, draws: seq<int>)
      returns (results: seq<LotteryResult>)
      requires forall k :: k in keys ==> k in store
      requires CountInRange(keys, from, to) <= |draws|
      ensures results == History(store, keys, from, to, currentPool, draws)
    {
      results := [];
      var used := 0;
      var i := 0;
      while i < |keys|
        invariant 0 <= i <= |keys|
        invariant used + CountInRange(keys[i..], from, to) == CountInRange(keys, from, to)
        invariant History(store, keys, from, to, currentPool, draws) ==
          results + History(store, keys[i..], from, to, currentPool, draws[used..])
      {
        var date := keys[i];
        HistoryStep(store, keys, i, from, to, currentPool, draws, used);
        if !(date < from) && !(date > to) {
          var historicalRecord := HistoricalRecord(date, store[date], currentPool, draws[used]);
          ghost var later := History(store, keys[i + 1..], from, to, currentPool, draws[used + 1..]);
          assert results + [historicalRecord] + later == results + ([historicalRecord] + later);
          results := results + [historicalRecord];
          used := used + 1;
        }
        i := i + 1;
      }
    }

    /** The result for one draw time: its winners for the number drawn and their share of the current pool plus its stakes. */
    static method HistoricalRecord(date: int, entry: seq<UserRegistration>, currentPool: nat, winningNumber: int)
      returns (historicalRecord: LotteryResult)
      ensures historicalRecord == HistoryRecord(date, entry, currentPool, winningNumber)
    {
      var winners := CollectWinners(entry, winningNumber);
      var winnings := if |winners| == 0 then DivisionByZero
                      else Amount((currentPool + |entry| * Stake) as real / |winners| as real);
      historicalRecord := LotteryResult(date, winners, winnings, winningNumber);
    }

    /** The loop shared by the draw and the history query: the list's registrations holding the winning number. */
    static method CollectWinners(bucket: seq<UserRegistration>, winningNumber: int) returns (winners: seq<UserRegistration>)
      ensures winners == Winners(bucket, winningNumber)
    {
      winners := [];
      var j := 0;
      while j < |bucket|
        invariant 0 <= j <= |bucket|
        invariant winners == Winners(bucket[..j], winningNumber)
      {
        assert bucket[..j + 1][..j] == bucket[..j];
        if bucket[j].regNum == winningNumber {
          winners := winners + [bucket[j]];
        }
        j := j + 1;
      }
      assert bucket[..j] == bucket;
    }

    /** Answers a history request: records only when start is strictly before end. */
    method HandleHisDataReq(start: int, end: int, draws: seq<int>) returns (response: HisResponse)
      requires forall i :: 0 <= i < |draws| ==> 0 <= draws[i] <= MaxNumber
      requires start < end ==> CountInRange(SortedKeys(comingReg.Keys), start, end) <= |draws|
      ensures start < end ==>
        response == Records(History(comingReg, SortedKeys(comingReg.Keys), start, end, pool, draws))
      ensures !(start < end) ==> response == RangeError(RangeOrderResponse)
    {
      if start < end {
        var lotteryResults := GetHisRec(start, end, draws);
        response := Records(lotteryResults);
      } else {
        response := RangeError(RangeOrderResponse);
      }
    }
  }

  /** A time at a whole hour of the local clock. */
  predicate OnTheHour(t: int) {
    t % MillisPerHour == 0
  }

  lemma NextHourIsFirst(now: int, nextHour: int)
    requires nextHour == (now + MillisPerHour) / MillisPerHour * MillisPerHour
    ensures now < nextHour <= now + MillisPerHour
    ensures OnTheHour(nextHour)
    ensures forall t :: now < t < nextHour ==> !OnTheHour(t)
  {
    var q := now / MillisPerHour;
    assert now == q * MillisPerHour + now % MillisPerHour;
    assert (now + MillisPerHour) / MillisPerHour == q + 1;
    forall t | now < t < nextHour
      ensures !OnTheHour(t)
    {
      assert q * MillisPerHour <= now < t < (q + 1) * MillisPerHour;
      assert t / MillisPerHour == q;
    }
  }
}
