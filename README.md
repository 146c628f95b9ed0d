# Lottery server: registration store and draws

A model of the server side of a small networked lottery. Clients register
tickets (an email, a draw time and a number in 0..255) in batches; the server
keeps them in an ordered map from draw time to the list of tickets for that
time (`comingReg`, a `TreeMap`) and keeps a server-wide prize `pool`. Every
committed ticket adds 100 to the pool. Once an hour the server draws every due
draw time in ascending order. The draw adds 100 per ticket of that time once
more: the tickets holding the random winning number share the pool plus those
stakes evenly and the pool is emptied, or, with no winner, the pool grows by
those stakes. The due time is then removed. A history query re-draws every
stored draw time in a range and returns one result per time.

The model is in Dafny and is organised as the program is:

- `user_registration.dfy` (module `Registrations`): the `UserRegistration`
  record as a datatype with structural equality and its accessors.
- `lottery_result.dfy` (module `Results`): the `LotteryResult` value and the
  `Prize` of a result.
- `ordered_keys.dfy` (module `OrderedKeys`): the ascending key order of a
  `TreeMap`, as `SortedKeys` of a key set.
- `lottery_spec.dfy` (module `LotterySpec`): the server's behaviour as
  functions over the store and the pool (`CheckOutcome`, `AppendAll`, `Draw`,
  `DrawSweep`, `History`) and the lemmas about them: which batches are
  accepted, where committed tickets go, that draws conserve money, and the
  shape of history results.
- `lottery_server.dfy` (module `Lottery`): the `LotteryServer` class with the
  fields `comingReg` and `pool` and the request handlers as imperative
  methods with loops, each proved equal to the function it is specified by.
  Winner notifications are appended to a ghost log `notified`.
- `scenarios.dfy` (module `Scenarios`): small concrete cases.

Time is an integer count of milliseconds on the server's local clock
(`LocalDateTime` has no time zone, so the count is linear). The current time
and the random winning numbers are parameters: `draws` is the stream of
`random.nextInt(256)` results, one taken per drawn key in key order. The pool
is a `nat` (it only ever holds multiples of 100) and shares are exact `real`s.

Points where the code behaves differently from what a reader of the rules
might expect; the model follows the code in each:

- A ticket's stake is counted twice. Committing a ticket adds 100 to the pool
  (T5/src/LotteryServer.java:156), and drawing its time adds `size() * 100`
  again, into the prize (line 59) or into the pool (line 65). A lone ticket
  committed at an empty pool therefore wins 200, or leaves 200 in the pool
  when it loses (`Scenarios.StakeCountedTwice`). The draw's own accounting
  balances (`LotterySpec.SweepConservation`), but only relative to a pool
  that already holds the stakes.
- A history query does not look anything up: it draws each stored time again
  with a fresh random number and the current pool, so two queries over the
  same range can disagree, and a time already drawn and removed never appears.
- A batch of two tickets with the same draw time and number but different
  emails is accepted, because ticket equality covers all three fields
  (`Scenarios.SameSlotDifferentEmailsAccepted`); the repeat test does not
  catch two people choosing the same number for the same time.
- A draw time equal to the current time is accepted, because the test is
  "before now" (`Scenarios.DrawTimeEqualToNowAccepted`).
- A draw time is due only while it is less than one whole hour old. A time
  exactly one hour old or older is never drawn and stays in the store
  (`LotterySpec.DueWindow`, `Scenarios.HourOldDrawTimeNotDue`).
- Nothing synchronises the store between the request handlers and the draw
  thread. The model runs every operation in sequence.

## Model

| member | source | states |
|---|---|---|
| `Registrations.StructuralEquality` | T5/src/UserRegistration.java:4 | two registrations are equal exactly when email, draw time and number are all equal |
| `Registrations.AccessorsRoundTrip` | T5/src/UserRegistration.java:12-39 | any email, date and int number construct a registration (no validation), and each accessor returns its component unchanged |
| `Results.ConstructorStoresFields` | T5/src/LotteryResult.java:11-15 | a result holds exactly the date, winner list, total prize and winning number it was built with |
| `Results.GetResultDateRoundTrip` | T5/src/LotteryResult.java:18-20 | the getter returns the date the result was built with |
| `OrderedKeys.Least` | T5/src/LotteryServer.java:18 | the first key a TreeMap visits is in the key set and no larger than any other key |
| `OrderedKeys.SortedKeys` | T5/src/LotteryServer.java:18 | the key listing holds exactly the keys of the map |
| `OrderedKeys.SortedKeysIncreasing` | T5/src/LotteryServer.java:18 | the key listing is strictly ascending, so each key is visited once and in order |
| `Lottery.LotteryServer.constructor` | T5/src/LotteryServer.java:12-18 | a new server has an empty store, a zero pool and no notifications, and satisfies the store invariant |
| `Lottery.LotteryServer.MillisUntilNextHour` | T5/src/LotteryServer.java:39-43 | the delay is in (0, one hour], ends on a whole hour, and no whole hour lies strictly between now and its end |
| `Lottery.NextHourIsFirst` | T5/src/LotteryServer.java:41 | truncating now plus one hour to the hour gives the first whole hour strictly after now |
| `Lottery.LotteryServer.CheckReg` | T5/src/LotteryServer.java:160-182 | the two validation loops return the response `CheckOutcome` defines for the current store and time, and change nothing |
| `LotterySpec.CheckAccepts` | T5/src/LotteryServer.java:160-181 | a batch gets "OK" exactly when no ticket is in the past, every number is in 0..255, no ticket is already registered for its time, and no two positions hold equal tickets |
| `LotterySpec.FirstElementErrorIsFirst` | T5/src/LotteryServer.java:162-173 | the first loop reports message e exactly when some ticket fails with e and every ticket before it passes all three tests |
| `LotterySpec.FirstElementErrorNone` | T5/src/LotteryServer.java:162-173 | the first loop reports nothing exactly when every ticket passes the past-date, range and already-registered tests |
| `LotterySpec.RegistrationAccepted` | T5/src/LotteryServer.java:136-146 | the handler answers "OK" exactly for a non-null, non-empty batch meeting all four conditions |
| `Lottery.LotteryServer.HandleReg` | T5/src/LotteryServer.java:124-147 | null or empty batches get the no-data message; the response is the validation result; only "OK" commits the batch and adds 100 per ticket; any other response leaves store and pool unchanged; the invariant is kept |
| `Lottery.LotteryServer.ProcessReg` | T5/src/LotteryServer.java:149-158 | the store becomes the batch appended ticket by ticket and the pool grows by 100 per ticket |
| `LotterySpec.AppendAllBuckets` | T5/src/LotteryServer.java:150-152 | after a commit each draw time's list is its old list followed by exactly the batch's tickets for that time, in batch order; a time is a key exactly when it was one or some ticket has it |
| `LotterySpec.AppendAllFrame` | T5/src/LotteryServer.java:152 | a draw time no ticket of the batch names keeps its presence and its list |
| `LotterySpec.AcceptedBatchKeepsInvariant` | T5/src/LotteryServer.java:144-158 | committing an accepted batch keeps every list non-empty, filed under its time, with numbers in range and no two equal tickets, and each ticket is then in its time's list |
| `LotterySpec.DueWindow` | T5/src/LotteryServer.java:49 | a draw time is due exactly when it is at most now and less than one hour before now |
| `LotterySpec.WinnersMembers` | T5/src/LotteryServer.java:51-56 | the winners are exactly the list's tickets carrying the winning number, and no more than the list |
| `Lottery.LotteryServer.CollectWinners` | T5/src/LotteryServer.java:51-56 | the winner loop returns the list's tickets carrying the winning number, in list order |
| `LotterySpec.DrawConservesPrize` | T5/src/LotteryServer.java:57-66 | with winners, winners times share equals pool plus 100 per ticket and the pool becomes 0; without winners the pool grows by 100 per ticket |
| `LotterySpec.DrawPaysOutPrize` | T5/src/LotteryServer.java:57-66 | what one draw pays out plus the pool it leaves equals the pool it found plus the list's stakes |
| `LotterySpec.StakeMultiple` | T5/src/LotteryServer.java:65 | rolling stakes over keeps the pool a multiple of 100 |
| `LotterySpec.TotalPaidNotify` | T5/src/LotteryServer.java:60-62 | notifying every winner of one share pays winners times share in total |
| `Lottery.LotteryServer.NotifyWinners` | T5/src/LotteryServer.java:60-62 | one notification per winner, in winner order, each with the share |
| `Lottery.LotteryServer.DrawBucket` | T5/src/LotteryServer.java:50-66 | one due time's draw leaves the pool and the notification log as `Draw` defines them |
| `Lottery.LotteryServer.DrawDue` | T5/src/LotteryServer.java:47-69 | the loop over the keys draws each due time in order with the pool threaded between them and collects exactly the due times |
| `Lottery.LotteryServer.RemoveAll` | T5/src/LotteryServer.java:70 | removing the collected times drops exactly those keys |
| `Lottery.LotteryServer.MakeDraw` | T5/src/LotteryServer.java:45-71 | the store loses exactly the due keys and keeps every other key and list; pool and notifications are those of the ascending sweep; the invariant is kept |
| `LotterySpec.SweepStep` | T5/src/LotteryServer.java:48-69 | one step of the sweep: a due time consumes the next random number and passes its pool on, a time that is not due is skipped |
| `LotterySpec.CollectedDueKeys` | T5/src/LotteryServer.java:47-70 | the times collected over the full key listing are exactly the due keys of the store |
| `LotterySpec.RemovalKeepsInvariant` | T5/src/LotteryServer.java:70 | removing keys keeps the store invariant |
| `LotterySpec.SweepConservation` | T5/src/LotteryServer.java:47-69 | the draw's own accounting balances over a whole sweep: the old pool plus 100 per ticket of every due time equals the new pool plus everything paid out (these 100s come on top of the ones the commit already added) |
| `LotterySpec.SweepNoticesAreWinners` | T5/src/LotteryServer.java:48-61 | every notification goes to a ticket filed under a due time, and that ticket's number is the random number taken by that time (the one after those taken by the earlier due times) |
| `LotterySpec.DueOnlyMembers` | T5/src/LotteryServer.java:67 | the collected list holds exactly the listed times that are due |
| `Lottery.LotteryServer.GetHisRec` | T5/src/LotteryServer.java:195-213 | the history query returns the records `History` defines over the ascending keys, and changes neither store nor pool |
| `Lottery.LotteryServer.RecordsInRange` | T5/src/LotteryServer.java:196-212 | the loop over the listed times returns the records `History` defines for them, in their order |
| `Lottery.LotteryServer.HistoricalRecord` | T5/src/LotteryServer.java:200-208 | the record for one time holds that time, its winners for the number drawn, the number, and the split prize `HistoryRecord` defines |
| `LotterySpec.HistoryStep` | T5/src/LotteryServer.java:197-210 | one step of the history loop: a time in range consumes the next random number and yields its record, others are skipped |
| `LotterySpec.HistoryLength` | T5/src/LotteryServer.java:197-199 | a history query returns one record per listed time in the inclusive range |
| `LotterySpec.HistoryRecords` | T5/src/LotteryServer.java:198-209 | every record is for a listed time in the range and is built from that time's list with the current pool |
| `LotterySpec.HistoryAscending` | T5/src/LotteryServer.java:197-210 | over ascending keys the records' dates are strictly ascending |
| `LotterySpec.HistoryCovers` | T5/src/LotteryServer.java:197-210 | every listed time in the range has a record |
| `LotterySpec.HistoryShape` | T5/src/LotteryServer.java:195-213 | over ascending keys there is one record per key with from <= date <= to, dates strictly ascending, each built from that key's list with the current pool |
| `LotterySpec.HistoryRecordPrize` | T5/src/LotteryServer.java:200-208 | a record's winners are the list's tickets with its number; its prize is a division by zero exactly when there is no winner, and otherwise winners times prize equals pool plus 100 per ticket |
| `Lottery.LotteryServer.HandleHisDataReq` | T5/src/LotteryServer.java:184-193 | records are returned only when start is strictly before end; otherwise the range-order error |
| `Scenarios.SameSlotDifferentEmailsAccepted` | T5/src/LotteryServer.java:174-180 | two tickets that differ only in email are not a repeat, so the batch is accepted |
| `Scenarios.RepeatedRegistrationRejected` | T5/src/LotteryServer.java:174-180 | the same ticket twice in one batch gets the repeat message (and by `HandleReg`'s contract nothing is committed) |
| `Scenarios.DrawTimeEqualToNowAccepted` | T5/src/LotteryServer.java:163 | a ticket for exactly now is not in the past |
| `Scenarios.FirstFailingRegistrationReported` | T5/src/LotteryServer.java:162-173 | the first failing ticket decides the message, even if a later one fails an earlier test |
| `Scenarios.PastDateReportedBeforeRange` | T5/src/LotteryServer.java:163-168 | within one ticket the past-date test is applied before the range test |
| `Scenarios.SingleWinnerTakesStake` | T5/src/LotteryServer.java:58-63 | a draw that starts from an empty pool pays one winning ticket 100 and leaves the pool 0 |
| `Scenarios.SingleLoserRollsOver` | T5/src/LotteryServer.java:64-65 | a draw that starts from an empty pool leaves 100 in it when its one ticket loses, with no notification |
| `Scenarios.StakeCountedTwice` | T5/src/LotteryServer.java:150-156 | committing one ticket at an empty pool and then drawing its time pays it 200 when it wins, or leaves 200 in the pool when it loses |
| `Scenarios.HourOldDrawTimeNotDue` | T5/src/LotteryServer.java:49 | a draw time exactly one hour old is not due |

## Left out

- Sockets, object streams, the accept loop and the per-client `ClientHandler` thread with its request-tag dispatch (T5/src/LotteryServer.java:79-122): network and serialisation I/O. The handlers are plain method calls. The "invalid object" reply for an undecodable batch is part of that and is not modelled.
- The background draw thread and its `Thread.sleep` loop (T5/src/LotteryServer.java:26-36): concurrency and timing. `MakeDraw` is called with an explicit time, and the delay is `MillisUntilNextHour`.
- Concurrent, unsynchronised access to `comingReg` by the handlers and the draw thread: the model is sequential.
- `LocalDateTime.now()` and `java.util.Random`: the time is a parameter and the random numbers are the `draws` parameter, each in 0..255.
- Nanosecond precision of `LocalDateTime`: time is counted in whole milliseconds. `Lottery.LotteryServer.MillisUntilNextHour` therefore always returns a delay of at least 1; on the source's finer clock, `MILLIS.between` truncates and returns 0 when `now` is less than a millisecond before the hour, and the model does not capture that case.
- `double` arithmetic: the pool is a `nat` and shares are exact reals, so rounding is not modelled. The `int` product `size() * 100` is not modelled as 32-bit, which only matters past about 21 million tickets for one time.
- `Results.Prize`: Java's infinite result of dividing by zero winners in the history query is the `DivisionByZero` value, not an IEEE value.
- The notification service and all console output, including `toString` (T5/src/NotifyMail.java, T5/src/UserRegistration.java:46-53, T5/src/LotteryResult.java:22-30): notifications are entries `(winner, amount)` in the ghost log `notified`.
- The unused method `notifyWinners` (T5/src/LotteryServer.java:72-77): dead code that only prints.
- The client (T5/src/LotteryClient.java): interactive prompting and email checking. It also sends the tags "r" and "h" while the server expects "reg" and "his".
