/** The value returned for one draw time by a history query. */
module Results {
  import opened Registrations

  /**
   * The total-prize field. The source divides a positive double by the number
   * of winners; with no winners Java's floating-point division yields an
   * infinite value instead of failing, which is kept here as DivisionByZero.
   */
  datatype Prize = Amount(value: real) | DivisionByZero

  /** All four fields are final: a datatype value never changes after construction. */
  datatype LotteryResult = LotteryResult(
    resultDate: int,
    winner: seq<UserRegistration>,
    totalPrize: Prize,
    winTicketNum: int)

  function GetResultDate(r: LotteryResult): int { r.resultDate }

  /** The constructor stores its four arguments unchanged. */
  lemma ConstructorStoresFields(drawingDate: int, winner: seq<UserRegistration>, totalPrize: Prize, winTicketNum: int)
    ensures var r := LotteryResult(drawingDate, winner, totalPrize, winTicketNum);
      r.resultDate == drawingDate && r.winner == winner &&
      r.totalPrize == totalPrize && r.winTicketNum == winTicketNum
  {
  }

  /** The getter returns the date the result was built with. */
  lemma GetResultDateRoundTrip(drawingDate: int, winner: seq<UserRegistration>, totalPrize: Prize, winTicketNum: int)
    ensures GetResultDate(LotteryResult(drawingDate, winner, totalPrize, winTicketNum)) == drawingDate
  {
  }
}
