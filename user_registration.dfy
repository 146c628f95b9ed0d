/**
 * The registration record: who registered, for which draw time, with which
 * number. Draw times are milliseconds on the server's local clock.
 */
module Registrations {

  /** A Java record: immutable, with component-wise (structural) equality. */
  datatype UserRegistration = UserRegistration(userEmail: string, regDate: int, regNum: int)

  function GetUserEmail(r: UserRegistration): string { r.userEmail }

  function GetRegDate(r: UserRegistration): int { r.regDate }

  function GetRegNum(r: UserRegistration): int { r.regNum }

  /** Two registrations are equal exactly when all three components are. */
  lemma StructuralEquality(a: UserRegistration, b: UserRegistration)
    ensures a == b <==>
      GetUserEmail(a) == GetUserEmail(b) && GetRegDate(a) == GetRegDate(b) && GetRegNum(a) == GetRegNum(b)
  {
  }

  /**
   * The compact constructor validates nothing: any email, any date and any
   * int number construct a registration, and each accessor returns its
   * component unchanged.
   */
  lemma AccessorsRoundTrip(email: string, date: int, num: int)
    ensures GetUserEmail(UserRegistration(email, date, num)) == email
    ensures GetRegDate(UserRegistration(email, date, num)) == date
    ensures GetRegNum(UserRegistration(email, date, num)) == num
  {
  }
}
