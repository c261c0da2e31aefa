/** The vacation balance calculator: one vacation day accrues per complete
    month worked since the hire date; days of approved or completed vacations
    are "used", days of requested ones are "pending", and what is left is
    available (possibly negative). */
module VacationBalance {
  import opened Calendar
  import opened Seqs

  datatype VacationStatus = Requested | Approved | Rejected | Completed

  /** A vacation as the calculator and its route see it. */
  datatype Vacation = Vacation(totalDays: int, status: VacationStatus)

  /** The record returned to the client. */
  datatype VacationBalance = VacationBalance(
    workerId: int,
    hireDate: Date,
    monthsWorked: int,
    accruedDays: int,
    usedDays: int,
    pendingDays: int,
    availableDays: int)

  /** Months counted from year 0: 12 * year + month. */
  function MonthIndex(d: Date): int {
    12 * d.year + d.month
  }

  /** The n-th monthly anniversary of `hire` (the same day of the month, n months
      later) has come by `now`, comparing (month, day of month) in that order.
      The anniversary of a 31st in a shorter month therefore falls in the next month. */
  predicate AnniversaryReached(hire: Date, n: int, now: Date) {
    MonthIndex(hire) + n < MonthIndex(now)
    || (MonthIndex(hire) + n == MonthIndex(now) && hire.day <= now.day)
  }

  /** Complete months between the hire date and `now`, never negative. */
  function CalculateMonthsWorked(hire: Date, now: Date): (months: int)
    ensures months >= 0
    ensures forall n :: 1 <= n ==> (n <= months <==> AnniversaryReached(hire, n, now))
  {
    var yearsDiff := now.year - hire.year;
    var monthsDiff := now.month - hire.month;
    var daysDiff := now.day - hire.day;
    var totalMonths := yearsDiff * 12 + monthsDiff;
    var completeMonths := if daysDiff < 0 then totalMonths - 1 else totalMonths;
    if completeMonths < 0 then 0 else completeMonths
  }

  /** Rule: one vacation day per month worked. */
  function CalculateAccruedDays(monthsWorked: int): int {
    monthsWorked
  }

  function DaysOf(v: Vacation): int {
    v.totalDays
  }

  /** Sum of totalDays over the approved (or completed) vacations. */
  function CalculateUsedDays(approved: seq<Vacation>): int {
    Sum(approved, DaysOf)
  }

  /** Sum of totalDays over the requested vacations. */
  function CalculatePendingDays(requested: seq<Vacation>): int {
    Sum(requested, DaysOf)
  }

  function GetVacationBalance(workerId: int, hireDate: Date, approved: seq<Vacation>,
                              requested: seq<Vacation>, now: Date): (b: VacationBalance)
    ensures b.workerId == workerId && b.hireDate == hireDate
    ensures b.monthsWorked >= 0 && b.accruedDays == b.monthsWorked
    ensures forall n :: 1 <= n ==> (n <= b.accruedDays <==> AnniversaryReached(hireDate, n, now))
    ensures b.usedDays == CalculateUsedDays(approved) && b.pendingDays == CalculatePendingDays(requested)
    ensures b.availableDays == b.accruedDays - b.usedDays - b.pendingDays
  {
    var monthsWorked := CalculateMonthsWorked(hireDate, now);
    var accruedDays := CalculateAccruedDays(monthsWorked);
    var usedDays := CalculateUsedDays(approved);
    var pendingDays := CalculatePendingDays(requested);
    VacationBalance(workerId, hireDate, monthsWorked, accruedDays, usedDays, pendingDays,
                    accruedDays - usedDays - pendingDays)
  }

  /** Enough balance: equality is allowed. */
  function CanRequestVacation(availableDays: int, requestedDays: int): (ok: bool)
    ensures ok <==> requestedDays <= availableDays
  {
    requestedDays <= availableDays
  }

  /** Each complete month adds exactly one accrued day. */
  lemma AccruedDaysCountCompleteMonths(hire: Date, now: Date, n: int)
    requires 1 <= n
    ensures n <= CalculateAccruedDays(CalculateMonthsWorked(hire, now)) <==> AnniversaryReached(hire, n, now)
    ensures CalculateAccruedDays(CalculateMonthsWorked(hire, now)) >= 0
  {
  }

  /** A hire date that has not come yet gives zero months. */
  lemma FutureHireDateGivesZero(hire: Date, now: Date)
    requires MonthIndex(now) < MonthIndex(hire)
             || (MonthIndex(now) == MonthIndex(hire) && now.day < hire.day)
    ensures CalculateMonthsWorked(hire, now) == 0
  {
    assert !AnniversaryReached(hire, 1, now);
  }

  /** Hired on 31 January and evaluated on 1 March: one complete month, not two. */
  lemma HiredJanuaryThirtyFirst()
    ensures CalculateMonthsWorked(Date(2025, 1, 31), Date(2025, 3, 1)) == 1
    ensures CalculateMonthsWorked(Date(2025, 1, 31), Date(2025, 2, 28)) == 0
  {
  }

  /** An empty list gives 0 and each further vacation adds its days. */
  lemma {:induction false} DaysOfAppend(vs: seq<Vacation>, v: Vacation)
    ensures CalculateUsedDays([]) == 0 && CalculatePendingDays([]) == 0
    ensures CalculateUsedDays(vs + [v]) == CalculateUsedDays(vs) + v.totalDays
    ensures CalculatePendingDays(vs + [v]) == CalculatePendingDays(vs) + v.totalDays
  {
    SumAppend(vs, [v], DaysOf);
  }

  /** Adding a vacation of d days to either list lowers the available days by exactly d. */
  lemma AddingVacationLowersAvailable(workerId: int, hire: Date, approved: seq<Vacation>,
                                      requested: seq<Vacation>, now: Date, v: Vacation)
    ensures GetVacationBalance(workerId, hire, approved + [v], requested, now).availableDays
            == GetVacationBalance(workerId, hire, approved, requested, now).availableDays - v.totalDays
    ensures GetVacationBalance(workerId, hire, approved, requested + [v], now).availableDays
            == GetVacationBalance(workerId, hire, approved, requested, now).availableDays - v.totalDays
  {
    DaysOfAppend(approved, v);
    DaysOfAppend(requested, v);
  }

  /** A request passes exactly when used, pending and requested days together stay
      within the accrued days, so granting it (as pending) leaves a balance >= 0. */
  lemma CanRequestIffWithinAccrual(workerId: int, hire: Date, approved: seq<Vacation>,
                                   requested: seq<Vacation>, now: Date, v: Vacation)
    ensures var b := GetVacationBalance(workerId, hire, approved, requested, now);
            CanRequestVacation(b.availableDays, v.totalDays)
            <==> b.usedDays + b.pendingDays + v.totalDays <= b.accruedDays
    ensures CanRequestVacation(GetVacationBalance(workerId, hire, approved, requested, now).availableDays, v.totalDays)
            <==> GetVacationBalance(workerId, hire, approved, requested + [v], now).availableDays >= 0
  {
    AddingVacationLowersAvailable(workerId, hire, approved, requested, now, v);
  }

  /** Hired exactly five months ago, two approved days and one pending day. */
  lemma FiveMonthsScenario()
    ensures var b := GetVacationBalance(7, Date(2025, 1, 10), [Vacation(2, Approved)],
                                        [Vacation(1, Requested)], Date(2025, 6, 10));
            b.accruedDays == 5 && b.usedDays == 2 && b.pendingDays == 1 && b.availableDays == 2
  {
    var b := GetVacationBalance(7, Date(2025, 1, 10), [Vacation(2, Approved)],
                                [Vacation(1, Requested)], Date(2025, 6, 10));
    assert b.usedDays == 2 + Sum([], DaysOf);
    assert b.pendingDays == 1 + Sum([], DaysOf);
  }
}
