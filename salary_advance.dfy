/** Salary advances: the current pay-period window for a payment frequency,
    the advances of a worker that overlap a window and their total, the
    amount still available against the base salary, and the ordered
    validation chain that guards the insertion of a new advance. */
module SalaryAdvances {
  import opened Calendar
  import opened Seqs

  /** The worker columns the rules read. */
  datatype Worker = Worker(id: int, workerType: string, baseSalary: Option<int>, paymentFrequency: Option<string>)

  /** A stored advance; dates are millisecond instants. */
  datatype SalaryAdvance = SalaryAdvance(
    id: int,
    workerId: int,
    amount: int,
    advanceDate: int,
    paymentPeriodStart: int,
    paymentPeriodEnd: int,
    notes: Option<string>)

  datatype CreateSalaryAdvanceDto = CreateSalaryAdvanceDto(
    workerId: int,
    amount: int,
    advanceDate: int,
    paymentPeriodStart: int,
    paymentPeriodEnd: int,
    notes: Option<string>)

  datatype AvailableAdvanceInfo = AvailableAdvanceInfo(
    baseSalary: int,
    paymentFrequency: string,
    totalAdvances: int,
    availableAmount: int,
    currentPeriodStart: int,
    currentPeriodEnd: int)

  /** The errors `create` throws, in the order it checks them. */
  datatype SalaryAdvanceError =
    | WorkerNotFound
    | NotDirectEmployee
    | NoBaseSalary
    | ExceedsAvailable(amount: int, available: int)

  /** `worker.paymentFrequency || 'monthly'`: null and the empty string fall back to monthly. */
  function EffectiveFrequency(f: Option<string>): (r: string)
    ensures r == "monthly" || (f.Some? && r == f.value)
    ensures f.Some? && f.value != "" ==> r == f.value
  {
    if f.None? || f.value == "" then "monthly" else f.value
  }

  /** The pay period containing `now`, as the day numbers of its first and last day:
      the Monday-to-Sunday week for "weekly"; days 1-15 or 16-end of month for
      "biweekly"; the whole month for "monthly" and any other value. */
  predicate IsCurrentPeriod(frequency: string, now: Date, first: int, last: int)
    requires ValidDate(now)
  {
    var y, m := now.year, now.month;
    if frequency == "weekly" then
      DayOfWeek(first) == Monday && first <= DayNumberOf(now) <= first + 6 && last == first + 6
    else if frequency == "biweekly" then
      if now.day <= 15 then first == DayNumber(y, m, 1) && last == DayNumber(y, m, 15)
      else first == DayNumber(y, m, 16) && last == DayNumber(y, m, DaysInMonth(y, m))
    else
      first == DayNumber(y, m, 1) && last == DayNumber(y, m, DaysInMonth(y, m))
  }

  /** The Monday computed as `date - day + (day == 0 ? -6 : 1)` starts the week of `n`. */
  lemma MondayOfWeek(n: int)
    ensures var dow := DayOfWeek(n);
            var s := n - dow + (if dow == 0 then -6 else 1);
            DayOfWeek(s) == Monday && s <= n <= s + 6
  {
    var dow := DayOfWeek(n);
    var q := (n + 4) / 7;
    assert n + 4 == 7 * q + dow;
    if dow == 0 {
      assert (n - 6) + 4 == 7 * (q - 1) + 1;
    } else {
      assert (n - dow + 1) + 4 == 7 * q + 1;
    }
  }

  /** getCurrentPaymentPeriod: `start` and `end` begin as today and are moved with
      setDate (which rolls over month ends) and then setHours. */
  method GetCurrentPaymentPeriod(frequency: string, now: Date) returns (start: int, end: int)
    requires ValidDate(now)
    ensures start % MsPerDay == 0 && end % MsPerDay == MsPerDay - 1
    ensures IsCurrentPeriod(frequency, now, start / MsPerDay, end / MsPerDay)
    ensures start <= StartOfDay(DayNumberOf(now)) && EndOfDay(DayNumberOf(now)) <= end
  {
    var startDay := DayNumberOf(now);
    var endDay := DayNumberOf(now);
    if frequency == "weekly" {
      var day := DayOfWeek(DayNumberOf(now));
      var diff := now.day - day + (if day == 0 then -6 else 1);
      startDay := DayNumber(now.year, now.month, diff);
      endDay := DayNumber(now.year, now.month, diff + 6);
      MondayOfWeek(DayNumberOf(now));
    } else if frequency == "biweekly" {
      if now.day <= 15 {
        startDay := DayNumber(now.year, now.month, 1);
        endDay := DayNumber(now.year, now.month, 15);
      } else {
        startDay := DayNumber(now.year, now.month, 16);
        endDay := DayNumber(now.year, now.month, DaysInMonth(now.year, now.month));
      }
    } else {
      startDay := DayNumber(now.year, now.month, 1);
      endDay := DayNumber(now.year, now.month, DaysInMonth(now.year, now.month));
    }
    start := StartOfDay(startDay);
    end := EndOfDay(endDay);
    InstantDay(startDay);
    InstantDay(endDay);
  }

  /** Two windows that both satisfy the period rule are the same window. */
  lemma PeriodIsUnique(frequency: string, now: Date, f1: int, l1: int, f2: int, l2: int)
    requires ValidDate(now)
    requires IsCurrentPeriod(frequency, now, f1, l1) && IsCurrentPeriod(frequency, now, f2, l2)
    ensures f1 == f2 && l1 == l2
  {
    if frequency == "weekly" {
      var q1, q2 := (f1 + 4) / 7, (f2 + 4) / 7;
      assert f1 + 4 == 7 * q1 + 1 && f2 + 4 == 7 * q2 + 1;
      assert -6 <= 7 * (q1 - q2) <= 6;
    }
  }

  /** The biweekly halves split on the 15th, and the second half of a leap-year
      February ends on the 29th. */
  lemma BiweeklyBoundaries(first: int, last: int)
    ensures IsCurrentPeriod("biweekly", Date(2024, 2, 15), first, last)
            <==> first == DayNumber(2024, 2, 1) && last == DayNumber(2024, 2, 15)
    ensures IsCurrentPeriod("biweekly", Date(2024, 2, 16), first, last)
            <==> first == DayNumber(2024, 2, 16) && last == DayNumber(2024, 2, 29)
    ensures IsCurrentPeriod("biweekly", Date(2025, 2, 16), first, last)
            <==> first == DayNumber(2025, 2, 16) && last == DayNumber(2025, 2, 28)
  {
  }

  /** The stored advance's window meets [periodStart, periodEnd]. */
  predicate Overlaps(a: SalaryAdvance, periodStart: int, periodEnd: int) {
    a.paymentPeriodStart <= periodEnd && a.paymentPeriodEnd >= periodStart
  }

  function MatchesQuery(workerId: int, periodStart: Option<int>, periodEnd: Option<int>): SalaryAdvance -> bool {
    (a: SalaryAdvance) => a.workerId == workerId
         && (periodStart.Some? && periodEnd.Some? ==> Overlaps(a, periodStart.value, periodEnd.value))
  }

  /** findByWorkerId: the worker's advances, restricted to those overlapping the
      window when both bounds are given. */
  function FindByWorkerId(advances: seq<SalaryAdvance>, workerId: int,
                          periodStart: Option<int>, periodEnd: Option<int>): (r: seq<SalaryAdvance>)
    ensures forall a :: a in r <==>
              a in advances && a.workerId == workerId
              && (periodStart.Some? && periodEnd.Some? ==> Overlaps(a, periodStart.value, periodEnd.value))
    ensures IsSubsequence(r, advances)
  {
    Filter(advances, MatchesQuery(workerId, periodStart, periodEnd))
  }

  function AmountOf(a: SalaryAdvance): int {
    a.amount
  }

  /** getTotalAdvancesForPeriod: the sum of the amounts of the overlapping advances. */
  function TotalAdvancesForPeriod(advances: seq<SalaryAdvance>, workerId: int, periodStart: int, periodEnd: int): int {
    Sum(FindByWorkerId(advances, workerId, Some(periodStart), Some(periodEnd)), AmountOf)
  }

  /** No advances give a total of 0; a new advance adds its amount exactly when
      it is the worker's and overlaps the window. */
  lemma {:induction false} TotalAfterAppend(advances: seq<SalaryAdvance>, a: SalaryAdvance,
                                            workerId: int, periodStart: int, periodEnd: int)
    ensures TotalAdvancesForPeriod([], workerId, periodStart, periodEnd) == 0
    ensures TotalAdvancesForPeriod(advances + [a], workerId, periodStart, periodEnd)
            == TotalAdvancesForPeriod(advances, workerId, periodStart, periodEnd)
               + (if a.workerId == workerId && Overlaps(a, periodStart, periodEnd) then a.amount else 0)
  {
    var p := MatchesQuery(workerId, Some(periodStart), Some(periodEnd));
    FilterAppend(advances, [a], p);
    SumAppend(Filter(advances, p), Filter([a], p), AmountOf);
    assert [a][1..] == [];
  }

  /** Advances for 1-15 January and 16-31 January: a query for 1-15 January counts only the first. */
  lemma FirstHalfOfJanuary(amount1: int, amount2: int)
    ensures var jan1 := DayNumber(2025, 1, 1);
            var p1 := SalaryAdvance(1, 9, amount1, StartOfDay(jan1), StartOfDay(jan1), EndOfDay(jan1 + 14), None);
            var p2 := SalaryAdvance(2, 9, amount2, StartOfDay(jan1 + 15), StartOfDay(jan1 + 15), EndOfDay(jan1 + 30), None);
            TotalAdvancesForPeriod([p1, p2], 9, StartOfDay(jan1), EndOfDay(jan1 + 14)) == amount1
  {
    var jan1 := DayNumber(2025, 1, 1);
    var p1 := SalaryAdvance(1, 9, amount1, StartOfDay(jan1), StartOfDay(jan1), EndOfDay(jan1 + 14), None);
    var p2 := SalaryAdvance(2, 9, amount2, StartOfDay(jan1 + 15), StartOfDay(jan1 + 15), EndOfDay(jan1 + 30), None);
    TotalAfterAppend([p1], p2, 9, StartOfDay(jan1), EndOfDay(jan1 + 14));
    TotalAfterAppend([], p1, 9, StartOfDay(jan1), EndOfDay(jan1 + 14));
    assert [] + [p1] == [p1] && [p1] + [p2] == [p1, p2];
  }

  /** Eligibility for advances: the worker exists, has a base salary (null is the
      only missing value) and is a direct employee. */
  predicate Eligible(workers: map<int, Worker>, workerId: int) {
    workerId in workers && workers[workerId].baseSalary.Some? && workers[workerId].workerType == "direct"
  }

  /** getAvailableAdvance: nothing for an ineligible worker; otherwise the base
      salary, the advances overlapping the current period and what remains
      (which may be negative). */
  method GetAvailableAdvance(workers: map<int, Worker>, advances: seq<SalaryAdvance>, workerId: int, now: Date)
    returns (info: Option<AvailableAdvanceInfo>)
    requires ValidDate(now)
    ensures info.None? <==> !Eligible(workers, workerId)
    ensures info.Some? ==>
              var w, i := workers[workerId], info.value;
              && i.baseSalary == w.baseSalary.value
              && i.paymentFrequency == EffectiveFrequency(w.paymentFrequency)
              && i.currentPeriodStart % MsPerDay == 0 && i.currentPeriodEnd % MsPerDay == MsPerDay - 1
              && IsCurrentPeriod(i.paymentFrequency, now, i.currentPeriodStart / MsPerDay, i.currentPeriodEnd / MsPerDay)
              && i.totalAdvances == TotalAdvancesForPeriod(advances, workerId, i.currentPeriodStart, i.currentPeriodEnd)
              && i.availableAmount == i.baseSalary - i.totalAdvances
  {
    if workerId !in workers {
      return None;
    }
    var worker := workers[workerId];
    if worker.baseSalary.None? || worker.workerType != "direct" {
      return None;
    }
    var start, end := GetCurrentPaymentPeriod(EffectiveFrequency(worker.paymentFrequency), now);
    var totalAdvances := TotalAdvancesForPeriod(advances, workerId, start, end);
    info := Some(AvailableAdvanceInfo(
      worker.baseSalary.value,
      EffectiveFrequency(worker.paymentFrequency),
      totalAdvances,
      worker.baseSalary.value - totalAdvances,
      start,
      end));
  }

  /** An advance accepted against the available amount, for the worker and
      overlapping the current window, keeps the window's total within the base salary. */
  lemma AcceptedAdvanceStaysWithinSalary(advances: seq<SalaryAdvance>, a: SalaryAdvance, baseSalary: int,
                                         periodStart: int, periodEnd: int)
    requires Overlaps(a, periodStart, periodEnd)
    requires a.amount <= baseSalary - TotalAdvancesForPeriod(advances, a.workerId, periodStart, periodEnd)
    ensures TotalAdvancesForPeriod(advances + [a], a.workerId, periodStart, periodEnd) <= baseSalary
  {
    TotalAfterAppend(advances, a, a.workerId, periodStart, periodEnd);
  }

  function HasId(id: int): SalaryAdvance -> bool {
    (a: SalaryAdvance) => a.id == id
  }

  /** The amount fits within what is available in the current pay period. */
  ghost predicate WithinAvailable(workers: map<int, Worker>, advances: seq<SalaryAdvance>,
                                  data: CreateSalaryAdvanceDto, now: Date)
    requires ValidDate(now) && Eligible(workers, data.workerId)
  {
    var w := workers[data.workerId];
    forall first, last | IsCurrentPeriod(EffectiveFrequency(w.paymentFrequency), now, first, last) ::
      data.amount <= w.baseSalary.value - TotalAdvancesForPeriod(advances, data.workerId, StartOfDay(first), EndOfDay(last))
  }

  /** `amount` is what getAvailableAdvance reports as available: the base salary
      less the worker's advances overlapping the current pay period. */
  ghost predicate AvailableAmountIs(workers: map<int, Worker>, advances: seq<SalaryAdvance>, workerId: int,
                                    now: Date, amount: int)
    requires ValidDate(now) && Eligible(workers, workerId)
  {
    var w := workers[workerId];
    exists first, last :: IsCurrentPeriod(EffectiveFrequency(w.paymentFrequency), now, first, last)
                          && amount == w.baseSalary.value - TotalAdvancesForPeriod(advances, workerId, StartOfDay(first), EndOfDay(last))
  }

  /** The salary-advance table with the workers it refers to. */
  class SalaryAdvanceRepository {
    var workers: map<int, Worker>
    var advances: seq<SalaryAdvance>
    var nextId: int

    /** Every stored id is below the next one handed out, so new ids are fresh. */
    ghost predicate Valid()
      reads this
    {
      forall a :: a in advances ==> a.id < nextId
    }

    constructor (workers: map<int, Worker>)
      ensures Valid() && this.workers == workers && advances == []
    {
      this.workers := workers;
      advances := [];
      nextId := 1;
    }

    /** create: worker exists, is direct, has a base salary, and the amount is at
        most the available amount; the first failing check throws and nothing is stored. */
    method Create(data: CreateSalaryAdvanceDto, now: Date) returns (r: Result<SalaryAdvance, SalaryAdvanceError>)
      requires Valid() && ValidDate(now)
      modifies this
      ensures Valid() && workers == old(workers)
      ensures data.workerId !in workers ==> r == Failure(WorkerNotFound)
      ensures (data.workerId in workers && workers[data.workerId].workerType != "direct")
              ==> r == Failure(NotDirectEmployee)
      ensures (data.workerId in workers && workers[data.workerId].workerType == "direct"
               && workers[data.workerId].baseSalary.None?) ==> r == Failure(NoBaseSalary)
      ensures Eligible(workers, data.workerId) ==>
                (r.Success? <==> WithinAvailable(workers, old(advances), data, now))
      ensures r.Failure? && r.error.ExceedsAvailable? ==>
                && AvailableAmountIs(workers, old(advances), data.workerId, now, r.error.available)
                && r.error.amount == data.amount && r.error.amount > r.error.available
      ensures r.Failure? ==> advances == old(advances) && nextId == old(nextId)
      ensures r.Success? ==>
                r.value == SalaryAdvance(old(nextId), data.workerId, data.amount, data.advanceDate,
                                         data.paymentPeriodStart, data.paymentPeriodEnd, data.notes)
                && advances == old(advances) + [r.value] && nextId == old(nextId) + 1
    {
      if data.workerId !in workers {
        return Failure(WorkerNotFound);
      }
      var worker := workers[data.workerId];
      if worker.workerType != "direct" {
        return Failure(NotDirectEmployee);
      }
      if worker.baseSalary.None? {
        return Failure(NoBaseSalary);
      }
      var info := GetAvailableAdvance(workers, advances, data.workerId, now);
      var available := info.value.availableAmount;
      ghost var first, last := info.value.currentPeriodStart / MsPerDay, info.value.currentPeriodEnd / MsPerDay;
      assert StartOfDay(first) == info.value.currentPeriodStart && EndOfDay(last) == info.value.currentPeriodEnd;
      forall f, l | IsCurrentPeriod(EffectiveFrequency(worker.paymentFrequency), now, f, l)
        ensures f == first && l == last
      {
        PeriodIsUnique(EffectiveFrequency(worker.paymentFrequency), now, f, l, first, last);
      }
      if data.amount > available {
        return Failure(ExceedsAvailable(data.amount, available));
      }
      var row := SalaryAdvance(nextId, data.workerId, data.amount, data.advanceDate,
                               data.paymentPeriodStart, data.paymentPeriodEnd, data.notes);
      advances := advances + [row];
      nextId := nextId + 1;
      r := Success(row);
    }

    /** delete: removes the advance with that id; false when there is none. */
    method Delete(id: int) returns (ok: bool)
      requires Valid()
      modifies this`advances
      ensures Valid()
      ensures ok <==> exists i :: 0 <= i < |old(advances)| && old(advances)[i].id == id
      ensures forall a :: a in advances <==> a in old(advances) && a.id != id
      ensures ok ==> IsSubsequence(advances, old(advances))
      ensures !ok ==> advances == old(advances)
    {
      var k := FindIndex(advances, HasId(id));
      if k < 0 {
        return false;
      }
      advances := Filter(advances, Not(HasId(id)));
      ok := true;
    }
  }
}
