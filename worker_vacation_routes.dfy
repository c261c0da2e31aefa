/** The vacation-balance request handler: it looks the worker up, rejects a
    missing worker (404) or a worker without a hire date (400), splits the
    worker's vacations by status and hands them to the calculator. */
module WorkerVacationRoutes {
  import opened Calendar
  import opened Seqs
  import opened VacationBalance

  /** The worker row with its vacations, as the repository returns it. */
  datatype WorkerRecord = WorkerRecord(id: int, hireDate: Option<Date>, vacations: seq<Vacation>)

  datatype BalanceResponse =
    | NotFound                        // 404 'Worker not found'
    | MissingHireDate                 // 400 'Worker does not have a hire date'
    | Balance(balance: VacationBalance)

  predicate CountsAsUsed(v: Vacation) {
    v.status == Approved || v.status == Completed
  }

  predicate CountsAsPending(v: Vacation) {
    v.status == Requested
  }

  /** The vacations whose days are used: approved or completed ones, in order. */
  function UsedVacations(vs: seq<Vacation>): (r: seq<Vacation>)
    ensures forall v :: v in r <==> v in vs && (v.status == Approved || v.status == Completed)
    ensures IsSubsequence(r, vs)
  {
    Filter(vs, CountsAsUsed)
  }

  /** The vacations whose days are pending: requested ones, in order. */
  function PendingVacations(vs: seq<Vacation>): (r: seq<Vacation>)
    ensures forall v :: v in r <==> v in vs && v.status == Requested
    ensures IsSubsequence(r, vs)
  {
    Filter(vs, CountsAsPending)
  }

  /** GET /api/workers/:id/vacation-balance; `worker` is what the lookup found. */
  function VacationBalanceHandler(workerId: int, worker: Option<WorkerRecord>, now: Date): (r: BalanceResponse)
    ensures worker.None? <==> r.NotFound?
    ensures r.MissingHireDate? <==> worker.Some? && worker.value.hireDate.None?
    ensures r.Balance? ==>
              r.balance.workerId == workerId && Some(r.balance.hireDate) == worker.value.hireDate
              && r.balance.usedDays == CalculateUsedDays(UsedVacations(worker.value.vacations))
              && r.balance.pendingDays == CalculatePendingDays(PendingVacations(worker.value.vacations))
  {
    match worker
    case None => NotFound
    case Some(w) =>
      match w.hireDate
      case None => MissingHireDate
      case Some(hire) =>
        Balance(GetVacationBalance(workerId, hire, UsedVacations(w.vacations),
                                   PendingVacations(w.vacations), now))
  }

  /** No vacation is both used and pending. */
  lemma UsedAndPendingDisjoint(vs: seq<Vacation>)
    ensures forall v :: v in UsedVacations(vs) ==> v !in PendingVacations(vs)
  {
  }

  /** The days of all vacations split into used, pending, and those of every other
      status (rejected), which count towards neither total. */
  lemma {:induction false} DaysSplitByStatus(vs: seq<Vacation>)
    ensures Sum(vs, DaysOf) == CalculateUsedDays(UsedVacations(vs))
                             + CalculatePendingDays(PendingVacations(vs))
                             + Sum(Filter(vs, IsRejected), DaysOf)
  {
    if vs != [] {
      DaysSplitByStatus(vs[1..]);
    }
  }

  predicate IsRejected(v: Vacation) {
    v.status == Rejected
  }

  /** A rejected vacation changes neither total. */
  lemma RejectedChangesNothing(workerId: int, w: WorkerRecord, v: Vacation, now: Date)
    requires w.hireDate.Some? && v.status == Rejected
    ensures VacationBalanceHandler(workerId, Some(w.(vacations := w.vacations + [v])), now)
            == VacationBalanceHandler(workerId, Some(w), now)
  {
    FilterAppend(w.vacations, [v], CountsAsUsed);
    FilterAppend(w.vacations, [v], CountsAsPending);
    assert [v][1..] == [];
    assert Filter([v], CountsAsUsed) == [] && Filter([v], CountsAsPending) == [];
    var w' := w.(vacations := w.vacations + [v]);
    assert UsedVacations(w'.vacations) == UsedVacations(w.vacations) + [] == UsedVacations(w.vacations);
    assert PendingVacations(w'.vacations) == PendingVacations(w.vacations) + [] == PendingVacations(w.vacations);
    assert w'.hireDate == w.hireDate;
  }
  /** A vacation as created: its status starts as requested. */
  function NewVacation(totalDays: int): (v: Vacation)
    ensures v.totalDays == totalDays && v.status == Requested
  {
    Vacation(totalDays, Requested)
  }

  /** A newly created vacation counts as pending at once: the handler reports its
      days as pending and the available days drop by exactly that many. */
  lemma NewVacationIsPending(workerId: int, w: WorkerRecord, totalDays: int, now: Date)
    requires w.hireDate.Some?
    ensures var before := VacationBalanceHandler(workerId, Some(w), now);
            var after := VacationBalanceHandler(workerId, Some(w.(vacations := w.vacations + [NewVacation(totalDays)])), now);
            && after.balance.usedDays == before.balance.usedDays
            && after.balance.pendingDays == before.balance.pendingDays + totalDays
            && after.balance.availableDays == before.balance.availableDays - totalDays
  {
    var v := NewVacation(totalDays);
    FilterAppend(w.vacations, [v], CountsAsUsed);
    FilterAppend(w.vacations, [v], CountsAsPending);
    assert [v][1..] == [];
    assert Filter([v], CountsAsUsed) == [] && Filter([v], CountsAsPending) == [v];
    assert UsedVacations(w.vacations + [v]) == UsedVacations(w.vacations);
    assert PendingVacations(w.vacations + [v]) == PendingVacations(w.vacations) + [v];
    DaysOfAppend(PendingVacations(w.vacations), v);
  }
}
