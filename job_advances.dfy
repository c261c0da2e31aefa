/** Advances paid against a job: each advance row raises the job's cached
    `advanceAmount`, and a job whose advances reach its total is marked
    completed; deleting an advance lowers the cached amount again but never
    reverts the status. */
module JobAdvances {
  import opened Seqs

  datatype JobStatus = Pending | InProgress | Completed | Cancelled

  /** The job columns the ledger reads and writes; `advanceAmount` is nullable. */
  datatype Job = Job(totalAmount: int, advanceAmount: Option<int>, status: JobStatus)

  datatype Advance = Advance(id: int, jobId: int, amount: int, description: Option<string>, advanceDate: int)

  datatype CreateAdvanceDto = CreateAdvanceDto(jobId: int, amount: int, description: Option<string>, advanceDate: int)

  /** `Job with ID … not found`. */
  datatype AdvanceError = JobNotFound(jobId: int)

  /** A job as created: status pending and no advances recorded. */
  function NewJob(totalAmount: int): (j: Job)
    ensures j.status == Pending && j.totalAmount == totalAmount && j.advanceAmount.GetOr(0) == 0
  {
    Job(totalAmount, None, Pending)
  }

  /** isJobFullyPaid: the advances cover the total (equality included). */
  predicate IsJobFullyPaid(totalAmount: int, advanceAmount: int) {
    advanceAmount >= totalAmount
  }

  /** The job after an advance of `amount`: a null amount counts as 0, and a job
      that becomes fully paid is completed while any other keeps its status. */
  function AfterAdvance(job: Job, amount: int): (j: Job)
    ensures j.totalAmount == job.totalAmount
    ensures j.advanceAmount.Some? && j.advanceAmount.value == job.advanceAmount.GetOr(0) + amount
    ensures j.status == Completed <==> IsJobFullyPaid(j.totalAmount, j.advanceAmount.value) || job.status == Completed
    ensures !IsJobFullyPaid(j.totalAmount, j.advanceAmount.value) ==> j.status == job.status
  {
    var newAdvanceAmount := job.advanceAmount.GetOr(0) + amount;
    if IsJobFullyPaid(job.totalAmount, newAdvanceAmount) then
      job.(advanceAmount := Some(newAdvanceAmount), status := Completed)
    else
      job.(advanceAmount := Some(newAdvanceAmount))
  }

  /** The job after an advance of `amount` is deleted: a decrement, which leaves
      a null amount null, and the status untouched. */
  function AfterAdvanceRemoved(job: Job, amount: int): (j: Job)
    ensures j.totalAmount == job.totalAmount && j.status == job.status
    ensures j.advanceAmount.None? <==> job.advanceAmount.None?
    ensures j.advanceAmount.GetOr(0) == job.advanceAmount.GetOr(0) - (if job.advanceAmount.Some? then amount else 0)
  {
    match job.advanceAmount
    case None => job
    case Some(current) => job.(advanceAmount := Some(current - amount))
  }

  /** Deleting an advance just recorded restores the amount (null becomes 0)
      but keeps a completion the advance caused. */
  lemma AdvanceThenRemove(job: Job, amount: int)
    ensures AfterAdvanceRemoved(AfterAdvance(job, amount), amount).advanceAmount == Some(job.advanceAmount.GetOr(0))
    ensures IsJobFullyPaid(job.totalAmount, job.advanceAmount.GetOr(0) + amount)
            ==> AfterAdvanceRemoved(AfterAdvance(job, amount), amount).status == Completed
  {
  }

  /** An advance that takes a not-yet-paid job over its total and back: the status stays completed. */
  lemma CompletionIsNotReverted()
    ensures var j := AfterAdvanceRemoved(AfterAdvance(NewJob(500), 500), 500);
            j.status == Completed && !IsJobFullyPaid(j.totalAmount, j.advanceAmount.value)
  {
  }

  function Id(x: int): int {
    x
  }

  /** The job after the advances `amounts`, recorded one after the other. */
  function ApplyAdvances(job: Job, amounts: seq<int>): Job
  {
    if amounts == [] then job
    else AfterAdvance(ApplyAdvances(job, amounts[..|amounts| - 1]), amounts[|amounts| - 1])
  }

  /** The cached amount after a series of advances is their running total, and the
      job is completed once the final total reaches the job's total. */
  lemma {:induction false} ApplyAdvancesAccumulates(job: Job, amounts: seq<int>)
    requires amounts != []
    ensures var j := ApplyAdvances(job, amounts);
            j.advanceAmount == Some(job.advanceAmount.GetOr(0) + Sum(amounts, Id))
            && (IsJobFullyPaid(job.totalAmount, j.advanceAmount.value) ==> j.status == Completed)
            && j.totalAmount == job.totalAmount
  {
    var front, last := amounts[..|amounts| - 1], amounts[|amounts| - 1];
    assert amounts == front + [last];
    SumAppend(front, [last], Id);
    assert Sum([last], Id) == last + Sum([], Id);
    if front != [] {
      ApplyAdvancesAccumulates(job, front);
    }
  }

  /** Advances of 200 and 300 on a job of 500 complete it. */
  lemma TwoAdvancesCompleteJob()
    ensures ApplyAdvances(NewJob(500), [200]).status == Pending
    ensures var j := ApplyAdvances(NewJob(500), [200, 300]);
            j.status == Completed && j.advanceAmount == Some(500)
  {
    assert [200, 300][..1] == [200];
    assert [200][..0] == [];
  }

  /** The amount an advance contributes to the ledger of `jobId`. */
  function AmountFor(jobId: int): Advance -> int {
    (a: Advance) => if a.jobId == jobId then a.amount else 0
  }

  /** The sum of the advances recorded for `jobId`. */
  function LedgerTotal(advances: seq<Advance>, jobId: int): int {
    Sum(advances, AmountFor(jobId))
  }

  /** An added advance raises its own job's ledger by its amount and no other. */
  lemma {:induction false} LedgerAppend(advances: seq<Advance>, a: Advance, jobId: int)
    ensures LedgerTotal(advances + [a], jobId) == LedgerTotal(advances, jobId) + (if a.jobId == jobId then a.amount else 0)
  {
    SumAppend(advances, [a], AmountFor(jobId));
    assert Sum([a], AmountFor(jobId)) == AmountFor(jobId)(a) + Sum([], AmountFor(jobId));
  }

  /** Removing the advance at `k` lowers its own job's ledger by its amount and no other. */
  lemma LedgerRemoveAt(advances: seq<Advance>, k: nat, jobId: int)
    requires k < |advances|
    ensures LedgerTotal(advances[..k] + advances[k + 1..], jobId)
            == LedgerTotal(advances, jobId) - (if advances[k].jobId == jobId then advances[k].amount else 0)
  {
    SumRemoveAt(advances, k, AmountFor(jobId));
  }

  function HasId(id: int): Advance -> bool {
    (a: Advance) => a.id == id
  }

  /** The job and advance tables. */
  class AdvanceRepository {
    var jobs: map<int, Job>
    var advances: seq<Advance>
    var nextId: int

    /** Stored ids are below the next one, every job's cached advance amount
        (null read as 0) is the sum of its advance rows, and it is null only
        while the job has no advance rows. */
    ghost predicate Valid()
      reads this
    {
      (forall a :: a in advances ==> a.id < nextId)
      && (forall jobId :: jobId in jobs ==> jobs[jobId].advanceAmount.GetOr(0) == LedgerTotal(advances, jobId))
      && (forall a :: a in advances && a.jobId in jobs ==> jobs[a.jobId].advanceAmount.Some?)
    }

    constructor (jobs: map<int, Job>)
      requires forall jobId :: jobId in jobs ==> jobs[jobId].advanceAmount.GetOr(0) == 0
      ensures Valid() && this.jobs == jobs && advances == []
    {
      this.jobs := jobs;
      advances := [];
      nextId := 1;
    }

    /** create: a missing job fails and nothing is written; otherwise one row is
        inserted and the job updated, even past its total, in which case
        `warned` reports the console warning. */
    method Create(data: CreateAdvanceDto) returns (r: Result<Advance, AdvanceError>, warned: bool)
      requires Valid()
      modifies this
      ensures Valid()
      ensures data.jobId !in old(jobs) ==>
                r == Failure(JobNotFound(data.jobId)) && !warned
                && jobs == old(jobs) && advances == old(advances) && nextId == old(nextId)
      ensures data.jobId in old(jobs) ==>
                var job := old(jobs)[data.jobId];
                && r == Success(Advance(old(nextId), data.jobId, data.amount, data.description, data.advanceDate))
                && advances == old(advances) + [r.value] && nextId == old(nextId) + 1
                && jobs == old(jobs)[data.jobId := AfterAdvance(job, data.amount)]
                && (warned <==> job.advanceAmount.GetOr(0) + data.amount > job.totalAmount)
    {
      if data.jobId !in jobs {
        return Failure(JobNotFound(data.jobId)), false;
      }
      var job := jobs[data.jobId];
      var totalAmount := job.totalAmount;
      var currentAdvanceAmount := job.advanceAmount.GetOr(0);
      var newAdvanceAmount := currentAdvanceAmount + data.amount;
      warned := newAdvanceAmount > totalAmount;
      var advance := Advance(nextId, data.jobId, data.amount, data.description, data.advanceDate);
      forall jobId | jobId in jobs
        ensures LedgerTotal(advances + [advance], jobId)
                == LedgerTotal(advances, jobId) + (if jobId == data.jobId then data.amount else 0)
      {
        LedgerAppend(advances, advance, jobId);
      }
      advances := advances + [advance];
      nextId := nextId + 1;
      var shouldComplete := IsJobFullyPaid(totalAmount, newAdvanceAmount);
      jobs := jobs[data.jobId := job.(advanceAmount := Some(newAdvanceAmount),
                                      status := if shouldComplete then Completed else job.status)];
      r := Success(advance);
    }

    /** delete: an unknown id, or an advance whose job no longer exists (the
        update fails and the transaction is rolled back), gives false and changes
        nothing; otherwise the row is removed and its job's amount decremented. */
    method Delete(id: int) returns (ok: bool)
      requires Valid()
      modifies this`advances, this`jobs
      ensures Valid()
      ensures ok <==> exists i :: 0 <= i < |old(advances)| && old(advances)[i].id == id
                                  && old(advances)[i].jobId in old(jobs)
                                  && forall j :: 0 <= j < i ==> old(advances)[j].id != id
      ensures !ok ==> jobs == old(jobs) && advances == old(advances)
      ensures ok ==>
                var k := FindIndex(old(advances), HasId(id));
                var a := old(advances)[k];
                && advances == old(advances)[..k] + old(advances)[k + 1..]
                && jobs == old(jobs)[a.jobId := AfterAdvanceRemoved(old(jobs)[a.jobId], a.amount)]
    {
      var k := FindIndex(advances, HasId(id));
      if k < 0 {
        return false;
      }
      var advance := advances[k];
      if advance.jobId !in jobs {
        return false;
      }
      var rest := advances[..k] + advances[k + 1..];
      forall jobId | jobId in jobs
        ensures LedgerTotal(rest, jobId)
                == LedgerTotal(advances, jobId) - (if jobId == advance.jobId then advance.amount else 0)
      {
        LedgerRemoveAt(advances, k, jobId);
      }
      forall a | a in rest
        ensures a in advances
      {
      }
      advances := rest;
      jobs := jobs[advance.jobId := AfterAdvanceRemoved(jobs[advance.jobId], advance.amount)];
      ok := true;
    }
  }
}
