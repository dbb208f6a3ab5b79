/** The table `backfill_jobs`; every method is one SQL statement, which may also fail unless
    the database is `available`. */
module BackfillJobs {
  import opened Wrappers
  import opened Entry

  datatype Status = Running | Completed

  datatype Job = Job(logId: bytes, since: nat, startIndex: nat, endIndex: nat, progress: nat, status: Status)

  predicate Mine(job: Job, logId: bytes, since: nat) {
    job.logId == logId && job.since == since
  }

  predicate IsActive(job: Job, logId: bytes, since: nat) {
    Mine(job, logId, since) && job.status == Running
  }

  ghost predicate NoneActive(jobs: map<nat, Job>, logId: bytes, since: nat) {
    forall id :: id in jobs ==> !IsActive(jobs[id], logId, since)
  }

  ghost predicate UniqueActive(jobs: map<nat, Job>) {
    forall i, j :: i in jobs && j in jobs && IsActive(jobs[i], jobs[j].logId, jobs[j].since)
                   && jobs[j].status == Running
                   ==> i == j
  }

  class JobTable {
    var jobs: map<nat, Job>
    var nextId: nat
    const available: bool

    ghost predicate Valid()
      reads this
    {
      (forall id :: id in jobs ==> id < nextId) && UniqueActive(jobs)
    }

    /** The unique index `backfill_jobs_unique_active` refuses a second running job for one target. */
    method Insert(logId: bytes, since: nat, startIndex: nat, endIndex: nat) returns (r: Result<nat, DbError>)
      requires Valid()
      modifies this
      ensures Valid()
      ensures r.Err? ==> jobs == old(jobs) && nextId == old(nextId)
      ensures available ==> (r.Ok? <==> NoneActive(old(jobs), logId, since))
      ensures r.Ok? ==> NoneActive(old(jobs), logId, since) && r.value == old(nextId) && nextId == old(nextId) + 1
      ensures available ==>
              (r.Err? <==> exists id :: id in old(jobs) && old(jobs)[id].status == Running
                                        && old(jobs)[id].logId == logId && old(jobs)[id].since == since)
      ensures r.Ok? ==> jobs == old(jobs)[r.value := Job(logId, since, startIndex, endIndex, startIndex, Running)]
    {
      if id :| id in jobs && jobs[id].logId == logId && jobs[id].since == since && jobs[id].status == Running {
        return Err(UniqueViolation);
      }
      if !available {
        if * {
          return Err(DbUnavailable);
        }
      }
      jobs := jobs[nextId := Job(logId, since, startIndex, endIndex, startIndex, Running)];
      nextId := nextId + 1;
      return Ok(nextId - 1);
    }

    method FindActive(logId: bytes, since: nat) returns (r: Result<Option<nat>, DbError>)
      ensures available ==> r.Ok?
      ensures r.Ok? && r.value.Some? ==> r.value.value in jobs && IsActive(jobs[r.value.value], logId, since)
      ensures r.Ok? && r.value.None? ==> NoneActive(jobs, logId, since)
      ensures r.Ok? ==>
              (r.value.Some? <==> exists id :: id in jobs && jobs[id].status == Running
                                               && jobs[id].logId == logId && jobs[id].since == since)
    {
      if !available {
        if * {
          return Err(DbUnavailable);
        }
      }
      if id :| id in jobs && jobs[id].logId == logId && jobs[id].since == since && jobs[id].status == Running {
        return Ok(Some(id));
      }
      return Ok(None);
    }

    method UpdateProgress(id: nat, progress: nat) returns (r: Result<(), DbError>)
      requires Valid()
      modifies this`jobs
      ensures Valid() && (available ==> r.Ok?)
      ensures jobs == if r.Ok? && id in old(jobs) then old(jobs)[id := old(jobs)[id].(progress := progress)]
              else old(jobs)
    {
      if !available {
        if * {
          return Err(DbUnavailable);
        }
      }
      if id in jobs {
        jobs := jobs[id := jobs[id].(progress := progress)];
      }
      return Ok(());
    }

    method Complete(id: nat) returns (r: Result<(), DbError>)
      requires Valid()
      modifies this`jobs
      ensures Valid() && (available ==> r.Ok?)
      ensures jobs == if r.Ok? && id in old(jobs) then old(jobs)[id := old(jobs)[id].(status := Completed)]
              else old(jobs)
    {
      if !available {
        if * {
          return Err(DbUnavailable);
        }
      }
      if id in jobs {
        jobs := jobs[id := jobs[id].(status := Completed)];
      }
      return Ok(());
    }
  }
}
