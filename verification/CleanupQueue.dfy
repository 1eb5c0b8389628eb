/** The persistent cleanup queue: leased jobs and their transitions. */
module CleanupQueue {
  import opened Basics
  import opened Chunks

  // Owners and versions are only compared, so they are numbers here; a job's identifier is its position.

  datatype JobStatus = Pending | Running | Retry | Succeeded | Failed

  /** One exclusive attempt; `token` is never used again. */
  datatype Lease = Lease(token: nat, expires: int)

  datatype Job = Job(owner: nat, version: nat, target: CleanupTarget, status: JobStatus, attempts: nat, maxAttempts: nat,
                     nextAttempt: int, created: int, lease: Option<Lease>, failureCode: Option<string>, completedAt: Option<int>)

  const LEASE_EXPIRED := "CLEANUP_LEASE_EXPIRED"

  /** What the job model accepts when a row is read back. */
  predicate ReplaySafe(job: Job) {
    (job.status == Running <==> job.lease.Some?) &&
    (job.status in {Retry, Failed} <==> job.failureCode.Some?) &&
    (job.status in {Succeeded, Failed} <==> job.completedAt.Some?) &&
    job.attempts <= job.maxAttempts && 1 <= job.maxAttempts &&
    (job.status == Pending ==> job.attempts == 0) && (job.status == Running ==> job.attempts >= 1)
  }

  /** A replay-safe job that can be claimed has an attempt left, so claiming it stays replay-safe. */
  predicate Sound(job: Job) {
    ReplaySafe(job) && (job.status == Retry ==> job.attempts < job.maxAttempts)
  }

  predicate Terminal(job: Job) {
    job.status in {Succeeded, Failed}
  }

  predicate SameWork(a: Job, b: Job) {
    a.owner == b.owner && a.version == b.version && a.target == b.target
  }

  predicate Holds(job: Job, token: nat) {
    job.status == Running && job.lease.Some? && job.lease.value.token == token
  }

  // ---------------------------------------------------------------- the transitions of one job

  function NewJob(owner: nat, version: nat, target: CleanupTarget, maxAttempts: nat, now: int): Job {
    Job(owner, version, target, Pending, 0, maxAttempts, now, now, None, None, None)
  }

  /** Retry, or terminal failure once the attempts are used up. */
  function Rejected(job: Job, code: string, retryAt: int, now: int): Job {
    var last := job.attempts >= job.maxAttempts;
    job.(status := if last then Failed else Retry, nextAttempt := retryAt, lease := None, failureCode := Some(code),
         completedAt := if last then Some(now) else None)
  }

  function Recovered(job: Job, now: int): Job {
    if job.status == Running && job.lease.Some? && job.lease.value.expires <= now then Rejected(job, LEASE_EXPIRED, now, now) else job
  }

  predicate Due(job: Job, now: int) {
    job.status in {Pending, Retry} && job.nextAttempt <= now
  }

  function Leased(job: Job, token: nat, expires: int): Job {
    job.(status := Running, attempts := job.attempts + 1, lease := Some(Lease(token, expires)),
         failureCode := None, completedAt := None)
  }

  function Completed(job: Job, now: int): Job {
    job.(status := Succeeded, lease := None, failureCode := None, completedAt := Some(now))
  }

  function RecoveredAll(jobs: seq<Job>, now: int): (r: seq<Job>)
    ensures |r| == |jobs| && forall i :: 0 <= i < |r| ==> r[i] == Recovered(jobs[i], now)
  {
    seq(|jobs|, i requires 0 <= i < |jobs| => Recovered(jobs[i], now))
  }

  /** The claim order: due time, then creation, then identifier. */
  predicate Precedes(jobs: seq<Job>, i: nat, k: nat)
    requires i < |jobs| && k < |jobs|
  {
    jobs[i].nextAttempt < jobs[k].nextAttempt ||
    (jobs[i].nextAttempt == jobs[k].nextAttempt &&
     (jobs[i].created < jobs[k].created || (jobs[i].created == jobs[k].created && i < k)))
  }

  predicate EarliestDue(jobs: seq<Job>, i: nat, now: int) {
    i < |jobs| && Due(jobs[i], now) && forall k :: 0 <= k < |jobs| && k != i && Due(jobs[k], now) ==>
      Precedes(jobs, i, k)
  }

  /** Every transition keeps a job sound and its work the same; only a claim counts an attempt, and a terminal job is
      left alone. */
  lemma TransitionsKeepSound(job: Job, token: nat, expires: int, code: string, retryAt: int, now: int)
    requires Sound(job)
    ensures Sound(Recovered(job, now)) && SameWork(job, Recovered(job, now))
    ensures Terminal(job) ==> Recovered(job, now) == job && !Due(job, now) && !Holds(job, token)
    ensures Due(job, now) ==> Sound(Leased(job, token, expires)) && Leased(job, token, expires).attempts <= job.maxAttempts
    ensures Holds(job, token) ==> Sound(Completed(job, now)) && Sound(Rejected(job, code, retryAt, now))
    ensures Holds(job, token) ==> (Rejected(job, code, retryAt, now).status == Failed <==> job.attempts == job.maxAttempts)
  {
  }

  /** The claim order is a strict order: by due time first, then by creation, then by identifier; so at most one job is
      the earliest. */
  lemma ClaimOrderIsStrict(jobs: seq<Job>, i: nat, k: nat, now: int)
    requires i < |jobs| && k < |jobs| && i != k
    ensures Precedes(jobs, i, k) <==> !Precedes(jobs, k, i)
    ensures jobs[i].nextAttempt < jobs[k].nextAttempt ==> Precedes(jobs, i, k)
    ensures jobs[i].nextAttempt == jobs[k].nextAttempt && jobs[i].created < jobs[k].created ==> Precedes(jobs, i, k)
    ensures jobs[i].nextAttempt == jobs[k].nextAttempt && jobs[i].created == jobs[k].created && i < k ==> Precedes(jobs, i, k)
    ensures EarliestDue(jobs, i, now) ==> !EarliestDue(jobs, k, now)
  {
  }

  /** What is due: a job never claimed or put back, from its due time on; so a job put back waits until then. */
  lemma DueExactly(job: Job, code: string, retryAt: int, now: int, later: int)
    ensures !Due(job, now) <==> job.status in {Running, Succeeded, Failed} || job.nextAttempt > now
    ensures Due(Rejected(job, code, retryAt, now), later) ==> later >= retryAt && job.attempts < job.maxAttempts
  {
    assert job.status == Pending || job.status == Retry || job.status in {Running, Succeeded, Failed};
  }

  /** Recovery takes back exactly the leases that have run out, also at that very moment. */
  lemma RecoveryTakesExpired(job: Job, now: int)
    requires Sound(job)
    ensures job.status == Running && now >= job.lease.value.expires ==>
      Recovered(job, now).status == if job.attempts == job.maxAttempts then Failed else Retry
    ensures !(job.status == Running && now >= job.lease.value.expires) ==> Recovered(job, now) == job
    ensures Recovered(job, now).status == Running ==> Recovered(job, now).lease.value.expires > now
  {
  }

  // ---------------------------------------------------------------- the repository

  /** Sound jobs, one per piece of work, with every token already issued and held once. */
  ghost predicate WellQueued(jobs: seq<Job>, nextToken: nat) {
    (forall i :: 0 <= i < |jobs| ==> Sound(jobs[i])) &&
    (forall i :: 0 <= i < |jobs| && jobs[i].lease.Some? ==> jobs[i].lease.value.token < nextToken) &&
    (forall i, k :: 0 <= i < k < |jobs| ==> !SameWork(jobs[i], jobs[k])) &&
    (forall i, k :: 0 <= i < k < |jobs| && jobs[i].lease.Some? && jobs[k].lease.Some? ==>
       jobs[i].lease.value.token != jobs[k].lease.value.token)
  }

  lemma RecoveryKeepsQueue(jobs: seq<Job>, nextToken: nat, now: int)
    requires WellQueued(jobs, nextToken)
    ensures WellQueued(RecoveredAll(jobs, now), nextToken)
  {
    var after := RecoveredAll(jobs, now);
    forall i, k | 0 <= i < k < |after| ensures !SameWork(after[i], after[k]) {
      assert !SameWork(jobs[i], jobs[k]);
    }
  }

  lemma ClaimKeepsQueue(jobs: seq<Job>, nextToken: nat, now: int, id: nat, expires: int)
    requires WellQueued(jobs, nextToken) && id < |jobs| && Due(jobs[id], now)
    ensures WellQueued(jobs[id := Leased(jobs[id], nextToken, expires)], nextToken + 1)
  {
    var after := jobs[id := Leased(jobs[id], nextToken, expires)];
    forall i, k | 0 <= i < k < |after| ensures !SameWork(after[i], after[k]) {
      assert !SameWork(jobs[i], jobs[k]);
    }
  }

  lemma ReleaseKeepsQueue(jobs: seq<Job>, nextToken: nat, id: nat, after: Job)
    requires WellQueued(jobs, nextToken) && id < |jobs| && Sound(after) && SameWork(after, jobs[id]) &&
      after.lease.None?
    ensures WellQueued(jobs[id := after], nextToken)
  {
    var later := jobs[id := after];
    forall i, k | 0 <= i < k < |later| ensures !SameWork(later[i], later[k]) {
      assert !SameWork(jobs[i], jobs[k]);
    }
  }

  /** What a claim does when it takes effect: expired leases are taken back, and the earliest due job, if any, is
      leased. */
  ghost predicate ClaimTakes(before: seq<Job>, nextToken: nat, now: int, expires: int, claimed: Option<nat>,
                             after: seq<Job>,
                             nextToken': nat)
  {
    var free := RecoveredAll(before, now);
    match claimed
    case None => after == free && nextToken' == nextToken && forall i :: 0 <= i < |free| ==> !Due(free[i], now)
    case Some(id) =>
      EarliestDue(free, id, now) && after == free[id := Leased(free[id], nextToken, expires)] &&
      nextToken' == nextToken + 1
  }

  ghost predicate ClaimTook(before: seq<Job>, nextToken: nat, now: int, expires: int, after: seq<Job>,
                            nextToken': nat) {
    exists claimed :: ClaimTakes(before, nextToken, now, expires, claimed, after, nextToken')
  }

  class Repository {
    var jobs: seq<Job>
    var now: int
    var nextToken: nat
    const healthy: bool

    ghost predicate Valid()
      reads this
    {
      WellQueued(jobs, nextToken)
    }

    constructor (jobs: seq<Job>, now: int, nextToken: nat, healthy: bool)
      requires WellQueued(jobs, nextToken)
      ensures Valid() && this.jobs == jobs && this.now == now && this.nextToken == nextToken && this.healthy == healthy
    {
      this.jobs, this.now, this.nextToken, this.healthy := jobs, now, nextToken, healthy;
    }

    /** Time passes before every call. */
    method ReadClock()
      modifies this`now
      ensures now >= old(now)
    {
      var later: int := *;
      now := if later > now then later else now;
    }

    method FindEarliestDue() returns (found: Option<nat>)
      ensures found.Some? ==> EarliestDue(jobs, found.value, now)
      ensures found.None? ==> forall i :: 0 <= i < |jobs| ==> !Due(jobs[i], now)
    {
      found := None;
      for i := 0 to |jobs|
        invariant found.None? ==> forall k :: 0 <= k < i ==> !Due(jobs[k], now)
        invariant found.Some? ==> found.value < i && Due(jobs[found.value], now)
        invariant found.Some? ==>
          forall k :: 0 <= k < i && k != found.value && Due(jobs[k], now) ==> Precedes(jobs, found.value, k)
      {
        if Due(jobs[i], now) && (found.None? || Precedes(jobs, i, found.value)) {
          found := Some(i);
        }
      }
    }

    /** Takes back expired leases, then leases the earliest due job. The answer may be lost after the commit: then
        nobody knows of the lease, and it stays until it expires. */
    method ClaimCleanup(leaseSeconds: nat) returns (r: Result<Option<nat>, ()>)
      requires Valid() && leaseSeconds >= 1
      modifies this
      ensures Valid() && now >= old(now)
      ensures r.Ok? ==> ClaimTakes(old(jobs), old(nextToken), now, now + leaseSeconds, r.value, jobs, nextToken)
      ensures r.Raised? ==>
        (jobs == old(jobs) && nextToken == old(nextToken)) ||
        ClaimTook(old(jobs), old(nextToken), now, now + leaseSeconds, jobs, nextToken)
      ensures healthy ==> r.Ok?
    {
      hide WellQueued;
      ReadClock();
      var unreachable: bool, unanswered: bool := *, *;
      if !healthy && unreachable {
        return Raised(());
      }
      RecoveryKeepsQueue(jobs, nextToken, now);
      jobs := RecoveredAll(jobs, now);
      var found := FindEarliestDue();
      if found.Some? {
        ClaimKeepsQueue(jobs, nextToken, now, found.value, now + leaseSeconds);
        jobs := jobs[found.value := Leased(jobs[found.value], nextToken, now + leaseSeconds)];
        nextToken := nextToken + 1;
      }
      assert ClaimTakes(old(jobs), old(nextToken), now, now + leaseSeconds, found, jobs, nextToken);
      r := if !healthy && unanswered then Raised(()) else Ok(found);
    }

    /** Only the exact current attempt may end a job. The answer may be lost after the row is written. */
    method CompleteCleanup(id: nat, token: nat) returns (r: Result<Job, ()>)
      requires Valid() && id < |jobs|
      modifies this`jobs, this`now
      ensures Valid() && now >= old(now)
      ensures r.Ok? ==> Holds(old(jobs)[id], token) && r.value == Completed(old(jobs)[id], now) && jobs == old(jobs)[id := r.value]
      ensures r.Raised? ==>
        jobs == old(jobs) ||
        (Holds(old(jobs)[id], token) && jobs == old(jobs)[id := Completed(old(jobs)[id], now)])
      ensures healthy && Holds(old(jobs)[id], token) ==> r.Ok?
    {
      ReadClock();
      var unreachable: bool, unanswered: bool := *, *;
      if (!healthy && unreachable) || !Holds(jobs[id], token) {
        return Raised(());
      }
      var done := Completed(jobs[id], now);
      ReleaseKeepsQueue(jobs, nextToken, id, done);
      jobs := jobs[id := done];
      r := if !healthy && unanswered then Raised(()) else Ok(done);
    }

    method RecordCleanupFailure(id: nat, token: nat, code: string, retryAt: int) returns (r: Result<Job, ()>)
      requires Valid() && id < |jobs|
      modifies this`jobs, this`now
      ensures Valid() && now >= old(now)
      ensures r.Ok? ==>
        Holds(old(jobs)[id], token) && r.value == Rejected(old(jobs)[id], code, retryAt, now) &&
        jobs == old(jobs)[id := r.value]
      ensures r.Raised? ==>
        jobs == old(jobs) || (Holds(old(jobs)[id], token) && jobs == old(jobs)[id := Rejected(old(jobs)[id], code, retryAt, now)])
      ensures healthy && Holds(old(jobs)[id], token) ==> r.Ok?
    {
      ReadClock();
      var unreachable: bool, unanswered: bool := *, *;
      if (!healthy && unreachable) || !Holds(jobs[id], token) {
        return Raised(());
      }
      var failed := Rejected(jobs[id], code, retryAt, now);
      ReleaseKeepsQueue(jobs, nextToken, id, failed);
      jobs := jobs[id := failed];
      r := if !healthy && unanswered then Raised(()) else Ok(failed);
    }
  }
}
