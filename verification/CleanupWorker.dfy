/** The cleanup worker: claim one due job, delete its physical object, and record the outcome. */
module CleanupWorker {
  import opened Basics
  import opened Chunks
  import opened CleanupQueue
  import opened CleanupProtocol

  // ---------------------------------------------------------------- retry delay

  /** The base delay doubled per attempt after the first, up to the cap. */
  function RetryDelay(attempts: nat, base: nat, cap: nat): nat {
    var raw := base * Power2(if attempts >= 1 then attempts - 1 else 0);
    if raw <= cap then raw else cap
  }

  lemma Power2Zero()
    ensures Power2(0) == 1
  {
  }

  lemma Doubled(base: nat, n: nat)
    requires base >= 1
    ensures base * Power2(n + 1) == 2 * (base * Power2(n)) && base <= base * Power2(n)
  {
  }

  lemma ScaledPower2Grows(base: nat, m: nat, n: nat)
    requires m <= n
    ensures base * Power2(m) <= base * Power2(n)
  {
    Power2Grows(m, n);
  }

  /** Delays start at the base, double with every attempt until the cap, never shrink and never leave [base, cap]. */
  lemma RetryDelayGrows(a: nat, b: nat, base: nat, cap: nat)
    requires a <= b && 1 <= base <= cap
    ensures base <= RetryDelay(a, base, cap) <= RetryDelay(b, base, cap) <= cap
    ensures RetryDelay(1, base, cap) == base
    ensures a >= 1 ==>
      RetryDelay(a + 1, base, cap) ==
      if 2 * RetryDelay(a, base, cap) <= cap then 2 * RetryDelay(a, base, cap) else cap
  {
    hide Power2;
    var m, n := if a >= 1 then a - 1 else 0, if b >= 1 then b - 1 else 0;
    ScaledPower2Grows(base, m, n);
    Doubled(base, m);
    Power2Zero();
  }

  // ---------------------------------------------------------------- the physical stores

  datatype VersionRow = VersionRow(owner: nat, inactive: bool, active: bool)

  predicate IsInactive(versions: map<nat, VersionRow>, v: nat) {
    v in versions && versions[v].inactive && !versions[v].active
  }

  /** The physical stores behind unreliable connections. While `healthy` is false any call may fail before or after its effect, and
      the bytes of a file may have drifted. */
  class Stores {
    var storage: Storage
    const versions: map<nat, VersionRow>
    const healthy: bool

    constructor (storage: Storage, versions: map<nat, VersionRow>, healthy: bool)
      ensures this.storage == storage && this.versions == versions && this.healthy == healthy
    {
      this.storage, this.versions, this.healthy := storage, versions, healthy;
    }

    /** One version's index, in either backend; a missing index is already deleted. */
    method DeleteIndex(version: nat, b: Backend) returns (r: Result<bool, ()>)
      modifies this
      ensures r.Ok? ==> storage == WithoutIndex(old(storage), version, b) && r.value == ((version, b) in old(storage).indexes)
      ensures r.Raised? ==> storage == old(storage) || storage == WithoutIndex(old(storage), version, b)
      ensures healthy ==> r.Ok?
    {
      var unreachable: bool, unanswered: bool := *, *;
      if !healthy && unreachable {
        return Raised(());
      }
      var existed := (version, b) in storage.indexes;
      storage := WithoutIndex(storage, version, b);
      r := if !healthy && unanswered then Raised(()) else Ok(existed);
    }

    method GetInactivePdfObject(version: nat) returns (r: Result<bool, ()>)
      ensures r.Ok? ==> r.value == (version in storage.registered && IsInactive(versions, version))
      ensures healthy ==> r.Ok?
    {
      var unreachable: bool := *;
      r := if !healthy && unreachable then Raised(()) else Ok(version in storage.registered && IsInactive(versions, version));
    }

    /** A file whose bytes drifted is refused; a missing file is already deleted. */
    method DeletePdf(version: nat) returns (r: Result<bool, ()>)
      modifies this
      ensures r.Ok? ==> storage == WithoutFile(old(storage), version) && r.value == (version in old(storage).files)
      ensures r.Raised? ==> storage == old(storage) || storage == WithoutFile(old(storage), version)
      ensures healthy ==> r.Ok?
    {
      var drifted: bool, unanswered: bool := *, *;
      if !healthy && version in storage.files && drifted {
        return Raised(());
      }
      var existed := version in storage.files;
      storage := WithoutFile(storage, version);
      r := if !healthy && unanswered then Raised(()) else Ok(existed);
    }

    method PurgeInactiveSnapshot(version: nat) returns (r: Result<(), ()>)
      modifies this
      ensures r.Ok? ==> IsInactive(versions, version) && storage == Purged(old(storage), version)
      ensures r.Raised? ==> storage == old(storage) || storage == Purged(old(storage), version)
      ensures healthy && IsInactive(versions, version) ==> r.Ok?
    {
      var unreachable: bool, unanswered: bool := *, *;
      if (!healthy && unreachable) || !IsInactive(versions, version) {
        return Raised(());
      }
      storage := Purged(storage, version);
      r := if !healthy && unanswered then Raised(()) else Ok(());
    }

    /** Deletes the PDF first and only then the rows that locate it. */
    method DeleteSnapshot(version: nat) returns (r: Result<bool, ()>)
      modifies this
      ensures r.Ok? ==> storage == Erased(old(storage), version, RuntimeSnapshot, versions)
      ensures r.Ok? ==>
        r.value ==
        (version in old(storage).files && version in old(storage).registered && IsInactive(versions, version))
      ensures DeletionEnds(old(storage), storage, version, RuntimeSnapshot, versions, r.Ok?)
      ensures PartlyErased(old(storage), storage, version)
      ensures healthy ==> r.Ok?
    {
      var located := GetInactivePdfObject(version);
      if located.Raised? {
        return Raised(());
      }
      if !located.value {
        return Ok(false);
      }
      var deleted := DeletePdf(version);
      if deleted.Raised? {
        return Raised(());
      }
      var purged := PurgeInactiveSnapshot(version);
      r := if purged.Raised? then Raised(()) else Ok(deleted.value);
    }
  }

  /** What a completed deletion of one target leaves. */
  function Erased(st: Storage, version: nat, target: CleanupTarget, versions: map<nat, VersionRow>): Storage {
    match target
    case Index(b) => WithoutIndex(st, version, b)
    case RuntimeSnapshot =>
      if version in st.registered && IsInactive(versions, version) then Purged(WithoutFile(st, version), version) else st
  }

  /** How far a deletion of one target gets: all the way, or it stops after a whole number of its calls. */
  ghost predicate DeletionEnds(before: Storage, after: Storage, version: nat, target: CleanupTarget,
                               versions: map<nat, VersionRow>,
                               ok: bool)
  {
    if ok then after == Erased(before, version, target, versions)
    else
      match target
      case Index(b) => after == before || after == WithoutIndex(before, version, b)
      case RuntimeSnapshot =>
        after == before ||
        (version in before.registered && IsInactive(versions, version) &&
         (after == WithoutFile(before, version) || after == Purged(WithoutFile(before, version), version)))
  }

  /** Whatever a deletion did, it only removed things that belong to the version, and its rows only after its file. */
  ghost predicate PartlyErased(before: Storage, after: Storage, version: nat) {
    after.indexes <= before.indexes && after.registered <= before.registered && after.files <= before.files &&
    (forall c :: c in after.chunks ==> c in before.chunks && after.chunks[c] == before.chunks[c]) &&
    (forall c :: c in before.chunks && before.chunks[c] != version ==> c in after.chunks) &&
    (forall v :: v != version ==>
       (v in before.registered ==> v in after.registered) && (v in before.files ==> v in after.files)) &&
    (forall v, b :: v != version && (v, b) in before.indexes ==> (v, b) in after.indexes) &&
    (version in before.registered && version !in after.registered ==> version !in after.files && ChunksOf(after, version) == {})
  }

  // ---------------------------------------------------------------- the worker

  /** The job as recorded, and whether its object was there; a failed deletion has no `existed`. */
  datatype Execution = Execution(id: nat, job: Job, existed: Option<bool>)

  datatype WorkerError = InvalidArgument | ClaimFailed | NotPersisted

  const DELETE_FAILED := "DELETE_FAILED"

  /** One executed job: the earliest due one after expired leases were taken back, now succeeded or put back. */
  ghost predicate Executes(before: seq<Job>, after: seq<Job>, e: Execution, claimedAt: int) {
    var free := RecoveredAll(before, claimedAt);
    EarliestDue(free, e.id, claimedAt) && after == free[e.id := e.job] &&
    SameWork(e.job, free[e.id]) && e.job.attempts == free[e.id].attempts + 1 && Sound(e.job) &&
    (if e.existed.Some? then e.job.status == Succeeded
     else e.job.status == if e.job.attempts == e.job.maxAttempts then Failed else Retry)
  }

  /** A claimed job may end as it was leased, completed or put back; no other job but expired leases changed. */
  ghost predicate LeavesBehind(before: seq<Job>, after: seq<Job>, id: nat, claimedAt: int) {
    var free := RecoveredAll(before, claimedAt);
    EarliestDue(free, id, claimedAt) && |after| == |free| && after == free[id := after[id]] &&
    SameWork(after[id], free[id]) &&
    after[id].attempts == free[id].attempts + 1
  }

  /** A claim that raises left the queue alone, took back expired leases, or leased a job as well. */
  ghost predicate ClaimFails(before: seq<Job>, after: seq<Job>, id: nat, claimedAt: int) {
    after == before || after == RecoveredAll(before, claimedAt) ||
    (LeavesBehind(before, after, id, claimedAt) && after[id].status == Running)
  }

  function ExecutedIds(results: seq<Execution>): set<nat> {
    set i | 0 <= i < |results| :: results[i].id
  }

  /** What was due at `now` is still waiting as it was, or has been executed. */
  ghost predicate StillDue(before: seq<Job>, now: int, after: seq<Job>, results: seq<Execution>) {
    |after| == |before| &&
    forall k :: 0 <= k < |before| && Due(before[k], now) && k !in ExecutedIds(results) ==> after[k] == before[k]
  }

  lemma MoreExecuted(before: seq<Job>, now: int, mid: seq<Job>, after: seq<Job>, results: seq<Execution>, e: Execution,
                     claimedAt: int)
    requires StillDue(before, now, mid, results) && Executes(mid, after, e, claimedAt)
    ensures StillDue(before, now, after, results + [e])
  {
    hide EarliestDue, Sound;
    var free := RecoveredAll(mid, claimedAt);
    assert e.id < |free| by { EarliestIsThere(free, e.id, claimedAt); }
    assert ExecutedIds(results + [e]) == ExecutedIds(results) + {e.id} by {
      assert forall i :: 0 <= i < |results| ==> (results + [e])[i] == results[i];
      assert (results + [e])[|results|] == e;
    }
    forall k | 0 <= k < |before| && Due(before[k], now) && k !in ExecutedIds(results + [e]) ensures after[k] == before[k] {
      assert after[k] == free[k] == Recovered(mid[k], claimedAt);
    }
  }

  lemma EarliestIsThere(jobs: seq<Job>, i: nat, now: int)
    requires EarliestDue(jobs, i, now)
    ensures i < |jobs|
  {
  }

  lemma AllExecuted(before: seq<Job>, now: int, mid: seq<Job>, after: seq<Job>, results: seq<Execution>, claimedAt: int)
    requires StillDue(before, now, mid, results) && after == RecoveredAll(mid, claimedAt) && now <= claimedAt
    requires forall i :: 0 <= i < |after| ==> !Due(after[i], claimedAt)
    ensures forall k :: 0 <= k < |before| && Due(before[k], now) ==> k in ExecutedIds(results)
  {
    assert forall k :: 0 <= k < |before| && Due(before[k], now) ==> Recovered(before[k], claimedAt) == before[k];
  }

  function SucceededIds(results: seq<Execution>): set<nat> {
    set i | 0 <= i < |results| && results[i].existed.Some? :: results[i].id
  }

  /** What a batch did to the queue: each success is recorded under its own job, and nothing else became SUCCEEDED. */
  ghost predicate Accounts(before: seq<Job>, after: seq<Job>, results: seq<Execution>) {
    |after| == |before| &&
    (forall k :: 0 <= k < |after| ==> SameWork(after[k], before[k])) &&
    (forall k :: 0 <= k < |after| && Terminal(before[k]) ==> after[k] == before[k]) &&
    (forall i :: 0 <= i < |results| ==> results[i].id < |after| && !Terminal(before[results[i].id])) &&
    (forall i :: 0 <= i < |results| && results[i].existed.Some? ==> after[results[i].id] == results[i].job) &&
    (forall i, k :: 0 <= i < k < |results| && results[i].existed.Some? ==> results[i].id != results[k].id) &&
    (forall k :: 0 <= k < |after| ==> (after[k].status == Succeeded <==> before[k].status == Succeeded || k in SucceededIds(results)))
  }

  lemma MoreAccounts(before: seq<Job>, mid: seq<Job>, after: seq<Job>, results: seq<Execution>, e: Execution,
                     claimedAt: int)
    requires Accounts(before, mid, results) && Executes(mid, after, e, claimedAt)
    requires forall i :: 0 <= i < |results| && results[i].existed.Some? ==> results[i].job.status == Succeeded
    ensures Accounts(before, after, results + [e])
  {
    hide Sound;
    var more := results + [e];
    assert SucceededIds(more) == SucceededIds(results) + if e.existed.Some? then {e.id} else {} by {
      assert forall i :: 0 <= i < |results| ==> more[i] == results[i];
      assert more[|results|] == e;
    }
    assert !Terminal(mid[e.id]);
    forall i | 0 <= i < |results| && results[i].existed.Some? ensures results[i].id != e.id {
      assert mid[results[i].id].status == Succeeded;
    }
  }

  /** What a batch did to the stores: only removals, every success removed its object, and rows went after files. */
  ghost predicate Cleans(before: Storage, after: Storage, results: seq<Execution>, versions: map<nat, VersionRow>) {
    after.indexes <= before.indexes && after.registered <= before.registered && after.files <= before.files &&
    (forall c :: c in after.chunks ==> c in before.chunks && after.chunks[c] == before.chunks[c]) &&
    (forall v :: v in before.registered && v !in after.registered ==> v !in after.files && ChunksOf(after, v) == {}) &&
    (forall i :: 0 <= i < |results| && results[i].existed.Some? && IsInactive(versions, results[i].job.version) ==>
       Gone(after, results[i].job))
  }

  lemma GoneForGood(before: Storage, after: Storage, job: Job)
    requires after.indexes <= before.indexes && after.registered <= before.registered && Gone(before, job)
    ensures Gone(after, job)
  {
  }

  lemma MoreCleans(before: Storage, mid: Storage, after: Storage, results: seq<Execution>, e: Execution,
                   versions: map<nat, VersionRow>)
    requires Cleans(before, mid, results, versions) && PartlyErased(mid, after, e.job.version)
    requires e.existed.Some? ==> after == Erased(mid, e.job.version, e.job.target, versions)
    ensures Cleans(before, after, results + [e], versions)
  {
    var more := results + [e];
    forall i | 0 <= i < |more| && more[i].existed.Some? && IsInactive(versions, more[i].job.version)
      ensures Gone(after, more[i].job)
    {
      if i < |results| {
        assert more[i] == results[i];
        GoneForGood(mid, after, results[i].job);
      }
    }
    forall v | v in before.registered && v !in after.registered ensures v !in after.files && ChunksOf(after, v) == {} {
      assert ChunksOf(after, v) <= ChunksOf(mid, v);
    }
  }

  // ---------------------------------------------------------------- runs of one worker

  datatype Moment = Moment(process: Worker, world: World)

  /** The worker takes a step of the protocol, or time passes. */
  ghost predicate RunStep(m: Moment, m': Moment) {
    WorkerStep(m.process, m.world, m'.process, m'.world) || (m'.process == m.process && TimePasses(m.world, m'.world))
  }

  ghost predicate WorkerRun(run: seq<Moment>) {
    run != [] && forall i :: 0 <= i < |run| - 1 ==> RunStep(run[i], run[i + 1])
  }

  ghost predicate RunsTo(run: seq<Moment>, process: Worker, world: World) {
    WorkerRun(run) && run[|run| - 1] == Moment(process, world)
  }

  function Grown(run: seq<Moment>, process: Worker, world: World): seq<Moment> {
    run + [Moment(process, world)]
  }

  lemma RunGrows(run: seq<Moment>, w: Worker, a: World, w': Worker, b: World)
    requires RunsTo(run, w, a) && RunStep(Moment(w, a), Moment(w', b))
    ensures RunsTo(Grown(run, w', b), w', b) && Grown(run, w', b)[0] == run[0]
  {
    var longer := Grown(run, w', b);
    forall i | 0 <= i < |longer| - 1 ensures RunStep(longer[i], longer[i + 1]) {
      if i < |run| - 1 {
        assert longer[i] == run[i] && longer[i + 1] == run[i + 1];
      }
    }
  }

  lemma {:induction false} RunsJoin(run: seq<Moment>, more: seq<Moment>)
    requires WorkerRun(run) && WorkerRun(more) && more[0] == run[|run| - 1]
    ensures WorkerRun(run + more[1..]) && (run + more[1..])[0] == run[0]
    ensures (run + more[1..])[|run| + |more| - 2] == more[|more| - 1]
  {
    var joined := run + more[1..];
    forall i | 0 <= i < |joined| - 1 ensures RunStep(joined[i], joined[i + 1]) {
      if i < |run| - 1 {
        assert joined[i] == run[i] && joined[i + 1] == run[i + 1];
      } else {
        assert joined[i] == more[i - |run| + 1] && joined[i + 1] == more[i - |run| + 2];
      }
    }
  }

  /** A run of one worker, started from a reachable state of the whole system, ends in one: what every run of the
      protocol guarantees holds for it, whatever the other workers have done. */
  lemma {:induction false} WorkerRunReaches(s: System, i: nat, run: seq<Moment>)
    requires Reachable(s) && i < |s.workers| && WorkerRun(run) && run[0] == Moment(s.workers[i], s.world)
    ensures var end := run[|run| - 1]; Reachable(System(end.world, s.workers[i := end.process]))
    decreases |run|
  {
    hide Reachable, WorkerStep, TimePasses;
    if |run| == 1 {
      assert s == System(s.world, s.workers[i := s.workers[i]]);
    } else {
      var before := run[..|run| - 1];
      WorkerRunReaches(s, i, before);
      var m, m' := run[|run| - 2], run[|run| - 1];
      var t, t' := System(m.world, s.workers[i := m.process]), System(m'.world, s.workers[i := m'.process]);
      if WorkerStep(m.process, m.world, m'.process, m'.world) {
        assert Moves(t, t', i);
      }
      Extended(t, t');
    }
  }

  function InactiveVersions(versions: map<nat, VersionRow>): set<nat> {
    set v | v in versions && IsInactive(versions, v)
  }

  /** The calls of one deletion are steps of the protocol, up to the point it gets to. */
  lemma DeletionRuns(run: seq<Moment>, id: nat, token: nat, a: World, after: Storage, versions: map<nat, VersionRow>,
                     ok: bool)
    returns (longer: seq<Moment>)
    requires RunsTo(run, Claimed(id, token), a) && id < |a.jobs| && a.inactive == InactiveVersions(versions)
    requires DeletionEnds(a.storage, after, a.jobs[id].version, a.jobs[id].target, versions, ok)
    ensures RunsTo(longer, if ok then Cleared(id, token) else Failing(id, token), a.(storage := after)) && longer[0] == run[0]
  {
    hide RunsTo;
    var job, end, b := a.jobs[id], if ok then Cleared(id, token) else Failing(id, token), a.(storage := after);
    if job.target.RuntimeSnapshot? && job.version in a.storage.registered && job.version in a.inactive &&
      (ok || after != a.storage) {
      RunGrows(run, Claimed(id, token), a, Located(id, token), a);
      longer := Grown(run, Located(id, token), a);
      var c := a.(storage := WithoutFile(a.storage, job.version));
      if !ok && after == c.storage {
        RunGrows(longer, Located(id, token), a, end, b);
        longer := Grown(longer, end, b);
      } else {
        RunGrows(longer, Located(id, token), a, FileDeleted(id, token), c);
        longer := Grown(longer, FileDeleted(id, token), c);
        RunGrows(longer, FileDeleted(id, token), c, end, b);
        longer := Grown(longer, end, b);
      }
    } else {
      RunGrows(run, Claimed(id, token), a, end, b);
      longer := Grown(run, end, b);
    }
  }

  /** Time passes, and then the worker takes a step. */
  lemma LaterStep(run: seq<Moment>, w: Worker, a: World, now: int, w': Worker, b: World) returns (longer: seq<Moment>)
    requires RunsTo(run, w, a) && a.now <= now && WorkerStep(w, a.(now := now), w', b)
    ensures RunsTo(longer, w', b) && longer[0] == run[0]
  {
    hide RunsTo, WorkerStep;
    var later := a.(now := now);
    RunGrows(run, w, a, w, later);
    longer := Grown(run, w, later);
    RunGrows(longer, w, later, w', b);
    longer := Grown(longer, w', b);
  }

  lemma StartRun(a: World) returns (run: seq<Moment>)
    ensures RunsTo(run, Idle, a) && run[0] == Moment(Idle, a)
  {
    run := [Moment(Idle, a)];
  }

  lemma TimeOnly(run: seq<Moment>, a: World, now: int) returns (longer: seq<Moment>)
    requires RunsTo(run, Idle, a) && a.now <= now
    ensures RunsTo(longer, Idle, a.(now := now)) && longer[0] == run[0]
  {
    RunGrows(run, Idle, a, Idle, a.(now := now));
    longer := Grown(run, Idle, a.(now := now));
  }

  /** What a claim leaves is what the protocol's claim leaves, also when its answer is lost. */
  lemma ClaimRuns(run: seq<Moment>, a: World, claim: Option<nat>, expires: int, answered: bool, b: World)
    returns (longer: seq<Moment>)
    requires RunsTo(run, Idle, a) && a.now <= b.now && b == a.(jobs := b.jobs, now := b.now, nextToken := b.nextToken)
    requires ClaimTakes(a.jobs, a.nextToken, b.now, expires, claim, b.jobs, b.nextToken)
    ensures RunsTo(longer, if answered && claim.Some? then Claimed(claim.value, a.nextToken) else Idle, b) && longer[0] == run[0]
  {
    hide RunsTo, RecoveredAll, Due, Leased;
    var end := if answered && claim.Some? then Claimed(claim.value, a.nextToken) else Idle;
    assert Claims(a.(now := b.now), b, end);
    longer := LaterStep(run, Idle, a, b.now, end, b);
  }

  lemma ClaimLost(run: seq<Moment>, a: World, expires: int, b: World) returns (leased: nat, longer: seq<Moment>)
    requires RunsTo(run, Idle, a) && a.now <= b.now && b == a.(jobs := b.jobs, now := b.now, nextToken := b.nextToken)
    requires (b.jobs == a.jobs && b.nextToken == a.nextToken) ||
      ClaimTook(a.jobs, a.nextToken, b.now, expires, b.jobs, b.nextToken)
    ensures ClaimFails(a.jobs, b.jobs, leased, b.now) && RunsTo(longer, Idle, b) && longer[0] == run[0]
  {
    hide RunsTo;
    leased := 0;
    if ClaimTook(a.jobs, a.nextToken, b.now, expires, b.jobs, b.nextToken) {
      var lost :| ClaimTakes(a.jobs, a.nextToken, b.now, expires, lost, b.jobs, b.nextToken);
      longer := ClaimRuns(run, a, lost, expires, false, b);
      leased := if lost.Some? then lost.value else 0;
    } else {
      longer := TimeOnly(run, a, b.now);
    }
  }

  lemma RecordedStep(id: nat, token: nat, code: string, retryAt: int, a: World, b: World)
    requires id < |a.jobs|
    requires b == a || (Holds(a.jobs[id], token) && b == a.(jobs := a.jobs[id := Rejected(a.jobs[id], code, retryAt, a.now)]))
    ensures WorkerStep(Failing(id, token), a, Idle, b)
  {
  }

  lemma CompletedStep(id: nat, token: nat, a: World, b: World)
    requires id < |a.jobs|
    requires b == a || (Holds(a.jobs[id], token) && b == a.(jobs := a.jobs[id := Completed(a.jobs[id], a.now)]))
    ensures WorkerStep(Cleared(id, token), a, Idle, b)
  {
  }

  lemma JoinedRuns(run: seq<Moment>, more: seq<Moment>, process: Worker, world: World) returns (joined: seq<Moment>)
    requires WorkerRun(run) && RunsTo(more, process, world) && more[0] == run[|run| - 1]
    ensures RunsTo(joined, process, world) && joined[0] == run[0]
  {
    RunsJoin(run, more);
    joined := run + more[1..];
  }

  /** The executions a batch has completed, and the queue and stores they left. */
  datatype Progress = Progress(done: seq<Execution>, jobs: seq<Job>, storage: Storage)

  /** Where a batch started. */
  datatype Start = Start(jobs: seq<Job>, now: int, storage: Storage)

  ghost predicate StatusesFit(results: seq<Execution>) {
    forall i :: 0 <= i < |results| ==>
      results[i].job.status in {Succeeded, Failed, Retry} &&
      (results[i].existed.Some? <==> results[i].job.status == Succeeded)
  }

  ghost predicate Advances(start: Start, p: Progress, versions: map<nat, VersionRow>) {
    Accounts(start.jobs, p.jobs, p.done) && Cleans(start.storage, p.storage, p.done, versions) &&
    StillDue(start.jobs, start.now, p.jobs, p.done) && StatusesFit(p.done)
  }

  class IndexCleanupWorker {
    const repository: Repository
    const stores: Stores
    const leaseSeconds: nat
    const baseRetrySeconds: nat
    const maxRetrySeconds: nat

    /** The source rejects any other settings. */
    ghost predicate Valid()
      reads repository
    {
      leaseSeconds >= 1 && 1 <= baseRetrySeconds <= maxRetrySeconds && repository.Valid()
    }

    constructor (repository: Repository, stores: Stores, leaseSeconds: nat, baseRetrySeconds: nat, maxRetrySeconds: nat)
      requires repository.Valid() && leaseSeconds >= 1 && 1 <= baseRetrySeconds <= maxRetrySeconds
      ensures Valid() && this.repository == repository && this.stores == stores
    {
      this.repository, this.stores, this.leaseSeconds := repository, stores, leaseSeconds;
      this.baseRetrySeconds, this.maxRetrySeconds := baseRetrySeconds, maxRetrySeconds;
    }

    /** The world as the protocol sees it; `archived` is the protocol's own memory. */
    ghost function Seen(archived: set<nat>): World
      reads repository, stores
    {
      World(repository.jobs, repository.now, repository.nextToken, stores.storage, InactiveVersions(stores.versions), archived)
    }

    method Delete(job: Job) returns (r: Result<bool, ()>)
      modifies stores
      ensures DeletionEnds(old(stores.storage), stores.storage, job.version, job.target, stores.versions, r.Ok?)
      ensures PartlyErased(old(stores.storage), stores.storage, job.version)
      ensures stores.healthy ==> r.Ok?
    {
      match job.target
      case Index(b) => r := stores.DeleteIndex(job.version, b);
      case RuntimeSnapshot => r := stores.DeleteSnapshot(job.version);
    }

    /** Delete the object of a claimed job, then complete the job or put it back. */
    method Execute(id: nat, ghost archived: set<nat>, ghost run: seq<Moment>)
      returns (r: Result<Execution, WorkerError>, ghost longer: seq<Moment>)
      requires Valid() && id < |repository.jobs| && repository.jobs[id].status == Running
      requires repository.jobs[id].lease.Some? &&
        RunsTo(run, Claimed(id, repository.jobs[id].lease.value.token), Seen(archived))
      modifies repository, stores
      ensures Valid() && repository.now >= old(repository.now)
      // No other job changes, and this one keeps its work and its count of attempts.
      ensures |repository.jobs| == |old(repository.jobs)| && repository.jobs == old(repository.jobs)[id := repository.jobs[id]]
      ensures SameWork(repository.jobs[id], old(repository.jobs)[id]) &&
        repository.jobs[id].attempts == old(repository.jobs)[id].attempts
      ensures r.Ok? ==> r.value.id == id && r.value.job == repository.jobs[id]
      ensures r.Ok? && r.value.existed.Some? ==>
        r.value.job.status == Succeeded &&
        stores.storage == Erased(old(stores.storage), r.value.job.version, r.value.job.target, stores.versions)
      ensures r.Ok? && r.value.existed.None? ==>
        r.value.job.status == (if r.value.job.attempts == r.value.job.maxAttempts then Failed else Retry) &&
        r.value.job.nextAttempt >= old(repository.now) + RetryDelay(r.value.job.attempts, baseRetrySeconds, maxRetrySeconds) &&
        r.value.job.failureCode == Some(DELETE_FAILED)
      ensures PartlyErased(old(stores.storage), stores.storage, repository.jobs[id].version)
      ensures r.Raised? ==> r.error == NotPersisted
      ensures repository.healthy ==> r.Ok?
      ensures stores.healthy && r.Ok? ==> r.value.existed.Some?
      ensures RunsTo(longer, Idle, Seen(archived)) && longer[0] == run[0]
    {
      hide WellQueued, PartlyErased, Erased, RetryDelay, RunsTo, WorkerStep, DeletionEnds;
      JobIsSound(repository.jobs, repository.nextToken, id);
      var job := repository.jobs[id];
      ghost var claimed := Seen(archived);
      var deleted := Delete(job);
      longer := DeletionRuns(run, id, job.lease.value.token, claimed, stores.storage, stores.versions, deleted.Ok?);
      ghost var ended := Seen(archived);
      if deleted.Raised? {
        repository.ReadClock();
        var retryAt := repository.now + RetryDelay(job.attempts, baseRetrySeconds, maxRetrySeconds);
        var failed := repository.RecordCleanupFailure(id, job.lease.value.token, DELETE_FAILED, retryAt);
        RecordedStep(id, job.lease.value.token, DELETE_FAILED, retryAt, ended.(now := repository.now), Seen(archived));
        longer := LaterStep(longer, Failing(id, job.lease.value.token), ended, repository.now, Idle, Seen(archived));
        r := if failed.Raised? then Raised(NotPersisted) else Ok(Execution(id, failed.value, None));
      } else {
        var completed := repository.CompleteCleanup(id, job.lease.value.token);
        CompletedStep(id, job.lease.value.token, ended.(now := repository.now), Seen(archived));
        longer := LaterStep(longer, Cleared(id, job.lease.value.token), ended, repository.now, Idle, Seen(archived));
        r := if completed.Raised? then Raised(NotPersisted) else Ok(Execution(id, completed.value, Some(deleted.value)));
      }
    }

    method RunOnce(ghost archived: set<nat>)
      returns (r: Result<Option<Execution>, WorkerError>, ghost claimedAt: int, ghost leased: nat, ghost run: seq<Moment>)
      requires Valid()
      modifies repository, stores
      ensures Valid() && repository.now >= claimedAt >= old(repository.now)
      ensures r == Ok(None) ==>
        repository.jobs == RecoveredAll(old(repository.jobs), claimedAt) && stores.storage == old(stores.storage) &&
        forall i :: 0 <= i < |repository.jobs| ==> !Due(repository.jobs[i], claimedAt)
      ensures r.Ok? && r.value.Some? ==> Executes(old(repository.jobs), repository.jobs, r.value.value, claimedAt)
      ensures r.Ok? && r.value.Some? && r.value.value.existed.Some? ==>
        stores.storage == Erased(old(stores.storage), r.value.value.job.version, r.value.value.job.target, stores.versions)
      ensures r.Ok? && r.value.Some? && r.value.value.existed.None? ==>
        r.value.value.job.nextAttempt >= claimedAt + RetryDelay(r.value.value.job.attempts, baseRetrySeconds, maxRetrySeconds) &&
        r.value.value.job.failureCode == Some(DELETE_FAILED)
      ensures r.Ok? && r.value.Some? ==> PartlyErased(old(stores.storage), stores.storage, r.value.value.job.version)
      // A failed claim may have taken effect: then a lease is left that nobody knows of.
      ensures r == Raised(ClaimFailed) ==>
        stores.storage == old(stores.storage) && ClaimFails(old(repository.jobs), repository.jobs, leased, claimedAt)
      ensures r == Raised(NotPersisted) ==>
        LeavesBehind(old(repository.jobs), repository.jobs, leased, claimedAt) &&
        PartlyErased(old(stores.storage), stores.storage, repository.jobs[leased].version)
      ensures r != Raised(InvalidArgument)
      // When queue and stores answer, a due job is executed and succeeds.
      ensures repository.healthy ==> r.Ok?
      ensures stores.healthy && r.Ok? && r.value.Some? ==> r.value.value.existed.Some?
      // The call is one complete run of a protocol worker, from idle to idle, however it ends.
      ensures RunsTo(run, Idle, Seen(archived)) && run[0] == Moment(Idle, old(Seen(archived)))
    {
      hide WellQueued, PartlyErased, Erased, RetryDelay, RunsTo, WorkerStep, DeletionEnds, ClaimFails, ClaimTook;
      ghost var start := Seen(archived);
      run := StartRun(start);
      var claim := repository.ClaimCleanup(leaseSeconds);
      claimedAt, leased := repository.now, 0;
      if claim.Raised? {
        leased, run := ClaimLost(run, start, claimedAt + leaseSeconds, Seen(archived));
        return Raised(ClaimFailed), claimedAt, leased, run;
      }
      run := ClaimRuns(run, start, claim.value, claimedAt + leaseSeconds, true, Seen(archived));
      if claim.value.None? {
        return Ok(None), claimedAt, leased, run;
      }
      leased := claim.value.value;
      JobIsSound(repository.jobs, repository.nextToken, leased);
      var executed;
      executed, run := Execute(claim.value.value, archived, run);
      JobIsSound(repository.jobs, repository.nextToken, leased);
      r := if executed.Ok? then Ok(Some(executed.value)) else Raised(NotPersisted);
    }

    /** `before` is what the executions before a raise had done. */
    method RunBatch(maxJobs: int, ghost archived: set<nat>)
      returns (r: Result<seq<Execution>, WorkerError>, ghost claimedAt: int, ghost leased: nat, ghost before: Progress,
               ghost run: seq<Moment>)
      requires Valid()
      modifies repository, stores
      ensures Valid() && (maxJobs < 1 <==> r == Raised(InvalidArgument))
      ensures r == Raised(InvalidArgument) ==> repository.jobs == old(repository.jobs) && stores.storage == old(stores.storage)
      ensures r.Ok? ==> |r.value| <= maxJobs
      ensures r.Ok? ==> Accounts(old(repository.jobs), repository.jobs, r.value)
      ensures r.Ok? ==> Cleans(old(stores.storage), stores.storage, r.value, stores.versions)
      // A short batch stopped because nothing was due.
      ensures r.Ok? && |r.value| < maxJobs ==> forall k :: 0 <= k < |repository.jobs| ==>
        !Due(repository.jobs[k], claimedAt)
      // Only a terminal job, or one with an attempt to go and a later due time, is left by each execution.
      ensures r.Ok? ==> forall i :: 0 <= i < |r.value| ==>
        r.value[i].job.status in {Succeeded, Failed, Retry} &&
        (r.value[i].existed.Some? <==> r.value[i].job.status == Succeeded)
      // No due job is left out of a short batch, and when queue and stores answer, everything succeeds.
      ensures r.Ok? && |r.value| < maxJobs ==>
        forall k :: 0 <= k < |old(repository.jobs)| && Due(old(repository.jobs)[k], old(repository.now)) ==>
          k in ExecutedIds(r.value)
      ensures repository.healthy && maxJobs >= 1 ==> r.Ok?
      ensures stores.healthy && r.Ok? ==> forall i :: 0 <= i < |r.value| ==> r.value[i].existed.Some?
      // A raise loses the results, not the work: the executions before it are accounted for, and the last one left at
      // most a lease, an unreported outcome and a partial deletion.
      ensures r.Raised? && maxJobs >= 1 ==>
        |before.done| < maxJobs && Accounts(old(repository.jobs), before.jobs, before.done) &&
        Cleans(old(stores.storage), before.storage, before.done, stores.versions)
      ensures r == Raised(ClaimFailed) ==>
        stores.storage == before.storage && ClaimFails(before.jobs, repository.jobs, leased, claimedAt)
      ensures r == Raised(NotPersisted) ==>
        LeavesBehind(before.jobs, repository.jobs, leased, claimedAt) &&
        PartlyErased(before.storage, stores.storage, repository.jobs[leased].version)
      // However it ends, the call is one run of a protocol worker.
      ensures RunsTo(run, Idle, Seen(archived)) && run[0] == Moment(Idle, old(Seen(archived)))
    {
      claimedAt, leased := repository.now, 0;
      before := Progress([], repository.jobs, stores.storage);
      run := StartRun(Seen(archived));
      if maxJobs < 1 {
        return Raised(InvalidArgument), claimedAt, leased, before, run;
      }
      hide WellQueued, Sound, Executes, LeavesBehind, ClaimFails, Advances, RetryDelay, RecoveredAll, Due, Accounts, Cleans,
        PartlyErased, Erased, RunsTo, ExecutedIds;
      var results: seq<Execution> := [];
      ghost var start := Start(repository.jobs, repository.now, stores.storage);
      NothingDone(start, stores.versions);
      while |results| < maxJobs
        invariant Valid() && |results| <= maxJobs
        invariant Advances(start, Progress(results, repository.jobs, stores.storage), stores.versions)
        invariant RunsTo(run, Idle, Seen(archived)) && run[0] == Moment(Idle, old(Seen(archived)))
        invariant old(repository.now) <= repository.now
        invariant stores.healthy ==> forall i :: 0 <= i < |results| ==> results[i].existed.Some?
        decreases maxJobs - |results|
      {
        before := Progress(results, repository.jobs, stores.storage);
        var once;
        ghost var part;
        once, claimedAt, leased, part := RunOnce(archived);
        run := JoinedRuns(run, part, Idle, Seen(archived));
        AdvancesMeans(start, before, stores.versions);
        if once.Raised? {
          return Raised(once.error), claimedAt, leased, before, run;
        }
        if once.value.None? {
          RecoveryAccounts(start.jobs, before.jobs, results, claimedAt);
          AllExecuted(start.jobs, start.now, before.jobs, repository.jobs, results, claimedAt);
          return Ok(results), claimedAt, leased, before, run;
        }
        ExecutionAdvances(start, before, Progress(results + [once.value.value], repository.jobs, stores.storage),
                          once.value.value, claimedAt, stores.versions);
        results := results + [once.value.value];
      }
      AdvancesMeans(start, Progress(results, repository.jobs, stores.storage), stores.versions);
      r := Ok(results);
    }
  }

  lemma NothingDone(start: Start, versions: map<nat, VersionRow>)
    ensures Advances(start, Progress([], start.jobs, start.storage), versions)
  {
  }

  lemma AdvancesMeans(start: Start, p: Progress, versions: map<nat, VersionRow>)
    requires Advances(start, p, versions)
    ensures Accounts(start.jobs, p.jobs, p.done) && Cleans(start.storage, p.storage, p.done, versions)
    ensures StillDue(start.jobs, start.now, p.jobs, p.done) && StatusesFit(p.done)
  {
  }

  lemma ExecutionAdvances(start: Start, p: Progress, p': Progress, e: Execution, claimedAt: int,
                          versions: map<nat, VersionRow>)
    requires Advances(start, p, versions) && p'.done == p.done + [e] && Executes(p.jobs, p'.jobs, e, claimedAt)
    requires PartlyErased(p.storage, p'.storage, e.job.version)
    requires e.existed.Some? ==> p'.storage == Erased(p.storage, e.job.version, e.job.target, versions)
    ensures Advances(start, p', versions)
  {
    hide Accounts, Cleans, StillDue, Executes, PartlyErased, Erased;
    ExecutedStatus(p.jobs, p'.jobs, e, claimedAt);
    MoreAccounts(start.jobs, p.jobs, p'.jobs, p.done, e, claimedAt);
    MoreExecuted(start.jobs, start.now, p.jobs, p'.jobs, p.done, e, claimedAt);
    MoreCleans(start.storage, p.storage, p'.storage, p.done, e, versions);
  }

  lemma RecoveryAccounts(before: seq<Job>, mid: seq<Job>, results: seq<Execution>, now: int)
    requires Accounts(before, mid, results)
    requires forall i :: 0 <= i < |results| && results[i].existed.Some? ==> results[i].job.status == Succeeded
    ensures Accounts(before, RecoveredAll(mid, now), results)
  {
  }

  lemma ExecutedStatus(before: seq<Job>, after: seq<Job>, e: Execution, claimedAt: int)
    requires Executes(before, after, e, claimedAt)
    ensures e.job.status in {Succeeded, Failed, Retry} && (e.existed.Some? <==> e.job.status == Succeeded)
  {
  }
}
