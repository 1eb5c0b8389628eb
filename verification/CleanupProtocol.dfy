/** Several cleanup workers over one leased queue. */
module CleanupProtocol {
  import opened Chunks
  import opened CleanupQueue

  // A worker may crash between any two calls, every call may fail before or after its effect, leases expire at any
  // moment, and versions that are not yet INACTIVE change freely.

  // ---------------------------------------------------------------- what is to be deleted

  /** The physical indexes, the PDF registrations, the chunk rows with their version, and the PDF files. */
  datatype Storage = Storage(indexes: set<(nat, Backend)>, registered: set<nat>, chunks: map<nat, nat>, files: set<nat>)

  function ChunksOf(st: Storage, version: nat): set<nat> {
    set c | c in st.chunks && st.chunks[c] == version
  }

  function WithoutIndex(st: Storage, version: nat, b: Backend): Storage {
    st.(indexes := st.indexes - {(version, b)})
  }

  function WithoutFile(st: Storage, version: nat): Storage {
    st.(files := st.files - {version})
  }

  /** One transaction removes the chunk rows and the PDF registration. */
  function Purged(st: Storage, version: nat): Storage {
    st.(chunks := map c | c in st.chunks && st.chunks[c] != version :: st.chunks[c], registered := st.registered - {version})
  }

  /** Chunk rows are written and deleted in one transaction with the registration of their PDF. */
  ghost predicate RowsRegistered(st: Storage) {
    forall c :: c in st.chunks ==> st.chunks[c] in st.registered
  }

  /** What a successful deletion leaves: no index, or no PDF registration. */
  predicate Gone(st: Storage, job: Job) {
    match job.target
    case Index(b) => (job.version, b) !in st.indexes
    case RuntimeSnapshot => job.version !in st.registered
  }

  ghost predicate SameVersion(a: Storage, b: Storage, version: nat) {
    (version in a.registered <==> version in b.registered) && (version in a.files <==> version in b.files) &&
    ((version, Elasticsearch) in a.indexes <==> (version, Elasticsearch) in b.indexes) &&
    ((version, Milvus) in a.indexes <==> (version, Milvus) in b.indexes)
  }

  // ---------------------------------------------------------------- the system

  /** `archived` remembers the versions whose PDF was registered when they became INACTIVE. */
  datatype World = World(jobs: seq<Job>, now: int, nextToken: nat, storage: Storage, inactive: set<nat>, archived: set<nat>)

  datatype Worker =
    | Idle
    | Claimed(id: nat, token: nat)
    | Located(id: nat, token: nat)
    | FileDeleted(id: nat, token: nat)
    | Cleared(id: nat, token: nat)
    | Failing(id: nat, token: nat)

  datatype System = System(world: World, workers: seq<Worker>)

  /** The answer to a claim may be lost after the commit; then nobody works under the lease, and it expires. */
  ghost predicate Claims(a: World, b: World, w': Worker) {
    var free := RecoveredAll(a.jobs, a.now);
    (b == a.(jobs := free) && w' == Idle) ||
    exists id: nat, expires: int :: id < |free| && Due(free[id], a.now) &&
      (w' == Claimed(id, a.nextToken) || w' == Idle) &&
      b == a.(jobs := free[id := Leased(free[id], a.nextToken, expires)], nextToken := a.nextToken + 1)
  }

  /** The first deletion call: an index is dropped, or the PDF registration of an INACTIVE version is looked up. */
  predicate Starts(id: nat, token: nat, a: World, w': Worker, b: World)
    requires id < |a.jobs|
  {
    var job := a.jobs[id];
    match job.target
    case Index(backend) =>
      (b == a || b == a.(storage := WithoutIndex(a.storage, job.version, backend))) &&
      (w' == Failing(id, token) || (w' == Cleared(id, token) && Gone(b.storage, job)))
    case RuntimeSnapshot =>
      b == a &&
      (w' == Failing(id, token) ||
       w' == if job.version in a.storage.registered && job.version in a.inactive then Located(id, token) else Cleared(id, token))
  }

  ghost predicate RecordsFailure(id: nat, token: nat, a: World, b: World)
    requires id < |a.jobs|
  {
    Holds(a.jobs[id], token) &&
    exists code: string, retryAt: int :: b == a.(jobs := a.jobs[id := Rejected(a.jobs[id], code, retryAt, a.now)])
  }

  ghost predicate WorkerStep(w: Worker, a: World, w': Worker, b: World) {
    match w
    case Idle => Claims(a, b, w')
    case Claimed(id, token) => id < |a.jobs| && Starts(id, token, a, w', b)
    case Located(id, token) =>
      id < |a.jobs| && (b == a || b == a.(storage := WithoutFile(a.storage, a.jobs[id].version))) &&
      (w' == Failing(id, token) || (w' == FileDeleted(id, token) && a.jobs[id].version !in b.storage.files))
    case FileDeleted(id, token) =>
      id < |a.jobs| &&
      ((b == a && w' == Failing(id, token)) ||
       (b == a.(storage := Purged(a.storage, a.jobs[id].version)) && (w' == Failing(id, token) || w' == Cleared(id, token))))
    case Cleared(id, token) =>
      id < |a.jobs| && w' == Idle &&
      (b == a || (Holds(a.jobs[id], token) && b == a.(jobs := a.jobs[id := Completed(a.jobs[id], a.now)])))
    case Failing(id, token) =>
      id < |a.jobs| && w' == Idle && (b == a || RecordsFailure(id, token, a, b))
  }

  ghost predicate Moves(s: System, s': System, i: nat) {
    i < |s.workers| && |s'.workers| == |s.workers| && s'.workers == s.workers[i := s'.workers[i]] &&
    WorkerStep(s.workers[i], s.world, s'.workers[i], s'.world)
  }

  ghost predicate Crashes(s: System, s': System, i: nat) {
    i < |s.workers| && s' == s.(workers := s.workers[i := Idle])
  }

  ghost predicate Enqueues(a: World, b: World, job: Job) {
    job.version in a.inactive && job.maxAttempts >= 1 &&
    (forall k :: 0 <= k < |a.jobs| ==> !SameWork(a.jobs[k], job)) &&
    job == NewJob(job.owner, job.version, job.target, job.maxAttempts, a.now) && b == a.(jobs := a.jobs + [job])
  }

  predicate Inactivates(a: World, b: World, version: nat) {
    b == a.(inactive := a.inactive + {version},
            archived := if version !in a.inactive && version in a.storage.registered then a.archived + {version} else a.archived)
  }

  /** The PDF file is stored first, in a call of its own. */
  predicate StoresFile(a: World, b: World, version: nat) {
    b == a.(storage := a.storage.(files := a.storage.files + {version}))
  }

  /** Then one transaction registers the PDF and writes the version's chunk rows. */
  ghost predicate PersistsSnapshot(a: World, b: World, version: nat, rows: set<nat>) {
    (forall c :: c in rows && c in a.storage.chunks ==> a.storage.chunks[c] == version) &&
    b == a.(storage := a.storage.(registered := a.storage.registered + {version},
                                  chunks := a.storage.chunks + map c | c in rows :: version))
  }

  ghost predicate WritesIndex(a: World, b: World, version: nat, backend: Backend) {
    b == a.(storage := a.storage.(indexes := a.storage.indexes + {(version, backend)}))
  }

  /** Publication works only on versions that are not INACTIVE. */
  ghost predicate Publishes(a: World, b: World) {
    exists version: nat :: version !in a.inactive && PublishesVersion(a, b, version)
  }

  ghost predicate PublishesVersion(a: World, b: World, version: nat) {
    StoresFile(a, b, version) || (exists rows :: PersistsSnapshot(a, b, version, rows)) ||
    (exists backend :: WritesIndex(a, b, version, backend))
  }

  predicate TimePasses(a: World, b: World) {
    b == a.(now := b.now) && a.now <= b.now
  }

  ghost predicate Environment(a: World, b: World) {
    TimePasses(a, b) || Publishes(a, b) ||
    (exists job :: Enqueues(a, b, job)) || (exists version :: Inactivates(a, b, version))
  }

  ghost predicate Next(s: System, s': System) {
    (s'.workers == s.workers && Environment(s.world, s'.world)) ||
    exists i: nat :: Moves(s, s', i) || Crashes(s, s', i)
  }

  ghost predicate Init(s: System) {
    s.world.jobs == [] && s.world.inactive == {} && s.world.archived == {} && RowsRegistered(s.world.storage) &&
    forall i :: 0 <= i < |s.workers| ==> s.workers[i] == Idle
  }

  ghost predicate Run(run: seq<System>) {
    run != [] && Init(run[0]) && forall i :: 0 <= i < |run| - 1 ==> Next(run[i], run[i + 1])
  }

  // ---------------------------------------------------------------- the invariant

  predicate Busy(w: Worker) {
    !w.Idle?
  }

  /** A busy worker holds its own token, and what it has deleted stays deleted. */
  ghost predicate WorkerSound(w: Worker, a: World) {
    Busy(w) ==>
      w.id < |a.jobs| && w.token < a.nextToken &&
      (forall k :: 0 <= k < |a.jobs| && Holds(a.jobs[k], w.token) ==> k == w.id) &&
      (w.Located? || w.FileDeleted? ==> a.jobs[w.id].target == RuntimeSnapshot && a.jobs[w.id].version in a.archived) &&
      (w.FileDeleted? ==> a.jobs[w.id].version !in a.storage.files) &&
      (w.Cleared? ==> Gone(a.storage, a.jobs[w.id]))
  }

  /** The rows of a version whose PDF was registered are purged only after its file is deleted, and all together. */
  ghost predicate PurgedInOrder(a: World) {
    a.archived <= a.inactive && RowsRegistered(a.storage) &&
    (forall v :: v in a.archived && v !in a.storage.registered ==> v !in a.storage.files) &&
    (forall v :: v in a.inactive && v !in a.archived ==> v !in a.storage.registered)
  }

  ghost predicate WorldSound(a: World) {
    WellQueued(a.jobs, a.nextToken) && PurgedInOrder(a) &&
    (forall k :: 0 <= k < |a.jobs| ==> a.jobs[k].version in a.inactive) &&
    (forall k :: 0 <= k < |a.jobs| && a.jobs[k].status == Succeeded ==> Gone(a.storage, a.jobs[k]))
  }

  ghost predicate Inv(s: System) {
    WorldSound(s.world) && (forall i :: 0 <= i < |s.workers| ==> WorkerSound(s.workers[i], s.world)) &&
    forall i, k :: 0 <= i < k < |s.workers| && Busy(s.workers[i]) && Busy(s.workers[k]) ==>
      s.workers[i].token != s.workers[k].token
  }

  /** Jobs only ever advance: they keep their work, no token is given back, a terminal job is final. */
  ghost predicate JobsAdvance(a: World, b: World) {
    |a.jobs| <= |b.jobs| && a.nextToken <= b.nextToken &&
    (forall k :: 0 <= k < |a.jobs| ==> SameWork(a.jobs[k], b.jobs[k]) && a.jobs[k].attempts <= b.jobs[k].attempts) &&
    (forall k :: 0 <= k < |a.jobs| && Terminal(a.jobs[k]) ==> b.jobs[k] == a.jobs[k]) &&
    (forall k, token: nat :: 0 <= k < |b.jobs| && token < a.nextToken && Holds(b.jobs[k], token) ==>
      k < |a.jobs| && Holds(a.jobs[k], token))
  }

  /** Storage of INACTIVE versions only shrinks. */
  ghost predicate StorageShrinks(a: World, b: World) {
    a.inactive <= b.inactive && a.archived <= b.archived &&
    forall v :: v in a.inactive ==>
      (v in b.archived ==> v in a.archived) && (v in b.storage.registered ==> v in a.storage.registered) &&
      (v in b.storage.files ==> v in a.storage.files) &&
      ((v, Elasticsearch) in b.storage.indexes ==> (v, Elasticsearch) in a.storage.indexes) &&
      ((v, Milvus) in b.storage.indexes ==> (v, Milvus) in a.storage.indexes)
  }

  lemma WorkerAdvances(w: Worker, a: World, w': Worker, b: World)
    requires WorkerStep(w, a, w', b) && WorldSound(a)
    ensures JobsAdvance(a, b) && StorageShrinks(a, b)
  {
    hide WellQueued, Gone;
  }

  /** Publication changes nothing of an INACTIVE version, and writes chunk rows only together with their
      registration. */
  lemma PublicationIsApart(a: World, b: World)
    requires Publishes(a, b)
    ensures b == a.(storage := b.storage) && forall v :: v in a.inactive ==> SameVersion(a.storage, b.storage, v)
    ensures RowsRegistered(a.storage) ==> RowsRegistered(b.storage)
  {
    var version: nat :| version !in a.inactive && PublishesVersion(a, b, version);
    if rows :| PersistsSnapshot(a, b, version, rows) {
    } else if backend :| WritesIndex(a, b, version, backend) {
    } else {
      assert StoresFile(a, b, version);
    }
  }

  lemma EnvironmentAdvances(a: World, b: World)
    requires Environment(a, b) && WorldSound(a)
    ensures JobsAdvance(a, b) && StorageShrinks(a, b)
  {
    if Publishes(a, b) {
      PublicationIsApart(a, b);
    }
  }

  lemma GoneStays(a: World, b: World, job: Job)
    requires StorageShrinks(a, b) && job.version in a.inactive && Gone(a.storage, job)
    ensures Gone(b.storage, job)
  {
    if job.target.Index? {
      assert job.target.backend == Elasticsearch || job.target.backend == Milvus;
    }
  }

  lemma SameWorkGone(st: Storage, a: Job, b: Job)
    requires SameWork(a, b)
    ensures Gone(st, a) <==> Gone(st, b)
  {
  }

  /** What a worker knows survives every step of the others. */
  lemma OthersKeepWorker(w: Worker, a: World, b: World)
    requires WorkerSound(w, a) && WorldSound(a) && JobsAdvance(a, b) && StorageShrinks(a, b)
    ensures WorkerSound(w, b)
  {
    if w.Cleared? {
      GoneStays(a, b, a.jobs[w.id]);
      SameWorkGone(b.storage, a.jobs[w.id], b.jobs[w.id]);
    }
  }

  lemma StepKeepsWorker(w: Worker, a: World, w': Worker, b: World)
    requires WorkerStep(w, a, w', b) && WorldSound(a) && WorkerSound(w, a)
    ensures WorkerSound(w', b)
    ensures Busy(w') ==> w'.token == if Busy(w) then w.token else a.nextToken
  {
  }

  lemma StepKeepsQueue(w: Worker, a: World, w': Worker, b: World)
    requires WorkerStep(w, a, w', b) && WellQueued(a.jobs, a.nextToken)
    ensures WellQueued(b.jobs, b.nextToken)
  {
    hide WellQueued;
    match w
    case Idle =>
      var free := RecoveredAll(a.jobs, a.now);
      RecoveryKeepsQueue(a.jobs, a.nextToken, a.now);
      if b != a.(jobs := free) {
        var id: nat, expires: int :| id < |free| && Due(free[id], a.now) &&
          b == a.(jobs := free[id := Leased(free[id], a.nextToken, expires)], nextToken := a.nextToken + 1);
        ClaimKeepsQueue(free, a.nextToken, a.now, id, expires);
      }
    case Claimed(_, _) =>
    case Located(_, _) =>
    case FileDeleted(_, _) =>
    case Cleared(id, token) =>
      if b != a {
        JobIsSound(a.jobs, a.nextToken, id);
        ReleaseKeepsQueue(a.jobs, a.nextToken, id, Completed(a.jobs[id], a.now));
      }
    case Failing(id, token) =>
      if b != a {
        var code: string, retryAt: int :| b == a.(jobs := a.jobs[id := Rejected(a.jobs[id], code, retryAt, a.now)]);
        JobIsSound(a.jobs, a.nextToken, id);
        ReleaseKeepsQueue(a.jobs, a.nextToken, id, Rejected(a.jobs[id], code, retryAt, a.now));
      }
  }

  lemma JobIsSound(jobs: seq<Job>, nextToken: nat, id: nat)
    requires WellQueued(jobs, nextToken) && id < |jobs|
    ensures Sound(jobs[id])
  {
  }

  lemma StepKeepsOrder(w: Worker, a: World, w': Worker, b: World)
    requires WorkerStep(w, a, w', b) && PurgedInOrder(a) && WorkerSound(w, a)
    ensures PurgedInOrder(b)
  {
    hide WellQueued, Sound, Gone;
  }

  /** Only a worker that has deleted the object completes a job. */
  lemma StepCompletes(w: Worker, a: World, w': Worker, b: World, k: nat)
    requires WorkerStep(w, a, w', b) && WorkerSound(w, a) && k < |a.jobs| == |b.jobs|
    requires b.jobs[k].status == Succeeded && a.jobs[k].status != Succeeded
    ensures w.Cleared? && w.id == k && b.storage == a.storage && Gone(a.storage, a.jobs[k]) && Holds(a.jobs[k], w.token)
  {
  }

  lemma StepKeepsTable(w: Worker, a: World, w': Worker, b: World)
    requires WorkerStep(w, a, w', b)
    ensures |b.jobs| == |a.jobs| && b.inactive == a.inactive
  {
  }

  lemma StepKeepsWorld(w: Worker, a: World, w': Worker, b: World)
    requires WorkerStep(w, a, w', b) && WorldSound(a) && WorkerSound(w, a)
    ensures WorldSound(b)
  {
    hide WorkerStep, WorkerSound, PurgedInOrder, WellQueued, StorageShrinks, Gone;
    WorkerAdvances(w, a, w', b);
    StepKeepsQueue(w, a, w', b);
    StepKeepsOrder(w, a, w', b);
    StepKeepsTable(w, a, w', b);
    forall k | 0 <= k < |b.jobs| && b.jobs[k].status == Succeeded ensures Gone(b.storage, b.jobs[k]) {
      if a.jobs[k].status != Succeeded {
        StepCompletes(w, a, w', b, k);
      }
      GoneStays(a, b, a.jobs[k]);
      SameWorkGone(b.storage, a.jobs[k], b.jobs[k]);
    }
  }

  lemma EnvironmentKeepsQueue(a: World, b: World)
    requires Environment(a, b) && WellQueued(a.jobs, a.nextToken)
    ensures WellQueued(b.jobs, b.nextToken)
  {
    hide SameVersion, Publishes;
    if Publishes(a, b) {
      PublicationIsApart(a, b);
    }
  }

  lemma EnvironmentKeepsOrder(a: World, b: World)
    requires Environment(a, b) && PurgedInOrder(a)
    ensures PurgedInOrder(b)
  {
    hide WellQueued, Sound;
    if Publishes(a, b) {
      PublicationIsApart(a, b);
    }
  }

  lemma EnvironmentKeepsWorld(a: World, b: World)
    requires Environment(a, b) && WorldSound(a)
    ensures WorldSound(b)
  {
    EnvironmentAdvances(a, b);
    EnvironmentKeepsQueue(a, b);
    EnvironmentKeepsOrder(a, b);
    hide WellQueued, PurgedInOrder, Gone, StorageShrinks;
    forall k | 0 <= k < |b.jobs| && b.jobs[k].status == Succeeded ensures Gone(b.storage, b.jobs[k]) {
      if k < |a.jobs| {
        GoneStays(a, b, a.jobs[k]);
        SameWorkGone(b.storage, a.jobs[k], b.jobs[k]);
      }
    }
  }

  lemma NextKeepsInv(s: System, s': System)
    requires Next(s, s') && Inv(s)
    ensures Inv(s') && JobsAdvance(s.world, s'.world) && StorageShrinks(s.world, s'.world)
  {
    if s'.workers == s.workers && Environment(s.world, s'.world) {
      EnvironmentKeepsWorld(s.world, s'.world);
      EnvironmentAdvances(s.world, s'.world);
      forall k | 0 <= k < |s.workers| ensures WorkerSound(s.workers[k], s'.world) {
        OthersKeepWorker(s.workers[k], s.world, s'.world);
      }
    } else {
      var i: nat :| Moves(s, s', i) || Crashes(s, s', i);
      if Moves(s, s', i) {
        MoveKeepsInv(s, s', i);
      }
    }
  }

  lemma MoveKeepsInv(s: System, s': System, i: nat)
    requires Moves(s, s', i) && Inv(s)
    ensures Inv(s') && JobsAdvance(s.world, s'.world) && StorageShrinks(s.world, s'.world)
  {
    hide WorkerStep, WorldSound, WorkerSound, JobsAdvance, StorageShrinks;
    StepKeepsWorld(s.workers[i], s.world, s'.workers[i], s'.world);
    WorkerAdvances(s.workers[i], s.world, s'.workers[i], s'.world);
    StepKeepsWorker(s.workers[i], s.world, s'.workers[i], s'.world);
    forall k | 0 <= k < |s.workers| ensures WorkerSound(s'.workers[k], s'.world) {
      if k != i {
        OthersKeepWorker(s.workers[k], s.world, s'.world);
      }
    }
    forall k | 0 <= k < |s.workers| && Busy(s.workers[k]) ensures s.workers[k].token < s.world.nextToken {
      TokenIssued(s.workers[k], s.world);
    }
  }

  lemma TokenIssued(w: Worker, a: World)
    requires WorkerSound(w, a) && Busy(w)
    ensures w.token < a.nextToken
  {
  }

  lemma {:induction false} RunInv(run: seq<System>)
    requires Run(run)
    ensures Inv(run[|run| - 1])
  {
    if |run| > 1 {
      RunInv(run[..|run| - 1]);
      NextKeepsInv(run[|run| - 2], run[|run| - 1]);
    }
  }

  /** From any state of a run onward, jobs only advance and the storage of INACTIVE versions only shrinks. */
  lemma {:induction false} RunAdvances(run: seq<System>, i: nat)
    requires Run(run) && i < |run|
    ensures JobsAdvance(run[i].world, run[|run| - 1].world) && StorageShrinks(run[i].world, run[|run| - 1].world)
  {
    hide Inv, Next;
    if i < |run| - 1 {
      var before := run[..|run| - 1];
      RunAdvances(before, i);
      RunInv(before);
      NextKeepsInv(run[|run| - 2], run[|run| - 1]);
    }
  }

  // ---------------------------------------------------------------- what every run guarantees

  function Final(run: seq<System>): World
    requires run != []
  {
    run[|run| - 1].world
  }

  /** What a succeeded job leaves behind: no index, or no row and no file, save for a file that had no registration when
      its version became INACTIVE. */
  ghost predicate Absent(w: World, job: Job) {
    match job.target
    case Index(b) => (job.version, b) !in w.storage.indexes
    case RuntimeSnapshot =>
      job.version !in w.storage.registered && ChunksOf(w.storage, job.version) == {} &&
      (job.version in w.archived ==> job.version !in w.storage.files)
  }

  /** A succeeded job's object is absent, and stays absent however the run continues. */
  lemma SucceededMeansGone(run: seq<System>, i: nat, k: nat)
    requires Run(run) && i < |run| && k < |run[i].world.jobs| && run[i].world.jobs[k].status == Succeeded
    ensures k < |Final(run).jobs| && Final(run).jobs[k] == run[i].world.jobs[k] &&
      Absent(Final(run), Final(run).jobs[k])
  {
    RunAdvances(run, i);
    RunInv(run);
    assert Gone(Final(run).storage, Final(run).jobs[k]);
  }

  /** Once the rows of a version with a registered PDF are purged, its file was already deleted; the rows went
      together. */
  lemma PurgedMeansFileDeleted(run: seq<System>, i: nat, version: nat)
    requires Run(run) && i < |run| && version in run[i].world.inactive && version in run[i].world.storage.registered
    requires version !in Final(run).storage.registered
    ensures version !in Final(run).storage.files && ChunksOf(Final(run).storage, version) == {}
  {
    RunInv(run[..i + 1]);
    RunAdvances(run, i);
    RunInv(run);
    assert version in run[i].world.archived;
  }

  /** The fence: at most one busy worker holds a job, and only that worker can end it. */
  lemma OneHolder(run: seq<System>, i: nat, j: nat, k: nat)
    requires Run(run) && var s := run[|run| - 1]; i < |s.workers| && j < |s.workers| && k < |s.world.jobs|
    requires Busy(run[|run| - 1].workers[i]) && Holds(Final(run).jobs[k], run[|run| - 1].workers[i].token)
    requires Busy(run[|run| - 1].workers[j]) && Holds(Final(run).jobs[k], run[|run| - 1].workers[j].token)
    ensures i == j && run[|run| - 1].workers[i].id == k
  {
    RunInv(run);
    assert WorkerSound(run[|run| - 1].workers[i], Final(run));
  }

  /** An ended job never runs again: no later attempt, retry or late answer changes it. */
  lemma EndedIsFinal(run: seq<System>, i: nat, k: nat)
    requires Run(run) && i < |run| && k < |run[i].world.jobs| && Terminal(run[i].world.jobs[k])
    ensures k < |Final(run).jobs| && Final(run).jobs[k] == run[i].world.jobs[k]
    ensures Final(run).jobs[k].attempts <= Final(run).jobs[k].maxAttempts
  {
    RunAdvances(run, i);
    RunInv(run);
    assert Sound(Final(run).jobs[k]);
  }

  lemma StepKeepsUnregisteredFile(w: Worker, a: World, w': Worker, b: World, version: nat)
    requires WorkerStep(w, a, w', b) && WorkerSound(w, a) && version !in a.archived
    ensures version in b.storage.files <==> version in a.storage.files
  {
    if w.Located? {
      assert a.jobs[w.id].version != version;
    }
  }

  lemma NextKeepsUnregisteredFile(s: System, s': System, version: nat)
    requires Next(s, s') && Inv(s) && version in s.world.inactive && version !in s.world.archived
    ensures version in s'.world.storage.files <==> version in s.world.storage.files
  {
    hide Inv, Publishes, WorkerStep, WorkerSound;
    if s'.workers == s.workers && Environment(s.world, s'.world) {
      if Publishes(s.world, s'.world) {
        PublicationIsApart(s.world, s'.world);
      }
    } else {
      var i: nat :| Moves(s, s', i) || Crashes(s, s', i);
      if Moves(s, s', i) {
        WorkerIsSound(s, i);
        StepKeepsUnregisteredFile(s.workers[i], s.world, s'.workers[i], s'.world, version);
      }
    }
  }

  lemma WorkerIsSound(s: System, i: nat)
    requires Inv(s) && i < |s.workers|
    ensures WorkerSound(s.workers[i], s.world)
  {
  }

  /** The file of a version that became INACTIVE without a registered PDF is never deleted. */
  lemma {:induction false} UnregisteredFileStays(run: seq<System>, i: nat, version: nat)
    requires Run(run) && i < |run| && version in run[i].world.inactive && version !in Final(run).archived
    ensures version in Final(run).storage.files <==> version in run[i].world.storage.files
  {
    hide Inv, Next, StorageShrinks, JobsAdvance;
    if i < |run| - 1 {
      var before := run[..|run| - 1];
      RunAdvances(before, i);
      RunInv(before);
      NextKeepsInv(run[|run| - 2], run[|run| - 1]);
      InactiveStays(run[i].world, run[|run| - 2].world, run[|run| - 1].world, version);
      UnregisteredFileStays(before, i, version);
      NextKeepsUnregisteredFile(run[|run| - 2], run[|run| - 1], version);
    }
  }

  lemma InactiveStays(a: World, b: World, c: World, version: nat)
    requires StorageShrinks(a, b) && StorageShrinks(b, c) && version in a.inactive && version !in c.archived
    ensures version in b.inactive && version !in b.archived
  {
  }

  /** A succeeded snapshot cleanup has removed every row of the version, whatever happened before. It has removed the
      PDF file exactly when the PDF was registered when the version became INACTIVE, or there was no file. */
  lemma SnapshotCleanupIsComplete(run: seq<System>, i: nat, k: nat)
    requires Run(run) && i < |run| && k < |Final(run).jobs|
    requires Final(run).jobs[k].status == Succeeded && Final(run).jobs[k].target == RuntimeSnapshot
    requires Final(run).jobs[k].version in run[i].world.inactive
    ensures var v := Final(run).jobs[k].version;
      v !in Final(run).storage.registered && ChunksOf(Final(run).storage, v) == {} &&
      (v !in Final(run).storage.files <==> v in run[i].world.archived || v !in run[i].world.storage.files)
  {
    var v := Final(run).jobs[k].version;
    RunInv(run);
    RunAdvances(run, i);
    if v !in Final(run).archived {
      UnregisteredFileStays(run, i, v);
    }
  }

  ghost predicate Reachable(s: System) {
    exists run :: Run(run) && run[|run| - 1] == s
  }

  lemma Extended(s: System, s': System)
    requires Reachable(s) && Next(s, s')
    ensures Reachable(s')
  {
    var run :| Run(run) && run[|run| - 1] == s;
    var longer := run + [s'];
    forall i | 0 <= i < |longer| - 1 ensures Next(longer[i], longer[i + 1]) {
      if i < |run| - 1 {
        assert longer[i] == run[i] && longer[i + 1] == run[i + 1];
      }
    }
    assert Run(longer) && longer[|longer| - 1] == s';
  }

  const EMPTY := World([], 0, 0, Storage({}, {}, map[], {}), {}, {})

  /** The failing case is reachable from nothing: the file is stored, persisting the rows fails, the version becomes
      INACTIVE, and its snapshot job succeeds while the file is still there. */
  lemma LeftoverFile() returns (s: System)
    ensures Reachable(s) && |s.world.jobs| == 1 && s.world.jobs[0].target == RuntimeSnapshot
    ensures s.world.jobs[0].status == Succeeded && s.world.jobs[0].version in s.world.inactive * s.world.storage.files
  {
    hide Reachable, Claims, Moves, WorkerStep, Publishes;
    StartIsReachable(EMPTY);
    var a := EMPTY.(storage := EMPTY.storage.(files := {1}));
    assert Publishes(EMPTY, a) by { FileStored(EMPTY, a, 1); }
    EnvironmentReaches(EMPTY, a);
    s := InactivatedAndCleaned(a);
  }

  /** Why publication must not be in flight: one that persists its snapshot after the version became INACTIVE brings the
      rows back behind a succeeded job. */
  lemma LateSnapshotReturns() returns (s: System, late: World)
    ensures Reachable(s) && |s.world.jobs| == 1 && s.world.jobs[0].target == RuntimeSnapshot
    ensures s.world.jobs[0].status == Succeeded && s.world.jobs[0].version in s.world.inactive
    ensures PersistsSnapshot(s.world, late, s.world.jobs[0].version, {7}) && !Gone(late.storage, late.jobs[0])
  {
    hide Reachable, Claims, Moves, WorkerStep, Publishes;
    StartIsReachable(EMPTY);
    s := InactivatedAndCleaned(EMPTY);
    var rows: set<nat> := {7};
    late := s.world.(storage := s.world.storage.(registered := {1}, chunks := map c | c in rows :: 1));
    assert late.storage.chunks == map[] + map c | c in rows :: 1;
  }

  lemma FileStored(a: World, b: World, version: nat)
    requires StoresFile(a, b, version) && version !in a.inactive
    ensures Publishes(a, b)
  {
    assert PublishesVersion(a, b, version);
  }

  /** Version 1, unregistered, becomes INACTIVE and its snapshot job is enqueued, claimed and completed. */
  lemma InactivatedAndCleaned(a: World) returns (s: System)
    requires Reachable(System(a, [Idle])) && a == EMPTY.(storage := a.storage) && 1 !in a.storage.registered
    ensures Reachable(s) && s.world.storage == a.storage && s.world.inactive == {1} && |s.world.jobs| == 1
    ensures s.world.jobs[0].version == 1 && s.world.jobs[0].target == RuntimeSnapshot &&
      s.world.jobs[0].status == Succeeded
  {
    hide Reachable, Claims, Moves, WorkerStep, Publishes;
    var b := a.(inactive := {1});
    var job := NewJob(5, 1, RuntimeSnapshot, 5, 0);
    var c := b.(jobs := [job]);
    assert Inactivates(a, b, 1);
    EnvironmentReaches(a, b);
    assert Enqueues(b, c, job);
    EnvironmentReaches(b, c);
    s := CompletesUndeleted(c, job);
  }

  lemma StartIsReachable(a: World)
    requires Init(System(a, [Idle]))
    ensures Reachable(System(a, [Idle]))
  {
    assert Run([System(a, [Idle])]);
  }

  lemma EnvironmentReaches(a: World, b: World)
    requires Reachable(System(a, [Idle])) && Environment(a, b)
    ensures Reachable(System(b, [Idle]))
  {
    hide Reachable, Environment;
    Extended(System(a, [Idle]), System(b, [Idle]));
  }

  /** One worker claims the only job, finds no registered PDF, and completes it. */
  lemma CompletesUndeleted(c: World, job: Job) returns (s: System)
    requires Reachable(System(c, [Idle])) && c.jobs == [job] && c.now == 0 && c.nextToken == 0
    requires job == NewJob(job.owner, job.version, RuntimeSnapshot, job.maxAttempts, 0) &&
      job.version !in c.storage.registered
    ensures Reachable(s)
    ensures s == System(c.(jobs := [Completed(Leased(job, 0, 300), 0)], nextToken := 1), [Idle])
  {
    hide Reachable;
    var leased := Leased(job, 0, 300);
    var d := c.(jobs := [leased], nextToken := 1);
    assert Claims(c, d, Claimed(0, 0)) by {
      assert RecoveredAll(c.jobs, 0) == [job];
      assert d == c.(jobs := [job][0 := Leased([job][0], 0, 300)], nextToken := 1);
    }
    assert Moves(System(c, [Idle]), System(d, [Claimed(0, 0)]), 0);
    Extended(System(c, [Idle]), System(d, [Claimed(0, 0)]));
    assert Moves(System(d, [Claimed(0, 0)]), System(d, [Cleared(0, 0)]), 0);
    Extended(System(d, [Claimed(0, 0)]), System(d, [Cleared(0, 0)]));
    s := System(d.(jobs := [Completed(leased, 0)]), [Idle]);
    assert Moves(System(d, [Cleared(0, 0)]), s, 0);
    Extended(System(d, [Cleared(0, 0)]), s);
  }
}
