/** The one-off recovery of nine cleanup jobs, and the read-only audit of the state it leaves. */
module CleanupRecovery {
  import opened Basics
  import opened Chunks
  import opened CleanupQueue
  import opened CleanupProtocol
  import opened CleanupWorker
  import opened TableRows

  datatype IngestionStatus = IngestionPending | IngestionRunning | IngestionSucceeded | IngestionFailed

  datatype IngestionRow = IngestionRow(owner: nat, status: IngestionStatus, failureCode: Option<string>)

  /** `versionIds` lists the keys of `versions` in table order. */
  datatype Database = Database(versionIds: seq<nat>, versions: map<nat, VersionRow>, ingestion: seq<IngestionRow>,
                               jobs: seq<Job>, storage: Storage)

  /** Primary and foreign keys of the schema. */
  ghost predicate KeysHold(db: Database) {
    Distinct(db.versionIds) && (forall v :: v in db.versionIds <==> v in db.versions) &&
    (forall v :: v in db.storage.registered ==> v in db.versions) &&
    (forall c :: c in db.storage.chunks ==> db.storage.chunks[c] in db.versions) &&
    (forall k :: 0 <= k < |db.jobs| ==> db.jobs[k].version in db.versions && db.versions[db.jobs[k].version].owner == db.jobs[k].owner)
  }

  predicate OwnedVersion(db: Database, owner: nat, v: nat) {
    v in db.versions && db.versions[v].owner == owner
  }

  function OwnerVersions(db: Database, owner: nat): seq<nat> {
    Where(db.versionIds, v => OwnedVersion(db, owner, v))
  }

  function OwnerCleanup(jobs: seq<Job>, owner: nat): seq<Job> {
    Where(jobs, (job: Job) => job.owner == owner)
  }

  function GlobalNonterminal(jobs: seq<Job>): seq<Job> {
    Where(jobs, (job: Job) => !Terminal(job))
  }

  function OwnerIngestion(db: Database, owner: nat): seq<IngestionRow> {
    Where(db.ingestion, (row: IngestionRow) => row.owner == owner)
  }

  function OwnerChunks(db: Database, owner: nat): set<nat> {
    set c | c in db.storage.chunks && OwnedVersion(db, owner, db.storage.chunks[c])
  }

  function OwnerPdfs(db: Database, owner: nat): set<nat> {
    set v | v in db.storage.registered && OwnedVersion(db, owner, v)
  }

  // ---------------------------------------------------------------- the frozen conditions

  const EXPECTED_VERSIONS := 3
  const EXPECTED_JOBS := 9
  const EXPECTED_CHUNKS := 316
  const EXPECTED_PDF_OBJECTS := 3

  const TARGETS: set<CleanupTarget> := {Index(Elasticsearch), Index(Milvus), RuntimeSnapshot}

  function Pairs(versions: set<nat>): set<(nat, CleanupTarget)> {
    set v, t | v in versions && t in TARGETS :: (v, t)
  }

  function JobPairs(jobs: seq<Job>): set<(nat, CleanupTarget)> {
    set job | job in jobs :: (job.version, job.target)
  }

  predicate AllInactive(db: Database, owner: nat) {
    forall v :: v in OwnerVersions(db, owner) ==> IsInactive(db.versions, v)
  }

  predicate FrozenPrecondition(db: Database, owner: nat) {
    |OwnerVersions(db, owner)| == EXPECTED_VERSIONS && AllInactive(db, owner) &&
    |OwnerIngestion(db, owner)| == EXPECTED_VERSIONS &&
    |OwnerCleanup(db.jobs, owner)| == EXPECTED_JOBS &&
    JobPairs(OwnerCleanup(db.jobs, owner)) == Pairs(set v | v in OwnerVersions(db, owner)) &&
    (forall job :: job in OwnerCleanup(db.jobs, owner) ==>
       job.status == Pending && job.attempts == 0 && job.failureCode == None) &&
    |GlobalNonterminal(db.jobs)| == EXPECTED_JOBS &&
    (forall job :: job in GlobalNonterminal(db.jobs) ==> job.owner == owner) &&
    |OwnerChunks(db, owner)| == EXPECTED_CHUNKS && |OwnerPdfs(db, owner)| == EXPECTED_PDF_OBJECTS
  }

  // ---------------------------------------------------------------- the frozen state, row by row

  ghost predicate HasJob(jobs: seq<Job>, v: nat, t: CleanupTarget) {
    exists k :: 0 <= k < |jobs| && jobs[k].version == v && jobs[k].target == t
  }

  /** The nine jobs of one owner, all untouched, three for each of his three inactive versions; whatever else is queued has
      ended. */
  ghost predicate NineJobs(db: Database, owner: nat) {
    |(set k | 0 <= k < |db.jobs| && db.jobs[k].owner == owner)| == 9 &&
    (forall k :: 0 <= k < |db.jobs| && db.jobs[k].owner == owner ==>
      db.jobs[k].status == Pending && db.jobs[k].attempts == 0 && db.jobs[k].failureCode == None) &&
    (forall k :: 0 <= k < |db.jobs| && db.jobs[k].owner != owner ==> db.jobs[k].status in {Succeeded, Failed}) &&
    forall v :: v in db.versions && db.versions[v].owner == owner ==>
      HasJob(db.jobs, v, Index(Elasticsearch)) && HasJob(db.jobs, v, Index(Milvus)) && HasJob(db.jobs, v, RuntimeSnapshot)
  }

  ghost function VersionsOf(db: Database, owner: nat): (r: set<nat>)
    ensures forall v :: v in r ==> v in db.versions
  {
    set v | v in db.versions && db.versions[v].owner == owner
  }

  /** The frozen state of the tables: that two of the counts compared follow from the others is left to the proof. */
  lemma FrozenExactly(db: Database, owner: nat)
    requires KeysHold(db)
    ensures FrozenPrecondition(db, owner) <==>
      |VersionsOf(db, owner)| == 3 &&
      (forall v :: v in VersionsOf(db, owner) ==> db.versions[v].inactive && !db.versions[v].active) &&
      |(set k | 0 <= k < |db.ingestion| && db.ingestion[k].owner == owner)| == 3 && NineJobs(db, owner) &&
      |(set c | c in db.storage.chunks && db.storage.chunks[c] in VersionsOf(db, owner))| == 316 &&
      |db.storage.registered * VersionsOf(db, owner)| == 3
  {
    hide KeysHold, NineJobs, JobPairs, Pairs, OwnerCleanup, GlobalNonterminal, OwnerIngestion, OwnerVersions, OwnerChunks, OwnerPdfs,
      VersionsOf, AllInactive;
    VersionsAreOwned(db, owner);
    OwnerRows(db, owner);
    QueueIsFrozen(db, owner);
    StoredForOwner(db, owner);
    assert (set v | v in OwnerVersions(db, owner)) == VersionsOf(db, owner);
  }

  lemma StoredForOwner(db: Database, owner: nat)
    requires KeysHold(db)
    ensures OwnerChunks(db, owner) == set c | c in db.storage.chunks && db.storage.chunks[c] in VersionsOf(db, owner)
    ensures OwnerPdfs(db, owner) == db.storage.registered * VersionsOf(db, owner)
    ensures AllInactive(db, owner) <==>
      forall v :: v in VersionsOf(db, owner) ==> db.versions[v].inactive && !db.versions[v].active
  {
    VersionsAreOwned(db, owner);
    hide OwnerVersions, KeysHold;
    assert forall v :: v in OwnerVersions(db, owner) <==> v in Elements(OwnerVersions(db, owner));
  }

  lemma VersionsAreOwned(db: Database, owner: nat)
    requires KeysHold(db)
    ensures Elements(OwnerVersions(db, owner)) == VersionsOf(db, owner) && |OwnerVersions(db, owner)| == |VersionsOf(db, owner)|
  {
    var owned := v => OwnedVersion(db, owner, v);
    WhereSelects(db.versionIds, owned);
    WhereKeepsDistinct(db.versionIds, owned);
    hide Where;
    assert Elements(OwnerVersions(db, owner)) == VersionsOf(db, owner);
    DistinctCardinality(OwnerVersions(db, owner));
  }

  lemma OwnerRows(db: Database, owner: nat)
    ensures |OwnerIngestion(db, owner)| == |(set k | 0 <= k < |db.ingestion| && db.ingestion[k].owner == owner)|
    ensures |OwnerCleanup(db.jobs, owner)| == |(set k | 0 <= k < |db.jobs| && db.jobs[k].owner == owner)|
  {
    var mine, his := (row: IngestionRow) => row.owner == owner, (job: Job) => job.owner == owner;
    WhereSelects(db.ingestion, mine);
    WhereSelects(db.jobs, his);
    assert Positions(db.ingestion, mine) == set k | 0 <= k < |db.ingestion| && db.ingestion[k].owner == owner;
    assert Positions(db.jobs, his) == set k | 0 <= k < |db.jobs| && db.jobs[k].owner == owner;
  }

  lemma JobsInTable(db: Database, owner: nat)
    ensures forall job :: job in OwnerCleanup(db.jobs, owner) <==> job in db.jobs && job.owner == owner
    ensures forall job :: job in GlobalNonterminal(db.jobs) <==> job in db.jobs && job.status !in {Succeeded, Failed}
  {
    WhereSelects(db.jobs, (job: Job) => job.owner == owner);
    WhereSelects(db.jobs, (job: Job) => !Terminal(job));
  }

  lemma UnfinishedAreHis(db: Database, owner: nat)
    requires forall k :: 0 <= k < |db.jobs| ==> (db.jobs[k].status in {Succeeded, Failed} <==> db.jobs[k].owner != owner)
    ensures |GlobalNonterminal(db.jobs)| == |OwnerCleanup(db.jobs, owner)|
  {
    var unfinished, his := (job: Job) => !Terminal(job), (job: Job) => job.owner == owner;
    WhereSelects(db.jobs, unfinished);
    WhereSelects(db.jobs, his);
    assert Positions(db.jobs, unfinished) == Positions(db.jobs, his);
  }

  lemma PairsOfOwner(db: Database, owner: nat)
    requires KeysHold(db)
    ensures JobPairs(OwnerCleanup(db.jobs, owner)) == Pairs(VersionsOf(db, owner)) <==>
      forall v :: v in VersionsOf(db, owner) ==>
        HasJob(db.jobs, v, Index(Elasticsearch)) && HasJob(db.jobs, v, Index(Milvus)) && HasJob(db.jobs, v, RuntimeSnapshot)
  {
    JobsInTable(db, owner);
    hide OwnerCleanup;
    var jobs, pairs := JobPairs(OwnerCleanup(db.jobs, owner)), Pairs(VersionsOf(db, owner));
    forall v, t | v in VersionsOf(db, owner) ensures (v, t) in jobs <==> HasJob(db.jobs, v, t) {
      JobOfPair(db, owner, v, t);
    }
    forall p | p in jobs ensures p in pairs {
      var job :| job in OwnerCleanup(db.jobs, owner) && p == (job.version, job.target);
      var k :| 0 <= k < |db.jobs| && db.jobs[k] == job;
      TargetIsListed(job.target);
    }
    if jobs == pairs {
      forall v, t | v in VersionsOf(db, owner) && t in TARGETS ensures HasJob(db.jobs, v, t) {
        assert (v, t) in pairs;
      }
    }
  }

  lemma TargetIsListed(t: CleanupTarget)
    ensures t in TARGETS
  {
    if t.Index? {
      assert t.backend == Elasticsearch || t.backend == Milvus;
    }
  }

  lemma JobOfPair(db: Database, owner: nat, v: nat, t: CleanupTarget)
    requires KeysHold(db) && v in VersionsOf(db, owner)
    ensures (v, t) in JobPairs(OwnerCleanup(db.jobs, owner)) <==> HasJob(db.jobs, v, t)
  {
    JobsInTable(db, owner);
    hide OwnerCleanup;
    if k :| 0 <= k < |db.jobs| && db.jobs[k].version == v && db.jobs[k].target == t {
      assert db.jobs[k] in db.jobs && db.jobs[k].owner == owner;
    }
  }

  lemma QueueIsFrozen(db: Database, owner: nat)
    requires KeysHold(db)
    ensures NineJobs(db, owner) <==>
      |OwnerCleanup(db.jobs, owner)| == 9 && |GlobalNonterminal(db.jobs)| == 9 &&
      JobPairs(OwnerCleanup(db.jobs, owner)) == Pairs(VersionsOf(db, owner)) &&
      (forall job :: job in OwnerCleanup(db.jobs, owner) ==>
        job.status == Pending && job.attempts == 0 && job.failureCode == None) &&
      forall job :: job in GlobalNonterminal(db.jobs) ==> job.owner == owner
  {
    OwnerRows(db, owner);
    PairsOfOwner(db, owner);
    JobsInTable(db, owner);
    hide KeysHold, OwnerCleanup, GlobalNonterminal, JobPairs, Pairs, HasJob;
    if NineJobs(db, owner) {
      UnfinishedAreHis(db, owner);
    }
    assert forall k :: 0 <= k < |db.jobs| ==> db.jobs[k] in db.jobs;
  }

  predicate PostconditionPass(db: Database, owner: nat) {
    |OwnerVersions(db, owner)| == EXPECTED_VERSIONS && AllInactive(db, owner) &&
    |OwnerCleanup(db.jobs, owner)| == EXPECTED_JOBS &&
    (forall job :: job in OwnerCleanup(db.jobs, owner) ==> job.status == Succeeded && job.failureCode == None) &&
    GlobalNonterminal(db.jobs) == [] && OwnerChunks(db, owner) == {} && OwnerPdfs(db, owner) == {}
  }

  predicate AllSucceeded(results: seq<Execution>) {
    forall i :: 0 <= i < |results| ==> results[i].existed.Some?
  }

  /** Only the queue and the stores differ. */
  predicate OnlyCleaned(before: Database, after: Database) {
    after.versionIds == before.versionIds && after.versions == before.versions && after.ingestion == before.ingestion
  }

  // ---------------------------------------------------------------- nine successes are nine distinct jobs

  lemma {:induction false} DistinctResults(results: seq<Execution>)
    requires AllSucceeded(results)
    requires forall i, k :: 0 <= i < k < |results| ==> results[i].id != results[k].id
    ensures |SucceededIds(results)| == |results|
  {
    if results == [] {
      assert SucceededIds(results) == {};
    } else {
      var last := |results| - 1;
      DistinctResults(results[..last]);
      assert SucceededIds(results) == SucceededIds(results[..last]) + {results[last].id} by {
        assert forall i :: 0 <= i < last ==> results[..last][i] == results[i];
      }
    }
  }

  /** As many successes as there were unfinished jobs finish every one of them. */
  lemma EveryJobSucceeded(before: seq<Job>, after: seq<Job>, results: seq<Execution>)
    requires Accounts(before, after, results) && AllSucceeded(results) && |results| == |GlobalNonterminal(before)|
    ensures SucceededIds(results) == Positions(before, (job: Job) => !Terminal(job))
    ensures forall k :: 0 <= k < |after| ==> if Terminal(before[k]) then after[k] == before[k] else after[k].status == Succeeded
    ensures GlobalNonterminal(after) == []
  {
    var unfinished := (job: Job) => !Terminal(job);
    WhereSelects(before, unfinished);
    WhereSelects(after, unfinished);
    DistinctResults(results);
    forall k | k in SucceededIds(results) ensures k in Positions(before, unfinished) {
      assert exists i :: 0 <= i < |results| && results[i].id == k;
    }
    SubsetCardinality(SucceededIds(results), Positions(before, unfinished));
    forall k | 0 <= k < |after|
      ensures if Terminal(before[k]) then after[k] == before[k] else after[k].status == Succeeded
    {
      if !Terminal(before[k]) {
        assert k in Positions(before, unfinished);
      }
    }
    assert Positions(after, unfinished) == {};
  }

  /** The owner's jobs are the same rows before and after, by position. */
  lemma {:induction false} SameOwnerRows(before: seq<Job>, after: seq<Job>, owner: nat)
    requires |before| == |after| && forall k :: 0 <= k < |after| ==> SameWork(after[k], before[k])
    ensures |OwnerCleanup(after, owner)| == |OwnerCleanup(before, owner)|
  {
    var owned := (job: Job) => job.owner == owner;
    WhereSelects(before, owned);
    WhereSelects(after, owned);
    assert Positions(before, owned) == Positions(after, owned);
  }

  /** Three PDF rows, at most one per version, mean that every one of the three versions has one. */
  lemma EveryVersionRegistered(db: Database, owner: nat)
    requires KeysHold(db) && |OwnerVersions(db, owner)| == |OwnerPdfs(db, owner)|
    ensures OwnerPdfs(db, owner) == Elements(OwnerVersions(db, owner))
  {
    var owned := (v: nat) => OwnedVersion(db, owner, v);
    WhereSelects(db.versionIds, owned);
    WhereKeepsDistinct(db.versionIds, owned);
    DistinctCardinality(OwnerVersions(db, owner));
    assert OwnerPdfs(db, owner) <= Elements(OwnerVersions(db, owner));
    SubsetCardinality(OwnerPdfs(db, owner), Elements(OwnerVersions(db, owner)));
  }

  /** Each of the unfinished jobs is one of the successes. */
  lemma ResultOfJob(before: seq<Job>, after: seq<Job>, results: seq<Execution>, k: nat)
    requires Accounts(before, after, results) && AllSucceeded(results) && |results| == |GlobalNonterminal(before)|
    requires k < |before| && !Terminal(before[k])
    ensures exists i :: 0 <= i < |results| && SameWork(results[i].job, before[k])
  {
    EveryJobSucceeded(before, after, results);
    assert k in SucceededIds(results);
    var i :| 0 <= i < |results| && results[i].id == k;
    assert SameWork(after[k], before[k]) && after[k] == results[i].job;
  }

  lemma UnfinishedJobForPair(jobs: seq<Job>, owner: nat, versions: set<nat>, v: nat, t: CleanupTarget) returns (k: nat)
    requires JobPairs(OwnerCleanup(jobs, owner)) == Pairs(versions) && v in versions && t in TARGETS
    requires forall job :: job in OwnerCleanup(jobs, owner) ==> job.status == Pending
    ensures k < |jobs| && jobs[k].version == v && jobs[k].target == t && !Terminal(jobs[k])
  {
    WhereSelects(jobs, (job: Job) => job.owner == owner);
    assert (v, t) in Pairs(versions);
    var job :| job in OwnerCleanup(jobs, owner) && job.version == v && job.target == t;
    k :| 0 <= k < |jobs| && jobs[k] == job;
  }

  /** Every pair of the owner's versions and the three targets has a job, so each of their objects was deleted. */
  lemma PairIsGone(before: Database, after: Database, results: seq<Execution>, owner: nat, v: nat, t: CleanupTarget)
    requires FrozenPrecondition(before, owner) && v in OwnerVersions(before, owner) && t in TARGETS
    requires Accounts(before.jobs, after.jobs, results) && AllSucceeded(results) && |results| == EXPECTED_JOBS
    requires Cleans(before.storage, after.storage, results, before.versions)
    ensures t == RuntimeSnapshot ==> v !in after.storage.registered
    ensures t == RuntimeSnapshot && v in before.storage.registered ==> v !in after.storage.files
    ensures t.Index? ==> (v, t.backend) !in after.storage.indexes
  {
    hide Accounts, Where;
    var k := UnfinishedJobForPair(before.jobs, owner, Elements(OwnerVersions(before, owner)), v, t);
    ResultOfJob(before.jobs, after.jobs, results, k);
    var i :| 0 <= i < |results| && SameWork(results[i].job, before.jobs[k]);
    assert IsInactive(before.versions, v);
    assert Gone(after.storage, results[i].job);
  }

  lemma OwnerJobsSucceeded(before: seq<Job>, after: seq<Job>, owner: nat)
    requires |before| == |after| && forall k :: 0 <= k < |after| ==> SameWork(after[k], before[k]) && Sound(after[k])
    requires forall k :: 0 <= k < |after| && !Terminal(before[k]) ==> after[k].status == Succeeded
    requires forall job :: job in OwnerCleanup(before, owner) ==> job.status == Pending
    ensures |OwnerCleanup(after, owner)| == |OwnerCleanup(before, owner)|
    ensures forall job :: job in OwnerCleanup(after, owner) ==> job.status == Succeeded && job.failureCode == None
  {
    var owned := (job: Job) => job.owner == owner;
    SameOwnerRows(before, after, owner);
    WhereSelects(before, owned);
    WhereSelects(after, owned);
    hide Where;
    forall job | job in OwnerCleanup(after, owner) ensures job.status == Succeeded && job.failureCode == None {
      var k :| 0 <= k < |after| && after[k] == job;
      assert before[k] in OwnerCleanup(before, owner);
    }
  }

  /** No index and no PDF file of the owner is left. */
  ghost predicate PhysicallyGone(before: Database, after: Database, owner: nat) {
    forall v :: v in OwnerVersions(before, owner) ==>
      (v, Elasticsearch) !in after.storage.indexes && (v, Milvus) !in after.storage.indexes && v !in after.storage.files
  }

  /** Nine successes from the frozen state always meet the postcondition: its own checks never decide. */
  lemma NineSuccessesPass(before: Database, after: Database, results: seq<Execution>, owner: nat)
    requires KeysHold(before) && FrozenPrecondition(before, owner) && OnlyCleaned(before, after)
    requires Accounts(before.jobs, after.jobs, results) && AllSucceeded(results) && |results| == EXPECTED_JOBS
    requires Cleans(before.storage, after.storage, results, before.versions)
    requires forall k :: 0 <= k < |after.jobs| ==> Sound(after.jobs[k])
    ensures PostconditionPass(after, owner) && PhysicallyGone(before, after, owner)
  {
    forall v | v in OwnerVersions(before, owner)
      ensures (v, Elasticsearch) !in after.storage.indexes && (v, Milvus) !in after.storage.indexes
    {
      PairIsGone(before, after, results, owner, v, Index(Elasticsearch));
      PairIsGone(before, after, results, owner, v, Index(Milvus));
    }
    hide Where;
    EveryJobSucceeded(before.jobs, after.jobs, results);
    OwnerJobsSucceeded(before.jobs, after.jobs, owner);
    EveryVersionRegistered(before, owner);
    var owned := (v: nat) => OwnedVersion(before, owner, v);
    WhereSelects(before.versionIds, owned);
    forall v | OwnedVersion(before, owner, v)
      ensures v !in after.storage.registered && ChunksOf(after.storage, v) == {} && v !in after.storage.files
    {
      assert v in OwnerVersions(before, owner);
      assert v in OwnerPdfs(before, owner);
      PairIsGone(before, after, results, owner, v, RuntimeSnapshot);
    }
    assert OwnerVersions(after, owner) == OwnerVersions(before, owner) by {
      SameWhere(before.versionIds, owned, (v: nat) => OwnedVersion(after, owner, v));
    }
    assert OwnerPdfs(after, owner) == {};
    forall c | c in after.storage.chunks ensures !OwnedVersion(after, owner, after.storage.chunks[c]) {
      assert c in ChunksOf(after.storage, after.storage.chunks[c]);
    }
    assert OwnerChunks(after, owner) == {};
  }

  // ---------------------------------------------------------------- the audit

  datatype VersionKind = VersionKind(inactive: bool, active: bool)
  datatype IngestionKind = IngestionKind(status: IngestionStatus, failureCode: Option<string>)
  datatype CleanupKind = CleanupKind(target: CleanupTarget, status: JobStatus, failureCode: Option<string>)

  /** The grouped counts the audit reads. */
  datatype Collected = Collected(versions: seq<(VersionKind, nat)>, ingestion: seq<(IngestionKind, nat)>,
                                 cleanup: seq<(CleanupKind, nat)>, nonterminal: seq<(CleanupKind, nat)>,
                                 chunkRows: nat, pdfRows: nat)

  function KindOfVersion(db: Database, v: nat): VersionKind {
    if v in db.versions then VersionKind(db.versions[v].inactive, db.versions[v].active) else VersionKind(false, false)
  }

  function KindOfIngestion(row: IngestionRow): IngestionKind {
    IngestionKind(row.status, row.failureCode)
  }

  function KindOfJob(job: Job): CleanupKind {
    CleanupKind(job.target, job.status, job.failureCode)
  }

  function Collect(db: Database, owner: nat): Collected {
    Collected(Grouped(Mapped(OwnerVersions(db, owner), v => KindOfVersion(db, v))),
              Grouped(Mapped(OwnerIngestion(db, owner), KindOfIngestion)),
              Grouped(Mapped(OwnerCleanup(db.jobs, owner), KindOfJob)),
              Grouped(Mapped(GlobalNonterminal(db.jobs), KindOfJob)),
              |OwnerChunks(db, owner)|, |OwnerPdfs(db, owner)|)
  }

  predicate ActiveKind(k: VersionKind) { k.active }
  predicate NonInactiveKind(k: VersionKind) { !k.inactive }
  predicate UnfinishedIngestion(k: IngestionKind) { k.status !in {IngestionSucceeded, IngestionFailed} }
  predicate NotSucceededKind(k: CleanupKind) { k.status != Succeeded }

  /** The audit's decision: nothing at all, or a completely finished cleanup. */
  predicate EvaluatesClean(c: Collected) {
    var versions, ingestion, cleanup :=
      SumRows(c.versions, Everything), SumRows(c.ingestion, Everything), SumRows(c.cleanup, Everything);
    var backends := set g | g in GroupKeys(c.cleanup) :: g.target;
    (versions == 0 && ingestion == 0 && cleanup == 0 && c.chunkRows == 0 && c.pdfRows == 0 &&
      SumRows(c.nonterminal, Everything) == 0) ||
    (versions > 0 && SumRows(c.versions, ActiveKind) == 0 && SumRows(c.versions, NonInactiveKind) == 0 && ingestion == versions &&
     SumRows(c.ingestion, UnfinishedIngestion) == 0 && cleanup == 3 * versions &&
     SumRows(c.cleanup, NotSucceededKind) == 0 &&
     backends == TARGETS && c.chunkRows == 0 && c.pdfRows == 0 && SumRows(c.nonterminal, Everything) == 0)
  }

  ghost predicate NothingStored(db: Database, owner: nat) {
    OwnerVersions(db, owner) == [] && OwnerIngestion(db, owner) == [] && OwnerCleanup(db.jobs, owner) == [] &&
    OwnerChunks(db, owner) == {} && OwnerPdfs(db, owner) == {} && GlobalNonterminal(db.jobs) == []
  }

  ghost predicate IngestionEnded(db: Database, owner: nat) {
    forall row :: row in OwnerIngestion(db, owner) ==> row.status in {IngestionSucceeded, IngestionFailed}
  }

  ghost predicate CompletelyCleaned(db: Database, owner: nat) {
    OwnerVersions(db, owner) != [] && AllInactive(db, owner) &&
    |OwnerIngestion(db, owner)| == |OwnerVersions(db, owner)| && IngestionEnded(db, owner) &&
    |OwnerCleanup(db.jobs, owner)| == 3 * |OwnerVersions(db, owner)| &&
    (forall job :: job in OwnerCleanup(db.jobs, owner) ==> job.status == Succeeded) &&
    (forall t :: t in TARGETS ==> exists job :: job in OwnerCleanup(db.jobs, owner) && job.target == t) &&
    OwnerChunks(db, owner) == {} && OwnerPdfs(db, owner) == {} && GlobalNonterminal(db.jobs) == []
  }

  lemma BackendsTellTargets(jobs: seq<Job>)
    ensures (set g | g in GroupKeys(Grouped(Mapped(jobs, KindOfJob))) :: g.target) == TARGETS <==>
      forall t :: t in TARGETS ==> exists job :: job in jobs && job.target == t
  {
    var keys := GroupKeys(Grouped(Mapped(jobs, KindOfJob)));
    GroupsTellRows(jobs, KindOfJob, NotSucceededKind);
    hide Grouped, GroupKeys;
    var seen := set g | g in keys :: g.target;
    forall t ensures t in seen <==> exists job :: job in jobs && job.target == t {
      if t in seen {
        var g :| g in keys && g.target == t;
        var job :| job in jobs && KindOfJob(job) == g;
      }
      if job :| job in jobs && job.target == t {
        assert KindOfJob(job) in keys;
      }
    }
    assert forall t: CleanupTarget :: t in TARGETS by {
      forall t: CleanupTarget ensures t in TARGETS {
        if t.Index? {
          assert t.backend == Elasticsearch || t.backend == Milvus;
        }
      }
    }
  }

  /** The audit of grouped counts decides exactly what the rows say, for every database. */
  lemma AuditDecidesRows(db: Database, owner: nat)
    requires KeysHold(db)
    ensures EvaluatesClean(Collect(db, owner)) <==> NothingStored(db, owner) || CompletelyCleaned(db, owner)
  {
    var kind := v => KindOfVersion(db, v);
    WhereSelects(db.versionIds, (v: nat) => OwnedVersion(db, owner, v));
    GroupsTellRows(OwnerVersions(db, owner), kind, ActiveKind);
    GroupsTellRows(OwnerVersions(db, owner), kind, NonInactiveKind);
    GroupsTellRows(OwnerIngestion(db, owner), KindOfIngestion, UnfinishedIngestion);
    GroupsTellRows(OwnerCleanup(db.jobs, owner), KindOfJob, NotSucceededKind);
    GroupsTellRows(GlobalNonterminal(db.jobs), KindOfJob, NotSucceededKind);
    BackendsTellTargets(OwnerCleanup(db.jobs, owner));
    hide Where, Grouped, SumRows, GroupKeys, Mapped;
    assert AllInactive(db, owner) <==> forall v :: v in OwnerVersions(db, owner) ==> !ActiveKind(kind(v)) && !NonInactiveKind(kind(v));
    assert IngestionEnded(db, owner) <==>
      forall row :: row in OwnerIngestion(db, owner) ==> !UnfinishedIngestion(KindOfIngestion(row));
    assert (forall job :: job in OwnerCleanup(db.jobs, owner) ==> job.status == Succeeded) <==>
      forall job :: job in OwnerCleanup(db.jobs, owner) ==> !NotSucceededKind(KindOfJob(job));
  }

  lemma TargetsRemain(before: Database, after: Database, owner: nat)
    requires KeysHold(before) && FrozenPrecondition(before, owner)
    requires |after.jobs| == |before.jobs| && forall k :: 0 <= k < |after.jobs| ==>
      SameWork(after.jobs[k], before.jobs[k])
    ensures forall t :: t in TARGETS ==> exists job :: job in OwnerCleanup(after.jobs, owner) && job.target == t
  {
    WhereSelects(before.versionIds, (v: nat) => OwnedVersion(before, owner, v));
    WhereSelects(after.jobs, (job: Job) => job.owner == owner);
    hide Where;
    var v := OwnerVersions(before, owner)[0];
    assert v in OwnerVersions(before, owner);
    forall t | t in TARGETS ensures exists job :: job in OwnerCleanup(after.jobs, owner) && job.target == t {
      var k := UnfinishedJobForPair(before.jobs, owner, Elements(OwnerVersions(before, owner)), v, t);
      assert after.jobs[k] in OwnerCleanup(after.jobs, owner) && after.jobs[k].target == t;
    }
  }

  /** After a passing recovery the audit answers CLEAN exactly when every ingestion job of the owner has ended. */
  lemma RecoveredAuditIsClean(before: Database, after: Database, owner: nat)
    requires KeysHold(before) && KeysHold(after) && OnlyCleaned(before, after)
    requires FrozenPrecondition(before, owner) && PostconditionPass(after, owner)
    requires |after.jobs| == |before.jobs| && forall k :: 0 <= k < |after.jobs| ==>
      SameWork(after.jobs[k], before.jobs[k])
    ensures EvaluatesClean(Collect(after, owner)) <==> IngestionEnded(before, owner)
  {
    AuditDecidesRows(after, owner);
    TargetsRemain(before, after, owner);
    hide Where, Grouped, SumRows, GroupKeys, Mapped;
    assert OwnerIngestion(after, owner) == OwnerIngestion(before, owner);
  }

  // ---------------------------------------------------------------- the recovery run

  datatype Report = PreconditionMismatch | WorkerFailed | RecoveryFailed | RecoveryPassed

  ghost function Observed(versionIds: seq<nat>, ingestion: seq<IngestionRow>, worker: IndexCleanupWorker): Database
    reads worker.repository, worker.stores
  {
    Database(versionIds, worker.stores.versions, ingestion, worker.repository.jobs, worker.stores.storage)
  }

  /** Every job of the owner may be executed now. */
  ghost predicate AllDue(jobs: seq<Job>, owner: nat, now: int) {
    forall k :: 0 <= k < |jobs| && jobs[k].owner == owner ==> Due(jobs[k], now)
  }

  lemma {:induction false} ExecutedAtMost(results: seq<Execution>)
    ensures |ExecutedIds(results)| <= |results|
  {
    if results == [] {
      assert ExecutedIds(results) == {};
    } else {
      var last := |results| - 1;
      ExecutedAtMost(results[..last]);
      assert ExecutedIds(results) == ExecutedIds(results[..last]) + {results[last].id} by {
        assert forall i :: 0 <= i < last ==> results[..last][i] == results[i];
      }
    }
  }

  /** A batch that leaves out no due job is no shorter than the nine frozen ones. */
  lemma NineAreExecuted(before: Database, owner: nat, now: int, results: seq<Execution>)
    requires FrozenPrecondition(before, owner) && AllDue(before.jobs, owner, now)
    requires forall k :: 0 <= k < |before.jobs| && Due(before.jobs[k], now) ==> k in ExecutedIds(results)
    ensures |results| >= EXPECTED_JOBS
  {
    hide Due;
    var owned := (job: Job) => job.owner == owner;
    WhereSelects(before.jobs, owned);
    ExecutedAtMost(results);
    assert Positions(before.jobs, owned) <= ExecutedIds(results);
    SubsetCardinality(Positions(before.jobs, owned), ExecutedIds(results));
  }

  /** The worker runs on exactly the nine frozen jobs; `precondition` and `passed` are what the two snapshots evaluate
      to. */
  method RunRecovery(worker: IndexCleanupWorker, versionIds: seq<nat>, ingestion: seq<IngestionRow>, owner: nat)
    returns (report: Report, ghost results: seq<Execution>)
    requires worker.Valid() && KeysHold(Observed(versionIds, ingestion, worker))
    modifies worker.repository, worker.stores
    ensures report == PreconditionMismatch <==> !old(FrozenPrecondition(Observed(versionIds, ingestion, worker), owner))
    ensures report == PreconditionMismatch ==>
      worker.repository.jobs == old(worker.repository.jobs) && worker.stores.storage == old(worker.stores.storage)
    ensures report in {RecoveryPassed, RecoveryFailed} ==> |results| <= EXPECTED_JOBS
    ensures report in {RecoveryPassed, RecoveryFailed} ==>
      (report == RecoveryPassed <==> |results| == EXPECTED_JOBS && AllSucceeded(results))
    ensures report == RecoveryPassed ==> PostconditionPass(Observed(versionIds, ingestion, worker), owner)
    ensures report == RecoveryPassed ==>
      PhysicallyGone(old(Observed(versionIds, ingestion, worker)), Observed(versionIds, ingestion, worker), owner)
    ensures report == RecoveryPassed ==>
      (EvaluatesClean(Collect(Observed(versionIds, ingestion, worker), owner)) <==>
       old(IngestionEnded(Observed(versionIds, ingestion, worker), owner)))
    // From the frozen state with its jobs due, and with queue and stores answering, the recovery passes.
    ensures
      worker.repository.healthy && worker.stores.healthy && report != PreconditionMismatch &&
      old(AllDue(worker.repository.jobs, owner, worker.repository.now))
      ==> report == RecoveryPassed
  {
    hide AllDue, Due, FrozenPrecondition, PostconditionPass, PhysicallyGone, IngestionEnded, EvaluatesClean,
      Collect, Accounts, Cleans, WellQueued;
    ghost var before := Observed(versionIds, ingestion, worker);
    results := [];
    var initial := Database(versionIds, worker.stores.versions, ingestion, worker.repository.jobs, worker.stores.storage);
    if !FrozenPrecondition(initial, owner) {
      return PreconditionMismatch, results;
    }
    var batch;
    ghost var claimedAt, leased, done, run;
    batch, claimedAt, leased, done, run := worker.RunBatch(EXPECTED_JOBS, {});
    if batch.Raised? {
      return WorkerFailed, results;
    }
    results := batch.value;
    if AllDue(initial.jobs, owner, old(worker.repository.now)) && |results| < EXPECTED_JOBS {
      NineAreExecuted(initial, owner, old(worker.repository.now), results);
    }
    var final := Database(versionIds, worker.stores.versions, ingestion, worker.repository.jobs, worker.stores.storage);
    BatchPasses(initial, final, batch.value, owner, worker.repository.nextToken);
    report := if |batch.value| == EXPECTED_JOBS && AllSucceeded(batch.value) && PostconditionPass(final, owner)
              then RecoveryPassed else RecoveryFailed;
  }

  lemma BatchPasses(before: Database, after: Database, results: seq<Execution>, owner: nat, nextToken: nat)
    requires KeysHold(before) && FrozenPrecondition(before, owner) && OnlyCleaned(before, after)
    requires Accounts(before.jobs, after.jobs, results) && WellQueued(after.jobs, nextToken)
    requires Cleans(before.storage, after.storage, results, before.versions)
    ensures |results| == EXPECTED_JOBS && AllSucceeded(results) ==>
      PostconditionPass(after, owner) && PhysicallyGone(before, after, owner) &&
      (EvaluatesClean(Collect(after, owner)) <==> IngestionEnded(before, owner))
  {
    if |results| == EXPECTED_JOBS && AllSucceeded(results) {
      NineSuccessesPass(before, after, results, owner);
      hide FrozenPrecondition, PostconditionPass, EvaluatesClean, Collect, IngestionEnded;
      assert KeysHold(after);
      RecoveredAuditIsClean(before, after, owner);
    }
  }
}
