/** Publication and inactivation of one version over the real writers, as runs of the lifecycle protocol. */
module IndexLifecycle {
  import opened Basics
  import opened Chunks
  import opened FactSource
  import opened LifecycleProtocol
  import EsW = ElasticsearchWriter
  import MvR = MilvusRows
  import MvW = MilvusWriter

  // ---------------------------------------------------------------- the two writers behind one interface

  function Other(b: Backend): Backend {
    if b.Elasticsearch? then Milvus else Elasticsearch
  }

  class Writers {
    const key: VersionKey
    const elasticsearch: EsW.Writer
    const milvus: MvW.Writer

    constructor (key: VersionKey, elasticsearch: EsW.Writer, milvus: MvW.Writer)
      ensures this.key == key && this.elasticsearch == elasticsearch && this.milvus == milvus
    {
      this.key, this.elasticsearch, this.milvus := key, elasticsearch, milvus;
    }

    /** The identifiers of this version's active rows. */
    ghost function Active(b: Backend): set<string>
      reads elasticsearch.store, milvus.store
    {
      match b
      case Elasticsearch => EsW.ActiveIds(elasticsearch.store.index, key.ownerId, key.versionId)
      case Milvus => MvR.ActiveIds(milvus.store.collection)
    }

    ghost predicate Staged(b: Backend, chunks: seq<Chunk>)
      reads elasticsearch.store, milvus.store
    {
      match b
      case Elasticsearch => EsW.Staged(elasticsearch.store.index, key, chunks)
      case Milvus => MvR.Staged(milvus.store.collection, key, chunks, milvus.provider)
    }

    ghost predicate Online(b: Backend)
      reads elasticsearch.store, milvus.store
    {
      match b
      case Elasticsearch => EsW.Online(elasticsearch.store.index, key)
      case Milvus => MvR.Online(milvus.store.collection, key, milvus.provider)
    }

    /** A collection larger than one query can return is outside this model. */
    ghost predicate Bounded()
      reads milvus.store
    {
      MvR.Bounded(milvus.store.collection)
    }

    ghost predicate Answering(chunks: seq<Chunk>)
      reads elasticsearch.store, milvus.store
    {
      elasticsearch.store.healthy && milvus.store.healthy && MvR.CanStageRows(key, chunks)
    }

    ghost predicate Responds(b: Backend)
      reads elasticsearch.store, milvus.store
    {
      match b case Elasticsearch => elasticsearch.store.healthy case Milvus => milvus.store.healthy
    }

    /** Whether deactivation must succeed: the store answers, and the index is absent or this version's. Elasticsearch wants every
        document to be there, Milvus takes a partial collection. */
    ghost predicate Deactivable(b: Backend)
      reads elasticsearch.store, milvus.store
    {
      ValidIdentity(key.ownerId, key.versionId) && Responds(b) &&
      match b
      case Elasticsearch => EsW.Deactivable(elasticsearch.store.index, key.ownerId, key.versionId)
      case Milvus => MvR.Deactivable(milvus.store.collection, key.ownerId, key.versionId)
    }

    /** Whether both stores answer every call, and hold at most what aborted attempts at these chunks left behind. */
    ghost predicate Serviceable(chunks: seq<Chunk>)
      reads elasticsearch.store, milvus.store
    {
      Answering(chunks) && milvus.provider != "" && MvR.Embeddable(chunks, milvus.embed) &&
      EsW.Resumable(elasticsearch.store.index, key, chunks) &&
      MvR.Resumable(milvus.store.collection, key, chunks, milvus.provider, milvus.embed)
    }

    method EnsureStaged(b: Backend, chunks: seq<Chunk>) returns (r: Result<Receipt, ()>)
      requires Bounded()
      modifies elasticsearch.store`index, milvus.store`collection
      ensures Bounded() && Active(b) <= old(Active(b))
      ensures Active(Other(b)) == old(Active(Other(b))) && Online(Other(b)) == old(Online(Other(b)))
      ensures Staged(Other(b), chunks) == old(Staged(Other(b), chunks))
      ensures r.Ok? ==> CanStage(key, chunks) && Staged(b, chunks)
      ensures r.Ok? ==> r.value == Receipt(b, key.ownerId, key.versionId, |chunks|, chunks)
      ensures old(Serviceable(chunks)) ==> r.Ok? && Serviceable(chunks)
      ensures Answering(chunks) == old(Answering(chunks))
    {
      match b
      case Elasticsearch =>
        var receipt := elasticsearch.EnsureStaged(key, chunks);
        r := if receipt.Ok? then Ok(receipt.value) else Raised(());
      case Milvus =>
        var receipt := milvus.EnsureStaged(key, chunks);
        r := if receipt.Ok? then Ok(receipt.value) else Raised(());
    }

    method ActivateVersion(b: Backend, ghost chunks: seq<Chunk>) returns (r: Result<(), ()>)
      requires Bounded() && CanStage(key, chunks) && Staged(b, chunks)
      modifies elasticsearch.store`index, milvus.store`collection
      ensures Bounded() && old(Active(b)) <= Active(b) && Staged(b, chunks)
      ensures Active(Other(b)) == old(Active(Other(b))) && Online(Other(b)) == old(Online(Other(b)))
      ensures Staged(Other(b), chunks) == old(Staged(Other(b), chunks))
      ensures r.Ok? ==> Online(b) && IdSet(chunks) <= Active(b)
      ensures old(Answering(chunks)) ==> r.Ok? && Answering(chunks)
    {
      hide EsW.ActiveIds, EsW.Online, EsW.Staged, MvR.ActiveIds, MvR.Online, MvR.Staged, MvR.Bounded, MvR.CanStageRows;
      if b.Elasticsearch? {
        r := ActivateElasticsearch(chunks);
      } else {
        r := ActivateMilvus(chunks);
      }
    }

    method ActivateElasticsearch(ghost chunks: seq<Chunk>) returns (r: Result<(), ()>)
      requires CanStage(key, chunks) && Staged(Elasticsearch, chunks)
      modifies elasticsearch.store`index
      ensures old(Active(Elasticsearch)) <= Active(Elasticsearch) && Staged(Elasticsearch, chunks)
      ensures r.Ok? ==> Online(Elasticsearch) && IdSet(chunks) <= Active(Elasticsearch)
      ensures elasticsearch.store.healthy ==> r.Ok?
    {
      hide CanStage, ValidIdentity, EsW.Online;
      StageableIdentity(key, chunks);
      EsW.StagedMatches(elasticsearch.store.index, key, chunks);
      EsW.ActivatedIsOnline(elasticsearch.store.index, key, chunks);
      ghost var before := elasticsearch.store.index.value.docs;
      var done := elasticsearch.ActivateVersion(key.ownerId, key.versionId);
      EsW.ToggleIsMonotone(before, elasticsearch.store.index.value.docs, key.ownerId, key.versionId, true);
      r := if done.Ok? then Ok(()) else Raised(());
    }

    method ActivateMilvus(ghost chunks: seq<Chunk>) returns (r: Result<(), ()>)
      requires Bounded() && CanStage(key, chunks) && Staged(Milvus, chunks)
      modifies milvus.store`collection
      ensures Bounded() && old(Active(Milvus)) <= Active(Milvus) && Staged(Milvus, chunks)
      ensures r.Ok? ==> Online(Milvus) && IdSet(chunks) <= Active(Milvus)
      ensures milvus.store.healthy ==> r.Ok?
    {
      MvR.ActivatedIsOnline(milvus.store.collection, key, chunks, milvus.provider);
      ghost var before := milvus.store.collection;
      var done := milvus.ActivateVersion(key.ownerId, key.versionId);
      MvR.ToggleKeepsStaged(before, milvus.store.collection, key, chunks, milvus.provider, true);
      MvR.ToggleIsMonotone(before, milvus.store.collection, true);
      r := if done.Ok? then Ok(()) else Raised(());
    }

    method DeactivateVersion(b: Backend) returns (r: Result<(), ()>)
      requires Bounded()
      modifies elasticsearch.store`index, milvus.store`collection
      ensures Bounded() && Active(b) <= old(Active(b))
      ensures Active(Other(b)) == old(Active(Other(b))) && Online(Other(b)) == old(Online(Other(b)))
      ensures r.Ok? ==> Active(b) == {} && !Online(b)
      ensures Deactivable(Other(b)) == old(Deactivable(Other(b)))
      ensures old(Deactivable(b)) ==> r.Ok?
    {
      match b
      case Elasticsearch =>
        ghost var before := elasticsearch.store.index;
        var done := elasticsearch.DeactivateVersion(key.ownerId, key.versionId);
        if before.Some? {
          EsW.ToggleIsMonotone(before.value.docs, elasticsearch.store.index.value.docs, key.ownerId, key.versionId, false);
        }
        if done.Ok? {
          EsW.DeactivatedIsOffline(elasticsearch.store.index, key);
        }
        r := if done.Ok? then Ok(()) else Raised(());
      case Milvus =>
        ghost var before := milvus.store.collection;
        var done := milvus.DeactivateVersion(key.ownerId, key.versionId);
        MvR.ToggleIsMonotone(before, milvus.store.collection, false);
        if done.Ok? {
          MvR.DeactivatedIsOffline(milvus.store.collection, key, milvus.provider);
        }
        r := if done.Ok? then Ok(()) else Raised(());
    }
  }

  /** What this version has staged can be deactivated again. */
  lemma StagedIsDeactivable(writers: Writers, b: Backend, chunks: seq<Chunk>)
    requires CanStage(writers.key, chunks) && writers.Staged(b, chunks) && writers.Responds(b)
    ensures writers.Deactivable(b)
  {
    StageableIdentity(writers.key, chunks);
    match b
    case Elasticsearch => EsW.StagedMatches(writers.elasticsearch.store.index, writers.key, chunks);
    case Milvus => MvR.ActivatedIsOnline(writers.milvus.store.collection, writers.key, chunks, writers.milvus.provider);
  }

  lemma AllDeactivable(writers: Writers, chunks: seq<Chunk>)
    requires CanStage(writers.key, chunks) && writers.Staged(Elasticsearch, chunks) && writers.Staged(Milvus, chunks)
    ensures forall b :: writers.Responds(b) ==> writers.Deactivable(b)
  {
    forall b | writers.Responds(b) ensures writers.Deactivable(b) {
      assert writers.Staged(b, chunks) by {
        assert b == Elasticsearch || b == Milvus;
      }
      StagedIsDeactivable(writers, b, chunks);
    }
  }

  // ---------------------------------------------------------------- runs of one process

  datatype Moment<P> = Moment(process: P, world: World)

  ghost predicate PublisherRun(chunks: set<string>, mayLose: bool, run: seq<Moment<Publisher>>) {
    run != [] && forall i :: 0 <= i < |run| - 1 ==>
      PublisherStep(chunks, mayLose, run[i].process, run[i].world, run[i + 1].process, run[i + 1].world)
  }

  ghost predicate InactivatorRun(mayLose: bool, run: seq<Moment<Inactivator>>) {
    run != [] && forall i :: 0 <= i < |run| - 1 ==>
      InactivatorStep(mayLose, run[i].process, run[i].world, run[i + 1].process, run[i + 1].world)
  }

  lemma PublisherRunGrows(chunks: set<string>, mayLose: bool, run: seq<Moment<Publisher>>, next: Moment<Publisher>)
    requires PublisherRun(chunks, mayLose, run)
    requires PublisherStep(chunks, mayLose, run[|run| - 1].process, run[|run| - 1].world, next.process, next.world)
    ensures PublisherRun(chunks, mayLose, run + [next])
  {
    var longer := run + [next];
    forall i | 0 <= i < |longer| - 1
      ensures PublisherStep(chunks, mayLose, longer[i].process, longer[i].world, longer[i + 1].process, longer[i + 1].world)
    {
      if i < |run| - 1 {
        assert longer[i] == run[i] && longer[i + 1] == run[i + 1];
      }
    }
  }

  lemma InactivatorRunGrows(mayLose: bool, run: seq<Moment<Inactivator>>, next: Moment<Inactivator>)
    requires InactivatorRun(mayLose, run)
    requires InactivatorStep(mayLose, run[|run| - 1].process, run[|run| - 1].world, next.process, next.world)
    ensures InactivatorRun(mayLose, run + [next])
  {
    var longer := run + [next];
    forall i | 0 <= i < |longer| - 1
      ensures InactivatorStep(mayLose, longer[i].process, longer[i].world, longer[i + 1].process, longer[i + 1].world)
    {
      if i < |run| - 1 {
        assert longer[i] == run[i] && longer[i + 1] == run[i + 1];
      }
    }
  }

  ghost function Now(repository: Repository, writers: Writers): World
    reads repository, writers.elasticsearch.store, writers.milvus.store
  {
    World(repository.fact, writers.Active(Elasticsearch), writers.Active(Milvus))
  }

  // ---------------------------------------------------------------- publication

  datatype Job = Job(ownerId: string, documentId: string, versionId: string, status: JobStatus)

  datatype Preparation = Preparation(key: VersionKey, version: Fact, job: Job, parsePassed: bool, chunks: seq<Chunk>)

  predicate ValidPreparation(p: Preparation) {
    p.version.status == Processing && p.job.status == Running &&
    p.job.ownerId == p.key.ownerId && p.job.documentId == p.key.documentId && p.job.versionId == p.key.versionId &&
    p.parsePassed && p.chunks != [] && forall i :: 0 <= i < |p.chunks| ==>
      OwnedBy(p.chunks[i], p.key) && !p.chunks[i].isActive
  }

  /** A chunk of another owner, document or version, or one that is active already. */
  ghost predicate ForeignOrActive(c: Chunk, key: VersionKey) {
    c.tenantId != key.ownerId || c.documentId != key.documentId || c.versionId != key.versionId || c.isActive
  }

  /** What makes a preparation unacceptable: each of these defects by itself. */
  lemma DefectsAreRefused(p: Preparation)
    ensures !ValidPreparation(p) <==>
      p.version.status != Processing || p.job.status != Running || p.job.ownerId != p.key.ownerId ||
      p.job.documentId != p.key.documentId || p.job.versionId != p.key.versionId || !p.parsePassed || p.chunks == [] ||
      exists c :: c in p.chunks && ForeignOrActive(c, p.key)
  {
    if c :| c in p.chunks && ForeignOrActive(c, p.key) {
      var i :| 0 <= i < |p.chunks| && p.chunks[i] == c;
    } else {
      forall i | 0 <= i < |p.chunks| ensures !ForeignOrActive(p.chunks[i], p.key) {
        assert p.chunks[i] in p.chunks;
      }
    }
  }

  predicate VerifyReceipt(receipt: Receipt, b: Backend, key: VersionKey, chunks: seq<Chunk>) {
    receipt == Receipt(b, key.ownerId, key.versionId, |chunks|, chunks)
  }

  datatype PublishError =
    | InvalidPreparation
    | RepositoryFailed
    | IndexLifecycleError(code: Code, compensationFailures: seq<Failure>)

  datatype Publication = Publication(version: Fact, receipts: seq<Receipt>)

  /** An index is inactive, or the error names it. */
  ghost predicate Named(active: set<string>, b: Backend, error: PublishError) {
    active == {} || (error.IndexLifecycleError? && DeactivateFailed(b) in error.compensationFailures)
  }

  /** How a finished publisher appears to the caller. */
  ghost predicate ReportedAs(p: Publisher, error: PublishError) {
    match p.phase
    case PublishFailed(None) => error == RepositoryFailed
    case PublishFailed(Some(code)) => error == IndexLifecycleError(code, p.failures)
    case _ => false
  }

  /** What a raise leaves of the ingestion job. A recorded failure has set it to FAILED. Otherwise it is as it was, unless the answer
      to a commit got lost: that of the recording, or that of the finalization, which has set it to SUCCEEDED. */
  ghost predicate JobAfter(error: PublishError, before: JobStatus, after: JobStatus, mayLose: bool) {
    if !error.IndexLifecycleError? then after == before
    else if IsRecorded(error) then after == JobFailed
    else
      after == before ||
      (mayLose && (after == JobFailed || (after == Succeeded && error.code == FinalizationFailed)))
  }

  /** The repository answers and still has the version that the publisher holds. */
  ghost predicate Current(repository: Repository, version: Fact)
    reads repository
  {
    repository.healthy && repository.fact == version && version.status == Processing
  }

  ghost predicate IsRecorded(error: PublishError) {
    error.IndexLifecycleError? && RecordFailed !in error.compensationFailures
  }

  function StateOf(fact: Fact, b: Backend): IndexState {
    match b case Elasticsearch => fact.elasticsearch case Milvus => fact.milvus
  }

  /** A recorded failure stands in the fact: its code, and the index it is blamed on as broken. */
  ghost predicate FailureStands(error: PublishError, fact: Fact) {
    IsRecorded(error) ==>
      fact.status == Processing && fact.failureCode == Some(error.code) &&
      (match error.code
       case StageFailed(b) => StateOf(fact, b) == Broken
       case ActivationFailed(b) => StateOf(fact, b) == Broken
       case FinalizationFailed => fact.elasticsearch == Broken)
  }

  /** The two indexes, named only when they refused to be deactivated. */
  ghost predicate NamesNoIndex(failures: seq<Failure>) {
    forall b :: DeactivateFailed(b) !in failures
  }

  /** Record a failure against the version held; a refused or unanswered call is itself reported. */
  method RecordFailure(repository: Repository, version: Fact, backend: Backend, code: Code, failures: seq<Failure>)
    returns (reported: seq<Failure>, ghost outcome: Outcome)
    modifies repository`fact, repository`job
    ensures if outcome.Refused? then repository.fact == old(repository.fact)
            else CanCommit(old(repository.fact), version.revision, FailurePatch(version, backend, code)) &&
                 repository.fact == Applied(old(repository.fact), FailurePatch(version, backend, code))
    ensures repository.job == if outcome.Refused? then old(repository.job) else JobFailed
    ensures old(Current(repository, version)) ==> outcome.Committed?
    ensures outcome.AnswerLost? ==> repository.mayLoseAnswers
    ensures reported == if outcome.Committed? then failures else failures + [RecordFailed]
  {
    var answer, _ := repository.Commit(version.revision, FailurePatch(version, backend, code), Some(JobFailed));
    outcome := answer;
    reported := if answer.Committed? then failures else failures + [RecordFailed];
  }

  /** Record that an index is staged, against the version held. */
  method RecordStaged(i: nat, version: Fact, repository: Repository, writers: Writers, ghost chunks: set<string>,
                      ghost run: seq<Moment<Publisher>>)
    returns (r: Result<Fact, PublishError>, ghost longer: seq<Moment<Publisher>>)
    requires i < 2 && PublisherRun(chunks, repository.mayLoseAnswers, run)
    requires run[|run| - 1] == Moment(Publisher(RecordingStaged(i), version, []), Now(repository, writers))
    modifies repository`fact, repository`job
    ensures PublisherRun(chunks, repository.mayLoseAnswers, longer) && longer[0] == run[0]
    ensures longer[|longer| - 1].world == Now(repository, writers)
    ensures r.Ok? ==> longer[|longer| - 1].process == Publisher(if i == 0 then Staging(1) else Activating(0), r.value, [])
    ensures r.Ok? ==> repository.fact == r.value && r.value.status == Processing
    ensures repository.job == old(repository.job) && (r.Raised? ==> r.error == RepositoryFailed)
    ensures r.Raised? ==> ReportedAs(longer[|longer| - 1].process, r.error)
    ensures old(Current(repository, version)) ==>
      r.Ok? && r.value.prepared == version.prepared
  {
    ghost var before := Now(repository, writers);
    var outcome, row := repository.Commit(version.revision, StagedPatch(version, WRITERS[i]), None);
    assert Answers(before, Now(repository, writers), version.revision, StagedPatch(version, WRITERS[i]), outcome);
    ghost var answered := Moment(
      if outcome.Committed? then Publisher(if i == 0 then Staging(1) else Activating(0), row, [])
      else Publisher(PublishFailed(None), version, []), Now(repository, writers));
    PublisherRunGrows(chunks, repository.mayLoseAnswers, run, answered);
    longer := run + [answered];
    r := if outcome.Committed? then Ok(row) else Raised(RepositoryFailed);
  }

  method RecordUnstaged(i: nat, version: Fact, repository: Repository, writers: Writers, ghost chunks: set<string>,
                        ghost run: seq<Moment<Publisher>>)
    returns (error: PublishError, ghost longer: seq<Moment<Publisher>>)
    requires i < 2 && PublisherRun(chunks, repository.mayLoseAnswers, run)
    requires run[|run| - 1] == Moment(Publisher(RecordingStageFailure(i), version, []), Now(repository, writers))
    modifies repository`fact, repository`job
    ensures PublisherRun(chunks, repository.mayLoseAnswers, longer) && longer[0] == run[0]
    ensures longer[|longer| - 1].world == Now(repository, writers) && ReportedAs(longer[|longer| - 1].process, error)
    ensures JobAfter(error, old(repository.job), repository.job, repository.mayLoseAnswers) &&
      FailureStands(error, repository.fact)
    ensures old(Current(repository, version)) ==> IsRecorded(error)
    ensures error.IndexLifecycleError? && error.code == StageFailed(WRITERS[i]) && NamesNoIndex(error.compensationFailures)
  {
    ghost var before := Now(repository, writers);
    var b := WRITERS[i];
    var failures, outcome := RecordFailure(repository, version, b, StageFailed(b), []);
    assert Answers(before, Now(repository, writers), version.revision, FailurePatch(version, b, StageFailed(b)), outcome);
    ghost var failed := Moment(Publisher(PublishFailed(Some(StageFailed(b))), version, failures), Now(repository, writers));
    PublisherRunGrows(chunks, repository.mayLoseAnswers, run, failed);
    error, longer := IndexLifecycleError(StageFailed(b), failures), run + [failed];
  }

  /** Stage one index and record it, or record its failure. */
  method StageOne(i: nat, version: Fact, prep: Preparation, repository: Repository, writers: Writers,
                  ghost run: seq<Moment<Publisher>>)
    returns (r: Result<(Fact, Receipt), PublishError>, ghost longer: seq<Moment<Publisher>>)
    requires i < 2 && writers.key == prep.key && writers.Bounded()
    requires PublisherRun(IdSet(prep.chunks), repository.mayLoseAnswers, run)
    requires run[|run| - 1] == Moment(Publisher(Staging(i), version, []), Now(repository, writers))
    modifies repository`fact, repository`job, writers.elasticsearch.store`index, writers.milvus.store`collection
    ensures writers.Bounded() && PublisherRun(IdSet(prep.chunks), repository.mayLoseAnswers, longer) &&
      longer[0] == run[0]
    ensures longer[|longer| - 1].world == Now(repository, writers)
    ensures r.Ok? ==>
      longer[|longer| - 1].process == Publisher(if i == 0 then Staging(1) else Activating(0), r.value.0, [])
    ensures r.Ok? ==> CanStage(prep.key, prep.chunks) && writers.Staged(WRITERS[i], prep.chunks)
    ensures r.Ok? ==> VerifyReceipt(r.value.1, WRITERS[i], prep.key, prep.chunks)
    ensures r.Ok? ==> repository.fact == r.value.0 && r.value.0.status == Processing
    ensures writers.Answering(prep.chunks) == old(writers.Answering(prep.chunks))
    ensures writers.Staged(Other(WRITERS[i]), prep.chunks) == old(writers.Staged(Other(WRITERS[i]), prep.chunks))
    ensures r.Raised? ==> ReportedAs(longer[|longer| - 1].process, r.error)
    ensures r.Ok? ==> repository.job == old(repository.job)
    ensures r.Raised? ==>
      JobAfter(r.error, old(repository.job), repository.job, repository.mayLoseAnswers) &&
      FailureStands(r.error, repository.fact)
    ensures r.Raised? && old(Current(repository, version)) ==> IsRecorded(r.error)
    ensures r.Raised? && r.error.IndexLifecycleError? ==>
      r.error.code.StageFailed? && NamesNoIndex(r.error.compensationFailures)
    ensures
      old(Current(repository, version) && writers.Serviceable(prep.chunks))
      ==> r.Ok? && writers.Serviceable(prep.chunks) && r.value.0.prepared == version.prepared
  {
    hide Writers.Staged, Writers.Online, Writers.Answering, EsW.Resumable, MvR.Resumable, CanStage;
    ghost var ids, mayLose := IdSet(prep.chunks), repository.mayLoseAnswers;
    var b := WRITERS[i];
    var receipt := writers.EnsureStaged(b, prep.chunks);
    if receipt.Raised? || !VerifyReceipt(receipt.value, b, prep.key, prep.chunks) {
      longer := run + [Moment(Publisher(RecordingStageFailure(i), version, []), Now(repository, writers))];
      PublisherRunGrows(ids, mayLose, run, longer[|run|]);
      var error;
      error, longer := RecordUnstaged(i, version, repository, writers, ids, longer);
      return Raised(error), longer;
    }
    longer := run + [Moment(Publisher(RecordingStaged(i), version, []), Now(repository, writers))];
    PublisherRunGrows(ids, mayLose, run, longer[|run|]);
    var row;
    row, longer := RecordStaged(i, version, repository, writers, ids, longer);
    r := if row.Ok? then Ok((row.value, receipt.value)) else Raised(row.error);
  }

  method StageBoth(prep: Preparation, repository: Repository, writers: Writers)
    returns (r: Result<(Fact, seq<Receipt>), PublishError>, ghost run: seq<Moment<Publisher>>)
    requires ValidPreparation(prep) && writers.key == prep.key && writers.Bounded()
    modifies repository`fact, repository`job, writers.elasticsearch.store`index, writers.milvus.store`collection
    ensures writers.Bounded() && PublisherRun(IdSet(prep.chunks), repository.mayLoseAnswers, run)
    ensures run[0] == Moment(NewPublisher(prep.version), old(Now(repository, writers)))
    ensures run[|run| - 1].world == Now(repository, writers)
    ensures r.Ok? ==> run[|run| - 1].process == Publisher(Activating(0), r.value.0, [])
    ensures r.Ok? ==>
      CanStage(prep.key, prep.chunks) &&
      writers.Staged(Elasticsearch, prep.chunks) && writers.Staged(Milvus, prep.chunks)
    ensures r.Ok? ==> |r.value.1| == 2 && forall i :: 0 <= i < 2 ==>
      VerifyReceipt(r.value.1[i], WRITERS[i], prep.key, prep.chunks)
    ensures r.Ok? ==> repository.fact == r.value.0 && r.value.0.status == Processing
    ensures writers.Answering(prep.chunks) == old(writers.Answering(prep.chunks))
    ensures r.Raised? ==> ReportedAs(run[|run| - 1].process, r.error)
    ensures r.Ok? ==> repository.job == old(repository.job)
    ensures r.Raised? ==>
      JobAfter(r.error, old(repository.job), repository.job, repository.mayLoseAnswers) &&
      FailureStands(r.error, repository.fact)
    ensures r.Raised? && old(Current(repository, prep.version)) ==> IsRecorded(r.error)
    ensures r.Raised? && r.error.IndexLifecycleError? ==>
      r.error.code.StageFailed? && NamesNoIndex(r.error.compensationFailures)
    ensures old(repository.healthy && repository.fact == prep.version && writers.Serviceable(prep.chunks)) ==>
      r.Ok? && writers.Serviceable(prep.chunks) && r.value.0.prepared == prep.version.prepared
  {
    hide Writers.Staged, Writers.Online, Writers.Answering, EsW.Resumable, MvR.Resumable, CanStage;
    var version, receipts := prep.version, [];
    run := [Moment(NewPublisher(version), Now(repository, writers))];
    for i := 0 to 2
      invariant writers.Bounded() && PublisherRun(IdSet(prep.chunks), repository.mayLoseAnswers, run)
      invariant run[0] == Moment(NewPublisher(prep.version), old(Now(repository, writers)))
      invariant run[|run| - 1] ==
        Moment(Publisher(if i < 2 then Staging(i) else Activating(0), version, []), Now(repository, writers))
      invariant i > 0 ==> CanStage(prep.key, prep.chunks) && writers.Staged(Elasticsearch, prep.chunks)
      invariant i > 1 ==> writers.Staged(Milvus, prep.chunks)
      invariant |receipts| == i && forall j :: 0 <= j < i ==>
        VerifyReceipt(receipts[j], WRITERS[j], prep.key, prep.chunks)
      invariant i > 0 ==> repository.fact == version && version.status == Processing
      invariant repository.job == old(repository.job)
      invariant old(Current(repository, prep.version)) ==> Current(repository, version)
      invariant writers.Answering(prep.chunks) == old(writers.Answering(prep.chunks))
      invariant old(repository.healthy && repository.fact == prep.version && writers.Serviceable(prep.chunks)) ==>
        writers.Serviceable(prep.chunks) && repository.fact == version && version.status == Processing &&
        version.prepared == prep.version.prepared
    {
      var staged;
      staged, run := StageOne(i, version, prep, repository, writers, run);
      if staged.Raised? {
        return Raised(staged.error), run;
      }
      version := staged.value.0;
      receipts := receipts + [staged.value.1];
    }
    r := Ok((version, receipts));
  }

  ghost predicate IsOffline(b: Backend, writers: Writers)
    reads writers.elasticsearch.store, writers.milvus.store
  {
    writers.Active(b) == {} && !writers.Online(b)
  }

  /** Try to deactivate both indexes, listing those that refuse. */
  method CompensateDeactivation(writers: Writers, ghost chunks: set<string>, ghost mayLose: bool, ghost version: Fact,
                                ghost cause: Code,
                                ghost repository: Repository, ghost run: seq<Moment<Publisher>>)
    returns (failures: seq<Failure>, ghost longer: seq<Moment<Publisher>>)
    requires writers.Bounded() && PublisherRun(chunks, mayLose, run)
    requires run[|run| - 1] == Moment(Publisher(Compensating(0, cause), version, []), Now(repository, writers))
    modifies writers.elasticsearch.store`index, writers.milvus.store`collection
    ensures writers.Bounded() && PublisherRun(chunks, mayLose, longer) && longer[0] == run[0]
    ensures longer[|longer| - 1] == Moment(Publisher(RecordingFailure(cause), version, failures), Now(repository, writers))
    ensures RecordFailed !in failures
    // Each index that can be deactivated is, whatever the other one does.
    ensures forall b :: old(writers.Deactivable(b)) ==> DeactivateFailed(b) !in failures && IsOffline(b, writers)
  {
    failures, longer := [], run;
    for i := 0 to 2
      invariant RecordFailed !in failures
      invariant forall b :: old(writers.Deactivable(b)) ==>
        DeactivateFailed(b) !in failures &&
        if Position(b) < i then IsOffline(b, writers) else writers.Deactivable(b)
      invariant writers.Bounded() && PublisherRun(chunks, mayLose, longer) && longer[0] == run[0]
      invariant longer[|longer| - 1] ==
        Moment(Publisher(if i < 2 then Compensating(i, cause) else RecordingFailure(cause), version, failures),
               Now(repository, writers))
    {
      var done := writers.DeactivateVersion(WRITERS[i]);
      ghost var written := Moment(Publisher(CheckingCompensation(i, cause), version, failures), Now(repository, writers));
      PublisherRunGrows(chunks, mayLose, longer, written);
      if done.Raised? {
        failures := failures + [DeactivateFailed(WRITERS[i])];
      }
      ghost var checked := Moment(Publisher(AfterCompensation(i, cause), version, failures), Now(repository, writers));
      PublisherRunGrows(chunks, mayLose, longer + [written], checked);
      longer := longer + [written] + [checked];
    }
  }

  /** Deactivate what was activated and record why. */
  method Abandon(version: Fact, cause: Code, repository: Repository, writers: Writers, ghost chunks: set<string>,
                 ghost run: seq<Moment<Publisher>>)
    returns (error: PublishError, ghost longer: seq<Moment<Publisher>>)
    requires writers.Bounded() && PublisherRun(chunks, repository.mayLoseAnswers, run)
    requires run[|run| - 1] == Moment(Publisher(Compensating(0, cause), version, []), Now(repository, writers))
    modifies repository`fact, repository`job, writers.elasticsearch.store`index, writers.milvus.store`collection
    ensures writers.Bounded() && PublisherRun(chunks, repository.mayLoseAnswers, longer) && longer[0] == run[0]
    ensures longer[|longer| - 1].world == Now(repository, writers) && ReportedAs(longer[|longer| - 1].process, error)
    ensures error.IndexLifecycleError? && error.code == cause &&
      JobAfter(error, old(repository.job), repository.job, repository.mayLoseAnswers) &&
      FailureStands(error, repository.fact)
    ensures old(Current(repository, version)) ==> IsRecorded(error)
    ensures forall b :: old(writers.Deactivable(b)) ==> DeactivateFailed(b) !in error.compensationFailures && IsOffline(b, writers)
  {
    var compensation;
    compensation, longer := CompensateDeactivation(writers, chunks, repository.mayLoseAnswers, version, cause, repository, run);
    ghost var before := Now(repository, writers);
    var failures, outcome := RecordFailure(repository, version, BlamedBackend(cause), cause, compensation);
    assert Answers(before, Now(repository, writers), version.revision, FailurePatch(version, BlamedBackend(cause), cause), outcome);
    ghost var failed := Moment(Publisher(PublishFailed(Some(cause)), version, failures), Now(repository, writers));
    PublisherRunGrows(chunks, repository.mayLoseAnswers, longer, failed);
    error, longer := IndexLifecycleError(cause, failures), longer + [failed];
  }

  /** Activate and check one index, abandoning the publication if that fails. */
  method ActivateOne(i: nat, version: Fact, prep: Preparation, repository: Repository, writers: Writers,
                     ghost run: seq<Moment<Publisher>>)
    returns (r: Result<(), PublishError>, ghost longer: seq<Moment<Publisher>>)
    requires i < 2 && writers.key == prep.key && writers.Bounded() && CanStage(prep.key, prep.chunks)
    requires writers.Staged(Elasticsearch, prep.chunks) && writers.Staged(Milvus, prep.chunks)
    requires PublisherRun(IdSet(prep.chunks), repository.mayLoseAnswers, run)
    requires run[|run| - 1] == Moment(Publisher(Activating(i), version, []), Now(repository, writers))
    modifies repository`fact, repository`job, writers.elasticsearch.store`index, writers.milvus.store`collection
    ensures writers.Bounded() && PublisherRun(IdSet(prep.chunks), repository.mayLoseAnswers, longer) &&
      longer[0] == run[0]
    ensures longer[|longer| - 1].world == Now(repository, writers)
    ensures r.Ok? ==> longer[|longer| - 1].process == Publisher(if i == 0 then Activating(1) else Finalizing, version, [])
    ensures r.Ok? ==> writers.Online(WRITERS[i]) && writers.Staged(WRITERS[i], prep.chunks)
    ensures r.Ok? ==> repository.fact == old(repository.fact) && repository.job == old(repository.job)
    ensures r.Ok? ==> writers.Staged(Other(WRITERS[i]), prep.chunks) == old(writers.Staged(Other(WRITERS[i]), prep.chunks))
    ensures r.Ok? ==> writers.Online(Other(WRITERS[i])) == old(writers.Online(Other(WRITERS[i])))
    ensures r.Raised? ==> ReportedAs(longer[|longer| - 1].process, r.error)
    ensures r.Raised? ==>
      JobAfter(r.error, old(repository.job), repository.job, repository.mayLoseAnswers) &&
      FailureStands(r.error, repository.fact)
    ensures r.Raised? && old(Current(repository, version)) ==> IsRecorded(r.error)
    ensures r.Raised? ==> r.error.IndexLifecycleError? && r.error.code.ActivationFailed?
    ensures r.Raised? ==> forall b :: old(writers.Responds(b)) ==>
      DeactivateFailed(b) !in r.error.compensationFailures && IsOffline(b, writers)
    ensures old(writers.Answering(prep.chunks)) ==> r.Ok? && writers.Answering(prep.chunks)
  {
    hide Writers.Staged, Writers.Online, Writers.Answering, EsW.Resumable, MvR.Resumable, CanStage;
    ghost var ids, mayLose := IdSet(prep.chunks), repository.mayLoseAnswers;
    var b := WRITERS[i];
    var done := writers.ActivateVersion(b, prep.chunks);
    ghost var written := Moment(Publisher(CheckingActivation(i), version, []), Now(repository, writers));
    PublisherRunGrows(ids, mayLose, run, written);
    ghost var phase := if done.Raised? then Compensating(0, ActivationFailed(b)) else if i == 0 then Activating(1) else Finalizing;
    ghost var checked := Moment(Publisher(phase, version, []), Now(repository, writers));
    PublisherRunGrows(ids, mayLose, run + [written], checked);
    longer := run + [written] + [checked];
    if done.Raised? {
      AllDeactivable(writers, prep.chunks);
      var error;
      error, longer := Abandon(version, ActivationFailed(b), repository, writers, ids, longer);
      return Raised(error), longer;
    }
    r := Ok(());
  }

  method ActivateBoth(version: Fact, prep: Preparation, repository: Repository, writers: Writers,
                      ghost run: seq<Moment<Publisher>>)
    returns (r: Result<(), PublishError>, ghost longer: seq<Moment<Publisher>>)
    requires writers.key == prep.key && writers.Bounded() && CanStage(prep.key, prep.chunks)
    requires writers.Staged(Elasticsearch, prep.chunks) && writers.Staged(Milvus, prep.chunks)
    requires PublisherRun(IdSet(prep.chunks), repository.mayLoseAnswers, run)
    requires run[|run| - 1] == Moment(Publisher(Activating(0), version, []), Now(repository, writers))
    modifies repository`fact, repository`job, writers.elasticsearch.store`index, writers.milvus.store`collection
    ensures writers.Bounded() && PublisherRun(IdSet(prep.chunks), repository.mayLoseAnswers, longer) &&
      longer[0] == run[0]
    ensures longer[|longer| - 1].world == Now(repository, writers)
    ensures r.Ok? ==> longer[|longer| - 1].process == Publisher(Finalizing, version, [])
    ensures r.Ok? ==> writers.Online(Elasticsearch) && writers.Staged(Elasticsearch, prep.chunks)
    ensures r.Ok? ==> writers.Online(Milvus) && writers.Staged(Milvus, prep.chunks)
    ensures r.Ok? ==> repository.fact == old(repository.fact) && repository.job == old(repository.job)
    ensures r.Raised? ==> ReportedAs(longer[|longer| - 1].process, r.error)
    ensures r.Raised? ==>
      JobAfter(r.error, old(repository.job), repository.job, repository.mayLoseAnswers) &&
      FailureStands(r.error, repository.fact)
    ensures r.Raised? && old(Current(repository, version)) ==> IsRecorded(r.error)
    ensures r.Raised? ==> r.error.IndexLifecycleError? && r.error.code.ActivationFailed?
    ensures r.Raised? ==> forall b :: old(writers.Responds(b)) ==>
      DeactivateFailed(b) !in r.error.compensationFailures && IsOffline(b, writers)
    ensures old(writers.Answering(prep.chunks)) ==> r.Ok? && writers.Answering(prep.chunks)
  {
    hide Writers.Staged, Writers.Online, Writers.Answering, EsW.Resumable, MvR.Resumable, CanStage;
    longer, r := run, Ok(());
    for i := 0 to 2
      invariant writers.Bounded() && PublisherRun(IdSet(prep.chunks), repository.mayLoseAnswers, longer) &&
        longer[0] == run[0]
      invariant longer[|longer| - 1] ==
        Moment(Publisher(if i < 2 then Activating(i) else Finalizing, version, []), Now(repository, writers))
      invariant writers.Staged(Elasticsearch, prep.chunks) && writers.Staged(Milvus, prep.chunks)
      invariant r.Ok? && (i > 0 ==> writers.Online(Elasticsearch)) && (i > 1 ==> writers.Online(Milvus))
      invariant repository.fact == old(repository.fact) && repository.job == old(repository.job)
      invariant old(writers.Answering(prep.chunks)) ==> writers.Answering(prep.chunks)
    {
      r, longer := ActivateOne(i, version, prep, repository, writers, longer);
      if r.Raised? {
        return;
      }
    }
  }

  /** Enter READY atomically with the job's success, or abandon the publication. */
  method Finalize(version: Fact, prep: Preparation, repository: Repository, writers: Writers,
                  ghost run: seq<Moment<Publisher>>)
    returns (r: Result<Fact, PublishError>, ghost longer: seq<Moment<Publisher>>)
    requires writers.Bounded() && PublisherRun(IdSet(prep.chunks), repository.mayLoseAnswers, run)
    requires run[|run| - 1] == Moment(Publisher(Finalizing, version, []), Now(repository, writers))
    modifies repository`fact, repository`job, writers.elasticsearch.store`index, writers.milvus.store`collection
    ensures writers.Bounded() && PublisherRun(IdSet(prep.chunks), repository.mayLoseAnswers, longer) &&
      longer[0] == run[0]
    ensures longer[|longer| - 1].world == Now(repository, writers)
    ensures r.Ok? ==> longer[|longer| - 1].process == Publisher(Published, r.value, [])
    ensures r.Ok? ==> repository.fact == r.value && r.value.status == Ready && FailsClosed(r.value) && repository.job == Succeeded
    ensures r.Ok? ==> writers.Online(Elasticsearch) == old(writers.Online(Elasticsearch))
    ensures r.Ok? ==> writers.Online(Milvus) == old(writers.Online(Milvus))
    ensures r.Ok? ==> writers.Staged(Elasticsearch, prep.chunks) == old(writers.Staged(Elasticsearch, prep.chunks))
    ensures r.Ok? ==> writers.Staged(Milvus, prep.chunks) == old(writers.Staged(Milvus, prep.chunks))
    ensures r.Raised? ==> ReportedAs(longer[|longer| - 1].process, r.error)
    ensures r.Raised? ==>
      JobAfter(r.error, old(repository.job), repository.job, repository.mayLoseAnswers) &&
      FailureStands(r.error, repository.fact)
    ensures r.Raised? && old(Current(repository, version)) ==> IsRecorded(r.error)
    ensures r.Raised? ==> r.error.IndexLifecycleError? && r.error.code == FinalizationFailed
    ensures r.Raised? ==> forall b :: old(writers.Deactivable(b)) ==>
      DeactivateFailed(b) !in r.error.compensationFailures && IsOffline(b, writers)
    ensures old(Current(repository, version) && version.prepared) ==> r.Ok?
  {
    ghost var ids, before := IdSet(prep.chunks), Now(repository, writers);
    var outcome, row := repository.Commit(version.revision, READY_PATCH, Some(Succeeded));
    assert Answers(before, Now(repository, writers), version.revision, READY_PATCH, outcome);
    ghost var answered := Moment(
      if outcome.Committed? then Publisher(Published, row, []) else Publisher(Compensating(0, FinalizationFailed), version, []),
      Now(repository, writers));
    PublisherRunGrows(ids, repository.mayLoseAnswers, run, answered);
    longer := run + [answered];
    if outcome.Committed? {
      return Ok(row), longer;
    }
    var error;
    error, longer := Abandon(version, FinalizationFailed, repository, writers, ids, longer);
    r := Raised(error);
  }

  method PublishPreparedIndexes(prep: Preparation, repository: Repository, writers: Writers)
    returns (r: Result<Publication, PublishError>, ghost run: seq<Moment<Publisher>>)
    requires writers.key == prep.key && writers.Bounded()
    modifies repository`fact, repository`job, writers.elasticsearch.store`index, writers.milvus.store`collection
    // An unacceptable preparation is refused before anything is touched.
    ensures !ValidPreparation(prep) ==>
      r == Raised(InvalidPreparation) && repository.fact == old(repository.fact) &&
      repository.job == old(repository.job) &&
      writers.elasticsearch.store.index == old(writers.elasticsearch.store.index) &&
      writers.milvus.store.collection == old(writers.milvus.store.collection)
    // Otherwise the call is one complete run of a protocol publisher.
    ensures ValidPreparation(prep) ==>
      PublisherRun(IdSet(prep.chunks), repository.mayLoseAnswers, run) &&
      run[0] == Moment(NewPublisher(prep.version), old(Now(repository, writers))) &&
      run[|run| - 1].world == Now(repository, writers) &&
      if r.Ok? then run[|run| - 1].process == Publisher(Published, r.value.version, [])
      else ReportedAs(run[|run| - 1].process, r.error)
    // Success: READY and the job's success together, both indexes online and holding exactly the chunks.
    ensures r.Ok? ==>
      repository.fact == r.value.version && r.value.version.status == Ready && repository.job == Succeeded
    ensures r.Ok? ==> writers.Online(Elasticsearch) && writers.Staged(Elasticsearch, prep.chunks)
    ensures r.Ok? ==> writers.Online(Milvus) && writers.Staged(Milvus, prep.chunks)
    ensures r.Ok? ==>
      r.value.receipts == [Receipt(Elasticsearch, prep.key.ownerId, prep.key.versionId, |prep.chunks|, prep.chunks),
                           Receipt(Milvus, prep.key.ownerId, prep.key.versionId, |prep.chunks|, prep.chunks)]
    // A raise leaves nothing active but what it names, and READY only if the repository lost an answer.
    ensures r.Raised? && old(writers.Active(Elasticsearch)) == {} ==>
      Named(writers.Active(Elasticsearch), Elasticsearch, r.error)
    ensures r.Raised? && old(writers.Active(Milvus)) == {} ==> Named(writers.Active(Milvus), Milvus, r.error)
    ensures r.Raised? && repository.fact.status == Ready ==>
      old(repository.fact).status == Ready || repository.mayLoseAnswers
    // A recorded failure has set the job to FAILED; only a lost answer can leave a raised publication's job SUCCEEDED.
    ensures r.Raised? ==>
      JobAfter(r.error, old(repository.job), repository.job, repository.mayLoseAnswers) &&
      FailureStands(r.error, repository.fact)
    ensures r.Raised? && ValidPreparation(prep) && old(Current(repository, prep.version)) ==> IsRecorded(r.error)
    // A raise names no index whose store answers, and what had been activated there is offline again.
    ensures r.Raised? && r.error.IndexLifecycleError? ==> forall b :: old(writers.Responds(b)) ==>
      DeactivateFailed(b) !in r.error.compensationFailures && (r.error.code.StageFailed? || IsOffline(b, writers))
    // When every store answers, a current and complete preparation is published.
    ensures
      ValidPreparation(prep) && prep.version.prepared &&
      old(repository.healthy && repository.fact == prep.version && writers.Serviceable(prep.chunks))
      ==> r.Ok?
  {
    run := [];
    if !ValidPreparation(prep) {
      return Raised(InvalidPreparation), run;
    }
    r, run := PublishValid(prep, repository, writers);
    if r.Raised? {
      RaisedRun(IdSet(prep.chunks), repository.mayLoseAnswers, run, r.error);
    }
  }

  method PublishValid(prep: Preparation, repository: Repository, writers: Writers)
    returns (r: Result<Publication, PublishError>, ghost run: seq<Moment<Publisher>>)
    requires ValidPreparation(prep) && writers.key == prep.key && writers.Bounded()
    modifies repository`fact, repository`job, writers.elasticsearch.store`index, writers.milvus.store`collection
    ensures PublisherRun(IdSet(prep.chunks), repository.mayLoseAnswers, run)
    ensures run[0] == Moment(NewPublisher(prep.version), old(Now(repository, writers)))
    ensures run[|run| - 1].world == Now(repository, writers)
    ensures
      if r.Ok? then run[|run| - 1].process == Publisher(Published, r.value.version, [])
      else ReportedAs(run[|run| - 1].process, r.error)
    ensures r.Ok? ==>
      repository.fact == r.value.version && r.value.version.status == Ready && repository.job == Succeeded
    ensures r.Ok? ==> writers.Online(Elasticsearch) && writers.Staged(Elasticsearch, prep.chunks)
    ensures r.Ok? ==> writers.Online(Milvus) && writers.Staged(Milvus, prep.chunks)
    ensures r.Ok? ==>
      |r.value.receipts| == 2 && forall i :: 0 <= i < 2 ==>
        VerifyReceipt(r.value.receipts[i], WRITERS[i], prep.key, prep.chunks)
    ensures r.Raised? ==>
      JobAfter(r.error, old(repository.job), repository.job, repository.mayLoseAnswers) &&
      FailureStands(r.error, repository.fact)
    ensures r.Raised? && old(Current(repository, prep.version)) ==> IsRecorded(r.error)
    ensures r.Raised? && r.error.IndexLifecycleError? ==> forall b :: old(writers.Responds(b)) ==>
      DeactivateFailed(b) !in r.error.compensationFailures && (r.error.code.StageFailed? || IsOffline(b, writers))
    ensures
      prep.version.prepared && old(repository.healthy && repository.fact == prep.version && writers.Serviceable(prep.chunks))
      ==> r.Ok?
  {
    hide Writers.Staged, Writers.Online, Writers.Answering, EsW.Resumable, MvR.Resumable, CanStage;
    var staged;
    staged, run := StageBoth(prep, repository, writers);
    if staged.Raised? {
      return Raised(staged.error), run;
    }
    var activated;
    activated, run := ActivateBoth(staged.value.0, prep, repository, writers, run);
    if activated.Raised? {
      return Raised(activated.error), run;
    }
    AllDeactivable(writers, prep.chunks);
    var finalized;
    finalized, run := Finalize(staged.value.0, prep, repository, writers, run);
    if finalized.Raised? {
      return Raised(finalized.error), run;
    }
    r := Ok(Publication(finalized.value, staged.value.1));
  }

  /** A publisher on its own is still responsible for an active index, or has published it. */
  predicate Answerable(m: Moment<Publisher>, b: Backend) {
    (ActiveIn(m.world, b) == {} || m.process.phase.Published? || PublisherResponsible(m.process, b)) &&
    (m.process.failures == [] || m.process.phase.Compensating? || m.process.phase.CheckingCompensation? ||
     m.process.phase.RecordingFailure? || (m.process.phase.PublishFailed? && m.process.phase.code.Some?))
  }

  lemma StepKeepsAnswerable(chunks: set<string>, mayLose: bool, m: Moment<Publisher>, m': Moment<Publisher>, b: Backend)
    requires PublisherStep(chunks, mayLose, m.process, m.world, m'.process, m'.world) && Answerable(m, b)
    ensures Answerable(m', b)
  {
  }

  lemma {:induction false} RunKeepsAnswerable(chunks: set<string>, mayLose: bool, run: seq<Moment<Publisher>>,
                                              b: Backend)
    requires PublisherRun(chunks, mayLose, run) && Answerable(run[0], b)
    ensures Answerable(run[|run| - 1], b)
  {
    if |run| > 1 {
      var before := run[..|run| - 1];
      RunKeepsAnswerable(chunks, mayLose, before, b);
      StepKeepsAnswerable(chunks, mayLose, before[|before| - 1], run[|run| - 1], b);
    }
  }

  lemma {:induction false} RunCommitsReady(chunks: set<string>, mayLose: bool, run: seq<Moment<Publisher>>)
    requires PublisherRun(chunks, mayLose, run) && !mayLose && run[0].world.fact.status != Ready
    ensures run[|run| - 1].world.fact.status == Ready ==> run[|run| - 1].process.phase.Published?
  {
    if |run| > 1 {
      var before := run[..|run| - 1];
      RunCommitsReady(chunks, mayLose, before);
      OnlyFinalizingCommitsReady(chunks, before[|before| - 1].process, before[|before| - 1].world,
                                 run[|run| - 1].process, run[|run| - 1].world);
    }
  }

  /** What a raised error says about the state it leaves. */
  lemma RaisedRun(chunks: set<string>, mayLose: bool, run: seq<Moment<Publisher>>, error: PublishError)
    requires PublisherRun(chunks, mayLose, run) && ReportedAs(run[|run| - 1].process, error)
    requires run[0].process == NewPublisher(run[0].process.version)
    ensures run[0].world.elasticsearch == {} ==> Named(run[|run| - 1].world.elasticsearch, Elasticsearch, error)
    ensures run[0].world.milvus == {} ==> Named(run[|run| - 1].world.milvus, Milvus, error)
    ensures run[|run| - 1].world.fact.status == Ready ==> run[0].world.fact.status == Ready || mayLose
  {
    if run[0].world.elasticsearch == {} {
      RunKeepsAnswerable(chunks, mayLose, run, Elasticsearch);
    }
    if run[0].world.milvus == {} {
      RunKeepsAnswerable(chunks, mayLose, run, Milvus);
    }
    if !mayLose && run[0].world.fact.status != Ready {
      RunCommitsReady(chunks, mayLose, run);
    }
  }

  // ---------------------------------------------------------------- inactivation

  /** Drops cached query visibility; the call may fail. */
  class VisibilityInvalidator {
    var invalidated: bool
    const healthy: bool

    constructor (healthy: bool)
      ensures !invalidated && this.healthy == healthy
    {
      invalidated, this.healthy := false, healthy;
    }

    method InvalidateVersion() returns (ok: bool)
      modifies this
      ensures ok ==> invalidated
      ensures healthy ==> ok
    {
      ok := *;
      ok := ok || healthy;
      invalidated := invalidated || ok;
    }
  }

  /** The persistent cleanup queue of this version. */
  class CleanupScheduler {
    var queued: set<CleanupTarget>
    const healthy: bool

    constructor (healthy: bool)
      ensures queued == {} && this.healthy == healthy
    {
      queued, this.healthy := {}, healthy;
    }

    /** Enqueueing is idempotent and only accepted once the fact is INACTIVE. */
    method Enqueue(target: CleanupTarget, repository: Repository) returns (ok: bool)
      modifies this
      ensures old(queued) <= queued <= old(queued) + {target}
      ensures ok ==> target in queued && repository.fact.status == Inactive
      ensures healthy && repository.fact.status == Inactive ==> ok
    {
      ok := *;
      ok := (ok || healthy) && repository.fact.status == Inactive;
      if ok {
        queued := queued + {target};
      }
    }
  }

  datatype Inactivation = Inactivation(version: Fact, visibilityInvalidated: bool, deactivated: seq<Backend>,
                                       cleanupRequests: seq<CleanupTarget>, failures: seq<Failure>)

  datatype InactivateError = NotInactivated | CleanupPending(result: Inactivation)

  function ResultOf(r: Result<Inactivation, InactivateError>): Inactivation
    requires r.Ok? || r.error.CleanupPending?
  {
    if r.Ok? then r.value else r.error.result
  }

  /** Each index was either deactivated or is a named failure; likewise each cleanup request and the visibility call. */
  ghost predicate Accounted(result: Inactivation, queued: set<CleanupTarget>) {
    (result.visibilityInvalidated <==> InvalidateFailed !in result.failures) &&
    (forall b :: b in result.deactivated <==> DeactivateFailed(b) !in result.failures) &&
    (forall t :: t in result.cleanupRequests <==> EnqueueFailed(t) !in result.failures) &&
    (forall t :: t in result.cleanupRequests ==> t in queued)
  }

  method CommitInactive(version: Fact, repository: Repository, writers: Writers)
    returns (r: Option<Fact>, ghost run: seq<Moment<Inactivator>>)
    modifies repository`fact, repository`job
    ensures run != [] && InactivatorRun(repository.mayLoseAnswers, run) &&
      run[0] == Moment(NewInactivator(version), old(Now(repository, writers)))
    ensures run[|run| - 1].world == Now(repository, writers)
    ensures run[|run| - 1].process ==
      if r.Some? then Inactivator(Invalidating, r.value, []) else Inactivator(InactivateFailed, version, [])
    ensures r.Some? ==> r.value.status == Inactive
    ensures r.Some? && version.status != Inactive ==> repository.fact == r.value
    ensures r.None? && !repository.mayLoseAnswers ==> repository.fact == old(repository.fact)
    ensures old(repository.healthy && repository.fact == version && Allowed(version.status, Inactive)) ==> r.Some?
    ensures version.status == Inactive ==> r == Some(version) && repository.fact == old(repository.fact)
  {
    run := [Moment(NewInactivator(version), Now(repository, writers))];
    if version.status == Inactive {
      return Some(version), run;
    }
    var outcome, row := repository.Commit(version.revision, INACTIVE_PATCH, None);
    ghost var answered := Moment(
      if outcome.Committed? then Inactivator(Invalidating, row, []) else Inactivator(InactivateFailed, version, []),
      Now(repository, writers));
    assert Answers(run[0].world, answered.world, version.revision, INACTIVE_PATCH, outcome);
    InactivatorRunGrows(repository.mayLoseAnswers, run, answered);
    run := run + [answered];
    r := if outcome.Committed? then Some(row) else None;
  }

  function WithFailures(failures: seq<Failure>, b: Backend, done: bool, queued: bool): seq<Failure> {
    failures + (if done then [] else [DeactivateFailed(b)]) + if queued then [] else [EnqueueFailed(Index(b))]
  }

  /** The accounting after the first `n` indexes. */
  ghost predicate AccountedSoFar(n: nat, invalidated: bool, deactivated: seq<Backend>, requests: seq<CleanupTarget>,
                                 failures: seq<Failure>) {
    (invalidated <==> InvalidateFailed !in failures) &&
    (forall b :: b in deactivated <==> Position(b) < n && DeactivateFailed(b) !in failures) &&
    (forall b :: DeactivateFailed(b) in failures ==> Position(b) < n) &&
    (forall t :: t in requests <==> t.Index? && Position(t.backend) < n && EnqueueFailed(t) !in failures) &&
    (forall t :: EnqueueFailed(t) in failures ==> t.Index? && Position(t.backend) < n)
  }

  lemma MoreAccounted(n: nat, invalidated: bool, deactivated: seq<Backend>, requests: seq<CleanupTarget>,
                      failures: seq<Failure>,
                      done: bool, queued: bool)
    requires n < 2 && AccountedSoFar(n, invalidated, deactivated, requests, failures)
    ensures AccountedSoFar(n + 1, invalidated, if done then deactivated + [WRITERS[n]] else deactivated,
                           if queued then requests + [Index(WRITERS[n])] else requests,
                           WithFailures(failures, WRITERS[n], done, queued))
  {
    assert forall b :: Position(b) == n <==> b == WRITERS[n];
  }

  method DeactivateAndEnqueue(i: nat, ghost held: Fact, ghost failures: seq<Failure>, repository: Repository,
                              cleanup: CleanupScheduler,
                              writers: Writers, ghost run: seq<Moment<Inactivator>>)
    returns (done: bool, queued: bool, ghost longer: seq<Moment<Inactivator>>)
    requires i < 2 && writers.Bounded() && InactivatorRun(repository.mayLoseAnswers, run)
    requires run[|run| - 1] == Moment(Inactivator(Deactivating(i), held, failures), Now(repository, writers))
    modifies cleanup, writers.elasticsearch.store`index, writers.milvus.store`collection
    ensures writers.Bounded() && longer != [] && InactivatorRun(repository.mayLoseAnswers, longer) &&
      longer[0] == run[0]
    ensures longer[|longer| - 1] ==
      Moment(Inactivator(if i == 0 then Deactivating(1) else EnqueueingRuntime, held,
                         WithFailures(failures, WRITERS[i], done, queued)),
             Now(repository, writers))
    ensures done ==> writers.Active(WRITERS[i]) == {} && !writers.Online(WRITERS[i])
    ensures writers.Active(Other(WRITERS[i])) == old(writers.Active(Other(WRITERS[i])))
    ensures writers.Online(Other(WRITERS[i])) == old(writers.Online(Other(WRITERS[i])))
    ensures old(cleanup.queued) <= cleanup.queued && (queued ==> Index(WRITERS[i]) in cleanup.queued)
    ensures writers.Deactivable(Other(WRITERS[i])) == old(writers.Deactivable(Other(WRITERS[i])))
    ensures old(writers.Deactivable(WRITERS[i])) ==> done
    ensures cleanup.healthy && repository.fact.status == Inactive ==> queued
  {
    hide Writers.Online;
    ghost var mayLose := repository.mayLoseAnswers;
    var b := WRITERS[i];
    var deactivated := writers.DeactivateVersion(b);
    done := deactivated.Ok?;
    ghost var written := Moment(Inactivator(CheckingDeactivation(i), held, failures), Now(repository, writers));
    InactivatorRunGrows(mayLose, run, written);
    ghost var failed := WithFailures(failures, b, done, true);
    ghost var checked := Moment(Inactivator(Enqueueing(i), held, failed), Now(repository, writers));
    InactivatorRunGrows(mayLose, run + [written], checked);
    queued := cleanup.Enqueue(Index(b), repository);
    ghost var enqueued := Moment(
      Inactivator(if i == 0 then Deactivating(1) else EnqueueingRuntime, held, WithFailures(failures, b, done, queued)),
      Now(repository, writers));
    InactivatorRunGrows(mayLose, run + [written] + [checked], enqueued);
    longer := run + [written] + [checked] + [enqueued];
  }

  /** The cleanup queue holds every requested cleanup. */
  ghost predicate Queued(requests: seq<CleanupTarget>, cleanup: CleanupScheduler)
    reads cleanup
  {
    forall t :: t in requests ==> t in cleanup.queued
  }

  ghost predicate Offline(deactivated: seq<Backend>, writers: Writers)
    reads writers.elasticsearch.store, writers.milvus.store
  {
    forall b :: b in deactivated ==> writers.Active(b) == {} && !writers.Online(b)
  }

  method DeactivateAll(held: Fact, invalidated: bool, repository: Repository, cleanup: CleanupScheduler,
                       writers: Writers,
                       ghost before: seq<Moment<Inactivator>>)
    returns (deactivated: seq<Backend>, requests: seq<CleanupTarget>, failures: seq<Failure>, ghost run: seq<Moment<Inactivator>>)
    requires writers.Bounded() && before != [] && InactivatorRun(repository.mayLoseAnswers, before)
    requires before[|before| - 1] ==
      Moment(Inactivator(Deactivating(0), held, if invalidated then [] else [InvalidateFailed]), Now(repository, writers))
    modifies cleanup, writers.elasticsearch.store`index, writers.milvus.store`collection
    ensures writers.Bounded() && run != [] && InactivatorRun(repository.mayLoseAnswers, run) && run[0] == before[0]
    ensures run[|run| - 1] == Moment(Inactivator(EnqueueingRuntime, held, failures), Now(repository, writers))
    ensures AccountedSoFar(2, invalidated, deactivated, requests, failures)
    ensures Offline(deactivated, writers) && Queued(requests, cleanup)
    ensures RecordFailed !in failures && (invalidated ==> InvalidateFailed !in failures)
    ensures forall b :: old(writers.Deactivable(b)) ==> DeactivateFailed(b) !in failures
    ensures cleanup.healthy && repository.fact.status == Inactive ==> forall t :: EnqueueFailed(t) !in failures
  {
    hide Writers.Deactivable, Writers.Online, Writers.Active, AccountedSoFar, InactivatorRun, WithFailures, Now;
    deactivated, requests, failures, run := [], [], if invalidated then [] else [InvalidateFailed], before;
    NothingAccounted(invalidated);
    for i := 0 to 2
      invariant writers.Bounded() && run != [] && InactivatorRun(repository.mayLoseAnswers, run) && run[0] == before[0]
      invariant run[|run| - 1] ==
        Moment(Inactivator(if i < 2 then Deactivating(i) else EnqueueingRuntime, held, failures), Now(repository, writers))
      invariant AccountedSoFar(i, invalidated, deactivated, requests, failures)
      invariant forall b :: b in deactivated ==> Position(b) < i
      invariant Offline(deactivated, writers) && Queued(requests, cleanup)
      invariant RecordFailed !in failures && (invalidated ==> InvalidateFailed !in failures)
      invariant forall b :: old(writers.Deactivable(b)) ==>
        DeactivateFailed(b) !in failures && (i <= Position(b) ==> writers.Deactivable(b))
      invariant cleanup.healthy && repository.fact.status == Inactive ==> forall t :: EnqueueFailed(t) !in failures
    {
      var b := WRITERS[i];
      var done, queued;
      done, queued, run := DeactivateAndEnqueue(i, held, failures, repository, cleanup, writers, run);
      MoreAccounted(i, invalidated, deactivated, requests, failures, done, queued);
      FailuresGrow(failures, b, done, queued);
      failures := WithFailures(failures, b, done, queued);
      deactivated := if done then deactivated + [b] else deactivated;
      requests := if queued then requests + [Index(b)] else requests;
    }
  }

  lemma FailuresGrow(failures: seq<Failure>, b: Backend, done: bool, queued: bool)
    ensures forall x :: x in WithFailures(failures, b, done, queued) <==>
      x in failures || (!done && x == DeactivateFailed(b)) || (!queued && x == EnqueueFailed(Index(b)))
  {
  }

  lemma NothingAccounted(invalidated: bool)
    ensures AccountedSoFar(0, invalidated, [], [], if invalidated then [] else [InvalidateFailed])
  {
  }

  /** The last request, for the runtime snapshot, completes the accounting. */
  lemma AllAccounted(held: Fact, invalidated: bool, deactivated: seq<Backend>, requests: seq<CleanupTarget>,
                     failures: seq<Failure>, done: bool, queued: set<CleanupTarget>)
    requires AccountedSoFar(2, invalidated, deactivated, requests, failures)
    requires (forall t :: t in requests ==> t in queued) && (done ==> RuntimeSnapshot in queued)
    ensures Accounted(Inactivation(held, invalidated, deactivated, if done then requests + [RuntimeSnapshot] else requests,
                                   if done then failures else failures + [EnqueueFailed(RuntimeSnapshot)]), queued)
  {
    assert EnqueueFailed(RuntimeSnapshot) !in failures;
  }

  /** Everything that can fail is in the accounting, so whatever did not fail is done. */
  lemma NothingFailed(result: Inactivation, queued: set<CleanupTarget>)
    requires Accounted(result, queued)
    ensures InvalidateFailed !in result.failures ==> result.visibilityInvalidated
    ensures forall b :: DeactivateFailed(b) !in result.failures ==> b in result.deactivated
    ensures forall t :: EnqueueFailed(t) !in result.failures ==> t in result.cleanupRequests
  {
  }

  lemma NoFailureLeft(failures: seq<Failure>)
    requires RecordFailed !in failures && InvalidateFailed !in failures
    requires DeactivateFailed(Elasticsearch) !in failures && DeactivateFailed(Milvus) !in failures
    requires forall t :: EnqueueFailed(t) !in failures
    ensures failures == []
  {
    if failures != [] {
      FailureKinds(failures[0]);
    }
  }

  lemma FailureKinds(x: Failure)
    ensures x in {RecordFailed, InvalidateFailed, DeactivateFailed(Elasticsearch), DeactivateFailed(Milvus)} ||
      exists t :: x == EnqueueFailed(t)
  {
    match x
    case DeactivateFailed(b) => assert b == Elasticsearch || b == Milvus;
    case EnqueueFailed(t) => assert x == EnqueueFailed(t);
    case RecordFailed =>
    case InvalidateFailed =>
  }

  lemma NothingPending(result: Inactivation, queued: set<CleanupTarget>)
    requires Accounted(result, queued) && result.failures == []
    ensures result.visibilityInvalidated && Elasticsearch in result.deactivated && Milvus in result.deactivated
    ensures {Index(Elasticsearch), Index(Milvus), RuntimeSnapshot} <= queued
  {
    assert EnqueueFailed(RuntimeSnapshot) !in result.failures && EnqueueFailed(Index(Milvus)) !in result.failures &&
           EnqueueFailed(Index(Elasticsearch)) !in result.failures;
  }

  method InvalidateVisibility(held: Fact, repository: Repository, visibility: VisibilityInvalidator, writers: Writers,
                              ghost run: seq<Moment<Inactivator>>)
    returns (invalidated: bool, ghost longer: seq<Moment<Inactivator>>)
    requires InactivatorRun(repository.mayLoseAnswers, run)
    requires run[|run| - 1] == Moment(Inactivator(Invalidating, held, []), Now(repository, writers))
    modifies visibility
    ensures longer != [] && InactivatorRun(repository.mayLoseAnswers, longer) && longer[0] == run[0]
    ensures longer[|longer| - 1] ==
      Moment(Inactivator(Deactivating(0), held, if invalidated then [] else [InvalidateFailed]), Now(repository, writers))
    ensures invalidated ==> visibility.invalidated
    ensures visibility.healthy ==> invalidated
  {
    invalidated := visibility.InvalidateVersion();
    ghost var next := Moment(
      Inactivator(Deactivating(0), held, if invalidated then [] else [InvalidateFailed]), Now(repository, writers));
    InactivatorRunGrows(repository.mayLoseAnswers, run, next);
    longer := run + [next];
  }

  method EnqueueRuntime(held: Fact, failures: seq<Failure>, repository: Repository, cleanup: CleanupScheduler,
                        writers: Writers,
                        ghost run: seq<Moment<Inactivator>>)
    returns (queued: bool, all: seq<Failure>, ghost longer: seq<Moment<Inactivator>>)
    requires InactivatorRun(repository.mayLoseAnswers, run)
    requires run[|run| - 1] == Moment(Inactivator(EnqueueingRuntime, held, failures), Now(repository, writers))
    modifies cleanup
    ensures longer != [] && InactivatorRun(repository.mayLoseAnswers, longer) && longer[0] == run[0]
    ensures longer[|longer| - 1] == Moment(Inactivator(Inactivated, held, all), Now(repository, writers))
    ensures all == if queued then failures else failures + [EnqueueFailed(RuntimeSnapshot)]
    ensures old(cleanup.queued) <= cleanup.queued && (queued ==> RuntimeSnapshot in cleanup.queued)
    ensures cleanup.healthy && repository.fact.status == Inactive ==> queued
  {
    queued := cleanup.Enqueue(RuntimeSnapshot, repository);
    all := if queued then failures else failures + [EnqueueFailed(RuntimeSnapshot)];
    ghost var next := Moment(Inactivator(Inactivated, held, all), Now(repository, writers));
    InactivatorRunGrows(repository.mayLoseAnswers, run, next);
    longer := run + [next];
  }

  /** The version is INACTIVE already, or current and allowed to become so in a repository that answers. */
  ghost predicate CanInactivate(version: Fact, repository: Repository)
    reads repository
  {
    if version.status == Inactive then repository.fact.status == Inactive
    else repository.healthy && repository.fact == version && Allowed(version.status, Inactive)
  }

  method InactivateAndScheduleCleanup(version: Fact, repository: Repository, visibility: VisibilityInvalidator,
                                      cleanup: CleanupScheduler, writers: Writers)
    returns (r: Result<Inactivation, InactivateError>, ghost run: seq<Moment<Inactivator>>)
    requires writers.Bounded()
    modifies repository`fact, repository`job, visibility, cleanup, writers.elasticsearch.store`index, writers.milvus.store`collection
    // The call is one complete run of a protocol inactivator.
    ensures run != [] && InactivatorRun(repository.mayLoseAnswers, run) &&
      run[0] == Moment(NewInactivator(version), old(Now(repository, writers)))
    ensures run[|run| - 1].world == Now(repository, writers)
    ensures r != Raised(NotInactivated) ==>
      run[|run| - 1].process == Inactivator(Inactivated, ResultOf(r).version, ResultOf(r).failures)
    // INACTIVE is committed first; if that is refused nothing else happens.
    ensures r == Raised(NotInactivated) ==>
      run[|run| - 1].process.phase == InactivateFailed && cleanup.queued == old(cleanup.queued) &&
      writers.Active(Elasticsearch) == old(writers.Active(Elasticsearch)) &&
      writers.Active(Milvus) == old(writers.Active(Milvus))
    ensures r != Raised(NotInactivated) && version.status != Inactive ==>
      repository.fact == ResultOf(r).version && repository.fact.status == Inactive
    // Everything that was to be done is either done or named, and the call raises exactly when something is named.
    ensures r.Ok? <==> r != Raised(NotInactivated) && ResultOf(r).failures == []
    ensures r != Raised(NotInactivated) ==> Accounted(ResultOf(r), cleanup.queued)
    ensures r != Raised(NotInactivated) ==> forall b :: b in ResultOf(r).deactivated ==>
      writers.Active(b) == {} && !writers.Online(b)
    // A normal return takes both indexes offline and queues all three cleanups.
    ensures r.Ok? ==> !writers.Online(Elasticsearch) && !writers.Online(Milvus) && visibility.invalidated
    ensures r.Ok? ==> {Index(Elasticsearch), Index(Milvus), RuntimeSnapshot} <= cleanup.queued
    // Whatever can be done is done, each thing on its own; so when everything answers, the call returns normally.
    ensures old(CanInactivate(version, repository)) ==> r != Raised(NotInactivated)
    ensures r != Raised(NotInactivated) ==>
      (visibility.healthy ==> ResultOf(r).visibilityInvalidated) &&
      (forall b :: old(writers.Deactivable(b)) ==> b in ResultOf(r).deactivated) &&
      (cleanup.healthy && repository.fact.status == Inactive ==> forall t :: t in ResultOf(r).cleanupRequests)
    ensures
      visibility.healthy && cleanup.healthy &&
      old(CanInactivate(version, repository) && writers.Deactivable(Elasticsearch) && writers.Deactivable(Milvus))
      ==> r.Ok?
  {
    hide Writers.Deactivable, Writers.Online, Writers.Active, Accounted, AccountedSoFar, InactivatorRun, InactivatorStep;
    var committed;
    committed, run := CommitInactive(version, repository, writers);
    if committed.None? {
      return Raised(NotInactivated), run;
    }
    var held := committed.value;
    var invalidated, deactivated, requests, failures, queued;
    invalidated, run := InvalidateVisibility(held, repository, visibility, writers, run);
    deactivated, requests, failures, run := DeactivateAll(held, invalidated, repository, cleanup, writers, run);
    ghost var before := failures;
    queued, failures, run := EnqueueRuntime(held, failures, repository, cleanup, writers, run);
    AllAccounted(held, invalidated, deactivated, requests, before, queued, cleanup.queued);
    requests := if queued then requests + [RuntimeSnapshot] else requests;
    var result := Inactivation(held, invalidated, deactivated, requests, failures);
    NothingFailed(result, cleanup.queued);
    if visibility.healthy && cleanup.healthy &&
       old(CanInactivate(version, repository) && writers.Deactivable(Elasticsearch) && writers.Deactivable(Milvus)) {
      NoFailureLeft(failures);
    }
    if failures == [] {
      NothingPending(result, cleanup.queued);
    }
    r := if failures == [] then Ok(result) else Raised(CleanupPending(result));
  }
}
