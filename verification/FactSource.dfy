/** The PostgreSQL fact of one document version: its lifecycle graph and its compare-and-swap repository. */
module FactSource {
  import opened Basics
  import opened Chunks

  datatype Status = Registered | Processing | Review | Ready | Failed | Inactive

  datatype IndexState = Pending | Built | Broken

  datatype Code = StageFailed(backend: Backend) | ActivationFailed(backend: Backend) | FinalizationFailed

  datatype JobStatus = Queued | Running | Succeeded | JobFailed

  /** `prepared` records that every parse and chunk timestamp is set. */
  datatype Fact = Fact(revision: nat, status: Status, elasticsearch: IndexState, milvus: IndexState,
                       failureCode: Option<Code>, prepared: bool)

  predicate Allowed(before: Status, after: Status) {
    match before
    case Registered => after in {Processing, Inactive}
    case Processing => after in {Review, Ready, Failed, Inactive}
    case Review => after in {Processing, Failed, Inactive}
    case Ready => after == Inactive
    case Failed => after in {Processing, Inactive}
    case Inactive => false
  }

  datatype States = States(elasticsearch: IndexState, milvus: IndexState)

  /** What a caller sends: the target status and the fields to replace. */
  datatype Patch = Patch(target: Status, states: Option<States>, failureCode: Option<Option<Code>>)

  function WithState(fact: Fact, backend: Backend, state: IndexState): States {
    match backend
    case Elasticsearch => States(state, fact.milvus)
    case Milvus => States(fact.elasticsearch, state)
  }

  /** The patch laid over the current row, one revision later. */
  function Applied(current: Fact, patch: Patch): Fact {
    current.(
      revision := current.revision + 1,
      status := patch.target,
      elasticsearch := if patch.states.Some? then patch.states.value.elasticsearch else current.elasticsearch,
      milvus := if patch.states.Some? then patch.states.value.milvus else current.milvus,
      failureCode := if patch.failureCode.Some? then patch.failureCode.value else current.failureCode)
  }

  /** The fact model refuses a READY version without its timestamps and both indexes, or with a failure code, and a
      FAILED version without one. */
  predicate FailsClosed(fact: Fact) {
    (fact.status == Ready ==>
      fact.prepared && fact.elasticsearch == Built && fact.milvus == Built && fact.failureCode == None) &&
    (fact.status == Failed ==> fact.failureCode.Some?)
  }

  /** Whether a patch made against revision `expected` may be committed over the current fact. */
  predicate CanCommit(current: Fact, expected: nat, patch: Patch) {
    current.revision == expected &&
    (Allowed(current.status, patch.target) || (current.status == Processing && patch.target == Processing)) &&
    FailsClosed(Applied(current, patch))
  }

  /** What is committed: from the expected revision, along an allowed transition or within PROCESSING, and never READY while
      anything is missing or failed, nor FAILED without a reason. */
  lemma CommitsExactly(current: Fact, expected: nat, patch: Patch)
    ensures var after := Applied(current, patch);
      CanCommit(current, expected, patch) <==>
        current.revision == expected &&
        (Allowed(current.status, patch.target) || current.status == patch.target == Processing) &&
        match patch.target
        case Ready => after.prepared && after.elasticsearch == after.milvus == Built && after.failureCode == None
        case Failed => after.failureCode != None
        case _ => true
  {
  }

  // The four patches that publication and inactivation send, built from the version they hold.

  function StagedPatch(held: Fact, backend: Backend): Patch {
    Patch(Processing, Some(WithState(held, backend, Built)), Some(None))
  }

  function FailurePatch(held: Fact, backend: Backend, code: Code): Patch {
    Patch(Processing, Some(WithState(held, backend, Broken)), Some(Some(code)))
  }

  const READY_PATCH := Patch(Ready, Some(States(Built, Built)), Some(None))

  const INACTIVE_PATCH := Patch(Inactive, None, None)

  /** A repository call commits and answers, is refused without effect, or commits and loses its answer. */
  datatype Outcome = Committed | Refused | AnswerLost

  class Repository {
    var fact: Fact
    var job: JobStatus
    var mayLoseAnswers: bool
    var healthy: bool

    constructor (fact: Fact, job: JobStatus, mayLoseAnswers: bool, healthy: bool)
      ensures this.fact == fact && this.job == job && this.mayLoseAnswers == mayLoseAnswers && this.healthy == healthy
    {
      this.fact, this.job, this.mayLoseAnswers, this.healthy := fact, job, mayLoseAnswers, healthy;
    }

    /** Compare-and-swap of the version and, in the same transaction, of its job. */
    method Commit(expected: nat, patch: Patch, jobStatus: Option<JobStatus>)
      returns (outcome: Outcome, row: Fact)
      modifies this`fact, this`job
      ensures outcome.Refused? ==> fact == old(fact) && job == old(job)
      ensures !outcome.Refused? ==> CanCommit(old(fact), expected, patch) && fact == Applied(old(fact), patch)
      ensures !outcome.Refused? ==> job == if jobStatus.Some? then jobStatus.value else old(job)
      ensures outcome.AnswerLost? ==> mayLoseAnswers
      ensures outcome.Committed? ==> row == fact
      ensures healthy && CanCommit(old(fact), expected, patch) ==> outcome.Committed?
    {
      var unreachable: bool, unanswered: bool := *, *;
      if !CanCommit(fact, expected, patch) || (!healthy && unreachable) {
        return Refused, fact;
      }
      fact := Applied(fact, patch);
      job := if jobStatus.Some? then jobStatus.value else job;
      outcome, row := if !healthy && mayLoseAnswers && unanswered then AnswerLost else Committed, fact;
    }
  }
}
