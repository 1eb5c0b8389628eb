/** The lifecycle of one version as concurrent processes. */
module LifecycleProtocol {
  import opened Basics
  import opened Chunks
  import opened FactSource

  // Publication and inactivation of one version over the shared fact and both indexes. Every remote call is split where
  // another process can intervene, and may fail before, after or part-way through its effect. Writing an index takes
  // any number of steps.

  // ---------------------------------------------------------------- the shared world

  /** The fact, and the identifiers of the active rows in each index. */
  datatype World = World(fact: Fact, elasticsearch: set<string>, milvus: set<string>)

  function ActiveIn(w: World, b: Backend): set<string> {
    if b.Elasticsearch? then w.elasticsearch else w.milvus
  }

  /** Only the active rows of one index differ. */
  predicate OnlyIndex(w: World, w': World, b: Backend) {
    w'.fact == w.fact && forall c: Backend :: c != b ==> ActiveIn(w', c) == ActiveIn(w, c)
  }

  predicate Shrinks(w: World, w': World, b: Backend) {
    OnlyIndex(w, w', b) && ActiveIn(w', b) <= ActiveIn(w, b)
  }

  predicate Grows(w: World, w': World, b: Backend) {
    OnlyIndex(w, w', b) && ActiveIn(w, b) <= ActiveIn(w', b)
  }

  /** How the repository answers a patch: the new fact is visible exactly when the call was not refused. */
  predicate Answers(w: World, w': World, expected: nat, patch: Patch, outcome: Outcome) {
    w'.elasticsearch == w.elasticsearch && w'.milvus == w.milvus &&
    if outcome.Refused? then w'.fact == w.fact
    else CanCommit(w.fact, expected, patch) && w'.fact == Applied(w.fact, patch)
  }

  // ---------------------------------------------------------------- the two kinds of process

  const WRITERS: seq<Backend> := [Elasticsearch, Milvus]

  datatype Failure = DeactivateFailed(backend: Backend) | RecordFailed | InvalidateFailed | EnqueueFailed(target: CleanupTarget)

  datatype PublisherPhase =
    | Staging(i: nat)
    | RecordingStaged(i: nat)
    | RecordingStageFailure(i: nat)
    | Activating(i: nat)
    | CheckingActivation(i: nat)
    | Finalizing
    | Compensating(i: nat, cause: Code)
    | CheckingCompensation(i: nat, cause: Code)
    | RecordingFailure(cause: Code)
    | Published
    | PublishFailed(code: Option<Code>)

  /** `version` is the snapshot the process holds; `failures` is what it will report. */
  datatype Publisher = Publisher(phase: PublisherPhase, version: Fact, failures: seq<Failure>)

  datatype InactivatorPhase =
    | Committing
    | Invalidating
    | Deactivating(i: nat)
    | CheckingDeactivation(i: nat)
    | Enqueueing(i: nat)
    | EnqueueingRuntime
    | Inactivated
    | InactivateFailed

  datatype Inactivator = Inactivator(phase: InactivatorPhase, version: Fact, failures: seq<Failure>)

  predicate WellPhased(p: Publisher) {
    match p.phase
    case Staging(i) => i < 2
    case RecordingStaged(i) => i < 2
    case RecordingStageFailure(i) => i < 2
    case Activating(i) => i < 2
    case CheckingActivation(i) => i < 2
    case Compensating(i, _) => i < 2
    case CheckingCompensation(i, _) => i < 2
    case _ => true
  }

  /** The backend a finalization failure is recorded against is always Elasticsearch. */
  function BlamedBackend(cause: Code): Backend {
    match cause
    case StageFailed(b) => b
    case ActivationFailed(b) => b
    case FinalizationFailed => Elasticsearch
  }

  function AfterCompensation(i: nat, cause: Code): PublisherPhase {
    if i == 0 then Compensating(1, cause) else RecordingFailure(cause)
  }

  /** One step of a publisher. `chunks` are the identifiers the version consists of. */
  ghost predicate PublisherStep(chunks: set<string>, mayLose: bool, p: Publisher, w: World, p': Publisher, w': World) {
    WellPhased(p) &&
    match p.phase
    case Staging(i) =>
      Shrinks(w, w', WRITERS[i]) && (p' == p || p' == p.(phase := RecordingStaged(i)) || p' == p.(phase := RecordingStageFailure(i)))
    case RecordingStaged(i) =>
      exists outcome ::
        Answers(w, w', p.version.revision, StagedPatch(p.version, WRITERS[i]), outcome) &&
        (outcome.AnswerLost? ==> mayLose) &&
        p' == if outcome.Committed? then p.(version := w'.fact, phase := if i == 0 then Staging(1) else Activating(0))
              else p.(phase := PublishFailed(None))
    case RecordingStageFailure(i) =>
      exists outcome ::
        Answers(w, w', p.version.revision, FailurePatch(p.version, WRITERS[i], StageFailed(WRITERS[i])), outcome) &&
        (outcome.AnswerLost? ==> mayLose) &&
        p' == p.(phase := PublishFailed(Some(StageFailed(WRITERS[i]))),
                 failures := if outcome.Committed? then p.failures else p.failures + [RecordFailed])
    case Activating(i) =>
      Grows(w, w', WRITERS[i]) && (p' == p || p' == p.(phase := CheckingActivation(i)))
    case CheckingActivation(i) =>
      w' == w &&
      ((chunks <= ActiveIn(w, WRITERS[i]) && p' == p.(phase := if i == 0 then Activating(1) else Finalizing)) ||
       p' == p.(phase := Compensating(0, ActivationFailed(WRITERS[i]))))
    case Finalizing =>
      exists outcome ::
        Answers(w, w', p.version.revision, READY_PATCH, outcome) && (outcome.AnswerLost? ==> mayLose) &&
        p' == if outcome.Committed? then p.(version := w'.fact, phase := Published)
              else p.(phase := Compensating(0, FinalizationFailed))
    case Compensating(i, cause) =>
      Shrinks(w, w', WRITERS[i]) && (p' == p || p' == p.(phase := CheckingCompensation(i, cause)))
    case CheckingCompensation(i, cause) =>
      w' == w &&
      ((ActiveIn(w, WRITERS[i]) == {} && p' == p.(phase := AfterCompensation(i, cause))) ||
       p' == p.(phase := AfterCompensation(i, cause), failures := p.failures + [DeactivateFailed(WRITERS[i])]))
    case RecordingFailure(cause) =>
      exists outcome ::
        Answers(w, w', p.version.revision, FailurePatch(p.version, BlamedBackend(cause), cause), outcome) &&
        (outcome.AnswerLost? ==> mayLose) &&
        p' == p.(phase := PublishFailed(Some(cause)),
                 failures := if outcome.Committed? then p.failures else p.failures + [RecordFailed])
    case Published => false
    case PublishFailed(_) => false
  }

  function NewPublisher(fact: Fact): Publisher {
    Publisher(Staging(0), fact, [])
  }

  function NewInactivator(fact: Fact): Inactivator {
    Inactivator(if fact.status == Inactive then Invalidating else Committing, fact, [])
  }

  predicate WellPhasedInactivator(q: Inactivator) {
    match q.phase
    case Deactivating(i) => i < 2
    case CheckingDeactivation(i) => i < 2
    case Enqueueing(i) => i < 2
    case _ => true
  }

  ghost predicate InactivatorStep(mayLose: bool, q: Inactivator, w: World, q': Inactivator, w': World) {
    WellPhasedInactivator(q) &&
    match q.phase
    case Committing =>
      exists outcome ::
        Answers(w, w', q.version.revision, INACTIVE_PATCH, outcome) && (outcome.AnswerLost? ==> mayLose) &&
        q' == if outcome.Committed? then q.(version := w'.fact, phase := Invalidating) else q.(phase := InactivateFailed)
    case Invalidating =>
      w' == w && (q' == q.(phase := Deactivating(0)) ||
        q' == q.(phase := Deactivating(0), failures := q.failures + [InvalidateFailed]))
    case Deactivating(i) =>
      Shrinks(w, w', WRITERS[i]) && (q' == q || q' == q.(phase := CheckingDeactivation(i)))
    case CheckingDeactivation(i) =>
      w' == w &&
      ((ActiveIn(w, WRITERS[i]) == {} && q' == q.(phase := Enqueueing(i))) ||
       q' == q.(phase := Enqueueing(i), failures := q.failures + [DeactivateFailed(WRITERS[i])]))
    case Enqueueing(i) =>
      w' == w &&
      var next := if i == 0 then Deactivating(1) else EnqueueingRuntime;
      (q' == q.(phase := next) || q' == q.(phase := next, failures := q.failures + [EnqueueFailed(Index(WRITERS[i]))]))
    case EnqueueingRuntime =>
      w' == w && (q' == q.(phase := Inactivated) ||
        q' == q.(phase := Inactivated, failures := q.failures + [EnqueueFailed(RuntimeSnapshot)]))
    case Inactivated => false
    case InactivateFailed => false
  }

  // ---------------------------------------------------------------- the system

  /** Any number of publishers and inactivators, each arriving with the fact it read at that moment. */
  datatype System = System(world: World, publishers: map<nat, Publisher>, inactivators: map<nat, Inactivator>)

  /** Which answers of the repository may get lost after the commit. */
  datatype Losses = Losses(publishers: bool, inactivators: bool)

  predicate PublisherArrives(s: System, s': System, id: nat) {
    id !in s.publishers && s.world.fact.status == Processing &&
    s' == s.(publishers := s.publishers[id := NewPublisher(s.world.fact)])
  }

  predicate InactivatorArrives(s: System, s': System, id: nat) {
    id !in s.inactivators && s' == s.(inactivators := s.inactivators[id := NewInactivator(s.world.fact)])
  }

  ghost predicate Arrival(s: System, s': System) {
    exists id: nat :: PublisherArrives(s, s', id) || InactivatorArrives(s, s', id)
  }

  ghost predicate PublisherMoves(chunks: set<string>, losses: Losses, s: System, s': System) {
    exists id: nat :: id in s.publishers && id in s'.publishers &&
      PublisherStep(chunks, losses.publishers, s.publishers[id], s.world, s'.publishers[id], s'.world) &&
      s' == s.(world := s'.world, publishers := s.publishers[id := s'.publishers[id]])
  }

  ghost predicate InactivatorMoves(losses: Losses, s: System, s': System) {
    exists id: nat :: id in s.inactivators && id in s'.inactivators &&
      InactivatorStep(losses.inactivators, s.inactivators[id], s.world, s'.inactivators[id], s'.world) &&
      s' == s.(world := s'.world, inactivators := s.inactivators[id := s'.inactivators[id]])
  }

  /** Other writers of the fact (parsing, review, retry) never commit READY or INACTIVE; cleanup deletes rows of an
      INACTIVE version. */
  ghost predicate EnvironmentMoves(s: System, s': System) {
    s' == s.(world := s'.world) &&
    ((exists patch: Patch :: patch.target !in {Ready, Inactive} && CanCommit(s.world.fact, s.world.fact.revision, patch) &&
        s'.world == s.world.(fact := Applied(s.world.fact, patch))) ||
     (s.world.fact.status == Inactive && exists b: Backend :: Shrinks(s.world, s'.world, b)))
  }

  ghost predicate Next(chunks: set<string>, losses: Losses, s: System, s': System) {
    Arrival(s, s') || PublisherMoves(chunks, losses, s, s') || InactivatorMoves(losses, s, s') ||
    EnvironmentMoves(s, s')
  }

  /** The version starts unpublished, with nothing active and nobody at work. */
  predicate Init(s: System) {
    s.world.fact.status !in {Ready, Inactive} && s.world.elasticsearch == {} && s.world.milvus == {} &&
    s.publishers == map[] && s.inactivators == map[]
  }

  ghost predicate Run(chunks: set<string>, losses: Losses, run: seq<System>) {
    run != [] && Init(run[0]) && forall i :: 0 <= i < |run| - 1 ==> Next(chunks, losses, run[i], run[i + 1])
  }

  predicate PublisherEnded(p: Publisher) {
    p.phase.Published? || p.phase.PublishFailed?
  }

  predicate InactivatorEnded(q: Inactivator) {
    q.phase.Inactivated? || q.phase.InactivateFailed?
  }

  ghost predicate Quiescent(s: System) {
    (forall id :: id in s.publishers ==> PublisherEnded(s.publishers[id])) &&
    (forall id :: id in s.inactivators ==> InactivatorEnded(s.inactivators[id]))
  }

  /** Some finished call reported that it could not deactivate this index. */
  ghost predicate Reported(s: System, b: Backend) {
    (exists id :: id in s.publishers && DeactivateFailed(b) in s.publishers[id].failures) ||
    (exists id :: id in s.inactivators && DeactivateFailed(b) in s.inactivators[id].failures)
  }

  // ---------------------------------------------------------------- an active index is always somebody's business

  function Position(b: Backend): nat {
    if b.Elasticsearch? then 0 else 1
  }

  /** The publisher will still finalize or deactivate the index, or has reported it. */
  predicate PublisherResponsible(p: Publisher, b: Backend) {
    DeactivateFailed(b) in p.failures ||
    match p.phase
    case Activating(_) => true
    case CheckingActivation(_) => true
    case Finalizing => true
    case Compensating(i, _) => i <= Position(b)
    case CheckingCompensation(i, _) => i <= Position(b)
    case _ => false
  }

  predicate InactivatorResponsible(q: Inactivator, b: Backend) {
    DeactivateFailed(b) in q.failures ||
    match q.phase
    case Invalidating => true
    case Deactivating(i) => i <= Position(b)
    case CheckingDeactivation(i) => i <= Position(b)
    case Enqueueing(i) => i < Position(b)
    case _ => false
  }

  ghost predicate Covered(s: System, b: Backend) {
    ActiveIn(s.world, b) == {} || s.world.fact.status == Ready ||
    (exists id :: id in s.publishers && PublisherResponsible(s.publishers[id], b)) ||
    (exists id :: id in s.inactivators && InactivatorResponsible(s.inactivators[id], b))
  }

  predicate AtCommit(q: Inactivator) {
    q.phase in {Committing, InactivateFailed}
  }

  /** Only at its commit can an inactivator be while the version is not INACTIVE. */
  ghost predicate PhasedByStatus(s: System) {
    forall id :: id in s.inactivators ==> AtCommit(s.inactivators[id]) || s.world.fact.status == Inactive
  }

  ghost predicate SomeFailed(s: System) {
    exists id :: id in s.inactivators && s.inactivators[id].phase.InactivateFailed?
  }

  /** The version became INACTIVE by a commit whose answer was lost, and nobody has noticed since: no inactivator got
      any further. */
  ghost predicate Abandoned(losses: Losses, s: System) {
    losses.inactivators && s.world.fact.status == Inactive && SomeFailed(s) &&
    forall id :: id in s.inactivators ==> AtCommit(s.inactivators[id])
  }

  ghost predicate AllCovered(losses: Losses, s: System) {
    PhasedByStatus(s) && (Abandoned(losses, s) || (Covered(s, Elasticsearch) && Covered(s, Milvus)))
  }

  lemma PublisherKeepsCover(chunks: set<string>, losses: Losses, s: System, s': System, b: Backend)
    requires PublisherMoves(chunks, losses, s, s') && Covered(s, b)
    ensures Covered(s', b)
  {
    var id :| id in s.publishers && id in s'.publishers &&
      PublisherStep(chunks, losses.publishers, s.publishers[id], s.world, s'.publishers[id], s'.world) &&
      s' == s.(world := s'.world, publishers := s.publishers[id := s'.publishers[id]]);
    var p, p' := s.publishers[id], s'.publishers[id];
    if PublisherResponsible(p', b) {
    } else if exists other :: other in s.publishers && other != id && PublisherResponsible(s.publishers[other], b) {
      var other :| other in s.publishers && other != id && PublisherResponsible(s.publishers[other], b);
      assert PublisherResponsible(s'.publishers[other], b);
    } else if exists other :: other in s.inactivators && InactivatorResponsible(s.inactivators[other], b) {
    } else {
      PublisherStepKeepsCover(chunks, losses.publishers, p, s.world, p', s'.world, b);
    }
  }

  /** A publisher that stops being responsible has just committed READY or seen the index inactive. */
  lemma PublisherStepKeepsCover(chunks: set<string>, mayLose: bool, p: Publisher, w: World, p': Publisher, w': World,
                                b: Backend)
    requires PublisherStep(chunks, mayLose, p, w, p', w') && !PublisherResponsible(p', b)
    requires ActiveIn(w, b) == {} || w.fact.status == Ready || PublisherResponsible(p, b)
    ensures ActiveIn(w', b) == {} || w'.fact.status == Ready
  {
  }

  lemma InactivatorKeepsCover(losses: Losses, s: System, s': System, b: Backend)
    requires InactivatorMoves(losses, s, s') && PhasedByStatus(s) && Covered(s, b)
    ensures Covered(s', b) || Abandoned(losses, s')
  {
    var id :| id in s.inactivators && id in s'.inactivators &&
      InactivatorStep(losses.inactivators, s.inactivators[id], s.world, s'.inactivators[id], s'.world) &&
      s' == s.(world := s'.world, inactivators := s.inactivators[id := s'.inactivators[id]]);
    var q, q' := s.inactivators[id], s'.inactivators[id];
    if InactivatorResponsible(q', b) {
    } else if exists other :: other in s.inactivators && other != id && InactivatorResponsible(s.inactivators[other], b) {
      var other :| other in s.inactivators && other != id && InactivatorResponsible(s.inactivators[other], b);
      assert InactivatorResponsible(s'.inactivators[other], b);
    } else if exists other :: other in s.publishers && PublisherResponsible(s.publishers[other], b) {
    } else {
      InactivatorStepKeepsCover(losses.inactivators, q, s.world, q', s'.world, b);
      if q.phase == Committing && s'.world.fact.status == Inactive && s.world.fact.status == Ready {
        assert s'.inactivators[id].phase.InactivateFailed?;
        forall other | other in s'.inactivators ensures AtCommit(s'.inactivators[other]) {
          assert other != id ==> s'.inactivators[other] == s.inactivators[other];
        }
      }
    }
  }

  /** An inactivator that stops being responsible has just seen the index inactive; one that takes READY away without
      becoming responsible has lost the answer to its commit. */
  lemma InactivatorStepKeepsCover(mayLose: bool, q: Inactivator, w: World, q': Inactivator, w': World, b: Backend)
    requires InactivatorStep(mayLose, q, w, q', w') && !InactivatorResponsible(q', b)
    requires ActiveIn(w, b) == {} || w.fact.status == Ready || InactivatorResponsible(q, b)
    ensures ActiveIn(w', b) == {} || w'.fact.status == Ready ||
      (mayLose && q.phase == Committing && q'.phase == InactivateFailed && w.fact.status == Ready && w'.fact.status == Inactive)
  {
  }

  lemma ArrivalKeepsCover(s: System, s': System, b: Backend)
    requires Arrival(s, s') && Covered(s, b)
    ensures Covered(s', b)
  {
    forall id | id in s.publishers ensures id in s'.publishers && s'.publishers[id] == s.publishers[id] {
    }
    forall id | id in s.inactivators ensures id in s'.inactivators && s'.inactivators[id] == s.inactivators[id] {
    }
  }

  lemma StepKeepsCover(chunks: set<string>, losses: Losses, s: System, s': System, b: Backend)
    requires Next(chunks, losses, s, s') && PhasedByStatus(s) && Covered(s, b)
    ensures Covered(s', b) || Abandoned(losses, s')
  {
    if Arrival(s, s') {
      ArrivalKeepsCover(s, s', b);
    } else if PublisherMoves(chunks, losses, s, s') {
      PublisherKeepsCover(chunks, losses, s, s', b);
    } else if InactivatorMoves(losses, s, s') {
      InactivatorKeepsCover(losses, s, s', b);
    }
  }

  /** INACTIVE admits no transition, and only an inactivator's commit leads to it. */
  lemma PublisherKeepsInactive(chunks: set<string>, mayLose: bool, p: Publisher, w: World, p': Publisher, w': World)
    requires PublisherStep(chunks, mayLose, p, w, p', w')
    ensures w'.fact.status == Inactive <==> w.fact.status == Inactive
    ensures w.fact.status == Inactive ==> w'.fact == w.fact && !p'.phase.Published?
  {
  }

  lemma InactivatorKeepsInactive(mayLose: bool, q: Inactivator, w: World, q': Inactivator, w': World)
    requires InactivatorStep(mayLose, q, w, q', w')
    ensures w.fact.status == Inactive ==> w'.fact == w.fact && (AtCommit(q) ==> q'.phase.InactivateFailed?)
    ensures AtCommit(q) || w.fact.status == Inactive ==> AtCommit(q') || w'.fact.status == Inactive
    ensures !q.phase.InactivateFailed?
  {
  }

  lemma NextKeepsPhased(chunks: set<string>, losses: Losses, s: System, s': System)
    requires Next(chunks, losses, s, s') && PhasedByStatus(s)
    ensures PhasedByStatus(s')
  {
    hide PublisherStep, InactivatorStep;
    if PublisherMoves(chunks, losses, s, s') {
      var id :| id in s.publishers && id in s'.publishers &&
        PublisherStep(chunks, losses.publishers, s.publishers[id], s.world, s'.publishers[id], s'.world) &&
        s' == s.(world := s'.world, publishers := s.publishers[id := s'.publishers[id]]);
      PublisherKeepsInactive(chunks, losses.publishers, s.publishers[id], s.world, s'.publishers[id], s'.world);
    } else if InactivatorMoves(losses, s, s') {
      var id :| id in s.inactivators && id in s'.inactivators &&
        InactivatorStep(losses.inactivators, s.inactivators[id], s.world, s'.inactivators[id], s'.world) &&
        s' == s.(world := s'.world, inactivators := s.inactivators[id := s'.inactivators[id]]);
      InactivatorKeepsInactive(losses.inactivators, s.inactivators[id], s.world, s'.inactivators[id], s'.world);
      forall other | other in s'.inactivators
        ensures AtCommit(s'.inactivators[other]) || s'.world.fact.status == Inactive
      {
        assert other != id ==> s'.inactivators[other] == s.inactivators[other];
      }
    }
  }

  lemma FailureKeepsAbandoned(losses: Losses, s: System, s': System)
    requires InactivatorMoves(losses, s, s') && Abandoned(losses, s)
    ensures Abandoned(losses, s')
  {
    hide InactivatorStep;
    var id :| id in s.inactivators && id in s'.inactivators &&
      InactivatorStep(losses.inactivators, s.inactivators[id], s.world, s'.inactivators[id], s'.world) &&
      s' == s.(world := s'.world, inactivators := s.inactivators[id := s'.inactivators[id]]);
    InactivatorKeepsInactive(losses.inactivators, s.inactivators[id], s.world, s'.inactivators[id], s'.world);
    forall other | other in s'.inactivators ensures AtCommit(s'.inactivators[other]) {
      assert other != id ==> s'.inactivators[other] == s.inactivators[other];
    }
    assert s'.inactivators[id].phase.InactivateFailed?;
  }

  /** An abandoned version stays so until the next inactivator arrives: that one finds it INACTIVE and takes on both
      indexes. */
  lemma NextKeepsAbandoned(chunks: set<string>, losses: Losses, s: System, s': System)
    requires Next(chunks, losses, s, s') && Abandoned(losses, s)
    ensures Abandoned(losses, s') || (Covered(s', Elasticsearch) && Covered(s', Milvus))
  {
    hide PublisherStep, InactivatorStep, InactivatorMoves;
    if InactivatorMoves(losses, s, s') {
      FailureKeepsAbandoned(losses, s, s');
    } else if id :| InactivatorArrives(s, s', id) {
      assert InactivatorResponsible(s'.inactivators[id], Elasticsearch) &&
        InactivatorResponsible(s'.inactivators[id], Milvus);
    } else if PublisherMoves(chunks, losses, s, s') {
      var id :| id in s.publishers && id in s'.publishers &&
        PublisherStep(chunks, losses.publishers, s.publishers[id], s.world, s'.publishers[id], s'.world) &&
        s' == s.(world := s'.world, publishers := s.publishers[id := s'.publishers[id]]);
      PublisherKeepsInactive(chunks, losses.publishers, s.publishers[id], s.world, s'.publishers[id], s'.world);
      assert SomeFailed(s');
    } else {
      assert s'.inactivators == s.inactivators && SomeFailed(s');
    }
  }

  /** Across every step of every process, whatever gets lost. */
  lemma NextKeepsCover(chunks: set<string>, losses: Losses, s: System, s': System)
    requires Next(chunks, losses, s, s') && AllCovered(losses, s)
    ensures AllCovered(losses, s')
  {
    hide Covered, Abandoned, PhasedByStatus, Next;
    NextKeepsPhased(chunks, losses, s, s');
    if Abandoned(losses, s) {
      NextKeepsAbandoned(chunks, losses, s, s');
    } else {
      StepKeepsCover(chunks, losses, s, s', Elasticsearch);
      StepKeepsCover(chunks, losses, s, s', Milvus);
    }
  }

  ghost function Last(run: seq<System>): System
    requires run != []
  {
    run[|run| - 1]
  }

  lemma RunPrefix(chunks: set<string>, losses: Losses, run: seq<System>)
    requires Run(chunks, losses, run) && |run| > 1
    ensures Run(chunks, losses, run[..|run| - 1]) && Next(chunks, losses, Last(run[..|run| - 1]), Last(run))
  {
    var before := run[..|run| - 1];
    forall i | 0 <= i < |before| - 1 ensures Next(chunks, losses, before[i], before[i + 1]) {
      assert before[i] == run[i] && before[i + 1] == run[i + 1];
    }
    assert Next(chunks, losses, run[|run| - 2], run[|run| - 2 + 1]);
  }

  lemma {:induction false} RunCovered(chunks: set<string>, losses: Losses, run: seq<System>)
    requires Run(chunks, losses, run)
    ensures AllCovered(losses, Last(run))
  {
    if |run| > 1 {
      RunPrefix(chunks, losses, run);
      RunCovered(chunks, losses, run[..|run| - 1]);
      NextKeepsCover(chunks, losses, Last(run[..|run| - 1]), Last(run));
    }
  }

  /** The one way to leave an active index unreported: an inactivator lost the answer to its commit, and every call
      since has failed to commit INACTIVE again. */
  ghost predicate LostTrack(losses: Losses, s: System) {
    losses.inactivators && s.world.fact.status == Inactive && s.inactivators != map[] &&
    forall id :: id in s.inactivators ==> s.inactivators[id].phase.InactivateFailed?
  }

  /** For any number of concurrent publishers and inactivators, and whatever answers are lost: once all have ended, an
      index that is still active behind a version that is not READY was named in somebody's failure report, or the
      version is INACTIVE and every inactivator raised at its commit. */
  lemma ActiveIndexIsReported(chunks: set<string>, losses: Losses, run: seq<System>, b: Backend)
    requires Run(chunks, losses, run) && Quiescent(Last(run))
    ensures ActiveIn(Last(run).world, b) == {} || Last(run).world.fact.status == Ready || Reported(Last(run), b) ||
            LostTrack(losses, Last(run))
  {
    RunCovered(chunks, losses, run);
    var s := Last(run);
    assert b == Elasticsearch || b == Milvus;
    if Abandoned(losses, s) {
      forall id | id in s.inactivators ensures s.inactivators[id].phase.InactivateFailed? {
        assert InactivatorEnded(s.inactivators[id]);
      }
    } else if exists id :: id in s.publishers && PublisherResponsible(s.publishers[id], b) {
      var id :| id in s.publishers && PublisherResponsible(s.publishers[id], b);
      assert PublisherEnded(s.publishers[id]);
    } else if exists id :: id in s.inactivators && InactivatorResponsible(s.inactivators[id], b) {
      var id :| id in s.inactivators && InactivatorResponsible(s.inactivators[id], b);
      assert InactivatorEnded(s.inactivators[id]);
    }
  }

  // ---------------------------------------------------------------- INACTIVE is final

  ghost predicate PublishedBy(s: System, id: nat) {
    id in s.publishers && s.publishers[id].phase.Published?
  }

  lemma NextKeepsInactive(chunks: set<string>, losses: Losses, s: System, s': System)
    requires Next(chunks, losses, s, s') && s.world.fact.status == Inactive
    ensures s'.world.fact == s.world.fact
    ensures forall id :: PublishedBy(s', id) ==> PublishedBy(s, id)
  {
    hide PublisherStep, InactivatorStep;
    if PublisherMoves(chunks, losses, s, s') {
      var id :| id in s.publishers && id in s'.publishers &&
        PublisherStep(chunks, losses.publishers, s.publishers[id], s.world, s'.publishers[id], s'.world) &&
        s' == s.(world := s'.world, publishers := s.publishers[id := s'.publishers[id]]);
      PublisherKeepsInactive(chunks, losses.publishers, s.publishers[id], s.world, s'.publishers[id], s'.world);
    } else if InactivatorMoves(losses, s, s') {
      var id :| id in s.inactivators && id in s'.inactivators &&
        InactivatorStep(losses.inactivators, s.inactivators[id], s.world, s'.inactivators[id], s'.world) &&
        s' == s.(world := s'.world, inactivators := s.inactivators[id := s'.inactivators[id]]);
      InactivatorKeepsInactive(losses.inactivators, s.inactivators[id], s.world, s'.inactivators[id], s'.world);
    }
  }

  /** Once INACTIVE is committed, whatever gets lost, the fact never changes again and no publisher succeeds any
      more. */
  lemma {:induction false} InactiveIsFinal(chunks: set<string>, losses: Losses, run: seq<System>, i: nat)
    requires Run(chunks, losses, run) && i < |run| && run[i].world.fact.status == Inactive
    ensures Last(run).world.fact == run[i].world.fact
    ensures forall id :: PublishedBy(Last(run), id) ==> PublishedBy(run[i], id)
    decreases |run|
  {
    if i < |run| - 1 {
      RunPrefix(chunks, losses, run);
      InactiveIsFinal(chunks, losses, run[..|run| - 1], i);
      NextKeepsInactive(chunks, losses, Last(run[..|run| - 1]), Last(run));
    }
  }

  // ---------------------------------------------------------------- READY has a publisher, and both indexes behind it

  ghost predicate ReadyIsPublished(s: System) {
    s.world.fact.status == Ready ==> exists id :: PublishedBy(s, id)
  }

  lemma OnlyFinalizingCommitsReady(chunks: set<string>, p: Publisher, w: World, p': Publisher, w': World)
    requires PublisherStep(chunks, false, p, w, p', w')
    ensures !p.phase.Published?
    ensures w'.fact.status == Ready && w.fact.status != Ready ==> p'.phase.Published?
  {
  }

  lemma NextKeepsReadyPublished(chunks: set<string>, losses: Losses, s: System, s': System)
    requires Next(chunks, losses, s, s') && !losses.publishers && ReadyIsPublished(s)
    ensures ReadyIsPublished(s')
  {
    if Arrival(s, s') {
      assert forall id :: PublishedBy(s, id) ==> PublishedBy(s', id);
    } else if PublisherMoves(chunks, losses, s, s') {
      var id :| id in s.publishers && id in s'.publishers &&
        PublisherStep(chunks, losses.publishers, s.publishers[id], s.world, s'.publishers[id], s'.world) &&
        s' == s.(world := s'.world, publishers := s.publishers[id := s'.publishers[id]]);
      OnlyFinalizingCommitsReady(chunks, s.publishers[id], s.world, s'.publishers[id], s'.world);
      assert forall other :: PublishedBy(s, other) ==> PublishedBy(s', other);
      assert s'.world.fact.status == Ready && s.world.fact.status != Ready ==> PublishedBy(s', id);
    } else if InactivatorMoves(losses, s, s') {
      assert forall id :: PublishedBy(s, id) ==> PublishedBy(s', id);
    } else {
      assert forall id :: PublishedBy(s, id) ==> PublishedBy(s', id);
    }
  }

  /** Unless the repository loses answers to publishers, a READY version has a publisher that returned normally;
      so if every publisher raised, the version is not READY. */
  lemma {:induction false} ReadyHasPublisher(chunks: set<string>, losses: Losses, run: seq<System>)
    requires Run(chunks, losses, run) && !losses.publishers
    ensures ReadyIsPublished(Last(run))
  {
    if |run| > 1 {
      RunPrefix(chunks, losses, run);
      ReadyHasPublisher(chunks, losses, run[..|run| - 1]);
      NextKeepsReadyPublished(chunks, losses, Last(run[..|run| - 1]), Last(run));
    }
  }

  ghost predicate AtMostOnePublisher(s: System) {
    forall id, other :: id in s.publishers && other in s.publishers ==> id == other
  }

  /** What a lone publisher has checked stays true until INACTIVE is committed. */
  predicate CheckedStaysActive(chunks: set<string>, p: Publisher, w: World) {
    match p.phase
    case Activating(i) => i == 1 ==> chunks <= w.elasticsearch
    case CheckingActivation(i) => i == 1 ==> chunks <= w.elasticsearch
    case Finalizing => chunks <= w.elasticsearch && chunks <= w.milvus
    case Published => chunks <= w.elasticsearch && chunks <= w.milvus
    case _ => true
  }

  ghost predicate LoneInvariant(chunks: set<string>, s: System) {
    PhasedByStatus(s) &&
    (s.world.fact.status == Inactive || forall id :: id in s.publishers ==> CheckedStaysActive(chunks, s.publishers[id], s.world))
  }

  lemma StepKeepsChecked(chunks: set<string>, mayLose: bool, p: Publisher, w: World, p': Publisher, w': World)
    requires PublisherStep(chunks, mayLose, p, w, p', w')
    requires w.fact.status == Inactive || CheckedStaysActive(chunks, p, w)
    ensures w'.fact.status == Inactive <==> w.fact.status == Inactive
    ensures w'.fact.status == Inactive || CheckedStaysActive(chunks, p', w')
  {
    assert WRITERS[0] == Elasticsearch && WRITERS[1] == Milvus;
    assert ActiveIn(w', Elasticsearch) == w'.elasticsearch && ActiveIn(w', Milvus) == w'.milvus;
  }

  lemma PublisherKeepsLone(chunks: set<string>, losses: Losses, s: System, s': System)
    requires PublisherMoves(chunks, losses, s, s') && AtMostOnePublisher(s') && LoneInvariant(chunks, s)
    ensures LoneInvariant(chunks, s')
  {
    var id :| id in s.publishers && id in s'.publishers &&
      PublisherStep(chunks, losses.publishers, s.publishers[id], s.world, s'.publishers[id], s'.world) &&
      s' == s.(world := s'.world, publishers := s.publishers[id := s'.publishers[id]]);
    StepKeepsChecked(chunks, losses.publishers, s.publishers[id], s.world, s'.publishers[id], s'.world);
    forall other | other in s'.publishers ensures other == id {
    }
  }

  /** An inactivator still at its commit touches no index, and one that is past it needs the version to be INACTIVE. */
  lemma InactivatorKeepsLone(chunks: set<string>, losses: Losses, s: System, s': System)
    requires InactivatorMoves(losses, s, s') && LoneInvariant(chunks, s) && PhasedByStatus(s')
    ensures LoneInvariant(chunks, s')
  {
    var id :| id in s.inactivators && id in s'.inactivators &&
      InactivatorStep(losses.inactivators, s.inactivators[id], s.world, s'.inactivators[id], s'.world) &&
      s' == s.(world := s'.world, inactivators := s.inactivators[id := s'.inactivators[id]]);
    assert AtCommit(s.inactivators[id]) || s.world.fact.status == Inactive;
  }

  lemma NextKeepsLone(chunks: set<string>, losses: Losses, s: System, s': System)
    requires Next(chunks, losses, s, s') && AtMostOnePublisher(s') && LoneInvariant(chunks, s)
    ensures LoneInvariant(chunks, s')
  {
    NextKeepsPhased(chunks, losses, s, s');
    if PublisherMoves(chunks, losses, s, s') {
      PublisherKeepsLone(chunks, losses, s, s');
    } else if InactivatorMoves(losses, s, s') {
      InactivatorKeepsLone(chunks, losses, s, s');
    } else if Arrival(s, s') {
      forall id | id in s.publishers ensures id in s'.publishers && s'.publishers[id] == s.publishers[id] {
      }
    }
  }

  lemma {:induction false} RunLone(chunks: set<string>, losses: Losses, run: seq<System>)
    requires Run(chunks, losses, run) && AtMostOnePublisher(Last(run))
    ensures LoneInvariant(chunks, Last(run))
    decreases |run|
  {
    if |run| > 1 {
      RunPrefix(chunks, losses, run);
      NextKeepsAtMostOne(chunks, losses, Last(run[..|run| - 1]), Last(run));
      RunLone(chunks, losses, run[..|run| - 1]);
      NextKeepsLone(chunks, losses, Last(run[..|run| - 1]), Last(run));
    }
  }

  lemma NextKeepsAtMostOne(chunks: set<string>, losses: Losses, s: System, s': System)
    requires Next(chunks, losses, s, s') && AtMostOnePublisher(s')
    ensures AtMostOnePublisher(s)
  {
    forall id | id in s.publishers ensures id in s'.publishers {
    }
  }

  /** With a single publisher and no lost answers, READY always has every chunk active in both indexes,
      however many inactivators interfere. */
  lemma ReadyIsFullyActive(chunks: set<string>, losses: Losses, run: seq<System>)
    requires Run(chunks, losses, run) && !losses.publishers && AtMostOnePublisher(Last(run))
    requires Last(run).world.fact.status == Ready
    ensures chunks <= Last(run).world.elasticsearch && chunks <= Last(run).world.milvus
  {
    ReadyHasPublisher(chunks, losses, run);
    RunLone(chunks, losses, run);
    var id :| PublishedBy(Last(run), id);
    assert CheckedStaysActive(chunks, Last(run).publishers[id], Last(run).world);
  }

  // ---------------------------------------------------------------- why each hypothesis is needed

  ghost predicate Reachable(chunks: set<string>, losses: Losses, s: System) {
    exists run :: Run(chunks, losses, run) && Last(run) == s
  }

  lemma Extended(chunks: set<string>, losses: Losses, s: System, s': System)
    requires Reachable(chunks, losses, s) && Next(chunks, losses, s, s')
    ensures Reachable(chunks, losses, s')
  {
    var run :| Run(chunks, losses, run) && Last(run) == s;
    var longer := run + [s'];
    forall i | 0 <= i < |longer| - 1 ensures Next(chunks, losses, longer[i], longer[i + 1]) {
      if i < |run| - 1 {
        assert longer[i] == run[i] && longer[i + 1] == run[i + 1];
      }
    }
    assert Run(chunks, losses, longer) && Last(longer) == s';
  }

  function WithPublisher(s: System, id: nat, p: Publisher, w: World): System {
    s.(world := w, publishers := s.publishers[id := p])
  }

  /** One step of a publisher leads from a reachable state to a reachable state. */
  lemma Moved(chunks: set<string>, losses: Losses, s: System, id: nat, p: Publisher, w: World) returns (s': System)
    requires Reachable(chunks, losses, s) && id in s.publishers
    requires PublisherStep(chunks, losses.publishers, s.publishers[id], s.world, p, w)
    ensures s' == WithPublisher(s, id, p, w) && Reachable(chunks, losses, s')
  {
    hide Reachable;
    s' := WithPublisher(s, id, p, w);
    assert PublisherMoves(chunks, losses, s, s') by {
      assert s'.publishers[id] == p;
    }
    Extended(chunks, losses, s, s');
  }

  /** The fact once both indexes are recorded as staged. */
  function StagedFact(fact: Fact): Fact {
    fact.(revision := fact.revision + 2, elasticsearch := Built, milvus := Built, failureCode := None)
  }

  /** A publisher that nothing disturbs stages both indexes ... */
  lemma ReachesActivating(chunks: set<string>, losses: Losses, s: System, id: nat) returns (s': System)
    requires Reachable(chunks, losses, s) && id in s.publishers && s.world.fact.status == Processing
    requires s.publishers[id] == NewPublisher(s.world.fact)
    ensures Reachable(chunks, losses, s')
    ensures var fact := StagedFact(s.world.fact);
      s' == WithPublisher(s, id, Publisher(Activating(0), fact, []), s.world.(fact := fact))
  {
    hide Reachable;
    var w := s.world;
    s' := Moved(chunks, losses, s, id, Publisher(RecordingStaged(0), w.fact, []), w);
    var f1 := Applied(w.fact, StagedPatch(w.fact, Elasticsearch));
    var w1 := w.(fact := f1);
    assert Answers(w, w1, w.fact.revision, StagedPatch(w.fact, WRITERS[0]), Committed);
    s' := Moved(chunks, losses, s', id, Publisher(Staging(1), f1, []), w1);
    s' := Moved(chunks, losses, s', id, Publisher(RecordingStaged(1), f1, []), w1);
    var fact := Applied(f1, StagedPatch(f1, Milvus));
    var w2 := w.(fact := fact);
    assert Answers(w1, w2, f1.revision, StagedPatch(f1, WRITERS[1]), Committed);
    s' := Moved(chunks, losses, s', id, Publisher(Activating(0), fact, []), w2);
  }

  /** ... then activates and checks both. */
  lemma ReachesFinalizing(chunks: set<string>, losses: Losses, s: System, id: nat) returns (s': System)
    requires Reachable(chunks, losses, s) && id in s.publishers && s.world.fact.status == Processing
    requires s.publishers[id] == NewPublisher(s.world.fact)
    ensures Reachable(chunks, losses, s')
    ensures var fact := StagedFact(s.world.fact);
      s' == WithPublisher(s, id, Publisher(Finalizing, fact, []),
                          World(fact, s.world.elasticsearch + chunks, s.world.milvus + chunks))
  {
    hide Reachable;
    s' := ReachesActivating(chunks, losses, s, id);
    var fact, w := StagedFact(s.world.fact), s'.world;
    var w1 := w.(elasticsearch := w.elasticsearch + chunks);
    s' := Moved(chunks, losses, s', id, Publisher(CheckingActivation(0), fact, []), w1);
    s' := Moved(chunks, losses, s', id, Publisher(Activating(1), fact, []), w1);
    var w2 := w1.(milvus := w.milvus + chunks);
    s' := Moved(chunks, losses, s', id, Publisher(CheckingActivation(1), fact, []), w2);
    s' := Moved(chunks, losses, s', id, Publisher(Finalizing, fact, []), w2);
  }

  /** A publisher whose finalization was refused deactivates both indexes. */
  lemma Compensates(chunks: set<string>, losses: Losses, s: System, id: nat) returns (s': System)
    requires Reachable(chunks, losses, s) && id in s.publishers
    requires s.publishers[id].phase == Compensating(0, FinalizationFailed)
    ensures Reachable(chunks, losses, s')
    ensures s' == WithPublisher(s, id, s.publishers[id].(phase := RecordingFailure(FinalizationFailed)), World(s.world.fact, {}, {}))
  {
    hide Reachable;
    var w, p := s.world, s.publishers[id];
    var w1 := w.(elasticsearch := {});
    s' := Moved(chunks, losses, s, id, p.(phase := CheckingCompensation(0, FinalizationFailed)), w1);
    s' := Moved(chunks, losses, s', id, p.(phase := Compensating(1, FinalizationFailed)), w1);
    var w2 := w1.(milvus := {});
    s' := Moved(chunks, losses, s', id, p.(phase := CheckingCompensation(1, FinalizationFailed)), w2);
    s' := Moved(chunks, losses, s', id, p.(phase := RecordingFailure(FinalizationFailed)), w2);
  }

  const UNPUBLISHED := Fact(1, Processing, Pending, Pending, None, true)

  /** A version ready to be published, with one publisher about to start. */
  function Start(): System {
    System(World(UNPUBLISHED, {}, {}), map[0 := NewPublisher(UNPUBLISHED)], map[])
  }

  lemma StartIsReachable(chunks: set<string>, losses: Losses)
    ensures Reachable(chunks, losses, Start())
  {
    var s := Start().(publishers := map[]);
    assert Run(chunks, losses, [s]) && Last([s]) == s;
    assert PublisherArrives(s, Start(), 0);
    Extended(chunks, losses, s, Start());
  }

  /** If the answer to a publisher's finalization may get lost, the publisher raises although the version is READY. */
  lemma LostReadyAnswer(chunks: set<string>) returns (s: System)
    ensures Reachable(chunks, Losses(true, false), s) && Quiescent(s)
    ensures s.world.fact.status == Ready && s.world.elasticsearch == s.world.milvus == {}
    ensures s.publishers.Keys == {0} && s.publishers[0].phase == PublishFailed(Some(FinalizationFailed))
  {
    hide Reachable;
    var losses, fact := Losses(true, false), StagedFact(UNPUBLISHED);
    StartIsReachable(chunks, losses);
    s := ReachesFinalizing(chunks, losses, Start(), 0);
    var w := s.world.(fact := Applied(fact, READY_PATCH));
    assert Answers(s.world, w, fact.revision, READY_PATCH, AnswerLost);
    s := Moved(chunks, losses, s, 0, Publisher(Compensating(0, FinalizationFailed), fact, []), w);
    s := Compensates(chunks, losses, s, 0);
    assert Answers(s.world, s.world, fact.revision, FailurePatch(fact, Elasticsearch, FinalizationFailed), Refused);
    s := Moved(chunks, losses, s, 0, Publisher(PublishFailed(Some(FinalizationFailed)), fact, [RecordFailed]), s.world);
  }

  /** If the answer to an inactivator's commit may get lost, both indexes can stay active behind an INACTIVE version,
      unreported. */
  lemma LostInactiveAnswer(chunks: set<string>) returns (s: System)
    requires chunks != {}
    ensures Reachable(chunks, Losses(false, true), s) && Quiescent(s)
    ensures s.world.fact.status == Inactive && AtMostOnePublisher(s)
    ensures forall b: Backend :: ActiveIn(s.world, b) == chunks && !Reported(s, b)
  {
    hide Reachable;
    var losses, fact := Losses(false, true), StagedFact(UNPUBLISHED);
    StartIsReachable(chunks, losses);
    s := ReachesFinalizing(chunks, losses, Start(), 0);
    var ready := Applied(fact, READY_PATCH);
    var w := s.world.(fact := ready);
    assert Answers(s.world, w, fact.revision, READY_PATCH, Committed);
    s := Moved(chunks, losses, s, 0, Publisher(Published, ready, []), w);
    var called := s.(inactivators := map[0 := NewInactivator(ready)]);
    assert InactivatorArrives(s, called, 0);
    Extended(chunks, losses, s, called);
    var w' := w.(fact := Applied(ready, INACTIVE_PATCH));
    assert Answers(w, w', ready.revision, INACTIVE_PATCH, AnswerLost);
    s := called.(world := w', inactivators := called.inactivators[0 := Inactivator(InactivateFailed, ready, [])]);
    assert InactivatorMoves(losses, called, s) by {
      assert s.inactivators[0] == Inactivator(InactivateFailed, ready, []);
    }
    Extended(chunks, losses, called, s);
  }

  /** With two publishers, the loser of the compare-and-swap compensates while the winner finalizes: READY with nothing
      active. */
  lemma TwoPublishersClash(chunks: set<string>) returns (s: System)
    ensures Reachable(chunks, Losses(false, false), s)
    ensures s.world.fact.status == Ready && s.world.elasticsearch == s.world.milvus == {}
  {
    hide Reachable;
    var losses, first := Losses(false, false), StagedFact(UNPUBLISHED);
    StartIsReachable(chunks, losses);
    s := ReachesFinalizing(chunks, losses, Start(), 0);
    var joined := s.(publishers := s.publishers[1 := NewPublisher(first)]);
    assert PublisherArrives(s, joined, 1);
    Extended(chunks, losses, s, joined);
    s := ReachesFinalizing(chunks, losses, joined, 1);
    var second := StagedFact(first);
    assert Answers(s.world, s.world, first.revision, READY_PATCH, Refused);
    s := Moved(chunks, losses, s, 0, Publisher(Compensating(0, FinalizationFailed), first, []), s.world);
    s := Compensates(chunks, losses, s, 0);
    var ready := Applied(second, READY_PATCH);
    var w := s.world.(fact := ready);
    assert Answers(s.world, w, second.revision, READY_PATCH, Committed);
    s := Moved(chunks, losses, s, 1, Publisher(Published, ready, []), w);
  }
}
