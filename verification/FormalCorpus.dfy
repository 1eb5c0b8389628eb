/** The formal corpus: lineage, leakage and blockers. */
module FormalCorpus {
  import opened Basics

  datatype Split = Dev | Test | Acceptance | OnlineHardCases
  datatype Answerability = Answerable | PartiallyAnswerable | ConflictingEvidence | NoEvidence | Forbidden
  datatype Difficulty = Easy | Medium | Hard
  datatype ItemStatus = Draft | GptAssisted | DoubleAnnotated | Adjudicated | ExpertReviewed
  datatype Role = Annotator | Adjudicator | ExpertReviewer
  datatype Actor = Human | Gpt | Fixture

  /** What a review decides; route and judgments are only compared. */
  datatype Labels = Labels(answerability: Answerability, route: nat, judgments: nat)

  /** `model` stands for the three fields of a model execution, which are set together. */
  datatype Record = Record(id: nat, question: nat, role: Role, actor: Actor, annotator: nat, model: Option<nat>, labels: Labels,
                           basedOn: seq<nat>, dataset: nat)

  datatype Item = Item(question: nat, split: Split, leakageGroup: nat, questionTypes: set<nat>,
                       difficulty: Difficulty, status: ItemStatus,
                       recordIds: seq<nat>, finalId: Option<nat>, agreement: Option<real>, labels: Labels,
                       dataset: nat)

  datatype Stratum = Stratum(questionType: nat, least: real, most: real)

  datatype Manifest = Manifest(targetSize: nat, locked: bool, devRatio: real, testRatio: real, acceptanceRatio: real, tolerance: real,
                               strata: seq<Stratum>, minimumAnnotators: nat, expertTypes: set<nat>,
                                 expertDifficulties: set<Difficulty>,
                               dataset: nat)

  const ADVERSARIAL_SECURITY := 0

  /** The question that is named `primary_item_count`. */
  const PRIMARY_ITEM_COUNT := 0

  const ENGINEERING_TARGET := 500
  const AUDIT_MIN_RATIO := 0.1

  // ---------------------------------------------------------------- what each record and item must satisfy by itself

  ghost predicate RecordValid(r: Record) {
    (r.actor == Gpt <==> r.model.Some?) && (r.actor == Gpt ==> r.role == Annotator) && Distinct(r.basedOn) &&
    (r.role == Annotator ==> r.basedOn == []) && (r.role == Adjudicator ==> |r.basedOn| >= 2) &&
    (r.role == ExpertReviewer ==> r.basedOn != [])
  }

  function LeastRecords(s: ItemStatus): nat {
    match s case Draft => 0 case GptAssisted => 1
      case DoubleAnnotated => 2 case Adjudicated => 3 case ExpertReviewed => 3
  }

  ghost predicate ItemValid(i: Item) {
    Distinct(i.recordIds) && |i.recordIds| >= LeastRecords(i.status) &&
    (i.agreement.Some? ==> 0.0 <= i.agreement.value <= 1.0) &&
    (i.status in {Draft, GptAssisted, DoubleAnnotated} ==> i.finalId.None?) &&
    (i.status in {Adjudicated, ExpertReviewed} ==> i.finalId.Some? && i.finalId.value in i.recordIds)
  }

  ghost predicate ManifestValid(m: Manifest) {
    m.minimumAnnotators >= 2 && 200 <= m.targetSize <= 500 && m.devRatio >= 0.0 && m.testRatio >= 0.0 &&
    m.acceptanceRatio >= 0.0 &&
    -0.000000001 <= m.devRatio + m.testRatio + m.acceptanceRatio - 1.0 <= 0.000000001 && 0.0 <= m.tolerance <= 0.1
  }

  // ---------------------------------------------------------------- annotation lineage

  datatype Identity = Identity(actor: Actor, who: nat)

  /** A model is one reviewer whoever ran it. */
  function IdentityOf(r: Record): Identity {
    if r.actor == Gpt && r.model.Some? then Identity(Gpt, r.model.value) else Identity(r.actor, r.annotator)
  }

  function ById(records: seq<Record>): map<nat, Record> {
    if records == [] then map[] else ById(records[..|records| - 1])[records[|records| - 1].id := records[|records| - 1]]
  }

  predicate HasParent(byId: map<nat, Record>, r: Record, p: nat) {
    p in byId && byId[p].question == r.question
  }

  function Parents(byId: map<nat, Record>, r: Record): set<Record> {
    set p | p in r.basedOn && p in byId :: byId[p]
  }

  function Identities(records: set<Record>): set<Identity> {
    set r | r in records :: IdentityOf(r)
  }

  /** What the lineage check demands of one record. */
  predicate LineageOk(byId: map<nat, Record>, r: Record) {
    (forall p :: p in r.basedOn ==> HasParent(byId, r, p)) &&
    (r.role == Adjudicator ==> (forall q :: q in Parents(byId, r) ==> q.role == Annotator) && |Identities(Parents(byId, r))| >= 2) &&
    (r.role == ExpertReviewer ==>
      (|r.basedOn| >= 2 && (forall q :: q in Parents(byId, r) ==> q.role == Annotator) && |Identities(Parents(byId, r))| >= 2) ||
      (|r.basedOn| == 1 && forall q :: q in Parents(byId, r) ==> q.role == Adjudicator))
  }

  /** The same reviewer: one person, or one model whoever ran it. */
  ghost predicate SameReviewer(r: Record, q: Record) {
    r.actor == q.actor && if r.actor == Gpt then r.model == q.model else r.annotator == q.annotator
  }

  ghost predicate AllHaveRole(byId: map<nat, Record>, ids: seq<nat>, role: Role) {
    forall p :: p in ids && p in byId ==> byId[p].role == role
  }

  ghost predicate TwoReviewers(byId: map<nat, Record>, ids: seq<nat>) {
    exists p, q :: p in ids && q in ids && p in byId && q in byId && !SameReviewer(byId[p], byId[q])
  }

  /** The lineage rule: a record is based on records of its own question; an adjudication only on annotations of two
      different reviewers or more; an expert review either on such annotations, or on a single adjudication. */
  lemma LineageExactly(byId: map<nat, Record>, r: Record)
    requires forall k :: k in byId ==> RecordValid(byId[k])
    ensures LineageOk(byId, r) <==>
      (forall p :: p in r.basedOn ==> p in byId && byId[p].question == r.question) &&
      match r.role
      case Annotator => true
      case Adjudicator => AllHaveRole(byId, r.basedOn, Annotator) && TwoReviewers(byId, r.basedOn)
      case ExpertReviewer =>
        (AllHaveRole(byId, r.basedOn, Annotator) && TwoReviewers(byId, r.basedOn)) ||
        (|r.basedOn| == 1 && AllHaveRole(byId, r.basedOn, Adjudicator))
  {
    hide RecordValid, AllHaveRole, TwoReviewers, Identities, Parents;
    assert (forall p :: p in r.basedOn ==> HasParent(byId, r, p)) <==>
      forall p :: p in r.basedOn ==> p in byId && byId[p].question == r.question;
    ParentRoles(byId, r, Annotator);
    ParentRoles(byId, r, Adjudicator);
    TwoIdentities(byId, r);
  }

  lemma ParentRoles(byId: map<nat, Record>, r: Record, role: Role)
    ensures (forall q :: q in Parents(byId, r) ==> q.role == role) <==> AllHaveRole(byId, r.basedOn, role)
  {
    if forall q :: q in Parents(byId, r) ==> q.role == role {
      forall p | p in r.basedOn && p in byId ensures byId[p].role == role {
        assert byId[p] in Parents(byId, r);
      }
    }
  }

  lemma TwoOf<T>(s: set<T>) returns (a: T, b: T)
    requires |s| >= 2
    ensures a in s && b in s && a != b
  {
    a :| a in s;
    var rest := s - {a};
    assert s == rest + {a};
    b :| b in rest;
  }

  lemma TwoIdentities(byId: map<nat, Record>, r: Record)
    requires forall k :: k in byId ==> RecordValid(byId[k])
    ensures |Identities(Parents(byId, r))| >= 2 <==> TwoReviewers(byId, r.basedOn)
    ensures TwoReviewers(byId, r.basedOn) ==> |r.basedOn| >= 2
  {
    var all := Identities(Parents(byId, r));
    if TwoReviewers(byId, r.basedOn) {
      var p, q :| p in r.basedOn && q in r.basedOn && p in byId && q in byId && !SameReviewer(byId[p], byId[q]);
      assert byId[p] in Parents(byId, r) && byId[q] in Parents(byId, r);
      SubsetCardinality({IdentityOf(byId[p]), IdentityOf(byId[q])}, all);
      assert |r.basedOn| == 1 ==> r.basedOn == [p] && p == q;
    }
    if |all| >= 2 {
      var a, b := TwoOf(all);
      var p :| p in r.basedOn && p in byId && IdentityOf(byId[p]) == a;
      var q :| q in r.basedOn && q in byId && IdentityOf(byId[q]) == b;
      assert !SameReviewer(byId[p], byId[q]);
    }
  }

  ghost predicate Lineage(byId: map<nat, Record>) {
    forall k :: k in byId ==> RecordValid(byId[k]) && LineageOk(byId, byId[k])
  }

  /** Each record in the chain is based on the next one. */
  ghost predicate IsChain(byId: map<nat, Record>, chain: seq<nat>) {
    (forall i :: 0 <= i < |chain| ==> chain[i] in byId) &&
    forall i :: 0 <= i < |chain| - 1 ==> chain[i + 1] in byId[chain[i]].basedOn
  }

  function Rank(r: Role): nat {
    match r case Annotator => 0 case Adjudicator => 1 case ExpertReviewer => 2
  }

  lemma ParentRanksLower(byId: map<nat, Record>, k: nat, p: nat)
    requires Lineage(byId) && k in byId && p in byId[k].basedOn
    ensures p in byId && Rank(byId[p].role) < Rank(byId[k].role)
  {
    assert HasParent(byId, byId[k], p);
    assert byId[p] in Parents(byId, byId[k]);
  }

  lemma {:induction false} ChainDescends(byId: map<nat, Record>, chain: seq<nat>, i: nat, k: nat)
    requires Lineage(byId) && IsChain(byId, chain) && i < k < |chain|
    ensures Rank(byId[chain[k]].role) + (k - i) <= Rank(byId[chain[i]].role)
  {
    hide Lineage;
    ParentRanksLower(byId, chain[k - 1], chain[k]);
    if i < k - 1 {
      ChainDescends(byId, chain, i, k - 1);
    }
  }

  /** Lineage has no cycle and no chain of more than two steps. */
  lemma LineageIsShallow(byId: map<nat, Record>, chain: seq<nat>)
    requires Lineage(byId) && IsChain(byId, chain)
    ensures |chain| <= 3 && Distinct(chain)
  {
    hide Lineage;
    if |chain| > 3 {
      ChainDescends(byId, chain, 0, 3);
    }
    forall i, k | 0 <= i < k < |chain| ensures chain[i] != chain[k] {
      ChainDescends(byId, chain, i, k);
    }
  }

  /** The annotators a record rests on: its parents, or those of the adjudication it rests on. */
  ghost function Reviewers(byId: map<nat, Record>, r: Record): set<Identity> {
    set p | p in AnnotatorAncestors(byId, r) :: IdentityOf(p)
  }

  ghost function AnnotatorAncestors(byId: map<nat, Record>, r: Record): set<Record> {
    (set p | p in Parents(byId, r) && p.role == Annotator) +
    set p, q | p in Parents(byId, r) && q in Parents(byId, p) && q.role == Annotator :: q
  }

  /** Every adjudication and expert review rests on at least two different reviewers. */
  lemma ReviewsAreIndependent(byId: map<nat, Record>, k: nat)
    requires Lineage(byId) && k in byId && byId[k].role != Annotator
    ensures |Reviewers(byId, byId[k])| >= 2
  {
    hide Rank, RecordValid;
    var r := byId[k];
    assert LineageOk(byId, r) by { LineageHolds(byId, k); }
    if forall q :: q in Parents(byId, r) ==> q.role == Annotator {
      if r.role == ExpertReviewer && |r.basedOn| == 1 {
        OnlyParent(byId, r);
      }
      assert Identities(Parents(byId, r)) <= Reviewers(byId, r);
      SubsetCardinality(Identities(Parents(byId, r)), Reviewers(byId, r));
    } else {
      assert r.role == ExpertReviewer && |r.basedOn| == 1;
      OnlyParent(byId, r);
      var p := byId[r.basedOn[0]];
      LineageHolds(byId, r.basedOn[0]);
      assert Identities(Parents(byId, p)) <= Reviewers(byId, r);
      SubsetCardinality(Identities(Parents(byId, p)), Reviewers(byId, r));
    }
  }

  lemma LineageHolds(byId: map<nat, Record>, k: nat)
    requires Lineage(byId) && k in byId
    ensures LineageOk(byId, byId[k]) && RecordValid(byId[k])
  {
  }

  lemma OnlyParent(byId: map<nat, Record>, r: Record)
    requires |r.basedOn| == 1 && LineageOk(byId, r) && r.role == ExpertReviewer
    ensures r.basedOn[0] in byId && byId[r.basedOn[0]] in Parents(byId, r) && byId[r.basedOn[0]].role == Adjudicator
  {
    assert HasParent(byId, r, r.basedOn[0]);
    assert byId[r.basedOn[0]] in Parents(byId, r);
  }

  // ---------------------------------------------------------------- what one item lacks

  datatype Gap =
    | MissingAnnotation(record: nat) | LacksReviewers | NeedsTwoHumans | StillDraft | NeedsDoubleHuman | LacksGpt | GptConflict
    | LacksAgreement | NeedsAdjudication | ConsensusMismatch | NeedsExpert | NeedsHuman
    | FinalMissing | FinalRole | FinalNotHuman | FinalLabels

  datatype Blocker =
    | BelowTarget | LockedSize | SplitRatio(split: Split) | StratumRatio(questionType: nat) | About(question: nat, gap: Gap)

  function RecordsOf(byId: map<nat, Record>, item: Item): set<Record> {
    set k | k in item.recordIds && k in byId :: byId[k]
  }

  function Independent(byId: map<nat, Record>, item: Item): set<Record> {
    set r | r in RecordsOf(byId, item) && r.role == Annotator
  }

  function IndependentHumans(byId: map<nat, Record>, item: Item): set<nat> {
    set r | r in Independent(byId, item) && r.actor == Human :: r.annotator
  }

  predicate AnyHuman(byId: map<nat, Record>, item: Item) {
    exists r :: r in RecordsOf(byId, item) && r.actor == Human
  }

  predicate AllMatch(byId: map<nat, Record>, item: Item) {
    forall r :: r in Independent(byId, item) ==> r.labels == item.labels
  }

  predicate ExpertNeeded(m: Manifest, item: Item) {
    item.difficulty in m.expertDifficulties || item.questionTypes * m.expertTypes != {}
  }

  predicate HumanNeeded(item: Item) {
    item.split == Acceptance || item.labels.answerability in {ConflictingEvidence, NoEvidence, Forbidden} ||
    ADVERSARIAL_SECURITY in item.questionTypes
  }

  predicate LowRisk(m: Manifest, item: Item) {
    item.split in {Dev, Test} && item.difficulty != Hard && !ExpertNeeded(m, item)
  }

  function When<T>(condition: bool, x: T): seq<T> {
    if condition then [x] else []
  }

  /** One gap per listed record that does not exist. */
  function MissingGaps(byId: map<nat, Record>, ids: seq<nat>): seq<Gap> {
    if ids == [] then []
    else
      var last := ids[|ids| - 1];
      MissingGaps(byId, ids[..|ids| - 1]) + When(last !in byId, MissingAnnotation(last))
  }

  predicate NoneFromGpt(byId: map<nat, Record>, item: Item) {
    forall r :: r in Independent(byId, item) ==> r.actor != Gpt
  }

  function ReviewGaps(m: Manifest, byId: map<nat, Record>, item: Item): seq<Gap> {
    When(|Identities(Independent(byId, item))| < m.minimumAnnotators, LacksReviewers) +
    When(|IndependentHumans(byId, item)| < m.minimumAnnotators, NeedsTwoHumans) + When(item.status == Draft, StillDraft) +
    if item.status != GptAssisted then []
    else [NeedsDoubleHuman] + When(NoneFromGpt(byId, item), LacksGpt) + When(!AllMatch(byId, item), GptConflict)
  }

  function AgreementGaps(byId: map<nat, Record>, item: Item): seq<Gap> {
    if item.agreement.None? && item.status != GptAssisted then [LacksAgreement]
    else if item.agreement.Some? && item.agreement.value < 1.0 then
      When(item.status !in {Adjudicated, ExpertReviewed}, NeedsAdjudication)
    else if item.status == DoubleAnnotated then When(!AllMatch(byId, item), ConsensusMismatch)
    else []
  }

  function FinalGaps(byId: map<nat, Record>, item: Item): seq<Gap> {
    if item.finalId.None? then []
    else if item.finalId.value !in byId then [FinalMissing]
    else
      var final := byId[item.finalId.value];
      When(final.role != FinalRoleOf(item.status), FinalRole) + When(final.actor != Human, FinalNotHuman) +
      When(final.labels != item.labels, FinalLabels)
  }

  function FinalRoleOf(status: ItemStatus): Role {
    if status == ExpertReviewed then ExpertReviewer else Adjudicator
  }

  function ItemGaps(m: Manifest, byId: map<nat, Record>, item: Item): seq<Gap> {
    MissingGaps(byId, item.recordIds) + ReviewGaps(m, byId, item) + AgreementGaps(byId, item) +
    When(ExpertNeeded(m, item) && item.status != ExpertReviewed, NeedsExpert) +
    When(HumanNeeded(item) && !AnyHuman(byId, item), NeedsHuman) + FinalGaps(byId, item)
  }

  function ItemBlockers(m: Manifest, byId: map<nat, Record>, item: Item): seq<Blocker> {
    var gaps := ItemGaps(m, byId, item);
    seq(|gaps|, i requires 0 <= i < |gaps| => About(item.question, gaps[i]))
  }

  function ItemsBlockers(m: Manifest, byId: map<nat, Record>, items: seq<Item>): seq<Blocker> {
    if items == [] then [] else ItemsBlockers(m, byId, items[..|items| - 1]) + ItemBlockers(m, byId, items[|items| - 1])
  }

  // ---------------------------------------------------------------- what the corpus lacks

  function Count(items: seq<Item>, p: Item -> bool): nat {
    if items == [] then 0 else Count(items[..|items| - 1], p) + if p(items[|items| - 1]) then 1 else 0
  }

  function PrimaryCount(items: seq<Item>): nat {
    Count(items, (i: Item) => i.split != OnlineHardCases)
  }

  function SplitCount(items: seq<Item>, s: Split): nat {
    Count(items, (i: Item) => i.split == s)
  }

  function TypeCount(items: seq<Item>, t: nat): nat {
    Count(items, (i: Item) => i.split != OnlineHardCases && t in i.questionTypes)
  }

  predicate OutsideTolerance(items: seq<Item>, s: Split, target: real, tolerance: real) {
    PrimaryCount(items) > 0 &&
    var gap := SplitCount(items, s) as real / PrimaryCount(items) as real - target;
    gap > tolerance || -gap > tolerance
  }

  function TypeRatio(items: seq<Item>, t: nat): real {
    if PrimaryCount(items) == 0 then 0.0 else TypeCount(items, t) as real / PrimaryCount(items) as real
  }

  function StrataBlockers(items: seq<Item>, strata: seq<Stratum>): seq<Blocker> {
    if strata == [] then []
    else
      var s := strata[|strata| - 1];
      StrataBlockers(items, strata[..|strata| - 1]) +
      When(!(s.least <= TypeRatio(items, s.questionType) <= s.most), StratumRatio(s.questionType))
  }

  function CorpusBlockers(m: Manifest, items: seq<Item>): seq<Blocker> {
    When(PrimaryCount(items) < m.targetSize, BelowTarget) + When(m.locked && PrimaryCount(items) != m.targetSize, LockedSize) +
    When(OutsideTolerance(items, Dev, m.devRatio, m.tolerance), SplitRatio(Dev)) +
    When(OutsideTolerance(items, Test, m.testRatio, m.tolerance), SplitRatio(Test)) +
    When(OutsideTolerance(items, Acceptance, m.acceptanceRatio, m.tolerance), SplitRatio(Acceptance)) + StrataBlockers(items, m.strata)
  }

  /** Gaps in double human review, which engineering use waives. */
  predicate IsWaived(g: Gap) {
    g.NeedsTwoHumans? || g.NeedsDoubleHuman? || g.LacksReviewers?
  }

  /** Engineering use also waives the size. It goes by the text of the messages: a blocker about an item begins with the
      name of its question, and whatever begins with `primary_item_count` and a space is taken for the size. */
  predicate Kept(b: Blocker) {
    !b.BelowTarget? && !b.LockedSize? && (b.About? ==> b.question != PRIMARY_ITEM_COUNT && !IsWaived(b.gap))
  }

  function KeptOf(blockers: seq<Blocker>): seq<Blocker> {
    if blockers == [] then []
    else KeptOf(blockers[..|blockers| - 1]) + if Kept(blockers[|blockers| - 1]) then [blockers[|blockers| - 1]] else []
  }

  function LowRiskCount(m: Manifest, items: seq<Item>): nat {
    Count(items, (i: Item) => LowRisk(m, i))
  }

  function LowRiskReviewed(m: Manifest, byId: map<nat, Record>, items: seq<Item>): nat {
    Count(items, (i: Item) => LowRisk(m, i) && AnyHuman(byId, i))
  }

  function AuditRatio(m: Manifest, byId: map<nat, Record>, items: seq<Item>): real {
    if LowRiskCount(m, items) == 0 then 0.0 else LowRiskReviewed(m, byId, items) as real / LowRiskCount(m, items) as real
  }

  function AllBlockers(m: Manifest, byId: map<nat, Record>, items: seq<Item>): seq<Blocker> {
    CorpusBlockers(m, items) + ItemsBlockers(m, byId, items)
  }

  predicate LockReady(m: Manifest, byId: map<nat, Record>, items: seq<Item>) {
    AllBlockers(m, byId, items) == []
  }

  predicate EngineeringReady(m: Manifest, byId: map<nat, Record>, items: seq<Item>) {
    KeptOf(AllBlockers(m, byId, items)) == [] && PrimaryCount(items) == ENGINEERING_TARGET &&
    AuditRatio(m, byId, items) >= AUDIT_MIN_RATIO
  }

  // ---------------------------------------------------------------- lock-ready implies engineering-ready, given a low-risk item

  lemma {:induction false} NoItemBlockers(m: Manifest, byId: map<nat, Record>, items: seq<Item>, i: nat)
    requires ItemsBlockers(m, byId, items) == [] && i < |items|
    ensures ItemBlockers(m, byId, items[i]) == []
  {
    hide ItemBlockers;
    if i < |items| - 1 {
      NoItemBlockers(m, byId, items[..|items| - 1], i);
    }
  }

  ghost predicate FinalReviewHolds(byId: map<nat, Record>, item: Item) {
    item.finalId.Some? && item.finalId.value in byId &&
    var final := byId[item.finalId.value];
    final.actor == Human && final.labels == item.labels &&
    final.role == if item.status == ExpertReviewed then ExpertReviewer else Adjudicator
  }

  /** An unblocked item has two human annotators, is adjudicated where its reviewers disagree and expert-reviewed where
      that is required, and any final record is a human's, of the right role and with the item's labels. */
  lemma UnblockedItemIsReviewed(m: Manifest, byId: map<nat, Record>, item: Item)
    requires ManifestValid(m) && ItemValid(item) && ItemBlockers(m, byId, item) == []
    ensures |IndependentHumans(byId, item)| >= 2 && AnyHuman(byId, item) &&
      item.status in {DoubleAnnotated, Adjudicated, ExpertReviewed}
    ensures item.agreement.Some? && (item.agreement.value < 1.0 ==> item.status != DoubleAnnotated)
    ensures item.status == DoubleAnnotated ==> AllMatch(byId, item)
    ensures ExpertNeeded(m, item) ==> item.status == ExpertReviewed
    ensures item.status != DoubleAnnotated ==> FinalReviewHolds(byId, item)
  {
    hide ExpertNeeded, HumanNeeded, AllMatch;
    assert ItemGaps(m, byId, item) == [];
    assert ReviewGaps(m, byId, item) == [] && AgreementGaps(byId, item) == [] && FinalGaps(byId, item) == [];
    assert |IndependentHumans(byId, item)| >= 2;
    HumansAreRecorded(byId, item);
  }

  lemma HumansAreRecorded(byId: map<nat, Record>, item: Item)
    requires |IndependentHumans(byId, item)| >= 2
    ensures AnyHuman(byId, item)
  {
    assert IndependentHumans(byId, item) != {};
    var a :| a in IndependentHumans(byId, item);
    var r :| r in Independent(byId, item) && r.actor == Human && r.annotator == a;
    assert r in RecordsOf(byId, item);
  }

  lemma {:induction false} SameCount(items: seq<Item>, p: Item -> bool, q: Item -> bool)
    requires forall i :: i in items ==> p(i) == q(i)
    ensures Count(items, p) == Count(items, q)
  {
    if items != [] {
      var front, last := items[..|items| - 1], items[|items| - 1];
      assert items == front + [last] && last in items;
      forall i | i in front ensures p(i) == q(i) {
        assert i in items;
      }
      SameCount(front, p, q);
    }
  }

  lemma {:induction false} CountIsZero(items: seq<Item>, p: Item -> bool)
    ensures Count(items, p) == 0 <==> forall i :: i in items ==> !p(i)
  {
    if items != [] {
      var front, last := items[..|items| - 1], items[|items| - 1];
      assert items == front + [last];
      CountIsZero(front, p);
      if Count(items, p) == 0 {
        forall i | i in items ensures !p(i) {
        }
      } else if !p(last) {
        var i :| i in front && p(i);
        assert i in items;
      } else {
        assert last in items;
      }
    }
  }

  lemma WholeRatio(n: nat)
    requires n > 0
    ensures n as real / n as real == 1.0
  {
  }

  /** A lock-ready corpus of 500 primary items is ready for engineering use exactly when it has a low-risk dev or test
      item: without one the human-audit ratio counts as zero. */
  lemma LockReadyMeansEngineeringReady(m: Manifest, byId: map<nat, Record>, items: seq<Item>)
    requires ManifestValid(m) && forall i :: i in items ==> ItemValid(i)
    requires LockReady(m, byId, items) && PrimaryCount(items) == ENGINEERING_TARGET
    ensures EngineeringReady(m, byId, items) <==> exists i :: i in items && LowRisk(m, i)
  {
    hide ItemBlockers, CorpusBlockers, LowRisk, AnyHuman, PrimaryCount, ItemValid, Count, ManifestValid;
    assert KeptOf(AllBlockers(m, byId, items)) == [];
    forall i | i in items ensures AnyHuman(byId, i) {
      var k :| 0 <= k < |items| && items[k] == i;
      NoItemBlockers(m, byId, items, k);
      UnblockedItemIsReviewed(m, byId, i);
    }
    SameCount(items, (i: Item) => LowRisk(m, i) && AnyHuman(byId, i), (i: Item) => LowRisk(m, i));
    CountIsZero(items, (i: Item) => LowRisk(m, i));
    assert LowRiskReviewed(m, byId, items) == LowRiskCount(m, items);
    if LowRiskCount(m, items) > 0 {
      WholeRatio(LowRiskCount(m, items));
    }
  }

  // ---------------------------------------------------------------- what engineering use still demands

  /** Neither the difficulty nor any type of the item is one the manifest reserves for experts. */
  ghost predicate GoesWithoutExpert(m: Manifest, item: Item) {
    item.difficulty !in m.expertDifficulties && forall t :: t in item.questionTypes ==> t !in m.expertTypes
  }

  /** An answerable dev, test or hard-case item that is not adversarial. */
  ghost predicate GoesWithoutHuman(item: Item) {
    item.split in {Dev, Test, OnlineHardCases} && item.labels.answerability in {Answerable, PartiallyAnswerable} &&
    0 !in item.questionTypes
  }

  /** The independent annotations an item lists. */
  ghost function Annotations(byId: map<nat, Record>, item: Item): (r: set<nat>)
    ensures forall k :: k in r ==> k in byId
  {
    set k | k in item.recordIds && k in byId && byId[k].role == Annotator
  }

  lemma AnnotationsAreIndependent(byId: map<nat, Record>, item: Item)
    ensures Independent(byId, item) == set k | k in Annotations(byId, item) :: byId[k]
  {
    forall k | k in Annotations(byId, item) ensures byId[k] in Independent(byId, item) {
      assert byId[k] in RecordsOf(byId, item);
    }
  }

  lemma ReviewsAreExact(byId: map<nat, Record>, item: Item)
    ensures Identities(Independent(byId, item)) == set k | k in Annotations(byId, item) :: IdentityOf(byId[k])
    ensures IndependentHumans(byId, item) ==
      set k | k in Annotations(byId, item) && byId[k].actor == Human :: byId[k].annotator
    ensures NoneFromGpt(byId, item) <==> forall k :: k in Annotations(byId, item) ==> byId[k].actor != Gpt
    ensures AllMatch(byId, item) <==> forall k :: k in Annotations(byId, item) ==> byId[k].labels == item.labels
  {
    AnnotationsAreIndependent(byId, item);
    hide Independent, Annotations, IdentityOf;
    var all := Independent(byId, item);
    forall k | k in Annotations(byId, item)
      ensures byId[k] in all && IdentityOf(byId[k]) in Identities(all)
      ensures byId[k].actor == Human ==> byId[k].annotator in IndependentHumans(byId, item)
    {
      assert byId[k] in all;
    }
  }

  lemma SplitIsOneOf(item: Item)
    ensures item.split != Acceptance <==> item.split in {Dev, Test, OnlineHardCases}
    ensures item.labels.answerability !in {ConflictingEvidence, NoEvidence, Forbidden} <==>
      item.labels.answerability in {Answerable, PartiallyAnswerable}
  {
    assert item.labels.answerability == Answerable || item.labels.answerability == PartiallyAnswerable ||
      item.labels.answerability == ConflictingEvidence || item.labels.answerability == NoEvidence ||
      item.labels.answerability == Forbidden;
    assert item.split == Dev || item.split == Test || item.split == Acceptance || item.split == OnlineHardCases;
  }

  lemma NeedsAreExact(m: Manifest, byId: map<nat, Record>, item: Item)
    ensures ExpertNeeded(m, item) <==> !GoesWithoutExpert(m, item)
    ensures HumanNeeded(item) <==> !GoesWithoutHuman(item)
    ensures AnyHuman(byId, item) <==> exists k :: k in item.recordIds && k in byId && byId[k].actor == Human
  {
    SplitIsOneOf(item);
    if t :| t in item.questionTypes && t in m.expertTypes {
      assert t in item.questionTypes * m.expertTypes;
    } else {
      assert item.questionTypes * m.expertTypes == {};
    }
    if k :| k in item.recordIds && k in byId && byId[k].actor == Human {
      assert byId[k] in RecordsOf(byId, item);
    }
  }

  /** When an item has each gap. */
  ghost predicate HasGap(m: Manifest, byId: map<nat, Record>, item: Item, g: Gap) {
    match g
    case MissingAnnotation(k) => k in item.recordIds && k !in byId
    case LacksReviewers => |(set k | k in Annotations(byId, item) :: IdentityOf(byId[k]))| < m.minimumAnnotators
    case NeedsTwoHumans =>
      |(set k | k in Annotations(byId, item) && byId[k].actor == Human :: byId[k].annotator)| < m.minimumAnnotators
    case StillDraft => item.status == Draft
    case NeedsDoubleHuman => item.status == GptAssisted
    case LacksGpt => item.status == GptAssisted && forall k :: k in Annotations(byId, item) ==> byId[k].actor != Gpt
    case GptConflict => item.status == GptAssisted && exists k :: k in Annotations(byId, item) && byId[k].labels != item.labels
    case LacksAgreement => item.agreement.None? && item.status != GptAssisted
    case NeedsAdjudication =>
      item.agreement.Some? && item.agreement.value < 1.0 && item.status !in {Adjudicated, ExpertReviewed}
    case ConsensusMismatch =>
      item.status == DoubleAnnotated && item.agreement.Some? && item.agreement.value >= 1.0 &&
      exists k :: k in Annotations(byId, item) && byId[k].labels != item.labels
    case NeedsExpert => !GoesWithoutExpert(m, item) && item.status != ExpertReviewed
    case NeedsHuman => !GoesWithoutHuman(item) && forall k :: k in item.recordIds && k in byId ==> byId[k].actor != Human
    case FinalMissing => item.finalId.Some? && item.finalId.value !in byId
    case FinalRole => item.finalId.Some? && item.finalId.value in byId &&
      byId[item.finalId.value].role != if item.status == ExpertReviewed then ExpertReviewer else Adjudicator
    case FinalNotHuman => item.finalId.Some? && item.finalId.value in byId && byId[item.finalId.value].actor != Human
    case FinalLabels => item.finalId.Some? && item.finalId.value in byId && byId[item.finalId.value].labels != item.labels
  }

  lemma {:induction false} MissingGapsAreExact(byId: map<nat, Record>, ids: seq<nat>, g: Gap)
    ensures g in MissingGaps(byId, ids) <==> g.MissingAnnotation? && g.record in ids && g.record !in byId
  {
    if ids != [] {
      MissingGapsAreExact(byId, ids[..|ids| - 1], g);
      assert ids == ids[..|ids| - 1] + [ids[|ids| - 1]];
    }
  }

  lemma WhenHolds(condition: bool, x: Gap, g: Gap)
    ensures g in When(condition, x) <==> condition && g == x
  {
  }

  lemma ReviewGapsAreExact(m: Manifest, byId: map<nat, Record>, item: Item, g: Gap)
    ensures g in ReviewGaps(m, byId, item) <==>
      (g.LacksReviewers? || g.NeedsTwoHumans? || g.StillDraft? || g.NeedsDoubleHuman? || g.LacksGpt? || g.GptConflict?) &&
      HasGap(m, byId, item, g)
  {
    hide When, Identities, Independent, IndependentHumans, AllMatch, NoneFromGpt, Annotations, IdentityOf;
    ReviewsAreExact(byId, item);
    WhenHolds(|Identities(Independent(byId, item))| < m.minimumAnnotators, LacksReviewers, g);
    WhenHolds(|IndependentHumans(byId, item)| < m.minimumAnnotators, NeedsTwoHumans, g);
    WhenHolds(item.status == Draft, StillDraft, g);
    WhenHolds(NoneFromGpt(byId, item), LacksGpt, g);
    WhenHolds(!AllMatch(byId, item), GptConflict, g);
  }

  lemma AgreementGapsAreExact(m: Manifest, byId: map<nat, Record>, item: Item, g: Gap)
    ensures g in AgreementGaps(byId, item) <==>
      (g.LacksAgreement? || g.NeedsAdjudication? || g.ConsensusMismatch?) && HasGap(m, byId, item, g)
  {
    hide AllMatch, NoneFromGpt, Identities, Independent, IndependentHumans, Annotations;
    ReviewsAreExact(byId, item);
  }

  lemma FinalGapsAreExact(m: Manifest, byId: map<nat, Record>, item: Item, g: Gap)
    ensures g in FinalGaps(byId, item) <==>
      (g.FinalMissing? || g.FinalRole? || g.FinalNotHuman? || g.FinalLabels?) && HasGap(m, byId, item, g)
  {
  }

  lemma GapsAreExact(m: Manifest, byId: map<nat, Record>, item: Item, g: Gap)
    ensures g in ItemGaps(m, byId, item) <==> HasGap(m, byId, item, g)
    ensures About(item.question, g) in ItemBlockers(m, byId, item) <==> HasGap(m, byId, item, g)
  {
    GapIsListed(m, byId, item, g);
    hide ItemGaps, HasGap;
    if g in ItemGaps(m, byId, item) {
      var i :| 0 <= i < |ItemGaps(m, byId, item)| && ItemGaps(m, byId, item)[i] == g;
      assert ItemBlockers(m, byId, item)[i] == About(item.question, g);
    }
  }

  lemma GapIsListed(m: Manifest, byId: map<nat, Record>, item: Item, g: Gap)
    ensures g in ItemGaps(m, byId, item) <==> HasGap(m, byId, item, g)
  {
    hide MissingGaps, ReviewGaps, AgreementGaps, FinalGaps, When, Identities, Independent, IndependentHumans, AllMatch, AnyHuman,
      NoneFromGpt, ExpertNeeded, HumanNeeded, GoesWithoutExpert, GoesWithoutHuman, FinalRoleOf, Annotations, IdentityOf;
    NeedsAreExact(m, byId, item);
    MissingGapsAreExact(byId, item.recordIds, g);
    ReviewGapsAreExact(m, byId, item, g);
    AgreementGapsAreExact(m, byId, item, g);
    FinalGapsAreExact(m, byId, item, g);
    WhenHolds(ExpertNeeded(m, item) && item.status != ExpertReviewed, NeedsExpert, g);
    WhenHolds(HumanNeeded(item) && !AnyHuman(byId, item), NeedsHuman, g);
  }

  lemma {:induction false} NothingKept(blockers: seq<Blocker>)
    ensures KeptOf(blockers) == [] <==> forall b :: b in blockers ==> !Kept(b)
  {
    if blockers != [] {
      var front, last := blockers[..|blockers| - 1], blockers[|blockers| - 1];
      NothingKept(front);
      assert blockers == front + [last];
    }
  }

  lemma {:induction false} StrataAreExact(items: seq<Item>, strata: seq<Stratum>)
    ensures forall b :: b in StrataBlockers(items, strata) ==> b.StratumRatio?
    ensures StrataBlockers(items, strata) == [] <==>
      forall s :: s in strata ==> s.least <= TypeRatio(items, s.questionType) <= s.most
  {
    hide TypeRatio;
    if strata != [] {
      StrataAreExact(items, strata[..|strata| - 1]);
      assert strata == strata[..|strata| - 1] + [strata[|strata| - 1]];
    }
  }

  /** The positions of the items of one split, and those of the items outside the hard cases, all of them or those of
      one type. */
  ghost function InSplit(items: seq<Item>, s: Split): set<nat> {
    set i | 0 <= i < |items| && items[i].split == s
  }

  ghost function Primary(items: seq<Item>): set<nat> {
    set i | 0 <= i < |items| && items[i].split in {Dev, Test, Acceptance}
  }

  ghost function PrimaryOfType(items: seq<Item>, t: nat): set<nat> {
    set i | 0 <= i < |items| && items[i].split in {Dev, Test, Acceptance} && t in items[i].questionTypes
  }

  lemma {:induction false} CountIsCardinality(items: seq<Item>, p: Item -> bool)
    ensures Count(items, p) == |set i | 0 <= i < |items| && p(items[i])|
  {
    var here := set i | 0 <= i < |items| && p(items[i]);
    if items == [] {
      assert here == {};
    } else {
      var n := |items| - 1;
      CountIsCardinality(items[..n], p);
      var before := set i | 0 <= i < |items[..n]| && p(items[..n][i]);
      if p(items[n]) {
        assert here == before + {n};
      } else {
        assert here == before;
      }
    }
  }

  lemma CountsAreSizes(items: seq<Item>, s: Split, t: nat)
    ensures PrimaryCount(items) == |Primary(items)| && SplitCount(items, s) == |InSplit(items, s)|
    ensures TypeCount(items, t) == |PrimaryOfType(items, t)|
  {
    CountIsCardinality(items, (i: Item) => i.split != OnlineHardCases);
    CountIsCardinality(items, (i: Item) => i.split == s);
    CountIsCardinality(items, (i: Item) => i.split != OnlineHardCases && t in i.questionTypes);
    assert Primary(items) == set i | 0 <= i < |items| && ((i: Item) => i.split != OnlineHardCases)(items[i]);
    assert InSplit(items, s) == set i | 0 <= i < |items| && ((i: Item) => i.split == s)(items[i]);
    assert PrimaryOfType(items, t) ==
      set i | 0 <= i < |items| && ((i: Item) => i.split != OnlineHardCases && t in i.questionTypes)(items[i]);
  }

  /** A share of the primary items: its number of items against the lower and upper bound times all of them. */
  ghost predicate Between(part: set<nat>, whole: set<nat>, low: real, high: real) {
    low * |whole| as real <= |part| as real <= high * |whole| as real
  }

  lemma RatioBetween(part: nat, whole: nat, low: real, high: real)
    requires whole > 0
    ensures low <= part as real / whole as real <= high <==> low * whole as real <= part as real <= high * whole as real
  {
    var ratio := part as real / whole as real;
    assert ratio * whole as real == part as real;
    Scaling(low, ratio, whole as real);
    Scaling(ratio, high, whole as real);
  }

  lemma Scaling(a: real, b: real, n: real)
    requires n > 0.0
    ensures a <= b <==> a * n <= b * n
  {
    assert b * n - a * n == (b - a) * n;
  }

  lemma WithinMeansBetween(ratio: real, target: real, tolerance: real)
    ensures ratio - target > tolerance || -(ratio - target) > tolerance <==> !(target - tolerance <= ratio <= target + tolerance)
  {
  }

  /** A split is within its tolerance when its number of items is within the target share of the primary items, more or
      less. */
  lemma ToleranceIsExact(items: seq<Item>, s: Split, target: real, tolerance: real)
    ensures OutsideTolerance(items, s, target, tolerance) <==>
      Primary(items) != {} && !Between(InSplit(items, s), Primary(items), target - tolerance, target + tolerance)
  {
    hide PrimaryCount, SplitCount, Primary, InSplit;
    CountsAreSizes(items, s, 0);
    if PrimaryCount(items) > 0 {
      RatioBetween(SplitCount(items, s), PrimaryCount(items), target - tolerance, target + tolerance);
      WithinMeansBetween(SplitCount(items, s) as real / PrimaryCount(items) as real, target, tolerance);
    }
  }

  lemma TypeRatioIsExact(items: seq<Item>, t: nat, low: real, high: real)
    ensures low <= TypeRatio(items, t) <= high <==>
      if Primary(items) == {} then low <= 0.0 <= high else Between(PrimaryOfType(items, t), Primary(items), low, high)
  {
    CountsAreSizes(items, Dev, t);
    hide PrimaryCount, TypeCount, Primary, PrimaryOfType;
    if PrimaryCount(items) > 0 {
      RatioBetween(TypeCount(items, t), PrimaryCount(items), low, high);
    }
  }

  /** The splits and strata of the corpus have the shares the manifest wants; without primary items no split is off and
      every stratum has share zero. */
  ghost predicate WellProportioned(m: Manifest, items: seq<Item>) {
    (Primary(items) != {} ==>
      Between(InSplit(items, Dev), Primary(items), m.devRatio - m.tolerance, m.devRatio + m.tolerance) &&
      Between(InSplit(items, Test), Primary(items), m.testRatio - m.tolerance, m.testRatio + m.tolerance) &&
      Between(InSplit(items, Acceptance), Primary(items), m.acceptanceRatio - m.tolerance, m.acceptanceRatio + m.tolerance)) &&
    forall s :: s in m.strata ==>
      if Primary(items) == {} then s.least <= 0.0 <= s.most
      else Between(PrimaryOfType(items, s.questionType), Primary(items), s.least, s.most)
  }

  lemma StrataAreMet(items: seq<Item>, strata: seq<Stratum>)
    ensures forall b :: b in StrataBlockers(items, strata) ==> b.StratumRatio?
    ensures StrataBlockers(items, strata) == [] <==>
      forall s :: s in strata ==>
        if Primary(items) == {} then s.least <= 0.0 <= s.most
        else Between(PrimaryOfType(items, s.questionType), Primary(items), s.least, s.most)
  {
    hide StrataBlockers, TypeRatio, Primary, PrimaryOfType, Between;
    StrataAreExact(items, strata);
    forall s | s in strata
      ensures s.least <= TypeRatio(items, s.questionType) <= s.most <==>
        if Primary(items) == {} then s.least <= 0.0 <= s.most
        else Between(PrimaryOfType(items, s.questionType), Primary(items), s.least, s.most)
    {
      TypeRatioIsExact(items, s.questionType, s.least, s.most);
    }
  }

  lemma CorpusBlockersAreExact(m: Manifest, items: seq<Item>)
    ensures WellProportioned(m, items) <==> forall b :: b in CorpusBlockers(m, items) ==> !Kept(b)
  {
    hide OutsideTolerance, StrataBlockers, Primary, InSplit, PrimaryOfType, Between, CorpusBlockers;
    StrataAreMet(items, m.strata);
    ToleranceIsExact(items, Dev, m.devRatio, m.tolerance);
    ToleranceIsExact(items, Test, m.testRatio, m.tolerance);
    ToleranceIsExact(items, Acceptance, m.acceptanceRatio, m.tolerance);
    KeptCorpusBlockers(m, items);
  }

  lemma KeptCorpusBlockers(m: Manifest, items: seq<Item>)
    requires forall b :: b in StrataBlockers(items, m.strata) ==> b.StratumRatio?
    ensures (forall b :: b in CorpusBlockers(m, items) ==> !Kept(b)) <==>
      !OutsideTolerance(items, Dev, m.devRatio, m.tolerance) && !OutsideTolerance(items, Test, m.testRatio, m.tolerance) &&
      !OutsideTolerance(items, Acceptance, m.acceptanceRatio, m.tolerance) && StrataBlockers(items, m.strata) == []
  {
    hide OutsideTolerance, PrimaryCount, StrataBlockers;
    var strata, all := StrataBlockers(items, m.strata), CorpusBlockers(m, items);
    assert forall b :: b in strata ==> b in all;
    assert strata != [] ==> strata[0] in strata;
    assert OutsideTolerance(items, Dev, m.devRatio, m.tolerance) ==> SplitRatio(Dev) in all;
    assert OutsideTolerance(items, Test, m.testRatio, m.tolerance) ==> SplitRatio(Test) in all;
    assert OutsideTolerance(items, Acceptance, m.acceptanceRatio, m.tolerance) ==> SplitRatio(Acceptance) in all;
  }

  lemma BlockerIsAbout(m: Manifest, byId: map<nat, Record>, item: Item, b: Blocker)
    requires b in ItemBlockers(m, byId, item)
    ensures b.About? && b.question == item.question
  {
    hide ItemGaps;
  }

  lemma NoGapsNoBlockers(m: Manifest, byId: map<nat, Record>, item: Item)
    requires forall g :: !HasGap(m, byId, item, g)
    ensures ItemBlockers(m, byId, item) == []
  {
    hide HasGap, ItemGaps;
    if ItemGaps(m, byId, item) != [] {
      GapsAreExact(m, byId, item, ItemGaps(m, byId, item)[0]);
    }
  }

  ghost predicate BlocksSome(m: Manifest, byId: map<nat, Record>, items: seq<Item>, b: Blocker) {
    exists i :: i in items && b in ItemBlockers(m, byId, i)
  }

  lemma {:induction false} BlockersOfItems(m: Manifest, byId: map<nat, Record>, items: seq<Item>, b: Blocker)
    ensures b in ItemsBlockers(m, byId, items) <==> BlocksSome(m, byId, items, b)
  {
    hide ItemBlockers;
    if items != [] {
      var front, last := items[..|items| - 1], items[|items| - 1];
      BlockersOfItems(m, byId, front, b);
      assert items == front + [last];
      if BlocksSome(m, byId, front, b) {
        var i :| i in front && b in ItemBlockers(m, byId, i);
        assert i in items;
      }
      assert last in items;
    }
  }

  /** What an item still needs for engineering use. */
  ghost predicate OnlyWaivedGaps(m: Manifest, byId: map<nat, Record>, item: Item) {
    forall g :: HasGap(m, byId, item, g) ==> g in {LacksReviewers, NeedsTwoHumans, NeedsDoubleHuman}
  }

  lemma ItemBlockersAreExact(m: Manifest, byId: map<nat, Record>, items: seq<Item>)
    ensures (forall b :: b in ItemsBlockers(m, byId, items) ==> !Kept(b)) <==>
      forall i :: i in items && i.question != PRIMARY_ITEM_COUNT ==> OnlyWaivedGaps(m, byId, i)
  {
    hide ItemBlockers, ItemsBlockers, HasGap;
    if forall b :: b in ItemsBlockers(m, byId, items) ==> !Kept(b) {
      forall i, g | i in items && i.question != PRIMARY_ITEM_COUNT && HasGap(m, byId, i, g) ensures IsWaived(g) {
        GapsAreExact(m, byId, i, g);
        BlockersOfItems(m, byId, items, About(i.question, g));
        assert BlocksSome(m, byId, items, About(i.question, g));
      }
    } else {
      var b :| b in ItemsBlockers(m, byId, items) && Kept(b);
      BlockersOfItems(m, byId, items, b);
      var i :| i in items && b in ItemBlockers(m, byId, i);
      BlockerIsAbout(m, byId, i, b);
      GapsAreExact(m, byId, i, b.gap);
      assert !OnlyWaivedGaps(m, byId, i);
    }
  }

  /** The items that need no expert, are not hard, and are meant for development or test; and those of them that a human
      has seen. */
  ghost function LowRiskItems(m: Manifest, items: seq<Item>): set<nat> {
    set i | 0 <= i < |items| && items[i].split in {Dev, Test} && items[i].difficulty in {Easy, Medium} &&
      GoesWithoutExpert(m, items[i])
  }

  ghost function SeenItems(m: Manifest, byId: map<nat, Record>, items: seq<Item>): set<nat> {
    set i | i in LowRiskItems(m, items) && SeenByHuman(byId, items[i])
  }

  ghost predicate SeenByHuman(byId: map<nat, Record>, item: Item) {
    exists k :: k in item.recordIds && k in byId && byId[k].actor == Human
  }

  /** There are low-risk items, and humans have seen at least a tenth of them. */
  ghost predicate Audited(m: Manifest, byId: map<nat, Record>, items: seq<Item>) {
    LowRiskItems(m, items) != {} && |LowRiskItems(m, items)| <= 10 * |SeenItems(m, byId, items)|
  }

  lemma AuditIsExact(m: Manifest, byId: map<nat, Record>, items: seq<Item>)
    ensures AuditRatio(m, byId, items) >= AUDIT_MIN_RATIO <==> Audited(m, byId, items)
  {
    hide LowRisk, GoesWithoutExpert, SeenByHuman, AnyHuman, LowRiskItems, SeenItems;
    LowRiskSizes(m, byId, items);
    var low, seen := LowRiskCount(m, items), LowRiskReviewed(m, byId, items);
    if low > 0 {
      RatioBetween(seen, low, 0.1, seen as real / low as real);
    }
  }

  lemma LowRiskSizes(m: Manifest, byId: map<nat, Record>, items: seq<Item>)
    ensures LowRiskCount(m, items) == |LowRiskItems(m, items)|
    ensures LowRiskReviewed(m, byId, items) == |SeenItems(m, byId, items)|
  {
    hide GoesWithoutExpert, ExpertNeeded, SeenByHuman, AnyHuman;
    CountIsCardinality(items, (i: Item) => LowRisk(m, i));
    CountIsCardinality(items, (i: Item) => LowRisk(m, i) && AnyHuman(byId, i));
    forall i | 0 <= i < |items|
      ensures LowRisk(m, items[i]) <==> i in LowRiskItems(m, items)
      ensures AnyHuman(byId, items[i]) <==> SeenByHuman(byId, items[i])
    {
      LowRiskMeans(m, byId, items[i]);
    }
    assert LowRiskItems(m, items) == set i | 0 <= i < |items| && ((i: Item) => LowRisk(m, i))(items[i]);
    assert SeenItems(m, byId, items) == set i | 0 <= i < |items| && ((i: Item) => LowRisk(m, i) && AnyHuman(byId, i))(items[i]);
  }

  lemma LowRiskMeans(m: Manifest, byId: map<nat, Record>, item: Item)
    ensures LowRisk(m, item) <==>
      item.split in {Dev, Test} && item.difficulty in {Easy, Medium} && GoesWithoutExpert(m, item)
    ensures AnyHuman(byId, item) <==> SeenByHuman(byId, item)
  {
    NeedsAreExact(m, byId, item);
    assert item.difficulty == Easy || item.difficulty == Medium || item.difficulty == Hard;
  }

  /** Engineering use demands the proportions, 500 primary items, the audit, and of every item that it has waived gaps
      only; but of an item whose question is named `primary_item_count` it demands nothing. */
  lemma EngineeringReadyExactly(m: Manifest, byId: map<nat, Record>, items: seq<Item>)
    ensures EngineeringReady(m, byId, items) <==>
      WellProportioned(m, items) && |Primary(items)| == 500 && Audited(m, byId, items) &&
      forall i :: i in items && i.question != PRIMARY_ITEM_COUNT ==> OnlyWaivedGaps(m, byId, i)
  {
    hide ItemsBlockers, CorpusBlockers, PrimaryCount, AuditRatio, KeptOf, Kept, OnlyWaivedGaps, WellProportioned, Primary, Audited;
    AuditIsExact(m, byId, items);
    CountsAreSizes(items, Dev, 0);
    NothingKept(AllBlockers(m, byId, items));
    CorpusBlockersAreExact(m, items);
    ItemBlockersAreExact(m, byId, items);
    assert forall b :: b in AllBlockers(m, byId, items) <==>
      b in CorpusBlockers(m, items) || b in ItemsBlockers(m, byId, items);
  }

  lemma RequiredReviewsAreThere(m: Manifest, byId: map<nat, Record>, item: Item)
    requires OnlyWaivedGaps(m, byId, item)
    ensures !GoesWithoutExpert(m, item) ==> item.status == ExpertReviewed
    ensures !GoesWithoutHuman(item) ==> exists k :: k in item.recordIds && k in byId && byId[k].actor == Human
    ensures item.status == GptAssisted || (item.status == DoubleAnnotated && item.agreement.Some? && item.agreement.value >= 1.0) ==>
      forall k :: k in Annotations(byId, item) ==> byId[k].labels == item.labels
    ensures item.status == GptAssisted ==> exists k :: k in Annotations(byId, item) && byId[k].actor == Gpt
  {
    hide GoesWithoutHuman, GoesWithoutExpert, Annotations;
    assert !HasGap(m, byId, item, NeedsExpert) && !HasGap(m, byId, item, NeedsHuman);
    assert !HasGap(m, byId, item, GptConflict) && !HasGap(m, byId, item, ConsensusMismatch) && !HasGap(m, byId, item, LacksGpt);
  }

  /** So every other item of an engineering-ready corpus is past drafting with all its records present, agreed or
      adjudicated, expert-reviewed and seen by a human where that is required, and its final record is a human's with
      its labels; a GPT-assisted one has a GPT annotation that no reviewer contradicts. */
  lemma EngineeringItemIsReviewed(m: Manifest, byId: map<nat, Record>, item: Item)
    requires ItemValid(item) && OnlyWaivedGaps(m, byId, item)
    ensures item.status != Draft && forall k :: k in item.recordIds ==> k in byId
    ensures item.agreement.None? ==> item.status == GptAssisted
    ensures item.agreement.Some? && item.agreement.value < 1.0 ==> item.status in {Adjudicated, ExpertReviewed}
    ensures item.status in {GptAssisted, DoubleAnnotated} ==>
      forall k :: k in Annotations(byId, item) ==> byId[k].labels == item.labels
    ensures item.status == GptAssisted ==> exists k :: k in Annotations(byId, item) && byId[k].actor == Gpt
    ensures !GoesWithoutExpert(m, item) ==> item.status == ExpertReviewed
    ensures !GoesWithoutHuman(item) ==> exists k :: k in item.recordIds && k in byId && byId[k].actor == Human
    ensures item.status in {Adjudicated, ExpertReviewed} ==> FinalReviewHolds(byId, item)
  {
    hide GoesWithoutHuman, GoesWithoutExpert, Annotations, IdentityOf;
    RequiredReviewsAreThere(m, byId, item);
    forall k | k in item.recordIds ensures k in byId {
      assert !HasGap(m, byId, item, MissingAnnotation(k));
    }
    assert !HasGap(m, byId, item, StillDraft);
    assert !HasGap(m, byId, item, LacksAgreement) && !HasGap(m, byId, item, NeedsAdjudication);
    assert !HasGap(m, byId, item, FinalMissing) && !HasGap(m, byId, item, FinalRole);
    assert !HasGap(m, byId, item, FinalNotHuman) && !HasGap(m, byId, item, FinalLabels);
  }

  // ---------------------------------------------------------------- the validation loops

  datatype ValidationError =
    | RepeatedQuestion | WrongDataset | LeakageAcrossSplits | RepeatedAnnotation
    | OrphanAnnotation | UnknownQuestion | BrokenLineage | CrossedItem

  datatype ValidationReport = ValidationReport(primaryCount: nat, lowRisk: nat, reviewed: nat, blockers: seq<Blocker>,
                                               lockReady: bool, engineeringReady: bool)

  ghost predicate NoLeak(items: seq<Item>) {
    forall i, k :: 0 <= i < |items| && 0 <= k < |items| && items[i].leakageGroup == items[k].leakageGroup ==>
      items[i].split == items[k].split
  }

  /** The splits met per leakage group. */
  ghost predicate GroupSplits(splits: map<nat, set<Split>>, items: seq<Item>) {
    (forall i :: 0 <= i < |items| ==> items[i].leakageGroup in splits && items[i].split in splits[items[i].leakageGroup]) &&
    forall g, s :: g in splits && s in splits[g] ==> exists i :: 0 <= i < |items| && items[i].leakageGroup == g && items[i].split == s
  }

  lemma OneSplitEach(splits: map<nat, set<Split>>, items: seq<Item>)
    requires GroupSplits(splits, items)
    ensures NoLeak(items) <==> forall g :: g in splits ==> |splits[g]| <= 1
  {
    if NoLeak(items) {
      forall g | g in splits ensures |splits[g]| <= 1 {
        if s :| s in splits[g] {
          assert splits[g] == {s};
        }
      }
    }
    if forall g :: g in splits ==> |splits[g]| <= 1 {
      forall i, k | 0 <= i < |items| && 0 <= k < |items| && items[i].leakageGroup == items[k].leakageGroup
        ensures items[i].split == items[k].split
      {
        var g := items[i].leakageGroup;
        SubsetCardinality({items[i].split, items[k].split}, splits[g]);
      }
    }
  }

  method CheckLeakage(items: seq<Item>) returns (ok: bool)
    ensures ok <==> NoLeak(items)
  {
    var splits: map<nat, set<Split>> := map[];
    for i := 0 to |items|
      invariant GroupSplits(splits, items[..i])
    {
      var g, seen := items[i].leakageGroup, if items[i].leakageGroup in splits then splits[items[i].leakageGroup] else {};
      MoreSplits(splits, items[..i], items[i]);
      assert items[..i + 1] == items[..i] + [items[i]];
      splits := splits[g := seen + {items[i].split}];
    }
    assert items[..|items|] == items;
    OneSplitEach(splits, items);
    ok := forall g :: g in splits ==> |splits[g]| <= 1;
  }

  lemma MoreSplits(splits: map<nat, set<Split>>, items: seq<Item>, item: Item)
    requires GroupSplits(splits, items)
    ensures var seen := if item.leakageGroup in splits then splits[item.leakageGroup] else {};
      GroupSplits(splits[item.leakageGroup := seen + {item.split}], items + [item])
  {
    var seen := if item.leakageGroup in splits then splits[item.leakageGroup] else {};
    var later, more := splits[item.leakageGroup := seen + {item.split}], items + [item];
    forall g, s | g in later && s in later[g]
      ensures exists i :: 0 <= i < |more| && more[i].leakageGroup == g && more[i].split == s
    {
      if g in splits && s in splits[g] {
        var i :| 0 <= i < |items| && items[i].leakageGroup == g && items[i].split == s;
        assert more[i] == items[i];
      } else {
        assert more[|items|] == item;
      }
    }
  }

  /** Why a record is refused: the first rule it breaks, in the order of the checks. */
  function RecordError(byId: map<nat, Record>, questions: set<nat>, dataset: nat, r: Record): Option<ValidationError> {
    if r.question !in questions then Some(UnknownQuestion)
    else if r.dataset != dataset then Some(WrongDataset)
    else if !LineageOk(byId, r) then Some(BrokenLineage)
    else None
  }

  ghost predicate RecordsLinked(annotations: seq<Record>, byId: map<nat, Record>, questions: set<nat>, dataset: nat) {
    forall i :: 0 <= i < |annotations| ==>
      annotations[i].question in questions && annotations[i].dataset == dataset && LineageOk(byId, annotations[i])
  }

  predicate ItemLinked(byId: map<nat, Record>, item: Item, dataset: nat) {
    forall k :: k in item.recordIds && k in byId ==> byId[k].question == item.question && byId[k].dataset == dataset
  }

  function Questions(items: seq<Item>): set<nat> {
    set i | 0 <= i < |items| :: items[i].question
  }

  function Referenced(items: seq<Item>): set<nat> {
    set i, k | 0 <= i < |items| && k in items[i].recordIds :: k
  }

  function QuestionIds(items: seq<Item>): seq<nat> {
    seq(|items|, i requires 0 <= i < |items| => items[i].question)
  }

  function RecordIds(records: seq<Record>): seq<nat> {
    seq(|records|, i requires 0 <= i < |records| => records[i].id)
  }

  /** What validation demands before it reports anything. */
  ghost predicate CorpusLinked(items: seq<Item>, annotations: seq<Record>, dataset: nat) {
    Distinct(QuestionIds(items)) && (forall i :: 0 <= i < |items| ==> items[i].dataset == dataset) && NoLeak(items) &&
    Distinct(RecordIds(annotations)) && ById(annotations).Keys <= Referenced(items) &&
    RecordsLinked(annotations, ById(annotations), Questions(items), dataset) &&
    forall i :: 0 <= i < |items| ==> ItemLinked(ById(annotations), items[i], dataset)
  }

  lemma {:induction false} ByIdContents(records: seq<Record>)
    ensures ById(records).Keys == Elements(RecordIds(records))
    ensures forall k :: k in ById(records) ==> ById(records)[k] in records
  {
    if records != [] {
      var front, last := records[..|records| - 1], records[|records| - 1];
      ByIdContents(front);
      assert records == front + [last];
      assert RecordIds(records) == RecordIds(front) + [last.id];
      assert Elements(RecordIds(records)) == Elements(RecordIds(front)) + {last.id};
    }
  }

  /** A validated corpus has well-founded lineage: its records are the ones the lineage theorems speak of. */
  lemma LinkedCorpusHasLineage(items: seq<Item>, annotations: seq<Record>, dataset: nat)
    requires CorpusLinked(items, annotations, dataset) && forall r :: r in annotations ==> RecordValid(r)
    ensures Lineage(ById(annotations))
  {
    hide LineageOk, RecordValid, NoLeak;
    ByIdContents(annotations);
    forall k | k in ById(annotations)
      ensures RecordValid(ById(annotations)[k]) && LineageOk(ById(annotations), ById(annotations)[k])
    {
      var i :| 0 <= i < |annotations| && annotations[i] == ById(annotations)[k];
    }
  }

  /** In a validated corpus, whatever a listed record is based on is listed by the same item: every record is listed
      somewhere, only under its own question, and questions are distinct. */
  lemma ParentsAreListed(items: seq<Item>, annotations: seq<Record>, dataset: nat, i: nat, k: nat, p: nat)
    requires CorpusLinked(items, annotations, dataset) && i < |items|
    requires k in items[i].recordIds && k in ById(annotations) && p in ById(annotations)[k].basedOn
    ensures p in ById(annotations) && p in items[i].recordIds
  {
    hide NoLeak, ById, Parents, Identities, Questions;
    var byId := ById(annotations);
    ByIdContents(annotations);
    var a :| 0 <= a < |annotations| && annotations[a] == byId[k];
    assert HasParent(byId, byId[k], p);
    var j :| 0 <= j < |items| && p in items[j].recordIds;
    assert ItemLinked(byId, items[i], dataset) && ItemLinked(byId, items[j], dataset);
    assert QuestionIds(items)[i] == QuestionIds(items)[j];
  }

  lemma AncestorsAreListed(items: seq<Item>, annotations: seq<Record>, dataset: nat, i: nat, k: nat)
    requires CorpusLinked(items, annotations, dataset) && i < |items| && k in items[i].recordIds &&
      k in ById(annotations)
    ensures AnnotatorAncestors(ById(annotations), ById(annotations)[k]) <= Independent(ById(annotations), items[i])
  {
    hide CorpusLinked, ById, IdentityOf;
    var byId := ById(annotations);
    forall x | x in AnnotatorAncestors(byId, byId[k]) ensures x in Independent(byId, items[i]) {
      if p :| p in byId[k].basedOn && p in byId && byId[p] == x && x.role == Annotator {
        ParentsAreListed(items, annotations, dataset, i, k, p);
      } else {
        var parent :| parent in Parents(byId, byId[k]) && x in Parents(byId, parent);
        var p :| p in byId[k].basedOn && p in byId && byId[p] == parent;
        var q :| q in parent.basedOn && q in byId && byId[q] == x;
        ParentsAreListed(items, annotations, dataset, i, k, p);
        ParentsAreListed(items, annotations, dataset, i, p, q);
      }
    }
  }

  /** So an adjudication or expert review listed by an item rests on at least two of that item's own independent
      reviewers. */
  lemma ReviewRestsOnItsItem(items: seq<Item>, annotations: seq<Record>, dataset: nat, i: nat, k: nat)
    requires CorpusLinked(items, annotations, dataset) && forall r :: r in annotations ==> RecordValid(r)
    requires i < |items| && k in items[i].recordIds && k in ById(annotations) && ById(annotations)[k].role != Annotator
    ensures Reviewers(ById(annotations), ById(annotations)[k]) <= Identities(Independent(ById(annotations), items[i]))
    ensures |Reviewers(ById(annotations), ById(annotations)[k])| >= 2
  {
    hide CorpusLinked, RecordValid, ById, AnnotatorAncestors, Independent, Lineage;
    LinkedCorpusHasLineage(items, annotations, dataset);
    ReviewsAreIndependent(ById(annotations), k);
    AncestorsAreListed(items, annotations, dataset, i, k);
  }

  /** Stops at the first record that breaks a rule, with the rule it breaks. */
  method CheckRecords(annotations: seq<Record>, byId: map<nat, Record>, questions: set<nat>, dataset: nat)
    returns (error: Option<ValidationError>)
    ensures error.None? <==> RecordsLinked(annotations, byId, questions, dataset)
    ensures error.Some? ==> exists i :: 0 <= i < |annotations| && RecordsLinked(annotations[..i], byId, questions, dataset) &&
                                        RecordError(byId, questions, dataset, annotations[i]) == error
  {
    hide LineageOk;
    for i := 0 to |annotations|
      invariant RecordsLinked(annotations[..i], byId, questions, dataset)
    {
      if annotations[i].question !in questions {
        return Some(UnknownQuestion);
      }
      if annotations[i].dataset != dataset {
        return Some(WrongDataset);
      }
      if !LineageOk(byId, annotations[i]) {
        return Some(BrokenLineage);
      }
    }
    assert annotations[..|annotations|] == annotations;
    error := None;
  }

  method CollectBlockers(m: Manifest, byId: map<nat, Record>, items: seq<Item>)
    returns (linked: bool, blockers: seq<Blocker>, lowRisk: nat, reviewed: nat)
    ensures linked <==> forall i :: 0 <= i < |items| ==> ItemLinked(byId, items[i], m.dataset)
    ensures linked ==> blockers == AllBlockers(m, byId, items) && lowRisk == LowRiskCount(m, items)
    ensures linked ==> reviewed == LowRiskReviewed(m, byId, items) && reviewed <= lowRisk
  {
    hide ItemLinked, ItemBlockers, CorpusBlockers, LowRisk, AnyHuman;
    blockers, lowRisk, reviewed := CorpusBlockers(m, items), 0, 0;
    for i := 0 to |items|
      invariant forall k :: 0 <= k < i ==> ItemLinked(byId, items[k], m.dataset)
      invariant blockers == CorpusBlockers(m, items) + ItemsBlockers(m, byId, items[..i])
      invariant lowRisk == LowRiskCount(m, items[..i]) && reviewed == LowRiskReviewed(m, byId, items[..i]) &&
        reviewed <= lowRisk
    {
      assert items[..i + 1][..i] == items[..i];
      if !ItemLinked(byId, items[i], m.dataset) {
        return false, blockers, lowRisk, reviewed;
      }
      blockers := blockers + ItemBlockers(m, byId, items[i]);
      if LowRisk(m, items[i]) {
        lowRisk := lowRisk + 1;
        if AnyHuman(byId, items[i]) {
          reviewed := reviewed + 1;
        }
      }
    }
    assert items[..|items|] == items;
    linked := true;
  }

  /** Reports exactly for a linked corpus, with the blockers of the corpus and of every item. */
  method ValidateCorpus(m: Manifest, items: seq<Item>, annotations: seq<Record>)
    returns (r: Result<ValidationReport, ValidationError>)
    ensures r.Ok? <==> CorpusLinked(items, annotations, m.dataset)
    ensures r.Ok? ==> r.value.blockers == AllBlockers(m, ById(annotations), items) && r.value.primaryCount == PrimaryCount(items)
    ensures r.Ok? ==> r.value.lockReady == LockReady(m, ById(annotations), items)
    ensures r.Ok? ==> r.value.engineeringReady == EngineeringReady(m, ById(annotations), items)
  {
    hide RecordsLinked, ItemLinked, AllBlockers, LowRiskCount, LowRiskReviewed, NoLeak, PrimaryCount, ById, KeptOf;
    var questions, ids := QuestionIds(items), RecordIds(annotations);
    DistinctByCount(questions);
    if |set q | q in questions| != |questions| {
      return Raised(RepeatedQuestion);
    }
    if exists i :: 0 <= i < |items| && items[i].dataset != m.dataset {
      return Raised(WrongDataset);
    }
    var sound := CheckLeakage(items);
    if !sound {
      return Raised(LeakageAcrossSplits);
    }
    DistinctByCount(ids);
    if |set k | k in ids| != |ids| {
      return Raised(RepeatedAnnotation);
    }
    var byId := ById(annotations);
    if !(byId.Keys <= Referenced(items)) {
      return Raised(OrphanAnnotation);
    }
    var error := CheckRecords(annotations, byId, Questions(items), m.dataset);
    if error.Some? {
      return Raised(error.value);
    }
    var linked, blockers, lowRisk, reviewed := CollectBlockers(m, byId, items);
    if !linked {
      return Raised(CrossedItem);
    }
    var ratio := if lowRisk == 0 then 0.0 else reviewed as real / lowRisk as real;
    r := Ok(ValidationReport(PrimaryCount(items), lowRisk, reviewed, blockers, blockers == [],
                             KeptOf(blockers) == [] && PrimaryCount(items) == ENGINEERING_TARGET &&
                               ratio >= AUDIT_MIN_RATIO));
  }

  lemma DistinctByCount(s: seq<nat>)
    ensures |set x | x in s| == |s| <==> Distinct(s)
  {
    assert (set x | x in s) == Elements(s);
    if |Elements(s)| == |s| {
      FullSetIsDistinct(s);
    }
    if Distinct(s) {
      DistinctCardinality(s);
    }
  }

  // ---------------------------------------------------------------- where the two kinds of readiness part

  const AGREED := Labels(Answerable, 0, 0)

  /** All items are wanted in one split. */
  function OneSplit(s: Split): Manifest {
    Manifest(ENGINEERING_TARGET, true, if s == Dev then 1.0 else 0.0, 0.0, if s == Dev then 0.0 else 1.0, 0.0, [], 2, {}, {}, 0)
  }

  /** Two people have annotated every question. They agree, and every item is agreed, save for question 0 if it is still
      a draft. */
  function PairItem(s: Split, draft: bool, n: nat): Item {
    if draft && n == 0 then Item(n, s, n, {1}, Easy, Draft, [2 * n, 2 * n + 1], None, None, AGREED, 0)
    else Item(n, s, n, {1}, Easy, DoubleAnnotated, [2 * n, 2 * n + 1], None, Some(1.0), AGREED, 0)
  }

  function PairRecord(k: nat): Record {
    Record(k, k / 2, Annotator, Human, k % 2, None, AGREED, [], 0)
  }

  function PairItems(s: Split, draft: bool, n: nat): seq<Item> { seq(n, i requires 0 <= i => PairItem(s, draft, i)) }
  function PairRecords(n: nat): seq<Record> { seq(2 * n, k requires 0 <= k => PairRecord(k)) }

  lemma {:induction false} ByIdLookup(records: seq<Record>, i: nat)
    requires Distinct(RecordIds(records)) && i < |records|
    ensures records[i].id in ById(records) && ById(records)[records[i].id] == records[i]
  {
    var front := records[..|records| - 1];
    assert RecordIds(front) == RecordIds(records)[..|front|];
    if i < |front| {
      ByIdLookup(front, i);
      assert RecordIds(records)[i] != RecordIds(records)[|front|];
    }
  }

  lemma {:induction false} CountIsAll(items: seq<Item>, p: Item -> bool)
    requires forall i :: 0 <= i < |items| ==> p(items[i])
    ensures Count(items, p) == |items|
  {
    if items != [] {
      CountIsAll(items[..|items| - 1], p);
    }
  }

  ghost predicate HasPair(byId: map<nat, Record>, n: nat) {
    2 * n in byId && byId[2 * n] == PairRecord(2 * n) && 2 * n + 1 in byId && byId[2 * n + 1] == PairRecord(2 * n + 1)
  }

  lemma PairLookup(n: nat, k: nat)
    requires k < n
    ensures HasPair(ById(PairRecords(n)), k)
  {
    assert forall i :: 0 <= i < 2 * n ==> RecordIds(PairRecords(n))[i] == i;
    ByIdLookup(PairRecords(n), 2 * k);
    ByIdLookup(PairRecords(n), 2 * k + 1);
  }

  lemma PairReviewers(byId: map<nat, Record>, s: Split, draft: bool, n: nat)
    requires HasPair(byId, n)
    ensures |Identities(Independent(byId, PairItem(s, draft, n)))| >= 2 &&
      |IndependentHumans(byId, PairItem(s, draft, n))| >= 2
    ensures AllMatch(byId, PairItem(s, draft, n))
  {
    var item, a, b := PairItem(s, draft, n), PairRecord(2 * n), PairRecord(2 * n + 1);
    assert a in RecordsOf(byId, item) && b in RecordsOf(byId, item);
    assert IdentityOf(a) in Identities(Independent(byId, item)) && IdentityOf(b) in Identities(Independent(byId, item));
    SubsetCardinality({IdentityOf(a), IdentityOf(b)}, Identities(Independent(byId, item)));
    assert a.annotator in IndependentHumans(byId, item) && b.annotator in IndependentHumans(byId, item);
    SubsetCardinality({a.annotator, b.annotator}, IndependentHumans(byId, item));
  }

  /** Only the draft is blocked. */
  lemma PairItemGaps(byId: map<nat, Record>, s: Split, draft: bool, n: nat)
    requires HasPair(byId, n)
    ensures AnyHuman(byId, PairItem(s, draft, n)) && !ExpertNeeded(OneSplit(s), PairItem(s, draft, n))
    ensures !(draft && n == 0) ==> forall g :: !HasGap(OneSplit(s), byId, PairItem(s, draft, n), g)
    ensures draft && n == 0 ==> HasGap(OneSplit(s), byId, PairItem(s, draft, n), StillDraft)
  {
    hide Identities, Independent, IndependentHumans, AllMatch, AnyHuman, NoneFromGpt, Annotations;
    PairReviewers(byId, s, draft, n);
    HumansAreRecorded(byId, PairItem(s, draft, n));
    ReviewsAreExact(byId, PairItem(s, draft, n));
  }

  lemma {:induction false} PairsAreUnblocked(byId: map<nat, Record>, s: Split, n: nat)
    requires forall k :: 0 <= k < n ==> HasPair(byId, k)
    ensures ItemsBlockers(OneSplit(s), byId, PairItems(s, false, n)) == []
  {
    hide ItemBlockers, HasGap, HasPair;
    if n > 0 {
      PairsAreUnblocked(byId, s, n - 1);
      PairItemGaps(byId, s, false, n - 1);
      NoGapsNoBlockers(OneSplit(s), byId, PairItem(s, false, n - 1));
      assert PairItems(s, false, n)[..n - 1] == PairItems(s, false, n - 1);
    }
  }

  lemma PairRecordsAreLinked(s: Split, draft: bool, n: nat)
    ensures RecordsLinked(PairRecords(n), ById(PairRecords(n)), Questions(PairItems(s, draft, n)), 0)
  {
    hide ById, Parents, Identities;
    forall k | 0 <= k < 2 * n ensures PairRecord(k).question in Questions(PairItems(s, draft, n)) {
      assert PairItems(s, draft, n)[k / 2].question == k / 2;
    }
  }

  lemma PairIdsAreDistinct(s: Split, draft: bool, n: nat)
    ensures Distinct(QuestionIds(PairItems(s, draft, n))) && Distinct(RecordIds(PairRecords(n)))
  {
    assert forall i :: 0 <= i < n ==> QuestionIds(PairItems(s, draft, n))[i] == i;
    assert forall k :: 0 <= k < 2 * n ==> RecordIds(PairRecords(n))[k] == k;
  }

  lemma PairRecordIsReferenced(s: Split, draft: bool, n: nat, k: nat)
    requires k < 2 * n
    ensures k in Referenced(PairItems(s, draft, n))
  {
    assert k in PairItems(s, draft, n)[k / 2].recordIds;
  }

  lemma PairRecordsAreReferenced(s: Split, draft: bool, n: nat)
    ensures ById(PairRecords(n)).Keys <= Referenced(PairItems(s, draft, n))
  {
    hide ById, Referenced;
    ByIdContents(PairRecords(n));
    forall k | k in ById(PairRecords(n)) ensures k in Referenced(PairItems(s, draft, n)) {
      assert k in Elements(RecordIds(PairRecords(n)));
      PairRecordIsReferenced(s, draft, n, k);
    }
  }

  lemma PairItemIsLinked(s: Split, draft: bool, n: nat, i: nat)
    requires i < n
    ensures ItemLinked(ById(PairRecords(n)), PairItems(s, draft, n)[i], 0)
  {
    PairLookup(n, i);
  }

  lemma PairCorpusIsLinked(s: Split, draft: bool, n: nat)
    ensures CorpusLinked(PairItems(s, draft, n), PairRecords(n), 0)
  {
    hide RecordsLinked, ItemLinked, ById, Referenced, Distinct, QuestionIds, RecordIds;
    PairRecordsAreLinked(s, draft, n);
    PairIdsAreDistinct(s, draft, n);
    PairRecordsAreReferenced(s, draft, n);
    forall i | 0 <= i < n ensures ItemLinked(ById(PairRecords(n)), PairItems(s, draft, n)[i], 0) {
      PairItemIsLinked(s, draft, n, i);
    }
  }

  lemma PairSizes(s: Split, draft: bool)
    requires s == Dev || s == Acceptance
    ensures PrimaryCount(PairItems(s, draft, ENGINEERING_TARGET)) == ENGINEERING_TARGET
    ensures CorpusBlockers(OneSplit(s), PairItems(s, draft, ENGINEERING_TARGET)) == []
  {
    hide Count;
    var items, other := PairItems(s, draft, ENGINEERING_TARGET), if s == Dev then Acceptance else Dev;
    CountIsAll(items, (i: Item) => i.split != OnlineHardCases);
    CountIsAll(items, (i: Item) => i.split == s);
    CountIsZero(items, (i: Item) => i.split == other);
    CountIsZero(items, (i: Item) => i.split == Test);
  }

  /** What every corpus that is read from files satisfies. */
  ghost predicate CorpusValid(m: Manifest, items: seq<Item>, annotations: seq<Record>) {
    ManifestValid(m) && (forall i :: i in items ==> ItemValid(i)) &&
    (forall r :: r in annotations ==> RecordValid(r)) &&
    CorpusLinked(items, annotations, m.dataset)
  }

  lemma PairCorpusIsValid(s: Split, draft: bool)
    ensures CorpusValid(OneSplit(s), PairItems(s, draft, ENGINEERING_TARGET), PairRecords(ENGINEERING_TARGET))
  {
    hide CorpusLinked, Distinct;
    PairCorpusIsLinked(s, draft, ENGINEERING_TARGET);
    forall i | i in PairItems(s, draft, ENGINEERING_TARGET) ensures ItemValid(i) {
      var k :| 0 <= k < ENGINEERING_TARGET && PairItem(s, draft, k) == i;
      PairItemIsValid(s, draft, k);
    }
    forall r | r in PairRecords(ENGINEERING_TARGET) ensures RecordValid(r) {
      PairRecordIsValid(r.id);
    }
  }

  lemma PairItemIsValid(s: Split, draft: bool, n: nat)
    ensures ItemValid(PairItem(s, draft, n))
  {
  }

  lemma PairRecordIsValid(k: nat)
    ensures RecordValid(PairRecord(k))
  {
  }

  lemma AllPairs(n: nat)
    ensures forall k :: 0 <= k < n ==> HasPair(ById(PairRecords(n)), k)
  {
    hide HasPair;
    forall k | 0 <= k < n ensures HasPair(ById(PairRecords(n)), k) {
      PairLookup(n, k);
    }
  }

  /** A valid corpus of 500 acceptance items, each agreed on by two people, may be locked but not used for engineering:
      it has no low-risk item, so its audit ratio counts as zero. */
  lemma BlindCorpusIsOnlyLockReady()
    ensures var m, items, annotations := OneSplit(Acceptance),
      PairItems(Acceptance, false, ENGINEERING_TARGET), PairRecords(ENGINEERING_TARGET);
      CorpusValid(m, items, annotations) && PrimaryCount(items) == ENGINEERING_TARGET &&
      LockReady(m, ById(annotations), items) && !EngineeringReady(m, ById(annotations), items)
  {
    hide ItemBlockers, CorpusLinked, ById, ItemsBlockers, EngineeringReady, HasPair;
    PairCorpusIsValid(Acceptance, false);
    AllPairs(ENGINEERING_TARGET);
    PairsAreUnblocked(ById(PairRecords(ENGINEERING_TARGET)), Acceptance, ENGINEERING_TARGET);
    PairSizes(Acceptance, false);
    LockReadyMeansEngineeringReady(OneSplit(Acceptance), ById(PairRecords(ENGINEERING_TARGET)),
                                   PairItems(Acceptance, false, ENGINEERING_TARGET));
  }

  lemma PairAudit(byId: map<nat, Record>, n: nat)
    requires n > 0 && forall k :: 0 <= k < n ==> HasPair(byId, k)
    ensures AuditRatio(OneSplit(Dev), byId, PairItems(Dev, true, n)) == 1.0
  {
    hide Count, AnyHuman, HasGap, HasPair, ExpertNeeded;
    var m, items := OneSplit(Dev), PairItems(Dev, true, n);
    forall k | 0 <= k < n ensures LowRisk(m, items[k]) && AnyHuman(byId, items[k]) {
      PairItemGaps(byId, Dev, true, k);
    }
    CountIsAll(items, (i: Item) => LowRisk(m, i));
    CountIsAll(items, (i: Item) => LowRisk(m, i) && AnyHuman(byId, i));
    WholeRatio(n);
  }

  /** A valid corpus of 500 dev items is ready for engineering use although its item named `primary_item_count` is still
      a draft. */
  lemma NamedDraftIsEngineeringReady()
    ensures var m, items, annotations := OneSplit(Dev),
      PairItems(Dev, true, ENGINEERING_TARGET), PairRecords(ENGINEERING_TARGET);
      CorpusValid(m, items, annotations) && EngineeringReady(m, ById(annotations), items) &&
      items[0].question == PRIMARY_ITEM_COUNT && items[0].status == Draft &&
      HasGap(m, ById(annotations), items[0], StillDraft)
  {
    hide ById, CorpusValid, EngineeringReady, HasGap, HasPair, AuditRatio, CorpusBlockers, WellProportioned, Audited, Primary;
    var m, items, byId := OneSplit(Dev), PairItems(Dev, true, ENGINEERING_TARGET), ById(PairRecords(ENGINEERING_TARGET));
    PairCorpusIsValid(Dev, true);
    AllPairs(ENGINEERING_TARGET);
    PairSizes(Dev, true);
    PairAudit(byId, ENGINEERING_TARGET);
    CorpusBlockersAreExact(m, items);
    forall i | i in items && i.question != PRIMARY_ITEM_COUNT ensures OnlyWaivedGaps(m, byId, i) {
      var k :| 0 <= k < |items| && items[k] == i;
      PairItemGaps(byId, Dev, true, k);
    }
    AuditIsExact(m, byId, items);
    CountsAreSizes(items, Dev, 0);
    EngineeringReadyExactly(m, byId, items);
    PairItemGaps(byId, Dev, true, 0);
  }
}
