/** Assisted candidates brought into a normal form. */
module CandidateNormalization {
  import opened Basics
  import opened FormalCorpus

  /** A text used as an identifier; `wellFormed` says that it has the syntax of one. */
  datatype Name = Name(number: nat, wellFormed: bool)

  /** A claim as the model wrote it; `None` stands for a missing or wrongly typed value, 0 for a blank text, and `extra`
      says that it has further keys. A claim that is not an object has none of the three values. */
  datatype Claim = Claim(id: Option<Name>, text: Option<nat>, required: Option<bool>, extra: bool)

  datatype Supports = Missing | NotList | Links(values: seq<Option<Name>>)

  /** A chunk that no evidence has stands for an unknown or missing chunk, and for a judgment that is not an object. */
  datatype RawJudgment = RawJudgment(chunk: Name, document: Option<Name>, pageStart: Option<int>, pageEnd: Option<int>,
                                     relevance: Relevance, supports: Supports, extra: bool)

  /** A relevance as the model wrote it: none, a JSON number, where true and false count as 1 and 0, a text that spells
      an integer, or anything else. */
  datatype Relevance = Absent | Number(value: real) | Numeral(whole: int) | Unusable

  /** A conversation turn; `well` says that role and content are usable. */
  datatype Turn = Turn(well: bool, content: nat, extra: bool)

  /** Free texts are numbered; `None` is a value that is not a text. The question and the cutoff date are only copied;
      `copied` says that an item may hold them. */
  datatype Candidate = Candidate(questionTypes: seq<nat>, route: nat, answerability: Answerability, claims: seq<Claim>,
                                 judgments: seq<RawJudgment>, answerPoints: seq<Option<nat>>, mustNotClaim: seq<Option<nat>>,
                                 citations: seq<Name>, documentIds: seq<Name>, history: seq<Turn>, copied: bool)

  datatype Source = Source(document: Name, pageStart: int, pageEnd: int)

  /** `slotOk` says that an item may hold what it takes from the slot alone: names, split, type, language and the
      like. */
  datatype Request = Request(primaryType: nat, answerability: Answerability, sourceDocuments: seq<Name>, evidence: map<Name, Source>,
                             slotOk: bool)

  const HYBRID_QA := 1

  datatype Action =
    | SetPrimaryType | SetRoute | DropDuplicateClaim | DefaultRequired | DropDuplicateJudgment
    | CanonicalizeMetadata | FilterClaimLinks
    | EnforceNegative | ClearNegative | DeriveCitations | SetDocuments

  datatype NormalizeError = AnswerabilityDrifts | InvalidClaim | UnknownChunk | SupportsNotList | InvalidRelevance

  predicate Negative(a: Answerability) {
    a in {NoEvidence, FormalCorpus.Forbidden}
  }

  // ---------------------------------------------------------------- claims

  predicate ClaimOk(c: Claim) {
    c.id.Some? && c.text.Some? && c.text.value != 0
  }

  function ClaimIds(claims: seq<Claim>): seq<Option<Name>> {
    seq(|claims|, i requires 0 <= i < |claims| => claims[i].id)
  }

  function WithRequired(c: Claim): Claim {
    if c.required.Some? then c else c.(required := Some(true))
  }

  /** The first claim of each identifier, with its default. */
  function KeptClaims(claims: seq<Claim>): seq<Claim> {
    if claims == [] then []
    else
      var before, last := KeptClaims(claims[..|claims| - 1]), claims[|claims| - 1];
      if last.id in ClaimIds(before) then before else before + [WithRequired(last)]
  }

  function ClaimActions(claims: seq<Claim>): seq<Action> {
    if claims == [] then []
    else
      var before, last := KeptClaims(claims[..|claims| - 1]), claims[|claims| - 1];
      ClaimActions(claims[..|claims| - 1]) +
      if last.id in ClaimIds(before) then [DropDuplicateClaim] else if last.required.None? then [DefaultRequired] else []
  }

  // ---------------------------------------------------------------- judgments

  function ValuesOf(s: Supports): seq<Option<Name>> {
    if s.Links? then s.values else []
  }

  /** Known claim links in order, each once. */
  function KnownLinks(links: seq<Option<Name>>, claimIds: seq<Option<Name>>): seq<Option<Name>> {
    if links == [] then []
    else
      var before, last := KnownLinks(links[..|links| - 1], claimIds), links[|links| - 1];
      if last.None? || last !in claimIds || last in before then before else before + [last]
  }

  function Smaller(a: int, b: int): int {
    if a <= b then a else b
  }

  /** Towards zero. */
  function Truncated(x: real): int {
    if x >= 0.0 then x.Floor else -((-x).Floor)
  }

  /** What converting to an integer gives; a missing relevance counts as zero. */
  function WholeOf(r: Relevance): Option<int> {
    match r
    case Absent => Some(0)
    case Number(x) => Some(Truncated(x))
    case Numeral(n) => Some(n)
    case Unusable => None
  }

  /** Only numbers, and the default for a missing one, compare with a number. */
  predicate Comparable(j: RawJudgment) {
    j.relevance.Absent? || j.relevance.Number?
  }

  predicate Supporting(j: RawJudgment) {
    j.relevance.Number? && j.relevance.value >= 2.0
  }

  predicate CanConvert(request: Request, j: RawJudgment) {
    Negative(request.answerability) ==> WholeOf(j.relevance).Some?
  }

  function NormalJudgment(request: Request, claimIds: seq<Option<Name>>, j: RawJudgment): RawJudgment
    requires j.chunk in request.evidence && CanConvert(request, j)
  {
    var source := request.evidence[j.chunk];
    var links := KnownLinks(ValuesOf(j.supports), claimIds);
    var canonical := RawJudgment(j.chunk, Some(source.document), Some(source.pageStart), Some(source.pageEnd), j.relevance,
                                 Links(links), j.extra);
    if Negative(request.answerability)
    then canonical.(relevance := Number(Smaller(WholeOf(j.relevance).value, 1) as real), supports := Links([]))
    else canonical
  }

  function JudgmentActions(request: Request, claimIds: seq<Option<Name>>, j: RawJudgment): seq<Action>
    requires j.chunk in request.evidence && CanConvert(request, j)
  {
    var source := request.evidence[j.chunk];
    var links := KnownLinks(ValuesOf(j.supports), claimIds);
    (if (j.document, j.pageStart, j.pageEnd) != (Some(source.document), Some(source.pageStart), Some(source.pageEnd))
     then [CanonicalizeMetadata] else []) +
    (if links != ValuesOf(j.supports) then [FilterClaimLinks] else []) +
    if Negative(request.answerability) && (WholeOf(j.relevance).value > 1 || links != []) then [EnforceNegative] else []
  }

  function ChunkIds(judgments: seq<RawJudgment>): (r: seq<Name>)
    ensures |r| == |judgments| && forall i :: 0 <= i < |r| ==> r[i] == judgments[i].chunk
  {
    seq(|judgments|, i requires 0 <= i < |judgments| => judgments[i].chunk)
  }

  datatype Judged = Judged(judgments: seq<RawJudgment>, actions: seq<Action>)

  /** The first judgment of each chunk, normalized, with the actions taken. */
  function JudgmentPass(request: Request, claimIds: seq<Option<Name>>,
                        judgments: seq<RawJudgment>): Result<Judged, NormalizeError> {
    if judgments == [] then Ok(Judged([], []))
    else
      var before, last := JudgmentPass(request, claimIds, judgments[..|judgments| - 1]), judgments[|judgments| - 1];
      if before.Raised? then before
      else if last.chunk !in request.evidence then Raised(UnknownChunk)
      else if last.chunk in ChunkIds(before.value.judgments) then
        Ok(before.value.(actions := before.value.actions + [DropDuplicateJudgment]))
      else if last.supports.NotList? then Raised(SupportsNotList)
      else if !CanConvert(request, last) then Raised(InvalidRelevance)
      else Ok(Judged(before.value.judgments + [NormalJudgment(request, claimIds, last)],
                     before.value.actions + JudgmentActions(request, claimIds, last)))
  }

  // ---------------------------------------------------------------- the candidate

  function Relevant(judgments: seq<RawJudgment>): seq<Name> {
    if judgments == [] then []
    else
      var last := judgments[|judgments| - 1];
      Relevant(judgments[..|judgments| - 1]) + if Supporting(last) then [last.chunk] else []
  }

  predicate Rated(judgments: seq<RawJudgment>) {
    forall i :: 0 <= i < |judgments| ==> Comparable(judgments[i])
  }

  function Texts(values: seq<Option<nat>>): seq<Option<nat>> {
    if values == [] then []
    else Texts(values[..|values| - 1]) + if values[|values| - 1].Some? then [values[|values| - 1]] else []
  }

  function Turns(history: seq<Turn>): seq<Turn> {
    if history == [] then []
    else Turns(history[..|history| - 1]) + if history[|history| - 1].well then [history[|history| - 1]] else []
  }

  /** Values in order of first occurrence. */
  function Unique<T(==)>(s: seq<T>): seq<T> {
    if s == [] then []
    else
      var before, last := Unique(s[..|s| - 1]), s[|s| - 1];
      if last in before then before else before + [last]
  }

  function If(condition: bool, action: Action): seq<Action> {
    if condition then [action] else []
  }

  datatype Outcome = Outcome(candidate: Candidate, actions: seq<Action>)

  function Normalized(request: Request, c: Candidate): Result<Outcome, NormalizeError> {
    if c.answerability != request.answerability then Raised(AnswerabilityDrifts)
    else if exists i :: 0 <= i < |c.claims| && !ClaimOk(c.claims[i]) then Raised(InvalidClaim)
    else
      var claims := KeptClaims(c.claims);
      var judged := JudgmentPass(request, ClaimIds(claims), c.judgments);
      if judged.Raised? then Raised(judged.error)
      else if !Rated(judged.value.judgments) then Raised(InvalidRelevance)
      else
        var negative := Negative(request.answerability);
        var citations, documents := Relevant(judged.value.judgments), Unique(request.sourceDocuments);
        var actions :=
          If(c.questionTypes != [request.primaryType], SetPrimaryType) + If(c.route != HYBRID_QA, SetRoute) + ClaimActions(c.claims) +
          judged.value.actions + If(negative && (claims != [] || c.answerPoints != []), ClearNegative) +
          If(c.citations != citations, DeriveCitations) + If(c.documentIds != documents, SetDocuments);
        Ok(Outcome(
          Candidate([request.primaryType], HYBRID_QA, c.answerability, if negative then [] else claims, judged.value.judgments,
                    if negative then [] else Texts(c.answerPoints), Texts(c.mustNotClaim), citations, documents,
                      Turns(c.history), c.copied),
          Unique(actions)))
  }

  // ---------------------------------------------------------------- claims are in normal form

  ghost predicate ClaimsNormal(claims: seq<Claim>) {
    Distinct(ClaimIds(claims)) && forall i :: 0 <= i < |claims| ==> ClaimOk(claims[i]) && claims[i].required.Some?
  }

  lemma {:induction false} KeptClaimsAreNormal(claims: seq<Claim>)
    requires forall i :: 0 <= i < |claims| ==> ClaimOk(claims[i])
    ensures ClaimsNormal(KeptClaims(claims))
  {
    if claims != [] {
      KeptClaimsAreNormal(claims[..|claims| - 1]);
      var before, last := KeptClaims(claims[..|claims| - 1]), claims[|claims| - 1];
      if last.id !in ClaimIds(before) {
        assert KeptClaims(claims) == before + [WithRequired(last)];
        assert ClaimIds(KeptClaims(claims)) == ClaimIds(before) + [last.id];
      }
    }
  }

  lemma {:induction false} NormalClaimsAreKept(claims: seq<Claim>)
    requires ClaimsNormal(claims)
    ensures KeptClaims(claims) == claims && ClaimActions(claims) == []
  {
    if claims != [] {
      var front, last := claims[..|claims| - 1], claims[|claims| - 1];
      assert ClaimIds(front) == ClaimIds(claims)[..|front|];
      NormalClaimsAreKept(front);
      assert last.id !in ClaimIds(front) by {
        forall i | 0 <= i < |front| ensures ClaimIds(front)[i] != last.id {
          assert ClaimIds(claims)[i] != ClaimIds(claims)[|front|];
        }
      }
      assert claims == front + [last];
    }
  }

  ghost predicate FirstOfItsId(claims: seq<Claim>, i: nat) {
    i < |claims| && forall k :: 0 <= k < i ==> claims[k].id != claims[i].id
  }

  /** The same claim, with `true` where it does not say whether it is required. */
  ghost predicate IsClaim(kept: Claim, raw: Claim) {
    kept.id == raw.id && kept.text == raw.text && kept.extra == raw.extra &&
    kept.required == if raw.required == None then Some(true) else raw.required
  }

  /** The kept claims are the first claims of each identifier, in their order; `rank` of them come before claim `i`. */
  lemma KeptClaimsExactly(claims: seq<Claim>, i: nat) returns (rank: nat)
    requires i < |claims|
    ensures forall x :: x in ClaimIds(KeptClaims(claims)) <==> x in ClaimIds(claims)
    ensures KeptClaims(claims[..i]) <= KeptClaims(claims) && rank == |KeptClaims(claims[..i])|
    ensures FirstOfItsId(claims, i) ==> rank < |KeptClaims(claims)| && IsClaim(KeptClaims(claims)[rank], claims[i])
    ensures !FirstOfItsId(claims, i) ==> KeptClaims(claims[..i + 1]) == KeptClaims(claims[..i])
  {
    KeptIds(claims);
    KeptIds(claims[..i]);
    KeptGrows(claims, i);
    KeptGrows(claims, i + 1);
    rank := |KeptClaims(claims[..i])|;
    var next := claims[..i + 1];
    assert next[..|next| - 1] == claims[..i] && next[|next| - 1] == claims[i];
    FirstIsNew(claims, i);
    if FirstOfItsId(claims, i) {
      assert KeptClaims(next)[rank] == WithRequired(claims[i]);
      assert KeptClaims(claims)[rank] == KeptClaims(next)[rank];
    }
  }

  lemma FirstIsNew(claims: seq<Claim>, i: nat)
    requires i < |claims|
    ensures FirstOfItsId(claims, i) <==> claims[i].id !in ClaimIds(claims[..i])
  {
    var ids := ClaimIds(claims[..i]);
    assert forall k :: 0 <= k < i ==> ids[k] == claims[k].id;
  }

  lemma {:induction false} KeptIds(claims: seq<Claim>)
    ensures forall x :: x in ClaimIds(KeptClaims(claims)) <==> x in ClaimIds(claims)
  {
    if claims != [] {
      var front, last := claims[..|claims| - 1], claims[|claims| - 1];
      KeptIds(front);
      assert ClaimIds(claims) == ClaimIds(front) + [last.id];
      if last.id !in ClaimIds(KeptClaims(front)) {
        assert ClaimIds(KeptClaims(claims)) == ClaimIds(KeptClaims(front)) + [last.id];
      }
    }
  }

  lemma {:induction false} KeptGrows(claims: seq<Claim>, n: nat)
    requires n <= |claims|
    ensures KeptClaims(claims[..n]) <= KeptClaims(claims)
    decreases |claims|
  {
    if n == |claims| {
      assert claims[..n] == claims;
    } else {
      var front := claims[..|claims| - 1];
      KeptGrows(front, n);
      assert front[..n] == claims[..n];
    }
  }

  // ---------------------------------------------------------------- judgments are in normal form

  ghost predicate LinksNormal(links: seq<Option<Name>>, claimIds: seq<Option<Name>>) {
    Distinct(links) && forall x :: x in links ==> x.Some? && x in claimIds
  }

  lemma {:induction false} KnownLinksAreNormal(links: seq<Option<Name>>, claimIds: seq<Option<Name>>)
    ensures LinksNormal(KnownLinks(links, claimIds), claimIds)
    ensures LinksNormal(links, claimIds) ==> KnownLinks(links, claimIds) == links
  {
    if links != [] {
      var front, last := links[..|links| - 1], links[|links| - 1];
      KnownLinksAreNormal(front, claimIds);
      assert links == front + [last];
      if LinksNormal(links, claimIds) {
        assert LinksNormal(front, claimIds);
        assert last in links && last !in front;
      }
    }
  }

  /** A link is kept exactly when it names a claim that is there, and the kept ones of a longer list go on from those of
      a shorter one: so they come in the order of their first occurrences. */
  lemma KnownLinksExactly(links: seq<Option<Name>>, claimIds: seq<Option<Name>>, n: nat)
    requires n <= |links|
    ensures forall x :: x in KnownLinks(links, claimIds) <==> x in links && x.Some? && x in claimIds
    ensures Distinct(KnownLinks(links, claimIds)) && KnownLinks(links[..n], claimIds) <= KnownLinks(links, claimIds)
  {
    KnownLinksAreNormal(links, claimIds);
    KnownLinksContents(links, claimIds);
    KnownLinksGrow(links, claimIds, n);
  }

  lemma {:induction false} KnownLinksContents(links: seq<Option<Name>>, claimIds: seq<Option<Name>>)
    ensures forall x :: x in KnownLinks(links, claimIds) <==> x in links && x.Some? && x in claimIds
  {
    if links != [] {
      var front, last := links[..|links| - 1], links[|links| - 1];
      KnownLinksContents(front, claimIds);
      assert links == front + [last];
    }
  }

  lemma {:induction false} KnownLinksGrow(links: seq<Option<Name>>, claimIds: seq<Option<Name>>, n: nat)
    requires n <= |links|
    ensures KnownLinks(links[..n], claimIds) <= KnownLinks(links, claimIds)
    decreases |links|
  {
    if n == |links| {
      assert links[..n] == links;
    } else {
      var front := links[..|links| - 1];
      KnownLinksGrow(front, claimIds, n);
      assert front[..n] == links[..n];
    }
  }

  predicate IsWhole(x: real) {
    x == Truncated(x) as real
  }

  ghost predicate JudgmentNormal(request: Request, claimIds: seq<Option<Name>>, j: RawJudgment) {
    j.chunk in request.evidence && j.supports.Links? && LinksNormal(j.supports.values, claimIds) &&
    var source := request.evidence[j.chunk];
    j.document == Some(source.document) && j.pageStart == Some(source.pageStart) && j.pageEnd == Some(source.pageEnd) &&
    (Negative(request.answerability) ==>
      j.supports.values == [] && j.relevance.Number? && IsWhole(j.relevance.value) && j.relevance.value <= 1.0)
  }

  ghost predicate JudgmentsNormal(request: Request, claimIds: seq<Option<Name>>, judgments: seq<RawJudgment>) {
    Distinct(ChunkIds(judgments)) && forall i :: 0 <= i < |judgments| ==>
      JudgmentNormal(request, claimIds, judgments[i])
  }

  lemma WholeIsWhole(n: int)
    ensures Truncated(n as real) == n && IsWhole(n as real)
  {
  }

  lemma NoLinksAreNormal(claimIds: seq<Option<Name>>)
    ensures LinksNormal([], claimIds)
  {
  }

  lemma NormalizedJudgmentIsNormal(request: Request, claimIds: seq<Option<Name>>, j: RawJudgment)
    requires j.chunk in request.evidence && CanConvert(request, j)
    ensures JudgmentNormal(request, claimIds, NormalJudgment(request, claimIds, j))
  {
    hide WholeOf, IsWhole, KnownLinks, LinksNormal;
    KnownLinksAreNormal(ValuesOf(j.supports), claimIds);
    NoLinksAreNormal(claimIds);
    if Negative(request.answerability) {
      WholeIsWhole(Smaller(WholeOf(j.relevance).value, 1));
    }
  }

  lemma NormalJudgmentIsKept(request: Request, claimIds: seq<Option<Name>>, j: RawJudgment)
    requires JudgmentNormal(request, claimIds, j)
    ensures CanConvert(request, j)
    ensures NormalJudgment(request, claimIds, j) == j && JudgmentActions(request, claimIds, j) == []
  {
    KnownLinksAreNormal(ValuesOf(j.supports), claimIds);
  }

  lemma {:induction false} JudgmentPassNormalizes(request: Request, claimIds: seq<Option<Name>>,
                                                  judgments: seq<RawJudgment>)
    ensures var r := JudgmentPass(request, claimIds, judgments); r.Ok? ==>
      JudgmentsNormal(request, claimIds, r.value.judgments)
  {
    hide JudgmentNormal, NormalJudgment, JudgmentActions;
    if judgments != [] {
      var last := judgments[|judgments| - 1];
      JudgmentPassNormalizes(request, claimIds, judgments[..|judgments| - 1]);
      var r := JudgmentPass(request, claimIds, judgments);
      if r.Ok? && last.chunk in request.evidence && CanConvert(request, last) {
        NormalizedJudgmentIsNormal(request, claimIds, last);
        assert NormalJudgment(request, claimIds, last).chunk == last.chunk by { NormalJudgmentChunk(request, claimIds, last); }
      }
    }
  }

  lemma NormalJudgmentChunk(request: Request, claimIds: seq<Option<Name>>, j: RawJudgment)
    requires j.chunk in request.evidence && CanConvert(request, j)
    ensures NormalJudgment(request, claimIds, j).chunk == j.chunk
  {
  }

  lemma {:induction false} NormalJudgmentsAreKept(request: Request, claimIds: seq<Option<Name>>,
                                                  judgments: seq<RawJudgment>)
    requires JudgmentsNormal(request, claimIds, judgments)
    ensures JudgmentPass(request, claimIds, judgments) == Ok(Judged(judgments, []))
  {
    hide NormalJudgment, JudgmentActions, LinksNormal;
    if judgments != [] {
      var front, last := judgments[..|judgments| - 1], judgments[|judgments| - 1];
      assert judgments == front + [last];
      assert ChunkIds(front) == ChunkIds(judgments)[..|front|];
      NormalJudgmentsAreKept(request, claimIds, front);
      assert JudgmentNormal(request, claimIds, last);
      NormalJudgmentIsKept(request, claimIds, last);
      var none: seq<Action> := [];
      assert none + none == none;
      assert last.chunk !in ChunkIds(front) by {
        forall i | 0 <= i < |front| ensures ChunkIds(front)[i] != last.chunk {
          assert ChunkIds(judgments)[i] != ChunkIds(judgments)[|front|];
        }
      }
    }
  }

  // ---------------------------------------------------------------- the candidate is in normal form

  lemma {:induction false} TextsAreKept(values: seq<Option<nat>>)
    ensures Texts(Texts(values)) == Texts(values)
  {
    if values != [] {
      var front := Texts(values[..|values| - 1]);
      TextsAreKept(values[..|values| - 1]);
      if values[|values| - 1].Some? {
        assert Texts(values) == front + [values[|values| - 1]] && Texts(values)[..|front|] == front;
      } else {
        assert Texts(values) == front;
      }
    }
  }

  lemma {:induction false} TurnsAreKept(history: seq<Turn>)
    ensures Turns(Turns(history)) == Turns(history)
  {
    if history != [] {
      var front := Turns(history[..|history| - 1]);
      TurnsAreKept(history[..|history| - 1]);
      if history[|history| - 1].well {
        assert Turns(history) == front + [history[|history| - 1]] && Turns(history)[..|front|] == front;
      } else {
        assert Turns(history) == front;
      }
    }
  }

  /** The normal form for a request. */
  ghost predicate IsNormal(request: Request, c: Candidate) {
    c.questionTypes == [request.primaryType] && c.route == HYBRID_QA && c.answerability == request.answerability &&
    ClaimsNormal(c.claims) && JudgmentsNormal(request, ClaimIds(c.claims), c.judgments) && Rated(c.judgments) &&
    (Negative(request.answerability) ==> c.claims == [] && c.answerPoints == []) &&
    c.citations == Relevant(c.judgments) && c.documentIds == Unique(request.sourceDocuments) &&
    Texts(c.answerPoints) == c.answerPoints && Texts(c.mustNotClaim) == c.mustNotClaim && Turns(c.history) == c.history
  }

  lemma {:induction false} NoLinksWithoutClaims(request: Request, claimIds: seq<Option<Name>>,
                                                judgments: seq<RawJudgment>)
    requires JudgmentsNormal(request, claimIds, judgments) && Negative(request.answerability)
    ensures JudgmentsNormal(request, [], judgments)
  {
    forall i | 0 <= i < |judgments| ensures JudgmentNormal(request, [], judgments[i]) {
      assert JudgmentNormal(request, claimIds, judgments[i]);
    }
  }

  /** Whatever is accepted comes out in normal form. */
  lemma NormalizationIsNormal(request: Request, c: Candidate)
    requires Normalized(request, c).Ok?
    ensures IsNormal(request, Normalized(request, c).value.candidate)
  {
    hide KeptClaims, JudgmentPass, JudgmentNormal, ClaimActions, Unique, Relevant, ClaimOk;
    KeptClaimsAreNormal(c.claims);
    JudgmentPassNormalizes(request, ClaimIds(KeptClaims(c.claims)), c.judgments);
    TextsAreKept(c.answerPoints);
    TextsAreKept(c.mustNotClaim);
    TurnsAreKept(c.history);
    if Negative(request.answerability) {
      var claimIds := ClaimIds(KeptClaims(c.claims));
      NoLinksWithoutClaims(request, claimIds, JudgmentPass(request, claimIds, c.judgments).value.judgments);
      assert ClaimIds([]) == [];
    }
  }

  /** A candidate in normal form is left alone, and no action is reported. */
  lemma NormalFormIsKept(request: Request, c: Candidate)
    requires IsNormal(request, c)
    ensures Normalized(request, c) == Ok(Outcome(c, []))
  {
    hide KeptClaims, JudgmentPass, JudgmentNormal, ClaimActions, Relevant, ClaimOk, Texts, Turns;
    NormalClaimsAreKept(c.claims);
    NormalJudgmentsAreKept(request, ClaimIds(c.claims), c.judgments);
    var none: seq<Action> := [];
    assert none + none == none && Unique(none) == none;
  }

  /** Normalizing again changes nothing and reports no action; nor does an accepted candidate ever fail on the second
      pass. */
  lemma NormalizationIsIdempotent(request: Request, c: Candidate)
    requires Normalized(request, c).Ok?
    ensures var first := Normalized(request, c).value.candidate; Normalized(request, first) == Ok(Outcome(first, []))
  {
    hide Normalized, IsNormal;
    NormalizationIsNormal(request, c);
    NormalFormIsKept(request, Normalized(request, c).value.candidate);
  }

  // ---------------------------------------------------------------- the item rules

  function SupportingChunks(c: Candidate): set<Name> {
    set i | 0 <= i < |c.judgments| && Supporting(c.judgments[i]) :: c.judgments[i].chunk
  }

  /** The relevance scale of an evaluation item. */
  predicate OnScale(j: RawJudgment) {
    j.relevance.Number? &&
      (j.relevance.value == 0.0 || j.relevance.value == 1.0 || j.relevance.value == 2.0 || j.relevance.value == 3.0)
  }

  predicate HasPages(j: RawJudgment) {
    j.document.Some? && j.pageStart.Some? && j.pageEnd.Some? && 1 <= j.pageStart.value <= j.pageEnd.value
  }

  predicate WellNamed(id: Option<Name>) {
    id.Some? && id.value.wellFormed
  }

  /** What each claim of an evaluation item must satisfy by itself. */
  predicate ClaimRules(c: Claim) {
    ClaimOk(c) && c.required.Some? && WellNamed(c.id) && !c.extra
  }

  /** What each judgment must satisfy by itself. */
  ghost predicate JudgmentRules(j: RawJudgment) {
    j.chunk.wellFormed && WellNamed(j.document) && HasPages(j) && OnScale(j) && !j.extra &&
    Distinct(ValuesOf(j.supports)) && forall x :: x in ValuesOf(j.supports) ==> WellNamed(x)
  }

  ghost predicate AllWellFormed(names: seq<Name>) {
    forall x :: x in names ==> x.wellFormed
  }

  /** The rules for the evaluation item made from a slot and a candidate, field by field and together. */
  ghost predicate ItemRules(request: Request, c: Candidate) {
    request.slotOk && c.copied && c.questionTypes != [] && Distinct(c.questionTypes) &&
    Distinct(c.citations) && AllWellFormed(c.citations) && Distinct(c.documentIds) && AllWellFormed(c.documentIds) &&
    (forall i :: 0 <= i < |c.claims| ==> ClaimRules(c.claims[i])) && Distinct(ClaimIds(c.claims)) &&
    (forall i :: 0 <= i < |c.judgments| ==> JudgmentRules(c.judgments[i])) && Distinct(ChunkIds(c.judgments)) &&
    (forall i, x :: 0 <= i < |c.judgments| && x in ValuesOf(c.judgments[i].supports) ==> x in ClaimIds(c.claims)) &&
    (forall x :: x in c.answerPoints || x in c.mustNotClaim ==> x.Some?) &&
    (forall t :: t in c.history ==> t.well && !t.extra) &&
    (forall x :: x in c.citations ==> x in SupportingChunks(c)) &&
    (Negative(c.answerability) ==> SupportingChunks(c) == {}) &&
    (!Negative(c.answerability) ==> SupportingChunks(c) != {})
  }

  lemma {:induction false} UniqueIsDistinct<T>(s: seq<T>)
    ensures Distinct(Unique(s)) && forall x :: x in Unique(s) <==> x in s
  {
    if s != [] {
      UniqueIsDistinct(s[..|s| - 1]);
      assert s == s[..|s| - 1] + [s[|s| - 1]];
    }
  }

  ghost predicate JudgedRelevant(judgments: seq<RawJudgment>, x: Name) {
    exists i :: 0 <= i < |judgments| && judgments[i].chunk == x && Supporting(judgments[i])
  }

  lemma {:induction false} RelevantAreJudged(judgments: seq<RawJudgment>)
    ensures forall x :: x in Relevant(judgments) ==> JudgedRelevant(judgments, x)
  {
    if judgments != [] {
      var front, last := judgments[..|judgments| - 1], judgments[|judgments| - 1];
      RelevantAreJudged(front);
      forall x | x in Relevant(judgments) ensures JudgedRelevant(judgments, x) {
        if x in Relevant(front) {
          assert JudgedRelevant(front, x);
          var i :| 0 <= i < |front| && front[i].chunk == x && Supporting(front[i]);
          assert judgments[i] == front[i];
        } else {
          assert judgments[|front|] == last;
        }
      }
    }
  }

  lemma {:induction false} RelevantAreDistinct(judgments: seq<RawJudgment>)
    requires Distinct(ChunkIds(judgments))
    ensures Distinct(Relevant(judgments))
  {
    if judgments != [] {
      var front, last := judgments[..|judgments| - 1], judgments[|judgments| - 1];
      assert ChunkIds(front) == ChunkIds(judgments)[..|front|];
      RelevantAreDistinct(front);
      RelevantAreJudged(front);
      forall x | x in Relevant(front) ensures x != last.chunk {
        assert JudgedRelevant(front, x);
        var i :| 0 <= i < |front| && front[i].chunk == x;
        assert ChunkIds(judgments)[i] == x && ChunkIds(judgments)[|front|] == last.chunk;
      }
      assert last.chunk !in Relevant(front);
      if Supporting(last) {
        assert Relevant(judgments) == Relevant(front) + [last.chunk];
      } else {
        assert Relevant(judgments) == Relevant(front);
      }
    }
  }

  lemma {:induction false} TextsAreTexts(values: seq<Option<nat>>)
    ensures forall x :: x in Texts(values) ==> x.Some?
  {
    if values != [] {
      TextsAreTexts(values[..|values| - 1]);
    }
  }

  lemma {:induction false} TurnsAreWell(history: seq<Turn>)
    ensures forall t :: t in Turns(history) ==> t.well
  {
    if history != [] {
      TurnsAreWell(history[..|history| - 1]);
    }
  }

  predicate ClaimFits(c: Claim) {
    WellNamed(c.id) && !c.extra
  }

  predicate JudgmentFits(j: RawJudgment) {
    j.chunk.wellFormed && WellNamed(j.document) && HasPages(j) && OnScale(j) && !j.extra
  }

  ghost predicate EachFits(claims: seq<Claim>) {
    forall i :: 0 <= i < |claims| ==> ClaimFits(claims[i])
  }

  lemma NoClaimFits()
    ensures EachFits([]) && FirstClaimsFit([])
  {
  }

  lemma OneMoreFits(claims: seq<Claim>, last: Claim)
    ensures EachFits(claims + [last]) <==> EachFits(claims) && ClaimFits(last)
  {
    hide ClaimFits;
    assert forall i :: 0 <= i < |claims| ==> (claims + [last])[i] == claims[i];
    assert (claims + [last])[|claims|] == last;
  }

  /** What is left of the item rules for a candidate in normal form. */
  ghost predicate NormalFits(request: Request, c: Candidate) {
    request.slotOk && c.copied && AllWellFormed(c.documentIds) && (forall t :: t in c.history ==> !t.extra) &&
    EachFits(c.claims) && (forall i :: 0 <= i < |c.judgments| ==> JudgmentFits(c.judgments[i])) &&
    (!Negative(c.answerability) ==> exists i :: 0 <= i < |c.judgments| && Supporting(c.judgments[i]))
  }

  lemma SupportingJudgment(c: Candidate, i: nat)
    requires i < |c.judgments| && Supporting(c.judgments[i])
    ensures c.judgments[i].chunk in SupportingChunks(c)
  {
  }

  lemma NormalFormMeetsItemRules(request: Request, c: Candidate)
    requires IsNormal(request, c)
    ensures ItemRules(request, c) <==> NormalFits(request, c)
  {
    hide Relevant, Unique, Texts, Turns, ClaimOk, OnScale, HasPages, Negative;
    RelevantAreDistinct(c.judgments);
    RelevantAreJudged(c.judgments);
    UniqueIsDistinct(request.sourceDocuments);
    TextsAreTexts(c.answerPoints);
    TextsAreTexts(c.mustNotClaim);
    TurnsAreWell(c.history);
    forall x | x in c.citations ensures x in SupportingChunks(c) {
      assert JudgedRelevant(c.judgments, x);
    }
    forall i | 0 <= i < |c.judgments| ensures JudgmentNormal(request, ClaimIds(c.claims), c.judgments[i]) {
    }
    assert Negative(c.answerability) ==> SupportingChunks(c) == {};
    if ItemRules(request, c) {
      forall i | 0 <= i < |c.judgments| ensures JudgmentFits(c.judgments[i]) {
        assert JudgmentRules(c.judgments[i]);
      }
      forall i | 0 <= i < |c.claims| ensures ClaimFits(c.claims[i]) {
        assert ClaimRules(c.claims[i]);
      }
    }
    if NormalFits(request, c) {
      forall i, x | 0 <= i < |c.judgments| && x in ValuesOf(c.judgments[i].supports) ensures WellNamed(x) {
        var k :| 0 <= k < |c.claims| && ClaimIds(c.claims)[k] == x;
        assert ClaimFits(c.claims[k]);
      }
      forall x | x in c.citations ensures x.wellFormed {
        assert JudgedRelevant(c.judgments, x);
      }
      if i :| 0 <= i < |c.judgments| && Supporting(c.judgments[i]) {
        SupportingJudgment(c, i);
      }
    }
  }

  // ---------------------------------------------------------------- the item rules, as seen before normalization

  /** The first occurrence of its value. */
  predicate IsFirst<T(==)>(s: seq<T>, i: int) {
    0 <= i < |s| && s[i] !in s[..i]
  }

  lemma FirstInLonger<T>(front: seq<T>, last: T)
    ensures forall i :: 0 <= i < |front| ==> (IsFirst(front + [last], i) <==> IsFirst(front, i))
    ensures IsFirst(front + [last], |front|) <==> last !in front
  {
    var s := front + [last];
    assert forall i :: 0 <= i < |front| ==> s[..i] == front[..i];
    assert s[..|front|] == front;
  }

  ghost predicate FirstClaimsFit(claims: seq<Claim>) {
    forall i :: IsFirst(ClaimIds(claims), i) ==> ClaimFits(claims[i])
  }

  lemma OneMoreFirst(claims: seq<Claim>, last: Claim)
    ensures FirstClaimsFit(claims + [last]) <==> FirstClaimsFit(claims) && (last.id in ClaimIds(claims) || ClaimFits(last))
  {
    hide ClaimFits;
    var longer := claims + [last];
    assert ClaimIds(longer) == ClaimIds(claims) + [last.id];
    FirstInLonger(ClaimIds(claims), last.id);
    forall i | 0 <= i < |claims|
      ensures longer[i] == claims[i] && (IsFirst(ClaimIds(longer), i) <==> IsFirst(ClaimIds(claims), i))
    {
    }
    assert longer[|claims|] == last;
  }

  lemma {:induction false} KeptClaimsFit(claims: seq<Claim>)
    ensures forall x :: x in ClaimIds(KeptClaims(claims)) <==> x in ClaimIds(claims)
    ensures EachFits(KeptClaims(claims)) <==> FirstClaimsFit(claims)
  {
    NoClaimFits();
    hide EachFits, FirstClaimsFit;
    if claims != [] {
      var front, last := claims[..|claims| - 1], claims[|claims| - 1];
      KeptClaimsFit(front);
      var before := KeptClaims(front);
      assert claims == front + [last] && ClaimIds(claims) == ClaimIds(front) + [last.id];
      OneMoreFirst(front, last);
      if last.id in ClaimIds(before) {
        assert KeptClaims(claims) == before;
      } else {
        OneMoreFits(before, WithRequired(last));
        assert KeptClaims(claims) == before + [WithRequired(last)];
        assert ClaimIds(KeptClaims(claims)) == ClaimIds(before) + [last.id];
      }
    }
  }

  /** What a raw judgment needs, for its request: names with the syntax of identifiers, no further keys, real pages in
      the evidence, and a relevance on the scale; for a negative item one that does not truncate below zero is
      enough. */
  predicate RawFits(request: Request, j: RawJudgment) {
    j.chunk.wellFormed && !j.extra && j.chunk in request.evidence &&
    var source := request.evidence[j.chunk];
    source.document.wellFormed && 1 <= source.pageStart <= source.pageEnd &&
    if Negative(request.answerability) then WholeOf(j.relevance).Some? && WholeOf(j.relevance).value >= 0 else OnScale(j)
  }

  lemma NormalJudgmentFits(request: Request, claimIds: seq<Option<Name>>, j: RawJudgment)
    requires j.chunk in request.evidence && CanConvert(request, j)
    ensures JudgmentFits(NormalJudgment(request, claimIds, j)) <==> RawFits(request, j)
    ensures !Negative(request.answerability) ==> (Supporting(NormalJudgment(request, claimIds, j)) <==> Supporting(j))
  {
    hide KnownLinks, Truncated;
  }

  ghost predicate FirstJudgmentsFit(request: Request, judgments: seq<RawJudgment>) {
    forall i :: IsFirst(ChunkIds(judgments), i) ==> RawFits(request, judgments[i])
  }

  ghost predicate FirstSupports(judgments: seq<RawJudgment>) {
    exists i :: IsFirst(ChunkIds(judgments), i) && Supporting(judgments[i])
  }

  /** What a pass over the judgments kept, seen from the judgments it was given. */
  ghost predicate SeenBefore(request: Request, kept: seq<RawJudgment>, judgments: seq<RawJudgment>) {
    (forall x :: x in ChunkIds(kept) <==> x in ChunkIds(judgments)) &&
    ((forall i :: 0 <= i < |kept| ==> JudgmentFits(kept[i])) <==> FirstJudgmentsFit(request, judgments)) &&
    (!Negative(request.answerability) ==> ((exists i :: 0 <= i < |kept| && Supporting(kept[i])) <==> FirstSupports(judgments)))
  }

  lemma OneMoreSeen(request: Request, kept: seq<RawJudgment>, judgments: seq<RawJudgment>, last: RawJudgment,
                    normal: RawJudgment)
    requires SeenBefore(request, kept, judgments) && normal.chunk == last.chunk
    requires JudgmentFits(normal) <==> RawFits(request, last)
    requires !Negative(request.answerability) ==> (Supporting(normal) <==> Supporting(last))
    ensures SeenBefore(request, if last.chunk in ChunkIds(kept) then kept else kept + [normal], judgments + [last])
  {
    hide JudgmentFits, RawFits, Supporting, Negative;
    var longer, more := judgments + [last], kept + [normal];
    assert ChunkIds(longer) == ChunkIds(judgments) + [last.chunk];
    FirstInLonger(ChunkIds(judgments), last.chunk);
    assert forall i :: 0 <= i < |judgments| ==> longer[i] == judgments[i];
    assert longer[|judgments|] == last;
    if last.chunk in ChunkIds(kept) {
      SameFirst(request, judgments, last);
    } else {
      assert ChunkIds(more) == ChunkIds(kept) + [normal.chunk];
      assert forall i :: 0 <= i < |kept| ==> more[i] == kept[i];
      assert more[|kept|] == normal;
      MoreFirst(request, judgments, last);
    }
  }

  lemma SameFirst(request: Request, judgments: seq<RawJudgment>, last: RawJudgment)
    requires last.chunk in ChunkIds(judgments)
    ensures FirstJudgmentsFit(request, judgments + [last]) <==> FirstJudgmentsFit(request, judgments)
    ensures FirstSupports(judgments + [last]) <==> FirstSupports(judgments)
  {
    hide RawFits, Supporting;
    var longer := judgments + [last];
    assert ChunkIds(longer) == ChunkIds(judgments) + [last.chunk];
    FirstInLonger(ChunkIds(judgments), last.chunk);
    forall i | 0 <= i < |judgments|
      ensures longer[i] == judgments[i] && (IsFirst(ChunkIds(longer), i) <==> IsFirst(ChunkIds(judgments), i))
    {
    }
  }

  lemma MoreFirst(request: Request, judgments: seq<RawJudgment>, last: RawJudgment)
    requires last.chunk !in ChunkIds(judgments)
    ensures FirstJudgmentsFit(request, judgments + [last]) <==>
      FirstJudgmentsFit(request, judgments) && RawFits(request, last)
    ensures FirstSupports(judgments + [last]) <==> FirstSupports(judgments) || Supporting(last)
  {
    hide RawFits, Supporting;
    var longer := judgments + [last];
    assert ChunkIds(longer) == ChunkIds(judgments) + [last.chunk];
    FirstInLonger(ChunkIds(judgments), last.chunk);
    forall i | 0 <= i < |judgments|
      ensures longer[i] == judgments[i] && (IsFirst(ChunkIds(longer), i) <==> IsFirst(ChunkIds(judgments), i))
    {
    }
    assert longer[|judgments|] == last && IsFirst(ChunkIds(longer), |judgments|);
  }

  lemma NothingSeen(request: Request)
    ensures SeenBefore(request, [], [])
  {
  }

  lemma {:induction false} PassSees(request: Request, claimIds: seq<Option<Name>>, judgments: seq<RawJudgment>)
    requires JudgmentPass(request, claimIds, judgments).Ok?
    ensures SeenBefore(request, JudgmentPass(request, claimIds, judgments).value.judgments, judgments)
  {
    NothingSeen(request);
    hide NormalJudgment, JudgmentActions, JudgmentFits, RawFits, Supporting, CanConvert, SeenBefore;
    if judgments != [] {
      var front, last := judgments[..|judgments| - 1], judgments[|judgments| - 1];
      PassSees(request, claimIds, front);
      assert judgments == front + [last];
      var kept := JudgmentPass(request, claimIds, front).value.judgments;
      if last.chunk in ChunkIds(kept) {
        DroppedIsSeen(request, kept, front, last);
      } else {
        NormalJudgmentFits(request, claimIds, last);
        NormalJudgmentChunk(request, claimIds, last);
        OneMoreSeen(request, kept, front, last, NormalJudgment(request, claimIds, last));
      }
    }
  }

  lemma DroppedIsSeen(request: Request, kept: seq<RawJudgment>, judgments: seq<RawJudgment>, last: RawJudgment)
    requires SeenBefore(request, kept, judgments) && last.chunk in ChunkIds(kept)
    ensures SeenBefore(request, kept, judgments + [last])
  {
    hide JudgmentFits, RawFits, Supporting;
    assert ChunkIds(judgments + [last]) == ChunkIds(judgments) + [last.chunk];
    SameFirst(request, judgments, last);
  }

  lemma {:induction false} TurnsKept(history: seq<Turn>)
    ensures forall t :: t in Turns(history) <==> t in history && t.well
  {
    if history != [] {
      TurnsKept(history[..|history| - 1]);
      assert history == history[..|history| - 1] + [history[|history| - 1]];
    }
  }

  /** What a raw candidate needs so that its normal form becomes an item. */
  ghost predicate FitsItem(request: Request, c: Candidate) {
    request.slotOk && c.copied && AllWellFormed(request.sourceDocuments) &&
    (forall t :: t in c.history && t.well ==> !t.extra) &&
    FirstJudgmentsFit(request, c.judgments) &&
    (!Negative(request.answerability) ==> FirstClaimsFit(c.claims) && FirstSupports(c.judgments))
  }

  /** An accepted candidate meets the item rules exactly when the request and the raw candidate fit. */
  lemma NormalizedMeetsItemRules(request: Request, c: Candidate)
    requires Normalized(request, c).Ok?
    ensures ItemRules(request, Normalized(request, c).value.candidate) <==> FitsItem(request, c)
  {
    hide ItemRules, IsNormal, KeptClaims, JudgmentPass, ClaimActions, Unique, Relevant, Turns, Texts, ClaimOk, FirstClaimsFit,
      FirstJudgmentsFit, FirstSupports, ClaimFits, JudgmentFits, Supporting, Negative;
    NormalizationIsNormal(request, c);
    NormalFormMeetsItemRules(request, Normalized(request, c).value.candidate);
    KeptClaimsFit(c.claims);
    PassSees(request, ClaimIds(KeptClaims(c.claims)), c.judgments);
    UniqueIsDistinct(request.sourceDocuments);
    TurnsKept(c.history);
  }

  // ---------------------------------------------------------------- what is accepted, as seen before normalization

  /** What the first judgment of a chunk needs to get through: supports that are a list if they are there, and a
      relevance that converts to an integer, or, for an answerable question, one that is not a text. */
  ghost predicate Passable(request: Request, j: RawJudgment) {
    !j.supports.NotList? &&
    if request.answerability in {NoEvidence, FormalCorpus.Forbidden} then !j.relevance.Unusable?
    else j.relevance.Absent? || j.relevance.Number?
  }

  ghost predicate FirstJudgmentsPass(request: Request, judgments: seq<RawJudgment>) {
    (forall i :: 0 <= i < |judgments| ==> judgments[i].chunk in request.evidence) &&
    forall i :: IsFirst(ChunkIds(judgments), i) ==> Passable(request, judgments[i])
  }

  lemma OneMorePasses(request: Request, judgments: seq<RawJudgment>, last: RawJudgment)
    ensures FirstJudgmentsPass(request, judgments + [last]) <==>
      FirstJudgmentsPass(request, judgments) && last.chunk in request.evidence &&
      (last.chunk in ChunkIds(judgments) || Passable(request, last))
  {
    hide Passable;
    var longer := judgments + [last];
    assert ChunkIds(longer) == ChunkIds(judgments) + [last.chunk];
    FirstInLonger(ChunkIds(judgments), last.chunk);
    forall i | 0 <= i < |judgments|
      ensures longer[i] == judgments[i] && (IsFirst(ChunkIds(longer), i) <==> IsFirst(ChunkIds(judgments), i))
    {
    }
    assert longer[|judgments|] == last;
  }

  lemma OneMoreRated(kept: seq<RawJudgment>, normal: RawJudgment)
    ensures Rated(kept + [normal]) <==> Rated(kept) && Comparable(normal)
  {
    assert forall i :: 0 <= i < |kept| ==> (kept + [normal])[i] == kept[i];
    assert (kept + [normal])[|kept|] == normal;
  }

  lemma PassableMeans(request: Request, claimIds: seq<Option<Name>>, j: RawJudgment)
    requires j.chunk in request.evidence
    ensures Passable(request, j) <==>
      !j.supports.NotList? && CanConvert(request, j) && Comparable(NormalJudgment(request, claimIds, j))
  {
    hide KnownLinks, Truncated;
  }

  lemma {:induction false} PassAccepts(request: Request, claimIds: seq<Option<Name>>, judgments: seq<RawJudgment>)
    ensures var r := JudgmentPass(request, claimIds, judgments);
      (r.Ok? && Rated(r.value.judgments) <==> FirstJudgmentsPass(request, judgments)) &&
      (r.Ok? ==> forall x :: x in ChunkIds(r.value.judgments) <==> x in ChunkIds(judgments))
  {
    hide NormalJudgment, JudgmentActions, Passable, CanConvert, Comparable, Rated, FirstJudgmentsPass;
    if judgments == [] {
      NothingPasses(request);
    } else {
      var front, last := judgments[..|judgments| - 1], judgments[|judgments| - 1];
      PassAccepts(request, claimIds, front);
      assert judgments == front + [last] && ChunkIds(judgments) == ChunkIds(front) + [last.chunk];
      OneMorePasses(request, front, last);
      var before := JudgmentPass(request, claimIds, front);
      if before.Ok? && last.chunk in request.evidence && last.chunk !in ChunkIds(front) {
        PassableMeans(request, claimIds, last);
        if !last.supports.NotList? && CanConvert(request, last) {
          var kept, normal := before.value.judgments, NormalJudgment(request, claimIds, last);
          OneMoreRated(kept, normal);
          NormalJudgmentChunk(request, claimIds, last);
          assert ChunkIds(kept + [normal]) == ChunkIds(kept) + [last.chunk];
        }
      }
    }
  }

  lemma NothingPasses(request: Request)
    ensures FirstJudgmentsPass(request, []) && Rated([])
  {
  }

  /** What is accepted: the request's own answerability, claims with an identifier and a text, judgments of the request's
      evidence only, and first judgments that get through. */
  lemma AcceptedExactly(request: Request, c: Candidate)
    ensures Normalized(request, c).Ok? <==>
      c.answerability == request.answerability &&
      (forall i :: 0 <= i < |c.claims| ==>
        c.claims[i].id != None && c.claims[i].text != None && c.claims[i].text != Some(0)) &&
      FirstJudgmentsPass(request, c.judgments)
  {
    hide JudgmentPass, KeptClaims, FirstJudgmentsPass, Rated, ClaimActions, Relevant, Unique, Texts, Turns;
    PassAccepts(request, ClaimIds(KeptClaims(c.claims)), c.judgments);
    assert forall i :: 0 <= i < |c.claims| ==>
      (ClaimOk(c.claims[i]) <==> c.claims[i].id != None && c.claims[i].text != None && c.claims[i].text != Some(0));
  }

  lemma TruncatedTowardsZero(x: real)
    ensures x >= 0.0 ==> Truncated(x) as real <= x < Truncated(x) as real + 1.0
    ensures x <= 0.0 ==> Truncated(x) as real - 1.0 < x <= Truncated(x) as real
  {
  }

  /** What becomes of a judgment, and which actions that reports: it takes on its chunk's document and pages, its links
      are the known ones, and for a negative item a missing relevance becomes 0, any other at most 1, and no link
      stays. */
  lemma JudgmentBecomes(request: Request, claimIds: seq<Option<Name>>, j: RawJudgment)
    requires j.chunk in request.evidence && CanConvert(request, j)
    ensures var normal, actions, source := NormalJudgment(request, claimIds, j), JudgmentActions(request, claimIds, j),
                                           request.evidence[j.chunk];
      var negative := request.answerability in {NoEvidence, FormalCorpus.Forbidden};
      normal.document == Some(source.document) && normal.pageStart == Some(source.pageStart) &&
      normal.pageEnd == Some(source.pageEnd) && normal.chunk == j.chunk && normal.extra == j.extra &&
      (if negative then normal.supports == Links([]) else normal.supports == Links(KnownLinks(ValuesOf(j.supports), claimIds))) &&
      (match j.relevance
       case Absent => normal.relevance == if negative then Number(0.0) else Absent
       case Number(x) => normal.relevance ==
         if !negative then Number(x) else if x >= 1.0 then Number(1.0) else Number(Truncated(x) as real)
       case Numeral(n) => normal.relevance ==
         if !negative then Numeral(n) else if n >= 1 then Number(1.0) else Number(n as real)
       case Unusable => normal.relevance == Unusable) &&
      (CanonicalizeMetadata in actions <==>
        j.document != normal.document || j.pageStart != normal.pageStart || j.pageEnd != normal.pageEnd) &&
      (FilterClaimLinks in actions <==> !LinksNormal(ValuesOf(j.supports), claimIds)) &&
      (EnforceNegative in actions <==>
        negative &&
        (KnownLinks(ValuesOf(j.supports), claimIds) != [] ||
         (j.relevance.Number? && j.relevance.value >= 2.0) || (j.relevance.Numeral? && j.relevance.whole >= 2)))
  {
    hide KnownLinks, LinksNormal;
    KnownLinksAreNormal(ValuesOf(j.supports), claimIds);
    if j.relevance.Number? {
      TruncatedTowardsZero(j.relevance.value);
    }
  }

  /** The citations are the chunks whose kept judgment has relevance 2 or more. */
  lemma {:induction false} CitationsExactly(judgments: seq<RawJudgment>, x: Name)
    ensures x in Relevant(judgments) <==>
      exists i :: 0 <= i < |judgments| && judgments[i].chunk == x && judgments[i].relevance.Number? &&
        judgments[i].relevance.value >= 2.0
  {
    if judgments != [] {
      var front, last := judgments[..|judgments| - 1], judgments[|judgments| - 1];
      CitationsExactly(front, x);
      assert judgments == front + [last] && forall i :: 0 <= i < |front| ==> judgments[i] == front[i];
    }
  }

  /** The filters work element by element: what they keep of a list is what they keep of its parts, in order. */
  lemma {:induction false} TextsAppend(a: seq<Option<nat>>, b: seq<Option<nat>>)
    ensures Texts(a + b) == Texts(a) + Texts(b)
  {
    if b == [] {
      assert a + b == a;
    } else {
      TextsAppend(a, b[..|b| - 1]);
      assert (a + b)[..|a + b| - 1] == a + b[..|b| - 1];
    }
  }

  lemma {:induction false} TurnsAppend(a: seq<Turn>, b: seq<Turn>)
    ensures Turns(a + b) == Turns(a) + Turns(b)
  {
    if b == [] {
      assert a + b == a;
    } else {
      TurnsAppend(a, b[..|b| - 1]);
      assert (a + b)[..|a + b| - 1] == a + b[..|b| - 1];
    }
  }

  lemma FiltersOfOne(x: Option<nat>, t: Turn)
    ensures Texts([x]) == (if x == None then [] else [x]) && Turns([t]) == if t.well then [t] else []
  {
    assert [x][..0] == [] && [t][..0] == [];
  }

  /** Each value once, in the order of first occurrence: the values of a longer list go on from those of a shorter one. */
  lemma {:induction false} UniqueExactly<T>(s: seq<T>, n: nat)
    requires n <= |s|
    ensures Distinct(Unique(s)) && (forall x :: x in Unique(s) <==> x in s) && Unique(s[..n]) <= Unique(s)
    decreases |s|
  {
    UniqueIsDistinct(s);
    if n == |s| {
      assert s[..n] == s;
    } else {
      var front := s[..|s| - 1];
      UniqueExactly(front, n);
      assert front[..n] == s[..n];
    }
  }

  /** What an accepted candidate becomes, field by field. */
  lemma NormalizedFields(request: Request, c: Candidate)
    requires Normalized(request, c).Ok?
    ensures var n := Normalized(request, c).value.candidate;
      n.questionTypes == [request.primaryType] && n.route == HYBRID_QA && n.answerability == c.answerability &&
      n.copied == c.copied && n.documentIds == Unique(request.sourceDocuments) && n.citations == Relevant(n.judgments) &&
      n.mustNotClaim == Texts(c.mustNotClaim) && n.history == Turns(c.history) &&
      (if c.answerability in {NoEvidence, FormalCorpus.Forbidden} then n.claims == [] && n.answerPoints == []
       else n.claims == KeptClaims(c.claims) && n.answerPoints == Texts(c.answerPoints))
    ensures forall i :: IsFirst(ChunkIds(c.judgments), i) ==>
      IsKept(request, ClaimIds(KeptClaims(c.claims)), c.judgments[i], Normalized(request, c).value.candidate.judgments)
  {
    hide JudgmentPass, KeptClaims, IsKept, JudgmentActions, Relevant, Unique, Texts, Turns, ClaimOk, Rated;
    PassKeepsFirsts(request, ClaimIds(KeptClaims(c.claims)), c.judgments);
  }

  ghost predicate IsKept(request: Request, claimIds: seq<Option<Name>>, j: RawJudgment, kept: seq<RawJudgment>) {
    j.chunk in request.evidence && CanConvert(request, j) && NormalJudgment(request, claimIds, j) in kept
  }

  lemma StillKept(request: Request, claimIds: seq<Option<Name>>, judgments: seq<RawJudgment>, kept: seq<RawJudgment>,
                  more: seq<RawJudgment>)
    requires forall i :: IsFirst(ChunkIds(judgments), i) ==> IsKept(request, claimIds, judgments[i], kept)
    requires kept <= more
    ensures forall i :: IsFirst(ChunkIds(judgments), i) ==> IsKept(request, claimIds, judgments[i], more)
  {
    hide NormalJudgment, CanConvert;
    assert forall j :: j in kept ==> j in more;
  }

  lemma {:induction false} PassKeepsFirsts(request: Request, claimIds: seq<Option<Name>>, judgments: seq<RawJudgment>)
    requires JudgmentPass(request, claimIds, judgments).Ok?
    ensures forall i :: IsFirst(ChunkIds(judgments), i) ==>
      IsKept(request, claimIds, judgments[i], JudgmentPass(request, claimIds, judgments).value.judgments)
  {
    hide NormalJudgment, JudgmentActions, CanConvert, IsKept;
    if judgments != [] {
      var front, last := judgments[..|judgments| - 1], judgments[|judgments| - 1];
      PassKeepsFirsts(request, claimIds, front);
      PassAccepts(request, claimIds, front);
      assert judgments == front + [last] && ChunkIds(judgments) == ChunkIds(front) + [last.chunk];
      FirstInLonger(ChunkIds(front), last.chunk);
      var kept := JudgmentPass(request, claimIds, front).value.judgments;
      StillKept(request, claimIds, front, kept, JudgmentPass(request, claimIds, judgments).value.judgments);
      if last.chunk !in ChunkIds(front) {
        LastIsKept(request, claimIds, kept, last);
      }
    }
  }

  lemma LastIsKept(request: Request, claimIds: seq<Option<Name>>, kept: seq<RawJudgment>, last: RawJudgment)
    requires last.chunk in request.evidence && CanConvert(request, last)
    ensures IsKept(request, claimIds, last, kept + [NormalJudgment(request, claimIds, last)])
  {
    hide NormalJudgment, CanConvert;
    var more := kept + [NormalJudgment(request, claimIds, last)];
    assert more[|kept|] in more;
  }

  // ---------------------------------------------------------------- which actions are reported

  ghost predicate RepeatsId(claims: seq<Claim>, i: nat) {
    i < |claims| && !FirstOfItsId(claims, i)
  }

  ghost predicate LacksRequired(claims: seq<Claim>, i: nat) {
    FirstOfItsId(claims, i) && claims[i].required == None
  }

  lemma LastClaim(front: seq<Claim>, last: Claim)
    ensures forall i: nat :: i < |front| ==> (FirstOfItsId(front + [last], i) <==> FirstOfItsId(front, i))
    ensures FirstOfItsId(front + [last], |front|) <==> last.id !in ClaimIds(front)
  {
    var longer := front + [last];
    assert forall i :: 0 <= i < |front| ==> longer[i] == front[i];
    FirstIsNew(longer, |front|);
    assert longer[..|front|] == front;
  }

  lemma {:induction false} ClaimActionsExactly(claims: seq<Claim>)
    ensures DropDuplicateClaim in ClaimActions(claims) <==> exists i: nat :: RepeatsId(claims, i)
    ensures DefaultRequired in ClaimActions(claims) <==> exists i: nat :: LacksRequired(claims, i)
    ensures forall a :: a in ClaimActions(claims) ==> a == DropDuplicateClaim || a == DefaultRequired
  {
    if claims != [] {
      var front, last := claims[..|claims| - 1], claims[|claims| - 1];
      ClaimActionsExactly(front);
      KeptIds(front);
      LastClaim(front, last);
      hide FirstOfItsId;
      assert claims == front + [last];
      forall i: nat | i < |front|
        ensures RepeatsId(claims, i) <==> RepeatsId(front, i)
        ensures LacksRequired(claims, i) <==> LacksRequired(front, i)
      {
        assert claims[i] == front[i];
      }
      assert RepeatsId(claims, |front|) <==> last.id in ClaimIds(front);
      assert LacksRequired(claims, |front|) <==> last.id !in ClaimIds(front) && last.required == None;
      OnlyBelow(claims, front);
    }
  }

  lemma OnlyBelow(claims: seq<Claim>, front: seq<Claim>)
    requires |claims| == |front| + 1
    ensures forall i: nat :: RepeatsId(claims, i) || LacksRequired(claims, i) ==> i <= |front|
    ensures forall i: nat :: RepeatsId(front, i) || LacksRequired(front, i) ==> i < |front|
  {
  }

  /** What the first judgment of a chunk makes the normalization report. */
  ghost predicate Reports(request: Request, claimIds: seq<Option<Name>>, j: RawJudgment, a: Action) {
    j.chunk in request.evidence && CanConvert(request, j) && a in JudgmentActions(request, claimIds, j)
  }

  ghost predicate SomeReports(request: Request, claimIds: seq<Option<Name>>, judgments: seq<RawJudgment>, a: Action) {
    exists i :: IsFirst(ChunkIds(judgments), i) && Reports(request, claimIds, judgments[i], a)
  }

  ghost predicate SomeRepeats(judgments: seq<RawJudgment>) {
    exists i :: 0 <= i < |judgments| && !IsFirst(ChunkIds(judgments), i)
  }

  lemma OneMoreReports(request: Request, claimIds: seq<Option<Name>>, judgments: seq<RawJudgment>, last: RawJudgment, a: Action)
    ensures SomeReports(request, claimIds, judgments + [last], a) <==>
      SomeReports(request, claimIds, judgments, a) ||
      (last.chunk !in ChunkIds(judgments) && Reports(request, claimIds, last, a))
    ensures SomeRepeats(judgments + [last]) <==> SomeRepeats(judgments) || last.chunk in ChunkIds(judgments)
  {
    hide Reports;
    var longer, n := judgments + [last], |judgments|;
    assert ChunkIds(longer) == ChunkIds(judgments) + [last.chunk];
    FirstInLonger(ChunkIds(judgments), last.chunk);
    hide IsFirst;
    assert forall i :: 0 <= i < n ==> longer[i] == judgments[i];
    assert longer[n] == last && (IsFirst(ChunkIds(longer), n) <==> last.chunk !in ChunkIds(judgments));
    FirstIsBelow(ChunkIds(longer));
    FirstIsBelow(ChunkIds(judgments));
  }

  lemma FirstIsBelow<T>(s: seq<T>)
    ensures forall i :: IsFirst(s, i) ==> 0 <= i < |s|
  {
  }

  lemma {:induction false} PassActionsExactly(request: Request, claimIds: seq<Option<Name>>, judgments: seq<RawJudgment>, a: Action)
    requires JudgmentPass(request, claimIds, judgments).Ok?
    ensures a in JudgmentPass(request, claimIds, judgments).value.actions <==>
      SomeReports(request, claimIds, judgments, a) || (a == DropDuplicateJudgment && SomeRepeats(judgments))
  {
    hide NormalJudgment, JudgmentActions, CanConvert, SomeReports, SomeRepeats;
    if judgments == [] {
      NothingReported(request, claimIds, a);
    } else {
      var front, last := judgments[..|judgments| - 1], judgments[|judgments| - 1];
      PassActionsExactly(request, claimIds, front, a);
      PassAccepts(request, claimIds, front);
      assert judgments == front + [last];
      OneMoreReports(request, claimIds, front, last, a);
    }
  }

  lemma NothingReported(request: Request, claimIds: seq<Option<Name>>, a: Action)
    ensures !SomeReports(request, claimIds, [], a) && !SomeRepeats([])
  {
  }

  lemma JudgmentActionKinds(request: Request, claimIds: seq<Option<Name>>, j: RawJudgment)
    ensures forall a :: Reports(request, claimIds, j, a) ==> a in {CanonicalizeMetadata, FilterClaimLinks, EnforceNegative}
  {
    hide KnownLinks, WholeOf;
  }

  /** When each action is in the report of an accepted candidate. */
  ghost predicate IsReported(request: Request, c: Candidate, n: Candidate, a: Action) {
    match a
    case SetPrimaryType => c.questionTypes != [request.primaryType]
    case SetRoute => c.route != HYBRID_QA
    case DropDuplicateClaim => exists i: nat :: RepeatsId(c.claims, i)
    case DefaultRequired => exists i: nat :: LacksRequired(c.claims, i)
    case DropDuplicateJudgment => SomeRepeats(c.judgments)
    case ClearNegative =>
      c.answerability in {NoEvidence, FormalCorpus.Forbidden} && (c.claims != [] || c.answerPoints != [])
    case DeriveCitations => c.citations != n.citations
    case SetDocuments => c.documentIds != n.documentIds
    case _ => SomeReports(request, ClaimIds(KeptClaims(c.claims)), c.judgments, a)
  }

  lemma ReportsOfKinds(request: Request, claimIds: seq<Option<Name>>, judgments: seq<RawJudgment>, a: Action)
    ensures SomeReports(request, claimIds, judgments, a) ==> a in {CanonicalizeMetadata, FilterClaimLinks, EnforceNegative}
  {
    hide Reports;
    if i :| IsFirst(ChunkIds(judgments), i) && Reports(request, claimIds, judgments[i], a) {
      JudgmentActionKinds(request, claimIds, judgments[i]);
    }
  }

  lemma InSeven<T>(x: T, a: seq<T>, b: seq<T>, c: seq<T>, d: seq<T>, e: seq<T>, f: seq<T>, g: seq<T>)
    ensures x in a + b + c + d + e + f + g <==> x in a || x in b || x in c || x in d || x in e || x in f || x in g
  {
  }

  /** The actions in the order in which they are taken. */
  ghost function Listed(request: Request, c: Candidate, judged: Judged): seq<Action> {
    If(c.questionTypes != [request.primaryType], SetPrimaryType) + If(c.route != HYBRID_QA, SetRoute) + ClaimActions(c.claims) +
    judged.actions + If(Negative(request.answerability) && (KeptClaims(c.claims) != [] || c.answerPoints != []), ClearNegative) +
    If(c.citations != Relevant(judged.judgments), DeriveCitations) + If(c.documentIds != Unique(request.sourceDocuments), SetDocuments)
  }

  lemma ReportIsListed(request: Request, c: Candidate)
    requires Normalized(request, c).Ok?
    ensures var judged := JudgmentPass(request, ClaimIds(KeptClaims(c.claims)), c.judgments);
      judged.Ok? && Normalized(request, c).value.actions == Unique(Listed(request, c, judged.value))
    ensures c.answerability == request.answerability
  {
    hide JudgmentPass, KeptClaims, ClaimActions, Relevant, Texts, Turns, ClaimOk, Rated, Unique, If, Negative;
  }

  lemma ListedExactly(request: Request, c: Candidate, judged: Judged, a: Action)
    ensures a in Listed(request, c, judged) <==>
      (a == SetPrimaryType && c.questionTypes != [request.primaryType]) || (a == SetRoute && c.route != HYBRID_QA) ||
      a in ClaimActions(c.claims) || a in judged.actions ||
      (a == ClearNegative && Negative(request.answerability) && (KeptClaims(c.claims) != [] || c.answerPoints != [])) ||
      (a == DeriveCitations && c.citations != Relevant(judged.judgments)) ||
      (a == SetDocuments && c.documentIds != Unique(request.sourceDocuments))
  {
    hide KeptClaims, ClaimActions, Relevant, Unique, Negative;
    InSeven(a, If(c.questionTypes != [request.primaryType], SetPrimaryType), If(c.route != HYBRID_QA, SetRoute),
            ClaimActions(c.claims), judged.actions,
            If(Negative(request.answerability) && (KeptClaims(c.claims) != [] || c.answerPoints != []), ClearNegative),
            If(c.citations != Relevant(judged.judgments), DeriveCitations),
            If(c.documentIds != Unique(request.sourceDocuments), SetDocuments));
  }

  /** The report lists, each once, exactly the actions that changed something. */
  lemma ActionsExactly(request: Request, c: Candidate, a: Action)
    requires Normalized(request, c).Ok?
    ensures Distinct(Normalized(request, c).value.actions)
    ensures a in Normalized(request, c).value.actions <==> IsReported(request, c, Normalized(request, c).value.candidate, a)
  {
    hide JudgmentPass, KeptClaims, ClaimActions, Relevant, Unique, SomeReports, SomeRepeats, RepeatsId, LacksRequired, Listed,
      Normalized;
    var claimIds := ClaimIds(KeptClaims(c.claims));
    ReportIsListed(request, c);
    var judged := JudgmentPass(request, claimIds, c.judgments).value;
    UniqueIsDistinct(Listed(request, c, judged));
    ListedExactly(request, c, judged, a);
    PassActionsExactly(request, claimIds, c.judgments, a);
    ReportsOfKinds(request, claimIds, c.judgments, a);
    ClaimActionsExactly(c.claims);
    ClaimsLeft(c.claims);
    CopiedFromPass(request, c);
  }

  lemma CopiedFromPass(request: Request, c: Candidate)
    requires Normalized(request, c).Ok?
    ensures var n, judged := Normalized(request, c).value.candidate,
                         JudgmentPass(request, ClaimIds(KeptClaims(c.claims)), c.judgments);
      judged.Ok? && n.citations == Relevant(judged.value.judgments) && n.documentIds == Unique(request.sourceDocuments)
  {
    hide JudgmentPass, KeptClaims, ClaimActions, Relevant, Texts, Turns, ClaimOk, Rated, Unique, If, Negative;
  }

  lemma ClaimsLeft(claims: seq<Claim>)
    ensures KeptClaims(claims) == [] <==> claims == []
  {
    KeptIds(claims);
    if claims != [] {
      assert ClaimIds(claims)[0] in ClaimIds(claims);
    }
  }

  // ---------------------------------------------------------------- what normalization lets through

  /** A candidate with one claimless judgment of chunk 1, as a model may write it. */
  function OneJudgment(a: Answerability, relevance: Relevance, extra: bool, copied: bool): Candidate {
    Candidate([], 0, a, [], [RawJudgment(Name(1, true), None, None, None, relevance, Missing, extra)], [], [], [], [], [], copied)
  }

  function OneChunk(a: Answerability): Request {
    Request(2, a, [Name(3, true)], map[Name(1, true) := Source(Name(3, true), 1, 1)], true)
  }

  lemma OnePass(request: Request, j: RawJudgment)
    requires j.chunk in request.evidence && CanConvert(request, j) && !j.supports.NotList?
    ensures JudgmentPass(request, [], [j]) == Ok(Judged([NormalJudgment(request, [], j)], JudgmentActions(request, [], j)))
  {
    hide NormalJudgment, JudgmentActions, CanConvert;
    var one: seq<RawJudgment> := [j];
    var none: seq<RawJudgment> := [];
    var actions: seq<Action> := [];
    assert one[..|one| - 1] == none && one[|one| - 1] == j;
    assert JudgmentPass(request, [], none) == Ok(Judged([], []));
    assert ChunkIds(none) == [];
    assert actions + JudgmentActions(request, [], j) == JudgmentActions(request, [], j);
    assert none + [NormalJudgment(request, [], j)] == [NormalJudgment(request, [], j)];
  }

  lemma OneJudgmentIsAccepted(a: Answerability, relevance: Relevance, extra: bool, copied: bool)
    requires relevance.Absent? || relevance.Number?
    ensures Normalized(OneChunk(a), OneJudgment(a, relevance, extra, copied)).Ok?
  {
    hide Relevant, Unique, Texts, Turns, JudgmentActions, JudgmentPass;
    var request, c := OneChunk(a), OneJudgment(a, relevance, extra, copied);
    var last := c.judgments[0];
    assert CanConvert(request, last);
    OnePass(request, last);
    assert c.judgments == [last];
    assert ClaimIds(KeptClaims(c.claims)) == [];
  }

  /** Such a candidate is accepted, and becomes an item exactly when its judgment fits and supports an answerable
      question. */
  lemma OneJudgmentNormalizes(a: Answerability, relevance: Relevance, extra: bool, copied: bool)
    requires relevance.Absent? || relevance.Number?
    ensures var r, j := Normalized(OneChunk(a), OneJudgment(a, relevance, extra, copied)),
                  OneJudgment(a, relevance, extra, copied).judgments[0];
      r.Ok? && (ItemRules(OneChunk(a), r.value.candidate) <==> copied && RawFits(OneChunk(a), j) && (Negative(a) || Supporting(j)))
  {
    hide Normalized, ItemRules, WholeOf, OnScale, Supporting, RawFits;
    var request, c := OneChunk(a), OneJudgment(a, relevance, extra, copied);
    OneJudgmentIsAccepted(a, relevance, extra, copied);
    NormalizedMeetsItemRules(request, c);
    assert IsFirst(ChunkIds(c.judgments), 0);
    assert forall i :: IsFirst(ChunkIds(c.judgments), i) ==> i == 0;
    assert forall i :: !IsFirst(ClaimIds(c.claims), i);
  }

  /** An answerable candidate is accepted whatever number it gives, and becomes an item exactly for 2 and 3. */
  lemma AnyNumberIsAccepted(x: real)
    ensures var r := Normalized(OneChunk(Answerable), OneJudgment(Answerable, Number(x), false, true));
      r.Ok? && (ItemRules(OneChunk(Answerable), r.value.candidate) <==> x == 2.0 || x == 3.0)
  {
    OneJudgmentNormalizes(Answerable, Number(x), false, true);
  }

  /** A negative one is capped at 1 but not below 0. */
  lemma NegativeNumbersStay(x: real)
    ensures var a := Answerability.NoEvidence;
      var r := Normalized(OneChunk(a), OneJudgment(a, Number(x), false, true));
      r.Ok? && (ItemRules(OneChunk(a), r.value.candidate) <==> Truncated(x) >= 0)
  {
    OneJudgmentNormalizes(Answerability.NoEvidence, Number(x), false, true);
  }

  /** Without a relevance the judgment stays, and the item is rejected. */
  lemma MissingRelevanceStays()
    ensures var r := Normalized(OneChunk(Answerable), OneJudgment(Answerable, Absent, false, true));
      r.Ok? && !ItemRules(OneChunk(Answerable), r.value.candidate)
  {
    OneJudgmentNormalizes(Answerable, Absent, false, true);
  }

  /** Further keys, the question and the cutoff date pass unchecked. */
  lemma CopiesAreUnchecked(extra: bool, copied: bool)
    ensures var r := Normalized(OneChunk(Answerable), OneJudgment(Answerable, Number(3.0), extra, copied));
      r.Ok? && (ItemRules(OneChunk(Answerable), r.value.candidate) <==> !extra && copied)
  {
    OneJudgmentNormalizes(Answerable, Number(3.0), extra, copied);
  }

  // ---------------------------------------------------------------- the loops

  method NormalizeClaims(claims: seq<Claim>) returns (r: Option<seq<Claim>>, actions: seq<Action>)
    ensures r.Some? <==> forall i :: 0 <= i < |claims| ==> ClaimOk(claims[i])
    ensures r.Some? ==> r.value == KeptClaims(claims) && actions == ClaimActions(claims)
  {
    var kept: seq<Claim> := [];
    actions := [];
    for i := 0 to |claims|
      invariant forall k :: 0 <= k < i ==> ClaimOk(claims[k])
      invariant kept == KeptClaims(claims[..i]) && actions == ClaimActions(claims[..i])
    {
      assert claims[..i + 1][..i] == claims[..i];
      var claim := claims[i];
      if !ClaimOk(claim) {
        return None, actions;
      }
      if claim.id in ClaimIds(kept) {
        actions := actions + [DropDuplicateClaim];
      } else {
        if claim.required.None? {
          claim := claim.(required := Some(true));
          actions := actions + [DefaultRequired];
        }
        kept := kept + [claim];
      }
    }
    assert claims[..|claims|] == claims;
    r := Some(kept);
  }

  method NormalizeJudgments(request: Request, claimIds: seq<Option<Name>>, judgments: seq<RawJudgment>)
    returns (r: Result<Judged, NormalizeError>)
    ensures r == JudgmentPass(request, claimIds, judgments)
  {
    hide NormalJudgment, JudgmentActions;
    var kept: seq<RawJudgment>, actions: seq<Action> := [], [];
    for i := 0 to |judgments|
      invariant JudgmentPass(request, claimIds, judgments[..i]) == Ok(Judged(kept, actions))
    {
      assert judgments[..i + 1][..i] == judgments[..i];
      var judgment := judgments[i];
      if judgment.chunk !in request.evidence ||
         (judgment.chunk !in ChunkIds(kept) && (judgment.supports.NotList? || !CanConvert(request, judgment))) {
        RaisedStays(request, claimIds, judgments, i + 1);
        return JudgmentPass(request, claimIds, judgments[..i + 1]);
      }
      if judgment.chunk in ChunkIds(kept) {
        actions := actions + [DropDuplicateJudgment];
      } else {
        kept, actions := kept + [NormalJudgment(request, claimIds, judgment)], actions + JudgmentActions(request, claimIds, judgment);
      }
    }
    assert judgments[..|judgments|] == judgments;
    r := Ok(Judged(kept, actions));
  }

  lemma {:induction false} RaisedStays(request: Request, claimIds: seq<Option<Name>>, judgments: seq<RawJudgment>,
                                       n: nat)
    requires n <= |judgments| && JudgmentPass(request, claimIds, judgments[..n]).Raised?
    ensures JudgmentPass(request, claimIds, judgments) == JudgmentPass(request, claimIds, judgments[..n])
    decreases |judgments|
  {
    if n == |judgments| {
      assert judgments[..n] == judgments;
    } else {
      var front := judgments[..|judgments| - 1];
      assert front[..n] == judgments[..n];
      RaisedStays(request, claimIds, front, n);
    }
  }

  method NormalizeCandidate(request: Request, c: Candidate) returns (r: Result<Outcome, NormalizeError>)
    ensures r == Normalized(request, c)
  {
    hide KeptClaims, ClaimActions, JudgmentPass, Relevant, Unique, Texts, Turns, ClaimOk;
    var actions := If(c.questionTypes != [request.primaryType], SetPrimaryType) + If(c.route != HYBRID_QA, SetRoute);
    if c.answerability != request.answerability {
      return Raised(AnswerabilityDrifts);
    }
    var claims, claimActions := NormalizeClaims(c.claims);
    if claims.None? {
      return Raised(InvalidClaim);
    }
    var judged := NormalizeJudgments(request, ClaimIds(claims.value), c.judgments);
    if judged.Raised? {
      return Raised(judged.error);
    }
    if !Rated(judged.value.judgments) {
      return Raised(InvalidRelevance);
    }
    var kept, answerPoints := claims.value, c.answerPoints;
    var clears := Negative(request.answerability) && (kept != [] || answerPoints != []);
    actions := actions + claimActions + judged.value.actions + If(clears, ClearNegative);
    if Negative(request.answerability) {
      kept, answerPoints := [], [];
    } else {
      answerPoints := Texts(answerPoints);
    }
    var citations := Relevant(judged.value.judgments);
    var documents := Unique(request.sourceDocuments);
    actions := actions + If(c.citations != citations, DeriveCitations) + If(c.documentIds != documents, SetDocuments);
    r := Ok(Outcome(Candidate([request.primaryType], HYBRID_QA, c.answerability, kept, judged.value.judgments, answerPoints,
                              Texts(c.mustNotClaim), citations, documents, Turns(c.history), c.copied),
                    Unique(actions)));
  }
}
