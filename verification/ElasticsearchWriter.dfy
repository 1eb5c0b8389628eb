/** The version writer over one hidden Elasticsearch index, and the store it talks to. */
module ElasticsearchWriter {
  import opened Basics
  import opened Chunks

  datatype Error = InvalidRequest | NotReady | Unavailable

  /** `source` is the fingerprinted chunk list; `configurationOk` covers the fixed schema, mapping and hidden flag. */
  datatype Meta = Meta(configurationOk: bool, ownerId: string, documentId: string, versionId: string,
                       source: seq<Chunk>, chunkCount: int)

  datatype Index = Index(meta: Meta, docs: map<string, Chunk>)

  datatype MgetDoc = MgetDoc(id: string, found: Option<Chunk>)

  datatype Reply = Acknowledged | RefusedNotReady | Failed

  // ---------------------------------------------------------------- what the states mean

  function StagedMeta(key: VersionKey, chunks: seq<Chunk>): Meta {
    Meta(true, key.ownerId, key.documentId, key.versionId, chunks, |chunks|)
  }

  predicate IdentityOk(meta: Meta, ownerId: string, versionId: string) {
    meta.configurationOk && meta.ownerId == ownerId && meta.versionId == versionId && meta.chunkCount >= 1
  }

  predicate PayloadMatches(docs: map<string, Chunk>, chunk: Chunk, allowMissing: bool) {
    if chunk.chunkId in docs then Inactivated(docs[chunk.chunkId]) == chunk else allowMissing
  }

  predicate PayloadsMatch(docs: map<string, Chunk>, chunks: seq<Chunk>, allowMissing: bool) {
    forall i :: 0 <= i < |chunks| ==> PayloadMatches(docs, chunks[i], allowMissing)
  }

  /** The index holds exactly the given chunks, up to the active flag, under the given identity. */
  ghost predicate Staged(index: Option<Index>, key: VersionKey, chunks: seq<Chunk>) {
    index.Some? && index.value.meta == StagedMeta(key, chunks) &&
    index.value.docs.Keys == IdSet(chunks) && PayloadsMatch(index.value.docs, chunks, false)
  }

  /** What aborted staging attempts can leave behind: nothing, or the right identity over some of the chunks. */
  ghost predicate Resumable(index: Option<Index>, key: VersionKey, chunks: seq<Chunk>) {
    index.None? ||
    (index.value.meta == StagedMeta(key, chunks) &&
     index.value.docs.Keys <= IdSet(chunks) && PayloadsMatch(index.value.docs, chunks, true))
  }

  ghost function OwnedIds(docs: map<string, Chunk>, key: VersionKey): set<string> {
    set k | k in docs && OwnedBy(docs[k], key)
  }

  ghost function StateIds(docs: map<string, Chunk>, ownerId: string, versionId: string, active: bool): set<string> {
    set k | k in docs && Matches(docs[k], ownerId, versionId) && docs[k].isActive == active
  }

  ghost function MatchingIds(docs: map<string, Chunk>, ownerId: string, versionId: string): set<string> {
    set k | k in docs && Matches(docs[k], ownerId, versionId)
  }

  ghost function ActiveIds(index: Option<Index>, ownerId: string, versionId: string): set<string> {
    if index.None? then {} else StateIds(index.value.docs, ownerId, versionId, true)
  }

  /** Exactly what the online check demands of the stored index. */
  ghost predicate Online(index: Option<Index>, key: VersionKey) {
    index.Some? && IdentityOk(index.value.meta, key.ownerId, key.versionId) &&
    index.value.meta.documentId == key.documentId &&
    var n, docs := index.value.meta.chunkCount, index.value.docs;
    |docs| == n && |OwnedIds(docs, key)| == n &&
    |set k | k in docs && OwnedBy(docs[k], key) && docs[k].isActive| == n
  }

  function Toggled(docs: map<string, Chunk>, ownerId: string, versionId: string, active: bool): (r: map<string, Chunk>)
    ensures r.Keys == docs.Keys
  {
    map k | k in docs :: if Matches(docs[k], ownerId, versionId) then docs[k].(isActive := active) else docs[k]
  }

  /** Toggling sets the flag of every document of this owner's version and leaves all others alone. */
  lemma TogglesItsOwn(docs: map<string, Chunk>, ownerId: string, versionId: string, active: bool, k: string)
    requires k in docs
    ensures var doc, toggled := docs[k], Toggled(docs, ownerId, versionId, active)[k];
      if doc.tenantId == ownerId && doc.versionId == versionId
      then toggled.isActive == active && Inactivated(toggled) == Inactivated(doc) else toggled == doc
  {
  }

  /** What deactivation demands of an index: none, or the full count under this identity. */
  ghost predicate Deactivable(index: Option<Index>, ownerId: string, versionId: string) {
    index.Some? ==>
      IdentityOk(index.value.meta, ownerId, versionId) &&
      |MatchingIds(index.value.docs, ownerId, versionId)| == index.value.meta.chunkCount
  }

  /** Some matching documents may have been toggled; nothing else about any document changes. */
  predicate PartlyToggled(before: map<string, Chunk>, after: map<string, Chunk>,
                          ownerId: string, versionId: string, active: bool)
  {
    after.Keys == before.Keys &&
    forall k :: k in before ==>
      after[k] == before[k] || after[k] == Toggled(before, ownerId, versionId, active)[k]
  }

  /** Some of the chunks may have been written; every other document is untouched. */
  predicate PartlyWritten(before: map<string, Chunk>, after: map<string, Chunk>, chunks: seq<Chunk>) {
    before.Keys <= after.Keys &&
    forall k :: k in after ==>
      (k in before && after[k] == before[k]) || (after[k] in chunks && after[k].chunkId == k)
  }

  lemma NothingWritten(docs: map<string, Chunk>, chunks: seq<Chunk>)
    ensures PartlyWritten(docs, docs, chunks) && docs + ById(chunks[..0]) == docs
  {
  }

  lemma OneMoreWritten(before: map<string, Chunk>, docs: map<string, Chunk>, chunks: seq<Chunk>, i: nat)
    requires PartlyWritten(before, docs, chunks) && i < |chunks|
    ensures PartlyWritten(before, docs[chunks[i].chunkId := chunks[i]], chunks)
    ensures before + ById(chunks[..i + 1]) == (before + ById(chunks[..i]))[chunks[i].chunkId := chunks[i]]
  {
    assert chunks[..i + 1][..i] == chunks[..i];
  }

  /** What must have been seen of an existing index before any chunk is written to it. */
  ghost predicate WriteGuard(docs: map<string, Chunk>, key: VersionKey, chunks: seq<Chunk>) {
    OwnedIds(docs, key) == docs.Keys && |docs| < |chunks| && PayloadsMatch(docs, chunks, true)
  }

  // ---------------------------------------------------------------- the remote store

  /** One physical index behind an unreliable connection. While `healthy` is false, any call may fail
      before its effect, after it, or part-way. */
  class Store {
    var index: Option<Index>
    var healthy: bool

    constructor (index: Option<Index>, healthy: bool)
      ensures this.index == index && this.healthy == healthy
    {
      this.index, this.healthy := index, healthy;
    }

    method Exists() returns (r: Option<bool>)
      ensures r.Some? ==> r.value == index.Some?
      ensures healthy ==> r.Some?
    {
      r := Some(index.Some?);
      if !healthy {
        var lost: bool := *;
        r := if lost then None else r;
      }
    }

    method Create(meta: Meta) returns (r: Reply)
      modifies this`index
      ensures index == old(index) || (old(index).None? && index == Some(Index.Index(meta, map[])))
      ensures r.Acknowledged? ==> old(index).None? && index == Some(Index.Index(meta, map[]))
      ensures healthy && old(index).None? ==> r.Acknowledged?
    {
      var dropped: bool, reply: Reply := *, *;
      if index.Some? {
        r := if reply.Acknowledged? then RefusedNotReady else reply;
      } else if healthy || !dropped {
        index := Some(Index.Index(meta, map[]));
        r := if healthy then Acknowledged else reply;
      } else {
        r := if reply.Acknowledged? then Failed else reply;
      }
    }

    method Inspect() returns (r: Option<Meta>)
      ensures r.Some? ==> index.Some? && r.value == index.value.meta
      ensures healthy && index.Some? ==> r.Some?
    {
      var lost: bool := *;
      r := if index.None? || (!healthy && lost) then None else Some(index.value.meta);
    }

    /** Total documents, documents of the owner, document and version, and active ones among those. */
    method Counts(key: VersionKey) returns (r: Option<(int, int, int)>)
      ensures r.Some? ==> index.Some? && r.value.0 == |index.value.docs| && r.value.1 == |OwnedIds(index.value.docs, key)|
      ensures r.Some? ==>
        r.value.2 == |set k | k in index.value.docs && OwnedBy(index.value.docs[k], key) &&
        index.value.docs[k].isActive|
      ensures healthy && index.Some? ==> r.Some?
    {
      var lost: bool := *;
      if index.None? || (!healthy && lost) {
        return None;
      }
      var docs := index.value.docs;
      r := Some((|docs|, |set k | k in docs && OwnedBy(docs[k], key)|,
                 |set k | k in docs && OwnedBy(docs[k], key) && docs[k].isActive|));
    }

    method CountState(ownerId: string, versionId: string, active: bool) returns (r: Option<int>)
      ensures r.Some? ==> index.Some? && r.value == |StateIds(index.value.docs, ownerId, versionId, active)|
      ensures healthy && index.Some? ==> r.Some?
    {
      var lost: bool := *;
      if index.None? || (!healthy && lost) {
        return None;
      }
      var docs := index.value.docs;
      r := Some(|set k | k in docs && Matches(docs[k], ownerId, versionId) && docs[k].isActive == active|);
    }

    method Mget(ids: seq<string>) returns (r: Option<seq<MgetDoc>>)
      ensures r.Some? ==> index.Some? && |r.value| == |ids| && forall i :: 0 <= i < |ids| ==>
        r.value[i] == MgetDoc(ids[i], if ids[i] in index.value.docs then Some(index.value.docs[ids[i]]) else None)
      ensures healthy && index.Some? ==> r.Some?
    {
      var lost: bool := *;
      if index.None? || (!healthy && lost) {
        return None;
      }
      var docs := index.value.docs;
      r := Some(seq(|ids|, i requires 0 <= i < |ids| =>
        MgetDoc(ids[i], if ids[i] in docs then Some(docs[ids[i]]) else None)));
    }

    method Bulk(chunks: seq<Chunk>) returns (ok: bool)
      requires index.Some?
      modifies this`index
      ensures index.Some? && index.value.meta == old(index.value.meta)
      ensures PartlyWritten(old(index.value.docs), index.value.docs, chunks)
      ensures ok ==> index.value.docs == old(index.value.docs) + ById(chunks)
      ensures healthy ==> ok
    {
      hide PartlyWritten, ById;
      var meta, docs := index.value.meta, index.value.docs;
      ok := true;
      NothingWritten(docs, chunks);
      for i := 0 to |chunks|
        invariant PartlyWritten(old(index.value.docs), docs, chunks)
        invariant ok ==> docs == old(index.value.docs) + ById(chunks[..i])
        invariant healthy ==> ok
      {
        var lost: bool := *;
        if healthy || !lost {
          OneMoreWritten(old(index.value.docs), docs, chunks, i);
          docs := docs[chunks[i].chunkId := chunks[i]];
        } else {
          ok := false;
        }
      }
      assert chunks[..|chunks|] == chunks;
      index := Some(Index.Index(meta, docs));
      var unanswered: bool := *;
      ok := ok && (healthy || !unanswered);
    }

    method UpdateByQuery(ownerId: string, versionId: string, active: bool) returns (ok: bool)
      requires index.Some?
      modifies this`index
      ensures index.Some? && index.value.meta == old(index.value.meta)
      ensures PartlyToggled(old(index.value.docs), index.value.docs, ownerId, versionId, active)
      ensures ok ==> index.value.docs == Toggled(old(index.value.docs), ownerId, versionId, active)
      ensures healthy ==> ok
    {
      var meta, docs := index.value.meta, index.value.docs;
      var all := Toggled(docs, ownerId, versionId, active);
      var reached: set<string>, unanswered: bool := *, *;
      if healthy {
        index, ok := Some(Index.Index(meta, all)), true;
      } else {
        var some := map k | k in docs :: if k in reached then all[k] else docs[k];
        index := Some(Index.Index(meta, some));
        ok := some == all && !unanswered;
      }
    }

    method Delete() returns (acknowledged: bool)
      modifies this`index
      ensures index == old(index) || index == None
      ensures acknowledged ==> index == None
      ensures healthy ==> acknowledged
    {
      var lost: bool, unanswered: bool := *, *;
      if healthy || !lost {
        index := None;
      }
      acknowledged := index.None? && (healthy || !unanswered);
    }
  }

  // ---------------------------------------------------------------- the writer

  class Writer {
    const store: Store

    constructor (store: Store)
      ensures this.store == store
    {
      this.store := store;
    }

    /** The identity check shared by every operation. */
    method InspectIdentity(ownerId: string, versionId: string) returns (r: Result<Meta, Error>)
      ensures r.Ok? ==> store.index.Some? && r.value == store.index.value.meta && IdentityOk(r.value, ownerId, versionId)
      ensures store.healthy && store.index.Some? && IdentityOk(store.index.value.meta, ownerId, versionId) ==> r.Ok?
    {
      var meta := store.Inspect();
      if meta.None? {
        return Raised(Unavailable);
      }
      r := if IdentityOk(meta.value, ownerId, versionId) then Ok(meta.value) else Raised(NotReady);
    }

    method VerifyOwnedCount(key: VersionKey, expected: int, allowIncomplete: bool) returns (r: Result<int, Error>)
      ensures r.Ok? ==>
        store.index.Some? && r.value == |store.index.value.docs| <= expected &&
        OwnedIds(store.index.value.docs, key) == store.index.value.docs.Keys && (allowIncomplete || r.value == expected)
      ensures
        store.healthy && store.index.Some? && |store.index.value.docs| <= expected &&
        OwnedIds(store.index.value.docs, key) == store.index.value.docs.Keys &&
        (allowIncomplete || |store.index.value.docs| == expected)
        ==> r.Ok?
    {
      var counts := store.Counts(key);
      if counts.None? {
        return Raised(Unavailable);
      }
      var total, owned := counts.value.0, counts.value.1;
      assert |store.index.value.docs| == |store.index.value.docs.Keys|;
      SubsetCardinality(OwnedIds(store.index.value.docs, key), store.index.value.docs.Keys);
      if total != owned || total > expected || (!allowIncomplete && total != expected) {
        return Raised(NotReady);
      }
      r := Ok(total);
    }

    method VerifySourcePayloads(chunks: seq<Chunk>, allowMissing: bool) returns (r: Result<(), Error>)
      requires UniqueIds(chunks)
      ensures r.Ok? ==> store.index.Some? && PayloadsMatch(store.index.value.docs, chunks, allowMissing)
      ensures store.healthy && store.index.Some? && PayloadsMatch(store.index.value.docs, chunks, allowMissing) ==>
        r.Ok?
    {
      var expected := ById(chunks);
      ByIdContents(chunks);
      var documents := store.Mget(IdsOf(chunks));
      if documents.None? {
        return Raised(Unavailable);
      }
      ghost var docs := store.index.value.docs;
      var seen: set<string> := {};
      for i := 0 to |documents.value|
        invariant forall id :: id in seen ==> exists j :: 0 <= j < i && chunks[j].chunkId == id
        invariant forall j :: 0 <= j < i ==> PayloadMatches(docs, chunks[j], allowMissing)
      {
        var document := documents.value[i];
        assert document.id == chunks[i].chunkId;
        if document.id in seen || document.id !in expected {
          return Raised(NotReady);
        }
        seen := seen + {document.id};
        if document.found.None? && allowMissing {
          continue;
        }
        if document.found.None? || Inactivated(document.found.value) != expected[document.id] {
          assert !PayloadMatches(docs, chunks[i], allowMissing);
          return Raised(NotReady);
        }
      }
      r := Ok(());
    }

    /** Create the index if it is missing, then check that it is the one staged for these chunks. */
    method OpenIndex(key: VersionKey, chunks: seq<Chunk>) returns (r: Result<Meta, Error>)
      modifies store`index
      ensures store.index == old(store.index) ||
        (old(store.index).None? && store.index == Some(Index.Index(StagedMeta(key, chunks), map[])))
      ensures r.Ok? ==> store.index.Some? && r.value == store.index.value.meta == StagedMeta(key, chunks) && chunks != []
      ensures store.healthy && chunks != [] && old(Resumable(store.index, key, chunks)) ==> r.Ok?
    {
      var present := store.Exists();
      if present.None? {
        return Raised(Unavailable);
      }
      if !present.value {
        var reply := store.Create(StagedMeta(key, chunks));
        if reply.RefusedNotReady? {
          present := store.Exists();
          if present.None? || !present.value {
            return Raised(NotReady);
          }
        } else if reply.Failed? {
          return Raised(Unavailable);
        }
      }
      var identity := InspectIdentity(key.ownerId, key.versionId);
      if identity.Raised? {
        return Raised(identity.error);
      }
      if identity.value != StagedMeta(key, chunks) {
        return Raised(NotReady);
      }
      r := identity;
    }

    /** Write every chunk over an incomplete index and insist on the full count. */
    method Reindex(key: VersionKey, chunks: seq<Chunk>) returns (r: Result<(), Error>)
      requires CanStage(key, chunks) && store.index.Some?
      modifies store`index
      ensures store.index.Some? && store.index.value.meta == old(store.index).value.meta
      ensures PartlyWritten(old(store.index).value.docs, store.index.value.docs, chunks)
      ensures store.index != old(store.index) ==> PayloadsMatch(old(store.index).value.docs, chunks, true)
      ensures r.Ok? ==> store.index.value.docs == ById(chunks)
      ensures
        store.healthy && old(store.index).value.docs.Keys <= IdSet(chunks) &&
        PayloadsMatch(old(store.index).value.docs, chunks, true)
        ==> r.Ok?
    {
      var payloads := VerifySourcePayloads(chunks, true);
      if payloads.Raised? {
        return Raised(payloads.error);
      }
      ReindexedCount(store.index.value.docs, key, chunks);
      var ok := store.Bulk(chunks);
      if !ok {
        return Raised(NotReady);
      }
      var recount := VerifyOwnedCount(key, |chunks|, false);
      r := if recount.Ok? then Ok(()) else Raised(recount.error);
    }

    /** Re-index every chunk unless the counts already agree, then compare all payloads. */
    method FillIndex(key: VersionKey, chunks: seq<Chunk>) returns (r: Result<(), Error>)
      requires CanStage(key, chunks)
      requires store.index.Some? && store.index.value.meta == StagedMeta(key, chunks)
      modifies store`index
      ensures store.index.Some? && store.index.value.meta == old(store.index).value.meta
      ensures PartlyWritten(old(store.index).value.docs, store.index.value.docs, chunks)
      ensures r.Ok? ==> Staged(store.index, key, chunks)
      ensures r.Ok? ==>
        store.index.value.docs ==
          if |old(store.index).value.docs| == |chunks| then old(store.index).value.docs else ById(chunks)
      ensures store.index != old(store.index) ==> WriteGuard(old(store.index).value.docs, key, chunks)
      ensures old(Resumable(store.index, key, chunks)) && store.healthy ==> r.Ok?
    {
      ghost var docs := store.index.value.docs;
      ByIdContents(chunks);
      IdSetCardinality(chunks);
      if Resumable(store.index, key, chunks) {
        ResumableIsOwned(docs, key, chunks);
      }
      var current := VerifyOwnedCount(key, |chunks|, true);
      if current.Raised? {
        return Raised(current.error);
      }
      if current.value < |chunks| {
        r := Reindex(key, chunks);
        if r.Raised? {
          return;
        }
        AllPresent(ById(chunks), chunks);
      } else if Resumable(store.index, key, chunks) {
        SubsetCardinality(docs.Keys, IdSet(chunks));
        AllPresent(docs, chunks);
      }
      r := VerifySourcePayloads(chunks, false);
      if r.Ok? {
        SubsetCardinality(IdSet(chunks), store.index.value.docs.Keys);
      }
    }

    method EnsureStaged(key: VersionKey, chunks: seq<Chunk>) returns (r: Result<Receipt, Error>)
      modifies store`index
      // A malformed request touches nothing.
      ensures !CanStage(key, chunks) ==> r == Raised(InvalidRequest) && store.index == old(store.index)
      // Success means exactly the given chunks, modulo the active flag.
      ensures r.Ok? ==> Staged(store.index, key, chunks)
      ensures r.Ok? ==> r.value == Receipt(Elasticsearch, key.ownerId, key.versionId, |chunks|, chunks)
      // A complete index is left alone; an incomplete one is re-indexed in full, which deactivates every chunk.
      ensures r.Ok? ==>
        store.index.value.docs ==
          if old(store.index).Some? && |old(store.index).value.docs| == |chunks| then old(store.index).value.docs
          else ById(chunks)
      ensures old(Staged(store.index, key, chunks)) ==> store.index == old(store.index)
      // Whatever happens, an existing index keeps its identity and every document that is not one of the chunks.
      ensures old(store.index).Some? ==> store.index.Some? && store.index.value.meta == old(store.index).value.meta
      ensures old(store.index).Some? ==> PartlyWritten(old(store.index).value.docs, store.index.value.docs, chunks)
      ensures old(store.index).Some? && store.index != old(store.index) ==>
        old(store.index).value.meta == StagedMeta(key, chunks) && WriteGuard(old(store.index).value.docs, key, chunks)
      // Aborted attempts stay resumable, and a resumable index is completed once the store answers.
      ensures old(Resumable(store.index, key, chunks)) ==> Resumable(store.index, key, chunks)
      ensures CanStage(key, chunks) && old(Resumable(store.index, key, chunks)) && store.healthy ==> r.Ok?
      // Staging never activates anything.
      ensures ActiveIds(store.index, key.ownerId, key.versionId) <= old(ActiveIds(store.index, key.ownerId, key.versionId))
    {
      if !CanStage(key, chunks) {
        return Raised(InvalidRequest);
      }
      var found := OpenIndex(key, chunks);
      if found.Raised? {
        return Raised(found.error);
      }
      label filling:
      var filled := FillIndex(key, chunks);
      if Resumable(old@filling(store.index), key, chunks) {
        WriteKeepsResumable(old@filling(store.index).value.docs, store.index.value.docs, chunks);
      }
      if old(Staged(store.index, key, chunks)) {
        IdSetCardinality(chunks);
      }
      WriteNeverActivates(old@filling(store.index).value.docs, store.index.value.docs, chunks, key.ownerId, key.versionId);
      if filled.Raised? {
        return Raised(filled.error);
      }
      r := Ok(Receipt(Elasticsearch, key.ownerId, key.versionId, found.value.chunkCount, found.value.source));
    }

    method SetActive(ownerId: string, versionId: string, active: bool) returns (r: Result<(), Error>)
      modifies store`index
      ensures !ValidIdentity(ownerId, versionId) ==> r == Raised(InvalidRequest) && store.index == old(store.index)
      ensures store.index.Some? == old(store.index).Some?
      ensures store.index.Some? ==>
        store.index.value.meta == old(store.index).value.meta &&
        PartlyToggled(old(store.index).value.docs, store.index.value.docs, ownerId, versionId, active)
      // Success demands the full count in the wanted state.
      ensures r.Ok? ==>
        store.index.Some? && IdentityOk(store.index.value.meta, ownerId, versionId) &&
        store.index.value.docs == Toggled(old(store.index).value.docs, ownerId, versionId, active) &&
        |StateIds(store.index.value.docs, ownerId, versionId, active)| == store.index.value.meta.chunkCount
      ensures
        store.healthy && ValidIdentity(ownerId, versionId) && old(store.index).Some? &&
        IdentityOk(old(store.index).value.meta, ownerId, versionId) &&
        |MatchingIds(old(store.index).value.docs, ownerId, versionId)| == old(store.index).value.meta.chunkCount
        ==> r.Ok?
    {
      if !ValidIdentity(ownerId, versionId) {
        return Raised(InvalidRequest);
      }
      var present := store.Exists();
      if present.None? || !present.value {
        return Raised(if present.None? then Unavailable else NotReady);
      }
      var identity := InspectIdentity(ownerId, versionId);
      if identity.Raised? {
        return Raised(identity.error);
      }
      ghost var docs := store.index.value.docs;
      var ok := store.UpdateByQuery(ownerId, versionId, active);
      if !ok {
        return Raised(NotReady);
      }
      assert StateIds(store.index.value.docs, ownerId, versionId, active) == MatchingIds(docs, ownerId, versionId);
      var matching := store.CountState(ownerId, versionId, active);
      if matching.None? || matching.value != identity.value.chunkCount {
        return Raised(if matching.None? then Unavailable else NotReady);
      }
      r := Ok(());
    }

    method ActivateVersion(ownerId: string, versionId: string) returns (r: Result<(), Error>)
      modifies store`index
      ensures !ValidIdentity(ownerId, versionId) ==> r == Raised(InvalidRequest) && store.index == old(store.index)
      ensures store.index.Some? == old(store.index).Some?
      ensures store.index.Some? ==>
        store.index.value.meta == old(store.index).value.meta &&
        PartlyToggled(old(store.index).value.docs, store.index.value.docs, ownerId, versionId, true)
      ensures r.Ok? ==>
        store.index.Some? && IdentityOk(store.index.value.meta, ownerId, versionId) &&
        store.index.value.docs == Toggled(old(store.index).value.docs, ownerId, versionId, true) &&
        |ActiveIds(store.index, ownerId, versionId)| == store.index.value.meta.chunkCount
      ensures
        store.healthy && ValidIdentity(ownerId, versionId) && old(store.index).Some? &&
        IdentityOk(old(store.index).value.meta, ownerId, versionId) &&
        |MatchingIds(old(store.index).value.docs, ownerId, versionId)| == old(store.index).value.meta.chunkCount
        ==> r.Ok?
    {
      r := SetActive(ownerId, versionId, true);
    }

    method DeactivateVersion(ownerId: string, versionId: string) returns (r: Result<(), Error>)
      modifies store`index
      ensures !ValidIdentity(ownerId, versionId) ==> r == Raised(InvalidRequest) && store.index == old(store.index)
      ensures store.index.Some? == old(store.index).Some?
      ensures store.index.Some? ==>
        store.index.value.meta == old(store.index).value.meta &&
        PartlyToggled(old(store.index).value.docs, store.index.value.docs, ownerId, versionId, false)
      ensures r.Ok? && store.index.Some? ==>
        IdentityOk(store.index.value.meta, ownerId, versionId) &&
        store.index.value.docs == Toggled(old(store.index).value.docs, ownerId, versionId, false) &&
        |StateIds(store.index.value.docs, ownerId, versionId, false)| == store.index.value.meta.chunkCount
      ensures r.Ok? ==> ActiveIds(store.index, ownerId, versionId) == {}
      // An absent index is fine; any other must be complete.
      ensures store.healthy && ValidIdentity(ownerId, versionId) && old(Deactivable(store.index, ownerId, versionId)) ==>
        r.Ok?
    {
      if !ValidIdentity(ownerId, versionId) {
        return Raised(InvalidRequest);
      }
      var present := store.Exists();
      if present.None? {
        return Raised(Unavailable);
      }
      if !present.value {
        return Ok(());
      }
      r := SetActive(ownerId, versionId, false);
    }

    method VerifyOnlineVersion(key: VersionKey) returns (r: Result<(), Error>)
      ensures !ValidIdentity(key.ownerId, key.versionId) ==> r == Raised(InvalidRequest)
      ensures r.Ok? ==> Online(store.index, key)
      ensures store.healthy && ValidIdentity(key.ownerId, key.versionId) && Online(store.index, key) ==> r.Ok?
    {
      if !ValidIdentity(key.ownerId, key.versionId) {
        return Raised(InvalidRequest);
      }
      var identity := InspectIdentity(key.ownerId, key.versionId);
      if identity.Raised? {
        return Raised(identity.error);
      }
      if identity.value.documentId != key.documentId {
        return Raised(NotReady);
      }
      var expected := identity.value.chunkCount;
      var counts := store.Counts(key);
      if counts.None? {
        return Raised(Unavailable);
      }
      var total, owned, active := counts.value.0, counts.value.1, counts.value.2;
      if total != owned || total != expected || active != expected {
        return Raised(NotReady);
      }
      r := Ok(());
    }

    method DeleteVersion(ownerId: string, versionId: string) returns (r: Result<bool, Error>)
      modifies store`index
      ensures !ValidIdentity(ownerId, versionId) ==> r == Raised(InvalidRequest) && store.index == old(store.index)
      ensures store.index == old(store.index) || store.index == None
      ensures r.Ok? ==> store.index == None && r.value == old(store.index).Some?
      // Only an index of this very version is ever deleted.
      ensures store.index != old(store.index) ==> IdentityOk(old(store.index).value.meta, ownerId, versionId)
      ensures
        store.healthy && ValidIdentity(ownerId, versionId) &&
        (old(store.index).None? || IdentityOk(old(store.index).value.meta, ownerId, versionId))
        ==> r.Ok?
    {
      if !ValidIdentity(ownerId, versionId) {
        return Raised(InvalidRequest);
      }
      var present := store.Exists();
      if present.None? {
        return Raised(Unavailable);
      }
      if !present.value {
        return Ok(false);
      }
      var identity := InspectIdentity(ownerId, versionId);
      if identity.Raised? {
        return Raised(identity.error);
      }
      var acknowledged := store.Delete();
      if !acknowledged {
        return Raised(NotReady);
      }
      present := store.Exists();
      if present.None? || present.value {
        return Raised(NotReady);
      }
      r := Ok(true);
    }
  }

  // ---------------------------------------------------------------- facts about the states

  lemma ResumableIsOwned(docs: map<string, Chunk>, key: VersionKey, chunks: seq<Chunk>)
    requires CanStage(key, chunks)
    requires docs.Keys <= IdSet(chunks) && PayloadsMatch(docs, chunks, true)
    ensures OwnedIds(docs, key) == docs.Keys && |docs| <= |chunks|
  {
    forall k | k in docs ensures OwnedBy(docs[k], key) {
      var i :| 0 <= i < |chunks| && chunks[i].chunkId == k;
      assert Inactivated(docs[k]) == chunks[i];
    }
    IdSetCardinality(chunks);
    SubsetCardinality(docs.Keys, IdSet(chunks));
  }

  lemma WriteKeepsResumable(before: map<string, Chunk>, after: map<string, Chunk>, chunks: seq<Chunk>)
    requires UniqueIds(chunks) && (forall i :: 0 <= i < |chunks| ==> !chunks[i].isActive)
    requires PayloadsMatch(before, chunks, true) && PartlyWritten(before, after, chunks)
    ensures PayloadsMatch(after, chunks, true)
    ensures before.Keys <= IdSet(chunks) ==> after.Keys <= IdSet(chunks)
  {
    forall i | 0 <= i < |chunks| && chunks[i].chunkId in after
      ensures Inactivated(after[chunks[i].chunkId]) == chunks[i]
    {
      var k := chunks[i].chunkId;
      if !(k in before && after[k] == before[k]) {
        var j :| 0 <= j < |chunks| && chunks[j] == after[k];
        assert i == j;
      }
    }
  }

  /** After a complete bulk write, the count alone tells whether anything but the chunks is stored. */
  lemma ReindexedCount(before: map<string, Chunk>, key: VersionKey, chunks: seq<Chunk>)
    requires CanStage(key, chunks)
    ensures |before + ById(chunks)| == |chunks| ==> before + ById(chunks) == ById(chunks)
    ensures before.Keys <= IdSet(chunks) ==>
      before + ById(chunks) == ById(chunks) &&
      |ById(chunks)| == |chunks| && OwnedIds(ById(chunks), key) == ById(chunks).Keys
  {
    StagedDocs(chunks, key);
    OverlayAll(before, ById(chunks));
  }

  lemma StagedDocs(chunks: seq<Chunk>, key: VersionKey)
    requires CanStage(key, chunks)
    ensures ById(chunks).Keys == IdSet(chunks) && |ById(chunks).Keys| == |ById(chunks)| == |chunks|
    ensures OwnedIds(ById(chunks), key) == ById(chunks).Keys
  {
    ByIdContents(chunks);
    IdSetCardinality(chunks);
    assert |ById(chunks)| == |ById(chunks).Keys|;
  }

  lemma AllPresent(docs: map<string, Chunk>, chunks: seq<Chunk>)
    requires docs.Keys == IdSet(chunks) && PayloadsMatch(docs, chunks, true)
    ensures PayloadsMatch(docs, chunks, false)
  {
    forall i | 0 <= i < |chunks| ensures chunks[i].chunkId in docs {
      assert chunks[i].chunkId in IdSet(chunks);
    }
  }

  lemma WriteNeverActivates(before: map<string, Chunk>, after: map<string, Chunk>, chunks: seq<Chunk>,
                            ownerId: string, versionId: string)
    requires (forall i :: 0 <= i < |chunks| ==> !chunks[i].isActive) && PartlyWritten(before, after, chunks)
    ensures StateIds(after, ownerId, versionId, true) <= StateIds(before, ownerId, versionId, true)
  {
    forall k | k in StateIds(after, ownerId, versionId, true) ensures k in StateIds(before, ownerId, versionId, true) {
    }
  }

  /** Every document of a staged index answers to the toggle, and after activation every chunk is active. */
  lemma StagedMatches(index: Option<Index>, key: VersionKey, chunks: seq<Chunk>)
    requires CanStage(key, chunks) && Staged(index, key, chunks)
    ensures |MatchingIds(index.value.docs, key.ownerId, key.versionId)| == |chunks|
    ensures StateIds(Toggled(index.value.docs, key.ownerId, key.versionId, true), key.ownerId, key.versionId, true) == IdSet(chunks)
    ensures forall after :: PartlyToggled(index.value.docs, after, key.ownerId, key.versionId, true) ==>
      PayloadsMatch(after, chunks, false)
  {
    var docs := index.value.docs;
    ResumableIsOwned(docs, key, chunks);
    IdSetCardinality(chunks);
    forall k | k in docs ensures Matches(docs[k], key.ownerId, key.versionId) {
      assert k in OwnedIds(docs, key);
    }
    assert MatchingIds(docs, key.ownerId, key.versionId) == IdSet(chunks);
    ToggledKeepsPayloads(docs, key, chunks);
  }

  lemma ToggledKeepsPayloads(docs: map<string, Chunk>, key: VersionKey, chunks: seq<Chunk>)
    requires PayloadsMatch(docs, chunks, false)
    ensures forall after :: PartlyToggled(docs, after, key.ownerId, key.versionId, true) ==>
      PayloadsMatch(after, chunks, false)
  {
  }

  /** Toggling moves the set of active documents in one direction only. */
  lemma ToggleIsMonotone(before: map<string, Chunk>, after: map<string, Chunk>, ownerId: string, versionId: string,
                         active: bool)
    requires PartlyToggled(before, after, ownerId, versionId, active)
    ensures active ==> StateIds(before, ownerId, versionId, true) <= StateIds(after, ownerId, versionId, true)
    ensures !active ==> StateIds(after, ownerId, versionId, true) <= StateIds(before, ownerId, versionId, true)
  {
  }

  lemma StagedIsOwned(index: Option<Index>, key: VersionKey, chunks: seq<Chunk>)
    requires CanStage(key, chunks) && Staged(index, key, chunks)
    ensures index.Some? && index.value.meta == StagedMeta(key, chunks) && |chunks| >= 1
    ensures OwnedIds(index.value.docs, key) == index.value.docs.Keys &&
      |index.value.docs| == |index.value.docs.Keys| == |chunks|
  {
    ResumableIsOwned(index.value.docs, key, chunks);
    IdSetCardinality(chunks);
  }

  /** Activating a staged index puts it online, for the very document it was staged for. */
  lemma ActivatedIsOnline(index: Option<Index>, key: VersionKey, chunks: seq<Chunk>)
    requires CanStage(key, chunks) && Staged(index, key, chunks)
    ensures Online(Some(Index.Index(index.value.meta, Toggled(index.value.docs, key.ownerId, key.versionId, true))), key)
  {
    hide CanStage, PayloadsMatch, Staged, IdSet, IsContractId;
    StagedIsOwned(index, key, chunks);
    var docs := index.value.docs;
    var active := Toggled(docs, key.ownerId, key.versionId, true);
    forall k | k in docs ensures OwnedBy(docs[k], key) {
      assert k in OwnedIds(docs, key);
    }
    assert OwnedIds(active, key) == docs.Keys;
    assert (set k | k in active && OwnedBy(active[k], key) && active[k].isActive) == docs.Keys;
    assert |active| == |active.Keys|;
  }

  /** An online index carries this identity, and every document it stores is of this very document version and active. */
  lemma OnlineIsOwned(index: Option<Index>, key: VersionKey, k: string)
    requires Online(index, key)
    ensures var meta := index.value.meta;
      meta.configurationOk && meta.ownerId == key.ownerId && meta.documentId == key.documentId && meta.versionId == key.versionId &&
      meta.chunkCount >= 1 && |index.value.docs| == meta.chunkCount
    ensures k in index.value.docs ==>
      var doc := index.value.docs[k];
      doc.tenantId == key.ownerId && doc.documentId == key.documentId && doc.versionId == key.versionId && doc.isActive
  {
    var docs := index.value.docs;
    var active := set k | k in docs && OwnedBy(docs[k], key) && docs[k].isActive;
    assert |docs| == |docs.Keys|;
    SubsetCardinality(active, docs.Keys);
  }

  /** Nothing stored can be resumed, and so can whatever is staged already. */
  lemma StagedIsResumable(index: Option<Index>, key: VersionKey, chunks: seq<Chunk>)
    ensures Resumable(None, key, chunks)
    ensures Staged(index, key, chunks) ==> Resumable(index, key, chunks)
  {
  }

  /** A full count of inactive documents, or no index at all, rules the online check out for every document
      identifier. */
  lemma DeactivatedIsOffline(index: Option<Index>, key: VersionKey)
    requires index.Some? ==> index.value.meta.chunkCount >= 1 && ActiveIds(index, key.ownerId, key.versionId) == {}
    ensures !Online(index, key)
  {
    if index.Some? {
      var docs := index.value.docs;
      assert forall k :: k in docs && OwnedBy(docs[k], key) && docs[k].isActive ==>
        k in ActiveIds(index, key.ownerId, key.versionId);
      assert (set k | k in docs && OwnedBy(docs[k], key) && docs[k].isActive) == {};
    }
  }
}
