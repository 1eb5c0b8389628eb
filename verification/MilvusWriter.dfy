/** The version writer over one Milvus collection, and the store it talks to. */
module MilvusWriter {
  import opened Basics
  import opened Chunks
  import opened MilvusRows

  datatype Error = InvalidRequest | NotReady | Unavailable

  /** One collection behind an unreliable connection. While `healthy` is false, any call may fail
      before its effect, after it, or part-way. */
  class Store {
    var collection: Option<Collection>
    var healthy: bool

    constructor (collection: Option<Collection>, healthy: bool)
      ensures this.collection == collection && this.healthy == healthy
    {
      this.collection, this.healthy := collection, healthy;
    }

    method HasCollection() returns (r: Option<bool>)
      ensures r.Some? ==> r.value == collection.Some?
      ensures healthy ==> r.Some?
    {
      var lost: bool := *;
      r := if !healthy && lost then None else Some(collection.Some?);
    }

    method Create(meta: Meta) returns (ok: bool)
      modifies this`collection
      ensures collection == old(collection) || (old(collection).None? && collection == Some(Collection(meta, [])))
      ensures ok ==> old(collection).None? && collection == Some(Collection(meta, []))
      ensures healthy && old(collection).None? ==> ok
    {
      var lost: bool, unanswered: bool := *, *;
      if collection.Some? || (!healthy && lost) {
        return false;
      }
      collection := Some(Collection(meta, []));
      ok := healthy || !unanswered;
    }

    method Describe() returns (r: Option<Meta>)
      ensures r.Some? ==> collection.Some? && r.value == collection.value.meta
      ensures healthy && collection.Some? ==> r.Some?
    {
      var lost: bool := *;
      r := if collection.None? || (!healthy && lost) then None else Some(collection.value.meta);
    }

    /** A query returns at most `limit` rows. */
    method Query(limit: nat) returns (r: Option<seq<Row>>)
      ensures r.Some? ==> collection.Some? && r.value == Visible(collection.value.rows, limit)
      ensures healthy && collection.Some? ==> r.Some?
    {
      var lost: bool := *;
      r := if collection.None? || (!healthy && lost) then None else Some(Visible(collection.value.rows, limit));
    }

    method Upsert(updates: seq<Row>) returns (ok: bool, ghost picked: seq<bool>)
      requires collection.Some?
      modifies this`collection
      ensures collection.Some? && collection.value.meta == old(collection.value.meta) && |picked| == |updates|
      ensures collection.value.rows == UpsertPicked(old(collection.value.rows), updates, picked)
      ensures ok ==> AllPicked(picked)
      ensures healthy ==> ok
    {
      var meta, rows := collection.value.meta, collection.value.rows;
      ok, picked := true, [];
      for i := 0 to |updates|
        invariant |picked| == i && rows == UpsertPicked(old(collection.value.rows), updates[..i], picked)
        invariant ok ==> AllPicked(picked)
        invariant healthy ==> ok
      {
        var lost: bool := *;
        var applied := healthy || !lost;
        if applied {
          rows := UpsertOne(rows, updates[i]);
        } else {
          ok := false;
        }
        assert updates[..i + 1][..i] == updates[..i] && (picked + [applied])[..i] == picked;
        picked := picked + [applied];
      }
      assert updates[..|updates|] == updates;
      collection := Some(Collection(meta, rows));
      var unanswered: bool := *;
      ok := ok && (healthy || !unanswered);
    }

    method Drop() returns (ok: bool)
      modifies this`collection
      ensures collection == old(collection) || collection == None
      ensures ok ==> collection == None
      ensures healthy ==> ok
    {
      var lost: bool, unanswered: bool := *, *;
      if healthy || !lost {
        collection := None;
      }
      ok := collection.None? && (healthy || !unanswered);
    }
  }

  // ---------------------------------------------------------------- the writer

  class Writer {
    const store: Store
    const provider: string
    const embed: Chunk -> Vector

    constructor (store: Store, provider: string, embed: Chunk -> Vector)
      ensures this.store == store && this.provider == provider && this.embed == embed
    {
      this.store, this.provider, this.embed := store, provider, embed;
    }

    method InspectIdentity(ownerId: string, versionId: string) returns (r: Result<Meta, Error>)
      ensures r.Ok? ==> store.collection.Some? && r.value == store.collection.value.meta
      ensures r.Ok? ==> IdentityOk(r.value, ownerId, versionId)
      ensures store.healthy && store.collection.Some? && IdentityOk(store.collection.value.meta, ownerId, versionId) ==>
        r.Ok?
    {
      var meta := store.Describe();
      if meta.None? {
        return Raised(Unavailable);
      }
      r := if IdentityOk(meta.value, ownerId, versionId) then Ok(meta.value) else Raised(NotReady);
    }

    /** The embedding call may fail; when it answers, every vector must have the same positive length. */
    method EmbedChunks(chunks: seq<Chunk>) returns (r: Result<seq<Row>, Error>)
      ensures r.Ok? ==> Embeddable(chunks, embed) && r.value == RowsOf(chunks, embed)
      ensures store.healthy && Embeddable(chunks, embed) ==> r.Ok?
    {
      var lost: bool := *;
      if !store.healthy && lost {
        return Raised(Unavailable);
      }
      if !Embeddable(chunks, embed) {
        return Raised(InvalidRequest);
      }
      r := Ok(RowsOf(chunks, embed));
    }

    /** Returns the identifiers seen; `vectors` is the embedding each row must carry, when it is to be compared. */
    method VerifyExpectedRows(rows: seq<Row>, chunks: seq<Chunk>, meta: Meta, allowMissing: bool,
                              vectors: Option<map<string, Vector>>) returns (r: Result<set<string>, Error>)
      requires UniqueIds(chunks)
      ensures r.Ok? <==>
        RowsExpected(rows, meta, chunks) && VectorsAgree(rows, vectors) &&
        (allowMissing || StagedRows(rows, meta, chunks))
      ensures r.Ok? ==> r.value == RowIds(rows)
    {
      var expected := ById(chunks);
      ByIdContents(chunks);
      var seen: set<string> := {};
      for n := 0 to |rows|
        invariant seen == RowIds(rows[..n])
        invariant RowsExpected(rows[..n], meta, chunks) && VectorsAgree(rows[..n], vectors)
      {
        var row := rows[n];
        RowExpectedById(row, meta, chunks);
        NextRow(rows, n, meta, chunks, vectors);
        if !RowValid(row, meta) {
          return Raised(NotReady);
        }
        if row.chunkId in seen || row.chunkId !in expected {
          return Raised(NotReady);
        }
        if Inactivated(row.payload) != expected[row.chunkId] {
          return Raised(NotReady);
        }
        if vectors.Some? && (row.chunkId !in vectors.value || row.embedding != vectors.value[row.chunkId]) {
          return Raised(NotReady);
        }
        seen := seen + {row.chunkId};
      }
      assert rows[..|rows|] == rows;
      RowsAreChunks(rows, meta, chunks);
      IdSetCardinality(chunks);
      assert |expected| == |expected.Keys|;
      if |rows| > |expected| || (!allowMissing && seen != expected.Keys) {
        return Raised(NotReady);
      }
      if !allowMissing && VectorsOf(rows) != meta.embeddings {
        return Raised(NotReady);
      }
      r := Ok(seen);
    }

    /** Create the missing collection and insert every chunk. */
    method CreateCollection(key: VersionKey, chunks: seq<Chunk>) returns (r: Result<(), Error>)
      requires CanStage(key, chunks) && store.collection.None?
      modifies store`collection
      ensures Resumable(store.collection, key, chunks, provider, embed) && ActiveIds(store.collection) == {}
      ensures store.collection.Some? ==> |store.collection.value.rows| <= |chunks|
      ensures r.Ok? ==>
        Embeddable(chunks, embed) &&
        store.collection == Some(Collection(StagedMeta(key, chunks, provider, embed), RowsOf(chunks, embed)))
      ensures store.healthy && Embeddable(chunks, embed) ==> r.Ok?
    {
      var rows := EmbedChunks(chunks);
      if rows.Raised? {
        return Raised(rows.error);
      }
      var created := store.Create(StagedMeta(key, chunks, provider, embed));
      FreshRows([], chunks, key, provider, embed);
      if !created {
        return Raised(Unavailable);
      }
      var stored, picked := store.Upsert(rows.value);
      UpsertAppends([], rows.value, picked);
      assert store.collection.value.rows == Kept(rows.value, picked);
      KeptRows(chunks, picked, key, provider, embed);
      KeptIn(rows.value, picked);
      KeptLength(rows.value, picked);
      AppendedInactive([], store.collection.value.rows, chunks, embed);
      if !stored {
        return Raised(NotReady);
      }
      KeepAll(rows.value, picked);
      r := Ok(());
    }

    /** Create and fill the collection if it is missing, then check that it is the one staged for these chunks. */
    method OpenCollection(key: VersionKey, chunks: seq<Chunk>) returns (r: Result<Meta, Error>)
      requires CanStageRows(key, chunks)
      modifies store`collection
      ensures old(store.collection).Some? ==> store.collection == old(store.collection)
      ensures old(store.collection).None? ==>
        Resumable(store.collection, key, chunks, provider, embed) && ActiveIds(store.collection) == {} &&
        Bounded(store.collection)
      ensures r.Ok? ==> store.collection.Some? && r.value == store.collection.value.meta
      ensures r.Ok? ==> StagedIdentity(r.value, key, chunks, provider)
      ensures r.Ok? && old(store.collection).None? ==>
        Embeddable(chunks, embed) &&
        store.collection == Some(Collection(StagedMeta(key, chunks, provider, embed), RowsOf(chunks, embed)))
      ensures
        store.healthy && Embeddable(chunks, embed) && provider != "" &&
        old(Resumable(store.collection, key, chunks, provider, embed))
        ==> r.Ok?
    {
      var present := store.HasCollection();
      if present.None? {
        return Raised(Unavailable);
      }
      if !present.value {
        var created := CreateCollection(key, chunks);
        if created.Raised? {
          return Raised(created.error);
        }
      }
      var identity := InspectIdentity(key.ownerId, key.versionId);
      if identity.Raised? {
        return Raised(identity.error);
      }
      if !StagedIdentity(identity.value, key, chunks, provider) {
        return Raised(NotReady);
      }
      r := identity;
    }

    /** Insert missing chunks once their embeddings and those already stored are known to be the fingerprinted ones. */
    method InsertMissing(chunks: seq<Chunk>, rows: seq<Row>, meta: Meta, missing: seq<Chunk>)
      returns (r: Result<(), Error>, ghost picked: seq<bool>)
      requires UniqueIds(chunks) && store.collection == Some(Collection(meta, rows))
      requires RowsExpected(rows, meta, chunks) && missing == Missing(RowIds(rows), chunks)
      modifies store`collection
      ensures |picked| == |missing|
      ensures store.collection == Some(Collection(meta, rows + Kept(RowsOf(missing, embed), picked)))
      ensures store.collection != old(store.collection) || r.Ok? ==>
        Embeddable(chunks, embed) && meta.embeddings == EmbeddingsOf(chunks, embed) && EmbeddedRows(rows, chunks, embed)
      ensures r.Ok? ==> AllPicked(picked)
      ensures
        store.healthy && Embeddable(chunks, embed) && meta.embeddings == EmbeddingsOf(chunks, embed) &&
        EmbeddedRows(rows, chunks, embed)
        ==> r.Ok?
    {
      picked := seq(|missing|, i => false);
      KeepNone(RowsOf(missing, embed), picked);
      assert rows + [] == rows;
      var embedded := EmbedChunks(chunks);
      if embedded.Raised? {
        return Raised(embedded.error), picked;
      }
      var vectors := VectorsOf(embedded.value);
      EmbeddingsById(chunks, embed);
      if vectors != meta.embeddings {
        return Raised(NotReady), picked;
      }
      EmbeddedAgree(rows, meta, chunks, embed);
      var compared := VerifyExpectedRows(rows, chunks, meta, true, Some(vectors));
      if compared.Raised? {
        return Raised(compared.error), picked;
      }
      var stored;
      stored, picked := store.Upsert(RowsOf(missing, embed));
      MissingRowsAppend(rows, chunks, embed, picked);
      r := if stored then Ok(()) else Raised(NotReady);
    }

    /** Read the rows, insert the missing chunks, and only those, and read again what was written. */
    method InsertAndReread(key: VersionKey, chunks: seq<Chunk>, meta: Meta)
      returns (r: Result<seq<Row>, Error>, ghost picked: seq<bool>)
      requires CanStageRows(key, chunks) && StagedIdentity(meta, key, chunks, provider)
      requires store.collection.Some? && store.collection.value.meta == meta
      modifies store`collection
      ensures Appended(old(store.collection).value, store.collection, chunks, embed, picked)
      ensures store.collection != old(store.collection) ==>
        WriteGuard(old(store.collection).value, key, chunks, provider, embed)
      ensures r.Ok? ==> r.value == Visible(store.collection.value.rows, MAX_VERSION_ROWS)
      ensures r.Ok? ==>
        store.collection.value.rows == Filled(old(store.collection).value.rows, chunks, embed)
      ensures
        store.healthy && Embeddable(chunks, embed) && old(Resumable(store.collection, key, chunks, provider, embed))
        ==> r.Ok?
    {
      ghost var before := store.collection.value.rows;
      picked := seq(|Missing(RowIds(before), chunks)|, i => false);
      KeepNone(RowsOf(Missing(RowIds(before), chunks), embed), picked);
      assert before + [] == before;
      var rows := store.Query(MAX_VERSION_ROWS);
      if rows.None? {
        return Raised(Unavailable), picked;
      }
      if Resumable(store.collection, key, chunks, provider, embed) {
        RowsAreChunks(before, meta, chunks);
      }
      var seen := VerifyExpectedRows(rows.value, chunks, meta, true, None);
      if seen.Raised? {
        return Raised(seen.error), picked;
      }
      var missing := Missing(seen.value, chunks);
      MissingBound(rows.value, meta, chunks);
      if missing == [] {
        return Ok(rows.value), picked;
      }
      var inserted;
      inserted, picked := InsertMissing(chunks, rows.value, meta, missing);
      if inserted.Raised? {
        return Raised(inserted.error), picked;
      }
      KeepAll(RowsOf(missing, embed), picked);
      rows := store.Query(MAX_VERSION_ROWS);
      r := if rows.Some? then Ok(rows.value) else Raised(Unavailable);
    }

    /** Insert what is missing, then compare every row with its chunk. */
    method FillCollection(key: VersionKey, chunks: seq<Chunk>, meta: Meta)
      returns (r: Result<(), Error>, ghost picked: seq<bool>)
      requires CanStageRows(key, chunks) && StagedIdentity(meta, key, chunks, provider)
      requires store.collection.Some? && store.collection.value.meta == meta
      modifies store`collection
      ensures Appended(old(store.collection).value, store.collection, chunks, embed, picked)
      ensures store.collection != old(store.collection) ==>
        WriteGuard(old(store.collection).value, key, chunks, provider, embed)
      ensures r.Ok? ==> StagedRows(Visible(store.collection.value.rows, MAX_VERSION_ROWS), meta, chunks)
      ensures r.Ok? ==>
        store.collection.value.rows == Filled(old(store.collection).value.rows, chunks, embed)
      ensures
        store.healthy && Embeddable(chunks, embed) && old(Resumable(store.collection, key, chunks, provider, embed))
        ==> r.Ok?
    {
      ghost var before := store.collection;
      if Resumable(before, key, chunks, provider, embed) && Embeddable(chunks, embed) {
        RowsAreChunks(before.value.rows, meta, chunks);
        ResumableCompletes(before.value.rows, key, chunks, provider, embed);
      }
      var rows;
      rows, picked := InsertAndReread(key, chunks, meta);
      if rows.Raised? {
        return Raised(rows.error), picked;
      }
      var verified := VerifyExpectedRows(rows.value, chunks, meta, false, None);
      r := if verified.Ok? then Ok(()) else Raised(verified.error);
    }

    method EnsureStaged(key: VersionKey, chunks: seq<Chunk>) returns (r: Result<Receipt, Error>)
      modifies store`collection
      // A malformed request touches nothing.
      ensures !CanStageRows(key, chunks) ==> r == Raised(InvalidRequest) && store.collection == old(store.collection)
      // Success means exactly the given chunks, modulo the active flag, among the rows one query can return.
      ensures r.Ok? ==>
        store.collection.Some? && StagedIdentity(store.collection.value.meta, key, chunks, provider) &&
        StagedRows(Visible(store.collection.value.rows, MAX_VERSION_ROWS), store.collection.value.meta, chunks)
      ensures r.Ok? && (|chunks| < MAX_VERSION_ROWS || old(Bounded(store.collection))) ==>
        Staged(store.collection, key, chunks, provider) && Bounded(store.collection)
      ensures r.Ok? ==> r.value == Receipt(Milvus, key.ownerId, key.versionId, |chunks|, chunks)
      // Only the missing chunks are inserted; every stored row stays as it was.
      ensures r.Ok? ==>
        store.collection.value.rows ==
          Filled(if old(store.collection).Some? then old(store.collection).value.rows else [], chunks, embed)
      ensures old(Staged(store.collection, key, chunks, provider)) ==> store.collection == old(store.collection)
      ensures old(store.collection).Some? ==>
        store.collection.Some? && store.collection.value.meta == old(store.collection).value.meta &&
        old(store.collection).value.rows <= store.collection.value.rows
      ensures old(store.collection).Some? && store.collection != old(store.collection) ==>
        WriteGuard(old(store.collection).value, key, chunks, provider, embed)
      // Aborted attempts stay resumable, and a resumable collection is completed once the store answers.
      ensures CanStageRows(key, chunks) && old(Resumable(store.collection, key, chunks, provider, embed)) ==>
        Resumable(store.collection, key, chunks, provider, embed)
      ensures
        store.healthy && CanStageRows(key, chunks) && Embeddable(chunks, embed) && provider != "" &&
        old(Resumable(store.collection, key, chunks, provider, embed))
        ==> r.Ok?
      // Staging never activates anything, and never grows a collection beyond one query.
      ensures ActiveIds(store.collection) == old(ActiveIds(store.collection))
      ensures old(Bounded(store.collection)) ==> Bounded(store.collection)
    {
      if !CanStageRows(key, chunks) {
        return Raised(InvalidRequest);
      }
      if Staged(store.collection, key, chunks, provider) {
        StagedIsComplete(store.collection.value.rows, store.collection.value.meta, chunks);
      }
      var staged := StageRows(key, chunks);
      if staged.Raised? {
        return Raised(staged.error);
      }
      VisibleIsAll(if old(store.collection).Some? then old(store.collection).value.rows else [],
                   store.collection.value.rows, store.collection.value.meta, chunks, embed);
      r := Ok(Receipt(Milvus, key.ownerId, key.versionId, staged.value.chunkCount, staged.value.source));
    }

    method StageRows(key: VersionKey, chunks: seq<Chunk>) returns (r: Result<Meta, Error>)
      requires CanStageRows(key, chunks)
      modifies store`collection
      ensures r.Ok? ==>
        store.collection.Some? && StagedIdentity(store.collection.value.meta, key, chunks, provider) &&
        StagedRows(Visible(store.collection.value.rows, MAX_VERSION_ROWS), store.collection.value.meta, chunks)
      ensures r.Ok? ==> StagedIdentity(r.value, key, chunks, provider)
      ensures r.Ok? ==>
        store.collection.value.rows ==
          Filled(if old(store.collection).Some? then old(store.collection).value.rows else [], chunks, embed)
      ensures old(store.collection).Some? ==>
        store.collection.Some? && store.collection.value.meta == old(store.collection).value.meta &&
        old(store.collection).value.rows <= store.collection.value.rows
      ensures old(store.collection).Some? && store.collection != old(store.collection) ==>
        WriteGuard(old(store.collection).value, key, chunks, provider, embed)
      ensures old(Resumable(store.collection, key, chunks, provider, embed)) ==>
        Resumable(store.collection, key, chunks, provider, embed)
      ensures
        store.healthy && Embeddable(chunks, embed) && provider != "" &&
        old(Resumable(store.collection, key, chunks, provider, embed))
        ==> r.Ok?
      ensures ActiveIds(store.collection) == old(ActiveIds(store.collection))
      ensures old(Bounded(store.collection)) ==> Bounded(store.collection)
    {
      var found := OpenCollection(key, chunks);
      if found.Raised? {
        return found;
      }
      ghost var staged := store.collection.value;
      var filled, picked := FillCollection(key, chunks, found.value);
      AppendedKeeps(staged, store.collection, key, chunks, provider, embed, picked);
      if old(store.collection).None? {
        NothingMissing(chunks, embed);
      }
      if filled.Raised? {
        return Raised(filled.error);
      }
      r := found;
    }

    /** Check the lifecycle of the rows read, and their state when one is expected. */
    method VerifyLifecycleRows(rows: seq<Row>, meta: Meta, allowIncomplete: bool, state: Option<bool>)
      returns (r: Result<(), Error>)
      ensures r.Ok? <==> LifecycleRows(rows, meta, allowIncomplete) && (state.Some? ==> AllInState(rows, state.value))
      ensures r.Ok? || r == Raised(NotReady)
    {
      if |rows| > meta.chunkCount || (!allowIncomplete && |rows| != meta.chunkCount) {
        return Raised(NotReady);
      }
      var seen: set<string> := {};
      for n := 0 to |rows|
        invariant seen == RowIds(rows[..n]) && UniqueRows(rows[..n])
        invariant forall i :: 0 <= i < n ==> RowValid(rows[i], meta)
        invariant state.Some? ==> AllInState(rows[..n], state.value)
      {
        var row := rows[n];
        NextUnique(rows, n);
        if !RowValid(row, meta) || row.chunkId in seen {
          return Raised(NotReady);
        }
        seen := seen + {row.chunkId};
        if state.Some? && row.payload.isActive != state.value {
          return Raised(NotReady);
        }
      }
      assert rows[..|rows|] == rows;
      if !allowIncomplete && VectorsOf(rows) != meta.embeddings {
        return Raised(NotReady);
      }
      r := Ok(());
    }

    /** Write every row back with the wanted state. */
    method WriteState(rows: seq<Row>, active: bool) returns (ok: bool)
      requires store.collection.Some? && UniqueRows(rows) &&
        rows == Visible(store.collection.value.rows, MAX_VERSION_ROWS)
      modifies store`collection
      ensures PartlyToggled(old(store.collection), store.collection, active)
      ensures ok ==> Visible(store.collection.value.rows, MAX_VERSION_ROWS) == ToggledRows(rows, active)
      ensures store.healthy ==> ok
    {
      if rows == [] {
        return true;
      }
      ghost var before := store.collection.value.rows;
      var stored, picked := store.Upsert(ToggledRows(rows, active));
      assert before[..|rows|] == rows;
      UpsertToggles(before, |rows|, active, picked);
      if stored {
        assert Visible(store.collection.value.rows, MAX_VERSION_ROWS) == ToggledRows(rows, active);
      }
      ok := stored;
    }

    method SetActive(ownerId: string, versionId: string, active: bool, allowIncomplete: bool)
      returns (r: Result<(), Error>)
      modifies store`collection
      ensures !ValidIdentity(ownerId, versionId) ==> r == Raised(InvalidRequest) && store.collection == old(store.collection)
      // Whatever happens, rows differ at most in the active flag, and only towards the wanted state.
      ensures PartlyToggled(old(store.collection), store.collection, active)
      ensures r.Ok? ==> store.collection.Some? && IdentityOk(store.collection.value.meta, ownerId, versionId)
      ensures r.Ok? ==>
        var visible := Visible(store.collection.value.rows, MAX_VERSION_ROWS);
        visible == ToggledRows(Visible(old(store.collection).value.rows, MAX_VERSION_ROWS), active) &&
        LifecycleRows(visible, store.collection.value.meta, allowIncomplete) && AllInState(visible, active)
      ensures
        store.healthy && ValidIdentity(ownerId, versionId) && old(store.collection).Some? &&
        IdentityOk(old(store.collection).value.meta, ownerId, versionId) &&
        LifecycleRows(old(store.collection).value.rows, old(store.collection).value.meta, allowIncomplete)
        ==> r.Ok?
    {
      if !ValidIdentity(ownerId, versionId) {
        return Raised(InvalidRequest);
      }
      var present := store.HasCollection();
      if present.None? || !present.value {
        return Raised(if present.None? then Unavailable else NotReady);
      }
      var identity := InspectIdentity(ownerId, versionId);
      if identity.Raised? {
        return Raised(identity.error);
      }
      var rows := store.Query(MAX_VERSION_ROWS);
      if rows.None? {
        return Raised(Unavailable);
      }
      var checked := VerifyLifecycleRows(rows.value, identity.value, allowIncomplete, None);
      if checked.Raised? {
        return Raised(checked.error);
      }
      ToggleKeepsLifecycle(rows.value, identity.value, allowIncomplete, active);
      var stored := WriteState(rows.value, active);
      if !stored {
        return Raised(NotReady);
      }
      rows := store.Query(MAX_VERSION_ROWS);
      if rows.None? {
        return Raised(Unavailable);
      }
      r := VerifyLifecycleRows(rows.value, identity.value, allowIncomplete, Some(active));
    }

    method ActivateVersion(ownerId: string, versionId: string) returns (r: Result<(), Error>)
      modifies store`collection
      ensures !ValidIdentity(ownerId, versionId) ==> r == Raised(InvalidRequest) && store.collection == old(store.collection)
      ensures PartlyToggled(old(store.collection), store.collection, true)
      ensures r.Ok? ==> store.collection.Some? && IdentityOk(store.collection.value.meta, ownerId, versionId)
      ensures r.Ok? ==>
        var visible := Visible(store.collection.value.rows, MAX_VERSION_ROWS);
        visible == ToggledRows(Visible(old(store.collection).value.rows, MAX_VERSION_ROWS), true) &&
        LifecycleRows(visible, store.collection.value.meta, false) && AllInState(visible, true)
      ensures
        store.healthy && ValidIdentity(ownerId, versionId) && old(store.collection).Some? &&
        IdentityOk(old(store.collection).value.meta, ownerId, versionId) &&
        LifecycleRows(old(store.collection).value.rows, old(store.collection).value.meta, false)
        ==> r.Ok?
    {
      r := SetActive(ownerId, versionId, true, false);
    }

    /** A partial collection is tolerated here, unlike in the other index. */
    method DeactivateVersion(ownerId: string, versionId: string) returns (r: Result<(), Error>)
      modifies store`collection
      ensures !ValidIdentity(ownerId, versionId) ==> r == Raised(InvalidRequest) && store.collection == old(store.collection)
      ensures PartlyToggled(old(store.collection), store.collection, false)
      ensures r.Ok? && store.collection.Some? ==>
        IdentityOk(store.collection.value.meta, ownerId, versionId) &&
        AllInState(Visible(store.collection.value.rows, MAX_VERSION_ROWS), false)
      ensures r.Ok? && Bounded(store.collection) ==> ActiveIds(store.collection) == {}
      ensures
        store.healthy && ValidIdentity(ownerId, versionId) &&
        old(Deactivable(store.collection, ownerId, versionId))
        ==> r.Ok?
    {
      if !ValidIdentity(ownerId, versionId) {
        return Raised(InvalidRequest);
      }
      var present := store.HasCollection();
      if present.None? {
        return Raised(Unavailable);
      }
      if !present.value {
        return Ok(());
      }
      r := SetActive(ownerId, versionId, false, true);
    }

    /** Any failure to answer is reported as not ready. */
    method VerifyOnlineVersion(key: VersionKey) returns (r: Result<(), Error>)
      ensures !ValidIdentity(key.ownerId, key.versionId) ==> r == Raised(InvalidRequest)
      ensures ValidIdentity(key.ownerId, key.versionId) ==> r.Ok? || r == Raised(NotReady)
      ensures r.Ok? ==> Online(store.collection, key, provider)
      ensures store.healthy && ValidIdentity(key.ownerId, key.versionId) && Online(store.collection, key, provider) ==>
        r.Ok?
    {
      if !ValidIdentity(key.ownerId, key.versionId) {
        return Raised(InvalidRequest);
      }
      var identity := InspectIdentity(key.ownerId, key.versionId);
      if identity.Raised? {
        return Raised(NotReady);
      }
      if identity.value.documentId != key.documentId || identity.value.provider != provider {
        return Raised(NotReady);
      }
      var rows := store.Query(identity.value.chunkCount + 1);
      if rows.None? {
        return Raised(NotReady);
      }
      r := VerifyLifecycleRows(rows.value, identity.value, false, Some(true));
    }

    method DeleteVersion(ownerId: string, versionId: string) returns (r: Result<bool, Error>)
      modifies store`collection
      ensures !ValidIdentity(ownerId, versionId) ==> r == Raised(InvalidRequest) && store.collection == old(store.collection)
      ensures store.collection == old(store.collection) || store.collection == None
      ensures r.Ok? ==> store.collection == None && r.value == old(store.collection).Some?
      // Only a collection of this very version is ever dropped.
      ensures store.collection != old(store.collection) ==>
        IdentityOk(old(store.collection).value.meta, ownerId, versionId)
      ensures
        store.healthy && ValidIdentity(ownerId, versionId) &&
        (old(store.collection).None? || IdentityOk(old(store.collection).value.meta, ownerId, versionId))
        ==> r.Ok?
    {
      if !ValidIdentity(ownerId, versionId) {
        return Raised(InvalidRequest);
      }
      var present := store.HasCollection();
      if present.None? {
        return Raised(Unavailable);
      }
      if !present.value {
        return Ok(false);
      }
      var identity := InspectIdentity(ownerId, versionId);
      if identity.Raised? {
        return Raised(identity.error);
      }
      var dropped := store.Drop();
      if !dropped {
        return Raised(NotReady);
      }
      present := store.HasCollection();
      if present.None? || present.value {
        return Raised(NotReady);
      }
      r := Ok(true);
    }
  }
}
