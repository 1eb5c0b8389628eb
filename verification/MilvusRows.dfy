/** The rows of one Milvus collection: what makes them valid, staged, resumable or online, and what upserts
    do to them. */
module MilvusRows {
  import opened Basics
  import opened Chunks

  const MAX_VERSION_ROWS := 16_000

  type Vector = seq<real>

  datatype Row = Row(chunkId: string, embedding: Vector, documentId: string, tenantId: string, visibility: string,
                     libraryScopeIds: seq<string>, isActive: bool, payload: Chunk)

  /** `source` and `embeddings` are the fingerprinted values; `configurationOk` covers the fixed schema and index
      settings. */
  datatype Meta = Meta(configurationOk: bool, ownerId: string, documentId: string, versionId: string,
                       source: seq<Chunk>, chunkCount: int, provider: string, dimension: int, embeddings: map<string, Vector>)

  datatype Collection = Collection(meta: Meta, rows: seq<Row>)

  // ---------------------------------------------------------------- rows

  function RowOf(chunk: Chunk, vector: Vector): Row {
    Row(chunk.chunkId, vector, chunk.documentId, chunk.tenantId, chunk.visibility, chunk.libraryScopeIds, chunk.isActive, chunk)
  }

  function RowsOf(chunks: seq<Chunk>, embed: Chunk -> Vector): (rows: seq<Row>)
    ensures |rows| == |chunks| && forall i :: 0 <= i < |rows| ==> rows[i] == RowOf(chunks[i], embed(chunks[i]))
  {
    seq(|chunks|, i requires 0 <= i < |chunks| => RowOf(chunks[i], embed(chunks[i])))
  }

  /** The row check shared by every read. */
  predicate RowValid(row: Row, meta: Meta) {
    |row.embedding| == meta.dimension && row.payload.chunkId == row.chunkId &&
    row.payload.tenantId == meta.ownerId == row.tenantId &&
    row.payload.documentId == meta.documentId == row.documentId &&
    row.payload.versionId == meta.versionId && row.visibility == row.payload.visibility &&
    row.libraryScopeIds == row.payload.libraryScopeIds && row.isActive == row.payload.isActive
  }

  predicate UniqueRows(rows: seq<Row>) {
    forall i, j :: 0 <= i < j < |rows| ==> rows[i].chunkId != rows[j].chunkId
  }

  function RowIds(rows: seq<Row>): set<string> {
    set i | 0 <= i < |rows| :: rows[i].chunkId
  }

  function VectorsOf(rows: seq<Row>): map<string, Vector> {
    if rows == [] then map[]
    else VectorsOf(rows[..|rows| - 1])[rows[|rows| - 1].chunkId := rows[|rows| - 1].embedding]
  }

  function EmbeddingsOf(chunks: seq<Chunk>, embed: Chunk -> Vector): map<string, Vector> {
    VectorsOf(RowsOf(chunks, embed))
  }

  /** A row is one of the chunks, up to the active flag. */
  predicate RowExpected(row: Row, meta: Meta, chunks: seq<Chunk>) {
    RowValid(row, meta) && Inactivated(row.payload) in chunks
  }

  predicate RowsExpected(rows: seq<Row>, meta: Meta, chunks: seq<Chunk>) {
    UniqueRows(rows) && forall i :: 0 <= i < |rows| ==> RowExpected(rows[i], meta, chunks)
  }

  function Toggled(row: Row, active: bool): Row {
    row.(isActive := active, payload := row.payload.(isActive := active))
  }

  function ToggledRows(rows: seq<Row>, active: bool): (r: seq<Row>)
    ensures |r| == |rows| && forall i :: 0 <= i < |r| ==> r[i] == Toggled(rows[i], active)
  {
    seq(|rows|, i requires 0 <= i < |rows| => Toggled(rows[i], active))
  }

  function Visible(rows: seq<Row>, limit: nat): seq<Row> {
    if |rows| <= limit then rows else rows[..limit]
  }

  /** The chunks whose identifiers were not seen, in their own order. */
  function Missing(seen: set<string>, chunks: seq<Chunk>): seq<Chunk> {
    if chunks == [] then []
    else
      var last := chunks[|chunks| - 1];
      Missing(seen, chunks[..|chunks| - 1]) + if last.chunkId in seen then [] else [last]
  }

  /** The stored rows followed by a new row for each chunk that a query could not find. */
  function Filled(before: seq<Row>, chunks: seq<Chunk>, embed: Chunk -> Vector): seq<Row> {
    before + RowsOf(Missing(RowIds(Visible(before, MAX_VERSION_ROWS)), chunks), embed)
  }

  // ---------------------------------------------------------------- what the states mean

  predicate IdentityOk(meta: Meta, ownerId: string, versionId: string) {
    meta.configurationOk && meta.ownerId == ownerId && meta.versionId == versionId &&
    1 <= meta.chunkCount <= MAX_VERSION_ROWS && meta.dimension >= 1 && IsContractId(meta.documentId) &&
    meta.provider != ""
  }

  function StagedMeta(key: VersionKey, chunks: seq<Chunk>, provider: string, embed: Chunk -> Vector): Meta
    requires chunks != []
  {
    Meta(true, key.ownerId, key.documentId, key.versionId, chunks, |chunks|, provider,
         |embed(chunks[0])|, EmbeddingsOf(chunks, embed))
  }

  /** What the identity check compares when staging: everything but the embedding fingerprint. */
  predicate StagedIdentity(meta: Meta, key: VersionKey, chunks: seq<Chunk>, provider: string) {
    IdentityOk(meta, key.ownerId, key.versionId) && meta.documentId == key.documentId && meta.source == chunks &&
    meta.chunkCount == |chunks| && meta.provider == provider
  }

  /** The rows are exactly the given chunks, up to the active flag, with the fingerprinted embeddings. */
  predicate StagedRows(rows: seq<Row>, meta: Meta, chunks: seq<Chunk>) {
    RowsExpected(rows, meta, chunks) && RowIds(rows) == IdSet(chunks) && VectorsOf(rows) == meta.embeddings
  }

  ghost predicate Staged(collection: Option<Collection>, key: VersionKey, chunks: seq<Chunk>, provider: string) {
    collection.Some? && StagedIdentity(collection.value.meta, key, chunks, provider) &&
    StagedRows(collection.value.rows, collection.value.meta, chunks)
  }

  predicate EmbeddedRows(rows: seq<Row>, chunks: seq<Chunk>, embed: Chunk -> Vector) {
    forall i :: 0 <= i < |rows| ==> rows[i].embedding == embed(Inactivated(rows[i].payload))
  }

  predicate VectorsAgree(rows: seq<Row>, vectors: Option<map<string, Vector>>) {
    vectors.Some? ==> forall i :: 0 <= i < |rows| ==>
      rows[i].chunkId in vectors.value && rows[i].embedding == vectors.value[rows[i].chunkId]
  }

  /** What aborted staging attempts can leave behind: nothing, or the right identity over some of the chunks. */
  ghost predicate Resumable(collection: Option<Collection>, key: VersionKey, chunks: seq<Chunk>, provider: string,
                      embed: Chunk -> Vector) {
    collection.None? ||
    (chunks != [] && collection.value.meta == StagedMeta(key, chunks, provider, embed) &&
     RowsExpected(collection.value.rows, collection.value.meta, chunks) &&
     EmbeddedRows(collection.value.rows, chunks, embed))
  }

  /** What must have been seen of an existing collection before a missing chunk is inserted into it. */
  ghost predicate WriteGuard(collection: Collection, key: VersionKey, chunks: seq<Chunk>, provider: string,
                       embed: Chunk -> Vector) {
    StagedIdentity(collection.meta, key, chunks, provider) &&
    collection.meta.embeddings == EmbeddingsOf(chunks, embed) &&
    RowsExpected(collection.rows, collection.meta, chunks) && EmbeddedRows(collection.rows, chunks, embed) &&
    Embeddable(chunks, embed) && |collection.rows| < |chunks|
  }

  /** Some of the missing chunks were inserted behind the stored rows; nothing else changed. */
  ghost predicate Appended(before: Collection, after: Option<Collection>, chunks: seq<Chunk>, embed: Chunk -> Vector,
                     picked: seq<bool>) {
    var missing := Missing(RowIds(before.rows), chunks);
    |picked| == |missing| && after == Some(Collection(before.meta, before.rows + Kept(RowsOf(missing, embed), picked)))
  }

  predicate Embeddable(chunks: seq<Chunk>, embed: Chunk -> Vector) {
    chunks != [] && |embed(chunks[0])| >= 1 && forall i :: 0 <= i < |chunks| ==>
      |embed(chunks[i])| == |embed(chunks[0])|
  }

  predicate CanStageRows(key: VersionKey, chunks: seq<Chunk>) {
    CanStage(key, chunks) && |chunks| <= MAX_VERSION_ROWS &&
    forall i :: 0 <= i < |chunks| ==> IsContractId(chunks[i].chunkId)
  }

  function ActiveRows(rows: seq<Row>): set<string> {
    set i | 0 <= i < |rows| && rows[i].isActive :: rows[i].chunkId
  }

  function ActiveIds(collection: Option<Collection>): set<string> {
    if collection.None? then {} else ActiveRows(collection.value.rows)
  }

  predicate Bounded(collection: Option<Collection>) {
    collection.Some? ==> |collection.value.rows| <= MAX_VERSION_ROWS
  }

  /** The lifecycle row check. */
  predicate LifecycleRows(rows: seq<Row>, meta: Meta, allowIncomplete: bool) {
    |rows| <= meta.chunkCount && UniqueRows(rows) && (forall i :: 0 <= i < |rows| ==> RowValid(rows[i], meta)) &&
    (allowIncomplete || (|rows| == meta.chunkCount && VectorsOf(rows) == meta.embeddings))
  }

  predicate AllInState(rows: seq<Row>, active: bool) {
    forall i :: 0 <= i < |rows| ==> rows[i].isActive == active
  }

  /** What deactivation demands of a collection: none, or valid rows under this identity, perhaps not all of them. */
  ghost predicate Deactivable(collection: Option<Collection>, ownerId: string, versionId: string) {
    collection.Some? ==>
      IdentityOk(collection.value.meta, ownerId, versionId) && LifecycleRows(collection.value.rows, collection.value.meta, true)
  }

  /** Some rows may have been toggled; nothing else about the collection changes. */
  predicate PartlyToggled(before: Option<Collection>, after: Option<Collection>, active: bool) {
    before.Some? == after.Some? &&
    (before.Some? ==>
      after.value.meta == before.value.meta && |after.value.rows| == |before.value.rows| &&
      forall i :: 0 <= i < |before.value.rows| ==>
        after.value.rows[i] == before.value.rows[i] || after.value.rows[i] == Toggled(before.value.rows[i], active))
  }

  /** Exactly what the online check demands of the stored collection. */
  predicate Online(collection: Option<Collection>, key: VersionKey, provider: string) {
    collection.Some? &&
    var meta, rows := collection.value.meta, collection.value.rows;
    IdentityOk(meta, key.ownerId, key.versionId) && meta.documentId == key.documentId && meta.provider == provider &&
    LifecycleRows(rows, meta, false) && AllInState(rows, true)
  }

  // ---------------------------------------------------------------- what an upsert does

  /** Insert, or replace the first row with the same primary key. */
  function UpsertOne(rows: seq<Row>, row: Row): seq<Row> {
    if rows == [] then [row]
    else if rows[0].chunkId == row.chunkId then [row] + rows[1..]
    else [rows[0]] + UpsertOne(rows[1..], row)
  }

  /** Upsert, in order, those rows that were picked. */
  function UpsertPicked(rows: seq<Row>, updates: seq<Row>, picked: seq<bool>): seq<Row>
    requires |picked| == |updates|
  {
    if updates == [] then rows
    else
      var last := |updates| - 1;
      var before := UpsertPicked(rows, updates[..last], picked[..last]);
      if picked[last] then UpsertOne(before, updates[last]) else before
  }

  ghost predicate AllPicked(picked: seq<bool>) {
    forall i :: 0 <= i < |picked| ==> picked[i]
  }

  // ---------------------------------------------------------------- facts about the rows

  lemma RowIdsCardinality(rows: seq<Row>)
    requires UniqueRows(rows)
    ensures |RowIds(rows)| == |rows|
  {
    var ids := seq(|rows|, i requires 0 <= i < |rows| => rows[i].chunkId);
    DistinctCardinality(ids);
    forall k | k in RowIds(rows) ensures k in Elements(ids) {
      var i :| 0 <= i < |rows| && rows[i].chunkId == k;
      assert ids[i] == k;
    }
    assert Elements(ids) == RowIds(rows);
  }

  /** A chunk list is looked up by identifier when rows are compared with it. */
  lemma RowExpectedById(row: Row, meta: Meta, chunks: seq<Chunk>)
    requires UniqueIds(chunks)
    ensures RowExpected(row, meta, chunks) <==>
      RowValid(row, meta) && row.chunkId in ById(chunks) && Inactivated(row.payload) == ById(chunks)[row.chunkId]
  {
    ByIdContents(chunks);
    if RowExpected(row, meta, chunks) {
      RowIsChunk(row, meta, chunks);
    }
  }

  /** How the running checks over a prefix of the rows extend by one row. */
  lemma NextRow(rows: seq<Row>, n: nat, meta: Meta, chunks: seq<Chunk>, vectors: Option<map<string, Vector>>)
    requires n < |rows| && RowsExpected(rows[..n], meta, chunks) && VectorsAgree(rows[..n], vectors)
    ensures RowIds(rows[..n + 1]) == RowIds(rows[..n]) + {rows[n].chunkId}
    ensures RowExpected(rows[n], meta, chunks) && rows[n].chunkId !in RowIds(rows[..n]) ==>
      RowsExpected(rows[..n + 1], meta, chunks)
    ensures !(RowExpected(rows[n], meta, chunks) && rows[n].chunkId !in RowIds(rows[..n])) ==>
      !RowsExpected(rows, meta, chunks)
    ensures VectorsAgree([rows[n]], vectors) ==> VectorsAgree(rows[..n + 1], vectors)
    ensures !VectorsAgree([rows[n]], vectors) ==> !VectorsAgree(rows, vectors)
  {
    assert rows[..n + 1] == rows[..n] + [rows[n]];
    assert forall i :: 0 <= i < n ==> rows[..n][i] == rows[i];
  }

  lemma RowIsChunk(row: Row, meta: Meta, chunks: seq<Chunk>)
    requires RowExpected(row, meta, chunks)
    ensures row.chunkId in IdSet(chunks)
  {
    var j :| 0 <= j < |chunks| && chunks[j] == Inactivated(row.payload);
    assert chunks[j].chunkId == row.chunkId;
  }

  lemma RowsAreChunks(rows: seq<Row>, meta: Meta, chunks: seq<Chunk>)
    requires RowsExpected(rows, meta, chunks) && UniqueIds(chunks)
    ensures RowIds(rows) <= IdSet(chunks) && |rows| <= |chunks|
    ensures |RowIds(rows)| == |rows|
  {
    forall k | k in RowIds(rows) ensures k in IdSet(chunks) {
      var i :| 0 <= i < |rows| && rows[i].chunkId == k;
      RowIsChunk(rows[i], meta, chunks);
    }
    RowIdsCardinality(rows);
    IdSetCardinality(chunks);
    SubsetCardinality(RowIds(rows), IdSet(chunks));
  }

  // ---------------------------------------------------------------- facts about upserts

  function Kept<T>(items: seq<T>, picked: seq<bool>): seq<T>
    requires |picked| == |items|
  {
    if items == [] then []
    else
      var last := |items| - 1;
      Kept(items[..last], picked[..last]) + if picked[last] then [items[last]] else []
  }

  lemma {:induction false} KeepAll<T>(items: seq<T>, picked: seq<bool>)
    requires |picked| == |items| && AllPicked(picked)
    ensures Kept(items, picked) == items
  {
    if items != [] {
      KeepAll(items[..|items| - 1], picked[..|items| - 1]);
      assert items == items[..|items| - 1] + [items[|items| - 1]];
    }
  }

  lemma {:induction false} UpsertOneAppends(rows: seq<Row>, row: Row)
    requires row.chunkId !in RowIds(rows)
    ensures UpsertOne(rows, row) == rows + [row]
  {
    if rows != [] {
      assert rows[0].chunkId in RowIds(rows);
      assert forall k :: k in RowIds(rows[1..]) ==> k in RowIds(rows);
      UpsertOneAppends(rows[1..], row);
      assert rows == [rows[0]] + rows[1..];
    }
  }

  lemma {:induction false} UpsertOneReplaces(rows: seq<Row>, i: nat, row: Row)
    requires i < |rows| && rows[i].chunkId == row.chunkId
    requires forall j :: 0 <= j < i ==> rows[j].chunkId != row.chunkId
    ensures UpsertOne(rows, row) == rows[i := row]
  {
    if i > 0 {
      UpsertOneReplaces(rows[1..], i - 1, row);
    }
  }

  /** Upserting rows with new identifiers appends those that were picked and keeps every stored row. */
  lemma {:induction false} UpsertAppends(rows: seq<Row>, updates: seq<Row>, picked: seq<bool>)
    requires |picked| == |updates| && UniqueRows(updates) && RowIds(rows) !! RowIds(updates)
    ensures UpsertPicked(rows, updates, picked) == rows + Kept(updates, picked)
    ensures RowIds(Kept(updates, picked)) <= RowIds(updates)
  {
    if updates != [] {
      var last := |updates| - 1;
      assert forall k :: k in RowIds(updates[..last]) ==> k in RowIds(updates);
      UpsertAppends(rows, updates[..last], picked[..last]);
      var before := rows + Kept(updates[..last], picked[..last]);
      assert updates[last].chunkId in RowIds(updates);
      assert updates[last].chunkId !in RowIds(updates[..last]);
      forall i | 0 <= i < |before| ensures before[i].chunkId != updates[last].chunkId {
        if i < |rows| {
          assert rows[i].chunkId in RowIds(rows);
        } else {
          assert before[i].chunkId in RowIds(Kept(updates[..last], picked[..last]));
        }
      }
      UpsertOneAppends(before, updates[last]);
    }
  }

  lemma KeptLength<T>(items: seq<T>, picked: seq<bool>)
    requires |picked| == |items|
    ensures |Kept(items, picked)| <= |items|
  {
  }

  lemma KeptIn<T>(items: seq<T>, picked: seq<bool>)
    requires |picked| == |items|
    ensures forall x :: x in Kept(items, picked) ==> x in items
  {
  }

  lemma {:induction false} KeptUnique(rows: seq<Row>, picked: seq<bool>)
    requires |picked| == |rows| && UniqueRows(rows)
    ensures UniqueRows(Kept(rows, picked)) && RowIds(Kept(rows, picked)) <= RowIds(rows)
  {
    if rows != [] {
      var last := |rows| - 1;
      KeptUnique(rows[..last], picked[..last]);
      var kept := Kept(rows[..last], picked[..last]);
      forall i | 0 <= i < |kept| ensures kept[i].chunkId != rows[last].chunkId {
        assert kept[i].chunkId in RowIds(kept);
      }
      assert kept <= Kept(rows, picked);
      assert forall i :: 0 <= i < last ==> rows[..last][i] == rows[i];
      forall k | k in RowIds(Kept(rows, picked)) ensures k in RowIds(rows) {
        var i :| 0 <= i < |Kept(rows, picked)| && Kept(rows, picked)[i].chunkId == k;
        if i < |kept| {
          assert k in RowIds(kept);
        }
      }
    }
  }

  /** Any selection of freshly built rows is a resumable collection. */
  lemma KeptRows(chunks: seq<Chunk>, picked: seq<bool>, key: VersionKey, provider: string, embed: Chunk -> Vector)
    requires CanStage(key, chunks) && Embeddable(chunks, embed) && |picked| == |chunks|
    ensures Resumable(Some(Collection(StagedMeta(key, chunks, provider, embed), Kept(RowsOf(chunks, embed), picked))),
                      key, chunks, provider, embed)
  {
    var rows := RowsOf(chunks, embed);
    KeptUnique(rows, picked);
    KeptIn(rows, picked);
    FreshRows(Kept(rows, picked), chunks, key, provider, embed);
  }

  lemma FreshRows(rows: seq<Row>, chunks: seq<Chunk>, key: VersionKey, provider: string, embed: Chunk -> Vector)
    requires CanStage(key, chunks) && Embeddable(chunks, embed)
    requires UniqueRows(rows) && forall i :: 0 <= i < |rows| ==> rows[i] in RowsOf(chunks, embed)
    ensures Resumable(Some(Collection(StagedMeta(key, chunks, provider, embed), rows)), key, chunks, provider, embed)
  {
    forall i | 0 <= i < |rows|
      ensures RowExpected(rows[i], StagedMeta(key, chunks, provider, embed), chunks)
      ensures rows[i].embedding == embed(Inactivated(rows[i].payload))
    {
      var j :| 0 <= j < |chunks| && RowsOf(chunks, embed)[j] == rows[i];
      assert Inactivated(chunks[j]) == chunks[j];
    }
  }

  // ---------------------------------------------------------------- facts about missing chunks

  lemma {:induction false} MissingMembers(seen: set<string>, chunks: seq<Chunk>)
    ensures forall c :: c in Missing(seen, chunks) <==> c in chunks && c.chunkId !in seen
  {
    if chunks != [] {
      assert chunks == chunks[..|chunks| - 1] + [chunks[|chunks| - 1]];
      MissingMembers(seen, chunks[..|chunks| - 1]);
    }
  }

  lemma {:induction false} MissingUnique(seen: set<string>, chunks: seq<Chunk>)
    requires UniqueIds(chunks)
    ensures UniqueIds(Missing(seen, chunks))
  {
    if chunks != [] {
      MissingUnique(seen, chunks[..|chunks| - 1]);
      MissingMembers(seen, chunks[..|chunks| - 1]);
    }
  }

  lemma MissingFacts(seen: set<string>, chunks: seq<Chunk>)
    ensures forall c :: c in Missing(seen, chunks) <==> c in chunks && c.chunkId !in seen
    ensures UniqueIds(chunks) ==> UniqueIds(Missing(seen, chunks))
    ensures Missing(seen, chunks) == [] <==> IdSet(chunks) <= seen
  {
    MissingMembers(seen, chunks);
    if UniqueIds(chunks) {
      MissingUnique(seen, chunks);
    }
    if Missing(seen, chunks) != [] {
      assert Missing(seen, chunks)[0] in chunks;
    }
    forall i | 0 <= i < |chunks| && chunks[i].chunkId !in seen ensures Missing(seen, chunks) != [] {
      assert chunks[i] in Missing(seen, chunks);
    }
  }

  lemma {:induction false} VectorIds(rows: seq<Row>)
    ensures VectorsOf(rows).Keys == RowIds(rows)
  {
    if rows != [] {
      var last := |rows| - 1;
      VectorIds(rows[..last]);
      assert rows == rows[..last] + [rows[last]];
    }
  }

  lemma {:induction false} VectorAt(rows: seq<Row>, i: nat)
    requires UniqueRows(rows) && i < |rows|
    ensures rows[i].chunkId in VectorsOf(rows) && VectorsOf(rows)[rows[i].chunkId] == rows[i].embedding
  {
    var last := |rows| - 1;
    if i < last {
      VectorAt(rows[..last], i);
    }
  }

  lemma VectorsById(rows: seq<Row>)
    requires UniqueRows(rows)
    ensures VectorsOf(rows).Keys == RowIds(rows)
    ensures forall i :: 0 <= i < |rows| ==> VectorsOf(rows)[rows[i].chunkId] == rows[i].embedding
  {
    VectorIds(rows);
    forall i | 0 <= i < |rows| ensures VectorsOf(rows)[rows[i].chunkId] == rows[i].embedding {
      VectorAt(rows, i);
    }
  }

  lemma EmbeddingsById(chunks: seq<Chunk>, embed: Chunk -> Vector)
    requires UniqueIds(chunks)
    ensures EmbeddingsOf(chunks, embed).Keys == IdSet(chunks)
    ensures forall i :: 0 <= i < |chunks| ==> EmbeddingsOf(chunks, embed)[chunks[i].chunkId] == embed(chunks[i])
  {
    VectorsById(RowsOf(chunks, embed));
  }

  /** For rows that are chunks, agreeing with the embedded chunks is the same as carrying their embeddings. */
  lemma EmbeddedAgree(rows: seq<Row>, meta: Meta, chunks: seq<Chunk>, embed: Chunk -> Vector)
    requires UniqueIds(chunks) && RowsExpected(rows, meta, chunks)
    ensures VectorsAgree(rows, Some(EmbeddingsOf(chunks, embed))) <==> EmbeddedRows(rows, chunks, embed)
  {
    EmbeddingsById(chunks, embed);
    forall i | 0 <= i < |rows|
      ensures rows[i].chunkId in EmbeddingsOf(chunks, embed)
      ensures EmbeddingsOf(chunks, embed)[rows[i].chunkId] == embed(Inactivated(rows[i].payload))
    {
      var j :| 0 <= j < |chunks| && chunks[j] == Inactivated(rows[i].payload);
    }
  }

  /** Every chunk's own row would be accepted under this identity. */
  ghost predicate FreshValid(meta: Meta, chunks: seq<Chunk>, embed: Chunk -> Vector) {
    forall i :: 0 <= i < |chunks| ==>
      !chunks[i].isActive && RowValid(RowOf(chunks[i], embed(chunks[i])), meta)
  }

  lemma AddedRowsExpected(rows: seq<Row>, meta: Meta, chunks: seq<Chunk>, embed: Chunk -> Vector)
    requires FreshValid(meta, chunks, embed) && UniqueRows(rows)
    requires forall row :: row in rows ==> row in RowsOf(chunks, embed)
    ensures RowsExpected(rows, meta, chunks) && EmbeddedRows(rows, chunks, embed)
  {
    forall i | 0 <= i < |rows|
      ensures RowExpected(rows[i], meta, chunks) && rows[i].embedding == embed(Inactivated(rows[i].payload))
    {
      assert rows[i] in rows;
      var j :| 0 <= j < |chunks| && RowsOf(chunks, embed)[j] == rows[i];
      assert Inactivated(chunks[j]) == chunks[j];
    }
  }

  lemma ConcatExpected(rows: seq<Row>, more: seq<Row>, meta: Meta, chunks: seq<Chunk>, embed: Chunk -> Vector)
    requires RowsExpected(rows, meta, chunks) && RowsExpected(more, meta, chunks) && RowIds(rows) !! RowIds(more)
    ensures RowsExpected(rows + more, meta, chunks)
    ensures RowIds(rows + more) == RowIds(rows) + RowIds(more)
    ensures EmbeddedRows(rows, chunks, embed) && EmbeddedRows(more, chunks, embed) ==>
      EmbeddedRows(rows + more, chunks, embed)
  {
    var all := rows + more;
    assert forall i :: 0 <= i < |all| ==> all[i] == if i < |rows| then rows[i] else more[i - |rows|];
    forall i, j | 0 <= i < j < |all| ensures all[i].chunkId != all[j].chunkId {
      if i < |rows| <= j {
        assert all[i].chunkId in RowIds(rows) && all[j].chunkId in RowIds(more);
      }
    }
    forall k | k in RowIds(all) ensures k in RowIds(rows) + RowIds(more) {
      var i :| 0 <= i < |all| && all[i].chunkId == k;
    }
    forall k | k in RowIds(rows) + RowIds(more) ensures k in RowIds(all) {
      if k in RowIds(rows) {
        var i :| 0 <= i < |rows| && rows[i].chunkId == k;
        assert all[i].chunkId == k;
      } else {
        var i :| 0 <= i < |more| && more[i].chunkId == k;
        assert all[|rows| + i].chunkId == k;
      }
    }
  }

  lemma MissingIds(seen: set<string>, chunks: seq<Chunk>, embed: Chunk -> Vector)
    requires UniqueIds(chunks)
    ensures UniqueRows(RowsOf(Missing(seen, chunks), embed))
    ensures RowIds(RowsOf(Missing(seen, chunks), embed)) == IdSet(chunks) - seen
    ensures forall row :: row in RowsOf(Missing(seen, chunks), embed) ==> row in RowsOf(chunks, embed)
  {
    var missing := Missing(seen, chunks);
    var added := RowsOf(missing, embed);
    MissingFacts(seen, chunks);
    forall row | row in added ensures row in RowsOf(chunks, embed) {
      var i :| 0 <= i < |missing| && added[i] == row;
      assert missing[i] in chunks;
      var j :| 0 <= j < |chunks| && chunks[j] == missing[i];
      assert RowsOf(chunks, embed)[j] == row;
    }
    forall k | k in RowIds(added) ensures k in IdSet(chunks) - seen {
      var i :| 0 <= i < |added| && added[i].chunkId == k;
      assert missing[i] in missing;
    }
    forall k | k in IdSet(chunks) - seen ensures k in RowIds(added) {
      var i :| 0 <= i < |chunks| && chunks[i].chunkId == k;
      assert chunks[i] in missing;
      var j :| 0 <= j < |missing| && missing[j] == chunks[i];
      assert added[j].chunkId == k;
    }
  }

  /** Upserting the missing rows keeps every stored row and appends those that were picked. */
  lemma MissingRowsAppend(rows: seq<Row>, chunks: seq<Chunk>, embed: Chunk -> Vector, picked: seq<bool>)
    requires UniqueIds(chunks) && |picked| == |Missing(RowIds(rows), chunks)|
    ensures
      var added := RowsOf(Missing(RowIds(rows), chunks), embed);
      UpsertPicked(rows, added, picked) == rows + Kept(added, picked) &&
      (forall row :: row in Kept(added, picked) ==> row in added)
  {
    var added := RowsOf(Missing(RowIds(rows), chunks), embed);
    MissingIds(RowIds(rows), chunks, embed);
    UpsertAppends(rows, added, picked);
    KeptIn(added, picked);
  }

  lemma AppendKeepsExpected(rows: seq<Row>, meta: Meta, chunks: seq<Chunk>, embed: Chunk -> Vector, picked: seq<bool>)
    requires UniqueIds(chunks) && FreshValid(meta, chunks, embed)
    requires |picked| == |Missing(RowIds(rows), chunks)|
    requires RowsExpected(rows, meta, chunks) && EmbeddedRows(rows, chunks, embed)
    ensures
      var after := rows + Kept(RowsOf(Missing(RowIds(rows), chunks), embed), picked);
      RowsExpected(after, meta, chunks) && EmbeddedRows(after, chunks, embed)
  {
    var added := RowsOf(Missing(RowIds(rows), chunks), embed);
    MissingIds(RowIds(rows), chunks, embed);
    KeptUnique(added, picked);
    KeptIn(added, picked);
    AddedRowsExpected(Kept(added, picked), meta, chunks, embed);
    ConcatExpected(rows, Kept(added, picked), meta, chunks, embed);
  }

  /** Adding the missing rows completes a partial collection. */
  lemma CompletedRows(rows: seq<Row>, meta: Meta, chunks: seq<Chunk>, embed: Chunk -> Vector)
    requires UniqueIds(chunks) && FreshValid(meta, chunks, embed) && meta.embeddings == EmbeddingsOf(chunks, embed)
    requires RowsExpected(rows, meta, chunks) && EmbeddedRows(rows, chunks, embed)
    ensures StagedRows(rows + RowsOf(Missing(RowIds(rows), chunks), embed), meta, chunks)
  {
    var added := RowsOf(Missing(RowIds(rows), chunks), embed);
    var after := rows + added;
    assert RowsExpected(after, meta, chunks) && EmbeddedRows(after, chunks, embed) &&
      RowIds(after) == IdSet(chunks) by {
      MissingIds(RowIds(rows), chunks, embed);
      AddedRowsExpected(added, meta, chunks, embed);
      ConcatExpected(rows, added, meta, chunks, embed);
      RowsAreChunks(rows, meta, chunks);
    }
    EmbeddedEverywhere(after, meta, chunks, embed);
  }

  lemma EmbeddedEverywhere(rows: seq<Row>, meta: Meta, chunks: seq<Chunk>, embed: Chunk -> Vector)
    requires UniqueIds(chunks) && RowsExpected(rows, meta, chunks) && EmbeddedRows(rows, chunks, embed)
    requires RowIds(rows) == IdSet(chunks)
    ensures VectorsOf(rows) == EmbeddingsOf(chunks, embed)
  {
    VectorsById(rows);
    EmbeddingsById(chunks, embed);
    EmbeddedAgree(rows, meta, chunks, embed);
    forall k | k in VectorsOf(rows) ensures VectorsOf(rows)[k] == EmbeddingsOf(chunks, embed)[k] {
      var i :| 0 <= i < |rows| && rows[i].chunkId == k;
    }
  }

  /** Rows built from staged chunks are inactive, so appending them activates nothing. */
  lemma AppendedInactive(before: seq<Row>, after: seq<Row>, chunks: seq<Chunk>, embed: Chunk -> Vector)
    requires before <= after && (forall i :: 0 <= i < |chunks| ==> !chunks[i].isActive)
    requires forall row :: row in after[|before|..] ==> row in RowsOf(chunks, embed)
    ensures ActiveRows(after) == ActiveRows(before)
  {
    forall i | |before| <= i < |after| ensures !after[i].isActive {
      assert after[i] in after[|before|..];
      var j :| 0 <= j < |chunks| && RowsOf(chunks, embed)[j] == after[i];
    }
    assert forall i :: 0 <= i < |before| ==> after[i] == before[i];
  }

  lemma AppendedKeeps(before: Collection, after: Option<Collection>, key: VersionKey, chunks: seq<Chunk>,
                      provider: string,
                      embed: Chunk -> Vector, picked: seq<bool>)
    requires CanStage(key, chunks) && Appended(before, after, chunks, embed, picked)
    ensures before.rows <= after.value.rows && ActiveIds(after) == ActiveRows(before.rows)
    ensures RowsExpected(before.rows, before.meta, chunks) ==> |after.value.rows| <= |chunks|
    ensures
      Resumable(Some(before), key, chunks, provider, embed) && (Embeddable(chunks, embed) || after == Some(before)) ==>
      Resumable(after, key, chunks, provider, embed)
  {
    var added := RowsOf(Missing(RowIds(before.rows), chunks), embed);
    KeptIn(added, picked);
    MissingIds(RowIds(before.rows), chunks, embed);
    AppendedInactive(before.rows, after.value.rows, chunks, embed);
    KeptLength(added, picked);
    if RowsExpected(before.rows, before.meta, chunks) {
      CompletionLength(before.rows, before.meta, chunks, embed);
    }
    if Resumable(Some(before), key, chunks, provider, embed) && Embeddable(chunks, embed) {
      StagedMetaFresh(key, chunks, provider, embed);
      AppendKeepsExpected(before.rows, before.meta, chunks, embed, picked);
    }
  }

  /** What a collection demands of its chunks beyond that: at most 16,000, contract identifiers, and embeddings of one
      positive dimension. */
  lemma RowsStageableExactly(key: VersionKey, chunks: seq<Chunk>, embed: Chunk -> Vector)
    requires CanStage(key, chunks)
    ensures CanStageRows(key, chunks) <==> |chunks| <= 16000 && forall c :: c in chunks ==> IsContractId(c.chunkId)
    ensures Embeddable(chunks, embed) <==>
      embed(chunks[0]) != [] && forall c, d :: c in chunks && d in chunks ==> |embed(c)| == |embed(d)|
  {
    hide IsContractId;
    assert forall i :: 0 <= i < |chunks| ==> chunks[i] in chunks;
  }

  /** A query shows the first rows, up to the limit. */
  lemma VisibleAreFirst(rows: seq<Row>, limit: nat)
    ensures Visible(rows, limit) <= rows && |Visible(rows, limit)| == if |rows| < limit then |rows| else limit
  {
  }

  /** An online collection carries this identity and provider, and every row is of this very document version, active, and
      has an embedding of the right dimension. */
  lemma OnlineIsOwned(collection: Option<Collection>, key: VersionKey, provider: string, i: nat)
    requires Online(collection, key, provider)
    ensures var meta := collection.value.meta;
      meta.configurationOk && meta.ownerId == key.ownerId && meta.documentId == key.documentId && meta.versionId == key.versionId &&
      meta.provider == provider != "" && meta.dimension >= 1 && IsContractId(meta.documentId) &&
      |collection.value.rows| == meta.chunkCount && 1 <= meta.chunkCount <= 16000
    ensures i < |collection.value.rows| ==>
      var row := collection.value.rows[i];
      row.isActive && row.payload.isActive && row.chunkId == row.payload.chunkId && row.tenantId == key.ownerId &&
      row.documentId == key.documentId && row.payload.tenantId == key.ownerId && row.payload.documentId == key.documentId &&
      row.payload.versionId == key.versionId && row.visibility == row.payload.visibility &&
      row.libraryScopeIds == row.payload.libraryScopeIds && |row.embedding| == collection.value.meta.dimension
  {
    hide VectorsOf, IsContractId;
  }

  /** When the collection was small enough to be read whole, or the chunks leave room, no row stays unread. */
  lemma VisibleIsAll(before: seq<Row>, after: seq<Row>, meta: Meta, chunks: seq<Chunk>, embed: Chunk -> Vector)
    requires UniqueIds(chunks) && |chunks| <= MAX_VERSION_ROWS
    requires StagedRows(Visible(after, MAX_VERSION_ROWS), meta, chunks)
    requires after == Filled(before, chunks, embed)
    ensures |chunks| < MAX_VERSION_ROWS || |before| <= MAX_VERSION_ROWS ==> Visible(after, MAX_VERSION_ROWS) == after
  {
    var visible := Visible(after, MAX_VERSION_ROWS);
    StagedIsComplete(visible, meta, chunks);
    if |before| <= MAX_VERSION_ROWS < |after| {
      forall i | 0 <= i < |before| ensures before[i] == visible[i] {
      }
      PrefixExpected(before, visible, meta, chunks);
      CompletionLength(before, meta, chunks, embed);
      assert false;
    }
  }

  lemma PrefixExpected(before: seq<Row>, rows: seq<Row>, meta: Meta, chunks: seq<Chunk>)
    requires before <= rows && RowsExpected(rows, meta, chunks)
    ensures RowsExpected(before, meta, chunks)
  {
    assert forall i :: 0 <= i < |before| ==> before[i] == rows[i];
  }

  lemma CompletionLength(rows: seq<Row>, meta: Meta, chunks: seq<Chunk>, embed: Chunk -> Vector)
    requires UniqueIds(chunks) && RowsExpected(rows, meta, chunks)
    ensures |rows| + |Missing(RowIds(rows), chunks)| == |chunks|
  {
    RowsAreChunks(rows, meta, chunks);
    MissingIds(RowIds(rows), chunks, embed);
    RowIdsCardinality(RowsOf(Missing(RowIds(rows), chunks), embed));
    IdSetCardinality(chunks);
    assert IdSet(chunks) == RowIds(rows) + (IdSet(chunks) - RowIds(rows));
  }

  lemma NothingMissing(chunks: seq<Chunk>, embed: Chunk -> Vector)
    requires |chunks| <= MAX_VERSION_ROWS
    ensures Filled([], chunks, embed) == RowsOf(chunks, embed)
    ensures Filled(RowsOf(chunks, embed), chunks, embed) == RowsOf(chunks, embed)
  {
    var rows := RowsOf(chunks, embed);
    assert Missing(RowIds([]), chunks) == chunks by {
      assert RowIds([]) == {};
      AllMissing(chunks);
    }
    assert Missing(RowIds(rows), chunks) == [] by {
      MissingFacts(RowIds(rows), chunks);
      assert forall i :: 0 <= i < |chunks| ==> rows[i].chunkId == chunks[i].chunkId;
    }
    assert rows + [] == rows;
  }

  lemma {:induction false} AllMissing(chunks: seq<Chunk>)
    ensures Missing({}, chunks) == chunks
  {
    if chunks != [] {
      AllMissing(chunks[..|chunks| - 1]);
      assert chunks == chunks[..|chunks| - 1] + [chunks[|chunks| - 1]];
    }
  }

  lemma StagedMetaFresh(key: VersionKey, chunks: seq<Chunk>, provider: string, embed: Chunk -> Vector)
    requires CanStage(key, chunks) && Embeddable(chunks, embed)
    ensures FreshValid(StagedMeta(key, chunks, provider, embed), chunks, embed)
  {
  }

  lemma ResumableCompletes(rows: seq<Row>, key: VersionKey, chunks: seq<Chunk>, provider: string,
                           embed: Chunk -> Vector)
    requires CanStage(key, chunks) && Embeddable(chunks, embed)
    requires Resumable(Some(Collection(StagedMeta(key, chunks, provider, embed), rows)), key, chunks, provider, embed)
    ensures
      var after := rows + RowsOf(Missing(RowIds(rows), chunks), embed);
      StagedRows(after, StagedMeta(key, chunks, provider, embed), chunks) && |after| == |chunks|
  {
    StagedMetaFresh(key, chunks, provider, embed);
    CompletedRows(rows, StagedMeta(key, chunks, provider, embed), chunks, embed);
    StagedIsComplete(rows + RowsOf(Missing(RowIds(rows), chunks), embed), StagedMeta(key, chunks, provider, embed), chunks);
  }

  /** Something is missing only when there are fewer rows than chunks. */
  lemma MissingBound(rows: seq<Row>, meta: Meta, chunks: seq<Chunk>)
    requires UniqueIds(chunks) && RowsExpected(rows, meta, chunks)
    ensures |rows| <= |chunks|
    ensures Missing(RowIds(rows), chunks) != [] ==> |rows| < |chunks|
  {
    MissingFacts(RowIds(rows), chunks);
    RowsAreChunks(rows, meta, chunks);
    IdSetCardinality(chunks);
    SubsetCardinality(RowIds(rows), IdSet(chunks));
  }

  lemma {:induction false} KeepNone<T>(items: seq<T>, picked: seq<bool>)
    requires |picked| == |items| && forall i :: 0 <= i < |picked| ==> !picked[i]
    ensures Kept(items, picked) == []
  {
    if items != [] {
      KeepNone(items[..|items| - 1], picked[..|items| - 1]);
    }
  }

  lemma StagedIsComplete(rows: seq<Row>, meta: Meta, chunks: seq<Chunk>)
    requires UniqueIds(chunks) && StagedRows(rows, meta, chunks)
    ensures |rows| == |chunks|
  {
    RowsAreChunks(rows, meta, chunks);
    IdSetCardinality(chunks);
  }

  // ---------------------------------------------------------------- facts about toggling

  lemma NextUnique(rows: seq<Row>, n: nat)
    requires n < |rows| && UniqueRows(rows[..n])
    ensures RowIds(rows[..n + 1]) == RowIds(rows[..n]) + {rows[n].chunkId}
    ensures UniqueRows(rows[..n + 1]) <==> rows[n].chunkId !in RowIds(rows[..n])
    ensures UniqueRows(rows) ==> rows[n].chunkId !in RowIds(rows[..n])
  {
    assert rows[..n + 1] == rows[..n] + [rows[n]];
    forall i | 0 <= i < n ensures rows[..n][i] == rows[i] && rows[i].chunkId in RowIds(rows[..n]) {
      assert rows[..n][i].chunkId in RowIds(rows[..n]);
    }
    if rows[n].chunkId in RowIds(rows[..n]) {
      var i :| 0 <= i < n && rows[..n][i].chunkId == rows[n].chunkId;
      assert rows[..n + 1][i] == rows[i] && rows[..n + 1][n] == rows[n];
    }
  }

  /** The rows with those of the first `m` that were picked toggled. */
  function ToggledHead(rows: seq<Row>, m: nat, active: bool, picked: seq<bool>): (r: seq<Row>)
    requires m <= |rows| && |picked| == m
    ensures |r| == |rows|
    ensures forall i :: 0 <= i < |r| ==> r[i] == if i < m && picked[i] then Toggled(rows[i], active) else rows[i]
  {
    seq(|rows|, i requires 0 <= i < |rows| => if i < m && picked[i] then Toggled(rows[i], active) else rows[i])
  }

  /** Upserting the toggled head of a collection toggles, in place, exactly the rows that were picked. */
  lemma {:induction false} UpsertToggles(rows: seq<Row>, m: nat, active: bool, picked: seq<bool>)
    requires m <= |rows| && |picked| == m && UniqueRows(rows[..m])
    ensures UpsertPicked(rows, ToggledRows(rows[..m], active), picked) == ToggledHead(rows, m, active, picked)
  {
    if m > 0 {
      var updates := ToggledRows(rows[..m], active);
      assert rows[..m][..m - 1] == rows[..m - 1];
      assert updates[..m - 1] == ToggledRows(rows[..m - 1], active);
      UpsertToggles(rows, m - 1, active, picked[..m - 1]);
      var before := ToggledHead(rows, m - 1, active, picked[..m - 1]);
      if picked[m - 1] {
        assert rows[..m][m - 1] == rows[m - 1];
        UpsertLast(rows, m, active, picked);
      }
    }
  }

  lemma UpsertLast(rows: seq<Row>, m: nat, active: bool, picked: seq<bool>)
    requires 0 < m <= |rows| && |picked| == m && UniqueRows(rows[..m]) && picked[m - 1]
    ensures UpsertOne(ToggledHead(rows, m - 1, active, picked[..m - 1]), Toggled(rows[m - 1], active)) ==
      ToggledHead(rows, m, active, picked)
  {
    var before := ToggledHead(rows, m - 1, active, picked[..m - 1]);
    forall j | 0 <= j < m - 1 ensures before[j].chunkId != rows[m - 1].chunkId {
      assert rows[..m][j].chunkId != rows[..m][m - 1].chunkId;
    }
    UpsertOneReplaces(before, m - 1, Toggled(rows[m - 1], active));
  }

  lemma {:induction false} ToggleKeepsVectors(rows: seq<Row>, active: bool)
    ensures VectorsOf(ToggledRows(rows, active)) == VectorsOf(rows)
  {
    if rows != [] {
      var last := |rows| - 1;
      assert ToggledRows(rows, active)[..last] == ToggledRows(rows[..last], active);
      ToggleKeepsVectors(rows[..last], active);
    }
  }

  /** Activation state is no part of the row checks, so toggling keeps a lifecycle-correct collection correct. */
  lemma ToggleKeepsLifecycle(rows: seq<Row>, meta: Meta, allowIncomplete: bool, active: bool)
    requires LifecycleRows(rows, meta, allowIncomplete)
    ensures LifecycleRows(ToggledRows(rows, active), meta, allowIncomplete) &&
      AllInState(ToggledRows(rows, active), active)
  {
    ToggleKeepsVectors(rows, active);
    var toggled := ToggledRows(rows, active);
    forall i | 0 <= i < |rows| ensures RowValid(toggled[i], meta) {
      assert RowValid(rows[i], meta);
    }
  }

  /** Toggling moves the set of active rows in one direction only. */
  lemma ToggleIsMonotone(before: Option<Collection>, after: Option<Collection>, active: bool)
    requires PartlyToggled(before, after, active)
    ensures active ==> ActiveIds(before) <= ActiveIds(after)
    ensures !active ==> ActiveIds(after) <= ActiveIds(before)
  {
    if before.Some? {
      var rows, rows' := before.value.rows, after.value.rows;
      assert forall i :: 0 <= i < |rows| ==> rows'[i].chunkId == rows[i].chunkId;
      assert active ==> forall i :: 0 <= i < |rows| ==> rows[i].isActive ==> rows'[i].isActive;
      assert !active ==> forall i :: 0 <= i < |rows| ==> rows'[i].isActive ==> rows[i].isActive;
    }
  }

  /** Toggling keeps staged rows staged: the active flag is no part of a chunk's identity. */
  lemma ToggleKeepsStaged(before: Option<Collection>, after: Option<Collection>, key: VersionKey, chunks: seq<Chunk>,
                          provider: string, active: bool)
    requires PartlyToggled(before, after, active) && Staged(before, key, chunks, provider)
    ensures Staged(after, key, chunks, provider)
  {
    var rows, rows' := before.value.rows, after.value.rows;
    forall i | 0 <= i < |rows|
      ensures rows'[i].chunkId == rows[i].chunkId && RowExpected(rows'[i], before.value.meta, chunks)
    {
      assert RowExpected(rows[i], before.value.meta, chunks);
    }
    assert RowIds(rows') == RowIds(rows) by {
      forall k | k in RowIds(rows) ensures k in RowIds(rows') {
        var i :| 0 <= i < |rows| && rows[i].chunkId == k;
        assert rows'[i].chunkId == k;
      }
    }
    SameVectors(rows, rows');
  }

  lemma {:induction false} SameVectors(rows: seq<Row>, rows': seq<Row>)
    requires |rows| == |rows'|
    requires forall i :: 0 <= i < |rows| ==> rows'[i].chunkId == rows[i].chunkId && rows'[i].embedding == rows[i].embedding
    ensures VectorsOf(rows') == VectorsOf(rows)
  {
    if rows != [] {
      SameVectors(rows[..|rows| - 1], rows'[..|rows| - 1]);
    }
  }

  /** Staged rows meet the lifecycle check, so activating them puts the collection online. */
  lemma ActivatedIsOnline(collection: Option<Collection>, key: VersionKey, chunks: seq<Chunk>, provider: string)
    requires CanStage(key, chunks) && Staged(collection, key, chunks, provider)
    ensures LifecycleRows(collection.value.rows, collection.value.meta, false)
    ensures Online(Some(Collection(collection.value.meta, ToggledRows(collection.value.rows, true))), key, provider)
    ensures ActiveRows(ToggledRows(collection.value.rows, true)) == IdSet(chunks)
  {
    StagedIsComplete(collection.value.rows, collection.value.meta, chunks);
    assert forall i :: 0 <= i < |collection.value.rows| ==>
      RowExpected(collection.value.rows[i], collection.value.meta, chunks);
    ToggleKeepsLifecycle(collection.value.rows, collection.value.meta, false, true);
    var toggled := ToggledRows(collection.value.rows, true);
    assert forall i :: 0 <= i < |toggled| ==> toggled[i].isActive && toggled[i].chunkId == collection.value.rows[i].chunkId;
    assert ActiveRows(toggled) == RowIds(collection.value.rows);
  }

  /** Rows found inactive, or no collection at all, rule the online check out: it wants every one of at least one row
      active. */
  lemma DeactivatedIsOffline(collection: Option<Collection>, key: VersionKey, provider: string)
    requires collection.Some? ==> AllInState(Visible(collection.value.rows, MAX_VERSION_ROWS), false)
    ensures !Online(collection, key, provider)
  {
    if collection.Some? && collection.value.rows != [] {
      assert Visible(collection.value.rows, MAX_VERSION_ROWS)[0] == collection.value.rows[0];
    }
  }
}
