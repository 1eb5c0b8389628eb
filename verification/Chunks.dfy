/** Chunk payloads and the version identity that both index writers stage, with what both demand of a chunk list before
    they touch a store. */
module Chunks {
  import opened Basics

  /** A chunk payload. `text` stands for every field that no writer inspects. */
  datatype Chunk = Chunk(
    chunkId: string, tenantId: string, documentId: string, versionId: string,
    visibility: string, libraryScopeIds: seq<string>, text: string, isActive: bool)

  /** The owner, document and version that a physical index is written for. */
  datatype VersionKey = VersionKey(ownerId: string, documentId: string, versionId: string)

  datatype Backend = Elasticsearch | Milvus

  /** What a cleanup job deletes. */
  datatype CleanupTarget = Index(backend: Backend) | RuntimeSnapshot

  /** What a writer reports after staging. `source` is the fingerprinted chunk list itself:
      the fingerprint is taken to be injective. */
  datatype Receipt = Receipt(backend: Backend, ownerId: string, versionId: string,
                             chunkCount: int, source: seq<Chunk>)

  predicate IsAlphanumeric(c: char) {
    'a' <= c <= 'z' || 'A' <= c <= 'Z' || '0' <= c <= '9'
  }

  /** The contract-identifier pattern: a letter or digit, then up to 127 of letters, digits and `._:-`. */
  predicate IsContractId(s: string) {
    1 <= |s| <= 128 && IsAlphanumeric(s[0]) &&
    forall i :: 1 <= i < |s| ==> IsAlphanumeric(s[i]) || s[i] in "._:-"
  }

  /** What a physical name can be derived from. */
  predicate ValidIdentity(ownerId: string, versionId: string) {
    IsContractId(ownerId) && IsContractId(versionId)
  }

  predicate Matches(c: Chunk, ownerId: string, versionId: string) {
    c.tenantId == ownerId && c.versionId == versionId
  }

  predicate OwnedBy(c: Chunk, key: VersionKey) {
    Matches(c, key.ownerId, key.versionId) && c.documentId == key.documentId
  }

  predicate HasRequiredFields(c: Chunk) {
    c.chunkId != "" && c.documentId != "" && c.tenantId != "" && c.visibility != "" && c.text != "" &&
    forall s :: s in c.libraryScopeIds ==> s != ""
  }

  predicate UniqueIds(chunks: seq<Chunk>) {
    forall i, j :: 0 <= i < j < |chunks| ==> chunks[i].chunkId != chunks[j].chunkId
  }

  /** What both writers demand of a chunk list before touching a store. */
  predicate CanStage(key: VersionKey, chunks: seq<Chunk>) {
    IsContractId(key.ownerId) && IsContractId(key.versionId) && IsContractId(key.documentId) &&
    chunks != [] && UniqueIds(chunks) &&
    forall i :: 0 <= i < |chunks| ==>
      HasRequiredFields(chunks[i]) && OwnedBy(chunks[i], key) && !chunks[i].isActive
  }

  /** The codes of the ASCII digits and letters, and of `-`, `.`, `:` and `_`. */
  ghost predicate IsDigitOrLetter(code: int) {
    48 <= code < 58 || 65 <= code < 91 || 97 <= code < 123
  }

  /** The identifiers of the contracts, character by character: the four marks may not come first. */
  lemma ContractIdExactly(s: string)
    ensures IsContractId(s) <==>
      0 < |s| <= 128 && IsDigitOrLetter(s[0] as int) &&
      forall i :: 0 <= i < |s| ==> IsDigitOrLetter(s[i] as int) || s[i] as int in {45, 46, 58, 95}
  {
    forall i | 0 <= i < |s|
      ensures IsDigitOrLetter(s[i] as int) <==> IsAlphanumeric(s[i])
      ensures s[i] as int in {45, 46, 58, 95} <==> s[i] in "._:-"
    {
    }
  }

  /** A chunk that lacks a field, belongs to another document version, or is active already. */
  ghost predicate Unstageable(c: Chunk, key: VersionKey) {
    c.chunkId == "" || c.documentId == "" || c.tenantId == "" || c.visibility == "" || c.text == "" ||
    "" in c.libraryScopeIds || c.tenantId != key.ownerId || c.documentId != key.documentId || c.versionId != key.versionId ||
    c.isActive
  }

  /** What is refused before any store is touched: each of these defects by itself. */
  lemma CanStageExactly(key: VersionKey, chunks: seq<Chunk>)
    ensures !CanStage(key, chunks) <==>
      !IsContractId(key.ownerId) || !IsContractId(key.documentId) || !IsContractId(key.versionId) || chunks == [] ||
      (exists i, k :: 0 <= i < k < |chunks| && chunks[i].chunkId == chunks[k].chunkId) ||
      exists c :: c in chunks && Unstageable(c, key)
  {
    hide IsContractId;
    if c :| c in chunks && Unstageable(c, key) {
      var i :| 0 <= i < |chunks| && chunks[i] == c;
      UnstageableExactly(c, key);
    } else {
      forall i | 0 <= i < |chunks| ensures HasRequiredFields(chunks[i]) && OwnedBy(chunks[i], key) && !chunks[i].isActive {
        assert chunks[i] in chunks;
        UnstageableExactly(chunks[i], key);
      }
    }
  }

  lemma UnstageableExactly(c: Chunk, key: VersionKey)
    ensures Unstageable(c, key) <==> !(HasRequiredFields(c) && OwnedBy(c, key) && !c.isActive)
  {
  }

  lemma StageableIdentity(key: VersionKey, chunks: seq<Chunk>)
    requires CanStage(key, chunks)
    ensures ValidIdentity(key.ownerId, key.versionId) && chunks != []
  {
  }

  function Inactivated(c: Chunk): Chunk {
    c.(isActive := false)
  }

  function IdsOf(chunks: seq<Chunk>): (ids: seq<string>)
    ensures |ids| == |chunks| && forall i :: 0 <= i < |ids| ==> ids[i] == chunks[i].chunkId
  {
    seq(|chunks|, i requires 0 <= i < |chunks| => chunks[i].chunkId)
  }

  function IdSet(chunks: seq<Chunk>): set<string> {
    set i | 0 <= i < |chunks| :: chunks[i].chunkId
  }

  /** The chunks keyed by identifier; a later chunk replaces an earlier one. */
  function ById(chunks: seq<Chunk>): map<string, Chunk> {
    if chunks == [] then map[]
    else ById(chunks[..|chunks| - 1])[chunks[|chunks| - 1].chunkId := chunks[|chunks| - 1]]
  }

  lemma {:induction false} ByIdContents(chunks: seq<Chunk>)
    ensures ById(chunks).Keys == IdSet(chunks)
    ensures forall k :: k in ById(chunks) ==> ById(chunks)[k] in chunks && ById(chunks)[k].chunkId == k
    ensures UniqueIds(chunks) ==> forall i :: 0 <= i < |chunks| ==> ById(chunks)[chunks[i].chunkId] == chunks[i]
  {
    if chunks != [] {
      var last := |chunks| - 1;
      ByIdContents(chunks[..last]);
      assert chunks == chunks[..last] + [chunks[last]];
      assert IdSet(chunks) == IdSet(chunks[..last]) + {chunks[last].chunkId};
      forall i | 0 <= i < |chunks| && UniqueIds(chunks)
        ensures ById(chunks)[chunks[i].chunkId] == chunks[i]
      {
        if i < last {
          assert chunks[..last][i] == chunks[i];
        }
      }
    }
  }

  lemma IdSetCardinality(chunks: seq<Chunk>)
    requires UniqueIds(chunks)
    ensures |IdSet(chunks)| == |chunks|
    ensures Elements(IdsOf(chunks)) == IdSet(chunks)
  {
    DistinctCardinality(IdsOf(chunks));
    assert Elements(IdsOf(chunks)) == IdSet(chunks);
  }
}
