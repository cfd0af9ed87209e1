/** The registry's data model: documents, update records, the configuration
    scalars and the four maps, plus the invariant that ties them together. */
module RegistryState {
  import opened Results

  newtype byte = x: int | 0 <= x < 256

  /** A content digest; the registry accepts only 32-byte digests. */
  type Hash = seq<byte>

  /** An account identifier. */
  type Principal = string

  /** The reserved burn account, never accepted as the authority. */
  const BurnPrincipal: Principal := "SP000000000000000000002Q6VF78"

  const InitialNextDocId := 1
  const DefaultMaxDocsPerUser := 50
  const DefaultBackupFee := 500

  /** Field bounds enforced when a document is created or updated. */
  const HashLength := 32
  const MaxCidLength := 46
  const MaxMetadataLength := 256
  const MaxSize := 10485760
  const MaxLocationLength := 100
  const MaxDocNameLength := 100
  const MaxDescriptionLength := 200
  const MaxCategoryLength := 50
  const MaxTags := 10
  const MaxAccessLevel := 3
  const DocTypes: set<string> := {"passport", "license", "certificate", "id-card"}
  const Currencies: set<string> := {"STX", "USD", "BTC"}
  const EncryptionTypes: set<string> := {"AES", "RSA", "ECC"}

  /** Where a document lives: its owner and its id. The registry renders this
      pair as the string `user-docId` (see DocKeys). */
  datatype DocKey = DocKey(user: Principal, docId: int)

  datatype Document = Document(
    hash: Hash,
    cid: string,
    timestamp: int,
    docType: string,
    metadata: string,
    owner: Principal,
    status: bool,
    version: int,
    expiry: Option<int>,
    size: int,
    location: string,
    currency: string,
    docName: string,
    description: string,
    category: string,
    tags: seq<string>,
    accessLevel: int,
    encryptionType: string,
    verifier: Option<Principal>,
    signature: Option<seq<byte>>,
    proof: Option<seq<byte>>)

  /** The most recent update of one document (overwritten by the next one). */
  datatype DocUpdate = DocUpdate(
    updateTimestamp: int,
    updater: Principal,
    oldHash: Hash,
    newHash: Hash,
    updateReason: string)

  datatype State = State(
    nextDocId: int,
    maxDocsPerUser: int,
    backupFee: int,
    authority: Option<Principal>,
    docCount: int,
    documents: map<DocKey, Document>,
    docUpdates: map<DocKey, DocUpdate>,
    docsByHash: map<Hash, DocKey>,
    userDocCounts: map<Principal, int>)

  /** One entry of the fee-transfer log. */
  datatype Transfer = Transfer(amount: int, from: Principal, to: Principal)

  /** The registry state together with the append-only log of fee transfers. */
  datatype Chain = Chain(state: State, transfers: seq<Transfer>)

  /** What the host supplies to each call: the caller, the current block
      height and the set of registered accounts. */
  datatype Context = Context(caller: Principal, blockHeight: int, registered: set<Principal>)

  /** The arguments of a backup request, in the order the registry takes them. */
  datatype BackupRequest = BackupRequest(
    hash: Hash,
    cid: string,
    docType: string,
    metadata: string,
    expiry: Option<int>,
    size: int,
    location: string,
    currency: string,
    docName: string,
    description: string,
    category: string,
    tags: seq<string>,
    accessLevel: int,
    encryptionType: string,
    verifier: Option<Principal>,
    signature: Option<seq<byte>>,
    proof: Option<seq<byte>>)

  /** The state of a freshly reset registry with an empty transfer log. */
  function Initial(): Chain
  {
    Chain(State(InitialNextDocId, DefaultMaxDocsPerUser, DefaultBackupFee, None, 0,
                 map[], map[], map[], map[]), [])
  }

  /** The gates on configuration and on backup test the authority for
      truthiness: unset and the empty string both count as not configured. */
  predicate AuthorityConfigured(s: State)
  {
    s.authority.Some? && s.authority.value != ""
  }

  /** A caller's document count; a caller never seen counts as 0. */
  function UserCount(s: State, u: Principal): int
  {
    if u in s.userDocCounts then s.userDocCounts[u] else 0
  }

  /** The keys of the documents whose owner is `u`. */
  function OwnedBy(docs: map<DocKey, Document>, u: Principal): set<DocKey>
  {
    set k | k in docs && docs[k].owner == u
  }

  predicate HashOk(h: Hash)
  {
    |h| == HashLength
  }

  predicate CidOk(cid: string)
  {
    1 <= |cid| <= MaxCidLength
  }

  predicate MetadataOk(metadata: string)
  {
    |metadata| <= MaxMetadataLength
  }

  /** Every stored document satisfies the field bounds checked at creation
      (expiry is only checked against the block height of its creation). */
  predicate WellFormed(d: Document)
  {
    && HashOk(d.hash)
    && CidOk(d.cid)
    && d.docType in DocTypes
    && MetadataOk(d.metadata)
    && d.size <= MaxSize
    && |d.location| <= MaxLocationLength
    && d.currency in Currencies
    && 1 <= |d.docName| <= MaxDocNameLength
    && |d.description| <= MaxDescriptionLength
    && |d.category| <= MaxCategoryLength
    && |d.tags| <= MaxTags
    && d.accessLevel <= MaxAccessLevel
    && d.encryptionType in EncryptionTypes
    && d.status
    && d.version >= 1
  }

  /** Each stored document sits under its owner's key, with an id already
      handed out. */
  ghost predicate KeysConsistent(s: State)
  {
    forall k | k in s.documents ::
      s.documents[k].owner == k.user && 1 <= k.docId < s.nextDocId && WellFormed(s.documents[k])
  }

  /** The hash index and the document store are in lock-step: every document's
      hash leads back to it, and every indexed hash belongs to its document. */
  ghost predicate HashIndexed(s: State)
  {
    && (forall k | k in s.documents ::
          s.documents[k].hash in s.docsByHash && s.docsByHash[s.documents[k].hash] == k)
    && (forall h | h in s.docsByHash ::
          s.docsByHash[h] in s.documents && s.documents[s.docsByHash[h]].hash == h)
  }

  /** The index-to-store half of HashIndexed: every indexed hash leads to a
      live document carrying that hash. The registry as implemented keeps
      this half even when it loses the other. */
  ghost predicate IndexSound(s: State)
  {
    forall h | h in s.docsByHash ::
      s.docsByHash[h] in s.documents && s.documents[s.docsByHash[h]].hash == h
  }

  /** An update record exists only for a live document, names its owner as
      updater and records the document's current hash as the new hash. */
  ghost predicate UpdatesConsistent(s: State)
  {
    forall k | k in s.docUpdates ::
      && k in s.documents
      && s.docUpdates[k].updater == k.user
      && s.docUpdates[k].newHash == s.documents[k].hash
      && s.docUpdates[k].oldHash != s.docUpdates[k].newHash
  }

  /** The counters agree with the document store. */
  ghost predicate CountsConsistent(s: State)
  {
    && s.docCount == |s.documents|
    && forall u :: UserCount(s, u) == |OwnedBy(s.documents, u)|
  }

  /** The part of the invariant that the registry as implemented keeps on
      every call: the configuration bounds, ownership, update records,
      counters, and the soundness of every index entry. */
  ghost predicate CoreValid(s: State)
  {
    && s.nextDocId >= 1
    && s.maxDocsPerUser > 0
    && s.backupFee >= 0
    && KeysConsistent(s)
    && IndexSound(s)
    && UpdatesConsistent(s)
    && CountsConsistent(s)
  }

  /** The registry invariant: the core part together with an index that
      agrees with the store. */
  ghost predicate Valid(s: State)
  {
    CoreValid(s) && HashIndexed(s)
  }

  /** No two live documents share a hash. */
  ghost predicate HashesUnique(s: State)
  {
    forall k1, k2 | k1 in s.documents && k2 in s.documents && k1 != k2 ::
      s.documents[k1].hash != s.documents[k2].hash
  }

  lemma ValidHashesUnique(s: State)
    requires Valid(s)
    ensures HashesUnique(s)
  {
    forall k1, k2 | k1 in s.documents && k2 in s.documents && k1 != k2
      ensures s.documents[k1].hash != s.documents[k2].hash
    {
      assert s.docsByHash[s.documents[k1].hash] == k1;
      assert s.docsByHash[s.documents[k2].hash] == k2;
    }
  }

  lemma InitialValid()
    ensures Valid(Initial().state)
    ensures Initial().transfers == []
    ensures !AuthorityConfigured(Initial().state)
    ensures forall h :: h !in Initial().state.docsByHash
  {
    var s := Initial().state;
    forall u ensures UserCount(s, u) == |OwnedBy(s.documents, u)|
    {
      assert OwnedBy(s.documents, u) == {};
    }
  }
}
