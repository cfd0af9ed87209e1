/** The registry's public operations as pure transitions: each takes the
    state (and, for backup, the fee-transfer log) and returns the tagged
    result together with the next state. Every check runs before the first
    mutation, so a failing call returns the state it was given. */
module Registry {
  import opened Results
  import opened RegistryState
  import opened Validation

  // ---------------------------------------------------------------- config

  function SetAuthorityContract(s: State, p: Principal): (r: (Result<bool>, State))
    ensures r.0 == Err(NotAuthorized) <==> p == BurnPrincipal
    ensures r.0 == Err(AuthorityNotSet) <==> p != BurnPrincipal && s.authority.Some?
    ensures r.0.Ok? <==> p != BurnPrincipal && s.authority.None?
    ensures r.0.Ok? ==> r.0.value && r.1 == s.(authority := Some(p))
    ensures r.0.Err? ==> r.1 == s
    ensures s.authority.Some? ==> r.1.authority == s.authority
  {
    if p == BurnPrincipal then (Err(NotAuthorized), s)
    else if s.authority.Some? then (Err(AuthorityNotSet), s)
    else (Ok(true), s.(authority := Some(p)))
  }

  function SetMaxDocsPerUser(s: State, newMax: int): (r: (Result<bool>, State))
    ensures r.0 == Err(AuthorityNotSet) <==> !AuthorityConfigured(s)
    ensures r.0 == Err(InvalidUpdateParam) <==> AuthorityConfigured(s) && newMax <= 0
    ensures r.0.Ok? <==> AuthorityConfigured(s) && newMax > 0
    ensures r.0.Ok? ==> r.0.value && r.1 == s.(maxDocsPerUser := newMax)
    ensures r.0.Err? ==> r.1 == s
  {
    if !AuthorityConfigured(s) then (Err(AuthorityNotSet), s)
    else if newMax <= 0 then (Err(InvalidUpdateParam), s)
    else (Ok(true), s.(maxDocsPerUser := newMax))
  }

  function SetBackupFee(s: State, newFee: int): (r: (Result<bool>, State))
    ensures r.0 == Err(AuthorityNotSet) <==> !AuthorityConfigured(s)
    ensures r.0 == Err(InvalidUpdateParam) <==> AuthorityConfigured(s) && newFee < 0
    ensures r.0.Ok? <==> AuthorityConfigured(s) && newFee >= 0
    ensures r.0.Ok? ==> r.0.value && r.1 == s.(backupFee := newFee)
    ensures r.0.Err? ==> r.1 == s
  {
    if !AuthorityConfigured(s) then (Err(AuthorityNotSet), s)
    else if newFee < 0 then (Err(InvalidUpdateParam), s)
    else (Ok(true), s.(backupFee := newFee))
  }

  // ---------------------------------------------------------------- backup

  /** The stored document carries every field the request supplied. */
  predicate DescribesRequest(d: Document, req: BackupRequest)
  {
    && d.hash == req.hash
    && d.cid == req.cid
    && d.docType == req.docType
    && d.metadata == req.metadata
    && d.expiry == req.expiry
    && d.size == req.size
    && d.location == req.location
    && d.currency == req.currency
    && d.docName == req.docName
    && d.description == req.description
    && d.category == req.category
    && d.tags == req.tags
    && d.accessLevel == req.accessLevel
    && d.encryptionType == req.encryptionType
    && d.verifier == req.verifier
    && d.signature == req.signature
    && d.proof == req.proof
  }

  /** Everything a successful backup of `req` as document `id` does, and
      nothing more. */
  ghost predicate BackupCommitted(ctx: Context, c: Chain, req: BackupRequest, id: int, c': Chain)
  {
    var s, s' := c.state, c'.state;
    var key := DocKey(ctx.caller, id);
    && id == s.nextDocId
    && key in s'.documents
    && DescribesRequest(s'.documents[key], req)
    && s'.documents[key].owner == ctx.caller
    && s'.documents[key].version == 1
    && s'.documents[key].status
    && s'.documents[key].timestamp == ctx.blockHeight
    && s'.documents - {key} == s.documents - {key}
    && s'.docsByHash == s.docsByHash[req.hash := key]
    && s'.docUpdates == s.docUpdates
    && s'.nextDocId == s.nextDocId + 1
    && s'.docCount == s.docCount + 1
    && UserCount(s', ctx.caller) == UserCount(s, ctx.caller) + 1
    && (forall u | u != ctx.caller :: UserCount(s', u) == UserCount(s, u))
    && s'.maxDocsPerUser == s.maxDocsPerUser
    && s'.backupFee == s.backupFee
    && s'.authority == s.authority
    && s.authority.Some?
    && c'.transfers == c.transfers + [Transfer(s.backupFee, ctx.caller, s.authority.value)]
  }

  /** The document a successful backup stores. */
  function NewDocument(ctx: Context, req: BackupRequest): Document
  {
    Document(req.hash, req.cid, ctx.blockHeight, req.docType, req.metadata, ctx.caller, true, 1,
             req.expiry, req.size, req.location, req.currency, req.docName, req.description,
             req.category, req.tags, req.accessLevel, req.encryptionType, req.verifier,
             req.signature, req.proof)
  }

  /** `backupDocument`: validate in the fixed order, then charge the fee and
      store the document under the next id. */
  function BackupDocument(ctx: Context, c: Chain, req: BackupRequest): (r: (Result<int>, Chain))
    ensures r.0.Err? <==> ValidateBackup(ctx, c.state, req).Some?
    ensures r.0.Err? ==> ValidateBackup(ctx, c.state, req) == Some(r.0.error) && r.1 == c
    ensures r.0.Ok? ==> BackupCommitted(ctx, c, req, r.0.value, r.1)
  {
    match ValidateBackup(ctx, c.state, req)
    case Some(e) => (Err(e), c)
    case None =>
      var s := c.state;
      var id := s.nextDocId;
      var key := DocKey(ctx.caller, id);
      var count := UserCount(s, ctx.caller);
      var s' := s.(documents := s.documents[key := NewDocument(ctx, req)],
                   docsByHash := s.docsByHash[req.hash := key],
                   userDocCounts := s.userDocCounts[ctx.caller := count + 1],
                   nextDocId := id + 1,
                   docCount := s.docCount + 1);
      (Ok(id), Chain(s', c.transfers + [Transfer(s.backupFee, ctx.caller, s.authority.value)]))
  }

  // ---------------------------------------------------------------- update

  /** Everything a successful update of document `key` does, and nothing
      more: only hash, cid, metadata, timestamp and version change, the index
      entry moves to the new hash and the update record is overwritten. */
  ghost predicate UpdateCommitted(ctx: Context, s: State, key: DocKey, newHash: Hash, newCid: string,
                                  newMetadata: string, reason: string, s': State)
  {
    && key in s.documents
    && key in s'.documents
    && var d, d' := s.documents[key], s'.documents[key];
    && d'.version == d.version + 1
    && d'.hash == newHash && d'.cid == newCid && d'.metadata == newMetadata
    && d'.timestamp == ctx.blockHeight
    && d' == d.(hash := d'.hash, cid := d'.cid, metadata := d'.metadata, timestamp := d'.timestamp,
                version := d'.version)
    && s'.documents - {key} == s.documents - {key}
    && s'.docsByHash == (s.docsByHash - {d.hash})[newHash := key]
    && s'.docUpdates == s.docUpdates[key := DocUpdate(ctx.blockHeight, ctx.caller, d.hash, newHash, reason)]
    && s' == s.(documents := s'.documents, docsByHash := s'.docsByHash, docUpdates := s'.docUpdates)
  }

  /** The mutations of an update, once every check has passed. */
  function CommitUpdate(ctx: Context, s: State, key: DocKey, newHash: Hash, newCid: string,
                        newMetadata: string, reason: string): State
    requires key in s.documents
  {
    var d := s.documents[key];
    var d' := d.(hash := newHash, cid := newCid, metadata := newMetadata,
                 timestamp := ctx.blockHeight, version := d.version + 1);
    s.(docsByHash := (s.docsByHash - {d.hash})[newHash := key],
       documents := s.documents[key := d'],
       docUpdates := s.docUpdates[key := DocUpdate(ctx.blockHeight, ctx.caller, d.hash, newHash, reason)])
  }

  /** `updateDocument` as the registry implements it: the new hash is never
      checked against the hash index. */
  function UpdateDocument(ctx: Context, s: State, docId: nat, newHash: Hash, newCid: string,
                          newMetadata: string, reason: string): (r: (Result<bool>, State))
    ensures r.0 == Err(DocNotFound) <==> DocKey(ctx.caller, docId) !in s.documents
    ensures r.0.Err? <==> ValidateUpdate(s, DocKey(ctx.caller, docId), newHash, newCid, newMetadata, false).Some?
    ensures r.0.Err? ==> ValidateUpdate(s, DocKey(ctx.caller, docId), newHash, newCid, newMetadata, false)
                         == Some(r.0.error) && r.1 == s
    ensures r.0.Ok? ==> r.0.value && UpdateCommitted(ctx, s, DocKey(ctx.caller, docId), newHash, newCid,
                                                      newMetadata, reason, r.1)
  {
    var key := DocKey(ctx.caller, docId);
    match ValidateUpdate(s, key, newHash, newCid, newMetadata, false)
    case Some(e) => (Err(e), s)
    case None => (Ok(true), CommitUpdate(ctx, s, key, newHash, newCid, newMetadata, reason))
  }

  /** `updateDocument` with the missing check added: a new hash that is
      already indexed is rejected with DocAlreadyExists after all the
      registry's own checks. */
  function UpdateDocumentChecked(ctx: Context, s: State, docId: nat, newHash: Hash, newCid: string,
                                 newMetadata: string, reason: string): (r: (Result<bool>, State))
    ensures r.0 == Err(DocNotFound) <==> DocKey(ctx.caller, docId) !in s.documents
    ensures r.0.Err? <==> ValidateUpdate(s, DocKey(ctx.caller, docId), newHash, newCid, newMetadata, true).Some?
    ensures r.0.Err? ==> ValidateUpdate(s, DocKey(ctx.caller, docId), newHash, newCid, newMetadata, true)
                         == Some(r.0.error) && r.1 == s
    ensures r.0.Ok? ==> r.0.value && newHash !in s.docsByHash
                        && UpdateCommitted(ctx, s, DocKey(ctx.caller, docId), newHash, newCid,
                                           newMetadata, reason, r.1)
  {
    var key := DocKey(ctx.caller, docId);
    match ValidateUpdate(s, key, newHash, newCid, newMetadata, true)
    case Some(e) => (Err(e), s)
    case None => (Ok(true), CommitUpdate(ctx, s, key, newHash, newCid, newMetadata, reason))
  }

  // ---------------------------------------------------------------- delete

  /** Everything a successful delete of document `key` does, and nothing more. */
  ghost predicate DeleteCommitted(ctx: Context, s: State, key: DocKey, s': State)
  {
    && key in s.documents
    && key !in s'.documents
    && s'.documents == s.documents - {key}
    && s'.docsByHash == s.docsByHash - {s.documents[key].hash}
    && s'.docUpdates == s.docUpdates - {key}
    && s'.docCount == s.docCount - 1
    && UserCount(s', ctx.caller) == UserCount(s, ctx.caller) - 1
    && (forall u | u != ctx.caller :: UserCount(s', u) == UserCount(s, u))
    && s'.nextDocId == s.nextDocId
    && s'.maxDocsPerUser == s.maxDocsPerUser
    && s'.backupFee == s.backupFee
    && s'.authority == s.authority
  }

  /** `deleteDocument`: a hard delete of the caller's document `docId`. */
  function DeleteDocument(ctx: Context, s: State, docId: nat): (r: (Result<bool>, State))
    ensures r.0 == Err(DocNotFound) <==> DocKey(ctx.caller, docId) !in s.documents
    ensures r.0 == Err(NotAuthorized) <==>
              DocKey(ctx.caller, docId) in s.documents && s.documents[DocKey(ctx.caller, docId)].owner != ctx.caller
    ensures r.0.Ok? <==>
              DocKey(ctx.caller, docId) in s.documents && s.documents[DocKey(ctx.caller, docId)].owner == ctx.caller
    ensures r.0.Err? ==> r.1 == s
    ensures r.0.Ok? ==> r.0.value && DeleteCommitted(ctx, s, DocKey(ctx.caller, docId), r.1)
  {
    var key := DocKey(ctx.caller, docId);
    if key !in s.documents then (Err(DocNotFound), s)
    else
      var d := s.documents[key];
      if d.owner != ctx.caller then (Err(NotAuthorized), s)
      else
        var count := UserCount(s, ctx.caller);
        (Ok(true), s.(documents := s.documents - {key},
                      docsByHash := s.docsByHash - {d.hash},
                      docUpdates := s.docUpdates - {key},
                      userDocCounts := s.userDocCounts[ctx.caller := count - 1],
                      docCount := s.docCount - 1))
  }

  // --------------------------------------------------------------- queries

  /** `getDocument`: public read of any owner's document. */
  function GetDocument(s: State, user: Principal, docId: nat): (r: Option<Document>)
    ensures r.Some? <==> DocKey(user, docId) in s.documents
    ensures r.Some? ==> r.value == s.documents[DocKey(user, docId)]
    ensures KeysConsistent(s) && r.Some? ==> r.value.owner == user && docId < s.nextDocId && WellFormed(r.value)
  {
    var key := DocKey(user, docId);
    if key in s.documents then Some(s.documents[key]) else None
  }

  /** `getTotalDocCount`: never fails; when the counters agree with the
      store it is the number of live documents. */
  function GetTotalDocCount(s: State): (r: Result<int>)
    ensures r.Ok?
    ensures CountsConsistent(s) ==> r.value == |s.documents|
  {
    Ok(s.docCount)
  }

  /** `checkDocExistence`: never fails; a positive answer is backed by a live
      document whenever every index entry is sound, and when the index agrees
      with the store both ways it tells exactly whether some live document has
      the given hash. */
  function CheckDocExistence(s: State, h: Hash): (r: Result<bool>)
    ensures r.Ok?
    ensures IndexSound(s) && r.value ==> exists k | k in s.documents :: s.documents[k].hash == h
    ensures HashIndexed(s) ==> (r.value <==> exists k | k in s.documents :: s.documents[k].hash == h)
  {
    Ok(h in s.docsByHash)
  }

  // ------------------------------------------------------------ call sequence

  /** One call to a mutating operation. */
  datatype Op =
    | SetAuthority(principal: Principal)
    | SetMaxDocs(newMax: int)
    | SetFee(newFee: int)
    | Backup(req: BackupRequest)
    | Update(docId: nat, newHash: Hash, newCid: string, newMetadata: string, reason: string)
    | Delete(docId: nat)

  /** The effect of one call on the registry. With `checkHash` false an
      update call runs the update as implemented (Registry.UpdateDocument);
      with `checkHash` true it runs the corrected Registry.UpdateDocumentChecked. */
  function Step(ctx: Context, c: Chain, op: Op, checkHash: bool): (c': Chain)
    ensures c.transfers <= c'.transfers
    ensures |c'.transfers| <= |c.transfers| + 1
    ensures c.state.authority.Some? ==> c'.state.authority == c.state.authority
    ensures c.state.nextDocId <= c'.state.nextDocId
  {
    match op
    case SetAuthority(p) => Chain(SetAuthorityContract(c.state, p).1, c.transfers)
    case SetMaxDocs(n) => Chain(SetMaxDocsPerUser(c.state, n).1, c.transfers)
    case SetFee(n) => Chain(SetBackupFee(c.state, n).1, c.transfers)
    case Backup(req) => BackupDocument(ctx, c, req).1
    case Update(id, h, cid, meta, reason) =>
      if checkHash then Chain(UpdateDocumentChecked(ctx, c.state, id, h, cid, meta, reason).1, c.transfers)
      else Chain(UpdateDocument(ctx, c.state, id, h, cid, meta, reason).1, c.transfers)
    case Delete(id) => Chain(DeleteDocument(ctx, c.state, id).1, c.transfers)
  }

  /** A sequence of calls, each with its own context, applied in order. */
  function Run(c: Chain, calls: seq<(Context, Op)>, checkHash: bool): (c': Chain)
    ensures c.transfers <= c'.transfers
    ensures c.state.authority.Some? ==> c'.state.authority == c.state.authority
    decreases |calls|
  {
    if |calls| == 0 then c
    else Run(Step(calls[0].0, c, calls[0].1, checkHash), calls[1..], checkHash)
  }
}
