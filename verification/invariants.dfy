/** The registry invariant. Its core part (RegistryState.CoreValid: ownership,
    update records and counters) holds initially and is kept by every
    operation, the update as implemented included. The full invariant
    (RegistryState.Valid, which adds the hash index) is kept by every
    operation except an update onto an already-indexed hash, and so by every
    call sequence of the corrected registry. */
module Invariants {
  import opened Results
  import opened RegistryState
  import opened Validation
  import opened Registry

  // ------------------------------------------------- ownership bookkeeping

  lemma OwnedByInsert(docs: map<DocKey, Document>, key: DocKey, d: Document, u: Principal)
    requires key !in docs
    ensures d.owner == u ==> OwnedBy(docs[key := d], u) == OwnedBy(docs, u) + {key}
    ensures d.owner != u ==> OwnedBy(docs[key := d], u) == OwnedBy(docs, u)
    ensures key !in OwnedBy(docs, u)
  {
  }

  lemma OwnedByRemove(docs: map<DocKey, Document>, key: DocKey, u: Principal)
    ensures OwnedBy(docs - {key}, u) == OwnedBy(docs, u) - {key}
  {
  }

  lemma OwnedByReplace(docs: map<DocKey, Document>, key: DocKey, d: Document, u: Principal)
    requires key in docs && d.owner == docs[key].owner
    ensures OwnedBy(docs[key := d], u) == OwnedBy(docs, u)
  {
  }

  // ------------------------------------------------------------ configuration

  lemma SetAuthorityPreservesValid(s: State, p: Principal)
    ensures CoreValid(s) ==> CoreValid(SetAuthorityContract(s, p).1)
    ensures Valid(s) ==> Valid(SetAuthorityContract(s, p).1)
  {
    var s' := SetAuthorityContract(s, p).1;
    forall u ensures UserCount(s', u) == UserCount(s, u) {
    }
  }

  lemma SetMaxDocsPreservesValid(s: State, newMax: int)
    ensures CoreValid(s) ==> CoreValid(SetMaxDocsPerUser(s, newMax).1)
    ensures Valid(s) ==> Valid(SetMaxDocsPerUser(s, newMax).1)
  {
    var s' := SetMaxDocsPerUser(s, newMax).1;
    forall u ensures UserCount(s', u) == UserCount(s, u) {
    }
  }

  lemma SetFeePreservesValid(s: State, newFee: int)
    ensures CoreValid(s) ==> CoreValid(SetBackupFee(s, newFee).1)
    ensures Valid(s) ==> Valid(SetBackupFee(s, newFee).1)
  {
    var s' := SetBackupFee(s, newFee).1;
    forall u ensures UserCount(s', u) == UserCount(s, u) {
    }
  }

  // ----------------------------------------------------------------- backup

  /** A request that passes every backup check satisfies the field bounds. */
  lemma AcceptedRequestWellFormed(ctx: Context, s: State, req: BackupRequest)
    requires ValidateBackup(ctx, s, req).None?
    ensures WellFormed(NewDocument(ctx, req))
    ensures req.hash !in s.docsByHash && AuthorityConfigured(s)
  {
    assert !BackupCheckFails(ctx, s, req, InvalidHash);
    assert !BackupCheckFails(ctx, s, req, InvalidCid);
    assert !BackupCheckFails(ctx, s, req, InvalidDocType);
    assert !BackupCheckFails(ctx, s, req, InvalidMetadata);
    assert !BackupCheckFails(ctx, s, req, InvalidSize);
    assert !BackupCheckFails(ctx, s, req, InvalidLocation);
    assert !BackupCheckFails(ctx, s, req, InvalidCurrency);
    assert !BackupCheckFails(ctx, s, req, InvalidDocName);
    assert !BackupCheckFails(ctx, s, req, InvalidDescription);
    assert !BackupCheckFails(ctx, s, req, InvalidCategory);
    assert !BackupCheckFails(ctx, s, req, InvalidTags);
    assert !BackupCheckFails(ctx, s, req, InvalidAccessLevel);
    assert !BackupCheckFails(ctx, s, req, InvalidEncryptionType);
    assert !BackupCheckFails(ctx, s, req, DocAlreadyExists);
    assert !BackupCheckFails(ctx, s, req, AuthorityNotSet);
  }

  lemma BackupPreservesCoreValid(ctx: Context, c: Chain, req: BackupRequest)
    requires CoreValid(c.state)
    ensures CoreValid(BackupDocument(ctx, c, req).1.state)
  {
    var s := c.state;
    var r := BackupDocument(ctx, c, req);
    var s' := r.1.state;
    if r.0.Ok? {
      AcceptedRequestWellFormed(ctx, s, req);
      var key := DocKey(ctx.caller, s.nextDocId);
      var d := NewDocument(ctx, req);
      assert key !in s.documents;
      assert s'.documents == s.documents[key := d];
      assert KeysConsistent(s');
      assert UpdatesConsistent(s');
      forall u ensures UserCount(s', u) == |OwnedBy(s'.documents, u)| {
        OwnedByInsert(s.documents, key, d, u);
      }
    }
  }

  lemma BackupPreservesValid(ctx: Context, c: Chain, req: BackupRequest)
    requires Valid(c.state)
    ensures Valid(BackupDocument(ctx, c, req).1.state)
  {
    BackupPreservesCoreValid(ctx, c, req);
    var s := c.state;
    var r := BackupDocument(ctx, c, req);
    var s' := r.1.state;
    if r.0.Ok? {
      AcceptedRequestWellFormed(ctx, s, req);
      var key := DocKey(ctx.caller, s.nextDocId);
      assert key !in s.documents;
      forall k | k in s.documents
        ensures s.documents[k].hash != req.hash
      {
        assert s.documents[k].hash in s.docsByHash;
      }
      assert HashIndexed(s');
    }
  }

  // ----------------------------------------------------------------- update

  /** The commit step of an update keeps the core invariant, whatever the new
      hash. */
  lemma CommitUpdatePreservesCoreValid(ctx: Context, s: State, docId: nat, newHash: Hash, newCid: string,
                                       newMetadata: string, reason: string)
    requires CoreValid(s)
    requires ValidateUpdate(s, DocKey(ctx.caller, docId), newHash, newCid, newMetadata, false).None?
    ensures CoreValid(CommitUpdate(ctx, s, DocKey(ctx.caller, docId), newHash, newCid, newMetadata, reason))
  {
    var key := DocKey(ctx.caller, docId);
    var s' := CommitUpdate(ctx, s, key, newHash, newCid, newMetadata, reason);
    assert !UpdateCheckFails(s, key, newHash, newCid, newMetadata, false, DocNotFound);
    assert !UpdateCheckFails(s, key, newHash, newCid, newMetadata, false, InvalidHash);
    assert !UpdateCheckFails(s, key, newHash, newCid, newMetadata, false, InvalidCid);
    assert !UpdateCheckFails(s, key, newHash, newCid, newMetadata, false, InvalidMetadata);
    assert !UpdateCheckFails(s, key, newHash, newCid, newMetadata, false, InvalidUpdateParam);
    CommitUpdateKeepsKeys(ctx, s, key, newHash, newCid, newMetadata, reason);
    CommitUpdateKeepsCounts(ctx, s, key, newHash, newCid, newMetadata, reason);
    assert UpdatesConsistent(s');
  }

  lemma CommitUpdateKeepsKeys(ctx: Context, s: State, key: DocKey, newHash: Hash, newCid: string,
                              newMetadata: string, reason: string)
    requires KeysConsistent(s)
    requires key in s.documents
    requires HashOk(newHash) && CidOk(newCid) && MetadataOk(newMetadata)
    ensures KeysConsistent(CommitUpdate(ctx, s, key, newHash, newCid, newMetadata, reason))
  {
  }

  lemma CommitUpdateKeepsCounts(ctx: Context, s: State, key: DocKey, newHash: Hash, newCid: string,
                                newMetadata: string, reason: string)
    requires CountsConsistent(s)
    requires key in s.documents
    ensures CountsConsistent(CommitUpdate(ctx, s, key, newHash, newCid, newMetadata, reason))
  {
    var s' := CommitUpdate(ctx, s, key, newHash, newCid, newMetadata, reason);
    forall u ensures UserCount(s', u) == |OwnedBy(s'.documents, u)| {
      OwnedByReplace(s.documents, key, s'.documents[key], u);
    }
  }

  lemma CommitUpdateKeepsIndex(ctx: Context, s: State, key: DocKey, newHash: Hash, newCid: string,
                               newMetadata: string, reason: string)
    requires HashIndexed(s)
    requires key in s.documents
    requires newHash !in s.docsByHash
    ensures HashIndexed(CommitUpdate(ctx, s, key, newHash, newCid, newMetadata, reason))
  {
    var s' := CommitUpdate(ctx, s, key, newHash, newCid, newMetadata, reason);
    var d := s.documents[key];
    assert s.docsByHash[d.hash] == key;
    forall k | k in s'.documents
      ensures s'.documents[k].hash in s'.docsByHash && s'.docsByHash[s'.documents[k].hash] == k
    {
      if k != key {
        assert s.documents[k].hash in s.docsByHash;
        assert s.documents[k].hash != d.hash;
      }
    }
    forall h | h in s'.docsByHash
      ensures s'.docsByHash[h] in s'.documents && s'.documents[s'.docsByHash[h]].hash == h
    {
      if h != newHash {
        assert h in s.docsByHash && h != d.hash;
        assert s.docsByHash[h] != key;
      }
    }
  }

  /** The update as implemented keeps the core invariant for every input. */
  lemma UpdatePreservesCoreValid(ctx: Context, s: State, docId: nat, newHash: Hash, newCid: string,
                                 newMetadata: string, reason: string)
    requires CoreValid(s)
    ensures CoreValid(UpdateDocument(ctx, s, docId, newHash, newCid, newMetadata, reason).1)
  {
    if UpdateDocument(ctx, s, docId, newHash, newCid, newMetadata, reason).0.Ok? {
      CommitUpdatePreservesCoreValid(ctx, s, docId, newHash, newCid, newMetadata, reason);
    }
  }

  /** The update as implemented keeps the full invariant exactly when it
      fails or its new hash was not yet indexed (see UpdateHashFinding). */
  lemma UpdatePreservesValid(ctx: Context, s: State, docId: nat, newHash: Hash, newCid: string,
                             newMetadata: string, reason: string)
    requires Valid(s)
    ensures var r := UpdateDocument(ctx, s, docId, newHash, newCid, newMetadata, reason);
      Valid(r.1) <==> r.0.Err? || newHash !in s.docsByHash
  {
    var key := DocKey(ctx.caller, docId);
    var r := UpdateDocument(ctx, s, docId, newHash, newCid, newMetadata, reason);
    if r.0.Ok? {
      UpdatePreservesCoreValid(ctx, s, docId, newHash, newCid, newMetadata, reason);
      if newHash !in s.docsByHash {
        CommitUpdateKeepsIndex(ctx, s, key, newHash, newCid, newMetadata, reason);
      } else {
        var other := s.docsByHash[newHash];
        assert !UpdateCheckFails(s, key, newHash, newCid, newMetadata, false, InvalidUpdateParam);
        assert other != key;
        assert r.1.documents[other] == s.documents[other];
        assert r.1.docsByHash[r.1.documents[other].hash] == key;
      }
    }
  }

  /** The corrected update, once accepted, does exactly what the update as
      implemented does; when it rejects, nothing changes. */
  lemma CheckedUpdateRefinesUpdate(ctx: Context, s: State, docId: nat, newHash: Hash, newCid: string,
                                   newMetadata: string, reason: string)
    ensures var r := UpdateDocumentChecked(ctx, s, docId, newHash, newCid, newMetadata, reason);
      && (r.0.Ok? ==> r == UpdateDocument(ctx, s, docId, newHash, newCid, newMetadata, reason))
      && (r.0.Err? ==> r.1 == s)
      && (newHash !in s.docsByHash ==> r == UpdateDocument(ctx, s, docId, newHash, newCid, newMetadata, reason))
  {
    var key := DocKey(ctx.caller, docId);
    if UpdateDocumentChecked(ctx, s, docId, newHash, newCid, newMetadata, reason).0.Ok? {
      assert !UpdateCheckFails(s, key, newHash, newCid, newMetadata, true, DocAlreadyExists);
      assert forall e :: !UpdateCheckFails(s, key, newHash, newCid, newMetadata, false, e);
    }
  }

  /** The corrected update keeps the invariant unconditionally. */
  lemma UpdateCheckedPreservesValid(ctx: Context, s: State, docId: nat, newHash: Hash, newCid: string,
                                    newMetadata: string, reason: string)
    requires Valid(s)
    ensures Valid(UpdateDocumentChecked(ctx, s, docId, newHash, newCid, newMetadata, reason).1)
  {
    CheckedUpdateRefinesUpdate(ctx, s, docId, newHash, newCid, newMetadata, reason);
    if UpdateDocumentChecked(ctx, s, docId, newHash, newCid, newMetadata, reason).0.Ok? {
      assert newHash !in s.docsByHash;
      UpdatePreservesValid(ctx, s, docId, newHash, newCid, newMetadata, reason);
    }
  }

  // ----------------------------------------------------------------- delete

  lemma DeletePreservesCoreValid(ctx: Context, s: State, docId: nat)
    requires CoreValid(s)
    ensures CoreValid(DeleteDocument(ctx, s, docId).1)
  {
    var key := DocKey(ctx.caller, docId);
    var s' := DeleteDocument(ctx, s, docId).1;
    if DeleteDocument(ctx, s, docId).0.Ok? {
      assert KeysConsistent(s');
      assert UpdatesConsistent(s');
      assert |s'.documents| == |s.documents| - 1;
      forall u ensures UserCount(s', u) == |OwnedBy(s'.documents, u)| {
        OwnedByRemove(s.documents, key, u);
        if u == ctx.caller {
          assert key in OwnedBy(s.documents, u);
        }
      }
    }
  }

  lemma DeletePreservesValid(ctx: Context, s: State, docId: nat)
    requires Valid(s)
    ensures Valid(DeleteDocument(ctx, s, docId).1)
  {
    DeletePreservesCoreValid(ctx, s, docId);
    var key := DocKey(ctx.caller, docId);
    var s' := DeleteDocument(ctx, s, docId).1;
    if DeleteDocument(ctx, s, docId).0.Ok? {
      var d := s.documents[key];
      assert s.docsByHash[d.hash] == key;
      forall k | k in s'.documents
        ensures s'.documents[k].hash in s'.docsByHash && s'.docsByHash[s'.documents[k].hash] == k
      {
        assert s.documents[k].hash in s.docsByHash;
      }
      assert HashIndexed(s');
    }
  }

  // --------------------------------------------------------- call sequences

  /** Every call keeps the core invariant, with either update. */
  lemma StepPreservesCoreValid(ctx: Context, c: Chain, op: Op, checkHash: bool)
    requires CoreValid(c.state)
    ensures CoreValid(Step(ctx, c, op, checkHash).state)
  {
    match op
    case SetAuthority(p) => SetAuthorityPreservesValid(c.state, p);
    case SetMaxDocs(n) => SetMaxDocsPreservesValid(c.state, n);
    case SetFee(n) => SetFeePreservesValid(c.state, n);
    case Backup(req) => BackupPreservesCoreValid(ctx, c, req);
    case Update(id, h, cid, meta, reason) =>
      CheckedUpdateRefinesUpdate(ctx, c.state, id, h, cid, meta, reason);
      UpdatePreservesCoreValid(ctx, c.state, id, h, cid, meta, reason);
    case Delete(id) => DeletePreservesCoreValid(ctx, c.state, id);
  }

  /** Every call of the corrected registry keeps the full invariant. */
  lemma StepPreservesValid(ctx: Context, c: Chain, op: Op)
    requires Valid(c.state)
    ensures Valid(Step(ctx, c, op, true).state)
  {
    match op
    case SetAuthority(p) => SetAuthorityPreservesValid(c.state, p);
    case SetMaxDocs(n) => SetMaxDocsPreservesValid(c.state, n);
    case SetFee(n) => SetFeePreservesValid(c.state, n);
    case Backup(req) => BackupPreservesValid(ctx, c, req);
    case Update(id, h, cid, meta, reason) => UpdateCheckedPreservesValid(ctx, c.state, id, h, cid, meta, reason);
    case Delete(id) => DeletePreservesValid(ctx, c.state, id);
  }

  lemma {:induction false} RunPreservesCoreValid(c: Chain, calls: seq<(Context, Op)>, checkHash: bool)
    requires CoreValid(c.state)
    ensures CoreValid(Run(c, calls, checkHash).state)
    decreases |calls|
  {
    if |calls| > 0 {
      StepPreservesCoreValid(calls[0].0, c, calls[0].1, checkHash);
      RunPreservesCoreValid(Step(calls[0].0, c, calls[0].1, checkHash), calls[1..], checkHash);
    }
  }

  lemma {:induction false} RunPreservesValid(c: Chain, calls: seq<(Context, Op)>)
    requires Valid(c.state)
    ensures Valid(Run(c, calls, true).state)
    decreases |calls|
  {
    if |calls| > 0 {
      StepPreservesValid(calls[0].0, c, calls[0].1);
      RunPreservesValid(Step(calls[0].0, c, calls[0].1, true), calls[1..]);
    }
  }

  /** Every state reachable from a reset registry keeps the core invariant,
      whichever update is used; with the corrected update it also keeps the
      full invariant, so no two live documents share a hash. (With the update
      as implemented the latter fails: Scenarios.AsImplementedRunDuplicatesHash.) */
  lemma ReachableValid(calls: seq<(Context, Op)>, checkHash: bool)
    ensures CoreValid(Run(Initial(), calls, checkHash).state)
    ensures checkHash ==> Valid(Run(Initial(), calls, checkHash).state)
    ensures checkHash ==> HashesUnique(Run(Initial(), calls, checkHash).state)
  {
    InitialValid();
    RunPreservesCoreValid(Initial(), calls, checkHash);
    if checkHash {
      RunPreservesValid(Initial(), calls);
      ValidHashesUnique(Run(Initial(), calls, checkHash).state);
    }
  }

  // -------------------------------------------------------- consequences

  /** Documents are keyed by their owner, so the ownership checks of update
      and delete never fire once every document sits under its owner's key. */
  lemma NotAuthorizedUnreachable(ctx: Context, s: State, docId: nat, newHash: Hash, newCid: string,
                                 newMetadata: string, reason: string)
    requires KeysConsistent(s)
    ensures UpdateDocument(ctx, s, docId, newHash, newCid, newMetadata, reason).0 != Err(NotAuthorized)
    ensures UpdateDocumentChecked(ctx, s, docId, newHash, newCid, newMetadata, reason).0 != Err(NotAuthorized)
    ensures DeleteDocument(ctx, s, docId).0 != Err(NotAuthorized)
  {
    var key := DocKey(ctx.caller, docId);
    assert !UpdateCheckFails(s, key, newHash, newCid, newMetadata, false, NotAuthorized);
    assert !UpdateCheckFails(s, key, newHash, newCid, newMetadata, true, NotAuthorized);
  }

  /** In every state reachable from a reset registry, with either update,
      neither update nor delete reports NotAuthorized. */
  lemma ReachableNeverNotAuthorized(calls: seq<(Context, Op)>, checkHash: bool, ctx: Context, docId: nat,
                                    newHash: Hash, newCid: string, newMetadata: string, reason: string)
    ensures var s := Run(Initial(), calls, checkHash).state;
      && UpdateDocument(ctx, s, docId, newHash, newCid, newMetadata, reason).0 != Err(NotAuthorized)
      && UpdateDocumentChecked(ctx, s, docId, newHash, newCid, newMetadata, reason).0 != Err(NotAuthorized)
      && DeleteDocument(ctx, s, docId).0 != Err(NotAuthorized)
  {
    ReachableValid(calls, checkHash);
    NotAuthorizedUnreachable(ctx, Run(Initial(), calls, checkHash).state, docId, newHash, newCid, newMetadata, reason);
  }

  /** After a successful backup the hash is reported as existing and a
      second backup of the same hash fails with DocAlreadyExists unless an
      earlier check fails first. */
  lemma BackupIndexesHash(ctx: Context, c: Chain, req: BackupRequest, ctx2: Context, req2: BackupRequest)
    requires BackupDocument(ctx, c, req).0.Ok?
    requires req2.hash == req.hash
    ensures CheckDocExistence(BackupDocument(ctx, c, req).1.state, req.hash) == Ok(true)
    ensures BackupDocument(ctx2, BackupDocument(ctx, c, req).1, req2).0.Err?
    ensures BackupRank(BackupDocument(ctx2, BackupDocument(ctx, c, req).1, req2).0.error) <= BackupRank(DocAlreadyExists)
  {
    var c' := BackupDocument(ctx, c, req).1;
    assert BackupCheckFails(ctx2, c'.state, req2, DocAlreadyExists);
  }

  /** While a hash is indexed, every backup of it, by any caller and with any
      other fields, fails with DocAlreadyExists or an earlier check and
      changes nothing. */
  lemma IndexedHashBlocksBackup(ctx: Context, c: Chain, req: BackupRequest)
    requires req.hash in c.state.docsByHash
    ensures BackupDocument(ctx, c, req).0.Err?
    ensures BackupRank(BackupDocument(ctx, c, req).0.error) <= BackupRank(DocAlreadyExists)
    ensures BackupDocument(ctx, c, req).1 == c
  {
    assert BackupCheckFails(ctx, c.state, req, DocAlreadyExists);
  }

  /** When the index agrees with the store, the hash of any live document
      blocks every backup of it. */
  lemma LiveHashBlocksBackup(ctx: Context, c: Chain, req: BackupRequest, k: DocKey)
    requires HashIndexed(c.state)
    requires k in c.state.documents && c.state.documents[k].hash == req.hash
    ensures BackupDocument(ctx, c, req).0.Err?
    ensures BackupRank(BackupDocument(ctx, c, req).0.error) <= BackupRank(DocAlreadyExists)
  {
    IndexedHashBlocksBackup(ctx, c, req);
  }

  /** After a successful delete the old hash is no longer indexed, so it
      can be backed up again. */
  lemma DeleteFreesHash(ctx: Context, s: State, docId: nat, ctx2: Context, req: BackupRequest)
    requires DeleteDocument(ctx, s, docId).0.Ok?
    requires req.hash == s.documents[DocKey(ctx.caller, docId)].hash
    ensures CheckDocExistence(DeleteDocument(ctx, s, docId).1, req.hash) == Ok(false)
    ensures !BackupCheckFails(ctx2, DeleteDocument(ctx, s, docId).1, req, DocAlreadyExists)
  {
  }

  /** The quota check runs first: a caller at or over quota is always told
      MaxDocsExceeded, and a caller under quota never is. */
  lemma QuotaCheckFirst(ctx: Context, c: Chain, req: BackupRequest)
    ensures BackupDocument(ctx, c, req).0 == Err(MaxDocsExceeded)
            <==> UserCount(c.state, ctx.caller) >= c.state.maxDocsPerUser
  {
    if UserCount(c.state, ctx.caller) >= c.state.maxDocsPerUser {
      assert BackupCheckFails(ctx, c.state, req, MaxDocsExceeded);
    }
  }

  /** Without a configured authority no backup succeeds. */
  lemma NoAuthorityNoBackup(ctx: Context, c: Chain, req: BackupRequest)
    requires !AuthorityConfigured(c.state)
    ensures BackupDocument(ctx, c, req).0.Err?
    ensures BackupDocument(ctx, c, req).1 == c
  {
    assert BackupCheckFails(ctx, c.state, req, AuthorityNotSet);
  }

  /** Setting the authority to the empty string passes the once-only check
      but leaves the truthiness gates closed: from then on the authority can
      never be set again, and configuration changes and backups all fail. */
  lemma EmptyAuthorityLocksRegistry(s: State, p: Principal, n: int, ctx: Context, req: BackupRequest)
    requires s.authority.None?
    ensures var s' := SetAuthorityContract(s, "").1;
      && SetAuthorityContract(s, "").0 == Ok(true)
      && SetAuthorityContract(s', p).0.Err?
      && SetMaxDocsPerUser(s', n).0 == Err(AuthorityNotSet)
      && SetBackupFee(s', n).0 == Err(AuthorityNotSet)
      && BackupDocument(ctx, Chain(s', []), req).0.Err?
  {
    var s' := SetAuthorityContract(s, "").1;
    assert BackupCheckFails(ctx, s', req, AuthorityNotSet);
  }
}
