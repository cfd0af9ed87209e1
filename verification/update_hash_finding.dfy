/** `updateDocument` re-points the hash index at the new hash without asking
    whether another document already owns it. From any valid state with two
    live documents of one owner, moving one onto the other's hash succeeds,
    after which two live documents share a hash and the index has lost one of
    them. Registry.UpdateDocumentChecked adds the missing check. */
module UpdateHashFinding {
  import opened Results
  import opened RegistryState
  import opened Validation
  import opened Registry
  import opened Invariants

  /** As implemented: the update is accepted and breaks hash uniqueness; a
      later delete of the updated document then drops the index entry of a
      hash that a live document still carries. */
  lemma UpdateOntoIndexedHashBreaksUniqueness(ctx: Context, s: State, docId: nat, other: DocKey,
                                              newCid: string, newMetadata: string, reason: string)
    requires Valid(s)
    requires DocKey(ctx.caller, docId) in s.documents
    requires other in s.documents && other != DocKey(ctx.caller, docId)
    requires CidOk(newCid) && MetadataOk(newMetadata)
    ensures var h := s.documents[other].hash;
      var r := UpdateDocument(ctx, s, docId, h, newCid, newMetadata, reason);
      && r.0 == Ok(true)
      && other in r.1.documents
      && r.1.documents[DocKey(ctx.caller, docId)].hash == r.1.documents[other].hash
      && !HashesUnique(r.1)
      && !Valid(r.1)
      && var s2 := DeleteDocument(ctx, r.1, docId).1;
         && other in s2.documents && s2.documents[other].hash == h
         && CheckDocExistence(s2, h) == Ok(false)
  {
    var key := DocKey(ctx.caller, docId);
    var h := s.documents[other].hash;
    ValidHashesUnique(s);
    assert h != s.documents[key].hash;
    assert s.documents[key].owner == ctx.caller;
    assert forall e :: !UpdateCheckFails(s, key, h, newCid, newMetadata, false, e);
    var r := UpdateDocument(ctx, s, docId, h, newCid, newMetadata, reason);
    assert r.0.Ok?;
    assert r.1.docsByHash[h] == key;
    assert r.1.documents[other] == s.documents[other];
    assert r.1.docsByHash[r.1.documents[other].hash] != other;
    assert !HashIndexed(r.1);
  }

  /** Corrected: the same call is rejected with DocAlreadyExists and changes
      nothing. */
  lemma CheckedUpdateRejectsIndexedHash(ctx: Context, s: State, docId: nat, other: DocKey,
                                        newCid: string, newMetadata: string, reason: string)
    requires Valid(s)
    requires DocKey(ctx.caller, docId) in s.documents
    requires other in s.documents && other != DocKey(ctx.caller, docId)
    requires CidOk(newCid) && MetadataOk(newMetadata)
    ensures var r := UpdateDocumentChecked(ctx, s, docId, s.documents[other].hash, newCid, newMetadata, reason);
      r.0 == Err(DocAlreadyExists) && r.1 == s
  {
    var key := DocKey(ctx.caller, docId);
    var h := s.documents[other].hash;
    ValidHashesUnique(s);
    assert h in s.docsByHash;
    assert forall e :: UpdateRank(e) < UpdateRank(DocAlreadyExists) ==>
                         !UpdateCheckFails(s, key, h, newCid, newMetadata, true, e);
    assert UpdateCheckFails(s, key, h, newCid, newMetadata, true, DocAlreadyExists);
  }

  /** Corrected: one update from a valid state leaves no two live documents
      with one hash. For whole call sequences see Invariants.ReachableValid. */
  lemma CheckedUpdateKeepsHashesUnique(ctx: Context, s: State, docId: nat, newHash: Hash, newCid: string,
                                       newMetadata: string, reason: string)
    requires Valid(s)
    ensures HashesUnique(UpdateDocumentChecked(ctx, s, docId, newHash, newCid, newMetadata, reason).1)
  {
    UpdateCheckedPreservesValid(ctx, s, docId, newHash, newCid, newMetadata, reason);
    ValidHashesUnique(UpdateDocumentChecked(ctx, s, docId, newHash, newCid, newMetadata, reason).1);
  }
}
