/** Concrete runs of the registry: the call sequences of the repository's
    test suite, each stated with the outcome the suite expects. */
module Scenarios {
  import opened Results
  import opened RegistryState
  import opened Validation
  import opened Registry

  /** A digest of `n` bytes all equal to `b`. */
  function Fill(n: nat, b: byte): (h: Hash)
    ensures |h| == n
  {
    seq(n, _ => b)
  }

  lemma FillDistinct(n: nat, b1: byte, b2: byte)
    requires n > 0 && b1 != b2
    ensures Fill(n, b1) != Fill(n, b2)
  {
    assert Fill(n, b1)[0] != Fill(n, b2)[0];
  }

  const User: Principal := "ST1TEST"
  const Authority: Principal := "ST2TEST"
  const Ctx := Context(User, 0, {User})

  /** The passport request most tests submit, with the given digest. */
  function Passport(h: Hash): BackupRequest
  {
    BackupRequest(h, "QmTestCID", "passport", "meta data", None, 1024, "IPFS", "STX", "MyPassport",
                  "Personal ID", "identity", ["tag1"], 1, "AES", None, None, None)
  }

  /** The license request with every optional field present. */
  function License(h: Hash): BackupRequest
  {
    BackupRequest(h, "QmOtherCID", "license", "other meta", Some(1000), 2048, "S3", "USD", "MyLicense",
                  "Driving Doc", "transport", ["tag3"], 2, "RSA", Some("ST1PQHQKV0RJXZFY1DGX8MNSNYVE3VGZJSRTPGZGM"),
                  Some(seq(65, _ => 0)), Some(seq(128, _ => 0)))
  }

  /** The first request of the counting and quota tests. */
  function Numbered1(h: Hash): BackupRequest
  {
    BackupRequest(h, "QmTest1", "passport", "meta1", None, 1024, "IPFS", "STX", "Doc1",
                  "Desc1", "Cat1", ["tag1"], 1, "AES", None, None, None)
  }

  /** The second request of the counting test, with every optional field present. */
  function Numbered2(h: Hash): BackupRequest
  {
    BackupRequest(h, "QmTest2", "license", "meta2", Some(1000), 2048, "S3", "USD", "Doc2",
                  "Desc2", "Cat2", ["tag2"], 2, "RSA", Some("ST1PQHQKV0RJXZFY1DGX8MNSNYVE3VGZJSRTPGZGM"),
                  Some(seq(65, _ => 0)), Some(seq(128, _ => 0)))
  }

  /** A reset registry whose authority is ST2TEST. */
  function WithAuthority(): Chain
  {
    Chain(SetAuthorityContract(Initial().state, Authority).1, [])
  }

  lemma BacksUpDocument()
    ensures var req := Passport(Fill(32, 1)).(tags := ["tag1", "tag2"]);
      var r := BackupDocument(Ctx, WithAuthority(), req);
      && r.0 == Ok(1)
      && GetDocument(r.1.state, User, 1).Some?
      && (var d := GetDocument(r.1.state, User, 1).value;
          DescribesRequest(d, req) && d.owner == User && d.status && d.version == 1)
      && r.1.transfers == [Transfer(500, User, Authority)]
  {
  }

  lemma RejectsDuplicateHash()
    ensures var c := BackupDocument(Ctx, WithAuthority(), Passport(Fill(32, 1))).1;
      Code(BackupDocument(Ctx, c, License(Fill(32, 1))).0.error) == 106
  {
  }

  lemma RejectsUnregisteredUser()
    ensures Code(BackupDocument(Context("ST2FAKE", 0, {}), WithAuthority(), Passport(Fill(32, 2))).0.error) == 108
  {
  }

  lemma RejectsBackupWithoutAuthority()
    ensures Code(BackupDocument(Ctx, Initial(), Passport(Fill(32, 3))).0.error) == 119
  {
  }

  lemma RejectsShortHash()
    ensures Code(BackupDocument(Ctx, WithAuthority(), Passport(Fill(31, 4))).0.error) == 101
  {
  }

  lemma RejectsInvalidDocType()
    ensures Code(BackupDocument(Ctx, WithAuthority(), Passport(Fill(32, 5)).(docType := "invalid")).0.error) == 103
  {
  }

  lemma RejectsEmptyDocName()
    ensures Code(BackupDocument(Ctx, WithAuthority(), Passport(Fill(32, 17)).(docName := "")).0.error) == 122
  {
  }

  lemma UpdatesDocument()
    ensures var c := BackupDocument(Ctx, WithAuthority(), Passport(Fill(32, 6)).(cid := "QmOldCID", metadata := "old meta")).1;
      var r := UpdateDocument(Ctx, c.state, 1, Fill(32, 7), "QmNewCID", "new meta", "version update");
      && r.0 == Ok(true)
      && (var d := GetDocument(r.1, User, 1).value;
          d.hash == Fill(32, 7) && d.cid == "QmNewCID" && d.metadata == "new meta" && d.version == 2)
      && r.1.docUpdates[DocKey(User, 1)] == DocUpdate(0, User, Fill(32, 6), Fill(32, 7), "version update")
  {
    FillDistinct(32, 6, 7);
  }

  lemma RejectsUpdateOfMissingDocument()
    ensures Code(UpdateDocument(Ctx, WithAuthority().state, 99, Fill(32, 8), "QmNewCID", "new meta", "update").0.error)
            == 107
  {
  }

  lemma DeletesDocument()
    ensures var c := BackupDocument(Ctx, WithAuthority(), Passport(Fill(32, 11))).1;
      var r := DeleteDocument(Ctx, c.state, 1);
      && r.0 == Ok(true)
      && GetDocument(r.1, User, 1) == None
      && r.1.userDocCounts[User] == 0
      && r.1.docCount == 0
  {
  }

  lemma RejectsDeleteOfMissingDocument()
    ensures Code(DeleteDocument(Ctx, WithAuthority().state, 99).0.error) == 107
  {
  }

  lemma SetsBackupFee()
    ensures var r := SetBackupFee(WithAuthority().state, 1000);
      && r.0 == Ok(true)
      && r.1.backupFee == 1000
      && BackupDocument(Ctx, Chain(r.1, []), Passport(Fill(32, 12))).1.transfers == [Transfer(1000, User, Authority)]
  {
  }

  lemma RejectsFeeChangeWithoutAuthority()
    ensures Code(SetBackupFee(Initial().state, 1000).0.error) == 119
  {
  }

  lemma CountsDocuments()
    ensures var c := BackupDocument(Ctx, WithAuthority(), Numbered1(Fill(32, 13))).1;
      GetTotalDocCount(BackupDocument(Ctx, c, Numbered2(Fill(32, 14))).1.state) == Ok(2)
  {
    FillDistinct(32, 13, 14);
  }

  lemma ChecksExistence()
    ensures var c := BackupDocument(Ctx, WithAuthority(), Passport(Fill(32, 15))).1;
      CheckDocExistence(c.state, Fill(32, 15)) == Ok(true) && CheckDocExistence(c.state, Fill(32, 16)) == Ok(false)
  {
    FillDistinct(32, 15, 16);
  }

  lemma RejectsBackupOverQuota()
    ensures var s := SetMaxDocsPerUser(WithAuthority().state, 1).1;
      var c := BackupDocument(Ctx, Chain(s, []), Numbered1(Fill(32, 18))).1;
      Code(BackupDocument(Ctx, c, Numbered2(Fill(32, 19)).(expiry := None, verifier := None,
                                                          signature := None, proof := None)).0.error) == 112
  {
  }

  lemma SetsAuthority()
    ensures SetAuthorityContract(Initial().state, Authority) == (Ok(true), Initial().state.(authority := Some(Authority)))
    ensures Code(SetAuthorityContract(Initial().state, BurnPrincipal).0.error) == 100
  {
  }

  lemma RejectsSecondAuthority()
    ensures Code(SetAuthorityContract(WithAuthority().state, "ST3OTHER").0.error) == 119
  {
  }

  /** The as-implemented update lets two live documents end up with one hash. */
  lemma UpdateDuplicatesHash()
    ensures var c1 := BackupDocument(Ctx, WithAuthority(), Passport(Fill(32, 20))).1;
      var c2 := BackupDocument(Ctx, c1, Passport(Fill(32, 21))).1;
      var r := UpdateDocument(Ctx, c2.state, 1, Fill(32, 21), "QmNewCID", "new meta", "collide");
      && r.0 == Ok(true)
      && DocKey(User, 1) in r.1.documents && DocKey(User, 2) in r.1.documents
      && r.1.documents[DocKey(User, 1)].hash == r.1.documents[DocKey(User, 2)].hash
      && UpdateDocumentChecked(Ctx, c2.state, 1, Fill(32, 21), "QmNewCID", "new meta", "collide").0
         == Err(DocAlreadyExists)
  {
    FillDistinct(32, 20, 21);
  }

  /** The same collision reached by a call sequence from a reset registry:
      the registry as implemented ends in a state that breaks the invariant,
      while the corrected registry rejects the update and ends where the two
      backups left it. */
  lemma AsImplementedRunDuplicatesHash()
    ensures !HashesUnique(Run(Initial(), CollidingCalls(), false).state)
    ensures !Valid(Run(Initial(), CollidingCalls(), false).state)
    ensures var c1 := BackupDocument(Ctx, WithAuthority(), Passport(Fill(32, 20))).1;
      Run(Initial(), CollidingCalls(), true) == BackupDocument(Ctx, c1, Passport(Fill(32, 21))).1
  {
    var c1 := BackupDocument(Ctx, WithAuthority(), Passport(Fill(32, 20))).1;
    var c2 := BackupDocument(Ctx, c1, Passport(Fill(32, 21))).1;
    UpdateDuplicatesHash();
    RunCollidingCalls(false);
    RunCollidingCalls(true);
    var r := UpdateDocument(Ctx, c2.state, 1, Fill(32, 21), "QmNewCID", "new meta", "collide");
    assert Run(Initial(), CollidingCalls(), false).state == r.1;
    SharedHashBreaksValid(r.1, DocKey(User, 1), DocKey(User, 2));
  }

  /** Two live documents with one hash break uniqueness and the invariant. */
  lemma SharedHashBreaksValid(s: State, k1: DocKey, k2: DocKey)
    requires k1 in s.documents && k2 in s.documents && k1 != k2
    requires s.documents[k1].hash == s.documents[k2].hash
    ensures !HashesUnique(s) && !Valid(s)
  {
    if Valid(s) {
      ValidHashesUnique(s);
    }
  }

  /** Set the authority, back up two digests, then move the first document
      onto the second one's digest. */
  function CollidingCalls(): seq<(Context, Op)>
  {
    [(Ctx, SetAuthority(Authority)), (Ctx, Backup(Passport(Fill(32, 20)))),
     (Ctx, Backup(Passport(Fill(32, 21)))), (Ctx, Update(1, Fill(32, 21), "QmNewCID", "new meta", "collide"))]
  }

  lemma RunCollidingCalls(checkHash: bool)
    ensures var c1 := BackupDocument(Ctx, WithAuthority(), Passport(Fill(32, 20))).1;
      var c2 := BackupDocument(Ctx, c1, Passport(Fill(32, 21))).1;
      Run(Initial(), CollidingCalls(), checkHash)
      == Step(Ctx, c2, Update(1, Fill(32, 21), "QmNewCID", "new meta", "collide"), checkHash)
  {
    var calls := CollidingCalls();
    var c0 := Initial();
    var c1 := Step(Ctx, c0, calls[0].1, checkHash);
    assert c1 == WithAuthority();
    var c2 := Step(Ctx, c1, calls[1].1, checkHash);
    var c3 := Step(Ctx, c2, calls[2].1, checkHash);
    var c4 := Step(Ctx, c3, calls[3].1, checkHash);
    assert calls[1..][1..][1..][1..] == [];
    assert Run(c4, calls[1..][1..][1..][1..], checkHash) == c4;
    assert Run(c3, calls[1..][1..][1..], checkHash) == c4;
    assert Run(c2, calls[1..][1..], checkHash) == c4;
    assert Run(c1, calls[1..], checkHash) == c4;
  }
}
