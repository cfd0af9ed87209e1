/** The field and state checks run before any mutation. Each check is stated
    on its own (which error it reports and when it fails) together with its
    position in the fixed order; the validators return the failing check of
    least position, and nothing if every check passes. */
module Validation {
  import opened Results
  import opened RegistryState

  /** When the backup check that reports `e` fails, independently of order. */
  predicate BackupCheckFails(ctx: Context, s: State, req: BackupRequest, e: Error)
  {
    match e
    case MaxDocsExceeded => UserCount(s, ctx.caller) >= s.maxDocsPerUser
    case UserNotRegistered => ctx.caller !in ctx.registered
    case InvalidHash => !HashOk(req.hash)
    case InvalidCid => !CidOk(req.cid)
    case InvalidDocType => req.docType !in DocTypes
    case InvalidMetadata => !MetadataOk(req.metadata)
    case InvalidExpiry => req.expiry.Some? && req.expiry.value <= ctx.blockHeight
    case InvalidSize => req.size > MaxSize
    case InvalidLocation => |req.location| > MaxLocationLength
    case InvalidCurrency => req.currency !in Currencies
    case InvalidDocName => |req.docName| == 0 || |req.docName| > MaxDocNameLength
    case InvalidDescription => |req.description| > MaxDescriptionLength
    case InvalidCategory => |req.category| > MaxCategoryLength
    case InvalidTags => |req.tags| > MaxTags
    case InvalidAccessLevel => req.accessLevel > MaxAccessLevel
    case InvalidEncryptionType => req.encryptionType !in EncryptionTypes
    case DocAlreadyExists => req.hash in s.docsByHash
    case AuthorityNotSet => !AuthorityConfigured(s)
    case _ => false
  }

  /** The position of each backup check in the order the checks run. */
  function BackupRank(e: Error): nat
  {
    match e
    case MaxDocsExceeded => 0
    case UserNotRegistered => 1
    case InvalidHash => 2
    case InvalidCid => 3
    case InvalidDocType => 4
    case InvalidMetadata => 5
    case InvalidExpiry => 6
    case InvalidSize => 7
    case InvalidLocation => 8
    case InvalidCurrency => 9
    case InvalidDocName => 10
    case InvalidDescription => 11
    case InvalidCategory => 12
    case InvalidTags => 13
    case InvalidAccessLevel => 14
    case InvalidEncryptionType => 15
    case DocAlreadyExists => 16
    case AuthorityNotSet => 17
    case _ => 18
  }

  /** The checks `backupDocument` runs, in order; the first failure wins. */
  function ValidateBackup(ctx: Context, s: State, req: BackupRequest): (r: Option<Error>)
    ensures r.None? ==> forall e :: !BackupCheckFails(ctx, s, req, e)
    ensures r.Some? ==> BackupCheckFails(ctx, s, req, r.value)
    ensures r.Some? ==> forall e :: BackupRank(e) < BackupRank(r.value) ==> !BackupCheckFails(ctx, s, req, e)
  {
    if UserCount(s, ctx.caller) >= s.maxDocsPerUser then Some(MaxDocsExceeded)
    else if ctx.caller !in ctx.registered then Some(UserNotRegistered)
    else if |req.hash| != HashLength then Some(InvalidHash)
    else if |req.cid| == 0 || |req.cid| > MaxCidLength then Some(InvalidCid)
    else if req.docType !in DocTypes then Some(InvalidDocType)
    else if |req.metadata| > MaxMetadataLength then Some(InvalidMetadata)
    else if req.expiry.Some? && req.expiry.value <= ctx.blockHeight then Some(InvalidExpiry)
    else if req.size > MaxSize then Some(InvalidSize)
    else if |req.location| > MaxLocationLength then Some(InvalidLocation)
    else if req.currency !in Currencies then Some(InvalidCurrency)
    else if |req.docName| == 0 || |req.docName| > MaxDocNameLength then Some(InvalidDocName)
    else if |req.description| > MaxDescriptionLength then Some(InvalidDescription)
    else if |req.category| > MaxCategoryLength then Some(InvalidCategory)
    else if |req.tags| > MaxTags then Some(InvalidTags)
    else if req.accessLevel > MaxAccessLevel then Some(InvalidAccessLevel)
    else if req.encryptionType !in EncryptionTypes then Some(InvalidEncryptionType)
    else if req.hash in s.docsByHash then Some(DocAlreadyExists)
    else if !AuthorityConfigured(s) then Some(AuthorityNotSet)
    else None
  }

  /** When the update check that reports `e` fails, independently of order.
      `checkIndex` adds the check that the new hash is not indexed already. */
  predicate UpdateCheckFails(s: State, key: DocKey, newHash: Hash, newCid: string, newMetadata: string,
                             checkIndex: bool, e: Error)
  {
    match e
    case DocNotFound => key !in s.documents
    case NotAuthorized => key in s.documents && s.documents[key].owner != key.user
    case InvalidHash => !HashOk(newHash)
    case InvalidCid => !CidOk(newCid)
    case InvalidMetadata => !MetadataOk(newMetadata)
    case InvalidUpdateParam => key in s.documents && newHash == s.documents[key].hash
    case DocAlreadyExists => checkIndex && newHash in s.docsByHash
    case _ => false
  }

  /** The position of each update check in the order the checks run. */
  function UpdateRank(e: Error): nat
  {
    match e
    case DocNotFound => 0
    case NotAuthorized => 1
    case InvalidHash => 2
    case InvalidCid => 3
    case InvalidMetadata => 4
    case InvalidUpdateParam => 5
    case DocAlreadyExists => 6
    case _ => 7
  }

  /** The checks `updateDocument` runs on the caller's document `key`, in
      order; with `checkIndex` the new hash must also be unindexed. */
  function ValidateUpdate(s: State, key: DocKey, newHash: Hash, newCid: string, newMetadata: string,
                          checkIndex: bool): (r: Option<Error>)
    ensures r.None? ==> forall e :: !UpdateCheckFails(s, key, newHash, newCid, newMetadata, checkIndex, e)
    ensures r.Some? ==> UpdateCheckFails(s, key, newHash, newCid, newMetadata, checkIndex, r.value)
    ensures r.Some? ==> forall e :: UpdateRank(e) < UpdateRank(r.value) ==>
                                     !UpdateCheckFails(s, key, newHash, newCid, newMetadata, checkIndex, e)
  {
    if key !in s.documents then Some(DocNotFound)
    else if s.documents[key].owner != key.user then Some(NotAuthorized)
    else if |newHash| != HashLength then Some(InvalidHash)
    else if |newCid| == 0 || |newCid| > MaxCidLength then Some(InvalidCid)
    else if |newMetadata| > MaxMetadataLength then Some(InvalidMetadata)
    else if newHash == s.documents[key].hash then Some(InvalidUpdateParam)
    else if checkIndex && newHash in s.docsByHash then Some(DocAlreadyExists)
    else None
  }
}
