/** Error kinds and the tagged result every registry operation returns.
    The numeric codes are the constants the registry reports on failure. */
module Results {

  datatype Option<+T> = None | Some(value: T)

  /** The closed taxonomy of failures the registry reports. */
  datatype Error =
    | NotAuthorized
    | InvalidHash
    | InvalidCid
    | InvalidDocType
    | InvalidMetadata
    | DocAlreadyExists
    | DocNotFound
    | UserNotRegistered
    | MaxDocsExceeded
    | InvalidUpdateParam
    | InvalidExpiry
    | InvalidSize
    | InvalidLocation
    | InvalidCurrency
    | AuthorityNotSet
    | InvalidDocName
    | InvalidDescription
    | InvalidCategory
    | InvalidTags
    | InvalidAccessLevel
    | InvalidEncryptionType

  /** The numeric code reported for each error kind. */
  function Code(e: Error): nat
  {
    match e
    case NotAuthorized => 100
    case InvalidHash => 101
    case InvalidCid => 102
    case InvalidDocType => 103
    case InvalidMetadata => 105
    case DocAlreadyExists => 106
    case DocNotFound => 107
    case UserNotRegistered => 108
    case MaxDocsExceeded => 112
    case InvalidUpdateParam => 113
    case InvalidExpiry => 115
    case InvalidSize => 116
    case InvalidLocation => 117
    case InvalidCurrency => 118
    case AuthorityNotSet => 119
    case InvalidDocName => 122
    case InvalidDescription => 123
    case InvalidCategory => 124
    case InvalidTags => 125
    case InvalidAccessLevel => 126
    case InvalidEncryptionType => 127
  }

  /** `{ ok: true, value }` or `{ ok: false, value: code }`. */
  datatype Result<+T> = Ok(value: T) | Err(error: Error)
}
