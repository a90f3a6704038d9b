/** The errors that `New` and `NewFromTopic` return, one variant per error return of filter.go. */
module Errors {

  datatype Error =
    /** The topic does not read as the version prefix, a `%d` version and a non-empty rest. */
    | TopicVersionParseError
    /** `WrongTopicVersionError`: the topic names a version other than the supported one. */
    | WrongTopicVersionError(expectedVersion: int, actualVersion: int)
    /** The rest of the topic does not read as `/chain/%d/schema/%s`. */
    | ChainIDAndSchemaParseError
    /** The schema segment is not padded base64url. */
    | SchemaBase64Error
    /** The chain has no known exchange contract address. */
    | ExchangeAddressLookupError(chainID: int)
    /** The schema engine refused to register the document under this name. */
    | SchemaLoadError(name: string)
    /** The schema engine could not compile the root schema of this name. */
    | SchemaCompileError(root: string)
}
