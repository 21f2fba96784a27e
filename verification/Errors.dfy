/** The outcomes that the device code reports. */
module Errors {
  datatype ParserError =
    | Ok
    | NoData
    | InitContextEmpty
    | DisplayIdxOutOfRange
    | UnexpectedError
    | RlpInvalidKind
    | RlpInvalidValueLen
    | RlpInvalidFieldOffset
    | JsonInvalid
    | JsonInvalidTokenIdx
    | JsonTooManyTokens
    | JsonIncomplete
    | JsonUnexpectedError
    | JsonZeroTokens
    | UnexpectedType
    | UnexpectedScript
    | UnexpectedBufferEnd
    | UnexpectedValue
    | UnexpectedNumberItems
    | UnexpectedCharacters
    | UnexpectedField
    | InvalidAddress
    | MetadataError
    | MetadataTooManyHashes
    | TooManyArguments
}
