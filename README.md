# 0x Mesh order filter, modelled in Dafny

This project models the order filter of 0x Mesh (`orderfilter/filter.go`).
An order filter does two jobs.

1. It builds two JSON Schema validators. Each comes from a loader that
   holds the exchange-address fragment for the chain, the five built-in
   fragments (`/address`, `/wholeNumber`, `/hex`, `/order`, `/signedOrder`)
   and the caller's custom order schema. One validator is compiled from
   `/rootOrder`, the other from `/rootMessage`.
2. It names the gossip topic that peers with the same rules share:
   `/0x-orders/version/3/chain/<chainID>/schema/<base64url(canonical schema)>`.
   It can also rebuild a filter from such a topic.

The modules follow that structure:

- `Wrappers`: `Option` and `Result`.
- `Fmt`: the parts of Go's `fmt` package that the topic codec relies on.
  `Sprintf("%d")` for a Go `int` is modelled, and so is `Sscanf` with
  literal text, `%d` and `%s`. The model includes how the scanner treats
  white space and newlines, the optional sign, the 64-bit range, and the
  fact that trailing input is never checked.
- `Base64Url`: `base64.URLEncoding`, padded, as in section 5 of RFC 4648.
  It includes Go's non-strict decoding, which ignores the bits a padded
  group leaves over.
- `Patterns`: what the built-in fragments accept, and ASCII lower-casing.
  The `pattern` regular expressions are written as predicates. The
  required-field lists are constants.
- `Errors`: one error value per way `New` and `NewFromTopic` can fail.
- `Schemas`: the loader as a registry of named schema documents, and
  `newLoader`, `loadExchangeAddress` and the validator composition of `New`.
  The composition exists twice: as written, and corrected (see Findings).
- `Topics`: `Format` writes the topic. `Parse` reads a topic in the three
  steps of `NewFromTopic`, each with its own error.
- `OrderFilter`: the `Filter` class with its memoised topic, plus `New`
  and `NewFromTopic`.

The JSON Schema engine, Ethereum's table of contract addresses and the
canonical-JSON serialiser are foreign code. They enter as the `Libraries`
value:

- a total function from chain ID to an optional exchange address;
- whether the engine refuses to register a document;
- whether a root compiles against a registry;
- the canonicalisation function.

The Go code reports every parse failure as a formatted `error`. The model
gives each check its own error value instead:

- `TopicVersionParseError`
- `WrongTopicVersionError(expected, actual)`
- `ChainIDAndSchemaParseError`
- `SchemaBase64Error`
- `ExchangeAddressLookupError`
- `SchemaLoadError`
- `SchemaCompileError`

`New` is meant to report every failure as an error value. The code has
one nil-dereference path: it overwrites the error of `newLoader` before
checking it (filter.go:65-66). The model follows the code everywhere except
there. `Schemas.ComposeAsWritten` models that path as written, with the
crash. `OrderFilter.New` and `OrderFilter.NewFromTopic` are built on the
corrected `Schemas.Compose`, which returns the error of `newLoader`. The
difference is recorded under Findings.

## Model

| member | source | states |
|---|---|---|
| `Fmt.Digits` | orderfilter/filter.go:149 | the decimal digits of a natural number: non-empty, all digits, no leading zero |
| `Fmt.FormatInt` | orderfilter/filter.go:149 | `%d` output: non-empty, no white space, starts with `-` exactly for negative numbers, otherwise the digits |
| `Fmt.DigitRunLength` | orderfilter/filter.go:116 | `%d` takes the longest run of leading digits: every character counted is a digit, and the next one is not |
| `Fmt.WordLength` | orderfilter/filter.go:116 | `%s` takes the longest leading run of non-space characters: every character counted is non-space, and the next one is a space |
| `Fmt.IsSpace` | orderfilter/filter.go:116 | the white space of Go's scanner: tab to carriage return, space, U+0085, U+00A0, U+1680, U+2000 to U+200A, U+2028, U+2029, U+202F, U+205F and U+3000 |
| `Fmt.SpaceRunLength` | orderfilter/filter.go:116 | the length of the leading white-space run the scanner skips: every character counted is white space, and the next one is not |
| `Fmt.SkipSpace` | orderfilter/filter.go:116 | the scanner drops the whole leading run of white space (`SpaceRunLength`); it fails with the newline error exactly when that run holds a newline, and otherwise returns the input after the run |
| `Fmt.MatchLiteral` | orderfilter/filter.go:116 | literal format text matches exactly when it is a prefix of the input, and the rest is what follows it |
| `Fmt.ScanInt` | orderfilter/filter.go:116 | `%d` into an `int` succeeds exactly when the leading white space holds no newline and is followed by an optional sign, at least one digit, and a value in the 64-bit range; the result is that signed value and the text after the last digit, which does not start with a digit |
| `Fmt.ScanSignedNumber` | orderfilter/filter.go:116 | after white space, `%d` succeeds exactly when an optional sign is followed by at least one digit and the signed value fits in 64 bits; the result is that value and the text after the digits; digits out of range give the range error |
| `Fmt.ScanNumber` | orderfilter/filter.go:116 | the unsigned digits of `%d` are read exactly when the input starts with a digit; the result is the value of the whole leading digit run and the text after it |
| `Fmt.ScanWord` | orderfilter/filter.go:116 | `%s` succeeds exactly when the leading white space holds no newline and something follows it; the word is then the longest non-empty run of non-space characters after the white space, and the rest is what follows that run |
| `Fmt.DigitsValueOfDigits` | orderfilter/filter.go:116 | reading back the digits of `n` gives `n` |
| `Fmt.DigitRunOfDigits` | orderfilter/filter.go:116 | a digit string followed by a non-digit is read as exactly that many digits |
| `Fmt.WordOfNoSpace` | orderfilter/filter.go:116 | a string free of white space is one whole word |
| `Fmt.ScanFormatInt` | orderfilter/filter.go:116-149 | `%d` reads back every 64-bit value that `Sprintf("%d")` wrote, when no digit follows |
| `Fmt.ScanNegative` | orderfilter/filter.go:116-149 | `%d` reads back a negative number that `Sprintf` wrote, sign included |
| `Fmt.ScanNonNegative` | orderfilter/filter.go:116-149 | `%d` reads back a non-negative number that `Sprintf` wrote |
| `Fmt.MatchLiteralThen` | orderfilter/filter.go:116 | literal format text followed by anything matches, leaving what follows |
| `Fmt.ScanNumberOfDigits` | orderfilter/filter.go:116 | the unsigned part of `%d` reads back the digits of `m` and leaves the rest |
| `Fmt.ScanWordOfNoSpace` | orderfilter/filter.go:116 | `%s` on non-empty text free of white space takes all of it |
| `Base64Url.Symbol` | orderfilter/filter.go:148 | every six-bit value maps to a symbol of the URL-safe alphabet |
| `Base64Url.SymbolValue` | orderfilter/filter.go:130 | every symbol has a six-bit value, whose symbol it is |
| `Base64Url.EncodeGroup` | orderfilter/filter.go:148 | three bytes become four alphabet symbols |
| `Base64Url.EncodeLastOne` | orderfilter/filter.go:148 | one last byte becomes two symbols and `==` |
| `Base64Url.EncodeLastTwo` | orderfilter/filter.go:148 | two last bytes become three symbols and `=` |
| `Base64Url.Encode` | orderfilter/filter.go:148 | the length is 4·⌈n/3⌉; every character is a symbol or `=`; only the last two can be `=` |
| `Base64Url.DecodeGroup` | orderfilter/filter.go:130 | a group decodes, to three bytes, exactly when all four characters are alphabet symbols |
| `Base64Url.SplitJoin` | orderfilter/filter.go:130-148 | splitting the three bytes four sextets carry gives back the sextets |
| `Base64Url.EncodeDecodeGroup` | orderfilter/filter.go:130-148 | round trip the other way: encoding a decoded full group gives the group back |
| `Base64Url.IsLastGroup` | orderfilter/filter.go:130 | the last groups Go's padded decoder accepts: `XY==`, `XYZ=` or four symbols |
| `Base64Url.IsEncoding` | orderfilter/filter.go:130 | the text Go's padded decoder accepts: whole groups, all of four symbols except the last, which is a last group |
| `Base64Url.DecodeLastGroup` | orderfilter/filter.go:130 | a last group decodes exactly when it is `XY==`, `XYZ=` or four symbols; `XY==` gives one byte, `XYZ=` two, four symbols three |
| `Base64Url.Decode` | orderfilter/filter.go:130 | text decodes exactly when it is an encoding in the sense of `IsEncoding`; accepted text is 4·⌈n/3⌉ characters long and uses only the alphabet and `=` |
| `Base64Url.PaddingOnlyAtEnd` | orderfilter/filter.go:130 | in accepted text `=` stands only in the last two places, and `=` in the second-last place is followed by `=` |
| `Base64Url.MisplacedPaddingRefused` | orderfilter/filter.go:130 | `AB=C`, `A=AA`, `X===`, `====` and `AB==CDEF` are refused |
| `Base64Url.JoinSplit` | orderfilter/filter.go:130-148 | joining the four sextets of three bytes gives back the bytes |
| `Base64Url.SymbolRoundTrip` | orderfilter/filter.go:130-148 | a symbol's value is the value it was made from |
| `Base64Url.DecodeEncodeGroup` | orderfilter/filter.go:130-148 | a full group decodes to the bytes it encodes |
| `Base64Url.DecodeEncodeOne` | orderfilter/filter.go:130-148 | one byte, padded with `==`, decodes back |
| `Base64Url.DecodeEncodeTwo` | orderfilter/filter.go:130-148 | two bytes, padded with `=`, decode back |
| `Base64Url.DecodeEncodeThree` | orderfilter/filter.go:130-148 | three bytes as a last unpadded group decode back |
| `Base64Url.DecodeFullGroupThenRest` | orderfilter/filter.go:130 | a full group followed by more text decodes group by group |
| `Base64Url.DecodeEncode` | orderfilter/filter.go:130-148 | round trip: decoding the encoding of any bytes gives them back |
| `Base64Url.DecodeEncodeStep` | orderfilter/filter.go:130-148 | the inductive step of the round trip, for three bytes and more |
| `Base64Url.EncodeInjective` | orderfilter/filter.go:148 | different byte strings have different encodings |
| `Patterns.LowerChar` | orderfilter/filter.go:94 | an upper-case letter becomes the lower-case letter at the same place in the alphabet; every other character is unchanged; the result is never upper-case |
| `Patterns.ToLower` | orderfilter/filter.go:94 | same length; every character lower-cased on its own |
| `Patterns.IsAddress` | orderfilter/filter.go:32 | the `/address` pattern `^0x[0-9a-fA-F]{40}$`: `0x` and 40 hex digits |
| `Patterns.IsWholeNumberString` | orderfilter/filter.go:33 | the string form of `/wholeNumber`, `^\d+$`: one or more ASCII digits |
| `Patterns.HexPairs` | orderfilter/filter.go:34 | the repeated group `([0-9a-fA-F][0-9a-fA-F])*`, pair after pair |
| `Patterns.IsHex` | orderfilter/filter.go:34 | the `/hex` pattern `^0x(([0-9a-fA-F][0-9a-fA-F])+)?$`: `0x` and hex pairs |
| `Patterns.HexPairsIsEvenHex` | orderfilter/filter.go:34 | the `/hex` pattern's pairs are exactly an even number of hex digits |
| `Patterns.AddressIsTwentyByteHex` | orderfilter/filter.go:32-34 | every `/address` string is a `/hex` string of 20 bytes |
| `Patterns.EmptyHexAccepted` | orderfilter/filter.go:34 | `/hex` accepts `0x` alone |
| `Patterns.ToLowerIdempotent` | orderfilter/filter.go:94 | lower-casing twice is lower-casing once |
| `Patterns.ToLowerFixedIffNoUpper` | orderfilter/filter.go:94 | lower-casing changes nothing exactly when there is no upper-case letter |
| `Patterns.ToLowerKeepsAddress` | orderfilter/filter.go:92-94 | the lower-case address is still an address, with no upper-case letter |
| `Patterns.DigitsAreWholeNumbers` | orderfilter/filter.go:33 | every formatted natural number matches the `/wholeNumber` string pattern |
| `Patterns.RequiredFields` | orderfilter/filter.go:35-36 | `/order` requires 13 distinct fields; `/signedOrder` adds `signature` once, at the end |
| `Schemas.BuiltInSchemaIds` | orderfilter/filter.go:47-53 | `builtInSchemas` registers five documents under the distinct ids `/address`, `/wholeNumber`, `/hex`, `/order` and `/signedOrder` |
| `Schemas.ExchangeAddressFragment` | orderfilter/filter.go:92-94 | the fragment has two patterns: the checksummed address and its lower-case form, both addresses |
| `Schemas.AddSchema` | orderfilter/filter.go:95 | a refused document gives `SchemaLoadError(name)`; otherwise the registry gains exactly that name with that document |
| `Schemas.AddSchemas` | orderfilter/filter.go:103 | on success, the new names holding their documents are added and nothing else changes; a failure is a load error |
| `Schemas.LoadExchangeAddress` | orderfilter/filter.go:87-96 | an unknown chain gives the lookup error; an engine that refuses the fragment gives `SchemaLoadError("/exchangeAddress")`; otherwise `/exchangeAddress` holds the fragment for the chain's address |
| `Schemas.NewLoader` | orderfilter/filter.go:98-110 | lookup failure gives the lookup error; on success the registry holds these names and no others: `/exchangeAddress`, the five built-ins and `/customOrder`, each with its document, and the custom text stored verbatim |
| `Schemas.CompileRoot` | orderfilter/filter.go:66 | compiling succeeds exactly when the engine accepts the root; otherwise the result is a compile error |
| `Schemas.MessageRegistry` | orderfilter/filter.go:71-74 | the message loader is the order loader plus `/rootOrder` |
| `Schemas.Compose` | orderfilter/filter.go:64-85 | corrected composition: a `newLoader` error is returned as is; then a `/rootOrder` compile error, a load error for `/rootOrder` in the message loader, or a `/rootMessage` compile error, in that order; it succeeds exactly when every step does, with the order validator on the loader's registry and the message validator on that registry plus `/rootOrder`; the custom schema is stored verbatim |
| `Schemas.ComposeAsWritten` | orderfilter/filter.go:64-85 | as written, `New` dereferences a nil loader exactly when `newLoader` fails |
| `Schemas.UnknownChainDereferencesNil` | orderfilter/filter.go:65-66 | for an unknown chain, the code as written crashes where the corrected composition returns the lookup error |
| `Schemas.AsWrittenAgreesWhenLoaderSucceeds` | orderfilter/filter.go:64-85 | when `newLoader` succeeds, the code as written and the corrected composition agree |
| `Topics.Format` | orderfilter/filter.go:14-19 | the topic starts with the version prefix and continues past it |
| `Topics.ScanTopicVersion` | orderfilter/filter.go:116 | when the version scan succeeds, the topic starts with `/0x-orders/version/` and what follows the version is one non-empty word |
| `Topics.ScanChainIDAndSchema` | orderfilter/filter.go:127 | when the chain and schema scan succeeds, the text starts with `/chain/` and the schema segment is one non-empty word |
| `Topics.Parse` | orderfilter/filter.go:112-133 | version parse error exactly when the first scan fails; `WrongTopicVersionError{3, v}` exactly when the scanned version `v` is not 3; success only at version 3 |
| `Topics.ParseChainIDAndSchema` | orderfilter/filter.go:125-133 | the third step fails only with the chain-and-schema error or the base64 error |
| `Topics.EncodeNoSpace` | orderfilter/filter.go:148 | base64url text holds no white space |
| `Topics.ScanVersionOf` | orderfilter/filter.go:116 | the first scan of a version followed by a white-space-free word gives the version and that word |
| `Topics.ParseVersion3` | orderfilter/filter.go:116-127 | at version 3, `Parse` goes on to the third step with the rest of the topic |
| `Topics.ScanChainOf` | orderfilter/filter.go:127 | the second scan of `/chain/<c>/schema/<e>` gives `c` and `e` |
| `Topics.FormatSplit` | orderfilter/filter.go:149 | a topic is the version part followed by the chain part |
| `Topics.ChainPartNoSpace` | orderfilter/filter.go:149 | the chain part of a topic starts with `/` and holds no white space |
| `Topics.ParseFormat` | orderfilter/filter.go:112-150 | round trip: every topic written for non-empty schema bytes reads back as its chain ID and those bytes |
| `Topics.EmptySchemaNotParsed` | orderfilter/filter.go:127 | a topic written for empty schema bytes cannot be read back |
| `Topics.NoSchemaSegment` | orderfilter/filter.go:127 | the second scan fails when nothing follows `/schema/` |
| `Topics.FormatInjective` | orderfilter/filter.go:149 | different chain IDs or schema bytes give different topics |
| `Topics.FormatAfterChainLabel` | orderfilter/filter.go:18 | how a topic splits after `/chain/` |
| `Topics.MissingPrefixRejected` | orderfilter/filter.go:116-118 | a topic that does not start with the version prefix gives the version parse error |
| `Topics.NonIntegerVersionRejected` | orderfilter/filter.go:116-118 | a version that does not start with a sign, a digit or white space gives the version parse error |
| `Topics.NothingAfterVersionRejected` | orderfilter/filter.go:116-118 | a topic ending right after its version gives the version parse error, whatever the version |
| `Topics.WrongVersionRejected` | orderfilter/filter.go:119-124 | any version but 3, followed by a non-empty rest that starts with neither a digit nor white space, gives `WrongTopicVersionError{3, version}` before the chain or schema is read (an empty rest gives the version parse error instead; `Topics.Parse` covers every case) |
| `Topics.MissingChainLabelRejected` | orderfilter/filter.go:127-129 | version 3 followed by anything but `/chain/` gives the chain-and-schema error |
| `Topics.NonIntegerChainIDRejected` | orderfilter/filter.go:127-129 | a chain ID that is not a signed integer gives the chain-and-schema error |
| `Topics.NonIntegerChainID` | orderfilter/filter.go:127 | the second scan fails when what follows `/chain/` is not a signed integer |
| `Topics.MissingSchemaLabelRejected` | orderfilter/filter.go:127-129 | a chain ID followed by anything but `/schema/` gives the chain-and-schema error |
| `Topics.ChainIDThenNoSchemaLabel` | orderfilter/filter.go:127 | the second scan fails when `/schema/` does not follow the chain ID |
| `Topics.BadBase64Rejected` | orderfilter/filter.go:130-133 | a schema segment that is not padded base64url gives the base64 error |
| `Topics.PlusSignedVersionAccepted` | orderfilter/filter.go:116-119 | `%d` accepts `+3` as version 3: the two topics parse alike |
| `Topics.SameVersionScan` | orderfilter/filter.go:116 | the first scan depends on what follows the prefix only through what `%d` reads |
| `Topics.UnderscoredVersionRejected` | orderfilter/filter.go:116-129 | `%d` stops before an `_`: after `4_` the version is 4, giving `WrongTopicVersionError{3, 4}`; after `3_` the version is 3 and the chain-and-schema error follows |
| `Topics.ScanIntPlus` | orderfilter/filter.go:116 | a leading `+` before digits does not change what `%d` reads |
| `Topics.ParseDependsOnVersionStep` | orderfilter/filter.go:116-133 | `Parse` depends on the topic only through the first scan's result |
| `OrderFilter.GenerateTopic` | orderfilter/filter.go:144-150 | the topic is never empty and starts with `/0x-orders/version/3/chain/` |
| `OrderFilter.Filter.constructor` | orderfilter/filter.go:79-84 | every field holds its input, and the topic is not yet computed |
| `OrderFilter.Filter.Topic` | orderfilter/filter.go:137-142 | returns a non-empty topic equal to `generateTopic` of the filter and stores it; a topic already stored is kept |
| `OrderFilter.New` | orderfilter/filter.go:64-85 | corrected `New` (see Findings): fails exactly when composing the validators fails, with that error; otherwise a new filter holding the chain ID and the custom schema verbatim, the two validators, and no topic yet |
| `OrderFilter.NewFromTopic` | orderfilter/filter.go:112-135 | built on the corrected `New` (see Findings): each parse error of the topic is returned as is; otherwise it succeeds or fails exactly as `New` on the parsed chain ID and the decoded schema, with `New`'s error, and the new filter holds that chain ID, that schema and the two validators `Compose` builds for them, and no topic yet |
| `OrderFilter.GeneratedTopicParses` | orderfilter/filter.go:112-150 | when `canonicalize(raw schema)` is not empty, a filter's topic reads back as its chain ID and those bytes |
| `OrderFilter.SameTopicIffSameChainAndSchema` | orderfilter/filter.go:144-150 | two filters share a topic exactly when they share the chain ID and the canonical schema |
| `OrderFilter.RebuiltFilterHasSameTopic` | orderfilter/filter.go:112-150 | a filter rebuilt from a topic gets the same topic, if canonicalisation is idempotent on its output |
| `OrderFilter.TopicTwice` | orderfilter/filter.go:137-142 | two calls of `Topic` return the same string |

## Left out

- `MatchMessageJSON`, `ValidateOrderJSON` and `ValidateOrder` (filter.go:152-166) are left out. They only hand a document to the foreign JSON Schema engine. A validator is represented by the registry and root it was compiled from.
- JSON Schema semantics are left out. That covers `oneOf` in the exchange-address fragment, `allOf` in `/rootOrder` and `/signedOrder`, `$ref` resolution, and the fact that the exchange-address `pattern` is unanchored. The engine enters only as "refuses this document" and "compiles this root".
- The `%q` quoting of line 94 is not modelled. The fragment holds the two address strings themselves rather than their JSON text.
- Canonical JSON (`canonicaljson.Unmarshal` and `Marshal`) is a function parameter. Its errors are ignored, as in the source. Nothing is assumed about it except where a lemma states a requirement, such as idempotence.
- `ethereum.GetContractAddressesForChainID` and `Address.Hex()` are a function parameter that returns an optional address.
- The `version` field of `Filter` is left out: the source never sets or reads it.
- Error message texts are left out. Each failure is a distinct error value.
- Concurrency is left out. The memoised topic is written without a lock in the source, and the model is sequential.
- `Patterns.ToLower`: covers ASCII letters only, which is all an address holds. Unicode case mapping is not modelled.
- `Base64Url.Decode`: refuses `'\r'` and `'\n'`, which Go's decoder skips. A `%s` word never holds them.
- The topic is a string of Dafny characters rather than Go bytes. Every topic `Format` writes is ASCII, so the two agree there.
- A trailing newline and other trailing text are excluded by the parse lemmas' requires. Go's `Sscanf` does not check them.

## Findings

| source | as written | input that shows it | evidently intended | confidence | as-written member | corrected member |
|---|---|---|---|---|---|---|
| orderfilter/filter.go:65-66 | the error from `newLoader` is overwritten by `Compile` before it is checked | `New(chainID, "{}")` with a chain ID that has no known contract addresses (the same happens when the engine refuses the custom schema): `Compile` runs on the nil loader and dereferences it | return the error of `newLoader` (the lookup error) | medium; not executed | `Schemas.ComposeAsWritten`, `Schemas.UnknownChainDereferencesNil` | `Schemas.Compose` |
