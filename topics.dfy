/**
  The topic codec (filter.go:14-19, 112-133, 144-150). A topic is

    /0x-orders/version/<version>/chain/<chainID>/schema/<base64url schema>

  `Format` writes one with version 3; `Parse` reads one back in the three
  steps of `NewFromTopic`, each with its own error: the version prefix and
  the rest, the version guard, then the chain and the schema segment.
*/
module Topics {
  import opened Wrappers
  import opened Errors
  import opened Fmt
  import opened Base64Url

  /** `pubsubTopicVersion`. */
  const PubsubTopicVersion: Int64 := 3

  /** The literal text of `topicVersionFormat` before its `%d`. */
  const TopicVersionPrefix: string := "/0x-orders/version/"
  /** The literal texts of `topicChainIDAndSchemaFormat` before its `%d` and its `%s`. */
  const ChainIDLabel: string := "/chain/"
  const SchemaLabel: string := "/schema/"

  /**
    `fmt.Sprintf(fullTopicFormat, pubsubTopicVersion, chainID, base64url)`
    with the base64url text of the canonical schema bytes.
  */
  function Format(chainID: Int64, canonicalSchema: Bytes): (t: string)
    ensures |t| > |TopicVersionPrefix|
    ensures t[..|TopicVersionPrefix|] == TopicVersionPrefix
  {
    TopicVersionPrefix + FormatInt(PubsubTopicVersion) + ChainIDLabel + FormatInt(chainID) + SchemaLabel
      + Encode(canonicalSchema)
  }

  /** `fmt.Sscanf(topic, topicVersionFormat, &version, &chainIDAndSchema)` (filter.go:116). */
  function ScanTopicVersion(topic: string): (r: Result<(Int64, string), ScanError>)
    ensures r.Success? ==> TopicVersionPrefix <= topic
    ensures r.Success? ==> r.value.1 != [] && NoSpace(r.value.1)
  {
    var afterPrefix :- MatchLiteral(TopicVersionPrefix, topic);
    var version :- ScanInt(afterPrefix);
    var chainIDAndSchema :- ScanWord(version.1);
    Success((version.0, chainIDAndSchema.0))
  }

  /** `fmt.Sscanf(chainIDAndSchema, topicChainIDAndSchemaFormat, &chainID, &base64EncodedSchema)` (filter.go:127). */
  function ScanChainIDAndSchema(s: string): (r: Result<(Int64, string), ScanError>)
    ensures r.Success? ==> ChainIDLabel <= s
    ensures r.Success? ==> r.value.1 != [] && NoSpace(r.value.1)
  {
    var afterChainLabel :- MatchLiteral(ChainIDLabel, s);
    var chainID :- ScanInt(afterChainLabel);
    var afterSchemaLabel :- MatchLiteral(SchemaLabel, chainID.1);
    var schema :- ScanWord(afterSchemaLabel);
    Success((chainID.0, schema.0))
  }

  /**
    The parsing part of `NewFromTopic` (filter.go:112-133): the chain ID and
    the decoded schema bytes that it hands to `New`, or the first error.
  */
  function Parse(topic: string): (r: Result<(Int64, Bytes), Error>)
    ensures r == Failure(TopicVersionParseError) <==> ScanTopicVersion(topic).Failure?
    ensures (r.Failure? && r.error.WrongTopicVersionError?) <==>
      (ScanTopicVersion(topic).Success? && ScanTopicVersion(topic).value.0 != PubsubTopicVersion)
    ensures r.Failure? && r.error.WrongTopicVersionError? ==>
      r.error == WrongTopicVersionError(PubsubTopicVersion, ScanTopicVersion(topic).value.0)
    ensures r.Success? ==>
      (ScanTopicVersion(topic).Success? && ScanTopicVersion(topic).value.0 == PubsubTopicVersion)
  {
    match ScanTopicVersion(topic)
    case Failure(_) => Failure(TopicVersionParseError)
    case Success((version, chainIDAndSchema)) =>
      if version != PubsubTopicVersion then
        Failure(WrongTopicVersionError(PubsubTopicVersion, version))
      else
        ParseChainIDAndSchema(chainIDAndSchema)
  }

  /** The third step of `NewFromTopic` (filter.go:125-133): chain ID, then the decoded schema. */
  function ParseChainIDAndSchema(chainIDAndSchema: string): (r: Result<(Int64, Bytes), Error>)
    ensures r.Failure? ==> r.error == ChainIDAndSchemaParseError || r.error == SchemaBase64Error
  {
    match ScanChainIDAndSchema(chainIDAndSchema)
    case Failure(_) => Failure(ChainIDAndSchemaParseError)
    case Success((chainID, base64EncodedSchema)) =>
      match Decode(base64EncodedSchema)
      case None => Failure(SchemaBase64Error)
      case Some(schema) => Success((chainID, schema))
  }

  // ---------------------------------------------------------------- helpers

  lemma NoSpaceConcat(a: string, b: string)
    requires NoSpace(a) && NoSpace(b)
    ensures NoSpace(a + b)
  {
    assert forall i :: 0 <= i < |a + b| ==> (a + b)[i] == if i < |a| then a[i] else b[i - |a|];
  }

  lemma EncodeNoSpace(b: Bytes)
    ensures NoSpace(Encode(b))
  {
  }

  /** The version step on a topic whose version is followed by a non-digit, non-space character. */
  lemma ScanVersionOf(v: Int64, rest: string)
    requires rest != [] && !IsDigit(rest[0]) && !IsSpace(rest[0])
    ensures ScanTopicVersion(TopicVersionPrefix + FormatInt(v) + rest) == Success((v, rest[..WordLength(rest)]))
  {
    Associative(TopicVersionPrefix, FormatInt(v), rest);
    MatchLiteralThen(TopicVersionPrefix, FormatInt(v) + rest);
    ScanFormatInt(v, rest);
    assert SkipSpace(rest) == Success(rest);
  }

  /** Past version 3, a topic whose rest is one white-space-free word is read by the third step. */
  lemma ParseVersion3(rest: string)
    requires rest != [] && NoSpace(rest) && !IsDigit(rest[0])
    ensures Parse(TopicVersionPrefix + FormatInt(PubsubTopicVersion) + rest) == ParseChainIDAndSchema(rest)
  {
    ScanVersionOf(PubsubTopicVersion, rest);
    WordOfNoSpace(rest);
    assert rest[..|rest|] == rest;
  }

  /** The chain-and-schema step on `/chain/<chainID>/schema/<e>`. */
  lemma ScanChainOf(c: Int64, e: string)
    requires e != [] && NoSpace(e)
    ensures ScanChainIDAndSchema(ChainIDLabel + FormatInt(c) + SchemaLabel + e) == Success((c, e))
  {
    Associative(ChainIDLabel, FormatInt(c), SchemaLabel);
    Associative(ChainIDLabel, FormatInt(c) + SchemaLabel, e);
    Associative(FormatInt(c), SchemaLabel, e);
    MatchLiteralThen(ChainIDLabel, FormatInt(c) + (SchemaLabel + e));
    ScanFormatInt(c, SchemaLabel + e);
    MatchLiteralThen(SchemaLabel, e);
    ScanWordOfNoSpace(e);
  }

  /** The part of a topic after the version: `/chain/<chainID>/schema/<e>`. */
  function ChainPart(c: Int64, e: string): string {
    ChainIDLabel + FormatInt(c) + SchemaLabel + e
  }

  lemma ChainPartNoSpace(c: Int64, e: string)
    requires NoSpace(e)
    ensures NoSpace(ChainPart(c, e)) && ChainPart(c, e)[0] == '/'
  {
    NoSpaceConcat(ChainIDLabel, FormatInt(c));
    NoSpaceConcat(ChainIDLabel + FormatInt(c), SchemaLabel);
    NoSpaceConcat(ChainIDLabel + FormatInt(c) + SchemaLabel, e);
  }

  lemma FormatSplit(c: Int64, b: Bytes)
    ensures Format(c, b) == TopicVersionPrefix + FormatInt(PubsubTopicVersion) + ChainPart(c, Encode(b))
    ensures NoSpace(Encode(b)) ==> NoSpace(ChainPart(c, Encode(b)))
  {
    var x, e := TopicVersionPrefix + FormatInt(PubsubTopicVersion), Encode(b);
    Associative(x, ChainIDLabel, FormatInt(c));
    Associative(x, ChainIDLabel + FormatInt(c), SchemaLabel);
    Associative(x, ChainIDLabel + FormatInt(c) + SchemaLabel, e);
    if NoSpace(e) {
      ChainPartNoSpace(c, e);
    }
  }

  // ---------------------------------------------------------------- properties

  /** Round trip: reading a topic that Format wrote gives its chain ID and schema bytes. */
  lemma ParseFormat(chainID: Int64, canonicalSchema: Bytes)
    requires |canonicalSchema| > 0
    ensures Parse(Format(chainID, canonicalSchema)) == Success((chainID, canonicalSchema))
  {
    var e := Encode(canonicalSchema);
    EncodeNoSpace(canonicalSchema);
    FormatSplit(chainID, canonicalSchema);
    var rest := ChainPart(chainID, e);
    ScanVersionOf(PubsubTopicVersion, rest);
    WordOfNoSpace(rest);
    assert rest[..|rest|] == rest;
    ScanChainOf(chainID, e);
    DecodeEncode(canonicalSchema);
  }

  /** Format an empty schema and the topic cannot be read back: `%s` finds nothing to read. */
  lemma EmptySchemaNotParsed(chainID: Int64)
    ensures Parse(Format(chainID, [])) == Failure(ChainIDAndSchemaParseError)
  {
    FormatSplit(chainID, []);
    var rest := ChainPart(chainID, []);
    NoSpaceConcat(ChainIDLabel, FormatInt(chainID));
    NoSpaceConcat(ChainIDLabel + FormatInt(chainID), SchemaLabel);
    assert rest == ChainIDLabel + FormatInt(chainID) + SchemaLabel;
    ParseVersion3(rest);
    NoSchemaSegment(chainID);
  }

  lemma NoSchemaSegment(chainID: Int64)
    ensures ScanChainIDAndSchema(ChainIDLabel + FormatInt(chainID) + SchemaLabel).Failure?
  {
    var s := ChainIDLabel + FormatInt(chainID) + SchemaLabel;
    Associative(ChainIDLabel, FormatInt(chainID), SchemaLabel);
    assert MatchLiteral(ChainIDLabel, s) == Success(FormatInt(chainID) + SchemaLabel);
    ScanFormatInt(chainID, SchemaLabel);
    assert MatchLiteral(SchemaLabel, SchemaLabel) == Success([]);
  }

  /** Different chain IDs or different canonical schemas give different topics. */
  lemma FormatInjective(c1: Int64, b1: Bytes, c2: Int64, b2: Bytes)
    requires Format(c1, b1) == Format(c2, b2)
    ensures c1 == c2 && b1 == b2
  {
    var p := TopicVersionPrefix + FormatInt(PubsubTopicVersion) + ChainIDLabel;
    var tail1, tail2 := SchemaLabel + Encode(b1), SchemaLabel + Encode(b2);
    FormatAfterChainLabel(c1, b1);
    FormatAfterChainLabel(c2, b2);
    CancelPrefix(p, FormatInt(c1) + tail1, FormatInt(c2) + tail2);
    ScanFormatInt(c1, tail1);
    ScanFormatInt(c2, tail2);
    CancelPrefix(SchemaLabel, Encode(b1), Encode(b2));
    EncodeInjective(b1, b2);
  }

  lemma FormatAfterChainLabel(c: Int64, b: Bytes)
    ensures Format(c, b) == TopicVersionPrefix + FormatInt(PubsubTopicVersion) + ChainIDLabel + (FormatInt(c) + (SchemaLabel + Encode(b)))
  {
  }

  lemma CancelPrefix(p: string, x: string, y: string)
    requires p + x == p + y
    ensures x == y
  {
    assert x == (p + x)[|p|..];
    assert y == (p + y)[|p|..];
  }

  lemma Associative(a: string, b: string, c: string)
    ensures a + b + c == a + (b + c)
  {
  }

  /** A topic that does not start with the version prefix is refused at the first step. */
  lemma MissingPrefixRejected(topic: string)
    requires !(TopicVersionPrefix <= topic)
    ensures Parse(topic) == Failure(TopicVersionParseError)
  {
  }

  /** A version that is not a signed decimal integer is refused at the first step. */
  lemma NonIntegerVersionRejected(rest: string)
    requires rest == [] || (!IsDigit(rest[0]) && rest[0] != '+' && rest[0] != '-' && !IsSpace(rest[0]))
    ensures Parse(TopicVersionPrefix + rest) == Failure(TopicVersionParseError)
  {
    var t := TopicVersionPrefix + rest;
    assert MatchLiteral(TopicVersionPrefix, t) == Success(rest);
    if rest != [] {
      assert SkipSpace(rest) == Success(rest);
    }
  }

  /** With nothing after the version the topic is refused at the first step, whatever the version. */
  lemma NothingAfterVersionRejected(version: Int64)
    ensures Parse(TopicVersionPrefix + FormatInt(version)) == Failure(TopicVersionParseError)
  {
    var t := TopicVersionPrefix + FormatInt(version);
    assert MatchLiteral(TopicVersionPrefix, t) == Success(FormatInt(version));
    assert FormatInt(version) + [] == FormatInt(version);
    ScanFormatInt(version, []);
  }

  /**
    Version guard: any version other than 3 gives WrongTopicVersionError with
    both versions, whatever follows it, so the chain and schema are never read.
  */
  lemma WrongVersionRejected(version: Int64, rest: string)
    requires version != PubsubTopicVersion
    requires rest != [] && !IsDigit(rest[0]) && !IsSpace(rest[0])
    ensures Parse(TopicVersionPrefix + FormatInt(version) + rest)
         == Failure(WrongTopicVersionError(PubsubTopicVersion, version))
  {
    ScanVersionOf(version, rest);
  }

  /** Version 3 followed by anything but `/chain/` is refused at the third step. */
  lemma MissingChainLabelRejected(rest: string)
    requires rest != [] && !IsDigit(rest[0]) && !IsSpace(rest[0])
    requires !(ChainIDLabel <= rest)
    ensures Parse(TopicVersionPrefix + FormatInt(PubsubTopicVersion) + rest) == Failure(ChainIDAndSchemaParseError)
  {
    ScanVersionOf(PubsubTopicVersion, rest);
  }

  /** A chain ID that is not a signed decimal integer is refused at the third step. */
  lemma NonIntegerChainIDRejected(e: string)
    requires NoSpace(e)
    requires e == [] || (!IsDigit(e[0]) && e[0] != '+' && e[0] != '-')
    ensures Parse(TopicVersionPrefix + FormatInt(PubsubTopicVersion) + (ChainIDLabel + e))
         == Failure(ChainIDAndSchemaParseError)
  {
    NoSpaceConcat(ChainIDLabel, e);
    ParseVersion3(ChainIDLabel + e);
    NonIntegerChainID(e);
  }

  lemma NonIntegerChainID(e: string)
    requires NoSpace(e)
    requires e == [] || (!IsDigit(e[0]) && e[0] != '+' && e[0] != '-')
    ensures ScanChainIDAndSchema(ChainIDLabel + e).Failure?
  {
    assert MatchLiteral(ChainIDLabel, ChainIDLabel + e) == Success(e);
    if e != [] {
      assert SkipSpace(e) == Success(e);
    }
  }

  /** A chain ID followed by anything but `/schema/` is refused at the third step. */
  lemma MissingSchemaLabelRejected(chainID: Int64, e: string)
    requires NoSpace(e) && (e == [] || !IsDigit(e[0]))
    requires !(SchemaLabel <= e)
    ensures Parse(TopicVersionPrefix + FormatInt(PubsubTopicVersion) + (ChainIDLabel + FormatInt(chainID) + e))
         == Failure(ChainIDAndSchemaParseError)
  {
    var rest := ChainIDLabel + FormatInt(chainID) + e;
    NoSpaceConcat(ChainIDLabel, FormatInt(chainID));
    NoSpaceConcat(ChainIDLabel + FormatInt(chainID), e);
    ParseVersion3(rest);
    ChainIDThenNoSchemaLabel(chainID, e);
  }

  lemma ChainIDThenNoSchemaLabel(chainID: Int64, e: string)
    requires e == [] || !IsDigit(e[0])
    requires !(SchemaLabel <= e)
    ensures ScanChainIDAndSchema(ChainIDLabel + FormatInt(chainID) + e).Failure?
  {
    Associative(ChainIDLabel, FormatInt(chainID), e);
    assert MatchLiteral(ChainIDLabel, ChainIDLabel + FormatInt(chainID) + e) == Success(FormatInt(chainID) + e);
    ScanFormatInt(chainID, e);
  }

  /** A schema segment that is not padded base64url is refused with SchemaBase64Error. */
  lemma BadBase64Rejected(chainID: Int64, e: string)
    requires e != [] && NoSpace(e) && Decode(e).None?
    ensures Parse(TopicVersionPrefix + FormatInt(PubsubTopicVersion) + ChainPart(chainID, e)) == Failure(SchemaBase64Error)
  {
    ChainPartNoSpace(chainID, e);
    ParseVersion3(ChainPart(chainID, e));
    ScanChainOf(chainID, e);
  }

  /** `%d` accepts an explicit plus sign, so `+3` passes the version guard like `3`. */
  lemma PlusSignedVersionAccepted(rest: string)
    ensures Parse(TopicVersionPrefix + ("+" + ("3" + rest))) == Parse(TopicVersionPrefix + ("3" + rest))
  {
    ScanIntPlus("3" + rest);
    SameVersionScan("+" + ("3" + rest), "3" + rest);
    ParseDependsOnVersionStep(TopicVersionPrefix + ("+" + ("3" + rest)), TopicVersionPrefix + ("3" + rest));
  }

  lemma SameVersionScan(x: string, y: string)
    requires ScanInt(x) == ScanInt(y)
    ensures ScanTopicVersion(TopicVersionPrefix + x) == ScanTopicVersion(TopicVersionPrefix + y)
  {
    MatchLiteralThen(TopicVersionPrefix, x);
    MatchLiteralThen(TopicVersionPrefix, y);
  }

  /**
    `%d` reads decimal digits only and stops before an `_`: after `4_` the
    version is 4, and after `3_` the version is 3 followed by text that is
    not `/chain/`.
  */
  lemma UnderscoredVersionRejected(rest: string)
    ensures Parse(TopicVersionPrefix + FormatInt(4) + ("_" + rest))
         == Failure(WrongTopicVersionError(PubsubTopicVersion, 4))
    ensures Parse(TopicVersionPrefix + FormatInt(PubsubTopicVersion) + ("_" + rest))
         == Failure(ChainIDAndSchemaParseError)
  {
    var u := "_" + rest;
    assert u[0] == '_';
    WrongVersionRejected(4, u);
    MissingChainLabelRejected(u);
  }

  lemma ScanIntPlus(x: string)
    requires x != [] && IsDigit(x[0])
    ensures ScanInt("+" + x) == ScanInt(x)
  {
    var t := "+" + x;
    assert t[0] == '+' && !IsSpace(x[0]);
    ScanIntNoSpace(t);
    ScanIntNoSpace(x);
    SignedPlus(x);
  }

  lemma ScanIntNoSpace(t: string)
    requires t != [] && !IsSpace(t[0])
    ensures ScanInt(t) == ScanSignedNumber(t)
  {
    var skipped := SkipSpace(t);
    assert t[0] != '\n';
    assert skipped == Success(t);
    assert ScanInt(t) == ScanSignedNumber(skipped.value);
  }

  lemma SignedPlus(x: string)
    requires x != [] && IsDigit(x[0])
    ensures ScanSignedNumber("+" + x) == ScanSignedNumber(x)
  {
    var t := "+" + x;
    assert SignLength(t) == 1 && SignLength(x) == 0;
    assert t[1..] == x && x[0..] == x;
  }

  lemma ParseDependsOnVersionStep(a: string, b: string)
    requires ScanTopicVersion(a) == ScanTopicVersion(b)
    ensures Parse(a) == Parse(b)
  {
  }
}
