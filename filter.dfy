/**
  The order filter itself (filter.go:55-85, 112-150): a `Filter` holds the
  chain ID and the custom order schema it was built from, the two compiled
  validators, and a topic string that `Topic` computes on first use and keeps.
*/
module OrderFilter {
  import opened Wrappers
  import opened Errors
  import opened Fmt
  import opened Base64Url
  import opened Schemas
  import opened Topics

  /**
    `generateTopic` (filter.go:144-150): the topic of a filter for this chain
    and this custom order schema, given the canonical-JSON serialiser. Any
    error of the serialiser is ignored in the source; `canonicalize` is total.
  */
  function GenerateTopic(canonicalize: Bytes -> Bytes, chainID: Int64, rawCustomOrderSchema: Bytes): (t: string)
    ensures t != ""
    ensures TopicVersionPrefix + FormatInt(PubsubTopicVersion) + ChainIDLabel <= t
  {
    Format(chainID, canonicalize(rawCustomOrderSchema))
  }

  class Filter {
    /** Empty until `Topic` is first called. */
    var topic: string
    const chainID: Int64
    const rawCustomOrderSchema: Bytes
    const orderSchema: Validator
    const messageSchema: Validator
    /** The canonical-JSON serialiser `generateTopic` calls. */
    const canonicalize: Bytes -> Bytes

    /** The topic field is either not yet computed or holds this filter's topic. */
    ghost predicate Valid()
      reads this
    {
      topic == "" || topic == GenerateTopic(canonicalize, chainID, rawCustomOrderSchema)
    }

    /** The struct literal of `New` (filter.go:79-84): every field as given, the topic not yet computed. */
    constructor (chainID: Int64, rawCustomOrderSchema: Bytes, orderSchema: Validator, messageSchema: Validator,
                 canonicalize: Bytes -> Bytes)
      ensures this.chainID == chainID && this.rawCustomOrderSchema == rawCustomOrderSchema
      ensures this.orderSchema == orderSchema && this.messageSchema == messageSchema
      ensures this.canonicalize == canonicalize
      ensures topic == ""
      ensures Valid()
    {
      this.chainID := chainID;
      this.rawCustomOrderSchema := rawCustomOrderSchema;
      this.orderSchema := orderSchema;
      this.messageSchema := messageSchema;
      this.canonicalize := canonicalize;
      topic := "";
    }

    /**
      `Topic` (filter.go:137-142): computes the topic on the first call and
      stores it; later calls return the stored topic unchanged.
    */
    method Topic() returns (t: string)
      requires Valid()
      modifies this
      ensures Valid()
      ensures t == topic && t == GenerateTopic(canonicalize, chainID, rawCustomOrderSchema)
      ensures t != ""
      ensures old(topic) != "" ==> topic == old(topic)
    {
      if topic == "" {
        topic := GenerateTopic(canonicalize, chainID, rawCustomOrderSchema);
      }
      t := topic;
    }
  }

  /**
    `New` (filter.go:64-85) with the error of `newLoader` checked: a filter
    storing the chain ID and the custom schema exactly as given, or the first
    error of composing its validators.
  */
  method New(lib: Libraries, chainID: Int64, customOrderSchema: Bytes) returns (r: Result<Filter, Error>)
    ensures r.Success? <==> Compose(lib, chainID, customOrderSchema).Success?
    ensures r.Failure? ==> r.error == Compose(lib, chainID, customOrderSchema).error
    ensures r.Success? ==>
      (fresh(r.value)
       && r.value.chainID == chainID
       && r.value.rawCustomOrderSchema == customOrderSchema
       && r.value.orderSchema == Compose(lib, chainID, customOrderSchema).value.order
       && r.value.messageSchema == Compose(lib, chainID, customOrderSchema).value.message
       && r.value.canonicalize == lib.canonicalize
       && r.value.topic == ""
       && r.value.Valid())
  {
    match Compose(lib, chainID, customOrderSchema)
    case Failure(e) =>
      r := Failure(e);
    case Success(validators) =>
      var f := new Filter(chainID, customOrderSchema, validators.order, validators.message, lib.canonicalize);
      r := Success(f);
  }

  /**
    `NewFromTopic` (filter.go:112-135): the parse errors of the topic in the
    order the source checks them, otherwise `New` on the chain ID and the
    decoded schema.
  */
  method NewFromTopic(lib: Libraries, topic: string) returns (r: Result<Filter, Error>)
    ensures Parse(topic).Failure? ==> r.Failure? && r.error == Parse(topic).error
    ensures Parse(topic).Success? ==>
      (r.Success? <==> Compose(lib, Parse(topic).value.0, Parse(topic).value.1).Success?)
    ensures Parse(topic).Success? && r.Failure? ==>
      r.error == Compose(lib, Parse(topic).value.0, Parse(topic).value.1).error
    ensures r.Success? ==>
      (Parse(topic).Success?
       && fresh(r.value)
       && r.value.chainID == Parse(topic).value.0
       && r.value.rawCustomOrderSchema == Parse(topic).value.1
       && r.value.orderSchema == Compose(lib, Parse(topic).value.0, Parse(topic).value.1).value.order
       && r.value.messageSchema == Compose(lib, Parse(topic).value.0, Parse(topic).value.1).value.message
       && r.value.canonicalize == lib.canonicalize
       && r.value.topic == ""
       && r.value.Valid())
  {
    match Parse(topic)
    case Failure(e) =>
      r := Failure(e);
    case Success((chainID, customOrderSchema)) =>
      r := New(lib, chainID, customOrderSchema);
  }

  // ---------------------------------------------------------------- properties

  /** The topic of a filter reads back as its chain ID and its canonical schema bytes. */
  lemma GeneratedTopicParses(canonicalize: Bytes -> Bytes, chainID: Int64, rawCustomOrderSchema: Bytes)
    requires |canonicalize(rawCustomOrderSchema)| > 0
    ensures Parse(GenerateTopic(canonicalize, chainID, rawCustomOrderSchema))
         == Success((chainID, canonicalize(rawCustomOrderSchema)))
  {
    ParseFormat(chainID, canonicalize(rawCustomOrderSchema));
  }

  /** Two filters share a topic exactly when they share the chain ID and the canonical schema. */
  lemma SameTopicIffSameChainAndSchema(canonicalize: Bytes -> Bytes, c1: Int64, raw1: Bytes, c2: Int64, raw2: Bytes)
    ensures GenerateTopic(canonicalize, c1, raw1) == GenerateTopic(canonicalize, c2, raw2)
        <==> (c1 == c2 && canonicalize(raw1) == canonicalize(raw2))
  {
    if GenerateTopic(canonicalize, c1, raw1) == GenerateTopic(canonicalize, c2, raw2) {
      FormatInjective(c1, canonicalize(raw1), c2, canonicalize(raw2));
    }
  }

  /**
    A filter rebuilt from a filter's topic has the same topic, provided the
    serialiser leaves its own output unchanged.
  */
  lemma RebuiltFilterHasSameTopic(canonicalize: Bytes -> Bytes, chainID: Int64, rawCustomOrderSchema: Bytes)
    requires |canonicalize(rawCustomOrderSchema)| > 0
    requires canonicalize(canonicalize(rawCustomOrderSchema)) == canonicalize(rawCustomOrderSchema)
    ensures Parse(GenerateTopic(canonicalize, chainID, rawCustomOrderSchema)).Success?
    ensures var p := Parse(GenerateTopic(canonicalize, chainID, rawCustomOrderSchema)).value;
      GenerateTopic(canonicalize, p.0, p.1) == GenerateTopic(canonicalize, chainID, rawCustomOrderSchema)
  {
    GeneratedTopicParses(canonicalize, chainID, rawCustomOrderSchema);
  }

  /**
    A caller that asks twice gets the same topic, and the second call
    changes nothing.
  */
  method TopicTwice(f: Filter) returns (t1: string, t2: string)
    requires f.Valid()
    modifies f
    ensures t1 == t2 && t1 == GenerateTopic(f.canonicalize, f.chainID, f.rawCustomOrderSchema)
    ensures f.topic == t1 && f.Valid()
  {
    t1 := f.Topic();
    t2 := f.Topic();
  }
}
