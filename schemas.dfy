/**
  How `New` assembles its two validators (filter.go:64-110): a loader is a
  registry of named schema documents, filled with the exchange-address
  fragment, the built-in fragments and the caller's custom order schema, and
  then compiled from a root schema.

  The JSON Schema engine, the exchange-address lookup and the canonical-JSON
  serialiser are foreign code. They enter as the `Libraries` value: the
  engine only as "does it refuse to register this document" and "does this
  root compile against this registry". A compiled validator is represented by
  the registry and root it was compiled from.
*/
module Schemas {
  import opened Wrappers
  import opened Errors
  import opened Base64Url
  import Fmt
  import Patterns

  /** `Exchange.Hex()` of a contract address: `0x` and 40 hex digits (checksummed case). */
  type Address = s: string | Patterns.IsAddress(s) witness "0x" + seq(40, _ => '0')

  /** The schema documents a loader can hold, by what they are. */
  datatype SchemaDoc =
    | AddressSchema
    | WholeNumberSchema
    | HexSchema
    | OrderSchema
    | SignedOrderSchema
    /** `{"oneOf":[{"type":"string","pattern":checksummed},{"type":"string","pattern":lowercase}]}` */
    | ExchangeAddressSchema(checksummed: string, lowercase: string)
    /** The caller's text, exactly as given. */
    | CustomOrderSchema(text: Bytes)
    | RootOrderSchema
    | RootMessageSchema

  /** A schema loader: the documents registered so far, by name. */
  type Registry = map<string, SchemaDoc>

  /** The foreign code the filter calls. */
  datatype Libraries = Libraries(
    /** `ethereum.GetContractAddressesForChainID(chainID)`, then `.Exchange.Hex()`; None for an unknown chain. */
    exchangeAddressOf: Fmt.Int64 -> Option<Address>,
    /** Whether `AddSchema(s)` fails for this document on a loader holding this registry. */
    rejects: (Registry, SchemaDoc) -> bool,
    /** Whether `Compile` succeeds for this root on a loader holding this registry. */
    compiles: (Registry, SchemaDoc) -> bool,
    /** `canonicaljson.Unmarshal` then `canonicaljson.Marshal`, errors ignored. */
    canonicalize: Bytes -> Bytes)

  /** A compiled root schema, known by the registry and root it was compiled from. */
  datatype Validator = Validator(registry: Registry, root: SchemaDoc)

  /** The two validators a Filter holds. */
  datatype Validators = Validators(order: Validator, message: Validator)

  const ExchangeAddressName: string := "/exchangeAddress"
  const CustomOrderName: string := "/customOrder"
  const RootOrderName: string := "/rootOrder"
  const RootMessageName: string := "/rootMessage"

  /** `builtInSchemas`, each under the id its document declares. */
  const BuiltInSchemas: seq<(string, SchemaDoc)> := [
    ("/address", AddressSchema),
    ("/wholeNumber", WholeNumberSchema),
    ("/hex", HexSchema),
    ("/order", OrderSchema),
    ("/signedOrder", SignedOrderSchema)
  ]

  /** `builtInSchemas` registers five documents under five distinct ids. */
  lemma BuiltInSchemaIds()
    ensures |BuiltInSchemas| == 5 && DistinctNames(BuiltInSchemas)
    ensures Names(BuiltInSchemas) == {"/address", "/wholeNumber", "/hex", "/order", "/signedOrder"}
  {
    assert BuiltInSchemas[0].0 in Names(BuiltInSchemas);
    assert BuiltInSchemas[1].0 in Names(BuiltInSchemas);
    assert BuiltInSchemas[2].0 in Names(BuiltInSchemas);
    assert BuiltInSchemas[3].0 in Names(BuiltInSchemas);
    assert BuiltInSchemas[4].0 in Names(BuiltInSchemas);
  }

  /** The names a sequence of documents registers. */
  function Names(docs: seq<(string, SchemaDoc)>): set<string> {
    set i | 0 <= i < |docs| :: docs[i].0
  }

  /** No name occurs twice. */
  predicate DistinctNames(docs: seq<(string, SchemaDoc)>) {
    forall i, j :: 0 <= i < j < |docs| ==> docs[i].0 != docs[j].0
  }

  /** The exchange-address fragment for an address (filter.go:94). */
  function ExchangeAddressFragment(a: Address): (d: SchemaDoc)
    ensures d.ExchangeAddressSchema? && d.lowercase == Patterns.ToLower(d.checksummed)
    ensures Patterns.IsAddress(d.checksummed) && Patterns.IsAddress(d.lowercase)
    ensures Patterns.ToLower(d.lowercase) == d.lowercase
  {
    Patterns.ToLowerKeepsAddress(a);
    Patterns.ToLowerIdempotent(a);
    ExchangeAddressSchema(a, Patterns.ToLower(a))
  }

  /** `loader.AddSchema(name, doc)`. */
  function AddSchema(lib: Libraries, reg: Registry, name: string, doc: SchemaDoc): (r: Result<Registry, Error>)
    ensures r.Success? <==> !lib.rejects(reg, doc)
    ensures r.Success? ==> r.value == reg[name := doc]
    ensures r.Failure? ==> r.error == SchemaLoadError(name)
  {
    if lib.rejects(reg, doc) then Failure(SchemaLoadError(name)) else Success(reg[name := doc])
  }

  /** `loader.AddSchemas(docs...)`: one document after another, stopping at the first refusal. */
  function AddSchemas(lib: Libraries, reg: Registry, docs: seq<(string, SchemaDoc)>): (r: Result<Registry, Error>)
    ensures r.Success? ==> r.value.Keys == reg.Keys + Names(docs)
    ensures r.Success? ==> forall k :: k in reg && k !in Names(docs) ==> r.value[k] == reg[k]
    ensures r.Success? && DistinctNames(docs) ==> forall i :: 0 <= i < |docs| ==> r.value[docs[i].0] == docs[i].1
    ensures r.Failure? ==> r.error.SchemaLoadError? && r.error.name in Names(docs)
    decreases |docs|
  {
    if docs == [] then Success(reg)
    else
      var next :- AddSchema(lib, reg, docs[0].0, docs[0].1);
      var r := AddSchemas(lib, next, docs[1..]);
      assert Names(docs) == {docs[0].0} + Names(docs[1..]) by {
        forall k | k in Names(docs) ensures k in {docs[0].0} + Names(docs[1..]) {
          var i :| 0 <= i < |docs| && docs[i].0 == k;
          if i > 0 { assert docs[1..][i - 1].0 == k; }
        }
      }
      r
  }

  /** `loadExchangeAddress` (filter.go:87-96). */
  function LoadExchangeAddress(lib: Libraries, reg: Registry, chainID: Fmt.Int64): (r: Result<Registry, Error>)
    ensures lib.exchangeAddressOf(chainID).None? ==> r == Failure(ExchangeAddressLookupError(chainID))
    ensures r.Success? ==>
      (lib.exchangeAddressOf(chainID).Some?
       && r.value == reg[ExchangeAddressName := ExchangeAddressFragment(lib.exchangeAddressOf(chainID).value)])
    ensures lib.exchangeAddressOf(chainID).Some? ==>
      var fragment := ExchangeAddressFragment(lib.exchangeAddressOf(chainID).value);
      (r.Failure? <==> lib.rejects(reg, fragment))
      && (r.Failure? ==> r.error == SchemaLoadError(ExchangeAddressName))
  {
    match lib.exchangeAddressOf(chainID)
    case None => Failure(ExchangeAddressLookupError(chainID))
    case Some(a) => AddSchema(lib, reg, ExchangeAddressName, ExchangeAddressFragment(a))
  }

  /**
    `newLoader` (filter.go:98-110): the exchange-address fragment, then the
    built-in fragments, then the custom order schema, each step's error returned.
  */
  function NewLoader(lib: Libraries, chainID: Fmt.Int64, customOrderSchema: Bytes): (r: Result<Registry, Error>)
    ensures lib.exchangeAddressOf(chainID).None? ==> r == Failure(ExchangeAddressLookupError(chainID))
    ensures r.Success? ==> r.value.Keys == {ExchangeAddressName, CustomOrderName} + Names(BuiltInSchemas)
    ensures r.Success? ==>
      (lib.exchangeAddressOf(chainID).Some?
       && r.value[ExchangeAddressName] == ExchangeAddressFragment(lib.exchangeAddressOf(chainID).value))
    ensures r.Success? ==> forall i :: 0 <= i < |BuiltInSchemas| ==> r.value[BuiltInSchemas[i].0] == BuiltInSchemas[i].1
    ensures r.Success? ==> CustomOrderName in r.value && r.value[CustomOrderName] == CustomOrderSchema(customOrderSchema)
  {
    assert DistinctNames(BuiltInSchemas);
    assert ExchangeAddressName !in Names(BuiltInSchemas) && CustomOrderName !in Names(BuiltInSchemas);
    var withExchange :- LoadExchangeAddress(lib, map[], chainID);
    var withBuiltIns :- AddSchemas(lib, withExchange, BuiltInSchemas);
    AddSchema(lib, withBuiltIns, CustomOrderName, CustomOrderSchema(customOrderSchema))
  }

  /** `loader.Compile(root)`: a validator for the root, or the compile error. */
  function CompileRoot(lib: Libraries, reg: Registry, root: SchemaDoc, rootName: string): (r: Result<Validator, Error>)
    ensures r.Success? <==> lib.compiles(reg, root)
    ensures r.Success? ==> r.value == Validator(reg, root)
    ensures r.Failure? ==> r.error == SchemaCompileError(rootName)
  {
    if lib.compiles(reg, root) then Success(Validator(reg, root)) else Failure(SchemaCompileError(rootName))
  }

  /** The message loader's registry: a fresh loader, then `/rootOrder` by name (`AddSchemas` of one document, filter.go:71-74). */
  function MessageRegistry(loader: Registry, lib: Libraries): (r: Result<Registry, Error>)
    ensures r.Success? ==> r.value == loader[RootOrderName := RootOrderSchema]
    ensures r.Failure? ==> r.error == SchemaLoadError(RootOrderName)
  {
    AddSchema(lib, loader, RootOrderName, RootOrderSchema)
  }

  /**
    The validators of `New` (filter.go:64-85), with the error of each
    `newLoader` call checked before the loader is used.
  */
  function Compose(lib: Libraries, chainID: Fmt.Int64, customOrderSchema: Bytes): (r: Result<Validators, Error>)
    ensures lib.exchangeAddressOf(chainID).None? ==> r == Failure(ExchangeAddressLookupError(chainID))
    ensures NewLoader(lib, chainID, customOrderSchema).Failure? ==>
      r == Failure(NewLoader(lib, chainID, customOrderSchema).error)
    ensures NewLoader(lib, chainID, customOrderSchema).Success? ==>
      var loader := NewLoader(lib, chainID, customOrderSchema).value;
      var messageRegistry := loader[RootOrderName := RootOrderSchema];
      && (!lib.compiles(loader, RootOrderSchema) ==> r == Failure(SchemaCompileError(RootOrderName)))
      && (lib.compiles(loader, RootOrderSchema) && MessageRegistry(loader, lib).Failure? ==>
            r == Failure(SchemaLoadError(RootOrderName)))
      && (lib.compiles(loader, RootOrderSchema) && MessageRegistry(loader, lib).Success?
          && !lib.compiles(messageRegistry, RootMessageSchema) ==>
            r == Failure(SchemaCompileError(RootMessageName)))
      && (r.Success? <==>
            lib.compiles(loader, RootOrderSchema) && MessageRegistry(loader, lib).Success?
            && lib.compiles(messageRegistry, RootMessageSchema))
      && (r.Success? ==>
            r.value == Validators(Validator(loader, RootOrderSchema), Validator(messageRegistry, RootMessageSchema)))
    ensures r.Success? ==>
      (CustomOrderName in r.value.order.registry
       && r.value.order.registry[CustomOrderName] == CustomOrderSchema(customOrderSchema))
  {
    var orderLoader :- NewLoader(lib, chainID, customOrderSchema);
    var order :- CompileRoot(lib, orderLoader, RootOrderSchema, RootOrderName);
    // newLoader is called again (filter.go:71); being a function of the same
    // inputs, it succeeds again with the same registry.
    var messageLoader := NewLoader(lib, chainID, customOrderSchema).value;
    var messageRegistry :- MessageRegistry(messageLoader, lib);
    var message :- CompileRoot(lib, messageRegistry, RootMessageSchema, RootMessageName);
    Success(Validators(order, message))
  }

  /** What `New` does as written: it returns, or it dereferences a nil loader. */
  datatype NewOutcome = Returned(result: Result<Validators, Error>) | NilDereference

  /**
    `New` as written (filter.go:64-85): the error of `newLoader` is
    overwritten by the result of `Compile` before anyone looks at it, so when
    `newLoader` fails, `Compile` runs on the nil loader it returned.
  */
  function ComposeAsWritten(lib: Libraries, chainID: Fmt.Int64, customOrderSchema: Bytes): (o: NewOutcome)
    ensures o.NilDereference? <==> NewLoader(lib, chainID, customOrderSchema).Failure?
  {
    match NewLoader(lib, chainID, customOrderSchema)
    case Failure(_) => NilDereference
    case Success(orderLoader) =>
      match CompileRoot(lib, orderLoader, RootOrderSchema, RootOrderName)
      case Failure(e) => Returned(Failure(e))
      case Success(order) =>
        match NewLoader(lib, chainID, customOrderSchema)
        case Failure(_) => NilDereference
        case Success(messageLoader) =>
          match MessageRegistry(messageLoader, lib)
          case Failure(e) => Returned(Failure(e))
          case Success(messageRegistry) =>
            match CompileRoot(lib, messageRegistry, RootMessageSchema, RootMessageName)
            case Failure(e) => Returned(Failure(e))
            case Success(message) => Returned(Success(Validators(order, message)))
  }

  /** For a chain with no known exchange address, `New` as written crashes where it should return the lookup error. */
  lemma UnknownChainDereferencesNil(lib: Libraries, chainID: Fmt.Int64, customOrderSchema: Bytes)
    requires lib.exchangeAddressOf(chainID).None?
    ensures ComposeAsWritten(lib, chainID, customOrderSchema) == NilDereference
    ensures Compose(lib, chainID, customOrderSchema) == Failure(ExchangeAddressLookupError(chainID))
  {
  }

  /** Wherever `newLoader` succeeds, `New` as written and the corrected composition agree. */
  lemma AsWrittenAgreesWhenLoaderSucceeds(lib: Libraries, chainID: Fmt.Int64, customOrderSchema: Bytes)
    requires NewLoader(lib, chainID, customOrderSchema).Success?
    ensures ComposeAsWritten(lib, chainID, customOrderSchema) == Returned(Compose(lib, chainID, customOrderSchema))
  {
  }
}
