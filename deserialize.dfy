/**
  The frame splitter of src/command/deserialize.rs: a frame is the command
  name, one space, and the payload text. The name selects the event type
  before the payload is looked at; the payload is then ignored (unit events)
  or handed to serde_json, which the model takes as a parameter.
  */
module Deserialize {
  import opened Wrappers
  import Registry
  import opened Server

  /** An error reported by serde_json; the model keeps only its text. */
  datatype JsonError = JsonError(message: string)

  datatype DeserializeCommandError =
    | Custom(message: string)
    | NoSpace
    | DeserializeDataError(cause: JsonError)

  /** The `Display` text of each error. */
  function Describe(e: DeserializeCommandError): string {
    match e
    case Custom(message) => message
    case NoSpace => "no space in command"
    case DeserializeDataError(cause) => "error when deserializing data: " + cause.message
  }

  /** `de::Error::custom`: the error raised for a message keeps that message as its text. */
  function CustomError(message: string): (e: DeserializeCommandError)
    ensures e.Custom? && Describe(e) == message
  {
    Custom(message)
  }

  /** The position of the first space of `s`, if it has one. */
  function FindSpace(s: string): (r: Option<nat>)
    ensures r.None? <==> ' ' !in s
    ensures r.Some? ==> r.value < |s| && s[r.value] == ' ' && ' ' !in s[..r.value]
  {
    if s == [] then None
    else if s[0] == ' ' then Some(0)
    else
      match FindSpace(s[1..])
      case None => None
      case Some(i) =>
        assert s[..i + 1] == [s[0]] + s[1..][..i];
        Some(i + 1)
  }

  /** `str::split_once(' ')`: the text before the first space and the text after it. */
  function SplitOnce(s: string): (r: Option<(string, string)>)
    ensures r.None? <==> ' ' !in s
    ensures r.Some? ==> ' ' !in r.value.0 && r.value.0 + " " + r.value.1 == s
  {
    match FindSpace(s)
    case None => None
    case Some(i) =>
      assert s == s[..i] + " " + s[i + 1..];
      Some((s[..i], s[i + 1..]))
  }

  /**
    The split is at the first space: a name without spaces, a space and any
    payload (empty, or holding further spaces) split back into that name and
    that payload.
    */
  lemma SplitOnceUnique(name: string, data: string)
    requires ' ' !in name
    ensures SplitOnce(name + " " + data) == Some((name, data))
  {
    var s := name + " " + data;
    assert s[|name|] == ' ';
    var i := FindSpace(s).value;
    assert i == |name|;
    assert s[..i] == name;
    assert s[i + 1..] == data;
  }

  /** The part of a frame left once the command name is read: its payload text. */
  datatype VariantAccess = VariantAccess(data: string)

  /**
    `variant_seed`: split the frame at its first space and let `seed` identify
    the command name; a frame without a space is `NoSpace`, a name `seed`
    rejects is a custom error carrying `seed`'s message, and a name it accepts
    yields its value together with the payload after the first space.
    */
  function VariantSeed<V>(s: string, seed: string -> Result<V, string>): (r: Result<(V, VariantAccess), DeserializeCommandError>)
    ensures r == Failure(NoSpace) <==> ' ' !in s
    ensures r.Success? ==> r.value.1.data == SplitOnce(s).value.1 && seed(SplitOnce(s).value.0) == Success(r.value.0)
    ensures ' ' in s && seed(SplitOnce(s).value.0).Failure? ==>
      r == Failure(CustomError(seed(SplitOnce(s).value.0).error))
    ensures ' ' in s && seed(SplitOnce(s).value.0).Success? ==>
      r == Success((seed(SplitOnce(s).value.0).value, VariantAccess(SplitOnce(s).value.1)))
  {
    match SplitOnce(s)
    case None => Failure(NoSpace)
    case Some((command, data)) =>
      match seed(command)
      case Failure(message) => Failure(CustomError(message))
      case Success(value) => Success((value, VariantAccess(data)))
  }

  /** `unit_variant`: the payload is ignored entirely, so it never fails. */
  function UnitVariant(va: VariantAccess): (r: Result<(), DeserializeCommandError>)
    ensures r.Success?
  {
    Success(())
  }

  /** The `?` on a serde_json result: its error becomes `DeserializeDataError`. */
  function FromJson<T>(parsed: Result<T, JsonError>): Result<T, DeserializeCommandError> {
    match parsed
    case Success(value) => Success(value)
    case Failure(cause) => Failure(DeserializeDataError(cause))
  }

  /** `newtype_variant_seed`: the payload parsed as JSON. */
  function NewtypeVariantSeed<T>(va: VariantAccess, parse: string -> Result<T, JsonError>): (r: Result<T, DeserializeCommandError>)
    ensures r.Success? <==> parse(va.data).Success?
    ensures r.Success? ==> r.value == parse(va.data).value
    ensures r.Failure? ==> r.error == DeserializeDataError(parse(va.data).error)
  {
    FromJson(parse(va.data))
  }

  /** `tuple_variant`: the payload parsed as JSON; the arity is not consulted. */
  function TupleVariant<T>(va: VariantAccess, len: nat, parse: string -> Result<T, JsonError>): (r: Result<T, DeserializeCommandError>)
    ensures r.Success? <==> parse(va.data).Success?
    ensures r.Success? ==> r.value == parse(va.data).value
    ensures r.Failure? ==> r.error == DeserializeDataError(parse(va.data).error)
  {
    FromJson(parse(va.data))
  }

  /** `struct_variant`: the payload parsed as JSON; the field list is not consulted. */
  function StructVariant<T>(va: VariantAccess, fields: seq<string>, parse: string -> Result<T, JsonError>): (r: Result<T, DeserializeCommandError>)
    ensures r.Success? <==> parse(va.data).Success?
    ensures r.Success? ==> r.value == parse(va.data).value
    ensures r.Failure? ==> r.error == DeserializeDataError(parse(va.data).error)
  {
    FromJson(parse(va.data))
  }

  /**
    A JSON reader whose every success is an event of the type it was asked
    for, whose users come from their wire fields (a `tableID` of 0 read as
    "at no table").
    */
  ghost predicate WellKinded(json: (Registry.Kind, string) -> Result<Event, JsonError>) {
    forall k, data :: json(k, data).Success? ==>
      KindOf(json(k, data).value) == k && UsersDecoded(json(k, data).value)
  }

  function RejectAll(k: Registry.Kind, data: string): Result<Event, JsonError> {
    Failure(JsonError("unparsed"))
  }

  /**
    serde_json reading a payload as the fields of event type `k`: partial
    (a `Failure` for text that does not decode into that type), otherwise
    uninterpreted.
    */
  type JsonParser = json: (Registry.Kind, string) -> Result<Event, JsonError> | WellKinded(json)
    witness RejectAll

  /** The message serde's derived identifier visitor raises for a name it does not know. */
  function UnknownVariant(name: string): string {
    "unknown variant `" + name + "`"
  }

  /** The derived identifier visitor of the event enum: a wire name to its event type. */
  function IdentifyVariant(name: string): (r: Result<Registry.Kind, string>)
    ensures r.Success? ==> Registry.WireName(r.value) == name
    ensures r.Failure? ==> r.error == UnknownVariant(name) && forall k :: Registry.WireName(k) != name
  {
    match Registry.FromName(name)
    case Some(k) => Success(k)
    case None => Failure(UnknownVariant(name))
  }

  /**
    Read the payload of event type `k`: payload-less types as unit variants,
    single-sequence wrappers as newtype variants and the rest as struct
    variants. This routing is an assumption of the model: the enum that
    routes names to payload types belongs to the `command::Parse` chain,
    which is not part of it. Every path other than the unit one yields
    exactly serde_json's reading of the payload.
    */
  function ReadVariant(k: Registry.Kind, va: VariantAccess, json: JsonParser): (r: Result<Event, DeserializeCommandError>)
    ensures r.Success? ==> KindOf(r.value) == k && UsersDecoded(r.value)
    ensures Registry.ShapeOf(k) == Registry.Unit ==> r == Success(UnitEvent(k))
    ensures Registry.ShapeOf(k) != Registry.Unit ==> r == FromJson(json(k, va.data))
  {
    match Registry.ShapeOf(k)
    case Unit =>
      (match UnitVariant(va)
       case Success(_) => Success(UnitEvent(k))
       case Failure(e) => Failure(e))
    case Newtype => NewtypeVariantSeed(va, data => json(k, data))
    case Struct => StructVariant(va, Registry.FieldNames(k), data => json(k, data))
  }

  /** `deserialize_command_from_str` for the server event enum. */
  function DeserializeEvent(s: string, json: JsonParser): (r: Result<Event, DeserializeCommandError>)
    ensures ' ' !in s ==> r == Failure(NoSpace)
    ensures r.Success? ==> ' ' in s && Registry.WireName(KindOf(r.value)) == SplitOnce(s).value.0
    ensures r.Success? ==> UsersDecoded(r.value)
  {
    match VariantSeed(s, IdentifyVariant)
    case Failure(e) => Failure(e)
    case Success((k, va)) => ReadVariant(k, va, json)
  }

  /**
    A frame `name payload` decodes by its name alone first: an unknown name is
    a custom error naming it, a known one reads `payload` as that event type.
    */
  lemma DeserializeFrame(name: string, data: string, json: JsonParser)
    requires ' ' !in name
    ensures DeserializeEvent(name + " " + data, json) ==
      match Registry.FromName(name)
      case None => Failure(Custom(UnknownVariant(name)))
      case Some(k) => ReadVariant(k, VariantAccess(data), json)
  {
    SplitOnceUnique(name, data);
  }

  /** An unknown name fails the same way whatever payload follows it: the payload is never read. */
  lemma UnknownNameIgnoresPayload(name: string, data1: string, data2: string, json1: JsonParser, json2: JsonParser)
    requires ' ' !in name && Registry.FromName(name).None?
    ensures DeserializeEvent(name + " " + data1, json1) == DeserializeEvent(name + " " + data2, json2)
    ensures DeserializeEvent(name + " " + data1, json1).Failure?
  {
    DeserializeFrame(name, data1, json1);
    DeserializeFrame(name, data2, json2);
  }

  lemma WireNamesHaveNoSpace(k: Registry.Kind)
    ensures ' ' !in Registry.WireName(k)
  {
  }

  /** A payload-less event decodes from its name followed by any payload at all. */
  lemma UnitEventAnyPayload(k: Registry.Kind, data: string, json: JsonParser)
    requires Registry.ShapeOf(k) == Registry.Unit
    ensures DeserializeEvent(Registry.WireName(k) + " " + data, json) == Success(UnitEvent(k))
  {
    WireNamesHaveNoSpace(k);
    Registry.FromWireName(k);
    DeserializeFrame(Registry.WireName(k), data, json);
  }

  /**
    For an event type with fields the result is exactly serde_json's reading
    of the payload, a parse failure surfacing as `DeserializeDataError`.
    */
  lemma PayloadIsJson(k: Registry.Kind, data: string, json: JsonParser)
    requires Registry.ShapeOf(k) != Registry.Unit
    ensures var r := DeserializeEvent(Registry.WireName(k) + " " + data, json);
      && (r.Success? <==> json(k, data).Success?)
      && (r.Success? ==> r.value == json(k, data).value)
      && (r.Failure? ==> r.error == DeserializeDataError(json(k, data).error))
  {
    WireNamesHaveNoSpace(k);
    Registry.FromWireName(k);
    DeserializeFrame(Registry.WireName(k), data, json);
  }
}
