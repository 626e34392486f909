/**
 * Generic-type resolution helpers shared by the JSON decoders
 * (`org.test4j.json.decoder.base.BaseDecoder`).
 *
 * A Java reflection `Type` is modelled as a `TypeDesc` with three shapes: a plain
 * class, a parameterized type, and everything else (type variables, wildcards,
 * generic arrays). Java's `null` becomes `Option.None`; an exception becomes
 * `Result.Failure`.
 */
module GenericTypes {
  import opened Wrappers

  /** A reflection `Type` as the decoder sees it. */
  datatype TypeDesc =
    | Nominal(name: string)                        // a `Class`
    | Parameterized(raw: TypeDesc, args: ArgRead)  // a `ParameterizedType`
    | OtherShape(text: string)                     // a type variable, wildcard or generic array; `text` is its `toString()`

  /**
   * What `getActualTypeArguments()` answers for a parameterized type: the
   * arguments, a `null` array, or a runtime exception (a malformed or missing
   * argument type) carrying its message.
   */
  datatype ArgRead =
    | Args(types: seq<TypeDesc>)
    | NullArgs
    | ReadFails(reason: string)

  /** The universal fallback for an unresolvable generic argument. */
  const HashMapClass: TypeDesc := Nominal("java.util.HashMap")

  /** The class `getRawType` answers when neither the type nor the default gives one. */
  const ObjectClassName: string := "java.lang.Object"

  /** `DecoderException`: a message and, optionally, the wrapped cause. */
  datatype DecoderError = DecoderError(message: string, cause: Option<string>)

  /** The parsed JSON node kinds a component lookup may be given. */
  datatype JsonNodeKind = JsonMap | JsonArray | JsonSingle

  // ---------------------------------------------------------------------------
  // getError

  const ConvertPrefix: string := "couldn't convert \""
  const ConvertInfix: string := "\" to "

  /** The message both `getError` variants build for a failed conversion. */
  function ConvertMessage(value: string, to: string): string
  {
    ConvertPrefix + value + ConvertInfix + to
  }

  /** `getError(value, to)`: a conversion failure without a cause. */
  function GetError(value: string, to: string): (e: DecoderError)
    ensures e.cause.None?
    ensures ConvertedValue(e.message, to) == Some(value)
  {
    ErrorMessageNamesValue(value, to);
    DecoderError(ConvertMessage(value, to), None)
  }

  /** `getError(value, to, e)`: the same message, keeping `cause`. */
  function GetErrorWithCause(value: string, to: string, cause: string): (e: DecoderError)
    ensures e.message == GetError(value, to).message
    ensures e.cause == Some(cause)
  {
    DecoderError(ConvertMessage(value, to), Some(cause))
  }

  /**
   * Reads back the offending value from a conversion message whose target
   * type is `to`; `None` when the message does not have that shape.
   */
  function ConvertedValue(msg: string, to: string): Option<string>
  {
    var tail := ConvertInfix + to;
    if |ConvertPrefix| + |tail| <= |msg|
       && msg[..|ConvertPrefix|] == ConvertPrefix
       && msg[|msg| - |tail|..] == tail
    then Some(msg[|ConvertPrefix|..|msg| - |tail|])
    else None
  }

  /** The message determines the value that failed to convert. */
  lemma ErrorMessageNamesValue(value: string, to: string)
    ensures ConvertedValue(ConvertMessage(value, to), to) == Some(value)
  {
    var msg := ConvertMessage(value, to);
    var tail := ConvertInfix + to;
    assert msg == ConvertPrefix + (value + tail);
    assert msg[..|ConvertPrefix|] == ConvertPrefix;
    assert msg == (ConvertPrefix + value) + tail;
    assert msg[|msg| - |tail|..] == tail;
    assert msg[|ConvertPrefix|..|msg| - |tail|] == value;
  }

  /** Two conversion errors for the same target agree exactly when their values do. */
  lemma ErrorMessageInjective(v1: string, v2: string, to: string)
    ensures GetError(v1, to) == GetError(v2, to) <==> v1 == v2
  {
    if GetError(v1, to) == GetError(v2, to) {
      assert ConvertedValue(GetError(v1, to).message, to) == Some(v1);
      assert ConvertedValue(GetError(v2, to).message, to) == Some(v2);
    }
  }

  // ---------------------------------------------------------------------------
  // getArgType

  /**
   * `getArgType(type, index)`: the index-th actual type argument of a
   * parameterized type (`type` is `null` or parameterized). A `null` type or a
   * negative index answers `null` before the arguments are read.
   */
  function GetArgType(t: Option<TypeDesc>, index: int): (r: Result<Option<TypeDesc>, string>)
    requires t.Some? ==> t.value.Parameterized?
    ensures r.Failure? <==> t.Some? && 0 <= index && t.value.args.ReadFails?
    ensures r.Failure? ==> r.error == t.value.args.reason
    ensures r.Success? && r.value.Some? <==>
              t.Some? && t.value.args.Args? && 0 <= index < |t.value.args.types|
    ensures r.Success? && r.value.Some? ==> r.value.value == t.value.args.types[index]
  {
    if t.None? || index < 0 then Success(None)
    else match t.value.args
      case ReadFails(why) => Failure(why)
      case NullArgs => Success(None)
      case Args(types) => if index >= |types| then Success(None) else Success(Some(types[index]))
  }

  // ---------------------------------------------------------------------------
  // getRawType

  /**
   * `getRawType(type, default)`: the class a type stands for. A class is
   * itself; a parameterized type is the raw type of its raw type; anything
   * else (including `null`) is the default, or `Object` when the default is
   * `null`. The answer is never `null`.
   */
  function GetRawType(t: Option<TypeDesc>, default: Option<string>): (r: string)
    ensures t.Some? && t.value.Nominal? ==> r == t.value.name
    ensures t.Some? && t.value.Parameterized? ==> r == RawClassOf(t.value.raw, default)
    ensures t.None? || t.value.OtherShape? ==> r == default.GetOr(ObjectClassName)
  {
    match t
    case None => default.GetOr(ObjectClassName)
    case Some(ty) => RawClassOf(ty, default)
  }

  /** `getRawType` of a non-null type. */
  function RawClassOf(t: TypeDesc, default: Option<string>): string
    decreases t
  {
    match t
    case Nominal(name) => name
    case Parameterized(raw, _) => RawClassOf(raw, default)
    case OtherShape(_) => default.GetOr(ObjectClassName)
  }

  /** Type erasure: every argument list along the raw-type chain dropped. */
  function Erase(t: TypeDesc): (e: TypeDesc)
    decreases t
  {
    match t
    case Parameterized(raw, _) => Parameterized(Erase(raw), Args([]))
    case _ => t
  }

  /** The raw class depends only on the raw-type chain, never on the type arguments. */
  lemma {:induction false} RawTypeSurvivesErasure(t: TypeDesc, default: Option<string>)
    ensures GetRawType(Some(Erase(t)), default) == GetRawType(Some(t), default)
    decreases t
  {
    match t
    case Parameterized(raw, _) =>
      RawTypeSurvivesErasure(raw, default);
    case _ =>
  }

  /** The raw class of a type that has a class at the bottom of its raw chain is that class. */
  lemma {:induction false} RawTypeOfClassBased(t: TypeDesc, default1: Option<string>, default2: Option<string>)
    requires ClassBased(t)
    ensures GetRawType(Some(t), default1) == GetRawType(Some(t), default2)
    ensures GetRawType(Some(t), default1) == BottomClass(t)
    decreases t
  {
    match t
    case Parameterized(raw, _) =>
      RawTypeOfClassBased(raw, default1, default2);
    case _ =>
  }

  /** True when unwrapping raw types from `t` ends at a class. */
  predicate ClassBased(t: TypeDesc)
    decreases t
  {
    match t
    case Nominal(_) => true
    case Parameterized(raw, _) => ClassBased(raw)
    case OtherShape(_) => false
  }

  /** The class at the bottom of a class-based raw-type chain. */
  function BottomClass(t: TypeDesc): string
    requires ClassBased(t)
    decreases t
  {
    match t
    case Nominal(name) => name
    case Parameterized(raw, _) => BottomClass(raw)
  }

  /** Without a class at the bottom of the raw chain, the default decides. */
  lemma {:induction false} RawTypeOfShapeless(t: TypeDesc, default: Option<string>)
    requires !ClassBased(t)
    ensures GetRawType(Some(t), default) == default.GetOr(ObjectClassName)
    decreases t
  {
    match t
    case Parameterized(raw, _) =>
      RawTypeOfShapeless(raw, default);
    case _ =>
  }

  // ---------------------------------------------------------------------------
  // getComponent

  const UnsupportedShapePrefix: string := "the CollectionDecoder only accpt collection type, but actual is:"

  /** `String.valueOf` of a type that is neither a class nor a parameterized type. */
  function ShapeText(t: Option<TypeDesc>): string
    requires t.None? || t.value.OtherShape?
  {
    if t.None? then "null" else t.value.text
  }

  /**
   * `getComponent(toType, genericIndex)`: the element type a container decoder
   * should use. A class has no argument information and gives `HashMap`; a
   * parameterized type gives its argument at the index (`null` when out of
   * range), or `HashMap` when reading the arguments throws (logged, then
   * swallowed); any other shape is rejected.
   */
  function GetComponent(toType: Option<TypeDesc>, index: int): (r: Result<Option<TypeDesc>, DecoderError>)
    ensures r.Failure? <==> toType.None? || toType.value.OtherShape?
    ensures r.Failure? ==> r.error == DecoderError(UnsupportedShapePrefix + ShapeText(toType), None)
    ensures toType.Some? && toType.value.Nominal? ==> r == Success(Some(HashMapClass))
    ensures toType.Some? && toType.value.Parameterized? && GetArgType(toType, index).Success? ==>
              r == Success(GetArgType(toType, index).value)
    ensures toType.Some? && toType.value.Parameterized? && GetArgType(toType, index).Failure? ==>
              r == Success(Some(HashMapClass))
  {
    match toType
    case Some(Nominal(_)) => Success(Some(HashMapClass))
    case Some(Parameterized(_, _)) =>
      (match GetArgType(toType, index)
       case Success(arg) => Success(arg)
       case Failure(_) => Success(Some(HashMapClass)))
    case _ => Failure(DecoderError(UnsupportedShapePrefix + ShapeText(toType), None))
  }

  /**
   * An index outside the argument list of a readable parameterized type gives
   * `null`, not the `HashMap` fallback.
   */
  lemma OutOfRangeIsNull(raw: TypeDesc, types: seq<TypeDesc>, index: int)
    requires index < 0 || |types| <= index
    ensures GetComponent(Some(Parameterized(raw, Args(types))), index) == Success(None)
    ensures GetComponent(Some(Parameterized(raw, Args(types))), index) != Success(Some(HashMapClass))
  {
  }

  /** Component resolution never fails on a class or a parameterized type. */
  lemma ComponentOfSupportedShapeSucceeds(t: TypeDesc, index: int)
    requires !t.OtherShape?
    ensures GetComponent(Some(t), index).Success?
    ensures GetComponent(Some(t), index).value.None? ==>
              t.Parameterized? && (index < 0 || t.args.NullArgs? || (t.args.Args? && |t.args.types| <= index))
  {
  }

  /**
   * `getComponent(jo, toType, genericIndex)`: the declared component type,
   * refined by the JSON map's own class property when the node is a map.
   * `clazzFromProp` stands for `JSONMap.getClazzFromJSONFProp` of that map,
   * which is not part of this model. A failure of the declared lookup
   * propagates before the node is looked at.
   */
  function GetComponentFor(node: JsonNodeKind, toType: Option<TypeDesc>, index: int,
                           clazzFromProp: Option<TypeDesc> -> Option<TypeDesc>)
    : (r: Result<Option<TypeDesc>, DecoderError>)
    ensures r.Failure? <==> toType.None? || toType.value.OtherShape?
    ensures r.Failure? ==> r == GetComponent(toType, index)
    ensures node != JsonMap ==> r == GetComponent(toType, index)
    ensures node == JsonMap && r.Success? ==> r.value == clazzFromProp(GetComponent(toType, index).value)
  {
    var argType :- GetComponent(toType, index);
    if node != JsonMap then Success(argType) else Success(clazzFromProp(argType))
  }
}
