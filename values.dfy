/**
 * The Python values that flow through the server: wire strings, converted
 * parameters, parameter defaults, decoded JSON bodies and handler results;
 * handler annotations used as converters; and the foreign functions the
 * server calls (pydantic, `json`, `int()` on opaque objects, the status table).
 */
module Values {
  import opened Wrappers
  import opened PyStrings

  newtype byte = x: int | 0 <= x < 256

  /**
   * A Python value. Objects whose behaviour the server does not inspect are
   * known by their class name and their `str()` text.
   */
  datatype Value =
    | NoneV
    | BoolV(b: bool)
    | IntV(i: int)
    | StrV(s: string)
    /** An instance of a pydantic `BaseModel` subclass. */
    | ModelV(cls: string, text: string)
    /** A `Headers()` instance, used as a parameter default to mark a header parameter. */
    | HeadersMarker
    /** A `Cookies()` instance, used as a parameter default to mark a cookie parameter. */
    | CookiesMarker
    /** Any other object: a dict, a list, a float, ... */
    | ObjV(cls: string, text: string)

  /** `str(v)`; the markers are empty containers, whose text is empty. */
  function Show(v: Value): string {
    match v
    case NoneV => "None"
    case BoolV(b) => if b then "True" else "False"
    case IntV(i) => IntToString(i)
    case StrV(s) => s
    case ModelV(_, text) => text
    case HeadersMarker => ""
    case CookiesMarker => ""
    case ObjV(_, text) => text
  }

  /** How `str` prints a class whose module-qualified name is `q`. */
  function ClassRepr(q: string): string {
    "<class '" + q + "'>"
  }

  /** A text of the form `<class '...'>`. */
  predicate IsClassRepr(s: string) {
    |s| >= 10 && s[..8] == "<class '" && s[|s| - 2..] == "'>"
  }

  /** `str(type(v))`: every value's type prints as a class. */
  function TypeName(v: Value): (r: string)
    ensures IsClassRepr(r)
  {
    match v
    case NoneV => ClassRepr("NoneType")
    case BoolV(_) => ClassRepr("bool")
    case IntV(_) => ClassRepr("int")
    case StrV(_) => ClassRepr("str")
    case ModelV(cls, _) => ClassRepr(cls)
    case HeadersMarker => ClassRepr("fastpy_rest.params.Headers")
    case CookiesMarker => ClassRepr("fastpy_rest.params.Cookies")
    case ObjV(cls, _) => ClassRepr(cls)
  }

  /** A handler annotation: a parameter's or the return value's declared type. */
  datatype TypeSpec =
    | NoneType
    | StrType
    | IntType
    /** A pydantic `BaseModel` subclass, by its module-qualified name. */
    | ModelType(cls: string)
    /** The `Request` class: marks the request-context parameter. */
    | RequestType
    /** The `Response` class. */
    | ResponseType
    /**
     * Any other annotation, called as a converter through the runtime.
     * `qualName` is the class as `str(T)` shows it, with its module for a
     * class defined outside `builtins` (`shop.Money`); `name` is its bare
     * `__name__` (`Money`), as attribute errors print it.
     */
    | OtherType(qualName: string, name: string)

  /**
   * `str(annotation)`, as the error messages print it: `None` for the
   * `None` annotation, and the class otherwise.
   */
  function TypeDisplay(t: TypeSpec): (r: string)
    ensures r == "None" <==> t.NoneType?
    ensures !t.NoneType? ==> IsClassRepr(r)
    ensures t.OtherType? ==> r == ClassRepr(t.qualName)
  {
    match t
    case NoneType => "None"
    case StrType => ClassRepr("str")
    case IntType => ClassRepr("int")
    case ModelType(cls) => ClassRepr(cls)
    case RequestType => ClassRepr("fastpy_rest.requests.Request")
    case ResponseType => ClassRepr("fastpy_rest.responses.Response")
    case OtherType(qualName, _) => ClassRepr(qualName)
  }

  /** The functions the server calls but does not define. */
  datatype Runtime = Runtime(
    /** `HTTP_STATUS_CODES`: status code to reason phrase. */
    reasons: map<int, string>,
    /** `T(x)` for an annotation `T` whose behaviour the model leaves open. */
    call: (string, Value) -> Option<Value>,
    /** `M.model_validate_json(x)`; a failure carries `str(e)`. */
    validateJson: (string, Value) -> Result<Value, string>,
    /** `M.model_validate(x)`. */
    validate: (string, Value) -> Option<Value>,
    /** `m.model_dump_json()`. */
    dumpModel: Value -> string,
    /** `json.dumps(x)` for an object that is not a model, a string or a scalar. */
    dumps: Value -> Option<string>,
    /** `json.loads(b)`. */
    loads: seq<byte> -> Option<Value>,
    /**
     * The integer an object equals as a dictionary key (an `IntEnum` member
     * such as `HTTPStatus.OK`, an integral float such as `200.0`); `None`
     * for an object that equals no integer.
     */
    intKey: Value -> Option<int>
  )

  /**
   * `t(v)`: the annotation called as a converter, `None` when the call raises.
   * `str` never fails; `int` parses strings; a model class and `Request`
   * cannot be called with one positional argument; `None` is not callable.
   */
  function Convert(rt: Runtime, t: TypeSpec, v: Value): Option<Value> {
    match t
    case NoneType => None
    case StrType => Some(StrV(Show(v)))
    case IntType => ToInt(rt, v)
    case ModelType(_) => None
    case RequestType => None
    case ResponseType => rt.call("Response", v)
    case OtherType(qualName, _) => rt.call(qualName, v)
  }

  /** `int(v)`. */
  function ToInt(rt: Runtime, v: Value): Option<Value> {
    match v
    case NoneV => None
    case BoolV(b) => Some(IntV(if b then 1 else 0))
    case IntV(_) => Some(v)
    case StrV(s) => (match ParseInt(s) case Some(i) => Some(IntV(i)) case None => None)
    case ModelV(_, _) => None
    case HeadersMarker => None
    case CookiesMarker => None
    case ObjV(_, _) => rt.call("int", v)
  }

  /** `v` is an instance of the class `t` names. */
  predicate IsInstance(v: Value, t: TypeSpec) {
    match t
    case NoneType => false
    case StrType => v.StrV?
    case IntType => v.IntV?
    case ModelType(cls) => v.ModelV? && v.cls == cls
    case RequestType => v.ObjV? && v.cls == "fastpy_rest.requests.Request"
    case ResponseType => v.ObjV? && v.cls == "fastpy_rest.responses.Response"
    case OtherType(qualName, _) => v.ObjV? && v.cls == qualName
  }

  /** For an instance `x` of a class `T`, `str(type(x))` is `str(T)`. */
  lemma InstanceDisplay(v: Value, t: TypeSpec)
    requires IsInstance(v, t)
    ensures TypeName(v) == TypeDisplay(t)
  {
  }

  /** `str` accepts everything, and converting its output again changes nothing. */
  lemma StrConversion(rt: Runtime, v: Value)
    ensures Convert(rt, StrType, v) == Some(StrV(Show(v)))
    ensures Convert(rt, StrType, StrV(Show(v))) == Some(StrV(Show(v)))
  {
  }

  /** `int(str(n)) == n` for every integer. */
  lemma IntConversion(rt: Runtime, n: int)
    ensures Convert(rt, IntType, StrV(IntToString(n))) == Some(IntV(n))
  {
    ParseIntToString(n);
  }

  /** `int` rejects text without digits. */
  lemma IntRejectsNonDigits(rt: Runtime, s: string)
    requires forall k :: 0 <= k < |s| ==> !IsDigit(s[k])
    ensures Convert(rt, IntType, StrV(s)) == None
  {
    ParseIntNeedsDigit(s);
  }
}
