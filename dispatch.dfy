/**
 * `RequestHandler`: the keyword arguments a handler is called with, the
 * check of what it returns against its `return` annotation, the wrapping of
 * a plain result into a reply, and the choice of what is written when
 * something raises (`get_valid_params_dict` and `handle_request`).
 */
module Dispatch {
  import opened Wrappers
  import opened PyStrings
  import opened Json
  import opened OrderedMaps
  import opened Values
  import opened Exceptions
  import opened Params
  import opened Binding
  import opened Routing
  import opened Requests
  import opened Responses

  // ------------------------------------------------------ keyword arguments

  /** A keyword argument: a value, or the request object itself. */
  datatype Arg = Given(v: Value) | TheRequest

  /** Where `get_valid_params_dict` looks a name up. */
  datatype Sources = Sources(merged: OMap<Value>, bodyParam: Option<string>, requestParam: Option<string>, body: Value)

  /** What a `Request` object always satisfies: each container keyed by its entries' names. */
  ghost predicate WellFormed(p: Parsed) {
    Keyed(p.queries, QueryKey) && Keyed(p.headers, HeaderKey) && Keyed(p.jar, CookieKey) && Keyed(p.pathParams, PathKey)
  }

  /** Lines 93-97: `{**path_params.dict(), **queries.dict(), **headers.dict()}`. */
  function Merged(p: Parsed): (r: OMap<Value>)
    requires WellFormed(p)
    ensures r.Valid()
  {
    Merge(Merge(p.pathParams.MapValues(PathValue), p.queries.MapValues(QueryValue)),
          HeadersDict(p.jar.MapValues(CookieValue), p.headers))
  }

  function SourcesOf(p: Parsed): Sources
    requires WellFormed(p)
  {
    Sources(Merged(p), p.info.body, p.info.requestParam, p.body.value)
  }

  /**
   * A header value wins over a query value of the same name, and a query
   * value over a path value; a cookie counts as a header unless a header of
   * its name exists, and the name `cookie` itself never comes from the headers.
   */
  lemma MergedPrecedence(p: Parsed, k: string)
    requires WellFormed(p)
    ensures var hs := k != "cookie" && (k in p.headers.items || k in p.jar.items);
            k in Merged(p).items <==> hs || k in p.queries.items || k in p.pathParams.items
    ensures k != "cookie" && k in p.headers.items ==> Merged(p).items[k] == p.headers.items[k].value
    ensures k != "cookie" && k !in p.headers.items && k in p.jar.items ==> Merged(p).items[k] == p.jar.items[k].value
    ensures (k == "cookie" || (k !in p.headers.items && k !in p.jar.items)) && k in p.queries.items ==>
              Merged(p).items[k] == p.queries.items[k].value
    ensures (k == "cookie" || (k !in p.headers.items && k !in p.jar.items)) && k !in p.queries.items && k in p.pathParams.items ==>
              Merged(p).items[k] == p.pathParams.items[k].value
  {
    HeadersDictContent(p.jar.MapValues(CookieValue), p.headers, k);
  }

  /** Lines 100-109 for one name: the merged map first, then the body parameter, then the request parameter. */
  function ArgFor(s: Sources, name: string): Option<Arg> {
    if name in s.merged.items then Some(Given(s.merged.items[name]))
    else if s.bodyParam == Some(name) then Some(Given(s.body))
    else if s.requestParam == Some(name) then Some(TheRequest)
    else None
  }

  /** An annotated name no source provides; `return` is skipped instead. */
  predicate Missing(s: Sources, name: string) {
    ArgFor(s, name).None? && name != "return"
  }

  /** Line 112: `HttpException(422, f"{varname} not provided.")`. */
  function NotProvided(reasons: map<int, string>, name: string): Failure {
    Raise(reasons, 422, Some(name + " not provided."))
  }

  function ArgStep(reasons: map<int, string>, s: Sources, kwargs: OMap<Arg>, name: string): Result<OMap<Arg>, Failure> {
    match ArgFor(s, name)
    case Some(a) => Success(kwargs.Put(name, a))
    case None => if name == "return" then Success(kwargs) else Failure(NotProvided(reasons, name))
  }

  /** The keyword arguments the loop of lines 99-112 builds over the annotated names. */
  function ValidParams(reasons: map<int, string>, s: Sources, names: seq<string>): Result<OMap<Arg>, Failure>
    decreases |names|
  {
    if names == [] then Success(Empty())
    else
      match ValidParams(reasons, s, names[..|names| - 1])
      case Failure(e) => Failure(e)
      case Success(kwargs) => ArgStep(reasons, s, kwargs, names[|names| - 1])
  }

  lemma ValidParamsStep(reasons: map<int, string>, s: Sources, names: seq<string>, i: nat, kwargs: OMap<Arg>)
    requires i < |names| && ValidParams(reasons, s, names[..i]) == Success(kwargs)
    ensures ValidParams(reasons, s, names[..i + 1]) == ArgStep(reasons, s, kwargs, names[i])
  {
    assert names[..i + 1][..i] == names[..i];
  }

  /** Once a name is missing, the names after it do not matter. */
  lemma {:induction false} ValidParamsStops(reasons: map<int, string>, s: Sources, names: seq<string>, i: nat)
    requires i <= |names| && ValidParams(reasons, s, names[..i]).Failure?
    ensures ValidParams(reasons, s, names) == ValidParams(reasons, s, names[..i])
    decreases |names| - i
  {
    if i < |names| {
      assert names[..i + 1][..i] == names[..i];
      ValidParamsStops(reasons, s, names, i + 1);
    } else {
      assert names[..i] == names;
    }
  }

  /** The arguments are built exactly when no annotated name is missing. */
  lemma {:induction false} ArgsSucceed(reasons: map<int, string>, s: Sources, names: seq<string>)
    ensures ValidParams(reasons, s, names).Success? <==> forall j :: 0 <= j < |names| ==> !Missing(s, names[j])
    decreases |names|
  {
    if names != [] {
      var init := names[..|names| - 1];
      ArgsSucceed(reasons, s, init);
      assert forall j :: 0 <= j < |init| ==> init[j] == names[j];
    }
  }

  /** The first missing name decides the error: a 422 naming it. */
  lemma ArgsFirstMissing(reasons: map<int, string>, s: Sources, names: seq<string>, j: nat)
    requires j < |names| && Missing(s, names[j])
    requires forall i :: 0 <= i < j ==> !Missing(s, names[i])
    ensures ValidParams(reasons, s, names) == Failure(NotProvided(reasons, names[j]))
  {
    var init := names[..j];
    assert forall i :: 0 <= i < |init| ==> init[i] == names[i];
    ArgsSucceed(reasons, s, init);
    var kwargs := ValidParams(reasons, s, init).value;
    ValidParamsStep(reasons, s, names, j, kwargs);
    ValidParamsStops(reasons, s, names, j + 1);
  }

  /**
   * The arguments hold exactly the annotated names some source provides
   * (every name but `return` when the call is made at all), each with the
   * value of the first source that has it.
   */
  lemma {:induction false} ArgsContent(reasons: map<int, string>, s: Sources, names: seq<string>, k: string)
    requires ValidParams(reasons, s, names).Success?
    ensures var kwargs := ValidParams(reasons, s, names).value;
            && kwargs.Valid()
            && (k in kwargs.items <==> k in names && ArgFor(s, k).Some?)
            && (k in kwargs.items ==> kwargs.items[k] == ArgFor(s, k).value)
            && (k in names && k != "return" ==> k in kwargs.items)
    decreases |names|
  {
    ArgsSucceed(reasons, s, names);
    if names != [] {
      var init := names[..|names| - 1];
      var last := names[|names| - 1];
      assert names == init + [last];
      ArgsContent(reasons, s, init, k);
      if k in names && k != "return" {
        var j :| 0 <= j < |names| && names[j] == k;
        assert !Missing(s, names[j]);
      }
    }
  }

  /** `RequestHandler.get_valid_params_dict(request)`. */
  method GetValidParamsDict(rt: Runtime, request: Request) returns (r: Result<OMap<Arg>, Failure>)
    requires request.Valid()
    ensures WellFormed(request.Snapshot())
    ensures r == ValidParams(rt.reasons, SourcesOf(request.Snapshot()), request.Params())
  {
    var pathDict := request.pathParams.Dict();
    var queryDict := request.queries.Dict();
    var headerDict := request.headers.Dict();
    var merged := Merge(Merge(pathDict, queryDict), headerDict);
    var s := Sources(merged, request.BodyParam(), request.RequestParam(), request.body.value);
    assert s == SourcesOf(request.Snapshot());
    r := CollectArgs(rt.reasons, s, request.Params());
  }

  /** The loop of lines 99-112: each annotated name looked up in the sources, in order. */
  method CollectArgs(reasons: map<int, string>, s: Sources, names: seq<string>) returns (r: Result<OMap<Arg>, Failure>)
    ensures r == ValidParams(reasons, s, names)
  {
    var kwargs := Empty();
    for i := 0 to |names|
      invariant ValidParams(reasons, s, names[..i]) == Success(kwargs)
    {
      ValidParamsStep(reasons, s, names, i, kwargs);
      var name := names[i];
      if name in s.merged.items {
        kwargs := kwargs.Put(name, Given(s.merged.items[name]));
      } else if Some(name) == s.bodyParam {
        kwargs := kwargs.Put(name, Given(s.body));
      } else if Some(name) == s.requestParam {
        kwargs := kwargs.Put(name, TheRequest);
      } else if name != "return" {
        ValidParamsStops(reasons, s, names, i + 1);
        return Failure(NotProvided(reasons, name));
      }
    }
    assert names[..|names|] == names;
    r := Success(kwargs);
  }

  // ------------------------------------------------------- return coercion

  /** What a handler gives back: a plain value, or a `Response` built from these arguments. */
  datatype Returned =
    | Plain(v: Value)
    | Reply(status: Value, headers: seq<HeaderParam>, cookies: seq<Cookie>, body: Option<Body>)

  /** A `Response` object seen as a plain value (`str(type(res))`, `T(res)` for an open `T`). */
  const ResponseObject: Value := ObjV("fastpy_rest.responses.Response", "")

  /** `type(res)`. */
  function ResultType(res: Returned): string {
    match res
    case Plain(v) => TypeName(v)
    case Reply(_, _, _, _) => TypeName(ResponseObject)
  }

  /** The detail of the 500 raised when the result does not fit the annotation. */
  function Mismatch(t: TypeSpec, res: Returned): string {
    "Return type could not be verified. Expected " + TypeDisplay(t) + ", Found " + ResultType(res)
  }

  /** `str(res)` of a `Response` result; `None` where it raises. */
  function ReplyString(rt: Runtime, res: Returned): Option<string>
    requires res.Reply?
  {
    ResponseText(rt, res.status, Collect(res.headers, HeaderKey).Values(), Collect(res.cookies, CookieKey).Values(), res.body)
  }

  /** `M.model_validate_json(res)` for a string, `M.model_validate(res)` otherwise (lines 132-135). */
  function ValidateModel(rt: Runtime, cls: string, v: Value): Option<Value> {
    if v.StrV? then
      match rt.validateJson(cls, v)
      case Success(m) => Some(m)
      case Failure(_) => None
    else rt.validate(cls, v)
  }

  /** Lines 123-147: the result checked against, or converted by, the `return` annotation. */
  function CoerceReturn(rt: Runtime, ret: Option<TypeSpec>, res: Returned): (r: Result<Returned, Failure>)
    ensures ret.None? ==> r == Success(res)
    ensures ret == Some(NoneType) ==> r.Failure?
    ensures ret == Some(NoneType) && res == Plain(NoneV) ==> r == Failure(Uncaught(TypeError))
    ensures r.Failure? && !(ret == Some(NoneType) && res == Plain(NoneV)) ==>
              r == Failure(Raise(rt.reasons, 500, Some(Mismatch(ret.value, res))))
    ensures ret.Some? && ret.value.ModelType? && res.Plain? && res.v.ModelV? && res.v.cls == ret.value.cls ==>
              r == Success(res)
    ensures ret.Some? && ret.value.ModelType? && r.Success? && r != Success(res) ==>
              res.Plain? && r.value.Plain? && ValidateModel(rt, ret.value.cls, res.v) == Some(r.value.v)
    ensures ret.Some? && ret.value.ModelType? && res.Plain? && !(res.v.ModelV? && res.v.cls == ret.value.cls) ==>
              (r.Success? <==> ValidateModel(rt, ret.value.cls, res.v).Some?)
    ensures ret == Some(ResponseType) ==>
              r.Success? && r.value.Reply? && r.value.headers == [] && r.value.cookies == [] && r.value.body.None?
    // `Response(res)`: a plain result becomes the status, a reply is wrapped whole
    ensures ret == Some(ResponseType) && res.Plain? ==> r.value.status == res.v
    ensures ret == Some(ResponseType) && res.Reply? ==> r.value.status == ResponseObject
    // `T(res)` for `str`, `int` and any other class
    ensures ret.Some? && res.Plain? && !ret.value.NoneType? && !ret.value.ModelType? && !ret.value.ResponseType? ==>
              && (r.Success? <==> Convert(rt, ret.value, res.v).Some?)
              && (r.Success? ==> r == Success(Plain(Convert(rt, ret.value, res.v).value)))
    // `str(res)` of a reply is its wire text; another class is called on the object
    ensures ret == Some(StrType) && res.Reply? ==>
              && (r.Success? <==> ReplyString(rt, res).Some?)
              && (r.Success? ==> r == Success(Plain(StrV(ReplyString(rt, res).value))))
    ensures ret.Some? && ret.value.OtherType? && res.Reply? ==>
              && (r.Success? <==> rt.call(ret.value.qualName, ResponseObject).Some?)
              && (r.Success? ==> r == Success(Plain(rt.call(ret.value.qualName, ResponseObject).value)))
    ensures ret.Some? && res.Reply? && (ret.value.IntType? || ret.value.ModelType? || ret.value.RequestType?) ==> r.Failure?
  {
    match ret
    case None => Success(res)
    case Some(t) =>
      var mismatch := Failure(Raise(rt.reasons, 500, Some(Mismatch(t, res))));
      match res
      case Plain(v) =>
        (match t
         case NoneType => if v.NoneV? then Failure(Uncaught(TypeError)) else mismatch
         case ModelType(cls) =>
           if v.ModelV? && v.cls == cls then Success(res)
           else
             (match ValidateModel(rt, cls, v)
              case Some(m) => Success(Plain(m))
              case None => mismatch)
         case ResponseType => Success(Reply(v, [], [], None))
         case _ =>
           (match Convert(rt, t, v)
            case Some(w) => Success(Plain(w))
            case None => mismatch))
      case Reply(_, _, _, _) =>
        (match t
         case ResponseType => Success(Reply(ResponseObject, [], [], None))
         case StrType =>
           (match ReplyString(rt, res)
            case Some(text) => Success(Plain(StrV(text)))
            case None => mismatch)
         case OtherType(qualName, _) =>
           (match rt.call(qualName, ResponseObject)
            case Some(w) => Success(Plain(w))
            case None => mismatch)
         case _ => mismatch)
  }

  /** The branches of lines 123-147, reassigning the result as they go. */
  method CheckReturn(rt: Runtime, ret: Option<TypeSpec>, res: Returned) returns (r: Result<Returned, Failure>)
    ensures r == CoerceReturn(rt, ret, res)
  {
    if ret.None? {
      return Success(res);
    }
    var t := ret.value;
    var mismatch := Failure(Raise(rt.reasons, 500, Some(Mismatch(t, res))));
    var out := res;
    if t == NoneType {
      if res != Plain(NoneV) {
        return mismatch;
      }
      return Failure(Uncaught(TypeError));
    } else if t.ModelType? {
      if res.Reply? {
        return mismatch;
      }
      if !(res.v.ModelV? && res.v.cls == t.cls) {
        var m := ValidateModel(rt, t.cls, res.v);
        if m.None? {
          return mismatch;
        }
        out := Plain(m.value);
      }
    } else if t == ResponseType {
      out := if res.Plain? then Reply(res.v, [], [], None) else Reply(ResponseObject, [], [], None);
    } else if res.Plain? {
      var w := Convert(rt, t, res.v);
      if w.None? {
        return mismatch;
      }
      out := Plain(w.value);
    } else if t == StrType {
      var text := ReplyString(rt, res);
      if text.None? {
        return mismatch;
      }
      out := Plain(StrV(text.value));
    } else if t.OtherType? {
      var w := rt.call(t.qualName, ResponseObject);
      if w.None? {
        return mismatch;
      }
      out := Plain(w.value);
    } else {
      return mismatch;
    }
    r := Success(out);
  }

  // ------------------------------------------------------ what is written

  const JsonContentType: HeaderParam := HeaderParam("Content-Type", StrV("Application/Json"))

  /** Lines 148-154: a result that is not a `Response` becomes a 200 reply holding it. */
  function Wrapped(res: Returned): (r: Returned)
    ensures r.Reply?
    ensures res.Reply? ==> r == res
  {
    match res
    case Plain(v) => Reply(IntV(200), [JsonContentType], [], Some(Body(v)))
    case Reply(_, _, _, _) => res
  }

  /** `res.write_to_stream(writer)` for a reply. */
  function ReplyText(rt: Runtime, res: Returned): string
    requires res.Reply?
  {
    WriteText(rt, res.status, Collect(res.headers, HeaderKey).Values(), Collect(res.cookies, CookieKey).Values(), res.body)
  }

  /** Lines 155-162: a raised `HttpException` is the reply; any other exception ends in `Response(500)`. */
  function Handled(rt: Runtime, f: Failure): string {
    match f
    case Http(e) => WriteException(rt.reasons, e)
    case Uncaught(_) => WriteText(rt, IntV(500), [], [], None)
  }

  /** Everything after `load_from_reader`, for a parsed request and a handler. */
  function Dispatched(rt: Runtime, p: Parsed, invoke: (HandlerId, OMap<Arg>, Parsed) -> Result<Returned, Failure>): string
    requires WellFormed(p)
  {
    match ValidParams(rt.reasons, SourcesOf(p), p.info.varTypes.keys)
    case Failure(f) => Handled(rt, f)
    case Success(kwargs) =>
      match invoke(p.info.handler, kwargs, p)
      case Failure(f) => Handled(rt, f)
      case Success(res) =>
        match CoerceReturn(rt, p.info.varTypes.Get("return"), res)
        case Failure(f) => Handled(rt, f)
        case Success(checked) => ReplyText(rt, Wrapped(checked))
  }

  /**
   * A plain result is written as a 200 reply whose only header line is
   * `Content-Type: Application/Json`, followed by the result's body text.
   */
  lemma PlainReply(rt: Runtime, v: Value)
    requires 200 in rt.reasons && BodyText(rt, Body(v)).Some?
    ensures ReplyText(rt, Wrapped(Plain(v)))
            == StatusLine("200", rt.reasons[200]) + "Content-Type: Application/Json\r\n" + "\r\n" + BodyText(rt, Body(v)).value
  {
    var body := BodyText(rt, Body(v)).value;
    SingleHeader(JsonContentType);
    assert Collect([], CookieKey).Values() == [];
    assert ReplyText(rt, Wrapped(Plain(v))) == WriteText(rt, IntV(200), [JsonContentType], [], Some(Body(v)));
    ShowTwoHundred();
    var status := StatusLine("200", rt.reasons[200]);
    JsonHeadText();
    var head := "Content-Type: Application/Json\r\n";
    assert ResponseText(rt, IntV(200), [JsonContentType], [], Some(Body(v))) == Some(status + head + "\r\n" + body);
  }

  lemma JsonHeadText()
    ensures HeadersText([JsonContentType], []) == "Content-Type: Application/Json\r\n"
  {
    var line := "Content-Type: Application/Json";
    assert JsonContentType.name + ": " + Show(JsonContentType.value) == line;
    assert HeaderLines([JsonContentType]) == [line];
    assert [line][..0] == [];
    assert Terminated([line], "\r\n") == Terminated([], "\r\n") + line + "\r\n";
    assert CookieLines([]) == [];
  }

  lemma SingleHeader(h: HeaderParam)
    ensures Collect([h], HeaderKey).Values() == [h]
  {
    assert [h][..0] == [];
    assert Collect([], HeaderKey) == Empty();
    var c := Collect([h], HeaderKey);
    assert c == Empty<HeaderParam>().Put(h.name, h);
    assert c.keys == [h.name];
  }


  /**
   * Any exception other than `HttpException` is written as `Response(500)`:
   * the 500 status line, no header, and the body text `None`; without 500 in
   * the table, the fallback line.
   */
  lemma UncaughtReply(rt: Runtime, k: ErrorKind)
    ensures 500 in rt.reasons ==> Handled(rt, Uncaught(k)) == "HTTP/1.1 500 " + rt.reasons[500] + "\r\n\r\nNone"
    ensures 500 !in rt.reasons ==> Handled(rt, Uncaught(k)) == FallbackLine
  {
    assert Terminated(HeaderLines([]), "\r\n") == "" && Terminated(CookieLines([]), "\r\n") == "";
    assert Show(IntV(500)) == "500" by {
      assert NatToString(5) == "5";
      assert NatToString(50) == NatToString(5) + [DigitChar(0)];
      assert NatToString(500) == NatToString(50) + [DigitChar(0)];
    }
  }

  /**
   * When an annotated name is missing, the handler is never called: the
   * reply is the 422 naming the first missing name, whatever the handler.
   */
  lemma MissingArgument(rt: Runtime, p: Parsed, invoke: (HandlerId, OMap<Arg>, Parsed) -> Result<Returned, Failure>, j: nat)
    requires WellFormed(p)
    requires j < |p.info.varTypes.keys| && Missing(SourcesOf(p), p.info.varTypes.keys[j])
    requires forall i :: 0 <= i < j ==> !Missing(SourcesOf(p), p.info.varTypes.keys[i])
    ensures Dispatched(rt, p, invoke) == Handled(rt, NotProvided(rt.reasons, p.info.varTypes.keys[j]))
    ensures 422 in rt.reasons ==>
              Dispatched(rt, p, invoke)
              == StatusLine(IntToString(422), rt.reasons[422]) + "\r\n" + DetailJson(Some(p.info.varTypes.keys[j] + " not provided."))
  {
    ArgsFirstMissing(rt.reasons, SourcesOf(p), p.info.varTypes.keys, j);
  }

  /**
   * As written, a handler annotated `-> None` that returns `None` reaches
   * `issubclass(None, BaseModel)`, which raises, so the reply is the generic
   * 500 rather than the result.
   */
  lemma DeclaredNoneReturnsNone(rt: Runtime, p: Parsed, invoke: (HandlerId, OMap<Arg>, Parsed) -> Result<Returned, Failure>, kwargs: OMap<Arg>)
    requires WellFormed(p)
    requires ValidParams(rt.reasons, SourcesOf(p), p.info.varTypes.keys) == Success(kwargs)
    requires invoke(p.info.handler, kwargs, p) == Success(Plain(NoneV))
    requires "return" in p.info.varTypes.items && p.info.varTypes.items["return"] == NoneType
    ensures Dispatched(rt, p, invoke) == WriteText(rt, IntV(500), [], [], None)
  {
    assert p.info.varTypes.Get("return") == Some(NoneType);
    CoercionFails(rt, p, invoke, kwargs, Plain(NoneV), Uncaught(TypeError));
    UncaughtIsGeneric(rt, TypeError);
  }

  /** Anything uncaught is written as the bare 500 reply. */
  lemma UncaughtIsGeneric(rt: Runtime, e: ErrorKind)
    ensures Handled(rt, Uncaught(e)) == WriteText(rt, IntV(500), [], [], None)
  {
  }

  /** A call whose result the annotation rejects is answered as the failure is handled. */
  lemma CoercionFails(rt: Runtime, p: Parsed, invoke: (HandlerId, OMap<Arg>, Parsed) -> Result<Returned, Failure>,
                      kwargs: OMap<Arg>, res: Returned, f: Failure)
    requires WellFormed(p)
    requires ValidParams(rt.reasons, SourcesOf(p), p.info.varTypes.keys) == Success(kwargs)
    requires invoke(p.info.handler, kwargs, p) == Success(res)
    requires CoerceReturn(rt, p.info.varTypes.Get("return"), res) == Failure(f)
    ensures Dispatched(rt, p, invoke) == Handled(rt, f)
  {
  }

  /** Without a `return` annotation, whatever the handler gives back is written unchecked. */
  lemma UncheckedReturn(rt: Runtime, p: Parsed, invoke: (HandlerId, OMap<Arg>, Parsed) -> Result<Returned, Failure>, kwargs: OMap<Arg>, res: Returned)
    requires WellFormed(p)
    requires ValidParams(rt.reasons, SourcesOf(p), p.info.varTypes.keys) == Success(kwargs)
    requires invoke(p.info.handler, kwargs, p) == Success(res)
    requires "return" !in p.info.varTypes.items
    ensures Dispatched(rt, p, invoke) == ReplyText(rt, Wrapped(res))
  {
  }

  // --------------------------------------------------------------- handler

  /** `RequestHandler.handle_request(reader, writer)`: the text written for the wire. */
  method HandleRequest(rt: Runtime, all: MethodWisePathsInfo, wire: Wire,
                       invoke: (HandlerId, OMap<Arg>, Parsed) -> Result<Returned, Failure>) returns (out: string)
    requires all.Valid()
    ensures ParseRequest(rt, Tables(all), wire).Failure? ==> out == Handled(rt, ParseRequest(rt, Tables(all), wire).error)
    ensures ParseRequest(rt, Tables(all), wire).Success? ==>
              WellFormed(ParseRequest(rt, Tables(all), wire).value)
              && out == Dispatched(rt, ParseRequest(rt, Tables(all), wire).value, invoke)
  {
    var loaded := LoadFromReader(rt, all, wire);
    out := Finish(rt, loaded, invoke);
  }

  /** Lines 155-162 around the rest: a failed load is written as what it raised. */
  method Finish(rt: Runtime, loaded: Result<Request, Failure>,
                invoke: (HandlerId, OMap<Arg>, Parsed) -> Result<Returned, Failure>) returns (out: string)
    requires loaded.Success? ==> loaded.value.Valid()
    ensures loaded.Failure? ==> out == Handled(rt, loaded.error)
    ensures loaded.Success? ==> WellFormed(loaded.value.Snapshot()) && out == Dispatched(rt, loaded.value.Snapshot(), invoke)
  {
    if loaded.Failure? {
      out := WriteFailure(rt, loaded.error);
    } else {
      out := CallHandler(rt, loaded.value, invoke);
    }
  }

  /** Lines 117-154: the arguments, the call, the return check and the wrapping. */
  method CallHandler(rt: Runtime, request: Request,
                     invoke: (HandlerId, OMap<Arg>, Parsed) -> Result<Returned, Failure>) returns (out: string)
    requires request.Valid()
    ensures WellFormed(request.Snapshot()) && out == Dispatched(rt, request.Snapshot(), invoke)
  {
    var kwargs := GetValidParamsDict(rt, request);
    if kwargs.Failure? {
      out := WriteFailure(rt, kwargs.error);
      return;
    }
    var res := invoke(request.Handler(), kwargs.value, request.Snapshot());
    if res.Failure? {
      out := WriteFailure(rt, res.error);
      return;
    }
    var checked := CheckReturn(rt, request.Annotations().Get("return"), res.value);
    if checked.Failure? {
      out := WriteFailure(rt, checked.error);
      return;
    }
    out := WriteReply(rt, Wrapped(checked.value));
  }

  /** `res.write_to_stream(writer)` for a reply: the `Response` it is, written. */
  method WriteReply(rt: Runtime, reply: Returned) returns (out: string)
    requires reply.Reply?
    ensures out == ReplyText(rt, reply)
  {
    var jar := new Cookies(reply.cookies);
    var headers := new Headers(jar, reply.headers);
    var response := new Response(reply.status, headers, reply.body);
    out := response.Write(rt);
  }

  /** Lines 155-162: what is written once the request has raised `f`. */
  method WriteFailure(rt: Runtime, f: Failure) returns (out: string)
    ensures out == Handled(rt, f)
  {
    if f.Http? {
      out := WriteException(rt.reasons, f.exc);
    } else {
      var response := new Response(IntV(500), null, None);
      out := response.Write(rt);
      assert response.headers.headerParams.Values() == [] && response.headers.cookies.params.Values() == [];
    }
  }
}
