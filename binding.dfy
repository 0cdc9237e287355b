/**
 * `PathInfo`: what registration records about one route, and its `verify_*`
 * methods, which check a request's raw path segments, query pairs, headers,
 * cookies and body against the handler's declared parameters and convert them.
 */
module Binding {
  import opened Wrappers
  import opened PyStrings
  import opened OrderedMaps
  import opened Values
  import opened Exceptions
  import opened Params

  /** Which handler a route calls; the handler itself is outside the model. */
  type HandlerId = nat

  /**
   * A route descriptor. The Python sets of names are sequences here: the
   * order in which the code iterates a set is the order of the sequence.
   */
  datatype PathInfo = PathInfo(
    route: string,
    handler: HandlerId,
    pathParams: seq<string>,
    queryParams: seq<string>,
    headers: seq<string>,
    cookies: seq<string>,
    defaults: OMap<Value>,
    varTypes: OMap<TypeSpec>,
    body: Option<string>,
    responseModel: Option<TypeSpec>,
    requestParam: Option<string>)

  /** The sets of a descriptor are sets: no name is listed twice. */
  predicate SetsAreSets(p: PathInfo) {
    Distinct(p.pathParams) && Distinct(p.queryParams) && Distinct(p.headers) && Distinct(p.cookies)
  }

  /** The 422 detail for a value a converter rejects. */
  function MismatchMessage(name: string, t: TypeSpec, v: Value): string {
    name + ", Expected type " + TypeDisplay(t) + ", Found " + TypeName(v) + ". Value " + Show(v)
  }

  function Mismatch(rt: Runtime, name: string, t: TypeSpec, v: Value): Failure {
    Raise(rt.reasons, 422, Some(MismatchMessage(name, t, v)))
  }

  /** Steps run in order: all their values, or the failure of the first step that fails. */
  function AllOrFirst<T>(rs: seq<Result<T, Failure>>): Result<seq<T>, Failure>
    decreases |rs|
  {
    if rs == [] then Success([])
    else
      var last := rs[|rs| - 1];
      match AllOrFirst(rs[..|rs| - 1])
      case Failure(e) => Failure(e)
      case Success(vs) => if last.Failure? then Failure(last.error) else Success(vs + [last.value])
  }

  lemma {:induction false} AllOrFirstSuccess<T>(rs: seq<Result<T, Failure>>)
    ensures AllOrFirst(rs).Success? <==> forall k :: 0 <= k < |rs| ==> rs[k].Success?
    ensures AllOrFirst(rs).Success? ==>
              && |AllOrFirst(rs).value| == |rs|
              && forall k :: 0 <= k < |rs| ==> AllOrFirst(rs).value[k] == rs[k].value
    decreases |rs|
  {
    if rs != [] {
      var n := |rs| - 1;
      AllOrFirstSuccess(rs[..n]);
      assert forall k :: 0 <= k < n ==> rs[..n][k] == rs[k];
    }
  }

  lemma {:induction false} AllOrFirstFailure<T>(rs: seq<Result<T, Failure>>)
    requires AllOrFirst(rs).Failure?
    ensures exists k :: 0 <= k < |rs| && rs[k] == Failure(AllOrFirst(rs).error)
                        && forall j :: 0 <= j < k ==> rs[j].Success?
    decreases |rs|
  {
    var n := |rs| - 1;
    var init := rs[..n];
    if AllOrFirst(init).Failure? {
      AllOrFirstFailure(init);
      var k :| 0 <= k < n && init[k] == Failure(AllOrFirst(init).error)
               && forall j :: 0 <= j < k ==> init[j].Success?;
      assert rs[k] == init[k];
      assert forall j :: 0 <= j < k ==> rs[j] == init[j];
    } else {
      AllOrFirstSuccess(init);
      assert forall j :: 0 <= j < n ==> rs[j] == init[j];
    }
  }

  /** Once a prefix of the steps has failed, the later steps change nothing. */
  lemma {:induction false} AllOrFirstStops<T>(rs: seq<Result<T, Failure>>, i: nat)
    requires i <= |rs| && AllOrFirst(rs[..i]).Failure?
    ensures AllOrFirst(rs) == AllOrFirst(rs[..i])
    decreases |rs| - i
  {
    if i < |rs| {
      var n := |rs| - 1;
      assert rs[..n][..i] == rs[..i];
      AllOrFirstStops(rs[..n], i);
    } else {
      assert rs[..i] == rs;
    }
  }

  lemma AllOrFirstStep<T>(rs: seq<Result<T, Failure>>, i: nat, done: seq<T>)
    requires i < |rs| && AllOrFirst(rs[..i]) == Success(done)
    ensures rs[i].Failure? ==> AllOrFirst(rs) == Failure(rs[i].error)
    ensures rs[i].Success? ==> AllOrFirst(rs[..i + 1]) == Success(done + [rs[i].value])
  {
    assert rs[..i + 1][..i] == rs[..i];
    if rs[i].Failure? {
      AllOrFirstStops(rs, i + 1);
    }
  }

  // ---------------------------------------------------------------- path

  /** Converting the `k`-th pair of `zip(path_params, args)`. */
  function PathItem(rt: Runtime, p: PathInfo, args: seq<string>, k: nat): Result<PathParam, Failure>
    requires k < |p.pathParams| && k < |args|
  {
    var name, segment := p.pathParams[k], args[k];
    if name !in p.varTypes.items then Failure(Uncaught(KeyError))
    else
      var t := p.varTypes.items[name];
      match Convert(rt, t, StrV(segment))
      case None => Failure(Mismatch(rt, name, t, StrV(segment)))
      case Some(v) => Success(PathParam(name, v))
  }

  function Min(a: nat, b: nat): nat { if a < b then a else b }

  function PathItems(rt: Runtime, p: PathInfo, args: seq<string>): (r: seq<Result<PathParam, Failure>>)
    ensures |r| == Min(|p.pathParams|, |args|)
  {
    seq(Min(|p.pathParams|, |args|), k requires 0 <= k < Min(|p.pathParams|, |args|) => PathItem(rt, p, args, k))
  }

  /** The path parameters `verify_path_params(*args)` stores, in the order it stores them. */
  function VerifiedPath(rt: Runtime, p: PathInfo, args: seq<string>): Result<seq<PathParam>, Failure> {
    AllOrFirst(PathItems(rt, p, args))
  }

  /** `path_info.verify_path_params(*args)`. */
  method VerifyPathParams(rt: Runtime, p: PathInfo, args: seq<string>) returns (r: Result<PathList, Failure>)
    ensures r.Success? <==> VerifiedPath(rt, p, args).Success?
    ensures r.Success? ==> fresh(r.value) && r.value.Valid() && r.value.pathParams == Collect(VerifiedPath(rt, p, args).value, PathKey)
    ensures r.Failure? ==> r.error == VerifiedPath(rt, p, args).error
  {
    var items := PathItems(rt, p, args);
    var path := new PathList([]);
    ghost var done: seq<PathParam> := [];
    var i := 0;
    while i < |items|
      invariant 0 <= i <= |items|
      invariant path.Valid() && AllOrFirst(items[..i]) == Success(done)
      invariant path.pathParams == Collect(done, PathKey)
    {
      AllOrFirstStep(items, i, done);
      var name := p.pathParams[i];
      if name !in p.varTypes.items {
        return Failure(Uncaught(KeyError));
      }
      var v := Convert(rt, p.varTypes.items[name], StrV(args[i]));
      if v.None? {
        return Failure(Mismatch(rt, name, p.varTypes.items[name], StrV(args[i])));
      }
      path.AddPath(name, v.value);
      assert (done + [PathParam(name, v.value)])[..|done|] == done;
      done := done + [PathParam(name, v.value)];
      i := i + 1;
    }
    assert items[..i] == items;
    r := Success(path);
  }

  /**
   * Each (name, segment) pair of the zip is stored converted, and a segment
   * the name's converter rejects fails the call with that name's mismatch.
   */
  lemma PathVerification(rt: Runtime, p: PathInfo, args: seq<string>)
    ensures var r := VerifiedPath(rt, p, args);
            var n := Min(|p.pathParams|, |args|);
            && (r.Success? <==> forall k :: 0 <= k < n ==>
                  p.pathParams[k] in p.varTypes.items
                  && Convert(rt, p.varTypes.items[p.pathParams[k]], StrV(args[k])).Some?)
            && (r.Success? ==> |r.value| == n && forall k :: 0 <= k < n ==>
                  r.value[k] == PathParam(p.pathParams[k], Convert(rt, p.varTypes.items[p.pathParams[k]], StrV(args[k])).value))
  {
    var items := PathItems(rt, p, args);
    var n := |items|;
    AllOrFirstSuccess(items);
    forall k | 0 <= k < n
      ensures items[k].Success? <==>
                (p.pathParams[k] in p.varTypes.items && Convert(rt, p.varTypes.items[p.pathParams[k]], StrV(args[k])).Some?)
      ensures items[k].Success? ==>
                items[k].value == PathParam(p.pathParams[k], Convert(rt, p.varTypes.items[p.pathParams[k]], StrV(args[k])).value)
    {
      assert items[k] == PathItem(rt, p, args, k);
    }
  }

  /** A failure is the raw `KeyError` of an unannotated name or the mismatch of the first rejected segment. */
  lemma PathFailure(rt: Runtime, p: PathInfo, args: seq<string>)
    requires VerifiedPath(rt, p, args).Failure?
    ensures exists k :: 0 <= k < Min(|p.pathParams|, |args|) && (
              || (p.pathParams[k] !in p.varTypes.items && VerifiedPath(rt, p, args).error == Uncaught(KeyError))
              || (p.pathParams[k] in p.varTypes.items
                  && VerifiedPath(rt, p, args).error == Mismatch(rt, p.pathParams[k], p.varTypes.items[p.pathParams[k]], StrV(args[k]))))
  {
    var items := PathItems(rt, p, args);
    AllOrFirstFailure(items);
    var k :| 0 <= k < |items| && items[k] == Failure(AllOrFirst(items).error)
             && forall j :: 0 <= j < k ==> items[j].Success?;
    var name := p.pathParams[k];
    assert items[k] == PathItem(rt, p, args, k);
    if name in p.varTypes.items {
      assert Convert(rt, p.varTypes.items[name], StrV(args[k])).None?;
    }
  }

  // --------------------------------------------------------------- query

  /** Checking and converting the declared query `q` (lines 58-70). */
  function QueryItem(rt: Runtime, p: PathInfo, kwargs: OMap<string>, q: string): Result<Query, Failure> {
    if q !in kwargs.items && q in p.defaults.items then
      Failure(Raise(rt.reasons, 422, Some(q + " not given in query params.")))
    else if q !in p.varTypes.items then Failure(Uncaught(KeyError))
    else if q !in kwargs.items then Failure(Uncaught(KeyError))
    else
      var t, v := p.varTypes.items[q], StrV(kwargs.items[q]);
      match Convert(rt, t, v)
      case None => Failure(Mismatch(rt, q, t, v))
      case Some(c) => Success(Query(q, c, true))
  }

  function QueryItems(rt: Runtime, p: PathInfo, kwargs: OMap<string>): (r: seq<Result<Query, Failure>>)
    ensures |r| == |p.queryParams|
  {
    seq(|p.queryParams|, k requires 0 <= k < |p.queryParams| => QueryItem(rt, p, kwargs, p.queryParams[k]))
  }

  /** The input pairs whose names are not declared, as undeclared queries, in input order. */
  function ExtraQueries(declared: seq<string>, kwargs: OMap<string>, ks: seq<string>): (xs: seq<Query>)
    requires forall k :: k in ks ==> k in kwargs.items
    ensures forall e :: 0 <= e < |xs| ==> xs[e].name in ks && xs[e].name !in declared
    ensures forall e :: 0 <= e < |xs| ==> xs[e] == Query(xs[e].name, StrV(kwargs.items[xs[e].name]), false)
    decreases |ks|
  {
    if ks == [] then []
    else
      var init, k := ks[..|ks| - 1], ks[|ks| - 1];
      ExtraQueries(declared, kwargs, init) + (if k in declared then [] else [Query(k, StrV(kwargs.items[k]), false)])
  }

  lemma ExtraQueriesStep(declared: seq<string>, kwargs: OMap<string>, ks: seq<string>, j: nat)
    requires j < |ks| && forall k :: k in ks ==> k in kwargs.items
    ensures forall k :: k in ks[..j + 1] ==> k in kwargs.items
    ensures forall k :: k in ks[..j] ==> k in kwargs.items
    ensures ExtraQueries(declared, kwargs, ks[..j + 1]) == ExtraQueries(declared, kwargs, ks[..j])
              + (if ks[j] in declared then [] else [Query(ks[j], StrV(kwargs.items[ks[j]]), false)])
  {
    assert ks[..j + 1][..j] == ks[..j];
  }

  /** The queries `verify_query_params(**kwargs)` stores, in the order it stores them. */
  function VerifiedQuery(rt: Runtime, p: PathInfo, kwargs: OMap<string>): Result<seq<Query>, Failure>
    requires kwargs.Valid()
  {
    match AllOrFirst(QueryItems(rt, p, kwargs))
    case Failure(e) => Failure(e)
    case Success(declared) => Success(declared + ExtraQueries(p.queryParams, kwargs, kwargs.keys))
  }

  /** `path_info.verify_query_params(**kwargs)`. */
  method VerifyQueryParams(rt: Runtime, p: PathInfo, kwargs: OMap<string>) returns (r: Result<QueryList, Failure>)
    requires kwargs.Valid()
    ensures r.Success? <==> VerifiedQuery(rt, p, kwargs).Success?
    ensures r.Success? ==> fresh(r.value) && r.value.Valid() && r.value.queries == Collect(VerifiedQuery(rt, p, kwargs).value, QueryKey)
    ensures r.Failure? ==> r.error == VerifiedQuery(rt, p, kwargs).error
  {
    var items := QueryItems(rt, p, kwargs);
    var list := new QueryList([]);
    ghost var done: seq<Query> := [];
    var i := 0;
    while i < |items|
      invariant 0 <= i <= |items|
      invariant list.Valid() && AllOrFirst(items[..i]) == Success(done)
      invariant list.queries == Collect(done, QueryKey)
    {
      AllOrFirstStep(items, i, done);
      var q := p.queryParams[i];
      if q !in kwargs.items && q in p.defaults.items {
        return Failure(Raise(rt.reasons, 422, Some(q + " not given in query params.")));
      }
      if q !in p.varTypes.items || q !in kwargs.items {
        return Failure(Uncaught(KeyError));
      }
      var v := StrV(kwargs.items[q]);
      var c := Convert(rt, p.varTypes.items[q], v);
      if c.None? {
        return Failure(Mismatch(rt, q, p.varTypes.items[q], v));
      }
      list.AddQuery(q, c.value, true);
      assert (done + [Query(q, c.value, true)])[..|done|] == done;
      done := done + [Query(q, c.value, true)];
      i := i + 1;
    }
    assert items[..i] == items;
    AddExtraQueries(list, p.queryParams, kwargs, done);
    r := Success(list);
  }

  /** The loop of `verify_query_params` over the undeclared input names. */
  method AddExtraQueries(list: QueryList, declared: seq<string>, kwargs: OMap<string>, ghost before: seq<Query>)
    requires kwargs.Valid() && list.Valid() && list.queries == Collect(before, QueryKey)
    modifies list
    ensures list.Valid() && list.queries == Collect(before + ExtraQueries(declared, kwargs, kwargs.keys), QueryKey)
  {
    ghost var acc := before;
    var j := 0;
    while j < |kwargs.keys|
      invariant 0 <= j <= |kwargs.keys|
      invariant list.Valid() && list.queries == Collect(acc, QueryKey)
      invariant acc == before + ExtraQueries(declared, kwargs, kwargs.keys[..j])
    {
      var k := kwargs.keys[j];
      ExtraAccumulates(declared, kwargs, j, before, acc);
      if k !in declared {
        var x := Query(k, StrV(kwargs.items[k]), false);
        CollectSnoc(acc, x, QueryKey);
        list.AddQuery(k, StrV(kwargs.items[k]), false);
        acc := acc + [x];
      }
      j := j + 1;
    }
    assert kwargs.keys[..j] == kwargs.keys;
  }

  lemma ExtraAccumulates(declared: seq<string>, kwargs: OMap<string>, j: nat, before: seq<Query>, acc: seq<Query>)
    requires kwargs.Valid() && j < |kwargs.keys|
    requires acc == before + ExtraQueries(declared, kwargs, kwargs.keys[..j])
    ensures var k := kwargs.keys[j];
            && (k !in declared ==> acc + [Query(k, StrV(kwargs.items[k]), false)] == before + ExtraQueries(declared, kwargs, kwargs.keys[..j + 1]))
            && (k in declared ==> acc == before + ExtraQueries(declared, kwargs, kwargs.keys[..j + 1]))
  {
    ExtraQueriesStep(declared, kwargs, kwargs.keys, j);
  }

  /**
   * As written, a declared query absent from the input never reaches its
   * default: with a default it is a 422, without one a raw `KeyError`.
   */
  lemma QueryMissing(rt: Runtime, p: PathInfo, kwargs: OMap<string>, k: nat)
    requires kwargs.Valid() && k < |p.queryParams| && p.queryParams[k] !in kwargs.items
    requires forall j :: 0 <= j < k ==> QueryItem(rt, p, kwargs, p.queryParams[j]).Success?
    ensures var q := p.queryParams[k];
            && VerifiedQuery(rt, p, kwargs).Failure?
            && (q in p.defaults.items ==> VerifiedQuery(rt, p, kwargs).error == Raise(rt.reasons, 422, Some(q + " not given in query params.")))
            && (q !in p.defaults.items ==> VerifiedQuery(rt, p, kwargs).error == Uncaught(KeyError))
  {
    var items := QueryItems(rt, p, kwargs);
    AllOrFirstSuccess(items[..k]);
    assert forall j :: 0 <= j < k ==> items[..k][j] == items[j];
    var done := AllOrFirst(items[..k]).value;
    AllOrFirstStep(items, k, done);
  }

  /** The declared queries, when all of them convert: each converted and marked pre-defined. */
  lemma QueryDeclared(rt: Runtime, p: PathInfo, kwargs: OMap<string>)
    requires AllOrFirst(QueryItems(rt, p, kwargs)).Success?
    ensures var declared := AllOrFirst(QueryItems(rt, p, kwargs)).value;
            && |declared| == |p.queryParams|
            && forall k :: 0 <= k < |p.queryParams| ==>
                 var q := p.queryParams[k];
                 q in p.varTypes.items && q in kwargs.items && Convert(rt, p.varTypes.items[q], StrV(kwargs.items[q])).Some?
                 && declared[k] == Query(q, Convert(rt, p.varTypes.items[q], StrV(kwargs.items[q])).value, true)
  {
    var items := QueryItems(rt, p, kwargs);
    AllOrFirstSuccess(items);
    forall k | 0 <= k < |p.queryParams|
      ensures items[k].Success?
      ensures items[k] == QueryItem(rt, p, kwargs, p.queryParams[k])
    {
    }
  }

  /**
   * On success, a declared query is stored converted and marked pre-defined,
   * an input pair whose name is not declared is stored as given and marked not
   * pre-defined, and nothing else is stored.
   */
  lemma QueryVerification(rt: Runtime, p: PathInfo, kwargs: OMap<string>, k: string)
    requires kwargs.Valid() && Distinct(p.queryParams) && VerifiedQuery(rt, p, kwargs).Success?
    ensures var m := Collect(VerifiedQuery(rt, p, kwargs).value, QueryKey);
            && (k in m.items <==> k in p.queryParams || k in kwargs.items)
            && (k in p.queryParams ==>
                  && k in p.varTypes.items && k in kwargs.items
                  && Convert(rt, p.varTypes.items[k], StrV(kwargs.items[k])).Some?
                  && m.items[k] == Query(k, Convert(rt, p.varTypes.items[k], StrV(kwargs.items[k])).value, true))
            && (k in kwargs.items && k !in p.queryParams ==> m.items[k] == Query(k, StrV(kwargs.items[k]), false))
  {
    var declared := AllOrFirst(QueryItems(rt, p, kwargs)).value;
    var extras := ExtraQueries(p.queryParams, kwargs, kwargs.keys);
    QueryDeclared(rt, p, kwargs);
    QueryStoredKeys(declared, extras, p.queryParams, kwargs, k);
    if k in p.queryParams {
      var j :| 0 <= j < |p.queryParams| && p.queryParams[j] == k;
      DeclaredIsLast(declared, extras, QueryKey, p.queryParams, j);
    } else if k in kwargs.items {
      var e := ExtraQueriesLast(p.queryParams, kwargs, kwargs.keys, k);
      ExtraIsLast(declared, extras, QueryKey, e);
    }
  }

  lemma QueryStoredKeys(declared: seq<Query>, extras: seq<Query>, names: seq<string>, kwargs: OMap<string>, k: string)
    requires |declared| == |names| && forall j :: 0 <= j < |names| ==> declared[j].name == names[j]
    requires kwargs.Valid() && extras == ExtraQueries(names, kwargs, kwargs.keys)
    ensures k in Collect(declared + extras, QueryKey).items <==> k in names || k in kwargs.items
  {
    var all := declared + extras;
    CollectKeys(all, QueryKey);
    if k in names || k in kwargs.items {
      StoredWhenGiven(declared, extras, names, kwargs, k);
    }
    if k in Collect(all, QueryKey).items {
      GivenWhenStored(declared, extras, names, kwargs, k);
    }
  }

  lemma StoredWhenGiven(declared: seq<Query>, extras: seq<Query>, names: seq<string>, kwargs: OMap<string>, k: string)
    requires |declared| == |names| && forall j :: 0 <= j < |names| ==> declared[j].name == names[j]
    requires kwargs.Valid() && extras == ExtraQueries(names, kwargs, kwargs.keys)
    requires k in names || k in kwargs.items
    ensures exists x :: x in declared + extras && QueryKey(x) == k
  {
    var all := declared + extras;
    if k in names {
      var j :| 0 <= j < |names| && names[j] == k;
      assert all[j] == declared[j];
      assert declared[j] in all;
      assert QueryKey(declared[j]) == k;
    } else {
      var e := ExtraQueriesLast(names, kwargs, kwargs.keys, k);
      assert all[|declared| + e] == extras[e];
      assert extras[e] in all && QueryKey(extras[e]) == k;
    }
  }

  lemma GivenWhenStored(declared: seq<Query>, extras: seq<Query>, names: seq<string>, kwargs: OMap<string>, k: string)
    requires |declared| == |names| && forall j :: 0 <= j < |names| ==> declared[j].name == names[j]
    requires kwargs.Valid() && extras == ExtraQueries(names, kwargs, kwargs.keys)
    requires exists x :: x in declared + extras && QueryKey(x) == k
    ensures k in names || k in kwargs.items
  {
    var all := declared + extras;
    var x :| x in all && QueryKey(x) == k;
    var j :| 0 <= j < |all| && all[j] == x;
    if j >= |declared| {
      assert all[j] == extras[j - |declared|];
    } else {
      assert all[j] == declared[j];
    }
  }

  /** A declared entry is the last one with its name: the extras all have other names. */
  lemma DeclaredIsLast<T>(declared: seq<T>, extras: seq<T>, key: T -> string, names: seq<string>, j: nat)
    requires Distinct(names) && j < |names|
    requires |declared| == |names| && forall i :: 0 <= i < |names| ==> key(declared[i]) == names[i]
    requires forall e :: 0 <= e < |extras| ==> key(extras[e]) !in names
    ensures names[j] in Collect(declared + extras, key).items
    ensures Collect(declared + extras, key).items[names[j]] == declared[j]
  {
    var all := declared + extras;
    assert all[j] == declared[j];
    forall i | j < i < |all|
      ensures key(all[i]) != key(all[j])
    {
      if i >= |declared| {
        assert all[i] == extras[i - |declared|];
      }
    }
    CollectLast(all, key, j);
  }

  lemma ExtraIsLast<T>(declared: seq<T>, extras: seq<T>, key: T -> string, e: nat)
    requires e < |extras| && IsLast(extras, key, e)
    ensures key(extras[e]) in Collect(declared + extras, key).items
    ensures Collect(declared + extras, key).items[key(extras[e])] == extras[e]
  {
    var all := declared + extras;
    assert all[|declared| + e] == extras[e];
    forall i | |declared| + e < i < |all|
      ensures key(all[i]) != key(all[|declared| + e])
    {
      assert all[i] == extras[i - |declared|];
    }
    CollectLast(all, key, |declared| + e);
  }

  /** Every undeclared input name is stored, and a place where it is stored is its last. */
  lemma {:induction false} ExtraQueriesLast(declared: seq<string>, kwargs: OMap<string>, ks: seq<string>, k: string)
    returns (e: nat)
    requires forall x :: x in ks ==> x in kwargs.items
    requires k in ks && k !in declared
    ensures var xs := ExtraQueries(declared, kwargs, ks);
            e < |xs| && xs[e].name == k && IsLast(xs, QueryKey, e)
    decreases |ks|
  {
    var n := |ks| - 1;
    var init := ks[..n];
    var prev := ExtraQueries(declared, kwargs, init);
    var xs := ExtraQueries(declared, kwargs, ks);
    assert forall i :: 0 <= i < |prev| ==> xs[i] == prev[i];
    if ks[n] == k {
      assert xs == prev + [Query(k, StrV(kwargs.items[k]), false)];
      e := |xs| - 1;
    } else {
      assert k in init;
      e := ExtraQueriesLast(declared, kwargs, init, k);
      assert IsLast(xs, QueryKey, e);
    }
  }

  // ------------------------------------------------------------- cookies

  /** The value a declared cookie is converted from: the jar's, else the default. */
  function CookieSource(p: PathInfo, jar: OMap<Cookie>, c: string): Value
    requires c in jar.items || c in p.defaults.items
  {
    if c in jar.items then jar.items[c].value else p.defaults.items[c]
  }

  /** Checking the declared cookie `c` against the jar as it is at that point (lines 78-89). */
  function CookieStep(rt: Runtime, p: PathInfo, jar: OMap<Cookie>, c: string): Result<OMap<Cookie>, Failure> {
    if c !in jar.items && c !in p.defaults.items then
      Failure(Raise(rt.reasons, 422, Some(c + " not given in cookies.")))
    else if c !in p.varTypes.items then Failure(Uncaught(KeyError))
    else
      var t, v := p.varTypes.items[c], CookieSource(p, jar, c);
      match Convert(rt, t, v)
      case None => Failure(Mismatch(rt, c, t, v))
      case Some(x) => Success(jar.Put(c, PlainCookie(c, x)))
  }

  /** An absent cookie whose default is the `Cookies` marker is converted from the marker, never reported missing. */
  lemma MarkedCookieStep(rt: Runtime, p: PathInfo, jar: OMap<Cookie>, c: string)
    requires p.defaults.Get(c) == Some(CookiesMarker) && c in p.varTypes.items && c !in jar.items
    ensures var t := p.varTypes.items[c];
            CookieStep(rt, p, jar, c)
              == match Convert(rt, t, CookiesMarker)
                 case None => Failure(Mismatch(rt, c, t, CookiesMarker))
                 case Some(x) => Success(jar.Put(c, PlainCookie(c, x)))
    ensures p.varTypes.items[c] == StrType ==> CookieStep(rt, p, jar, c) == Success(jar.Put(c, PlainCookie(c, StrV(""))))
  {
  }

  /** The loop over the declared cookies, each step seeing the jar the earlier ones left. */
  function CookieSteps(rt: Runtime, p: PathInfo, jar: OMap<Cookie>, names: seq<string>): Result<OMap<Cookie>, Failure>
    decreases |names|
  {
    if names == [] then Success(jar)
    else
      match CookieSteps(rt, p, jar, names[..|names| - 1])
      case Failure(e) => Failure(e)
      case Success(j) => CookieStep(rt, p, j, names[|names| - 1])
  }

  /** The jar `verify_cookies(cookies_str)` returns. */
  function VerifiedCookies(rt: Runtime, p: PathInfo, s: string): Result<OMap<Cookie>, Failure> {
    match ParseCookies(s)
    case None => Failure(Uncaught(ValueError))
    case Some(jar) => CookieSteps(rt, p, jar, p.cookies)
  }

  lemma CookieStepsStep(rt: Runtime, p: PathInfo, jar: OMap<Cookie>, names: seq<string>, i: nat, j: OMap<Cookie>)
    requires i < |names| && CookieSteps(rt, p, jar, names[..i]) == Success(j)
    ensures CookieSteps(rt, p, jar, names[..i + 1]) == CookieStep(rt, p, j, names[i])
  {
    assert names[..i + 1][..i] == names[..i];
  }

  lemma {:induction false} CookieStepsStops(rt: Runtime, p: PathInfo, jar: OMap<Cookie>, names: seq<string>, i: nat)
    requires i <= |names| && CookieSteps(rt, p, jar, names[..i]).Failure?
    ensures CookieSteps(rt, p, jar, names) == CookieSteps(rt, p, jar, names[..i])
    decreases |names| - i
  {
    if i < |names| {
      var n := |names| - 1;
      assert names[..n][..i] == names[..i];
      CookieStepsStops(rt, p, jar, names[..n], i);
    } else {
      assert names[..i] == names;
    }
  }

  /** `path_info.verify_cookies(cookies_str)`. */
  method VerifyCookies(rt: Runtime, p: PathInfo, s: string) returns (r: Result<Cookies, Failure>)
    ensures r.Success? <==> VerifiedCookies(rt, p, s).Success?
    ensures r.Success? ==> fresh(r.value) && r.value.Valid() && r.value.params == VerifiedCookies(rt, p, s).value
    ensures r.Failure? ==> r.error == VerifiedCookies(rt, p, s).error
  {
    var parsed := Cookies.FromString(s);
    if parsed.Failure? {
      return Failure(Uncaught(parsed.error));
    }
    var cookies := parsed.value;
    var err := CheckCookies(rt, p, cookies);
    if err.Some? {
      return Failure(err.value);
    }
    r := Success(cookies);
  }

  /** The loop of `verify_cookies` over the declared cookies, on the parsed jar. */
  method CheckCookies(rt: Runtime, p: PathInfo, cookies: Cookies) returns (err: Option<Failure>)
    requires cookies.Valid()
    modifies cookies
    ensures cookies.Valid()
    ensures err.None? <==> CookieSteps(rt, p, old(cookies.params), p.cookies).Success?
    ensures err.None? ==> cookies.params == CookieSteps(rt, p, old(cookies.params), p.cookies).value
    ensures err.Some? ==> err.value == CookieSteps(rt, p, old(cookies.params), p.cookies).error
  {
    ghost var jar := cookies.params;
    var i := 0;
    while i < |p.cookies|
      invariant 0 <= i <= |p.cookies|
      invariant cookies.Valid()
      invariant Progress(rt, p, jar, p.cookies, i, cookies.params)
    {
      CookieStepsStep(rt, p, jar, p.cookies, i, cookies.params);
      err := CheckCookie(rt, p, cookies, p.cookies[i]);
      if err.Some? {
        CookieStepsStops(rt, p, jar, p.cookies, i + 1);
        return;
      }
      i := i + 1;
    }
    assert p.cookies[..i] == p.cookies;
    err := None;
  }

  /** One pass of the loop of `verify_cookies`: the declared cookie `c` checked and replaced. */
  method CheckCookie(rt: Runtime, p: PathInfo, cookies: Cookies, c: string) returns (err: Option<Failure>)
    requires cookies.Valid()
    modifies cookies
    ensures cookies.Valid()
    ensures err.None? <==> CookieStep(rt, p, old(cookies.params), c).Success?
    ensures err.None? ==> cookies.params == CookieStep(rt, p, old(cookies.params), c).value
    ensures err.Some? ==> err.value == CookieStep(rt, p, old(cookies.params), c).error
  {
    if !cookies.Has(c) && c !in p.defaults.items {
      return Some(Raise(rt.reasons, 422, Some(c + " not given in cookies.")));
    }
    if c !in p.varTypes.items {
      return Some(Uncaught(KeyError));
    }
    var v := if cookies.Has(c) then cookies.Get(c).value.value else p.defaults.items[c];
    var x := Convert(rt, p.varTypes.items[c], v);
    if x.None? {
      return Some(Mismatch(rt, c, p.varTypes.items[c], v));
    }
    cookies.UpdateCookie(c, x.value);
    err := None;
  }

  ghost predicate Progress(rt: Runtime, p: PathInfo, jar: OMap<Cookie>, names: seq<string>, i: nat, now: OMap<Cookie>)
    requires i <= |names|
  {
    CookieSteps(rt, p, jar, names[..i]) == Success(now)
  }

  /** A successful conversion of the declared cookie `c`, from the jar's value or the default. */
  predicate CookieConverts(rt: Runtime, p: PathInfo, jar: OMap<Cookie>, c: string) {
    && (c in jar.items || c in p.defaults.items)
    && c in p.varTypes.items
    && Convert(rt, p.varTypes.items[c], CookieSource(p, jar, c)).Some?
  }

  /**
   * With distinct declared names, the loop replaces each declared cookie by an
   * attribute-less cookie holding its converted value, and leaves every other
   * cookie as it was.
   */
  lemma {:induction false} CookieStepsContent(rt: Runtime, p: PathInfo, jar: OMap<Cookie>, names: seq<string>, k: string)
    requires Distinct(names) && CookieSteps(rt, p, jar, names).Success?
    ensures var r := CookieSteps(rt, p, jar, names).value;
            && (k !in names ==> (k in r.items <==> k in jar.items) && (k in jar.items ==> r.items[k] == jar.items[k]))
            && (k in names ==>
                  && CookieConverts(rt, p, jar, k) && k in r.items
                  && r.items[k] == PlainCookie(k, Convert(rt, p.varTypes.items[k], CookieSource(p, jar, k)).value))
    decreases |names|
  {
    if names == [] {
      return;
    }
    var n := |names| - 1;
    var init, c := names[..n], names[n];
    var prev := CookieSteps(rt, p, jar, init);
    assert Distinct(init) by {
      forall i, j | 0 <= i < j < n
        ensures init[i] != init[j]
      {
        assert init[i] == names[i] && init[j] == names[j];
      }
    }
    assert c !in init by {
      forall i | 0 <= i < n
        ensures init[i] != c
      {
        assert init[i] == names[i];
      }
    }
    if prev.Success? {
      CookieStepsContent(rt, p, jar, init, c);
      CookieStepsContent(rt, p, jar, init, k);
      assert CookieSteps(rt, p, jar, names) == CookieStep(rt, p, prev.value, c);
      assert CookieSource(p, prev.value, c) == CookieSource(p, jar, c);
      if k in names && k != c {
        assert k in init by {
          var i :| 0 <= i < |names| && names[i] == k;
          assert i < n && init[i] == k;
        }
      }
    }
  }

  /**
   * `verify_cookies` fails with `ValueError` on a malformed header and
   * otherwise returns the parsed jar with each declared cookie converted and
   * every undeclared cookie untouched.
   */
  lemma CookieVerification(rt: Runtime, p: PathInfo, s: string, k: string)
    requires Distinct(p.cookies)
    ensures ParseCookies(s).None? ==> VerifiedCookies(rt, p, s) == Failure(Uncaught(ValueError))
    ensures ParseCookies(s).Some? && VerifiedCookies(rt, p, s).Success? ==>
              var jar, r := ParseCookies(s).value, VerifiedCookies(rt, p, s).value;
              && (k !in p.cookies ==> (k in r.items <==> k in jar.items) && (k in jar.items ==> r.items[k] == jar.items[k]))
              && (k in p.cookies ==>
                    && CookieConverts(rt, p, jar, k) && k in r.items
                    && r.items[k] == PlainCookie(k, Convert(rt, p.varTypes.items[k], CookieSource(p, jar, k)).value))
  {
    if ParseCookies(s).Some? && VerifiedCookies(rt, p, s).Success? {
      CookieStepsContent(rt, p, ParseCookies(s).value, p.cookies, k);
    }
  }

  // ------------------------------------------------------------- headers

  /** The value a declared header is converted from: the input's, else the default. */
  function HeaderSource(p: PathInfo, kwargs: OMap<string>, h: string): Value
    requires h in kwargs.items || h in p.defaults.items
  {
    if h in kwargs.items then StrV(kwargs.items[h]) else p.defaults.items[h]
  }

  /** Checking and converting the declared header `h` (lines 95-107). */
  function HeaderItem(rt: Runtime, p: PathInfo, kwargs: OMap<string>, h: string): Result<HeaderParam, Failure> {
    if h !in kwargs.items && h !in p.defaults.items then
      Failure(Raise(rt.reasons, 422, Some(h + " not given in headers.")))
    else if h !in p.varTypes.items then Failure(Uncaught(KeyError))
    else
      var t, v := p.varTypes.items[h], HeaderSource(p, kwargs, h);
      match Convert(rt, t, v)
      case None => Failure(Mismatch(rt, h, t, v))
      case Some(x) => Success(HeaderParam(h, x))
  }
  /** An absent header whose default is the `Headers` marker is converted from the marker, never reported missing. */
  lemma MarkedHeaderItem(rt: Runtime, p: PathInfo, kwargs: OMap<string>, h: string)
    requires p.defaults.Get(h) == Some(HeadersMarker) && h in p.varTypes.items && h !in kwargs.items
    ensures var t := p.varTypes.items[h];
            HeaderItem(rt, p, kwargs, h)
              == match Convert(rt, t, HeadersMarker)
                 case None => Failure(Mismatch(rt, h, t, HeadersMarker))
                 case Some(x) => Success(HeaderParam(h, x))
    ensures p.varTypes.items[h] == StrType ==> HeaderItem(rt, p, kwargs, h) == Success(HeaderParam(h, StrV("")))
  {
  }


  function HeaderItems(rt: Runtime, p: PathInfo, kwargs: OMap<string>): (r: seq<Result<HeaderParam, Failure>>)
    ensures |r| == |p.headers|
  {
    seq(|p.headers|, k requires 0 <= k < |p.headers| => HeaderItem(rt, p, kwargs, p.headers[k]))
  }

  /** What a `Headers` object holds while `verify_headers` fills it: its headers and its jar. */
  datatype HeaderBinding = HeaderBinding(params: OMap<HeaderParam>, jar: OMap<Cookie>)

  /** An undeclared input header whose name case-folds to `cookie`. */
  predicate IsCookieHeader(p: PathInfo, k: string) {
    k !in p.headers && NameIs(k, "cookie")
  }

  /** One pass of the loop over the undeclared input headers (lines 108-113). */
  function ExtraHeaderStep(rt: Runtime, p: PathInfo, kwargs: OMap<string>, b: HeaderBinding, k: string): Result<HeaderBinding, Failure>
    requires k in kwargs.items
  {
    if k in p.headers then Success(b)
    else if NameIs(k, "cookie") then
      match VerifiedCookies(rt, p, kwargs.items[k])
      case Failure(e) => Failure(e)
      case Success(jar) => Success(b.(jar := jar))
    else Success(b.(params := b.params.Put(k, HeaderParam(k, StrV(kwargs.items[k])))))
  }

  function ExtraHeaders(rt: Runtime, p: PathInfo, kwargs: OMap<string>, b: HeaderBinding, ks: seq<string>): Result<HeaderBinding, Failure>
    requires forall k :: k in ks ==> k in kwargs.items
    decreases |ks|
  {
    if ks == [] then Success(b)
    else
      match ExtraHeaders(rt, p, kwargs, b, ks[..|ks| - 1])
      case Failure(e) => Failure(e)
      case Success(now) => ExtraHeaderStep(rt, p, kwargs, now, ks[|ks| - 1])
  }

  /** What `verify_headers(**kwargs)` returns: the checked headers and the jar they hold. */
  function VerifiedHeaders(rt: Runtime, p: PathInfo, kwargs: OMap<string>): Result<HeaderBinding, Failure>
    requires kwargs.Valid()
  {
    match AllOrFirst(HeaderItems(rt, p, kwargs))
    case Failure(e) => Failure(e)
    case Success(declared) => ExtraHeaders(rt, p, kwargs, HeaderBinding(Collect(declared, HeaderKey), Empty()), kwargs.keys)
  }

  lemma ExtraHeadersStep(rt: Runtime, p: PathInfo, kwargs: OMap<string>, b: HeaderBinding, ks: seq<string>, i: nat, now: HeaderBinding)
    requires i < |ks| && forall k :: k in ks ==> k in kwargs.items
    requires forall k :: k in ks[..i] ==> k in kwargs.items
    requires ExtraHeaders(rt, p, kwargs, b, ks[..i]) == Success(now)
    ensures forall k :: k in ks[..i + 1] ==> k in kwargs.items
    ensures ExtraHeaders(rt, p, kwargs, b, ks[..i + 1]) == ExtraHeaderStep(rt, p, kwargs, now, ks[i])
  {
    assert ks[..i + 1][..i] == ks[..i];
  }

  lemma {:induction false} ExtraHeadersStops(rt: Runtime, p: PathInfo, kwargs: OMap<string>, b: HeaderBinding, ks: seq<string>, i: nat)
    requires i <= |ks| && forall k :: k in ks ==> k in kwargs.items
    requires forall k :: k in ks[..i] ==> k in kwargs.items
    requires ExtraHeaders(rt, p, kwargs, b, ks[..i]).Failure?
    ensures ExtraHeaders(rt, p, kwargs, b, ks) == ExtraHeaders(rt, p, kwargs, b, ks[..i])
    decreases |ks| - i
  {
    if i < |ks| {
      var n := |ks| - 1;
      assert ks[..n][..i] == ks[..i];
      ExtraHeadersStops(rt, p, kwargs, b, ks[..n], i);
    } else {
      assert ks[..i] == ks;
    }
  }

  /** `path_info.verify_headers(**kwargs)`. */
  method VerifyHeaders(rt: Runtime, p: PathInfo, kwargs: OMap<string>) returns (r: Result<Headers, Failure>)
    requires kwargs.Valid()
    ensures r.Success? <==> VerifiedHeaders(rt, p, kwargs).Success?
    ensures r.Success? ==> && fresh(r.value) && r.value.Valid()
                           && r.value.headerParams == VerifiedHeaders(rt, p, kwargs).value.params
                           && r.value.cookies.params == VerifiedHeaders(rt, p, kwargs).value.jar
    ensures r.Failure? ==> r.error == VerifiedHeaders(rt, p, kwargs).error
  {
    var headers := new Headers(null, []);
    var err := CheckDeclaredHeaders(rt, p, kwargs, headers);
    if err.Some? {
      return Failure(err.value);
    }
    err := AddExtraHeaders(rt, p, kwargs, headers);
    if err.Some? {
      return Failure(err.value);
    }
    r := Success(headers);
  }

  /** The first loop of `verify_headers`, over the declared headers, on empty headers. */
  method CheckDeclaredHeaders(rt: Runtime, p: PathInfo, kwargs: OMap<string>, headers: Headers) returns (err: Option<Failure>)
    requires kwargs.Valid() && headers.Valid()
    requires headers.headerParams == Collect([], HeaderKey) && headers.cookies.params == Empty()
    modifies headers
    ensures headers.Valid() && headers.cookies == old(headers.cookies) && headers.cookies.params == Empty()
    ensures err.Some? ==> VerifiedHeaders(rt, p, kwargs) == Failure(err.value)
    ensures err.None? ==> VerifiedHeaders(rt, p, kwargs) == ExtraHeaders(rt, p, kwargs, HeaderBinding(headers.headerParams, Empty()), kwargs.keys)
  {
    ghost var done: seq<HeaderParam> := [];
    var i := 0;
    while i < |p.headers|
      invariant 0 <= i <= |p.headers|
      invariant headers.Valid() && headers.cookies == old(headers.cookies) && headers.cookies.params == Empty()
      invariant AllOrFirst(HeaderItems(rt, p, kwargs)[..i]) == Success(done)
      invariant headers.headerParams == Collect(done, HeaderKey)
    {
      err := CheckHeader(rt, p, kwargs, headers, p.headers[i]);
      if err.Some? {
        DeclaredHeaderStep(rt, p, kwargs, i, done);
        return;
      }
      DeclaredHeaderAdvance(rt, p, kwargs, i, done);
      done := done + [HeaderItem(rt, p, kwargs, p.headers[i]).value];
      i := i + 1;
    }
    DeclaredHeadersDone(rt, p, kwargs, done);
    err := None;
  }

  /** One pass of the first loop of `verify_headers`, on the declared header at `i`. */
  lemma DeclaredHeaderStep(rt: Runtime, p: PathInfo, kwargs: OMap<string>, i: nat, done: seq<HeaderParam>)
    requires kwargs.Valid() && i < |p.headers|
    requires AllOrFirst(HeaderItems(rt, p, kwargs)[..i]) == Success(done)
    ensures var h := HeaderItem(rt, p, kwargs, p.headers[i]);
            && (h.Failure? ==> VerifiedHeaders(rt, p, kwargs) == Failure(h.error))
            && (h.Success? ==> AllOrFirst(HeaderItems(rt, p, kwargs)[..i + 1]) == Success(done + [h.value]))
  {
    var items := HeaderItems(rt, p, kwargs);
    assert items[i] == HeaderItem(rt, p, kwargs, p.headers[i]);
    AllOrFirstStep(items, i, done);
  }

  /** One pass of the first loop of `verify_headers` on a declared header that converts: it joins `done`, stored under its own name. */
  lemma DeclaredHeaderAdvance(rt: Runtime, p: PathInfo, kwargs: OMap<string>, i: nat, done: seq<HeaderParam>)
    requires kwargs.Valid() && i < |p.headers|
    requires AllOrFirst(HeaderItems(rt, p, kwargs)[..i]) == Success(done)
    requires HeaderItem(rt, p, kwargs, p.headers[i]).Success?
    ensures var v := HeaderItem(rt, p, kwargs, p.headers[i]).value;
            && AllOrFirst(HeaderItems(rt, p, kwargs)[..i + 1]) == Success(done + [v])
            && Collect(done + [v], HeaderKey) == Collect(done, HeaderKey).Put(p.headers[i], v)
  {
    DeclaredHeaderStep(rt, p, kwargs, i, done);
    assert HeaderKey(HeaderItem(rt, p, kwargs, p.headers[i]).value) == p.headers[i];
    CollectSnoc(done, HeaderItem(rt, p, kwargs, p.headers[i]).value, HeaderKey);
  }

  /** After the first loop of `verify_headers`: what is left is the loop over the undeclared names. */
  lemma DeclaredHeadersDone(rt: Runtime, p: PathInfo, kwargs: OMap<string>, done: seq<HeaderParam>)
    requires kwargs.Valid()
    requires AllOrFirst(HeaderItems(rt, p, kwargs)[..|p.headers|]) == Success(done)
    ensures VerifiedHeaders(rt, p, kwargs) == ExtraHeaders(rt, p, kwargs, HeaderBinding(Collect(done, HeaderKey), Empty()), kwargs.keys)
  {
    var items := HeaderItems(rt, p, kwargs);
    assert items[..|p.headers|] == items;
  }

  /** One pass of the first loop of `verify_headers`: the declared header `h` checked and stored. */
  method CheckHeader(rt: Runtime, p: PathInfo, kwargs: OMap<string>, headers: Headers, h: string) returns (err: Option<Failure>)
    requires headers.Valid()
    modifies headers
    ensures headers.Valid() && headers.cookies == old(headers.cookies)
    ensures err.None? <==> HeaderItem(rt, p, kwargs, h).Success?
    ensures err.None? ==> headers.headerParams == old(headers.headerParams).Put(h, HeaderItem(rt, p, kwargs, h).value)
    ensures err.Some? ==> err.value == HeaderItem(rt, p, kwargs, h).error
  {
    if h !in kwargs.items && h !in p.defaults.items {
      return Some(Raise(rt.reasons, 422, Some(h + " not given in headers.")));
    }
    if h !in p.varTypes.items {
      return Some(Uncaught(KeyError));
    }
    var v := if h in kwargs.items then StrV(kwargs.items[h]) else p.defaults.items[h];
    var x := Convert(rt, p.varTypes.items[h], v);
    if x.None? {
      return Some(Mismatch(rt, h, p.varTypes.items[h], v));
    }
    headers.AddHeader(h, x.value);
    err := None;
  }

  /** The loop of `verify_headers` over the undeclared input names. */
  method AddExtraHeaders(rt: Runtime, p: PathInfo, kwargs: OMap<string>, headers: Headers) returns (err: Option<Failure>)
    requires kwargs.Valid() && headers.Valid()
    modifies headers
    ensures headers.Valid()
    ensures var b := ExtraHeaders(rt, p, kwargs, HeaderBinding(old(headers.headerParams), old(headers.cookies.params)), kwargs.keys);
            && (err.None? <==> b.Success?)
            && (err.None? ==> headers.headerParams == b.value.params && headers.cookies.params == b.value.jar)
            && (err.Some? ==> err.value == b.error)
  {
    ghost var start := HeaderBinding(headers.headerParams, headers.cookies.params);
    var j := 0;
    while j < |kwargs.keys|
      invariant 0 <= j <= |kwargs.keys| && headers.Valid()
      invariant forall k :: k in kwargs.keys[..j] ==> k in kwargs.items
      invariant ExtraHeaders(rt, p, kwargs, start, kwargs.keys[..j]) == Success(HeaderBinding(headers.headerParams, headers.cookies.params))
    {
      ExtraHeadersStep(rt, p, kwargs, start, kwargs.keys, j, HeaderBinding(headers.headerParams, headers.cookies.params));
      err := AddExtraHeader(rt, p, kwargs, headers, kwargs.keys[j]);
      if err.Some? {
        ExtraHeadersStops(rt, p, kwargs, start, kwargs.keys, j + 1);
        return;
      }
      j := j + 1;
    }
    assert kwargs.keys[..j] == kwargs.keys;
    err := None;
  }

  /** One pass of the loop of `verify_headers` over the undeclared input names: the name `k`. */
  method AddExtraHeader(rt: Runtime, p: PathInfo, kwargs: OMap<string>, headers: Headers, k: string) returns (err: Option<Failure>)
    requires k in kwargs.items && headers.Valid()
    modifies headers
    ensures headers.Valid()
    ensures var b := ExtraHeaderStep(rt, p, kwargs, HeaderBinding(old(headers.headerParams), old(headers.cookies.params)), k);
            && (err.None? <==> b.Success?)
            && (err.None? ==> b.value == HeaderBinding(headers.headerParams, headers.cookies.params))
            && (err.Some? ==> err.value == b.error)
  {
    err := None;
    if k !in p.headers {
      if CaseFold(k) == "cookie" {
        var jar := VerifyCookies(rt, p, kwargs.items[k]);
        if jar.Failure? {
          return Some(jar.error);
        }
        headers.SetCookies(jar.value);
      } else {
        headers.AddHeader(k, StrV(kwargs.items[k]));
      }
    }
  }

  /** The undeclared input headers named `cookie` in some case, in input order. */
  function CookieHeaders(p: PathInfo, ks: seq<string>): (r: seq<string>)
    ensures forall c :: c in r <==> c in ks && IsCookieHeader(p, c)
    decreases |ks|
  {
    if ks == [] then []
    else
      var init, k := ks[..|ks| - 1], ks[|ks| - 1];
      assert ks == init + [k];
      CookieHeaders(p, init) + (if IsCookieHeader(p, k) then [k] else [])
  }

  /**
   * The loop over the undeclared headers stores each one that is not a cookie
   * header as given, and touches no other name.
   */
  lemma {:induction false} ExtraHeadersParams(rt: Runtime, p: PathInfo, kwargs: OMap<string>, b: HeaderBinding, ks: seq<string>, k: string)
    requires forall x :: x in ks ==> x in kwargs.items
    requires ExtraHeaders(rt, p, kwargs, b, ks).Success?
    ensures var r := ExtraHeaders(rt, p, kwargs, b, ks).value;
            && (k !in ks || k in p.headers || NameIs(k, "cookie") ==>
                  && (k in r.params.items <==> k in b.params.items)
                  && (k in b.params.items ==> r.params.items[k] == b.params.items[k]))
            && (k in ks && k !in p.headers && !NameIs(k, "cookie") ==>
                  k in r.params.items && r.params.items[k] == HeaderParam(k, StrV(kwargs.items[k])))
    decreases |ks|
  {
    if ks == [] {
      return;
    }
    var n := |ks| - 1;
    var init, last := ks[..n], ks[n];
    assert ks == init + [last];
    ExtraHeadersParams(rt, p, kwargs, b, init, k);
  }

  /**
   * The loop fails exactly when one of the cookie headers fails cookie
   * verification; on success the jar is the one the last cookie header gave,
   * or the starting jar when there is none.
   */
  lemma {:induction false} ExtraHeadersJar(rt: Runtime, p: PathInfo, kwargs: OMap<string>, b: HeaderBinding, ks: seq<string>)
    requires forall x :: x in ks ==> x in kwargs.items
    ensures JarFacts(rt, p, kwargs, b, ks)
    decreases |ks|
  {
    if ks == [] {
      return;
    }
    var init := ks[..|ks| - 1];
    ExtraHeadersJar(rt, p, kwargs, b, init);
    if IsCookieHeader(p, ks[|ks| - 1]) {
      ExtraHeadersJarCookie(rt, p, kwargs, b, ks);
    } else {
      ExtraHeadersJarOther(rt, p, kwargs, b, ks);
    }
  }

  /**
   * What the loop over the undeclared headers does with the cookie headers
   * `cs` among `ks`: it fails exactly when one of them fails cookie
   * verification, and on success holds the jar the last one gave, or the
   * starting jar when there is none.
   */
  ghost predicate JarFacts(rt: Runtime, p: PathInfo, kwargs: OMap<string>, b: HeaderBinding, ks: seq<string>)
    requires forall x :: x in ks ==> x in kwargs.items
  {
    var cs := CookieHeaders(p, ks);
    var r := ExtraHeaders(rt, p, kwargs, b, ks);
    && (r.Success? <==> forall c :: c in cs ==> VerifiedCookies(rt, p, kwargs.items[c]).Success?)
    && (r.Success? && cs == [] ==> r.value.jar == b.jar)
    && (r.Success? && cs != [] ==> VerifiedCookies(rt, p, kwargs.items[cs[|cs| - 1]]) == Success(r.value.jar))
  }

  /** The step of `ExtraHeadersJar` when the last name is a cookie header. */
  lemma ExtraHeadersJarCookie(rt: Runtime, p: PathInfo, kwargs: OMap<string>, b: HeaderBinding, ks: seq<string>)
    requires ks != [] && (forall x :: x in ks ==> x in kwargs.items) && IsCookieHeader(p, ks[|ks| - 1])
    requires JarFacts(rt, p, kwargs, b, ks[..|ks| - 1])
    ensures JarFacts(rt, p, kwargs, b, ks)
  {
    var init, last := ks[..|ks| - 1], ks[|ks| - 1];
    assert CookieHeaders(p, ks) == CookieHeaders(p, init) + [last];
  }

  /** The step of `ExtraHeadersJar` when the last name is not a cookie header. */
  lemma ExtraHeadersJarOther(rt: Runtime, p: PathInfo, kwargs: OMap<string>, b: HeaderBinding, ks: seq<string>)
    requires ks != [] && (forall x :: x in ks ==> x in kwargs.items) && !IsCookieHeader(p, ks[|ks| - 1])
    requires JarFacts(rt, p, kwargs, b, ks[..|ks| - 1])
    ensures JarFacts(rt, p, kwargs, b, ks)
  {
    var init := ks[..|ks| - 1];
    assert CookieHeaders(p, ks) == CookieHeaders(p, init);
  }

  /**
   * Without a cookie header the declared cookies play no part: the headers
   * verify the same whatever cookies are declared, and the jar stays empty.
   */
  lemma CookiesNeedCookieHeader(rt: Runtime, p: PathInfo, kwargs: OMap<string>, cookies: seq<string>)
    requires kwargs.Valid() && CookieHeaders(p, kwargs.keys) == []
    ensures VerifiedHeaders(rt, p, kwargs) == VerifiedHeaders(rt, p.(cookies := cookies), kwargs)
    ensures VerifiedHeaders(rt, p, kwargs).Success? ==> VerifiedHeaders(rt, p, kwargs).value.jar == Empty()
  {
    var q := p.(cookies := cookies);
    assert HeaderItems(rt, p, kwargs) == HeaderItems(rt, q, kwargs);
    var items := HeaderItems(rt, p, kwargs);
    if AllOrFirst(items).Success? {
      var b := HeaderBinding(Collect(AllOrFirst(items).value, HeaderKey), Empty());
      ExtraHeadersIgnoreCookies(rt, p, kwargs, b, kwargs.keys, cookies);
      ExtraHeadersJar(rt, p, kwargs, b, kwargs.keys);
    }
  }

  lemma {:induction false} ExtraHeadersIgnoreCookies(rt: Runtime, p: PathInfo, kwargs: OMap<string>, b: HeaderBinding, ks: seq<string>, cookies: seq<string>)
    requires forall x :: x in ks ==> x in kwargs.items
    requires CookieHeaders(p, ks) == []
    ensures ExtraHeaders(rt, p, kwargs, b, ks) == ExtraHeaders(rt, p.(cookies := cookies), kwargs, b, ks)
    decreases |ks|
  {
    if ks == [] {
      return;
    }
    var n := |ks| - 1;
    var init, last := ks[..n], ks[n];
    assert ks == init + [last];
    ExtraHeadersIgnoreCookies(rt, p, kwargs, b, init, cookies);
  }

  /** The declared headers, when all of them convert: each converted from the input or the default. */
  lemma HeaderDeclared(rt: Runtime, p: PathInfo, kwargs: OMap<string>)
    requires AllOrFirst(HeaderItems(rt, p, kwargs)).Success?
    ensures var declared := AllOrFirst(HeaderItems(rt, p, kwargs)).value;
            && |declared| == |p.headers|
            && forall k :: 0 <= k < |p.headers| ==>
                 var h := p.headers[k];
                 (h in kwargs.items || h in p.defaults.items) && h in p.varTypes.items
                 && Convert(rt, p.varTypes.items[h], HeaderSource(p, kwargs, h)).Some?
                 && declared[k] == HeaderParam(h, Convert(rt, p.varTypes.items[h], HeaderSource(p, kwargs, h)).value)
  {
    var items := HeaderItems(rt, p, kwargs);
    AllOrFirstSuccess(items);
    forall k | 0 <= k < |p.headers|
      ensures items[k].Success?
      ensures items[k] == HeaderItem(rt, p, kwargs, p.headers[k])
    {
    }
  }

  /** A declared header given neither in the input nor as a default fails the call with a 422. */
  lemma HeaderMissing(rt: Runtime, p: PathInfo, kwargs: OMap<string>, k: nat)
    requires kwargs.Valid() && k < |p.headers|
    requires p.headers[k] !in kwargs.items && p.headers[k] !in p.defaults.items
    requires forall j :: 0 <= j < k ==> HeaderItem(rt, p, kwargs, p.headers[j]).Success?
    ensures VerifiedHeaders(rt, p, kwargs) == Failure(Raise(rt.reasons, 422, Some(p.headers[k] + " not given in headers.")))
  {
    var items := HeaderItems(rt, p, kwargs);
    AllOrFirstSuccess(items[..k]);
    assert forall j :: 0 <= j < k ==> items[..k][j] == items[j];
    var done := AllOrFirst(items[..k]).value;
    AllOrFirstStep(items, k, done);
  }

  /**
   * On success, a declared header holds its converted value, an undeclared
   * input header holds its text unless it is a cookie header, and no other
   * name is a header.
   */
  lemma HeaderVerification(rt: Runtime, p: PathInfo, kwargs: OMap<string>, k: string)
    requires kwargs.Valid() && Distinct(p.headers) && VerifiedHeaders(rt, p, kwargs).Success?
    ensures var r := VerifiedHeaders(rt, p, kwargs).value;
            && (k in p.headers ==>
                  && (k in kwargs.items || k in p.defaults.items) && k in p.varTypes.items
                  && Convert(rt, p.varTypes.items[k], HeaderSource(p, kwargs, k)).Some?
                  && k in r.params.items
                  && r.params.items[k] == HeaderParam(k, Convert(rt, p.varTypes.items[k], HeaderSource(p, kwargs, k)).value))
            && (k !in p.headers && k in kwargs.items && !NameIs(k, "cookie") ==>
                  k in r.params.items && r.params.items[k] == HeaderParam(k, StrV(kwargs.items[k])))
            && (k !in p.headers && (k !in kwargs.items || NameIs(k, "cookie")) ==> k !in r.params.items)
  {
    var declared := AllOrFirst(HeaderItems(rt, p, kwargs)).value;
    var d := Collect(declared, HeaderKey);
    ExtraHeadersParams(rt, p, kwargs, HeaderBinding(d, Empty()), kwargs.keys, k);
    DeclaredHeaderKeys(rt, p, kwargs, k);
    if k in p.headers {
      DeclaredHeaderStored(rt, p, kwargs, k);
    }
  }

  /** Before the loop over the extras, the headers are exactly the declared ones ... */
  lemma DeclaredHeaderKeys(rt: Runtime, p: PathInfo, kwargs: OMap<string>, k: string)
    requires AllOrFirst(HeaderItems(rt, p, kwargs)).Success?
    ensures k in Collect(AllOrFirst(HeaderItems(rt, p, kwargs)).value, HeaderKey).items <==> k in p.headers
  {
    var declared := AllOrFirst(HeaderItems(rt, p, kwargs)).value;
    HeaderDeclared(rt, p, kwargs);
    CollectKeys(declared, HeaderKey);
    if k in p.headers {
      var j :| 0 <= j < |p.headers| && p.headers[j] == k;
      assert declared[j] in declared;
    }
  }

  /** ... each one converted. */
  lemma DeclaredHeaderStored(rt: Runtime, p: PathInfo, kwargs: OMap<string>, k: string)
    requires Distinct(p.headers) && AllOrFirst(HeaderItems(rt, p, kwargs)).Success? && k in p.headers
    ensures var d := Collect(AllOrFirst(HeaderItems(rt, p, kwargs)).value, HeaderKey);
            && (k in kwargs.items || k in p.defaults.items) && k in p.varTypes.items
            && Convert(rt, p.varTypes.items[k], HeaderSource(p, kwargs, k)).Some?
            && k in d.items
            && d.items[k] == HeaderParam(k, Convert(rt, p.varTypes.items[k], HeaderSource(p, kwargs, k)).value)
  {
    var declared := AllOrFirst(HeaderItems(rt, p, kwargs)).value;
    HeaderDeclared(rt, p, kwargs);
    var j :| 0 <= j < |p.headers| && p.headers[j] == k;
    assert declared + [] == declared;
    DeclaredIsLast(declared, [], HeaderKey, p.headers, j);
  }

  /** On success the jar is what the last cookie header gave, and empty without one. */
  lemma HeaderJar(rt: Runtime, p: PathInfo, kwargs: OMap<string>)
    requires kwargs.Valid() && VerifiedHeaders(rt, p, kwargs).Success?
    ensures var r := VerifiedHeaders(rt, p, kwargs).value;
            var cs := CookieHeaders(p, kwargs.keys);
            && (cs == [] ==> r.jar == Empty())
            && (cs != [] ==> VerifiedCookies(rt, p, kwargs.items[cs[|cs| - 1]]) == Success(r.jar))
  {
    var declared := AllOrFirst(HeaderItems(rt, p, kwargs)).value;
    ExtraHeadersJar(rt, p, kwargs, HeaderBinding(Collect(declared, HeaderKey), Empty()), kwargs.keys);
  }

  // ---------------------------------------------------------------- body

  const NoValidatorTail := " has no attribute 'model_validate_json'"

  /**
   * `str(e)` of the `AttributeError` raised by `T.model_validate_json` for a
   * type that is not a model: the class by its bare `__name__`, or the
   * `None` object.
   */
  function NoValidatorMessage(t: TypeSpec): (r: string)
    ensures |r| > |NoValidatorTail| && r[|r| - |NoValidatorTail|..] == NoValidatorTail
    ensures t.NoneType? ==> r == "'NoneType' object" + NoValidatorTail
    ensures t.OtherType? ==> r == "type object '" + t.name + "'" + NoValidatorTail
    ensures t.StrType? ==> r == "type object 'str'" + NoValidatorTail
    ensures t.IntType? ==> r == "type object 'int'" + NoValidatorTail
  {
    var tail := NoValidatorTail;
    match t
    case NoneType => "'NoneType' object" + tail
    case StrType => "type object 'str'" + tail
    case IntType => "type object 'int'" + tail
    case ModelType(cls) => "type object '" + cls + "'" + tail
    case RequestType => "type object 'Request'" + tail
    case ResponseType => "type object 'Response'" + tail
    case OtherType(_, name) => "type object '" + name + "'" + tail
  }

  /** `path_info.verify_body(value)`. */
  function VerifiedBody(rt: Runtime, p: PathInfo, value: Value): (r: Result<Body, Failure>)
    ensures p.body.None? ==> r == Success(Body(value))
    ensures p.body.Some? && p.body.value !in p.varTypes.items ==> r == Failure(Uncaught(KeyError))
    ensures r.Success? && p.body.Some? ==>
              && p.body.value in p.varTypes.items && p.varTypes.items[p.body.value].ModelType?
              && rt.validateJson(p.varTypes.items[p.body.value].cls, value) == Success(r.value.value)
    ensures p.body.Some? && p.body.value in p.varTypes.items && !p.varTypes.items[p.body.value].ModelType? ==>
              r == Failure(Raise(rt.reasons, 422, Some(NoValidatorMessage(p.varTypes.items[p.body.value]))))
    ensures p.body.Some? && p.body.value in p.varTypes.items && p.varTypes.items[p.body.value].ModelType?
            && rt.validateJson(p.varTypes.items[p.body.value].cls, value).Failure? ==>
              r == Failure(Raise(rt.reasons, 422, Some(rt.validateJson(p.varTypes.items[p.body.value].cls, value).error)))
  {
    match p.body
    case None => Success(Body(value))
    case Some(name) =>
      if name !in p.varTypes.items then Failure(Uncaught(KeyError))
      else
        match p.varTypes.items[name]
        case ModelType(cls) =>
          (match rt.validateJson(cls, value)
           case Success(m) => Success(Body(m))
           case Failure(message) => Failure(Raise(rt.reasons, 422, Some(message))))
        case t => Failure(Raise(rt.reasons, 422, Some(NoValidatorMessage(t))))
  }
}
