/**
 * The route registry: route templates keyed by their literal prefix, the
 * classification of a handler's parameters at registration, and the search
 * that resolves a request path to a registered descriptor.
 */
module Routing {
  import opened Wrappers
  import opened PyStrings
  import opened OrderedMaps
  import opened Values
  import opened Exceptions
  import opened Params
  import opened Binding

  // ------------------------------------------------------------ templates
  // The placeholder pattern is `\{([^{}]+)\}`: an opening brace, one or more
  // characters that are not braces, and a closing brace.

  predicate IsBrace(c: char) {
    c == '{' || c == '}'
  }

  /** The first brace at or after `j`. */
  function NextBrace(s: string, j: nat): (r: Option<nat>)
    ensures r.Some? ==> j <= r.value < |s| && IsBrace(s[r.value]) && forall k :: j <= k < r.value ==> !IsBrace(s[k])
    ensures r.None? ==> forall k :: j <= k < |s| ==> !IsBrace(s[k])
    decreases |s| - j
  {
    if j >= |s| then None else if IsBrace(s[j]) then Some(j) else NextBrace(s, j + 1)
  }

  /** The position of the closing brace of a placeholder that starts at `i`, if one does. */
  function MatchEnd(s: string, i: nat): (r: Option<nat>)
    ensures r.Some? <==> i < |s| && s[i] == '{' && NextBrace(s, i + 1).Some?
                         && s[NextBrace(s, i + 1).value] == '}' && NextBrace(s, i + 1).value > i + 1
    ensures r.Some? ==> i + 1 < r.value < |s| && s[r.value] == '}'
                        && forall k :: i < k < r.value ==> !IsBrace(s[k])
  {
    if i < |s| && s[i] == '{' then
      match NextBrace(s, i + 1)
      case Some(j) => if s[j] == '}' && j > i + 1 then Some(j) else None
      case None => None
    else None
  }

  /** `re.findall(pattern, s[i:])`: the placeholder names, scanning left to right without overlap. */
  function FindAllFrom(s: string, i: nat): seq<string>
    decreases |s| - i
  {
    if i >= |s| then []
    else
      match MatchEnd(s, i)
      case Some(j) => [s[i + 1..j]] + FindAllFrom(s, j + 1)
      case None => FindAllFrom(s, i + 1)
  }

  /** Where the first placeholder at or after `i` starts. */
  function FirstMatchFrom(s: string, i: nat): (r: Option<nat>)
    ensures r.Some? ==> i <= r.value < |s| && MatchEnd(s, r.value).Some?
    ensures forall k :: i <= k < |s| && (r.None? || k < r.value) ==> MatchEnd(s, k).None?
    decreases |s| - i
  {
    if i >= |s| then None else if MatchEnd(s, i).Some? then Some(i) else FirstMatchFrom(s, i + 1)
  }

  /**
   * `_get_path_params(route)`: the text before the first placeholder (all of
   * the route when there is none), which keys the registry, and the names of
   * all placeholders.
   */
  function SplitTemplate(route: string): (string, seq<string>) {
    var key := match FirstMatchFrom(route, 0) case Some(f) => route[..f] case None => route;
    (key, FindAllFrom(route, 0))
  }

  /** A placeholder name: non-empty and free of braces. */
  predicate NameShaped(n: string) {
    |n| > 0 && forall k :: 0 <= k < |n| ==> !IsBrace(n[k])
  }

  /** Every placeholder name is non-empty and holds no brace. */
  lemma {:induction false} NamesBraceFree(s: string, i: nat)
    ensures forall n :: n in FindAllFrom(s, i) ==> NameShaped(n)
    decreases |s| - i
  {
    if i < |s| {
      match MatchEnd(s, i)
      case Some(j) =>
        NamesBraceFree(s, j + 1);
        SliceBraceFree(s, i + 1, j);
        FindAllStep(s, i, j);
        NamesCons(s[i + 1..j], FindAllFrom(s, j + 1));
      case None =>
        NamesBraceFree(s, i + 1);
    }
  }

  lemma FindAllStep(s: string, i: nat, j: nat)
    requires i < |s| && MatchEnd(s, i) == Some(j)
    ensures FindAllFrom(s, i) == [s[i + 1..j]] + FindAllFrom(s, j + 1)
  {
  }

  lemma SliceBraceFree(s: string, a: nat, b: nat)
    requires a < b <= |s| && forall k :: a <= k < b ==> !IsBrace(s[k])
    ensures NameShaped(s[a..b])
  {
  }

  lemma NamesCons(x: string, ys: seq<string>)
    requires NameShaped(x) && forall n :: n in ys ==> NameShaped(n)
    ensures forall n :: n in [x] + ys ==> NameShaped(n)
  {
  }

  /** There are names exactly when there is a first placeholder. */
  lemma {:induction false} NamesIffMatch(s: string, i: nat)
    ensures FindAllFrom(s, i) == [] <==> FirstMatchFrom(s, i).None?
    decreases |s| - i
  {
    if i < |s| && MatchEnd(s, i).None? {
      NamesIffMatch(s, i + 1);
    }
  }

  /**
   * The key is the text before the first placeholder, or the whole route
   * when there is none, which is exactly when there are no names; every name
   * is non-empty and brace-free.
   */
  lemma TemplateShape(route: string)
    ensures var (key, names) := SplitTemplate(route);
            && (FirstMatchFrom(route, 0).Some? ==> key == route[..FirstMatchFrom(route, 0).value])
            && (names == [] <==> key == route)
            && forall n :: n in names ==> NameShaped(n)
  {
    NamesIffMatch(route, 0);
    NamesBraceFree(route, 0);
  }

  lemma {:induction false} NextBraceShift(a: string, b: string, j: nat)
    requires j <= |b|
    ensures NextBrace(a + b, |a| + j) == (match NextBrace(b, j) case Some(k) => Some(|a| + k) case None => None)
    decreases |b| - j
  {
    if j < |b| {
      assert (a + b)[|a| + j] == b[j];
      NextBraceShift(a, b, j + 1);
    }
  }

  lemma MatchEndShift(a: string, b: string, j: nat, i: nat)
    requires j <= |b| && i == |a| + j
    ensures MatchEnd(b, j).Some? ==> MatchEnd(a + b, i) == Some(|a| + MatchEnd(b, j).value)
    ensures MatchEnd(b, j).None? ==> MatchEnd(a + b, i).None?
  {
    if j < |b| {
      assert (a + b)[|a| + j] == b[j];
      NextBraceShift(a, b, j + 1);
      var nb := NextBrace(b, j + 1);
      if nb.Some? {
        assert (a + b)[|a| + nb.value] == b[nb.value];
      }
    }
  }

  /** What follows a prefix is scanned on its own. */
  lemma {:induction false} FindAllShift(a: string, b: string, j: nat, i: nat)
    requires j <= |b| && i == |a| + j
    ensures FindAllFrom(a + b, i) == FindAllFrom(b, j)
    decreases |b| - j
  {
    if j < |b| {
      var m := MatchEnd(b, j);
      if m.Some? {
        var k, e := m.value, |a| + m.value;
        assert k < |b|;
        MatchEndShift(a, b, j, i);
        FindAllShift(a, b, k + 1, e + 1);
        ShiftMatched(a, b, j, k, i, e);
      } else {
        MatchEndShift(a, b, j, i);
        FindAllShift(a, b, j + 1, i + 1);
        ShiftSkipped(a, b, j, i);
      }
    }
  }

  lemma ShiftMatched(a: string, b: string, j: nat, k: nat, i: nat, e: nat)
    requires j < |b| && i == |a| + j && e == |a| + k
    requires MatchEnd(b, j) == Some(k) && MatchEnd(a + b, i) == Some(e)
    requires FindAllFrom(a + b, e + 1) == FindAllFrom(b, k + 1)
    ensures FindAllFrom(a + b, i) == FindAllFrom(b, j)
  {
    FindAllStep(b, j, k);
    FindAllStep(a + b, i, e);
    SliceShift(a, b, j, k, i, e);
  }

  lemma ShiftSkipped(a: string, b: string, j: nat, i: nat)
    requires j < |b| && i == |a| + j
    requires MatchEnd(b, j).None? && MatchEnd(a + b, i).None?
    requires FindAllFrom(a + b, i + 1) == FindAllFrom(b, j + 1)
    ensures FindAllFrom(a + b, i) == FindAllFrom(b, j)
  {
    FindAllSkip(b, j);
    FindAllSkip(a + b, i);
  }

  lemma SliceShift(a: string, b: string, j: nat, k: nat, i: nat, e: nat)
    requires j < k <= |b| && i == |a| + j && e == |a| + k
    ensures (a + b)[i + 1..e] == b[j + 1..k]
  {
  }

  lemma FindAllSkip(s: string, i: nat)
    requires i < |s| && MatchEnd(s, i).None?
    ensures FindAllFrom(s, i) == FindAllFrom(s, i + 1)
  {
  }

  /** Text without an opening brace holds no placeholder. */
  lemma {:induction false} NoOpenNoMatch(s: string, i: nat, stop: nat)
    requires i <= stop <= |s| && forall k :: i <= k < stop ==> s[k] != '{'
    ensures FindAllFrom(s, i) == FindAllFrom(s, stop)
    ensures FirstMatchFrom(s, i) == FirstMatchFrom(s, stop)
    decreases stop - i
  {
    if i < stop {
      NoOpenNoMatch(s, i + 1, stop);
    }
  }

  /**
   * A template written as a brace-free prefix, a placeholder and the rest is
   * keyed by the prefix; its names are the placeholder's and those of the rest.
   */
  lemma TemplateParams(prefix: string, name: string, rest: string)
    requires forall k :: 0 <= k < |prefix| ==> prefix[k] != '{'
    requires |name| > 0 && forall k :: 0 <= k < |name| ==> !IsBrace(name[k])
    ensures SplitTemplate(prefix + "{" + name + "}" + rest) == (prefix, [name] + FindAllFrom(rest, 0))
  {
    var head := prefix + "{" + name + "}";
    var s := head + rest;
    var p, e := |prefix|, |prefix| + 1 + |name|;
    PlaceholderAt(prefix, name, rest, s);
    NoOpenNoMatch(s, 0, p);
    FindAllStep(s, p, e);
    FindAllShift(head, rest, 0, e + 1);
  }

  /** The placeholder written after a prefix without `{` is where the scan finds a match. */
  lemma PlaceholderAt(prefix: string, name: string, rest: string, s: string)
    requires forall k :: 0 <= k < |prefix| ==> prefix[k] != '{'
    requires |name| > 0 && forall k :: 0 <= k < |name| ==> !IsBrace(name[k])
    requires s == prefix + "{" + name + "}" + rest
    ensures MatchEnd(s, |prefix|) == Some(|prefix| + 1 + |name|) && FirstMatchFrom(s, |prefix|) == Some(|prefix|)
    ensures s[|prefix| + 1..|prefix| + 1 + |name|] == name && s[..|prefix|] == prefix
    ensures forall k :: 0 <= k < |prefix| ==> s[k] != '{'
  {
    var p := |prefix|;
    assert s[p] == '{';
    assert forall k :: p < k < p + 1 + |name| ==> s[k] == name[k - p - 1];
    assert s[p + 1 + |name|] == '}';
    NextBraceFrom(s, p + 1, p + 1 + |name|);
    assert s[p + 1..p + 1 + |name|] == name;
    assert s[..p] == prefix;
    assert forall k :: 0 <= k < p ==> s[k] == prefix[k];
  }

  lemma {:induction false} NextBraceFrom(s: string, j: nat, b: nat)
    requires j <= b < |s| && IsBrace(s[b]) && forall k :: j <= k < b ==> !IsBrace(s[k])
    ensures NextBrace(s, j) == Some(b)
    decreases b - j
  {
    if j < b {
      NextBraceFrom(s, j + 1, b);
    }
  }

  /** The route of the shown test: `/test/{param}` is keyed by `/test/` and has the one name `param`. */
  lemma TestTemplate()
    ensures SplitTemplate("/test/{param}") == ("/test/", ["param"])
  {
    TemplateParams("/test/", "param", "");
    assert "/test/" + "{" + "param" + "}" + "" == "/test/{param}";
    assert FindAllFrom("", 0) == [];
    assert ["param"] + [] == ["param"];
  }

  // ------------------------------------------------------- registration

  /** A handler's signature, as `inspect.getfullargspec` reports it. */
  datatype Signature = Signature(handler: HandlerId, args: seq<string>, defaults: seq<Value>, annotations: OMap<TypeSpec>)

  /** `zip(args[-len(defaults):], defaults)`, with Python's slicing of a negative or zero start. */
  function DefaultPairs(args: seq<string>, defaults: seq<Value>): (r: seq<(string, Value)>)
    ensures |defaults| <= |args| ==>
              && |r| == |defaults|
              && forall k :: 0 <= k < |r| ==> r[k] == (args[|args| - |defaults|..][k], defaults[k])
  {
    var start := if |defaults| == 0 || |defaults| > |args| then 0 else |args| - |defaults|;
    var tail := args[start..];
    var n := if |tail| < |defaults| then |tail| else |defaults|;
    seq(n, k requires 0 <= k < n => (tail[k], defaults[k]))
  }

  /** Where a handler parameter's value comes from. */
  datatype Source = FromHeader | FromCookie | Skipped | FromBody | FromContext | FromQuery

  /** The `if`/`elif` chain of lines 156-168 for one annotated name. */
  function Classify(pathNames: seq<string>, defaults: OMap<Value>, annotations: OMap<TypeSpec>, name: string): Source
    requires name in annotations.items
  {
    var d := defaults.Get(name);
    if d == Some(HeadersMarker) then FromHeader
    else if d == Some(CookiesMarker) then FromCookie
    else if name in pathNames || name == "return" then Skipped
    else if d.Some? && d.value.ModelV? then FromBody
    else if annotations.items[name] == RequestType then FromContext
    else FromQuery
  }

  /** The names of `ks` classified as `kind`, in order. */
  function Bucket(pathNames: seq<string>, defaults: OMap<Value>, annotations: OMap<TypeSpec>, ks: seq<string>, kind: Source): (r: seq<string>)
    requires forall k :: k in ks ==> k in annotations.items
    ensures forall n :: n in r <==> n in ks && Classify(pathNames, defaults, annotations, n) == kind
    decreases |ks|
  {
    if ks == [] then []
    else
      var init, k := ks[..|ks| - 1], ks[|ks| - 1];
      assert ks == init + [k];
      Bucket(pathNames, defaults, annotations, init, kind)
        + (if Classify(pathNames, defaults, annotations, k) == kind then [k] else [])
  }

  /** The last name of `ks` classified as `kind`: `body` and `request` are overwritten by later ones. */
  function LastOf(pathNames: seq<string>, defaults: OMap<Value>, annotations: OMap<TypeSpec>, ks: seq<string>, kind: Source): (r: Option<string>)
    requires forall k :: k in ks ==> k in annotations.items
    ensures r.Some? ==> r.value in ks && Classify(pathNames, defaults, annotations, r.value) == kind
    ensures r.None? ==> forall k :: k in ks ==> Classify(pathNames, defaults, annotations, k) != kind
    decreases |ks|
  {
    if ks == [] then None
    else
      var init, k := ks[..|ks| - 1], ks[|ks| - 1];
      assert ks == init + [k];
      if Classify(pathNames, defaults, annotations, k) == kind then Some(k)
      else LastOf(pathNames, defaults, annotations, init, kind)
  }

  /** The descriptor `add_api_route` builds; `order` is the order in which the set of path names iterates. */
  function Describe(route: string, order: seq<string>, sig: Signature): PathInfo
    requires sig.annotations.Valid()
  {
    var defaults := FromPairs(DefaultPairs(sig.args, sig.defaults));
    var a, ks := sig.annotations, sig.annotations.keys;
    PathInfo(
      route, sig.handler, order,
      Bucket(order, defaults, a, ks, FromQuery),
      Bucket(order, defaults, a, ks, FromHeader),
      Bucket(order, defaults, a, ks, FromCookie),
      defaults, a,
      LastOf(order, defaults, a, ks, FromBody),
      a.Get("return"),
      LastOf(order, defaults, a, ks, FromContext))
  }

  /** The registry key of a route: its literal prefix without one trailing `/`. */
  function RouteKey(route: string): string {
    DropTrailingSlash(SplitTemplate(route).0)
  }

  /** The registry after registering `route`: its descriptor appended under its key, nothing else changed. */
  function Register(paths: map<string, seq<PathInfo>>, route: string, order: seq<string>, sig: Signature): (r: map<string, seq<PathInfo>>)
    requires sig.annotations.Valid()
    ensures RouteKey(route) in r
    ensures r[RouteKey(route)] == (if RouteKey(route) in paths then paths[RouteKey(route)] else []) + [Describe(route, order, sig)]
    ensures forall k :: k != RouteKey(route) ==> (k in r <==> k in paths) && (k in paths ==> r[k] == paths[k])
  {
    var key := RouteKey(route);
    paths[key := (if key in paths then paths[key] else []) + [Describe(route, order, sig)]]
  }

  /**
   * `defaults_dict`: with distinct argument names, the keys are exactly the
   * last `len(defaults)` arguments, and the `k`-th of them maps to the
   * `k`-th default.
   */
  lemma DefaultsContent(args: seq<string>, defaults: seq<Value>)
    requires Distinct(args) && |defaults| <= |args|
    ensures var d := FromPairs(DefaultPairs(args, defaults));
            var tail := args[|args| - |defaults|..];
            && (forall n :: n in d.items <==> n in tail)
            && forall k :: 0 <= k < |defaults| ==> tail[k] in d.items && d.items[tail[k]] == defaults[k]
  {
    var pairs := DefaultPairs(args, defaults);
    assert Names(pairs) == args[|args| - |defaults|..];
    FromPairsKeys(pairs);
    forall k | 0 <= k < |defaults|
      ensures pairs[k].0 in FromPairs(pairs).items && FromPairs(pairs).items[pairs[k].0] == pairs[k].1
    {
      DefaultNotRepeated(args, defaults, k);
      FromPairsLast(pairs, k);
    }
  }

  /** With distinct arguments, no later pair repeats the name of the `k`-th. */
  lemma DefaultNotRepeated(args: seq<string>, defaults: seq<Value>, k: nat)
    requires Distinct(args) && k < |defaults| <= |args|
    ensures var pairs := DefaultPairs(args, defaults);
            forall m :: k < m < |pairs| ==> pairs[m].0 != pairs[k].0
  {
    var pairs := DefaultPairs(args, defaults);
    var start := |args| - |defaults|;
    forall m | k < m < |pairs|
      ensures pairs[m].0 != pairs[k].0
    {
      assert pairs[m].0 == args[start..][m] == args[start + m];
      assert pairs[k].0 == args[start..][k] == args[start + k];
    }
  }

  /**
   * Each annotated name lands in the bucket the precedence of lines 157-168
   * gives it: a `Headers` default, a `Cookies` default, a path name or
   * `return` (skipped), a model-instance default (body), a `Request`
   * annotation (context), and otherwise a query.
   */
  lemma Classification(route: string, order: seq<string>, sig: Signature, n: string)
    requires sig.annotations.Valid()
    ensures var info := Describe(route, order, sig);
            var d := info.defaults.Get(n);
            var a := sig.annotations;
            var free := n in a.items && d != Some(HeadersMarker) && d != Some(CookiesMarker) && n !in order && n != "return";
            && (n in info.headers <==> n in a.items && d == Some(HeadersMarker))
            && (n in info.cookies <==> n in a.items && d == Some(CookiesMarker))
            && (n in info.queryParams <==> free && !(d.Some? && d.value.ModelV?) && a.items[n] != RequestType)
            && (info.body == Some(n) ==> free && d.Some? && d.value.ModelV?)
            && (info.requestParam == Some(n) ==> free && !(d.Some? && d.value.ModelV?) && a.items[n] == RequestType)
  {
    var info := Describe(route, order, sig);
    var a := sig.annotations;
    assert forall k :: k in a.keys <==> k in a.items;
    if info.body == Some(n) {
      assert Classify(order, info.defaults, a, n) == FromBody;
    }
    if info.requestParam == Some(n) {
      assert Classify(order, info.defaults, a, n) == FromContext;
    }
  }

  /** No name is in two buckets, and a path name is in none. */
  lemma ClassifiedOnce(route: string, order: seq<string>, sig: Signature, n: string)
    requires sig.annotations.Valid()
    ensures var info := Describe(route, order, sig);
            var count := (if n in info.queryParams then 1 else 0) + (if n in info.headers then 1 else 0)
                         + (if n in info.cookies then 1 else 0) + (if info.body == Some(n) then 1 else 0)
                         + (if info.requestParam == Some(n) then 1 else 0);
            && count <= 1
            && (n in order && info.defaults.Get(n) != Some(HeadersMarker) && info.defaults.Get(n) != Some(CookiesMarker) ==> count == 0)
  {
    Classification(route, order, sig, n);
  }

  /**
   * A registered header parameter always has its `Headers` marker as default,
   * so an absent header is never reported missing: it is converted from the
   * marker, whose text is empty, and under a `str` annotation it binds to `""`.
   */
  lemma AbsentHeaderUsesMarker(rt: Runtime, route: string, order: seq<string>, sig: Signature, kwargs: OMap<string>, h: string)
    requires sig.annotations.Valid()
    requires h in Describe(route, order, sig).headers && h !in kwargs.items
    ensures h in sig.annotations.items
    ensures var t := sig.annotations.items[h];
            HeaderItem(rt, Describe(route, order, sig), kwargs, h)
              == match Convert(rt, t, HeadersMarker)
                 case None => Failure(Mismatch(rt, h, t, HeadersMarker))
                 case Some(x) => Success(HeaderParam(h, x))
    ensures sig.annotations.items[h] == StrType ==>
              HeaderItem(rt, Describe(route, order, sig), kwargs, h) == Success(HeaderParam(h, StrV("")))
  {
    var info := Describe(route, order, sig);
    Classification(route, order, sig, h);
    assert info.varTypes == sig.annotations;
    MarkedHeaderItem(rt, info, kwargs, h);
  }

  /**
   * Likewise a registered cookie parameter absent from the `Cookie` header is
   * converted from its `Cookies` marker, and under a `str` annotation it is
   * stored as the attribute-less cookie with the value `""`.
   */
  lemma AbsentCookieUsesMarker(rt: Runtime, route: string, order: seq<string>, sig: Signature, jar: OMap<Cookie>, c: string)
    requires sig.annotations.Valid()
    requires c in Describe(route, order, sig).cookies && c !in jar.items
    ensures c in sig.annotations.items
    ensures var t := sig.annotations.items[c];
            CookieStep(rt, Describe(route, order, sig), jar, c)
              == match Convert(rt, t, CookiesMarker)
                 case None => Failure(Mismatch(rt, c, t, CookiesMarker))
                 case Some(x) => Success(jar.Put(c, PlainCookie(c, x)))
    ensures sig.annotations.items[c] == StrType ==>
              CookieStep(rt, Describe(route, order, sig), jar, c) == Success(jar.Put(c, PlainCookie(c, StrV(""))))
  {
    var info := Describe(route, order, sig);
    Classification(route, order, sig, c);
    assert info.varTypes == sig.annotations;
    MarkedCookieStep(rt, info, jar, c);
  }

  /**
   * `return` is never a parameter source when no argument is called
   * `return` (Python forbids it), and its annotation is the response model.
   */
  lemma ReturnIsResponseModel(route: string, order: seq<string>, sig: Signature)
    requires sig.annotations.Valid() && "return" !in sig.args
    ensures var info := Describe(route, order, sig);
            && "return" !in info.queryParams && "return" !in info.headers && "return" !in info.cookies
            && info.body != Some("return") && info.requestParam != Some("return")
            && info.responseModel == (if "return" in sig.annotations.items then Some(sig.annotations.items["return"]) else None)
  {
    var pairs := DefaultPairs(sig.args, sig.defaults);
    FromPairsKeys(pairs);
    PairNames(sig.args, sig.defaults);
    Classification(route, order, sig, "return");
  }

  /** The name of every pair is an argument. */
  lemma PairNames(args: seq<string>, defaults: seq<Value>)
    ensures forall n :: n in Names(DefaultPairs(args, defaults)) ==> n in args
  {
    var names := Names(DefaultPairs(args, defaults));
    var start := if |defaults| == 0 || |defaults| > |args| then 0 else |args| - |defaults|;
    forall n | n in names
      ensures n in args
    {
      var j :| 0 <= j < |names| && names[j] == n;
      assert n == args[start..][j];
    }
  }

  /** `body` and `request` are the last annotated names of their kind: later ones overwrite. */
  lemma {:induction false} LastOfIsLast(pathNames: seq<string>, defaults: OMap<Value>, annotations: OMap<TypeSpec>, ks: seq<string>, kind: Source)
    returns (i: nat)
    requires forall k :: k in ks ==> k in annotations.items
    requires LastOf(pathNames, defaults, annotations, ks, kind).Some?
    ensures i < |ks| && ks[i] == LastOf(pathNames, defaults, annotations, ks, kind).value
    ensures forall j :: i < j < |ks| ==> Classify(pathNames, defaults, annotations, ks[j]) != kind
    decreases |ks|
  {
    var init, k := ks[..|ks| - 1], ks[|ks| - 1];
    assert ks == init + [k];
    if Classify(pathNames, defaults, annotations, k) == kind {
      i := |ks| - 1;
    } else {
      i := LastOfIsLast(pathNames, defaults, annotations, init, kind);
      assert forall j :: 0 <= j < |init| ==> init[j] == ks[j];
    }
  }

  /**
   * A route without placeholders shares its key with the same route plus a
   * trailing `/`: both register under one list.
   */
  lemma SlashSharesKey(route: string)
    requires forall k :: 0 <= k < |route| ==> route[k] != '{'
    requires !EndsWith(route, "/")
    ensures RouteKey(route + "/") == RouteKey(route) == route
  {
    var s := route + "/";
    NoOpenNoMatch(route, 0, |route|);
    NoOpenNoMatch(s, 0, |s|);
    assert s[..|s| - 1] == route;
  }

  // -------------------------------------------------------------- lookup

  /** The outcome of `get_api_path_info`: a descriptor, `None`, or a raised exception. */
  datatype Lookup = Found(info: PathInfo) | NotFound | Raised(failure: Failure)

  /** The first descriptor, in registration order, with `n` path parameters. */
  function FirstFit(infos: seq<PathInfo>, n: nat): (r: Option<nat>)
    ensures r.Some? ==> r.value < |infos| && |infos[r.value].pathParams| == n
                        && forall m :: 0 <= m < r.value ==> |infos[m].pathParams| != n
    ensures r.None? ==> forall m :: 0 <= m < |infos| ==> |infos[m].pathParams| != n
    decreases |infos|
  {
    if infos == [] then None
    else if |infos[0].pathParams| == n then Some(0)
    else match FirstFit(infos[1..], n)
      case Some(j) => Some(j + 1)
      case None => None
  }

  /** Every (name, segment) pair of the zip converts under the name's annotation. */
  predicate SegmentsConvert(rt: Runtime, info: PathInfo, segs: seq<string>) {
    forall k :: 0 <= k < |info.pathParams| && k < |segs| ==>
      info.pathParams[k] in info.varTypes.items && Convert(rt, info.varTypes.items[info.pathParams[k]], StrV(segs[k])).Some?
  }

  const NoRoute: string := "No route found."

  /** The search of lines 197-213 from prefix length `i + 1` down. */
  function Search(rt: Runtime, paths: map<string, seq<PathInfo>>, parts: seq<string>, i: int): Lookup
    requires -1 <= i < |parts|
    decreases i + 1
  {
    if i < 0 then NotFound
    else
      var key := Join(parts[..i + 1], "/");
      if key !in paths then Search(rt, paths, parts, i - 1)
      else
        match FirstFit(paths[key], |parts| - i - 1)
        case None => Search(rt, paths, parts, i - 1)
        case Some(j) =>
          if SegmentsConvert(rt, paths[key][j], parts[i + 1..]) then Found(paths[key][j])
          else Raised(Raise(rt.reasons, 404, Some(NoRoute)))
  }

  /** The segments of a request path, after dropping one trailing `/`. */
  function RouteParts(route: string): seq<string> {
    Split(DropTrailingSlash(route), "/")
  }

  /** What `get_api_path_info(route)` returns. */
  function Resolve(rt: Runtime, paths: map<string, seq<PathInfo>>, route: string): Lookup {
    var parts := RouteParts(route);
    Search(rt, paths, parts, |parts| - 1)
  }

  /** The prefix of length `i + 1` holds a descriptor with the right count. */
  predicate Fits(paths: map<string, seq<PathInfo>>, parts: seq<string>, i: nat)
    requires i < |parts|
  {
    var key := Join(parts[..i + 1], "/");
    key in paths && FirstFit(paths[key], |parts| - i - 1).Some?
  }

  /** `None` exactly when no prefix, at any length, holds a descriptor with a matching count. */
  lemma {:induction false} SearchNotFound(rt: Runtime, paths: map<string, seq<PathInfo>>, parts: seq<string>, i: int)
    requires -1 <= i < |parts|
    ensures Search(rt, paths, parts, i) == NotFound <==> forall j :: 0 <= j <= i ==> !Fits(paths, parts, j)
    decreases i + 1
  {
    if i >= 0 {
      SearchNotFound(rt, paths, parts, i - 1);
      if Fits(paths, parts, i) {
        assert Search(rt, paths, parts, i) != NotFound;
      } else {
        assert Search(rt, paths, parts, i) == Search(rt, paths, parts, i - 1);
      }
    }
  }

  /**
   * Otherwise the search commits to the longest prefix that fits and to the
   * first fitting descriptor there: it is returned when its segments convert,
   * and a 404 is raised when one does not, without trying anything else.
   */
  lemma {:induction false} SearchCommits(rt: Runtime, paths: map<string, seq<PathInfo>>, parts: seq<string>, i: int) returns (j: nat)
    requires -1 <= i < |parts| && Search(rt, paths, parts, i) != NotFound
    ensures j <= i && Fits(paths, parts, j)
    ensures forall m :: j < m <= i ==> !Fits(paths, parts, m)
    ensures Search(rt, paths, parts, i) == Commit(rt, paths, parts, j)
    decreases i + 1
  {
    if Fits(paths, parts, i) {
      j := i;
      SearchFits(rt, paths, parts, i);
    } else {
      SearchSkips(rt, paths, parts, i);
      j := SearchCommits(rt, paths, parts, i - 1);
    }
  }

  /**
   * What the search gives at a prefix that fits: the first fitting descriptor
   * there when its segments convert, and a 404 when one does not.
   */
  function Commit(rt: Runtime, paths: map<string, seq<PathInfo>>, parts: seq<string>, i: nat): Lookup
    requires i < |parts| && Fits(paths, parts, i)
  {
    var infos := paths[Join(parts[..i + 1], "/")];
    var info := infos[FirstFit(infos, |parts| - i - 1).value];
    if SegmentsConvert(rt, info, parts[i + 1..]) then Found(info) else Raised(Raise(rt.reasons, 404, Some(NoRoute)))
  }

  /** The search at a prefix that fits ends there. */
  lemma SearchFits(rt: Runtime, paths: map<string, seq<PathInfo>>, parts: seq<string>, i: nat)
    requires i < |parts| && Fits(paths, parts, i)
    ensures Search(rt, paths, parts, i) == Commit(rt, paths, parts, i)
  {
  }

  /** The search passes over a prefix that does not fit. */
  lemma SearchSkips(rt: Runtime, paths: map<string, seq<PathInfo>>, parts: seq<string>, i: nat)
    requires i < |parts| && !Fits(paths, parts, i)
    ensures Search(rt, paths, parts, i) == Search(rt, paths, parts, i - 1)
  {
  }

  /** A registry with no routes finds nothing. */
  lemma EmptyRegistry(rt: Runtime, route: string)
    ensures Resolve(rt, map[], route) == NotFound
  {
    var parts := RouteParts(route);
    SearchNotFound(rt, map[], parts, |parts| - 1);
  }

  /**
   * The shown test: `/test/{param}` registered for a handler `(param: str)`
   * is keyed by `/test`, and `/test/123` resolves to its descriptor, whose one
   * path parameter is `param` and which has no other source.
   */
  lemma TestRoute(rt: Runtime, h: HandlerId)
    ensures var sig := Signature(h, ["param"], [], OMap(["param"], map["param" := StrType]));
            var paths := Register(map[], "/test/{param}", ["param"], sig);
            var info := Describe("/test/{param}", ["param"], sig);
            && paths.Keys == {"/test"}
            && Resolve(rt, paths, "/test/123") == Found(info)
            && info.pathParams == ["param"] && info.queryParams == [] && info.headers == [] && info.cookies == []
            && info.body == None && info.requestParam == None && info.responseModel == None
  {
    var sig := Signature(h, ["param"], [], OMap(["param"], map["param" := StrType]));
    TestDescriptor(sig);
    TestRegistry(sig);
    TestResolve(rt, Describe("/test/{param}", ["param"], sig));
  }

  lemma TestRegistry(sig: Signature)
    requires sig.annotations.Valid()
    ensures Register(map[], "/test/{param}", ["param"], sig) == map["/test" := [Describe("/test/{param}", ["param"], sig)]]
  {
    TestTemplate();
    assert RouteKey("/test/{param}") == "/test";
    assert [] + [Describe("/test/{param}", ["param"], sig)] == [Describe("/test/{param}", ["param"], sig)];
  }

  lemma TestResolve(rt: Runtime, info: PathInfo)
    requires info.pathParams == ["param"] && info.varTypes.items == map["param" := StrType]
    ensures Resolve(rt, map["/test" := [info]], "/test/123") == Found(info)
  {
    TestParts();
    assert SegmentsConvert(rt, info, ["", "test", "123"][2..]);
    ResolveSecondPrefix(rt, info, "/test/123", ["", "test", "123"], "/test");
  }

  lemma ResolveSecondPrefix(rt: Runtime, info: PathInfo, route: string, parts: seq<string>, key: string)
    requires RouteParts(route) == parts && |parts| == 3
    requires Join(parts, "/") != key && Join(parts[..2], "/") == key
    requires |info.pathParams| == 1 && SegmentsConvert(rt, info, parts[2..])
    ensures Resolve(rt, map[key := [info]], route) == Found(info)
  {
    var paths := map[key := [info]];
    assert parts[..3] == parts;
    assert FirstFit([info], 1) == Some(0);
    assert Search(rt, paths, parts, 2) == Search(rt, paths, parts, 1);
  }

  lemma TestDescriptor(sig: Signature)
    requires sig.args == ["param"] && sig.defaults == [] && sig.annotations == OMap(["param"], map["param" := StrType])
    ensures var info := Describe("/test/{param}", ["param"], sig);
            && info.pathParams == ["param"] && info.queryParams == [] && info.headers == [] && info.cookies == []
            && info.body == None && info.requestParam == None && info.responseModel == None
            && info.varTypes == sig.annotations
  {
    var a := sig.annotations;
    var d := FromPairs(DefaultPairs(["param"], []));
    assert DefaultPairs(["param"], []) == [];
    assert Classify(["param"], d, a, "param") == Skipped;
    assert a.keys == ["param"] && ["param"][..0] == [];
  }

  lemma TestParts()
    ensures RouteParts("/test/123") == ["", "test", "123"]
    ensures Join(["", "test", "123"], "/") == "/test/123"
    ensures Join(["", "test", "123"][..2], "/") == "/test"
  {
    var parts := ["", "test", "123"];
    TestJoins();
    assert Lacks("test", '/') && Lacks("123", '/');
    AllLackNotContain(parts, "/");
    SingleCharBorderless('/');
    SplitJoin(parts, "/");
    var path := "/test/123";
    assert path[|path| - 1..] == "3";
    assert DropTrailingSlash(path) == path;
  }

  lemma TestJoins()
    ensures Join(["", "test", "123"], "/") == "/test/123"
    ensures Join(["", "test", "123"][..2], "/") == "/test"
  {
    assert Join(["123"], "/") == "123";
    assert Join(["test", "123"], "/") == "test/123";
    assert ["", "test", "123"][1..] == ["test", "123"];
    assert ["test", "123"][1..] == ["123"];
    assert ["", "test", "123"][..2] == ["", "test"];
    assert ["", "test"][1..] == ["test"];
  }

  // ------------------------------------------------------------ registry

  /** `RegisteredPaths`: the descriptors of one HTTP method, listed under their route keys. */
  class RegisteredPaths {
    var paths: map<string, seq<PathInfo>>

    constructor ()
      ensures paths == map[]
    {
      paths := map[];
    }

    /**
     * `add_api_route(route, function)`. The names of the route's placeholders
     * form a set, and `order` is the order in which that set iterates.
     */
    method AddApiRoute(route: string, sig: Signature, order: seq<string>)
      requires sig.annotations.Valid()
      requires Distinct(order) && forall n :: n in order <==> n in SplitTemplate(route).1
      modifies this
      ensures paths == Register(old(paths), route, order, sig)
    {
      var (original, _) := SplitTemplate(route);
      var defaults := DefaultsOf(sig.args, sig.defaults);
      var a := sig.annotations;
      var queries, headers, cookies, body, request := ClassifyAll(order, defaults, a);
      var responseModel := a.Get("return");
      if EndsWith(original, "/") {
        original := original[..|original| - 1];
      }
      var info := PathInfo(route, sig.handler, order, queries, headers, cookies, defaults, a, body, responseModel, request);
      assert original == RouteKey(route);
      assert info == Describe(route, order, sig);
      ghost var before := paths;
      if original in paths {
        paths := paths[original := paths[original] + [info]];
        assert paths == before[original := before[original] + [info]];
      } else {
        paths := paths[original := [info]];
        assert [] + [info] == [info];
        assert paths == before[original := [info]];
      }
    }

    /** `get_api_path_info(route)`. */
    method GetApiPathInfo(rt: Runtime, route: string) returns (r: Lookup)
      ensures r == Resolve(rt, paths, route)
    {
      r := SearchTable(rt, paths, route);
    }
  }

  /** The body of `get_api_path_info` over the registry's dictionary. */
  method SearchTable(rt: Runtime, table: map<string, seq<PathInfo>>, route: string) returns (r: Lookup)
    ensures r == Resolve(rt, table, route)
  {
    var path := route;
    if EndsWith(path, "/") {
      path := path[..|path| - 1];
    }
    assert path == DropTrailingSlash(route);
    var parts := Split(path, "/");
    assert parts == RouteParts(route);
    var i := |parts| - 1;
    while i >= 0
      invariant -1 <= i < |parts|
      invariant Resolve(rt, table, route) == Search(rt, table, parts, i)
      decreases i + 1
    {
      var found := TryKey(rt, table, parts, i);
      if found.Some? {
        return found.value;
      }
      i := i - 1;
    }
    r := NotFound;
  }

  /** The loop of line 153: each argument with a default, mapped to it. */
  method DefaultsOf(args: seq<string>, values: seq<Value>) returns (defaults: OMap<Value>)
    ensures defaults == FromPairs(DefaultPairs(args, values))
  {
    var pairs := DefaultPairs(args, values);
    defaults := Empty();
    for k := 0 to |pairs|
      invariant defaults == FromPairs(pairs[..k])
    {
      FromPairsStep(pairs, k);
      defaults := defaults.Put(pairs[k].0, pairs[k].1);
    }
    assert pairs[..|pairs|] == pairs;
  }

  /** The loop of lines 155-168 over the annotated names, filling the sets of each source. */
  method ClassifyAll(order: seq<string>, defaults: OMap<Value>, a: OMap<TypeSpec>)
    returns (queries: seq<string>, headers: seq<string>, cookies: seq<string>, body: Option<string>, request: Option<string>)
    requires a.Valid()
    ensures queries == Bucket(order, defaults, a, a.keys, FromQuery)
    ensures headers == Bucket(order, defaults, a, a.keys, FromHeader)
    ensures cookies == Bucket(order, defaults, a, a.keys, FromCookie)
    ensures body == LastOf(order, defaults, a, a.keys, FromBody)
    ensures request == LastOf(order, defaults, a, a.keys, FromContext)
  {
    var ks := a.keys;
    queries, headers, cookies := [], [], [];
    body, request := None, None;
    for i := 0 to |ks|
      invariant queries == Bucket(order, defaults, a, ks[..i], FromQuery)
      invariant headers == Bucket(order, defaults, a, ks[..i], FromHeader)
      invariant cookies == Bucket(order, defaults, a, ks[..i], FromCookie)
      invariant body == LastOf(order, defaults, a, ks[..i], FromBody)
      invariant request == LastOf(order, defaults, a, ks[..i], FromContext)
    {
      var name := ks[i];
      ClassifyStep(order, defaults, a, ks, i);
      var d := defaults.Get(name);
      if d == Some(HeadersMarker) {
        headers := headers + [name];
      } else if d == Some(CookiesMarker) {
        cookies := cookies + [name];
      } else if name in order || name == "return" {
      } else if d.Some? && d.value.ModelV? {
        body := Some(name);
      } else if a.items[name] == RequestType {
        request := Some(name);
      } else {
        queries := queries + [name];
      }
    }
    assert ks[..|ks|] == ks;
  }

  lemma ClassifyStep(order: seq<string>, defaults: OMap<Value>, a: OMap<TypeSpec>, ks: seq<string>, i: nat)
    requires i < |ks| && forall k :: k in ks ==> k in a.items
    ensures forall k :: k in ks[..i] ==> k in a.items
    ensures forall k :: k in ks[..i + 1] ==> k in a.items
    ensures forall kind ::
              Bucket(order, defaults, a, ks[..i + 1], kind)
              == Bucket(order, defaults, a, ks[..i], kind) + (if Classify(order, defaults, a, ks[i]) == kind then [ks[i]] else [])
    ensures forall kind ::
              LastOf(order, defaults, a, ks[..i + 1], kind)
              == if Classify(order, defaults, a, ks[i]) == kind then Some(ks[i]) else LastOf(order, defaults, a, ks[..i], kind)
  {
    var pre := ks[..i + 1];
    assert pre[..i] == ks[..i] && pre[|pre| - 1] == ks[i];
    forall kind: Source
      ensures Bucket(order, defaults, a, pre, kind)
              == Bucket(order, defaults, a, ks[..i], kind) + (if Classify(order, defaults, a, ks[i]) == kind then [ks[i]] else [])
      ensures LastOf(order, defaults, a, pre, kind)
              == if Classify(order, defaults, a, ks[i]) == kind then Some(ks[i]) else LastOf(order, defaults, a, ks[..i], kind)
    {
    }
  }

  /** One pass of the loop of lines 198-212: the prefix of `parts` of length `i + 1`. */
  method TryKey(rt: Runtime, table: map<string, seq<PathInfo>>, parts: seq<string>, i: nat) returns (found: Option<Lookup>)
    requires i < |parts|
    ensures found.Some? ==> found.value == Search(rt, table, parts, i)
    ensures found.None? ==> Search(rt, table, parts, i) == Search(rt, table, parts, i - 1)
  {
    var key := Join(parts[..i + 1], "/");
    if key !in table {
      SearchSkips(rt, table, parts, i);
      return None;
    }
    found := TryPrefix(rt, table[key], |parts| - i - 1, parts[i + 1..]);
    if found.Some? {
      SearchFits(rt, table, parts, i);
    } else {
      SearchSkips(rt, table, parts, i);
    }
  }

  /**
   * The loop of lines 202-211 over the descriptors of one prefix: the first
   * with `n` path parameters, returned or rejected with a 404, or nothing.
   */
  method TryPrefix(rt: Runtime, infos: seq<PathInfo>, n: nat, segs: seq<string>) returns (r: Option<Lookup>)
    ensures FirstFit(infos, n).None? ==> r.None?
    ensures FirstFit(infos, n).Some? ==>
              var info := infos[FirstFit(infos, n).value];
              r == Some(if SegmentsConvert(rt, info, segs) then Found(info) else Raised(Raise(rt.reasons, 404, Some(NoRoute))))
  {
    var j := 0;
    while j < |infos|
      invariant 0 <= j <= |infos|
      invariant forall m :: 0 <= m < j ==> |infos[m].pathParams| != n
    {
      var info := infos[j];
      if n != |info.pathParams| {
        j := j + 1;
        continue;
      }
      assert FirstFit(infos, n) == Some(j);
      var ok := CheckSegments(rt, info, segs);
      if !ok {
        return Some(Raised(Raise(rt.reasons, 404, Some(NoRoute))));
      }
      return Some(Found(info));
    }
    r := None;
  }

  /** The loop of lines 205-210: does every (name, segment) pair convert? */
  method CheckSegments(rt: Runtime, info: PathInfo, segs: seq<string>) returns (ok: bool)
    ensures ok == SegmentsConvert(rt, info, segs)
  {
    var n := if |info.pathParams| < |segs| then |info.pathParams| else |segs|;
    for k := 0 to n
      invariant forall m :: 0 <= m < k ==>
                  info.pathParams[m] in info.varTypes.items && Convert(rt, info.varTypes.items[info.pathParams[m]], StrV(segs[m])).Some?
    {
      var name := info.pathParams[k];
      if name !in info.varTypes.items || Convert(rt, info.varTypes.items[name], StrV(segs[k])).None? {
        return false;
      }
    }
    ok := true;
  }

  /** The HTTP methods a registry exists for. */
  const Methods: set<string> := {"GET", "POST", "PUT", "PATCH", "DELETE"}

  /** `MethodWisePathsInfo`: one registry per HTTP method. */
  class MethodWisePathsInfo {
    var paths: map<string, RegisteredPaths>

    /** One registry for each method, and no two methods share one. */
    ghost predicate Valid()
      reads this
    {
      && paths.Keys == Methods
      && forall m, n :: m in paths && n in paths && m != n ==> paths[m] != paths[n]
    }

    constructor ()
      ensures Valid()
      ensures forall m :: m in paths ==> fresh(paths[m]) && paths[m].paths == map[]
    {
      var get := new RegisteredPaths();
      var post := new RegisteredPaths();
      var put := new RegisteredPaths();
      var patch := new RegisteredPaths();
      var delete := new RegisteredPaths();
      var m := map["GET" := get, "POST" := post, "PUT" := put, "PATCH" := patch, "DELETE" := delete];
      assert m.Keys == Methods;
      assert forall k :: k in m ==> m[k] in {get, post, put, patch, delete};
      assert forall k :: k in m ==> (m[k] == get <==> k == "GET") && (m[k] == post <==> k == "POST")
                                    && (m[k] == put <==> k == "PUT") && (m[k] == patch <==> k == "PATCH");
      paths := m;
    }

    /** `add_api_route(method, route, function)`: a method outside the table is a `KeyError`. */
    method AddApiRoute(verb: string, route: string, sig: Signature, order: seq<string>) returns (err: Option<ErrorKind>)
      requires Valid() && sig.annotations.Valid()
      requires Distinct(order) && forall n :: n in order <==> n in SplitTemplate(route).1
      modifies paths.Values
      ensures Valid()
      ensures err.Some? <==> verb !in Methods
      ensures err.Some? ==> err.value == KeyError
      ensures verb in paths ==> paths[verb].paths == Register(old(paths[verb].paths), route, order, sig)
      ensures forall m :: m in paths && m != verb ==> paths[m].paths == old(paths[m].paths)
    {
      if verb !in paths {
        return Some(KeyError);
      }
      paths[verb].AddApiRoute(route, sig, order);
      err := None;
    }

    /** `get_api_route_path_info(method, route)`: the path before the first `?` is resolved. */
    method GetApiRoutePathInfo(rt: Runtime, verb: string, route: string) returns (r: Lookup)
      requires Valid()
      ensures verb !in Methods ==> r == Raised(Uncaught(KeyError))
      ensures verb in paths ==> r == Resolve(rt, paths[verb].paths, Before(route, '?'))
    {
      var path := route;
      if '?' in path {
        path := Before(path, '?');
      }
      if verb !in paths {
        return Raised(Uncaught(KeyError));
      }
      r := paths[verb].GetApiPathInfo(rt, path);
    }
  }
}
