/**
 * The parameter records and containers of `fastpy_rest/params.py`: query,
 * path and header parameters, the request or reply body, cookies and the
 * cookie jar, and the header set with its wire text.
 */
module Params {
  import opened Wrappers
  import opened PyStrings
  import opened OrderedMaps
  import opened Values
  import opened Exceptions

  datatype Query = Query(name: string, value: Value, preDefined: bool)
  datatype PathParam = PathParam(name: string, value: Value)
  datatype HeaderParam = HeaderParam(name: string, value: Value)
  datatype Body = Body(value: Value)

  /** A cookie; `expires` holds the text `isoformat()` gives for the date. */
  datatype Cookie = Cookie(
    name: string,
    value: Value,
    expires: Option<string>,
    maxAge: Option<int>,
    domain: Option<string>,
    path: Option<string>,
    sameSite: Option<string>,
    priority: Option<string>,
    secure: bool,
    httpOnly: bool)

  function QueryKey(q: Query): string { q.name }
  function PathKey(p: PathParam): string { p.name }
  function HeaderKey(h: HeaderParam): string { h.name }
  function CookieKey(c: Cookie): string { c.name }

  /** A cookie with no attribute set. */
  predicate IsPlain(c: Cookie) {
    && c.expires.None? && c.maxAge.None? && c.domain.None? && c.path.None?
    && c.sameSite.None? && c.priority.None? && !c.secure && !c.httpOnly
  }

  /** `Cookie(name, value)`, every attribute left at its default. */
  function PlainCookie(name: string, value: Value): (c: Cookie)
    ensures IsPlain(c) && c.name == name && c.value == value
  {
    Cookie(name, value, None, None, None, None, None, None, false, false)
  }

  /** `"; Label=value"` for a set attribute, nothing otherwise. */
  function Attr(tag: string, v: Option<string>): string {
    if v.Some? then "; " + tag + "=" + v.value else ""
  }

  /** `"; Label"` for a set flag, nothing otherwise. */
  function Flag(tag: string, b: bool): string {
    if b then "; " + tag else ""
  }

  function MaxAgeText(m: Option<int>): Option<string> {
    if m.Some? then Some(IntToString(m.value)) else None
  }

  /** `str(cookie)`: the `Set-Cookie` value. */
  function CookieText(c: Cookie): string {
    c.name + "=" + Show(c.value) + AttributesText(c)
  }

  /** The attribute part of `str(cookie)`, in the order it is written. */
  function AttributesText(c: Cookie): string {
    Attr("Expires", c.expires) + (Attr("Max-Age", MaxAgeText(c.maxAge))
    + (Attr("Domain", c.domain) + (Attr("Path", c.path)
    + (Attr("SameSite", c.sameSite) + (Attr("Priority", c.priority)
    + (Flag("Secure", c.secure) + Flag("HttpOnly", c.httpOnly)))))))
  }

  /** An attribute as one `; `-separated piece, when it is set. */
  function AttrPiece(tag: string, v: Option<string>): seq<string> {
    if v.Some? then [tag + "=" + v.value] else []
  }

  function FlagPiece(tag: string, b: bool): seq<string> {
    if b then [tag] else []
  }

  /**
   * The attributes of a cookie as separate pieces, in the order a
   * `Set-Cookie` value lists them, each present only when set.
   */
  function Attributes(c: Cookie): seq<string> {
    AttrPiece("Expires", c.expires) + (AttrPiece("Max-Age", MaxAgeText(c.maxAge))
    + (AttrPiece("Domain", c.domain) + (AttrPiece("Path", c.path)
    + (AttrPiece("SameSite", c.sameSite) + (AttrPiece("Priority", c.priority)
    + (FlagPiece("Secure", c.secure) + FlagPiece("HttpOnly", c.httpOnly)))))))
  }

  /** `"".join("; " + p for p in pieces)`. */
  function Prefixed(pieces: seq<string>): string
    decreases |pieces|
  {
    if pieces == [] then "" else "; " + pieces[0] + Prefixed(pieces[1..])
  }

  lemma {:induction false} PrefixedAppend(a: seq<string>, b: seq<string>)
    ensures Prefixed(a + b) == Prefixed(a) + Prefixed(b)
    decreases |a|
  {
    if a != [] {
      assert (a + b)[1..] == a[1..] + b;
      assert (a + b)[0] == a[0];
      assert Prefixed(a + b) == "; " + a[0] + Prefixed(a[1..] + b);
      PrefixedAppend(a[1..], b);
      assert Prefixed(a) == "; " + a[0] + Prefixed(a[1..]);
    } else {
      assert a + b == b;
    }
  }

  lemma {:induction false} JoinPrefixed(head: string, pieces: seq<string>)
    ensures Join([head] + pieces, "; ") == head + Prefixed(pieces)
    decreases |pieces|
  {
    if pieces != [] {
      assert ([head] + pieces)[1..] == [pieces[0]] + pieces[1..];
      JoinPrefixed(pieces[0], pieces[1..]);
    }
  }

  lemma PrefixedAttr(tag: string, v: Option<string>, rest: seq<string>)
    ensures Prefixed(AttrPiece(tag, v) + rest) == Attr(tag, v) + Prefixed(rest)
  {
    PrefixedAppend(AttrPiece(tag, v), rest);
    if v.Some? {
      assert Prefixed(AttrPiece(tag, v)) == "; " + (tag + "=" + v.value) + Prefixed([]);
    } else {
      assert AttrPiece(tag, v) + rest == rest;
    }
  }

  lemma PrefixedFlag(tag: string, b: bool, rest: seq<string>)
    ensures Prefixed(FlagPiece(tag, b) + rest) == Flag(tag, b) + Prefixed(rest)
  {
    PrefixedAppend(FlagPiece(tag, b), rest);
    if b {
      assert Prefixed(FlagPiece(tag, b)) == "; " + tag + Prefixed([]);
    } else {
      assert FlagPiece(tag, b) + rest == rest;
    }
  }

  lemma AttributesPrefixed(c: Cookie)
    ensures Prefixed(Attributes(c)) == AttributesText(c)
  {
    var h := FlagPiece("HttpOnly", c.httpOnly);
    PrefixedFlag("HttpOnly", c.httpOnly, []);
    assert h + [] == h;
    var t0 := Flag("HttpOnly", c.httpOnly);
    assert Prefixed(h) == t0;
    var r1 := FlagPiece("Secure", c.secure) + h;
    PrefixedFlag("Secure", c.secure, h);
    var t1 := Flag("Secure", c.secure) + t0;
    assert Prefixed(r1) == t1;
    var r2 := AttrPiece("Priority", c.priority) + r1;
    PrefixedAttr("Priority", c.priority, r1);
    var t2 := Attr("Priority", c.priority) + t1;
    assert Prefixed(r2) == t2;
    var r3 := AttrPiece("SameSite", c.sameSite) + r2;
    PrefixedAttr("SameSite", c.sameSite, r2);
    var t3 := Attr("SameSite", c.sameSite) + t2;
    assert Prefixed(r3) == t3;
    var r4 := AttrPiece("Path", c.path) + r3;
    PrefixedAttr("Path", c.path, r3);
    var t4 := Attr("Path", c.path) + t3;
    assert Prefixed(r4) == t4;
    var r5 := AttrPiece("Domain", c.domain) + r4;
    PrefixedAttr("Domain", c.domain, r4);
    var t5 := Attr("Domain", c.domain) + t4;
    assert Prefixed(r5) == t5;
    var r6 := AttrPiece("Max-Age", MaxAgeText(c.maxAge)) + r5;
    PrefixedAttr("Max-Age", MaxAgeText(c.maxAge), r5);
    var t6 := Attr("Max-Age", MaxAgeText(c.maxAge)) + t5;
    assert Prefixed(r6) == t6;
    PrefixedAttr("Expires", c.expires, r6);
    assert Attributes(c) == AttrPiece("Expires", c.expires) + r6;
    assert AttributesText(c) == Attr("Expires", c.expires) + t6;
  }

  /**
   * A cookie's text is `name=value` followed by its attributes, in the fixed
   * order, joined by `"; "`; a cookie without attributes is just `name=value`.
   */
  lemma CookieTextPieces(c: Cookie)
    ensures CookieText(c) == Join([c.name + "=" + Show(c.value)] + Attributes(c), "; ")
    ensures IsPlain(c) ==> CookieText(c) == c.name + "=" + Show(c.value)
  {
    AttributesPrefixed(c);
    JoinPrefixed(c.name + "=" + Show(c.value), Attributes(c));
  }

  /** `Set-Cookie` lines, one per cookie. */
  function CookieLines(cs: seq<Cookie>): (r: seq<string>)
    ensures |r| == |cs| && forall i :: 0 <= i < |cs| ==> r[i] == "Set-Cookie: " + CookieText(cs[i])
  {
    seq(|cs|, i requires 0 <= i < |cs| => "Set-Cookie: " + CookieText(cs[i]))
  }

  /** Every stored entry sits under its own name. */
  ghost predicate Keyed<T>(m: OMap<T>, key: T -> string) {
    m.Valid() && forall k :: k in m.items ==> key(m.items[k]) == k
  }

  lemma CollectKeyed<T>(xs: seq<T>, key: T -> string)
    ensures Keyed(Collect(xs, key), key)
  {
    forall k | k in Collect(xs, key).items
      ensures key(Collect(xs, key).items[k]) == k
    {
      CollectKeys(xs, key);
      var x :| x in xs && key(x) == k;
      var i :| 0 <= i < |xs| && xs[i] == x;
      var j := LastIndex(xs, key, i);
      CollectLast(xs, key, j);
    }
  }

  /** The last index at or after `i` whose element has the key of `xs[i]`. */
  lemma LastIndex<T>(xs: seq<T>, key: T -> string, i: nat) returns (j: nat)
    requires i < |xs|
    ensures i <= j < |xs| && key(xs[j]) == key(xs[i]) && IsLast(xs, key, j)
    decreases |xs| - i
  {
    if IsLast(xs, key, i) {
      j := i;
    } else {
      var l :| i < l < |xs| && key(xs[l]) == key(xs[i]);
      j := LastIndex(xs, key, l);
    }
  }

  lemma PutKeyed<T>(m: OMap<T>, key: T -> string, x: T)
    requires Keyed(m, key)
    ensures Keyed(m.Put(key(x), x), key)
  {
  }

  /** The cookie jar `Cookies`: cookies by name, in insertion order. */
  class Cookies {
    var params: OMap<Cookie>

    ghost predicate Valid()
      reads this
    {
      Keyed(params, CookieKey)
    }

    /** `Cookies(cookie_params)`: a later cookie replaces an earlier one of the same name. */
    constructor (cookieParams: seq<Cookie>)
      ensures Valid() && params == Collect(cookieParams, CookieKey)
    {
      params := Collect(cookieParams, CookieKey);
      CollectKeyed(cookieParams, CookieKey);
    }

    /** `name in cookies`. */
    function Has(name: string): (r: bool)
      reads this
      ensures r <==> name in params.items
    {
      name in params.items
    }

    /** `cookies.get(name)`; `None` where Python raises `KeyError`. */
    function Get(name: string): (r: Option<Cookie>)
      reads this
      requires Valid()
      ensures r.Some? <==> name in params.items
      ensures r.Some? ==> r.value.name == name && r.value == params.items[name]
    {
      params.Get(name)
    }

    /** `cookies.cookie_names`. */
    function CookieNames(): (r: set<string>)
      reads this
      requires Valid()
      ensures forall n :: n in r <==> n in params.keys
    {
      params.items.Keys
    }

    /** `cookies.add(cookie)`. */
    method Add(cookie: Cookie)
      requires Valid()
      modifies this
      ensures Valid() && params == old(params).Put(cookie.name, cookie)
    {
      PutKeyed(params, CookieKey, cookie);
      params := params.Put(cookie.name, cookie);
    }

    /** `cookies.update_cookie(name, value)`: the attributes of an existing cookie are dropped. */
    method UpdateCookie(name: string, value: Value)
      requires Valid()
      modifies this
      ensures Valid() && params == old(params).Put(name, PlainCookie(name, value))
    {
      PutKeyed(params, CookieKey, PlainCookie(name, value));
      params := params.Put(name, PlainCookie(name, value));
    }

    /** `cookies.dict()`: each cookie's value under its name, in insertion order. */
    function Dict(): (r: OMap<Value>)
      reads this
      requires Valid()
      ensures r.Valid() && r.keys == params.keys
      ensures forall k :: k in params.items ==> k in r.items && r.items[k] == params.items[k].value
      ensures forall k :: k in r.items ==> k in params.items
    {
      params.MapValues(CookieValue)
    }

    /** `str(cookies)`: one `Set-Cookie` line per cookie. */
    method ToText() returns (s: string)
      requires Valid()
      ensures s == Terminated(CookieLines(params.Values()), "\r\n")
    {
      var cs := params.Values();
      var lines := CookieLines(cs);
      s := "";
      var i := 0;
      while i < |cs|
        invariant 0 <= i <= |cs|
        invariant s == Terminated(lines[..i], "\r\n")
      {
        TerminatedStep(lines, i, "\r\n");
        s := s + ("Set-Cookie: " + CookieText(cs[i]));
        s := s + "\r\n";
        i := i + 1;
      }
      assert lines[..|cs|] == lines;
    }

    /** `Cookies.from_string(s)`; `ValueError` when a piece is not `name=value`. */
    static method FromString(s: string) returns (r: Result<Cookies, ErrorKind>)
      ensures r.Success? <==> ParseCookies(s).Some?
      ensures r.Success? ==> fresh(r.value) && r.value.Valid() && r.value.params == ParseCookies(s).value
      ensures r.Failure? ==> r.error == ValueError
    {
      r := FromPieces(Split(s, "; "));
    }

    /** The loop of `from_string` over the pieces of the header. */
    static method FromPieces(pieces: seq<string>) returns (r: Result<Cookies, ErrorKind>)
      ensures r.Success? <==> ParsePieces(pieces).Some?
      ensures r.Success? ==> fresh(r.value) && r.value.Valid() && r.value.params == ParsePieces(pieces).value
      ensures r.Failure? ==> r.error == ValueError
    {
      var cookies := new Cookies([]);
      var i := 0;
      while i < |pieces|
        invariant 0 <= i <= |pieces|
        invariant fresh(cookies) && cookies.Valid() && ParsePieces(pieces[..i]) == Some(cookies.params)
      {
        var pair := SplitPair(pieces[i], "=");
        if pair.None? {
          NoPieceNoCookies(pieces, i + 1);
          return Failure(ValueError);
        }
        var (k, v) := pair.value;
        ParsePiecesPrefix(pieces, i, cookies.params);
        PutKeyed(cookies.params, CookieKey, PlainCookie(Strip(k), StrV(Strip(v))));
        cookies.params := cookies.params.Put(Strip(k), PlainCookie(Strip(k), StrV(Strip(v))));
        i := i + 1;
      }
      assert pieces[..|pieces|] == pieces;
      r := Success(cookies);
    }
  }

  /** The cookies `pieces` describe, stored in order; `None` on a malformed piece. */
  function ParsePieces(pieces: seq<string>): Option<OMap<Cookie>>
    decreases |pieces|
  {
    if pieces == [] then Some(Empty())
    else
      var prev := ParsePieces(pieces[..|pieces| - 1]);
      match SplitPair(pieces[|pieces| - 1], "=")
      case None => None
      case Some((k, v)) =>
        if prev.None? then None
        else Some(prev.value.Put(Strip(k), PlainCookie(Strip(k), StrV(Strip(v)))))
  }

  /** One pass of the loop of `from_string`: a well-formed piece is stored under its stripped name. */
  lemma ParsePiecesPrefix(pieces: seq<string>, i: nat, m: OMap<Cookie>)
    requires i < |pieces| && ParsePieces(pieces[..i]) == Some(m)
    requires SplitPair(pieces[i], "=").Some?
    ensures var (k, v) := SplitPair(pieces[i], "=").value;
            ParsePieces(pieces[..i + 1]) == Some(m.Put(Strip(k), PlainCookie(Strip(k), StrV(Strip(v)))))
  {
    assert pieces[..i + 1][..i] == pieces[..i];
  }

  /** The cookies a `Cookie` header names. */
  function ParseCookies(s: string): Option<OMap<Cookie>> {
    ParsePieces(Split(s, "; "))
  }

  /** Every piece splits on `=` into exactly two parts. */
  predicate AllPairs(pieces: seq<string>) {
    forall k :: 0 <= k < |pieces| ==> SplitPair(pieces[k], "=").Some?
  }

  /** Parsing succeeds exactly when every piece splits on `=` into two parts. */
  lemma {:induction false} ParsePiecesSucceeds(pieces: seq<string>)
    ensures ParsePieces(pieces).Some? <==> AllPairs(pieces)
    decreases |pieces|
  {
    if pieces != [] {
      var n := |pieces| - 1;
      var init := pieces[..n];
      ParsePiecesSucceeds(init);
      assert ParsePieces(pieces).Some? <==> ParsePieces(init).Some? && SplitPair(pieces[n], "=").Some?;
      AllPairsSnoc(pieces);
    }
  }

  lemma AllPairsSnoc(pieces: seq<string>)
    requires pieces != []
    ensures AllPairs(pieces) <==> AllPairs(pieces[..|pieces| - 1]) && SplitPair(pieces[|pieces| - 1], "=").Some?
  {
    var n := |pieces| - 1;
    var init := pieces[..n];
    if AllPairs(pieces) {
      forall k | 0 <= k < n
        ensures SplitPair(init[k], "=").Some?
      {
        assert init[k] == pieces[k];
      }
    }
    if AllPairs(init) && SplitPair(pieces[n], "=").Some? {
      forall k | 0 <= k < |pieces|
        ensures SplitPair(pieces[k], "=").Some?
      {
        if k < n {
          assert init[k] == pieces[k];
        }
      }
    }
  }

  lemma NoPieceNoCookies(pieces: seq<string>, i: nat)
    requires 0 < i <= |pieces| && SplitPair(pieces[i - 1], "=").None?
    ensures ParsePieces(pieces).None?
  {
    ParsePiecesSucceeds(pieces);
  }

  /** The empty string is not a cookie list, nor is a piece with a second `=`. */
  lemma ParseCookiesRejects(s: string)
    ensures ParseCookies("").None?
    ensures (exists k :: 0 <= k < |Split(s, "; ")| && |Split(Split(s, "; ")[k], "=")| != 2) ==> ParseCookies(s).None?
  {
    assert Find("", "; ") == None;
    assert Find("", "=") == None;
    assert Split("", "; ") == [""];
    assert SplitPair("", "=").None?;
    ParsePiecesSucceeds([""]);
    ParsePiecesSucceeds(Split(s, "; "));
  }

  /** A cookie whose name and value can be written in a `Cookie` header and read back. */
  predicate Transmittable(c: Cookie) {
    && IsPlain(c) && c.value.StrV?
    && Lacks(c.name, '=') && !Contains(c.name, "; ") && Trimmed(c.name)
    && Lacks(c.value.s, '=') && !Contains(c.value.s, "; ") && Trimmed(c.value.s)
  }

  function CookieTexts(cs: seq<Cookie>): (r: seq<string>)
    ensures |r| == |cs| && forall i :: 0 <= i < |cs| ==> r[i] == CookieText(cs[i])
  {
    seq(|cs|, i requires 0 <= i < |cs| => CookieText(cs[i]))
  }

  lemma TransmittableText(c: Cookie)
    requires Transmittable(c)
    ensures !Contains(CookieText(c), "; ")
    ensures SplitPair(CookieText(c), "=") == Some((c.name, c.value.s))
  {
    CookieTextPieces(c);
    var t := c.name + "=" + c.value.s;
    assert CookieText(c) == t;
    LacksNotContains(c.name, "=");
    LacksNotContains(c.value.s, "=");
    SingleCharBorderless('=');
    assert Join([c.name, c.value.s], "=") == t by {
      assert Join([c.name, c.value.s], "=") == c.name + "=" + Join([c.value.s], "=");
    }
    SplitJoin([c.name, c.value.s], "=");
    GlueNotContains(c.name, '=', c.value.s, "; ");
    assert t == c.name + ['='] + c.value.s;
  }

  lemma ParsePiecesStep(pieces: seq<string>, m: OMap<Cookie>, k: string, v: string)
    requires pieces != [] && ParsePieces(pieces[..|pieces| - 1]) == Some(m)
    requires SplitPair(pieces[|pieces| - 1], "=") == Some((k, v))
    ensures ParsePieces(pieces) == Some(m.Put(Strip(k), PlainCookie(Strip(k), StrV(Strip(v)))))
  {
  }

  lemma {:induction false} ParseTexts(cs: seq<Cookie>)
    requires forall i :: 0 <= i < |cs| ==> Transmittable(cs[i])
    ensures ParsePieces(CookieTexts(cs)) == Some(Collect(cs, CookieKey))
    decreases |cs|
  {
    if cs != [] {
      var n := |cs| - 1;
      ParseTexts(cs[..n]);
      ParseTextsStep(cs);
    }
  }

  lemma ParseTextsStep(cs: seq<Cookie>)
    requires cs != [] && Transmittable(cs[|cs| - 1])
    requires ParsePieces(CookieTexts(cs[..|cs| - 1])) == Some(Collect(cs[..|cs| - 1], CookieKey))
    ensures ParsePieces(CookieTexts(cs)) == Some(Collect(cs, CookieKey))
  {
    var n := |cs| - 1;
    var texts := CookieTexts(cs);
    var c := cs[n];
    var prev := Collect(cs[..n], CookieKey);
    CookieTextsPrefix(cs);
    TransmittableText(c);
    ParsePiecesStep(texts, prev, c.name, c.value.s);
    TransmittableStrip(c);
  }

  lemma CookieTextsPrefix(cs: seq<Cookie>)
    requires cs != []
    ensures CookieTexts(cs)[..|cs| - 1] == CookieTexts(cs[..|cs| - 1])
  {
  }

  /** A transmittable cookie is what reading back its name and value builds. */
  lemma TransmittableStrip(c: Cookie)
    requires Transmittable(c)
    ensures Strip(c.name) == c.name && PlainCookie(Strip(c.name), StrV(Strip(c.value.s))) == c
  {
    StripTrimmed(c.name);
    StripTrimmed(c.value.s);
  }

  /**
   * Round trip: joining the texts of attribute-less cookies with `"; "` and
   * reading the result with `from_string` gives the cookies back, so the same
   * `dict()`, provided names and values hold no `=`, no `"; "` and no outer whitespace.
   */
  lemma CookiesRoundTrip(cs: seq<Cookie>)
    requires |cs| >= 1
    requires forall i :: 0 <= i < |cs| ==> Transmittable(cs[i])
    ensures ParseCookies(Join(CookieTexts(cs), "; ")) == Some(Collect(cs, CookieKey))
  {
    var texts := CookieTexts(cs);
    forall p | p in texts
      ensures !Contains(p, "; ")
    {
      var i :| 0 <= i < |texts| && texts[i] == p;
      TransmittableText(cs[i]);
    }
    PairBorderless(';', ' ');
    SplitJoin(texts, "; ");
    ParseTexts(cs);
  }

  /** A lone `;` inside a value survives the round trip: `a=x;y` reads back as the cookie `a` with the value `x;y`. */
  lemma SemicolonValueRoundTrip()
    ensures ParseCookies("a=x;y") == Some(Collect([PlainCookie("a", StrV("x;y"))], CookieKey))
  {
    var c := PlainCookie("a", StrV("x;y"));
    SemicolonCookie(c);
    CookiesRoundTrip([c]);
  }

  /** The cookie `a=x;y` is transmittable, and its header text is `a=x;y`. */
  lemma SemicolonCookie(c: Cookie)
    requires c == PlainCookie("a", StrV("x;y"))
    ensures Transmittable(c) && Join(CookieTexts([c]), "; ") == "a=x;y"
  {
    LacksNotContains("a", "; ");
    LacksSecondNotContains("x;y", "; ");
    SemicolonText(c);
  }

  lemma SemicolonText(c: Cookie)
    requires c == PlainCookie("a", StrV("x;y"))
    ensures Join(CookieTexts([c]), "; ") == "a=x;y"
  {
    CookieTextPieces(c);
    assert Show(c.value) == "x;y";
    assert CookieText(c) == "a=x;y";
    assert CookieTexts([c]) == ["a=x;y"];
  }


  /** The query parameters of a request, by name. */
  class QueryList {
    var queries: OMap<Query>

    ghost predicate Valid()
      reads this
    {
      Keyed(queries, QueryKey)
    }

    constructor (qs: seq<Query>)
      ensures Valid() && queries == Collect(qs, QueryKey)
    {
      queries := Collect(qs, QueryKey);
      CollectKeyed(qs, QueryKey);
    }

    /** `query_list.queries`: the stored queries in insertion order. */
    function Queries(): (r: seq<Query>)
      reads this
      requires Valid()
      ensures |r| == |queries.keys| && forall i :: 0 <= i < |r| ==> r[i].name == queries.keys[i]
    {
      queries.Values()
    }

    /** `query_list.add_query(name, value, pre_defined)`. */
    method AddQuery(name: string, value: Value, preDefined: bool)
      requires Valid()
      modifies this
      ensures Valid() && queries == old(queries).Put(name, Query(name, value, preDefined))
    {
      PutKeyed(queries, QueryKey, Query(name, value, preDefined));
      queries := queries.Put(name, Query(name, value, preDefined));
    }

    /** `query_list.dict()`. */
    function Dict(): (r: OMap<Value>)
      reads this
      requires Valid()
      ensures r.Valid() && r.keys == queries.keys
      ensures forall k :: k in queries.items ==> k in r.items && r.items[k] == queries.items[k].value
      ensures forall k :: k in r.items ==> k in queries.items
    {
      queries.MapValues(QueryValue)
    }
  }

  /** The path parameters of a request, by name. */
  class PathList {
    var pathParams: OMap<PathParam>

    ghost predicate Valid()
      reads this
    {
      Keyed(pathParams, PathKey)
    }

    constructor (ps: seq<PathParam>)
      ensures Valid() && pathParams == Collect(ps, PathKey)
    {
      pathParams := Collect(ps, PathKey);
      CollectKeyed(ps, PathKey);
    }

    /** `path_list.add_path(name, value)`. */
    method AddPath(name: string, value: Value)
      requires Valid()
      modifies this
      ensures Valid() && pathParams == old(pathParams).Put(name, PathParam(name, value))
    {
      PutKeyed(pathParams, PathKey, PathParam(name, value));
      pathParams := pathParams.Put(name, PathParam(name, value));
    }

    /** `path_list.dict()`. */
    function Dict(): (r: OMap<Value>)
      reads this
      requires Valid()
      ensures r.Valid() && r.keys == pathParams.keys
      ensures forall k :: k in pathParams.items ==> k in r.items && r.items[k] == pathParams.items[k].value
      ensures forall k :: k in r.items ==> k in pathParams.items
    {
      pathParams.MapValues(PathValue)
    }
  }

  /** `name: value` lines, one per header. */
  function HeaderLines(hs: seq<HeaderParam>): (r: seq<string>)
    ensures |r| == |hs| && forall i :: 0 <= i < |hs| ==> r[i] == hs[i].name + ": " + Show(hs[i].value)
  {
    seq(|hs|, i requires 0 <= i < |hs| => hs[i].name + ": " + Show(hs[i].value))
  }

  /** The header block of a message: the header lines, then the `Set-Cookie` lines. */
  function HeadersText(hs: seq<HeaderParam>, cs: seq<Cookie>): string {
    Terminated(HeaderLines(hs), "\r\n") + Terminated(CookieLines(cs), "\r\n")
  }

  /** What `Headers.dict()` computes: cookie values, overwritten by header values, without `"cookie"`. */
  function HeadersDict(cookieDict: OMap<Value>, headers: OMap<HeaderParam>): (r: OMap<Value>)
    requires headers.Valid()
    ensures cookieDict.Valid() ==> r.Valid()
  {
    var d := Merge(cookieDict, headers.MapValues(HeaderValue));
    if "cookie" in d.items then d.Remove("cookie") else d
  }

  function HeaderValue(h: HeaderParam): Value { h.value }
  function CookieValue(c: Cookie): Value { c.value }
  function QueryValue(q: Query): Value { q.value }
  function PathValue(p: PathParam): Value { p.value }

  /** One pass of the loop of `Headers.dict()`: the `i`-th header's value put under its name. */
  lemma HeaderPutStep(headers: OMap<HeaderParam>, start: OMap<Value>, i: nat)
    requires Keyed(headers, HeaderKey) && i < |headers.keys|
    ensures var vals := headers.MapValues(HeaderValue);
            var h := headers.items[headers.keys[i]];
            && (forall k :: k in headers.keys[..i + 1] ==> k in vals.items)
            && PutAll(start, headers.keys[..i + 1], vals.items) == PutAll(start, headers.keys[..i], vals.items).Put(h.name, h.value)
  {
    var vals := headers.MapValues(HeaderValue);
    PutAllStep(start, headers.keys, vals.items, i);
  }

  /** After the loop of `Headers.dict()` has put every header's value. */
  lemma HeaderPutAll(headers: OMap<HeaderParam>, start: OMap<Value>)
    requires Keyed(headers, HeaderKey)
    ensures var vals := headers.MapValues(HeaderValue);
            && (forall k :: k in headers.keys ==> k in vals.items)
            && PutAll(start, headers.keys[..|headers.keys|], vals.items) == Merge(start, vals)
  {
    assert headers.keys[..|headers.keys|] == headers.keys;
  }

  /** The headers of a request or a reply, and the cookie jar that goes with them. */
  class Headers {
    var cookies: Cookies
    var headerParams: OMap<HeaderParam>

    ghost predicate Valid()
      reads this, cookies
    {
      Keyed(headerParams, HeaderKey) && cookies.Valid()
    }

    /** `Headers(cookies, header_params)`: a fresh, empty jar when `cookies` is `None`. */
    constructor (jar: Cookies?, hs: seq<HeaderParam>)
      requires jar != null ==> jar.Valid()
      ensures Valid() && headerParams == Collect(hs, HeaderKey)
      ensures jar != null ==> cookies == jar
      ensures jar == null ==> fresh(cookies) && cookies.params == Empty()
    {
      if jar != null {
        cookies := jar;
      } else {
        cookies := new Cookies([]);
      }
      headerParams := Collect(hs, HeaderKey);
      CollectKeyed(hs, HeaderKey);
    }

    /** `str(headers)`. */
    method ToText() returns (s: string)
      requires Valid()
      ensures s == HeadersText(headerParams.Values(), cookies.params.Values())
    {
      var hs := headerParams.Values();
      var lines := HeaderLines(hs);
      s := "";
      var i := 0;
      while i < |hs|
        invariant 0 <= i <= |hs|
        invariant s == Terminated(lines[..i], "\r\n")
      {
        TerminatedStep(lines, i, "\r\n");
        s := s + (hs[i].name + ": " + Show(hs[i].value) + "\r\n");
        i := i + 1;
      }
      assert lines[..|hs|] == lines;
      var block := cookies.ToText();
      s := s + block;
    }

    /** `headers.add_header(name, value)`. */
    method AddHeader(name: string, value: Value)
      requires Valid()
      modifies this
      ensures Valid() && cookies == old(cookies)
      ensures headerParams == old(headerParams).Put(name, HeaderParam(name, value))
    {
      PutKeyed(headerParams, HeaderKey, HeaderParam(name, value));
      headerParams := headerParams.Put(name, HeaderParam(name, value));
    }

    /** `headers.add_cookie(cookie)`: adds to the jar the headers hold. */
    method AddCookie(cookie: Cookie)
      requires Valid()
      modifies cookies
      ensures Valid() && cookies.params == old(cookies.params).Put(cookie.name, cookie)
    {
      cookies.Add(cookie);
    }

    /** `headers.set_cookies(jar)`: the headers now hold `jar` itself. */
    method SetCookies(jar: Cookies)
      requires Valid() && jar.Valid()
      modifies this
      ensures Valid() && cookies == jar && headerParams == old(headerParams)
    {
      cookies := jar;
    }

    /** `headers.dict()`. */
    method Dict() returns (d: OMap<Value>)
      requires Valid()
      ensures d == HeadersDict(cookies.Dict(), headerParams)
    {
      d := cookies.Dict();
      var start := d;
      var keys := headerParams.keys;
      var vals := headerParams.MapValues(HeaderValue);
      var i := 0;
      while i < |keys|
        invariant 0 <= i <= |keys|
        invariant forall k :: k in keys[..i] ==> k in vals.items
        invariant d == PutAll(start, keys[..i], vals.items)
      {
        var h := headerParams.items[keys[i]];
        HeaderPutStep(headerParams, start, i);
        d := d.Put(h.name, h.value);
        i := i + 1;
      }
      HeaderPutAll(headerParams, start);
      if "cookie" in d.items {
        d := d.Remove("cookie");
      }
    }
  }

  /**
   * `Headers.dict()` holds every cookie and header name except `"cookie"`; a
   * header's value wins over a cookie of the same name.
   */
  lemma HeadersDictContent(cookieDict: OMap<Value>, headers: OMap<HeaderParam>, k: string)
    requires cookieDict.Valid() && Keyed(headers, HeaderKey)
    ensures HeadersDict(cookieDict, headers).Valid()
    ensures k in HeadersDict(cookieDict, headers).items <==>
              k != "cookie" && (k in cookieDict.items || k in headers.items)
    ensures k != "cookie" && k in headers.items ==>
              HeadersDict(cookieDict, headers).items[k] == headers.items[k].value
    ensures k != "cookie" && k in cookieDict.items && k !in headers.items ==>
              HeadersDict(cookieDict, headers).items[k] == cookieDict.items[k]
  {
  }

  /** `str(body)`: `None` where `json.dumps` raises. */
  function BodyText(rt: Runtime, b: Body): (r: Option<string>)
    ensures b.value.StrV? ==> r == Some(b.value.s)
    ensures b.value.ModelV? ==> r == Some(rt.dumpModel(b.value))
    // `json.dumps` of the JSON literals, of any other object, and of the markers it cannot encode
    ensures b.value.NoneV? ==> r == Some("null")
    ensures b.value.BoolV? ==> r == Some(if b.value.b then "true" else "false")
    ensures b.value.ObjV? ==> r == rt.dumps(b.value)
    ensures b.value.HeadersMarker? || b.value.CookiesMarker? ==> r.None?
  {
    match b.value
    case NoneV => Some("null")
    case BoolV(x) => Some(if x then "true" else "false")
    case IntV(i) => Some(IntToString(i))
    case StrV(s) => Some(s)
    case ModelV(_, _) => Some(rt.dumpModel(b.value))
    case HeadersMarker => None
    case CookiesMarker => None
    case ObjV(_, _) => rt.dumps(b.value)
  }

  /** An integer body is written as JSON digits that read back as the same integer. */
  lemma BodyTextInt(rt: Runtime, i: int)
    ensures BodyText(rt, Body(IntV(i))).Some?
    ensures ParseInt(BodyText(rt, Body(IntV(i))).value) == Some(i)
  {
    ParseIntToString(i);
  }
}
