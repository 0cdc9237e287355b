/**
 * `Request.load_from_reader`: the request line, the route it resolves to, the
 * query string, the header block and the body read off the wire, then the
 * path values, queries, headers and body checked against the route in that
 * order; and the `Request` object that holds the result.
 */
module Requests {
  import opened Wrappers
  import opened PyStrings
  import opened OrderedMaps
  import opened Values
  import opened Exceptions
  import opened Params
  import opened Binding
  import opened Routing

  /**
   * What the reader yields: the lines `readuntil(b"\r\n")` returns, decoded and
   * without their terminator, and the bytes after the header block.
   */
  datatype Wire = Wire(lines: seq<string>, payload: seq<byte>)

  const NoSuchRoute: string := "No such route found."

  // -------------------------------------------------------- request line

  /** `method, path, _ = line.strip().split(" ")`: exactly three pieces, or `ValueError`. */
  function RequestLine(line: string): Option<(string, string, string)> {
    var parts := Split(Strip(line), " ");
    if |parts| == 3 then Some((parts[0], parts[1], parts[2])) else None
  }

  /**
   * The request line parses to `(m, p, v)` exactly when its stripped text is
   * `m p v` with single spaces and no space inside any of the three.
   */
  lemma RequestLineIff(line: string, m: string, p: string, v: string)
    ensures RequestLine(line) == Some((m, p, v)) <==>
              && Strip(line) == m + " " + p + " " + v
              && !Contains(m, " ") && !Contains(p, " ") && !Contains(v, " ")
  {
    if RequestLine(line) == Some((m, p, v)) {
      RequestLineParts(line, m, p, v);
    }
    if Strip(line) == m + " " + p + " " + v && !Contains(m, " ") && !Contains(p, " ") && !Contains(v, " ") {
      RequestLineOfParts(line, m, p, v);
    }
  }

  lemma JoinThree(m: string, p: string, v: string)
    ensures Join([m, p, v], " ") == m + " " + p + " " + v
  {
    assert Join([v], " ") == v;
    assert Join([p, v], " ") == p + " " + v by {
      assert [p, v][1..] == [v];
    }
    assert [m, p, v][1..] == [p, v];
  }

  lemma RequestLineParts(line: string, m: string, p: string, v: string)
    requires RequestLine(line) == Some((m, p, v))
    ensures Strip(line) == m + " " + p + " " + v
    ensures !Contains(m, " ") && !Contains(p, " ") && !Contains(v, " ")
  {
    var t := Strip(line);
    assert Split(t, " ") == [m, p, v];
    JoinSplit(t, " ");
    SplitPiecesFree(t, " ");
    JoinThree(m, p, v);
  }

  lemma RequestLineOfParts(line: string, m: string, p: string, v: string)
    requires Strip(line) == m + " " + p + " " + v
    requires !Contains(m, " ") && !Contains(p, " ") && !Contains(v, " ")
    ensures RequestLine(line) == Some((m, p, v))
  {
    SingleCharBorderless(' ');
    JoinThree(m, p, v);
    SplitJoin([m, p, v], " ");
  }

  /** Where `get_api_route_path_info(method, path)` ends, over the registries' dictionaries. */
  function LookupRoute(rt: Runtime, tables: map<string, map<string, seq<PathInfo>>>, verb: string, target: string): Lookup {
    if verb !in tables then Raised(Uncaught(KeyError)) else Resolve(rt, tables[verb], Before(target, '?'))
  }

  // -------------------------------------------------------- query string

  /** `name, value = param.split("=")` for each piece in turn; `None` when one raises. */
  function QueryPairs(pieces: seq<string>): Option<seq<(string, string)>>
    decreases |pieces|
  {
    if pieces == [] then Some([])
    else
      match QueryPairs(pieces[..|pieces| - 1])
      case None => None
      case Some(ps) =>
        match SplitPair(pieces[|pieces| - 1], "=")
        case None => None
        case Some(pair) => Some(ps + [pair])
  }

  /**
   * The pieces parse exactly when each splits into two at `=`, and then
   * into the list of those splits, one per piece.
   */
  lemma {:induction false} QueryPairsIff(pieces: seq<string>)
    ensures QueryPairs(pieces).Some? <==> forall k :: 0 <= k < |pieces| ==> SplitPair(pieces[k], "=").Some?
    ensures QueryPairs(pieces).Some? ==>
              && |QueryPairs(pieces).value| == |pieces|
              && forall k :: 0 <= k < |pieces| ==> QueryPairs(pieces).value[k] == SplitPair(pieces[k], "=").value
    decreases |pieces|
  {
    if pieces == [] {
      return;
    }
    var n := |pieces| - 1;
    var init := pieces[..n];
    QueryPairsIff(init);
    assert forall k :: 0 <= k < n ==> init[k] == pieces[k];
    if QueryPairs(pieces).Some? {
      var ps := QueryPairs(init).value;
      assert QueryPairs(pieces).value == ps + [SplitPair(pieces[n], "=").value];
    }
  }

  /** The request target split at its first `?`: the path, and the queries. */
  datatype Target = Target(path: string, queries: OMap<string>)

  /** The `&`-separated pieces after the first `?`. */
  function QueryPieces(target: string): seq<string>
    requires Contains(target, "?")
  {
    Split(SplitOnce(target, "?").value.1, "&")
  }

  /** Lines 65-70: the path and the query dictionary, or `None` when a pair raises `ValueError`. */
  function SplitTarget(target: string): Option<Target> {
    if !Contains(target, "?") then Some(Target(target, Empty()))
    else
      match QueryPairs(QueryPieces(target))
      case None => None
      case Some(pairs) => Some(Target(SplitOnce(target, "?").value.0, FromPairs(pairs)))
  }

  /**
   * Without `?` the path is the whole target and there are no queries;
   * with one, the path is the target before its first `?` and the queries
   * are the dictionary of the `&`-separated pairs after it, each split at
   * its only `=`, later pairs winning.
   */
  lemma QueryString(target: string)
    ensures !Contains(target, "?") ==> SplitTarget(target) == Some(Target(target, Empty()))
    ensures Contains(target, "?") ==>
              && (SplitTarget(target).Some? <==> forall k :: 0 <= k < |QueryPieces(target)| ==> SplitPair(QueryPieces(target)[k], "=").Some?)
              && (SplitTarget(target).Some? ==>
                    && SplitTarget(target).value.path == Before(target, '?')
                    && SplitTarget(target).value.queries == FromPairs(QueryPairs(QueryPieces(target)).value))
  {
    if Contains(target, "?") {
      QueryPairsIff(QueryPieces(target));
      BeforeIsSplitOnce(target, '?');
    }
  }

  lemma BeforeIsSplitOnce(s: string, c: char)
    requires Contains(s, [c])
    ensures Before(s, c) == SplitOnce(s, [c]).value.0
  {
  }

  /** `name=value`. */
  function PairText(pair: (string, string)): string {
    pair.0 + "=" + pair.1
  }

  function PairTexts(pairs: seq<(string, string)>): (r: seq<string>)
    ensures |r| == |pairs| && forall k :: 0 <= k < |pairs| ==> r[k] == PairText(pairs[k])
  {
    seq(|pairs|, k requires 0 <= k < |pairs| => PairText(pairs[k]))
  }

  /** No `=` or `&` in a name or a value. */
  predicate PlainPair(pair: (string, string)) {
    Lacks(pair.0, '=') && Lacks(pair.1, '=') && Lacks(pair.0, '&') && Lacks(pair.1, '&')
  }

  /**
   * Round trip: pairs whose names and values hold no `=` and no `&`, written
   * `name=value` and joined with `&` after a path without `?`, parse back to
   * that path and the dictionary of the pairs.
   */
  lemma QueryRoundTrip(path: string, pairs: seq<(string, string)>)
    requires Lacks(path, '?') && |pairs| >= 1
    requires forall k :: 0 <= k < |pairs| ==> PlainPair(pairs[k])
    ensures SplitTarget(path + "?" + Join(PairTexts(pairs), "&")) == Some(Target(path, FromPairs(pairs)))
  {
    var qs := Join(PairTexts(pairs), "&");
    TargetSplits(path, qs);
    QueryTextsParse(pairs);
  }

  /** A path without `?`, then `?`, then the query string, splits back into the two. */
  lemma TargetSplits(path: string, qs: string)
    requires Lacks(path, '?')
    ensures Contains(path + "?" + qs, "?") && SplitOnce(path + "?" + qs, "?") == Some((path, qs))
  {
    var target := path + "?" + qs;
    SingleCharBorderless('?');
    LacksNotContains(path, "?");
    FirstOccurrenceAfterFreeHead(path, "?", qs);
    assert target[..|path|] == path && target[|path| + 1..] == qs;
  }

  /** The `name=value` texts of plain pairs, joined with `&`, parse back to the pairs. */
  lemma QueryTextsParse(pairs: seq<(string, string)>)
    requires |pairs| >= 1 && forall k :: 0 <= k < |pairs| ==> PlainPair(pairs[k])
    ensures QueryPairs(Split(Join(PairTexts(pairs), "&"), "&")) == Some(pairs)
  {
    var texts := PairTexts(pairs);
    forall k | 0 <= k < |texts|
      ensures !Contains(texts[k], "&") && SplitPair(texts[k], "=") == Some(pairs[k])
    {
      PairParses(pairs[k]);
    }
    SingleCharBorderless('&');
    forall t | t in texts
      ensures !Contains(t, "&")
    {
    }
    SplitJoin(texts, "&");
    QueryPairsIff(texts);
    assert QueryPairs(texts).value == pairs;
  }

  lemma PairParses(pair: (string, string))
    requires PlainPair(pair)
    ensures !Contains(PairText(pair), "&") && SplitPair(PairText(pair), "=") == Some(pair)
  {
    var (n, v) := pair;
    assert Lacks("=", '&');
    LacksAppend(n, "=", '&');
    LacksAppend(n + "=", v, '&');
    LacksNotContains(PairText(pair), "&");
    LacksNotContains(n, "=");
    LacksNotContains(v, "=");
    SingleCharBorderless('=');
    assert Join([n, v], "=") == n + "=" + v by {
      assert [n, v][1..] == [v];
    }
    SplitJoin([n, v], "=");
  }

  /** A `?` with nothing after it is a pair without `=`: `ValueError`. */
  lemma EmptyQueryFails(path: string)
    requires Lacks(path, '?')
    ensures SplitTarget(path + "?") == None
  {
    var target := path + "?";
    SingleCharBorderless('?');
    LacksNotContains(path, "?");
    FirstOccurrenceAfterFreeHead(path, "?", "");
    assert path + "?" + "" == target;
    assert target[|path| + 1..] == "";
    assert Split("", "&") == [""];
    assert Split("", "=") == [""];
  }

  // -------------------------------------------------------- header block

  /** What the header loop has gathered: the headers, Content-Length and Content-Type. */
  datatype HeaderBlock = HeaderBlock(headers: OMap<string>, length: Option<int>, ctype: Option<string>)

  const NoHeaders := HeaderBlock(Empty(), None, None)

  /**
   * What one header line says: it ends the block, it has no `:`, it is a
   * Content-Length whose value is no integer, or it is a field with its
   * stripped name and value, the integer it sets Content-Length to and the
   * case-folded value it sets Content-Type to.
   */
  datatype HeaderLine =
    | BlankLine
    | NoColon
    | BadLength
    | Field(name: string, value: string, length: Option<int>, ctype: Option<string>)

  /** Lines 73-83 for one line. */
  function ClassifyHeader(line: string): HeaderLine {
    var header := Strip(line);
    if header == "" then BlankLine
    else
      match SplitOnce(header, ":")
      case None => NoColon
      case Some((name, value)) =>
        var key := Strip(CaseFold(name));
        if key == "content-length" then
          match ParseInt(Strip(value))
          case None => BadLength
          case Some(n) => Field(Strip(name), Strip(value), Some(n), None)
        else
          Field(Strip(name), Strip(value), None, if key == "content-type" then Some(Strip(CaseFold(value))) else None)
  }

  /**
   * A line ends the block exactly when it is blank once stripped; it is
   * refused when it has no `:` or names Content-Length, in any case, with a
   * value that is no integer; otherwise it is stored under its stripped name
   * with its stripped value, sets Content-Length exactly when it names it,
   * and sets Content-Type to its case-folded value exactly when it names it.
   */
  lemma ClassifyHeaderIff(line: string)
    ensures ClassifyHeader(line) == BlankLine <==> Strip(line) == ""
    ensures ClassifyHeader(line) == NoColon <==> Strip(line) != "" && !Contains(Strip(line), ":")
    ensures Strip(line) != "" && Contains(Strip(line), ":") ==>
              var (name, value) := SplitOnce(Strip(line), ":").value;
              var key := Strip(CaseFold(name));
              var c := ClassifyHeader(line);
              && (c == BadLength <==> key == "content-length" && ParseInt(Strip(value)).None?)
              && (c.Field? ==> && c.name == Strip(name) && c.value == Strip(value)
                               && (c.length.Some? <==> key == "content-length")
                               && (c.length.Some? ==> c.length == ParseInt(Strip(value)))
                               && (c.ctype.Some? <==> key == "content-type")
                               && (c.ctype.Some? ==> c.ctype.value == Strip(CaseFold(value))))
  {
  }

  /** The classification of every line. */
  function Classified(lines: seq<string>): (r: seq<HeaderLine>)
    ensures |r| == |lines| && forall k :: 0 <= k < |lines| ==> r[k] == ClassifyHeader(lines[k])
  {
    seq(|lines|, k requires 0 <= k < |lines| => ClassifyHeader(lines[k]))
  }

  /** The block after a field line. */
  function Apply(acc: HeaderBlock, f: HeaderLine): (r: HeaderBlock)
    requires f.Field?
    ensures acc.headers.Valid() ==> r.headers.Valid()
  {
    HeaderBlock(acc.headers.Put(f.name, f.value),
                if f.length.Some? then f.length else acc.length,
                if f.ctype.Some? then f.ctype else acc.ctype)
  }

  /**
   * The header loop from line `i`: the block and the index of the line that
   * ended it, or the error it raised; running out of lines is `IncompleteReadError`.
   */
  function ReadHeaders(infos: seq<HeaderLine>, i: nat, acc: HeaderBlock): (r: Result<(HeaderBlock, nat), ErrorKind>)
    ensures acc.headers.Valid() && r.Success? ==> r.value.0.headers.Valid()
    decreases |infos| - i
  {
    if i >= |infos| then Failure(IncompleteReadError)
    else
      match infos[i]
      case BlankLine => Success((acc, i))
      case NoColon => Failure(ValueError)
      case BadLength => Failure(ValueError)
      case Field(_, _, _, _) => ReadHeaders(infos, i + 1, Apply(acc, infos[i]))
  }

  /**
   * The loop ends at the first blank line, and every line before it is a
   * field; without a blank line it fails, and a refused line before the
   * first blank line makes it fail with `ValueError`.
   */
  lemma {:induction false} HeadersEndAtBlank(infos: seq<HeaderLine>, i: nat, acc: HeaderBlock)
    ensures ReadHeaders(infos, i, acc).Success? ==>
              var e := ReadHeaders(infos, i, acc).value.1;
              && i <= e < |infos| && infos[e] == BlankLine
              && forall j :: i <= j < e ==> infos[j].Field?
    ensures (forall j :: i <= j < |infos| ==> infos[j] != BlankLine) ==> ReadHeaders(infos, i, acc).Failure?
    ensures ReadHeaders(infos, i, acc).Failure? && ReadHeaders(infos, i, acc).error != IncompleteReadError ==>
              ReadHeaders(infos, i, acc).error == ValueError
    decreases |infos| - i
  {
    if i < |infos| && infos[i].Field? {
      var b := Apply(acc, infos[i]);
      HeadersEndAtBlank(infos, i + 1, b);
      if ReadHeaders(infos, i + 1, b).Success? {
        var e := ReadHeaders(infos, i + 1, b).value.1;
        forall j | i <= j < e
          ensures infos[j].Field?
        {
          if j > i {
            assert i + 1 <= j < e;
          }
        }
      }
    }
  }

  /** The `(name, value)` pairs of the fields `infos[i..e]`, in order. */
  function FieldPairs(infos: seq<HeaderLine>, i: nat, e: nat): (r: seq<(string, string)>)
    requires i <= e <= |infos| && forall k :: i <= k < e ==> infos[k].Field?
    ensures |r| == e - i
    decreases e - i
  {
    if i == e then [] else [(infos[i].name, infos[i].value)] + FieldPairs(infos, i + 1, e)
  }

  /**
   * The headers are the dictionary of the fields' `(name, value)` pairs in
   * order, later lines winning.
   */
  lemma {:induction false} HeadersAreFields(infos: seq<HeaderLine>, i: nat, acc: HeaderBlock, before: seq<(string, string)>)
    requires acc.headers == FromPairs(before)
    requires ReadHeaders(infos, i, acc).Success?
    ensures var (b, e) := ReadHeaders(infos, i, acc).value;
            && i <= e < |infos| && (forall k :: i <= k < e ==> infos[k].Field?)
            && b.headers == FromPairs(before + FieldPairs(infos, i, e))
    decreases |infos| - i
  {
    HeadersEndAtBlank(infos, i, acc);
    if infos[i] == BlankLine {
      assert before + [] == before;
      return;
    }
    var b := Apply(acc, infos[i]);
    var pair := (infos[i].name, infos[i].value);
    var next := before + [pair];
    assert next[..|before|] == before;
    assert FromPairs(next) == FromPairs(before).Put(pair.0, pair.1);
    HeadersAreFields(infos, i + 1, b, next);
    var e := ReadHeaders(infos, i + 1, b).value.1;
    ConcatAssoc(before, [pair], FieldPairs(infos, i + 1, e));
  }

  /**
   * Content-Length is that of the last field that sets it, and stays as it
   * was without one; the witness is that line, or -1.
   */
  lemma {:induction false} LengthIsLast(infos: seq<HeaderLine>, i: nat, acc: HeaderBlock) returns (j: int)
    requires ReadHeaders(infos, i, acc).Success?
    ensures var (b, e) := ReadHeaders(infos, i, acc).value;
            && e < |infos|
            && (j == -1 ==> b.length == acc.length && forall k :: i <= k < e ==> infos[k].Field? && infos[k].length.None?)
            && (j != -1 ==> && i <= j < e && infos[j].Field? && infos[j].length.Some? && b.length == infos[j].length
                            && forall k :: j < k < e ==> infos[k].Field? && infos[k].length.None?)
    decreases |infos| - i
  {
    HeadersEndAtBlank(infos, i, acc);
    if infos[i] == BlankLine {
      return -1;
    }
    var b := Apply(acc, infos[i]);
    var e := ReadHeaders(infos, i + 1, b).value.1;
    var later := LengthIsLast(infos, i + 1, b);
    if later != -1 {
      j := later;
    } else if infos[i].length.Some? {
      j := i;
    } else {
      j := -1;
      forall k | i <= k < e
        ensures infos[k].Field? && infos[k].length.None?
      {
        if k > i {
          assert i + 1 <= k < e;
        }
      }
    }
  }

  /**
   * Content-Type is that of the last field that sets it, and stays as it
   * was without one; the witness is that line, or -1.
   */
  lemma {:induction false} TypeIsLast(infos: seq<HeaderLine>, i: nat, acc: HeaderBlock) returns (j: int)
    requires ReadHeaders(infos, i, acc).Success?
    ensures var (b, e) := ReadHeaders(infos, i, acc).value;
            && e < |infos|
            && (j == -1 ==> b.ctype == acc.ctype && forall k :: i <= k < e ==> infos[k].Field? && infos[k].ctype.None?)
            && (j != -1 ==> && i <= j < e && infos[j].Field? && infos[j].ctype.Some? && b.ctype == infos[j].ctype
                            && forall k :: j < k < e ==> infos[k].Field? && infos[k].ctype.None?)
    decreases |infos| - i
  {
    HeadersEndAtBlank(infos, i, acc);
    if infos[i] == BlankLine {
      return -1;
    }
    var b := Apply(acc, infos[i]);
    var e := ReadHeaders(infos, i + 1, b).value.1;
    var later := TypeIsLast(infos, i + 1, b);
    if later != -1 {
      j := later;
    } else if infos[i].ctype.Some? {
      j := i;
    } else {
      j := -1;
      forall k | i <= k < e
        ensures infos[k].Field? && infos[k].ctype.None?
      {
        if k > i {
          assert i + 1 <= k < e;
        }
      }
    }
  }

  // ----------------------------------------------------------------- body

  /** `"application/json" in content_type`. */
  predicate IsJson(ctype: Option<string>) {
    ctype.Some? && Contains(ctype.value, "application/json")
  }

  /**
   * Lines 85-90: the body bytes are read only for a positive Content-Length,
   * and decoded only for a JSON content type; otherwise the body is `None`.
   */
  function BodyValue(rt: Runtime, block: HeaderBlock, payload: seq<byte>): (r: Result<Value, ErrorKind>)
    ensures !(block.length.Some? && block.length.value > 0) ==> r == Success(NoneV)
    ensures block.length.Some? && block.length.value > |payload| ==> r == Failure(IncompleteReadError)
    ensures block.length.Some? && 0 < block.length.value <= |payload| && !IsJson(block.ctype) ==> r == Success(NoneV)
    ensures r.Success? && r.value != NoneV ==>
              && block.length.Some? && 0 < block.length.value <= |payload| && IsJson(block.ctype)
              && rt.loads(payload[..block.length.value]) == Some(r.value)
    ensures r.Failure? ==> r.error == IncompleteReadError || r.error == ValueError
    // a complete JSON body is what `json.loads` gives, and undecodable bytes are its `ValueError`
    ensures block.length.Some? && 0 < block.length.value <= |payload| && IsJson(block.ctype) ==>
              && (rt.loads(payload[..block.length.value]).None? ==> r == Failure(ValueError))
              && (rt.loads(payload[..block.length.value]).Some? ==> r == Success(rt.loads(payload[..block.length.value]).value))
  {
    if block.length.Some? && block.length.value > 0 then
      var n := block.length.value;
      if |payload| < n then Failure(IncompleteReadError)
      else if IsJson(block.ctype) then
        match rt.loads(payload[..n])
        case None => Failure(ValueError)
        case Some(v) => Success(v)
      else Success(NoneV)
    else Success(NoneV)
  }

  // ------------------------------------------------------------ path split

  /**
   * Lines 92-95: `splits[-n:]` as the path values and `"/".join(splits[:-n])`
   * as the route, with Python's slicing, where `-0` is the start and a start
   * before the beginning is the beginning.
   */
  function SplitRoute(path: string, n: nat): (string, seq<string>) {
    var splits := Split(path, "/");
    var cut := if n == 0 || n > |splits| then 0 else |splits| - n;
    (Join(splits[..cut], "/"), splits[cut..])
  }

  /**
   * Without path parameters, or with at least as many as there are
   * segments, the route is `""` and every segment is a value; otherwise the
   * values are the last `n` segments.
   */
  lemma RouteSplit(path: string, n: nat)
    ensures var (route, vals) := SplitRoute(path, n);
            var splits := Split(path, "/");
            && (n == 0 || n >= |splits| ==> route == "" && vals == splits)
            && (0 < n <= |splits| ==> vals == splits[|splits| - n..] && |vals| == n)
  {
    var splits := Split(path, "/");
    if n == 0 || n >= |splits| {
      assert splits[..0] == [] && splits[0..] == splits;
    }
  }

  /** When some segment is left for the route, the route, `/` and the values rebuild the path. */
  lemma RouteRebuild(path: string, n: nat)
    requires 0 < n < |Split(path, "/")|
    ensures SplitRoute(path, n).0 + "/" + Join(SplitRoute(path, n).1, "/") == path
  {
    var splits := Split(path, "/");
    var cut := |splits| - n;
    assert splits == splits[..cut] + splits[cut..];
    JoinConcat(splits[..cut], splits[cut..], "/");
    JoinSplit(path, "/");
  }

  /**
   * A request path with a trailing `/` resolves as if it had none, yet its
   * last segment is then empty: with one path parameter, its value is `""`.
   */
  lemma TrailingSlashValue(path: string)
    ensures SplitRoute(path + "/", 1) == (Join(Split(path, "/"), "/"), [""])
    ensures RouteParts(path + "/") == Split(path, "/")
  {
    SplitTrailingSep(path, '/');
    var splits := Split(path + "/", "/");
    assert splits[..|splits| - 1] == Split(path, "/");
    assert (path + "/")[..|path|] == path;
  }

  // ---------------------------------------------------------- verification

  /** What the returned `Request` holds. */
  datatype Parsed = Parsed(
    route: string,
    verb: string,
    queries: OMap<Query>,
    headers: OMap<HeaderParam>,
    jar: OMap<Cookie>,
    pathParams: OMap<PathParam>,
    info: PathInfo,
    body: Body)

  /**
   * Lines 97-100: the path values, the queries, the headers and the body
   * checked in that order. `self` is the first parameter of `verify_*`, so a
   * query or header named `self` clashes with it in the keyword call.
   */
  function Bind(rt: Runtime, info: PathInfo, route: string, verb: string, vals: seq<string>,
                queries: OMap<string>, headers: OMap<string>, body: Value): Result<Parsed, Failure>
    requires queries.Valid() && headers.Valid()
  {
    match VerifiedPath(rt, info, vals)
    case Failure(e) => Failure(e)
    case Success(ps) =>
      if "self" in queries.items then Failure(Uncaught(TypeError))
      else
        match VerifiedQuery(rt, info, queries)
        case Failure(e) => Failure(e)
        case Success(qs) =>
          if "self" in headers.items then Failure(Uncaught(TypeError))
          else
            match VerifiedHeaders(rt, info, headers)
            case Failure(e) => Failure(e)
            case Success(hb) =>
              match VerifiedBody(rt, info, body)
              case Failure(e) => Failure(e)
              case Success(b) => Success(Parsed(route, verb, Collect(qs, QueryKey), hb.params, hb.jar, Collect(ps, PathKey), info, b))
  }

  /**
   * The request is bound exactly when all four stages pass; it then holds
   * each stage's result. Otherwise the first stage that fails decides the
   * error, whatever the later stages would do.
   */
  lemma BindStages(rt: Runtime, info: PathInfo, route: string, verb: string, vals: seq<string>,
                   queries: OMap<string>, headers: OMap<string>, body: Value)
    requires queries.Valid() && headers.Valid()
    ensures var r := Bind(rt, info, route, verb, vals, queries, headers, body);
            && (r.Success? <==>
                  && VerifiedPath(rt, info, vals).Success? && "self" !in queries.items
                  && VerifiedQuery(rt, info, queries).Success? && "self" !in headers.items
                  && VerifiedHeaders(rt, info, headers).Success? && VerifiedBody(rt, info, body).Success?)
            && (r.Success? ==>
                  && r.value.pathParams == Collect(VerifiedPath(rt, info, vals).value, PathKey)
                  && r.value.queries == Collect(VerifiedQuery(rt, info, queries).value, QueryKey)
                  && r.value.headers == VerifiedHeaders(rt, info, headers).value.params
                  && r.value.jar == VerifiedHeaders(rt, info, headers).value.jar
                  && r.value.body == VerifiedBody(rt, info, body).value
                  && r.value.route == route && r.value.verb == verb && r.value.info == info)
            && (VerifiedPath(rt, info, vals).Failure? ==> r == Failure(VerifiedPath(rt, info, vals).error))
            && (VerifiedPath(rt, info, vals).Success? && "self" !in queries.items && VerifiedQuery(rt, info, queries).Failure? ==>
                  r == Failure(VerifiedQuery(rt, info, queries).error))
  {
  }

  /** Lines 53-100: the whole of `load_from_reader`, over the registries' dictionaries. */
  function ParseRequest(rt: Runtime, tables: map<string, map<string, seq<PathInfo>>>, wire: Wire): Result<Parsed, Failure> {
    if |wire.lines| == 0 then Failure(Uncaught(IncompleteReadError))
    else
      match RequestLine(wire.lines[0])
      case None => Failure(Uncaught(ValueError))
      case Some((verb, target, _)) =>
        match LookupRoute(rt, tables, verb, target)
        case Raised(f) => Failure(f)
        case NotFound => Failure(Raise(rt.reasons, 404, Some(NoSuchRoute)))
        case Found(info) => ParseFound(rt, info, verb, target, wire)
  }

  /** Lines 65-100, once the route is found: the query string, the headers, the body, then the checks. */
  function ParseFound(rt: Runtime, info: PathInfo, verb: string, target: string, wire: Wire): Result<Parsed, Failure> {
    match SplitTarget(target)
    case None => Failure(Uncaught(ValueError))
    case Some(t) =>
      match ReadHeaders(Classified(wire.lines), 1, NoHeaders)
      case Failure(k) => Failure(Uncaught(k))
      case Success((block, _)) =>
        match BodyValue(rt, block, wire.payload)
        case Failure(k) => Failure(Uncaught(k))
        case Success(body) =>
          var (route, vals) := SplitRoute(t.path, |info.pathParams|);
          Bind(rt, info, route, verb, vals, t.queries, block.headers, body)
  }

  /**
   * The route is resolved from the request line alone: when it is not
   * found, or its lookup raises, nothing after the first line matters, and
   * a route that is not found is the 404 "No such route found.".
   */
  lemma RouteBeforeHeaders(rt: Runtime, tables: map<string, map<string, seq<PathInfo>>>, w1: Wire, w2: Wire)
    requires |w1.lines| > 0 && |w2.lines| > 0 && w1.lines[0] == w2.lines[0]
    requires RequestLine(w1.lines[0]).Some?
    requires !LookupRoute(rt, tables, RequestLine(w1.lines[0]).value.0, RequestLine(w1.lines[0]).value.1).Found?
    ensures ParseRequest(rt, tables, w1) == ParseRequest(rt, tables, w2)
    ensures LookupRoute(rt, tables, RequestLine(w1.lines[0]).value.0, RequestLine(w1.lines[0]).value.1).NotFound? ==>
              ParseRequest(rt, tables, w1) == Failure(Raise(rt.reasons, 404, Some(NoSuchRoute)))
  {
  }

  /**
   * A parsed request records the method and the descriptor the request line
   * resolved to, and its route is the path with the path values cut off
   * (`""` for a route without path parameters).
   */
  lemma ParsedRequest(rt: Runtime, tables: map<string, map<string, seq<PathInfo>>>, wire: Wire)
    requires ParseRequest(rt, tables, wire).Success?
    ensures |wire.lines| > 0 && RequestLine(wire.lines[0]).Some?
    ensures var (verb, target, _) := RequestLine(wire.lines[0]).value;
            var p := ParseRequest(rt, tables, wire).value;
            && p.verb == verb && LookupRoute(rt, tables, verb, target) == Found(p.info)
            && SplitTarget(target).Some?
            && p.route == SplitRoute(SplitTarget(target).value.path, |p.info.pathParams|).0
            && (|p.info.pathParams| == 0 ==> p.route == "")
  {
    var (verb, target, _) := RequestLine(wire.lines[0]).value;
    var info := LookupRoute(rt, tables, verb, target).info;
    assert ParseRequest(rt, tables, wire) == ParseFound(rt, info, verb, target, wire);
    FoundParsed(rt, info, verb, target, wire);
  }

  lemma FoundParsed(rt: Runtime, info: PathInfo, verb: string, target: string, wire: Wire)
    requires ParseFound(rt, info, verb, target, wire).Success?
    ensures SplitTarget(target).Some?
    ensures var p := ParseFound(rt, info, verb, target, wire).value;
            && p.verb == verb && p.info == info
            && p.route == SplitRoute(SplitTarget(target).value.path, |info.pathParams|).0
            && (|info.pathParams| == 0 ==> p.route == "")
  {
    var t := SplitTarget(target).value;
    var (block, _) := ReadHeaders(Classified(wire.lines), 1, NoHeaders).value;
    var body := BodyValue(rt, block, wire.payload).value;
    var (route, vals) := SplitRoute(t.path, |info.pathParams|);
    BindStages(rt, info, route, verb, vals, t.queries, block.headers, body);
    RouteSplit(t.path, |info.pathParams|);
  }

  // --------------------------------------------------------------- request

  /** A parsed request. */
  class Request {
    var path: string
    var verb: string
    var queries: QueryList
    var headers: Headers
    var pathParams: PathList
    var pathInfo: PathInfo
    var body: Body

    ghost predicate Valid()
      reads this, queries, headers, headers.cookies, pathParams
    {
      queries.Valid() && headers.Valid() && pathParams.Valid()
    }

    constructor (path: string, verb: string, queries: QueryList, headers: Headers, pathParams: PathList, pathInfo: PathInfo, body: Body)
      ensures this.path == path && this.verb == verb && this.queries == queries && this.headers == headers
      ensures this.pathParams == pathParams && this.pathInfo == pathInfo && this.body == body
    {
      this.path := path;
      this.verb := verb;
      this.queries := queries;
      this.headers := headers;
      this.pathParams := pathParams;
      this.pathInfo := pathInfo;
      this.body := body;
    }

    /** What the request holds, as a value. */
    function Snapshot(): Parsed
      reads this, queries, headers, headers.cookies, pathParams
    {
      Parsed(path, verb, queries.queries, headers.headerParams, headers.cookies.params, pathParams.pathParams, pathInfo, body)
    }

    /** `request.params`: the annotated names. */
    function Params(): seq<string>
      reads this
    {
      pathInfo.varTypes.keys
    }

    /** `request.annotations`. */
    function Annotations(): OMap<TypeSpec>
      reads this
    {
      pathInfo.varTypes
    }

    /** `request.handler`. */
    function Handler(): HandlerId
      reads this
    {
      pathInfo.handler
    }

    /** `request.cookies`: the jar of the request's headers. */
    function Jar(): Cookies
      reads this, headers
    {
      headers.cookies
    }

    /** `request.request_param`. */
    function RequestParam(): Option<string>
      reads this
    {
      pathInfo.requestParam
    }

    /** `request.body_param`. */
    function BodyParam(): Option<string>
      reads this
    {
      pathInfo.body
    }
  }

  /** The registries of every method, as dictionaries. */
  ghost function Tables(all: MethodWisePathsInfo): map<string, map<string, seq<PathInfo>>>
    reads all, all.paths.Values
  {
    map m | m in all.paths :: all.paths[m].paths
  }

  /** `Request.load_from_reader(reader, all_path_info)`. */
  method LoadFromReader(rt: Runtime, all: MethodWisePathsInfo, wire: Wire) returns (r: Result<Request, Failure>)
    requires all.Valid()
    ensures r.Failure? <==> ParseRequest(rt, Tables(all), wire).Failure?
    ensures r.Failure? ==> r.error == ParseRequest(rt, Tables(all), wire).error
    ensures r.Success? ==> fresh(r.value) && r.value.Valid() && r.value.Snapshot() == ParseRequest(rt, Tables(all), wire).value
  {
    if |wire.lines| == 0 {
      return Failure(Uncaught(IncompleteReadError));
    }
    var line := RequestLine(wire.lines[0]);
    if line.None? {
      return Failure(Uncaught(ValueError));
    }
    var (verb, target, _) := line.value;
    var found := all.GetApiRoutePathInfo(rt, verb, target);
    assert found == LookupRoute(rt, Tables(all), verb, target);
    if found.Raised? {
      return Failure(found.failure);
    }
    if found.NotFound? {
      return Failure(Raise(rt.reasons, 404, Some(NoSuchRoute)));
    }
    r := LoadFound(rt, found.info, verb, target, wire);
  }

  /** Lines 65-100 of `load_from_reader`, once the route is found. */
  method LoadFound(rt: Runtime, info: PathInfo, verb: string, target: string, wire: Wire) returns (r: Result<Request, Failure>)
    ensures r.Failure? <==> ParseFound(rt, info, verb, target, wire).Failure?
    ensures r.Failure? ==> r.error == ParseFound(rt, info, verb, target, wire).error
    ensures r.Success? ==> fresh(r.value) && r.value.Valid() && r.value.Snapshot() == ParseFound(rt, info, verb, target, wire).value
  {
    var t := ParseTarget(target);
    if t.None? {
      return Failure(Uncaught(ValueError));
    }
    var (path, queries) := (t.value.path, t.value.queries);
    var block := ReadHeaderBlock(wire.lines);
    if block.Failure? {
      return Failure(Uncaught(block.error));
    }
    var body := BodyValue(rt, block.value.0, wire.payload);
    if body.Failure? {
      return Failure(Uncaught(body.error));
    }
    var n := |info.pathParams|;
    var splits := Split(path, "/");
    var cut := if n == 0 || n > |splits| then 0 else |splits| - n;
    var route := Join(splits[..cut], "/");
    r := Verify(rt, info, route, verb, splits[cut..], queries, block.value.0.headers, body.value);
  }

  /** Lines 65-70: the path, and the query string parsed when there is a `?`. */
  method ParseTarget(target: string) returns (r: Option<Target>)
    ensures r == SplitTarget(target)
  {
    var path := target;
    var queries: OMap<string> := Empty();
    if Contains(path, "?") {
      var (p, qs) := SplitOnce(path, "?").value;
      var parsed := ParseQueryString(qs);
      if parsed.None? {
        return None;
      }
      path, queries := p, parsed.value;
    }
    r := Some(Target(path, queries));
  }

  /** The loop of lines 67-70 over the `&`-separated pairs. */
  method ParseQueryString(qs: string) returns (r: Option<OMap<string>>)
    ensures r.None? <==> QueryPairs(Split(qs, "&")).None?
    ensures r.Some? ==> r.value == FromPairs(QueryPairs(Split(qs, "&")).value)
  {
    var pieces := Split(qs, "&");
    var queries: OMap<string> := Empty();
    ghost var done: seq<(string, string)> := [];
    for i := 0 to |pieces|
      invariant QueryPairs(pieces[..i]) == Some(done) && queries == FromPairs(done)
    {
      assert pieces[..i + 1][..i] == pieces[..i];
      var pair := SplitPair(pieces[i], "=");
      if pair.None? {
        QueryPairsFail(pieces, i);
        return None;
      }
      queries := queries.Put(pair.value.0, pair.value.1);
      assert (done + [pair.value])[..|done|] == done;
      done := done + [pair.value];
    }
    assert pieces[..|pieces|] == pieces;
    r := Some(queries);
  }

  lemma QueryPairsFail(pieces: seq<string>, i: nat)
    requires i < |pieces| && SplitPair(pieces[i], "=").None?
    ensures QueryPairs(pieces).None?
  {
    QueryPairsIff(pieces);
  }

  /** The `while True` loop of lines 72-83 over the lines after the request line. */
  method ReadHeaderBlock(lines: seq<string>) returns (r: Result<(HeaderBlock, nat), ErrorKind>)
    ensures r == ReadHeaders(Classified(lines), 1, NoHeaders)
  {
    ghost var infos := Classified(lines);
    var headers: OMap<string> := Empty();
    var length: Option<int> := None;
    var ctype: Option<string> := None;
    var i := 1;
    while true
      invariant 1 <= i
      invariant ReadHeaders(infos, 1, NoHeaders) == ReadHeaders(infos, i, HeaderBlock(headers, length, ctype))
      decreases |lines| - i
    {
      if i >= |lines| {
        return Failure(IncompleteReadError);
      }
      var info := ClassifyHeader(lines[i]);
      if info == BlankLine {
        break;
      }
      if !info.Field? {
        return Failure(ValueError);
      }
      if info.length.Some? {
        length := info.length;
      }
      if info.ctype.Some? {
        ctype := info.ctype;
      }
      headers := headers.Put(info.name, info.value);
      i := i + 1;
    }
    r := Success((HeaderBlock(headers, length, ctype), i));
  }

  /** Lines 97-109: the four checks in order, then the `Request` built from their results. */
  method Verify(rt: Runtime, info: PathInfo, route: string, verb: string, vals: seq<string>,
                queries: OMap<string>, headers: OMap<string>, body: Value) returns (r: Result<Request, Failure>)
    requires queries.Valid() && headers.Valid()
    ensures r.Failure? <==> Bind(rt, info, route, verb, vals, queries, headers, body).Failure?
    ensures r.Failure? ==> r.error == Bind(rt, info, route, verb, vals, queries, headers, body).error
    ensures r.Success? ==> fresh(r.value) && r.value.Valid()
                           && r.value.Snapshot() == Bind(rt, info, route, verb, vals, queries, headers, body).value
  {
    var ps := VerifyPathParams(rt, info, vals);
    if ps.Failure? {
      return Failure(ps.error);
    }
    if "self" in queries.items {
      return Failure(Uncaught(TypeError));
    }
    var qs := VerifyQueryParams(rt, info, queries);
    if qs.Failure? {
      return Failure(qs.error);
    }
    if "self" in headers.items {
      return Failure(Uncaught(TypeError));
    }
    var hs := VerifyHeaders(rt, info, headers);
    if hs.Failure? {
      return Failure(hs.error);
    }
    var b := VerifiedBody(rt, info, body);
    if b.Failure? {
      return Failure(b.error);
    }
    var request := new Request(route, verb, qs.value, hs.value, ps.value, info, b.value);
    r := Success(request);
  }
}
