# FastPy in Dafny

A Dafny model of FastPy's core, with proofs about it. FastPy is a small asyncio HTTP/1.1 framework with a FastAPI-style decorator API, and its core is the part between the socket and the user's handler:

- **Routing.** The route registry (`RegisteredPaths`, `MethodWisePathsInfo`) keys each route template by its literal text before the first `{name}` placeholder. It resolves a request path by trying its prefixes from longest to shortest.
- **Parameter classification.** `add_api_route` sorts every annotated handler parameter into the source it will be read from: a header, a cookie, the path, the body, the request itself, or the query string.
- **Binding.** `PathInfo.verify_*` checks and converts path values, query values, headers, cookies and the body. `get_valid_params_dict` builds the handler's keyword arguments, and `handle_request` checks the handler's result against its `return` annotation and wraps it in a reply.
- **The wire codec.**
  - Reading: `Request.load_from_reader` splits the request line, the query string and the header block, and decides on the body.
  - Cookies: `Cookies.from_string` parses the `Cookie` header.
  - Writing: `Cookie`, `Cookies`, `Headers`, `Response` and `HttpException` write their text in `__str__`.

The modules follow the program:

| module | file | what it holds |
|---|---|---|
| `Wrappers` | `wrappers.dfy` | `Option` and `Result`. |
| `PyStrings` | `pystrings.dfy` | The Python `str` operations the code uses, with their laws: `split`, `join`, `strip`, `find`, `split(sep, 1)`, two-way unpacking, `casefold`, `int()` and `str()` of an integer. |
| `OrderedMaps` | `ordered_maps.dfy` | Python's insertion-ordered `dict`: `Put`, `Merge` (`{**a, **b}`), and `FromPairs` and `Collect` (dictionary comprehensions). |
| `Json` | `json.dfy` | `json.dumps` of a string with `ensure_ascii`, and its decoder. |
| `Values` | `values.dfy` | The Python values the server moves around, and handler annotations (`TypeSpec`). It also holds the `Runtime`. |
| `Exceptions` | `exceptions.dfy` | `HttpException`, and how an operation ends when it raises. |
| `Params` | `params.dfy` | `Cookie`, `Cookies`, `QueryList`, `PathList`, `Headers` and `Body`. |
| `Binding` | `binding.dfy` | `PathInfo` and its `verify_*` methods. |
| `Routing` | `routing.dfy` | `_get_path_params`, `add_api_route`, `get_api_path_info` and `MethodWisePathsInfo`. |
| `Requests` | `requests.dfy` | `Request` and `load_from_reader`. |
| `Responses` | `responses.dfy` | `Response`. |
| `Dispatch` | `dispatch.dfy` | `get_valid_params_dict` and `handle_request`. |

The `Runtime` collects the pieces FastPy calls but does not define, as function-valued fields:

- the status-code table `HTTP_STATUS_CODES`;
- pydantic validation and dumping;
- `json.loads` and `json.dumps` of non-string values;
- the integer an object equals as a dictionary key (an `IntEnum` member such as `HTTPStatus.OK`, or `200.0`), which is what a status-code lookup finds;
- `int()` of arbitrary objects;
- calling an arbitrary annotation as a converter.

Code that changes state in place is modelled as classes with `modifies` clauses, and its loops as `while` loops with invariants. That covers the containers of `params.py`, the registries, the `verify_*` loops, `load_from_reader`, `get_valid_params_dict` and `handle_request`. Each such method is proved equal to a function of its inputs, and the properties are lemmas about those functions.

A handler is a `HandlerId` plus an `invoke` function, passed as a parameter. `invoke` maps the keyword arguments and the request to a result or a raised exception. A Python `set` of names is a duplicate-free sequence whose order stands for the set's iteration order. Python iterates a set of strings in hash order, which the code does not fix. For the path-parameter names of `add_api_route` that order is an input, and no lemma depends on it. The query, header and cookie sets are fixed to annotation order instead (see "## Left out").

`src/requests.py` is byte-identical to `src/fastpy_rest/requests.py`, so one `Requests` module models both. Its table rows cite both files. `src/core.py` imports `.params` and `.exceptions`, which are modelled against `src/fastpy_rest/params.py` and `src/exceptions.py`.

## Model

| member | source | states |
|---|---|---|
| Routing.NextBrace | src/core.py:133 | The result is the first `{` or `}` at or after the start position, and none means there is no brace from there on. |
| Routing.MatchEnd | src/core.py:133 | A placeholder `{name}` starts at `i` exactly when a `{` there is followed by a non-empty brace-free name and a `}`. The result is the position of that `}`. |
| Routing.FirstMatchFrom | src/core.py:134 | The result is the position of the first placeholder at or after `i`, and no placeholder starts before it. |
| Routing.NamesBraceFree | src/core.py:135 | Every name `re.findall` returns is non-empty and holds no brace. |
| Routing.NamesIffMatch | src/core.py:134-135 | `findall` returns no names exactly when `re.split` finds no placeholder to split at. |
| Routing.TemplateShape | src/core.py:132-136 | The key is the text before the first placeholder, and the whole route when there is none. That is exactly when the name list is empty. Every name is non-empty and brace-free. |
| Routing.FindAllShift | src/core.py:135 | Scanning for names after a prefix gives the same names as scanning the rest alone. |
| Routing.NoOpenNoMatch | src/core.py:134-135 | Text without `{` contributes no placeholder and does not move the first match. |
| Routing.TemplateParams | src/core.py:132-136 | A template made of a brace-free prefix, `{name}` and a rest is keyed by the prefix. Its names are `name` followed by the names in the rest. |
| Routing.TestTemplate | src/core.py:132-136 | `/test/{param}` gives the key `/test/` and the names `["param"]`. |
| Routing.DefaultPairs | src/core.py:153 | `zip(args[-len(defaults):], defaults)` pairs the k-th default with the k-th of the last `len(defaults)` arguments. |
| Routing.DefaultsContent | src/core.py:147-154 | With distinct argument names, `defaults_dict` has exactly the last `len(defaults)` arguments as keys, and each maps to its own default. |
| Routing.PairNames | src/core.py:153-154 | Every key of `defaults_dict` is an argument name. |
| Routing.Bucket | src/core.py:155-168 | A name is in a source's set exactly when it is annotated and classified to that source. |
| Routing.LastOf | src/core.py:163-166 | The body or request parameter is an annotated name classified to that source. None means no name is. |
| Routing.LastOfIsLast | src/core.py:163-166 | The chosen body or request parameter is the last name of its kind, because later assignments overwrite `body` and `request`. |
| Routing.Classification | src/core.py:155-168 | The precedence: a `Headers` default means a header; a `Cookies` default means a cookie; a path name or `return` is skipped; a model-instance default (not the annotation) means the body; a `Request` annotation means the request parameter; anything else is a query. |
| Routing.ClassifiedOnce | src/core.py:155-168 | A name lands in at most one source. A path name without a `Headers` or `Cookies` default lands in none. |
| Routing.AbsentHeaderUsesMarker | src/core.py:157-158 | Every registered header parameter has the `Headers` marker as its default, so an absent header is never reported missing. It is converted from the marker, whose text is empty: the `str` annotation gives `""`, and a rejecting converter gives the 422 mismatch. (See also lines 94-107.) |
| Routing.AbsentCookieUsesMarker | src/core.py:159-160 | Every registered cookie parameter has the `Cookies` marker as its default, so a cookie absent from the `Cookie` header is converted from the marker. Under `str` it is stored as the attribute-less cookie `""`, and a rejecting converter gives the 422 mismatch. (See also lines 77-89.) |
| Routing.ReturnIsResponseModel | src/core.py:161-171 | `return` is never a parameter source, and its annotation becomes `response_model`. |
| Routing.Register | src/core.py:172-190 | Registration appends the descriptor to the list under the stripped key, creating the list if needed. Earlier entries and every other key are unchanged. |
| Routing.SlashSharesKey | src/core.py:172-173 | A route without placeholders and the same route with a trailing `/` register under one key. |
| Routing.RegisteredPaths.constructor | src/core.py:129-130 | A new registry is empty. |
| Routing.RegisteredPaths.AddApiRoute | src/core.py:138-190 | The registry afterwards is `Register` of the old one: the descriptor built from the signature, appended under its key. |
| Routing.DefaultsOf | src/core.py:147-154 | The loop builds the dictionary of `zip(args[-len(defaults):], defaults)`. |
| Routing.ClassifyAll | src/core.py:148-168 | The loop fills the query, header and cookie sets with exactly the names of each bucket; the model lists them in annotation order, where Python's sets iterate in hash order. `body` and `request` end as the last name of their kind. |
| Routing.ClassifyStep | src/core.py:155-168 | One pass of the loop adds the current name to exactly its own bucket. |
| Routing.FirstFit | src/core.py:202-204 | The result is the first descriptor, in registration order, whose path-parameter count is `n`. None means no descriptor has that count. |
| Routing.TryPrefix | src/core.py:202-211 | Over one prefix's list: nothing when no descriptor fits. Otherwise the first fitting one if its segments convert, and else the 404 "No route found.", without trying later descriptors. |
| Routing.CheckSegments | src/core.py:205-210 | The result says whether every (name, segment) pair of the zip converts under the name's annotation. |
| Routing.SearchFits | src/core.py:197-212 | When one of a prefix's descriptors fits, the search ends at that prefix. It returns the first fitting descriptor when its segments convert, and raises 404 when they do not. |
| Routing.SearchSkips | src/core.py:197-212 | The search moves on to the next shorter prefix when a prefix is not registered or none of its descriptors fits. |
| Routing.SearchNotFound | src/core.py:197-213 | The search returns `None` exactly when no prefix, at any length, holds a descriptor with a matching count. |
| Routing.SearchCommits | src/core.py:197-211 | Otherwise it commits to the longest fitting prefix and to its first fitting descriptor. It returns that descriptor when its segments convert, and raises 404 when one does not. |
| Routing.EmptyRegistry | src/core.py:192-213 | An empty registry resolves every path to `None`. tests/test_fastpy.py:41-42 rests on this. |
| Routing.RegisteredPaths.GetApiPathInfo | src/core.py:192-213 | The result is `Resolve` of the registry: the longest-prefix search over the path with one trailing `/` dropped. |
| Routing.SearchTable | src/core.py:193-213 | The `while` loop computes `Resolve` over the registry's dictionary. |
| Routing.TryKey | src/core.py:198-212 | One pass of the loop: a result is what the search at that prefix gives, and no result means the search moves on to the next shorter prefix. |
| Routing.TestRoute | tests/test_fastpy.py:27-32 | `/test/{param}` with a handler `(param: str)` registers under the one key `/test`. `/test/123` resolves to its descriptor, whose only source is the path parameter `param`. |
| Routing.TestRegistry | tests/test_fastpy.py:28-29 | Registering `/test/{param}` in an empty registry leaves one key, `/test`, holding one descriptor. |
| Routing.TestResolve | tests/test_fastpy.py:32 | A registry that holds a one-parameter descriptor under `/test` resolves `/test/123` to it. |
| Routing.TestDescriptor | tests/test_fastpy.py:28-29 | The descriptor of `(param: str)` at `/test/{param}` has `param` as its only path parameter and no other source. |
| Routing.TestParts | src/core.py:195-198 | `/test/123` splits into `["", "test", "123"]`, and its two-segment prefix joins to `/test`. |
| Routing.MethodWisePathsInfo.constructor | src/core.py:217-220 | There is one fresh, empty registry for each of GET, POST, PUT, PATCH and DELETE, and no two methods share one. |
| Routing.MethodWisePathsInfo.AddApiRoute | src/core.py:222-223 | A method outside the table is a `KeyError`. Otherwise only that method's registry changes, by `Register`. |
| Routing.MethodWisePathsInfo.GetApiRoutePathInfo | src/core.py:225-229 | A method outside the table is a `KeyError`. Otherwise the path before the first `?` is resolved in that method's registry. |
| Binding.AllOrFirstSuccess | src/core.py:47-53 | Steps run in order succeed exactly when each step succeeds, and then give every step's value in order. (See also lines 57-70, lines 94-107.) |
| Binding.AllOrFirstFailure | src/core.py:47-53 | On failure, the error is that of a step that failed after all earlier steps succeeded. (See also lines 57-70, lines 94-107.) |
| Binding.PathItems | src/core.py:47 | There is one step per pair of `zip(path_params, args)`: the shorter of the two lengths. |
| Binding.VerifyPathParams | src/core.py:45-53 | The method fails exactly when `VerifiedPath` does, with its error. On success the fresh `PathList` holds the converted pairs. |
| Binding.PathVerification | src/core.py:45-53 | Path verification succeeds exactly when every zipped name is annotated and its segment converts. Each pair is then stored converted, in zip order. |
| Binding.PathFailure | src/core.py:47-52 | A failure is the raw `KeyError` of an unannotated name, or the 422 mismatch of a rejected segment. |
| Binding.QueryItems | src/core.py:57-70 | There is one step per declared query. |
| Binding.ExtraQueries | src/core.py:71-72 | The extras are input names that are not declared, stored with their raw text and `pre_defined=False`. |
| Binding.VerifyQueryParams | src/core.py:55-73 | The method fails exactly when `VerifiedQuery` does, with its error. On success the fresh `QueryList` holds the declared queries followed by the extras. |
| Binding.AddExtraQueries | src/core.py:71-72 | The loop adds exactly `ExtraQueries` of the input names, after what the list held. |
| Binding.QueryMissing | src/core.py:58-64 | As written, a declared query absent from the input fails. With a default it is a 422 "... not given in query params."; without one it is a raw `KeyError` at the `defaults` lookup. |
| Binding.QueryDeclared | src/core.py:57-67 | When the declared queries all pass, each was given in the input and is stored converted, with `pre_defined=True`. |
| Binding.QueryVerification | src/core.py:55-73 | On success, a name is stored exactly when it is declared or given. A declared one holds its converted value and `pre_defined=True`. An undeclared one holds its raw text and `pre_defined=False`. |
| Binding.CookieVerification | src/core.py:75-90 | A malformed header is a `ValueError`. Otherwise each declared cookie is replaced by an attribute-less cookie holding its converted value (from the jar, else the default), and every undeclared cookie is untouched. |
| Binding.CookieStepsContent | src/core.py:77-89 | The loop over the declared cookies replaces each one and keeps every other cookie as parsed. |
| Binding.VerifyCookies | src/core.py:75-90 | The method fails exactly when `VerifiedCookies` does, with its error. On success the fresh jar holds `VerifiedCookies`. |
| Binding.CheckCookies | src/core.py:78-90 | The loop over the declared cookies fails exactly when `CookieSteps` of the parsed jar does, with its error. Otherwise the jar ends as `CookieSteps` gives it. |
| Binding.CheckCookie | src/core.py:78-89 | One pass changes only the jar, which becomes `CookieStep` of the old jar. The error, when there is one, is `CookieStep`'s. |
| Binding.HeaderItems | src/core.py:94-107 | There is one step per declared header. |
| Binding.VerifyHeaders | src/core.py:92-114 | The method fails exactly when `VerifiedHeaders` does, with its error. On success the fresh `Headers` holds its headers and its jar. |
| Binding.CheckHeader | src/core.py:95-107 | One pass stores the declared header converted and leaves the jar alone. The error, when there is one, is the step's. |
| Binding.AddExtraHeaders | src/core.py:108-113 | The loop over the undeclared input headers leaves the headers and the jar as `ExtraHeaders` computes them. |
| Binding.AddExtraHeader | src/core.py:108-113 | One input header. A declared one changes nothing. An undeclared cookie header replaces the jar, or is the error when its cookies fail verification. Any other undeclared header is stored with its raw text. The headers and the jar end as `ExtraHeaderStep` gives them. |
| Binding.CookieHeaders | src/core.py:108-109 | The cookie headers are exactly the undeclared input names that case-fold to `cookie`. |
| Binding.ExtraHeadersParams | src/core.py:108-113 | Each undeclared, non-cookie input header is stored with its raw text. No other name is touched. |
| Binding.ExtraHeadersJar | src/core.py:108-111 | The loop fails exactly when some cookie header fails cookie verification. On success the jar is what the last cookie header gave, and stays as it was without one. |
| Binding.CookiesNeedCookieHeader | src/core.py:108-111 | Without a cookie header the declared cookies play no part: the outcome is the same whatever cookies are declared, and the jar is empty. |
| Binding.HeaderDeclared | src/core.py:94-107 | When the declared headers all pass, each is stored converted from the input value, or else from the default. |
| Binding.HeaderMissing | src/core.py:95-96 | A declared header absent from both the input and the defaults fails with the 422 "... not given in headers.". A route registered by `add_api_route` always has such a default (see `Routing.AbsentHeaderUsesMarker`). |
| Binding.MarkedHeaderItem | src/core.py:94-107 | A declared header absent from the input whose default is the `Headers` marker is converted from the marker, never reported missing. Under `str` it is stored as `""`. |
| Binding.MarkedCookieStep | src/core.py:77-89 | A declared cookie absent from the jar whose default is the `Cookies` marker is converted from the marker. Under `str` it is stored as the attribute-less cookie `""`. |
| Binding.HeaderVerification | src/core.py:92-114 | On success, a declared header holds its converted value, and an undeclared, non-cookie input header holds its text. No other name is a header. |
| Binding.DeclaredHeaderStored | src/core.py:94-104 | Before the extras, each declared header is stored converted. |
| Binding.HeaderJar | src/core.py:108-111 | On success the jar is what the last cookie header gave, and is empty when there is none. |
| Binding.VerifiedBody | src/core.py:116-125 | Without a body parameter the value is wrapped unchanged. Otherwise the annotation's `model_validate_json` decides the body. An unannotated name is a `KeyError`. A non-model annotation or a validation error is a 422 carrying the message. |
| Binding.NoValidatorMessage | src/core.py:120 | The 422 detail for a non-model body annotation is the `AttributeError` text ending in ` has no attribute 'model_validate_json'`. It names the class by its bare `__name__` (for `str`, `int` and any other class), or the `'NoneType' object` for `None`. |
| Params.PlainCookie | src/fastpy_rest/params.py:70-92 | `Cookie(name, value)` sets every attribute to its default. |
| Params.CookieTextPieces | src/fastpy_rest/params.py:94-113 | `str(cookie)` is `name=value` followed by the set attributes, joined by `"; "`, in the order Expires, Max-Age, Domain, Path, SameSite, Priority, Secure, HttpOnly. A cookie without attributes is just `name=value`. |
| Params.AttributesPrefixed | src/fastpy_rest/params.py:97-112 | The chain of `if`s writes exactly the set attributes, each as a `"; "`-prefixed piece, in the fixed order. |
| Params.CookieLines | src/fastpy_rest/params.py:123 | There is exactly one `Set-Cookie: <cookie>` line per cookie. |
| Params.Cookies.constructor | src/fastpy_rest/params.py:117-118 | The jar holds the given cookies by name, and a later cookie replaces an earlier one of the same name. |
| Params.Cookies.Has | src/fastpy_rest/params.py:130-131 | `name in cookies` is true exactly when a cookie of that name is stored. |
| Params.Cookies.Get | src/fastpy_rest/params.py:133-134 | The result is the stored cookie of that name, and `KeyError` (None) when there is none. |
| Params.Cookies.CookieNames | src/fastpy_rest/params.py:136-138 | The set holds exactly the stored names. |
| Params.Cookies.Add | src/fastpy_rest/params.py:140-141 | The name maps to the new cookie, and every other entry and the insertion order are unchanged. |
| Params.Cookies.UpdateCookie | src/fastpy_rest/params.py:143-144 | The name maps to an attribute-less cookie holding the value, so any attributes are dropped. Nothing else changes. |
| Params.Cookies.Dict | src/fastpy_rest/params.py:146-147 | `dict()` has the jar's names, in order, each with its cookie's value, and no other key. |
| Params.Cookies.ToText | src/fastpy_rest/params.py:120-125 | `str(cookies)` is the `Set-Cookie` lines in insertion order, each ended by CRLF. An empty jar gives `""`. |
| Params.Cookies.FromString | src/fastpy_rest/params.py:149-155 | Parsing fails with `ValueError` exactly when `ParseCookies` does. Otherwise the fresh jar holds `ParseCookies` of the text. |
| Params.Cookies.FromPieces | src/fastpy_rest/params.py:151-155 | The loop over the `"; "`-separated pieces fails with `ValueError` exactly when `ParsePieces` does. Otherwise the fresh jar holds the cookies the pieces describe, later names overwriting earlier ones. |
| Params.ParsePiecesSucceeds | src/fastpy_rest/params.py:152-154 | Parsing succeeds exactly when every `"; "`-separated piece splits on `=` into exactly two parts. |
| Params.ParseCookiesRejects | src/fastpy_rest/params.py:152-153 | The empty string fails, and so does any text with a piece that has a second `=`. |
| Params.ParsePiecesStep | src/fastpy_rest/params.py:153-154 | Each piece stores an attribute-less cookie under its stripped name, holding its stripped value, and a later duplicate overwrites. |
| Params.TransmittableText | src/fastpy_rest/params.py:94-96 | The text of a cookie with a plain name and value holds no `"; "` and splits on `=` back into that name and value. (See also line 153.) |
| Params.ParseTexts | src/fastpy_rest/params.py:94-96 | Parsing the texts of such cookies gives the jar of those cookies. (See also lines 152-155.) |
| Params.CookiesRoundTrip | src/fastpy_rest/params.py:94-96 | Round trip: joining the texts of attribute-less cookies with `"; "` and reading them back with `from_string` gives the same jar, and so the same `dict()`. The names and values must hold no `=`, no `"; "` and no outer whitespace; a lone `;`, as in `x;y`, is allowed. (See also lines 146-155.) |
| Params.SemicolonValueRoundTrip | src/fastpy_rest/params.py:149-155 | A lone `;` in a value survives the round trip: `a=x;y` reads back as the cookie `a` with the value `x;y`. |
| Params.QueryList.constructor | src/fastpy_rest/params.py:159-160 | The list holds the given queries by name, and later ones win. |
| Params.QueryList.Queries | src/fastpy_rest/params.py:162-164 | The stored queries come in insertion order, one per name. |
| Params.QueryList.AddQuery | src/fastpy_rest/params.py:166-167 | The name maps to the new query, and nothing else changes. |
| Params.QueryList.Dict | src/fastpy_rest/params.py:169-170 | `dict()` has the stored names, each with its query's value. |
| Params.PathList.constructor | src/fastpy_rest/params.py:174-175 | The list holds the given path parameters by name, and later ones win. |
| Params.PathList.AddPath | src/fastpy_rest/params.py:177-178 | The name maps to the new parameter, and nothing else changes. |
| Params.PathList.Dict | src/fastpy_rest/params.py:180-181 | `dict()` has the stored names, each with its parameter's value. |
| Params.HeaderLines | src/fastpy_rest/params.py:191-192 | There is one `name: value` line per header. |
| Params.Headers.constructor | src/fastpy_rest/params.py:185-187 | The headers are keyed by name. The given jar is held as is, and a fresh empty jar is used when none is given. |
| Params.Headers.ToText | src/fastpy_rest/params.py:189-194 | `str(headers)` is each header's `name: value` line ended by CRLF, then the cookie block. |
| Params.Headers.AddHeader | src/fastpy_rest/params.py:196-197 | The name maps to the new header. The other headers and the jar are unchanged. |
| Params.Headers.AddCookie | src/fastpy_rest/params.py:199-200 | The cookie is added to the jar the headers hold. |
| Params.Headers.SetCookies | src/fastpy_rest/params.py:202-203 | The headers now hold the given jar itself, and their header entries are unchanged. |
| Params.Headers.Dict | src/fastpy_rest/params.py:205-211 | The method computes `HeadersDict` of its jar's `dict()` and its headers. |
| Params.HeadersDictContent | src/fastpy_rest/params.py:205-211 | `Headers.dict()` holds every cookie name and header name except `cookie`. A header's value wins over a cookie of the same name. |
| Params.BodyText | src/fastpy_rest/params.py:58-63 | `str(body)` of a string is the string itself. A model is written with its `model_dump_json`, anything else by `json.dumps`: `None` is `null`, booleans are `true` and `false`, another object is what `json.dumps` gives, and the `Headers` and `Cookies` markers have no text. |
| Params.BodyTextInt | src/fastpy_rest/params.py:61-62 | An integer body is written as digits that read back as the same integer. |
| Exceptions.Raise | src/exceptions.py:9-20 | `HttpException(code, detail)` keeps a code from the table and sets `detail` to the JSON of `{"detail": detail}`. A code outside the table raises `HttpException(500, "Wrong http code defined.")` instead. The result's code is always in the table. |
| Exceptions.ExceptionText | src/exceptions.py:22-27 | `str(e)` is the status line, CRLF, then the detail text. It raises exactly when the code is not in the table. |
| Exceptions.RaisedWrites | src/exceptions.py:17-38 | A raised exception always serialises: the status line of its code, a blank line, then the detail. It is never the fallback line, and the detail is printable ASCII, so no header line can appear. |
| Exceptions.DetailDecodes | src/exceptions.py:20 | The detail is a JSON object whose `"detail"` string decodes back to the message. With no message it is `{"detail": null}`. |
| Json.EscapePrintable | src/exceptions.py:20 | With `ensure_ascii`, `json.dumps` of any string is printable ASCII. |
| Json.DetailJsonPrintable | src/exceptions.py:20 | The detail text is printable ASCII and ends in `}`. |
| Json.UnescapeEscape | src/exceptions.py:20 | Decoding what `json.dumps` escaped gives back the original string. |
| Json.Hex4RoundTrip | src/exceptions.py:20 | A `\uXXXX` escape reads back as its code unit. |
| Values.StrConversion | src/core.py:49-103 | `str` as a converter accepts every value, and converting its output again changes nothing. |
| Values.IntConversion | src/core.py:49-103 | `int` as a converter reads back the decimal text of every integer. |
| Values.IntRejectsNonDigits | src/core.py:49-70 | `int` rejects text without digits, which is the 422 path of the converters. |
| Values.TypeName | src/core.py:49-107 | `type(value)` in the 422 mismatch details always prints as a class, `<class '...'>`. |
| Values.TypeDisplay | src/core.py:49-107 | The annotation in the 422 mismatch details prints as `None` exactly for the `None` annotation, and as a class otherwise. Another class shows its module-qualified name. |
| Values.InstanceDisplay | src/core.py:49-107 | For an instance of the annotated class, the "Found" type and the "Expected type" print the same. |
| PyStrings.SplitPairIff | src/fastpy_rest/params.py:153 | Unpacking `s.split(sep)` into two names succeeds exactly when `sep` occurs exactly once. (See also `src/fastpy_rest/requests.py` line 69.) |
| PyStrings.JoinSplit | src/fastpy_rest/requests.py:93-95 | Joining the pieces of `split` with the separator gives back the string. |
| PyStrings.StripIdempotent | src/fastpy_rest/params.py:154 | `strip()` is idempotent. |
| Requests.RequestLineIff | src/fastpy_rest/requests.py:54-55 | The request line parses to `(method, path, version)` exactly when its stripped text is those three words, none holding a space, joined by single spaces. |
| Requests.QueryPairsIff | src/fastpy_rest/requests.py:67-69 | The pairs parse exactly when each `&`-piece splits on `=` into exactly two parts, and then into those splits, one per piece. |
| Requests.QueryString | src/fastpy_rest/requests.py:65-70 | Without `?` the path is the whole target and there are no queries. With one, the path is the text before the first `?`, and the queries are the dictionary of the pairs after it, later duplicates winning and values not decoded. |
| Requests.QueryRoundTrip | src/fastpy_rest/requests.py:65-70 | Round trip: pairs without `=` or `&`, written `name=value` and joined with `&` after a path without `?`, parse back to the path and the dictionary of the pairs. |
| Requests.EmptyQueryFails | src/fastpy_rest/requests.py:67-69 | A `?` with nothing after it is a pair without `=`, so `ValueError`. |
| Requests.ParseTarget | src/fastpy_rest/requests.py:65-70 | The method computes `SplitTarget`. |
| Requests.ParseQueryString | src/fastpy_rest/requests.py:67-70 | The loop fails exactly when a pair fails to unpack. Otherwise it builds the dictionary of the pairs. |
| Requests.ClassifyHeaderIff | src/fastpy_rest/requests.py:73-83 | A line ends the block exactly when it is blank once stripped. A line without `:`, or a Content-Length whose value is no integer, raises. Otherwise the stripped name maps to the stripped value, Content-Length is recorded exactly when the case-folded name is `content-length`, and Content-Type is recorded case-folded exactly when the name is `content-type`. |
| Requests.ReadHeaders | src/fastpy_rest/requests.py:72-83 | Headers read into a well-formed dictionary stay well-formed. |
| Requests.HeadersEndAtBlank | src/fastpy_rest/requests.py:72-83 | The header loop ends at the first blank line, and every line before it is a field. Without a blank line it fails with `IncompleteReadError`. Any other failure is a `ValueError`. |
| Requests.HeadersAreFields | src/fastpy_rest/requests.py:83 | The headers are the dictionary of the fields' stripped pairs, in order, later lines winning. |
| Requests.LengthIsLast | src/fastpy_rest/requests.py:79-80 | Content-Length is that of the last line that sets it, and stays unset without one. |
| Requests.TypeIsLast | src/fastpy_rest/requests.py:81-82 | Content-Type is that of the last line that sets it, and stays unset without one. |
| Requests.ReadHeaderBlock | src/fastpy_rest/requests.py:72-83 | The `while True` loop computes `ReadHeaders` over the lines after the request line. |
| Requests.BodyValue | src/fastpy_rest/requests.py:85-90 | The body is read only for a positive Content-Length. A short payload is `IncompleteReadError`. It stays `None` unless the content type contains `application/json`, and a decoded body is what `json.loads` gives for the first Content-Length bytes. For a complete JSON body, bytes that `json.loads` accepts give its value, and bytes it rejects give `ValueError`. |
| Requests.RouteSplit | src/fastpy_rest/requests.py:92-95 | With no path parameters, or at least as many as there are segments, the route is `""` and every segment is a value. Otherwise the values are the last `n` segments. |
| Requests.RouteRebuild | src/fastpy_rest/requests.py:93-95 | When a segment is left for the route, the route, `/` and the values rebuild the path. |
| Requests.TrailingSlashValue | src/fastpy_rest/requests.py:93-95 | A trailing `/` is dropped for matching but not for splitting, so a one-parameter route then gets the value `""`. (See also `src/core.py` lines 193-194.) |
| Requests.BindStages | src/fastpy_rest/requests.py:97-109 | The request is bound exactly when path, query, header and body verification all pass, and it then holds each stage's result. Otherwise the earliest failing stage decides the error. |
| Requests.Verify | src/fastpy_rest/requests.py:97-109 | The method fails exactly when `Bind` does, with its error. On success the fresh `Request` holds `Bind`'s result. |
| Requests.RouteBeforeHeaders | src/fastpy_rest/requests.py:61-63 | The route is resolved from the request line alone. When it is not found, or its lookup raises, nothing after the first line matters, and a route that is not found is the 404 "No such route found.". |
| Requests.ParsedRequest | src/fastpy_rest/requests.py:53-109 | A parsed request records its method and the descriptor its line resolved to. Its route is the path with the path values cut off, and `""` without path parameters. |
| Requests.FoundParsed | src/fastpy_rest/requests.py:65-109 | Once the route is found, the result records the method, the descriptor and the cut route. |
| Requests.LoadFromReader | src/fastpy_rest/requests.py:52-109 | The method fails exactly when `ParseRequest` does, with its error. On success the fresh `Request` holds `ParseRequest`'s result. |
| Requests.LoadFound | src/fastpy_rest/requests.py:65-109 | After the route lookup, the method fails exactly when `ParseFound` does. On success it holds `ParseFound`'s result. |
| Requests.Request.constructor | src/fastpy_rest/requests.py:10-26 | The request holds exactly the given parts. |
| Responses.Reason | src/responses.py:41 | `HTTP_STATUS_CODES[code]` finds every value equal to a key in the table: an integer code, a boolean as 0 or 1, and an object equal to an integer, such as `HTTPStatus.OK` or `200.0`, with that integer's reason. Strings, `None`, models and the markers are never keys. |
| Responses.WriteText | src/responses.py:29-35 | `write_to_stream` sends `str(response)`, or the fixed line `HTTP/1.1 500 Internal Server` when it raises. |
| Responses.Response.constructor | src/responses.py:9-17 | The status code is not checked. Missing headers become a fresh, empty `Headers`. |
| Responses.Response.Jar | src/responses.py:19-21 | `response.cookies` is the jar of the response's own headers. |
| Responses.Response.AddCookie | src/responses.py:23-24 | Only the headers' jar changes, gaining the cookie. |
| Responses.Response.SetCookies | src/responses.py:26-27 | The headers hold the given jar, and their header entries are unchanged. |
| Responses.Response.ToText | src/responses.py:40-45 | `str(response)` is the status line, the headers text, CRLF, then `str(body)`. It raises on a code outside the table or a body `json.dumps` rejects. |
| Responses.Response.Write | src/responses.py:29-45 | What is written is `WriteText` of the response's fields. |
| Responses.HelloWorld | tests/test_fastpy.py:44-48 | `Response(200, Headers(), Body("Hello, World!"))` is written as `HTTP/1.1 200 <reason>`, CRLF, CRLF, then `Hello, World!`. |
| Responses.NoBodyEndsInNone | src/responses.py:13-44 | Without a body, the text ends in CRLF then `None`. |
| Responses.UnknownStatusFallsBack | src/responses.py:29-41 | A status code outside the table writes the fallback line, whatever the rest is. |
| Responses.ResponseHeadLines | src/responses.py:40-45 | When no line holds a carriage return, the head splits on CRLF into the status line, one line per header and per cookie, and an empty line. |
| Dispatch.Merged | src/fastpy_rest/main.py:93-97 | The merged map is a well-formed dictionary. |
| Dispatch.MergedPrecedence | src/fastpy_rest/main.py:93-97 | The merged map has exactly the path, query and header names, and the cookie names other than `cookie`. A header value wins over a cookie value, which wins over a query value, which wins over a path value. (See also `src/fastpy_rest/params.py` lines 205-211.) |
| Dispatch.ArgsSucceed | src/fastpy_rest/main.py:99-112 | The arguments are built exactly when no annotated name other than `return` is missing from every source. |
| Dispatch.ArgsFirstMissing | src/fastpy_rest/main.py:110-111 | The first missing name decides the error: the 422 "<name> not provided.", whatever follows. |
| Dispatch.ValidParamsStops | src/fastpy_rest/main.py:111 | Once a name is missing, the names after it do not matter. |
| Dispatch.ArgsContent | src/fastpy_rest/main.py:99-112 | The arguments hold exactly the annotated names some source provides, each from the first source that has it: the merged map, then the body for the body parameter, then the request for the request parameter. Every annotated name other than `return` is present. |
| Dispatch.GetValidParamsDict | src/fastpy_rest/main.py:92-112 | The result is `ValidParams` over the request's merged map and its annotated names, and the request's containers are well-formed. |
| Dispatch.CollectArgs | src/fastpy_rest/main.py:99-112 | The loop over the annotated names computes `ValidParams`: every name is looked up in the merged map, then as the body parameter, then as the request parameter, and the first missing name other than `return` ends it. |
| Dispatch.CoerceReturn | src/fastpy_rest/main.py:123-147 | With no `return` annotation the result is unchecked. A declared `None` always fails: a non-`None` result is the 500 mismatch, and a `None` result reaches `issubclass(None, ...)`, a `TypeError`. A model instance of the class passes unchanged, and any other model success is what validation gave. Under a model annotation, any other result succeeds exactly when validation does. A `Response` annotation yields a reply with no headers, cookies or body: its status is a plain result itself, or the `Response` object for a reply. Under `str`, `int` or another class, a plain result succeeds exactly when the conversion does, with the converted value. A reply under `str` succeeds exactly when its wire text exists, and becomes that text. A reply under another class is that class called on the `Response` object. A reply under `int`, a model or `Request` always fails. Every other failure is the 500 "Return type could not be verified. ...". |
| Dispatch.CheckReturn | src/fastpy_rest/main.py:123-147 | The branches compute `CoerceReturn`. |
| Dispatch.Wrapped | src/fastpy_rest/main.py:148-154 | The result is always a reply, and a `Response` result is left unchanged. |
| Dispatch.PlainReply | src/fastpy_rest/main.py:148-154 | A plain result is written as a 200 reply whose only header line is `Content-Type: Application/Json`, followed by the result's body text. |
| Dispatch.UncaughtReply | src/fastpy_rest/main.py:155-162 | Any exception other than `HttpException` ends in `Response(500)`: the 500 status line, no header, and the body `None`. Without 500 in the table, the fallback line. |
| Dispatch.MissingArgument | src/fastpy_rest/main.py:99-122 | When an annotated name is missing the handler is never called. The reply is the 422 naming the first missing name, whatever the handler would do. (See also lines 155-158.) |
| Dispatch.DeclaredNoneReturnsNone | src/fastpy_rest/main.py:123-128 | As written, a handler annotated `-> None` that returns `None` gets the generic `Response(500)` reply, not its result. (See also lines 155-162.) |
| Dispatch.UncheckedReturn | src/fastpy_rest/main.py:123 | Without a `return` annotation, whatever the handler returns is wrapped and written unchecked. (See also lines 148-158.) |
| Dispatch.HandleRequest | src/fastpy_rest/main.py:114-162 | A failed load is written as the exception it raised. Otherwise the text written is `Dispatched` of the parsed request: arguments, call, return check, wrapping, writing. |
| Dispatch.Finish | src/fastpy_rest/main.py:117-162 | After the load, a failure is written as its exception, and a request is dispatched. |
| Dispatch.CallHandler | src/fastpy_rest/main.py:118-158 | For a loaded request, the method computes `Dispatched`. |
| Dispatch.WriteReply | src/fastpy_rest/main.py:158 | The reply is built as a `Response` and written as `ReplyText`. (See also `src/responses.py` lines 29-45.) |
| Dispatch.WriteFailure | src/fastpy_rest/main.py:155-162 | A raised `HttpException` is written as itself. Anything else is written as `Response(500)`. |

## Left out

- Sockets, asyncio and the server loop are I/O and task orchestration, so they are not modelled. That covers `ServerHandler`, `asyncio.start_server`, `readuntil`, `readexactly`, `drain`, `close` and the echo server in `src/main.py`. The reader is a `Wire`: the lines before the body, already decoded, plus the payload bytes. The written bytes are the `string` a method returns.
- UTF-8 decoding of the request lines is left out as text encoding. Lines are taken as already decoded.
- The decorators `FastPy.get/post/put/patch/delete/run` are thin wrappers that forward to `add_api_route`.
- Coroutine detection and awaiting the handler (src/fastpy_rest/main.py:119-122) is concurrency style, not logic. The handler is the `invoke` parameter, so awaited and plain handlers are one case.
- `inspect.getfullargspec` is replaced by a `Signature` value given as input: the arguments, the defaults and the ordered annotations.
- Several foreign calls are fields of the `Runtime` parameter, with no behaviour assumed:
  - `HTTP_STATUS_CODES`, which is not part of this model;
  - pydantic (`model_validate_json`, `model_validate`, `model_dump_json`);
  - `json.loads`, and `json.dumps` of non-string values;
  - the integer key an object equals (`hash` and `==` against `int`);
  - `datetime.isoformat`, where a cookie's `expires` is held as its text;
  - calling an arbitrary annotation class as a converter.
  
  For strings, `str()`, `int()` and `json.dumps` are modelled concretely, over ASCII digits and `ensure_ascii` escapes.
- `str.casefold` is modelled as ASCII lower-casing, because full Unicode case folding is outside Dafny's string model.
- Model classes are compared by class name. `isinstance` of a model checks the exact class and not its subclasses, because the class hierarchy is foreign.
- Dispatch.CoerceReturn: `OtherType` stands only for annotations that are classes. For a non-class annotation such as `list[int]` or `Optional[str]`, `issubclass` at src/fastpy_rest/main.py:128 raises `TypeError`, and the reply is the generic `Response(500)`. The model instead calls the annotation as a converter through the runtime.
- Dispatch.CoerceReturn: a `Response` result under a model annotation is treated as failing `model_validate`, which gives the 500. A `Response` produced by a converter is treated as a plain value. Both cases depend on pydantic and user code.
- Routing.RegisteredPaths.AddApiRoute: the order in which the set of path-parameter names iterates is hash-dependent. It is an input (`order`), and no lemma relies on it.
- Routing.ClassifyAll: the `queries`, `headers` and `cookies` sets (src/core.py:148-150) iterate in hash order in Python, but the model fixes them to annotation order. So when several declared queries, headers or cookies fail, the model reports the first failure in annotation order, where Python may report another one (for example a 422 instead of a `KeyError` that ends as the generic 500). The model also fixes the insertion order of the `QueryList` and `Headers` dictionaries that the `verify_*` loops fill. Which names are stored, and their values, does not depend on this order.
- Binding.VerifyQueryParams and Binding.VerifyHeaders take the extras in input order, whereas Python iterates the set difference in hash order. For the undeclared queries, and for the undeclared headers other than cookie headers, only the insertion order of the stored dictionaries may differ.
- Binding.VerifyHeaders: every undeclared header whose name case-folds to `cookie` is parsed into a fresh jar that replaces the one before (src/core.py:108-113). With two such headers, say `Cookie` and `COOKIE`, the jar that is kept is the last one in iteration order, and when both fail the error reported is the first one in that order. The model fixes both to input order, where Python's depend on hash order.
- Values.TypeName and Values.TypeDisplay write the classes of the framework with the fixed module path `fastpy_rest.*` (for example `<class 'fastpy_rest.params.Headers'>`). Python prints the class's real `__module__`, which depends on how the package was imported.
- `print` and `traceback` logging, `setup.py`, `src/__init__.py` and `example/main.py` are packaging and demo code with no logic.
- The `Request` accessors `params`, `annotations`, `handler`, `cookies`, `request_param` and `body_param` (src/fastpy_rest/requests.py:28-50) are modelled as `Requests.Request.Params`, `Annotations`, `Handler`, `Jar`, `RequestParam` and `BodyParam`. They are plain field readers, so they carry no contract of their own, and `GetValidParamsDict` uses them.
- `len()` on a `RegisteredPaths` object (tests/test_fastpy.py:25) is not modelled, because the class defines no `__len__`.
- Dispatch.ArgsContent: as written, the merged map is consulted before `return` is skipped (src/fastpy_rest/main.py:100-109). A request that supplies a value named `return` therefore passes an argument named `return`. The model keeps this, so "exactly the annotated names other than `return`" holds only when no source has that name.
- Requests.Bind: a query or header named `self` clashes with the `self` parameter of `verify_query_params` or `verify_headers`, and the call raises `TypeError`. The model keeps this.
