/** `getRequestSchema` and `getResponseSchema` (src/lib/openapi-parser.ts:118-163):
    the schema an operation declares for its request body and for its first
    successful response, in the current style (`content` by media type) or the
    legacy one (a `body` parameter, a `schema` on the response). */
module OperationSchemas {
  import opened Outcomes
  import opened JsValues

  // ---------------------------------------------------------------------------
  // Media types.

  /** `Object.values(content)[0]`: the first declared value, or undefined. */
  function FirstValue(content: Value): (v: Value)
    ensures v == Undefined || v in Values(content)
  {
    if |Values(content)| > 0 then Values(content)[0] else Undefined
  }

  // The media type `content['application/json'] || content['*/*'] || Object.values(content)[0]`.
  function PreferredMediaType(content: Value): Value {
    var json := Get(content, "application/json");
    var any := Get(content, "*/*");
    if Truthy(json) then json else if Truthy(any) then any else FirstValue(content)
  }

  /** `mediaType?.schema` of the preferred media type. */
  function MediaSchema(content: Value): Value {
    Get(PreferredMediaType(content), "schema")
  }

  /** A read of a key that is listed: the value of its first occurrence. */
  lemma GetListed(pre: seq<(string, Value)>, k: string, v: Value, post: seq<(string, Value)>)
    requires forall i :: 0 <= i < |pre| ==> pre[i].0 != k
    ensures Get(Obj(pre + [(k, v)] + post), k) == v
  {
    var es := pre + [(k, v)] + post;
    LookupFirst(es, k);
    assert es[|pre|].0 == k;
  }

  /** A read of a key that is not listed: undefined. */
  lemma GetUnlisted(es: seq<(string, Value)>, k: string)
    requires forall i :: 0 <= i < |es| ==> es[i].0 != k
    ensures Get(Obj(es), k) == Undefined
  {
    LookupFirst(es, k);
  }

  /** JSON wins wherever it is declared: with a truthy `application/json`
      entry, its schema is taken whatever precedes or follows it. */
  lemma JsonPreferred(pre: seq<(string, Value)>, json: Value, post: seq<(string, Value)>)
    requires forall i :: 0 <= i < |pre| ==> pre[i].0 != "application/json"
    requires Truthy(json)
    ensures MediaSchema(Obj(pre + [("application/json", json)] + post)) == Get(json, "schema")
  {
    GetListed(pre, "application/json", json, post);
  }

  // Without a truthy `application/json`, a truthy `*/*` entry is taken
  // wherever it is declared.
  lemma WildcardNext(pre: seq<(string, Value)>, any: Value, post: seq<(string, Value)>)
    requires forall i :: 0 <= i < |pre| ==> pre[i].0 != "*/*"
    requires !Truthy(Get(Obj(pre + [("*/*", any)] + post), "application/json"))
    requires Truthy(any)
    ensures MediaSchema(Obj(pre + [("*/*", any)] + post)) == Get(any, "schema")
  {
    GetListed(pre, "*/*", any, post);
  }

  /** Without either, the first declared media type is taken, even when it
      has no schema. */
  lemma FirstDeclared(k: string, m: Value, rest: seq<(string, Value)>)
    requires !Truthy(Get(Obj([(k, m)] + rest), "application/json"))
    requires !Truthy(Get(Obj([(k, m)] + rest), "*/*"))
    ensures MediaSchema(Obj([(k, m)] + rest)) == Get(m, "schema")
  {
    assert Values(Obj([(k, m)] + rest))[0] == m;
  }

  /** No media types declared at all: there is no schema. */
  lemma NoMediaTypes()
    ensures MediaSchema(Obj([])) == Undefined
  {
    GetUnlisted([], "application/json");
    GetUnlisted([], "*/*");
  }

  /** The chosen media type is one the content declares, or undefined. */
  lemma MediaTypeDeclared(content: Value)
    ensures PreferredMediaType(content) == Undefined || PreferredMediaType(content) in Values(content)
  {
    forall k | k == "application/json" || k == "*/*"
      ensures Get(content, k) == Undefined || Get(content, k) in Values(content)
    {
      var i := FindKey(Entries(content), k);
      LookupFirst(Entries(content), k);
      if i >= 0 {
        assert Values(content)[i] == Get(content, k);
      }
    }
  }

  // ---------------------------------------------------------------------------
  // Requests.

  /** `p.in === 'body'` */
  predicate IsBodyParameter(p: Value) {
    Get(p, "in") == Str("body")
  }

  /** `params.find(p => p.in === 'body')` over the elements of an array: the first
      body parameter, or none; the callback reading `in` of a null or undefined
      element before that throws. */
  function FindBody(ps: seq<Value>): (r: Result<Option<Value>>)
    ensures r.Err? ==> r.error == TypeError
    ensures r.Ok? && r.value.Some? ==> r.value.value in ps && IsBodyParameter(r.value.value) && !Nullish(r.value.value)
  {
    if ps == [] then Ok(None)
    else if Nullish(ps[0]) then Err(TypeError)
    else if IsBodyParameter(ps[0]) then Ok(Some(ps[0]))
    else FindBody(ps[1..])
  }

  /** The callback has run on the first `i` elements without stopping. */
  predicate Passed(ps: seq<Value>, i: nat)
    requires i <= |ps|
  {
    forall j :: 0 <= j < i ==> !Nullish(ps[j]) && !IsBodyParameter(ps[j])
  }

  /** `find` stops at the first element that is a body parameter (returning it)
      or is null or undefined (throwing). */
  lemma {:induction false} FindBodyStops(ps: seq<Value>, i: nat)
    requires i < |ps| && Passed(ps, i)
    ensures IsBodyParameter(ps[i]) && !Nullish(ps[i]) ==> FindBody(ps) == Ok(Some(ps[i]))
    ensures Nullish(ps[i]) ==> FindBody(ps) == Err(TypeError)
    decreases i
  {
    if i > 0 {
      assert !Nullish(ps[0]) && !IsBodyParameter(ps[0]);
      FindBodyStops(ps[1..], i - 1);
    }
  }

  /** `find` that passes every element finds nothing. */
  lemma {:induction false} FindBodyNone(ps: seq<Value>)
    requires Passed(ps, |ps|)
    ensures FindBody(ps) == Ok(None)
  {
    if ps != [] {
      assert !Nullish(ps[0]) && !IsBodyParameter(ps[0]);
      FindBodyNone(ps[1..]);
    }
  }

  /** A found parameter is a body parameter occurring in the list, after
      parameters that all passed. */
  lemma {:induction false} FindBodyFound(ps: seq<Value>)
    requires FindBody(ps).Ok? && FindBody(ps).value.Some?
    ensures exists i :: 0 <= i < |ps| && Passed(ps, i) && ps[i] == FindBody(ps).value.value && IsBodyParameter(ps[i])
  {
    if IsBodyParameter(ps[0]) && !Nullish(ps[0]) {
      assert Passed(ps, 0);
    } else {
      var rest := ps[1..];
      FindBodyFound(rest);
      var i :| 0 <= i < |rest| && Passed(rest, i) && rest[i] == FindBody(rest).value.value && IsBodyParameter(rest[i]);
      assert ps[i + 1] == rest[i];
      assert Passed(ps, i + 1) by {
        forall j | 0 < j < i + 1 ensures !Nullish(ps[j]) && !IsBodyParameter(ps[j]) {
          assert ps[j] == rest[j - 1];
        }
      }
    }
  }

  /** `getRequestSchema(spec, operation)` on a truthy operation: the preferred
      media type's schema of a request body with content; otherwise the schema
      of the body parameter; otherwise null. `parameters.find` throws when the
      parameters are not an array. */
  function RequestSchema(operation: Value): (r: Result<Value>)
    ensures r.Err? ==> r.error == TypeError
  {
    var body := Get(operation, "requestBody");
    var params := Get(operation, "parameters");
    if Truthy(body) && Truthy(Get(body, "content")) then Ok(MediaSchema(Get(body, "content")))
    else if !Truthy(params) then Ok(Null)
    else if !params.Arr? then Err(TypeError)
    else
      match FindBody(params.elems)
      case Err(e) => Err(e)
      case Ok(found) =>
        if found.Some? && Truthy(found.value) then Ok(Get(found.value, "schema")) else Ok(Null)
  }

  /** A request body with content decides the request schema, whatever the parameters are. */
  lemma RequestBodyFirst(operation: Value)
    requires Truthy(Get(operation, "requestBody")) && Truthy(Get(Get(operation, "requestBody"), "content"))
    ensures RequestSchema(operation) == Ok(MediaSchema(Get(Get(operation, "requestBody"), "content")))
  {
  }

  /** Without a request body with content, the schema of the first body
      parameter is taken, as long as no null parameter precedes it. */
  lemma BodyParameterFallback(operation: Value, i: nat)
    requires !(Truthy(Get(operation, "requestBody")) && Truthy(Get(Get(operation, "requestBody"), "content")))
    requires Get(operation, "parameters").Arr?
    requires var ps := Get(operation, "parameters").elems;
      i < |ps| && Passed(ps, i) && IsBodyParameter(ps[i])
    ensures RequestSchema(operation) == Ok(Get(Get(operation, "parameters").elems[i], "schema"))
  {
    var ps := Get(operation, "parameters").elems;
    NamedGet(ps[i], "in");
    FindBodyStops(ps, i);
  }

  /** Without a request body with content, a null or undefined parameter that
      `find` reaches before any body parameter makes it throw. */
  lemma NullBeforeBody(operation: Value, i: nat)
    requires !(Truthy(Get(operation, "requestBody")) && Truthy(Get(Get(operation, "requestBody"), "content")))
    requires Get(operation, "parameters").Arr?
    requires var ps := Get(operation, "parameters").elems;
      i < |ps| && Passed(ps, i) && Nullish(ps[i])
    ensures RequestSchema(operation) == Err(TypeError)
  {
    FindBodyStops(Get(operation, "parameters").elems, i);
  }

  /** Parameters that are truthy but not an array make `find` throw. */
  lemma ParametersNotArray(operation: Value)
    requires !(Truthy(Get(operation, "requestBody")) && Truthy(Get(Get(operation, "requestBody"), "content")))
    requires Truthy(Get(operation, "parameters")) && !Get(operation, "parameters").Arr?
    ensures RequestSchema(operation) == Err(TypeError)
  {
  }

  /** The only failure of `find` is the TypeError of a null or undefined element. */
  lemma {:induction false} FindBodyThrows(ps: seq<Value>)
    ensures FindBody(ps).Err? <==> exists i :: 0 <= i < |ps| && Passed(ps, i) && Nullish(ps[i])
  {
    if ps != [] && !Nullish(ps[0]) && !IsBodyParameter(ps[0]) {
      var rest := ps[1..];
      FindBodyThrows(rest);
      if FindBody(rest).Err? {
        var i :| 0 <= i < |rest| && Passed(rest, i) && Nullish(rest[i]);
        assert ps[i + 1] == rest[i];
        assert Passed(ps, i + 1) by {
          forall j | 0 < j < i + 1 ensures !Nullish(ps[j]) && !IsBodyParameter(ps[j]) {
            assert ps[j] == rest[j - 1];
          }
        }
      } else {
        forall i | 0 <= i < |ps| && Passed(ps, i) ensures !Nullish(ps[i]) {
          if i > 0 {
            assert Passed(rest, i - 1) by {
              forall j | 0 <= j < i - 1 ensures !Nullish(rest[j]) && !IsBodyParameter(rest[j]) {
                assert rest[j] == ps[j + 1];
              }
            }
            assert rest[i - 1] == ps[i];
          }
        }
      }
    } else if ps != [] && Nullish(ps[0]) {
      assert Passed(ps, 0);
    }
  }

  /** Without a request body with content, the request schema is null when the
      parameters are falsy, or an array holding no null or undefined element
      and no body parameter. */
  lemma NoRequestSchema(operation: Value)
    requires !(Truthy(Get(operation, "requestBody")) && Truthy(Get(Get(operation, "requestBody"), "content")))
    requires var params := Get(operation, "parameters");
      !Truthy(params) || (params.Arr? && Passed(params.elems, |params.elems|))
    ensures RequestSchema(operation) == Ok(Null)
  {
    var params := Get(operation, "parameters");
    if Truthy(params) {
      FindBodyNone(params.elems);
    }
  }

  // ---------------------------------------------------------------------------
  // Successful response codes, sorted.

  /** `/^2\d{2}$/.test(code)`: three ASCII digits, the first a 2. */
  predicate IsSuccessCode(code: string) {
    |code| == 3 && code[0] == '2' && IsDigit(code[1]) && IsDigit(code[2])
  }

  /** `codes.filter(code => /^2\d{2}$/.test(code))` */
  function SuccessFilter(codes: seq<string>): seq<string> {
    if codes == [] then []
    else if IsSuccessCode(codes[0]) then [codes[0]] + SuccessFilter(codes[1..])
    else SuccessFilter(codes[1..])
  }

  /** The filter keeps exactly the success codes. */
  lemma {:induction false} SuccessFilterKeeps(codes: seq<string>)
    ensures forall c :: c in SuccessFilter(codes) <==> c in codes && IsSuccessCode(c)
  {
    if codes != [] {
      SuccessFilterKeeps(codes[1..]);
      assert codes == [codes[0]] + codes[1..];
    }
  }

  /** The order `Array.prototype.sort` uses by default: UTF-16 code unit order,
      which agrees with the order of the code points on the ASCII digits of a
      status code. */
  predicate LexLeq(a: string, b: string) {
    if a == [] then true
    else if b == [] then false
    else if a[0] != b[0] then a[0] < b[0]
    else LexLeq(a[1..], b[1..])
  }

  lemma {:induction false} LexTotal(a: string, b: string)
    ensures LexLeq(a, b) || LexLeq(b, a)
  {
    if a != [] && b != [] && a[0] == b[0] {
      LexTotal(a[1..], b[1..]);
    }
  }

  lemma {:induction false} LexTransitive(a: string, b: string, c: string)
    requires LexLeq(a, b) && LexLeq(b, c)
    ensures LexLeq(a, c)
  {
    if a != [] && b != [] && c != [] && a[0] == b[0] && b[0] == c[0] {
      LexTransitive(a[1..], b[1..], c[1..]);
    }
  }

  predicate Sorted(s: seq<string>) {
    forall i, j :: 0 <= i < j < |s| ==> LexLeq(s[i], s[j])
  }

  /** One step of insertion sort. */
  function Insert(x: string, s: seq<string>): seq<string> {
    if s == [] then [x]
    else if LexLeq(x, s[0]) then [x] + s
    else [s[0]] + Insert(x, s[1..])
  }

  /** `codes.sort()` */
  function SortCodes(s: seq<string>): seq<string> {
    if s == [] then [] else Insert(s[0], SortCodes(s[1..]))
  }

  /** Insertion adds the element and loses nothing. */
  lemma {:induction false} InsertPermutation(x: string, s: seq<string>)
    ensures multiset(Insert(x, s)) == multiset(s) + multiset{x}
  {
    if s != [] && !LexLeq(x, s[0]) {
      InsertPermutation(x, s[1..]);
      assert s == [s[0]] + s[1..];
    }
  }

  /** An element no greater than every element of a sorted list can go in front. */
  lemma ConsSorted(a: string, t: seq<string>)
    requires Sorted(t)
    requires forall k :: 0 <= k < |t| ==> LexLeq(a, t[k])
    ensures Sorted([a] + t)
  {
    forall i, j | 0 <= i < j < |t| + 1 ensures LexLeq(([a] + t)[i], ([a] + t)[j]) {
      if i > 0 {
        assert ([a] + t)[i] == t[i - 1];
      }
    }
  }

  /** Insertion into a sorted list keeps it sorted. */
  lemma {:induction false} InsertSorted(x: string, s: seq<string>)
    requires Sorted(s)
    ensures Sorted(Insert(x, s))
  {
    if s == [] {
    } else if LexLeq(x, s[0]) {
      forall k | 0 <= k < |s| ensures LexLeq(x, s[k]) {
        if k > 0 {
          LexTransitive(x, s[0], s[k]);
        }
      }
      ConsSorted(x, s);
    } else {
      var t := Insert(x, s[1..]);
      InsertSorted(x, s[1..]);
      InsertPermutation(x, s[1..]);
      LexTotal(x, s[0]);
      forall k | 0 <= k < |t| ensures LexLeq(s[0], t[k]) {
        assert t[k] in multiset(s[1..]) + multiset{x};
        if t[k] != x {
          var m :| 0 <= m < |s[1..]| && s[1..][m] == t[k];
          assert s[m + 1] == t[k];
        }
      }
      ConsSorted(s[0], t);
    }
  }

  /** The sorted codes are in order and are a permutation of the codes. */
  lemma {:induction false} SortCodesSorts(s: seq<string>)
    ensures Sorted(SortCodes(s))
    ensures multiset(SortCodes(s)) == multiset(s)
  {
    if s != [] {
      SortCodesSorts(s[1..]);
      InsertSorted(s[0], SortCodes(s[1..]));
      InsertPermutation(s[0], SortCodes(s[1..]));
      assert s == [s[0]] + s[1..];
    }
  }

  // ---------------------------------------------------------------------------
  // Responses.

  /** What one response entry decides: none when it is skipped (falsy, or with
      neither content nor schema), otherwise the schema it yields. */
  function ResponseDecision(response: Value): Option<Value> {
    if !Truthy(response) then None
    else if Truthy(Get(response, "content")) then Some(MediaSchema(Get(response, "content")))
    else if Truthy(Get(response, "schema")) then Some(Get(response, "schema"))
    else None
  }

  /** The schema of the first of `codes` whose response decides, or null. */
  function FirstDecision(responses: Value, codes: seq<string>): Value {
    if codes == [] then Null
    else
      match ResponseDecision(Get(responses, codes[0]))
      case Some(schema) => schema
      case None => FirstDecision(responses, codes[1..])
  }

  /** The success codes of the responses, in ascending order. */
  function SuccessCodes(responses: Value): seq<string> {
    SortCodes(SuccessFilter(Keys(responses)))
  }

  /** `getResponseSchema(spec, operation)` on a truthy operation. */
  function ResponseSchema(operation: Value): Value {
    var responses := Get(operation, "responses");
    if !Truthy(responses) then Null else FirstDecision(responses, SuccessCodes(responses))
  }

  /** The loop of `getResponseSchema`: the sorted success codes in turn, returning
      at the first response that decides. */
  method GetResponseSchema(operation: Value) returns (schema: Value)
    ensures schema == ResponseSchema(operation)
  {
    var responses := Get(operation, "responses");
    if !Truthy(responses) {
      return Null;
    }
    var successCodes := SortCodes(SuccessFilter(Keys(responses)));
    for i := 0 to |successCodes|
      invariant FirstDecision(responses, successCodes[i..]) == FirstDecision(responses, successCodes)
    {
      assert successCodes[i..][1..] == successCodes[i + 1..];
      var response := Get(responses, successCodes[i]);
      if Truthy(response) {
        if Truthy(Get(response, "content")) {
          var mediaType := PreferredMediaType(Get(response, "content"));
          return Get(mediaType, "schema");
        }
        if Truthy(Get(response, "schema")) {
          return Get(response, "schema");
        }
      }
    }
    return Null;
  }

  /** `c` is a key of the responses and a success code. */
  predicate SuccessKey(responses: Value, c: string) {
    c in Keys(responses) && IsSuccessCode(c)
  }

  /** The first code that decides wins when every code before it either does not
      decide or is the same code. */
  lemma {:induction false} FirstDecisionAt(responses: Value, codes: seq<string>, k: nat)
    requires k < |codes| && ResponseDecision(Get(responses, codes[k])).Some?
    requires forall j :: 0 <= j < k ==> ResponseDecision(Get(responses, codes[j])).None? || codes[j] == codes[k]
    ensures FirstDecision(responses, codes) == ResponseDecision(Get(responses, codes[k])).value
    decreases k
  {
    if k > 0 && ResponseDecision(Get(responses, codes[0])).None? {
      FirstDecisionAt(responses, codes[1..], k - 1);
    }
  }

  /** When no code decides, the result is null. */
  lemma {:induction false} NoDecision(responses: Value, codes: seq<string>)
    requires forall j :: 0 <= j < |codes| ==> ResponseDecision(Get(responses, codes[j])).None?
    ensures FirstDecision(responses, codes) == Null
  {
    if codes != [] {
      NoDecision(responses, codes[1..]);
    }
  }

  /** The success codes are exactly the keys that are success codes. */
  lemma SuccessCodesAre(responses: Value)
    ensures Sorted(SuccessCodes(responses))
    ensures forall c :: c in SuccessCodes(responses) <==> SuccessKey(responses, c)
  {
    var kept := SuccessFilter(Keys(responses));
    SuccessFilterKeeps(Keys(responses));
    SortCodesSorts(kept);
    forall c ensures c in SuccessCodes(responses) <==> c in kept {
      assert c in SuccessCodes(responses) <==> c in multiset(SuccessCodes(responses));
      assert c in kept <==> c in multiset(kept);
    }
  }

  /** The response schema is that of the lowest success code whose response
      decides: every lower success code is skipped. */
  lemma LowestSuccessDecides(operation: Value, code: string)
    requires var responses := Get(operation, "responses");
      && Truthy(responses)
      && SuccessKey(responses, code)
      && ResponseDecision(Get(responses, code)).Some?
      && forall c :: SuccessKey(responses, c) && LexLeq(c, code) && c != code ==> ResponseDecision(Get(responses, c)).None?
    ensures ResponseSchema(operation) == ResponseDecision(Get(Get(operation, "responses"), code)).value
  {
    var responses := Get(operation, "responses");
    var codes := SuccessCodes(responses);
    SuccessCodesAre(responses);
    var k :| 0 <= k < |codes| && codes[k] == code;
    forall j | 0 <= j < k ensures ResponseDecision(Get(responses, codes[j])).None? || codes[j] == codes[k] {
      assert LexLeq(codes[j], codes[k]);
      assert codes[j] in codes;
    }
    FirstDecisionAt(responses, codes, k);
  }

  /** With no success code whose response decides, the response schema is null. */
  lemma NoSuccessDecides(operation: Value)
    requires forall c :: SuccessKey(Get(operation, "responses"), c) ==> ResponseDecision(Get(Get(operation, "responses"), c)).None?
    ensures ResponseSchema(operation) == Null
  {
    var responses := Get(operation, "responses");
    if Truthy(responses) {
      var codes := SuccessCodes(responses);
      SuccessCodesAre(responses);
      forall j | 0 <= j < |codes| ensures ResponseDecision(Get(responses, codes[j])).None? {
        assert codes[j] in codes;
      }
      NoDecision(responses, codes);
    }
  }
}
