/** `parseOpenAPI` (src/lib/openapi-parser.ts:165-220) once the text is decoded:
    the marker check, the walk over the paths and the seven methods, one endpoint
    record per operation, and the `info` defaults. */
module OpenApiReport {
  import opened Outcomes
  import opened JsValues
  import opened SchemaAnalyzer
  import opened OperationSchemas

  /** `EndpointAnalysis` (lines 8-15). `operationId` and `summary` are whatever
      the operation holds there, undefined when absent. */
  datatype Endpoint = Endpoint(path: string, httpMethod: string, operationId: Value, summary: Value,
                               request: Analysis, response: Analysis)

  /** `OpenAPIAnalysis` (lines 17-22). `title` and `version` are whatever `info`
      holds when truthy, so not necessarily strings. */
  datatype Report = Report(title: Value, version: Value, endpoints: seq<Endpoint>, totalEndpoints: nat)

  /** The operations looked for in each path item, in this order (line 188). */
  const Methods: seq<string> := ["get", "post", "put", "patch", "delete", "options", "head"]

  function UpperChar(c: char): char {
    if 'a' <= c <= 'z' then (c as int - 'a' as int + 'A' as int) as char else c
  }

  /** `s.toUpperCase()` on ASCII text. */
  function Upper(s: string): string {
    seq(|s|, i requires 0 <= i < |s| => UpperChar(s[i]))
  }

  /** The methods of the report are the seven HTTP methods in upper case. */
  lemma MethodNames()
    ensures seq(|Methods|, i requires 0 <= i < |Methods| => Upper(Methods[i]))
         == ["GET", "POST", "PUT", "PATCH", "DELETE", "OPTIONS", "HEAD"]
  {
    assert Upper("get") == "GET";
    assert Upper("post") == "POST";
    assert Upper("put") == "PUT";
    assert Upper("patch") == "PATCH";
    assert Upper("delete") == "DELETE";
    assert Upper("options") == "OPTIONS";
    assert Upper("head") == "HEAD";
  }

  /** `a || b` */
  function Or(a: Value, b: Value): Value {
    if Truthy(a) then a else b
  }

  // ---------------------------------------------------------------------------
  // The report as a function of the decoded document.

  /** Lines 167-177: `JSON.parse`, and `yaml.load` only when that throws. What each
      decoder yields for the text is a parameter, None when it throws. */
  function Decode(json: Option<Value>, yaml: Option<Value>): Result<Value> {
    if json.Some? then Ok(json.value)
    else if yaml.Some? then Ok(yaml.value)
    else Err(ParseFailed)
  }

  /** One endpoint (lines 194-210): the request and response schemas of the
      operation, each analysed from depth 1 with nothing visited. */
  function EndpointOf(doc: Value, path: string, httpMethod: string, operation: Value): Result<Endpoint> {
    match RequestSchema(operation)
    case Err(e) => Err(e)
    case Ok(request) =>
      var requestAnalysis := Analyze(doc, request, {}, 1);
      var responseAnalysis := Analyze(doc, ResponseSchema(operation), {}, 1);
      if requestAnalysis.Err? then Err(requestAnalysis.error)
      else if responseAnalysis.Err? then Err(responseAnalysis.error)
      else Ok(Endpoint(path, Upper(httpMethod), Get(operation, "operationId"), Get(operation, "summary"),
                       requestAnalysis.value, responseAnalysis.value))
  }

  /** The endpoints of the methods `ms` of one path item, in order, skipping
      falsy operations (lines 190-212); the first error ends the walk. */
  function MethodEndpoints(doc: Value, path: string, item: Value, ms: seq<string>): Result<seq<Endpoint>> {
    if ms == [] then Ok([])
    else
      match MethodEndpoints(doc, path, item, ms[..|ms| - 1])
      case Err(e) => Err(e)
      case Ok(es) =>
        var operation := Get(item, ms[|ms| - 1]);
        if !Truthy(operation) then Ok(es)
        else
          match EndpointOf(doc, path, ms[|ms| - 1], operation)
          case Err(e) => Err(e)
          case Ok(endpoint) => Ok(es + [endpoint])
  }

  /** A path item that is not a truthy object is skipped (line 191). */
  predicate Skipped(item: Value) {
    !Truthy(item) || !IsObjectType(item)
  }

  /** The endpoints of the path entries `entries`, in order. */
  function CollectEndpoints(doc: Value, entries: seq<(string, Value)>): Result<seq<Endpoint>> {
    if entries == [] then Ok([])
    else
      match CollectEndpoints(doc, entries[..|entries| - 1])
      case Err(e) => Err(e)
      case Ok(es) =>
        var (path, item) := entries[|entries| - 1];
        if Skipped(item) then Ok(es)
        else
          match MethodEndpoints(doc, path, item, Methods)
          case Err(e) => Err(e)
          case Ok(more) => Ok(es + more)
  }

  /** Lines 179-219 on a decoded document. Reading `openapi` of null or
      undefined throws. */
  function AnalyzeDocument(doc: Value): Result<Report> {
    if Nullish(doc) then Err(TypeError)
    else if !Truthy(Get(doc, "openapi")) && !Truthy(Get(doc, "swagger")) then Err(InvalidSpec)
    else
      var info := Or(Get(doc, "info"), Obj([]));
      var paths := Or(Get(doc, "paths"), Obj([]));
      match CollectEndpoints(doc, Entries(paths))
      case Err(e) => Err(e)
      case Ok(endpoints) =>
        Ok(Report(Or(Get(info, "title"), Str("Untitled API")), Or(Get(info, "version"), Str("N/A")),
                  endpoints, |endpoints|))
  }

  /** `parseOpenAPI(content)` given what the two decoders yield for `content`. */
  function ParseResult(json: Option<Value>, yaml: Option<Value>): Result<Report> {
    match Decode(json, yaml)
    case Err(e) => Err(e)
    case Ok(doc) => AnalyzeDocument(doc)
  }

  // ---------------------------------------------------------------------------
  // The loops of `parseOpenAPI`.

  /** `parseOpenAPI`: decode, check the marker, then push one endpoint per
      operation of each path item. */
  method ParseOpenAPI(json: Option<Value>, yaml: Option<Value>) returns (r: Result<Report>)
    ensures r == ParseResult(json, yaml)
  {
    var decoded := Decode(json, yaml);
    if decoded.Err? {
      return Err(ParseFailed);
    }
    var spec := decoded.value;
    if Nullish(spec) {
      return Err(TypeError);
    }
    if !Truthy(Get(spec, "openapi")) && !Truthy(Get(spec, "swagger")) {
      return Err(InvalidSpec);
    }
    var info := Or(Get(spec, "info"), Obj([]));
    var paths := Or(Get(spec, "paths"), Obj([]));
    var entries := Entries(paths);
    var endpoints: seq<Endpoint> := [];
    for i := 0 to |entries|
      invariant CollectEndpoints(spec, entries[..i]) == Ok(endpoints)
    {
      var (path, pathItem) := entries[i];
      CollectStep(spec, entries, i);
      if Skipped(pathItem) {
        continue;
      }
      var more := PathItemEndpoints(spec, path, pathItem);
      if more.Err? {
        CollectErrorSticks(spec, entries, i + 1);
        return Err(more.error);
      }
      endpoints := endpoints + more.value;
    }
    assert entries[..|entries|] == entries;
    return Ok(Report(Or(Get(info, "title"), Str("Untitled API")), Or(Get(info, "version"), Str("N/A")),
                     endpoints, |endpoints|));
  }

  /** The inner loop of `parseOpenAPI` (lines 190-211) over the seven methods. */
  method PathItemEndpoints(doc: Value, path: string, item: Value) returns (r: Result<seq<Endpoint>>)
    ensures r == MethodEndpoints(doc, path, item, Methods)
  {
    var endpoints: seq<Endpoint> := [];
    for k := 0 to |Methods|
      invariant MethodEndpoints(doc, path, item, Methods[..k]) == Ok(endpoints)
    {
      var httpMethod := Methods[k];
      MethodStep(doc, path, item, Methods, k);
      var operation := Get(item, httpMethod);
      if !Truthy(operation) {
        continue;
      }
      var endpoint := OperationEndpoint(doc, path, httpMethod, operation);
      if endpoint.Err? {
        MethodErrorSticks(doc, path, item, Methods, k + 1);
        return Err(endpoint.error);
      }
      endpoints := endpoints + [endpoint.value];
    }
    assert Methods[..|Methods|] == Methods;
    return Ok(endpoints);
  }

  /** One operation (lines 194-210). */
  method OperationEndpoint(doc: Value, path: string, httpMethod: string, operation: Value) returns (r: Result<Endpoint>)
    ensures r == EndpointOf(doc, path, httpMethod, operation)
  {
    var requestSchema := RequestSchema(operation);
    if requestSchema.Err? {
      return Err(requestSchema.error);
    }
    var responseSchema := GetResponseSchema(operation);
    var requestAnalysis := AnalyzeSchema(doc, requestSchema.value, {}, 1);
    if requestAnalysis.Err? {
      return Err(requestAnalysis.error);
    }
    var responseAnalysis := AnalyzeSchema(doc, responseSchema, {}, 1);
    if responseAnalysis.Err? {
      return Err(responseAnalysis.error);
    }
    return Ok(Endpoint(path, Upper(httpMethod), Get(operation, "operationId"), Get(operation, "summary"),
                       requestAnalysis.value, responseAnalysis.value));
  }

  /** One more path entry of the fold. */
  lemma CollectStep(doc: Value, entries: seq<(string, Value)>, i: nat)
    requires i < |entries|
    ensures CollectEndpoints(doc, entries[..i + 1])
         == match CollectEndpoints(doc, entries[..i])
            case Err(e) => Err(e)
            case Ok(es) =>
              if Skipped(entries[i].1) then Ok(es)
              else
                match MethodEndpoints(doc, entries[i].0, entries[i].1, Methods)
                case Err(e) => Err(e)
                case Ok(more) => Ok(es + more)
  {
    assert entries[..i + 1][..i] == entries[..i];
  }

  /** One more method of the fold. */
  lemma MethodStep(doc: Value, path: string, item: Value, ms: seq<string>, k: nat)
    requires k < |ms|
    ensures MethodEndpoints(doc, path, item, ms[..k + 1])
         == match MethodEndpoints(doc, path, item, ms[..k])
            case Err(e) => Err(e)
            case Ok(es) =>
              if !Truthy(Get(item, ms[k])) then Ok(es)
              else
                match EndpointOf(doc, path, ms[k], Get(item, ms[k]))
                case Err(e) => Err(e)
                case Ok(endpoint) => Ok(es + [endpoint])
  {
    assert ms[..k + 1][..k] == ms[..k];
  }

  /** Once a path entry fails, the whole walk fails with that error. */
  lemma {:induction false} CollectErrorSticks(doc: Value, entries: seq<(string, Value)>, i: nat)
    requires i <= |entries| && CollectEndpoints(doc, entries[..i]).Err?
    ensures CollectEndpoints(doc, entries) == CollectEndpoints(doc, entries[..i])
    decreases |entries|
  {
    if i < |entries| {
      var init := entries[..|entries| - 1];
      assert init[..i] == entries[..i];
      CollectErrorSticks(doc, init, i);
    } else {
      assert entries[..i] == entries;
    }
  }

  /** Once an operation fails, the whole path item fails with that error. */
  lemma {:induction false} MethodErrorSticks(doc: Value, path: string, item: Value, ms: seq<string>, k: nat)
    requires k <= |ms| && MethodEndpoints(doc, path, item, ms[..k]).Err?
    ensures MethodEndpoints(doc, path, item, ms) == MethodEndpoints(doc, path, item, ms[..k])
    decreases |ms|
  {
    if k < |ms| {
      var init := ms[..|ms| - 1];
      assert init[..k] == ms[..k];
      MethodErrorSticks(doc, path, item, init, k);
    } else {
      assert ms[..k] == ms;
    }
  }

  // ---------------------------------------------------------------------------
  // What the report describes.

  /** An operation the report has an endpoint for: its path, its method as
      declared and the operation object. */
  datatype Slot = Slot(path: string, httpMethod: string, operation: Value)

  /** The truthy operations among the methods `ms` of one path item, in order. */
  function OperationSlots(path: string, item: Value, ms: seq<string>): seq<Slot> {
    if ms == [] then []
    else
      var operation := Get(item, ms[|ms| - 1]);
      OperationSlots(path, item, ms[..|ms| - 1])
        + (if Truthy(operation) then [Slot(path, ms[|ms| - 1], operation)] else [])
  }

  /** The operations under the methods `ms` declared by the path entries
      `entries`, in order. */
  function DeclaredOperations(entries: seq<(string, Value)>, ms: seq<string>): seq<Slot> {
    if entries == [] then []
    else
      var last := entries[|entries| - 1];
      DeclaredOperations(entries[..|entries| - 1], ms)
        + (if Skipped(last.1) then [] else OperationSlots(last.0, last.1, ms))
  }

  /** `e` is the endpoint record of the declared operation `s`. */
  predicate Produces(doc: Value, s: Slot, e: Endpoint) {
    EndpointOf(doc, s.path, s.httpMethod, s.operation) == Ok(e)
  }

  /** Analysing every one of the operations `slots` succeeds. */
  predicate AllSucceed(doc: Value, slots: seq<Slot>) {
    forall i :: 0 <= i < |slots| ==> EndpointOf(doc, slots[i].path, slots[i].httpMethod, slots[i].operation).Ok?
  }

  /** The endpoints are those of the operations `slots`, one for one and in order. */
  predicate Describes(doc: Value, es: seq<Endpoint>, slots: seq<Slot>) {
    |es| == |slots| && forall i :: 0 <= i < |es| ==> Produces(doc, slots[i], es[i])
  }

  /** The slots of a path item are its truthy operations under the given methods. */
  lemma {:induction false} OperationSlotsMembers(path: string, item: Value, ms: seq<string>)
    ensures forall s :: s in OperationSlots(path, item, ms) <==>
      s.path == path && s.httpMethod in ms && s.operation == Get(item, s.httpMethod) && Truthy(s.operation)
  {
    if ms != [] {
      var init := ms[..|ms| - 1];
      OperationSlotsMembers(path, item, init);
      assert ms == init + [ms[|ms| - 1]];
    }
  }

  /** `s` is among the operations of the `j`-th path entry, which is a truthy object. */
  predicate DeclaredAt(entries: seq<(string, Value)>, ms: seq<string>, j: int, s: Slot) {
    0 <= j < |entries| && entries[j].0 == s.path && !Skipped(entries[j].1)
    && s in OperationSlots(entries[j].0, entries[j].1, ms)
  }

  /** The declared operations are the truthy operations, under one of the
      methods, of the path items that are truthy objects. */
  lemma {:induction false} DeclaredMember(entries: seq<(string, Value)>, ms: seq<string>, s: Slot)
    ensures s in DeclaredOperations(entries, ms) <==> exists j :: DeclaredAt(entries, ms, j, s)
  {
    if entries != [] {
      var init := entries[..|entries| - 1];
      var last := |entries| - 1;
      DeclaredMember(init, ms, s);
      var tail := if Skipped(entries[last].1) then [] else OperationSlots(entries[last].0, entries[last].1, ms);
      assert DeclaredOperations(entries, ms) == DeclaredOperations(init, ms) + tail;
      if s in tail {
        OperationSlotsMembers(entries[last].0, entries[last].1, ms);
        assert DeclaredAt(entries, ms, last, s);
      } else if s in DeclaredOperations(init, ms) {
        var j :| DeclaredAt(init, ms, j, s);
        assert entries[j] == init[j];
        assert DeclaredAt(entries, ms, j, s);
      } else {
        forall j | 0 <= j < |entries| ensures !DeclaredAt(entries, ms, j, s) {
          if j < last {
            assert init[j] == entries[j];
            assert !DeclaredAt(init, ms, j, s);
          } else {
            assert entries[j] == entries[last];
          }
        }
      }
    }
  }

  /** An endpoint record carries the operation's path, its method in upper case,
      its `operationId` and `summary`, and two analyses; building one fails only
      with a TypeError, raised by reading the request schema or by an analysis. */
  lemma EndpointContents(doc: Value, path: string, httpMethod: string, operation: Value)
    ensures var r := EndpointOf(doc, path, httpMethod, operation);
      && (r.Ok? ==> && r.value.path == path && r.value.httpMethod == Upper(httpMethod)
                    && r.value.operationId == Get(operation, "operationId")
                    && r.value.summary == Get(operation, "summary")
                    && (r.value.request.fieldCount > 0 ==> r.value.request.maxDepth >= 1)
                    && (r.value.response.fieldCount > 0 ==> r.value.response.maxDepth >= 1))
      && (r.Err? ==> r.error == TypeError)
  {
  }

  lemma DescribesConcat(doc: Value, es: seq<Endpoint>, slots: seq<Slot>, more: seq<Endpoint>, moreSlots: seq<Slot>)
    requires Describes(doc, es, slots) && Describes(doc, more, moreSlots)
    ensures Describes(doc, es + more, slots + moreSlots)
  {
    forall i | 0 <= i < |es| + |more| ensures Produces(doc, (slots + moreSlots)[i], (es + more)[i]) {
      if i >= |es| {
        assert (slots + moreSlots)[i] == moreSlots[i - |es|];
        assert (es + more)[i] == more[i - |es|];
      }
    }
  }

  lemma AllSucceedConcat(doc: Value, slots: seq<Slot>, moreSlots: seq<Slot>)
    ensures AllSucceed(doc, slots + moreSlots) <==> AllSucceed(doc, slots) && AllSucceed(doc, moreSlots)
  {
    if AllSucceed(doc, slots) && AllSucceed(doc, moreSlots) {
      forall i | 0 <= i < |slots| + |moreSlots|
        ensures EndpointOf(doc, (slots + moreSlots)[i].path, (slots + moreSlots)[i].httpMethod, (slots + moreSlots)[i].operation).Ok?
      {
        if i >= |slots| {
          assert (slots + moreSlots)[i] == moreSlots[i - |slots|];
        }
      }
    }
    if AllSucceed(doc, slots + moreSlots) {
      forall i | 0 <= i < |slots|
        ensures EndpointOf(doc, slots[i].path, slots[i].httpMethod, slots[i].operation).Ok?
      {
        assert (slots + moreSlots)[i] == slots[i];
      }
      forall i | 0 <= i < |moreSlots|
        ensures EndpointOf(doc, moreSlots[i].path, moreSlots[i].httpMethod, moreSlots[i].operation).Ok?
      {
        assert (slots + moreSlots)[|slots| + i] == moreSlots[i];
      }
    }
  }

  /** One operation on its own. */
  lemma SingleSlot(doc: Value, s: Slot)
    ensures var e := EndpointOf(doc, s.path, s.httpMethod, s.operation);
      && (AllSucceed(doc, [s]) <==> e.Ok?)
      && (e.Ok? ==> Describes(doc, [e.value], [s]))
      && (e.Err? ==> e.error == TypeError)
  {
    EndpointContents(doc, s.path, s.httpMethod, s.operation);
    assert [s][0] == s;
  }

  /** The walk over the methods of a path item succeeds exactly when every truthy
      operation can be analysed, and then yields their endpoints in method order;
      otherwise it fails with a TypeError. */
  lemma {:induction false} MethodsDescribed(doc: Value, path: string, item: Value, ms: seq<string>)
    ensures var r := MethodEndpoints(doc, path, item, ms);
      && (r.Ok? <==> AllSucceed(doc, OperationSlots(path, item, ms)))
      && (r.Ok? ==> Describes(doc, r.value, OperationSlots(path, item, ms)))
      && (r.Err? ==> r.error == TypeError)
  {
    if ms != [] {
      var init := ms[..|ms| - 1];
      var m := ms[|ms| - 1];
      var operation := Get(item, m);
      MethodsDescribed(doc, path, item, init);
      var slots := OperationSlots(path, item, init);
      var last: seq<Slot> := if Truthy(operation) then [Slot(path, m, operation)] else [];
      assert OperationSlots(path, item, ms) == slots + last;
      AllSucceedConcat(doc, slots, last);
      var prior := MethodEndpoints(doc, path, item, init);
      if prior.Ok? && Truthy(operation) {
        SingleSlot(doc, Slot(path, m, operation));
        var e := EndpointOf(doc, path, m, operation);
        if e.Ok? {
          DescribesConcat(doc, prior.value, slots, [e.value], last);
        }
      } else if prior.Ok? {
        assert slots + last == slots;
      }
    }
  }

  /** The walk over the path entries succeeds exactly when every declared
      operation can be analysed, and then yields their endpoints in order. */
  lemma {:induction false} EntriesDescribed(doc: Value, entries: seq<(string, Value)>)
    ensures var r := CollectEndpoints(doc, entries);
      && (r.Ok? <==> AllSucceed(doc, DeclaredOperations(entries, Methods)))
      && (r.Ok? ==> Describes(doc, r.value, DeclaredOperations(entries, Methods)))
      && (r.Err? ==> r.error == TypeError)
  {
    if entries != [] {
      var init := entries[..|entries| - 1];
      var (path, item) := entries[|entries| - 1];
      EntriesDescribed(doc, init);
      var slots := DeclaredOperations(init, Methods);
      var last := if Skipped(item) then [] else OperationSlots(path, item, Methods);
      assert DeclaredOperations(entries, Methods) == slots + last;
      AllSucceedConcat(doc, slots, last);
      var prior := CollectEndpoints(doc, init);
      if prior.Ok? && !Skipped(item) {
        MethodsDescribed(doc, path, item, Methods);
        var more := MethodEndpoints(doc, path, item, Methods);
        if more.Ok? {
          DescribesConcat(doc, prior.value, slots, more.value, last);
        }
      } else if prior.Ok? {
        assert slots + last == slots;
      }
    }
  }

  /** The paths of a document, `{}` when it has none. */
  function PathEntries(doc: Value): seq<(string, Value)> {
    Entries(Or(Get(doc, "paths"), Obj([])))
  }

  /** A document with a marker is reported exactly when every declared operation
      can be analysed; the report then lists one endpoint per declared operation,
      in order, and counts them. */
  lemma DocumentDescribed(doc: Value)
    requires !Nullish(doc) && (Truthy(Get(doc, "openapi")) || Truthy(Get(doc, "swagger")))
    ensures var r := AnalyzeDocument(doc);
      && (r.Ok? <==> AllSucceed(doc, DeclaredOperations(PathEntries(doc), Methods)))
      && (r.Ok? ==> Describes(doc, r.value.endpoints, DeclaredOperations(PathEntries(doc), Methods))
                    && r.value.totalEndpoints == |DeclaredOperations(PathEntries(doc), Methods)|)
  {
    EntriesDescribed(doc, PathEntries(doc));
  }

  /** The error of a decoded document: InvalidSpec exactly when neither marker is
      truthy; otherwise a TypeError, for a null or undefined document or an
      operation that cannot be analysed. */
  lemma DocumentErrors(doc: Value)
    ensures AnalyzeDocument(doc) == Err(InvalidSpec)
        <==> !Nullish(doc) && !Truthy(Get(doc, "openapi")) && !Truthy(Get(doc, "swagger"))
    ensures AnalyzeDocument(doc) == Err(TypeError)
        <==> Nullish(doc) || ((Truthy(Get(doc, "openapi")) || Truthy(Get(doc, "swagger")))
                              && !AllSucceed(doc, DeclaredOperations(PathEntries(doc), Methods)))
    ensures AnalyzeDocument(doc) != Err(ParseFailed)
  {
    EntriesDescribed(doc, PathEntries(doc));
  }

  /** The JSON reading wins whenever it succeeds; YAML is only tried after it
      fails; the parse error is raised exactly when both fail. */
  lemma ParseOutcome(json: Option<Value>, yaml: Option<Value>)
    ensures json.Some? ==> ParseResult(json, yaml) == AnalyzeDocument(json.value)
    ensures json.None? && yaml.Some? ==> ParseResult(json, yaml) == AnalyzeDocument(yaml.value)
    ensures ParseResult(json, yaml) == Err(ParseFailed) <==> json.None? && yaml.None?
  {
    if json.Some? {
      DocumentErrors(json.value);
    } else if yaml.Some? {
      DocumentErrors(yaml.value);
    }
  }

  /** The title and version come from a truthy `info`, and fall back to
      "Untitled API" and "N/A" when missing or falsy there. */
  lemma InfoDefaults(doc: Value)
    requires AnalyzeDocument(doc).Ok?
    ensures var info := Get(doc, "info");
      var rep := AnalyzeDocument(doc).value;
      && (Truthy(info) && Truthy(Get(info, "title")) ==> rep.title == Get(info, "title"))
      && (!Truthy(info) || !Truthy(Get(info, "title")) ==> rep.title == Str("Untitled API"))
      && (Truthy(info) && Truthy(Get(info, "version")) ==> rep.version == Get(info, "version"))
      && (!Truthy(info) || !Truthy(Get(info, "version")) ==> rep.version == Str("N/A"))
  {
  }

  /** A document with a marker and no truthy `paths` reports no endpoint. */
  lemma NoPaths(doc: Value)
    requires !Nullish(doc) && (Truthy(Get(doc, "openapi")) || Truthy(Get(doc, "swagger")))
    requires !Truthy(Get(doc, "paths"))
    ensures AnalyzeDocument(doc).Ok?
    ensures AnalyzeDocument(doc).value.endpoints == [] && AnalyzeDocument(doc).value.totalEndpoints == 0
  {
    assert PathEntries(doc) == [];
  }
}
