/** A whole document worked through `parseOpenAPI`: one `GET /items` operation
    without a request body whose `200` response is an array of strings. */
module ReportFacts {
  import opened Outcomes
  import opened JsValues
  import opened SchemaAnalyzer
  import opened SchemaFacts
  import opened OperationSchemas
  import opened OpenApiReport

  /** `{type: 'array', items: {type: 'string'}}` */
  const ArrayOfStrings: Value := Obj([("type", Str("array")), ("items", StringSchema)])

  /** A `200` response whose JSON body is an array of strings. */
  const ItemsResponse: Value :=
    Obj([("content", Obj([("application/json", Obj([("schema", ArrayOfStrings)]))]))])

  /** An operation with one response and nothing else. */
  const ListItems: Value := Obj([("responses", Obj([("200", ItemsResponse)]))])

  const ItemsPath: Value := Obj([("get", ListItems)])

  /** The document: a marker, one path, no `info`. */
  const ItemsDocument: Value := Obj([("openapi", Str("3.0.0")), ("paths", Obj([("/items", ItemsPath)]))])

  /** An array of primitives contributes nothing. */
  lemma ArrayOfStringsCountsNothing(doc: Value, visited: set<string>, depth: nat)
    ensures Analyze(doc, ArrayOfStrings, visited, depth) == Ok(Analysis(0, 0))
  {
    PairAbsent("type", Str("array"), "items", StringSchema, "$ref");
    PairAbsent("type", Str("array"), "items", StringSchema, "allOf");
    PairAbsent("type", Str("array"), "items", StringSchema, "oneOf");
    PairAbsent("type", Str("array"), "items", StringSchema, "anyOf");
    PairMembers("type", Str("array"), "items", StringSchema, "type");
    PairMembers("type", Str("array"), "items", StringSchema, "items");
    ArrayPassesItems(doc, ArrayOfStrings, visited, depth);
    StringCountsNothing(doc, visited, depth + 1);
  }

  /** Without `requestBody` or `parameters` the request schema is null. */
  lemma NoRequest()
    ensures RequestSchema(ListItems) == Ok(Null)
  {
    var responses := Obj([("200", ItemsResponse)]);
    assert "requestBody"[2] != "responses"[2];
    SingleMember("responses", responses, "requestBody");
    assert "parameters"[0] != "responses"[0];
    SingleMember("responses", responses, "parameters");
  }

  /** The one success code decides: its JSON media type's schema. */
  lemma ItemsResponseSchema()
    ensures ResponseSchema(ListItems) == ArrayOfStrings
  {
    var responses := Obj([("200", ItemsResponse)]);
    SingleMember("responses", responses, "responses");
    assert Keys(responses) == ["200"];
    assert IsSuccessCode("200");
    assert SuccessFilter(["200"]) == ["200"];
    assert SortCodes(["200"]) == ["200"];
    SingleMember("200", ItemsResponse, "200");
    var content := Obj([("application/json", Obj([("schema", ArrayOfStrings)]))]);
    SingleMember("content", content, "content");
    JsonPreferred([], Obj([("schema", ArrayOfStrings)]), []);
    assert [] + [("application/json", Obj([("schema", ArrayOfStrings)]))] + [] == [("application/json", Obj([("schema", ArrayOfStrings)]))];
    SingleMember("schema", ArrayOfStrings, "schema");
    assert FirstDecision(responses, ["200"]) == ArrayOfStrings;
  }

  /** The endpoint of `GET /items`: no `operationId`, no `summary`, nothing counted. */
  lemma ItemsEndpoint(doc: Value)
    ensures EndpointOf(doc, "/items", "get", ListItems)
         == Ok(Endpoint("/items", "GET", Undefined, Undefined, Analysis(0, 0), Analysis(0, 0)))
  {
    NoRequest();
    ItemsResponseSchema();
    ArrayOfStringsCountsNothing(doc, {}, 1);
    var responses := Obj([("200", ItemsResponse)]);
    assert "operationId"[0] != "responses"[0];
    SingleMember("responses", responses, "operationId");
    assert "summary"[0] != "responses"[0];
    SingleMember("responses", responses, "summary");
    assert Upper("get") == "GET";
  }

  /** Methods without a truthy operation leave the walk where it was. */
  lemma {:induction false} OthersAbsent(doc: Value, path: string, item: Value, ms: seq<string>, k: nat, es: seq<Endpoint>)
    requires k <= |ms| && MethodEndpoints(doc, path, item, ms[..k]) == Ok(es)
    requires forall m :: m in ms[k..] ==> !Truthy(Get(item, m))
    ensures MethodEndpoints(doc, path, item, ms) == Ok(es)
    decreases |ms| - k
  {
    if k < |ms| {
      assert ms[k] in ms[k..];
      assert ms[k + 1..] == ms[k..][1..];
      MethodStep(doc, path, item, ms, k);
      OthersAbsent(doc, path, item, ms, k + 1, es);
    } else {
      assert ms[..k] == ms;
    }
  }

  /** The path item yields its one operation. */
  lemma ItemsPathEndpoints(doc: Value)
    ensures MethodEndpoints(doc, "/items", ItemsPath, Methods)
         == Ok([Endpoint("/items", "GET", Undefined, Undefined, Analysis(0, 0), Analysis(0, 0))])
  {
    var e := Endpoint("/items", "GET", Undefined, Undefined, Analysis(0, 0), Analysis(0, 0));
    ItemsEndpoint(doc);
    SingleMember("get", ListItems, "get");
    MethodStep(doc, "/items", ItemsPath, Methods, 0);
    assert [] + [e] == [e];
    assert Methods[1..] == ["post", "put", "patch", "delete", "options", "head"];
    forall m | m in Methods[1..] ensures !Truthy(Get(ItemsPath, m)) {
      assert m[0] != "get"[0];
      SingleMember("get", ListItems, m);
    }
    OthersAbsent(doc, "/items", ItemsPath, Methods, 1, [e]);
  }

  /** The report of the document: the default title and version, and one endpoint. */
  lemma ItemsReport()
    ensures AnalyzeDocument(ItemsDocument)
         == Ok(Report(Str("Untitled API"), Str("N/A"),
                      [Endpoint("/items", "GET", Undefined, Undefined, Analysis(0, 0), Analysis(0, 0))], 1))
  {
    var paths := Obj([("/items", ItemsPath)]);
    PairMembers("openapi", Str("3.0.0"), "paths", paths, "openapi");
    PairMembers("openapi", Str("3.0.0"), "paths", paths, "paths");
    assert "info"[0] != "openapi"[0] && "info"[0] != "paths"[0];
    PairMembers("openapi", Str("3.0.0"), "paths", paths, "info");
    var entries := [("/items", ItemsPath)];
    assert Entries(paths) == entries;
    ItemsPathEndpoints(ItemsDocument);
    CollectStep(ItemsDocument, entries, 0);
    assert entries[..0] == [] && entries[..1] == entries;
    assert !Skipped(ItemsPath);
    assert Get(Obj([]), "title") == Undefined && Get(Obj([]), "version") == Undefined;
    var e := Endpoint("/items", "GET", Undefined, Undefined, Analysis(0, 0), Analysis(0, 0));
    assert [] + [e] == [e];
  }
}
