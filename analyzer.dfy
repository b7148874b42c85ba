/** `analyzeSchema` (src/lib/openapi-parser.ts:33-116): the field count and the
    deepest nesting level of a schema, following `$ref`s with cycle detection and
    combining `allOf`, `oneOf`/`anyOf`, arrays and objects.

    The `visited` set is a value here. The source mutates its Set, but every caller
    that goes on using its own set afterwards hands the callee a copy, and the only
    calls that share the set are tail calls, so no caller ever observes the change. */
module SchemaAnalyzer {
  import opened Outcomes
  import opened JsValues
  import Pointer

  /** `SchemaAnalysis` (lines 3-6). */
  datatype Analysis = Analysis(fieldCount: nat, maxDepth: nat)

  /** `Math.max` on two counts. */
  function Max(a: nat, b: nat): nat {
    if a >= b then a else b
  }

  // ---------------------------------------------------------------------------
  // Combining the results of the branches of a composition or of the properties
  // of an object. Each running total is a left fold, as the loops compute it.

  predicate AllOk(rs: seq<Result<Analysis>>) {
    forall i :: 0 <= i < |rs| ==> rs[i].Ok?
  }

  function FieldOf(r: Result<Analysis>): nat {
    if r.Ok? then r.value.fieldCount else 0
  }

  function DepthOf(r: Result<Analysis>): nat {
    if r.Ok? then r.value.maxDepth else 0
  }

  /** `totalFields += result.fieldCount` over the branches. */
  function FieldSum(rs: seq<Result<Analysis>>): nat {
    if rs == [] then 0 else FieldSum(rs[..|rs| - 1]) + FieldOf(rs[|rs| - 1])
  }

  /** `maxFields = Math.max(maxFields, result.fieldCount)` from 0. */
  function FieldMax(rs: seq<Result<Analysis>>): nat {
    if rs == [] then 0 else Max(FieldMax(rs[..|rs| - 1]), FieldOf(rs[|rs| - 1]))
  }

  /** `maxDepth = Math.max(maxDepth, result.maxDepth)` from `base`. */
  function DepthMax(base: nat, rs: seq<Result<Analysis>>): (d: nat)
    ensures d >= base
  {
    if rs == [] then base else Max(DepthMax(base, rs[..|rs| - 1]), DepthOf(rs[|rs| - 1]))
  }

  /** The result of an `allOf` (lines 54-63): the branch counts added up, the
      deepest of `depth` and the branch depths. Any failing branch fails it. */
  function AllOfResult(rs: seq<Result<Analysis>>, depth: nat): Result<Analysis> {
    if AllOk(rs) then Ok(Analysis(FieldSum(rs), DepthMax(depth, rs))) else Err(TypeError)
  }

  /** The result of a `oneOf` or `anyOf` (lines 65-75): the largest branch count
      (0 without branches), the deepest of `depth` and the branch depths. */
  function OneOfResult(rs: seq<Result<Analysis>>, depth: nat): Result<Analysis> {
    if AllOk(rs) then Ok(Analysis(FieldMax(rs), DepthMax(depth, rs))) else Err(TypeError)
  }

  /** The guard of line 98: a property schema whose own fields are added to its
      object's count is typed object or array, or has a `$ref`, or has `properties`. */
  predicate Structural(p: Value) {
    || Get(p, "type") == Str("object")
    || Get(p, "type") == Str("array")
    || Truthy(Get(p, "$ref"))
    || Truthy(Get(p, "properties"))
  }

  /** What one property adds beyond itself (lines 98-100). */
  function Nested(p: Value, r: Result<Analysis>): nat {
    if r.Ok? && r.value.fieldCount > 0 && Structural(p) then r.value.fieldCount else 0
  }

  function NestedSum(ps: seq<Value>, rs: seq<Result<Analysis>>): nat
    requires |ps| == |rs|
  {
    if ps == [] then 0
    else NestedSum(ps[..|ps| - 1], rs[..|rs| - 1]) + Nested(ps[|ps| - 1], rs[|rs| - 1])
  }

  /** The properties of an object (lines 88-104): one field per property plus
      what each property adds; the depth is `depth` when there is a property (0
      otherwise), raised to the deepest property. */
  function PropertiesResult(ps: seq<Value>, rs: seq<Result<Analysis>>, depth: nat): Result<Analysis>
    requires |ps| == |rs|
  {
    if !AllOk(rs) then Err(TypeError)
    else Ok(Analysis(|ps| + NestedSum(ps, rs), DepthMax(if |ps| > 0 then depth else 0, rs)))
  }

  /** The result of an object (lines 87-111): its properties, plus the whole count
      and the depth of `additionalProperties` when that is analysed (`extra`). */
  function ObjectResult(own: Result<Analysis>, extra: Option<Result<Analysis>>): Result<Analysis> {
    match extra
    case None => own
    case Some(a) =>
      if own.Err? || a.Err? then Err(TypeError)
      else Ok(Analysis(own.value.fieldCount + a.value.fieldCount, Max(own.value.maxDepth, a.value.maxDepth)))
  }

  // ---------------------------------------------------------------------------
  // One more step of each fold, as a loop iteration takes it.

  lemma FoldStep(rs: seq<Result<Analysis>>, base: nat, i: nat)
    requires i < |rs|
    ensures AllOk(rs[..i]) && rs[i].Ok? ==> AllOk(rs[..i + 1])
    ensures FieldSum(rs[..i + 1]) == FieldSum(rs[..i]) + FieldOf(rs[i])
    ensures FieldMax(rs[..i + 1]) == Max(FieldMax(rs[..i]), FieldOf(rs[i]))
    ensures DepthMax(base, rs[..i + 1]) == Max(DepthMax(base, rs[..i]), DepthOf(rs[i]))
  {
    assert rs[..i + 1][..i] == rs[..i];
  }

  lemma NestedStep(ps: seq<Value>, rs: seq<Result<Analysis>>, i: nat)
    requires |ps| == |rs| && i < |rs|
    ensures NestedSum(ps[..i + 1], rs[..i + 1]) == NestedSum(ps[..i], rs[..i]) + Nested(ps[i], rs[i])
  {
    assert rs[..i + 1][..i] == rs[..i];
    assert ps[..i + 1][..i] == ps[..i];
  }

  // ---------------------------------------------------------------------------
  // Characterisations of the folds.

  /** The running depth is the maximum: at least `base` and every branch depth,
      and equal to one of them. */
  lemma {:induction false} DepthMaxIsMaximum(base: nat, rs: seq<Result<Analysis>>)
    ensures DepthMax(base, rs) >= base
    ensures forall i :: 0 <= i < |rs| ==> DepthMax(base, rs) >= DepthOf(rs[i])
    ensures DepthMax(base, rs) == base || exists i :: 0 <= i < |rs| && DepthMax(base, rs) == DepthOf(rs[i])
  {
    if rs != [] {
      var init := rs[..|rs| - 1];
      DepthMaxIsMaximum(base, init);
      assert forall i :: 0 <= i < |init| ==> init[i] == rs[i];
    }
  }

  /** The running field maximum is the largest branch count, or 0 without branches. */
  lemma {:induction false} FieldMaxIsMaximum(rs: seq<Result<Analysis>>)
    ensures forall i :: 0 <= i < |rs| ==> FieldMax(rs) >= FieldOf(rs[i])
    ensures FieldMax(rs) == 0 || exists i :: 0 <= i < |rs| && FieldMax(rs) == FieldOf(rs[i])
  {
    if rs != [] {
      var init := rs[..|rs| - 1];
      FieldMaxIsMaximum(init);
      assert forall i :: 0 <= i < |init| ==> init[i] == rs[i];
    }
  }

  /** Removing one branch from the running sum subtracts its count. */
  lemma {:induction false} FieldSumRemove(rs: seq<Result<Analysis>>, j: nat)
    requires j < |rs|
    ensures FieldSum(rs) == FieldSum(rs[..j] + rs[j + 1..]) + FieldOf(rs[j])
    decreases |rs|
  {
    var n := |rs| - 1;
    if j < n {
      var init := rs[..n];
      FieldSumRemove(init, j);
      var rest := rs[..j] + rs[j + 1..];
      assert rest[..|rest| - 1] == init[..j] + init[j + 1..];
      assert rest[|rest| - 1] == rs[n];
    } else {
      assert rs[..j] + rs[j + 1..] == rs[..n];
    }
  }

  /** The sum does not depend on the order of the branches. */
  lemma {:induction false} FieldSumPermutation(rs: seq<Result<Analysis>>, qs: seq<Result<Analysis>>)
    requires multiset(rs) == multiset(qs)
    ensures FieldSum(rs) == FieldSum(qs)
    decreases |rs|
  {
    if rs != [] {
      var n := |rs| - 1;
      var last := rs[n];
      assert rs == rs[..n] + [last];
      assert multiset(rs) == multiset(rs[..n]) + multiset{last};
      assert last in multiset(qs);
      var j :| 0 <= j < |qs| && qs[j] == last;
      assert qs == qs[..j] + [qs[j]] + qs[j + 1..];
      assert multiset(qs) == multiset(qs[..j]) + multiset{qs[j]} + multiset(qs[j + 1..]);
      var rest := qs[..j] + qs[j + 1..];
      assert multiset(rest) == multiset(qs[..j]) + multiset(qs[j + 1..]);
      assert multiset(rs[..n]) == multiset(rs) - multiset{last};
      assert multiset(rest) == multiset(qs) - multiset{last};
      FieldSumRemove(qs, j);
      FieldSumPermutation(rs[..n], rest);
    } else {
      assert |qs| == |multiset(qs)|;
    }
  }

  /** The running depth never exceeds that of a list holding every branch. */
  lemma DepthMaxBelow(base: nat, rs: seq<Result<Analysis>>, qs: seq<Result<Analysis>>)
    requires forall r :: r in rs ==> r in qs
    ensures DepthMax(base, rs) <= DepthMax(base, qs)
  {
    DepthMaxIsMaximum(base, rs);
    DepthMaxIsMaximum(base, qs);
    if DepthMax(base, rs) != base {
      var i :| 0 <= i < |rs| && DepthMax(base, rs) == DepthOf(rs[i]);
      assert rs[i] in qs;
      var k :| 0 <= k < |qs| && qs[k] == rs[i];
    }
  }

  /** The running field maximum never exceeds that of a list holding every branch. */
  lemma FieldMaxBelow(rs: seq<Result<Analysis>>, qs: seq<Result<Analysis>>)
    requires forall r :: r in rs ==> r in qs
    ensures FieldMax(rs) <= FieldMax(qs)
  {
    FieldMaxIsMaximum(rs);
    FieldMaxIsMaximum(qs);
    if FieldMax(rs) != 0 {
      var i :| 0 <= i < |rs| && FieldMax(rs) == FieldOf(rs[i]);
      assert rs[i] in qs;
      var k :| 0 <= k < |qs| && qs[k] == rs[i];
    }
  }

  /** A permutation of the branches holds the same results. */
  lemma SameMembers(rs: seq<Result<Analysis>>, qs: seq<Result<Analysis>>)
    requires multiset(rs) == multiset(qs)
    ensures forall r :: r in rs <==> r in qs
  {
    forall r ensures r in rs <==> r in qs {
      assert r in rs <==> r in multiset(rs);
      assert r in qs <==> r in multiset(qs);
    }
  }

  /** Combining branch results does not depend on the order of the branches. */
  lemma CompositionOrderIrrelevant(rs: seq<Result<Analysis>>, qs: seq<Result<Analysis>>, depth: nat)
    requires multiset(rs) == multiset(qs)
    ensures AllOfResult(rs, depth) == AllOfResult(qs, depth)
    ensures OneOfResult(rs, depth) == OneOfResult(qs, depth)
  {
    FieldSumPermutation(rs, qs);
    SameMembers(rs, qs);
    FieldMaxBelow(rs, qs);
    FieldMaxBelow(qs, rs);
    DepthMaxBelow(depth, rs, qs);
    DepthMaxBelow(depth, qs, rs);
    assert AllOk(rs) <==> AllOk(qs) by {
      if !AllOk(rs) {
        var i :| 0 <= i < |rs| && rs[i].Err?;
        assert rs[i] in qs;
      }
      if !AllOk(qs) {
        var i :| 0 <= i < |qs| && qs[i].Err?;
        assert qs[i] in rs;
      }
    }
  }

  // ---------------------------------------------------------------------------
  // The walk.

  /** Every value listed under a named key of a schema is a strict part of it. */
  lemma PartsBound(schema: Value, key: string)
    requires key != [] && !IsDigit(key[0])
    ensures forall b :: b in Values(Get(schema, key)) ==> Size(b) < Size(schema) && Refs(b) <= Refs(schema)
  {
    var g := Get(schema, key);
    NamedGetBound(schema, key);
    forall b | b in Values(g) ensures Size(b) < Size(schema) && Refs(b) <= Refs(schema) {
      var i :| 0 <= i < |Values(g)| && Values(g)[i] == b;
      EntryBound(g, i);
    }
  }

  /** The references a walk from `schema` may still follow: the termination
      measure of the walk. */
  ghost function Budget(doc: Value, schema: Value, visited: set<string>): set<string> {
    Refs(doc) + Refs(schema) - visited
  }

  /** What every analysis result satisfies: the only error is a TypeError; the
      depth reached is 0 or at least `depth`, and it is at least `depth` as soon
      as a field was counted. */
  predicate Reached(r: Result<Analysis>, depth: nat) {
    && (r.Err? ==> r.error == TypeError)
    && (r.Ok? ==> r.value.maxDepth == 0 || r.value.maxDepth >= depth)
    && (r.Ok? && r.value.fieldCount > 0 ==> r.value.maxDepth >= depth)
  }

  /** `analyzeSchema(spec, schema, visited, depth)`: the first rule that applies
      decides. Terminates because every step either records a new reference of
      the document in `visited` or moves to a strict part of the schema. */
  function Analyze(doc: Value, schema: Value, visited: set<string>, depth: nat): (r: Result<Analysis>)
    ensures Reached(r, depth)
    decreases Budget(doc, schema, visited), Size(schema), 4
  {
    if !Truthy(schema) then Ok(Analysis(0, 0))
    else if Truthy(Get(schema, "$ref")) then FollowRef(doc, schema, visited, depth)
    else if Truthy(Get(schema, "allOf")) then AnalyzeComposition(doc, schema, "allOf", visited, depth)
    else if Truthy(Get(schema, "oneOf")) then AnalyzeComposition(doc, schema, "oneOf", visited, depth)
    else if Truthy(Get(schema, "anyOf")) then AnalyzeComposition(doc, schema, "anyOf", visited, depth)
    else AnalyzeShape(doc, schema, visited, depth)
  }

  /** The rules for a schema with no `$ref` and no composition (lines 78-115):
      an array's `items` one level deeper, an object's properties, and nothing
      for anything else. */
  function AnalyzeShape(doc: Value, schema: Value, visited: set<string>, depth: nat): (r: Result<Analysis>)
    ensures Reached(r, depth)
    decreases Budget(doc, schema, visited), Size(schema), 3
  {
    if Get(schema, "type") == Str("array") && Truthy(Get(schema, "items")) then
      NamedGetBound(schema, "items");
      Analyze(doc, Get(schema, "items"), visited, depth + 1)
    else if Get(schema, "type") == Str("object") || Truthy(Get(schema, "properties")) then
      AnalyzeObject(doc, schema, visited, depth)
    else Ok(Analysis(0, 0))
  }

  /** A `$ref` (lines 44-51): a reference already on the path is a cycle and
      reaches `depth` with no field; any other is recorded and its target is
      analysed at the same depth. A `$ref` that is not a string makes
      `ref.replace` throw. */
  function FollowRef(doc: Value, schema: Value, visited: set<string>, depth: nat): (r: Result<Analysis>)
    requires Truthy(Get(schema, "$ref"))
    ensures Reached(r, depth)
    decreases Budget(doc, schema, visited), Size(schema), 1
  {
    var ref := Get(schema, "$ref");
    if ref.Str? && ref.s in visited then Ok(Analysis(0, depth))
    else if !ref.Str? then Err(TypeError)
    else
      OwnRef(schema, ref.s);
      Pointer.ResolveBound(doc, ref.s);
      Analyze(doc, Pointer.Resolve(doc, ref.s), visited + {ref.s}, depth)
  }

  /** `allOf` (lines 54-63) sums the branch counts; `oneOf`, and `anyOf` when
      there is no `oneOf` (lines 65-75), take the largest. A list that is not
      iterable makes `for ... of` throw. */
  function AnalyzeComposition(doc: Value, schema: Value, key: string, visited: set<string>, depth: nat): (r: Result<Analysis>)
    requires key == "allOf" || key == "oneOf" || key == "anyOf"
    ensures Reached(r, depth)
    decreases Budget(doc, schema, visited), Size(schema), 1
  {
    match ForOf(Get(schema, key))
    case None => Err(TypeError)
    case Some(bs) =>
      PartsBound(schema, key);
      var rs := BranchResults(doc, bs, visited, depth, Refs(schema), Size(schema) - 1);
      if key == "allOf" then AllOfResult(rs, depth) else OneOfResult(rs, depth)
  }

  /** An object (lines 87-111): its properties, then `additionalProperties`. */
  function AnalyzeObject(doc: Value, schema: Value, visited: set<string>, depth: nat): (r: Result<Analysis>)
    ensures Reached(r, depth)
    decreases Budget(doc, schema, visited), Size(schema), 2
  {
    ObjectResult(AnalyzeProperties(doc, schema, visited, depth), AdditionalResult(doc, schema, visited, depth))
  }

  /** The properties of an object (lines 88-104), each analysed at `depth + 1`
      with its own copy of `visited`. */
  function AnalyzeProperties(doc: Value, schema: Value, visited: set<string>, depth: nat): (r: Result<Analysis>)
    ensures Reached(r, depth)
    decreases Budget(doc, schema, visited), Size(schema), 1
  {
    var ps := PropertySchemas(schema);
    PartsBound(schema, "properties");
    PropertiesResult(ps, BranchResults(doc, ps, visited, depth + 1, Refs(schema), Size(schema) - 1), depth)
  }

  /** The property schemas of an object, none when `properties` is falsy
      (`schema.properties || {}`); `PartsBound` shows each is a strict part
      of the schema. */
  function PropertySchemas(schema: Value): seq<Value> {
    if Truthy(Get(schema, "properties")) then Values(Get(schema, "properties")) else []
  }

  /** `additionalProperties` (lines 106-110): analysed one level deeper when it
      is an object or an array, ignored otherwise. */
  function AdditionalResult(doc: Value, schema: Value, visited: set<string>, depth: nat): (r: Option<Result<Analysis>>)
    ensures r.Some? <==> Truthy(Get(schema, "additionalProperties")) && IsObjectType(Get(schema, "additionalProperties"))
    ensures r.Some? ==> Reached(r.value, depth + 1)
    decreases Budget(doc, schema, visited), Size(schema), 1
  {
    var add := Get(schema, "additionalProperties");
    if Truthy(add) && IsObjectType(add) then
      NamedGetBound(schema, "additionalProperties");
      Some(Analyze(doc, add, visited, depth + 1))
    else None
  }

  /** The analysis of each of `bs` at the same `visited` and `depth`: each branch
      or property gets its own copy of the set. `within` and `bound` bound the
      references and sizes of the branches for the termination argument. */
  function BranchResults(doc: Value, bs: seq<Value>, visited: set<string>, depth: nat,
                         ghost within: set<string>, ghost bound: nat): (rs: seq<Result<Analysis>>)
    requires forall b :: b in bs ==> Size(b) <= bound && Refs(b) <= within
    ensures |rs| == |bs|
    decreases Refs(doc) + within - visited, bound, |bs| + 4
  {
    if bs == [] then []
    else [Analyze(doc, bs[0], visited, depth)] + BranchResults(doc, bs[1..], visited, depth, within, bound)
  }

  /** The `i`-th branch result is the analysis of the `i`-th branch. */
  lemma {:induction false} BranchResultAt(doc: Value, bs: seq<Value>, visited: set<string>, depth: nat,
                                          within: set<string>, bound: nat, i: nat)
    requires forall b :: b in bs ==> Size(b) <= bound && Refs(b) <= within
    requires i < |bs|
    ensures BranchResults(doc, bs, visited, depth, within, bound)[i] == Analyze(doc, bs[i], visited, depth)
    decreases i
  {
    if i > 0 {
      BranchResultAt(doc, bs[1..], visited, depth, within, bound, i - 1);
    }
  }

  // ---------------------------------------------------------------------------
  // The walk as the source performs it: early returns and accumulator loops.

  /** `analyzeSchema` as written: each rule returns as soon as it applies. */
  method AnalyzeSchema(doc: Value, schema: Value, visited: set<string>, depth: nat) returns (r: Result<Analysis>)
    ensures r == Analyze(doc, schema, visited, depth)
    decreases Budget(doc, schema, visited), Size(schema), 5
  {
    if !Truthy(schema) {
      return Ok(Analysis(0, 0));
    }

    if Truthy(Get(schema, "$ref")) {
      r := FollowReference(doc, schema, visited, depth);
      return;
    }

    if Truthy(Get(schema, "allOf")) {
      r := Compose(doc, schema, "allOf", visited, depth);
      return;
    }

    // `schema.oneOf || schema.anyOf`
    if Truthy(Get(schema, "oneOf")) {
      r := Compose(doc, schema, "oneOf", visited, depth);
      return;
    }
    if Truthy(Get(schema, "anyOf")) {
      r := Compose(doc, schema, "anyOf", visited, depth);
      return;
    }

    r := AnalyzeShapeSchema(doc, schema, visited, depth);
  }

  /** Lines 78-115: `items`, then the object rule, then nothing. */
  method AnalyzeShapeSchema(doc: Value, schema: Value, visited: set<string>, depth: nat) returns (r: Result<Analysis>)
    ensures r == AnalyzeShape(doc, schema, visited, depth)
    decreases Budget(doc, schema, visited), Size(schema), 4
  {
    var items := Get(schema, "items");
    if Get(schema, "type") == Str("array") && Truthy(items) {
      NamedGetBound(schema, "items");
      r := AnalyzeSchema(doc, items, visited, depth + 1);
      return;
    }

    if Get(schema, "type") == Str("object") || Truthy(Get(schema, "properties")) {
      r := AnalyzeObjectSchema(doc, schema, visited, depth);
      return;
    }

    return Ok(Analysis(0, 0));
  }

  /** Lines 44-51: a reference already on the path ends the walk, any other is
      resolved and its target analysed with the reference recorded. */
  method FollowReference(doc: Value, schema: Value, visited: set<string>, depth: nat) returns (r: Result<Analysis>)
    requires Truthy(Get(schema, "$ref"))
    ensures r == FollowRef(doc, schema, visited, depth)
    decreases Budget(doc, schema, visited), Size(schema), 3
  {
    var ref := Get(schema, "$ref");
    if ref.Str? && ref.s in visited {
      return Ok(Analysis(0, depth));
    }
    if !ref.Str? {
      return Err(TypeError);  // `ref.replace` is not a function
    }
    OwnRef(schema, ref.s);
    Pointer.ResolveBound(doc, ref.s);
    var resolved := Pointer.ResolveRef(doc, ref.s);
    r := AnalyzeSchema(doc, resolved, visited + {ref.s}, depth);
  }

  /** Lines 54-75: the branches listed under `key`, summed for `allOf` and
      maximised otherwise; a list that is not iterable throws. */
  method Compose(doc: Value, schema: Value, key: string, visited: set<string>, depth: nat) returns (r: Result<Analysis>)
    requires key == "allOf" || key == "oneOf" || key == "anyOf"
    ensures r == AnalyzeComposition(doc, schema, key, visited, depth)
    decreases Budget(doc, schema, visited), Size(schema), 3
  {
    var branches := ForOf(Get(schema, key));
    if branches.None? {
      return Err(TypeError);  // not iterable
    }
    PartsBound(schema, key);
    ghost var rs := BranchResults(doc, branches.value, visited, depth, Refs(schema), Size(schema) - 1);
    if key == "allOf" {
      r := SumBranches(doc, schema, branches.value, visited, depth, rs);
    } else {
      r := MaxBranches(doc, schema, branches.value, visited, depth, rs);
    }
  }

  /** The `allOf` loop (lines 55-62); `rs` are the analyses of the branches. */
  method SumBranches(doc: Value, schema: Value, bs: seq<Value>, visited: set<string>, depth: nat,
                     ghost rs: seq<Result<Analysis>>) returns (r: Result<Analysis>)
    requires forall b :: b in bs ==> Size(b) < Size(schema) && Refs(b) <= Refs(schema)
    requires rs == BranchResults(doc, bs, visited, depth, Refs(schema), Size(schema) - 1)
    ensures r == AllOfResult(rs, depth)
    decreases Budget(doc, schema, visited), Size(schema), 1
  {
    var totalFields, maxDepth := 0, depth;
    for i := 0 to |bs|
      invariant AllOk(rs[..i])
      invariant totalFields == FieldSum(rs[..i])
      invariant maxDepth == DepthMax(depth, rs[..i])
    {
      var result := AnalyzeBranch(doc, schema, bs, visited, depth, i, rs);
      if result.Err? {
        return Err(TypeError);
      }
      FoldStep(rs, depth, i);
      totalFields := totalFields + result.value.fieldCount;
      maxDepth := Max(maxDepth, result.value.maxDepth);
    }
    assert rs[..|bs|] == rs;
    return Ok(Analysis(totalFields, maxDepth));
  }

  /** The `oneOf`/`anyOf` loop (lines 67-74); `rs` are the analyses of the branches. */
  method MaxBranches(doc: Value, schema: Value, bs: seq<Value>, visited: set<string>, depth: nat,
                     ghost rs: seq<Result<Analysis>>) returns (r: Result<Analysis>)
    requires forall b :: b in bs ==> Size(b) < Size(schema) && Refs(b) <= Refs(schema)
    requires rs == BranchResults(doc, bs, visited, depth, Refs(schema), Size(schema) - 1)
    ensures r == OneOfResult(rs, depth)
    decreases Budget(doc, schema, visited), Size(schema), 1
  {
    var maxFields, maxDepth := 0, depth;
    for i := 0 to |bs|
      invariant AllOk(rs[..i])
      invariant maxFields == FieldMax(rs[..i])
      invariant maxDepth == DepthMax(depth, rs[..i])
    {
      var result := AnalyzeBranch(doc, schema, bs, visited, depth, i, rs);
      if result.Err? {
        return Err(TypeError);
      }
      FoldStep(rs, depth, i);
      maxFields := Max(maxFields, result.value.fieldCount);
      maxDepth := Max(maxDepth, result.value.maxDepth);
    }
    assert rs[..|bs|] == rs;
    return Ok(Analysis(maxFields, maxDepth));
  }

  /** The object rule (lines 87-111): the property loop, then `additionalProperties`. */
  method AnalyzeObjectSchema(doc: Value, schema: Value, visited: set<string>, depth: nat) returns (r: Result<Analysis>)
    ensures r == AnalyzeObject(doc, schema, visited, depth)
    decreases Budget(doc, schema, visited), Size(schema), 3
  {
    var own := AnalyzePropertySchemas(doc, schema, visited, depth);
    if own.Err? {
      return own;
    }
    var extra := AnalyzeAdditional(doc, schema, visited, depth);
    r := ObjectResult(own, extra);
  }

  /** Lines 106-110: the analysis of `additionalProperties`, when it is one. */
  method AnalyzeAdditional(doc: Value, schema: Value, visited: set<string>, depth: nat) returns (r: Option<Result<Analysis>>)
    ensures r == AdditionalResult(doc, schema, visited, depth)
    decreases Budget(doc, schema, visited), Size(schema), 1
  {
    var add := Get(schema, "additionalProperties");
    if Truthy(add) && IsObjectType(add) {
      NamedGetBound(schema, "additionalProperties");
      var addResult := AnalyzeSchema(doc, add, visited, depth + 1);
      return Some(addResult);
    }
    return None;
  }

  /** Lines 88-92: the property schemas, then the loop over them. */
  method AnalyzePropertySchemas(doc: Value, schema: Value, visited: set<string>, depth: nat) returns (r: Result<Analysis>)
    ensures r == AnalyzeProperties(doc, schema, visited, depth)
    decreases Budget(doc, schema, visited), Size(schema), 2
  {
    var ps := PropertySchemas(schema);
    PartsBound(schema, "properties");
    r := PropertyLoop(doc, schema, ps, visited, depth,
                      BranchResults(doc, ps, visited, depth + 1, Refs(schema), Size(schema) - 1));
  }

  /** The property loop (lines 92-104), each property one level deeper; `rs`
      are the analyses of the property schemas `ps`. */
  method PropertyLoop(doc: Value, schema: Value, ps: seq<Value>, visited: set<string>, depth: nat,
                      ghost rs: seq<Result<Analysis>>) returns (r: Result<Analysis>)
    requires forall b :: b in ps ==> Size(b) < Size(schema) && Refs(b) <= Refs(schema)
    requires rs == BranchResults(doc, ps, visited, depth + 1, Refs(schema), Size(schema) - 1)
    ensures r == PropertiesResult(ps, rs, depth)
    decreases Budget(doc, schema, visited), Size(schema), 1
  {
    ghost var base := if |ps| > 0 then depth else 0;
    var totalFields := |ps|;
    var maxDepth := if |ps| > 0 then depth else 0;
    for i := 0 to |ps|
      invariant AllOk(rs[..i])
      invariant totalFields == |ps| + NestedSum(ps[..i], rs[..i])
      invariant maxDepth == DepthMax(base, rs[..i])
    {
      var propSchema := ps[i];
      var propResult := AnalyzeBranch(doc, schema, ps, visited, depth + 1, i, rs);
      if propResult.Err? {
        return Err(TypeError);
      }
      FoldStep(rs, base, i);
      NestedStep(ps, rs, i);
      if propResult.value.fieldCount > 0 && Structural(propSchema) {
        totalFields := totalFields + propResult.value.fieldCount;
      }
      maxDepth := Max(maxDepth, propResult.value.maxDepth);
    }
    assert rs[..|ps|] == rs;
    assert ps[..|ps|] == ps;
    return Ok(Analysis(totalFields, maxDepth));
  }

  /** One iteration's recursive call: the analysis of branch `i`. */
  method AnalyzeBranch(doc: Value, schema: Value, bs: seq<Value>, visited: set<string>, depth: nat, i: nat,
                       ghost rs: seq<Result<Analysis>>) returns (r: Result<Analysis>)
    requires forall b :: b in bs ==> Size(b) < Size(schema) && Refs(b) <= Refs(schema)
    requires rs == BranchResults(doc, bs, visited, depth, Refs(schema), Size(schema) - 1)
    requires i < |bs|
    ensures r == rs[i]
    decreases Budget(doc, schema, visited), Size(schema), 0
  {
    var b := bs[i];
    r := AnalyzeSchema(doc, b, visited, depth);
    BranchResultAt(doc, bs, visited, depth, Refs(schema), Size(schema) - 1, i);
  }
}
