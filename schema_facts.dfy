/** What `analyzeSchema` (src/lib/openapi-parser.ts:33-116) promises, stated
    about the rules of `Analyze`: cycles stop, references are transparent,
    compositions combine their branches independently of order, the first
    matching keyword wins, arrays pass their items through one level deeper,
    and objects count their properties. */
module SchemaFacts {
  import opened Outcomes
  import opened JsValues
  import Pointer
  import opened SchemaAnalyzer

  /** The analysis of each of `bs` on its own, with no termination bookkeeping. */
  function Branches(doc: Value, bs: seq<Value>, visited: set<string>, depth: nat): (rs: seq<Result<Analysis>>)
    ensures |rs| == |bs|
  {
    seq(|bs|, i requires 0 <= i < |bs| => Analyze(doc, bs[i], visited, depth))
  }

  /** The branch results of the walk are the analyses of the branches, whatever
      bounds the termination argument used. */
  lemma BranchResultsAre(doc: Value, bs: seq<Value>, visited: set<string>, depth: nat,
                         within: set<string>, bound: nat)
    requires forall b :: b in bs ==> Size(b) <= bound && Refs(b) <= within
    ensures BranchResults(doc, bs, visited, depth, within, bound) == Branches(doc, bs, visited, depth)
  {
    var rs := BranchResults(doc, bs, visited, depth, within, bound);
    forall i | 0 <= i < |bs| ensures rs[i] == Analyze(doc, bs[i], visited, depth) {
      BranchResultAt(doc, bs, visited, depth, within, bound, i);
    }
  }

  /** The analyses of two lists one after the other. */
  lemma BranchesConcat(doc: Value, xs: seq<Value>, ys: seq<Value>, visited: set<string>, depth: nat)
    ensures Branches(doc, xs + ys, visited, depth) == Branches(doc, xs, visited, depth) + Branches(doc, ys, visited, depth)
  {
  }

  /** The first of `bs` occurs in a permutation `qs` of it at some `j`; removing
      it from both leaves permutations of each other. */
  lemma PermutationHead(bs: seq<Value>, qs: seq<Value>) returns (j: nat)
    requires bs != [] && multiset(bs) == multiset(qs)
    ensures j < |qs| && qs[j] == bs[0]
    ensures multiset(bs[1..]) == multiset(qs[..j] + qs[j + 1..])
  {
    var x := bs[0];
    assert bs == [x] + bs[1..];
    assert x in multiset(qs);
    j :| 0 <= j < |qs| && qs[j] == x;
    assert qs == qs[..j] + [x] + qs[j + 1..];
    var rest := qs[..j] + qs[j + 1..];
    assert multiset(qs) == multiset(qs[..j]) + multiset{x} + multiset(qs[j + 1..]);
    assert multiset(rest) == multiset(qs[..j]) + multiset(qs[j + 1..]);
    assert multiset(bs) == multiset{x} + multiset(bs[1..]);
    assert multiset(bs[1..]) == multiset(bs) - multiset{x};
    assert multiset(rest) == multiset(qs) - multiset{x};
  }

  /** Putting one element back in the middle of a list adds it to the multiset. */
  lemma MultisetInsert(pre: seq<Result<Analysis>>, r: Result<Analysis>, post: seq<Result<Analysis>>,
                       rs: seq<Result<Analysis>>)
    requires multiset(rs) == multiset(pre + post)
    ensures multiset([r] + rs) == multiset(pre + [r] + post)
  {
  }

  /** The branch analyses of two lists holding the same schemas hold the same results. */
  lemma {:induction false} BranchesPermutation(doc: Value, bs: seq<Value>, qs: seq<Value>, visited: set<string>, depth: nat)
    requires multiset(bs) == multiset(qs)
    ensures multiset(Branches(doc, bs, visited, depth)) == multiset(Branches(doc, qs, visited, depth))
    decreases |bs|
  {
    if bs == [] {
      assert |qs| == |multiset(qs)|;
    } else {
      var j := PermutationHead(bs, qs);
      var pre, post := qs[..j], qs[j + 1..];
      BranchesPermutation(doc, bs[1..], pre + post, visited, depth);
      assert bs == [bs[0]] + bs[1..];
      assert qs == pre + [qs[j]] + post;
      BranchesConcat(doc, [bs[0]], bs[1..], visited, depth);
      BranchesConcat(doc, pre, post, visited, depth);
      BranchesConcat(doc, pre + [qs[j]], post, visited, depth);
      BranchesConcat(doc, pre, [qs[j]], visited, depth);
      MultisetInsert(Branches(doc, pre, visited, depth), Analyze(doc, bs[0], visited, depth),
                     Branches(doc, post, visited, depth), Branches(doc, bs[1..], visited, depth));
    }
  }

  // ---------------------------------------------------------------------------
  // References.

  /** A reference already on the path is a cycle: the walk stops there, having
      reached `depth` with no field. */
  lemma CycleStops(doc: Value, schema: Value, visited: set<string>, depth: nat, ref: string)
    requires Get(schema, "$ref") == Str(ref) && ref != "" && ref in visited
    ensures Analyze(doc, schema, visited, depth) == Ok(Analysis(0, depth))
  {
    NamedGet(schema, "$ref");
  }

  /** A new reference is transparent: the schema analyses as its target at the
      same depth, with the reference recorded, whatever else the schema holds. */
  lemma ReferenceFollowed(doc: Value, schema: Value, visited: set<string>, depth: nat, ref: string)
    requires Get(schema, "$ref") == Str(ref) && ref != "" && ref !in visited
    ensures Analyze(doc, schema, visited, depth)
         == Analyze(doc, Pointer.Resolve(doc, ref), visited + {ref}, depth)
  {
    NamedGet(schema, "$ref");
  }

  /** A schema that refers to itself counts nothing and reaches `depth`. */
  lemma SelfReference(doc: Value, schema: Value, visited: set<string>, depth: nat, ref: string)
    requires Get(schema, "$ref") == Str(ref) && ref != "" && ref !in visited
    requires Pointer.Resolve(doc, ref) == schema
    ensures Analyze(doc, schema, visited, depth) == Ok(Analysis(0, depth))
  {
    ReferenceFollowed(doc, schema, visited, depth, ref);
    CycleStops(doc, schema, visited + {ref}, depth, ref);
  }

  /** A reference that designates nothing in the document contributes nothing. */
  lemma DanglingReference(doc: Value, schema: Value, visited: set<string>, depth: nat, ref: string)
    requires Get(schema, "$ref") == Str(ref) && ref != "" && ref !in visited
    requires Pointer.Resolve(doc, ref) == Undefined
    ensures Analyze(doc, schema, visited, depth) == Ok(Analysis(0, 0))
  {
    ReferenceFollowed(doc, schema, visited, depth, ref);
  }

  // ---------------------------------------------------------------------------
  // Compositions.

  /** The composition rule for `key` applies: no `$ref`, no earlier keyword, and
      a truthy list under `key`. */
  predicate ComposedBy(schema: Value, key: string) {
    && !Truthy(Get(schema, "$ref"))
    && (key == "allOf" || key == "oneOf" || key == "anyOf")
    && (key != "allOf" ==> !Truthy(Get(schema, "allOf")))
    && (key == "anyOf" ==> !Truthy(Get(schema, "oneOf")))
    && Truthy(Get(schema, key))
  }

  /** The composition rule decides when it applies. */
  lemma ComposedRule(doc: Value, schema: Value, key: string, visited: set<string>, depth: nat)
    requires ComposedBy(schema, key)
    ensures Analyze(doc, schema, visited, depth) == AnalyzeComposition(doc, schema, key, visited, depth)
  {
    NamedGet(schema, key);
  }

  /** A composition whose list cannot be iterated is a TypeError. */
  lemma CompositionNotIterable(doc: Value, schema: Value, key: string, visited: set<string>, depth: nat)
    requires ComposedBy(schema, key) && ForOf(Get(schema, key)).None?
    ensures Analyze(doc, schema, visited, depth) == Err(TypeError)
  {
    ComposedRule(doc, schema, key, visited, depth);
  }

  /** A composition combines the separate analyses of its branches `bs`: summed
      for `allOf`, maximised for `oneOf` and `anyOf`. */
  lemma CompositionOfBranches(doc: Value, schema: Value, key: string, bs: seq<Value>, visited: set<string>, depth: nat)
    requires ComposedBy(schema, key) && ForOf(Get(schema, key)) == Some(bs)
    ensures Analyze(doc, schema, visited, depth)
         == (if key == "allOf" then AllOfResult(Branches(doc, bs, visited, depth), depth)
             else OneOfResult(Branches(doc, bs, visited, depth), depth))
  {
    ComposedRule(doc, schema, key, visited, depth);
    CombinedBranches(doc, schema, key, bs, visited, depth);
  }

  /** The combination the composition rule computes, over the branch analyses. */
  lemma CombinedBranches(doc: Value, schema: Value, key: string, bs: seq<Value>, visited: set<string>, depth: nat)
    requires (key == "allOf" || key == "oneOf" || key == "anyOf") && ForOf(Get(schema, key)) == Some(bs)
    ensures AnalyzeComposition(doc, schema, key, visited, depth)
         == (if key == "allOf" then AllOfResult(Branches(doc, bs, visited, depth), depth)
             else OneOfResult(Branches(doc, bs, visited, depth), depth))
  {
    PartsBound(schema, key);
    BranchResultsAre(doc, bs, visited, depth, Refs(schema), Size(schema) - 1);
  }

  /** A one-member object has that member and no other. */
  lemma SingleMember(key: string, x: Value, k: string)
    ensures Get(Obj([(key, x)]), k) == (if k == key then x else Undefined)
  {
    var es := [(key, x)];
    assert Entries(Obj(es)) == es;
    assert es[1..] == [];
    assert Lookup(es, k) == if k == key then x else Lookup([], k);
  }

  /** A key that differs from the one member in its first character is absent. */
  lemma SingleAbsent(key: string, x: Value, k: string)
    requires |k| >= 1 && |key| >= 1 && k[0] != key[0]
    ensures Get(Obj([(key, x)]), k) == Undefined
  {
    SingleMember(key, x, k);
  }

  /** An object holding nothing but a truthy composition list is composed by it. */
  lemma ComposedAlone(key: string, x: Value)
    requires key == "allOf" || key == "oneOf" || key == "anyOf"
    requires Truthy(x)
    ensures ComposedBy(Obj([(key, x)]), key)
  {
    SingleMember(key, x, key);
    SingleMember(key, x, "$ref");
    SingleMember(key, x, "allOf");
    SingleMember(key, x, "oneOf");
    assert "$ref"[0] != key[0];
    if key != "allOf" {
      assert key[1] != "allOf"[1];
    }
    if key == "anyOf" {
      assert key[0] != "oneOf"[0];
    }
  }

  /** The first composition keyword that applies decides alone: the schema
      analyses as one holding nothing but that keyword's list, so `allOf` hides
      `oneOf` and `anyOf`, `oneOf` hides `anyOf`, and a composition hides
      `type`, `items` and `properties`. */
  lemma CompositionPrecedence(doc: Value, schema: Value, key: string, visited: set<string>, depth: nat)
    requires ComposedBy(schema, key)
    ensures Analyze(doc, schema, visited, depth) == Analyze(doc, Obj([(key, Get(schema, key))]), visited, depth)
  {
    var alone := Obj([(key, Get(schema, key))]);
    SingleMember(key, Get(schema, key), key);
    ComposedAlone(key, Get(schema, key));
    match ForOf(Get(schema, key))
    case None =>
      CompositionNotIterable(doc, schema, key, visited, depth);
      CompositionNotIterable(doc, alone, key, visited, depth);
    case Some(bs) =>
      CompositionOfBranches(doc, schema, key, bs, visited, depth);
      CompositionOfBranches(doc, alone, key, bs, visited, depth);
  }

  /** The values `for ... of` visits in an array are its elements. */
  lemma ArrayValues(bs: seq<Value>)
    ensures ForOf(Arr(bs)) == Some(bs)
  {
    assert Values(Arr(bs)) == bs;
  }

  /** A composition written out as an array: the combination of the analyses
      of its elements. */
  lemma ListedBranches(doc: Value, key: string, bs: seq<Value>, visited: set<string>, depth: nat)
    requires key == "allOf" || key == "oneOf" || key == "anyOf"
    ensures var rs := Branches(doc, bs, visited, depth);
      Analyze(doc, Obj([(key, Arr(bs))]), visited, depth)
        == (if key == "allOf" then AllOfResult(rs, depth) else OneOfResult(rs, depth))
  {
    SingleMember(key, Arr(bs), key);
    ComposedAlone(key, Arr(bs));
    ArrayValues(bs);
    CompositionOfBranches(doc, Obj([(key, Arr(bs))]), key, bs, visited, depth);
  }

  /** Reordering the branches of a composition does not change its analysis. */
  lemma BranchOrderIrrelevant(doc: Value, key: string, bs: seq<Value>, qs: seq<Value>, visited: set<string>, depth: nat)
    requires key == "allOf" || key == "oneOf" || key == "anyOf"
    requires multiset(bs) == multiset(qs)
    ensures Analyze(doc, Obj([(key, Arr(bs))]), visited, depth) == Analyze(doc, Obj([(key, Arr(qs))]), visited, depth)
  {
    ListedBranches(doc, key, bs, visited, depth);
    ListedBranches(doc, key, qs, visited, depth);
    BranchesPermutation(doc, bs, qs, visited, depth);
    CompositionOrderIrrelevant(Branches(doc, bs, visited, depth), Branches(doc, qs, visited, depth), depth);
  }

  /** An `allOf` counts the fields of all its branches and reaches the deepest of
      them, and at least `depth`, when every branch succeeds. */
  lemma AllOfTotals(doc: Value, bs: seq<Value>, visited: set<string>, depth: nat)
    requires forall i :: 0 <= i < |bs| ==> Analyze(doc, bs[i], visited, depth).Ok?
    ensures var r := Analyze(doc, Obj([("allOf", Arr(bs))]), visited, depth);
      && r.Ok?
      && r.value.fieldCount == FieldSum(Branches(doc, bs, visited, depth))
      && r.value.maxDepth >= depth
      && (forall i :: 0 <= i < |bs| ==> r.value.maxDepth >= Analyze(doc, bs[i], visited, depth).value.maxDepth)
      && (r.value.maxDepth == depth || exists i :: 0 <= i < |bs| && r.value.maxDepth == Analyze(doc, bs[i], visited, depth).value.maxDepth)
  {
    var rs := Branches(doc, bs, visited, depth);
    ListedBranches(doc, "allOf", bs, visited, depth);
    assert forall i :: 0 <= i < |bs| ==> rs[i] == Analyze(doc, bs[i], visited, depth);
    assert AllOk(rs);
    DepthMaxIsMaximum(depth, rs);
  }

  /** A `oneOf`, or an `anyOf`, counts the fields of its largest branch and
      reaches the deepest of `depth` and its branches, when every branch succeeds. */
  lemma OneOfLargest(doc: Value, key: string, bs: seq<Value>, visited: set<string>, depth: nat)
    requires key == "oneOf" || key == "anyOf"
    requires forall i :: 0 <= i < |bs| ==> Analyze(doc, bs[i], visited, depth).Ok?
    ensures var r := Analyze(doc, Obj([(key, Arr(bs))]), visited, depth);
      && r.Ok?
      && (forall i :: 0 <= i < |bs| ==> r.value.fieldCount >= Analyze(doc, bs[i], visited, depth).value.fieldCount)
      && (r.value.fieldCount == 0 || exists i :: 0 <= i < |bs| && r.value.fieldCount == Analyze(doc, bs[i], visited, depth).value.fieldCount)
      && r.value.maxDepth >= depth
      && (forall i :: 0 <= i < |bs| ==> r.value.maxDepth >= Analyze(doc, bs[i], visited, depth).value.maxDepth)
      && (r.value.maxDepth == depth || exists i :: 0 <= i < |bs| && r.value.maxDepth == Analyze(doc, bs[i], visited, depth).value.maxDepth)
  {
    var rs := Branches(doc, bs, visited, depth);
    ListedBranches(doc, key, bs, visited, depth);
    assert forall i :: 0 <= i < |bs| ==> rs[i] == Analyze(doc, bs[i], visited, depth);
    assert AllOk(rs);
    FieldMaxIsMaximum(rs);
    DepthMaxIsMaximum(depth, rs);
  }

  /** A failing branch fails the whole composition. */
  lemma FailingBranch(doc: Value, key: string, bs: seq<Value>, visited: set<string>, depth: nat, i: nat)
    requires key == "allOf" || key == "oneOf" || key == "anyOf"
    requires i < |bs| && Analyze(doc, bs[i], visited, depth).Err?
    ensures Analyze(doc, Obj([(key, Arr(bs))]), visited, depth) == Err(TypeError)
  {
    ListedBranches(doc, key, bs, visited, depth);
    var rs := Branches(doc, bs, visited, depth);
    assert rs[i] == Analyze(doc, bs[i], visited, depth);
    assert !AllOk(rs);
  }

  // ---------------------------------------------------------------------------
  // Arrays, objects and everything else.

  /** An array schema with items is the analysis of its items one level deeper,
      unchanged. */
  lemma ArrayPassesItems(doc: Value, schema: Value, visited: set<string>, depth: nat)
    requires !Truthy(Get(schema, "$ref")) && !Truthy(Get(schema, "allOf"))
    requires !Truthy(Get(schema, "oneOf")) && !Truthy(Get(schema, "anyOf"))
    requires Get(schema, "type") == Str("array") && Truthy(Get(schema, "items"))
    ensures Analyze(doc, schema, visited, depth) == Analyze(doc, Get(schema, "items"), visited, depth + 1)
  {
    NamedGet(schema, "type");
  }

  /** An absent (falsy) schema counts nothing and reaches no level. */
  lemma Absent(doc: Value, schema: Value, visited: set<string>, depth: nat)
    requires !Truthy(schema)
    ensures Analyze(doc, schema, visited, depth) == Ok(Analysis(0, 0))
  {
  }

  /** An absent schema, and any schema that is neither a reference, a
      composition, an array with items nor an object, counts nothing. */
  lemma PrimitiveCountsNothing(doc: Value, schema: Value, visited: set<string>, depth: nat)
    requires !Truthy(Get(schema, "$ref")) && !Truthy(Get(schema, "allOf"))
    requires !Truthy(Get(schema, "oneOf")) && !Truthy(Get(schema, "anyOf"))
    requires !(Get(schema, "type") == Str("array") && Truthy(Get(schema, "items")))
    requires Get(schema, "type") != Str("object") && !Truthy(Get(schema, "properties"))
    ensures Analyze(doc, schema, visited, depth) == Ok(Analysis(0, 0))
  {
  }

  /** The object rule applies: no `$ref`, no composition, not an array with items,
      and either typed object or with truthy `properties`. */
  predicate ObjectRule(schema: Value) {
    && !Truthy(Get(schema, "$ref")) && !Truthy(Get(schema, "allOf"))
    && !Truthy(Get(schema, "oneOf")) && !Truthy(Get(schema, "anyOf"))
    && !(Get(schema, "type") == Str("array") && Truthy(Get(schema, "items")))
    && (Get(schema, "type") == Str("object") || Truthy(Get(schema, "properties")))
  }

  /** An object counts one field per property plus what each structural property
      holds, reaches the deepest property one level down, and adds
      `additionalProperties` when it is an object. */
  lemma ObjectOfProperties(doc: Value, schema: Value, visited: set<string>, depth: nat)
    requires ObjectRule(schema)
    ensures var ps := PropertySchemas(schema);
      Analyze(doc, schema, visited, depth)
        == ObjectResult(PropertiesResult(ps, Branches(doc, ps, visited, depth + 1), depth),
                        AdditionalResult(doc, schema, visited, depth))
  {
    ObjectRuleDecides(doc, schema, visited, depth);
    PropertyAnalyses(doc, schema, visited, depth);
  }

  lemma ObjectRuleDecides(doc: Value, schema: Value, visited: set<string>, depth: nat)
    requires ObjectRule(schema)
    ensures Analyze(doc, schema, visited, depth) == AnalyzeObject(doc, schema, visited, depth)
  {
    NamedGet(schema, "type");
    NamedGet(schema, "properties");
  }

  /** The properties of an object combine the separate analyses of the property schemas. */
  lemma PropertyAnalyses(doc: Value, schema: Value, visited: set<string>, depth: nat)
    ensures var ps := PropertySchemas(schema);
      AnalyzeProperties(doc, schema, visited, depth) == PropertiesResult(ps, Branches(doc, ps, visited, depth + 1), depth)
  {
    PartsBound(schema, "properties");
    BranchResultsAre(doc, PropertySchemas(schema), visited, depth + 1, Refs(schema), Size(schema) - 1);
  }

  /** A successfully analysed object counts at least one field per property, and
      reaches at least `depth` when it has one. */
  lemma PropertiesCounted(doc: Value, schema: Value, visited: set<string>, depth: nat)
    requires ObjectRule(schema)
    requires Analyze(doc, schema, visited, depth).Ok?
    ensures var r := Analyze(doc, schema, visited, depth);
      && r.value.fieldCount >= |PropertySchemas(schema)|
      && (|PropertySchemas(schema)| > 0 ==> r.value.maxDepth >= depth)
  {
    ObjectOfProperties(doc, schema, visited, depth);
  }

  /** Properties that each count nothing and reach no level give one field per
      property, at `depth` when there is one. */
  lemma LeafProperties(ps: seq<Value>, rs: seq<Result<Analysis>>, depth: nat)
    requires |ps| == |rs|
    requires forall i :: 0 <= i < |rs| ==> rs[i] == Ok(Analysis(0, 0))
    ensures PropertiesResult(ps, rs, depth) == Ok(Analysis(|ps|, if |ps| > 0 then depth else 0))
  {
    NothingNested(ps, rs);
    var base := if |ps| > 0 then depth else 0;
    DepthMaxIsMaximum(base, rs);
  }

  lemma {:induction false} NothingNested(ps: seq<Value>, rs: seq<Result<Analysis>>)
    requires |ps| == |rs|
    requires forall i :: 0 <= i < |rs| ==> rs[i].Ok? && rs[i].value.fieldCount == 0
    ensures NestedSum(ps, rs) == 0
  {
    if ps != [] {
      NothingNested(ps[..|ps| - 1], rs[..|rs| - 1]);
    }
  }

  /** An object with a single property counts it, plus what it holds when it
      is structural. */
  lemma SingleProperty(p: Value, r: Result<Analysis>, depth: nat)
    requires r.Ok?
    ensures PropertiesResult([p], [r], depth) == Ok(Analysis(1 + Nested(p, r), Max(depth, r.value.maxDepth)))
  {
    var ps, rs := [p], [r];
    assert ps[..|ps| - 1] == [] && rs[..|rs| - 1] == [];
    assert NestedSum(ps, rs) == Nested(p, r);
    assert DepthMax(depth, rs) == Max(depth, r.value.maxDepth);
    assert AllOk(rs);
  }

  /** A composition of a single branch that succeeds is that branch, raised to `depth`. */
  lemma SingleBranch(r: Result<Analysis>, depth: nat)
    requires r.Ok?
    ensures AllOfResult([r], depth) == OneOfResult([r], depth) == Ok(Analysis(r.value.fieldCount, Max(depth, r.value.maxDepth)))
  {
    var rs := [r];
    assert rs[..|rs| - 1] == [];
    assert FieldSum(rs) == FieldMax(rs) == r.value.fieldCount;
    assert DepthMax(depth, rs) == Max(depth, r.value.maxDepth);
    assert AllOk(rs);
  }

  /** `{type: 'string'}` */
  const StringSchema: Value := Obj([("type", Str("string"))])

  /** A string property counts nothing of its own. */
  lemma StringCountsNothing(doc: Value, visited: set<string>, depth: nat)
    ensures Analyze(doc, StringSchema, visited, depth) == Ok(Analysis(0, 0))
  {
    SingleAbsent("type", Str("string"), "$ref");
    SingleAbsent("type", Str("string"), "allOf");
    SingleAbsent("type", Str("string"), "oneOf");
    SingleAbsent("type", Str("string"), "anyOf");
    SingleAbsent("type", Str("string"), "items");
    SingleAbsent("type", Str("string"), "properties");
    SingleMember("type", Str("string"), "type");
    PrimitiveCountsNothing(doc, StringSchema, visited, depth);
  }

  /** A two-member object has those members and no other. */
  lemma PairMembers(k1: string, x1: Value, k2: string, x2: Value, k: string)
    ensures Get(Obj([(k1, x1), (k2, x2)]), k) == (if k == k1 then x1 else if k == k2 then x2 else Undefined)
  {
    var es := [(k1, x1), (k2, x2)];
    assert Entries(Obj(es)) == es;
    assert es[1..] == [(k2, x2)];
    assert es[1..][1..] == [];
    assert Lookup(es[1..], k) == if k == k2 then x2 else Lookup([], k);
  }

  /** A key that differs from both members, already in one of its first two
      characters, is absent. */
  lemma PairAbsent(k1: string, x1: Value, k2: string, x2: Value, k: string)
    requires |k| >= 2 && |k1| >= 2 && |k2| >= 2
    requires k[0] != k1[0] || k[1] != k1[1]
    requires k[0] != k2[0] || k[1] != k2[1]
    ensures Get(Obj([(k1, x1), (k2, x2)]), k) == Undefined
  {
    PairMembers(k1, x1, k2, x2, k);
  }

  /** `{type: 'object', properties: {...props}}` */
  function ObjectSchema(props: seq<(string, Value)>): Value {
    Obj([("type", Str("object")), ("properties", Obj(props))])
  }

  /** Such a schema has its two members and no other. */
  lemma ObjectSchemaMembers(props: seq<(string, Value)>)
    ensures Get(ObjectSchema(props), "type") == Str("object")
    ensures Get(ObjectSchema(props), "properties") == Obj(props)
    ensures Get(ObjectSchema(props), "$ref") == Get(ObjectSchema(props), "allOf") == Undefined
    ensures Get(ObjectSchema(props), "oneOf") == Get(ObjectSchema(props), "anyOf") == Undefined
    ensures Get(ObjectSchema(props), "items") == Get(ObjectSchema(props), "additionalProperties") == Undefined
  {
    var t, ps := Str("object"), Obj(props);
    PairAbsent("type", t, "properties", ps, "$ref");
    PairAbsent("type", t, "properties", ps, "allOf");
    PairAbsent("type", t, "properties", ps, "oneOf");
    PairAbsent("type", t, "properties", ps, "anyOf");
    PairAbsent("type", t, "properties", ps, "items");
    PairAbsent("type", t, "properties", ps, "additionalProperties");
    PairMembers("type", t, "properties", ps, "type");
    PairMembers("type", t, "properties", ps, "properties");
  }

  /** The object rule applies to such a schema, its property schemas are the
      listed ones, and it has no `additionalProperties`. */
  lemma ObjectSchemaShape(doc: Value, props: seq<(string, Value)>, visited: set<string>, depth: nat)
    ensures ObjectRule(ObjectSchema(props))
    ensures PropertySchemas(ObjectSchema(props)) == Values(Obj(props))
    ensures AdditionalResult(doc, ObjectSchema(props), visited, depth) == None
  {
    ObjectSchemaMembers(props);
  }

  /** `{type: 'object', properties: {a: {type: 'string'}, b: {type: 'string'}}}`
      has two fields and reaches the level it is analysed at. */
  lemma TwoStringProperties(doc: Value, visited: set<string>, depth: nat)
    ensures Analyze(doc, ObjectSchema([("a", StringSchema), ("b", StringSchema)]), visited, depth)
         == Ok(Analysis(2, depth))
  {
    var props := [("a", StringSchema), ("b", StringSchema)];
    ObjectSchemaShape(doc, props, visited, depth);
    ObjectOfProperties(doc, ObjectSchema(props), visited, depth);
    var ps := Values(Obj(props));
    assert ps == [StringSchema, StringSchema];
    StringCountsNothing(doc, visited, depth + 1);
    LeafProperties(ps, Branches(doc, ps, visited, depth + 1), depth);
  }

  /** `{type: 'object', properties: {x: {type: 'string'}}}` */
  const Inner: Value := ObjectSchema([("x", StringSchema)])

  /** An object with one string property has one field at the level it is
      analysed at. */
  lemma OneStringProperty(doc: Value, visited: set<string>, depth: nat)
    ensures Analyze(doc, Inner, visited, depth) == Ok(Analysis(1, depth))
  {
    var props := [("x", StringSchema)];
    ObjectSchemaShape(doc, props, visited, depth);
    ObjectOfProperties(doc, Inner, visited, depth);
    assert Values(Obj(props)) == [StringSchema];
    StringCountsNothing(doc, visited, depth + 1);
    LeafProperties([StringSchema], Branches(doc, [StringSchema], visited, depth + 1), depth);
  }

  /** `{type: 'object', properties: {a: <Inner>}}` has two fields, its own and
      the nested one, and reaches one level deeper. */
  lemma NestedObjectProperty(doc: Value, visited: set<string>, depth: nat)
    ensures Analyze(doc, ObjectSchema([("a", Inner)]), visited, depth) == Ok(Analysis(2, depth + 1))
  {
    var props := [("a", Inner)];
    ObjectSchemaShape(doc, props, visited, depth);
    ObjectOfProperties(doc, ObjectSchema(props), visited, depth);
    assert Values(Obj(props)) == [Inner];
    OneStringProperty(doc, visited, depth + 1);
    assert Branches(doc, [Inner], visited, depth + 1) == [Ok(Analysis(1, depth + 1))];
    ObjectSchemaShape(doc, [("x", StringSchema)], visited, depth + 1);
    assert Structural(Inner);
    SingleProperty(Inner, Ok(Analysis(1, depth + 1)), depth);
  }

  /** A property that is only an `allOf` adds its depth but not its fields: the
      guard of line 98 looks for `type`, `$ref` or `properties` on the property
      itself. */
  lemma CompositionPropertyNotCounted(doc: Value, visited: set<string>, depth: nat)
    ensures Analyze(doc, ObjectSchema([("a", Obj([("allOf", Arr([Inner]))]))]), visited, depth)
         == Ok(Analysis(1, depth + 1))
  {
    var a := Obj([("allOf", Arr([Inner]))]);
    var props := [("a", a)];
    ObjectSchemaShape(doc, props, visited, depth);
    ObjectOfProperties(doc, ObjectSchema(props), visited, depth);
    assert Values(Obj(props)) == [a];
    ListedBranches(doc, "allOf", [Inner], visited, depth + 1);
    OneStringProperty(doc, visited, depth + 1);
    var r := Ok(Analysis(1, depth + 1));
    assert Branches(doc, [Inner], visited, depth + 1) == [r];
    SingleBranch(r, depth + 1);
    assert Branches(doc, [a], visited, depth + 1) == [r];
    SingleAbsent("allOf", Arr([Inner]), "type");
    SingleAbsent("allOf", Arr([Inner]), "$ref");
    SingleAbsent("allOf", Arr([Inner]), "properties");
    assert !Structural(a);
    SingleProperty(a, r, depth);
  }

  /** `{type: 'object', additionalProperties: extra}` */
  function OpenObject(extra: Value): Value {
    Obj([("type", Str("object")), ("additionalProperties", extra)])
  }

  /** Such a schema has its two members and no other. */
  lemma OpenObjectMembers(extra: Value)
    ensures Get(OpenObject(extra), "type") == Str("object")
    ensures Get(OpenObject(extra), "additionalProperties") == extra
    ensures Get(OpenObject(extra), "$ref") == Get(OpenObject(extra), "allOf") == Undefined
    ensures Get(OpenObject(extra), "oneOf") == Get(OpenObject(extra), "anyOf") == Undefined
    ensures Get(OpenObject(extra), "items") == Get(OpenObject(extra), "properties") == Undefined
  {
    var t := Str("object");
    PairAbsent("type", t, "additionalProperties", extra, "$ref");
    PairAbsent("type", t, "additionalProperties", extra, "allOf");
    PairAbsent("type", t, "additionalProperties", extra, "oneOf");
    PairAbsent("type", t, "additionalProperties", extra, "anyOf");
    PairAbsent("type", t, "additionalProperties", extra, "items");
    PairAbsent("type", t, "additionalProperties", extra, "properties");
    PairMembers("type", t, "additionalProperties", extra, "type");
    PairMembers("type", t, "additionalProperties", extra, "additionalProperties");
  }

  /** Such a schema is an object without properties. */
  lemma OpenObjectShape(extra: Value)
    ensures ObjectRule(OpenObject(extra))
    ensures PropertySchemas(OpenObject(extra)) == []
    ensures Get(OpenObject(extra), "additionalProperties") == extra
  {
    OpenObjectMembers(extra);
  }

  /** `additionalProperties: true` is not an object and adds nothing. */
  lemma AdditionalFlagIgnored(doc: Value, visited: set<string>, depth: nat)
    ensures Analyze(doc, OpenObject(Bool(true)), visited, depth) == Ok(Analysis(0, 0))
  {
    OpenObjectShape(Bool(true));
    ObjectOfProperties(doc, OpenObject(Bool(true)), visited, depth);
  }

  /** An object under `additionalProperties` adds its whole count, one level deeper. */
  lemma AdditionalObjectCounted(doc: Value, visited: set<string>, depth: nat)
    ensures Analyze(doc, OpenObject(Inner), visited, depth) == Ok(Analysis(1, depth + 1))
  {
    OpenObjectShape(Inner);
    ObjectOfProperties(doc, OpenObject(Inner), visited, depth);
    OneStringProperty(doc, visited, depth + 1);
  }

  // ---------------------------------------------------------------------------
  // A recursive component.

  const NodeRef: string := "#/components/schemas/Node"

  /** `{$ref: '#/components/schemas/Node'}` */
  const NodeLink: Value := Obj([("$ref", Str(NodeRef))])

  /** `Node`: an object whose one property `next` refers back to `Node`. */
  const Node: Value := ObjectSchema([("next", NodeLink)])

  /** A document declaring `Node` under `components.schemas`. */
  const NodeDocument: Value := Obj([("components", Obj([("schemas", Obj([("Node", Node)]))]))])

  /** The reference designates `Node`. */
  lemma NodeResolves()
    ensures Pointer.Resolve(NodeDocument, NodeRef) == Node
  {
    assert NodeRef == "#/components/schemas/" + "Node";
    Pointer.ResolveComponent(NodeDocument, "Node");
    SingleMember("components", Obj([("schemas", Obj([("Node", Node)]))]), "components");
    SingleMember("schemas", Obj([("Node", Node)]), "schemas");
    SingleMember("Node", Node, "Node");
  }

  /** Once its reference is on the path, `Node` counts its one field and the
      reference back to it stops one level down. */
  lemma NodeCounts(seen: set<string>, depth: nat)
    requires NodeRef in seen
    ensures Analyze(NodeDocument, Node, seen, depth) == Ok(Analysis(1, depth + 1))
  {
    var props := [("next", NodeLink)];
    ObjectSchemaShape(NodeDocument, props, seen, depth);
    ObjectOfProperties(NodeDocument, Node, seen, depth);
    assert Values(Obj(props)) == [NodeLink];
    SingleMember("$ref", Str(NodeRef), "$ref");
    CycleStops(NodeDocument, NodeLink, seen, depth + 1, NodeRef);
    var r := Ok(Analysis(0, depth + 1));
    assert Branches(NodeDocument, [NodeLink], seen, depth + 1) == [r];
    SingleProperty(NodeLink, r, depth);
  }

  /** A self-recursive component terminates: `Node` counts its one field, and
      the reference back to it stops one level down. */
  lemma RecursiveComponent(visited: set<string>, depth: nat)
    requires NodeRef !in visited
    ensures Analyze(NodeDocument, NodeLink, visited, depth) == Ok(Analysis(1, depth + 1))
  {
    SingleMember("$ref", Str(NodeRef), "$ref");
    ReferenceFollowed(NodeDocument, NodeLink, visited, depth, NodeRef);
    NodeResolves();
    NodeCounts(visited + {NodeRef}, depth);
  }
}
