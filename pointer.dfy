/** `resolveRef` (src/lib/openapi-parser.ts:24-31): turning a same-document
    reference such as `#/components/schemas/Pet` into key segments and walking
    the document along them. The string primitives it relies on (`replace` with a
    string pattern and `split` with a one-character separator) are modelled here
    as well. */
module Pointer {
  import opened JsValues

  /** `pat` occurs in `s` at position `j`. */
  predicate OccursAt(s: string, pat: string, j: int) {
    0 <= j && j + |pat| <= |s| && s[j..j + |pat|] == pat
  }

  /** `s.indexOf(pat, from)` for a non-empty `pat`: the first position at or after
      `from` where `pat` occurs, or -1. */
  function IndexFrom(s: string, pat: string, from: nat): (r: int)
    ensures r == -1 || (from <= r && OccursAt(s, pat, r))
    ensures forall j :: from <= j && (r == -1 || j < r) ==> !OccursAt(s, pat, j)
    decreases |s| - from
  {
    if from + |pat| > |s| then -1
    else if s[from..from + |pat|] == pat then from
    else IndexFrom(s, pat, from + 1)
  }

  function IndexOf(s: string, pat: string): int {
    IndexFrom(s, pat, 0)
  }

  /** `s.replace(pat, rep)` with a string pattern: only the first occurrence is replaced. */
  function ReplaceFirst(s: string, pat: string, rep: string): string {
    var i := IndexOf(s, pat);
    if i < 0 then s else s[..i] + rep + s[i + |pat|..]
  }

  /** The replacement removes the first occurrence, wherever it is, and leaves every later one. */
  lemma ReplaceFirstAt(pre: string, pat: string, post: string, rep: string)
    requires forall j :: 0 <= j < |pre| ==> !OccursAt(pre + pat + post, pat, j)
    ensures ReplaceFirst(pre + pat + post, pat, rep) == pre + rep + post
  {
    var s := pre + pat + post;
    assert OccursAt(s, pat, |pre|) by {
      assert s[|pre|..|pre| + |pat|] == pat;
    }
    var i := IndexOf(s, pat);
    assert i == |pre|;
    assert s[..i] == pre;
    assert s[i + |pat|..] == post;
  }

  /** `s.split(sep)` with a one-character separator. */
  function Split(s: string, sep: char): (parts: seq<string>)
    ensures |parts| >= 1
    decreases |s|
  {
    var i := IndexOf(s, [sep]);
    if i < 0 then [s] else [s[..i]] + Split(s[i + 1..], sep)
  }

  /** No position before `i` holds the separator when the first occurrence is at `i`. */
  lemma PrefixFree(s: string, sep: char, i: int)
    requires i == IndexOf(s, [sep])
    ensures i < 0 ==> sep !in s
    ensures i >= 0 ==> i < |s| && s[i] == sep && sep !in s[..i]
  {
    forall j | 0 <= j < |s| && (i < 0 || j < i) ensures s[j] != sep {
      assert !OccursAt(s, [sep], j);
      assert s[j..j + 1] == [s[j]];
    }
    if i >= 0 {
      assert s[i..i + 1] == [sep];
    }
  }

  /** No piece of a split contains the separator. */
  lemma {:induction false} SplitSeparatorFree(s: string, sep: char)
    ensures forall k :: 0 <= k < |Split(s, sep)| ==> sep !in Split(s, sep)[k]
    decreases |s|
  {
    var i := IndexOf(s, [sep]);
    PrefixFree(s, sep, i);
    if i >= 0 {
      SplitSeparatorFree(s[i + 1..], sep);
    }
  }

  /** `parts.join(sep)` */
  function Join(parts: seq<string>, sep: char): string {
    if parts == [] then ""
    else if |parts| == 1 then parts[0]
    else parts[0] + [sep] + Join(parts[1..], sep)
  }

  /** Joining a first piece in front of at least one more. */
  lemma JoinCons(p: string, rest: seq<string>, sep: char)
    requires |rest| >= 1
    ensures Join([p] + rest, sep) == p + [sep] + Join(rest, sep)
  {
    assert ([p] + rest)[1..] == rest;
  }

  /** Splitting loses nothing: joining the pieces gives the string back. */
  lemma {:induction false} JoinSplit(s: string, sep: char)
    ensures Join(Split(s, sep), sep) == s
    decreases |s|
  {
    var i := IndexOf(s, [sep]);
    if i >= 0 {
      PrefixFree(s, sep, i);
      var head, tail := s[..i], s[i + 1..];
      var rest := Split(tail, sep);
      assert Split(s, sep) == [head] + rest;
      JoinSplit(tail, sep);
      JoinCons(head, rest, sep);
      assert s == head + [sep] + tail;
    }
  }

  /** Joining pieces free of the separator and splitting again gives the pieces back. */
  lemma {:induction false} SplitJoin(parts: seq<string>, sep: char)
    requires |parts| >= 1
    requires forall i :: 0 <= i < |parts| ==> sep !in parts[i]
    ensures Split(Join(parts, sep), sep) == parts
    decreases |parts|
  {
    var s := Join(parts, sep);
    var p := parts[0];
    if |parts| == 1 {
      forall j | 0 <= j <= |s| - 1 ensures !OccursAt(s, [sep], j) {
        assert s[j..j + 1] == [s[j]];
      }
    } else {
      var rest := Join(parts[1..], sep);
      assert s == p + [sep] + rest;
      forall j | 0 <= j < |p| ensures !OccursAt(s, [sep], j) {
        assert s[j..j + 1] == [p[j]];
      }
      assert OccursAt(s, [sep], |p|) by {
        assert s[|p|..|p| + 1] == [sep];
      }
      assert IndexOf(s, [sep]) == |p|;
      assert s[..|p|] == p;
      assert s[|p| + 1..] == rest;
      SplitJoin(parts[1..], sep);
    }
  }

  /** The key segments of a reference: the first `#/` removed, then split at `/`. */
  function Segments(ref: string): seq<string> {
    Split(ReplaceFirst(ref, "#/", ""), '/')
  }

  /** The value reached from `v` along `parts`, one property read per segment
      (`result = result?.[part]`). */
  function Walk(v: Value, parts: seq<string>): Value {
    if parts == [] then v else Get(Walk(v, parts[..|parts| - 1]), parts[|parts| - 1])
  }

  /** The node a reference designates in `doc`, or undefined. */
  function Resolve(doc: Value, ref: string): Value {
    Walk(doc, Segments(ref))
  }

  /** Once a step of the walk finds nothing, the result is undefined. */
  lemma {:induction false} WalkMissingStep(v: Value, parts: seq<string>, i: nat)
    requires i <= |parts| && Walk(v, parts[..i]) == Undefined
    ensures Walk(v, parts) == Undefined
  {
    if i < |parts| {
      var init := parts[..|parts| - 1];
      assert init[..i] == parts[..i];
      WalkMissingStep(v, init, i);
    } else {
      assert parts[..i] == parts;
    }
  }

  /** A walk ends inside the value it starts from: it is no larger and holds no
      reference the document does not hold. */
  lemma {:induction false} WalkBound(v: Value, parts: seq<string>)
    ensures Size(Walk(v, parts)) <= Size(v)
    ensures Refs(Walk(v, parts)) <= Refs(v)
  {
    if parts != [] {
      var init := parts[..|parts| - 1];
      WalkBound(v, init);
      GetBound(Walk(v, init), parts[|parts| - 1]);
    }
  }

  /** A resolved reference is a part of the document, or undefined. */
  lemma ResolveBound(doc: Value, ref: string)
    ensures Size(Resolve(doc, ref)) <= Size(doc)
    ensures Refs(Resolve(doc, ref)) <= Refs(doc)
  {
    WalkBound(doc, Segments(ref));
  }

  /** A three-segment walk is three property reads. */
  lemma WalkThree(v: Value, a: string, b: string, c: string)
    ensures Walk(v, [a, b, c]) == Get(Get(Get(v, a), b), c)
  {
    assert Walk(v, [a]) == Get(v, a) by {
      assert [a][..0] == [];
    }
    assert Walk(v, [a, b]) == Get(Get(v, a), b) by {
      assert [a, b][..1] == [a];
    }
    assert [a, b, c][..2] == [a, b];
  }

  /** A reference `#/` followed by key segments joined with `/` walks exactly those segments. */
  lemma ResolveSegments(doc: Value, parts: seq<string>)
    requires |parts| >= 1
    requires forall i :: 0 <= i < |parts| ==> '/' !in parts[i]
    ensures Segments("#/" + Join(parts, '/')) == parts
    ensures Resolve(doc, "#/" + Join(parts, '/')) == Walk(doc, parts)
  {
    var path := Join(parts, '/');
    ReplaceFirstAt([], "#/", path, "");
    assert "#/" + path == [] + "#/" + path;
    assert [] + "" + path == path;
    SplitJoin(parts, '/');
  }

  /** `#/components/schemas/<name>` reads `components`, then `schemas`, then `name`. */
  lemma ResolveComponent(doc: Value, name: string)
    requires '/' !in name
    ensures Resolve(doc, "#/components/schemas/" + name)
         == Get(Get(Get(doc, "components"), "schemas"), name)
  {
    var parts := ["components", "schemas", name];
    var inner := "schemas" + "/" + name;
    assert Join(parts[1..], '/') == inner by {
      assert parts[1..] == ["schemas", name];
      assert parts[1..][1..] == [name];
    }
    assert Join(parts, '/') == "components" + "/" + inner;
    assert "#/components/schemas/" + name == "#/" + ("components" + "/" + inner);
    ResolveSegments(doc, parts);
    WalkThree(doc, "components", "schemas", name);
  }

  /** A reference that does not start with `#/` still loses its first `#/`,
      so "a#/b" designates the key "ab". */
  lemma UnanchoredMarker(doc: Value)
    ensures Resolve(doc, "a#/b") == Get(doc, "ab")
  {
    var s := "a" + "#/" + "b";
    assert s == "a#/b";
    assert !OccursAt(s, "#/", 0) by {
      assert s[0..2][0] == 'a';
    }
    ReplaceFirstAt("a", "#/", "b", "");
    assert ReplaceFirst("a#/b", "#/", "") == "ab";
    assert Join(["ab"], '/') == "ab";
    SplitJoin(["ab"], '/');
    assert Segments("a#/b") == ["ab"];
    assert Walk(doc, ["ab"]) == Get(Walk(doc, []), "ab") by {
      assert ["ab"][..0] == [];
    }
  }

  /** Only the first `#/` is removed: "#/a/#/b" walks the keys "a", "#" and "b". */
  lemma SecondMarkerKept()
    ensures Segments("#/a/#/b") == ["a", "#", "b"]
  {
    var rest := "a/#/b";
    ReplaceFirstAt([], "#/", rest, "");
    assert "#/a/#/b" == [] + "#/" + rest;
    assert ReplaceFirst("#/a/#/b", "#/", "") == rest;
    var parts := ["a", "#", "b"];
    assert Join(parts, '/') == rest by {
      assert parts[1..] == ["#", "b"];
      assert parts[1..][1..] == ["b"];
      assert Join(["#", "b"], '/') == "#/b";
    }
    SplitJoin(parts, '/');
  }

  /** The loop of `resolveRef`: one property read per segment. */
  method ResolveRef(doc: Value, ref: string) returns (result: Value)
    ensures result == Resolve(doc, ref)
  {
    var parts := Segments(ref);
    result := doc;
    for i := 0 to |parts|
      invariant result == Walk(doc, parts[..i])
    {
      assert parts[..i + 1][..i] == parts[..i];
      result := Get(result, parts[i]);
    }
    assert parts[..|parts|] == parts;
  }
}
