/**
 The pure string assembly of `flattenType` (`filter`, `join`, the `Array<...>`
 and `{ "p": T; ... }` templates), and `Render`: the rendering of a type node
 with no cache at all, which is what the memoised flattener is meant to
 compute.
 */
module Rendering {
  import opened TypeGraph

  /** `parts.join(sep)`: the first part leads, the last part ends it, and every separator adds its length. */
  function Join(parts: seq<string>, sep: string): (r: string)
    ensures |parts| == 0 ==> r == ""
    ensures |parts| > 0 ==> StartsWith(r, parts[0]) && EndsWith(r, parts[|parts| - 1])
    ensures |parts| > 0 ==> |r| >= |parts[0]| + (|parts| - 1) * |sep|
  {
    if |parts| == 0 then ""
    else if |parts| == 1 then parts[0]
    else Join(parts[..|parts| - 1], sep) + sep + parts[|parts| - 1]
  }

  /** `parts.filter((t) => t)`: the empty strings are dropped, the order is kept. */
  function NonEmpty(parts: seq<string>): (r: seq<string>)
    ensures |r| <= |parts|
    ensures forall k :: 0 <= k < |r| ==> r[k] != "" && r[k] in parts
    ensures forall k :: 0 <= k < |parts| && parts[k] != "" ==> parts[k] in r
  {
    if parts == [] then []
    else if parts[|parts| - 1] == "" then NonEmpty(parts[..|parts| - 1])
    else NonEmpty(parts[..|parts| - 1]) + [parts[|parts| - 1]]
  }

  /** The template for an array type: the element's text can be read back from between the brackets. */
  function ArrayOf(element: string): (r: string)
    ensures StartsWith(r, "Array<") && EndsWith(r, ">")
    ensures |r| == |element| + 7 && r[6..|r| - 1] == element
  {
    "Array<" + element + ">"
  }

  /** `"name": T`, the name quoted as it is, without escaping; name and type can be read back. */
  function PropertyEntry(name: string, rendered: string): (r: string)
    ensures |r| == |name| + |rendered| + 4
    ensures r[0] == '"' && r[1..|name| + 1] == name && r[|name| + 1..|name| + 4] == "\": "
    ensures r[|name| + 4..] == rendered
  {
    "\"" + name + "\": " + rendered
  }

  function PropertyEntries(props: seq<Property>, rendered: seq<string>): (r: seq<string>)
    requires |rendered| == |props|
    ensures |r| == |props|
    ensures forall k :: 0 <= k < |props| ==> r[k] == PropertyEntry(props[k].name, rendered[k])
  {
    if props == [] then [] else [PropertyEntry(props[0].name, rendered[0])] + PropertyEntries(props[1..], rendered[1..])
  }

  /** `{ "a": A; "b": B }`, properties in declaration order. */
  function ObjectLiteral(props: seq<Property>, rendered: seq<string>): (r: string)
    requires |rendered| == |props|
    ensures StartsWith(r, "{ ") && EndsWith(r, " }") && r != "{}"
    ensures |props| > 0 ==> Contains(r, PropertyEntry(props[0].name, rendered[0]))
  {
    "{ " + Join(PropertyEntries(props, rendered), "; ") + " }"
  }

  /**
   The cache-free rendering of node `i`: the same tests in the same order as
   `flattenType`, with every sub-type rendered afresh.
   */
  function Render(g: seq<Node>, i: nat): string
    requires WellFormed(g) && i < |g|
    decreases i, 1, 0
  {
    var n := g[i];
    if IsSafe(n.text) then n.text
    else if Erased(n.text) then "any"
    else if n.unionTypes.Some? then
      Join(NonEmpty(RenderAll(g, n.unionTypes.value, i)), " | ")
    else if n.intersectionTypes.Some? then
      Join(NonEmpty(RenderAll(g, n.intersectionTypes.value, i)), " & ")
    else if n.arrayElement.Some? then
      ArrayOf(Render(g, n.arrayElement.value))
    else if n.properties.Some? then
      var props := n.properties.value;
      if |props| == 0 then "{}"
      else ObjectLiteral(props, RenderAll(g, PropertyTypes(props), i))
    else if n.literalValue.Some? then n.literalValue.value
    else if AliasTarget(n).Some? then Render(g, AliasTarget(n).value)
    else n.text
  }

  function RenderAll(g: seq<Node>, ids: seq<nat>, bound: nat): (r: seq<string>)
    requires WellFormed(g) && bound <= |g|
    requires forall k :: 0 <= k < |ids| ==> ids[k] < bound
    ensures |r| == |ids|
    decreases bound, 0, |ids|
  {
    if ids == [] then []
    else RenderAll(g, ids[..|ids| - 1], bound) + [Render(g, ids[|ids| - 1])]
  }

  /**
   Two nodes whose text is equal render equally. Only under this condition is a
   cache keyed by text indistinguishable from no cache.
   */
  ghost predicate Coherent(g: seq<Node>)
  {
    && WellFormed(g)
    && forall i, j :: 0 <= i < |g| && 0 <= j < |g| && g[i].text == g[j].text ==> Render(g, i) == Render(g, j)
  }

  /**
   Joining with a non-empty separator yields the empty string exactly when
   there is nothing to join or the only part is empty.
   */
  lemma {:induction false} JoinEmptyIff(parts: seq<string>, sep: string)
    requires sep != ""
    ensures Join(parts, sep) == "" <==> (|parts| == 0 || (|parts| == 1 && parts[0] == ""))
  {
    if |parts| > 1 {
      assert |Join(parts, sep)| >= |sep|;
    }
  }

  /**
   A union or intersection renders as the empty string exactly when every
   member rendered as the empty string.
   */
  lemma {:induction false} JoinNonEmptyIsEmptyIff(parts: seq<string>, sep: string)
    requires sep != ""
    ensures Join(NonEmpty(parts), sep) == "" <==> forall k :: 0 <= k < |parts| ==> parts[k] == ""
  {
    var r := NonEmpty(parts);
    JoinEmptyIff(r, sep);
    if exists k :: 0 <= k < |parts| && parts[k] != "" {
      var k :| 0 <= k < |parts| && parts[k] != "";
      assert parts[k] in r;
    }
  }
}
