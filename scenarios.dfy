/**
 Two small graphs worked through: a router-like object type rendered end to
 end, and two different types that print the same text and therefore share
 one cache entry.
 */
module Scenarios {
  import opened TypeGraph
  import opened Rendering
  import opened FlattenSpec

  function Leaf(text: string): Node
  {
    Node(text, None, None, None, None, None, None)
  }

  function ObjectNode(text: string, props: seq<Property>): Node
  {
    Node(text, None, None, None, Some(props), None, None)
  }

  function ArrayNode(text: string, element: nat): Node
  {
    Node(text, None, None, Some(element), None, None, None)
  }

  function LiteralNode(text: string, rendered: string): Node
  {
    Node(text, None, None, None, None, Some(rendered), None)
  }


  // ---------------------------------------------------------------------------
  // One step of each function, for a given node shape
  // ---------------------------------------------------------------------------

  lemma ExpandsInOrder(g: seq<Node>, ids: seq<nat>, bound: nat, c: Cache)
    requires WellFormed(g) && bound <= |g| && |ids| > 0
    requires forall k :: 0 <= k < |ids| ==> ids[k] < bound
    ensures var (parts, c1) := FlattenAll(g, ids[..|ids| - 1], bound, c);
      var (s, c2) := Flatten(g, ids[|ids| - 1], c1);
      FlattenAll(g, ids, bound, c) == (parts + [s], c2)
  {
  }

  lemma ExpandsOne(g: seq<Node>, id: nat, bound: nat, c: Cache)
    requires WellFormed(g) && id < bound <= |g|
    ensures FlattenAll(g, [id], bound, c) == ([Flatten(g, id, c).0], Flatten(g, id, c).1)
  {
    ExpandsInOrder(g, [id], bound, c);
    assert [id][..0] == [];
    assert FlattenAll(g, [], bound, c) == ([], c);
    var r := Flatten(g, id, c).0;
    assert [] + [r] == [r];
  }

  lemma ExpandsLiteral(g: seq<Node>, i: nat, c: Cache)
    requires WellFormed(g) && i < |g| && !ShortCircuits(g[i], c)
    requires g[i].literalValue.Some? && g[i] == LiteralNode(g[i].text, g[i].literalValue.value)
    ensures Flatten(g, i, c) == (g[i].literalValue.value, Reserve(c, g[i].text)[g[i].text := g[i].literalValue.value])
  {
  }

  lemma ExpandsArray(g: seq<Node>, i: nat, c: Cache)
    requires WellFormed(g) && i < |g| && !ShortCircuits(g[i], c)
    requires g[i].arrayElement.Some? && g[i] == ArrayNode(g[i].text, g[i].arrayElement.value)
    ensures var (e, c1) := Flatten(g, g[i].arrayElement.value, Reserve(c, g[i].text));
      Flatten(g, i, c) == (ArrayOf(e), c1[g[i].text := ArrayOf(e)])
  {
  }

  lemma ExpandsObject(g: seq<Node>, i: nat, c: Cache)
    requires WellFormed(g) && i < |g| && !ShortCircuits(g[i], c)
    requires g[i].properties.Some? && g[i] == ObjectNode(g[i].text, g[i].properties.value) && |g[i].properties.value| > 0
    ensures var props := g[i].properties.value;
      var (parts, c1) := FlattenAll(g, PropertyTypes(props), i, Reserve(c, g[i].text));
      Flatten(g, i, c) == (ObjectLiteral(props, parts), c1[g[i].text := ObjectLiteral(props, parts)])
  {
  }

  lemma RendersInOrder(g: seq<Node>, ids: seq<nat>, bound: nat)
    requires WellFormed(g) && bound <= |g| && |ids| > 0
    requires forall k :: 0 <= k < |ids| ==> ids[k] < bound
    ensures RenderAll(g, ids, bound) == RenderAll(g, ids[..|ids| - 1], bound) + [Render(g, ids[|ids| - 1])]
  {
  }

  lemma RendersLiteral(g: seq<Node>, i: nat)
    requires WellFormed(g) && i < |g| && !IsSafe(g[i].text) && !Erased(g[i].text)
    requires g[i].literalValue.Some? && g[i] == LiteralNode(g[i].text, g[i].literalValue.value)
    ensures Render(g, i) == g[i].literalValue.value
  {
  }

  lemma RendersObject(g: seq<Node>, i: nat)
    requires WellFormed(g) && i < |g| && !IsSafe(g[i].text) && !Erased(g[i].text)
    requires g[i].properties.Some? && g[i] == ObjectNode(g[i].text, g[i].properties.value) && |g[i].properties.value| > 0
    ensures Render(g, i) == ObjectLiteral(g[i].properties.value, RenderAll(g, PropertyTypes(g[i].properties.value), i))
  {
  }

  lemma EntriesOfOne(props: seq<Property>, rendered: seq<string>)
    requires |props| == 1 && |rendered| == 1
    ensures ObjectLiteral(props, rendered) == "{ " + PropertyEntry(props[0].name, rendered[0]) + " }"
  {
  }

  lemma EntriesOfTwo(props: seq<Property>, rendered: seq<string>)
    requires |props| == 2 && |rendered| == 2
    ensures ObjectLiteral(props, rendered)
         == "{ " + PropertyEntry(props[0].name, rendered[0]) + "; " + PropertyEntry(props[1].name, rendered[1]) + " }"
  {
    var es := PropertyEntries(props, rendered);
    assert es[..1] == [es[0]];
    assert Join(es, "; ") == es[0] + "; " + es[1];
  }

  /** Different renderings give different property entries. */
  lemma EntryDiffers(name: string, x: string, y: string)
    requires x != y
    ensures PropertyEntry(name, x) != PropertyEntry(name, y)
  {
    var prefix := "\"" + name + "\": ";
    assert PropertyEntry(name, x)[|prefix|..] == x;
    assert PropertyEntry(name, y)[|prefix|..] == y;
  }

  /** Two texts that differ only in a middle part differ. */
  lemma InfixDiffers(a: string, x: string, y: string, b: string)
    requires x != y
    ensures a + x + b != a + y + b
  {
    if |x| == |y| {
      var j :| 0 <= j < |x| && x[j] != y[j];
      assert (a + x + b)[|a| + j] == x[j];
      assert (a + y + b)[|a| + j] == y[j];
    }
  }

  // ---------------------------------------------------------------------------
  // A router-like object, end to end
  // ---------------------------------------------------------------------------

  /**
   `{ a: S; b: { c: N; }[]; }` where `S` and `N` are safe names: the outer
   object, an array of inner objects, and the inner object, with texts
   `outer`, `arr` and `inner`.
   */
  function RouterGraph(s: string, n: string, inner: string, arr: string, outer: string): seq<Node>
  {
    [ Leaf(s),
      Leaf(n),
      ObjectNode(inner, [Property("c", 1)]),
      ArrayNode(arr, 2),
      ObjectNode(outer, [Property("a", 0), Property("b", 3)]) ]
  }

  /** The texts of the three expanded nodes are distinct and none is a safe name or an erased shape. */
  ghost predicate Expandable(inner: string, arr: string, outer: string)
  {
    && !IsSafe(inner) && !Erased(inner)
    && !IsSafe(arr) && !Erased(arr)
    && !IsSafe(outer) && !Erased(outer)
    && inner != arr && inner != outer && arr != outer
  }

  lemma RouterGraphShape(g: seq<Node>, s: string, n: string, inner: string, arr: string, outer: string)
    requires g == RouterGraph(s, n, inner, arr, outer)
    ensures WellFormed(g)
    ensures PropertyTypes(g[2].properties.value) == [1] && PropertyTypes(g[4].properties.value) == [0, 3]
  {
  }

  /** The array of inner objects, flattened once the outer key is reserved. */
  lemma RouterArray(g: seq<Node>, s: string, n: string, inner: string, arr: string, outer: string)
    requires g == RouterGraph(s, n, inner, arr, outer)
    requires IsSafe(s) && IsSafe(n) && Expandable(inner, arr, outer)
    ensures WellFormed(g)
    ensures Flatten(g, 3, Reserve(map[], outer)).0 == ArrayOf("{ " + PropertyEntry("c", n) + " }")
    ensures Flatten(g, 3, Reserve(map[], outer)).1.Keys == {outer, arr, inner}
  {
    RouterGraphShape(g, s, n, inner, arr, outer);
    var c := Reserve(map[], outer);
    var c3 := Reserve(c, arr);
    var c2 := Reserve(c3, inner);
    SafePassThrough(g, 1, c2);
    ExpandsOne(g, 1, 2, c2);
    ExpandsObject(g, 2, c3);
    EntriesOfOne(g[2].properties.value, [n]);
    ExpandsArray(g, 3, c);
  }

  /** The two properties of the outer object, flattened in order once its key is reserved. */
  lemma RouterMembers(g: seq<Node>, s: string, n: string, inner: string, arr: string, outer: string)
    requires g == RouterGraph(s, n, inner, arr, outer)
    requires IsSafe(s) && IsSafe(n) && Expandable(inner, arr, outer)
    ensures WellFormed(g)
    ensures FlattenAll(g, [0, 3], 4, Reserve(map[], outer)).0 == [s, ArrayOf("{ " + PropertyEntry("c", n) + " }")]
    ensures FlattenAll(g, [0, 3], 4, Reserve(map[], outer)).1.Keys == {outer, arr, inner}
  {
    RouterGraphShape(g, s, n, inner, arr, outer);
    var c4 := Reserve(map[], outer);
    SafePassThrough(g, 0, c4);
    ExpandsOne(g, 0, 4, c4);
    RouterArray(g, s, n, inner, arr, outer);
    ExpandsInOrder(g, [0, 3], 4, c4);
    assert [0, 3][..1] == [0];
  }

  /**
   An object with a safe-typed property and an array-of-objects property
   renders, from an empty cache, as
   `{ "a": S; "b": Array<{ "c": N }> }`, and the cache ends up holding the
   three expanded texts and no safe name.
   */
  lemma RouterRendersFlat(g: seq<Node>, s: string, n: string, inner: string, arr: string, outer: string)
    requires g == RouterGraph(s, n, inner, arr, outer)
    requires IsSafe(s) && IsSafe(n) && Expandable(inner, arr, outer)
    ensures WellFormed(g)
    ensures Flatten(g, 4, map[]).0
         == "{ " + PropertyEntry("a", s) + "; " + PropertyEntry("b", ArrayOf("{ " + PropertyEntry("c", n) + " }")) + " }"
    ensures Flatten(g, 4, map[]).1.Keys == {outer, arr, inner}
  {
    RouterGraphShape(g, s, n, inner, arr, outer);
    RouterMembers(g, s, n, inner, arr, outer);
    ExpandsObject(g, 4, map[]);
    var b := ArrayOf("{ " + PropertyEntry("c", n) + " }");
    EntriesOfTwo(g[4].properties.value, [s, b]);
  }

  // ---------------------------------------------------------------------------
  // Two types that print as the same text
  // ---------------------------------------------------------------------------

  /** Two literal types that both print as `t`, rendered `x` and `y`, as properties `p` and `q` of one object. */
  function SharedGraph(t: string, x: string, y: string, obj: string): seq<Node>
  {
    [LiteralNode(t, x), LiteralNode(t, y), ObjectNode(obj, [Property("p", 0), Property("q", 1)])]
  }

  lemma SharedGraphShape(g: seq<Node>, t: string, x: string, y: string, obj: string)
    requires g == SharedGraph(t, x, y, obj)
    ensures WellFormed(g)
    ensures PropertyTypes(g[2].properties.value) == [0, 1]
  {
  }

  lemma SharedMembers(g: seq<Node>, t: string, x: string, y: string, obj: string)
    requires g == SharedGraph(t, x, y, obj)
    requires !IsSafe(t) && !Erased(t) && t != obj && x != ""
    ensures WellFormed(g)
    ensures FlattenAll(g, [0, 1], 2, Reserve(map[], obj)).0 == [x, x]
  {
    SharedGraphShape(g, t, x, y, obj);
    var c := Reserve(map[], obj);
    ExpandsLiteral(g, 0, c);
    var c1 := Reserve(c, t)[t := x];
    ExpandsOne(g, 0, 2, c);
    CacheHit(g, 1, c1);
    ExpandsInOrder(g, [0, 1], 2, c);
    assert [0, 1][..1] == [0];
  }

  lemma SharedRender(g: seq<Node>, t: string, x: string, y: string, obj: string)
    requires g == SharedGraph(t, x, y, obj)
    requires !IsSafe(t) && !Erased(t) && !IsSafe(obj) && !Erased(obj)
    ensures WellFormed(g)
    ensures Render(g, 2) == "{ " + PropertyEntry("p", x) + "; " + PropertyEntry("q", y) + " }"
  {
    SharedGraphShape(g, t, x, y, obj);
    RendersLiteral(g, 0);
    RendersLiteral(g, 1);
    RendersInOrder(g, [0], 2);
    RendersInOrder(g, [0, 1], 2);
    assert [0, 1][..1] == [0] && [0][..0] == [];
    RendersObject(g, 2);
    EntriesOfTwo(g[2].properties.value, [x, y]);
  }

  /**
   Two different literal types that print as the same text share one cache
   entry: the second is served the first one's rendering, so the memoised
   result differs from the cache-free rendering whenever the two literals
   render differently.
   */
  lemma SharedTextSharesEntry(g: seq<Node>, t: string, x: string, y: string, obj: string)
    requires g == SharedGraph(t, x, y, obj)
    requires !IsSafe(t) && !Erased(t) && !IsSafe(obj) && !Erased(obj) && t != obj
    requires x != "" && x != y
    ensures WellFormed(g)
    ensures Flatten(g, 2, map[]).0 == "{ " + PropertyEntry("p", x) + "; " + PropertyEntry("q", x) + " }"
    ensures Render(g, 2) == "{ " + PropertyEntry("p", x) + "; " + PropertyEntry("q", y) + " }"
    ensures Flatten(g, 2, map[]).0 != Render(g, 2)
  {
    SharedGraphShape(g, t, x, y, obj);
    SharedMembers(g, t, x, y, obj);
    SharedRender(g, t, x, y, obj);
    ExpandsObject(g, 2, map[]);
    EntriesOfTwo(g[2].properties.value, [x, x]);
    EntryDiffers("q", x, y);
    InfixDiffers("{ " + PropertyEntry("p", x) + "; ", PropertyEntry("q", x), PropertyEntry("q", y), " }");
  }
}
