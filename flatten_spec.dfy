/**
 `flattenType` as a function of the type graph, the node and the cache
 `seenTypes` before the call, giving the rendered text and the cache after it.
 The class `TypeFlattener.Flattener` runs the same algorithm with the cache
 updated in place and is proved equal to this function.
 */
module FlattenSpec {
  import opened TypeGraph
  import opened Rendering

  type Cache = map<string, string>

  /** The key the sub-calls and the result are cached under, with its `''` marker written. */
  function Reserve(c: Cache, text: string): (c': Cache)
    ensures c'.Keys == c.Keys + {text} && c'[text] == ""
    ensures forall k :: k in c && k != text ==> c'[k] == c[k]
  {
    c[text := ""]
  }

  /** The call returns before touching the cache: safe name, erased shape or cache hit. */
  predicate ShortCircuits(n: Node, c: Cache)
  {
    IsSafe(n.text) || Erased(n.text) || (n.text in c && c[n.text] != "")
  }

  /** An object type without properties: the one expansion that is not stored. */
  predicate IsEmptyObject(n: Node)
  {
    n.unionTypes.None? && n.intersectionTypes.None? && n.arrayElement.None?
    && n.properties.Some? && |n.properties.value| == 0
  }

  /**
   `flattenType(g[i], ..., c)`: the rendered text and the cache afterwards. An
   early return leaves the cache as it was; every other call leaves an entry
   for its own text.
   */
  function Flatten(g: seq<Node>, i: nat, c: Cache): (res: (string, Cache))
    requires WellFormed(g) && i < |g|
    ensures ShortCircuits(g[i], c) ==> res.1 == c
    ensures !ShortCircuits(g[i], c) ==> g[i].text in res.1
    decreases i, 1, 0
  {
    var n := g[i];
    var t := n.text;
    if IsSafe(t) then (t, c)
    else if Erased(t) then ("any", c)
    else if t in c && c[t] != "" then (c[t], c)
    else
      var c0 := Reserve(c, t);
      if n.unionTypes.Some? then
        var (parts, c1) := FlattenAll(g, n.unionTypes.value, i, c0);
        var r := Join(NonEmpty(parts), " | ");
        (r, c1[t := r])
      else if n.intersectionTypes.Some? then
        var (parts, c1) := FlattenAll(g, n.intersectionTypes.value, i, c0);
        var r := Join(NonEmpty(parts), " & ");
        (r, c1[t := r])
      else if n.arrayElement.Some? then
        var (e, c1) := Flatten(g, n.arrayElement.value, c0);
        var r := ArrayOf(e);
        (r, c1[t := r])
      else if n.properties.Some? then
        var props := n.properties.value;
        if |props| == 0 then ("{}", c0)
        else
          var (parts, c1) := FlattenAll(g, PropertyTypes(props), i, c0);
          var r := ObjectLiteral(props, parts);
          (r, c1[t := r])
      else if n.literalValue.Some? then
        var r := n.literalValue.value;
        (r, c0[t := r])
      else if AliasTarget(n).Some? then
        var (r, c1) := Flatten(g, AliasTarget(n).value, c0);
        (r, c1[t := r])
      else (t, c0[t := t])
  }

  /** `ids.map((t) => flattenType(t, ...))`: flatten in order, each call seeing the previous one's cache. */
  function FlattenAll(g: seq<Node>, ids: seq<nat>, bound: nat, c: Cache): (res: (seq<string>, Cache))
    requires WellFormed(g) && bound <= |g|
    requires forall k :: 0 <= k < |ids| ==> ids[k] < bound
    ensures |res.0| == |ids|
    decreases bound, 0, |ids|
  {
    if ids == [] then ([], c)
    else
      var (parts, c1) := FlattenAll(g, ids[..|ids| - 1], bound, c);
      var (s, c2) := Flatten(g, ids[|ids| - 1], c1);
      (parts + [s], c2)
  }

  // ---------------------------------------------------------------------------
  // The checks that come before the cache is touched
  // ---------------------------------------------------------------------------

  /** A safe name is returned verbatim and the cache is left as it is. */
  lemma SafePassThrough(g: seq<Node>, i: nat, c: Cache)
    requires WellFormed(g) && i < |g|
    requires IsSafe(g[i].text)
    ensures Flatten(g, i, c) == (g[i].text, c)
  {
  }

  /**
   A text that is not a safe name and ends with `ILayer` or contains
   `Response<` becomes `any` and the cache is left as it is, whatever the cache
   holds for it.
   */
  lemma ErasedToAny(g: seq<Node>, i: nat, c: Cache)
    requires WellFormed(g) && i < |g|
    requires !IsSafe(g[i].text)
    requires EndsWith(g[i].text, "ILayer") || Contains(g[i].text, "Response<")
    ensures Flatten(g, i, c) == ("any", c)
  {
  }

  /** A non-empty cached value is returned and the cache is left as it is. */
  lemma CacheHit(g: seq<Node>, i: nat, c: Cache)
    requires WellFormed(g) && i < |g|
    requires !IsSafe(g[i].text) && !Erased(g[i].text)
    requires g[i].text in c && c[g[i].text] != ""
    ensures Flatten(g, i, c) == (c[g[i].text], c)
  {
  }

  /**
   The `''` marker is not a cycle guard: a key whose entry is `''` is expanded
   exactly as if it had no entry at all.
   */
  lemma MarkerReexpands(g: seq<Node>, i: nat, c: Cache)
    requires WellFormed(g) && i < |g|
    requires !IsSafe(g[i].text) && !Erased(g[i].text) && g[i].text !in c
    ensures Flatten(g, i, c[g[i].text := ""]) == Flatten(g, i, c)
  {
    var t := g[i].text;
    assert Reserve(c[t := ""], t) == Reserve(c, t);
  }

  // ---------------------------------------------------------------------------
  // What a call leaves in the cache
  // ---------------------------------------------------------------------------

  /**
   Unless the call returned early, the key ends up mapped to the result,
   except for an object without properties, whose key keeps the `''` marker.
   */
  lemma Stored(g: seq<Node>, i: nat, c: Cache)
    requires WellFormed(g) && i < |g|
    requires !ShortCircuits(g[i], c)
    ensures var (r, c') := Flatten(g, i, c);
      && g[i].text in c'
      && c'[g[i].text] == (if IsEmptyObject(g[i]) then "" else r)
      && (IsEmptyObject(g[i]) <==> r == "{}" && c' == Reserve(c, g[i].text))
  {
  }

  /**
   A union or an intersection renders as its members' renderings in member
   order, the empty ones dropped, joined by ` | ` or ` & `; it is empty exactly
   when every member rendered empty.
   */
  lemma MembersJoined(g: seq<Node>, i: nat, c: Cache)
    requires WellFormed(g) && i < |g|
    requires !ShortCircuits(g[i], c)
    requires g[i].unionTypes.Some? || g[i].intersectionTypes.Some?
    ensures var ids := if g[i].unionTypes.Some? then g[i].unionTypes.value else g[i].intersectionTypes.value;
      var sep := if g[i].unionTypes.Some? then " | " else " & ";
      var parts := FlattenAll(g, ids, i, Reserve(c, g[i].text)).0;
      && Flatten(g, i, c).0 == Join(NonEmpty(parts), sep)
      && (Flatten(g, i, c).0 == "" <==> forall k :: 0 <= k < |parts| ==> parts[k] == "")
  {
    var ids := if g[i].unionTypes.Some? then g[i].unionTypes.value else g[i].intersectionTypes.value;
    var sep := if g[i].unionTypes.Some? then " | " else " & ";
    JoinNonEmptyIsEmptyIff(FlattenAll(g, ids, i, Reserve(c, g[i].text)).0, sep);
  }

  /** Keys are only ever set, never removed. */
  lemma {:induction false} KeysGrow(g: seq<Node>, i: nat, c: Cache)
    requires WellFormed(g) && i < |g|
    ensures c.Keys <= Flatten(g, i, c).1.Keys
    decreases i, 1, 0
  {
    var n := g[i];
    var t := n.text;
    if !ShortCircuits(n, c) {
      var c0 := Reserve(c, t);
      if n.unionTypes.Some? {
        KeysGrowAll(g, n.unionTypes.value, i, c0);
      } else if n.intersectionTypes.Some? {
        KeysGrowAll(g, n.intersectionTypes.value, i, c0);
      } else if n.arrayElement.Some? {
        KeysGrow(g, n.arrayElement.value, c0);
      } else if n.properties.Some? {
        KeysGrowAll(g, PropertyTypes(n.properties.value), i, c0);
      } else if n.literalValue.None? && AliasTarget(n).Some? {
        KeysGrow(g, AliasTarget(n).value, c0);
      }
    }
  }

  lemma {:induction false} KeysGrowAll(g: seq<Node>, ids: seq<nat>, bound: nat, c: Cache)
    requires WellFormed(g) && bound <= |g|
    requires forall k :: 0 <= k < |ids| ==> ids[k] < bound
    ensures c.Keys <= FlattenAll(g, ids, bound, c).1.Keys
    decreases bound, 0, |ids|
  {
    if ids != [] {
      KeysGrowAll(g, ids[..|ids| - 1], bound, c);
      KeysGrow(g, ids[|ids| - 1], FlattenAll(g, ids[..|ids| - 1], bound, c).1);
    }
  }

  /**
   Every key a call adds is the text of a node of the graph, and never a safe
   name or an erased shape: those return before the cache is written.
   */
  lemma {:induction false} NewKeysAreExpandedTexts(g: seq<Node>, i: nat, c: Cache)
    requires WellFormed(g) && i < |g|
    ensures forall k :: k in Flatten(g, i, c).1 && k !in c ==> k in Texts(g) && !IsSafe(k) && !Erased(k)
    decreases i, 1, 0
  {
    var n := g[i];
    var t := n.text;
    if !ShortCircuits(n, c) {
      var c0 := Reserve(c, t);
      assert t in Texts(g);
      if n.unionTypes.Some? {
        NewKeysAreExpandedTextsAll(g, n.unionTypes.value, i, c0);
      } else if n.intersectionTypes.Some? {
        NewKeysAreExpandedTextsAll(g, n.intersectionTypes.value, i, c0);
      } else if n.arrayElement.Some? {
        NewKeysAreExpandedTexts(g, n.arrayElement.value, c0);
      } else if n.properties.Some? {
        NewKeysAreExpandedTextsAll(g, PropertyTypes(n.properties.value), i, c0);
      } else if n.literalValue.None? && AliasTarget(n).Some? {
        NewKeysAreExpandedTexts(g, AliasTarget(n).value, c0);
      }
    }
  }

  lemma {:induction false} NewKeysAreExpandedTextsAll(g: seq<Node>, ids: seq<nat>, bound: nat, c: Cache)
    requires WellFormed(g) && bound <= |g|
    requires forall k :: 0 <= k < |ids| ==> ids[k] < bound
    ensures forall k :: k in FlattenAll(g, ids, bound, c).1 && k !in c ==> k in Texts(g) && !IsSafe(k) && !Erased(k)
    decreases bound, 0, |ids|
  {
    if ids != [] {
      var c1 := FlattenAll(g, ids[..|ids| - 1], bound, c).1;
      NewKeysAreExpandedTextsAll(g, ids[..|ids| - 1], bound, c);
      NewKeysAreExpandedTexts(g, ids[|ids| - 1], c1);
    }
  }

  /**
   An entry that is already non-empty is never overwritten: only a call for
   that key writes it, and such a call returns the entry at once.
   */
  lemma {:induction false} FilledEntriesStay(g: seq<Node>, i: nat, c: Cache)
    requires WellFormed(g) && i < |g|
    ensures forall k :: k in c && c[k] != "" ==> k in Flatten(g, i, c).1 && Flatten(g, i, c).1[k] == c[k]
    decreases i, 1, 0
  {
    var n := g[i];
    var t := n.text;
    if !ShortCircuits(n, c) {
      var c0 := Reserve(c, t);
      if n.unionTypes.Some? {
        FilledEntriesStayAll(g, n.unionTypes.value, i, c0);
      } else if n.intersectionTypes.Some? {
        FilledEntriesStayAll(g, n.intersectionTypes.value, i, c0);
      } else if n.arrayElement.Some? {
        FilledEntriesStay(g, n.arrayElement.value, c0);
      } else if n.properties.Some? {
        FilledEntriesStayAll(g, PropertyTypes(n.properties.value), i, c0);
      } else if n.literalValue.None? && AliasTarget(n).Some? {
        FilledEntriesStay(g, AliasTarget(n).value, c0);
      }
    }
  }

  lemma {:induction false} FilledEntriesStayAll(g: seq<Node>, ids: seq<nat>, bound: nat, c: Cache)
    requires WellFormed(g) && bound <= |g|
    requires forall k :: 0 <= k < |ids| ==> ids[k] < bound
    ensures forall k :: k in c && c[k] != "" ==> k in FlattenAll(g, ids, bound, c).1 && FlattenAll(g, ids, bound, c).1[k] == c[k]
    decreases bound, 0, |ids|
  {
    if ids != [] {
      var c1 := FlattenAll(g, ids[..|ids| - 1], bound, c).1;
      FilledEntriesStayAll(g, ids[..|ids| - 1], bound, c);
      FilledEntriesStay(g, ids[|ids| - 1], c1);
    }
  }

  /**
   Calling again with the cache the first call produced returns the same
   non-empty text and changes nothing.
   */
  lemma SecondCallAgrees(g: seq<Node>, i: nat, c: Cache)
    requires WellFormed(g) && i < |g|
    requires Flatten(g, i, c).0 != ""
    ensures Flatten(g, i, Flatten(g, i, c).1) == Flatten(g, i, c)
  {
    var n := g[i];
    var (r, c') := Flatten(g, i, c);
    if !ShortCircuits(n, c) {
      Stored(g, i, c);
      if IsEmptyObject(n) {
        assert Reserve(c', n.text) == c';
      }
    }
  }

  // ---------------------------------------------------------------------------
  // The cache is transparent when equal text means equal type
  // ---------------------------------------------------------------------------

  /** Every non-empty entry for a node's text holds that node's cache-free rendering. */
  ghost predicate Consistent(g: seq<Node>, c: Cache)
  {
    && WellFormed(g)
    && forall j :: 0 <= j < |g| && g[j].text in c && c[g[j].text] != "" ==> c[g[j].text] == Render(g, j)
  }

  lemma ConsistentStore(g: seq<Node>, c: Cache, i: nat, r: string)
    requires Coherent(g) && i < |g| && Consistent(g, c)
    requires r == "" || r == Render(g, i)
    ensures Consistent(g, c[g[i].text := r])
  {
    forall j | 0 <= j < |g| && g[j].text == g[i].text
      ensures Render(g, j) == Render(g, i)
    {
    }
  }

  /**
   On a graph where equal text means equal rendering, a consistent cache
   (the empty one included) changes nothing about the result: the memoised
   flattening equals the cache-free rendering, and the cache stays consistent.
   */
  lemma {:induction false} FlattenIsRender(g: seq<Node>, i: nat, c: Cache)
    requires Coherent(g) && i < |g| && Consistent(g, c)
    ensures Flatten(g, i, c).0 == Render(g, i)
    ensures Consistent(g, Flatten(g, i, c).1)
    decreases i, 1, 1
  {
    var n := g[i];
    if !ShortCircuits(n, c) {
      var c0 := Reserve(c, n.text);
      ConsistentStore(g, c, i, "");
      if n.unionTypes.Some? || n.intersectionTypes.Some?
         || (n.arrayElement.None? && n.properties.Some? && |n.properties.value| > 0) {
        ListIsRender(g, i, c);
      } else if n.arrayElement.Some? || (n.literalValue.None? && n.properties.None? && AliasTarget(n).Some?) {
        WrapperIsRender(g, i, c);
      } else if n.properties.None? {
        ConsistentStore(g, c0, i, Render(g, i));
      }
    }
  }

  /** The cases that flatten a list of sub-types: union, intersection, object with properties. */
  lemma {:induction false} ListIsRender(g: seq<Node>, i: nat, c: Cache)
    requires Coherent(g) && i < |g| && Consistent(g, c) && !ShortCircuits(g[i], c)
    requires g[i].unionTypes.Some? || g[i].intersectionTypes.Some?
          || (g[i].arrayElement.None? && g[i].properties.Some? && |g[i].properties.value| > 0)
    ensures Flatten(g, i, c).0 == Render(g, i)
    ensures Consistent(g, Flatten(g, i, c).1)
    decreases i, 1, 0
  {
    var n := g[i];
    var c0 := Reserve(c, n.text);
    ConsistentStore(g, c, i, "");
    if n.unionTypes.Some? {
      FlattenAllIsRenderAll(g, n.unionTypes.value, i, c0);
      ConsistentStore(g, FlattenAll(g, n.unionTypes.value, i, c0).1, i, Render(g, i));
    } else if n.intersectionTypes.Some? {
      FlattenAllIsRenderAll(g, n.intersectionTypes.value, i, c0);
      ConsistentStore(g, FlattenAll(g, n.intersectionTypes.value, i, c0).1, i, Render(g, i));
    } else {
      var ids := PropertyTypes(n.properties.value);
      FlattenAllIsRenderAll(g, ids, i, c0);
      ConsistentStore(g, FlattenAll(g, ids, i, c0).1, i, Render(g, i));
    }
  }

  /** The cases that flatten one sub-type: array element, alias or interface target. */
  lemma {:induction false} WrapperIsRender(g: seq<Node>, i: nat, c: Cache)
    requires Coherent(g) && i < |g| && Consistent(g, c) && !ShortCircuits(g[i], c)
    requires g[i].unionTypes.None? && g[i].intersectionTypes.None?
    requires g[i].arrayElement.Some? || (g[i].literalValue.None? && g[i].properties.None? && AliasTarget(g[i]).Some?)
    ensures Flatten(g, i, c).0 == Render(g, i)
    ensures Consistent(g, Flatten(g, i, c).1)
    decreases i, 1, 0
  {
    var n := g[i];
    var c0 := Reserve(c, n.text);
    ConsistentStore(g, c, i, "");
    if n.arrayElement.Some? {
      FlattenIsRender(g, n.arrayElement.value, c0);
      ConsistentStore(g, Flatten(g, n.arrayElement.value, c0).1, i, Render(g, i));
    } else {
      FlattenIsRender(g, AliasTarget(n).value, c0);
      ConsistentStore(g, Flatten(g, AliasTarget(n).value, c0).1, i, Render(g, i));
    }
  }

  lemma {:induction false} FlattenAllIsRenderAll(g: seq<Node>, ids: seq<nat>, bound: nat, c: Cache)
    requires Coherent(g) && bound <= |g| && Consistent(g, c)
    requires forall k :: 0 <= k < |ids| ==> ids[k] < bound
    ensures FlattenAll(g, ids, bound, c).0 == RenderAll(g, ids, bound)
    ensures Consistent(g, FlattenAll(g, ids, bound, c).1)
    decreases bound, 0, |ids|
  {
    if ids != [] {
      var c1 := FlattenAll(g, ids[..|ids| - 1], bound, c).1;
      FlattenAllIsRenderAll(g, ids[..|ids| - 1], bound, c);
      FlattenIsRender(g, ids[|ids| - 1], c1);
    }
  }

  /** Flattening a root with a fresh cache gives its cache-free rendering. */
  lemma FreshRunIsRender(g: seq<Node>, root: nat)
    requires Coherent(g) && root < |g|
    ensures Flatten(g, root, map[]).0 == Render(g, root)
  {
    FlattenIsRender(g, root, map[]);
  }
}
