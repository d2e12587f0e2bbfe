/**
 `flattenType` as the source runs it: one cache `seenTypes` shared by the whole
 recursion and updated in place. Each method is proved to leave exactly the
 cache, and return exactly the text, that `FlattenSpec.Flatten` describes.
 */
module TypeFlattener {
  import opened TypeGraph
  import opened Rendering
  import opened FlattenSpec

  class Flattener {
    const graph: seq<Node>
    var seenTypes: map<string, string>

    constructor (g: seq<Node>)
      requires WellFormed(g)
      ensures graph == g && seenTypes == map[]
    {
      graph := g;
      seenTypes := map[];
    }

    /** Renders node `i`, reading and extending `seenTypes`. */
    method FlattenType(i: nat) returns (r: string)
      requires WellFormed(graph) && i < |graph|
      modifies this
      ensures (r, seenTypes) == Flatten(graph, i, old(seenTypes))
      decreases i, 1
    {
      var n := graph[i];
      var typeText := n.text;

      if IsSafe(typeText) {
        return typeText;
      }
      if EndsWith(typeText, "ILayer") {
        return "any";
      }
      if Contains(typeText, "Response<") {
        return "any";
      }

      if typeText in seenTypes {
        if seenTypes[typeText] != "" {
          return seenTypes[typeText];
        }
      }
      seenTypes := seenTypes[typeText := ""];

      if n.unionTypes.Some? {
        var parts := FlattenEach(n.unionTypes.value, i);
        r := Join(NonEmpty(parts), " | ");
        seenTypes := seenTypes[typeText := r];
        return;
      }

      if n.intersectionTypes.Some? {
        var parts := FlattenEach(n.intersectionTypes.value, i);
        r := Join(NonEmpty(parts), " & ");
        seenTypes := seenTypes[typeText := r];
        return;
      }

      if n.arrayElement.Some? {
        var element := FlattenType(n.arrayElement.value);
        r := ArrayOf(element);
        seenTypes := seenTypes[typeText := r];
        return;
      }

      if n.properties.Some? {
        var props := n.properties.value;
        if |props| == 0 {
          return "{}";
        }
        var parts := FlattenEach(PropertyTypes(props), i);
        r := ObjectLiteral(props, parts);
        seenTypes := seenTypes[typeText := r];
        return;
      }

      if n.literalValue.Some? {
        r := n.literalValue.value;
        seenTypes := seenTypes[typeText := r];
        return;
      }

      match n.declaration {
        case Some(TypeAliasDeclaration(t)) =>
          r := FlattenType(t);
          seenTypes := seenTypes[typeText := r];
          return;
        case Some(InterfaceDeclaration(t)) =>
          r := FlattenType(t);
          seenTypes := seenTypes[typeText := r];
          return;
        case _ =>
      }

      seenTypes := seenTypes[typeText := typeText];
      r := typeText;
    }

    /** The `.map` over members or property types: one call per id, in order. */
    method FlattenEach(ids: seq<nat>, bound: nat) returns (parts: seq<string>)
      requires WellFormed(graph) && bound <= |graph|
      requires forall k :: 0 <= k < |ids| ==> ids[k] < bound
      modifies this
      ensures (parts, seenTypes) == FlattenAll(graph, ids, bound, old(seenTypes))
      decreases bound, 0
    {
      parts := [];
      var k := 0;
      while k < |ids|
        invariant 0 <= k <= |ids|
        invariant (parts, seenTypes) == FlattenAll(graph, ids[..k], bound, old(seenTypes))
      {
        assert ids[..k + 1][..k] == ids[..k];
        var s := FlattenType(ids[k]);
        parts := parts + [s];
        k := k + 1;
      }
      assert ids[..|ids|] == ids;
    }
  }

  datatype Output = Output(declaration: string, types: map<string, string>)
  datatype Result = Ok(output: Output) | RouterNotFound

  /**
   The run on a router: a fresh cache, the router's type flattened with it, and
   the two files the run writes returned instead of written: the
   `type AppRouter =` declaration and the final cache.
   */
  method GenerateFlattenedTypes(g: seq<Node>, appRouter: Option<nat>) returns (res: Result)
    requires WellFormed(g)
    requires appRouter.Some? ==> appRouter.value < |g|
    ensures appRouter.None? <==> res.RouterNotFound?
    ensures res.Ok? ==> res.output == Output("type AppRouter =" + Flatten(g, appRouter.value, map[]).0,
                                             Flatten(g, appRouter.value, map[]).1)
    ensures res.Ok? && Coherent(g) ==> res.output.declaration == "type AppRouter =" + Render(g, appRouter.value)
    ensures res.Ok? ==> forall k :: k in res.output.types ==> k in Texts(g) && !IsSafe(k) && !Erased(k)
  {
    if appRouter.None? {
      return RouterNotFound;
    }
    var root := appRouter.value;
    var flattener := new Flattener(g);
    var flattenedType := flattener.FlattenType(root);
    NewKeysAreExpandedTexts(g, root, map[]);
    if Coherent(g) {
      FreshRunIsRender(g, root);
    }
    res := Ok(Output("type AppRouter =" + flattenedType, flattener.seenTypes));
  }
}
