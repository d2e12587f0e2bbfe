# flatten-trpc type flattener, modelled in Dafny

This project models `flattenType`, the recursive function at the heart of
flatten-trpc. It takes a node of the TypeScript type graph and renders it as
flat, self-contained type text. It memoises in a `Map<string, string>`
(`seenTypes`) keyed by each type's printed text. The map is updated in place as
the recursion goes. The model follows `flatten-trpc-types.ts:23-121`. The
compiled twin `flatten-trpc-types.js:46-133` has the same branches line for
line: `.ts` lines 27-48 are `.js` lines 49-68, and `.ts` lines 50-120 are
`.js` lines 69-132.

The compiler's type API is replaced by an explicit graph, `seq<Node>`. Each
node carries its text (the cache key) and the answers to the queries
`flattenType` asks, in the order it asks them. Those queries are `isUnion`,
`isIntersection`, `isArray`, `isObject`, `isLiteral`, and the symbol's first
declaration.

Files:

- `type_graph.dfy` (module `TypeGraph`): nodes, the condition
  `WellFormed` (nodes that are neither safe nor erased refer only to
  earlier nodes), the sixteen safe names, and the `ILayer` / `Response<`
  erasure test.
- `rendering.dfy` (module `Rendering`): the pure string assembly (`filter`,
  `join`, `Array<…>`, `{ "p": T; … }`). It also holds `Render`, a cache-free
  reference rendering of a node.
- `flatten_spec.dfy` (module `FlattenSpec`): `Flatten(g, i, cache)`, the
  algorithm as a function returning the text and the new cache, with the
  lemmas about it.
- `flattener.dfy` (module `TypeFlattener`): the class `Flattener`. Its
  `seenTypes` field is reassigned in place by the recursive method
  `FlattenType` and the loop method `FlattenEach`. Both methods are proved to
  agree exactly with `Flatten`. The file also holds the run on a router,
  `GenerateFlattenedTypes`.
- `scenarios.dfy` (module `Scenarios`): two worked graphs. The first is an
  object with an array-of-objects property, rendered end to end. The second is
  two different types that print as the same text and so share a cache entry.

The central theorem is `FlattenIsRender`. Suppose every two nodes with equal
text render equally, and the cache holds only correct renderings (the empty
cache does). Then the memoised result equals the cache-free rendering, and the
cache stays correct. `SharedTextSharesEntry` shows what happens when that
condition fails. The cache is keyed by text, so the second of two differently
rendered types that print alike gets the first one's rendering.

What the code does, and what it does not do:

- There are no visit records, visit counts, cyclic flags, generated names,
  hoisting pass, or tuple, call-signature, index-signature or promise handling.
- The `''` entry is not a cycle guard. An entry equal to `''` is expanded
  again (`MarkerReexpands`). So a cycle makes the recursion unbounded, unless
  another node with the same text fills the entry before the re-entry, which
  then becomes a cache hit. The model requires that every node whose text is
  neither a safe name nor an erased shape refers only to nodes at smaller
  indices (`WellFormed`). A node whose text is a safe name or an erased shape
  is returned before its sub-types are visited, so such a node may refer
  anywhere, back-edges included.
- The pass-through list is exactly the sixteen names at
  `flatten-trpc-types.ts:4-21`.
- The erasure test is exactly a suffix of `ILayer` or a substring of
  `Response<`.
- The result is the rendered text itself, not a placeholder.

## Model

| member | source | states |
|---|---|---|
| `TypeFlattener.Flattener.FlattenType` | flatten-trpc-types.ts:23-121 | The method that updates `seenTypes` in place returns exactly `Flatten`'s text and leaves exactly `Flatten`'s cache. The order of checks is: safe name, erasure, cache hit, `''` marker, then union, intersection, array, object, literal, alias/interface, raw text. |
| `TypeFlattener.Flattener.FlattenEach` | flatten-trpc-types.ts:51-53 | The `.map` over members or property types calls the flattener once per id, in order, each call seeing the cache the previous one left. Proved with a loop invariant against `FlattenAll`. |
| `TypeFlattener.Flattener.constructor` | flatten-trpc-types.ts:136 | A run starts from an empty cache over the given graph, which must satisfy `WellFormed`. |
| `TypeFlattener.GenerateFlattenedTypes` | flatten-trpc-types.ts:123-155 | A missing `appRouter` is the error result, and only then. Otherwise the declaration is `type AppRouter =` followed by the text `Flatten` gives for the root from an empty cache, and the returned map is exactly the cache that call leaves. As a corollary, on a coherent graph the declaration is `type AppRouter =` followed by the cache-free rendering. Every key of the cache it returns is an expanded node text and never a safe name or an erased shape. |
| `FlattenSpec.Flatten` | flatten-trpc-types.ts:23-121 | The functional model of `flattenType`: the text and the cache afterwards. A call that returns early (safe name, erased shape, non-empty cache entry) leaves the cache as it was. Every other call leaves an entry for its own text. |
| `FlattenSpec.SafePassThrough` | flatten-trpc-types.ts:4-29 | A text equal to one of the sixteen safe names is returned verbatim, and the cache is unchanged. |
| `FlattenSpec.ErasedToAny` | flatten-trpc-types.ts:31-36 | A text that is not a safe name and ends with `ILayer` or contains `Response<` yields `any`, and the cache is unchanged. This holds whatever the cache holds for that text, because the test comes before the lookup. |
| `FlattenSpec.CacheHit` | flatten-trpc-types.ts:40-43 | A non-empty cached value for the text is returned, and the cache is unchanged. |
| `FlattenSpec.MarkerReexpands` | flatten-trpc-types.js:59-68 | An entry equal to `''` is treated exactly like a missing entry: the node is expanded again. The marker does not break cycles. |
| `FlattenSpec.Reserve` | flatten-trpc-types.ts:48 | Before dispatch, the key is added to the cache with the value `''`, and no other key changes. |
| `FlattenSpec.Stored` | flatten-trpc-types.ts:48-118 | Unless the call returned early, the cache afterwards maps the text to the result. The one exception is a property-less object: it returns `{}` and its key keeps `''`, and this happens exactly for such objects. |
| `FlattenSpec.MembersJoined` | flatten-trpc-types.ts:50-68 | A union or intersection renders as its members' renderings in member order, with empty ones dropped, joined by ` \| ` or ` & `. The result is empty exactly when every member rendered empty. |
| `FlattenSpec.FlattenAll` | flatten-trpc-types.ts:51-53 | Flattening a list of sub-types yields one rendering per sub-type. |
| `FlattenSpec.KeysGrow` | flatten-trpc-types.ts:48-118 | Keys are only ever set, never removed: the cache's key set only grows. |
| `FlattenSpec.NewKeysAreExpandedTexts` | flatten-trpc-types.ts:27-48 | Every key a call adds is the text of some node in the graph, and never a safe name or an erased shape. |
| `FlattenSpec.FilledEntriesStay` | flatten-trpc-types.js:59-63 | An entry that is already non-empty is never overwritten, by this call or by any call it makes. |
| `FlattenSpec.SecondCallAgrees` | flatten-trpc-types.ts:40-43 | Calling again with the cache the first call produced returns the same non-empty text and changes nothing. |
| `FlattenSpec.FlattenIsRender` | flatten-trpc-types.ts:23-121 | On a graph where equal text means equal rendering, and from a cache whose entries are correct, the memoised result equals the cache-free `Render`, and the cache stays correct. |
| `FlattenSpec.FreshRunIsRender` | flatten-trpc-types.ts:136-137 | Flattening the root from an empty cache gives its cache-free rendering, whenever equal text means equal rendering. |
| `TypeGraph.SafeNamesNotErased` | flatten-trpc-types.ts:4-36 | None of the sixteen safe names ends with `ILayer` or contains `Response<`, so the safe-name test and the erasure test could be done in either order. |
| `TypeGraph.ContainsIffOccurs` | flatten-trpc-types.ts:34 | `includes`: the text contains the pattern exactly when some slice of the text equals it. Proved equivalent to an independent slice-based definition (`OccursAt`). |
| `Rendering.Join` | flatten-trpc-types.ts:55 | `join`: no parts give `''`. Otherwise the result starts with the first part and ends with the last, and each separator adds its length. |
| `Rendering.ArrayOf` | flatten-trpc-types.ts:71 | The `Array<…>` template: it starts with `Array<` and ends with `>`, and the element's text can be read back from between them. |
| `Rendering.PropertyEntry` | flatten-trpc-types.ts:91 | A property renders as the quoted name, then `: `, then its type's rendering. The name and the type text can be read back at fixed offsets. The name is not escaped. |
| `TypeGraph.PropertyTypes` | flatten-trpc-types.ts:80-92 | The per-property `getTypeAtLocation`: one type per property, the k-th being the k-th property's type, in property order. |
| `Rendering.PropertyEntries` | flatten-trpc-types.ts:80-92 | The `properties.map` building the entries: one entry per property, the k-th being `"name": T` for the k-th property's name and its type's rendering, in property order. |
| `Rendering.ObjectLiteral` | flatten-trpc-types.ts:94 | An object with properties renders between `{ ` and ` }`, never as `{}`, and contains its first property's entry. |
| `Rendering.Render` | flatten-trpc-types.ts:23-121 | No counterpart in the source. This is the cache-free reference rendering, taking the same tests in the same order, with every sub-type rendered afresh. `FlattenIsRender` relates it to the memoised result. |
| `Rendering.NonEmpty` | flatten-trpc-types.ts:54 | `filter((t) => t)`: no empty string survives, every survivor comes from the input, and every non-empty input survives. |
| `Rendering.JoinEmptyIff` | flatten-trpc-types.ts:55 | With a non-empty separator, `join` yields `''` exactly when there are no parts, or one part that is itself empty. |
| `Rendering.JoinNonEmptyIsEmptyIff` | flatten-trpc-types.ts:51-55 | After dropping empty parts, the join is empty exactly when every part was empty. |
| `Scenarios.RouterRendersFlat` | flatten-trpc-types.ts:70-96 | `{ a: S; b: { c: N; }[]; }` with safe `S` and `N` renders from an empty cache as `{ "a": S; "b": Array<{ "c": N }> }`. The cache then holds exactly the three expanded texts. |
| `Scenarios.SharedTextSharesEntry` | flatten-trpc-types.ts:24-43 | Two literal types that print as the same text share one entry. The second gets the first one's rendering, so the memoised result differs from the cache-free one. |

## Left out

- The compiler's type API is not modelled: `getText`, `isUnion`, `getProperties`, `getTypeAtLocation`, `getSymbol` and `getDeclarations`. The explicit node graph given as input replaces it, and the `sourceFile` argument goes with it.
- `JSON.stringify(type.getLiteralValue())` is not modelled. Number formatting and string escaping belong to the JavaScript runtime, so a literal's rendered text is given as data in the node. That rendering is always a string. So the model cannot express `JSON.stringify(undefined)`, which returns `undefined` rather than a string, for instance when a literal's value is `undefined`. In the source such a result would be dropped by the filter of a union, and printed as `undefined` in a property entry.
- Cyclic graphs are not modelled beyond what `WellFormed` allows. Every member requires `WellFormed`, and no cycle-breaking rule is added. Most such cycles make the source recurse without bound. A cycle is cut, though, when a node with the same text fills the entry before the re-entry, as in an object `A { p: L; q: B }` with `B` a union over the object itself and `L` a literal whose text is also `A`. On such graphs the source finishes, but `WellFormed` excludes them, because every node that is neither safe nor erased is held to it, even one that is only ever reached as a cache hit.
- `getArrayElementType()!` is not modelled as possibly missing: an array node always has an element type.
- `console.log`, `debugger`, and the branches on the property names `accepted`, `_def` and `secure` are left out. None of them affects the result.
- Project loading in `generateFlattenedTypes` is not modelled. The router's type is an optional graph index, and `None` stands for a missing `appRouter`.
- The two `fs.writeFileSync` calls are not modelled. `GenerateFlattenedTypes` returns the declaration text and the cache instead.
- The ordering and the `'\n\n\n'` separators of `types.txt` are not modelled. The cache is returned as an unordered map.
- Command-line argument handling, the usage message and `process.exit` are left out.
- The module interop helpers of the compiled file (`__createBinding`, `__setModuleDefault`, `__importStar`) are left out.
- Rendering.NonEmpty: its contract states membership in both directions but not that the order is kept. The order is fixed by its definition, which `Flatten`, `Render` and the lemmas use.
