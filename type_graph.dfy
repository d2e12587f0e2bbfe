/**
 The type graph that the flattener walks. The compiler's `Type` objects are not
 visible to this model, so a graph is given explicitly as a sequence of nodes;
 a node refers to its sub-types by their index in that sequence.

 Each node records the answers of the type-checker queries that `flattenType`
 asks, in the order it asks them: `isUnion()`/`getUnionTypes()`,
 `isIntersection()`/`getIntersectionTypes()`, `isArray()`/`getArrayElementType()`,
 `isObject()`/`getProperties()`, `isLiteral()`/the literal's rendering, and
 `getSymbol()?.getDeclarations()[0]`. A query that answers "no" is `None`.
 */
module TypeGraph {

  datatype Option<+T> = None | Some(value: T)

  /** A property of an object type: its name and the index of its type. */
  datatype Property = Property(name: string, typ: nat)

  /** The first declaration of a type's symbol. */
  datatype Declaration =
    | TypeAliasDeclaration(aliased: nat)
    | InterfaceDeclaration(declared: nat)
    | OtherDeclaration

  datatype Node = Node(
    text: string,                          // `type.getText()`: the cache key
    unionTypes: Option<seq<nat>>,          // Some(members) when `isUnion()`
    intersectionTypes: Option<seq<nat>>,   // Some(members) when `isIntersection()`
    arrayElement: Option<nat>,             // Some(element) when `isArray()`
    properties: Option<seq<Property>>,     // Some(props) when `isObject()`
    literalValue: Option<string>,          // Some(rendered value) when `isLiteral()`
    declaration: Option<Declaration>)      // first declaration of the symbol, if any

  /** The type a type-alias or interface declaration stands for, if the node has one. */
  function AliasTarget(n: Node): Option<nat>
  {
    match n.declaration
    case Some(TypeAliasDeclaration(t)) => Some(t)
    case Some(InterfaceDeclaration(t)) => Some(t)
    case _ => None
  }

  function PropertyTypes(props: seq<Property>): (ts: seq<nat>)
    ensures |ts| == |props|
    ensures forall k :: 0 <= k < |props| ==> ts[k] == props[k].typ
  {
    if props == [] then [] else [props[0].typ] + PropertyTypes(props[1..])
  }

  /** Every sub-type a node refers to has an index below `bound`. */
  ghost predicate ChildrenBelow(n: Node, bound: nat)
  {
    && (n.unionTypes.Some? ==> forall k :: 0 <= k < |n.unionTypes.value| ==> n.unionTypes.value[k] < bound)
    && (n.intersectionTypes.Some? ==>
          forall k :: 0 <= k < |n.intersectionTypes.value| ==> n.intersectionTypes.value[k] < bound)
    && (n.arrayElement.Some? ==> n.arrayElement.value < bound)
    && (n.properties.Some? ==> forall k :: 0 <= k < |n.properties.value| ==> n.properties.value[k].typ < bound)
    && (AliasTarget(n).Some? ==> AliasTarget(n).value < bound)
  }

  /**
   Every node whose text is neither a safe name nor an erased shape only
   refers to nodes at smaller indices. A safe or erased node is returned
   before any of its sub-types is visited, so it may refer anywhere. The
   in-progress marker does not stop a re-entry, so a cycle makes the recursion
   unbounded unless another node with the same text fills the entry before the
   re-entry. This condition also excludes graphs of that kind, on which the
   recursion does finish.
   */
  ghost predicate WellFormed(g: seq<Node>)
  {
    forall i :: 0 <= i < |g| && !IsSafe(g[i].text) && !Erased(g[i].text) ==> ChildrenBelow(g[i], i)
  }

  /** The set of all cache keys the graph can produce. */
  ghost function Texts(g: seq<Node>): set<string>
  {
    set i | 0 <= i < |g| :: g[i].text
  }

  /** The sixteen type names that are emitted verbatim and never introspected. */
  const SafeTypes: seq<string> := [
    "Date", "boolean", "string", "number", "bigint", "symbol", "undefined", "null",
    "void", "never", "unknown", "any", "object", "SharedArrayBuffer", "ArrayBuffer",
    "ArrayBufferView"
  ]

  predicate IsSafe(text: string)
  {
    text in SafeTypes
  }

  predicate StartsWith(s: string, prefix: string)
  {
    |prefix| <= |s| && s[..|prefix|] == prefix
  }

  predicate EndsWith(s: string, suffix: string)
  {
    |suffix| <= |s| && s[|s| - |suffix|..] == suffix
  }

  /** `s.includes(sub)`: `sub` occurs in `s` at some position. */
  predicate Contains(s: string, sub: string)
  {
    StartsWith(s, sub) || (|s| > 0 && Contains(s[1..], sub))
  }

  /** The framework-internal shapes that are erased to `any`. */
  predicate Erased(text: string)
  {
    EndsWith(text, "ILayer") || Contains(text, "Response<")
  }

  /** `sub` occurs in `s` starting at position `k`. */
  predicate OccursAt(s: string, sub: string, k: int)
  {
    0 <= k <= |s| - |sub| && s[k..k + |sub|] == sub
  }

  /**
   `includes` as an independent definition: `sub` occurs in `s` exactly when
   some slice of `s` equals it.
   */
  lemma {:induction false} ContainsIffOccurs(s: string, sub: string)
    ensures Contains(s, sub) <==> exists k :: OccursAt(s, sub, k)
  {
    if StartsWith(s, sub) {
      assert OccursAt(s, sub, 0);
    } else if |s| > 0 {
      ContainsIffOccurs(s[1..], sub);
      if Contains(s[1..], sub) {
        var k :| OccursAt(s[1..], sub, k);
        assert s[1..][k..k + |sub|] == s[k + 1..k + 1 + |sub|];
        assert OccursAt(s, sub, k + 1);
      }
      if exists k :: OccursAt(s, sub, k) {
        var k :| OccursAt(s, sub, k);
        assert k != 0;
        assert s[1..][k - 1..k - 1 + |sub|] == s[k..k + |sub|];
        assert OccursAt(s[1..], sub, k - 1);
      }
    }
  }

  /**
   None of the sixteen safe names is an erased shape, so the safe-name test
   and the erasure test give the same answer in either order.
   */
  lemma SafeNamesNotErased(text: string)
    requires IsSafe(text)
    ensures !Erased(text)
  {
    MissingFirstCharNotContained(text, "Response<");
  }

  /** A text in which the first character of `sub` never occurs does not contain `sub`. */
  lemma {:induction false} MissingFirstCharNotContained(s: string, sub: string)
    requires |sub| > 0
    requires forall k :: 0 <= k < |s| ==> s[k] != sub[0]
    ensures !Contains(s, sub)
  {
    if |s| > 0 {
      assert s[0] != sub[0];
      MissingFirstCharNotContained(s[1..], sub);
    }
  }
}
