/**
  `DatabaseComponent.nodes`: the column view of the cache around the cursor,
  at most three nodes: the grandparent, the parent and the current node, each
  looked up by the path of the previous one's `ref.parent`.
 */
module DatabaseComponent {
  import opened Wrappers
  import opened FirestoreRef
  import opened DatabaseService

  function Lookup(cache: Cache, key: string): Option<Node> {
    if key in cache then Some(cache[key]) else None
  }

  /**
    `[z, y, x].filter(n => !!n)`: the present nodes, and only those; with
    none missing, all of them in their order.
   */
  function Present(nodes: seq<Option<Node>>): (r: seq<Node>)
    ensures |r| <= |nodes|
    ensures forall n :: n in r <==> Some(n) in nodes
    ensures (forall i :: 0 <= i < |nodes| ==> nodes[i].Some?) ==>
      |r| == |nodes| && forall i :: 0 <= i < |nodes| ==> r[i] == nodes[i].value
  {
    if |nodes| == 0 then []
    else
      assert forall o :: o in nodes <==> o == nodes[0] || o in nodes[1..] by {
        assert nodes == [nodes[0]] + nodes[1..];
      }
      (if nodes[0].Some? then [nodes[0].value] else []) + Present(nodes[1..])
  }

  /** Filtering a concatenation filters each part: the order of the nodes is kept. */
  lemma {:induction false} PresentAppend(a: seq<Option<Node>>, b: seq<Option<Node>>)
    ensures Present(a + b) == Present(a) + Present(b)
    decreases |a|
  {
    if |a| == 0 {
      assert a + b == b;
    } else {
      assert (a + b)[1..] == a[1..] + b;
      PresentAppend(a[1..], b);
    }
  }

  /** The key `String(undefined)` that JavaScript uses for `obj[undefined]`. */
  const UndefinedKey := "undefined"

  /**
    `n?.ref?.parent?.path!` used as a property key: the parent's path, or
    `"undefined"` when the node, its reference or the parent is missing.
   */
  function ParentKeyAsWritten(n: Option<Node>): string {
    if n.Some? && n.value.ref.Some? && n.value.ref.value.Parent().Some? then
      n.value.ref.value.Parent().value.Path()
    else UndefinedKey
  }

  /** The getter as written. */
  function NodesAsWritten(cache: Cache, cursor: string): seq<Node> {
    var x := Lookup(cache, cursor);
    var y := Lookup(cache, ParentKeyAsWritten(x));
    var z := Lookup(cache, ParentKeyAsWritten(y));
    if x.Some? then Present([z, y, x]) else []
  }

  /**
    With a cached root-level collection named `undefined`, the root node
    (which has no reference) is shown below that collection's node twice.
   */
  lemma NodesAsWrittenShowsUndefinedCollection()
    ensures var root := Node([], None);
      var stray := Node([], Some(Coll(["undefined"])));
      var cache := map["" := root, "undefined" := stray];
      NodesAsWritten(cache, "") == [stray, stray, root]
  {
    var root := Node([], None);
    var stray := Node([], Some(Coll(["undefined"])));
    var cache := map["" := root, "undefined" := stray];
    assert ParentKeyAsWritten(Some(root)) == UndefinedKey;
    assert ParentKeyAsWritten(Some(stray)) == UndefinedKey;
  }

  /** The key of a node's parent, when its reference has a parent. */
  function ParentKey(n: Node): Option<string> {
    if n.ref.Some? && n.ref.value.Parent().Some? then Some(n.ref.value.Parent().value.Path())
    else None
  }

  /** The cached parent of a node, if it has a parent and that parent is cached. */
  function CachedParent(cache: Cache, n: Node): Option<Node> {
    match ParentKey(n)
    case None => None
    case Some(key) => Lookup(cache, key)
  }

  /**
    The getter with missing parents contributing no ancestors: nothing when
    the cursor has no cache entry; otherwise the current node preceded by up
    to two cached ancestors, oldest first.
   */
  function Nodes(cache: Cache, cursor: string): (nodes: seq<Node>)
    ensures cursor !in cache <==> nodes == []
    ensures cursor in cache ==> 1 <= |nodes| <= 3 && nodes[|nodes| - 1] == cache[cursor]
    ensures forall i :: 0 <= i < |nodes| - 1 ==> CachedParent(cache, nodes[i + 1]) == Some(nodes[i])
    ensures 0 < |nodes| < 3 ==> CachedParent(cache, nodes[0]).None?
  {
    var x := Lookup(cache, cursor);
    if x.None? then []
    else
      match CachedParent(cache, x.value)
      case None => [x.value]
      case Some(y) =>
        match CachedParent(cache, y)
        case None => [y, x.value]
        case Some(z) => [z, y, x.value]
  }

  /**
    Without a cache entry under the key `"undefined"`, the getter as written
    and the corrected one agree.
   */
  lemma NodesAgreeWithoutUndefinedKey(cache: Cache, cursor: string)
    requires UndefinedKey !in cache
    ensures NodesAsWritten(cache, cursor) == Nodes(cache, cursor)
  {
    var x := Lookup(cache, cursor);
    if x.Some? {
      var y := Lookup(cache, ParentKeyAsWritten(x));
      assert y == CachedParent(cache, x.value);
      var z := Lookup(cache, ParentKeyAsWritten(y));
      assert y.None? ==> z.None?;
      assert y.Some? ==> z == CachedParent(cache, y.value);
      assert Present([z, y, x]) == (if y.Some? then (if z.Some? then [z.value] else []) + [y.value] else []) + [x.value] by {
        assert Present([z, y, x]) == (if z.Some? then [z.value] else []) + Present([y, x]);
        assert Present([y, x]) == (if y.Some? then [y.value] else []) + Present([x]);
        assert Present([x]) == [x.value] + Present([]);
      }
    }
  }
}
