/**
 * `_RouteItem` of aqua/router.py: a trie keyed by path segment. Every node holds
 * the routes below it (a map from the next segment to a node, or nothing once a
 * route with parameters is registered at the node) and its method table, which
 * maps a request method to the endpoint and the names of the parameters that
 * bind the remaining segments. The table keeps Python's insertion order.
 */
module RouteTrie {
  import opened Types

  /** A view callable, told apart by `id`; `name` is its `__name__`. */
  datatype View = View(id: nat, name: string)

  /** A method-table entry: `(endpoint,) + argnames`. */
  datatype Entry = Entry(view: View, argnames: seq<string>)

  /** The `routes` attribute: None, or the children by path segment. */
  datatype Routes = NoRoutes | Routes(children: map<string, Node>)

  datatype Node = Node(routes: Routes, methods: seq<(string, Entry)>)

  /** The exceptions a routine of the router can raise. */
  datatype Exception = ValueError | TypeError | IndexError | NameError

  /** A fresh `_RouteItem()`. */
  const Empty: Node := Node(Routes(map[]), [])

  /** `methods.get(method)`. */
  function Get(methods: seq<(string, Entry)>, verb: string): (r: Option<Entry>)
    ensures r.Some? ==> exists i :: 0 <= i < |methods| && methods[i] == (verb, r.value)
    ensures r.None? ==> forall i :: 0 <= i < |methods| ==> methods[i].0 != verb
  {
    if |methods| == 0 then None
    else if methods[0].0 == verb then Some(methods[0].1)
    else
      var r := Get(methods[1..], verb);
      assert r.Some? ==> methods[1..][0] == methods[1];
      r
  }

  /** `tuple(methods.keys())`. */
  function MethodNames(methods: seq<(string, Entry)>): (r: seq<string>)
    ensures |r| == |methods| && forall i :: 0 <= i < |methods| ==> r[i] == methods[i].0
  {
    if |methods| == 0 then [] else [methods[0].0] + MethodNames(methods[1..])
  }

  /**
   * `dict(zip_longest(names, values))` when there are at least as many names as
   * values: a name past the values binds None, and a repeated name keeps its last
   * value.
   */
  function Bind(names: seq<string>, values: seq<string>): (r: map<string, Option<string>>)
    requires |names| >= |values|
    ensures r.Keys == set i | 0 <= i < |names| :: names[i]
  {
    if |names| == 0 then map[]
    else
      var rest := Bind(names[1..], if |values| > 0 then values[1..] else []);
      assert forall i :: 0 < i < |names| ==> names[i] == names[1..][i - 1];
      assert forall j :: 0 <= j < |names| - 1 ==> names[1..][j] == names[j + 1];
      map[names[0] := if |values| > 0 then Some(values[0]) else None] + rest
  }

  /** What `_RouteItem.__call__` returns: an endpoint and its url vars, or the allowed methods. */
  datatype Resolution = Found(view: View, args: map<string, Option<string>>) | Unresolved(allowed: seq<string>)

  /**
   * `_RouteItem.__call__(split_path, method)`: the node's own entry for the
   * method is tried first, and it takes the remaining segments when it has at
   * least as many parameter names; else the first segment selects a child. With no
   * segment left the node's methods are reported (405), otherwise none (404).
   */
  function Resolve(n: Node, path: seq<string>, verb: string): Resolution
    decreases n
  {
    var e := Get(n.methods, verb);
    if e.Some? && |e.value.argnames| >= |path| then Found(e.value.view, Bind(e.value.argnames, path))
    else if n.routes.Routes? && |path| > 0 && path[0] in n.routes.children then
      Resolve(n.routes.children[path[0]], path[1..], verb)
    else if |path| == 0 then Unresolved(MethodNames(n.methods))
    else Unresolved([])
  }

  /** What `_RouteItem.add` registers: an endpoint for a method, or (method None) a whole trie. */
  datatype Target = Endpoint(verb: string, entry: Entry) | Mount(root: Node)

  /**
   * `_RouteItem.add(split_path, method, endpoint, *argnames)` on the value of the
   * node: the node with the target registered under `path`, or the exception.
   * A missing child is created before the recursive call; that call cannot raise
   * on a fresh node (`RouteTrieProps.AddFresh`), so an error leaves the trie as it
   * was.
   */
  function Add(n: Node, path: seq<string>, target: Target): Result<Node, Exception>
    decreases |path|
  {
    if |path| == 0 then
      match target
      case Endpoint(verb, entry) =>
        if Get(n.methods, verb).Some? then Err(ValueError)
        else if |entry.argnames| > 0 && n.routes.Routes? && |n.routes.children| > 0 then Err(ValueError)
        else Ok(Node(if |entry.argnames| > 0 then NoRoutes else n.routes, n.methods + [(verb, entry)]))
      case Mount(root) =>
        if |n.methods| != 0 then Err(ValueError)
        else if n.routes.NoRoutes? then Err(TypeError)
        else if |n.routes.children| == 0 then Ok(root)
        else Err(ValueError)
    else if n.routes.NoRoutes? then Err(ValueError)
    else
      var children := n.routes.children;
      var child := if path[0] in children then children[path[0]] else Empty;
      var r := Add(child, path[1..], target);
      if r.Err? then Err(r.error)
      else Ok(n.(routes := Routes(children[path[0] := r.value])))
  }

  /** The node reached by following literal segments, if every one has a child. */
  function Walk(n: Node, path: seq<string>): Option<Node>
    decreases |path|
  {
    if |path| == 0 then Some(n)
    else if n.routes.Routes? && path[0] in n.routes.children then Walk(n.routes.children[path[0]], path[1..])
    else None
  }

  /**
   * The shape every trie built by `add` keeps: a node that still takes literal
   * children has only entries without parameters, and so do its descendants.
   */
  predicate Valid(n: Node)
    decreases n
  {
    n.routes.Routes? ==>
      && (forall i :: 0 <= i < |n.methods| ==> n.methods[i].1.argnames == [])
      && (forall k :: k in n.routes.children ==> Valid(n.routes.children[k]))
  }
}
