/**
 * `TraversalRouter` of aqua/router.py as functions over its state: the trie of
 * routes and the index from view names to the templates registered under them,
 * which `url_for` reads back.
 */
module Routing {
  import opened Types
  import opened Text
  import opened RouteTrie

  /** `path.split('/')[1:]`, where a lone empty piece means no segment. */
  function Segments(path: string): seq<string>
  {
    var parts := Split(path, "/")[1..];
    if parts == [""] then [] else parts
  }

  /** How `route` ends: a view and its url vars, or `HTTPNotFound`, or `HTTPMethodNotAllowed` and its `Allow`. */
  datatype Routed = Routed(view: View, args: map<string, Option<string>>) | NotFound | MethodNotAllowed(allow: string)

  /** `TraversalRouter.route(path_info, method)`. */
  function Route(root: Node, pathInfo: string, verb: string): Routed
  {
    var r := Resolve(root, Segments(pathInfo), verb);
    if r.Found? then Routed(r.view, r.args)
    else if |r.allowed| > 0 then MethodNotAllowed(Join(r.allowed, ","))
    else NotFound
  }

  // ---------------------------------------------------------------------------
  // add_route
  // ---------------------------------------------------------------------------

  /** A route template: its literal segments, then the names of its `:name` segments. */
  datatype Pattern = Pattern(literals: seq<string>, argnames: seq<string>)

  /**
   * The loop of `add_route` over the template's segments: an empty segment fails
   * at `part[0]`, and a literal after a parameter fails at the undefined `path`.
   */
  function ParseParts(parts: seq<string>, literals: seq<string>, argnames: seq<string>): Result<Pattern, Exception>
    decreases |parts|
  {
    if |parts| == 0 then Ok(Pattern(literals, argnames))
    else
      var part := parts[0];
      if |part| == 0 then Err(IndexError)
      else if part[0] != ':' then
        if |argnames| == 0 then ParseParts(parts[1..], literals + [part], argnames) else Err(NameError)
      else ParseParts(parts[1..], literals, argnames + [part[1..]])
  }

  function ParseRoute(route: string): Result<Pattern, Exception>
  {
    ParseParts(Segments(route), [], [])
  }

  /** An entry of the view index: `('/' + '/'.join(literals),) + tuple(argnames)`. */
  datatype ViewItem = ViewItem(path: string, argnames: seq<string>)

  function ItemOf(p: Pattern): ViewItem
  {
    ViewItem("/" + Join(p.literals, "/"), p.argnames)
  }

  /** The tuple an entry is. */
  function Key(item: ViewItem): seq<string>
  {
    [item.path] + item.argnames
  }

  /** Python's `<` on the tuples. */
  predicate ItemLess(a: ViewItem, b: ViewItem)
  {
    TupleLess(Key(a), Key(b))
  }

  /** Each entry is at least as great as every later one. */
  predicate Descending(l: seq<ViewItem>)
  {
    forall i, j :: 0 <= i < j < |l| ==> !ItemLess(l[i], l[j])
  }

  /** Puts `x` into a descending list after the entries greater than it. */
  function Insert(l: seq<ViewItem>, x: ViewItem): seq<ViewItem>
    decreases |l|
  {
    if |l| == 0 then [x]
    else if ItemLess(x, l[0]) then [l[0]] + Insert(l[1..], x)
    else [x] + l
  }

  /** `list(reversed(sorted(l)))`, as an insertion sort. */
  function SortDescending(l: seq<ViewItem>): seq<ViewItem>
    decreases |l|
  {
    if |l| == 0 then [] else Insert(SortDescending(l[..|l| - 1]), l[|l| - 1])
  }

  /** The router's fields: `_views` and `_routes`. */
  datatype RouterState = RouterState(views: map<string, seq<ViewItem>>, root: Node)

  /** `self._views.get(name, list())`. */
  function ViewsOf(views: map<string, seq<ViewItem>>, name: string): seq<ViewItem>
  {
    if name in views then views[name] else []
  }

  /** `options.get('name', view.__name__)`. */
  function ViewName(view: View, name: Option<string>): string
  {
    if name.Some? then name.value else view.name
  }

  /** The index after registering `item` under `name`: appended and sorted, unless already there. */
  function Indexed(views: map<string, seq<ViewItem>>, name: string, item: ViewItem): map<string, seq<ViewItem>>
  {
    var list := ViewsOf(views, name);
    views[name := if item in list then list else SortDescending(list + [item])]
  }

  /**
   * `add_route(route, method, view, name=...)`: parse the template, register the
   * endpoint in the trie (any `ValueError` of `add` is raised again as one), then
   * index the template under the view name.
   */
  function AddRoute(st: RouterState, route: string, verb: string, view: View, name: Option<string>): Result<RouterState, Exception>
  {
    var p := ParseRoute(route);
    if p.Err? then Err(p.error)
    else
      var added := Add(st.root, p.value.literals, Endpoint(verb, Entry(view, p.value.argnames)));
      if added.Err? then Err(ValueError)
      else Ok(RouterState(Indexed(st.views, ViewName(view, name), ItemOf(p.value)), added.value))
  }

  // ---------------------------------------------------------------------------
  // url_for
  // ---------------------------------------------------------------------------

  /** The variables `result` and `found_none` of `url_for`. */
  datatype Scan = Scan(result: Option<seq<string>>, foundNone: bool)

  /**
   * The inner loop of `url_for` over a candidate's names, from `result` holding
   * the candidate's path pieces: a missing name sets `found_none`, a supplied one
   * is appended unless a name was missing before, which voids the candidate.
   */
  function Fill(names: seq<string>, kwargs: map<string, string>, result: seq<string>, foundNone: bool): Scan
    decreases |names|
  {
    if |names| == 0 then Scan(Some(result), foundNone)
    else if names[0] !in kwargs then Fill(names[1..], kwargs, result, true)
    else if !foundNone then Fill(names[1..], kwargs, result + [kwargs[names[0]]], foundNone)
    else Scan(None, foundNone)
  }

  /** A candidate takes the call when its names cover the supplied ones. */
  predicate Qualifies(item: ViewItem, kwargs: map<string, string>)
  {
    |item.argnames| >= |kwargs| && forall k :: k in kwargs ==> k in item.argnames
  }

  /** The outer loop of `url_for`: every qualifying candidate is tried, with no early exit. */
  function Scanned(items: seq<ViewItem>, kwargs: map<string, string>, st: Scan): Scan
    decreases |items|
  {
    if |items| == 0 then st
    else
      var item := items[0];
      var st' := if Qualifies(item, kwargs) then Fill(item.argnames, kwargs, Split(item.path, "/"), st.foundNone) else st;
      Scanned(items[1..], kwargs, st')
  }

  /** `url_for(view_name, **kwargs)`. */
  function UrlFor(views: map<string, seq<ViewItem>>, viewName: string, kwargs: map<string, string>): Option<string>
  {
    var st := Scanned(ViewsOf(views, viewName), kwargs, Scan(None, false));
    if st.result.Some? then Some(Join(st.result.value, "/")) else None
  }

  // ---------------------------------------------------------------------------
  // update
  // ---------------------------------------------------------------------------

  /** A sub-router's template seen from its mount point: `/` becomes the mount point itself. */
  function Rebase(scriptName: string, item: ViewItem): ViewItem
  {
    item.(path := if item.path == "/" then scriptName else scriptName + item.path)
  }

  function RebaseAll(scriptName: string, items: seq<ViewItem>): (r: seq<ViewItem>)
    ensures |r| == |items| && forall i :: 0 <= i < |items| ==> r[i] == Rebase(scriptName, items[i])
  {
    if |items| == 0 then [] else [Rebase(scriptName, items[0])] + RebaseAll(scriptName, items[1..])
  }

  /** `':'.join(split_path) + ':'`, put before every mounted view name. */
  function NamePrefix(segs: seq<string>): string
  {
    Join(segs, ":") + ":"
  }

  /** The names `prefix + j` for `j` in `names`. */
  function Prefixed(prefix: string, names: set<string>): set<string>
  {
    set j | j in names :: prefix + j
  }

  /** `k` is a view name of `sub` with `prefix` put before it. */
  predicate MountedName(prefix: string, sub: map<string, seq<ViewItem>>, k: string)
  {
    |prefix| <= |k| && k[..|prefix|] == prefix && k[|prefix|..] in sub
  }

  /** The index with the sub-router's entries added under prefixed names, overwriting any there. */
  function Merged(views: map<string, seq<ViewItem>>, prefix: string, scriptName: string, sub: map<string, seq<ViewItem>>): map<string, seq<ViewItem>>
  {
    map k | k in views.Keys + Prefixed(prefix, sub.Keys) ::
      if MountedName(prefix, sub, k) then RebaseAll(scriptName, sub[k[|prefix|..]]) else views[k]
  }

  /**
   * `update(script_name, sub_router)`: an empty prefix is refused, the
   * sub-router's trie is mounted under the prefix (its errors propagate), and its
   * views are re-keyed and rebased.
   */
  function Update(st: RouterState, scriptName: string, sub: RouterState): Result<RouterState, Exception>
  {
    var segs := Segments(scriptName);
    if |segs| == 0 then Err(ValueError)
    else
      var added := Add(st.root, segs, Mount(sub.root));
      if added.Err? then Err(added.error)
      else Ok(RouterState(Merged(st.views, NamePrefix(segs), scriptName, sub.views), added.value))
  }
}
