/**
 * `TraversalRouter` of aqua/router.py as an object whose routines update its two
 * fields in place. Each method is proved to do what the matching function of
 * `Routing` says; resolution (`route`) reads the fields through `Routing.Route`.
 */
module Router {
  import opened Types
  import opened Text
  import opened RouteTrie
  import R = Routing

  class TraversalRouter {
    /** `_views`: view name to the templates registered under it. */
    var views: map<string, seq<R.ViewItem>>
    /** `_routes`: the root of the trie. */
    var root: Node

    function State(): R.RouterState
      reads this
    {
      R.RouterState(views, root)
    }

    constructor ()
      ensures State() == R.RouterState(map[], Empty)
    {
      views := map[];
      root := Empty;
    }

    /** `add_route(route, method, view, name=...)`; on an exception nothing changes. */
    method AddRoute(route: string, verb: string, view: View, name: Option<string>) returns (error: Option<Exception>)
      modifies this
      ensures var r := R.AddRoute(old(State()), route, verb, view, name);
              if error.Some? then r == Err(error.value) && State() == old(State()) else r == Ok(State())
    {
      var parsed := Parse(R.Segments(route));
      if parsed.Err? {
        return Some(parsed.error);
      }
      var splitPath, argnames := parsed.value.literals, parsed.value.argnames;
      var added := Add(root, splitPath, Endpoint(verb, Entry(view, argnames)));
      if added.Err? {
        return Some(ValueError);
      }
      root := added.value;
      var viewName := if name.Some? then name.value else view.name;
      var list := if viewName in views then views[viewName] else [];
      var item := R.ViewItem("/" + Join(splitPath, "/"), argnames);
      if item !in list {
        list := R.SortDescending(list + [item]);
      }
      views := views[viewName := list];
      error := None;
    }

    /** The loop of `add_route` over the template's segments. */
    static method Parse(parts: seq<string>) returns (r: Result<R.Pattern, Exception>)
      ensures r == R.ParseParts(parts, [], [])
    {
      var argnames: seq<string> := [];
      var splitPath: seq<string> := [];
      for i := 0 to |parts|
        invariant R.ParseParts(parts[i..], splitPath, argnames) == R.ParseParts(parts, [], [])
      {
        assert parts[i..][1..] == parts[i + 1..];
        var part := parts[i];
        if |part| == 0 {
          return Err(IndexError);
        }
        if part[0] != ':' {
          if |argnames| == 0 {
            splitPath := splitPath + [part];
          } else {
            return Err(NameError);
          }
        } else {
          argnames := argnames + [part[1..]];
        }
      }
      assert parts[|parts|..] == [];
      r := Ok(R.Pattern(splitPath, argnames));
    }

    /** `url_for(view_name, **kwargs)`. */
    method UrlFor(viewName: string, kwargs: map<string, string>) returns (url: Option<string>)
      ensures url == R.UrlFor(views, viewName, kwargs)
    {
      var result: Option<seq<string>> := None;
      var foundNone := false;
      var items := R.ViewsOf(views, viewName);
      for i := 0 to |items|
        invariant R.Scanned(items[i..], kwargs, R.Scan(result, foundNone)) == R.Scanned(items, kwargs, R.Scan(None, false))
      {
        assert items[i..][1..] == items[i + 1..];
        var item := items[i];
        if |item.argnames| >= |kwargs| && forall k :: k in kwargs ==> k in item.argnames {
          result, foundNone := Fill(item.argnames, kwargs, Split(item.path, "/"), foundNone);
        }
      }
      url := if result.Some? then Some(Join(result.value, "/")) else None;
    }

    /** The inner loop of `url_for` over one candidate's names. */
    static method Fill(names: seq<string>, kwargs: map<string, string>, pieces: seq<string>, foundNone0: bool)
      returns (result: Option<seq<string>>, foundNone: bool)
      ensures R.Scan(result, foundNone) == R.Fill(names, kwargs, pieces, foundNone0)
    {
      foundNone := foundNone0;
      var res := pieces;
      var j := 0;
      while j < |names|
        invariant 0 <= j <= |names|
        invariant R.Fill(names[j..], kwargs, res, foundNone) == R.Fill(names, kwargs, pieces, foundNone0)
      {
        assert names[j..][1..] == names[j + 1..];
        var part := if names[j] in kwargs then Some(kwargs[names[j]]) else None;
        foundNone := if part.None? then true else foundNone;
        if part.Some? {
          if !foundNone {
            res := res + [part.value];
          } else {
            return None, foundNone;
          }
        }
        j := j + 1;
      }
      result := Some(res);
    }

    /** The rewrite of a sub-router's list of templates, entry by entry in place. */
    static method Rebased(scriptName: string, items: seq<R.ViewItem>) returns (r: seq<R.ViewItem>)
      ensures r == R.RebaseAll(scriptName, items)
    {
      var value := new R.ViewItem[|items|](i requires 0 <= i < |items| => items[i]);
      for n := 0 to value.Length
        invariant forall i :: 0 <= i < n ==> value[i] == R.Rebase(scriptName, items[i])
        invariant forall i :: n <= i < value.Length ==> value[i] == items[i]
      {
        var item := value[n];
        var path := if item.path == "/" then scriptName else scriptName + item.path;
        value[n] := item.(path := path);
      }
      r := value[..];
    }

    /** `update(script_name, sub_router)`, reading the sub-router as it was before the call. */
    method Update(scriptName: string, sub: TraversalRouter) returns (error: Option<Exception>)
      modifies this
      ensures var r := R.Update(old(State()), scriptName, old(sub.State()));
              if error.Some? then r == Err(error.value) && State() == old(State()) else r == Ok(State())
    {
      var subViews, subRoot := sub.views, sub.root;
      var segs := R.Segments(scriptName);
      if |segs| == 0 {
        return Some(ValueError);
      }
      var added := Add(root, segs, Mount(subRoot));
      if added.Err? {
        return Some(added.error);
      }
      root := added.value;
      views := Merge(views, R.NamePrefix(segs), scriptName, subViews);
      error := None;
    }

    /** The loop of `update` over the sub-router's view names. */
    static method Merge(views0: map<string, seq<R.ViewItem>>, prefix: string, scriptName: string, subViews: map<string, seq<R.ViewItem>>)
      returns (views: map<string, seq<R.ViewItem>>)
      ensures views == R.Merged(views0, prefix, scriptName, subViews)
    {
      views := views0;
      ghost var done: map<string, seq<R.ViewItem>> := map[];
      MergedEmpty(views0, prefix, scriptName);
      var todo := subViews.Keys;
      while todo != {}
        invariant todo <= subViews.Keys
        invariant done.Keys == subViews.Keys - todo
        invariant forall j :: j in done ==> done[j] == subViews[j]
        invariant views == R.Merged(views0, prefix, scriptName, done)
        decreases |todo|
      {
        var viewName :| viewName in todo;
        var value := Rebased(scriptName, subViews[viewName]);
        MergedAdd(views0, prefix, scriptName, done, viewName, subViews[viewName]);
        views := views[prefix + viewName := value];
        done := done[viewName := subViews[viewName]];
        todo := todo - {viewName};
      }
      assert done == subViews;
    }
  }

  lemma MergedEmpty(views: map<string, seq<R.ViewItem>>, prefix: string, scriptName: string)
    ensures R.Merged(views, prefix, scriptName, map[]) == views
  {
    assert R.Prefixed(prefix, {}) == {};
  }

  lemma PrefixedAdd(prefix: string, names: set<string>, name: string)
    ensures R.Prefixed(prefix, names + {name}) == R.Prefixed(prefix, names) + {prefix + name}
  {
  }

  /** Taking one more view of the sub-router into the merge writes its rebased list under its prefixed name. */
  lemma MergedAdd(views: map<string, seq<R.ViewItem>>, prefix: string, scriptName: string,
                  done: map<string, seq<R.ViewItem>>, name: string, value: seq<R.ViewItem>)
    ensures R.Merged(views, prefix, scriptName, done[name := value]) ==
              R.Merged(views, prefix, scriptName, done)[prefix + name := R.RebaseAll(scriptName, value)]
  {
    var m1 := R.Merged(views, prefix, scriptName, done[name := value]);
    var m2 := R.Merged(views, prefix, scriptName, done)[prefix + name := R.RebaseAll(scriptName, value)];
    PrefixedAdd(prefix, done.Keys, name);
    assert done[name := value].Keys == done.Keys + {name};
    assert (prefix + name)[..|prefix|] == prefix && (prefix + name)[|prefix|..] == name;
    forall k | k in m1.Keys
      ensures m1[k] == m2[k]
    {
      if k != prefix + name && |prefix| <= |k| && k[..|prefix|] == prefix {
        assert k == prefix + k[|prefix|..];
      }
    }
  }
}
