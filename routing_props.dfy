/**
 * What `TraversalRouter` promises: templates parse exactly when they are literal
 * segments followed by parameters, a registered template resolves to its view,
 * the view index stays sorted and free of repeats, `url_for` builds a path that
 * resolves back to the names it was given, and a mounted router answers below
 * its prefix as it did on its own.
 */
module RoutingProps {
  import opened Types
  import opened Text
  import opened RouteTrie
  import opened RouteTrieProps
  import opened Routing

  // ---------------------------------------------------------------------------
  // Paths and segments
  // ---------------------------------------------------------------------------

  /** No segment of a path holds a slash. */
  lemma SegmentsLack(path: string)
    ensures forall i :: 0 <= i < |Segments(path)| ==> Lacks(Segments(path)[i], '/')
  {
    SplitPiecesLack(path, '/');
    var parts := Split(path, "/");
    assert forall i :: 0 <= i < |parts| - 1 ==> parts[1..][i] == parts[i + 1];
  }

  /** The path `'/' + '/'.join(xs)` splits back into `xs`. */
  lemma SegmentsJoin(xs: seq<string>)
    requires forall i :: 0 <= i < |xs| ==> Lacks(xs[i], '/')
    requires xs != [""]
    ensures Segments("/" + Join(xs, "/")) == xs
  {
    if |xs| == 0 {
      SegmentsRoot();
    } else {
      var s := Join(xs, "/");
      SplitAround("", '/', s);
      SplitJoin(xs, '/');
      assert "" + ['/'] + s == "/" + s;
      SplitEmpty();
      assert Split("/" + s, "/")[1..] == xs;
    }
  }

  lemma SplitEmpty()
    ensures Split("", "/") == [""]
  {
  }

  /** `/` has no segments. */
  lemma SegmentsRoot()
    ensures Segments("/" + Join([], "/")) == []
  {
    SplitEmpty();
    SplitAround("", '/', "");
    assert "/" + Join([], "/") == "" + ['/'] + "";
  }

  // ---------------------------------------------------------------------------
  // Parsing templates
  // ---------------------------------------------------------------------------

  /** The `:name` segments of a template for the parameter names. */
  function Params(names: seq<string>): seq<string>
  {
    if |names| == 0 then [] else [[':'] + names[0]] + Params(names[1..])
  }

  lemma {:induction false} ParamsAppend(names: seq<string>, name: string)
    ensures Params(names + [name]) == Params(names) + [[':'] + name]
    decreases |names|
  {
    if |names| > 0 {
      assert (names + [name])[1..] == names[1..] + [name];
      ParamsAppend(names[1..], name);
    } else {
      assert names + [name] == [name];
    }
  }

  /** A literal segment of a template: not empty, and not a parameter. */
  predicate Literal(part: string)
  {
    |part| > 0 && part[0] != ':'
  }

  predicate Literals(parts: seq<string>)
  {
    forall i :: 0 <= i < |parts| ==> Literal(parts[i])
  }

  /** Literal segments are collected while no parameter has been seen. */
  lemma {:induction false} ParseLiterals(lits: seq<string>, rest: seq<string>, acc: seq<string>)
    requires Literals(lits)
    ensures ParseParts(lits + rest, acc, []) == ParseParts(rest, acc + lits, [])
    decreases |lits|
  {
    if |lits| > 0 {
      assert (lits + rest)[0] == lits[0] && (lits + rest)[1..] == lits[1..] + rest;
      ParseLiterals(lits[1..], rest, acc + [lits[0]]);
      assert acc + [lits[0]] + lits[1..] == acc + lits;
    } else {
      assert lits + rest == rest && acc + lits == acc;
    }
  }

  /** Parameter segments are collected whatever came before. */
  lemma {:induction false} ParseParams(names: seq<string>, rest: seq<string>, acc: seq<string>, args: seq<string>)
    ensures ParseParts(Params(names) + rest, acc, args) == ParseParts(rest, acc, args + names)
    decreases |names|
  {
    if |names| > 0 {
      var parts := Params(names) + rest;
      assert parts[0] == [':'] + names[0] && parts[1..] == Params(names[1..]) + rest;
      assert ([':'] + names[0])[1..] == names[0];
      assert ParseParts(parts, acc, args) == ParseParts(parts[1..], acc, args + [names[0]]);
      ParseParams(names[1..], rest, acc, args + [names[0]]);
      assert args + [names[0]] + names[1..] == args + names;
    } else {
      assert Params(names) + rest == rest && args + names == args;
    }
  }

  /** A template's literal segments and parameters are consumed before whatever follows. */
  lemma ParsePrefix(lits: seq<string>, names: seq<string>, rest: seq<string>)
    requires Literals(lits)
    ensures ParseParts(lits + Params(names) + rest, [], []) == ParseParts(rest, lits, names)
  {
    assert lits + Params(names) + rest == lits + (Params(names) + rest);
    ParseLiterals(lits, Params(names) + rest, []);
    ParseParams(names, rest, lits, []);
    assert [] + lits == lits && [] + names == names;
  }

  /** Literal segments followed by parameters parse to exactly those. */
  lemma ParseTemplate(lits: seq<string>, names: seq<string>)
    requires Literals(lits)
    ensures ParseParts(lits + Params(names), [], []) == Ok(Pattern(lits, names))
  {
    ParsePrefix(lits, names, []);
    assert lits + Params(names) + [] == lits + Params(names);
  }

  /** An empty segment (a doubled or trailing slash) fails at `part[0]` with an `IndexError`. */
  lemma ParseEmptySegment(lits: seq<string>, names: seq<string>, rest: seq<string>)
    requires Literals(lits)
    ensures ParseParts(lits + Params(names) + ([""] + rest), [], []) == Err(IndexError)
  {
    ParsePrefix(lits, names, [""] + rest);
  }

  /** A literal segment after a parameter fails at the undefined `path` with a `NameError`. */
  lemma ParseLiteralAfterParam(lits: seq<string>, names: seq<string>, part: string, rest: seq<string>)
    requires Literals(lits) && |names| > 0 && Literal(part)
    ensures ParseParts(lits + Params(names) + ([part] + rest), [], []) == Err(NameError)
  {
    ParsePrefix(lits, names, [part] + rest);
  }

  /** What parsed is the template it came from: the collected literals, then the parameters. */
  lemma {:induction false} ParseResult(parts: seq<string>, acc: seq<string>, args: seq<string>)
    requires Literals(acc)
    requires ParseParts(parts, acc, args).Ok?
    ensures var p := ParseParts(parts, acc, args).value;
            Literals(p.literals) && acc + Params(args) + parts == p.literals + Params(p.argnames)
    decreases |parts|
  {
    var p := ParseParts(parts, acc, args).value;
    if |parts| == 0 {
      assert acc + Params(args) + parts == acc + Params(args);
    } else {
      var part := parts[0];
      assert parts == [part] + parts[1..];
      if part[0] != ':' {
        assert Literals(acc + [part]);
        ParseResult(parts[1..], acc + [part], args);
        assert args == [];
        assert acc + Params(args) + parts == acc + [part] + Params(args) + parts[1..];
      } else {
        ParseResult(parts[1..], acc, args + [part[1..]]);
        ParamsAppend(args, part[1..]);
        assert [':'] + part[1..] == part;
        assert acc + Params(args) + parts == acc + (Params(args) + [part]) + parts[1..];
      }
    }
  }

  /**
   * The templates `add_route` accepts are exactly the literal segments followed
   * by parameters: the accepted template parses to its own pieces, and a
   * template of that shape is accepted.
   */
  lemma ParseRouteShape(route: string)
    ensures ParseRoute(route).Ok? ==>
              var p := ParseRoute(route).value;
              Literals(p.literals) && Segments(route) == p.literals + Params(p.argnames)
    ensures forall lits, names :: Literals(lits) && Segments(route) == lits + Params(names) ==>
              ParseRoute(route) == Ok(Pattern(lits, names))
  {
    if ParseRoute(route).Ok? {
      ParseResult(Segments(route), [], []);
      assert [] + Params([]) + Segments(route) == Segments(route);
    }
    forall lits, names | Literals(lits) && Segments(route) == lits + Params(names)
      ensures ParseRoute(route) == Ok(Pattern(lits, names))
    {
      ParseTemplate(lits, names);
    }
  }

  // ---------------------------------------------------------------------------
  // add_route and route
  // ---------------------------------------------------------------------------

  /** The literal segments of an accepted template are its leading segments. */
  lemma ParsedLiterals(route: string)
    requires ParseRoute(route).Ok?
    ensures var p := ParseRoute(route).value;
            Literals(p.literals) && forall i :: 0 <= i < |p.literals| ==> Lacks(p.literals[i], '/')
  {
    var p := ParseRoute(route).value;
    ParseRouteShape(route);
    SegmentsLack(route);
    assert forall i :: 0 <= i < |p.literals| ==> p.literals[i] == Segments(route)[i];
  }

  /** `add_route` keeps the trie `Valid`. */
  lemma AddRouteValid(st: RouterState, route: string, verb: string, view: View, name: Option<string>)
    requires Valid(st.root) && AddRoute(st, route, verb, view, name).Ok?
    ensures Valid(AddRoute(st, route, verb, view, name).value.root)
  {
    var p := ParseRoute(route).value;
    AddValid(st.root, p.literals, Endpoint(verb, Entry(view, p.argnames)));
  }

  /**
   * Resolve after add: the template's literal segments followed by at most as
   * many values as it has parameters resolve to the view, the parameter names
   * binding the values in order and then None.
   */
  lemma AddRouteResolves(st: RouterState, route: string, verb: string, view: View, name: Option<string>, values: seq<string>)
    requires Valid(st.root) && AddRoute(st, route, verb, view, name).Ok?
    requires |values| <= |ParseRoute(route).value.argnames|
    ensures var p := ParseRoute(route).value;
            Resolve(AddRoute(st, route, verb, view, name).value.root, p.literals + values, verb) == Found(view, Bind(p.argnames, values))
  {
    var p := ParseRoute(route).value;
    ResolveAfterAdd(st.root, p.literals, verb, Entry(view, p.argnames), values);
  }

  /**
   * The same for `route` on the request path: `'/' + '/'.join(literals + values)`
   * yields the view and its url vars.
   */
  lemma RouteAfterAddRoute(st: RouterState, route: string, verb: string, view: View, name: Option<string>, values: seq<string>)
    requires Valid(st.root) && AddRoute(st, route, verb, view, name).Ok?
    requires |values| <= |ParseRoute(route).value.argnames|
    requires forall i :: 0 <= i < |values| ==> Lacks(values[i], '/')
    requires ParseRoute(route).value.literals + values != [""]
    ensures var p := ParseRoute(route).value;
            Route(AddRoute(st, route, verb, view, name).value.root, "/" + Join(p.literals + values, "/"), verb) ==
              Routed(view, Bind(p.argnames, values))
  {
    var p := ParseRoute(route).value;
    ParsedLiterals(route);
    var xs := p.literals + values;
    assert forall i :: 0 <= i < |xs| ==> Lacks(xs[i], '/') by {
      forall i | 0 <= i < |xs| ensures Lacks(xs[i], '/') {
        if i >= |p.literals| { assert xs[i] == values[i - |p.literals|]; }
      }
    }
    SegmentsJoin(xs);
    AddRouteResolves(st, route, verb, view, name, values);
  }

  /** With distinct parameter names, each name binds the value in its position, or None. */
  lemma BindDistinct(names: seq<string>, values: seq<string>)
    requires |names| >= |values|
    requires forall i, j :: 0 <= i < j < |names| ==> names[i] != names[j]
    ensures forall i :: 0 <= i < |names| ==> Bind(names, values)[names[i]] == if i < |values| then Some(values[i]) else None
  {
    forall i | 0 <= i < |names|
      ensures Bind(names, values)[names[i]] == if i < |values| then Some(values[i]) else None
    {
      BindValue(names, values, i);
    }
  }

  /**
   * 405 vs 404: when the path's segments run out at a node lacking the method,
   * `route` answers "method not allowed" with the node's methods joined by commas
   * in its `Allow`, or "not found" when the node has no methods.
   */
  lemma RouteExhausted(root: Node, lits: seq<string>, verb: string)
    requires Valid(root) && Walk(root, lits).Some? && Get(Walk(root, lits).value.methods, verb).None?
    requires lits != [""] && forall i :: 0 <= i < |lits| ==> Lacks(lits[i], '/')
    ensures var ms := Walk(root, lits).value.methods;
            Route(root, "/" + Join(lits, "/"), verb) ==
              if |ms| > 0 then MethodNotAllowed(Join(MethodNames(ms), ",")) else NotFound
  {
    SegmentsJoin(lits);
    ResolveAllowed(root, lits, verb);
  }

  /**
   * With segments left and no child for the next one, `route` answers "not
   * found" even when the node has other methods, or an entry for the method with
   * too few parameters to take the rest.
   */
  lemma RouteMissing(root: Node, lits: seq<string>, segment: string, rest: seq<string>, verb: string)
    requires Valid(root) && Walk(root, lits).Some?
    requires var t := Walk(root, lits).value;
             && (t.routes.NoRoutes? || segment !in t.routes.children)
             && (Get(t.methods, verb).None? || |Get(t.methods, verb).value.argnames| <= |rest|)
    requires forall i :: 0 <= i < |lits + ([segment] + rest)| ==> Lacks((lits + ([segment] + rest))[i], '/')
    requires lits + ([segment] + rest) != [""]
    ensures Route(root, "/" + Join(lits + ([segment] + rest), "/"), verb) == NotFound
  {
    var xs := lits + ([segment] + rest);
    SegmentsJoin(xs);
    ResolveMissing(root, lits, segment, rest, verb);
  }

  /**
   * Rejected add: `add_route` fails exactly when the template does not parse, or
   * the trie refuses the endpoint (`RouteTrieProps.AddConflict`), and the trie's
   * refusal is raised again as a `ValueError`.
   */
  lemma AddRouteRejected(st: RouterState, route: string, verb: string, view: View, name: Option<string>)
    ensures AddRoute(st, route, verb, view, name).Err? <==>
              || ParseRoute(route).Err?
              || (var p := ParseRoute(route).value;
                  var target := Endpoint(verb, Entry(view, p.argnames));
                  || BlockedAbove(st.root, p.literals)
                  || (Walk(st.root, p.literals).Some? && Clashes(Walk(st.root, p.literals).value, target)))
    ensures ParseRoute(route).Err? ==> AddRoute(st, route, verb, view, name) == Err(ParseRoute(route).error)
    ensures ParseRoute(route).Ok? && AddRoute(st, route, verb, view, name).Err? ==>
              AddRoute(st, route, verb, view, name) == Err(ValueError)
  {
    if ParseRoute(route).Ok? {
      var p := ParseRoute(route).value;
      AddConflict(st.root, p.literals, Endpoint(verb, Entry(view, p.argnames)));
    }
  }

  // ---------------------------------------------------------------------------
  // The view index
  // ---------------------------------------------------------------------------

  predicate Distinct(l: seq<ViewItem>)
  {
    forall i, j :: 0 <= i < j < |l| ==> l[i] != l[j]
  }

  /** Every list of the index is in descending tuple order and holds no entry twice. */
  predicate IndexValid(views: map<string, seq<ViewItem>>)
  {
    forall k :: k in views ==> Descending(views[k]) && Distinct(views[k])
  }

  lemma {:induction false} InsertElements(l: seq<ViewItem>, x: ViewItem)
    ensures multiset(Insert(l, x)) == multiset(l) + multiset{x}
    decreases |l|
  {
    if |l| > 0 {
      assert l == [l[0]] + l[1..];
      if ItemLess(x, l[0]) {
        InsertElements(l[1..], x);
      }
    }
  }

  lemma {:induction false} InsertDescending(l: seq<ViewItem>, x: ViewItem)
    requires Descending(l)
    ensures Descending(Insert(l, x))
    decreases |l|
  {
    if |l| > 0 {
      if ItemLess(x, l[0]) {
        assert Descending(l[1..]) by {
          assert forall i :: 0 <= i < |l| - 1 ==> l[1..][i] == l[i + 1];
        }
        InsertDescending(l[1..], x);
        InsertBelowHead(l, x);
      } else {
        InsertAtHead(l, x);
      }
    }
  }

  /** Putting `x` behind the head keeps the head at least as great as everything after it. */
  lemma InsertBelowHead(l: seq<ViewItem>, x: ViewItem)
    requires Descending(l) && |l| > 0 && ItemLess(x, l[0]) && Descending(Insert(l[1..], x))
    ensures Descending(Insert(l, x))
  {
    var t := Insert(l[1..], x);
    InsertElements(l[1..], x);
    TupleLessAsymmetric(Key(x), Key(l[0]));
    forall j | 0 <= j < |t| ensures !ItemLess(l[0], t[j]) {
      assert t[j] in multiset(t);
      if t[j] != x {
        assert t[j] in multiset(l[1..]);
        var m :| 0 <= m < |l| - 1 && l[1..][m] == t[j];
        assert l[m + 1] == t[j];
      }
    }
    assert Insert(l, x) == [l[0]] + t;
  }

  /** `x`, at least as great as the head, is at least as great as everything. */
  lemma InsertAtHead(l: seq<ViewItem>, x: ViewItem)
    requires Descending(l) && |l| > 0 && !ItemLess(x, l[0])
    ensures Descending(Insert(l, x))
  {
    forall j | 0 <= j < |l| ensures !ItemLess(x, l[j]) {
      if j > 0 {
        TupleNotLessTransitive(Key(l[j]), Key(l[0]), Key(x));
      }
    }
    assert Insert(l, x) == [x] + l;
  }

  lemma {:induction false} InsertDistinct(l: seq<ViewItem>, x: ViewItem)
    requires Distinct(l) && x !in l
    ensures Distinct(Insert(l, x))
    decreases |l|
  {
    if |l| > 0 && ItemLess(x, l[0]) {
      var t := Insert(l[1..], x);
      assert Distinct(l[1..]) && x !in l[1..] by {
        assert forall i :: 0 <= i < |l| - 1 ==> l[1..][i] == l[i + 1];
      }
      InsertDistinct(l[1..], x);
      InsertElements(l[1..], x);
      assert l[0] !in multiset(l[1..]) by {
        assert forall i :: 0 <= i < |l| - 1 ==> l[1..][i] != l[0];
      }
      assert l[0] !in multiset(t);
      assert Insert(l, x) == [l[0]] + t;
      forall j | 0 <= j < |t| ensures t[j] != l[0] {
        assert t[j] in multiset(t);
      }
    }
  }

  /** `list(reversed(sorted(l)))` is a descending permutation of `l`, without repeats if `l` has none. */
  lemma {:induction false} SortDescendingFacts(l: seq<ViewItem>)
    ensures Descending(SortDescending(l)) && multiset(SortDescending(l)) == multiset(l)
    ensures Distinct(l) ==> Distinct(SortDescending(l))
    decreases |l|
  {
    if |l| > 0 {
      var init, last := l[..|l| - 1], l[|l| - 1];
      var sorted := SortDescending(init);
      assert SortDescending(l) == Insert(sorted, last);
      SortDescendingFacts(init);
      InsertDescending(sorted, last);
      InsertElements(sorted, last);
      LastElements(l);
      if Distinct(l) {
        DistinctInit(l);
        assert last !in multiset(sorted);
        InsertDistinct(sorted, last);
      }
    }
  }

  lemma LastElements(l: seq<ViewItem>)
    requires |l| > 0
    ensures multiset(l) == multiset(l[..|l| - 1]) + multiset{l[|l| - 1]}
  {
    assert l == l[..|l| - 1] + [l[|l| - 1]];
  }

  /** Without repeats, the last entry is not among the others, which have no repeats either. */
  lemma DistinctInit(l: seq<ViewItem>)
    requires |l| > 0 && Distinct(l)
    ensures Distinct(l[..|l| - 1]) && l[|l| - 1] !in multiset(l[..|l| - 1])
  {
    var init := l[..|l| - 1];
    assert forall i :: 0 <= i < |init| ==> init[i] != l[|l| - 1];
  }

  /** `Indexed` puts the entry in the name's list, keeps it sorted and unrepeated, and leaves the other names alone. */
  lemma IndexedFacts(views: map<string, seq<ViewItem>>, name: string, item: ViewItem)
    ensures var l0 := ViewsOf(views, name);
            var v := Indexed(views, name, item);
            && v.Keys == views.Keys + {name}
            && (forall k :: k in views && k != name ==> v[k] == views[k])
            && item in v[name]
            && multiset(v[name]) == (if item in l0 then multiset(l0) else multiset(l0) + multiset{item})
            && (Descending(l0) ==> Descending(v[name]))
            && (Distinct(l0) ==> Distinct(v[name]))
  {
    var l0 := ViewsOf(views, name);
    if item !in l0 {
      var l := l0 + [item];
      SortDescendingFacts(l);
      assert item in multiset(l);
      if Distinct(l0) {
        assert Distinct(l);
      }
    }
  }

  /**
   * Reverse index: after `add_route`, the template's entry is in the list of its
   * view name exactly once more than before unless it was there already, the list
   * stays sorted and unrepeated, and the other names keep their lists.
   */
  lemma AddRouteIndex(st: RouterState, route: string, verb: string, view: View, name: Option<string>)
    requires AddRoute(st, route, verb, view, name).Ok?
    ensures var v := AddRoute(st, route, verb, view, name).value.views;
            var vn := ViewName(view, name);
            var item := ItemOf(ParseRoute(route).value);
            var l0 := ViewsOf(st.views, vn);
            && v.Keys == st.views.Keys + {vn}
            && (forall k :: k in st.views && k != vn ==> v[k] == st.views[k])
            && item in v[vn]
            && multiset(v[vn]) == (if item in l0 then multiset(l0) else multiset(l0) + multiset{item})
            && (Descending(l0) ==> Descending(v[vn]))
            && (Distinct(l0) ==> Distinct(v[vn]))
  {
    IndexedFacts(st.views, ViewName(view, name), ItemOf(ParseRoute(route).value));
  }

  /** `add_route` keeps `IndexValid`. */
  lemma AddRouteKeepsIndex(st: RouterState, route: string, verb: string, view: View, name: Option<string>)
    requires IndexValid(st.views) && AddRoute(st, route, verb, view, name).Ok?
    ensures IndexValid(AddRoute(st, route, verb, view, name).value.views)
  {
    AddRouteIndex(st, route, verb, view, name);
  }

  /** Registering the same template for another method under the same name leaves the index as it was. */
  lemma AddRouteSameTemplate(st: RouterState, route: string, verb: string, verb2: string, view: View, name: Option<string>)
    requires AddRoute(st, route, verb, view, name).Ok?
    requires AddRoute(AddRoute(st, route, verb, view, name).value, route, verb2, view, name).Ok?
    ensures AddRoute(AddRoute(st, route, verb, view, name).value, route, verb2, view, name).value.views ==
              AddRoute(st, route, verb, view, name).value.views
  {
    var st1 := AddRoute(st, route, verb, view, name).value;
    AddRouteIndex(st, route, verb, view, name);
    var vn := ViewName(view, name);
    assert ViewsOf(st1.views, vn) == st1.views[vn];
  }

  // ---------------------------------------------------------------------------
  // url_for
  // ---------------------------------------------------------------------------

  /** The values supplied for the names, in the names' order. */
  function Supplied(names: seq<string>, kwargs: map<string, string>): (r: seq<string>)
    ensures |r| <= |names|
  {
    if |names| == 0 then []
    else (if names[0] in kwargs then [kwargs[names[0]]] else []) + Supplied(names[1..], kwargs)
  }

  /** Some name is not supplied. */
  predicate Missing(names: seq<string>, kwargs: map<string, string>)
  {
    exists i :: 0 <= i < |names| && names[i] !in kwargs
  }

  /** Some supplied name comes after a missing one, or after any name when one was missing before. */
  predicate Voided(names: seq<string>, kwargs: map<string, string>, foundNone: bool)
  {
    exists j :: 0 <= j < |names| && names[j] in kwargs && (foundNone || Missing(names[..j], kwargs))
  }

  lemma MissingTail(names: seq<string>, kwargs: map<string, string>)
    requires |names| > 0
    ensures Missing(names, kwargs) <==> names[0] !in kwargs || Missing(names[1..], kwargs)
  {
    if Missing(names[1..], kwargs) {
      var i :| 0 <= i < |names| - 1 && names[1..][i] !in kwargs;
      assert names[i + 1] !in kwargs;
    }
    if Missing(names, kwargs) && names[0] in kwargs {
      var i :| 0 <= i < |names| && names[i] !in kwargs;
      assert names[1..][i - 1] !in kwargs;
    }
  }

  lemma VoidedTail(names: seq<string>, kwargs: map<string, string>, foundNone: bool)
    requires |names| > 0
    ensures Voided(names, kwargs, foundNone) <==>
              if names[0] !in kwargs then Voided(names[1..], kwargs, true)
              else foundNone || Voided(names[1..], kwargs, foundNone)
  {
    var tail := names[1..];
    forall j | 0 < j <= |names|
      ensures names[..j] == [names[0]] + tail[..j - 1]
    {
    }
    forall j | 0 < j <= |names|
      ensures Missing(names[..j], kwargs) <==> names[0] !in kwargs || Missing(tail[..j - 1], kwargs)
    {
      MissingTail(names[..j], kwargs);
      assert names[..j][1..] == tail[..j - 1];
    }
    if Voided(tail, kwargs, if names[0] !in kwargs then true else foundNone) {
      var j :| 0 <= j < |tail| && tail[j] in kwargs && ((if names[0] !in kwargs then true else foundNone) || Missing(tail[..j], kwargs));
      assert names[j + 1] in kwargs;
    }
    if Voided(names, kwargs, foundNone) && names[0] !in kwargs {
      var j :| 0 <= j < |names| && names[j] in kwargs && (foundNone || Missing(names[..j], kwargs));
      assert tail[j - 1] in kwargs;
    }
    if Voided(names, kwargs, foundNone) && names[0] in kwargs && !foundNone {
      var j :| 0 <= j < |names| && names[j] in kwargs && Missing(names[..j], kwargs);
      assert j > 0;
      assert tail[j - 1] in kwargs;
    }
  }

  /**
   * The inner loop of `url_for`: `found_none` ends up set exactly when it was or
   * some name is missing; the candidate is voided exactly when a supplied name
   * follows a missing one; otherwise the path pieces get the supplied values in
   * the names' order.
   */
  lemma {:induction false} FillFacts(names: seq<string>, kwargs: map<string, string>, pieces: seq<string>, foundNone: bool)
    ensures Fill(names, kwargs, pieces, foundNone).foundNone == (foundNone || Missing(names, kwargs))
    ensures Fill(names, kwargs, pieces, foundNone).result.None? <==> Voided(names, kwargs, foundNone)
    ensures Fill(names, kwargs, pieces, foundNone).result.Some? ==>
              Fill(names, kwargs, pieces, foundNone).result.value == pieces + Supplied(names, kwargs)
    decreases |names|
  {
    if |names| == 0 {
      assert pieces + [] == pieces;
    } else {
      MissingTail(names, kwargs);
      VoidedTail(names, kwargs, foundNone);
      if names[0] !in kwargs {
        FillFacts(names[1..], kwargs, pieces, true);
      } else if !foundNone {
        FillFacts(names[1..], kwargs, pieces + [kwargs[names[0]]], foundNone);
        assert pieces + [kwargs[names[0]]] + Supplied(names[1..], kwargs) == pieces + Supplied(names, kwargs);
      }
    }
  }

  /** With every supplied name before every missing one, the supplied values are the names' leading values. */
  lemma {:induction false} SuppliedPrefix(names: seq<string>, kwargs: map<string, string>)
    requires forall i, j :: 0 <= i < j < |names| && names[j] in kwargs ==> names[i] in kwargs
    ensures var values := Supplied(names, kwargs);
            forall i :: 0 <= i < |names| ==>
              (i < |values| <==> names[i] in kwargs) && (i < |values| ==> values[i] == kwargs[names[i]])
    decreases |names|
  {
    if |names| > 0 {
      var tail := names[1..];
      assert forall i, j :: 0 <= i < j < |tail| && tail[j] in kwargs ==> tail[i] in kwargs by {
        forall i, j | 0 <= i < j < |tail| && tail[j] in kwargs ensures tail[i] in kwargs {
          assert names[j + 1] in kwargs;
          assert names[i + 1] in kwargs;
        }
      }
      SuppliedPrefix(tail, kwargs);
      if names[0] !in kwargs {
        assert forall j :: 0 < j < |names| ==> names[j] !in kwargs;
        SuppliedNone(tail, kwargs);
      } else {
        forall i | 0 < i < |names| ensures names[i] == tail[i - 1] { }
      }
    }
  }

  lemma {:induction false} SuppliedNone(names: seq<string>, kwargs: map<string, string>)
    requires forall i :: 0 <= i < |names| ==> names[i] !in kwargs
    ensures Supplied(names, kwargs) == []
    decreases |names|
  {
    if |names| > 0 {
      assert forall i :: 0 <= i < |names| - 1 ==> names[1..][i] == names[i + 1];
      SuppliedNone(names[1..], kwargs);
    }
  }

  /** The outer loop of `url_for` runs over two lists one after the other. */
  lemma {:induction false} ScannedAppend(a: seq<ViewItem>, b: seq<ViewItem>, kwargs: map<string, string>, st: Scan)
    ensures Scanned(a + b, kwargs, st) == Scanned(b, kwargs, Scanned(a, kwargs, st))
    decreases |a|
  {
    if |a| > 0 {
      assert (a + b)[0] == a[0] && (a + b)[1..] == a[1..] + b;
      var st' := if Qualifies(a[0], kwargs) then Fill(a[0].argnames, kwargs, Split(a[0].path, "/"), st.foundNone) else st;
      ScannedAppend(a[1..], b, kwargs, st');
    } else {
      assert a + b == b;
    }
  }

  /** Candidates that do not qualify change nothing. */
  lemma {:induction false} ScannedSkip(items: seq<ViewItem>, kwargs: map<string, string>, st: Scan)
    requires forall i :: 0 <= i < |items| ==> !Qualifies(items[i], kwargs)
    ensures Scanned(items, kwargs, st) == st
    decreases |items|
  {
    if |items| > 0 {
      assert forall i :: 0 <= i < |items| - 1 ==> items[1..][i] == items[i + 1];
      ScannedSkip(items[1..], kwargs, st);
    }
  }

  /** `found_none` is never reset: after the loop it is set exactly when some qualifying candidate missed a name. */
  lemma {:induction false} ScannedFoundNone(items: seq<ViewItem>, kwargs: map<string, string>, st: Scan)
    ensures Scanned(items, kwargs, st).foundNone <==>
              st.foundNone || exists i :: 0 <= i < |items| && Qualifies(items[i], kwargs) && Missing(items[i].argnames, kwargs)
    decreases |items|
  {
    if |items| > 0 {
      var x := items[0];
      var st' := if Qualifies(x, kwargs) then Fill(x.argnames, kwargs, Split(x.path, "/"), st.foundNone) else st;
      FillFacts(x.argnames, kwargs, Split(x.path, "/"), st.foundNone);
      ScannedFoundNone(items[1..], kwargs, st');
      assert forall i :: 0 <= i < |items| - 1 ==> items[1..][i] == items[i + 1];
      if exists i :: 0 <= i < |items| && Qualifies(items[i], kwargs) && Missing(items[i].argnames, kwargs) {
        var i :| 0 <= i < |items| && Qualifies(items[i], kwargs) && Missing(items[i].argnames, kwargs);
        if i > 0 {
          assert items[1..][i - 1] == items[i];
        }
      }
    }
  }

  /** Unless some candidate's names cover the supplied ones, `url_for` returns None. */
  lemma UrlForNone(views: map<string, seq<ViewItem>>, viewName: string, kwargs: map<string, string>)
    requires forall i :: 0 <= i < |ViewsOf(views, viewName)| ==> !Qualifies(ViewsOf(views, viewName)[i], kwargs)
    ensures UrlFor(views, viewName, kwargs) == None
  {
    ScannedSkip(ViewsOf(views, viewName), kwargs, Scan(None, false));
  }

  /**
   * No early exit: the last qualifying candidate decides the result, filled from
   * whatever `found_none` the candidates before it left.
   */
  lemma UrlForLast(views: map<string, seq<ViewItem>>, viewName: string, kwargs: map<string, string>,
                   before: seq<ViewItem>, x: ViewItem, after: seq<ViewItem>)
    requires ViewsOf(views, viewName) == before + [x] + after
    requires Qualifies(x, kwargs) && forall i :: 0 <= i < |after| ==> !Qualifies(after[i], kwargs)
    ensures var f := Fill(x.argnames, kwargs, Split(x.path, "/"), Scanned(before, kwargs, Scan(None, false)).foundNone);
            UrlFor(views, viewName, kwargs) == if f.result.Some? then Some(Join(f.result.value, "/")) else None
  {
    var st0 := Scan(None, false);
    ScannedAppend(before + [x], after, kwargs, st0);
    ScannedAppend(before, [x], kwargs, st0);
    ScannedSkip(after, kwargs, Scanned(before + [x], kwargs, st0));
  }

  /**
   * The flag is not reset between candidates: once a qualifying candidate has
   * missed a name, a later qualifying candidate given any value is voided, so if
   * it is the last one `url_for` returns None.
   */
  lemma UrlForVoidedByEarlier(views: map<string, seq<ViewItem>>, viewName: string, kwargs: map<string, string>,
                              before: seq<ViewItem>, x: ViewItem, after: seq<ViewItem>, k: int)
    requires ViewsOf(views, viewName) == before + [x] + after
    requires Qualifies(x, kwargs) && forall i :: 0 <= i < |after| ==> !Qualifies(after[i], kwargs)
    requires 0 <= k < |before| && Qualifies(before[k], kwargs) && Missing(before[k].argnames, kwargs)
    requires |kwargs| > 0
    ensures UrlFor(views, viewName, kwargs) == None
  {
    UrlForLast(views, viewName, kwargs, before, x, after);
    var st := Scanned(before, kwargs, Scan(None, false));
    ScannedFoundNone(before, kwargs, Scan(None, false));
    FillFacts(x.argnames, kwargs, Split(x.path, "/"), st.foundNone);
    var key :| key in kwargs;
    var j :| 0 <= j < |x.argnames| && x.argnames[j] == key;
    assert Voided(x.argnames, kwargs, true);
  }

  /** A view name registered for the first time has the template's entry alone. */
  lemma FreshIndex(st: RouterState, route: string, verb: string, view: View, viewName: string)
    requires viewName !in st.views && AddRoute(st, route, verb, view, Some(viewName)).Ok?
    ensures AddRoute(st, route, verb, view, Some(viewName)).value.views[viewName] == [ItemOf(ParseRoute(route).value)]
  {
    var item := ItemOf(ParseRoute(route).value);
    assert [] + [item] == [item];
    assert [item][..0] == [];
    assert SortDescending([item]) == Insert(SortDescending([]), item);
  }

  /** The path of an entry with literal segments splits into an empty piece and those segments. */
  lemma ItemPathSplit(lits: seq<string>)
    requires |lits| > 0 && forall i :: 0 <= i < |lits| ==> Lacks(lits[i], '/')
    ensures Split("/" + Join(lits, "/"), "/") == [""] + lits
  {
    var s := Join(lits, "/");
    SplitAround("", '/', s);
    SplitJoin(lits, '/');
    assert "" + ['/'] + s == "/" + s;
    SplitEmpty();
  }

  /**
   * For a view name registered once, with a template that has a literal segment,
   * `url_for` builds `'/' + '/'.join(literals + supplied values)` when every
   * supplied name comes before every missing one.
   */
  lemma UrlForFresh(st: RouterState, route: string, verb: string, view: View, viewName: string, kwargs: map<string, string>,
                    p: Pattern, st': RouterState)
    requires viewName !in st.views
    requires ParseRoute(route) == Ok(p) && AddRoute(st, route, verb, view, Some(viewName)) == Ok(st')
    requires |p.literals| > 0 && Qualifies(ItemOf(p), kwargs)
    requires forall i, j :: 0 <= i < j < |p.argnames| && p.argnames[j] in kwargs ==> p.argnames[i] in kwargs
    ensures UrlFor(st'.views, viewName, kwargs) == Some("/" + Join(p.literals + Supplied(p.argnames, kwargs), "/"))
  {
    FreshIndex(st, route, verb, view, viewName);
    ParsedLiterals(route);
    UrlForSingle(st'.views, viewName, p, kwargs);
  }

  /** `url_for` on a view name whose only entry is the template's. */
  lemma UrlForSingle(views: map<string, seq<ViewItem>>, viewName: string, p: Pattern, kwargs: map<string, string>)
    requires viewName in views && views[viewName] == [ItemOf(p)]
    requires |p.literals| > 0 && forall i :: 0 <= i < |p.literals| ==> Lacks(p.literals[i], '/')
    requires Qualifies(ItemOf(p), kwargs)
    requires forall i, j :: 0 <= i < j < |p.argnames| && p.argnames[j] in kwargs ==> p.argnames[i] in kwargs
    ensures UrlFor(views, viewName, kwargs) == Some("/" + Join(p.literals + Supplied(p.argnames, kwargs), "/"))
  {
    var names, lits := p.argnames, p.literals;
    var item := ItemOf(p);
    var pieces := Split(item.path, "/");
    FillFacts(names, kwargs, pieces, false);
    var values := Supplied(names, kwargs);
    NotVoided(names, kwargs);
    assert Scanned([item], kwargs, Scan(None, false)) == Fill(names, kwargs, pieces, false);
    ItemPathSplit(lits);
    JoinAppend("", lits + values, "/");
    assert [""] + lits + values == [""] + (lits + values);
    assert "" + "/" + Join(lits + values, "/") == "/" + Join(lits + values, "/");
  }

  /** With every supplied name before every missing one, no candidate is voided. */
  lemma NotVoided(names: seq<string>, kwargs: map<string, string>)
    requires forall i, j :: 0 <= i < j < |names| && names[j] in kwargs ==> names[i] in kwargs
    ensures !Voided(names, kwargs, false)
  {
    forall j | 0 <= j < |names| && names[j] in kwargs ensures !Missing(names[..j], kwargs) {
      assert forall i :: 0 <= i < j ==> names[..j][i] == names[i];
    }
  }

  /**
   * url_for and route round trip: for a view name registered once, with a
   * template that has a literal segment and distinct parameter names, values
   * without a slash supplied for leading parameter names (covering every
   * supplied name) give a path that `route` resolves to the view, each supplied
   * name bound to its value and the others to None.
   */
  lemma UrlForRoundTrip(st: RouterState, route: string, verb: string, view: View, viewName: string, kwargs: map<string, string>,
                        p: Pattern, st': RouterState)
    requires Valid(st.root) && viewName !in st.views
    requires ParseRoute(route) == Ok(p) && AddRoute(st, route, verb, view, Some(viewName)) == Ok(st')
    requires |p.literals| > 0 && Qualifies(ItemOf(p), kwargs)
    requires forall i, j :: 0 <= i < j < |p.argnames| ==> p.argnames[i] != p.argnames[j]
    requires forall i, j :: 0 <= i < j < |p.argnames| && p.argnames[j] in kwargs ==> p.argnames[i] in kwargs
    requires forall k :: k in kwargs ==> Lacks(kwargs[k], '/')
    ensures var url := UrlFor(st'.views, viewName, kwargs);
            url.Some? &&
            var r := Route(st'.root, url.value, verb);
            && r.Routed? && r.view == view
            && forall i :: 0 <= i < |p.argnames| ==>
                 p.argnames[i] in r.args && r.args[p.argnames[i]] == if p.argnames[i] in kwargs then Some(kwargs[p.argnames[i]]) else None
  {
    UrlForFresh(st, route, verb, view, viewName, kwargs, p, st');
    RouteOfUrlArgs(st, route, verb, view, Some(viewName), kwargs, p, st');
  }

  /** The route the round trip takes, stated on the path `url_for` builds. */
  lemma RouteOfUrlArgs(st: RouterState, route: string, verb: string, view: View, name: Option<string>, kwargs: map<string, string>,
                       p: Pattern, st': RouterState)
    requires Valid(st.root) && ParseRoute(route) == Ok(p) && AddRoute(st, route, verb, view, name) == Ok(st')
    requires |p.literals| > 0
    requires forall i, j :: 0 <= i < j < |p.argnames| ==> p.argnames[i] != p.argnames[j]
    requires forall i, j :: 0 <= i < j < |p.argnames| && p.argnames[j] in kwargs ==> p.argnames[i] in kwargs
    requires forall k :: k in kwargs ==> Lacks(kwargs[k], '/')
    ensures var r := Route(st'.root, "/" + Join(p.literals + Supplied(p.argnames, kwargs), "/"), verb);
            && r.Routed? && r.view == view
            && forall i :: 0 <= i < |p.argnames| ==>
                 p.argnames[i] in r.args && r.args[p.argnames[i]] == if p.argnames[i] in kwargs then Some(kwargs[p.argnames[i]]) else None
  {
    RouteOfUrl(st, route, verb, view, name, kwargs, p, st');
    RoundTripArgs(Route(st'.root, "/" + Join(p.literals + Supplied(p.argnames, kwargs), "/"), verb), view, p.argnames, kwargs);
  }

  /** The path `url_for` builds from leading supplied values routes to the view with those values bound. */
  lemma RouteOfUrl(st: RouterState, route: string, verb: string, view: View, name: Option<string>, kwargs: map<string, string>,
                   p: Pattern, st': RouterState)
    requires Valid(st.root) && ParseRoute(route) == Ok(p) && AddRoute(st, route, verb, view, name) == Ok(st')
    requires |p.literals| > 0 && forall k :: k in kwargs ==> Lacks(kwargs[k], '/')
    ensures var values := Supplied(p.argnames, kwargs);
            Route(st'.root, "/" + Join(p.literals + values, "/"), verb) == Routed(view, Bind(p.argnames, values))
  {
    var values := Supplied(p.argnames, kwargs);
    SuppliedLack(p.argnames, kwargs);
    ParsedLiterals(route);
    NotLoneEmpty(p.literals, values);
    RouteAfterAddRoute(st, route, verb, view, name, values);
  }

  lemma NotLoneEmpty(lits: seq<string>, values: seq<string>)
    requires |lits| > 0 && Literals(lits)
    ensures lits + values != [""]
  {
    assert (lits + values)[0] == lits[0];
  }

  /** The shape of the round trip's conclusion, from the route taken. */
  lemma RoundTripArgs(r: Routed, view: View, names: seq<string>, kwargs: map<string, string>)
    requires r == Routed(view, Bind(names, Supplied(names, kwargs)))
    requires forall i, j :: 0 <= i < j < |names| ==> names[i] != names[j]
    requires forall i, j :: 0 <= i < j < |names| && names[j] in kwargs ==> names[i] in kwargs
    requires forall k :: k in kwargs ==> Lacks(kwargs[k], '/')
    ensures r.Routed? && r.view == view
    ensures forall i :: 0 <= i < |names| ==> names[i] in r.args && r.args[names[i]] == if names[i] in kwargs then Some(kwargs[names[i]]) else None
  {
    BindSupplied(names, kwargs);
  }

  lemma {:induction false} SuppliedLack(names: seq<string>, kwargs: map<string, string>)
    requires forall k :: k in kwargs ==> Lacks(kwargs[k], '/')
    ensures forall i :: 0 <= i < |Supplied(names, kwargs)| ==> Lacks(Supplied(names, kwargs)[i], '/')
    decreases |names|
  {
    if |names| > 0 {
      SuppliedLack(names[1..], kwargs);
    }
  }

  /**
   * Binding distinct names to the values supplied for their leading part gives
   * each name its supplied value and the others None; no value holds a slash.
   */
  lemma BindSupplied(names: seq<string>, kwargs: map<string, string>)
    requires forall i, j :: 0 <= i < j < |names| ==> names[i] != names[j]
    requires forall i, j :: 0 <= i < j < |names| && names[j] in kwargs ==> names[i] in kwargs
    requires forall k :: k in kwargs ==> Lacks(kwargs[k], '/')
    ensures var values := Supplied(names, kwargs);
            && (forall i :: 0 <= i < |values| ==> Lacks(values[i], '/'))
            && forall i :: 0 <= i < |names| ==>
                 names[i] in Bind(names, values) && Bind(names, values)[names[i]] == if names[i] in kwargs then Some(kwargs[names[i]]) else None
  {
    SuppliedPrefix(names, kwargs);
    var values := Supplied(names, kwargs);
    BindDistinct(names, values);
  }

  /**
   * Why the round trip needs a literal segment: for `/:name` alone, `url_for`
   * starts from the two empty pieces of `'/'.split('/')` and builds `//v`, whose
   * segments are an empty one and then `v`.
   */
  lemma UrlForRootParam(views: map<string, seq<ViewItem>>, viewName: string, name: string, v: string)
    requires viewName in views && views[viewName] == [ViewItem("/", [name])]
    requires Lacks(v, '/')
    ensures UrlFor(views, viewName, map[name := v]) == Some("//" + v)
    ensures Segments("//" + v) == ["", v]
  {
    var kwargs := map[name := v];
    var item := ViewItem("/", [name]);
    SplitAround("", '/', "");
    SplitEmpty();
    assert "/" == "" + ['/'] + "";
    assert Split(item.path, "/") == ["", ""];
    assert [item][1..] == [];
    assert Qualifies(item, kwargs);
    assert [name][1..] == [] && ["", ""] + [v] == ["", "", v];
    assert Fill([name], kwargs, ["", ""], false) == Fill([], kwargs, ["", "", v], false);
    assert Scanned([item], kwargs, Scan(None, false)) == Scan(Some(["", "", v]), false);
    JoinAppend("", ["", v], "/");
    JoinAppend("", [v], "/");
    assert ["", "", v] == [""] + ["", v] && ["", v] == [""] + [v];
    SegmentsJoin(["", v]);
    assert "/" + Join(["", v], "/") == "//" + v;
  }

  // ---------------------------------------------------------------------------
  // update
  // ---------------------------------------------------------------------------

  /**
   * Rejected mount: `update` fails exactly when the prefix has no segment or the
   * trie refuses the mount; an empty prefix is a `ValueError`, and a `TypeError`
   * comes exactly from a node without methods that has stopped taking literal
   * children. A failed `update` has no new state.
   */
  lemma UpdateRejected(st: RouterState, scriptName: string, sub: RouterState)
    ensures var segs := Segments(scriptName);
            Update(st, scriptName, sub).Err? <==>
              || |segs| == 0
              || BlockedAbove(st.root, segs)
              || (Walk(st.root, segs).Some? && Clashes(Walk(st.root, segs).value, Mount(sub.root)))
    ensures |Segments(scriptName)| == 0 ==> Update(st, scriptName, sub) == Err(ValueError)
    ensures var segs := Segments(scriptName);
            Update(st, scriptName, sub) == Err(TypeError) <==>
              && |segs| > 0 && !BlockedAbove(st.root, segs) && Walk(st.root, segs).Some?
              && Walk(st.root, segs).value.methods == [] && Walk(st.root, segs).value.routes.NoRoutes?
  {
    var segs := Segments(scriptName);
    AddConflict(st.root, segs, Mount(sub.root));
    AddMountTypeError(st.root, segs, sub.root);
  }

  /** `update` keeps the trie `Valid` when the sub-router's is. */
  lemma UpdateValid(st: RouterState, scriptName: string, sub: RouterState)
    requires Valid(st.root) && Valid(sub.root) && Update(st, scriptName, sub).Ok?
    ensures Valid(Update(st, scriptName, sub).value.root)
  {
    AddValid(st.root, Segments(scriptName), Mount(sub.root));
  }

  /** Below the prefix's segments, the trie answers as the sub-router's did. */
  lemma UpdateResolves(st: RouterState, scriptName: string, sub: RouterState, rest: seq<string>, verb: string)
    requires Valid(st.root) && Valid(sub.root) && Update(st, scriptName, sub).Ok?
    ensures Resolve(Update(st, scriptName, sub).value.root, Segments(scriptName) + rest, verb) == Resolve(sub.root, rest, verb)
  {
    MountResolves(st.root, Segments(scriptName), sub.root, rest, verb);
  }

  /** The segments of `scriptName + path` are those of each, for a path that is empty or more than `/`. */
  lemma SegmentsConcat(scriptName: string, path: string)
    requires |Segments(scriptName)| > 0
    requires path == "" || (|path| > 1 && path[0] == '/')
    ensures Segments(scriptName + path) == Segments(scriptName) + Segments(path)
  {
    if path == "" {
      SplitEmpty();
      assert scriptName + path == scriptName;
    } else {
      var t := path[1..];
      assert path == "/" + t;
      assert scriptName + path == scriptName + "/" + t;
      SegmentsSlash(t);
      SegmentsAfter(scriptName, t);
    }
  }

  /** `'/' + t` has the pieces of `t` as its segments. */
  lemma SegmentsSlash(t: string)
    requires t != ""
    ensures Segments("/" + t) == Split(t, "/")
  {
    assert "/" + t == "" + ['/'] + t;
    SplitAround("", '/', t);
    SplitEmpty();
    if Split(t, "/") == [""] {
      SplitEmptyPiece(t, '/');
    }
  }

  lemma SegmentsAfter(scriptName: string, t: string)
    requires |Segments(scriptName)| > 0
    ensures Segments(scriptName + "/" + t) == Segments(scriptName) + Split(t, "/")
  {
    var a, b := Split(scriptName, "/"), Split(t, "/");
    SplitSlash(scriptName, t);
    SegmentsOf(scriptName, a);
    DropFirstAppend(a, b);
    SegmentsOf(scriptName + "/" + t, a + b);
  }

  /** The segments of a path, from the pieces its split gives. */
  lemma SegmentsOf(x: string, parts: seq<string>)
    requires Split(x, "/") == parts
    ensures Segments(x) == if parts[1..] == [""] then [] else parts[1..]
  {
  }

  lemma DropFirstAppend(a: seq<string>, b: seq<string>)
    requires |a| >= 2 && |b| >= 1
    ensures (a + b)[1..] == a[1..] + b && (a + b)[1..] != [""]
  {
    assert |(a + b)[1..]| >= 2;
  }

  lemma SplitSlash(x: string, t: string)
    ensures Split(x + "/" + t, "/") == Split(x, "/") + Split(t, "/")
  {
    assert x + "/" + t == x + ['/'] + t;
    SplitAround(x, '/', t);
  }

  /**
   * The mount correspondence for `route`: under the new router, `scriptName +
   * path` resolves as `path` did under the sub-router, for a path that is empty or
   * more than `/`.
   */
  lemma RouteAfterUpdate(st: RouterState, scriptName: string, sub: RouterState, path: string, verb: string)
    requires Valid(st.root) && Valid(sub.root) && Update(st, scriptName, sub).Ok?
    requires path == "" || (|path| > 1 && path[0] == '/')
    ensures Route(Update(st, scriptName, sub).value.root, scriptName + path, verb) == Route(sub.root, path, verb)
  {
    SegmentsConcat(scriptName, path);
    UpdateResolves(st, scriptName, sub, Segments(path), verb);
  }

  lemma PrefixedName(prefix: string, j: string)
    ensures (prefix + j)[..|prefix|] == prefix && (prefix + j)[|prefix|..] == j
  {
  }

  /**
   * The view names after `update`: each view name of the sub-router appears with
   * `':'.join(segments) + ':'` before it and its templates rebased on
   * `scriptName`, overwriting any entry there; every other name keeps its list.
   */
  lemma UpdateViews(st: RouterState, scriptName: string, sub: RouterState)
    requires Update(st, scriptName, sub).Ok?
    ensures var v := Update(st, scriptName, sub).value.views;
            var prefix := NamePrefix(Segments(scriptName));
            && v.Keys == st.views.Keys + Prefixed(prefix, sub.views.Keys)
            && (forall j :: j in sub.views ==> prefix + j in v && v[prefix + j] == RebaseAll(scriptName, sub.views[j]))
            && (forall k :: k in st.views && !MountedName(prefix, sub.views, k) ==> v[k] == st.views[k])
  {
    var prefix := NamePrefix(Segments(scriptName));
    forall j | j in sub.views ensures MountedName(prefix, sub.views, prefix + j) && (prefix + j)[|prefix|..] == j {
      PrefixedName(prefix, j);
    }
  }

  /** Every template path of the index starts with `/`. */
  predicate Rooted(views: map<string, seq<ViewItem>>)
  {
    forall k, i :: k in views && 0 <= i < |views[k]| ==> |views[k][i].path| > 0 && views[k][i].path[0] == '/'
  }

  /** Rebasing on a mount point keeps the order of templates whose paths start with `/`. */
  lemma RebaseOrder(scriptName: string, a: ViewItem, b: ViewItem)
    requires |a.path| > 0 && a.path[0] == '/' && |b.path| > 0 && b.path[0] == '/'
    ensures ItemLess(Rebase(scriptName, a), Rebase(scriptName, b)) <==> ItemLess(a, b)
    ensures Rebase(scriptName, a) == Rebase(scriptName, b) <==> a == b
  {
    var pa, pb := Rebase(scriptName, a).path, Rebase(scriptName, b).path;
    if a.path == "/" && b.path != "/" {
      ProperPrefixLess(scriptName, b.path);
      ProperPrefixLess("/", b.path[1..]);
      assert b.path == "/" + b.path[1..];
    } else if a.path != "/" && b.path == "/" {
      ProperPrefixLess(scriptName, a.path);
      ProperPrefixLess("/", a.path[1..]);
      assert a.path == "/" + a.path[1..];
    } else if a.path != "/" && b.path != "/" {
      StrLessPrepend(scriptName, a.path, b.path);
      if pa == pb {
        assert a.path == pa[|scriptName|..] && b.path == pb[|scriptName|..];
      }
    }
    StrLessIrreflexive(pa);
    StrLessIrreflexive(a.path);
    assert (pa == pb) == (a.path == b.path);
    TupleLessCons(pa, a.argnames, pb, b.argnames);
    TupleLessCons(a.path, a.argnames, b.path, b.argnames);
  }

  lemma TupleLessCons(x: string, xs: seq<string>, y: string, ys: seq<string>)
    ensures TupleLess([x] + xs, [y] + ys) <==> StrLess(x, y) || (x == y && TupleLess(xs, ys))
  {
    assert ([x] + xs)[1..] == xs && ([y] + ys)[1..] == ys;
  }

  /** Rebasing a sorted, unrepeated list of rooted templates keeps it sorted and unrepeated. */
  lemma RebaseAllValid(scriptName: string, l: seq<ViewItem>)
    requires Descending(l) && Distinct(l)
    requires forall i :: 0 <= i < |l| ==> |l[i].path| > 0 && l[i].path[0] == '/'
    ensures Descending(RebaseAll(scriptName, l)) && Distinct(RebaseAll(scriptName, l))
  {
    var r := RebaseAll(scriptName, l);
    forall i, j | 0 <= i < j < |r| ensures !ItemLess(r[i], r[j]) && r[i] != r[j] {
      RebaseOrder(scriptName, l[i], l[j]);
    }
  }

  /** `update` on a mount point starting with `/` keeps the index sorted, unrepeated and rooted. */
  lemma UpdateKeepsIndex(st: RouterState, scriptName: string, sub: RouterState)
    requires IndexValid(st.views) && Rooted(st.views) && IndexValid(sub.views) && Rooted(sub.views)
    requires |scriptName| > 0 && scriptName[0] == '/'
    requires Update(st, scriptName, sub).Ok?
    ensures IndexValid(Update(st, scriptName, sub).value.views) && Rooted(Update(st, scriptName, sub).value.views)
  {
    MergedKeepsIndex(st.views, NamePrefix(Segments(scriptName)), scriptName, sub.views);
  }

  lemma MergedKeepsIndex(views: map<string, seq<ViewItem>>, prefix: string, scriptName: string, sub: map<string, seq<ViewItem>>)
    requires IndexValid(views) && Rooted(views) && IndexValid(sub) && Rooted(sub)
    requires |scriptName| > 0 && scriptName[0] == '/'
    ensures var m := Merged(views, prefix, scriptName, sub);
            IndexValid(m) && Rooted(m)
  {
    var m := Merged(views, prefix, scriptName, sub);
    forall k | k in m
      ensures Descending(m[k]) && Distinct(m[k])
      ensures forall i :: 0 <= i < |m[k]| ==> |m[k][i].path| > 0 && m[k][i].path[0] == '/'
    {
      if MountedName(prefix, sub, k) {
        var l := sub[k[|prefix|..]];
        assert m[k] == RebaseAll(scriptName, l);
        RebaseAllValid(scriptName, l);
        RebaseAllRooted(scriptName, l);
      } else {
        forall j | j in sub ensures k != prefix + j {
          PrefixedName(prefix, j);
        }
        assert k in views && m[k] == views[k];
      }
    }
  }

  lemma RebaseAllRooted(scriptName: string, l: seq<ViewItem>)
    requires |scriptName| > 0 && scriptName[0] == '/'
    ensures forall i :: 0 <= i < |l| ==> |RebaseAll(scriptName, l)[i].path| > 0 && RebaseAll(scriptName, l)[i].path[0] == '/'
  {
  }

  /** `add_route` keeps the index rooted. */
  lemma AddRouteRooted(st: RouterState, route: string, verb: string, view: View, name: Option<string>)
    requires Rooted(st.views) && AddRoute(st, route, verb, view, name).Ok?
    ensures Rooted(AddRoute(st, route, verb, view, name).value.views)
  {
    var item := ItemOf(ParseRoute(route).value);
    var vn := ViewName(view, name);
    var l0 := ViewsOf(st.views, vn);
    var v: map<string, seq<ViewItem>> := AddRoute(st, route, verb, view, name).value.views;
    AddRouteIndex(st, route, verb, view, name);
    forall i | 0 <= i < |v[vn]| ensures |v[vn][i].path| > 0 && v[vn][i].path[0] == '/' {
      assert v[vn][i] in multiset(v[vn]);
      if v[vn][i] != item {
        assert v[vn][i] in multiset(l0);
      }
    }
  }
}
