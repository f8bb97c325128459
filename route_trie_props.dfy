/**
 * What `_RouteItem.add` and `_RouteItem.__call__` promise: a registered route
 * resolves to its endpoint with its parameters bound to the leading remaining
 * segments, a mounted trie answers below its prefix as it did on its own, and
 * `add` fails exactly on the conflicts it checks for.
 */
module RouteTrieProps {
  import opened Types
  import opened RouteTrie

  /** A name that does not occur again binds the value in its position. */
  lemma {:induction false} BindValue(names: seq<string>, values: seq<string>, i: int)
    requires |names| >= |values| && 0 <= i < |names|
    requires forall j :: i < j < |names| ==> names[j] != names[i]
    ensures Bind(names, values)[names[i]] == if i < |values| then Some(values[i]) else None
    decreases i
  {
    if i > 0 {
      var tail := if |values| > 0 then values[1..] else [];
      assert forall j :: i - 1 < j < |names| - 1 ==> names[1..][j] == names[j + 1];
      BindValue(names[1..], tail, i - 1);
      assert names[1..][i - 1] == names[i];
    } else {
      BindFirst(names, values);
    }
  }

  lemma BindFirst(names: seq<string>, values: seq<string>)
    requires |names| >= |values| && 0 < |names|
    requires forall j :: 0 < j < |names| ==> names[j] != names[0]
    ensures Bind(names, values)[names[0]] == if 0 < |values| then Some(values[0]) else None
  {
    var tail := if |values| > 0 then values[1..] else [];
    assert forall j :: 0 <= j < |names| - 1 ==> names[1..][j] != names[0];
    assert names[0] !in Bind(names[1..], tail).Keys;
  }

  /** Appending an entry for a method the table lacks makes it the method's entry. */
  lemma {:induction false} GetAppend(methods: seq<(string, Entry)>, verb: string, e: Entry)
    requires Get(methods, verb).None?
    ensures Get(methods + [(verb, e)], verb) == Some(e)
    decreases |methods|
  {
    if |methods| > 0 {
      assert (methods + [(verb, e)])[1..] == methods[1..] + [(verb, e)];
      GetAppend(methods[1..], verb, e);
    }
  }

  /** The entry found for another method is unaffected by appending. */
  lemma {:induction false} GetAppendOther(methods: seq<(string, Entry)>, verb: string, e: Entry, other: string)
    requires other != verb
    ensures Get(methods + [(verb, e)], other) == Get(methods, other)
    decreases |methods|
  {
    if |methods| > 0 {
      assert (methods + [(verb, e)])[1..] == methods[1..] + [(verb, e)];
      GetAppendOther(methods[1..], verb, e, other);
    }
  }

  /** Registering anything below a fresh node cannot fail. */
  lemma {:induction false} AddFresh(path: seq<string>, target: Target)
    ensures Add(Empty, path, target).Ok?
    decreases |path|
  {
    if |path| > 0 {
      AddFresh(path[1..], target);
    }
  }

  lemma EmptyValid()
    ensures Valid(Empty)
  {
  }

  /** `add` keeps the trie `Valid` when what it mounts is `Valid`. */
  lemma {:induction false} AddValid(n: Node, path: seq<string>, target: Target)
    requires Valid(n) && (target.Mount? ==> Valid(target.root)) && Add(n, path, target).Ok?
    ensures Valid(Add(n, path, target).value)
    decreases |path|
  {
    if |path| == 0 {
      if target.Endpoint? {
        var m := n.methods + [(target.verb, target.entry)];
        assert forall i :: 0 <= i < |n.methods| ==> m[i] == n.methods[i];
      }
    } else {
      var children := n.routes.children;
      var child := if path[0] in children then children[path[0]] else Empty;
      EmptyValid();
      AddValid(child, path[1..], target);
      var c' := children[path[0] := Add(child, path[1..], target).value];
      assert forall k :: k in c' ==> Valid(c'[k]);
    }
  }

  /** Following literal segments through a `Valid` trie is what resolution does. */
  lemma {:induction false} ResolveWalk(n: Node, lits: seq<string>, rest: seq<string>, verb: string)
    requires Valid(n) && Walk(n, lits).Some?
    ensures Resolve(n, lits + rest, verb) == Resolve(Walk(n, lits).value, rest, verb)
    decreases |lits|
  {
    if |lits| > 0 {
      var path := lits + rest;
      var e := Get(n.methods, verb);
      if e.Some? {
        var i :| 0 <= i < |n.methods| && n.methods[i] == (verb, e.value);
        assert |e.value.argnames| == 0;
      }
      assert path[0] == lits[0] && path[1..] == lits[1..] + rest;
      ResolveWalk(n.routes.children[lits[0]], lits[1..], rest, verb);
    } else {
      assert lits + rest == rest;
    }
  }

  /** After `add`, the node under the path holds the new entry for its method. */
  lemma {:induction false} AddEndpointWalk(n: Node, path: seq<string>, verb: string, e: Entry)
    requires Add(n, path, Endpoint(verb, e)).Ok?
    ensures var t := Walk(Add(n, path, Endpoint(verb, e)).value, path);
            t.Some? && Get(t.value.methods, verb) == Some(e)
    decreases |path|
  {
    if |path| == 0 {
      GetAppend(n.methods, verb, e);
    } else {
      var children := n.routes.children;
      var child := if path[0] in children then children[path[0]] else Empty;
      AddEndpointWalk(child, path[1..], verb, e);
    }
  }

  /** After a mount, the node under the path is the mounted root. */
  lemma {:induction false} AddMountWalk(n: Node, path: seq<string>, root: Node)
    requires Add(n, path, Mount(root)).Ok?
    ensures Walk(Add(n, path, Mount(root)).value, path) == Some(root)
    decreases |path|
  {
    if |path| > 0 {
      var children := n.routes.children;
      var child := if path[0] in children then children[path[0]] else Empty;
      AddMountWalk(child, path[1..], root);
    }
  }

  /**
   * Resolve after add: once an endpoint is registered under literal segments
   * `lits`, those segments followed by at most as many values as it has parameter
   * names resolve to it, the names in order binding the values and then None.
   */
  lemma ResolveAfterAdd(n: Node, lits: seq<string>, verb: string, e: Entry, values: seq<string>)
    requires Valid(n) && Add(n, lits, Endpoint(verb, e)).Ok? && |values| <= |e.argnames|
    ensures Resolve(Add(n, lits, Endpoint(verb, e)).value, lits + values, verb) == Found(e.view, Bind(e.argnames, values))
  {
    var n' := Add(n, lits, Endpoint(verb, e)).value;
    AddValid(n, lits, Endpoint(verb, e));
    AddEndpointWalk(n, lits, verb, e);
    ResolveWalk(n', lits, values, verb);
  }

  /** The mount correspondence: below the prefix, the trie answers as the mounted one. */
  lemma MountResolves(n: Node, prefix: seq<string>, root: Node, rest: seq<string>, verb: string)
    requires Valid(n) && Valid(root) && Add(n, prefix, Mount(root)).Ok?
    ensures Resolve(Add(n, prefix, Mount(root)).value, prefix + rest, verb) == Resolve(root, rest, verb)
  {
    AddValid(n, prefix, Mount(root));
    AddMountWalk(n, prefix, root);
    ResolveWalk(Add(n, prefix, Mount(root)).value, prefix, rest, verb);
  }

  /** 405: with no segment left at a node that lacks the method, its methods are reported. */
  lemma ResolveAllowed(n: Node, lits: seq<string>, verb: string)
    requires Valid(n) && Walk(n, lits).Some? && Get(Walk(n, lits).value.methods, verb).None?
    ensures Resolve(n, lits, verb) == Unresolved(MethodNames(Walk(n, lits).value.methods))
  {
    ResolveWalk(n, lits, [], verb);
    assert lits + [] == lits;
  }

  /**
   * 404: a segment with no child below it, where the node's own entry for the
   * method is missing or too short, resolves to nothing, whatever other methods
   * the node has.
   */
  lemma ResolveMissing(n: Node, lits: seq<string>, segment: string, rest: seq<string>, verb: string)
    requires Valid(n) && Walk(n, lits).Some?
    requires var t := Walk(n, lits).value;
             && (t.routes.NoRoutes? || segment !in t.routes.children)
             && (Get(t.methods, verb).None? || |Get(t.methods, verb).value.argnames| <= |rest|)
    ensures Resolve(n, lits + ([segment] + rest), verb) == Unresolved([])
  {
    ResolveWalk(n, lits, [segment] + rest, verb);
  }

  /** Some node strictly above the path has stopped taking literal children. */
  predicate BlockedAbove(n: Node, path: seq<string>)
  {
    exists i :: 0 <= i < |path| && Walk(n, path[..i]).Some? && Walk(n, path[..i]).value.routes.NoRoutes?
  }

  /** What `add` refuses at the node where the target goes. */
  predicate Clashes(t: Node, target: Target)
  {
    match target
    case Endpoint(verb, e) =>
      Get(t.methods, verb).Some? || (|e.argnames| > 0 && t.routes.Routes? && |t.routes.children| > 0)
    case Mount(_) =>
      |t.methods| != 0 || t.routes.NoRoutes? || |t.routes.children| > 0
  }

  lemma WalkPrefix(n: Node, path: seq<string>, i: int)
    requires 1 <= i <= |path| && n.routes.Routes? && path[0] in n.routes.children
    ensures Walk(n, path[..i]) == Walk(n.routes.children[path[0]], path[1..][..i - 1])
  {
    assert path[..i][0] == path[0] && path[..i][1..] == path[1..][..i - 1];
  }

  /**
   * Add conflicts: `add` fails exactly when a node above the path has stopped
   * taking literal children, or the node at the path clashes with the target:
   * the method is already there, parameters meet literal children, or a mount
   * meets a node in use. An endpoint's failure is always a `ValueError`.
   */
  lemma {:induction false} AddConflict(n: Node, path: seq<string>, target: Target)
    ensures Add(n, path, target).Err? <==>
              BlockedAbove(n, path) || (Walk(n, path).Some? && Clashes(Walk(n, path).value, target))
    ensures target.Endpoint? && Add(n, path, target).Err? ==> Add(n, path, target).error == ValueError
    decreases |path|
  {
    if |path| == 0 {
      assert !BlockedAbove(n, path);
    } else if n.routes.NoRoutes? {
      assert path[..0] == [];
      assert BlockedAbove(n, path);
    } else {
      var children := n.routes.children;
      assert path[..0] == [];
      if path[0] in children {
        var child := children[path[0]];
        AddConflict(child, path[1..], target);
        if BlockedAbove(child, path[1..]) {
          var j :| 0 <= j < |path| - 1 && Walk(child, path[1..][..j]).Some? && Walk(child, path[1..][..j]).value.routes.NoRoutes?;
          WalkPrefix(n, path, j + 1);
          assert BlockedAbove(n, path);
        }
        if BlockedAbove(n, path) {
          var i :| 0 <= i < |path| && Walk(n, path[..i]).Some? && Walk(n, path[..i]).value.routes.NoRoutes?;
          WalkPrefix(n, path, i);
          assert BlockedAbove(child, path[1..]);
        }
      } else {
        AddFresh(path[1..], target);
        forall i | 0 < i < |path|
          ensures Walk(n, path[..i]).None?
        {
          assert path[..i][0] == path[0];
        }
      }
    }
  }

  /** A node above the path is blocked exactly when the root is, or one above the rest of the path below the first child. */
  lemma BlockedAboveChild(n: Node, path: seq<string>)
    requires |path| > 0 && n.routes.Routes? && path[0] in n.routes.children
    ensures BlockedAbove(n, path) <==> BlockedAbove(n.routes.children[path[0]], path[1..])
  {
    var child := n.routes.children[path[0]];
    assert path[..0] == [];
    if BlockedAbove(child, path[1..]) {
      var j :| 0 <= j < |path| - 1 && Walk(child, path[1..][..j]).Some? && Walk(child, path[1..][..j]).value.routes.NoRoutes?;
      WalkPrefix(n, path, j + 1);
    }
    if BlockedAbove(n, path) {
      var i :| 0 <= i < |path| && Walk(n, path[..i]).Some? && Walk(n, path[..i]).value.routes.NoRoutes?;
      WalkPrefix(n, path, i);
    }
  }

  /**
   * A mount raises `TypeError` (from `len(None)`) exactly when nothing above the
   * path is blocked and the node at the path has no methods and has stopped
   * taking literal children; its other refusals are `ValueError`s.
   */
  lemma {:induction false} AddMountTypeError(n: Node, path: seq<string>, root: Node)
    ensures Add(n, path, Mount(root)) == Err(TypeError) <==>
              && !BlockedAbove(n, path) && Walk(n, path).Some?
              && Walk(n, path).value.methods == [] && Walk(n, path).value.routes.NoRoutes?
    decreases |path|
  {
    if |path| == 0 {
      assert !BlockedAbove(n, path);
    } else if n.routes.NoRoutes? {
      assert path[..0] == [];
      assert BlockedAbove(n, path);
    } else if path[0] in n.routes.children {
      BlockedAboveChild(n, path);
      AddMountTypeError(n.routes.children[path[0]], path[1..], root);
    } else {
      AddFresh(path[1..], Mount(root));
    }
  }
}
