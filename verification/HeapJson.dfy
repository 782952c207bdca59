/** The depth-first check that a value is JSON: `jsonSafe` and `moduleJson`, which are the same
    function. Values live in a heap of arrays and objects that may share and may be cyclic. */
module HeapJson {
  type Ref = nat

  datatype Value = Leaf(admissible: bool) | Pointer(target: Ref)

  /** A container and its items or property values; `plain` is false for an object whose
      prototype is not `Object.prototype`. */
  datatype Node = Node(plain: bool, children: seq<Value>)

  type Heap = map<Ref, Node>

  predicate InHeap(h: Heap, v: Value) {
    v.Pointer? ==> v.target in h
  }

  /** Every reference leads to a node. */
  ghost predicate Closed(h: Heap) {
    forall r | r in h :: forall i | 0 <= i < |h[r].children| :: InHeap(h, h[r].children[i])
  }

  predicate Admissible(h: Heap, v: Value)
    requires InHeap(h, v)
  {
    if v.Leaf? then v.admissible else h[v.target].plain
  }

  predicate ChildOf(h: Heap, r: Ref, v: Value)
    requires r in h
  {
    v in h[r].children
  }

  /** A walk from `v`: the containers passed on the way, `last` being where it ends. */
  ghost predicate Walk(h: Heap, v: Value, via: seq<Ref>, last: Value)
    decreases via
  {
    if via == [] then last == v
    else v == Pointer(via[0]) && via[0] in h && exists c :: ChildOf(h, via[0], c) && Walk(h, c, via[1..], last)
  }

  /** A walk that visits no container twice and none of `above`, and ends admissibly. */
  ghost predicate GoodWalk(h: Heap, above: set<Ref>, via: seq<Ref>, last: Value)
    requires InHeap(h, last)
  {
    && Admissible(h, last)
    && (last.Pointer? ==> last.target !in above && last.target !in via)
  }

  /** The graph below `v` is a JSON value: it is acyclic, avoids `above`, and holds only
      admissible leaves and containers. */
  ghost predicate Clean(h: Heap, v: Value, above: set<Ref>) {
    forall via, last | Walk(h, v, via, last) && InHeap(h, last) :: GoodWalk(h, above, via, last)
  }

  /** The check one level at a time. */
  lemma CleanStep(h: Heap, r: Ref, above: set<Ref>)
    requires Closed(h) && r in h
    ensures Clean(h, Pointer(r), above) <==>
            && r !in above
            && h[r].plain
            && forall i | 0 <= i < |h[r].children| :: Clean(h, h[r].children[i], above + {r})
  {
    var v := Pointer(r);
    if Clean(h, v, above) {
      assert Walk(h, v, [], v);
      forall i | 0 <= i < |h[r].children|
        ensures Clean(h, h[r].children[i], above + {r})
      {
        var c := h[r].children[i];
        forall via, last | Walk(h, c, via, last) && InHeap(h, last)
          ensures GoodWalk(h, above + {r}, via, last)
        {
          assert ([r] + via)[1..] == via && ChildOf(h, r, c);
          assert Walk(h, v, [r] + via, last);
          assert GoodWalk(h, above, [r] + via, last);
        }
      }
    }
    if r !in above && h[r].plain && forall i | 0 <= i < |h[r].children| :: Clean(h, h[r].children[i], above + {r}) {
      forall via, last | Walk(h, v, via, last) && InHeap(h, last)
        ensures GoodWalk(h, above, via, last)
      {
        if via != [] {
          var c :| ChildOf(h, via[0], c) && Walk(h, c, via[1..], last);
          var i :| 0 <= i < |h[r].children| && h[r].children[i] == c;
          assert GoodWalk(h, above + {r}, via[1..], last);
          assert via == [via[0]] + via[1..];
        }
      }
    }
  }

  lemma LeafIsClean(h: Heap, v: Value, above: set<Ref>)
    requires v.Leaf?
    ensures Clean(h, v, above) <==> v.admissible
  {
    assert Walk(h, v, [], v);
  }

  /** The set of containers on the path from the root to the value being checked. */
  class Ancestors {
    var members: set<Ref>

    constructor ()
      ensures members == {}
    {
      members := {};
    }
  }

  /** The recursive check. It ends on every graph, because the ancestors grow inside a finite
      heap; it leaves the ancestors as it found them; and it is exact. */
  method JsonSafe(h: Heap, v: Value, ancestors: Ancestors) returns (safe: bool)
    requires Closed(h) && InHeap(h, v)
    modifies ancestors
    ensures ancestors.members == old(ancestors.members)
    ensures safe <==> Clean(h, v, old(ancestors.members))
    decreases h.Keys - ancestors.members
  {
    if v.Leaf? {
      LeafIsClean(h, v, ancestors.members);
      return v.admissible;
    }
    CleanStep(h, v.target, ancestors.members);
    if v.target in ancestors.members {
      return false;
    }
    var node := h[v.target];
    ghost var before := ancestors.members;
    ancestors.members := ancestors.members + {v.target};
    assert v.target in h.Keys - before;
    safe := node.plain;
    var i := 0;
    while safe && i < |node.children|
      invariant 0 <= i <= |node.children|
      invariant ancestors.members == before + {v.target}
      invariant safe ==> node.plain && forall j | 0 <= j < i :: Clean(h, node.children[j], before + {v.target})
      invariant !safe ==> !node.plain || exists j | 0 <= j < i :: !Clean(h, node.children[j], before + {v.target})
    {
      safe := JsonSafe(h, node.children[i], ancestors);
      i := i + 1;
    }
    ancestors.members := ancestors.members - {v.target};
    assert ancestors.members == before;
  }

  /** The call without ancestors. */
  method IsJson(h: Heap, v: Value) returns (safe: bool)
    requires Closed(h) && InHeap(h, v)
    ensures safe <==> Clean(h, v, {})
  {
    var ancestors := new Ancestors();
    safe := JsonSafe(h, v, ancestors);
  }

  // ----- what the answer means -----

  datatype Tree = Tip | Branch(children: seq<Tree>)

  /** The finite tree `t` is the value `v` with all sharing spelled out. */
  ghost predicate Unfolds(h: Heap, v: Value, t: Tree)
    decreases t
  {
    if v.Leaf? then t.Tip? && v.admissible
    else
      && t.Branch? && v.target in h && h[v.target].plain
      && |t.children| == |h[v.target].children|
      && forall i | 0 <= i < |t.children| :: Unfolds(h, h[v.target].children[i], t.children[i])
  }

  ghost function UnfoldAll(h: Heap, vs: seq<Value>, above: set<Ref>): (ts: seq<Tree>)
    requires Closed(h) && forall i | 0 <= i < |vs| :: InHeap(h, vs[i]) && Clean(h, vs[i], above)
    ensures |ts| == |vs| && forall i | 0 <= i < |vs| :: Unfolds(h, vs[i], ts[i])
    decreases h.Keys - above, 1, |vs|
  {
    if vs == [] then [] else [Unfold(h, vs[0], above)] + UnfoldAll(h, vs[1..], above)
  }

  /** A clean value stands for a finite JSON tree. */
  ghost function Unfold(h: Heap, v: Value, above: set<Ref>): (t: Tree)
    requires Closed(h) && InHeap(h, v) && Clean(h, v, above)
    ensures Unfolds(h, v, t)
    decreases h.Keys - above, 0
  {
    if v.Leaf? then LeafIsClean(h, v, above); Tip
    else
      CleanStep(h, v.target, above);
      assert v.target in h.Keys - above;
      Branch(UnfoldAll(h, h[v.target].children, above + {v.target}))
  }

  /** Along a walk the unfolded trees shrink, so no walk from a value with a finite tree can
      come back to where it was. */
  lemma {:induction false} WalkShrinks(h: Heap, v: Value, t: Tree, via: seq<Ref>, last: Value) returns (end: Tree)
    requires Unfolds(h, v, t) && Walk(h, v, via, last)
    ensures Unfolds(h, last, end)
    ensures end == t || end < t
    ensures via != [] ==> end < t
    decreases via
  {
    if via == [] {
      end := t;
    } else {
      var c :| ChildOf(h, via[0], c) && Walk(h, c, via[1..], last);
      var i :| 0 <= i < |h[via[0]].children| && h[via[0]].children[i] == c;
      end := WalkShrinks(h, c, t.children[i], via[1..], last);
    }
  }

  lemma {:induction false} UnfoldingIsUnique(h: Heap, v: Value, t: Tree, u: Tree)
    requires Unfolds(h, v, t) && Unfolds(h, v, u)
    ensures t == u
    decreases t
  {
    if v.Pointer? {
      forall i | 0 <= i < |t.children|
        ensures t.children[i] == u.children[i]
      {
        UnfoldingIsUnique(h, h[v.target].children[i], t.children[i], u.children[i]);
      }
    }
  }

  /** No walk from a value with a finite tree returns to a container it passed. */
  lemma {:induction false} NoReturn(h: Heap, v: Value, t: Tree, via: seq<Ref>, last: Value, k: nat)
    requires Unfolds(h, v, t) && Walk(h, v, via, last)
    requires k < |via|
    ensures last != Pointer(via[k])
    decreases via
  {
    if k == 0 {
      var end := WalkShrinks(h, v, t, via, last);
      if last == v {
        UnfoldingIsUnique(h, v, t, end);
      }
    } else {
      var c :| ChildOf(h, via[0], c) && Walk(h, c, via[1..], last);
      var i :| 0 <= i < |h[via[0]].children| && h[via[0]].children[i] == c;
      NoReturn(h, c, t.children[i], via[1..], last, k - 1);
    }
  }

  /** The check is exact: it holds of precisely the values that stand for a finite JSON tree. */
  lemma CleanMeansFiniteTree(h: Heap, v: Value)
    requires Closed(h) && InHeap(h, v)
    ensures Clean(h, v, {}) <==> exists t :: Unfolds(h, v, t)
  {
    if Clean(h, v, {}) {
      assert Unfolds(h, v, Unfold(h, v, {}));
    }
    if t :| Unfolds(h, v, t) {
      forall via, last | Walk(h, v, via, last) && InHeap(h, last)
        ensures GoodWalk(h, {}, via, last)
      {
        var end := WalkShrinks(h, v, t, via, last);
        if last.Pointer? && last.target in via {
          var k :| 0 <= k < |via| && via[k] == last.target;
          NoReturn(h, v, t, via, last, k);
        }
      }
    }
  }
}
