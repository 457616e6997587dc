/** Which of its two errors the walk over an object graph ends in. */
module InterpolationErrors {
  import opened Interpolation

  // Objects each nested directly in the one before, the value first.
  ghost predicate Path(heap: Heap, v: Value, refs: seq<Ref>)
    decreases |refs|
  {
    refs != [] && v.Object? && v.ref == refs[0] &&
    (|refs| > 1 ==> exists i :: 0 <= i < |Children(heap(v.ref))| && Path(heap, Children(heap(v.ref))[i], refs[1..]))
  }

  ghost predicate Distinct(refs: seq<Ref>) {
    forall i, j :: 0 <= i < j < |refs| ==> refs[i] != refs[j]
  }

  // A path of that many objects, none met before and none twice.
  ghost predicate DeepPath(heap: Heap, v: Value, refs: seq<Ref>, n: nat, seen: set<Ref>) {
    |refs| == n && Path(heap, v, refs) && Distinct(refs) && forall i :: 0 <= i < |refs| ==> refs[i] !in seen
  }

  // A path whose last object was met before, or on the path.
  ghost predicate ClosedPath(heap: Heap, v: Value, refs: seq<Ref>, seen: set<Ref>) {
    Path(heap, v, refs) && (refs[|refs|-1] in seen || refs[|refs|-1] in refs[..|refs|-1])
  }

  // The walk over a list fails as that over one of its values.
  lemma {:induction false} OneFails(heap: Heap, text: string -> string, vs: seq<Value>, depth: nat, seen: set<Ref>)
    requires WalkAll(heap, text, vs, depth, seen).Err?
    ensures exists i :: 0 <= i < |vs| &&
                        Walk(heap, text, vs[i], depth, seen) == Err(WalkAll(heap, text, vs, depth, seen).error)
    decreases |vs|
  {
    hide Walk;
    if vs != [] && WalkAll(heap, text, vs[..|vs|-1], depth, seen).Err? {
      OneFails(heap, text, vs[..|vs|-1], depth, seen);
      var i :| 0 <= i < |vs| - 1 && Walk(heap, text, vs[..|vs|-1][i], depth, seen)
                                    == Err(WalkAll(heap, text, vs, depth, seen).error);
      assert vs[i] == vs[..|vs|-1][i];
    }
  }

  lemma {:induction false} TooDeepPath(heap: Heap, text: string -> string, v: Value, depth: nat, seen: set<Ref>)
    returns (refs: seq<Ref>)
    requires depth < 100 && Walk(heap, text, v, depth, seen) == Err(TooDeep)
    ensures DeepPath(heap, v, refs, 100 - depth, seen)
    decreases 100 - depth
  {
    var vs := Children(heap(v.ref));
    OneFails(heap, text, vs, depth + 1, seen + {v.ref});
    var i :| 0 <= i < |vs| && Walk(heap, text, vs[i], depth + 1, seen + {v.ref}) == Err(TooDeep);
    if depth + 1 == 100 {
      refs := [v.ref];
    } else {
      var more := TooDeepPath(heap, text, vs[i], depth + 1, seen + {v.ref});
      refs := [v.ref] + more;
      assert refs[1..] == more;
    }
  }

  lemma {:induction false} CircularPath(heap: Heap, text: string -> string, v: Value, depth: nat, seen: set<Ref>)
    returns (refs: seq<Ref>)
    requires depth <= 100 && Walk(heap, text, v, depth, seen) == Err(Circular)
    ensures ClosedPath(heap, v, refs, seen)
    decreases 100 - depth
  {
    if v.ref in seen {
      refs := [v.ref];
    } else {
      var vs := Children(heap(v.ref));
      OneFails(heap, text, vs, depth + 1, seen + {v.ref});
      var i :| 0 <= i < |vs| && Walk(heap, text, vs[i], depth + 1, seen + {v.ref}) == Err(Circular);
      var more := CircularPath(heap, text, vs[i], depth + 1, seen + {v.ref});
      refs := [v.ref] + more;
      assert refs[1..] == more && refs[|refs|-1] == more[|more|-1];
      if more[|more|-1] in more[..|more|-1] {
        assert refs[..|refs|-1] == [v.ref] + more[..|more|-1];
      } else {
        assert refs[0] == v.ref;
      }
    }
  }

  // The walk says that the graph is too deep only if a hundred different
  // objects are nested in one another, and that it is circular only if an
  // object is nested in itself.
  lemma ErrorsMean(heap: Heap, text: string -> string, v: Value)
    ensures Walk(heap, text, v, 0, {}) == Err(TooDeep) ==>
              exists refs :: DeepPath(heap, v, refs, 100, {})
    ensures Walk(heap, text, v, 0, {}) == Err(Circular) ==>
              exists refs :: Path(heap, v, refs) && refs[|refs|-1] in refs[..|refs|-1]
  {
    hide Walk, Path;
    if Walk(heap, text, v, 0, {}) == Err(TooDeep) { var refs := TooDeepPath(heap, text, v, 0, {}); }
    if Walk(heap, text, v, 0, {}) == Err(Circular) { var refs := CircularPath(heap, text, v, 0, {}); }
  }
}
