/**
 Interpolation of object graphs: a walk with a depth bound and a set of the
 objects it is inside of.  Objects may be shared and may form cycles.
 */
module Interpolation {

  type Ref(==, !new, 00)

  type Scalar(==, !new, 00)

  datatype Value = Text(text: string) | Plain(scalar: Scalar) | Object(ref: Ref)

  datatype Cell = Items(items: seq<Value>) | Fields(fields: seq<(string, Value)>)

  // What each object holds.
  type Heap = Ref -> Cell

  datatype Tree =
    | TextLeaf(text: string)
    | PlainLeaf(scalar: Scalar)
    | List(trees: seq<Tree>)
    | Record(entries: seq<(string, Tree)>)

  datatype Error = TooDeep | Circular

  datatype Result<T> = Ok(value: T) | Err(error: Error)

  const MAX_DEPTH: nat := 100

  function Children(c: Cell): seq<Value> {
    match c
    case Items(items) => items
    case Fields(fields) => seq(|fields|, i requires 0 <= i < |fields| => fields[i].1)
  }

  // A cell of the same shape with the trees of its children.
  function Rebuild(c: Cell, trees: seq<Tree>): Tree
    requires |trees| == |Children(c)|
  {
    match c
    case Items(_) => List(trees)
    case Fields(fields) => Record(seq(|fields|, i requires 0 <= i < |fields| => (fields[i].0, trees[i])))
  }

  // The walk at a depth, inside the objects `seen`.
  function Walk(heap: Heap, text: string -> string, v: Value, depth: nat, seen: set<Ref>): Result<Tree>
    decreases MAX_DEPTH - depth, 1
  {
    match v
    case Text(s) => Ok(TextLeaf(text(s)))
    case Plain(p) => Ok(PlainLeaf(p))
    case Object(ref) =>
      if depth >= MAX_DEPTH then Err(TooDeep)
      else if ref in seen then Err(Circular)
      else
        match WalkAll(heap, text, Children(heap(ref)), depth + 1, seen + {ref})
        case Err(e) => Err(e)
        case Ok(trees) => Ok(Rebuild(heap(ref), trees))
  }

  function WalkAll(heap: Heap, text: string -> string, vs: seq<Value>, depth: nat,
                   seen: set<Ref>): (r: Result<seq<Tree>>)
    ensures r.Ok? ==> |r.value| == |vs|
    decreases MAX_DEPTH - depth, 2, |vs|
  {
    if vs == [] then Ok([])
    else
      match WalkAll(heap, text, vs[..|vs|-1], depth, seen)
      case Err(e) => Err(e)
      case Ok(trees) =>
        match Walk(heap, text, vs[|vs|-1], depth, seen)
        case Err(e) => Err(e)
        case Ok(tree) => Ok(trees + [tree])
  }

  // --------------------------------------------------------- the unfolding

  // Some object lies at this nesting depth in the unfolding of v.
  ghost predicate HasDepth(heap: Heap, v: Value, k: nat)
    decreases k, 0
  {
    v.Object? && (k > 0 ==> ChildHasDepth(heap, Children(heap(v.ref)), k - 1))
  }

  ghost predicate ChildHasDepth(heap: Heap, vs: seq<Value>, k: nat)
    decreases k, 1
  {
    exists i :: 0 <= i < |vs| && HasDepth(heap, vs[i], k)
  }

  // The object s is met after j steps down from v.
  ghost predicate Below(heap: Heap, v: Value, j: nat, s: Ref)
    decreases j, 0
  {
    v.Object? && if j == 0 then v.ref == s else ChildBelow(heap, Children(heap(v.ref)), j - 1, s)
  }

  ghost predicate ChildBelow(heap: Heap, vs: seq<Value>, j: nat, s: Ref)
    decreases j, 1
  {
    exists i :: 0 <= i < |vs| && Below(heap, vs[i], j, s)
  }

  // The tree is the unfolding of v with its texts interpolated.
  ghost predicate Unfolds(heap: Heap, text: string -> string, v: Value, tree: Tree)
    decreases tree
  {
    match tree
    case TextLeaf(s) => v.Text? && s == text(v.text)
    case PlainLeaf(p) => v == Plain(p)
    case List(trees) =>
      v.Object? && heap(v.ref).Items? && |trees| == |heap(v.ref).items| &&
      forall i :: 0 <= i < |trees| ==> Unfolds(heap, text, heap(v.ref).items[i], trees[i])
    case Record(entries) =>
      v.Object? && heap(v.ref).Fields? && |entries| == |heap(v.ref).fields| &&
      forall i :: 0 <= i < |entries| ==>
        entries[i].0 == heap(v.ref).fields[i].0 && Unfolds(heap, text, heap(v.ref).fields[i].1, entries[i].1)
  }

  lemma {:induction false} Shallower(heap: Heap, v: Value, k: nat, less: nat)
    requires HasDepth(heap, v, k) && less <= k
    ensures HasDepth(heap, v, less)
    decreases k
  {
    if 0 < less < k {
      var vs := Children(heap(v.ref));
      assert ChildHasDepth(heap, vs, k - 1);
      var i :| 0 <= i < |vs| && HasDepth(heap, vs[i], k - 1);
      Shallower(heap, vs[i], k - 1, less - 1);
      assert ChildHasDepth(heap, vs, less - 1);
    }
  }

  lemma {:induction false} BelowDeep(heap: Heap, v: Value, j: nat, s: Ref, k: nat)
    requires Below(heap, v, j, s) && HasDepth(heap, Object(s), k)
    ensures HasDepth(heap, v, j + k)
    decreases j
  {
    if j > 0 {
      var vs := Children(heap(v.ref));
      assert ChildBelow(heap, vs, j - 1, s);
      var i :| 0 <= i < |vs| && Below(heap, vs[i], j - 1, s);
      BelowDeep(heap, vs[i], j - 1, s, k);
      assert ChildHasDepth(heap, vs, j - 1 + k);
    }
  }

  // An object met again below itself has no deepest level.
  lemma {:induction false} CycleDeep(heap: Heap, s: Ref, j: nat, k: nat)
    requires Below(heap, Object(s), j, s) && j > 0
    ensures HasDepth(heap, Object(s), k)
    decreases k
  {
    if k == 0 {
    } else if k <= j {
      BelowDeep(heap, Object(s), j, s, 0);
      Shallower(heap, Object(s), j, k);
    } else {
      CycleDeep(heap, s, j, k - j);
      BelowDeep(heap, Object(s), j, s, k - j);
    }
  }

  // ------------------------------------------------------ when the walk throws

  lemma {:induction false} AllOk(heap: Heap, text: string -> string, vs: seq<Value>, depth: nat, seen: set<Ref>)
    ensures var r := WalkAll(heap, text, vs, depth, seen);
            if r.Ok? then forall i :: 0 <= i < |vs| ==> Walk(heap, text, vs[i], depth, seen) == Ok(r.value[i])
            else exists i :: 0 <= i < |vs| && Walk(heap, text, vs[i], depth, seen).Err?
    decreases |vs|
  {
    if vs != [] {
      var front := vs[..|vs|-1];
      AllOk(heap, text, front, depth, seen);
      hide Walk;
      var r := WalkAll(heap, text, front, depth, seen);
      if r.Ok? {
        assert forall i :: 0 <= i < |front| ==> Walk(heap, text, vs[i], depth, seen) == Ok(r.value[i]);
      } else {
        var i :| 0 <= i < |front| && Walk(heap, text, front[i], depth, seen).Err?;
        assert Walk(heap, text, vs[i], depth, seen).Err?;
      }
    }
  }

  lemma {:induction false} DeepThrows(heap: Heap, text: string -> string, v: Value, depth: nat, seen: set<Ref>, k: nat)
    requires HasDepth(heap, v, k) && depth + k >= MAX_DEPTH
    ensures Walk(heap, text, v, depth, seen).Err?
    decreases k
  {
    if k > 0 {
      var vs := Children(heap(v.ref));
      assert ChildHasDepth(heap, vs, k - 1);
      var i :| 0 <= i < |vs| && HasDepth(heap, vs[i], k - 1);
      DeepThrows(heap, text, vs[i], depth + 1, seen + {v.ref}, k - 1);
      AllOk(heap, text, vs, depth + 1, seen + {v.ref});
    }
  }

  ghost predicate MeetsSeen(heap: Heap, v: Value, seen: set<Ref>) {
    exists j: nat, s :: s in seen && Below(heap, v, j, s)
  }

  lemma {:induction false} ThrowsDeep(heap: Heap, text: string -> string, v: Value, depth: nat, seen: set<Ref>)
    requires depth <= MAX_DEPTH && Walk(heap, text, v, depth, seen).Err?
    ensures HasDepth(heap, v, MAX_DEPTH - depth) || MeetsSeen(heap, v, seen)
    decreases MAX_DEPTH - depth
  {
    if depth < MAX_DEPTH {
      if v.ref in seen {
        assert Below(heap, v, 0, v.ref);
      } else {
        var vs := Children(heap(v.ref));
        AllOk(heap, text, vs, depth + 1, seen + {v.ref});
        var i :| 0 <= i < |vs| && Walk(heap, text, vs[i], depth + 1, seen + {v.ref}).Err?;
        ThrowsDeep(heap, text, vs[i], depth + 1, seen + {v.ref});
        hide Walk, WalkAll;
        ThrowsDeepStep(heap, v, i, depth, seen);
      }
    }
  }

  lemma ThrowsDeepStep(heap: Heap, v: Value, i: nat, depth: nat, seen: set<Ref>)
    requires v.Object? && i < |Children(heap(v.ref))| && depth < MAX_DEPTH
    requires var c := Children(heap(v.ref))[i];
             HasDepth(heap, c, MAX_DEPTH - depth - 1) || MeetsSeen(heap, c, seen + {v.ref})
    ensures HasDepth(heap, v, MAX_DEPTH - depth) || MeetsSeen(heap, v, seen)
  {
    var vs := Children(heap(v.ref));
    var c := vs[i];
    if HasDepth(heap, c, MAX_DEPTH - depth - 1) {
      assert ChildHasDepth(heap, vs, MAX_DEPTH - depth - 1);
    } else {
      var j: nat, s :| s in seen + {v.ref} && Below(heap, c, j, s);
      assert ChildBelow(heap, vs, j, s);
      assert Below(heap, v, j + 1, s);
      if s == v.ref { CycleDeep(heap, s, j + 1, MAX_DEPTH - depth); }
    }
  }

  // --------------------------------------------------------- what it returns

  lemma {:induction false} OkUnfolds(heap: Heap, text: string -> string, v: Value, depth: nat, seen: set<Ref>)
    requires Walk(heap, text, v, depth, seen).Ok?
    ensures Unfolds(heap, text, v, Walk(heap, text, v, depth, seen).value)
    decreases MAX_DEPTH - depth
  {
    if v.Object? {
      var vs := Children(heap(v.ref));
      AllOk(heap, text, vs, depth + 1, seen + {v.ref});
      var trees := WalkAll(heap, text, vs, depth + 1, seen + {v.ref}).value;
      forall i | 0 <= i < |vs|
        ensures Unfolds(heap, text, vs[i], trees[i])
      {
        OkUnfolds(heap, text, vs[i], depth + 1, seen + {v.ref});
      }
      hide WalkAll, Unfolds;
      RebuildUnfolds(heap, text, v, trees);
    }
  }

  lemma RebuildUnfolds(heap: Heap, text: string -> string, v: Value, trees: seq<Tree>)
    requires v.Object? && |trees| == |Children(heap(v.ref))|
    requires forall i :: 0 <= i < |trees| ==> Unfolds(heap, text, Children(heap(v.ref))[i], trees[i])
    ensures Unfolds(heap, text, v, Rebuild(heap(v.ref), trees))
  {}

  // A value has at most one unfolding.
  lemma {:induction false} UnfoldingUnique(heap: Heap, text: string -> string, v: Value, a: Tree, b: Tree)
    requires Unfolds(heap, text, v, a) && Unfolds(heap, text, v, b)
    ensures a == b
    decreases a
  {
    match a
    case TextLeaf(_) =>
    case PlainLeaf(_) =>
    case List(trees) =>
      forall i | 0 <= i < |trees|
        ensures trees[i] == b.trees[i]
      {
        UnfoldingUnique(heap, text, heap(v.ref).items[i], trees[i], b.trees[i]);
      }
      assert trees == b.trees;
    case Record(entries) =>
      forall i | 0 <= i < |entries|
        ensures entries[i] == b.entries[i]
      {
        UnfoldingUnique(heap, text, heap(v.ref).fields[i].1, entries[i].1, b.entries[i].1);
      }
      assert entries == b.entries;
  }

  // The walk throws exactly when the unfolding has an object at nesting depth
  // 100 or more, which every cycle does; otherwise it returns the unfolding.
  lemma InterpolationMeaning(heap: Heap, text: string -> string, v: Value)
    ensures Walk(heap, text, v, 0, {}).Err? <==> exists k :: k >= 100 && HasDepth(heap, v, k)
    ensures forall tree :: Walk(heap, text, v, 0, {}) == Ok(tree) <==>
              Unfolds(heap, text, v, tree) && !HasDepth(heap, v, 100)
  {
    hide Walk, HasDepth, Unfolds;
    var r := Walk(heap, text, v, 0, {});
    forall k | k >= MAX_DEPTH && HasDepth(heap, v, k)
      ensures r.Err?
    {
      DeepThrows(heap, text, v, 0, {}, k);
    }
    if r.Err? {
      ThrowsDeep(heap, text, v, 0, {});
      assert HasDepth(heap, v, MAX_DEPTH);
    } else {
      OkUnfolds(heap, text, v, 0, {});
      forall tree | Unfolds(heap, text, v, tree)
        ensures r == Ok(tree)
      {
        UnfoldingUnique(heap, text, v, tree, r.value);
      }
    }
  }

  // ---------------------------------------------------------------- the walk

  lemma {:induction false} FirstError(heap: Heap, text: string -> string, vs: seq<Value>, i: nat, depth: nat,
                                      seen: set<Ref>)
    requires i <= |vs| && WalkAll(heap, text, vs[..i], depth, seen).Err?
    ensures WalkAll(heap, text, vs, depth, seen) == WalkAll(heap, text, vs[..i], depth, seen)
    decreases |vs|
  {
    if i == |vs| {
      assert vs[..i] == vs;
    } else {
      assert vs[..|vs|-1][..i] == vs[..i];
      FirstError(heap, text, vs[..|vs|-1], i, depth, seen);
    }
  }

  class Interpolator {
    const heap: Heap
    const text: string -> string
    var seen: set<Ref>

    constructor (heap: Heap, text: string -> string)
      ensures this.heap == heap && this.text == text && seen == {}
    {
      this.heap, this.text, seen := heap, text, {};
    }

    // The set is left as it was found, whether the walk returns or throws.
    method Interpolate(v: Value, depth: nat) returns (r: Result<Tree>)
      modifies this
      ensures seen == old(seen)
      ensures r == Walk(heap, text, v, depth, seen)
      decreases MAX_DEPTH - depth, 1
    {
      if v.Text? { return Ok(TextLeaf(text(v.text))); }
      if v.Plain? { return Ok(PlainLeaf(v.scalar)); }
      if depth >= MAX_DEPTH { return Err(TooDeep); }
      if v.ref in seen { return Err(Circular); }
      seen := seen + {v.ref};
      var all := InterpolateAll(Children(heap(v.ref)), depth + 1);
      seen := seen - {v.ref};
      assert seen == old(seen);
      if all.Err? { return Err(all.error); }
      return Ok(Rebuild(heap(v.ref), all.value));
    }

    // The items of an array, or the values of an object's entries, in order.
    method InterpolateAll(vs: seq<Value>, depth: nat) returns (r: Result<seq<Tree>>)
      modifies this
      ensures seen == old(seen)
      ensures r == WalkAll(heap, text, vs, depth, seen)
      decreases MAX_DEPTH - depth, 2
    {
      hide Walk;
      var trees: seq<Tree> := [];
      var i := 0;
      while i < |vs|
        invariant 0 <= i <= |vs| && seen == old(seen)
        invariant WalkAll(heap, text, vs[..i], depth, seen) == Ok(trees)
      {
        assert vs[..i+1][..i] == vs[..i];
        var item := Interpolate(vs[i], depth);
        if item.Err? {
          FirstError(heap, text, vs, i + 1, depth, seen);
          return Err(item.error);
        }
        trees := trees + [item.value];
        i := i + 1;
      }
      assert vs[..i] == vs;
      return Ok(trees);
    }
  }
}
