/**
 config/config.go: layering configuration by writing nested Go maps in place.

 A Go map is a reference; merging stores sub-maps of one layer inside another without copying
 them.  A `Shape` describes, in ghost code, which map objects hang together how.
 */
module Config {
  import opened Options
  import opened Sequences
  import opened Tree
  import opened Text

  datatype Any = Scalar(value: string) | Nested(table: GoMap)

  class GoMap {
    var entries: map<string, Any>

    constructor ()
      ensures entries == map[]
    {
      entries := map[];
    }
  }

  datatype Shape = Shape(root: GoMap, scalars: map<string, string>, subs: map<string, Shape>)

  /** The shape and all those nested in it. */
  ghost function Nodes(s: Shape): set<Shape>
    decreases s
  {
    {s} + set k, n | k in s.subs && n in Nodes(s.subs[k]) :: n
  }

  ghost function Objects(s: Shape): set<GoMap> {
    set n | n in Nodes(s) :: n.root
  }

  /** No map object occurs twice. */
  ghost predicate IsTree(s: Shape)
    decreases s
  {
    && s.scalars.Keys !! s.subs.Keys
    && (forall k :: k in s.subs ==> s.root !in Objects(s.subs[k]) && IsTree(s.subs[k]))
    && (forall j, k :: j in s.subs && k in s.subs && j != k ==> Objects(s.subs[j]) !! Objects(s.subs[k]))
  }

  ghost function Entries(s: Shape): map<string, Any> {
    map k | k in s.scalars.Keys + s.subs.Keys ::
      if k in s.subs then Nested(s.subs[k].root) else Scalar(s.scalars[k])
  }

  /** The objects are filled and linked as the shape says. */
  ghost predicate Linked(s: Shape)
    reads Objects(s)
  {
    forall n :: n in Nodes(s) ==> n.root in Objects(s) && n.root.entries == Entries(n)
  }

  ghost predicate Holds(s: Shape)
    reads Objects(s)
  {
    IsTree(s) && Linked(s)
  }

  ghost function Value(s: Shape): (t: Tree)
    ensures t.Node?
    decreases s
  {
    Node(map k | k in s.scalars.Keys + s.subs.Keys ::
           if k in s.subs then Value(s.subs[k]) else Leaf(s.scalars[k]))
  }

  function At(t: Tree, k: string): Option<Tree>
    requires t.Node?
  {
    if k in t.kids then Some(t.kids[k]) else None
  }

  // ---------------------------------------------------------------------------------------------
  // One entry
  // ---------------------------------------------------------------------------------------------

  ghost function WithSub(r: Shape, k: string, sub: Shape): Shape {
    r.(scalars := r.scalars - {k}, subs := r.subs[k := sub])
  }

  ghost function WithScalar(r: Shape, k: string, v: string): Shape {
    r.(scalars := r.scalars[k := v], subs := r.subs - {k})
  }

  /** The objects of a tree outside the sub-tree at k. */
  ghost function Others(r: Shape, k: string): set<GoMap> {
    {r.root} + set j, o | j in r.subs && j != k && o in Objects(r.subs[j]) :: o
  }

  lemma OthersHave(r: Shape, k: string, j: string)
    requires j in r.subs && j != k
    ensures Objects(r.subs[j]) <= Others(r, k)
  {
  }

  lemma OthersKept(r: Shape, n: Shape, k: string)
    requires n.root == r.root && n.subs - {k} == r.subs - {k}
    ensures Others(n, k) == Others(r, k)
  {
    forall j | j != k ensures j in n.subs <==> j in r.subs {
      assert j in n.subs - {k} <==> j in r.subs - {k};
    }
    forall j | j in n.subs && j != k ensures n.subs[j] == r.subs[j] {
      assert (n.subs - {k})[j] == (r.subs - {k})[j];
    }
    forall o ensures o in Others(n, k) <==> o in Others(r, k) {
      if j :| j in r.subs && j != k && o in Objects(r.subs[j]) {
        assert j in n.subs && o in Objects(n.subs[j]);
      }
      if j :| j in n.subs && j != k && o in Objects(n.subs[j]) {
        assert j in r.subs && o in Objects(r.subs[j]);
      }
    }
  }

  lemma ObjectsSplit(r: Shape, k: string)
    ensures Objects(r) == Others(r, k) + if k in r.subs then Objects(r.subs[k]) else {}
  {
    forall o | o in Objects(r) ensures o in Others(r, k) + if k in r.subs then Objects(r.subs[k]) else {} {
      var n :| n in Nodes(r) && n.root == o;
      if n != r {
        var j :| j in r.subs && n in Nodes(r.subs[j]);
        assert o in Objects(r.subs[j]);
        if j != k { OthersHave(r, k, j); }
      }
    }
    forall j, o | j in r.subs && o in Objects(r.subs[j]) ensures o in Objects(r) {
      var n :| n in Nodes(r.subs[j]) && n.root == o;
      assert n in Nodes(r);
    }
    assert r in Nodes(r);
  }

  lemma WithSubIsTree(r: Shape, k: string, sub: Shape)
    requires IsTree(r) && IsTree(sub) && Others(r, k) !! Objects(sub)
    ensures IsTree(WithSub(r, k, sub))
  {
    var n := WithSub(r, k, sub);
    forall j | j in n.subs && j != k ensures Objects(n.subs[j]) <= Others(r, k) {
      OthersHave(r, k, j);
    }
    forall i, j | i in n.subs && j in n.subs && i != j ensures Objects(n.subs[i]) !! Objects(n.subs[j]) {
      if i == k {
        assert Objects(n.subs[j]) <= Others(r, k);
      } else if j == k {
        assert Objects(n.subs[i]) <= Others(r, k);
      }
    }
  }

  lemma WithScalarIsTree(r: Shape, k: string, v: string)
    requires IsTree(r)
    ensures IsTree(WithScalar(r, k, v))
  {
  }

  lemma WithObjects(r: Shape, k: string, sub: Shape, v: string)
    ensures Objects(WithSub(r, k, sub)) == Others(r, k) + Objects(sub)
    ensures Objects(WithScalar(r, k, v)) == Others(r, k)
  {
    var a, b := WithSub(r, k, sub), WithScalar(r, k, v);
    assert a.subs - {k} == r.subs - {k} && b.subs - {k} == r.subs - {k};
    OthersKept(r, a, k);
    OthersKept(r, b, k);
    ObjectsSplit(a, k);
    ObjectsSplit(b, k);
  }

  lemma ValueAt(s: Shape, k: string)
    ensures At(Value(s), k) ==
      if k in s.subs then Some(Value(s.subs[k])) else if k in s.scalars then Some(Leaf(s.scalars[k])) else None
  {
  }

  lemma SameTree(a: Tree, b: Tree)
    requires a.Node? && b.Node? && forall k :: At(a, k) == At(b, k)
    ensures a == b
  {
    forall k ensures k in a.kids <==> k in b.kids {
      assert At(a, k) == At(b, k);
    }
    forall k | k in a.kids ensures a.kids[k] == b.kids[k] {
      assert At(a, k) == At(b, k);
    }
  }

  lemma WithSubValue(r: Shape, k: string, sub: Shape)
    ensures Value(WithSub(r, k, sub)) == Node(Value(r).kids[k := Value(sub)])
  {
    var n := WithSub(r, k, sub);
    forall j ensures At(Value(n), j) == At(Node(Value(r).kids[k := Value(sub)]), j) {
      ValueAt(n, j);
      ValueAt(r, j);
    }
    SameTree(Value(n), Node(Value(r).kids[k := Value(sub)]));
  }

  lemma WithScalarValue(r: Shape, k: string, v: string)
    ensures Value(WithScalar(r, k, v)) == Node(Value(r).kids[k := Leaf(v)])
  {
    var n := WithScalar(r, k, v);
    forall j ensures At(Value(n), j) == At(Node(Value(r).kids[k := Leaf(v)]), j) {
      ValueAt(n, j);
      ValueAt(r, j);
    }
    SameTree(Value(n), Node(Value(r).kids[k := Leaf(v)]));
  }

  function EntryAt(entries: map<string, Any>, k: string): Option<Any> {
    if k in entries then Some(entries[k]) else None
  }

  lemma EntriesAt(s: Shape, k: string)
    ensures EntryAt(Entries(s), k) ==
      if k in s.subs then Some(Nested(s.subs[k].root))
      else if k in s.scalars then Some(Scalar(s.scalars[k])) else None
  {
  }

  lemma SameEntries(a: map<string, Any>, b: map<string, Any>)
    requires forall k :: EntryAt(a, k) == EntryAt(b, k)
    ensures a == b
  {
    forall k ensures k in a <==> k in b {
      assert EntryAt(a, k) == EntryAt(b, k);
    }
    forall k | k in a ensures a[k] == b[k] {
      assert EntryAt(a, k) == EntryAt(b, k);
    }
  }

  lemma WithSubEntries(r: Shape, k: string, sub: Shape)
    ensures Entries(WithSub(r, k, sub)) == Entries(r)[k := Nested(sub.root)]
  {
    forall j ensures EntryAt(Entries(WithSub(r, k, sub)), j) == EntryAt(Entries(r)[k := Nested(sub.root)], j) {
      EntriesAt(WithSub(r, k, sub), j);
      EntriesAt(r, j);
    }
    SameEntries(Entries(WithSub(r, k, sub)), Entries(r)[k := Nested(sub.root)]);
  }

  lemma WithScalarEntries(r: Shape, k: string, v: string)
    ensures Entries(WithScalar(r, k, v)) == Entries(r)[k := Scalar(v)]
  {
    forall j ensures EntryAt(Entries(WithScalar(r, k, v)), j) == EntryAt(Entries(r)[k := Scalar(v)], j) {
      EntriesAt(WithScalar(r, k, v), j);
      EntriesAt(r, j);
    }
    SameEntries(Entries(WithScalar(r, k, v)), Entries(r)[k := Scalar(v)]);
  }

  /** A tree is linked as soon as its root and the trees below it are. */
  lemma LinkedFrom(s: Shape)
    requires s.root.entries == Entries(s) && forall k :: k in s.subs ==> Linked(s.subs[k])
    ensures Linked(s)
  {
  }

  lemma LinkedPart(s: Shape)
    requires Holds(s)
    ensures s.root.entries == Entries(s)
    ensures forall k :: k in s.subs ==> Holds(s.subs[k]) && s.root !in Objects(s.subs[k])
  {
    assert s in Nodes(s);
    forall k | k in s.subs ensures Linked(s.subs[k]) {
      forall n | n in Nodes(s.subs[k]) ensures n.root in Objects(s.subs[k]) && n.root.entries == Entries(n) {
        assert n in Nodes(s);
      }
    }
  }

  /** What linking a tree under a key makes of the shape. */
  lemma LinkedShape(r: Shape, k: string, sub: Shape)
    requires IsTree(r) && IsTree(sub) && Others(r, k) !! Objects(sub)
    ensures var n := WithSub(r, k, sub);
      && IsTree(n) && Objects(n) == Others(r, k) + Objects(sub)
      && Entries(n) == Entries(r)[k := Nested(sub.root)]
      && Value(n) == Node(Value(r).kids[k := Value(sub)])
  {
    WithSubEntries(r, k, sub);
    WithSubIsTree(r, k, sub);
    WithObjects(r, k, sub, "");
    WithSubValue(r, k, sub);
  }

  /** The trees below a shape, but for the one at a key. */
  ghost function Siblings(r: Shape, k: string): set<Shape> {
    set j | j in r.subs && j != k :: r.subs[j]
  }

  /** `m[k] = e`; trees m is no part of are as before. */
  method Assign(m: GoMap, k: string, e: Any, ghost apart: set<Shape>)
    requires forall t :: t in apart ==> m !in Objects(t) && allocated(Objects(t)) && Linked(t)
    modifies m
    ensures m.entries == old(m.entries)[k := e]
    ensures forall t :: t in apart ==> Linked(t)
  {
    m.entries := m.entries[k := e];
  }

  lemma SiblingsApart(r: Shape, k: string)
    requires Holds(r)
    ensures forall t :: t in Siblings(r, k) ==> r.root !in Objects(t) && Objects(t) <= Objects(r) && Linked(t)
  {
    LinkedPart(r);
    ObjectsSplit(r, k);
    forall j | j in r.subs && j != k ensures Objects(r.subs[j]) <= Objects(r) {
      OthersHave(r, k, j);
    }
  }

  /** `m[k] = v` for a map v, which is linked, not copied. */
  method Link(m: GoMap, k: string, v: GoMap, ghost r: Shape, ghost sub: Shape)
    requires Holds(r) && r.root == m && Holds(sub) && sub.root == v && Objects(sub) !! Others(r, k)
    requires allocated(Objects(r)) && allocated(Objects(sub))
    modifies m
    ensures Holds(WithSub(r, k, sub))
    ensures m.entries == old(m.entries)[k := Nested(v)]
    ensures Value(WithSub(r, k, sub)) == Node(Value(r).kids[k := Value(sub)])
    ensures Objects(WithSub(r, k, sub)) == Others(r, k) + Objects(sub)
  {
    LinkedPart(r);
    LinkedShape(r, k, sub);
    SiblingsApart(r, k);
    Assign(m, k, Nested(v), Siblings(r, k) + {sub});
    LinkedFrom(WithSub(r, k, sub));
  }

  /** `m[k] = v` for anything else. */
  method Put(m: GoMap, k: string, v: string, ghost r: Shape)
    requires Holds(r) && r.root == m && allocated(Objects(r))
    modifies m
    ensures Holds(WithScalar(r, k, v))
    ensures m.entries == old(m.entries)[k := Scalar(v)]
    ensures Value(WithScalar(r, k, v)) == Node(Value(r).kids[k := Leaf(v)])
    ensures Objects(WithScalar(r, k, v)) == Others(r, k)
  {
    LinkedPart(r);
    WithScalarEntries(r, k, v);
    WithScalarIsTree(r, k, v);
    WithObjects(r, k, r, v);
    WithScalarValue(r, k, v);
    SiblingsApart(r, k);
    Assign(m, k, Scalar(v), Siblings(r, k));
    LinkedFrom(WithScalar(r, k, v));
  }

  // ---------------------------------------------------------------------------------------------
  // mergeMap
  // ---------------------------------------------------------------------------------------------

  /** The keys in `todo` are as they were, the others are merged. */
  ghost predicate MergedExcept(d: Tree, s: Tree, r: Tree, todo: set<string>)
    requires d.Node? && s.Node? && r.Node?
  {
    forall k :: At(r, k) == if k in todo then At(d, k) else At(Overlay(d, s), k)
  }

  lemma MergedOneMore(d: Tree, s: Tree, r: Tree, todo: set<string>, k: string, x: Tree)
    requires d.Node? && s.Node? && r.Node? && MergedExcept(d, s, r, todo) && At(Overlay(d, s), k) == Some(x)
    ensures MergedExcept(d, s, Node(r.kids[k := x]), todo - {k})
  {
    var n := Node(r.kids[k := x]);
    forall j ensures At(n, j) == if j in todo - {k} then At(d, j) else At(Overlay(d, s), j) {
      assert At(r, j) == if j in todo then At(d, j) else At(Overlay(d, s), j);
    }
  }

  /** What is still to come of `s` is apart from `r`, and what it will be merged into is of `d`. */
  ghost predicate Apart(d: Shape, s: Shape, r: Shape, todo: set<string>) {
    && Objects(r) <= Objects(d) + Objects(s) && s.root !in Objects(r)
    && (forall k :: k in todo && k in s.subs ==> Objects(r) !! Objects(s.subs[k]))
    && (forall k :: k in todo && k in r.subs ==> Objects(r.subs[k]) <= Objects(d))
  }

  lemma ApartStart(d: Shape, s: Shape, todo: set<string>)
    requires Objects(d) !! Objects(s)
    ensures Apart(d, s, d, todo)
  {
    forall k | k in s.subs ensures Objects(s.subs[k]) <= Objects(s) {
      ObjectsSplit(s, k);
    }
    forall k | k in d.subs ensures Objects(d.subs[k]) <= Objects(d) {
      ObjectsSplit(d, k);
    }
  }

  lemma ApartOthers(d: Shape, s: Shape, r: Shape, todo: set<string>, k: string, sub: Shape)
    requires Apart(d, s, r, todo) && IsTree(r) && k in todo && k in s.subs
    requires Objects(sub) <= Objects(s.subs[k]) + if k in r.subs then Objects(r.subs[k]) else {}
    ensures Others(r, k) !! Objects(sub)
  {
    ObjectsSplit(r, k);
    if k in r.subs { SeparateFromOthers(r, k); }
  }

  /** The sub-tree of `s` at k is merged into the one of `r`, or taken over. */
  lemma ApartWithSub(d: Shape, s: Shape, r: Shape, todo: set<string>, k: string, sub: Shape)
    requires Apart(d, s, r, todo) && IsTree(s) && k in todo && k in s.subs
    requires Objects(sub) <= Objects(s.subs[k]) + if k in r.subs then Objects(r.subs[k]) else {}
    ensures Apart(d, s, WithSub(r, k, sub), todo - {k})
  {
    var n := WithSub(r, k, sub);
    WithObjects(r, k, sub, "");
    ObjectsSplit(r, k);
    ObjectsSplit(s, k);
    assert Objects(n) <= Objects(r) + Objects(s.subs[k]);
    assert s.root !in Objects(s.subs[k]);
    forall j | j in todo - {k} && j in s.subs ensures Objects(n) !! Objects(s.subs[j]) {
      assert Objects(s.subs[j]) !! Objects(s.subs[k]);
    }
  }

  lemma ApartWithScalar(d: Shape, s: Shape, r: Shape, todo: set<string>, k: string, v: string)
    requires Apart(d, s, r, todo)
    ensures Apart(d, s, WithScalar(r, k, v), todo - {k})
  {
    WithObjects(r, k, r, v);
    ObjectsSplit(r, k);
    assert Objects(WithScalar(r, k, v)) <= Objects(r);
  }

  lemma SeparateFromOthers(r: Shape, k: string)
    requires IsTree(r) && k in r.subs
    ensures Others(r, k) !! Objects(r.subs[k])
  {
  }

  lemma NothingMerged(d: Shape, s: Shape)
    ensures MergedExcept(Value(d), Value(s), Value(d), s.scalars.Keys + s.subs.Keys)
  {
    forall k | k !in s.scalars && k !in s.subs ensures At(Value(d), k) == At(Overlay(Value(d), Value(s)), k) {
      ValueAt(s, k);
    }
  }

  /** A sub-map changed behind its reference: the tree around it is as before. */
  lemma Relinked(r: Shape, k: string, sub: Shape)
    requires k in r.subs && k !in r.scalars && sub.root == r.subs[k].root && r.root.entries == Entries(r)
    requires Linked(sub) && forall j :: j in r.subs && j != k ==> Linked(r.subs[j])
    ensures Linked(WithSub(r, k, sub))
  {
    WithSubEntries(r, k, sub);
    assert Entries(r)[k := Nested(sub.root)] == Entries(r);
    LinkedFrom(WithSub(r, k, sub));
  }

  /** What the merge has to put under a key it has not reached yet. */
  lemma MergedAt(d: Tree, s: Tree, r: Tree, todo: set<string>, k: string)
    requires d.Node? && s.Node? && r.Node? && MergedExcept(d, s, r, todo) && k in todo && k in s.kids
    ensures At(Overlay(d, s), k) == Some(if k in r.kids then Overlay(r.kids[k], s.kids[k]) else s.kids[k])
  {
    assert At(r, k) == At(d, k);
  }

  /** What holds while `r` grows out of `d` and only the keys in `todo` are left of `s`. */
  ghost predicate Merging(d: Shape, s: Shape, r: Shape, todo: set<string>)
    reads Objects(r)
  {
    Holds(r) && Apart(d, s, r, todo) && MergedExcept(Value(d), Value(s), Value(r), todo)
  }

  lemma MergeStarts(d: Shape, s: Shape)
    requires Holds(d) && Holds(s) && Objects(d) !! Objects(s)
    ensures Merging(d, s, d, s.root.entries.Keys)
  {
    LinkedPart(s);
    ApartStart(d, s, s.root.entries.Keys);
    NothingMerged(d, s);
  }

  lemma MergeEnds(d: Shape, s: Shape, r: Shape)
    requires Merging(d, s, r, {})
    ensures Value(r) == Overlay(Value(d), Value(s)) && Objects(r) <= Objects(d) + Objects(s) && Holds(r)
  {
    SameTree(Value(r), Overlay(Value(d), Value(s)));
  }

  /** mergeMap, visiting the keys of `src` in any order. */
  method MergeMap(dst: GoMap, src: GoMap, ghost d: Shape, ghost s: Shape) returns (ghost r: Shape)
    requires d.root == dst && s.root == src && Holds(d) && Holds(s) && Objects(d) !! Objects(s)
    requires allocated(Objects(d)) && allocated(Objects(s))
    modifies Objects(d)
    ensures r.root == dst && Holds(r) && Objects(r) <= Objects(d) + Objects(s)
    ensures Value(r) == Overlay(Value(d), Value(s))
    ensures Holds(s)
    decreases s, 2
  {
    r := d;
    var todo := src.entries.Keys;
    MergeStarts(d, s);
    while todo != {}
      invariant todo <= src.entries.Keys && Holds(s) && r.root == dst && Merging(d, s, r, todo)
    {
      var k :| k in todo;
      r := MergeKey(dst, src, k, d, s, r, todo);
      todo := todo - {k};
    }
    MergeEnds(d, s, r);
  }

  /** The body of the loop, for one key. */
  method MergeKey(dst: GoMap, src: GoMap, k: string, ghost d: Shape, ghost s: Shape, ghost r: Shape,
                  ghost todo: set<string>)
    returns (ghost n: Shape)
    requires r.root == dst && s.root == src && Holds(r) && Holds(s) && k in todo && k in src.entries
    requires Apart(d, s, r, todo) && MergedExcept(Value(d), Value(s), Value(r), todo)
    requires dst in Objects(d) && Objects(d) !! Objects(s)
    requires allocated(Objects(d)) && allocated(Objects(s))
    modifies Objects(d)
    ensures n.root == dst && Holds(n)
    ensures Apart(d, s, n, todo - {k}) && MergedExcept(Value(d), Value(s), Value(n), todo - {k})
    decreases s, 1
  {
    var v := src.entries[k];
    LinkedPart(s);
    LinkedPart(r);
    ValueAt(s, k);
    ValueAt(r, k);
    MergedAt(Value(d), Value(s), Value(r), todo, k);
    if v.Scalar? {
      ApartWithScalar(d, s, r, todo, k, v.value);
      Put(dst, k, v.value, r);
      MergedOneMore(Value(d), Value(s), Value(r), todo, k, Leaf(v.value));
      return WithScalar(r, k, v.value);
    }
    ghost var sub := MergeSub(dst, k, v.table, d, s, r, todo);
    MergedOneMore(Value(d), Value(s), Value(r), todo, k, Value(sub));
    n := WithSub(r, k, sub);
  }

  /** The new layer has a map under k. */
  method MergeSub(dst: GoMap, k: string, sm: GoMap, ghost d: Shape, ghost s: Shape, ghost r: Shape,
                  ghost todo: set<string>)
    returns (ghost sub: Shape)
    requires r.root == dst && Holds(r) && Holds(s) && k in todo && k in s.subs && s.subs[k].root == sm
    requires Apart(d, s, r, todo) && dst in Objects(d) && Objects(d) !! Objects(s)
    requires allocated(Objects(d)) && allocated(Objects(s))
    modifies Objects(d)
    ensures Holds(WithSub(r, k, sub)) && Apart(d, s, WithSub(r, k, sub), todo - {k})
    ensures Value(sub) == if k in r.subs then Overlay(Value(r.subs[k]), Value(s.subs[k])) else Value(s.subs[k])
    ensures Value(WithSub(r, k, sub)) == Node(Value(r).kids[k := Value(sub)])
    decreases s, 0
  {
    LinkedPart(s);
    LinkedPart(r);
    sub := s.subs[k];
    if k in dst.entries && dst.entries[k].Nested? {
      sub := MergeBelow(dst.entries[k].table, sm, k, r, s.subs[k]);
    } else {
      ApartOthers(d, s, r, todo, k, sub);
      Link(dst, k, sm, r, sub);
    }
    WithSubValue(r, k, sub);
    ApartWithSub(d, s, r, todo, k, sub);
  }

  /** Both sides have a map under k. */
  method MergeBelow(dm: GoMap, sm: GoMap, k: string, ghost r: Shape, ghost s: Shape) returns (ghost sub: Shape)
    requires Holds(r) && k in r.subs && r.subs[k].root == dm && Holds(s) && s.root == sm
    requires Objects(r) !! Objects(s) && allocated(Objects(r)) && allocated(Objects(s))
    modifies Objects(r.subs[k])
    ensures Objects(sub) <= Objects(r.subs[k]) + Objects(s)
    ensures Value(sub) == Overlay(Value(r.subs[k]), Value(s))
    ensures Holds(WithSub(r, k, sub))
    decreases s, 3
  {
    LinkedPart(r);
    ObjectsSplit(r, k);
    SeparateFromOthers(r, k);
    sub := MergeMap(dm, sm, r.subs[k], s);
    forall j | j in r.subs && j != k ensures Linked(r.subs[j]) {
      OthersHave(r, k, j);
    }
    Relinked(r, k, sub);
    WithSubIsTree(r, k, sub);
  }

  // ---------------------------------------------------------------------------------------------
  // setNested and applyEnv
  // ---------------------------------------------------------------------------------------------

  lemma EmptyShape(m: GoMap)
    requires m.entries == map[]
    ensures var s := Shape(m, map[], map[]); Objects(s) == {m} && Value(s) == EMPTY && Holds(s)
  {
    var s := Shape(m, map[], map[]);
    assert Nodes(s) == {s};
  }

  /** `m[k] = map[string]any{}`. */
  method NewMap(m: GoMap, k: string, ghost r: Shape) returns (next: GoMap, ghost n: Shape)
    requires r.root == m && Holds(r) && allocated(Objects(r))
    modifies m
    ensures n.root == m && Holds(n) && allocated(Objects(n)) && fresh(Objects(n) - Objects(r))
    ensures k in n.subs && n.subs[k].root == next && Value(n.subs[k]) == EMPTY
    ensures Value(n) == Node(Value(r).kids[k := EMPTY])
  {
    next := new GoMap();
    ghost var sub := Shape(next, map[], map[]);
    EmptyShape(next);
    ObjectsSplit(r, k);
    Link(m, k, next, r, sub);
    n := WithSub(r, k, sub);
  }

  /** The map under k, a new one if there is none. */
  method EnsureMap(m: GoMap, k: string, ghost r: Shape) returns (next: GoMap, ghost n: Shape)
    requires r.root == m && Holds(r) && allocated(Objects(r))
    modifies m
    ensures n.root == m && Holds(n) && allocated(Objects(n)) && fresh(Objects(n) - Objects(r))
    ensures k in n.subs && n.subs[k].root == next && Value(n.subs[k]) == Below(Value(r), k)
    ensures Value(n) == Node(Value(r).kids[k := Below(Value(r), k)])
  {
    LinkedPart(r);
    BelowShape(r, k);
    if k in m.entries && m.entries[k].Nested? {
      return m.entries[k].table, r;
    }
    next, n := NewMap(m, k, r);
  }

  lemma BelowShape(r: Shape, k: string)
    requires IsTree(r)
    ensures Below(Value(r), k) == if k in r.subs then Value(r.subs[k]) else EMPTY
    ensures k in r.subs ==> Value(r) == Node(Value(r).kids[k := Below(Value(r), k)])
  {
    ValueAt(r, k);
  }

  method SetNested(m: GoMap, keys: seq<string>, v: string, ghost r: Shape) returns (ghost n: Shape)
    requires r.root == m && Holds(r) && allocated(Objects(r))
    modifies Objects(r)
    ensures n.root == m && Holds(n) && allocated(Objects(n)) && fresh(Objects(n) - Objects(r))
    ensures Value(n) == SetPath(Value(r), keys, v)
    decreases |keys|, 1
  {
    if |keys| == 0 {
      return r;
    }
    var k := keys[0];
    ObjectsSplit(r, k);
    if |keys| == 1 {
      Put(m, k, v, r);
      return WithScalar(r, k, v);
    }
    var next;
    ghost var with;
    next, with := EnsureMap(m, k, r);
    ghost var made := Objects(with) - Objects(r);
    BelowWithin(with, k);
    n := SetBelow(next, k, keys[1..], v, with);
    SetPathStep(Value(r), Value(with), k, keys, v);
    assert Objects(n) - Objects(r) <= (Objects(n) - Objects(with)) + made;
  }

  lemma BelowWithin(r: Shape, k: string)
    requires k in r.subs
    ensures Objects(r.subs[k]) <= Objects(r)
  {
    ObjectsSplit(r, k);
  }

  lemma SetPathStep(t: Tree, w: Tree, k: string, keys: seq<string>, v: string)
    requires t.Node? && |keys| > 1 && keys[0] == k && w == Node(t.kids[k := Below(t, k)])
    ensures Node(w.kids[k := SetPath(Below(t, k), keys[1..], v)]) == SetPath(t, keys, v)
  {
  }

  method SetBelow(next: GoMap, k: string, keys: seq<string>, v: string, ghost r: Shape) returns (ghost n: Shape)
    requires Holds(r) && allocated(Objects(r)) && k in r.subs && r.subs[k].root == next
    modifies Objects(r.subs[k])
    ensures n.root == r.root && Holds(n) && allocated(Objects(n)) && fresh(Objects(n) - Objects(r))
    ensures Value(n) == Node(Value(r).kids[k := SetPath(Value(r.subs[k]), keys, v)])
    decreases |keys|, 2
  {
    LinkedPart(r);
    ObjectsSplit(r, k);
    SeparateFromOthers(r, k);
    ghost var sub := SetNested(next, keys, v, r.subs[k]);
    forall j | j in r.subs && j != k ensures Linked(r.subs[j]) {
      OthersHave(r, k, j);
    }
    Relinked(r, k, sub);
    WithSubIsTree(r, k, sub);
    WithObjects(r, k, sub, "");
    WithSubValue(r, k, sub);
    n := WithSub(r, k, sub);
  }

  /** The setting an environment entry stands for, if it has the prefix and an equals sign. */
  function Decode(kv: string, prefix: string): Option<Setting> {
    var eq := IndexOf(kv, '=');
    if !(prefix <= kv) || eq == |kv| then None
    else Some(Setting(SplitDouble(ToLower(TrimPrefix(kv[..eq], prefix))), kv[eq + 1..]))
  }

  function OneSetting(kv: string, prefix: string): seq<Setting> {
    if Decode(kv, prefix).Some? then [Decode(kv, prefix).value] else []
  }

  function Settings(environ: seq<string>, prefix: string): seq<Setting> {
    if environ == [] then []
    else Settings(environ[..|environ| - 1], prefix) + OneSetting(environ[|environ| - 1], prefix)
  }

  /** An environment entry of that name, after the prefix, and that value. */
  predicate Spells(kv: string, prefix: string, name: string, v: string) {
    '=' !in name && kv == prefix + name + "=" + v
  }

  /** No entry is such a variable. */
  ghost predicate Foreign(environ: seq<string>, prefix: string) {
    '=' !in prefix && forall kv, name, v :: kv in environ ==> !Spells(kv, prefix, name, v)
  }

  /** Which entries are settings, and of what: the others are passed over. */
  lemma DecodeExactly(kv: string, prefix: string, s: Setting)
    requires '=' !in prefix
    ensures Decode(kv, prefix) == Some(s)
       <==> exists name, v :: Spells(kv, prefix, name, v) && s == Setting(SplitDouble(ToLower(name)), v)
  {
    if Decode(kv, prefix) == Some(s) {
      var name := DecodedName(kv, prefix);
      assert Spells(kv, prefix, name, s.value);
    }
    if name, v :| Spells(kv, prefix, name, v) && s == Setting(SplitDouble(ToLower(name)), v) {
      DecodeSpelled(prefix, name, v);
    }
  }

  lemma DecodeSpelled(prefix: string, name: string, v: string)
    requires '=' !in prefix && '=' !in name
    ensures Decode(prefix + name + "=" + v, prefix) == Some(Setting(SplitDouble(ToLower(name)), v))
  {
    var named := prefix + name;
    IndexAfter(named, '=', v);
    assert (named + "=" + v)[..|named|] == named && named[|prefix|..] == name;
    assert (named + "=" + v)[|named| + 1..] == v;
  }

  lemma Spelled(prefix: string, rest: string) returns (name: string)
    requires IndexOf(rest, '=') < |rest|
    ensures |name| < |rest| && Spells(prefix + rest, prefix, name, rest[|name| + 1..])
  {
    name := rest[..IndexOf(rest, '=')];
    var v := rest[|name| + 1..];
    assert rest == name + "=" + v;
    assert prefix + (name + "=" + v) == prefix + name + "=" + v;
  }

  lemma DecodedName(kv: string, prefix: string) returns (name: string)
    requires '=' !in prefix && Decode(kv, prefix).Some?
    ensures Spells(kv, prefix, name, Decode(kv, prefix).value.value)
    ensures Decode(kv, prefix).value.path == SplitDouble(ToLower(name))
  {
    var rest := kv[|prefix|..];
    assert kv == prefix + rest;
    IndexPast(prefix, '=', rest);
    name := Spelled(prefix, rest);
    DecodeSpelled(prefix, name, rest[|name| + 1..]);
  }

  /** A path can be set through the environment, under any spelling of its name, exactly when its
      keys can be told apart in the name. */
  lemma Addressable(prefix: string, name: string, path: seq<string>, v: string)
    requires '=' !in prefix + name && path != [] && ToLower(name) == JoinDouble(path)
    ensures Decode(prefix + name + "=" + v, prefix) == Some(Setting(path, v)) <==> Separable(path)
  {
    DecodeSpelled(prefix, name, v);
    JoinThenSplit(path);
  }

  /** A key a variable's name can spell. */
  predicate Lowered(k: string) {
    forall c :: c in k ==> c != '=' && !('A' <= c <= 'Z')
  }

  lemma LoweredFixed(s: string)
    requires Lowered(s)
    ensures ToLower(s) == s
  {
    forall i | 0 <= i < |s| ensures ToLower(s)[i] == s[i] {
      assert s[i] in s;
    }
  }

  lemma LoweredName(s: string)
    requires '=' !in s
    ensures Lowered(ToLower(s))
  {
    forall c | c in ToLower(s) ensures c != '=' && !('A' <= c <= 'Z') {
      var i :| 0 <= i < |s| && ToLower(s)[i] == c;
      assert s[i] in s;
    }
  }

  /** What a variable decodes to: separable, lowered keys. */
  lemma DecodedPath(kv: string, prefix: string)
    requires '=' !in prefix && Decode(kv, prefix).Some?
    ensures Separable(Decode(kv, prefix).value.path)
    ensures forall k :: k in Decode(kv, prefix).value.path ==> Lowered(k)
  {
    var name := DecodedName(kv, prefix);
    LoweredName(name);
    SplitSeparable("", ToLower(name));
    forall k, c | k in SplitDouble(ToLower(name)) && c in k ensures c != '=' && !('A' <= c <= 'Z') {
      SplitChars("", ToLower(name), k, c);
    }
  }

  /** A path can be set by some variable exactly if its keys can be told apart in a name and hold no
      equals sign and no upper-case letter. */
  lemma AddressableExactly(prefix: string, path: seq<string>, v: string)
    requires '=' !in prefix && path != []
    ensures (exists kv :: Decode(kv, prefix) == Some(Setting(path, v)))
       <==> Separable(path) && forall k :: k in path ==> Lowered(k)
  {
    if kv :| Decode(kv, prefix) == Some(Setting(path, v)) {
      DecodedPath(kv, prefix);
    }
    if Separable(path) && forall k :: k in path ==> Lowered(k) {
      var name := JoinDouble(path);
      forall c | c in name ensures c != '=' && !('A' <= c <= 'Z') {
        if c != '_' { JoinChars(path, c); }
      }
      LoweredFixed(name);
      Addressable(prefix, name, path, v);
      assert Decode(prefix + name + "=" + v, prefix) == Some(Setting(path, v));
    }
  }

  method ApplyEnv(root: GoMap, environ: seq<string>, prefix: string, ghost r: Shape) returns (ghost n: Shape)
    requires r.root == root && Holds(r) && allocated(Objects(r))
    modifies Objects(r)
    ensures n.root == root && Holds(n) && allocated(Objects(n)) && fresh(Objects(n) - Objects(r))
    ensures Value(n) == SetAll(Value(r), Settings(environ, prefix))
    // Entries without the prefix or without an equals sign change nothing.
    ensures Foreign(environ, prefix) ==> Value(n) == Value(r)
  {
    n := r;
    ghost var made: set<GoMap> := {};
    for i := 0 to |environ|
      invariant n.root == root && Holds(n) && allocated(Objects(n))
      invariant Objects(n) <= Objects(r) + made && fresh(made)
      invariant Value(n) == SetAll(Value(r), Settings(environ[..i], prefix))
    {
      assert environ[..i + 1][..i] == environ[..i];
      ghost var with := ApplyEntry(root, environ[i], prefix, n);
      SetAllJoin(Value(r), Settings(environ[..i], prefix), OneSetting(environ[i], prefix));
      made := made + (Objects(with) - Objects(n));
      n := with;
    }
    assert environ[..|environ|] == environ;
    if Foreign(environ, prefix) {
      NoSettings(environ, prefix);
    }
  }

  /** The body of the loop. */
  method ApplyEntry(root: GoMap, kv: string, prefix: string, ghost r: Shape) returns (ghost n: Shape)
    requires r.root == root && Holds(r) && allocated(Objects(r))
    modifies Objects(r)
    ensures n.root == root && Holds(n) && allocated(Objects(n)) && fresh(Objects(n) - Objects(r))
    ensures Value(n) == SetAll(Value(r), OneSetting(kv, prefix))
  {
    n := r;
    if !(prefix <= kv) {
      return;
    }
    var eq := IndexOf(kv, '=');
    if eq == |kv| {
      return;
    }
    var keys := SplitDouble(ToLower(TrimPrefix(kv[..eq], prefix)));
    n := SetNested(root, keys, kv[eq + 1..], r);
    SetAllJoin(Value(r), [], [Setting(keys, kv[eq + 1..])]);
  }

  lemma {:induction false} SetAllJoin(t: Tree, settings: seq<Setting>, more: seq<Setting>)
    requires t.Node?
    ensures SetAll(t, settings + more) == SetAll(SetAll(t, settings), more)
    decreases |more|
  {
    if more == [] {
      assert settings + more == settings;
    } else {
      var n := |more| - 1;
      assert (settings + more)[..|settings| + n] == settings + more[..n];
      SetAllJoin(t, settings, more[..n]);
    }
  }

  lemma {:induction false} NoSettings(environ: seq<string>, prefix: string)
    requires Foreign(environ, prefix)
    ensures Settings(environ, prefix) == []
  {
    if environ != [] {
      var n := |environ| - 1;
      assert environ[n] in environ && forall kv :: kv in environ[..n] ==> kv in environ;
      NoSettings(environ[..n], prefix);
      if Decode(environ[n], prefix).Some? {
        var name := DecodedName(environ[n], prefix);
      }
    }
  }

  lemma {:induction false} SettingsJoin(a: seq<string>, b: seq<string>, prefix: string)
    ensures Settings(a + b, prefix) == Settings(a, prefix) + Settings(b, prefix)
    decreases |b|
  {
    if b == [] {
      assert a + b == a;
    } else {
      var n := |b| - 1;
      assert (a + b)[..|a + b| - 1] == a + b[..n];
      SettingsJoin(a, b[..n], prefix);
    }
  }

  lemma SettingsSplit(a: seq<string>, i: nat, prefix: string)
    requires i < |a|
    ensures multiset(Settings(a, prefix))
         == multiset(Settings(Without(a, i), prefix)) + multiset(OneSetting(a[i], prefix))
  {
    assert a == (a[..i] + [a[i]]) + a[i + 1..];
    SettingsJoin(a[..i], a[i + 1..], prefix);
    SettingsJoin(a[..i] + [a[i]], a[i + 1..], prefix);
    assert (a[..i] + [a[i]])[..i] == a[..i];
  }

  lemma {:induction false} SettingsPermuted(a: seq<string>, b: seq<string>, prefix: string)
    requires multiset(a) == multiset(b)
    ensures multiset(Settings(a, prefix)) == multiset(Settings(b, prefix))
    decreases |a|
  {
    if b == [] {
      assert |a| == |multiset(a)| == |multiset(b)| == 0;
    } else {
      var i := HeadIn(a, b);
      SettingsPermuted(Without(a, i), Without(b, 0), prefix);
      SettingsSplit(a, i, prefix);
      SettingsSplit(b, 0, prefix);
    }
  }

  /** Of two variables neither path leads through the other, unless they set the same. */
  predicate Unordered(a: string, b: string, prefix: string) {
    Decode(a, prefix).Some? && Decode(b, prefix).Some? ==>
      Exchangeable(Decode(a, prefix).value, Decode(b, prefix).value)
  }

  ghost predicate AllUnordered(environ: seq<string>, prefix: string) {
    forall i, j :: 0 <= i < j < |environ| ==> Unordered(environ[i], environ[j], prefix)
  }

  lemma {:induction false} SettingFrom(environ: seq<string>, prefix: string, s: Setting) returns (i: nat)
    requires s in Settings(environ, prefix)
    ensures i < |environ| && Decode(environ[i], prefix) == Some(s)
  {
    var n := |environ| - 1;
    if s in Settings(environ[..n], prefix) {
      i := SettingFrom(environ[..n], prefix, s);
    } else {
      i := n;
    }
  }

  lemma {:induction false} UnorderedSettings(environ: seq<string>, prefix: string)
    requires AllUnordered(environ, prefix)
    ensures AllExchangeable(Settings(environ, prefix))
  {
    if environ != [] {
      var n := |environ| - 1;
      var before, all := Settings(environ[..n], prefix), Settings(environ, prefix);
      forall i, j | 0 <= i < j < n ensures Unordered(environ[..n][i], environ[..n][j], prefix) {
        assert Unordered(environ[i], environ[j], prefix);
      }
      UnorderedSettings(environ[..n], prefix);
      forall i, j | 0 <= i < j < |all| ensures ExchangeableAt(all, i, j) {
        assert all[i] == before[i];
        if j < |before| {
          assert ExchangeableAt(before, i, j);
        } else {
          var p := SettingFrom(environ[..n], prefix, before[i]);
          assert Unordered(environ[p], environ[n], prefix);
        }
      }
    }
  }

  /** The tree the environment gives does not depend on its order. */
  ghost predicate OrderIrrelevant(t: Tree, environ: seq<string>, prefix: string)
    requires t.Node?
  {
    forall other :: multiset(other) == multiset(environ) ==>
      SetAll(t, Settings(other, prefix)) == SetAll(t, Settings(environ, prefix))
  }

  /** Over any tree that is so exactly if no variable's path leads through another's, but for
      variables that set the same. */
  lemma EnvironmentOrder(t: Tree, environ: seq<string>, prefix: string)
    requires t.Node?
    ensures OrderIrrelevant(t, environ, prefix) <==> AllUnordered(environ, prefix)
  {
    if AllUnordered(environ, prefix) {
      UnorderedSettings(environ, prefix);
      forall other | multiset(other) == multiset(environ)
        ensures SetAll(t, Settings(other, prefix)) == SetAll(t, Settings(environ, prefix))
      {
        SettingsPermuted(environ, other, prefix);
        SetAllPermuted(t, Settings(environ, prefix), Settings(other, prefix));
      }
    } else {
      var i, j :| 0 <= i < j < |environ| && !Unordered(environ[i], environ[j], prefix);
      OrderMatters(t, environ, i, j, prefix);
    }
  }

  lemma OrderMatters(t: Tree, environ: seq<string>, i: nat, j: nat, prefix: string)
    requires t.Node? && i < j < |environ| && !Unordered(environ[i], environ[j], prefix)
    ensures !OrderIrrelevant(t, environ, prefix)
  {
    var rest := Without(Without(environ, j), i);
    BothLast(environ, i, j);
    LastTwo(t, rest, environ[i], environ[j], prefix);
    NotBoth(t, rest + [environ[i], environ[j]], rest + [environ[j], environ[i]], environ, prefix);
  }

  lemma NotBoth(t: Tree, one: seq<string>, two: seq<string>, environ: seq<string>, prefix: string)
    requires t.Node? && multiset(one) == multiset(environ) && multiset(two) == multiset(environ)
    requires SetAll(t, Settings(one, prefix)) != SetAll(t, Settings(two, prefix))
    ensures !OrderIrrelevant(t, environ, prefix)
  {
  }

  /** Put last in either order, the two give different trees. */
  lemma LastTwo(t: Tree, rest: seq<string>, a: string, b: string, prefix: string)
    requires t.Node? && !Unordered(a, b, prefix)
    ensures SetAll(t, Settings(rest + [a, b], prefix)) != SetAll(t, Settings(rest + [b, a], prefix))
  {
    var x, y := Decode(a, prefix).value, Decode(b, prefix).value;
    var base := SetAll(t, Settings(rest, prefix));
    AppliedLast(t, rest, a, b, prefix);
    AppliedLast(t, rest, b, a, prefix);
    SetsCommuteExactly(base, x.path, x.value, y.path, y.value);
  }

  lemma AppliedLast(t: Tree, rest: seq<string>, a: string, b: string, prefix: string)
    requires t.Node? && Decode(a, prefix).Some? && Decode(b, prefix).Some?
    ensures var x, y := Decode(a, prefix).value, Decode(b, prefix).value;
      SetAll(t, Settings(rest + [a, b], prefix))
        == SetPath(SetPath(SetAll(t, Settings(rest, prefix)), x.path, x.value), y.path, y.value)
  {
    var x, y := Decode(a, prefix).value, Decode(b, prefix).value;
    var all := rest + [a, b];
    assert all[..|all| - 1] == rest + [a] && (rest + [a])[..|rest|] == rest;
    SetAllJoin(t, Settings(rest, prefix), [x]);
    SetAllJoin(t, Settings(rest, prefix) + [x], [y]);
    SetAllJoin(SetAll(t, Settings(rest, prefix)), [], [x]);
    SetAllJoin(SetAll(t, Settings(rest, prefix) + [x]), [], [y]);
    assert [] + [x] == [x] && [] + [y] == [y];
  }

  /** Then each variable's path reads back its value, and a path unrelated to all of them what it
      did before. */
  lemma EnvironmentReads(t: Tree, environ: seq<string>, prefix: string)
    requires t.Node? && AllUnordered(environ, prefix)
    ensures forall s :: s in Settings(environ, prefix) ==>
              Get(SetAll(t, Settings(environ, prefix)), s.path) == Some(Leaf(s.value))
    ensures forall q :: (forall s :: s in Settings(environ, prefix) ==> Unrelated(s.path, q)) ==>
              Get(SetAll(t, Settings(environ, prefix)), q) == Get(t, q)
  {
    var settings := Settings(environ, prefix);
    UnorderedSettings(environ, prefix);
    forall s | s in settings ensures Get(SetAll(t, settings), s.path) == Some(Leaf(s.value)) {
      var i :| 0 <= i < |settings| && settings[i] == s;
      SettingsHavePaths(environ, prefix, i);
      SetAllGet(t, settings, i);
    }
    forall q | forall s :: s in settings ==> Unrelated(s.path, q) ensures Get(SetAll(t, settings), q) == Get(t, q) {
      SetAllElsewhere(t, settings, q);
    }
  }

  /** In any environment the last variable to set a path, or a part of it, decides. */
  lemma LastVariableWins(t: Tree, environ: seq<string>, prefix: string, i: nat)
    requires t.Node? && i < |environ| && Decode(environ[i], prefix).Some?
    requires forall j :: i < j < |environ| && Decode(environ[j], prefix).Some? ==>
               Unrelated(Decode(environ[j], prefix).value.path, Decode(environ[i], prefix).value.path)
    ensures
      var s := Decode(environ[i], prefix).value;
      Get(SetAll(t, Settings(environ, prefix)), s.path) == Some(Leaf(s.value))
  {
    var s := Decode(environ[i], prefix).value;
    var before, after := Settings(environ[..i + 1], prefix), Settings(environ[i + 1..], prefix);
    assert environ == environ[..i + 1] + environ[i + 1..] && environ[..i + 1][..i] == environ[..i];
    SettingsJoin(environ[..i + 1], environ[i + 1..], prefix);
    SetAllJoin(t, before, after);
    assert before[..|before| - 1] == Settings(environ[..i], prefix);
    SetThenGet(SetAll(t, Settings(environ[..i], prefix)), s.path, s.value);
    forall k | 0 <= k < |after| ensures Unrelated(after[k].path, s.path) {
      var j := SettingFrom(environ[i + 1..], prefix, after[k]);
      assert environ[i + 1..][j] == environ[i + 1 + j];
    }
    SetAllElsewhere(SetAll(t, before), after, s.path);
  }

  lemma {:induction false} SettingsHavePaths(environ: seq<string>, prefix: string, i: nat)
    requires i < |Settings(environ, prefix)|
    ensures Settings(environ, prefix)[i].path != []
  {
    var n := |environ| - 1;
    if i < |Settings(environ[..n], prefix)| {
      SettingsHavePaths(environ[..n], prefix, i);
    }
  }

  // ---------------------------------------------------------------------------------------------
  // Load
  // ---------------------------------------------------------------------------------------------

  /** What comes of one path given to Load: an empty path, a file that cannot be read, one that is
      not YAML, or the map in it. */
  datatype File = NoPath | Unreadable | Malformed | Parsed(root: GoMap)

  datatype LoadError = NotRead(i: int) | NotParsed(i: int)

  ghost predicate Fits(f: File, s: Shape)
    reads Objects(s)
  {
    f.Parsed? ==> f.root == s.root && Holds(s)
  }

  ghost function LayersOf(files: seq<File>, shapes: seq<Shape>): (layers: seq<Tree>)
    requires |files| == |shapes|
    ensures forall l :: l in layers ==> l.Node?
  {
    if files == [] then []
    else
      var n := |files| - 1;
      LayersOf(files[..n], shapes[..n]) + if files[n].Parsed? then [Value(shapes[n])] else []
  }

  lemma LayersLast(base: Tree, files: seq<File>, shapes: seq<Shape>, path: seq<string>)
    requires 0 < |files| == |shapes|
    ensures
      var n := |files| - 1;
      var was, now := Layers(base, LayersOf(files[..n], shapes[..n])), Layers(base, LayersOf(files, shapes));
      && (!files[n].Parsed? || Silent(Value(shapes[n]), path) ==> Get(now, path) == Get(was, path))
      && (files[n].Parsed? && LeafAt(Value(shapes[n]), path) ==> Get(now, path) == Get(Value(shapes[n]), path))
  {
    var n := |files| - 1;
    assert files[..|files|] == files && shapes[..|shapes|] == shapes;
    LayersNext(base, files, shapes, n);
    if files[n].Parsed? {
      OverlayGet(Layers(base, LayersOf(files[..n], shapes[..n])), Value(shapes[n]), path);
    }
  }

  /** A leaf of one file hides what the defaults and earlier files say at its path, and is there in
      the end if later files say nothing of that path. */
  lemma {:induction false} LastFileWins(base: Tree, files: seq<File>, shapes: seq<Shape>, i: nat, path: seq<string>)
    requires i < |files| == |shapes| && files[i].Parsed? && LeafAt(Value(shapes[i]), path)
    requires forall j :: i < j < |files| && files[j].Parsed? ==> Silent(Value(shapes[j]), path)
    ensures Get(Layers(base, LayersOf(files, shapes)), path) == Get(Value(shapes[i]), path)
  {
    var n := |files| - 1;
    LayersLast(base, files, shapes, path);
    if i < n {
      LastFileWins(base, files[..n], shapes[..n], i, path);
    }
  }

  /** And what no file binds or blocks is as in the defaults. */
  lemma {:induction false} DefaultsStay(base: Tree, files: seq<File>, shapes: seq<Shape>, path: seq<string>)
    requires |files| == |shapes|
    requires forall j :: 0 <= j < |files| && files[j].Parsed? ==> Silent(Value(shapes[j]), path)
    ensures Get(Layers(base, LayersOf(files, shapes)), path) == Get(base, path)
  {
    if files != [] {
      var n := |files| - 1;
      LayersLast(base, files, shapes, path);
      DefaultsStay(base, files[..n], shapes[..n], path);
    }
  }

  ghost function AllObjects(shapes: seq<Shape>): set<GoMap> {
    set i, o | 0 <= i < |shapes| && o in Objects(shapes[i]) :: o
  }

  predicate Usable(f: File) {
    f.NoPath? || f.Parsed?
  }

  /** The layering in Load: each file over what came before, then the environment. */
  method Load(merged: GoMap, files: seq<File>, environ: seq<string>, ghost defaults: Shape, ghost shapes: seq<Shape>)
    returns (err: Option<LoadError>, ghost r: Shape)
    requires defaults.root == merged && Holds(defaults) && allocated(Objects(defaults))
    requires |files| == |shapes| && allocated(AllObjects(shapes)) && Objects(defaults) !! AllObjects(shapes)
    requires forall i :: 0 <= i < |files| ==> Fits(files[i], shapes[i])
    requires forall i, j :: 0 <= i < j < |shapes| ==> Objects(shapes[i]) !! Objects(shapes[j])
    modifies Objects(defaults), AllObjects(shapes)
    ensures err.None? <==> forall j :: 0 <= j < |files| ==> Usable(files[j])
    ensures forall i :: err == Some(NotRead(i)) ==> 0 <= i < |files| && files[i].Unreadable?
    ensures forall i :: err == Some(NotParsed(i)) ==> 0 <= i < |files| && files[i].Malformed?
    ensures forall j :: err.Some? && 0 <= j < err.value.i ==> Usable(files[j])
    ensures err.None? ==>
      && r.root == merged && Holds(r)
      && Value(r) == SetAll(Layers(Value(defaults), LayersOf(files, shapes)), Settings(environ, "AISPHERE_"))
  {
    err, r := MergeFiles(merged, files, defaults, shapes);
    assert files[..|files|] == files && shapes[..|files|] == shapes;
    match err
    case None => r := ApplyEnv(merged, environ, "AISPHERE_", r);
    case Some(NotRead(i)) => assert !Usable(files[i]);
    case Some(NotParsed(i)) => assert !Usable(files[i]);
  }

  ghost predicate Clear(shapes: seq<Shape>, i: nat, r: Shape) {
    forall j :: i <= j < |shapes| ==> Objects(r) !! Objects(shapes[j])
  }

  lemma StillClear(shapes: seq<Shape>, i: nat, was: Shape, r: Shape)
    requires i < |shapes| && Clear(shapes, i, was) && Objects(r) <= Objects(was) + Objects(shapes[i])
    requires forall i, j :: 0 <= i < j < |shapes| ==> Objects(shapes[i]) !! Objects(shapes[j])
    ensures Clear(shapes, i + 1, r)
  {
    forall j | i < j < |shapes| ensures Objects(r) !! Objects(shapes[j]) {
      assert Objects(was) !! Objects(shapes[j]) && Objects(shapes[i]) !! Objects(shapes[j]);
    }
  }

  /** Trees that hang together with neither side of a merge are not touched by it. */
  method MergeFile(merged: GoMap, current: GoMap, ghost r: Shape, ghost s: Shape, ghost later: set<Shape>)
    returns (ghost n: Shape)
    requires r.root == merged && s.root == current && Holds(r) && Holds(s) && Objects(r) !! Objects(s)
    requires allocated(Objects(r)) && allocated(Objects(s))
    requires forall t :: t in later ==> Objects(r) !! Objects(t) && allocated(Objects(t)) && Holds(t)
    modifies Objects(r)
    ensures n.root == merged && Holds(n) && Objects(n) <= Objects(r) + Objects(s)
    ensures Value(n) == Overlay(Value(r), Value(s))
    ensures forall t :: t in later ==> Holds(t)
  {
    n := MergeMap(merged, current, r, s);
  }

  /** The first i files are merged into `r`, the others are as they were. */
  ghost predicate MergedTo(files: seq<File>, shapes: seq<Shape>, i: nat, defaults: Shape, r: Shape)
    requires i <= |files| == |shapes|
    reads Objects(defaults), AllObjects(shapes)
  {
    && Objects(r) <= Objects(defaults) + AllObjects(shapes) && Holds(r)
    && Clear(shapes, i, r)
    && (forall j :: i <= j < |files| ==> Objects(shapes[j]) <= AllObjects(shapes) && Fits(files[j], shapes[j]))
    && Value(r) == Layers(Value(defaults), LayersOf(files[..i], shapes[..i]))
  }

  method MergeNext(merged: GoMap, files: seq<File>, i: nat, ghost defaults: Shape, ghost shapes: seq<Shape>,
                   ghost r: Shape)
    returns (ghost n: Shape)
    requires i < |files| == |shapes| && MergedTo(files, shapes, i, defaults, r) && r.root == merged
    requires files[i].Parsed? && allocated(Objects(defaults)) && allocated(AllObjects(shapes))
    requires forall i, j :: 0 <= i < j < |shapes| ==> Objects(shapes[i]) !! Objects(shapes[j])
    modifies Objects(defaults), AllObjects(shapes)
    ensures n.root == merged && MergedTo(files, shapes, i + 1, defaults, n)
  {
    ghost var later := set j | i < j < |files| && files[j].Parsed? :: shapes[j];
    n := MergeFile(merged, files[i].root, r, shapes[i], later);
    StillClear(shapes, i, r, n);
    LayersNext(Value(defaults), files, shapes, i);
  }

  lemma NothingToMerge(files: seq<File>, shapes: seq<Shape>, i: nat, defaults: Shape, r: Shape)
    requires i < |files| == |shapes| && MergedTo(files, shapes, i, defaults, r) && files[i].NoPath?
    ensures MergedTo(files, shapes, i + 1, defaults, r)
  {
    LayersNext(Value(defaults), files, shapes, i);
  }

  method MergeFiles(merged: GoMap, files: seq<File>, ghost defaults: Shape, ghost shapes: seq<Shape>)
    returns (err: Option<LoadError>, ghost r: Shape)
    requires defaults.root == merged && Holds(defaults) && allocated(Objects(defaults))
    requires |files| == |shapes| && allocated(AllObjects(shapes)) && Objects(defaults) !! AllObjects(shapes)
    requires forall i :: 0 <= i < |files| ==> Fits(files[i], shapes[i])
    requires forall i, j :: 0 <= i < j < |shapes| ==> Objects(shapes[i]) !! Objects(shapes[j])
    modifies Objects(defaults), AllObjects(shapes)
    ensures err.None? ==> forall j :: 0 <= j < |files| ==> Usable(files[j])
    ensures forall i :: err == Some(NotRead(i)) ==> 0 <= i < |files| && files[i].Unreadable?
    ensures forall i :: err == Some(NotParsed(i)) ==> 0 <= i < |files| && files[i].Malformed?
    ensures forall j :: err.Some? && 0 <= j < err.value.i ==> Usable(files[j])
    ensures err.None? ==> r.root == merged && MergedTo(files, shapes, |files|, defaults, r)
  {
    r := defaults;
    for i := 0 to |files|
      invariant r.root == merged && MergedTo(files, shapes, i, defaults, r)
      invariant forall j :: 0 <= j < i ==> Usable(files[j])
    {
      match files[i]
      case NoPath => NothingToMerge(files, shapes, i, defaults, r);
      case Unreadable => return Some(NotRead(i)), r;
      case Malformed => return Some(NotParsed(i)), r;
      case Parsed(_) => r := MergeNext(merged, files, i, defaults, shapes, r);
    }
    err := None;
  }

  lemma LayersNext(base: Tree, files: seq<File>, shapes: seq<Shape>, i: nat)
    requires |files| == |shapes| && i < |files|
    ensures Layers(base, LayersOf(files[..i + 1], shapes[..i + 1])) ==
      var before := Layers(base, LayersOf(files[..i], shapes[..i]));
      if files[i].Parsed? then Overlay(before, Value(shapes[i])) else before
  {
    var before := LayersOf(files[..i], shapes[..i]);
    assert files[..i + 1][..i] == files[..i] && shapes[..i + 1][..i] == shapes[..i];
    if files[i].Parsed? {
      assert (before + [Value(shapes[i])])[..|before|] == before;
    } else {
      assert before + [] == before;
    }
  }
}
