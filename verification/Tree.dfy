/**
 Configuration as a value: nested string-keyed maps, layered one over the other.

 The maps that config.go merges in place are modelled in Config; this is what they mean.
 */
module Tree {
  import opened Options
  import opened Sequences

  /** Anything that is not a map is a leaf, lists included. */
  datatype Tree = Leaf(value: string) | Node(kids: map<string, Tree>)

  const EMPTY := Node(map[])

  function Overlay(a: Tree, b: Tree): Tree
    decreases b
  {
    if a.Leaf? || b.Leaf? then b
    else
      Node(map k | k in a.kids.Keys + b.kids.Keys ::
             if k !in b.kids then a.kids[k]
             else if k in a.kids then Overlay(a.kids[k], b.kids[k])
             else b.kids[k])
  }

  /** What a path leads to. */
  function Get(t: Tree, path: seq<string>): Option<Tree>
    decreases |path|
  {
    if path == [] then Some(t)
    else if t.Leaf? || path[0] !in t.kids then None
    else Get(t.kids[path[0]], path[1..])
  }

  /** A proper prefix of the path is bound to something that is not a map. */
  predicate Blocked(t: Tree, path: seq<string>)
    decreases |path|
  {
    path != [] && (t.Leaf? || (path[0] in t.kids && Blocked(t.kids[path[0]], path[1..])))
  }

  // ---------------------------------------------------------------------------------------------
  // The algebra of layers
  // ---------------------------------------------------------------------------------------------

  lemma OverlayIdentity(a: Tree)
    requires a.Node?
    ensures Overlay(EMPTY, a) == a && Overlay(a, EMPTY) == a
  {
  }

  lemma {:induction false} OverlaySelf(a: Tree)
    ensures Overlay(a, a) == a
    decreases a
  {
    if a.Node? {
      forall k | k in a.kids ensures Overlay(a.kids[k], a.kids[k]) == a.kids[k] {
        OverlaySelf(a.kids[k]);
      }
    }
  }

  /** Applying a layer twice is applying it once. */
  lemma {:induction false} OverlayIdempotent(a: Tree, b: Tree)
    ensures Overlay(Overlay(a, b), b) == Overlay(a, b)
    decreases b
  {
    if a.Node? && b.Node? {
      var once, twice := Overlay(a, b), Overlay(Overlay(a, b), b);
      assert once.kids.Keys == twice.kids.Keys;
      forall k | k in once.kids ensures once.kids[k] == twice.kids[k] {
        if k in a.kids && k in b.kids {
          OverlayIdempotent(a.kids[k], b.kids[k]);
        } else if k in b.kids {
          OverlaySelf(b.kids[k]);
        }
      }
    } else {
      OverlaySelf(b);
    }
  }

  /** Everything a binds is bound in c, and where c has a map this goes on inside. */
  predicate Covered(a: Tree, c: Tree)
    decreases c
  {
    a.Node? && c.Node? ==> forall k :: k in a.kids ==> k in c.kids && Covered(a.kids[k], c.kids[k])
  }

  lemma {:induction false} OverlayAbsorbs(a: Tree, c: Tree)
    ensures Overlay(a, c) == c <==> Covered(a, c)
    decreases c
  {
    if a.Node? && c.Node? {
      forall k | k in a.kids && k in c.kids
        ensures Overlay(a.kids[k], c.kids[k]) == c.kids[k] <==> Covered(a.kids[k], c.kids[k])
      {
        OverlayAbsorbs(a.kids[k], c.kids[k]);
      }
      if Overlay(a, c) == c {
        forall k | k in a.kids ensures k in c.kids && Covered(a.kids[k], c.kids[k]) {
          assert k in Overlay(a, c).kids;
        }
      }
    }
  }

  /** No path is a leaf in the middle layer and a map in both outer ones, unless the map of the
      last layer covers that of the first. */
  predicate Layered(a: Tree, b: Tree, c: Tree)
    decreases c
  {
    if a.Leaf? || c.Leaf? then true
    else if b.Leaf? then Covered(a, c)
    else forall k :: k in a.kids && k in b.kids && k in c.kids ==> Layered(a.kids[k], b.kids[k], c.kids[k])
  }

  /** Merging layers pairwise first gives the same exactly under that condition. */
  lemma {:induction false} OverlayAssociative(a: Tree, b: Tree, c: Tree)
    ensures Overlay(Overlay(a, b), c) == Overlay(a, Overlay(b, c)) <==> Layered(a, b, c)
    decreases c
  {
    if a.Node? && c.Node? && b.Leaf? {
      OverlayAbsorbs(a, c);
    } else if a.Node? && b.Node? && c.Node? {
      var l, r := Overlay(Overlay(a, b), c), Overlay(a, Overlay(b, c));
      assert l.kids.Keys == r.kids.Keys;
      forall k | k in l.kids ensures l.kids[k] == r.kids[k] <==>
        (k in a.kids && k in b.kids && k in c.kids ==> Layered(a.kids[k], b.kids[k], c.kids[k]))
      {
        if k in a.kids && k in b.kids && k in c.kids {
          OverlayAssociative(a.kids[k], b.kids[k], c.kids[k]);
        }
      }
      if l == r {
        forall k | k in a.kids && k in b.kids && k in c.kids ensures Layered(a.kids[k], b.kids[k], c.kids[k]) {
          assert k in l.kids;
        }
      }
    }
  }

  predicate MapAt(t: Tree, path: seq<string>) {
    Get(t, path).Some? && Get(t, path).value.Node?
  }

  predicate LeafAt(t: Tree, path: seq<string>) {
    Get(t, path).Some? && Get(t, path).value.Leaf?
  }

  /** In particular when no path at all is a leaf in the middle and a map on both sides. */
  lemma {:induction false} NoLeafBetween(a: Tree, b: Tree, c: Tree)
    requires forall p :: !(MapAt(a, p) && LeafAt(b, p) && MapAt(c, p))
    ensures Layered(a, b, c)
    decreases c
  {
    assert !(MapAt(a, []) && LeafAt(b, []) && MapAt(c, []));
    if a.Node? && b.Node? && c.Node? {
      forall k | k in a.kids && k in b.kids && k in c.kids ensures Layered(a.kids[k], b.kids[k], c.kids[k]) {
        forall p ensures !(MapAt(a.kids[k], p) && LeafAt(b.kids[k], p) && MapAt(c.kids[k], p)) {
          assert ([k] + p)[1..] == p;
          assert !(MapAt(a, [k] + p) && LeafAt(b, [k] + p) && MapAt(c, [k] + p));
        }
        NoLeafBetween(a.kids[k], b.kids[k], c.kids[k]);
      }
    }
  }

  /** Every lookup after merging, from the lookups before: a path the new layer leaves unbound and
      does not block keeps its value. */
  lemma {:induction false} OverlayGet(a: Tree, b: Tree, path: seq<string>)
    ensures Get(Overlay(a, b), path) ==
      if Get(b, path).Some? then
        Some(if Get(a, path).Some? then Overlay(Get(a, path).value, Get(b, path).value) else Get(b, path).value)
      else if Blocked(b, path) then None
      else Get(a, path)
    decreases |path|
  {
    if path != [] && a.Node? && b.Node? && path[0] in a.kids && path[0] in b.kids {
      OverlayGet(a.kids[path[0]], b.kids[path[0]], path[1..]);
    }
  }

  /** Layer after layer over a base. */
  function Layers(base: Tree, layers: seq<Tree>): (t: Tree)
    ensures base.Node? && (forall l :: l in layers ==> l.Node?) ==> t.Node?
  {
    if layers == [] then base else Overlay(Layers(base, layers[..|layers| - 1]), layers[|layers| - 1])
  }

  /** The layer says nothing about the path. */
  predicate Silent(t: Tree, path: seq<string>) {
    Get(t, path).None? && !Blocked(t, path)
  }

  /** A path is blocked where a proper prefix of it leads to a leaf. */
  lemma {:induction false} BlockedExactly(t: Tree, path: seq<string>)
    ensures Blocked(t, path) <==> exists n :: 0 <= n < |path| && LeafAt(t, path[..n])
    decreases |path|
  {
    if path != [] && t.Leaf? {
      assert LeafAt(t, path[..0]);
    } else if path != [] {
      var k := path[0];
      forall n | 0 < n < |path| ensures LeafAt(t, path[..n]) <==> k in t.kids && LeafAt(t.kids[k], path[1..][..n - 1]) {
        assert path[..n][0] == k && path[..n][1..] == path[1..][..n - 1];
      }
      if k in t.kids {
        BlockedExactly(t.kids[k], path[1..]);
        if Blocked(t, path) {
          var n :| 0 <= n < |path| - 1 && LeafAt(t.kids[k], path[1..][..n]);
          assert LeafAt(t, path[..n + 1]);
        }
      }
    }
  }

  /** What no layer from the i-th on binds or blocks is as the layers before left it. */
  lemma {:induction false} LayersKeep(base: Tree, layers: seq<Tree>, i: nat, path: seq<string>)
    requires i <= |layers|
    requires forall j :: i <= j < |layers| ==> Silent(layers[j], path)
    ensures Get(Layers(base, layers), path) == Get(Layers(base, layers[..i]), path)
  {
    var n := |layers| - 1;
    if i <= n {
      assert layers[..n][..i] == layers[..i];
      LayersKeep(base, layers[..n], i, path);
      OverlayGet(Layers(base, layers[..n]), layers[n], path);
    } else {
      assert layers[..i] == layers;
    }
  }

  // ---------------------------------------------------------------------------------------------
  // Setting single paths
  // ---------------------------------------------------------------------------------------------

  /** The map under a key, or an empty one. */
  function Below(t: Tree, k: string): (b: Tree)
    requires t.Node?
    ensures b.Node?
  {
    if k in t.kids && t.kids[k].Node? then t.kids[k] else EMPTY
  }

  function SetPath(t: Tree, path: seq<string>, v: string): Tree
    requires t.Node?
    ensures SetPath(t, path, v).Node?
    decreases |path|
  {
    if path == [] then t
    else if |path| == 1 then Node(t.kids[path[0] := Leaf(v)])
    else Node(t.kids[path[0] := SetPath(Below(t, path[0]), path[1..], v)])
  }

  /** Neither path leads to, or through, the other. */
  predicate Unrelated(p: seq<string>, q: seq<string>) {
    !(p <= q) && !(q <= p)
  }

  lemma UnrelatedTails(p: seq<string>, q: seq<string>)
    requires Unrelated(p, q)
    ensures p != [] && q != []
    ensures p[0] == q[0] ==> Unrelated(p[1..], q[1..]) && |p| > 1 && |q| > 1
  {
    if p[0] == q[0] {
      assert p == [p[0]] + p[1..] && q == [q[0]] + q[1..];
    }
  }

  lemma {:induction false} SetThenGet(t: Tree, path: seq<string>, v: string)
    requires t.Node? && path != []
    ensures Get(SetPath(t, path, v), path) == Some(Leaf(v))
    decreases |path|
  {
    if |path| > 1 {
      var next := Below(t, path[0]);
      SetThenGet(next, path[1..], v);
    }
  }

  lemma {:induction false} SetElsewhere(t: Tree, path: seq<string>, v: string, q: seq<string>)
    requires t.Node? && Unrelated(path, q)
    ensures Get(SetPath(t, path, v), q) == Get(t, q)
    decreases |path|
  {
    UnrelatedTails(path, q);
    if path[0] == q[0] {
      var next := Below(t, path[0]);
      SetElsewhere(next, path[1..], v, q[1..]);
    }
  }

  lemma {:induction false} SetsCommute(t: Tree, p: seq<string>, v: string, q: seq<string>, w: string)
    requires t.Node? && Unrelated(p, q)
    ensures SetPath(SetPath(t, p, v), q, w) == SetPath(SetPath(t, q, w), p, v)
    decreases |p|
  {
    UnrelatedTails(p, q);
    if p[0] == q[0] {
      var next := Below(t, p[0]);
      SetsCommute(next, p[1..], v, q[1..], w);
      assert t.kids[p[0] := SetPath(SetPath(next, p[1..], v), q[1..], w)]
          == t.kids[p[0] := SetPath(next, p[1..], v)][p[0] := SetPath(SetPath(next, p[1..], v), q[1..], w)]
          == t.kids[p[0] := SetPath(next, q[1..], w)][p[0] := SetPath(SetPath(next, q[1..], w), p[1..], v)];
    } else {
      var x, y := SetPath(t, p, v).kids[p[0]], SetPath(t, q, w).kids[q[0]];
      assert t.kids[p[0] := x][q[0] := y] == t.kids[q[0] := y][p[0] := x];
    }
  }

  lemma {:induction false} NothingBelowLeaf(t: Tree, p: seq<string>, q: seq<string>)
    requires p < q && LeafAt(t, p)
    ensures Get(t, q) == None
    decreases |p|
  {
    if p != [] {
      assert p[0] == q[0] && p[1..] < q[1..];
      NothingBelowLeaf(t.kids[p[0]], p[1..], q[1..]);
    }
  }

  /** Two settings may be exchanged exactly if neither path leads through the other, or they are the
      same setting. */
  lemma SetsCommuteExactly(t: Tree, p: seq<string>, v: string, q: seq<string>, w: string)
    requires t.Node? && p != [] && q != []
    ensures SetPath(SetPath(t, p, v), q, w) == SetPath(SetPath(t, q, w), p, v)
      <==> Unrelated(p, q) || (p == q && v == w)
  {
    var a, b := SetPath(SetPath(t, p, v), q, w), SetPath(SetPath(t, q, w), p, v);
    SetThenGet(SetPath(t, p, v), q, w);
    SetThenGet(SetPath(t, q, w), p, v);
    if Unrelated(p, q) {
      SetsCommute(t, p, v, q, w);
    } else if p < q {
      NothingBelowLeaf(b, p, q);
    } else if q < p {
      NothingBelowLeaf(a, q, p);
    } else {
      assert p == q;
    }
  }

  // ---------------------------------------------------------------------------------------------
  // Setting many paths
  // ---------------------------------------------------------------------------------------------

  datatype Setting = Setting(path: seq<string>, value: string)

  function SetAll(t: Tree, settings: seq<Setting>): Tree
    requires t.Node?
    ensures SetAll(t, settings).Node?
  {
    if settings == [] then t
    else
      var last := settings[|settings| - 1];
      SetPath(SetAll(t, settings[..|settings| - 1]), last.path, last.value)
  }

  /** Which of the two comes first makes no difference. */
  predicate Exchangeable(a: Setting, b: Setting) {
    Unrelated(a.path, b.path) || a == b
  }

  predicate ExchangeableAt(settings: seq<Setting>, i: nat, j: nat)
    requires i < |settings| && j < |settings|
  {
    Exchangeable(settings[i], settings[j])
  }

  predicate AllExchangeable(settings: seq<Setting>) {
    forall i, j :: 0 <= i < j < |settings| ==> ExchangeableAt(settings, i, j)
  }

  lemma WithoutExchangeable(a: seq<Setting>, i: nat)
    requires i < |a| && AllExchangeable(a)
    ensures AllExchangeable(Without(a, i))
  {
    var rest := Without(a, i);
    forall p, q | 0 <= p < q < |rest| ensures ExchangeableAt(rest, p, q) {
      var pa, qa := if p < i then p else p + 1, if q < i then q else q + 1;
      assert ExchangeableAt(a, pa, qa);
      assert rest[p] == a[pa] && rest[q] == a[qa];
    }
  }

  lemma PrefixExchangeable(a: seq<Setting>, n: nat)
    requires n <= |a| && AllExchangeable(a)
    ensures AllExchangeable(a[..n])
  {
    forall i, j | 0 <= i < j < n ensures ExchangeableAt(a[..n], i, j) {
      assert ExchangeableAt(a, i, j);
    }
  }

  /** A setting may as well come last. */
  lemma {:induction false} SetLast(t: Tree, settings: seq<Setting>, i: nat)
    requires t.Node? && i < |settings| && AllExchangeable(settings)
    ensures SetAll(t, settings) == SetPath(SetAll(t, Without(settings, i)), settings[i].path, settings[i].value)
    decreases |settings|
  {
    var n := |settings| - 1;
    if i == n {
      assert Without(settings, i) == settings[..n];
    } else {
      PrefixExchangeable(settings, n);
      SetLast(t, settings[..n], i);
      var rest := Without(settings, i);
      assert rest[..n - 1] == Without(settings[..n], i);
      assert rest[n - 1] == settings[n];
      assert ExchangeableAt(settings, i, n);
      if settings[i] != settings[n] {
        SetsCommute(SetAll(t, rest[..n - 1]), settings[i].path, settings[i].value, settings[n].path, settings[n].value);
      }
    }
  }

  /** Exchangeable settings may be applied in any order. */
  lemma {:induction false} SetAllPermuted(t: Tree, a: seq<Setting>, b: seq<Setting>)
    requires t.Node? && AllExchangeable(a) && multiset(a) == multiset(b)
    ensures SetAll(t, a) == SetAll(t, b)
    decreases |a|
  {
    assert |a| == |multiset(a)| == |multiset(b)| == |b|;
    if b != [] {
      var n := |b| - 1;
      assert b == b[..n] + [b[n]];
      assert b[n] in multiset(a);
      var i :| 0 <= i < |a| && a[i] == b[n];
      var rest := Without(a, i);
      WithoutOne(a, i);
      WithoutExchangeable(a, i);
      assert multiset(rest) == multiset(b[..n]);
      SetLast(t, a, i);
      SetAllPermuted(t, rest, b[..n]);
    }
  }

  /** Each path reads back its value. */
  lemma SetAllGet(t: Tree, settings: seq<Setting>, i: nat)
    requires t.Node? && i < |settings| && AllExchangeable(settings) && settings[i].path != []
    ensures Get(SetAll(t, settings), settings[i].path) == Some(Leaf(settings[i].value))
  {
    SetLast(t, settings, i);
    SetThenGet(SetAll(t, Without(settings, i)), settings[i].path, settings[i].value);
  }

  /** A path unrelated to all of them is not changed. */
  lemma {:induction false} SetAllElsewhere(t: Tree, settings: seq<Setting>, q: seq<string>)
    requires t.Node? && forall i :: 0 <= i < |settings| ==> Unrelated(settings[i].path, q)
    ensures Get(SetAll(t, settings), q) == Get(t, q)
  {
    if settings != [] {
      var n := |settings| - 1;
      SetAllElsewhere(t, settings[..n], q);
      SetElsewhere(SetAll(t, settings[..n]), settings[n].path, settings[n].value, q);
    }
  }
}
