/** The Barnes-Hut quadtree of `src/Two/QuadTree.java`, as an arena: the nodes of one tree
    live in a sequence and refer to their four children by index, and the mass summary of
    node `k` is entry `k` of a parallel sequence. A leaf holds at most `capacity` particles; a
    full leaf splits into four half-size quadrants and pushes its particles down. A bottom-up
    pass stores each node's total mass and centre of mass, and a traversal adds the
    approximate gravitational force of the tree to one particle. */
module QuadTrees {
  import opened Numerics
  import opened Geometry
  import opened Particles

  /** The structure of one node: its region, its capacity, the particles of a leaf, whether it
      is divided, and the arena indices of its children (meaningful once it is divided). */
  datatype Node = Node(boundary: Rect, capacity: int32, particles: seq<Particle>, divided: bool,
                       northWest: nat, northEast: nat, southWest: nat, southEast: nat)

  /** The mass summary of one node. */
  datatype Summary = Summary(totalMass: real, centerOfMassX: real, centerOfMassY: real)

  /** A fresh node: no particles and not divided. */
  function Empty(boundary: Rect, capacity: int32): Node
  {
    Node(boundary, capacity, [], false, 0, 0, 0, 0)
  }

  /** The summary of a fresh node: zero mass at the origin. */
  const Zero := Summary(0.0, 0.0, 0.0)

  /** A leaf with room for one more particle. */
  predicate HasRoom(n: Node)
  {
    !n.divided && |n.particles| < n.capacity
  }

  /** Node `i` is divided and its four children come after it in the arena. */
  predicate Linked(nodes: seq<Node>, i: nat)
    requires i < |nodes|
  {
    var n := nodes[i];
    n.divided && i < n.northWest < |nodes| && i < n.northEast < |nodes| &&
    i < n.southWest < |nodes| && i < n.southEast < |nodes|
  }

  /** The shape of node `k`: a leaf holds at most `capacity` particles; a divided node holds
      none itself and its children, which come after it, are the four quadrants of its region
      with its capacity. */
  predicate Local(nodes: seq<Node>, k: nat)
    requires k < |nodes|
  {
    var n := nodes[k];
    1 <= n.capacity &&
    (!n.divided ==> |n.particles| <= n.capacity) &&
    (n.divided ==>
      Linked(nodes, k) && n.particles == [] &&
      nodes[n.northWest].boundary == NorthWest(n.boundary) &&
      nodes[n.northEast].boundary == NorthEast(n.boundary) &&
      nodes[n.southWest].boundary == SouthWest(n.boundary) &&
      nodes[n.southEast].boundary == SouthEast(n.boundary) &&
      nodes[n.northWest].capacity == n.capacity && nodes[n.northEast].capacity == n.capacity &&
      nodes[n.southWest].capacity == n.capacity && nodes[n.southEast].capacity == n.capacity)
  }

  /** Every node from index `k` on is well shaped. */
  predicate StructuredFrom(nodes: seq<Node>, k: nat)
    decreases |nodes| - k
  {
    k >= |nodes| || (Local(nodes, k) && StructuredFrom(nodes, k + 1))
  }

  /** Every node of the arena is well shaped. */
  predicate Structured(nodes: seq<Node>)
  {
    StructuredFrom(nodes, 0)
  }

  /** Node `k`, once divided, is longer than `delta`. */
  ghost predicate Wide(nodes: seq<Node>, k: nat, delta: real)
    requires k < |nodes|
  {
    nodes[k].divided ==> Size(nodes[k].boundary) > delta
  }

  ghost predicate SeparatedFrom(nodes: seq<Node>, k: nat, delta: real)
    decreases |nodes| - k
  {
    k >= |nodes| || (Wide(nodes, k, delta) && SeparatedFrom(nodes, k + 1, delta))
  }

  /** Every divided node is longer than `delta`: the proof device that bounds the depth of the
      tree when stored particles are `delta` apart. */
  ghost predicate Separated(nodes: seq<Node>, delta: real)
  {
    SeparatedFrom(nodes, 0, delta)
  }

  /** An arena `b` that grew from `a`: the old nodes keep their region and capacity, and a
      divided node stays divided. */
  predicate Grown(a: seq<Node>, b: seq<Node>)
  {
    |a| <= |b| &&
    forall k :: 0 <= k < |a| ==>
      b[k].boundary == a[k].boundary && b[k].capacity == a[k].capacity &&
      (a[k].divided ==> b[k].divided)
  }

  /** The particles held by the nodes of the arena, counted with multiplicity. */
  function Held(nodes: seq<Node>): multiset<Particle>
  {
    HeldFrom(nodes, 0)
  }

  /** The particles held by the nodes from index `k` on. */
  function HeldFrom(nodes: seq<Node>, k: nat): multiset<Particle>
    decreases |nodes| - k
  {
    if k >= |nodes| then multiset{} else multiset(nodes[k].particles) + HeldFrom(nodes, k + 1)
  }

  /** Every particle held by some node of the arena. */
  function Stored(nodes: seq<Node>): set<Particle>
  {
    set k, q | 0 <= k < |nodes| && q in nodes[k].particles :: q
  }

  /** Every particle node `k` holds lies inside the node's region. */
  ghost predicate Inside(nodes: seq<Node>, k: nat)
    requires k < |nodes|
    reads Stored(nodes)
  {
    forall q :: q in nodes[k].particles ==> Contains(nodes[k].boundary, q.x, q.y)
  }

  /** Every particle a node holds lies inside the node's region. */
  ghost predicate Placed(nodes: seq<Node>)
    reads Stored(nodes)
  {
    forall k, q :: 0 <= k < |nodes| && q in nodes[k].particles ==> Contains(nodes[k].boundary, q.x, q.y)
  }

  // The arena invariants hold at each node, and hold when they hold at each node.

  lemma {:induction false} StructuredFromAt(nodes: seq<Node>, i: nat, k: nat)
    requires StructuredFrom(nodes, i) && i <= k < |nodes|
    ensures Local(nodes, k)
    decreases k - i
  {
    if i < k {
      StructuredFromAt(nodes, i + 1, k);
    }
  }

  lemma StructuredAt(nodes: seq<Node>, k: nat)
    requires Structured(nodes) && k < |nodes|
    ensures Local(nodes, k)
  {
    StructuredFromAt(nodes, 0, k);
  }

  lemma {:induction false} StructuredFromAll(nodes: seq<Node>, i: nat)
    requires forall k :: i <= k < |nodes| ==> Local(nodes, k)
    ensures StructuredFrom(nodes, i)
    decreases |nodes| - i
  {
    if i < |nodes| {
      StructuredFromAll(nodes, i + 1);
    }
  }

  lemma {:induction false} SeparatedFromAt(nodes: seq<Node>, i: nat, k: nat, delta: real)
    requires SeparatedFrom(nodes, i, delta) && i <= k < |nodes|
    ensures Wide(nodes, k, delta)
    decreases k - i
  {
    if i < k {
      SeparatedFromAt(nodes, i + 1, k, delta);
    }
  }

  lemma {:induction false} SeparatedFromAll(nodes: seq<Node>, i: nat, delta: real)
    requires forall k :: i <= k < |nodes| ==> Wide(nodes, k, delta)
    ensures SeparatedFrom(nodes, i, delta)
    decreases |nodes| - i
  {
    if i < |nodes| {
      SeparatedFromAll(nodes, i + 1, delta);
    }
  }

  /** The three arena invariants at node `k`. */
  lemma ValidAt(nodes: seq<Node>, k: nat, delta: real)
    requires Structured(nodes) && Separated(nodes, delta) && Placed(nodes) && k < |nodes|
    ensures Local(nodes, k) && Wide(nodes, k, delta) && Inside(nodes, k)
  {
    StructuredFromAt(nodes, 0, k);
    SeparatedFromAt(nodes, 0, k, delta);
    assert Inside(nodes, k);
  }

  /** The three arena invariants from their instances at every node. */
  lemma ValidAll(nodes: seq<Node>, delta: real)
    requires forall k :: 0 <= k < |nodes| ==> Local(nodes, k) && Wide(nodes, k, delta) && Inside(nodes, k)
    ensures Structured(nodes) && Separated(nodes, delta) && Placed(nodes)
  {
    StructuredFromAll(nodes, 0);
    SeparatedFromAll(nodes, 0, delta);
    assert Placed(nodes) by {
      forall k, q | 0 <= k < |nodes| && q in nodes[k].particles
        ensures Contains(nodes[k].boundary, q.x, q.y)
      {
        assert Inside(nodes, k);
      }
    }
  }

  /** The one-node arena of a new tree keeps the arena invariants and holds nothing. */
  lemma Seeded(r: Rect, capacity: int32, delta: real)
    requires capacity >= 1
    ensures var a := [Empty(r, capacity)];
      Structured(a) && Separated(a, delta) && Placed(a) && Held(a) == multiset{}
  {
    var a := [Empty(r, capacity)];
    assert Local(a, 0) && Wide(a, 0, delta) && Inside(a, 0);
    ValidAll(a, delta);
    assert HeldFrom(a, 1) == multiset{};
  }

  /** `p` is at least `delta` away, on some axis, from every particle the arena holds. */
  ghost predicate Apart(p: Particle, nodes: seq<Node>, delta: real)
    reads p, Stored(nodes)
  {
    forall k, q :: 0 <= k < |nodes| && q in nodes[k].particles ==> Gap(p.x, p.y, q.x, q.y) >= delta
  }

  lemma Cancel<T>(a: multiset<T>, b: multiset<T>, m: multiset<T>)
    requires a + m == b + m
    ensures a == b
  {
    forall x
      ensures a[x] == b[x]
    {
      assert (a + m)[x] == (b + m)[x];
    }
  }

  lemma Swapped<T>(x: multiset<T>, y: multiset<T>, a: multiset<T>)
    ensures x + a + y == y + a + x
  {
    forall e
      ensures (x + a + y)[e] == (y + a + x)[e]
    {
    }
  }

  lemma Shuffle<T>(m: multiset<T>, a: multiset<T>, b: multiset<T>, c: multiset<T>, d: multiset<T>)
    requires a + c == b + d
    ensures m + a + c == m + b + d
  {
    forall x
      ensures (m + a + c)[x] == (m + b + d)[x]
    {
      assert (a + c)[x] == (b + d)[x];
    }
  }

  /** Arenas that agree from index `k` on hold the same particles from there. */
  lemma {:induction false} HeldFromSame(s: seq<Node>, t: seq<Node>, k: nat)
    requires |s| == |t| && forall i :: k <= i < |s| ==> s[i] == t[i]
    ensures HeldFrom(s, k) == HeldFrom(t, k)
    decreases |s| - k
  {
    if k < |s| {
      HeldFromSame(s, t, k + 1);
    }
  }

  /** Arenas that differ only at node `j`: from `k` on, they hold particles that differ by the
      trade of that node's particles. */
  lemma {:induction false} HeldFromUpdate(s: seq<Node>, t: seq<Node>, j: nat, k: nat)
    requires k <= j < |s| == |t|
    requires forall i :: k <= i < |s| && i != j ==> t[i] == s[i]
    ensures HeldFrom(t, k) + multiset(s[j].particles) == HeldFrom(s, k) + multiset(t[j].particles)
    decreases j - k
  {
    var mj, mv := multiset(s[j].particles), multiset(t[j].particles);
    if k == j {
      HeldFromSame(t, s, j + 1);
      Swapped(mv, mj, HeldFrom(s, j + 1));
    } else {
      HeldFromUpdate(s, t, j, k + 1);
      Shuffle(multiset(s[k].particles), HeldFrom(t, k + 1), HeldFrom(s, k + 1), mj, mv);
    }
  }

  /** Replacing node `j` trades its particles for the new node's. */
  lemma HeldUpdate(s: seq<Node>, j: nat, v: Node)
    requires j < |s|
    ensures Held(s[j := v]) + multiset(s[j].particles) == Held(s) + multiset(v.particles)
  {
    HeldFromUpdate(s, s[j := v], j, 0);
  }

  /** Node `j` replaced by `v` with the same particles: the particles held do not change. */
  lemma HeldKeep(s: seq<Node>, j: nat, v: Node)
    requires j < |s| && v.particles == s[j].particles
    ensures Held(s[j := v]) == Held(s)
  {
    HeldUpdate(s, j, v);
    Cancel(Held(s[j := v]), Held(s), multiset(v.particles));
  }

  /** Nodes without particles from index `k` on hold nothing there. */
  lemma {:induction false} HeldFromEmpty(s: seq<Node>, k: nat)
    requires forall i :: k <= i < |s| ==> s[i].particles == []
    ensures HeldFrom(s, k) == multiset{}
    decreases |s| - k
  {
    if k < |s| {
      HeldFromEmpty(s, k + 1);
    }
  }

  /** Appending nodes without particles adds nothing to what is held. */
  lemma {:induction false} HeldFromTail(a: seq<Node>, leaves: seq<Node>, k: nat)
    requires k <= |a| && forall i :: 0 <= i < |leaves| ==> leaves[i].particles == []
    ensures HeldFrom(a + leaves, k) == HeldFrom(a, k)
    decreases |a| - k
  {
    if k == |a| {
      HeldFromEmpty(a + leaves, k);
    } else {
      HeldFromTail(a, leaves, k + 1);
    }
  }

  lemma {:induction false} HeldFromMember(s: seq<Node>, i: nat, k: nat, q: Particle)
    requires i <= k < |s| && q in s[k].particles
    ensures q in HeldFrom(s, i)
    decreases k - i
  {
    if i < k {
      HeldFromMember(s, i + 1, k, q);
    }
  }

  /** A particle of some node is held by the arena. */
  lemma HeldMember(s: seq<Node>, k: nat, q: Particle)
    requires k < |s| && q in s[k].particles
    ensures q in Held(s)
  {
    HeldFromMember(s, 0, k, q);
  }

  lemma {:induction false} HeldFromOwner(s: seq<Node>, i: nat, q: Particle) returns (k: nat)
    requires q in HeldFrom(s, i)
    ensures i <= k < |s| && q in s[k].particles
    decreases |s| - i
  {
    if q in multiset(s[i].particles) {
      k := i;
    } else {
      k := HeldFromOwner(s, i + 1, q);
    }
  }

  /** Being apart from the particles an arena holds depends only on which particles it holds. */
  lemma ApartKept(p: Particle, a: seq<Node>, b: seq<Node>, delta: real)
    requires Held(b) <= Held(a) && Apart(p, a, delta)
    ensures Apart(p, b, delta)
  {
    forall k, q | 0 <= k < |b| && q in b[k].particles
      ensures Gap(p.x, p.y, q.x, q.y) >= delta
    {
      HeldMember(b, k, q);
      var j := HeldFromOwner(a, 0, q);
    }
  }

  /** Changing the particles or links of a leaf, keeping it a leaf within its capacity and its
      particles inside its region, keeps the arena invariants and grows the arena. */
  lemma Retouched(nodes: seq<Node>, n: nat, v: Node, delta: real)
    requires n < |nodes| && Structured(nodes) && Separated(nodes, delta) && Placed(nodes)
    requires v.boundary == nodes[n].boundary && v.capacity == nodes[n].capacity
    requires !nodes[n].divided && !v.divided && |v.particles| <= v.capacity
    requires forall q :: q in v.particles ==> Contains(v.boundary, q.x, q.y)
    ensures Structured(nodes[n := v]) && Separated(nodes[n := v], delta) && Placed(nodes[n := v])
    ensures Grown(nodes, nodes[n := v])
  {
    var b := nodes[n := v];
    forall k | 0 <= k < |b|
      ensures Local(b, k) && Wide(b, k, delta) && Inside(b, k)
    {
      ValidAt(nodes, k, delta);
    }
    ValidAll(b, delta);
  }

  /** A leaf with room that takes one more particle of its region. */
  lemma LeafGrown(nodes: seq<Node>, n: nat, p: Particle, delta: real)
    requires n < |nodes| && Structured(nodes) && Separated(nodes, delta) && Placed(nodes)
    requires HasRoom(nodes[n]) && Contains(nodes[n].boundary, p.x, p.y)
    ensures var b := nodes[n := nodes[n].(particles := nodes[n].particles + [p])];
      Structured(b) && Separated(b, delta) && Placed(b) && Grown(nodes, b) &&
      Held(b) == Held(nodes) + multiset{p}
  {
    var v := nodes[n].(particles := nodes[n].particles + [p]);
    ValidAt(nodes, n, delta);
    assert forall q :: q in v.particles ==> q in nodes[n].particles || q == p;
    Retouched(nodes, n, v, delta);
    HeldUpdate(nodes, n, v);
    var m := multiset(nodes[n].particles);
    assert multiset(v.particles) == m + multiset{p};
    assert Held(nodes[n := v]) + m == (Held(nodes) + multiset{p}) + m;
    Cancel(Held(nodes[n := v]), Held(nodes) + multiset{p}, m);
  }

  /** The four empty quadrants of a region, in the order `subdivide` creates them. */
  function Sprouts(r: Rect, capacity: int32): seq<Node>
  {
    [Empty(NorthWest(r), capacity), Empty(NorthEast(r), capacity),
     Empty(SouthWest(r), capacity), Empty(SouthEast(r), capacity)]
  }

  /** Node `n` of `nodes` linked to four new nodes at the end of the arena. */
  function Linked4(nodes: seq<Node>, n: nat): Node
    requires n < |nodes|
  {
    var first := |nodes|;
    nodes[n].(northWest := first, northEast := first + 1, southWest := first + 2, southEast := first + 3)
  }

  /** Leaf `n` linked to its four empty quadrants appended to the arena: the arena
      invariants hold, the particles held do not change, and the new nodes quarter the leaf's
      region. */
  lemma Sprouted(nodes: seq<Node>, a: seq<Node>, n: nat, delta: real)
    requires n < |nodes| && Structured(nodes) && Separated(nodes, delta) && Placed(nodes)
    requires !nodes[n].divided
    requires a == nodes[n := Linked4(nodes, n)] + Sprouts(nodes[n].boundary, nodes[n].capacity)
    ensures Structured(a) && Separated(a, delta) && Placed(a) && Held(a) == Held(nodes)
    ensures |a| == |nodes| + 4 && a[..|nodes|] == nodes[n := Linked4(nodes, n)]
    ensures Quartered(a, |nodes|, nodes[n].boundary, nodes[n].capacity) && Filled(a, |nodes|) == 0
  {
    var linked := Linked4(nodes, n);
    var leaves := Sprouts(nodes[n].boundary, nodes[n].capacity);
    ValidAt(nodes, n, delta);
    Retouched(nodes, n, linked, delta);
    HeldKeep(nodes, n, linked);
    var p := nodes[n := linked];
    forall k | 0 <= k < |a|
      ensures Local(a, k) && Wide(a, k, delta) && Inside(a, k)
    {
      if k < |p| {
        ValidAt(p, k, delta);
      }
    }
    ValidAll(a, delta);
    HeldFromTail(p, leaves, 0);
    PrefixOfAppend(p, leaves);
  }

  /** A leaf whose four quadrants follow it in the arena becomes divided and gives up its
      particles; the arena invariants hold again, and the particles it held leave the arena's
      count. */
  lemma Divided(nodes: seq<Node>, n: nat, first: nat, delta: real, held: multiset<Particle>)
    requires n < first && first + 4 <= |nodes|
    requires Structured(nodes) && Separated(nodes, delta) && Placed(nodes)
    requires Held(nodes) == held + multiset(nodes[n].particles)
    requires !nodes[n].divided && Size(nodes[n].boundary) > delta
    requires nodes[n].northWest == first && nodes[n].northEast == first + 1
    requires nodes[n].southWest == first + 2 && nodes[n].southEast == first + 3
    requires Quartered(nodes, first, nodes[n].boundary, nodes[n].capacity)
    ensures var b := nodes[n := nodes[n].(divided := true, particles := [])];
      Structured(b) && Separated(b, delta) && Placed(b) && Grown(nodes, b) &&
      Held(b) == held
  {
    var v := nodes[n].(divided := true, particles := []);
    var b := nodes[n := v];
    forall k | 0 <= k < |b|
      ensures Local(b, k) && Wide(b, k, delta) && Inside(b, k)
    {
      ValidAt(nodes, k, delta);
    }
    ValidAll(b, delta);
    HeldUpdate(nodes, n, v);
    var m := multiset(nodes[n].particles);
    assert Held(b) + m == held + m;
    Cancel(Held(b), held, m);
  }

  /** The multiset of a prefix grows by the next element. */
  lemma PrefixStep<T>(s: seq<T>, i: nat)
    requires i < |s|
    ensures multiset(s[..i + 1]) == multiset(s[..i]) + multiset{s[i]}
  {
    assert s[..i + 1] == s[..i] + [s[i]];
  }

  /** Updating an arena beyond its first `m` nodes leaves that prefix alone, and updating it
      inside the prefix updates the prefix. */
  lemma PrefixUpdate(s: seq<Node>, j: nat, v: Node, m: nat)
    requires j < |s| && m <= |s|
    ensures j >= m ==> s[j := v][..m] == s[..m]
    ensures j < m ==> s[j := v][..m] == s[..m][j := v]
  {
  }

  /** Appending to an arena keeps it as the prefix. */
  lemma PrefixOfAppend(a: seq<Node>, b: seq<Node>)
    ensures (a + b)[..|a|] == a
  {
  }

  /** A second update of the same node overrides the first. */
  lemma UpdateTwice(s: seq<Node>, n: nat, v: Node, w: Node)
    requires n < |s|
    ensures s[n := v][n := w] == s[n := w]
  {
  }

  /** A leaf over region `b` with the given capacity: one of the quadrants `subdivide` fills. */
  predicate Sprout(v: Node, b: Rect, capacity: int32)
  {
    !v.divided && v.boundary == b && v.capacity == capacity
  }

  /** Nodes `first` to `first + 3` are leaves over the four quadrants of `r`. */
  predicate Quartered(nodes: seq<Node>, first: nat, r: Rect, capacity: int32)
    requires first + 4 <= |nodes|
  {
    Sprout(nodes[first], NorthWest(r), capacity) && Sprout(nodes[first + 1], NorthEast(r), capacity) &&
    Sprout(nodes[first + 2], SouthWest(r), capacity) && Sprout(nodes[first + 3], SouthEast(r), capacity)
  }

  /** How many particles nodes `first` to `first + 3` hold together. */
  function Filled(nodes: seq<Node>, first: nat): nat
    requires first + 4 <= |nodes|
  {
    |nodes[first].particles| + |nodes[first + 1].particles| +
    |nodes[first + 2].particles| + |nodes[first + 3].particles|
  }

  /** One particle more in one of four quartering leaves at the end of an arena: the prefix
      before them is kept, they still quarter `r`, and together they hold one particle more. */
  lemma Refilled(a: seq<Node>, j: nat, p: Particle, first: nat, r: Rect, capacity: int32)
    requires first + 4 == |a| && first <= j < first + 4 && Quartered(a, first, r, capacity)
    ensures var b := a[j := a[j].(particles := a[j].particles + [p])];
      b[..first] == a[..first] && Quartered(b, first, r, capacity) &&
      Filled(b, first) == Filled(a, first) + 1
  {
  }

  /** The particles held grow by one more particle of `ps` in order. */
  lemma HeldStep(h0: multiset<Particle>, h1: multiset<Particle>, held: multiset<Particle>,
                 ps: seq<Particle>, i: nat)
    requires i < |ps| && h0 == held + multiset(ps[..i]) && h1 == h0 + multiset{ps[i]}
    ensures h1 == held + multiset(ps[..i + 1])
  {
    PrefixStep(ps, i);
    assert h1 == held + (multiset(ps[..i]) + multiset{ps[i]});
  }

  /** Once its particles are moved to the four quadrants appended to `nodes`, the linked
      leaf `n` becomes divided and empty: the arena invariants hold and the arena holds the
      particles it held before the split. */
  lemma Subdivided(nodes: seq<Node>, a: seq<Node>, n: nat, delta: real)
    requires n < |nodes| && |a| == |nodes| + 4 && a[..|nodes|] == nodes[n := Linked4(nodes, n)]
    requires Structured(a) && Separated(a, delta) && Placed(a)
    requires Quartered(a, |nodes|, nodes[n].boundary, nodes[n].capacity)
    requires Held(a) == Held(nodes) + multiset(nodes[n].particles)
    requires !nodes[n].divided && Size(nodes[n].boundary) > delta
    ensures var b := a[n := a[n].(divided := true, particles := [])];
      Structured(b) && Separated(b, delta) && Placed(b) && Held(b) == Held(nodes) &&
      b[..|nodes|] == nodes[n := Linked4(nodes, n).(particles := [], divided := true)]
  {
    assert a[n] == a[..|nodes|][n];
    Divided(a, n, |nodes|, delta, Held(nodes));
    PrefixUpdate(a, n, a[n].(divided := true, particles := []), |nodes|);
    UpdateTwice(nodes, n, Linked4(nodes, n), Linked4(nodes, n).(particles := [], divided := true));
  }

  /** An arena whose first nodes are those of `a`, with node `n` changed in its particles,
      links and divided flag only, grew from `a`. */
  lemma GrownFromPrefix(a: seq<Node>, b: seq<Node>, n: nat, v: Node)
    requires n < |a| <= |b| && b[..|a|] == a[n := v]
    requires v.boundary == a[n].boundary && v.capacity == a[n].capacity && v.divided
    ensures Grown(a, b)
  {
    forall k | 0 <= k < |a|
      ensures b[k] == b[..|a|][k]
    {
    }
  }

  // The shape of the arena. Every subdivision appends one block of four nodes, so node 0 is
  // the root and block `b` is made of nodes `4 * b + 1` to `4 * b + 4`. The ghost sequence
  // `owners` names, for each block, the node whose subdivision created it.

  /** Nodes `first` to `first + 3` are the children of `v`, in the order NW, NE, SW, SE. */
  predicate Kids(v: Node, first: nat)
  {
    v.northWest == first && v.northEast == first + 1 && v.southWest == first + 2 && v.southEast == first + 3
  }

  /** The children of node `k` form a block that node `k` created. */
  predicate Owns(nodes: seq<Node>, owners: seq<nat>, k: nat)
    requires k < |nodes|
  {
    var f := nodes[k].northWest;
    1 <= f && (f - 1) / 4 < |owners| && owners[(f - 1) / 4] == k
  }

  /** The arena is a tree grown block by block: block `b` holds the children of the node
      that created it, which comes before the block, and every divided node created the
      block of its children. */
  ghost predicate Shaped(nodes: seq<Node>, owners: seq<nat>)
  {
    |nodes| == 4 * |owners| + 1 &&
    (forall b :: 0 <= b < |owners| ==> owners[b] <= 4 * b && Kids(nodes[owners[b]], 4 * b + 1)) &&
    (forall k {:trigger Owns(nodes, owners, k)} :: 0 <= k < |nodes| && nodes[k].divided ==> Owns(nodes, owners, k))
  }

  /** Every node from index `n` on that created a block is divided: none of them is still in
      the middle of its subdivision. */
  ghost predicate Settled(nodes: seq<Node>, owners: seq<nat>, n: nat)
  {
    forall b :: 0 <= b < |owners| && n <= owners[b] < |nodes| ==> nodes[owners[b]].divided
  }

  /** The arena `b` with creators `ob` grew from `a` with creators `oa`: the old blocks keep
      their creators, and the creators of the new blocks are divided. */
  ghost predicate Extended(a: seq<Node>, oa: seq<nat>, b: seq<Node>, ob: seq<nat>)
  {
    Grown(a, b) && |oa| <= |ob| && (forall j :: 0 <= j < |oa| ==> ob[j] == oa[j]) &&
    forall j :: |oa| <= j < |ob| ==> ob[j] < |b| && b[ob[j]].divided
  }

  /** Between the arena `(a, sa)` and the arena `(b, sb)` an insertion of a particle at
      `(x, y)` changed nothing else: the old summaries stay, the summaries of new nodes are
      `Zero`, and every old node whose region does not contain the point is unchanged. */
  ghost predicate Untouched(a: seq<Node>, sa: seq<Summary>, b: seq<Node>, sb: seq<Summary>, x: real, y: real)
  {
    |a| <= |b| && |sa| <= |sb| && sb[..|sa|] == sa && (forall k :: |sa| <= k < |sb| ==> sb[k] == Zero) &&
    forall k :: 0 <= k < |a| && !Contains(a[k].boundary, x, y) ==> b[k] == a[k]
  }

  /** No divided node holds particles itself. */
  ghost predicate Bare(nodes: seq<Node>)
  {
    forall k :: 0 <= k < |nodes| && nodes[k].divided ==> nodes[k].particles == []
  }

  /** The particles of the subtree below node `i`, leaf by leaf in the order NW, NE, SW, SE:
      what `calculateMass` and `calculateForce` reach from node `i`. */
  function Below(nodes: seq<Node>, i: nat): seq<Particle>
    requires i < |nodes|
    decreases |nodes| - i
  {
    var n := nodes[i];
    if Linked(nodes, i) then
      Below(nodes, n.northWest) + Below(nodes, n.northEast) + Below(nodes, n.southWest) + Below(nodes, n.southEast)
    else n.particles
  }

  /** The tree of one node is shaped, and its only node is not the creator of any block. */
  lemma {:induction false} SeededShape(r: Rect, capacity: int32)
    ensures Shaped([Empty(r, capacity)], []) && Settled([Empty(r, capacity)], [], 0)
  {
  }

  /** A well-shaped arena has no divided node holding particles. */
  lemma {:induction false} StructuredBare(nodes: seq<Node>)
    requires Structured(nodes)
    ensures Bare(nodes)
  {
    forall k | 0 <= k < |nodes| && nodes[k].divided
      ensures nodes[k].particles == []
    {
      StructuredAt(nodes, k);
    }
  }

  /** Two nodes with the same divided flag and the same child links. */
  predicate SameLinks(u: Node, v: Node)
  {
    u.divided == v.divided && u.northWest == v.northWest && u.northEast == v.northEast &&
    u.southWest == v.southWest && u.southEast == v.southEast
  }

  /** Changing what the nodes hold, but not their flags and links, keeps the shape. */
  lemma {:induction false} ShapeKept(a: seq<Node>, b: seq<Node>, owners: seq<nat>)
    requires Shaped(a, owners) && |a| == |b|
    requires forall k :: 0 <= k < |a| ==> SameLinks(a[k], b[k])
    ensures Shaped(b, owners)
  {
    forall k | 0 <= k < |b| && b[k].divided
      ensures Owns(b, owners, k)
    {
      assert SameLinks(a[k], b[k]) && Owns(a, owners, k);
    }
    forall j | 0 <= j < |owners|
      ensures Kids(b[owners[j]], 4 * j + 1)
    {
      assert SameLinks(a[owners[j]], b[owners[j]]);
    }
  }

  /** Growth composes. */
  lemma {:induction false} ExtendedTrans(a: seq<Node>, oa: seq<nat>, b: seq<Node>, ob: seq<nat>,
                                         c: seq<Node>, oc: seq<nat>)
    requires Extended(a, oa, b, ob) && Extended(b, ob, c, oc)
    ensures Extended(a, oa, c, oc)
  {
    forall j | |oa| <= j < |oc|
      ensures oc[j] < |c| && c[oc[j]].divided
    {
      if j < |ob| {
        assert oc[j] == ob[j] && b[ob[j]].divided;
      }
    }
  }

  /** Leaving an arena alone touches nothing. */
  lemma {:induction false} UntouchedSame(a: seq<Node>, sa: seq<Summary>, x: real, y: real)
    ensures Untouched(a, sa, a, sa, x, y)
  {
    assert sa[..|sa|] == sa;
  }

  /** Replacing one node whose region contains the point touches nothing else. */
  lemma {:induction false} UntouchedAt(a: seq<Node>, sa: seq<Summary>, n: nat, v: Node, x: real, y: real)
    requires n < |a| && Contains(a[n].boundary, x, y)
    ensures Untouched(a, sa, a[n := v], sa, x, y)
  {
    assert sa[..|sa|] == sa;
  }

  /** Replacing one node whose region contains the point and appending four nodes with
      `Zero` summaries touches nothing else. */
  lemma {:induction false} UntouchedSplit(a: seq<Node>, sa: seq<Summary>, b: seq<Node>, sb: seq<Summary>,
                                          n: nat, v: Node, x: real, y: real)
    requires n < |a| <= |b| && Contains(a[n].boundary, x, y)
    requires b[..|a|] == a[n := v] && sb == sa + [Zero, Zero, Zero, Zero]
    ensures Untouched(a, sa, b, sb, x, y)
  {
    assert sb[..|sa|] == sa;
    forall k | 0 <= k < |a| && !Contains(a[k].boundary, x, y)
      ensures b[k] == a[k]
    {
      assert b[k] == b[..|a|][k];
    }
  }

  /** Two insertions of the same point, one after the other, touch nothing else. */
  lemma {:induction false} UntouchedTrans(a: seq<Node>, sa: seq<Summary>, b: seq<Node>, sb: seq<Summary>,
                                          c: seq<Node>, sc: seq<Summary>, x: real, y: real)
    requires Untouched(a, sa, b, sb, x, y) && Untouched(b, sb, c, sc, x, y)
    ensures Untouched(a, sa, c, sc, x, y)
  {
    assert sc[..|sa|] == sc[..|sb|][..|sa|];
    forall k | |sa| <= k < |sc|
      ensures sc[k] == Zero
    {
      if k < |sb| {
        assert sc[k] == sc[..|sb|][k];
      }
    }
    forall k | 0 <= k < |a| && !Contains(a[k].boundary, x, y)
      ensures c[k] == a[k]
    {
      assert b[k] == a[k];
    }
  }

  /** Growth keeps every creator from index `n` on divided. */
  lemma {:induction false} SettledKept(a: seq<Node>, oa: seq<nat>, b: seq<Node>, ob: seq<nat>, n: nat)
    requires Shaped(a, oa) && Settled(a, oa, n) && Extended(a, oa, b, ob)
    ensures Settled(b, ob, n)
  {
    forall j | 0 <= j < |ob| && n <= ob[j] < |b|
      ensures b[ob[j]].divided
    {
      if j < |oa| {
        assert oa[j] <= 4 * j;
        assert ob[j] == oa[j] && a[oa[j]].divided;
      }
    }
  }

  /** In a shaped arena every creator comes before the last block, so the condition of
      `Settled` is empty from there on. */
  lemma {:induction false} LateSettled(nodes: seq<Node>, owners: seq<nat>, n: nat)
    requires Shaped(nodes, owners) && |nodes| - 4 <= n
    ensures Settled(nodes, owners, n) && forall j :: 0 <= j < |owners| ==> owners[j] < |nodes|
  {
    forall j | 0 <= j < |owners|
      ensures owners[j] < |nodes| - 4
    {
      assert owners[j] <= 4 * j;
    }
  }

  /** The children of a divided node of a shaped arena come after it, so a child inherits
      `Settled` from its parent. */
  lemma {:induction false} ChildSettled(nodes: seq<Node>, owners: seq<nat>, n: nat)
    requires Shaped(nodes, owners) && Settled(nodes, owners, n) && n < |nodes| && nodes[n].divided
    ensures n < nodes[n].northWest < nodes[n].northEast < nodes[n].southWest < nodes[n].southEast < |nodes|
    ensures Settled(nodes, owners, nodes[n].northWest) && Settled(nodes, owners, nodes[n].northEast)
    ensures Settled(nodes, owners, nodes[n].southWest) && Settled(nodes, owners, nodes[n].southEast)
  {
    assert Owns(nodes, owners, n);
    var b := (nodes[n].northWest - 1) / 4;
    assert owners[b] <= 4 * b && Kids(nodes[owners[b]], 4 * b + 1);
  }

  /** Linking leaf `n`, which created no block, to four new leaves at the end of the arena
      makes it the creator of a new last block. */
  lemma {:induction false} BranchShape(a: seq<Node>, owners: seq<nat>, n: nat, b: seq<Node>)
    requires Shaped(a, owners) && n < |a| && !a[n].divided && n !in owners
    requires b == a[n := Linked4(a, n)] + Sprouts(a[n].boundary, a[n].capacity)
    ensures Shaped(b, owners + [n])
  {
    var ob := owners + [n];
    forall j | 0 <= j < |ob|
      ensures ob[j] <= 4 * j && Kids(b[ob[j]], 4 * j + 1)
    {
      if j < |owners| {
        assert ob[j] == owners[j] && ob[j] != n && Kids(a[owners[j]], 4 * j + 1);
      }
    }
    forall k | 0 <= k < |b| && b[k].divided
      ensures Owns(b, ob, k)
    {
      assert k < |a| && k != n && b[k] == a[k] && Owns(a, owners, k);
    }
  }

  /** Marking the creator of the last block divided and empty keeps the shape. */
  lemma {:induction false} SettleShape(a: seq<Node>, owners: seq<nat>, n: nat)
    requires Shaped(a, owners) && 0 < |owners| && owners[|owners| - 1] == n
    ensures n < |a| && Shaped(a[n := a[n].(divided := true, particles := [])], owners)
  {
    var b := a[n := a[n].(divided := true, particles := [])];
    var last := |owners| - 1;
    assert n <= 4 * last && Kids(a[n], 4 * last + 1);
    forall j | 0 <= j < |owners|
      ensures Kids(b[owners[j]], 4 * j + 1)
    {
      assert Kids(a[owners[j]], 4 * j + 1);
    }
    forall k | 0 <= k < |b| && b[k].divided
      ensures Owns(b, owners, k)
    {
      if k != n {
        assert Owns(a, owners, k);
      }
    }
  }

  /** The nodes of the last block are leaves: a divided node among them would have created a
      later block. */
  lemma {:induction false} LastLeaves(nodes: seq<Node>, owners: seq<nat>)
    requires Shaped(nodes, owners) && 0 < |owners|
    ensures forall j :: |nodes| - 4 <= j < |nodes| ==> !nodes[j].divided
  {
    forall j | |nodes| - 4 <= j < |nodes|
      ensures !nodes[j].divided
    {
      assert nodes[j].divided ==> Owns(nodes, owners, j);
    }
  }

  /** The arena with its last block folded back into the node that created it: the block is
      dropped, and its creator becomes a leaf holding the particles of the block. */
  ghost function Collapse(nodes: seq<Node>, owners: seq<nat>): seq<Node>
    requires Shaped(nodes, owners) && 0 < |owners|
  {
    var f := |nodes| - 4;
    var o := owners[|owners| - 1];
    nodes[..f][o := nodes[o].(divided := false, particles := nodes[f].particles + nodes[f + 1].particles +
                                                             nodes[f + 2].particles + nodes[f + 3].particles)]
  }

  /** Folding the last block back leaves the subtree of every remaining node as it was. */
  lemma {:induction false} CollapseBelow(nodes: seq<Node>, owners: seq<nat>, i: nat)
    requires Shaped(nodes, owners) && Settled(nodes, owners, 0) && 0 < |owners| && i < |nodes| - 4
    ensures Below(Collapse(nodes, owners), i) == Below(nodes, i)
    decreases |nodes| - i
  {
    var c := Collapse(nodes, owners);
    if i == owners[|owners| - 1] {
      CollapsedOwner(nodes, owners);
    } else if nodes[i].divided {
      var b := CollapsedLinks(nodes, owners, i);
      CollapseBelow(nodes, owners, 4 * b + 1);
      CollapseBelow(nodes, owners, 4 * b + 2);
      CollapseBelow(nodes, owners, 4 * b + 3);
      CollapseBelow(nodes, owners, 4 * b + 4);
      SameBelow(nodes, c, i, 4 * b + 1);
    } else {
      assert c[i] == nodes[i] && !Linked(nodes, i) && !Linked(c, i);
    }
  }

  /** Two arenas in which node `i` has the same four children `f` to `f + 3`, below each of
      which the same particles lie, have the same particles below `i`. */
  lemma {:induction false} SameBelow(a: seq<Node>, b: seq<Node>, i: nat, f: nat)
    requires i < |a| && i < |b| && a[i] == b[i] && Kids(a[i], f) && Linked(a, i) && Linked(b, i)
    requires Below(a, f) == Below(b, f) && Below(a, f + 1) == Below(b, f + 1)
    requires Below(a, f + 2) == Below(b, f + 2) && Below(a, f + 3) == Below(b, f + 3)
    ensures Below(a, i) == Below(b, i)
  {
  }

  /** The creator of the last block holds, once folded back, what the block held. */
  lemma {:induction false} CollapsedOwner(nodes: seq<Node>, owners: seq<nat>)
    requires Shaped(nodes, owners) && Settled(nodes, owners, 0) && 0 < |owners|
    ensures var o := owners[|owners| - 1];
      o < |nodes| - 4 && Below(Collapse(nodes, owners), o) == Below(nodes, o)
  {
    var c := Collapse(nodes, owners);
    var last := |owners| - 1;
    var f := 4 * last + 1;
    var o := owners[last];
    assert o <= 4 * last && Kids(nodes[o], f);
    LastLeaves(nodes, owners);
    assert nodes[o].divided;
    assert Linked(nodes, o) && !Linked(c, o);
    assert !Linked(nodes, f) && !Linked(nodes, f + 1) && !Linked(nodes, f + 2) && !Linked(nodes, f + 3);
  }

  /** A divided node other than the creator of the last block has its children in an earlier
      block `b`, in the arena and in its folded version alike. */
  lemma {:induction false} CollapsedLinks(nodes: seq<Node>, owners: seq<nat>, i: nat) returns (b: nat)
    requires Shaped(nodes, owners) && 0 < |owners| && i < |nodes| - 4
    requires nodes[i].divided && i != owners[|owners| - 1]
    ensures 4 * b + 4 < |nodes| - 4 && i < 4 * b + 1
    ensures Kids(nodes[i], 4 * b + 1) && Linked(nodes, i)
    ensures var c := Collapse(nodes, owners); c[i] == nodes[i] && Linked(c, i)
  {
    assert Owns(nodes, owners, i);
    b := (nodes[i].northWest - 1) / 4;
    assert owners[b] == i && b != |owners| - 1;
    assert i <= 4 * b && Kids(nodes[i], 4 * b + 1);
  }

  /** Folding the last block back keeps the shape and the particles held. */
  lemma {:induction false} CollapseShaped(nodes: seq<Node>, owners: seq<nat>)
    requires Shaped(nodes, owners) && Settled(nodes, owners, 0) && Bare(nodes) && 0 < |owners|
    ensures var c, rest := Collapse(nodes, owners), owners[..|owners| - 1];
      Shaped(c, rest) && Settled(c, rest, 0) && Bare(c) && Held(c) == Held(nodes)
  {
    var c := Collapse(nodes, owners);
    var o := owners[|owners| - 1];
    CollapseBlocks(nodes, owners, c);
    CollapseOwns(nodes, owners, c);
    assert nodes[o].divided;
    FoldHeld(nodes, o, c[o]);
  }

  /** The blocks before the last keep their creators, which are not the creator of the last
      block, and stay divided when the arena is folded. */
  lemma {:induction false} CollapseBlocks(nodes: seq<Node>, owners: seq<nat>, c: seq<Node>)
    requires Shaped(nodes, owners) && Settled(nodes, owners, 0) && 0 < |owners|
    requires c == Collapse(nodes, owners)
    ensures var rest := owners[..|owners| - 1];
      |c| == 4 * |rest| + 1 && Settled(c, rest, 0) &&
      forall b :: 0 <= b < |rest| ==> rest[b] <= 4 * b && Kids(c[rest[b]], 4 * b + 1)
  {
    var last := |owners| - 1;
    var rest := owners[..last];
    var o := owners[last];
    forall b | 0 <= b < last
      ensures rest[b] <= 4 * b && Kids(c[rest[b]], 4 * b + 1) && c[rest[b]].divided
    {
      assert rest[b] == owners[b];
      assert Kids(nodes[owners[b]], 4 * b + 1);
      assert owners[b] != o;
    }
  }

  /** Every divided node of the folded arena created one of the remaining blocks. */
  lemma {:induction false} CollapseOwns(nodes: seq<Node>, owners: seq<nat>, c: seq<Node>)
    requires Shaped(nodes, owners) && Bare(nodes) && 0 < |owners|
    requires c == Collapse(nodes, owners)
    ensures var rest := owners[..|owners| - 1];
      Bare(c) && forall k :: 0 <= k < |c| && c[k].divided ==> Owns(c, rest, k)
  {
    var last := |owners| - 1;
    var rest := owners[..last];
    var o := owners[last];
    forall k | 0 <= k < |c| && c[k].divided
      ensures Owns(c, rest, k) && c[k].particles == []
    {
      assert k != o && c[k] == nodes[k];
      assert Owns(nodes, owners, k);
    }
  }

  /** Dropping the last four nodes and giving their particles to an empty node `o` before
      them keeps the particles held. */
  lemma {:induction false} FoldHeld(nodes: seq<Node>, o: nat, v: Node)
    requires 4 <= |nodes| && o < |nodes| - 4 && nodes[o].particles == []
    requires var f := |nodes| - 4;
      v.particles == nodes[f].particles + nodes[f + 1].particles + nodes[f + 2].particles + nodes[f + 3].particles
    ensures Held(nodes[..|nodes| - 4][o := v]) == Held(nodes)
  {
    var f := |nodes| - 4;
    var a := nodes[..f];
    HeldUpdate(a, o, v);
    assert a[o] == nodes[o];
    assert nodes == a + nodes[f..];
    HeldAppend(a, nodes[f..]);
    HeldFour(nodes[f..]);
  }

  /** The particles held by two arenas one after the other. */
  lemma {:induction false} HeldAppend(a: seq<Node>, t: seq<Node>)
    ensures Held(a + t) == Held(a) + Held(t)
  {
    HeldFromAppend(a, t, 0);
  }

  lemma {:induction false} HeldFromAppend(a: seq<Node>, t: seq<Node>, k: nat)
    requires k <= |a|
    ensures HeldFrom(a + t, k) == HeldFrom(a, k) + Held(t)
    decreases |a| - k
  {
    if k == |a| {
      HeldFromShift(a, t, 0);
    } else {
      assert (a + t)[k] == a[k];
      HeldFromAppend(a, t, k + 1);
    }
  }

  lemma {:induction false} HeldFromShift(a: seq<Node>, t: seq<Node>, j: nat)
    requires j <= |t|
    ensures HeldFrom(a + t, |a| + j) == HeldFrom(t, j)
    decreases |t| - j
  {
    if j < |t| {
      assert (a + t)[|a| + j] == t[j];
      HeldFromShift(a, t, j + 1);
    }
  }

  /** The particles held by four nodes. */
  lemma {:induction false} HeldFour(t: seq<Node>)
    requires |t| == 4
    ensures Held(t) == multiset(t[0].particles + t[1].particles + t[2].particles + t[3].particles)
  {
    assert HeldFrom(t, 4) == multiset{};
    assert HeldFrom(t, 3) == multiset(t[3].particles);
    assert HeldFrom(t, 2) == multiset(t[2].particles) + multiset(t[3].particles);
    assert HeldFrom(t, 1) == multiset(t[1].particles) + multiset(t[2].particles) + multiset(t[3].particles);
  }

  /** In a shaped arena whose subdivisions are all finished, the subtree below the root holds
      exactly the particles the arena holds. */
  lemma {:induction false} Rooted(nodes: seq<Node>, owners: seq<nat>)
    requires Shaped(nodes, owners) && Settled(nodes, owners, 0) && Bare(nodes)
    ensures multiset(Below(nodes, 0)) == Held(nodes)
    decreases |owners|
  {
    if |owners| == 0 {
      assert nodes[0].divided ==> Owns(nodes, owners, 0);
      assert HeldFrom(nodes, 1) == multiset{};
    } else {
      var c := Collapse(nodes, owners);
      CollapseShaped(nodes, owners);
      CollapseBelow(nodes, owners, 0);
      Rooted(c, owners[..|owners| - 1]);
    }
  }

  // Mass summaries. The masses and positions of the particles do not change while the tree
  // is summarized, so the summaries are specified over a snapshot of the particles.

  /** `w[k]` is the snapshot of the particles node `k` holds. */
  ghost predicate Pictures(nodes: seq<Node>, w: seq<seq<Body>>)
    reads Stored(nodes)
  {
    |w| == |nodes| &&
    (forall k :: 0 <= k < |nodes| ==> |w[k]| == |nodes[k].particles|) &&
    forall k, j :: 0 <= k < |nodes| && 0 <= j < |w[k]| && j < |nodes[k].particles| ==>
      (StoredAt(nodes, k); w[k][j] == nodes[k].particles[j].Snap())
  }

  /** The snapshot of the particles of every node. */
  ghost function Snapshots(nodes: seq<Node>): (w: seq<seq<Body>>)
    reads Stored(nodes)
    ensures Pictures(nodes, w)
  {
    seq(|nodes|, k requires 0 <= k < |nodes| reads Stored(nodes) => (StoredAt(nodes, k); Bodies(nodes[k].particles)))
  }

  /** The snapshot of one node. */
  lemma PicturesAt(nodes: seq<Node>, w: seq<seq<Body>>, k: nat)
    requires Pictures(nodes, w) && k < |nodes|
    ensures w[k] == Bodies(nodes[k].particles)
  {
  }

  /** Every particle of node `i` is stored in the arena. */
  lemma StoredAt(nodes: seq<Node>, i: nat)
    requires i < |nodes|
    ensures forall q :: q in nodes[i].particles ==> q in Stored(nodes)
  {
  }

  /** The bodies of the subtree below node `i`, leaf by leaf in the order NW, NE, SW, SE. */
  function Gathered(nodes: seq<Node>, w: seq<seq<Body>>, i: nat): seq<Body>
    requires i < |nodes| == |w|
    decreases |nodes| - i
  {
    var n := nodes[i];
    if Linked(nodes, i) then
      Gathered(nodes, w, n.northWest) + Gathered(nodes, w, n.northEast) +
      Gathered(nodes, w, n.southWest) + Gathered(nodes, w, n.southEast)
    else w[i]
  }

  /** The bodies gathered below node `i` are the snapshots of the particles below it. */
  lemma {:induction false} GatheredBelow(nodes: seq<Node>, w: seq<seq<Body>>, i: nat)
    requires Pictures(nodes, w) && i < |nodes|
    ensures Gathered(nodes, w, i) == Bodies(Below(nodes, i))
    decreases |nodes| - i
  {
    var n := nodes[i];
    if Linked(nodes, i) {
      GatheredBelow(nodes, w, n.northWest);
      GatheredBelow(nodes, w, n.northEast);
      GatheredBelow(nodes, w, n.southWest);
      GatheredBelow(nodes, w, n.southEast);
      var a, b, c, d := Below(nodes, n.northWest), Below(nodes, n.northEast),
                        Below(nodes, n.southWest), Below(nodes, n.southEast);
      BodiesAppend(a, b);
      BodiesAppend(a + b, c);
      BodiesAppend(a + b + c, d);
    } else {
      PicturesAt(nodes, w, i);
    }
  }

  /** The bodies gathered below the root are the snapshots of the particles below it, with
      multiplicity. */
  lemma {:induction false} RootGathersAll(nodes: seq<Node>, w: seq<seq<Body>>, ps: seq<Particle>)
    requires 0 < |nodes| && Pictures(nodes, w) && multiset(Below(nodes, 0)) == multiset(ps)
    ensures multiset(Gathered(nodes, w, 0)) == multiset(Bodies(ps))
  {
    GatheredBelow(nodes, w, 0);
    BodiesPermutation(Below(nodes, 0), ps);
  }

  /** A shaped tree whose subdivisions are finished and that holds the single particle `p`
      gathers exactly the snapshot of `p` below its root. */
  lemma {:induction false} LoneTree(nodes: seq<Node>, owners: seq<nat>, w: seq<seq<Body>>, p: Particle)
    requires Structured(nodes) && Shaped(nodes, owners) && Settled(nodes, owners, 0) && Pictures(nodes, w)
    requires Held(nodes) == multiset{p}
    ensures Gathered(nodes, w, 0) == [p.Snap()]
  {
    StructuredBare(nodes);
    Rooted(nodes, owners);
    GatheredBelow(nodes, w, 0);
    var s := Below(nodes, 0);
    assert |s| == 1 by { assert |multiset(s)| == 1; }
    assert s[0] in multiset(s);
    assert s == [p];
  }

  /** The summary of a leaf holding `bs`: total mass, and the mass moments divided by a
      positive total (left undivided otherwise). */
  function LeafSummary(bs: seq<Body>): Summary
  {
    var mx := Sum(bs, MomentX);
    var my := Sum(bs, MomentY);
    Centred(TotalMass(bs), mx, my, mx, my)
  }

  /** The summary of a divided node from those of its children: the masses add up, and for a
      positive total the centre is the mass-weighted mean of the children's centres, otherwise
      the origin. */
  function Combine(a: Summary, b: Summary, c: Summary, d: Summary): Summary
  {
    Centred(a.totalMass + b.totalMass + c.totalMass + d.totalMass,
            WeightedX(a) + WeightedX(b) + WeightedX(c) + WeightedX(d),
            WeightedY(a) + WeightedY(b) + WeightedY(c) + WeightedY(d), 0.0, 0.0)
  }

  /** The summary of mass `m` with moments `(wx, wy)`: a positive mass divides the moments
      into a centre, any other leaves the centre at `(ox, oy)`. */
  function Centred(m: real, wx: real, wy: real, ox: real, oy: real): Summary
  {
    if m > 0.0 then Summary(m, wx / m, wy / m) else Summary(m, ox, oy)
  }

  /** The moments of a summary: its centre weighted by its mass. */
  function WeightedX(s: Summary): real { s.centerOfMassX * s.totalMass }
  function WeightedY(s: Summary): real { s.centerOfMassY * s.totalMass }

  /** The summary `calculateMass` leaves in node `i`. */
  function Aggregate(nodes: seq<Node>, w: seq<seq<Body>>, i: nat): Summary
    requires i < |nodes| == |w|
    decreases |nodes| - i
  {
    var n := nodes[i];
    if Linked(nodes, i) then
      Combine(Aggregate(nodes, w, n.northWest), Aggregate(nodes, w, n.northEast),
              Aggregate(nodes, w, n.southWest), Aggregate(nodes, w, n.southEast))
    else LeafSummary(w[i])
  }

  /** Every node of the subtree below `i` carries the summary `calculateMass` computes for it. */
  predicate Summarized(nodes: seq<Node>, w: seq<seq<Body>>, summaries: seq<Summary>, i: nat)
    requires i < |nodes| == |w| == |summaries|
    decreases |nodes| - i
  {
    var n := nodes[i];
    summaries[i] == Aggregate(nodes, w, i) &&
    (Linked(nodes, i) ==>
       Summarized(nodes, w, summaries, n.northWest) && Summarized(nodes, w, summaries, n.northEast) &&
       Summarized(nodes, w, summaries, n.southWest) && Summarized(nodes, w, summaries, n.southEast))
  }

  /** `t` differs from `s` only in entries rewritten with their computed summary. */
  ghost predicate Refreshed(nodes: seq<Node>, w: seq<seq<Body>>, s: seq<Summary>, t: seq<Summary>)
    requires |nodes| == |w|
  {
    |s| == |t| == |nodes| &&
    forall k {:trigger t[k]} :: 0 <= k < |t| ==> t[k] == s[k] || t[k] == Aggregate(nodes, w, k)
  }

  lemma RefreshedTrans(nodes: seq<Node>, w: seq<seq<Body>>, s: seq<Summary>, t: seq<Summary>,
                       u: seq<Summary>)
    requires |nodes| == |w| && Refreshed(nodes, w, s, t) && Refreshed(nodes, w, t, u)
    ensures Refreshed(nodes, w, s, u)
  {
    forall k | 0 <= k < |u| ensures u[k] == s[k] || u[k] == Aggregate(nodes, w, k) {
      assert u[k] == t[k] || u[k] == Aggregate(nodes, w, k);
      assert t[k] == s[k] || t[k] == Aggregate(nodes, w, k);
    }
  }

  /** Refreshing some summaries keeps a summarized subtree summarized. */
  lemma {:induction false} SummarizedKept(nodes: seq<Node>, w: seq<seq<Body>>, s: seq<Summary>,
                                          t: seq<Summary>, i: nat)
    requires i < |nodes| == |w| == |s| && Summarized(nodes, w, s, i) && Refreshed(nodes, w, s, t)
    ensures Summarized(nodes, w, t, i)
    decreases |nodes| - i
  {
    var n := nodes[i];
    if Linked(nodes, i) {
      SummarizedKept(nodes, w, s, t, n.northWest);
      SummarizedKept(nodes, w, s, t, n.northEast);
      SummarizedKept(nodes, w, s, t, n.southWest);
      SummarizedKept(nodes, w, s, t, n.southEast);
    }
  }

  /** Summarizing the four children of node `i` one after the other, each pass refreshing
      the summaries the previous one left, leaves all four summarized. */
  lemma Collected(nodes: seq<Node>, w: seq<seq<Body>>, i: nat, s0: seq<Summary>, s1: seq<Summary>,
                  s2: seq<Summary>, s3: seq<Summary>, s4: seq<Summary>)
    requires i < |nodes| == |w| == |s0| && Linked(nodes, i)
    requires Refreshed(nodes, w, s0, s1) && Summarized(nodes, w, s1, nodes[i].northWest)
    requires Refreshed(nodes, w, s1, s2) && Summarized(nodes, w, s2, nodes[i].northEast)
    requires Refreshed(nodes, w, s2, s3) && Summarized(nodes, w, s3, nodes[i].southWest)
    requires Refreshed(nodes, w, s3, s4) && Summarized(nodes, w, s4, nodes[i].southEast)
    ensures Refreshed(nodes, w, s0, s4)
    ensures Summarized(nodes, w, s4, nodes[i].northWest) && Summarized(nodes, w, s4, nodes[i].northEast)
    ensures Summarized(nodes, w, s4, nodes[i].southWest) && Summarized(nodes, w, s4, nodes[i].southEast)
  {
    var n := nodes[i];
    SummarizedKept(nodes, w, s1, s2, n.northWest);
    RefreshedTrans(nodes, w, s0, s1, s2);
    SummarizedKept(nodes, w, s2, s3, n.northWest);
    SummarizedKept(nodes, w, s2, s3, n.northEast);
    RefreshedTrans(nodes, w, s0, s2, s3);
    SummarizedKept(nodes, w, s3, s4, n.northWest);
    SummarizedKept(nodes, w, s3, s4, n.northEast);
    SummarizedKept(nodes, w, s3, s4, n.southWest);
    RefreshedTrans(nodes, w, s0, s3, s4);
  }

  /** Storing its summary in a leaf summarizes the leaf. */
  lemma LeafSummarized(nodes: seq<Node>, w: seq<seq<Body>>, s: seq<Summary>, i: nat, c: Summary)
    requires i < |nodes| == |w| == |s| && !nodes[i].divided && c == LeafSummary(w[i])
    ensures Refreshed(nodes, w, s, s[i := c]) && Summarized(nodes, w, s[i := c], i)
  {
  }

  /** Storing the combination of four summarized children in their parent summarizes the
      parent's subtree. */
  lemma {:induction false} Assembled(nodes: seq<Node>, w: seq<seq<Body>>, s: seq<Summary>, i: nat, c: Summary)
    requires i < |nodes| == |w| == |s| && Linked(nodes, i)
    requires Summarized(nodes, w, s, nodes[i].northWest) && Summarized(nodes, w, s, nodes[i].northEast)
    requires Summarized(nodes, w, s, nodes[i].southWest) && Summarized(nodes, w, s, nodes[i].southEast)
    requires c == Combine(s[nodes[i].northWest], s[nodes[i].northEast],
                          s[nodes[i].southWest], s[nodes[i].southEast])
    ensures Refreshed(nodes, w, s, s[i := c]) && Summarized(nodes, w, s[i := c], i)
  {
    var n := nodes[i];
    var t := s[i := c];
    assert c == Aggregate(nodes, w, i);
    assert Refreshed(nodes, w, s, t);
    SummarizedKept(nodes, w, s, t, n.northWest);
    SummarizedKept(nodes, w, s, t, n.northEast);
    SummarizedKept(nodes, w, s, t, n.southWest);
    SummarizedKept(nodes, w, s, t, n.southEast);
  }

  /** The total mass of a node is the sum of the masses of the bodies below it. */
  lemma {:induction false} MassIsSubtreeSum(nodes: seq<Node>, w: seq<seq<Body>>, i: nat)
    requires i < |nodes| == |w|
    ensures Aggregate(nodes, w, i).totalMass == TotalMass(Gathered(nodes, w, i))
    decreases |nodes| - i
  {
    var n := nodes[i];
    if Linked(nodes, i) {
      MassIsSubtreeSum(nodes, w, n.northWest);
      MassIsSubtreeSum(nodes, w, n.northEast);
      MassIsSubtreeSum(nodes, w, n.southWest);
      MassIsSubtreeSum(nodes, w, n.southEast);
      Split4(Gathered(nodes, w, n.northWest), Gathered(nodes, w, n.northEast),
             Gathered(nodes, w, n.southWest), Gathered(nodes, w, n.southEast), Mass);
    }
  }

  /** A sum over four concatenated sequences of bodies splits into four sums. */
  lemma Split4(a: seq<Body>, b: seq<Body>, c: seq<Body>, d: seq<Body>, f: Body -> real)
    ensures Sum(a + b + c + d, f) == Sum(a, f) + Sum(b, f) + Sum(c, f) + Sum(d, f)
  {
    SumAppend(a + b + c, d, f);
    SumAppend(a + b, c, f);
    SumAppend(a, b, f);
  }

  /** Weighting a centred summary by its mass gives its moments back, unless a zero mass
      carries a moment. */
  lemma CentredWeights(m: real, wx: real, wy: real, ox: real, oy: real)
    requires m >= 0.0 && (m == 0.0 ==> wx == 0.0 && wy == 0.0)
    ensures WeightedX(Centred(m, wx, wy, ox, oy)) == wx
    ensures WeightedY(Centred(m, wx, wy, ox, oy)) == wy
  {
    if m > 0.0 {
      DivMul(wx, m);
      DivMul(wy, m);
    }
  }

  /** A leaf's centre weighted by its mass is the mass moment of its bodies, when no mass is
      negative. */
  lemma LeafWeighted(bs: seq<Body>)
    requires NonNegativeMasses(bs)
    ensures WeightedX(LeafSummary(bs)) == Sum(bs, MomentX)
    ensures WeightedY(LeafSummary(bs)) == Sum(bs, MomentY)
  {
    var m, mx, my := TotalMass(bs), Sum(bs, MomentX), Sum(bs, MomentY);
    TotalMassNonNegative(bs);
    if m == 0.0 {
      WeightlessHasNoMoment(bs);
    }
    CentredWeights(m, mx, my, mx, my);
  }

  /** The centre of a combination weighted by its mass is the sum of the children's weighted
      centres, when no child's mass is negative. */
  lemma CombineWeighted(a: Summary, b: Summary, c: Summary, d: Summary)
    requires a.totalMass >= 0.0 && b.totalMass >= 0.0 && c.totalMass >= 0.0 && d.totalMass >= 0.0
    ensures WeightedX(Combine(a, b, c, d)) == WeightedX(a) + WeightedX(b) + WeightedX(c) + WeightedX(d)
    ensures WeightedY(Combine(a, b, c, d)) == WeightedY(a) + WeightedY(b) + WeightedY(c) + WeightedY(d)
  {
    var m := a.totalMass + b.totalMass + c.totalMass + d.totalMass;
    var wx := WeightedX(a) + WeightedX(b) + WeightedX(c) + WeightedX(d);
    var wy := WeightedY(a) + WeightedY(b) + WeightedY(c) + WeightedY(d);
    if m == 0.0 {
      assert a.totalMass == 0.0 && b.totalMass == 0.0 && c.totalMass == 0.0 && d.totalMass == 0.0;
      assert wx == 0.0 && wy == 0.0;
    }
    CentredWeights(m, wx, wy, 0.0, 0.0);
  }

  lemma NonNegativeParts(a: seq<Body>, b: seq<Body>, c: seq<Body>, d: seq<Body>)
    requires NonNegativeMasses(a + b + c + d)
    ensures NonNegativeMasses(a) && NonNegativeMasses(b) && NonNegativeMasses(c) && NonNegativeMasses(d)
  {
    forall k | 0 <= k < |a| ensures a[k].mass >= 0.0 { assert a[k] == (a + b + c + d)[k]; }
    forall k | 0 <= k < |b| ensures b[k].mass >= 0.0 { assert b[k] == (a + b + c + d)[|a| + k]; }
    forall k | 0 <= k < |c| ensures c[k].mass >= 0.0 { assert c[k] == (a + b + c + d)[|a| + |b| + k]; }
    forall k | 0 <= k < |d| ensures d[k].mass >= 0.0 {
      assert d[k] == (a + b + c + d)[|a| + |b| + |c| + k];
    }
  }

  /** Under non-negative masses a node's centre weighted by its mass is the mass moment of the
      bodies below it. */
  lemma {:induction false} WeightedCentre(nodes: seq<Node>, w: seq<seq<Body>>, i: nat)
    requires i < |nodes| == |w| && NonNegativeMasses(Gathered(nodes, w, i))
    ensures Aggregate(nodes, w, i).totalMass >= 0.0
    ensures WeightedX(Aggregate(nodes, w, i)) == Sum(Gathered(nodes, w, i), MomentX)
    ensures WeightedY(Aggregate(nodes, w, i)) == Sum(Gathered(nodes, w, i), MomentY)
    decreases |nodes| - i
  {
    var n := nodes[i];
    MassIsSubtreeSum(nodes, w, i);
    TotalMassNonNegative(Gathered(nodes, w, i));
    if Linked(nodes, i) {
      var a, b, c, d := Gathered(nodes, w, n.northWest), Gathered(nodes, w, n.northEast),
                        Gathered(nodes, w, n.southWest), Gathered(nodes, w, n.southEast);
      Split4(a, b, c, d, MomentX);
      Split4(a, b, c, d, MomentY);
      NonNegativeParts(a, b, c, d);
      WeightedCentre(nodes, w, n.northWest);
      WeightedCentre(nodes, w, n.northEast);
      WeightedCentre(nodes, w, n.southWest);
      WeightedCentre(nodes, w, n.southEast);
      CombineWeighted(Aggregate(nodes, w, n.northWest), Aggregate(nodes, w, n.northEast),
                      Aggregate(nodes, w, n.southWest), Aggregate(nodes, w, n.southEast));
    } else {
      LeafWeighted(w[i]);
    }
  }

  /** Under non-negative masses, the centre of mass of a node is the mass-weighted mean
      position of the bodies below it when their total mass is positive, and the origin when
      it is zero. */
  lemma CentreIsMean(nodes: seq<Node>, w: seq<seq<Body>>, i: nat)
    requires i < |nodes| == |w| && NonNegativeMasses(Gathered(nodes, w, i))
    ensures var s := Aggregate(nodes, w, i); var bs := Gathered(nodes, w, i);
      s.totalMass == TotalMass(bs) && s.totalMass >= 0.0 &&
      (s.totalMass > 0.0 ==>
         s.centerOfMassX == Sum(bs, MomentX) / s.totalMass &&
         s.centerOfMassY == Sum(bs, MomentY) / s.totalMass) &&
      (s.totalMass == 0.0 ==> s.centerOfMassX == 0.0 && s.centerOfMassY == 0.0)
  {
    var s := Aggregate(nodes, w, i);
    var bs := Gathered(nodes, w, i);
    MassIsSubtreeSum(nodes, w, i);
    WeightedCentre(nodes, w, i);
    if s.totalMass > 0.0 {
      CentreFromWeights(s, Sum(bs, MomentX), Sum(bs, MomentY));
    } else {
      ZeroCentre(nodes, w, i);
    }
  }

  /** A summary of positive mass is centred at its moments divided by its mass. */
  lemma CentreFromWeights(s: Summary, wx: real, wy: real)
    requires s.totalMass > 0.0 && WeightedX(s) == wx && WeightedY(s) == wy
    ensures s.centerOfMassX == wx / s.totalMass && s.centerOfMassY == wy / s.totalMass
  {
    MulDiv(s.centerOfMassX, s.totalMass, wx);
    MulDiv(s.centerOfMassY, s.totalMass, wy);
  }

  /** A weightless node is at the origin, when no mass below it is negative. */
  lemma {:induction false} ZeroCentre(nodes: seq<Node>, w: seq<seq<Body>>, i: nat)
    requires i < |nodes| == |w| && NonNegativeMasses(Gathered(nodes, w, i))
    requires Aggregate(nodes, w, i).totalMass == 0.0
    ensures Aggregate(nodes, w, i).centerOfMassX == 0.0 && Aggregate(nodes, w, i).centerOfMassY == 0.0
  {
    if !Linked(nodes, i) {
      MassIsSubtreeSum(nodes, w, i);
      WeightlessHasNoMoment(w[i]);
    }
  }

  /** The leaf case of `calculateMass`: the masses and the mass moments of the particles are
      summed in order, and the moments are divided by a positive total. */
  method LeafMass(ps: seq<Particle>) returns (s: Summary)
    ensures s == LeafSummary(Bodies(ps))
  {
    var totalMass, centerOfMassX, centerOfMassY := Accumulate(ps);
    if totalMass > 0.0 {
      centerOfMassX := centerOfMassX / totalMass;
      centerOfMassY := centerOfMassY / totalMass;
    }
    s := Summary(totalMass, centerOfMassX, centerOfMassY);
  }

  /** The loop of the leaf case: the total mass and the two mass moments of the particles. */
  method Accumulate(ps: seq<Particle>) returns (totalMass: real, momentX: real, momentY: real)
    ensures totalMass == TotalMass(Bodies(ps))
    ensures momentX == Sum(Bodies(ps), MomentX) && momentY == Sum(Bodies(ps), MomentY)
  {
    ghost var bs := Bodies(ps);
    totalMass, momentX, momentY := 0.0, 0.0, 0.0;
    var j := 0;
    while j < |ps|
      invariant 0 <= j <= |ps|
      invariant totalMass == TotalMass(bs[..j])
      invariant momentX == Sum(bs[..j], MomentX) && momentY == Sum(bs[..j], MomentY)
    {
      var p := ps[j];
      totalMass := totalMass + p.mass;
      momentX := momentX + p.x * p.mass;
      momentY := momentY + p.y * p.mass;
      assert bs[j] == p.Snap();
      LeafStep(bs, j);
      j := j + 1;
    }
    assert bs[..j] == bs;
  }

  /** The sums over a prefix of the bodies grow by the next body's mass and moments. */
  lemma LeafStep(bs: seq<Body>, j: nat)
    requires j < |bs|
    ensures TotalMass(bs[..j + 1]) == TotalMass(bs[..j]) + bs[j].mass
    ensures Sum(bs[..j + 1], MomentX) == Sum(bs[..j], MomentX) + bs[j].x * bs[j].mass
    ensures Sum(bs[..j + 1], MomentY) == Sum(bs[..j], MomentY) + bs[j].y * bs[j].mass
  {
    assert bs[..j + 1][..j] == bs[..j];
  }

  /** The divided case of `calculateMass`: the children's masses add up, and a positive total
      divides the sum of the children's mass-weighted centres. */
  method CombineMass(nw: Summary, ne: Summary, sw: Summary, se: Summary) returns (s: Summary)
    ensures s == Combine(nw, ne, sw, se)
  {
    var totalMass := nw.totalMass + ne.totalMass + sw.totalMass + se.totalMass;
    var centerOfMassX, centerOfMassY := 0.0, 0.0;
    if totalMass > 0.0 {
      centerOfMassX := (nw.centerOfMassX * nw.totalMass + ne.centerOfMassX * ne.totalMass +
                        sw.centerOfMassX * sw.totalMass + se.centerOfMassX * se.totalMass) / totalMass;
      centerOfMassY := (nw.centerOfMassY * nw.totalMass + ne.centerOfMassY * ne.totalMass +
                        sw.centerOfMassY * sw.totalMass + se.centerOfMassY * se.totalMass) / totalMass;
    }
    s := Summary(totalMass, centerOfMassX, centerOfMassY);
  }

  // Forces.

  datatype Force = Force(x: real, y: real)

  const NoForce := Force(0.0, 0.0)

  function Add(a: Force, b: Force): Force { Force(a.x + b.x, a.y + b.y) }

  /** The attraction of a point mass `mass` at offset `(dx, dy)` and distance `d` (whose
      square is `d2`) on a particle of mass `m`. */
  function PointForce(g: real, m: real, mass: real, dx: real, dy: real, d2: real, d: real): Force
    requires d2 != 0.0 && d != 0.0
  {
    var force := g * m * mass / d2;
    Force(force * dx / d, force * dy / d)
  }

  /** The force the subtree below node `i` exerts on a particle of mass `m` at `(px, py)`: none
      from a weightless node or one whose centre of mass is closer than 0.1; a leaf, or a node
      whose width over the distance is below `theta`, acts as a point mass at its centre of
      mass; any other node adds up the forces of its four children. */
  function ForceOn(nodes: seq<Node>, summaries: seq<Summary>, i: nat, px: real, py: real, m: real,
                   g: real, theta: real, sqrt: real -> real): Force
    requires i < |nodes| == |summaries| && IsSqrt(sqrt)
    decreases |nodes| - i
  {
    var n, s := nodes[i], summaries[i];
    var dx, dy := s.centerOfMassX - px, s.centerOfMassY - py;
    var d2 := SquaredDistance(dx, dy);
    var d := Root(sqrt, d2);
    Distance(sqrt, dx, dy);
    if s.totalMass == 0.0 || d < 0.1 then NoForce
    else if !n.divided || n.boundary.width / d < theta then PointForce(g, m, s.totalMass, dx, dy, d2, d)
    else if Linked(nodes, i) then
      Add(Add(ForceOn(nodes, summaries, n.northWest, px, py, m, g, theta, sqrt),
              ForceOn(nodes, summaries, n.northEast, px, py, m, g, theta, sqrt)),
          Add(ForceOn(nodes, summaries, n.southWest, px, py, m, g, theta, sqrt),
              ForceOn(nodes, summaries, n.southEast, px, py, m, g, theta, sqrt)))
    else NoForce
  }

  /** A weightless node exerts no force. */
  lemma LightCase(nodes: seq<Node>, summaries: seq<Summary>, i: nat, px: real, py: real, m: real,
                  g: real, theta: real, sqrt: real -> real)
    requires i < |nodes| == |summaries| && IsSqrt(sqrt) && summaries[i].totalMass == 0.0
    ensures ForceOn(nodes, summaries, i, px, py, m, g, theta, sqrt) == NoForce
  {
  }

  /** A node whose centre of mass is closer than 0.1 exerts no force. */
  lemma NearCase(nodes: seq<Node>, summaries: seq<Summary>, i: nat, px: real, py: real, m: real,
                 g: real, theta: real, sqrt: real -> real)
    requires i < |nodes| == |summaries| && IsSqrt(sqrt)
    requires Root(sqrt, SquaredDistance(summaries[i].centerOfMassX - px, summaries[i].centerOfMassY - py)) < 0.1
    ensures ForceOn(nodes, summaries, i, px, py, m, g, theta, sqrt) == NoForce
  {
  }

  /** A heavy node at least 0.1 away that is a leaf or far enough away acts as a point mass. */
  lemma PointCase(nodes: seq<Node>, summaries: seq<Summary>, i: nat, px: real, py: real, m: real,
                  g: real, theta: real, sqrt: real -> real)
    requires i < |nodes| == |summaries| && IsSqrt(sqrt)
    requires var s := summaries[i];
             var d := Root(sqrt, SquaredDistance(s.centerOfMassX - px, s.centerOfMassY - py));
             s.totalMass != 0.0 && d >= 0.1 && (!nodes[i].divided || nodes[i].boundary.width / d < theta)
    ensures var s := summaries[i];
            var dx, dy := s.centerOfMassX - px, s.centerOfMassY - py;
            var d := Root(sqrt, SquaredDistance(dx, dy));
            SquaredDistance(dx, dy) != 0.0 && d != 0.0 &&
            ForceOn(nodes, summaries, i, px, py, m, g, theta, sqrt)
              == PointForce(g, m, s.totalMass, dx, dy, SquaredDistance(dx, dy), d)
  {
    var s := summaries[i];
    Distance(sqrt, s.centerOfMassX - px, s.centerOfMassY - py);
  }

  /** A heavy, divided node at least 0.1 away whose width over the distance reaches `theta`
      adds up the forces of its children. */
  lemma SplitCase(nodes: seq<Node>, summaries: seq<Summary>, i: nat, px: real, py: real, m: real,
                  g: real, theta: real, sqrt: real -> real)
    requires i < |nodes| == |summaries| && IsSqrt(sqrt) && Linked(nodes, i)
    requires var s := summaries[i];
             var d := Root(sqrt, SquaredDistance(s.centerOfMassX - px, s.centerOfMassY - py));
             s.totalMass != 0.0 && d >= 0.1 && nodes[i].divided && nodes[i].boundary.width / d >= theta
    ensures var n := nodes[i];
            ForceOn(nodes, summaries, i, px, py, m, g, theta, sqrt)
              == Add(Add(ForceOn(nodes, summaries, n.northWest, px, py, m, g, theta, sqrt),
                         ForceOn(nodes, summaries, n.northEast, px, py, m, g, theta, sqrt)),
                     Add(ForceOn(nodes, summaries, n.southWest, px, py, m, g, theta, sqrt),
                         ForceOn(nodes, summaries, n.southEast, px, py, m, g, theta, sqrt)))
  {
  }

  /** A point force is parallel to the offset `(dx, dy)` and, for a non-negative `g·m·mass`,
      points the same way (towards the point mass); its magnitude is `g·m·mass/d²`. */
  lemma PointForceAlong(g: real, m: real, mass: real, dx: real, dy: real, d2: real, d: real)
    requires d > 0.0 && d2 > 0.0 && d * d == d2 && d2 == dx * dx + dy * dy
    ensures var f := PointForce(g, m, mass, dx, dy, d2, d);
      f.x * dy == f.y * dx && (g * m * mass >= 0.0 ==> f.x * dx + f.y * dy >= 0.0)
    ensures var f := PointForce(g, m, mass, dx, dy, d2, d);
      f.x * f.x + f.y * f.y == (g * m * mass / d2) * (g * m * mass / d2)
  {
    var force := g * m * mass / d2;
    var c := force / d;
    Scaled(c, dx, dy, d2);
    if g * m * mass >= 0.0 {
      assert force >= 0.0 && c >= 0.0;
    }
    Magnitude(c, dx, dy, d2, d, force);
  }

  /** The multiple `c·(dx, dy)` of an offset is parallel to it, and points the same way when
      `c` is non-negative. */
  lemma Scaled(c: real, dx: real, dy: real, d2: real)
    requires d2 == dx * dx + dy * dy
    ensures (c * dx) * dy == (c * dy) * dx
    ensures (c * dx) * dx + (c * dy) * dy == c * d2
    ensures c >= 0.0 ==> c * d2 >= 0.0
  {
  }

  lemma Magnitude(c: real, dx: real, dy: real, d2: real, d: real, force: real)
    requires d > 0.0 && d * d == d2 && d2 == dx * dx + dy * dy && c == force / d
    ensures (c * dx) * (c * dx) + (c * dy) * (c * dy) == force * force
  {
    assert (c * dx) * (c * dx) + (c * dy) * (c * dy) == (c * c) * d2;
    DivMul(force, d);
    assert c * d == force;
    assert (c * c) * d2 == (c * d) * (c * d);
  }

  lemma SumSingle(b: Body, f: Body -> real)
    ensures Sum([b], f) == f(b)
  {
    assert [b][..0] == [];
  }

  /** A node exerts no force on a particle at its centre of mass, nor when it is weightless. */
  lemma NoForceAtCentre(nodes: seq<Node>, summaries: seq<Summary>, i: nat, m: real, g: real,
                        theta: real, sqrt: real -> real)
    requires i < |nodes| == |summaries| && IsSqrt(sqrt)
    ensures var s := summaries[i];
      ForceOn(nodes, summaries, i, s.centerOfMassX, s.centerOfMassY, m, g, theta, sqrt) == NoForce
  {
    SqrtZero(sqrt);
  }

  /** The summary of a tree holding a single body of non-negative mass is weightless or
      centred at the body. */
  lemma {:induction false} LoneSummary(nodes: seq<Node>, w: seq<seq<Body>>, b: Body)
    requires 0 < |nodes| == |w| && Gathered(nodes, w, 0) == [b] && b.mass >= 0.0
    ensures var s := Aggregate(nodes, w, 0);
      s.totalMass == b.mass && (s.totalMass > 0.0 ==> s.centerOfMassX == b.x && s.centerOfMassY == b.y)
  {
    CentreIsMean(nodes, w, 0);
    SumSingle(b, Mass);
    SumSingle(b, MomentX);
    SumSingle(b, MomentY);
    var s := Aggregate(nodes, w, 0);
    assert s.totalMass == b.mass;
    if b.mass > 0.0 {
      assert s.centerOfMassX == Sum([b], MomentX) / b.mass;
      assert s.centerOfMassY == Sum([b], MomentY) / b.mass;
      MulDiv(b.x, b.mass, b.x * b.mass);
      MulDiv(b.y, b.mass, b.y * b.mass);
    }
  }

  /** A tree holding a single body of non-negative mass exerts no force on that body: either
      the tree is weightless or its centre of mass is the body itself. */
  lemma LoneParticleFeelsNothing(nodes: seq<Node>, w: seq<seq<Body>>, summaries: seq<Summary>,
                                 b: Body, g: real, theta: real, sqrt: real -> real)
    requires 0 < |nodes| == |w| == |summaries| && Summarized(nodes, w, summaries, 0) && IsSqrt(sqrt)
    requires Gathered(nodes, w, 0) == [b] && b.mass >= 0.0
    ensures ForceOn(nodes, summaries, 0, b.x, b.y, b.mass, g, theta, sqrt) == NoForce
  {
    LoneSummary(nodes, w, b);
    var s := summaries[0];
    if s.totalMass != 0.0 {
      NoForceAtCentre(nodes, summaries, 0, b.mass, g, theta, sqrt);
    }
  }

  /** Four forces applied one after the other accelerate like their sum, grouped as the
      traversal adds them up. */
  lemma FourForces(ax: real, ay: real, a: Force, b: Force, c: Force, d: Force, m: real)
    requires m != 0.0
    ensures var total := Add(Add(a, b), Add(c, d));
            Accelerated(Accelerated(Accelerated(Accelerated(ax, a.x, m), b.x, m), c.x, m), d.x, m) ==
              Accelerated(ax, total.x, m) &&
            Accelerated(Accelerated(Accelerated(Accelerated(ay, a.y, m), b.y, m), c.y, m), d.y, m) ==
              Accelerated(ay, total.y, m)
  {
    ForcesAccumulate(ax, a.x, b.x, m);
    ForcesAccumulate(Accelerated(ax, a.x + b.x, m), c.x, d.x, m);
    ForcesAccumulate(ax, a.x + b.x, c.x + d.x, m);
    ForcesAccumulate(ay, a.y, b.y, m);
    ForcesAccumulate(Accelerated(ay, a.y + b.y, m), c.y, d.y, m);
    ForcesAccumulate(ay, a.y + b.y, c.y + d.y, m);
  }

  /** One quadtree: the arena of its nodes, whose root is at index 0, and their summaries. */
  class QuadTree {
    var nodes: seq<Node>
    var summaries: seq<Summary>
    /** The creator of each block of four nodes (see `Shaped`). */
    ghost var owners: seq<nat>

    /** The tree of one empty node over `boundary`. */
    constructor (boundary: Rect, capacity: int32)
      ensures nodes == [Empty(boundary, capacity)] && summaries == [Zero] && owners == []
    {
      nodes := [Empty(boundary, capacity)];
      summaries := [Zero];
      owners := [];
    }

    /** Inserts `particle` below node `n` when the node's region contains it. A leaf with room
        appends it; otherwise the node is subdivided (if it is a leaf) and the particle goes
        to the first quadrant that accepts it. `delta` only serves the proof: unless the node
        has room, the particle must be `delta` away from every particle the tree holds, which
        bounds how deep the insertion can go. */
    method Insert(n: nat, particle: Particle, ghost delta: real) returns (ok: bool)
      requires n < |nodes| && |summaries| == |nodes| && delta > 0.0
      requires Structured(nodes) && Separated(nodes, delta) && Placed(nodes)
      requires HasRoom(nodes[n]) || Apart(particle, nodes, delta)
      requires Shaped(nodes, owners) && Settled(nodes, owners, n)
      modifies this
      decreases Halvings(Size(nodes[n].boundary), delta), 4
      ensures |summaries| == |nodes|
      ensures Structured(nodes) && Separated(nodes, delta) && Placed(nodes)
      ensures Shaped(nodes, owners) && Extended(old(nodes), old(owners), nodes, owners)
      ensures ok == Contains(old(nodes[n].boundary), particle.x, particle.y)
      ensures !ok ==> nodes == old(nodes) && summaries == old(summaries) && owners == old(owners)
      ensures ok ==> Held(nodes) == old(Held(nodes)) + multiset{particle}
      ensures ok && old(HasRoom(nodes[n])) ==>
                nodes == old(nodes[n := nodes[n].(particles := nodes[n].particles + [particle])]) &&
                summaries == old(summaries) && owners == old(owners)
      ensures ok && !old(HasRoom(nodes[n])) ==> nodes[n].divided
      ensures Untouched(old(nodes), old(summaries), nodes, summaries, particle.x, particle.y)
    {
      if !Contains(nodes[n].boundary, particle.x, particle.y) {
        UntouchedSame(nodes, summaries, particle.x, particle.y);
        return false;
      }
      if |nodes[n].particles| < nodes[n].capacity && !nodes[n].divided {
        UntouchedAt(nodes, summaries, n, nodes[n].(particles := nodes[n].particles + [particle]), particle.x, particle.y);
        Store(n, particle, delta);
        return true;
      }
      ok := Descend(n, particle, delta);
    }

    /** The leaf case of `insert`: the leaf `n`, which has room, appends the particle. */
    method Store(n: nat, particle: Particle, ghost delta: real)
      requires n < |nodes| && Structured(nodes) && Separated(nodes, delta) && Placed(nodes)
      requires HasRoom(nodes[n]) && Contains(nodes[n].boundary, particle.x, particle.y)
      requires Shaped(nodes, owners)
      modifies this`nodes
      ensures nodes == old(nodes[n := nodes[n].(particles := nodes[n].particles + [particle])])
      ensures Grown(old(nodes), nodes) && Held(nodes) == old(Held(nodes)) + multiset{particle}
      ensures Structured(nodes) && Separated(nodes, delta) && Placed(nodes)
      ensures Shaped(nodes, owners)
    {
      LeafGrown(nodes, n, particle, delta);
      var next := nodes[n := nodes[n].(particles := nodes[n].particles + [particle])];
      ShapeKept(nodes, next, owners);
      nodes := next;
    }

    /** The rest of `insert`, on a node without room: a leaf is subdivided first, then the
        quadrants are tried. */
    method Descend(n: nat, particle: Particle, ghost delta: real) returns (ok: bool)
      requires n < |nodes| && |summaries| == |nodes| && delta > 0.0
      requires Structured(nodes) && Separated(nodes, delta) && Placed(nodes)
      requires !HasRoom(nodes[n]) && Apart(particle, nodes, delta)
      requires Contains(nodes[n].boundary, particle.x, particle.y)
      requires Shaped(nodes, owners) && Settled(nodes, owners, n)
      modifies this
      decreases Halvings(Size(nodes[n].boundary), delta), 3
      ensures ok && |summaries| == |nodes|
      ensures Structured(nodes) && Separated(nodes, delta) && Placed(nodes)
      ensures Shaped(nodes, owners) && Extended(old(nodes), old(owners), nodes, owners) && nodes[n].divided
      ensures Held(nodes) == old(Held(nodes)) + multiset{particle}
      ensures Untouched(old(nodes), old(summaries), nodes, summaries, particle.x, particle.y)
    {
      ghost var before, was, sums := nodes, owners, summaries;
      UntouchedSame(nodes, summaries, particle.x, particle.y);
      if !nodes[n].divided {
        ValidAt(nodes, n, delta);
        var q := nodes[n].particles[0];
        SizeExceedsGap(nodes[n].boundary, particle.x, particle.y, q.x, q.y, delta);
        assert n !in owners;
        Subdivide(n, delta);
        GrownFromPrefix(before, nodes, n, nodes[n]);
        SettledKept(before, was, nodes, owners, n);
        ApartKept(particle, before, nodes, delta);
        UntouchedSplit(before, sums, nodes, summaries, n, nodes[n], particle.x, particle.y);
      }
      ghost var mid, midOwners, midSums := nodes, owners, summaries;
      ok := InsertIntoQuadrants(n, particle, delta);
      ExtendedTrans(before, was, mid, midOwners, nodes, owners);
      UntouchedTrans(before, sums, mid, midSums, nodes, summaries, particle.x, particle.y);
    }

    /** The tail of `insert` on a divided node: the quadrants are tried in the order NW, NE,
        SW, SE and the first that accepts the particle ends the search. Because the quadrants
        partition the region over exact reals, one of them always accepts it, and the final
        `return false` of the source is unreachable in this model. */
    method InsertIntoQuadrants(n: nat, particle: Particle, ghost delta: real) returns (ok: bool)
      requires n < |nodes| && |summaries| == |nodes| && delta > 0.0 && nodes[n].divided
      requires Structured(nodes) && Separated(nodes, delta) && Placed(nodes)
      requires Contains(nodes[n].boundary, particle.x, particle.y)
      requires Apart(particle, nodes, delta)
      requires Shaped(nodes, owners) && Settled(nodes, owners, n)
      modifies this
      decreases Halvings(Size(nodes[n].boundary), delta), 2
      ensures ok
      ensures |summaries| == |nodes|
      ensures Structured(nodes) && Separated(nodes, delta) && Placed(nodes)
      ensures Shaped(nodes, owners) && Extended(old(nodes), old(owners), nodes, owners)
      ensures Held(nodes) == old(Held(nodes)) + multiset{particle}
      ensures Untouched(old(nodes), old(summaries), nodes, summaries, particle.x, particle.y)
    {
      var node := nodes[n];
      ValidAt(nodes, n, delta);
      ChildSettled(nodes, owners, n);
      HalvingsDrop(node.boundary, delta);
      QuadrantsPartition(node.boundary, particle.x, particle.y);
      ok := Insert(node.northWest, particle, delta);
      if ok {
        return;
      }
      ok := Insert(node.northEast, particle, delta);
      if ok {
        return;
      }
      ok := Insert(node.southWest, particle, delta);
      if ok {
        return;
      }
      ok := Insert(node.southEast, particle, delta);
      if ok {
        return;
      }
      assert false;
    }
    /** Splits the full leaf `n`: four empty quadrants are appended to the arena, the node's
        particles are moved into them, each to the first quadrant that accepts it, and the
        node becomes divided and holds no particles itself. */
    method Subdivide(n: nat, ghost delta: real)
      requires n < |nodes| && |summaries| == |nodes| && delta > 0.0
      requires Structured(nodes) && Separated(nodes, delta) && Placed(nodes)
      requires !nodes[n].divided && |nodes[n].particles| == nodes[n].capacity
      requires Size(nodes[n].boundary) > delta
      requires Shaped(nodes, owners) && n !in owners
      modifies this
      decreases Halvings(Size(nodes[n].boundary), delta), 2
      ensures |nodes| == old(|nodes|) + 4 && summaries == old(summaries) + [Zero, Zero, Zero, Zero]
      ensures nodes[..old(|nodes|)] == old(nodes[n := Linked4(nodes, n).(particles := [], divided := true)])
      ensures Structured(nodes) && Separated(nodes, delta) && Placed(nodes)
      ensures Held(nodes) == old(Held(nodes))
      ensures owners == old(owners) + [n] && Shaped(nodes, owners)
    {
      var r := nodes[n].boundary;
      var capacity := nodes[n].capacity;
      var first := |nodes|;
      var ps := nodes[n].particles;
      ghost var before := nodes;
      ValidAt(nodes, n, delta);
      assert forall q :: q in ps ==> Contains(r, q.x, q.y);
      Branch(n, delta);
      Scatter(first, ps, r, capacity, delta);
      Settle(n, before, delta);
    }

    /** The first half of `subdivide`: the four empty quadrants of leaf `n` are appended to
        the arena and linked as its children. */
    method Branch(n: nat, ghost delta: real)
      requires n < |nodes| && |summaries| == |nodes| && !nodes[n].divided
      requires Structured(nodes) && Separated(nodes, delta) && Placed(nodes)
      requires Shaped(nodes, owners) && n !in owners
      modifies this`nodes, this`summaries, this`owners
      ensures nodes == old(nodes)[n := Linked4(old(nodes), n)] + Sprouts(old(nodes)[n].boundary, old(nodes)[n].capacity)
      ensures summaries == old(summaries) + [Zero, Zero, Zero, Zero]
      ensures Structured(nodes) && Separated(nodes, delta) && Placed(nodes) && Held(nodes) == old(Held(nodes))
      ensures Quartered(nodes, old(|nodes|), old(nodes)[n].boundary, old(nodes)[n].capacity)
      ensures Filled(nodes, old(|nodes|)) == 0
      ensures owners == old(owners) + [n] && Shaped(nodes, owners)
    {
      ghost var before := nodes;
      var r := nodes[n].boundary;
      var capacity := nodes[n].capacity;
      var first := |nodes|;
      nodes := nodes[n := nodes[n].(northWest := first, northEast := first + 1,
                                    southWest := first + 2, southEast := first + 3)] +
               [Empty(NorthWest(r), capacity), Empty(NorthEast(r), capacity),
                Empty(SouthWest(r), capacity), Empty(SouthEast(r), capacity)];
      summaries := summaries + [Zero, Zero, Zero, Zero];
      Sprouted(before, nodes, n, delta);
      BranchShape(before, owners, n, nodes);
      owners := owners + [n];
    }

    /** The last step of `subdivide`: once its particles are in its quadrants, leaf `n` is
        marked divided and its own list is emptied. */
    method Settle(n: nat, ghost before: seq<Node>, ghost delta: real)
      requires n < |before| && |nodes| == |before| + 4 && nodes[..|before|] == before[n := Linked4(before, n)]
      requires Structured(nodes) && Separated(nodes, delta) && Placed(nodes)
      requires Quartered(nodes, |before|, before[n].boundary, before[n].capacity)
      requires Held(nodes) == Held(before) + multiset(before[n].particles)
      requires !before[n].divided && Size(before[n].boundary) > delta
      requires Shaped(nodes, owners) && 0 < |owners| && owners[|owners| - 1] == n
      modifies this`nodes
      ensures nodes == old(nodes)[n := old(nodes)[n].(divided := true, particles := [])]
      ensures Structured(nodes) && Separated(nodes, delta) && Placed(nodes) && Held(nodes) == Held(before)
      ensures nodes[..|before|] == before[n := Linked4(before, n).(particles := [], divided := true)]
      ensures Shaped(nodes, owners)
    {
      Subdivided(before, nodes, n, delta);
      SettleShape(nodes, owners, n);
      nodes := nodes[n := nodes[n].(divided := true, particles := [])];
    }

    /** Stores in every node of the subtree below `i` its total mass and centre of mass. A
        leaf sums the masses and moments of its particles and divides the moments by a
        positive total; a divided node first summarizes its four children and then combines
        their summaries. Entries outside the subtree can only be rewritten with their own
        computed summary. */
    method CalculateMass(i: nat, ghost w: seq<seq<Body>>)
      requires i < |nodes| && |summaries| == |nodes| && Structured(nodes) && Pictures(nodes, w)
      modifies this`summaries
      decreases |nodes| - i
      ensures Refreshed(nodes, w, old(summaries), summaries) && Summarized(nodes, w, summaries, i)
    {
      var n := nodes[i];
      StructuredAt(nodes, i);
      if !n.divided {
        SummarizeLeaf(i, w);
      } else {
        ghost var s0 := summaries;
        CalculateMass(n.northWest, w);
        ghost var s1 := summaries;
        CalculateMass(n.northEast, w);
        ghost var s2 := summaries;
        CalculateMass(n.southWest, w);
        ghost var s3 := summaries;
        CalculateMass(n.southEast, w);
        Collected(nodes, w, i, s0, s1, s2, s3, summaries);
        ghost var s4 := summaries;
        SummarizeParent(i, w);
        RefreshedTrans(nodes, w, s0, s4, summaries);
      }
    }

    /** The leaf case of `calculateMass`: the node's own particles are summed. */
    method SummarizeLeaf(i: nat, ghost w: seq<seq<Body>>)
      requires i < |nodes| && |summaries| == |nodes| && Pictures(nodes, w) && !nodes[i].divided
      modifies this`summaries
      ensures Refreshed(nodes, w, old(summaries), summaries) && Summarized(nodes, w, summaries, i)
    {
      var s := LeafMass(nodes[i].particles);
      PicturesAt(nodes, w, i);
      LeafSummarized(nodes, w, summaries, i, s);
      summaries := summaries[i := s];
    }

    /** The divided case of `calculateMass`, once the four children are summarized: their
        summaries are combined. */
    method SummarizeParent(i: nat, ghost w: seq<seq<Body>>)
      requires i < |nodes| == |w| && |summaries| == |nodes| && Linked(nodes, i)
      requires Summarized(nodes, w, summaries, nodes[i].northWest)
      requires Summarized(nodes, w, summaries, nodes[i].northEast)
      requires Summarized(nodes, w, summaries, nodes[i].southWest)
      requires Summarized(nodes, w, summaries, nodes[i].southEast)
      modifies this`summaries
      ensures Refreshed(nodes, w, old(summaries), summaries) && Summarized(nodes, w, summaries, i)
    {
      var n := nodes[i];
      var s := CombineMass(summaries[n.northWest], summaries[n.northEast],
                           summaries[n.southWest], summaries[n.southEast]);
      Assembled(nodes, w, summaries, i, s);
      summaries := summaries[i := s];
    }

    /** Adds to the acceleration buffer of `particle` the force of the subtree below node `i`
        (see `ForceOn`), one point-mass contribution at a time; nothing else changes. */
    method CalculateForce(i: nat, particle: Particle, g: real, theta: real, sqrt: real -> real)
      requires i < |nodes| == |summaries| && Structured(nodes) && IsSqrt(sqrt) && particle.mass != 0.0
      modifies particle`ax, particle`ay
      decreases |nodes| - i
      ensures particle.ax == Accelerated(old(particle.ax), ForceOn(nodes, summaries, i, particle.x, particle.y,
                                                                    particle.mass, g, theta, sqrt).x, particle.mass)
      ensures particle.ay == Accelerated(old(particle.ay), ForceOn(nodes, summaries, i, particle.x, particle.y,
                                                                    particle.mass, g, theta, sqrt).y, particle.mass)
    {
      var s := summaries[i];
      if s.totalMass == 0.0 {
        LightCase(nodes, summaries, i, particle.x, particle.y, particle.mass, g, theta, sqrt);
        return;
      }
      var dx := s.centerOfMassX - particle.x;
      var dy := s.centerOfMassY - particle.y;
      var distanceSquared := SquaredDistance(dx, dy);
      var distance := Root(sqrt, distanceSquared);
      if distance < 0.1 {
        NearCase(nodes, summaries, i, particle.x, particle.y, particle.mass, g, theta, sqrt);
        return;
      }
      var n := nodes[i];
      if !n.divided || n.boundary.width / distance < theta {
        PointCase(nodes, summaries, i, particle.x, particle.y, particle.mass, g, theta, sqrt);
        var f := PointForce(g, particle.mass, s.totalMass, dx, dy, distanceSquared, distance);
        particle.ApplyForce(f.x, f.y);
      } else {
        StructuredAt(nodes, i);
        ghost var x, y, m := particle.x, particle.y, particle.mass;
        SplitCase(nodes, summaries, i, x, y, m, g, theta, sqrt);
        ghost var a := ForceOn(nodes, summaries, n.northWest, x, y, m, g, theta, sqrt);
        ghost var b := ForceOn(nodes, summaries, n.northEast, x, y, m, g, theta, sqrt);
        ghost var c := ForceOn(nodes, summaries, n.southWest, x, y, m, g, theta, sqrt);
        ghost var d := ForceOn(nodes, summaries, n.southEast, x, y, m, g, theta, sqrt);
        ghost var ax, ay := particle.ax, particle.ay;
        CalculateForce(n.northWest, particle, g, theta, sqrt);
        CalculateForce(n.northEast, particle, g, theta, sqrt);
        CalculateForce(n.southWest, particle, g, theta, sqrt);
        CalculateForce(n.southEast, particle, g, theta, sqrt);
        FourForces(ax, ay, a, b, c, d, m);
      }
    }

    /** The loop of `subdivide`: each particle of `ps`, all of which lie in `r`, goes to the
        first of the four quadrants of `r` at the end of the arena that accepts it. */
    method Scatter(first: nat, ps: seq<Particle>, ghost r: Rect, ghost capacity: int32,
                   ghost delta: real)
      requires first + 4 == |nodes| && |summaries| == |nodes| && delta > 0.0 && Size(r) > delta
      requires Structured(nodes) && Separated(nodes, delta) && Placed(nodes)
      requires Quartered(nodes, first, r, capacity) && Filled(nodes, first) == 0
      requires |ps| <= capacity && forall q :: q in ps ==> Contains(r, q.x, q.y)
      requires Shaped(nodes, owners)
      modifies this
      decreases Halvings(Size(r), delta), 1
      ensures |nodes| == first + 4 && nodes[..first] == old(nodes[..first])
      ensures summaries == old(summaries) && Quartered(nodes, first, r, capacity)
      ensures Structured(nodes) && Separated(nodes, delta) && Placed(nodes)
      ensures Held(nodes) == old(Held(nodes)) + multiset(ps)
      ensures Shaped(nodes, owners) && owners == old(owners)
    {
      ghost var held := Held(nodes);
      ghost var prefix := nodes[..first];
      assert ps[..0] == [];
      var i := 0;
      while i < |ps|
        invariant 0 <= i <= |ps| && |nodes| == first + 4 && nodes[..first] == prefix
        invariant summaries == old(summaries)
        invariant Quartered(nodes, first, r, capacity) && Filled(nodes, first) == i
        invariant Held(nodes) == held + multiset(ps[..i])
        invariant Structured(nodes) && Separated(nodes, delta) && Placed(nodes)
        invariant Shaped(nodes, owners) && owners == old(owners)
      {
        assert ps[i] in ps;
        ghost var h0 := Held(nodes);
        ghost var j := Reinsert(first, 0, ps[i], r, capacity, delta);
        HeldStep(h0, Held(nodes), held, ps, i);
        i := i + 1;
      }
      assert ps[..i] == ps;
    }

    /** One step of the loop of `subdivide`, from quadrant `k` on (0 to 3 for NW, NE, SW, SE):
        the particle, which lies in `r` but in none of the quadrants before `k`, goes to the
        first of the four fresh quadrants of `r` at the end of the arena that accepts it. Each
        quadrant still has room, so exactly one of them takes it, as its last particle. */
    method Reinsert(first: nat, k: nat, p: Particle, ghost r: Rect, ghost capacity: int32, ghost delta: real)
        returns (ghost j: nat)
      requires first + 4 == |nodes| && |summaries| == |nodes| && delta > 0.0 && Size(r) > delta && k < 4
      requires Structured(nodes) && Separated(nodes, delta) && Placed(nodes)
      requires Contains(r, p.x, p.y)
      requires forall i :: first <= i < first + k ==> !Contains(nodes[i].boundary, p.x, p.y)
      requires Quartered(nodes, first, r, capacity) && Filled(nodes, first) < capacity
      requires Shaped(nodes, owners)
      modifies this
      decreases Halvings(Size(r), delta), 0, 4 - k
      ensures first + k <= j < first + 4 && Contains(old(nodes)[j].boundary, p.x, p.y)
      ensures forall i :: first + k <= i < j ==> !Contains(old(nodes)[i].boundary, p.x, p.y)
      ensures nodes == old(nodes)[j := old(nodes)[j].(particles := old(nodes)[j].particles + [p])]
      ensures summaries == old(summaries)
      ensures Structured(nodes) && Separated(nodes, delta) && Placed(nodes)
      ensures Held(nodes) == old(Held(nodes)) + multiset{p}
      ensures nodes[..first] == old(nodes[..first]) && Quartered(nodes, first, r, capacity)
      ensures Filled(nodes, first) == old(Filled(nodes, first)) + 1
      ensures Shaped(nodes, owners) && owners == old(owners)
    {
      LateSettled(nodes, owners, first + k);
      HalvingsDrop(r, delta);
      var ok := Insert(first + k, p, delta);
      if ok {
        j := first + k;
        Refilled(old(nodes), j, p, first, r, capacity);
      } else {
        QuadrantsPartition(r, p.x, p.y);
        j := Reinsert(first, k + 1, p, r, capacity, delta);
      }
    }
  }

}
