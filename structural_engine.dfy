/**
 * The deterministic voxel stability engine: which confirmed cubes are
 * connected, through face- or edge-adjacent cubes, to a cube resting on the
 * ground.
 */
module StructuralEngine {
  import opened Basics
  import opened Materials

  /** The `status` property of a cube record; `Unset` is a record without one. */
  datatype Status = Draft | Confirmed | Unset

  /**
   * A cube record. `Placed` is a cube created by placement, with its centre
   * and material. `Bare` is a record holding only an id (and possibly a
   * status): its coordinates are `undefined`, so every comparison of them
   * is false and it is never on the ground nor adjacent to anything.
   */
  datatype Cube =
    | Placed(id: int, x: real, y: real, z: real, material: Material, status: Status)
    | Bare(id: int, status: Status)

  /** The centre height of a cube lying on the ground plane. */
  const GROUND_Y: real := 0.5

  function Abs(d: real): real {
    if d < 0.0 then -d else d
  }

  /**
   * Offsets of one unit along exactly one axis (face) or exactly two axes
   * (edge). Read per axis: every offset is 0 or 1 and one or two of them
   * are 1, so a cube is never adjacent to its own cell, nor to a cube
   * touching it only at a corner.
   */
  predicate AreFaceAdjacent(a: Cube, b: Cube)
    ensures AreFaceAdjacent(a, b) <==>
      a.Placed? && b.Placed? &&
      IsUnitOrZero(Abs(a.x - b.x)) && IsUnitOrZero(Abs(a.y - b.y)) && IsUnitOrZero(Abs(a.z - b.z)) &&
      1.0 <= Abs(a.x - b.x) + Abs(a.y - b.y) + Abs(a.z - b.z) <= 2.0
  {
    a.Placed? && b.Placed? &&
    var dx, dy, dz := Abs(a.x - b.x), Abs(a.y - b.y), Abs(a.z - b.z);
    var face := (dx == 1.0 && dy == 0.0 && dz == 0.0)
      || (dx == 0.0 && dy == 1.0 && dz == 0.0)
      || (dx == 0.0 && dy == 0.0 && dz == 1.0);
    var edge := (dx == 1.0 && dy == 1.0 && dz == 0.0)
      || (dx == 1.0 && dy == 0.0 && dz == 1.0)
      || (dx == 0.0 && dy == 1.0 && dz == 1.0);
    face || edge
  }

  predicate IsUnitOrZero(d: real) {
    d == 0.0 || d == 1.0
  }

  lemma AdjacencySymmetric(a: Cube, b: Cube)
    ensures AreFaceAdjacent(a, b) <==> AreFaceAdjacent(b, a)
  {
  }

  lemma NotSelfAdjacent(a: Cube)
    ensures !AreFaceAdjacent(a, a)
  {
  }

  /** Every cube of `cs` with another id that is adjacent to `c`, in the order of `cs`. */
  function Neighbors(c: Cube, cs: seq<Cube>): (r: seq<Cube>)
    ensures forall o :: o in r <==> o in cs && o.id != c.id && AreFaceAdjacent(c, o)
  {
    var adjacent := (o: Cube) => o.id != c.id && AreFaceAdjacent(c, o);
    FilterMembers(cs, adjacent);
    Filter(cs, adjacent)
  }

  predicate TouchesGround(c: Cube) {
    c.Placed? && c.y == GROUND_Y
  }

  /** The last cube of `cs` carrying `id`: the one whose neighbour list a keyed map keeps. */
  function LastWithId(cs: seq<Cube>, id: int): (r: Option<Cube>)
    ensures r.Some? ==> r.value in cs && r.value.id == id
    ensures r.Some? ==> exists i :: 0 <= i < |cs| && cs[i] == r.value && forall j :: i < j < |cs| ==> cs[j].id != id
    ensures r.None? ==> forall c :: c in cs ==> c.id != id
  {
    if cs == [] then None
    else if cs[|cs| - 1].id == id then Some(cs[|cs| - 1])
    else LastWithId(cs[..|cs| - 1], id)
  }

  /** What the adjacency map yields for `id`, an empty list when no cube has it. */
  function AdjacencyOf(cs: seq<Cube>, id: int): (r: seq<Cube>)
    ensures forall n :: n in r ==> n in cs
  {
    match LastWithId(cs, id)
    case None => []
    case Some(c) => Neighbors(c, cs)
  }

  /** The ids carried by the cubes of `cs`. */
  function IdSet(cs: seq<Cube>): set<int> {
    set c | c in cs :: c.id
  }

  function GroundIds(cs: seq<Cube>): (s: set<int>)
    ensures s <= IdSet(cs)
  {
    set c | c in cs && TouchesGround(c) :: c.id
  }

  /** No id in `S` has a neighbour whose id lies outside `S`. */
  ghost predicate Closed(cs: seq<Cube>, S: set<int>) {
    forall a, n {:trigger n in AdjacencyOf(cs, a)} :: a in S && n in AdjacencyOf(cs, a) ==> n.id in S
  }

  /** The ids one step away from `S`. */
  function Expand(cs: seq<Cube>, S: set<int>): (e: set<int>)
    ensures e <= IdSet(cs)
  {
    set a, n | a in S && n in AdjacencyOf(cs, a) :: n.id
  }

  lemma CardShrinks(U: set<int>, A: set<int>, B: set<int>)
    requires A < B <= U
    ensures |U - B| < |U - A|
  {
    var D := B - A;
    assert B == A + D;
    assert D != {};
    assert U - A == (U - B) + D;
    assert (U - B) * D == {};
  }

  /** The smallest closed set of ids containing `S`. */
  function Grow(cs: seq<Cube>, S: set<int>): (r: set<int>)
    requires S <= IdSet(cs)
    ensures S <= r <= IdSet(cs)
    ensures Closed(cs, r)
    decreases |IdSet(cs) - S|
  {
    var next := S + Expand(cs, S);
    if next == S then S
    else
      CardShrinks(IdSet(cs), S, next);
      Grow(cs, next)
  }

  /** The ids reached from the ground cubes. */
  function SupportedIds(cs: seq<Cube>): set<int> {
    Grow(cs, GroundIds(cs))
  }

  /** `c => S.has(c.id)` */
  function HasIdIn(S: set<int>): Cube -> bool {
    (c: Cube) => c.id in S
  }

  /** `c => !S.has(c.id)` */
  function HasIdOutside(S: set<int>): Cube -> bool {
    (c: Cube) => c.id !in S
  }

  /** The cubes whose id is in `S`, in input order. */
  function Keep(cs: seq<Cube>, S: set<int>): (r: seq<Cube>)
    ensures forall c :: c in r <==> c in cs && c.id in S
  {
    FilterMembers(cs, HasIdIn(S));
    Filter(cs, HasIdIn(S))
  }

  /** The cubes whose id is not in `S`, in input order. */
  function Drop(cs: seq<Cube>, S: set<int>): (r: seq<Cube>)
    ensures forall c :: c in r <==> c in cs && c.id !in S
  {
    FilterMembers(cs, HasIdOutside(S));
    Filter(cs, HasIdOutside(S))
  }

  datatype Partition = Partition(supported: seq<Cube>, unstable: seq<Cube>)

  /**
   * The result of a stability check: the cubes whose id is reached from the
   * ground and the others, each in input order. Together they are the input.
   */
  function Validate(cs: seq<Cube>): (r: Partition)
    ensures forall c :: c in r.supported <==> c in cs && c.id in SupportedIds(cs)
    ensures forall c :: c in r.unstable <==> c in cs && c.id !in SupportedIds(cs)
  {
    if |cs| == 0 then Partition([], [])
    else
      var R := SupportedIds(cs);
      Partition(Keep(cs, R), Drop(cs, R))
  }

  /**
   * The two lists of a stability check together hold every input cube, each
   * once; an empty input gives two empty lists.
   */
  lemma ValidatePartitions(cs: seq<Cube>)
    ensures multiset(Validate(cs).supported) + multiset(Validate(cs).unstable) == multiset(cs)
    ensures |Validate(cs).supported| + |Validate(cs).unstable| == |cs|
    ensures cs == [] ==> Validate(cs) == Partition([], [])
  {
    var v := Validate(cs);
    if |cs| > 0 {
      var R := SupportedIds(cs);
      FilterSplits(cs, HasIdIn(R), HasIdOutside(R));
    }
    assert |multiset(v.supported) + multiset(v.unstable)| == |multiset(cs)|;
  }

  function IsStructureStable(cs: seq<Cube>): (b: bool)
    ensures b <==> forall c :: c in cs ==> c in Validate(cs).supported
  {
    var u := Validate(cs).unstable;
    assert |u| != 0 ==> u[0] in u;
    |u| == 0
  }

  /**
   * `unstable.map(cube => cube.id)`: the ids of the unstable cubes, in input
   * order. They are the input ids the search does not reach, and there are
   * none exactly when the structure is stable.
   */
  function UnstableCubeIds(cs: seq<Cube>): (r: seq<int>)
    ensures forall id :: id in r <==> id in IdSet(cs) && id !in SupportedIds(cs)
    ensures r == [] <==> IsStructureStable(cs)
  {
    var u := Validate(cs).unstable;
    IdListMembers(u);
    assert IdSet(u) == IdSet(cs) - SupportedIds(cs);
    IdList(u)
  }

  /** `cubes.map(c => c.id)` */
  function IdList(u: seq<Cube>): (r: seq<int>)
    ensures |r| == |u| && forall i :: 0 <= i < |u| ==> r[i] == u[i].id
  {
    seq(|u|, i requires 0 <= i < |u| => u[i].id)
  }

  lemma IdListMembers(u: seq<Cube>)
    ensures forall id :: id in IdList(u) <==> id in IdSet(u)
  {
    var r := IdList(u);
    forall id | id in IdSet(u) ensures id in r {
      var c :| c in u && c.id == id;
      var i :| 0 <= i < |u| && u[i] == c;
      assert r[i] == id;
    }
  }

  /** Dropping the cubes whose id the stability check lists as unstable leaves the supported list. */
  lemma DropUnstableKeepsSupported(cs: seq<Cube>)
    ensures Drop(cs, Elements(UnstableCubeIds(cs))) == Validate(cs).supported
  {
    var U, R := Elements(UnstableCubeIds(cs)), SupportedIds(cs);
    if cs == [] {
      FilterNone(cs, HasIdOutside(U));
    } else {
      forall c | c in cs ensures HasIdOutside(U)(c) == HasIdIn(R)(c) {
        assert c.id in IdSet(cs);
      }
      FilterCongruent(cs, HasIdOutside(U), HasIdIn(R));
    }
  }

  /** Dropping ids that cover all of `b` from `a + b` drops only from `a`. */
  lemma DropCovered(a: seq<Cube>, b: seq<Cube>, S: set<int>)
    requires IdSet(b) <= S
    ensures Drop(a + b, S) == Drop(a, S)
  {
    FilterAppend(a, b, HasIdOutside(S));
    forall c | c in b ensures !HasIdOutside(S)(c) {
      assert c.id in IdSet(b);
    }
    FilterNone(b, HasIdOutside(S));
  }

  // ---- Reachability lemmas ----

  /** `Grow(cs, S)` lies inside every closed set that contains `S`. */
  lemma {:induction false} GrowLeast(cs: seq<Cube>, S: set<int>, T: set<int>)
    requires S <= IdSet(cs) && S <= T && Closed(cs, T)
    ensures Grow(cs, S) <= T
    decreases |IdSet(cs) - S|
  {
    var next := S + Expand(cs, S);
    if next != S {
      CardShrinks(IdSet(cs), S, next);
      GrowLeast(cs, next, T);
    }
  }

  /**
   * A support path: it starts at a ground cube of `cs` and each step moves to
   * a cube in the adjacency-map entry of the previous cube's id.
   */
  ghost predicate IsSupportPath(cs: seq<Cube>, p: seq<Cube>) {
    |p| > 0 && p[0] in cs && TouchesGround(p[0]) &&
    forall i :: 0 <= i < |p| - 1 ==> Step(cs, p[i], p[i + 1])
  }

  /** `b` is listed in the adjacency-map entry of `a`'s id. */
  ghost predicate Step(cs: seq<Cube>, a: Cube, b: Cube) {
    b in AdjacencyOf(cs, a.id)
  }

  ghost predicate HasPath(cs: seq<Cube>, id: int) {
    exists p: seq<Cube> :: IsSupportPath(cs, p) && p[|p| - 1].id == id
  }

  /** Every support path ends at a supported id. */
  lemma {:induction false} PathsAreSupported(cs: seq<Cube>, p: seq<Cube>)
    requires IsSupportPath(cs, p)
    ensures p[|p| - 1].id in SupportedIds(cs)
    decreases |p|
  {
    if |p| > 1 {
      var q := p[..|p| - 1];
      assert IsSupportPath(cs, q) by {
        forall i | 0 <= i < |q| - 1 ensures Step(cs, q[i], q[i + 1]) {
          assert q[i + 1] == p[i + 1] && q[i] == p[i];
        }
      }
      PathsAreSupported(cs, q);
      assert p[|p| - 1] in AdjacencyOf(cs, q[|q| - 1].id);
    }
  }

  /** Growing a set of ids that all have support paths gives ids that all have them. */
  lemma {:induction false} GrowKeepsPaths(cs: seq<Cube>, S: set<int>)
    requires S <= IdSet(cs)
    requires forall id :: id in S ==> HasPath(cs, id)
    ensures forall id :: id in Grow(cs, S) ==> HasPath(cs, id)
    decreases |IdSet(cs) - S|
  {
    var next := S + Expand(cs, S);
    if next != S {
      forall id | id in Expand(cs, S) ensures HasPath(cs, id) {
        var a: int, n: Cube :| a in S && n in AdjacencyOf(cs, a) && n.id == id;
        ExtendPath(cs, a, n);
      }
      CardShrinks(IdSet(cs), S, next);
      GrowKeepsPaths(cs, next);
    }
  }

  /** A support path to `a` followed by a cube of `a`'s adjacency entry is a support path. */
  lemma ExtendPath(cs: seq<Cube>, a: int, n: Cube)
    requires HasPath(cs, a) && n in AdjacencyOf(cs, a)
    ensures HasPath(cs, n.id)
  {
    var p: seq<Cube> :| IsSupportPath(cs, p) && p[|p| - 1].id == a;
    var p' := p + [n];
    assert IsSupportPath(cs, p') by {
      forall i | 0 <= i < |p'| - 1 ensures Step(cs, p'[i], p'[i + 1]) {
        if i < |p| - 1 {
          assert p'[i + 1] == p[i + 1] && p'[i] == p[i];
        }
      }
    }
    assert p'[|p'| - 1] == n;
  }

  /** The supported ids are exactly the ends of support paths. */
  lemma SupportedIffPath(cs: seq<Cube>, id: int)
    ensures id in SupportedIds(cs) <==> HasPath(cs, id)
  {
    forall g | g in GroundIds(cs) ensures HasPath(cs, g) {
      var c :| c in cs && TouchesGround(c) && c.id == g;
      assert IsSupportPath(cs, [c]);
    }
    GrowKeepsPaths(cs, GroundIds(cs));
    if HasPath(cs, id) {
      var p: seq<Cube> :| IsSupportPath(cs, p) && p[|p| - 1].id == id;
      PathsAreSupported(cs, p);
    }
  }

  // ---- The same facts stated on cube positions, for inputs with distinct ids ----

  predicate UniqueIds(cs: seq<Cube>) {
    forall i, j :: 0 <= i < j < |cs| ==> cs[i].id != cs[j].id
  }

  lemma {:induction false} LastWithIdUnique(cs: seq<Cube>, c: Cube)
    requires UniqueIds(cs) && c in cs
    ensures LastWithId(cs, c.id) == Some(c)
  {
    var n := |cs| - 1;
    if cs[n] != c {
      var j :| 0 <= j < |cs| && cs[j] == c;
      assert j < n;
      var prefix := cs[..n];
      assert prefix[j] == c;
      LastWithIdUnique(prefix, c);
    }
  }

  /** With distinct ids, the adjacency-map entry of a cube lists exactly the cubes adjacent to it. */
  lemma AdjacencyOfUnique(cs: seq<Cube>, a: Cube, b: Cube)
    requires UniqueIds(cs) && a in cs
    ensures b in AdjacencyOf(cs, a.id) <==> b in cs && AreFaceAdjacent(a, b)
  {
    LastWithIdUnique(cs, a);
    if b in cs && b.id == a.id {
      SameIdSameCube(cs, a, b);
      NotSelfAdjacent(a);
    }
  }

  lemma SameIdSameCube(cs: seq<Cube>, a: Cube, b: Cube)
    requires UniqueIds(cs) && a in cs && b in cs && a.id == b.id
    ensures a == b
  {
    var i :| 0 <= i < |cs| && cs[i] == a;
    var j :| 0 <= j < |cs| && cs[j] == b;
    assert !(i < j) && !(j < i);
  }

  /** A path of cubes of `cs`, starting on the ground, each adjacent to the next. */
  ghost predicate IsAdjacentPath(cs: seq<Cube>, p: seq<Cube>) {
    |p| > 0 && TouchesGround(p[0]) &&
    (forall i :: 0 <= i < |p| ==> p[i] in cs) &&
    forall i :: 0 <= i < |p| - 1 ==> AreFaceAdjacent(p[i], p[i + 1])
  }

  /** With distinct ids: a cube is supported exactly when an adjacency path leads to it from the ground. */
  lemma SupportedIffAdjacentPath(cs: seq<Cube>, c: Cube)
    requires UniqueIds(cs) && c in cs
    ensures c in Validate(cs).supported <==> exists p: seq<Cube> :: IsAdjacentPath(cs, p) && p[|p| - 1] == c
  {
    SupportedIffPath(cs, c.id);
    if c in Validate(cs).supported {
      var p: seq<Cube> :| IsSupportPath(cs, p) && p[|p| - 1].id == c.id;
      SupportPathIsAdjacent(cs, p);
      var i :| 0 <= i < |cs| && cs[i] == c;
      var j :| 0 <= j < |cs| && cs[j] == p[|p| - 1];
      assert i == j;
    }
    if exists p: seq<Cube> :: IsAdjacentPath(cs, p) && p[|p| - 1] == c {
      var p: seq<Cube> :| IsAdjacentPath(cs, p) && p[|p| - 1] == c;
      assert IsSupportPath(cs, p) by {
        forall i | 0 <= i < |p| - 1 ensures Step(cs, p[i], p[i + 1]) {
          AdjacencyOfUnique(cs, p[i], p[i + 1]);
        }
      }
    }
  }

  lemma SupportPathIsAdjacent(cs: seq<Cube>, p: seq<Cube>)
    requires UniqueIds(cs) && IsSupportPath(cs, p)
    ensures IsAdjacentPath(cs, p)
  {
    forall i | 0 <= i < |p| ensures p[i] in cs {
      if i > 0 {
        assert p[i] in AdjacencyOf(cs, p[i - 1].id);
      }
    }
    forall i | 0 <= i < |p| - 1 ensures AreFaceAdjacent(p[i], p[i + 1]) {
      assert p[i] in cs;
      AdjacencyOfUnique(cs, p[i], p[i + 1]);
    }
  }

  /** Cubes resting on the ground are always supported. */
  lemma GroundCubesSupported(cs: seq<Cube>, c: Cube)
    requires c in cs && TouchesGround(c)
    ensures c in Validate(cs).supported
  {
    assert c.id in GroundIds(cs);
  }

  /** With distinct ids, a cube adjacent to a supported cube is supported too. */
  lemma SupportSpreads(cs: seq<Cube>, a: Cube, b: Cube)
    requires UniqueIds(cs) && a in Validate(cs).supported && b in cs && AreFaceAdjacent(a, b)
    ensures b in Validate(cs).supported
  {
    AdjacencyOfUnique(cs, a, b);
  }

  /** A cube above the ground with no neighbours is unstable. */
  lemma FloatingCubeUnstable(c: Cube)
    requires c.Placed? && c.y != GROUND_Y
    ensures Validate([c]).unstable == [c]
    ensures !IsStructureStable([c])
  {
    assert GroundIds([c]) == {};
    assert Expand([c], {}) == {};
    assert SupportedIds([c]) == {};
    assert Drop([c], {}) == [c];
  }

  /** A cube diagonally above a ground cube (one unit over and one up) is held by it. */
  lemma DiagonalCubeSupported(g: Cube, c: Cube)
    requires g.Placed? && g.y == GROUND_Y
    requires c.Placed? && c.id != g.id && c.x == g.x + 1.0 && c.y == g.y + 1.0 && c.z == g.z
    ensures IsStructureStable([g, c])
  {
    var cs := [g, c];
    assert LastWithId(cs, g.id) == Some(g);
    assert c in Neighbors(g, cs);
    assert IsSupportPath(cs, [g, c]);
    PathsAreSupported(cs, [g, c]);
    assert g.id in GroundIds(cs);
  }

  // ---- The breadth-first search as written ----

  lemma QueuePush(q: seq<Cube>, c: Cube)
    ensures IdSet(q + [c]) == IdSet(q) + {c.id}
  {
    assert forall d :: d in q + [c] <==> d in q || d == c;
  }

  lemma QueueShift(q: seq<Cube>)
    requires q != []
    ensures IdSet(q) == {q[0].id} + IdSet(q[1..])
  {
    assert forall d :: d in q <==> d == q[0] || d in q[1..] by {
      assert q == [q[0]] + q[1..];
    }
  }

  /** `adjacencyMap.get(id) || []` */
  function Lookup(m: map<int, seq<Cube>>, id: int): seq<Cube> {
    if id in m then m[id] else []
  }

  /** Maps each id to the neighbour list of the last cube carrying it. */
  method BuildAdjacencyMap(cs: seq<Cube>) returns (adjacency: map<int, seq<Cube>>)
    ensures forall id :: Lookup(adjacency, id) == AdjacencyOf(cs, id)
  {
    adjacency := map[];
    for i := 0 to |cs|
      invariant forall id :: id in adjacency <==> LastWithId(cs[..i], id).Some?
      invariant forall id :: id in adjacency ==> adjacency[id] == Neighbors(LastWithId(cs[..i], id).value, cs)
    {
      assert cs[..i + 1][..i] == cs[..i];
      adjacency := adjacency[cs[i].id := Neighbors(cs[i], cs)];
    }
    assert cs[..|cs|] == cs;
  }

  /**
   * What one visit does to the supported ids and the queue: every neighbour's
   * id becomes supported, each new id comes from a neighbour and is queued,
   * and the queue grows by exactly the number of new ids.
   */
  ghost predicate Enqueued(neighbors: seq<Cube>, ids: set<int>, queue: seq<Cube>, ids': set<int>, queue': seq<Cube>) {
    && ids <= ids'
    && (forall x :: x in ids' && x !in ids ==> exists n :: n in neighbors && n.id == x)
    && (forall n :: n in neighbors ==> n.id in ids')
    && (forall c :: c in queue' ==> c in queue || c in neighbors)
    && IdSet(queue) <= IdSet(queue')
    && (forall x :: x in ids' && x !in ids ==> x in IdSet(queue'))
    && |queue'| - |queue| == |ids'| - |ids|
  }

  /** One visit of the search: the `forEach` over the current cube's neighbours. */
  method EnqueueNeighbors(neighbors: seq<Cube>, ids: set<int>, queue: seq<Cube>)
    returns (ids': set<int>, queue': seq<Cube>)
    ensures Enqueued(neighbors, ids, queue, ids', queue')
  {
    ids', queue' := ids, queue;
    for j := 0 to |neighbors|
      invariant ids <= ids' && forall x :: x in ids' && x !in ids ==> exists n :: n in neighbors && n.id == x
      invariant forall k :: 0 <= k < j ==> neighbors[k].id in ids'
      invariant forall c :: c in queue' ==> c in queue || c in neighbors
      invariant IdSet(queue) <= IdSet(queue')
      invariant forall x :: x in ids' && x !in ids ==> x in IdSet(queue')
      invariant |queue'| - |queue| == |ids'| - |ids|
    {
      var neighbor := neighbors[j];
      if neighbor.id !in ids' {
        QueuePush(queue', neighbor);
        ids' := ids' + {neighbor.id};
        queue' := queue' + [neighbor];
      }
    }
  }

  /**
   * The invariant of the search: the supported ids lie between the ground ids
   * and the specified result, queued cubes are supported input cubes, and a
   * supported id no longer queued has all its neighbours supported.
   */
  ghost predicate SearchInvariant(cs: seq<Cube>, ids: set<int>, queue: seq<Cube>) {
    && GroundIds(cs) <= ids <= SupportedIds(cs)
    && (forall c :: c in queue ==> c in cs && c.id in ids)
    && (forall a, n {:trigger n in AdjacencyOf(cs, a)} :: a in ids && a !in IdSet(queue) && n in AdjacencyOf(cs, a) ==> n.id in ids)
  }

  /** The search starts with the ground cubes queued and their ids supported. */
  lemma SeedsKeepInvariant(cs: seq<Cube>)
    ensures SearchInvariant(cs, IdSet(Filter(cs, TouchesGround)), Filter(cs, TouchesGround))
  {
    var g := Filter(cs, TouchesGround);
    FilterMembers(cs, TouchesGround);
    assert IdSet(g) == GroundIds(cs) by {
      assert forall c :: c in g <==> c in cs && TouchesGround(c);
    }
  }

  /** Visiting the head of the queue keeps the search invariant. */
  lemma VisitKeepsInvariant(cs: seq<Cube>, ids: set<int>, queue: seq<Cube>, ids': set<int>, queue': seq<Cube>)
    requires queue != [] && SearchInvariant(cs, ids, queue)
    requires Enqueued(AdjacencyOf(cs, queue[0].id), ids, queue[1..], ids', queue')
    ensures SearchInvariant(cs, ids', queue')
    ensures Progress(cs, ids, queue, ids', queue')
  {
    var current := queue[0];
    NewIdsSupported(cs, current, ids, ids');
    QueueStaysSupported(cs, AdjacencyOf(cs, current.id), ids, queue[1..], ids', queue');
    QueueShift(queue);
    ClosureKept(cs, ids, queue, ids', queue');
    if ids' != ids {
      CardShrinks(IdSet(cs), ids, ids');
    }
  }

  /** Ids enqueued from a supported cube are themselves supported. */
  lemma NewIdsSupported(cs: seq<Cube>, current: Cube, ids: set<int>, ids': set<int>)
    requires ids <= SupportedIds(cs) && current.id in ids
    requires forall x :: x in ids' && x !in ids ==> exists n :: n in AdjacencyOf(cs, current.id) && n.id == x
    ensures ids' <= SupportedIds(cs)
  {
    var R := SupportedIds(cs);
    forall x | x in ids' && x !in ids ensures x in R {
      var n :| n in AdjacencyOf(cs, current.id) && n.id == x;
      assert Closed(cs, R);
    }
  }

  /** After a visit every queued cube is still an input cube with a supported id. */
  lemma QueueStaysSupported(cs: seq<Cube>, neighbors: seq<Cube>, ids: set<int>, rest: seq<Cube>, ids': set<int>, queue': seq<Cube>)
    requires forall c :: c in rest ==> c in cs && c.id in ids
    requires forall n :: n in neighbors ==> n in cs
    requires Enqueued(neighbors, ids, rest, ids', queue')
    ensures forall c :: c in queue' ==> c in cs && c.id in ids'
  {
  }

  /** A supported id that has left the queue, or was never queued, has supported neighbours. */
  lemma ClosureKept(cs: seq<Cube>, ids: set<int>, queue: seq<Cube>, ids': set<int>, queue': seq<Cube>)
    requires queue != [] && IdSet(queue) == {queue[0].id} + IdSet(queue[1..])
    requires forall a, n {:trigger n in AdjacencyOf(cs, a)} :: a in ids && a !in IdSet(queue) && n in AdjacencyOf(cs, a) ==> n.id in ids
    requires Enqueued(AdjacencyOf(cs, queue[0].id), ids, queue[1..], ids', queue')
    ensures forall a, n {:trigger n in AdjacencyOf(cs, a)} :: a in ids' && a !in IdSet(queue') && n in AdjacencyOf(cs, a) ==> n.id in ids'
  {
    var current := queue[0];
    forall a, n | a in ids' && a !in IdSet(queue') && n in AdjacencyOf(cs, a) ensures n.id in ids' {
      if a == current.id {
        assert n in AdjacencyOf(cs, current.id);
      } else {
        assert a !in IdSet(queue[1..]);
        assert a in ids;
      }
    }
  }

  /** `|IdSet(cs) - ids|` shrinks, or stays and the queue gets shorter. */
  ghost predicate Progress(cs: seq<Cube>, ids: set<int>, queue: seq<Cube>, ids': set<int>, queue': seq<Cube>) {
    |IdSet(cs) - ids'| < |IdSet(cs) - ids| || (|IdSet(cs) - ids'| == |IdSet(cs) - ids| && |queue'| < |queue|)
  }

  /** Takes the head of the queue and enqueues its neighbours that are not yet supported. */
  method Visit(cs: seq<Cube>, adjacency: map<int, seq<Cube>>, ids: set<int>, queue: seq<Cube>)
    returns (ids': set<int>, queue': seq<Cube>)
    requires queue != [] && SearchInvariant(cs, ids, queue)
    requires forall id :: Lookup(adjacency, id) == AdjacencyOf(cs, id)
    ensures SearchInvariant(cs, ids', queue')
    ensures Progress(cs, ids, queue, ids', queue')
  {
    var current := queue[0];
    var neighbors := Lookup(adjacency, current.id);
    assert neighbors == AdjacencyOf(cs, current.id);
    ids', queue' := EnqueueNeighbors(neighbors, ids, queue[1..]);
    VisitKeepsInvariant(cs, ids, queue, ids', queue');
  }

  /**
   * The stability check: builds the adjacency map, seeds a queue with the
   * ground cubes and grows the supported set breadth-first; it returns the
   * partition the specification gives.
   */
  method ValidateStructure(cs: seq<Cube>) returns (supported: seq<Cube>, unstable: seq<Cube>)
    ensures supported == Validate(cs).supported && unstable == Validate(cs).unstable
  {
    if |cs| == 0 {
      return [], [];
    }
    var adjacency := BuildAdjacencyMap(cs);

    var groundCubes := Filter(cs, TouchesGround);
    var ids := IdSet(groundCubes);
    var queue := groundCubes;
    SeedsKeepInvariant(cs);

    while |queue| > 0
      invariant SearchInvariant(cs, ids, queue)
      decreases |IdSet(cs) - ids|, |queue|
    {
      ids, queue := Visit(cs, adjacency, ids, queue);
    }
    SearchEnds(cs, ids);
    supported := Keep(cs, ids);
    unstable := Drop(cs, ids);
  }

  /** When the queue is empty the supported ids are exactly the specified ones. */
  lemma SearchEnds(cs: seq<Cube>, ids: set<int>)
    requires SearchInvariant(cs, ids, [])
    ensures ids == SupportedIds(cs)
  {
    assert IdSet([]) == {};
    GrowLeast(cs, GroundIds(cs), ids);
  }
}
