/** Properties of the octree: insertion neither loses nor duplicates boxes,
    keeps every box in the octant it was classified into, keeps the depth
    within the level cap, and retrieval has no false negatives. */
module OctreeProperties {
  import opened Numerics
  import opened Cube
  import opened Octree

  // ---------------------------------------------------------------------
  // The placement invariant
  // ---------------------------------------------------------------------

  /** Where boxes live in a node that has split: every local box straddles
      a split plane, and every box below child k was classified into octant
      k by this node's planes. */
  ghost predicate Indexed(t: Node)
    decreases t
  {
    t.HasSplit() ==>
      && (forall i | 0 <= i < |t.objects| :: GetIndex(t.bounds, t.objects[i]) == -1)
      && (forall k, b | 0 <= k < 8 && b in Contents(t.nodes[k]) :: GetIndex(t.bounds, b) == k)
      && (forall k | 0 <= k < 8 :: Indexed(t.nodes[k]))
  }

  /** A freshly constructed (or reset) root is well formed and indexed. */
  lemma ResetIsValid(x: real, y: real, z: real, widthX: real, widthY: real, height: real,
                     maxObjects: Option<int>, maxLevels: Option<int>, level: Option<int>)
    ensures WellFormed(Reset(x, y, z, widthX, widthY, height, maxObjects, maxLevels, level))
    ensures Indexed(Reset(x, y, z, widthX, widthY, height, maxObjects, maxLevels, level))
    ensures Contents(Reset(x, y, z, widthX, widthY, height, maxObjects, maxLevels, level)) == multiset{}
  {
  }

  // ---------------------------------------------------------------------
  // Helpers about the children's contents
  // ---------------------------------------------------------------------

  lemma {:induction false} ContentsAllGrow(ns: seq<Node>, k: int, c: Node, m: multiset<Box>)
    requires 0 <= k < |ns|
    requires Contents(c) == Contents(ns[k]) + m
    ensures ContentsAll(ns[k := c]) == ContentsAll(ns) + m
    decreases ns
  {
    if k == 0 {
      assert ns[k := c][1..] == ns[1..];
    } else {
      ContentsAllGrow(ns[1..], k - 1, c, m);
      assert ns[k := c][1..] == ns[1..][k - 1 := c];
    }
  }

  lemma {:induction false} ContentsAllOfEmptyLeaves(ns: seq<Node>)
    requires forall k | 0 <= k < |ns| :: ns[k].objects == [] && ns[k].nodes == []
    ensures ContentsAll(ns) == multiset{}
    decreases ns
  {
    if ns != [] {
      ContentsAllOfEmptyLeaves(ns[1..]);
    }
  }

  lemma {:induction false} ChildHolding(ns: seq<Node>, b: Box) returns (k: int)
    requires b in ContentsAll(ns)
    ensures 0 <= k < |ns| && b in Contents(ns[k])
    decreases ns
  {
    if b in Contents(ns[0]) {
      k := 0;
    } else {
      var j := ChildHolding(ns[1..], b);
      k := j + 1;
    }
  }

  lemma {:induction false} RetrieveAllHas(ns: seq<Node>, k: int, q: Box, b: Box)
    requires 0 <= k < |ns|
    requires b in Retrieve(ns[k], q)
    ensures b in RetrieveAll(ns, q)
    decreases ns
  {
    if k > 0 {
      RetrieveAllHas(ns[1..], k - 1, q, b);
    }
  }

  // ---------------------------------------------------------------------
  // Insertion preserves contents
  // ---------------------------------------------------------------------

  /** `insert` adds exactly the new box: nothing is lost or duplicated while
      boxes are pushed down or redistributed after a split. */
  lemma {:induction false} InsertContents(t: Node, b: Box)
    requires WellFormed(t)
    ensures Contents(Insert(t, b)) == Contents(t) + multiset{b}
    decreases t.maxLevels - t.level, 1, 0
  {
    if t.HasSplit() && GetIndex(t.bounds, b) != -1 {
      var k := GetIndex(t.bounds, b);
      InsertContents(t.nodes[k], b);
      var u := PushStep(t, k, b);
    } else if |t.objects| + 1 > t.maxObjects && t.level < t.maxLevels {
      var s0 := SpillStep(t, b);
      DistributeContents(s0, t.objects + [b]);
    }
  }

  /** The overflow branch of `insert`: the node (split if it was not yet)
      with its local list emptied, ready to take the local boxes back. */
  lemma SpillStep(t: Node, b: Box) returns (s0: Node)
    requires WellFormed(t) && !(t.HasSplit() && GetIndex(t.bounds, b) != -1)
    requires |t.objects| + 1 > t.maxObjects && t.level < t.maxLevels
    ensures WellFormed(s0) && s0.HasSplit()
    ensures Insert(t, b) == Distribute(s0, t.objects + [b])
    ensures Contents(s0) + multiset(t.objects + [b]) == Contents(t) + multiset{b}
  {
    s0 := (if t.HasSplit() then t else Split(t)).(objects := []);
    if !t.HasSplit() {
      ContentsAllOfEmptyLeaves(Split(t).nodes);
    }
  }

  lemma {:induction false} DistributeContents(t: Node, pending: seq<Box>)
    requires WellFormed(t) && t.HasSplit()
    ensures Contents(Distribute(t, pending)) == Contents(t) + multiset(pending)
    decreases t.maxLevels - t.level, 0, |pending|
  {
    if pending != [] {
      var b, rest := pending[0], pending[1..];
      assert multiset(pending) == multiset{b} + multiset(rest) by {
        assert pending == [b] + rest;
      }
      var k := GetIndex(t.bounds, b);
      if k != -1 {
        InsertContents(t.nodes[k], b);
      }
      var u := DistributeStep(t, pending);
      DistributeContents(u, rest);
    }
  }

  /** One round of the redistribution loop: the first pending box moves
      into the node (locally or into its child), given that inserting it
      into the child adds exactly that box. */
  lemma DistributeStep(t: Node, pending: seq<Box>) returns (u: Node)
    requires WellFormed(t) && t.HasSplit() && pending != []
    requires GetIndex(t.bounds, pending[0]) != -1 ==>
               Contents(Insert(t.nodes[GetIndex(t.bounds, pending[0])], pending[0]))
               == Contents(t.nodes[GetIndex(t.bounds, pending[0])]) + multiset{pending[0]}
    ensures WellFormed(u) && u.HasSplit() && SameFrame(t, u)
    ensures Distribute(t, pending) == Distribute(u, pending[1..])
    ensures Contents(u) == Contents(t) + multiset{pending[0]}
  {
    var b := pending[0];
    var k := GetIndex(t.bounds, b);
    if k == -1 {
      u := t.(objects := t.objects + [b]);
    } else {
      u := PushStep(t, k, b);
    }
  }

  /** The round that hands the box to child k. */
  lemma PushStep(t: Node, k: int, b: Box) returns (u: Node)
    requires WellFormed(t) && t.HasSplit() && 0 <= k < 8
    requires Contents(Insert(t.nodes[k], b)) == Contents(t.nodes[k]) + multiset{b}
    ensures u == t.(nodes := t.nodes[k := Insert(t.nodes[k], b)])
    ensures WellFormed(u) && u.HasSplit() && SameFrame(t, u)
    ensures Contents(u) == Contents(t) + multiset{b}
  {
    var c := Insert(t.nodes[k], b);
    u := t.(nodes := t.nodes[k := c]);
    ContentsAllGrow(t.nodes, k, c, multiset{b});
  }

  // ---------------------------------------------------------------------
  // Insertion preserves the placement invariant
  // ---------------------------------------------------------------------

  /** After `insert`, a node that has split still holds only straddling
      boxes locally, and every box below child k belongs to octant k. */
  lemma {:induction false} InsertIndexed(t: Node, b: Box)
    requires WellFormed(t) && Indexed(t)
    ensures Indexed(Insert(t, b))
    decreases t.maxLevels - t.level, 1, 0
  {
    if t.HasSplit() && GetIndex(t.bounds, b) != -1 {
      var k := GetIndex(t.bounds, b);
      PushDownIndexed(t, b);
    } else {
      var objects := t.objects + [b];
      if |objects| > t.maxObjects && t.level < t.maxLevels {
        var split := if t.HasSplit() then t else Split(t);
        var s0 := split.(objects := []);
        if !t.HasSplit() {
          forall k | 0 <= k < 8
            ensures Contents(s0.nodes[k]) == multiset{}
          {
            ContentsAllOfEmptyLeaves(s0.nodes[k].nodes);
          }
        }
        assert Indexed(s0);
        DistributeIndexed(s0, objects);
      }
    }
  }

  /** Inserting a box into the child of its own octant keeps the node indexed. */
  lemma {:induction false} PushDownIndexed(t: Node, b: Box)
    requires WellFormed(t) && Indexed(t) && t.HasSplit()
    requires GetIndex(t.bounds, b) != -1
    ensures Indexed(t.(nodes := t.nodes[GetIndex(t.bounds, b) := Insert(t.nodes[GetIndex(t.bounds, b)], b)]))
    decreases t.maxLevels - t.level, 0, 0
  {
    var k := GetIndex(t.bounds, b);
    var c := Insert(t.nodes[k], b);
    InsertIndexed(t.nodes[k], b);
    InsertContents(t.nodes[k], b);
    var r := t.(nodes := t.nodes[k := c]);
    forall j, x | 0 <= j < 8 && x in Contents(r.nodes[j])
      ensures GetIndex(t.bounds, x) == j
    {
      if j == k {
        assert x in Contents(t.nodes[k]) || x == b;
      } else {
        assert r.nodes[j] == t.nodes[j];
      }
    }
    forall j | 0 <= j < 8
      ensures Indexed(r.nodes[j])
    {
      if j != k {
        assert r.nodes[j] == t.nodes[j];
      }
    }
  }

  lemma {:induction false} DistributeIndexed(t: Node, pending: seq<Box>)
    requires WellFormed(t) && t.HasSplit() && Indexed(t)
    ensures Indexed(Distribute(t, pending))
    decreases t.maxLevels - t.level, 0, |pending|
  {
    if pending != [] {
      var b := pending[0];
      var k := GetIndex(t.bounds, b);
      if k == -1 {
        DistributeIndexed(t.(objects := t.objects + [b]), pending[1..]);
      } else {
        PushDownIndexed(t, b);
        DistributeIndexed(t.(nodes := t.nodes[k := Insert(t.nodes[k], b)]), pending[1..]);
      }
    }
  }

  // ---------------------------------------------------------------------
  // Retrieval has no false negatives
  // ---------------------------------------------------------------------

  /** Two boxes classified into different octants of the same node are
      separated by one of that node's split planes. */
  lemma OctantsSeparate(bd: Bounds, a: Box, c: Box)
    ensures GetIndex(bd, a) != -1 && GetIndex(bd, c) != -1 && GetIndex(bd, a) != GetIndex(bd, c)
            ==> Separated(a, c)
  {
  }

  /** Every stored box that is not separated from the query by a plane
      comes back from `retrieve`. */
  lemma {:induction false} RetrieveComplete(t: Node, q: Box, b: Box)
    requires WellFormed(t) && Indexed(t)
    requires b in Contents(t)
    requires !Separated(b, q)
    ensures b in Retrieve(t, q)
    decreases t
  {
    if b in t.objects {
      assert Retrieve(t, q)[..|t.objects|] == t.objects;
    } else {
      var k := ChildHolding(t.nodes, b);
      var j := GetIndex(t.bounds, q);
      OctantsSeparate(t.bounds, b, q);
      RetrieveComplete(t.nodes[k], q, b);
      if j == -1 {
        RetrieveAllHas(t.nodes, k, q, b);
      }
    }
  }

  /** In particular every stored box that intersects the query (in the
      inclusive sense of `Cube.intersects`) is a candidate. */
  lemma RetrieveFindsIntersecting(t: Node, q: Box, b: Box)
    requires WellFormed(t) && Indexed(t)
    requires b in Contents(t)
    requires Intersects(b, q)
    ensures b in Retrieve(t, q)
  {
    SeparatedDoNotIntersect(b, q);
    RetrieveComplete(t, q, b);
  }

  // ---------------------------------------------------------------------
  // Depth and splitting
  // ---------------------------------------------------------------------

  lemma {:induction false} MaxHeightAtMost(ns: seq<Node>, bound: nat)
    requires forall k | 0 <= k < |ns| :: Height(ns[k]) <= bound
    ensures MaxHeight(ns) <= bound
    decreases ns
  {
    if ns != [] {
      MaxHeightAtMost(ns[1..], bound);
    }
  }

  /** A well-formed tree never grows below level `maxLevels`. */
  lemma {:induction false} DepthBounded(t: Node)
    requires WellFormed(t)
    ensures Height(t) == 0 || t.level + Height(t) <= t.maxLevels
    decreases t
  {
    if t.nodes != [] {
      forall k | 0 <= k < 8
        ensures Height(t.nodes[k]) <= t.maxLevels - t.level - 1
      {
        DepthBounded(t.nodes[k]);
      }
      MaxHeightAtMost(t.nodes, t.maxLevels - t.level - 1);
    }
  }

  /** A leaf splits only when the insert takes its local list past
      `maxObjects` while it is above the level cap. */
  lemma SplitOnlyOnOverflow(t: Node, b: Box)
    requires WellFormed(t) && !t.HasSplit()
    ensures Insert(t, b).HasSplit() <==> |t.objects| + 1 > t.maxObjects && t.level < t.maxLevels
  {
  }

  // ---------------------------------------------------------------------
  // Populating
  // ---------------------------------------------------------------------

  /** `populate` stores exactly the bodies of the live members that have one. */
  lemma {:induction false} PopulateContents(t: Node, group: seq<Candidate>)
    requires WellFormed(t)
    ensures Contents(Populate(t, group)) == Contents(t) + multiset(Bodies(group))
    decreases |group|
  {
    if group != [] {
      var c := group[0];
      if c.body.Some? && c.alive {
        InsertContents(t, c.body.value);
      }
      PopulateContents(PopulateHandler(t, c), group[1..]);
    }
  }

  lemma {:induction false} PopulateIndexed(t: Node, group: seq<Candidate>)
    requires WellFormed(t) && Indexed(t)
    ensures Indexed(Populate(t, group))
    decreases |group|
  {
    if group != [] {
      var c := group[0];
      if c.body.Some? && c.alive {
        InsertIndexed(t, c.body.value);
      }
      PopulateIndexed(PopulateHandler(t, c), group[1..]);
    }
  }

  /** Populating a fresh tree and retrieving with any query returns every
      populated body that intersects the query. */
  lemma PopulateThenRetrieve(t: Node, group: seq<Candidate>, q: Box, b: Box)
    requires WellFormed(t) && Indexed(t) && Contents(t) == multiset{}
    requires b in Bodies(group) && Intersects(b, q)
    ensures b in Retrieve(Populate(t, group), q)
  {
    PopulateContents(t, group);
    PopulateIndexed(t, group);
    RetrieveFindsIntersecting(Populate(t, group), q, b);
  }

  // ---------------------------------------------------------------------
  // A concrete run
  // ---------------------------------------------------------------------

  /** The scenario's region: 100x100x100 at the origin, at most two objects
      per node, four levels. */
  const ScenarioRoot: Node := Reset(0.0, 0.0, 0.0, 100.0, 100.0, 100.0, Some(2), Some(4), None)
  /** Two unit boxes in the low octant and one in the high octant. */
  const LowBox1: Box := Box(10.0, 10.0, 10.0, 1.0, 1.0, 1.0)
  const LowBox2: Box := Box(20.0, 20.0, 20.0, 1.0, 1.0, 1.0)
  const HighBox: Box := Box(60.0, 60.0, 60.0, 1.0, 1.0, 1.0)

  /** The first two inserts stay in the root's own list. */
  lemma ScenarioFill()
    ensures ScenarioRoot.bounds.frontX == 50.0 && ScenarioRoot.bounds.frontY == 50.0 && ScenarioRoot.bounds.top == 50.0
    ensures Insert(Insert(ScenarioRoot, LowBox1), LowBox2) == ScenarioRoot.(objects := [LowBox1, LowBox2])
  {
    var root := ScenarioRoot;
    assert root.bounds.frontX == 50.0 && root.bounds.frontY == 50.0 && root.bounds.top == 50.0;
    assert Insert(root, LowBox1) == root.(objects := [LowBox1]);
  }

  /** The third insert overflows the cap and splits the root. */
  lemma ScenarioSpill()
    ensures var t2 := ScenarioRoot.(objects := [LowBox1, LowBox2]);
            Insert(t2, HighBox) == Distribute(Split(t2).(objects := []), [LowBox1, LowBox2, HighBox])
  {
    ScenarioFill();
    var t2 := ScenarioRoot.(objects := [LowBox1, LowBox2]);
    assert GetIndex(t2.bounds, HighBox) == 7;
    assert t2.objects + [HighBox] == [LowBox1, LowBox2, HighBox];
  }

  /** A box added to a leaf with room to spare is simply appended. */
  lemma LeafInsertUnderCap(t: Node, b: Box)
    requires WellFormed(t) && !t.HasSplit() && |t.objects| + 1 <= t.maxObjects
    ensures Insert(t, b) == t.(objects := t.objects + [b])
  {
  }

  /** One step of the redistribution of a box that fits octant `k`, whose
      child is a leaf with room for it: the box is appended to that child. */
  lemma DistributeIntoLeaf(t: Node, pending: seq<Box>, k: int) returns (u: Node)
    requires WellFormed(t) && t.HasSplit() && pending != []
    requires GetIndex(t.bounds, pending[0]) == k && 0 <= k < 8
    requires !t.nodes[k].HasSplit() && |t.nodes[k].objects| + 1 <= t.maxObjects
    ensures u == t.(nodes := t.nodes[k := t.nodes[k].(objects := t.nodes[k].objects + [pending[0]])])
    ensures WellFormed(u) && u.HasSplit() && SameFrame(t, u)
    ensures Distribute(t, pending) == Distribute(u, pending[1..])
  {
    LeafInsertUnderCap(t.nodes[k], pending[0]);
    u := t.(nodes := t.nodes[k := Insert(t.nodes[k], pending[0])]);
  }

  /** Where the scenario's boxes fall in the root's octants. */
  lemma ScenarioIndices()
    ensures GetIndex(ScenarioRoot.bounds, LowBox1) == 0
    ensures GetIndex(ScenarioRoot.bounds, LowBox2) == 0
    ensures GetIndex(ScenarioRoot.bounds, HighBox) == 7
  {
    ScenarioFill();
  }

  /** The redistribution sends the two low boxes to octant 0 and the high
      box to octant 7. */
  lemma ScenarioDistribute(s0: Node)
    requires WellFormed(s0) && s0.HasSplit() && s0.bounds == ScenarioRoot.bounds && s0.maxObjects == 2
    requires s0.nodes[0].objects == [] && !s0.nodes[0].HasSplit()
    requires s0.nodes[7].objects == [] && !s0.nodes[7].HasSplit()
    ensures var d := Distribute(s0, [LowBox1, LowBox2, HighBox]);
            d == s0.(nodes := s0.nodes[0 := s0.nodes[0].(objects := [LowBox1, LowBox2])]
                                      [7 := s0.nodes[7].(objects := [HighBox])])
  {
    ScenarioIndices();
    var n0, n7 := s0.nodes[0], s0.nodes[7];
    var p3 := [LowBox1, LowBox2, HighBox];
    var u1 := DistributeIntoLeaf(s0, p3, 0);
    assert u1.nodes[0] == n0.(objects := [LowBox1]) by { assert [] + [LowBox1] == [LowBox1]; }
    var u2 := DistributeIntoLeaf(u1, p3[1..], 0);
    assert u2.nodes[0] == n0.(objects := [LowBox1, LowBox2]) by { assert [LowBox1] + [LowBox2] == [LowBox1, LowBox2]; }
    assert p3[1..][1..] == [HighBox];
    var u3 := DistributeIntoLeaf(u2, [HighBox], 7);
    assert u3.nodes[7] == n7.(objects := [HighBox]) by { assert [] + [HighBox] == [HighBox]; }
    assert u3.nodes == s0.nodes[0 := n0.(objects := [LowBox1, LowBox2])][7 := n7.(objects := [HighBox])];
    assert [HighBox][1..] == [];
  }

  /** Three inserts into the scenario's region: the third insert splits the
      root and sends the two low boxes to octant 0 and the high box to
      octant 7, leaving the root's own list empty. */
  lemma ThreeBoxScenario()
    ensures
      var t := Insert(Insert(Insert(ScenarioRoot, LowBox1), LowBox2), HighBox);
      && t.HasSplit() && t.objects == []
      && t.nodes[0].objects == [LowBox1, LowBox2] && t.nodes[7].objects == [HighBox]
      && (forall k | 0 <= k < 8 :: !t.nodes[k].HasSplit())
  {
    ScenarioFill();
    ScenarioSpill();
    var t2 := ScenarioRoot.(objects := [LowBox1, LowBox2]);
    var s0 := Split(t2).(objects := []);
    assert ScenarioRoot.maxObjects == 2;
    assert WellFormed(s0);
    ScenarioDistribute(s0);
  }
}
