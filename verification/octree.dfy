/** The octree spatial index: a recursive 8-way partition of a box region.
    A node keeps a local list of boxes and, once it has split, exactly eight
    children.  A box that fits wholly inside one octant is pushed down; a box
    that straddles a split plane stays at the node. */
module Octree {
  import opened Numerics
  import opened Cube

  /** A node's region and its three split planes.  The origin and the planes
      are whole numbers: the source rounds the origin and floors the half
      extents. */
  datatype Bounds = Bounds(
    x: real, y: real, z: real,
    widthX: real, widthY: real, height: real,
    subWidthX: real, subWidthY: real, subHeight: real,
    frontX: real, frontY: real, top: real)

  datatype Node = Node(
    maxObjects: int, maxLevels: int, level: int,
    bounds: Bounds,
    objects: seq<Box>,
    nodes: seq<Node>)
  {
    /** The source tests `nodes[0] !== null` here, which is true even for a
        node whose child list was just emptied (the entry is `undefined`, not
        `null`); see `AsWritten.InsertAsWritten`.  The intended test, and the
        one `retrieve` effectively performs, is that the eight children exist. */
    predicate HasSplit() {
      |nodes| == 8
    }
  }

  predicate Integral(bd: Bounds) {
    && IsWhole(bd.x) && IsWhole(bd.y) && IsWhole(bd.z)
    && IsWhole(bd.subWidthX) && IsWhole(bd.subWidthY) && IsWhole(bd.subHeight)
    && IsWhole(bd.frontX) && IsWhole(bd.frontY) && IsWhole(bd.top)
  }

  /** The region computed by `reset`: a rounded origin, floored half
      extents, and split planes at origin plus half extent. */
  function MakeBounds(x: real, y: real, z: real, widthX: real, widthY: real, height: real): (bd: Bounds)
    ensures Integral(bd)
    ensures bd.widthX == widthX && bd.widthY == widthY && bd.height == height
    ensures x - 0.5 < bd.x <= x + 0.5 && y - 0.5 < bd.y <= y + 0.5 && z - 0.5 < bd.z <= z + 0.5
    ensures bd.subWidthX <= widthX * 0.5 < bd.subWidthX + 1.0
    ensures bd.subWidthY <= widthY * 0.5 < bd.subWidthY + 1.0
    ensures bd.subHeight <= height * 0.5 < bd.subHeight + 1.0
    ensures bd.frontX == bd.x + bd.subWidthX && bd.frontY == bd.y + bd.subWidthY && bd.top == bd.z + bd.subHeight
  {
    Bounds(
      Round(x) as real, Round(y) as real, Round(z) as real,
      widthX, widthY, height,
      Floor(widthX * 0.5) as real, Floor(widthY * 0.5) as real, Floor(height * 0.5) as real,
      (Round(x) + Floor(widthX * 0.5)) as real,
      (Round(y) + Floor(widthY * 0.5)) as real,
      (Round(z) + Floor(height * 0.5)) as real)
  }

  /** Re-rounding the origin and split planes of an integral region changes
      nothing, so a child's origin is exactly the parent's corner or plane. */
  lemma IntegralOriginsRoundExactly(bd: Bounds)
    ensures Integral(bd) ==>
      && Round(bd.x) as real == bd.x && Round(bd.y) as real == bd.y && Round(bd.z) as real == bd.z
      && Round(bd.frontX) as real == bd.frontX && Round(bd.frontY) as real == bd.frontY
      && Round(bd.top) as real == bd.top
  {
    if Integral(bd) {
      RoundWhole(bd.x); RoundWhole(bd.y); RoundWhole(bd.z);
      RoundWhole(bd.frontX); RoundWhole(bd.frontY); RoundWhole(bd.top);
    }
  }

  /** The constructor and `reset`: a node with the given region, no boxes and
      no children.  Absent (or zero) capacity arguments default to 10 objects,
      4 levels and level 0. */
  function Reset(x: real, y: real, z: real, widthX: real, widthY: real, height: real,
                 maxObjects: Option<int>, maxLevels: Option<int>, level: Option<int>): (r: Node)
    ensures r.objects == [] && r.nodes == []
    ensures r.bounds == MakeBounds(x, y, z, widthX, widthY, height)
    ensures r.maxObjects != 0 && r.maxLevels != 0
    ensures maxObjects.Some? && maxObjects.value != 0 ==> r.maxObjects == maxObjects.value
    ensures maxLevels.Some? && maxLevels.value != 0 ==> r.maxLevels == maxLevels.value
    ensures level.Some? ==> r.level == level.value
    ensures maxObjects.None? ==> r.maxObjects == 10
    ensures maxLevels.None? ==> r.maxLevels == 4
    ensures level.None? ==> r.level == 0
  {
    Node(OrInt(maxObjects, 10), OrInt(maxLevels, 4), OrInt(level, 0),
         MakeBounds(x, y, z, widthX, widthY, height), [], [])
  }

  /** `clear`: the local list and every child are dropped; the region and
      capacities stay. */
  function Clear(t: Node): (r: Node)
    ensures r.objects == [] && r.nodes == [] && !r.HasSplit()
    ensures r.bounds == t.bounds && r.level == t.level
    ensures r.maxObjects == t.maxObjects && r.maxLevels == t.maxLevels
    ensures Contents(r) == multiset{}
    ensures forall q :: Retrieve(r, q) == []
  {
    t.(objects := [], nodes := [])
  }

  // ---------------------------------------------------------------------
  // Octant classification
  // ---------------------------------------------------------------------

  /** Both x faces of `c` lie strictly before the x split plane. */
  predicate BelowX(bd: Bounds, c: Box) { c.x < bd.frontX && c.FrontX() < bd.frontX }
  predicate BelowY(bd: Bounds, c: Box) { c.y < bd.frontY && c.FrontY() < bd.frontY }
  predicate BelowZ(bd: Bounds, c: Box) { c.z < bd.top && c.Top() < bd.top }

  /** The origin of `c` lies strictly past the x split plane (the source
      checks only the origin on this side). */
  predicate AboveX(bd: Bounds, c: Box) { c.x > bd.frontX }
  predicate AboveY(bd: Bounds, c: Box) { c.y > bd.frontY }
  predicate AboveZ(bd: Bounds, c: Box) { c.z > bd.top }

  /** `c` lies on one side of every split plane. */
  predicate FitsOctant(bd: Bounds, c: Box) {
    && (BelowX(bd, c) || AboveX(bd, c))
    && (BelowY(bd, c) || AboveY(bd, c))
    && (BelowZ(bd, c) || AboveZ(bd, c))
  }

  /** `getIndex`: the octant (0-7) that holds `c`, or -1 when `c` straddles a
      split plane.  Bit 1 of the octant is the +x side, bit 2 the +y side and
      bit 4 the +z side. */
  function GetIndex(bd: Bounds, c: Box): (r: int)
    ensures -1 <= r <= 7
    ensures r == -1 <==> !FitsOctant(bd, c)
    ensures r != -1 ==> if r % 2 == 1 then AboveX(bd, c) else BelowX(bd, c)
    ensures r != -1 ==> if (r / 2) % 2 == 1 then AboveY(bd, c) else BelowY(bd, c)
    ensures r != -1 ==> if r / 4 == 1 then AboveZ(bd, c) else BelowZ(bd, c)
  {
    if c.x < bd.frontX && c.FrontX() < bd.frontX then
      if c.y < bd.frontY && c.FrontY() < bd.frontY then
        if c.z < bd.top && c.Top() < bd.top then 0
        else if c.z > bd.top then 4
        else -1
      else if c.y > bd.frontY then
        if c.z < bd.top && c.Top() < bd.top then 2
        else if c.z > bd.top then 6
        else -1
      else -1
    else if c.x > bd.frontX then
      if c.y < bd.frontY && c.FrontY() < bd.frontY then
        if c.z < bd.top && c.Top() < bd.top then 1
        else if c.z > bd.top then 5
        else -1
      else if c.y > bd.frontY then
        if c.z < bd.top && c.Top() < bd.top then 3
        else if c.z > bd.top then 7
        else -1
      else -1
    else -1
  }

  // ---------------------------------------------------------------------
  // Splitting and insertion
  // ---------------------------------------------------------------------

  /** `split`: eight children covering the octants, each at the next level
      and with the parent's capacities.  The source passes
      `(this.maxLevels, this.level + 1)` into the constructor's
      `(maxObjects, maxLevels)` slots, so its children restart at level 0
      with mixed-up capacities; this is the evidently intended call (see
      `AsWritten.SplitAsWritten`). */
  function Split(t: Node): (r: Node)
    ensures r.HasSplit()
    ensures r.objects == t.objects && r.bounds == t.bounds && r.level == t.level
    ensures r.maxObjects == t.maxObjects && r.maxLevels == t.maxLevels
    ensures forall k | 0 <= k < 8 ::
      && r.nodes[k].objects == [] && r.nodes[k].nodes == []
      && r.nodes[k].level == t.level + 1
      && (t.maxObjects != 0 ==> r.nodes[k].maxObjects == t.maxObjects)
      && (t.maxLevels != 0 ==> r.nodes[k].maxLevels == t.maxLevels)
      && r.nodes[k].bounds.widthX == t.bounds.subWidthX
      && r.nodes[k].bounds.widthY == t.bounds.subWidthY
      && r.nodes[k].bounds.height == t.bounds.subHeight
    ensures Integral(t.bounds) ==> forall k | 0 <= k < 8 ::
      && r.nodes[k].bounds.x == (if k % 2 == 1 then t.bounds.frontX else t.bounds.x)
      && r.nodes[k].bounds.y == (if (k / 2) % 2 == 1 then t.bounds.frontY else t.bounds.y)
      && r.nodes[k].bounds.z == (if k / 4 == 1 then t.bounds.top else t.bounds.z)
  {
    t.(nodes := [
      //  bottom four octants: -x-y-z, +x-y-z, -x+y-z, +x+y-z
      Child(t, 0), Child(t, 1), Child(t, 2), Child(t, 3),
      //  top four octants: -x-y+z, +x-y+z, -x+y+z, +x+y+z
      Child(t, 4), Child(t, 5), Child(t, 6), Child(t, 7)
    ])
  }

  /** Child `k` of a split: the octant on the +x side when bit 1 of `k` is
      set, on the +y side for bit 2 and on the +z side for bit 4, with half
      the parent's extent on each axis. */
  function Child(t: Node, k: int): (c: Node)
    requires 0 <= k < 8
    ensures c.objects == [] && c.nodes == []
    ensures c.level == t.level + 1
    ensures t.maxObjects != 0 ==> c.maxObjects == t.maxObjects
    ensures t.maxLevels != 0 ==> c.maxLevels == t.maxLevels
    ensures c.bounds.widthX == t.bounds.subWidthX
    ensures c.bounds.widthY == t.bounds.subWidthY
    ensures c.bounds.height == t.bounds.subHeight
    ensures Integral(t.bounds) ==>
      && c.bounds.x == (if k % 2 == 1 then t.bounds.frontX else t.bounds.x)
      && c.bounds.y == (if (k / 2) % 2 == 1 then t.bounds.frontY else t.bounds.y)
      && c.bounds.z == (if k / 4 == 1 then t.bounds.top else t.bounds.z)
  {
    var bd := t.bounds;
    IntegralOriginsRoundExactly(bd);
    Reset(if k % 2 == 1 then bd.frontX else bd.x,
          if (k / 2) % 2 == 1 then bd.frontY else bd.y,
          if k / 4 == 1 then bd.top else bd.z,
          bd.subWidthX, bd.subWidthY, bd.subHeight,
          Some(t.maxObjects), Some(t.maxLevels), Some(t.level + 1))
  }

  /** The shape every node built by `Reset`, `Split` and `Insert` has: no
      children or exactly eight; a node splits only below the level cap;
      children sit one level down and share the capacities. */
  ghost predicate WellFormed(t: Node)
    decreases t
  {
    && t.maxObjects != 0 && t.maxLevels != 0
    && (|t.nodes| == 0 || |t.nodes| == 8)
    && (|t.nodes| == 8 ==> t.level < t.maxLevels)
    && forall k | 0 <= k < |t.nodes| ::
         && t.nodes[k].level == t.level + 1
         && t.nodes[k].maxLevels == t.maxLevels
         && t.nodes[k].maxObjects == t.maxObjects
         && WellFormed(t.nodes[k])
  }

  /** Insertion never changes a node's region, level or capacities. */
  predicate SameFrame(t: Node, r: Node) {
    && r.maxObjects == t.maxObjects && r.maxLevels == t.maxLevels
    && r.level == t.level && r.bounds == t.bounds
  }

  /** `insert`: push the box into the child octant that holds it, or keep it
      locally; when the local list then exceeds `maxObjects` below the level
      cap, split (once) and move every local box that fits an octant down. */
  function Insert(t: Node, b: Box): (r: Node)
    requires WellFormed(t)
    ensures WellFormed(r) && SameFrame(t, r)
    ensures t.HasSplit() ==> r.HasSplit()
    decreases t.maxLevels - t.level, 1, 0
  {
    if t.HasSplit() && GetIndex(t.bounds, b) != -1 then
      var k := GetIndex(t.bounds, b);
      t.(nodes := t.nodes[k := Insert(t.nodes[k], b)])
    else
      var objects := t.objects + [b];
      if |objects| > t.maxObjects && t.level < t.maxLevels then
        var split := if t.HasSplit() then t else Split(t);
        Distribute(split.(objects := []), objects)
      else
        t.(objects := objects)
  }

  /** The redistribution loop of `insert`, over the boxes still to place:
      each box that fits an octant is inserted into that child, the others
      are appended (in their original order) to the local list. */
  function Distribute(t: Node, pending: seq<Box>): (r: Node)
    requires WellFormed(t) && t.HasSplit()
    ensures WellFormed(r) && SameFrame(t, r) && r.HasSplit()
    decreases t.maxLevels - t.level, 0, |pending|
  {
    if pending == [] then t
    else
      var b := pending[0];
      var k := GetIndex(t.bounds, b);
      if k == -1 then Distribute(t.(objects := t.objects + [b]), pending[1..])
      else Distribute(t.(nodes := t.nodes[k := Insert(t.nodes[k], b)]), pending[1..])
  }

  // ---------------------------------------------------------------------
  // Contents and retrieval
  // ---------------------------------------------------------------------

  /** Every box held anywhere in the tree, with multiplicity. */
  function Contents(t: Node): multiset<Box>
    decreases t
  {
    multiset(t.objects) + ContentsAll(t.nodes)
  }

  function ContentsAll(ns: seq<Node>): multiset<Box>
    decreases ns
  {
    if ns == [] then multiset{} else Contents(ns[0]) + ContentsAll(ns[1..])
  }

  lemma {:induction false} ContentsAllHas(ns: seq<Node>, k: int)
    requires 0 <= k < |ns|
    ensures Contents(ns[k]) <= ContentsAll(ns)
    decreases ns
  {
    if k > 0 {
      ContentsAllHas(ns[1..], k - 1);
      assert ns[1..][k - 1] == ns[k];
    }
  }

  /** `retrieve` for a box-shaped query: this node's local list, followed by
      what the child holding the query returns, or by what all eight
      children return when the query straddles a split plane. */
  function Retrieve(t: Node, q: Box): (r: seq<Box>)
    ensures t.objects <= r
    ensures multiset(r) <= Contents(t)
    decreases t
  {
    if !t.HasSplit() then t.objects
    else
      var k := GetIndex(t.bounds, q);
      if k != -1 then
        ContentsAllHas(t.nodes, k);
        t.objects + Retrieve(t.nodes[k], q)
      else
        t.objects + RetrieveAll(t.nodes, q)
  }

  function RetrieveAll(ns: seq<Node>, q: Box): (r: seq<Box>)
    ensures multiset(r) <= ContentsAll(ns)
    decreases ns
  {
    if ns == [] then [] else Retrieve(ns[0], q) + RetrieveAll(ns[1..], q)
  }

  // ---------------------------------------------------------------------
  // Populating from a group
  // ---------------------------------------------------------------------

  /** A member of the group handed to `populate`: it may have no body, and it
      may not exist (be dead). */
  datatype Candidate = Candidate(body: Option<Box>, alive: bool)

  /** `populateHandler`: insert the member's body when it has one and is alive. */
  function PopulateHandler(t: Node, c: Candidate): (r: Node)
    requires WellFormed(t)
    ensures WellFormed(r) && SameFrame(t, r)
    ensures c.body.None? || !c.alive ==> r == t
  {
    if c.body.Some? && c.alive then Insert(t, c.body.value) else t
  }

  /** `populate`: the handler applied to the group's members in order. */
  function Populate(t: Node, group: seq<Candidate>): (r: Node)
    requires WellFormed(t)
    ensures WellFormed(r) && SameFrame(t, r)
    decreases |group|
  {
    if group == [] then t else Populate(PopulateHandler(t, group[0]), group[1..])
  }

  /** The bodies `populate` inserts, in order. */
  function Bodies(group: seq<Candidate>): seq<Box>
    decreases |group|
  {
    if group == [] then []
    else (if group[0].body.Some? && group[0].alive then [group[0].body.value] else []) + Bodies(group[1..])
  }

  /** Number of levels below this node. */
  function Height(t: Node): nat
    decreases t
  {
    if t.nodes == [] then 0 else 1 + MaxHeight(t.nodes)
  }

  function MaxHeight(ns: seq<Node>): nat
    decreases ns
  {
    if ns == [] then 0
    else
      var h := Height(ns[0]);
      var rest := MaxHeight(ns[1..]);
      if h < rest then rest else h
  }
}
