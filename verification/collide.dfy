/** The group-level collision driver: which pairs of a group's members are
    tested against each other, and why the octree is a sound broad phase
    for the strict body test. */
module Collide {
  import opened Numerics
  import opened Octree
  import OctreeProperties
  import opened IsoArcade

  /** A slot of a group's child list: None for an empty slot, otherwise
      whether the child exists. */
  type Slot = Option<bool>

  /** Child `k` is present and exists.  Reading past the end of the list
      yields `undefined`, which is falsy, so such an index is never live. */
  predicate Live(children: seq<Slot>, k: int) {
    0 <= k < |children| && children[k].Some? && children[k].value
  }

  /** Strict lexicographic order on index pairs. */
  predicate PairBefore(p: (int, int), q: (int, int)) {
    p.0 < q.0 || (p.0 == q.0 && p.1 < q.1)
  }

  /** The pairs of a group that `collideGroupVsSelf` hands to the sprite
      test, in call order.  The inner loop runs to `j <= len`, one step past
      the end; that extra index is never live, so the visible effect is
      every unordered pair of live children exactly once. */
  method GroupVsSelfPairs(children: seq<Slot>) returns (pairs: seq<(int, int)>)
    ensures forall p :: p in pairs <==> 0 <= p.0 < p.1 < |children| && Live(children, p.0) && Live(children, p.1)
    ensures forall a, b :: 0 <= a < b < |pairs| ==> PairBefore(pairs[a], pairs[b])
    ensures forall a, b :: 0 <= a < b < |pairs| ==> pairs[a] != pairs[b]
  {
    pairs := [];
    if |children| == 0 {
      return;
    }
    var len := |children|;
    var i := 0;
    while i < len
      invariant 0 <= i <= len
      invariant forall p :: p in pairs <==> 0 <= p.0 < i && p.0 < p.1 < len && Live(children, p.0) && Live(children, p.1)
      invariant forall a, b :: 0 <= a < b < |pairs| ==> PairBefore(pairs[a], pairs[b])
      invariant forall a :: 0 <= a < |pairs| ==> pairs[a].0 < i
    {
      var j := i + 1;
      while j <= len
        invariant i + 1 <= j <= len + 1
        invariant forall p :: p in pairs <==>
                    (0 <= p.0 < i && p.0 < p.1 < len && Live(children, p.0) && Live(children, p.1))
                    || (p.0 == i && i < p.1 < j && p.1 < len && Live(children, i) && Live(children, p.1))
        invariant forall a, b :: 0 <= a < b < |pairs| ==> PairBefore(pairs[a], pairs[b])
        invariant forall a :: 0 <= a < |pairs| ==> PairBefore(pairs[a], (i, j))
      {
        if Live(children, i) && Live(children, j) {
          pairs := pairs + [(i, j)];
        }
        j := j + 1;
      }
      i := i + 1;
    }
  }

  /** The octree built from a group is a sound broad phase for the world's
      strict test: a member's body that overlaps the query body is among the
      candidates `retrieve` returns for the query's box. */
  lemma BroadPhaseComplete(w: World, group: seq<Candidate>, q: Body, c: Body)
    requires c.Shape() in Bodies(group)
    requires IsoArcade.Intersects(q, c)
    ensures c.Shape() in Retrieve(Populate(WorldTree(w), group), q.Shape())
  {
    var t := WorldTree(w);
    OctreeProperties.ResetIsValid(w.bounds.x, w.bounds.y, w.bounds.z, w.bounds.widthX, w.bounds.widthY, w.bounds.height,
                                  Some(w.maxObjects), Some(w.maxLevels), None);
    OctreeProperties.PopulateContents(t, group);
    OctreeProperties.PopulateIndexed(t, group);
    IntersectingNotSeparated(q, c);
    OctreeProperties.RetrieveComplete(Populate(t, group), q.Shape(), c.Shape());
  }
}
