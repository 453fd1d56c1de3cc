/**
 * The per-tick systems of IPLDWorld.tsx as functions on the entity store: a
 * sequence of entities in the order they started matching the systems'
 * queries, which is also the iteration order of those queries. A query is a
 * filter over that sequence.
 */
module Systems {
  import opened Wrappers
  import opened Vectors
  import opened Components

  // ---------------------------------------------------------------- GLTFSystem

  /** Whether `e` is in the query `hasAll(ThreeView, GLTFFacet)` and the loop body acts on it. */
  predicate NeedsAttach(e: Entity) {
    e.view.Some? && e.gltf.Some? && e.gltf.value.glTFModel.Some? && !e.view.value.object3d.visible
  }

  /** The loop body of GLTFSystem for one entity: `object3d.copy(scene)`, then `visible = true`. */
  function GltfAttach(e: Entity): Entity {
    if NeedsAttach(e) then
      e.(view := Some(ThreeView(e.gltf.value.glTFModel.value.scene.(visible := true))))
    else e
  }

  function GltfPass(es: seq<Entity>): (r: seq<Entity>)
    ensures |r| == |es|
  {
    seq(|es|, i requires 0 <= i < |es| => GltfAttach(es[i]))
  }

  /**
   * GLTFSystem changes only the view, and only of an entity with a loaded
   * model and a hidden view: the node becomes a copy of the model's scene
   * (graph and transform), made visible.
   */
  lemma GltfAttachEffect(e: Entity)
    ensures NeedsAttach(e) ==>
      GltfAttach(e).view == Some(ThreeView(e.gltf.value.glTFModel.value.scene.(visible := true)))
    ensures NeedsAttach(e) ==>
      var n, scene := GltfAttach(e).view.value.object3d, e.gltf.value.glTFModel.value.scene;
      n.visible && n.graph == scene.graph && n.position == scene.position &&
      n.quaternion == scene.quaternion && n.scale == scene.scale
    ensures !NeedsAttach(e) ==> GltfAttach(e) == e
    ensures GltfAttach(e) == e.(view := GltfAttach(e).view)
  {
  }

  /** A second run of GLTFSystem changes nothing. */
  lemma GltfPassIdempotent(es: seq<Entity>)
    ensures GltfPass(GltfPass(es)) == GltfPass(es)
  {
    var once := GltfPass(es);
    forall i | 0 <= i < |es|
      ensures GltfPass(once)[i] == once[i]
    {
      assert !NeedsAttach(once[i]);
    }
  }

  // ----------------------------------------------------------- TransformSystem

  /** Whether `e` is in the query `hasAll(ThreeView) && hasAny(Position, Rotation, Scale)`. */
  predicate InTransformQuery(e: Entity) {
    e.view.Some? && (e.position.Some? || e.rotation.Some? || e.scale.Some?)
  }

  /** The loop body of TransformSystem for one entity: each present channel is copied into the node. */
  function TransformWrite(e: Entity): Entity {
    if InTransformQuery(e) then
      var n0 := e.view.value.object3d;
      var n1 := if e.position.Some? then n0.(position := ResolvedPosition(e.position.value)) else n0;
      var n2 := if e.rotation.Some? then n1.(quaternion := ResolvedRotation(e.rotation.value)) else n1;
      var n3 := if e.scale.Some? then n2.(scale := ResolvedScale(e.scale.value)) else n2;
      e.(view := Some(ThreeView(n3)))
    else e
  }

  function TransformPass(es: seq<Entity>): (r: seq<Entity>)
    ensures |r| == |es|
  {
    seq(|es|, i requires 0 <= i < |es| => TransformWrite(es[i]))
  }

  /**
   * The write-out: the node takes `position ?? startPosition`,
   * `rotation ?? startRotation` and `scale ?? startScale` for each facet the
   * entity carries, keeps its old value for each facet it lacks, and nothing
   * else of the entity changes.
   */
  lemma TransformWriteEffect(e: Entity)
    requires e.view.Some?
    ensures var n, m := e.view.value.object3d, TransformWrite(e).view.value.object3d;
      (e.position.Some? ==> m.position == e.position.value.position.GetOr(e.position.value.startPosition)) &&
      (e.position.None? ==> m.position == n.position) &&
      (e.rotation.Some? ==> m.quaternion == e.rotation.value.rotation.GetOr(e.rotation.value.startRotation)) &&
      (e.rotation.None? ==> m.quaternion == n.quaternion) &&
      (e.scale.Some? ==> m.scale == e.scale.value.scale.GetOr(e.scale.value.startScale)) &&
      (e.scale.None? ==> m.scale == n.scale) &&
      m.graph == n.graph && m.visible == n.visible
    ensures TransformWrite(e) == e.(view := TransformWrite(e).view) && TransformWrite(e).view.Some?
  {
  }

  /** An entity without a view is not touched by the write-out. */
  lemma TransformWriteNoView(e: Entity)
    requires e.view.None?
    ensures TransformWrite(e) == e
  {
  }

  /** Writing out twice is the same as writing out once. */
  lemma TransformPassIdempotent(es: seq<Entity>)
    ensures TransformPass(TransformPass(es)) == TransformPass(es)
  {
    var once := TransformPass(es);
    forall i | 0 <= i < |es|
      ensures TransformPass(once)[i] == once[i]
    {
      var e := es[i];
      if e.view.Some? {
        TransformWriteEffect(e);
        TransformWriteEffect(once[i]);
      }
    }
  }

  // ----------------------------------------------------- ParentTransformSystem

  /**
   * Whether `e` is in the query `hasAll(CIDFacet, Position)` and passes the
   * filter `cid?.equals(target) ?? false`; a missing target equals no CID.
   */
  predicate IsParentOf(e: Entity, target: Option<Cid>) {
    e.cidFacet.Some? && e.position.Some? && e.cidFacet.value.cid.Some? && e.cidFacet.value.cid == target
  }

  /** The first index at or after `from` whose entity passes the parent filter. */
  function FirstParentFrom(es: seq<Entity>, target: Option<Cid>, from: nat): (r: Option<nat>)
    requires from <= |es|
    ensures r.Some? ==> from <= r.value < |es| && IsParentOf(es[r.value], target)
    ensures r.Some? ==> forall j :: from <= j < r.value ==> !IsParentOf(es[j], target)
    ensures r.None? ==> forall j :: from <= j < |es| ==> !IsParentOf(es[j], target)
    decreases |es| - from
  {
    if from == |es| then None
    else if IsParentOf(es[from], target) then Some(from)
    else FirstParentFrom(es, target, from + 1)
  }

  /**
   * `parentQuery.filter(...)` followed by `parentResult[0]`: the first
   * matching entity in query order, or None when the filter is empty.
   */
  function ParentLookup(es: seq<Entity>, target: Option<Cid>): (r: Option<nat>)
    ensures r.Some? ==> r.value < |es| && IsParentOf(es[r.value], target)
    ensures r.Some? ==> forall j :: 0 <= j < r.value ==> !IsParentOf(es[j], target)
    ensures r.None? <==> forall j :: 0 <= j < |es| ==> !IsParentOf(es[j], target)
  {
    FirstParentFrom(es, target, 0)
  }

  /** Whether `e` is in the query `hasAll(Parent, Position)`. */
  predicate IsChild(e: Entity) {
    e.parent.Some? && e.position.Some?
  }

  /** `e` with its resolved position forgotten: two entities with equal images differ at most there. */
  function ClearResolved(e: Entity): Entity {
    if e.position.Some? then e.(position := Some(e.position.value.(position := None))) else e
  }

  /**
   * The loop body of ParentTransformSystem for the entity at index `i`, run
   * on the store as the earlier iterations have left it. The parent's
   * resolved-or-start position is cloned, so only the child changes.
   */
  function ParentStep(es: seq<Entity>, i: nat): (r: seq<Entity>)
    requires i < |es|
    ensures |r| == |es|
    ensures forall j :: 0 <= j < |es| && j != i ==> r[j] == es[j]
    ensures ClearResolved(r[i]) == ClearResolved(es[i])
    ensures SameLookupKeys(es, r)
    ensures !IsChild(es[i]) ==> r[i] == es[i]
  {
    var e := es[i];
    if IsChild(e) then
      match ParentLookup(es, e.parent.value.parent)
      case None => es
      case Some(k) =>
        var newPosition := ResolvedPosition(es[k].position.value);
        var own := e.position.value;
        es[i := e.(position := Some(own.(position := Some(Add(newPosition, own.startPosition)))))]
    else es
  }

  /** The store after the first `n` iterations of ParentTransformSystem's loop. */
  function ParentPrefix(es: seq<Entity>, n: nat): (r: seq<Entity>)
    requires n <= |es|
    ensures SameLookupKeys(es, r)
  {
    if n == 0 then es else ParentStep(ParentPrefix(es, n - 1), n - 1)
  }

  function ParentPass(es: seq<Entity>): (r: seq<Entity>)
    ensures SameLookupKeys(es, r)
  {
    ParentPrefix(es, |es|)
  }

  /** Two stores whose entities agree on everything the parent filter reads. */
  predicate SameLookupKeys(a: seq<Entity>, b: seq<Entity>) {
    |a| == |b| &&
    forall j :: 0 <= j < |a| ==> a[j].cidFacet == b[j].cidFacet && a[j].position.Some? == b[j].position.Some?
  }

  /** The first match depends only on what the filter reads. */
  lemma LookupStable(a: seq<Entity>, b: seq<Entity>, target: Option<Cid>)
    requires SameLookupKeys(a, b)
    ensures ParentLookup(a, target) == ParentLookup(b, target)
  {
    assert forall j :: 0 <= j < |a| ==> (IsParentOf(a[j], target) <==> IsParentOf(b[j], target));
  }

  /**
   * After `n` iterations, every entity differs from the original at most in
   * its resolved position; entities outside the child query, and those not
   * yet visited, are exactly as they were.
   */
  lemma {:induction false} ParentPrefixFrame(es: seq<Entity>, n: nat, j: nat)
    requires n <= |es| && j < |es|
    ensures ClearResolved(ParentPrefix(es, n)[j]) == ClearResolved(es[j])
    ensures !IsChild(es[j]) || j >= n ==> ParentPrefix(es, n)[j] == es[j]
  {
    if n > 0 {
      ParentPrefixFrame(es, n - 1, j);
      var prev := ParentPrefix(es, n - 1);
      if j == n - 1 {
        assert IsChild(prev[j]) == IsChild(es[j]);
      }
    }
  }

  lemma ClearResolvedKeys(a: Entity, b: Entity)
    requires ClearResolved(a) == ClearResolved(b)
    ensures a.cidFacet == b.cidFacet && a.position.Some? == b.position.Some?
    ensures a.parent == b.parent && IsChild(a) == IsChild(b) && a.view == b.view
    ensures a.position.Some? ==> a.position.value.startPosition == b.position.value.startPosition
  {
    if a.position.Some? {
      assert ClearResolved(a).position.Some?;
    } else {
      assert ClearResolved(b).position.None?;
    }
  }

  /** Once iteration `j` is done, later iterations leave entity `j` alone. */
  lemma {:induction false} ParentPrefixSettled(es: seq<Entity>, n: nat, j: nat)
    requires j < n <= |es|
    ensures ParentPrefix(es, n)[j] == ParentPrefix(es, j + 1)[j]
  {
    if n > j + 1 {
      ParentPrefixSettled(es, n - 1, j);
    }
  }

  /**
   * What one run of ParentTransformSystem does to a child `i`:
   * with no live entity carrying the parent CID, the child is left exactly as
   * it was (its resolved position is neither reset nor cleared); otherwise
   * its resolved position becomes the first match's resolved-or-start
   * position, as the pass has left that entity by the time it reaches `i`,
   * plus the child's own start position.
   */
  lemma ParentPassChild(es: seq<Entity>, i: nat)
    requires i < |es| && IsChild(es[i])
    ensures var target, own := es[i].parent.value.parent, es[i].position.value;
      match ParentLookup(es, target)
      case None => ParentPass(es)[i] == es[i]
      case Some(k) =>
        ParentPass(es)[i] ==
        es[i].(position := Some(own.(position := Some(Add(ResolvedPosition(ParentPrefix(es, i)[k].position.value), own.startPosition)))))
  {
    var before := ParentPrefix(es, i);
    ParentPrefixFrame(es, i, i);
    LookupStable(es, before, es[i].parent.value.parent);
    ParentPrefixSettled(es, |es|, i);
  }

  /** An entity outside the child query (a parent, say) is not changed by the pass. */
  lemma ParentPassNonChild(es: seq<Entity>, j: nat)
    requires j < |es| && !IsChild(es[j])
    ensures ParentPass(es)[j] == es[j]
  {
    ParentPrefixFrame(es, |es|, j);
  }

  /** The pass changes nothing but resolved positions: no start value, no other facet. */
  lemma ParentPassFrame(es: seq<Entity>, j: nat)
    requires j < |es|
    ensures ClearResolved(ParentPass(es)[j]) == ClearResolved(es[j])
  {
    ParentPrefixFrame(es, |es|, j);
  }

  /**
   * When the parent is not a child itself, or comes later in query order, the
   * child reads the parent's value from before the pass: parent's
   * `position ?? startPosition` plus the child's `startPosition`.
   */
  lemma ParentPassStaticParent(es: seq<Entity>, i: nat, k: nat)
    requires i < |es| && IsChild(es[i])
    requires ParentLookup(es, es[i].parent.value.parent) == Some(k)
    requires !IsChild(es[k]) || k >= i
    ensures ParentPass(es)[i].position ==
      Some(Position(es[i].position.value.startPosition,
                    Some(Add(es[k].position.value.position.GetOr(es[k].position.value.startPosition),
                             es[i].position.value.startPosition))))
  {
    ParentPassChild(es, i);
    ParentPrefixFrame(es, i, k);
  }

  /**
   * Zero displacement: a parent whose resolved-or-start position, as the
   * child reads it, is the origin puts the child at its own start position.
   * The child reads the pre-pass value of a parent that is not a child or
   * comes later in query order, and the new value of a parent that is a child
   * and comes earlier.
   */
  lemma ParentPassZeroDisplacement(es: seq<Entity>, i: nat, k: nat)
    requires i < |es| && IsChild(es[i])
    requires ParentLookup(es, es[i].parent.value.parent) == Some(k)
    requires || ((!IsChild(es[k]) || k >= i) && ResolvedPosition(es[k].position.value) == Zero)
             || (k < i && ResolvedPosition(ParentPass(es)[k].position.value) == Zero)
    ensures ParentPass(es)[i].position.Some?
    ensures ParentPass(es)[i].position.value.position == Some(es[i].position.value.startPosition)
  {
    if (!IsChild(es[k]) || k >= i) && ResolvedPosition(es[k].position.value) == Zero {
      ParentPassStaticParent(es, i, k);
    } else {
      ParentPassEarlierParent(es, i, k);
    }
  }

  /**
   * No entity's start value, and no facet other than the resolved position,
   * is changed by the pass: the parent's position is cloned before the add.
   */
  lemma ParentPassKeepsStartValues(es: seq<Entity>, j: nat)
    requires j < |es|
    ensures var r := ParentPass(es)[j];
      r.position.Some? == es[j].position.Some? &&
      (r.position.Some? ==> r.position.value.startPosition == es[j].position.value.startPosition) &&
      r == es[j].(position := r.position)
  {
    ParentPassFrame(es, j);
    var r := ParentPass(es)[j];
    ClearResolvedKeys(es[j], r);
    if es[j].position.Some? {
      assert ClearResolved(r).position == ClearResolved(es[j]).position;
    }
  }

  /**
   * A parent that is itself a child and comes earlier in query order has
   * already been resolved in this pass: the child builds on the parent's new
   * resolved position, so a chain resolves within one tick when it is listed
   * parents first.
   */
  lemma ParentPassEarlierParent(es: seq<Entity>, i: nat, k: nat)
    requires i < |es| && IsChild(es[i])
    requires ParentLookup(es, es[i].parent.value.parent) == Some(k)
    requires k < i
    ensures ParentPass(es)[i].position.Some? && ParentPass(es)[k].position.Some?
    ensures ParentPass(es)[i].position.value.position ==
      Some(Add(ResolvedPosition(ParentPass(es)[k].position.value), es[i].position.value.startPosition))
  {
    ParentPassChild(es, i);
    ParentPrefixSettled(es, i, k);
    ParentPrefixSettled(es, |es|, k);
  }

  /**
   * An entity that names its own CID as parent (and is the first entity
   * with that CID) moves by its own start position on every pass.
   */
  lemma ParentPassSelfParent(es: seq<Entity>, i: nat)
    requires i < |es| && IsChild(es[i])
    requires ParentLookup(es, es[i].parent.value.parent) == Some(i)
    ensures ParentPass(es)[i].position.Some?
    ensures ParentPass(es)[i].position.value.position ==
      Some(Add(ResolvedPosition(es[i].position.value), es[i].position.value.startPosition))
  {
    ParentPassStaticParent(es, i, i);
  }
}
