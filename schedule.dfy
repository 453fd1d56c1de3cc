/**
 * One tick of the world: the systems run in the order they are mounted,
 * GLTFSystem, then TransformSystem, then ParentTransformSystem, so a
 * position resolved from a parent reaches the scene graph one tick later.
 */
module Schedule {
  import opened Wrappers
  import opened Vectors
  import opened Components
  import opened Decoding
  import opened Systems

  function Tick(es: seq<Entity>): (r: seq<Entity>)
    ensures SameLookupKeys(es, r)
  {
    var afterTransform := TransformPass(GltfPass(es));
    ViewPassesKeepFacets(es);
    ParentPass(afterTransform)
  }

  /** GLTFSystem and TransformSystem change views and nothing else. */
  lemma ViewPassesKeepFacets(es: seq<Entity>)
    ensures forall j :: 0 <= j < |es| ==> GltfPass(es)[j] == es[j].(view := GltfPass(es)[j].view)
    ensures forall j :: 0 <= j < |es| ==>
      TransformPass(GltfPass(es))[j] == es[j].(view := TransformPass(GltfPass(es))[j].view)
    ensures SameLookupKeys(es, TransformPass(GltfPass(es)))
  {
    forall j | 0 <= j < |es|
      ensures GltfPass(es)[j] == es[j].(view := GltfPass(es)[j].view)
      ensures TransformPass(GltfPass(es))[j] == es[j].(view := TransformPass(GltfPass(es))[j].view)
    {
      GltfAttachEffect(es[j]);
      var g := GltfPass(es)[j];
      if g.view.Some? {
        TransformWriteEffect(g);
      } else {
        TransformWriteNoView(g);
      }
    }
  }

  /**
   * The node position written in a tick is the entity's
   * `position ?? startPosition` as it stood before the tick: this tick's
   * parent resolution is not yet visible.
   */
  lemma TickWritesPreviousPosition(es: seq<Entity>, i: nat)
    requires i < |es| && es[i].view.Some? && es[i].position.Some?
    ensures Tick(es)[i].view.Some?
    ensures Tick(es)[i].view.value.object3d.position == ResolvedPosition(es[i].position.value)
  {
    ViewPassesKeepFacets(es);
    var g := GltfPass(es);
    var t := TransformPass(g);
    TransformWriteEffect(g[i]);
    ParentPassFrame(t, i);
    ClearResolvedKeys(t[i], Tick(es)[i]);
  }

  /**
   * A child whose parent is not itself a child: after one tick its resolved
   * position is the parent's resolved-or-start position plus its own start
   * position, while its node still shows the old value; after the second
   * tick the node shows the new one.
   */
  lemma ParentPositionOneTickLate(es: seq<Entity>, i: nat, k: nat)
    requires i < |es| && IsChild(es[i]) && es[i].view.Some?
    requires ParentLookup(es, es[i].parent.value.parent) == Some(k)
    requires !IsChild(es[k])
    ensures var own, target := es[i].position.value.startPosition, Add(ResolvedPosition(es[k].position.value), es[i].position.value.startPosition);
      Tick(es)[i].position == Some(Position(own, Some(target))) &&
      Tick(es)[i].view.Some? &&
      Tick(es)[i].view.value.object3d.position == ResolvedPosition(es[i].position.value) &&
      Tick(Tick(es))[i].view.Some? &&
      Tick(Tick(es))[i].view.value.object3d.position == target
  {
    ViewPassesKeepFacets(es);
    var t := TransformPass(GltfPass(es));
    LookupStable(es, t, es[i].parent.value.parent);
    assert t[k] == es[k].(view := t[k].view);
    assert t[i] == es[i].(view := t[i].view);
    ParentPassStaticParent(t, i, k);
    TickWritesPreviousPosition(es, i);
    TickWritesPreviousPosition(Tick(es), i);
  }

  /** An entity whose model is still loading carries no facet any system acts on. */
  lemma TickLeavesUnloadedEntity(es: seq<Entity>, i: nat, entityCID: Cid, data: EntityData)
    requires i < |es| && es[i] == Decode(entityCID, data, None)
    ensures Tick(es)[i] == es[i]
  {
    ViewPassesKeepFacets(es);
    var t := TransformPass(GltfPass(es));
    assert t[i] == es[i];
    ParentPassNonChild(t, i);
  }
}
