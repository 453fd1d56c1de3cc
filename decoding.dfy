/**
 * The record-to-component mapping of the `Model` component: which facets a
 * fetched `EntityData` record mounts on its entity, and with which values.
 */
module Decoding {
  import opened Wrappers
  import opened Vectors
  import opened Components

  // A facet mounted with spread props (`<Position {...position} />`): the
  // props object holds `start*` only when the record has that field, and a
  // prop that is present overrides the field initialiser.

  function MountPosition(startPosition: Option<Vec3>): Position {
    match startPosition
    case Some(v) => DefaultPosition().(startPosition := v)
    case None => DefaultPosition()
  }

  function MountScale(startScale: Option<Vec3>): Scale {
    match startScale
    case Some(v) => DefaultScale().(startScale := v)
    case None => DefaultScale()
  }

  function MountRotation(startRotation: Option<Quat>): Rotation {
    match startRotation
    case Some(q) => DefaultRotation().(startRotation := q)
    case None => DefaultRotation()
  }

  /**
   * The entity `Model` renders for `entityCID` once its record `data` has been
   * fetched, with `gltf` the loaded model (None while it is still loading).
   */
  function Decode(entityCID: Cid, data: EntityData, gltf: Option<Gltf>): (e: Entity)
    // CIDFacet is always mounted; the other facets only once the model has loaded
    ensures e.cidFacet == Some(CidFacet(Some(entityCID)))
    ensures e.gltf == if gltf.Some? then Some(GltfFacet(gltf)) else None
    ensures e.position.Some? <==> gltf.Some?
    ensures e.scale.Some? <==> gltf.Some?
    ensures e.rotation.Some? <==> gltf.Some?
    ensures e.view.Some? <==> gltf.Some?
    // Parent only when the record names a parent
    ensures e.parent.Some? <==> gltf.Some? && data.parent.Some?
    ensures e.parent.Some? ==> e.parent.value.parent == data.parent
    // start values come from the record when it has the field, otherwise the defaults
    ensures e.position.Some? ==> e.position.value.position == None
    ensures e.position.Some? && data.position.Some? ==> e.position.value.startPosition == data.position.value
    ensures e.position.Some? && data.position.None? ==> e.position.value.startPosition == Vec3(0.0, 0.0, 0.0)
    ensures e.scale.Some? ==> e.scale.value.scale == None
    ensures e.scale.Some? && data.scale.Some? ==> e.scale.value.startScale == data.scale.value
    ensures e.scale.Some? && data.scale.None? ==> e.scale.value.startScale == Vec3(1.0, 1.0, 1.0)
    ensures e.rotation.Some? ==> e.rotation.value.rotation == None
    ensures e.rotation.Some? && data.rotation.Some? ==> e.rotation.value.startRotation == data.rotation.value
    ensures e.rotation.Some? && data.rotation.None? ==> e.rotation.value.startRotation == Quat(0.0, 0.0, 0.0, 0.0)
    // the view starts hidden, holding no graph
    ensures e.view.Some? ==> !e.view.value.object3d.visible && e.view.value.object3d.graph == None
    // TrackedImage whenever the record has one, loaded or not, carrying its two fields
    ensures e.trackedImage.Some? <==> data.trackedImage.Some?
    ensures e.trackedImage.Some? ==>
      e.trackedImage.value.imageAsset == data.trackedImage.value.imageAsset &&
      e.trackedImage.value.physicalWidthInMeters == data.trackedImage.value.physicalWidthInMeters
  {
    var loaded := gltf.Some?;
    Entity(
      cidFacet := Some(CidFacet(Some(entityCID))),
      gltf := if loaded then Some(GltfFacet(gltf)) else None,
      position := if loaded then Some(MountPosition(data.position)) else None,
      scale := if loaded then Some(MountScale(data.scale)) else None,
      rotation := if loaded then Some(MountRotation(data.rotation)) else None,
      parent := if loaded && data.parent.Some? then Some(Parent(data.parent)) else None,
      trackedImage :=
        match data.trackedImage
        case Some(t) => Some(TrackedImage(t.imageAsset, t.physicalWidthInMeters))
        case None => None,
      view := if loaded then Some(ThreeView(HiddenNode())) else None)
  }

  /**
   * Loading the model only adds facets: the entity mounted before the load
   * keeps its CIDFacet and TrackedImage, and carries nothing else.
   */
  lemma LoadOnlyAddsFacets(entityCID: Cid, data: EntityData, gltf: Gltf)
    ensures var before, after := Decode(entityCID, data, None), Decode(entityCID, data, Some(gltf));
      before == Entity(after.cidFacet, None, None, None, None, None, after.trackedImage, None)
  {
  }

  /** An authored value equal to the default cannot be told apart from an absent field. */
  lemma DefaultsIndistinguishable(entityCID: Cid, data: EntityData, gltf: Option<Gltf>)
    ensures Decode(entityCID, data.(position := Some(Zero)), gltf) == Decode(entityCID, data.(position := None), gltf)
    ensures Decode(entityCID, data.(scale := Some(Vec3(1.0, 1.0, 1.0))), gltf) == Decode(entityCID, data.(scale := None), gltf)
    ensures Decode(entityCID, data.(rotation := Some(Quat(0.0, 0.0, 0.0, 0.0))), gltf) == Decode(entityCID, data.(rotation := None), gltf)
  {
  }
}
