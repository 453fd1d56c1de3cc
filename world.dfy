/**
 * The world: the entity store that the systems update in place, and the
 * tracked-image list that ImageTrackingSystem maintains beside it.
 */
module EcsWorld {
  import opened Wrappers
  import opened Vectors
  import opened Components
  import opened Decoding
  import opened Systems
  import opened Schedule
  import opened ImageTracking

  class World {
    /**
     * Live entities in the order they started matching the systems' queries,
     * which is the iteration order of those queries. An entity joins them
     * when its model loads, so a loaded entity has moved to the end.
     */
    var entities: seq<Entity>
    var trackedImages: seq<TrackedImageDescriptor>

    constructor ()
      ensures entities == [] && trackedImages == []
    {
      entities := [];
      trackedImages := [];
    }

    /**
     * An entity's record has been fetched and `Model` mounts it; its model
     * is still loading. If it carries a TrackedImage, the query's `added`
     * callback appends the image's descriptor.
     */
    method Spawn(entityCID: Cid, data: EntityData)
      modifies this
      ensures entities == old(entities) + [Decode(entityCID, data, None)]
      ensures data.trackedImage.Some? ==> trackedImages == old(trackedImages) + [data.trackedImage.value]
      ensures data.trackedImage.None? ==> trackedImages == old(trackedImages)
    {
      var e := Decode(entityCID, data, None);
      entities := entities + [e];
      if e.trackedImage.Some? {
        DecodedDescriptor(entityCID, data, None);
        trackedImages := AddTrackedImage(trackedImages, e.trackedImage.value);
      }
    }

    /**
     * The model of entity `i` has loaded and `Model` re-renders it with the
     * transform facets, the GLTF facet and a hidden view. It now matches the
     * systems' queries for the first time, so it is listed after every entity
     * that matched before. No TrackedImage is newly added, so the
     * tracked-image list is unchanged.
     */
    method AttachModel(i: nat, entityCID: Cid, data: EntityData, gltf: Gltf)
      requires i < |entities| && entities[i] == Decode(entityCID, data, None)
      modifies this
      ensures entities == old(entities)[..i] + old(entities)[i + 1..] + [Decode(entityCID, data, Some(gltf))]
      ensures trackedImages == old(trackedImages)
    {
      entities := entities[..i] + entities[i + 1..] + [Decode(entityCID, data, Some(gltf))];
    }

    method GltfSystem()
      modifies this
      ensures entities == GltfPass(old(entities))
      ensures trackedImages == old(trackedImages)
    {
      ghost var start := entities;
      var i := 0;
      while i < |entities|
        invariant 0 <= i <= |entities| == |start|
        invariant forall j :: 0 <= j < i ==> entities[j] == GltfAttach(start[j])
        invariant forall j :: i <= j < |entities| ==> entities[j] == start[j]
        invariant trackedImages == old(trackedImages)
      {
        var e := entities[i];
        if e.view.Some? && e.gltf.Some? {
          var view, gltf := e.view.value, e.gltf.value;
          if gltf.glTFModel.Some? && view.object3d.visible == false {
            var object3d := gltf.glTFModel.value.scene;
            object3d := object3d.(visible := true);
            entities := entities[i := e.(view := Some(ThreeView(object3d)))];
          }
        }
        i := i + 1;
      }
    }

    method TransformSystem()
      modifies this
      ensures entities == TransformPass(old(entities))
      ensures trackedImages == old(trackedImages)
    {
      ghost var start := entities;
      var i := 0;
      while i < |entities|
        invariant 0 <= i <= |entities| == |start|
        invariant forall j :: 0 <= j < i ==> entities[j] == TransformWrite(start[j])
        invariant forall j :: i <= j < |entities| ==> entities[j] == start[j]
        invariant trackedImages == old(trackedImages)
      {
        var e := entities[i];
        if e.view.Some? && (e.position.Some? || e.rotation.Some? || e.scale.Some?) {
          var transform := e.view.value.object3d;
          if e.position.Some? {
            transform := transform.(position := e.position.value.position.GetOr(e.position.value.startPosition));
          }
          if e.rotation.Some? {
            transform := transform.(quaternion := e.rotation.value.rotation.GetOr(e.rotation.value.startRotation));
          }
          if e.scale.Some? {
            transform := transform.(scale := e.scale.value.scale.GetOr(e.scale.value.startScale));
          }
          entities := entities[i := e.(view := Some(ThreeView(transform)))];
        }
        i := i + 1;
      }
    }

    method ParentTransformSystem()
      modifies this
      ensures entities == ParentPass(old(entities))
      ensures trackedImages == old(trackedImages)
    {
      ghost var start := entities;
      var i := 0;
      while i < |entities|
        invariant 0 <= i <= |entities| == |start|
        invariant entities == ParentPrefix(start, i)
        invariant trackedImages == old(trackedImages)
      {
        var e := entities[i];
        if e.parent.Some? && e.position.Some? {
          var parentResult := ParentLookup(entities, e.parent.value.parent);
          if parentResult.Some? {
            var parentPosition := entities[parentResult.value].position.value;
            var newPosition := parentPosition.position.GetOr(parentPosition.startPosition);
            var own := e.position.value;
            entities := entities[i := e.(position := Some(own.(position := Some(Add(newPosition, own.startPosition)))))];
          }
        }
        i := i + 1;
      }
    }

    /** `ECS.update`: the systems in mount order. */
    method Update()
      modifies this
      ensures entities == Tick(old(entities))
      ensures trackedImages == old(trackedImages)
    {
      GltfSystem();
      TransformSystem();
      ParentTransformSystem();
    }
  }
}
