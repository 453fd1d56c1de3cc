/**
 * The facets (components) of the entity-component store in IPLDWorld.tsx,
 * the record an entity is decoded from, and the entity itself: one optional
 * slot per facet class.
 */
module Components {
  import opened Wrappers
  import opened Vectors

  /** A content identifier; two CIDs are `equals` when version, codec and multihash agree. */
  datatype Cid = Cid(version: nat, codec: nat, multihash: seq<bv8>)

  /**
   * A three.js scene-graph node (`Object3D`): the loaded graph it holds
   * (abstracted to an identifier), its transform and its visibility.
   */
  datatype SceneNode = SceneNode(graph: Option<nat>, position: Vec3, quaternion: Quat, scale: Vec3, visible: bool)

  /** A loaded glTF asset; only its root scene is used. */
  datatype Gltf = Gltf(scene: SceneNode)

  datatype CidFacet = CidFacet(cid: Option<Cid>)

  datatype GltfFacet = GltfFacet(glTFModel: Option<Gltf>)

  /** Each transform facet pairs the authored `start*` value with an optional resolved value. */
  datatype Position = Position(startPosition: Vec3, position: Option<Vec3>)

  datatype Scale = Scale(startScale: Vec3, scale: Option<Vec3>)

  datatype Rotation = Rotation(startRotation: Quat, rotation: Option<Quat>)

  datatype Parent = Parent(parent: Option<Cid>)

  datatype TrackedImage = TrackedImage(imageAsset: Option<Cid>, physicalWidthInMeters: Option<real>)

  /** The `ThreeView` facet: the scene-graph node the entity renders into. */
  datatype ThreeView = ThreeView(object3d: SceneNode)

  /** `TrackedImageComponent`: an entry of the tracked-image list, and the record's `trackedImage` field. */
  datatype TrackedImageDescriptor = TrackedImageDescriptor(imageAsset: Option<Cid>, physicalWidthInMeters: Option<real>)

  /** `EntityData`: the record fetched for an entity. */
  datatype EntityData = EntityData(
    glTFModel: Cid,
    position: Option<Vec3>,
    scale: Option<Vec3>,
    rotation: Option<Quat>,
    parent: Option<Cid>,
    trackedImage: Option<TrackedImageDescriptor>)

  /** An entity of the store: which facets it carries, and their current values. */
  datatype Entity = Entity(
    cidFacet: Option<CidFacet>,
    gltf: Option<GltfFacet>,
    position: Option<Position>,
    scale: Option<Scale>,
    rotation: Option<Rotation>,
    parent: Option<Parent>,
    trackedImage: Option<TrackedImage>,
    view: Option<ThreeView>)

  // The facet field initialisers.

  function DefaultPosition(): Position {
    Position(Zero, None)
  }

  function DefaultScale(): Scale {
    Scale(Vec3(1.0, 1.0, 1.0), None)
  }

  /** Note: the zero quaternion, not the identity (0, 0, 0, 1). */
  function DefaultRotation(): Rotation {
    Rotation(Quat(0.0, 0.0, 0.0, 0.0), None)
  }

  /** three.js defaults of a fresh `Object3D`, with `visible={false}` as the entity mounts it. */
  function HiddenNode(): SceneNode {
    SceneNode(None, Zero, Quat(0.0, 0.0, 0.0, 1.0), Vec3(1.0, 1.0, 1.0), false)
  }

  // `a.resolved ?? a.start` for each transform facet.

  function ResolvedPosition(p: Position): Vec3 {
    p.position.GetOr(p.startPosition)
  }

  function ResolvedScale(s: Scale): Vec3 {
    s.scale.GetOr(s.startScale)
  }

  function ResolvedRotation(r: Rotation): Quat {
    r.rotation.GetOr(r.startRotation)
  }
}
