# ecs-ipld entity pipeline, modelled in Dafny

This project models the entity-component pipeline of `ecs-ipld/src/components/IPLDWorld.tsx`.
Scene entities are decoded from content-addressed records into facets: `CIDFacet`, `GLTFFacet`, `Position`, `Scale`, `Rotation`, `Parent`, `TrackedImage` and `ThreeView`.
Every animation frame, three systems update those facets in place:

- `GLTFSystem` attaches a loaded model to the entity's view and makes it visible.
- `TransformSystem` copies `resolved ?? start` of each transform facet into the scene-graph node.
- `ParentTransformSystem` sets a child's resolved position to its parent's position plus its own start position.

`ImageTrackingSystem` appends a descriptor to the tracked-image list whenever an entity with a `TrackedImage` facet appears.

Layout:

- `wrappers.dfy`: `Option`, with `GetOr` as TypeScript's `??`.
- `vectors.dfy`: `Vector3` and `Quaternion` as triples and quadruples of reals; `Add`.
- `components.dfy`: `Cid`, the facets, `EntityData` (the fetched record), `Entity` (one optional slot per facet), the field initialisers.
- `decoding.dfy`: `Decode`, what `Model` mounts for a record, before and after the model has loaded.
- `systems.dfy`: each system as a pure pass over the entity store, with its properties.
- `schedule.dfy`: one tick as GLTF, then Transform, then ParentTransform (the mount order), and the one-tick latency this gives.
- `image_tracking.dfy`: the tracked-image list update.
- `world.dfy`: class `World`. It holds the store as a `seq<Entity>` and the tracked-image list. Its methods are the systems written as loops that update the store in place, each proved equal to its pass.

The query engine of `@react-ecs/core` is not part of this model. It is replaced by a sequence of entities; a query is a filter over that sequence, in that order. The sequence lists entities in the order they started matching the systems' queries. An entity spawns into it when its record is fetched, but it joins the systems' queries only when its model loads. At that point `AttachModel` moves it to the end.
`ThreeView.object3d` and `view.ref.current` are taken to be the same scene-graph node.

Three facts about `IPLDWorld.tsx` shape the model:

- The systems run in mount order: GLTF, Transform, ParentTransform. The write-out therefore runs before parent resolution, not last.
- When no parent is found, the child's resolved position keeps its previous value. It is not reset to `startPosition`.
- `startPosition`, `startScale` and `startRotation` are never absent. They have defaults: (0,0,0), (1,1,1) and the zero quaternion (0,0,0,0).

## Model

| member | source | states |
|---|---|---|
| `Decoding.Decode` | ecs-ipld/src/components/IPLDWorld.tsx:234-283 | `CIDFacet` is always mounted with the entity's CID. GLTF, transform facets and view are mounted iff the model has loaded. `Parent` iff loaded and the record names a parent. `TrackedImage` iff the record has one, with its fields. Each `start*` is the record's value when present, else (0,0,0), (1,1,1) or (0,0,0,0). Resolved values are absent. The view is hidden. |
| `Decoding.LoadOnlyAddsFacets` | ecs-ipld/src/components/IPLDWorld.tsx:262-283 | Before the model loads, the entity carries only `CIDFacet` and (maybe) `TrackedImage`. Both are the same after loading. |
| `Decoding.DefaultsIndistinguishable` | ecs-ipld/src/components/IPLDWorld.tsx:35-48 | A record whose position, scale or rotation equals the default decodes to the same entity as one without that field. |
| `Components.DefaultPosition` | ecs-ipld/src/components/IPLDWorld.tsx:35-38 | Definition: `startPosition` (0,0,0), no resolved position. No contract of its own; `Decoding.Decode` states the defaults. |
| `Components.DefaultScale` | ecs-ipld/src/components/IPLDWorld.tsx:40-43 | Definition: `startScale` (1,1,1), no resolved scale. No contract of its own; `Decoding.Decode` states the defaults. |
| `Components.DefaultRotation` | ecs-ipld/src/components/IPLDWorld.tsx:45-48 | Definition: `startRotation` the zero quaternion (0,0,0,0), no resolved rotation. No contract of its own; `Decoding.Decode` states the defaults. |
| `Components.HiddenNode` | ecs-ipld/src/components/IPLDWorld.tsx:273 | Definition: a fresh `object3D` mounted with `visible={false}`. No contract of its own; `Decoding.Decode` states the view starts hidden and empty. |
| `Components.ResolvedPosition` | ecs-ipld/src/components/IPLDWorld.tsx:114-115 | Definition: `position ?? startPosition`. No contract of its own; `Systems.ParentPassStaticParent` and `Systems.TransformWriteEffect` state it. |
| `Components.ResolvedScale` | ecs-ipld/src/components/IPLDWorld.tsx:142 | Definition: `scale ?? startScale`. No contract of its own; `Systems.TransformWriteEffect` states it. |
| `Components.ResolvedRotation` | ecs-ipld/src/components/IPLDWorld.tsx:138 | Definition: `rotation ?? startRotation`. No contract of its own; `Systems.TransformWriteEffect` states it. |
| `Decoding.MountPosition` | ecs-ipld/src/components/IPLDWorld.tsx:234-241 | Definition: the `Position` facet mounted with the spread props. No contract of its own; `Decoding.Decode` states the result. |
| `Decoding.MountScale` | ecs-ipld/src/components/IPLDWorld.tsx:243-250 | Definition: the `Scale` facet mounted with the spread props. No contract of its own; `Decoding.Decode` states the result. |
| `Decoding.MountRotation` | ecs-ipld/src/components/IPLDWorld.tsx:252-260 | Definition: the `Rotation` facet mounted with the spread props. No contract of its own; `Decoding.Decode` states the result. |
| `Systems.NeedsAttach` | ecs-ipld/src/components/IPLDWorld.tsx:89-93 | Definition: membership in `hasAll(ThreeView, GLTFFacet)` together with the guard `glTFModel && visible == false`. No contract of its own; `Systems.GltfAttachEffect` states it. |
| `Systems.GltfAttach` | ecs-ipld/src/components/IPLDWorld.tsx:92-96 | Definition: GLTFSystem's loop body for one entity. No contract of its own; `GltfAttachEffect` states it. |
| `Systems.GltfPass` | ecs-ipld/src/components/IPLDWorld.tsx:91-98 | GLTFSystem over the store keeps the store's length. `GltfPassIdempotent` and `World.GltfSystem` build on it. |
| `Systems.InTransformQuery` | ecs-ipld/src/components/IPLDWorld.tsx:124-125 | Definition: membership in `hasAll(ThreeView) && hasAny(Position, Rotation, Scale)`. No contract of its own; `Systems.TransformWriteEffect` and `Systems.TransformWriteNoView` state it. |
| `Systems.TransformWrite` | ecs-ipld/src/components/IPLDWorld.tsx:132-144 | Definition: TransformSystem's loop body for one entity. No contract of its own; `TransformWriteEffect` states it. |
| `Systems.TransformPass` | ecs-ipld/src/components/IPLDWorld.tsx:128-147 | TransformSystem over the store keeps the store's length. `TransformPassIdempotent` and `World.TransformSystem` build on it. |
| `Systems.ParentPass` | ecs-ipld/src/components/IPLDWorld.tsx:105-120 | The whole ParentTransformSystem pass never changes CIDs or `Position` presence. The `ParentPass*` lemmas state its effect. |
| `Systems.GltfAttachEffect` | ecs-ipld/src/components/IPLDWorld.tsx:92-96 | Only a loaded model with a hidden view is attached. The view node then becomes a copy of the model's scene (graph, position, quaternion, scale), made visible. Otherwise the entity is unchanged. Nothing but the view ever changes. |
| `Systems.GltfPassIdempotent` | ecs-ipld/src/components/IPLDWorld.tsx:91-98 | Running GLTFSystem a second time changes nothing. |
| `Systems.TransformWriteEffect` | ecs-ipld/src/components/IPLDWorld.tsx:132-144 | The node takes `position ?? startPosition`, `rotation ?? startRotation` and `scale ?? startScale` for each facet present. It keeps its old value for an absent facet. Graph, visibility and every facet are unchanged. |
| `Systems.TransformWriteNoView` | ecs-ipld/src/components/IPLDWorld.tsx:124-126 | An entity without a view is outside the query and is not touched. |
| `Systems.TransformPassIdempotent` | ecs-ipld/src/components/IPLDWorld.tsx:128-147 | Writing out twice equals writing out once. |
| `Systems.IsChild` | ecs-ipld/src/components/IPLDWorld.tsx:102 | Definition: membership in `hasAll(Parent, Position)`. No contract of its own; `Systems.ParentStep` and `Systems.ParentPassNonChild` state it. |
| `Systems.IsParentOf` | ecs-ipld/src/components/IPLDWorld.tsx:103-108 | Definition: membership in `hasAll(CIDFacet, Position)`, plus a CID that is present and equals the target. A missing target (`parent` undefined) or a missing `cid` matches nothing, as `cid?.equals(parent.parent) ?? false` gives. No contract of its own; `Systems.ParentLookup` states it. |
| `Systems.FirstParentFrom` | ecs-ipld/src/components/IPLDWorld.tsx:107-109 | Returns the first index at or after `from` that passes the parent filter, or none when no such index exists. |
| `Systems.ParentLookup` | ecs-ipld/src/components/IPLDWorld.tsx:107-111 | The entity used as parent is the first match in query order among entities with `CIDFacet` and `Position`. The lookup fails iff no entity matches. |
| `Systems.ParentStep` | ecs-ipld/src/components/IPLDWorld.tsx:106-118 | One loop iteration changes only entity `i`, and only its resolved position. An entity outside the child query is unchanged. |
| `Systems.ParentPrefix` | ecs-ipld/src/components/IPLDWorld.tsx:106-119 | The loop's iterations never change what the parent filter reads (CIDs and `Position` presence). |
| `Systems.LookupStable` | ecs-ipld/src/components/IPLDWorld.tsx:103-109 | The parent found depends only on the entities' CIDs and `Position` presence. |
| `Systems.ParentPrefixFrame` | ecs-ipld/src/components/IPLDWorld.tsx:113-116 | After any number of iterations, each entity differs at most in its resolved position. Non-children and entities not yet visited are unchanged. |
| `Systems.ParentPrefixSettled` | ecs-ipld/src/components/IPLDWorld.tsx:106 | Once the loop has visited an entity, later iterations leave it alone. |
| `Systems.ParentPassChild` | ecs-ipld/src/components/IPLDWorld.tsx:106-118 | No matching parent: the child is left exactly as it was. Parent found: the child's resolved position is the parent's `position ?? startPosition`, as the pass has left it so far, plus the child's `startPosition`. |
| `Systems.ParentPassNonChild` | ecs-ipld/src/components/IPLDWorld.tsx:102 | An entity not carrying both `Parent` and `Position`, such as a parent, is not changed. |
| `Systems.ParentPassFrame` | ecs-ipld/src/components/IPLDWorld.tsx:113-116 | The pass changes only resolved positions. |
| `Systems.ParentPassKeepsStartValues` | ecs-ipld/src/components/IPLDWorld.tsx:113-116 | No `startPosition` and no other facet changes. The parent's values are cloned before the add. |
| `Systems.ParentPassStaticParent` | ecs-ipld/src/components/IPLDWorld.tsx:110-117 | Take a parent that is not itself a child, or that comes later in query order. The child's resolved position becomes that parent's pre-pass `position ?? startPosition` plus the child's `startPosition`; its start value is unchanged. |
| `Systems.ParentPassZeroDisplacement` | ecs-ipld/src/components/IPLDWorld.tsx:113-116 | A parent whose position, as the child reads it, is the origin gives the child its own `startPosition` as resolved position. This covers both the parent's pre-pass value and, for an earlier child-parent, its new value. |
| `Systems.ParentPassEarlierParent` | ecs-ipld/src/components/IPLDWorld.tsx:106-117 | A parent that is itself a child and comes earlier in query order is resolved first. The child builds on the parent's new value. |
| `Systems.ParentPassSelfParent` | ecs-ipld/src/components/IPLDWorld.tsx:107-116 | An entity whose parent CID is its own moves by its `startPosition` on each pass, while it is the first entity with its CID. |
| `Schedule.Tick` | ecs-ipld/src/components/IPLDWorld.tsx:333-335 | One tick never changes CIDs or `Position` presence. |
| `Schedule.ViewPassesKeepFacets` | ecs-ipld/src/components/IPLDWorld.tsx:88-148 | GLTFSystem and TransformSystem change views and nothing else. |
| `Schedule.TickWritesPreviousPosition` | ecs-ipld/src/components/IPLDWorld.tsx:333-335 | The node position written in a tick is the entity's `position ?? startPosition` from before the tick. |
| `Schedule.ParentPositionOneTickLate` | ecs-ipld/src/components/IPLDWorld.tsx:333-335 | Take a parent that is not a child. After one tick the child's resolved position is the parent's plus its own start. Its node still shows the old value. After a second tick the node shows the new value. |
| `Schedule.TickLeavesUnloadedEntity` | ecs-ipld/src/components/IPLDWorld.tsx:262-276 | An entity whose model is still loading is not changed by a tick. |
| `ImageTracking.Describe` | ecs-ipld/src/components/IPLDWorld.tsx:160-163 | Definition: the descriptor built from a `TrackedImage` facet's two fields. No contract of its own; `ImageTracking.DecodedDescriptor` states it. |
| `ImageTracking.AddTrackedImage` | ecs-ipld/src/components/IPLDWorld.tsx:159-165 | The new list is the old list unchanged, followed by the new descriptor. |
| `ImageTracking.AddAllAppendsInOrder` | ecs-ipld/src/components/IPLDWorld.tsx:157-166 | After several additions, each seeing the previous list: the original list followed by one descriptor per addition, in order. |
| `ImageTracking.AddAll` | ecs-ipld/src/components/IPLDWorld.tsx:157-166 | Definition: several additions in turn. No contract of its own; `AddAllAppendsInOrder` states its result. |
| `ImageTracking.AddAllSingle` | ecs-ipld/src/components/IPLDWorld.tsx:165 | One addition through `AddAll` is exactly the append one `Spawn` performs. |
| `ImageTracking.AddAllConcat` | ecs-ipld/src/components/IPLDWorld.tsx:157-166 | Adding `a` and then `b` equals adding `a + b`. |
| `ImageTracking.SpawnsAccumulate` | ecs-ipld/src/components/IPLDWorld.tsx:157-166 | After a run of `Spawn`s whose records carry tracked images, the list, which each `World.Spawn` extends by its record's `trackedImage`, is `AddAll` of the decoded entities' facets: the old list followed by the records' descriptors in spawn order. |
| `ImageTracking.DecodedDescriptor` | ecs-ipld/src/components/IPLDWorld.tsx:277-281 | The descriptor appended for a decoded entity is the record's own `trackedImage`. |
| `EcsWorld.World.constructor` | ecs-ipld/src/components/IPLDWorld.tsx:291-293 | The world starts with no entities and an empty tracked-image list. |
| `EcsWorld.World.Spawn` | ecs-ipld/src/components/IPLDWorld.tsx:262-283 | The decoded, not yet loaded entity is appended to the store. The record's `trackedImage`, if any, is appended to the tracked-image list. |
| `EcsWorld.World.AttachModel` | ecs-ipld/src/components/IPLDWorld.tsx:265-276 | Once the model has loaded, entity `i` becomes its loaded decoding and moves after every other entity, because it now first matches the systems' queries. The tracked-image list is unchanged. |
| `EcsWorld.World.GltfSystem` | ecs-ipld/src/components/IPLDWorld.tsx:88-99 | The in-place loop leaves the store equal to `GltfPass` of the old store. |
| `EcsWorld.World.TransformSystem` | ecs-ipld/src/components/IPLDWorld.tsx:123-148 | The in-place loop leaves the store equal to `TransformPass` of the old store. |
| `EcsWorld.World.ParentTransformSystem` | ecs-ipld/src/components/IPLDWorld.tsx:101-121 | The in-place loop, whose lookups see earlier iterations' updates, leaves the store equal to `ParentPass` of the old store. |
| `EcsWorld.World.Update` | ecs-ipld/src/components/IPLDWorld.tsx:333-335 | One frame leaves the store equal to `Tick` of the old store. |

## Left out

- Record fetching: the IPFS `dag.get` with its 2 s timeout and the Web3.storage CAR fallback and import (lines 174-232). This is network I/O; the fetched record is a parameter of `Spawn`.
- glTF asset loading and progress logging (lines 213-228). This is a foreign-library callback; the loaded model is a parameter of `AttachModel`. A failed load sets the model to null, which is what it already was, so it is not modelled.
- AttachModel: the ordering by load completion is taken from how `@react-ecs/core` lists a query's entities (appended when they start matching). The library is not part of this model, so this order is an assumption.
- Rendering: `ARButton`, `Canvas`, `XR`, the hemisphere light, the `showWorld` flag, `transform.updateMatrix()` and `useAnimationFrame(ECS.update)` (lines 287-355). One frame is `World.Update`.
- `Object3D.copy` is modelled as copying the scene's graph, transform and visibility into the view node. Its recursive copy of children is abstracted to a graph identifier.
- Floating point: vectors and quaternions are over `real`, so `Vector3.add` is exact.
- The internals of `@react-ecs/core` and `tick-knock`: query indexing, change notification, and when a query's `added` callback is re-registered. `ImageTrackingSystem`'s callback appends to the list it captured when it was registered. `AddAll` and `Spawn` assume that each addition sees the list the previous one left. If the library kept a callback from an older render, additions between two renders could overwrite each other. Whether that happens depends on `@react-ecs/core`, which is not part of this model.
- Entity removal and `Model` unmounting: `IPLDWorld.tsx` never removes an entity.
- `ecs-ipld/src/components/IPLDScene.tsx`, `ecs-ipld/src/App.tsx`, `ecs-ipld/src/index.tsx`, `aframe-ipld/src/App.tsx` and `aframe-ipld/src/components/IPLDScene.tsx` are not part of this model. They hold provider setup, URL-hash reading and direct rendering only.
