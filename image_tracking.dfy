/**
 * ImageTrackingSystem's list update: when an entity starts carrying a
 * TrackedImage facet, its image descriptor is appended to the tracked-image
 * list held by the world.
 */
module ImageTracking {
  import opened Components
  import opened Decoding

  /** The descriptor built from a TrackedImage facet: its two fields, copied. */
  function Describe(v: TrackedImage): TrackedImageDescriptor {
    TrackedImageDescriptor(v.imageAsset, v.physicalWidthInMeters)
  }

  /** `[...trackedImages, trackedImage]`: the old list unchanged, the new descriptor last. */
  function AddTrackedImage(trackedImages: seq<TrackedImageDescriptor>, v: TrackedImage): (r: seq<TrackedImageDescriptor>)
    ensures |r| == |trackedImages| + 1
    ensures r[..|trackedImages|] == trackedImages
    ensures r[|trackedImages|] == Describe(v)
  {
    trackedImages + [Describe(v)]
  }

  /** Several additions in turn, each one seeing the list the previous one left. */
  function AddAll(trackedImages: seq<TrackedImageDescriptor>, added: seq<TrackedImage>): seq<TrackedImageDescriptor>
    decreases |added|
  {
    if added == [] then trackedImages else AddAll(AddTrackedImage(trackedImages, added[0]), added[1..])
  }

  /** The list after several additions: the original list, then one descriptor per addition, in order. */
  lemma {:induction false} AddAllAppendsInOrder(trackedImages: seq<TrackedImageDescriptor>, added: seq<TrackedImage>)
    ensures |AddAll(trackedImages, added)| == |trackedImages| + |added|
    ensures AddAll(trackedImages, added)[..|trackedImages|] == trackedImages
    ensures forall j :: 0 <= j < |added| ==> AddAll(trackedImages, added)[|trackedImages| + j] == Describe(added[j])
    decreases |added|
  {
    if added != [] {
      var next := AddTrackedImage(trackedImages, added[0]);
      AddAllAppendsInOrder(next, added[1..]);
      var r := AddAll(trackedImages, added);
      assert r[..|trackedImages|] == next[..|next|][..|trackedImages|];
      forall j | 0 <= j < |added|
        ensures r[|trackedImages| + j] == Describe(added[j])
      {
        if j > 0 {
          assert r[|next| + (j - 1)] == Describe(added[1..][j - 1]);
        }
      }
    }
  }

  /** One addition through `AddAll` is one `AddTrackedImage`, as one `Spawn` performs. */
  lemma AddAllSingle(trackedImages: seq<TrackedImageDescriptor>, v: TrackedImage)
    ensures AddAll(trackedImages, [v]) == AddTrackedImage(trackedImages, v)
  {
    assert [v][1..] == [];
  }

  /**
   * Additions compose: adding `a` and then `b` is adding `a + b`, so a run
   * of `Spawn`s, each appending one descriptor, leaves `AddAll` of the list.
   */
  lemma {:induction false} AddAllConcat(trackedImages: seq<TrackedImageDescriptor>, a: seq<TrackedImage>, b: seq<TrackedImage>)
    ensures AddAll(AddAll(trackedImages, a), b) == AddAll(trackedImages, a + b)
    decreases |a|
  {
    if a != [] {
      assert (a + b)[0] == a[0] && (a + b)[1..] == a[1..] + b;
      AddAllConcat(AddTrackedImage(trackedImages, a[0]), a[1..], b);
    } else {
      assert a + b == b;
    }
  }

  /** The descriptor appended for a decoded entity is the record's own `trackedImage`. */
  lemma DecodedDescriptor(entityCID: Cid, data: EntityData, gltf: Wrappers.Option<Gltf>)
    requires data.trackedImage.Some?
    ensures Decode(entityCID, data, gltf).trackedImage.Some?
    ensures Describe(Decode(entityCID, data, gltf).trackedImage.value) == data.trackedImage.value
  {
  }

  /**
   * A run of `Spawn`s with tracked-image records, each appending its record's
   * `trackedImage`, leaves the list `AddAll` of the decoded entities' facets:
   * the original list followed by the records' descriptors, in spawn order.
   */
  lemma SpawnsAccumulate(trackedImages: seq<TrackedImageDescriptor>, cids: seq<Cid>, records: seq<EntityData>)
    requires |cids| == |records|
    requires forall j :: 0 <= j < |records| ==> records[j].trackedImage.Some?
    ensures AddAll(trackedImages, seq(|records|, j requires 0 <= j < |records| => Decode(cids[j], records[j], Wrappers.None).trackedImage.value))
         == trackedImages + seq(|records|, j requires 0 <= j < |records| => records[j].trackedImage.value)
  {
    var added := seq(|records|, j requires 0 <= j < |records| => Decode(cids[j], records[j], Wrappers.None).trackedImage.value);
    var expected := trackedImages + seq(|records|, j requires 0 <= j < |records| => records[j].trackedImage.value);
    AddAllAppendsInOrder(trackedImages, added);
    var r := AddAll(trackedImages, added);
    forall j | 0 <= j < |r|
      ensures r[j] == expected[j]
    {
      if j < |trackedImages| {
        assert r[j] == r[..|trackedImages|][j];
      } else {
        var m := j - |trackedImages|;
        DecodedDescriptor(cids[m], records[m], Wrappers.None);
        assert r[|trackedImages| + m] == Describe(added[m]);
      }
    }
  }
}
