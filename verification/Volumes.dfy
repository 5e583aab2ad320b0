/** The driver's own view of a split, passed between its parts. */
module Volumes {
  import opened Options
  import opened SplitSpecs

  datatype Volume = Volume(
    volumeId: string,
    capacityBytes: int,
    accessModes: seq<AccessMode>,
    namespace: string,
    claimNames: seq<string>,
    storageClassName: Option<string>)

  function ClaimNames(claims: seq<ClaimSplit>): (names: seq<string>)
    ensures |names| == |claims| && forall i | 0 <= i < |names| :: names[i] == claims[i].claimName
  {
    seq(|claims|, i requires 0 <= i < |claims| => claims[i].claimName)
  }

  /** The volume mirrors the split: same identity and parameters, its claims in their order. */
  method NewVolumeFromVolumeSplit(split: SplitSpec) returns (volume: Volume)
    ensures volume == Volume(split.volumeName, split.capacityTotal, split.accessModes, split.namespace,
      ClaimNames(split.splits), split.storageClassName)
  {
    volume := Volume(split.volumeName, split.capacityTotal, split.accessModes, split.namespace, [],
      split.storageClassName);
    for i := 0 to |split.splits|
      invariant volume == Volume(split.volumeName, split.capacityTotal, split.accessModes, split.namespace,
        ClaimNames(split.splits)[..i], split.storageClassName)
    {
      volume := volume.(claimNames := volume.claimNames + [split.splits[i].claimName]);
    }
    assert ClaimNames(split.splits)[..|split.splits|] == ClaimNames(split.splits);
  }
}
