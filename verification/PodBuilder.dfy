/** The attach pod: its volumes and where they are mounted in the container. */
module PodBuilder {
  import opened Options
  import opened Names

  datatype VolumeSource = PersistentVolumeClaim(claimName: string) | HostPath(path: string)

  datatype PodVolume = PodVolume(name: string, source: VolumeSource)

  datatype VolumeMount = VolumeMount(name: string, mountPath: string, bidirectional: bool)

  datatype PodSpec = PodSpec(
    name: string,
    namespace: string,
    nodeSelector: map<string, string>,
    image: string,
    privileged: bool,
    volumes: seq<PodVolume>,
    volumeMounts: seq<VolumeMount>,
    command: seq<string>,
    args: seq<string>)

  const IMAGE := "docker.io/on2e/gogomergerfs:demo-mergerfs2.37.1"

  /** A name that filepath.Join takes over unchanged. */
  predicate IsSegment(s: string) {
    s != "" && s != "." && s != ".." && '/' !in s
  }

  /** filepath.Join, for a clean path and a segment. */
  function Join(path: string, segment: string): string {
    path + "/" + segment
  }

  function ContainerPath(volumeId: string): string {
    Join("/volume", volumeId)
  }

  function BranchName(i: nat): string {
    "branch" + Decimal(i)
  }

  function BranchPath(containerPath: string, i: nat, claimName: string): string {
    Join(Join(containerPath, "branches"), BranchName(i) + "-" + claimName)
  }

  function BranchVolumes(claimNames: seq<string>): seq<PodVolume> {
    seq(|claimNames|, i requires 0 <= i < |claimNames| =>
      PodVolume(BranchName(i), PersistentVolumeClaim(claimNames[i])))
  }

  function BranchMounts(containerPath: string, claimNames: seq<string>): seq<VolumeMount> {
    seq(|claimNames|, i requires 0 <= i < |claimNames| =>
      VolumeMount(BranchName(i), BranchPath(containerPath, i, claimNames[i]), false))
  }

  /** The volumes and mounts of the pod: the claims once each and in order, then the host path. */
  function Volumes(claimNames: seq<string>, hostPath: string): seq<PodVolume> {
    BranchVolumes(claimNames) + [PodVolume("target", HostPath(hostPath))]
  }

  function Mounts(containerPath: string, claimNames: seq<string>): seq<VolumeMount> {
    BranchMounts(containerPath, claimNames) + [VolumeMount("target", Join(containerPath, "merged"), true)]
  }

  /** What the star that follows a directory in a glob stands for: its entries. */
  ghost predicate IsEntryOf(dir: string, path: string) {
    exists segment | IsSegment(segment) :: path == dir + "/" + segment
  }

  /** The pod hands its claims to mergerfs: each claim, in order and under its own name, is mounted in the
      directory whose entries the command merges; the host path is mounted, to be seen by the host, where
      the command puts the union, and that is no entry of the directory. */
  ghost predicate MergesItsClaims(pod: PodSpec, claimNames: seq<string>, hostPath: string, dir: string,
    target: string)
  {
    && pod.command == ["/bin/sh"]
    && pod.args == ["-c", "gogomergerfs mergerfs --branches=" + (dir + "/\\*") + " --target=" + target + " --block"]
    && |pod.volumes| == |pod.volumeMounts| == |claimNames| + 1
    && (forall i | 0 <= i < |claimNames| :: MergesClaim(pod, i, claimNames[i], dir))
    && pod.volumes[|claimNames|] == PodVolume("target", HostPath(hostPath))
    && pod.volumeMounts[|claimNames|] == VolumeMount("target", target, true)
    && dir != target && !(dir + "/" <= target)
  }

  ghost predicate MergesClaim(pod: PodSpec, i: nat, claimName: string, dir: string) {
    && i < |pod.volumes| && i < |pod.volumeMounts|
    && pod.volumes[i] == PodVolume("branch" + Decimal(i), PersistentVolumeClaim(claimName))
    && pod.volumeMounts[i] == VolumeMount("branch" + Decimal(i),
      dir + "/" + ("branch" + Decimal(i) + "-" + claimName), false)
    && IsEntryOf(dir, pod.volumeMounts[i].mountPath)
  }

  /** Builds one attach pod, step by step. */
  class Builder {
    const podName: string
    const podNamespace: string
    const claimNames: seq<string>
    const hostPath: string
    const containerPath: string
    var volumes: seq<PodVolume>
    var volumeMounts: seq<VolumeMount>

    constructor (podName: string, podNamespace: string, claimNames: seq<string>, hostPath: string, volumeId: string)
      requires IsSegment(volumeId)
      ensures this.podName == podName && this.podNamespace == podNamespace && this.claimNames == claimNames
      ensures this.hostPath == hostPath && this.containerPath == ContainerPath(volumeId)
      ensures volumes == [] && volumeMounts == []
    {
      this.podName, this.podNamespace, this.claimNames, this.hostPath := podName, podNamespace, claimNames, hostPath;
      this.containerPath := Join("/volume", volumeId);
      volumes, volumeMounts := [], [];
    }

    method Build() returns (pod: PodSpec)
      requires volumes == [] && volumeMounts == []
      requires forall i | 0 <= i < |claimNames| :: IsSegment(claimNames[i])
      modifies this
      ensures pod.name == podName && pod.namespace == podNamespace && pod.nodeSelector == map[]
      ensures pod.image == "docker.io/on2e/gogomergerfs:demo-mergerfs2.37.1" && pod.privileged
      ensures MergesItsClaims(pod, claimNames, hostPath, containerPath + "/branches", containerPath + "/merged")
      ensures pod.volumes == Volumes(claimNames, hostPath)
      ensures pod.volumeMounts == Mounts(containerPath, claimNames)
    {
      AddPVCVolumesAndVolumeMounts();
      AddHostPathVolumeAndVolumeMount();
      var branches := Join(Join(containerPath, "branches"), "\\*");
      var target := Join(containerPath, "merged");
      pod := PodSpec(podName, podNamespace, map[], IMAGE, true, volumes, volumeMounts, ["/bin/sh"],
        ["-c", "gogomergerfs mergerfs --branches=" + branches + " --target=" + target + " --block"]);
      MountsWhatItMerges(pod, containerPath, claimNames, hostPath);
    }

    method AddPVCVolumesAndVolumeMounts()
      modifies this
      ensures volumes == old(volumes) + BranchVolumes(claimNames)
      ensures volumeMounts == old(volumeMounts) + BranchMounts(containerPath, claimNames)
      ensures forall i | 0 <= i < |claimNames| ::
        && volumes[|old(volumes)| + i] == PodVolume("branch" + Decimal(i), PersistentVolumeClaim(claimNames[i]))
        && volumeMounts[|old(volumeMounts)| + i].name == "branch" + Decimal(i)
        && ('/' !in claimNames[i] ==>
          IsEntryOf(containerPath + "/branches", volumeMounts[|old(volumeMounts)| + i].mountPath))
    {
      for i := 0 to |claimNames|
        invariant volumes == old(volumes) + BranchVolumes(claimNames)[..i]
        invariant volumeMounts == old(volumeMounts) + BranchMounts(containerPath, claimNames)[..i]
      {
        var volumeName := BranchName(i);
        var mountPath := Join(Join(containerPath, "branches"), volumeName + "-" + claimNames[i]);
        volumes := volumes + [PodVolume(volumeName, PersistentVolumeClaim(claimNames[i]))];
        volumeMounts := volumeMounts + [VolumeMount(volumeName, mountPath, false)];
      }
      forall i | 0 <= i < |claimNames| && '/' !in claimNames[i]
        ensures IsEntryOf(containerPath + "/branches", volumeMounts[|old(volumeMounts)| + i].mountPath)
      {
        BranchIsEntry(containerPath, i, claimNames[i]);
      }
    }

    method AddHostPathVolumeAndVolumeMount()
      modifies this
      ensures volumes == old(volumes) + [PodVolume("target", HostPath(hostPath))]
      ensures volumeMounts == old(volumeMounts) + [VolumeMount("target", Join(containerPath, "merged"), true)]
    {
      volumes := volumes + [PodVolume("target", HostPath(hostPath))];
      volumeMounts := volumeMounts + [VolumeMount("target", Join(containerPath, "merged"), true)];
    }
  }

  lemma BranchIsEntry(containerPath: string, i: nat, claimName: string)
    requires '/' !in claimName
    ensures IsEntryOf(containerPath + "/branches", BranchPath(containerPath, i, claimName))
  {
    var segment := BranchName(i) + "-" + claimName;
    DenotedDecimal(i);
    assert segment[0] == 'b';
    assert IsSegment(segment);
    assert BranchPath(containerPath, i, claimName) == containerPath + "/branches" + "/" + segment;
  }

  lemma MountsWhatItMerges(pod: PodSpec, containerPath: string, claimNames: seq<string>, hostPath: string)
    requires forall i | 0 <= i < |claimNames| :: IsSegment(claimNames[i])
    requires pod.volumes == Volumes(claimNames, hostPath) && pod.volumeMounts == Mounts(containerPath, claimNames)
    requires pod.command == ["/bin/sh"]
    requires pod.args == ["-c", "gogomergerfs mergerfs --branches=" + Join(Join(containerPath, "branches"), "\\*")
      + " --target=" + Join(containerPath, "merged") + " --block"]
    ensures MergesItsClaims(pod, claimNames, hostPath, containerPath + "/branches", containerPath + "/merged")
  {
    var dir, target := containerPath + "/branches", containerPath + "/merged";
    assert target[|containerPath| + 1] == 'm' && dir[|containerPath| + 1] == 'b';
    assert Join(Join(containerPath, "branches"), "\\*") == dir + "/\\*";
    assert Join(containerPath, "merged") == target;
    forall i | 0 <= i < |claimNames| ensures MergesClaim(pod, i, claimNames[i], dir) {
      BranchIsEntry(containerPath, i, claimNames[i]);
      assert Join(containerPath, "branches") == dir;
    }
  }

  lemma BranchNameIsInjective(i: nat, j: nat)
    requires BranchName(i) == BranchName(j)
    ensures i == j
  {
    assert Decimal(i) == BranchName(i)[|"branch"|..] && Decimal(j) == BranchName(j)[|"branch"|..];
    DecimalIsInjective(i, j);
  }

  /** Volumes and mounts go together index by index, and no two volumes have the same name. */
  lemma PodVolumesAreDistinct(containerPath: string, claimNames: seq<string>, hostPath: string, i: nat, j: nat)
    requires i < j <= |claimNames|
    ensures var v, m := Volumes(claimNames, hostPath), Mounts(containerPath, claimNames);
      && |v| == |m| == |claimNames| + 1
      && v[i].name == m[i].name && v[j].name == m[j].name
      && v[i].name != v[j].name
  {
    if j < |claimNames| {
      if BranchName(i) == BranchName(j) {
        BranchNameIsInjective(i, j);
      }
    } else {
      assert BranchName(i)[0] != "target"[0];
    }
  }

  /** A string splits in only one way into digits and a part that begins with a dash. */
  lemma DigitsAtTheStart(d: string, a: string, e: string, b: string)
    requires d + a == e + b && AllDigits(d) && AllDigits(e)
    requires a != [] && a[0] == '-' && b != [] && b[0] == '-'
    ensures d == e
  {
    var s := d + a;
    assert s[|d|] == '-' && s[|e|] == (e + b)[|e|] == '-';
    assert forall k | 0 <= k < |d| :: s[k] == d[k] && IsDigit(s[k]);
    assert forall k | 0 <= k < |e| :: s[k] == (e + b)[k] == e[k] && IsDigit(s[k]);
    assert d == s[..|d|] && e == s[..|e|];
  }

  lemma BranchPathIsInjective(containerPath: string, i: nat, x: string, j: nat, y: string)
    requires BranchPath(containerPath, i, x) == BranchPath(containerPath, j, y)
    ensures i == j
  {
    var stem := containerPath + "/" + "branches" + "/" + "branch";
    var p, q := BranchPath(containerPath, i, x), BranchPath(containerPath, j, y);
    assert p == stem + (Decimal(i) + ("-" + x)) && q == stem + (Decimal(j) + ("-" + y));
    assert Decimal(i) + ("-" + x) == p[|stem|..] && Decimal(j) + ("-" + y) == q[|stem|..];
    DenotedDecimal(i);
    DenotedDecimal(j);
    DigitsAtTheStart(Decimal(i), "-" + x, Decimal(j), "-" + y);
    DecimalIsInjective(i, j);
  }

  /** No two mounts of the pod share a path, whatever the claims are called that are single path segments;
      a name with slashes and dots filepath.Join would clean, which Join does not. */
  lemma MountPathsAreDistinct(containerPath: string, claimNames: seq<string>, i: nat, j: nat)
    requires i < j <= |claimNames|
    ensures Mounts(containerPath, claimNames)[i].mountPath != Mounts(containerPath, claimNames)[j].mountPath
  {
    var m := Mounts(containerPath, claimNames);
    if j < |claimNames| {
      if m[i].mountPath == m[j].mountPath {
        BranchPathIsInjective(containerPath, i, claimNames[i], j, claimNames[j]);
      }
    } else {
      assert m[i].mountPath[|containerPath| + 1] == 'b';
      assert m[j].mountPath[|containerPath| + 1] == 'm';
    }
  }
}
