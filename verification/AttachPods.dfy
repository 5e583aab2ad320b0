/** From a created volume to the pod that attaches it. */
module AttachPods {
  import opened Options
  import opened Names
  import opened SplitSpecs
  import opened Volumes
  import opened PodBuilder
  import M = AttachMachine
  import P = Provisioning
  import I = ProvisioningInvariant
  import C = ProvisioningClaims

  /** What Attach submits for the volume of a split and a node: a pod in the namespace of the split, on that
      node, that merges what the claims of the split hold and shows it at the volume's host path. */
  ghost predicate IsAttachPod(pod: PodSpec, split: SplitSpec, nodeId: string) {
    && pod.namespace == split.namespace && pod.nodeSelector == map["kubernetes.io/hostname" := nodeId]
    && pod.privileged && pod.image == "docker.io/on2e/gogomergerfs:demo-mergerfs2.37.1"
    && MergesItsClaims(pod, ClaimNames(split.splits),
      "/var/lib/union-csi-driver.union.io/volumes/" + split.volumeName + "/merged",
      "/volume/" + split.volumeName + "/branches", "/volume/" + split.volumeName + "/merged")
  }

  method BuildAttachPod(split: SplitSpec, podName: string, nodeId: string) returns (pod: PodSpec)
    requires IsSegment(split.volumeName)
    requires forall i | 0 <= i < |split.splits| :: IsSegment(split.splits[i].claimName)
    ensures pod.name == podName && IsAttachPod(pod, split, nodeId)
  {
    var volume := NewVolumeFromVolumeSplit(split);
    var hostPath := M.HostPath(volume.volumeId);
    var builder := new Builder(podName, volume.namespace, volume.claimNames, hostPath, volume.volumeId);
    assert builder.containerPath + "/branches" == "/volume/" + split.volumeName + "/branches";
    pod := builder.Build();
    pod := pod.(nodeSelector := map["kubernetes.io/hostname" := nodeId]);
  }

  lemma PartsOf(pod: PodSpec, split: SplitSpec, nodeId: string)
    requires IsAttachPod(pod, split, nodeId)
    ensures pod.volumes == PodBuilder.Volumes(ClaimNames(split.splits), M.HostPath(split.volumeName))
    ensures pod.volumeMounts == Mounts(ContainerPath(split.volumeName), ClaimNames(split.splits))
  {
    var claims, path := ClaimNames(split.splits), ContainerPath(split.volumeName);
    var volumes, mounts := PodBuilder.Volumes(claims, M.HostPath(split.volumeName)), Mounts(path, claims);
    assert path + "/branches" == "/volume/" + split.volumeName + "/branches";
    assert path + "/merged" == "/volume/" + split.volumeName + "/merged";
    forall i | 0 <= i < |claims| ensures pod.volumes[i] == volumes[i] && pod.volumeMounts[i] == mounts[i] {
      assert MergesClaim(pod, i, claims[i], path + "/branches");
    }
    assert mounts[|claims|] == pod.volumeMounts[|claims|];
    assert pod.volumes == volumes;
    assert pod.volumeMounts == mounts;
  }

  /** In every reachable state the attach pod of a stored volume mounts exactly the claims of its split,
      by the names claims are given, once each, in order and each at its own path among those merged, and
      then the host path that Attach reports; the sizes requested add up to the volume's capacity or one
      byte less. */
  lemma PodMountsTheSplit(cfg: P.Config, steps: seq<P.Step>, volume: string, pod: PodSpec, nodeId: string)
    requires P.NoPair(cfg) && P.NamesOk(cfg, steps)
    requires SplitName(volume) in P.Run(cfg, P.INIT, steps).stores.splits
    requires IsAttachPod(pod, P.Run(cfg, P.INIT, steps).stores.splits[SplitName(volume)], nodeId)
    ensures var split := P.Run(cfg, P.INIT, steps).stores.splits[SplitName(volume)];
      && |pod.volumes| == |pod.volumeMounts| == |split.splits| + 1
      && (forall i | 0 <= i < |split.splits| ::
            && split.splits[i].claimName == ClaimName(cfg.claimNamePrefix, volume, i)
            && MergesClaim(pod, i, split.splits[i].claimName, "/volume/" + volume + "/branches"))
      && pod.volumes[|split.splits|].source ==
        HostPath("/var/lib/union-csi-driver.union.io/volumes/" + volume + "/merged")
      && pod.volumeMounts[|split.splits|].mountPath == "/volume/" + volume + "/merged"
      && (forall i, j | 0 <= i < j <= |split.splits| ::
            && pod.volumes[i].source != pod.volumes[j].source && pod.volumes[i].name != pod.volumes[j].name
            && pod.volumeMounts[i].mountPath != pod.volumeMounts[j].mountPath)
      && (0 <= split.capacityTotal <= INT64_MAX ==>
        split.capacityTotal - 1 <= TotalRequest(split.splits) <= split.capacityTotal)
  {
    I.InitInv(cfg);
    I.InvRun(cfg, P.INIT, steps);
    var split := P.Run(cfg, P.INIT, steps).stores.splits[SplitName(volume)];
    assert I.StoredOk(cfg, SplitName(volume), split);
    SplitNameIsInjective(volume, split.volumeName);
    MountsDiffer(cfg.claimNamePrefix, volume, split);
    PartsOf(pod, split, nodeId);
    if 0 <= split.capacityTotal <= INT64_MAX {
      RequestsSumToTotal(cfg.claimNamePrefix, volume, split.capacityTotal);
    }
  }

  lemma MountsDiffer(prefix: string, volume: string, split: SplitSpec)
    requires split.splits == ClaimsOf(prefix, volume, split.capacityTotal)
    ensures var volumes := PodBuilder.Volumes(ClaimNames(split.splits), M.HostPath(volume));
      var mounts := Mounts(ContainerPath(volume), ClaimNames(split.splits));
      forall i, j | 0 <= i < j <= |split.splits| ::
        volumes[i].source != volumes[j].source && volumes[i].name != volumes[j].name &&
          mounts[i].mountPath != mounts[j].mountPath
  {
    var claims := ClaimNames(split.splits);
    var volumes, mounts := PodBuilder.Volumes(claims, M.HostPath(volume)), Mounts(ContainerPath(volume), claims);
    forall i, j | 0 <= i < j <= |split.splits|
      ensures volumes[i].source != volumes[j].source && volumes[i].name != volumes[j].name
      ensures mounts[i].mountPath != mounts[j].mountPath
    {
      PodVolumesAreDistinct(ContainerPath(volume), claims, M.HostPath(volume), i, j);
      MountPathsAreDistinct(ContainerPath(volume), claims, i, j);
      if j < |split.splits| {
        ListedNamesDiffer(prefix, volume, split.capacityTotal, i, j);
      }
    }
  }

  /** Pods of different volumes never mount the same claim. */
  lemma PodsShareNoClaim(cfg: P.Config, steps: seq<P.Step>, v: string, p: PodSpec, w: string, q: PodSpec,
      m: string, n: string)
    requires P.NoPair(cfg) && P.NamesOk(cfg, steps) && v != w
    requires var splits := P.Run(cfg, P.INIT, steps).stores.splits;
      && SplitName(v) in splits && IsAttachPod(p, splits[SplitName(v)], m)
      && SplitName(w) in splits && IsAttachPod(q, splits[SplitName(w)], n)
    ensures forall x, y | x in p.volumes && y in q.volumes :: x.source != y.source
  {
    PodMountsTheSplit(cfg, steps, v, p, m);
    PodMountsTheSplit(cfg, steps, w, q, n);
    var splits := P.Run(cfg, P.INIT, steps).stores.splits;
    var ofV, ofW := splits[SplitName(v)].splits, splits[SplitName(w)].splits;
    forall x, y | x in p.volumes && y in q.volumes ensures x.source != y.source {
      var i, j :| 0 <= i < |p.volumes| && x == p.volumes[i] && 0 <= j < |q.volumes| && y == q.volumes[j];
      assert i < |ofV| ==> MergesClaim(p, i, ofV[i].claimName, "/volume/" + v + "/branches");
      assert j < |ofW| ==> MergesClaim(q, j, ofW[j].claimName, "/volume/" + w + "/branches");
      if i < |ofV| && j < |ofW| && x.source == y.source {
        ClaimNameIsInjective(cfg.claimNamePrefix, v, i, w, j);
      } else if i == |ofV| && j == |ofW| {
        HostPathIsInjective(v, w);
      }
    }
  }

  lemma HostPathIsInjective(v: string, w: string)
    ensures M.HostPath(v) == M.HostPath(w) ==> v == w
  {
    var dir, a, b := "/var/lib/union-csi-driver.union.io/volumes/", M.HostPath(v), M.HostPath(w);
    assert a == dir + v + "/merged" && b == dir + w + "/merged";
    assert v == a[|dir|..|a| - |"/merged"|] && w == b[|dir|..|b| - |"/merged"|];
  }

  // ---------- Will the pod find its claims? ----------

  /** Every claim the pod names is live in the pod's namespace, as large and of the kind asked for. */
  ghost predicate FindsItsClaims(st: P.Stores, pod: PodSpec, options: P.LowerOptions) {
    forall v | v in pod.volumes && v.source.PersistentVolumeClaim? ::
      var key := P.ClaimKey(pod.namespace, v.source.claimName);
      && key in st.claims
      && st.claims[key] == P.Claim(options.accessModes, TruncatedHalf(options.capacityBytes),
        options.storageClassName)
  }

  /** As written, after a create that has ended OK, with anything else going on meanwhile, the attach pod of
      the volume finds its claims exactly when no look of the create has met one of them in the cache. */
  lemma PodFindsItsClaims(cfg: P.Config, s: P.State, volume: string, options: P.LowerOptions, steps: seq<P.Step>,
      pod: PodSpec, nodeId: string)
    requires cfg.lookup.SuffixedTwice? && I.Inv(cfg, s) && volume !in s.calls && P.NameOk(cfg, volume)
    requires C.OneCall(cfg, steps, volume)
    requires var now := P.Run(cfg, P.Apply(cfg, s, P.Begin(volume, P.Create(options))), steps);
      && C.CreatedOk(s, now, volume)
      && (SplitName(volume) in now.stores.splits ==> IsAttachPod(pod, now.stores.splits[SplitName(volume)], nodeId))
    ensures var now := P.Run(cfg, P.Apply(cfg, s, P.Begin(volume, P.Create(options))), steps);
      && SplitName(volume) in now.stores.splits && pod.namespace == options.namespace
      && (FindsItsClaims(now.stores, pod, options) <==>
            forall i | 0 <= i < 2 :: !C.Met(now, |s.looks|, volume,
              P.ClaimKey(pod.namespace, ClaimName(cfg.claimNamePrefix, volume, i))))
  {
    C.CreateOkClaims(cfg, s, volume, options, steps);
    var now := P.Run(cfg, P.Apply(cfg, s, P.Begin(volume, P.Create(options))), steps);
    var split := Filled(cfg.claimNamePrefix, P.SpecOf(volume, options));
    FilledSplits(cfg.claimNamePrefix, P.SpecOf(volume, options));
    PodFinds(now.stores, pod, split, options, nodeId);
    MetByName(cfg, now, |s.looks|, volume, options);
  }

  lemma MetByName(cfg: P.Config, now: P.State, from: nat, volume: string, options: P.LowerOptions)
    ensures var split := Filled(cfg.claimNamePrefix, P.SpecOf(volume, options));
      (forall i | 0 <= i < |split.splits| :: !C.MetClaim(now, from, volume, split, i)) <==>
        forall i | 0 <= i < 2 ::
          !C.Met(now, from, volume, P.ClaimKey(options.namespace, ClaimName(cfg.claimNamePrefix, volume, i)))
  {
    var split := Filled(cfg.claimNamePrefix, P.SpecOf(volume, options));
    FilledSplits(cfg.claimNamePrefix, P.SpecOf(volume, options));
    assert forall i | 0 <= i < 2 :: C.MetClaim(now, from, volume, split, i) <==>
      C.Met(now, from, volume, P.ClaimKey(options.namespace, ClaimName(cfg.claimNamePrefix, volume, i)));
  }

  lemma PodFinds(st: P.Stores, pod: PodSpec, split: SplitSpec, options: P.LowerOptions, nodeId: string)
    requires IsAttachPod(pod, split, nodeId) && split.accessModes == options.accessModes
    requires split.storageClassName == options.storageClassName
    requires forall i | 0 <= i < |split.splits| :: split.splits[i].request == TruncatedHalf(options.capacityBytes)
    ensures FindsItsClaims(st, pod, options) <==> C.AllLive(st, split)
  {
    var claims, dir := ClaimNames(split.splits), "/volume/" + split.volumeName + "/branches";
    assert forall i | 0 <= i < |claims| :: MergesClaim(pod, i, claims[i], dir);
    if FindsItsClaims(st, pod, options) {
      forall i | 0 <= i < |split.splits| ensures C.IsLive(st, split, i) {
        assert MergesClaim(pod, i, claims[i], dir) && pod.volumes[i] in pod.volumes;
      }
    }
    if C.AllLive(st, split) {
      forall v | v in pod.volumes && v.source.PersistentVolumeClaim?
        ensures P.ClaimKey(pod.namespace, v.source.claimName) in st.claims
        ensures st.claims[P.ClaimKey(pod.namespace, v.source.claimName)] ==
          P.Claim(options.accessModes, TruncatedHalf(options.capacityBytes), options.storageClassName)
      {
        var i :| 0 <= i < |pod.volumes| && v == pod.volumes[i];
        assert i < |claims| && MergesClaim(pod, i, claims[i], dir) && C.IsLive(st, split, i);
      }
    }
  }
}
