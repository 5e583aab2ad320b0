/** The handlers of the controller service: what their answers mean to the orchestrator. */
module Controller {
  import opened Options
  import opened Names
  import opened SplitSpecs
  import opened PodHistory
  import opened Parameters
  import AttachMachine
  import AttachInvariant
  import AttachTheorems
  import Attacher
  import P = Provisioning
  import ProvisioningInvariant
  import ProvisioningTheorems
  import opened ProvisioningClaims
  import opened ProvisioningContract
  import Provisioner

  datatype Code = OK | InvalidArgument | NotFound | AlreadyExists | FailedPrecondition | Internal

  /** What accepted parameters say. */
  function SettingsOf(params: seq<Entry>, defaultNamespace: string): Settings {
    var initial := Settings(defaultNamespace, None);
    match Parse(params, initial)
    case None => initial
    case Some(settings) => settings
  }

  /** The answer of the call for the volume that has just ended. */
  predicate Answered(s: P.State, volume: string, created: bool, err: P.Error) {
    |s.answers| > 0 && s.answers[|s.answers| - 1] == P.Answer(volume, created, err)
  }

  predicate Rejects(params: seq<Entry>) {
    exists e | e in params :: !Accepted(e)
  }

  predicate Unsupported(modes: seq<CsiAccessMode>) {
    exists i | 0 <= i < |modes| :: CsiToK8s(modes[i]).None?
  }

  /** The mode of the claims that a mode of the request asks for. */
  predicate SameMode(csi: CsiAccessMode, mode: AccessMode) {
    match mode
    case ReadWriteOnce => csi == SingleNodeWriter || csi == SingleNodeSingleWriter || csi == SingleNodeMultiWriter
    case ReadOnlyMany => csi == SingleNodeReaderOnly || csi == MultiNodeReaderOnly
    case ReadWriteMany => csi == MultiNodeMultiWriter
  }

  /** What the split says is what the request says: 1024 bytes if it asks for no capacity, and the settings
      that its parameters agree on. */
  ghost predicate IsAsAsked(split: SplitSpec, name: string, params: seq<Entry>, requiredBytes: Option<int>,
    modes: seq<CsiAccessMode>, defaultNamespace: string)
  {
    && split.volumeName == name
    && split.capacityTotal == (if requiredBytes.None? then 1024 else requiredBytes.value)
    && |split.accessModes| == |modes| && (forall i | 0 <= i < |modes| :: SameMode(modes[i], split.accessModes[i]))
    && Settings(split.namespace, split.storageClassName) == SettingsOf(params, defaultNamespace)
    && (NoConflicts(params) ==>
      Parameters.Holds(params, Settings(defaultNamespace, None), Settings(split.namespace, split.storageClassName)))
  }

  /** OK: the volume's split is stored, with what the parameters and the capacity say, and as written
      exactly those of its claims are live that the call has not met in the claim cache.  AlreadyExists,
      as written, means no more than that the first read of the split has failed. */
  method CreateVolume(w: Provisioner.World, name: string, params: seq<Entry>, requiredBytes: Option<int>,
    modes: seq<CsiAccessMode>, defaultNamespace: string) returns (code: Code, volumeId: string)
    requires w.Valid() && name in w.cfg.volumes && name !in w.state.calls
    requires forall t: nat :: Provisioner.NotBy(w.cfg, w.script(t).others, name)
    modifies w`state, w`trace, w`turn
    ensures w.Valid() && w.Moved()
    ensures code == InvalidArgument <==> Rejects(params)
    ensures Rejects(params) || Unsupported(modes) ==> w.state == old(w.state)
    ensures !Rejects(params) && Unsupported(modes) ==> code == Internal
    ensures !Rejects(params) && !Unsupported(modes) ==>
      && (code == OK <==> Answered(w.state, name, true, P.Nil))
      && (code == AlreadyExists <==> Answered(w.state, name, true, P.ErrIdempotencyIncompatible))
      && (code == OK || code == AlreadyExists || code == Internal)
    ensures code == AlreadyExists ==> |old(w.trace)| < |w.trace|
    ensures code == AlreadyExists && w.cfg.lookup.SuffixedTwice? ==> FirstReadFails(w.trace[|old(w.trace)| + 1..], name)
    ensures code == OK ==> volumeId == name && SplitName(name) in w.state.stores.splits
    ensures code == OK && w.cfg.lookup.SuffixedTwice? ==>
      var split := w.state.stores.splits[SplitName(name)];
      && IsAsAsked(split, name, params, requiredBytes, modes, defaultNamespace)
      && split.splits == ClaimsOf(w.cfg.claimNamePrefix, name, split.capacityTotal)
      && ClaimsAsSeen(old(w.state), w.state, name, split)
  {
    var options := new LowerOptions(defaultNamespace);
    ParsesIffAllAccepted(params, Settings(defaultNamespace, None));
    var ok := options.ParseParameters(params);
    if !ok {
      return InvalidArgument, "";
    }
    var capacityBytes := GetCapacityBytes(requiredBytes);
    var volume, err := Provisioner.CreateLower(w, name, capacityBytes, modes, options.lowerNamespace,
      options.lowerStorageClassName);
    if err != Some(P.Nil) {
      code := Internal;
      if err == Some(P.ErrIdempotencyIncompatible) {
        code := AlreadyExists;
      }
      return code, "";
    }
    if w.cfg.lookup.SuffixedTwice? {
      FilledAsAsked(w.cfg.claimNamePrefix, w.state.stores.splits[SplitName(name)], name, params, requiredBytes, modes,
        defaultNamespace);
    }
    return OK, volume.value.volumeId;
  }

  lemma FilledAsAsked(prefix: string, split: SplitSpec, name: string, params: seq<Entry>, requiredBytes: Option<int>,
    modes: seq<CsiAccessMode>, defaultNamespace: string)
    requires !Rejects(params)
    requires var settings := SettingsOf(params, defaultNamespace);
      exists accessModes: seq<AccessMode> ::
        && |accessModes| == |modes| && (forall i | 0 <= i < |modes| :: CsiToK8s(modes[i]) == Some(accessModes[i]))
        && split == Filled(prefix, SplitSpec(name, GetCapacityBytes(requiredBytes), accessModes, settings.namespace,
             settings.storageClassName, []))
    ensures IsAsAsked(split, name, params, requiredBytes, modes, defaultNamespace)
    ensures split.splits == ClaimsOf(prefix, name, split.capacityTotal)
  {
    var initial, settings := Settings(defaultNamespace, None), SettingsOf(params, defaultNamespace);
    var accessModes: seq<AccessMode> :|
      && |accessModes| == |modes| && (forall i | 0 <= i < |modes| :: CsiToK8s(modes[i]) == Some(accessModes[i]))
      && split == Filled(prefix, SplitSpec(name, GetCapacityBytes(requiredBytes), accessModes, settings.namespace,
           settings.storageClassName, []));
    ParsesIffAllAccepted(params, initial);
    if NoConflicts(params) {
      ParseHolds(params, initial);
    }
  }

  /** OK, whether deleted now or not found: nothing of the volume is left. */
  method DeleteVolume(w: Provisioner.World, volumeId: string) returns (code: Code)
    requires w.Valid() && volumeId in w.cfg.volumes && volumeId !in w.state.calls
    requires forall t: nat :: Provisioner.NotBy(w.cfg, w.script(t).others, volumeId)
    modifies w`state, w`trace, w`turn
    ensures w.Valid() && w.Moved() && |w.state.answers| > 0
    ensures code == OK || code == Internal
    ensures code == OK <==> ProvisioningTheorems.DeletedOk(w.state.answers[|w.state.answers| - 1], volumeId)
    ensures code == OK ==> ProvisioningTheorems.Gone(w.cfg, w.state.stores, volumeId)
  {
    var err := Provisioner.DeleteLower(w, volumeId);
    if err != P.Nil {
      code := Internal;
      if err == P.ErrVolumeNotFound {
        return OK;
      }
      return code;
    }
    return OK;
  }

  /** What a publish or its refusal rests on: a running pod that the server has held. */
  ghost predicate Backed(s: AttachMachine.State, id: nat, volumeId: string, node: string) {
    && id < |s.calls|
    && AttachInvariant.SawPod(s.cluster, s.calls[id]) && s.calls[id].volumeId == volumeId
    && s.calls[id].pod.value.phase == Phase.Running && s.calls[id].pod.value.nodeName == node != ""
  }

  /** Call a is an Attach of the volume to the node. */
  predicate AttachesTo(s: AttachMachine.State, a: nat, volumeId: string, node: string) {
    a < |s.calls| && s.calls[a].kind.Attach? && s.calls[a].volumeId == volumeId && s.calls[a].nodeId == node
  }

  /** How the end of an Attach is answered. */
  function PublishCode(o: AttachMachine.Outcome): (code: Code)
    ensures code == OK <==> o.Attached? || o.Detached?
    ensures code == FailedPrecondition <==> o.VolumeInUse?
    ensures code == NotFound <==> o.VolumeNotFound? || o.NodeNotFound?
    ensures code == Internal <==>
      o.PodTerminating? || o.TimedOut? || o.AttachmentNotFound? || o.ApiError? || o.ContextDone?
  {
    match Attacher.ErrorOf(o)
    case Nil => OK
    case ErrVolumeInUse => FailedPrecondition
    case ErrVolumeNotFound => NotFound
    case ErrNodeNotFound => NotFound
    case _ => Internal
  }

  /** The message names the node in use, which only an attachment that is not nil can give. */
  method ControllerPublishVolume(w: Attacher.World, volumeId: string, nodeId: string)
    returns (code: Code, path: string, inUseAt: string, ghost id: nat)
    requires w.Valid() && forall t: nat :: Attacher.NotBy(w.script(t).others, |w.state.calls|)
    requires AttachTheorems.Reachable(w.start)
    modifies w`state, w`trace, w`turn
    ensures w.Valid() && w.Moved()
    ensures code == OK ==>
      && path == "/var/lib/union-csi-driver.union.io/volumes/" + volumeId + "/merged"
      && Backed(w.state, id, volumeId, nodeId)
    ensures id < |w.state.calls| && w.state.calls[id].pc.Ended? && code == PublishCode(w.state.calls[id].pc.outcome)
    ensures code == FailedPrecondition ==> inUseAt != nodeId && Backed(w.state, id, volumeId, inUseAt)
    ensures code == FailedPrecondition ==> exists a: nat :: a != id && AttachesTo(w.state, a, volumeId, inUseAt)
  {
    path, inUseAt := "", "";
    var attachment, err, call := Attacher.AttachLower(w, volumeId, nodeId);
    id := call;
    AttachTheorems.ReachableOn(w.start, w.trace);
    AttachTheorems.ReachableInv(w.state);
    if err != Attacher.Nil {
      code := Internal;
      if err == Attacher.ErrVolumeInUse {
        code := FailedPrecondition;
        inUseAt := attachment.value.nodeId;
        AttachTheorems.ReportIsBacked(w.state, call);
        AttachTheorems.VolumeInUseNamesAnotherAttach(w.state, call);
        assert AttachesTo(w.state, w.state.calls[call].pod.value.creator, volumeId, inUseAt);
      } else if err == Attacher.ErrVolumeNotFound || err == Attacher.ErrNodeNotFound {
        code := NotFound;
      }
      return;
    }
    assert AttachInvariant.CallOk(w.state.cluster, w.state.calls[call]);
    AttachTheorems.ReportIsBacked(w.state, call);
    code := OK;
    path := attachment.value.hostPath;
  }

  /** How the end of a Detach is answered. */
  function UnpublishCode(o: AttachMachine.Outcome): (code: Code)
    ensures code == OK <==> o.Attached? || o.Detached? || o.AttachmentNotFound?
    ensures code == NotFound <==> o.VolumeNotFound? || o.NodeNotFound?
    ensures code == Internal <==>
      o.VolumeInUse? || o.PodTerminating? || o.TimedOut? || o.ApiError? || o.ContextDone?
  {
    match Attacher.ErrorOf(o)
    case Nil => OK
    case ErrAttachmentNotFound => OK
    case ErrVolumeNotFound => NotFound
    case ErrNodeNotFound => NotFound
    case _ => Internal
  }

  /** OK: every incarnation of the volume that the cache had shown on this node has left the server. */
  method ControllerUnpublishVolume(w: Attacher.World, volumeId: string, nodeId: string)
    returns (code: Code, ghost id: nat)
    requires w.Valid() && forall t: nat :: Attacher.NotBy(w.script(t).others, |w.state.calls|)
    requires AttachTheorems.Reachable(w.start)
    modifies w`state, w`trace, w`turn
    ensures w.Valid() && w.Moved()
    ensures code == InvalidArgument <==> nodeId == ""
    ensures nodeId == "" ==> w.state == old(w.state)
    ensures nodeId != "" ==>
      id < |w.state.calls| && w.state.calls[id].pc.Ended? && code == UnpublishCode(w.state.calls[id].pc.outcome)
    ensures code == OK ==>
      && id < |w.state.calls|
      && Attacher.AllGone(old(w.state.cluster), w.state.cluster, w.state.calls[id].namespace, volumeId, nodeId)
  {
    id := 0;
    if |nodeId| == 0 {
      code := InvalidArgument;
      return;
    }
    var err, call;
    ghost var seen, at;
    err, call, seen, at := Attacher.DetachLower(w, volumeId, nodeId);
    id := call;
    if err != Attacher.Nil {
      code := Internal;
      if err == Attacher.ErrAttachmentNotFound {
        code := OK;
      } else if err == Attacher.ErrVolumeNotFound || err == Attacher.ErrNodeNotFound {
        code := NotFound;
      }
      return;
    }
    code := OK;
  }
}
