/**
 Any number of Attach and Detach calls over one API server and a lagging pod cache.

 A run is a sequence of steps.  A step is either something the cluster does or one call
 going from one access of the outside world to the next: `Advance(id, reply)` performs
 the access call `id` is waiting to make, `reply` saying how the outside answers, and
 everything the call then computes by itself.
 */
module AttachMachine {
  import opened Options
  import opened PodHistory

  /** The server's pod history, the index of the state the cache shows, and the namespace
      recorded by the split of each volume. */
  datatype Cluster = Cluster(past: History, cacheAt: nat, splits: map<string, string>)

  datatype Kind = Attach | Detach

  datatype Attachment = Attachment(volumeId: string, nodeId: string, hostPath: string)

  datatype Outcome =
    | Attached(attachment: Attachment)
    | VolumeInUse(attachment: Attachment)
    | PodTerminating
    | TimedOut
    | Detached
    | AttachmentNotFound
    | VolumeNotFound
    | NodeNotFound
    | ApiError
    | ContextDone

  /** The access a call is about to make.  `left` counts the evaluations left to a poll loop. */
  datatype Pc =
    | AtSplit
    | AtNode
    | AtLook
    | AtCreate
    | AtDelete
    | AtPoll(left: nat)
    | Ended(outcome: Outcome)

  /**
   The local state of one call.
   since      cache index when the call began
   namespace  taken from the volume's split
   pod, at    the pod variable, and the index of the state it was read from
   gone       for a Detach that found no attachment: the index of the state that showed it
   */
  datatype Call = Call(
    kind: Kind,
    volumeId: string,
    nodeId: string,
    since: nat,
    namespace: Option<string>,
    pod: Option<Pod>,
    at: nat,
    gone: nat,
    pc: Pc)
  {
    function Key(): PodKey
      requires namespace.Some?
    {
      PodKey(namespace.value, volumeId)
    }

    predicate Has(o: Outcome) {
      pc == Ended(o)
    }

    /** Answered OK by ControllerUnpublishVolume. */
    predicate DetachedOk() {
      Has(Detached) || Has(AttachmentNotFound)
    }
  }

  datatype State = State(cluster: Cluster, calls: seq<Call>)

  /**
   Served(atOnce)   the access succeeds; a served Delete removes the pod at once or only marks it
   Failed(applied)  the access returns an error, a write having taken effect or not
   NodeAbsent       the node lister does not know the node
   Cancelled        the context of the request is done
   */
  datatype Reply = Served(atOnce: bool) | Failed(applied: bool) | NodeAbsent | Cancelled

  datatype Step =
    | Bind(key: PodKey)
    | SetPhase(key: PodKey, phase: Phase)
    | MarkDeleted(key: PodKey)
    | Remove(key: PodKey)
    | SyncCache(index: nat)
    | PutSplit(volumeId: string, namespace: string)
    | DropSplit(volumeId: string)
    | Begin(kind: Kind, volumeId: string, nodeId: string)
    | Advance(id: nat, reply: Reply)

  /** The poll loops evaluate their condition at most this many times. */
  const POLL_STEPS: nat := 12

  function HostPath(volumeId: string): string {
    "/var/lib/union-csi-driver.union.io/volumes/" + volumeId + "/merged"
  }

  // ---------- The API server and the cache ----------

  predicate ValidCluster(cl: Cluster) {
    cl.cacheAt < |cl.past|
  }

  function Server(cl: Cluster): Store
    requires ValidCluster(cl)
  {
    cl.past[|cl.past| - 1]
  }

  function Cached(cl: Cluster, key: PodKey): Option<Pod>
    requires ValidCluster(cl)
  {
    Lookup(cl.past[cl.cacheAt], key)
  }

  function Write(cl: Cluster, next: Store): Cluster {
    cl.(past := cl.past + [next])
  }

  /** The pod an Attach call submits: its node selector names the call's node. */
  function NewPod(cl: Cluster, id: nat, nodeId: string): Pod {
    Pod(|cl.past|, id, nodeId, "", Pending, false)
  }

  function ServerCreate(cl: Cluster, key: PodKey, pod: Pod): Cluster
    requires ValidCluster(cl)
  {
    if key in Server(cl) then cl else Write(cl, Server(cl)[key := pod])
  }

  /** Delete is by name: it takes whatever incarnation the server has. */
  function ServerDelete(cl: Cluster, key: PodKey, atOnce: bool): Cluster
    requires ValidCluster(cl)
  {
    if key !in Server(cl) then cl
    else if atOnce then Write(cl, Server(cl) - {key})
    else Write(cl, Server(cl)[key := Server(cl)[key].(deleting := true)])
  }

  // ---------- What a call decides ----------

  function Again(left: nat): Pc {
    if left <= 1 then Ended(TimedOut) else AtPoll(left - 1)
  }

  /** waitForAttach on one look at the cache. */
  function AttachVerdict(volumeId: string, nodeId: string, left: nat, seen: Option<Pod>): Pc {
    match seen
    case None => Again(left)
    case Some(pod) =>
      if IsPodTerminating(pod) then Ended(PodTerminating)
      else if !IsPodRunning(pod) then Again(left)
      else
        var attachment := Attachment(volumeId, pod.nodeName, HostPath(volumeId));
        if pod.nodeName != nodeId then Ended(VolumeInUse(attachment)) else Ended(Attached(attachment))
  }

  /** Detach on its first look at the cache. */
  function DetachLook(nodeId: string, seen: Option<Pod>): Pc {
    match seen
    case None => Ended(AttachmentNotFound)
    case Some(pod) =>
      if pod.nodeName == "" || pod.nodeName != nodeId then Ended(AttachmentNotFound)
      else if pod.deleting then AtPoll(POLL_STEPS)
      else AtDelete
  }

  /** waitForDetach on one look at the cache. */
  function DetachVerdict(nodeId: string, left: nat, seen: Option<Pod>): Pc {
    match seen
    case None => Ended(Detached)
    case Some(pod) => if pod.nodeName != nodeId then Ended(AttachmentNotFound) else Again(left)
  }

  // ---------- One access by one call ----------

  predicate CanGo(cl: Cluster, c: Call) {
    && ValidCluster(cl)
    && !c.pc.Ended?
    && (c.pc.AtSplit? || c.pc.AtNode? || c.namespace.Some?)
  }

  function Progress(cl: Cluster, id: nat, c: Call, r: Reply): (Cluster, Call)
    requires CanGo(cl, c)
  {
    if r.Cancelled? then (cl, c.(pc := Ended(ContextDone)))
    else
      match c.pc
      case AtSplit =>
        if r.Failed? then (cl, c.(pc := Ended(ApiError)))
        else if c.volumeId !in cl.splits then (cl, c.(pc := Ended(VolumeNotFound)))
        else (cl, c.(namespace := Some(cl.splits[c.volumeId]), pc := AtNode))
      case AtNode =>
        if r.NodeAbsent? then (cl, c.(pc := Ended(NodeNotFound)))
        else if r.Failed? then (cl, c.(pc := Ended(ApiError)))
        else (cl, c.(pc := AtLook))
      case AtLook =>
        if r.Failed? then (cl, c.(pc := Ended(ApiError)))
        else
          var seen := Cached(cl, c.Key());
          if c.kind.Attach? then (cl, c.(pc := if seen.None? then AtCreate else AtPoll(POLL_STEPS)))
          else (cl, c.(pod := seen, at := cl.cacheAt, gone := cl.cacheAt, pc := DetachLook(c.nodeId, seen)))
      case AtCreate =>
        var cl' := ServerCreate(cl, c.Key(), NewPod(cl, id, c.nodeId));
        if r.Failed? then (if r.applied then cl' else cl, c.(pc := Ended(ApiError)))
        else (cl', c.(pc := AtPoll(POLL_STEPS)))
      case AtDelete =>
        if r.Failed? then
          (if r.applied then ServerDelete(cl, c.Key(), false) else cl, c.(pc := Ended(ApiError)))
        else if c.Key() !in Server(cl) then
          (cl, c.(gone := |cl.past| - 1, pc := Ended(AttachmentNotFound)))
        else
          (ServerDelete(cl, c.Key(), r.Served? && r.atOnce), c.(pc := AtPoll(POLL_STEPS)))
      case AtPoll(left) =>
        if r.Failed? then (cl, c.(pod := None, pc := Ended(ApiError)))
        else
          var seen := Cached(cl, c.Key());
          var pc' := if c.kind.Attach? then AttachVerdict(c.volumeId, c.nodeId, left, seen)
                     else DetachVerdict(c.nodeId, left, seen);
          (cl, c.(pod := seen, at := cl.cacheAt, gone := cl.cacheAt, pc := pc'))
  }

  // ---------- Steps and runs ----------

  /** A step the cluster takes by itself; one that is not possible changes nothing. */
  function Environment(cl: Cluster, step: Step): Cluster
    requires ValidCluster(cl)
  {
    var now := Server(cl);
    match step
    case Bind(k) =>
      if k in now && now[k].nodeName == "" then Write(cl, now[k := now[k].(nodeName := now[k].selector)]) else cl
    case SetPhase(k, phase) =>
      if k in now then Write(cl, now[k := now[k].(phase := phase)]) else cl
    case MarkDeleted(k) =>
      if k in now then Write(cl, now[k := now[k].(deleting := true)]) else cl
    case Remove(k) =>
      if k in now then Write(cl, now - {k}) else cl
    case SyncCache(index) =>
      if cl.cacheAt <= index < |cl.past| then cl.(cacheAt := index) else cl
    case PutSplit(v, namespace) =>
      if v in cl.splits then cl else cl.(splits := cl.splits[v := namespace])
    case DropSplit(v) => cl.(splits := cl.splits - {v})
    case Begin(_, _, _) => cl
    case Advance(_, _) => cl
  }

  function NewCall(cl: Cluster, kind: Kind, volumeId: string, nodeId: string): Call {
    Call(kind, volumeId, nodeId, cl.cacheAt, None, None, 0, 0, AtSplit)
  }

  function Apply(s: State, step: Step): State
    requires ValidCluster(s.cluster)
  {
    match step
    case Begin(kind, v, n) => s.(calls := s.calls + [NewCall(s.cluster, kind, v, n)])
    case Advance(id, reply) =>
      if id < |s.calls| && CanGo(s.cluster, s.calls[id]) then
        var (cl, c) := Progress(s.cluster, id, s.calls[id], reply);
        State(cl, s.calls[id := c])
      else s
    case _ => s.(cluster := Environment(s.cluster, step))
  }

  lemma ApplyKeepsValidCluster(s: State, step: Step)
    requires ValidCluster(s.cluster)
    ensures ValidCluster(Apply(s, step).cluster)
  {}

  function Run(s: State, steps: seq<Step>): (s': State)
    requires ValidCluster(s.cluster)
    ensures ValidCluster(s'.cluster)
    decreases |steps|
  {
    if steps == [] then s
    else
      ApplyKeepsValidCluster(s, steps[0]);
      Run(Apply(s, steps[0]), steps[1..])
  }

  lemma {:induction false} RunConcat(s: State, a: seq<Step>, b: seq<Step>)
    requires ValidCluster(s.cluster)
    ensures Run(s, a + b) == Run(Run(s, a), b)
    decreases |a|
  {
    if a == [] {
      assert a + b == b;
    } else {
      ApplyKeepsValidCluster(s, a[0]);
      assert (a + b)[0] == a[0] && (a + b)[1..] == a[1..] + b;
      RunConcat(Apply(s, a[0]), a[1..], b);
    }
  }

  lemma RunSnoc(s: State, steps: seq<Step>, step: Step)
    requires ValidCluster(s.cluster)
    ensures Run(s, steps + [step]) == Apply(Run(s, steps), step)
  {
    RunConcat(s, steps, [step]);
    assert [step][1..] == [];
  }

  const INIT := State(Cluster([map[]], 0, map[]), [])
}
