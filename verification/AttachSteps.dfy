/**
 How a call ends, outcome by outcome, and what it asks of the API server: each exactly when,
 said in terms of the pods alone.
 */
module AttachSteps {
  import opened Options
  import opened PodHistory
  import opened AttachMachine
  import opened AttachInvariant

  /** What the pod cache shows to the call. */
  function Shown(cl: Cluster, c: Call): Option<Pod>
    requires ValidCluster(cl) && c.namespace.Some?
  {
    Lookup(cl.past[cl.cacheAt], PodKey(c.namespace.value, c.volumeId))
  }

  /** The call is in its poll loop and gets an answer from the cache. */
  predicate Polls(c: Call, r: Reply) {
    c.pc.AtPoll? && (r.Served? || r.NodeAbsent?)
  }

  predicate Terminated(seen: Option<Pod>) {
    seen.Some? && (seen.value.phase == Phase.Failed || seen.value.phase == Succeeded)
  }

  /** The pod is running, on some node. */
  predicate RunsSomewhere(seen: Option<Pod>) {
    seen.Some? && seen.value.phase == Running && seen.value.nodeName != ""
  }

  // ---------- Before the pod is looked at ----------

  /** The split and the node, and what goes wrong with an access. */
  lemma StartsIff(cl: Cluster, id: nat, c: Call, r: Reply)
    requires CanGo(cl, c)
    ensures var c' := Progress(cl, id, c, r).1;
      && (c'.Has(ContextDone) <==> r == Cancelled)
      && (c'.Has(VolumeNotFound) <==> c.pc.AtSplit? && (r.Served? || r.NodeAbsent?) && c.volumeId !in cl.splits)
      && (c'.Has(NodeNotFound) <==> c.pc.AtNode? && r == NodeAbsent)
      && (c'.Has(ApiError) <==> r.Failed?)
      && (c'.pc.AtNode? <==>
            c.pc.AtSplit? && (r.Served? || r.NodeAbsent?) && c.volumeId in cl.splits)
      && (c'.pc.AtNode? ==> c'.namespace == Some(cl.splits[c.volumeId]))
      && (c'.pc.AtLook? <==> c.pc.AtNode? && r.Served?)
      && (!c.pc.AtSplit? ==> c'.namespace == c.namespace)
  {}

  // ---------- Attach ----------

  lemma AttachEndsIff(cl: Cluster, id: nat, c: Call, r: Reply)
    requires CanGo(cl, c) && c.kind.Attach? && !c.pc.AtDelete?
    ensures var c' := Progress(cl, id, c, r).1;
      && !c'.Has(Detached) && !c'.Has(AttachmentNotFound)
      && (c'.pc.Ended? && c'.pc.outcome.Attached? <==>
            Polls(c, r) && RunsSomewhere(Shown(cl, c)) && Shown(cl, c).value.nodeName == c.nodeId)
      && (c'.pc.Ended? && c'.pc.outcome.VolumeInUse? <==>
            Polls(c, r) && RunsSomewhere(Shown(cl, c)) && Shown(cl, c).value.nodeName != c.nodeId)
      && (c'.Has(PodTerminating) <==> Polls(c, r) && Terminated(Shown(cl, c)))
      && (c'.Has(TimedOut) <==>
            Polls(c, r) && c.pc.left <= 1 && !RunsSomewhere(Shown(cl, c)) && !Terminated(Shown(cl, c)))
  {}

  /** The attachment that is returned names the node of the pod and the volume's host path. */
  lemma AttachReturns(cl: Cluster, id: nat, c: Call, r: Reply)
    requires CanGo(cl, c) && c.kind.Attach?
    ensures var c' := Progress(cl, id, c, r).1;
      c'.pc.Ended? && (c'.pc.outcome.Attached? || c'.pc.outcome.VolumeInUse?) ==>
        && c.namespace.Some? && Shown(cl, c).Some?
        && c'.pc.outcome.attachment.volumeId == c.volumeId
        && c'.pc.outcome.attachment.nodeId == Shown(cl, c).value.nodeName
        && c'.pc.outcome.attachment.hostPath == "/var/lib/union-csi-driver.union.io/volumes/" + c.volumeId + "/merged"
  {}

  lemma AttachGoesOnIff(cl: Cluster, id: nat, c: Call, r: Reply)
    requires CanGo(cl, c) && c.kind.Attach? && !c.pc.AtDelete?
    ensures var c' := Progress(cl, id, c, r).1;
      && !c'.pc.AtDelete?
      && (c'.pc.AtCreate? <==> c.pc.AtLook? && (r.Served? || r.NodeAbsent?) && Shown(cl, c).None?)
      && (!c.pc.AtPoll? ==> (c'.pc.AtPoll? <==>
            || (c.pc.AtLook? && (r.Served? || r.NodeAbsent?) && Shown(cl, c).Some?)
            || (c.pc.AtCreate? && (r.Served? || r.NodeAbsent?))))
      && (c'.pc.AtPoll? ==> c'.pc.left == if c.pc.AtPoll? then c.pc.left - 1 else 12)
  {}

  // ---------- Detach ----------

  predicate OnNode(seen: Option<Pod>, node: string) {
    seen.Some? && seen.value.nodeName == node
  }

  lemma DetachEndsIff(cl: Cluster, id: nat, c: Call, r: Reply)
    requires CanGo(cl, c) && c.kind.Detach? && !c.pc.AtCreate?
    ensures var c' := Progress(cl, id, c, r).1;
      && (c'.Has(Detached) <==> Polls(c, r) && Shown(cl, c).None?)
      && (c'.Has(AttachmentNotFound) <==>
            && (r.Served? || r.NodeAbsent?)
            && (|| (c.pc.AtLook? && !(OnNode(Shown(cl, c), c.nodeId) && c.nodeId != ""))
                || (c.pc.AtDelete? && PodKey(c.namespace.value, c.volumeId) !in cl.past[|cl.past| - 1])
                || (c.pc.AtPoll? && Shown(cl, c).Some? && Shown(cl, c).value.nodeName != c.nodeId)))
      && (c'.Has(TimedOut) <==> Polls(c, r) && c.pc.left <= 1 && OnNode(Shown(cl, c), c.nodeId))
      && !c'.Has(PodTerminating)
      && (c'.pc.Ended? ==> !c'.pc.outcome.Attached? && !c'.pc.outcome.VolumeInUse?)
  {}

  lemma DetachGoesOnIff(cl: Cluster, id: nat, c: Call, r: Reply)
    requires CanGo(cl, c) && c.kind.Detach? && !c.pc.AtCreate?
    ensures var c' := Progress(cl, id, c, r).1;
      && !c'.pc.AtCreate?
      && (c'.pc.AtDelete? <==>
            && c.pc.AtLook? && (r.Served? || r.NodeAbsent?)
            && OnNode(Shown(cl, c), c.nodeId) && c.nodeId != "" && !Shown(cl, c).value.deleting)
      && (!c.pc.AtPoll? ==> (c'.pc.AtPoll? <==>
            && (r.Served? || r.NodeAbsent?)
            && (|| (c.pc.AtLook? && OnNode(Shown(cl, c), c.nodeId) && c.nodeId != "" && Shown(cl, c).value.deleting)
                || (c.pc.AtDelete? && PodKey(c.namespace.value, c.volumeId) in cl.past[|cl.past| - 1]))))
      && (c'.pc.AtPoll? ==> c'.pc.left == if c.pc.AtPoll? then c.pc.left - 1 else 12)
  {}

  // ---------- Writes ----------

  /** A call changes the server only by creating its pod, which was not there, or by deleting it, which
      was; nothing else on the server is touched. */
  lemma WritesIff(cl: Cluster, id: nat, c: Call, r: Reply)
    requires CanGo(cl, c) && (c.pc.AtCreate? || c.pc.AtDelete? ==> c.namespace.Some?)
    ensures var cl' := Progress(cl, id, c, r).0;
      && cl'.splits == cl.splits && cl'.cacheAt == cl.cacheAt
      && (cl'.past != cl.past <==>
            && c.namespace.Some? && !r.Cancelled? && (r.Failed? ==> r.applied)
            && var there := PodKey(c.namespace.value, c.volumeId) in cl.past[|cl.past| - 1];
            (c.pc.AtCreate? && !there) || (c.pc.AtDelete? && there))
      && (cl'.past != cl.past ==>
            && |cl'.past| == |cl.past| + 1 && cl.past <= cl'.past
            && var k, now, next := PodKey(c.namespace.value, c.volumeId), cl.past[|cl.past| - 1], cl'.past[|cl.past|];
            && next - {k} == now - {k}
            && (c.pc.AtCreate? ==> k in next && next[k] == Pod(|cl.past|, id, c.nodeId, "", Pending, false))
            && (c.pc.AtDelete? ==> k !in next || next[k] == now[k].(deleting := true)))
  {
    if c.pc.AtDelete? && Server(cl) != map[] && PodKey(c.namespace.value, c.volumeId) in Server(cl) {
      var k := PodKey(c.namespace.value, c.volumeId);
      assert (Server(cl) - {k}) != Server(cl) by {
        assert k !in Server(cl) - {k};
      }
    }
  }
}
