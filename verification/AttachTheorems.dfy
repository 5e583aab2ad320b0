/** What the results of Attach and Detach mean, over all runs of any number of calls. */
module AttachTheorems {
  import opened Options
  import opened PodHistory
  import opened AttachMachine
  import opened AttachInvariant

  ghost predicate Reachable(s: State) {
    exists steps: seq<Step> :: s == Run(INIT, steps)
  }

  lemma ReachableInv(s: State)
    requires Reachable(s)
    ensures Inv(s)
  {
    var steps: seq<Step> :| s == Run(INIT, steps);
    InitInv();
    InvRun(INIT, steps);
  }

  lemma ReachableOn(s: State, steps: seq<Step>)
    requires ValidCluster(s.cluster) && Reachable(s)
    ensures Reachable(Run(s, steps))
  {
    var before: seq<Step> :| s == Run(INIT, before);
    RunConcat(INIT, before, steps);
  }

  /** The call reported that the volume is attached, on its node or on another one. */
  predicate Reported(c: Call) {
    c.pc.Ended? && (c.pc.outcome.Attached? || c.pc.outcome.VolumeInUse?)
  }

  /** A report names the node of a running incarnation that the server has held. */
  lemma ReportIsBacked(s: State, a: nat)
    requires Inv(s) && a < |s.calls| && Reported(s.calls[a])
    ensures var c := s.calls[a];
      && c.kind.Attach? && SawPod(s.cluster, c)
      && c.pod.value.phase == Phase.Running && c.pod.value.nodeName == c.pc.outcome.attachment.nodeId != ""
      && (c.pc.outcome.Attached? <==> c.pod.value.nodeName == c.nodeId)
      && c.pc.outcome.attachment.volumeId == c.volumeId
      && c.pc.outcome.attachment.hostPath == "/var/lib/union-csi-driver.union.io/volumes/" + c.volumeId + "/merged"
  {
    assert CallOk(s.cluster, s.calls[a]);
  }

  // ---------- Detach is real ----------

  predicate OnServer(cl: Cluster, k: PodKey, uid: nat) {
    ValidCluster(cl) && Holds(cl.past, |cl.past| - 1, k, uid)
  }

  /** h[i] has incarnation `uid` under k, bound to the node. */
  predicate BoundAt(h: History, i: nat, k: PodKey, uid: nat, node: string) {
    i < |h| && Holds(h, i, k, uid) && h[i][k].nodeName == node != ""
  }

  /** The cache shows incarnation `uid` under k, bound to the node. */
  predicate Shows(cl: Cluster, k: PodKey, uid: nat, node: string) {
    ValidCluster(cl) && BoundAt(cl.past, cl.cacheAt, k, uid, node)
  }

  /** The cache is not behind a state that has it so. */
  ghost predicate HasShown(cl: Cluster, k: PodKey, uid: nat, node: string) {
    exists i: nat :: i <= cl.cacheAt && BoundAt(cl.past, i, k, uid, node)
  }

  /** Call d is a Detach for the node, begun after s1, that has ended OK. */
  predicate DetachedLater(s1: State, s2: State, d: nat, volumeId: string, node: string) {
    && |s1.calls| <= d < |s2.calls|
    && s2.calls[d].kind.Detach? && s2.calls[d].DetachedOk()
    && s2.calls[d].volumeId == volumeId && s2.calls[d].nodeId == node
  }

  /** An incarnation bound to the node at i is not there any more once a later state has shown no
      pod on that node. */
  lemma GoneForGood(h: History, i: nat, gone: nat, k: PodKey, uid: nat, node: string)
    requires ValidHistory(h) && i <= gone < |h| && BoundAt(h, i, k, uid, node) && NotOn(h, gone, k, node)
    ensures !Holds(h, |h| - 1, k, uid)
  {
    if Holds(h, gone, k, uid) {
      BindingIsPermanent(h, i, gone, k);
    }
    NeverComesBack(h, i, gone, |h| - 1, k, uid);
  }

  /** When a Detach for a node has ended OK, every incarnation that the cache had shown bound to
      that node by the time the call began has left the server for good: reported or not, whatever
      its phase, for all interleavings and all lags of the cache. */
  lemma DetachIsReal(s1: State, t: seq<Step>, d: nat, k: PodKey, uid: nat, node: string)
    requires Reachable(s1) && ValidCluster(s1.cluster) && HasShown(s1.cluster, k, uid, node)
    requires DetachedLater(s1, Run(s1, t), d, k.volumeId, node) && Run(s1, t).calls[d].namespace == Some(k.namespace)
    ensures !OnServer(Run(s1, t).cluster, k, uid)
  {
    ReachableInv(s1);
    InvRun(s1, t);
    var det := Run(s1, t).calls[d];
    assert CallOk(Run(s1, t).cluster, det);
    RealDetach(s1.cluster, Run(s1, t).cluster, det, k, uid, node);
  }

  lemma RealDetach(before: Cluster, now: Cluster, det: Call, k: PodKey, uid: nat, node: string)
    requires ValidHistory(now.past) && Remembers(before, now) && HasShown(before, k, uid, node)
    requires before.cacheAt <= det.since && SawNoPod(now, det) && det.Key() == k && det.nodeId == node
    ensures !OnServer(now, k, uid)
  {
    var i: nat :| i <= before.cacheAt && BoundAt(before.past, i, k, uid, node);
    assert BoundAt(now.past, i, k, uid, node);
    GoneForGood(now.past, i, det.gone, k, uid, node);
  }

  /** What an Attach has reported, as its success or as the node in use, the cache has shown. */
  lemma ReportHasBeenShown(s: State, a: nat)
    requires Reachable(s) && a < |s.calls| && Reported(s.calls[a])
    ensures s.calls[a].pod.Some? && s.calls[a].namespace.Some?
    ensures HasShown(s.cluster, s.calls[a].Key(), s.calls[a].pod.value.uid, s.calls[a].pc.outcome.attachment.nodeId)
  {
    ReachableInv(s);
    ReportIsBacked(s, a);
    var c := s.calls[a];
    assert BoundAt(s.cluster.past, c.at, c.Key(), c.pod.value.uid, c.pc.outcome.attachment.nodeId);
  }

  /** So after a report of an attachment on a node, a Detach for that node that is begun later and ends
      OK means that the very incarnation reported has left the server for good. */
  lemma ReportedIsDetached(s1: State, t: seq<Step>, a: nat, d: nat)
    requires Reachable(s1) && ValidCluster(s1.cluster) && a < |s1.calls| && Reported(s1.calls[a])
    requires DetachedLater(s1, Run(s1, t), d, s1.calls[a].volumeId, s1.calls[a].pc.outcome.attachment.nodeId)
    requires Run(s1, t).calls[d].namespace == s1.calls[a].namespace
    ensures s1.calls[a].pod.Some? && s1.calls[a].namespace.Some?
    ensures !OnServer(Run(s1, t).cluster, s1.calls[a].Key(), s1.calls[a].pod.value.uid)
  {
    ReportHasBeenShown(s1, a);
    var att := s1.calls[a];
    DetachIsReal(s1, t, d, att.Key(), att.pod.value.uid, att.pc.outcome.attachment.nodeId);
  }

  // ---------- In which namespaces the pods of a volume are ----------

  /** The splits of v that are stored name these namespaces only. */
  ghost predicate SplitsIn(steps: seq<Step>, v: string, spaces: set<string>) {
    forall i | 0 <= i < |steps| && steps[i].PutSplit? && steps[i].volumeId == v :: steps[i].namespace in spaces
  }

  /** So do the split of v stored now and those that calls of v, from one on, have read. */
  ghost predicate NamespacesIn(s: State, v: string, from: nat, spaces: set<string>) {
    && (v in s.cluster.splits ==> s.cluster.splits[v] in spaces)
    && forall i | from <= i < |s.calls| && s.calls[i].volumeId == v && s.calls[i].namespace.Some? ::
      s.calls[i].namespace.value in spaces
  }

  lemma NamespacesStep(s: State, step: Step, v: string, from: nat, spaces: set<string>)
    requires ValidCluster(s.cluster) && NamespacesIn(s, v, from, spaces) && SplitsIn([step], v, spaces)
    ensures NamespacesIn(Apply(s, step), v, from, spaces)
  {
    assert [step][0] == step;
  }

  lemma {:induction false} NamespacesStay(s: State, steps: seq<Step>, v: string, from: nat, spaces: set<string>)
    requires ValidCluster(s.cluster) && NamespacesIn(s, v, from, spaces) && SplitsIn(steps, v, spaces)
    ensures NamespacesIn(Run(s, steps), v, from, spaces)
    decreases |steps|
  {
    if steps != [] {
      ApplyKeepsValidCluster(s, steps[0]);
      NamespacesStep(s, steps[0], v, from, spaces);
      assert SplitsIn(steps[1..], v, spaces) by {
        assert forall i | 0 <= i < |steps[1..]| :: steps[1..][i] == steps[i + 1];
      }
      NamespacesStay(Apply(s, steps[0]), steps[1..], v, from, spaces);
    }
  }

  /** DetachIsReal with a condition a caller can see: the volume's split may be deleted and
      created again, as long as it names the pod's namespace. */
  lemma DetachIsRealInOneNamespace(s1: State, t: seq<Step>, d: nat, k: PodKey, uid: nat, node: string)
    requires Reachable(s1) && ValidCluster(s1.cluster) && HasShown(s1.cluster, k, uid, node)
    requires k.volumeId in s1.cluster.splits ==> s1.cluster.splits[k.volumeId] == k.namespace
    requires SplitsIn(t, k.volumeId, {k.namespace})
    requires DetachedLater(s1, Run(s1, t), d, k.volumeId, node)
    ensures !OnServer(Run(s1, t).cluster, k, uid)
  {
    ReachableInv(s1);
    InvRun(s1, t);
    NamespacesStay(s1, t, k.volumeId, |s1.calls|, {k.namespace});
    assert CallOk(Run(s1, t).cluster, Run(s1, t).calls[d]);
    DetachIsReal(s1, t, d, k, uid, node);
  }

  // ---------- Exclusive attachment ----------

  /** Two reports of one volume on different nodes: the history between the two observations
      has the step that removed the pod seen first. */
  lemma ExclusiveAttachment(s: State, a: nat, b: nat) returns (m: nat)
    requires Reachable(s) && a < |s.calls| && b < |s.calls|
    requires Reported(s.calls[a]) && Reported(s.calls[b]) && s.calls[a].at <= s.calls[b].at
    requires s.calls[a].volumeId == s.calls[b].volumeId && s.calls[a].namespace == s.calls[b].namespace
    requires s.calls[a].pc.outcome.attachment.nodeId != s.calls[b].pc.outcome.attachment.nodeId
    ensures s.calls[a].pod.Some? && s.calls[a].namespace.Some?
    ensures s.calls[a].at < m <= s.calls[b].at < |s.cluster.past|
    ensures Holds(s.cluster.past, m - 1, s.calls[a].Key(), s.calls[a].pod.value.uid)
    ensures !Holds(s.cluster.past, m, s.calls[a].Key(), s.calls[a].pod.value.uid)
  {
    ReachableInv(s);
    ReportIsBacked(s, a);
    ReportIsBacked(s, b);
    var h, k, i, j := s.cluster.past, s.calls[a].Key(), s.calls[a].at, s.calls[b].at;
    var uid := s.calls[a].pod.value.uid;
    if Holds(h, j, k, uid) {
      BindingIsPermanent(h, i, j, k);
    }
    m := RemovalStep(h, i, j, k, uid);
  }

  /** No state of the history has two attach pods of v. */
  ghost predicate OnePod(h: History, v: string) {
    forall i, k1, k2 | 0 <= i < |h| && k1 in h[i] && k2 in h[i] && k1.volumeId == v == k2.volumeId :: k1 == k2
  }

  /** No state of the history has v on two nodes. */
  ghost predicate OneNode(h: History, v: string) {
    forall i, k1, k2 | 0 <= i < |h| && k1 in h[i] && k2 in h[i] && k1.volumeId == v == k2.volumeId
      && h[i][k1].nodeName != "" && h[i][k2].nodeName != "" :: h[i][k1].nodeName == h[i][k2].nodeName
  }

  lemma AtMostOne(spaces: set<string>, a: string, b: string)
    requires |spaces| <= 1 && a in spaces && b in spaces
    ensures a == b
  {
    assert |spaces - {a}| == |spaces| - 1;
    assert spaces - {a} == {};
  }

  /** As long as every split of v ever stored names the same namespace, no server state ever has
      two attach pods of v, so none has v on two nodes. */
  lemma OnePodPerVolume(steps: seq<Step>, v: string, spaces: set<string>)
    requires SplitsIn(steps, v, spaces) && |spaces| <= 1
    ensures OnePod(Run(INIT, steps).cluster.past, v)
  {
    var s := Run(INIT, steps);
    InitInv();
    InvRun(INIT, steps);
    NamespacesStay(INIT, steps, v, 0, spaces);
    var h := s.cluster.past;
    forall i: nat, k1: PodKey, k2: PodKey | i < |h| && k1 in h[i] && k2 in h[i] && k1.volumeId == v == k2.volumeId
      ensures k1 == k2
    {
      assert Traced(s.calls, k1, h[i][k1]) && Traced(s.calls, k2, h[i][k2]);
      AtMostOne(spaces, k1.namespace, k2.namespace);
    }
  }

  // ---------- Detach spares other nodes ----------

  /** Delete is by name and the cache may be stale; still, no step of a Detach for one node touches an
      incarnation that the cache had shown bound to another node before that Detach began, as it has
      every incarnation that an Attach had reported there. */
  lemma DetachSparesOtherNodes(s1: State, t: seq<Step>, d: nat, r: Reply, k: PodKey, uid: nat, node: string)
    requires Reachable(s1) && ValidCluster(s1.cluster) && HasShown(s1.cluster, k, uid, node)
    requires |s1.calls| <= d < |Run(s1, t).calls|
    requires Run(s1, t).calls[d].kind.Detach? && Run(s1, t).calls[d].nodeId != node
    ensures var s2 := Run(s1, t);
      && ValidCluster(Apply(s2, Advance(d, r)).cluster)
      && (OnServer(s2.cluster, k, uid) ==>
        Lookup(Server(Apply(s2, Advance(d, r)).cluster), k) == Lookup(Server(s2.cluster), k))
  {
    ReachableInv(s1);
    InvRun(s1, t);
    ApplyKeepsValidCluster(Run(s1, t), Advance(d, r));
    SparingStep(s1, Run(s1, t), d, r, k, uid, node);
  }

  lemma SparingStep(s1: State, s2: State, d: nat, r: Reply, k: PodKey, uid: nat, node: string)
    requires Inv(s1) && Inv(s2) && Later(s1, s2) && HasShown(s1.cluster, k, uid, node)
    requires |s1.calls| <= d < |s2.calls| && s2.calls[d].kind.Detach? && s2.calls[d].nodeId != node
    ensures var s3 := Apply(s2, Advance(d, r));
      && ValidCluster(s3.cluster)
      && (OnServer(s2.cluster, k, uid) ==> Lookup(Server(s3.cluster), k) == Lookup(Server(s2.cluster), k))
  {
    var det := s2.calls[d];
    assert CallOk(s2.cluster, det);
    if CanGo(s2.cluster, det) && det.pc.AtDelete? && det.Key() == k {
      DeletesAnother(s1.cluster, s2.cluster, det, k, uid, node);
    }
    AdvanceSpares(s2, d, r, k);
  }

  /** When a later Detach for another node is about to delete under k, the incarnation that the cache had
      shown is not there any more. */
  lemma DeletesAnother(before: Cluster, now: Cluster, det: Call, k: PodKey, uid: nat, node: string)
    requires ValidHistory(now.past) && Remembers(before, now) && HasShown(before, k, uid, node)
    requires CallOk(now, det) && det.kind.Detach? && det.pc.AtDelete? && before.cacheAt <= det.since
    requires det.namespace.Some? && det.Key() == k && det.nodeId != node
    ensures !OnServer(now, k, uid)
  {
    var i: nat :| i <= before.cacheAt && BoundAt(before.past, i, k, uid, node);
    AboutToDelete(now, det);
    assert now.past[i] == before.past[i];
    if OnServer(now, k, uid) {
      NotTheOneSeen(now.past, i, det.at, k);
    }
  }

  /** Whatever a Detach does next, if it is not about to delete under k. */
  lemma AdvanceSpares(s: State, d: nat, r: Reply, k: PodKey)
    requires ValidCluster(s.cluster) && d < |s.calls| && s.calls[d].kind.Detach? && CallOk(s.cluster, s.calls[d])
    ensures var s' := Apply(s, Advance(d, r)); var c := s.calls[d];
      && ValidCluster(s'.cluster)
      && (!(CanGo(s.cluster, c) && c.pc.AtDelete? && c.Key() == k) ==>
        Lookup(Server(s'.cluster), k) == Lookup(Server(s.cluster), k))
  {
    ApplyKeepsValidCluster(s, Advance(d, r));
    var c := s.calls[d];
    if CanGo(s.cluster, c) && !(c.pc.AtDelete? && c.Key() == k) {
      DetachTouchesOnlyItsKey(s.cluster, d, c, r, k);
    }
  }

  /** h[i] has a pod under k on the node that is not marked for deletion: what a Detach for the node
      has to see to go on and delete. */
  predicate Deletable(h: History, i: nat, k: PodKey, node: string) {
    i < |h| && k in h[i] && h[i][k].nodeName == node != "" && !h[i][k].deleting
  }

  /** A Detach that is about to delete has seen such a pod, in a state the cache has shown since the
      call began. */
  lemma AboutToDelete(cl: Cluster, c: Call)
    requires CallOk(cl, c) && c.kind.Detach? && c.pc.AtDelete?
    ensures c.namespace.Some? && c.since <= c.at <= cl.cacheAt && Deletable(cl.past, c.at, c.Key(), c.nodeId)
  {}

  /** An incarnation that selects another node is spared by every Detach for this one that is begun
      when no state from the one the cache shows to the present has a pod it would delete. */
  lemma SparedUnlessDeletable(s1: State, t: seq<Step>, d: nat, r: Reply, k: PodKey, uid: nat, node: string)
    requires Reachable(s1) && OnServer(s1.cluster, k, uid) && Server(s1.cluster)[k].selector != node
    requires forall m | s1.cluster.cacheAt <= m < |s1.cluster.past| :: !Deletable(s1.cluster.past, m, k, node)
    requires |s1.calls| <= d < |Run(s1, t).calls|
    requires Run(s1, t).calls[d].kind.Detach? && Run(s1, t).calls[d].nodeId == node
    requires OnServer(Run(s1, t).cluster, k, uid)
    ensures var s2 := Run(s1, t);
      && ValidCluster(Apply(s2, Advance(d, r)).cluster)
      && Lookup(Server(Apply(s2, Advance(d, r)).cluster), k) == Lookup(Server(s2.cluster), k)
  {
    ReachableInv(s1);
    InvRun(s1, t);
    SparedStep(s1, Run(s1, t), d, r, k, uid, node);
  }

  lemma SparedStep(s1: State, s2: State, d: nat, r: Reply, k: PodKey, uid: nat, node: string)
    requires Inv(s1) && Inv(s2) && Later(s1, s2)
    requires OnServer(s1.cluster, k, uid) && Server(s1.cluster)[k].selector != node && OnServer(s2.cluster, k, uid)
    requires forall m | s1.cluster.cacheAt <= m < |s1.cluster.past| :: !Deletable(s1.cluster.past, m, k, node)
    requires |s1.calls| <= d < |s2.calls| && s2.calls[d].kind.Detach? && s2.calls[d].nodeId == node
    ensures var s3 := Apply(s2, Advance(d, r));
      ValidCluster(s3.cluster) && Lookup(Server(s3.cluster), k) == Lookup(Server(s2.cluster), k)
  {
    var det := s2.calls[d];
    assert CallOk(s2.cluster, det);
    if CanGo(s2.cluster, det) && det.pc.AtDelete? && det.Key() == k {
      AboutToDelete(s2.cluster, det);
      NotWhatWasSeen(s1.cluster.past, s2.cluster.past, det.at, k, uid, node);
      assert false;
    }
    AdvanceSpares(s2, d, r, k);
  }

  /** While the incarnation lives, no state has another one under its key, and it never is on a node it
      does not select. */
  lemma NotWhatWasSeen(before: History, now: History, i: nat, k: PodKey, uid: nat, node: string)
    requires ValidHistory(before) && ValidHistory(now) && before <= now && i < |now|
    requires Holds(before, |before| - 1, k, uid) && Holds(now, |now| - 1, k, uid)
    requires before[|before| - 1][k].selector != node && Deletable(now, i, k, node)
    ensures i < |before| && Deletable(before, i, k, node)
  {
    var last := |before| - 1;
    if last <= i {
      BornInThePast(before, last, k);
      WasThereBefore(now, i, |now| - 1, k);
      WasThereBefore(now, last, |now| - 1, k);
      BornInThePast(now, i, k);
      assert false;
    }
  }

  lemma DetachTouchesOnlyItsKey(cl: Cluster, id: nat, c: Call, r: Reply, k: PodKey)
    requires CanGo(cl, c) && CallOk(cl, c) && c.kind.Detach?
    requires c.pc.AtDelete? ==> c.Key() != k
    ensures var cl' := Progress(cl, id, c, r).0;
      ValidCluster(cl') && Lookup(Server(cl'), k) == Lookup(Server(cl), k)
  {}

  /** An incarnation still on the server is the one seen under its key at every index since. */
  lemma NotTheOneSeen(h: History, i: nat, j: nat, k: PodKey)
    requires ValidHistory(h) && i <= j < |h| && k in h[i] && h[i][k].nodeName != ""
    requires Holds(h, |h| - 1, k, h[i][k].uid)
    ensures k in h[j] && h[j][k].nodeName == h[i][k].nodeName
  {
    BornInThePast(h, i, k);
    WasThereBefore(h, j, |h| - 1, k);
    BindingIsPermanent(h, i, j, k);
  }

  // ---------- A binding traces to its creator ----------

  /** Every pod the server ever held was created by an Attach for that volume, and is bound,
      if at all, to the node of that Attach. */
  lemma BindingTracesToCreator(s: State, i: nat, k: PodKey)
    requires Reachable(s) && i < |s.cluster.past| && k in s.cluster.past[i]
    ensures var pod := s.cluster.past[i][k];
      && pod.creator < |s.calls|
      && var c := s.calls[pod.creator];
      && c.kind.Attach? && c.volumeId == k.volumeId && c.namespace == Some(k.namespace)
      && (pod.nodeName == "" || pod.nodeName == c.nodeId)
  {
    ReachableInv(s);
    BornInThePast(s.cluster.past, i, k);
    assert Traced(s.calls, k, s.cluster.past[i][k]);
  }

  /** An error that names node m stems from an Attach for m, and never from the call itself. */
  lemma VolumeInUseNamesAnotherAttach(s: State, a: nat)
    requires Reachable(s) && a < |s.calls| && s.calls[a].pc.Ended? && s.calls[a].pc.outcome.VolumeInUse?
    ensures s.calls[a].pod.Some?
    ensures var creator := s.calls[a].pod.value.creator;
      && creator != a && creator < |s.calls|
      && s.calls[creator].kind.Attach? && s.calls[creator].volumeId == s.calls[a].volumeId
      && s.calls[creator].nodeId == s.calls[a].pc.outcome.attachment.nodeId != s.calls[a].nodeId
  {
    ReachableInv(s);
    ReportIsBacked(s, a);
    BindingTracesToCreator(s, s.calls[a].at, s.calls[a].Key());
  }
}
