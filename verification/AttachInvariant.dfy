/**
 What every state of every run satisfies: the history is one of real incarnations, every
 pod traces back to the Attach call that created it, and what a call has concluded is
 backed by a state of the history.
 */
module AttachInvariant {
  import opened Options
  import opened PodHistory
  import opened AttachMachine

  /** The pod variable of the call is what the history has at index `at`. */
  ghost predicate SawPod(cl: Cluster, c: Call) {
    && c.namespace.Some? && c.pod.Some?
    && c.since <= c.at <= cl.cacheAt < |cl.past|
    && c.Key() in cl.past[c.at]
    && cl.past[c.at][c.Key()] == c.pod.value
  }

  /** A state not older than the cache at the start of the call shows no pod on its node. */
  ghost predicate SawNoPod(cl: Cluster, c: Call) {
    && c.namespace.Some?
    && c.since <= c.gone < |cl.past|
    && NotOn(cl.past, c.gone, c.Key(), c.nodeId)
  }

  ghost predicate AttachOk(c: Call) {
    && !c.pc.AtDelete? && !c.DetachedOk()
    && (c.pc.Ended? && c.pc.outcome.Attached? ==>
      && c.pod.Some? && IsPodRunning(c.pod.value) && c.pod.value.nodeName == c.nodeId
      && c.pc.outcome.attachment == Attachment(c.volumeId, c.nodeId, HostPath(c.volumeId)))
    && (c.pc.Ended? && c.pc.outcome.VolumeInUse? ==>
      && c.pod.Some? && IsPodRunning(c.pod.value) && c.pod.value.nodeName != c.nodeId
      && c.pc.outcome.attachment == Attachment(c.volumeId, c.pod.value.nodeName, HostPath(c.volumeId)))
  }

  ghost predicate DetachOk(cl: Cluster, c: Call) {
    && !c.pc.AtCreate?
    && (c.pc.Ended? ==> !c.pc.outcome.Attached? && !c.pc.outcome.VolumeInUse?)
    && (c.pc.AtDelete? ==> c.pod.Some? && c.pod.value.nodeName == c.nodeId != "" && !c.pod.value.deleting)
    && (c.DetachedOk() ==> SawNoPod(cl, c))
  }

  ghost predicate CallOk(cl: Cluster, c: Call) {
    && c.since <= cl.cacheAt
    && (c.pc.AtSplit? || c.pc.AtNode? || c.pc.Ended? || c.namespace.Some?)
    && (c.pc.AtNode? ==> c.namespace.Some?)
    && (c.pc.AtSplit? ==> c.namespace.None?)
    && (c.pod.Some? ==> SawPod(cl, c))
    && (if c.kind.Attach? then AttachOk(c) else DetachOk(cl, c))
  }

  /** The pod was created by a call that asked for this volume on the node it selects. */
  ghost predicate Traced(calls: seq<Call>, k: PodKey, pod: Pod) {
    && pod.creator < |calls|
    && var c := calls[pod.creator];
    && c.kind.Attach? && c.volumeId == k.volumeId && c.nodeId == pod.selector
    && c.namespace == Some(k.namespace)
  }

  ghost predicate AllTraced(s: State) {
    forall i, k | 0 <= i < |s.cluster.past| && k in s.cluster.past[i] :: Traced(s.calls, k, s.cluster.past[i][k])
  }

  ghost predicate Inv(s: State) {
    && ValidCluster(s.cluster)
    && ValidHistory(s.cluster.past)
    && AllTraced(s)
    && forall i | 0 <= i < |s.calls| :: CallOk(s.cluster, s.calls[i])
  }

  /** The later cluster remembers everything of the earlier one. */
  ghost predicate Remembers(a: Cluster, b: Cluster) {
    && a.past <= b.past
    && a.cacheAt <= b.cacheAt < |b.past|
  }

  lemma CallOkStays(a: Cluster, b: Cluster, c: Call)
    requires Remembers(a, b) && CallOk(a, c)
    ensures CallOk(b, c)
  {}

  /** Only an Attach at its Create brings in a pod it did not find. */
  ghost predicate NoNewPods(a: Cluster, b: Cluster)
    requires ValidCluster(a) && ValidCluster(b)
  {
    && (b.past == a.past || exists next: Store :: b.past == a.past + [next] && OnlyOld(Server(a), next))
  }

  ghost predicate OnlyOld(now: Store, next: Store) {
    forall k | k in next :: k in now && SameIncarnation(now[k], next[k])
  }

  lemma OldPodsOnly(cl: Cluster, next: Store)
    requires ValidCluster(cl) && ValidHistory(cl.past) && OnlyOld(Server(cl), next)
    ensures NoNewPods(cl, Write(cl, next)) && ValidHistory(Write(cl, next).past)
  {
    Extended(cl.past, next);
  }

  lemma EnvironmentOk(cl: Cluster, step: Step)
    requires ValidCluster(cl) && ValidHistory(cl.past)
    ensures var cl' := Environment(cl, step);
      ValidCluster(cl') && ValidHistory(cl'.past) && Remembers(cl, cl') && NoNewPods(cl, cl')
  {
    var cl' := Environment(cl, step);
    if cl'.past != cl.past {
      var next := Server(cl');
      assert cl' == Write(cl, next);
      assert OnlyOld(Server(cl), next);
      OldPodsOnly(cl, next);
    }
  }

  lemma DeleteOk(cl: Cluster, key: PodKey, atOnce: bool)
    requires ValidCluster(cl) && ValidHistory(cl.past)
    ensures var cl' := ServerDelete(cl, key, atOnce);
      ValidCluster(cl') && ValidHistory(cl'.past) && Remembers(cl, cl') && NoNewPods(cl, cl')
  {
    var cl' := ServerDelete(cl, key, atOnce);
    if cl'.past != cl.past {
      var next := Server(cl');
      assert cl' == Write(cl, next);
      assert OnlyOld(Server(cl), next);
      OldPodsOnly(cl, next);
    }
  }

  lemma CreateOk(cl: Cluster, key: PodKey, id: nat, nodeId: string)
    requires ValidCluster(cl) && ValidHistory(cl.past)
    ensures var cl' := ServerCreate(cl, key, NewPod(cl, id, nodeId));
      ValidCluster(cl') && ValidHistory(cl'.past) && Remembers(cl, cl')
  {
    if key !in Server(cl) {
      var next := Server(cl)[key := NewPod(cl, id, nodeId)];
      Extended(cl.past, next);
    }
  }

  lemma OldPodsTraced(s: State, cl: Cluster, calls: seq<Call>)
    requires ValidCluster(s.cluster) && ValidCluster(cl) && AllTraced(s)
    requires NoNewPods(s.cluster, cl)
    requires CallsGrow(s.calls, calls)
    ensures AllTraced(State(cl, calls))
  {}

  /** Who a call is never changes, an ended call never moves, a namespace once read stays. */
  ghost predicate SameCall(before: Call, after: Call) {
    && before.kind == after.kind && before.volumeId == after.volumeId && before.nodeId == after.nodeId
    && before.since == after.since
    && (before.pc.Ended? ==> after == before)
    && (before.namespace.Some? ==> after.namespace == before.namespace)
  }

  ghost predicate CallsGrow(before: seq<Call>, after: seq<Call>) {
    && |before| <= |after|
    && forall i | 0 <= i < |before| :: SameCall(before[i], after[i])
  }

  lemma ProgressCluster(cl: Cluster, id: nat, c: Call, r: Reply)
    requires CanGo(cl, c) && ValidHistory(cl.past) && (c.pc.AtSplit? ==> c.namespace.None?)
    ensures var (cl', c') := Progress(cl, id, c, r);
      && ValidCluster(cl') && ValidHistory(cl'.past) && Remembers(cl, cl') && SameCall(c, c')
      && (!c.pc.AtCreate? ==> NoNewPods(cl, cl'))
  {
    if c.pc.AtCreate? {
      CreateOk(cl, c.Key(), id, c.nodeId);
    } else if c.pc.AtDelete? {
      DeleteOk(cl, c.Key(), false);
      DeleteOk(cl, c.Key(), true);
    }
  }

  lemma ProgressCall(cl: Cluster, id: nat, c: Call, r: Reply)
    requires CanGo(cl, c) && ValidHistory(cl.past) && CallOk(cl, c)
    ensures var (cl', c') := Progress(cl, id, c, r); CallOk(cl', c')
  {
    ProgressCluster(cl, id, c, r);
  }

  lemma ProgressTraced(s: State, id: nat, r: Reply)
    requires Inv(s) && id < |s.calls| && CanGo(s.cluster, s.calls[id])
    ensures AllTraced(Apply(s, Advance(id, r)))
  {
    var c := s.calls[id];
    assert CallOk(s.cluster, c);
    ProgressCluster(s.cluster, id, c, r);
    var (cl', c') := Progress(s.cluster, id, c, r);
    var s' := Apply(s, Advance(id, r));
    assert CallsGrow(s.calls, s'.calls);
    if !c.pc.AtCreate? || cl' == s.cluster {
      OldPodsTraced(s, cl', s'.calls);
    } else {
      CreatedTraced(s, id, r);
    }
  }

  lemma CreatedTraced(s: State, id: nat, r: Reply)
    requires Inv(s) && id < |s.calls| && CanGo(s.cluster, s.calls[id]) && s.calls[id].pc.AtCreate?
    requires Apply(s, Advance(id, r)).cluster != s.cluster
    ensures AllTraced(Apply(s, Advance(id, r)))
  {}

  lemma InvStep(s: State, step: Step)
    requires Inv(s)
    ensures Inv(Apply(s, step))
    ensures Remembers(s.cluster, Apply(s, step).cluster) && CallsGrow(s.calls, Apply(s, step).calls)
  {
    var s' := Apply(s, step);
    if step.Advance? {
      if step.id < |s.calls| && CanGo(s.cluster, s.calls[step.id]) {
        assert CallOk(s.cluster, s.calls[step.id]);
        ProgressCluster(s.cluster, step.id, s.calls[step.id], step.reply);
        ProgressCall(s.cluster, step.id, s.calls[step.id], step.reply);
        ProgressTraced(s, step.id, step.reply);
        forall i | 0 <= i < |s'.calls| ensures CallOk(s'.cluster, s'.calls[i]) {
          if i != step.id {
            CallOkStays(s.cluster, s'.cluster, s.calls[i]);
          }
        }
      }
    } else {
      EnvironmentOk(s.cluster, step);
      OldPodsTraced(s, s'.cluster, s'.calls);
      forall i | 0 <= i < |s'.calls| ensures CallOk(s'.cluster, s'.calls[i]) {
        if i < |s.calls| {
          CallOkStays(s.cluster, s'.cluster, s.calls[i]);
        }
      }
    }
  }

  /** Calls that a run begins see nothing older than the cache was at the start of the run. */
  ghost predicate NewCallsAreLater(a: State, b: State) {
    |a.calls| <= |b.calls| && forall i | |a.calls| <= i < |b.calls| :: a.cluster.cacheAt <= b.calls[i].since
  }

  ghost predicate Later(a: State, b: State) {
    Remembers(a.cluster, b.cluster) && CallsGrow(a.calls, b.calls) && NewCallsAreLater(a, b)
  }

  lemma {:induction false} InvRun(s: State, steps: seq<Step>)
    requires Inv(s)
    ensures Inv(Run(s, steps)) && Later(s, Run(s, steps))
    decreases |steps|
  {
    if steps != [] {
      InvStep(s, steps[0]);
      var s1 := Apply(s, steps[0]);
      InvRun(s1, steps[1..]);
      LaterTransitive(s, s1, Run(s1, steps[1..]));
    }
  }

  lemma LaterTransitive(a: State, b: State, c: State)
    requires Later(a, b) && Later(b, c)
    ensures Later(a, c)
  {}

  lemma InitInv()
    ensures Inv(INIT)
  {}
}
