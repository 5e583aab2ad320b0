/** Exactly when the theorems about attachment hold, and the runs that show where they end. */
module AttachWitnesses {
  import opened Options
  import opened PodHistory
  import opened AttachMachine
  import opened AttachInvariant
  import opened AttachTheorems

  const OK: Reply := Served(true)

  /** An Attach that meets no pod creates one and begins to poll. */
  lemma AttachCreates(s: State, v: string, n: string) returns (t: seq<Step>)
    requires ValidCluster(s.cluster) && v in s.cluster.splits
    requires var k := PodKey(s.cluster.splits[v], v); k !in Server(s.cluster) && k !in s.cluster.past[s.cluster.cacheAt]
    ensures var k := PodKey(s.cluster.splits[v], v); var id := |s.calls|;
      Run(s, t) == State(
        Write(s.cluster, Server(s.cluster)[k := NewPod(s.cluster, id, n)]),
        s.calls + [NewCall(s.cluster, Attach, v, n).(namespace := Some(s.cluster.splits[v]), pc := AtPoll(POLL_STEPS))])
    ensures SplitsIn(t, v, {})
  {
    var id, k := |s.calls|, PodKey(s.cluster.splits[v], v);
    var u1 := Apply(s, Begin(Attach, v, n));
    var u2 := Apply(u1, Advance(id, OK));
    var u3 := Apply(u2, Advance(id, OK));
    var u4 := Apply(u3, Advance(id, OK));
    assert u4.calls[id].pc == AtCreate && u4.cluster == s.cluster;
    var u5 := Apply(u4, Advance(id, OK));
    assert u5.cluster == Write(s.cluster, Server(s.cluster)[k := NewPod(s.cluster, id, n)]);
    t := [];
    RunSnoc(s, t, Begin(Attach, v, n));
    t := t + [Begin(Attach, v, n)];
    RunSnoc(s, t, Advance(id, OK));
    t := t + [Advance(id, OK)];
    RunSnoc(s, t, Advance(id, OK));
    t := t + [Advance(id, OK)];
    RunSnoc(s, t, Advance(id, OK));
    t := t + [Advance(id, OK)];
    RunSnoc(s, t, Advance(id, OK));
    t := t + [Advance(id, OK)];
    assert Run(s, t) == u5;
    assert u5.calls == s.calls + [NewCall(s.cluster, Attach, v, n).(namespace := Some(s.cluster.splits[v]),
      pc := AtPoll(POLL_STEPS))];
  }

  // ---------- One volume on two nodes ----------

  lemma AttachThenBind(s: State, v: string, n: string) returns (t: seq<Step>)
    requires ValidCluster(s.cluster) && v in s.cluster.splits
    requires var k := PodKey(s.cluster.splits[v], v); k !in Server(s.cluster) && k !in s.cluster.past[s.cluster.cacheAt]
    ensures var k := PodKey(s.cluster.splits[v], v); var s' := Run(s, t);
      && s'.cluster.splits == s.cluster.splits && s'.cluster.cacheAt == s.cluster.cacheAt
      && s'.cluster.past[s.cluster.cacheAt] == s.cluster.past[s.cluster.cacheAt]
      && k in Server(s'.cluster) && Server(s'.cluster)[k].nodeName == n && !Server(s'.cluster)[k].deleting
      && Server(s'.cluster) == Server(s.cluster)[k := Server(s'.cluster)[k]] && s.cluster.past <= s'.cluster.past
    ensures SplitsIn(t, v, {})
  {
    var k := PodKey(s.cluster.splits[v], v);
    t := AttachCreates(s, v, n);
    RunSnoc(s, t, Bind(k));
    t := t + [Bind(k)];
  }

  lemma ReplaceSplit(s: State, v: string, namespace: string) returns (t: seq<Step>)
    requires ValidCluster(s.cluster)
    ensures Run(s, t) == s.(cluster := s.cluster.(splits := s.cluster.splits[v := namespace]))
    ensures SplitsIn(t, v, {namespace})
  {
    t := [DropSplit(v)] + [PutSplit(v, namespace)];
    RunSnoc(s, [], DropSplit(v));
    assert [] + [DropSplit(v)] == [DropSplit(v)];
    RunSnoc(s, [DropSplit(v)], PutSplit(v, namespace));
    assert (s.cluster.splits - {v})[v := namespace] == s.cluster.splits[v := namespace];
  }

  /** When the split of an attached volume is deleted and created again in another namespace,
      whichever two these are, the volume can be on any two nodes at once. */
  lemma TwoNodesWhenTheSplitIsReplaced(v: string, x: string, y: string, n1: string, n2: string)
    returns (steps: seq<Step>, k1: PodKey, k2: PodKey)
    requires x != y
    ensures SplitsIn(steps, v, {x, y}) && k1 == PodKey(x, v) && k2 == PodKey(y, v)
    ensures var now := Server(Run(INIT, steps).cluster);
      k1 in now && k2 in now && now[k1].nodeName == n1 && now[k2].nodeName == n2
  {
    k1, k2 := PodKey(x, v), PodKey(y, v);
    var t1 := AddPod(INIT, v, x, n1);
    var s1 := Run(INIT, t1);
    assert k1 != k2;
    var t2 := AddPod(s1, v, y, n2);
    RunConcat(INIT, t1, t2);
    steps := t1 + t2;
  }

  /** Whatever namespace the split of v names, it can be replaced and v attached through the new one. */
  lemma AddPod(s: State, v: string, namespace: string, n: string) returns (t: seq<Step>)
    requires ValidCluster(s.cluster)
    requires var k := PodKey(namespace, v); k !in Server(s.cluster) && k !in s.cluster.past[s.cluster.cacheAt]
    ensures var k := PodKey(namespace, v); var s' := Run(s, t);
      && s'.cluster.cacheAt == s.cluster.cacheAt
      && s'.cluster.past[s.cluster.cacheAt] == s.cluster.past[s.cluster.cacheAt]
      && k in Server(s'.cluster) && Server(s'.cluster)[k].nodeName == n && !Server(s'.cluster)[k].deleting
      && Server(s'.cluster) == Server(s.cluster)[k := Server(s'.cluster)[k]] && s.cluster.past <= s'.cluster.past
    ensures SplitsIn(t, v, {namespace})
  {
    var t1 := ReplaceSplit(s, v, namespace);
    var s1 := Run(s, t1);
    var t2 := AttachThenBind(s1, v, n);
    RunConcat(s, t1, t2);
    t := t1 + t2;
  }

  /** So a volume never has two attach pods, in any run whose splits of it name namespaces out of
      a given set, exactly when that set has no two members; and the same for being on two nodes. */
  lemma OnePodPerVolumeIff(v: string, spaces: set<string>)
    ensures |spaces| <= 1 <==>
      forall steps: seq<Step> :: SplitsIn(steps, v, spaces) ==> OnePod(Run(INIT, steps).cluster.past, v)
    ensures |spaces| <= 1 <==>
      forall steps: seq<Step> :: SplitsIn(steps, v, spaces) ==> OneNode(Run(INIT, steps).cluster.past, v)
  {
    if |spaces| <= 1 {
      forall steps: seq<Step> | SplitsIn(steps, v, spaces)
        ensures OnePod(Run(INIT, steps).cluster.past, v) && OneNode(Run(INIT, steps).cluster.past, v)
      {
        OnePodPerVolume(steps, v, spaces);
      }
    } else {
      var x :| x in spaces;
      assert |spaces - {x}| == |spaces| - 1;
      var y :| y in spaces - {x};
      var steps, k1, k2 := TwoNodesWhenTheSplitIsReplaced(v, x, y, "a", "b");
      var h := Run(INIT, steps).cluster.past;
      assert h[|h| - 1] == Server(Run(INIT, steps).cluster);
      assert "a" != "b";
      assert SplitsIn(steps, v, spaces) && !OnePod(h, v) && !OneNode(h, v);
    }
  }

  // ---------- Exactly when Detach is real ----------

  /** Every Detach for the node that is begun from now on, with the namespace of k, and ends OK
      means that the incarnation is gone. */
  ghost predicate DetachMeansGone(s: State, k: PodKey, uid: nat, node: string)
    requires ValidCluster(s.cluster)
  {
    forall t: seq<Step>, d: nat ::
      DetachedLater(s, Run(s, t), d, k.volumeId, node) && Run(s, t).calls[d].namespace == Some(k.namespace)
      ==> !OnServer(Run(s, t).cluster, k, uid)
  }

  /** The split of v is neither created nor deleted. */
  ghost predicate LeavesSplit(t: seq<Step>, v: string) {
    forall i | 0 <= i < |t| :: t[i] != DropSplit(v) && (t[i].PutSplit? ==> t[i].volumeId != v)
  }

  /** The same of runs that leave the split of the volume alone. */
  ghost predicate DetachMeansGoneWithSplit(s: State, k: PodKey, uid: nat, node: string)
    requires ValidCluster(s.cluster)
  {
    forall t: seq<Step>, d: nat ::
      LeavesSplit(t, k.volumeId)
      && DetachedLater(s, Run(s, t), d, k.volumeId, node) && Run(s, t).calls[d].namespace == Some(k.namespace)
      ==> !OnServer(Run(s, t).cluster, k, uid)
  }

  predicate SplitNames(s: State, k: PodKey) {
    k.volumeId in s.cluster.splits && s.cluster.splits[k.volumeId] == k.namespace
  }

  /** A Detach whose cache shows no pod under k on the node: it is answered OK and nothing happens. */
  lemma DetachMeetsNothing(s: State, k: PodKey, node: string) returns (t: seq<Step>)
    requires ValidCluster(s.cluster) && k.volumeId in s.cluster.splits && s.cluster.splits[k.volumeId] == k.namespace
    requires NotOn(s.cluster.past, s.cluster.cacheAt, k, node)
    ensures var s' := Run(s, t);
      && s'.cluster == s.cluster && |s'.calls| == |s.calls| + 1 && s'.calls[..|s.calls|] == s.calls
      && DetachedLater(s, s', |s.calls|, k.volumeId, node) && s'.calls[|s.calls|].namespace == Some(k.namespace)
    ensures SplitsIn(t, k.volumeId, {}) && LeavesSplit(t, k.volumeId)
  {
    var d := |s.calls|;
    var u1, t1 := DetachLooks(s, k, node);
    var u2 := Apply(u1, Advance(d, OK));
    assert u2.calls[d].Has(AttachmentNotFound);
    RunSnoc(s, t1, Advance(d, OK));
    t := t1 + [Advance(d, OK)];
  }

  /** A Detach gets to its look at the pod cache. */
  lemma DetachLooks(s: State, k: PodKey, node: string) returns (s': State, t: seq<Step>)
    requires ValidCluster(s.cluster) && SplitNames(s, k)
    ensures s' == Run(s, t) && s'.cluster == s.cluster
    ensures s'.calls == s.calls + [NewCall(s.cluster, Detach, k.volumeId, node).(namespace := Some(k.namespace),
      pc := AtLook)]
    ensures SplitsIn(t, k.volumeId, {}) && LeavesSplit(t, k.volumeId)
  {
    var d, b := |s.calls|, Begin(Detach, k.volumeId, node);
    var u1 := Apply(s, b);
    var u2 := Apply(u1, Advance(d, OK));
    s' := Apply(u2, Advance(d, OK));
    RunSnoc(s, [], b);
    assert [] + [b] == [b];
    RunSnoc(s, [b], Advance(d, OK));
    RunSnoc(s, [b] + [Advance(d, OK)], Advance(d, OK));
    t := [b] + [Advance(d, OK)] + [Advance(d, OK)];
  }

  /** From a state whose cache does not show the incarnation on the node, the cache can move to
      one that shows no pod there under k at all. */
  lemma CacheMissesIt(s: State, k: PodKey, uid: nat, node: string) returns (m: nat)
    requires Inv(s) && OnServer(s.cluster, k, uid) && !Shows(s.cluster, k, uid, node)
    ensures s.cluster.cacheAt <= m < |s.cluster.past| && NotOn(s.cluster.past, m, k, node)
  {
    var h, i := s.cluster.past, s.cluster.cacheAt;
    if NotOn(h, i, k, node) {
      m := i;
    } else {
      m := FreeBeforeBirth(h, i, |h| - 1, k);
    }
  }

  lemma SyncTo(s: State, m: nat) returns (s1: State)
    requires ValidCluster(s.cluster) && s.cluster.cacheAt <= m < |s.cluster.past|
    ensures s1 == Run(s, [SyncCache(m)]) == s.(cluster := s.cluster.(cacheAt := m))
  {
    RunSnoc(s, [], SyncCache(m));
    assert [] + [SyncCache(m)] == [SyncCache(m)];
    s1 := Apply(s, SyncCache(m));
  }

  lemma DetachCanMissIt(s: State, k: PodKey, uid: nat, node: string) returns (t: seq<Step>)
    requires Inv(s) && OnServer(s.cluster, k, uid) && !Shows(s.cluster, k, uid, node)
    ensures var s' := Run(s, t);
      && DetachedLater(s, s', |s.calls|, k.volumeId, node) && s'.calls[|s.calls|].namespace == Some(k.namespace)
      && OnServer(s'.cluster, k, uid) && SplitsIn(t, k.volumeId, {k.namespace})
    ensures SplitNames(s, k) ==> LeavesSplit(t, k.volumeId)
  {
    var m := CacheMissesIt(s, k, uid, node);
    var s1 := SyncTo(s, m);
    var rest := DetachInNamespace(s1, k, node);
    RunConcat(s, [SyncCache(m)], rest);
    t := [SyncCache(m)] + rest;
  }

  lemma DetachInNamespace(s: State, k: PodKey, node: string) returns (t: seq<Step>)
    requires ValidCluster(s.cluster) && NotOn(s.cluster.past, s.cluster.cacheAt, k, node)
    ensures var s' := Run(s, t);
      && s'.cluster.past == s.cluster.past && SplitsIn(t, k.volumeId, {k.namespace})
      && DetachedLater(s, s', |s.calls|, k.volumeId, node) && s'.calls[|s.calls|].namespace == Some(k.namespace)
    ensures SplitNames(s, k) ==> LeavesSplit(t, k.volumeId)
  {
    if SplitNames(s, k) {
      t := DetachMeetsNothing(s, k, node);
    } else {
      var t1 := ReplaceSplit(s, k.volumeId, k.namespace);
      var t2 := DetachMeetsNothing(Run(s, t1), k, node);
      RunConcat(s, t1, t2);
      t := t1 + t2;
    }
  }

  /** Exactly when is an OK of Detach to be relied on for an incarnation the server holds?  When
      the cache shows it bound to the node as the call begins.  Otherwise some Detach is answered
      OK and leaves it where it is: not yet bound, not yet seen, or behind a predecessor; and it
      takes no change of the split for that, if the split names the pod's namespace. */
  lemma DetachIsRealIff(s: State, k: PodKey, uid: nat, node: string)
    requires Reachable(s) && OnServer(s.cluster, k, uid)
    ensures DetachMeansGone(s, k, uid, node) <==> Shows(s.cluster, k, uid, node)
    ensures SplitNames(s, k) ==> (DetachMeansGoneWithSplit(s, k, uid, node) <==> Shows(s.cluster, k, uid, node))
  {
    ReachableInv(s);
    if Shows(s.cluster, k, uid, node) {
      assert BoundAt(s.cluster.past, s.cluster.cacheAt, k, uid, node);
      forall t: seq<Step>, d: nat
        | DetachedLater(s, Run(s, t), d, k.volumeId, node) && Run(s, t).calls[d].namespace == Some(k.namespace)
        ensures !OnServer(Run(s, t).cluster, k, uid)
      {
        DetachIsReal(s, t, d, k, uid, node);
      }
    } else {
      var t := DetachCanMissIt(s, k, uid, node);
      assert DetachedLater(s, Run(s, t), |s.calls|, k.volumeId, node);
    }
  }

  // ---------- Attach and Detach get through ----------

  /** From any state whose split names the namespace of k and whose cache shows an unmarked pod under k
      bound to the node, some run has a Detach delete what the server has there and end detached. */
  lemma DetachGetsThrough(s: State, k: PodKey, node: string) returns (t: seq<Step>)
    requires ValidCluster(s.cluster) && SplitNames(s, k) && k in Server(s.cluster)
    requires Deletable(s.cluster.past, s.cluster.cacheAt, k, node)
    ensures var s' := Run(s, t); var d := |s.calls|;
      && |s'.calls| == d + 1 && s'.calls[d].kind.Detach?
      && s'.calls[d].volumeId == k.volumeId && s'.calls[d].nodeId == node && s'.calls[d].Has(Detached)
      && k !in Server(s'.cluster)
  {
    var d := |s.calls|;
    var t1 := DetachGoesOn(s, k, node);
    var s1 := Run(s, t1);
    RunSnoc(s, t1, Advance(d, OK));
    DeleteTakes(s1, d, k);
    var s2 := Apply(s1, Advance(d, OK));
    assert s2.calls[d].pc == AtPoll(POLL_STEPS) && s2.calls[d].Key() == k;
    var t2 := PollSeesGone(s2, d, k);
    RunConcat(s, t1 + [Advance(d, OK)], t2);
    t := t1 + [Advance(d, OK)] + t2;
  }

  lemma PollSeesGone(s: State, d: nat, k: PodKey) returns (t: seq<Step>)
    requires ValidCluster(s.cluster) && d < |s.calls| && k !in Server(s.cluster)
    requires s.calls[d].kind.Detach? && s.calls[d].pc == AtPoll(POLL_STEPS)
    requires s.calls[d].namespace == Some(k.namespace) && s.calls[d].volumeId == k.volumeId
    ensures var s' := Run(s, t);
      && |s'.calls| == |s.calls| && s'.calls[d].kind.Detach? && s'.calls[d].volumeId == k.volumeId
      && s'.calls[d].nodeId == s.calls[d].nodeId && s'.calls[d].Has(Detached) && k !in Server(s'.cluster)
  {
    var top := |s.cluster.past| - 1;
    var u := SyncTo(s, top);
    assert Cached(u.cluster, k).None? && u.calls[d].Key() == k;
    RunSnoc(s, [SyncCache(top)], Advance(d, OK));
    t := [SyncCache(top)] + [Advance(d, OK)];
  }

  /** From any state whose split names the namespace of k, without a pod under k on the server or in the
      cache, some run has an Attach create its pod and end attached, once the pod is bound and runs. */
  lemma AttachGetsThrough(s: State, k: PodKey, node: string) returns (t: seq<Step>)
    requires ValidCluster(s.cluster) && SplitNames(s, k) && node != ""
    requires k !in Server(s.cluster) && k !in s.cluster.past[s.cluster.cacheAt]
    ensures var s' := Run(s, t); var a := |s.calls|;
      && |s'.calls| == a + 1
      && s'.calls[a].Has(Attached(Attachment(k.volumeId, node,
           "/var/lib/union-csi-driver.union.io/volumes/" + k.volumeId + "/merged")))
  {
    var t1 := AttachCreates(s, k.volumeId, node);
    var s1 := Run(s, t1);
    var top := |s1.cluster.past| - 1;
    var s2 := SyncTo(s1, top);
    assert Unbound(s2, |s.calls|, k.volumeId, node);
    var t2 := BoundAndAttached(s2, |s.calls|, k.volumeId, node);
    RunConcat(s1, [SyncCache(top)], t2);
    RunConcat(s, t1, [SyncCache(top)] + t2);
    t := t1 + ([SyncCache(top)] + t2);
  }

  // ---------- Exactly when Detach spares a pod on another node ----------

  /** No step of a Detach for the node that is begun from now on touches the incarnation, in any run. */
  ghost predicate DetachSpares(s: State, k: PodKey, uid: nat, node: string)
    requires ValidCluster(s.cluster)
  {
    forall t: seq<Step>, d: nat, r: Reply :: SparesIn(s, t, d, r, k, uid, node)
  }

  ghost predicate SparesIn(s: State, t: seq<Step>, d: nat, r: Reply, k: PodKey, uid: nat, node: string)
    requires ValidCluster(s.cluster)
  {
    var s1 := Run(s, t);
    |s.calls| <= d < |s1.calls| && s1.calls[d].kind.Detach? && s1.calls[d].nodeId == node &&
      OnServer(s1.cluster, k, uid)
    ==> ValidCluster(Apply(s1, Advance(d, r)).cluster)
        && Lookup(Server(Apply(s1, Advance(d, r)).cluster), k) == Lookup(Server(s1.cluster), k)
  }

  /** Some state from the one the cache shows to the present has a pod that a Detach for the node would
      delete. */
  ghost predicate MayBeSeen(s: State, k: PodKey, node: string) {
    exists m: nat :: s.cluster.cacheAt <= m < |s.cluster.past| && Deletable(s.cluster.past, m, k, node)
  }

  /** A Detach whose cache shows such a pod gets to its Delete. */
  lemma DetachGoesOn(s: State, k: PodKey, node: string) returns (t: seq<Step>)
    requires ValidCluster(s.cluster) && SplitNames(s, k) && Deletable(s.cluster.past, s.cluster.cacheAt, k, node)
    ensures var s' := Run(s, t);
      && s'.cluster == s.cluster && |s'.calls| == |s.calls| + 1
      && var c := s'.calls[|s.calls|];
      && c.kind.Detach? && c.nodeId == node && c.volumeId == k.volumeId
      && c.namespace == Some(k.namespace) && c.pc.AtDelete?
  {
    var d := |s.calls|;
    var u, t1 := DetachLooks(s, k, node);
    assert u.calls[d].Key() == k;
    RunSnoc(s, t1, Advance(d, OK));
    t := t1 + [Advance(d, OK)];
  }

  lemma DetachTakesIt(s: State, k: PodKey, uid: nat, node: string) returns (t: seq<Step>)
    requires ValidCluster(s.cluster) && OnServer(s.cluster, k, uid) && MayBeSeen(s, k, node)
    ensures !SparesIn(s, t, |s.calls|, OK, k, uid, node)
    ensures k !in Server(Run(s, t + [Advance(|s.calls|, OK)]).cluster)
  {
    var m: nat :| s.cluster.cacheAt <= m < |s.cluster.past| && Deletable(s.cluster.past, m, k, node);
    var s1 := SyncTo(s, m);
    var t1 := ReplaceSplit(s1, k.volumeId, k.namespace);
    var s2 := Run(s1, t1);
    var t2 := DetachGoesOn(s2, k, node);
    RunConcat(s1, t1, t2);
    RunConcat(s, [SyncCache(m)], t1 + t2);
    t := [SyncCache(m)] + (t1 + t2);
    RunSnoc(s, t, Advance(|s.calls|, OK));
    DeleteTakes(Run(s, t), |s.calls|, k);
  }

  lemma DeleteTakes(s: State, d: nat, k: PodKey)
    requires ValidCluster(s.cluster) && d < |s.calls| && k in Server(s.cluster)
    requires s.calls[d].pc.AtDelete? && s.calls[d].namespace == Some(k.namespace) && s.calls[d].volumeId == k.volumeId
    ensures ValidCluster(Apply(s, Advance(d, OK)).cluster) && k !in Server(Apply(s, Advance(d, OK)).cluster)
  {
    assert s.calls[d].Key() == k;
  }

  /** Exactly when is an incarnation safe from the Detaches for a node that it does not select?  Delete
      is by name, so it is not enough that it is elsewhere: they all spare it exactly when no state from
      the one the cache shows to the present has an unmarked pod under its key on their node.  An
      incarnation that the cache has shown is always safe (DetachSparesOtherNodes); one that it has not
      can be taken for a predecessor. */
  lemma DetachSparesIff(s: State, k: PodKey, uid: nat, node: string)
    requires Reachable(s) && OnServer(s.cluster, k, uid) && Server(s.cluster)[k].selector != node
    ensures DetachSpares(s, k, uid, node) <==> !MayBeSeen(s, k, node)
  {
    ReachableInv(s);
    if MayBeSeen(s, k, node) {
      var t := DetachTakesIt(s, k, uid, node);
      assert !SparesIn(s, t, |s.calls|, OK, k, uid, node);
    } else {
      forall t: seq<Step>, d: nat, r: Reply ensures SparesIn(s, t, d, r, k, uid, node) {
        var s1 := Run(s, t);
        if |s.calls| <= d < |s1.calls| && s1.calls[d].kind.Detach? && s1.calls[d].nodeId == node
          && OnServer(s1.cluster, k, uid)
        {
          SparedUnlessDeletable(s, t, d, r, k, uid, node);
        }
      }
    }
  }

  /** It does happen: the pod of v on n1 is evicted and v attached to n2, all unseen by the cache; then a
      Detach for n1 deletes the pod on n2. */
  lemma DetachTakesOtherNodesPod(v: string, namespace: string, n1: string, n2: string)
    returns (before: seq<Step>, t: seq<Step>)
    requires n1 != "" && n1 != n2
    ensures var s, k := Run(INIT, before), PodKey(namespace, v);
      && k in Server(s.cluster) && Server(s.cluster)[k].nodeName == n2
      && !SparesIn(s, t, |s.calls|, OK, k, Server(s.cluster)[k].uid, n1)
  {
    var k := PodKey(namespace, v);
    var t1 := AddPod(INIT, v, namespace, n1);
    var s1 := Run(INIT, t1);
    var s2 := Apply(s1, Remove(k));
    RunSnoc(INIT, t1, Remove(k));
    var t2 := AddPod(s2, v, namespace, n2);
    RunConcat(INIT, t1 + [Remove(k)], t2);
    before := t1 + [Remove(k)] + t2;
    t := TakenBehindTheCache(s1, s2, Run(s2, t2), k, n1);
  }

  lemma TakenBehindTheCache(s1: State, s2: State, s: State, k: PodKey, n1: string) returns (t: seq<Step>)
    requires ValidCluster(s1.cluster) && k in Server(s1.cluster) && n1 != ""
    requires Server(s1.cluster)[k].nodeName == n1 && !Server(s1.cluster)[k].deleting
    requires s2 == Apply(s1, Remove(k)) && s2.cluster.past <= s.cluster.past
    requires ValidCluster(s.cluster) && s.cluster.cacheAt == s1.cluster.cacheAt && k in Server(s.cluster)
    ensures !SparesIn(s, t, |s.calls|, OK, k, Server(s.cluster)[k].uid, n1)
  {
    var m := |s1.cluster.past| - 1;
    assert s.cluster.past[m] == s2.cluster.past[m] == Server(s1.cluster);
    assert Deletable(s.cluster.past, m, k, n1);
    t := DetachTakesIt(s, k, Server(s.cluster)[k].uid, n1);
  }

  // ---------- A Detach that is answered OK too early ----------

  /** The pod of call a is known to the cache but not bound. */
  predicate Unbound(s: State, a: nat, v: string, n: string) {
    && ValidCluster(s.cluster) && a < |s.calls| && v in s.cluster.splits
    && var k := PodKey(s.cluster.splits[v], v);
    && s.calls[a].kind.Attach? && s.calls[a].volumeId == v && s.calls[a].nodeId == n
    && s.calls[a].namespace == Some(k.namespace) && s.calls[a].pc == AtPoll(POLL_STEPS)
    && s.cluster.cacheAt == |s.cluster.past| - 1
    && k in Server(s.cluster) && Server(s.cluster)[k].nodeName == "" && Server(s.cluster)[k].selector == n
  }

  lemma DetachSeesUnbound(s: State, a: nat, v: string, n: string) returns (t: seq<Step>)
    requires Unbound(s, a, v, n)
    ensures var s' := Run(s, t);
      && Unbound(s', a, v, n) && |s'.calls| == |s.calls| + 1
      && s'.calls[|s.calls|].kind.Detach? && s'.calls[|s.calls|].volumeId == v && s'.calls[|s.calls|].nodeId == n
      && s'.calls[|s.calls|].DetachedOk()
  {
    t := DetachMeetsNothing(s, PodKey(s.cluster.splits[v], v), n);
    assert Run(s, t).calls[a] == Run(s, t).calls[..|s.calls|][a] == s.calls[a];
  }

  lemma BoundAndAttached(s: State, a: nat, v: string, n: string) returns (t: seq<Step>)
    requires Unbound(s, a, v, n) && n != ""
    ensures var s' := Run(s, t);
      |s'.calls| == |s.calls| && s'.calls[a].Has(Attached(Attachment(v, n, HostPath(v))))
    ensures forall i | 0 <= i < |s.calls| && i != a :: i < |Run(s, t).calls| && Run(s, t).calls[i] == s.calls[i]
  {
    var k := PodKey(s.cluster.splits[v], v);
    var u1 := Apply(s, Bind(k));
    var u2 := Apply(u1, SetPhase(k, Running));
    RunSnoc(s, [], Bind(k));
    assert [] + [Bind(k)] == [Bind(k)];
    RunSnoc(s, [Bind(k)], SetPhase(k, Running));
    var rest := PollSeesRunning(u2, a, k, n);
    t := [Bind(k)] + [SetPhase(k, Running)];
    RunConcat(s, t, rest);
    t := t + rest;
  }

  lemma PollSeesRunning(s: State, a: nat, k: PodKey, n: string) returns (t: seq<Step>)
    requires ValidCluster(s.cluster) && a < |s.calls| && k in Server(s.cluster)
    requires IsPodRunning(Server(s.cluster)[k]) && Server(s.cluster)[k].nodeName == n
    requires var c := s.calls[a];
      c.kind.Attach? && c.namespace == Some(k.namespace) && c.volumeId == k.volumeId && c.nodeId == n &&
        c.pc == AtPoll(POLL_STEPS)
    ensures var s' := Run(s, t);
      && |s'.calls| == |s.calls| && s'.calls[a].Has(Attached(Attachment(k.volumeId, n, HostPath(k.volumeId))))
      && forall i | 0 <= i < |s.calls| && i != a :: s'.calls[i] == s.calls[i]
  {
    var top := |s.cluster.past| - 1;
    var u := Apply(s, SyncCache(top));
    assert Cached(u.cluster, k) == Some(Server(s.cluster)[k]) && u.calls == s.calls;
    RunSnoc(s, [], SyncCache(top));
    assert [] + [SyncCache(top)] == [SyncCache(top)];
    RunSnoc(s, [SyncCache(top)], Advance(a, OK));
    t := [SyncCache(top)] + [Advance(a, OK)];
  }

  /** What DetachIsRealIff leaves open does happen: a Detach that meets the pod before it is bound
      is answered OK, and the volume is attached to that node afterwards, by an Attach that was
      already under way. */
  lemma DetachOkThenAttached(v: string, n: string) returns (steps: seq<Step>)
    requires n != ""
    ensures var s := Run(INIT, steps);
      && |s.calls| == 2 && s.calls[1].kind.Detach? && s.calls[1].DetachedOk()
      && s.calls[1].volumeId == s.calls[0].volumeId == v && s.calls[1].nodeId == n
      && s.calls[0].Has(Attached(Attachment(v, n, HostPath(v))))
  {
    var k := PodKey("x", v);
    var t1 := ReplaceSplit(INIT, v, "x");
    var s1 := Run(INIT, t1);
    var t2 := AttachCreates(s1, v, n);
    var s2 := Run(s1, t2);
    RunSnoc(s1, t2, SyncCache(1));
    var s3 := Run(s1, t2 + [SyncCache(1)]);
    assert s3 == Apply(s2, SyncCache(1)) && Unbound(s3, 0, v, n);
    var t3 := DetachSeesUnbound(s3, 0, v, n);
    var s4 := Run(s3, t3);
    var t4 := BoundAndAttached(s4, 0, v, n);
    RunConcat(INIT, t1, t2 + [SyncCache(1)]);
    RunConcat(INIT, t1 + (t2 + [SyncCache(1)]), t3);
    RunConcat(INIT, t1 + (t2 + [SyncCache(1)]) + t3, t4);
    steps := t1 + (t2 + [SyncCache(1)]) + t3 + t4;
    CallsKeepTheirName(s4, t4, 0);
  }

  lemma CallsKeepTheirName(s: State, t: seq<Step>, i: nat)
    requires ValidCluster(s.cluster) && i < |s.calls|
    ensures i < |Run(s, t).calls| && Run(s, t).calls[i].volumeId == s.calls[i].volumeId
    decreases |t|
  {
    if t != [] {
      ApplyKeepsValidCluster(s, t[0]);
      CallsKeepTheirName(Apply(s, t[0]), t[1..], i);
    }
  }
}
