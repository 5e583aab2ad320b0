/**
 Attach and Detach as the driver executes them: loops, early returns and a pod variable,
 over a world that moves between any two accesses.  Each method is proved to take exactly
 the steps of one call of AttachMachine, so the theorems about its runs hold of the code.
 */
module Attacher {
  import opened Options
  import opened PodHistory
  import opened AttachMachine
  import opened AttachInvariant
  import opened AttachTheorems

  datatype Error =
    | Nil
    | ErrVolumeInUse
    | ErrPodTerminating
    | ErrWaitTimeout
    | ErrAttachmentNotFound
    | ErrVolumeNotFound
    | ErrNodeNotFound
    | ErrApi
    | ErrContext

  /** The result of AttachLower or DetachLower that an outcome stands for. */
  function ErrorOf(o: Outcome): Error {
    match o
    case Attached(_) => Nil
    case VolumeInUse(_) => ErrVolumeInUse
    case PodTerminating => ErrPodTerminating
    case TimedOut => ErrWaitTimeout
    case Detached => Nil
    case AttachmentNotFound => ErrAttachmentNotFound
    case VolumeNotFound => ErrVolumeNotFound
    case NodeNotFound => ErrNodeNotFound
    case ApiError => ErrApi
    case ContextDone => ErrContext
  }

  function AttachmentOf(o: Outcome): Option<Attachment> {
    if o.Attached? || o.VolumeInUse? then Some(o.attachment) else None
  }

  /** What happens before an access: steps of the cluster and of other calls, then the reply. */
  datatype Turn = Turn(others: seq<Step>, reply: Reply)

  ghost predicate NotBy(steps: seq<Step>, id: nat) {
    forall i | 0 <= i < |steps| :: steps[i].Advance? ==> steps[i].id != id
  }

  lemma {:induction false} OthersKeepCall(s: State, steps: seq<Step>, id: nat)
    requires ValidCluster(s.cluster) && id < |s.calls| && NotBy(steps, id)
    ensures id < |Run(s, steps).calls| && Run(s, steps).calls[id] == s.calls[id]
    ensures s.cluster.past <= Run(s, steps).cluster.past
    ensures s.cluster.cacheAt <= Run(s, steps).cluster.cacheAt
    decreases |steps|
  {
    if steps != [] {
      ApplyKeepsValidCluster(s, steps[0]);
      var s1 := Apply(s, steps[0]);
      assert s1.calls[id] == s.calls[id];
      assert NotBy(steps[1..], id) by {
        assert forall i | 0 <= i < |steps[1..]| :: steps[1..][i] == steps[i + 1];
      }
      OthersKeepCall(s1, steps[1..], id);
    }
  }

  lemma ProgressMoves(cl: Cluster, id: nat, c: Call, r: Reply)
    requires CanGo(cl, c) && (c.pc.AtSplit? ==> c.namespace.None?)
    ensures var (cl', c') := Progress(cl, id, c, r);
      SameCall(c, c') && cl.past <= cl'.past && cl.cacheAt == cl'.cacheAt && ValidCluster(cl')
  {}

  /** The outside of one call.  `script` says what each access will meet. */
  class World {
    var state: State
    var turn: nat
    const script: nat -> Turn
    ghost var start: State
    ghost var trace: seq<Step>

    constructor (state: State, script: nat -> Turn)
      requires ValidCluster(state.cluster)
      ensures Valid() && this.state == state == start && this.script == script && turn == 0
    {
      this.state, this.script, turn := state, script, 0;
      start, trace := state, [];
    }

    /** The state has come about by machine steps. */
    ghost predicate Valid()
      reads this
    {
      ValidCluster(start.cluster) && state == Run(start, trace)
    }

    /** Steps have been added since the old state. */
    twostate predicate Moved()
      reads this
    {
      && start == old(start) && old(trace) <= trace
      && old(state.cluster.past) <= state.cluster.past
      && old(state.cluster.cacheAt) <= state.cluster.cacheAt
    }

    /** Call `id` is in local state c, and nobody else moves it. */
    ghost predicate Mine(id: nat, c: Call)
      reads this
    {
      Valid() && id < |state.calls| && state.calls[id] == c && forall t: nat :: NotBy(script(t).others, id)
    }

    method Begin(kind: Kind, volumeId: string, nodeId: string) returns (id: nat)
      requires Valid() && forall t: nat :: NotBy(script(t).others, |state.calls|)
      modifies this`state, this`trace
      ensures id == old(|state.calls|) && Mine(id, NewCall(old(state.cluster), kind, volumeId, nodeId))
      ensures Moved() && state.cluster == old(state.cluster)
    {
      id := |state.calls|;
      RunSnoc(start, trace, AttachMachine.Step.Begin(kind, volumeId, nodeId));
      trace := trace + [AttachMachine.Step.Begin(kind, volumeId, nodeId)];
      state := Apply(state, AttachMachine.Step.Begin(kind, volumeId, nodeId));
    }

    /** Everybody else moves. */
    method Interleave(id: nat, ghost c: Call) returns (reply: Reply)
      requires Mine(id, c)
      modifies this`state, this`trace, this`turn
      ensures Mine(id, c) && Moved()
    {
      reply := script(turn).reply;
      var others := script(turn).others;
      turn := turn + 1;
      assert NotBy(others, id);
      OthersKeepCall(state, others, id);
      RunConcat(start, trace, others);
      trace := trace + others;
      state := Run(state, others);
    }

    ghost predicate Ready(c: Call) {
      !c.pc.Ended? && (if c.pc.AtSplit? then c.namespace.None? else c.namespace.Some?)
    }

    /** Everybody else moves, then call `id` makes the access it is waiting to make. */
    method Access(id: nat, ghost c: Call) returns (reply: Reply, met: Cluster)
      requires Mine(id, c) && Ready(c)
      modifies this`state, this`trace, this`turn
      ensures CanGo(met, c) && old(state.cluster.past) <= met.past && old(state.cluster.cacheAt) <= met.cacheAt
      ensures var (cl, c') := Progress(met, id, c, reply); state.cluster == cl && Mine(id, c')
      ensures Moved() && SameCall(c, Progress(met, id, c, reply).1)
    {
      reply := Interleave(id, c);
      met := state.cluster;
      RunSnoc(start, trace, Advance(id, reply));
      ProgressMoves(met, id, c, reply);
      trace := trace + [Advance(id, reply)];
      state := Apply(state, Advance(id, reply));
    }

    /** GET of the volume's split; the answer is the namespace it records. */
    method GetSplit(id: nat, ghost c: Call, volumeId: string)
      returns (namespace: Option<string>, err: Error, ghost c': Call)
      requires Mine(id, c) && c.pc.AtSplit? && c.namespace.None? && volumeId == c.volumeId
      modifies this`state, this`trace, this`turn
      ensures Mine(id, c') && SameCall(c, c') && Moved()
      ensures err == Nil ==> namespace.Some? && c' == c.(namespace := namespace, pc := AtNode)
      ensures err != Nil ==> c'.pc.Ended? && ErrorOf(c'.pc.outcome) == err && AttachmentOf(c'.pc.outcome) == None
      ensures err == Nil || err == ErrVolumeNotFound || err == ErrApi || err == ErrContext
    {
      var reply, met := Access(id, c);
      c' := Progress(met, id, c, reply).1;
      namespace := None;
      if reply.Cancelled? {
        err := ErrContext;
      } else if reply.Failed? {
        err := ErrApi;
      } else {
        namespace := Lookup(met.splits, volumeId);
        err := if namespace.None? then ErrVolumeNotFound else Nil;
      }
    }

    /** Look-up of the node in its cache. */
    method GetNode(id: nat, ghost c: Call) returns (err: Error, ghost c': Call)
      requires Mine(id, c) && c.pc.AtNode? && c.namespace.Some?
      modifies this`state, this`trace, this`turn
      ensures Mine(id, c') && SameCall(c, c') && Moved()
      ensures err == Nil ==> c' == c.(pc := AtLook)
      ensures err == Nil || err == ErrNodeNotFound || err == ErrApi || err == ErrContext
      ensures err != Nil ==> c'.pc.Ended? && ErrorOf(c'.pc.outcome) == err && AttachmentOf(c'.pc.outcome) == None
    {
      var reply, met := Access(id, c);
      c' := Progress(met, id, c, reply).1;
      err := if reply.Cancelled? then ErrContext
             else if reply.NodeAbsent? then ErrNodeNotFound
             else if reply.Failed? then ErrApi else Nil;
    }

    /** Look-up of the attach pod in its cache; `at` is the index of the state the cache shows. */
    method GetPod(id: nat, ghost c: Call, key: PodKey)
      returns (pod: Option<Pod>, err: Error, ghost at: nat, ghost c': Call)
      requires Mine(id, c) && (c.pc.AtLook? || c.pc.AtPoll?) && c.namespace.Some? && key == c.Key()
      modifies this`state, this`trace, this`turn
      ensures Mine(id, c') && SameCall(c, c') && Moved()
      ensures err != Nil ==>
        pod.None? && c'.pc.Ended? && ErrorOf(c'.pc.outcome) == err && AttachmentOf(c'.pc.outcome) == None
      ensures err == Nil || err == ErrApi || err == ErrContext
      ensures err == Nil ==> exists reply: Reply, met: Cluster ::
        && !reply.Cancelled? && !reply.Failed? && CanGo(met, c)
        && pod == Cached(met, key) && c' == Progress(met, id, c, reply).1
      ensures err == Nil ==> old(state.cluster.cacheAt) <= at == state.cluster.cacheAt < |state.cluster.past|
      ensures err == Nil ==> pod == Lookup(state.cluster.past[at], key)
    {
      var reply, met := Access(id, c);
      c' := Progress(met, id, c, reply).1;
      at := met.cacheAt;
      if reply.Cancelled? {
        pod, err := None, ErrContext;
      } else if reply.Failed? {
        pod, err := None, ErrApi;
      } else {
        pod, err := Cached(met, key), Nil;
      }
    }

    /** CREATE of the attach pod, with the node it selects. */
    method CreatePod(id: nat, ghost c: Call, key: PodKey, selector: string)
      returns (alreadyExists: bool, err: Error, ghost c': Call)
      requires Mine(id, c) && c.pc.AtCreate? && c.namespace.Some? && key == c.Key() && selector == c.nodeId
      modifies this`state, this`trace, this`turn
      ensures Mine(id, c') && SameCall(c, c') && Moved()
      ensures err == Nil || err == ErrApi || err == ErrContext
      ensures err == Nil ==> c' == c.(pc := AtPoll(POLL_STEPS))
      ensures err != Nil ==> c'.pc.Ended? && ErrorOf(c'.pc.outcome) == err && AttachmentOf(c'.pc.outcome) == None
      ensures err == Nil && !alreadyExists ==>
        key in Server(state.cluster) && Server(state.cluster)[key].selector == selector
    {
      var reply, met := Access(id, c);
      c' := Progress(met, id, c, reply).1;
      alreadyExists := key in Server(met);
      err := if reply.Cancelled? then ErrContext else if reply.Failed? then ErrApi else Nil;
    }

    /** DELETE of the attach pod by name. */
    method DeletePod(id: nat, ghost c: Call, key: PodKey) returns (notFound: bool, err: Error, ghost c': Call)
      requires Mine(id, c) && c.pc.AtDelete? && c.namespace.Some? && key == c.Key()
      modifies this`state, this`trace, this`turn
      ensures Mine(id, c') && SameCall(c, c') && Moved()
      ensures err != Nil ==> c'.pc.Ended? && ErrorOf(c'.pc.outcome) == err && AttachmentOf(c'.pc.outcome) == None
      ensures err == Nil || err == ErrApi || err == ErrContext
      ensures err == Nil && notFound ==> c'.pc == Ended(AttachmentNotFound)
      ensures err == Nil && !notFound ==> c' == c.(pc := AtPoll(POLL_STEPS))
    {
      var reply, met := Access(id, c);
      c' := Progress(met, id, c, reply).1;
      notFound := key !in Server(met);
      err := if reply.Cancelled? then ErrContext else if reply.Failed? then ErrApi else Nil;
    }
  }

  // ---------- The code ----------

  /** An observation that ends waitForAttach. */
  predicate Decisive(seen: Option<Pod>) {
    && seen.Some?
    && (|| seen.value.phase == Phase.Failed || seen.value.phase == Phase.Succeeded
        || (seen.value.phase == Phase.Running && seen.value.nodeName != ""))
  }

  /** The result of waitForAttach when `last` was its last look. */
  predicate IsResultOf(err: Error, nodeId: string, last: Option<Pod>) {
    && (err == Nil <==>
          last.Some? && last.value.phase == Phase.Running && last.value.nodeName == nodeId && nodeId != "")
    && (err == ErrVolumeInUse <==>
          && last.Some? && last.value.phase == Phase.Running
          && last.value.nodeName != "" && last.value.nodeName != nodeId)
    && (err == ErrPodTerminating <==>
          last.Some? && (last.value.phase == Phase.Failed || last.value.phase == Phase.Succeeded))
    && (err == ErrWaitTimeout <==> !Decisive(last))
  }

  /** The result of waitForDetach after these looks: it goes on only while the pod is seen on the node. */
  predicate IsDetachedAfter(err: Error, nodeId: string, seen: seq<Option<Pod>>) {
    && 0 < |seen| <= 12
    && (forall i | 0 <= i < |seen| - 1 :: seen[i].Some? && seen[i].value.nodeName == nodeId)
    && var last := seen[|seen| - 1];
    && (err == Nil <==> last.None?)
    && (err == ErrAttachmentNotFound <==> last.Some? && last.value.nodeName != nodeId)
    && (err == ErrWaitTimeout <==> last.Some? && last.value.nodeName == nodeId)
    && (err == ErrWaitTimeout ==> |seen| == 12)
  }

  /** The result of Detach after these looks, the first of which decides whether there is something to
      detach: if not, or if its Delete finds nothing, there is no attachment. */
  predicate IsDetachResult(err: Error, nodeId: string, seen: seq<Option<Pod>>) {
    && |seen| > 0
    && var here := seen[0].Some? && seen[0].value.nodeName == nodeId && nodeId != "";
    && (!here ==> |seen| == 1)
    && (here && seen[0].value.deleting ==> |seen| > 1)
    && (if |seen| == 1 then err == ErrAttachmentNotFound else IsDetachedAfter(err, nodeId, seen[1..]))
  }

  /** The looks at the cache: what it showed under the key at ever later states. */
  ghost predicate Looks(past: History, from: nat, key: PodKey, seen: seq<Option<Pod>>, at: seq<nat>) {
    && |seen| == |at|
    && (forall i | 0 <= i < |at| :: from <= at[i] < |past| && seen[i] == Lookup(past[at[i]], key))
    && (forall i, j | 0 <= i < j < |at| :: at[i] <= at[j])
  }

  lemma LooksSoFar(past: History, later: History, from: nat, key: PodKey, seen: seq<Option<Pod>>, at: seq<nat>)
    requires Looks(past, from, key, seen, at) && past <= later
    ensures Looks(later, from, key, seen, at)
  {}

  lemma OneMoreLook(past: History, from: nat, key: PodKey, seen: seq<Option<Pod>>, at: seq<nat>, pod: Option<Pod>,
    k: nat)
    requires Looks(past, from, key, seen, at) && from <= k < |past|
    requires pod == Lookup(past[k], key)
    requires forall i | 0 <= i < |at| :: at[i] <= k
    ensures Looks(past, from, key, seen + [pod], at + [k])
  {}

  lemma OneLook(past: History, later: History, from: nat, key: PodKey, pod: Option<Pod>, k: nat)
    requires from <= k < |past| && past <= later && pod == Lookup(past[k], key)
    ensures Looks(later, from, key, [pod], [k])
  {}

  lemma LookThenLooks(past: History, from: nat, mid: nat, key: PodKey,
    pod: Option<Pod>, k: nat, seen: seq<Option<Pod>>, at: seq<nat>)
    requires Looks(past, from, key, [pod], [k]) && k <= mid && Looks(past, mid, key, seen, at)
    ensures Looks(past, from, key, [pod] + seen, [k] + at)
  {
    assert from <= [k][0] < |past| && [pod][0] == Lookup(past[[k][0]], key);
  }

  /** waitForAttach's condition. */
  method AttachCondition(pod: Option<Pod>, nodeId: string) returns (done: bool, err: Error)
    ensures done || err != Nil <==> Decisive(pod)
    ensures done || err != Nil ==> IsResultOf(err, nodeId, pod)
    ensures err == Nil || err == ErrPodTerminating || err == ErrVolumeInUse
    ensures forall v: string, left: nat {:trigger AttachVerdict(v, nodeId, left, pod)} ::
      var verdict := AttachVerdict(v, nodeId, left, pod);
      if done || err != Nil then verdict.Ended? && ErrorOf(verdict.outcome) == err
      else verdict == Again(left)
  {
    if pod.None? {
      return false, Nil;
    }
    if IsPodTerminating(pod.value) {
      return false, ErrPodTerminating;
    }
    if !IsPodRunning(pod.value) {
      return false, Nil;
    }
    if pod.value.nodeName != nodeId {
      return true, ErrVolumeInUse;
    }
    return true, Nil;
  }

  /**
   Polls until the first decisive look.  Unless an access fails or the context is done, the
   result is that of the first decisive look among at most 12, and a time-out if there is none.
   */
  method WaitForAttach(w: World, id: nat, ghost c: Call, volumeId: string, nodeId: string, key: PodKey)
    returns (attachment: Option<Attachment>, err: Error, ghost c': Call, ghost seen: seq<Option<Pod>>,
      ghost at: seq<nat>)
    requires w.Mine(id, c) && c.kind.Attach? && c.pc == AtPoll(POLL_STEPS)
    requires c.volumeId == volumeId && c.nodeId == nodeId && c.namespace.Some? && key == c.Key()
    modifies w`state, w`trace, w`turn
    ensures w.Mine(id, c') && SameCall(c, c') && w.Moved()
    ensures c'.pc.Ended? && ErrorOf(c'.pc.outcome) == err && AttachmentOf(c'.pc.outcome) == attachment
    ensures Looks(w.state.cluster.past, old(w.state.cluster.cacheAt), key, seen, at)
    ensures forall i | 0 <= i < |seen| - 1 :: !Decisive(seen[i])
    ensures err != ErrApi && err != ErrContext ==> |seen| > 0 && IsResultOf(err, nodeId, seen[|seen| - 1])
    ensures |seen| <= 12 && (err == ErrWaitTimeout ==> |seen| == 12)
    ensures err == Nil ==> attachment == Some(Attachment(volumeId, nodeId, HostPath(volumeId)))
    ensures err == ErrVolumeInUse ==> attachment.Some? && attachment.value.nodeId != nodeId
    ensures err != Nil && err != ErrVolumeInUse ==> attachment.None?
  {
    var pod: Option<Pod> := None;
    var steps: nat := POLL_STEPS;
    c', seen, at := c, [], [];
    err := Nil;
    while steps > 0
      invariant 0 < steps <= POLL_STEPS
      invariant w.Mine(id, c') && SameCall(c, c') && w.Moved() && c'.pc == AtPoll(steps)
      invariant Looks(w.state.cluster.past, old(w.state.cluster.cacheAt), key, seen, at)
      invariant |seen| == POLL_STEPS - steps
      invariant forall i | 0 <= i < |seen| :: !Decisive(seen[i]) && at[i] <= w.state.cluster.cacheAt
      decreases steps
    {
      ghost var before, k := w.state.cluster.past, 0;
      pod, err, k, c' := w.GetPod(id, c', key);
      LooksSoFar(before, w.state.cluster.past, old(w.state.cluster.cacheAt), key, seen, at);
      if err != Nil {
        return None, err, c', seen, at;
      }
      OneMoreLook(w.state.cluster.past, old(w.state.cluster.cacheAt), key, seen, at, pod, k);
      seen, at := seen + [pod], at + [k];
      var done;
      done, err := AttachCondition(pod, nodeId);
      assert c'.pc == AttachVerdict(volumeId, nodeId, steps, pod);
      if done || err != Nil {
        if err != Nil && err != ErrVolumeInUse {
          return None, err, c', seen, at;
        }
        return Some(Attachment(volumeId, pod.value.nodeName, HostPath(volumeId))), err, c', seen, at;
      }
      if steps == 1 {
        break;
      }
      steps := steps - 1;
    }
    return None, ErrWaitTimeout, c', seen, at;
  }

  method Attach(w: World, id: nat, ghost c: Call, namespace: string, volumeId: string, nodeId: string)
    returns (attachment: Option<Attachment>, err: Error, ghost c': Call, ghost seen: seq<Option<Pod>>)
    requires w.Mine(id, c) && c.kind.Attach? && c.pc == AtLook
    requires c.volumeId == volumeId && c.nodeId == nodeId && c.namespace == Some(namespace)
    modifies w`state, w`trace, w`turn
    ensures w.Mine(id, c') && SameCall(c, c') && w.Moved()
    ensures c'.pc.Ended? && ErrorOf(c'.pc.outcome) == err && AttachmentOf(c'.pc.outcome) == attachment
    ensures err == Nil ==> attachment == Some(Attachment(volumeId, nodeId, HostPath(volumeId)))
    ensures err == ErrVolumeInUse ==> attachment.Some? && attachment.value.nodeId != nodeId
    ensures err != Nil && err != ErrVolumeInUse ==> attachment.None?
    ensures forall i | 0 <= i < |seen| - 1 :: !Decisive(seen[i])
    ensures err != ErrApi && err != ErrContext ==> |seen| > 0 && IsResultOf(err, nodeId, seen[|seen| - 1])
    ensures |seen| <= 12 && (err == ErrWaitTimeout ==> |seen| == 12)
  {
    var key := PodKey(namespace, volumeId);
    seen := [];
    err, c' := FindOrCreatePod(w, id, c, key, nodeId);
    if err != Nil {
      return None, err, c', seen;
    }
    ghost var at;
    attachment, err, c', seen, at := WaitForAttach(w, id, c', volumeId, nodeId, key);
  }

  /** Attach up to its wait: one look at the cache, and a pod that it does not show is created. */
  method FindOrCreatePod(w: World, id: nat, ghost c: Call, key: PodKey, nodeId: string)
    returns (err: Error, ghost c': Call)
    requires w.Mine(id, c) && c.kind.Attach? && c.pc == AtLook
    requires c.nodeId == nodeId && c.namespace.Some? && key == c.Key()
    modifies w`state, w`trace, w`turn
    ensures w.Mine(id, c') && SameCall(c, c') && w.Moved()
    ensures err == Nil ==> c' == c.(pc := AtPoll(POLL_STEPS))
    ensures err != Nil ==> c'.pc.Ended? && ErrorOf(c'.pc.outcome) == err && AttachmentOf(c'.pc.outcome) == None
    ensures err == Nil || err == ErrApi || err == ErrContext
  {
    var pod;
    ghost var k;
    pod, err, k, c' := w.GetPod(id, c, key);
    if err == Nil && pod.None? {
      var alreadyExists;
      alreadyExists, err, c' := w.CreatePod(id, c', key, nodeId);
    }
  }

  /** The controller's attach call: read the split, check the node, attach. */
  method AttachLower(w: World, volumeId: string, nodeId: string)
    returns (attachment: Option<Attachment>, err: Error, id: nat)
    requires w.Valid() && forall t: nat :: NotBy(w.script(t).others, |w.state.calls|)
    modifies w`state, w`trace, w`turn
    ensures w.Valid() && w.Moved() && id == old(|w.state.calls|) < |w.state.calls|
    ensures SameCall(NewCall(old(w.state.cluster), AttachMachine.Kind.Attach, volumeId, nodeId), w.state.calls[id])
    ensures var c := w.state.calls[id];
      c.pc.Ended? && ErrorOf(c.pc.outcome) == err && AttachmentOf(c.pc.outcome) == attachment
    ensures err == Nil ==> attachment == Some(Attachment(volumeId, nodeId, HostPath(volumeId)))
    ensures err == ErrVolumeInUse ==> attachment.Some? && attachment.value.nodeId != nodeId
    ensures err != Nil && err != ErrVolumeInUse ==> attachment.None?
  {
    ghost var c := NewCall(w.state.cluster, AttachMachine.Kind.Attach, volumeId, nodeId);
    id := w.Begin(AttachMachine.Kind.Attach, volumeId, nodeId);
    var namespace;
    namespace, err, c := w.GetSplit(id, c, volumeId);
    if err != Nil {
      return None, err, id;
    }
    err, c := w.GetNode(id, c);
    if err != Nil {
      return None, err, id;
    }
    ghost var seen;
    attachment, err, c, seen := Attach(w, id, c, namespace.value, volumeId, nodeId);
  }

  /** Polls until the pod is seen gone, or on another node. */
  method WaitForDetach(w: World, id: nat, ghost c: Call, nodeId: string, key: PodKey)
    returns (err: Error, ghost c': Call, ghost seen: seq<Option<Pod>>, ghost at: seq<nat>)
    requires w.Mine(id, c) && c.kind.Detach? && c.pc == AtPoll(POLL_STEPS)
    requires c.nodeId == nodeId && c.namespace.Some? && key == c.Key()
    modifies w`state, w`trace, w`turn
    ensures w.Mine(id, c') && SameCall(c, c') && w.Moved()
    ensures c'.pc.Ended? && ErrorOf(c'.pc.outcome) == err
    ensures Looks(w.state.cluster.past, old(w.state.cluster.cacheAt), key, seen, at)
    ensures err != ErrApi && err != ErrContext ==> IsDetachedAfter(err, nodeId, seen)
  {
    var steps: nat := POLL_STEPS;
    c', seen, at := c, [], [];
    while steps > 0
      invariant 0 < steps <= POLL_STEPS
      invariant w.Mine(id, c') && SameCall(c, c') && w.Moved() && c'.pc == AtPoll(steps)
      invariant Looks(w.state.cluster.past, old(w.state.cluster.cacheAt), key, seen, at)
      invariant |seen| == POLL_STEPS - steps
      invariant forall i | 0 <= i < |seen| :: seen[i].Some? && seen[i].value.nodeName == nodeId
      invariant forall i | 0 <= i < |at| :: at[i] <= w.state.cluster.cacheAt
      decreases steps
    {
      var pod;
      ghost var before, k := w.state.cluster.past, 0;
      pod, err, k, c' := w.GetPod(id, c', key);
      LooksSoFar(before, w.state.cluster.past, old(w.state.cluster.cacheAt), key, seen, at);
      if err != Nil {
        return err, c', seen, at;
      }
      OneMoreLook(w.state.cluster.past, old(w.state.cluster.cacheAt), key, seen, at, pod, k);
      seen, at := seen + [pod], at + [k];
      if pod.None? {
        return Nil, c', seen, at;
      }
      if pod.value.nodeName != nodeId {
        return ErrAttachmentNotFound, c', seen, at;
      }
      if steps == 1 {
        break;
      }
      steps := steps - 1;
    }
    return ErrWaitTimeout, c', seen, at;
  }

  method Detach(w: World, id: nat, ghost c: Call, namespace: string, volumeId: string, nodeId: string)
    returns (err: Error, ghost c': Call, ghost seen: seq<Option<Pod>>, ghost at: seq<nat>)
    requires w.Mine(id, c) && c.kind.Detach? && c.pc == AtLook
    requires c.volumeId == volumeId && c.nodeId == nodeId && c.namespace == Some(namespace)
    modifies w`state, w`trace, w`turn
    ensures w.Mine(id, c') && SameCall(c, c') && w.Moved()
    ensures c'.pc.Ended? && ErrorOf(c'.pc.outcome) == err
    ensures Looks(w.state.cluster.past, old(w.state.cluster.cacheAt), PodKey(namespace, volumeId), seen, at)
    ensures err != ErrApi && err != ErrContext ==> IsDetachResult(err, nodeId, seen)
  {
    var key := PodKey(namespace, volumeId);
    var pod;
    ghost var k;
    seen, at := [], [];
    pod, err, k, c' := w.GetPod(id, c, key);
    if err != Nil {
      return err, c', seen, at;
    }
    ghost var past := w.state.cluster.past;
    seen, at := [pod], [k];
    if pod.None? {
      return ErrAttachmentNotFound, c', seen, at;
    }
    if |pod.value.nodeName| == 0 {
      return ErrAttachmentNotFound, c', seen, at;
    }
    if pod.value.nodeName != nodeId {
      return ErrAttachmentNotFound, c', seen, at;
    }
    if !pod.value.deleting {
      var notFound;
      notFound, err, c' := w.DeletePod(id, c', key);
      OneLook(past, w.state.cluster.past, old(w.state.cluster.cacheAt), key, pod, k);
      if err != Nil {
        return err, c', seen, at;
      }
      if notFound {
        return ErrAttachmentNotFound, c', seen, at;
      }
    }
    ghost var polls, when;
    ghost var mid := w.state.cluster.cacheAt;
    err, c', polls, when := WaitForDetach(w, id, c', nodeId, key);
    OneLook(past, w.state.cluster.past, old(w.state.cluster.cacheAt), key, pod, k);
    LookThenLooks(w.state.cluster.past, old(w.state.cluster.cacheAt), mid, key, pod, k, polls, when);
    seen, at := [pod] + polls, [k] + when;
    assert seen[1..] == polls;
  }

  /** No incarnation of the volume in the namespace that the earlier cache had shown on the node
      is on the server any more. */
  ghost predicate AllGone(before: Cluster, now: Cluster, namespace: Option<string>, volumeId: string, node: string) {
    namespace.Some? && forall uid: nat :: var k := PodKey(namespace.value, volumeId);
      HasShown(before, k, uid, node) ==> !OnServer(now, k, uid)
  }

  /**
   The controller's detach call.  When it answers nil or that there is no attachment, every
   incarnation of the volume that the cache had shown on this node has left the server.  Unless
   an access fails, its looks at the cache decide the answer.
   */
  method DetachLower(w: World, volumeId: string, nodeId: string)
    returns (err: Error, id: nat, ghost seen: seq<Option<Pod>>, ghost at: seq<nat>)
    requires w.Valid() && forall t: nat :: NotBy(w.script(t).others, |w.state.calls|)
    requires Reachable(w.start)
    modifies w`state, w`trace, w`turn
    ensures w.Valid() && w.Moved() && id == old(|w.state.calls|) < |w.state.calls|
    ensures SameCall(NewCall(old(w.state.cluster), AttachMachine.Kind.Detach, volumeId, nodeId), w.state.calls[id])
    ensures var c := w.state.calls[id]; c.pc.Ended? && ErrorOf(c.pc.outcome) == err
    ensures err == Nil || err == ErrAttachmentNotFound || err == ErrWaitTimeout ==>
      && w.state.calls[id].namespace.Some? && IsDetachResult(err, nodeId, seen)
      && Looks(w.state.cluster.past, old(w.state.cluster.cacheAt),
           PodKey(w.state.calls[id].namespace.value, volumeId), seen, at)
    ensures err == Nil || err == ErrAttachmentNotFound || err == ErrWaitTimeout
      || err == ErrVolumeNotFound || err == ErrNodeNotFound || err == ErrApi || err == ErrContext
    ensures err == Nil || err == ErrAttachmentNotFound <==> w.state.calls[id].DetachedOk()
    ensures w.state.calls[id].DetachedOk() ==>
      AllGone(old(w.state.cluster), w.state.cluster, w.state.calls[id].namespace, volumeId, nodeId)
  {
    ghost var c := NewCall(w.state.cluster, AttachMachine.Kind.Detach, volumeId, nodeId);
    seen, at := [], [];
    id := w.Begin(AttachMachine.Kind.Detach, volumeId, nodeId);
    var namespace;
    namespace, err, c := w.GetSplit(id, c, volumeId);
    if err != Nil {
      return err, id, seen, at;
    }
    err, c := w.GetNode(id, c);
    if err != Nil {
      return err, id, seen, at;
    }
    err, c, seen, at := Detach(w, id, c, namespace.value, volumeId, nodeId);
    DetachedIsGone(w.start, old(w.trace), w.trace, id, c);
  }

  lemma DetachedIsGone(start: State, before: seq<Step>, trace: seq<Step>, id: nat, c: Call)
    requires ValidCluster(start.cluster) && Reachable(start) && before <= trace
    requires |Run(start, before).calls| <= id < |Run(start, trace).calls| && Run(start, trace).calls[id] == c
    requires c.kind.Detach? && c.pc.Ended?
    ensures ErrorOf(c.pc.outcome) == Nil || ErrorOf(c.pc.outcome) == ErrAttachmentNotFound <==> c.DetachedOk()
    ensures c.DetachedOk() ==>
      AllGone(Run(start, before).cluster, Run(start, trace).cluster, c.namespace, c.volumeId, c.nodeId)
  {
    var rest := trace[|before|..];
    assert trace == before + rest;
    RunConcat(start, before, rest);
    ReachableOn(start, before);
    ReachableOn(start, trace);
    DetachOutcome(Run(start, trace), id);
    if c.DetachedOk() {
      LaterIsGone(Run(start, before), rest, id);
    }
  }

  lemma DetachOutcome(s: State, d: nat)
    requires Reachable(s) && d < |s.calls| && s.calls[d].kind.Detach? && s.calls[d].pc.Ended?
    ensures ErrorOf(s.calls[d].pc.outcome) == Nil || ErrorOf(s.calls[d].pc.outcome) == ErrAttachmentNotFound
      <==> s.calls[d].DetachedOk()
    ensures s.calls[d].DetachedOk() ==> s.calls[d].namespace.Some?
  {
    ReachableInv(s);
    assert CallOk(s.cluster, s.calls[d]);
  }

  lemma LaterIsGone(s1: State, rest: seq<Step>, d: nat)
    requires Reachable(s1) && ValidCluster(s1.cluster) && |s1.calls| <= d < |Run(s1, rest).calls|
    requires Run(s1, rest).calls[d].kind.Detach? && Run(s1, rest).calls[d].DetachedOk()
    requires Run(s1, rest).calls[d].namespace.Some?
    ensures var det := Run(s1, rest).calls[d];
      AllGone(s1.cluster, Run(s1, rest).cluster, det.namespace, det.volumeId, det.nodeId)
  {
    var det := Run(s1, rest).calls[d];
    var k := det.Key();
    forall uid: nat | HasShown(s1.cluster, k, uid, det.nodeId) ensures !OnServer(Run(s1, rest).cluster, k, uid) {
      DetachIsReal(s1, rest, d, k, uid, det.nodeId);
    }
  }
}
