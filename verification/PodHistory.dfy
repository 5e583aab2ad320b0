/**
 The attach pods held by the API server, and the history of that store.

 A history lists every state the store has been in, the last one being the
 present.  A pod's incarnation id is the index of the state in which it first
 appears, so no id is ever used twice.
 */
module PodHistory {
  import opened Options

  datatype Phase = Pending | Running | Succeeded | Failed | Unknown

  /** The name of an attach pod is a hash of the volume id, so the id stands for the name. */
  datatype PodKey = PodKey(namespace: string, volumeId: string)

  /** `creator` is the number of the Attach call that created the pod. */
  datatype Pod = Pod(
    uid: nat,
    creator: nat,
    selector: string,
    nodeName: string,
    phase: Phase,
    deleting: bool)

  type Store = map<PodKey, Pod>
  type History = seq<Store>

  predicate IsPodTerminating(pod: Pod) {
    pod.phase.Failed? || pod.phase.Succeeded?
  }

  predicate IsPodRunning(pod: Pod) {
    |pod.nodeName| > 0 && pod.phase.Running?
  }

  /** What the API server and the cluster may do to one incarnation: bind it once, to its
      selector's node, and mark it for deletion for good. */
  ghost predicate SameIncarnation(before: Pod, after: Pod) {
    && before.uid == after.uid
    && before.creator == after.creator
    && before.selector == after.selector
    && (after.nodeName == before.nodeName || (before.nodeName == "" && after.nodeName == after.selector))
    && (before.deleting ==> after.deleting)
  }

  ghost predicate IsNew(pod: Pod, index: nat) {
    pod.uid == index && pod.nodeName == ""
  }

  /** Every pod of h[i] is an incarnation of h[i-1], or was born in h[i] under a key that h[i-1]
      does not have. */
  ghost predicate Follows(h: History, i: nat)
    requires 0 < i < |h|
  {
    forall k | k in h[i] ::
      if k in h[i - 1] then SameIncarnation(h[i - 1][k], h[i][k]) else IsNew(h[i][k], i)
  }

  ghost predicate ValidHistory(h: History) {
    && |h| > 0
    && h[0] == map[]
    && forall i {:trigger Follows(h, i)} | 0 < i < |h| :: Follows(h, i)
  }

  /** Incarnation `uid` is under key k in h[i]. */
  predicate Holds(h: History, i: nat, k: PodKey, uid: nat)
    requires i < |h|
  {
    k in h[i] && h[i][k].uid == uid
  }

  /** h[i] has no pod under k that is bound to node. */
  predicate NotOn(h: History, i: nat, k: PodKey, node: string)
    requires i < |h|
  {
    k in h[i] && h[i][k].nodeName != "" ==> h[i][k].nodeName != node
  }

  lemma {:induction false} BornInThePast(h: History, i: nat, k: PodKey)
    requires ValidHistory(h) && i < |h| && k in h[i]
    ensures 1 <= h[i][k].uid <= i
    ensures h[i][k].nodeName == "" || h[i][k].nodeName == h[i][k].selector
    decreases i
  {
    if i > 0 {
      assert Follows(h, i);
      if k in h[i - 1] {
        BornInThePast(h, i - 1, k);
      }
    }
  }

  /** An incarnation that exists at j has existed at every index since its birth, and what it
      was then evolved into what it is now. */
  lemma {:induction false} WasThereBefore(h: History, i: nat, j: nat, k: PodKey)
    requires ValidHistory(h) && i <= j < |h| && k in h[j] && h[j][k].uid <= i
    ensures k in h[i] && SameIncarnation(h[i][k], h[j][k])
    decreases j
  {
    if i < j {
      assert Follows(h, j);
      WasThereBefore(h, i, j - 1, k);
      BornInThePast(h, i, k);
    }
  }

  /** An incarnation that is not under its key at i, but is later, was born after i, and just
      before its birth the key was free. */
  lemma FreeBeforeBirth(h: History, i: nat, j: nat, k: PodKey) returns (m: nat)
    requires ValidHistory(h) && i <= j < |h| && k in h[j] && !Holds(h, i, k, h[j][k].uid)
    ensures i <= m < j && k !in h[m]
  {
    BornInThePast(h, j, k);
    var birth := h[j][k].uid;
    if birth <= i {
      WasThereBefore(h, i, j, k);
      assert false;
    }
    WasThereBefore(h, birth, j, k);
    assert Follows(h, birth);
    if k in h[birth - 1] {
      BornInThePast(h, birth - 1, k);
      assert false;
    }
    m := birth - 1;
  }

  /** A removed incarnation never comes back. */
  lemma NeverComesBack(h: History, i: nat, j: nat, l: nat, k: PodKey, uid: nat)
    requires ValidHistory(h) && i <= j <= l < |h|
    requires Holds(h, i, k, uid) && !Holds(h, j, k, uid)
    ensures !Holds(h, l, k, uid)
  {
    if Holds(h, l, k, uid) {
      BornInThePast(h, i, k);
      WasThereBefore(h, j, l, k);
    }
  }

  /** A binding is never changed: an incarnation bound at i is bound to that node as long as it lives. */
  lemma BindingIsPermanent(h: History, i: nat, j: nat, k: PodKey)
    requires ValidHistory(h) && i <= j < |h|
    requires k in h[i] && h[i][k].nodeName != "" && Holds(h, j, k, h[i][k].uid)
    ensures h[j][k].nodeName == h[i][k].nodeName
  {
    BornInThePast(h, i, k);
    WasThereBefore(h, i, j, k);
  }

  /** Between a state with an incarnation and a later one without it there is the very
      step that removed it. */
  lemma {:induction false} RemovalStep(h: History, i: nat, j: nat, k: PodKey, uid: nat) returns (m: nat)
    requires i <= j < |h| && Holds(h, i, k, uid) && !Holds(h, j, k, uid)
    ensures i < m <= j && Holds(h, m - 1, k, uid) && !Holds(h, m, k, uid)
    decreases j
  {
    if Holds(h, j - 1, k, uid) {
      m := j;
    } else {
      m := RemovalStep(h, i, j - 1, k, uid);
    }
  }

  lemma Extended(h: History, next: Store)
    requires ValidHistory(h)
    requires forall k | k in next ::
      if k in h[|h| - 1] then SameIncarnation(h[|h| - 1][k], next[k]) else IsNew(next[k], |h|)
    ensures ValidHistory(h + [next])
  {
    var h' := h + [next];
    forall i: nat | 0 < i < |h'| ensures Follows(h', i) {
      if i < |h| {
        assert Follows(h, i);
      }
    }
  }
}
