/**
 Publish and Unpublish over the mount table of a node.

 k8s.io/mount-utils is not part of this model: its calls are given by what they do to the
 table and the directories, or fail as the outside decides.
 */
module Mounter {
  import opened Options

  /** `bind` marks the mounts that Publish has made; no code reads it. */
  datatype Mount = Mount(path: string, device: string, bind: bool)

  type Table = seq<Mount>

  datatype Stat = Fine | Corrupted | Unreadable

  datatype PublishFaults = PublishFaults(source: Stat, refsFail: bool, target: Stat, mkdirFails: bool, mountFails: bool)

  datatype UnpublishFaults = UnpublishFaults(target: Stat, unmountFails: bool, removeFails: bool)

  const NO_FAULTS := PublishFaults(Fine, false, Fine, false, false)
  const NO_UNPUBLISH_FAULTS := UnpublishFaults(Fine, false, false)

  datatype Error =
    | Nil
    | ErrSource
    | ErrSourceMissing
    | ErrRefs
    | ErrOtherReferences
    | ErrTarget
    | ErrTargetMounted
    | ErrMkdir
    | ErrMount
    | ErrUnmount
    | ErrRemove

  // ---------- The table ----------

  predicate IsMounted(t: Table, path: string) {
    exists i | 0 <= i < |t| :: t[i].path == path
  }

  /** Index of the topmost mount at the path. */
  function LastAt(t: Table, path: string): (r: Option<nat>)
    ensures r.None? <==> !IsMounted(t, path)
    ensures r.Some? ==> r.value < |t| && t[r.value].path == path && forall i | r.value < i < |t| :: t[i].path != path
  {
    if t == [] then None
    else if t[|t| - 1].path == path then Some(|t| - 1)
    else LastAt(t[..|t| - 1], path)
  }

  /** Paths of the first n mounts of the same device as entry `at`, without that entry. */
  function Refs(t: Table, at: nat, n: nat): seq<string>
    requires at < |t| && n <= |t|
  {
    if n == 0 then []
    else Refs(t, at, n - 1) + if n - 1 != at && t[n - 1].device == t[at].device then [t[n - 1].path] else []
  }

  /** Other mounts of the device mounted at the path; nothing, which Publish takes for an error, if the path
      is not itself mounted.  A directory inside another mount is not modelled. */
  function GetMountRefs(t: Table, path: string): Option<seq<string>> {
    match LastAt(t, path)
    case None => None
    case Some(at) => Some(Refs(t, at, |t|))
  }

  function Unmounted(t: Table, path: string): Table {
    match LastAt(t, path)
    case None => t
    case Some(at) => t[..at] + t[at + 1..]
  }

  lemma {:induction false} RefsHaveAll(t: Table, at: nat, n: nat)
    requires at < |t| && n <= |t|
    ensures forall i | 0 <= i < n && i != at && t[i].device == t[at].device :: t[i].path in Refs(t, at, n)
    ensures forall path | path in Refs(t, at, n) :: exists i ::
      0 <= i < n && i != at && t[i].device == t[at].device && t[i].path == path
    decreases n
  {
    if n > 0 {
      RefsHaveAll(t, at, n - 1);
    }
  }

  // ---------- What Publish and Unpublish are for ----------

  /** The device that the source shows is also mounted at the target. */
  predicate BoundTo(t: Table, source: string, target: string) {
    IsMounted(t, source) &&
    var at := LastAt(t, source).value;
    exists i | 0 <= i < |t| :: i != at && t[i].device == t[at].device && t[i].path == target
  }

  /** Entry i is the only one among the first n with the device of entry `at`, that one aside. */
  predicate OnlyOther(t: Table, at: nat, n: nat, i: nat)
    requires at < |t| && n <= |t|
  {
    && i < n && i != at && t[i].device == t[at].device
    && forall j | 0 <= j < n && j != at && j != i :: t[j].device != t[at].device
  }

  predicate NoOther(t: Table, at: nat)
    requires at < |t|
  {
    forall j | 0 <= j < |t| && j != at :: t[j].device != t[at].device
  }

  /** The source is mounted, and its device is mounted only at the target besides. */
  predicate AlreadyBound(t: Table, source: string, target: string) {
    IsMounted(t, source) &&
    var at := LastAt(t, source).value;
    exists i | 0 <= i < |t| && t[i].path == target :: OnlyOther(t, at, |t|, i)
  }

  /** The source is mounted, its device nowhere else, and nothing at the target. */
  predicate Bindable(t: Table, source: string, target: string) {
    IsMounted(t, source) && NoOther(t, LastAt(t, source).value) && !IsMounted(t, target)
  }

  /** What a Publish that nothing fails needs. */
  predicate Publishable(t: Table, source: string, target: string) {
    AlreadyBound(t, source, target) || Bindable(t, source, target)
  }

  /** A Publish whose source can be read and looked up, and which gets as far as making its target. */
  predicate GetsToMount(t: Table, dirs: set<string>, source: string, target: string, f: PublishFaults) {
    && f.source == Fine && !f.refsFail && Bindable(t, source, target)
    && (target in dirs ==> f.target == Fine) && !f.mkdirFails
  }

  predicate MountedOnce(t: Table, path: string) {
    forall i, j | 0 <= i < j < |t| && t[i].path == path :: t[j].path != path
  }

  /** The mounts at other paths. */
  function Elsewhere(t: Table, path: string): Table {
    if t == [] then []
    else Elsewhere(t[..|t| - 1], path) + if t[|t| - 1].path != path then [t[|t| - 1]] else []
  }

  lemma {:induction false} ElsewhereConcat(a: Table, b: Table, path: string)
    ensures Elsewhere(a + b, path) == Elsewhere(a, path) + Elsewhere(b, path)
    decreases |b|
  {
    if b == [] {
      assert a + b == a;
    } else {
      assert (a + b)[..|a + b| - 1] == a + b[..|b| - 1];
      ElsewhereConcat(a, b[..|b| - 1], path);
    }
  }

  lemma ElsewhereWithout(t: Table, at: nat, path: string)
    requires at < |t| && t[at].path == path
    ensures Elsewhere(t[..at] + t[at + 1..], path) == Elsewhere(t, path)
  {
    var below, above, m := t[..at], t[at + 1..], [t[at]];
    assert t == below + m + above;
    ElsewhereConcat(below + m, above, path);
    ElsewhereConcat(below, m, path);
    assert m[..0] == [] && Elsewhere(m, path) == [];
    ElsewhereConcat(below, above, path);
  }

  lemma ElsewhereStays(t: Table, path: string)
    ensures Elsewhere(Unmounted(t, path), path) == Elsewhere(t, path)
  {
    if LastAt(t, path).Some? {
      ElsewhereWithout(t, LastAt(t, path).value, path);
    }
  }

  lemma {:induction false} RefsOfOne(t: Table, at: nat, n: nat, path: string)
    requires at < |t| && n <= |t|
    ensures Refs(t, at, n) == [path] <==> exists i | 0 <= i < n && t[i].path == path :: OnlyOther(t, at, n, i)
    decreases n
  {
    if n > 0 {
      var last := n - 1;
      RefsOfOne(t, at, last, path);
      RefsHaveAll(t, at, last);
      if last != at && t[last].device == t[at].device {
        var before := Refs(t, at, last);
        assert before == [] || before[0] in before;
        assert Refs(t, at, n) == before + [t[last].path];
        assert OnlyOther(t, at, n, last) <==> before == [];
        assert before + [t[last].path] == [path] <==> before == [] && t[last].path == path by {
          if before + [t[last].path] == [path] {
            assert |before + [t[last].path]| == 1 && (before + [t[last].path])[|before|] == t[last].path;
          }
        }
        assert forall i: nat | i < last :: !OnlyOther(t, at, n, i);
      } else {
        assert forall i: nat | i < last :: OnlyOther(t, at, last, i) <==> OnlyOther(t, at, n, i);
        assert !OnlyOther(t, at, n, last);
      }
    }
  }

  lemma RefsOfNone(t: Table, at: nat)
    requires at < |t|
    ensures Refs(t, at, |t|) == [] <==> NoOther(t, at)
  {
    RefsHaveAll(t, at, |t|);
    assert Refs(t, at, |t|) == [] || Refs(t, at, |t|)[0] in Refs(t, at, |t|);
  }

  // ---------- What Publish and Unpublish do to the table ----------

  function PublishError(t: Table, dirs: set<string>, source: string, target: string, f: PublishFaults): Error {
    if !f.source.Fine? then ErrSource
    else if source !in dirs then ErrSourceMissing
    else if f.refsFail || !IsMounted(t, source) then ErrRefs
    else
      var refs := GetMountRefs(t, source).value;
      if refs == [target] then Nil
      else if refs != [] then ErrOtherReferences
      else if target in dirs && !f.target.Fine? then ErrTarget
      else if target in dirs && IsMounted(t, target) then ErrTargetMounted
      else if f.mkdirFails then ErrMkdir
      else if f.mountFails then ErrMount
      else Nil
  }

  /** A mount is added exactly when Publish succeeds and the source had no other mount. */
  function Published(t: Table, dirs: set<string>, source: string, target: string, f: PublishFaults): Table {
    if PublishError(t, dirs, source, target, f) == Nil && GetMountRefs(t, source) == Some([]) then
      t + [Mount(target, t[LastAt(t, source).value].device, true)]
    else t
  }

  /** The target directory is made when everything before has found nothing against it. */
  function PublishedDirs(t: Table, dirs: set<string>, source: string, target: string, f: PublishFaults): set<string> {
    var err := PublishError(t, dirs, source, target, f);
    if err == ErrMount || (err == Nil && GetMountRefs(t, source) == Some([])) then dirs + {target} else dirs
  }

  function UnpublishError(t: Table, dirs: set<string>, target: string, f: UnpublishFaults): Error {
    if target !in dirs then Nil
    else if f.target.Unreadable? then ErrTarget
    else if !IsMounted(t, target) then
      if f.target.Corrupted? then Nil else if f.removeFails then ErrRemove else Nil
    else if f.unmountFails then ErrUnmount
    else if IsMounted(Unmounted(t, target), target) then ErrUnmount
    else if f.removeFails then ErrRemove
    else Nil
  }

  function Unpublished(t: Table, dirs: set<string>, target: string, f: UnpublishFaults): Table {
    if target !in dirs || f.target.Unreadable? || f.unmountFails then t else Unmounted(t, target)
  }

  function UnpublishedDirs(t: Table, dirs: set<string>, target: string, f: UnpublishFaults): set<string> {
    if UnpublishError(t, dirs, target, f) == Nil && (!f.target.Corrupted? || IsMounted(t, target)) then dirs - {target}
    else dirs
  }

  lemma PublishMeans(t: Table, dirs: set<string>, source: string, target: string, f: PublishFaults)
    requires forall i | 0 <= i < |t| :: t[i].path in dirs
    ensures var err, t' := PublishError(t, dirs, source, target, f), Published(t, dirs, source, target, f);
      && (err == Nil ==> BoundTo(t', source, target))
      && (err == Nil <==>
        || (f.source == Fine && !f.refsFail && AlreadyBound(t, source, target))
        || (GetsToMount(t, dirs, source, target, f) && !f.mountFails))
      && (err == ErrMount <==> GetsToMount(t, dirs, source, target, f) && f.mountFails)
      && (f == NO_FAULTS ==> (err == Nil <==> Publishable(t, source, target)))
  {
    if IsMounted(t, source) {
      var at := LastAt(t, source).value;
      RefsOfNone(t, at);
      RefsOfOne(t, at, |t|, target);
      if PublishError(t, dirs, source, target, f) == Nil && GetMountRefs(t, source) == Some([]) {
        BoundByPublish(t, source, target, at);
      }
    }
  }

  lemma BoundByPublish(t: Table, source: string, target: string, at: nat)
    requires LastAt(t, source) == Some(at)
    ensures BoundTo(t + [Mount(target, t[at].device, true)], source, target)
  {
    var t' := t + [Mount(target, t[at].device, true)];
    assert t'[at] == t[at] && t'[|t|].path == target;
    assert IsMounted(t', source);
    if source == target {
      assert LastAt(t', source) == Some(|t|);
    } else {
      assert LastAt(t', source) == Some(at);
    }
  }

  /** An Unpublish that can look at its target meets nothing to unmount and leaves or removes the directory, or
      unmounts the only mount there and removes it. */
  predicate Frees(t: Table, target: string, f: UnpublishFaults) {
    if IsMounted(t, target) then !f.unmountFails && MountedOnce(t, target) && !f.removeFails
    else f.target == Corrupted || !f.removeFails
  }

  lemma UnpublishMeans(t: Table, dirs: set<string>, target: string, f: UnpublishFaults)
    requires forall i | 0 <= i < |t| :: t[i].path in dirs
    ensures var err, t' := UnpublishError(t, dirs, target, f), Unpublished(t, dirs, target, f);
      && (err == Nil ==> !IsMounted(t', target))
      && (err == Nil <==> target !in dirs || (f.target != Unreadable && Frees(t, target, f)))
      && Elsewhere(t', target) == Elsewhere(t, target)
      && (f == NO_UNPUBLISH_FAULTS ==> (err == Nil <==> MountedOnce(t, target)))
  {
    ElsewhereStays(t, target);
    if IsMounted(t, target) {
      OnceIsFree(t, target);
    }
  }

  lemma OnceIsFree(t: Table, path: string)
    requires IsMounted(t, path)
    ensures IsMounted(Unmounted(t, path), path) <==> !MountedOnce(t, path)
  {
    var at, u := LastAt(t, path).value, Unmounted(t, path);
    if i, j :| 0 <= i < j < |t| && t[i].path == path && t[j].path == path {
      assert i < at && u[i] == t[i];
    }
    if i :| 0 <= i < |u| && u[i].path == path {
      assert i < at && u[i] == t[i];
    }
  }

  class Node {
    var table: Table
    var dirs: set<string>

    constructor (table: Table, dirs: set<string>)
      requires forall i | 0 <= i < |table| :: table[i].path in dirs
      ensures Valid() && this.table == table && this.dirs == dirs
    {
      this.table, this.dirs := table, dirs;
    }

    /** Every mount is on an existing directory. */
    ghost predicate Valid()
      reads this
    {
      forall i | 0 <= i < |table| :: table[i].path in dirs
    }

    method Publish(source: string, target: string, f: PublishFaults) returns (err: Error)
      requires Valid()
      modifies this
      ensures Valid()
      ensures err == Nil ==> BoundTo(table, source, target)
      ensures err != Nil ==> table == old(table)
      ensures table == old(table) || exists m: Mount :: m.path == target && m.bind && table == old(table) + [m]
      ensures err == Nil <==>
        || (f.source == Fine && !f.refsFail && AlreadyBound(old(table), source, target))
        || (GetsToMount(old(table), old(dirs), source, target, f) && !f.mountFails)
      ensures err == ErrMount <==> GetsToMount(old(table), old(dirs), source, target, f) && f.mountFails
      ensures err == Nil && AlreadyBound(old(table), source, target) ==> table == old(table) && dirs == old(dirs)
      ensures err == Nil && Bindable(old(table), source, target) ==>
        && table == old(table) + [Mount(target, old(table)[LastAt(old(table), source).value].device, true)]
        && dirs == old(dirs) + {target}
      ensures err != Nil ==> dirs == if err == ErrMount then old(dirs) + {target} else old(dirs)
      ensures f == NO_FAULTS ==> (err == Nil <==> Publishable(old(table), source, target))
      ensures err == PublishError(old(table), old(dirs), source, target, f)
      ensures table == Published(old(table), old(dirs), source, target, f)
      ensures dirs == PublishedDirs(old(table), old(dirs), source, target, f)
    {
      PublishMeans(table, dirs, source, target, f);
      // PathExists
      if f.source.Corrupted? || f.source.Unreadable? {
        return ErrSource;
      }
      if source !in dirs {
        return ErrSourceMissing;
      }
      var refsFound := GetMountRefs(table, source);
      if f.refsFail || refsFound.None? {
        return ErrRefs;
      }
      var refs := refsFound.value;
      RefsHaveAll(table, LastAt(table, source).value, |table|);
      if |refs| == 0 {
      } else if |refs| == 1 && refs[0] == target {
      } else {
        return ErrOtherReferences;
      }
      var isMnt := false;
      for i := 0 to |refs|
        invariant isMnt <==> target in refs[..i]
      {
        if refs[i] == target {
          isMnt := true;
          assert target in refs[..i + 1];
          break;
        }
      }
      assert refs[..|refs|] == refs;
      if isMnt {
        return Nil;
      }
      // IsMountPoint; a missing target is not an error
      if target in dirs {
        if !f.target.Fine? {
          return ErrTarget;
        }
        isMnt := IsMounted(table, target);
      }
      if isMnt {
        return ErrTargetMounted;
      }
      if f.mkdirFails {
        return ErrMkdir;
      }
      dirs := dirs + {target};
      if f.mountFails {
        return ErrMount;
      }
      table := table + [Mount(target, table[LastAt(table, source).value].device, true)];
      return Nil;
    }

    /** CleanupMountPoint with its extensive check, ignoring "not mounted". */
    method Unpublish(target: string, f: UnpublishFaults) returns (err: Error)
      requires Valid()
      modifies this
      ensures Valid()
      ensures err == Nil ==> !IsMounted(table, target) && (target !in dirs || f.target.Corrupted?)
      ensures Elsewhere(table, target) == Elsewhere(old(table), target)
      ensures err == Nil <==> target !in old(dirs) || (f.target != Unreadable && Frees(old(table), target, f))
      ensures dirs == old(dirs) - (if err == Nil && !(f.target == Corrupted && !IsMounted(old(table), target))
        then {target} else {})
      ensures IsMounted(old(table), target) && f.target != Unreadable && !f.unmountFails ==>
        var at := LastAt(old(table), target).value; table == old(table)[..at] + old(table)[at + 1..]
      ensures f.target == Unreadable || f.unmountFails ==> table == old(table)
      ensures f == NO_UNPUBLISH_FAULTS ==> (err == Nil <==> MountedOnce(old(table), target))
      ensures err == UnpublishError(old(table), old(dirs), target, f)
      ensures table == Unpublished(old(table), old(dirs), target, f)
      ensures dirs == UnpublishedDirs(old(table), old(dirs), target, f)
    {
      UnpublishMeans(table, dirs, target, f);
      if target !in dirs {
        return Nil;
      }
      if f.target.Unreadable? {
        return ErrTarget;
      }
      if !f.target.Corrupted? {
        if !IsMounted(table, target) {
          if f.removeFails {
            return ErrRemove;
          }
          dirs := dirs - {target};
          return Nil;
        }
      }
      if !IsMounted(table, target) {
        return Nil; // "not mounted"
      }
      if f.unmountFails {
        return ErrUnmount;
      }
      table := Unmounted(table, target);
      if IsMounted(table, target) {
        return ErrUnmount;
      }
      if f.removeFails {
        return ErrRemove;
      }
      dirs := dirs - {target};
      return Nil;
    }
  }

  // ---------- Runs ----------

  /** Where the attach pods serve the union mounts. */
  const HOST_DIR := "/var/lib/union-csi-driver.union.io/volumes/"

  predicate IsHostPath(path: string) {
    HOST_DIR <= path
  }

  /** One serialised run: calls of the driver, and mounts and directories that others make and
      take away. */
  datatype Step =
    | Publish(source: string, target: string, faults: PublishFaults)
    | Unpublish(target: string, unpublishFaults: UnpublishFaults)
    | Appear(path: string, device: string)
    | Vanish(path: string)
    | MakeDir(path: string)
    | RemoveDir(path: string)

  datatype State = State(table: Table, dirs: set<string>)

  /** A source is a host path of an attach pod, a target is not. */
  predicate Allowed(step: Step) {
    step.Publish? ==> IsHostPath(step.source) && !IsHostPath(step.target)
  }

  function Next(s: State, step: Step): State {
    match step
    case Publish(source, target, f) =>
      State(Published(s.table, s.dirs, source, target, f), PublishedDirs(s.table, s.dirs, source, target, f))
    case Unpublish(target, f) =>
      State(Unpublished(s.table, s.dirs, target, f), UnpublishedDirs(s.table, s.dirs, target, f))
    case Appear(path, device) => State(s.table + [Mount(path, device, false)], s.dirs + {path})
    case Vanish(path) => s.(table := Unmounted(s.table, path))
    case MakeDir(path) => s.(dirs := s.dirs + {path})
    case RemoveDir(path) => if IsMounted(s.table, path) then s else s.(dirs := s.dirs - {path})
  }

  function Run(s: State, steps: seq<Step>): State
    decreases |steps|
  {
    if steps == [] then s else Run(Next(s, steps[0]), steps[1..])
  }

  /** Among the mounts made by Publish, no device and no path occurs twice; none is a source. */
  ghost predicate Exclusive(t: Table) {
    && (forall i | 0 <= i < |t| && t[i].bind :: !IsHostPath(t[i].path))
    && forall i, j | 0 <= i < j < |t| && t[i].bind && t[j].bind :: t[i].device != t[j].device && t[i].path != t[j].path
  }

  /** Every mount is on an existing directory. */
  ghost predicate MountsOnDirs(s: State) {
    forall i | 0 <= i < |s.table| :: s.table[i].path in s.dirs
  }

  lemma UnmountedKeepsOrder(t: Table, path: string)
    ensures Exclusive(t) ==> Exclusive(Unmounted(t, path))
    ensures forall m | m in Unmounted(t, path) :: m in t
  {}

  lemma MountsOnDirsStep(s: State, step: Step)
    requires MountsOnDirs(s)
    ensures MountsOnDirs(Next(s, step))
  {}

  lemma ExclusiveStep(s: State, step: Step)
    requires Exclusive(s.table) && MountsOnDirs(s) && Allowed(step)
    ensures Exclusive(Next(s, step).table)
  {
    if step.Publish? {
      var t := s.table;
      if PublishError(t, s.dirs, step.source, step.target, step.faults) == Nil
        && GetMountRefs(t, step.source) == Some([])
      {
        var at := LastAt(t, step.source).value;
        RefsHaveAll(t, at, |t|);
        assert !t[at].bind;
        assert forall i | 0 <= i < |t| && i != at :: t[i].device != t[at].device;
      }
    } else if step.Unpublish? {
      UnmountedKeepsOrder(s.table, step.target);
    } else if step.Vanish? {
      UnmountedKeepsOrder(s.table, step.path);
    }
  }

  /** In every run, whatever fails and whatever others mount or unmount: a device has at most
      one target bound by the driver, and the driver never mounts a path twice. */
  lemma {:induction false} BindingsAreExclusive(s: State, steps: seq<Step>)
    requires Exclusive(s.table) && MountsOnDirs(s) && forall i | 0 <= i < |steps| :: Allowed(steps[i])
    ensures Exclusive(Run(s, steps).table) && MountsOnDirs(Run(s, steps))
    decreases |steps|
  {
    if steps != [] {
      ExclusiveStep(s, steps[0]);
      MountsOnDirsStep(s, steps[0]);
      BindingsAreExclusive(Next(s, steps[0]), steps[1..]);
    }
  }

  // ---------- Publish and Unpublish together ----------

  lemma {:induction false} RefsOfExtended(t: Table, at: nat, m: Mount, n: nat)
    requires at < |t| && n <= |t|
    ensures Refs(t + [m], at, n) == Refs(t, at, n)
    decreases n
  {
    if n > 0 {
      RefsOfExtended(t, at, m, n - 1);
    }
  }

  /** Repeating a Publish that has succeeded changes nothing and succeeds. */
  lemma RepeatedPublishIsNoOp(s: State, source: string, target: string, f: PublishFaults)
    requires MountsOnDirs(s) && source != target
    requires PublishError(s.table, s.dirs, source, target, f) == Nil
    ensures var s1 := Next(s, Publish(source, target, f)); var again := Publish(source, target, NO_FAULTS);
      PublishError(s1.table, s1.dirs, source, target, NO_FAULTS) == Nil && Next(s1, again) == s1
  {
    var s1 := Next(s, Publish(source, target, f));
    if GetMountRefs(s.table, source) == Some([]) {
      var at := LastAt(s.table, source).value;
      var m := Mount(target, s.table[at].device, true);
      assert s1.table == s.table + [m];
      assert s1.table[..|s1.table| - 1] == s.table;
      assert LastAt(s1.table, source) == Some(at);
      RefsOfExtended(s.table, at, m, |s.table|);
      assert Refs(s1.table, at, |s.table| + 1) == Refs(s1.table, at, |s.table|) + [target];
      assert GetMountRefs(s1.table, source) == Some([] + [target]);
      assert [] + [target] == [target];
    }
  }

  /** Unpublish after a successful Publish restores the mount table exactly if Publish had
      something to do: if the source's device was already bound to the target, that binding
      is gone as well. */
  lemma UnpublishUndoesPublish(s: State, source: string, target: string, f: PublishFaults)
    requires MountsOnDirs(s) && source != target
    requires PublishError(s.table, s.dirs, source, target, f) == Nil
    ensures var s1 := Next(s, Publish(source, target, f));
      var s2 := Next(s1, Unpublish(target, NO_UNPUBLISH_FAULTS));
      && (s2.table == s.table <==> !IsMounted(s.table, target))
      && (!IsMounted(s.table, target) ==>
        target !in s2.dirs && UnpublishError(s1.table, s1.dirs, target, NO_UNPUBLISH_FAULTS) == Nil)
  {
    var t := s.table;
    var at := LastAt(t, source).value;
    RefsHaveAll(t, at, |t|);
    var s1 := Next(s, Publish(source, target, f));
    if GetMountRefs(t, source) == Some([]) {
      assert !IsMounted(t, target);
      assert s1.table == t + [Mount(target, t[at].device, true)];
      assert s1.table[..|t|] == t;
      assert LastAt(s1.table, target) == Some(|t|);
      assert Unmounted(s1.table, target) == t;
      assert IsMounted(s1.table, target);
    } else {
      assert target in Refs(t, at, |t|);
      assert IsMounted(t, target) && s1.table == t && target in s.dirs;
      assert |Unmounted(t, target)| == |t| - 1;
    }
  }

  // ---------- The repository's own search of the mount table ----------

  /** Paths of the first n mounts, other than mountPath, that carry the device or whose device
      is mountPath itself. */
  function DeviceRefs(t: Table, device: string, mountPath: string, n: nat): seq<string>
    requires n <= |t|
  {
    if n == 0 then []
    else
      var m := t[n - 1];
      DeviceRefs(t, device, mountPath, n - 1)
        + if (m.device == device || m.device == mountPath) && m.path != mountPath then [m.path] else []
  }

  /** `resolved` is the path with its symbolic links followed, `mps` the table as listed; either may not
      be had.  Otherwise: the device of the bottommost mount at the path, "" if there is none, and the
      rest of its mounts. */
  method GetDeviceNameAndMountsFromMount(resolved: Option<string>, mps: Option<Table>)
    returns (device: string, refs: seq<string>, failed: bool)
    ensures failed <==> resolved.None? || mps.None?
    ensures failed ==> device == "" && refs == []
    ensures !failed && !IsMounted(mps.value, resolved.value) ==> device == ""
    ensures !failed && IsMounted(mps.value, resolved.value) ==> exists i ::
      && 0 <= i < |mps.value| && mps.value[i].path == resolved.value && mps.value[i].device == device
      && forall j | 0 <= j < i :: mps.value[j].path != resolved.value
    ensures !failed ==> refs == DeviceRefs(mps.value, device, resolved.value, |mps.value|)
  {
    device, refs, failed := "", [], false;
    if resolved.None? || mps.None? {
      failed := true;
      return;
    }
    var mountPath, t := resolved.value, mps.value;
    for i := 0 to |t|
      invariant device == "" && forall j | 0 <= j < i :: t[j].path != mountPath
    {
      if t[i].path == mountPath {
        device := t[i].device;
        break;
      }
    }
    for i := 0 to |t|
      invariant refs == DeviceRefs(t, device, mountPath, i)
    {
      if t[i].device == device || t[i].device == mountPath {
        if t[i].path != mountPath {
          refs := refs + [t[i].path];
        }
      }
    }
  }

  /** Where the path is mounted once and is no device itself, the two searches agree. */
  lemma {:induction false} BothSearchesAgree(t: Table, at: nat, n: nat)
    requires at < |t| && n <= |t|
    requires forall i | 0 <= i < |t| && i != at :: t[i].path != t[at].path
    requires forall i | 0 <= i < |t| :: t[i].device != t[at].path
    ensures DeviceRefs(t, t[at].device, t[at].path, n) == Refs(t, at, n)
    decreases n
  {
    if n > 0 {
      BothSearchesAgree(t, at, n - 1);
    }
  }
}
