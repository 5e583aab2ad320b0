/**
 The blocking merger: Run, Stop and CleanUp called from any number of goroutines, as an
 interleaving of their atomic actions on one mutex, one flag and two channels of capacity 1.
 */
module Merger {
  import opened Options

  /**
   Where a goroutine is.  A goroutine at RunLock, StopLock or CleanLock has been called and
   waits for the mutex; Idle ones have not been called yet.
   RunClearLock and RunClear know whether the Run took a stop token or saw its context done.
   */
  datatype Pc =
    | Idle
    | RunLock | RunCheck | RunMerge | RunSet | RunUnlock | RunSelect
    | RunClearLock(token: bool) | RunClear(token: bool) | RunClearUnlock(token: bool) | RunConfirm
    | StopLock | StopCheck | StopSend | StopUnlock | StopWait
    | CleanLock | CleanCheck | CleanUnmerge | CleanUnlock
    | Done

  datatype Kind = Run | Stop | CleanUp

  /**
   `effect`: a Run that has mounted, or a CleanUp that has unmounted, the union.
   `target`: for a Stop that has sent, the Run that was running when it did.
   `cancellable`: whether the context of a Run may be done.
   */
  datatype Proc = Proc(kind: Kind, pc: Pc, effect: bool, target: nat, cancellable: bool)

  /** `depth` counts the union mounts stacked at the target path. */
  datatype Shared = Shared(lock: Option<nat>, running: bool, manualStop: nat, stopped: nat, depth: nat)

  datatype State = State(sh: Shared, procs: seq<Proc>)

  /** How the outside answers: a merge or unmount works or not, an unmount finds nothing to
      unmount, a select with two ready cases takes the context or the token. */
  datatype Choice = Works | Fails | ContextDone

  function Start(kind: Kind): Pc {
    match kind
    case Run => RunLock
    case Stop => StopLock
    case CleanUp => CleanLock
  }

  /** Between setting and clearing the flag. */
  predicate InSpan(p: Proc) {
    p.pc.RunUnlock? || p.pc.RunSelect? || p.pc.RunClearLock? || p.pc.RunClear?
  }

  /** Holds the mutex. */
  predicate InLock(p: Proc) {
    || p.pc.RunCheck? || p.pc.RunMerge? || p.pc.RunSet? || p.pc.RunUnlock? || p.pc.RunClear? || p.pc.RunClearUnlock?
    || p.pc.StopCheck? || p.pc.StopSend? || p.pc.StopUnlock?
    || p.pc.CleanCheck? || p.pc.CleanUnmerge? || p.pc.CleanUnlock?
  }

  /** A Stop that has sent its token and is not yet confirmed. */
  predicate Awaits(p: Proc) {
    p.pc.StopUnlock? || p.pc.StopWait?
  }

  /** A Run that has taken a token and not yet confirmed. */
  predicate HoldsToken(p: Proc) {
    || (p.pc.RunClearLock? && p.pc.token) || (p.pc.RunClear? && p.pc.token)
    || (p.pc.RunClearUnlock? && p.pc.token) || p.pc.RunConfirm?
  }

  predicate IsLive(p: Proc) {
    p.kind.Run? && !p.pc.Idle? && !p.pc.Done?
  }

  predicate UnfinishedStop(p: Proc) {
    p.kind.Stop? && !p.pc.Idle? && !p.pc.Done?
  }

  // ---------- One atomic action ----------

  /** Whether a goroutine can act now: lock, send and receive block. */
  predicate CanMove(sh: Shared, p: Proc, choice: Choice) {
    match p.pc
    case RunLock => sh.lock.None?
    case RunClearLock(_) => sh.lock.None?
    case StopLock => sh.lock.None?
    case CleanLock => sh.lock.None?
    case RunSelect => if choice.ContextDone? then p.cancellable else sh.manualStop > 0
    case RunConfirm => sh.stopped == 0
    case StopSend => sh.manualStop == 0
    case StopWait => sh.stopped > 0
    case Done => false
    case _ => true
  }

  /** What goroutine g does to the shared state and to itself; `spanning` is the running Run. */
  function Move(sh: Shared, p: Proc, g: nat, choice: Choice, spanning: nat): (Shared, Proc)
    requires CanMove(sh, p, choice)
  {
    match p.pc
    case Idle => (sh, p.(pc := Start(p.kind)))
    // Run
    case RunLock => (sh.(lock := Some(g)), p.(pc := RunCheck))
    case RunCheck => if sh.running then (sh.(lock := None), p.(pc := Done)) else (sh, p.(pc := RunMerge))
    case RunMerge =>
      if choice.Fails? then (sh.(lock := None), p.(pc := Done))
      else (sh.(depth := sh.depth + 1), p.(pc := RunSet, effect := true))
    case RunSet => (sh.(running := true), p.(pc := RunUnlock))
    case RunUnlock => (sh.(lock := None), p.(pc := RunSelect))
    case RunSelect =>
      if choice.ContextDone? then (sh, p.(pc := RunClearLock(false)))
      else (sh.(manualStop := sh.manualStop - 1), p.(pc := RunClearLock(true)))
    case RunClearLock(token) => (sh.(lock := Some(g)), p.(pc := RunClear(token)))
    case RunClear(token) => (sh.(running := false), p.(pc := RunClearUnlock(token)))
    case RunClearUnlock(token) => (sh.(lock := None), p.(pc := if token then RunConfirm else Done))
    case RunConfirm => (sh.(stopped := sh.stopped + 1), p.(pc := Done))
    // Stop
    case StopLock => (sh.(lock := Some(g)), p.(pc := StopCheck))
    case StopCheck => if !sh.running then (sh.(lock := None), p.(pc := Done)) else (sh, p.(pc := StopSend))
    case StopSend => (sh.(manualStop := sh.manualStop + 1), p.(pc := StopUnlock, target := spanning))
    case StopUnlock => (sh.(lock := None), p.(pc := StopWait))
    case StopWait => (sh.(stopped := sh.stopped - 1), p.(pc := Done))
    // CleanUp
    case CleanLock => (sh.(lock := Some(g)), p.(pc := CleanCheck))
    case CleanCheck => if sh.running then (sh.(lock := None), p.(pc := Done)) else (sh, p.(pc := CleanUnmerge))
    case CleanUnmerge =>
      if choice.Fails? || sh.depth == 0 then (sh, p.(pc := CleanUnlock))
      else (sh.(depth := sh.depth - 1), p.(pc := CleanUnlock, effect := true))
    case CleanUnlock => (sh.(lock := None), p.(pc := Done))
  }

  predicate Enabled(s: State, g: nat, choice: Choice) {
    g < |s.procs| && CanMove(s.sh, s.procs[g], choice)
  }

  /** Some Run between setting and clearing the flag; |procs| if there is none. */
  function RunInSpan(procs: seq<Proc>): nat {
    if procs == [] then 0 else if InSpan(procs[0]) then 0 else 1 + RunInSpan(procs[1..])
  }

  function Step(s: State, g: nat, choice: Choice): State
    requires Enabled(s, g, choice)
  {
    var (sh, p) := Move(s.sh, s.procs[g], g, choice, RunInSpan(s.procs));
    State(sh, s.procs[g := p])
  }

  /** A scheduled action; one that is not enabled is not taken. */
  datatype Action = Action(g: nat, choice: Choice)

  function Take(s: State, a: Action): State {
    if Enabled(s, a.g, a.choice) then Step(s, a.g, a.choice) else s
  }

  function RunAll(s: State, actions: seq<Action>): State
    decreases |actions|
  {
    if actions == [] then s else RunAll(Take(s, actions[0]), actions[1..])
  }

  /** A new merger, over a path that may already have mounts, and the calls that will be made. */
  predicate IsInitial(s: State) {
    && s.sh.lock.None? && !s.sh.running && s.sh.manualStop == 0 && s.sh.stopped == 0
    && forall i | 0 <= i < |s.procs| :: s.procs[i].pc.Idle? && !s.procs[i].effect
  }

  // ---------- Counting goroutines ----------

  function Count(procs: seq<Proc>, f: Proc -> int): int {
    if procs == [] then 0 else f(procs[0]) + Count(procs[1..], f)
  }

  lemma {:induction false} CountUpdate(procs: seq<Proc>, g: nat, p: Proc, f: Proc -> int)
    requires g < |procs|
    ensures Count(procs[g := p], f) == Count(procs, f) - f(procs[g]) + f(p)
    decreases |procs|
  {
    var after := procs[g := p];
    if g == 0 {
      assert after[1..] == procs[1..];
    } else {
      assert after[1..] == procs[1..][g - 1 := p];
      CountUpdate(procs[1..], g - 1, p, f);
    }
  }

  lemma {:induction false} CountZero(procs: seq<Proc>, f: Proc -> int)
    requires forall i | 0 <= i < |procs| :: f(procs[i]) == 0
    ensures Count(procs, f) == 0
    decreases |procs|
  {
    if procs != [] {
      CountZero(procs[1..], f);
    }
  }

  /** A positive count of a yes-or-no property has a witness. */
  lemma {:induction false} CountWitness(procs: seq<Proc>, f: Proc -> int) returns (g: nat)
    requires Count(procs, f) > 0 && forall i | 0 <= i < |procs| :: f(procs[i]) <= 1
    ensures g < |procs| && f(procs[g]) == 1
    decreases |procs|
  {
    if f(procs[0]) == 1 {
      g := 0;
    } else {
      g := CountWitness(procs[1..], f);
      g := g + 1;
    }
  }

  lemma {:induction false} CountNonNegative(procs: seq<Proc>, f: Proc -> int)
    requires forall i | 0 <= i < |procs| :: f(procs[i]) >= 0
    ensures Count(procs, f) >= 0
    ensures forall i | 0 <= i < |procs| :: Count(procs, f) >= f(procs[i])
    decreases |procs|
  {
    if procs != [] {
      CountNonNegative(procs[1..], f);
    }
  }

  function Awaiting(p: Proc): int { if Awaits(p) then 1 else 0 }

  function Holding(p: Proc): int { if HoldsToken(p) then 1 else 0 }

  function Spanning(p: Proc): int { if InSpan(p) then 1 else 0 }

  /** What a goroutine has added to the mount depth. */
  function Mounted(p: Proc): int {
    if !p.effect then 0 else if p.kind.Run? then 1 else -1
  }

  // ---------- The invariant ----------

  /** Each goroutine is in its own kind of code, and has had an effect only where it can. */
  predicate ProcOk(p: Proc) {
    && (p.kind.Run? ==> p.pc.Idle? || p.pc.Done? || IsRunPc(p.pc))
    && (p.kind.Stop? ==> p.pc.Idle? || p.pc.Done? || p.pc.StopLock? || p.pc.StopCheck? || p.pc.StopSend? || Awaits(p))
    && (p.kind.CleanUp? ==> p.pc.Idle? || p.pc.Done? || BeforeUnmerge(p.pc) || p.pc.CleanUnlock?)
    && (p.effect ==> !p.kind.Stop?)
    && (p.pc.Idle? || BeforeMerge(p.pc) || BeforeUnmerge(p.pc) ==> !p.effect)
  }

  predicate BeforeMerge(pc: Pc) {
    pc.RunLock? || pc.RunCheck? || pc.RunMerge?
  }

  predicate BeforeUnmerge(pc: Pc) {
    pc.CleanLock? || pc.CleanCheck? || pc.CleanUnmerge?
  }

  predicate IsRunPc(pc: Pc) {
    || pc.RunLock? || pc.RunCheck? || pc.RunMerge? || pc.RunSet? || pc.RunUnlock? || pc.RunSelect?
    || pc.RunClearLock? || pc.RunClear? || pc.RunClearUnlock? || pc.RunConfirm?
  }

  /** What the flag must be for a goroutine to be where it is. */
  predicate FlagOk(p: Proc, running: bool) {
    && (p.pc.RunMerge? || p.pc.RunSet? || p.pc.CleanUnmerge? ==> !running)
    && (p.pc.StopSend? ==> running)
    && (InSpan(p) ==> running)
  }

  predicate Inv(s: State, depth0: int) {
    PlacesOk(s) && BooksOk(s, depth0) && MountOk(s)
  }

  lemma InitialInv(s: State)
    requires IsInitial(s)
    ensures Inv(s, s.sh.depth)
  {
    CountZero(s.procs, Spanning);
    CountZero(s.procs, Awaiting);
    CountZero(s.procs, Holding);
    CountZero(s.procs, Mounted);
  }

  lemma UpdateCounts(procs: seq<Proc>, g: nat, p: Proc)
    requires g < |procs|
    ensures Count(procs[g := p], Spanning) == Count(procs, Spanning) - Spanning(procs[g]) + Spanning(p)
    ensures Count(procs[g := p], Awaiting) == Count(procs, Awaiting) - Awaiting(procs[g]) + Awaiting(p)
    ensures Count(procs[g := p], Holding) == Count(procs, Holding) - Holding(procs[g]) + Holding(p)
    ensures Count(procs[g := p], Mounted) == Count(procs, Mounted) - Mounted(procs[g]) + Mounted(p)
  {
    CountUpdate(procs, g, p, Spanning);
    CountUpdate(procs, g, p, Awaiting);
    CountUpdate(procs, g, p, Holding);
    CountUpdate(procs, g, p, Mounted);
  }

  lemma NobodySpans(procs: seq<Proc>)
    requires Count(procs, Spanning) == 0
    ensures forall i | 0 <= i < |procs| :: !InSpan(procs[i])
  {
    CountNonNegative(procs, Spanning);
  }

  /** Every goroutine is where the flag and the mutex allow it to be. */
  predicate PlacesOk(s: State) {
    && (forall i | 0 <= i < |s.procs| :: ProcOk(s.procs[i]) && FlagOk(s.procs[i], s.sh.running))
    && (forall i | 0 <= i < |s.procs| :: InLock(s.procs[i]) <==> s.sh.lock == Some(i))
    && (s.sh.lock.Some? ==> s.sh.lock.value < |s.procs|)
  }

  /** The books balance: one running Run, every token accounted for, every mount. */
  predicate BooksOk(s: State, depth0: int) {
    && Count(s.procs, Spanning) == (if s.sh.running then 1 else 0)
    && Count(s.procs, Awaiting) == s.sh.manualStop + Count(s.procs, Holding) + s.sh.stopped
    && s.sh.manualStop <= 1 && s.sh.stopped <= 1
    && s.sh.depth == depth0 + Count(s.procs, Mounted)
  }

  /** The union is mounted while the flag is set, and when a Run is about to set it. */
  predicate MountOk(s: State) {
    && (s.sh.running ==> s.sh.depth > 0)
    && (forall i | 0 <= i < |s.procs| :: s.procs[i].pc.RunSet? ==> s.sh.depth > 0)
  }

  /** What one goroutine's move does, seen locally: where it goes and what it does to the mutex
      and the flag. */
  lemma MovePlaces(sh: Shared, p: Proc, g: nat, choice: Choice, spanning: nat)
    requires CanMove(sh, p, choice) && ProcOk(p) && FlagOk(p, sh.running) && (InLock(p) <==> sh.lock == Some(g))
    ensures var (sh', p') := Move(sh, p, g, choice, spanning);
      && ProcOk(p') && FlagOk(p', sh'.running) && (InLock(p') <==> sh'.lock == Some(g))
  {
    MoveProcOk(sh, p, g, choice, spanning);
    MoveFlagOk(sh, p, g, choice, spanning);
    MoveInLock(sh, p, g, choice, spanning);
  }

  lemma MoveProcOk(sh: Shared, p: Proc, g: nat, choice: Choice, spanning: nat)
    requires CanMove(sh, p, choice) && ProcOk(p)
    ensures ProcOk(Move(sh, p, g, choice, spanning).1)
  {}

  lemma MoveFlagOk(sh: Shared, p: Proc, g: nat, choice: Choice, spanning: nat)
    requires CanMove(sh, p, choice) && ProcOk(p) && FlagOk(p, sh.running)
    ensures var (sh', p') := Move(sh, p, g, choice, spanning); FlagOk(p', sh'.running)
  {}

  lemma MoveInLock(sh: Shared, p: Proc, g: nat, choice: Choice, spanning: nat)
    requires CanMove(sh, p, choice) && (InLock(p) <==> sh.lock == Some(g))
    ensures var (sh', p') := Move(sh, p, g, choice, spanning); InLock(p') <==> sh'.lock == Some(g)
  {}

  lemma MoveLock(sh: Shared, p: Proc, g: nat, choice: Choice, spanning: nat)
    requires CanMove(sh, p, choice) && (InLock(p) <==> sh.lock == Some(g))
    ensures var (sh', p') := Move(sh, p, g, choice, spanning);
      && (sh'.lock == sh.lock || (sh.lock.None? && sh'.lock == Some(g)) || (sh.lock == Some(g) && sh'.lock.None?))
      && (sh'.running != sh.running ==> sh.lock == Some(g))
      && (sh'.depth < sh.depth ==> p.pc.CleanUnmerge? && sh.lock == Some(g))
      && (p'.pc.RunSet? ==> sh'.depth > 0)
      && (sh'.running && !sh.running ==> p.pc.RunSet? && sh'.depth == sh.depth)
  {}

  /** The same for what is counted. */
  lemma MoveBooks(sh: Shared, p: Proc, g: nat, choice: Choice, spanning: nat)
    requires CanMove(sh, p, choice) && ProcOk(p) && FlagOk(p, sh.running)
    ensures var (sh', p') := Move(sh, p, g, choice, spanning);
      && Spanning(p') - Spanning(p) == (if sh'.running then 1 else 0) - (if sh.running then 1 else 0)
      && (sh.manualStop <= 1 ==> sh'.manualStop <= 1) && (sh.stopped <= 1 ==> sh'.stopped <= 1)
      && sh'.depth - sh.depth == Mounted(p') - Mounted(p)
  {}

  lemma MoveTokens(sh: Shared, p: Proc, g: nat, choice: Choice, spanning: nat)
    requires CanMove(sh, p, choice) && ProcOk(p)
    ensures var (sh', p') := Move(sh, p, g, choice, spanning);
      Awaiting(p') - Awaiting(p) == sh'.manualStop + Holding(p') + sh'.stopped - sh.manualStop - Holding(p) - sh.stopped
  {}

  lemma BooksStep(s: State, g: nat, choice: Choice, depth0: int)
    requires PlacesOk(s) && BooksOk(s, depth0) && Enabled(s, g, choice)
    ensures BooksOk(Step(s, g, choice), depth0)
  {
    MoveBooks(s.sh, s.procs[g], g, choice, RunInSpan(s.procs));
    MoveTokens(s.sh, s.procs[g], g, choice, RunInSpan(s.procs));
    var (sh, p) := Move(s.sh, s.procs[g], g, choice, RunInSpan(s.procs));
    UpdateCounts(s.procs, g, p);
  }

  lemma PlacesStep(s: State, g: nat, choice: Choice, depth0: int)
    requires PlacesOk(s) && BooksOk(s, depth0) && Enabled(s, g, choice)
    ensures PlacesOk(Step(s, g, choice))
  {
    var s' := Step(s, g, choice);
    MovePlaces(s.sh, s.procs[g], g, choice, RunInSpan(s.procs));
    MoveLock(s.sh, s.procs[g], g, choice, RunInSpan(s.procs));
    BooksStep(s, g, choice, depth0);
    if !s'.sh.running {
      NobodySpans(s'.procs);
    }
    forall i | 0 <= i < |s'.procs|
      ensures ProcOk(s'.procs[i]) && FlagOk(s'.procs[i], s'.sh.running)
      ensures (InLock(s'.procs[i]) <==> s'.sh.lock == Some(i))
    {
      if i != g {
        assert s'.procs[i] == s.procs[i];
        StaysOk(s.sh, s'.sh, s.procs[i], i, g);
      }
    }
  }

  /** A goroutine that did not move is still where it may be. */
  lemma StaysOk(sh: Shared, sh': Shared, p: Proc, i: nat, g: nat)
    requires i != g && FlagOk(p, sh.running) && (InLock(p) <==> sh.lock == Some(i))
    requires sh'.lock == sh.lock || (sh.lock.None? && sh'.lock == Some(g)) || (sh.lock == Some(g) && sh'.lock.None?)
    requires sh'.running != sh.running ==> sh.lock == Some(g)
    requires !sh'.running ==> !InSpan(p)
    ensures FlagOk(p, sh'.running) && (InLock(p) <==> sh'.lock == Some(i))
  {}

  lemma MountStep(s: State, g: nat, choice: Choice)
    requires PlacesOk(s) && MountOk(s) && Enabled(s, g, choice)
    ensures MountOk(Step(s, g, choice))
  {
    var s' := Step(s, g, choice);
    MoveLock(s.sh, s.procs[g], g, choice, RunInSpan(s.procs));
    forall i | 0 <= i < |s'.procs| && s'.procs[i].pc.RunSet? ensures s'.sh.depth > 0 {
      if i != g {
        assert InLock(s.procs[i]);
      }
    }
  }

  lemma InvStep(s: State, g: nat, choice: Choice, depth0: int)
    requires Inv(s, depth0) && Enabled(s, g, choice)
    ensures Inv(Step(s, g, choice), depth0)
  {
    PlacesStep(s, g, choice, depth0);
    BooksStep(s, g, choice, depth0);
    MountStep(s, g, choice);
  }

  lemma {:induction false} InvRun(s: State, actions: seq<Action>, depth0: int)
    requires Inv(s, depth0)
    ensures Inv(RunAll(s, actions), depth0)
    decreases |actions|
  {
    if actions != [] {
      var a := actions[0];
      if Enabled(s, a.g, a.choice) {
        InvStep(s, a.g, a.choice, depth0);
      }
      InvRun(Take(s, a), actions[1..], depth0);
    }
  }

  ghost predicate Reachable(s0: State, s: State) {
    IsInitial(s0) && exists actions: seq<Action> :: s == RunAll(s0, actions)
  }

  lemma ReachableInv(s0: State, s: State)
    requires Reachable(s0, s)
    ensures Inv(s, s0.sh.depth)
  {
    var actions: seq<Action> :| s == RunAll(s0, actions);
    InitialInv(s0);
    InvRun(s0, actions, s0.sh.depth);
  }
}
