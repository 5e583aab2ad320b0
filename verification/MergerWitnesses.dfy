/** Exactly which calls can leave a Stop waiting for ever, and the runs that do. */
module MergerWitnesses {
  import opened Options
  import opened Merger
  import opened MergerTheorems

  lemma {:induction false} RunAllConcat(s: State, a: seq<Action>, b: seq<Action>)
    ensures RunAll(s, a + b) == RunAll(RunAll(s, a), b)
    decreases |a|
  {
    if a == [] {
      assert a + b == b;
    } else {
      assert (a + b)[0] == a[0] && (a + b)[1..] == a[1..] + b;
      RunAllConcat(Take(s, a[0]), a[1..], b);
    }
  }

  // ---------- Stretches of one goroutine ----------

  /** A Run is called, mounts, and waits in its select. */
  lemma RunStarts(sh: Shared, p: Proc, g: nat)
    requires p.kind.Run? && p.pc.Idle? && sh.lock.None? && !sh.running
    ensures Unhindered(sh, p, g, Works, 6)
    ensures Solo(sh, p, g, Works, 6) ==
      (sh.(running := true, depth := sh.depth + 1), p.(pc := RunSelect, effect := true))
  {}

  /** A Stop is called, finds a Run running, and keeps the mutex while it wants to send. */
  lemma StopArrives(sh: Shared, p: Proc, g: nat)
    requires p.kind.Stop? && p.pc.Idle? && sh.lock.None? && sh.running
    ensures Unhindered(sh, p, g, Works, 3)
    ensures Solo(sh, p, g, Works, 3) == (sh.(lock := Some(g)), p.(pc := StopSend))
  {}

  /** A Run whose context is done clears the flag and returns. */
  lemma RunIsCancelled(sh: Shared, p: Proc, g: nat)
    requires p.pc.RunSelect? && p.cancellable && sh.lock.None?
    ensures Unhindered(sh, p, g, ContextDone, 4)
    ensures Solo(sh, p, g, ContextDone, 4) == (sh.(running := false), p.(pc := Done))
  {}

  /** A Run that has taken a token clears the flag, confirms and returns. */
  lemma RunConfirms(sh: Shared, p: Proc, g: nat)
    requires p.pc == RunClearLock(true) && sh.lock.None? && sh.stopped == 0
    ensures Unhindered(sh, p, g, Works, 4)
    ensures Solo(sh, p, g, Works, 4) == (sh.(running := false, stopped := 1), p.(pc := Done))
  {}

  /** A Run or CleanUp that finds the flag set, or a Stop that finds it cleared, returns at once. */
  predicate MayReturn(p: Proc, running: bool) {
    p.pc.Idle? && (p.kind.Stop? <==> !running)
  }

  lemma ReturnsAtOnce(sh: Shared, p: Proc, g: nat)
    requires MayReturn(p, sh.running) && sh.lock.None?
    ensures Unhindered(sh, p, g, Works, 3)
    ensures Solo(sh, p, g, Works, 3) == (sh, p.(pc := Done))
  {}

  // ---------- Composing runs ----------

  /** Goroutine g makes k moves alone. */
  lemma Extend(s0: State, s: State, g: nat, choice: Choice, k: nat) returns (s': State)
    requires Reachable(s0, s) && g < |s.procs| && Unhindered(s.sh, s.procs[g], g, choice, k)
    ensures Reachable(s0, s')
    ensures var (sh, p) := Solo(s.sh, s.procs[g], g, choice, k); s' == State(sh, s.procs[g := p])
  {
    var done: seq<Action> :| s == RunAll(s0, done);
    SoloIsRun(s, g, choice, k);
    RunAllConcat(s0, done, Repeated(g, choice, k));
    s' := RunAll(s0, done + Repeated(g, choice, k));
  }

  lemma One(s0: State, s: State, g: nat, choice: Choice) returns (s': State)
    requires Reachable(s0, s) && Enabled(s, g, choice)
    ensures Reachable(s0, s') && s' == Step(s, g, choice)
  {
    var done: seq<Action> :| s == RunAll(s0, done);
    var a := Action(g, choice);
    RunAllConcat(s0, done, [a]);
    assert [a][1..] == [];
    assert RunAll(s, [a]) == RunAll(Take(s, a), []) == Take(s, a);
    s' := RunAll(s0, done + [a]);
  }

  lemma RunUp(s0: State, s: State, g: nat) returns (s': State)
    requires Reachable(s0, s) && g < |s.procs| && s.procs[g].kind.Run? && s.procs[g].pc.Idle?
    requires s.sh.lock.None? && !s.sh.running
    ensures Reachable(s0, s') && s'.sh == s.sh.(running := true, depth := s.sh.depth + 1)
    ensures s'.procs == s.procs[g := s.procs[g].(pc := RunSelect, effect := true)]
  {
    RunStarts(s.sh, s.procs[g], g);
    s' := Extend(s0, s, g, Works, 6);
  }

  lemma StopUp(s0: State, s: State, g: nat) returns (s': State)
    requires Reachable(s0, s) && g < |s.procs| && s.procs[g].kind.Stop? && s.procs[g].pc.Idle?
    requires s.sh.lock.None? && s.sh.running
    ensures Reachable(s0, s') && s'.sh == s.sh.(lock := Some(g))
    ensures s'.procs == s.procs[g := s.procs[g].(pc := StopSend)]
  {
    StopArrives(s.sh, s.procs[g], g);
    s' := Extend(s0, s, g, Works, 3);
  }

  /** A Stop at its send puts its token into the free channel and releases the mutex. */
  lemma StopSends(s0: State, s: State, g: nat) returns (s': State)
    requires Reachable(s0, s) && g < |s.procs| && s.procs[g].pc.StopSend? && s.sh.manualStop == 0
    ensures Reachable(s0, s') && s'.sh == s.sh.(manualStop := 1, lock := None)
    ensures s'.procs == s.procs[g := s.procs[g].(pc := StopWait, target := RunInSpan(s.procs))]
  {
    s' := One(s0, s, g, Works);
    assert s'.procs[g].pc == StopUnlock;
    s' := One(s0, s', g, Works);
  }

  lemma StopSent(s0: State, s: State, g: nat) returns (s': State)
    requires Reachable(s0, s) && g < |s.procs| && s.procs[g].kind.Stop? && s.procs[g].pc.Idle?
    requires s.sh.lock.None? && s.sh.running && s.sh.manualStop == 0
    ensures Reachable(s0, s') && s'.sh == s.sh.(manualStop := 1) && |s'.procs| == |s.procs|
    ensures s'.procs[g].kind.Stop? && s'.procs[g].pc.StopWait?
    ensures forall i | 0 <= i < |s.procs| && i != g :: s'.procs[i] == s.procs[i]
  {
    var m := StopUp(s0, s, g);
    s' := StopSends(s0, m, g);
  }

  lemma TakesToken(s0: State, s: State, r: nat) returns (s': State)
    requires Reachable(s0, s) && r < |s.procs| && s.procs[r].pc.RunSelect? && s.sh.manualStop == 1
    ensures Reachable(s0, s') && s'.sh == s.sh.(manualStop := 0)
    ensures s'.procs == s.procs[r := s.procs[r].(pc := RunClearLock(true))]
  {
    s' := One(s0, s, r, Works);
  }

  lemma RunCancelled(s0: State, s: State, g: nat) returns (s': State)
    requires Reachable(s0, s) && g < |s.procs| && s.procs[g].pc.RunSelect? && s.procs[g].cancellable && s.sh.lock.None?
    ensures Reachable(s0, s') && s'.sh == s.sh.(running := false)
    ensures s'.procs == s.procs[g := s.procs[g].(pc := Done)]
  {
    RunIsCancelled(s.sh, s.procs[g], g);
    s' := Extend(s0, s, g, ContextDone, 4);
  }

  lemma RunConfirmed(s0: State, s: State, g: nat) returns (s': State)
    requires Reachable(s0, s) && g < |s.procs| && s.procs[g].pc == RunClearLock(true) && s.sh.lock.None?
    requires s.sh.stopped == 0
    ensures Reachable(s0, s') && s'.sh == s.sh.(running := false, stopped := 1)
    ensures s'.procs == s.procs[g := s.procs[g].(pc := Done)]
  {
    RunConfirms(s.sh, s.procs[g], g);
    s' := Extend(s0, s, g, Works, 4);
  }

  function Called(kind: Kind, cancellable: bool): Proc {
    Proc(kind, Idle, false, 0, cancellable)
  }

  lemma Begin(s0: State)
    requires IsInitial(s0)
    ensures Reachable(s0, s0)
  {
    assert s0 == RunAll(s0, []);
  }

  /** What is left to move after every goroutine below n that can return at once has done so. */
  ghost predicate Returned(s: State, s': State, n: nat) {
    && s'.sh == s.sh && |s'.procs| == |s.procs|
    && forall i | 0 <= i < |s.procs| ::
      s'.procs[i] == if i < n && MayReturn(s.procs[i], s.sh.running) then s.procs[i].(pc := Done) else s.procs[i]
  }

  lemma {:induction false} LetReturn(s0: State, s: State, n: nat) returns (s': State)
    requires Reachable(s0, s) && s.sh.lock.None? && n <= |s.procs|
    ensures Reachable(s0, s') && Returned(s, s', n)
    decreases n
  {
    s' := s;
    if n > 0 {
      s' := LetReturn(s0, s, n - 1);
      if MayReturn(s.procs[n - 1], s.sh.running) {
        ReturnsAtOnce(s'.sh, s'.procs[n - 1], n - 1);
        s' := Extend(s0, s', n - 1, Works, 3);
      }
    }
  }

  /** Run r waits in its select, and of the other calls only the Stops are still to be made. */
  ghost predicate OnlyStopsToCome(s0: State, s: State, r: nat) {
    && Reachable(s0, s) && |s.procs| == |s0.procs| && r < |s.procs|
    && s.sh == s0.sh.(running := true, depth := s0.sh.depth + 1)
    && s.procs[r] == s0.procs[r].(pc := RunSelect, effect := true)
    && forall i | 0 <= i < |s.procs| && i != r ::
      s.procs[i] == if s0.procs[i].kind.Stop? then s0.procs[i] else s0.procs[i].(pc := Done)
  }

  lemma OthersReturn(s0: State, r: nat) returns (s: State)
    requires IsInitial(s0) && r < |s0.procs| && s0.procs[r].kind.Run?
    ensures OnlyStopsToCome(s0, s, r)
  {
    Begin(s0);
    var s1 := RunUp(s0, s0, r);
    s := LetReturn(s0, s1, |s1.procs|);
  }

  /** All goroutines but g have returned, and g waits for a confirmation. */
  predicate OnlyWaits(s: State, g: nat) {
    && g < |s.procs| && s.procs[g].pc.StopWait? && s.sh.stopped == 0
    && forall i | 0 <= i < |s.procs| && i != g :: s.procs[i].pc.Done?
  }

  lemma WaitsForEver(s: State, g: nat)
    requires OnlyWaits(s, g)
    ensures Quiet(s)
  {
    forall h: nat, choice: Choice ensures !Enabled(s, h, choice) {
      if h < |s.procs| && h != g {
        assert s.procs[h].pc.Done?;
      }
    }
  }

  // ---------- Overlapping Stops ----------

  /** Any Run with any two Stops, whatever else is called: when the Stops overlap, the run can come to
      rest with everything done and the second Stop waiting for ever. */
  lemma OverlappingStopsStrandOne(s0: State, r: nat, g1: nat, g2: nat) returns (s: State)
    requires IsInitial(s0) && r < |s0.procs| && g1 < |s0.procs| && g2 < |s0.procs| && g1 != g2
    requires s0.procs[r].kind.Run? && s0.procs[g1].kind.Stop? && s0.procs[g2].kind.Stop?
    ensures Reachable(s0, s) && |s.procs| == |s0.procs| && Quiet(s) && OnlyWaits(s, g2)
  {
    var s1 := BothStopsSend(s0, r, g1, g2);
    var s2 := RunConfirmed(s0, s1, r);
    var s3 := One(s0, s2, g1, Works);
    s := LetReturn(s0, s3, |s3.procs|);
    WaitsForEver(s, g2);
  }

  /** The Run takes the token of the first Stop, and before it clears the flag the second one sends. */
  lemma BothStopsSend(s0: State, r: nat, g1: nat, g2: nat) returns (s: State)
    requires IsInitial(s0) && r < |s0.procs| && g1 < |s0.procs| && g2 < |s0.procs| && g1 != g2
    requires s0.procs[r].kind.Run? && s0.procs[g1].kind.Stop? && s0.procs[g2].kind.Stop?
    ensures Reachable(s0, s) && |s.procs| == |s0.procs| && s.sh.lock.None? && s.sh.running
    ensures s.sh.manualStop == 1 && s.sh.stopped == 0
    ensures s.procs[r].pc == RunClearLock(true) && s.procs[g1].pc.StopWait? && s.procs[g2].pc.StopWait?
    ensures forall i | 0 <= i < |s.procs| && i != r && i != g1 && i != g2 ::
      s.procs[i].pc.Done? || (s.procs[i].kind.Stop? && s.procs[i].pc.Idle?)
  {
    var s1 := OthersReturn(s0, r);
    var s2 := StopSent(s0, s1, g1);
    var s3 := TakesToken(s0, s2, r);
    s := StopSent(s0, s3, g2);
  }

  // ---------- A Stop racing with cancellation ----------

  /** Any Stop with any Run whose context can be done, whatever else is called: when the Run leaves
      through its context after the token was sent, the Stop waits for ever. */
  lemma CancelledRunStrandsStop(s0: State, r: nat, g: nat) returns (s: State)
    requires IsInitial(s0) && r < |s0.procs| && g < |s0.procs|
    requires s0.procs[r].kind.Run? && s0.procs[r].cancellable && s0.procs[g].kind.Stop?
    ensures Reachable(s0, s) && |s.procs| == |s0.procs| && Quiet(s) && OnlyWaits(s, g)
  {
    var s1 := OthersReturn(s0, r);
    var s2 := StopSent(s0, s1, g);
    var s3 := RunCancelled(s0, s2, r);
    s := LetReturn(s0, s3, |s3.procs|);
    WaitsForEver(s, g);
  }

  /** Exactly when is it safe to call Stop?  Whatever the interleaving, every Stop of a set of calls
      returns, exactly when there is no Run among them, or no Stop, or just one Stop and no Run
      whose context can be done. */
  lemma StopsReturnIff(s0: State)
    requires IsInitial(s0)
    ensures StopsReturn(s0) <==> Harmless(s0.procs)
  {
    if Harmless(s0.procs) {
      HarmlessCallsReturn(s0);
    } else {
      var s, g := HarmfulCallsHang(s0);
      assert !StopsReturn(s0);
    }
  }

  lemma HarmfulCallsHang(s0: State) returns (s: State, g: nat)
    requires IsInitial(s0) && !Harmless(s0.procs)
    ensures Reachable(s0, s) && Quiet(s) && g < |s.procs| && UnfinishedStop(s.procs[g])
  {
    var r: nat :| r < |s0.procs| && s0.procs[r].kind.Run?;
    g :| 0 <= g < |s0.procs| && s0.procs[g].kind.Stop?;
    if c: nat :| c < |s0.procs| && s0.procs[c].kind.Run? && s0.procs[c].cancellable {
      s := CancelledRunStrandsStop(s0, c, g);
    } else {
      var g1: nat, g2: nat :| g1 < |s0.procs| && g2 < |s0.procs| && g1 != g2
        && s0.procs[g1].kind.Stop? && s0.procs[g2].kind.Stop?;
      s := OverlappingStopsStrandOne(s0, r, g1, g2);
      g := g2;
    }
    var actions: seq<Action> :| s == RunAll(s0, actions);
    CallsStay(s0, actions);
  }

  /** Stops do not overlap in sending, but a Run leaves through its context after a token was
      sent.  The token stays; the next Stop blocks on the full channel with the mutex held, the
      running Run cannot clear the flag, CleanUp cannot unmount: everything hangs. */
  lemma CancellationCanHangEverything(depth: nat) returns (s0: State, s: State)
    ensures s0 == State(Shared(None, false, 0, 0, depth),
      [Called(Run, true), Called(Stop, false), Called(Run, true), Called(Stop, false), Called(CleanUp, false)])
    ensures Reachable(s0, s) && Quiet(s) && |s.procs| == 5 && s.sh.lock == Some(3) && s.sh.depth == depth + 2
    ensures s.procs[1].pc.StopWait? && s.procs[2].pc.RunClearLock? && s.procs[3].pc.StopSend?
    ensures s.procs[4].pc.CleanLock?
  {
    var m: State;
    s0, m := TokenIsLeft(depth);
    var s1 := RunUp(s0, m, 2);
    var s2 := StopUp(s0, s1, 3);
    var s3 := One(s0, s2, 2, ContextDone);
    s := One(s0, s3, 4, Works);
    QuietAfterCancellation(s);
  }

  lemma TokenIsLeft(depth: nat) returns (s0: State, s: State)
    ensures s0 == State(Shared(None, false, 0, 0, depth),
      [Called(Run, true), Called(Stop, false), Called(Run, true), Called(Stop, false), Called(CleanUp, false)])
    ensures Reachable(s0, s) && |s.procs| == 5 && s.sh == Shared(None, false, 1, 0, depth + 1)
    ensures s.procs[0].pc.Done? && s.procs[1].pc.StopWait?
    ensures s.procs[2] == s0.procs[2] && s.procs[3] == s0.procs[3] && s.procs[4] == s0.procs[4]
  {
    s0 := State(Shared(None, false, 0, 0, depth),
      [Called(Run, true), Called(Stop, false), Called(Run, true), Called(Stop, false), Called(CleanUp, false)]);
    Begin(s0);
    var s1 := RunUp(s0, s0, 0);
    var s2 := StopUp(s0, s1, 1);
    var s3 := StopSends(s0, s2, 1);
    s := RunCancelled(s0, s3, 0);
  }

  lemma QuietAfterCancellation(s: State)
    requires |s.procs| == 5 && s.sh.lock == Some(3) && s.sh.manualStop == 1 && s.sh.stopped == 0
    requires s.procs[0].pc.Done? && s.procs[1].pc.StopWait? && s.procs[2].pc.RunClearLock?
    requires s.procs[3].pc.StopSend? && s.procs[4].pc.CleanLock?
    ensures Quiet(s)
  {}
}
