/** What holds of the merger in every interleaving, when Stop is sure to return, and runs in
    which it is not. */
module MergerTheorems {
  import opened Options
  import opened Merger

  // ---------- One goroutine moving alone ----------

  function Repeated(g: nat, choice: Choice, k: nat): seq<Action> {
    if k == 0 then [] else [Action(g, choice)] + Repeated(g, choice, k - 1)
  }

  /** Up to k moves of goroutine g with nobody else moving; a send is not among them. */
  function Solo(sh: Shared, p: Proc, g: nat, choice: Choice, k: nat): (Shared, Proc)
    decreases k
  {
    if k == 0 || p.pc.StopSend? || !CanMove(sh, p, choice) then (sh, p)
    else
      var (sh', p') := Move(sh, p, g, choice, 0);
      Solo(sh', p', g, choice, k - 1)
  }

  /** Solo makes all its k moves. */
  predicate Unhindered(sh: Shared, p: Proc, g: nat, choice: Choice, k: nat)
    decreases k
  {
    k == 0 || (
      && !p.pc.StopSend? && CanMove(sh, p, choice)
      && var (sh', p') := Move(sh, p, g, choice, 0);
      Unhindered(sh', p', g, choice, k - 1))
  }

  lemma {:induction false} SoloIsRun(s: State, g: nat, choice: Choice, k: nat)
    requires g < |s.procs| && Unhindered(s.sh, s.procs[g], g, choice, k)
    ensures var (sh, p) := Solo(s.sh, s.procs[g], g, choice, k);
      RunAll(s, Repeated(g, choice, k)) == State(sh, s.procs[g := p])
    decreases k
  {
    if k == 0 {
      assert s.procs[g := s.procs[g]] == s.procs;
    } else {
      var (sh, p) := Move(s.sh, s.procs[g], g, choice, 0);
      SpanningIsForSends(s.sh, s.procs[g], g, choice, RunInSpan(s.procs));
      var t := Take(s, Action(g, choice));
      assert t == State(sh, s.procs[g := p]);
      SoloIsRun(t, g, choice, k - 1);
      var last := Solo(sh, p, g, choice, k - 1).1;
      assert t.procs[g := last] == s.procs[g := last];
      assert Repeated(g, choice, k)[1..] == Repeated(g, choice, k - 1);
    }
  }

  lemma SpanningIsForSends(sh: Shared, p: Proc, g: nat, choice: Choice, spanning: nat)
    requires CanMove(sh, p, choice) && !p.pc.StopSend?
    ensures Move(sh, p, g, choice, spanning) == Move(sh, p, g, choice, 0)
  {}

  lemma CleanUpSolo(sh: Shared, p: Proc, g: nat)
    requires p.kind.CleanUp? && p.pc.Idle? && sh.lock.None? && !sh.running && sh.depth > 0
    ensures Unhindered(sh, p, g, Works, 5)
    ensures Solo(sh, p, g, Works, 5) == (sh.(depth := sh.depth - 1), p.(pc := Done, effect := true))
  {}

  // ---------- Safety ----------

  /** The flag is set exactly while one Run is between setting and clearing it, and the union
      is mounted all that time. */
  lemma RunningMeansOneMountedRun(s0: State, s: State)
    requires Reachable(s0, s)
    ensures s.sh.running <==> exists i | 0 <= i < |s.procs| :: InSpan(s.procs[i])
    ensures forall i, j | 0 <= i < |s.procs| && 0 <= j < |s.procs| && InSpan(s.procs[i]) && InSpan(s.procs[j]) :: i == j
    ensures s.sh.running ==> s.sh.depth > 0
  {
    ReachableInv(s0, s);
    if s.sh.running {
      var w := CountWitness(s.procs, Spanning);
    }
    forall i, j | 0 <= i < |s.procs| && 0 <= j < |s.procs| && InSpan(s.procs[i]) && InSpan(s.procs[j]) ensures i == j {
      if i < j {
        TwoCount(s.procs, i, j, Spanning);
      } else if j < i {
        TwoCount(s.procs, j, i, Spanning);
      }
    }
  }

  lemma {:induction false} TwoCount(procs: seq<Proc>, i: nat, j: nat, f: Proc -> int)
    requires i < j < |procs| && f(procs[i]) == 1 && f(procs[j]) == 1
    requires forall k | 0 <= k < |procs| :: f(procs[k]) >= 0
    ensures Count(procs, f) >= 2
    decreases |procs|
  {
    if i == 0 {
      CountNonNegative(procs[1..], f);
      assert procs[1..][j - 1] == procs[j];
    } else {
      TwoCount(procs[1..], i - 1, j - 1, f);
    }
  }

  /** Nothing unmounts the union while a Run is running. */
  lemma NoUnmountWhileRunning(s0: State, s: State, g: nat, choice: Choice)
    requires Reachable(s0, s) && Enabled(s, g, choice) && s.sh.running
    ensures Step(s, g, choice).sh.depth >= s.sh.depth
  {
    ReachableInv(s0, s);
    assert FlagOk(s.procs[g], s.sh.running);
  }

  /** The mount depth is the initial one plus the Runs that merged minus the CleanUps that
      unmerged; so a command that runs and cleans up leaves the path as it found it. */
  lemma DepthIsConserved(s0: State, s: State)
    requires Reachable(s0, s)
    ensures s.sh.depth == s0.sh.depth + Count(s.procs, Mounted)
    ensures |s.procs| == 2 && s.procs[0].kind.Run? && s.procs[1].kind.CleanUp? && s.procs[0].effect && s.procs[1].effect
      ==> s.sh.depth == s0.sh.depth
  {
    ReachableInv(s0, s);
    if |s.procs| == 2 {
      CountOfTwo(s.procs, Mounted);
    }
  }

  lemma CountOfTwo(procs: seq<Proc>, f: Proc -> int)
    requires |procs| == 2
    ensures Count(procs, f) == f(procs[0]) + f(procs[1])
  {
    assert procs[1..][1..] == [];
    assert Count(procs[1..], f) == f(procs[1]) + Count(procs[1..][1..], f);
  }

  /** After Run has returned, a CleanUp whose unmount works takes the mount away. */
  lemma CleanUpAfterRun(s0: State, s: State)
    requires Reachable(s0, s) && |s.procs| == 2
    requires s.procs[0].kind.Run? && s.procs[0].pc.Done? && s.procs[0].effect
    requires s.procs[1].kind.CleanUp? && s.procs[1].pc.Idle?
    ensures var s' := RunAll(s, Repeated(1, Works, 5));
      s'.sh.depth == s0.sh.depth && |s'.procs| == 2 && s'.procs[1].pc.Done? && s'.sh.lock.None?
  {
    DepthIsConserved(s0, s);
    RunningMeansOneMountedRun(s0, s);
    ReachableInv(s0, s);
    assert ProcOk(s.procs[1]);
    CountOfTwo(s.procs, Mounted);
    assert s.sh.depth == s0.sh.depth + 1 && s.sh.lock.None? && !s.sh.running;
    CleanUpSolo(s.sh, s.procs[1], 1);
    SoloIsRun(s, 1, Works, 5);
  }

  // ---------- Conservation of the handshake ----------

  /** Every Stop that has sent and is not confirmed has its token somewhere: in manualStop, with
      a Run that took it, or, as a confirmation, in stopped.  Cancellation does not matter. */
  lemma HandshakeIsConserved(s0: State, s: State)
    requires Reachable(s0, s)
    ensures Count(s.procs, Awaiting) == s.sh.manualStop + Count(s.procs, Holding) + s.sh.stopped
    ensures s.sh.manualStop <= 1 && s.sh.stopped <= 1
  {
    ReachableInv(s0, s);
  }

  /** A Run that finds `stopped` full can count on a Stop that will empty it. */
  lemma FullStoppedHasATaker(s0: State, s: State, g: nat) returns (h: nat)
    requires Reachable(s0, s) && g < |s.procs| && s.procs[g].pc.RunConfirm? && s.sh.stopped == 1
    ensures h < |s.procs| && Awaits(s.procs[h])
  {
    ReachableInv(s0, s);
    CountNonNegative(s.procs, Holding);
    h := CountWitness(s.procs, Awaiting);
  }

  /** When no Run is live and no confirmation is left, at most one Stop is stranded, and there
      is one exactly if its token is still in the channel. */
  lemma AtMostOneStranded(s0: State, s: State)
    requires Reachable(s0, s) && s.sh.stopped == 0
    requires forall i | 0 <= i < |s.procs| :: !IsLive(s.procs[i])
    ensures Count(s.procs, Awaiting) == s.sh.manualStop <= 1
  {
    ReachableInv(s0, s);
    forall i | 0 <= i < |s.procs| ensures Holding(s.procs[i]) == 0 {
      assert ProcOk(s.procs[i]);
    }
    CountZero(s.procs, Holding);
  }

  // ---------- When a Stop is stranded ----------

  /** Nothing can move any more. */
  ghost predicate Quiet(s: State) {
    forall g: nat, choice: Choice :: !Enabled(s, g, choice)
  }

  /** In a state where nothing can move, whoever holds the mutex is a Stop at a full channel. */
  lemma QuietHolder(s: State, depth0: int)
    requires Inv(s, depth0) && Quiet(s) && s.sh.lock.Some?
    ensures s.procs[s.sh.lock.value].pc.StopSend? && s.sh.manualStop == 1
  {
    var h := s.sh.lock.value;
    assert InLock(s.procs[h]);
    assert !Enabled(s, h, Works);
  }

  // ---------- Progress without overlap and cancellation ----------

  /** One Stop at a time. */
  predicate Calm(s: State) {
    forall i, j | 0 <= i < |s.procs| && 0 <= j < |s.procs| ::
      UnfinishedStop(s.procs[i]) && UnfinishedStop(s.procs[j]) ==> i == j
  }

  /** A Run leaves its select because its context is done. */
  predicate Cancels(s: State, a: Action) {
    Enabled(s, a.g, a.choice) && s.procs[a.g].pc.RunSelect? && a.choice.ContextDone?
  }

  /** No two Stops overlap, and no Run is cancelled; contexts that could be done there may be. */
  ghost predicate CalmRun(s: State, actions: seq<Action>)
    decreases |actions|
  {
    Calm(s) && (actions != [] ==> !Cancels(s, actions[0]) && CalmRun(Take(s, actions[0]), actions[1..]))
  }

  predicate Cancelled(pc: Pc) {
    (pc.RunClearLock? && !pc.token) || (pc.RunClear? && !pc.token) || (pc.RunClearUnlock? && !pc.token)
  }

  /** The token of the one Stop is on its way to or from the Run that was running when it was
      sent; when the confirmation is there, that Run has returned. */
  predicate OnItsWay(s: State, p: Proc) {
    && p.target < |s.procs|
    && var r := s.procs[p.target];
    && r.kind.Run?
    && (s.sh.manualStop == 1 ==> r.pc.RunSelect?)
    && (s.sh.manualStop == 0 && s.sh.stopped == 0 ==> HoldsToken(r))
    && (s.sh.stopped == 1 ==> r.pc.Done?)
  }

  predicate CalmInv(s: State) {
    && (forall i | 0 <= i < |s.procs| :: !Cancelled(s.procs[i].pc))
    && (forall i | 0 <= i < |s.procs| && Awaits(s.procs[i]) :: OnItsWay(s, s.procs[i]))
  }

  /** With one Stop at a time at most one token is about. */
  lemma OneToken(s: State, depth0: int)
    requires Inv(s, depth0) && Calm(s)
    ensures Count(s.procs, Awaiting) <= 1
  {
    if Count(s.procs, Awaiting) > 1 {
      var i, j := TwoWitnesses(s.procs, Awaiting);
      assert false;
    }
  }

  lemma {:induction false} TwoWitnesses(procs: seq<Proc>, f: Proc -> int) returns (i: nat, j: nat)
    requires Count(procs, f) > 1 && forall i | 0 <= i < |procs| :: f(procs[i]) <= 1
    ensures i < j < |procs| && f(procs[i]) == 1 && f(procs[j]) == 1
    decreases |procs|
  {
    if f(procs[0]) == 1 {
      i := 0;
      j := CountWitness(procs[1..], f);
    } else {
      i, j := TwoWitnesses(procs[1..], f);
      i := i + 1;
    }
    j := j + 1;
  }

  /** A token taken by a Run excludes one in a channel. */
  lemma OnePlace(s: State, depth0: int, h: nat)
    requires Inv(s, depth0) && Calm(s) && h < |s.procs| && HoldsToken(s.procs[h])
    ensures s.sh.manualStop == 0 && s.sh.stopped == 0
    ensures forall k | 0 <= k < |s.procs| && HoldsToken(s.procs[k]) :: k == h
  {
    OneToken(s, depth0);
    CountNonNegative(s.procs, Holding);
    assert Holding(s.procs[h]) == 1;
    forall k | 0 <= k < |s.procs| && HoldsToken(s.procs[k]) ensures k == h {
      if k < h {
        TwoCount(s.procs, k, h, Holding);
      } else if h < k {
        TwoCount(s.procs, h, k, Holding);
      }
    }
  }

  lemma {:induction false} RunInSpanFinds(procs: seq<Proc>, i: nat)
    requires i < |procs| && InSpan(procs[i])
    ensures RunInSpan(procs) < |procs| && InSpan(procs[RunInSpan(procs)])
    decreases |procs|
  {
    if !InSpan(procs[0]) {
      RunInSpanFinds(procs[1..], i - 1);
    }
  }

  /** With one Stop at a time no token is about when a Stop is going to send. */
  lemma NoTokenBeforeSend(s: State, g: nat, depth0: int)
    requires Inv(s, depth0) && Calm(s) && g < |s.procs| && s.procs[g].pc.StopSend?
    ensures Count(s.procs, Awaiting) == 0 && s.sh.manualStop == 0
  {
    CountNonNegative(s.procs, Awaiting);
    CountNonNegative(s.procs, Holding);
    assert ProcOk(s.procs[g]);
    if Count(s.procs, Awaiting) > 0 {
      var i := CountWitness(s.procs, Awaiting);
      assert false;
    }
  }

  /** When a Stop sends, the running Run is waiting in its select. */
  lemma SendMeetsSelect(s: State, g: nat, depth0: int)
    requires Inv(s, depth0) && Calm(s) && CalmInv(s)
    requires g < |s.procs| && s.procs[g].pc.StopSend? && s.sh.manualStop == 0
    ensures var r := RunInSpan(s.procs);
      r < |s.procs| && r != g && s.procs[r].kind.Run? && s.procs[r].pc.RunSelect? && s.sh.stopped == 0
  {
    assert InLock(s.procs[g]) && FlagOk(s.procs[g], s.sh.running);
    var w := CountWitness(s.procs, Spanning);
    RunInSpanFinds(s.procs, w);
    var r := RunInSpan(s.procs);
    assert ProcOk(s.procs[r]) && !Cancelled(s.procs[r].pc);
    assert InLock(s.procs[r]) ==> r == g;
    NoTokenBeforeSend(s, g, depth0);
    CountNonNegative(s.procs, Holding);
    assert Holding(s.procs[r]) <= 0;
  }

  lemma OneSpan(s: State, depth0: int, i: nat, j: nat)
    requires Inv(s, depth0) && i < |s.procs| && j < |s.procs| && InSpan(s.procs[i]) && InSpan(s.procs[j])
    ensures i == j
  {
    if i < j {
      TwoCount(s.procs, i, j, Spanning);
    } else if j < i {
      TwoCount(s.procs, j, i, Spanning);
    }
  }

  /** The one awaiting Stop's token stays on its way while another goroutine moves. */
  lemma OthersKeepItOnItsWay(s: State, g: nat, choice: Choice, depth0: int, i: nat)
    requires Inv(s, depth0) && Calm(s) && CalmInv(s) && Enabled(s, g, choice) && !Cancels(s, Action(g, choice))
    requires i < |s.procs| && i != g && Awaits(s.procs[i])
    ensures OnItsWay(Step(s, g, choice), s.procs[i])
  {
    var q, p := s.procs[i], s.procs[g];
    assert ProcOk(q) && ProcOk(p) && UnfinishedStop(q) && OnItsWay(s, q);
    assert !UnfinishedStop(p);
    if p.pc.RunSelect? {
      TakerKeepsItOnItsWay(s, g, choice, depth0, i);
    } else if HoldsToken(p) {
      HolderKeepsItOnItsWay(s, g, choice, depth0, i);
    } else {
      LeavesTokens(s.sh, p, g, choice, RunInSpan(s.procs));
    }
  }

  lemma LeavesTokens(sh: Shared, p: Proc, g: nat, choice: Choice, spanning: nat)
    requires CanMove(sh, p, choice) && ProcOk(p) && !p.pc.RunSelect? && !HoldsToken(p) && !UnfinishedStop(p)
    ensures var sh' := Move(sh, p, g, choice, spanning).0; sh'.manualStop == sh.manualStop && sh'.stopped == sh.stopped
  {}

  lemma TakerKeepsItOnItsWay(s: State, g: nat, choice: Choice, depth0: int, i: nat)
    requires Inv(s, depth0) && Calm(s) && CalmInv(s) && Enabled(s, g, choice) && !Cancels(s, Action(g, choice))
    requires i < |s.procs| && i != g && Awaits(s.procs[i]) && s.procs[g].pc.RunSelect?
    ensures OnItsWay(Step(s, g, choice), s.procs[i])
  {
    assert OnItsWay(s, s.procs[i]);
    OneSpan(s, depth0, g, s.procs[i].target);
  }

  lemma HolderKeepsItOnItsWay(s: State, g: nat, choice: Choice, depth0: int, i: nat)
    requires Inv(s, depth0) && Calm(s) && CalmInv(s) && Enabled(s, g, choice)
    requires i < |s.procs| && i != g && Awaits(s.procs[i]) && HoldsToken(s.procs[g])
    ensures OnItsWay(Step(s, g, choice), s.procs[i])
  {
    assert OnItsWay(s, s.procs[i]);
    OnePlace(s, depth0, g);
  }

  lemma CalmStep(s: State, g: nat, choice: Choice, depth0: int)
    requires Inv(s, depth0) && Calm(s) && CalmInv(s) && Enabled(s, g, choice) && !Cancels(s, Action(g, choice))
    ensures CalmInv(Step(s, g, choice))
  {
    var s' := Step(s, g, choice);
    assert ProcOk(s.procs[g]) && !Cancelled(s.procs[g].pc);
    assert !Cancelled(s'.procs[g].pc);
    forall i | 0 <= i < |s'.procs| && Awaits(s'.procs[i]) ensures OnItsWay(s', s'.procs[i]) {
      if i != g {
        assert s'.procs[i] == s.procs[i];
        OthersKeepItOnItsWay(s, g, choice, depth0, i);
      } else {
        OwnIsOnItsWay(s, g, choice, depth0);
      }
    }
  }

  lemma OwnIsOnItsWay(s: State, g: nat, choice: Choice, depth0: int)
    requires Inv(s, depth0) && Calm(s) && CalmInv(s) && Enabled(s, g, choice) && Awaits(Step(s, g, choice).procs[g])
    ensures OnItsWay(Step(s, g, choice), Step(s, g, choice).procs[g])
  {
    StartsToAwait(s.sh, s.procs[g], g, choice, RunInSpan(s.procs));
    if s.procs[g].pc.StopSend? {
      SentIsOnItsWay(s, g, choice, depth0);
    } else {
      assert OnItsWay(s, s.procs[g]);
    }
  }

  lemma StartsToAwait(sh: Shared, p: Proc, g: nat, choice: Choice, spanning: nat)
    requires CanMove(sh, p, choice) && Awaits(Move(sh, p, g, choice, spanning).1)
    ensures p.pc.StopSend? || p.pc.StopUnlock?
  {}

  lemma SentIsOnItsWay(s: State, g: nat, choice: Choice, depth0: int)
    requires Inv(s, depth0) && Calm(s) && CalmInv(s) && Enabled(s, g, choice) && s.procs[g].pc.StopSend?
    ensures OnItsWay(Step(s, g, choice), Step(s, g, choice).procs[g])
  {
    SendMeetsSelect(s, g, depth0);
  }

  lemma {:induction false} CalmRunInv(s: State, actions: seq<Action>, depth0: int)
    requires Inv(s, depth0) && CalmInv(s) && CalmRun(s, actions)
    ensures var s' := RunAll(s, actions); Inv(s', depth0) && CalmInv(s') && Calm(s')
    decreases |actions|
  {
    if actions != [] {
      var a := actions[0];
      if Enabled(s, a.g, a.choice) {
        InvStep(s, a.g, a.choice, depth0);
        CalmStep(s, a.g, a.choice, depth0);
      }
      CalmRunInv(Take(s, a), actions[1..], depth0);
    }
  }

  /** Reached without overlapping Stops and without a cancellation. */
  ghost predicate CalmlyReachable(s0: State, s: State) {
    IsInitial(s0) && exists actions: seq<Action> :: CalmRun(s0, actions) && s == RunAll(s0, actions)
  }

  lemma CalmlyReachableInv(s0: State, s: State)
    requires CalmlyReachable(s0, s)
    ensures Inv(s, s0.sh.depth) && CalmInv(s) && Calm(s)
  {
    var actions: seq<Action> :| CalmRun(s0, actions) && s == RunAll(s0, actions);
    InitialInv(s0);
    CalmRunInv(s0, actions, s0.sh.depth);
  }

  /** As long as a Stop has not returned, some goroutine that has been called can move. */
  lemma UnfinishedStopCanProgress(s0: State, s: State, g: nat) returns (h: nat)
    requires CalmlyReachable(s0, s) && g < |s.procs| && UnfinishedStop(s.procs[g])
    ensures Enabled(s, h, Works) && !s.procs[h].pc.Idle?
  {
    CalmlyReachableInv(s0, s);
    assert ProcOk(s.procs[g]);
    OneToken(s, s0.sh.depth);
    if s.sh.lock.Some? {
      h := s.sh.lock.value;
      assert InLock(s.procs[h]);
      if s.procs[h].pc.StopSend? {
        NoTokenBeforeSend(s, h, s0.sh.depth);
      }
    } else if s.procs[g].pc.StopLock? || s.sh.stopped == 1 {
      h := g;
      assert !InLock(s.procs[g]);
    } else {
      assert !InLock(s.procs[g]) && OnItsWay(s, s.procs[g]);
      h := s.procs[g].target;
      assert !InLock(s.procs[h]) && !Cancelled(s.procs[h].pc);
    }
  }

  /** A calm run that has come to rest has left no Stop waiting. */
  lemma CalmRestHasNoStop(s0: State, s: State, g: nat)
    requires CalmlyReachable(s0, s) && Quiet(s) && g < |s.procs|
    ensures !UnfinishedStop(s.procs[g])
  {
    if UnfinishedStop(s.procs[g]) {
      var h := UnfinishedStopCanProgress(s0, s, g);
      assert false;
    }
  }

  // ---------- Calls that never leave a Stop waiting ----------

  /** Every run of these calls that comes to rest has let every Stop return. */
  ghost predicate StopsReturn(s0: State) {
    forall s: State, g: nat :: Reachable(s0, s) && Quiet(s) && g < |s.procs| ==> !UnfinishedStop(s.procs[g])
  }

  /** What a caller can check of the calls that are made: no Run; or no Stop; or one Stop only and no
      Run whose context can be done. */
  predicate Harmless(procs: seq<Proc>) {
    || (forall i | 0 <= i < |procs| :: !procs[i].kind.Run?)
    || (forall i | 0 <= i < |procs| :: !procs[i].kind.Stop?)
    || OneStopNoCancel(procs)
  }

  predicate OneStopNoCancel(procs: seq<Proc>) {
    && (forall i, j | 0 <= i < |procs| && 0 <= j < |procs| && procs[i].kind.Stop? && procs[j].kind.Stop? :: i == j)
    && forall i | 0 <= i < |procs| && procs[i].kind.Run? :: !procs[i].cancellable
  }

  /** The same calls, wherever they stand. */
  ghost predicate SameCalls(before: seq<Proc>, after: seq<Proc>) {
    && |before| == |after|
    && forall i | 0 <= i < |before| :: before[i].kind == after[i].kind && before[i].cancellable == after[i].cancellable
  }

  lemma CallsStayStep(s: State, a: Action)
    ensures SameCalls(s.procs, Take(s, a).procs)
  {}

  lemma {:induction false} CallsStay(s: State, actions: seq<Action>)
    ensures SameCalls(s.procs, RunAll(s, actions).procs)
    decreases |actions|
  {
    if actions != [] {
      CallsStayStep(s, actions[0]);
      CallsStay(Take(s, actions[0]), actions[1..]);
    }
  }

  lemma {:induction false} OneStopIsCalm(s: State, actions: seq<Action>, depth0: int)
    requires OneStopNoCancel(s.procs) && Inv(s, depth0)
    ensures CalmRun(s, actions)
    decreases |actions|
  {
    OneStopIsCalmNow(s);
    if actions != [] {
      var a := actions[0];
      CallsStayStep(s, a);
      assert !Cancels(s, a) by {
        if Enabled(s, a.g, a.choice) {
          assert ProcOk(s.procs[a.g]);
        }
      }
      if Enabled(s, a.g, a.choice) {
        InvStep(s, a.g, a.choice, depth0);
      }
      OneStopIsCalm(Take(s, a), actions[1..], depth0);
    }
  }

  lemma OneStopIsCalmNow(s: State)
    requires OneStopNoCancel(s.procs)
    ensures Calm(s)
  {}

  /** Without a Run no Stop gets as far as to send. */
  predicate NothingSent(s: State) {
    && !s.sh.running && s.sh.manualStop == 0 && s.sh.stopped == 0
    && forall i | 0 <= i < |s.procs| :: !s.procs[i].kind.Run? && !s.procs[i].pc.StopSend? && !Awaits(s.procs[i])
  }

  lemma {:induction false} NothingSentStays(s: State, actions: seq<Action>, depth0: int)
    requires Inv(s, depth0) && NothingSent(s)
    ensures NothingSent(RunAll(s, actions))
    decreases |actions|
  {
    if actions != [] {
      var a := actions[0];
      if Enabled(s, a.g, a.choice) {
        assert ProcOk(s.procs[a.g]);
        InvStep(s, a.g, a.choice, depth0);
      }
      NothingSentStays(Take(s, a), actions[1..], depth0);
    }
  }

  lemma NoRunNoWait(s0: State, s: State, g: nat)
    requires Reachable(s0, s) && Quiet(s) && g < |s.procs|
    requires forall i | 0 <= i < |s0.procs| :: !s0.procs[i].kind.Run?
    ensures !UnfinishedStop(s.procs[g])
  {
    var actions: seq<Action> :| s == RunAll(s0, actions);
    InitialInv(s0);
    NothingSentStays(s0, actions, s0.sh.depth);
    ReachableInv(s0, s);
    if UnfinishedStop(s.procs[g]) {
      assert ProcOk(s.procs[g]) && !Enabled(s, g, Works);
      if s.sh.lock.Some? {
        QuietHolder(s, s0.sh.depth);
      }
      assert false;
    }
  }

  lemma HarmlessCallsReturn(s0: State)
    requires IsInitial(s0) && Harmless(s0.procs)
    ensures StopsReturn(s0)
  {
    forall s: State, g: nat | Reachable(s0, s) && Quiet(s) && g < |s.procs| ensures !UnfinishedStop(s.procs[g]) {
      var actions: seq<Action> :| s == RunAll(s0, actions);
      CallsStay(s0, actions);
      if OneStopNoCancel(s0.procs) {
        InitialInv(s0);
        OneStopIsCalm(s0, actions, s0.sh.depth);
        assert CalmlyReachable(s0, s);
        CalmRestHasNoStop(s0, s, g);
      } else if forall i | 0 <= i < |s0.procs| :: !s0.procs[i].kind.Run? {
        NoRunNoWait(s0, s, g);
      }
    }
  }

  /** The actions a goroutine has left; every step lowers the sum, so no run goes on for ever. */
  function Rank(p: Proc): int {
    match p.pc
    case Idle => 11
    case RunLock => 10 case RunCheck => 9 case RunMerge => 8 case RunSet => 7 case RunUnlock => 6 case RunSelect => 5
    case RunClearLock(_) => 4 case RunClear(_) => 3 case RunClearUnlock(_) => 2 case RunConfirm => 1
    case StopLock => 5 case StopCheck => 4 case StopSend => 3 case StopUnlock => 2 case StopWait => 1
    case CleanLock => 4 case CleanCheck => 3 case CleanUnmerge => 2 case CleanUnlock => 1
    case Done => 0
  }

  lemma MoveLowersRank(sh: Shared, p: Proc, g: nat, choice: Choice, spanning: nat)
    requires CanMove(sh, p, choice)
    ensures 0 <= Rank(Move(sh, p, g, choice, spanning).1) < Rank(p)
  {}

  lemma StepLowersRank(s: State, g: nat, choice: Choice)
    requires Enabled(s, g, choice)
    ensures 0 <= Count(Step(s, g, choice).procs, Rank) < Count(s.procs, Rank)
  {
    var s' := Step(s, g, choice);
    MoveLowersRank(s.sh, s.procs[g], g, choice, RunInSpan(s.procs));
    CountUpdate(s.procs, g, s'.procs[g], Rank);
    CountNonNegative(s'.procs, Rank);
  }

  /** When a Stop gets its confirmation, the Run that was running when it sent its token has
      cleared the flag and returned. */
  lemma StopReturnsAfterItsRun(s0: State, s: State, g: nat)
    requires CalmlyReachable(s0, s) && Enabled(s, g, Works) && s.procs[g].pc.StopWait?
    ensures var s' := Step(s, g, Works);
      && s'.procs[g].pc.Done? && s'.procs[g].target < |s'.procs|
      && s'.procs[s'.procs[g].target].kind.Run? && s'.procs[s'.procs[g].target].pc.Done?
  {
    CalmlyReachableInv(s0, s);
    assert OnItsWay(s, s.procs[g]) && ProcOk(s.procs[g]);
  }
}
