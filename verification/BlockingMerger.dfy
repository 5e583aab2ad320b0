/**
 Run, Stop and CleanUp as one goroutine executes them while any others move in between.
 Each is proved to take exactly the steps of its goroutine in Merger, so the theorems about
 its runs hold of the code.
 */
module BlockingMerger {
  import opened Options
  import opened Merger
  import opened MergerTheorems
  import opened MergerWitnesses

  /** How a call ends: Go's nil, an error, or never. */
  datatype Result = Nil | Error | Blocked

  /** What happens before an action: actions of other goroutines, then how the outside answers. */
  datatype Turn = Turn(others: seq<Action>, choice: Choice)

  ghost predicate NotBy(actions: seq<Action>, g: nat) {
    forall i | 0 <= i < |actions| :: actions[i].g != g
  }

  lemma {:induction false} OthersKeepProc(s: State, actions: seq<Action>, g: nat, depth0: int)
    requires NotBy(actions, g) && g < |s.procs| && Inv(s, depth0)
    ensures g < |RunAll(s, actions).procs| && RunAll(s, actions).procs[g] == s.procs[g]
    ensures Inv(RunAll(s, actions), depth0)
    decreases |actions|
  {
    InvRun(s, actions, depth0);
    if actions != [] {
      var a := actions[0];
      if Enabled(s, a.g, a.choice) {
        InvStep(s, a.g, a.choice, depth0);
      }
      assert NotBy(actions[1..], g) by {
        assert forall i | 0 <= i < |actions[1..]| :: actions[1..][i] == actions[i + 1];
      }
      OthersKeepProc(Take(s, a), actions[1..], g, depth0);
    }
  }

  /** The move, but for the bookkeeping of which Run was running. */
  predicate Moves(sh: Shared, p: Proc, g: nat, choice: Choice, sh': Shared, p': Proc)
    requires CanMove(sh, p, choice)
  {
    var (sh1, p1) := Move(sh, p, g, choice, 0);
    sh' == sh1 && p'.kind == p1.kind && p'.pc == p1.pc && p'.effect == p1.effect
  }

  /** What a goroutine waits for: the mutex, which another one holds; a token or the end of its context; room in a
      channel, which is full; a confirmation. */
  predicate Waits(sh: Shared, p: Proc) {
    match p.pc
    case RunLock => sh.lock.Some?
    case RunClearLock(_) => sh.lock.Some?
    case StopLock => sh.lock.Some?
    case CleanLock => sh.lock.Some?
    case RunSelect => sh.manualStop == 0 && !p.cancellable
    case RunConfirm => sh.stopped > 0
    case StopSend => sh.manualStop > 0
    case StopWait => sh.stopped == 0
    case _ => false
  }

  /** The actions that never have to wait. */
  predicate NeverWaits(pc: Pc) {
    || pc.RunCheck? || pc.RunMerge? || pc.RunSet? || pc.RunUnlock? || pc.RunClear? || pc.RunClearUnlock?
    || pc.StopCheck? || pc.StopUnlock? || pc.CleanCheck? || pc.CleanUnmerge? || pc.CleanUnlock?
  }

  /** That, or being done, is all that keeps a goroutine from acting. */
  lemma WaitsIff(s: State, g: nat)
    requires g < |s.procs|
    ensures (forall choice: Choice :: !Enabled(s, g, choice)) <==> Waits(s.sh, s.procs[g]) || s.procs[g].pc.Done?
  {
    assert CanMove(s.sh, s.procs[g], Works) ==> Enabled(s, g, Works);
    assert CanMove(s.sh, s.procs[g], ContextDone) ==> Enabled(s, g, ContextDone);
  }

  /** An action that a goroutine has taken: where, how it was answered, and what it met. */
  datatype Taken = Taken(pc: Pc, choice: Choice, met: Shared)

  /** The actions of goroutine g among these, in order. */
  ghost function TakenBy(s: State, actions: seq<Action>, g: nat): seq<Taken>
    decreases |actions|
  {
    if actions == [] then []
    else
      (if actions[0].g == g && Enabled(s, g, actions[0].choice)
      then [Taken(s.procs[g].pc, actions[0].choice, s.sh)] else []) + TakenBy(Take(s, actions[0]), actions[1..], g)
  }

  lemma {:induction false} TakenConcat(s: State, a: seq<Action>, b: seq<Action>, g: nat)
    ensures TakenBy(s, a + b, g) == TakenBy(s, a, g) + TakenBy(RunAll(s, a), b, g)
    decreases |a|
  {
    if a == [] {
      assert a + b == b;
    } else {
      assert (a + b)[0] == a[0] && (a + b)[1..] == a[1..] + b;
      TakenConcat(Take(s, a[0]), a[1..], b, g);
    }
  }

  lemma {:induction false} NoneTaken(s: State, actions: seq<Action>, g: nat)
    requires NotBy(actions, g)
    ensures TakenBy(s, actions, g) == []
    decreases |actions|
  {
    if actions != [] {
      assert NotBy(actions[1..], g) by {
        assert forall i | 0 <= i < |actions[1..]| :: actions[1..][i] == actions[i + 1];
      }
      NoneTaken(Take(s, actions[0]), actions[1..], g);
    }
  }

  /** One of the actions was at pc and was answered like this. */
  ghost predicate Answered(taken: seq<Taken>, pc: Pc, choice: Choice) {
    exists t | t in taken :: t.pc == pc && t.choice == choice
  }

  /** One of the actions was at pc and found the flag like this. */
  ghost predicate FoundFlag(taken: seq<Taken>, pc: Pc, running: bool) {
    exists t | t in taken :: t.pc == pc && t.met.running == running
  }

  /** One of the actions was at pc, and did not fail. */
  ghost predicate Did(taken: seq<Taken>, pc: Pc) {
    exists t | t in taken :: t.pc == pc && !t.choice.Fails?
  }

  /** The unmount was made, did not fail, and met the path mounted or not. */
  ghost predicate Unmounted(taken: seq<Taken>, mounted: bool) {
    exists t | t in taken :: t.pc == CleanUnmerge && !t.choice.Fails? && (t.met.depth > 0 <==> mounted)
  }

  class World {
    var state: State
    var turn: nat
    /** All that the others will do; a call that can go on at no turn, nor after the last, never can. */
    const script: seq<Turn>
    ghost const start: State
    ghost var trace: seq<Action>
    /** The goroutine that makes the call, and the actions it has taken. */
    const me: nat
    ghost var own: seq<Taken>

    constructor (state: State, script: seq<Turn>, me: nat)
      requires IsInitial(state)
      ensures Valid() && this.state == state == start && this.script == script && this.me == me && turn == 0
    {
      this.state, this.script, this.me, turn := state, script, me, 0;
      start, trace, own := state, [], [];
    }

    /** The state has come about by actions of the machine, and the call's are recorded.  The quantifiers
        keep the recursive definitions folded. */
    ghost predicate Valid()
      reads this
    {
      && IsInitial(start) && turn <= |script|
      && (forall a {:trigger RunAll(start, a)} | a == trace :: state == RunAll(start, a))
      && forall a {:trigger TakenBy(start, a, me)} | a == trace :: own == TakenBy(start, a, me)
    }

    /** Actions have been added since the old state. */
    twostate predicate Moved()
      reads this
    {
      old(trace) <= trace
    }

    /** The goroutine is at p, and only it moves it. */
    ghost predicate Mine(p: Proc)
      reads this
    {
      && Valid() && me < |state.procs| && state.procs[me] == p
      && forall t | 0 <= t < |script| :: NotBy(script[t].others, me)
    }

    /** Where the goroutine stands after a call with this result.  Blocked: the others will do nothing
        more, and it cannot go on in any way. */
    ghost predicate Ends(p: Proc, result: Result)
      reads this
    {
      && Mine(p)
      && (result.Blocked? ==>
            Waits(state.sh, p) && turn == |script|)
      && (!result.Blocked? ==> p.pc.Done?)
    }

    /** The others move. */
    method Interleave(ghost p: Proc) returns (choice: Choice)
      requires Mine(p) && turn < |script|
      modifies this`state, this`trace, this`turn
      ensures Mine(p) && Moved() && turn == old(turn) + 1
    {
      var others := script[turn].others;
      choice := script[turn].choice;
      turn := turn + 1;
      ReachedInv(start, trace);
      OthersKeepProc(state, others, me, start.sh.depth);
      RunAllConcat(start, trace, others);
      TakenConcat(start, trace, others, me);
      NoneTaken(state, others, me);
      trace := trace + others;
      state := RunAll(state, others);
    }

    /** The goroutine acts. */
    method Go(ghost p: Proc, choice: Choice) returns (ghost p': Proc)
      requires Mine(p) && Enabled(state, me, choice)
      modifies this`state, this`trace, this`own
      ensures Mine(p') && p'.kind == p.kind && trace == old(trace) + [Action(me, choice)]
      ensures Moves(old(state.sh), p, me, choice, state.sh, p')
      ensures own == old(own) + [Taken(p.pc, choice, old(state.sh))]
    {
      ghost var spanning := RunInSpan(state.procs);
      SpanningIsBookkeeping(state.sh, p, me, choice, spanning);
      p' := Move(state.sh, p, me, choice, spanning).1;
      OneMore(start, trace, me, choice);
      TakenConcat(start, trace, [Action(me, choice)], me);
      assert TakenBy(state, [Action(me, choice)], me) == [Taken(p.pc, choice, state.sh)];
      trace := trace + [Action(me, choice)];
      own := own + [Taken(p.pc, choice, state.sh)];
      state := Step(state, me, choice);
    }

    /** The others move until the goroutine can act, and then it does; once they have all finished it
        takes any way on there is. */
    method Act(ghost p: Proc) returns (moved: bool, met: Shared, choice: Choice, ghost p': Proc)
      requires Mine(p) && !p.pc.Done?
      modifies this`state, this`trace, this`own, this`turn
      ensures Mine(p') && Moved() && p'.kind == p.kind && met.manualStop <= 1 && met.stopped <= 1
      ensures moved ==> CanMove(met, p, choice) && Moves(met, p, me, choice, state.sh, p')
      ensures own == old(own) + (if moved then [Taken(p.pc, choice, met)] else [])
      ensures !moved ==> Waits(state.sh, p) && p' == p && turn == |script|
    {
      while turn < |script|
        invariant Mine(p) && Moved() && own == old(own)
        decreases |script| - turn
      {
        choice := Interleave(p);
        if Enabled(state, me, choice) {
          ReachedInv(start, trace);
          met := state.sh;
          p' := Go(p, choice);
          return true, met, choice, p';
        }
      }
      ReachedInv(start, trace);
      met := state.sh;
      choice := if Enabled(state, me, Works) then Works else ContextDone;
      if Enabled(state, me, choice) {
        p' := Go(p, choice);
        return true, met, choice, p';
      }
      WaitsIff(state, me);
      return false, met, choice, p;
    }

    /** An action that never has to wait. */
    method Do(ghost p: Proc) returns (met: Shared, choice: Choice, ghost p': Proc)
      requires Mine(p) && NeverWaits(p.pc)
      modifies this`state, this`trace, this`own, this`turn
      ensures Mine(p') && Moved() && p'.kind == p.kind && met.manualStop <= 1 && met.stopped <= 1
      ensures CanMove(met, p, choice) && Moves(met, p, me, choice, state.sh, p')
      ensures own == old(own) + [Taken(p.pc, choice, met)]
    {
      var moved;
      moved, met, choice, p' := Act(p);
    }
  }

  lemma ReachedInv(start: State, trace: seq<Action>)
    requires IsInitial(start)
    ensures Inv(RunAll(start, trace), start.sh.depth)
  {
    InitialInv(start);
    InvRun(start, trace, start.sh.depth);
  }

  lemma OneMore(start: State, trace: seq<Action>, g: nat, choice: Choice)
    requires Enabled(RunAll(start, trace), g, choice)
    ensures RunAll(start, trace + [Action(g, choice)]) == Step(RunAll(start, trace), g, choice)
  {
    var a := Action(g, choice);
    RunAllConcat(start, trace, [a]);
    assert [a][1..] == [];
    assert RunAll(RunAll(start, trace), [a]) == RunAll(Take(RunAll(start, trace), a), []);
  }

  lemma SpanningIsBookkeeping(sh: Shared, p: Proc, g: nat, choice: Choice, spanning: nat)
    requires CanMove(sh, p, choice)
    ensures var (sh', p') := Move(sh, p, g, choice, spanning);
      Moves(sh, p, g, choice, sh', p') && p'.kind == p.kind
  {}

  /** The actions were at these places, in this order, as far as they went. */
  ghost predicate AtPlaces(taken: seq<Taken>, places: seq<Pc>) {
    |taken| <= |places| && forall i | 0 <= i < |taken| :: taken[i].pc == places[i]
  }

  /** What a Run does from its select on: it clears the flag, and then confirms the token if it took one. */
  function StopPlaces(token: bool): seq<Pc> {
    [RunSelect, RunClearLock(token), RunClear(token), RunClearUnlock(token)] + if token then [RunConfirm] else []
  }

  ghost predicate HasStopped(taken: seq<Taken>, ended: bool) {
    if taken == [] then !ended
    else
      var places := StopPlaces(!taken[0].choice.ContextDone?);
      AtPlaces(taken, places) && (ended <==> |taken| == |places|)
  }

  ghost predicate HasMerged(taken: seq<Taken>, running: bool) {
    && AtPlaces(taken, [RunMerge, RunSet, RunUnlock]) && |taken| == (if running then 3 else 1)
    && (running <==> !taken[0].choice.Fails?)
  }

  /** What a Run does up to its select, or up to its end if that comes before. */
  ghost predicate HasBegun(taken: seq<Taken>, result: Result, running: bool) {
    if taken == [] then result.Blocked? && !running
    else
      && |taken| >= 2 && taken[0].pc == RunLock && taken[1].pc == RunCheck
      && if taken[1].met.running then result.Nil? && !running && |taken| == 2
         else (!running ==> result.Error?) && HasMerged(taken[2..], running)
  }

  /** Run.  Its own actions, which `taken` lists, say how it ends: with an error exactly when its merge has
      failed; with nil and nothing mounted exactly when it has found the flag set; with nil after its merge only
      when its context was done, or when it has confirmed the token it took. */
  method Run(w: World, ghost p: Proc) returns (result: Result, ghost p': Proc, ghost taken: seq<Taken>)
    requires w.Mine(p) && p.kind.Run? && p.pc == RunLock && !p.effect
    modifies w`state, w`trace, w`own, w`turn
    ensures w.Moved() && w.own == old(w.own) + taken
    ensures w.Ends(p', result) && p'.kind.Run?
    ensures result.Error? <==> Answered(taken, RunMerge, Fails)
    ensures result.Nil? && !p'.effect <==> FoundFlag(taken, RunCheck, true)
    ensures result.Nil? && !p'.effect ==> w.state.sh.running
    ensures p'.effect <==> Did(taken, RunMerge)
    ensures p'.effect ==> |taken| >= 5 && HasStopped(taken[5..], result.Nil?)
  {
    var running;
    running, result, p', taken := RunMerged(w, p);
    ghost var begun, outcome, more := taken, result, [];
    if running {
      result, p', more := RunUntilStopped(w, p');
      taken := taken + more;
    }
    RunReads(begun, outcome, running, more);
    assert !running ==> begun + more == begun;
  }

  lemma RunReads(begun: seq<Taken>, result: Result, running: bool, more: seq<Taken>)
    requires HasBegun(begun, result, running) && (more != [] ==> running)
    requires more != [] ==> AtPlaces(more, StopPlaces(!more[0].choice.ContextDone?))
    ensures var taken := begun + more;
      && (!running && result.Error? <==> Answered(taken, RunMerge, Fails))
      && (!running && result.Nil? <==> FoundFlag(taken, RunCheck, true))
      && (running <==> Did(taken, RunMerge))
      && (running ==> |begun| == 5 && taken[5..] == more)
  {
    var taken := begun + more;
    assert forall t | t in more :: !t.pc.RunMerge? && !t.pc.RunCheck?;
    if |begun| >= 2 {
      assert begun[1] in taken;
    }
    if |begun| >= 3 {
      assert begun[2] == begun[2..][0] && begun[2] in taken;
      assert running ==> begun[3] == begun[2..][1] && begun[4] == begun[2..][2];
    }
  }

  /** Run up to the select: false if it ends before. */
  method RunMerged(w: World, ghost p: Proc)
    returns (running: bool, result: Result, ghost p': Proc, ghost taken: seq<Taken>)
    requires w.Mine(p) && p.kind.Run? && p.pc == RunLock && !p.effect
    modifies w`state, w`trace, w`own, w`turn
    ensures w.Moved() && w.own == old(w.own) + taken
    ensures p'.kind.Run? && p'.effect == running
    ensures if running then w.Mine(p') && p'.pc == RunSelect else w.Ends(p', result)
    ensures HasBegun(taken, result, running)
    ensures !running && result.Nil? ==> w.state.sh.running
  {
    running, result, p', taken := FindFree(w, p);
    if running {
      ghost var more;
      running, p', more := Merge(w, p');
      assert (taken + more)[2..] == more;
      taken := taken + more;
      result := if running then Nil else Error;
    }
  }

  /** Run up to its test of the flag: false if it ends there or before. */
  method FindFree(w: World, ghost p: Proc) returns (free: bool, result: Result, ghost p': Proc, ghost taken: seq<Taken>)
    requires w.Mine(p) && p.kind.Run? && p.pc == RunLock && !p.effect
    modifies w`state, w`trace, w`own, w`turn
    ensures w.Moved() && w.own == old(w.own) + taken
    ensures p'.kind.Run? && !p'.effect && !result.Error?
    ensures if free then w.Mine(p') && p'.pc == RunMerge else w.Ends(p', result)
    ensures AtPlaces(taken, [RunLock, RunCheck]) && |taken| == if !free && result.Blocked? then 0 else 2
    ensures taken != [] ==> (free <==> !taken[1].met.running)
    ensures !free && result.Nil? ==> w.state.sh.running
  {
    var ok, met, choice;
    ok, met, choice, p' := w.Act(p);          // mu.Lock
    if !ok {
      return false, Blocked, p', [];
    }
    taken := [Taken(RunLock, choice, met)];
    met, choice, p' := w.Do(p');              // if running { mu.Unlock }
    taken := taken + [Taken(RunCheck, choice, met)];
    return !met.running, Nil, p', taken;
  }

  /** Merge with the mutex held, and what follows it; false if it fails. */
  method Merge(w: World, ghost p: Proc) returns (running: bool, ghost p': Proc, ghost taken: seq<Taken>)
    requires w.Mine(p) && p.kind.Run? && p.pc == RunMerge && !p.effect
    modifies w`state, w`trace, w`own, w`turn
    ensures w.Moved() && w.own == old(w.own) + taken
    ensures w.Mine(p') && p'.kind.Run? && p'.effect == running && p'.pc == if running then RunSelect else Done
    ensures HasMerged(taken, running)
  {
    var met, choice;
    met, choice, p' := w.Do(p);               // Merge, and mu.Unlock if it fails
    taken := [Taken(RunMerge, choice, met)];
    if choice.Fails? {
      return false, p', taken;
    }
    met, choice, p' := w.Do(p');              // running = true
    taken := taken + [Taken(RunSet, choice, met)];
    met, choice, p' := w.Do(p');              // mu.Unlock
    taken := taken + [Taken(RunUnlock, choice, met)];
    return true, p', taken;
  }

  method RunUntilStopped(w: World, ghost p: Proc)
    returns (result: Result, ghost p': Proc, ghost taken: seq<Taken>)
    requires w.Mine(p) && p.kind.Run? && p.pc == RunSelect && p.effect
    modifies w`state, w`trace, w`own, w`turn
    ensures w.Moved() && w.own == old(w.own) + taken
    ensures w.Ends(p', result) && p'.kind.Run? && p'.effect && !result.Error?
    ensures HasStopped(taken, result.Nil?)
  {
    var ok, token;
    ok, token, p', taken := SelectAndClear(w, p);
    if !ok {
      return Blocked, p', taken;
    }
    if token {
      var met, choice;
      ok, met, choice, p' := w.Act(p');       // stopped <- struct{}{}
      if !ok {
        return Blocked, p', taken;
      }
      taken := taken + [Taken(RunConfirm, choice, met)];
    }
    return Nil, p', taken;
  }

  /** The select and what both of its cases begin with; `token` says which it was. */
  method SelectAndClear(w: World, ghost p: Proc)
    returns (ok: bool, token: bool, ghost p': Proc, ghost taken: seq<Taken>)
    requires w.Mine(p) && p.kind.Run? && p.pc == RunSelect
    modifies w`state, w`trace, w`own, w`turn
    ensures w.Moved() && w.own == old(w.own) + taken
    ensures w.Mine(p') && p'.kind.Run? && p'.effect == p.effect
    ensures if ok then p'.pc == (if token then RunConfirm else Done) else w.Ends(p', Blocked)
    ensures taken != [] ==> (token <==> !taken[0].choice.ContextDone?)
    ensures AtPlaces(taken, [RunSelect, RunClearLock(token), RunClear(token), RunClearUnlock(token)])
    ensures |taken| <= 4 && (ok <==> |taken| == 4)
  {
    var met, choice;
    token := false;
    ok, met, choice, p' := w.Act(p);          // select
    if !ok {
      return false, token, p', [];
    }
    taken := [Taken(RunSelect, choice, met)];
    token := !choice.ContextDone?;
    ghost var more;
    ok, p', more := StopRunning(w, p', token);
    taken := taken + more;
  }

  method StopRunning(w: World, ghost p: Proc, ghost token: bool)
    returns (ok: bool, ghost p': Proc, ghost taken: seq<Taken>)
    requires w.Mine(p) && p.kind.Run? && p.pc == RunClearLock(token)
    modifies w`state, w`trace, w`own, w`turn
    ensures w.Moved() && w.own == old(w.own) + taken
    ensures w.Mine(p') && p'.kind.Run? && p'.effect == p.effect
    ensures if ok then p'.pc == (if token then RunConfirm else Done) else w.Ends(p', Blocked)
    ensures AtPlaces(taken, [RunClearLock(token), RunClear(token), RunClearUnlock(token)])
    ensures |taken| == if ok then 3 else 0
  {
    var met, choice;
    ok, met, choice, p' := w.Act(p);          // mu.Lock
    if !ok {
      return false, p', [];
    }
    taken := [Taken(RunClearLock(token), choice, met)];
    met, choice, p' := w.Do(p');              // running = false
    taken := taken + [Taken(RunClear(token), choice, met)];
    met, choice, p' := w.Do(p');              // mu.Unlock
    taken := taken + [Taken(RunClearUnlock(token), choice, met)];
  }

  lemma HarmlessIfQuiet(start: State, s: State, trace: seq<Action>, g: nat)
    requires IsInitial(start) && s == RunAll(start, trace) && g < |s.procs|
    requires s.procs[g].kind.Stop? && s.procs[g].pc != Idle
    ensures !s.procs[g].pc.Done? && Quiet(s) ==> !Harmless(start.procs)
  {
    if UnfinishedStop(s.procs[g]) && Quiet(s) {
      StopsReturnIff(start);
      assert Reachable(start, s);
    }
  }

  /** Stop.  It returns unconfirmed exactly when it has found no Run running, and confirmed exactly when it has
      sent a token and then received a confirmation; one that never returns, when nobody else can go on either,
      was called among calls that are not harmless. */
  method Stop(w: World, ghost p: Proc)
    returns (result: Result, confirmed: bool, ghost p': Proc, ghost taken: seq<Taken>)
    requires w.Mine(p) && p.kind.Stop? && p.pc == StopLock
    modifies w`state, w`trace, w`own, w`turn
    ensures w.Moved() && w.own == old(w.own) + taken
    ensures w.Ends(p', result) && p'.kind.Stop? && !result.Error?
    ensures AtPlaces(taken, [StopLock, StopCheck, StopSend, StopUnlock, StopWait])
    ensures result.Nil? && !confirmed <==> FoundFlag(taken, StopCheck, false)
    ensures result.Nil? && confirmed <==> |taken| == 5
    ensures result.Nil? && confirmed ==> w.state.sh.stopped == 0
    ensures result.Nil? && !confirmed ==> !w.state.sh.running
    ensures result.Blocked? && Quiet(w.state) ==> !Harmless(w.start.procs)
  {
    var sent;
    sent, result, p', taken := StopUntilSent(w, p);
    assert |taken| >= 2 ==> taken[1] in taken;
    if !sent {
      HarmlessIfQuiet(w.start, w.state, w.trace, w.me);
      return result, false, p', taken;
    }
    var ok, met, choice;
    ok, met, choice, p' := w.Act(p');         // <-stopped
    if !ok {
      HarmlessIfQuiet(w.start, w.state, w.trace, w.me);
      return Blocked, false, p', taken;
    }
    taken := taken + [Taken(StopWait, choice, met)];
    return Nil, true, p', taken;
  }

  /** Stop up to the wait for the confirmation: false if it ends before. */
  method StopUntilSent(w: World, ghost p: Proc)
    returns (sent: bool, result: Result, ghost p': Proc, ghost taken: seq<Taken>)
    requires w.Mine(p) && p.kind.Stop? && p.pc == StopLock
    modifies w`state, w`trace, w`own, w`turn
    ensures w.Moved() && w.own == old(w.own) + taken
    ensures p'.kind.Stop? && !result.Error?
    ensures if sent then w.Mine(p') && p'.pc == StopWait else w.Ends(p', result)
    ensures AtPlaces(taken, [StopLock, StopCheck, StopSend, StopUnlock])
    ensures sent <==> |taken| == 4
    ensures !sent && result.Nil? <==> |taken| >= 2 && !taken[1].met.running
    ensures !sent && result.Nil? ==> !w.state.sh.running
  {
    sent, result, p', taken := FindRunning(w, p);
    if sent {
      ghost var more;
      sent, p', more := Send(w, p');
      taken := taken + more;
      result := if sent then Nil else Blocked;
    }
  }

  /** Stop up to its test of the flag: false if it ends there or before. */
  method FindRunning(w: World, ghost p: Proc)
    returns (running: bool, result: Result, ghost p': Proc, ghost taken: seq<Taken>)
    requires w.Mine(p) && p.kind.Stop? && p.pc == StopLock
    modifies w`state, w`trace, w`own, w`turn
    ensures w.Moved() && w.own == old(w.own) + taken
    ensures p'.kind.Stop? && !result.Error?
    ensures if running then w.Mine(p') && p'.pc == StopSend else w.Ends(p', result)
    ensures AtPlaces(taken, [StopLock, StopCheck]) && |taken| == if !running && result.Blocked? then 0 else 2
    ensures taken != [] ==> (running <==> taken[1].met.running)
    ensures !running && result.Nil? ==> !w.state.sh.running
  {
    var ok, met, choice;
    ok, met, choice, p' := w.Act(p);          // mu.Lock
    if !ok {
      return false, Blocked, p', [];
    }
    taken := [Taken(StopLock, choice, met)];
    met, choice, p' := w.Do(p');              // if !running { mu.Unlock }
    taken := taken + [Taken(StopCheck, choice, met)];
    return met.running, Nil, p', taken;
  }

  method Send(w: World, ghost p: Proc) returns (sent: bool, ghost p': Proc, ghost taken: seq<Taken>)
    requires w.Mine(p) && p.kind.Stop? && p.pc == StopSend
    modifies w`state, w`trace, w`own, w`turn
    ensures w.Moved() && w.own == old(w.own) + taken
    ensures p'.kind.Stop? && if sent then w.Mine(p') && p'.pc == StopWait else w.Ends(p', Blocked)
    ensures AtPlaces(taken, [StopSend, StopUnlock]) && |taken| == if sent then 2 else 0
  {
    var met, choice;
    taken := [];
    sent, met, choice, p' := w.Act(p);        // manualStop <- struct{}{}
    if sent {
      taken := [Taken(StopSend, choice, met)];
      met, choice, p' := w.Do(p');            // mu.Unlock
      taken := taken + [Taken(StopUnlock, choice, met)];
    }
  }

  /** CleanUp.  It ends with an error exactly when its unmount has failed, and has unmounted exactly when that has
      met the path mounted; otherwise it has found a Run running, or nothing mounted, or has waited for the mutex
      for ever. */
  method CleanUp(w: World, ghost p: Proc) returns (result: Result, ghost p': Proc, ghost taken: seq<Taken>)
    requires w.Mine(p) && p.kind.CleanUp? && p.pc == CleanLock && !p.effect
    modifies w`state, w`trace, w`own, w`turn
    ensures w.Moved() && w.own == old(w.own) + taken
    ensures w.Ends(p', result) && p'.kind.CleanUp?
    ensures AtPlaces(taken, [CleanLock, CleanCheck, CleanUnmerge, CleanUnlock])
    ensures result.Error? <==> Answered(taken, CleanUnmerge, Fails)
    ensures p'.effect <==> Unmounted(taken, true)
    ensures result.Nil? && !p'.effect <==> FoundFlag(taken, CleanCheck, true) || Unmounted(taken, false)
    ensures result.Error? ==> !p'.effect
    ensures result.Blocked? <==> taken == []
  {
    var idle;
    idle, result, p', taken := FindIdle(w, p);
    if idle {
      ghost var more;
      result, p', more := Unmerge(w, p');
      taken := taken + more;
    }
    if taken != [] {
      CleanUpReads(taken);
    }
  }

  /** CleanUp up to its test of the flag: false if it ends there or before. */
  method FindIdle(w: World, ghost p: Proc) returns (idle: bool, result: Result, ghost p': Proc, ghost taken: seq<Taken>)
    requires w.Mine(p) && p.kind.CleanUp? && p.pc == CleanLock && !p.effect
    modifies w`state, w`trace, w`own, w`turn
    ensures w.Moved() && w.own == old(w.own) + taken
    ensures p'.kind.CleanUp? && !p'.effect && !result.Error?
    ensures if idle then w.Mine(p') && p'.pc == CleanUnmerge else w.Ends(p', result)
    ensures AtPlaces(taken, [CleanLock, CleanCheck]) && |taken| == if !idle && result.Blocked? then 0 else 2
    ensures taken != [] ==> (idle <==> !taken[1].met.running)
  {
    var ok, met, choice;
    ok, met, choice, p' := w.Act(p);          // mu.Lock
    if !ok {
      return false, Blocked, p', [];
    }
    taken := [Taken(CleanLock, choice, met)];
    met, choice, p' := w.Do(p');              // if running { return }
    taken := taken + [Taken(CleanCheck, choice, met)];
    return !met.running, Nil, p', taken;
  }

  lemma CleanUpReads(taken: seq<Taken>)
    requires AtPlaces(taken, [CleanLock, CleanCheck, CleanUnmerge, CleanUnlock])
    requires |taken| >= 2 && |taken| == if taken[1].met.running then 2 else 4
    ensures Answered(taken, CleanUnmerge, Fails) <==> |taken| == 4 && taken[2].choice.Fails?
    ensures FoundFlag(taken, CleanCheck, true) <==> taken[1].met.running
    ensures forall mounted :: Unmounted(taken, mounted) <==>
      |taken| == 4 && !taken[2].choice.Fails? && (taken[2].met.depth > 0 <==> mounted)
  {
    assert taken[1] in taken;
    if |taken| == 4 {
      assert taken[2] in taken;
    }
  }

  method Unmerge(w: World, ghost p: Proc) returns (result: Result, ghost p': Proc, ghost taken: seq<Taken>)
    requires w.Mine(p) && p.kind.CleanUp? && p.pc == CleanUnmerge && !p.effect
    modifies w`state, w`trace, w`own, w`turn
    ensures w.Moved() && w.own == old(w.own) + taken
    ensures w.Ends(p', result) && p'.kind.CleanUp? && !result.Blocked?
    ensures AtPlaces(taken, [CleanUnmerge, CleanUnlock]) && |taken| == 2
    ensures result.Error? <==> taken[0].choice.Fails?
    ensures p'.effect <==> !taken[0].choice.Fails? && taken[0].met.depth > 0
  {
    var met, choice;
    met, choice, p' := w.Do(p);               // Unmerge
    taken := [Taken(CleanUnmerge, choice, met)];
    var failed := choice.Fails?;
    met, choice, p' := w.Do(p');              // deferred mu.Unlock
    taken := taken + [Taken(CleanUnlock, choice, met)];
    result := if failed then Error else Nil;
  }
}
