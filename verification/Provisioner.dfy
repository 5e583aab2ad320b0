/**
 CreateLower and DeleteLower as the driver executes them, over stores that the calls of
 other volumes change between any two accesses.  Each method is proved to take exactly the
 steps of one call of Provisioning, so the theorems about its runs hold of the code.
 */
module Provisioner {
  import opened Options
  import opened Names
  import opened SplitSpecs
  import opened Volumes
  import opened Provisioning
  import opened ProvisioningInvariant
  import opened ProvisioningTheorems
  import opened ProvisioningClaims
  import opened ProvisioningContract

  /** What happens before an access: steps of other calls and of the claim cache; then how the access
      is answered. */
  datatype Turn = Turn(others: seq<Step>, reply: Reply)

  ghost predicate NotBy(cfg: Config, steps: seq<Step>, volume: string) {
    forall i | 0 <= i < |steps| ::
      !steps[i].Crash? && OneCallStep(cfg, steps[i], volume) && (steps[i].Go? ==> steps[i].volume != volume)
  }

  lemma {:induction false} OthersKeepCall(cfg: Config, s: State, steps: seq<Step>, volume: string)
    requires NotBy(cfg, steps, volume) && volume in s.calls
    ensures volume in Run(cfg, s, steps).calls && Run(cfg, s, steps).calls[volume] == s.calls[volume]
    decreases |steps|
  {
    if steps != [] {
      assert NotBy(cfg, steps[1..], volume) by {
        assert forall i | 0 <= i < |steps[1..]| :: steps[1..][i] == steps[i + 1];
      }
      OthersKeepCall(cfg, Apply(cfg, s, steps[0]), steps[1..], volume);
    }
  }

  /** What one access does to the state, and why the theorems apply. */
  lemma AccessStep(cfg: Config, s: State, volume: string, reply: Reply)
    requires Inv(cfg, s) && volume in s.calls
    ensures var pc := s.calls[volume]; var s' := Apply(cfg, s, Go(volume, reply));
      && CallOk(cfg, s.stores, volume, pc) && Wellformed(pc) && Inv(cfg, s')
      && var (st, next) := Progress(cfg, s.stores, volume, pc, reply, FoundInCache(s, pc));
      && s'.stores == st
      && (next.Continue? ==> volume in s'.calls && s'.calls[volume] == next.pc && next.pc.Creates() == pc.Creates())
      && (next.Return? ==>
        && volume !in s'.calls && s'.answers == s.answers + [Answer(volume, pc.Creates(), next.err)]
        && (DeletedOk(Answer(volume, pc.Creates(), next.err), volume) ==> Gone(cfg, st, volume)))
  {
    var step := Go(volume, reply);
    assert CallOk(cfg, s.stores, volume, s.calls[volume]);
    InvStep(cfg, s, step);
    if Answers(cfg, s, step, volume) {
      DeleteOkLeavesNothing(cfg, s, step, volume);
    }
  }

  class World {
    const cfg: Config
    const script: nat -> Turn
    var state: State
    var turn: nat
    ghost var start: State
    ghost var trace: seq<Step>

    constructor (cfg: Config, script: nat -> Turn, state: State)
      requires Inv(cfg, state)
      ensures Valid() && this.cfg == cfg && this.script == script && this.state == state == start && turn == 0
    {
      this.cfg, this.script, this.state, turn := cfg, script, state, 0;
      start, trace := state, [];
    }

    /** The state has come about by machine steps and satisfies the invariant. */
    ghost predicate Valid()
      reads this
    {
      Inv(cfg, state) && state == Run(cfg, start, trace)
    }

    /** Steps have been added since the old state. */
    twostate predicate Moved()
      reads this
    {
      start == old(start) && old(trace) <= trace
    }

    /** None of them is a crash or begins another call for the volume. */
    twostate predicate MovedOnce(volume: string)
      reads this
    {
      Moved() && forall i | |old(trace)| <= i < |trace| :: !trace[i].Crash? && OneCallStep(cfg, trace[i], volume)
    }

    /** The call for the volume is about to make access pc, and nobody else moves it. */
    ghost predicate Mine(volume: string, pc: Pc)
      reads this
    {
      && Valid() && volume in cfg.volumes
      && volume in state.calls && state.calls[volume] == pc
      && forall t: nat :: NotBy(cfg, script(t).others, volume)
    }

    /** Where the call stands: at its next access, or answered. */
    ghost predicate At(volume: string, next: Next, created: bool)
      reads this
    {
      match next
      case Continue(pc) => Mine(volume, pc) && pc.Creates() == created
      case Return(err) =>
        && Valid() && volume !in state.calls
        && |state.answers| > 0 && state.answers[|state.answers| - 1] == Answer(volume, created, err)
    }

    method Begin(volume: string, request: Request)
      requires Valid() && volume in cfg.volumes && volume !in state.calls
      requires forall t: nat :: NotBy(cfg, script(t).others, volume)
      modifies this`state, this`trace
      ensures Mine(volume, Start(volume, request)) && state.stores == old(state.stores)
      ensures start == old(start) && trace == old(trace) + [Provisioning.Step.Begin(volume, request)]
    {
      ghost var step := Provisioning.Step.Begin(volume, request);
      InvStep(cfg, state, step);
      RunSnoc(cfg, start, trace, step);
      trace := trace + [step];
      state := Apply(cfg, state, Provisioning.Step.Begin(volume, request));
    }

    /** The calls of other volumes and the claim cache move. */
    method Interleave(volume: string, ghost pc: Pc) returns (reply: Reply)
      requires Mine(volume, pc)
      modifies this`state, this`trace, this`turn
      ensures Mine(volume, pc) && MovedOnce(volume)
    {
      reply := script(turn).reply;
      var others := script(turn).others;
      turn := turn + 1;
      assert NotBy(cfg, others, volume);
      OthersKeepCall(cfg, state, others, volume);
      assert NamesOk(cfg, others) by {
        assert forall i | 0 <= i < |others| :: OneCallStep(cfg, others[i], volume);
      }
      InvRun(cfg, state, others);
      RunConcat(cfg, start, trace, others);
      trace := trace + others;
      state := Run(cfg, state, others);
    }

    /** The others move, then the call for the volume makes its access; `found` is what the claim cache
        shows if that is what it looks at. */
    method Access(volume: string, ghost pc: Pc) returns (reply: Reply, met: Stores, found: bool)
      requires Mine(volume, pc)
      modifies this`state, this`trace, this`turn
      ensures CallOk(cfg, met, volume, pc) && SplitsOk(cfg, met) && Wellformed(pc) && MovedOnce(volume)
      ensures var (st, next) := Progress(cfg, met, volume, pc, reply, found);
        && state.stores == st && At(volume, next, pc.Creates())
        && (next.Return? && DeletedOk(Answer(volume, pc.Creates(), next.err), volume) ==> Gone(cfg, st, volume))
    {
      reply := Interleave(volume, pc);
      met := state.stores;
      AccessStep(cfg, state, volume, reply);
      found := FoundInCache(state, state.calls[volume]);
      RunSnoc(cfg, start, trace, Go(volume, reply));
      trace := trace + [Go(volume, reply)];
      state := Apply(cfg, state, Go(volume, reply));
    }
  }

  // ---------- splitter ----------

  /** GetSplit suffixes its argument, whatever it is. */
  method GetSplit(w: World, volume: string, ghost pc: Pc, volumeId: string)
    returns (split: SplitSpec, err: Error, ghost next: Next)
    requires w.Mine(volume, pc)
    requires pc.GetFirst? || pc.GetAgain? || pc.GetForDelete?
    requires SplitName(volumeId) == if pc.GetForDelete? then SplitName(volume) else LookupName(w.cfg, volume)
    modifies w`state, w`trace, w`turn
    ensures w.At(volume, next, pc.Creates()) && w.MovedOnce(volume)
    ensures err == Nil || err == ErrVolumeNotFound || err == ErrApi
    ensures err == ErrApi ==> split == EMPTY_SPEC
    ensures pc.GetForDelete? && err == Nil ==> next == DropClaims(split, 0)
    ensures pc.GetForDelete? && err == ErrVolumeNotFound ==> Gone(w.cfg, w.state.stores, volume)
    ensures pc.GetFirst? && err == ErrVolumeNotFound ==> next == Continue(PutSplit(pc.spec))
    ensures pc.GetFirst? && err != ErrVolumeNotFound ==> next == CheckFound(split, pc.spec)
    ensures pc.GetAgain? && err == Nil ==> next == CheckFound(split, pc.spec)
    ensures !pc.GetFirst? && err != Nil ==> next == Return(err)
    ensures !pc.GetForDelete? && w.cfg.lookup.SuffixedTwice? ==> err != Nil
  {
    var splitName := SplitName(volumeId);
    var reply, met, found := w.Access(volume, pc);
    next := Progress(w.cfg, met, volume, pc, reply, found).1;
    if reply != Served {
      return EMPTY_SPEC, ErrApi, next;
    }
    if splitName in met.splits {
      if !pc.GetForDelete? {
        FoundIsOwn(w.cfg, met, volume);
      }
    } else {
      return EMPTY_SPEC, ErrVolumeNotFound, next;
    }
    return met.splits[splitName], Nil, next;
  }

  method DoCreateSplit(w: World, volumeId: string, splitName: string, splitSpec: SplitSpec)
    returns (split: SplitSpec, alreadyExists: bool, err: Error, ghost next: Next)
    requires w.Mine(volumeId, PutSplit(splitSpec)) && splitName == SplitName(volumeId)
    modifies w`state, w`trace, w`turn
    ensures w.At(volumeId, next, true) && w.MovedOnce(volumeId)
    ensures split == Filled(w.cfg.claimNamePrefix, splitSpec)
    ensures err == Nil ==> !alreadyExists && next == CreateClaims(split, 0) && HasSplit(w.state.stores, volumeId, split)
    ensures err != Nil ==> err == ErrApi && next == if alreadyExists then Continue(GetAgain(splitSpec)) else Return(err)
  {
    split := BuildSplit(w.cfg.claimNamePrefix, splitSpec);
    var reply, met, found := w.Access(volumeId, PutSplit(splitSpec));
    next := Progress(w.cfg, met, volumeId, PutSplit(splitSpec), reply, found).1;
    alreadyExists := reply == Served && splitName in met.splits;
    err := if reply == Served && !alreadyExists then Nil else ErrApi;
  }

  method CreateSplit(w: World, volumeId: string, splitSpec: SplitSpec)
    returns (split: SplitSpec, err: Error, ghost next: Next)
    requires w.Mine(volumeId, GetFirst(splitSpec))
    modifies w`state, w`trace, w`turn
    ensures w.At(volumeId, next, true) && w.MovedOnce(volumeId)
    ensures err == Nil ==> next == CreateClaims(split, 0)
    ensures err != Nil ==> next == Return(err)
    ensures err == Nil && w.cfg.lookup.SuffixedTwice? && split.splits != [] ==>
      split == Filled(w.cfg.claimNamePrefix, splitSpec)
  {
    var notFound := false;
    var splitName := SplitName(volumeId);
    var key := if w.cfg.lookup.SuffixedTwice? then splitName else volumeId;
    split, err, next := GetSplit(w, volumeId, GetFirst(splitSpec), key);
    if err != Nil {
      notFound := err == ErrVolumeNotFound;
    }
    if notFound {
      var alreadyExists;
      split, alreadyExists, err, next := DoCreateSplit(w, volumeId, splitName, splitSpec);
      if err == Nil {
        return split, Nil, next;
      }
      if !alreadyExists {
        return EMPTY_SPEC, err, next;
      }
      split, err, next := GetSplit(w, volumeId, GetAgain(splitSpec), key);
      if err != Nil {
        return EMPTY_SPEC, err, next;
      }
    }
    var compatible := IsSplitSpecCompatible(Some(split), Some(splitSpec));
    if !compatible {
      return EMPTY_SPEC, ErrIdempotencyIncompatible, next;
    }
    return split, Nil, next;
  }

  method DeleteSplit(w: World, volumeId: string, ghost split: SplitSpec) returns (err: Error)
    requires w.Mine(volumeId, DropSplit(split))
    modifies w`state, w`trace, w`turn
    ensures w.At(volumeId, Return(err), false) && w.MovedOnce(volumeId)
    ensures err == Nil || err == ErrVolumeNotFound ==> Gone(w.cfg, w.state.stores, volumeId)
  {
    var reply, met, found := w.Access(volumeId, DropSplit(split));
    err := if reply != Served then ErrApi
           else if SplitName(volumeId) !in met.splits then ErrVolumeNotFound else Nil;
  }

  // ---------- union ----------

  /** Creates the claim unless the claim cache shows it.  As written the claim of a new split
      cannot exist yet, so a claim that the cache shows is one that is missing afterwards. */
  method CreateLowerClaimFromSplit(w: World, volume: string, split: SplitSpec, i: nat)
    returns (newlyCreated: bool, err: Error, ghost next: Next)
    requires i < |split.splits| && w.Mine(volume, LookClaim(split, i))
    modifies w`state, w`trace, w`turn
    ensures w.At(volume, next, true) && w.MovedOnce(volume)
    ensures err == Nil ==> next == CreateClaims(split, i + 1) && HasSplit(w.state.stores, volume, split)
    ensures err != Nil ==> next == Return(err)
    ensures newlyCreated ==> err == Nil && IsLive(w.state.stores, split, i)
    ensures err == Nil && w.cfg.lookup.SuffixedTwice? ==>
      (ClaimKey(split.namespace, split.splits[i].claimName) in w.state.stores.claims <==> newlyCreated)
  {
    var notFound := false;
    var reply, met, found := w.Access(volume, LookClaim(split, i));
    next := Progress(w.cfg, met, volume, LookClaim(split, i), reply, found).1;
    if !found {
      notFound := true;
    }
    if notFound {
      err, next := SubmitClaim(w, volume, split, i);
      return err == Nil, err, next;
    } else {
      assert w.cfg.lookup.SuffixedTwice? ==> KeyOf(split, i) !in met.claims;
      return false, Nil, next;
    }
  }

  /** CREATE of the claim. */
  method SubmitClaim(w: World, volume: string, split: SplitSpec, i: nat) returns (err: Error, ghost next: Next)
    requires i < |split.splits| && w.Mine(volume, PutClaim(split, i))
    modifies w`state, w`trace, w`turn
    ensures w.At(volume, next, true) && w.MovedOnce(volume)
    ensures err == Nil ==> next == CreateClaims(split, i + 1) && HasSplit(w.state.stores, volume, split)
    ensures err != Nil ==> next == Return(err)
    ensures err == Nil ==> IsLive(w.state.stores, split, i)
  {
    var reply, met, found := w.Access(volume, PutClaim(split, i));
    next := Progress(w.cfg, met, volume, PutClaim(split, i), reply, found).1;
    err := if reply != Served then ErrApi else if KeyOf(split, i) in met.claims then ErrClaimExists else Nil;
  }

  method CreateLowerFromSplit(w: World, volume: string, split: SplitSpec, ghost next: Next) returns (err: Error)
    requires w.At(volume, next, true) && next == CreateClaims(split, 0)
    requires next.Continue? ==> HasSplit(w.state.stores, volume, split)
    modifies w`state, w`trace, w`turn
    ensures w.At(volume, Return(err), true) && w.MovedOnce(volume)
    ensures err == Nil ==> HasSplit(w.state.stores, volume, split)
  {
    if |split.splits| == 0 {
      return ErrEmptySplits;
    }
    ghost var n := next;
    for i := 0 to |split.splits|
      invariant n == CreateClaims(split, i) && w.At(volume, n, true) && w.MovedOnce(volume)
      invariant HasSplit(w.state.stores, volume, split)
    {
      var newlyCreated;
      newlyCreated, err, n := CreateLowerClaimFromSplit(w, volume, split, i);
      if err != Nil {
        return err;
      }
    }
    return Nil;
  }

  /** The volume returned for a split: its capacity is reported as unknown. */
  ghost predicate IsVolumeOf(cfg: Config, volume: Volume, volumeName: string, split: SplitSpec) {
    && split.volumeName == volumeName
    && split.splits == ClaimsOf(cfg.claimNamePrefix, volumeName, split.capacityTotal)
    && volume == Volume(volumeName, 0, split.accessModes, split.namespace, ClaimNames(split.splits),
      split.storageClassName)
  }

  /** CreateLower from where the specification is known: the split, then its claims. */
  method CreateFromSpec(w: World, volumeName: string, options: LowerOptions) returns (split: SplitSpec, err: Error)
    requires w.Valid() && volumeName in w.cfg.volumes && volumeName !in w.state.calls
    requires forall t: nat :: NotBy(w.cfg, w.script(t).others, volumeName)
    modifies w`state, w`trace, w`turn
    ensures w.At(volumeName, Return(err), true) && w.Moved()
    ensures err == Nil ==> HasSplit(w.state.stores, volumeName, split)
    ensures err == Nil && w.cfg.lookup.SuffixedTwice? ==>
      split == Filled(w.cfg.claimNamePrefix, SpecOf(volumeName, options))
    ensures old(w.trace) + [Begin(volumeName, Create(options))] <= w.trace
    ensures forall i | |old(w.trace)| < i < |w.trace| ::
      !w.trace[i].Crash? && OneCallStep(w.cfg, w.trace[i], volumeName)
  {
    var splitSpec := SpecOf(volumeName, options);
    w.Begin(volumeName, Create(options));
    ghost var next;
    split, err, next := CreateSplit(w, volumeName, splitSpec);
    if err == Nil {
      err := CreateLowerFromSplit(w, volumeName, split, next);
    }
  }

  /** The same, with what its answer means. */
  method CreateSplitAndClaims(w: World, volumeName: string, options: LowerOptions)
    returns (split: SplitSpec, err: Error)
    requires w.Valid() && volumeName in w.cfg.volumes && volumeName !in w.state.calls
    requires forall t: nat :: NotBy(w.cfg, w.script(t).others, volumeName)
    modifies w`state, w`trace, w`turn
    ensures w.At(volumeName, Return(err), true) && w.Moved()
    ensures err == Nil ==> HasSplit(w.state.stores, volumeName, split)
    ensures err == Nil && w.cfg.lookup.SuffixedTwice? ==>
      split == Filled(w.cfg.claimNamePrefix, SpecOf(volumeName, options)) &&
        ClaimsAsSeen(old(w.state), w.state, volumeName, split)
    ensures |old(w.trace)| < |w.trace|
    ensures w.cfg.lookup.SuffixedTwice? ==> (err == ErrIdempotencyIncompatible <==>
      FirstReadFails(w.trace[|old(w.trace)| + 1..], volumeName) && !Compatible(EMPTY_SPEC, SpecOf(volumeName, options)))
  {
    split, err := CreateFromSpec(w, volumeName, options);
    if w.cfg.lookup.SuffixedTwice? {
      OneCallOf(w.cfg, w.trace, |old(w.trace)| + 1, volumeName);
      RunSplits(w.cfg, w.start, old(w.trace), Begin(volumeName, Create(options)), w.trace);
      EndsProperly(w.cfg, old(w.state), volumeName, options, w.trace[|old(w.trace)| + 1..], w.state, err);
    }
  }

  /** A request that would suit an empty split. */
  predicate IsBlank(namespace: string, storageClassName: Option<string>, capacityBytes: int,
    modes: seq<CsiAccessMode>) {
    namespace == "" && storageClassName.None? && capacityBytes <= 0 && modes == []
  }

  /**
   CreateLower.  Success means that the volume's split is stored and returned; as written it is
   the one this call has filled from the request, and of its claims exactly those are live that
   the call has not met in the claim cache: all of them if the cache, and the store since the
   state it shows, had none of that name when the call began.  A mismatch is reported, as written,
   exactly when the first read of the split has failed and the request is not blank.
   */
  method CreateLower(w: World, volumeName: string, capacityBytes: int, modes: seq<CsiAccessMode>,
    namespace: string, storageClassName: Option<string>) returns (volume: Option<Volume>, err: Option<Error>)
    requires w.Valid() && volumeName in w.cfg.volumes && volumeName !in w.state.calls
    requires forall t: nat :: NotBy(w.cfg, w.script(t).others, volumeName)
    modifies w`state, w`trace, w`turn
    ensures w.Valid() && w.Moved()
    ensures err.None? <==> exists i | 0 <= i < |modes| :: CsiToK8s(modes[i]).None?
    ensures err.None? ==> w.state == old(w.state) && volume.None?
    ensures err.Some? ==> w.At(volumeName, Return(err.value), true)
    ensures err == Some(Nil) <==> volume.Some?
    ensures volume.Some? ==> SplitName(volumeName) in w.state.stores.splits
    ensures volume.Some? ==> IsVolumeOf(w.cfg, volume.value, volumeName, w.state.stores.splits[SplitName(volumeName)])
    ensures volume.Some? && w.cfg.lookup.SuffixedTwice? ==> exists accessModes: seq<AccessMode> ::
      && |accessModes| == |modes| && (forall i | 0 <= i < |modes| :: CsiToK8s(modes[i]) == Some(accessModes[i]))
      && w.state.stores.splits[SplitName(volumeName)] ==
           Filled(w.cfg.claimNamePrefix, SplitSpec(volumeName, capacityBytes, accessModes, namespace,
             storageClassName, []))
    ensures volume.Some? && w.cfg.lookup.SuffixedTwice? ==>
      ClaimsAsSeen(old(w.state), w.state, volumeName, w.state.stores.splits[SplitName(volumeName)])
    ensures err.Some? ==> |old(w.trace)| < |w.trace|
    ensures err.Some? && w.cfg.lookup.SuffixedTwice? ==> (err == Some(ErrIdempotencyIncompatible) <==>
      FirstReadFails(w.trace[|old(w.trace)| + 1..], volumeName) &&
        !IsBlank(namespace, storageClassName, capacityBytes, modes))
  {
    var accessModes := GetAccessModes(modes);
    if accessModes.None? {
      return None, None;
    }
    var options := LowerOptions(capacityBytes, accessModes.value, namespace, storageClassName);
    EmptySuits(SpecOf(volumeName, options));
    var split, e := CreateSplitAndClaims(w, volumeName, options);
    if e != Nil {
      return None, Some(e);
    }
    StoredSplit(w.cfg, w.state, volumeName, split);
    var v := NewVolumeFromVolumeSplit(split);
    v := v.(capacityBytes := 0);
    return Some(v), Some(Nil);
  }

  lemma OneCallOf(cfg: Config, trace: seq<Step>, from: nat, volume: string)
    requires from <= |trace| && forall i | from <= i < |trace| :: !trace[i].Crash? && OneCallStep(cfg, trace[i], volume)
    ensures OneCall(cfg, trace[from..], volume) && NoCrash(trace[from..])
  {
    forall i | 0 <= i < |trace[from..]|
      ensures !trace[from..][i].Crash? && OneCallStep(cfg, trace[from..][i], volume)
    {
      assert trace[from..][i] == trace[from + i];
    }
  }

  lemma RunSplits(cfg: Config, start: State, before: seq<Step>, step: Step, trace: seq<Step>)
    requires before + [step] <= trace
    ensures Run(cfg, start, trace) == Run(cfg, Apply(cfg, Run(cfg, start, before), step), trace[|before| + 1..])
  {
    assert trace == (before + [step]) + trace[|before| + 1..];
    RunConcat(cfg, start, before + [step], trace[|before| + 1..]);
    RunSnoc(cfg, start, before, step);
  }

  lemma StoredSplit(cfg: Config, s: State, volume: string, split: SplitSpec)
    requires Inv(cfg, s) && HasSplit(s.stores, volume, split)
    ensures split.volumeName == volume && split.splits == ClaimsOf(cfg.claimNamePrefix, volume, split.capacityTotal)
    ensures split.splits != []
  {
    assert StoredOk(cfg, SplitName(volume), split);
    SplitNameIsInjective(volume, split.volumeName);
    FilledSplits(cfg.claimNamePrefix, split.(splits := []));
  }

  method DeleteLowerClaimFromSplit(w: World, volume: string, split: SplitSpec, i: nat)
    returns (newlyDeleted: bool, err: Error, ghost next: Next)
    requires i < |split.splits| && w.Mine(volume, DropClaim(split, i))
    modifies w`state, w`trace, w`turn
    ensures w.At(volume, next, false) && w.MovedOnce(volume)
    ensures next == if err == Nil then DropClaims(split, i + 1) else Return(err)
    ensures err == Nil ==> ClaimKey(split.namespace, split.splits[i].claimName) !in w.state.stores.claims
    ensures err == Nil || err == ErrApi
  {
    var reply, met, found := w.Access(volume, DropClaim(split, i));
    next := Progress(w.cfg, met, volume, DropClaim(split, i), reply, found).1;
    if reply != Served {
      return false, ErrApi, next;
    }
    return KeyOf(split, i) in met.claims, Nil, next;
  }

  method DeleteLowerFromSplit(w: World, volume: string, split: SplitSpec, ghost next: Next) returns (err: Error)
    requires w.At(volume, next, false) && next == DropClaims(split, 0)
    modifies w`state, w`trace, w`turn
    ensures w.At(volume, if err == Nil then Continue(DropSplit(split)) else Return(err), false) && w.Moved()
    ensures err == Nil || err == ErrApi
  {
    ghost var n := next;
    for i := 0 to |split.splits|
      invariant n == DropClaims(split, i) && w.At(volume, n, false) && w.Moved()
    {
      var newlyDeleted;
      newlyDeleted, err, n := DeleteLowerClaimFromSplit(w, volume, split, i);
      if err != Nil {
        return err;
      }
    }
    return Nil;
  }

  /** DeleteLower.  Answers nil or not found only when nothing of the volume is left. */
  method DeleteLower(w: World, volumeId: string) returns (err: Error)
    requires w.Valid() && volumeId in w.cfg.volumes && volumeId !in w.state.calls
    requires forall t: nat :: NotBy(w.cfg, w.script(t).others, volumeId)
    modifies w`state, w`trace, w`turn
    ensures w.At(volumeId, Return(err), false) && w.Moved()
    ensures err == Nil || err == ErrVolumeNotFound ==> Gone(w.cfg, w.state.stores, volumeId)
  {
    w.Begin(volumeId, Delete);
    var split;
    ghost var next;
    split, err, next := GetSplit(w, volumeId, GetForDelete, volumeId);
    if err != Nil {
      return err;
    }
    err := DeleteClaimsAndSplit(w, volumeId, split, next);
  }

  /** DeleteLower from where the split is known. */
  method DeleteClaimsAndSplit(w: World, volumeId: string, split: SplitSpec, ghost next: Next) returns (err: Error)
    requires w.At(volumeId, next, false) && next == DropClaims(split, 0)
    modifies w`state, w`trace, w`turn
    ensures w.At(volumeId, Return(err), false) && w.Moved()
    ensures err == Nil || err == ErrVolumeNotFound ==> Gone(w.cfg, w.state.stores, volumeId)
  {
    err := DeleteLowerFromSplit(w, volumeId, split, next);
    if err != Nil {
      return err;
    }
    err := DeleteSplit(w, volumeId, split);
  }
}
