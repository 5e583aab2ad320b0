/**
 What the documented contract of CreateSplit comes to as the code is written, in every run:
 with faults, and with the calls of other volumes and crashes in between.
 */
module ProvisioningContract {
  import opened Options
  import opened Names
  import opened SplitSpecs
  import opened Provisioning
  import opened ProvisioningInvariant
  import opened ProvisioningTheorems
  import opened ProvisioningClaims
  import opened ProvisioningVariant

  /** The first access of the call for the volume, its read of the split, fails. */
  predicate FirstReadFails(steps: seq<Step>, volume: string) {
    steps != []
    && if steps[0].Go? && steps[0].volume == volume then !steps[0].reply.Served? else FirstReadFails(steps[1..], volume)
  }

  /** A request that suits the empty split a failed read leaves behind. */
  lemma EmptySuits(spec: SplitSpec)
    ensures Compatible(EMPTY_SPEC, spec) <==>
      spec.namespace == "" && spec.storageClassName.None? && spec.capacityTotal <= 0 && spec.accessModes == []
  {
    if spec.accessModes != [] {
      assert spec.accessModes[0] !in EMPTY_SPEC.accessModes;
    }
  }

  // ---------- When a mismatch is reported ----------

  /** One step: as written a create reports a mismatch exactly when its first read fails and the request
      does not suit the empty split.  An unsuitable split that is stored is never so reported. */
  lemma MismatchStepIff(cfg: Config, s: State, volume: string, reply: Reply)
    requires cfg.lookup.SuffixedTwice? && Inv(cfg, s) && volume in s.calls
    ensures Apply(cfg, s, Go(volume, reply)).answers == s.answers + [Answer(volume, true,
      ErrIdempotencyIncompatible)] <==>
      var pc := s.calls[volume];
      pc.GetFirst? && !reply.Served? && !Compatible(EMPTY_SPEC, pc.spec)
  {
    var pc := s.calls[volume];
    assert CallOk(cfg, s.stores, volume, pc);
    GoStep(cfg, s, volume, reply);
    if LookupName(cfg, volume) in s.stores.splits {
      FoundIsOwn(cfg, s.stores, volume);
    }
    var next := Progress(cfg, s.stores, volume, pc, reply, FoundInCache(s, pc)).1;
    assert (s.answers + [Answer(volume, pc.Creates(), ErrApi)])[|s.answers|] == Answer(volume, pc.Creates(), ErrApi);
    if next.Return? {
      var a := Answer(volume, pc.Creates(), next.err);
      assert (s.answers + [a])[|s.answers|] == a;
      assert (s.answers + [Answer(volume, true, ErrIdempotencyIncompatible)])[|s.answers|]
        == Answer(volume, true, ErrIdempotencyIncompatible);
    }
  }

  // ---------- How a create ends ----------

  /** The call has been answered, and this way. */
  ghost predicate EndedWith(before: State, now: State, volume: string, err: Error) {
    && |before.answers| <= |now.answers|
    && (exists n: nat :: |before.answers| <= n < |now.answers| && now.answers[n].volume == volume)
    && forall n: nat | |before.answers| <= n < |now.answers| && now.answers[n].volume == volume ::
         now.answers[n] == Answer(volume, true, err)
  }

  /** What the answer of a create means, given the split `own` that there was, whether its first read
      `failed`, and whether it met no fault at all. */
  ghost predicate Means(cfg: Config, st: Stores, volume: string, spec: SplitSpec,
    own: Option<SplitSpec>, failed: bool, served: bool, err: Error) {
    && (err == Nil ==> own.None? && HasSplit(st, volume, Filled(cfg.claimNamePrefix, spec)))
    && (err == ErrIdempotencyIncompatible <==> failed && !Compatible(EMPTY_SPEC, spec))
    && (err == ErrVolumeNotFound ==> own.Some?)
    && (served && own.Some? ==> err == ErrVolumeNotFound)
  }

  ghost predicate Stands(cfg: Config, before: State, s: State, volume: string,
    spec: SplitSpec, own: Option<SplitSpec>, failed: bool, served: bool, rest: seq<Step>) {
    if volume !in s.calls then
      NotAnswered(before, s, volume)
      || exists err: Error ::
           EndedWith(before, s, volume, err) && Means(cfg, s.stores, volume, spec, own, failed, served, err)
    else
      && NotAnswered(before, s, volume)
      && match s.calls[volume]
         case GetFirst(sp) =>
           sp == spec && failed == FirstReadFails(rest, volume) && Lookup(s.stores.splits, SplitName(volume)) == own
         case PutSplit(sp) => sp == spec && !failed && Lookup(s.stores.splits, SplitName(volume)) == own
         case GetAgain(sp) => sp == spec && !failed && own.Some?
         case LookClaim(split, _) =>
           !failed && own.None? && split == Filled(cfg.claimNamePrefix, spec) && HasSplit(s.stores, volume, split)
         case PutClaim(split, _) =>
           !failed && own.None? && split == Filled(cfg.claimNamePrefix, spec) && HasSplit(s.stores, volume, split)
         case _ => false
  }

  lemma EndingStays(before: State, s: State, s': State, volume: string, err: Error)
    requires Grown(before, s) && Grown(s, s')
    requires forall n: nat | |s.answers| <= n < |s'.answers| :: s'.answers[n].volume != volume
    ensures NotAnswered(before, s, volume) ==> NotAnswered(before, s', volume)
    ensures EndedWith(before, s, volume, err) ==> EndedWith(before, s', volume, err)
  {
    assert forall n: nat | n < |s.answers| :: s'.answers[n] == s.answers[n];
  }

  lemma OthersStand(cfg: Config, before: State, s: State, step: Step, volume: string,
    spec: SplitSpec, own: Option<SplitSpec>, failed: bool, served: bool, rest: seq<Step>)
    requires Inv(cfg, s) && OneCallStep(cfg, step, volume) && !(step.Go? && step.volume == volume) && !step.Crash?
    requires Grown(before, s) && Stands(cfg, before, s, volume, spec, own, failed, served, [step] + rest)
    ensures Stands(cfg, before, Apply(cfg, s, step), volume, spec, own, failed, served, rest)
  {
    var s' := Apply(cfg, s, step);
    OthersGrow(cfg, s, step, volume);
    OthersLeaveSplit(cfg, s, step, volume);
    assert ([step] + rest)[0] == step && ([step] + rest)[1..] == rest;
    if volume in s.calls {
      assert s'.calls[volume] == s.calls[volume];
      EndingStays(before, s, s', volume, Nil);
    } else if NotAnswered(before, s, volume) {
      EndingStays(before, s, s', volume, Nil);
    } else {
      var err: Error :|
        EndedWith(before, s, volume, err) && Means(cfg, s.stores, volume, spec, own, failed, served, err);
      EndingStays(before, s, s', volume, err);
    }
  }

  lemma EndsNow(before: State, s: State, s': State, volume: string, err: Error)
    requires Grown(before, s) && NotAnswered(before, s, volume)
    requires s'.answers == s.answers + [Answer(volume, true, err)]
    ensures EndedWith(before, s', volume, err)
  {
    assert s'.answers[|s.answers|] == Answer(volume, true, err);
  }

  lemma OwnStands(cfg: Config, before: State, s: State, reply: Reply, volume: string,
    spec: SplitSpec, own: Option<SplitSpec>, failed: bool, served: bool, rest: seq<Step>)
    requires cfg.lookup.SuffixedTwice? && Inv(cfg, s) && volume in s.calls && (served ==> reply.Served?)
    requires Grown(before, s) && Stands(cfg, before, s, volume, spec, own, failed, served, [Go(volume, reply)] + rest)
    ensures Stands(cfg, before, Apply(cfg, s, Go(volume, reply)), volume, spec, own, failed, served, rest)
  {
    var s', pc, step := Apply(cfg, s, Go(volume, reply)), s.calls[volume], Go(volume, reply);
    assert ([step] + rest)[0] == step;
    assert CallOk(cfg, s.stores, volume, pc);
    GoStep(cfg, s, volume, reply);
    var next := Progress(cfg, s.stores, volume, pc, reply, FoundInCache(s, pc)).1;
    OwnProgress(cfg, s.stores, volume, pc, reply, FoundInCache(s, pc), spec, own, failed, served);
    if next.Return? {
      EndsNow(before, s, s', volume, next.err);
    }
  }

  /** One access of the call: what it leaves, and where it leads. */
  lemma OwnProgress(cfg: Config, st: Stores, volume: string, pc: Pc, reply: Reply, cached: bool,
    spec: SplitSpec, own: Option<SplitSpec>, failed: bool, served: bool)
    requires cfg.lookup.SuffixedTwice? && NoPair(cfg) && SplitsOk(cfg, st) && CallOk(cfg, st, volume, pc)
    requires served ==> reply.Served?
    requires pc.GetFirst? || pc.PutSplit? ==> pc.spec == spec && Lookup(st.splits, SplitName(volume)) == own
    requires pc.GetFirst? ==> failed == !reply.Served?
    requires !pc.GetFirst? ==> !failed
    requires pc.GetAgain? ==> pc.spec == spec && own.Some?
    requires pc.MakesClaims() ==> own.None? && pc.split == Filled(cfg.claimNamePrefix, spec)
    requires pc.Creates()
    ensures var (st', next) := Progress(cfg, st, volume, pc, reply, cached);
      match next
      case Return(err) => Means(cfg, st', volume, spec, own, failed, served, err)
      case Continue(pc') =>
        && !failed && !pc'.GetFirst? && pc'.Creates()
        && (pc'.PutSplit? ==> pc'.spec == spec && Lookup(st'.splits, SplitName(volume)) == own)
        && (pc'.GetAgain? ==> pc'.spec == spec && own.Some?)
        && (pc'.MakesClaims() ==>
              own.None? && pc'.split == Filled(cfg.claimNamePrefix, spec) && HasSplit(st', volume, pc'.split))
  {
    if LookupName(cfg, volume) in st.splits {
      FoundIsOwn(cfg, st, volume);
    }
    if pc.PutSplit? {
      FilledSplits(cfg.claimNamePrefix, spec);
    }
  }

  lemma {:induction false} RunStands(cfg: Config, before: State, s: State, steps: seq<Step>, volume: string,
    spec: SplitSpec, own: Option<SplitSpec>, failed: bool, served: bool)
    requires cfg.lookup.SuffixedTwice? && Inv(cfg, s) && OneCall(cfg, steps, volume)
    requires (served ==> OwnServed(steps, volume))
    requires Grown(before, s) && Stands(cfg, before, s, volume, spec, own, failed, served, steps)
    ensures Stands(cfg, before, Run(cfg, s, steps), volume, spec, own, failed, served, [])
    decreases |steps|
  {
    if steps != [] {
      var step, rest := steps[0], steps[1..];
      OneCallTail(cfg, steps, volume);
      assert OneCallStep(cfg, step, volume) && [step] + rest == steps;
      assert served ==> OwnServed(rest, volume) by {
        assert forall i | 0 <= i < |rest| :: rest[i] == steps[i + 1];
      }
      StepStands(cfg, before, s, step, volume, spec, own, failed, served, rest);
      InvStep(cfg, s, step);
      RunStands(cfg, before, Apply(cfg, s, step), rest, volume, spec, own, failed, served);
    }
  }

  lemma StepStands(cfg: Config, before: State, s: State, step: Step, volume: string,
    spec: SplitSpec, own: Option<SplitSpec>, failed: bool, served: bool, rest: seq<Step>)
    requires cfg.lookup.SuffixedTwice? && Inv(cfg, s) && OneCallStep(cfg, step, volume)
    requires served && step.Go? && step.volume == volume ==> step.reply.Served?
    requires Grown(before, s) && Stands(cfg, before, s, volume, spec, own, failed, served, [step] + rest)
    ensures Stands(cfg, before, Apply(cfg, s, step), volume, spec, own, failed, served, rest)
    ensures Grown(s, Apply(cfg, s, step))
  {
    if step.Crash? {
      assert Apply(cfg, s, step).answers == s.answers;
      if volume !in s.calls && !NotAnswered(before, s, volume) {
        var err: Error :|
          EndedWith(before, s, volume, err) && Means(cfg, s.stores, volume, spec, own, failed, served, err);
        assert EndedWith(before, Apply(cfg, s, step), volume, err);
      }
    } else if !(step.Go? && step.volume == volume) {
      OthersGrow(cfg, s, step, volume);
      OthersStand(cfg, before, s, step, volume, spec, own, failed, served, rest);
    } else {
      OwnGrow(cfg, s, volume, step.reply);
      if volume in s.calls {
        OwnStands(cfg, before, s, step.reply, volume, spec, own, failed, served, rest);
      }
    }
  }

  /** Every answer to a create, in any run: what it means, as written. */
  lemma CreateMeans(cfg: Config, s: State, volume: string, options: LowerOptions, steps: seq<Step>, now: State)
    requires cfg.lookup.SuffixedTwice? && Inv(cfg, s) && volume !in s.calls && NameOk(cfg, volume)
    requires OneCall(cfg, steps, volume) && now == Run(cfg, Apply(cfg, s, Begin(volume, Create(options))), steps)
    requires volume !in now.calls
    ensures var own, spec := Lookup(s.stores.splits, SplitName(volume)), SpecOf(volume, options);
      || NotAnswered(s, now, volume)
      || exists err: Error :: EndedWith(s, now, volume, err)
           && Means(cfg, now.stores, volume, spec, own, FirstReadFails(steps, volume), OwnServed(steps, volume), err)
  {
    var s1, spec := Apply(cfg, s, Begin(volume, Create(options))), SpecOf(volume, options);
    var own := Lookup(s.stores.splits, SplitName(volume));
    InvStep(cfg, s, Begin(volume, Create(options)));
    RunStands(cfg, s1, s1, steps, volume, spec, own, FirstReadFails(steps, volume), OwnServed(steps, volume));
    if !NotAnswered(s1, now, volume) {
      var err: Error :| EndedWith(s1, now, volume, err)
        && Means(cfg, now.stores, volume, spec, own, FirstReadFails(steps, volume), OwnServed(steps, volume), err);
      assert EndedWith(s, now, volume, err);
    }
  }

  lemma OneEnd(before: State, now: State, volume: string, a: Error, b: Error)
    requires EndedWith(before, now, volume, a) && EndedWith(before, now, volume, b)
    ensures a == b
  {
    var n: nat :| |before.answers| <= n < |now.answers| && now.answers[n].volume == volume;
    assert now.answers[n] == Answer(volume, true, a);
  }

  /** So in every run: as written a create ends with a mismatch exactly when its first read has failed and
      the request does not suit the empty split; whatever split is stored has no say in it. */
  lemma MismatchInRunsIff(cfg: Config, s: State, volume: string, options: LowerOptions, steps: seq<Step>, now: State)
    requires cfg.lookup.SuffixedTwice? && Inv(cfg, s) && volume !in s.calls && NameOk(cfg, volume)
    requires OneCall(cfg, steps, volume) && now == Run(cfg, Apply(cfg, s, Begin(volume, Create(options))), steps)
    requires volume !in now.calls && !NotAnswered(s, now, volume)
    ensures EndedWith(s, now, volume, ErrIdempotencyIncompatible) <==>
      FirstReadFails(steps, volume) && !Compatible(EMPTY_SPEC, SpecOf(volume, options))
  {
    CreateMeans(cfg, s, volume, options, steps, now);
    var own, spec := Lookup(s.stores.splits, SplitName(volume)), SpecOf(volume, options);
    var err: Error :| EndedWith(s, now, volume, err)
      && Means(cfg, now.stores, volume, spec, own, FirstReadFails(steps, volume), OwnServed(steps, volume), err);
    if EndedWith(s, now, volume, ErrIdempotencyIncompatible) {
      OneEnd(s, now, volume, err, ErrIdempotencyIncompatible);
    }
  }

  /** The same, for a call whose answer has just been given. */
  lemma EndsAs(cfg: Config, s: State, volume: string, options: LowerOptions, steps: seq<Step>, now: State, err: Error)
    requires cfg.lookup.SuffixedTwice? && Inv(cfg, s) && volume !in s.calls && NameOk(cfg, volume)
    requires OneCall(cfg, steps, volume) && NoCrash(steps)
    requires now == Run(cfg, Apply(cfg, s, Begin(volume, Create(options))), steps)
    requires volume !in now.calls && |now.answers| > 0 && now.answers[|now.answers| - 1] == Answer(volume, true, err)
    ensures err == ErrIdempotencyIncompatible <==>
      FirstReadFails(steps, volume) && !Compatible(EMPTY_SPEC, SpecOf(volume, options))
  {
    LeavesWithAnswer(cfg, Apply(cfg, s, Begin(volume, Create(options))), steps, volume);
    assert !NotAnswered(s, now, volume);
    CreateMeans(cfg, s, volume, options, steps, now);
    MismatchInRunsIff(cfg, s, volume, options, steps, now);
    var e: Error :| EndedWith(s, now, volume, e);
    assert now.answers[|now.answers| - 1] == Answer(volume, true, e);
  }

  /** What a call leaves and what its answer means, when it has just been given. */
  lemma EndsProperly(cfg: Config, s: State, volume: string, options: LowerOptions, steps: seq<Step>, now: State,
    err: Error)
    requires cfg.lookup.SuffixedTwice? && Inv(cfg, s) && volume !in s.calls && NameOk(cfg, volume)
    requires OneCall(cfg, steps, volume) && NoCrash(steps)
    requires now == Run(cfg, Apply(cfg, s, Begin(volume, Create(options))), steps)
    requires volume !in now.calls && |now.answers| > 0 && now.answers[|now.answers| - 1] == Answer(volume, true, err)
    ensures err == Nil ==> ClaimsAsSeen(s, now, volume, Filled(cfg.claimNamePrefix, SpecOf(volume, options)))
    ensures err == ErrIdempotencyIncompatible <==>
      FirstReadFails(steps, volume) && !Compatible(EMPTY_SPEC, SpecOf(volume, options))
  {
    EndsAs(cfg, s, volume, options, steps, now, err);
    if err == Nil {
      OkAsSeen(cfg, s, volume, options, steps, now);
    }
  }

  /** The idempotent retry never works: as written a create of a volume that has a split does not end OK,
      and one that meets no fault ends not found, whether the split suits the request or not. */
  lemma IdempotentRetryNeverWorks(cfg: Config, s: State, volume: string, options: LowerOptions, steps: seq<Step>,
    now: State)
    requires cfg.lookup.SuffixedTwice? && Inv(cfg, s) && volume !in s.calls && NameOk(cfg, volume)
    requires SplitName(volume) in s.stores.splits
    requires OneCall(cfg, steps, volume) && now == Run(cfg, Apply(cfg, s, Begin(volume, Create(options))), steps)
    requires volume !in now.calls && !NotAnswered(s, now, volume)
    ensures !EndedWith(s, now, volume, Nil)
    ensures OwnServed(steps, volume) ==> EndedWith(s, now, volume, ErrVolumeNotFound)
  {
    CreateMeans(cfg, s, volume, options, steps, now);
    var own, spec := Lookup(s.stores.splits, SplitName(volume)), SpecOf(volume, options);
    var err: Error :| EndedWith(s, now, volume, err)
      && Means(cfg, now.stores, volume, spec, own, FirstReadFails(steps, volume), OwnServed(steps, volume), err);
    if EndedWith(s, now, volume, Nil) {
      OneEnd(s, now, volume, err, Nil);
    }
  }

  // ---------- Exactly when the documented contract holds ----------

  /** In this run, a create that has been answered has done as its comment promises: it ends OK only with
      the suitable split there was, or with one filled from the request if there was none; it reports a
      mismatch only if there was an unsuitable one; and if it meets no fault, it reports that, and never
      that there is no split. */
  ghost predicate AsPromised(cfg: Config, s: State, volume: string, options: LowerOptions, steps: seq<Step>) {
    var now := Run(cfg, Apply(cfg, s, Begin(volume, Create(options))), steps);
    var own, spec := Lookup(s.stores.splits, SplitName(volume)), SpecOf(volume, options);
    volume !in now.calls && !NotAnswered(s, now, volume) ==>
      && (EndedWith(s, now, volume, Nil) ==>
            exists split: SplitSpec :: HasSplit(now.stores, volume, split) && IsWanted(cfg, own, spec, split))
      && (EndedWith(s, now, volume, ErrIdempotencyIncompatible) ==> own.Some? && !Compatible(own.value, spec))
      && (OwnServed(steps, volume) ==>
            && !EndedWith(s, now, volume, ErrVolumeNotFound)
            && (own.Some? && !Compatible(own.value, spec) ==> EndedWith(s, now, volume, ErrIdempotencyIncompatible)))
  }

  /** Exactly when does the code keep it in every run?  When the volume has no split, and the request is
      such that it would suit an empty one: without namespace, class, size and access modes. */
  lemma ContractIff(cfg: Config, s: State, volume: string, options: LowerOptions)
    requires cfg.lookup.SuffixedTwice? && Inv(cfg, s) && volume !in s.calls && NameOk(cfg, volume)
    ensures (forall steps: seq<Step> :: OneCall(cfg, steps, volume) ==> AsPromised(cfg, s, volume, options, steps)) <==>
      SplitName(volume) !in s.stores.splits && Compatible(EMPTY_SPEC, SpecOf(volume, options))
  {
    if SplitName(volume) in s.stores.splits {
      var steps := EndsNotFound(cfg, s, volume, options);
      assert !AsPromised(cfg, s, volume, options, steps);
    } else if !Compatible(EMPTY_SPEC, SpecOf(volume, options)) {
      var steps := EndsMismatched(cfg, s, volume, options);
      assert !AsPromised(cfg, s, volume, options, steps);
    } else {
      forall steps: seq<Step> | OneCall(cfg, steps, volume) ensures AsPromised(cfg, s, volume, options, steps) {
        NewIsAsPromised(cfg, s, volume, options, steps);
      }
    }
  }

  lemma NewIsAsPromised(cfg: Config, s: State, volume: string, options: LowerOptions, steps: seq<Step>)
    requires cfg.lookup.SuffixedTwice? && Inv(cfg, s) && volume !in s.calls && NameOk(cfg, volume)
    requires SplitName(volume) !in s.stores.splits && Compatible(EMPTY_SPEC, SpecOf(volume, options))
    requires OneCall(cfg, steps, volume)
    ensures AsPromised(cfg, s, volume, options, steps)
  {
    var now := Run(cfg, Apply(cfg, s, Begin(volume, Create(options))), steps);
    var own, spec := Lookup(s.stores.splits, SplitName(volume)), SpecOf(volume, options);
    if volume !in now.calls && !NotAnswered(s, now, volume) {
      CreateMeans(cfg, s, volume, options, steps, now);
      var err: Error :| EndedWith(s, now, volume, err)
        && Means(cfg, now.stores, volume, spec, own, FirstReadFails(steps, volume), OwnServed(steps, volume), err);
      forall e | EndedWith(s, now, volume, e) ensures e == err {
        OneEnd(s, now, volume, e, err);
      }
      if err == Nil {
        assert HasSplit(now.stores, volume, Filled(cfg.claimNamePrefix, spec));
        assert IsWanted(cfg, own, spec, Filled(cfg.claimNamePrefix, spec));
      }
    }
  }

  /** A create whose first read fails, undisturbed: a mismatch is reported and nothing stored changes,
      whether the volume has a split or not. */
  lemma EndsMismatched(cfg: Config, s: State, volume: string, options: LowerOptions) returns (steps: seq<Step>)
    requires volume !in s.calls && !Compatible(EMPTY_SPEC, SpecOf(volume, options)) && NameOk(cfg, volume)
    ensures OneCall(cfg, steps, volume)
    ensures var now := Run(cfg, Apply(cfg, s, Begin(volume, Create(options))), steps);
      volume !in now.calls && EndedWith(s, now, volume, ErrIdempotencyIncompatible) && now.stores == s.stores
  {
    var s1 := Apply(cfg, s, Begin(volume, Create(options)));
    RunOne(cfg, s1, Go(volume, Refused));
    steps := [Go(volume, Refused)];
    EndsNow(s, s, Apply(cfg, s1, steps[0]), volume, ErrIdempotencyIncompatible);
  }

  /** A create of a volume that has a split, undisturbed and without faults. */
  lemma EndsNotFound(cfg: Config, s: State, volume: string, options: LowerOptions) returns (steps: seq<Step>)
    requires cfg.lookup.SuffixedTwice? && Inv(cfg, s) && volume !in s.calls && NameOk(cfg, volume)
    requires SplitName(volume) in s.stores.splits
    ensures OneCall(cfg, steps, volume) && OwnServed(steps, volume)
    ensures var now := Run(cfg, Apply(cfg, s, Begin(volume, Create(options))), steps);
      volume !in now.calls && EndedWith(s, now, volume, ErrVolumeNotFound)
  {
    var go, s1 := Go(volume, Served), Apply(cfg, s, Begin(volume, Create(options)));
    InvStep(cfg, s, Begin(volume, Create(options)));
    var s3 := ReadsAgain(cfg, s1, volume, SpecOf(volume, options));
    RunSnoc(cfg, s1, [go] + [go], go);
    steps := [go] + [go] + [go];
    GoStep(cfg, s3, volume, Served);
    EndsNow(s3, s3, Apply(cfg, s3, go), volume, ErrVolumeNotFound);
  }

  lemma ReadsAgain(cfg: Config, s: State, volume: string, spec: SplitSpec) returns (s': State)
    requires cfg.lookup.SuffixedTwice? && Inv(cfg, s) && volume in s.calls && s.calls[volume] == GetFirst(spec)
    requires SplitName(volume) in s.stores.splits
    ensures s' == Run(cfg, s, [Go(volume, Served)] + [Go(volume, Served)])
    ensures volume in s'.calls && s'.calls[volume] == GetAgain(spec) && LookupName(cfg, volume) !in s'.stores.splits
    ensures s'.answers == s.answers
  {
    assert CallOk(cfg, s.stores, volume, s.calls[volume]);
    if LookupName(cfg, volume) in s.stores.splits {
      FoundIsOwn(cfg, s.stores, volume);
    }
    var go := Go(volume, Served);
    GoStep(cfg, s, volume, Served);
    GoStep(cfg, Apply(cfg, s, go), volume, Served);
    RunTwo(cfg, s, go, go);
    s' := Apply(cfg, Apply(cfg, s, go), go);
  }

  /** From the empty state: a first read that fails makes a create of a new volume report a mismatch with a
      split that does not exist. */
  lemma MismatchWithNothing(cfg: Config, volume: string, options: LowerOptions) returns (steps: seq<Step>)
    requires NameOk(cfg, volume) && options.namespace != ""
    ensures NamesOk(cfg, steps)
    ensures var now := Run(cfg, INIT, steps);
      now.stores == INIT.stores && now.answers == [Answer(volume, true, ErrIdempotencyIncompatible)]
  {
    var b, go := Begin(volume, Create(options)), Go(volume, Refused);
    EmptySuits(SpecOf(volume, options));
    RunTwo(cfg, INIT, b, go);
    steps := [b] + [go];
  }
}
