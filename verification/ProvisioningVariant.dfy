/**
 A variant of the code, not the code: CreateSplit looks for an existing split by the volume
 id.  Here a create that meets no fault keeps the documented contract in every run, with
 crashes and the calls of other volumes in between; as written it does not
 (ProvisioningContract).
 */
module ProvisioningVariant {
  import opened Options
  import opened Names
  import opened SplitSpecs
  import opened Provisioning
  import opened ProvisioningInvariant
  import opened ProvisioningTheorems
  import opened ProvisioningClaims

  /** The split a create is to work with: the one there was, if it suits the request, or else, when
      there was none, the one filled from the request. */
  predicate IsWanted(cfg: Config, own: Option<SplitSpec>, spec: SplitSpec, split: SplitSpec) {
    match own
    case Some(existing) => split == existing && Compatible(existing, spec)
    case None => split == Filled(cfg.claimNamePrefix, spec)
  }

  ghost predicate Mismatched(before: State, now: State, volume: string) {
    exists n: nat :: |before.answers| <= n < |now.answers| &&
      now.answers[n] == Answer(volume, true, ErrIdempotencyIncompatible)
  }

  /** No access of the call for the volume is refused or loses its response. */
  ghost predicate OwnServed(steps: seq<Step>, volume: string) {
    forall i | 0 <= i < |steps| && steps[i].Go? && steps[i].volume == volume :: steps[i].reply.Served?
  }

  /** Where the create stands, given the split `own` that there was; `served` if it meets no fault. */
  ghost predicate Follows(cfg: Config, before: State, s: State, volume: string,
    spec: SplitSpec, own: Option<SplitSpec>, served: bool) {
    if volume !in s.calls then
      && (CreatedOk(before, s, volume) ==>
        exists split: SplitSpec :: HasSplit(s.stores, volume, split) && IsWanted(cfg, own, spec, split))
      && (served && !NotAnswered(before, s, volume) ==>
            (Mismatched(before, s, volume) <==> own.Some? && !Compatible(own.value, spec)))
    else
      && NotAnswered(before, s, volume)
      && match s.calls[volume]
         case GetFirst(sp) => sp == spec && Lookup(s.stores.splits, SplitName(volume)) == own
         case PutSplit(sp) => sp == spec && own.None? && SplitName(volume) !in s.stores.splits
         case LookClaim(split, _) => HasSplit(s.stores, volume, split) && IsWanted(cfg, own, spec, split)
         case PutClaim(split, _) => HasSplit(s.stores, volume, split) && IsWanted(cfg, own, spec, split)
         case _ => false
  }

  lemma OthersFollow(cfg: Config, before: State, s: State, step: Step, volume: string,
    spec: SplitSpec, own: Option<SplitSpec>, served: bool)
    requires Inv(cfg, s) && OneCallStep(cfg, step, volume) && !(step.Go? && step.volume == volume) && !step.Crash?
    requires Grown(before, s) && Follows(cfg, before, s, volume, spec, own, served)
    ensures Follows(cfg, before, Apply(cfg, s, step), volume, spec, own, served)
  {
    var s' := Apply(cfg, s, step);
    OthersGrow(cfg, s, step, volume);
    OthersLeaveSplit(cfg, s, step, volume);
    if volume in s.calls {
      assert s'.calls[volume] == s.calls[volume];
    } else {
      if CreatedOk(before, s', volume) {
        assert CreatedOk(before, s, volume);
      }
      SameAnswers(before, s, s', volume);
    }
  }

  lemma CrashFollows(cfg: Config, before: State, s: State, volume: string,
    spec: SplitSpec, own: Option<SplitSpec>, served: bool)
    requires Follows(cfg, before, s, volume, spec, own, served)
    ensures Grown(s, Apply(cfg, s, Crash)) && Follows(cfg, before, Apply(cfg, s, Crash), volume, spec, own, served)
  {
    var s' := Apply(cfg, s, Crash);
    SameAnswers(s, s, s', volume);
    if volume !in s.calls {
      if CreatedOk(before, s', volume) {
        assert CreatedOk(before, s, volume);
      }
      assert Mismatched(before, s', volume) <==> Mismatched(before, s, volume);
      assert NotAnswered(before, s', volume) <==> NotAnswered(before, s, volume);
    }
  }

  lemma SameAnswers(before: State, s: State, s': State, volume: string)
    requires Grown(before, s) && Grown(s, s')
    requires forall n: nat | |s.answers| <= n < |s'.answers| :: s'.answers[n].volume != volume
    ensures Mismatched(before, s', volume) <==> Mismatched(before, s, volume)
    ensures NotAnswered(before, s', volume) <==> NotAnswered(before, s, volume)
  {
    assert forall n: nat | n < |s.answers| :: s'.answers[n] == s.answers[n];
    if Mismatched(before, s, volume) {
      var n: nat :| |before.answers| <= n < |s.answers| &&
        s.answers[n] == Answer(volume, true, ErrIdempotencyIncompatible);
      assert s'.answers[n] == s.answers[n];
    }
  }

  lemma OneMismatch(before: State, s: State, s': State, volume: string, err: Error)
    requires Grown(before, s) && NotAnswered(before, s, volume) && volume !in s'.calls
    requires s'.answers == s.answers + [Answer(volume, true, err)]
    ensures Mismatched(before, s', volume) <==> err == ErrIdempotencyIncompatible
  {
    assert s'.answers[|s.answers|] == Answer(volume, true, err);
  }

  lemma ClaimsOfOneSplit(cfg: Config, st: Stores, volume: string, pc: Pc, reply: Reply, cached: bool)
    requires pc.MakesClaims() && Wellformed(pc) && HasSplit(st, volume, pc.split)
    ensures var (st', next) := Progress(cfg, st, volume, pc, reply, cached);
      && HasSplit(st', volume, pc.split)
      && (if next.Continue? then next.pc.MakesClaims() &&
        next.pc.split == pc.split else next.err != ErrIdempotencyIncompatible)
  {}

  lemma OwnClaimFollows(cfg: Config, before: State, s: State, reply: Reply, volume: string,
    spec: SplitSpec, own: Option<SplitSpec>, served: bool)
    requires Inv(cfg, s) && volume in s.calls && s.calls[volume].MakesClaims() && (served ==> reply.Served?)
    requires Grown(before, s) && Follows(cfg, before, s, volume, spec, own, served)
    ensures Follows(cfg, before, Apply(cfg, s, Go(volume, reply)), volume, spec, own, served)
  {
    var s', pc := Apply(cfg, s, Go(volume, reply)), s.calls[volume];
    assert CallOk(cfg, s.stores, volume, pc);
    GoStep(cfg, s, volume, reply);
    var next := Progress(cfg, s.stores, volume, pc, reply, FoundInCache(s, pc)).1;
    ClaimsOfOneSplit(cfg, s.stores, volume, pc, reply, FoundInCache(s, pc));
    if next.Return? {
      OneAnswer(before, s, s', volume, next.err);
      OneMismatch(before, s, s', volume, next.err);
    }
  }

  lemma OwnFollows(cfg: Config, before: State, s: State, reply: Reply, volume: string,
    spec: SplitSpec, own: Option<SplitSpec>, served: bool)
    requires cfg.lookup.ByVolumeId? && Inv(cfg, s) && volume in s.calls && (served ==> reply.Served?)
    requires Grown(before, s) && Follows(cfg, before, s, volume, spec, own, served) && spec.splits == []
    ensures Follows(cfg, before, Apply(cfg, s, Go(volume, reply)), volume, spec, own, served)
  {
    var s', pc := Apply(cfg, s, Go(volume, reply)), s.calls[volume];
    if pc.MakesClaims() {
      OwnClaimFollows(cfg, before, s, reply, volume, spec, own, served);
      return;
    }
    assert CallOk(cfg, s.stores, volume, pc);
    GoStep(cfg, s, volume, reply);
    var next := Progress(cfg, s.stores, volume, pc, reply, FoundInCache(s, pc)).1;
    if next.Return? {
      OneAnswer(before, s, s', volume, next.err);
      OneMismatch(before, s, s', volume, next.err);
    }
    FilledSplits(cfg.claimNamePrefix, spec);
    if pc.GetFirst? && reply.Served? && own.Some? {
      assert StoredOk(cfg, SplitName(volume), own.value);
      FilledSplits(cfg.claimNamePrefix, own.value.(splits := []));
    }
  }

  lemma {:induction false} RunFollows(cfg: Config, before: State, s: State, steps: seq<Step>, volume: string,
    spec: SplitSpec, own: Option<SplitSpec>, served: bool)
    requires cfg.lookup.ByVolumeId? && Inv(cfg, s) && OneCall(cfg, steps, volume)
    requires (served ==> OwnServed(steps, volume))
    requires Grown(before, s) && Follows(cfg, before, s, volume, spec, own, served) && spec.splits == []
    ensures Follows(cfg, before, Run(cfg, s, steps), volume, spec, own, served)
    decreases |steps|
  {
    if steps != [] {
      var step := steps[0];
      OneCallTail(cfg, steps, volume);
      assert OneCallStep(cfg, step, volume);
      assert served ==> OwnServed(steps[1..], volume) by {
        assert forall i | 0 <= i < |steps[1..]| :: steps[1..][i] == steps[i + 1];
      }
      if step.Crash? {
        CrashFollows(cfg, before, s, volume, spec, own, served);
      } else if !(step.Go? && step.volume == volume) {
        OthersGrow(cfg, s, step, volume);
        OthersFollow(cfg, before, s, step, volume, spec, own, served);
      } else {
        OwnGrow(cfg, s, volume, step.reply);
        if volume in s.calls {
          OwnFollows(cfg, before, s, step.reply, volume, spec, own, served);
        }
      }
      InvStep(cfg, s, step);
      RunFollows(cfg, before, Apply(cfg, s, step), steps[1..], volume, spec, own, served);
    }
  }

  /** In the variant, whatever fails and whatever others do meanwhile: a create that ends OK works with
      the split there was, if there was one, and that one suits the request; otherwise with one filled
      from the request.  And one that meets no fault and has been answered has reported a mismatch exactly when
      there was a split that does not suit. */
  lemma CreateIsAsDocumented(cfg: Config, s: State, volume: string, options: LowerOptions, steps: seq<Step>)
    requires cfg.lookup.ByVolumeId? && Inv(cfg, s) && volume !in s.calls && NameOk(cfg, volume)
    requires OneCall(cfg, steps, volume)
    ensures var now := Run(cfg, Apply(cfg, s, Begin(volume, Create(options))), steps);
      var own, spec := Lookup(s.stores.splits, SplitName(volume)), SpecOf(volume, options);
      && (CreatedOk(s, now, volume) ==>
        exists split: SplitSpec :: HasSplit(now.stores, volume, split) && IsWanted(cfg, own, spec, split))
      && (!NotAnswered(s, now, volume) && OwnServed(steps, volume) ==>
            (Mismatched(s, now, volume) <==> own.Some? && !Compatible(own.value, spec)))
  {
    var s1, spec := Apply(cfg, s, Begin(volume, Create(options))), SpecOf(volume, options);
    var own := Lookup(s.stores.splits, SplitName(volume));
    InvStep(cfg, s, Begin(volume, Create(options)));
    if OwnServed(steps, volume) {
      RunFollows(cfg, s1, s1, steps, volume, spec, own, true);
    }
    RunFollows(cfg, s1, s1, steps, volume, spec, own, false);
  }
}
