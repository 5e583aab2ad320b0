/** What CreateVolume and DeleteVolume guarantee, over all runs with faults. */
module ProvisioningTheorems {
  import opened Options
  import opened Names
  import opened SplitSpecs
  import opened Provisioning
  import opened ProvisioningInvariant

  // ---------- No orphans ----------

  /** In every reachable state every live claim is listed by a split that still exists, and is in the
      namespace, of the size and of the kind that the split says. */
  lemma NoOrphanClaims(cfg: Config, steps: seq<Step>)
    requires NoPair(cfg) && NamesOk(cfg, steps)
    ensures NoOrphans(Run(cfg, INIT, steps).stores)
    ensures var st := Run(cfg, INIT, steps).stores;
      forall key | key in st.claims :: exists name, i: nat ::
        && name in st.splits && i < |st.splits[name].splits|
        && IsClaimOf(st, st.splits[name], i, key)
  {
    InitInv(cfg);
    InvRun(cfg, INIT, steps);
    var st := Run(cfg, INIT, steps).stores;
    forall key | key in st.claims
      ensures exists name, i: nat ::
        name in st.splits && i < |st.splits[name].splits| && IsClaimOf(st, st.splits[name], i, key)
    {
      var name :| name in st.splits && Lists(st.splits[name], key);
      var i :| 0 <= i < |st.splits[name].splits| && key == KeyOf(st.splits[name], i);
      assert AsListed(st, st.splits[name]);
      assert IsClaimOf(st, st.splits[name], i, key);
    }
  }

  /** The claim stored under the key is what the split lists under number i. */
  predicate IsClaimOf(st: Stores, split: SplitSpec, i: nat, key: ClaimKey) {
    && i < |split.splits| && key in st.claims
    && key.namespace == split.namespace && key.name == split.splits[i].claimName
    && st.claims[key] == Claim(split.accessModes, split.splits[i].request, split.storageClassName)
  }

  /** Neither the split nor any claim of the volume, in any namespace, is left. */
  ghost predicate Gone(cfg: Config, st: Stores, volume: string) {
    && SplitName(volume) !in st.splits
    && forall key, i: nat | key in st.claims :: key.name != ClaimName(cfg.claimNamePrefix, volume, i)
  }

  lemma NoSplitNoClaims(cfg: Config, st: Stores, volume: string)
    requires SplitsOk(cfg, st) && NoOrphans(st) && SplitName(volume) !in st.splits
    ensures Gone(cfg, st, volume)
  {
    forall key, i: nat | key in st.claims ensures key.name != ClaimName(cfg.claimNamePrefix, volume, i) {
      assert Recorded(st.splits, key);
      var name :| name in st.splits && Lists(st.splits[name], key);
      var split := st.splits[name];
      assert StoredOk(cfg, name, split);
      var j :| 0 <= j < |split.splits| && key == KeyOf(split, j);
      if key.name == ClaimName(cfg.claimNamePrefix, volume, i) {
        ClaimNameIsInjective(cfg.claimNamePrefix, volume, i, split.volumeName, j);
      }
    }
  }

  /** Answered OK by DeleteVolume: no error, or the volume is not found. */
  predicate DeletedOk(a: Answer, volume: string) {
    a.volume == volume && !a.created && (a.err == Nil || a.err == ErrVolumeNotFound)
  }

  /** Steps of the run in which the answer is given. */
  predicate Answers(cfg: Config, s: State, step: Step, volume: string) {
    var s' := Apply(cfg, s, step);
    |s'.answers| > |s.answers| && DeletedOk(s'.answers[|s.answers|], volume)
  }

  lemma DeleteOkLeavesNothing(cfg: Config, s: State, step: Step, volume: string)
    requires Inv(cfg, s) && Answers(cfg, s, step, volume)
    ensures Gone(cfg, Apply(cfg, s, step).stores, volume)
  {
    InvStep(cfg, s, step);
    assert CallOk(cfg, s.stores, volume, s.calls[volume]);
    NoSplitNoClaims(cfg, Apply(cfg, s, step).stores, volume);
  }

  /** Every OK answer of DeleteVolume, at any point of any run, leaves nothing of the volume. */
  lemma DeleteOkInEveryRun(cfg: Config, steps: seq<Step>, step: Step, volume: string)
    requires NoPair(cfg) && NamesOk(cfg, steps) && Answers(cfg, Run(cfg, INIT, steps), step, volume)
    ensures Gone(cfg, Apply(cfg, Run(cfg, INIT, steps), step).stores, volume)
  {
    InitInv(cfg);
    InvRun(cfg, INIT, steps);
    DeleteOkLeavesNothing(cfg, Run(cfg, INIT, steps), step, volume);
  }

  // ---------- Retried deletion converges ----------

  /** The volume is only being deleted: no call creates it and none is begun to. */
  ghost predicate OnlyDeletes(s: State, steps: seq<Step>, volume: string) {
    && (volume in s.calls ==> !s.calls[volume].Creates())
    && forall i | 0 <= i < |steps| :: steps[i].Begin? && steps[i].volume == volume ==> steps[i].request.Delete?
  }

  /** A turn of the deletion: an attempt is begun, or the pending attempt makes an access. */
  predicate IsTurn(s: State, step: Step, volume: string) {
    || (step.Begin? && step.volume == volume && volume !in s.calls)
    || (step.Go? && step.volume == volume && volume in s.calls)
  }

  predicate IsFault(step: Step, volume: string) {
    step.Crash? || (step.Go? && step.volume == volume && !step.reply.Served?)
  }

  function Turns(cfg: Config, s: State, steps: seq<Step>, volume: string): nat
    decreases |steps|
  {
    if steps == [] then 0
    else (if IsTurn(s, steps[0], volume) then 1 else 0) + Turns(cfg, Apply(cfg, s, steps[0]), steps[1..], volume)
  }

  function Faults(steps: seq<Step>, volume: string): nat {
    if steps == [] then 0 else (if IsFault(steps[0], volume) then 1 else 0) + Faults(steps[1..], volume)
  }

  function Listed(s: State, volume: string): nat {
    if SplitName(volume) in s.stores.splits then |s.stores.splits[SplitName(volume)].splits| else 0
  }

  /** Turns to an OK answer if no fault comes: the claims and the split left to the attempt. */
  function Left(s: State, volume: string): nat {
    if volume !in s.calls then Listed(s, volume) + 3
    else
      match s.calls[volume]
      case DropClaim(split, i) => if i <= |split.splits| then |split.splits| - i + 1 else 0
      case DropSplit(_) => 1
      case _ => Listed(s, volume) + 2
  }

  /** An attempt takes no more turns than this: begin, get, two claims, the split. */
  const ATTEMPT: nat := 5

  lemma ListedIsTwo(cfg: Config, s: State, volume: string)
    requires Inv(cfg, s)
    ensures Listed(s, volume) <= 2 && Left(s, volume) <= ATTEMPT
  {}

  lemma OthersLeaveSplit(cfg: Config, s: State, step: Step, volume: string)
    requires Inv(cfg, s) && (step.Begin? ==> NameOk(cfg, step.volume)) && !(step.Go? && step.volume == volume)
    ensures Lookup(Apply(cfg, s, step).stores.splits, SplitName(volume)) == Lookup(s.stores.splits, SplitName(volume))
  {
    InvStep(cfg, s, step);
    if step.Go? && SplitName(step.volume) == SplitName(volume) {
      SplitNameIsInjective(step.volume, volume);
    }
  }

  /** Every turn lowers the measure, unless it is answered OK; nothing else raises it. */
  lemma TurnLowersMeasure(cfg: Config, s: State, step: Step, volume: string)
    requires Inv(cfg, s) && OnlyDeletes(s, [step], volume) && (step.Begin? ==> NameOk(cfg, step.volume))
    ensures var s' := Apply(cfg, s, step);
      || Answers(cfg, s, step, volume)
      || Left(s', volume) + (if IsTurn(s, step, volume) then 1 else 0)
         <= Left(s, volume) + (if IsFault(step, volume) then ATTEMPT else 0)
    ensures OnlyDeletes(Apply(cfg, s, step), [], volume)
  {
    var s' := Apply(cfg, s, step);
    assert [step][0] == step;
    InvStep(cfg, s, step);
    ListedIsTwo(cfg, s, volume);
    ListedIsTwo(cfg, s', volume);
    if !(step.Go? && step.volume == volume) {
      OthersLeaveSplit(cfg, s, step, volume);
    } else if volume in s.calls {
      OwnTurnLowersMeasure(cfg, s, step, volume);
    }
  }

  lemma OwnTurnLowersMeasure(cfg: Config, s: State, step: Step, volume: string)
    requires Inv(cfg, s) && step.Go? && step.volume == volume && volume in s.calls && !s.calls[volume].Creates()
    ensures var s' := Apply(cfg, s, step);
      || Answers(cfg, s, step, volume)
      || (volume !in s'.calls && !step.reply.Served?)
      || (volume in s'.calls && !s'.calls[volume].Creates() && Left(s', volume) < Left(s, volume))
  {
    assert CallOk(cfg, s.stores, volume, s.calls[volume]);
  }

  lemma GoneStays(cfg: Config, s: State, step: Step, volume: string)
    requires Inv(cfg, s) && OnlyDeletes(s, [step], volume) && (step.Begin? ==> NameOk(cfg, step.volume))
    requires Gone(cfg, s.stores, volume)
    ensures Gone(cfg, Apply(cfg, s, step).stores, volume)
  {
    var s' := Apply(cfg, s, step);
    InvStep(cfg, s, step);
    if !(step.Go? && step.volume == volume) {
      OthersLeaveSplit(cfg, s, step, volume);
    }
    NoSplitNoClaims(cfg, s'.stores, volume);
  }

  /**
   Retried deletion converges: from any reachable state, however much of the volume has been
   created or deleted, and with everything else going on, enough turns for the number of
   faults leave neither the split nor any of its claims.
   */
  lemma {:induction false} DeletionConverges(cfg: Config, s: State, steps: seq<Step>, volume: string)
    requires Inv(cfg, s) && NamesOk(cfg, steps) && OnlyDeletes(s, steps, volume)
    requires Gone(cfg, s.stores, volume) || Turns(cfg, s, steps, volume) >= Left(s, volume) + ATTEMPT * Faults(steps,
      volume)
    ensures Gone(cfg, Run(cfg, s, steps).stores, volume)
    decreases |steps|
  {
    if steps == [] {
      LeftIsPositive(cfg, s, volume);
    } else {
      var step, rest := steps[0], steps[1..];
      NamesOkTail(cfg, steps);
      var s1 := Apply(cfg, s, step);
      InvStep(cfg, s, step);
      assert OnlyDeletes(s, [step], volume);
      TurnLowersMeasure(cfg, s, step, volume);
      assert OnlyDeletes(s1, rest, volume) by {
        assert forall i | 0 <= i < |rest| :: rest[i] == steps[i + 1];
      }
      if Gone(cfg, s.stores, volume) {
        GoneStays(cfg, s, step, volume);
      } else if Answers(cfg, s, step, volume) {
        DeleteOkLeavesNothing(cfg, s, step, volume);
      }
      DeletionConverges(cfg, s1, rest, volume);
    }
  }

  lemma LeftIsPositive(cfg: Config, s: State, volume: string)
    requires Inv(cfg, s)
    ensures Left(s, volume) > 0
  {
    if volume in s.calls {
      assert CallOk(cfg, s.stores, volume, s.calls[volume]);
    }
  }

  // ---------- A split never changes ----------

  ghost predicate NoDeletes(s: State, steps: seq<Step>, volume: string) {
    && (volume in s.calls ==> s.calls[volume].Creates())
    && forall i | 0 <= i < |steps| :: steps[i].Begin? && steps[i].volume == volume ==> steps[i].request.Create?
  }

  lemma CreateKeepsSplit(cfg: Config, st: Stores, volume: string, pc: Pc, reply: Reply, cached: bool, split: SplitSpec)
    requires Wellformed(pc) && pc.Creates() && HasSplit(st, volume, split)
    ensures var (st', next) := Progress(cfg, st, volume, pc, reply, cached);
      HasSplit(st', volume, split) && (next.Continue? ==> next.pc.Creates())
  {}

  lemma SplitStaysStep(cfg: Config, s: State, step: Step, volume: string, split: SplitSpec)
    requires Inv(cfg, s) && HasSplit(s.stores, volume, split) && (step.Begin? ==> NameOk(cfg, step.volume))
    requires NoDeletes(s, [step], volume)
    ensures HasSplit(Apply(cfg, s, step).stores, volume, split)
    ensures NoDeletes(Apply(cfg, s, step), [], volume)
  {
    var s' := Apply(cfg, s, step);
    assert [step][0] == step;
    if !(step.Go? && step.volume == volume) {
      OthersLeaveSplit(cfg, s, step, volume);
    } else if volume in s.calls && Wellformed(s.calls[volume]) {
      CreateKeepsSplit(cfg, s.stores, volume, s.calls[volume], step.reply, FoundInCache(s, s.calls[volume]), split);
    }
  }

  /** From its creation until the volume's deletion is begun, a split is stored under the name
      of its volume with the same specification, whatever creates are repeated. */
  lemma {:induction false} SplitIsStable(cfg: Config, s: State, steps: seq<Step>, volume: string, split: SplitSpec)
    requires Inv(cfg, s) && NamesOk(cfg, steps) && HasSplit(s.stores, volume, split) && NoDeletes(s, steps, volume)
    ensures HasSplit(Run(cfg, s, steps).stores, volume, split) && split.volumeName == volume
    decreases |steps|
  {
    if steps == [] {
      assert StoredOk(cfg, SplitName(volume), split);
      SplitNameIsInjective(volume, split.volumeName);
    } else {
      var rest := steps[1..];
      NamesOkTail(cfg, steps);
      assert NoDeletes(s, [steps[0]], volume);
      SplitStaysStep(cfg, s, steps[0], volume, split);
      InvStep(cfg, s, steps[0]);
      assert NoDeletes(Apply(cfg, s, steps[0]), rest, volume) by {
        assert forall i | 0 <= i < |rest| :: rest[i] == steps[i + 1];
      }
      SplitIsStable(cfg, Apply(cfg, s, steps[0]), rest, volume, split);
    }
  }

  // ---------- A repeated create, as written ----------

  /** The same claims of the volume are live as in s0, and no create of it has succeeded since. */
  ghost predicate NothingCreated(cfg: Config, s0: State, s: State, volume: string) {
    && SameClaims(cfg, s0.stores, s.stores, volume)
    && |s0.answers| <= |s.answers|
    && forall i | |s0.answers| <= i < |s.answers| && s.answers[i].volume == volume :: s.answers[i].err != Nil
  }

  /** Both stores have the same claims with names of the volume. */
  ghost predicate SameClaims(cfg: Config, st: Stores, st': Stores, volume: string) {
    forall key: ClaimKey, i: nat | key.name == ClaimName(cfg.claimNamePrefix, volume, i) ::
      key in st'.claims <==> key in st.claims
  }

  ghost predicate Repeats(s: State, volume: string) {
    volume in s.calls ==> s.calls[volume].Creates() && !s.calls[volume].MakesClaims()
  }

  /** The steps of the repeated create itself touch neither store and can only end in an error. */
  lemma OwnRepeatedStep(cfg: Config, s: State, step: Step, volume: string, split: SplitSpec)
    requires cfg.lookup.SuffixedTwice? && Inv(cfg, s) && HasSplit(s.stores, volume, split)
    requires step.Go? && step.volume == volume && volume in s.calls && Repeats(s, volume)
    ensures var s' := Apply(cfg, s, step);
      && s'.stores == s.stores && Repeats(s', volume)
      && (s'.answers == s.answers || exists err: Error ::
        err != Nil && s'.answers == s.answers + [Answer(volume, true, err)])
  {
    assert CallOk(cfg, s.stores, volume, s.calls[volume]);
    if LookupName(cfg, volume) in s.stores.splits {
      FoundIsOwn(cfg, s.stores, volume);
    }
    var (st', next) := Progress(cfg, s.stores, volume, s.calls[volume], step.reply, FoundInCache(s, s.calls[volume]));
    if next.Return? {
      assert next.err != Nil;
    }
  }

  /** A claim that the split of another volume lists does not have a name of this one. */
  lemma ListedByOther(cfg: Config, st: Stores, volume: string, other: string, key: ClaimKey, i: nat)
    requires SplitsOk(cfg, st) && ListedBy(st, other, key) && other != volume
    ensures key.name != ClaimName(cfg.claimNamePrefix, volume, i)
  {
    var split := st.splits[SplitName(other)];
    assert StoredOk(cfg, SplitName(other), split);
    SplitNameIsInjective(other, split.volumeName);
    var j :| 0 <= j < |split.splits| && key == KeyOf(split, j);
    if key.name == ClaimName(cfg.claimNamePrefix, volume, i) {
      ClaimNameIsInjective(cfg.claimNamePrefix, volume, i, split.volumeName, j);
    }
  }

  lemma OthersLeaveClaims(cfg: Config, st: Stores, st': Stores, volume: string, other: string)
    requires SplitsOk(cfg, st) && SplitsOk(cfg, st') && OnlyTouches(st, st', other) && other != volume
    ensures SameClaims(cfg, st, st', volume)
  {
    forall key: ClaimKey, i: nat | key.name == ClaimName(cfg.claimNamePrefix, volume, i)
      ensures key in st'.claims <==> key in st.claims
    {
      if key in st'.claims && key !in st.claims {
        ListedByOther(cfg, st', volume, other, key, i);
      }
      if key in st.claims && key !in st'.claims {
        ListedByOther(cfg, st, volume, other, key, i);
      }
    }
  }

  lemma RepeatedStep(cfg: Config, s0: State, s: State, step: Step, volume: string, split: SplitSpec)
    requires cfg.lookup.SuffixedTwice? && Inv(cfg, s) && (step.Begin? ==> NameOk(cfg, step.volume))
    requires HasSplit(s.stores, volume, split) && NoDeletes(s, [step], volume)
    requires Repeats(s, volume) && NothingCreated(cfg, s0, s, volume)
    ensures Repeats(Apply(cfg, s, step), volume) && NothingCreated(cfg, s0, Apply(cfg, s, step), volume)
  {
    var s' := Apply(cfg, s, step);
    assert [step][0] == step;
    if step.Go? {
      if step.volume != volume {
        InvStep(cfg, s, step);
        OthersLeaveClaims(cfg, s.stores, s'.stores, volume, step.volume);
        assert s'.answers == s.answers ||
          (|s'.answers| == |s.answers| + 1 && s'.answers[..|s.answers|] == s.answers &&
            s'.answers[|s.answers|].volume == step.volume);
      } else if volume in s.calls {
        OwnRepeatedStep(cfg, s, step, volume, split);
      }
    }
  }

  /** As written, repeating CreateLower for a volume whose split exists never succeeds, and
      changes neither the split nor the claims of the volume: what a failed create has left
      is never completed, only deleted. */
  lemma {:induction false} RepeatedCreateFails(cfg: Config, s0: State, s: State, steps: seq<Step>, volume: string,
    split: SplitSpec)
    requires cfg.lookup.SuffixedTwice? && Inv(cfg, s) && NamesOk(cfg, steps)
    requires HasSplit(s.stores, volume, split) && NoDeletes(s, steps, volume)
    requires Repeats(s, volume) && NothingCreated(cfg, s0, s, volume)
    ensures HasSplit(Run(cfg, s, steps).stores, volume, split) && NothingCreated(cfg, s0, Run(cfg, s, steps), volume)
    decreases |steps|
  {
    if steps != [] {
      var rest := steps[1..];
      NamesOkTail(cfg, steps);
      assert NoDeletes(s, [steps[0]], volume);
      RepeatedStep(cfg, s0, s, steps[0], volume, split);
      SplitStaysStep(cfg, s, steps[0], volume, split);
      InvStep(cfg, s, steps[0]);
      assert NoDeletes(Apply(cfg, s, steps[0]), rest, volume) by {
        assert forall i | 0 <= i < |rest| :: rest[i] == steps[i + 1];
      }
      RepeatedCreateFails(cfg, s0, Apply(cfg, s, steps[0]), rest, volume, split);
    }
  }

  // ---------- The name premise is needed ----------

  /** As written, two volumes called v and v-split can leave a claim without a split: the create
      of v adopts the split of v-split, which is deleted before v creates its claims. */
  lemma OrphanWithAPair(cfg: Config, volume: string, options: LowerOptions) returns (steps: seq<Step>)
    requires cfg.lookup.SuffixedTwice? && volume in cfg.volumes && SplitName(volume) in cfg.volumes
    ensures NamesOk(cfg, steps) && !NoOrphans(Run(cfg, INIT, steps).stores)
  {
    var other := SplitName(volume);
    var spec := SpecOf(other, options);
    var split := Filled(cfg.claimNamePrefix, spec);
    var name := SplitName(other);
    FilledSplits(cfg.claimNamePrefix, spec);
    assert other != volume;
    var s1 := Apply(cfg, INIT, Begin(other, Create(options)));
    var s2 := Apply(cfg, s1, Go(other, Served));
    var s3 := Apply(cfg, s2, Go(other, Lost));
    assert s3.stores == Stores(map[name := split], map[]) && s3.calls == map[] && s3.past == [map[]] && s3.cacheAt == 0;
    steps := [];
    RunSnoc(cfg, INIT, steps, Begin(other, Create(options)));
    steps := steps + [Begin(other, Create(options))];
    RunSnoc(cfg, INIT, steps, Go(other, Served));
    steps := steps + [Go(other, Served)];
    RunSnoc(cfg, INIT, steps, Go(other, Lost));
    steps := steps + [Go(other, Lost)];
    var more := AdoptedAndDeleted(cfg, s3, volume, options, split);
    RunConcat(cfg, INIT, steps, more);
    steps := steps + more;
  }

  lemma AdoptedAndDeleted(cfg: Config, s: State, volume: string, options: LowerOptions, split: SplitSpec)
    returns (t: seq<Step>)
    requires cfg.lookup.SuffixedTwice? && s.calls == map[] && volume in cfg.volumes && SplitName(volume) in cfg.volumes
    requires split == Filled(cfg.claimNamePrefix, SpecOf(SplitName(volume), options)) && |split.splits| == 2
    requires s.stores == Stores(map[SplitName(SplitName(volume)) := split], map[]) && s.past == [map[]]
    requires s.cacheAt == 0
    ensures NamesOk(cfg, t) && !NoOrphans(Run(cfg, s, t).stores)
  {
    var other := SplitName(volume);
    var adoption := Adopted(cfg, s, volume, options, split);
    var u1 := Run(cfg, s, adoption);
    var deletion := QuietDelete(cfg, u1, other, split);
    var u2 := Run(cfg, u1, deletion);
    RunConcat(cfg, s, adoption, deletion);
    var u3 := Apply(cfg, u2, Go(volume, Served));
    assert u3.stores.splits == map[] && KeyOf(split, 0) in u3.stores.claims;
    assert !Recorded(u3.stores.splits, KeyOf(split, 0));
    RunSnoc(cfg, s, adoption + deletion, Go(volume, Served));
    t := adoption + deletion + [Go(volume, Served)];
  }

  /** The create of v finds the split of v-split and goes on to make that one's claims. */
  lemma Adopted(cfg: Config, s: State, volume: string, options: LowerOptions, split: SplitSpec) returns (t: seq<Step>)
    requires cfg.lookup.SuffixedTwice? && s.calls == map[] && volume in cfg.volumes
    requires split == Filled(cfg.claimNamePrefix, SpecOf(SplitName(volume), options)) && |split.splits| == 2
    requires s.stores == Stores(map[SplitName(SplitName(volume)) := split], map[]) && s.past == [map[]]
    requires s.cacheAt == 0
    ensures NamesOk(cfg, t) && SplitName(volume) !in Run(cfg, s, t).calls
    ensures Run(cfg, s, t).calls == map[volume := PutClaim(split, 0)] && Run(cfg, s, t).stores == s.stores
  {
    var b, go := Begin(volume, Create(options)), Go(volume, Served);
    assert SplitName(volume) != volume;
    var u1 := Apply(cfg, s, b);
    var u2 := Apply(cfg, u1, go);
    assert u2.calls == map[volume := LookClaim(split, 0)] && u2.stores == s.stores;
    var u3 := Apply(cfg, u2, go);
    assert u3.calls == map[volume := PutClaim(split, 0)];
    t := [b] + [go] + [go];
    RunSnoc(cfg, s, [], b);
    assert [] + [b] == [b];
    RunSnoc(cfg, s, [b], go);
    RunSnoc(cfg, s, [b] + [go], go);
  }

  /** A deletion no fault meets takes the listed claims and the split, and nothing else. */
  lemma QuietDelete(cfg: Config, s: State, volume: string, split: SplitSpec) returns (t: seq<Step>)
    requires volume !in s.calls && HasSplit(s.stores, volume, split) && |split.splits| == 2 && volume in cfg.volumes
    ensures NamesOk(cfg, t) && Run(cfg, s, t).calls == s.calls
    ensures Run(cfg, s, t).cacheAt == s.cacheAt && s.past <= Run(cfg, s, t).past
    ensures Run(cfg, s, t).stores ==
      Stores(s.stores.splits - {SplitName(volume)}, s.stores.claims - {KeyOf(split, 0)} - {KeyOf(split, 1)})
  {
    var u := Apply(cfg, Apply(cfg, s, Begin(volume, Delete)), Go(volume, Served));
    RunSnoc(cfg, s, [], Begin(volume, Delete));
    assert [] + [Begin(volume, Delete)] == [Begin(volume, Delete)];
    RunSnoc(cfg, s, [Begin(volume, Delete)], Go(volume, Served));
    t := [Begin(volume, Delete)] + [Go(volume, Served)];
    var drops := QuietDrops(cfg, u, volume, split);
    RunConcat(cfg, s, t, drops);
    t := t + drops;
    assert s.calls[volume := DropClaim(split, 0)] - {volume} == s.calls;
  }

  lemma QuietDrops(cfg: Config, s: State, volume: string, split: SplitSpec) returns (t: seq<Step>)
    requires volume in s.calls && s.calls[volume] == DropClaim(split, 0)
    requires HasSplit(s.stores, volume, split) && |split.splits| == 2
    ensures NamesOk(cfg, t) && Run(cfg, s, t).calls == s.calls - {volume}
    ensures Run(cfg, s, t).cacheAt == s.cacheAt && s.past <= Run(cfg, s, t).past
    ensures Run(cfg, s, t).stores ==
      Stores(s.stores.splits - {SplitName(volume)}, s.stores.claims - {KeyOf(split, 0)} - {KeyOf(split, 1)})
  {
    var go := Go(volume, Served);
    var u1 := Apply(cfg, s, go);
    assert u1.calls == s.calls[volume := DropClaim(split, 1)];
    var u2 := Apply(cfg, u1, go);
    assert u2.calls == s.calls[volume := DropSplit(split)];
    var u3 := Apply(cfg, u2, go);
    assert u3.calls == s.calls - {volume};
    t := [go] + [go] + [go];
    RunSnoc(cfg, s, [], go);
    assert [] + [go] == [go];
    RunSnoc(cfg, s, [go], go);
    RunSnoc(cfg, s, [go] + [go], go);
  }

  /** So no claim is ever orphaned, in any run over a set of volumes, exactly when that set has
      no two names v and v-split. */
  lemma NoOrphansIff(cfg: Config)
    requires cfg.lookup.SuffixedTwice?
    ensures NoPair(cfg) <==>
      forall steps: seq<Step> :: NamesOk(cfg, steps) ==> NoOrphans(Run(cfg, INIT, steps).stores)
  {
    if NoPair(cfg) {
      forall steps: seq<Step> | NamesOk(cfg, steps) ensures NoOrphans(Run(cfg, INIT, steps).stores) {
        NoOrphanClaims(cfg, steps);
      }
    } else {
      var v :| v in cfg.volumes && SplitName(v) in cfg.volumes;
      var steps := OrphanWithAPair(cfg, v, LowerOptions(0, [], "", None));
    }
  }
}
