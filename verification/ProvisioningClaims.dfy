/** Which claims a create that ends OK has really left, and when they are sure to be all. */
module ProvisioningClaims {
  import opened Options
  import opened Names
  import opened SplitSpecs
  import opened Provisioning
  import opened ProvisioningInvariant
  import opened ProvisioningTheorems

  /** What may happen while one call of the volume is in flight, and after it: anything but another
      call of the volume. */
  ghost predicate OneCall(cfg: Config, steps: seq<Step>, volume: string) {
    forall i | 0 <= i < |steps| :: OneCallStep(cfg, steps[i], volume)
  }

  predicate OneCallStep(cfg: Config, step: Step, volume: string) {
    step.Begin? ==> step.volume != volume && NameOk(cfg, step.volume)
  }

  ghost predicate NoCrash(steps: seq<Step>) {
    forall i | 0 <= i < |steps| :: !steps[i].Crash?
  }

  /** The call for the volume, in flight at `before`, has been answered nil. */
  ghost predicate CreatedOk(before: State, now: State, volume: string) {
    volume !in now.calls && exists n: nat ::
      |before.answers| <= n < |now.answers| && now.answers[n] == Answer(volume, true, Nil)
  }

  /** The state of the claim store that was looked at has the claim. */
  predicate Found(s: State, look: Look) {
    look.at < |s.past| && look.key in s.past[look.at]
  }

  /** A look of the volume's call, from the given number on, has met the claim in the cache. */
  ghost predicate Met(s: State, from: nat, volume: string, key: ClaimKey) {
    exists n: nat :: from <= n < |s.looks| && s.looks[n].volume == volume && s.looks[n].key == key &&
      Found(s, s.looks[n])
  }

  /** Looks have been added, and the past has gone on. */
  ghost predicate Grown(before: State, now: State) {
    before.past <= now.past && before.cacheAt <= now.cacheAt && before.looks <= now.looks &&
      before.answers <= now.answers
  }

  /** The looks of the call have been for the first n claims of the split, and of the first m of
      these exactly those are live that no look has met. */
  ghost predicate Tallied(s: State, from: nat, volume: string, split: SplitSpec, n: nat, m: nat)
    requires m <= |split.splits| && n <= |split.splits|
  {
    && (forall l: nat | from <= l < |s.looks| && s.looks[l].volume == volume ::
          s.looks[l].at < |s.past| && exists j | 0 <= j < n :: s.looks[l].key == KeyOf(split, j))
    && forall j | 0 <= j < m :: KeyOf(split, j) in s.stores.claims <==> !Met(s, from, volume, KeyOf(split, j))
  }

  ghost predicate NotAnswered(before: State, now: State, volume: string) {
    forall n: nat | |before.answers| <= n < |now.answers| :: now.answers[n].volume != volume
  }

  /** Where the call stands, and what it has left so far. */
  ghost predicate OnTheWay(cfg: Config, before: State, s: State, volume: string, spec: SplitSpec) {
    var split := Filled(cfg.claimNamePrefix, spec);
    if volume !in s.calls then
      CreatedOk(before, s, volume) ==>
        HasSplit(s.stores, volume, split) && Tallied(s, |before.looks|, volume, split, |split.splits|, |split.splits|)
    else
      && NotAnswered(before, s, volume)
      && match s.calls[volume]
         case GetFirst(sp) => sp == spec && Tallied(s, |before.looks|, volume, split, 0, 0)
         case PutSplit(sp) => sp == spec && Tallied(s, |before.looks|, volume, split, 0, 0)
         case GetAgain(sp) => sp == spec && Tallied(s, |before.looks|, volume, split, 0, 0)
         case LookClaim(sp, i) => sp == split && i < |split.splits| && Tallied(s, |before.looks|, volume, split, i, i)
         case PutClaim(sp, i) =>
           && sp == split && i < |split.splits| && Tallied(s, |before.looks|, volume, split, i + 1, i)
           && !Met(s, |before.looks|, volume, KeyOf(split, i))
         case _ => false
  }

  // ---------- The steps of others ----------

  lemma OthersGrow(cfg: Config, s: State, step: Step, volume: string)
    requires !step.Crash? && !(step.Begin? && step.volume == volume) && !(step.Go? && step.volume == volume)
    requires Inv(cfg, s)
    ensures var s' := Apply(cfg, s, step);
      && Grown(s, s') && Lookup(s'.calls, volume) == Lookup(s.calls, volume)
      && (forall n: nat | |s.looks| <= n < |s'.looks| :: s'.looks[n].volume != volume)
      && forall n: nat | |s.answers| <= n < |s'.answers| :: s'.answers[n].volume != volume
  {
    if step.Go? && step.volume in s.calls {
      assert CallOk(cfg, s.stores, step.volume, s.calls[step.volume]);
      GoStep(cfg, s, step.volume, step.reply);
      var s' := Apply(cfg, s, step);
      if volume in s.calls {
        assert volume in s.calls - {step.volume} &&
          (s'.calls - {step.volume})[volume] == (s.calls - {step.volume})[volume];
      } else {
        assert volume !in s.calls - {step.volume};
      }
    }
  }

  /** What calls of others leave as it is: what has been met, and what has been tallied. */
  lemma MetStays(s: State, s': State, from: nat, volume: string, key: ClaimKey)
    requires Grown(s, s') && from <= |s.looks|
    requires forall n: nat | |s.looks| <= n < |s'.looks| :: s'.looks[n].volume != volume
    requires forall l: nat | from <= l < |s.looks| && s.looks[l].volume == volume :: s.looks[l].at < |s.past|
    ensures Met(s', from, volume, key) <==> Met(s, from, volume, key)
  {
    if Met(s, from, volume, key) {
      var n: nat :| from <= n < |s.looks| && s.looks[n].volume == volume && s.looks[n].key == key &&
        Found(s, s.looks[n]);
      assert s'.looks[n] == s.looks[n] && Found(s', s'.looks[n]);
    }
    if Met(s', from, volume, key) {
      var n: nat :| from <= n < |s'.looks| && s'.looks[n].volume == volume && s'.looks[n].key == key &&
        Found(s', s'.looks[n]);
      assert s'.looks[n] == s.looks[n] && Found(s, s.looks[n]);
    }
  }

  lemma TallyStays(s: State, s': State, from: nat, volume: string, split: SplitSpec, n: nat, m: nat)
    requires n <= |split.splits| && m <= |split.splits| && from <= |s.looks|
    requires Tallied(s, from, volume, split, n, m) && Grown(s, s')
    requires forall l: nat | |s.looks| <= l < |s'.looks| :: s'.looks[l].volume != volume
    requires forall j | 0 <= j < m :: KeyOf(split, j) in s'.stores.claims <==> KeyOf(split, j) in s.stores.claims
    ensures Tallied(s', from, volume, split, n, m)
  {
    forall j | 0 <= j < m ensures Met(s', from, volume, KeyOf(split, j)) <==> Met(s, from, volume, KeyOf(split, j)) {
      MetStays(s, s', from, volume, KeyOf(split, j));
    }
    forall l: nat | from <= l < |s'.looks| && s'.looks[l].volume == volume
      ensures s'.looks[l].at < |s'.past| && exists j | 0 <= j < n :: s'.looks[l].key == KeyOf(split, j)
    {
      assert s'.looks[l] == s.looks[l];
    }
  }

  lemma OthersKeepSplit(cfg: Config, s: State, step: Step, volume: string, split: SplitSpec)
    requires Inv(cfg, s) && (step.Begin? ==> NameOk(cfg, step.volume)) && !(step.Go? && step.volume == volume)
    requires HasSplit(s.stores, volume, split)
    ensures var s' := Apply(cfg, s, step);
      && HasSplit(s'.stores, volume, split)
      && forall j | 0 <= j < |split.splits| ::
        KeyOf(split, j) in s'.stores.claims <==> KeyOf(split, j) in s.stores.claims
  {
    InvStep(cfg, s, step);
    if step.Go? {
      OthersClaimsStay(cfg, s.stores, Apply(cfg, s, step).stores, step.volume, volume, split);
    }
  }

  /** A call in flight is lost in a crash and will not be answered. */
  lemma CrashOnTheWay(cfg: Config, before: State, s: State, volume: string, spec: SplitSpec)
    requires OnTheWay(cfg, before, s, volume, spec)
    ensures Grown(s, Apply(cfg, s, Crash)) && OnTheWay(cfg, before, Apply(cfg, s, Crash), volume, spec)
  {
    var s' := Apply(cfg, s, Crash);
    if volume !in s.calls && CreatedOk(before, s', volume) {
      assert CreatedOk(before, s, volume);
      var split := Filled(cfg.claimNamePrefix, spec);
      forall j | 0 <= j < |split.splits|
        ensures Met(s', |before.looks|, volume, KeyOf(split, j)) <==> Met(s, |before.looks|, volume, KeyOf(split, j))
      {
        SameLooks(s, s', |before.looks|, volume, KeyOf(split, j));
      }
    }
  }

  lemma SameLooks(s: State, s': State, from: nat, volume: string, key: ClaimKey)
    requires s'.looks == s.looks && s'.past == s.past
    ensures Met(s', from, volume, key) <==> Met(s, from, volume, key)
  {
    if Met(s, from, volume, key) {
      var n: nat :|
        from <= n < |s.looks| && s.looks[n].volume == volume && s.looks[n].key == key && Found(s, s.looks[n]);
      assert Found(s', s'.looks[n]);
    }
    if Met(s', from, volume, key) {
      var n: nat :|
        from <= n < |s'.looks| && s'.looks[n].volume == volume && s'.looks[n].key == key && Found(s', s'.looks[n]);
      assert Found(s, s.looks[n]);
    }
  }

  lemma OthersOnTheWay(cfg: Config, before: State, s: State, step: Step, volume: string, spec: SplitSpec)
    requires Inv(cfg, s) && OneCall(cfg, [step], volume) && !(step.Go? && step.volume == volume) && !step.Crash?
    requires Grown(before, s) && OnTheWay(cfg, before, s, volume, spec)
    ensures OnTheWay(cfg, before, Apply(cfg, s, step), volume, spec)
  {
    var s', split := Apply(cfg, s, step), Filled(cfg.claimNamePrefix, spec);
    assert [step][0] == step;
    OthersGrow(cfg, s, step, volume);
    if volume in s.calls {
      assert s'.calls[volume] == s.calls[volume];
      OthersOnTheWayInFlight(cfg, before, s, step, volume, spec);
    } else if CreatedOk(before, s', volume) {
      assert CreatedOk(before, s, volume);
      OthersKeepTally(cfg, s, step, |before.looks|, volume, split, |split.splits|, |split.splits|);
    }
  }

  lemma OthersOnTheWayInFlight(cfg: Config, before: State, s: State, step: Step, volume: string, spec: SplitSpec)
    requires Inv(cfg, s) && OneCallStep(cfg, step, volume) && !(step.Go? && step.volume == volume) && !step.Crash?
    requires Grown(before, s) && OnTheWay(cfg, before, s, volume, spec) && volume in s.calls
    ensures OnTheWay(cfg, before, Apply(cfg, s, step), volume, spec)
  {
    var s', split, pc := Apply(cfg, s, step), Filled(cfg.claimNamePrefix, spec), s.calls[volume];
    OthersGrow(cfg, s, step, volume);
    assert volume in s'.calls && s'.calls[volume] == pc && NotAnswered(before, s', volume);
    assert CallOk(cfg, s.stores, volume, pc);
    if pc.LookClaim? {
      OthersKeepTally(cfg, s, step, |before.looks|, volume, split, pc.index, pc.index);
    } else if pc.PutClaim? {
      OthersKeepTally(cfg, s, step, |before.looks|, volume, split, pc.index + 1, pc.index);
      MetStays(s, s', |before.looks|, volume, KeyOf(split, pc.index));
    } else {
      TallyStays(s, s', |before.looks|, volume, split, 0, 0);
    }
  }

  lemma OthersKeepTally(cfg: Config, s: State, step: Step, from: nat, volume: string, split: SplitSpec, n: nat, m: nat)
    requires Inv(cfg, s) && OneCallStep(cfg, step, volume) && !(step.Go? && step.volume == volume) && !step.Crash?
    requires HasSplit(s.stores, volume, split) && n <= |split.splits| && m <= |split.splits| && from <= |s.looks|
    requires Tallied(s, from, volume, split, n, m)
    ensures HasSplit(Apply(cfg, s, step).stores, volume, split)
    ensures Tallied(Apply(cfg, s, step), from, volume, split, n, m)
  {
    OthersGrow(cfg, s, step, volume);
    OthersKeepSplit(cfg, s, step, volume, split);
    TallyStays(s, Apply(cfg, s, step), from, volume, split, n, m);
  }

  // ---------- The call's own steps ----------

  lemma OwnGrow(cfg: Config, s: State, volume: string, reply: Reply)
    requires Inv(cfg, s)
    ensures Grown(s, Apply(cfg, s, Go(volume, reply)))
  {}

  /** A look: of the first index + 1 claims now looked for, this one was met exactly if the cache
      showed it. */
  lemma OwnLook(cfg: Config, before: State, s: State, volume: string, split: SplitSpec, i: nat, reply: Reply)
    requires cfg.lookup.SuffixedTwice? && Inv(cfg, s) && Grown(before, s)
    requires volume in s.calls && s.calls[volume] == LookClaim(split, i) && i < |split.splits|
    requires Tallied(s, |before.looks|, volume, split, i, i)
    ensures var s', from := Apply(cfg, s, Go(volume, reply)), |before.looks|;
      && Tallied(s', from, volume, split, i + 1, i) && s'.stores == s.stores
      && (Met(s', from, volume, KeyOf(split, i)) <==> FoundInCache(s, s.calls[volume]))
      && (FoundInCache(s, s.calls[volume]) ==> Tallied(s', from, volume, split, i + 1, i + 1))
  {
    var s', from := Apply(cfg, s, Go(volume, reply)), |before.looks|;
    GoStep(cfg, s, volume, reply);
    assert CallOk(cfg, s.stores, volume, s.calls[volume]);
    EarlierKeysDiffer(cfg, s.stores, volume, split, i);
    var look := Look(volume, KeyOf(split, i), s.cacheAt);
    assert s'.looks == s.looks + [look] && s'.past == s.past && s'.stores == s.stores;
    forall j | 0 <= j < i ensures Met(s', from, volume, KeyOf(split, j)) <==> Met(s, from, volume, KeyOf(split, j)) {
      MetBefore(s, s', from, volume, KeyOf(split, j), look);
    }
    assert s'.looks[|s.looks|] == look;
    forall l: nat | from <= l < |s'.looks| && s'.looks[l].volume == volume
      ensures s'.looks[l].at < |s'.past| && exists j | 0 <= j < i + 1 :: s'.looks[l].key == KeyOf(split, j)
    {
      if l < |s.looks| {
        assert s'.looks[l] == s.looks[l];
      }
    }
    MetNow(s, s', from, look);
    if FoundInCache(s, s.calls[volume]) {
      assert KeyOf(split, i) !in s'.stores.claims;
    }
  }

  lemma MetNow(s: State, s': State, from: nat, look: Look)
    requires s'.looks == s.looks + [look] && s'.past == s.past && from <= |s.looks|
    requires forall l: nat | from <= l < |s.looks| && s.looks[l].volume == look.volume :: s.looks[l].key != look.key
    ensures Met(s', from, look.volume, look.key) <==> Found(s', look)
  {
    assert s'.looks[|s.looks|] == look;
    if Met(s', from, look.volume, look.key) {
      var n: nat :| from <= n < |s'.looks| && s'.looks[n].volume == look.volume && s'.looks[n].key == look.key &&
        Found(s', s'.looks[n]);
      assert n < |s.looks| ==> s'.looks[n] == s.looks[n];
    }
  }

  lemma MetBefore(s: State, s': State, from: nat, volume: string, key: ClaimKey, look: Look)
    requires s'.looks == s.looks + [look] && s'.past == s.past && look.key != key
    ensures Met(s', from, volume, key) <==> Met(s, from, volume, key)
  {
    if Met(s, from, volume, key) {
      var n: nat :| from <= n < |s.looks| && s.looks[n].volume == volume && s.looks[n].key == key &&
        Found(s, s.looks[n]);
      assert s'.looks[n] == s.looks[n];
    }
    if Met(s', from, volume, key) {
      var n: nat :| from <= n < |s'.looks| && s'.looks[n].volume == volume && s'.looks[n].key == key &&
        Found(s', s'.looks[n]);
      assert s'.looks[n] == s.looks[n];
    }
  }

  lemma EarlierKeysDiffer(cfg: Config, st: Stores, volume: string, split: SplitSpec, i: nat)
    requires SplitsOk(cfg, st) && HasSplit(st, volume, split) && i < |split.splits|
    ensures forall j | 0 <= j < i :: KeyOf(split, j) != KeyOf(split, i)
  {
    assert StoredOk(cfg, SplitName(volume), split);
    forall j | 0 <= j < i ensures KeyOf(split, j) != KeyOf(split, i) {
      KeysDiffer(cfg, split, j);
    }
  }

  /** The answer the call ends with is the only one to it. */
  lemma OneAnswer(before: State, s: State, s': State, volume: string, err: Error)
    requires Grown(before, s) && NotAnswered(before, s, volume) && volume !in s'.calls
    requires s'.answers == s.answers + [Answer(volume, true, err)]
    ensures CreatedOk(before, s', volume) <==> err == Nil
  {
    assert s'.answers[|s.answers|] == Answer(volume, true, err);
  }

  lemma OwnLookOnTheWay(cfg: Config, before: State, s: State, volume: string, spec: SplitSpec, reply: Reply)
    requires cfg.lookup.SuffixedTwice? && Inv(cfg, s) && Grown(before, s) && OnTheWay(cfg, before, s, volume, spec)
    requires volume in s.calls && s.calls[volume].LookClaim?
    ensures OnTheWay(cfg, before, Apply(cfg, s, Go(volume, reply)), volume, spec)
  {
    var s', split, i := Apply(cfg, s, Go(volume, reply)), Filled(cfg.claimNamePrefix, spec), s.calls[volume].index;
    assert CallOk(cfg, s.stores, volume, s.calls[volume]);
    OwnLook(cfg, before, s, volume, split, i, reply);
    GoStep(cfg, s, volume, reply);
  }

  /** A create that is accepted: the claim, which no look had met, is live. */
  lemma OwnPutOnTheWay(cfg: Config, before: State, s: State, volume: string, spec: SplitSpec, reply: Reply)
    requires cfg.lookup.SuffixedTwice? && Inv(cfg, s) && Grown(before, s) && OnTheWay(cfg, before, s, volume, spec)
    requires volume in s.calls && s.calls[volume].PutClaim?
    ensures OnTheWay(cfg, before, Apply(cfg, s, Go(volume, reply)), volume, spec)
  {
    var s', split, i := Apply(cfg, s, Go(volume, reply)), Filled(cfg.claimNamePrefix, spec), s.calls[volume].index;
    var from := |before.looks|;
    assert CallOk(cfg, s.stores, volume, s.calls[volume]);
    GoStep(cfg, s, volume, reply);
    var next := Progress(cfg, s.stores, volume, s.calls[volume], reply, false).1;
    if next.Return? {
      OneAnswer(before, s, s', volume, next.err);
    }
    if reply.Served? {
      OwnPut(cfg, before, s, volume, split, i);
    }
  }

  lemma OwnPut(cfg: Config, before: State, s: State, volume: string, split: SplitSpec, i: nat)
    requires Inv(cfg, s) && Grown(before, s)
    requires volume in s.calls && s.calls[volume] == PutClaim(split, i) && i < |split.splits|
    requires Tallied(s, |before.looks|, volume, split, i + 1, i) && !Met(s, |before.looks|, volume, KeyOf(split, i))
    ensures Tallied(Apply(cfg, s, Go(volume, Served)), |before.looks|, volume, split, i + 1, i + 1)
  {
    var s', from := Apply(cfg, s, Go(volume, Served)), |before.looks|;
    OwnPutStores(cfg, s, volume, split, i);
    OwnGrow(cfg, s, volume, Served);
    TallyStays(s, s', from, volume, split, i + 1, i);
    MetStays(s, s', from, volume, KeyOf(split, i));
  }

  lemma OwnPutStores(cfg: Config, s: State, volume: string, split: SplitSpec, i: nat)
    requires Inv(cfg, s) && volume in s.calls && s.calls[volume] == PutClaim(split, i) && i < |split.splits|
    ensures var s' := Apply(cfg, s, Go(volume, Served));
      && s'.looks == s.looks && KeyOf(split, i) in s'.stores.claims
      && forall j | 0 <= j < i :: KeyOf(split, j) in s'.stores.claims <==> KeyOf(split, j) in s.stores.claims
  {
    assert CallOk(cfg, s.stores, volume, s.calls[volume]);
    GoStep(cfg, s, volume, Served);
    EarlierKeysDiffer(cfg, s.stores, volume, split, i);
  }

  lemma OwnGetOnTheWay(cfg: Config, before: State, s: State, volume: string, spec: SplitSpec, reply: Reply)
    requires cfg.lookup.SuffixedTwice? && Inv(cfg, s) && Grown(before, s) && OnTheWay(cfg, before, s, volume, spec)
    requires volume in s.calls && !s.calls[volume].MakesClaims()
    ensures OnTheWay(cfg, before, Apply(cfg, s, Go(volume, reply)), volume, spec)
  {
    var s', split := Apply(cfg, s, Go(volume, reply)), Filled(cfg.claimNamePrefix, spec);
    assert CallOk(cfg, s.stores, volume, s.calls[volume]);
    GoStep(cfg, s, volume, reply);
    OwnGrow(cfg, s, volume, reply);
    TallyStays(s, s', |before.looks|, volume, split, 0, 0);
    FilledSplits(cfg.claimNamePrefix, spec);
    if LookupName(cfg, volume) in s.stores.splits {
      FoundIsOwn(cfg, s.stores, volume);
    }
  }

  lemma StepOnTheWay(cfg: Config, before: State, s: State, step: Step, volume: string, spec: SplitSpec)
    requires cfg.lookup.SuffixedTwice? && Inv(cfg, s) && OneCall(cfg, [step], volume)
    requires Grown(before, s) && OnTheWay(cfg, before, s, volume, spec)
    ensures var s' := Apply(cfg, s, step); Grown(s, s') && Inv(cfg, s') && OnTheWay(cfg, before, s', volume, spec)
  {
    assert [step][0] == step;
    if step.Crash? {
      CrashOnTheWay(cfg, before, s, volume, spec);
    } else if !(step.Go? && step.volume == volume) {
      OthersGrow(cfg, s, step, volume);
      OthersOnTheWay(cfg, before, s, step, volume, spec);
    } else if volume in s.calls {
      OwnGrow(cfg, s, volume, step.reply);
      if s.calls[volume].LookClaim? {
        OwnLookOnTheWay(cfg, before, s, volume, spec, step.reply);
      } else if s.calls[volume].PutClaim? {
        OwnPutOnTheWay(cfg, before, s, volume, spec, step.reply);
      } else {
        OwnGetOnTheWay(cfg, before, s, volume, spec, step.reply);
      }
    }
    InvStep(cfg, s, step);
  }

  lemma OneCallTail(cfg: Config, steps: seq<Step>, volume: string)
    requires OneCall(cfg, steps, volume) && steps != []
    ensures OneCall(cfg, [steps[0]], volume) && OneCall(cfg, steps[1..], volume)
  {
    assert OneCallStep(cfg, steps[0], volume);
    assert forall i | 0 <= i < |steps[1..]| :: steps[1..][i] == steps[i + 1];
  }

  lemma {:induction false} RunOnTheWay(cfg: Config, before: State, s: State, steps: seq<Step>, volume: string,
    spec: SplitSpec)
    requires cfg.lookup.SuffixedTwice? && Inv(cfg, s) && OneCall(cfg, steps, volume)
    requires Grown(before, s) && OnTheWay(cfg, before, s, volume, spec)
    ensures OnTheWay(cfg, before, Run(cfg, s, steps), volume, spec)
    decreases |steps|
  {
    if steps != [] {
      OneCallTail(cfg, steps, volume);
      StepOnTheWay(cfg, before, s, steps[0], volume, spec);
      RunOnTheWay(cfg, before, Apply(cfg, s, steps[0]), steps[1..], volume, spec);
    }
  }

  lemma {:induction false} LeavesWithAnswer(cfg: Config, s: State, steps: seq<Step>, volume: string)
    requires OneCall(cfg, steps, volume) && NoCrash(steps)
    ensures |s.answers| <= |Run(cfg, s, steps).answers|
    ensures volume in s.calls && volume !in Run(cfg, s, steps).calls ==> |s.answers| < |Run(cfg, s, steps).answers|
    decreases |steps|
  {
    if steps != [] {
      OneCallTail(cfg, steps, volume);
      var s1 := Apply(cfg, s, steps[0]);
      assert OneCallStep(cfg, steps[0], volume) && !steps[0].Crash?;
      assert NoCrash(steps[1..]) by {
        assert forall i | 0 <= i < |steps[1..]| :: steps[1..][i] == steps[i + 1];
      }
      assert |s.answers| <= |s1.answers| && (volume in s.calls && volume !in s1.calls ==> |s.answers| < |s1.answers|);
      LeavesWithAnswer(cfg, s1, steps[1..], volume);
    }
  }

  // ---------- What is live after an OK ----------

  /** Claim number i of the split is live: in its namespace, of its size and kind. */
  predicate IsLive(st: Stores, split: SplitSpec, i: nat) {
    i < |split.splits| && IsClaimOf(st, split, i, ClaimKey(split.namespace, split.splits[i].claimName))
  }

  ghost predicate AllLive(st: Stores, split: SplitSpec) {
    forall i | 0 <= i < |split.splits| :: IsLive(st, split, i)
  }

  /** A look of the volume's call has met claim number i of the split in the cache. */
  ghost predicate MetClaim(s: State, from: nat, volume: string, split: SplitSpec, i: nat) {
    i < |split.splits| && Met(s, from, volume, ClaimKey(split.namespace, split.splits[i].claimName))
  }

  lemma LiveIsKept(cfg: Config, s: State, volume: string, split: SplitSpec)
    requires Inv(cfg, s) && HasSplit(s.stores, volume, split)
    ensures forall i | 0 <= i < |split.splits| :: IsLive(s.stores, split, i) <==> KeyOf(split, i) in s.stores.claims
  {
    assert AsListed(s.stores, split);
  }

  /** As written, when a create of the volume has ended OK, with anything else going on meanwhile, its
      split is stored as filled from the request, and exactly those of its claims are live, as it says,
      that no look of the call has met in the state the claim cache then showed. */
  lemma CreateOkClaims(cfg: Config, s: State, volume: string, options: LowerOptions, steps: seq<Step>)
    requires cfg.lookup.SuffixedTwice? && Inv(cfg, s) && volume !in s.calls && NameOk(cfg, volume)
    requires OneCall(cfg, steps, volume)
    requires CreatedOk(s, Run(cfg, Apply(cfg, s, Begin(volume, Create(options))), steps), volume)
    ensures var now := Run(cfg, Apply(cfg, s, Begin(volume, Create(options))), steps);
      var split := Filled(cfg.claimNamePrefix, SpecOf(volume, options));
      && HasSplit(now.stores, volume, split)
      && (forall i | 0 <= i < |split.splits| ::
            IsLive(now.stores, split, i) <==> !MetClaim(now, |s.looks|, volume, split, i))
      && (AllLive(now.stores, split) <==>
            forall i | 0 <= i < |split.splits| :: !MetClaim(now, |s.looks|, volume, split, i))
  {
    var s1, spec := Apply(cfg, s, Begin(volume, Create(options))), SpecOf(volume, options);
    InvStep(cfg, s, Begin(volume, Create(options)));
    assert s1.looks == s.looks && s1.answers == s.answers && s1.calls[volume] == GetFirst(spec);
    assert OnTheWay(cfg, s1, s1, volume, spec);
    RunOnTheWay(cfg, s1, s1, steps, volume, spec);
    assert CreatedOk(s1, Run(cfg, s1, steps), volume);
    OneCallRuns(cfg, s1, steps, volume);
    LiveIsKept(cfg, Run(cfg, s1, steps), volume, Filled(cfg.claimNamePrefix, spec));
  }

  lemma OneCallRuns(cfg: Config, s: State, steps: seq<Step>, volume: string)
    requires Inv(cfg, s) && OneCall(cfg, steps, volume)
    ensures Inv(cfg, Run(cfg, s, steps))
  {
    assert NamesOk(cfg, steps) by {
      assert forall i | 0 <= i < |steps| :: OneCallStep(cfg, steps[i], volume);
    }
    InvRun(cfg, s, steps);
  }

  // ---------- When an OK is sure to mean all claims ----------

  /** No state of the claim store, from the one the cache shows to the present, has any of the claims
      of the split from number i on. */
  ghost predicate Unseen(s: State, split: SplitSpec, i: nat) {
    forall m, j | s.cacheAt <= m < |s.past| && i <= j < |split.splits| :: KeyOf(split, j) !in s.past[m]
  }

  /** The call has met no claim, and will not as far as can be seen. */
  ghost predicate Unmet(before: State, s: State, volume: string, split: SplitSpec) {
    && (volume in s.calls ==> Unseen(s, split, if s.calls[volume].MakesClaims() then s.calls[volume].index else 0))
    && forall l: nat | |before.looks| <= l < |s.looks| && s.looks[l].volume == volume ::
         s.looks[l].at < |s.past| && !Found(s, s.looks[l])
  }

  lemma OthersUnmet(cfg: Config, before: State, s: State, step: Step, volume: string, split: SplitSpec)
    requires Inv(cfg, s) && OneCall(cfg, [step], volume) && !(step.Go? && step.volume == volume) && !step.Crash?
    requires Grown(before, s) && Unmet(before, s, volume, split)
    requires split.splits == ClaimsOf(cfg.claimNamePrefix, volume, split.capacityTotal)
    ensures Unmet(before, Apply(cfg, s, step), volume, split)
  {
    var s' := Apply(cfg, s, step);
    assert [step][0] == step;
    InvStep(cfg, s, step);
    OthersGrow(cfg, s, step, volume);
    if volume in s.calls {
      assert s'.calls[volume] == s.calls[volume];
      var i := if s.calls[volume].MakesClaims() then s.calls[volume].index else 0;
      if step.Go? && step.volume in s.calls {
        GoStep(cfg, s, step.volume, step.reply);
        OthersLeaveClaims(cfg, s.stores, s'.stores, volume, step.volume);
        StillUnseen(s, s', split, i);
      }
    }
    forall l: nat | |before.looks| <= l < |s'.looks| && s'.looks[l].volume == volume
      ensures s'.looks[l].at < |s'.past| && !Found(s', s'.looks[l])
    {
      assert s'.looks[l] == s.looks[l];
    }
  }

  lemma StillUnseen(s: State, s': State, split: SplitSpec, i: nat)
    requires HistoryOk(s) && Unseen(s, split, i)
    requires s'.cacheAt == s.cacheAt && s'.past == Remembered(s.past, s'.stores.claims)
    requires forall j | i <= j < |split.splits| && KeyOf(split, j) in s'.stores.claims ::
      KeyOf(split, j) in s.stores.claims
    ensures Unseen(s', split, i)
  {}

  lemma OwnLookUnmet(cfg: Config, before: State, s: State, reply: Reply, volume: string, split: SplitSpec)
    requires Inv(cfg, s) && volume in s.calls && Grown(before, s) && s.calls[volume].LookClaim?
    requires s.calls[volume].split == split
    requires Wellformed(s.calls[volume]) && Unmet(before, s, volume, split)
    ensures Unmet(before, Apply(cfg, s, Go(volume, reply)), volume, split)
  {
    GoStep(cfg, s, volume, reply);
  }

  lemma OwnPutUnmet(cfg: Config, before: State, s: State, reply: Reply, volume: string, split: SplitSpec)
    requires Inv(cfg, s) && volume in s.calls && Grown(before, s) && s.calls[volume].PutClaim?
    requires s.calls[volume].split == split
    requires Unmet(before, s, volume, split)
    ensures Unmet(before, Apply(cfg, s, Go(volume, reply)), volume, split)
  {
    var s', i := Apply(cfg, s, Go(volume, reply)), s.calls[volume].index;
    assert CallOk(cfg, s.stores, volume, s.calls[volume]);
    GoStep(cfg, s, volume, reply);
    OwnGrow(cfg, s, volume, reply);
    assert StoredOk(cfg, SplitName(volume), split);
    KeysDiffer(cfg, split, i);
    StillUnseen(s, s', split, i + 1);
  }

  lemma OwnUnmet(cfg: Config, before: State, s: State, reply: Reply, volume: string, spec: SplitSpec)
    requires Inv(cfg, s) && volume in s.calls && Grown(before, s)
    requires OnTheWay(cfg, before, s, volume, spec) && Unmet(before, s, volume, Filled(cfg.claimNamePrefix, spec))
    ensures Unmet(before, Apply(cfg, s, Go(volume, reply)), volume, Filled(cfg.claimNamePrefix, spec))
  {
    if s.calls[volume].PutClaim? {
      OwnPutUnmet(cfg, before, s, reply, volume, Filled(cfg.claimNamePrefix, spec));
    } else if s.calls[volume].LookClaim? {
      OwnLookUnmet(cfg, before, s, reply, volume, Filled(cfg.claimNamePrefix, spec));
    } else {
      GoStep(cfg, s, volume, reply);
    }
  }

  lemma {:induction false} RunUnmet(cfg: Config, before: State, s: State, steps: seq<Step>, volume: string,
    spec: SplitSpec)
    requires cfg.lookup.SuffixedTwice? && Inv(cfg, s) && OneCall(cfg, steps, volume) && spec.volumeName == volume
    requires spec.splits == []
    requires Grown(before, s) && OnTheWay(cfg, before, s, volume, spec)
    requires Unmet(before, s, volume, Filled(cfg.claimNamePrefix, spec))
    ensures Unmet(before, Run(cfg, s, steps), volume, Filled(cfg.claimNamePrefix, spec))
    decreases |steps|
  {
    if steps != [] {
      var step := steps[0];
      OneCallTail(cfg, steps, volume);
      FilledSplits(cfg.claimNamePrefix, spec);
      if step.Crash? {
        assert Apply(cfg, s, step).looks == s.looks;
      } else if !(step.Go? && step.volume == volume) {
        OthersUnmet(cfg, before, s, step, volume, Filled(cfg.claimNamePrefix, spec));
      } else if volume in s.calls {
        OwnUnmet(cfg, before, s, step.reply, volume, spec);
      }
      StepOnTheWay(cfg, before, s, step, volume, spec);
      RunUnmet(cfg, before, Apply(cfg, s, step), steps[1..], volume, spec);
    }
  }

  /** A create begun when the claim cache has all removals of such claims behind it gets them all. */
  lemma UnseenClaimsAllCome(cfg: Config, s: State, volume: string, options: LowerOptions, steps: seq<Step>)
    requires cfg.lookup.SuffixedTwice? && Inv(cfg, s) && volume !in s.calls && NameOk(cfg, volume)
    requires OneCall(cfg, steps, volume) && Unseen(s, Filled(cfg.claimNamePrefix, SpecOf(volume, options)), 0)
    requires CreatedOk(s, Run(cfg, Apply(cfg, s, Begin(volume, Create(options))), steps), volume)
    ensures AllLive(Run(cfg, Apply(cfg, s, Begin(volume, Create(options))), steps).stores,
      Filled(cfg.claimNamePrefix, SpecOf(volume, options)))
  {
    var s1, spec := Apply(cfg, s, Begin(volume, Create(options))), SpecOf(volume, options);
    InvStep(cfg, s, Begin(volume, Create(options)));
    CreateOkClaims(cfg, s, volume, options, steps);
    RunUnmet(cfg, s1, s1, steps, volume, spec);
  }

  /** Exactly those claims of the split are live that no look of the call, from the given number on, has
      met in the cache; and so all are when nothing was to be met. */
  ghost predicate ClaimsAsSeen(before: State, now: State, volume: string, split: SplitSpec) {
    && (forall i | 0 <= i < |split.splits| ::
          IsLive(now.stores, split, i) <==> !MetClaim(now, |before.looks|, volume, split, i))
    && (Unseen(before, split, 0) ==> AllLive(now.stores, split))
  }

  lemma OkAsSeen(cfg: Config, s: State, volume: string, options: LowerOptions, steps: seq<Step>, now: State)
    requires cfg.lookup.SuffixedTwice? && Inv(cfg, s) && volume !in s.calls && NameOk(cfg, volume)
    requires OneCall(cfg, steps, volume) && NoCrash(steps)
    requires now == Run(cfg, Apply(cfg, s, Begin(volume, Create(options))), steps)
    requires volume !in now.calls && |now.answers| > 0 && now.answers[|now.answers| - 1] == Answer(volume, true, Nil)
    ensures var split := Filled(cfg.claimNamePrefix, SpecOf(volume, options));
      HasSplit(now.stores, volume, split) && ClaimsAsSeen(s, now, volume, split)
  {
    LeavesWithAnswer(cfg, Apply(cfg, s, Begin(volume, Create(options))), steps, volume);
    CreateOkClaims(cfg, s, volume, options, steps);
    if Unseen(s, Filled(cfg.claimNamePrefix, SpecOf(volume, options)), 0) {
      UnseenClaimsAllCome(cfg, s, volume, options, steps);
    }
  }

  /** Whatever goes on meanwhile, a create of the volume begun now that ends OK gets all its claims. */
  ghost predicate OkMeansComplete(cfg: Config, s: State, volume: string, options: LowerOptions) {
    forall steps: seq<Step> ::
      var now := Run(cfg, Apply(cfg, s, Begin(volume, Create(options))), steps);
      OneCall(cfg, steps, volume) && CreatedOk(s, now, volume)
      ==> AllLive(now.stores, Filled(cfg.claimNamePrefix, SpecOf(volume, options)))
  }

  /** As written, a create of a volume that has a split does not end OK at all. */
  lemma NoOkWithSplit(cfg: Config, s: State, volume: string, options: LowerOptions, steps: seq<Step>)
    requires cfg.lookup.SuffixedTwice? && Inv(cfg, s) && volume !in s.calls && NameOk(cfg, volume)
    requires SplitName(volume) in s.stores.splits && OneCall(cfg, steps, volume)
    ensures !CreatedOk(s, Run(cfg, Apply(cfg, s, Begin(volume, Create(options))), steps), volume)
  {
    var s1 := Apply(cfg, s, Begin(volume, Create(options)));
    InvStep(cfg, s, Begin(volume, Create(options)));
    assert forall i | 0 <= i < |steps| :: OneCallStep(cfg, steps[i], volume);
    RepeatedCreateFails(cfg, s, s1, steps, volume, s.stores.splits[SplitName(volume)]);
  }

  /** Exactly when is an OK of CreateVolume to be relied on?  As written: when the volume has a split
      already, for then there is none; otherwise when no state of the claim store, from the one the
      claim cache shows to the present, has a claim that the volume will list.  That is so for a name
      never used before; after a deletion it is so once the cache has seen the claims go. */
  lemma CreateOkIsCompleteIff(cfg: Config, s: State, volume: string, options: LowerOptions)
    requires cfg.lookup.SuffixedTwice? && Inv(cfg, s) && volume !in s.calls && NameOk(cfg, volume)
    ensures OkMeansComplete(cfg, s, volume, options) <==>
      || SplitName(volume) in s.stores.splits
      || Unseen(s, Filled(cfg.claimNamePrefix, SpecOf(volume, options)), 0)
  {
    var split := Filled(cfg.claimNamePrefix, SpecOf(volume, options));
    if SplitName(volume) in s.stores.splits || Unseen(s, split, 0) {
      forall steps: seq<Step>
        | OneCall(cfg, steps, volume) &&
          CreatedOk(s, Run(cfg, Apply(cfg, s, Begin(volume, Create(options))), steps), volume)
        ensures AllLive(Run(cfg, Apply(cfg, s, Begin(volume, Create(options))), steps).stores, split)
      {
        if SplitName(volume) in s.stores.splits {
          NoOkWithSplit(cfg, s, volume, options, steps);
        } else {
          UnseenClaimsAllCome(cfg, s, volume, options, steps);
        }
      }
    } else {
      var m: nat, j: nat :| s.cacheAt <= m < |s.past| && j < |split.splits| && KeyOf(split, j) in s.past[m];
      var steps := CreateMissesClaim(cfg, s, volume, options, m, j);
    }
  }

  /** When the cache moves to a state with an old claim of that name, the create leaves it out. */
  lemma CreateMissesClaim(cfg: Config, s: State, volume: string, options: LowerOptions, m: nat, j: nat)
    returns (steps: seq<Step>)
    requires cfg.lookup.SuffixedTwice? && Inv(cfg, s) && volume !in s.calls && NameOk(cfg, volume)
    requires SplitName(volume) !in s.stores.splits && s.cacheAt <= m < |s.past|
    requires var split := Filled(cfg.claimNamePrefix, SpecOf(volume, options));
      j < |split.splits| && KeyOf(split, j) in s.past[m]
    ensures var now := Run(cfg, Apply(cfg, s, Begin(volume, Create(options))), steps);
      var split := Filled(cfg.claimNamePrefix, SpecOf(volume, options));
      && OneCall(cfg, steps, volume) && CreatedOk(s, now, volume) && !AllLive(now.stores, split)
      && KeyOf(split, j) !in now.stores.claims
  {
    var s1 := Apply(cfg, s, Begin(volume, Create(options)));
    InvStep(cfg, s, Begin(volume, Create(options)));
    var s2 := Apply(cfg, s1, SyncClaims(m));
    InvStep(cfg, s1, SyncClaims(m));
    assert s2 == s1.(cacheAt := m);
    var rest := QuietCreate(cfg, s2, volume, SpecOf(volume, options));
    steps := [SyncClaims(m)] + rest;
    assert steps[0] == SyncClaims(m) && steps[1..] == rest;
    var now, split := Run(cfg, s1, steps), Filled(cfg.claimNamePrefix, SpecOf(volume, options));
    assert now == Run(cfg, s2, rest);
    assert now.answers[|s.answers|] == Answer(volume, true, Nil);
    CreateOkClaims(cfg, s, volume, options, steps);
    assert now.past[m] == s.past[m];
    assert now.looks[|s.looks| + j] == Look(volume, KeyOf(split, j), m);
    assert Met(now, |s.looks|, volume, KeyOf(split, j)) && MetClaim(now, |s.looks|, volume, split, j);
    OneCallRuns(cfg, s1, steps, volume);
    LiveIsKept(cfg, now, volume, split);
    assert !IsLive(now.stores, split, j);
  }

  lemma RunOne(cfg: Config, s: State, step: Step)
    ensures Run(cfg, s, [step]) == Apply(cfg, s, step)
  {
    RunSnoc(cfg, s, [], step);
    assert [] + [step] == [step];
  }

  /** A create that no fault and no other call meets: it looks for both claims and ends OK. */
  lemma QuietCreate(cfg: Config, s: State, volume: string, spec: SplitSpec) returns (t: seq<Step>)
    requires cfg.lookup.SuffixedTwice? && Inv(cfg, s) && volume in s.calls && s.calls[volume] == GetFirst(spec)
    requires SplitName(volume) !in s.stores.splits
    ensures OneCall(cfg, t, volume)
    ensures var s' := Run(cfg, s, t); var split := Filled(cfg.claimNamePrefix, spec);
      && s'.calls == s.calls - {volume} && s'.answers == s.answers + [Answer(volume, true, Nil)]
      && |split.splits| == 2
      && s'.looks == s.looks + [Look(volume, KeyOf(split, 0), s.cacheAt), Look(volume, KeyOf(split, 1), s.cacheAt)]
      && s.past <= s'.past && s'.cacheAt == s.cacheAt && HasSplit(s'.stores, volume, split)
  {
    var split := Filled(cfg.claimNamePrefix, spec);
    var s1 := QuietSplit(cfg, s, volume, spec);
    t := [Go(volume, Served)] + [Go(volume, Served)];
    var rest := QuietClaims(cfg, s1, volume, split);
    RunConcat(cfg, s, t, rest);
    t := t + rest;
    assert s1.calls - {volume} == s.calls - {volume};
  }

  lemma QuietClaims(cfg: Config, s: State, volume: string, split: SplitSpec) returns (t: seq<Step>)
    requires cfg.lookup.SuffixedTwice? && Inv(cfg, s) && volume in s.calls && s.calls[volume] == LookClaim(split, 0)
    requires |split.splits| == 2
    ensures OneCall(cfg, t, volume)
    ensures var s' := Run(cfg, s, t);
      && s'.calls == s.calls - {volume} && s'.answers == s.answers + [Answer(volume, true, Nil)]
      && s'.looks == s.looks + [Look(volume, KeyOf(split, 0), s.cacheAt), Look(volume, KeyOf(split, 1), s.cacheAt)]
      && s.past <= s'.past && s'.cacheAt == s.cacheAt && HasSplit(s'.stores, volume, split)
  {
    var t1, s1 := QuietClaim(cfg, s, volume, split, 0);
    var t2, s2 := QuietClaim(cfg, s1, volume, split, 1);
    RunConcat(cfg, s, t1, t2);
    t := t1 + t2;
    assert s1.calls - {volume} == s.calls - {volume};
  }

  lemma QuietSplit(cfg: Config, s: State, volume: string, spec: SplitSpec) returns (s': State)
    requires cfg.lookup.SuffixedTwice? && Inv(cfg, s) && volume in s.calls && s.calls[volume] == GetFirst(spec)
    requires SplitName(volume) !in s.stores.splits
    ensures s' == Run(cfg, s, [Go(volume, Served)] + [Go(volume, Served)]) && Inv(cfg, s')
    ensures var split := Filled(cfg.claimNamePrefix, spec);
      && |split.splits| == 2 && s'.calls == s.calls[volume := LookClaim(split, 0)]
      && s'.answers == s.answers && s'.looks == s.looks && s'.past == s.past && s'.cacheAt == s.cacheAt
  {
    assert CallOk(cfg, s.stores, volume, s.calls[volume]);
    FilledSplits(cfg.claimNamePrefix, spec);
    if LookupName(cfg, volume) in s.stores.splits {
      FoundIsOwn(cfg, s.stores, volume);
    }
    var u := Apply(cfg, s, Go(volume, Served));
    assert u == s.(calls := s.calls[volume := PutSplit(spec)]);
    InvStep(cfg, s, Go(volume, Served));
    RunOne(cfg, s, Go(volume, Served));
    s' := Apply(cfg, u, Go(volume, Served));
    InvStep(cfg, u, Go(volume, Served));
    RunSnoc(cfg, s, [Go(volume, Served)], Go(volume, Served));
  }

  /** Where a call stands when it is done with claim i. */
  predicate DoneWith(s: State, s': State, volume: string, split: SplitSpec, i: nat) {
    if i + 1 < |split.splits| then s'.calls == s.calls[volume := LookClaim(split, i + 1)] && s'.answers == s.answers
    else s'.calls == s.calls - {volume} && s'.answers == s.answers + [Answer(volume, true, Nil)]
  }

  lemma QuietClaim(cfg: Config, s: State, volume: string, split: SplitSpec, i: nat) returns (t: seq<Step>, s': State)
    requires cfg.lookup.SuffixedTwice? && Inv(cfg, s) && volume in s.calls && s.calls[volume] == LookClaim(split, i)
    requires i < |split.splits|
    ensures OneCall(cfg, t, volume) && s' == Run(cfg, s, t)
    ensures Inv(cfg, s') && HasSplit(s'.stores, volume, split) && DoneWith(s, s', volume, split, i)
    ensures s'.looks == s.looks + [Look(volume, KeyOf(split, i), s.cacheAt)] && s.past <= s'.past
    ensures s'.cacheAt == s.cacheAt
  {
    assert CallOk(cfg, s.stores, volume, s.calls[volume]);
    s' := Apply(cfg, s, Go(volume, Served));
    LookStep(cfg, s, volume, split, i);
    InvStep(cfg, s, Go(volume, Served));
    if FoundInCache(s, s.calls[volume]) {
      RunOne(cfg, s, Go(volume, Served));
      t := [Go(volume, Served)];
    } else {
      t, s' := QuietPut(cfg, s, s', volume, split, i);
    }
  }

  lemma QuietPut(cfg: Config, s: State, u: State, volume: string, split: SplitSpec, i: nat)
    returns (t: seq<Step>, s': State)
    requires u == Apply(cfg, s, Go(volume, Served)) && Inv(cfg, u) && i < |split.splits|
    requires u.calls == s.calls[volume := PutClaim(split, i)] && u.answers == s.answers
    requires KeyOf(split, i) !in u.stores.claims && HasSplit(u.stores, volume, split)
    ensures OneCall(cfg, t, volume) && s' == Run(cfg, s, t)
    ensures Inv(cfg, s') && HasSplit(s'.stores, volume, split) && DoneWith(s, s', volume, split, i)
    ensures s'.looks == u.looks && u.past <= s'.past && s'.cacheAt == u.cacheAt
  {
    var go := Go(volume, Served);
    RunTwo(cfg, s, go, go);
    t := [go] + [go];
    s' := Apply(cfg, u, go);
    InvStep(cfg, u, go);
    PutStep(cfg, u, volume, split, i);
    DoneFromThere(s, u, s', volume, split, i);
  }

  lemma RunTwo(cfg: Config, s: State, a: Step, b: Step)
    ensures Run(cfg, s, [a] + [b]) == Apply(cfg, Apply(cfg, s, a), b)
  {
    RunOne(cfg, s, a);
    RunSnoc(cfg, s, [a], b);
  }

  lemma DoneFromThere(s: State, u: State, s': State, volume: string, split: SplitSpec, i: nat)
    requires u.calls == s.calls[volume := PutClaim(split, i)] && u.answers == s.answers
    requires DoneWith(u, s', volume, split, i)
    ensures DoneWith(s, s', volume, split, i)
  {
    assert u.calls[volume := LookClaim(split, i + 1)] == s.calls[volume := LookClaim(split, i + 1)];
    assert u.calls - {volume} == s.calls - {volume};
  }

  lemma LookStep(cfg: Config, s: State, volume: string, split: SplitSpec, i: nat)
    requires volume in s.calls && s.calls[volume] == LookClaim(split, i) && i < |split.splits| && HistoryOk(s)
    ensures var s' := Apply(cfg, s, Go(volume, Served));
      && s'.stores == s.stores && s'.past == s.past && s'.cacheAt == s.cacheAt
      && s'.looks == s.looks + [Look(volume, KeyOf(split, i), s.cacheAt)]
      && if FoundInCache(s, s.calls[volume]) then DoneWith(s, s', volume, split, i)
         else s'.calls == s.calls[volume := PutClaim(split, i)] && s'.answers == s.answers
  {}

  lemma PutStep(cfg: Config, s: State, volume: string, split: SplitSpec, i: nat)
    requires volume in s.calls && s.calls[volume] == PutClaim(split, i) && i < |split.splits|
    requires KeyOf(split, i) !in s.stores.claims
    ensures var s' := Apply(cfg, s, Go(volume, Served));
      && s'.stores.splits == s.stores.splits && s.past <= s'.past && s'.cacheAt == s.cacheAt && s'.looks == s.looks
      && DoneWith(s, s', volume, split, i)
  {}

  /** A create that is OK without all its claims does occur: the volume has been created, deleted, and is
      created again while the claim cache still shows the claims that are gone. */
  lemma CreateOkCanLackClaims(cfg: Config, volume: string, options: LowerOptions)
    returns (before: seq<Step>, steps: seq<Step>)
    requires cfg.lookup.SuffixedTwice? && NoPair(cfg) && NameOk(cfg, volume)
    ensures NamesOk(cfg, before) && OneCall(cfg, steps, volume) && volume !in Run(cfg, INIT, before).calls
    ensures var s := Run(cfg, INIT, before);
      var now := Run(cfg, Apply(cfg, s, Begin(volume, Create(options))), steps);
      CreatedOk(s, now, volume) && !AllLive(now.stores, Filled(cfg.claimNamePrefix, SpecOf(volume, options)))
  {
    var b, spec := Begin(volume, Create(options)), SpecOf(volume, options);
    var split := Filled(cfg.claimNamePrefix, spec);
    InitInv(cfg);
    var s1 := Apply(cfg, INIT, b);
    InvStep(cfg, INIT, b);
    var t1 := QuietCreate(cfg, s1, volume, spec);
    var s2 := Run(cfg, s1, t1);
    InvRun(cfg, s1, t1);
    var t2 := QuietDelete(cfg, s2, volume, split);
    var s3 := Run(cfg, s2, t2);
    InvRun(cfg, s2, t2);
    before := [b] + t1 + t2;
    assert ([b] + t1)[0] == b && ([b] + t1)[1..] == t1;
    RunConcat(cfg, INIT, [b] + t1, t2);
    assert s2.answers[0] == Answer(volume, true, Nil);
    var m := BothLive(cfg, s1, s2, volume, options, t1);
    steps := CreateMissesClaim(cfg, s3, volume, options, m, 0);
  }

  /** After the first create, whose looks met nothing, the history has a state with its claims. */
  lemma BothLive(cfg: Config, s1: State, s2: State, volume: string, options: LowerOptions, t: seq<Step>)
    returns (m: nat)
    requires cfg.lookup.SuffixedTwice? && Inv(cfg, INIT) && NameOk(cfg, volume) && OneCall(cfg, t, volume)
    requires s1 == Apply(cfg, INIT, Begin(volume, Create(options))) && s2 == Run(cfg, s1, t) && Inv(cfg, s2)
    requires CreatedOk(INIT, s2, volume)
    ensures var split := Filled(cfg.claimNamePrefix, SpecOf(volume, options));
      m < |s2.past| && |split.splits| == 2 && KeyOf(split, 0) in s2.past[m]
  {
    FilledSplits(cfg.claimNamePrefix, SpecOf(volume, options));
    UnseenClaimsAllCome(cfg, INIT, volume, options, t);
    assert IsLive(s2.stores, Filled(cfg.claimNamePrefix, SpecOf(volume, options)), 0);
    m := |s2.past| - 1;
  }
}
