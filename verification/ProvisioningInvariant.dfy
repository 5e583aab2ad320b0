/** What every reachable state of the stores and calls satisfies. */
module ProvisioningInvariant {
  import opened Options
  import opened Names
  import opened SplitSpecs
  import opened Provisioning

  /** The split lists this claim. */
  ghost predicate Lists(split: SplitSpec, key: ClaimKey) {
    exists i | 0 <= i < |split.splits| :: key == KeyOf(split, i)
  }

  /** Some existing split lists this claim. */
  ghost predicate Recorded(splits: map<string, SplitSpec>, key: ClaimKey) {
    exists name | name in splits :: Lists(splits[name], key)
  }

  ghost predicate NoOrphans(st: Stores) {
    forall key | key in st.claims :: Recorded(st.splits, key)
  }

  /** A stored split is under the name of its volume and lists exactly that volume's claims. */
  ghost predicate StoredOk(cfg: Config, name: string, split: SplitSpec) {
    && name == SplitName(split.volumeName)
    && NameOk(cfg, split.volumeName)
    && split.splits == ClaimsOf(cfg.claimNamePrefix, split.volumeName, split.capacityTotal)
  }

  ghost predicate SplitsOk(cfg: Config, st: Stores) {
    forall name | name in st.splits :: StoredOk(cfg, name, st.splits[name])
  }

  /** None of the first n claims the split lists is live. */
  ghost predicate Dropped(st: Stores, split: SplitSpec, n: nat)
    requires n <= |split.splits|
  {
    forall i | 0 <= i < n :: KeyOf(split, i) !in st.claims
  }

  /** None of the claims the split lists from n on is live. */
  ghost predicate Missing(st: Stores, split: SplitSpec, n: nat) {
    forall i | n <= i < |split.splits| :: KeyOf(split, i) !in st.claims
  }

  ghost predicate HasSplit(st: Stores, volume: string, split: SplitSpec) {
    SplitName(volume) in st.splits && st.splits[SplitName(volume)] == split
  }

  ghost predicate CallOk(cfg: Config, st: Stores, volume: string, pc: Pc) {
    && NameOk(cfg, volume)
    && match pc
       case GetFirst(spec) => spec.volumeName == volume && spec.splits == []
       case PutSplit(spec) => spec.volumeName == volume && spec.splits == []
       case GetAgain(spec) => spec.volumeName == volume && spec.splits == []
       case LookClaim(split, i) => HasSplit(st, volume, split) && i < |split.splits|
         && (cfg.lookup.SuffixedTwice? ==> Missing(st, split, i))
       case PutClaim(split, i) => HasSplit(st, volume, split) && i < |split.splits|
         && (cfg.lookup.SuffixedTwice? ==> Missing(st, split, i))
       case GetForDelete => true
       case DropClaim(split, i) => HasSplit(st, volume, split) && i < |split.splits| && Dropped(st, split, i)
       case DropSplit(split) => HasSplit(st, volume, split) && Dropped(st, split, |split.splits|)
  }

  /** The claims of the split that are live are as it says. */
  ghost predicate AsListed(st: Stores, split: SplitSpec) {
    forall i | 0 <= i < |split.splits| && KeyOf(split, i) in st.claims ::
      st.claims[KeyOf(split, i)] == ClaimFor(split, i)
  }

  ghost predicate ClaimsOk(st: Stores) {
    forall name | name in st.splits :: AsListed(st, st.splits[name])
  }

  ghost predicate HistoryOk(s: State) {
    s.cacheAt < |s.past| && s.past[|s.past| - 1] == s.stores.claims
  }

  ghost predicate Inv(cfg: Config, s: State) {
    && NoPair(cfg)
    && SplitsOk(cfg, s.stores)
    && NoOrphans(s.stores)
    && ClaimsOk(s.stores)
    && HistoryOk(s)
    && forall v | v in s.calls :: CallOk(cfg, s.stores, v, s.calls[v])
  }

  lemma InitInv(cfg: Config)
    requires NoPair(cfg)
    ensures Inv(cfg, INIT)
  {}

  // ---------- Claims of different volumes never collide ----------

  lemma OnlyItsOwnVolume(cfg: Config, a: SplitSpec, i: nat, b: SplitSpec, j: nat)
    requires a.splits == ClaimsOf(cfg.claimNamePrefix, a.volumeName, a.capacityTotal) && i < |a.splits|
    requires b.splits == ClaimsOf(cfg.claimNamePrefix, b.volumeName, b.capacityTotal) && j < |b.splits|
    requires KeyOf(a, i) == KeyOf(b, j)
    ensures a.volumeName == b.volumeName
  {
    ClaimNameIsInjective(cfg.claimNamePrefix, a.volumeName, i, b.volumeName, j);
  }

  ghost predicate ListedBy(st: Stores, volume: string, key: ClaimKey) {
    SplitName(volume) in st.splits && Lists(st.splits[SplitName(volume)], key)
  }

  /** What one call changes: at most its own split and claims listed by it. */
  ghost predicate OnlyTouches(st: Stores, st': Stores, volume: string) {
    && (forall name | name != SplitName(volume) :: Lookup(st'.splits, name) == Lookup(st.splits, name))
    && (forall key | key in st'.claims && key !in st.claims :: ListedBy(st', volume, key))
    && (forall key | key in st.claims && key !in st'.claims :: ListedBy(st, volume, key))
  }

  /** The split of another volume and the claims it lists are not touched. */
  lemma OthersClaimsStay(cfg: Config, st: Stores, st': Stores, volume: string, other: string, split: SplitSpec)
    requires SplitsOk(cfg, st) && SplitsOk(cfg, st') && OnlyTouches(st, st', volume)
    requires other != volume && HasSplit(st, other, split)
    ensures HasSplit(st', other, split)
    ensures forall i | 0 <= i < |split.splits| :: KeyOf(split, i) in st'.claims <==> KeyOf(split, i) in st.claims
  {
    if SplitName(other) == SplitName(volume) {
      SplitNameIsInjective(other, volume);
    }
    assert Lookup(st'.splits, SplitName(other)) == Lookup(st.splits, SplitName(other));
    assert StoredOk(cfg, SplitName(other), split);
    forall i | 0 <= i < |split.splits| ensures KeyOf(split, i) in st'.claims <==> KeyOf(split, i) in st.claims {
      NotListedByOther(cfg, st, volume, other, split, i);
      NotListedByOther(cfg, st', volume, other, split, i);
    }
  }

  lemma NotListedByOther(cfg: Config, st: Stores, volume: string, other: string, split: SplitSpec, i: nat)
    requires SplitsOk(cfg, st) && StoredOk(cfg, SplitName(other), split) && other != volume && i < |split.splits|
    ensures !ListedBy(st, volume, KeyOf(split, i))
  {
    if ListedBy(st, volume, KeyOf(split, i)) {
      var own := st.splits[SplitName(volume)];
      var j :| 0 <= j < |own.splits| && KeyOf(split, i) == KeyOf(own, j);
      assert StoredOk(cfg, SplitName(volume), own);
      OnlyItsOwnVolume(cfg, split, i, own, j);
      SplitNameIsInjective(other, volume);
      assert false;
    }
  }

  /** A call of another volume is not disturbed. */
  lemma OtherCallOk(cfg: Config, st: Stores, st': Stores, volume: string, other: string, pc: Pc)
    requires SplitsOk(cfg, st) && SplitsOk(cfg, st') && OnlyTouches(st, st', volume)
    requires other != volume && CallOk(cfg, st, other, pc)
    ensures CallOk(cfg, st', other, pc)
  {
    if pc.MakesClaims() || pc.DropClaim? || pc.DropSplit? {
      OthersClaimsStay(cfg, st, st', volume, other, pc.split);
    }
  }

  // ---------- One access ----------

  ghost predicate NextOk(cfg: Config, st: Stores, volume: string, next: Next) {
    next.Continue? ==> CallOk(cfg, st, volume, next.pc)
  }

  /** What CreateSplit's lookup can find: under the name premise, nothing as written, and the
      volume's own split when looked up by volume id. */
  lemma FoundIsOwn(cfg: Config, st: Stores, volume: string)
    requires NoPair(cfg) && SplitsOk(cfg, st) && NameOk(cfg, volume) && LookupName(cfg, volume) in st.splits
    ensures cfg.lookup.ByVolumeId? && LookupName(cfg, volume) == SplitName(volume)
  {
    if cfg.lookup.SuffixedTwice? {
      var split := st.splits[LookupName(cfg, volume)];
      assert StoredOk(cfg, LookupName(cfg, volume), split);
      SplitNameIsInjective(SplitName(volume), split.volumeName);
      assert false;
    }
  }

  lemma CheckFoundOk(cfg: Config, st: Stores, volume: string, spec: SplitSpec)
    requires NoPair(cfg) && SplitsOk(cfg, st) && NameOk(cfg, volume)
    ensures LookupName(cfg, volume) in st.splits ==>
      NextOk(cfg, st, volume, CheckFound(st.splits[LookupName(cfg, volume)], spec))
    ensures CheckFound(EMPTY_SPEC, spec).Return?
  {
    if LookupName(cfg, volume) in st.splits {
      FoundIsOwn(cfg, st, volume);
    }
  }

  lemma CreateProgress(cfg: Config, st: Stores, volume: string, pc: Pc, reply: Reply, cached: bool)
    requires NoPair(cfg) && SplitsOk(cfg, st) && NoOrphans(st) && CallOk(cfg, st, volume, pc) && pc.Creates()
    ensures var (st', next) := Progress(cfg, st, volume, pc, reply, cached);
      && SplitsOk(cfg, st') && NoOrphans(st') && NextOk(cfg, st', volume, next) && OnlyTouches(st, st', volume)
  {
    var (st', next) := Progress(cfg, st, volume, pc, reply, cached);
    if pc.GetFirst? || pc.GetAgain? {
      CheckFoundOk(cfg, st, volume, pc.spec);
    } else if pc.PutSplit? {
      PutSplitOk(cfg, st, volume, pc.spec);
    } else {
      PutClaimProgress(cfg, st, volume, pc, reply, cached);
    }
  }

  lemma PutClaimProgress(cfg: Config, st: Stores, volume: string, pc: Pc, reply: Reply, cached: bool)
    requires SplitsOk(cfg, st) && NoOrphans(st) && CallOk(cfg, st, volume, pc) && pc.MakesClaims()
    ensures var (st', next) := Progress(cfg, st, volume, pc, reply, cached);
      && SplitsOk(cfg, st') && NoOrphans(st') && NextOk(cfg, st', volume, next) && OnlyTouches(st, st', volume)
  {
    if pc.LookClaim? {
      NextClaimOk(cfg, st, volume, pc.split, pc.index + 1);
    } else {
      var st' := WithClaim(st, KeyOf(pc.split, pc.index), ClaimFor(pc.split, pc.index));
      PutClaimOk(cfg, st, volume, pc.split, pc.index);
      assert StoredOk(cfg, SplitName(volume), pc.split);
      KeysDiffer(cfg, pc.split, pc.index);
      assert cfg.lookup.SuffixedTwice? ==> Missing(st', pc.split, pc.index + 1);
      NextClaimOk(cfg, st', volume, pc.split, pc.index + 1);
    }
  }

  lemma NextClaimOk(cfg: Config, st: Stores, volume: string, split: SplitSpec, i: nat)
    requires NameOk(cfg, volume) && HasSplit(st, volume, split) && (cfg.lookup.SuffixedTwice? ==> Missing(st, split, i))
    ensures NextOk(cfg, st, volume, CreateClaims(split, i))
  {}

  lemma KeysDiffer(cfg: Config, split: SplitSpec, i: nat)
    requires split.splits == ClaimsOf(cfg.claimNamePrefix, split.volumeName, split.capacityTotal) && i < |split.splits|
    ensures forall j | i < j < |split.splits| :: KeyOf(split, j) != KeyOf(split, i)
  {
    forall j | i < j < |split.splits| ensures KeyOf(split, j) != KeyOf(split, i) {
      ListedNamesDiffer(cfg.claimNamePrefix, split.volumeName, split.capacityTotal, i, j);
    }
  }

  /** Without the volume's split none of its claims is live. */
  lemma NothingYet(cfg: Config, st: Stores, volume: string, split: SplitSpec)
    requires SplitsOk(cfg, st) && NoOrphans(st) && SplitName(volume) !in st.splits
    requires split.volumeName == volume && split.splits == ClaimsOf(cfg.claimNamePrefix, volume, split.capacityTotal)
    ensures Missing(st, split, 0)
  {
    forall i | 0 <= i < |split.splits| ensures KeyOf(split, i) !in st.claims {
      if KeyOf(split, i) in st.claims {
        var name :| name in st.splits && Lists(st.splits[name], KeyOf(split, i));
        var other := st.splits[name];
        var j :| 0 <= j < |other.splits| && KeyOf(split, i) == KeyOf(other, j);
        assert StoredOk(cfg, name, other);
        OnlyItsOwnVolume(cfg, split, i, other, j);
        assert false;
      }
    }
  }

  lemma PutSplitOk(cfg: Config, st: Stores, volume: string, spec: SplitSpec)
    requires SplitsOk(cfg, st) && NoOrphans(st) && NameOk(cfg, volume) && spec.volumeName == volume && spec.splits == []
    ensures var split := Filled(cfg.claimNamePrefix, spec); var st' := WithSplit(st, SplitName(volume), split);
      && SplitsOk(cfg, st') && NoOrphans(st') && OnlyTouches(st, st', volume)
      && |split.splits| > 0
      && (SplitName(volume) !in st.splits ==> HasSplit(st', volume, split) && Missing(st', split, 0))
  {
    FilledSplits(cfg.claimNamePrefix, spec);
    if SplitName(volume) !in st.splits {
      NothingYet(cfg, st, volume, Filled(cfg.claimNamePrefix, spec));
    }
    NewSplitOk(cfg, st, volume, Filled(cfg.claimNamePrefix, spec));
  }

  lemma NewSplitOk(cfg: Config, st: Stores, volume: string, split: SplitSpec)
    requires SplitsOk(cfg, st) && NoOrphans(st) && StoredOk(cfg, SplitName(volume), split)
    ensures var st' := WithSplit(st, SplitName(volume), split);
      SplitsOk(cfg, st') && NoOrphans(st') && OnlyTouches(st, st', volume)
  {
    var st' := WithSplit(st, SplitName(volume), split);
    forall key | key in st'.claims ensures Recorded(st'.splits, key) {
      var name :| name in st.splits && Lists(st.splits[name], key);
      assert name in st'.splits && st'.splits[name] == st.splits[name];
    }
  }

  lemma PutClaimOk(cfg: Config, st: Stores, volume: string, split: SplitSpec, i: nat)
    requires SplitsOk(cfg, st) && NoOrphans(st) && HasSplit(st, volume, split) && i < |split.splits|
    ensures var st' := WithClaim(st, KeyOf(split, i), ClaimFor(split, i));
      SplitsOk(cfg, st') && NoOrphans(st') && OnlyTouches(st, st', volume) && HasSplit(st', volume, split)
  {}

  lemma DeleteProgress(cfg: Config, st: Stores, volume: string, pc: Pc, reply: Reply, cached: bool)
    requires SplitsOk(cfg, st) && NoOrphans(st) && CallOk(cfg, st, volume, pc) && !pc.Creates()
    ensures var (st', next) := Progress(cfg, st, volume, pc, reply, cached);
      && SplitsOk(cfg, st') && NoOrphans(st') && NextOk(cfg, st', volume, next) && OnlyTouches(st, st', volume)
  {
    if pc.DropClaim? {
      DropClaimOk(cfg, st, volume, pc.split, pc.index);
    } else if pc.DropSplit? {
      DropSplitOk(cfg, st, volume, pc.split);
    }
  }

  lemma DropClaimOk(cfg: Config, st: Stores, volume: string, split: SplitSpec, i: nat)
    requires SplitsOk(cfg, st) && NoOrphans(st) && HasSplit(st, volume, split) && i < |split.splits|
    requires Dropped(st, split, i)
    ensures var st' := WithoutClaim(st, KeyOf(split, i));
      && SplitsOk(cfg, st') && NoOrphans(st') && OnlyTouches(st, st', volume)
      && HasSplit(st', volume, split) && Dropped(st', split, i + 1)
  {
    assert Lists(split, KeyOf(split, i));
  }

  lemma DropSplitOk(cfg: Config, st: Stores, volume: string, split: SplitSpec)
    requires SplitsOk(cfg, st) && NoOrphans(st) && HasSplit(st, volume, split) && Dropped(st, split, |split.splits|)
    ensures var st' := WithoutSplit(st, SplitName(volume));
      SplitsOk(cfg, st') && NoOrphans(st') && OnlyTouches(st, st', volume)
  {
    var st' := WithoutSplit(st, SplitName(volume));
    forall key | key in st'.claims ensures Recorded(st'.splits, key) {
      var name :| name in st.splits && Lists(st.splits[name], key);
      assert name != SplitName(volume);
      assert name in st'.splits && st'.splits[name] == st.splits[name];
    }
  }

  // ---------- Every run ----------

  lemma ProgressOk(cfg: Config, st: Stores, v: string, pc: Pc, reply: Reply, cached: bool)
    requires NoPair(cfg) && SplitsOk(cfg, st) && NoOrphans(st) && CallOk(cfg, st, v, pc)
    ensures var (st', next) := Progress(cfg, st, v, pc, reply, cached);
      && SplitsOk(cfg, st') && NoOrphans(st') && NextOk(cfg, st', v, next) && OnlyTouches(st, st', v)
  {
    if pc.Creates() {
      CreateProgress(cfg, st, v, pc, reply, cached);
    } else {
      DeleteProgress(cfg, st, v, pc, reply, cached);
    }
  }

  lemma NewClaimOk(cfg: Config, st: Stores, volume: string, split: SplitSpec, i: nat)
    requires SplitsOk(cfg, st) && ClaimsOk(st) && HasSplit(st, volume, split) && i < |split.splits|
    ensures ClaimsOk(WithClaim(st, KeyOf(split, i), ClaimFor(split, i)))
  {
    var st' := WithClaim(st, KeyOf(split, i), ClaimFor(split, i));
    forall name | name in st'.splits ensures AsListed(st', st'.splits[name]) {
      var other := st.splits[name];
      assert AsListed(st, other) && StoredOk(cfg, name, other) && StoredOk(cfg, SplitName(volume), split);
      forall j | 0 <= j < |other.splits| && KeyOf(other, j) == KeyOf(split, i) ensures other == split && j == i {
        OnlyItsOwnVolume(cfg, other, j, split, i);
        SplitNameIsInjective(volume, split.volumeName);
        SameNameSameClaim(cfg, split, i, j);
      }
    }
  }

  lemma SameNameSameClaim(cfg: Config, split: SplitSpec, i: nat, j: nat)
    requires split.splits == ClaimsOf(cfg.claimNamePrefix, split.volumeName, split.capacityTotal)
    requires i < |split.splits| && j < |split.splits| && KeyOf(split, i) == KeyOf(split, j)
    ensures i == j
  {
    if i < j {
      KeysDiffer(cfg, split, i);
    } else if j < i {
      KeysDiffer(cfg, split, j);
    }
  }

  lemma NewSplitClaimsOk(cfg: Config, st: Stores, volume: string, spec: SplitSpec)
    requires SplitsOk(cfg, st) && NoOrphans(st) && ClaimsOk(st) && spec.volumeName == volume && spec.splits == []
    ensures ClaimsOk(WithSplit(st, SplitName(volume), Filled(cfg.claimNamePrefix, spec)))
  {
    if SplitName(volume) !in st.splits {
      var split := Filled(cfg.claimNamePrefix, spec);
      FilledSplits(cfg.claimNamePrefix, spec);
      NothingYet(cfg, st, volume, split);
      var st' := WithSplit(st, SplitName(volume), split);
      forall name | name in st'.splits ensures AsListed(st', st'.splits[name]) {
        if name != SplitName(volume) {
          assert AsListed(st, st.splits[name]);
        }
      }
    }
  }

  lemma FewerClaimsOk(st: Stores, st': Stores)
    requires ClaimsOk(st)
    requires forall name | name in st'.splits :: name in st.splits && st'.splits[name] == st.splits[name]
    requires forall key | key in st'.claims :: key in st.claims && st'.claims[key] == st.claims[key]
    ensures ClaimsOk(st')
  {
    forall name | name in st'.splits ensures AsListed(st', st'.splits[name]) {
      assert AsListed(st, st.splits[name]);
    }
  }

  lemma ProgressClaims(cfg: Config, st: Stores, v: string, pc: Pc, reply: Reply, cached: bool)
    requires SplitsOk(cfg, st) && NoOrphans(st) && ClaimsOk(st) && CallOk(cfg, st, v, pc)
    ensures ClaimsOk(Progress(cfg, st, v, pc, reply, cached).0)
  {
    var st' := Progress(cfg, st, v, pc, reply, cached).0;
    if pc.PutSplit? {
      NewSplitClaimsOk(cfg, st, v, pc.spec);
    } else if pc.PutClaim? {
      NewClaimOk(cfg, st, v, pc.split, pc.index);
    } else {
      FewerClaimsOk(st, st');
    }
  }

  /** What one access of the call for v does to the stores, to that call and to no other. */
  lemma GoStep(cfg: Config, s: State, v: string, reply: Reply)
    requires v in s.calls && Wellformed(s.calls[v])
    ensures var s' := Apply(cfg, s, Go(v, reply));
      var (st, next) := Progress(cfg, s.stores, v, s.calls[v], reply, FoundInCache(s, s.calls[v]));
      && s'.stores == st && s'.past == Remembered(s.past, st.claims) && s'.cacheAt == s.cacheAt
      && s'.looks == Looked(s, v, s.calls[v])
      && s'.calls - {v} == s.calls - {v}
      && (v in s'.calls <==> next.Continue?) && (next.Continue? ==> s'.calls[v] == next.pc)
      && s'.answers == if next.Return? then s.answers + [Answer(v, s.calls[v].Creates(), next.err)] else s.answers
  {}

  lemma InvStep(cfg: Config, s: State, step: Step)
    requires Inv(cfg, s) && (step.Begin? ==> NameOk(cfg, step.volume))
    ensures Inv(cfg, Apply(cfg, s, step))
    ensures step.Go? ==> OnlyTouches(s.stores, Apply(cfg, s, step).stores, step.volume)
    ensures !step.Go? ==> Apply(cfg, s, step).stores == s.stores
  {
    if step.Go? && step.volume in s.calls {
      GoInv(cfg, s, step.volume, step.reply);
    }
  }

  lemma GoInv(cfg: Config, s: State, v: string, reply: Reply)
    requires Inv(cfg, s) && v in s.calls
    ensures Inv(cfg, Apply(cfg, s, Go(v, reply))) && OnlyTouches(s.stores, Apply(cfg, s, Go(v, reply)).stores, v)
  {
    GoOwn(cfg, s, v, reply);
    OtherCallsOk(cfg, s, Apply(cfg, s, Go(v, reply)), v);
  }

  lemma GoOwn(cfg: Config, s: State, v: string, reply: Reply)
    requires Inv(cfg, s) && v in s.calls
    ensures var s' := Apply(cfg, s, Go(v, reply));
      && SplitsOk(cfg, s'.stores) && NoOrphans(s'.stores) && ClaimsOk(s'.stores)
      && HistoryOk(s') && OnlyTouches(s.stores, s'.stores, v)
      && (v in s'.calls ==> CallOk(cfg, s'.stores, v, s'.calls[v])) && s'.calls - {v} == s.calls - {v}
  {
    assert CallOk(cfg, s.stores, v, s.calls[v]);
    GoStep(cfg, s, v, reply);
    ProgressOk(cfg, s.stores, v, s.calls[v], reply, FoundInCache(s, s.calls[v]));
    ProgressClaims(cfg, s.stores, v, s.calls[v], reply, FoundInCache(s, s.calls[v]));
  }

  lemma OtherCallsOk(cfg: Config, s: State, s': State, v: string)
    requires Inv(cfg, s) && SplitsOk(cfg, s'.stores) && OnlyTouches(s.stores, s'.stores, v)
    requires s'.calls - {v} == s.calls - {v}
    ensures forall w | w in s'.calls && w != v :: CallOk(cfg, s'.stores, w, s'.calls[w])
  {
    forall w | w in s'.calls && w != v ensures CallOk(cfg, s'.stores, w, s'.calls[w]) {
      assert w in s'.calls - {v} && (s'.calls - {v})[w] == (s.calls - {v})[w];
      OtherCallOk(cfg, s.stores, s'.stores, v, w, s.calls[w]);
    }
  }

  lemma {:induction false} InvRun(cfg: Config, s: State, steps: seq<Step>)
    requires Inv(cfg, s) && NamesOk(cfg, steps)
    ensures Inv(cfg, Run(cfg, s, steps))
    decreases |steps|
  {
    if steps != [] {
      NamesOkTail(cfg, steps);
      InvStep(cfg, s, steps[0]);
      InvRun(cfg, Apply(cfg, s, steps[0]), steps[1..]);
    }
  }
}
