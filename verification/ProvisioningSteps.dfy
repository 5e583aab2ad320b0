/**
 How a create or a deletion goes on after an access, outcome by outcome, and what it writes: each
 exactly when, said in terms of the stores alone.
 */
module ProvisioningSteps {
  import opened Options
  import opened Names
  import opened SplitSpecs
  import opened Provisioning

  /** What the volume's split is called. */
  function OwnName(volume: string): string {
    volume + "-split"
  }

  /** What CreateSplit looks for: as written, the split of a volume called like the volume's split. */
  function SoughtName(cfg: Config, volume: string): string {
    if cfg.lookup.SuffixedTwice? then volume + "-split" + "-split" else volume + "-split"
  }

  /** The split has what the request asks for, and the request nothing that the split has not. */
  predicate Suits(found: SplitSpec, spec: SplitSpec) {
    && found.namespace == spec.namespace && found.storageClassName == spec.storageClassName
    && found.capacityTotal >= spec.capacityTotal
    && forall mode | mode in spec.accessModes :: mode in found.accessModes
  }

  /** The split a create finds: the stored one of that name, or, when its first read fails, an empty one. */
  function Found(cfg: Config, st: Stores, volume: string, pc: Pc, reply: Reply): Option<SplitSpec> {
    var name := SoughtName(cfg, volume);
    if (pc.GetFirst? || pc.GetAgain?) && reply == Served && name in st.splits then Some(st.splits[name])
    else if pc.GetFirst? && reply != Served then Some(SplitSpec("", 0, [], "", None, []))
    else None
  }

  /** The claim that the access is for. */
  function Key(pc: Pc): ClaimKey
    requires Wellformed(pc) && (pc.MakesClaims() || pc.DropClaim?)
  {
    ClaimKey(pc.split.namespace, pc.split.splits[pc.index].claimName)
  }

  /** The access gets a claim behind it. */
  predicate ClaimDone(st: Stores, pc: Pc, reply: Reply, cached: bool)
    requires Wellformed(pc)
  {
    (pc.LookClaim? && cached) || (pc.PutClaim? && reply == Served && Key(pc) !in st.claims)
  }

  lemma StartsWith(volume: string, options: LowerOptions)
    ensures Start(volume, Create(options)) == GetFirst(SplitSpec(volume, options.capacityBytes, options.accessModes,
      options.namespace, options.storageClassName, []))
    ensures Start(volume, Delete) == GetForDelete
  {}

  lemma CreateEndsIff(cfg: Config, st: Stores, volume: string, pc: Pc, reply: Reply, cached: bool)
    requires Wellformed(pc) && pc.Creates()
    ensures var next, found := Progress(cfg, st, volume, pc, reply, cached).1, Found(cfg, st, volume, pc, reply);
      && (next == Return(ErrIdempotencyIncompatible) <==> found.Some? && !Suits(found.value, pc.spec))
      && (next == Return(ErrEmptySplits) <==> found.Some? && Suits(found.value, pc.spec) && found.value.splits == [])
      && (next == Return(ErrVolumeNotFound) <==>
            pc.GetAgain? && reply == Served && SoughtName(cfg, volume) !in st.splits)
      && (next == Return(ErrClaimExists) <==> pc.PutClaim? && reply == Served && Key(pc) in st.claims)
      && (next == Return(ErrApi) <==> reply != Served && !pc.GetFirst? && !pc.LookClaim?)
      && (next == Return(Nil) <==> ClaimDone(st, pc, reply, cached) && pc.index + 1 == |pc.split.splits|)
  {
    SplitNames(cfg, volume);
    FilledNotEmpty(cfg, pc);
  }

  lemma CreateGoesOnIff(cfg: Config, st: Stores, volume: string, pc: Pc, reply: Reply, cached: bool)
    requires Wellformed(pc) && pc.Creates()
    ensures var next, found := Progress(cfg, st, volume, pc, reply, cached).1, Found(cfg, st, volume, pc, reply);
      && (next.Continue? && next.pc.PutSplit? <==>
            pc.GetFirst? && reply == Served && SoughtName(cfg, volume) !in st.splits)
      && (next.Continue? && next.pc.GetAgain? <==> pc.PutSplit? && reply == Served && OwnName(volume) in st.splits)
      && (next.Continue? && (next.pc.PutSplit? || next.pc.GetAgain?) ==> next.pc.spec == pc.spec)
      && (next.Continue? && next.pc.LookClaim? && next.pc.index == 0 <==>
            || (found.Some? && Suits(found.value, pc.spec) && found.value.splits != [])
            || (pc.PutSplit? && reply == Served && OwnName(volume) !in st.splits))
      && (next.Continue? && next.pc.LookClaim? && next.pc.index > 0 <==>
            ClaimDone(st, pc, reply, cached) && pc.index + 1 < |pc.split.splits|)
      && (next.Continue? && next.pc.PutClaim? <==> pc.LookClaim? && !cached)
      && (next.Continue? && next.pc.MakesClaims() ==>
            && next.pc.split == (if found.Some? then found.value
                                 else if pc.PutSplit? then Filled(cfg.claimNamePrefix, pc.spec) else pc.split)
            && (pc.MakesClaims() ==> next.pc.index == if next.pc.PutClaim? then pc.index else pc.index + 1))
      && (next.Continue? ==> next.pc.Creates())
  {
    SplitNames(cfg, volume);
    FilledNotEmpty(cfg, pc);
  }

  lemma SplitNames(cfg: Config, volume: string)
    ensures SplitName(volume) == OwnName(volume) && LookupName(cfg, volume) == SoughtName(cfg, volume)
  {}

  lemma FilledNotEmpty(cfg: Config, pc: Pc)
    ensures pc.PutSplit? ==> Filled(cfg.claimNamePrefix, pc.spec).splits != []
  {
    if pc.PutSplit? {
      var claims := ClaimsOf(cfg.claimNamePrefix, pc.spec.volumeName, pc.spec.capacityTotal);
      assert |Filled(cfg.claimNamePrefix, pc.spec).splits| == |pc.spec.splits| + |claims| && |claims| == 2;
    }
  }

  // ---------- Deletions ----------

  lemma DeleteEndsIff(cfg: Config, st: Stores, volume: string, pc: Pc, reply: Reply, cached: bool)
    requires Wellformed(pc) && !pc.Creates()
    ensures var next := Progress(cfg, st, volume, pc, reply, cached).1;
      && (next == Return(Nil) <==> pc.DropSplit? && reply == Served && OwnName(volume) in st.splits)
      && (next == Return(ErrVolumeNotFound) <==>
            (pc.GetForDelete? || pc.DropSplit?) && reply == Served && OwnName(volume) !in st.splits)
      && (next == Return(ErrApi) <==> reply != Served)
      && (next.Return? ==> next.err == Nil || next.err == ErrVolumeNotFound || next.err == ErrApi)
  {
    SplitNames(cfg, volume);
  }

  /** The claims in order, and only then the split. */
  lemma DeleteGoesOnIff(cfg: Config, st: Stores, volume: string, pc: Pc, reply: Reply, cached: bool)
    requires Wellformed(pc) && !pc.Creates()
    ensures var next := Progress(cfg, st, volume, pc, reply, cached).1;
      next.Continue? ==>
        && reply == Served && (pc.GetForDelete? || pc.DropClaim?)
        && (pc.GetForDelete? ==> OwnName(volume) in st.splits)
        && var split, i := if pc.DropClaim? then pc.split else st.splits[OwnName(volume)],
             if pc.DropClaim? then pc.index + 1 else 0;
        next.pc == if i < |split.splits| then DropClaim(split, i) else DropSplit(split)
  {
    SplitNames(cfg, volume);
  }

  // ---------- Writes ----------

  /** An access writes to the stores only the split it puts or drops, and the claim it puts or drops: whether or not
      the answer to it is lost, but not when it is refused, and never over something already there. */
  lemma WritesIff(cfg: Config, st: Stores, volume: string, pc: Pc, reply: Reply, cached: bool)
    requires Wellformed(pc)
    ensures var st' := Progress(cfg, st, volume, pc, reply, cached).0;
      && st'.splits == (
           if pc.PutSplit? && reply != Refused && OwnName(volume) !in st.splits
           then st.splits[OwnName(volume) := Filled(cfg.claimNamePrefix, pc.spec)]
           else if pc.DropSplit? && reply != Refused then st.splits - {OwnName(volume)}
           else st.splits)
      && st'.claims == (
           if pc.PutClaim? && reply != Refused && Key(pc) !in st.claims
           then st.claims[Key(pc) := Claim(pc.split.accessModes, pc.split.splits[pc.index].request,
             pc.split.storageClassName)]
           else if pc.DropClaim? && reply != Refused then st.claims - {Key(pc)}
           else st.claims)
  {
    SplitNames(cfg, volume);
  }
}
