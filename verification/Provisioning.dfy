/**
 CreateLower and DeleteLower for any number of volumes, at most one call in flight per
 volume, with a crash, an error or a lost response possible at every API access.

 A split is the write-ahead record of the claims of a volume.  `Go(v, reply)` performs the
 access the call for v is waiting to make, and everything it computes then.
 */
module Provisioning {
  import opened Options
  import opened Names
  import opened SplitSpecs

  /** How CreateSplit looks for an existing split: as the code does, suffixing a name that is
      already suffixed, or by the volume id as its documentation says. */
  datatype SplitLookup = SuffixedTwice | ByVolumeId

  /** `volumes` are the names of the volumes the driver is asked for. */
  datatype Config = Config(lookup: SplitLookup, claimNamePrefix: string, volumes: set<string>)

  datatype ClaimKey = ClaimKey(namespace: string, name: string)

  datatype Claim = Claim(accessModes: seq<AccessMode>, request: int, storageClassName: Option<string>)

  /** A claim is in the store until its Delete is accepted. */
  datatype Stores = Stores(splits: map<string, SplitSpec>, claims: map<ClaimKey, Claim>)

  datatype LowerOptions = LowerOptions(
    capacityBytes: int,
    accessModes: seq<AccessMode>,
    namespace: string,
    storageClassName: Option<string>)

  datatype Request = Create(options: LowerOptions) | Delete

  datatype Error =
    | Nil
    | ErrVolumeNotFound
    | ErrIdempotencyIncompatible
    | ErrEmptySplits
    | ErrClaimExists
    | ErrApi

  /** The access a call is about to make; LookClaim is a look at the claim cache. */
  datatype Pc =
    | GetFirst(spec: SplitSpec)
    | PutSplit(spec: SplitSpec)
    | GetAgain(spec: SplitSpec)
    | LookClaim(split: SplitSpec, index: nat)
    | PutClaim(split: SplitSpec, index: nat)
    | GetForDelete
    | DropClaim(split: SplitSpec, index: nat)
    | DropSplit(split: SplitSpec)
  {
    predicate MakesClaims() {
      LookClaim? || PutClaim?
    }

    predicate Creates() {
      GetFirst? || PutSplit? || GetAgain? || MakesClaims()
    }
  }

  datatype Next = Continue(pc: Pc) | Return(err: Error)

  /** Refused: an error and no effect.  Lost: the write takes effect, an error is returned. */
  datatype Reply = Served | Refused | Lost

  datatype Step =
    | Begin(volume: string, request: Request)
    | Go(volume: string, reply: Reply)
    | SyncClaims(index: nat)
    | Crash

  datatype Answer = Answer(volume: string, created: bool, err: Error)

  /** A look of the call for the volume at the claim cache, which then showed state `at`. */
  datatype Look = Look(volume: string, key: ClaimKey, at: nat)

  /**
   past     every state the claim store has been in, the present one last
   cacheAt  the one the claim cache shows; it only moves on
   looks    the looks that calls have taken at the cache
   */
  datatype State = State(
    stores: Stores,
    past: seq<map<ClaimKey, Claim>>,
    cacheAt: nat,
    looks: seq<Look>,
    calls: map<string, Pc>,
    answers: seq<Answer>)

  const INIT := State(Stores(map[], map[]), [map[]], 0, [], map[], [])

  function SpecOf(volume: string, options: LowerOptions): SplitSpec {
    SplitSpec(volume, options.capacityBytes, options.accessModes, options.namespace, options.storageClassName, [])
  }

  function LookupName(cfg: Config, volume: string): string {
    if cfg.lookup.SuffixedTwice? then SplitName(SplitName(volume)) else SplitName(volume)
  }

  function KeyOf(split: SplitSpec, i: nat): ClaimKey
    requires i < |split.splits|
  {
    ClaimKey(split.namespace, split.splits[i].claimName)
  }

  function ClaimFor(split: SplitSpec, i: nat): Claim
    requires i < |split.splits|
  {
    Claim(split.accessModes, split.splits[i].request, split.storageClassName)
  }

  // ---------- The stores ----------

  function WithSplit(st: Stores, name: string, split: SplitSpec): Stores {
    if name in st.splits then st else st.(splits := st.splits[name := split])
  }

  function WithoutSplit(st: Stores, name: string): Stores {
    st.(splits := st.splits - {name})
  }

  function WithClaim(st: Stores, key: ClaimKey, claim: Claim): Stores {
    if key in st.claims then st else st.(claims := st.claims[key := claim])
  }

  function WithoutClaim(st: Stores, key: ClaimKey): Stores {
    st.(claims := st.claims - {key})
  }

  // ---------- What a call decides ----------

  function CreateClaims(split: SplitSpec, index: nat): Next {
    if split.splits == [] then Return(ErrEmptySplits)
    else if index < |split.splits| then Continue(LookClaim(split, index))
    else Return(Nil)
  }

  function DropClaims(split: SplitSpec, index: nat): Next {
    if index < |split.splits| then Continue(DropClaim(split, index)) else Continue(DropSplit(split))
  }

  function CheckFound(found: SplitSpec, spec: SplitSpec): Next {
    if Compatible(found, spec) then CreateClaims(found, 0) else Return(ErrIdempotencyIncompatible)
  }

  // ---------- One access ----------

  predicate Wellformed(pc: Pc) {
    && (pc.MakesClaims() ==> pc.index < |pc.split.splits|)
    && (pc.DropClaim? ==> pc.index < |pc.split.splits|)
  }

  /** `cached`: the claim cache shows the claim a LookClaim asks for. */
  function Progress(cfg: Config, st: Stores, volume: string, pc: Pc, reply: Reply, cached: bool): (Stores, Next)
    requires Wellformed(pc)
  {
    match pc
    case GetFirst(spec) =>
      var name := LookupName(cfg, volume);
      if !reply.Served? then (st, CheckFound(EMPTY_SPEC, spec))
      else if name in st.splits then (st, CheckFound(st.splits[name], spec))
      else (st, Continue(PutSplit(spec)))
    case PutSplit(spec) =>
      var name, split := SplitName(volume), Filled(cfg.claimNamePrefix, spec);
      if reply.Refused? then (st, Return(ErrApi))
      else if reply.Lost? then (WithSplit(st, name, split), Return(ErrApi))
      else if name in st.splits then (st, Continue(GetAgain(spec)))
      else (WithSplit(st, name, split), CreateClaims(split, 0))
    case GetAgain(spec) =>
      var name := LookupName(cfg, volume);
      if !reply.Served? then (st, Return(ErrApi))
      else if name in st.splits then (st, CheckFound(st.splits[name], spec))
      else (st, Return(ErrVolumeNotFound))
    case LookClaim(split, i) =>
      (st, if cached then CreateClaims(split, i + 1) else Continue(PutClaim(split, i)))
    case PutClaim(split, i) =>
      var key := KeyOf(split, i);
      if reply.Refused? then (st, Return(ErrApi))
      else if reply.Lost? then (WithClaim(st, key, ClaimFor(split, i)), Return(ErrApi))
      else if key in st.claims then (st, Return(ErrClaimExists))
      else (WithClaim(st, key, ClaimFor(split, i)), CreateClaims(split, i + 1))
    case GetForDelete =>
      if !reply.Served? then (st, Return(ErrApi))
      else if SplitName(volume) !in st.splits then (st, Return(ErrVolumeNotFound))
      else (st, DropClaims(st.splits[SplitName(volume)], 0))
    case DropClaim(split, i) =>
      if reply.Refused? then (st, Return(ErrApi))
      else (WithoutClaim(st, KeyOf(split, i)), if reply.Lost? then Return(ErrApi) else DropClaims(split, i + 1))
    case DropSplit(split) =>
      if reply.Refused? then (st, Return(ErrApi))
      else if reply.Lost? then (WithoutSplit(st, SplitName(volume)), Return(ErrApi))
      else if SplitName(volume) !in st.splits then (st, Return(ErrVolumeNotFound))
      else (WithoutSplit(st, SplitName(volume)), Return(Nil))
  }

  // ---------- Steps and runs ----------

  function Start(volume: string, request: Request): Pc {
    match request
    case Create(options) => GetFirst(SpecOf(volume, options))
    case Delete => GetForDelete
  }

  /** The claim cache shows the claim the call is about to look for. */
  predicate FoundInCache(s: State, pc: Pc)
    requires Wellformed(pc)
  {
    pc.LookClaim? && s.cacheAt < |s.past| && KeyOf(pc.split, pc.index) in s.past[s.cacheAt]
  }

  function Looked(s: State, volume: string, pc: Pc): seq<Look>
    requires Wellformed(pc)
  {
    if pc.LookClaim? then s.looks + [Look(volume, KeyOf(pc.split, pc.index), s.cacheAt)] else s.looks
  }

  function Remembered(past: seq<map<ClaimKey, Claim>>, now: map<ClaimKey, Claim>): seq<map<ClaimKey, Claim>> {
    if |past| > 0 && past[|past| - 1] == now then past else past + [now]
  }

  function Apply(cfg: Config, s: State, step: Step): State {
    match step
    case Begin(v, request) =>
      if v in s.calls then s else s.(calls := s.calls[v := Start(v, request)])
    case Go(v, reply) =>
      if v !in s.calls || !Wellformed(s.calls[v]) then s
      else
        var pc := s.calls[v];
        var (st, next) := Progress(cfg, s.stores, v, pc, reply, FoundInCache(s, pc));
        var s1 := s.(stores := st, past := Remembered(s.past, st.claims), looks := Looked(s, v, pc));
        (match next
         case Continue(pc') => s1.(calls := s.calls[v := pc'])
         case Return(err) => s1.(calls := s.calls - {v}, answers := s.answers + [Answer(v, pc.Creates(), err)]))
    case SyncClaims(index) =>
      if s.cacheAt <= index < |s.past| then s.(cacheAt := index) else s
    case Crash => s.(calls := map[])
  }

  function Run(cfg: Config, s: State, steps: seq<Step>): State
    decreases |steps|
  {
    if steps == [] then s else Run(cfg, Apply(cfg, s, steps[0]), steps[1..])
  }

  lemma {:induction false} RunConcat(cfg: Config, s: State, a: seq<Step>, b: seq<Step>)
    ensures Run(cfg, s, a + b) == Run(cfg, Run(cfg, s, a), b)
    decreases |a|
  {
    if a == [] {
      assert a + b == b;
    } else {
      assert (a + b)[0] == a[0] && (a + b)[1..] == a[1..] + b;
      RunConcat(cfg, Apply(cfg, s, a[0]), a[1..], b);
    }
  }

  lemma RunSnoc(cfg: Config, s: State, steps: seq<Step>, step: Step)
    ensures Run(cfg, s, steps + [step]) == Apply(cfg, Run(cfg, s, steps), step)
  {
    RunConcat(cfg, s, steps, [step]);
    assert [step][1..] == [];
  }

  // ---------- The name premise ----------

  /** As written, the lookup key of volume v is the split of a volume called v-split. */
  ghost predicate NoPair(cfg: Config) {
    cfg.lookup.SuffixedTwice? ==> forall v | v in cfg.volumes :: SplitName(v) !in cfg.volumes
  }

  predicate NameOk(cfg: Config, volume: string) {
    volume in cfg.volumes
  }

  ghost predicate NamesOk(cfg: Config, steps: seq<Step>) {
    forall i | 0 <= i < |steps| :: steps[i].Begin? ==> NameOk(cfg, steps[i].volume)
  }

  lemma NamesOkTail(cfg: Config, steps: seq<Step>)
    requires NamesOk(cfg, steps) && steps != []
    ensures NamesOk(cfg, steps[1..]) && (steps[0].Begin? ==> NameOk(cfg, steps[0].volume))
  {
    assert forall i | 0 <= i < |steps[1..]| :: steps[1..][i] == steps[i + 1];
  }
}
