/** The specification of a volume split: how it is filled with claims, and when a repeated
    request is compatible with it. */
module SplitSpecs {
  import opened Options
  import opened Names

  datatype AccessMode = ReadWriteOnce | ReadOnlyMany | ReadWriteMany

  datatype CsiAccessMode =
    | SingleNodeWriter
    | SingleNodeSingleWriter
    | SingleNodeMultiWriter
    | SingleNodeReaderOnly
    | MultiNodeReaderOnly
    | MultiNodeSingleWriter
    | MultiNodeMultiWriter
    | UnknownMode

  datatype ClaimSplit = ClaimSplit(claimName: string, request: int)

  datatype SplitSpec = SplitSpec(
    volumeName: string,
    capacityTotal: int,
    accessModes: seq<AccessMode>,
    namespace: string,
    storageClassName: Option<string>,
    splits: seq<ClaimSplit>)

  /** What the client hands back when a read failed. */
  const EMPTY_SPEC := SplitSpec("", 0, [], "", None, [])

  const INT64_MAX: int := 0x7fff_ffff_ffff_ffff

  // ---------- Access modes ----------

  function CsiToK8s(mode: CsiAccessMode): Option<AccessMode> {
    match mode
    case SingleNodeWriter => Some(ReadWriteOnce)
    case SingleNodeSingleWriter => Some(ReadWriteOnce)
    case SingleNodeMultiWriter => Some(ReadWriteOnce)
    case SingleNodeReaderOnly => Some(ReadOnlyMany)
    case MultiNodeReaderOnly => Some(ReadOnlyMany)
    case MultiNodeSingleWriter => None
    case MultiNodeMultiWriter => Some(ReadWriteMany)
    case UnknownMode => None
  }

  /** None if any mode is unsupported, otherwise the translated modes in order. */
  method GetAccessModes(modes: seq<CsiAccessMode>) returns (r: Option<seq<AccessMode>>)
    ensures r.None? <==> exists i | 0 <= i < |modes| :: CsiToK8s(modes[i]).None?
    ensures r.Some? ==> |r.value| == |modes| && forall i | 0 <= i < |modes| :: CsiToK8s(modes[i]) == Some(r.value[i])
    ensures r.None? <==> exists i | 0 <= i < |modes| :: modes[i] == MultiNodeSingleWriter || modes[i] == UnknownMode
    ensures r.Some? ==> forall i | 0 <= i < |modes| ::
      && (r.value[i] == ReadWriteMany <==> modes[i] == MultiNodeMultiWriter)
      && (r.value[i] == ReadOnlyMany <==> modes[i] == SingleNodeReaderOnly || modes[i] == MultiNodeReaderOnly)
  {
    var accessModes: seq<AccessMode> := [];
    for i := 0 to |modes|
      invariant |accessModes| == i
      invariant forall j | 0 <= j < i :: CsiToK8s(modes[j]) == Some(accessModes[j])
    {
      var mode := CsiToK8s(modes[i]);
      if mode.None? {
        return None;
      }
      accessModes := accessModes + [mode.value];
    }
    return Some(accessModes);
  }

  // ---------- Splitting the capacity ----------

  /** Go's division truncates towards zero. */
  function TruncatedHalf(v: int): int {
    if v >= 0 then v / 2 else -(-v / 2)
  }

  function SplitQuantity(v: int): seq<int> {
    [TruncatedHalf(v), TruncatedHalf(v)]
  }

  /** The claims a split of this volume and capacity lists. */
  function ClaimsOf(prefix: string, volumeName: string, total: int): seq<ClaimSplit> {
    seq(|SplitQuantity(total)|, i requires 0 <= i < |SplitQuantity(total)| =>
      ClaimSplit(ClaimName(prefix, volumeName, i), SplitQuantity(total)[i]))
  }

  function Filled(prefix: string, spec: SplitSpec): SplitSpec {
    spec.(splits := spec.splits + ClaimsOf(prefix, spec.volumeName, spec.capacityTotal))
  }

  lemma FilledSplits(prefix: string, spec: SplitSpec)
    requires spec.splits == []
    ensures Filled(prefix, spec).splits == ClaimsOf(prefix, spec.volumeName, spec.capacityTotal)
    ensures |ClaimsOf(prefix, spec.volumeName, spec.capacityTotal)| == 2
  {
    assert [] + ClaimsOf(prefix, spec.volumeName, spec.capacityTotal) == ClaimsOf(prefix, spec.volumeName,
      spec.capacityTotal);
  }

  function TotalRequest(claims: seq<ClaimSplit>): int {
    if claims == [] then 0 else TotalRequest(claims[..|claims| - 1]) + claims[|claims| - 1].request
  }

  /** A split lists two claims of equal size, half the capacity each. */
  lemma TwoEqualClaims(prefix: string, volumeName: string, total: int)
    ensures var claims := ClaimsOf(prefix, volumeName, total);
      && |claims| == 2 && claims[0].request == claims[1].request
      && claims[0].request == (if total >= 0 then total / 2 else -(-total / 2))
      && claims[0].claimName == (if prefix == "" then "" else prefix + "-") + volumeName + "-lower0"
      && claims[1].claimName == (if prefix == "" then "" else prefix + "-") + volumeName + "-lower1"
  {}

  /** Nothing but a lost odd byte: the requests add up to total or total - 1, each fits an
      int64, and so does every partial sum. */
  lemma RequestsSumToTotal(prefix: string, volumeName: string, total: int)
    requires 0 <= total <= INT64_MAX
    ensures var claims := ClaimsOf(prefix, volumeName, total);
      && total - 1 <= TotalRequest(claims) <= total
      && (forall i | 0 <= i < |claims| :: 0 <= claims[i].request <= INT64_MAX)
      && forall n | 0 <= n <= |claims| :: 0 <= TotalRequest(claims[..n]) <= INT64_MAX
  {
    var claims := ClaimsOf(prefix, volumeName, total);
    assert |claims| == 2 && claims[..2] == claims;
    assert claims[..1][..0] == [] && claims[..2][..1] == claims[..1] && claims[..0] == [];
    assert TotalRequest(claims[..1]) == total / 2;
    assert TotalRequest(claims[..2]) == total / 2 + total / 2;
  }

  lemma ListedNamesDiffer(prefix: string, volumeName: string, total: int, i: nat, j: nat)
    requires i < j < |ClaimsOf(prefix, volumeName, total)|
    ensures ClaimsOf(prefix, volumeName, total)[i].claimName != ClaimsOf(prefix, volumeName, total)[j].claimName
  {
    if ClaimName(prefix, volumeName, i) == ClaimName(prefix, volumeName, j) {
      ClaimNameIsInjective(prefix, volumeName, i, volumeName, j);
    }
  }

  /** The object that doCreateSplit submits: its loop appends one claim per part. */
  method BuildSplit(prefix: string, splitSpec: SplitSpec) returns (split: SplitSpec)
    ensures split == Filled(prefix, splitSpec)
  {
    split := splitSpec;
    var parts := SplitQuantity(split.capacityTotal);
    for i := 0 to |parts|
      invariant split == splitSpec.(splits := splitSpec.splits + ClaimsOf(prefix, splitSpec.volumeName,
        splitSpec.capacityTotal)[..i])
    {
      var claimName := ClaimName(prefix, split.volumeName, i);
      split := split.(splits := split.splits + [ClaimSplit(claimName, parts[i])]);
      assert split.splits == splitSpec.splits + ClaimsOf(prefix, splitSpec.volumeName,
        splitSpec.capacityTotal)[..i + 1];
    }
    assert ClaimsOf(prefix, splitSpec.volumeName, splitSpec.capacityTotal)[..|parts|] == ClaimsOf(prefix,
      splitSpec.volumeName, splitSpec.capacityTotal);
  }

  // ---------- Compatibility ----------

  /** A request the split already satisfies. */
  predicate Compatible(oldSpec: SplitSpec, newSpec: SplitSpec) {
    && oldSpec.namespace == newSpec.namespace
    && oldSpec.storageClassName == newSpec.storageClassName
    && newSpec.capacityTotal <= oldSpec.capacityTotal
    && forall mode | mode in newSpec.accessModes :: mode in oldSpec.accessModes
  }

  method IsSplitSpecCompatible(oldSpec: Option<SplitSpec>, newSpec: Option<SplitSpec>) returns (ok: bool)
    ensures ok <==> oldSpec.Some? && newSpec.Some? && Compatible(oldSpec.value, newSpec.value)
    ensures ok <==>
      && oldSpec.Some? && newSpec.Some?
      && newSpec.value.namespace == oldSpec.value.namespace
      && newSpec.value.storageClassName == oldSpec.value.storageClassName
      && newSpec.value.capacityTotal <= oldSpec.value.capacityTotal
      && forall mode | mode in newSpec.value.accessModes :: mode in oldSpec.value.accessModes
  {
    if oldSpec.None? || newSpec.None? {
      return false;
    }
    var o, n := oldSpec.value, newSpec.value;
    if o.namespace != n.namespace {
      return false;
    }
    if o.storageClassName.None? && n.storageClassName.None? {
    } else if o.storageClassName.Some? && n.storageClassName.Some? {
      if o.storageClassName.value != n.storageClassName.value {
        return false;
      }
    } else {
      return false;
    }
    if n.capacityTotal > o.capacityTotal {
      return false;
    }
    ok := IsAccessModesCompatible(o.accessModes, n.accessModes);
  }

  method IsAccessModesCompatible(oldModes: seq<AccessMode>, newModes: seq<AccessMode>) returns (ok: bool)
    ensures ok <==> forall mode | mode in newModes :: mode in oldModes
  {
    var m: map<AccessMode, bool> := map[];
    for i := 0 to |oldModes|
      invariant forall mode :: mode in m <==> mode in oldModes[..i]
      invariant forall mode | mode in m :: m[mode]
    {
      m := m[oldModes[i] := true];
    }
    assert oldModes[..|oldModes|] == oldModes;
    for i := 0 to |newModes|
      invariant forall mode | mode in newModes[..i] :: mode in oldModes
    {
      if newModes[i] !in m || !m[newModes[i]] {
        assert newModes[i] in newModes;
        return false;
      }
    }
    return true;
  }

  /** Compatibility is a preorder. */
  lemma CompatibleIsPreorder(a: SplitSpec, b: SplitSpec, c: SplitSpec)
    ensures Compatible(a, a)
    ensures Compatible(a, b) && Compatible(b, c) ==> Compatible(a, c)
  {}

  /** Specs that accept each other differ at most in volume name, order and repetition of
      modes, and claims. */
  lemma CompatibleBothWays(a: SplitSpec, b: SplitSpec)
    ensures Compatible(a, b) && Compatible(b, a) <==>
      && a.namespace == b.namespace && a.storageClassName == b.storageClassName
      && a.capacityTotal == b.capacityTotal
      && (set m | m in a.accessModes) == (set m | m in b.accessModes)
  {
    var x, y := set m | m in a.accessModes, set m | m in b.accessModes;
    if x == y {
      forall m | m in a.accessModes ensures m in b.accessModes { assert m in x; }
      forall m | m in b.accessModes ensures m in a.accessModes { assert m in y; }
    }
  }
}
