/** The StorageClass parameters of CreateVolume: a Go map, met in any order. */
module Parameters {
  import opened Options

  type Entry = (string, string)

  const LOWER_NAMESPACE := "lowernamespace"
  const LOWER_STORAGE_CLASS_NAME := "lowerstorageclassname"
  const PVC_NAME := "csi.storage.k8s.io/pvc/name"
  const PVC_NAMESPACE := "csi.storage.k8s.io/pvc/namespace"
  const PV_NAME := "csi.storage.k8s.io/pv/name"

  const DEFAULT_CAPACITY_BYTES: int := 1024

  /** The part of the options that parameters set. */
  datatype Settings = Settings(namespace: string, storageClassName: Option<string>)

  function LowerChar(c: char): char {
    if 'A' <= c <= 'Z' then (c as int + 32) as char else c
  }

  function ToLower(s: string): (t: string)
    ensures |t| == |s| && forall i | 0 <= i < |s| :: t[i] == LowerChar(s[i])
  {
    seq(|s|, i requires 0 <= i < |s| => LowerChar(s[i]))
  }

  const UPPER := "ABCDEFGHIJKLMNOPQRSTUVWXYZ"
  const LOWER := "abcdefghijklmnopqrstuvwxyz"

  /** Letters become small, all else stays; so a key is known in whatever case it is written. */
  lemma LowersLetters(s: string)
    ensures ToLower(UPPER) == LOWER && ToLower(LOWER) == LOWER
    ensures forall i | 0 <= i < |s| && s[i] !in UPPER :: ToLower(s)[i] == s[i]
    ensures ToLower(ToLower(s)) == ToLower(s)
  {
    assert ToLower(UPPER) == LOWER && ToLower(LOWER) == LOWER;
    forall i | 0 <= i < |s| && s[i] !in UPPER ensures ToLower(s)[i] == s[i] {
      if 'A' <= s[i] <= 'Z' {
        assert UPPER[s[i] as int - 'A' as int] == s[i];
      }
    }
    assert ToLower(ToLower(s)) == ToLower(s);
  }

  /** Taking one entry into account; None is an error. */
  function Set(o: Settings, e: Entry): Option<Settings> {
    var key := ToLower(e.0);
    if key == LOWER_NAMESPACE then Some(o.(namespace := e.1))
    else if key == LOWER_STORAGE_CLASS_NAME then
      if e.1 == "" then None else Some(o.(storageClassName := Some(e.1)))
    else if key == PVC_NAME || key == PVC_NAMESPACE || key == PV_NAME then Some(o)
    else None
  }

  /** Taking the entries into account in this order. */
  function Parse(params: seq<Entry>, o: Settings): Option<Settings> {
    if params == [] then Some(o)
    else
      match Parse(params[..|params| - 1], o)
      case None => None
      case Some(o') => Set(o', params[|params| - 1])
  }

  class LowerOptions {
    var lowerNamespace: string
    var lowerStorageClassName: Option<string>

    constructor (lowerNamespace: string)
      ensures Value() == Settings(lowerNamespace, None)
    {
      this.lowerNamespace, lowerStorageClassName := lowerNamespace, None;
    }

    function Value(): Settings
      reads this
    {
      Settings(lowerNamespace, lowerStorageClassName)
    }

    /** Fills the options; on an error it has already taken the entries before the offending one. */
    method ParseParameters(params: seq<Entry>) returns (ok: bool)
      modifies this
      ensures ok <==> Parse(params, old(Value())).Some?
      ensures ok ==> Some(Value()) == Parse(params, old(Value()))
    {
      for i := 0 to |params|
        invariant Parse(params[..i], old(Value())) == Some(Value())
      {
        var k, v := params[i].0, params[i].1;
        var key := ToLower(k);
        assert params[..i + 1][..i] == params[..i];
        if key == LOWER_NAMESPACE {
          lowerNamespace := v;
        } else if key == LOWER_STORAGE_CLASS_NAME {
          if v == "" {
            ErrorStays(params, i + 1, old(Value()));
            return false;
          }
          lowerStorageClassName := Some(v);
        } else if key == PVC_NAME || key == PVC_NAMESPACE || key == PV_NAME {
        } else {
          ErrorStays(params, i + 1, old(Value()));
          return false;
        }
      }
      assert params[..|params|] == params;
      return true;
    }
  }

  lemma {:induction false} ErrorStays(params: seq<Entry>, n: nat, o: Settings)
    requires n <= |params| && Parse(params[..n], o).None?
    ensures Parse(params, o).None?
    decreases |params|
  {
    if n == |params| {
      assert params[..n] == params;
    } else {
      var most := params[..|params| - 1];
      assert most[..n] == params[..n];
      ErrorStays(most, n, o);
    }
  }

  // ---------- The order of the entries ----------

  /** A key the driver knows, in any case, and a value it takes. */
  predicate Accepted(e: Entry) {
    var key := ToLower(e.0);
    || key == "lowernamespace"
    || (key == "lowerstorageclassname" && e.1 != "")
    || key == "csi.storage.k8s.io/pvc/name" || key == "csi.storage.k8s.io/pvc/namespace"
    || key == "csi.storage.k8s.io/pv/name"
  }

  lemma SetAccepts(o: Settings, e: Entry)
    ensures Set(o, e).Some? <==> Accepted(e)
  {
    assert |LOWER_STORAGE_CLASS_NAME| != |PVC_NAME| && |LOWER_STORAGE_CLASS_NAME| != |PVC_NAMESPACE|
      && |LOWER_STORAGE_CLASS_NAME| != |PV_NAME|;
  }

  lemma {:induction false} ParsesIffAllAccepted(params: seq<Entry>, o: Settings)
    ensures Parse(params, o).Some? <==> forall e | e in params :: Accepted(e)
    decreases |params|
  {
    if params != [] {
      var most, last := params[..|params| - 1], params[|params| - 1];
      ParsesIffAllAccepted(most, o);
      assert params == most + [last];
      assert forall e :: e in params <==> e in most || e == last;
      if Parse(most, o).Some? {
        SetAccepts(Parse(most, o).value, last);
      }
    }
  }

  lemma SameEntries(p: seq<Entry>, q: seq<Entry>)
    requires multiset(p) == multiset(q)
    ensures forall e :: e in p <==> e in q
  {
    forall e ensures e in p <==> e in q {
      assert e in multiset(p) <==> e in multiset(q);
    }
  }

  /** The map is rejected in one order exactly when it is rejected in all. */
  lemma RejectionIgnoresOrder(p: seq<Entry>, q: seq<Entry>, o: Settings)
    requires multiset(p) == multiset(q)
    ensures Parse(p, o).None? <==> Parse(q, o).None?
  {
    ParsesIffAllAccepted(p, o);
    ParsesIffAllAccepted(q, o);
    SameEntries(p, q);
  }

  /** Keys whose value is kept. */
  predicate IsSetting(key: string) {
    key == "lowernamespace" || key == "lowerstorageclassname"
  }

  predicate Conflict(a: Entry, b: Entry) {
    ToLower(a.0) == ToLower(b.0) && IsSetting(ToLower(a.0)) && a.1 != b.1
  }

  /** No two entries set the same option, under different spellings of its key, to different values. */
  predicate NoConflicts(p: seq<Entry>) {
    forall a, b | a in p && b in p :: !Conflict(a, b)
  }

  /** The settings are the values that the entries with their keys agree on, or else what they were. */
  ghost predicate Holds(p: seq<Entry>, o: Settings, r: Settings) {
    && (forall e | e in p && ToLower(e.0) == "lowernamespace" :: r.namespace == e.1)
    && ((forall e | e in p :: ToLower(e.0) != "lowernamespace") ==> r.namespace == o.namespace)
    && (forall e | e in p && ToLower(e.0) == "lowerstorageclassname" :: r.storageClassName == Some(e.1))
    && ((forall e | e in p :: ToLower(e.0) != "lowerstorageclassname") ==> r.storageClassName == o.storageClassName)
  }

  lemma {:induction false} ParseHolds(p: seq<Entry>, o: Settings)
    requires NoConflicts(p) && Parse(p, o).Some?
    ensures Holds(p, o, Parse(p, o).value)
    decreases |p|
  {
    if p != [] {
      var most, last := p[..|p| - 1], p[|p| - 1];
      assert p == most + [last];
      assert NoConflicts(most) by {
        forall a, b | a in most && b in most ensures !Conflict(a, b) {
          assert a in p && b in p;
        }
      }
      ParseHolds(most, o);
      forall e | e in most ensures !Conflict(e, last) {
        assert e in p && last in p;
      }
    }
  }

  lemma HoldsIsUnique(p: seq<Entry>, q: seq<Entry>, o: Settings, r: Settings, r': Settings)
    requires Holds(p, o, r) && Holds(q, o, r') && forall e :: e in p <==> e in q
    ensures r == r'
  {
    if e :| e in p && ToLower(e.0) == LOWER_NAMESPACE {
      assert e in q;
    }
    if e :| e in p && ToLower(e.0) == LOWER_STORAGE_CLASS_NAME {
      assert e in q;
    }
  }

  /** Moving entry i to the end makes its value the one that is kept. */
  lemma LastWins(p: seq<Entry>, i: nat, o: Settings)
    requires i < |p| && Parse(p, o).Some?
    ensures var q := p[..i] + p[i + 1..] + [p[i]];
      && multiset(q) == multiset(p) && Parse(q, o).Some?
      && (ToLower(p[i].0) == LOWER_NAMESPACE ==> Parse(q, o).value.namespace == p[i].1)
      && (ToLower(p[i].0) == LOWER_STORAGE_CLASS_NAME ==> Parse(q, o).value.storageClassName == Some(p[i].1))
  {
    var rest := p[..i] + p[i + 1..];
    var q := rest + [p[i]];
    assert p == p[..i] + [p[i]] + p[i + 1..];
    assert multiset(q) == multiset(p);
    RejectionIgnoresOrder(p, q, o);
    assert q[..|q| - 1] == rest && q[|q| - 1] == p[i];
  }

  lemma NoConflictsNoOrder(p: seq<Entry>, q: seq<Entry>, o: Settings)
    requires Parse(p, o).Some? && NoConflicts(p) && multiset(q) == multiset(p)
    ensures Parse(q, o) == Parse(p, o)
  {
    SameEntries(p, q);
    RejectionIgnoresOrder(p, q, o);
    assert NoConflicts(q);
    ParseHolds(p, o);
    ParseHolds(q, o);
    HoldsIsUnique(p, q, o, Parse(p, o).value, Parse(q, o).value);
  }

  lemma ConflictMatters(p: seq<Entry>, o: Settings) returns (q: seq<Entry>)
    requires Parse(p, o).Some? && !NoConflicts(p)
    ensures multiset(q) == multiset(p) && Parse(q, o) != Parse(p, o)
  {
    var a, b :| a in p && b in p && Conflict(a, b);
    var i :| 0 <= i < |p| && p[i] == a;
    var j :| 0 <= j < |p| && p[j] == b;
    LastWins(p, i, o);
    LastWins(p, j, o);
    var qa, qb := p[..i] + p[i + 1..] + [p[i]], p[..j] + p[j + 1..] + [p[j]];
    q := if Parse(qa, o) != Parse(p, o) then qa else qb;
  }

  /** An accepted map gives the same options in every order exactly if it has no conflicts; in
      particular if its keys are distinct when lowered. */
  lemma OrderIsIrrelevantIff(p: seq<Entry>, o: Settings)
    requires Parse(p, o).Some?
    ensures (forall q: seq<Entry> | multiset(q) == multiset(p) :: Parse(q, o) == Parse(p, o)) <==> NoConflicts(p)
  {
    if NoConflicts(p) {
      forall q: seq<Entry> | multiset(q) == multiset(p) ensures Parse(q, o) == Parse(p, o) {
        NoConflictsNoOrder(p, q, o);
      }
    } else {
      var q := ConflictMatters(p, o);
    }
  }

  lemma DistinctKeysDoNotConflict(p: seq<Entry>)
    requires forall i, j | 0 <= i < j < |p| :: ToLower(p[i].0) != ToLower(p[j].0)
    ensures NoConflicts(p)
  {
    forall a, b | a in p && b in p ensures !Conflict(a, b) {
      var i :| 0 <= i < |p| && p[i] == a;
      var j :| 0 <= j < |p| && p[j] == b;
    }
  }

  /** The capacity asked for, or 1024 bytes if there is no capacity range. */
  function GetCapacityBytes(requiredBytes: Option<int>): (bytes: int)
    ensures requiredBytes.None? ==> bytes == 1024
    ensures requiredBytes.Some? ==> requiredBytes == Some(bytes)
  {
    if requiredBytes.None? then DEFAULT_CAPACITY_BYTES else requiredBytes.value
  }
}
