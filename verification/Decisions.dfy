/** The validation loop of SubmitAttestationAsync: one valid decision per subject. */
module Decisions {
  import opened Common

  type Sam = string

  datatype Input = Input(subject: Sam, verdict: string)

  datatype Fault = BadVerdict | UnknownSubject | DuplicateDecision | MissingDecision

  function Upper(upper: char -> char, a: Sam): Sam {
    seq(|a|, i requires 0 <= i < |a| => upper(a[i]))
  }

  /** The identity gate: same account up to case, and neither side empty. */
  predicate SamEquals(upper: char -> char, a: Sam, b: Sam) {
    a != "" && b != "" && Upper(upper, a) == Upper(upper, b)
  }

  predicate ValidVerdict(v: string) {
    v == "keep" || v == "revoke"
  }

  /** What is wrong with the k-th decision, checked in the order the service checks it. */
  function FaultAt(ds: seq<Input>, subjects: seq<Sam>, k: nat): Option<Fault>
    requires k < |ds|
  {
    if !ValidVerdict(ds[k].verdict) then Some(BadVerdict)
    else if ds[k].subject !in subjects then Some(UnknownSubject)
    else if exists j | 0 <= j < k :: ds[j].subject == ds[k].subject then Some(DuplicateDecision)
    else None
  }

  /** Every subject is decided exactly once, and nobody else is decided. */
  ghost predicate Complete(ds: seq<Input>, subjects: seq<Sam>) {
    && (forall k | 0 <= k < |ds| :: ValidVerdict(ds[k].verdict) && ds[k].subject in subjects)
    && (forall s | s in subjects :: Decided(ds, s))
    && (forall i, j | 0 <= i < j < |ds| :: ds[i].subject != ds[j].subject)
  }

  ghost predicate Decided(ds: seq<Input>, s: Sam) {
    exists k | 0 <= k < |ds| :: ds[k].subject == s
  }

  /** The fault reported is the first one met, or a missing decision when there is no other. */
  ghost predicate Reported(ds: seq<Input>, subjects: seq<Sam>, fault: Fault) {
    if fault == MissingDecision then
      && (forall k | 0 <= k < |ds| :: FaultAt(ds, subjects, k) == None)
      && (exists s :: s in subjects && !Decided(ds, s))
    else
      exists k :: 0 <= k < |ds| && FirstFault(ds, subjects, k, fault)
  }

  ghost predicate FirstFault(ds: seq<Input>, subjects: seq<Sam>, k: nat, fault: Fault)
    requires k < |ds|
  {
    FaultAt(ds, subjects, k) == Some(fault) && forall j | 0 <= j < k :: FaultAt(ds, subjects, j) == None
  }

  /** None means accepted. The list of subjects comes from a table keyed by (packet, subject). */
  method Validate(ds: seq<Input>, subjects: seq<Sam>) returns (fault: Option<Fault>)
    requires NoDup(subjects)
    ensures fault == None <==> Complete(ds, subjects)
    ensures fault.Some? ==> Reported(ds, subjects, fault.value)
  {
    var seen: set<Sam> := {};
    for i := 0 to |ds|
      invariant seen <= Elements(subjects)
      invariant forall k | 0 <= k < i :: ds[k].subject in seen
      invariant forall s | s in seen :: exists k :: 0 <= k < i && ds[k].subject == s
      invariant forall k | 0 <= k < i :: FaultAt(ds, subjects, k) == None
    {
      if !ValidVerdict(ds[i].verdict) {
        assert FirstFault(ds, subjects, i, BadVerdict);
        return Some(BadVerdict);
      }
      if ds[i].subject !in subjects {
        assert FirstFault(ds, subjects, i, UnknownSubject);
        return Some(UnknownSubject);
      }
      if ds[i].subject in seen {
        assert FirstFault(ds, subjects, i, DuplicateDecision);
        return Some(DuplicateDecision);
      }
      seen := seen + {ds[i].subject};
    }
    NoDupCardinality(subjects);
    if |seen| != |subjects| {
      SubsetCardinality(seen, Elements(subjects));
      SmallerMisses(seen, Elements(subjects));
      return Some(MissingDecision);
    }
    FullSubset(seen, Elements(subjects));
    forall s | s in subjects
      ensures Decided(ds, s)
    {
      assert s in Elements(subjects);
    }
    forall i, j | 0 <= i < j < |ds|
      ensures ds[i].subject != ds[j].subject
    {
      assert FaultAt(ds, subjects, j) == None;
    }
    forall k | 0 <= k < |ds|
      ensures ValidVerdict(ds[k].verdict) && ds[k].subject in subjects
    {
      assert FaultAt(ds, subjects, k) == None;
    }
    return None;
  }
}
