/**
 Who is asked about whom. LaunchAsync turns the roster of an application into packet plans:
 one per line manager with a fallback to the business owner, or one per nominee.
 */
module Routing {
  import opened Common

  type Sam = string

  datatype Member = Member(sam: Sam, manager: Option<Sam>)

  datatype Mode = LineManager | Nominees

  datatype Kind = ManagerKind | NomineeKind

  /** `fallback` is the role note of a packet made for the business owner. */
  datatype Plan = Plan(recipient: Sam, kind: Kind, fallback: bool, subjects: seq<Member>)

  datatype Refusal = EmptyRoster | NoNominees | Unroutable(count: nat)

  predicate IsWhite(c: char) {
    || '\U{0009}' <= c <= '\U{000D}' || c == ' ' || c == '\U{0085}' || c == '\U{00A0}' || c == '\U{1680}'
    || '\U{2000}' <= c <= '\U{200A}' || c in {'\U{2028}', '\U{2029}', '\U{202F}', '\U{205F}', '\U{3000}'}
  }

  /** string.IsNullOrWhiteSpace */
  predicate Blank(s: Option<string>) {
    s == None || forall i | 0 <= i < |s.value| :: IsWhite(s.value[i])
  }

  // ----- specification -----

  /** The roster members with a given manager (None: without one), in roster order. */
  function With(roster: seq<Member>, manager: Option<Sam>): seq<Member> {
    if roster == [] then []
    else
      var init, last := With(roster[..|roster| - 1], manager), roster[|roster| - 1];
      if last.manager == manager then init + [last] else init
  }

  /** The managers of a roster, each once, in order of first appearance. */
  function Managers(roster: seq<Member>): seq<Sam> {
    if roster == [] then []
    else
      var init, last := Managers(roster[..|roster| - 1]), roster[|roster| - 1];
      if last.manager.Some? && last.manager.value !in init then init + [last.manager.value] else init
  }

  function ManagerPlan(roster: seq<Member>, owner: Option<Sam>, m: Sam): Plan {
    Plan(m, ManagerKind, false, With(roster, Some(m)) + if owner == Some(m) then With(roster, None) else [])
  }

  function LineManagerPlans(roster: seq<Member>, owner: Option<Sam>): Result<seq<Plan>, Refusal> {
    var managers, unrouted := Managers(roster), With(roster, None);
    var plans := seq(|managers|, i requires 0 <= i < |managers| => ManagerPlan(roster, owner, managers[i]));
    if unrouted == [] then Ok(plans)
    else if Blank(owner) then Err(Unroutable(|unrouted|))
    else if owner.value in managers then Ok(plans)
    else Ok(plans + [Plan(owner.value, ManagerKind, true, unrouted)])
  }

  function NomineePlans(roster: seq<Member>, nominees: seq<Sam>): Result<seq<Plan>, Refusal> {
    if nominees == [] then Err(NoNominees)
    else Ok(seq(|nominees|, i requires 0 <= i < |nominees| => Plan(nominees[i], NomineeKind, false, roster)))
  }

  function Plans(mode: Mode, roster: seq<Member>, nominees: seq<Sam>, owner: Option<Sam>): Result<seq<Plan>, Refusal> {
    if roster == [] then Err(EmptyRoster)
    else if mode == Nominees then NomineePlans(roster, nominees)
    else LineManagerPlans(roster, owner)
  }

  // ----- the code -----

  lemma WithSnoc(roster: seq<Member>, i: nat, m: Option<Sam>)
    requires i < |roster|
    ensures With(roster[..i + 1], m) == With(roster[..i], m) + if roster[i].manager == m then [roster[i]] else []
    ensures Managers(roster[..i + 1]) == Managers(roster[..i]) +
                                         if roster[i].manager.Some? && roster[i].manager.value !in Managers(roster[..i])
                                         then [roster[i].manager.value] else []
  {
    assert roster[..i + 1][..i] == roster[..i];
  }

  /** roster.Where(ManagerSam != null).GroupBy(ManagerSam), and the members left over. */
  method GroupByManager(roster: seq<Member>)
    returns (keys: seq<Sam>, groups: map<Sam, seq<Member>>, unrouted: seq<Member>)
    ensures keys == Managers(roster) && unrouted == With(roster, None)
    ensures forall m :: m in groups <==> m in keys
    ensures forall m | m in groups :: groups[m] == With(roster, Some(m))
  {
    keys, groups, unrouted := [], map[], [];
    for i := 0 to |roster|
      invariant keys == Managers(roster[..i]) && unrouted == With(roster[..i], None)
      invariant forall m :: m in groups <==> m in keys
      invariant forall m :: With(roster[..i], Some(m)) == if m in groups then groups[m] else []
    {
      forall m
        ensures With(roster[..i + 1], m) == With(roster[..i], m) + if roster[i].manager == m then [roster[i]] else []
      {
        WithSnoc(roster, i, m);
      }
      WithSnoc(roster, i, None);
      match roster[i].manager
      case None => unrouted := unrouted + [roster[i]];
      case Some(m) =>
        if m in groups {
          groups := groups[m := groups[m] + [roster[i]]];
        } else {
          keys, groups := keys + [m], groups[m := [roster[i]]];
        }
    }
    assert roster[..|roster|] == roster;
  }

  /** The values of a dictionary filled in the order `keys`. */
  method DictionaryValues(keys: seq<Sam>, plansBySam: map<Sam, Plan>) returns (plans: seq<Plan>)
    requires forall k | k in keys :: k in plansBySam
    ensures |plans| == |keys| && forall i | 0 <= i < |keys| :: plans[i] == plansBySam[keys[i]]
  {
    plans := [];
    for i := 0 to |keys|
      invariant |plans| == i && forall j | 0 <= j < i :: plans[j] == plansBySam[keys[j]]
    {
      plans := plans + [plansBySam[keys[i]]];
    }
  }

  /** The dictionary of plans keyed by recipient, and the merge of the fallback into it. */
  method RouteGroups(keys: seq<Sam>, groups: map<Sam, seq<Member>>, unrouted: seq<Member>, owner: Option<Sam>)
    returns (r: Result<seq<Plan>, Refusal>)
    requires NoDup(keys) && forall m :: m in groups <==> m in keys
    ensures r.Err? <==> unrouted != [] && Blank(owner)
    ensures r.Err? ==> r.error == Unroutable(|unrouted|)
    ensures r.Ok? ==>
              && |r.value| == |keys| + (if unrouted != [] && owner.value !in keys then 1 else 0)
              && (forall i | 0 <= i < |keys| ::
                    r.value[i] == Plan(keys[i], ManagerKind, false,
                                       groups[keys[i]] + if owner == Some(keys[i]) then unrouted else []))
              && (|r.value| > |keys| ==> r.value[|keys|] == Plan(owner.value, ManagerKind, true, unrouted))
  {
    var order: seq<Sam>, plansBySam: map<Sam, Plan> := [], map[];
    for i := 0 to |keys|
      invariant order == keys[..i] && forall m :: m in plansBySam <==> m in order
      invariant forall m | m in plansBySam :: plansBySam[m] == Plan(m, ManagerKind, false, groups[m])
    {
      order := order + [keys[i]];
      plansBySam := plansBySam[keys[i] := Plan(keys[i], ManagerKind, false, groups[keys[i]])];
    }
    if unrouted != [] {
      if Blank(owner) {
        return Err(Unroutable(|unrouted|));
      }
      var o := owner.value;
      if o in plansBySam {
        plansBySam := plansBySam[o := plansBySam[o].(subjects := plansBySam[o].subjects + unrouted)];
      } else {
        order := order + [o];
        plansBySam := plansBySam[o := Plan(o, ManagerKind, true, unrouted)];
      }
    }
    var plans := DictionaryValues(order, plansBySam);
    return Ok(plans);
  }

  method BuildLineManagerPlans(roster: seq<Member>, owner: Option<Sam>) returns (r: Result<seq<Plan>, Refusal>)
    ensures r == LineManagerPlans(roster, owner)
  {
    var keys, groups, unrouted := GroupByManager(roster);
    ManagersDistinct(roster);
    r := RouteGroups(keys, groups, unrouted, owner);
    if r.Ok? {
      assert r.value == LineManagerPlans(roster, owner).value;
    }
  }

  method BuildPlans(mode: Mode, roster: seq<Member>, nominees: seq<Sam>, owner: Option<Sam>)
    returns (r: Result<seq<Plan>, Refusal>)
    ensures r == Plans(mode, roster, nominees, owner)
  {
    if roster == [] {
      return Err(EmptyRoster);
    }
    if mode == LineManager {
      r := BuildLineManagerPlans(roster, owner);
      return;
    }
    if nominees == [] {
      return Err(NoNominees);
    }
    var plans := [];
    for i := 0 to |nominees|
      invariant plans == seq(i, j requires 0 <= j < i => Plan(nominees[j], NomineeKind, false, roster))
    {
      plans := plans + [Plan(nominees[i], NomineeKind, false, roster)];
    }
    return Ok(plans);
  }

  // ----- what the plans are -----

  lemma {:induction false} ManagersDistinct(roster: seq<Member>)
    ensures NoDup(Managers(roster))
    ensures forall m :: m in Managers(roster) <==> With(roster, Some(m)) != []
  {
    if roster != [] {
      ManagersDistinct(roster[..|roster| - 1]);
    }
  }

  lemma {:induction false} WithMembers(roster: seq<Member>, m: Option<Sam>, x: Member)
    ensures multiset(With(roster, m))[x] == if x.manager == m then multiset(roster)[x] else 0
  {
    if roster != [] {
      WithMembers(roster[..|roster| - 1], m, x);
      assert roster == roster[..|roster| - 1] + [roster[|roster| - 1]];
    }
  }

  /** Where a subject's packet goes in line_manager mode. */
  function Route(x: Member, owner: Option<Sam>): Option<Sam> {
    if x.manager.Some? then x.manager else owner
  }

  ghost predicate Holds(p: Plan, x: Member) {
    x in p.subjects
  }

  /** How often a member is asked about, over all plans. */
  ghost function Asked(plans: seq<Plan>, x: Member): nat {
    if plans == [] then 0
    else Asked(plans[..|plans| - 1], x) + multiset(plans[|plans| - 1].subjects)[x]
  }

  lemma {:induction false} AskedOnlyAt(plans: seq<Plan>, x: Member, k: nat)
    requires forall i | 0 <= i < |plans| && i != k :: x !in plans[i].subjects
    ensures Asked(plans, x) == if k < |plans| then multiset(plans[k].subjects)[x] else 0
  {
    if plans != [] {
      var n := |plans| - 1;
      AskedOnlyAt(plans[..n], x, k);
    }
  }

  /** The plan that is to hold a routed member. */
  lemma {:induction false} RoutedPlan(roster: seq<Member>, owner: Option<Sam>, plans: seq<Plan>, x: Member)
    returns (k: nat)
    requires LineManagerPlans(roster, owner) == Ok(plans) && x in roster
    ensures k < |plans| && Some(plans[k].recipient) == Route(x, owner)
    ensures multiset(plans[k].subjects)[x] == multiset(roster)[x]
  {
    ManagersDistinct(roster);
    WithMembers(roster, x.manager, x);
    WithMembers(roster, None, x);
    var ms := Managers(roster);
    var to := Route(x, owner);
    assert multiset(roster)[x] > 0;
    assert With(roster, x.manager) != [] by { assert x in multiset(With(roster, x.manager)); }
    if to.Some? && to.value in ms {
      k :| 0 <= k < |ms| && ms[k] == to.value;
      WithMembers(roster, Some(ms[k]), x);
    } else {
      k := |ms|;
    }
  }

  /** A plan holds only members routed to its recipient. */
  lemma HoldsOnlyRouted(roster: seq<Member>, owner: Option<Sam>, plans: seq<Plan>, i: nat, x: Member)
    requires LineManagerPlans(roster, owner) == Ok(plans) && i < |plans| && Holds(plans[i], x)
    ensures x in roster && Some(plans[i].recipient) == Route(x, owner)
  {
    var unrouted, mine := With(roster, None), With(roster, Some(plans[i].recipient));
    WithMembers(roster, None, x);
    WithMembers(roster, Some(plans[i].recipient), x);
    if i < |Managers(roster)| {
      assert x in multiset(mine) || (owner == Some(plans[i].recipient) && x in multiset(unrouted));
    } else {
      assert x in multiset(unrouted);
    }
  }

  lemma AskedAsOnRoster(roster: seq<Member>, owner: Option<Sam>, plans: seq<Plan>, x: Member)
    requires LineManagerPlans(roster, owner) == Ok(plans)
    requires forall i, j | 0 <= i < j < |plans| :: plans[i].recipient != plans[j].recipient
    ensures Asked(plans, x) == multiset(roster)[x]
  {
    forall i: nat | i < |plans| && Holds(plans[i], x)
      ensures x in roster && Some(plans[i].recipient) == Route(x, owner)
    {
      HoldsOnlyRouted(roster, owner, plans, i, x);
    }
    if x in roster {
      var k := RoutedPlan(roster, owner, plans, x);
      forall i | 0 <= i < |plans| && i != k
        ensures x !in plans[i].subjects
      {
        assert plans[i].recipient != plans[k].recipient;
        assert !Holds(plans[i], x);
      }
      AskedOnlyAt(plans, x, k);
    } else {
      forall i | 0 <= i < |plans|
        ensures x !in plans[i].subjects
      {
        assert Holds(plans[i], x) ==> x in roster;
      }
      AskedOnlyAt(plans, x, |plans|);
    }
  }

  lemma RecipientsDistinct(roster: seq<Member>, owner: Option<Sam>, plans: seq<Plan>)
    requires LineManagerPlans(roster, owner) == Ok(plans)
    ensures forall i, j | 0 <= i < j < |plans| :: plans[i].recipient != plans[j].recipient
    ensures forall i | 0 <= i < |plans| :: plans[i].subjects != [] && plans[i].kind == ManagerKind
  {
    ManagersDistinct(roster);
  }

  /**
   A line_manager launch partitions the roster: recipients are distinct, no packet is empty,
   every member is asked about as often as it is on the roster, and only where it is routed to.
   */
  lemma LineManagerPartition(roster: seq<Member>, owner: Option<Sam>, plans: seq<Plan>)
    requires LineManagerPlans(roster, owner) == Ok(plans)
    ensures forall i, j | 0 <= i < j < |plans| :: plans[i].recipient != plans[j].recipient
    ensures forall i | 0 <= i < |plans| :: plans[i].subjects != [] && plans[i].kind == ManagerKind
    ensures forall i: nat, x | i < |plans| && Holds(plans[i], x) ::
              x in roster && Some(plans[i].recipient) == Route(x, owner)
    ensures forall x :: Asked(plans, x) == multiset(roster)[x]
  {
    RecipientsDistinct(roster, owner, plans);
    forall x ensures Asked(plans, x) == multiset(roster)[x] {
      AskedAsOnRoster(roster, owner, plans, x);
    }
    forall i: nat, x | i < |plans| && Holds(plans[i], x)
      ensures x in roster && Some(plans[i].recipient) == Route(x, owner)
    {
      HoldsOnlyRouted(roster, owner, plans, i, x);
    }
  }

  /** In nominees mode every nominee is asked about the whole roster. */
  lemma NomineesGetTheRoster(roster: seq<Member>, nominees: seq<Sam>, owner: Option<Sam>, plans: seq<Plan>)
    requires Plans(Nominees, roster, nominees, owner) == Ok(plans)
    ensures |plans| == |nominees| > 0
    ensures forall i | 0 <= i < |plans| ::
              plans[i].recipient == nominees[i] && plans[i].subjects == roster && plans[i].kind == NomineeKind
  {
    assert plans == NomineePlans(roster, nominees).value;
  }

  /** A launch is refused exactly for an empty roster, missing nominees or an unroutable subject. */
  lemma RefusedExactly(mode: Mode, roster: seq<Member>, nominees: seq<Sam>, owner: Option<Sam>)
    ensures Plans(mode, roster, nominees, owner).Err? <==>
            || roster == []
            || (mode == Nominees && nominees == [])
            || (mode == LineManager && Blank(owner) && exists x :: x in roster && x.manager == None)
  {
    forall x | x in roster && x.manager == None
      ensures With(roster, None) != []
    {
      WithMembers(roster, None, x);
      assert x in multiset(With(roster, None));
    }
    if With(roster, None) != [] {
      var x := With(roster, None)[0];
      WithMembers(roster, None, x);
      assert x in multiset(With(roster, None)) && x in roster;
    }
  }
}
