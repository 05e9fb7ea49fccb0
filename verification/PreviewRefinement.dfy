/** The browser's preview against the packets a launch makes, from one snapshot of the directory. */
module PreviewRefinement {
  import opened Common
  import opened Routing
  import opened Preview

  /** Synced directory data: members of each group, and the manager of each known account. */
  datatype Directory = Directory(members: map<Dn, set<Sam>>, manager: map<Sam, Option<Sam>>)

  function ManagerIn(ad: Directory, s: Sam): Option<Sam> {
    if s in ad.manager then ad.manager[s] else None
  }

  ghost predicate RowFrom(ad: Directory, r: MemberRow) {
    r.dn in ad.members && r.sam in ad.members[r.dn] && r.manager == ManagerIn(ad, r.sam)
  }

  /** The bindings embed what the directory says about their groups. */
  ghost predicate Embeds(ad: Directory, bs: seq<Binding>) {
    && (forall b, r | b in bs && r in RowsOf(b) :: RowFrom(ad, r))
    && (forall b | b in bs :: b.dn in ad.members && forall s | s in ad.members[b.dn] :: HasRow(RowsOf(b), s))
  }

  ghost predicate HasRow(rows: seq<MemberRow>, s: Sam) {
    exists r :: r in rows && r.sam == s
  }

  /** The sync stores a blank manager as NULL, so no account has an empty manager name. */
  ghost predicate NamedManagers(ad: Directory) {
    forall s :: ManagerIn(ad, s) != Some("")
  }

  // ----- the rebuilt arrays -----

  lemma {:induction false} MembersInRow(bs: seq<Binding>, r: MemberRow)
    ensures r in MembersIn(bs) <==> exists b :: b in bs && r in RowsOf(b)
  {
    if bs != [] {
      MembersInRow(bs[..|bs| - 1], r);
      assert bs == bs[..|bs| - 1] + [bs[|bs| - 1]];
    }
  }

  lemma {:induction false} FindAfterMembers(ad: Directory, users: seq<User>, rows: seq<MemberRow>, s: Sam)
    requires forall r | r in rows :: RowFrom(ad, r)
    ensures Find(AddMembers(users, rows), s) ==
            if HasRow(rows, s) then Some(User(s, Truthy(ManagerIn(ad, s)))) else Find(users, s)
  {
    if rows != [] {
      var init, last := rows[..|rows| - 1], rows[|rows| - 1];
      FindAfterMembers(ad, users, init, s);
      FindPut(AddMembers(users, init), User(last.sam, Truthy(last.manager)), s);
      assert RowFrom(ad, last);
      assert rows == init + [last];
      assert HasRow(rows, s) <==> HasRow(init, s) || last.sam == s;
    }
  }

  ghost predicate Manages(rows: seq<MemberRow>, s: Sam) {
    exists r :: r in rows && Truthy(r.manager) == Some(s)
  }

  lemma {:induction false} FindAfterManagers(users: seq<User>, rows: seq<MemberRow>, s: Sam)
    ensures Find(AddManagers(users, rows), s) ==
            if Find(users, s).Some? then Find(users, s) else if Manages(rows, s) then Some(User(s, None)) else None
  {
    if rows != [] {
      var init, last := rows[..|rows| - 1], rows[|rows| - 1];
      FindAfterManagers(users, init, s);
      if Truthy(last.manager).Some? {
        FindPut(AddManagers(users, init), User(Truthy(last.manager).value, None), s);
      }
      assert rows == init + [last];
      assert Manages(rows, s) <==> Manages(init, s) || Truthy(last.manager) == Some(s);
    }
  }

  lemma {:induction false} FindAfterOwners(users: seq<User>, owners: seq<Sam>, s: Sam)
    ensures Find(AddOwners(users, owners), s) ==
            if Find(users, s).Some? then Find(users, s) else if s in owners then Some(User(s, None)) else None
  {
    if owners != [] {
      var init := owners[..|owners| - 1];
      FindAfterOwners(users, init, s);
      FindPut(AddOwners(users, init), User(owners[|owners| - 1], None), s);
      assert owners == init + [owners[|owners| - 1]];
    }
  }

  /** After a rebuild of any users every member and every manager of a member is a known user. */
  lemma RebuiltUsers(ad: Directory, users: seq<User>, bs: seq<Binding>, s: Sam)
    requires Embeds(ad, bs)
    ensures HasRow(MembersIn(bs), s) ==> Find(Rebuilt(users, bs), s) == Some(User(s, Truthy(ManagerIn(ad, s))))
    ensures Manages(MembersIn(bs), s) ==> Find(Rebuilt(users, bs), s).Some?
  {
    var rows := MembersIn(bs);
    forall r | r in rows ensures RowFrom(ad, r) {
      MembersInRow(bs, r);
    }
    FindAfterMembers(ad, users, rows, s);
    FindAfterManagers(AddMembers(users, rows), rows, s);
    FindAfterOwners(AddManagers(AddMembers(users, rows), rows), OwnersIn(bs), s);
  }

  lemma {:induction false} FindHasSam(users: seq<User>, s: Sam)
    ensures Find(users, s).Some? ==> Find(users, s).value.sam == s && Find(users, s).value in users
  {
    if users != [] {
      FindHasSam(users[1..], s);
    }
  }

  /** A member of the rebuilt arrays is grouped under its manager in the directory. */
  lemma ManagerAfterRebuild(ad: Directory, users: seq<User>, bs: seq<Binding>, s: Sam)
    requires Embeds(ad, bs) && HasRow(MembersIn(bs), s)
    ensures var m := ManagerOf(Rebuilt(users, bs), s);
            if Truthy(ManagerIn(ad, s)).Some? then m.Some? && m.value.sam == ManagerIn(ad, s).value else m.None?
  {
    RebuiltUsers(ad, users, bs, s);
    var m := Truthy(ManagerIn(ad, s));
    if m.Some? {
      var r :| r in MembersIn(bs) && r.sam == s;
      MembersInRow(bs, r);
      var b :| b in bs && r in RowsOf(b);
      assert RowFrom(ad, r);
      assert Manages(MembersIn(bs), m.value);
      RebuiltUsers(ad, users, bs, m.value);
      FindHasSam(Rebuilt(users, bs), m.value);
    }
  }

  // ----- the roster -----

  lemma {:induction false} MembersOfGroup(users: seq<User>, ms: seq<Membership>, dn: Dn, u: User)
    ensures u in MembersOf(users, ms, dn) <==>
            Membership(dn, u.sam) in ms && Find(users, u.sam) == Some(u)
  {
    if ms != [] {
      MembersOfGroup(users, ms[1..], dn, u);
      FindHasSam(users, ms[0].sam);
      assert ms == [ms[0]] + ms[1..];
    }
  }

  ghost predicate DistinctSams(us: seq<User>) {
    forall i, j | 0 <= i < j < |us| :: us[i].sam != us[j].sam
  }

  lemma {:induction false} JoinUsers(roster: seq<User>, more: seq<User>)
    requires DistinctSams(roster)
    ensures DistinctSams(Join(roster, more))
    ensures Sams(Join(roster, more)) == Sams(roster) + Sams(more)
    ensures forall u | u in Join(roster, more) :: u in roster || u in more
  {
    if more != [] {
      var init, last := more[..|more| - 1], more[|more| - 1];
      JoinUsers(roster, init);
      assert more == init + [last];
      assert Sams(more) == Sams(init) + {last.sam};
      var before := Join(roster, init);
      assert last.sam in Sams(before) || Sams(before + [last]) == Sams(before) + {last.sam};
    }
  }

  lemma {:induction false} RosterUsers(users: seq<User>, ms: seq<Membership>, dns: seq<Dn>)
    ensures DistinctSams(RosterOf(users, ms, dns))
    ensures forall u | u in RosterOf(users, ms, dns) :: Find(users, u.sam) == Some(u)
    ensures forall s :: s in Sams(RosterOf(users, ms, dns)) <==>
                        Find(users, s).Some? && exists dn :: dn in dns && Membership(dn, s) in ms
  {
    if dns != [] {
      var init, last := dns[..|dns| - 1], dns[|dns| - 1];
      var group := MembersOf(users, ms, last);
      RosterUsers(users, ms, init);
      JoinUsers(RosterOf(users, ms, init), group);
      forall u ensures u in group <==> Membership(last, u.sam) in ms && Find(users, u.sam) == Some(u) {
        MembersOfGroup(users, ms, last, u);
      }
      forall s ensures s in Sams(group) <==> Find(users, s).Some? && Membership(last, s) in ms {
        FindHasSam(users, s);
        if Find(users, s).Some? && Membership(last, s) in ms {
          assert Find(users, s).value in group;
        }
      }
      assert dns == init + [last];
    }
  }

  // ----- the groups -----

  ghost function KeyOf(users: seq<User>, s: Sam): Option<Sam> {
    var m := ManagerOf(users, s);
    if m.None? then None else Some(m.value.sam)
  }

  /** The sams of a roster that are grouped under a given key (None: unrouted). */
  ghost function Under(users: seq<User>, roster: seq<User>, key: Option<Sam>): set<Sam> {
    set u | u in roster && KeyOf(users, u.sam) == key :: u.sam
  }

  lemma UnderSnoc(users: seq<User>, roster: seq<User>, x: User, key: Option<Sam>)
    ensures Under(users, roster + [x], key) ==
            Under(users, roster, key) + if KeyOf(users, x.sam) == key then {x.sam} else {}
  {
    assert forall u :: u in roster + [x] <==> u in roster || u == x;
  }

  lemma {:induction false} GroupsHold(users: seq<User>, roster: seq<User>, k: Sam)
    ensures k in Groups(users, roster) <==> Under(users, roster, Some(k)) != {}
    ensures k in Groups(users, roster) ==>
              && !Groups(users, roster)[k].fallback
              && Sams(Groups(users, roster)[k].subjects) == Under(users, roster, Some(k))
  {
    if roster != [] {
      var init, x := roster[..|roster| - 1], roster[|roster| - 1];
      GroupsHold(users, init, k);
      assert roster == init + [x];
      UnderSnoc(users, init, x, Some(k));
    }
  }

  lemma {:induction false} UnroutedHold(users: seq<User>, roster: seq<User>)
    ensures Sams(Unrouted(users, roster)) == Under(users, roster, None)
  {
    if roster != [] {
      var init, x := roster[..|roster| - 1], roster[|roster| - 1];
      UnroutedHold(users, init);
      assert roster == init + [x];
      UnderSnoc(users, init, x, None);
    }
  }

  /** What the preview says about a recipient, the fallback group counted as the owner's. */
  ghost function MergedAt(groups: map<string, PreviewGroup>, owner: Sam, r: Sam): set<Sam> {
    (if r in groups && !groups[r].fallback then Sams(groups[r].subjects) else {})
    + (if r == owner then set k, u | k in groups && groups[k].fallback && u in groups[k].subjects :: u.sam else {})
  }

  /** Whom a launch asks a recipient about. */
  ghost function PlannedAt(plans: seq<Plan>, r: Sam): set<Sam> {
    set i, x | 0 <= i < |plans| && plans[i].recipient == r && x in plans[i].subjects :: x.sam
  }

  lemma MergedGroups(users: seq<User>, ms: seq<Membership>, app: Preview.App, r: Sam)
    ensures var roster := RosterOf(users, ms, app.bindings);
            var lost := Under(users, roster, None) != {} && r == FallbackKey(users, app.owner);
            MergedAt(SubjectsByManager(users, ms, app), app.owner, r) ==
            (if lost then {} else Under(users, roster, Some(r)))
            + (if r == app.owner then Under(users, roster, None) else {})
  {
    var roster := RosterOf(users, ms, app.bindings);
    GroupsHold(users, roster, r);
    UnroutedHold(users, roster);
    forall k ensures k in Groups(users, roster) ==> !Groups(users, roster)[k].fallback {
      GroupsHold(users, roster, k);
    }
    var groups, before, unrouted := SubjectsByManager(users, ms, app), Groups(users, roster), Unrouted(users, roster);
    if unrouted != [] {
      assert unrouted[0].sam in Sams(unrouted);
      var key := FallbackKey(users, app.owner);
      assert groups[key].fallback && groups[key].subjects == unrouted;
      assert forall k | k in groups && groups[k].fallback :: k == key;
      assert (set k, u | k in groups && groups[k].fallback && u in groups[k].subjects :: u.sam) == Sams(unrouted);
    } else {
      assert (set k, u | k in groups && groups[k].fallback && u in groups[k].subjects :: u.sam) == {};
      assert Sams(unrouted) == {};
    }
  }

  /** The launch roster: the members of the bound groups with their managers. */
  ghost function LaunchRoster(ad: Directory, dns: seq<Dn>): set<Member> {
    set dn, s | dn in dns && dn in ad.members && s in ad.members[dn] :: Member(s, ManagerIn(ad, s))
  }

  ghost function ManagedBy(roster: seq<Member>, m: Option<Sam>): set<Sam> {
    set x | x in roster && x.manager == m :: x.sam
  }

  lemma PlannedSubjects(roster: seq<Member>, owner: Option<Sam>, plans: seq<Plan>, r: Sam)
    requires LineManagerPlans(roster, owner) == Ok(plans)
    ensures PlannedAt(plans, r) == ManagedBy(roster, Some(r)) + if owner == Some(r) then ManagedBy(roster, None) else {}
  {
    LineManagerPartition(roster, owner, plans);
    forall s | s in PlannedAt(plans, r)
      ensures s in ManagedBy(roster, Some(r)) || (owner == Some(r) && s in ManagedBy(roster, None))
    {
      var i: nat, x :| i < |plans| && plans[i].recipient == r && x in plans[i].subjects && x.sam == s;
      assert Holds(plans[i], x);
      assert x in roster && Route(x, owner) == Some(r);
    }
    forall x | x in roster && Route(x, owner) == Some(r)
      ensures x.sam in PlannedAt(plans, r)
    {
      var k := RoutedPlan(roster, owner, plans, x);
      assert x in multiset(plans[k].subjects) by { assert x in multiset(roster); }
    }
  }

  /** The memberships of these groups are the directory's, and their bindings are among those rebuilt. */
  ghost predicate Current(ad: Directory, bs: seq<Binding>, ms: seq<Membership>, dns: seq<Dn>) {
    forall dn | dn in dns ::
      && dn in ad.members && (exists b :: b in bs && b.dn == dn)
      && forall s :: Membership(dn, s) in ms <==> s in ad.members[dn]
  }

  lemma CurrentMember(ad: Directory, bs: seq<Binding>, ms: seq<Membership>, dns: seq<Dn>, dn: Dn, s: Sam)
    requires Embeds(ad, bs) && Current(ad, bs, ms, dns) && dn in dns && s in ad.members[dn]
    ensures HasRow(MembersIn(bs), s)
  {
    var b :| b in bs && b.dn == dn;
    assert HasRow(RowsOf(b), s);
    var r :| r in RowsOf(b) && r.sam == s;
    MembersInRow(bs, r);
  }

  lemma ShownExactly(ad: Directory, users: seq<User>, bs: seq<Binding>, ms: seq<Membership>, dns: seq<Dn>, s: Sam)
    requires Embeds(ad, bs) && Current(ad, bs, ms, dns)
    ensures s in Sams(RosterOf(Rebuilt(users, bs), ms, dns)) <==>
            Member(s, ManagerIn(ad, s)) in LaunchRoster(ad, dns)
  {
    RosterUsers(Rebuilt(users, bs), ms, dns);
    if Member(s, ManagerIn(ad, s)) in LaunchRoster(ad, dns) {
      var dn :| dn in dns && dn in ad.members && s in ad.members[dn];
      CurrentMember(ad, bs, ms, dns, dn, s);
      RebuiltUsers(ad, users, bs, s);
      assert Membership(dn, s) in ms;
    }
  }

  /** The preview's roster is the launch's, grouped under the same managers. */
  lemma SameRoster(ad: Directory, users: seq<User>, bs: seq<Binding>, ms: seq<Membership>, dns: seq<Dn>,
                   roster: seq<Member>, key: Option<Sam>)
    requires Embeds(ad, bs) && NamedManagers(ad) && Current(ad, bs, ms, dns)
    requires Elements(roster) == LaunchRoster(ad, dns)
    ensures var known := Rebuilt(users, bs); Under(known, RosterOf(known, ms, dns), key) == ManagedBy(roster, key)
  {
    var known := Rebuilt(users, bs);
    var shown := RosterOf(known, ms, dns);
    RosterUsers(known, ms, dns);
    forall s ensures s in Sams(shown) <==> Member(s, ManagerIn(ad, s)) in LaunchRoster(ad, dns) {
      ShownExactly(ad, users, bs, ms, dns, s);
    }
    forall u | u in shown ensures KeyOf(known, u.sam) == ManagerIn(ad, u.sam) {
      assert u.sam in Sams(shown);
      var dn :| dn in dns && Membership(dn, u.sam) in ms;
      CurrentMember(ad, bs, ms, dns, dn, u.sam);
      ManagerAfterRebuild(ad, users, bs, u.sam);
    }
    forall s | s in Under(known, shown, key)
      ensures s in ManagedBy(roster, key)
    {
      var u :| u in shown && KeyOf(known, u.sam) == key && u.sam == s;
      assert u.sam in Sams(shown);
      assert Member(s, key) in Elements(roster);
    }
    forall s | s in ManagedBy(roster, key)
      ensures s in Under(known, shown, key)
    {
      var x :| x in roster && x.manager == key && x.sam == s;
      assert x in Elements(roster);
      assert s in Sams(shown);
      var u :| u in shown && u.sam == s;
    }
  }

  lemma ListedRow(rows: seq<MemberRow>, dn: Dn, s: Sam)
    ensures Membership(dn, s) in Listed(rows) <==> exists r :: r in rows && r.dn == dn && r.sam == s
    ensures Membership(dn, s) in Listed(rows) ==> HasRow(rows, s)
  {
    forall r | r in rows && r.dn == dn && r.sam == s
      ensures Membership(dn, s) in Listed(rows)
    {
      var i :| 0 <= i < |rows| && rows[i] == r;
      assert Listed(rows)[i] == Membership(dn, s);
    }
    if Membership(dn, s) in Listed(rows) {
      var i :| 0 <= i < |rows| && Listed(rows)[i] == Membership(dn, s);
      assert rows[i] in rows && rows[i].dn == dn && rows[i].sam == s;
    }
  }

  lemma {:induction false} DetailBindings(details: seq<Detail>, d: Detail, b: Binding)
    requires d in details && b in d.bindings
    ensures b in BindingsIn(details)
  {
    var init, last := details[..|details| - 1], details[|details| - 1];
    if d != last {
      assert d in init by { assert details == init + [last]; }
      DetailBindings(init, d, b);
    }
  }

  /** The embedded rows of a bound group list exactly its members. */
  lemma BoundGroupRows(ad: Directory, details: seq<Detail>, d: Detail, dn: Dn, s: Sam)
    requires Embeds(ad, BindingsIn(details)) && d in details && dn in Shape(d).bindings
    ensures dn in ad.members
    ensures Membership(dn, s) in Listed(MembersIn(BindingsIn(details))) <==> s in ad.members[dn]
  {
    var bs := BindingsIn(details);
    var rows := MembersIn(bs);
    var i :| 0 <= i < |d.bindings| && d.bindings[i].dn == dn;
    DetailBindings(details, d, d.bindings[i]);
    ListedRow(rows, dn, s);
    if Membership(dn, s) in Listed(rows) {
      var r :| r in rows && r.dn == dn && r.sam == s;
      MembersInRow(bs, r);
      assert RowFrom(ad, r);
    }
    if s in ad.members[dn] {
      assert HasRow(RowsOf(d.bindings[i]), s);
      var r :| r in RowsOf(d.bindings[i]) && r.sam == s;
      MembersInRow(bs, r);
    }
  }

  /** A full rebuild makes the groups of every application it is given current. */
  lemma RebuildIsCurrent(ad: Directory, details: seq<Detail>, d: Detail)
    requires Embeds(ad, BindingsIn(details)) && d in details
    ensures Current(ad, BindingsIn(details), Listed(MembersIn(BindingsIn(details))), Shape(d).bindings)
  {
    var bs, dns := BindingsIn(details), Shape(d).bindings;
    forall dn | dn in dns
      ensures dn in ad.members && (exists b :: b in bs && b.dn == dn)
      ensures forall s :: Membership(dn, s) in Listed(MembersIn(bs)) <==> s in ad.members[dn]
    {
      var i :| 0 <= i < |d.bindings| && d.bindings[i].dn == dn;
      DetailBindings(details, d, d.bindings[i]);
      forall s ensures Membership(dn, s) in Listed(MembersIn(bs)) <==> s in ad.members[dn] {
        BoundGroupRows(ad, details, d, dn, s);
      }
    }
  }

  /** So does a targeted refresh, whatever the arrays held before. */
  lemma RefreshIsCurrent(ad: Directory, ms: seq<Membership>, d: Detail)
    requires Embeds(ad, d.bindings)
    ensures Current(ad, d.bindings, Without(ms, Dns(d.bindings)) + Listed(MembersIn(d.bindings)), Shape(d).bindings)
  {
    assert BindingsIn([d]) == d.bindings;
    RebuildIsCurrent(ad, [d], d);
    forall dn, s | dn in Shape(d).bindings
      ensures Membership(dn, s) !in Without(ms, Dns(d.bindings))
    {
      var i :| 0 <= i < |d.bindings| && d.bindings[i].dn == dn;
      assert dn in Dns(d.bindings);
      KeptOutside(ms, Dns(d.bindings), Membership(dn, s));
    }
  }

  lemma {:induction false} KeptOutside(ms: seq<Membership>, dns: set<Dn>, m: Membership)
    ensures m in Without(ms, dns) ==> m.dn !in dns
  {
    if ms != [] {
      KeptOutside(ms[1..], dns, m);
    }
  }

  /** What a preview shows and what a launch asks, recipient by recipient, when the groups are current. */
  lemma PreviewAgrees(ad: Directory, users: seq<User>, bs: seq<Binding>, ms: seq<Membership>, app: Preview.App,
                      roster: seq<Member>, owner: Option<Sam>, plans: seq<Plan>)
    requires Embeds(ad, bs) && NamedManagers(ad) && Current(ad, bs, ms, app.bindings)
    requires app.owner == if owner.Some? then owner.value else ""
    requires Elements(roster) == LaunchRoster(ad, app.bindings)
    requires LineManagerPlans(roster, owner) == Ok(plans)
    ensures var known := Rebuilt(users, bs);
            (forall r :: MergedAt(SubjectsByManager(known, ms, app), app.owner, r) == PlannedAt(plans, r)) <==>
            (ManagedBy(roster, None) == {} || ManagedBy(roster, Some(FallbackKey(known, app.owner))) == {})
  {
    var known := Rebuilt(users, bs);
    var groups, key := SubjectsByManager(known, ms, app), FallbackKey(known, app.owner);
    SameRoster(ad, users, bs, ms, app.bindings, roster, None);
    OwnedWhenUnrouted(roster, owner, plans);
    forall r ensures MergedAt(groups, app.owner, r) ==
                     (if ManagedBy(roster, None) != {} && r == key then {} else ManagedBy(roster, Some(r)))
                     + (if r == app.owner then ManagedBy(roster, None) else {})
    {
      MergedGroups(known, ms, app, r);
      SameRoster(ad, users, bs, ms, app.bindings, roster, Some(r));
    }
    forall r ensures PlannedAt(plans, r) ==
                     ManagedBy(roster, Some(r)) + if owner == Some(r) then ManagedBy(roster, None) else {} {
      PlannedSubjects(roster, owner, plans, r);
    }
    if ManagedBy(roster, None) != {} && ManagedBy(roster, Some(key)) != {} {
      var s :| s in ManagedBy(roster, Some(key));
      OneManagerEach(ad, app.bindings, roster, s, key);
      assert s in PlannedAt(plans, key) && s !in MergedAt(groups, app.owner, key);
    }
  }

  /**
   After a full rebuild the preview shows what a launch would do, recipient by recipient, once its
   fallback group is counted as the owner's - exactly unless there are subjects without a manager
   and some manager's account name is the key the preview files them under.
   */
  lemma PreviewShowsTheLaunch(ad: Directory, details: seq<Detail>, d: Detail, roster: seq<Member>,
                              owner: Option<Sam>, plans: seq<Plan>)
    requires Embeds(ad, BindingsIn(details)) && NamedManagers(ad)
    requires d in details && d.owner == if owner.Some? then owner.value else ""
    requires Elements(roster) == LaunchRoster(ad, Shape(d).bindings)
    requires LineManagerPlans(roster, owner) == Ok(plans)
    ensures var bs := BindingsIn(details);
            var users := Rebuilt([], bs);
            var groups := SubjectsByManager(users, Listed(MembersIn(bs)), Shape(d));
            (forall r :: MergedAt(groups, d.owner, r) == PlannedAt(plans, r)) <==>
            (ManagedBy(roster, None) == {} || ManagedBy(roster, Some(FallbackKey(users, d.owner))) == {})
  {
    RebuildIsCurrent(ad, details, d);
    PreviewAgrees(ad, [], BindingsIn(details), Listed(MembersIn(BindingsIn(details))), Shape(d), roster, owner, plans);
  }

  /** The same for the application refreshed, from any users and memberships before. */
  lemma RefreshShowsTheLaunch(ad: Directory, users: seq<User>, ms: seq<Membership>, d: Detail, roster: seq<Member>,
                              owner: Option<Sam>, plans: seq<Plan>)
    requires Embeds(ad, d.bindings) && NamedManagers(ad)
    requires d.owner == if owner.Some? then owner.value else ""
    requires Elements(roster) == LaunchRoster(ad, Shape(d).bindings)
    requires LineManagerPlans(roster, owner) == Ok(plans)
    ensures var users', ms' := Rebuilt(users, d.bindings), Without(ms, Dns(d.bindings)) + Listed(MembersIn(d.bindings));
            var groups := SubjectsByManager(users', ms', Shape(d));
            (forall r :: MergedAt(groups, d.owner, r) == PlannedAt(plans, r)) <==>
            (ManagedBy(roster, None) == {} || ManagedBy(roster, Some(FallbackKey(users', d.owner))) == {})
  {
    RefreshIsCurrent(ad, ms, d);
    PreviewAgrees(ad, users, d.bindings, Without(ms, Dns(d.bindings)) + Listed(MembersIn(d.bindings)), Shape(d), roster,
                  owner, plans);
  }

  /** One group: an account without a manager, one managed by the given account, and an owner of the group. */
  function Collision(manager: Sam, owner: Sam): Binding {
    Binding("g", [Member("x", None), Member("y", Some(manager))], [owner])
  }

  lemma CollisionUsers(ad: Directory, manager: Sam, owner: Sam)
    requires ad == Directory(map["g" := {"x", "y"}], map["x" := None, "y" := Some(manager)])
    ensures var bs := [Collision(manager, owner)];
            Embeds(ad, bs) && BindingsIn([Detail(1, owner, bs)]) == bs && Find(Rebuilt([], bs), owner).Some?
  {
    var b := Collision(manager, owner);
    assert [b][..0] == [];
    assert [Detail(1, owner, [b])][..0] == [];
    assert RowsOf(b)[0].sam == "x" && RowsOf(b)[1].sam == "y";
    assert OwnersIn([b]) == OwnersIn([]) + [owner];
    var rows := MembersIn([b]);
    FindAfterOwners(AddManagers(AddMembers([], rows), rows), OwnersIn([b]), owner);
  }

  lemma CollisionRoster(ad: Directory, manager: Sam)
    requires ad == Directory(map["g" := {"x", "y"}], map["x" := None, "y" := Some(manager)])
    ensures Elements([Member("x", None), Member("y", Some(manager))]) == LaunchRoster(ad, ["g"])
  {
    var roster, listed := [Member("x", None), Member("y", Some(manager))], LaunchRoster(ad, ["g"]);
    assert "g" in ["g"] && "x" in ad.members["g"] && "y" in ad.members["g"];
    assert Member("x", ManagerIn(ad, "x")) in listed && Member("y", ManagerIn(ad, "y")) in listed;
    forall m | m in listed ensures m in roster {
      var dn, s :| dn in ["g"] && dn in ad.members && s in ad.members[dn] && m == Member(s, ManagerIn(ad, s));
      assert m == roster[0] || m == roster[1];
    }
  }

  /** The condition is needed: for every owner there is a directory in which the preview is not the launch. */
  lemma PreviewCanDiffer(owner: Sam)
    returns (ad: Directory, d: Detail, roster: seq<Member>, plans: seq<Plan>)
    requires !Blank(Some(owner))
    ensures Embeds(ad, BindingsIn([d])) && NamedManagers(ad) && d.owner == owner
    ensures Elements(roster) == LaunchRoster(ad, Shape(d).bindings)
    ensures LineManagerPlans(roster, Some(owner)) == Ok(plans)
    ensures var bs := BindingsIn([d]);
            exists r :: MergedAt(SubjectsByManager(Rebuilt([], bs), Listed(MembersIn(bs)), Shape(d)), owner, r)
                        != PlannedAt(plans, r)
  {
    var key := "__fallback__" + owner;
    ad := Directory(map["g" := {"x", "y"}], map["x" := None, "y" := Some(key)]);
    d := Detail(1, owner, [Collision(key, owner)]);
    roster := [Member("x", None), Member("y", Some(key))];
    CollisionUsers(ad, key, owner);
    FindHasSam(Rebuilt([], d.bindings), owner);
    RefusedExactly(LineManager, roster, [], Some(owner));
    plans := LineManagerPlans(roster, Some(owner)).value;
    CollisionRoster(ad, key);
    assert Shape(d).bindings == ["g"];
    assert "x" in ManagedBy(roster, None) by { assert roster[0] in roster; }
    assert "y" in ManagedBy(roster, Some(key)) by { assert roster[1] in roster; }
    PreviewShowsTheLaunch(ad, [d], d, roster, Some(owner), plans);
  }

  lemma OwnedWhenUnrouted(roster: seq<Member>, owner: Option<Sam>, plans: seq<Plan>)
    requires LineManagerPlans(roster, owner) == Ok(plans)
    ensures ManagedBy(roster, None) != {} ==> owner.Some?
  {
    if ManagedBy(roster, None) != {} {
      var s :| s in ManagedBy(roster, None);
      var x :| x in roster && x.manager == None && x.sam == s;
      RefusedExactly(LineManager, roster, [], owner);
    }
  }

  lemma OneManagerEach(ad: Directory, dns: seq<Dn>, roster: seq<Member>, s: Sam, m: Sam)
    requires Elements(roster) == LaunchRoster(ad, dns) && s in ManagedBy(roster, Some(m))
    ensures s !in ManagedBy(roster, None)
  {
    forall x | x in roster
      ensures x.manager == ManagerIn(ad, x.sam)
    {
      assert x in Elements(roster);
    }
  }

  // ----- the targeted refresh -----

  lemma {:induction false} WithinAppend(a: seq<Membership>, b: seq<Membership>, dn: Dn)
    ensures Within(a + b, dn) == Within(a, dn) + Within(b, dn)
  {
    if a == [] {
      assert a + b == b;
    } else {
      WithinAppend(a[1..], b, dn);
      assert (a + b)[1..] == a[1..] + b && (a + b)[0] == a[0];
      if a[0].dn == dn {
        assert [a[0]] + (Within(a[1..], dn) + Within(b, dn)) == Within(a, dn) + Within(b, dn);
      }
    }
  }

  lemma {:induction false} WithinWithout(ms: seq<Membership>, dns: set<Dn>, dn: Dn)
    ensures Within(Without(ms, dns), dn) == if dn in dns then [] else Within(ms, dn)
  {
    if ms != [] {
      WithinWithout(ms[1..], dns, dn);
    }
  }

  lemma {:induction false} WithinNone(ms: seq<Membership>, dn: Dn)
    requires forall m | m in ms :: m.dn != dn
    ensures Within(ms, dn) == []
  {
    if ms != [] {
      WithinNone(ms[1..], dn);
    }
  }

  /**
   A merge refresh of some bindings leaves the memberships of every other group as they were,
   in order, and gives each refreshed group exactly the rows embedded for it.
   */
  lemma MergeTouchesOnlyItsGroups(ms: seq<Membership>, bs: seq<Binding>, dn: Dn)
    ensures var ms' := Without(ms, Dns(bs)) + Listed(MembersIn(bs));
            Within(ms', dn) == if dn in Dns(bs) then Within(Listed(MembersIn(bs)), dn) else Within(ms, dn)
  {
    WithinAppend(Without(ms, Dns(bs)), Listed(MembersIn(bs)), dn);
    WithinWithout(ms, Dns(bs), dn);
    if dn !in Dns(bs) {
      forall m | m in Listed(MembersIn(bs)) ensures m.dn != dn {
        ListedRow(MembersIn(bs), m.dn, m.sam);
        var r :| r in MembersIn(bs) && r.dn == m.dn && r.sam == m.sam;
        MembersInRow(bs, r);
      }
      WithinNone(Listed(MembersIn(bs)), dn);
    }
  }
}
