/**
 The launch preview of the browser. The AD arrays are rebuilt in place from the application
 details the API returns; the preview groups an application's roster from those arrays.
 */
module Preview {
  import opened Common
  import opened Routing

  type Dn = string
  type AppId = int

  /** A binding as the API embeds it: its group, the group's members and owners. */
  datatype Binding = Binding(dn: Dn, members: seq<Member>, owners: seq<Sam>)

  /** A member met while walking the bindings, with the group it was met in. */
  datatype MemberRow = MemberRow(dn: Dn, sam: Sam, manager: Option<Sam>)

  /** An application detail; an absent business owner arrives as the empty string. */
  datatype Detail = Detail(id: AppId, owner: Sam, bindings: seq<Binding>)

  datatype App = App(id: AppId, owner: Sam, bindings: seq<Dn>)

  datatype User = User(sam: Sam, manager: Option<Sam>)

  datatype Membership = Membership(dn: Dn, sam: Sam)

  datatype PreviewGroup = PreviewGroup(manager: Option<User>, subjects: seq<User>, fallback: bool)

  function Shape(d: Detail): App {
    App(d.id, d.owner, seq(|d.bindings|, i requires 0 <= i < |d.bindings| => d.bindings[i].dn))
  }

  /** manager_sam || null */
  function Truthy(m: Option<Sam>): Option<Sam> {
    if m == Some("") then None else m
  }

  // ----- a Map keyed by sam, kept as the list of its values -----

  function Find(users: seq<User>, sam: Sam): Option<User> {
    if users == [] then None
    else if users[0].sam == sam then Some(users[0])
    else Find(users[1..], sam)
  }

  function Put(users: seq<User>, u: User): seq<User> {
    if users == [] then [u]
    else if users[0].sam == u.sam then [u] + users[1..]
    else [users[0]] + Put(users[1..], u)
  }

  function PutNew(users: seq<User>, sam: Sam): seq<User> {
    if Find(users, sam) == None then Put(users, User(sam, None)) else users
  }

  lemma {:induction false} FindPut(users: seq<User>, u: User, sam: Sam)
    ensures Find(Put(users, u), sam) == if sam == u.sam then Some(u) else Find(users, sam)
  {
    if users != [] {
      FindPut(users[1..], u, sam);
    }
  }

  // ----- the three passes over the embedded rows -----

  function RowsOf(b: Binding): seq<MemberRow> {
    seq(|b.members|, i requires 0 <= i < |b.members| => MemberRow(b.dn, b.members[i].sam, b.members[i].manager))
  }

  function MembersIn(bs: seq<Binding>): seq<MemberRow> {
    if bs == [] then [] else MembersIn(bs[..|bs| - 1]) + RowsOf(bs[|bs| - 1])
  }

  function OwnersIn(bs: seq<Binding>): seq<Sam> {
    if bs == [] then [] else OwnersIn(bs[..|bs| - 1]) + bs[|bs| - 1].owners
  }

  function BindingsIn(details: seq<Detail>): seq<Binding> {
    if details == [] then [] else BindingsIn(details[..|details| - 1]) + details[|details| - 1].bindings
  }

  function AddMembers(users: seq<User>, rows: seq<MemberRow>): seq<User> {
    if rows == [] then users
    else
      var last := rows[|rows| - 1];
      Put(AddMembers(users, rows[..|rows| - 1]), User(last.sam, Truthy(last.manager)))
  }

  function AddManagers(users: seq<User>, rows: seq<MemberRow>): seq<User> {
    if rows == [] then users
    else
      var before, m := AddManagers(users, rows[..|rows| - 1]), Truthy(rows[|rows| - 1].manager);
      if m.Some? then PutNew(before, m.value) else before
  }

  function AddOwners(users: seq<User>, owners: seq<Sam>): seq<User> {
    if owners == [] then users else PutNew(AddOwners(users, owners[..|owners| - 1]), owners[|owners| - 1])
  }

  function Rebuilt(users: seq<User>, bs: seq<Binding>): seq<User> {
    AddOwners(AddManagers(AddMembers(users, MembersIn(bs)), MembersIn(bs)), OwnersIn(bs))
  }

  function Listed(rows: seq<MemberRow>): seq<Membership> {
    seq(|rows|, i requires 0 <= i < |rows| => Membership(rows[i].dn, rows[i].sam))
  }

  function Without(ms: seq<Membership>, dns: set<Dn>): seq<Membership> {
    if ms == [] then []
    else
      var rest := Without(ms[1..], dns);
      if ms[0].dn in dns then rest else [ms[0]] + rest
  }

  function Within(ms: seq<Membership>, dn: Dn): seq<Membership> {
    if ms == [] then []
    else
      var rest := Within(ms[1..], dn);
      if ms[0].dn == dn then [ms[0]] + rest else rest
  }

  function Dns(bs: seq<Binding>): set<Dn> {
    set b | b in bs :: b.dn
  }

  // ----- reading the arrays -----

  /** Users of the members of one group, in membership order; unknown users are dropped. */
  function MembersOf(users: seq<User>, ms: seq<Membership>, dn: Dn): seq<User> {
    if ms == [] then []
    else
      var rest := MembersOf(users, ms[1..], dn);
      if ms[0].dn == dn && Find(users, ms[0].sam).Some? then [Find(users, ms[0].sam).value] + rest else rest
  }

  function Sams(users: seq<User>): set<Sam> {
    set u | u in users :: u.sam
  }

  /** Adding a list of users to a roster, skipping those whose sam is already on it. */
  function Join(roster: seq<User>, more: seq<User>): seq<User> {
    if more == [] then roster
    else
      var before, last := Join(roster, more[..|more| - 1]), more[|more| - 1];
      if last.sam in Sams(before) then before else before + [last]
  }

  function RosterOf(users: seq<User>, ms: seq<Membership>, dns: seq<Dn>): seq<User> {
    if dns == [] then []
    else Join(RosterOf(users, ms, dns[..|dns| - 1]), MembersOf(users, ms, dns[|dns| - 1]))
  }

  function ManagerOf(users: seq<User>, sam: Sam): Option<User> {
    var u := Find(users, sam);
    if u.None? || u.value.manager.None? then None else Find(users, u.value.manager.value)
  }

  /** A subject joins its manager's group, which is made when it is the first one. */
  function Place(groups: map<string, PreviewGroup>, m: User, x: User): map<string, PreviewGroup> {
    if m.sam in groups then groups[m.sam := groups[m.sam].(subjects := groups[m.sam].subjects + [x])]
    else groups[m.sam := PreviewGroup(Some(m), [x], false)]
  }

  function Groups(users: seq<User>, roster: seq<User>): map<string, PreviewGroup> {
    if roster == [] then map[]
    else
      var groups, m := Groups(users, roster[..|roster| - 1]), ManagerOf(users, roster[|roster| - 1].sam);
      if m.None? then groups else Place(groups, m.value, roster[|roster| - 1])
  }

  function Unrouted(users: seq<User>, roster: seq<User>): seq<User> {
    if roster == [] then []
    else
      var rest, x := Unrouted(users, roster[..|roster| - 1]), roster[|roster| - 1];
      if ManagerOf(users, x.sam).None? then rest + [x] else rest
  }

  function FallbackKey(users: seq<User>, owner: Sam): string {
    "__fallback__" + if Find(users, owner).Some? then Find(users, owner).value.sam else "none"
  }

  function SubjectsByManager(users: seq<User>, ms: seq<Membership>, app: App): map<string, PreviewGroup> {
    var roster := RosterOf(users, ms, app.bindings);
    var groups, unrouted := Groups(users, roster), Unrouted(users, roster);
    if unrouted == [] then groups
    else groups[FallbackKey(users, app.owner) := PreviewGroup(Find(users, app.owner), unrouted, true)]
  }

  /** The application takes the place of the first one with its id, or goes to the end. */
  function Replaced(apps: seq<App>, a: App): seq<App> {
    if apps == [] then [a]
    else if apps[0].id == a.id then [a] + apps[1..]
    else [apps[0]] + Replaced(apps[1..], a)
  }

  lemma {:induction false} ReplacedAt(apps: seq<App>, a: App, i: nat)
    requires i <= |apps| && forall j | 0 <= j < i :: apps[j].id != a.id
    requires i < |apps| ==> apps[i].id == a.id
    ensures Replaced(apps, a) == if i < |apps| then apps[i := a] else apps + [a]
  {
    if i > 0 {
      ReplacedAt(apps[1..], a, i - 1);
    }
  }

  // ----- the arrays -----

  class AuditingData {
    var applications: seq<App>
    var users: seq<User>
    var memberships: seq<Membership>

    /** _spliceWhere on the memberships, from the end. */
    method SpliceWhere(dns: set<Dn>)
      modifies `memberships
      ensures memberships == Without(old(memberships), dns)
    {
      var i := |memberships|;
      while i > 0
        invariant 0 <= i <= |old(memberships)|
        invariant memberships == old(memberships)[..i] + Without(old(memberships)[i..], dns)
      {
        i := i - 1;
        assert old(memberships)[..i + 1] == old(memberships)[..i] + [old(memberships)[i]];
        assert old(memberships)[i..][1..] == old(memberships)[i + 1..];
        if memberships[i].dn in dns {
          memberships := memberships[..i] + memberships[i + 1..];
        }
      }
    }

    /** Pass 1: memberships, and a user record for every member. */
    method PassMembers(rows: seq<MemberRow>)
      modifies `users, `memberships
      ensures memberships == old(memberships) + Listed(rows) && users == AddMembers(old(users), rows)
    {
      for i := 0 to |rows|
        invariant memberships == old(memberships) + Listed(rows[..i]) && users == AddMembers(old(users), rows[..i])
      {
        assert rows[..i + 1][..i] == rows[..i];
        memberships := memberships + [Membership(rows[i].dn, rows[i].sam)];
        users := Put(users, User(rows[i].sam, Truthy(rows[i].manager)));
      }
      assert rows[..|rows|] == rows;
    }

    /** Pass 2: a stub for every manager who is not known yet. */
    method PassManagers(rows: seq<MemberRow>)
      modifies `users
      ensures users == AddManagers(old(users), rows)
    {
      for i := 0 to |rows|
        invariant users == AddManagers(old(users), rows[..i])
      {
        assert rows[..i + 1][..i] == rows[..i];
        var m := Truthy(rows[i].manager);
        if m.Some? && Find(users, m.value) == None {
          users := Put(users, User(m.value, None));
        }
      }
      assert rows[..|rows|] == rows;
    }

    /** Pass 3: a stub for every group owner who is not known yet. */
    method PassOwners(owners: seq<Sam>)
      modifies `users
      ensures users == AddOwners(old(users), owners)
    {
      for i := 0 to |owners|
        invariant users == AddOwners(old(users), owners[..i])
      {
        assert owners[..i + 1][..i] == owners[..i];
        if Find(users, owners[i]) == None {
          users := Put(users, User(owners[i], None));
        }
      }
      assert owners[..|owners|] == owners;
    }

    /** _applyAdReferenceData: a full rebuild, or a merge that replaces only the DNs of `details`. */
    method ApplyAdReferenceData(details: seq<Detail>, merge: bool)
      modifies `users, `memberships
      ensures var bs := BindingsIn(details);
              && memberships == (if merge then Without(old(memberships), Dns(bs)) else []) + Listed(MembersIn(bs))
              && users == Rebuilt(if merge then old(users) else [], bs)
    {
      var bs := BindingsIn(details);
      if merge {
        SpliceWhere(Dns(bs));
      } else {
        memberships, users := [], [];
      }
      PassMembers(MembersIn(bs));
      PassManagers(MembersIn(bs));
      PassOwners(OwnersIn(bs));
    }

    /** findIndex, and an assignment or a push. */
    method PlaceApplication(shaped: App)
      modifies `applications
      ensures applications == Replaced(old(applications), shaped)
    {
      var i := 0;
      while i < |applications| && applications[i].id != shaped.id
        invariant i <= |applications| && forall j | 0 <= j < i :: applications[j].id != shaped.id
        modifies {}
      {
        i := i + 1;
      }
      ReplacedAt(applications, shaped, i);
      if i < |applications| {
        applications := applications[i := shaped];
      } else {
        applications := applications + [shaped];
      }
    }

    /** applyAuditingApp: the targeted refresh after a write to one application. */
    method ApplyAuditingApp(detail: Detail)
      modifies this
      ensures applications == Replaced(old(applications), Shape(detail))
      ensures memberships == Without(old(memberships), Dns(detail.bindings)) + Listed(MembersIn(detail.bindings))
      ensures users == Rebuilt(old(users), detail.bindings)
    {
      PlaceApplication(Shape(detail));
      assert BindingsIn([detail]) == detail.bindings;
      ApplyAdReferenceData([detail], true);
    }

    /** getAppRoster: the deduplicated members of an application's groups. */
    method GetAppRoster(app: App) returns (roster: seq<User>)
      ensures roster == RosterOf(users, memberships, app.bindings)
    {
      roster := [];
      var seen: set<Sam> := {};
      for i := 0 to |app.bindings|
        invariant roster == RosterOf(users, memberships, app.bindings[..i]) && seen == Sams(roster)
      {
        assert app.bindings[..i + 1][..i] == app.bindings[..i];
        var group, before := MembersOf(users, memberships, app.bindings[i]), roster;
        for j := 0 to |group|
          invariant roster == Join(before, group[..j]) && seen == Sams(roster)
        {
          assert group[..j + 1][..j] == group[..j];
          if group[j].sam !in seen {
            seen, roster := seen + {group[j].sam}, roster + [group[j]];
          }
        }
        assert group[..|group|] == group;
      }
      assert app.bindings[..|app.bindings|] == app.bindings;
    }

    /** getSubjectsByManager: the line-manager preview of one application. */
    method GetSubjectsByManager(app: App) returns (groups: map<string, PreviewGroup>)
      ensures groups == SubjectsByManager(users, memberships, app)
    {
      var roster := GetAppRoster(app);
      var unrouted: seq<User> := [];
      groups := map[];
      for i := 0 to |roster|
        invariant groups == Groups(users, roster[..i]) && unrouted == Unrouted(users, roster[..i])
      {
        assert roster[..i + 1][..i] == roster[..i];
        ghost var before := groups;
        var mgr := ManagerOf(users, roster[i].sam);
        if mgr.Some? {
          if mgr.value.sam !in groups {
            groups := groups[mgr.value.sam := PreviewGroup(mgr, [], false)];
          }
          var g := groups[mgr.value.sam];
          groups := groups[mgr.value.sam := g.(subjects := g.subjects + [roster[i]])];
          assert g.subjects + [roster[i]] ==
                 if mgr.value.sam in before then before[mgr.value.sam].subjects + [roster[i]] else [roster[i]];
          assert groups == Place(before, mgr.value, roster[i]);
        } else {
          unrouted := unrouted + [roster[i]];
        }
      }
      assert roster[..|roster|] == roster;
      if |unrouted| > 0 {
        groups := groups[FallbackKey(users, app.owner) := PreviewGroup(Find(users, app.owner), unrouted, true)];
      }
    }
  }
}
