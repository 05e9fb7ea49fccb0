/** Group memberships from the directory export: an upsert of the feed and a prune of the groups it names. */
module MembershipSync {
  import opened Common

  type Time = int

  datatype Member = Member(group: string, sam: string)

  /** auditing.group_memberships: when each pair was last synced. */
  type Table = map<Member, Time>

  /** A row of the export, and the trimming of its fields. */
  datatype Raw = Raw(group: string, sam: string)

  datatype Run = Run(members: seq<Raw>, now: Time, strip: string -> string, dryRun: bool, fails: bool)

  function Cut(s: string, n: nat): string {
    if |s| <= n then s else s[..n]
  }

  function Rows(members: seq<Raw>, strip: string -> string): seq<Member> {
    if members == [] then []
    else
      var r := members[|members| - 1];
      var dn, sam := strip(r.group), strip(r.sam);
      Rows(members[..|members| - 1], strip)
      + if dn != "" && sam != "" then [Member(Cut(dn, 500), Cut(sam, 255))] else []
  }

  predicate Names(rows: seq<Member>, group: string) {
    exists i | 0 <= i < |rows| :: rows[i].group == group
  }

  function Upsert(t: Table, rows: seq<Member>, now: Time): Table {
    if rows == [] then t else Upsert(t, rows[..|rows| - 1], now)[rows[|rows| - 1] := now]
  }

  function Prune(t: Table, rows: seq<Member>): Table {
    map m | m in t && (!Names(rows, m.group) || m in rows) :: t[m]
  }

  function AfterRun(t: Table, run: Run): Table {
    var rows := Rows(run.members, run.strip);
    if run.fails || run.dryRun || rows == [] then t else Prune(Upsert(t, rows, run.now), rows)
  }

  class Database {
    var memberships: Table

    constructor ()
      ensures memberships == map[]
    {
      memberships := map[];
    }

    method SyncMemberships(run: Run)
      modifies this
      ensures memberships == AfterRun(old(memberships), run)
    {
      var rows: seq<Member> := [];
      for i := 0 to |run.members|
        invariant rows == Rows(run.members[..i], run.strip) && memberships == old(memberships)
      {
        assert run.members[..i + 1][..i] == run.members[..i];
        var dn, sam := run.strip(run.members[i].group), run.strip(run.members[i].sam);
        if dn != "" && sam != "" {
          rows := rows + [Member(Cut(dn, 500), Cut(sam, 255))];
        }
      }
      assert run.members[..|run.members|] == run.members;
      if |rows| > 0 && !run.fails && !run.dryRun {
        memberships := Upsert(memberships, rows, run.now);
        memberships := Prune(memberships, rows);
      }
    }
  }

  lemma {:induction false} UpsertExactly(t: Table, rows: seq<Member>, now: Time, m: Member)
    ensures m in Upsert(t, rows, now) <==> m in t || m in rows
    ensures m in Upsert(t, rows, now) ==> Upsert(t, rows, now)[m] == if m in rows then now else t[m]
  {
    if rows != [] {
      UpsertExactly(t, rows[..|rows| - 1], now, m);
      assert rows == rows[..|rows| - 1] + [rows[|rows| - 1]];
    }
  }

  /**
   After a committed run the memberships of every group in the feed are exactly the feed's, freshly
   stamped, and those of every other group are as they were.
   */
  lemma ScopeEqualsFeed(t: Table, run: Run, m: Member)
    requires !run.fails && !run.dryRun
    ensures var rows, after := Rows(run.members, run.strip), AfterRun(t, run);
            && (Names(rows, m.group) ==> (m in after <==> m in rows) && (m in after ==> after[m] == run.now))
            && (!Names(rows, m.group) ==> (m in after <==> m in t) && (m in t ==> after[m] == t[m]))
  {
    var rows := Rows(run.members, run.strip);
    UpsertExactly(t, rows, run.now, m);
    if m in rows {
      var i :| 0 <= i < |rows| && rows[i] == m;
      assert Names(rows, m.group);
    }
  }

  /** A group that lost its last member is not in the feed, so its stale memberships stay. */
  lemma EmptiedGroupKeepsMembers(t: Table, run: Run, group: string)
    requires !Names(Rows(run.members, run.strip), group)
    ensures forall m: Member | m.group == group :: m in AfterRun(t, run) <==> m in t
  {
    forall m: Member | m.group == group ensures m in AfterRun(t, run) <==> m in t {
      if !run.fails && !run.dryRun {
        ScopeEqualsFeed(t, run, m);
      }
    }
  }
}
