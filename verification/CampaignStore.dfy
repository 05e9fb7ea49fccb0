/**
 The service calls as they run: statements and loops over the tables of one database. Each
 method leaves the tables as the corresponding step of module Campaigns says.
 */
module CampaignStore {
  import opened Common
  import opened Decisions
  import opened Routing
  import opened Campaigns
  import CampaignSafety
  import Smtp = Mail

  /** The rows of a query, in some order. */
  method Listing<T(==,!new)>(s: set<T>) returns (rows: seq<T>)
    ensures Lists(rows, s)
  {
    rows := [];
    var rest := s;
    while rest != {}
      invariant NoDup(rows) && Elements(rows) == s - rest && rest <= s
      decreases rest
    {
      var x :| x in rest;
      assert x !in Elements(rows) && Elements(rows + [x]) == Elements(rows) + {x};
      rows, rest := rows + [x], rest - {x};
    }
  }

  /** The positions of a batch whose send succeeded. */
  function Successes(n: nat, sent: nat -> bool): set<nat> {
    set k: nat | k < n && sent(k)
  }

  lemma SuccessesNext(n: nat, sent: nat -> bool)
    ensures |Successes(n + 1, sent)| == |Successes(n, sent)| + if sent(n) then 1 else 0
  {
    assert Successes(n + 1, sent) == Successes(n, sent) + if sent(n) then {n} else {};
  }

  /** The reminders of a tick that went out. */
  function TotalSuccesses(batches: seq<Batch>): nat {
    if batches == [] then 0
    else
      var n := |batches| - 1;
      TotalSuccesses(batches[..n]) + |Successes(|batches[n].pending|, batches[n].sends.ok)|
  }

  lemma TotalSuccessesSnoc(batches: seq<Batch>, b: Batch)
    ensures TotalSuccesses(batches + [b]) == TotalSuccesses(batches) + |Successes(|b.pending|, b.sends.ok)|
  {
    assert (batches + [b])[..|batches|] == batches;
  }

  /** The inserts of one packet's subjects: a repeated account is ignored. */
  method InsertSubjects(ms: seq<Member>) returns (subjects: seq<Sam>)
    ensures subjects == SubjectSams(ms)
  {
    subjects := [];
    for i := 0 to |ms|
      invariant subjects == SubjectSams(ms[..i])
    {
      assert ms[..i + 1][..i] == ms[..i];
      if ms[i].sam !in subjects {
        subjects := subjects + [ms[i].sam];
      }
    }
    assert ms[..|ms|] == ms;
  }

  /** The first due campaigns are handled, from the tables at the start of the tick to those now. */
  ghost predicate TickSoFar(start: Db, db: Db, due: seq<CampaignId>, sends: nat -> Sends, queryFails: nat -> bool,
                            batches: seq<Batch>)
  {
    && |batches| <= |due| && BatchCampaigns(batches) == due[..|batches|]
    && RunBatches(start, batches, start.clock) == Some(db) && db.clock == start.clock
    && forall j | 0 <= j < |batches| :: batches[j].sends == sends(j) && !queryFails(j)
  }

  /** The last of them ended the tick. */
  predicate LastStopped(batches: seq<Batch>) {
    batches != [] && batches[|batches| - 1].Stopped()
  }

  lemma TickNext(start: Db, db: Db, due: seq<CampaignId>, sends: nat -> Sends, queryFails: nat -> bool,
                 batches: seq<Batch>, b: Batch, db': Db)
    requires TickSoFar(start, db, due, sends, queryFails, batches) && |batches| < |due| && !LastStopped(batches)
    requires b.campaign == due[|batches|] && b.sends == sends(|batches|) && !queryFails(|batches|)
    requires Lists(b.pending, Unreminded(db, b.campaign)) && db'.clock == db.clock
    requires db' == SendReminders(db, b.pending, Scheduled, b.sends, start.clock)
    ensures TickSoFar(start, db', due, sends, queryFails, batches + [b])
  {
    RunBatchesSnoc(start, batches, b, start.clock);
    assert due[..|batches| + 1] == due[..|batches|] + [due[|batches|]];
    assert BatchCampaigns(batches + [b]) == BatchCampaigns(batches) + [b.campaign];
  }

  lemma TickEnds(start: Db, db: Db, due: seq<CampaignId>, sends: nat -> Sends, queryFails: nat -> bool,
                 batches: seq<Batch>, window: nat, cut: bool)
    requires TickSoFar(start, db, due, sends, queryFails, batches)
    requires Lists(due, DueCampaigns(start, start.clock, window))
    requires |batches| == |due| || cut || LastStopped(batches)
    ensures ReminderTick(start, batches, start.clock, window, cut) == Some(db)
  {
    PrefixHandles(due, DueCampaigns(start, start.clock, window), |batches|);
  }

  /** The first due applications were launched, from the tables at the start of the tick to those now. */
  ghost predicate LaunchedSoFar(start: Db, db: Db, due: seq<AppId>, sent: nat -> nat -> bool, mishaps: nat -> Mishap,
                                launches: seq<AutoLaunch>, launched: nat)
  {
    && |launches| <= |due| && AutoApps(launches) == due[..|launches|]
    && RunLaunches(start, launches, start.clock) == Some(db) && db.clock == start.clock && db.apps == start.apps
    && launched == CountLaunched(start, launches, start.clock)
    && forall j | 0 <= j < |launches| :: launches[j].input.sent == sent(j) && launches[j].input.mishap == mishaps(j)
  }

  lemma LaunchedNext(start: Db, db: Db, due: seq<AppId>, sent: nat -> nat -> bool, mishaps: nat -> Mishap,
                     launches: seq<AutoLaunch>, launched: nat, l: AutoLaunch, db': Db)
    requires LaunchedSoFar(start, db, due, sent, mishaps, launches, launched) && |launches| < |due|
    requires l.app == due[|launches|] && l.app in db.apps && InputFor(db, l.app, l.input)
    requires l.input.sent == sent(|launches|) && l.input.mishap == mishaps(|launches|)
    requires db' == LaunchAuto(db, l, start.clock).0 && db'.clock == db.clock && db'.apps == db.apps
    ensures LaunchedSoFar(start, db', due, sent, mishaps, launches + [l],
                          launched + if LaunchAuto(db, l, start.clock).1.Launched? then 1 else 0)
  {
    RunLaunchesSnoc(start, launches, l, start.clock);
    AutoAppsSnoc(launches, l);
    assert due[..|launches| + 1] == due[..|launches|] + [due[|launches|]];
  }

  /** The mail log and the packets are those of the first i positions of a batch. */
  ghost predicate WrittenUpTo(start: Db, mail: seq<Mail>, packets: map<PacketId, Packet>, pending: seq<PacketId>,
                              kind: MailKind, sends: Sends, now: Seconds, i: nat)
    requires i <= |pending|
  {
    var db := SendReminders(start, pending[..i], kind, sends, now);
    mail == db.mail && packets == db.packets
  }

  lemma WrittenNext(start: Db, mail: seq<Mail>, packets: map<PacketId, Packet>, pending: seq<PacketId>,
                    kind: MailKind, sends: Sends, now: Seconds, i: nat)
    requires i < |pending| && WrittenUpTo(start, mail, packets, pending, kind, sends, now, i)
    ensures forall db: Db | db.mail == mail && db.packets == packets ::
              var next := RemindOne(db, pending[i], kind, sends, i, now);
              WrittenUpTo(start, next.mail, next.packets, pending, kind, sends, now, i + 1)
  {
    assert pending[..i + 1][..i] == pending[..i];
  }

  /** Where the loop ends, by reaching the last position or by an exception, the batch is done. */
  lemma WrittenAll(start: Db, mail: seq<Mail>, packets: map<PacketId, Packet>, pending: seq<PacketId>,
                   kind: MailKind, sends: Sends, now: Seconds, i: nat)
    requires i <= |pending| && WrittenUpTo(start, mail, packets, pending, kind, sends, now, i)
    requires i == |pending| || sends.Stopped(i)
    ensures SendReminders(start, pending, kind, sends, now) ==
            start.(mail := mail, packets := packets,
                   outbox := start.outbox + CampaignSafety.Deliveries(pending, kind, sends))
    ensures sends.Stopped(i) ==> sends.Stopped(|pending|)
  {
    assert pending[..|pending|] == pending;
    if sends.Stopped(i) {
      CampaignSafety.NothingAfterStop(start, pending, kind, sends, now, i);
    }
    CampaignSafety.SendRemindersLogs(start, pending, kind, sends, now);
    CampaignSafety.SendRemindersOnlyMails(start, pending, kind, sends, now);
  }

  /** Handling the first n rows of a query. */
  lemma PrefixHandles<T(!new)>(rows: seq<T>, s: set<T>, n: nat)
    requires Lists(rows, s) && n <= |rows|
    ensures Handles(rows[..n], s, n < |rows|)
  {
    assert rows[..|rows|] == rows;
    assert forall x | x in rows[..n] :: x in rows && x in Elements(rows);
  }

  /** One SMTP batch, as the function from positions to success. */
  method SendAll(reqs: seq<Smtp.Request>, cfg: Smtp.Settings, net: Smtp.Network) returns (ok: nat -> bool)
    ensures forall i: nat :: ok(i) <==> Smtp.Taken(reqs, cfg, net, i)
  {
    var results, connected, sent := Smtp.SendBatch(reqs, cfg, net);
    Smtp.ToSendExactly(reqs, cfg);
    var got := results[..];
    ok := (i: nat) => i < |got| && got[i].Some? && got[i].value.success;
  }

  class Store {
    var apps: map<AppId, App>
    var bindings: set<Binding>
    var nominees: set<Nominee>
    var members: set<Membership>
    var managers: map<Sam, Option<Sam>>
    var referenced: set<AppId>
    var campaigns: seq<Campaign>
    var packets: map<PacketId, Packet>
    var nextPacket: PacketId
    var decisions: seq<Decision>
    var mail: seq<Mail>
    var clock: Seconds
    ghost var handClosed: set<CampaignId>
    ghost var deleted: set<AppId>
    ghost var outbox: seq<Delivery>
    const env: Env

    ghost function State(): Db
      reads this
    {
      Db(apps, bindings, nominees, members, managers, referenced, campaigns, packets, nextPacket,
         decisions, mail, clock, handClosed, deleted, outbox)
    }

    /** What the statements can see of the tables. */
    function View(): (db: Db)
      reads this
      ensures db == State().(handClosed := {}, deleted := {}, outbox := [])
    {
      Db(apps, bindings, nominees, members, managers, referenced, campaigns, packets, nextPacket,
         decisions, mail, clock, {}, {}, [])
    }

    method ArchiveApplication(a: AppId) returns (reply: Reply)
      modifies this
      ensures (State(), reply) == Archive(old(State()), a)
    {
      if HasOpen(View(), a) {
        return Conflict;
      }
      if a !in apps || !apps[a].active {
        return NotFound;
      }
      apps := apps[a := apps[a].(archived := true)];
      return Reply.Ok;
    }

    method RestoreApplication(a: AppId) returns (reply: Reply)
      modifies this
      ensures (State(), reply) == Restore(old(State()), a)
    {
      if a !in apps || !apps[a].active || !apps[a].archived {
        return NotFound;
      }
      apps := apps[a := apps[a].(archived := false)];
      return Reply.Ok;
    }

    method DeleteApplication(a: AppId, dbError: bool) returns (reply: Reply)
      modifies this
      ensures (State(), reply) == Delete(old(State()), a, dbError)
    {
      if HasOpen(View(), a) {
        return Conflict;
      }
      if a !in apps || !apps[a].active {
        return NotFound;
      }
      var canHardDelete := apps[a].fromAuditing && !HasCampaign(View(), a) && a !in referenced;
      bindings := set b | b in bindings && b.app != a;
      nominees := set n | n in nominees && n.app != a;
      if canHardDelete && !dbError {
        apps := apps - {a};
        deleted := deleted + {a};
      } else {
        apps := apps[a := apps[a].(frequency := None, autoLaunch := false, mode := LineManager, dueDays := 21,
                                   archived := false)];
      }
      return Reply.Ok;
    }

    /** The inserts of a campaign's packets, each with a fresh id. */
    method InsertPackets(c: CampaignId, plans: seq<Plan>, stamp: Option<Seconds>)
      modifies `packets, `nextPacket
      ensures packets == old(packets) + NewPackets(old(nextPacket), c, plans, stamp)
      ensures nextPacket == old(nextPacket) + |plans|
    {
      var inserted: map<PacketId, Packet> := map[];
      for i := 0 to |plans|
        invariant inserted == NewPackets(nextPacket, c, plans[..i], stamp)
        modifies {}
      {
        assert plans[..i + 1][..i] == plans[..i];
        var subjects := InsertSubjects(plans[i].subjects);
        inserted := inserted[nextPacket + i := Packet(c, plans[i].recipient, plans[i].kind, subjects, None, stamp)];
      }
      assert plans[..|plans|] == plans;
      packets, nextPacket := packets + inserted, nextPacket + |plans|;
    }

    /** The log of the invitations: packet i with the result of send i. */
    method LogInvites(first: PacketId, n: nat, sent: nat -> bool)
      modifies `mail
      ensures mail == old(mail) + Invites(first, n, sent)
    {
      for i := 0 to n
        invariant mail == old(mail) + Invites(first, i, sent)
      {
        mail := mail + [Mail(first + i, Invite, sent(i))];
      }
    }

    /** The launch transaction and the invitations after it. */
    method PersistLaunch(a: AppId, dueDay: Option<Day>, plans: seq<Plan>, input: LaunchInput, now: Seconds,
                         auto: Option<nat>)
      requires a in apps
      modifies this
      ensures State() == Persist(old(State()), a, dueDay, plans, input, now, auto)
    {
      var c, first := |campaigns|, nextPacket;
      campaigns := campaigns + [NewCampaign(apps[a], a, dueDay, now, auto)];
      InsertPackets(c, plans, if apps[a].dueDays <= 7 then Some(now) else None);
      LogInvites(first, Logged(input.mishap, |plans|), input.sent);
    }

    method LaunchCampaign(a: AppId, name: string, dueDay: Option<Day>, sent: nat -> bool, mishap: Mishap, now: Seconds,
                          auto: Option<nat>) returns (reply: LaunchReply, ghost input: LaunchInput)
      modifies this
      ensures InputFor(old(State()), a, input) && input.sent == sent && input.mishap == mishap
      ensures (State(), reply) == Launch(old(State()), a, name, dueDay, input, now, auto)
    {
      var roster := Listing(Roster(View(), a));
      var picked := Listing(NomineesOf(View(), a));
      var found := LaunchInput(roster, picked, sent, mishap);
      input := found;
      if Blank(Some(name)) {
        return NoName, input;
      }
      if mishap.BeforeCommit? {
        return Failed, input;
      }
      if a !in apps || !apps[a].active {
        return NoApplication, input;
      }
      if apps[a].archived {
        return IsArchived, input;
      }
      if HasOpen(View(), a) {
        return AlreadyOpen, input;
      }
      var plans := BuildPlans(apps[a].mode, roster, picked, apps[a].owner);
      if plans.Err? {
        return Refused(plans.error), input;
      }
      reply := if mishap.NoMishap? then Launched(|campaigns|) else Failed;
      PersistLaunch(a, dueDay, plans.value, found, now, auto);
    }

    /** One decision row per decision, in order. */
    method InsertDecisions(p: PacketId, ds: seq<Input>)
      modifies this
      ensures State() == old(State()).(decisions := old(decisions) + DecisionRows(p, ds))
    {
      for i := 0 to |ds|
        invariant State() == old(State()).(decisions := decisions)
        invariant decisions == old(decisions) + DecisionRows(p, ds[..i])
      {
        decisions := decisions + [Decision(p, ds[i].subject, ds[i].verdict)];
      }
      assert ds[..|ds|] == ds;
    }

    method SubmitAttestation(p: PacketId, caller: Sam, ds: seq<Input>) returns (reply: Reply)
      requires p in packets ==> NoDup(packets[p].subjects)
      modifies this
      ensures (State(), reply) == Submit(env, old(State()), p, caller, ds)
    {
      if p !in packets || packets[p].campaign >= |campaigns| {
        return NotFound;
      }
      var c := packets[p].campaign;
      if !SamEquals(env.upper, packets[p].recipient, caller) {
        return Forbidden;
      }
      if packets[p].submittedBy.Some? || campaigns[c].status == Closed {
        return Conflict;
      }
      var fault := Validate(ds, packets[p].subjects);
      if fault.Some? {
        return BadRequest;
      }
      packets := packets[p := packets[p].(submittedBy := Some(caller))];
      InsertDecisions(p, ds);
      if campaigns[c].closure == AnyPacket {
        if campaigns[c].status == Active {
          campaigns := campaigns[c := campaigns[c].(status := Closed, closedBy := Some(p))];
        }
      } else if campaigns[c].status == Active && Outstanding(View(), c) == {} {
        campaigns := campaigns[c := campaigns[c].(status := Closed)];
      }
      return Reply.Ok;
    }

    method CloseCampaignByHand(c: CampaignId) returns (reply: Reply)
      modifies this
      ensures (State(), reply) == CloseCampaign(old(State()), c)
    {
      if !Open(View(), c) {
        return NotFound;
      }
      campaigns := campaigns[c := campaigns[c].(status := Closed)];
      handClosed := handClosed + {c};
      return Reply.Ok;
    }

    /** The log row and the stamp of one position; a failing statement raises. */
    method LogReminder(p: PacketId, kind: MailKind, sends: Sends, i: nat, now: Seconds)
      returns (counted: bool, raised: bool)
      requires !sends.Stopped(i)
      modifies `mail, `packets
      ensures mail == RemindOne(old(State()), p, kind, sends, i, now).mail
      ensures packets == RemindOne(old(State()), p, kind, sends, i, now).packets
      ensures raised == sends.Stopped(i + 1) && (!raised ==> counted == sends.ok(i))
    {
      counted, raised := false, false;
      if sends.stop == BeforeRow(i) {
        return false, true;
      }
      mail := mail + [Mail(p, kind, sends.ok(i))];
      if sends.ok(i) {
        counted := true;
        if sends.stop == BeforeStamp(i) {
          return true, true;
        }
        if p in packets {
          packets := packets[p := packets[p].(reminded := Some(now))];
        }
      }
    }

    /**
     SendRemindersAsync after the batch is delivered: log each result, stamp the successes, count them,
     until a statement fails.
     */
    method LogReminders(pending: seq<PacketId>, kind: MailKind, sends: Sends, now: Seconds)
      returns (count: nat, raised: bool)
      modifies this
      ensures State() == SendReminders(old(State()), pending, kind, sends, now)
      ensures raised == sends.Stopped(|pending|)
      ensures !raised ==> count == |Successes(|pending|, sends.ok)|
    {
      ghost var start := State();
      count, raised := 0, false;
      var i := 0;
      while i < |pending| && !raised
        invariant i <= |pending| && raised == sends.Stopped(i)
        invariant WrittenUpTo(start, mail, packets, pending, kind, sends, now, i)
        invariant !raised ==> count == |Successes(i, sends.ok)|
        modifies `mail, `packets
      {
        SuccessesNext(i, sends.ok);
        WrittenNext(start, mail, packets, pending, kind, sends, now, i);
        var counted: bool;
        counted, raised := LogReminder(pending[i], kind, sends, i, now);
        count := count + if counted then 1 else 0;
        i := i + 1;
      }
      WrittenAll(start, mail, packets, pending, kind, sends, now, i);
      outbox := outbox + CampaignSafety.Deliveries(pending, kind, sends);
    }

    /** The whole of SendRemindersAsync: one request per packet, delivered as a batch, then logged. */
    method DeliverReminders(pending: seq<PacketId>, reqs: seq<Smtp.Request>, cfg: Smtp.Settings, net: Smtp.Network,
                            kind: MailKind, stop: Stop, now: Seconds)
      returns (count: nat, raised: bool, ghost sends: Sends)
      requires |reqs| == |pending|
      modifies this
      ensures State() == SendReminders(old(State()), pending, kind, sends, now)
      ensures sends.stop == stop && raised == sends.Stopped(|pending|)
      ensures forall i: nat :: sends.ok(i) <==> Smtp.Taken(reqs, cfg, net, i)
    {
      var ok := SendAll(reqs, cfg, net);
      sends := Sends(ok, stop);
      count, raised := LogReminders(pending, kind, Sends(ok, stop), now);
    }

    /** The invitations of a launch, the same way. */
    method DeliverInvites(first: PacketId, reqs: seq<Smtp.Request>, cfg: Smtp.Settings, net: Smtp.Network, n: nat)
      returns (ghost ok: nat -> bool)
      requires n <= |reqs|
      modifies `mail
      ensures mail == old(mail) + Invites(first, n, ok)
      ensures forall i: nat :: ok(i) <==> Smtp.Taken(reqs, cfg, net, i)
    {
      var results := SendAll(reqs, cfg, net);
      ok := results;
      LogInvites(first, n, results);
    }

    method RemindCampaign(c: CampaignId, sends: Sends, now: Seconds)
      returns (reply: Reply, count: nat, ghost pending: seq<PacketId>)
      modifies this
      ensures Lists(pending, Outstanding(old(State()), c))
      ensures (State(), reply) == Remind(old(State()), c, pending, sends, now)
      ensures reply == Reply.Ok ==> count == |Successes(|pending|, sends.ok)|
    {
      var rows := Listing(Outstanding(View(), c));
      pending, count := rows, 0;
      if c >= |campaigns| || campaigns[c].status != Active {
        return Conflict, 0, pending;
      }
      var raised: bool;
      count, raised := LogReminders(rows, Manual, sends, now);
      reply := if raised then Reply.Error else Reply.Ok;
    }

    /** The campaign is looked up first, then its outstanding packet of that id. */
    method RemindSinglePacket(c: CampaignId, p: PacketId, sends: Sends, now: Seconds)
      returns (reply: Reply, count: nat)
      modifies this
      ensures (State(), reply) == RemindSingle(old(State()), c, p, sends, now)
      ensures reply == Reply.Ok ==> count == if sends.ok(0) then 1 else 0
    {
      if c >= |campaigns| || campaigns[c].status != Active {
        return Conflict, 0;
      }
      if p !in packets || packets[p].campaign != c || packets[p].submittedBy.Some? {
        return Conflict, 0;
      }
      SuccessesNext(0, sends.ok);
      assert Successes(0, sends.ok) == {};
      var raised: bool;
      count, raised := LogReminders([p], Manual, sends, now);
      reply := if raised then Reply.Error else Reply.Ok;
    }

    /** One due campaign: its packets outstanding and not yet reminded by now. */
    method RemindDue(c: CampaignId, sends: Sends) returns (count: nat, raised: bool, ghost batch: Batch)
      modifies this
      ensures clock == old(clock) && batch.campaign == c && batch.sends == sends
      ensures Lists(batch.pending, Unreminded(old(State()), c))
      ensures State() == SendReminders(old(State()), batch.pending, Scheduled, sends, clock)
      ensures raised == batch.Stopped() && (!raised ==> count == |Successes(|batch.pending|, sends.ok)|)
    {
      var rows := Listing(Unreminded(View(), c));
      assert Unreminded(View(), c) == Unreminded(State(), c);
      batch := Batch(c, rows, sends);
      CampaignSafety.SendRemindersOnlyMails(State(), rows, Scheduled, sends, clock);
      count, raised := LogReminders(rows, Scheduled, sends, clock);
    }

    /**
     SendDueRemindersAsync: the due campaigns once, then each one's outstanding packets at its turn. An
     exception ends the tick: of a campaign's statements, or of the query for its packets.
     */
    method SendDueReminders(window: nat, sends: nat -> Sends, queryFails: nat -> bool)
      returns (total: nat, raised: bool, ghost batches: seq<Batch>, ghost cut: bool)
      modifies this
      ensures ReminderTick(old(State()), batches, clock, window, cut) == Some(State())
      ensures raised <==> cut || LastStopped(batches)
      ensures !raised ==> total == TotalSuccesses(batches)
      ensures forall i | 0 <= i < |batches| :: batches[i].sends == sends(i) && !queryFails(i)
      ensures cut ==> queryFails(|batches|)
    {
      ghost var start := State();
      var due := Listing(DueCampaigns(View(), clock, window));
      assert DueCampaigns(View(), clock, window) == DueCampaigns(start, clock, window);
      total, raised, batches, cut := 0, false, [], false;
      var i := 0;
      while i < |due| && !raised
        invariant i == |batches| && TickSoFar(start, State(), due, sends, queryFails, batches)
        invariant raised <==> cut || LastStopped(batches)
        invariant !raised ==> total == TotalSuccesses(batches)
        invariant cut ==> queryFails(i)
        decreases |due| - i, !raised
      {
        if queryFails(i) {
          raised, cut := true, true;
        } else {
          ghost var before := State();
          var count, stopped, batch := RemindDue(due[i], sends(i));
          total, raised := total + count, stopped;
          TickNext(start, before, due, sends, queryFails, batches, batch, State());
          TotalSuccessesSnoc(batches, batch);
          batches := batches + [batch];
          i := i + 1;
        }
      }
      TickEnds(start, State(), due, sends, queryFails, batches, window, cut);
    }

    /** The launch of one due application: counted if it returns, logged and passed over if it throws. */
    method AutoLaunchOne(a: AppId, name: string, results: nat -> bool, mishap: Mishap)
      returns (launched: bool, ghost l: AutoLaunch)
      requires a in apps
      modifies this
      ensures clock == old(clock) && apps == old(apps)
      ensures l.app == a && l.name == name && l.input.sent == results && l.input.mishap == mishap
      ensures InputFor(old(State()), a, l.input)
      ensures State() == LaunchAuto(old(State()), l, clock).0
      ensures launched <==> LaunchAuto(old(State()), l, clock).1.Launched?
    {
      var reply, input := LaunchCampaign(a, name, None, results, mishap, clock, apps[a].frequency);
      launched, l := reply.Launched?, AutoLaunch(a, name, input);
    }

    /**
     AutoLaunchDueAsync: the due applications once, then a launch for each. The tick ends when the log row
     for a launch that did not return cannot be written.
     */
    method AutoLaunchDue(name: string, sent: nat -> nat -> bool, mishaps: nat -> Mishap, logFails: nat -> bool)
      returns (launched: nat, raised: bool, ghost launches: seq<AutoLaunch>)
      modifies this
      ensures AutoLaunchTick(env, old(State()), launches, clock, raised) == Some(State())
      ensures RunLaunches(old(State()), launches, clock).Some?
      ensures launched == CountLaunched(old(State()), launches, clock)
      ensures forall i | 0 <= i < |launches| ::
                launches[i].input.sent == sent(i) && launches[i].input.mishap == mishaps(i)
      ensures raised ==> launches != [] && logFails(|launches| - 1)
    {
      ghost var start := State();
      var due := Listing(DueApps(env, View(), clock));
      assert DueApps(env, View(), clock) == DueApps(env, start, clock);
      forall j | 0 <= j < |due| ensures due[j] in apps {
        assert due[j] in Elements(due);
      }
      launched, raised, launches := 0, false, [];
      var i := 0;
      while i < |due| && !raised
        invariant i == |launches| && LaunchedSoFar(start, State(), due, sent, mishaps, launches, launched)
        invariant raised ==> i > 0 && logFails(i - 1)
      {
        ghost var before := State();
        var made, l := AutoLaunchOne(due[i], name, sent(i), mishaps(i));
        LaunchedNext(start, before, due, sent, mishaps, launches, launched, l, State());
        if made {
          launched := launched + 1;
        } else if logFails(i) {
          raised := true;
        }
        launches := launches + [l];
        i := i + 1;
      }
      PrefixHandles(due, DueApps(env, start, clock), i);
    }
  }
}
