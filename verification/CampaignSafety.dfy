/** The invariant of the attestation tables, kept by every service call. */
module CampaignSafety {
  import opened Common
  import opened Decisions
  import opened Routing
  import opened Campaigns

  // ----- the invariant -----

  /** One open campaign per application, none for an archived one, no campaign without its application. */
  ghost predicate Apps(db: Db) {
    && (forall c | 0 <= c < |db.campaigns| :: db.campaigns[c].app in db.apps)
    && (forall c: CampaignId, d: CampaignId | Open(db, c) && Open(db, d)
                                          && db.campaigns[c].app == db.campaigns[d].app :: c == d)
    && (forall c: CampaignId | Open(db, c) :: !db.apps[db.campaigns[c].app].archived)
    && db.deleted !! db.apps.Keys
  }

  ghost predicate Packets(db: Db) {
    forall p | p in db.packets ::
      && p < db.nextPacket && db.packets[p].campaign < |db.campaigns|
      && db.packets[p].subjects != [] && NoDup(db.packets[p].subjects)
  }

  ghost predicate InCampaign(db: Db, p: PacketId, c: CampaignId) {
    p in db.packets && db.packets[p].campaign == c
  }

  ghost predicate Submitted(db: Db, p: PacketId) {
    p in db.packets && db.packets[p].submittedBy.Some?
  }

  /** Closed and why, in terms of the packets. */
  ghost predicate LawAt(db: Db, c: CampaignId)
    requires c < |db.campaigns|
  {
    var row := db.campaigns[c];
    && row.status != Draft
    && (exists p: PacketId :: InCampaign(db, p, c))
    && (c in db.handClosed ==> row.status == Closed && row.closedBy == None)
    && if row.closure == AllPackets then
         row.closedBy == None && (c !in db.handClosed ==> (row.status == Closed <==> Outstanding(db, c) == {}))
       else
         && (forall p: PacketId | InCampaign(db, p, c) && Submitted(db, p) ::
               row.status == Closed && row.closedBy == Some(p))
         && (row.closedBy.Some? ==> InCampaign(db, row.closedBy.value, c) && Submitted(db, row.closedBy.value))
         && (row.status == Closed && c !in db.handClosed ==> row.closedBy.Some?)
  }

  ghost predicate Law(db: Db) {
    && (forall c | 0 <= c < |db.campaigns| :: LawAt(db, c))
    && (forall c | c in db.handClosed :: c < |db.campaigns|)
  }

  function CountDecisions(rows: seq<Decision>, p: PacketId, s: Sam): nat {
    if rows == [] then 0
    else CountDecisions(rows[..|rows| - 1], p, s)
         + if rows[|rows| - 1].packet == p && rows[|rows| - 1].subject == s then 1 else 0
  }

  /** One decision per subject of a submitted packet, and no others. */
  ghost predicate Records(db: Db) {
    forall p: PacketId, s ::
      CountDecisions(db.decisions, p, s) == if Submitted(db, p) && s in db.packets[p].subjects then 1 else 0
  }

  function ScheduledOk(mail: seq<Mail>, p: PacketId): nat {
    if mail == [] then 0
    else ScheduledOk(mail[..|mail| - 1], p) + if mail[|mail| - 1] == Mail(p, Scheduled, true) then 1 else 0
  }

  /** How many scheduled reminders the mail server took for a packet. */
  function Delivered(outbox: seq<Delivery>, p: PacketId): nat {
    if outbox == [] then 0
    else
      var last := outbox[|outbox| - 1];
      Delivered(outbox[..|outbox| - 1], p) + if last.packet == p && last.kind == Scheduled then 1 else 0
  }

  /** Those after which the packet was stamped. */
  function Stamped(outbox: seq<Delivery>, p: PacketId): nat {
    multiset(outbox)[Delivery(p, Scheduled, true, true)]
  }

  /** Those after which a statement failed before the stamp, with and without a row in the log. */
  function LostAfterRow(outbox: seq<Delivery>, p: PacketId): nat {
    multiset(outbox)[Delivery(p, Scheduled, true, false)]
  }

  function LostBeforeRow(outbox: seq<Delivery>, p: PacketId): nat {
    multiset(outbox)[Delivery(p, Scheduled, false, false)]
  }

  function Lost(outbox: seq<Delivery>, p: PacketId): nat {
    LostAfterRow(outbox, p) + LostBeforeRow(outbox, p)
  }

  /** Every delivery is accounted for; one stamp at most, and the log has the deliveries whose row was written. */
  ghost predicate RemindersOf(db: Db, p: PacketId) {
    && Delivered(db.outbox, p) == Stamped(db.outbox, p) + Lost(db.outbox, p)
    && ScheduledOk(db.mail, p) == Stamped(db.outbox, p) + LostAfterRow(db.outbox, p)
    && Stamped(db.outbox, p) <= 1
    && (Stamped(db.outbox, p) == 1 ==> p in db.packets && db.packets[p].reminded.Some?)
  }

  ghost predicate Reminders(db: Db) {
    forall p: PacketId :: RemindersOf(db, p)
  }

  /** i is the last launch of its application before j. */
  ghost predicate Previous(campaigns: seq<Campaign>, i: nat, j: nat) {
    && i < j < |campaigns| && campaigns[i].app == campaigns[j].app
    && forall k | i < k < j :: campaigns[k].app != campaigns[j].app
  }

  ghost predicate Cadence(env: Env, db: Db) {
    && (forall i | 0 <= i < |db.campaigns| :: db.campaigns[i].createdAt <= db.clock)
    && (forall i, j | 0 <= i < j < |db.campaigns| :: db.campaigns[i].createdAt <= db.campaigns[j].createdAt)
    && (forall i: nat, j: nat | Previous(db.campaigns, i, j) && db.campaigns[j].auto.Some? ::
          env.addMonths(db.campaigns[i].createdAt, db.campaigns[j].auto.value) <= db.campaigns[j].createdAt)
  }

  ghost predicate Inv(env: Env, db: Db) {
    Apps(db) && Packets(db) && Law(db) && Records(db) && Reminders(db) && Cadence(env, db)
  }

  lemma KeptStamps(db: Db, db': Db)
    requires Reminders(db) && db'.mail == db.mail && db'.outbox == db.outbox
    requires forall p | p in db.packets :: p in db'.packets && db'.packets[p].reminded == db.packets[p].reminded
    ensures Reminders(db')
  {
    forall p: PacketId ensures RemindersOf(db', p) {
      assert RemindersOf(db, p);
    }
  }

  /** Calls that leave campaigns, packets, decisions and mail alone. */
  lemma SameTables(env: Env, db: Db, db': Db)
    requires Inv(env, db) && Apps(db')
    requires db'.campaigns == db.campaigns && db'.packets == db.packets && db'.nextPacket == db.nextPacket
    requires db'.decisions == db.decisions && db'.mail == db.mail && db'.clock >= db.clock
    requires db'.handClosed == db.handClosed && db'.outbox == db.outbox
    ensures Inv(env, db')
  {
    KeptStamps(db, db');
    forall c | 0 <= c < |db.campaigns| ensures LawAt(db', c) {
      assert LawAt(db, c);
      assert forall p: PacketId :: InCampaign(db', p, c) <==> InCampaign(db, p, c);
      assert forall p: PacketId :: Submitted(db', p) <==> Submitted(db, p);
    }
    assert forall p: PacketId :: Submitted(db', p) <==> Submitted(db, p);
  }

  lemma ArchiveKeepsApps(db: Db, a: AppId)
    requires Apps(db)
    ensures Apps(Archive(db, a).0) && Apps(Restore(db, a).0)
  {
    assert forall d: Db, c: CampaignId | d.campaigns == db.campaigns :: Open(d, c) <==> Open(db, c);
    assert forall c: CampaignId | Open(db, c) && db.campaigns[c].app == a :: HasOpen(db, a);
  }

  lemma DeleteKeepsApps(db: Db, a: AppId)
    requires Apps(db) && !HasOpen(db, a) && a in db.apps
    ensures Apps(SoftUnregister(db, a))
    ensures !HasCampaign(db, a) ==> Apps(HardDelete(db, a))
  {
    assert forall d: Db, c: CampaignId | d.campaigns == db.campaigns :: Open(d, c) <==> Open(db, c);
    assert forall c: CampaignId | Open(db, c) :: db.campaigns[c].app != a;
  }

  // ----- launch -----

  lemma {:induction false} NewPacketsAre(first: PacketId, c: CampaignId, plans: seq<Plan>, reminded: Option<Seconds>)
    ensures forall p :: p in NewPackets(first, c, plans, reminded) <==> first <= p < first + |plans|
    ensures forall k | 0 <= k < |plans| ::
              NewPackets(first, c, plans, reminded)[first + k] == PacketFor(c, plans[k], reminded)
  {
    if plans != [] {
      NewPacketsAre(first, c, plans[..|plans| - 1], reminded);
    }
  }

  lemma {:induction false} SubjectSamsAre(ms: seq<Member>)
    ensures NoDup(SubjectSams(ms)) && (ms != [] ==> SubjectSams(ms) != [])
    ensures forall s :: s in SubjectSams(ms) <==> exists x :: x in ms && x.sam == s
  {
    if ms != [] {
      SubjectSamsAre(ms[..|ms| - 1]);
      assert ms == ms[..|ms| - 1] + [ms[|ms| - 1]];
    }
  }

  lemma PlansAreNotEmpty(mode: Mode, roster: seq<Member>, nominees: seq<Sam>, owner: Option<Sam>, plans: seq<Plan>)
    requires Plans(mode, roster, nominees, owner) == Result.Ok(plans)
    ensures plans != [] && forall i | 0 <= i < |plans| :: plans[i].subjects != []
  {
    if mode == Nominees {
      NomineesGetTheRoster(roster, nominees, owner, plans);
    } else {
      RecipientsDistinct(roster, owner, plans);
      var k := RoutedPlan(roster, owner, plans, roster[0]);
    }
  }

  lemma PersistKeepsApps(db: Db, a: AppId, dueDay: Option<Day>, plans: seq<Plan>, input: LaunchInput, now: Seconds,
                         auto: Option<nat>)
    requires Apps(db) && a in db.apps && !db.apps[a].archived && !HasOpen(db, a)
    ensures Apps(Persist(db, a, dueDay, plans, input, now, auto))
  {
    var db' := Persist(db, a, dueDay, plans, input, now, auto);
    forall c: CampaignId | Open(db', c)
      ensures c == |db.campaigns| || (Open(db, c) && db.campaigns[c].app != a)
    {
      assert c < |db.campaigns| && db.campaigns[c].app == a ==> HasOpen(db, a);
    }
  }

  lemma PersistKeepsPackets(db: Db, a: AppId, dueDay: Option<Day>, plans: seq<Plan>, input: LaunchInput, now: Seconds,
                          auto: Option<nat>)
    requires Packets(db) && a in db.apps && forall i | 0 <= i < |plans| :: plans[i].subjects != []
    ensures Packets(Persist(db, a, dueDay, plans, input, now, auto))
    ensures var db' := Persist(db, a, dueDay, plans, input, now, auto);
            && (forall p: PacketId ::
                  p in db'.packets <==> p in db.packets || db.nextPacket <= p < db.nextPacket + |plans|)
            && (forall p | p in db.packets :: db'.packets[p] == db.packets[p])
            && (forall p | p in db'.packets && p !in db.packets ::
                  db'.packets[p].campaign == |db.campaigns| && db'.packets[p].submittedBy == None)
  {
    var stamp := if db.apps[a].dueDays <= 7 then Some(now) else None;
    NewPacketsAre(db.nextPacket, |db.campaigns|, plans, stamp);
    forall p | p in NewPackets(db.nextPacket, |db.campaigns|, plans, stamp)
      ensures NewPackets(db.nextPacket, |db.campaigns|, plans, stamp)[p]
              == PacketFor(|db.campaigns|, plans[p - db.nextPacket], stamp)
      ensures SubjectSams(plans[p - db.nextPacket].subjects) != []
      ensures NoDup(SubjectSams(plans[p - db.nextPacket].subjects))
    {
      var k := p - db.nextPacket;
      assert p == db.nextPacket + k;
      SubjectSamsAre(plans[k].subjects);
    }
  }

  lemma PersistKeepsLaw(db: Db, a: AppId, dueDay: Option<Day>, plans: seq<Plan>, input: LaunchInput, now: Seconds,
                        auto: Option<nat>)
    requires Packets(db) && Law(db) && a in db.apps && plans != []
    requires forall i | 0 <= i < |plans| :: plans[i].subjects != []
    ensures Law(Persist(db, a, dueDay, plans, input, now, auto))
  {
    var db' := Persist(db, a, dueDay, plans, input, now, auto);
    PersistKeepsPackets(db, a, dueDay, plans, input, now, auto);
    forall c | 0 <= c < |db'.campaigns| ensures LawAt(db', c) {
      if c == |db.campaigns| {
        assert InCampaign(db', db.nextPacket, c);
        assert db.nextPacket in Outstanding(db', c);
        assert forall p: PacketId | InCampaign(db', p, c) :: !Submitted(db', p);
      } else {
        assert LawAt(db, c);
        assert forall p: PacketId :: InCampaign(db', p, c) <==> InCampaign(db, p, c);
        assert forall p: PacketId | InCampaign(db', p, c) :: Submitted(db', p) <==> Submitted(db, p);
        assert Outstanding(db', c) == Outstanding(db, c);
      }
    }
  }

  lemma PersistKeepsRecords(db: Db, a: AppId, dueDay: Option<Day>, plans: seq<Plan>, input: LaunchInput, now: Seconds,
                          auto: Option<nat>)
    requires Packets(db) && Records(db) && a in db.apps && forall i | 0 <= i < |plans| :: plans[i].subjects != []
    ensures Records(Persist(db, a, dueDay, plans, input, now, auto))
  {
    var db' := Persist(db, a, dueDay, plans, input, now, auto);
    PersistKeepsPackets(db, a, dueDay, plans, input, now, auto);
    assert forall p: PacketId :: Submitted(db', p) <==> Submitted(db, p);
  }

  lemma {:induction false} MailAppend(mail: seq<Mail>, more: seq<Mail>, p: PacketId)
    ensures ScheduledOk(mail + more, p) == ScheduledOk(mail, p) + ScheduledOk(more, p)
  {
    if more == [] {
      assert mail + more == mail;
    } else {
      MailAppend(mail, more[..|more| - 1], p);
      assert (mail + more)[..|mail + more| - 1] == mail + more[..|more| - 1];
    }
  }

  lemma {:induction false} NoScheduled(mail: seq<Mail>, p: PacketId)
    requires forall i | 0 <= i < |mail| :: mail[i] != Mail(p, Scheduled, true)
    ensures ScheduledOk(mail, p) == 0
  {
    if mail != [] {
      NoScheduled(mail[..|mail| - 1], p);
    }
  }

  lemma PersistKeepsReminders(db: Db, a: AppId, dueDay: Option<Day>, plans: seq<Plan>, input: LaunchInput,
                          now: Seconds, auto: Option<nat>)
    requires Packets(db) && Reminders(db) && a in db.apps && forall i | 0 <= i < |plans| :: plans[i].subjects != []
    ensures Reminders(Persist(db, a, dueDay, plans, input, now, auto))
  {
    var db' := Persist(db, a, dueDay, plans, input, now, auto);
    PersistKeepsPackets(db, a, dueDay, plans, input, now, auto);
    forall p: PacketId
      ensures RemindersOf(db', p)
    {
      assert RemindersOf(db, p);
      MailAppend(db.mail, Invites(db.nextPacket, Logged(input.mishap, |plans|), input.sent), p);
      NoScheduled(Invites(db.nextPacket, Logged(input.mishap, |plans|), input.sent), p);
    }
  }

  /** With launches in the order of the clock, MAX(created_at) is the last launch's. */
  lemma {:induction false} LastCreatedIsLast(campaigns: seq<Campaign>, a: AppId, i: nat)
    requires forall j, k | 0 <= j < k < |campaigns| :: campaigns[j].createdAt <= campaigns[k].createdAt
    requires i < |campaigns| && campaigns[i].app == a && forall k | i < k < |campaigns| :: campaigns[k].app != a
    ensures LastCreated(campaigns, a) == Some(campaigns[i].createdAt)
  {
    var init := campaigns[..|campaigns| - 1];
    if i < |init| {
      LastCreatedIsLast(init, a, i);
    } else {
      LastCreatedIsOf(init, a);
    }
  }

  lemma {:induction false} LastCreatedIsOf(campaigns: seq<Campaign>, a: AppId)
    ensures LastCreated(campaigns, a).Some? ==>
              exists k :: 0 <= k < |campaigns| && campaigns[k].createdAt == LastCreated(campaigns, a).value
  {
    if campaigns != [] {
      var init := campaigns[..|campaigns| - 1];
      LastCreatedIsOf(init, a);
      if LastCreated(init, a).Some? {
        var k :| 0 <= k < |init| && init[k].createdAt == LastCreated(init, a).value;
        assert campaigns[k].createdAt == LastCreated(init, a).value;
      }
      assert campaigns[|init|] == campaigns[|campaigns| - 1];
    }
  }

  /** An automatic launch is only made when its application's cadence has passed. */
  ghost predicate Elapsed(env: Env, db: Db, a: AppId, auto: Option<nat>) {
    auto.Some? && LastCreated(db.campaigns, a).Some? ==>
      env.addMonths(LastCreated(db.campaigns, a).value, auto.value) <= db.clock
  }

  lemma PersistKeepsCadence(env: Env, db: Db, a: AppId, dueDay: Option<Day>, plans: seq<Plan>, input: LaunchInput,
                          auto: Option<nat>)
    requires Cadence(env, db) && a in db.apps && Elapsed(env, db, a, auto)
    ensures Cadence(env, Persist(db, a, dueDay, plans, input, db.clock, auto))
  {
    var cs := Persist(db, a, dueDay, plans, input, db.clock, auto).campaigns;
    forall i: nat, j: nat | Previous(cs, i, j) && cs[j].auto.Some?
      ensures env.addMonths(cs[i].createdAt, cs[j].auto.value) <= cs[j].createdAt
    {
      assert forall k | i < k < |db.campaigns| :: db.campaigns[k] == cs[k];
      if j < |db.campaigns| {
        assert Previous(db.campaigns, i, j);
      } else {
        LastCreatedIsLast(db.campaigns, a, i);
      }
    }
  }

  lemma LaunchKeepsInv(env: Env, db: Db, a: AppId, name: string, dueDay: Option<Day>, input: LaunchInput,
                       auto: Option<nat>)
    requires Inv(env, db) && Elapsed(env, db, a, auto)
    ensures Inv(env, Launch(db, a, name, dueDay, input, db.clock, auto).0)
  {
    if Launch(db, a, name, dueDay, input, db.clock, auto).0 != db {
      var plans := Plans(db.apps[a].mode, input.roster, input.nominees, db.apps[a].owner).value;
      PlansAreNotEmpty(db.apps[a].mode, input.roster, input.nominees, db.apps[a].owner, plans);
      PersistKeepsApps(db, a, dueDay, plans, input, db.clock, auto);
      PersistKeepsPackets(db, a, dueDay, plans, input, db.clock, auto);
      PersistKeepsLaw(db, a, dueDay, plans, input, db.clock, auto);
      PersistKeepsRecords(db, a, dueDay, plans, input, db.clock, auto);
      PersistKeepsReminders(db, a, dueDay, plans, input, db.clock, auto);
      PersistKeepsCadence(env, db, a, dueDay, plans, input, auto);
    }
  }

  // ----- submit and close -----

  lemma {:induction false} DecisionsAppend(rows: seq<Decision>, more: seq<Decision>, p: PacketId, s: Sam)
    ensures CountDecisions(rows + more, p, s) == CountDecisions(rows, p, s) + CountDecisions(more, p, s)
  {
    if more == [] {
      assert rows + more == rows;
    } else {
      DecisionsAppend(rows, more[..|more| - 1], p, s);
      assert (rows + more)[..|rows + more| - 1] == rows + more[..|more| - 1];
    }
  }

  lemma {:induction false} DecisionRowsCount(p: PacketId, ds: seq<Input>, q: PacketId, s: Sam)
    requires forall i, j | 0 <= i < j < |ds| :: ds[i].subject != ds[j].subject
    ensures CountDecisions(DecisionRows(p, ds), q, s) == if p == q && Decided(ds, s) then 1 else 0
  {
    if ds != [] {
      var init := ds[..|ds| - 1];
      DecisionRowsCount(p, init, q, s);
      assert DecisionRows(p, ds)[..|ds| - 1] == DecisionRows(p, init);
      assert Decided(ds, s) <==> Decided(init, s) || ds[|ds| - 1].subject == s by {
        assert forall k | 0 <= k < |init| :: init[k] == ds[k];
      }
    }
  }

  /** The state a submission that is accepted starts from. */
  ghost predicate Submittable(db: Db, p: PacketId, ds: seq<Input>) {
    && p in db.packets && db.packets[p].campaign < |db.campaigns| && db.packets[p].submittedBy == None
    && db.campaigns[db.packets[p].campaign].status != Closed && Complete(ds, db.packets[p].subjects)
  }

  lemma DecidedAreSubjects(ds: seq<Input>, subjects: seq<Sam>, s: Sam)
    requires Complete(ds, subjects)
    ensures Decided(ds, s) <==> s in subjects
  {
    if Decided(ds, s) {
      var k :| 0 <= k < |ds| && ds[k].subject == s;
    }
  }

  /** The decisions about one subject of one packet, after a claim. */
  lemma ClaimedCount(db: Db, p: PacketId, caller: Sam, ds: seq<Input>, q: PacketId, s: Sam)
    requires Submittable(db, p, ds)
    ensures CountDecisions(Claimed(db, p, caller, ds).decisions, q, s) ==
            CountDecisions(db.decisions, q, s) + if q == p && s in db.packets[p].subjects then 1 else 0
  {
    DecisionsAppend(db.decisions, DecisionRows(p, ds), q, s);
    DecisionRowsCount(p, ds, q, s);
    DecidedAreSubjects(ds, db.packets[p].subjects, s);
  }

  lemma ClaimedKeepsRecords(db: Db, p: PacketId, caller: Sam, ds: seq<Input>)
    requires Records(db) && Submittable(db, p, ds)
    ensures Records(Claimed(db, p, caller, ds))
  {
    var db' := Claimed(db, p, caller, ds);
    forall q: PacketId, s
      ensures CountDecisions(db'.decisions, q, s) == if Submitted(db', q) && s in db'.packets[q].subjects then 1 else 0
    {
      ClaimedCount(db, p, caller, ds, q, s);
      assert Submitted(db', q) <==> Submitted(db, q) || q == p;
    }
  }

  /** Outstanding packets after a claim, in any campaign. */
  lemma ClaimedOutstanding(db: Db, p: PacketId, caller: Sam, ds: seq<Input>, c: CampaignId)
    requires Submittable(db, p, ds)
    ensures var db' := AfterSubmit(db, p, caller, ds);
            && Outstanding(db', c) == Outstanding(Claimed(db, p, caller, ds), c) == Outstanding(db, c) - {p}
            && (forall q: PacketId :: InCampaign(db', q, c) <==> InCampaign(db, q, c))
            && (forall q: PacketId :: Submitted(db', q) <==> Submitted(db, q) || q == p)
  {
  }

  lemma SubmitKeepsLaw(db: Db, p: PacketId, caller: Sam, ds: seq<Input>)
    requires Law(db) && Submittable(db, p, ds)
    ensures Law(AfterSubmit(db, p, caller, ds))
  {
    var db', at := AfterSubmit(db, p, caller, ds), db.packets[p].campaign;
    forall c | 0 <= c < |db'.campaigns| ensures LawAt(db', c) {
      assert LawAt(db, c);
      ClaimedOutstanding(db, p, caller, ds, c);
      if c != at {
        assert p !in Outstanding(db, c) && db'.campaigns[c] == db.campaigns[c];
      } else {
        assert forall q: PacketId | InCampaign(db, q, c) && db.campaigns[c].closure == AnyPacket :: !Submitted(db, q);
      }
    }
  }

  lemma AfterSubmitKeepsInv(env: Env, db: Db, p: PacketId, caller: Sam, ds: seq<Input>)
    requires Inv(env, db) && Submittable(db, p, ds)
    ensures Inv(env, AfterSubmit(db, p, caller, ds))
  {
    var claimed, db' := Claimed(db, p, caller, ds), AfterSubmit(db, p, caller, ds);
    SubmitKeepsLaw(db, p, caller, ds);
    KeptStamps(db, db');
    ClaimedKeepsRecords(db, p, caller, ds);
    assert forall q: PacketId :: Submitted(db', q) <==> Submitted(claimed, q);
    CampaignRowsKeepApps(db, db');
    CampaignRowsKeepCadence(env, db, db');
  }

  lemma SubmitKeepsInv(env: Env, db: Db, p: PacketId, caller: Sam, ds: seq<Input>)
    requires Inv(env, db)
    ensures Inv(env, Submit(env, db, p, caller, ds).0)
  {
    if Submit(env, db, p, caller, ds).1 == Reply.Ok {
      AfterSubmitKeepsInv(env, db, p, caller, ds);
    }
  }

  /** The same campaigns, some of them closed since. */
  ghost predicate ClosedSince(db: Db, db': Db) {
    && |db'.campaigns| == |db.campaigns| && db'.apps == db.apps && db'.deleted == db.deleted && db'.clock == db.clock
    && forall c | 0 <= c < |db.campaigns| ::
         && db'.campaigns[c].app == db.campaigns[c].app && db'.campaigns[c].createdAt == db.campaigns[c].createdAt
         && db'.campaigns[c].auto == db.campaigns[c].auto
         && (db'.campaigns[c].status == Closed || db'.campaigns[c].status == db.campaigns[c].status)
  }

  lemma CampaignRowsKeepApps(db: Db, db': Db)
    requires Apps(db) && ClosedSince(db, db')
    ensures Apps(db')
  {
    assert forall c: CampaignId | Open(db', c) :: Open(db, c);
  }

  lemma CampaignRowsKeepCadence(env: Env, db: Db, db': Db)
    requires Cadence(env, db) && ClosedSince(db, db')
    ensures Cadence(env, db')
  {
    assert forall i: nat, j: nat | Previous(db'.campaigns, i, j) :: Previous(db.campaigns, i, j);
  }

  lemma CloseKeepsInv(env: Env, db: Db, c: CampaignId)
    requires Inv(env, db)
    ensures Inv(env, CloseCampaign(db, c).0)
  {
    var db' := CloseCampaign(db, c).0;
    if Open(db, c) {
      forall d | 0 <= d < |db'.campaigns| ensures LawAt(db', d) {
        assert LawAt(db, d);
        assert forall p: PacketId :: InCampaign(db', p, d) <==> InCampaign(db, p, d);
        assert forall p: PacketId :: Submitted(db', p) <==> Submitted(db, p);
        assert Outstanding(db', d) == Outstanding(db, d);
      }
      CampaignRowsKeepApps(db, db');
      CampaignRowsKeepCadence(env, db, db');
      KeptStamps(db, db');
      assert forall p: PacketId :: Submitted(db', p) <==> Submitted(db, p);
    }
  }

  // ----- reminders -----

  /** The same rows up to mail and reminder stamps. */
  ghost predicate OnlyMailed(db: Db, db': Db) {
    && db' == db.(mail := db'.mail, packets := db'.packets, outbox := db'.outbox)
    && db'.packets.Keys == db.packets.Keys
    && forall p | p in db.packets ::
         && db'.packets[p] == db.packets[p].(reminded := db'.packets[p].reminded)
         && (db.packets[p].reminded.Some? ==> db'.packets[p].reminded.Some?)
  }

  lemma OnlyMailedKeepsInv(env: Env, db: Db, db': Db)
    requires Inv(env, db) && OnlyMailed(db, db') && Reminders(db')
    ensures Inv(env, db')
  {
    assert forall p: PacketId :: Submitted(db', p) <==> Submitted(db, p);
    forall c | 0 <= c < |db.campaigns| ensures LawAt(db', c) {
      assert LawAt(db, c);
      assert forall p: PacketId :: InCampaign(db', p, c) <==> InCampaign(db, p, c);
      assert Outstanding(db', c) == Outstanding(db, c);
    }
  }

  lemma {:induction false} SendRemindersOnlyMails(db: Db, pending: seq<PacketId>, kind: MailKind, sends: Sends,
                                                  now: Seconds)
    ensures OnlyMailed(db, SendReminders(db, pending, kind, sends, now))
    ensures forall p | p in db.packets && p !in pending ::
              SendReminders(db, pending, kind, sends, now).packets[p] == db.packets[p]
  {
    if pending != [] {
      var init := pending[..|pending| - 1];
      SendRemindersOnlyMails(db, init, kind, sends, now);
      assert pending == init + [pending[|pending| - 1]];
    }
  }

  /** How a batch of reminders changes a packet: stamped iff its send succeeded and its stamp was reached. */
  lemma {:induction false} SendRemindersEffect(db: Db, pending: seq<PacketId>, kind: MailKind, sends: Sends,
                                               now: Seconds)
    requires NoDup(pending)
    ensures var db' := SendReminders(db, pending, kind, sends, now);
            && OnlyMailed(db, db')
            && (forall p | p in db.packets && p !in pending :: db'.packets[p] == db.packets[p])
            && (forall k | 0 <= k < |pending| && pending[k] in db.packets ::
                  db'.packets[pending[k]].reminded ==
                  if sends.WritesStamp(k) then Some(now) else db.packets[pending[k]].reminded)
  {
    SendRemindersOnlyMails(db, pending, kind, sends, now);
    if pending != [] {
      var init, last := pending[..|pending| - 1], pending[|pending| - 1];
      SendRemindersEffect(db, init, kind, sends, now);
      assert last !in init;
    }
  }

  /** The log rows of a batch: one for each position reached, with that position's result. */
  function Rows(pending: seq<PacketId>, kind: MailKind, sends: Sends): seq<Mail> {
    if pending == [] then []
    else
      var n := |pending| - 1;
      Rows(pending[..n], kind, sends) + if sends.WritesRow(n) then [Mail(pending[n], kind, sends.ok(n))] else []
  }

  /** The deliveries of a batch: one for each send that succeeded. */
  function Deliveries(pending: seq<PacketId>, kind: MailKind, sends: Sends): seq<Delivery> {
    if pending == [] then []
    else
      var n := |pending| - 1;
      Deliveries(pending[..n], kind, sends)
      + if sends.ok(n) then [Delivery(pending[n], kind, sends.WritesRow(n), sends.WritesStamp(n))] else []
  }

  lemma {:induction false} SendRemindersLogs(db: Db, pending: seq<PacketId>, kind: MailKind, sends: Sends,
                                             now: Seconds)
    ensures SendReminders(db, pending, kind, sends, now).mail == db.mail + Rows(pending, kind, sends)
    ensures SendReminders(db, pending, kind, sends, now).outbox == db.outbox + Deliveries(pending, kind, sends)
  {
    if pending != [] {
      SendRemindersLogs(db, pending[..|pending| - 1], kind, sends, now);
    }
  }

  /** After the exception nothing more is written. */
  lemma {:induction false} NothingAfterStop(db: Db, pending: seq<PacketId>, kind: MailKind, sends: Sends,
                                            now: Seconds, i: nat)
    requires i <= |pending| && sends.Stopped(i)
    ensures var db' := SendReminders(db, pending, kind, sends, now);
            var upTo := SendReminders(db, pending[..i], kind, sends, now);
            db'.mail == upTo.mail && db'.packets == upTo.packets && sends.Stopped(|pending|)
  {
    if i < |pending| {
      var init := pending[..|pending| - 1];
      assert init[..i] == pending[..i];
      NothingAfterStop(db, init, kind, sends, now, i);
    } else {
      assert pending[..i] == pending;
    }
  }

  function One(b: bool): nat {
    if b then 1 else 0
  }

  /** One more delivery, and what it counts as. */
  lemma OutboxSnoc(outbox: seq<Delivery>, d: Delivery, p: PacketId)
    ensures Delivered(outbox + [d], p) == Delivered(outbox, p) + One(d.packet == p && d.kind == Scheduled)
    ensures Stamped(outbox + [d], p) == Stamped(outbox, p) + One(d == Delivery(p, Scheduled, true, true))
    ensures LostAfterRow(outbox + [d], p) == LostAfterRow(outbox, p) + One(d == Delivery(p, Scheduled, true, false))
    ensures LostBeforeRow(outbox + [d], p) == LostBeforeRow(outbox, p) + One(d == Delivery(p, Scheduled, false, false))
  {
    assert (outbox + [d])[..|outbox|] == outbox;
  }

  lemma ScheduledOkSnoc(mail: seq<Mail>, m: Mail, p: PacketId)
    ensures ScheduledOk(mail + [m], p) == ScheduledOk(mail, p) + if m == Mail(p, Scheduled, true) then 1 else 0
  {
    assert (mail + [m])[..|mail|] == mail;
  }

  /** A delivery, its row if it is logged and its stamp if it is stamped keep the law of every packet. */
  lemma DeliveryKeepsLaw(db: Db, d: Delivery, db': Db, p: PacketId)
    requires RemindersOf(db, p) && (d.stamped ==> d.logged)
    requires db'.outbox == db.outbox + [d]
    requires db'.mail == if d.logged then db.mail + [Mail(d.packet, d.kind, true)] else db.mail
    requires d.kind == Scheduled && d.packet in db.packets ==> db.packets[d.packet].reminded == None
    requires d.stamped ==> d.packet in db.packets && d.packet in db'.packets && db'.packets[d.packet].reminded.Some?
    requires forall q | q in db.packets && db.packets[q].reminded.Some? ::
               q in db'.packets && db'.packets[q].reminded.Some?
    ensures RemindersOf(db', p)
  {
    OutboxSnoc(db.outbox, d, p);
    if d.logged {
      ScheduledOkSnoc(db.mail, Mail(d.packet, d.kind, true), p);
    }
  }

  /** One position of a batch keeps the law; a scheduled one is never stamped before. */
  lemma RemindOneKeepsLaw(db: Db, q: PacketId, kind: MailKind, sends: Sends, i: nat, now: Seconds, p: PacketId)
    requires RemindersOf(db, p) && q in db.packets
    requires kind == Scheduled ==> db.packets[q].reminded == None
    ensures RemindersOf(RemindOne(db, q, kind, sends, i, now), p)
  {
    var db' := RemindOne(db, q, kind, sends, i, now);
    if sends.ok(i) {
      DeliveryKeepsLaw(db, Delivery(q, kind, sends.WritesRow(i), sends.WritesStamp(i)), db', p);
    } else if sends.WritesRow(i) {
      ScheduledOkSnoc(db.mail, Mail(q, kind, false), p);
    }
  }

  /** A batch keeps the reminder law: scheduled sends go only to packets never stamped before. */
  lemma {:induction false} SendRemindersKeepsLaw(db: Db, pending: seq<PacketId>, kind: MailKind, sends: Sends,
                                                 now: Seconds)
    requires Reminders(db) && NoDup(pending) && forall p | p in pending :: p in db.packets
    requires kind == Scheduled ==> forall p | p in pending :: db.packets[p].reminded == None
    ensures Reminders(SendReminders(db, pending, kind, sends, now))
  {
    if pending != [] {
      var n := |pending| - 1;
      var init, last := pending[..n], pending[n];
      var before := SendReminders(db, init, kind, sends, now);
      SendRemindersKeepsLaw(db, init, kind, sends, now);
      SendRemindersOnlyMails(db, init, kind, sends, now);
      assert last !in init;
      forall p: PacketId ensures RemindersOf(RemindOne(before, last, kind, sends, n, now), p) {
        RemindOneKeepsLaw(before, last, kind, sends, n, now, p);
      }
    }
  }

  lemma SendRemindersKeepsInv(env: Env, db: Db, pending: seq<PacketId>, kind: MailKind, sends: Sends, now: Seconds)
    requires Inv(env, db) && NoDup(pending) && forall p | p in pending :: p in db.packets
    requires kind == Scheduled ==> forall p | p in pending :: db.packets[p].reminded == None
    ensures Inv(env, SendReminders(db, pending, kind, sends, now))
  {
    SendRemindersEffect(db, pending, kind, sends, now);
    SendRemindersKeepsLaw(db, pending, kind, sends, now);
    OnlyMailedKeepsInv(env, db, SendReminders(db, pending, kind, sends, now));
  }

  lemma {:induction false} RunBatchesKeepsInv(env: Env, db: Db, batches: seq<Batch>, now: Seconds)
    requires Inv(env, db) && RunBatches(db, batches, now).Some?
    ensures Inv(env, RunBatches(db, batches, now).value)
  {
    if batches != [] {
      var n := |batches| - 1;
      RunBatchesKeepsInv(env, db, batches[..n], now);
      var before := RunBatches(db, batches[..n], now).value;
      assert forall p | p in batches[n].pending :: p in Elements(batches[n].pending);
      SendRemindersKeepsInv(env, before, batches[n].pending, Scheduled, batches[n].sends, now);
    }
  }

  // ----- the auto-launch tick -----

  /** Launching other applications does not touch this one's row, nor its last launch. */
  lemma {:induction false} RunLaunchesFrame(db: Db, launches: seq<AutoLaunch>, now: Seconds, a: AppId)
    requires RunLaunches(db, launches, now).Some? && a !in AutoApps(launches)
    ensures var db' := RunLaunches(db, launches, now).value;
            && db'.apps == db.apps && db'.clock == db.clock
            && LastCreated(db'.campaigns, a) == LastCreated(db.campaigns, a)
  {
    if launches != [] {
      var n := |launches| - 1;
      assert AutoApps(launches) == AutoApps(launches[..n]) + [launches[n].app];
      RunLaunchesFrame(db, launches[..n], now, a);
      var before, db' := RunLaunches(db, launches[..n], now).value, RunLaunches(db, launches, now).value;
      if db'.campaigns != before.campaigns {
        assert db'.campaigns[..|db'.campaigns| - 1] == before.campaigns;
      }
    }
  }

  lemma {:induction false} RunLaunchesKeepsInv(env: Env, db: Db, launches: seq<AutoLaunch>)
    requires Inv(env, db) && RunLaunches(db, launches, db.clock).Some? && NoDup(AutoApps(launches))
    requires forall a | a in AutoApps(launches) :: Due(env, db, a, db.clock)
    ensures Inv(env, RunLaunches(db, launches, db.clock).value)
  {
    if launches != [] {
      var n := |launches| - 1;
      var l := launches[n];
      var apps, init := AutoApps(launches), AutoApps(launches[..n]);
      assert apps == init + [l.app];
      assert NoDup(init) && l.app !in init by {
        assert forall i | 0 <= i < n :: init[i] == apps[i];
        assert apps[n] == l.app;
      }
      assert Due(env, db, l.app, db.clock);
      RunLaunchesKeepsInv(env, db, launches[..n]);
      RunLaunchesFrame(db, launches[..n], db.clock, l.app);
      var before := RunLaunches(db, launches[..n], db.clock).value;
      LaunchKeepsInv(env, before, l.app, l.name, None, l.input, before.apps[l.app].frequency);
    }
  }

  // ----- every call, every run -----

  lemma ConfigKeepsApps(db: Db, db': Db)
    requires Apps(db) && db'.campaigns == db.campaigns && db'.deleted == db.deleted
    requires forall a | a in db.apps :: a in db'.apps && (db'.apps[a].archived ==> db.apps[a].archived)
    requires db'.deleted !! db'.apps.Keys
    ensures Apps(db')
  {
    assert forall c: CampaignId | Open(db', c) :: Open(db, c);
  }

  lemma ConfigStepKeepsInv(env: Env, db: Db, call: Call)
    requires Inv(env, db) && StepAt(env, db, call).Some?
    requires call.Create? || call.Configure? || call.Directory?
    ensures Inv(env, StepAt(env, db, call).value)
  {
    ConfigKeepsApps(db, StepAt(env, db, call).value);
    SameTables(env, db, StepAt(env, db, call).value);
  }

  lemma ArchiveKeepsInv(env: Env, db: Db, a: AppId)
    requires Inv(env, db)
    ensures Inv(env, Archive(db, a).0) && Inv(env, Restore(db, a).0)
  {
    ArchiveKeepsApps(db, a);
    SameTables(env, db, Archive(db, a).0);
    SameTables(env, db, Restore(db, a).0);
  }

  lemma DeleteKeepsInv(env: Env, db: Db, a: AppId, dbError: bool)
    requires Inv(env, db)
    ensures Inv(env, Delete(db, a, dbError).0)
  {
    if Delete(db, a, dbError).1 == Reply.Ok {
      DeleteKeepsApps(db, a);
      SameTables(env, db, Delete(db, a, dbError).0);
    }
  }

  lemma ManualRemindersKeepInv(env: Env, db: Db, c: CampaignId, pending: seq<PacketId>, sends: Sends)
    requires Inv(env, db) && NoDup(pending) && forall p | p in pending :: p in db.packets
    ensures Inv(env, Remind(db, c, pending, sends, db.clock).0)
  {
    SendRemindersKeepsInv(env, db, pending, Manual, sends, db.clock);
  }

  lemma LaunchTickKeepsInv(env: Env, db: Db, launches: seq<AutoLaunch>, cut: bool)
    requires Inv(env, db) && AutoLaunchTick(env, db, launches, db.clock, cut).Some?
    ensures Inv(env, AutoLaunchTick(env, db, launches, db.clock, cut).value)
  {
    assert forall a | a in AutoApps(launches) :: a in Elements(AutoApps(launches));
    RunLaunchesKeepsInv(env, db, launches);
  }

  lemma StepAtKeepsInv(env: Env, db: Db, call: Call)
    requires Inv(env, db) && StepAt(env, db, call).Some?
    ensures Inv(env, StepAt(env, db, call).value)
  {
    match call
    case ArchiveApp(a) => ArchiveKeepsInv(env, db, a);
    case RestoreApp(a) => ArchiveKeepsInv(env, db, a);
    case DeleteApp(a, dbError) => DeleteKeepsInv(env, db, a, dbError);
    case LaunchNow(a, name, dueDay, input) => LaunchKeepsInv(env, db, a, name, dueDay, input, None);
    case SubmitPacket(p, caller, ds) => SubmitKeepsInv(env, db, p, caller, ds);
    case CloseByHand(c) => CloseKeepsInv(env, db, c);
    case RemindAll(c, pending, sends) =>
      assert forall p | p in pending :: p in Elements(pending);
      ManualRemindersKeepInv(env, db, c, pending, sends);
    case RemindPacket(c, p, sends) =>
      if p in db.packets {
        ManualRemindersKeepInv(env, db, c, [p], sends);
      }
    case LaunchTick(launches, cut) => LaunchTickKeepsInv(env, db, launches, cut);
    case RemindTick(batches, window, cut) => RunBatchesKeepsInv(env, db, batches, db.clock);
    case _ => ConfigStepKeepsInv(env, db, call);
  }

  lemma ClockKeepsInv(env: Env, db: Db, now: Seconds)
    requires Inv(env, db) && db.clock <= now
    ensures Inv(env, db.(clock := now))
  {
    ConfigKeepsApps(db, db.(clock := now));
    SameTables(env, db, db.(clock := now));
  }

  lemma StepKeepsInv(env: Env, db: Db, call: Call, now: Seconds)
    requires Inv(env, db) && Step(env, db, call, now).Some?
    ensures Inv(env, Step(env, db, call, now).value)
  {
    ClockKeepsInv(env, db, now);
    StepAtKeepsInv(env, db.(clock := now), call);
  }

  lemma {:induction false} RunKeepsInv(env: Env, db: Db, calls: seq<TimedCall>)
    requires Inv(env, db) && Run(env, db, calls).Some?
    ensures Inv(env, Run(env, db, calls).value)
    decreases calls
  {
    if calls != [] {
      StepKeepsInv(env, db, calls[0].call, calls[0].now);
      RunKeepsInv(env, Step(env, db, calls[0].call, calls[0].now).value, calls[1..]);
    }
  }
}
