/** What holds after any sequence of service calls, at any times. */
module CampaignTheorems {
  import opened Common
  import opened Decisions
  import opened Routing
  import opened Campaigns
  import opened CampaignSafety

  ghost predicate Reachable(env: Env, calls: seq<TimedCall>, db: Db) {
    Run(env, EMPTY, calls) == Some(db)
  }

  lemma ReachableInv(env: Env, calls: seq<TimedCall>, db: Db)
    requires Reachable(env, calls, db)
    ensures Inv(env, db)
  {
    RunKeepsInv(env, EMPTY, calls);
  }

  // ----- applications and their campaigns -----

  /**
   Every application has at most one draft or active campaign and an archived one has none;
   an application that was dropped outright is gone and never had a campaign.
   */
  lemma OneOpenCampaign(env: Env, calls: seq<TimedCall>, db: Db)
    requires Reachable(env, calls, db)
    ensures forall c: CampaignId, d: CampaignId |
              Open(db, c) && Open(db, d) && db.campaigns[c].app == db.campaigns[d].app :: c == d
    ensures forall a | a in db.apps && db.apps[a].archived :: !HasOpen(db, a)
    ensures forall a | a in db.deleted :: a !in db.apps && !HasCampaign(db, a)
  {
    ReachableInv(env, calls, db);
    forall a | a in db.apps && db.apps[a].archived
      ensures !HasOpen(db, a)
    {
      assert forall c: CampaignId | c < |db.campaigns| && db.campaigns[c].app == a :: !Open(db, c);
    }
  }

  // ----- closure -----

  /** all_packets: unless closed by hand, a campaign is closed exactly when every packet is in. */
  lemma AllPacketsClosure(env: Env, calls: seq<TimedCall>, db: Db, c: CampaignId)
    requires Reachable(env, calls, db) && c < |db.campaigns| && db.campaigns[c].closure == AllPackets
    requires c !in db.handClosed
    ensures db.campaigns[c].status == Closed <==>
            forall p | p in db.packets && db.packets[p].campaign == c :: Submitted(db, p)
    ensures db.campaigns[c].closedBy == None
  {
    ReachableInv(env, calls, db);
    assert LawAt(db, c);
    assert Outstanding(db, c) == {} <==>
           forall p | p in db.packets && db.packets[p].campaign == c :: p !in Outstanding(db, c);
  }

  /** any_packet: at most one packet is submitted, and closed_by_packet_id is it, exactly when there is one. */
  lemma AnyPacketClosure(env: Env, calls: seq<TimedCall>, db: Db, c: CampaignId, p: PacketId)
    requires Reachable(env, calls, db) && c < |db.campaigns| && db.campaigns[c].closure == AnyPacket
    ensures InCampaign(db, p, c) && Submitted(db, p) <==> db.campaigns[c].closedBy == Some(p)
    ensures c !in db.handClosed ==> (db.campaigns[c].status == Closed <==> db.campaigns[c].closedBy.Some?)
  {
    ReachableInv(env, calls, db);
    assert LawAt(db, c);
  }

  /** Every campaign has a packet, and every packet has subjects, none of them twice. */
  lemma PacketsAskSomething(env: Env, calls: seq<TimedCall>, db: Db, c: CampaignId, p: PacketId)
    requires Reachable(env, calls, db)
    ensures c < |db.campaigns| ==> exists q: PacketId :: InCampaign(db, q, c)
    ensures p in db.packets ==>
              db.packets[p].campaign < |db.campaigns| && db.packets[p].subjects != [] && NoDup(db.packets[p].subjects)
  {
    ReachableInv(env, calls, db);
    if c < |db.campaigns| {
      assert LawAt(db, c);
    }
  }

  /** A submitted packet has one decision per subject, anything else none. */
  lemma OneDecisionPerSubject(env: Env, calls: seq<TimedCall>, db: Db, p: PacketId, s: Sam)
    requires Reachable(env, calls, db)
    ensures CountDecisions(db.decisions, p, s) == if Submitted(db, p) && s in db.packets[p].subjects then 1 else 0
  {
    ReachableInv(env, calls, db);
  }

  /**
   The page of a packet not submitted names the packet recorded as closing the campaign, and no
   other. A closed campaign's packet is shown as pending only if the campaign was closed by hand.
   */
  lemma PageNamesTheClosingPacket(env: Env, calls: seq<TimedCall>, db: Db, p: PacketId, page: Page)
    requires Reachable(env, calls, db) && p in db.packets && db.packets[p].campaign < |db.campaigns|
    requires Shows(db, p, page)
    ensures page.ClosedByOther? <==> !Submitted(db, p) && db.campaigns[db.packets[p].campaign].closedBy.Some?
    ensures page.ClosedByOther? ==> db.campaigns[db.packets[p].campaign].closedBy == Some(page.packet)
    ensures page == Pending && db.campaigns[db.packets[p].campaign].status == Closed ==>
              db.packets[p].campaign in db.handClosed
  {
    ReachableInv(env, calls, db);
    var c := db.packets[p].campaign;
    assert LawAt(db, c);
    assert InCampaign(db, p, c);
    assert forall q :: SubmittedIn(db, c, q) <==> InCampaign(db, q, c) && Submitted(db, q);
    if !Submitted(db, p) {
      assert p in Outstanding(db, c);
    }
  }

  // ----- what one call, and any run, leaves alone -----

  /** Closed campaigns stay as they are; nothing of theirs is submitted any more; packets keep what they ask. */
  ghost predicate Extends(db: Db, db': Db) {
    && |db.campaigns| <= |db'.campaigns|
    && (forall c | 0 <= c < |db.campaigns| && db.campaigns[c].status == Closed :: db'.campaigns[c] == db.campaigns[c])
    && (forall p | p in db.packets ::
          && p in db'.packets && db'.packets[p].campaign == db.packets[p].campaign
          && db'.packets[p].subjects == db.packets[p].subjects && db'.packets[p].recipient == db.packets[p].recipient
          && (Submitted(db, p) ==> db'.packets[p].submittedBy == db.packets[p].submittedBy)
          && (db.packets[p].campaign < |db.campaigns| && db.campaigns[db.packets[p].campaign].status == Closed ==>
                db'.packets[p].submittedBy == db.packets[p].submittedBy))
    && db.decisions <= db'.decisions && db.mail <= db'.mail && db.deleted <= db'.deleted && db.outbox <= db'.outbox
  }

  lemma LaunchExtends(db: Db, a: AppId, name: string, dueDay: Option<Day>, input: LaunchInput, now: Seconds,
                      auto: Option<nat>)
    requires Packets(db)
    ensures Extends(db, Launch(db, a, name, dueDay, input, now, auto).0)
  {
    if Launch(db, a, name, dueDay, input, now, auto).0 != db {
      var plans := Plans(db.apps[a].mode, input.roster, input.nominees, db.apps[a].owner).value;
      PlansAreNotEmpty(db.apps[a].mode, input.roster, input.nominees, db.apps[a].owner, plans);
      PersistKeepsPackets(db, a, dueDay, plans, input, now, auto);
    }
  }

  lemma {:induction false} RunLaunchesExtends(env: Env, db: Db, launches: seq<AutoLaunch>)
    requires Inv(env, db) && RunLaunches(db, launches, db.clock).Some? && NoDup(AutoApps(launches))
    requires forall a | a in AutoApps(launches) :: Due(env, db, a, db.clock)
    ensures Extends(db, RunLaunches(db, launches, db.clock).value)
  {
    if launches != [] {
      var n := |launches| - 1;
      var apps, init := AutoApps(launches), AutoApps(launches[..n]);
      assert apps == init + [launches[n].app];
      assert NoDup(init) by { assert forall i | 0 <= i < n :: init[i] == apps[i]; }
      RunLaunchesExtends(env, db, launches[..n]);
      RunLaunchesKeepsInv(env, db, launches[..n]);
      var before, l := RunLaunches(db, launches[..n], db.clock).value, launches[n];
      LaunchExtends(before, l.app, l.name, None, l.input, db.clock, before.apps[l.app].frequency);
    }
  }

  lemma SendRemindersExtends(db: Db, pending: seq<PacketId>, kind: MailKind, sends: Sends, now: Seconds)
    requires NoDup(pending)
    ensures Extends(db, SendReminders(db, pending, kind, sends, now))
  {
    SendRemindersEffect(db, pending, kind, sends, now);
    SendRemindersLogs(db, pending, kind, sends, now);
  }

  lemma {:induction false} RunBatchesExtends(db: Db, batches: seq<Batch>, now: Seconds)
    requires RunBatches(db, batches, now).Some?
    ensures Extends(db, RunBatches(db, batches, now).value)
  {
    if batches != [] {
      var n := |batches| - 1;
      RunBatchesExtends(db, batches[..n], now);
      var before := RunBatches(db, batches[..n], now).value;
      SendRemindersExtends(before, batches[n].pending, Scheduled, batches[n].sends, now);
    }
  }

  lemma AfterSubmitExtends(db: Db, p: PacketId, caller: Sam, ds: seq<Input>)
    requires p in db.packets && db.packets[p].campaign < |db.campaigns| && db.packets[p].submittedBy == None
    requires db.campaigns[db.packets[p].campaign].status != Closed
    ensures Extends(db, AfterSubmit(db, p, caller, ds))
  {
  }

  lemma SubmitExtends(env: Env, db: Db, p: PacketId, caller: Sam, ds: seq<Input>)
    ensures Extends(db, Submit(env, db, p, caller, ds).0)
  {
    if Submit(env, db, p, caller, ds).1 == Reply.Ok {
      AfterSubmitExtends(db, p, caller, ds);
    }
  }

  lemma PlainCallExtends(env: Env, db: Db, call: Call)
    requires StepAt(env, db, call).Some?
    requires !call.LaunchNow? && !call.SubmitPacket? && !call.LaunchTick?
    requires !call.RemindAll? && !call.RemindPacket? && !call.RemindTick?
    ensures Extends(db, StepAt(env, db, call).value)
  {
  }

  lemma LaunchTickExtends(env: Env, db: Db, launches: seq<AutoLaunch>, cut: bool)
    requires Inv(env, db) && AutoLaunchTick(env, db, launches, db.clock, cut).Some?
    ensures Extends(db, AutoLaunchTick(env, db, launches, db.clock, cut).value)
  {
    assert forall a | a in AutoApps(launches) :: a in Elements(AutoApps(launches));
    RunLaunchesExtends(env, db, launches);
  }

  lemma RemindCallExtends(env: Env, db: Db, call: Call)
    requires StepAt(env, db, call).Some? && (call.RemindAll? || call.RemindPacket? || call.RemindTick?)
    ensures Extends(db, StepAt(env, db, call).value)
  {
    match call
    case RemindAll(c, pending, sends) => SendRemindersExtends(db, pending, Manual, sends, db.clock);
    case RemindPacket(c, p, sends) => SendRemindersExtends(db, [p], Manual, sends, db.clock);
    case RemindTick(batches, window, cut) => RunBatchesExtends(db, batches, db.clock);
  }

  lemma StepAtExtends(env: Env, db: Db, call: Call)
    requires Inv(env, db) && StepAt(env, db, call).Some?
    ensures Extends(db, StepAt(env, db, call).value)
  {
    if call.RemindAll? || call.RemindPacket? || call.RemindTick? {
      RemindCallExtends(env, db, call);
    } else if call.LaunchNow? {
      LaunchExtends(db, call.app, call.name, call.dueDay, call.input, db.clock, None);
    } else if call.LaunchTick? {
      LaunchTickExtends(env, db, call.launches, call.cut);
    } else if call.SubmitPacket? {
      SubmitExtends(env, db, call.packet, call.caller, call.decisions);
    } else {
      PlainCallExtends(env, db, call);
    }
  }

  lemma StepExtends(env: Env, db: Db, call: Call, now: Seconds)
    requires Inv(env, db) && Step(env, db, call, now).Some?
    ensures Extends(db, Step(env, db, call, now).value)
  {
    ClockKeepsInv(env, db, now);
    StepAtExtends(env, db.(clock := now), call);
  }

  /** Over any further run: a closed campaign never reopens and takes no more submissions. */
  lemma {:induction false} RunExtends(env: Env, db: Db, calls: seq<TimedCall>)
    requires Inv(env, db) && Run(env, db, calls).Some?
    ensures Extends(db, Run(env, db, calls).value)
    decreases calls
  {
    if calls != [] {
      StepExtends(env, db, calls[0].call, calls[0].now);
      StepKeepsInv(env, db, calls[0].call, calls[0].now);
      RunExtends(env, Step(env, db, calls[0].call, calls[0].now).value, calls[1..]);
    }
  }

  // ----- launches -----

  /**
   What a launch of a line_manager application wrote, manual or by the scheduler: it made a campaign,
   even if it failed afterwards.
   */
  ghost predicate Launches(db: Db, a: AppId, name: string, dueDay: Option<Day>, input: LaunchInput, now: Seconds,
                          auto: Option<nat>, db': Db)
  {
    && Packets(db) && InputFor(db, a, input) && a in db.apps && db.apps[a].mode == LineManager
    && Launch(db, a, name, dueDay, input, now, auto).0 == db' && db'.campaigns != db.campaigns
  }

  lemma NewPacketAt(first: PacketId, c: CampaignId, plans: seq<Plan>, reminded: Option<Seconds>, p: PacketId)
    ensures p in NewPackets(first, c, plans, reminded) <==> first <= p < first + |plans|
    ensures first <= p < first + |plans| ==>
              NewPackets(first, c, plans, reminded)[p] == PacketFor(c, plans[p - first], reminded)
  {
    NewPacketsAre(first, c, plans, reminded);
    if first <= p < first + |plans| {
      var k := p - first;
      assert NewPackets(first, c, plans, reminded)[first + k] == PacketFor(c, plans[k], reminded);
    }
  }

  /** The packets of a new campaign are the packets of its plans, one each. */
  lemma PersistedPackets(db: Db, a: AppId, dueDay: Option<Day>, plans: seq<Plan>, input: LaunchInput,
                         now: Seconds, auto: Option<nat>, p: PacketId)
    requires Packets(db) && a in db.apps
    ensures var db' := Persist(db, a, dueDay, plans, input, now, auto);
            && (InCampaign(db', p, |db.campaigns|) <==> db.nextPacket <= p < db.nextPacket + |plans|)
            && (InCampaign(db', p, |db.campaigns|) ==>
                  && db'.packets[p].recipient == plans[p - db.nextPacket].recipient
                  && db'.packets[p].subjects == SubjectSams(plans[p - db.nextPacket].subjects))
  {
    var stamp := if db.apps[a].dueDays <= 7 then Some(now) else None;
    NewPacketAt(db.nextPacket, |db.campaigns|, plans, stamp, p);
  }

  /** ... and those plans are the routing of the roster. */
  lemma LaunchedPackets(db: Db, a: AppId, name: string, dueDay: Option<Day>, input: LaunchInput, now: Seconds,
                        auto: Option<nat>, db': Db)
    returns (plans: seq<Plan>)
    requires Launches(db, a, name, dueDay, input, now, auto, db')
    ensures LineManagerPlans(input.roster, db.apps[a].owner) == Result.Ok(plans)
    ensures forall p: PacketId :: InCampaign(db', p, |db.campaigns|) <==> db.nextPacket <= p < db.nextPacket + |plans|
    ensures forall p: PacketId | InCampaign(db', p, |db.campaigns|) ::
              && db'.packets[p].recipient == plans[p - db.nextPacket].recipient
              && db'.packets[p].subjects == SubjectSams(plans[p - db.nextPacket].subjects)
  {
    plans := Plans(LineManager, input.roster, input.nominees, db.apps[a].owner).value;
    PlansAreNotEmpty(LineManager, input.roster, input.nominees, db.apps[a].owner, plans);
    forall p: PacketId
      ensures InCampaign(db', p, |db.campaigns|) <==> db.nextPacket <= p < db.nextPacket + |plans|
      ensures InCampaign(db', p, |db.campaigns|) ==>
                && db'.packets[p].recipient == plans[p - db.nextPacket].recipient
                && db'.packets[p].subjects == SubjectSams(plans[p - db.nextPacket].subjects)
    {
      PersistedPackets(db, a, dueDay, plans, input, now, auto, p);
    }
  }

  /** The members of a listed roster, and their plan-mates, are told apart by account. */
  lemma RosterBySam(db: Db, a: AppId, roster: seq<Member>, x: Member, y: Member)
    requires Lists(roster, Roster(db, a)) && x in roster && y in roster && x.sam == y.sam
    ensures x == y
  {
    assert x in Elements(roster) && y in Elements(roster);
  }

  /** A line_manager launch that succeeds: each roster member is a subject of some packet, ... */
  lemma LaunchAsksAboutAll(db: Db, a: AppId, name: string, dueDay: Option<Day>, input: LaunchInput, now: Seconds,
                          auto: Option<nat>, db': Db, x: Member) returns (p: PacketId)
    requires Launches(db, a, name, dueDay, input, now, auto, db') && x in Roster(db, a)
    ensures InCampaign(db', p, |db.campaigns|) && x.sam in db'.packets[p].subjects
    ensures Some(db'.packets[p].recipient) == Route(x, db.apps[a].owner)
  {
    var plans := LaunchedPackets(db, a, name, dueDay, input, now, auto, db');
    assert x in Elements(input.roster);
    var k := RoutedPlan(input.roster, db.apps[a].owner, plans, x);
    SubjectSamsAre(plans[k].subjects);
    assert x in plans[k].subjects by { assert x in multiset(input.roster) && x in multiset(plans[k].subjects); }
    p := db.nextPacket + k;
  }

  /** ... and of a packet only if that goes to its manager, or to the business owner if it has none; */
  lemma LaunchRoutesRoster(db: Db, a: AppId, name: string, dueDay: Option<Day>, input: LaunchInput, now: Seconds,
                          auto: Option<nat>, db': Db, x: Member, p: PacketId)
    requires Launches(db, a, name, dueDay, input, now, auto, db') && x in Roster(db, a)
    requires InCampaign(db', p, |db.campaigns|) && x.sam in db'.packets[p].subjects
    ensures Some(db'.packets[p].recipient) == Route(x, db.apps[a].owner)
  {
    var plans := LaunchedPackets(db, a, name, dueDay, input, now, auto, db');
    var j: nat := p - db.nextPacket;
    SubjectSamsAre(plans[j].subjects);
    var y :| y in plans[j].subjects && y.sam == x.sam;
    HoldsOnlyRouted(input.roster, db.apps[a].owner, plans, j, y);
    assert x in Elements(input.roster);
    RosterBySam(db, a, input.roster, x, y);
  }

  /** ... nobody else is a subject, and no recipient has two packets. */
  lemma LaunchAsksOnlyTheRoster(db: Db, a: AppId, name: string, dueDay: Option<Day>, input: LaunchInput, now: Seconds,
                          auto: Option<nat>, db': Db, p: PacketId, q: PacketId)
    requires Launches(db, a, name, dueDay, input, now, auto, db')
    requires InCampaign(db', p, |db.campaigns|) && InCampaign(db', q, |db.campaigns|)
    ensures forall s | s in db'.packets[p].subjects :: exists x :: x in Roster(db, a) && x.sam == s
    ensures db'.packets[p].recipient == db'.packets[q].recipient ==> p == q
  {
    var plans := LaunchedPackets(db, a, name, dueDay, input, now, auto, db');
    RecipientsDistinct(input.roster, db.apps[a].owner, plans);
    var k: nat := p - db.nextPacket;
    SubjectSamsAre(plans[k].subjects);
    forall s | s in db'.packets[p].subjects
      ensures exists x :: x in Roster(db, a) && x.sam == s
    {
      var x :| x in plans[k].subjects && x.sam == s;
      HoldsOnlyRouted(input.roster, db.apps[a].owner, plans, k, x);
      assert x in Elements(input.roster);
    }
  }

  /** An automatic launch comes at least the cadence then in force after the previous launch of its application. */
  lemma CadenceRespected(env: Env, calls: seq<TimedCall>, db: Db, i: nat, j: nat)
    requires Reachable(env, calls, db) && i < j < |db.campaigns| && db.campaigns[i].app == db.campaigns[j].app
    requires forall k | i < k < j :: db.campaigns[k].app != db.campaigns[j].app
    requires db.campaigns[j].auto.Some?
    ensures env.addMonths(db.campaigns[i].createdAt, db.campaigns[j].auto.value) <= db.campaigns[j].createdAt
  {
    ReachableInv(env, calls, db);
    assert Previous(db.campaigns, i, j);
  }

  // ----- reminders -----

  /**
   The scheduled reminders of a packet that were delivered are one if one of them stamped it, and those
   after which a statement failed before the stamp; so there is at most one exactly when none was lost,
   or one was and none stamped. The log has them except those lost before their row.
   */
  lemma OneScheduledReminder(env: Env, calls: seq<TimedCall>, db: Db, p: PacketId)
    requires Reachable(env, calls, db)
    ensures var stamped, lost := Stamped(db.outbox, p), Lost(db.outbox, p);
            && Delivered(db.outbox, p) == stamped + lost && stamped <= 1
            && (Delivered(db.outbox, p) <= 1 <==> lost == 0 || (lost == 1 && stamped == 0))
            && ScheduledOk(db.mail, p) == stamped + LostAfterRow(db.outbox, p)
            && (stamped == 1 ==> p in db.packets && db.packets[p].reminded.Some?)
  {
    ReachableInv(env, calls, db);
    assert RemindersOf(db, p);
  }

  /** A tick of which some campaign's reminders were delivered but not all logged and stamped. */
  predicate Interrupted(call: Call) {
    call.RemindTick? && exists i | 0 <= i < |call.batches| :: call.batches[i].Stopped()
  }

  lemma {:induction false} DeliveriesAre(pending: seq<PacketId>, kind: MailKind, sends: Sends)
    ensures forall d | d in Deliveries(pending, kind, sends) :: d.kind == kind && d.packet in pending
    ensures forall p: PacketId :: Delivery(p, kind, true, true) in Deliveries(pending, kind, sends) <==>
              exists k :: 0 <= k < |pending| && pending[k] == p && sends.WritesStamp(k)
    ensures !sends.Stopped(|pending|) ==> forall d | d in Deliveries(pending, kind, sends) :: d.stamped
    ensures forall m | m in Rows(pending, kind, sends) :: m.kind == kind && m.packet in pending
  {
    if pending != [] {
      var init := pending[..|pending| - 1];
      DeliveriesAre(init, kind, sends);
      assert pending == init + [pending[|pending| - 1]];
      forall p: PacketId, k: nat | k < |pending| && pending[k] == p && sends.WritesStamp(k)
        ensures Delivery(p, kind, true, true) in Deliveries(pending, kind, sends)
      {
        if k < |init| {
          assert init[k] == p;
        }
      }
    }
  }

  lemma NothingLostIn(outbox: seq<Delivery>, more: seq<Delivery>, p: PacketId)
    requires forall d | d in more :: d.stamped || d.kind == Manual
    ensures Lost(outbox + more, p) == Lost(outbox, p)
  {
    assert Delivery(p, Scheduled, true, false) !in multiset(more);
    assert Delivery(p, Scheduled, false, false) !in multiset(more);
  }

  lemma RemindersLoseNothing(db: Db, pending: seq<PacketId>, kind: MailKind, sends: Sends, now: Seconds, p: PacketId)
    requires kind == Manual || !sends.Stopped(|pending|)
    ensures Lost(SendReminders(db, pending, kind, sends, now).outbox, p) == Lost(db.outbox, p)
  {
    SendRemindersLogs(db, pending, kind, sends, now);
    DeliveriesAre(pending, kind, sends);
    NothingLostIn(db.outbox, Deliveries(pending, kind, sends), p);
  }

  lemma {:induction false} BatchesLoseNothing(db: Db, batches: seq<Batch>, now: Seconds, p: PacketId)
    requires RunBatches(db, batches, now).Some? && forall i | 0 <= i < |batches| :: !batches[i].Stopped()
    ensures Lost(RunBatches(db, batches, now).value.outbox, p) == Lost(db.outbox, p)
  {
    if batches != [] {
      var n := |batches| - 1;
      BatchesLoseNothing(db, batches[..n], now, p);
      RemindersLoseNothing(RunBatches(db, batches[..n], now).value, batches[n].pending, Scheduled, batches[n].sends,
                           now, p);
    }
  }

  lemma {:induction false} LaunchesDeliverNothing(db: Db, launches: seq<AutoLaunch>, now: Seconds)
    requires RunLaunches(db, launches, now).Some?
    ensures RunLaunches(db, launches, now).value.outbox == db.outbox
  {
    if launches != [] {
      LaunchesDeliverNothing(db, launches[..|launches| - 1], now);
    }
  }

  lemma OtherCallsDeliverNothing(env: Env, db: Db, call: Call)
    requires StepAt(env, db, call).Some? && !call.RemindAll? && !call.RemindPacket? && !call.RemindTick?
    ensures StepAt(env, db, call).value.outbox == db.outbox
  {
    if call.LaunchTick? {
      LaunchesDeliverNothing(db, call.launches, db.clock);
    }
  }

  lemma StepLosesNothing(env: Env, db: Db, call: Call, p: PacketId)
    requires StepAt(env, db, call).Some? && !Interrupted(call)
    ensures Lost(StepAt(env, db, call).value.outbox, p) == Lost(db.outbox, p)
  {
    if call.RemindAll? {
      RemindersLoseNothing(db, call.pending, Manual, call.sends, db.clock, p);
    } else if call.RemindPacket? {
      RemindersLoseNothing(db, [call.packet], Manual, call.sends, db.clock, p);
    } else if call.RemindTick? {
      BatchesLoseNothing(db, call.batches, db.clock, p);
    } else {
      OtherCallsDeliverNothing(env, db, call);
    }
  }

  lemma {:induction false} RunLosesNothing(env: Env, db: Db, calls: seq<TimedCall>, p: PacketId)
    requires Run(env, db, calls).Some? && forall k | 0 <= k < |calls| :: !Interrupted(calls[k].call)
    ensures Lost(Run(env, db, calls).value.outbox, p) == Lost(db.outbox, p)
    decreases calls
  {
    if calls != [] {
      assert !Interrupted(calls[0].call);
      StepLosesNothing(env, db.(clock := calls[0].now), calls[0].call, p);
      RunLosesNothing(env, Step(env, db, calls[0].call, calls[0].now).value, calls[1..], p);
    }
  }

  /** In a run without an interrupted tick, whatever mail fails, a packet gets at most one scheduled reminder. */
  lemma UninterruptedRemindOnce(env: Env, calls: seq<TimedCall>, db: Db, p: PacketId)
    requires Reachable(env, calls, db) && forall k | 0 <= k < |calls| :: !Interrupted(calls[k].call)
    ensures Delivered(db.outbox, p) == ScheduledOk(db.mail, p) <= 1
  {
    RunLosesNothing(env, EMPTY, calls, p);
    OneScheduledReminder(env, calls, db, p);
  }

  // ----- a packet reminded twice -----

  lemma {:induction false} RunSnoc(env: Env, db: Db, calls: seq<TimedCall>, call: TimedCall)
    requires Run(env, db, calls).Some?
    ensures var mid := Run(env, db, calls).value;
            Run(env, db, calls + [call]) == Step(env, mid, call.call, call.now)
    decreases calls
  {
    if calls != [] {
      assert (calls + [call])[1..] == calls[1..] + [call];
      RunSnoc(env, Step(env, db, calls[0].call, calls[0].now).value, calls[1..], call);
    }
  }

  lemma Extend(env: Env, calls: seq<TimedCall>, db: Db, call: Call) returns (longer: seq<TimedCall>, db': Db)
    requires Reachable(env, calls, db) && StepAt(env, db, call).Some?
    ensures Reachable(env, longer, db') && db' == StepAt(env, db, call).value
  {
    longer, db' := calls + [At(db.clock, call)], StepAt(env, db, call).value;
    RunSnoc(env, EMPTY, calls, At(db.clock, call));
  }

  const APP := App(true, false, LineManager, Some("owner"), 21, None, false, true)

  /** One application with one group, whose one member has a manager. */
  lemma OneMember(env: Env) returns (calls: seq<TimedCall>, db: Db)
    ensures Reachable(env, calls, db)
    ensures db == EMPTY.(apps := map[0 := APP], bindings := {Binding(0, "g")}, members := {Membership("g", "x")},
                         managers := map["x" := Some("m")])
  {
    calls, db := [], EMPTY;
    calls, db := Extend(env, calls, db, Create(0, APP));
    calls, db := Extend(env, calls, db, Configure(0, APP, {"g"}, {}));
    calls, db := Extend(env, calls, db, Directory({Membership("g", "x")}, map["x" := Some("m")], {}));
    assert db.bindings == {Binding(0, "g")} && db.nominees == {};
  }

  function Always(k: nat): bool { true }

  lemma OneRoster(db: Db)
    requires db.bindings == {Binding(0, "g")} && db.members == {Membership("g", "x")} && db.nominees == {}
    requires db.managers == map["x" := Some("m")]
    ensures Lists([Member("x", Some("m"))], Roster(db, 0)) && Lists([], NomineesOf(db, 0))
  {
    assert Binding(0, "g") in db.bindings && Membership("g", "x") in db.members;
    assert Roster(db, 0) == {Member("x", Some("m"))};
    assert Elements([Member("x", Some("m"))]) == {Member("x", Some("m"))};
    assert NomineesOf(db, 0) == {} == Elements<Sam>([]);
  }

  /** A launch that succeeds has one packet, due in three weeks. */
  lemma OnePacket(env: Env) returns (calls: seq<TimedCall>, db: Db)
    ensures Reachable(env, calls, db) && db.outbox == [] && db.clock == 0
    ensures |db.campaigns| == 1 && db.campaigns[0].status == Active && db.campaigns[0].dueDay == 21
    ensures Unreminded(db, 0) == {0}
  {
    calls, db := OneMember(env);
    OneRoster(db);
    var before, input := db, LaunchInput([Member("x", Some("m"))], [], Always, NoMishap);
    RefusedExactly(LineManager, input.roster, [], Some("owner"));
    assert "owner"[0] == 'o' && "review"[0] == 'r' && !Blank(Some("owner")) && !Blank(Some("review"));
    calls, db := Extend(env, calls, db, LaunchNow(0, "review", None, input));
    var x := Member("x", Some("m"));
    assert x in Roster(before, 0) by { assert x in Elements(input.roster); }
    assert Launches(before, 0, "review", None, input, 0, None, db);
    OnlyOnePacket(before, input, db);
  }

  lemma OnlyOnePacket(before: Db, input: LaunchInput, db: Db)
    requires Launches(before, 0, "review", None, input, 0, None, db)
    requires before.packets == map[] && before.nextPacket == 0 && before.campaigns == [] && before.apps[0] == APP
    requires input.roster == [Member("x", Some("m"))]
    ensures Unreminded(db, 0) == {0}
  {
    var plans := LaunchedPackets(before, 0, "review", None, input, 0, None, db);
    RecipientsDistinct(input.roster, Some("owner"), plans);
    var k := RoutedPlan(input.roster, Some("owner"), plans, input.roster[0]);
    var second := if |plans| > 1 then plans[1].recipient else "";
    assert |plans| > 1 ==> plans[0].recipient != second;
    forall i: nat | i < |plans| ensures plans[i].recipient == "m" {
      PlansAreNotEmpty(LineManager, input.roster, input.nominees, Some("owner"), plans);
      HoldsOnlyRouted(input.roster, Some("owner"), plans, i, plans[i].subjects[0]);
    }
    assert |plans| == 1;
    NewPacketsAre(0, 0, plans, None);
    assert db.packets == NewPackets(0, 0, plans, None);
    assert InCampaign(db, 0, 0);
  }

  /** A reachable state in which a packet got two scheduled reminders, and the log has both. */
  lemma RemindedTwice(env: Env) returns (calls: seq<TimedCall>, db: Db)
    ensures Reachable(env, calls, db)
    ensures Delivered(db.outbox, 0) == 2 && ScheduledOk(db.mail, 0) == 2 && LostAfterRow(db.outbox, 0) == 1
  {
    calls, db := OnePacket(env);
    var first, second := Sends(Always, BeforeStamp(0)), Sends(Always, NoStop);
    calls, db := TickOnce(env, calls, db, first);
    OutboxSnoc([], Delivery(0, Scheduled, true, false), 0);
    assert db.outbox == [] + [Delivery(0, Scheduled, true, false)];
    OutboxSnoc(db.outbox, Delivery(0, Scheduled, true, true), 0);
    calls, db := TickOnce(env, calls, db, second);
    OneScheduledReminder(env, calls, db, 0);
  }

  /** A tick that reminds packet 0, the only one outstanding. */
  lemma TickOnce(env: Env, calls: seq<TimedCall>, db: Db, sends: Sends) returns (longer: seq<TimedCall>, db': Db)
    requires Reachable(env, calls, db) && db.clock == 0 && |db.campaigns| == 1
    requires db.campaigns[0].status == Active && db.campaigns[0].dueDay == 21 && Unreminded(db, 0) == {0}
    ensures Reachable(env, longer, db') && db' == RemindOne(db, 0, Scheduled, sends, 0, 0)
    ensures !sends.WritesStamp(0) ==> Unreminded(db', 0) == {0}
  {
    var batch := Batch(0, [0], sends);
    assert Elements([0]) == {0} && BatchCampaigns([batch]) == [0];
    assert ReminderDue(db, 0, 0, 21);
    assert DueCampaigns(db, 0, 21) == {0} && Lists([0], Unreminded(db, 0));
    assert [0][..0] == [] && SendReminders(db, [], Scheduled, sends, 0) == db;
    assert [] + [batch] == [batch];
    RunBatchesSnoc(db, [], batch, 0);
    longer, db' := Extend(env, calls, db, RemindTick([batch], 21, false));
  }

  // ----- what a tick does -----

  /** What a tick has done so far: whom it wrote to, and whom that stamped. */
  ghost predicate Ticked(db: Db, db': Db, now: Seconds) {
    && OnlyMailed(db, db') && db.mail <= db'.mail && db.outbox <= db'.outbox
    && (forall m | m in db'.mail[|db.mail|..] :: m.kind == Scheduled && Eligible(db, m.packet))
    && (forall d | d in db'.outbox[|db.outbox|..] :: d.kind == Scheduled && Eligible(db, d.packet))
    && (forall p | p in db.packets ::
          db'.packets[p].reminded ==
          if StampedIn(db'.outbox[|db.outbox|..], p) then Some(now) else db.packets[p].reminded)
  }

  ghost predicate Eligible(db: Db, p: PacketId) {
    p in db.packets && db.packets[p].submittedBy == None && db.packets[p].reminded == None
  }

  /** A scheduled reminder to p was delivered and p was stamped. */
  predicate StampedIn(outbox: seq<Delivery>, p: PacketId) {
    Delivery(p, Scheduled, true, true) in outbox
  }

  lemma BatchEffect(before: Db, b: Batch, now: Seconds)
    requires Lists(b.pending, Unreminded(before, b.campaign))
    ensures var db' := SendReminders(before, b.pending, Scheduled, b.sends, now);
            var rows, sent := Rows(b.pending, Scheduled, b.sends), Deliveries(b.pending, Scheduled, b.sends);
            && OnlyMailed(before, db') && db'.mail == before.mail + rows && db'.outbox == before.outbox + sent
            && (forall m | m in rows :: m.kind == Scheduled && m.packet in Unreminded(before, b.campaign))
            && (forall d | d in sent :: d.kind == Scheduled && d.packet in Unreminded(before, b.campaign))
            && (forall p | p in before.packets ::
                  db'.packets[p].reminded == if StampedIn(sent, p) then Some(now) else before.packets[p].reminded)
  {
    SendRemindersEffect(before, b.pending, Scheduled, b.sends, now);
    SendRemindersLogs(before, b.pending, Scheduled, b.sends, now);
    DeliveriesAre(b.pending, Scheduled, b.sends);
    assert forall p | p in b.pending :: p in Elements(b.pending);
  }

  lemma TickBatch(db: Db, before: Db, b: Batch, now: Seconds)
    requires Ticked(db, before, now) && Lists(b.pending, Unreminded(before, b.campaign))
    ensures Ticked(db, SendReminders(before, b.pending, Scheduled, b.sends, now), now)
  {
    BatchEffect(before, b, now);
    var db' := SendReminders(before, b.pending, Scheduled, b.sends, now);
    var rows, sent := Rows(b.pending, Scheduled, b.sends), Deliveries(b.pending, Scheduled, b.sends);
    var mailed, out := before.mail[|db.mail|..], before.outbox[|db.outbox|..];
    assert db'.mail[|db.mail|..] == mailed + rows && db'.outbox[|db.outbox|..] == out + sent;
    assert forall p | p in Unreminded(before, b.campaign) :: Eligible(db, p);
    assert forall m :: m in mailed + rows <==> m in mailed || m in rows;
    assert forall d :: d in out + sent <==> d in out || d in sent;
  }

  /**
   A scheduler tick, finished or not, writes only to packets that are outstanding and not yet reminded
   when it starts. Those delivered and stamped end stamped, and no others: after a failed send, or a
   failed statement before the stamp, the packet stays eligible.
   */
  lemma {:induction false} TickRemindsOutstanding(db: Db, batches: seq<Batch>, now: Seconds)
    requires RunBatches(db, batches, now).Some?
    ensures Ticked(db, RunBatches(db, batches, now).value, now)
  {
    if batches != [] {
      var n := |batches| - 1;
      TickRemindsOutstanding(db, batches[..n], now);
      TickBatch(db, RunBatches(db, batches[..n], now).value, batches[n], now);
    }
  }
}
