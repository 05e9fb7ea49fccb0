/**
 The attestation tables, and every service call on them as one step: registration and archive
 lifecycle (AuditingService), launch, submit, close, reminders and the scheduler (CampaignService).
 */
module Campaigns {
  import opened Common
  import opened Decisions
  import opened Routing

  type AppId = nat
  type CampaignId = nat  // the serial number of the row, which is never deleted
  type PacketId = nat
  type Dn = string
  type Seconds = int
  type Day = int

  datatype App = App(active: bool, archived: bool, mode: Mode, owner: Option<Sam>, dueDays: int,
                     frequency: Option<nat>, autoLaunch: bool, fromAuditing: bool)

  datatype Status = Draft | Active | Closed

  datatype Closure = AllPackets | AnyPacket

  /** `auto` is history: the cadence in force when the scheduler launched it. */
  datatype Campaign = Campaign(app: AppId, status: Status, closure: Closure, createdAt: Seconds, dueDay: Day,
                               closedBy: Option<PacketId>, auto: Option<nat>)

  datatype Packet = Packet(campaign: CampaignId, recipient: Sam, kind: Kind, subjects: seq<Sam>,
                           submittedBy: Option<Sam>, reminded: Option<Seconds>)

  datatype Binding = Binding(app: AppId, dn: Dn)
  datatype Nominee = Nominee(app: AppId, sam: Sam)
  datatype Membership = Membership(dn: Dn, sam: Sam)
  datatype Decision = Decision(packet: PacketId, subject: Sam, verdict: string)

  datatype MailKind = Invite | Manual | Scheduled
  datatype Mail = Mail(packet: PacketId, kind: MailKind, ok: bool)

  /** A reminder the mail server took, and whether its log row and its stamp on the packet were written after it. */
  datatype Delivery = Delivery(packet: PacketId, kind: MailKind, logged: bool, stamped: bool)

  /**
   `referenced` are the applications that licences or servers point to. `handClosed`, `deleted` and
   `outbox` are history: campaigns closed by CloseAsync, applications dropped outright, reminders delivered.
   */
  datatype Db = Db(
    apps: map<AppId, App>,
    bindings: set<Binding>,
    nominees: set<Nominee>,
    members: set<Membership>,
    managers: map<Sam, Option<Sam>>,
    referenced: set<AppId>,
    campaigns: seq<Campaign>,
    packets: map<PacketId, Packet>,
    nextPacket: PacketId,
    decisions: seq<Decision>,
    mail: seq<Mail>,
    clock: Seconds,
    handClosed: set<CampaignId>,
    deleted: set<AppId>,
    outbox: seq<Delivery>)

  /** Case mapping of the identity gate, and interval arithmetic in calendar months. */
  datatype Env = Env(upper: char -> char, addMonths: (Seconds, nat) -> Seconds)

  const EMPTY := Db(map[], {}, {}, {}, map[], {}, [], map[], 0, [], [], 0, {}, {}, [])

  /** The rows of a query without ORDER BY: each once, in any order. */
  ghost predicate Lists<T(!new)>(rows: seq<T>, s: set<T>) {
    NoDup(rows) && Elements(rows) == s
  }

  // ----- queries -----

  predicate Open(db: Db, c: CampaignId) {
    c < |db.campaigns| && db.campaigns[c].status != Closed
  }

  predicate HasOpen(db: Db, a: AppId) {
    exists c | 0 <= c < |db.campaigns| :: db.campaigns[c].app == a && db.campaigns[c].status != Closed
  }

  predicate HasCampaign(db: Db, a: AppId) {
    exists c | 0 <= c < |db.campaigns| :: db.campaigns[c].app == a
  }

  function ManagerOf(db: Db, s: Sam): Option<Sam> {
    if s in db.managers then db.managers[s] else None
  }

  function Roster(db: Db, a: AppId): set<Member> {
    set b, m | b in db.bindings && m in db.members && b.app == a && b.dn == m.dn :: Member(m.sam, ManagerOf(db, m.sam))
  }

  function NomineesOf(db: Db, a: AppId): set<Sam> {
    set n | n in db.nominees && n.app == a :: n.sam
  }

  function Outstanding(db: Db, c: CampaignId): set<PacketId> {
    set p | p in db.packets && db.packets[p].campaign == c && db.packets[p].submittedBy == None
  }

  function Unreminded(db: Db, c: CampaignId): set<PacketId> {
    set p | p in Outstanding(db, c) && db.packets[p].reminded == None
  }

  /** SELECT MAX(created_at) over the first n campaigns, for one application. */
  function LastCreated(campaigns: seq<Campaign>, a: AppId): Option<Seconds> {
    if campaigns == [] then None
    else
      var before, last := LastCreated(campaigns[..|campaigns| - 1], a), campaigns[|campaigns| - 1];
      if last.app != a then before
      else if before.Some? && before.value >= last.createdAt then before
      else Some(last.createdAt)
  }

  predicate Due(env: Env, db: Db, a: AppId, now: Seconds) {
    && a in db.apps && db.apps[a].active && !db.apps[a].archived && db.apps[a].autoLaunch
    && db.apps[a].frequency.Some?
    && (exists b | b in db.bindings :: b.app == a)
    && !HasOpen(db, a)
    && (LastCreated(db.campaigns, a).None?
        || env.addMonths(LastCreated(db.campaigns, a).value, db.apps[a].frequency.value) <= now)
  }

  function Today(now: Seconds): Day {
    now / 86400
  }

  predicate ReminderDue(db: Db, c: CampaignId, now: Seconds, window: nat) {
    && c < |db.campaigns| && db.campaigns[c].status == Active
    && Today(now) <= db.campaigns[c].dueDay <= Today(now) + window
    && Unreminded(db, c) != {}
  }

  // ----- the application lifecycle -----

  /** Error is an unexpected exception. */
  datatype Reply = Ok | NotFound | Forbidden | BadRequest | Conflict | Error

  function Archive(db: Db, a: AppId): (Db, Reply) {
    if HasOpen(db, a) then (db, Conflict)
    else if a !in db.apps || !db.apps[a].active then (db, NotFound)
    else (db.(apps := db.apps[a := db.apps[a].(archived := true)]), Reply.Ok)
  }

  function Restore(db: Db, a: AppId): (Db, Reply) {
    if a !in db.apps || !db.apps[a].active || !db.apps[a].archived then (db, NotFound)
    else (db.(apps := db.apps[a := db.apps[a].(archived := false)]), Reply.Ok)
  }

  function WithoutConfig(db: Db, a: AppId): Db {
    db.(bindings := (set b | b in db.bindings && b.app != a), nominees := (set n | n in db.nominees && n.app != a))
  }

  function SoftUnregister(db: Db, a: AppId): Db
    requires a in db.apps
  {
    WithoutConfig(db, a).(
      apps := db.apps[a := db.apps[a].(frequency := None, autoLaunch := false, mode := LineManager,
                                       dueDays := 21, archived := false)])
  }

  function HardDelete(db: Db, a: AppId): Db {
    WithoutConfig(db, a).(apps := db.apps - {a}, deleted := db.deleted + {a})
  }

  /** `dbError`: the hard delete, if tried, fails in the database and falls back to the soft one. */
  function Delete(db: Db, a: AppId, dbError: bool): (Db, Reply) {
    if HasOpen(db, a) then (db, Conflict)
    else if a !in db.apps || !db.apps[a].active then (db, NotFound)
    else if db.apps[a].fromAuditing && !HasCampaign(db, a) && a !in db.referenced && !dbError
    then (HardDelete(db, a), Reply.Ok)
    else (SoftUnregister(db, a), Reply.Ok)
  }

  // ----- launch -----

  /** Failed is an unexpected exception, from before or after the commit. */
  datatype LaunchReply = Launched(campaign: CampaignId) | NoName | NoApplication | IsArchived | AlreadyOpen
                       | Refused(why: Refusal) | Failed

  /** Whether a statement fails unexpectedly: before the commit, or after that many invitations are logged. */
  datatype Mishap = NoMishap | BeforeCommit | AfterCommit(logged: nat)

  /** Query results in the order the database returned them, the fate of each invitation, and of the statements. */
  datatype LaunchInput = LaunchInput(roster: seq<Member>, nominees: seq<Sam>, sent: nat -> bool, mishap: Mishap)

  ghost predicate InputFor(db: Db, a: AppId, input: LaunchInput) {
    Lists(input.roster, Roster(db, a)) && Lists(input.nominees, NomineesOf(db, a))
  }

  /** Subjects of a packet: a second row for the same account is ignored. */
  function SubjectSams(ms: seq<Member>): seq<Sam> {
    if ms == [] then []
    else
      var before, last := SubjectSams(ms[..|ms| - 1]), ms[|ms| - 1].sam;
      if last in before then before else before + [last]
  }

  function PacketFor(c: CampaignId, plan: Plan, reminded: Option<Seconds>): Packet {
    Packet(c, plan.recipient, plan.kind, SubjectSams(plan.subjects), None, reminded)
  }

  /** The rows inserted for a list of plans, numbered from `first`. */
  function NewPackets(first: PacketId, c: CampaignId, plans: seq<Plan>, reminded: Option<Seconds>)
    : map<PacketId, Packet>
  {
    if plans == [] then map[]
    else
      var n := |plans| - 1;
      NewPackets(first, c, plans[..n], reminded)[first + n := PacketFor(c, plans[n], reminded)]
  }

  function Invites(first: PacketId, n: nat, sent: nat -> bool): seq<Mail> {
    seq(n, i requires 0 <= i < n => Mail(first + i, Invite, sent(i)))
  }

  /** How many of n invitations are logged. */
  function Logged(mishap: Mishap, n: nat): nat {
    if mishap.AfterCommit? && mishap.logged < n then mishap.logged else n
  }

  function Launch(db: Db, a: AppId, name: string, dueDay: Option<Day>, input: LaunchInput, now: Seconds,
                  auto: Option<nat>)
    : (Db, LaunchReply)
  {
    if Blank(Some(name)) then (db, NoName)
    else if input.mishap.BeforeCommit? then (db, Failed)
    else if a !in db.apps || !db.apps[a].active then (db, NoApplication)
    else if db.apps[a].archived then (db, IsArchived)
    else if HasOpen(db, a) then (db, AlreadyOpen)
    else
      match Plans(db.apps[a].mode, input.roster, input.nominees, db.apps[a].owner)
      case Err(why) => (db, Refused(why))
      case Ok(plans) =>
        (Persist(db, a, dueDay, plans, input, now, auto),
         if input.mishap.NoMishap? then Launched(|db.campaigns|) else Failed)
  }

  function NewCampaign(app: App, a: AppId, dueDay: Option<Day>, now: Seconds, auto: Option<nat>): Campaign {
    Campaign(a, Active, if app.mode == Nominees then AnyPacket else AllPackets, now,
             if dueDay.Some? then dueDay.value else Today(now) + app.dueDays, None, auto)
  }

  function Persist(db: Db, a: AppId, dueDay: Option<Day>, plans: seq<Plan>, input: LaunchInput, now: Seconds,
                   auto: Option<nat>): Db
    requires a in db.apps
  {
    var stamp := if db.apps[a].dueDays <= 7 then Some(now) else None;
    db.(campaigns := db.campaigns + [NewCampaign(db.apps[a], a, dueDay, now, auto)],
        packets := db.packets + NewPackets(db.nextPacket, |db.campaigns|, plans, stamp),
        nextPacket := db.nextPacket + |plans|,
        mail := db.mail + Invites(db.nextPacket, Logged(input.mishap, |plans|), input.sent))
  }

  // ----- submit and close -----

  function DecisionRows(p: PacketId, ds: seq<Input>): seq<Decision> {
    seq(|ds|, i requires 0 <= i < |ds| => Decision(p, ds[i].subject, ds[i].verdict))
  }

  ghost function Submit(env: Env, db: Db, p: PacketId, caller: Sam, ds: seq<Input>): (Db, Reply) {
    if p !in db.packets || db.packets[p].campaign >= |db.campaigns| then (db, NotFound)
    else if !SamEquals(env.upper, db.packets[p].recipient, caller) then (db, Forbidden)
    else if db.packets[p].submittedBy.Some? || db.campaigns[db.packets[p].campaign].status == Closed then (db, Conflict)
    else if !Complete(ds, db.packets[p].subjects) then (db, BadRequest)
    else (AfterSubmit(db, p, caller, ds), Reply.Ok)
  }

  function Claimed(db: Db, p: PacketId, caller: Sam, ds: seq<Input>): Db
    requires p in db.packets
  {
    db.(packets := db.packets[p := db.packets[p].(submittedBy := Some(caller))],
        decisions := db.decisions + DecisionRows(p, ds))
  }

  /** The closure rule, after p is claimed: any_packet closes at once, all_packets with the last one. */
  function ClosedBy(db: Db, p: PacketId): seq<Campaign>
    requires p in db.packets && db.packets[p].campaign < |db.campaigns|
  {
    var c := db.packets[p].campaign;
    var row := db.campaigns[c];
    if row.status != Active then db.campaigns
    else if row.closure == AnyPacket then db.campaigns[c := row.(status := Closed, closedBy := Some(p))]
    else if Outstanding(db, c) == {} then db.campaigns[c := row.(status := Closed)]
    else db.campaigns
  }

  function AfterSubmit(db: Db, p: PacketId, caller: Sam, ds: seq<Input>): Db
    requires p in db.packets && db.packets[p].campaign < |db.campaigns|
  {
    var claimed := Claimed(db, p, caller, ds);
    claimed.(campaigns := ClosedBy(claimed, p))
  }

  function CloseCampaign(db: Db, c: CampaignId): (Db, Reply) {
    if !Open(db, c) then (db, NotFound)
    else
      (db.(campaigns := db.campaigns[c := db.campaigns[c].(status := Closed)], handClosed := db.handClosed + {c}),
       Reply.Ok)
  }

  // ----- the attestation page -----

  /** What a recipient is shown: `ClosedByOther` comes with the decisions of the packet it names. */
  datatype Page = Pending | AlreadySubmitted | ClosedByOther(packet: PacketId)

  ghost predicate SubmittedIn(db: Db, c: CampaignId, q: PacketId) {
    q in db.packets && db.packets[q].campaign == c && db.packets[q].submittedBy.Some?
  }

  /** BuildViewAsync; the closing packet is one of the campaign's submitted packets. */
  ghost predicate Shows(db: Db, p: PacketId, page: Page)
    requires p in db.packets && db.packets[p].campaign < |db.campaigns|
  {
    var c := db.packets[p].campaign;
    if db.packets[p].submittedBy.Some? then page == AlreadySubmitted
    else if db.campaigns[c].status == Closed && db.campaigns[c].closure == AnyPacket
            && exists q :: SubmittedIn(db, c, q)
    then page.ClosedByOther? && SubmittedIn(db, c, page.packet)
    else page == Pending
  }

  // ----- reminders -----

  /** Whether a statement after a batch is delivered fails: the log row of a position, or its stamp after the row. */
  datatype Stop = NoStop | BeforeRow(at: nat) | BeforeStamp(at: nat)

  /** The results of a batch, by position, and where the loop over them stops. */
  datatype Sends = Sends(ok: nat -> bool, stop: Stop) {
    /** An exception was thrown at a position before i. */
    predicate Stopped(i: nat) {
      (stop.BeforeRow? && stop.at < i) || (stop.BeforeStamp? && stop.at < i && ok(stop.at))
    }

    predicate WritesRow(i: nat) {
      !Stopped(i) && stop != BeforeRow(i)
    }

    predicate WritesStamp(i: nat) {
      WritesRow(i) && ok(i) && stop != BeforeStamp(i)
    }
  }

  function RemindOne(db: Db, p: PacketId, kind: MailKind, sends: Sends, i: nat, now: Seconds): Db {
    db.(mail := if sends.WritesRow(i) then db.mail + [Mail(p, kind, sends.ok(i))] else db.mail,
        packets := if sends.WritesStamp(i) && p in db.packets
                   then db.packets[p := db.packets[p].(reminded := Some(now))] else db.packets,
        outbox := if sends.ok(i)
                  then db.outbox + [Delivery(p, kind, sends.WritesRow(i), sends.WritesStamp(i))] else db.outbox)
  }

  /**
   The whole batch is delivered first. Then every send is logged in order, and the packets whose send
   succeeded are stamped, up to where a statement fails.
   */
  function SendReminders(db: Db, pending: seq<PacketId>, kind: MailKind, sends: Sends, now: Seconds): Db {
    if pending == [] then db
    else
      var n := |pending| - 1;
      RemindOne(SendReminders(db, pending[..n], kind, sends, now), pending[n], kind, sends, n, now)
  }

  /** RemindAsync: everyone outstanding, reminded before or not. */
  function Remind(db: Db, c: CampaignId, pending: seq<PacketId>, sends: Sends, now: Seconds): (Db, Reply) {
    if c >= |db.campaigns| || db.campaigns[c].status != Active then (db, Conflict)
    else
      (SendReminders(db, pending, Manual, sends, now), if sends.Stopped(|pending|) then Reply.Error else Reply.Ok)
  }

  /** RemindPacketAsync: one outstanding packet of that campaign. */
  function RemindSingle(db: Db, c: CampaignId, p: PacketId, sends: Sends, now: Seconds): (Db, Reply) {
    if p in db.packets && db.packets[p].campaign == c && db.packets[p].submittedBy == None
    then Remind(db, c, [p], sends, now)
    else (db, Conflict)
  }

  // ----- the scheduler -----

  /** One due campaign of a reminder tick, with its outstanding packets not yet reminded. */
  datatype Batch = Batch(campaign: CampaignId, pending: seq<PacketId>, sends: Sends) {
    /** The tick ends with this campaign. */
    predicate Stopped() {
      sends.Stopped(|pending|)
    }
  }

  function BatchCampaigns(batches: seq<Batch>): seq<CampaignId> {
    seq(|batches|, i requires 0 <= i < |batches| => batches[i].campaign)
  }

  ghost function RunBatches(db: Db, batches: seq<Batch>, now: Seconds): Option<Db> {
    if batches == [] then Some(db)
    else
      var n := |batches| - 1;
      match RunBatches(db, batches[..n], now)
      case None => None
      case Some(before) =>
        if (n > 0 ==> !batches[n - 1].Stopped()) && Lists(batches[n].pending, Unreminded(before, batches[n].campaign))
        then Some(SendReminders(before, batches[n].pending, Scheduled, batches[n].sends, now))
        else None
  }

  lemma RunBatchesSnoc(db: Db, batches: seq<Batch>, b: Batch, now: Seconds)
    requires RunBatches(db, batches, now).Some?
    requires Lists(b.pending, Unreminded(RunBatches(db, batches, now).value, b.campaign))
    requires batches != [] ==> !batches[|batches| - 1].Stopped()
    ensures RunBatches(db, batches + [b], now) ==
            Some(SendReminders(RunBatches(db, batches, now).value, b.pending, Scheduled, b.sends, now))
  {
    assert (batches + [b])[..|batches|] == batches;
  }

  function DueCampaigns(db: Db, now: Seconds, window: nat): set<CampaignId> {
    set c | 0 <= c < |db.campaigns| && ReminderDue(db, c, now, window)
  }

  /** The rows of a query that were handled, each once: all of them, unless the loop was cut short. */
  ghost predicate Handles<T(!new)>(rows: seq<T>, s: set<T>, short: bool) {
    NoDup(rows) && Elements(rows) <= s && (!short ==> Elements(rows) == s)
  }

  /** `cut`: the query for the next campaign's packets fails, and the tick ends there. */
  ghost function ReminderTick(db: Db, batches: seq<Batch>, now: Seconds, window: nat, cut: bool): Option<Db> {
    var short := cut || (batches != [] && batches[|batches| - 1].Stopped());
    if Handles(BatchCampaigns(batches), DueCampaigns(db, now, window), short) then RunBatches(db, batches, now)
    else None
  }

  /** One due application of an auto-launch tick. */
  datatype AutoLaunch = AutoLaunch(app: AppId, name: string, input: LaunchInput)

  function AutoApps(launches: seq<AutoLaunch>): seq<AppId> {
    seq(|launches|, i requires 0 <= i < |launches| => launches[i].app)
  }

  lemma AutoAppsSnoc(launches: seq<AutoLaunch>, l: AutoLaunch)
    ensures AutoApps(launches + [l]) == AutoApps(launches) + [l.app]
  {
  }

  /** What the launch of the tick's entry l does to the tables it finds. */
  ghost function LaunchAuto(before: Db, l: AutoLaunch, now: Seconds): (Db, LaunchReply)
    requires l.app in before.apps
  {
    Launch(before, l.app, l.name, None, l.input, now, before.apps[l.app].frequency)
  }

  ghost function RunLaunches(db: Db, launches: seq<AutoLaunch>, now: Seconds): Option<Db> {
    if launches == [] then Some(db)
    else
      var n := |launches| - 1;
      match RunLaunches(db, launches[..n], now)
      case None => None
      case Some(before) =>
        var l := launches[n];
        if l.app in before.apps && InputFor(before, l.app, l.input)
        then Some(LaunchAuto(before, l, now).0)
        else None
  }

  /** How many of them are answered with a campaign. */
  ghost function CountLaunched(db: Db, launches: seq<AutoLaunch>, now: Seconds): nat
    requires RunLaunches(db, launches, now).Some?
  {
    if launches == [] then 0
    else
      var n := |launches| - 1;
      CountLaunched(db, launches[..n], now)
      + if LaunchAuto(RunLaunches(db, launches[..n], now).value, launches[n], now).1.Launched? then 1 else 0
  }

  /** How many write their campaign and then fail. */
  ghost function CountUnreported(db: Db, launches: seq<AutoLaunch>, now: Seconds): nat
    requires RunLaunches(db, launches, now).Some?
  {
    if launches == [] then 0
    else
      var n := |launches| - 1;
      var before := RunLaunches(db, launches[..n], now).value;
      CountUnreported(db, launches[..n], now)
      + if launches[n].input.mishap.AfterCommit? && LaunchAuto(before, launches[n], now).1.Failed? then 1 else 0
  }

  /** The tick's count misses exactly the campaigns whose launch failed after its commit. */
  lemma {:induction false} LaunchesCounted(db: Db, launches: seq<AutoLaunch>, now: Seconds)
    requires RunLaunches(db, launches, now).Some?
    ensures |RunLaunches(db, launches, now).value.campaigns| ==
            |db.campaigns| + CountLaunched(db, launches, now) + CountUnreported(db, launches, now)
  {
    if launches != [] {
      LaunchesCounted(db, launches[..|launches| - 1], now);
    }
  }

  lemma RunLaunchesSnoc(db: Db, launches: seq<AutoLaunch>, l: AutoLaunch, now: Seconds)
    requires RunLaunches(db, launches, now).Some? && l.app in RunLaunches(db, launches, now).value.apps
    requires InputFor(RunLaunches(db, launches, now).value, l.app, l.input)
    ensures var step := LaunchAuto(RunLaunches(db, launches, now).value, l, now);
            && RunLaunches(db, launches + [l], now) == Some(step.0)
            && CountLaunched(db, launches + [l], now) ==
               CountLaunched(db, launches, now) + if step.1.Launched? then 1 else 0
  {
    assert (launches + [l])[..|launches|] == launches;
  }

  function DueApps(env: Env, db: Db, now: Seconds): set<AppId> {
    set a | a in db.apps && Due(env, db, a, now)
  }

  /** `cut`: the tick's own log row for a launch that was refused or failed cannot be written, and the tick ends. */
  ghost function AutoLaunchTick(env: Env, db: Db, launches: seq<AutoLaunch>, now: Seconds, cut: bool): Option<Db> {
    if Handles(AutoApps(launches), DueApps(env, db, now), cut) then RunLaunches(db, launches, now) else None
  }

  // ----- steps and runs -----

  /**
   Configure stands for the edits of one application (its row, bindings and nominees), which
   an archived one refuses; Directory for a sync of the AD tables and of the outside references.
   */
  datatype Call =
    | Create(app: AppId, row: App)
    | Configure(app: AppId, row: App, dns: set<Dn>, sams: set<Sam>)
    | Directory(members: set<Membership>, managers: map<Sam, Option<Sam>>, referenced: set<AppId>)
    | ArchiveApp(app: AppId)
    | RestoreApp(app: AppId)
    | DeleteApp(app: AppId, dbError: bool)
    | LaunchNow(app: AppId, name: string, dueDay: Option<Day>, input: LaunchInput)
    | SubmitPacket(packet: PacketId, caller: Sam, decisions: seq<Input>)
    | CloseByHand(campaign: CampaignId)
    | RemindAll(campaign: CampaignId, pending: seq<PacketId>, sends: Sends)
    | RemindPacket(campaign: CampaignId, packet: PacketId, sends: Sends)
    | LaunchTick(launches: seq<AutoLaunch>, cut: bool)
    | RemindTick(batches: seq<Batch>, window: nat, cut: bool)

  /** An edit keeps what no edit sets: whether the row is active, archived, or made by auditing. */
  predicate SameLifecycle(before: App, after: App) {
    before.active == after.active && before.archived == after.archived && before.fromAuditing == after.fromAuditing
  }

  /** The database after one call at time `now`; None for arguments no call can have. */
  ghost function Step(env: Env, db: Db, call: Call, now: Seconds): Option<Db> {
    if now < db.clock then None else StepAt(env, db.(clock := now), call)
  }

  ghost function StepAt(env: Env, db: Db, call: Call): Option<Db> {
    match call
    case Create(a, row) =>
      if a in db.apps || a in db.deleted || !row.active || row.archived then None
      else Some(db.(apps := db.apps[a := row]))
    case Configure(a, row, dns, sams) =>
      if a !in db.apps || !db.apps[a].active || db.apps[a].archived || !SameLifecycle(db.apps[a], row) then None
      else Some(db.(apps := db.apps[a := row],
                    bindings := WithoutConfig(db, a).bindings + (set dn | dn in dns :: Binding(a, dn)),
                    nominees := WithoutConfig(db, a).nominees + (set s | s in sams :: Nominee(a, s))))
    case Directory(members, managers, referenced) =>
      Some(db.(members := members, managers := managers, referenced := referenced))
    case ArchiveApp(a) => Some(Archive(db, a).0)
    case RestoreApp(a) => Some(Restore(db, a).0)
    case DeleteApp(a, dbError) => Some(Delete(db, a, dbError).0)
    case LaunchNow(a, name, dueDay, input) =>
      if InputFor(db, a, input) then Some(Launch(db, a, name, dueDay, input, db.clock, None).0) else None
    case SubmitPacket(p, caller, ds) => Some(Submit(env, db, p, caller, ds).0)
    case CloseByHand(c) => Some(CloseCampaign(db, c).0)
    case RemindAll(c, pending, sends) =>
      if Lists(pending, Outstanding(db, c)) then Some(Remind(db, c, pending, sends, db.clock).0) else None
    case RemindPacket(c, p, sends) => Some(RemindSingle(db, c, p, sends, db.clock).0)
    case LaunchTick(launches, cut) => AutoLaunchTick(env, db, launches, db.clock, cut)
    case RemindTick(batches, window, cut) => ReminderTick(db, batches, db.clock, window, cut)
  }

  datatype TimedCall = At(now: Seconds, call: Call)

  ghost function Run(env: Env, db: Db, calls: seq<TimedCall>): Option<Db>
    decreases calls
  {
    if calls == [] then Some(db)
    else
      match Step(env, db, calls[0].call, calls[0].now)
      case None => None
      case Some(db') => Run(env, db', calls[1..])
  }
}
