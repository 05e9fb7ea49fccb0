/**
 Many Submit transactions at once, statement by statement, under READ COMMITTED
 (section 13.2.1 of the PostgreSQL manual). A statement sees what is committed when it
 starts; an UPDATE of a row that another open transaction has updated waits for that
 transaction and then looks at the row again. A step that has to wait is not enabled.

 What a transaction has written but not committed follows from where it stands, so the
 row locks are not stored: they are the predicates HoldsPacket and HoldsCampaign.
 */
module SubmitTransactions {
  import opened Common
  import opened Decisions

  type PacketId = nat
  type CampaignId = nat
  type TxId = nat

  datatype ClosureMode = AllPackets | AnyPacket

  datatype Packet = Packet(campaign: CampaignId, recipient: Sam, subjects: seq<Sam>)

  /** What a launch fixed once and for all; `upper` is the case mapping of the identity check. */
  datatype Layout = Layout(packets: map<PacketId, Packet>, mode: map<CampaignId, ClosureMode>, upper: char -> char) {
    ghost predicate Valid() {
      forall p | p in packets :: packets[p].campaign in mode && NoDup(packets[p].subjects)
    }
  }

  datatype DecisionRow = DecisionRow(packet: PacketId, subject: Sam, verdict: string, tx: TxId)

  /** closed_by_packet_id is recorded by an any_packet closure only. */
  datatype Closure = ByHand | BySubmit(tx: TxId, packet: Option<PacketId>)

  datatype Outcome = Done | NotFound | Forbidden | BadRequest | Conflict | Failed

  /** `seen` is the set of submitted packets in the snapshot of the closure statement. */
  datatype Pc =
    | Begun
    | Loaded
    | Checked
    | Inserting(next: nat)
    | ClosureRead(seen: set<PacketId>, wants: bool)
    | ReadyToCommit(seen: set<PacketId>, closes: bool)
    | Ended(outcome: Outcome)

  /** `start` is the set of submitted packets when the transaction loaded its packet. */
  datatype Tx = Tx(packet: PacketId, caller: Sam, decisions: seq<Input>, start: set<PacketId>, pc: Pc)

  datatype Commit = Commit(tx: TxId, packet: PacketId, start: set<PacketId>, seen: set<PacketId>)

  /** The committed tables, the transactions, and the history of commits. */
  datatype State = State(
    txs: map<TxId, Tx>,
    claims: map<PacketId, TxId>,
    rows: seq<DecisionRow>,
    closed: map<CampaignId, Closure>,
    commits: seq<Commit>)

  datatype Step =
    | Begin(t: TxId, packet: PacketId, caller: Sam, decisions: seq<Input>)
    | Load(t: TxId)
    | Check(t: TxId)
    | Claim(t: TxId)
    | Insert(t: TxId)
    | ReadClosure(t: TxId)
    | WriteClosure(t: TxId)
    | CommitTx(t: TxId)
    | Abort(t: TxId)
    | CloseByHand(c: CampaignId)

  const INITIAL := State(map[], map[], [], map[], [])

  // ----- who holds which row -----

  predicate Claiming(tx: Tx) {
    tx.pc.Inserting? || tx.pc.ClosureRead? || tx.pc.ReadyToCommit?
  }

  ghost predicate HoldsPacket(s: State, t: TxId, p: PacketId) {
    t in s.txs && Claiming(s.txs[t]) && s.txs[t].packet == p
  }

  ghost predicate HoldsCampaign(l: Layout, s: State, t: TxId, c: CampaignId) {
    && t in s.txs && s.txs[t].pc.ReadyToCommit? && s.txs[t].pc.closes
    && s.txs[t].packet in l.packets && l.packets[s.txs[t].packet].campaign == c
  }

  ghost predicate CampaignLocked(l: Layout, s: State, c: CampaignId) {
    exists u :: HoldsCampaign(l, s, u, c)
  }

  /** How many of its decisions a transaction has inserted. */
  function Inserted(tx: Tx): nat {
    match tx.pc
    case Inserting(k) => if k <= |tx.decisions| then k else |tx.decisions|
    case ClosureRead(_, _) => |tx.decisions|
    case ReadyToCommit(_, _) => |tx.decisions|
    case _ => 0
  }

  /** The unique index on (packet, subject): a committed row or one of the same transaction clashes. */
  ghost predicate Clash(s: State, t: TxId, k: nat)
    requires t in s.txs && k < |s.txs[t].decisions|
  {
    var tx := s.txs[t];
    || (exists i | 0 <= i < |s.rows| :: s.rows[i].packet == tx.packet && s.rows[i].subject == tx.decisions[k].subject)
    || (exists j | 0 <= j < k :: tx.decisions[j].subject == tx.decisions[k].subject)
  }

  /** The same key inserted by another open transaction: the insert waits. */
  ghost predicate MustWait(s: State, t: TxId, k: nat)
    requires t in s.txs && k < |s.txs[t].decisions|
  {
    exists u, j :: u != t && HoldsPacket(s, u, s.txs[t].packet) && 0 <= j < Inserted(s.txs[u])
                   && s.txs[u].decisions[j].subject == s.txs[t].decisions[k].subject
  }

  predicate SameSam(l: Layout, a: Sam, b: Sam) {
    SamEquals(l.upper, a, b)
  }

  /** All packets of p's campaign other than p are in `seen`. */
  ghost predicate Covers(l: Layout, seen: set<PacketId>, p: PacketId)
    requires p in l.packets
  {
    forall q | q in l.packets && l.packets[q].campaign == l.packets[p].campaign :: q == p || q in seen
  }

  function RowsFor(t: TxId, p: PacketId, ds: seq<Input>): seq<DecisionRow> {
    seq(|ds|, i requires 0 <= i < |ds| => DecisionRow(p, ds[i].subject, ds[i].verdict, t))
  }

  /** The reason to close p's campaign, on the snapshot `seen`. */
  ghost predicate Due(l: Layout, seen: set<PacketId>, p: PacketId)
    requires p in l.packets
  {
    var c := l.packets[p].campaign;
    c in l.mode && (l.mode[c] == AnyPacket || Covers(l, seen, p))
  }

  // ----- the statements -----

  ghost function Put(s: State, t: TxId, tx: Tx): State {
    s.(txs := s.txs[t := tx])
  }

  ghost function Move(s: State, t: TxId, pc: Pc): State
    requires t in s.txs
  {
    Put(s, t, s.txs[t].(pc := pc))
  }

  ghost predicate CanCommit(l: Layout, s: State, t: TxId) {
    && t in s.txs && s.txs[t].pc.ReadyToCommit?
    && s.txs[t].packet in l.packets && l.packets[s.txs[t].packet].campaign in l.mode
  }

  /** What a transaction has written becomes visible, all at once. */
  ghost function AfterCommit(l: Layout, s: State, t: TxId): State
    requires CanCommit(l, s, t)
  {
    var tx := s.txs[t];
    var c := l.packets[tx.packet].campaign;
    Move(s, t, Ended(Done)).(
      claims := s.claims[tx.packet := t],
      rows := s.rows + RowsFor(t, tx.packet, tx.decisions),
      closed := if tx.pc.closes
                then s.closed[c := BySubmit(t, if l.mode[c] == AnyPacket then Some(tx.packet) else None)]
                else s.closed,
      commits := s.commits + [Commit(t, tx.packet, tx.start, tx.pc.seen)])
  }

  /** None: the step is not enabled, because the transaction is elsewhere or has to wait. */
  ghost function Exec(l: Layout, s: State, step: Step): Option<State> {
    match step
    case Begin(t, p, caller, ds) =>
      if t in s.txs then None else Some(Put(s, t, Tx(p, caller, ds, {}, Begun)))
    case CloseByHand(c) =>
      if CampaignLocked(l, s, c) then None
      else if c in s.closed then Some(s)
      else Some(s.(closed := s.closed[c := ByHand]))
    case _ =>
      if step.t !in s.txs || s.txs[step.t].pc.Ended? then None else ExecOpen(l, s, step)
  }

  ghost function ExecOpen(l: Layout, s: State, step: Step): Option<State>
    requires !step.Begin? && !step.CloseByHand? && step.t in s.txs && !s.txs[step.t].pc.Ended?
  {
    var t, tx := step.t, s.txs[step.t];
    match step
    case Load(_) =>
      if !tx.pc.Begun? then None
      else if tx.packet !in l.packets then Some(Move(s, t, Ended(NotFound)))
      else if !SameSam(l, l.packets[tx.packet].recipient, tx.caller) then Some(Move(s, t, Ended(Forbidden)))
      else if tx.packet in s.claims || l.packets[tx.packet].campaign in s.closed then Some(Move(s, t, Ended(Conflict)))
      else Some(Put(s, t, tx.(start := s.claims.Keys, pc := Loaded)))
    case Check(_) =>
      if !tx.pc.Loaded? || tx.packet !in l.packets then None
      else if Complete(tx.decisions, l.packets[tx.packet].subjects) then Some(Move(s, t, Checked))
      else Some(Move(s, t, Ended(BadRequest)))
    case Claim(_) =>
      if !tx.pc.Checked? || (exists u :: u != t && HoldsPacket(s, u, tx.packet)) then None
      else if tx.packet in s.claims then Some(Move(s, t, Ended(Conflict)))
      else Some(Move(s, t, Inserting(0)))
    case Insert(_) =>
      if !tx.pc.Inserting? || tx.pc.next >= |tx.decisions| || MustWait(s, t, tx.pc.next) then None
      else if Clash(s, t, tx.pc.next) then Some(Move(s, t, Ended(Failed)))
      else Some(Move(s, t, Inserting(tx.pc.next + 1)))
    case ReadClosure(_) =>
      if !tx.pc.Inserting? || tx.pc.next < |tx.decisions| || tx.packet !in l.packets
         || l.packets[tx.packet].campaign !in l.mode then None
      else
        var c := l.packets[tx.packet].campaign;
        var wants := c !in s.closed && Due(l, s.claims.Keys, tx.packet);
        Some(Move(s, t, ClosureRead(s.claims.Keys, wants)))
    case WriteClosure(_) =>
      if !tx.pc.ClosureRead? || tx.packet !in l.packets then None
      else if !tx.pc.wants then Some(Move(s, t, ReadyToCommit(tx.pc.seen, false)))
      else
        var c := l.packets[tx.packet].campaign;
        if CampaignLocked(l, s, c) then None
        else Some(Move(s, t, ReadyToCommit(tx.pc.seen, c !in s.closed)))
    case CommitTx(_) =>
      if CanCommit(l, s, t) then Some(AfterCommit(l, s, t)) else None
    case Abort(_) => Some(Move(s, t, Ended(Failed)))
  }

  ghost function Run(l: Layout, s: State, steps: seq<Step>): Option<State>
    decreases steps
  {
    if steps == [] then Some(s)
    else
      match Exec(l, s, steps[0])
      case None => None
      case Some(s') => Run(l, s', steps[1..])
  }

  // ----- the invariant -----

  function RowsOf(rows: seq<DecisionRow>, p: PacketId): seq<DecisionRow> {
    if rows == [] then []
    else
      var rest := RowsOf(rows[..|rows| - 1], p);
      if rows[|rows| - 1].packet == p then rest + [rows[|rows| - 1]] else rest
  }

  /** A packet is held by one transaction at most, which then found it free and its decisions complete. */
  ghost predicate PacketLocks(l: Layout, s: State) {
    && (forall t | t in s.txs && Claiming(s.txs[t]) ::
          s.txs[t].packet in l.packets && s.txs[t].packet !in s.claims)
    && (forall t, u | t in s.txs && u in s.txs && Claiming(s.txs[t]) && Claiming(s.txs[u]) && t != u ::
          s.txs[t].packet != s.txs[u].packet)
    && (forall t | t in s.txs && (Claiming(s.txs[t]) || s.txs[t].pc.Checked?) ::
          s.txs[t].packet in l.packets && Complete(s.txs[t].decisions, l.packets[s.txs[t].packet].subjects))
  }

  ghost predicate RecordedAs(l: Layout, s: State, p: PacketId)
    requires p in s.claims
  {
    && p in l.packets && s.claims[p] in s.txs
    && var tx := s.txs[s.claims[p]];
       && tx.packet == p && tx.pc == Ended(Done)
       && Complete(tx.decisions, l.packets[p].subjects)
       && SameSam(l, l.packets[p].recipient, tx.caller)
       && RowsOf(s.rows, p) == RowsFor(s.claims[p], p, tx.decisions)
  }

  /** The decisions of a packet are exactly those of the transaction that claimed it. */
  ghost predicate Recorded(l: Layout, s: State) {
    && (forall p | p in s.claims :: RecordedAs(l, s, p))
    && (forall p | p !in s.claims :: RowsOf(s.rows, p) == [])
  }

  /** The history of commits and the claims say the same thing. */
  ghost predicate History(l: Layout, s: State) {
    && (forall k | 0 <= k < |s.commits| ::
          && s.commits[k].packet in s.claims && s.claims[s.commits[k].packet] == s.commits[k].tx
          && s.commits[k].start <= s.commits[k].seen <= s.claims.Keys)
    && (forall p | p in s.claims :: exists k :: 0 <= k < |s.commits| && s.commits[k].packet == p)
    && (forall j, k | 0 <= j < k < |s.commits| :: s.commits[j].packet != s.commits[k].packet)
  }

  ghost predicate CampaignOf(l: Layout, p: PacketId, c: CampaignId) {
    p in l.packets && l.packets[p].campaign == c
  }

  /** No packet of p's any_packet campaign is in `start`. */
  ghost predicate Alone(l: Layout, start: set<PacketId>, p: PacketId) {
    forall q | q in start && q in l.packets && p in l.packets && l.packets[q].campaign == l.packets[p].campaign
      :: l.packets[p].campaign in l.mode ==> l.mode[l.packets[p].campaign] != AnyPacket
  }

  /**
   Loading checks the caller; it refuses a closed campaign, and an any_packet campaign closes with
   its first submission.
   */
  ghost predicate Started(l: Layout, s: State) {
    && (forall t | t in s.txs && !s.txs[t].pc.Begun? && !s.txs[t].pc.Ended? ::
          && s.txs[t].packet in l.packets && SameSam(l, l.packets[s.txs[t].packet].recipient, s.txs[t].caller)
          && s.txs[t].start <= s.claims.Keys
          && Alone(l, s.txs[t].start, s.txs[t].packet))
    && (forall t | t in s.txs && s.txs[t].pc.ClosureRead? :: s.txs[t].start <= s.txs[t].pc.seen)
    && (forall t | t in s.txs && s.txs[t].pc.ReadyToCommit? :: s.txs[t].start <= s.txs[t].pc.seen)
    && (forall k | 0 <= k < |s.commits| :: Alone(l, s.commits[k].start, s.commits[k].packet))
  }

  /** Transactions past their closure statement: what they saw, and what they are about to write. */
  ghost predicate Pending(l: Layout, s: State) {
    && (forall t | t in s.txs && s.txs[t].pc.ClosureRead? ::
          && s.txs[t].packet in l.packets && s.txs[t].pc.seen <= s.claims.Keys
          && var c := l.packets[s.txs[t].packet].campaign;
             var due := Due(l, s.txs[t].pc.seen, s.txs[t].packet);
             && (s.txs[t].pc.wants ==> due) && (due ==> s.txs[t].pc.wants || c in s.closed))
    && (forall t | t in s.txs && s.txs[t].pc.ReadyToCommit? ::
          && s.txs[t].packet in l.packets && s.txs[t].pc.seen <= s.claims.Keys
          && var c := l.packets[s.txs[t].packet].campaign;
             var due := Due(l, s.txs[t].pc.seen, s.txs[t].packet);
             && (s.txs[t].pc.closes ==> due && c !in s.closed) && (due ==> s.txs[t].pc.closes || c in s.closed))
    && (forall t, u, c | HoldsCampaign(l, s, t, c) && HoldsCampaign(l, s, u, c) :: t == u)
  }

  /** A commit whose closure statement had every reason to close the campaign. */
  ghost predicate ClosingCommit(l: Layout, s: State, k: nat, c: CampaignId) {
    && k < |s.commits| && CampaignOf(l, s.commits[k].packet, c)
    && Due(l, s.commits[k].seen, s.commits[k].packet)
  }

  /** The k-th commit closed c, and the campaign row says so. */
  ghost predicate ClosesAs(l: Layout, s: State, k: nat, c: CampaignId) {
    && ClosingCommit(l, s, k, c) && c in s.closed && s.closed[c].BySubmit? && c in l.mode
    && s.closed[c] == BySubmit(s.commits[k].tx, if l.mode[c] == AnyPacket then Some(s.commits[k].packet) else None)
  }

  ghost predicate ClosedByCommit(l: Layout, s: State, c: CampaignId) {
    exists k: nat :: ClosesAs(l, s, k, c)
  }

  ghost predicate Closures(l: Layout, s: State) {
    && (forall k: nat, c | ClosingCommit(l, s, k, c) :: c in s.closed)
    && (forall c | c in s.closed && s.closed[c].BySubmit? :: ClosedByCommit(l, s, c))
  }

  ghost predicate Inv(l: Layout, s: State) {
    PacketLocks(l, s) && Recorded(l, s) && History(l, s) && Pending(l, s) && Started(l, s) && Closures(l, s)
  }
}
