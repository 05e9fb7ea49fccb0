/** What holds of the tables in every state that some interleaving of Submits reaches. */
module SubmitTheorems {
  import opened Common
  import opened Decisions
  import opened SubmitTransactions
  import SubmitSafety

  ghost predicate Reachable(l: Layout, steps: seq<Step>, s: State) {
    l.Valid() && Run(l, INITIAL, steps) == Some(s)
  }

  lemma ReachableInv(l: Layout, steps: seq<Step>, s: State)
    requires Reachable(l, steps, s)
    ensures Inv(l, s)
  {
    SubmitSafety.RunKeepsInv(l, INITIAL, steps);
  }

  // ----- decisions -----

  /** How many recorded decisions there are about a subject of a packet. */
  function Count(rows: seq<DecisionRow>, p: PacketId, subject: Sam): nat {
    if rows == [] then 0
    else Count(rows[..|rows| - 1], p, subject)
         + if rows[|rows| - 1].packet == p && rows[|rows| - 1].subject == subject then 1 else 0
  }

  lemma {:induction false} CountOfRowsOf(rows: seq<DecisionRow>, p: PacketId, subject: Sam)
    ensures Count(RowsOf(rows, p), p, subject) == Count(rows, p, subject)
  {
    if rows != [] {
      CountOfRowsOf(rows[..|rows| - 1], p, subject);
      var rest := RowsOf(rows[..|rows| - 1], p);
      assert (rest + [rows[|rows| - 1]])[..|rest|] == rest;
    }
  }

  lemma {:induction false} CountOfRowsFor(t: TxId, p: PacketId, ds: seq<Input>, subject: Sam)
    requires forall i, j | 0 <= i < j < |ds| :: ds[i].subject != ds[j].subject
    ensures Count(RowsFor(t, p, ds), p, subject) == if Decided(ds, subject) then 1 else 0
  {
    if ds != [] {
      var init := ds[..|ds| - 1];
      CountOfRowsFor(t, p, init, subject);
      assert RowsFor(t, p, ds)[..|ds| - 1] == RowsFor(t, p, init);
      assert Decided(ds, subject) <==> Decided(init, subject) || ds[|ds| - 1].subject == subject by {
        assert forall k | 0 <= k < |init| :: init[k] == ds[k];
      }
    }
  }

  lemma {:induction false} RowIsListed(rows: seq<DecisionRow>, i: nat)
    requires i < |rows|
    ensures rows[i] in RowsOf(rows, rows[i].packet)
  {
    if i < |rows| - 1 {
      RowIsListed(rows[..|rows| - 1], i);
    }
  }

  /**
   A submitted packet has exactly one decision for each of its subjects and none for anybody
   else, all of them the claimant's own, and the claimant is its recipient; a packet not submitted
   has none.
   */
  lemma DecisionsAreTheClaimants(l: Layout, steps: seq<Step>, s: State, p: PacketId)
    requires Reachable(l, steps, s)
    ensures p !in s.claims ==> forall i | 0 <= i < |s.rows| :: s.rows[i].packet != p
    ensures p in s.claims ==>
              p in l.packets && s.claims[p] in s.txs && SameSam(l, l.packets[p].recipient, s.txs[s.claims[p]].caller)
    ensures p in s.claims ==> forall x :: Count(s.rows, p, x) == if x in l.packets[p].subjects then 1 else 0
    ensures p in s.claims ==>
              forall i | 0 <= i < |s.rows| && s.rows[i].packet == p ::
                && s.rows[i].tx == s.claims[p]
                && Input(s.rows[i].subject, s.rows[i].verdict) in s.txs[s.claims[p]].decisions
  {
    ReachableInv(l, steps, s);
    forall i | 0 <= i < |s.rows| && s.rows[i].packet == p
      ensures s.rows[i] in RowsOf(s.rows, p)
    {
      RowIsListed(s.rows, i);
    }
    if p in s.claims {
      var t, ds := s.claims[p], s.txs[s.claims[p]].decisions;
      forall x ensures Count(s.rows, p, x) == if x in l.packets[p].subjects then 1 else 0 {
        CountOfRowsOf(s.rows, p, x);
        CountOfRowsFor(t, p, ds, x);
        if Decided(ds, x) {
          var k :| 0 <= k < |ds| && ds[k].subject == x;
        }
      }
      forall i | 0 <= i < |s.rows| && s.rows[i].packet == p
        ensures s.rows[i].tx == t && Input(s.rows[i].subject, s.rows[i].verdict) in ds
      {
        assert s.rows[i] in RowsFor(t, p, ds);
        var k :| 0 <= k < |ds| && RowsFor(t, p, ds)[k] == s.rows[i];
        assert ds[k] == Input(s.rows[i].subject, s.rows[i].verdict);
      }
    }
  }

  /** Committed transactions claimed different packets, and each packet keeps its claimant. */
  lemma OneClaimPerPacket(l: Layout, steps: seq<Step>, s: State)
    requires Reachable(l, steps, s)
    ensures forall j, k | 0 <= j < k < |s.commits| ::
              s.commits[j].packet != s.commits[k].packet && s.commits[j].tx != s.commits[k].tx
    ensures forall k | 0 <= k < |s.commits| ::
              s.commits[k].packet in s.claims && s.claims[s.commits[k].packet] == s.commits[k].tx
  {
    ReachableInv(l, steps, s);
  }

  /** The unique index never fires and never makes an insert wait. */
  lemma InsertNeverClashes(l: Layout, steps: seq<Step>, s: State, t: TxId)
    requires Reachable(l, steps, s)
    requires t in s.txs && s.txs[t].pc.Inserting? && s.txs[t].pc.next < |s.txs[t].decisions|
    ensures Exec(l, s, Insert(t)) == Some(Move(s, t, Inserting(s.txs[t].pc.next + 1)))
  {
    ReachableInv(l, steps, s);
    var tx, k := s.txs[t], s.txs[t].pc.next;
    if exists i :: 0 <= i < |s.rows| && s.rows[i].packet == tx.packet && s.rows[i].subject == tx.decisions[k].subject {
      var i :| 0 <= i < |s.rows| && s.rows[i].packet == tx.packet && s.rows[i].subject == tx.decisions[k].subject;
      RowIsListed(s.rows, i);
    }
    assert !Clash(s, t, k);
    assert !MustWait(s, t, k);
  }

  // ----- nothing committed is undone -----

  ghost predicate OnlyAdds(s: State, s': State) {
    && (forall p | p in s.claims :: p in s'.claims && s'.claims[p] == s.claims[p])
    && (forall c | c in s.closed :: c in s'.closed && s'.closed[c] == s.closed[c])
    && s.rows <= s'.rows && s.commits <= s'.commits
  }

  lemma StepOnlyAdds(l: Layout, s: State, step: Step)
    requires PacketLocks(l, s) && Pending(l, s) && Exec(l, s, step).Some?
    ensures OnlyAdds(s, Exec(l, s, step).value)
  {
    SubmitSafety.StepShape(l, s, step);
  }

  /** A claim, a decision, a closed campaign and its reason are there for good. */
  lemma {:induction false} RunOnlyAdds(l: Layout, s: State, steps: seq<Step>)
    requires Inv(l, s) && Run(l, s, steps).Some?
    ensures OnlyAdds(s, Run(l, s, steps).value)
    decreases steps
  {
    if steps != [] {
      StepOnlyAdds(l, s, steps[0]);
      SubmitSafety.StepKeepsInv(l, s, steps[0]);
      RunOnlyAdds(l, Exec(l, s, steps[0]).value, steps[1..]);
    }
  }

  // ----- closure -----

  ghost predicate AllSubmitted(l: Layout, s: State, c: CampaignId) {
    forall p | CampaignOf(l, p, c) :: p in s.claims
  }

  /**
   Closure under READ COMMITTED, exactly. An all_packets campaign nobody closed by hand is
   closed iff the closure statement of one of its submissions began after all the other
   packets were committed; an any_packet one iff some packet of it is submitted.
   */
  lemma ClosedExactlyWhenSeen(l: Layout, steps: seq<Step>, s: State, c: CampaignId)
    requires Reachable(l, steps, s) && c in l.mode
    requires c in s.closed ==> s.closed[c] != ByHand
    ensures l.mode[c] == AllPackets ==>
              (c in s.closed <==>
               exists k: nat :: k < |s.commits| && CampaignOf(l, s.commits[k].packet, c)
                                && Covers(l, s.commits[k].seen, s.commits[k].packet))
    ensures l.mode[c] == AnyPacket ==> (c in s.closed <==> exists p :: CampaignOf(l, p, c) && p in s.claims)
  {
    ReachableInv(l, steps, s);
    if c in s.closed {
      assert ClosedByCommit(l, s, c);
      var k: nat :| ClosesAs(l, s, k, c);
      assert CampaignOf(l, s.commits[k].packet, c) && s.commits[k].packet in s.claims;
    }
    if l.mode[c] == AllPackets {
      forall k: nat | k < |s.commits| && CampaignOf(l, s.commits[k].packet, c)
                      && Covers(l, s.commits[k].seen, s.commits[k].packet)
        ensures c in s.closed
      {
        assert ClosingCommit(l, s, k, c);
      }
    } else {
      forall p | CampaignOf(l, p, c) && p in s.claims
        ensures c in s.closed
      {
        SubmitSafety.SubmittedAnyPacketIsClosed(l, s, p);
      }
    }
  }

  /** A campaign closed by a submission: every packet is in, or the packet named is submitted. */
  lemma ClosureIsSound(l: Layout, steps: seq<Step>, s: State, c: CampaignId)
    requires Reachable(l, steps, s) && c in s.closed && s.closed[c].BySubmit?
    ensures c in l.mode
    ensures l.mode[c] == AllPackets ==> AllSubmitted(l, s, c) && s.closed[c].packet == None
    ensures l.mode[c] == AnyPacket ==>
              s.closed[c].packet.Some? && CampaignOf(l, s.closed[c].packet.value, c)
              && s.closed[c].packet.value in s.claims && s.claims[s.closed[c].packet.value] == s.closed[c].tx
  {
    ReachableInv(l, steps, s);
    assert ClosedByCommit(l, s, c);
    var k: nat :| ClosesAs(l, s, k, c);
    assert s.commits[k].packet in s.claims && s.commits[k].seen <= s.claims.Keys;
  }

  /** Every committed submission of a campaign loaded its packet after the campaign's earlier ones committed. */
  ghost predicate SerialIn(l: Layout, s: State, c: CampaignId) {
    forall j, k | 0 <= j < k < |s.commits| && CampaignOf(l, s.commits[j].packet, c)
                  && CampaignOf(l, s.commits[k].packet, c) :: s.commits[j].packet in s.commits[k].start
  }

  /** The last commit of a campaign among the first n. */
  lemma {:induction false} LastCommitOf(l: Layout, s: State, c: CampaignId, n: nat) returns (k: nat)
    requires n <= |s.commits|
    requires exists j :: 0 <= j < n && CampaignOf(l, s.commits[j].packet, c)
    ensures k < n && CampaignOf(l, s.commits[k].packet, c)
    ensures forall j | k < j < n :: !CampaignOf(l, s.commits[j].packet, c)
  {
    if CampaignOf(l, s.commits[n - 1].packet, c) {
      k := n - 1;
    } else {
      k := LastCommitOf(l, s, c, n - 1);
    }
  }

  lemma CommitOf(l: Layout, s: State, q: PacketId) returns (j: nat)
    requires History(l, s) && q in s.claims
    ensures j < |s.commits| && s.commits[j].packet == q
  {
    var i :| 0 <= i < |s.commits| && s.commits[i].packet == q;
    j := i;
  }

  lemma EarlierIsSeen(l: Layout, s: State, c: CampaignId, j: nat, k: nat)
    requires History(l, s) && SerialIn(l, s, c) && j < k < |s.commits|
    requires CampaignOf(l, s.commits[j].packet, c) && CampaignOf(l, s.commits[k].packet, c)
    ensures s.commits[j].packet in s.commits[k].seen
  {
    assert s.commits[j].packet in s.commits[k].start;
  }

  /** Without overlap, the last of a campaign's packets saw all the others. */
  lemma LastCommitSawTheRest(l: Layout, s: State, c: CampaignId) returns (k: nat)
    requires History(l, s) && SerialIn(l, s, c) && AllSubmitted(l, s, c) && exists p :: CampaignOf(l, p, c)
    ensures k < |s.commits| && CampaignOf(l, s.commits[k].packet, c)
    ensures Covers(l, s.commits[k].seen, s.commits[k].packet)
  {
    var p :| CampaignOf(l, p, c);
    var i := CommitOf(l, s, p);
    k := LastCommitOf(l, s, c, |s.commits|);
    forall q | CampaignOf(l, q, c)
      ensures q == s.commits[k].packet || q in s.commits[k].seen
    {
      var j := CommitOf(l, s, q);
      if j < k {
        EarlierIsSeen(l, s, c, j, k);
      }
    }
  }

  /** With submissions of a campaign that do not overlap, all_packets closes exactly with the last one. */
  lemma SerialAllPacketsClosure(l: Layout, steps: seq<Step>, s: State, c: CampaignId)
    requires Reachable(l, steps, s) && SerialIn(l, s, c)
    requires c in l.mode && l.mode[c] == AllPackets && exists p :: CampaignOf(l, p, c)
    requires c in s.closed ==> s.closed[c] != ByHand
    ensures c in s.closed <==> AllSubmitted(l, s, c)
  {
    ClosedExactlyWhenSeen(l, steps, s, c);
    if c in s.closed {
      ClosureIsSound(l, steps, s, c);
    } else if AllSubmitted(l, s, c) {
      assert History(l, s) by { ReachableInv(l, steps, s); }
      var k := LastCommitSawTheRest(l, s, c);
    }
  }

  /** Two submissions of one any_packet campaign overlapped: the later loaded before the earlier committed. */
  lemma SecondNomineeOverlapped(l: Layout, steps: seq<Step>, s: State, c: CampaignId, j: nat, k: nat)
    requires Reachable(l, steps, s) && c in l.mode && l.mode[c] == AnyPacket
    requires j < k < |s.commits| && CampaignOf(l, s.commits[j].packet, c) && CampaignOf(l, s.commits[k].packet, c)
    ensures s.commits[j].packet !in s.commits[k].start
  {
    ReachableInv(l, steps, s);
    assert Alone(l, s.commits[k].start, s.commits[k].packet);
  }

  /** At most one packet of an any_packet campaign is submitted, exactly when its submissions did not overlap. */
  lemma AtMostOneExactlyWhenSerial(l: Layout, steps: seq<Step>, s: State, c: CampaignId)
    requires Reachable(l, steps, s) && c in l.mode && l.mode[c] == AnyPacket
    ensures (forall p, q | p in s.claims && q in s.claims && CampaignOf(l, p, c) && CampaignOf(l, q, c) :: p == q)
            <==> SerialIn(l, s, c)
  {
    ReachableInv(l, steps, s);
    if SerialIn(l, s, c) {
      forall p, q | p in s.claims && q in s.claims && CampaignOf(l, p, c) && CampaignOf(l, q, c)
        ensures p == q
      {
        var j := CommitOf(l, s, p);
        var k := CommitOf(l, s, q);
        if j < k {
          SecondNomineeOverlapped(l, steps, s, c, j, k);
        } else if k < j {
          SecondNomineeOverlapped(l, steps, s, c, k, j);
        }
      }
    }
  }

  // ----- progress -----

  ghost function NextStatement(l: Layout, s: State, t: TxId): Step
    requires t in s.txs
  {
    match s.txs[t].pc
    case Begun => Load(t)
    case Loaded => Check(t)
    case Checked => Claim(t)
    case Inserting(k) => if k < |s.txs[t].decisions| then Insert(t) else ReadClosure(t)
    case ClosureRead(_, _) => WriteClosure(t)
    case ReadyToCommit(_, _) => CommitTx(t)
    case Ended(_) => Abort(t)
  }

  lemma ClaimantCanMove(l: Layout, steps: seq<Step>, s: State, t: TxId)
    requires Reachable(l, steps, s) && t in s.txs && Claiming(s.txs[t])
    ensures exists u :: u in s.txs && Claiming(s.txs[u]) && Exec(l, s, NextStatement(l, s, u)).Some?
  {
    ReachableInv(l, steps, s);
    var c := l.packets[s.txs[t].packet].campaign;
    if s.txs[t].pc.Inserting? {
      if s.txs[t].pc.next < |s.txs[t].decisions| {
        InsertNeverClashes(l, steps, s, t);
      }
      assert Exec(l, s, NextStatement(l, s, t)).Some?;
    } else if s.txs[t].pc.ClosureRead? && CampaignLocked(l, s, c) {
      var u :| HoldsCampaign(l, s, u, c);
      assert Exec(l, s, NextStatement(l, s, u)).Some?;
    } else {
      assert Exec(l, s, NextStatement(l, s, t)).Some?;
    }
  }

  /** Row locks never deadlock: while a transaction is open, some transaction can take its next step. */
  lemma NeverStuck(l: Layout, steps: seq<Step>, s: State, t: TxId)
    requires Reachable(l, steps, s) && t in s.txs && !s.txs[t].pc.Ended?
    ensures exists u :: u in s.txs && !s.txs[u].pc.Ended? && Exec(l, s, NextStatement(l, s, u)).Some?
  {
    ReachableInv(l, steps, s);
    if Claiming(s.txs[t]) {
      ClaimantCanMove(l, steps, s, t);
    } else if s.txs[t].pc.Checked? && exists u :: u != t && HoldsPacket(s, u, s.txs[t].packet) {
      var u :| u != t && HoldsPacket(s, u, s.txs[t].packet);
      ClaimantCanMove(l, steps, s, u);
    } else {
      assert Exec(l, s, NextStatement(l, s, t)).Some?;
    }
  }

  // ----- two schedules that overlap -----

  lemma {:induction false} RunSnoc(l: Layout, s: State, steps: seq<Step>, step: Step)
    requires Run(l, s, steps).Some?
    ensures Run(l, s, steps + [step]) == Exec(l, Run(l, s, steps).value, step)
    decreases steps
  {
    if steps != [] {
      assert (steps + [step])[1..] == steps[1..] + [step];
      RunSnoc(l, Exec(l, s, steps[0]).value, steps[1..], step);
    }
  }

  lemma Extend(l: Layout, steps: seq<Step>, s: State, step: Step) returns (steps': seq<Step>, s': State)
    requires Reachable(l, steps, s) && Exec(l, s, step).Some?
    ensures Reachable(l, steps', s') && s' == Exec(l, s, step).value
  {
    steps', s' := steps + [step], Exec(l, s, step).value;
    RunSnoc(l, INITIAL, steps, step);
  }

  /** Begin, load and check of a transaction for a one-subject packet. */
  lemma UpToCheck(l: Layout, steps: seq<Step>, s: State, t: TxId, p: PacketId)
    returns (steps': seq<Step>, s': State)
    requires Reachable(l, steps, s) && t !in s.txs && p in l.packets && p !in s.claims
    requires l.packets[p].campaign !in s.closed && l.packets[p].recipient != "" && |l.packets[p].subjects| == 1
    ensures Reachable(l, steps', s')
    ensures exists tx :: s' == Put(s, t, tx) && tx.packet == p && tx.pc == Checked && |tx.decisions| == 1
  {
    var ds := [Input(l.packets[p].subjects[0], "keep")];
    assert Complete(ds, l.packets[p].subjects) by {
      assert ds[0].subject == l.packets[p].subjects[0];
    }
    steps', s' := Extend(l, steps, s, Begin(t, p, l.packets[p].recipient, ds));
    steps', s' := Extend(l, steps', s', Load(t));
    steps', s' := Extend(l, steps', s', Check(t));
    assert s' == Put(s, t, s'.txs[t]);
  }

  /** ... and its claim and insert, when nobody else has claimed the packet. */
  lemma UpToLastInsert(l: Layout, steps: seq<Step>, s: State, t: TxId)
    returns (steps': seq<Step>, s': State)
    requires Reachable(l, steps, s) && t in s.txs && s.txs[t].pc == Checked && |s.txs[t].decisions| == 1
    requires s.txs[t].packet !in s.claims
    requires forall u | u != t :: !HoldsPacket(s, u, s.txs[t].packet)
    ensures Reachable(l, steps', s') && s' == Move(s, t, Inserting(1))
  {
    steps', s' := Extend(l, steps, s, Claim(t));
    InsertNeverClashes(l, steps', s', t);
    steps', s' := Extend(l, steps', s', Insert(t));
  }

  function Same(c: char): char { c }

  const TWO_MANAGERS :=
    Layout(map[1 := Packet(7, "ann", ["x"]), 2 := Packet(7, "bob", ["y"])], map[7 := AllPackets], Same)
  const TWO_NOMINEES :=
    Layout(map[1 := Packet(7, "ann", ["x"]), 2 := Packet(7, "bob", ["x"])], map[7 := AnyPacket], Same)

  lemma BothInserted(l: Layout) returns (steps: seq<Step>, s: State)
    requires l == TWO_MANAGERS || l == TWO_NOMINEES
    ensures Reachable(l, steps, s) && s.claims == map[] && s.closed == map[] && s.txs.Keys == {1, 2}
    ensures s.commits == []
    ensures forall t | t in {1, 2} :: s.txs[t].packet == t && s.txs[t].pc == Inserting(1) && |s.txs[t].decisions| == 1
  {
    steps, s := UpToCheck(l, [], INITIAL, 1, 1);
    steps, s := UpToCheck(l, steps, s, 2, 2);
    steps, s := UpToLastInsert(l, steps, s, 1);
    steps, s := UpToLastInsert(l, steps, s, 2);
  }

  /** A closure statement that sees another packet outstanding finds no reason to close. */
  lemma FindsOutstanding(l: Layout, steps: seq<Step>, s: State, t: TxId) returns (steps': seq<Step>, s': State)
    requires Reachable(l, steps, s) && t in s.txs && s.txs[t].pc == Inserting(1) && |s.txs[t].decisions| == 1
    requires s.txs[t].packet in l.packets && l.packets[s.txs[t].packet].campaign in l.mode
    requires !Due(l, s.claims.Keys, s.txs[t].packet)
    ensures Reachable(l, steps', s') && s' == Move(s, t, ReadyToCommit(s.claims.Keys, false))
  {
    steps', s' := Extend(l, steps, s, ReadClosure(t));
    steps', s' := Extend(l, steps', s', WriteClosure(t));
  }

  /** Both closure statements run before either transaction commits, and neither finds a reason to close. */
  lemma BothFindTheOtherOutstanding() returns (steps: seq<Step>, s: State)
    ensures Reachable(TWO_MANAGERS, steps, s) && s.claims == map[] && s.closed == map[] && s.txs.Keys == {1, 2}
    ensures forall t | t in {1, 2} :: s.txs[t].packet == t && s.txs[t].pc == ReadyToCommit({}, false)
  {
    var l := TWO_MANAGERS;
    steps, s := BothInserted(l);
    assert CampaignOf(l, 1, 7) && CampaignOf(l, 2, 7);
    assert s.claims.Keys == {} && !Covers(l, {}, 1) && !Covers(l, {}, 2);
    steps, s := FindsOutstanding(l, steps, s, 1);
    steps, s := FindsOutstanding(l, steps, s, 2);
  }

  /** The last two managers submit together, and the campaign stays open with nothing outstanding. */
  lemma LastTwoManagersLeaveItOpen() returns (steps: seq<Step>, s: State)
    ensures Reachable(TWO_MANAGERS, steps, s)
    ensures AllSubmitted(TWO_MANAGERS, s, 7) && 7 !in s.closed
  {
    steps, s := BothFindTheOtherOutstanding();
    steps, s := Extend(TWO_MANAGERS, steps, s, CommitTx(1));
    steps, s := Extend(TWO_MANAGERS, steps, s, CommitTx(2));
  }

  /** The closure statement of an any_packet campaign closes it if it is still open. */
  lemma UpToCommit(l: Layout, steps: seq<Step>, s: State, t: TxId, p: PacketId, c: CampaignId)
    returns (steps': seq<Step>, s': State)
    requires Reachable(l, steps, s) && t in s.txs && s.txs[t].pc == Inserting(1) && |s.txs[t].decisions| == 1
    requires s.txs[t].packet == p && CampaignOf(l, p, c) && c in l.mode && l.mode[c] == AnyPacket
    requires !CampaignLocked(l, s, c)
    ensures Reachable(l, steps', s') && s' == Move(s, t, ReadyToCommit(s.claims.Keys, c !in s.closed))
  {
    steps', s' := Extend(l, steps, s, ReadClosure(t));
    assert forall u, d | HoldsCampaign(l, s', u, d) :: HoldsCampaign(l, s, u, d);
    steps', s' := Extend(l, steps', s', WriteClosure(t));
  }

  /** A transaction of an any_packet campaign goes through its closure statement and commits. */
  lemma CloseAndCommit(l: Layout, steps: seq<Step>, s: State, t: TxId, p: PacketId, c: CampaignId)
    returns (steps': seq<Step>, s': State)
    requires Reachable(l, steps, s) && t in s.txs && s.txs[t].pc == Inserting(1) && |s.txs[t].decisions| == 1
    requires s.txs[t].packet == p && CampaignOf(l, p, c) && c in l.mode && l.mode[c] == AnyPacket
    requires !CampaignLocked(l, s, c)
    ensures Reachable(l, steps', s')
    ensures s'.txs == s.txs[t := s.txs[t].(pc := Ended(Done))] && s'.claims == s.claims[p := t]
    ensures s'.closed == if c in s.closed then s.closed else s.closed[c := BySubmit(t, Some(p))]
  {
    steps', s' := UpToCommit(l, steps, s, t, p, c);
    steps', s' := Extend(l, steps', s', CommitTx(t));
  }

  /** Two nominees submit together: both packets of an any_packet campaign end up submitted. */
  lemma TwoNomineesBothSubmit() returns (steps: seq<Step>, s: State)
    ensures Reachable(TWO_NOMINEES, steps, s)
    ensures AllSubmitted(TWO_NOMINEES, s, 7) && s.closed == map[7 := BySubmit(1, Some(1))]
  {
    steps, s := BothInserted(TWO_NOMINEES);
    steps, s := CloseAndCommit(TWO_NOMINEES, steps, s, 1, 1, 7);
    steps, s := CloseAndCommit(TWO_NOMINEES, steps, s, 2, 2, 7);
  }
}
