/** What every interleaving of Submit transactions keeps. */
module SubmitSafety {
  import opened Common
  import opened Decisions
  import opened SubmitTransactions

  // ----- the shape of a step -----

  /** What a statement that only moves its transaction along has established. */
  ghost predicate Legal(l: Layout, s: State, t: TxId, tx': Tx)
    requires t in s.txs
  {
    var tx := s.txs[t];
    && !tx.pc.Ended? && tx'.packet == tx.packet && tx'.decisions == tx.decisions && tx'.caller == tx.caller
    && (tx'.pc.Loaded? || tx'.start == tx.start)
    && match tx'.pc
       case Begun => false
       case Loaded =>
         && tx.pc.Begun? && tx'.start == s.claims.Keys
         && tx.packet in l.packets && l.packets[tx.packet].campaign !in s.closed
         && SameSam(l, l.packets[tx.packet].recipient, tx.caller)
       case Ended(outcome) => outcome != Done
       case Checked => tx.pc.Loaded? && tx.packet in l.packets && Complete(tx.decisions, l.packets[tx.packet].subjects)
       case Inserting(k) =>
         || tx.pc.Inserting?
         || (tx.pc.Checked? && tx.packet !in s.claims && forall u | u != t :: !HoldsPacket(s, u, tx.packet))
       case ClosureRead(seen, wants) =>
         && tx.pc.Inserting? && tx.packet in l.packets && l.packets[tx.packet].campaign in l.mode
         && seen == s.claims.Keys
         && (wants <==> l.packets[tx.packet].campaign !in s.closed && Due(l, seen, tx.packet))
       case ReadyToCommit(seen, closes) =>
         && tx.pc.ClosureRead? && tx.packet in l.packets && seen == tx.pc.seen
         && (if tx.pc.wants
             then closes == (l.packets[tx.packet].campaign !in s.closed)
                  && !CampaignLocked(l, s, l.packets[tx.packet].campaign)
             else !closes)
  }

  lemma StepShape(l: Layout, s: State, step: Step)
    requires Exec(l, s, step).Some?
    ensures !step.Begin? && !step.CloseByHand? ==> step.t in s.txs && step.t in Exec(l, s, step).value.txs
    ensures step.CommitTx? ==> CanCommit(l, s, step.t) && Exec(l, s, step).value == AfterCommit(l, s, step.t)
    ensures !step.Begin? && !step.CloseByHand? && !step.CommitTx? ==>
              var s' := Exec(l, s, step).value;
              s' == Put(s, step.t, s'.txs[step.t]) && Legal(l, s, step.t, s'.txs[step.t])
  {
  }

  // ----- a statement that only moves its transaction along -----

  lemma MoveKeepsPacketLocks(l: Layout, s: State, t: TxId, tx': Tx)
    requires PacketLocks(l, s) && t in s.txs && Legal(l, s, t, tx')
    ensures PacketLocks(l, Put(s, t, tx'))
  {
    if tx'.pc.Inserting? && s.txs[t].pc.Checked? {
      forall u | u in s.txs && Claiming(s.txs[u]) && u != t
        ensures s.txs[u].packet != s.txs[t].packet
      {
        assert !HoldsPacket(s, u, s.txs[t].packet);
      }
    }
  }

  lemma MoveKeepsRecorded(l: Layout, s: State, t: TxId, tx': Tx)
    requires Recorded(l, s) && t in s.txs && Legal(l, s, t, tx')
    ensures Recorded(l, Put(s, t, tx'))
  {
  }

  lemma MoveKeepsPending(l: Layout, s: State, t: TxId, tx': Tx)
    requires Pending(l, s) && t in s.txs && Legal(l, s, t, tx')
    ensures Pending(l, Put(s, t, tx'))
  {
    var s' := Put(s, t, tx');
    forall u, v, c | HoldsCampaign(l, s', u, c) && HoldsCampaign(l, s', v, c)
      ensures u == v
    {
      if u != t { assert HoldsCampaign(l, s, u, c); }
      if v != t { assert HoldsCampaign(l, s, v, c); }
    }
  }

  /** A submission to an any_packet campaign has closed it. */
  lemma SubmittedAnyPacketIsClosed(l: Layout, s: State, q: PacketId)
    requires History(l, s) && Closures(l, s) && q in s.claims && q in l.packets
    requires l.packets[q].campaign in l.mode && l.mode[l.packets[q].campaign] == AnyPacket
    ensures l.packets[q].campaign in s.closed
  {
    var k: nat :| k < |s.commits| && s.commits[k].packet == q;
    assert ClosingCommit(l, s, k, l.packets[q].campaign);
  }

  lemma MoveKeepsStarted(l: Layout, s: State, t: TxId, tx': Tx)
    requires History(l, s) && Closures(l, s) && Started(l, s) && t in s.txs && Legal(l, s, t, tx')
    ensures Started(l, Put(s, t, tx'))
  {
    if tx'.pc.Loaded? {
      forall q | q in tx'.start && q in l.packets && l.packets[q].campaign == l.packets[tx'.packet].campaign
        ensures l.packets[q].campaign in l.mode ==> l.mode[l.packets[q].campaign] != AnyPacket
      {
        if l.packets[q].campaign in l.mode && l.mode[l.packets[q].campaign] == AnyPacket {
          SubmittedAnyPacketIsClosed(l, s, q);
        }
      }
    }
  }

  lemma SameTablesKeepClosures(l: Layout, s: State, s': State)
    requires History(l, s) && Closures(l, s)
    requires s'.claims == s.claims && s'.commits == s.commits && s.closed.Keys <= s'.closed.Keys
    requires forall c | c in s'.closed :: s'.closed[c] == ByHand || (c in s.closed && s'.closed[c] == s.closed[c])
    ensures History(l, s') && Closures(l, s')
  {
    forall k: nat, c | ClosingCommit(l, s', k, c)
      ensures c in s'.closed
    {
      assert ClosingCommit(l, s, k, c);
    }
    forall c | c in s'.closed && s'.closed[c].BySubmit?
      ensures ClosedByCommit(l, s', c)
    {
      assert ClosedByCommit(l, s, c);
      var k: nat :| ClosesAs(l, s, k, c);
      assert ClosesAs(l, s', k, c);
    }
  }

  // ----- commit -----

  lemma {:induction false} RowsOfAppend(a: seq<DecisionRow>, b: seq<DecisionRow>, p: PacketId)
    ensures RowsOf(a + b, p) == RowsOf(a, p) + RowsOf(b, p)
  {
    if b == [] {
      assert a + b == a;
    } else {
      RowsOfAppend(a, b[..|b| - 1], p);
      assert (a + b)[..|a + b| - 1] == a + b[..|b| - 1];
    }
  }

  lemma {:induction false} RowsOfRowsFor(t: TxId, p: PacketId, ds: seq<Input>, q: PacketId)
    ensures RowsOf(RowsFor(t, p, ds), q) == if p == q then RowsFor(t, p, ds) else []
  {
    if ds != [] {
      var init := ds[..|ds| - 1];
      RowsOfRowsFor(t, p, init, q);
      assert RowsFor(t, p, ds)[..|ds| - 1] == RowsFor(t, p, init);
      assert RowsFor(t, p, ds) == RowsFor(t, p, init) + [RowsFor(t, p, ds)[|ds| - 1]];
    }
  }

  lemma CommitAddsRows(l: Layout, s: State, t: TxId, p: PacketId)
    requires CanCommit(l, s, t)
    ensures var tx := s.txs[t];
            RowsOf(AfterCommit(l, s, t).rows, p)
            == RowsOf(s.rows, p) + if p == tx.packet then RowsFor(t, p, tx.decisions) else []
  {
    RowsOfAppend(s.rows, RowsFor(t, s.txs[t].packet, s.txs[t].decisions), p);
    RowsOfRowsFor(t, s.txs[t].packet, s.txs[t].decisions, p);
  }

  lemma CommitRecordsItsPacket(l: Layout, s: State, t: TxId)
    requires PacketLocks(l, s) && Recorded(l, s) && Started(l, s) && CanCommit(l, s, t)
    ensures RecordedAs(l, AfterCommit(l, s, t), s.txs[t].packet)
  {
    CommitAddsRows(l, s, t, s.txs[t].packet);
    assert Claiming(s.txs[t]);
    assert RowsOf(s.rows, s.txs[t].packet) == [];
  }

  lemma CommitKeepsOtherRows(l: Layout, s: State, t: TxId, p: PacketId)
    requires CanCommit(l, s, t) && p in s.claims && p != s.txs[t].packet && RecordedAs(l, s, p)
    ensures RecordedAs(l, AfterCommit(l, s, t), p)
  {
    CommitAddsRows(l, s, t, p);
    assert s.claims[p] != t;
  }

  lemma CommitKeepsRecorded(l: Layout, s: State, t: TxId)
    requires PacketLocks(l, s) && Recorded(l, s) && Started(l, s) && CanCommit(l, s, t)
    ensures Recorded(l, AfterCommit(l, s, t))
  {
    var s' := AfterCommit(l, s, t);
    forall p | p in s'.claims
      ensures RecordedAs(l, s', p)
    {
      if p == s.txs[t].packet {
        CommitRecordsItsPacket(l, s, t);
      } else {
        CommitKeepsOtherRows(l, s, t, p);
      }
    }
    forall p | p !in s'.claims
      ensures RowsOf(s'.rows, p) == []
    {
      CommitAddsRows(l, s, t, p);
    }
  }

  /** Every claim has its commit, ... */
  lemma CommitListsClaims(l: Layout, s: State, t: TxId)
    requires History(l, s) && CanCommit(l, s, t)
    ensures var s' := AfterCommit(l, s, t);
            forall p | p in s'.claims :: exists k :: 0 <= k < |s'.commits| && s'.commits[k].packet == p
  {
    var s' := AfterCommit(l, s, t);
    forall p | p in s'.claims
      ensures exists k :: 0 <= k < |s'.commits| && s'.commits[k].packet == p
    {
      if p == s.txs[t].packet {
        assert s'.commits[|s.commits|].packet == p;
      } else {
        var k :| 0 <= k < |s.commits| && s.commits[k].packet == p;
        assert s'.commits[k].packet == p;
      }
    }
  }

  lemma CommitKeepsHistory(l: Layout, s: State, t: TxId)
    requires PacketLocks(l, s) && History(l, s) && Pending(l, s) && Started(l, s) && CanCommit(l, s, t)
    ensures History(l, AfterCommit(l, s, t))
  {
    CommitListsClaims(l, s, t);
    var s', tx := AfterCommit(l, s, t), s.txs[t];
    assert tx.packet !in s.claims && tx.start <= tx.pc.seen <= s.claims.Keys;
    forall k | 0 <= k < |s'.commits|
      ensures s'.commits[k].packet in s'.claims && s'.claims[s'.commits[k].packet] == s'.commits[k].tx
      ensures s'.commits[k].start <= s'.commits[k].seen <= s'.claims.Keys
    {
      assert k < |s.commits| ==> s'.commits[k] == s.commits[k];
    }
  }

  /** One transaction at most is about to close a campaign. */
  lemma CloserIsUnique(l: Layout, s: State, t: TxId, c: CampaignId)
    requires Pending(l, s) && HoldsCampaign(l, s, t, c)
    ensures forall u | u in s.txs && s.txs[u].pc.ReadyToCommit? && s.txs[u].pc.closes
                       && CampaignOf(l, s.txs[u].packet, c) :: u == t
  {
    forall u | u in s.txs && s.txs[u].pc.ReadyToCommit? && s.txs[u].pc.closes && CampaignOf(l, s.txs[u].packet, c)
      ensures u == t
    {
      assert HoldsCampaign(l, s, u, c);
    }
  }

  lemma CommitKeepsPending(l: Layout, s: State, t: TxId)
    requires Pending(l, s) && CanCommit(l, s, t)
    ensures Pending(l, AfterCommit(l, s, t))
  {
    var s' := AfterCommit(l, s, t);
    forall u, c | HoldsCampaign(l, s', u, c)
      ensures HoldsCampaign(l, s, u, c)
    {
    }
    if s.txs[t].pc.closes {
      CloserIsUnique(l, s, t, l.packets[s.txs[t].packet].campaign);
    }
  }

  lemma CommitKeepsClosures(l: Layout, s: State, t: TxId)
    requires Pending(l, s) && History(l, s) && Closures(l, s) && CanCommit(l, s, t)
    ensures Closures(l, AfterCommit(l, s, t))
  {
    var s' := AfterCommit(l, s, t);
    forall k: nat, c | ClosingCommit(l, s', k, c)
      ensures c in s'.closed
    {
      if k < |s.commits| {
        assert ClosingCommit(l, s, k, c);
      }
    }
    forall c | c in s'.closed && s'.closed[c].BySubmit?
      ensures ClosedByCommit(l, s', c)
    {
      if s.txs[t].pc.closes && c == l.packets[s.txs[t].packet].campaign {
        assert ClosesAs(l, s', |s.commits|, c);
      } else {
        assert ClosedByCommit(l, s, c);
        var k: nat :| ClosesAs(l, s, k, c);
        assert ClosesAs(l, s', k, c);
      }
    }
  }

  // ----- every step, every run -----

  ghost function Begun(s: State, t: TxId, p: PacketId, caller: Sam, ds: seq<Input>): State {
    Put(s, t, Tx(p, caller, ds, {}, Pc.Begun))
  }

  lemma BeginKeepsLocks(l: Layout, s: State, t: TxId, p: PacketId, caller: Sam, ds: seq<Input>)
    requires PacketLocks(l, s) && t !in s.txs
    ensures PacketLocks(l, Begun(s, t, p, caller, ds))
  {
  }

  lemma BeginKeepsRecorded(l: Layout, s: State, t: TxId, p: PacketId, caller: Sam, ds: seq<Input>)
    requires Recorded(l, s) && Started(l, s) && t !in s.txs
    ensures Started(l, Begun(s, t, p, caller, ds)) && Recorded(l, Begun(s, t, p, caller, ds))
  {
  }

  lemma BeginKeepsPending(l: Layout, s: State, t: TxId, p: PacketId, caller: Sam, ds: seq<Input>)
    requires Pending(l, s) && t !in s.txs
    ensures Pending(l, Begun(s, t, p, caller, ds))
  {
    assert forall u, c | HoldsCampaign(l, Begun(s, t, p, caller, ds), u, c) :: HoldsCampaign(l, s, u, c);
  }

  lemma CloseByHandKeepsPending(l: Layout, s: State, c: CampaignId)
    requires Pending(l, s) && !CampaignLocked(l, s, c)
    ensures Pending(l, s.(closed := s.closed[c := ByHand]))
  {
    var s' := s.(closed := s.closed[c := ByHand]);
    assert forall u, d | HoldsCampaign(l, s', u, d) :: HoldsCampaign(l, s, u, d);
    forall u | u in s.txs && s.txs[u].pc.ReadyToCommit? && s.txs[u].pc.closes && s.txs[u].packet in l.packets
      ensures l.packets[s.txs[u].packet].campaign != c
    {
      assert !HoldsCampaign(l, s, u, c);
    }
  }

  lemma CloseByHandKeepsTables(l: Layout, s: State, c: CampaignId)
    requires PacketLocks(l, s) && Recorded(l, s) && Started(l, s)
    ensures PacketLocks(l, s.(closed := s.closed[c := ByHand]))
    ensures Recorded(l, s.(closed := s.closed[c := ByHand])) && Started(l, s.(closed := s.closed[c := ByHand]))
  {
  }

  lemma MoveKeepsInv(l: Layout, s: State, t: TxId, tx': Tx)
    requires Inv(l, s) && t in s.txs && Legal(l, s, t, tx')
    ensures Inv(l, Put(s, t, tx'))
  {
    MoveKeepsPacketLocks(l, s, t, tx');
    MoveKeepsRecorded(l, s, t, tx');
    MoveKeepsPending(l, s, t, tx');
    MoveKeepsStarted(l, s, t, tx');
    SameTablesKeepClosures(l, s, Put(s, t, tx'));
  }

  lemma CommitKeepsPacketLocks(l: Layout, s: State, t: TxId)
    requires PacketLocks(l, s) && CanCommit(l, s, t)
    ensures PacketLocks(l, AfterCommit(l, s, t))
  {
  }

  lemma CommitKeepsStarted(l: Layout, s: State, t: TxId)
    requires Started(l, s) && CanCommit(l, s, t)
    ensures Started(l, AfterCommit(l, s, t))
  {
  }

  lemma CommitKeepsInv(l: Layout, s: State, t: TxId)
    requires Inv(l, s) && CanCommit(l, s, t)
    ensures Inv(l, AfterCommit(l, s, t))
  {
    CommitKeepsPacketLocks(l, s, t);
    CommitKeepsRecorded(l, s, t);
    CommitKeepsHistory(l, s, t);
    CommitKeepsPending(l, s, t);
    CommitKeepsStarted(l, s, t);
    CommitKeepsClosures(l, s, t);
  }

  lemma StepKeepsInv(l: Layout, s: State, step: Step)
    requires Inv(l, s) && Exec(l, s, step).Some?
    ensures Inv(l, Exec(l, s, step).value)
  {
    if step.Begin? {
      BeginKeepsLocks(l, s, step.t, step.packet, step.caller, step.decisions);
      BeginKeepsRecorded(l, s, step.t, step.packet, step.caller, step.decisions);
      BeginKeepsPending(l, s, step.t, step.packet, step.caller, step.decisions);
      SameTablesKeepClosures(l, s, Exec(l, s, step).value);
    } else if step.CloseByHand? {
      if step.c !in s.closed {
        CloseByHandKeepsPending(l, s, step.c);
        CloseByHandKeepsTables(l, s, step.c);
        SameTablesKeepClosures(l, s, Exec(l, s, step).value);
      }
    } else if step.CommitTx? {
      StepShape(l, s, step);
      CommitKeepsInv(l, s, step.t);
    } else {
      StepShape(l, s, step);
      MoveKeepsInv(l, s, step.t, Exec(l, s, step).value.txs[step.t]);
    }
  }

  lemma {:induction false} RunKeepsInv(l: Layout, s: State, steps: seq<Step>)
    requires Inv(l, s) && Run(l, s, steps).Some?
    ensures Inv(l, Run(l, s, steps).value)
    decreases steps
  {
    if steps != [] {
      StepKeepsInv(l, s, steps[0]);
      RunKeepsInv(l, Exec(l, s, steps[0]).value, steps[1..]);
    }
  }
}
