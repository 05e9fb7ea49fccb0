/** What any interleaving of the licence service and the alert script keeps. */
module LicenceTheorems {
  import opened Common
  import opened LicenceAlerts

  // ----- reading the log -----

  function SentStep(ts: seq<Threshold>, e: Event, l: nat): seq<Threshold> {
    match e
    case Renewed(k, _, _) => if k == l then [] else ts
    case Recorded(p) => if p.licence == l then ts + [p.threshold] else ts
    case _ => ts
  }

  /** The thresholds recorded as sent for a licence since its last renewal, in order. */
  function SentSince(log: seq<Event>, l: nat): seq<Threshold> {
    if log == [] then [] else SentStep(SentSince(log[..|log| - 1], l), log[|log| - 1], l)
  }

  function PostsStep(n: nat, e: Event, p: Pair): nat {
    match e
    case Renewed(k, _, _) => if k == p.licence then 0 else n
    case PostOk(q) => if q == p then n + 1 else n
    case _ => n
  }

  /** How many posts about a pair succeeded since the licence's last renewal. */
  function PostsSince(log: seq<Event>, p: Pair): nat {
    if log == [] then 0 else PostsStep(PostsSince(log[..|log| - 1], p), log[|log| - 1], p)
  }

  function LossesStep(n: nat, e: Event, p: Pair): nat {
    match e
    case Renewed(k, _, _) => if k == p.licence then 0 else n
    case Lost(q) => if q == p then n + 1 else n
    case _ => n
  }

  /** How many of them the script failed to record. */
  function LossesSince(log: seq<Event>, p: Pair): nat {
    if log == [] then 0 else LossesStep(LossesSince(log[..|log| - 1], p), log[|log| - 1], p)
  }

  predicate CaughtStep(caught: bool, e: Event, p: Pair) {
    if e.Renewed? && e.licence == p.licence then p.threshold in e.caught else caught
  }

  /** The licence's last renewal fell between a post of the pair and its recording. */
  predicate Caught(log: seq<Event>, p: Pair) {
    log != [] && CaughtStep(Caught(log[..|log| - 1], p), log[|log| - 1], p)
  }

  predicate CalmStep(calm: bool, e: Event, l: nat) {
    if e.Renewed? && e.licence == l then !e.overlapped else calm && e != Patched(l)
  }

  /** The licence's last renewal overlapped no run about it, and its expiry was not patched since. */
  predicate Calm(log: seq<Event>, l: nat) {
    log == [] || CalmStep(Calm(log[..|log| - 1], l), log[|log| - 1], l)
  }

  /** A log read one event further. */
  lemma ReadOne(log: seq<Event>, e: Event, l: nat, p: Pair)
    ensures SentSince(log + [e], l) == SentStep(SentSince(log, l), e, l)
    ensures PostsSince(log + [e], p) == PostsStep(PostsSince(log, p), e, p)
    ensures LossesSince(log + [e], p) == LossesStep(LossesSince(log, p), e, p)
    ensures Caught(log + [e], p) == CaughtStep(Caught(log, p), e, p)
    ensures Calm(log + [e], l) == CalmStep(Calm(log, l), e, l)
  {
    assert (log + [e])[..|log|] == log;
  }

  // ----- lists of pairs -----

  ghost predicate OnePerLicence(pairs: seq<Pair>) {
    forall i, j | 0 <= i < j < |pairs| :: pairs[i].licence != pairs[j].licence
  }

  /** The threshold a list has for a licence, as a list of at most one. */
  function About(pairs: seq<Pair>, l: nat): seq<Threshold> {
    if pairs == [] then []
    else
      About(pairs[..|pairs| - 1], l)
      + if pairs[|pairs| - 1].licence == l then [pairs[|pairs| - 1].threshold] else []
  }

  lemma {:induction false} AboutOne(pairs: seq<Pair>, l: nat)
    requires OnePerLicence(pairs)
    ensures forall t :: About(pairs, l) == [t] <==> Pair(l, t) in pairs
    ensures About(pairs, l) == [] <==> forall i | 0 <= i < |pairs| :: pairs[i].licence != l
    ensures |About(pairs, l)| <= 1
  {
    if pairs != [] {
      var init, last := pairs[..|pairs| - 1], pairs[|pairs| - 1];
      AboutOne(init, l);
      assert pairs == init + [last];
      assert forall i | 0 <= i < |init| :: init[i] == pairs[i];
      if last.licence == l {
        assert About(init, l) == [];
        assert About(pairs, l) == [last.threshold];
      }
    }
  }

  lemma {:induction false} ReadRecords(log: seq<Event>, pairs: seq<Pair>, l: nat, p: Pair)
    requires p.licence == l
    ensures SentSince(log + Records(pairs), l) == SentSince(log, l) + About(pairs, l)
    ensures PostsSince(log + Records(pairs), p) == PostsSince(log, p)
    ensures LossesSince(log + Records(pairs), p) == LossesSince(log, p)
    ensures Caught(log + Records(pairs), p) == Caught(log, p)
    ensures Calm(log + Records(pairs), l) == Calm(log, l)
  {
    if pairs == [] {
      assert log + Records(pairs) == log;
    } else {
      var init, last := pairs[..|pairs| - 1], pairs[|pairs| - 1];
      ReadRecords(log, init, l, p);
      ReadOne(log + Records(init), Recorded(last), l, p);
      assert log + Records(pairs) == log + Records(init) + [Recorded(last)];
    }
  }

  lemma {:induction false} ReadLosses(log: seq<Event>, pairs: seq<Pair>, l: nat, p: Pair)
    requires p.licence == l
    ensures SentSince(log + Losses(pairs), l) == SentSince(log, l)
    ensures PostsSince(log + Losses(pairs), p) == PostsSince(log, p)
    ensures LossesSince(log + Losses(pairs), p) == LossesSince(log, p) + multiset(pairs)[p]
    ensures Caught(log + Losses(pairs), p) == Caught(log, p)
    ensures Calm(log + Losses(pairs), l) == Calm(log, l)
  {
    if pairs == [] {
      assert log + Losses(pairs) == log;
    } else {
      var init, last := pairs[..|pairs| - 1], pairs[|pairs| - 1];
      ReadLosses(log, init, l, p);
      ReadOne(log + Losses(init), Lost(last), l, p);
      assert log + Losses(pairs) == log + Losses(init) + [Lost(last)];
      assert pairs == init + [last];
    }
  }

  lemma {:induction false} ReadPosts(log: seq<Event>, pairs: seq<Pair>, l: nat, p: Pair)
    requires p.licence == l
    ensures SentSince(log + Posts(pairs), l) == SentSince(log, l)
    ensures PostsSince(log + Posts(pairs), p) == PostsSince(log, p) + multiset(pairs)[p]
    ensures LossesSince(log + Posts(pairs), p) == LossesSince(log, p)
    ensures Caught(log + Posts(pairs), p) == Caught(log, p)
    ensures Calm(log + Posts(pairs), l) == Calm(log, l)
  {
    if pairs == [] {
      assert log + Posts(pairs) == log;
    } else {
      var init, last := pairs[..|pairs| - 1], pairs[|pairs| - 1];
      ReadPosts(log, init, l, p);
      ReadOne(log + Posts(init), PostOk(last), l, p);
      assert log + Posts(pairs) == log + Posts(init) + [PostOk(last)];
      assert pairs == init + [last];
    }
  }

  lemma {:induction false} CountOne(pairs: seq<Pair>, p: Pair)
    requires OnePerLicence(pairs)
    ensures multiset(pairs)[p] == if p in pairs then 1 else 0
  {
    if pairs != [] {
      var init, last := pairs[..|pairs| - 1], pairs[|pairs| - 1];
      CountOne(init, p);
      assert pairs == init + [last];
      if last == p {
        forall i | 0 <= i < |init| ensures init[i] != p {
          assert pairs[i].licence != pairs[|pairs| - 1].licence;
        }
      }
    }
  }

  lemma {:induction false} Upserted(alerts: map<Pair, bool>, pairs: seq<Pair>, sent: bool, p: Pair)
    ensures var after := Upsert(alerts, pairs, sent);
            (p in after && after[p]) <==> if p in pairs then sent else p in alerts && alerts[p]
  {
    if pairs != [] {
      Upserted(alerts, pairs[..|pairs| - 1], sent, p);
      assert pairs == pairs[..|pairs| - 1] + [pairs[|pairs| - 1]];
    }
  }

  /** What recording does to the table. */
  lemma RecordedTable(s: State, p: Pair)
    requires s.flight.Posted?
    ensures Sent(Record(s, true), p) <==> if p in s.flight.pairs then s.flight.ok else Sent(s, p)
  {
    Upserted(s.alerts, s.flight.pairs, s.flight.ok, p);
  }

  // ----- the invariant -----

  function Count(b: bool): nat {
    if b then 1 else 0
  }

  /** A run is about known licences, once each, and about pairs not yet sent. */
  ghost predicate FlightInv(s: State) {
    !s.flight.Idle? ==>
      && OnePerLicence(s.flight.pairs)
      && forall p | p in s.flight.pairs :: p.licence < |s.licences| && !Sent(s, p)
  }

  /** The table says exactly what was recorded since the last renewal, and nothing was recorded twice. */
  ghost predicate TableInv(s: State, l: nat) {
    && (forall t :: Sent(s, Pair(l, t)) <==> t in SentSince(s.log, l))
    && NoDup(SentSince(s.log, l))
    && (l >= |s.licences| ==> SentSince(s.log, l) == [])
  }

  /** Posts and the one a renewal caught are accounted for: marked sent, lost, or still in the air. */
  ghost predicate PostInv(s: State, p: Pair) {
    PostsSince(s.log, p) + Count(Caught(s.log, p))
    == Count(Sent(s, p)) + LossesSince(s.log, p) + Count(InAir(s, p))
  }

  /** What is due today, however the table stands. */
  function Today(s: State, l: nat): Option<Threshold>
    requires l < |s.licences|
  {
    ThresholdFor(s.licences[l].expires - s.today)
  }

  ghost predicate Rising(ts: seq<Threshold>) {
    forall i, j | 0 <= i < j < |ts| :: Rank(ts[i]) < Rank(ts[j])
  }

  ghost predicate UrgencyInv(s: State, l: nat) {
    l < |s.licences| && Calm(s.log, l) ==>
      && Rising(SentSince(s.log, l))
      && (forall t | t in SentSince(s.log, l) :: Rank(t) <= RankOf(Today(s, l)))
      && (forall t | !s.flight.Idle? && Pair(l, t) in s.flight.pairs :: Today(s, l) == Some(t))
  }

  ghost predicate Chain(rs: seq<Renewal>) {
    forall k | 0 < k < |rs| :: rs[k].cycleEnded == rs[k - 1].newExpires
  }

  ghost predicate ChainInv(s: State, l: nat) {
    && (l >= |s.licences| ==> Patched(l) !in s.log)
    && (l < |s.licences| && Patched(l) !in s.log ==>
          var lic := s.licences[l];
          Chain(lic.renewals) && (lic.renewals != [] ==> lic.expires == lic.renewals[|lic.renewals| - 1].newExpires))
  }

  ghost predicate Inv(s: State) {
    && FlightInv(s)
    && (forall l: nat :: TableInv(s, l))
    && (forall p: Pair :: PostInv(s, p))
    && (forall l: nat :: UrgencyInv(s, l))
    && (forall l: nat :: ChainInv(s, l))
  }

  // ----- one step at a time -----

  lemma CreateKeeps(s: State, expires: Day)
    requires Inv(s)
    ensures Inv(Create(s, expires))
  {
    var s' := Create(s, expires);
    assert FlightInv(s');
    forall l: nat ensures TableInv(s', l) && UrgencyInv(s', l) && ChainInv(s', l) {
      assert TableInv(s, l) && UrgencyInv(s, l) && ChainInv(s, l);
      if !s.flight.Idle? {
        assert forall t | Pair(l, t) in s.flight.pairs :: Pair(l, t).licence < |s.licences|;
      }
    }
    forall p: Pair ensures PostInv(s', p) {
      assert PostInv(s, p);
    }
  }

  lemma DeleteKeeps(s: State, l: nat)
    requires Inv(s)
    ensures Inv(Delete(s, l))
  {
    var s' := Delete(s, l);
    assert FlightInv(s');
    forall k: nat ensures TableInv(s', k) && UrgencyInv(s', k) && ChainInv(s', k) {
      assert TableInv(s, k) && UrgencyInv(s, k) && ChainInv(s, k);
    }
    forall p: Pair ensures PostInv(s', p) {
      assert PostInv(s, p);
    }
  }

  lemma PatchKeeps(s: State, l: nat, expires: Day)
    requires Inv(s)
    ensures Inv(Patch(s, l, expires))
  {
    var s' := Patch(s, l, expires);
    if s' != s {
      assert FlightInv(s');
      forall k: nat ensures TableInv(s', k) && UrgencyInv(s', k) && ChainInv(s', k) {
        ReadOne(s.log, Patched(l), k, Pair(k, Expired));
        assert TableInv(s, k) && UrgencyInv(s, k) && ChainInv(s, k);
      }
      forall p: Pair ensures PostInv(s', p) {
        ReadOne(s.log, Patched(l), p.licence, p);
        assert PostInv(s, p);
      }
    }
  }

  lemma RenewKeepsPosts(s: State, l: nat, newExpires: Day, p: Pair)
    requires PostInv(s, p) && l < |s.licences| && s.licences[l].active
    ensures PostInv(Renew(s, l, newExpires), p)
  {
    ReadOne(s.log, Renewed(l, InFlight(s, l), CaughtBy(s, l)), p.licence, p);
    assert p.licence == l ==> p == Pair(l, p.threshold);
  }

  lemma RenewKeeps(s: State, l: nat, newExpires: Day)
    requires Inv(s)
    ensures Inv(Renew(s, l, newExpires))
  {
    var s' := Renew(s, l, newExpires);
    if l < |s.licences| && s.licences[l].active {
      var e := Renewed(l, InFlight(s, l), CaughtBy(s, l));
      assert FlightInv(s');
      forall k: nat ensures TableInv(s', k) && UrgencyInv(s', k) && ChainInv(s', k) {
        ReadOne(s.log, e, k, Pair(k, Expired));
        assert TableInv(s, k) && UrgencyInv(s, k) && ChainInv(s, k);
      }
      forall p: Pair ensures PostInv(s', p) {
        RenewKeepsPosts(s, l, newExpires, p);
      }
    }
  }

  lemma {:induction false} PendingExactly(s: State, n: nat, today: Day, horizon: int)
    requires n <= |s.licences|
    ensures OnePerLicence(Pending(s, n, today, horizon))
    ensures forall p :: p in Pending(s, n, today, horizon) <==>
              p.licence < n && Due(s, p.licence, today, horizon)
              && Some(p.threshold) == ThresholdFor(s.licences[p.licence].expires - today)
  {
    if n != 0 {
      PendingExactly(s, n - 1, today, horizon);
    }
  }

  /** Time only makes a threshold more urgent. */
  lemma UrgencyRises(days: int, later: int)
    requires later <= days
    ensures RankOf(ThresholdFor(days)) <= RankOf(ThresholdFor(later))
  {
  }

  lemma QueryKeeps(s: State, today: Day, horizon: int)
    requires Inv(s) && s.flight.Idle? && s.today <= today
    ensures Inv(Query(s, today, horizon))
  {
    var s' := Query(s, today, horizon);
    PendingExactly(s, |s.licences|, today, horizon);
    assert FlightInv(s');
    forall l: nat ensures TableInv(s', l) && UrgencyInv(s', l) && ChainInv(s', l) {
      assert TableInv(s, l) && UrgencyInv(s, l) && ChainInv(s, l);
      if l < |s.licences| {
        UrgencyRises(s.licences[l].expires - s.today, s.licences[l].expires - today);
      }
    }
    forall p: Pair ensures PostInv(s', p) {
      assert PostInv(s, p);
    }
  }

  lemma StopKeeps(s: State)
    requires Inv(s) && s.flight.Queried?
    ensures Inv(s.(flight := Idle))
  {
    var s' := s.(flight := Idle);
    forall l: nat ensures TableInv(s', l) && UrgencyInv(s', l) && ChainInv(s', l) {
      assert TableInv(s, l) && UrgencyInv(s, l) && ChainInv(s, l);
    }
    forall p: Pair ensures PostInv(s', p) {
      assert PostInv(s, p);
    }
  }

  lemma {:induction false} NoPatch(log: seq<Event>, pairs: seq<Pair>, l: nat)
    ensures Patched(l) in log + Posts(pairs) <==> Patched(l) in log
    ensures Patched(l) in log + Records(pairs) <==> Patched(l) in log
    ensures Patched(l) in log + Losses(pairs) <==> Patched(l) in log
  {
    if pairs != [] {
      NoPatch(log, pairs[..|pairs| - 1], l);
    }
  }

  lemma PostKeepsPosts(s: State, ok: bool, p: Pair)
    requires FlightInv(s) && PostInv(s, p) && s.flight.Queried?
    ensures PostInv(Post(s, ok), p)
  {
    ReadPosts(s.log, s.flight.pairs, p.licence, p);
    CountOne(s.flight.pairs, p);
  }

  lemma PostKeeps(s: State, ok: bool)
    requires Inv(s) && s.flight.Queried?
    ensures Inv(Post(s, ok))
  {
    var s', pairs := Post(s, ok), s.flight.pairs;
    assert FlightInv(s');
    forall l: nat ensures TableInv(s', l) && UrgencyInv(s', l) && ChainInv(s', l) {
      ReadPosts(s.log, pairs, l, Pair(l, Expired));
      NoPatch(s.log, pairs, l);
      assert TableInv(s, l) && UrgencyInv(s, l) && ChainInv(s, l);
    }
    forall p: Pair ensures PostInv(s', p) {
      PostKeepsPosts(s, ok, p);
    }
  }

  lemma LoseKeepsPosts(s: State, p: Pair)
    requires FlightInv(s) && PostInv(s, p) && s.flight.Posted?
    ensures PostInv(Record(s, false), p)
  {
    ReadLosses(s.log, s.flight.pairs, p.licence, p);
    CountOne(s.flight.pairs, p);
  }

  lemma LoseKeeps(s: State)
    requires Inv(s) && s.flight.Posted?
    ensures Inv(Record(s, false))
  {
    var s', pairs := Record(s, false), s.flight.pairs;
    forall l: nat ensures TableInv(s', l) && UrgencyInv(s', l) && ChainInv(s', l) {
      ReadLosses(s.log, pairs, l, Pair(l, Expired));
      NoPatch(s.log, pairs, l);
      assert TableInv(s, l) && UrgencyInv(s, l) && ChainInv(s, l);
    }
    forall p: Pair ensures PostInv(s', p) {
      LoseKeepsPosts(s, p);
    }
  }

  lemma RecordFailureKeeps(s: State)
    requires Inv(s) && s.flight.Posted? && !s.flight.ok
    ensures Inv(Record(s, true))
  {
    var s', pairs := Record(s, true), s.flight.pairs;
    forall p ensures Sent(s', p) == Sent(s, p) {
      RecordedTable(s, p);
    }
    forall l: nat ensures TableInv(s', l) && UrgencyInv(s', l) && ChainInv(s', l) {
      assert TableInv(s, l) && UrgencyInv(s, l) && ChainInv(s, l);
    }
    forall p: Pair ensures PostInv(s', p) {
      assert PostInv(s, p);
    }
  }

  lemma RecordTable(s: State, l: nat)
    requires FlightInv(s) && TableInv(s, l) && s.flight.Posted? && s.flight.ok
    ensures TableInv(Record(s, true), l)
  {
    var s', pairs := Record(s, true), s.flight.pairs;
    ReadRecords(s.log, pairs, l, Pair(l, Expired));
    AboutOne(pairs, l);
    forall t ensures Sent(s', Pair(l, t)) <==> Pair(l, t) in pairs || Sent(s, Pair(l, t)) {
      RecordedTable(s, Pair(l, t));
    }
    var before, added := SentSince(s.log, l), About(pairs, l);
    if added == [] {
      assert before + added == before;
      assert forall t :: Pair(l, t) !in pairs;
    } else {
      assert added == [added[0]];
      assert Pair(l, added[0]) in pairs;
      assert !Sent(s, Pair(l, added[0]));
      forall t ensures Sent(s', Pair(l, t)) <==> t in before + added {
        assert Pair(l, t) in pairs <==> added == [t];
      }
    }
  }

  lemma RisingSnoc(ts: seq<Threshold>, t: Threshold)
    requires Rising(ts) && forall u | u in ts :: Rank(u) < Rank(t)
    ensures Rising(ts + [t])
  {
  }

  lemma RankDiffers(u: Threshold, t: Threshold)
    requires u != t
    ensures Rank(u) != Rank(t)
  {
  }

  lemma RecordUrgency(s: State, l: nat)
    requires FlightInv(s) && TableInv(s, l) && UrgencyInv(s, l) && s.flight.Posted? && s.flight.ok
    ensures UrgencyInv(Record(s, true), l)
  {
    var pairs := s.flight.pairs;
    ReadRecords(s.log, pairs, l, Pair(l, Expired));
    AboutOne(pairs, l);
    var before, added := SentSince(s.log, l), About(pairs, l);
    if added == [] {
      assert before + added == before;
    } else if l < |s.licences| && Calm(s.log, l) {
      var t := added[0];
      assert added == [t] && Pair(l, t) in pairs;
      assert Today(s, l) == Some(t) && !Sent(s, Pair(l, t)) && t !in before;
      forall u | u in before ensures Rank(u) < Rank(t) {
        RankDiffers(u, t);
      }
      RisingSnoc(before, t);
    }
  }

  lemma RecordChain(s: State, l: nat)
    requires ChainInv(s, l) && s.flight.Posted?
    ensures ChainInv(Record(s, true), l)
  {
    NoPatch(s.log, s.flight.pairs, l);
  }

  lemma RecordSentKeeps(s: State)
    requires Inv(s) && s.flight.Posted? && s.flight.ok
    ensures Inv(Record(s, true))
  {
    var s', pairs := Record(s, true), s.flight.pairs;
    forall l: nat ensures TableInv(s', l) && UrgencyInv(s', l) && ChainInv(s', l) {
      assert TableInv(s, l) && UrgencyInv(s, l) && ChainInv(s, l);
      RecordTable(s, l);
      RecordUrgency(s, l);
      RecordChain(s, l);
    }
    forall p: Pair ensures PostInv(s', p) {
      ReadRecords(s.log, pairs, p.licence, p);
      RecordedTable(s, p);
      assert PostInv(s, p);
    }
  }

  lemma StepKeepsInv(s: State, step: Step)
    requires Inv(s) && Enabled(s, step)
    ensures Inv(Exec(s, step))
  {
    match step {
      case StepCreate(expires) => CreateKeeps(s, expires);
      case StepPatch(l, expires) => PatchKeeps(s, l, expires);
      case StepDelete(l) => DeleteKeeps(s, l);
      case StepRenew(l, expires) => RenewKeeps(s, l, expires);
      case StepQuery(today, horizon) => QueryKeeps(s, today, horizon);
      case StepPost(ok) => PostKeeps(s, ok);
      case StepRecord(commits) =>
        if !commits {
          LoseKeeps(s);
        } else if s.flight.ok {
          RecordSentKeeps(s);
        } else {
          RecordFailureKeeps(s);
        }
      case StepStop => StopKeeps(s);
    }
  }

  lemma {:induction false} RunKeepsInv(states: seq<State>, steps: seq<Step>, k: nat)
    requires Run(states, steps) && Initial(states[0]) && k < |states|
    ensures Inv(states[k])
  {
    if k > 0 {
      RunKeepsInv(states, steps, k - 1);
      StepKeepsInv(states[k - 1], steps[k - 1]);
    }
  }

  // ----- the theorems -----

  /** Between two renewals each threshold of a licence is recorded as sent at most once, so at most four in all. */
  lemma SentAtMostOnce(states: seq<State>, steps: seq<Step>, k: nat, l: nat)
    requires Run(states, steps) && Initial(states[0]) && k < |states|
    ensures NoDup(SentSince(states[k].log, l)) && |SentSince(states[k].log, l)| <= 4
    ensures forall t :: Sent(states[k], Pair(l, t)) <==> t in SentSince(states[k].log, l)
  {
    RunKeepsInv(states, steps, k);
    var s := states[k];
    assert TableInv(s, l);
    var ts := SentSince(s.log, l);
    NoDupCardinality(ts);
    var all := {SixMo, ThreeMo, ThirtyD, Expired};
    forall t | t in Elements(ts) ensures t in all {
      match t { case SixMo => case ThreeMo => case ThirtyD => case Expired => }
    }
    SubsetCardinality(Elements(ts), all);
  }

  /**
   In every reachable state, for every pair: the posts since the last renewal, and the one that renewal
   caught, are each marked as sent, lost to a failed recording, or still in the air.
   */
  lemma PostsBalance(states: seq<State>, steps: seq<Step>, k: nat, p: Pair)
    requires Run(states, steps) && Initial(states[0]) && k < |states|
    ensures var s := states[k];
            PostsSince(s.log, p) + Count(Caught(s.log, p))
            == Count(Sent(s, p)) + LossesSince(s.log, p) + Count(InAir(s, p))
  {
    RunKeepsInv(states, steps, k);
    assert PostInv(states[k], p);
  }

  /** At most one post more than the lost ones, and one more exactly when a pair not caught is sent or in the air. */
  lemma PostedTwiceOnlyAfterALoss(states: seq<State>, steps: seq<Step>, k: nat, p: Pair)
    requires Run(states, steps) && Initial(states[0]) && k < |states|
    ensures var s := states[k];
            && PostsSince(s.log, p) <= 1 + LossesSince(s.log, p)
            && (PostsSince(s.log, p) == 1 + LossesSince(s.log, p)
                <==> (Sent(s, p) || InAir(s, p)) && !Caught(s.log, p))
  {
    RunKeepsInv(states, steps, k);
    assert PostInv(states[k], p);
    assert FlightInv(states[k]);
  }

  /** While the expiry is not patched and renewals do not overlap runs, alerts only get more urgent. */
  lemma UrgencyStrictlyRises(states: seq<State>, steps: seq<Step>, k: nat, l: nat)
    requires Run(states, steps) && Initial(states[0]) && k < |states|
    requires Calm(states[k].log, l)
    ensures Rising(SentSince(states[k].log, l))
  {
    RunKeepsInv(states, steps, k);
    assert UrgencyInv(states[k], l) && TableInv(states[k], l);
  }

  /**
   A threshold marked sent was posted in this cycle, except exactly when the renewal that opened the
   cycle came between a post of it and the recording, and every post since was recorded.
   */
  lemma MarkedMeansPosted(states: seq<State>, steps: seq<Step>, k: nat, p: Pair)
    requires Run(states, steps) && Initial(states[0]) && k < |states|
    requires Sent(states[k], p)
    ensures PostsSince(states[k].log, p) == 0 <==> Caught(states[k].log, p) && LossesSince(states[k].log, p) == 0
  {
    RunKeepsInv(states, steps, k);
    assert PostInv(states[k], p);
    assert FlightInv(states[k]);
  }

  /**
   A licence renewed between a post and its recording starts the new cycle with exactly the thresholds
   in the air marked as sent; none was posted in it, and the script will not post them.
   */
  lemma RenewalDuringARun(s: State, l: nat, newExpires: Day, today: Day, horizon: int)
    requires Inv(s) && s.flight.Posted? && l < |s.licences| && s.licences[l].active
    ensures var after := Record(Renew(s, l, newExpires), true);
            forall t :: && (Sent(after, Pair(l, t)) <==> InAir(s, Pair(l, t)))
                        && PostsSince(after.log, Pair(l, t)) == 0
                        && (InAir(s, Pair(l, t)) ==> Pair(l, t) !in Pending(after, |after.licences|, today, horizon))
  {
    var renewed := Renew(s, l, newExpires);
    var after := Record(renewed, true);
    RenewKeeps(s, l, newExpires);
    PendingExactly(after, |after.licences|, today, horizon);
    forall t ensures (Sent(after, Pair(l, t)) <==> InAir(s, Pair(l, t))) && PostsSince(after.log, Pair(l, t)) == 0 {
      ReadOne(s.log, Renewed(l, InFlight(s, l), CaughtBy(s, l)), l, Pair(l, t));
      ReadRecords(renewed.log, s.flight.pairs, l, Pair(l, t));
      RecordedTable(renewed, Pair(l, t));
    }
  }

  /** A renewal between the query and the post does no such harm: the post falls in the new cycle. */
  lemma RenewalBeforeThePost(s: State, p: Pair, newExpires: Day)
    requires Inv(s) && s.flight.Queried? && p in s.flight.pairs && s.licences[p.licence].active
    ensures var after := Record(Post(Renew(s, p.licence, newExpires), true), true);
            Sent(after, p) && PostsSince(after.log, p) == 1 && !Caught(after.log, p)
  {
    var renewed := Renew(s, p.licence, newExpires);
    RenewKeeps(s, p.licence, newExpires);
    ReadOne(s.log, Renewed(p.licence, InFlight(s, p.licence), CaughtBy(s, p.licence)), p.licence, p);
    ReadPosts(renewed.log, s.flight.pairs, p.licence, p);
    CountOne(s.flight.pairs, p);
    var posted := Post(renewed, true);
    ReadRecords(posted.log, s.flight.pairs, p.licence, p);
    RecordedTable(posted, p);
  }

  /** One licence, ten days past its expiry: the first query finds it. */
  lemma FirstQuery(s: State, today: Day, horizon: int)
    requires Initial(s) && horizon >= 0
    ensures var queried := Query(Create(s, today - 10), today, horizon);
            queried.flight == Queried([Pair(0, Expired)]) && queried.licences == [Licence(today - 10, true, [])]
  {
    var created := Create(s, today - 10);
    assert Pending(created, 0, today, horizon) == [];
    assert Due(created, 0, today, horizon);
    assert Pending(created, 1, today, horizon) == [] + [Pair(0, Expired)];
  }

  /** A run and one more step. */
  lemma OneMore(states: seq<State>, steps: seq<Step>, step: Step) returns (longer: seq<State>)
    requires Run(states, steps) && Enabled(states[|steps|], step)
    ensures longer == states + [Exec(states[|steps|], step)] && Run(longer, steps + [step])
  {
    longer := states + [Exec(states[|steps|], step)];
    forall k | 0 <= k < |steps + [step]|
      ensures Enabled(longer[k], (steps + [step])[k]) && longer[k + 1] == Exec(longer[k], (steps + [step])[k])
    {
      assert longer[k] == states[k];
    }
  }

  /** Created, found by the query and posted about, from the empty tables. */
  lemma FirstPost(today: Day) returns (states: seq<State>, steps: seq<Step>)
    ensures Run(states, steps) && Initial(states[0])
    ensures var s := states[|steps|];
            InAir(s, Pair(0, Expired)) && s.licences == [Licence(today - 10, true, [])]
  {
    states, steps := [State([], map[], Idle, today, [])], [];
    FirstQuery(states[0], today, 183);
    states := OneMore(states, steps, StepCreate(today - 10));
    steps := steps + [StepCreate(today - 10)];
    states := OneMore(states, steps, StepQuery(today, 183));
    steps := steps + [StepQuery(today, 183)];
    assert states[2].flight.pairs[0] == Pair(0, Expired);
    states := OneMore(states, steps, StepPost(true));
    steps := steps + [StepPost(true)];
  }

  /** A state reached from the empty tables, in which a threshold is marked sent and was not posted in its cycle. */
  lemma MarkedNotPosted(today: Day) returns (states: seq<State>, steps: seq<Step>, p: Pair)
    ensures Run(states, steps) && Initial(states[0])
    ensures var s := states[|steps|];
            Sent(s, p) && PostsSince(s.log, p) == 0 && Caught(s.log, p) && LossesSince(s.log, p) == 0
  {
    p := Pair(0, Expired);
    states, steps := FirstPost(today);
    var k := |steps|;
    RunKeepsInv(states, steps, k);
    RenewalDuringARun(states[k], 0, today + 355, today, 183);
    states := OneMore(states, steps, StepRenew(0, today + 355));
    steps := steps + [StepRenew(0, today + 355)];
    states := OneMore(states, steps, StepRecord(true));
    steps := steps + [StepRecord(true)];
    assert states[k + 2] == Record(Renew(states[k], 0, today + 355), true);
    MarkedMeansPosted(states, steps, k + 2, p);
  }

  /** A failed post marks nothing as sent: everything that was pending is pending again that day. */
  lemma FailedPostStaysPending(s: State, today: Day, horizon: int, recorded: bool)
    requires Inv(s) && s.flight.Idle? && s.today <= today && Query(s, today, horizon).flight.Queried?
    ensures var after := Record(Post(Query(s, today, horizon), false), recorded);
            Query(after, today, horizon).flight == Query(s, today, horizon).flight
  {
    QueryKeeps(s, today, horizon);
    var queried := Query(s, today, horizon);
    var after := Record(Post(queried, false), recorded);
    forall p ensures Sent(after, p) == Sent(s, p) {
      if recorded {
        RecordedTable(Post(queried, false), p);
      }
    }
    SamePending(s, after, |s.licences|, today, horizon);
  }

  lemma {:induction false} SamePending(s: State, s': State, n: nat, today: Day, horizon: int)
    requires n <= |s.licences| && s.licences == s'.licences && forall p :: Sent(s', p) == Sent(s, p)
    ensures Pending(s, n, today, horizon) == Pending(s', n, today, horizon)
  {
    if n != 0 {
      SamePending(s, s', n - 1, today, horizon);
    }
  }

  /** While the expiry is never patched, each renewal's cycle ends where the one before it began to run. */
  lemma RenewalsChain(states: seq<State>, steps: seq<Step>, k: nat, l: nat)
    requires Run(states, steps) && Initial(states[0]) && k < |states|
    requires l < |states[k].licences| && Patched(l) !in states[k].log
    ensures Chain(states[k].licences[l].renewals)
  {
    RunKeepsInv(states, steps, k);
    assert ChainInv(states[k], l);
  }

  /** A pair is in the list for a date exactly when its licence is listed, at that threshold, and it is not sent. */
  ghost predicate Pends(s: State, p: Pair, today: Day, horizon: int) {
    && p.licence < |s.licences| && Listed(s.licences[p.licence], today, horizon) && !Sent(s, p)
    && ThresholdFor(s.licences[p.licence].expires - today) == Some(p.threshold)
  }

  lemma PendingIsPends(s: State, p: Pair, today: Day, horizon: int)
    ensures p in Pending(s, |s.licences|, today, horizon) <==> Pends(s, p, today, horizon)
  {
    PendingExactly(s, |s.licences|, today, horizon);
  }

  /**
   A renewal opens the next cycle with no threshold sent: the next query finds the licence pending exactly
   when its new expiry is at a threshold, and every other licence as it would have found it.
   */
  lemma RenewalResets(s: State, l: nat, newExpires: Day, today: Day, horizon: int, p: Pair)
    requires l < |s.licences| && s.licences[l].active
    ensures var after := Renew(s, l, newExpires);
            p in Pending(after, |after.licences|, today, horizon) <==>
              if p.licence == l then
                newExpires <= today + horizon && ThresholdFor(newExpires - today) == Some(p.threshold)
              else
                p in Pending(s, |s.licences|, today, horizon)
  {
    PendingIsPends(s, p, today, horizon);
    PendingIsPends(Renew(s, l, newExpires), p, today, horizon);
  }
}
