/** The daily server list: an upsert of the feed, guarded against partial feeds, and a graced deactivation. */
module ServerSync {
  import opened Common

  /** Seconds. */
  type Time = int

  const GRACE: Time := 24 * 60 * 60
  const DATABRICKS := "databricks"

  /** A row of shared.servers, but for its name: D stands for the columns the feed overwrites. */
  datatype Server<D> = Server(source: string, active: bool, synced: Option<Time>, details: D)

  type Table<D> = map<string, Server<D>>

  /** A record of the feed. */
  datatype Item<D> = Item(name: Option<string>, details: D)

  datatype Outcome = Nothing | TooFew | Churn | Duplicate | Failed | DryRun | Committed

  /** now is the time of the transaction; fails stands for any failing statement or commit. */
  datatype Run<D> = Run(feed: seq<Item<D>>, now: Time, minServers: int, dryRun: bool, fails: bool)

  // ----- what the sync reads -----

  function Trunc(name: string): string {
    if |name| <= 255 then name else name[..255]
  }

  /** The records with a name, as they go to the temporary table. */
  function Values<D>(feed: seq<Item<D>>): seq<(string, D)> {
    if feed == [] then []
    else
      var item := feed[|feed| - 1];
      Values(feed[..|feed| - 1])
      + if item.name.Some? && item.name.value != "" then [(Trunc(item.name.value), item.details)] else []
  }

  function Names<D>(values: seq<(string, D)>): seq<string> {
    seq(|values|, i requires 0 <= i < |values| => values[i].0)
  }

  predicate Baseline<D>(s: Server<D>) {
    s.source == DATABRICKS && s.active
  }

  function ActiveBaseline<D>(t: Table<D>): set<string> {
    set n | n in t && Baseline(t[n])
  }

  function Floor(minServers: int): int {
    if minServers > 10 then minServers else 10
  }

  // ----- what it writes -----

  /** The record that a name's row takes: the first, and the only one when names are distinct. */
  function Find<D>(values: seq<(string, D)>, name: string): Option<D> {
    if values == [] then None
    else
      match Find(values[..|values| - 1], name)
      case Some(d) => Some(d)
      case None => if values[|values| - 1].0 == name then Some(values[|values| - 1].1) else None
  }

  /** Inserted as a databricks row, or updated in place; a row keeps the source it was created with. */
  function Upserted<D>(t: Table<D>, name: string, d: D, now: Time): Server<D> {
    Server(if name in t then t[name].source else DATABRICKS, true, Some(now), d)
  }

  predicate Stale<D>(s: Server<D>, now: Time) {
    Baseline(s) && match s.synced case None => false case Some(at) => at < now - GRACE
  }

  function AfterRow<D>(t: Table<D>, values: seq<(string, D)>, now: Time, name: string): Server<D>
    requires name in t || Find(values, name).Some?
  {
    match Find(values, name)
    case Some(d) => Upserted(t, name, d, now)
    case None => if Stale(t[name], now) then t[name].(active := false) else t[name]
  }

  function Written<D>(t: Table<D>, values: seq<(string, D)>, now: Time): Table<D> {
    map n | n in t.Keys + NameSet(values) && (n in t || Find(values, n).Some?) :: AfterRow(t, values, now, n)
  }

  function NameSet<D>(values: seq<(string, D)>): set<string> {
    set i | 0 <= i < |values| :: values[i].0
  }

  function OutcomeOf<D>(t: Table<D>, run: Run<D>): Outcome {
    var values := Values(run.feed);
    if run.feed == [] then Nothing
    else if |values| == 0 || |values| < Floor(run.minServers) then TooFew
    else if |ActiveBaseline(t)| > 0 && 2 * |values| < |ActiveBaseline(t)| then Churn
    else if |NameSet(values)| != |values| then Duplicate
    else if run.fails then Failed
    else if run.dryRun then DryRun
    else Committed
  }

  function AfterRun<D>(t: Table<D>, run: Run<D>): Table<D> {
    if OutcomeOf(t, run) == Committed then Written(t, Values(run.feed), run.now) else t
  }

  function AfterRuns<D>(t: Table<D>, runs: seq<Run<D>>): Table<D> {
    if runs == [] then t else AfterRun(AfterRuns(t, runs[..|runs| - 1]), runs[|runs| - 1])
  }

  // ----- the same, as the script does it -----

  class Database<D> {
    var servers: Table<D>

    constructor (servers: Table<D>)
      ensures this.servers == servers
    {
      this.servers := servers;
    }

    /** An exception rolls the transaction back, and so does the end of a dry run. */
    method SyncServers(run: Run<D>) returns (outcome: Outcome)
      modifies this
      ensures outcome == OutcomeOf(old(servers), run)
      ensures servers == AfterRun(old(servers), run)
    {
      if run.feed == [] {
        return Nothing;
      }
      var values: seq<(string, D)> := [];
      for i := 0 to |run.feed|
        invariant values == Values(run.feed[..i]) && servers == old(servers)
      {
        assert run.feed[..i + 1][..i] == run.feed[..i];
        var item := run.feed[i];
        if item.name.Some? && item.name.value != "" {
          values := values + [(Trunc(item.name.value), item.details)];
        }
      }
      assert run.feed[..|run.feed|] == run.feed;
      if |values| == 0 {
        return TooFew;
      }
      var minServers := if run.minServers > 10 then run.minServers else 10;
      if |values| < minServers {
        return TooFew;
      }
      var existing := |ActiveBaseline(servers)|;
      if existing > 0 && 2 * |values| < existing {
        return Churn;
      }
      if |NameSet(values)| != |values| {
        return Duplicate; // one statement may not update a row twice
      }
      if run.fails {
        return Failed;
      }
      if run.dryRun {
        return DryRun;
      }
      servers := Written(servers, values, run.now);
      return Committed;
    }
  }

  // ----- one run -----

  lemma {:induction false} FindExactly<D>(values: seq<(string, D)>, name: string)
    ensures Find(values, name).Some? <==> name in NameSet(values)
  {
    if values != [] {
      FindExactly(values[..|values| - 1], name);
      if name in NameSet(values[..|values| - 1]) {
        var i :| 0 <= i < |values| - 1 && values[..|values| - 1][i].0 == name;
        assert values[i].0 == name;
      }
    }
  }

  /** A run that does not commit changes nothing: an empty, small, shrunken or repeating feed, a failure, a dry run. */
  lemma NotCommittedChangesNothing<D>(t: Table<D>, run: Run<D>)
    ensures OutcomeOf(t, run) != Committed ==> AfterRun(t, run) == t
    ensures OutcomeOf(t, run) == Committed <==>
            var values := Values(run.feed);
            && |values| >= Floor(run.minServers) && 2 * |values| >= |ActiveBaseline(t)|
            && NoDup(Names(values)) && !run.fails && !run.dryRun
  {
    var values := Values(run.feed);
    DistinctNames(values);
    if run.feed == [] {
      assert values == [];
    }
  }

  lemma DistinctNames<D>(values: seq<(string, D)>)
    ensures NoDup(Names(values)) <==> |NameSet(values)| == |values|
    ensures NameSet(values) == Elements(Names(values)) && |NameSet(values)| <= |values|
  {
    var names := Names(values);
    forall n | n in names ensures n in NameSet(values) {
      var i :| 0 <= i < |names| && names[i] == n;
      assert values[i].0 == n;
    }
    forall n | n in NameSet(values) ensures n in names {
      var i :| 0 <= i < |values| && values[i].0 == n;
      assert names[i] == n;
    }
    assert NameSet(values) == Elements(names);
    FewerElements(names);
    if NoDup(names) {
      NoDupCardinality(names);
    }
  }

  /** A list with repetitions has fewer elements than positions. */
  lemma {:induction false} FewerElements(s: seq<string>)
    ensures |Elements(s)| <= |s|
    ensures |Elements(s)| == |s| ==> NoDup(s)
  {
    if s != [] {
      var init, last := s[..|s| - 1], s[|s| - 1];
      FewerElements(init);
      assert s == init + [last];
      assert Elements(s) == Elements(init) + {last};
      if last in init {
        assert Elements(s) == Elements(init);
      } else {
        assert last !in Elements(init);
        assert forall i | 0 <= i < |init| :: s[i] == init[i] && init[i] in init;
      }
    }
  }

  /** Who is active after a committed run: the feed, and whoever was active and is not a stale databricks row. */
  lemma ActiveExactly<D>(t: Table<D>, run: Run<D>, name: string)
    requires OutcomeOf(t, run) == Committed
    ensures var after, fed := AfterRun(t, run), NameSet(Values(run.feed));
            && (name in after <==> name in t || name in fed)
            && (name in after && after[name].active <==>
                name in fed || (name in t && t[name].active && !Stale(t[name], run.now)))
  {
    FindExactly(Values(run.feed), name);
  }

  /** What a committed run writes: only a fed row's columns and time, and only the flag of a stale row. */
  lemma RowsExactly<D>(t: Table<D>, run: Run<D>, name: string)
    requires OutcomeOf(t, run) == Committed && name in AfterRun(t, run)
    ensures var row, fed := AfterRun(t, run)[name], NameSet(Values(run.feed));
            && (name in fed ==> row.synced == Some(run.now) && (name in t ==> row.source == t[name].source)
                                && (name !in t ==> row.source == DATABRICKS))
            && (name !in fed ==> name in t && row == t[name].(active := t[name].active && !Stale(t[name], run.now)))
  {
    FindExactly(Values(run.feed), name);
  }

  function ActiveRows<D>(t: Table<D>): set<string> {
    set n | n in t && t[n].active
  }

  /** The guard's effect: at least half of the databricks rows active before are matched by rows active after. */
  lemma HalfRemain<D>(t: Table<D>, run: Run<D>)
    requires OutcomeOf(t, run) == Committed
    ensures 2 * |ActiveRows(AfterRun(t, run))| >= |ActiveBaseline(t)|
    ensures |ActiveRows(AfterRun(t, run))| >= Floor(run.minServers)
  {
    var fed := NameSet(Values(run.feed));
    forall n | n in fed ensures n in ActiveRows(AfterRun(t, run)) {
      ActiveExactly(t, run, n);
    }
    SubsetCardinality(fed, ActiveRows(AfterRun(t, run)));
  }

  // ----- several runs -----

  /** Active, and seen at t or later. */
  ghost predicate SeenSince<D>(t: Table<D>, name: string, at: Time) {
    name in t && t[name].active && t[name].synced.Some? && t[name].synced.value >= at
  }

  lemma StaysSeen<D>(t: Table<D>, run: Run<D>, name: string, at: Time)
    requires SeenSince(t, name, at) && at <= run.now <= at + GRACE
    ensures SeenSince(AfterRun(t, run), name, at)
  {
    if OutcomeOf(t, run) == Committed {
      FindExactly(Values(run.feed), name);
    }
  }

  lemma {:induction false} StaysSeenOver<D>(t: Table<D>, runs: seq<Run<D>>, name: string, at: Time)
    requires SeenSince(t, name, at) && forall r | r in runs :: at <= r.now <= at + GRACE
    ensures SeenSince(AfterRuns(t, runs), name, at)
  {
    if runs != [] {
      StaysSeenOver(t, runs[..|runs| - 1], name, at);
      assert runs[|runs| - 1] in runs;
      StaysSeen(AfterRuns(t, runs[..|runs| - 1]), runs[|runs| - 1], name, at);
    }
  }

  /** A server in the feed of a committed run stays active through any runs of the next 24 hours, whoever they miss. */
  lemma GraceHolds<D>(t: Table<D>, run: Run<D>, runs: seq<Run<D>>, name: string)
    requires OutcomeOf(t, run) == Committed && name in NameSet(Values(run.feed))
    requires forall r | r in runs :: run.now <= r.now <= run.now + GRACE
    ensures var after := AfterRuns(AfterRun(t, run), runs); name in after && after[name].active
  {
    FindExactly(Values(run.feed), name);
    StaysSeenOver(AfterRun(t, run), runs, name, run.now);
  }

  /**
   The grace is a time, not a number of runs: a databricks row that one run has seen is deactivated
   by the very next committed run that misses it exactly when that comes more than 24 hours later.
   */
  lemma FirstMissDeactivates<D>(t: Table<D>, run: Run<D>, next: Run<D>, name: string)
    requires OutcomeOf(t, run) == Committed && name in NameSet(Values(run.feed))
    requires name in t ==> t[name].source == DATABRICKS
    requires OutcomeOf(AfterRun(t, run), next) == Committed && name !in NameSet(Values(next.feed))
    ensures var after := AfterRun(AfterRun(t, run), next);
            name in after && (after[name].active <==> next.now <= run.now + GRACE)
  {
    var mid := AfterRun(t, run);
    ActiveExactly(t, run, name);
    RowsExactly(t, run, name);
    ActiveExactly(mid, next, name);
    assert mid[name].source == DATABRICKS && mid[name].active && mid[name].synced == Some(run.now);
  }
}
