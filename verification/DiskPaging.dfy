/**
 Paging about critical disks: one run queries breaches and recoveries, posts a card, and then
 records the pages and the resolutions in two transactions.
 */
module DiskPaging {
  import opened Common

  /** Seconds. */
  type Time = int

  datatype Key = Key(server: string, disk: string)

  datatype Disk = Disk(key: Key, unit: string, environment: string, fqdn: Option<string>, status: int)

  /** A row of monitoring.alerts; every row is written after its notification was sent. */
  datatype Alert = Alert(key: Key, sentAt: Time, resolved: bool)

  /** A row of the resolution query: an open alert row, by position, and its recovered disk. */
  datatype Resolution = Resolution(alert: nat, key: Key)

  /** What is fixed by the script's constants and environment; lower folds the case of a character. */
  datatype Config = Config(cooldown: Time, unit: string, environments: set<string>, lower: char -> char)

  // ----- the two queries -----

  const NONPROD := ".nonprod"

  predicate EndsWith(s: string, suffix: string, lower: char -> char) {
    |suffix| <= |s| && forall i | 0 <= i < |suffix| :: lower(s[|s| - |suffix| + i]) == lower(suffix[i])
  }

  predicate InScope(d: Disk, cfg: Config) {
    && d.unit == cfg.unit
    && !EndsWith(match d.fqdn case None => "" case Some(f) => f, NONPROD, cfg.lower)
    && !EndsWith(d.key.server, NONPROD, cfg.lower)
  }

  predicate Critical(d: Disk, cfg: Config) {
    d.status == 3 && d.environment in cfg.environments && InScope(d, cfg)
  }

  predicate Recovered(d: Disk, cfg: Config) {
    d.status < 3 && InScope(d, cfg)
  }

  predicate Open(a: Alert, key: Key) {
    a.key == key && !a.resolved
  }

  /** An open alert within the cooldown keeps a disk quiet. */
  predicate Quiet(rows: seq<Alert>, key: Key, now: Time, cfg: Config) {
    exists i | 0 <= i < |rows| :: Open(rows[i], key) && rows[i].sentAt >= now - cfg.cooldown
  }

  function Breaches(rows: seq<Alert>, disks: seq<Disk>, now: Time, cfg: Config): seq<Disk> {
    if disks == [] then []
    else
      var d := disks[|disks| - 1];
      Breaches(rows, disks[..|disks| - 1], now, cfg)
      + if Critical(d, cfg) && !Quiet(rows, d.key, now, cfg) then [d] else []
  }

  predicate HasRecovered(disks: seq<Disk>, key: Key, cfg: Config) {
    exists i | 0 <= i < |disks| :: disks[i].key == key && Recovered(disks[i], cfg)
  }

  /** One row per open alert of a recovered disk. */
  function Resolutions(rows: seq<Alert>, disks: seq<Disk>, cfg: Config): seq<Resolution> {
    if rows == [] then []
    else
      var i := |rows| - 1;
      Resolutions(rows[..i], disks, cfg)
      + if !rows[i].resolved && HasRecovered(disks, rows[i].key, cfg) then [Resolution(i, rows[i].key)] else []
  }

  // ----- what a run writes -----

  function Pages(ds: seq<Disk>, now: Time): seq<Alert> {
    seq(|ds|, i requires 0 <= i < |ds| => Alert(ds[i].key, now, false))
  }

  function Resolve(rows: seq<Alert>, ids: set<nat>): seq<Alert> {
    seq(|rows|, i requires 0 <= i < |rows| => if i in ids then rows[i].(resolved := true) else rows[i])
  }

  function Ids(rs: seq<Resolution>): set<nat> {
    set r | r in rs :: r.alert
  }

  /** How far a run gets: a failed post records nothing, and either transaction may fail. */
  datatype End = PostFails | PagesUnrecorded | ResolutionsUnrecorded | Completes

  /** The disks as the breach query finds them, and as the resolution query does: a disk sync may commit in between. */
  datatype Run = Run(now: Time, disks: seq<Disk>, later: seq<Disk>, dryRun: bool, end: End)

  predicate WritesNothing(run: Run) {
    run.dryRun || run.end in {PostFails, PagesUnrecorded}
  }

  function AfterRun(rows: seq<Alert>, run: Run, cfg: Config): seq<Alert> {
    if WritesNothing(run) then rows
    else
      var paged := rows + Pages(Breaches(rows, run.disks, run.now, cfg), run.now);
      if run.end == ResolutionsUnrecorded then paged else Resolve(paged, Ids(Resolutions(rows, run.later, cfg)))
  }

  function AfterRuns(rows: seq<Alert>, runs: seq<Run>, cfg: Config): seq<Alert> {
    if runs == [] then rows else AfterRun(AfterRuns(rows, runs[..|runs| - 1], cfg), runs[|runs| - 1], cfg)
  }

  // ----- the same, as the script does it -----

  /** Some of the rows is about this disk. */
  predicate Mentions(rs: seq<Resolution>, key: Key) {
    exists i | 0 <= i < |rs| :: rs[i].key == key
  }

  /** The rows that no earlier row of the same disk precedes, in order. */
  function FirstPerDisk(rs: seq<Resolution>): seq<Resolution> {
    if rs == [] then []
    else
      var init, last := rs[..|rs| - 1], rs[|rs| - 1];
      FirstPerDisk(init) + if Mentions(init, last.key) then [] else [last]
  }

  /** One line per disk, in the order of first appearance. */
  method DedupeResolved(resolved: seq<Resolution>) returns (unique: seq<Resolution>)
    ensures unique == FirstPerDisk(resolved)
    ensures forall k :: Mentions(unique, k) <==> Mentions(resolved, k)
    ensures forall i, j | 0 <= i < j < |unique| :: unique[i].key != unique[j].key
  {
    var seen: set<Key> := {};
    unique := [];
    for i := 0 to |resolved|
      invariant unique == FirstPerDisk(resolved[..i])
      invariant forall k :: k in seen <==> Mentions(resolved[..i], k)
      invariant forall k :: k in seen <==> Mentions(unique, k)
      invariant forall a, b | 0 <= a < b < |unique| :: unique[a].key != unique[b].key
    {
      var r := resolved[i];
      var key := r.key;
      ghost var head, before := resolved[..i], unique;
      assert resolved[..i + 1] == head + [r];
      if key !in seen {
        seen := seen + {key};
        unique := unique + [r];
        forall k ensures Mentions(unique, k) <==> Mentions(before, k) || k == key {
          MentionsSnoc(before, r, k);
        }
      }
      forall k ensures Mentions(resolved[..i + 1], k) <==> Mentions(head, k) || k == key {
        MentionsSnoc(head, r, k);
      }
    }
    assert resolved[..|resolved|] == resolved;
  }

  lemma MentionsSnoc(rs: seq<Resolution>, r: Resolution, k: Key)
    ensures Mentions(rs + [r], k) <==> Mentions(rs, k) || k == r.key
  {
    if Mentions(rs, k) {
      var i :| 0 <= i < |rs| && rs[i].key == k;
      assert (rs + [r])[i].key == k;
    }
    assert (rs + [r])[|rs|] == r;
  }

  class AlertStore {
    var rows: seq<Alert>

    constructor ()
      ensures rows == []
    {
      rows := [];
    }

    /** One transaction; the time is that of the breach query, which began it. */
    method RecordBreachAlerts(breaches: seq<Disk>, now: Time, fails: bool) returns (raised: bool)
      modifies this
      ensures raised == fails
      ensures rows == if fails then old(rows) else old(rows) + Pages(breaches, now)
    {
      var inserted: seq<Alert> := [];
      for i := 0 to |breaches|
        invariant inserted == Pages(breaches[..i], now)
        invariant rows == old(rows)
      {
        assert breaches[..i + 1] == breaches[..i] + [breaches[i]];
        inserted := inserted + [Alert(breaches[i].key, now, false)];
      }
      assert breaches[..|breaches|] == breaches;
      if !fails {
        rows := rows + inserted;
      }
      return fails;
    }

    method RecordResolutions(resolved: seq<Resolution>, fails: bool) returns (raised: bool)
      modifies this
      ensures raised == (fails && resolved != [])
      ensures rows == if raised then old(rows) else Resolve(old(rows), Ids(resolved))
    {
      if resolved == [] {
        assert Resolve(rows, Ids(resolved)) == rows;
        return false;
      }
      if !fails {
        rows := Resolve(rows, Ids(resolved));
      }
      return fails;
    }

    /** The script's main, after its settings are read. */
    method RunAlert(run: Run, cfg: Config)
      modifies this
      ensures rows == AfterRun(old(rows), run, cfg)
    {
      var breaches := Breaches(rows, run.disks, run.now, cfg);
      var resolutions := Resolutions(rows, run.later, cfg);
      if breaches == [] && resolutions == [] {
        assert rows + Pages(breaches, run.now) == rows;
        assert Resolve(rows, Ids(resolutions)) == rows;
        return;
      }
      if run.dryRun {
        return;
      }
      if run.end == PostFails {
        return;
      }
      var raised := RecordBreachAlerts(breaches, run.now, run.end == PagesUnrecorded);
      if raised {
        return;
      }
      raised := RecordResolutions(resolutions, run.end == ResolutionsUnrecorded);
      if run.end == ResolutionsUnrecorded && !raised {
        assert Resolve(rows, Ids(resolutions)) == rows;
      }
    }
  }

  // ----- facts about the queries -----

  /** The breach query lists exactly the critical disks in scope that no open alert keeps quiet. */
  lemma {:induction false} BreachesExactly(rows: seq<Alert>, disks: seq<Disk>, now: Time, cfg: Config, d: Disk)
    ensures d in Breaches(rows, disks, now, cfg) <==> d in disks && Critical(d, cfg) && !Quiet(rows, d.key, now, cfg)
  {
    if disks != [] {
      BreachesExactly(rows, disks[..|disks| - 1], now, cfg, d);
      assert disks == disks[..|disks| - 1] + [disks[|disks| - 1]];
    }
  }

  ghost predicate UniqueKeys(disks: seq<Disk>) {
    forall i, j | 0 <= i < j < |disks| :: disks[i].key != disks[j].key
  }

  lemma {:induction false} BreachKeysDistinct(rows: seq<Alert>, disks: seq<Disk>, now: Time, cfg: Config)
    requires UniqueKeys(disks)
    ensures UniqueKeys(Breaches(rows, disks, now, cfg))
  {
    if disks != [] {
      var init, last := disks[..|disks| - 1], disks[|disks| - 1];
      BreachKeysDistinct(rows, init, now, cfg);
      forall d | d in Breaches(rows, init, now, cfg) ensures d.key != last.key {
        BreachesExactly(rows, init, now, cfg, d);
      }
    }
  }

  /** The resolution query lists exactly the open alerts of recovered disks. */
  lemma {:induction false} ResolutionsExactly(rows: seq<Alert>, disks: seq<Disk>, cfg: Config, i: nat)
    ensures i in Ids(Resolutions(rows, disks, cfg)) <==>
            i < |rows| && !rows[i].resolved && HasRecovered(disks, rows[i].key, cfg)
  {
    if rows != [] {
      var last := |rows| - 1;
      ResolutionsExactly(rows[..last], disks, cfg, i);
      var rest, all := Resolutions(rows[..last], disks, cfg), Resolutions(rows, disks, cfg);
      if i in Ids(rest) {
        var r :| r in rest && r.alert == i;
        assert r in all;
      }
      if !rows[last].resolved && HasRecovered(disks, rows[last].key, cfg) {
        assert Resolution(last, rows[last].key) in all;
      }
      if i in Ids(all) {
        var r :| r in all && r.alert == i;
        assert r in rest || r == Resolution(last, rows[last].key);
      }
    }
  }

  // ----- the protocol -----

  /** Open alerts of one disk stand in order of time, more than the cooldown apart. */
  ghost predicate Spaced(rows: seq<Alert>, cfg: Config) {
    forall i, j | 0 <= i < j < |rows| && rows[i].key == rows[j].key && !rows[i].resolved && !rows[j].resolved ::
      rows[j].sentAt - rows[i].sentAt > cfg.cooldown
  }

  lemma PagesSpaced(rows: seq<Alert>, run: Run, cfg: Config)
    requires Spaced(rows, cfg) && UniqueKeys(run.disks)
    ensures Spaced(rows + Pages(Breaches(rows, run.disks, run.now, cfg), run.now), cfg)
  {
    var bs := Breaches(rows, run.disks, run.now, cfg);
    var all := rows + Pages(bs, run.now);
    BreachKeysDistinct(rows, run.disks, run.now, cfg);
    forall i, j | 0 <= i < j < |all| && all[i].key == all[j].key && !all[i].resolved && !all[j].resolved
      ensures all[j].sentAt - all[i].sentAt > cfg.cooldown
    {
      if j >= |rows| {
        var d := bs[j - |rows|];
        assert d in bs;
        BreachesExactly(rows, run.disks, run.now, cfg, d);
        assert i < |rows|;
        assert Open(rows[i], d.key);
      }
    }
  }

  lemma RunKeepsSpaced(rows: seq<Alert>, run: Run, cfg: Config)
    requires Spaced(rows, cfg) && UniqueKeys(run.disks)
    ensures Spaced(AfterRun(rows, run, cfg), cfg)
  {
    PagesSpaced(rows, run, cfg);
  }

  /** Whatever runs there are and however they end, open alerts of a disk stay more than the cooldown apart. */
  lemma {:induction false} RunsKeepSpaced(rows: seq<Alert>, runs: seq<Run>, cfg: Config)
    requires Spaced(rows, cfg) && forall r | r in runs :: UniqueKeys(r.disks)
    ensures Spaced(AfterRuns(rows, runs, cfg), cfg)
  {
    if runs != [] {
      RunsKeepSpaced(rows, runs[..|runs| - 1], cfg);
      RunKeepsSpaced(AfterRuns(rows, runs[..|runs| - 1], cfg), runs[|runs| - 1], cfg);
    }
  }

  // ----- how many alerts can be open -----

  function OpenAt(rows: seq<Alert>, key: Key): seq<Time> {
    if rows == [] then []
    else OpenAt(rows[..|rows| - 1], key) + if Open(rows[|rows| - 1], key) then [rows[|rows| - 1].sentAt] else []
  }

  ghost predicate Wide(ts: seq<Time>, c: Time)
    requires ts != []
  {
    (|ts| - 1) * c <= ts[|ts| - 1] - ts[0]
  }

  lemma WideNext(ts: seq<Time>, t: Time, c: Time)
    requires ts != [] && Wide(ts, c) && t - ts[|ts| - 1] > c
    ensures Wide(ts + [t], c)
  {
    assert (|ts| - 1) * c + c == |ts| * c;
  }

  lemma WideBound(ts: seq<Time>, c: Time, t: Time)
    requires ts != [] && Wide(ts, c) && c > 0 && ts[|ts| - 1] <= t
    ensures ts[0] <= t && |ts| <= (t - ts[0]) / c + 1
  {
    FloorBound(|ts| - 1, c, t - ts[0]);
  }

  lemma {:induction false} OpenAtSpread(rows: seq<Alert>, key: Key, cfg: Config)
    requires Spaced(rows, cfg)
    ensures var ts := OpenAt(rows, key);
            ts != [] ==> Wide(ts, cfg.cooldown)
                         && exists i :: 0 <= i < |rows| && Open(rows[i], key) && rows[i].sentAt == ts[|ts| - 1]
  {
    if rows != [] {
      var init, last := rows[..|rows| - 1], rows[|rows| - 1];
      OpenAtSpread(init, key, cfg);
      var ts := OpenAt(init, key);
      if ts != [] && Open(last, key) {
        var i :| 0 <= i < |init| && Open(init[i], key) && init[i].sentAt == ts[|ts| - 1];
        WideNext(ts, last.sentAt, cfg.cooldown);
      }
    }
  }

  /** A disk that is paged and never recovers has at most one open alert per cooldown window, and one more. */
  lemma OpenAlertsBound(rows: seq<Alert>, runs: seq<Run>, key: Key, t: Time, cfg: Config)
    requires Spaced(rows, cfg) && (forall r | r in runs :: UniqueKeys(r.disks)) && cfg.cooldown > 0
    requires forall a | a in AfterRuns(rows, runs, cfg) :: a.sentAt <= t
    ensures var ts := OpenAt(AfterRuns(rows, runs, cfg), key);
            ts != [] ==> ts[0] <= t && |ts| <= (t - ts[0]) / cfg.cooldown + 1
  {
    var after := AfterRuns(rows, runs, cfg);
    RunsKeepSpaced(rows, runs, cfg);
    OpenAtSpread(after, key, cfg);
    var ts := OpenAt(after, key);
    if ts != [] {
      var i :| 0 <= i < |after| && Open(after[i], key) && after[i].sentAt == ts[|ts| - 1];
      assert after[i] in after;
      WideBound(ts, cfg.cooldown, t);
    }
  }

  lemma FloorBound(n: nat, c: int, x: int)
    requires c > 0 && n * c <= x
    ensures 0 <= x && n <= x / c
  {
    assert x < (x / c) * c + c;
    assert (x / c) * c + c == (x / c + 1) * c;
    assert n < x / c + 1;
  }

  // ----- resolution -----

  /** A page of the run for this disk. */
  ghost predicate Breached(rows: seq<Alert>, run: Run, cfg: Config, key: Key) {
    exists d :: d in Breaches(rows, run.disks, run.now, cfg) && d.key == key
  }

  /**
   After a completed run whose resolution query sees a disk below critical, in scope, no alert of that
   disk is open, exactly unless its breach query saw the disk critical and the run paged it.
   */
  lemma RecoveredIsResolved(rows: seq<Alert>, run: Run, cfg: Config, key: Key)
    requires HasRecovered(run.later, key, cfg) && !run.dryRun && run.end == Completes
    ensures (forall a | a in AfterRun(rows, run, cfg) :: !Open(a, key)) <==> !Breached(rows, run, cfg, key)
  {
    var bs := Breaches(rows, run.disks, run.now, cfg);
    var after := AfterRun(rows, run, cfg);
    forall i: nat | i < |after| ensures after[i] in after && i in Ids(Resolutions(rows, run.later, cfg)) <==>
        i < |rows| && !rows[i].resolved && HasRecovered(run.later, rows[i].key, cfg)
    {
      ResolutionsExactly(rows, run.later, cfg, i);
    }
    if d :| d in bs && d.key == key {
      var k :| 0 <= k < |bs| && bs[k] == d;
      assert Open(after[|rows| + k], key);
    } else {
      forall i | 0 <= i < |after| ensures !Open(after[i], key) {
        if i >= |rows| {
          assert bs[i - |rows|] in bs;
        }
      }
    }
  }

  /** With one view of the disks for both queries there is no exception: a recovered disk is not critical. */
  lemma RecoveredInOneView(rows: seq<Alert>, run: Run, cfg: Config, key: Key)
    requires UniqueKeys(run.disks) && run.later == run.disks && HasRecovered(run.later, key, cfg)
    requires !run.dryRun && run.end == Completes
    ensures forall a | a in AfterRun(rows, run, cfg) :: !Open(a, key)
  {
    RecoveredIsResolved(rows, run, cfg, key);
    var k :| 0 <= k < |run.disks| && run.disks[k].key == key && Recovered(run.disks[k], cfg);
    forall d | d in Breaches(rows, run.disks, run.now, cfg) ensures d.key != key {
      BreachesExactly(rows, run.disks, run.now, cfg, d);
    }
  }

  /**
   A run that records leaves a critical disk in scope with an open alert no older than the cooldown, unless
   it had one already and the resolution query sees the disk recovered.
   */
  lemma CriticalIsPaged(rows: seq<Alert>, run: Run, cfg: Config, d: Disk)
    requires d in run.disks && Critical(d, cfg) && cfg.cooldown >= 0
    requires !run.dryRun && run.end in {ResolutionsUnrecorded, Completes}
    ensures Quiet(AfterRun(rows, run, cfg), d.key, run.now, cfg) <==>
            !(Quiet(rows, d.key, run.now, cfg) && ResolvedBy(rows, run, cfg, d.key))
  {
    var bs := Breaches(rows, run.disks, run.now, cfg);
    var paged := rows + Pages(bs, run.now);
    var after := AfterRun(rows, run, cfg);
    BreachesExactly(rows, run.disks, run.now, cfg, d);
    if !Quiet(rows, d.key, run.now, cfg) {
      var k :| 0 <= k < |bs| && bs[k] == d;
      Untouched(rows, run, cfg, |rows| + k);
      assert Open(after[|rows| + k], d.key) && after[|rows| + k].sentAt >= run.now - cfg.cooldown;
    } else if !ResolvedBy(rows, run, cfg, d.key) {
      var i: nat :| i < |rows| && Open(rows[i], d.key) && rows[i].sentAt >= run.now - cfg.cooldown;
      Untouched(rows, run, cfg, i);
      assert after[i] == paged[i];
    } else {
      NoBreachWhenQuiet(rows, run, cfg, d.key);
      RecoveredIsResolved(rows, run, cfg, d.key);
    }
  }

  lemma NoBreachWhenQuiet(rows: seq<Alert>, run: Run, cfg: Config, key: Key)
    requires Quiet(rows, key, run.now, cfg)
    ensures !Breached(rows, run, cfg, key)
  {
    forall d | d in Breaches(rows, run.disks, run.now, cfg) ensures d.key != key {
      BreachesExactly(rows, run.disks, run.now, cfg, d);
    }
  }

  /** Recording leaves alone every row but the open alerts of recovered disks. */
  lemma Untouched(rows: seq<Alert>, run: Run, cfg: Config, i: nat)
    requires !run.dryRun && run.end in {ResolutionsUnrecorded, Completes}
    requires i < |rows + Pages(Breaches(rows, run.disks, run.now, cfg), run.now)|
    requires i < |rows| && !rows[i].resolved ==> run.end != Completes || !HasRecovered(run.later, rows[i].key, cfg)
    ensures i < |AfterRun(rows, run, cfg)|
    ensures AfterRun(rows, run, cfg)[i] == (rows + Pages(Breaches(rows, run.disks, run.now, cfg), run.now))[i]
  {
    ResolutionsExactly(rows, run.later, cfg, i);
  }

  lemma {:induction false} NothingWritten(rows: seq<Alert>, runs: seq<Run>, cfg: Config)
    requires forall r | r in runs :: WritesNothing(r)
    ensures AfterRuns(rows, runs, cfg) == rows
  {
    if runs != [] {
      NothingWritten(rows, runs[..|runs| - 1], cfg);
      assert runs[|runs| - 1] in runs;
    }
  }

  /**
   A breach found by a run that fails to post or to record it is not lost: after any number of such
   runs, any later query finds the disk again if it is still critical then.
   */
  lemma FailedPostStaysEligible(rows: seq<Alert>, runs: seq<Run>, run: Run, later: Run, cfg: Config, d: Disk, d': Disk)
    requires (forall r | r in runs :: WritesNothing(r)) && run in runs && run.now <= later.now
    requires d in Breaches(rows, run.disks, run.now, cfg)
    requires d' in later.disks && d'.key == d.key
    ensures d' in Breaches(AfterRuns(rows, runs, cfg), later.disks, later.now, cfg) <==> Critical(d', cfg)
  {
    NothingWritten(rows, runs, cfg);
    BreachesExactly(rows, run.disks, run.now, cfg, d);
    BreachesExactly(rows, later.disks, later.now, cfg, d');
  }

  // ----- pages of one disk over a whole history of runs -----

  ghost predicate PagedBy(rows: seq<Alert>, run: Run, cfg: Config, key: Key) {
    && !run.dryRun && run.end in {ResolutionsUnrecorded, Completes}
    && Breached(rows, run, cfg, key)
  }

  ghost predicate ResolvedBy(rows: seq<Alert>, run: Run, cfg: Config, key: Key) {
    !run.dryRun && run.end == Completes && HasRecovered(run.later, key, cfg)
  }

  /** A page leaves an open alert with its time. */
  ghost predicate OpenFrom(rows: seq<Alert>, key: Key, t: Time) {
    exists i :: 0 <= i < |rows| && Open(rows[i], key) && rows[i].sentAt == t
  }

  lemma PageOpens(rows: seq<Alert>, run: Run, cfg: Config, key: Key)
    requires UniqueKeys(run.disks) && PagedBy(rows, run, cfg, key)
    ensures OpenFrom(AfterRun(rows, run, cfg), key, run.now)
  {
    var bs := Breaches(rows, run.disks, run.now, cfg);
    var d :| d in bs && d.key == key;
    var k :| 0 <= k < |bs| && bs[k] == d;
    assert (rows + Pages(bs, run.now))[|rows| + k] == Alert(key, run.now, false);
    Untouched(rows, run, cfg, |rows| + k);
    assert Open(AfterRun(rows, run, cfg)[|rows| + k], key);
  }

  lemma StaysOpen(rows: seq<Alert>, run: Run, cfg: Config, key: Key, t: Time)
    requires OpenFrom(rows, key, t) && !ResolvedBy(rows, run, cfg, key)
    ensures OpenFrom(AfterRun(rows, run, cfg), key, t)
  {
    var i :| 0 <= i < |rows| && Open(rows[i], key) && rows[i].sentAt == t;
    if AfterRun(rows, run, cfg) != rows {
      Untouched(rows, run, cfg, i);
    }
    assert AfterRun(rows, run, cfg)[i] == rows[i];
  }

  /** The state before the k-th run. */
  function Before(rows: seq<Alert>, runs: seq<Run>, k: nat, cfg: Config): seq<Alert>
    requires k <= |runs|
  {
    AfterRuns(rows, runs[..k], cfg)
  }

  lemma BeforeNext(rows: seq<Alert>, runs: seq<Run>, k: nat, cfg: Config)
    requires k < |runs|
    ensures Before(rows, runs, k + 1, cfg) == AfterRun(Before(rows, runs, k, cfg), runs[k], cfg)
  {
    assert runs[..k + 1][..k] == runs[..k];
  }

  lemma {:induction false} StaysOpenUntil(rows: seq<Alert>, runs: seq<Run>, a: nat, b: nat, cfg: Config, key: Key)
    requires a < b <= |runs| && forall r | r in runs :: UniqueKeys(r.disks)
    requires PagedBy(Before(rows, runs, a, cfg), runs[a], cfg, key)
    requires forall c: nat | a < c < b :: !ResolvedBy(Before(rows, runs, c, cfg), runs[c], cfg, key)
    ensures OpenFrom(Before(rows, runs, b, cfg), key, runs[a].now)
  {
    BeforeNext(rows, runs, b - 1, cfg);
    if b == a + 1 {
      assert runs[a] in runs;
      PageOpens(Before(rows, runs, a, cfg), runs[a], cfg, key);
    } else {
      StaysOpenUntil(rows, runs, a, b - 1, cfg, key);
      StaysOpen(Before(rows, runs, b - 1, cfg), runs[b - 1], cfg, key, runs[a].now);
    }
  }

  /** Two recorded pages of a disk with no resolution between them are more than the cooldown apart. */
  lemma PagesApart(rows: seq<Alert>, runs: seq<Run>, a: nat, b: nat, cfg: Config, key: Key)
    requires a < b < |runs| && forall r | r in runs :: UniqueKeys(r.disks)
    requires PagedBy(Before(rows, runs, a, cfg), runs[a], cfg, key)
    requires PagedBy(Before(rows, runs, b, cfg), runs[b], cfg, key)
    requires forall c: nat | a < c < b :: !ResolvedBy(Before(rows, runs, c, cfg), runs[c], cfg, key)
    ensures runs[b].now - runs[a].now > cfg.cooldown
  {
    var before := Before(rows, runs, b, cfg);
    StaysOpenUntil(rows, runs, a, b, cfg, key);
    var d :| d in Breaches(before, runs[b].disks, runs[b].now, cfg) && d.key == key;
    BreachesExactly(before, runs[b].disks, runs[b].now, cfg, d);
  }
}
