/**
 Licence expiry alerts: a daily script queries, posts and records, while the service creates,
 patches, deletes and renews licences in between. Every call of the service is one step; a run of
 the script is several, and may stop after any of them.
 */
module LicenceAlerts {
  import opened Common

  /** A civil date, as a day number. */
  type Day = int

  datatype Threshold = SixMo | ThreeMo | ThirtyD | Expired

  /** cycle_ended and new_expires of a row of licensing.renewals. */
  datatype Renewal = Renewal(cycleEnded: Day, newExpires: Day)

  datatype Licence = Licence(expires: Day, active: bool, renewals: seq<Renewal>)

  datatype Pair = Pair(licence: nat, threshold: Threshold)

  /** How far the script's run has got. */
  datatype Flight = Idle | Queried(pairs: seq<Pair>) | Posted(pairs: seq<Pair>, ok: bool)

  /**
   What happened, for stating properties. A renewal notes whether it overlapped a run about that
   licence, and which of its thresholds were posted then but not yet recorded.
   */
  datatype Event = PostOk(pair: Pair) | Recorded(pair: Pair) | Lost(pair: Pair)
                 | Renewed(licence: nat, overlapped: bool, caught: set<Threshold>) | Patched(licence: nat)

  /** Licences by id; alerts is licensing.alerts, keyed as its unique index is; today is the last query's date. */
  datatype State = State(licences: seq<Licence>, alerts: map<Pair, bool>, flight: Flight, today: Day, log: seq<Event>)

  // ----- thresholds -----

  function ThresholdFor(days: int): Option<Threshold> {
    if days < 0 then Some(Expired)
    else if days <= 30 then Some(ThirtyD)
    else if days <= 90 then Some(ThreeMo)
    else if days <= 183 then Some(SixMo)
    else None
  }

  function Rank(t: Threshold): nat {
    match t
    case SixMo => 1
    case ThreeMo => 2
    case ThirtyD => 3
    case Expired => 4
  }

  function RankOf(t: Option<Threshold>): nat {
    match t
    case None => 0
    case Some(t) => Rank(t)
  }

  predicate Sent(s: State, p: Pair) {
    p in s.alerts && s.alerts[p]
  }

  // ----- the service -----

  function Create(s: State, expires: Day): State {
    s.(licences := s.licences + [Licence(expires, true, [])])
  }

  /** Only the expiry matters here; an unknown or deleted licence is left alone. */
  function Patch(s: State, l: nat, expires: Day): State {
    if l >= |s.licences| || !s.licences[l].active then s
    else s.(licences := s.licences[l := s.licences[l].(expires := expires)], log := s.log + [Patched(l)])
  }

  function Delete(s: State, l: nat): State {
    if l >= |s.licences| then s else s.(licences := s.licences[l := s.licences[l].(active := false)])
  }

  function Renew(s: State, l: nat, newExpires: Day): State {
    if l >= |s.licences| || !s.licences[l].active then s
    else
      var before := s.licences[l];
      s.(licences := s.licences[l := before.(expires := newExpires,
                                             renewals := before.renewals + [Renewal(before.expires, newExpires)])],
         alerts := map p | p in s.alerts && p.licence != l :: s.alerts[p],
         log := s.log + [Renewed(l, InFlight(s, l), CaughtBy(s, l))])
  }

  predicate InFlight(s: State, l: nat) {
    !s.flight.Idle? && exists i | 0 <= i < |s.flight.pairs| :: s.flight.pairs[i].licence == l
  }

  /** Posted with success, and not yet recorded. */
  predicate InAir(s: State, p: Pair) {
    s.flight.Posted? && s.flight.ok && p in s.flight.pairs
  }

  function CaughtBy(s: State, l: nat): set<Threshold> {
    set t: Threshold | InAir(s, Pair(l, t))
  }

  // ----- the script -----

  /** horizon is the length of the six months after today, in days. */
  predicate Listed(lic: Licence, today: Day, horizon: int) {
    lic.active && lic.expires <= today + horizon
  }

  predicate Due(s: State, l: nat, today: Day, horizon: int)
    requires l < |s.licences|
  {
    && Listed(s.licences[l], today, horizon)
    && (match ThresholdFor(s.licences[l].expires - today)
        case None => false
        case Some(t) => !Sent(s, Pair(l, t)))
  }

  /** The pairs to send among the first n licences. */
  function Pending(s: State, n: nat, today: Day, horizon: int): seq<Pair>
    requires n <= |s.licences|
  {
    if n == 0 then []
    else
      Pending(s, n - 1, today, horizon)
      + if Due(s, n - 1, today, horizon) then
          [Pair(n - 1, ThresholdFor(s.licences[n - 1].expires - today).value)]
        else []
  }

  function Query(s: State, today: Day, horizon: int): State {
    var pairs := Pending(s, |s.licences|, today, horizon);
    s.(flight := if pairs == [] then Idle else Queried(pairs), today := today)
  }

  function Posts(pairs: seq<Pair>): seq<Event> {
    if pairs == [] then [] else Posts(pairs[..|pairs| - 1]) + [PostOk(pairs[|pairs| - 1])]
  }

  function Records(pairs: seq<Pair>): seq<Event> {
    if pairs == [] then [] else Records(pairs[..|pairs| - 1]) + [Recorded(pairs[|pairs| - 1])]
  }

  function Losses(pairs: seq<Pair>): seq<Event> {
    if pairs == [] then [] else Losses(pairs[..|pairs| - 1]) + [Lost(pairs[|pairs| - 1])]
  }

  function Post(s: State, ok: bool): State
    requires s.flight.Queried?
  {
    var pairs := s.flight.pairs;
    s.(flight := Posted(pairs, ok), log := if ok then s.log + Posts(pairs) else s.log)
  }

  function Upsert(alerts: map<Pair, bool>, pairs: seq<Pair>, sent: bool): map<Pair, bool> {
    if pairs == [] then alerts else Upsert(alerts, pairs[..|pairs| - 1], sent)[pairs[|pairs| - 1] := sent]
  }

  function Record(s: State, commits: bool): State
    requires s.flight.Posted?
  {
    var pairs := s.flight.pairs;
    s.(flight := Idle,
       alerts := if commits then Upsert(s.alerts, pairs, s.flight.ok) else s.alerts,
       log := if !s.flight.ok then s.log
              else s.log + if commits then Records(pairs) else Losses(pairs))
  }

  // ----- runs -----

  datatype Step = StepCreate(expires: Day) | StepPatch(l: nat, expires: Day) | StepDelete(l: nat)
                | StepRenew(l: nat, expires: Day)
                | StepQuery(today: Day, horizon: int) | StepPost(ok: bool) | StepRecord(commits: bool)
                | StepStop

  /** One run of the script at a time, and the date does not go back. */
  predicate Enabled(s: State, step: Step) {
    match step
    case StepQuery(today, _) => s.flight.Idle? && s.today <= today
    case StepPost(_) => s.flight.Queried?
    case StepRecord(_) => s.flight.Posted?
    case StepStop => s.flight.Queried?
    case _ => true
  }

  function Exec(s: State, step: Step): State
    requires Enabled(s, step)
  {
    match step
    case StepCreate(expires) => Create(s, expires)
    case StepPatch(l, expires) => Patch(s, l, expires)
    case StepDelete(l) => Delete(s, l)
    case StepRenew(l, expires) => Renew(s, l, expires)
    case StepQuery(today, horizon) => Query(s, today, horizon)
    case StepPost(ok) => Post(s, ok)
    case StepRecord(commits) => Record(s, commits)
    case StepStop => s.(flight := Idle)
  }

  /** Every state is the one before it after an enabled step. */
  ghost predicate Run(states: seq<State>, steps: seq<Step>) {
    && |states| == |steps| + 1
    && forall k | 0 <= k < |steps| :: Enabled(states[k], steps[k]) && states[k + 1] == Exec(states[k], steps[k])
  }

  ghost predicate Initial(s: State) {
    s.licences == [] && s.alerts == map[] && s.flight == Idle && s.log == []
  }

  // ----- the same, imperatively -----

  class Store {
    var state: State

    constructor (today: Day)
      ensures Initial(state) && state.today == today
    {
      state := State([], map[], Idle, today, []);
    }

    /** Null for an unknown or deleted licence. */
    method RenewLicence(l: nat, newExpires: Day) returns (found: bool)
      modifies this
      ensures state == Renew(old(state), l, newExpires)
      ensures found <==> l < |old(state).licences| && old(state).licences[l].active
    {
      if l >= |state.licences| || !state.licences[l].active {
        return false;
      }
      var before := state.licences[l];
      var renewals := before.renewals + [Renewal(before.expires, newExpires)];
      state := state.(log := state.log + [Renewed(l, InFlight(state, l), CaughtBy(state, l))]);
      state := state.(licences := state.licences[l := before.(expires := newExpires, renewals := renewals)]);
      state := state.(alerts := map p | p in state.alerts && p.licence != l :: state.alerts[p]);
      return true;
    }

    method PatchExpiry(l: nat, expires: Day) returns (found: bool)
      modifies this
      ensures state == Patch(old(state), l, expires)
      ensures found <==> l < |old(state).licences| && old(state).licences[l].active
    {
      found := l < |state.licences| && state.licences[l].active;
      if found {
        state := state.(licences := state.licences[l := state.licences[l].(expires := expires)],
                        log := state.log + [Patched(l)]);
      }
    }

    method DeleteLicence(l: nat) returns (found: bool)
      modifies this
      ensures state == Delete(old(state), l)
      ensures found <==> l < |old(state).licences| && old(state).licences[l].active
    {
      found := l < |state.licences| && state.licences[l].active;
      if found {
        state := state.(licences := state.licences[l := state.licences[l].(active := false)]);
      } else if l < |state.licences| {
        assert state.licences[l := state.licences[l].(active := false)] == state.licences;
      }
    }

    /** The filter in main: licences at a threshold that has not been sent this cycle. */
    method QueryPending(today: Day, horizon: int)
      modifies this
      ensures state == Query(old(state), today, horizon)
    {
      var pending: seq<Pair> := [];
      for i := 0 to |state.licences|
        invariant state == old(state)
        invariant pending == Pending(state, i, today, horizon)
      {
        var lic := state.licences[i];
        if lic.active && lic.expires <= today + horizon {
          var t := ThresholdFor(lic.expires - today);
          if t.Some? && !Sent(state, Pair(i, t.value)) {
            pending := pending + [Pair(i, t.value)];
          }
        }
      }
      state := state.(flight := if pending == [] then Idle else Queried(pending), today := today);
    }

    /** One upsert per pair, then one commit. */
    method RecordAlerts(commits: bool)
      requires state.flight.Posted?
      modifies this
      ensures state == Record(old(state), commits)
    {
      var pairs, ok := state.flight.pairs, state.flight.ok;
      var alerts := state.alerts;
      for i := 0 to |pairs|
        invariant state == old(state)
        invariant alerts == Upsert(state.alerts, pairs[..i], ok)
      {
        assert pairs[..i + 1][..i] == pairs[..i];
        alerts := alerts[pairs[i] := ok];
      }
      assert pairs[..|pairs|] == pairs;
      if commits {
        state := state.(alerts := alerts);
      }
      if ok {
        state := state.(log := state.log + if commits then Records(pairs) else Losses(pairs));
      }
      state := state.(flight := Idle);
    }
  }
}
