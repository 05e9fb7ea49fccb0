/** The patching schedule of a cycle: one upsert per server inside a savepoint, then a prune of what dropped out. */
module ScheduleSync {
  import opened Common

  datatype ServerType = OnPrem | Azure

  /** The unique key of patching.patch_schedule. */
  datatype Key = Key(cycle: nat, name: string, kind: ServerType)

  /** The columns an upsert refreshes, and those it sets only when it inserts. */
  datatype Entry = Entry(refreshed: string, kept: string)

  type Table = map<Key, Entry>

  /** What happens to a server's statements; a failure outside the savepoint aborts the transaction. */
  datatype Fate = Fine | Rejected | Aborts

  datatype Server = Server(name: string, entry: Entry, fate: Fate)

  predicate Has(servers: seq<Server>, name: string) {
    exists i | 0 <= i < |servers| :: servers[i].name == name
  }

  predicate HasFine(servers: seq<Server>, name: string) {
    exists i | 0 <= i < |servers| :: servers[i].name == name && servers[i].fate == Fine
  }

  function UpsertOne(t: Table, cycle: nat, s: Server): Table {
    var key := Key(cycle, s.name, OnPrem);
    if s.name == "" || s.fate != Fine then t
    else t[key := if key in t then t[key].(refreshed := s.entry.refreshed) else s.entry]
  }

  function UpsertAll(t: Table, cycle: nat, servers: seq<Server>): Table {
    if servers == [] then t else UpsertOne(UpsertAll(t, cycle, servers[..|servers| - 1]), cycle, servers[|servers| - 1])
  }

  /** Some named server's own statements abort the transaction: no later statement can succeed. */
  predicate AbortsRun(servers: seq<Server>) {
    exists i | 0 <= i < |servers| :: servers[i].name != "" && servers[i].fate == Aborts
  }

  predicate Seen(servers: seq<Server>) {
    exists i | 0 <= i < |servers| :: servers[i].name != ""
  }

  function Prune(t: Table, cycle: nat, servers: seq<Server>): Table {
    map k | k in t && !(k.cycle == cycle && k.kind == OnPrem && !(k.name != "" && Has(servers, k.name))) :: t[k]
  }

  /** None when the whole run is rolled back. */
  function AfterCycle(t: Table, cycle: nat, servers: seq<Server>): Option<Table> {
    if AbortsRun(servers) then None
    else
      var written := UpsertAll(t, cycle, servers);
      Some(if Seen(servers) then Prune(written, cycle, servers) else written)
  }

  datatype Page = Page(cycle: nat, servers: seq<Server>)

  /** The cycles of a page, one after another in one transaction. */
  function AfterPages(t: Table, pages: seq<Page>): Option<Table> {
    if pages == [] then Some(t)
    else
      match AfterPages(t, pages[..|pages| - 1])
      case None => None
      case Some(mid) => AfterCycle(mid, pages[|pages| - 1].cycle, pages[|pages| - 1].servers)
  }

  function AfterRun(t: Table, pages: seq<Page>, dryRun: bool): Table {
    match AfterPages(t, pages)
    case Some(after) => if dryRun then t else after
    case None => t
  }

  // ----- the same, as the script does it -----

  class Transaction {
    var rows: Table
    var aborted: bool
    var errors: nat

    constructor (rows: Table)
      ensures this.rows == rows && !aborted && errors == 0
    {
      this.rows := rows;
      aborted := false;
      errors := 0;
    }

    /** Raises when a statement outside a savepoint meets an aborted transaction. */
    method ProcessServers(cycle: nat, servers: seq<Server>) returns (raised: bool)
      requires !aborted
      modifies this
      ensures raised <==> AfterCycle(old(rows), cycle, servers) == None
      ensures !raised ==> !aborted && Some(rows) == AfterCycle(old(rows), cycle, servers)
    {
      var seen: set<string> := {};
      for i := 0 to |servers|
        invariant forall n :: n in seen <==> n != "" && Has(servers[..i], n)
        invariant aborted <==> AbortsRun(servers[..i])
        invariant !aborted ==> rows == UpsertAll(old(rows), cycle, servers[..i])
      {
        var server := servers[i];
        var name := server.name;
        ghost var head, next := servers[..i], servers[..i + 1];
        assert next == head + [server] && next[..i] == head;
        forall n ensures Has(next, n) <==> Has(head, n) || n == name {
          HasSnoc(head, server, n);
        }
        AbortsSnoc(head, server);
        if name == "" {
          continue;
        }
        seen := seen + {name};
        if aborted {
          return true;
        }
        if server.fate == Aborts {
          aborted := true; // the savepoint of this server fails too, and is only logged
          errors := errors + 1;
        } else if server.fate == Rejected {
          errors := errors + 1;
        } else {
          var key := Key(cycle, name, OnPrem);
          rows := rows[key := if key in rows then rows[key].(refreshed := server.entry.refreshed) else server.entry];
        }
      }
      assert servers[..|servers|] == servers;
      if seen == {} {
        assert !Seen(servers) by {
          NoneSeen(servers, seen);
        }
        return false;
      }
      var n :| n in seen;
      assert Seen(servers);
      if aborted {
        return true;
      }
      ghost var before := rows;
      rows := map k | k in rows && !(k.cycle == cycle && k.kind == OnPrem && k.name !in seen) :: rows[k];
      assert rows == Prune(before, cycle, servers);
      return false;
    }
  }

  lemma HasSnoc(servers: seq<Server>, s: Server, n: string)
    ensures Has(servers + [s], n) <==> Has(servers, n) || s.name == n
  {
    if Has(servers, n) {
      var i :| 0 <= i < |servers| && servers[i].name == n;
      assert (servers + [s])[i].name == n;
    }
    assert (servers + [s])[|servers|] == s;
  }

  lemma AbortsSnoc(servers: seq<Server>, s: Server)
    ensures AbortsRun(servers + [s]) <==> AbortsRun(servers) || (s.name != "" && s.fate == Aborts)
  {
    if AbortsRun(servers) {
      var i :| 0 <= i < |servers| && servers[i].name != "" && servers[i].fate == Aborts;
      assert (servers + [s])[i] == servers[i];
    }
    assert (servers + [s])[|servers|] == s;
  }

  lemma NoneSeen(servers: seq<Server>, seen: set<string>)
    requires seen == {} && forall n :: n in seen <==> n != "" && Has(servers, n)
    ensures !Seen(servers)
  {
    forall i | 0 <= i < |servers| ensures servers[i].name == "" {
      assert Has(servers, servers[i].name);
    }
  }

  // ----- what a cycle's sync leaves -----

  lemma {:induction false} UpsertExactly(t: Table, cycle: nat, servers: seq<Server>, k: Key)
    ensures var after := UpsertAll(t, cycle, servers);
            && (k in after <==>
                  k in t || (k.cycle == cycle && k.kind == OnPrem && k.name != "" && HasFine(servers, k.name)))
            && (k in t && (k.cycle != cycle || k.kind != OnPrem || !HasFine(servers, k.name)) ==> after[k] == t[k])
            && (k in t && k in after ==> after[k].kept == t[k].kept)
  {
    if servers != [] {
      var init, last := servers[..|servers| - 1], servers[|servers| - 1];
      UpsertExactly(t, cycle, init, k);
      assert servers == init + [last];
      FineSnoc(init, last, k.name);
    }
  }

  lemma FineSnoc(servers: seq<Server>, s: Server, n: string)
    ensures HasFine(servers + [s], n) <==> HasFine(servers, n) || (s.name == n && s.fate == Fine)
  {
    if HasFine(servers, n) {
      var i :| 0 <= i < |servers| && servers[i].name == n && servers[i].fate == Fine;
      assert (servers + [s])[i] == servers[i];
    }
    assert (servers + [s])[|servers|] == s;
  }

  /**
   A cycle that is not rolled back and lists a server keeps an on-premises row exactly for the names it
   lists that were written or were there already; rows of other cycles and of Azure are untouched.
   */
  lemma CycleExactly(t: Table, cycle: nat, servers: seq<Server>, k: Key)
    requires !AbortsRun(servers) && Seen(servers)
    ensures var after := AfterCycle(t, cycle, servers).value;
            if k.cycle == cycle && k.kind == OnPrem then
              k in after <==> k.name != "" && Has(servers, k.name) && (HasFine(servers, k.name) || k in t)
            else
              (k in after <==> k in t) && (k in t ==> after[k] == t[k])
  {
    UpsertExactly(t, cycle, servers, k);
    if HasFine(servers, k.name) {
      var i :| 0 <= i < |servers| && servers[i].name == k.name && servers[i].fate == Fine;
      assert Has(servers, k.name);
    }
  }

  /** Without rejected rows the cycle's on-premises servers are exactly the page's. */
  lemma CycleEqualsPage(t: Table, cycle: nat, servers: seq<Server>, name: string)
    requires Seen(servers) && forall i | 0 <= i < |servers| :: servers[i].name != "" ==> servers[i].fate == Fine
    ensures !AbortsRun(servers)
    ensures Key(cycle, name, OnPrem) in AfterCycle(t, cycle, servers).value <==> name != "" && Has(servers, name)
  {
    CycleExactly(t, cycle, servers, Key(cycle, name, OnPrem));
    if name != "" && Has(servers, name) {
      var i :| 0 <= i < |servers| && servers[i].name == name;
      assert HasFine(servers, name);
    }
  }

  lemma {:induction false} LastUpsertWins(t: Table, cycle: nat, servers: seq<Server>, i: nat)
    requires i < |servers| && servers[i].name != "" && servers[i].fate == Fine
    requires forall j | i < j < |servers| :: !(servers[j].name == servers[i].name && servers[j].fate == Fine)
    ensures var key, written := Key(cycle, servers[i].name, OnPrem), UpsertAll(t, cycle, servers);
            key in written && written[key].refreshed == servers[i].entry.refreshed
  {
    if i < |servers| - 1 {
      LastUpsertWins(t, cycle, servers[..|servers| - 1], i);
    }
  }

  /** After the cycle each accepted name has the refreshed values of its last accepted row, and its kept ones. */
  lemma LastOneWins(t: Table, cycle: nat, servers: seq<Server>, i: nat)
    requires !AbortsRun(servers) && i < |servers| && servers[i].name != "" && servers[i].fate == Fine
    requires forall j | i < j < |servers| :: !(servers[j].name == servers[i].name && servers[j].fate == Fine)
    ensures var key, after := Key(cycle, servers[i].name, OnPrem), AfterCycle(t, cycle, servers).value;
            && key in after && after[key].refreshed == servers[i].entry.refreshed
            && (key in t ==> after[key].kept == t[key].kept)
  {
    LastUpsertWins(t, cycle, servers, i);
    UpsertExactly(t, cycle, servers, Key(cycle, servers[i].name, OnPrem));
    assert Seen(servers) && Has(servers, servers[i].name);
  }

  /** The cycles of one run are distinct, so each is left as its own part of the page says. */
  lemma {:induction false} RunEqualsPage(t: Table, pages: seq<Page>, i: nat, name: string)
    requires i < |pages| && forall a, b | 0 <= a < b < |pages| :: pages[a].cycle != pages[b].cycle
    requires forall p | p in pages ::
               && Seen(p.servers)
               && forall j | 0 <= j < |p.servers| :: p.servers[j].name != "" ==> p.servers[j].fate == Fine
    ensures AfterPages(t, pages).Some?
    ensures Key(pages[i].cycle, name, OnPrem) in AfterPages(t, pages).value <==>
            name != "" && Has(pages[i].servers, name)
  {
    var init, last := pages[..|pages| - 1], pages[|pages| - 1];
    assert last in pages;
    if i < |init| {
      RunEqualsPage(t, init, i, name);
      CycleEqualsPage(AfterPages(t, init).value, last.cycle, last.servers, name);
      CycleExactly(AfterPages(t, init).value, last.cycle, last.servers, Key(pages[i].cycle, name, OnPrem));
    } else {
      if init != [] {
        RunEqualsPage(t, init, 0, name);
      }
      CycleEqualsPage(AfterPages(t, init).value, last.cycle, last.servers, name);
    }
  }

  /** One server whose own statements abort the transaction undoes the whole run. */
  lemma {:induction false} OneAbortUndoesAll(t: Table, pages: seq<Page>, dryRun: bool)
    ensures AfterPages(t, pages) == None <==> exists i :: 0 <= i < |pages| && AbortsRun(pages[i].servers)
    ensures (exists i :: 0 <= i < |pages| && AbortsRun(pages[i].servers)) || dryRun ==> AfterRun(t, pages, dryRun) == t
  {
    if pages != [] {
      var init := pages[..|pages| - 1];
      OneAbortUndoesAll(t, init, dryRun);
      if i: nat :| i < |pages| && AbortsRun(pages[i].servers) {
        if i < |init| {
          assert AbortsRun(init[i].servers);
        }
      }
      if i: nat :| i < |init| && AbortsRun(init[i].servers) {
        assert AbortsRun(pages[i].servers);
      }
    }
  }
}
