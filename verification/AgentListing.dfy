/** Merging what was found into the list of rows, one piece at a time. */
module AgentListing {
  import opened Options
  import opened Sorting
  import opened Discovery

  // ---------------------------------------------------------------- evidence

  ghost function Settled(shown: iset<Evidence>): iset<Evidence> {
    if shown <= iset{PossibleLeftover} then shown else shown - iset{PossibleLeftover}
  }

  ghost function Items(evidence: seq<Evidence>): iset<Evidence> {
    iset item | item in evidence
  }

  ghost predicate EvidenceIs(row: AgentStatus, shown: iset<Evidence>) {
    && IsSorted(row.evidence, ByOrder())
    && (forall item :: item in row.evidence <==> item in Settled(shown))
    && row.installed == (ExecutableOnPath in row.evidence)
  }

  predicate HasOther(evidence: seq<Evidence>) {
    exists i :: 0 <= i < |evidence| && evidence[i] != PossibleLeftover
  }

  function WithoutLeftover(evidence: seq<Evidence>): (r: seq<Evidence>)
    ensures forall item :: item in r <==> item in evidence && item != PossibleLeftover
  {
    if evidence == [] then []
    else
      assert evidence == [evidence[0]] + evidence[1..];
      (if evidence[0] != PossibleLeftover then [evidence[0]] else []) + WithoutLeftover(evidence[1..])
  }

  lemma {:induction false} WithoutLeftoverOnce(evidence: seq<Evidence>)
    requires NoRepeats(evidence)
    ensures NoRepeats(WithoutLeftover(evidence))
  {
    if evidence != [] {
      WithoutLeftoverOnce(evidence[1..]);
      assert evidence == [evidence[0]] + evidence[1..];
      assert evidence[0] !in evidence[1..];
    }
  }

  lemma SortedEvidence(evidence: seq<Evidence>)
    requires NoRepeats(evidence)
    ensures IsSorted(Sort(evidence, ByOrder()), ByOrder())
  {
    OrderIsStrict();
    SortSorts(evidence, ByOrder());
  }

  lemma LeftoverIgnored(row: AgentStatus, shown: iset<Evidence>)
    requires EvidenceIs(row, shown) && HasOther(row.evidence)
    ensures Settled(shown + iset{PossibleLeftover}) == Settled(shown)
  {
    var i :| 0 <= i < |row.evidence| && row.evidence[i] != PossibleLeftover;
    assert row.evidence[i] in Settled(shown);
    assert row.evidence[i] in shown && row.evidence[i] in shown + iset{PossibleLeftover};
  }

  lemma OthersSettle(shown: iset<Evidence>)
    ensures forall x :: x in shown && x != PossibleLeftover ==> x in Settled(shown)
  {
  }

  lemma AddedTo(row: AgentStatus, item: Evidence, shown: iset<Evidence>)
    requires EvidenceIs(row, shown) && (item == PossibleLeftover ==> !HasOther(row.evidence))
    ensures forall other :: other in Settled(shown + iset{item}) <==>
              (other in row.evidence || other == item) && (item != PossibleLeftover ==> other != PossibleLeftover)
  {
    if item == PossibleLeftover {
      forall other | other in row.evidence
        ensures other == PossibleLeftover
      {
        var i :| 0 <= i < |row.evidence| && row.evidence[i] == other;
      }
      assert forall x :: x in Settled(shown) ==> x == PossibleLeftover;
      OthersSettle(shown);
    } else {
      assert item in shown + iset{item} && !(shown + iset{item} <= iset{PossibleLeftover});
    }
  }

  /** Adds one item: a leftover only while there is nothing else, and anything
      else in place of a leftover. */
  method AddEvidence(row: AgentStatus, item: Evidence, ghost shown: iset<Evidence>) returns (after: AgentStatus)
    requires EvidenceIs(row, shown)
    ensures after == row.(evidence := after.evidence, installed := after.installed)
    ensures EvidenceIs(after, shown + iset{item})
  {
    if item == PossibleLeftover && HasOther(row.evidence) {
      LeftoverIgnored(row, shown);
      return row;
    }
    AddedTo(row, item, shown);
    var evidence := row.evidence;
    if item !in evidence {
      evidence := evidence + [item];
    }
    OrderIsStrict();
    assert NoRepeats(evidence);
    if item != PossibleLeftover {
      WithoutLeftoverOnce(evidence);
      evidence := WithoutLeftover(evidence);
    }
    SortedEvidence(evidence);
    evidence := Sort(evidence, ByOrder());
    after := row.(evidence := evidence, installed := ExecutableOnPath in evidence);
  }

  method AddAll(row: AgentStatus, items: seq<Evidence>, ghost shown: iset<Evidence>) returns (after: AgentStatus)
    requires EvidenceIs(row, shown)
    ensures after == row.(evidence := after.evidence, installed := after.installed)
    ensures EvidenceIs(after, shown + Items(items))
  {
    after := row;
    ghost var now := shown;
    assert shown + Items(items[..0]) == shown;
    for i := 0 to |items|
      invariant after == row.(evidence := after.evidence, installed := after.installed)
      invariant now == shown + Items(items[..i]) && EvidenceIs(after, now)
    {
      after := AddEvidence(after, items[i], now);
      assert items[..i + 1] == items[..i] + [items[i]];
      now := now + iset{items[i]};
    }
    assert items[..|items|] == items;
  }

  // ------------------------------------------------------------ a wider world

  ghost function ShownIn(table: seq<Known>, world: World, name: string): iset<Evidence> {
    iset item | Shows(table, world, name, item)
  }

  lemma EvidentIs(table: seq<Known>, world: World, row: AgentStatus)
    ensures Evident(table, world, row) <==> EvidenceIs(row, ShownIn(table, world, row.name))
  {
    var shown := ShownIn(table, world, row.name);
    if shown <= iset{PossibleLeftover} {
      forall other | Shows(table, world, row.name, other)
        ensures other == PossibleLeftover
      {
        assert other in shown;
      }
    }
    if forall other :: Shows(table, world, row.name, other) ==> other == PossibleLeftover {
      assert shown <= iset{PossibleLeftover};
    }
    forall item
      ensures item in Settled(shown) <==> Counts(table, world, row.name, item)
    {
    }
  }

  /** What one more piece adds, and to which row. */
  ghost predicate Adds(table: seq<Known>, before: World, after: World, name: string, pids: set<nat>,
                       items: iset<Evidence>) {
    && (forall n :: Pids(table, after, n) == Pids(table, before, n) + (if n == name then pids else {}))
    && (forall n, item :: Shows(table, after, n, item) <==>
        Shows(table, before, n, item) || (n == name && item in items))
    && (forall n :: Appears(table, after, n) <==> Appears(table, before, n) || n == name)
  }

  ghost function WithProcess(world: World, process: Running): World {
    world.(running := world.running + {process})
  }

  ghost function WithFound(world: World, found: Found): World {
    world.(found := world.found + {found})
  }

  lemma ProcessRuns(table: seq<Known>, world: World, process: Running, n: string)
    ensures Runs(table, WithProcess(world, process), n) <==> Runs(table, world, n) || n == RowName(table, process.name)
  {
    var after := WithProcess(world, process);
    if Runs(table, world, n) {
      var r :| r in world.running && RowName(table, r.name) == n;
      assert r in after.running;
    }
    if n == RowName(table, process.name) {
      assert process in after.running;
    }
  }

  lemma ProcessAdds(table: seq<Known>, world: World, process: Running)
    ensures Adds(table, world, WithProcess(world, process), RowName(table, process.name), {process.pid}, iset{Process})
  {
    var after := WithProcess(world, process);
    var name := RowName(table, process.name);
    forall n
      ensures Runs(table, after, n) <==> Runs(table, world, n) || n == name
      ensures Pids(table, after, n) == Pids(table, world, n) + (if n == name then {process.pid} else {})
    {
      ProcessRuns(table, world, process, n);
    }
  }

  lemma FoundAdds(table: seq<Known>, world: World, found: Found)
    ensures Adds(table, world, WithFound(world, found), found.known.name, {}, Items(found.evidence))
  {
    var after := WithFound(world, found);
    var name := found.known.name;
    forall n
      ensures Runs(table, after, n) <==> Runs(table, world, n)
      ensures Pids(table, after, n) == Pids(table, world, n) + (if n == name then {} else {})
      ensures Appears(table, after, n) <==> Appears(table, world, n) || n == name
    {
      if n == name { assert found in after.found; }
    }
    forall n, item
      ensures Shows(table, after, n, item) <==> Shows(table, world, n, item) || (n == name && item in found.evidence)
    {
      if n == name && item in found.evidence { assert found in after.found; }
    }
  }

  lemma NothingYet(table: seq<Known>, world: World, name: string)
    requires !Appears(table, world, name)
    ensures Pids(table, world, name) == {} && ShownIn(table, world, name) == iset{}
  {
  }

  /** Rows of other names are as good in the wider world. */
  lemma OtherRow(table: seq<Known>, before: World, after: World, name: string, pids: set<nat>, items: iset<Evidence>,
                 row: AgentStatus, guarded: string -> bool)
    requires Adds(table, before, after, name, pids, items) && Merged(table, before, row, guarded) && row.name != name
    ensures Merged(table, after, row, guarded)
  {
    assert Pids(table, after, row.name) == Pids(table, before, row.name);
    assert forall item :: Shows(table, after, row.name, item) <==> Shows(table, before, row.name, item);
  }

  lemma ThisRow(table: seq<Known>, before: World, after: World, pids: set<nat>, items: iset<Evidence>,
                row: AgentStatus, guarded: string -> bool)
    requires Adds(table, before, after, row.name, pids, items)
    requires NoRepeats(row.pids) && (forall pid :: pid in row.pids <==> pid in Pids(table, before, row.name) + pids)
    requires EvidenceIs(row, ShownIn(table, before, row.name) + items)
    requires Described(table, row, guarded)
    ensures Merged(table, after, row, guarded)
  {
    assert ShownIn(table, after, row.name) == ShownIn(table, before, row.name) + items;
    EvidentIs(table, after, row);
  }

  lemma Replaced(table: seq<Known>, before: World, after: World, pids: set<nat>, items: iset<Evidence>,
                 rows: seq<AgentStatus>, i: nat, row: AgentStatus, guarded: string -> bool)
    requires i < |rows| && rows[i].name == row.name && AllMerged(table, before, rows, guarded)
    requires Adds(table, before, after, row.name, pids, items) && Merged(table, after, row, guarded)
    ensures AllMerged(table, after, rows[i := row], guarded)
  {
    var now := rows[i := row];
    forall j | 0 <= j < |now|
      ensures now[j].name == rows[j].name && Merged(table, after, now[j], guarded)
    {
      if j != i {
        OtherRow(table, before, after, row.name, pids, items, rows[j], guarded);
      }
    }
    forall name
      ensures (exists j :: 0 <= j < |now| && now[j].name == name) <==> Appears(table, after, name)
    {
      SameNames(rows, now, name);
      assert Appears(table, before, row.name);
    }
  }

  lemma SameNames(a: seq<AgentStatus>, b: seq<AgentStatus>, name: string)
    requires |a| == |b| && forall j :: 0 <= j < |a| ==> a[j].name == b[j].name
    ensures (exists j :: 0 <= j < |a| && a[j].name == name) <==> (exists j :: 0 <= j < |b| && b[j].name == name)
  {
    if exists j :: 0 <= j < |a| && a[j].name == name {
      var j :| 0 <= j < |a| && a[j].name == name;
      assert b[j].name == name;
    }
    if exists j :: 0 <= j < |b| && b[j].name == name {
      var j :| 0 <= j < |b| && b[j].name == name;
      assert a[j].name == name;
    }
  }

  lemma Pushed(table: seq<Known>, before: World, after: World, pids: set<nat>, items: iset<Evidence>,
               rows: seq<AgentStatus>, row: AgentStatus, guarded: string -> bool)
    requires AllMerged(table, before, rows, guarded) && !Appears(table, before, row.name)
    requires Adds(table, before, after, row.name, pids, items) && Merged(table, after, row, guarded)
    ensures AllMerged(table, after, rows + [row], guarded)
  {
    var now := rows + [row];
    assert forall j :: 0 <= j < |rows| ==> rows[j].name != row.name;
    forall j | 0 <= j < |now|
      ensures Merged(table, after, now[j], guarded)
    {
      if j < |rows| {
        OtherRow(table, before, after, row.name, pids, items, rows[j], guarded);
      }
    }
    forall name
      ensures (exists j :: 0 <= j < |now| && now[j].name == name) <==> Appears(table, after, name)
    {
      if Appears(table, after, name) {
        if name == row.name {
          assert now[|rows|].name == name;
        } else {
          var j :| 0 <= j < |rows| && rows[j].name == name;
          assert now[j].name == name;
        }
      }
    }
  }

  // ------------------------------------------------------------------- the list

  method FindRow(rows: seq<AgentStatus>, name: string) returns (at: Option<nat>)
    ensures at.Some? ==> at.value < |rows| && rows[at.value].name == name
    ensures at.None? ==> forall i :: 0 <= i < |rows| ==> rows[i].name != name
  {
    for i := 0 to |rows|
      invariant forall j :: 0 <= j < i ==> rows[j].name != name
    {
      if rows[i].name == name {
        return Some(i);
      }
    }
    at := None;
  }

  function PidSet(pid: Option<nat>): set<nat> {
    match pid
    case None => {}
    case Some(p) => {p}
  }

  function PidSeq(pid: Option<nat>): seq<nat> {
    match pid
    case None => []
    case Some(p) => [p]
  }

  class Listing {
    var rows: seq<AgentStatus>

    constructor ()
      ensures rows == []
    {
      rows := [];
    }

    /** Adds a pid and evidence to the row already there. */
    method Extend(i: nat, pid: Option<nat>, evidence: seq<Evidence>, table: seq<Known>, guarded: string -> bool,
                  ghost before: World, ghost after: World)
      requires i < |rows| && AllMerged(table, before, rows, guarded)
      requires Adds(table, before, after, rows[i].name, PidSet(pid), Items(evidence))
      modifies this
      ensures AllMerged(table, after, rows, guarded)
    {
      var row := rows[i];
      if pid.Some? && pid.value !in row.pids {
        row := row.(pids := row.pids + [pid.value]);
      }
      EvidentIs(table, before, rows[i]);
      row := AddAll(row, evidence, ShownIn(table, before, row.name));
      ThisRow(table, before, after, PidSet(pid), Items(evidence), row, guarded);
      Replaced(table, before, after, PidSet(pid), Items(evidence), rows, i, row, guarded);
      rows := rows[i := row];
    }

    /** Adds a row for a name not seen yet. */
    method Push(blank: AgentStatus, evidence: seq<Evidence>, table: seq<Known>, guarded: string -> bool,
                pid: Option<nat>, ghost before: World, ghost after: World)
      requires AllMerged(table, before, rows, guarded) && forall i :: 0 <= i < |rows| ==> rows[i].name != blank.name
      requires blank.pids == PidSeq(pid) && blank.evidence == [] && !blank.installed && Described(table, blank, guarded)
      requires Adds(table, before, after, blank.name, PidSet(pid), Items(evidence))
      modifies this
      ensures AllMerged(table, after, rows, guarded)
    {
      assert !Appears(table, before, blank.name);
      NothingYet(table, before, blank.name);
      var row := AddAll(blank, evidence, iset{});
      ThisRow(table, before, after, PidSet(pid), Items(evidence), row, guarded);
      Pushed(table, before, after, PidSet(pid), Items(evidence), rows, row, guarded);
      rows := rows + [row];
    }

    method UpsertKnown(known: Known, pid: Option<nat>, evidence: seq<Evidence>, isGuarded: bool,
                       table: seq<Known>, guarded: string -> bool, ghost before: World, ghost after: World)
      requires DistinctNames(table) && known in table && isGuarded == guarded(known.name)
      requires AllMerged(table, before, rows, guarded)
      requires Adds(table, before, after, known.name, PidSet(pid), Items(evidence))
      modifies this
      ensures AllMerged(table, after, rows, guarded)
    {
      var at := FindRow(rows, known.name);
      if at.Some? {
        Extend(at.value, pid, evidence, table, guarded, before, after);
      } else {
        NamedIsKnown(table, known);
        var blank := AgentStatus(known.name, PidSeq(pid), false, [], known.hookable, known.mcpJson, known.mcpToml,
                                 isGuarded, None);
        Push(blank, evidence, table, guarded, pid, before, after);
      }
    }

    method UpsertUnknown(name: string, pid: nat, table: seq<Known>, guarded: string -> bool,
                         ghost before: World, ghost after: World)
      requires Canonical(table, name).None? && AllMerged(table, before, rows, guarded)
      requires Adds(table, before, after, name, {pid}, iset{Process})
      modifies this
      ensures AllMerged(table, after, rows, guarded)
    {
      assert Items([Process]) == iset{Process};
      var at := FindRow(rows, name);
      if at.Some? {
        Extend(at.value, Some(pid), [Process], table, guarded, before, after);
      } else {
        UnknownName(table, name);
        var blank := AgentStatus(name, [pid], false, [], false, None, None, false, None);
        Push(blank, [Process], table, guarded, Some(pid), before, after);
      }
    }
  }

  method SortRows(merged: seq<AgentStatus>, table: seq<Known>, guarded: string -> bool, ghost world: World)
    returns (rows: seq<AgentStatus>)
    requires AllMerged(table, world, merged, guarded)
    ensures Summarizes(table, world, rows, guarded)
  {
    rows := merged;
    for i := 0 to |rows|
      invariant |rows| == |merged|
      invariant forall j :: i <= j < |rows| ==> rows[j] == merged[j]
      invariant forall j :: 0 <= j < i ==> rows[j] == merged[j].(pids := Sort(merged[j].pids, ByNumber()))
    {
      rows := rows[i := rows[i].(pids := Sort(rows[i].pids, ByNumber()))];
    }
    PidsSorted(merged, rows, table, guarded, world);
    NamesComparable(rows);
    NamesAreStrict();
    SortSorts(rows, ByName());
    ghost var unsorted := rows;
    rows := Sort(rows, ByName());
    SortedRows(unsorted, rows, table, guarded, world);
  }

  lemma PidsOf(row: AgentStatus, table: seq<Known>, guarded: string -> bool, world: World)
    requires Merged(table, world, row, guarded)
    ensures var after := row.(pids := Sort(row.pids, ByNumber()));
            Merged(table, world, after, guarded) && IsSorted(after.pids, ByNumber())
  {
    OrderIsStrict();
    SortSorts(row.pids, ByNumber());
  }

  lemma PidsSorted(merged: seq<AgentStatus>, rows: seq<AgentStatus>, table: seq<Known>, guarded: string -> bool,
                   world: World)
    requires AllMerged(table, world, merged, guarded) && |rows| == |merged|
    requires forall j :: 0 <= j < |rows| ==> rows[j] == merged[j].(pids := Sort(merged[j].pids, ByNumber()))
    ensures AllMerged(table, world, rows, guarded)
    ensures forall j :: 0 <= j < |rows| ==> IsSorted(rows[j].pids, ByNumber())
  {
    forall j | 0 <= j < |rows|
      ensures Merged(table, world, rows[j], guarded) && IsSorted(rows[j].pids, ByNumber())
    {
      PidsOf(merged[j], table, guarded, world);
    }
    forall name
      ensures (exists j :: 0 <= j < |rows| && rows[j].name == name) <==> Appears(table, world, name)
    {
      SameNames(merged, rows, name);
    }
  }

  lemma NamesComparable(rows: seq<AgentStatus>)
    requires OneRowEach(rows)
    ensures Comparable(rows, ByName())
  {
    forall i, j | 0 <= i < j < |rows|
      ensures ByName()(rows[i], rows[j]) || ByName()(rows[j], rows[i])
    {
      BeforeOne(rows[i].name, rows[j].name);
    }
  }

  lemma SortedRows(unsorted: seq<AgentStatus>, rows: seq<AgentStatus>, table: seq<Known>, guarded: string -> bool,
                   world: World)
    requires AllMerged(table, world, unsorted, guarded)
    requires forall j :: 0 <= j < |unsorted| ==> IsSorted(unsorted[j].pids, ByNumber())
    requires IsSorted(rows, ByName()) && forall row :: row in rows <==> row in unsorted
    ensures Summarizes(table, world, rows, guarded)
  {
    forall i | 0 <= i < |rows|
      ensures Merged(table, world, rows[i], guarded) && IsSorted(rows[i].pids, ByNumber())
    {
      assert rows[i] in unsorted;
      var j :| 0 <= j < |unsorted| && unsorted[j] == rows[i];
    }
    forall i, j | 0 <= i < j < |rows|
      ensures rows[i].name != rows[j].name
    {
      assert ByName()(rows[i], rows[j]);
      BeforeOne(rows[i].name, rows[j].name);
    }
    forall name
      ensures (exists j :: 0 <= j < |rows| && rows[j].name == name) <==> Appears(table, world, name)
    {
      NamedIn(unsorted, rows, name);
    }
  }

  lemma NamedIn(a: seq<AgentStatus>, b: seq<AgentStatus>, name: string)
    requires forall row :: row in a <==> row in b
    ensures (exists j :: 0 <= j < |a| && a[j].name == name) <==> (exists j :: 0 <= j < |b| && b[j].name == name)
  {
    if exists j :: 0 <= j < |a| && a[j].name == name {
      var j :| 0 <= j < |a| && a[j].name == name;
      assert a[j] in b;
    }
    if exists j :: 0 <= j < |b| && b[j].name == name {
      var j :| 0 <= j < |b| && b[j].name == name;
      assert b[j] in a;
    }
  }

  ghost function WorldOf(running: seq<Running>, found: seq<Found>): World {
    World(set r | r in running, set f | f in found)
  }

  lemma NextProcess(running: seq<Running>, i: nat)
    requires i < |running|
    ensures WorldOf(running[..i + 1], []) == WithProcess(WorldOf(running[..i], []), running[i])
  {
    assert running[..i + 1] == running[..i] + [running[i]];
  }

  lemma NextFound(running: seq<Running>, found: seq<Found>, i: nat)
    requires i < |found|
    ensures WorldOf(running, found[..i + 1]) == WithFound(WorldOf(running, found[..i]), found[i])
  {
    assert found[..i + 1] == found[..i] + [found[i]];
  }

  /** One row for each agent, from the processes and from what was found. */
  method SummarizeDiscovered(table: seq<Known>, running: seq<Running>, found: seq<Found>, guarded: string -> bool)
    returns (rows: seq<AgentStatus>)
    requires DistinctNames(table) && forall f :: f in found ==> f.known in table
    ensures Summarizes(table, WorldOf(running, found), rows, guarded)
  {
    var listing := new Listing();
    for i := 0 to |running|
      invariant AllMerged(table, WorldOf(running[..i], []), listing.rows, guarded)
    {
      ghost var before, after := WorldOf(running[..i], []), WorldOf(running[..i + 1], []);
      NextProcess(running, i);
      ProcessAdds(table, before, running[i]);
      var known := Canonical(table, running[i].name);
      if known.Some? {
        assert Items([Process]) == iset{Process};
        listing.UpsertKnown(known.value, Some(running[i].pid), [Process], guarded(known.value.name), table, guarded,
                            before, after);
      } else {
        listing.UpsertUnknown(running[i].name, running[i].pid, table, guarded, before, after);
      }
    }
    assert running[..|running|] == running && found[..0] == [];
    for i := 0 to |found|
      invariant AllMerged(table, WorldOf(running, found[..i]), listing.rows, guarded)
    {
      ghost var before, after := WorldOf(running, found[..i]), WorldOf(running, found[..i + 1]);
      NextFound(running, found, i);
      FoundAdds(table, before, found[i]);
      listing.UpsertKnown(found[i].known, None, found[i].evidence, guarded(found[i].known.name), table, guarded,
                          before, after);
    }
    assert found[..|found|] == found;
    rows := SortRows(listing.rows, table, guarded, WorldOf(running, found));
  }

  /** Two lists of rows from the same findings in any order are the same list. */
  lemma OrderDoesNotShow(table: seq<Known>, running: seq<Running>, found: seq<Found>, running': seq<Running>,
                         found': seq<Found>,
                         rows: seq<AgentStatus>, rows': seq<AgentStatus>, guarded: string -> bool)
    requires multiset(running) == multiset(running') && multiset(found) == multiset(found')
    requires Summarizes(table, WorldOf(running, found), rows, guarded)
    requires Summarizes(table, WorldOf(running', found'), rows', guarded)
    ensures rows == rows'
  {
    assert forall r :: r in running <==> r in multiset(running);
    assert forall r :: r in running' <==> r in multiset(running');
    assert forall f :: f in found <==> f in multiset(found);
    assert forall f :: f in found' <==> f in multiset(found');
    assert WorldOf(running, found) == WorldOf(running', found');
    OneSummary(table, WorldOf(running, found), rows, rows', guarded);
  }
}
