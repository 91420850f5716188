/** Discovering agents: one row for each, from the processes running and from
    what is found on disk. */
module Discovery {
  import opened Options
  import opened Text
  import opened Sorting

  datatype Known = Known(
    name: string,
    aliases: seq<string>,
    hookable: bool,
    mcpJson: Option<string>,
    mcpToml: Option<string>)

  datatype Evidence = ExecutableOnPath | Process | ConfigurationFile | CompatibleMcpConfiguration | PossibleLeftover

  datatype GuardMode = Monitor | Enforce | Mixed

  datatype AgentStatus = AgentStatus(
    name: string,
    pids: seq<nat>,
    installed: bool,
    evidence: seq<Evidence>,
    hookable: bool,
    mcpJson: Option<string>,
    mcpToml: Option<string>,
    guarded: bool,
    mode: Option<GuardMode>)

  datatype Running = Running(name: string, pid: nat)

  datatype Found = Found(known: Known, evidence: seq<Evidence>)

  // ---------------------------------------------------------------- names

  predicate IsSeparator(c: char) {
    c == ' ' || c == '_' || c == '-'
  }

  function Hyphenated(parts: seq<string>): string {
    if parts == [] then ""
    else if parts[0] == "" then Hyphenated(parts[1..])
    else
      var rest := Hyphenated(parts[1..]);
      if rest == "" then parts[0] else parts[0] + "-" + rest
  }

  function Normalized(name: string): string {
    Hyphenated(SplitAt(AsciiLower(Trim(name)), IsSeparator))
  }

  predicate Answers(known: Known, detected: string) {
    || detected == Normalized(known.name)
    || exists i :: 0 <= i < |known.aliases| && detected == Normalized(known.aliases[i])
  }

  /** The agent a detected name belongs to, if it is one this build knows. */
  function Canonical(table: seq<Known>, name: string): (r: Option<Known>)
    ensures r.Some? ==> r.value in table && Answers(r.value, Normalized(name))
    ensures r.None? ==> forall k :: k in table ==> !Answers(k, Normalized(name))
  {
    if table == [] then None
    else
      assert table == [table[0]] + table[1..];
      if Answers(table[0], Normalized(name)) then Some(table[0]) else Canonical(table[1..], name)
  }

  ghost predicate DistinctNames(table: seq<Known>) {
    forall i, j :: 0 <= i < j < |table| ==> table[i].name != table[j].name
  }

  function KnownNamed(table: seq<Known>, name: string): (r: Option<Known>)
    ensures r.Some? ==> r.value in table && r.value.name == name
    ensures r.None? ==> forall k :: k in table ==> k.name != name
  {
    if table == [] then None
    else
      assert table == [table[0]] + table[1..];
      if table[0].name == name then Some(table[0]) else KnownNamed(table[1..], name)
  }

  lemma NamedIsKnown(table: seq<Known>, known: Known)
    requires DistinctNames(table) && known in table
    ensures KnownNamed(table, known.name) == Some(known)
  {
  }

  /** The name of the row a process belongs to. */
  function RowName(table: seq<Known>, name: string): string {
    match Canonical(table, name)
    case Some(known) => known.name
    case None => name
  }

  /** A name no agent answers to is no agent's name. */
  lemma UnknownName(table: seq<Known>, name: string)
    requires Canonical(table, name).None?
    ensures KnownNamed(table, name).None?
  {
    if KnownNamed(table, name).Some? {
      assert Answers(KnownNamed(table, name).value, Normalized(name));
    }
  }

  // ------------------------------------------------------------ what rows say

  /** What is known of the world, as sets: order and repetition do not count. */
  datatype World = World(running: set<Running>, found: set<Found>)

  ghost function Pids(table: seq<Known>, world: World, name: string): set<nat> {
    set r | r in world.running && RowName(table, r.name) == name :: r.pid
  }

  ghost predicate Runs(table: seq<Known>, world: World, name: string) {
    exists r :: r in world.running && RowName(table, r.name) == name
  }

  ghost predicate Shows(table: seq<Known>, world: World, name: string, item: Evidence) {
    || (item == Process && Runs(table, world, name))
    || exists f :: f in world.found && f.known.name == name && item in f.evidence
  }

  ghost predicate Appears(table: seq<Known>, world: World, name: string) {
    Runs(table, world, name) || exists f :: f in world.found && f.known.name == name
  }

  /** A leftover counts only while nothing else is known. */
  ghost predicate Counts(table: seq<Known>, world: World, name: string, item: Evidence) {
    && Shows(table, world, name, item)
    && (item == PossibleLeftover ==> forall other :: Shows(table, world, name, other) ==> other == PossibleLeftover)
  }

  function Order(item: Evidence): nat {
    match item
    case ExecutableOnPath => 0
    case Process => 1
    case ConfigurationFile => 2
    case CompatibleMcpConfiguration => 3
    case PossibleLeftover => 4
  }

  function ByOrder(): (Evidence, Evidence) -> bool {
    (a, b) => Order(a) < Order(b)
  }

  function ByNumber(): (nat, nat) -> bool {
    (a, b) => a < b
  }

  /** Strings in order of their characters' code points. */
  predicate Before(a: string, b: string) {
    b != "" && (a == "" || a[0] < b[0] || (a[0] == b[0] && Before(a[1..], b[1..])))
  }

  function ByName(): (AgentStatus, AgentStatus) -> bool {
    (a: AgentStatus, b: AgentStatus) => Before(a.name, b.name)
  }

  ghost predicate NoRepeats<T>(s: seq<T>) {
    forall i, j :: 0 <= i < j < |s| ==> s[i] != s[j]
  }

  /** What a row takes from the table and not from the world. */
  predicate Described(table: seq<Known>, row: AgentStatus, guarded: string -> bool) {
    && row.mode.None?
    && match KnownNamed(table, row.name)
       case None => !row.hookable && row.mcpJson.None? && row.mcpToml.None? && !row.guarded
       case Some(k) =>
         && row.hookable == k.hookable && row.mcpJson == k.mcpJson && row.mcpToml == k.mcpToml
         && row.guarded == guarded(row.name)
  }

  ghost predicate Evident(table: seq<Known>, world: World, row: AgentStatus) {
    && IsSorted(row.evidence, ByOrder())
    && (forall item :: item in row.evidence <==> Counts(table, world, row.name, item))
    && row.installed == (ExecutableOnPath in row.evidence)
  }

  /** A row while rows are still being merged. */
  ghost predicate Merged(table: seq<Known>, world: World, row: AgentStatus, guarded: string -> bool) {
    && NoRepeats(row.pids)
    && (forall pid :: pid in row.pids <==> pid in Pids(table, world, row.name))
    && Evident(table, world, row)
    && Described(table, row, guarded)
  }

  ghost predicate OneRowEach(rows: seq<AgentStatus>) {
    forall i, j :: 0 <= i < j < |rows| ==> rows[i].name != rows[j].name
  }

  ghost predicate AllMerged(table: seq<Known>, world: World, rows: seq<AgentStatus>, guarded: string -> bool) {
    && OneRowEach(rows)
    && (forall name :: (exists i :: 0 <= i < |rows| && rows[i].name == name) <==> Appears(table, world, name))
    && (forall i :: 0 <= i < |rows| ==> Merged(table, world, rows[i], guarded))
  }

  /** The rows for a world: one for each agent, in order of name, each with its
      pids and its evidence in order. */
  ghost predicate Summarizes(table: seq<Known>, world: World, rows: seq<AgentStatus>, guarded: string -> bool) {
    && AllMerged(table, world, rows, guarded)
    && IsSorted(rows, ByName())
    && forall i :: 0 <= i < |rows| ==> IsSorted(rows[i].pids, ByNumber())
  }

  // ------------------------------------------------------------------ orders

  lemma OrderIsStrict()
    ensures IsStrict(ByOrder()) && IsStrict(ByNumber())
  {
  }

  lemma {:induction false} BeforeOne(a: string, b: string)
    ensures Before(a, b) ==> !Before(b, a)
    ensures a != b ==> Before(a, b) || Before(b, a)
    decreases |a|
  {
    if a != "" && b != "" && a[0] == b[0] {
      BeforeOne(a[1..], b[1..]);
      assert a == [a[0]] + a[1..] && b == [b[0]] + b[1..];
    }
  }

  lemma {:induction false} BeforeTwo(a: string, b: string, c: string)
    requires Before(a, b) && Before(b, c)
    ensures Before(a, c)
    decreases |a|
  {
    if a != "" && a[0] == b[0] && b[0] == c[0] {
      BeforeTwo(a[1..], b[1..], c[1..]);
    }
  }

  lemma NamesAreStrict()
    ensures IsStrict(ByName())
  {
    forall a: AgentStatus, b: AgentStatus | ByName()(a, b)
      ensures !ByName()(b, a)
    {
      BeforeOne(a.name, b.name);
    }
    forall a: AgentStatus, b: AgentStatus, c: AgentStatus | ByName()(a, b) && ByName()(b, c)
      ensures ByName()(a, c)
    {
      BeforeTwo(a.name, b.name, c.name);
    }
  }

  // ---------------------------------------------------------- the same rows

  lemma SameRow(table: seq<Known>, world: World, a: AgentStatus, b: AgentStatus, guarded: string -> bool)
    requires Merged(table, world, a, guarded) && Merged(table, world, b, guarded) && a.name == b.name
    requires IsSorted(a.pids, ByNumber()) && IsSorted(b.pids, ByNumber())
    ensures a == b
  {
    OrderIsStrict();
    SortedOnce(a.pids, b.pids, ByNumber());
    SortedOnce(a.evidence, b.evidence, ByOrder());
  }

  lemma RowIn(table: seq<Known>, world: World, a: seq<AgentStatus>, b: seq<AgentStatus>, guarded: string -> bool,
              row: AgentStatus)
    requires Summarizes(table, world, a, guarded) && Summarizes(table, world, b, guarded) && row in a
    ensures row in b
  {
    var i :| 0 <= i < |a| && a[i] == row;
    assert Appears(table, world, row.name);
    var j :| 0 <= j < |b| && b[j].name == row.name;
    SameRow(table, world, a[i], b[j], guarded);
  }

  /** There is one list of rows for a world, so neither the order nor the
      repetition of what was found shows in it. */
  lemma OneSummary(table: seq<Known>, world: World, a: seq<AgentStatus>, b: seq<AgentStatus>, guarded: string -> bool)
    requires Summarizes(table, world, a, guarded) && Summarizes(table, world, b, guarded)
    ensures a == b
  {
    NamesAreStrict();
    forall row
      ensures row in a <==> row in b
    {
      if row in a { RowIn(table, world, a, b, guarded, row); }
      if row in b { RowIn(table, world, b, a, guarded, row); }
    }
    SortedOnce(a, b, ByName());
  }

  /** What the evidence of a row can be. */
  lemma LeftoverAlone(table: seq<Known>, world: World, row: AgentStatus)
    requires Evident(table, world, row)
    ensures NoRepeats(row.evidence)
    ensures PossibleLeftover in row.evidence ==> row.evidence == [PossibleLeftover]
    ensures row.installed <==> Shows(table, world, row.name, ExecutableOnPath)
  {
    OrderIsStrict();
    if PossibleLeftover in row.evidence {
      assert forall item :: item in row.evidence ==> item == PossibleLeftover;
      SortedOnce(row.evidence, [PossibleLeftover], ByOrder());
    }
  }

  // ------------------------------------------------------- the orders, said out

  /** A text that another one goes on from, or the lower character where two
      texts first differ. */
  ghost predicate Precedes(a: string, b: string) {
    || (|a| < |b| && b[..|a|] == a)
    || exists k: nat :: FirstLower(a, b, k)
  }

  predicate FirstLower(a: string, b: string, k: nat) {
    k < |a| && k < |b| && a[..k] == b[..k] && a[k] < b[k]
  }

  lemma {:induction false} BeforePrecedes(a: string, b: string)
    requires Before(a, b)
    ensures Precedes(a, b)
  {
    if a != "" {
      if a[0] < b[0] {
        assert FirstLower(a, b, 0);
      } else {
        BeforePrecedes(a[1..], b[1..]);
        assert a == [a[0]] + a[1..] && b == [b[0]] + b[1..];
        if k: nat :| FirstLower(a[1..], b[1..], k) {
          assert a[..k + 1] == [a[0]] + a[1..][..k] && b[..k + 1] == [b[0]] + b[1..][..k];
          assert FirstLower(a, b, k + 1);
        } else {
          assert b[..|a|] == [b[0]] + b[1..][..|a[1..]|];
        }
      }
    }
  }

  /** The kinds of evidence, in the order rows show them. */
  const AllEvidence: seq<Evidence> :=
    [ExecutableOnPath, Process, ConfigurationFile, CompatibleMcpConfiguration, PossibleLeftover]

  ghost function Those(all: seq<Evidence>, counts: Evidence -> bool): seq<Evidence> {
    if all == [] then [] else (if counts(all[0]) then [all[0]] else []) + Those(all[1..], counts)
  }

  lemma {:induction false} ThoseSorted(all: seq<Evidence>, counts: Evidence -> bool)
    requires IsSorted(all, ByOrder())
    ensures IsSorted(Those(all, counts), ByOrder())
    ensures forall item :: item in Those(all, counts) <==> item in all && counts(item)
  {
    if all != [] {
      assert all == [all[0]] + all[1..];
      ThoseSorted(all[1..], counts);
      var rest := Those(all[1..], counts);
      forall i | 0 <= i < |rest|
        ensures ByOrder()(all[0], rest[i])
      {
        assert rest[i] in rest;
        var j :| 0 <= j < |all[1..]| && all[1..][j] == rest[i];
        assert all[j + 1] == rest[i];
      }
    }
  }

  lemma EvidenceInOrder(evidence: seq<Evidence>)
    requires IsSorted(evidence, ByOrder())
    ensures evidence == Those(AllEvidence, item => item in evidence)
  {
    OrderIsStrict();
    ThoseSorted(AllEvidence, item => item in evidence);
    forall item
      ensures item in evidence <==> item in Those(AllEvidence, item => item in evidence)
    {
      EveryKind(item);
    }
    SortedOnce(evidence, Those(AllEvidence, item => item in evidence), ByOrder());
  }

  lemma EveryKind(item: Evidence)
    ensures item in AllEvidence
  {
    match item
    case ExecutableOnPath => assert AllEvidence[0] == item;
    case Process => assert AllEvidence[1] == item;
    case ConfigurationFile => assert AllEvidence[2] == item;
    case CompatibleMcpConfiguration => assert AllEvidence[3] == item;
    case PossibleLeftover => assert AllEvidence[4] == item;
  }

  /** Rows stand in order of their names, pids ascend, and a row's evidence is
      shown from an executable down to a leftover. */
  lemma RowsInOrder(table: seq<Known>, world: World, rows: seq<AgentStatus>, guarded: string -> bool)
    requires Summarizes(table, world, rows, guarded)
    ensures forall i, j :: 0 <= i < j < |rows| ==> Precedes(rows[i].name, rows[j].name)
    ensures forall row :: row in rows ==>
              && (forall i, j :: 0 <= i < j < |row.pids| ==> row.pids[i] < row.pids[j])
              && row.evidence == Those(AllEvidence, item => item in row.evidence)
  {
    forall i, j | 0 <= i < j < |rows|
      ensures Precedes(rows[i].name, rows[j].name)
    {
      assert ByName()(rows[i], rows[j]);
      BeforePrecedes(rows[i].name, rows[j].name);
    }
    forall row | row in rows
      ensures forall i, j :: 0 <= i < j < |row.pids| ==> row.pids[i] < row.pids[j]
      ensures row.evidence == Those(AllEvidence, item => item in row.evidence)
    {
      var i :| 0 <= i < |rows| && rows[i] == row;
      assert Merged(table, world, row, guarded) && IsSorted(row.pids, ByNumber());
      assert forall i, j :: 0 <= i < j < |row.pids| ==> ByNumber()(row.pids[i], row.pids[j]);
      EvidenceInOrder(row.evidence);
    }
  }
}
