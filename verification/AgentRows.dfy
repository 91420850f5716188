/** The agents this build knows, names for the configurations of agents it does
    not, and the whole list of rows. */
module AgentRows {
  import opened Options
  import opened Text
  import opened Sorting
  import opened Discovery
  import opened AgentListing

  const KnownAgents: seq<Known> := [
    Known("claude-code", ["claude", "claude-code", "claude code"], true, None, None),
    Known("cursor", ["cursor"], false, Some(".cursor/mcp.json"), None),
    Known("codex", ["codex", "codex-cli", "codex cli", "openai-codex"], false, None, Some(".codex/config.toml")),
    Known("gemini", ["gemini", "gemini-cli", "gemini cli"], false, Some(".gemini/settings.json"), None),
    Known("goose", ["goose"], false, None, None),
    Known("aider", ["aider"], false, None, None),
    Known("openclaw", ["openclaw", "moltbot", "clawdbot", "molty"], false, Some(".openclaw/openclaw.json"), None),
    Known("hermes", ["hermes", "hermes-agent", "hermes agent", "hermes-acp"], false, None, None)]

  /** Three of a name's characters: enough to tell the known agents apart. */
  function Mark(name: string): (int, char, char)
    requires |name| >= 2
  {
    (|name|, name[0], name[1])
  }

  lemma KnownAgentsDistinct()
    ensures DistinctNames(KnownAgents)
  {
    forall i, j | 0 <= i < j < |KnownAgents|
      ensures KnownAgents[i].name != KnownAgents[j].name
    {
      assert Mark(KnownAgents[i].name) != Mark(KnownAgents[j].name);
    }
  }

  // ------------------------------------------------------------ generic names

  function Digit(n: nat): char
    requires n < 10
  {
    ('0' as int + n) as char
  }

  function Decimal(n: nat): (s: string)
    ensures s != ""
  {
    if n < 10 then [Digit(n)] else Decimal(n / 10) + [Digit(n % 10)]
  }

  lemma DecimalParts(n: nat)
    ensures var s := Decimal(n);
            s[|s| - 1] == Digit(n % 10) && (if n < 10 then |s| == 1 else |s| > 1 && s[..|s| - 1] == Decimal(n / 10))
  {
  }

  lemma {:induction false} DecimalOnce(m: nat, n: nat)
    requires Decimal(m) == Decimal(n)
    ensures m == n
  {
    DecimalParts(m);
    DecimalParts(n);
    if m >= 10 {
      DecimalOnce(m / 10, n / 10);
    }
  }

  function WithoutDots(s: string): string {
    if s != "" && s[0] == '.' then WithoutDots(s[1..]) else s
  }

  function Hyphens(s: string): string {
    seq(|s|, i requires 0 <= i < |s| => if s[i] == ' ' || s[i] == '_' then '-' else s[i])
  }

  /** The folder a configuration is in, as a name. */
  function BaseName(folder: Option<string>): string {
    var name := Hyphens(AsciiLower(WithoutDots(if folder.Some? then folder.value else "unknown")));
    if name == "" then "unknown" else name
  }

  predicate Available(table: seq<Known>, rows: seq<AgentStatus>, name: string) {
    && (forall i :: 0 <= i < |rows| ==> rows[i].name != name)
    && (forall i :: 0 <= i < |table| ==> table[i].name != name)
  }

  function Numbered(base: string, k: nat): string {
    base + "-mcp-" + Decimal(k)
  }

  lemma NumberedOnce(base: string, j: nat, k: nat)
    requires Numbered(base, j) == Numbered(base, k)
    ensures j == k
  {
    var n := |base + "-mcp-"|;
    assert Numbered(base, j)[n..] == Decimal(j) && Numbered(base, k)[n..] == Decimal(k);
    DecimalOnce(j, k);
  }

  /** The first name in this order that no row and no known agent has: the base,
      the base with `-mcp`, then numbered from 2. */
  ghost predicate FirstFree(table: seq<Known>, rows: seq<AgentStatus>, base: string, name: string) {
    && Available(table, rows, name)
    && (|| name == base
        || (!Available(table, rows, base) &&
              (|| name == base + "-mcp"
               || (!Available(table, rows, base + "-mcp") &&
                     exists k: nat :: FirstNumbered(table, rows, base, k) && name == base + "-mcp-" + Decimal(k)))))
  }

  ghost function Taken(table: seq<Known>, rows: seq<AgentStatus>): set<string> {
    (set row | row in rows :: row.name) + (set k | k in table :: k.name)
  }

  lemma TakenExactly(table: seq<Known>, rows: seq<AgentStatus>, name: string)
    ensures name in Taken(table, rows) <==> !Available(table, rows, name)
  {
    if name in Taken(table, rows) {
      if i :| 0 <= i < |rows| && rows[i].name == name {
      } else {
        var k :| k in table && k.name == name;
        var j :| 0 <= j < |table| && table[j] == k;
      }
    }
  }

  /** The numbered names before this one. */
  ghost function Tried(base: string, k: nat): set<string> {
    if k <= 2 then {} else Tried(base, k - 1) + {Numbered(base, k - 1)}
  }

  lemma {:induction false} NotTried(base: string, k: nat, j: nat)
    requires k <= j
    ensures Numbered(base, j) !in Tried(base, k)
  {
    if k > 2 {
      NotTried(base, k - 1, j);
      if Numbered(base, k - 1) == Numbered(base, j) {
        NumberedOnce(base, k - 1, j);
      }
    }
  }

  lemma FewerLeft(table: seq<Known>, rows: seq<AgentStatus>, base: string, k: nat)
    requires 2 <= k && !Available(table, rows, Numbered(base, k))
    ensures |Taken(table, rows) - Tried(base, k + 1)| < |Taken(table, rows) - Tried(base, k)|
  {
    var taken, name := Taken(table, rows), Numbered(base, k);
    TakenExactly(table, rows, name);
    NotTried(base, k, k);
    assert Tried(base, k + 1) == Tried(base, k) + {name};
    assert taken - Tried(base, k) == (taken - Tried(base, k + 1)) + {name};
  }

  /** The search ends: each name it passes over is another of the finitely many
      taken ones. */
  method GenericName(folder: Option<string>, table: seq<Known>, rows: seq<AgentStatus>) returns (name: string)
    ensures FirstFree(table, rows, BaseName(folder), name)
  {
    var base := BaseName(folder);
    if Available(table, rows, base) {
      return base;
    }
    name := base + "-mcp";
    if Available(table, rows, name) {
      return name;
    }
    name := NumberedName(base, table, rows);
  }

  /** The first numbered name that is free. */
  ghost predicate FirstNumbered(table: seq<Known>, rows: seq<AgentStatus>, base: string, k: nat) {
    && 2 <= k && Available(table, rows, Numbered(base, k))
    && AllTaken(table, rows, base, k)
  }

  ghost predicate AllTaken(table: seq<Known>, rows: seq<AgentStatus>, base: string, k: nat) {
    forall j: nat :: 2 <= j < k ==> !Available(table, rows, Numbered(base, j))
  }

  lemma OneMoreTaken(table: seq<Known>, rows: seq<AgentStatus>, base: string, k: nat)
    requires AllTaken(table, rows, base, k) && !Available(table, rows, Numbered(base, k))
    ensures AllTaken(table, rows, base, k + 1)
  {
  }

  method NumberedName(base: string, table: seq<Known>, rows: seq<AgentStatus>) returns (name: string)
    ensures exists k: nat :: FirstNumbered(table, rows, base, k) && name == Numbered(base, k)
  {
    var suffix: nat := 2;
    name := Numbered(base, suffix);
    while !Available(table, rows, name)
      invariant 2 <= suffix && name == Numbered(base, suffix)
      invariant AllTaken(table, rows, base, suffix)
      decreases |Taken(table, rows) - Tried(base, suffix)|
    {
      FewerLeft(table, rows, base, suffix);
      OneMoreTaken(table, rows, base, suffix);
      suffix := suffix + 1;
      name := Numbered(base, suffix);
    }
    assert FirstNumbered(table, rows, base, suffix);
  }

  // -------------------------------------------------------------- all the rows

  datatype Schema = ProxyWrappable | NestedVisibilityOnly

  /** A configuration found on disk, with what reading it gave. */
  datatype Generic = Generic(rel: string, folder: Option<string>, schema: Option<Schema>, guarded: bool)

  function GenericPath(g: Generic): Option<string> {
    if g.schema == Some(ProxyWrappable) then Some(g.rel) else None
  }

  function GenericRow(g: Generic, name: string): AgentStatus {
    AgentStatus(name, [], false, [CompatibleMcpConfiguration], false, GenericPath(g), None,
                g.schema == Some(ProxyWrappable) && g.guarded, None)
  }

  function WithMode(row: AgentStatus, mode: AgentStatus -> Option<GuardMode>): AgentStatus {
    if row.guarded then row.(mode := mode(row)) else row
  }

  ghost predicate Named(rows: seq<AgentStatus>, name: string) {
    exists i :: 0 <= i < |rows| && rows[i].name == name
  }

  ghost predicate HasPath(rows: seq<AgentStatus>, rel: string) {
    exists i :: 0 <= i < |rows| && rows[i].mcpJson == Some(rel)
  }

  /** The row shows this configuration: guarded only when it can be wrapped and
      is, and with nothing else known of it. */
  predicate Tells(row: AgentStatus, g: Generic) {
    && row.evidence == [CompatibleMcpConfiguration]
    && row.pids == [] && !row.installed && !row.hookable && row.mcpToml.None? && row.mode.None?
    && match g.schema
       case Some(ProxyWrappable) => row.mcpJson == Some(g.rel) && row.guarded == g.guarded
       case _ => row.mcpJson.None? && !row.guarded
  }

  ghost predicate FromGeneric(table: seq<Known>, summary: seq<AgentStatus>, generics: seq<Generic>, row: AgentStatus) {
    && KnownNamed(table, row.name).None? && !Named(summary, row.name)
    && exists g :: g in generics && g.schema.Some? && Tells(row, g) && !HasPath(summary, g.rel)
  }

  /** The configuration is to be seen: its path is a row's, or a row behind the
      summary tells of it. */
  ghost predicate Seen(summary: seq<AgentStatus>, rows: seq<AgentStatus>, g: Generic) {
    HasPath(rows, g.rel) || exists i :: |summary| <= i < |rows| && Tells(rows[i], g)
  }

  /** The rows so far: the summary, and rows of configurations behind it. */
  ghost predicate Over(table: seq<Known>, summary: seq<AgentStatus>, generics: seq<Generic>, rows: seq<AgentStatus>) {
    && OneRowEach(rows)
    && summary <= rows
    && (forall i :: |summary| <= i < |rows| ==> FromGeneric(table, summary, generics, rows[i]))
    && (forall g :: g in generics && g.schema.Some? ==> Seen(summary, rows, g))
  }

  /** The whole list: every row of the summary, a row for each other
      configuration under a name nothing else has, and each row's mode. */
  ghost predicate Complete(table: seq<Known>, summary: seq<AgentStatus>, generics: seq<Generic>,
                           mode: AgentStatus -> Option<GuardMode>, rows: seq<AgentStatus>) {
    && OneRowEach(rows) && IsSorted(rows, ByName())
    && (forall row :: row in summary ==> WithMode(row, mode) in rows)
    && (forall row :: row in rows ==>
          exists plain :: row == WithMode(plain, mode) &&
                 (plain in summary || FromGeneric(table, summary, generics, plain)))
    && (forall g :: g in generics && g.schema.Some? ==> SeenWith(summary, rows, mode, g))
  }

  ghost predicate SeenWith(summary: seq<AgentStatus>, rows: seq<AgentStatus>, mode: AgentStatus -> Option<GuardMode>,
                           g: Generic) {
    HasPath(rows, g.rel) || exists plain :: plain !in summary && Tells(plain, g) && WithMode(plain, mode) in rows
  }

  lemma FreeName(table: seq<Known>, rows: seq<AgentStatus>, name: string)
    requires Available(table, rows, name)
    ensures KnownNamed(table, name).None? && !Named(rows, name)
  {
  }

  lemma OneMore(table: seq<Known>, summary: seq<AgentStatus>, generics: seq<Generic>, g: Generic,
                rows: seq<AgentStatus>, name: string)
    requires Over(table, summary, generics, rows) && g.schema.Some? && Available(table, rows, name)
    requires !HasPath(rows, g.rel)
    ensures Over(table, summary, generics + [g], rows + [GenericRow(g, name)])
  {
    var row := GenericRow(g, name);
    var now, all := rows + [row], generics + [g];
    FreeName(table, rows, name);
    assert forall i :: 0 <= i < |summary| ==> summary[i] == rows[i];
    assert FromGeneric(table, summary, all, row) by {
      NoPathBefore(summary, rows, g.rel);
      assert g in all && Tells(row, g);
    }
    forall i | |summary| <= i < |now|
      ensures FromGeneric(table, summary, all, now[i])
    {
      if i < |rows| {
        StillGeneric(table, summary, generics, g, rows[i]);
      }
    }
    forall h | h in all && h.schema.Some?
      ensures Seen(summary, now, h)
    {
      if h in generics {
        SeenStill(summary, rows, row, h);
      } else {
        assert Tells(now[|rows|], h);
      }
    }
  }

  lemma StillGeneric(table: seq<Known>, summary: seq<AgentStatus>, generics: seq<Generic>, g: Generic, row: AgentStatus)
    requires FromGeneric(table, summary, generics, row)
    ensures FromGeneric(table, summary, generics + [g], row)
  {
    var h :| h in generics && h.schema.Some? && Tells(row, h) && !HasPath(summary, h.rel);
    assert h in generics + [g];
  }

  lemma SeenStill(summary: seq<AgentStatus>, rows: seq<AgentStatus>, row: AgentStatus, g: Generic)
    requires Seen(summary, rows, g)
    ensures Seen(summary, rows + [row], g)
  {
    if HasPath(rows, g.rel) {
      PathKept(rows, [row], g.rel);
    } else {
      var i :| |summary| <= i < |rows| && Tells(rows[i], g);
      assert Tells((rows + [row])[i], g);
    }
  }

  lemma PathKept(rows: seq<AgentStatus>, more: seq<AgentStatus>, rel: string)
    requires HasPath(rows, rel)
    ensures HasPath(rows + more, rel)
  {
    var i :| 0 <= i < |rows| && rows[i].mcpJson == Some(rel);
    assert (rows + more)[i].mcpJson == Some(rel);
  }

  lemma NoPathBefore(summary: seq<AgentStatus>, rows: seq<AgentStatus>, rel: string)
    requires summary <= rows && !HasPath(rows, rel)
    ensures !HasPath(summary, rel)
  {
    var more := rows[|summary|..];
    assert rows == summary + more;
    if HasPath(summary, rel) {
      PathKept(summary, more, rel);
    }
  }

  lemma NoneMore(table: seq<Known>, summary: seq<AgentStatus>, generics: seq<Generic>, g: Generic,
                 rows: seq<AgentStatus>)
    requires Over(table, summary, generics, rows)
    requires g.schema.Some? ==> HasPath(rows, g.rel)
    ensures Over(table, summary, generics + [g], rows)
  {
    forall i | |summary| <= i < |rows|
      ensures FromGeneric(table, summary, generics + [g], rows[i])
    {
      StillGeneric(table, summary, generics, g, rows[i]);
    }
  }

  method PathTaken(rows: seq<AgentStatus>, rel: string) returns (taken: bool)
    ensures taken == HasPath(rows, rel)
  {
    for i := 0 to |rows|
      invariant forall j :: 0 <= j < i ==> rows[j].mcpJson != Some(rel)
    {
      if rows[i].mcpJson == Some(rel) {
        return true;
      }
    }
    taken := false;
  }

  method RowsFromSources(table: seq<Known>, running: seq<Running>, found: seq<Found>, generics: seq<Generic>,
                         guarded: string -> bool,
                         mode: AgentStatus -> Option<GuardMode>) returns (rows: seq<AgentStatus>)
    requires DistinctNames(table) && forall f :: f in found ==> f.known in table
    ensures exists summary :: && Summarizes(table, WorldOf(running, found), summary, guarded)
                              && Complete(table, summary, generics, mode, rows)
  {
    var summary := SummarizeDiscovered(table, running, found, guarded);
    rows := summary;
    for i := 0 to |generics|
      invariant Over(table, summary, generics[..i], rows)
    {
      var g := generics[i];
      assert generics[..i + 1] == generics[..i] + [g];
      var taken := PathTaken(rows, g.rel);
      if taken || g.schema.None? {
        NoneMore(table, summary, generics[..i], g, rows);
      } else {
        var name := GenericName(g.folder, table, rows);
        OneMore(table, summary, generics[..i], g, rows, name);
        rows := rows + [GenericRow(g, name)];
      }
    }
    assert generics[..|generics|] == generics;
    var plain := rows;
    rows := ReadModes(plain, mode);
    var unsorted := rows;
    NamesComparable(unsorted);
    NamesAreStrict();
    SortSorts(unsorted, ByName());
    rows := Sort(unsorted, ByName());
    Finished(table, summary, generics, mode, plain, unsorted, rows);
  }

  method ReadModes(plain: seq<AgentStatus>, mode: AgentStatus -> Option<GuardMode>) returns (rows: seq<AgentStatus>)
    ensures |rows| == |plain| && forall j :: 0 <= j < |rows| ==> rows[j] == WithMode(plain[j], mode)
  {
    rows := plain;
    for i := 0 to |rows|
      invariant |rows| == |plain|
      invariant forall j :: i <= j < |rows| ==> rows[j] == plain[j]
      invariant forall j :: 0 <= j < i ==> rows[j] == WithMode(plain[j], mode)
    {
      if rows[i].guarded {
        rows := rows[i := rows[i].(mode := mode(rows[i]))];
      }
    }
  }

  lemma Finished(table: seq<Known>, summary: seq<AgentStatus>, generics: seq<Generic>,
                 mode: AgentStatus -> Option<GuardMode>,
                 plain: seq<AgentStatus>, unsorted: seq<AgentStatus>, rows: seq<AgentStatus>)
    requires Over(table, summary, generics, plain) && |unsorted| == |plain|
    requires forall j :: 0 <= j < |plain| ==> unsorted[j] == WithMode(plain[j], mode)
    requires IsSorted(rows, ByName()) && forall row :: row in rows <==> row in unsorted
    ensures Complete(table, summary, generics, mode, rows)
  {
    forall i, j | 0 <= i < j < |rows|
      ensures rows[i].name != rows[j].name
    {
      assert ByName()(rows[i], rows[j]);
      BeforeOne(rows[i].name, rows[j].name);
    }
    forall row | row in summary
      ensures WithMode(row, mode) in rows
    {
      var i :| 0 <= i < |summary| && summary[i] == row;
      assert plain[i] == row && unsorted[i] in unsorted;
    }
    forall row | row in rows
      ensures exists p :: row == WithMode(p, mode) && (p in summary || FromGeneric(table, summary, generics, p))
    {
      var i :| 0 <= i < |unsorted| && unsorted[i] == row;
      PlainRow(table, summary, generics, plain, i);
      assert row == WithMode(plain[i], mode);
    }
    forall g | g in generics && g.schema.Some?
      ensures SeenWith(summary, rows, mode, g)
    {
      if i :| 0 <= i < |plain| && plain[i].mcpJson == Some(g.rel) {
        assert unsorted[i] in rows;
        var j :| 0 <= j < |rows| && rows[j] == unsorted[i];
      } else {
        var i :| |summary| <= i < |plain| && Tells(plain[i], g);
        BehindSummary(summary, plain, i);
        assert unsorted[i] in rows;
      }
    }
  }

  lemma BehindSummary(summary: seq<AgentStatus>, plain: seq<AgentStatus>, i: nat)
    requires OneRowEach(plain) && summary <= plain && |summary| <= i < |plain|
    ensures plain[i] !in summary
  {
    forall j | 0 <= j < |summary|
      ensures summary[j] != plain[i]
    {
      assert plain[j] == summary[j];
    }
  }

  lemma PlainRow(table: seq<Known>, summary: seq<AgentStatus>, generics: seq<Generic>, plain: seq<AgentStatus>, i: nat)
    requires Over(table, summary, generics, plain) && i < |plain|
    ensures plain[i] in summary || FromGeneric(table, summary, generics, plain[i])
  {
    if i < |summary| {
      assert plain[i] == summary[i];
    }
  }
}
