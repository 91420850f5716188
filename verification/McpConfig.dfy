/** A whole MCP configuration: the server tables it may hold, and the wiring of
    every server in them. */
module McpConfig {
  import opened Options
  import opened Json
  import opened ProxyOptions
  import opened OptionRewrites
  import opened OptionReadBack
  import opened McpWire
  import opened McpWiring

  type Table = map<string, Json>

  /** `mcpServers`, `servers`, and `mcp.servers`. */
  datatype TablePath = McpServers | Servers | McpDotServers

  function TableOf(value: Option<Json>): Option<Table> {
    if value.Some? && value.value.Obj? then Some(value.value.fields) else None
  }

  function TableAt(root: Json, path: TablePath): Option<Table> {
    match path
    case McpServers => TableOf(Get(root, "mcpServers"))
    case Servers => TableOf(Get(root, "servers"))
    case McpDotServers =>
      match Get(root, "mcp")
      case Some(mcp) => TableOf(Get(mcp, "servers"))
      case None => None
  }

  function PutTable(root: Json, path: TablePath, table: Table): Json
    requires TableAt(root, path).Some?
  {
    match path
    case McpServers => With(root, "mcpServers", Obj(table))
    case Servers => With(root, "servers", Obj(table))
    case McpDotServers => With(root, "mcp", With(root.fields["mcp"], "servers", Obj(table)))
  }

  // ------------------------------------------------------- rewriting servers

  function MapTable(table: Table, f: Json -> Json): Table {
    map name | name in table :: f(table[name])
  }

  function MapValue(value: Json, f: Json -> Json): Json {
    if value.Obj? then Obj(MapTable(value.fields, f)) else value
  }

  function MapMcp(value: Json, f: Json -> Json): Json {
    if value.Obj? then
      Obj(map key | key in value.fields ::
            if key == "servers" then MapValue(value.fields[key], f) else value.fields[key])
    else value
  }

  /** Every server rewritten; every other key as it was, and none added. */
  function MapServers(root: Json, f: Json -> Json): Json {
    if root.Obj? then
      Obj(map key | key in root.fields ::
            if key == "mcpServers" || key == "servers" then MapValue(root.fields[key], f)
            else if key == "mcp" then MapMcp(root.fields[key], f)
            else root.fields[key])
    else root
  }

  predicate IsServer(root: Json, path: TablePath, name: string) {
    TableAt(root, path).Some? && name in TableAt(root, path).value
  }

  function ServerAt(root: Json, path: TablePath, name: string): Json
    requires IsServer(root, path, name)
  {
    TableAt(root, path).value[name]
  }

  lemma MappedTable(root: Json, path: TablePath, f: Json -> Json)
    ensures TableAt(MapServers(root, f), path) ==
            (if TableAt(root, path).Some? then Some(MapTable(TableAt(root, path).value, f)) else None)
  {
  }

  /** Rewriting servers changes nothing else: with the servers blanked out the
      configuration is the same, and each table has the same names. */
  lemma OnlyServersChange(root: Json, f: Json -> Json)
    ensures MapServers(MapServers(root, f), _ => Null) == MapServers(root, _ => Null)
    ensures forall path, name :: IsServer(MapServers(root, f), path, name) <==> IsServer(root, path, name)
    ensures forall path, name :: IsServer(root, path, name) ==>
                                   ServerAt(MapServers(root, f), path, name) == f(ServerAt(root, path, name))
  {
    forall path
      ensures TableAt(MapServers(root, f), path) ==
              (if TableAt(root, path).Some? then Some(MapTable(TableAt(root, path).value, f)) else None)
    {
      MappedTable(root, path, f);
    }
    MapTwice(root, f, _ => Null);
    SameMap(root, s => (_ => Null)(f(s)), _ => Null);
  }

  lemma TableTwice(value: Json, f: Json -> Json, g: Json -> Json)
    ensures MapValue(MapValue(value, f), g) == MapValue(value, s => g(f(s)))
  {
    if value.Obj? {
      assert MapTable(MapTable(value.fields, f), g) == MapTable(value.fields, s => g(f(s)));
    }
  }

  lemma McpTwice(value: Json, f: Json -> Json, g: Json -> Json)
    ensures MapMcp(MapMcp(value, f), g) == MapMcp(value, s => g(f(s)))
  {
    if value.Obj? {
      if "servers" in value.fields {
        TableTwice(value.fields["servers"], f, g);
      }
      assert MapMcp(MapMcp(value, f), g).fields == MapMcp(value, s => g(f(s))).fields;
    }
  }

  lemma KeyTwice(root: Json, f: Json -> Json, g: Json -> Json, key: string)
    requires root.Obj? && key in root.fields
    ensures MapServers(MapServers(root, f), g).fields[key] == MapServers(root, s => g(f(s))).fields[key]
  {
    TableTwice(root.fields[key], f, g);
    McpTwice(root.fields[key], f, g);
  }

  lemma MapTwice(root: Json, f: Json -> Json, g: Json -> Json)
    ensures MapServers(MapServers(root, f), g) == MapServers(root, s => g(f(s)))
  {
    if root.Obj? {
      forall key | key in root.fields
        ensures MapServers(MapServers(root, f), g).fields[key] == MapServers(root, s => g(f(s))).fields[key]
      {
        KeyTwice(root, f, g, key);
      }
      assert MapServers(MapServers(root, f), g).fields == MapServers(root, s => g(f(s))).fields;
    }
  }

  lemma SameMap(root: Json, f: Json -> Json, g: Json -> Json)
    requires forall path, name :: IsServer(root, path, name) ==>
             f(ServerAt(root, path, name)) == g(ServerAt(root, path, name))
    ensures MapServers(root, f) == MapServers(root, g)
  {
    if root.Obj? {
      forall path | TableAt(root, path).Some?
        ensures MapTable(TableAt(root, path).value, f) == MapTable(TableAt(root, path).value, g)
      {
        forall name | name in TableAt(root, path).value
          ensures f(TableAt(root, path).value[name]) == g(TableAt(root, path).value[name])
        {
          assert IsServer(root, path, name);
        }
      }
      assert TableAt(root, McpServers).Some? ==>
             MapTable(TableAt(root, McpServers).value, f) == MapTable(TableAt(root, McpServers).value, g);
      assert TableAt(root, Servers).Some? ==>
             MapTable(TableAt(root, Servers).value, f) == MapTable(TableAt(root, Servers).value, g);
      assert TableAt(root, McpDotServers).Some? ==>
             MapTable(TableAt(root, McpDotServers).value, f) == MapTable(TableAt(root, McpDotServers).value, g);
      if "mcp" in root.fields && root.fields["mcp"].Obj? {
        assert MapMcp(root.fields["mcp"], f).fields == MapMcp(root.fields["mcp"], g).fields;
      }
      assert MapServers(root, f).fields == MapServers(root, g).fields;
    }
  }

  lemma SameMapExactly(root: Json, f: Json -> Json, g: Json -> Json)
    ensures MapServers(root, f) == MapServers(root, g) <==>
            forall path, name :: IsServer(root, path, name) ==>
            f(ServerAt(root, path, name)) == g(ServerAt(root, path, name))
  {
    if MapServers(root, f) == MapServers(root, g) {
      forall path, name | IsServer(root, path, name)
        ensures f(ServerAt(root, path, name)) == g(ServerAt(root, path, name))
      {
        MappedTable(root, path, f);
        MappedTable(root, path, g);
        assert MapTable(TableAt(root, path).value, f)[name] == MapTable(TableAt(root, path).value, g)[name];
      }
    }
    if forall path, name :: IsServer(root, path, name) ==>
       f(ServerAt(root, path, name)) == g(ServerAt(root, path, name)) {
      SameMap(root, f, g);
    }
  }

  /** One rewriting after another is a third, exactly when it is on each server. */
  lemma ComposeExactly(root: Json, f: Json -> Json, g: Json -> Json, h: Json -> Json, same: Json -> bool)
    requires forall path, name :: IsServer(root, path, name) ==>
                                    (g(f(ServerAt(root, path, name))) == h(ServerAt(root, path, name)) <==>
                                     same(ServerAt(root, path, name)))
    ensures MapServers(MapServers(root, f), g) == MapServers(root, h) <==>
            forall path, name :: IsServer(root, path, name) ==> same(ServerAt(root, path, name))
  {
    MapTwice(root, f, g);
    SameMapExactly(root, s => g(f(s)), h);
  }

  // ---------------------------------------------------------- reading servers

  predicate IsWrapped(server: Json) {
    ServerMode(server).Some?
  }

  /** At least one stdio server, and every one runs through the proxy. */
  ghost predicate IsGuarded(root: Json) {
    && (exists path, name :: IsServer(root, path, name) && IsStdio(ServerAt(root, path, name)))
    && (forall path, name :: IsServer(root, path, name) && IsStdio(ServerAt(root, path, name)) ==>
                               IsWrapped(ServerAt(root, path, name)))
  }

  function StdioTest(): Json -> bool {
    s => IsStdio(s)
  }

  function WrappedTest(): Json -> bool {
    s => IsWrapped(s)
  }

  /** `None` for a server that is not a wrapper, and `Some(None)` for a wrapper
      that does not read. */
  function WrapperMode(server: Json): (r: Option<Option<WiringMode>>)
    ensures r != Some(Some(Mixed))
  {
    if WrapperSeparator(server).None? then None else Some(ServerMode(server))
  }

  type Reading = Json -> Option<Option<WiringMode>>

  function ModesIn(table: Option<Table>, f: Reading): set<WiringMode> {
    if table.None? then {}
    else
      set name | name in table.value && f(table.value[name]).Some? && f(table.value[name]).value.Some? ::
        f(table.value[name]).value.value
  }

  predicate AnyUnread(table: Option<Table>, f: Reading) {
    table.Some? && exists name :: name in table.value && f(table.value[name]) == Some(None)
  }

  function Joined(modes: set<WiringMode>): Option<WiringMode> {
    if modes == {} then None
    else if modes == {Monitor} then Some(Monitor)
    else if modes == {Enforce} then Some(Enforce)
    else Some(Mixed)
  }

  /** The modes of the wrappers that read. */
  function Modes(root: Json, f: Reading): set<WiringMode> {
    ModesIn(TableAt(root, McpServers), f) + ModesIn(TableAt(root, Servers), f) +
    ModesIn(TableAt(root, McpDotServers), f)
  }

  predicate SomeUnread(root: Json, f: Reading) {
    AnyUnread(TableAt(root, McpServers), f) || AnyUnread(TableAt(root, Servers), f) ||
    AnyUnread(TableAt(root, McpDotServers), f)
  }

  function AsReading(): Reading {
    s => WrapperMode(s)
  }

  /** `None` when a wrapper does not read or there is none; `Mixed` when they
      disagree. */
  function GuardedMode(root: Json): Option<WiringMode> {
    if SomeUnread(root, AsReading()) then None else Joined(Modes(root, AsReading()))
  }

  function CountIn(table: Option<Table>, p: Json -> bool): nat {
    if table.None? then 0 else |set name | name in table.value && p(table.value[name])|
  }

  function CountBothIn(table: Option<Table>, p: Json -> bool, q: Json -> bool): nat {
    if table.None? then 0 else |set name | name in table.value && p(table.value[name]) && q(table.value[name])|
  }

  /** How many servers are stdio, and how many of those run through the proxy. */
  function StdioServers(root: Json): nat {
    CountIn(TableAt(root, McpServers), StdioTest()) + CountIn(TableAt(root, Servers), StdioTest()) +
    CountIn(TableAt(root, McpDotServers), StdioTest())
  }

  function WrappedServers(root: Json): nat {
    CountBothIn(TableAt(root, McpServers), StdioTest(), WrappedTest()) +
    CountBothIn(TableAt(root, Servers), StdioTest(), WrappedTest()) +
    CountBothIn(TableAt(root, McpDotServers), StdioTest(), WrappedTest())
  }

  function ChangedIn(table: Option<Table>, f: Json -> (Json, bool)): nat {
    if table.None? then 0 else |set name | name in table.value && f(table.value[name]).1|
  }

  function Changed(root: Json, f: Json -> (Json, bool)): nat {
    ChangedIn(TableAt(root, McpServers), f) + ChangedIn(TableAt(root, Servers), f) +
    ChangedIn(TableAt(root, McpDotServers), f)
  }

  /** One table rewritten. */
  function MapAt(root: Json, path: TablePath, f: Json -> Json): Json {
    match TableAt(root, path)
    case Some(table) => PutTable(root, path, MapTable(table, f))
    case None => root
  }

  lemma MapAtTables(root: Json, path: TablePath, f: Json -> Json, other: TablePath)
    ensures TableAt(MapAt(root, path, f), other) ==
            (if path == other && TableAt(root, path).Some? then Some(MapTable(TableAt(root, path).value, f))
             else TableAt(root, other))
  {
  }

  lemma MapEachTable(root: Json, f: Json -> Json)
    ensures MapAt(MapAt(MapAt(root, McpServers, f), Servers, f), McpDotServers, f) == MapServers(root, f)
  {
    if root.Obj? {
      var one := MapAt(root, McpServers, f);
      var two := MapAt(one, Servers, f);
      MapAtKey(root, McpServers, f);
      MapAtKey(one, Servers, f);
      MapAtKey(two, McpDotServers, f);
      assert MapAt(two, McpDotServers, f).fields == MapServers(root, f).fields;
    }
  }

  function KeyOf(path: TablePath): string {
    match path
    case McpServers => "mcpServers"
    case Servers => "servers"
    case McpDotServers => "mcp"
  }

  lemma MapAtKey(root: Json, path: TablePath, f: Json -> Json)
    requires root.Obj?
    ensures MapAt(root, path, f).Obj? && MapAt(root, path, f).fields.Keys == root.fields.Keys
    ensures forall key :: key in root.fields ==>
              MapAt(root, path, f).fields[key] ==
              (if key != KeyOf(path) then root.fields[key]
               else if path == McpDotServers then MapMcp(root.fields[key], f)
               else MapValue(root.fields[key], f))
  {
    if path == McpDotServers && "mcp" in root.fields && root.fields["mcp"].Obj? {
      assert MapAt(root, path, f).fields["mcp"].fields == MapMcp(root.fields["mcp"], f).fields;
    }
  }

  /** A configuration as wiring edits it. */
  class Config {
    var root: Json

    constructor (root: Json)
      ensures this.root == root
    {
      this.root := root;
    }

    method ForEachServer(f: Json -> (Json, bool)) returns (n: nat)
      modifies this
      ensures root == MapServers(old(root), Result(f))
      ensures n == Changed(old(root), f)
    {
      ghost var g := Result(f);
      MapEachTable(root, g);
      MapAtTables(root, McpServers, g, Servers);
      MapAtTables(root, McpServers, g, McpDotServers);
      MapAtTables(MapAt(root, McpServers, g), Servers, g, McpDotServers);
      n := RewriteTable(McpServers, f);
      var m := RewriteTable(Servers, f);
      n := n + m;
      m := RewriteTable(McpDotServers, f);
      n := n + m;
    }

    method RewriteTable(path: TablePath, f: Json -> (Json, bool)) returns (n: nat)
      modifies this
      ensures root == MapAt(old(root), path, Result(f))
      ensures n == ChangedIn(TableAt(old(root), path), f)
    {
      n := 0;
      if TableAt(root, path).None? {
        return;
      }
      var table;
      table, n := Rewrite(TableAt(root, path).value, f);
      root := PutTable(root, path, table);
    }

    /** Routes every stdio server through the proxy. */
    method Wrap(guard: string, monitor: bool, agent: Option<string>) returns (n: nat)
      modifies this
      ensures root == Wrapped(old(root), guard, monitor, agent)
      ensures n == Changed(old(root), Wrapping(guard, monitor, agent))
    {
      n := ForEachServer(Wrapping(guard, monitor, agent));
    }

    method Unwrap() returns (n: nat)
      modifies this
      ensures root == Unwrapped(old(root))
      ensures n == Changed(old(root), Unwrapping())
    {
      n := ForEachServer(Unwrapping());
    }

    /** How many stdio servers there are, and how many of them are wrapped. */
    method Counts() returns (stdio: nat, wrapped: nat)
      ensures stdio == StdioServers(root) && wrapped == WrappedServers(root)
      ensures (stdio > 0 && stdio == wrapped) <==> IsGuarded(root)
    {
      var p, q := StdioTest(), WrappedTest();
      stdio, wrapped := CountTable(TableAt(root, McpServers), p, q);
      var s, w := CountTable(TableAt(root, Servers), p, q);
      stdio, wrapped := stdio + s, wrapped + w;
      s, w := CountTable(TableAt(root, McpDotServers), p, q);
      stdio, wrapped := stdio + s, wrapped + w;
      GuardedByCounts(root, p, q);
    }

    /** The mode across every wrapper, given up at the first that does not read. */
    method ReadMode() returns (found: Option<WiringMode>)
      ensures found == GuardedMode(root)
    {
      var f := AsReading();
      var read: bool;
      read, found := ReadTable(TableAt(root, McpServers), f, None, {});
      if !read { return None; }
      ghost var seen := {} + ModesIn(TableAt(root, McpServers), f);
      read, found := ReadTable(TableAt(root, Servers), f, found, seen);
      if !read { return None; }
      seen := seen + ModesIn(TableAt(root, Servers), f);
      read, found := ReadTable(TableAt(root, McpDotServers), f, found, seen);
      if !read { return None; }
      assert {} + ModesIn(TableAt(root, McpServers), f) == ModesIn(TableAt(root, McpServers), f);
    }
  }

  method Rewrite(servers: Table, f: Json -> (Json, bool)) returns (table: Table, n: nat)
    ensures table == MapTable(servers, Result(f))
    ensures n == ChangedIn(Some(servers), f)
  {
    table, n := servers, 0;
    ghost var changed: set<string> := {};
    var pending := servers.Keys;
    while pending != {}
      invariant pending <= servers.Keys && table.Keys == servers.Keys
      invariant forall name :: name in pending ==> table[name] == servers[name]
      invariant forall name :: name in servers && name !in pending ==> table[name] == f(servers[name]).0
      invariant forall name :: name in changed <==> name in servers && name !in pending && f(servers[name]).1
      invariant n == |changed|
    {
      var name :| name in pending;
      pending := pending - {name};
      var (server, edited) := f(table[name]);
      table := table[name := server];
      if edited {
        n, changed := n + 1, changed + {name};
      }
    }
    assert table == MapTable(servers, Result(f));
    assert changed == set name | name in servers && f(servers[name]).1;
  }

  lemma CountsIn(table: Option<Table>, p: Json -> bool, q: Json -> bool)
    ensures CountBothIn(table, p, q) <= CountIn(table, p)
    ensures CountIn(table, p) > 0 <==> table.Some? && exists name :: name in table.value && p(table.value[name])
    ensures CountBothIn(table, p, q) == CountIn(table, p) <==>
            (table.Some? ==> forall name :: name in table.value && p(table.value[name]) ==> q(table.value[name]))
  {
    if table.Some? {
      var ps := set name | name in table.value && p(table.value[name]);
      var pqs := set name | name in table.value && p(table.value[name]) && q(table.value[name]);
      assert ps == pqs + (ps - pqs) && |ps| == |pqs| + |ps - pqs|;
      assert forall name :: name in ps <==> name in table.value && p(table.value[name]);
      if |ps - pqs| == 0 { assert ps - pqs == {}; }
    }
  }

  ghost predicate GuardedBy(root: Json, p: Json -> bool, q: Json -> bool) {
    && (exists path, name :: IsServer(root, path, name) && p(ServerAt(root, path, name)))
    && (forall path, name :: IsServer(root, path, name) && p(ServerAt(root, path, name)) ==>
        q(ServerAt(root, path, name)))
  }

  ghost predicate AnyIn(table: Option<Table>, p: Json -> bool) {
    table.Some? && exists name :: name in table.value && p(table.value[name])
  }

  ghost predicate AllIn(table: Option<Table>, p: Json -> bool, q: Json -> bool) {
    table.Some? ==> forall name :: name in table.value && p(table.value[name]) ==> q(table.value[name])
  }

  lemma GuardedByTables(root: Json, p: Json -> bool, q: Json -> bool)
    ensures GuardedBy(root, p, q) <==>
            && (AnyIn(TableAt(root, McpServers), p) || AnyIn(TableAt(root, Servers), p) ||
                AnyIn(TableAt(root, McpDotServers), p))
            && AllIn(TableAt(root, McpServers), p, q) && AllIn(TableAt(root, Servers), p, q) &&
               AllIn(TableAt(root, McpDotServers), p, q)
  {
    forall path, name | IsServer(root, path, name) && p(ServerAt(root, path, name))
      ensures AnyIn(TableAt(root, path), p)
    {
    }
    forall path | AnyIn(TableAt(root, path), p)
      ensures exists name :: IsServer(root, path, name) && p(ServerAt(root, path, name))
    {
      var name :| name in TableAt(root, path).value && p(TableAt(root, path).value[name]);
      assert IsServer(root, path, name) && p(ServerAt(root, path, name));
    }
    forall path
      ensures AllIn(TableAt(root, path), p, q) <==>
              forall name :: IsServer(root, path, name) && p(ServerAt(root, path, name)) ==>
              q(ServerAt(root, path, name))
    {
      if forall name :: IsServer(root, path, name) && p(ServerAt(root, path, name)) ==> q(ServerAt(root, path, name)) {
        forall name | TableAt(root, path).Some? && name in TableAt(root, path).value &&
        p(TableAt(root, path).value[name])
          ensures q(TableAt(root, path).value[name])
        {
          assert IsServer(root, path, name);
        }
      }
    }
  }

  lemma GuardedByCounts(root: Json, p: Json -> bool, q: Json -> bool)
    ensures var (a, b, c) := (TableAt(root, McpServers), TableAt(root, Servers), TableAt(root, McpDotServers));
            var stdio := CountIn(a, p) + CountIn(b, p) + CountIn(c, p);
            stdio > 0 && stdio == CountBothIn(a, p, q) + CountBothIn(b, p, q) + CountBothIn(c, p, q) <==>
            GuardedBy(root, p, q)
  {
    CountsIn(TableAt(root, McpServers), p, q);
    CountsIn(TableAt(root, Servers), p, q);
    CountsIn(TableAt(root, McpDotServers), p, q);
    GuardedByTables(root, p, q);
  }

  method CountTable(table: Option<Table>, p: Json -> bool, q: Json -> bool) returns (ps: nat, both: nat)
    ensures ps == CountIn(table, p)
    ensures both == CountBothIn(table, p, q)
  {
    ps, both := 0, 0;
    if table.None? {
      return;
    }
    var servers := table.value;
    ghost var pNames: set<string>, bothNames: set<string> := {}, {};
    var pending := servers.Keys;
    while pending != {}
      invariant pending <= servers.Keys
      invariant ps == |pNames| && both == |bothNames|
      invariant forall name :: name in pNames <==> name in servers && name !in pending && p(servers[name])
      invariant forall name :: name in bothNames <==>
                name in servers && name !in pending && p(servers[name]) && q(servers[name])
    {
      var name :| name in pending;
      pending := pending - {name};
      if p(servers[name]) {
        ps, pNames := ps + 1, pNames + {name};
        if q(servers[name]) {
          both, bothNames := both + 1, bothNames + {name};
        }
      }
    }
    assert pNames == set name | name in servers && p(servers[name]);
    assert bothNames == set name | name in servers && p(servers[name]) && q(servers[name]);
  }

  method ReadTable(table: Option<Table>, f: Reading, before: Option<WiringMode>, ghost seen: set<WiringMode>)
    returns (read: bool, found: Option<WiringMode>)
    requires before == Joined(seen) && seen <= {Monitor, Enforce}
    requires forall s :: f(s) != Some(Some(Mixed))
    ensures read <==> !AnyUnread(table, f)
    ensures read ==> found == Joined(seen + ModesIn(table, f)) && seen + ModesIn(table, f) <= {Monitor, Enforce}
  {
    found := before;
    if table.None? {
      assert seen + {} == seen;
      return true, found;
    }
    var servers := table.value;
    ghost var modes := seen;
    var pending := servers.Keys;
    while pending != {}
      invariant pending <= servers.Keys
      invariant forall name :: name in servers && name !in pending ==> f(servers[name]) != Some(None)
      invariant forall name :: name in servers && name !in pending && f(servers[name]).Some? ==>
                f(servers[name]).value.value in modes
      invariant seen <= modes <= seen + ModesIn(table, f)
      invariant modes <= {Monitor, Enforce} && found == Joined(modes)
    {
      var name :| name in pending;
      pending := pending - {name};
      var mode := f(servers[name]);
      if mode == Some(None) {
        return false, None;
      }
      if mode.Some? {
        assert f(servers[name]) != Some(Some(Mixed)) && mode.value.value in ModesIn(table, f);
        assert mode.value.value == Monitor || mode.value.value == Enforce;
        JoinOne(modes, mode.value.value);
        modes := modes + {mode.value.value};
        found := if found.None? then mode.value else if found == mode.value then found else Some(Mixed);
      }
    }
    assert modes == seen + ModesIn(table, f);
    read := true;
  }

  lemma JoinOne(modes: set<WiringMode>, mode: WiringMode)
    requires modes <= {Monitor, Enforce} && mode in {Monitor, Enforce}
    ensures Joined(modes + {mode}) == if modes == {} || Joined(modes) == Some(mode) then Some(mode) else Some(Mixed)
  {
    if modes == {} {
      assert modes + {mode} == {mode};
    } else if Joined(modes) == Some(mode) {
      assert modes == {mode} && modes + {mode} == {mode};
    } else {
      var other :| other in modes && other != mode;
      assert other in modes + {mode} && mode in modes + {mode};
    }
  }

  function Wrapping(guard: string, monitor: bool, agent: Option<string>): Json -> (Json, bool) {
    s => WrapServer(s, guard, monitor, agent)
  }

  function Unwrapping(): Json -> (Json, bool) {
    s => UnwrapServer(s)
  }

  function Result(f: Json -> (Json, bool)): Json -> Json {
    s => f(s).0
  }

  function Wrapped(root: Json, guard: string, monitor: bool, agent: Option<string>): Json {
    MapServers(root, Result(Wrapping(guard, monitor, agent)))
  }

  function Unwrapped(root: Json): Json {
    MapServers(root, Result(Unwrapping()))
  }
}
