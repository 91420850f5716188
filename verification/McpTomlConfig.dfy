/** A whole TOML configuration, `[mcp_servers.NAME]` tables and the rest. */
module McpTomlConfig {
  import opened Options
  import opened Json
  import opened OptionRewrites
  import opened OptionReadBack
  import opened McpWire
  import opened McpWiring
  import opened McpConfig
  import opened McpConfigRuns
  import Toml = McpWireToml

  datatype ServerItem = Section(server: Toml.Server) | NotASection(text: string)

  type Items = map<string, ServerItem>

  datatype Key = Servers(items: Items) | Scalar(text: string)

  type Keys = map<string, Key>

  type TableEdit = Toml.Server -> (Toml.Server, bool)

  function ItemsIn(keys: Keys): Option<Items> {
    if "mcp_servers" in keys && keys["mcp_servers"].Servers? then Some(keys["mcp_servers"].items) else None
  }

  function Edited(items: Items, f: TableEdit): Items {
    map name | name in items ::
      if items[name].Section? then Section(f(items[name].server).0) else items[name]
  }

  /** Every server table edited; every other key as it was. */
  function EditedKeys(keys: Keys, f: TableEdit): Keys {
    match ItemsIn(keys)
    case None => keys
    case Some(items) => keys["mcp_servers" := Key.Servers(Edited(items, f))]
  }

  function ChangedItems(items: Items, f: TableEdit): set<string> {
    set name | name in items && items[name].Section? && f(items[name].server).1
  }

  function ChangedKeys(keys: Keys, f: TableEdit): nat {
    match ItemsIn(keys)
    case None => 0
    case Some(items) => |ChangedItems(items, f)|
  }

  function WrappingTable(guard: string, monitor: bool, agent: Option<string>): TableEdit {
    s => Toml.WrapTable(s, guard, monitor, agent)
  }

  function UnwrappingTable(): TableEdit {
    s => Toml.UnwrapTable(s)
  }

  function WrappedKeys(keys: Keys, guard: string, monitor: bool, agent: Option<string>): Keys {
    EditedKeys(keys, WrappingTable(guard, monitor, agent))
  }

  class Document {
    var keys: Keys

    constructor (keys: Keys)
      ensures this.keys == keys
    {
      this.keys := keys;
    }

    method ForEachServer(f: TableEdit) returns (n: nat)
      modifies this
      ensures keys == EditedKeys(old(keys), f)
      ensures n == ChangedKeys(old(keys), f)
    {
      n := 0;
      if ItemsIn(keys).None? {
        return;
      }
      var items := ItemsIn(keys).value;
      var left;
      left, n := EditItems(items, f);
      keys := keys["mcp_servers" := Key.Servers(left)];
    }

    method Wrap(guard: string, monitor: bool, agent: string) returns (n: nat)
      modifies this
      ensures keys == WrappedKeys(old(keys), guard, monitor, Some(agent))
      ensures n == ChangedKeys(old(keys), WrappingTable(guard, monitor, Some(agent)))
    {
      n := ForEachServer(WrappingTable(guard, monitor, Some(agent)));
    }

    method Unwrap() returns (n: nat)
      modifies this
      ensures keys == EditedKeys(old(keys), UnwrappingTable())
      ensures n == ChangedKeys(old(keys), UnwrappingTable())
    {
      n := ForEachServer(UnwrappingTable());
    }
  }

  method EditItems(items: Items, f: TableEdit) returns (left: Items, n: nat)
    ensures left == Edited(items, f)
    ensures n == |ChangedItems(items, f)|
  {
    left, n := items, 0;
    ghost var changed: set<string> := {};
    var pending := items.Keys;
    while pending != {}
      invariant pending <= items.Keys && left.Keys == items.Keys && n == |changed|
      invariant forall name :: name in pending ==> left[name] == items[name]
      invariant forall name :: name in items && name !in pending ==>
                  left[name] == if items[name].Section? then Section(f(items[name].server).0) else items[name]
      invariant forall name :: name in changed <==>
                name in items && name !in pending && items[name].Section? && f(items[name].server).1
    {
      var name :| name in pending;
      pending := pending - {name};
      if left[name].Section? {
        var (server, edited) := f(left[name].server);
        left := left[name := Section(server)];
        if edited {
          n, changed := n + 1, changed + {name};
        }
      }
    }
    assert left == Edited(items, f);
    assert changed == ChangedItems(items, f);
  }

  // ------------------------------------------------------- simulating the JSON

  function EraseItems(items: Items): Table {
    map name | name in items && items[name].Section? :: Toml.Erase(items[name].server)
  }

  /** The same servers in a JSON configuration. */
  function EraseKeys(keys: Keys): Json {
    match ItemsIn(keys)
    case None => Obj(map[])
    case Some(items) => Obj(map["mcpServers" := Obj(EraseItems(items))])
  }

  lemma WrappingSimulates(guard: string, monitor: bool, agent: Option<string>, server: Toml.Server)
    ensures Toml.Erase(WrappingTable(guard, monitor, agent)(server).0) ==
            Result(Wrapping(guard, monitor, agent))(Toml.Erase(server))
    ensures Wrapping(guard, monitor, agent)(Toml.Erase(server)).1 ==> WrappingTable(guard, monitor, agent)(server).1
  {
    Toml.WrapSimulates(server, guard, monitor, agent);
  }

  lemma EditsErased(keys: Keys, f: TableEdit, g: Json -> Json)
    requires forall s :: Toml.Erase(f(s).0) == g(Toml.Erase(s))
    ensures EraseKeys(EditedKeys(keys, f)) == MapServers(EraseKeys(keys), g)
  {
    if ItemsIn(keys).Some? {
      var items := ItemsIn(keys).value;
      var table := EraseItems(items);
      assert EraseItems(Edited(items, f)) == MapTable(table, g);
      var root := EraseKeys(keys);
      assert MapServers(root, g).fields == map["mcpServers" := Obj(MapTable(table, g))];
    } else {
      assert MapServers(EraseKeys(keys), g).fields == map[];
    }
  }

  /** Wrapping a TOML configuration and forgetting its forms is forgetting them
      and wrapping a JSON configuration. */
  lemma WrapKeysSimulates(keys: Keys, guard: string, monitor: bool, agent: Option<string>)
    ensures EraseKeys(WrappedKeys(keys, guard, monitor, agent)) == Wrapped(EraseKeys(keys), guard, monitor, agent)
  {
    var f, g := WrappingTable(guard, monitor, agent), Result(Wrapping(guard, monitor, agent));
    forall s
      ensures Toml.Erase(f(s).0) == g(Toml.Erase(s))
    {
      WrappingSimulates(guard, monitor, agent, s);
    }
    EditsErased(keys, f, g);
  }

  // -------------------------------------------------------------- the readers

  predicate IsSection(keys: Keys, name: string) {
    ItemsIn(keys).Some? && name in ItemsIn(keys).value && ItemsIn(keys).value[name].Section?
  }

  function SectionAt(keys: Keys, name: string): Toml.Server
    requires IsSection(keys, name)
  {
    ItemsIn(keys).value[name].server
  }

  /** The servers of a document are the tables under `mcp_servers`, and wiring
      changes no other key, nor anything there that is not a table. */
  lemma SectionsByKey(keys: Keys, guard: string, monitor: bool, agent: Option<string>, key: string, name: string)
    ensures IsSection(keys, name) <==>
            && "mcp_servers" in keys && keys["mcp_servers"].Servers?
            && name in keys["mcp_servers"].items && keys["mcp_servers"].items[name].Section?
    ensures IsSection(keys, name) ==> SectionAt(keys, name) == keys["mcp_servers"].items[name].server
    ensures var after := WrappedKeys(keys, guard, monitor, agent);
            && after.Keys == keys.Keys
            && (key in keys && key != "mcp_servers" ==> after[key] == keys[key])
            && (IsSection(after, name) <==> IsSection(keys, name))
            && ("mcp_servers" in keys && keys["mcp_servers"].Servers? && name in keys["mcp_servers"].items &&
                !IsSection(keys, name) ==>
                  && after["mcp_servers"].Servers? && name in after["mcp_servers"].items
                  && after["mcp_servers"].items[name] == keys["mcp_servers"].items[name])
  {
  }

  /** At least one stdio table, and every one runs through the proxy. */
  ghost predicate IsGuardedToml(keys: Keys) {
    && (exists name :: IsSection(keys, name) && Toml.IsStdioIn(SectionAt(keys, name)))
    && (forall name :: IsSection(keys, name) && Toml.IsStdioIn(SectionAt(keys, name)) ==>
                         Toml.ModeIn(SectionAt(keys, name)).Some?)
  }

  /** `None` for a table that is not a wrapper, `Some(None)` for a wrapper that
      does not read. */
  function WrapperModeIn(server: Toml.Server): (r: Option<Option<WiringMode>>)
    ensures r != Some(Some(Mixed))
  {
    if Toml.SeparatorOf(server).None? then None else Some(Toml.ModeIn(server))
  }

  type TableReading = Toml.Server -> Option<Option<WiringMode>>

  function AsTableReading(): TableReading {
    s => WrapperModeIn(s)
  }

  function ModesOf(items: Items, f: TableReading): set<WiringMode> {
    set name | name in items && items[name].Section? && f(items[name].server).Some? &&
               f(items[name].server).value.Some? :: f(items[name].server).value.value
  }

  predicate AnyUnreadIn(items: Items, f: TableReading) {
    exists name :: name in items && items[name].Section? && f(items[name].server) == Some(None)
  }

  /** `None` when a wrapper does not read or there is none; `Mixed` when they
      disagree. */
  function GuardedModeToml(keys: Keys): Option<WiringMode> {
    match ItemsIn(keys)
    case None => None
    case Some(items) =>
      if AnyUnreadIn(items, AsTableReading()) then None else Joined(ModesOf(items, AsTableReading()))
  }

  lemma WrapperModeErased(server: Toml.Server)
    ensures WrapperModeIn(server) == AsReading()(Toml.Erase(server))
  {
    Toml.ModeErased(server);
    Toml.ReadsErased(server);
  }

  lemma SectionErased(keys: Keys, name: string)
    ensures IsSection(keys, name) <==> IsServer(EraseKeys(keys), McpServers, name)
    ensures IsSection(keys, name) ==> ServerAt(EraseKeys(keys), McpServers, name) == Toml.Erase(SectionAt(keys, name))
  {
  }

  lemma OnlyMcpServers(keys: Keys, path: TablePath, name: string)
    requires IsServer(EraseKeys(keys), path, name)
    ensures path == McpServers
  {
  }

  /** A TOML document is guarded when the JSON configuration it stands for is. */
  lemma GuardedErased(keys: Keys)
    ensures IsGuardedToml(keys) <==> IsGuarded(EraseKeys(keys))
  {
    var root := EraseKeys(keys);
    forall name
      ensures IsSection(keys, name) <==> IsServer(root, McpServers, name)
      ensures IsSection(keys, name) ==>
                && Toml.IsStdioIn(SectionAt(keys, name)) == IsStdio(ServerAt(root, McpServers, name))
                && Toml.ModeIn(SectionAt(keys, name)).Some? == IsWrapped(ServerAt(root, McpServers, name))
    {
      SectionErased(keys, name);
      if IsSection(keys, name) {
        Toml.ModeErased(SectionAt(keys, name));
      }
    }
    forall path, name | IsServer(root, path, name)
      ensures path == McpServers
    {
      OnlyMcpServers(keys, path, name);
    }
  }

  lemma ItemsModes(items: Items)
    ensures ModesOf(items, AsTableReading()) == ModesIn(Some(EraseItems(items)), AsReading())
    ensures AnyUnreadIn(items, AsTableReading()) <==> AnyUnread(Some(EraseItems(items)), AsReading())
  {
    var table := EraseItems(items);
    forall name | name in items && items[name].Section?
      ensures name in table && AsReading()(table[name]) == AsTableReading()(items[name].server)
    {
      WrapperModeErased(items[name].server);
    }
    forall name | name in table
      ensures name in items && items[name].Section?
    {
    }
  }

  lemma OtherTablesEmpty(keys: Keys)
    ensures TableAt(EraseKeys(keys), TablePath.Servers).None? && TableAt(EraseKeys(keys), McpDotServers).None?
    ensures TableAt(EraseKeys(keys), McpServers) ==
            if ItemsIn(keys).Some? then Some(EraseItems(ItemsIn(keys).value)) else None
  {
  }

  /** And reads in the same mode. */
  lemma GuardedModeErased(keys: Keys)
    ensures GuardedModeToml(keys) == GuardedMode(EraseKeys(keys))
  {
    OtherTablesEmpty(keys);
    if ItemsIn(keys).Some? {
      var items := ItemsIn(keys).value;
      ItemsModes(items);
      var modes := ModesOf(items, AsTableReading());
      assert modes + {} + {} == modes;
      assert Modes(EraseKeys(keys), AsReading()) == modes;
    } else {
      assert Modes(EraseKeys(keys), AsReading()) == {};
    }
  }

  /** No wrapper, or a wrapper that reads in one of these modes. */
  ghost function ReadAs(modes: set<WiringMode>): set<Option<Option<WiringMode>>> {
    {None} + (set mode | mode in modes :: Some(Some(mode)))
  }

  /** The mode of every wrapper in these tables, given up at the first that does
      not read. */
  method ReadItems(items: Items, f: TableReading) returns (found: Option<WiringMode>)
    requires forall s :: f(s) != Some(Some(Mixed))
    ensures found == if AnyUnreadIn(items, f) then None else Joined(ModesOf(items, f))
  {
    found := None;
    ghost var modes: set<WiringMode> := {};
    var pending := items.Keys;
    while pending != {}
      invariant pending <= items.Keys
      invariant forall name :: name in items && name !in pending && items[name].Section? ==>
                               f(items[name].server) in ReadAs(modes)
      invariant modes <= ModesOf(items, f) && modes <= {Monitor, Enforce} && found == Joined(modes)
    {
      var name :| name in pending;
      pending := pending - {name};
      if items[name].Section? {
        var mode := f(items[name].server);
        if mode == Some(None) {
          return None;
        }
        if mode.Some? {
          assert f(items[name].server) != Some(Some(Mixed)) && mode.value.value in ModesOf(items, f);
          assert mode.value.value == Monitor || mode.value.value == Enforce;
          JoinOne(modes, mode.value.value);
          modes := modes + {mode.value.value};
          found := if found.None? then mode.value else if found == mode.value then found else Some(Mixed);
        }
      }
    }
    AllItemsRead(items, f, modes);
  }

  lemma AllItemsRead(items: Items, f: TableReading, modes: set<WiringMode>)
    requires forall name :: name in items && items[name].Section? ==> f(items[name].server) in ReadAs(modes)
    requires modes <= ModesOf(items, f)
    ensures !AnyUnreadIn(items, f) && modes == ModesOf(items, f)
  {
  }

  method GuardedModeOf(keys: Keys) returns (found: Option<WiringMode>)
    ensures found == GuardedModeToml(keys)
  {
    if ItemsIn(keys).None? {
      return None;
    }
    found := ReadItems(ItemsIn(keys).value, AsTableReading());
  }

  // ------------------------------------------------------------- whole documents

  lemma Rewrapped(keys: Keys, guard: string, monitor: bool, agent: Option<string>, name: string)
    ensures IsSection(WrappedKeys(keys, guard, monitor, agent), name) <==> IsSection(keys, name)
    ensures IsSection(keys, name) ==>
              var after := WrappedKeys(keys, guard, monitor, agent);
              SectionAt(after, name) == Toml.WrapTable(SectionAt(keys, name), guard, monitor, agent).0
  {
  }

  /** After wrapping, the mode the document reads in is the one asked for or none. */
  lemma WrappedTomlReads(keys: Keys, guard: string, monitor: bool, agent: Option<string>)
    ensures GuardedModeToml(WrappedKeys(keys, guard, monitor, agent)) in {None, Some(Requested(monitor))}
  {
    GuardedModeErased(WrappedKeys(keys, guard, monitor, agent));
    WrapKeysSimulates(keys, guard, monitor, agent);
    WrappedReadsAsRequested(EraseKeys(keys), guard, monitor, agent);
  }

  /** Fresh tables, and wrappers that read and whose values do not look like
      modes, end guarded in the mode asked for. */
  lemma PlainTomlEndsGuarded(keys: Keys, guard: string, monitor: bool, agent: Option<string>)
    requires IsGuardCommand(guard) && AllPlain(EraseKeys(keys))
    requires exists name :: IsSection(keys, name) && Toml.IsStdioIn(SectionAt(keys, name))
    ensures IsGuardedToml(WrappedKeys(keys, guard, monitor, agent))
    ensures GuardedModeToml(WrappedKeys(keys, guard, monitor, agent)) == Some(Requested(monitor))
  {
    var name :| IsSection(keys, name) && Toml.IsStdioIn(SectionAt(keys, name));
    SectionErased(keys, name);
    Toml.ModeErased(SectionAt(keys, name));
    assert IsServer(EraseKeys(keys), McpServers, name);
    GuardedErased(WrappedKeys(keys, guard, monitor, agent));
    GuardedModeErased(WrappedKeys(keys, guard, monitor, agent));
    WrapKeysSimulates(keys, guard, monitor, agent);
    PlainConfigEndsGuarded(EraseKeys(keys), guard, monitor, agent);
  }

  ghost predicate AllSettle(keys: Keys, agent: Option<string>) {
    forall name :: IsSection(keys, name) ==> Settles(Toml.Erase(SectionAt(keys, name)), agent)
  }

  lemma SettleErased(keys: Keys, agent: Option<string>)
    ensures AllSettle(keys, agent) <==>
            forall path, name :: IsServer(EraseKeys(keys), path, name) ==>
            Settles(ServerAt(EraseKeys(keys), path, name), agent)
  {
    var root := EraseKeys(keys);
    forall name
      ensures IsSection(keys, name) <==> IsServer(root, McpServers, name)
      ensures IsSection(keys, name) ==> ServerAt(root, McpServers, name) == Toml.Erase(SectionAt(keys, name))
    {
      SectionErased(keys, name);
    }
    forall path, name | IsServer(root, path, name)
      ensures path == McpServers
    {
      OnlyMcpServers(keys, path, name);
    }
  }

  /** A document wrapped twice, modes equal or not, reads as wrapped afresh in the
      second, exactly when every server settles. */
  lemma SwitchingTomlModes(keys: Keys, guard: string, first: bool, second: bool, agent: Option<string>)
    requires IsGuardCommand(guard)
    ensures var twice := WrappedKeys(WrappedKeys(keys, guard, first, agent), guard, second, agent);
            EraseKeys(twice) == EraseKeys(WrappedKeys(keys, guard, second, agent)) <==> AllSettle(keys, agent)
  {
    WrapKeysSimulates(keys, guard, first, agent);
    WrapKeysSimulates(keys, guard, second, agent);
    WrapKeysSimulates(WrappedKeys(keys, guard, first, agent), guard, second, agent);
    SettleErased(keys, agent);
    SwitchingModes(EraseKeys(keys), guard, first, second, agent);
  }

  lemma UnchangedOnceWrapped(server: Toml.Server, guard: string, monitor: bool, agent: Option<string>)
    requires IsGuardCommand(guard)
    ensures !Toml.WrapTable(Toml.WrapTable(server, guard, monitor, agent).0, guard, monitor, agent).1 <==>
            Settles(Toml.Erase(server), agent)
  {
    var once := Toml.WrapTable(server, guard, monitor, agent).0;
    if Toml.PartsOf(server).Some? {
      Toml.SpacingDoesNotCount(server, once, guard, monitor, agent);
    } else {
      Toml.PartsErased(server);
    }
  }

  lemma NoneChangedExactly(keys: Keys, f: TableEdit)
    ensures ChangedKeys(keys, f) == 0 <==> forall name :: IsSection(keys, name) ==> !f(SectionAt(keys, name)).1
  {
    if ItemsIn(keys).Some? {
      var changed := ChangedItems(ItemsIn(keys).value, f);
      assert changed == {} <==> |changed| == 0;
      assert forall name :: name in changed <==> IsSection(keys, name) && f(SectionAt(keys, name)).1;
      if forall name :: IsSection(keys, name) ==> !f(SectionAt(keys, name)).1 {
        assert forall name :: name !in changed;
      }
    }
  }

  /** Wrapping a wrapped document again reports no change exactly when every
      server settles. */
  lemma WrappedTomlStays(keys: Keys, guard: string, monitor: bool, agent: Option<string>)
    requires IsGuardCommand(guard)
    ensures ChangedKeys(WrappedKeys(keys, guard, monitor, agent), WrappingTable(guard, monitor, agent)) == 0 <==>
            AllSettle(keys, agent)
  {
    var after, f := WrappedKeys(keys, guard, monitor, agent), WrappingTable(guard, monitor, agent);
    NoneChangedExactly(after, f);
    forall name
      ensures IsSection(after, name) <==> IsSection(keys, name)
      ensures IsSection(keys, name) ==>
                (!f(SectionAt(after, name)).1 <==> Settles(Toml.Erase(SectionAt(keys, name)), agent))
    {
      Rewrapped(keys, guard, monitor, agent, name);
      if IsSection(keys, name) {
        UnchangedOnceWrapped(SectionAt(keys, name), guard, monitor, agent);
      }
    }
  }

  function UnwrappedKeys(keys: Keys): Keys {
    EditedKeys(keys, UnwrappingTable())
  }

  /** What comes back of a table that is not a wrapper reads as before. */
  predicate ComesBack(server: Toml.Server) {
    Toml.PartsOf(server).Some? && "args" in server ==> server["args"].Array? && server["args"].entries != []
  }

  lemma TableComesBack(server: Toml.Server, guard: string, monitor: bool, agent: Option<string>)
    requires IsGuardCommand(guard) && Toml.SeparatorOf(server).None?
    ensures Toml.Erase(Toml.UnwrapTable(Toml.WrapTable(server, guard, monitor, agent).0).0) == Toml.Erase(server) <==>
            ComesBack(server)
  {
    if Toml.PartsOf(server).Some? {
      Toml.UnwrapGivesBack(server, guard, monitor, agent);
    }
  }

  lemma SameErased(a: Keys, b: Keys)
    requires ItemsIn(a).Some? == ItemsIn(b).Some? && forall name :: IsSection(a, name) <==> IsSection(b, name)
    ensures EraseKeys(a) == EraseKeys(b) <==>
            forall name :: IsSection(a, name) ==> Toml.Erase(SectionAt(a, name)) == Toml.Erase(SectionAt(b, name))
  {
    if ItemsIn(a).Some? {
      var x, y := EraseItems(ItemsIn(a).value), EraseItems(ItemsIn(b).value);
      assert forall name :: name in x <==> IsSection(a, name);
      assert forall name :: name in y <==> IsSection(b, name);
      assert EraseKeys(a) == EraseKeys(b) <==> x == y by {
        assert EraseKeys(a).fields["mcpServers"] == Obj(x) && EraseKeys(b).fields["mcpServers"] == Obj(y);
      }
      if forall name :: IsSection(a, name) ==> Toml.Erase(SectionAt(a, name)) == Toml.Erase(SectionAt(b, name)) {
        assert x == y;
      }
      if x == y {
        forall name | IsSection(a, name)
          ensures Toml.Erase(SectionAt(a, name)) == Toml.Erase(SectionAt(b, name))
        {
          assert x[name] == y[name];
        }
      }
    }
  }

  lemma WrappedBack(keys: Keys, guard: string, monitor: bool, agent: Option<string>, name: string)
    ensures var back := UnwrappedKeys(WrappedKeys(keys, guard, monitor, agent));
            && (IsSection(back, name) <==> IsSection(keys, name))
            && (IsSection(keys, name) ==>
                  SectionAt(back, name) ==
                  Toml.UnwrapTable(Toml.WrapTable(SectionAt(keys, name), guard, monitor, agent).0).0)
  {
    Rewrapped(keys, guard, monitor, agent, name);
  }

  /** A document without wrappers reads as before once wrapped and unwrapped,
      exactly when each table wiring touches has arguments in a list, or none. */
  lemma UnwrappingGivesTomlBack(keys: Keys, guard: string, monitor: bool, agent: Option<string>)
    requires IsGuardCommand(guard)
    requires forall name :: IsSection(keys, name) ==> Toml.SeparatorOf(SectionAt(keys, name)).None?
    ensures EraseKeys(UnwrappedKeys(WrappedKeys(keys, guard, monitor, agent))) == EraseKeys(keys) <==>
            forall name :: IsSection(keys, name) ==> ComesBack(SectionAt(keys, name))
  {
    var back := UnwrappedKeys(WrappedKeys(keys, guard, monitor, agent));
    forall name
      ensures IsSection(back, name) <==> IsSection(keys, name)
      ensures IsSection(keys, name) ==>
                (Toml.Erase(SectionAt(back, name)) == Toml.Erase(SectionAt(keys, name)) <==>
                 ComesBack(SectionAt(keys, name)))
    {
      WrappedBack(keys, guard, monitor, agent, name);
      if IsSection(keys, name) {
        TableComesBack(SectionAt(keys, name), guard, monitor, agent);
      }
    }
    SameErased(back, keys);
  }

  // ------------------------------------------------------------ the missing name

  predicate UnnamedIn(server: Toml.Server, agent: string) {
    Toml.SeparatorOf(server).Some? && ProxyAgent(Toml.Each(Toml.OptionsIn(server), Toml.ReadEntry)) != Some(agent)
  }

  ghost predicate SomeUnnamedToml(keys: Keys, agent: string) {
    exists name :: IsSection(keys, name) && UnnamedIn(SectionAt(keys, name), agent)
  }

  lemma UnnamedErased(keys: Keys, agent: string)
    ensures SomeUnnamedToml(keys, agent) <==> SomeUnnamed(EraseKeys(keys), agent)
  {
    var root := EraseKeys(keys);
    forall name
      ensures IsSection(keys, name) <==> IsServer(root, McpServers, name)
      ensures IsSection(keys, name) ==>
                (UnnamedIn(SectionAt(keys, name), agent) <==> Unnamed(ServerAt(root, McpServers, name), agent))
    {
      SectionErased(keys, name);
      if IsSection(keys, name) {
        Toml.ReadsErased(SectionAt(keys, name));
        Toml.OptionsErased(SectionAt(keys, name));
      }
    }
    forall path, name | IsServer(root, path, name)
      ensures path == McpServers
    {
      OnlyMcpServers(keys, path, name);
    }
  }

  /** As for JSON, but a change of form counts as a change too. */
  ghost function UnnamedReconnectToml(keys: Keys, guard: string, agent: string): Option<bool> {
    if !IsWrapperName(agent) || !IsGuardedToml(keys) then None
    else
      match GuardedModeToml(keys)
      case None => None
      case Some(Mixed) => None
      case Some(mode) =>
        var monitor := mode == Monitor;
        if SomeUnnamedToml(keys, agent) && ChangedKeys(keys, WrappingTable(guard, monitor, None)) == 0
        then Some(monitor) else None
  }

  lemma NothingChanges(keys: Keys, f: TableEdit, g: Json -> (Json, bool))
    requires forall s :: g(Toml.Erase(s)).1 ==> f(s).1
    requires ChangedKeys(keys, f) == 0
    ensures Changed(EraseKeys(keys), g) == 0
  {
    NoneChangedExactly(keys, f);
    OtherTablesEmpty(keys);
    if ItemsIn(keys).Some? {
      var table := EraseItems(ItemsIn(keys).value);
      forall name | name in table
        ensures !g(table[name]).1
      {
        assert IsSection(keys, name) && table[name] == Toml.Erase(SectionAt(keys, name));
      }
      assert (set name | name in table && g(table[name]).1) == {};
      assert ChangedIn(Some(table), g) == 0;
    }
  }

  /** What is offered for the document is offered for the JSON configuration it
      stands for. */
  lemma OfferedInJson(keys: Keys, guard: string, agent: string)
    ensures UnnamedReconnectToml(keys, guard, agent).Some? ==>
              UnnamedReconnect(EraseKeys(keys), guard, agent) == UnnamedReconnectToml(keys, guard, agent)
  {
    GuardedErased(keys);
    GuardedModeErased(keys);
    UnnamedErased(keys, agent);
    if UnnamedReconnectToml(keys, guard, agent).Some? {
      var monitor := UnnamedReconnectToml(keys, guard, agent).value;
      var f, g := WrappingTable(guard, monitor, None), Wrapping(guard, monitor, None);
      forall s
        ensures g(Toml.Erase(s)).1 ==> f(s).1
      {
        WrappingSimulates(guard, monitor, None, s);
      }
      NothingChanges(keys, f, g);
    }
  }

  /** Reconnecting as offered only names the agent, and leaves nothing to offer. */
  lemma TakingTheTomlOffer(keys: Keys, guard: string, agent: string)
    requires UnnamedReconnectToml(keys, guard, agent).Some?
    ensures var monitor := UnnamedReconnectToml(keys, guard, agent).value;
            var after := WrappedKeys(keys, guard, monitor, Some(agent));
            OnlyNames(EraseKeys(keys), EraseKeys(after), monitor, agent) &&
            UnnamedReconnectToml(after, guard, agent) == None
  {
    var monitor := UnnamedReconnectToml(keys, guard, agent).value;
    var after := WrappedKeys(keys, guard, monitor, Some(agent));
    OfferedInJson(keys, guard, agent);
    TakingTheOffer(EraseKeys(keys), guard, agent);
    WrapKeysSimulates(keys, guard, monitor, Some(agent));
    OfferedInJson(after, guard, agent);
  }
}
