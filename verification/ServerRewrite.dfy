/** One server rewritten in place, word by word, in either representation. */
module ServerRewrite {
  import opened Options
  import opened Text
  import opened Json
  import opened ProxyOptions
  import opened OptionRewrites
  import opened OptionReadBack
  import opened McpWire
  import Toml = McpWireToml

  method NamingFor(options: seq<Word>, agent: Option<string>) returns (naming: Naming)
    ensures naming == NamingOf(options, agent)
  {
    if agent.None? || !IsWrapperName(agent.value) {
      return Naming([], []);
    }
    var walk := WalkOptions(options);
    naming := Naming([], []);
    if !walk.labelled {
      naming := naming.(add := [Str("--label"), Str(agent.value)]);
    }
    if walk.agent != Some(Some(agent.value)) || walk.agentFlags > 1 {
      naming := Naming(walk.agentWords, naming.add + [Str("--agent"), Str(agent.value)]);
    }
  }

  /** The words of a prefix but the dropped ones; the first always stays, and
      positions count from the second. */
  method KeepWords<A>(prefix: seq<A>, drop: seq<nat>) returns (words: seq<A>)
    requires prefix != []
    ensures words == [prefix[0]] + Toml.KeptBy(prefix[1..], drop, 0)
  {
    words := [prefix[0]];
    var i := 1;
    assert prefix[1..] == prefix[i..];
    while i < |prefix|
      invariant 1 <= i <= |prefix|
      invariant words + Toml.KeptBy(prefix[i..], drop, i - 1) == [prefix[0]] + Toml.KeptBy(prefix[1..], drop, 0)
    {
      ghost var rest := Toml.KeptBy(prefix[i + 1..], drop, i);
      assert prefix[i..][0] == prefix[i] && prefix[i..][1..] == prefix[i + 1..];
      if i - 1 !in drop {
        assert words + ([prefix[i]] + rest) == words + [prefix[i]] + rest;
        words := words + [prefix[i]];
      } else {
        assert [] + rest == rest;
      }
      i := i + 1;
    }
    assert words + [] == words;
  }

  lemma Assembled(kept: seq<Json>, add: seq<Json>, monitor: bool, child: string, rest: seq<Json>)
    ensures [Str("proxy")] + kept + add + [Str("--mode"), Str(ModeName(monitor)), Str("--"), Str(child)] + rest ==
            WrappedArgs(kept + add + ModeUnit(monitor), child, rest)
  {
    Toml.Laid(kept, add, ModeName(monitor), child, rest);
  }

  lemma NothingToStrip()
    ensures WithoutMode([]) == []
  {
  }

  /** The arguments written for a server, from `proxy` and the options kept. */
  method NewWords(prefix: seq<Json>, monitor: bool, agent: Option<string>, child: string, rest: seq<Json>,
                  ghost kept: seq<Json>) returns (words: seq<Json>)
    requires prefix == [Str("proxy")] + kept
    ensures words == WrappedArgs(Named(kept, agent) + ModeUnit(monitor), child, rest)
  {
    assert prefix[1..] == kept;
    var naming := NamingFor(prefix[1..], agent);
    words := KeepWords(prefix, naming.drop);
    Toml.KeptIsKept(kept, naming.drop, 0);
    Assembled(Kept(kept, naming.drop, 0), naming.add, monitor, child, rest);
    words := words + naming.add + [Str("--mode"), Str(ModeName(monitor)), Str("--"), Str(child)] + rest;
  }

  /** A JSON server as wiring edits it. */
  class ServerEntry {
    var value: Json

    constructor (value: Json)
      ensures this.value == value
    {
      this.value := value;
    }

    /** Puts the server behind the proxy; it says whether anything changed. */
    method Wrap(guard: string, monitor: bool, agent: Option<string>) returns (changed: bool)
      modifies this
      ensures (value, changed) == WrapServer(old(value), guard, monitor, agent)
    {
      if !IsStdio(value) {
        return false;
      }
      var args, separator := Args(value), WrapperSeparator(value);
      if separator.None? && HasProxyPrefix(value) {
        return false;
      }
      var child, rest, prefix := Command(value).value, args, [Str("proxy")];
      if separator.Some? {
        if |args| <= separator.value + 1 {
          return false;
        }
        child, rest := TextOf(args[separator.value + 1]), args[separator.value + 2..];
        prefix := ProxyPrefixWithoutMode(args, separator.value);
      }
      NothingToStrip();
      if child == "" {
        return false;
      }
      var words := NewWords(prefix, monitor, agent, child, rest, PlanFor(value).value.kept);
      if Command(value) == Some(guard) && args == words {
        return false;
      }
      value := Runs(value, guard, words);
      changed := true;
    }

    method Unwrap() returns (changed: bool)
      modifies this
      ensures (value, changed) == UnwrapServer(old(value))
    {
      var args, separator := Args(value), WrapperSeparator(value);
      if separator.None? || |args| <= separator.value + 1 {
        return false;
      }
      value := Runs(value, TextOf(args[separator.value + 1]), args[separator.value + 2..]);
      changed := true;
    }
  }

  /** The words of a TOML prefix without the mode, `proxy` in front. */
  method PrefixWithoutMode(args: seq<Toml.Entry>, separator: nat) returns (prefix: seq<Toml.Entry>)
    requires 1 <= separator <= |args|
    ensures prefix == [Toml.Plain("proxy")] + Toml.StripBy(args[1..separator], Toml.ReadEntry)
  {
    prefix := [Toml.Plain("proxy")];
    ghost var whole := Toml.StripBy(args[1..separator], Toml.ReadEntry);
    var i := 1;
    while i < separator
      invariant 1 <= i <= separator
      invariant prefix + Toml.StripBy(args[i..separator], Toml.ReadEntry) == [Toml.Plain("proxy")] + whole
    {
      ghost var rest := args[i..separator];
      assert rest[0] == args[i] && rest[1..] == args[i + 1..separator];
      if KindOf(Toml.ReadEntry(args[i])) == Valued(Mode) {
        assert |rest| >= 2 ==> rest[2..] == args[i + 2..separator];
        i := if i + 2 < separator then i + 2 else separator;
      } else if SaysMode(Toml.ReadEntry(args[i])) {
        i := i + 1;
      } else {
        prefix := prefix + [args[i]];
        i := i + 1;
      }
    }
    assert args[separator..separator] == [];
  }

  method PushAll(words: seq<Json>) returns (entries: seq<Toml.Entry>)
    ensures entries == Toml.Made(words, Toml.Plain)
  {
    entries := [];
    assert words[0..] == words;
    for i := 0 to |words|
      invariant entries + Toml.Made(words[i..], Toml.Plain) == Toml.Made(words, Toml.Plain)
    {
      assert words[i..][0] == words[i] && words[i..][1..] == words[i + 1..];
      entries := entries + [Toml.Plain(TextOf(words[i]))];
    }
    assert entries + [] == entries;
  }

  method ReadAll(entries: seq<Toml.Entry>) returns (words: seq<Json>)
    ensures words == Toml.Each(entries, Toml.ReadEntry)
  {
    words := [];
    assert entries[0..] == entries;
    for i := 0 to |entries|
      invariant words + Toml.Each(entries[i..], Toml.ReadEntry) == Toml.Each(entries, Toml.ReadEntry)
    {
      assert entries[i..][0] == entries[i] && entries[i..][1..] == entries[i + 1..];
      words := words + [Toml.ReadEntry(entries[i])];
    }
    assert words + [] == words;
  }

  /** A TOML server table as wiring edits it. */
  class ServerTable {
    var fields: Toml.Server

    constructor (fields: Toml.Server)
      ensures this.fields == fields
    {
      this.fields := fields;
    }

    method Wrap(guard: string, monitor: bool, agent: Option<string>) returns (changed: bool)
      modifies this
      ensures (fields, changed) == Toml.WrapTable(old(fields), guard, monitor, agent)
    {
      var command, args, separator := Toml.CommandIn(fields), Toml.ArgsIn(fields), Toml.SeparatorOf(fields);
      if command.None? || IsBlank(command.value) || (separator.None? && Toml.HasProxyPrefixIn(fields)) {
        return false;
      }
      var child, rest, prefix := command.value, args, [Toml.Plain("proxy")];
      if separator.Some? {
        if |args| <= separator.value + 1 {
          return false;
        }
        child, rest := Toml.ChildText(args[separator.value + 1]), args[separator.value + 2..];
        prefix := PrefixWithoutMode(args, separator.value);
      }
      if child == "" {
        return false;
      }
      ghost var parts := Toml.PartsOf(fields).value;
      ghost var kept := Toml.StripBy(parts.options, Toml.ReadEntry);
      assert prefix == [Toml.Plain("proxy")] + kept && prefix[1..] == kept;
      var options := ReadAll(prefix[1..]);
      var naming := NamingFor(options, agent);
      var words := KeepWords(prefix, naming.drop);
      var added := PushAll(naming.add);
      words := words + added +
        [Toml.Plain("--mode"), Toml.Plain(ModeName(monitor)), Toml.Plain("--"), Toml.Plain(child)] + rest;
      assert words == Toml.NewArgs(parts, monitor, agent);
      if command == Some(guard) && Toml.Words(args) == Toml.Words(words) {
        return false;
      }
      fields := fields["command" := Toml.Single(Toml.Plain(guard))]["args" := Toml.Array(words)];
      changed := true;
    }

    /** An empty list of arguments is removed rather than written. */
    method Unwrap() returns (changed: bool)
      modifies this
      ensures (fields, changed) == Toml.UnwrapTable(old(fields))
    {
      var args, separator := Toml.ArgsIn(fields), Toml.SeparatorOf(fields);
      if separator.None? || |args| <= separator.value + 1 {
        return false;
      }
      var rest := args[separator.value + 2..];
      fields := fields["command" := Toml.Single(Toml.Plain(Toml.ChildText(args[separator.value + 1])))];
      if rest == [] {
        fields := fields - {"args"};
      } else {
        fields := fields["args" := Toml.Array(rest)];
      }
      changed := true;
    }
  }
}
