/** The same wiring for servers kept in TOML, where a word has a written form
    and space around it, and how it simulates the wiring of JSON servers. */
module McpWireToml {
  import opened Options
  import opened Text
  import opened Json
  import opened ProxyOptions
  import opened OptionRewrites
  import opened OptionReadBack
  import opened McpWire
  import opened McpWiring

  /** A value and how it is written: `None` for a string in its default form.
      Two values print alike exactly when they are equal. */
  datatype Value = Text(s: string, form: Option<string>) | Other(raw: string)

  /** A value in its place, with the space and comments around it. */
  datatype Entry = Entry(value: Value, decor: string)

  datatype Item = Single(entry: Entry) | Array(entries: seq<Entry>) | Rest(text: string)

  type Server = map<string, Item>

  function Plain(s: string): Entry {
    Entry(Text(s, None), "")
  }

  // ------------------------------------------------------- lists, item by item

  function Each<A, B>(xs: seq<A>, f: A -> B): (r: seq<B>)
    ensures |r| == |xs|
  {
    if xs == [] then [] else [f(xs[0])] + Each(xs[1..], f)
  }

  function StripBy<A>(xs: seq<A>, read: A -> Json): seq<A> {
    if xs == [] then []
    else if KindOf(read(xs[0])) == Valued(Mode) then StripBy(xs[if |xs| < 2 then |xs| else 2..], read)
    else if SaysMode(read(xs[0])) then StripBy(xs[1..], read)
    else [xs[0]] + StripBy(xs[1..], read)
  }

  function KeptBy<A>(xs: seq<A>, drop: seq<nat>, at: nat): seq<A> {
    if xs == [] then []
    else (if at in drop then [] else [xs[0]]) + KeptBy(xs[1..], drop, at + 1)
  }

  function Made<A>(words: seq<Json>, make: string -> A): seq<A> {
    if words == [] then [] else [make(TextOf(words[0]))] + Made(words[1..], make)
  }

  /** The arguments of a wrapper, from its old options, over any kind of word. */
  function Rebuilt<A>(options: seq<A>, child: string, rest: seq<A>, read: A -> Json, make: string -> A,
                      monitor: bool, agent: Option<string>): seq<A> {
    var kept := StripBy(options, read);
    var naming := NamingOf(Each(kept, read), agent);
    [make("proxy")] + KeptBy(kept, naming.drop, 0) + Made(naming.add, make) +
    [make("--mode"), make(ModeName(monitor)), make("--"), make(child)] + rest
  }

  // -------------------------------------------------------------- forgetting

  function ReadValue(v: Value): Json {
    if v.Text? then Str(v.s) else Number(v.raw)
  }

  function ReadEntry(e: Entry): Json {
    ReadValue(e.value)
  }

  function ValueOf(e: Entry): Value {
    e.value
  }

  function Forget(item: Item): Json {
    match item
    case Single(entry) => ReadEntry(entry)
    case Array(entries) => Arr(Each(entries, ReadEntry))
    case Rest(text) => Number(text)
  }

  /** A server with its forms and spaces forgotten. */
  function Erase(server: Server): Json {
    Obj(map key | key in server :: Forget(server[key]))
  }

  /** The words of a list, however they are spaced. */
  function Words(entries: seq<Entry>): seq<Value> {
    Each(entries, ValueOf)
  }

  // ---------------------------------------------------------- reading a server

  function CommandIn(server: Server): Option<string> {
    if "command" in server && server["command"].Single? && server["command"].entry.value.Text?
    then Some(server["command"].entry.value.s) else None
  }

  function ArgsIn(server: Server): seq<Entry> {
    if "args" in server && server["args"].Array? then server["args"].entries else []
  }

  predicate Says(entry: Entry, word: string) {
    entry.value.Text? && entry.value.s == word
  }

  predicate HasProxyPrefixIn(server: Server) {
    && CommandIn(server).Some? && IsGuardCommand(CommandIn(server).value)
    && ArgsIn(server) != [] && Says(ArgsIn(server)[0], "proxy")
  }

  function FirstSeparator(entries: seq<Entry>): (r: Option<nat>)
    ensures r.Some? ==> r.value < |entries| && Says(entries[r.value], "--")
  {
    if entries == [] then None
    else if Says(entries[0], "--") then Some(0)
    else
      match FirstSeparator(entries[1..])
      case Some(i) => Some(i + 1)
      case None => None
  }

  function SeparatorOf(server: Server): (r: Option<nat>)
    ensures r.Some? ==> 1 <= r.value < |ArgsIn(server)|
  {
    if HasProxyPrefixIn(server) then FirstSeparator(ArgsIn(server)) else None
  }

  predicate IsStdioIn(server: Server) {
    CommandIn(server).Some? && !IsBlank(CommandIn(server).value)
  }

  /** The options of a wrapper; none for a table that is not one. */
  function OptionsIn(server: Server): seq<Entry> {
    match SeparatorOf(server)
    case None => []
    case Some(i) => ArgsIn(server)[1..i]
  }

  /** The mode a complete wrapper's proxy runs in. */
  function ModeIn(server: Server): Option<WiringMode> {
    match SeparatorOf(server)
    case None => None
    case Some(i) =>
      if i + 1 >= |ArgsIn(server)| || !ArgsIn(server)[i + 1].value.Text? ||
         IsBlank(ArgsIn(server)[i + 1].value.s) then None
      else
        match WrapperBlocks(Each(OptionsIn(server), ReadEntry))
        case None => None
        case Some(blocks) => Some(if blocks then Enforce else Monitor)
  }

  // --------------------------------------------------------- rewriting a server

  function ChildText(entry: Entry): string {
    if entry.value.Text? then entry.value.s else ""
  }

  /** What a server runs, behind the proxy or not, and the options it gives the
      proxy. */
  datatype Parts = Parts(options: seq<Entry>, child: string, rest: seq<Entry>)

  /** `None` for a server wiring leaves alone. */
  function PartsOf(server: Server): Option<Parts> {
    var args := ArgsIn(server);
    if CommandIn(server).None? || IsBlank(CommandIn(server).value) then None
    else
      match SeparatorOf(server)
      case None =>
        if HasProxyPrefixIn(server) then None else Some(Parts([], CommandIn(server).value, args))
      case Some(i) =>
        if |args| <= i + 1 || ChildText(args[i + 1]) == "" then None
        else Some(Parts(args[1..i], ChildText(args[i + 1]), args[i + 2..]))
  }

  function NewArgs(parts: Parts, monitor: bool, agent: Option<string>): seq<Entry> {
    Rebuilt(parts.options, parts.child, parts.rest, ReadEntry, Plain, monitor, agent)
  }

  function WrapTable(server: Server, guard: string, monitor: bool, agent: Option<string>): (Server, bool) {
    match PartsOf(server)
    case None => (server, false)
    case Some(parts) =>
      var args := NewArgs(parts, monitor, agent);
      if CommandIn(server) == Some(guard) && Words(ArgsIn(server)) == Words(args) then (server, false)
      else (server["command" := Single(Plain(guard))]["args" := Array(args)], true)
  }

  /** An empty list of arguments is not written. */
  function UnwrapTable(server: Server): (Server, bool) {
    match SeparatorOf(server)
    case None => (server, false)
    case Some(i) =>
      var args := ArgsIn(server);
      if |args| <= i + 1 then (server, false)
      else
        var restored := server["command" := Single(Plain(ChildText(args[i + 1])))];
        (if args[i + 2..] == [] then restored - {"args"} else restored["args" := Array(args[i + 2..])], true)
  }

  // ------------------------------------------------------------ over any words

  /** `f` changes how words are held and not how they read. */
  ghost predicate Alike<A(!new), B(!new)>(f: A -> B, read: A -> Json, read': B -> Json) {
    forall x :: read'(f(x)) == read(x)
  }

  lemma {:induction false} EachAppend<A, B>(a: seq<A>, b: seq<A>, f: A -> B)
    ensures Each(a + b, f) == Each(a, f) + Each(b, f)
  {
    if a == [] {
      assert a + b == b;
    } else {
      assert (a + b)[0] == a[0] && (a + b)[1..] == a[1..] + b;
      EachAppend(a[1..], b, f);
    }
  }

  lemma {:induction false} EachAt<A, B>(xs: seq<A>, f: A -> B, i: nat)
    requires i < |xs|
    ensures Each(xs, f)[i] == f(xs[i])
  {
    if i > 0 {
      EachAt(xs[1..], f, i - 1);
    }
  }

  lemma EachAll<A, B>(xs: seq<A>, f: A -> B)
    ensures forall i :: 0 <= i < |xs| ==> Each(xs, f)[i] == f(xs[i])
  {
    forall i | 0 <= i < |xs|
      ensures Each(xs, f)[i] == f(xs[i])
    {
      EachAt(xs, f, i);
    }
  }

  lemma EachDrop<A, B>(xs: seq<A>, f: A -> B, i: nat)
    requires i <= |xs|
    ensures Each(xs[i..], f) == Each(xs, f)[i..] && Each(xs[..i], f) == Each(xs, f)[..i]
  {
    assert xs == xs[..i] + xs[i..];
    EachAppend(xs[..i], xs[i..], f);
  }

  lemma EachSlice<A, B>(xs: seq<A>, f: A -> B, i: nat, j: nat)
    requires i <= j <= |xs|
    ensures Each(xs[i..j], f) == Each(xs, f)[i..j] && Each(xs[i..], f) == Each(xs, f)[i..]
  {
    EachDrop(xs, f, i);
    EachDrop(xs, f, j);
    EachDrop(xs[..j], f, i);
    assert xs[..j][i..] == xs[i..j];
  }

  lemma EachRead<A(!new), B(!new)>(xs: seq<A>, f: A -> B, read: A -> Json, read': B -> Json)
    requires Alike(f, read, read')
    ensures Each(Each(xs, f), read') == Each(xs, read)
  {
    EachAll(xs, f);
    EachAll(xs, read);
    EachAll(Each(xs, f), read');
  }

  lemma {:induction false} StripEach<A(!new), B(!new)>(xs: seq<A>, f: A -> B, read: A -> Json, read': B -> Json)
    requires Alike(f, read, read')
    ensures Each(StripBy(xs, read), f) == StripBy(Each(xs, f), read')
  {
    if xs != [] {
      assert Each(xs, f)[1..] == Each(xs[1..], f);
      if KindOf(read(xs[0])) == Valued(Mode) {
        var k := if |xs| < 2 then |xs| else 2;
        assert Each(xs, f)[k..] == Each(xs[k..], f);
        StripEach(xs[k..], f, read, read');
      } else {
        StripEach(xs[1..], f, read, read');
        if !SaysMode(read(xs[0])) {
          EachAppend([xs[0]], StripBy(xs[1..], read), f);
        }
      }
    }
  }

  lemma {:induction false} KeptEach<A, B>(xs: seq<A>, f: A -> B, drop: seq<nat>, at: nat)
    ensures Each(KeptBy(xs, drop, at), f) == KeptBy(Each(xs, f), drop, at)
  {
    if xs != [] {
      assert Each(xs, f)[1..] == Each(xs[1..], f);
      KeptEach(xs[1..], f, drop, at + 1);
      EachAppend(if at in drop then [] else [xs[0]], KeptBy(xs[1..], drop, at + 1), f);
    }
  }

  /** Rebuilding commutes with holding words another way. */
  lemma RebuiltEach<A(!new), B(!new)>(options: seq<A>, child: string, rest: seq<A>, f: A -> B, read: A -> Json,
                      make: string -> A,
                                      read': B -> Json, make': string -> B, monitor: bool, agent: Option<string>)
    requires Alike(f, read, read') && forall s :: make'(s) == f(make(s))
    ensures Each(Rebuilt(options, child, rest, read, make, monitor, agent), f) ==
            Rebuilt(Each(options, f), child, Each(rest, f), read', make', monitor, agent)
  {
    var kept := StripBy(options, read);
    StripEach(options, f, read, read');
    EachRead(kept, f, read, read');
    var naming := NamingOf(Each(kept, read), agent);
    KeptEach(kept, f, naming.drop, 0);
    MadeEach(naming.add, f, make, make');
    var k, a := KeptBy(kept, naming.drop, 0), Made(naming.add, make);
    var head, tail := [make("proxy")], [make("--mode"), make(ModeName(monitor)), make("--"), make(child)];
    EachFive(head, k, a, tail, rest, f);
    assert Each(head, f) == [make'("proxy")];
    FourEach(f, make, make', "--mode", ModeName(monitor), "--", child);
  }

  lemma FourEach<A(!new), B(!new)>(f: A -> B, make: string -> A, make': string -> B, p: string, q: string, r: string,
                   t: string)
    requires forall s :: make'(s) == f(make(s))
    ensures Each([make(p), make(q), make(r), make(t)], f) == [make'(p), make'(q), make'(r), make'(t)]
  {
    EachAll([make(p), make(q), make(r), make(t)], f);
  }

  lemma {:induction false} MadeEach<A(!new), B(!new)>(words: seq<Json>, f: A -> B, make: string -> A,
                                      make': string -> B)
    requires forall s :: make'(s) == f(make(s))
    ensures Each(Made(words, make), f) == Made(words, make')
  {
    if words != [] {
      MadeEach(words[1..], f, make, make');
      EachAppend([make(TextOf(words[0]))], Made(words[1..], make), f);
    }
  }

  lemma EachFive<A, B>(a: seq<A>, b: seq<A>, c: seq<A>, d: seq<A>, e: seq<A>, f: A -> B)
    ensures Each(a + b + c + d + e, f) == Each(a, f) + Each(b, f) + Each(c, f) + Each(d, f) + Each(e, f)
  {
    EachAppend(a + b + c + d, e, f);
    EachAppend(a + b + c, d, f);
    EachAppend(a + b, c, f);
    EachAppend(a, b, f);
  }

  // -------------------------------------------------------- simulating the JSON

  function Itself(j: Json): Json {
    j
  }

  function AsWord(s: string): Json {
    Str(s)
  }

  lemma {:induction false} StripIsWithoutMode(options: seq<Json>)
    ensures StripBy(options, Itself) == WithoutMode(options)
  {
    if options != [] {
      StripIsWithoutMode(options[1..]);
      if KindOf(options[0]) == Valued(Mode) {
        StripIsWithoutMode(options[if |options| < 2 then |options| else 2..]);
      }
    }
  }

  lemma {:induction false} KeptIsKept(words: seq<Json>, drop: seq<nat>, at: nat)
    ensures KeptBy(words, drop, at) == Kept(words, drop, at)
  {
    if words != [] {
      KeptIsKept(words[1..], drop, at + 1);
    }
  }

  lemma {:induction false} MadeOfWords(words: seq<Json>)
    requires forall w :: w in words ==> w.Str?
    ensures Made(words, AsWord) == words
  {
    if words != [] {
      assert words == [words[0]] + words[1..] && words[0].Str?;
      MadeOfWords(words[1..]);
    }
  }

  lemma {:induction false} EachItself(words: seq<Json>)
    ensures Each(words, Itself) == words
  {
    EachAll(words, Itself);
  }

  lemma Laid(kept: seq<Json>, added: seq<Json>, mode: string, child: string, rest: seq<Json>)
    ensures [Str("proxy")] + kept + added + [Str("--mode"), Str(mode), Str("--"), Str(child)] + rest ==
            [Str("proxy")] + (kept + added + [Str("--mode"), Str(mode)]) + [Str("--"), Str(child)] + rest
  {
  }

  lemma AddedAreWords(options: seq<Json>, agent: Option<string>)
    ensures forall w :: w in NamingOf(options, agent).add ==> w.Str?
  {
  }

  lemma RebuiltJson(options: seq<Json>, child: string, rest: seq<Json>, monitor: bool, agent: Option<string>)
    ensures Rebuilt(options, child, rest, Itself, AsWord, monitor, agent) ==
            WrappedArgs(Named(WithoutMode(options), agent) + ModeUnit(monitor), child, rest)
  {
    var kept := WithoutMode(options);
    StripIsWithoutMode(options);
    EachItself(kept);
    var naming := NamingOf(kept, agent);
    KeptIsKept(kept, naming.drop, 0);
    AddedAreWords(kept, agent);
    MadeOfWords(naming.add);
    Laid(Kept(kept, naming.drop, 0), naming.add, ModeName(monitor), child, rest);
  }

  lemma CommandErased(server: Server)
    ensures Command(Erase(server)) == CommandIn(server)
  {
  }

  lemma ArgsErased(server: Server)
    ensures Args(Erase(server)) == Each(ArgsIn(server), ReadEntry)
  {
  }

  lemma {:induction false} SeparatorErased(entries: seq<Entry>)
    ensures SeparatorIn(Each(entries, ReadEntry)) == FirstSeparator(entries)
  {
    if entries != [] {
      assert Each(entries, ReadEntry)[1..] == Each(entries[1..], ReadEntry);
      SeparatorErased(entries[1..]);
    }
  }

  lemma ReadsErased(server: Server)
    ensures HasProxyPrefix(Erase(server)) == HasProxyPrefixIn(server)
    ensures WrapperSeparator(Erase(server)) == SeparatorOf(server)
  {
    CommandErased(server);
    ArgsErased(server);
    SeparatorErased(ArgsIn(server));
  }

  lemma RebuiltErased(options: seq<Entry>, child: string, rest: seq<Entry>, monitor: bool, agent: Option<string>)
    ensures Each(Rebuilt(options, child, rest, ReadEntry, Plain, monitor, agent), ReadEntry) ==
            WrappedArgs(Named(WithoutMode(Each(options, ReadEntry)), agent) +
                        ModeUnit(monitor), child, Each(rest, ReadEntry))
  {
    RebuiltEach(options, child, rest, ReadEntry, ReadEntry, Plain, Itself, AsWord, monitor, agent);
    RebuiltJson(Each(options, ReadEntry), child, Each(rest, ReadEntry), monitor, agent);
  }

  lemma ChildErased(server: Server, i: nat)
    requires i < |ArgsIn(server)|
    ensures |Args(Erase(server))| == |ArgsIn(server)|
    ensures TextOf(Args(Erase(server))[i]) == ChildText(ArgsIn(server)[i])
  {
    ArgsErased(server);
    EachAt(ArgsIn(server), ReadEntry, i);
  }

  lemma PartsOfWrapper(server: Server, i: nat)
    requires PartsOf(server).Some? && SeparatorOf(server) == Some(i)
    ensures var parts := PartsOf(server).value;
            PlanFor(Erase(server)) ==
            Some(Plan(WithoutMode(Each(parts.options, ReadEntry)), parts.child, Each(parts.rest, ReadEntry)))
  {
    var args := ArgsIn(server);
    CommandErased(server);
    ArgsErased(server);
    ReadsErased(server);
    ChildErased(server, i + 1);
    EachSlice(args, ReadEntry, 1, i);
    EachSlice(args, ReadEntry, i + 2, |args|);
  }

  lemma PartsOfFresh(server: Server)
    requires PartsOf(server).Some? && SeparatorOf(server).None?
    ensures var parts := PartsOf(server).value;
            PlanFor(Erase(server)) ==
            Some(Plan(WithoutMode(Each(parts.options, ReadEntry)), parts.child, Each(parts.rest, ReadEntry)))
  {
    CommandErased(server);
    ArgsErased(server);
    ReadsErased(server);
    assert WithoutMode([]) == [] && Each([], ReadEntry) == [];
  }

  /** The two readings of a server agree. */
  lemma PartsErased(server: Server)
    ensures PartsOf(server).Some? <==> PlanFor(Erase(server)).Some?
    ensures PartsOf(server).Some? ==>
              var parts := PartsOf(server).value;
              PlanFor(Erase(server)) ==
              Some(Plan(WithoutMode(Each(parts.options, ReadEntry)), parts.child, Each(parts.rest, ReadEntry)))
  {
    if PartsOf(server).Some? {
      if SeparatorOf(server).Some? {
        PartsOfWrapper(server, SeparatorOf(server).value);
      } else {
        PartsOfFresh(server);
      }
    } else {
      NoPartsErased(server);
    }
  }

  lemma NoPartsErased(server: Server)
    requires PartsOf(server).None?
    ensures PlanFor(Erase(server)).None?
  {
    CommandErased(server);
    ArgsErased(server);
    ReadsErased(server);
    if SeparatorOf(server).Some? && SeparatorOf(server).value + 1 < |ArgsIn(server)| {
      ChildErased(server, SeparatorOf(server).value + 1);
    }
  }

  lemma NewArgsErased(server: Server, monitor: bool, agent: Option<string>)
    requires PartsOf(server).Some?
    ensures PlanFor(Erase(server)).Some?
    ensures Each(NewArgs(PartsOf(server).value, monitor, agent), ReadEntry) == Rewritten(Erase(server), monitor, agent)
  {
    var parts := PartsOf(server).value;
    PartsErased(server);
    RebuiltErased(parts.options, parts.child, parts.rest, monitor, agent);
  }

  lemma EraseWritten(server: Server, command: string, args: seq<Entry>)
    ensures Erase(server["command" := Single(Plain(command))]["args" := Array(args)]) ==
            Runs(Erase(server), command, Each(args, ReadEntry))
  {
    var after := server["command" := Single(Plain(command))]["args" := Array(args)];
    assert Erase(after).fields == Runs(Erase(server), command, Each(args, ReadEntry)).fields;
  }

  lemma SameWordsRead(a: seq<Entry>, b: seq<Entry>)
    requires Words(a) == Words(b)
    ensures Each(a, ReadEntry) == Each(b, ReadEntry)
  {
    EachRead(a, ValueOf, ReadEntry, ReadValue);
    EachRead(b, ValueOf, ReadEntry, ReadValue);
  }

  lemma Unchanged(server: Server, guard: string, args: seq<Entry>, monitor: bool, agent: Option<string>)
    requires PlanFor(Erase(server)).Some? && Each(args, ReadEntry) == Rewritten(Erase(server), monitor, agent)
    ensures WrapServer(Erase(server), guard, monitor, agent).0 == Runs(Erase(server), guard, Each(args, ReadEntry))
    ensures CommandIn(server) == Some(guard) && Words(ArgsIn(server)) == Words(args) ==>
              WrapServer(Erase(server), guard, monitor, agent) == (Erase(server), false)
  {
    CommandErased(server);
    ArgsErased(server);
    WrapIsRuns(Erase(server), guard, monitor, agent);
    if Words(ArgsIn(server)) == Words(args) {
      SameWordsRead(ArgsIn(server), args);
    }
  }

  /** Wrapping a TOML server and forgetting is forgetting and wrapping a JSON
      one; and where the JSON wiring reports a change, so does this. */
  lemma WrapSimulates(server: Server, guard: string, monitor: bool, agent: Option<string>)
    ensures Erase(WrapTable(server, guard, monitor, agent).0) == WrapServer(Erase(server), guard, monitor, agent).0
    ensures WrapServer(Erase(server), guard, monitor, agent).1 ==> WrapTable(server, guard, monitor, agent).1
  {
    PartsErased(server);
    if PartsOf(server).Some? {
      var args := NewArgs(PartsOf(server).value, monitor, agent);
      NewArgsErased(server, monitor, agent);
      EraseWritten(server, guard, args);
      Unchanged(server, guard, args, monitor, agent);
    }
  }

  // ------------------------------------------------------------ wrapping twice

  lemma StripFirst<A(!new)>(first: A, rest: seq<A>, read: A -> Json)
    requires !SaysMode(read(first))
    ensures StripBy([first] + rest, read) == [first] + StripBy(rest, read)
  {
    assert ([first] + rest)[1..] == rest;
  }

  lemma {:induction false} StripKeeps<A(!new)>(a: seq<A>, b: seq<A>, read: A -> Json)
    requires Modeless(Each(a, read))
    ensures StripBy(a + b, read) == a + StripBy(b, read)
  {
    if a == [] {
      assert a + b == b;
    } else {
      assert !SaysMode(Each(a, read)[0]);
      assert Each(a, read)[1..] == Each(a[1..], read);
      StripKeeps(a[1..], b, read);
      assert a + b == [a[0]] + (a[1..] + b);
      StripFirst(a[0], a[1..] + b, read);
      assert [a[0]] + (a[1..] + StripBy(b, read)) == a + StripBy(b, read);
    }
  }

  lemma {:induction false} KeptWhole<A>(xs: seq<A>, at: nat)
    ensures KeptBy(xs, [], at) == xs
  {
    if xs != [] {
      KeptWhole(xs[1..], at + 1);
      assert xs == [xs[0]] + xs[1..];
    }
  }

  /** What stands between `proxy` and the mode. */
  function NamedBy<A>(kept: seq<A>, read: A -> Json, make: string -> A, agent: Option<string>): seq<A> {
    var naming := NamingOf(Each(kept, read), agent);
    KeptBy(kept, naming.drop, 0) + Made(naming.add, make)
  }

  lemma NamedByReads(kept: seq<Value>, agent: Option<string>)
    ensures Each(NamedBy(kept, ReadValue, PlainValue, agent), ReadValue) == Named(Each(kept, ReadValue), agent)
  {
    var words := Each(kept, ReadValue);
    var naming := NamingOf(words, agent);
    EachAppend(KeptBy(kept, naming.drop, 0), Made(naming.add, PlainValue), ReadValue);
    KeptEach(kept, ReadValue, naming.drop, 0);
    KeptIsKept(words, naming.drop, 0);
    MadeEach(naming.add, ReadValue, PlainValue, AsWord);
    AddedAreWords(words, agent);
    MadeOfWords(naming.add);
  }

  function PlainValue(s: string): Value {
    Text(s, None)
  }

  /** Naming named words again, form by form, changes nothing exactly when the
      name is not lost. */
  lemma NamedByTwice(kept: seq<Value>, agent: Option<string>)
    requires Modeless(Each(kept, ReadValue))
    ensures var named := NamedBy(kept, ReadValue, PlainValue, agent);
            NamedBy(named, ReadValue, PlainValue, agent) == named <==> !LosesItsName(Each(kept, ReadValue), agent)
  {
    var named := NamedBy(kept, ReadValue, PlainValue, agent);
    var words := Each(kept, ReadValue);
    NamedByReads(kept, agent);
    if LosesItsName(words, agent) {
      NamedByReads(named, agent);
      NamingTwice(words, agent);
    } else {
      NamingSettled(words, agent);
      KeptWhole(named, 0);
      assert named + [] == named;
    }
  }

  /** Stripped of the mode wiring put there, the named words are as they were. */
  lemma RebuiltAgain(named: seq<Value>, child: string, rest: seq<Value>, monitor: bool, agent: Option<string>)
    requires Modeless(Each(named, ReadValue))
    ensures Rebuilt(named +
                    [PlainValue("--mode"), PlainValue(ModeName(monitor))], child, rest, ReadValue, PlainValue, monitor,
                    agent) ==
            LaidOutWords(NamedBy(named, ReadValue, PlainValue, agent), child, rest, monitor)
  {
    var mode := [PlainValue("--mode"), PlainValue(ModeName(monitor))];
    StripKeeps(named, mode, ReadValue);
    StripsItself(mode, monitor);
    assert named + [] == named;
    var naming := NamingOf(Each(named, ReadValue), agent);
    JoinTwo([PlainValue("proxy")], KeptBy(named, naming.drop, 0), Made(naming.add, PlainValue));
  }

  lemma JoinTwo(a: seq<Value>, b: seq<Value>, c: seq<Value>)
    ensures a + b + c == a + (b + c)
  {
  }

  lemma StripsItself(mode: seq<Value>, monitor: bool)
    requires mode == [PlainValue("--mode"), PlainValue(ModeName(monitor))]
    ensures StripBy(mode, ReadValue) == []
  {
    assert mode[2..] == [];
  }

  /** The words of the new arguments, held as values. */
  lemma NewWords(parts: Parts, monitor: bool, agent: Option<string>)
    ensures Words(NewArgs(parts, monitor, agent)) ==
            Rebuilt(Words(parts.options), parts.child, Words(parts.rest), ReadValue, PlainValue, monitor, agent)
  {
    RebuiltEach(parts.options, parts.child, parts.rest, ValueOf, ReadEntry, Plain, ReadValue, PlainValue, monitor,
                agent);
  }

  /** How the words of a wrapper are laid out. */
  function LaidOutWords(named: seq<Value>, child: string, rest: seq<Value>, monitor: bool): seq<Value> {
    [PlainValue("proxy")] + named +
    [PlainValue("--mode"), PlainValue(ModeName(monitor)), PlainValue("--"), PlainValue(child)] + rest
  }

  lemma SeparatorLaidOut(server: Server, named: seq<Value>, child: string, rest: seq<Value>, monitor: bool)
    requires CommandIn(server).Some? && IsGuardCommand(CommandIn(server).value)
    requires Words(ArgsIn(server)) == LaidOutWords(named, child, rest, monitor)
    requires Str("--") !in Each(named, ReadValue) + ModeUnit(monitor)
    ensures SeparatorOf(server) == Some(|named| + 3)
  {
    CommandErased(server);
    ArgsErased(server);
    ReadsErased(server);
    EachRead(ArgsIn(server), ValueOf, ReadEntry, ReadValue);
    LaidOutReads(named, child, rest, monitor);
    WrapperReads(Erase(server), Each(named, ReadValue) + ModeUnit(monitor), child, Each(rest, ReadValue));
  }

  /** Reading back a wrapper laid out as wiring lays it out. */
  lemma PartsOfLaidOut(server: Server, named: seq<Value>, child: string, rest: seq<Value>, monitor: bool)
    requires CommandIn(server).Some? && IsGuardCommand(CommandIn(server).value)
    requires Words(ArgsIn(server)) == LaidOutWords(named, child, rest, monitor)
    requires Str("--") !in Each(named, ReadValue) + ModeUnit(monitor) && child != ""
    ensures PartsOf(server).Some?
    ensures var parts := PartsOf(server).value;
            && Words(parts.options) == named + [PlainValue("--mode"), PlainValue(ModeName(monitor))]
            && parts.child == child && Words(parts.rest) == rest
  {
    SeparatorLaidOut(server, named, child, rest, monitor);
    LaidOutSlices(named, child, rest, monitor);
    PartsAt(server, |named| + 3);
  }

  lemma PartsAt(server: Server, i: nat)
    requires CommandIn(server).Some? && IsGuardCommand(CommandIn(server).value) && SeparatorOf(server) == Some(i)
    requires var words := Words(ArgsIn(server)); i + 1 < |words| && words[i + 1].Text? && words[i + 1].s != ""
    ensures PartsOf(server).Some?
    ensures var words, parts := Words(ArgsIn(server)), PartsOf(server).value;
            Words(parts.options) == words[1..i] && parts.child == words[i + 1].s && Words(parts.rest) == words[i + 2..]
  {
    var args := ArgsIn(server);
    GuardNotBlank(CommandIn(server).value);
    EachAt(args, ValueOf, i + 1);
    EachSlice(args, ValueOf, 1, i);
    EachSlice(args, ValueOf, i + 2, |args|);
  }

  lemma LaidOutSlices(named: seq<Value>, child: string, rest: seq<Value>, monitor: bool)
    ensures var words, i := LaidOutWords(named, child, rest, monitor), |named| + 3;
            && i + 1 < |words| && words[i + 1] == PlainValue(child)
            && words[1..i] == named + [PlainValue("--mode"), PlainValue(ModeName(monitor))] && words[i + 2..] == rest
  {
  }

  lemma LaidOutReads(named: seq<Value>, child: string, rest: seq<Value>, monitor: bool)
    ensures Each(LaidOutWords(named, child, rest, monitor), ReadValue) ==
            WrappedArgs(Each(named, ReadValue) + ModeUnit(monitor), child, Each(rest, ReadValue))
  {
    var mode := [PlainValue("--mode"), PlainValue(ModeName(monitor)), PlainValue("--"), PlainValue(child)];
    EachAppend([PlainValue("proxy")] + named + mode, rest, ReadValue);
    EachAppend([PlainValue("proxy")] + named, mode, ReadValue);
    EachAppend([PlainValue("proxy")], named, ReadValue);
    FourEach(ReadValue, PlainValue, AsWord, "--mode", ModeName(monitor), "--", child);
    Laid(Each(named, ReadValue), [], ModeName(monitor), child, Each(rest, ReadValue));
    assert [Str("proxy")] + Each(named, ReadValue) + [] == [Str("proxy")] + Each(named, ReadValue);
    assert Each(named, ReadValue) + [] == Each(named, ReadValue);
  }

  lemma LaidOutOnce(a: seq<Value>, b: seq<Value>, child: string, rest: seq<Value>, monitor: bool)
    requires LaidOutWords(a, child, rest, monitor) == LaidOutWords(b, child, rest, monitor)
    ensures a == b
  {
    var x, y := LaidOutWords(a, child, rest, monitor), LaidOutWords(b, child, rest, monitor);
    assert |a| == |b|;
    assert x[1..|a| + 1] == a && y[1..|b| + 1] == b;
  }

  lemma ReportsChange(server: Server, guard: string, monitor: bool, agent: Option<string>)
    requires CommandIn(server) == Some(guard) && PartsOf(server).Some?
    ensures !WrapTable(server, guard, monitor, agent).1 <==>
            Words(ArgsIn(server)) == Words(NewArgs(PartsOf(server).value, monitor, agent))
  {
  }

  lemma RewrapLaidOut(server: Server, named: seq<Value>, child: string, rest: seq<Value>, guard: string,
                      monitor: bool, agent: Option<string>)
    requires CommandIn(server) == Some(guard) && IsGuardCommand(guard) && Modeless(Each(named, ReadValue))
    requires Words(ArgsIn(server)) == LaidOutWords(named, child, rest, monitor)
    requires Str("--") !in Each(named, ReadValue) + ModeUnit(monitor) && child != ""
    ensures !WrapTable(server, guard, monitor, agent).1 <==> NamedBy(named, ReadValue, PlainValue, agent) == named
  {
    var again := NamedBy(named, ReadValue, PlainValue, agent);
    PartsOfLaidOut(server, named, child, rest, monitor);
    var parts := PartsOf(server).value;
    NewWords(parts, monitor, agent);
    RebuiltAgain(named, child, rest, monitor, agent);
    ReportsChange(server, guard, monitor, agent);
    if LaidOutWords(again, child, rest, monitor) == LaidOutWords(named, child, rest, monitor) {
      LaidOutOnce(again, named, child, rest, monitor);
    }
  }

  /** What the kept words of a server are, held as values. */
  lemma KeptWords(server: Server)
    requires PartsOf(server).Some?
    ensures PlanFor(Erase(server)).Some?
    ensures Each(StripBy(Words(PartsOf(server).value.options), ReadValue), ReadValue) ==
            PlanFor(Erase(server)).value.kept
  {
    var parts := PartsOf(server).value;
    PartsErased(server);
    StripEach(Words(parts.options), ReadValue, ReadValue, Itself);
    EachRead(parts.options, ValueOf, ReadEntry, ReadValue);
    StripIsWithoutMode(Each(parts.options, ReadEntry));
  }

  lemma WordsWritten(server: Server, guard: string, monitor: bool, agent: Option<string>)
    requires PartsOf(server).Some?
    ensures var parts := PartsOf(server).value;
            var named := NamedBy(StripBy(Words(parts.options), ReadValue), ReadValue, PlainValue, agent);
            Words(ArgsIn(WrapTable(server, guard, monitor, agent).0)) ==
            LaidOutWords(named, parts.child, Words(parts.rest), monitor)
  {
    var parts := PartsOf(server).value;
    NewWords(parts, monitor, agent);
    var kept := StripBy(Words(parts.options), ReadValue);
    var naming := NamingOf(Each(kept, ReadValue), agent);
    JoinTwo([PlainValue("proxy")], KeptBy(kept, naming.drop, 0), Made(naming.add, PlainValue));
  }

  /** Wrapping a wrapped table again, however its words are now spaced, reports a
      change exactly when the server does not settle. */
  lemma SpacingDoesNotCount(server: Server, respaced: Server, guard: string, monitor: bool, agent: Option<string>)
    requires IsGuardCommand(guard) && PartsOf(server).Some?
    requires CommandIn(respaced) == Some(guard)
    requires Words(ArgsIn(respaced)) == Words(ArgsIn(WrapTable(server, guard, monitor, agent).0))
    ensures !WrapTable(respaced, guard, monitor, agent).1 <==> Settles(Erase(server), agent)
  {
    var parts := PartsOf(server).value;
    var kept := StripBy(Words(parts.options), ReadValue);
    var named := NamedBy(kept, ReadValue, PlainValue, agent);
    KeptWords(server);
    WordsWritten(server, guard, monitor, agent);
    PlanNoSeparator(Erase(server), agent, monitor);
    NamedByReads(kept, agent);
    KeptModeless(Each(kept, ReadValue), agent);
    NamedByTwice(kept, agent);
    assert parts.child != "" by { PartsHaveChild(server); }
    RewrapLaidOut(respaced, named, parts.child, Words(parts.rest), guard, monitor, agent);
  }

  lemma PartsHaveChild(server: Server)
    requires PartsOf(server).Some?
    ensures PartsOf(server).value.child != ""
  {
  }

  // ---------------------------------------------------------------- unwrapping

  /** A JSON server without an empty list of arguments. */
  function WithoutEmptyArgs(server: Json): Json {
    if Get(server, "args") == Some(Arr([])) then Obj(server.fields - {"args"}) else server
  }

  /** Unwrapping a TOML server and forgetting is forgetting and unwrapping a JSON
      one, less an empty list of arguments. */
  lemma UnwrapSimulates(server: Server)
    ensures UnwrapTable(server).1 == UnwrapServer(Erase(server)).1
    ensures Erase(UnwrapTable(server).0) ==
            (if UnwrapTable(server).1 then WithoutEmptyArgs(UnwrapServer(Erase(server)).0) else Erase(server))
  {
    CommandErased(server);
    ArgsErased(server);
    ReadsErased(server);
    if UnwrapTable(server).1 {
      UnwrapJson(server, SeparatorOf(server).value);
      EraseUnwritten(server, ChildText(ArgsIn(server)[SeparatorOf(server).value + 1]),
                     ArgsIn(server)[SeparatorOf(server).value + 2..]);
    }
  }

  lemma UnwrapJson(server: Server, i: nat)
    requires SeparatorOf(server) == Some(i) && i + 1 < |ArgsIn(server)|
    ensures UnwrapServer(Erase(server)) ==
            (Runs(Erase(server), ChildText(ArgsIn(server)[i + 1]), Each(ArgsIn(server)[i + 2..], ReadEntry)), true)
  {
    var args := ArgsIn(server);
    ArgsErased(server);
    ReadsErased(server);
    EachSlice(args, ReadEntry, i + 2, |args|);
    ChildErased(server, i + 1);
  }

  lemma EraseUnwritten(server: Server, child: string, rest: seq<Entry>)
    ensures var restored := server["command" := Single(Plain(child))];
            Erase(if rest == [] then restored - {"args"} else restored["args" := Array(rest)]) ==
            WithoutEmptyArgs(Runs(Erase(server), child, Each(rest, ReadEntry)))
  {
    var restored := server["command" := Single(Plain(child))];
    var back := WithoutEmptyArgs(Runs(Erase(server), child, Each(rest, ReadEntry)));
    if rest == [] {
      assert Erase(restored - {"args"}).fields == back.fields;
    } else {
      assert Erase(restored["args" := Array(rest)]).fields == back.fields;
    }
  }

  lemma WrappedChild(server: Server, guard: string, monitor: bool, agent: Option<string>)
    requires IsGuardCommand(guard) && PartsOf(server).Some?
    ensures var once, parts := WrapTable(server, guard, monitor, agent).0, PartsOf(server).value;
            && SeparatorOf(once).Some?
            && |ArgsIn(once)| == SeparatorOf(once).value + 2 + |parts.rest|
            && ChildText(ArgsIn(once)[SeparatorOf(once).value + 1]) == parts.child
  {
    var once := WrapTable(server, guard, monitor, agent).0;
    WrappedTail(server, once, guard, monitor, agent);
    ReadsErased(once);
    ArgsErased(once);
    ChildErased(once, SeparatorOf(once).value + 1);
  }

  lemma WrappedParts(server: Server, guard: string, monitor: bool, agent: Option<string>)
    requires IsGuardCommand(guard) && PartsOf(server).Some?
    ensures var once, parts := WrapTable(server, guard, monitor, agent).0, PartsOf(server).value;
            && SeparatorOf(once).Some? && SeparatorOf(once).value + 1 < |ArgsIn(once)|
            && ChildText(ArgsIn(once)[SeparatorOf(once).value + 1]) == parts.child
            && (WrapTable(server, guard, monitor, agent).1 ==>
                ArgsIn(once)[SeparatorOf(once).value + 2..] == parts.rest)
  {
    WrappedChild(server, guard, monitor, agent);
    if WrapTable(server, guard, monitor, agent).1 {
      var once := WrapTable(server, guard, monitor, agent).0;
      WrittenArgs(server, guard, monitor, agent);
      RestOfNew(PartsOf(server).value, monitor, agent, SeparatorOf(once).value);
    }
  }

  lemma WrittenArgs(server: Server, guard: string, monitor: bool, agent: Option<string>)
    requires PartsOf(server).Some? && WrapTable(server, guard, monitor, agent).1
    ensures ArgsIn(WrapTable(server, guard, monitor, agent).0) == NewArgs(PartsOf(server).value, monitor, agent)
  {
  }

  lemma RestOfNew(parts: Parts, monitor: bool, agent: Option<string>, i: nat)
    requires |NewArgs(parts, monitor, agent)| == i + 2 + |parts.rest|
    ensures NewArgs(parts, monitor, agent)[i + 2..] == parts.rest
  {
  }

  lemma WrappedTail(server: Server, once: Server, guard: string, monitor: bool, agent: Option<string>)
    requires IsGuardCommand(guard) && PartsOf(server).Some? && once == WrapTable(server, guard, monitor, agent).0
    ensures WrapperSeparator(Erase(once)).Some?
    ensures var i, parts := WrapperSeparator(Erase(once)).value, PartsOf(server).value;
            && i + 1 < |Args(Erase(once))| == i + 2 + |parts.rest| && Args(Erase(once))[i + 1] == Str(parts.child)
  {
    WrapSimulates(server, guard, monitor, agent);
    PartsErased(server);
    WrappedServer(Erase(server), guard, monitor, agent);
    var plan := PlanFor(Erase(server)).value;
    var options := Named(plan.kept, agent) + ModeUnit(monitor);
    assert Args(Erase(once)) == WrappedArgs(options, plan.child, plan.rest);
    WrappedArgsAt(options, plan.child, plan.rest);
  }

  lemma WrappedArgsAt(options: seq<Json>, child: string, rest: seq<Json>)
    ensures var args, i := WrappedArgs(options, child, rest), |options| + 1;
            i + 1 < |args| == i + 2 + |rest| && args[i + 1] == Str(child)
  {
  }

  /** Unwrapping gives a server that was not wrapped its arguments back as they
      were written, and every other key but the command's form; it reads as
      before exactly when it had arguments in a list, or none. */
  lemma UnwrapGivesBack(server: Server, guard: string, monitor: bool, agent: Option<string>)
    requires IsGuardCommand(guard) && SeparatorOf(server).None? && PartsOf(server).Some?
    ensures var back := UnwrapTable(WrapTable(server, guard, monitor, agent).0).0;
            && ArgsIn(back) == ArgsIn(server) && CommandIn(back) == CommandIn(server)
            && (forall key :: key != "command" && key != "args" ==>
                  (key in back <==> key in server) && (key in server ==> back[key] == server[key]))
            && (Erase(back) == Erase(server) <==>
                ("args" in server ==> server["args"].Array? && server["args"].entries != []))
  {
    var once := WrapTable(server, guard, monitor, agent).0;
    WrappedParts(server, guard, monitor, agent);
    FreshChanges(server, guard, monitor, agent);
    UnwrapIs(once, SeparatorOf(once).value);
    assert PartsOf(server).value == Parts([], CommandIn(server).value, ArgsIn(server));
    BackErased(server, UnwrapTable(once).0);
  }

  lemma UnwrapIs(server: Server, i: nat)
    requires SeparatorOf(server) == Some(i) && i + 1 < |ArgsIn(server)|
    ensures var back, child, rest := UnwrapTable(server).0, ChildText(ArgsIn(server)[i + 1]), ArgsIn(server)[i + 2..];
            && "command" in back && back["command"] == Single(Plain(child)) && CommandIn(back) == Some(child)
            && (if rest == [] then "args" !in back else "args" in back && back["args"] == Array(rest))
            && ArgsIn(back) == rest
            && forall key :: key != "command" && key != "args" ==>
                 (key in back <==> key in server) && (key in server ==> back[key] == server[key])
  {
  }

  lemma FreshChanges(server: Server, guard: string, monitor: bool, agent: Option<string>)
    requires IsGuardCommand(guard) && SeparatorOf(server).None? && PartsOf(server).Some?
    ensures WrapTable(server, guard, monitor, agent).1
  {
    WrapSimulates(server, guard, monitor, agent);
    PartsErased(server);
    ReadsErased(server);
    WrappedServer(Erase(server), guard, monitor, agent);
  }

  lemma BackErased(server: Server, back: Server)
    requires CommandIn(server).Some? && CommandIn(back) == CommandIn(server)
    requires "command" in back && back["command"] == Single(Plain(CommandIn(server).value))
    requires forall key :: key != "command" && key != "args" ==>
             (key in back <==> key in server) && (key in server ==> back[key] == server[key])
    requires if ArgsIn(server) == [] then "args" !in back else "args" in back && back["args"] == Array(ArgsIn(server))
    ensures Erase(back) == Erase(server) <==>
            ("args" in server ==> server["args"].Array? && server["args"].entries != [])
  {
    var keep := "args" in server ==> server["args"].Array? && server["args"].entries != [];
    if keep {
      assert Erase(back).fields == Erase(server).fields;
    } else {
      assert "args" in Erase(server).fields;
      assert "args" !in Erase(back).fields;
    }
  }

  // --------------------------------------------------------- the readers agree

  lemma OptionsErased(server: Server)
    ensures WrapperOptions(Erase(server)) == Each(OptionsIn(server), ReadEntry)
  {
    ReadsErased(server);
    ArgsErased(server);
    if SeparatorOf(server).Some? {
      EachSlice(ArgsIn(server), ReadEntry, 1, SeparatorOf(server).value);
    }
  }

  lemma EntryErased(server: Server, i: nat)
    requires i < |ArgsIn(server)|
    ensures i < |Args(Erase(server))|
    ensures Args(Erase(server))[i] == ReadEntry(ArgsIn(server)[i])
  {
    ArgsErased(server);
    EachAt(ArgsIn(server), ReadEntry, i);
  }

  /** A table reads as stdio, and in a mode, as the JSON server it stands for. */
  lemma ModeErased(server: Server)
    ensures ModeIn(server) == ServerMode(Erase(server))
    ensures IsStdioIn(server) == IsStdio(Erase(server))
  {
    CommandErased(server);
    ReadsErased(server);
    OptionsErased(server);
    ArgsErased(server);
    if SeparatorOf(server).Some? && SeparatorOf(server).value + 1 < |ArgsIn(server)| {
      EntryErased(server, SeparatorOf(server).value + 1);
    }
  }

  /** Unwrapping after wrapping is unwrapping alone for a wrapper, and gives a
      fresh server back, less an empty list of arguments. */
  lemma UnwrapRestores(server: Server, guard: string, monitor: bool, agent: Option<string>)
    requires IsGuardCommand(guard)
    ensures Erase(UnwrapTable(WrapTable(server, guard, monitor, agent).0).0) ==
            if PartsOf(server).Some? then WithoutEmptyArgs(Restored(Erase(server)))
            else Erase(UnwrapTable(server).0)
  {
    var once := WrapTable(server, guard, monitor, agent).0;
    if PartsOf(server).Some? {
      WrapSimulates(server, guard, monitor, agent);
      UnwrapSimulates(once);
      UnwrapAfterWrap(Erase(server), guard, monitor, agent);
      WrappedChild(server, guard, monitor, agent);
    }
  }
}
