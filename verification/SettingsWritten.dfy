/** What the merges put into a settings file, key by key, and the commands they
    take for ours, word by word. */
module SettingsWritten {
  import opened Options
  import opened Text
  import opened Json
  import opened HookCommand
  import opened HookEdits
  import opened HookSettings
  import opened HookMerges
  import opened HookRuns

  // -------------------------------------------------------- what is not ours

  function FieldOf(j: Json, key: string): Option<Json> {
    if j.Obj? && key in j.fields then Some(j.fields[key]) else None
  }

  lemma PutKeeps(settings: Json, event: string, entries: seq<Json>, key: string)
    ensures var after := PutEntries(settings, event, entries);
            && FieldOf(after, "hooks").Some?
            && (key != "hooks" ==> FieldOf(after, key) == FieldOf(settings, key))
            && FieldOf(FieldOf(after, "hooks").value, event) == Some(Arr(entries))
            && (key != event && FieldOf(settings, "hooks").Some? ==>
                  FieldOf(FieldOf(after, "hooks").value, key) == FieldOf(FieldOf(settings, "hooks").value, key))
            && (key != event && FieldOf(settings, "hooks").None? ==>
                  FieldOf(FieldOf(after, "hooks").value, key).None?)
  {
  }

  /** Setup changes the two lists of hooks it merges into, and no other key of
      the settings or of their hooks. */
  lemma OnlyTheHookLists(settings: Json, command: string, key: string)
    ensures var after := MergedAll(settings, command);
            && (key != "hooks" ==> FieldOf(after, key) == FieldOf(settings, key))
            && (key != "PreToolUse" && key != "PostToolUse" && FieldOf(settings, "hooks").Some? ==>
                  FieldOf(FieldOf(after, "hooks").value, key) == FieldOf(FieldOf(settings, "hooks").value, key))
  {
    var pre := BothEntries(EntriesAt(settings, "PreToolUse"), command);
    PutKeeps(settings, "PreToolUse", pre, key);
    var post := PostEntries(EntriesAt(settings, "PostToolUse"), command);
    PutKeeps(MergedPre(settings, command), "PostToolUse", post, key);
  }

  /** The entries an event has are those of the list at its key, and none where
      there is no list. */
  lemma EntriesByKey(settings: Json, event: string)
    ensures var hooks := FieldOf(settings, "hooks");
            EntriesAt(settings, event) ==
            if hooks.Some? && FieldOf(hooks.value, event).Some? && FieldOf(hooks.value, event).value.Arr?
            then FieldOf(hooks.value, event).value.items
            else []
  {
  }

  /** A hook is ours by the text of its command alone. */
  lemma HookByCommand(hook: Json, parts: Parts)
    ensures HookParts(hook) == Some(parts) <==>
            exists command :: FieldOf(hook, "command") == Some(Str(command)) && CommandParts(command) == Some(parts)
  {
    if HookParts(hook) == Some(parts) {
      assert FieldOf(hook, "command") == Some(Str(GetStr(hook, "command").value));
    }
  }

  // ------------------------------------------------------------ a first setup

  predicate IsHookFor(hook: Json, command: string) {
    && hook.Obj? && hook.fields.Keys == {"type", "command"}
    && hook.fields["type"] == Str("command") && hook.fields["command"] == Str(command)
  }

  predicate IsEntryFor(entry: Json, matcher: string, command: string) {
    && entry.Obj? && entry.fields.Keys == {"matcher", "hooks"}
    && entry.fields["matcher"] == Str(matcher)
    && entry.fields["hooks"].Arr? && |entry.fields["hooks"].items| == 1
    && IsHookFor(entry.fields["hooks"].items[0], command)
  }

  lemma NewEntryIs(matcher: string, command: string)
    ensures IsEntryFor(NewEntry(matcher, command), matcher, command)
  {
  }

  lemma NotForFiles(entry: Json, matcher: string, first: string)
    requires GetStr(entry, "matcher") == Some(matcher) && |matcher| > 1
    requires ExactSet(matcher) && first !in Split(matcher) && first in FileTools
    ensures !CoversFileTools(entry)
  {
    ExactCoverage(entry, matcher, Split(matcher), first);
  }

  lemma BashOnly(matcher: string, first: string)
    requires matcher == "Bash" && first == FileTools[0]
    ensures ExactSet(matcher) && first !in Split(matcher) && |matcher| == 4
  {
    SplitWhole(matcher, IsBar);
    assert matcher[0] == 'B' && first[0] == 'W';
  }

  lemma EditsNone(edit: Edit)
    ensures EditEntries([], edit, false) == ([], false)
  {
  }

  lemma EditsNoOther(entry: Json, edit: Edit)
    requires edit.kind(entry).None?
    ensures EditEntries([entry], edit, false) == ([entry], false)
  {
    EditsNone(edit);
    assert [entry][1..] == [] && [entry] + [] == [entry];
    assert EditEntry(entry, edit, false) == ([entry], false);
  }

  lemma BashNotFiles(entry: Json, matcher: string)
    requires GetStr(entry, "matcher") == Some(matcher) && |matcher| == 4
    ensures !IsFileTools(entry)
  {
  }

  lemma LoneEntry(bash: Json, matcher: string, first: string, command: string)
    requires GetStr(bash, "matcher") == Some(matcher) && |matcher| == 4
    requires ExactSet(matcher) && first !in Split(matcher) && first in FileTools
    ensures FileEntries([bash], command) == [bash, NewEntry(FileToolsMatcher, command)]
  {
    BashNotFiles(bash, matcher);
    NotForFiles(bash, matcher, first);
    EditsNoOther(bash, FileEdit(command));
    assert !Covered([bash], command);
  }

  lemma FirstBash(matcher: string, command: string)
    requires matcher == "Bash"
    ensures BashEntries([], command) == [NewEntry(matcher, command)]
  {
    EditsNone(BashEdit(command));
  }

  lemma NewMatcher(matcher: string, command: string)
    ensures GetStr(NewEntry(matcher, command), "matcher") == Some(matcher)
  {
  }

  lemma FirstEntries(command: string)
    ensures BothEntries([], command) == [NewEntry("Bash", command), NewEntry(FileToolsMatcher, command)]
  {
    var bash := NewEntry("Bash", command);
    FirstBash("Bash", command);
    NewMatcher("Bash", command);
    BashOnly("Bash", FileTools[0]);
    LoneEntry(bash, "Bash", FileTools[0], command);
  }

  lemma FirstPost(command: string)
    ensures PostEntries([], command) == [NewEntry("*", command)]
  {
    assert Stripped([], Ours()) == [];
  }

  lemma PutTwoLists(settings: Json, pre: seq<Json>, post: seq<Json>)
    requires settings.Obj? && "hooks" !in settings.fields
    ensures PutEntries(PutEntries(settings, "PreToolUse", pre), "PostToolUse", post) ==
            With(settings, "hooks", Obj(map["PreToolUse" := Arr(pre), "PostToolUse" := Arr(post)]))
  {
    var one := PutEntries(settings, "PreToolUse", pre);
    var hooks := one.fields["hooks"];
    assert hooks == Obj(map["PreToolUse" := Arr(pre)]);
    assert With(hooks, "PostToolUse", Arr(post)) == Obj(map["PreToolUse" := Arr(pre), "PostToolUse" := Arr(post)]);
  }

  predicate AreFirst(pre: seq<Json>, post: seq<Json>, command: string) {
    && |pre| == 2 && |post| == 1
    && IsEntryFor(pre[0], "Bash", command)
    && IsEntryFor(pre[1], "Write|Edit|MultiEdit|NotebookEdit", command)
    && IsEntryFor(post[0], "*", command)
  }

  lemma FirstLists(command: string)
    ensures AreFirst(BothEntries([], command), PostEntries([], command), command)
  {
    FirstEntries(command);
    FirstPost(command);
    NewEntryIs("Bash", command);
    NewEntryIs(FileToolsMatcher, command);
    NewEntryIs("*", command);
  }

  /** Settings that say nothing of hooks gain one entry for the shell, one for the
      file tools, and one after every tool. */
  lemma FirstSetup(settings: Json, command: string)
    requires settings.Obj? && "hooks" !in settings.fields
    ensures exists pre, post ::
              && AreFirst(pre, post, command)
              && MergedAll(settings, command) ==
                 With(settings, "hooks", Obj(map["PreToolUse" := Arr(pre), "PostToolUse" := Arr(post)]))
  {
    var pre, post := BothEntries([], command), PostEntries([], command);
    FirstLists(command);
    NoListsYet(settings);
    PutTwoLists(settings, pre, post);
  }

  lemma NoListsYet(settings: Json)
    requires settings.Obj? && "hooks" !in settings.fields
    ensures EntriesAt(settings, "PreToolUse") == [] && EntriesAt(settings, "PostToolUse") == []
  {
  }

  // ------------------------------------------------- the commands that are ours

  /** The flags a command of ours may have: a mode or none, then an agent or none. */
  predicate SpellsFlags(flags: seq<string>, parts: Parts) {
    var mode :=
      match parts.mode
      case Monitor => ["--monitor"]
      case Enforce => []
      case BlockReview => ["--block-review"];
    match parts.agent
    case None => flags == mode
    case Some(agent) => IsAgentId(agent) && flags == mode + ["--agent", agent]
  }

  lemma FlagsSplit(flags: seq<string>)
    ensures flags != [] ==> flags == [flags[0]] + flags[1..]
    ensures |flags| == 2 ==> flags == [flags[0], flags[1]]
  {
  }

  lemma ReadSpells(flags: seq<string>)
    requires FlagsRead(flags).Some?
    ensures SpellsFlags(flags, FlagsRead(flags).value)
  {
    FlagsSplit(flags);
    var rest := if FlagsRead(flags).value.mode == Enforce then flags else flags[1..];
    FlagsSplit(rest);
  }

  lemma SpellsRead(flags: seq<string>, parts: Parts)
    requires SpellsFlags(flags, parts)
    ensures FlagsRead(flags) == Some(parts)
  {
    FlagsReadBack(parts.mode, parts.agent);
    assert FlagWords(parts.mode, parts.agent) == flags;
  }

  /** A command is taken for ours exactly when its words are a program of ours,
      `hook`, and these flags; no word more, and none in another order. */
  lemma OursExactly(command: string, parts: Parts)
    ensures CommandParts(command) == Some(parts) <==>
            exists program, flags :: && IsInnerWarden(program) && SpellsFlags(flags, parts)
                                     && Words(Trim(command)) == Some([program, "hook"] + flags)
  {
    if CommandParts(command) == Some(parts) {
      var words := Words(Trim(command)).value;
      ReadSpells(words[2..]);
      assert words == [words[0], "hook"] + words[2..];
    }
    if program, flags :| && IsInnerWarden(program) && SpellsFlags(flags, parts)
                         && Words(Trim(command)) == Some([program, "hook"] + flags) {
      var words := [program, "hook"] + flags;
      assert words[2..] == flags;
      SpellsRead(flags, parts);
    }
  }
}
