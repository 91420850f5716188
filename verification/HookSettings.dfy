/** The guard's own hooks in a Claude Code settings file: which tools a matcher
    sends to them, and the merges that install them. */
module HookSettings {
  import opened Options
  import opened Text
  import opened Json
  import opened HookCommand
  import opened HookEdits

  // --------------------------------------------------------------- matchers

  datatype Coverage = Includes | Excludes | Ambiguous

  predicate IsBar(c: char) {
    c == '|'
  }

  function Split(s: string): (parts: seq<string>)
    ensures |parts| >= 1
  {
    SplitAt(s, IsBar)
  }

  predicate ExactSetChar(c: char) {
    'a' <= c <= 'z' || 'A' <= c <= 'Z' || '0' <= c <= '9' || c == '_' || c == '-' || c == '|'
  }

  predicate ExactSet(matcher: string) {
    (forall i :: 0 <= i < |matcher| ==> ExactSetChar(matcher[i])) && "" !in Split(matcher)
  }

  /** Whether a matcher certainly sends this tool to its hooks, certainly does
      not, or could do either. */
  function ToolCoverage(entry: Json, tool: string): Coverage {
    match Get(entry, "matcher")
    case None => Includes
    case Some(matcher) =>
      if !matcher.Str? then Ambiguous
      else if matcher.s == "" || matcher.s == "*" then Includes
      else if !ExactSet(matcher.s) then Ambiguous
      else if tool in Split(matcher.s) then Includes
      else Excludes
  }

  const FileTools: seq<string> := ["Write", "Edit", "MultiEdit", "NotebookEdit"]
  const FileToolsMatcher: string := "Write|Edit|MultiEdit|NotebookEdit"

  predicate IsFileTools(entry: Json) {
    GetStr(entry, "matcher") == Some(FileToolsMatcher)
  }

  predicate CoversFileTools(entry: Json) {
    forall tool :: tool in FileTools ==> ToolCoverage(entry, tool) == Includes
  }

  lemma {:induction false} SplitFirst(word: string, rest: string)
    requires '|' !in word
    ensures Split(word + "|" + rest) == [word] + Split(rest)
  {
    var s := word + "|" + rest;
    if word == "" {
      assert s[1..] == rest;
    } else {
      assert s[1..] == word[1..] + "|" + rest && s[0] == word[0];
      assert word[0] in word;
      SplitFirst(word[1..], rest);
      assert ([word[1..]] + Split(rest))[1..] == Split(rest);
      assert [word[0]] + word[1..] == word;
    }
  }

  predicate PlainWord(word: string) {
    word != "" && forall i :: 0 <= i < |word| ==> ExactSetChar(word[i]) && word[i] != '|'
  }

  /** The words of an exact set, put back together. */
  function Bars(words: seq<string>): string
    requires words != []
  {
    if |words| == 1 then words[0] else words[0] + "|" + Bars(words[1..])
  }

  lemma {:induction false} BarsSplit(words: seq<string>)
    requires words != [] && forall w :: w in words ==> PlainWord(w)
    ensures ExactSet(Bars(words)) && Split(Bars(words)) == words
  {
    assert PlainWord(words[0]);
    assert '|' !in words[0];
    if |words| == 1 {
      SplitWhole(words[0], IsBar);
      assert words == [words[0]];
    } else {
      BarsSplit(words[1..]);
      SplitFirst(words[0], Bars(words[1..]));
      assert words == [words[0]] + words[1..];
    }
  }

  lemma BarsFirst(word: string, words: seq<string>)
    requires words != []
    ensures Bars([word] + words) == word + "|" + Bars(words)
  {
    assert ([word] + words)[1..] == words;
  }

  lemma LastTwo()
    ensures Bars(["MultiEdit", "NotebookEdit"]) == "MultiEdit|NotebookEdit"
  {
    BarsFirst("MultiEdit", ["NotebookEdit"]);
    assert ["MultiEdit"] + ["NotebookEdit"] == ["MultiEdit", "NotebookEdit"];
    assert "MultiEdit" + "|" + "NotebookEdit" == "MultiEdit|NotebookEdit";
  }

  lemma LastThree()
    ensures Bars(["Edit", "MultiEdit", "NotebookEdit"]) == "Edit|MultiEdit|NotebookEdit"
  {
    LastTwo();
    BarsFirst("Edit", ["MultiEdit", "NotebookEdit"]);
    assert ["Edit"] + ["MultiEdit", "NotebookEdit"] == ["Edit", "MultiEdit", "NotebookEdit"];
    assert "Edit" + "|" + "MultiEdit|NotebookEdit" == "Edit|MultiEdit|NotebookEdit";
  }

  lemma FileToolsBars()
    ensures Bars(FileTools) == FileToolsMatcher
  {
    LastThree();
    var tools := ["Edit", "MultiEdit", "NotebookEdit"];
    assert FileTools == ["Write"] + tools;
    BarsFirst("Write", tools);
    FileToolsJoin();
  }

  lemma FileToolsJoin()
    ensures "Write" + "|" + "Edit|MultiEdit|NotebookEdit" == FileToolsMatcher
  {
  }

  lemma FileToolsPlain(tool: string)
    requires tool in FileTools
    ensures PlainWord(tool) && tool != "Bash"
  {
    if tool == "Edit" {
      assert tool[0] == 'E';
    }
    assert |"Write"| == 5 && |"MultiEdit"| == 9 && |"NotebookEdit"| == 12;
  }

  ghost predicate PlainTools(tools: seq<string>, other: string) {
    tools != [] && other !in tools && forall tool :: tool in tools ==> PlainWord(tool)
  }

  lemma FileToolsArePlain()
    ensures PlainTools(FileTools, "Bash") && |FileToolsMatcher| > 1
  {
    forall tool | tool in FileTools
      ensures PlainWord(tool) && tool != "Bash"
    {
      FileToolsPlain(tool);
    }
  }

  /** The file-tools matcher covers each file tool, and never Bash. */
  lemma FileToolsCover(entry: Json)
    requires IsFileTools(entry)
    ensures CoversFileTools(entry) && ToolCoverage(entry, "Bash") == Excludes
  {
    FileToolsBars();
    FileToolsArePlain();
    BarsCover(entry, FileToolsMatcher, FileTools, "Bash");
  }

  lemma BarsCover(entry: Json, matcher: string, tools: seq<string>, other: string)
    requires PlainTools(tools, other)
    requires Bars(tools) == matcher && |matcher| > 1 && GetStr(entry, "matcher") == Some(matcher)
    ensures forall tool :: tool in tools ==> ToolCoverage(entry, tool) == Includes
    ensures ToolCoverage(entry, other) == Excludes
  {
    BarsSplit(tools);
    forall tool: string
      ensures ToolCoverage(entry, tool) == if tool in tools then Includes else Excludes
    {
      ExactCoverage(entry, matcher, tools, tool);
    }
  }

  lemma ExactCoverage(entry: Json, matcher: string, tools: seq<string>, tool: string)
    requires GetStr(entry, "matcher") == Some(matcher) && |matcher| > 1
    requires ExactSet(matcher) && Split(matcher) == tools
    ensures ToolCoverage(entry, tool) == if tool in tools then Includes else Excludes
  {
  }

  // ------------------------------------------------------------------- hooks

  function HookParts(hook: Json): Option<Parts> {
    match GetStr(hook, "command")
    case None => None
    case Some(command) => CommandParts(command)
  }

  function Ours(): Json -> bool {
    hook => HookParts(hook).Some?
  }

  function SameCommand(command: string): Json -> bool {
    hook => GetStr(hook, "command") == Some(command)
  }

  /** The hooks a merge replaces: this very command, and, when it is one of ours,
      every hook of ours. */
  function Mine(command: string): (mine: Json -> bool)
    ensures forall hook :: mine(hook) <==>
              GetStr(hook, "command") == Some(command) || (CommandParts(command).Some? && HookParts(hook).Some?)
  {
    if CommandParts(command).Some? then Ours() else SameCommand(command)
  }

  function NewHook(command: string): Json {
    Obj(map["type" := Str("command"), "command" := Str(command)])
  }

  function NewEntry(matcher: string, command: string): Json {
    Obj(map["matcher" := Str(matcher), "hooks" := Arr([NewHook(command)])])
  }

  /** The hook with its type and command set, and its other fields kept. */
  function Writing(command: string): Json -> Json {
    (hook: Json) =>
      if hook.Obj? then With(With(hook, "type", Str("command")), "command", Str(command)) else NewHook(command)
  }

  function BashKind(): Json -> Option<bool> {
    entry => if IsFileTools(entry) then None else Some(ToolCoverage(entry, "Bash") == Includes)
  }

  function FileKind(): Json -> Option<bool> {
    entry => if IsFileTools(entry) then Some(true) else None
  }

  function BashEdit(command: string): Edit {
    Edit(BashKind(), Mine(command), Writing(command))
  }

  function FileEdit(command: string): Edit {
    Edit(FileKind(), Mine(command), Writing(command))
  }

  function UnderBash(): Json -> bool {
    entry => ToolCoverage(entry, "Bash") == Includes
  }

  function UnderFileTools(): Json -> bool {
    entry => CoversFileTools(entry)
  }

  function InFileEntry(): Json -> bool {
    entry => IsFileTools(entry)
  }

  function OutsideFileEntry(): Json -> bool {
    entry => !IsFileTools(entry)
  }

  // ---------------------------------------------------------- the three merges

  function BashEntries(entries: seq<Json>, command: string): seq<Json> {
    var (kept, done) := EditEntries(entries, BashEdit(command), false);
    if done then kept else kept + [NewEntry("Bash", command)]
  }

  /** An entry that covers the file tools holds a hook with this command. */
  predicate Covered(entries: seq<Json>, command: string) {
    exists entry :: entry in entries && CoversFileTools(entry) && EntryHooks(entry).Some? &&
                    exists hook :: hook in EntryHooks(entry).value && GetStr(hook, "command") == Some(command)
  }

  function FileEntries(entries: seq<Json>, command: string): seq<Json> {
    var (kept, done) := EditEntries(entries, FileEdit(command), false);
    if done || Covered(kept, command) then kept else kept + [NewEntry(FileToolsMatcher, command)]
  }

  function PostEntries(entries: seq<Json>, command: string): seq<Json> {
    Stripped(entries, Ours()) + [NewEntry("*", command)]
  }

  function BothEntries(entries: seq<Json>, command: string): seq<Json> {
    FileEntries(BashEntries(entries, command), command)
  }

  /** The settings with nothing malformed on the way to this hook list. */
  function EntriesAt(settings: Json, event: string): seq<Json> {
    match Get(settings, "hooks")
    case None => []
    case Some(hooks) =>
      match GetArr(hooks, event)
      case None => []
      case Some(entries) => entries
  }

  function PutEntries(settings: Json, event: string, entries: seq<Json>): Json {
    var root := if settings.Obj? then settings else Obj(map[]);
    var hooks := if "hooks" in root.fields && root.fields["hooks"].Obj? then root.fields["hooks"] else Obj(map[]);
    With(root, "hooks", With(hooks, event, Arr(entries)))
  }

  method MergeBashHook(settings: Json, command: string) returns (merged: Json)
    ensures merged == PutEntries(settings, "PreToolUse", BashEntries(EntriesAt(settings, "PreToolUse"), command))
  {
    var entries, installed := RetainEntries(EntriesAt(settings, "PreToolUse"), BashEdit(command));
    if !installed {
      entries := entries + [NewEntry("Bash", command)];
    }
    merged := PutEntries(settings, "PreToolUse", entries);
  }

  method MergeFileHook(settings: Json, command: string) returns (merged: Json)
    ensures merged == PutEntries(settings, "PreToolUse", FileEntries(EntriesAt(settings, "PreToolUse"), command))
  {
    var entries, installed := RetainEntries(EntriesAt(settings, "PreToolUse"), FileEdit(command));
    var covered := IsCovered(entries, command);
    if !installed && !covered {
      entries := entries + [NewEntry(FileToolsMatcher, command)];
    }
    merged := PutEntries(settings, "PreToolUse", entries);
  }

  method IsCovered(entries: seq<Json>, command: string) returns (covered: bool)
    ensures covered == Covered(entries, command)
  {
    for i := 0 to |entries|
      invariant !Covered(entries[..i], command)
    {
      assert entries[..i + 1] == entries[..i] + [entries[i]];
      if CoversFileTools(entries[i]) && EntryHooks(entries[i]).Some? {
        var hooks := EntryHooks(entries[i]).value;
        for j := 0 to |hooks|
          invariant forall hook :: hook in hooks[..j] ==> GetStr(hook, "command") != Some(command)
        {
          assert hooks[..j + 1] == hooks[..j] + [hooks[j]];
          if GetStr(hooks[j], "command") == Some(command) {
            assert entries[i] in entries;
            return true;
          }
        }
        assert hooks[..|hooks|] == hooks;
      }
    }
    assert entries[..|entries|] == entries;
    return false;
  }

  method MergePostHook(settings: Json, command: string) returns (merged: Json)
    ensures merged == PutEntries(settings, "PostToolUse", PostEntries(EntriesAt(settings, "PostToolUse"), command))
  {
    var entries, _ := RetainEntries(EntriesAt(settings, "PostToolUse"), Taking(Ours()));
    merged := PutEntries(settings, "PostToolUse", entries + [NewEntry("*", command)]);
  }

  predicate HasPreToolUse(settings: Json) {
    Get(settings, "hooks").Some? && GetArr(Get(settings, "hooks").value, "PreToolUse").Some?
  }

  function RemovedSettings(settings: Json): Json {
    if HasPreToolUse(settings)
    then PutEntries(settings, "PreToolUse", Removed(EntriesAt(settings, "PreToolUse"), Ours()))
    else settings
  }

  method RemoveHook(settings: Json) returns (left: Json, removed: nat)
    ensures left == RemovedSettings(settings)
    ensures removed == |HooksUnder(EntriesAt(settings, "PreToolUse"), Anywhere(), Ours())|
  {
    if !HasPreToolUse(settings) {
      return settings, 0;
    }
    var entries := EntriesAt(settings, "PreToolUse");
    var kept;
    kept, removed := RemoveHooks(entries, Ours());
    left := PutEntries(settings, "PreToolUse", kept);
  }

  // -------------------------------------------------------------- groundwork

  lemma WriteTwice(hook: Json, command: string)
    ensures var w := Writing(command); w(w(hook)) == w(hook) && GetStr(w(hook), "command") == Some(command)
    ensures Writing(command)(NewHook(command)) == NewHook(command)
    ensures Writing(command)(hook) == hook ==> GetStr(hook, "command") == Some(command)
  {
    assert NewHook(command).fields["type" := Str("command")] == NewHook(command).fields;
    assert NewHook(command).fields["command" := Str(command)] == NewHook(command).fields;
    if hook.Obj? {
      var once := hook.fields["type" := Str("command")]["command" := Str(command)];
      assert once["type" := Str("command")] == once && once["command" := Str(command)] == once;
    }
  }

  lemma MatcherKept(entry: Json, hooks: seq<Json>)
    requires entry.Obj?
    ensures Get(WithHooks(entry, hooks), "matcher") == Get(entry, "matcher")
    ensures forall tool :: ToolCoverage(WithHooks(entry, hooks), tool) == ToolCoverage(entry, tool)
    ensures IsFileTools(WithHooks(entry, hooks)) == IsFileTools(entry)
    ensures CoversFileTools(WithHooks(entry, hooks)) == CoversFileTools(entry)
  {
  }

  lemma BashKindStable()
    ensures Stable(BashKind()) && Stable(UnderBash())
  {
    forall entry: Json, hooks | entry.Obj?
      ensures BashKind()(WithHooks(entry, hooks)) == BashKind()(entry)
      ensures UnderBash()(WithHooks(entry, hooks)) == UnderBash()(entry)
    {
      MatcherKept(entry, hooks);
    }
  }

  lemma FileKindStable()
    ensures Stable(FileKind()) && Stable(InFileEntry()) && Stable(OutsideFileEntry())
  {
    forall entry: Json, hooks | entry.Obj?
      ensures IsFileTools(WithHooks(entry, hooks)) == IsFileTools(entry)
    {
      MatcherKept(entry, hooks);
    }
  }

  lemma WritesSettle(command: string, hook: Json)
    ensures var w := Writing(command); w(w(hook)) == w(hook) && Mine(command)(w(hook))
  {
    WriteTwice(hook, command);
  }

  lemma SoundWhen(edit: Edit, command: string)
    requires Stable(edit.kind) && edit.mine == Mine(command) && edit.write == Writing(command)
    ensures Sound(edit)
  {
    forall hook
      ensures edit.mine(edit.write(hook)) && edit.write(edit.write(hook)) == edit.write(hook)
    {
      WritesSettle(command, hook);
    }
  }

  lemma EditsSound(command: string)
    ensures Sound(BashEdit(command)) && Sound(FileEdit(command))
  {
    BashKindStable();
    FileKindStable();
    SoundWhen(BashEdit(command), command);
    SoundWhen(FileEdit(command), command);
  }

  lemma EditsDisjoint(command: string)
    ensures Disjoint(FileEdit(command), BashEdit(command))
  {
  }

  lemma TakingSound()
    ensures Sound(Taking(Ours()))
  {
  }

  lemma NewEntryFacts(matcher: string, command: string)
    ensures var entry := NewEntry(matcher, command);
            && EntryHooks(entry) == Some([NewHook(command)])
            && GetStr(entry, "matcher") == Some(matcher)
            && Mine(command)(NewHook(command)) && HookParts(NewHook(command)) == CommandParts(command)
            && GetStr(NewHook(command), "command") == Some(command)
            && WithHooks(entry, [NewHook(command)]) == entry
  {
    SameHooks(NewEntry(matcher, command));
  }

  lemma BashEntryHosts(command: string)
    ensures ToolCoverage(NewEntry("Bash", command), "Bash") == Includes && !IsFileTools(NewEntry("Bash", command))
  {
    NewEntryFacts("Bash", command);
    SplitWhole("Bash", IsBar);
    assert |"Bash"| != |FileToolsMatcher|;
  }

  lemma NewHookEdited(command: string, edit: Edit, done: bool)
    requires edit.mine(NewHook(command)) && edit.write(NewHook(command)) == NewHook(command)
    ensures EditHooks([NewHook(command)], edit, true, false) == ([NewHook(command)], true)
    ensures Filter([NewHook(command)], edit.mine) == [NewHook(command)]
  {
    assert [NewHook(command)][1..] == [];
    assert [NewHook(command)] + [] == [NewHook(command)];
  }
}
