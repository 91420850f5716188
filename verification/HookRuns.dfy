/** Automatic hook setup, run after run. */
module HookRuns {
  import opened Options
  import opened Text
  import opened Json
  import opened HookCommand
  import opened HookEdits
  import opened HookSettings
  import opened HookMerges

  // ------------------------------------------------------------ the decision

  predicate SafeEntry(entry: Json) {
    && entry.Obj?
    && (Get(entry, "matcher").Some? ==> Get(entry, "matcher").value.Str?)
    && EntryHooks(entry).Some?
    && forall i :: 0 <= i < |EntryHooks(entry).value| ==> EntryHooks(entry).value[i].Obj?
  }

  predicate SafeEntries(entries: seq<Json>) {
    forall i :: 0 <= i < |entries| ==> SafeEntry(entries[i])
  }

  /** Nothing malformed is in the way of the PreToolUse merges. */
  predicate MergeSafe(settings: Json) {
    && settings.Obj?
    && (Get(settings, "hooks").Some? ==>
          var hooks := Get(settings, "hooks").value;
          hooks.Obj? && (Get(hooks, "PreToolUse").Some? ==>
            Get(hooks, "PreToolUse").value.Arr? && SafeEntries(Get(hooks, "PreToolUse").value.items)))
  }

  predicate IsAmbiguous(entry: Json) {
    ToolCoverage(entry, "Bash") == Ambiguous
  }

  function UnderAmbiguous(): Json -> bool {
    entry => IsAmbiguous(entry)
  }

  /** A hook of ours runs under a matcher that could include Bash or not. */
  predicate HasAmbiguous(entries: seq<Json>) {
    HooksUnder(entries, UnderAmbiguous(), Ours()) != []
  }

  /** The agent named by the first hook of ours. */
  function ExistingAgent(entries: seq<Json>): Option<Option<string>> {
    var hooks := HooksUnder(entries, Anywhere(), Ours());
    if hooks == [] || HookParts(hooks[0]).None? then None else Some(HookParts(hooks[0]).value.agent)
  }

  function Effective(entries: seq<Json>, blockReview: bool, monitor: bool): Protection {
    var requested := FromFlags(blockReview, monitor);
    match Strongest(entries)
    case None => requested
    case Some(current) => Stronger(current, requested)
  }

  const ClaudeCode: string := "claude-code"

  function AgentFor(entries: seq<Json>): Option<string> {
    match ExistingAgent(entries)
    case Some(agent) => agent
    case None => Some(ClaudeCode)
  }

  function CommandIn(program: string, mode: Protection, agent: Option<string>): string {
    HookCommandFor(program, Flags(mode).0, Flags(mode).1, agent)
  }

  function AutoCommand(settings: Json, program: string, blockReview: bool, monitor: bool): string {
    var entries := EntriesAt(settings, "PreToolUse");
    CommandIn(program, Effective(entries, blockReview, monitor), AgentFor(entries))
  }

  function MergedPre(settings: Json, command: string): Json {
    PutEntries(settings, "PreToolUse", BothEntries(EntriesAt(settings, "PreToolUse"), command))
  }

  function MergedAll(settings: Json, command: string): Json {
    PutEntries(MergedPre(settings, command), "PostToolUse", PostEntries(EntriesAt(settings, "PostToolUse"), command))
  }

  datatype Outcome = Refused | Skipped | Written(settings: Json)

  /** Setup goes ahead: the structure is sound, no matcher of ours is ambiguous,
      and what would be written would be recognised. */
  predicate Proceeds(settings: Json, program: string, blockReview: bool, monitor: bool) {
    && MergeSafe(settings) && !HasAmbiguous(EntriesAt(settings, "PreToolUse"))
    && Recognised(AutoCommand(settings, program, blockReview, monitor))
  }

  function AutoOutcome(settings: Json, program: string, blockReview: bool, monitor: bool): Outcome {
    if !MergeSafe(settings) then Refused
    else if HasAmbiguous(EntriesAt(settings, "PreToolUse")) then Skipped
    else
      var command := AutoCommand(settings, program, blockReview, monitor);
      if !Recognised(command) then Refused
      else if MergedAll(settings, command) == settings then Skipped
      else Written(MergedAll(settings, command))
  }

  method AutomaticInstall(settings: Json, program: string, blockReview: bool, monitor: bool) returns (outcome: Outcome)
    ensures outcome == AutoOutcome(settings, program, blockReview, monitor)
  {
    if !MergeSafe(settings) {
      return Refused;
    }
    var entries := EntriesAt(settings, "PreToolUse");
    if HasAmbiguous(entries) {
      return Skipped;
    }
    var flags := Flags(Effective(entries, blockReview, monitor));
    var command := HookCommandFor(program, flags.0, flags.1, AgentFor(entries));
    if CommandParts(command).None? {
      return Refused;
    }
    var merged := MergeBashHook(settings, command);
    PutThenAt(settings, "PreToolUse", BashEntries(entries, command), "PreToolUse");
    PutTwice(settings, "PreToolUse", BashEntries(entries, command), BothEntries(entries, command));
    merged := MergeFileHook(merged, command);
    PutThenAt(settings, "PreToolUse", BothEntries(entries, command), "PostToolUse");
    merged := MergePostHook(merged, command);
    if merged == settings {
      return Skipped;
    }
    return Written(merged);
  }

  /** What the preview of automatic setup says. */
  function NeedsReconciliation(settings: Json, program: string, blockReview: bool, monitor: bool): bool {
    var entries := EntriesAt(settings, "PreToolUse");
    if HasAmbiguous(entries) then false
    else
      var agent := if ExistingAgent(entries).Some? then ExistingAgent(entries).value else None;
      MergedPre(settings, CommandIn(program, Effective(entries, blockReview, monitor), agent)) != settings
  }

  // ------------------------------------------------------------ hooks by event

  lemma PutThenAt(settings: Json, event: string, entries: seq<Json>, other: string)
    ensures EntriesAt(PutEntries(settings, event, entries), other) ==
            if other == event then entries else EntriesAt(settings, other)
  {
  }

  lemma PutTwice(settings: Json, event: string, entries: seq<Json>, again: seq<Json>)
    ensures PutEntries(PutEntries(settings, event, entries), event, again) == PutEntries(settings, event, again)
  {
    var root := if settings.Obj? then settings else Obj(map[]);
    var hooks := if "hooks" in root.fields && root.fields["hooks"].Obj? then root.fields["hooks"] else Obj(map[]);
    assert hooks.fields[event := Arr(entries)][event := Arr(again)] == hooks.fields[event := Arr(again)];
    var once := With(hooks, event, Arr(entries));
    assert root.fields["hooks" := once]["hooks" := With(once, event, Arr(again))] ==
           root.fields["hooks" := With(once, event, Arr(again))];
  }

  /** Writing back the entries already there changes nothing. */
  lemma PutBack(settings: Json, event: string)
    requires settings.Obj? && "hooks" in settings.fields && settings.fields["hooks"].Obj?
    requires GetArr(settings.fields["hooks"], event).Some?
    ensures PutEntries(settings, event, EntriesAt(settings, event)) == settings
  {
    var hooks := settings.fields["hooks"];
    assert hooks.fields[event := hooks.fields[event]] == hooks.fields;
    assert settings.fields["hooks" := hooks] == settings.fields;
  }

  /** A merge leaves every other key of the settings, and every other event, as
      it was. */
  lemma OnlyTheEvent(settings: Json, event: string, entries: seq<Json>)
    requires settings.Obj?
    ensures var after := PutEntries(settings, event, entries);
            && after.Obj?
            && (forall key :: key != "hooks" ==> Get(after, key) == Get(settings, key))
            && (forall other :: other != event && Get(settings, "hooks").Some? && Get(settings, "hooks").value.Obj? ==>
                  Get(Get(after, "hooks").value, other) == Get(Get(settings, "hooks").value, other))
  {
  }

  lemma MergedEntries(settings: Json, command: string)
    ensures var after := MergedAll(settings, command);
            && EntriesAt(after, "PreToolUse") == BothEntries(EntriesAt(settings, "PreToolUse"), command)
            && EntriesAt(after, "PostToolUse") == PostEntries(EntriesAt(settings, "PostToolUse"), command)
            && PutEntries(after, "PreToolUse", EntriesAt(after, "PreToolUse")) == after
            && PutEntries(after, "PostToolUse", EntriesAt(after, "PostToolUse")) == after
  {
    var pre := BothEntries(EntriesAt(settings, "PreToolUse"), command);
    var post := PostEntries(EntriesAt(settings, "PostToolUse"), command);
    PutThenAt(settings, "PreToolUse", pre, "PreToolUse");
    PutThenAt(MergedPre(settings, command), "PostToolUse", post, "PreToolUse");
    PutThenAt(MergedPre(settings, command), "PostToolUse", post, "PostToolUse");
    BothHeld(settings, pre, post);
  }

  lemma BothHeld(settings: Json, pre: seq<Json>, post: seq<Json>)
    ensures var after := PutEntries(PutEntries(settings, "PreToolUse", pre), "PostToolUse", post);
            && PutEntries(after, "PreToolUse", pre) == after
            && PutEntries(after, "PostToolUse", post) == after
  {
    var one := PutEntries(settings, "PreToolUse", pre);
    var after := PutEntries(one, "PostToolUse", post);
    PutThenAt(one, "PostToolUse", post, "PreToolUse");
    PutThenAt(settings, "PreToolUse", pre, "PreToolUse");
    assert GetArr(after.fields["hooks"], "PreToolUse") == Some(pre);
    PutBack(after, "PreToolUse");
    PutBack(after, "PostToolUse");
  }

  /** Merging the same command into what it was merged into changes nothing. */
  lemma MergedTwice(settings: Json, command: string)
    requires Recognised(command)
    ensures var after := MergedAll(settings, command);
            MergedPre(after, command) == after && MergedAll(after, command) == after
  {
    var after := MergedAll(settings, command);
    MergedEntries(settings, command);
    MergesSettle(EntriesAt(settings, "PreToolUse"), command);
    MergesSettle(EntriesAt(settings, "PostToolUse"), command);
  }

  // ------------------------------------------------------- structure stays sound

  lemma PrefixSafe(a: seq<Json>, b: seq<Json>)
    requires SafeEntries(a) && SafeEntries(b)
    ensures SafeEntries(a + b)
  {
  }

  ghost predicate AllObj(hooks: seq<Json>) {
    forall i :: 0 <= i < |hooks| ==> hooks[i].Obj?
  }

  lemma {:induction false} EditedObj(hooks: seq<Json>, edit: Edit, host: bool, done: bool)
    requires AllObj(hooks) && forall hook :: edit.write(hook).Obj?
    ensures AllObj(EditHooks(hooks, edit, host, done).0)
  {
    if hooks != [] {
      EditedObj(hooks[1..], edit, host, if edit.mine(hooks[0]) && host then true else done);
    }
  }

  lemma EditedSafe(entry: Json, edit: Edit, done: bool)
    requires SafeEntry(entry) && forall hook :: edit.write(hook).Obj?
    ensures SafeEntries(EditEntry(entry, edit, done).0)
  {
    if edit.kind(entry).Some? {
      var hooks := EntryHooks(entry).value;
      EditedObj(hooks, edit, edit.kind(entry).value, done);
      var kept := EditHooks(hooks, edit, edit.kind(entry).value, done).0;
      WithHooksTwice(entry, kept, kept);
      MatcherKept(entry, kept);
    }
  }

  lemma {:induction false} EditsSafe(entries: seq<Json>, edit: Edit, done: bool)
    requires SafeEntries(entries) && forall hook :: edit.write(hook).Obj?
    ensures SafeEntries(EditEntries(entries, edit, done).0)
  {
    if entries != [] {
      var (first, between) := EditEntry(entries[0], edit, done);
      EditedSafe(entries[0], edit, done);
      EditsSafe(entries[1..], edit, between);
      PrefixSafe(first, EditEntries(entries[1..], edit, between).0);
    }
  }

  lemma NewEntrySafe(matcher: string, command: string)
    ensures SafeEntries([NewEntry(matcher, command)])
  {
    NewEntryFacts(matcher, command);
  }

  lemma MergesSafe(entries: seq<Json>, command: string)
    requires SafeEntries(entries)
    ensures SafeEntries(BothEntries(entries, command))
  {
    var bash := BashEntries(entries, command);
    EditsSafe(entries, BashEdit(command), false);
    NewEntrySafe("Bash", command);
    var edited := EditEntries(entries, BashEdit(command), false).0;
    PrefixSafe(edited, if bash == edited then [] else [NewEntry("Bash", command)]);
    EditsSafe(bash, FileEdit(command), false);
    NewEntrySafe(FileToolsMatcher, command);
    var kept := EditEntries(bash, FileEdit(command), false).0;
    PrefixSafe(kept, if FileEntries(bash, command) == kept then [] else [NewEntry(FileToolsMatcher, command)]);
  }

  lemma SafePut(settings: Json, entries: seq<Json>)
    requires MergeSafe(settings) && SafeEntries(entries)
    ensures MergeSafe(PutEntries(settings, "PreToolUse", entries))
  {
    var hooks := PutEntries(settings, "PreToolUse", entries).fields["hooks"];
    assert hooks.Obj? && Get(hooks, "PreToolUse") == Some(Arr(entries));
  }

  lemma SafePostPut(settings: Json, entries: seq<Json>)
    requires MergeSafe(settings)
    ensures MergeSafe(PutEntries(settings, "PostToolUse", entries))
  {
    var hooks := PutEntries(settings, "PostToolUse", entries).fields["hooks"];
    if Get(settings, "hooks").Some? {
      assert Get(hooks, "PreToolUse") == Get(settings.fields["hooks"], "PreToolUse");
    } else {
      assert Get(hooks, "PreToolUse") == None;
    }
  }

  lemma SafeAfter(settings: Json, command: string)
    requires MergeSafe(settings)
    ensures MergeSafe(MergedAll(settings, command))
  {
    var entries := EntriesAt(settings, "PreToolUse");
    assert SafeEntries(entries);
    MergesSafe(entries, command);
    SafePut(settings, BothEntries(entries, command));
    SafePostPut(MergedPre(settings, command), PostEntries(EntriesAt(settings, "PostToolUse"), command));
  }

  // ------------------------------------------------------------- converging

  lemma AmbiguousIsGuest(entry: Json, command: string)
    requires UnderAmbiguous()(entry)
    ensures Guest(BashEdit(command))(entry)
  {
    if IsFileTools(entry) {
      FileToolsCover(entry);
    }
  }

  lemma NeverAmbiguous(entries: seq<Json>, command: string)
    requires HooksUnder(entries, Guest(BashEdit(command)), Ours()) == []
    ensures !HasAmbiguous(entries)
  {
    forall entry | UnderAmbiguous()(entry)
      ensures Guest(BashEdit(command))(entry)
    {
      AmbiguousIsGuest(entry, command);
    }
    NoneUnder(entries, UnderAmbiguous(), Guest(BashEdit(command)), Ours());
  }

  lemma AgentAfter(entries: seq<Json>, command: string)
    requires Recognised(command)
    requires OnlyThis(HooksUnder(entries, Anywhere(), Ours()), command)
    requires |HooksUnder(entries, UnderBash(), Ours())| == 1
    ensures ExistingAgent(entries) == Some(CommandParts(command).value.agent)
  {
    var hook := HooksUnder(entries, UnderBash(), Ours())[0];
    UnderHolds(entries, UnderBash(), Ours());
    UnderHolds(entries, Anywhere(), Ours());
    assert hook in HooksUnder(entries, UnderBash(), Ours());
    var entry :| Holds(entries, entry, hook, UnderBash(), Ours());
    assert Holds(entries, entry, hook, Anywhere(), Ours());
    assert hook in HooksUnder(entries, Anywhere(), Ours());
    assert Has(HooksUnder(entries, Anywhere(), Ours())[0], command);
  }

  /** What the next run reads where this command was merged. */
  lemma NextReads(settings: Json, command: string)
    requires Recognised(command)
    ensures var entries := EntriesAt(MergedAll(settings, command), "PreToolUse");
            && !HasAmbiguous(entries)
            && ExistingAgent(entries) == Some(CommandParts(command).value.agent)
            && Strongest(entries) == Some(CommandParts(command).value.mode)
            && JudgesFileTools(entries)
  {
    var before := EntriesAt(settings, "PreToolUse");
    MergedEntries(settings, command);
    OneCommand(before, command);
    FileToolsJudged(before, command);
    NeverAmbiguous(BothEntries(before, command), command);
    AgentAfter(BothEntries(before, command), command);
  }

  lemma ClaudeCodePlain()
    ensures IsAgentId(ClaudeCode)
  {
  }

  lemma PlainAgentFor(entries: seq<Json>)
    ensures PlainAgent(AgentFor(entries)) == AgentFor(entries)
  {
    ClaudeCodePlain();
  }

  lemma StrongerAgain(a: Protection, b: Protection)
    ensures Stronger(Stronger(a, b), b) == Stronger(a, b) && Stronger(a, a) == a
  {
  }

  lemma ModeKept(mode: Protection)
    ensures FromFlags(Flags(mode).0, Flags(mode).1) == mode
  {
  }

  /** A program whose own words are one word names no mode. */
  lemma PlainOwnMode(program: string)
    requires '"' !in program
    ensures OwnMode(program) == Enforce
  {
    PlainOwnWords(program);
  }

  /** What is read of the command automatic setup writes. */
  lemma WrittenReads(settings: Json, program: string, blockReview: bool, monitor: bool)
    requires Proceeds(settings, program, blockReview, monitor)
    ensures var before := EntriesAt(settings, "PreToolUse");
            CommandParts(AutoCommand(settings, program, blockReview, monitor)) ==
            if '"' in program then Some(Parts(OwnMode(program), Some("hook")))
            else Some(Parts(Effective(before, blockReview, monitor), AgentFor(before)))
    ensures '"' in program ==> Effective(EntriesAt(settings, "PreToolUse"), blockReview, monitor) == Enforce
  {
    var before := EntriesAt(settings, "PreToolUse");
    var mode := Effective(before, blockReview, monitor);
    ModeKept(mode);
    PlainAgentFor(before);
    if '"' in program {
      QuotedPathReads(program, Flags(mode).0, Flags(mode).1, AgentFor(before));
    } else {
      PlainPathReads(program, Flags(mode).0, Flags(mode).1, AgentFor(before));
    }
  }

  /** The strongest mode afterwards is the stronger of before and asked for,
      exactly when the program's own words name no other mode. */
  lemma StrongestExactly(settings: Json, program: string, blockReview: bool, monitor: bool)
    requires Proceeds(settings, program, blockReview, monitor)
    ensures var before := EntriesAt(settings, "PreToolUse");
            var command := AutoCommand(settings, program, blockReview, monitor);
            var entries := EntriesAt(MergedAll(settings, command), "PreToolUse");
            && Strongest(entries) == Some(CommandParts(command).value.mode)
            && (Strongest(entries) == Some(Effective(before, blockReview, monitor)) <==> OwnMode(program) == Enforce)
  {
    WrittenReads(settings, program, blockReview, monitor);
    NextReads(settings, AutoCommand(settings, program, blockReview, monitor));
    if '"' !in program {
      PlainOwnMode(program);
    }
  }

  /** Without a quote in the path the next run would write the same command. */
  lemma SameCommandNext(settings: Json, program: string, blockReview: bool, monitor: bool)
    requires Proceeds(settings, program, blockReview, monitor) && '"' !in program
    ensures var command := AutoCommand(settings, program, blockReview, monitor);
            var entries := EntriesAt(MergedAll(settings, command), "PreToolUse");
            && CommandIn(program, Effective(entries, blockReview, monitor), AgentFor(entries)) == command
            && ExistingAgent(entries) == Some(AgentFor(entries))
  {
    var before := EntriesAt(settings, "PreToolUse");
    WrittenReads(settings, program, blockReview, monitor);
    NextReads(settings, AutoCommand(settings, program, blockReview, monitor));
    if Strongest(before).Some? {
      StrongerAgain(Strongest(before).value, FromFlags(blockReview, monitor));
    } else {
      StrongerAgain(FromFlags(blockReview, monitor), FromFlags(blockReview, monitor));
    }
  }

  /** The command the next run comes to for a path with a quote in it. */
  function QuotedCommand(program: string, blockReview: bool, monitor: bool): string {
    CommandIn(program, Stronger(OwnMode(program), FromFlags(blockReview, monitor)), Some("hook"))
  }

  lemma HookIsPlain()
    ensures PlainAgent(Some("hook")) == Some("hook")
  {
  }

  lemma QuotedNotOurs(program: string, mode: Protection)
    requires '"' in program
    ensures !Recognised(CommandIn(program, mode, Some("hook")))
  {
    HookIsPlain();
    QuotedPathReads(program, Flags(mode).0, Flags(mode).1, Some("hook"));
  }

  /** With a quote in the path the next run would not recognise what it writes. */
  lemma QuotedNext(settings: Json, program: string, blockReview: bool, monitor: bool)
    requires Proceeds(settings, program, blockReview, monitor) && '"' in program
    ensures var entries := EntriesAt(MergedAll(settings, AutoCommand(settings, program, blockReview, monitor)),
                                     "PreToolUse");
            && ExistingAgent(entries) == Some(Some("hook")) && AgentFor(entries) == Some("hook")
            && CommandIn(program, Effective(entries, blockReview, monitor), Some("hook")) ==
               QuotedCommand(program, blockReview, monitor)
            && !Recognised(QuotedCommand(program, blockReview, monitor))
  {
    WrittenReads(settings, program, blockReview, monitor);
    NextReads(settings, AutoCommand(settings, program, blockReview, monitor));
    QuotedNotOurs(program, Stronger(OwnMode(program), FromFlags(blockReview, monitor)));
  }

  /** A second run changes nothing in the file: it finds nothing to write, or,
      with a quote in the path, refuses. */
  lemma SecondRun(settings: Json, program: string, blockReview: bool, monitor: bool)
    requires Proceeds(settings, program, blockReview, monitor)
    ensures var after := MergedAll(settings, AutoCommand(settings, program, blockReview, monitor));
            AutoOutcome(after, program, blockReview, monitor) == if '"' in program then Refused else Skipped
  {
    var command := AutoCommand(settings, program, blockReview, monitor);
    NextReads(settings, command);
    if '"' in program {
      QuotedNext(settings, program, blockReview, monitor);
    } else {
      SameCommandNext(settings, program, blockReview, monitor);
      SafeAfter(settings, command);
      MergedTwice(settings, command);
    }
  }

  lemma PreDiffers(settings: Json, command: string, next: string)
    ensures var after := MergedAll(settings, command);
            var entries := EntriesAt(after, "PreToolUse");
            MergedPre(after, next) == after <==> BothEntries(entries, next) == entries
  {
    var after := MergedAll(settings, command);
    MergedEntries(settings, command);
    PutThenAt(after, "PreToolUse", BothEntries(EntriesAt(after, "PreToolUse"), next), "PreToolUse");
  }

  /** Something is left to reconcile exactly when the path has a quote in it and
      the command the preview comes to was not wired all along. */
  lemma ReconcilesExactly(settings: Json, program: string, blockReview: bool, monitor: bool)
    requires Proceeds(settings, program, blockReview, monitor)
    ensures var after := MergedAll(settings, AutoCommand(settings, program, blockReview, monitor));
            NeedsReconciliation(after, program, blockReview, monitor) <==>
            '"' in program &&
            !AlreadyWired(EntriesAt(settings, "PreToolUse"), QuotedCommand(program, blockReview, monitor))
  {
    var before := EntriesAt(settings, "PreToolUse");
    var command := AutoCommand(settings, program, blockReview, monitor);
    NextReads(settings, command);
    MergedEntries(settings, command);
    if '"' in program {
      var next := QuotedCommand(program, blockReview, monitor);
      QuotedNext(settings, program, blockReview, monitor);
      PreDiffers(settings, command, next);
      MergesNothing(BothEntries(before, command), next);
      OtherWired(before, command, next);
    } else {
      SameCommandNext(settings, program, blockReview, monitor);
      MergedTwice(settings, command);
    }
  }

  /** Automatic setup that goes ahead. The file tools are then judged the way the
      shell is, and the strongest mode that runs for Bash is the one its command
      reads as: the stronger of the one before and the one asked for, unless the
      program's own words name another. A second run leaves the file as it is. */
  lemma SetupConverges(settings: Json, program: string, blockReview: bool, monitor: bool)
    requires Proceeds(settings, program, blockReview, monitor)
    ensures var before := EntriesAt(settings, "PreToolUse");
            var command := AutoCommand(settings, program, blockReview, monitor);
            var after := MergedAll(settings, command);
            var entries := EntriesAt(after, "PreToolUse");
            && AutoOutcome(settings, program, blockReview, monitor) ==
               (if after == settings then Skipped else Written(after))
            && AutoOutcome(after, program, blockReview, monitor) == (if '"' in program then Refused else Skipped)
            && JudgesFileTools(entries)
            && Strongest(entries) == Some(CommandParts(command).value.mode)
            && (Strongest(entries) == Some(Effective(before, blockReview, monitor)) <==> OwnMode(program) == Enforce)
            && (NeedsReconciliation(after, program, blockReview, monitor) <==>
                  '"' in program && !AlreadyWired(before, QuotedCommand(program, blockReview, monitor)))
  {
    NextReads(settings, AutoCommand(settings, program, blockReview, monitor));
    SecondRun(settings, program, blockReview, monitor);
    StrongestExactly(settings, program, blockReview, monitor);
    ReconcilesExactly(settings, program, blockReview, monitor);
  }

  /** For a path without a double quote setup never lowers protection: what
      blocks review stays so, what enforces is not turned into monitoring, and no
      mode asked for is undercut. */
  lemma SetupNeverLowers(settings: Json, program: string, blockReview: bool, monitor: bool)
    requires Proceeds(settings, program, blockReview, monitor) && '"' !in program
    ensures var before := Strongest(EntriesAt(settings, "PreToolUse"));
            var command := AutoCommand(settings, program, blockReview, monitor);
            var after := Strongest(EntriesAt(MergedAll(settings, command), "PreToolUse"));
            && after.Some?
            && (after == Some(BlockReview) <==> before == Some(BlockReview) || (blockReview && !monitor))
            && (after == Some(Monitor) <==> monitor && (before == None || before == Some(Monitor)))
  {
    var entries := EntriesAt(settings, "PreToolUse");
    StrongestExactly(settings, program, blockReview, monitor);
    PlainOwnMode(program);
    EffectiveIs(entries, Strongest(entries), blockReview, monitor);
  }

  lemma EffectiveIs(entries: seq<Json>, before: Option<Protection>, blockReview: bool, monitor: bool)
    requires before == Strongest(entries)
    ensures var after := Effective(entries, blockReview, monitor);
            && (after == BlockReview <==> before == Some(BlockReview) || (blockReview && !monitor))
            && (after == Monitor <==> monitor && (before == None || before == Some(Monitor)))
  {
  }

  /** And every hook of ours then names the agent the first one named; the first
      hook of all names Claude Code. */
  lemma SetupKeepsTheAgent(settings: Json, program: string, blockReview: bool, monitor: bool)
    requires Proceeds(settings, program, blockReview, monitor) && '"' !in program
    ensures var before := HooksUnder(EntriesAt(settings, "PreToolUse"), Anywhere(), Ours());
            var command := AutoCommand(settings, program, blockReview, monitor);
            var after := HooksUnder(EntriesAt(MergedAll(settings, command), "PreToolUse"), Anywhere(), Ours());
            forall hook :: hook in after ==>
              && HookParts(hook).Some?
              && (before == [] ==> HookParts(hook).value.agent == Some("claude-code"))
              && (before != [] ==> Some(HookParts(hook).value.agent) == AgentNamed(before[0]))
  {
    var entries := EntriesAt(settings, "PreToolUse");
    var command := AutoCommand(settings, program, blockReview, monitor);
    WrittenReads(settings, program, blockReview, monitor);
    MergedEntries(settings, command);
    OneCommand(entries, command);
    OursReadable(entries);
    forall hook | hook in HooksUnder(BothEntries(entries, command), Anywhere(), Ours())
      ensures HookParts(hook) == CommandParts(command)
    {
      assert Has(hook, command);
    }
  }

  function AgentNamed(hook: Json): Option<Option<string>> {
    match HookParts(hook)
    case None => None
    case Some(parts) => Some(parts.agent)
  }

  lemma OursReadable(entries: seq<Json>)
    ensures var hooks := HooksUnder(entries, Anywhere(), Ours());
            hooks != [] ==> HookParts(hooks[0]).Some?
  {
    var hooks := HooksUnder(entries, Anywhere(), Ours());
    UnderHolds(entries, Anywhere(), Ours());
    if hooks != [] {
      assert hooks[0] in hooks;
      var entry :| Holds(entries, entry, hooks[0], Anywhere(), Ours());
    }
  }

  // ------------------------------------------- what setup refuses, and leaves be

  /** Setup writes only where nothing on the way to the PreToolUse hooks is
      malformed, key by key. */
  lemma WritesOnlySound(settings: Json, program: string, blockReview: bool, monitor: bool)
    requires AutoOutcome(settings, program, blockReview, monitor).Written?
    ensures settings.Obj?
    ensures "hooks" in settings.fields ==> settings.fields["hooks"].Obj?
    ensures "hooks" in settings.fields && "PreToolUse" in settings.fields["hooks"].fields ==>
              var value := settings.fields["hooks"].fields["PreToolUse"];
              && value.Arr?
              && forall i :: 0 <= i < |value.items| ==>
                   && value.items[i].Obj?
                   && ("matcher" in value.items[i].fields ==> value.items[i].fields["matcher"].Str?)
                   && "hooks" in value.items[i].fields && value.items[i].fields["hooks"].Arr?
                   && forall j :: 0 <= j < |value.items[i].fields["hooks"].items| ==>
                        value.items[i].fields["hooks"].items[j].Obj?
  {
    if "hooks" in settings.fields && "PreToolUse" in settings.fields["hooks"].fields {
      SafeKeyByKey(settings.fields["hooks"].fields["PreToolUse"].items);
    }
  }

  lemma SafeKeyByKey(entries: seq<Json>)
    requires SafeEntries(entries)
    ensures forall i :: 0 <= i < |entries| ==>
              && entries[i].Obj?
              && ("matcher" in entries[i].fields ==> entries[i].fields["matcher"].Str?)
              && "hooks" in entries[i].fields && entries[i].fields["hooks"].Arr?
              && forall j :: 0 <= j < |entries[i].fields["hooks"].items| ==> entries[i].fields["hooks"].items[j].Obj?
  {
    forall i | 0 <= i < |entries|
      ensures SafeEntry(entries[i])
    {
    }
  }

  /** Setup leaves settings be where a hook of ours runs under a matcher that
      could include Bash or not. */
  lemma AmbiguousLeftBe(settings: Json, entry: Json, hook: Json, program: string, blockReview: bool, monitor: bool)
    requires MergeSafe(settings)
    requires entry in EntriesAt(settings, "PreToolUse") && ToolCoverage(entry, "Bash") == Ambiguous
    requires EntryHooks(entry).Some? && hook in EntryHooks(entry).value && HookParts(hook).Some?
    ensures AutoOutcome(settings, program, blockReview, monitor) == Skipped
  {
    var entries := EntriesAt(settings, "PreToolUse");
    UnderHolds(entries, UnderAmbiguous(), Ours());
    assert Holds(entries, entry, hook, UnderAmbiguous(), Ours());
    assert hook in HooksUnder(entries, UnderAmbiguous(), Ours());
  }

  // ------------------------------------------------- a path that says otherwise

  function SettingsWith(entries: seq<Json>): Json {
    PutEntries(Obj(map[]), "PreToolUse", entries)
  }

  /** The hook a plain install writes: it enforces, and names no agent. */
  const EnforcingCommand: string := HookCommandFor("innerwarden", false, false, None)

  lemma EnforcingReads()
    ensures CommandParts(EnforcingCommand) == Some(Parts(Enforce, None))
  {
    InnerWardenIsOurs();
    PlainPathReads("innerwarden", false, false, None);
  }

  lemma BashUnders(command: string)
    ensures var entry := NewEntry("Bash", command);
            UnderBash()(entry) && !UnderAmbiguous()(entry) && !InFileEntry()(entry) && SafeEntry(entry)
  {
    BashEntryHosts(command);
    NewEntryFacts("Bash", command);
  }

  lemma StarUnders(command: string)
    ensures var entry := NewEntry("*", command);
            && UnderBash()(entry) && !UnderAmbiguous()(entry) && !InFileEntry()(entry) && CoversFileTools(entry)
            && SafeEntry(entry)
  {
    NewEntryFacts("*", command);
    assert |"*"| != |FileToolsMatcher|;
  }

  lemma LastSafe(entries: seq<Json>, entry: Json)
    requires SafeEntries(entries) && SafeEntry(entry)
    ensures SafeEntries(entries + [entry])
  {
  }

  lemma OneHookReads(hook: Json, command: string)
    requires Recognised(command) && Has(hook, command)
    ensures StrongestOf([hook]) == Some(CommandParts(command).value.mode)
  {
    StrongestOnly([hook], command);
  }

  /** Entries that end in a hook of ours for Bash and hold no other. */
  lemma LastRuns(entries: seq<Json>, command: string)
    requires Recognised(command)
    requires SafeEntries(entries) && HooksUnder(entries, Anywhere(), Ours()) == []
    ensures var all := entries + [NewEntry("Bash", command)];
            && SafeEntries(all) && !HasAmbiguous(all)
            && Strongest(all) == Some(CommandParts(command).value.mode)
            && ExistingAgent(all) == Some(CommandParts(command).value.agent)
  {
    var hook := NewHook(command);
    BashUnders(command);
    LastSafe(entries, NewEntry("Bash", command));
    NewEntryFacts("Bash", command);
    NoneUnder(entries, UnderBash(), Anywhere(), Ours());
    NoneUnder(entries, UnderAmbiguous(), Anywhere(), Ours());
    AppendedEntry(entries, "Bash", command, UnderBash());
    AppendedEntry(entries, "Bash", command, UnderAmbiguous());
    AppendedEntry(entries, "Bash", command, Anywhere());
    assert [] + [hook] == [hook];
    OneHookReads(hook, command);
  }

  lemma SettingsRead(entries: seq<Json>)
    ensures EntriesAt(SettingsWith(entries), "PreToolUse") == entries
    ensures SafeEntries(entries) ==> MergeSafe(SettingsWith(entries))
  {
    PutThenAt(Obj(map[]), "PreToolUse", entries, "PreToolUse");
  }

  /** Beside a hook that enforces and names no agent, asked to enforce, setup
      goes ahead with any program whose command it recognises. */
  lemma ProceedsBeside(entries: seq<Json>, written: string, program: string)
    requires SafeEntries(entries) && HooksUnder(entries, Anywhere(), Ours()) == []
    requires CommandParts(written) == Some(Parts(Enforce, None))
    requires Recognised(HookCommandFor(program, false, false, None))
    ensures var before := entries + [NewEntry("Bash", written)];
            var settings := SettingsWith(before);
            && EntriesAt(settings, "PreToolUse") == before && Strongest(before) == Some(Enforce)
            && AutoCommand(settings, program, false, false) == HookCommandFor(program, false, false, None)
            && Proceeds(settings, program, false, false)
  {
    LastRuns(entries, written);
    SettingsRead(entries + [NewEntry("Bash", written)]);
    ModeKept(Enforce);
  }

  lemma NotWiredAlone(written: string, command: string)
    requires Recognised(written) && !Recognised(command)
    ensures !AlreadyWired([NewEntry("Bash", written)], command)
  {
    NewEntryFacts("Bash", written);
    AppendedHook([], "Bash", written, UnderBash(), Mine(command));
    assert [] + [NewEntry("Bash", written)] == [NewEntry("Bash", written)];
  }

  /** Setup with a disguised program beside a hook that enforces. */
  lemma LowersBeside(written: string, program: string)
    requires CommandParts(written) == Some(Parts(Enforce, None))
    requires '"' in program && Disguised(program)
    ensures var settings := SettingsWith([NewEntry("Bash", written)]);
            var after := MergedAll(settings, AutoCommand(settings, program, false, false));
            && Proceeds(settings, program, false, false)
            && Strongest(EntriesAt(settings, "PreToolUse")) == Some(Enforce)
            && Strongest(EntriesAt(after, "PreToolUse")) == Some(OwnMode(program))
            && AutoOutcome(after, program, false, false) == Refused
            && NeedsReconciliation(after, program, false, false)
  {
    var settings := SettingsWith([NewEntry("Bash", written)]);
    assert [] + [NewEntry("Bash", written)] == [NewEntry("Bash", written)];
    QuotedPathReads(program, false, false, None);
    ProceedsBeside([], written, program);
    WrittenReads(settings, program, false, false);
    SetupConverges(settings, program, false, false);
    QuotedNotOurs(program, Stronger(OwnMode(program), Enforce));
    NotWiredAlone(written, QuotedCommand(program, false, false));
  }

  /** Automatic setup can lower what runs: where a hook enforced, and enforcing
      was asked for, the hook it leaves only monitors; and its next run refuses,
      with something left to reconcile. */
  lemma SetupCanLower()
    ensures var settings := SettingsWith([NewEntry("Bash", EnforcingCommand)]);
            var after := MergedAll(settings, AutoCommand(settings, DisguisedPath, false, false));
            && Proceeds(settings, DisguisedPath, false, false)
            && Strongest(EntriesAt(settings, "PreToolUse")) == Some(Enforce)
            && Strongest(EntriesAt(after, "PreToolUse")) == Some(Monitor)
            && AutoOutcome(after, DisguisedPath, false, false) == Refused
            && NeedsReconciliation(after, DisguisedPath, false, false)
  {
    EnforcingReads();
    DisguisedPathReads();
    LowersBeside(EnforcingCommand, DisguisedPath);
  }

  lemma StarWiredUnder(command: string, written: string, under: Json -> bool)
    requires Recognised(written) && !Recognised(command)
    ensures HooksUnder([NewEntry("*", command)] + [NewEntry("Bash", written)], under, Mine(command)) ==
            if under(NewEntry("*", command)) then [NewHook(command)] else []
  {
    NewEntryFacts("*", command);
    NewEntryFacts("Bash", written);
    AppendedHook([], "*", command, under, Mine(command));
    assert [] + [NewEntry("*", command)] == [NewEntry("*", command)];
    AppendedHook([NewEntry("*", command)], "Bash", written, under, Mine(command));
  }

  lemma StarCovers(command: string, entries: seq<Json>)
    requires NewEntry("*", command) in entries
    ensures Covered(entries, command)
  {
    StarUnders(command);
    NewEntryFacts("*", command);
    assert NewHook(command) in EntryHooks(NewEntry("*", command)).value;
  }

  lemma StarNotGuest(command: string)
    ensures !Guest(BashEdit(command))(NewEntry("*", command))
  {
    StarUnders(command);
  }

  lemma StarNotOurs(command: string)
    requires !Recognised(command)
    ensures HooksUnder([NewEntry("*", command)], Anywhere(), Ours()) == []
  {
    NewEntryFacts("*", command);
    AppendedHook([], "*", command, Anywhere(), Ours());
    assert [] + [NewEntry("*", command)] == [NewEntry("*", command)];
  }

  lemma OneWrittenHook(command: string)
    ensures AllWritten([NewHook(command)], BashEdit(command))
  {
    WriteTwice(NewHook(command), command);
  }

  lemma StarWired(command: string, written: string)
    requires Recognised(written) && !Recognised(command)
    ensures AlreadyWired([NewEntry("*", command)] + [NewEntry("Bash", written)], command)
  {
    StarUnders(command);
    StarNotGuest(command);
    OneWrittenHook(command);
    StarWiredUnder(command, written, UnderBash());
    StarWiredUnder(command, written, InFileEntry());
    StarWiredUnder(command, written, Guest(BashEdit(command)));
    StarCovers(command, [NewEntry("*", command)] + [NewEntry("Bash", written)]);
  }

  lemma StarBeside(written: string, program: string, command: string)
    requires CommandParts(written) == Some(Parts(Enforce, None)) && !Recognised(command)
    requires Recognised(HookCommandFor(program, false, false, None))
    ensures var before := [NewEntry("*", command)] + [NewEntry("Bash", written)];
            && EntriesAt(SettingsWith(before), "PreToolUse") == before
            && Proceeds(SettingsWith(before), program, false, false)
  {
    NewEntrySafe("*", command);
    StarNotOurs(command);
    ProceedsBeside([NewEntry("*", command)], written, program);
  }

  lemma NothingLeftBeside(written: string, program: string, command: string)
    requires CommandParts(written) == Some(Parts(Enforce, None))
    requires '"' in program && Disguised(program) && command == QuotedCommand(program, false, false)
    ensures var settings := SettingsWith([NewEntry("*", command)] + [NewEntry("Bash", written)]);
            var after := MergedAll(settings, AutoCommand(settings, program, false, false));
            Proceeds(settings, program, false, false) && !NeedsReconciliation(after, program, false, false)
  {
    QuotedPathReads(program, false, false, None);
    QuotedNotOurs(program, Stronger(OwnMode(program), Enforce));
    StarBeside(written, program, command);
    StarWired(command, written);
    ReconcilesExactly(SettingsWith([NewEntry("*", command)] + [NewEntry("Bash", written)]), program, false, false);
  }

  /** With a quote in the path there can also be nothing left to reconcile: the
      operator's own hook is, word for word, the command the preview comes to. */
  lemma NothingLeftForTheQuoted()
    ensures var command := QuotedCommand(DisguisedPath, false, false);
            var settings := SettingsWith([NewEntry("*", command)] + [NewEntry("Bash", EnforcingCommand)]);
            var after := MergedAll(settings, AutoCommand(settings, DisguisedPath, false, false));
            && Proceeds(settings, DisguisedPath, false, false) && '"' in DisguisedPath
            && !NeedsReconciliation(after, DisguisedPath, false, false)
  {
    EnforcingReads();
    DisguisedPathReads();
    NothingLeftBeside(EnforcingCommand, DisguisedPath, QuotedCommand(DisguisedPath, false, false));
  }

  // ------------------------------------------------------ what is not checked

  /** The operator's own part of a list of hooks; anything else is all theirs. */
  function OperatorPart(value: Json): Json {
    if value.Arr? then Arr(Stripped(value.items, Ours())) else value
  }

  /** Settings that setup may merge can still hold something malformed under
      PostToolUse, and lose it: what the operator had there survives exactly when
      it was a list. */
  lemma PostToolUseUnchecked(settings: Json, command: string)
    requires MergeSafe(settings) && Recognised(command)
    requires Get(settings, "hooks").Some? && Get(Get(settings, "hooks").value, "PostToolUse").Some?
    ensures var before := Get(Get(settings, "hooks").value, "PostToolUse").value;
            var after := Arr(EntriesAt(MergedAll(settings, command), "PostToolUse"));
            OperatorPart(after) == OperatorPart(before) <==> before.Arr?
  {
    var before := Get(Get(settings, "hooks").value, "PostToolUse").value;
    MergedEntries(settings, command);
    if before.Arr? {
      OperatorHooksSurvive(before.items, command);
    }
  }

  function OnlyPostToolUse(value: Json): Json {
    Obj(map["hooks" := Obj(map["PostToolUse" := value])])
  }

  lemma OnlyPostToolUseReads(value: Json)
    requires !value.Arr?
    ensures var settings := OnlyPostToolUse(value);
            && MergeSafe(settings) && EntriesAt(settings, "PreToolUse") == [] &&
               EntriesAt(settings, "PostToolUse") == []
            && Get(Get(settings, "hooks").value, "PostToolUse") == Some(value)
  {
  }

  lemma PutHolds(settings: Json, event: string, entries: seq<Json>)
    ensures Get(PutEntries(settings, event, entries), "hooks").Some?
    ensures Get(Get(PutEntries(settings, event, entries), "hooks").value, event) == Some(Arr(entries))
  {
  }

  lemma OnlyOurs(command: string)
    ensures PostEntries([], command) == [NewEntry("*", command)]
  {
    assert Stripped([], Ours()) == [] && [] + [NewEntry("*", command)] == [NewEntry("*", command)];
  }

  lemma PostToolUseAfter(settings: Json, command: string)
    requires EntriesAt(settings, "PostToolUse") == []
    ensures Get(MergedAll(settings, command), "hooks").Some?
    ensures Get(Get(MergedAll(settings, command), "hooks").value, "PostToolUse") == Some(Arr([NewEntry("*", command)]))
  {
    OnlyOurs(command);
    PutHolds(MergedPre(settings, command), "PostToolUse", PostEntries(EntriesAt(settings, "PostToolUse"), command));
  }

  /** Settings that may be merged, with something under PostToolUse that is not a
      list: automatic setup writes them with its own hook in its place. */
  lemma PostToolUseReplaced(value: Json, program: string)
    requires !value.Arr? && '"' !in program && IsInnerWarden(program)
    ensures var settings := OnlyPostToolUse(value);
            var command := AutoCommand(settings, program, false, true);
            var after := MergedAll(settings, command);
            && MergeSafe(settings)
            && AutoOutcome(settings, program, false, true) == Written(after)
            && Get(Get(after, "hooks").value, "PostToolUse") == Some(Arr([NewEntry("*", command)]))
  {
    var settings := OnlyPostToolUse(value);
    OnlyPostToolUseReads(value);
    ModeKept(Effective([], false, true));
    PlainPathReads(program, Flags(Effective([], false, true)).0, Flags(Effective([], false, true)).1, AgentFor([]));
    PostToolUseAfter(settings, AutoCommand(settings, program, false, true));
  }
}
