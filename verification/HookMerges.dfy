/** What the merges promise of the hook entries they leave. */
module HookMerges {
  import opened Options
  import opened Json
  import opened HookCommand
  import opened HookEdits
  import opened HookSettings

  predicate Recognised(command: string) {
    CommandParts(command).Some?
  }

  function Rank(mode: Protection): nat {
    match mode
    case Monitor => 0
    case Enforce => 1
    case BlockReview => 2
  }

  function Stronger(a: Protection, b: Protection): Protection {
    if Rank(a) < Rank(b) then b else a
  }

  function StrongestOf(hooks: seq<Json>): Option<Protection> {
    if hooks == [] then None
    else
      var rest := StrongestOf(hooks[1..]);
      match HookParts(hooks[0])
      case None => rest
      case Some(parts) => Some(if rest.Some? then Stronger(rest.value, parts.mode) else parts.mode)
  }

  /** The strongest mode in which one of our hooks runs for Bash. */
  function Strongest(entries: seq<Json>): Option<Protection> {
    StrongestOf(HooksUnder(entries, UnderBash(), Ours()))
  }

  predicate JudgesFileTools(entries: seq<Json>) {
    match StrongestOf(HooksUnder(entries, UnderFileTools(), Ours()))
    case None => false
    case Some(mode) => mode == Monitor && Strongest(entries).Some? ==> Strongest(entries) == Some(Monitor)
  }

  // ------------------------------------------------------ what strongest means

  /** The hooks of ours that run in this mode. */
  function InMode(mode: Protection): Json -> bool {
    hook => HookParts(hook).Some? && HookParts(hook).value.mode == mode
  }

  predicate Among(hooks: seq<Json>, p: Json -> bool) {
    exists i :: 0 <= i < |hooks| && p(hooks[i])
  }

  lemma AmongFirst(hooks: seq<Json>, p: Json -> bool)
    requires hooks != []
    ensures Among(hooks, p) <==> p(hooks[0]) || Among(hooks[1..], p)
  {
    if Among(hooks[1..], p) {
      var i :| 0 <= i < |hooks[1..]| && p(hooks[1..][i]);
      assert p(hooks[i + 1]);
    }
    if Among(hooks, p) {
      var i :| 0 <= i < |hooks| && p(hooks[i]);
      assert i > 0 ==> p(hooks[1..][i - 1]);
    }
  }

  /** Of the modes there are, the strongest: blocking what is under review, then
      enforcing, then monitoring. */
  predicate IsStrongest(mode: Option<Protection>, monitor: bool, enforce: bool, blockReview: bool) {
    && (mode == Some(BlockReview) <==> blockReview)
    && (mode == Some(Enforce) <==> enforce && !blockReview)
    && (mode == Some(Monitor) <==> monitor && !enforce && !blockReview)
  }

  lemma StrongestJoined(rest: Option<Protection>, mode: Protection, monitor: bool, enforce: bool, blockReview: bool)
    requires IsStrongest(rest, monitor, enforce, blockReview)
    ensures IsStrongest(Some(if rest.Some? then Stronger(rest.value, mode) else mode),
                        monitor || mode == Monitor, enforce || mode == Enforce, blockReview || mode == BlockReview)
  {
  }

  lemma {:induction false} StrongestAmong(hooks: seq<Json>)
    ensures IsStrongest(StrongestOf(hooks), Among(hooks, InMode(Monitor)), Among(hooks, InMode(Enforce)),
                        Among(hooks, InMode(BlockReview)))
  {
    if hooks != [] {
      var rest := hooks[1..];
      StrongestAmong(rest);
      AmongFirst(hooks, InMode(Monitor));
      AmongFirst(hooks, InMode(Enforce));
      AmongFirst(hooks, InMode(BlockReview));
      if HookParts(hooks[0]).Some? {
        StrongestJoined(StrongestOf(rest), HookParts(hooks[0]).value.mode, Among(rest, InMode(Monitor)),
                        Among(rest, InMode(Enforce)), Among(rest, InMode(BlockReview)));
      }
    }
  }

  /** A hook picked by `p` runs for what an entry picked by `under` includes. */
  ghost predicate Runs(entries: seq<Json>, under: Json -> bool, p: Json -> bool) {
    exists entry, hook ::
      entry in entries && under(entry) && EntryHooks(entry).Some? && hook in EntryHooks(entry).value && p(hook)
  }

  lemma HeldHook(entries: seq<Json>, under: Json -> bool, mine: Json -> bool, hook: Json)
    ensures hook in HooksUnder(entries, under, mine) <==> exists entry :: Holds(entries, entry, hook, under, mine)
  {
    UnderHolds(entries, under, mine);
  }

  lemma RunsUnder(entries: seq<Json>, under: Json -> bool, mine: Json -> bool, p: Json -> bool)
    requires forall hook :: p(hook) ==> mine(hook)
    ensures Among(HooksUnder(entries, under, mine), p) <==> Runs(entries, under, p)
  {
    var hooks := HooksUnder(entries, under, mine);
    if Among(hooks, p) {
      var i :| 0 <= i < |hooks| && p(hooks[i]);
      HeldHook(entries, under, mine, hooks[i]);
      var entry :| Holds(entries, entry, hooks[i], under, mine);
    }
    if Runs(entries, under, p) {
      var entry, hook :| entry in entries && under(entry) && EntryHooks(entry).Some? &&
                         hook in EntryHooks(entry).value && p(hook);
      HeldHook(entries, under, mine, hook);
      assert Holds(entries, entry, hook, under, mine);
      var i :| 0 <= i < |hooks| && hooks[i] == hook;
    }
  }

  lemma InModeIsOurs(mode: Protection)
    ensures forall hook :: InMode(mode)(hook) ==> Ours()(hook)
  {
  }

  lemma StrongestUnder(entries: seq<Json>, under: Json -> bool)
    ensures IsStrongest(StrongestOf(HooksUnder(entries, under, Ours())), Runs(entries, under, InMode(Monitor)),
                        Runs(entries, under, InMode(Enforce)), Runs(entries, under, InMode(BlockReview)))
  {
    InModeIsOurs(Monitor);
    InModeIsOurs(Enforce);
    InModeIsOurs(BlockReview);
    StrongestAmong(HooksUnder(entries, under, Ours()));
    RunsUnder(entries, under, Ours(), InMode(Monitor));
    RunsUnder(entries, under, Ours(), InMode(Enforce));
    RunsUnder(entries, under, Ours(), InMode(BlockReview));
  }

  /** What the strongest mode for Bash says of the hooks that run for it: one that
      blocks review if any does, else one that enforces if any does. */
  lemma StrongestRuns(entries: seq<Json>)
    ensures IsStrongest(Strongest(entries), Runs(entries, UnderBash(), InMode(Monitor)),
                        Runs(entries, UnderBash(), InMode(Enforce)), Runs(entries, UnderBash(), InMode(BlockReview)))
  {
    StrongestUnder(entries, UnderBash());
  }

  lemma JudgedWhen(file: Option<Protection>, shell: Option<Protection>, m: bool, e: bool, b: bool,
                   m': bool, e': bool, b': bool)
    requires IsStrongest(file, m, e, b) && IsStrongest(shell, m', e', b')
    ensures (file.Some? && (file == Some(Monitor) && shell.Some? ==> shell == Some(Monitor))) <==>
            e || b || (m && !e' && !b')
  {
    if file.Some? {
      assert file.value.Monitor? || file.value.Enforce? || file.value.BlockReview?;
    }
    if shell.Some? {
      assert shell.value.Monitor? || shell.value.Enforce? || shell.value.BlockReview?;
    }
  }

  /** The file tools are judged when a hook of ours that refuses runs for all of
      them, or one that monitors does while none that refuses runs for Bash. */
  lemma JudgedExactly(entries: seq<Json>)
    ensures JudgesFileTools(entries) <==>
            || Runs(entries, UnderFileTools(), InMode(Enforce)) || Runs(entries, UnderFileTools(), InMode(BlockReview))
            || (Runs(entries, UnderFileTools(), InMode(Monitor)) &&
                !Runs(entries, UnderBash(), InMode(Enforce)) && !Runs(entries, UnderBash(), InMode(BlockReview)))
  {
    StrongestUnder(entries, UnderFileTools());
    StrongestUnder(entries, UnderBash());
    JudgedWhen(StrongestOf(HooksUnder(entries, UnderFileTools(), Ours())), Strongest(entries),
               Runs(entries, UnderFileTools(), InMode(Monitor)), Runs(entries, UnderFileTools(), InMode(Enforce)),
               Runs(entries, UnderFileTools(), InMode(BlockReview)), Runs(entries, UnderBash(), InMode(Monitor)),
               Runs(entries, UnderBash(), InMode(Enforce)), Runs(entries, UnderBash(), InMode(BlockReview)));
  }

  // -------------------------------------------------------------- one command

  lemma MineIsOurs(command: string)
    requires Recognised(command)
    ensures BashEdit(command).mine == Ours() && FileEdit(command).mine == Ours()
  {
  }

  lemma BashHosts(command: string)
    ensures forall entry :: Host(BashEdit(command))(entry) == UnderBash()(entry)
    ensures forall entry :: UnderBash()(entry) ==> FileEdit(command).kind(entry).None?
  {
    forall entry: Json
      ensures Host(BashEdit(command))(entry) == UnderBash()(entry)
      ensures UnderBash()(entry) ==> FileEdit(command).kind(entry).None?
    {
      if IsFileTools(entry) {
        FileToolsCover(entry);
      }
    }
  }

  lemma AppendedHook(entries: seq<Json>, matcher: string, command: string, under: Json -> bool, mine: Json -> bool)
    ensures HooksUnder(entries + [NewEntry(matcher, command)], under, mine) ==
            HooksUnder(entries, under, mine) +
            (if under(NewEntry(matcher, command)) && mine(NewHook(command)) then [NewHook(command)] else [])
  {
    var entry := NewEntry(matcher, command);
    NewEntryFacts(matcher, command);
    UnderAppend(entries, [entry], under, mine);
    UnderOne(entry, under, mine);
    assert [NewHook(command)][1..] == [];
    assert Filter([NewHook(command)], mine) == if mine(NewHook(command)) then [NewHook(command)] else [];
  }

  lemma AppendedEntry(entries: seq<Json>, matcher: string, command: string, under: Json -> bool)
    requires Recognised(command)
    ensures HooksUnder(entries + [NewEntry(matcher, command)], under, Ours()) ==
            HooksUnder(entries, under, Ours()) + (if under(NewEntry(matcher, command)) then [NewHook(command)] else [])
  {
    NewEntryFacts(matcher, command);
    AppendedHook(entries, matcher, command, under, Ours());
  }

  predicate Has(hook: Json, command: string) {
    GetStr(hook, "command") == Some(command)
  }

  ghost predicate OnlyThis(hooks: seq<Json>, command: string) {
    forall hook :: hook in hooks ==> Has(hook, command)
  }

  lemma WrittenHas(hooks: seq<Json>, command: string, edit: Edit)
    requires AllWritten(hooks, edit) && edit.write == Writing(command)
    ensures OnlyThis(hooks, command)
  {
    forall hook | hook in hooks
      ensures Has(hook, command)
    {
      WriteTwice(hook, command);
    }
  }

  /** After the Bash merge exactly one hook of ours runs for Bash, this command,
      and outside the file-tools entry there is no other. */
  lemma BashMerged(entries: seq<Json>, command: string)
    requires Recognised(command)
    ensures var after := BashEntries(entries, command);
            && |HooksUnder(after, UnderBash(), Ours())| == 1
            && OnlyThis(HooksUnder(after, UnderBash(), Ours()), command)
            && HooksUnder(after, Guest(BashEdit(command)), Ours()) == []
  {
    var edit := BashEdit(command);
    var (kept, done) := EditEntries(entries, edit, false);
    EditsSound(command);
    MineIsOurs(command);
    Edited(entries, edit, false);
    BashHosts(command);
    SameUnder(kept, Host(edit), UnderBash(), Ours());
    WrittenHas(HooksUnder(kept, UnderBash(), Ours()), command, edit);
    if !done {
      BashEntryHosts(command);
      NewEntryFacts("Bash", command);
      AppendedEntry(kept, "Bash", command, UnderBash());
      AppendedEntry(kept, "Bash", command, Guest(edit));
    }
  }

  lemma GuestStable(command: string)
    ensures Stable(Guest(BashEdit(command)))
  {
    BashKindStable();
  }

  /** The file merge leaves Bash as it was, and under the file-tools matcher no
      hook of ours but this command. */
  lemma FileMerged(entries: seq<Json>, command: string)
    requires Recognised(command)
    ensures var after := FileEntries(entries, command);
            && HooksUnder(after, UnderBash(), Ours()) == HooksUnder(entries, UnderBash(), Ours())
            && HooksUnder(after, OutsideFileEntry(), Ours()) == HooksUnder(entries, OutsideFileEntry(), Ours())
            && HooksUnder(after, Guest(BashEdit(command)), Ours()) ==
               HooksUnder(entries, Guest(BashEdit(command)), Ours())
            && OnlyThis(HooksUnder(after, InFileEntry(), Ours()), command)
  {
    var edit := FileEdit(command);
    var (kept, done) := EditEntries(entries, edit, false);
    EditsSound(command);
    MineIsOurs(command);
    BashKindStable();
    FileKindStable();
    BashHosts(command);
    Edited(entries, edit, false);
    Untouched(entries, edit, false, UnderBash(), Ours());
    Untouched(entries, edit, false, OutsideFileEntry(), Ours());
    GuestStable(command);
    Untouched(entries, edit, false, Guest(BashEdit(command)), Ours());
    SameUnder(kept, Host(edit), InFileEntry(), Ours());
    WrittenHas(HooksUnder(kept, InFileEntry(), Ours()), command, edit);
    NewEntryFacts(FileToolsMatcher, command);
    FileToolsCover(NewEntry(FileToolsMatcher, command));
    AppendedEntry(kept, FileToolsMatcher, command, UnderBash());
    AppendedEntry(kept, FileToolsMatcher, command, OutsideFileEntry());
    AppendedEntry(kept, FileToolsMatcher, command, Guest(BashEdit(command)));
    AppendedEntry(kept, FileToolsMatcher, command, InFileEntry());
  }

  lemma OutsideKinds(entry: Json, command: string)
    requires OutsideFileEntry()(entry)
    ensures UnderBash()(entry) || Guest(BashEdit(command))(entry)
  {
  }

  lemma OutsideIsHostOrGuest(entries: seq<Json>, command: string)
    requires Recognised(command)
    requires OnlyThis(HooksUnder(entries, UnderBash(), Ours()), command)
    requires HooksUnder(entries, Guest(BashEdit(command)), Ours()) == []
    ensures OnlyThis(HooksUnder(entries, OutsideFileEntry(), Ours()), command)
  {
    UnderHolds(entries, UnderBash(), Ours());
    UnderHolds(entries, Guest(BashEdit(command)), Ours());
    UnderHolds(entries, OutsideFileEntry(), Ours());
    forall hook | hook in HooksUnder(entries, OutsideFileEntry(), Ours())
      ensures Has(hook, command)
    {
      var entry :| Holds(entries, entry, hook, OutsideFileEntry(), Ours());
      OutsideKinds(entry, command);
      if UnderBash()(entry) {
        assert Holds(entries, entry, hook, UnderBash(), Ours());
      } else {
        assert Holds(entries, entry, hook, Guest(BashEdit(command)), Ours());
      }
    }
  }

  lemma InsideOrOutside(entries: seq<Json>, command: string)
    requires OnlyThis(HooksUnder(entries, InFileEntry(), Ours()), command)
    requires OnlyThis(HooksUnder(entries, OutsideFileEntry(), Ours()), command)
    ensures OnlyThis(HooksUnder(entries, Anywhere(), Ours()), command)
  {
    UnderHolds(entries, InFileEntry(), Ours());
    UnderHolds(entries, OutsideFileEntry(), Ours());
    UnderHolds(entries, Anywhere(), Ours());
    forall hook | hook in HooksUnder(entries, Anywhere(), Ours())
      ensures Has(hook, command)
    {
      var entry :| Holds(entries, entry, hook, Anywhere(), Ours());
      if IsFileTools(entry) {
        assert Holds(entries, entry, hook, InFileEntry(), Ours());
      } else {
        assert Holds(entries, entry, hook, OutsideFileEntry(), Ours());
      }
    }
  }

  /** After both merges every hook of ours, wherever it sits, is this command,
      and exactly one of them runs for Bash. */
  lemma OneCommand(entries: seq<Json>, command: string)
    requires Recognised(command)
    ensures var after := BothEntries(entries, command);
            && |HooksUnder(after, UnderBash(), Ours())| == 1
            && OnlyThis(HooksUnder(after, Anywhere(), Ours()), command)
            && OnlyThis(HooksUnder(after, UnderBash(), Ours()), command)
            && HooksUnder(after, Guest(BashEdit(command)), Ours()) == []
            && Strongest(after) == Some(CommandParts(command).value.mode)
  {
    var bash := BashEntries(entries, command);
    var after := FileEntries(bash, command);
    BashMerged(entries, command);
    FileMerged(bash, command);
    OutsideIsHostOrGuest(bash, command);
    InsideOrOutside(after, command);
    StrongestOnly(HooksUnder(after, UnderBash(), Ours()), command);
  }

  lemma {:induction false} StrongestOnly(hooks: seq<Json>, command: string)
    requires Recognised(command) && OnlyThis(hooks, command)
    ensures StrongestOf(hooks) == if hooks == [] then None else Some(CommandParts(command).value.mode)
  {
    if hooks != [] {
      assert Has(hooks[0], command);
      StrongestOnly(hooks[1..], command);
    }
  }

  // --------------------------------------------------------------- file tools

  lemma Somewhere(entries: seq<Json>, entry: Json, hook: Json, under: Json -> bool)
    requires Holds(entries, entry, hook, under, Ours())
    ensures HooksUnder(entries, under, Ours()) != []
  {
    UnderHolds(entries, under, Ours());
    assert hook in HooksUnder(entries, under, Ours());
  }

  lemma UnderOnly(entries: seq<Json>, under: Json -> bool, command: string)
    requires OnlyThis(HooksUnder(entries, Anywhere(), Ours()), command)
    ensures OnlyThis(HooksUnder(entries, under, Ours()), command)
  {
    UnderHolds(entries, under, Ours());
    UnderHolds(entries, Anywhere(), Ours());
    forall hook | hook in HooksUnder(entries, under, Ours())
      ensures Has(hook, command)
    {
      var entry :| Holds(entries, entry, hook, under, Ours());
      assert Holds(entries, entry, hook, Anywhere(), Ours());
    }
  }

  lemma FileEntryServes(entries: seq<Json>)
    requires HooksUnder(entries, InFileEntry(), Ours()) != []
    ensures HooksUnder(entries, UnderFileTools(), Ours()) != []
  {
    var hook := HooksUnder(entries, InFileEntry(), Ours())[0];
    UnderHolds(entries, InFileEntry(), Ours());
    assert hook in HooksUnder(entries, InFileEntry(), Ours());
    var entry :| Holds(entries, entry, hook, InFileEntry(), Ours());
    FileToolsCover(entry);
    Somewhere(entries, entry, hook, UnderFileTools());
  }

  lemma FileToolsServed(entries: seq<Json>, command: string)
    requires Recognised(command)
    ensures HooksUnder(FileEntries(entries, command), UnderFileTools(), Ours()) != []
  {
    var edit := FileEdit(command);
    var (kept, done) := EditEntries(entries, edit, false);
    var after := FileEntries(entries, command);
    EditsSound(command);
    MineIsOurs(command);
    if done {
      Edited(entries, edit, false);
      SameUnder(kept, Host(edit), InFileEntry(), Ours());
      FileEntryServes(kept);
    } else if Covered(kept, command) {
      CoveredServes(kept, command);
    } else {
      var entry := NewEntry(FileToolsMatcher, command);
      NewEntryFacts(FileToolsMatcher, command);
      FileToolsCover(entry);
      AppendedEntry(kept, FileToolsMatcher, command, UnderFileTools());
    }
  }

  lemma CoveredServes(entries: seq<Json>, command: string)
    requires Recognised(command) && Covered(entries, command)
    ensures HooksUnder(entries, UnderFileTools(), Ours()) != []
  {
    var entry :| entry in entries && CoversFileTools(entry) && EntryHooks(entry).Some? &&
                 exists hook :: hook in EntryHooks(entry).value && GetStr(hook, "command") == Some(command);
    var hook :| hook in EntryHooks(entry).value && GetStr(hook, "command") == Some(command);
    Somewhere(entries, entry, hook, UnderFileTools());
  }

  /** After both merges the file tools are judged the way the shell is. */
  lemma FileToolsJudged(entries: seq<Json>, command: string)
    requires Recognised(command)
    ensures JudgesFileTools(BothEntries(entries, command))
  {
    var after := BothEntries(entries, command);
    OneCommand(entries, command);
    FileToolsServed(BashEntries(entries, command), command);
    UnderOnly(after, UnderFileTools(), command);
    StrongestOnly(HooksUnder(after, UnderFileTools(), Ours()), command);
  }

  // ------------------------------------------------------------ what survives

  lemma NewEntryStripped(matcher: string, command: string)
    requires Recognised(command)
    ensures Stripped([NewEntry(matcher, command)], Ours()) == []
  {
    var entry := NewEntry(matcher, command);
    NewEntryFacts(matcher, command);
    TakenEntry(entry, Ours());
    OneEntry(entry, Taking(Ours()), false);
    assert [NewHook(command)][1..] == [];
    assert Filter([NewHook(command)], Not(Ours())) == [];
  }

  lemma AppendStripped(entries: seq<Json>, matcher: string, command: string)
    requires Recognised(command)
    ensures Stripped(entries + [NewEntry(matcher, command)], Ours()) == Stripped(entries, Ours())
  {
    NewEntryStripped(matcher, command);
    StrippedAppend(entries, [NewEntry(matcher, command)], Ours());
  }

  /** Every hook of the operator's stays in its entry, in order, with every field
      of that entry as it was. */
  lemma OperatorHooksSurvive(entries: seq<Json>, command: string)
    requires Recognised(command)
    ensures Stripped(BothEntries(entries, command), Ours()) == Stripped(entries, Ours())
    ensures Stripped(PostEntries(entries, command), Ours()) == Stripped(entries, Ours())
  {
    EditsSound(command);
    TakingSound();
    MineIsOurs(command);
    var bash := BashEntries(entries, command);
    OthersSurvive(entries, BashEdit(command), false);
    AppendStripped(EditEntries(entries, BashEdit(command), false).0, "Bash", command);
    OthersSurvive(bash, FileEdit(command), false);
    AppendStripped(EditEntries(bash, FileEdit(command), false).0, FileToolsMatcher, command);
    OthersSurvive(entries, Taking(Ours()), false);
    AppendStripped(Stripped(entries, Ours()), "*", command);
  }

  /** Removing after the merges is removing alone, and gives the entries back
      exactly when they held no hook of ours and no empty hook list. */
  lemma RemovedAfterMerges(entries: seq<Json>, command: string)
    requires Recognised(command)
    ensures Removed(BothEntries(entries, command), Ours()) == Removed(entries, Ours())
    ensures Removed(BothEntries(entries, command), Ours()) == entries <==> NonePicked(entries, Ours())
  {
    OperatorHooksSurvive(entries, command);
    RemovedIsStripped(entries, Ours());
    RemovedIsStripped(BothEntries(entries, command), Ours());
    RemovesNothing(entries, Ours());
  }

  // -------------------------------------------------------------- merging twice

  lemma NewEntryEdited(matcher: string, command: string, edit: Edit)
    requires Sound(edit) && edit.mine == Mine(command) && edit.write == Writing(command)
    requires edit.kind(NewEntry(matcher, command)) == Some(true)
    ensures EditEntries([NewEntry(matcher, command)], edit, false) == ([NewEntry(matcher, command)], true)
  {
    var entry := NewEntry(matcher, command);
    NewEntryFacts(matcher, command);
    WriteTwice(NewHook(command), command);
    NewHookEdited(command, edit, false);
    OneEntry(entry, edit, false);
  }

  /** Editing what a merge leaves, entry appended or not, changes nothing. */
  lemma EditSettles(entries: seq<Json>, matcher: string, command: string, edit: Edit)
    requires Sound(edit) && edit.mine == Mine(command) && edit.write == Writing(command)
    requires edit.kind(NewEntry(matcher, command)) == Some(true)
    ensures var (kept, done) := EditEntries(entries, edit, false);
            && EditEntries(kept, edit, false) == (kept, done)
            && (!done ==>
                EditEntries(kept + [NewEntry(matcher, command)], edit, false) ==
                (kept + [NewEntry(matcher, command)], true))
  {
    EditTwice(entries, edit, false);
    NewEntryEdited(matcher, command, edit);
    EditAppend(EditEntries(entries, edit, false).0, [NewEntry(matcher, command)], edit, false);
  }

  lemma BashSettled(entries: seq<Json>, command: string)
    ensures var after := BashEntries(entries, command);
            EditEntries(after, BashEdit(command), false) == (after, true)
  {
    EditsSound(command);
    BashEntryHosts(command);
    EditSettles(entries, "Bash", command, BashEdit(command));
  }

  lemma FileKeepsBash(entries: seq<Json>, command: string)
    requires EditEntries(entries, BashEdit(command), false) == (entries, true)
    ensures var after := FileEntries(entries, command);
            EditEntries(after, BashEdit(command), false) == (after, true)
  {
    var bash, file := BashEdit(command), FileEdit(command);
    EditsSound(command);
    EditsDisjoint(command);
    EditsApart(entries, bash, false, file, false);
    var kept := EditEntries(entries, file, false).0;
    var entry := NewEntry(FileToolsMatcher, command);
    NewEntryFacts(FileToolsMatcher, command);
    OneEntry(entry, bash, true);
    EditAppend(kept, [entry], bash, false);
  }

  lemma FileSettled(entries: seq<Json>, command: string)
    ensures FileEntries(FileEntries(entries, command), command) == FileEntries(entries, command)
  {
    EditsSound(command);
    NewEntryFacts(FileToolsMatcher, command);
    EditSettles(entries, FileToolsMatcher, command, FileEdit(command));
  }

  /** Merging the same command again changes nothing. */
  lemma MergesSettle(entries: seq<Json>, command: string)
    ensures BothEntries(BothEntries(entries, command), command) == BothEntries(entries, command)
    ensures Recognised(command) ==> PostEntries(PostEntries(entries, command), command) == PostEntries(entries, command)
  {
    BashSettled(entries, command);
    FileKeepsBash(BashEntries(entries, command), command);
    FileSettled(BashEntries(entries, command), command);
    if Recognised(command) {
      AppendStripped(Stripped(entries, Ours()), "*", command);
      TakingSound();
      OthersSurvive(entries, Taking(Ours()), false);
    }
  }

  // ------------------------------------------------- when merging does nothing

  /** The hooks this command replaces are one under Bash, at most one under the
      file-tools matcher and none elsewhere, each written, and the command runs
      for every file tool. */
  ghost predicate AlreadyWired(entries: seq<Json>, command: string) {
    && |HooksUnder(entries, UnderBash(), Mine(command))| == 1
    && AllWritten(HooksUnder(entries, UnderBash(), Mine(command)), BashEdit(command))
    && HooksUnder(entries, Guest(BashEdit(command)), Mine(command)) == []
    && |HooksUnder(entries, InFileEntry(), Mine(command))| <= 1
    && AllWritten(HooksUnder(entries, InFileEntry(), Mine(command)), FileEdit(command))
    && Covered(entries, command)
  }

  lemma BashTidy(entries: seq<Json>, command: string)
    ensures EditEntries(entries, BashEdit(command), false) == (entries, true) <==>
            && |HooksUnder(entries, UnderBash(), Mine(command))| == 1
            && AllWritten(HooksUnder(entries, UnderBash(), Mine(command)), BashEdit(command))
            && HooksUnder(entries, Guest(BashEdit(command)), Mine(command)) == []
  {
    var edit := BashEdit(command);
    EditsSound(command);
    BashHosts(command);
    SameUnder(entries, Host(edit), UnderBash(), Mine(command));
    EditsNothing(entries, edit, false);
    Installs(entries, edit, false);
  }

  lemma NoGuests(entries: seq<Json>, command: string)
    ensures HooksUnder(entries, Guest(FileEdit(command)), Mine(command)) == []
  {
    if entries != [] {
      NoGuests(entries[1..], command);
    }
  }

  lemma FileTidy(entries: seq<Json>, command: string)
    ensures EditEntries(entries, FileEdit(command), false).0 == entries <==>
            && |HooksUnder(entries, InFileEntry(), Mine(command))| <= 1
            && AllWritten(HooksUnder(entries, InFileEntry(), Mine(command)), FileEdit(command))
  {
    var edit := FileEdit(command);
    EditsSound(command);
    SameUnder(entries, Host(edit), InFileEntry(), Mine(command));
    NoGuests(entries, command);
    EditsNothing(entries, edit, false);
  }

  lemma FileInstalls(entries: seq<Json>, command: string)
    ensures EditEntries(entries, FileEdit(command), false).1 <==>
            HooksUnder(entries, InFileEntry(), Mine(command)) != []
  {
    var edit := FileEdit(command);
    EditsSound(command);
    SameUnder(entries, Host(edit), InFileEntry(), Mine(command));
    Installs(entries, edit, false);
  }

  lemma CoveredBy(entries: seq<Json>, entry: Json, hook: Json, command: string)
    requires Holds(entries, entry, hook, UnderFileTools(), Mine(command)) && Has(hook, command)
    ensures Covered(entries, command)
  {
  }

  /** A file-tools entry with the command written in it covers the file tools. */
  lemma WrittenCovers(entries: seq<Json>, command: string)
    requires HooksUnder(entries, InFileEntry(), Mine(command)) != []
    requires AllWritten(HooksUnder(entries, InFileEntry(), Mine(command)), FileEdit(command))
    ensures Covered(entries, command)
  {
    var hook := HooksUnder(entries, InFileEntry(), Mine(command))[0];
    WrittenHas(HooksUnder(entries, InFileEntry(), Mine(command)), command, FileEdit(command));
    UnderHolds(entries, InFileEntry(), Mine(command));
    assert hook in HooksUnder(entries, InFileEntry(), Mine(command));
    var entry :| Holds(entries, entry, hook, InFileEntry(), Mine(command));
    FileToolsCover(entry);
    CoveredBy(entries, entry, hook, command);
  }

  lemma FileMergesNothing(entries: seq<Json>, command: string)
    ensures FileEntries(entries, command) == entries <==>
            && |HooksUnder(entries, InFileEntry(), Mine(command))| <= 1
            && AllWritten(HooksUnder(entries, InFileEntry(), Mine(command)), FileEdit(command))
            && Covered(entries, command)
  {
    EditsSound(command);
    NewEntryFacts(FileToolsMatcher, command);
    EditSettles(entries, FileToolsMatcher, command, FileEdit(command));
    FileTidy(entries, command);
    FileInstalls(entries, command);
    if FileEntries(entries, command) == entries && EditEntries(entries, FileEdit(command), false).1 {
      WrittenCovers(entries, command);
    }
  }

  /** Merging a command changes nothing exactly when it is wired already. */
  lemma MergesNothing(entries: seq<Json>, command: string)
    ensures BothEntries(entries, command) == entries <==> AlreadyWired(entries, command)
  {
    BashTidy(entries, command);
    FileMergesNothing(entries, command);
    if BothEntries(entries, command) == entries {
      BashSettled(entries, command);
      FileKeepsBash(BashEntries(entries, command), command);
    }
  }

  // ------------------------------------------------- merging some other command

  lemma NotOurs(command: string, hook: Json)
    requires !Recognised(command) && Mine(command)(hook)
    ensures HookParts(hook).None?
  {
  }

  lemma OtherKept(entries: seq<Json>, written: string, command: string, under: Json -> bool)
    requires Recognised(written) && !Recognised(command) && Stable(under)
    ensures HooksUnder(BothEntries(entries, written), under, Mine(command)) == HooksUnder(entries, under, Mine(command))
  {
    var bash := BashEntries(entries, written);
    EditsSound(written);
    MineIsOurs(written);
    forall hook | Mine(command)(hook)
      ensures Not(Ours())(hook)
    {
      NotOurs(command, hook);
    }
    assert !Mine(command)(NewHook(written)) by {
      NewEntryFacts("Bash", written);
    }
    OthersUnder(entries, BashEdit(written), false, under, Mine(command));
    AppendedHook(EditEntries(entries, BashEdit(written), false).0, "Bash", written, under, Mine(command));
    OthersUnder(bash, FileEdit(written), false, under, Mine(command));
    AppendedHook(EditEntries(bash, FileEdit(written), false).0, FileToolsMatcher, written, under, Mine(command));
  }

  lemma CoveredIs(entries: seq<Json>, command: string)
    requires !Recognised(command)
    ensures Covered(entries, command) <==> HooksUnder(entries, UnderFileTools(), Mine(command)) != []
  {
    var hooks := HooksUnder(entries, UnderFileTools(), Mine(command));
    UnderHolds(entries, UnderFileTools(), Mine(command));
    if Covered(entries, command) {
      var entry :| entry in entries && CoversFileTools(entry) && EntryHooks(entry).Some? &&
                   exists hook :: hook in EntryHooks(entry).value && GetStr(hook, "command") == Some(command);
      var hook :| hook in EntryHooks(entry).value && GetStr(hook, "command") == Some(command);
      assert Holds(entries, entry, hook, UnderFileTools(), Mine(command));
      assert hook in hooks;
    }
    if hooks != [] {
      assert hooks[0] in hooks;
      var entry :| Holds(entries, entry, hooks[0], UnderFileTools(), Mine(command));
      CoveredBy(entries, entry, hooks[0], command);
    }
  }

  /** Whether a command that is not ours is wired already does not change when
      one of ours is merged. */
  lemma OtherWired(entries: seq<Json>, written: string, command: string)
    requires Recognised(written) && !Recognised(command)
    ensures AlreadyWired(BothEntries(entries, written), command) <==> AlreadyWired(entries, command)
  {
    BashKindStable();
    FileKindStable();
    GuestStable(command);
    UnderFileToolsStable();
    OtherKept(entries, written, command, UnderBash());
    OtherKept(entries, written, command, Guest(BashEdit(command)));
    OtherKept(entries, written, command, InFileEntry());
    OtherKept(entries, written, command, UnderFileTools());
    CoveredIs(entries, command);
    CoveredIs(BothEntries(entries, written), command);
  }

  lemma UnderFileToolsStable()
    ensures Stable(UnderFileTools())
  {
    forall entry: Json, hooks | entry.Obj?
      ensures UnderFileTools()(WithHooks(entry, hooks)) == UnderFileTools()(entry)
    {
      MatcherKept(entry, hooks);
    }
  }

  // -------------------------------------------------- what of a hook is changed

  /** The hook as it was, but for its type and its command. */
  ghost predicate Updated(was: Json, now: Json, command: string) {
    && was.Obj? && now.Obj?
    && now.fields.Keys == was.fields.Keys + {"type", "command"}
    && now.fields["type"] == Str("command") && now.fields["command"] == Str(command)
    && forall key :: key in was.fields && key != "type" && key != "command" ==> now.fields[key] == was.fields[key]
  }

  /** The hook a merge adds. */
  predicate IsNew(hook: Json, command: string) {
    hook == Obj(map["type" := Str("command"), "command" := Str(command)])
  }

  lemma SetUpdates(hook: Json, command: string)
    requires hook.Obj?
    ensures Updated(hook, With(With(hook, "type", Str("command")), "command", Str(command)), command)
  {
  }

  lemma MineIsObject(hook: Json, command: string)
    requires Mine(command)(hook)
    ensures hook.Obj?
  {
  }

  lemma WrittenUpdates(hook: Json, command: string)
    requires Mine(command)(hook)
    ensures Updated(hook, Writing(command)(hook), command)
  {
    MineIsObject(hook, command);
    SetUpdates(hook, command);
    WritingIs(hook, command);
  }

  lemma WritingIs(hook: Json, command: string)
    requires hook.Obj?
    ensures Writing(command)(hook) == With(With(hook, "type", Str("command")), "command", Str(command))
  {
  }

  lemma FirstIsOurs(entries: seq<Json>, under: Json -> bool, command: string)
    requires Recognised(command) && HooksUnder(entries, under, Ours()) != []
    ensures Mine(command)(HooksUnder(entries, under, Ours())[0])
  {
    var hooks := HooksUnder(entries, under, Ours());
    HeldHook(entries, under, Ours(), hooks[0]);
    assert hooks[0] in hooks;
    var entry :| Holds(entries, entry, hooks[0], under, Ours());
  }

  /** The hook of ours that runs for Bash after the Bash merge is the first that
      did, with every other field it had, or else the new one. */
  lemma BashKeepsFields(entries: seq<Json>, command: string)
    requires Recognised(command)
    ensures var was := HooksUnder(entries, UnderBash(), Ours());
            var now := HooksUnder(BashEntries(entries, command), UnderBash(), Ours());
            && |now| == 1
            && (was == [] ==> IsNew(now[0], command))
            && (was != [] ==> Updated(was[0], now[0], command))
  {
    var edit := BashEdit(command);
    var (kept, done) := EditEntries(entries, edit, false);
    BashMerged(entries, command);
    EditsSound(command);
    MineIsOurs(command);
    BashHosts(command);
    Kept(entries, edit, false);
    Installs(entries, edit, false);
    SameUnder(entries, Host(edit), UnderBash(), Ours());
    SameUnder(kept, Host(edit), UnderBash(), Ours());
    if HooksUnder(entries, UnderBash(), Ours()) != [] {
      FirstIsOurs(entries, UnderBash(), command);
      WrittenUpdates(HooksUnder(entries, UnderBash(), Ours())[0], command);
    } else {
      BashEntryHosts(command);
      AppendedEntry(kept, "Bash", command, UnderBash());
    }
  }

  /** In the file-tools entry the file merge leaves the first hook of ours that
      was there, with every other field it had, or the new one, or none. */
  lemma FileKeepsFields(entries: seq<Json>, command: string)
    requires Recognised(command)
    ensures var was := HooksUnder(entries, InFileEntry(), Ours());
            var now := HooksUnder(FileEntries(entries, command), InFileEntry(), Ours());
            && |now| <= 1
            && (was == [] && |now| == 1 ==> IsNew(now[0], command))
            && (was != [] ==> |now| == 1 && Updated(was[0], now[0], command))
  {
    var edit := FileEdit(command);
    var (kept, done) := EditEntries(entries, edit, false);
    EditsSound(command);
    MineIsOurs(command);
    Kept(entries, edit, false);
    Installs(entries, edit, false);
    SameUnder(entries, Host(edit), InFileEntry(), Ours());
    SameUnder(kept, Host(edit), InFileEntry(), Ours());
    if HooksUnder(entries, InFileEntry(), Ours()) != [] {
      FirstIsOurs(entries, InFileEntry(), command);
      WrittenUpdates(HooksUnder(entries, InFileEntry(), Ours())[0], command);
    } else {
      NewEntryFacts(FileToolsMatcher, command);
      AppendedEntry(kept, FileToolsMatcher, command, InFileEntry());
    }
  }

  lemma BashLeavesFileHooks(entries: seq<Json>, command: string)
    requires Recognised(command)
    ensures HooksUnder(BashEntries(entries, command), InFileEntry(), Ours()) ==
            HooksUnder(entries, InFileEntry(), Ours())
  {
    EditsSound(command);
    FileKindStable();
    Untouched(entries, BashEdit(command), false, InFileEntry(), Ours());
    BashEntryHosts(command);
    AppendedEntry(EditEntries(entries, BashEdit(command), false).0, "Bash", command, InFileEntry());
  }

  /** After both merges the hook of ours for Bash is the first that ran for Bash,
      the one in the file-tools entry the first that was there, each with every
      field it had but its type and command; or they are new. */
  lemma MergesKeepFields(entries: seq<Json>, command: string)
    requires Recognised(command)
    ensures var after := BothEntries(entries, command);
            var was, was' := HooksUnder(entries, UnderBash(), Ours()), HooksUnder(entries, InFileEntry(), Ours());
            var now, now' := HooksUnder(after, UnderBash(), Ours()), HooksUnder(after, InFileEntry(), Ours());
            && |now| == 1 && |now'| <= 1
            && (if was == [] then IsNew(now[0], command) else Updated(was[0], now[0], command))
            && (was' == [] && |now'| == 1 ==> IsNew(now'[0], command))
            && (was' != [] ==> |now'| == 1 && Updated(was'[0], now'[0], command))
  {
    BashKeepsFields(entries, command);
    FileMerged(BashEntries(entries, command), command);
    FileKeepsFields(BashEntries(entries, command), command);
    BashLeavesFileHooks(entries, command);
  }

  lemma OursForBashOrFiles(entries: seq<Json>, command: string, hook: Json)
    requires Recognised(command) && hook in HooksUnder(BothEntries(entries, command), Anywhere(), Ours())
    ensures var after := BothEntries(entries, command);
            hook in HooksUnder(after, UnderBash(), Ours()) || hook in HooksUnder(after, InFileEntry(), Ours())
  {
    var after := BothEntries(entries, command);
    HeldHook(after, Anywhere(), Ours(), hook);
    var entry :| Holds(after, entry, hook, Anywhere(), Ours());
    HeldHook(after, UnderBash(), Ours(), hook);
    HeldHook(after, InFileEntry(), Ours(), hook);
    if IsFileTools(entry) {
      assert Holds(after, entry, hook, InFileEntry(), Ours());
    } else {
      OutsideKinds(entry, command);
      OneCommand(entries, command);
      HeldHook(after, Guest(BashEdit(command)), Ours(), hook);
      assert UnderBash()(entry) ==> Holds(after, entry, hook, UnderBash(), Ours());
      assert !UnderBash()(entry) ==> Holds(after, entry, hook, Guest(BashEdit(command)), Ours());
    }
  }

  lemma OnlyOne(hooks: seq<Json>, hook: Json)
    requires hook in hooks && |hooks| <= 1
    ensures hooks == [hook]
  {
  }

  /** The hook of ours a merge kept was there before, or is new. */
  ghost predicate ComesFrom(before: seq<Json>, hook: Json, command: string) {
    IsNew(hook, command) || exists was :: was in before && Updated(was, hook, command)
  }

  lemma ComesFromFirst(before: seq<Json>, was: Json, hook: Json, command: string)
    requires was in before && Updated(was, hook, command)
    ensures ComesFrom(before, hook, command)
  {
  }

  /** So every hook of ours afterwards is the new one, or one that was there with
      nothing but its type and command changed. */
  lemma EveryHookKeepsFields(entries: seq<Json>, command: string, hook: Json)
    requires Recognised(command) && hook in HooksUnder(BothEntries(entries, command), Anywhere(), Ours())
    ensures ComesFrom(HooksUnder(entries, Anywhere(), Ours()), hook, command)
  {
    var after, before := BothEntries(entries, command), HooksUnder(entries, Anywhere(), Ours());
    OursForBashOrFiles(entries, command, hook);
    MergesKeepFields(entries, command);
    FirstAnywhere(entries, UnderBash());
    FirstAnywhere(entries, InFileEntry());
    if hook in HooksUnder(after, UnderBash(), Ours()) {
      OnlyOne(HooksUnder(after, UnderBash(), Ours()), hook);
      if HooksUnder(entries, UnderBash(), Ours()) != [] {
        ComesFromFirst(before, HooksUnder(entries, UnderBash(), Ours())[0], hook, command);
      }
    } else {
      OnlyOne(HooksUnder(after, InFileEntry(), Ours()), hook);
      if HooksUnder(entries, InFileEntry(), Ours()) != [] {
        ComesFromFirst(before, HooksUnder(entries, InFileEntry(), Ours())[0], hook, command);
      }
    }
  }

  lemma FirstAnywhere(entries: seq<Json>, under: Json -> bool)
    ensures HooksUnder(entries, under, Ours()) != [] ==>
              HooksUnder(entries, under, Ours())[0] in HooksUnder(entries, Anywhere(), Ours())
  {
    var hooks := HooksUnder(entries, under, Ours());
    if hooks != [] {
      HeldHook(entries, under, Ours(), hooks[0]);
      HeldHook(entries, Anywhere(), Ours(), hooks[0]);
      assert hooks[0] in hooks;
      var entry :| Holds(entries, entry, hooks[0], under, Ours());
      assert Holds(entries, entry, hooks[0], Anywhere(), Ours());
    }
  }

  lemma OneHookEdited(hook: Json, edit: Edit)
    requires edit.mine(hook)
    ensures EditHooks([hook], edit, true, false) == ([edit.write(hook)], true)
  {
    assert [hook][1..] == [] && [edit.write(hook)] + [] == [edit.write(hook)];
  }

  lemma OneHookHost(entry: Json, hook: Json, edit: Edit)
    requires Sound(edit) && edit.kind(entry) == Some(true) && EntryHooks(entry) == Some([hook]) && edit.mine(hook)
    ensures entry.Obj?
    ensures EditEntries([entry], edit, false) == ([WithHooks(entry, [edit.write(hook)])], true)
  {
    OneHookEdited(hook, edit);
    OneEntry(entry, edit, false);
  }

  lemma BashHostKind(entry: Json, command: string)
    requires UnderBash()(entry)
    ensures BashEdit(command).kind(entry) == Some(true)
  {
    BashHosts(command);
    assert Host(BashEdit(command))(entry) == UnderBash()(entry);
  }

  /** An entry with one hook of ours, under a matcher that includes Bash, stays
      that entry with that hook brought up to date. */
  lemma OneHookEntry(entry: Json, hook: Json, command: string)
    requires Recognised(command) && UnderBash()(entry)
    requires EntryHooks(entry) == Some([hook]) && HookParts(hook).Some?
    ensures entry.Obj?
    ensures exists now :: BashEntries([entry], command) == [WithHooks(entry, [now])] && Updated(hook, now, command)
  {
    var edit := BashEdit(command);
    EditsSound(command);
    BashHostKind(entry, command);
    assert Mine(command)(hook);
    OneHookHost(entry, hook, edit);
    WrittenUpdates(hook, command);
  }
}
