/** Editing the hook entries of a settings file: each entry routes the tools its
    matcher names to a list of hooks. */
module HookEdits {
  import opened Options
  import opened Json

  /** `kind` says of an entry whether the edit touches it, and whether it may
      host the hook; `mine` picks the hooks to replace; `write` brings the first
      of them in a host up to date. */
  datatype Edit = Edit(kind: Json -> Option<bool>, mine: Json -> bool, write: Json -> Json)

  function EntryHooks(entry: Json): Option<seq<Json>> {
    GetArr(entry, "hooks")
  }

  function WithHooks(entry: Json, hooks: seq<Json>): Json
    requires entry.Obj?
  {
    With(entry, "hooks", Arr(hooks))
  }

  /** The hooks kept, and whether one has been written by then. */
  function EditHooks(hooks: seq<Json>, edit: Edit, host: bool, done: bool): (seq<Json>, bool) {
    if hooks == [] then ([], done)
    else if !edit.mine(hooks[0]) then
      var (rest, after) := EditHooks(hooks[1..], edit, host, done);
      ([hooks[0]] + rest, after)
    else if host && !done then
      var (rest, after) := EditHooks(hooks[1..], edit, host, true);
      ([edit.write(hooks[0])] + rest, after)
    else EditHooks(hooks[1..], edit, host, done)
  }

  /** An entry goes when the edit took its last hook. */
  function EditEntry(entry: Json, edit: Edit, done: bool): (seq<Json>, bool) {
    if edit.kind(entry).None? || EntryHooks(entry).None? then ([entry], done)
    else
      var hooks := EntryHooks(entry).value;
      var (kept, after) := EditHooks(hooks, edit, edit.kind(entry).value, done);
      if hooks != [] && kept == [] then ([], after) else ([WithHooks(entry, kept)], after)
  }

  function EditEntries(entries: seq<Json>, edit: Edit, done: bool): (seq<Json>, bool) {
    if entries == [] then ([], done)
    else
      var (first, between) := EditEntry(entries[0], edit, done);
      var (rest, after) := EditEntries(entries[1..], edit, between);
      (first + rest, after)
  }

  // ------------------------------------------------------------ in-place form

  method RetainHooks(hooks: seq<Json>, edit: Edit, host: bool, done: bool) returns (kept: seq<Json>, after: bool)
    ensures (kept, after) == EditHooks(hooks, edit, host, done)
  {
    kept, after := [], done;
    var i := 0;
    assert hooks[0..] == hooks;
    OntoNothing(EditHooks(hooks, edit, host, done));
    while i < |hooks|
      invariant 0 <= i <= |hooks|
      invariant EditHooks(hooks, edit, host, done) == Onto(kept, EditHooks(hooks[i..], edit, host, after))
    {
      var hook := hooks[i];
      ghost var rest := hooks[i..];
      assert rest[0] == hook && rest[1..] == hooks[i + 1..];
      ghost var was := kept;
      if !edit.mine(hook) {
        kept := kept + [hook];
        OntoSnoc(was, hook, EditHooks(hooks[i + 1..], edit, host, after));
      } else if host && !after {
        kept, after := kept + [edit.write(hook)], true;
        OntoSnoc(was, edit.write(hook), EditHooks(hooks[i + 1..], edit, host, true));
      }
      i := i + 1;
    }
    assert kept + [] == kept;
  }

  function Onto(kept: seq<Json>, r: (seq<Json>, bool)): (seq<Json>, bool) {
    (kept + r.0, r.1)
  }

  lemma OntoNothing(r: (seq<Json>, bool))
    ensures Onto([], r) == r
  {
    assert [] + r.0 == r.0;
  }

  lemma OntoSnoc(kept: seq<Json>, hook: Json, r: (seq<Json>, bool))
    ensures Onto(kept, ([hook] + r.0, r.1)) == Onto(kept + [hook], r)
  {
    assert kept + ([hook] + r.0) == kept + [hook] + r.0;
  }

  lemma OntoMore(kept: seq<Json>, more: seq<Json>, r: (seq<Json>, bool))
    ensures Onto(kept, (more + r.0, r.1)) == Onto(kept + more, r)
  {
    assert kept + (more + r.0) == kept + more + r.0;
  }

  method RetainEntries(entries: seq<Json>, edit: Edit) returns (kept: seq<Json>, done: bool)
    ensures (kept, done) == EditEntries(entries, edit, false)
  {
    kept, done := [], false;
    var i := 0;
    assert entries[0..] == entries;
    OntoNothing(EditEntries(entries, edit, false));
    while i < |entries|
      invariant 0 <= i <= |entries|
      invariant EditEntries(entries, edit, false) == Onto(kept, EditEntries(entries[i..], edit, done))
    {
      var entry := entries[i];
      assert entries[i..][0] == entry && entries[i..][1..] == entries[i + 1..];
      ghost var first := EditEntry(entry, edit, done);
      OntoMore(kept, first.0, EditEntries(entries[i + 1..], edit, first.1));
      var hooks := EntryHooks(entry);
      if edit.kind(entry).None? || hooks.None? {
        kept := kept + [entry];
      } else {
        var left;
        left, done := RetainHooks(hooks.value, edit, edit.kind(entry).value, done);
        if hooks.value == [] || left != [] {
          kept := kept + [WithHooks(entry, left)];
        } else {
          assert kept + [] == kept;
        }
      }
      i := i + 1;
    }
    assert kept + [] == kept;
  }

  // --------------------------------------------------------------- what it does

  /** Writing is settled in one go, and an edit looks only at an entry's matcher. */
  ghost predicate Sound(edit: Edit) {
    && (forall hook :: edit.mine(hook) ==>
        edit.mine(edit.write(hook)) && edit.write(edit.write(hook)) == edit.write(hook))
    && Stable(edit.kind)
  }

  ghost predicate Stable<T(!new)>(of: Json -> T) {
    forall entry: Json, hooks :: entry.Obj? ==> of(WithHooks(entry, hooks)) == of(entry)
  }

  function Filter(hooks: seq<Json>, p: Json -> bool): (r: seq<Json>)
    ensures forall h :: h in r <==> h in hooks && p(h)
  {
    if hooks == [] then []
    else
      assert hooks == [hooks[0]] + hooks[1..];
      (if p(hooks[0]) then [hooks[0]] else []) + Filter(hooks[1..], p)
  }

  function Not(p: Json -> bool): Json -> bool {
    h => !p(h)
  }

  /** The hooks picked by `mine` under the entries `under` picks. */
  function HooksUnder(entries: seq<Json>, under: Json -> bool, mine: Json -> bool): seq<Json> {
    if entries == [] then []
    else HooksOf(entries[0], under, mine) + HooksUnder(entries[1..], under, mine)
  }

  function HooksOf(entry: Json, under: Json -> bool, mine: Json -> bool): seq<Json> {
    if under(entry) && EntryHooks(entry).Some? then Filter(EntryHooks(entry).value, mine) else []
  }

  lemma FilterCons(hook: Json, hooks: seq<Json>, p: Json -> bool)
    ensures Filter([hook] + hooks, p) == (if p(hook) then [hook] else []) + Filter(hooks, p)
  {
    assert ([hook] + hooks)[1..] == hooks;
  }

  ghost predicate AllWritten(hooks: seq<Json>, edit: Edit) {
    forall h :: h in hooks ==> edit.write(h) == h
  }

  /** What an edit does to a list of hooks. */
  ghost predicate HooksEdited(hooks: seq<Json>, edit: Edit, host: bool, done: bool, kept: seq<Json>, after: bool) {
    && (after <==> done || (host && Filter(hooks, edit.mine) != []))
    && |Filter(kept, edit.mine)| == (if after && !done then 1 else 0)
    && AllWritten(Filter(kept, edit.mine), edit)
    && Filter(kept, Not(edit.mine)) == Filter(hooks, Not(edit.mine))
    && EditHooks(kept, edit, host, done) == (kept, after)
  }

  /** Of the hooks it picks an edit leaves at most one, written; it leaves the
      others alone; and a second time it finds nothing to do. */
  lemma {:induction false} EditedHooks(hooks: seq<Json>, edit: Edit, host: bool, done: bool)
    requires Sound(edit)
    ensures HooksEdited(hooks, edit, host, done, EditHooks(hooks, edit, host, done).0,
                        EditHooks(hooks, edit, host, done).1)
  {
    if hooks != [] {
      var hook, rest := hooks[0], hooks[1..];
      assert hooks == [hook] + rest;
      var begun := if edit.mine(hook) && host then true else done;
      EditedHooks(rest, edit, host, begun);
      var (kept, after) := EditHooks(rest, edit, host, begun);
      if !edit.mine(hook) {
        EditedKept(hook, rest, edit, host, done, kept, after);
      } else if host && !done {
        EditedWritten(hook, rest, edit, kept, after);
      } else {
        EditedDropped(hook, rest, edit, host, done, kept, after);
      }
    }
  }

  lemma EditedKept(hook: Json, rest: seq<Json>, edit: Edit, host: bool, done: bool, kept: seq<Json>, after: bool)
    requires !edit.mine(hook) && HooksEdited(rest, edit, host, done, kept, after)
    ensures HooksEdited([hook] + rest, edit, host, done, [hook] + kept, after)
  {
    KeptInFront(hook, kept, edit, host, done);
    KeptInFront(hook, rest, edit, host, done);
  }

  lemma EditedWritten(hook: Json, rest: seq<Json>, edit: Edit, kept: seq<Json>, after: bool)
    requires Sound(edit) && edit.mine(hook) && HooksEdited(rest, edit, true, true, kept, after)
    ensures HooksEdited([hook] + rest, edit, true, false, [edit.write(hook)] + kept, after)
  {
    WrittenInFront(edit.write(hook), kept, edit);
    PickedInFront(hook, rest, edit);
  }

  lemma EditedDropped(hook: Json, rest: seq<Json>, edit: Edit, host: bool, done: bool, kept: seq<Json>, after: bool)
    requires edit.mine(hook) && (host ==> done) && HooksEdited(rest, edit, host, done, kept, after)
    ensures HooksEdited([hook] + rest, edit, host, done, kept, after)
  {
    PickedInFront(hook, rest, edit);
  }

  lemma PickedInFront(hook: Json, rest: seq<Json>, edit: Edit)
    requires edit.mine(hook)
    ensures Filter([hook] + rest, edit.mine) == [hook] + Filter(rest, edit.mine)
    ensures Filter([hook] + rest, Not(edit.mine)) == Filter(rest, Not(edit.mine))
  {
    FilterCons(hook, rest, edit.mine);
    FilterCons(hook, rest, Not(edit.mine));
  }

  lemma KeptInFront(hook: Json, kept: seq<Json>, edit: Edit, host: bool, done: bool)
    requires !edit.mine(hook)
    ensures Filter([hook] + kept, edit.mine) == Filter(kept, edit.mine)
    ensures Filter([hook] + kept, Not(edit.mine)) == [hook] + Filter(kept, Not(edit.mine))
    ensures EditHooks([hook] + kept, edit, host, done) == Onto([hook], EditHooks(kept, edit, host, done))
  {
    FilterCons(hook, kept, edit.mine);
    FilterCons(hook, kept, Not(edit.mine));
    assert ([hook] + kept)[1..] == kept;
  }

  lemma WrittenInFront(hook: Json, kept: seq<Json>, edit: Edit)
    requires edit.mine(hook) && edit.write(hook) == hook
    ensures Filter([hook] + kept, edit.mine) == [hook] + Filter(kept, edit.mine)
    ensures Filter([hook] + kept, Not(edit.mine)) == Filter(kept, Not(edit.mine))

    ensures EditHooks([hook] + kept, edit, true, false) == Onto([hook], EditHooks(kept, edit, true, true))
  {
    FilterCons(hook, kept, edit.mine);
    FilterCons(hook, kept, Not(edit.mine));
    assert ([hook] + kept)[1..] == kept;
  }

  // ------------------------------------------------------------- entry by entry

  lemma WithHooksTwice(entry: Json, hooks: seq<Json>, again: seq<Json>)
    requires entry.Obj?
    ensures EntryHooks(WithHooks(entry, hooks)) == Some(hooks)
    ensures WithHooks(WithHooks(entry, hooks), again) == WithHooks(entry, again)
  {
  }

  lemma SameHooks(entry: Json)
    requires EntryHooks(entry).Some?
    ensures entry.Obj? && WithHooks(entry, EntryHooks(entry).value) == entry
  {
    assert entry.fields["hooks" := entry.fields["hooks"]] == entry.fields;
  }

  predicate Touches(entry: Json, edit: Edit) {
    edit.kind(entry).Some? && EntryHooks(entry).Some?
  }

  /** What is left of an entry the edit touches. */
  lemma TouchedEntry(entry: Json, edit: Edit, done: bool)
    requires Sound(edit) && Touches(entry, edit)
    ensures entry.Obj?
    ensures var hooks := EntryHooks(entry).value;
            var (kept, after) := EditHooks(hooks, edit, edit.kind(entry).value, done);
            && EditEntry(entry, edit, done) ==
               (if hooks != [] && kept == [] then [] else [WithHooks(entry, kept)], after)
            && EntryHooks(WithHooks(entry, kept)) == Some(kept)
            && edit.kind(WithHooks(entry, kept)) == edit.kind(entry)
  {
  }

  lemma EntryTwice(entry: Json, edit: Edit, done: bool)
    requires Sound(edit)
    ensures EditEntries(EditEntry(entry, edit, done).0, edit, done) == EditEntry(entry, edit, done)
  {
    var (first, after) := EditEntry(entry, edit, done);
    if !Touches(entry, edit) {
      OneEntry(entry, edit, done);
    } else {
      var hooks, host := EntryHooks(entry).value, edit.kind(entry).value;
      TouchedEntry(entry, edit, done);
      EditedHooks(hooks, edit, host, done);
      var kept := EditHooks(hooks, edit, host, done).0;
      if first == [] {
        assert Filter(kept, edit.mine) == [];
      } else {
        var again := WithHooks(entry, kept);
        WithHooksTwice(entry, kept, kept);
        TouchedEntry(again, edit, done);
        OneEntry(again, edit, done);
      }
    }
  }

  lemma OneEntry(entry: Json, edit: Edit, done: bool)
    ensures EditEntries([entry], edit, done) == EditEntry(entry, edit, done)
  {
    var r := EditEntry(entry, edit, done);
    assert [entry][1..] == [] && r.0 + [] == r.0;
  }

  lemma {:induction false} EditAppend(a: seq<Json>, b: seq<Json>, edit: Edit, done: bool)
    ensures EditEntries(a + b, edit, done) ==
            Onto(EditEntries(a, edit, done).0, EditEntries(b, edit, EditEntries(a, edit, done).1))
  {
    if a == [] {
      assert a + b == b;
      OntoNothing(EditEntries(b, edit, done));
    } else {
      assert (a + b)[1..] == a[1..] + b && (a + b)[0] == a[0];
      var (first, between) := EditEntry(a[0], edit, done);
      EditAppend(a[1..], b, edit, between);
      var (rest, after) := EditEntries(a[1..], edit, between);
      assert first + (rest + EditEntries(b, edit, after).0) == first + rest + EditEntries(b, edit, after).0;
    }
  }

  /** An edit finds nothing more to do a second time. */
  lemma {:induction false} EditTwice(entries: seq<Json>, edit: Edit, done: bool)
    requires Sound(edit)
    ensures EditEntries(EditEntries(entries, edit, done).0, edit, done) == EditEntries(entries, edit, done)
  {
    if entries != [] {
      var (first, between) := EditEntry(entries[0], edit, done);
      var rest := EditEntries(entries[1..], edit, between).0;
      EntryTwice(entries[0], edit, done);
      EditTwice(entries[1..], edit, between);
      EditAppend(first, rest, edit, done);
    }
  }

  ghost predicate Disjoint(a: Edit, b: Edit) {
    forall entry :: a.kind(entry).Some? ==> b.kind(entry).None?
  }

  lemma EditShrinks(entries: seq<Json>, edit: Edit, done: bool)
    ensures |EditEntries(entries, edit, done).0| <= |entries|
  {
  }

  /** What an edit leaves as it is, an edit of other entries leaves it so. */
  lemma {:induction false} EditsApart(entries: seq<Json>, edit: Edit, done: bool, other: Edit, begun: bool)
    requires Disjoint(other, edit) && Sound(other)
    requires EditEntries(entries, edit, done).0 == entries
    ensures var left := EditEntries(entries, other, begun).0;
            EditEntries(left, edit, done) == (left, EditEntries(entries, edit, done).1)
  {
    if entries != [] {
      var (first, between) := EditEntry(entries[0], edit, done);
      EditShrinks(entries[1..], edit, between);
      assert |first| <= 1 && first + EditEntries(entries[1..], edit, between).0 == entries;
      assert |first| == 1 && first == [entries[0]];
      assert EditEntries(entries[1..], edit, between).0 == entries[1..];
      var (kept, after) := EditEntry(entries[0], other, begun);
      EditsApart(entries[1..], edit, between, other, after);
      var rest := EditEntries(entries[1..], other, after).0;
      EntryApart(entries[0], edit, done, other, begun);
      EditAppend(kept, rest, edit, done);
    }
  }

  lemma EntryApart(entry: Json, edit: Edit, done: bool, other: Edit, begun: bool)
    requires Disjoint(other, edit) && Sound(other)
    requires EditEntry(entry, edit, done).0 == [entry]
    ensures EditEntries(EditEntry(entry, other, begun).0, edit, done) ==
            (EditEntry(entry, other, begun).0, EditEntry(entry, edit, done).1)
  {
    var kept := EditEntry(entry, other, begun).0;
    if Touches(entry, other) {
      TouchedEntry(entry, other, begun);
      if kept != [] {
        OneEntry(kept[0], edit, done);
      }
    } else {
      OneEntry(entry, edit, done);
    }
  }

  // ---------------------------------------------------------- hooks in entries

  lemma {:induction false} UnderAppend(a: seq<Json>, b: seq<Json>, under: Json -> bool, mine: Json -> bool)
    ensures HooksUnder(a + b, under, mine) == HooksUnder(a, under, mine) + HooksUnder(b, under, mine)
  {
    if a == [] {
      assert a + b == b;
    } else {
      assert (a + b)[0] == a[0] && (a + b)[1..] == a[1..] + b;
      UnderAppend(a[1..], b, under, mine);
    }
  }

  lemma UnderOne(entry: Json, under: Json -> bool, mine: Json -> bool)
    ensures HooksUnder([entry], under, mine) == HooksOf(entry, under, mine)
  {
    assert [entry][1..] == [];
    assert HooksOf(entry, under, mine) + [] == HooksOf(entry, under, mine);
  }

  ghost predicate Holds(entries: seq<Json>, entry: Json, hook: Json, under: Json -> bool, mine: Json -> bool) {
    entry in entries && under(entry) && EntryHooks(entry).Some? && hook in EntryHooks(entry).value && mine(hook)
  }

  lemma {:induction false} UnderHolds(entries: seq<Json>, under: Json -> bool, mine: Json -> bool)
    ensures forall hook :: hook in HooksUnder(entries, under, mine) <==>
            exists entry :: Holds(entries, entry, hook, under, mine)
  {
    if entries != [] {
      var rest := entries[1..];
      assert entries == [entries[0]] + rest;
      UnderHolds(rest, under, mine);
      forall hook | hook in HooksUnder(entries, under, mine)
        ensures exists entry :: Holds(entries, entry, hook, under, mine)
      {
        if hook in HooksOf(entries[0], under, mine) {
          assert Holds(entries, entries[0], hook, under, mine);
        } else {
          assert hook in HooksUnder(rest, under, mine);
          var entry :| Holds(rest, entry, hook, under, mine);
          assert Holds(entries, entry, hook, under, mine);
        }
      }
      forall entry, hook | Holds(entries, entry, hook, under, mine)
        ensures hook in HooksUnder(entries, under, mine)
      {
        if entry in rest {
          assert Holds(rest, entry, hook, under, mine);
        }
      }
    }
  }

  lemma {:induction false} SameUnder(entries: seq<Json>, under: Json -> bool, alike: Json -> bool, mine: Json -> bool)
    requires forall entry :: under(entry) == alike(entry)
    ensures HooksUnder(entries, under, mine) == HooksUnder(entries, alike, mine)
  {
    if entries != [] {
      SameUnder(entries[1..], under, alike, mine);
    }
  }

  lemma {:induction false} NoneUnder(entries: seq<Json>, under: Json -> bool, wider: Json -> bool, mine: Json -> bool)
    requires forall entry :: under(entry) ==> wider(entry)
    requires HooksUnder(entries, wider, mine) == []
    ensures HooksUnder(entries, under, mine) == []
  {
    if entries != [] {
      NoneUnder(entries[1..], under, wider, mine);
    }
  }

  function Host(edit: Edit): Json -> bool {
    entry => edit.kind(entry) == Some(true)
  }

  function Guest(edit: Edit): Json -> bool {
    entry => edit.kind(entry) == Some(false)
  }

  lemma EditedEntry(entry: Json, edit: Edit, done: bool)
    requires Sound(edit)
    ensures var (kept, after) := EditEntry(entry, edit, done);
            && |HooksUnder(kept, Host(edit), edit.mine)| == (if after && !done then 1 else 0)
            && AllWritten(HooksUnder(kept, Host(edit), edit.mine), edit)
            && HooksUnder(kept, Guest(edit), edit.mine) == []
            && (done ==> after)
  {
    var kept := EditEntry(entry, edit, done).0;
    if Touches(entry, edit) {
      TouchedEntry(entry, edit, done);
      EditedHooks(EntryHooks(entry).value, edit, edit.kind(entry).value, done);
    }
    if kept != [] {
      assert kept == [kept[0]];
      UnderOne(kept[0], Host(edit), edit.mine);
      UnderOne(kept[0], Guest(edit), edit.mine);
    }
  }

  /** Afterwards at most one picked hook is left among the hosts, written, and
      none among the other entries the edit touches. */
  lemma {:induction false} Edited(entries: seq<Json>, edit: Edit, done: bool)
    requires Sound(edit)
    ensures var (left, after) := EditEntries(entries, edit, done);
            && |HooksUnder(left, Host(edit), edit.mine)| == (if after && !done then 1 else 0)
            && AllWritten(HooksUnder(left, Host(edit), edit.mine), edit)
            && HooksUnder(left, Guest(edit), edit.mine) == []
            && (done ==> after)
  {
    if entries != [] {
      var (first, between) := EditEntry(entries[0], edit, done);
      EditedEntry(entries[0], edit, done);
      Edited(entries[1..], edit, between);
      var rest := EditEntries(entries[1..], edit, between).0;
      UnderAppend(first, rest, Host(edit), edit.mine);
      UnderAppend(first, rest, Guest(edit), edit.mine);
    }
  }

  /** Entries an edit does not touch keep their hooks, in order. */
  lemma {:induction false} Untouched(entries: seq<Json>, edit: Edit, done: bool, under: Json -> bool,
                                     mine: Json -> bool)
    requires Sound(edit) && Stable(under)
    requires forall entry :: under(entry) ==> edit.kind(entry).None?
    ensures HooksUnder(EditEntries(entries, edit, done).0, under, mine) == HooksUnder(entries, under, mine)
  {
    if entries != [] {
      var (first, between) := EditEntry(entries[0], edit, done);
      Untouched(entries[1..], edit, between, under, mine);
      UnderAppend(first, EditEntries(entries[1..], edit, between).0, under, mine);
      if Touches(entries[0], edit) {
        TouchedEntry(entries[0], edit, done);
      }
      if first != [] {
        UnderOne(first[0], under, mine);
      }
    }
  }

  // ------------------------------------------------- when an edit does nothing

  lemma {:induction false} NonePickedIn(hooks: seq<Json>, edit: Edit, host: bool, done: bool)
    requires Filter(hooks, edit.mine) == []
    ensures EditHooks(hooks, edit, host, done) == (hooks, done)
  {
    if hooks != [] {
      assert hooks == [hooks[0]] + hooks[1..];
      NonePickedIn(hooks[1..], edit, host, done);
    }
  }

  lemma {:induction false} OneWritten(hooks: seq<Json>, edit: Edit)
    requires |Filter(hooks, edit.mine)| == 1 && AllWritten(Filter(hooks, edit.mine), edit)
    ensures EditHooks(hooks, edit, true, false) == (hooks, true)
  {
    var first, rest := hooks[0], hooks[1..];
    assert hooks == [first] + rest;
    FilterCons(first, rest, edit.mine);
    if edit.mine(first) {
      assert Filter(hooks, edit.mine)[0] == first && Filter(rest, edit.mine) == [];
      NonePickedIn(rest, edit, true, true);
    } else {
      assert Filter(hooks, edit.mine) == Filter(rest, edit.mine);
      OneWritten(rest, edit);
    }
  }

  /** At most one picked hook, written, in a host, and none elsewhere; none at
      all once the edit is done. */
  ghost predicate Tidy(entries: seq<Json>, edit: Edit, done: bool) {
    && HooksUnder(entries, Guest(edit), edit.mine) == []
    && |HooksUnder(entries, Host(edit), edit.mine)| <= (if done then 0 else 1)
    && AllWritten(HooksUnder(entries, Host(edit), edit.mine), edit)
  }

  lemma EntryTidy(entry: Json, edit: Edit, done: bool)
    requires Sound(edit) && Tidy([entry], edit, done)
    ensures EditEntry(entry, edit, done).0 == [entry]
  {
    if Touches(entry, edit) {
      var hooks, host := EntryHooks(entry).value, edit.kind(entry).value;
      UnderOne(entry, Host(edit), edit.mine);
      UnderOne(entry, Guest(edit), edit.mine);
      assert Filter(hooks, edit.mine) ==
             (if host then HooksOf(entry, Host(edit), edit.mine) else HooksOf(entry, Guest(edit), edit.mine));
      if Filter(hooks, edit.mine) == [] {
        NonePickedIn(hooks, edit, host, done);
      } else {
        OneWritten(hooks, edit);
      }
      SameHooks(entry);
    }
  }

  lemma EntryInstalls(entry: Json, edit: Edit, done: bool)
    requires Sound(edit)
    ensures EditEntry(entry, edit, done).1 <==> done || HooksOf(entry, Host(edit), edit.mine) != []
  {
    if Touches(entry, edit) {
      EditedHooks(EntryHooks(entry).value, edit, edit.kind(entry).value, done);
    }
  }

  /** An edit ends done when there was a picked hook in a host. */
  lemma {:induction false} Installs(entries: seq<Json>, edit: Edit, done: bool)
    requires Sound(edit)
    ensures EditEntries(entries, edit, done).1 <==> done || HooksUnder(entries, Host(edit), edit.mine) != []
  {
    if entries != [] {
      EntryInstalls(entries[0], edit, done);
      Installs(entries[1..], edit, EditEntry(entries[0], edit, done).1);
    }
  }

  lemma TidyParts(entry: Json, rest: seq<Json>, edit: Edit, done: bool)
    requires Sound(edit) && Tidy([entry] + rest, edit, done)
    ensures Tidy([entry], edit, done) && Tidy(rest, edit, EditEntry(entry, edit, done).1)
  {
    EntryInstalls(entry, edit, done);
    UnderAppend([entry], rest, Host(edit), edit.mine);
    UnderAppend([entry], rest, Guest(edit), edit.mine);
    UnderOne(entry, Host(edit), edit.mine);
  }

  /** An edit leaves the entries as they are exactly when they are tidy. */
  lemma {:induction false} EditsNothing(entries: seq<Json>, edit: Edit, done: bool)
    requires Sound(edit)
    ensures EditEntries(entries, edit, done).0 == entries <==> Tidy(entries, edit, done)
  {
    Edited(entries, edit, done);
    if entries != [] && Tidy(entries, edit, done) {
      assert entries == [entries[0]] + entries[1..];
      TidyParts(entries[0], entries[1..], edit, done);
      EntryTidy(entries[0], edit, done);
      EditsNothing(entries[1..], edit, EditEntry(entries[0], edit, done).1);
    }
  }

  // --------------------------------------------------- which hook is kept, and how

  /** The first of these hooks, written. */
  function FirstWritten(hooks: seq<Json>, edit: Edit): seq<Json> {
    if hooks == [] then [] else [edit.write(hooks[0])]
  }

  lemma {:induction false} KeptHook(hooks: seq<Json>, edit: Edit, host: bool, done: bool)
    requires Sound(edit)
    ensures Filter(EditHooks(hooks, edit, host, done).0, edit.mine) ==
            if host && !done then FirstWritten(Filter(hooks, edit.mine), edit) else []
  {
    if hooks != [] {
      var first, rest := hooks[0], hooks[1..];
      assert hooks == [first] + rest;
      FilterCons(first, rest, edit.mine);
      KeptHook(rest, edit, host, done);
      if edit.mine(first) {
        KeptHook(rest, edit, host, true);
        FilterCons(edit.write(first), EditHooks(rest, edit, host, true).0, edit.mine);
      } else {
        FilterCons(first, EditHooks(rest, edit, host, done).0, edit.mine);
      }
    }
  }

  lemma KeptInEntry(entry: Json, edit: Edit, done: bool)
    requires Sound(edit)
    ensures HooksUnder(EditEntry(entry, edit, done).0, Host(edit), edit.mine) ==
            if done then [] else FirstWritten(HooksOf(entry, Host(edit), edit.mine), edit)
  {
    UnderOne(entry, Host(edit), edit.mine);
    if Touches(entry, edit) {
      var hooks, host := EntryHooks(entry).value, edit.kind(entry).value;
      TouchedEntry(entry, edit, done);
      KeptHook(hooks, edit, host, done);
      UnderOne(WithHooks(entry, EditHooks(hooks, edit, host, done).0), Host(edit), edit.mine);
    }
  }

  /** The one picked hook left among the hosts is the first there was, written. */
  lemma {:induction false} Kept(entries: seq<Json>, edit: Edit, done: bool)
    requires Sound(edit)
    ensures HooksUnder(EditEntries(entries, edit, done).0, Host(edit), edit.mine) ==
            if done then [] else FirstWritten(HooksUnder(entries, Host(edit), edit.mine), edit)
  {
    if entries != [] {
      var (first, between) := EditEntry(entries[0], edit, done);
      KeptInEntry(entries[0], edit, done);
      EntryInstalls(entries[0], edit, done);
      Kept(entries[1..], edit, between);
      UnderAppend(first, EditEntries(entries[1..], edit, between).0, Host(edit), edit.mine);
    }
  }

  lemma {:induction false} FilterWithin(hooks: seq<Json>, p: Json -> bool, q: Json -> bool)
    requires forall h :: p(h) ==> q(h)
    ensures Filter(Filter(hooks, q), p) == Filter(hooks, p)
  {
    if hooks != [] {
      var first, rest := hooks[0], hooks[1..];
      assert hooks == [first] + rest;
      FilterWithin(rest, p, q);
      FilterCons(first, rest, p);
      FilterCons(first, rest, q);
      FilterCons(first, Filter(rest, q), p);
      assert [] + Filter(rest, q) == Filter(rest, q) && [] + Filter(rest, p) == Filter(rest, p);
    }
  }

  lemma OthersInEntry(entry: Json, edit: Edit, done: bool, under: Json -> bool, other: Json -> bool)
    requires Sound(edit) && Stable(under) && forall h :: other(h) ==> Not(edit.mine)(h)
    ensures HooksUnder(EditEntry(entry, edit, done).0, under, other) == HooksOf(entry, under, other)
  {
    UnderOne(entry, under, other);
    if Touches(entry, edit) {
      var hooks, host := EntryHooks(entry).value, edit.kind(entry).value;
      var kept := EditHooks(hooks, edit, host, done).0;
      TouchedEntry(entry, edit, done);
      EditedHooks(hooks, edit, host, done);
      FilterWithin(hooks, other, Not(edit.mine));
      FilterWithin(kept, other, Not(edit.mine));
      UnderOne(WithHooks(entry, kept), under, other);
    }
  }

  /** Hooks an edit does not pick stay under the matchers they were under. */
  lemma {:induction false} OthersUnder(entries: seq<Json>, edit: Edit, done: bool, under: Json -> bool,
                                       other: Json -> bool)
    requires Sound(edit) && Stable(under) && forall h :: other(h) ==> Not(edit.mine)(h)
    ensures HooksUnder(EditEntries(entries, edit, done).0, under, other) == HooksUnder(entries, under, other)
  {
    if entries != [] {
      var (first, between) := EditEntry(entries[0], edit, done);
      OthersInEntry(entries[0], edit, done, under, other);
      OthersUnder(entries[1..], edit, between, under, other);
      UnderAppend(first, EditEntries(entries[1..], edit, between).0, under, other);
    }
  }

  // -------------------------------------------------------- what is not picked

  /** Taking picked hooks out, and nothing else. */
  function Taking(mine: Json -> bool): Edit {
    Edit(_ => Some(false), mine, h => h)
  }

  /** The operator's own: every picked hook gone, and with it an entry it leaves
      empty. */
  function Stripped(entries: seq<Json>, mine: Json -> bool): seq<Json> {
    EditEntries(entries, Taking(mine), false).0
  }

  lemma {:induction false} TakenHooks(hooks: seq<Json>, mine: Json -> bool)
    ensures EditHooks(hooks, Taking(mine), false, false) == (Filter(hooks, Not(mine)), false)
  {
    if hooks != [] {
      TakenHooks(hooks[1..], mine);
      assert hooks == [hooks[0]] + hooks[1..];
      FilterCons(hooks[0], hooks[1..], Not(mine));
      assert Not(mine)(hooks[0]) == !mine(hooks[0]) && Taking(mine).mine == mine;
      var rest := Filter(hooks[1..], Not(mine));
      assert [] + rest == rest;
    }
  }

  lemma TakenEntry(entry: Json, mine: Json -> bool)
    ensures EditEntry(entry, Taking(mine), false).1 == false
    ensures EntryHooks(entry).Some? ==>
              var hooks := EntryHooks(entry).value;
              var left := Filter(hooks, Not(mine));
              EditEntry(entry, Taking(mine), false).0 ==
              if hooks != [] && left == [] then [] else [WithHooks(entry, left)]
  {
    if EntryHooks(entry).Some? {
      TakenHooks(EntryHooks(entry).value, mine);
    }
  }

  lemma StrippedCons(entry: Json, rest: seq<Json>, mine: Json -> bool)
    ensures Stripped([entry] + rest, mine) == EditEntry(entry, Taking(mine), false).0 + Stripped(rest, mine)
  {
    assert ([entry] + rest)[1..] == rest;
    TakenEntry(entry, mine);
  }

  lemma {:induction false} StrippedAppend(a: seq<Json>, b: seq<Json>, mine: Json -> bool)
    ensures Stripped(a + b, mine) == Stripped(a, mine) + Stripped(b, mine)
  {
    if a == [] {
      assert a + b == b;
    } else {
      assert a + b == [a[0]] + (a[1..] + b) && a == [a[0]] + a[1..];
      StrippedCons(a[0], a[1..] + b, mine);
      StrippedCons(a[0], a[1..], mine);
      StrippedAppend(a[1..], b, mine);
    }
  }

  lemma StrippedEntry(entry: Json, edit: Edit, done: bool)
    requires Sound(edit)
    ensures Stripped(EditEntry(entry, edit, done).0, edit.mine) == Stripped([entry], edit.mine)
  {
    if Touches(entry, edit) {
      var hooks := EntryHooks(entry).value;
      TouchedEntry(entry, edit, done);
      EditedHooks(hooks, edit, edit.kind(entry).value, done);
      TakenEntry(entry, edit.mine);
      var kept := EditHooks(hooks, edit, edit.kind(entry).value, done).0;
      OneEntry(entry, Taking(edit.mine), false);
      if hooks == [] || kept != [] {
        var again := WithHooks(entry, kept);
        TakenEntry(again, edit.mine);
        WithHooksTwice(entry, kept, Filter(kept, Not(edit.mine)));
        OneEntry(again, Taking(edit.mine), false);
      }
    }
  }

  /** An edit leaves everything it does not pick where it was, in order. */
  lemma {:induction false} OthersSurvive(entries: seq<Json>, edit: Edit, done: bool)
    requires Sound(edit)
    ensures Stripped(EditEntries(entries, edit, done).0, edit.mine) == Stripped(entries, edit.mine)
  {
    if entries != [] {
      var (first, between) := EditEntry(entries[0], edit, done);
      var rest := EditEntries(entries[1..], edit, between).0;
      StrippedEntry(entries[0], edit, done);
      OthersSurvive(entries[1..], edit, between);
      StrippedAppend(first, rest, edit.mine);
      assert entries == [entries[0]] + entries[1..];
      StrippedAppend([entries[0]], entries[1..], edit.mine);
    }
  }

  // ------------------------------------------------------------------ removing

  /** Picked hooks taken out, and every entry without a hook left with them. */
  function Removed(entries: seq<Json>, mine: Json -> bool): seq<Json> {
    if entries == [] then []
    else
      (match EntryHooks(entries[0])
       case None => [entries[0]]
       case Some(hooks) =>
         var left := Filter(hooks, Not(mine));
         if left == [] then [] else [WithHooks(entries[0], left)]) +
      Removed(entries[1..], mine)
  }

  function WithoutEmpty(entries: seq<Json>): seq<Json> {
    if entries == [] then []
    else (if EntryHooks(entries[0]) == Some([]) then [] else [entries[0]]) + WithoutEmpty(entries[1..])
  }

  lemma WithoutEmptyCons(entry: Json, rest: seq<Json>)
    ensures WithoutEmpty([entry] + rest) == (if EntryHooks(entry) == Some([]) then [] else [entry]) + WithoutEmpty(rest)
  {
    assert ([entry] + rest)[1..] == rest;
  }

  lemma FilterShrinks(entry: Json, mine: Json -> bool)
    ensures EntryHooks(entry).Some? ==>
              var left := Filter(EntryHooks(entry).value, Not(mine));
              entry.Obj? && EntryHooks(WithHooks(entry, left)) == Some(left)
  {
  }

  lemma {:induction false} RemovedIsStripped(entries: seq<Json>, mine: Json -> bool)
    ensures Removed(entries, mine) == WithoutEmpty(Stripped(entries, mine))
  {
    if entries != [] {
      assert entries == [entries[0]] + entries[1..];
      StrippedCons(entries[0], entries[1..], mine);
      TakenEntry(entries[0], mine);
      RemovedIsStripped(entries[1..], mine);
      var first, rest := EditEntry(entries[0], Taking(mine), false).0, Stripped(entries[1..], mine);
      if first == [] {
        assert first + rest == rest;
      } else {
        assert first == [first[0]];
        WithoutEmptyCons(first[0], rest);
        FilterShrinks(entries[0], mine);
      }
    }
  }

  ghost predicate NonePicked(entries: seq<Json>, mine: Json -> bool) {
    forall entry :: entry in entries && EntryHooks(entry).Some? ==>
                      EntryHooks(entry).value != [] && forall hook :: hook in EntryHooks(entry).value ==> !mine(hook)
  }

  lemma {:induction false} FilterAll(hooks: seq<Json>, p: Json -> bool)
    ensures |Filter(hooks, p)| <= |hooks|
    ensures Filter(hooks, p) == hooks <==> forall h :: h in hooks ==> p(h)
  {
    if hooks != [] {
      FilterAll(hooks[1..], p);
      assert hooks == [hooks[0]] + hooks[1..];
      if p(hooks[0]) {
        assert Filter(hooks, p)[1..] == Filter(hooks[1..], p);
      }
    }
  }

  lemma RemovedShrinks(entries: seq<Json>, mine: Json -> bool)
    ensures |Removed(entries, mine)| <= |entries|
  {
  }

  /** Removing changes nothing exactly where there is no hook to remove and no
      entry with an empty list. */
  lemma {:induction false} RemovesNothing(entries: seq<Json>, mine: Json -> bool)
    ensures Removed(entries, mine) == entries <==> NonePicked(entries, mine)
  {
    if entries != [] {
      var entry, rest := entries[0], entries[1..];
      assert entries == [entry] + rest;
      RemovesNothing(rest, mine);
      RemovedShrinks(rest, mine);
      if EntryHooks(entry).Some? {
        var hooks := EntryHooks(entry).value;
        var left := Filter(hooks, Not(mine));
        FilterAll(hooks, Not(mine));
        SameHooks(entry);
        if left != [] {
          assert Removed(entries, mine) == [WithHooks(entry, left)] + Removed(rest, mine);
          assert WithHooks(entry, left) == entry <==> left == hooks;
        }
        if Removed(entries, mine) == entries {
          assert left != [] && entries[0] == WithHooks(entry, left);
          assert Removed(entries, mine)[1..] == Removed(rest, mine);
        }
      } else {
        assert Removed(entries, mine)[1..] == Removed(rest, mine);
      }
    }
  }

  lemma NonePickedAppend(a: seq<Json>, b: seq<Json>, mine: Json -> bool)
    requires NonePicked(a, mine) && NonePicked(b, mine)
    ensures NonePicked(a + b, mine)
  {
  }

  /** What removing leaves holds nothing to remove, so a second time removes
      nothing. */
  lemma {:induction false} RemovedIsClean(entries: seq<Json>, mine: Json -> bool)
    ensures NonePicked(Removed(entries, mine), mine)
    ensures Removed(Removed(entries, mine), mine) == Removed(entries, mine)
  {
    RemovesNothing(Removed(entries, mine), mine);
    if entries != [] {
      RemovedIsClean(entries[1..], mine);
      var entry := entries[0];
      var first := match EntryHooks(entry)
        case None => [entry]
        case Some(hooks) => var left := Filter(hooks, Not(mine)); if left == [] then [] else [WithHooks(entry, left)];
      if EntryHooks(entry).Some? {
        FilterShrinks(entry, mine);
      }
      NonePickedAppend(first, Removed(entries[1..], mine), mine);
    }
  }

  function Anywhere(): Json -> bool {
    _ => true
  }

  method RemoveHooks(entries: seq<Json>, mine: Json -> bool) returns (left: seq<Json>, removed: nat)
    ensures left == Removed(entries, mine)
    ensures removed == |HooksUnder(entries, Anywhere(), mine)|
  {
    left, removed := [], 0;
    ghost var all := Anywhere();
    var i := 0;
    assert entries[0..] == entries;
    assert [] + Removed(entries, mine) == Removed(entries, mine);
    while i < |entries|
      invariant 0 <= i <= |entries|
      invariant left + Removed(entries[i..], mine) == Removed(entries, mine)
      invariant removed + |HooksUnder(entries[i..], all, mine)| == |HooksUnder(entries, all, mine)|
    {
      var entry := entries[i];
      ghost var was, rest := left, Removed(entries[i + 1..], mine);
      assert entries[i..][0] == entry && entries[i..][1..] == entries[i + 1..];
      var hooks := EntryHooks(entry);
      if hooks.None? {
        left := left + [entry];
        assert was + ([entry] + rest) == left + rest;
      } else {
        var kept, n := TakeOut(hooks.value, mine);
        removed := removed + n;
        if kept != [] {
          left := left + [WithHooks(entry, kept)];
          assert was + ([WithHooks(entry, kept)] + rest) == left + rest;
        } else {
          assert [] + rest == rest;
        }
      }
      i := i + 1;
    }
    assert left + [] == left;
  }

  method TakeOut(hooks: seq<Json>, mine: Json -> bool) returns (kept: seq<Json>, n: nat)
    ensures kept == Filter(hooks, Not(mine))
    ensures n == |Filter(hooks, mine)|
  {
    kept, n := [], 0;
    var i := 0;
    while i < |hooks|
      invariant 0 <= i <= |hooks|
      invariant kept == Filter(hooks[..i], Not(mine)) && n == |Filter(hooks[..i], mine)|
    {
      TakeStep(hooks, i, mine);
      if mine(hooks[i]) {
        n := n + 1;
      } else {
        kept := kept + [hooks[i]];
      }
      i := i + 1;
    }
    assert hooks[..i] == hooks;
  }

  lemma {:induction false} TakeStep(hooks: seq<Json>, i: nat, mine: Json -> bool)
    requires i < |hooks|
    ensures |Filter(hooks[..i + 1], mine)| == |Filter(hooks[..i], mine)| + (if mine(hooks[i]) then 1 else 0)
    ensures Filter(hooks[..i + 1], Not(mine)) ==
            if mine(hooks[i]) then Filter(hooks[..i], Not(mine)) else Filter(hooks[..i], Not(mine)) + [hooks[i]]
  {
    assert hooks[..i + 1] == hooks[..i] + [hooks[i]];
    assert Not(mine)(hooks[i]) == !mine(hooks[i]);
    FilterSnoc(hooks[..i], hooks[i], mine);
    FilterSnoc(hooks[..i], hooks[i], Not(mine));
  }

  lemma {:induction false} FilterSnoc(hooks: seq<Json>, hook: Json, p: Json -> bool)
    ensures Filter(hooks + [hook], p) == if p(hook) then Filter(hooks, p) + [hook] else Filter(hooks, p)
  {
    if hooks == [] {
      assert hooks + [hook] == [hook];
    } else {
      var first, rest := hooks[0], hooks[1..];
      assert hooks == [first] + rest && hooks + [hook] == [first] + (rest + [hook]);
      FilterCons(first, rest, p);
      FilterCons(first, rest + [hook], p);
      FilterSnoc(rest, hook, p);
    }
  }
}
