/** The locked compare-and-replace of an agent configuration, as an interleaved
    step system: any number of writers, any of which may heal a lock it cannot
    open, and editors that ignore the lock.

    A run is a sequence of events; each event is one atomic file-system step.
    Every wait, I/O error and crash is a writer that gives up. */
module UpdateLock {
  import opened Options
  import LockWait

  type Writer = nat

  type Inode = nat

  type byte = x: nat | x < 256

  type Bytes = seq<byte>

  /** Where a writer is in `replace_inner_with`.
      Opening: about to open the lock.     HealStaged: its new lock is ready.
      Opened: has a descriptor.            Taken: holds the lock on it.
      Acquired: the name was checked.      Matched: the target was compared.
      Staged: the sibling is complete.     Named: the name was checked again.
      Ready: the target was compared again; the rename comes next. */
  datatype Pc = Idle | Opening | HealStaged | Opened | Taken | Acquired | Matched | Staged | Named | Ready

  datatype Local = Local(pc: Pc, shared: bool, expected: Option<Option<Bytes>>, body: Bytes,
                         attempts: nat, fd: Inode, staged: Bytes,
                         namedAt: nat, comparedAt: nat)

  const Resting: Local := Local(Idle, false, None, [], 0, 0, [], 0, 0)

  /** `clock` counts the events so far; `nextInode` is above every inode in use. */
  datatype State = State(lockName: Option<Inode>, holder: map<Inode, Writer>, target: Option<Bytes>,
                         writers: map<Writer, Local>, nextInode: Inode, clock: nat)

  datatype Event =
    | Begin(w: Writer, shared: bool, expected: Option<Option<Bytes>>, body: Bytes)
    | OpenLock(w: Writer)
    | CreateLock(w: Writer)
    | StageHeal(w: Writer)
    | DiscardHeal(w: Writer)
    | RenameHeal(w: Writer)
    | TakeLock(w: Writer)
    | CheckName(w: Writer)
    | Compare(w: Writer)
    | WriteStaged(w: Writer, upTo: nat)
    | CheckNameAgain(w: Writer)
    | CompareAgain(w: Writer)
    | Rename(w: Writer)
    | GiveUp(w: Writer)
    | ExternalWrite(bytes: Option<Bytes>)
    | ExternalLock(name: Option<Inode>)

  function At(s: State, w: Writer): Local {
    if w in s.writers then s.writers[w] else Resting
  }

  predicate Holding(pc: Pc) {
    pc.Taken? || pc.Acquired? || pc.Matched? || pc.Staged? || pc.Named? || pc.Ready?
  }

  /** `expected` is `None` for a plain replace, which compares nothing. */
  predicate Passes(expected: Option<Option<Bytes>>, target: Option<Bytes>) {
    expected.None? || expected.value == target
  }

  predicate Enabled(s: State, e: Event) {
    match e
    case Begin(w, _, _, _) => At(s, w).pc.Idle?
    case OpenLock(w) => At(s, w).pc.Opening? && s.lockName.Some?
    case CreateLock(w) => At(s, w).pc.Opening? && s.lockName.None?
    case StageHeal(w) => At(s, w).pc.Opening? && At(s, w).shared && s.lockName.Some?
    case DiscardHeal(w) => At(s, w).pc.HealStaged?
    case RenameHeal(w) => At(s, w).pc.HealStaged?
    case TakeLock(w) => At(s, w).pc.Opened? && At(s, w).fd !in s.holder
    case CheckName(w) => At(s, w).pc.Taken?
    case Compare(w) => At(s, w).pc.Acquired? && Passes(At(s, w).expected, s.target)
    case WriteStaged(w, upTo) => At(s, w).pc.Matched? && |At(s, w).staged| <= upTo <= |At(s, w).body|
    case CheckNameAgain(w) => At(s, w).pc.Staged? && s.lockName == Some(At(s, w).fd)
    case CompareAgain(w) => At(s, w).pc.Named? && Passes(At(s, w).expected, s.target)
    case Rename(w) => At(s, w).pc.Ready?
    case GiveUp(w) => !At(s, w).pc.Idle?
    case ExternalWrite(_) => true
    case ExternalLock(_) => true
  }

  function Set(s: State, w: Writer, l: Local): State {
    s.(writers := s.writers[w := l], clock := s.clock + 1)
  }

  /** Dropping the descriptor releases the lock taken on it. */
  function Released(s: State, w: Writer): map<Inode, Writer> {
    if Holding(At(s, w).pc) then s.holder - {At(s, w).fd} else s.holder
  }

  function Apply(s: State, e: Event): State
    requires Enabled(s, e)
  {
    match e
    case Begin(w, shared, expected, body) =>
      Set(s, w, Resting.(pc := Opening, shared := shared, expected := expected, body := body))
    case OpenLock(w) => Set(s, w, At(s, w).(pc := Opened, fd := s.lockName.value))
    case CreateLock(w) =>
      Set(s.(lockName := Some(s.nextInode), nextInode := s.nextInode + 1), w,
          At(s, w).(pc := Opened, fd := s.nextInode))
    case StageHeal(w) => Set(s.(nextInode := s.nextInode + 1), w, At(s, w).(pc := HealStaged, fd := s.nextInode))
    case DiscardHeal(w) => Set(s, w, At(s, w).(pc := Opening))
    case RenameHeal(w) => Set(s.(lockName := Some(At(s, w).fd)), w, At(s, w).(pc := Opening))
    case TakeLock(w) => Set(s.(holder := s.holder[At(s, w).fd := w]), w, At(s, w).(pc := Taken))
    case CheckName(w) =>
      var l := At(s, w);
      if s.lockName == Some(l.fd) then Set(s, w, l.(pc := Acquired))
      else
        var next :=
          if l.attempts + 1 < LockWait.LOCK_ATTEMPTS then l.(pc := Opening, attempts := l.attempts + 1) else Resting;
        Set(s.(holder := Released(s, w)), w, next)
    case Compare(w) => Set(s, w, At(s, w).(pc := Matched))
    case WriteStaged(w, upTo) =>
      var l := At(s, w);
      Set(s, w, l.(staged := l.body[..upTo], pc := if upTo == |l.body| then Staged else Matched))
    case CheckNameAgain(w) => Set(s, w, At(s, w).(pc := Named, namedAt := s.clock))
    case CompareAgain(w) => Set(s, w, At(s, w).(pc := Ready, comparedAt := s.clock))
    case Rename(w) => Set(s.(target := Some(At(s, w).staged), holder := Released(s, w)), w, Resting)
    case GiveUp(w) => Set(s.(holder := Released(s, w)), w, Resting)
    case ExternalWrite(bytes) => s.(target := bytes, clock := s.clock + 1)
    case ExternalLock(name) =>
      s.(lockName := name, clock := s.clock + 1,
         nextInode := if name.Some? && name.value >= s.nextInode then name.value + 1 else s.nextInode)
  }

  // -------------------------------------------------------------- runs

  predicate Initial(s: State) {
    && s.holder == map[] && s.writers == map[] && s.clock == 0
    && (s.lockName.Some? ==> s.lockName.value < s.nextInode)
  }

  ghost predicate Run(init: State, es: seq<Event>)
    decreases |es|
  {
    es == [] || (Run(init, es[..|es| - 1]) && Enabled(After(init, es[..|es| - 1]), es[|es| - 1]))
  }

  /** The state the events lead to, `init` itself if they are not a run. */
  ghost function After(init: State, es: seq<Event>): State
    decreases |es|
  {
    if es == [] then init
    else
      var s, e := After(init, es[..|es| - 1]), es[|es| - 1];
      if Enabled(s, e) then Apply(s, e) else s
  }

  predicate By(e: Event, w: Writer) {
    !e.ExternalWrite? && !e.ExternalLock? && e.w == w
  }

  /** The lock's name came to mean another file. */
  predicate Rebinds(e: Event) {
    e.RenameHeal? || e.ExternalLock?
  }

  predicate Writes(e: Event) {
    e.ExternalWrite? || e.Rename?
  }

  ghost predicate Rebound(es: seq<Event>, lo: nat, hi: nat) {
    exists m :: lo < m < hi && m < |es| && Rebinds(es[m])
  }

  ghost predicate Edited(es: seq<Event>, lo: nat, hi: nat) {
    exists m :: lo < m < hi && m < |es| && es[m].ExternalWrite?
  }

  ghost predicate Overwritten(es: seq<Event>, lo: nat, hi: nat) {
    exists m :: lo < m < hi && m < |es| && Writes(es[m])
  }

  // --------------------------------------------------------- the invariant

  ghost predicate HoldsItsLock(s: State) {
    forall w :: Holding(At(s, w).pc) ==> At(s, w).fd in s.holder && s.holder[At(s, w).fd] == w
  }

  /** And a lock is held only by a writer that has it: whoever is done, or gave
      up, has released its lock. */
  ghost predicate HeldByHolder(s: State) {
    forall i :: i in s.holder ==> Holding(At(s, s.holder[i]).pc) && At(s, s.holder[i]).fd == i
  }

  /** Only the lock of a shared record is healed. */
  ghost predicate HealsShared(s: State) {
    forall w :: At(s, w).pc.HealStaged? ==> At(s, w).shared
  }

  /** A lock is opened at most four times in one acquisition. */
  ghost predicate FewAttempts(s: State) {
    forall w :: At(s, w).attempts <= 3
  }

  ghost predicate WritesWhole(s: State) {
    forall w :: At(s, w).pc.Staged? || At(s, w).pc.Named? || At(s, w).pc.Ready? ==> At(s, w).staged == At(s, w).body
  }

  /** What a writer past its second name check knows, unless the name was
      rebound or the target written behind it since. */
  ghost predicate Knows(s: State, es: seq<Event>, w: Writer) {
    var l := At(s, w);
    && (l.pc.Named? || l.pc.Ready? ==>
          && l.namedAt < |es| && es[l.namedAt] == CheckNameAgain(w)
          && (Rebound(es, l.namedAt, |es|) || s.lockName == Some(l.fd)))
    && (l.pc.Named? ==> forall m :: l.namedAt < m < |es| ==> !By(es[m], w))
    && (l.pc.Ready? ==>
          && l.namedAt < l.comparedAt < |es| && es[l.comparedAt] == CompareAgain(w)
          && (forall m :: l.namedAt < m < |es| && m != l.comparedAt ==> !By(es[m], w))
          && (Overwritten(es, l.comparedAt, |es|) || Passes(l.expected, s.target)))
  }

  ghost predicate Inv(s: State, es: seq<Event>) {
    && s.clock == |es|
    && HoldsItsLock(s) && HeldByHolder(s)
    && WritesWhole(s) && FewAttempts(s) && HealsShared(s)
    && forall w :: Knows(s, es, w)
  }

  lemma KnowsStep(s: State, es: seq<Event>, e: Event, w: Writer)
    requires Enabled(s, e) && s.clock == |es| && Knows(s, es, w)
    ensures Knows(Apply(s, e), es + [e], w)
  {
    if By(e, w) {
      OwnStep(s, es, e, w);
    } else {
      OtherStep(s, es, e, w);
    }
  }

  lemma OwnStep(s: State, es: seq<Event>, e: Event, w: Writer)
    requires Enabled(s, e) && s.clock == |es| && Knows(s, es, w) && By(e, w)
    ensures Knows(Apply(s, e), es + [e], w)
  {
    var l, es' := At(s, w), es + [e];
    if e.CompareAgain? && Rebound(es, l.namedAt, |es|) {
      StillRebound(es, e, l.namedAt);
    }
  }

  lemma OtherStep(s: State, es: seq<Event>, e: Event, w: Writer)
    requires Enabled(s, e) && s.clock == |es| && Knows(s, es, w) && !By(e, w)
    ensures Knows(Apply(s, e), es + [e], w)
  {
    var l, s', es' := At(s, w), Apply(s, e), es + [e];
    assert At(s', w) == l;
    if l.pc.Named? || l.pc.Ready? {
      if Rebound(es, l.namedAt, |es|) || Rebinds(e) {
        StillRebound(es, e, l.namedAt);
      }
    }
    if l.pc.Ready? && (Overwritten(es, l.comparedAt, |es|) || Writes(e)) {
      StillOverwritten(es, e, l.comparedAt);
    }
  }

  lemma StillRebound(es: seq<Event>, e: Event, lo: nat)
    requires Rebound(es, lo, |es|) || (lo < |es| && Rebinds(e))
    ensures Rebound(es + [e], lo, |es| + 1)
  {
    var m := if Rebound(es, lo, |es|) then (var m :| lo < m < |es| && Rebinds(es[m]); m) else |es|;
    assert Rebinds((es + [e])[m]);
  }

  lemma StillOverwritten(es: seq<Event>, e: Event, lo: nat)
    requires Overwritten(es, lo, |es|) || (lo < |es| && Writes(e))
    ensures Overwritten(es + [e], lo, |es| + 1)
  {
    var m := if Overwritten(es, lo, |es|) then (var m :| lo < m < |es| && Writes(es[m]); m) else |es|;
    assert Writes((es + [e])[m]);
  }

  lemma LockStep(s: State, e: Event)
    requires Enabled(s, e) && HoldsItsLock(s)
    ensures HoldsItsLock(Apply(s, e))
  {
    var s' := Apply(s, e);
    forall w | Holding(At(s', w).pc)
      ensures At(s', w).fd in s'.holder && s'.holder[At(s', w).fd] == w
    {
      assert Holding(At(s, w).pc) ==> At(s, w).fd in s.holder && s.holder[At(s, w).fd] == w;
      if !e.ExternalWrite? && !e.ExternalLock? && e.w != w {
        assert At(s', w) == At(s, w);
        assert Holding(At(s, e.w).pc) ==> At(s, e.w).fd in s.holder && s.holder[At(s, e.w).fd] == e.w;
      }
    }
  }

  lemma HeldStep(s: State, e: Event)
    requires Enabled(s, e) && HoldsItsLock(s) && HeldByHolder(s)
    ensures HeldByHolder(Apply(s, e))
  {
    var s' := Apply(s, e);
    forall i | i in s'.holder
      ensures Holding(At(s', s'.holder[i]).pc) && At(s', s'.holder[i]).fd == i
    {
      assert i in s.holder ==> Holding(At(s, s.holder[i]).pc) && At(s, s.holder[i]).fd == i;
      if !e.ExternalWrite? && !e.ExternalLock? {
        assert Holding(At(s, e.w).pc) ==> At(s, e.w).fd in s.holder && s.holder[At(s, e.w).fd] == e.w;
        if s'.holder[i] != e.w {
          assert At(s', s'.holder[i]) == At(s, s'.holder[i]);
        }
      }
    }
  }

  lemma AttemptsStep(s: State, e: Event)
    requires Enabled(s, e) && FewAttempts(s) && HealsShared(s)
    ensures FewAttempts(Apply(s, e)) && HealsShared(Apply(s, e))
  {
    forall w
      ensures At(Apply(s, e), w).attempts <= 3
      ensures At(Apply(s, e), w).pc.HealStaged? ==> At(Apply(s, e), w).shared
    {
      assert At(s, w).attempts <= 3 && (At(s, w).pc.HealStaged? ==> At(s, w).shared);
    }
  }

  lemma StagedStep(s: State, e: Event)
    requires Enabled(s, e) && WritesWhole(s)
    ensures WritesWhole(Apply(s, e))
  {
    var s' := Apply(s, e);
    forall w | At(s', w).pc.Staged? || At(s', w).pc.Named? || At(s', w).pc.Ready?
      ensures At(s', w).staged == At(s', w).body
    {
      assert At(s, w).pc.Staged? || At(s, w).pc.Named? || At(s, w).pc.Ready? ==> At(s, w).staged == At(s, w).body;
    }
  }

  lemma {:induction false} RunInvariant(init: State, es: seq<Event>)
    requires Initial(init) && Run(init, es)
    ensures Inv(After(init, es), es)
  {
    if es != [] {
      var before, e := es[..|es| - 1], es[|es| - 1];
      RunInvariant(init, before);
      var s := After(init, before);
      LockStep(s, e);
      HeldStep(s, e);
      StagedStep(s, e);
      AttemptsStep(s, e);
      assert es == before + [e];
      forall w
        ensures Knows(After(init, es), es, w)
      {
        KnowsStep(s, before, e, w);
      }
    }
  }
}
