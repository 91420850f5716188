/** What the locked compare-and-replace promises over every interleaving, with
    the window that healing a lock leaves stated. */
module UpdateRuns {
  import opened Options
  import opened UpdateLock

  lemma RunPrefix(init: State, es: seq<Event>, n: nat)
    requires Run(init, es) && n <= |es|
    ensures Run(init, es[..n])
    ensures n < |es| ==> Enabled(After(init, es[..n]), es[n])
    ensures n < |es| ==> After(init, es[..n + 1]) == Apply(After(init, es[..n]), es[n])
    decreases |es| - n
  {
    if n == |es| {
      assert es[..n] == es;
    } else {
      RunPrefix(init, es, n + 1);
      assert es[..n + 1][..n] == es[..n];
    }
  }

  lemma InvAt(init: State, es: seq<Event>, n: nat)
    requires Initial(init) && Run(init, es) && n <= |es|
    ensures Inv(After(init, es[..n]), es[..n])
  {
    RunPrefix(init, es, n);
    RunInvariant(init, es[..n]);
  }

  /** The check of the lock's name and the comparison that precede the commit
      at `r`: the last two steps its writer took before it. */
  ghost predicate CommitWindow(es: seq<Event>, r: nat, named: nat, compared: nat) {
    && named < compared < r < |es|
    && es[r].Rename?
    && es[named] == CheckNameAgain(es[r].w) && es[compared] == CompareAgain(es[r].w)
    && forall m :: named < m < r && m != compared ==> !By(es[m], es[r].w)
  }

  ghost function Before(init: State, es: seq<Event>, r: nat): State
    requires r <= |es|
  {
    After(init, es[..r])
  }

  /** The commit at `r` is a plain replace, or finds what its writer expects: no
      file, or a file with these bytes. */
  ghost predicate CommitsAsExpected(init: State, es: seq<Event>, r: nat)
    requires r < |es| && es[r].Rename?
  {
    var expected := At(Before(init, es, r), es[r].w).expected;
    expected == None || expected == Some(Before(init, es, r).target)
  }

  lemma WindowOf(init: State, es: seq<Event>, r: nat) returns (named: nat, compared: nat)
    requires Initial(init) && Run(init, es) && r < |es| && es[r].Rename?
    ensures CommitWindow(es, r, named, compared)
    ensures var l := At(Before(init, es, r), es[r].w); l.namedAt == named && l.comparedAt == compared
    ensures Overwritten(es, compared, r) || CommitsAsExpected(init, es, r)
    ensures Rebound(es, named, r) || Before(init, es, r).lockName == Some(At(Before(init, es, r), es[r].w).fd)
  {
    InvAt(init, es, r);
    RunPrefix(init, es, r);
    var s, w := Before(init, es, r), es[r].w;
    assert Knows(s, es[..r], w);
    named, compared := At(s, w).namedAt, At(s, w).comparedAt;
    Unslice(es, named, r);
    Unslice(es, compared, r);
    assert forall m :: 0 <= m < r ==> es[..r][m] == es[m];
  }

  lemma Unslice(es: seq<Event>, lo: nat, n: nat)
    requires n <= |es|
    ensures Rebound(es[..n], lo, n) ==> Rebound(es, lo, n)
    ensures Overwritten(es[..n], lo, n) ==> Overwritten(es, lo, n)
  {
    if Rebound(es[..n], lo, n) {
      var m :| lo < m < n && Rebinds(es[..n][m]);
      assert Rebinds(es[m]);
    }
    if Overwritten(es[..n], lo, n) {
      var m :| lo < m < n && Writes(es[..n][m]);
      assert Writes(es[m]);
    }
  }

  lemma WindowUnique(es: seq<Event>, r: nat, named: nat, compared: nat, named': nat, compared': nat)
    requires CommitWindow(es, r, named, compared) && CommitWindow(es, r, named', compared')
    ensures named == named' && compared == compared'
  {
  }

  lemma Stands(s: State, e: Event, w: Writer)
    requires Enabled(s, e) && !By(e, w)
    ensures At(Apply(s, e), w) == At(s, w)
  {
  }

  /** A writer is as it was while it takes no step. */
  lemma LocalStays(init: State, es: seq<Event>, w: Writer, p: nat, r: nat)
    requires Run(init, es) && p <= r <= |es|
    requires forall m :: p <= m < r ==> !By(es[m], w)
    ensures At(Before(init, es, r), w) == At(Before(init, es, p), w)
    decreases r
  {
    if p < r {
      LocalStays(init, es, w, p, r - 1);
      RunPrefix(init, es, r - 1);
      Stands(Before(init, es, r - 1), es[r - 1], w);
    }
  }

  /** Two writers past their second name check, with the name not rebound
      behind either, are the same writer. */
  lemma OneInside(s: State, es: seq<Event>, v: Writer, w: Writer)
    requires Inv(s, es)
    requires At(s, v).pc.Ready? && !Rebound(es, At(s, v).namedAt, |es|)
    requires At(s, w).pc.Ready? && !Rebound(es, At(s, w).namedAt, |es|)
    ensures v == w
  {
    assert Knows(s, es, v) && Knows(s, es, w);
    assert Holding(At(s, v).pc) && Holding(At(s, w).pc);
  }

  /** Another writer's commit inside this one's window needs a rebinding inside
      one of the two windows. */
  lemma Intruder(init: State, es: seq<Event>, r: nat, named: nat, compared: nat, m: nat)
    returns (named': nat, compared': nat)
    requires Initial(init) && Run(init, es) && CommitWindow(es, r, named, compared)
    requires compared < m < r && es[m].Rename?
    ensures CommitWindow(es, m, named', compared') && es[m].w != es[r].w
    ensures Rebound(es, named, m) || Rebound(es, named', m)
  {
    var w := es[r].w;
    var n0, c0 := WindowOf(init, es, r);
    WindowUnique(es, r, named, compared, n0, c0);
    named', compared' := WindowOf(init, es, m);
    LocalStays(init, es, w, m, r);
    RunPrefix(init, es, r);
    RunPrefix(init, es, m);
    InvAt(init, es, m);
    var s := Before(init, es, m);
    assert At(s, w).pc.Ready? && At(s, w).namedAt == named;
    if !Rebound(es, named, m) && !Rebound(es, named', m) {
      Unslice(es, named, m);
      Unslice(es, named', m);
      OneInside(s, es[..m], es[m].w, w);
    }
  }

  /** In every interleaving, a compare-and-replace overwrites bytes other than
      the ones its caller expected only if an external write fell between its
      second compare and its rename, or another writer's rename did, and then
      the lock's name was rebound between the name check and that rename of one
      of the two. */
  lemma UnexpectedCommit(init: State, es: seq<Event>, r: nat)
    returns (named: nat, compared: nat, m: nat, named': nat, compared': nat)
    requires Initial(init) && Run(init, es) && r < |es| && es[r].Rename?
    requires !CommitsAsExpected(init, es, r)
    ensures CommitWindow(es, r, named, compared) && compared < m < r
    ensures Edited(es, compared, r) ||
            (CommitWindow(es, m, named', compared') && es[m].w != es[r].w &&
             (Rebound(es, named, m) || Rebound(es, named', m)))
  {
    named', compared' := 0, 0;
    named, compared := WindowOf(init, es, r);
    m :| compared < m < r && Writes(es[m]);
    if es[m].Rename? {
      named', compared' := Intruder(init, es, r, named, compared, m);
    }
  }

  /** No commit's window holds an external write or a rebinding. */
  ghost predicate QuietWindows(es: seq<Event>) {
    forall r, named, compared :: CommitWindow(es, r, named, compared) ==>
                                   !Edited(es, compared, r) && !Rebound(es, named, r)
  }

  lemma TargetStays(init: State, es: seq<Event>, p: nat, r: nat)
    requires Run(init, es) && p <= r <= |es|
    requires forall m :: p <= m < r ==> !Writes(es[m])
    ensures Before(init, es, r).target == Before(init, es, p).target
    decreases r
  {
    if p < r {
      TargetStays(init, es, p, r - 1);
      RunPrefix(init, es, r - 1);
    }
  }

  /** With quiet windows the commits are one linear compare-and-swap history:
      each finds what it expected, and of two with no write in between the
      later expected exactly the body of the earlier. */
  lemma LinearHistory(init: State, es: seq<Event>)
    requires Initial(init) && Run(init, es) && QuietWindows(es)
    ensures forall r :: 0 <= r < |es| && es[r].Rename? ==> CommitsAsExpected(init, es, r)
    ensures forall q, r :: 0 <= q < r < |es| && es[q].Rename? && es[r].Rename? && !Overwritten(es, q, r) ==>
              Passes(At(Before(init, es, r), es[r].w).expected, Some(At(Before(init, es, q), es[q].w).body))
  {
    forall r | 0 <= r < |es| && es[r].Rename?
      ensures CommitsAsExpected(init, es, r)
    {
      if !CommitsAsExpected(init, es, r) {
        var named, compared, m, named', compared' := UnexpectedCommit(init, es, r);
      }
    }
    forall q, r | 0 <= q < r < |es| && es[q].Rename? && es[r].Rename? && !Overwritten(es, q, r)
      ensures Passes(At(Before(init, es, r), es[r].w).expected, Some(At(Before(init, es, q), es[q].w).body))
    {
      CommitLeaves(init, es, q);
      TargetStays(init, es, q + 1, r);
      assert CommitsAsExpected(init, es, r);
    }
  }

  /** A commit leaves the writer's whole body in the target. */
  lemma CommitLeaves(init: State, es: seq<Event>, q: nat)
    requires Initial(init) && Run(init, es) && q < |es| && es[q].Rename?
    ensures Before(init, es, q + 1).target == Some(At(Before(init, es, q), es[q].w).body)
  {
    RunPrefix(init, es, q);
    InvAt(init, es, q);
    assert At(Before(init, es, q), es[q].w).pc.Ready?;
  }

  /** The last write inside a commit's window, and what it left is not what the
      commit expects: an editor's bytes, or another writer's whole body. */
  ghost predicate Spoils(init: State, es: seq<Event>, r: nat, compared: nat, m: nat)
    requires r < |es| && es[r].Rename?
  {
    && compared < m < r && !Overwritten(es, m, r)
    && match es[m]
       case ExternalWrite(bytes) => !Passes(Expected(init, es, r), bytes)
       case Rename(w) => w != es[r].w && !Passes(Expected(init, es, r), Some(At(Before(init, es, m), w).body))
       case _ => false
  }

  ghost function Expected(init: State, es: seq<Event>, r: nat): Option<Option<Bytes>>
    requires r < |es| && es[r].Rename?
  {
    At(Before(init, es, r), es[r].w).expected
  }

  /** A write leaves an editor's bytes or its writer's whole body. */
  lemma WriteLeaves(init: State, es: seq<Event>, m: nat)
    requires Initial(init) && Run(init, es) && m < |es| && Writes(es[m])
    ensures Before(init, es, m + 1).target ==
            (if es[m].ExternalWrite? then es[m].bytes else Some(At(Before(init, es, m), es[m].w).body))
  {
    RunPrefix(init, es, m);
    if es[m].Rename? {
      CommitLeaves(init, es, m);
    }
  }

  /** A writer takes no other step inside its own window. */
  lemma OthersInside(init: State, es: seq<Event>, r: nat, named: nat, compared: nat, m: nat)
    requires CommitWindow(es, r, named, compared) && compared < m < r && es[m].Rename?
    ensures es[m].w != es[r].w
  {
    assert !By(es[m], es[r].w);
  }

  lemma Spoiled(init: State, es: seq<Event>, r: nat, named: nat, compared: nat) returns (m: nat)
    requires Initial(init) && Run(init, es) && CommitWindow(es, r, named, compared)
    requires !CommitsAsExpected(init, es, r)
    ensures Spoils(init, es, r, compared, m)
  {
    var n0, c0 := WindowOf(init, es, r);
    WindowUnique(es, r, named, compared, n0, c0);
    m := LastWrite(es, compared, r);
    LastWriteStays(init, es, m, r);
    WriteLeaves(init, es, m);
    if es[m].Rename? {
      OthersInside(init, es, r, named, compared, m);
    }
  }

  /** Exactly when a commit overwrites something else than it expected: the last
      write in its window was an editor's, of other bytes, or another writer's
      commit, of another body; and then the lock's name was rebound between the
      name check and that commit of one of the two. */
  lemma UnexpectedExactly(init: State, es: seq<Event>, r: nat, named: nat, compared: nat)
    requires Initial(init) && Run(init, es) && CommitWindow(es, r, named, compared)
    ensures !CommitsAsExpected(init, es, r) <==> exists m: nat :: Spoils(init, es, r, compared, m)
    ensures forall m: nat :: Spoils(init, es, r, compared, m) && es[m].Rename? ==>
              exists named': nat, compared': nat :: CommitWindow(es, m, named', compared') &&
                                          (Rebound(es, named, m) || Rebound(es, named', m))
  {
    if !CommitsAsExpected(init, es, r) {
      var m := Spoiled(init, es, r, named, compared);
    }
    forall m: nat | Spoils(init, es, r, compared, m)
      ensures !CommitsAsExpected(init, es, r)
      ensures es[m].Rename? ==> exists named': nat, compared': nat :: CommitWindow(es, m, named', compared') &&
                                                            (Rebound(es, named, m) || Rebound(es, named', m))
    {
      LastWriteStays(init, es, m, r);
      WriteLeaves(init, es, m);
      if es[m].Rename? {
        var named', compared' := Intruder(init, es, r, named, compared, m);
      }
    }
  }

  lemma LastWriteStays(init: State, es: seq<Event>, m: nat, r: nat)
    requires Run(init, es) && m < r <= |es| && !Overwritten(es, m, r)
    ensures Before(init, es, m + 1).target == Before(init, es, r).target
  {
    TargetStays(init, es, m + 1, r);
  }

  lemma LastWrite(es: seq<Event>, lo: nat, hi: nat) returns (m: nat)
    requires hi <= |es| && Overwritten(es, lo, hi)
    ensures lo < m < hi && Writes(es[m]) && !Overwritten(es, m, hi)
    ensures forall k :: m < k < hi ==> !Writes(es[k])
    decreases hi
  {
    if Writes(es[hi - 1]) {
      m := hi - 1;
    } else {
      m := LastWrite(es, lo, hi - 1);
    }
  }

  // ------------------------------------------------------------- provenance

  ghost predicate Asked(es: seq<Event>, body: Bytes) {
    exists m :: 0 <= m < |es| && es[m].Begin? && es[m].body == body
  }

  ghost predicate Typed(es: seq<Event>, target: Option<Bytes>) {
    exists m :: 0 <= m < |es| && es[m] == ExternalWrite(target)
  }

  ghost predicate BodiesAsked(s: State, es: seq<Event>) {
    forall w :: At(s, w).pc.Idle? || Asked(es, At(s, w).body)
  }

  lemma BodiesStep(s: State, es: seq<Event>, e: Event)
    requires Enabled(s, e) && BodiesAsked(s, es)
    ensures BodiesAsked(Apply(s, e), es + [e])
  {
    forall w | !At(Apply(s, e), w).pc.Idle?
      ensures Asked(es + [e], At(Apply(s, e), w).body)
    {
      if e.Begin? && e.w == w {
        assert (es + [e])[|es|] == e;
      } else {
        assert !At(s, w).pc.Idle? && Asked(es, At(s, w).body);
        var m :| 0 <= m < |es| && es[m].Begin? && es[m].body == At(s, w).body;
        assert (es + [e])[m] == es[m];
      }
    }
  }

  lemma {:induction false} RunBodies(init: State, es: seq<Event>)
    requires Initial(init) && Run(init, es)
    ensures BodiesAsked(After(init, es), es)
  {
    if es != [] {
      var before := es[..|es| - 1];
      RunBodies(init, before);
      BodiesStep(After(init, before), before, es[|es| - 1]);
      assert es == before + [es[|es| - 1]];
    }
  }

  /** At every moment the target holds its initial bytes, an external writer's
      bytes, or the whole body some writer was asked to write: never a part. */
  lemma {:induction false} TargetProvenance(init: State, es: seq<Event>)
    requires Initial(init) && Run(init, es)
    ensures var target := After(init, es).target;
            target == init.target || Typed(es, target) || (target.Some? && Asked(es, target.value))
  {
    if es != [] {
      var n := |es| - 1;
      TargetProvenance(init, es[..n]);
      assert es[..n + 1] == es;
      RunPrefix(init, es, n);
      var s, target := After(init, es[..n]), After(init, es).target;
      if es[n].Rename? {
        RunBodies(init, es[..n]);
        CommitLeaves(init, es, n);
        assert Asked(es[..n], target.value);
        Grows(es, n, target);
      } else if es[n].ExternalWrite? {
        assert Typed(es, target);
      } else {
        Grows(es, n, target);
      }
    }
  }

  lemma Grows(es: seq<Event>, n: nat, target: Option<Bytes>)
    requires n <= |es|
    ensures Typed(es[..n], target) ==> Typed(es, target)
    ensures target.Some? && Asked(es[..n], target.value) ==> Asked(es, target.value)
  {
    assert forall m :: 0 <= m < n ==> es[..n][m] == es[m];
  }

  // ----------------------------------------------- a writer left undisturbed

  lemma Extend(init: State, es: seq<Event>, e: Event)
    requires Run(init, es) && Enabled(After(init, es), e)
    ensures Run(init, es + [e]) && After(init, es + [e]) == Apply(After(init, es), e)
  {
    assert (es + [e])[..|es|] == es;
  }

  /** From `s` to `t` only `w` and the lock's holder changed, in `k` events. */
  ghost predicate Solo(s: State, t: State, w: Writer, l: Local, holder: map<Inode, Writer>, k: nat) {
    && t.lockName == s.lockName && t.target == s.target && t.nextInode == s.nextInode
    && t.holder == holder && t.clock == s.clock + k
    && At(t, w) == l
    && forall v :: v != w ==> At(t, v) == At(s, v)
  }

  /** Taking the lock and replacing up to the commit move nothing else. */
  predicate Quiet(e: Event) {
    e.OpenLock? || e.TakeLock? || e.CheckName? || e.Compare? || e.WriteStaged? || e.CheckNameAgain? || e.CompareAgain?
  }

  lemma QuietApply(t: State, e: Event)
    requires Enabled(t, e) && Quiet(e) && (e.CheckName? ==> t.lockName == Some(At(t, e.w).fd))
    ensures var t' := Apply(t, e);
            && t'.lockName == t.lockName && t'.target == t.target && t'.nextInode == t.nextInode &&
               t'.clock == t.clock + 1
            && t'.holder == (if e.TakeLock? then t.holder[At(t, e.w).fd := e.w] else t.holder)
            && forall v :: v != e.w ==> At(t', v) == At(t, v)
  {
  }

  lemma SoloStep(init: State, es: seq<Event>, s: State, w: Writer, l: Local, holder: map<Inode, Writer>, e: Event)
    requires Run(init, es) && s.clock <= After(init, es).clock
    requires Solo(s, After(init, es), w, l, holder, After(init, es).clock - s.clock)
    requires Enabled(After(init, es), e) && By(e, w)
    requires Quiet(e)
    requires e.CheckName? ==> s.lockName == Some(l.fd)
    ensures Run(init, es + [e]) && After(init, es + [e]) == Apply(After(init, es), e)
    ensures Solo(s, After(init, es + [e]), w, At(After(init, es + [e]), w),
                 if e.TakeLock? then holder[l.fd := w] else holder, After(init, es).clock + 1 - s.clock)
  {
    Extend(init, es, e);
    QuietApply(After(init, es), e);
  }

  function TakingTheLock(w: Writer): seq<Event> {
    [OpenLock(w)] + [TakeLock(w)] + [CheckName(w)]
  }

  function Replacing(w: Writer, size: nat): seq<Event> {
    [Compare(w)] + [WriteStaged(w, size)] + [CheckNameAgain(w)] + [CompareAgain(w)]
  }

  lemma ReachesTaken(init: State, es: seq<Event>, s: State, w: Writer)
    requires Run(init, es) && s == After(init, es)
    requires At(s, w).pc.Opening? && s.lockName.Some? && s.lockName.value !in s.holder
    ensures var es' := es + [OpenLock(w)] + [TakeLock(w)];
            && Run(init, es')
            && Solo(s, After(init, es'), w, At(s, w).(pc := Taken, fd := s.lockName.value),
                    s.holder[s.lockName.value := w], 2)
  {
    var l := At(s, w);
    SoloStep(init, es, s, w, l, s.holder, OpenLock(w));
    SoloStep(init, es + [OpenLock(w)], s, w, l.(pc := Opened, fd := s.lockName.value), s.holder, TakeLock(w));
  }

  lemma ReachesLock(init: State, es: seq<Event>, s: State, w: Writer)
    requires Run(init, es) && s == After(init, es)
    requires At(s, w).pc.Opening? && s.lockName.Some? && s.lockName.value !in s.holder
    ensures Run(init, es + TakingTheLock(w))
    ensures Solo(s, After(init, es + TakingTheLock(w)), w, At(s, w).(pc := Acquired, fd := s.lockName.value),
                 s.holder[s.lockName.value := w], 3)
  {
    var es2 := es + [OpenLock(w)] + [TakeLock(w)];
    ReachesTaken(init, es, s, w);
    SoloStep(init, es2, s, w, At(s, w).(pc := Taken, fd := s.lockName.value),
             s.holder[s.lockName.value := w], CheckName(w));
    assert es2 + [CheckName(w)] == es + TakingTheLock(w);
  }

  lemma ReachesStaged(init: State, es: seq<Event>, s: State, w: Writer, l: Local)
    requires Run(init, es) && s == After(init, es) && l == At(s, w)
    requires l.pc.Acquired? && l.staged == [] && Passes(l.expected, s.target)
    ensures var es' := es + [Compare(w)] + [WriteStaged(w, |l.body|)];
            && Run(init, es')
            && Solo(s, After(init, es'), w, l.(pc := Staged, staged := l.body), s.holder, 2)
  {
    SoloStep(init, es, s, w, l, s.holder, Compare(w));
    SoloStep(init, es + [Compare(w)], s, w, l.(pc := Matched), s.holder, WriteStaged(w, |l.body|));
    assert l.body[..|l.body|] == l.body;
  }

  lemma ReachesReady(init: State, es: seq<Event>, s: State, w: Writer, l: Local)
    requires Run(init, es) && Solo(s, After(init, es), w, l.(pc := Staged, staged := l.body), s.holder, 2)
    requires s.lockName == Some(l.fd) && Passes(l.expected, s.target)
    ensures var es' := es + [CheckNameAgain(w)] + [CompareAgain(w)];
            && Run(init, es')
            && Solo(s, After(init, es'), w,
                    l.(pc := Ready, staged := l.body, namedAt := s.clock + 2, comparedAt := s.clock + 3), s.holder, 4)
  {
    SoloStep(init, es, s, w, l.(pc := Staged, staged := l.body), s.holder, CheckNameAgain(w));
    SoloStep(init, es + [CheckNameAgain(w)], s, w, l.(pc := Named, staged := l.body, namedAt := s.clock + 2),
             s.holder, CompareAgain(w));
  }

  lemma ReachesCommit(init: State, es: seq<Event>, s: State, w: Writer, l: Local)
    requires Run(init, es) && s == After(init, es) && l == At(s, w)
    requires l.pc.Acquired? && s.lockName == Some(l.fd) && l.staged == [] && Passes(l.expected, s.target)
    ensures Run(init, es + Replacing(w, |l.body|))
    ensures Solo(s, After(init, es + Replacing(w, |l.body|)), w,
                 l.(pc := Ready, staged := l.body, namedAt := s.clock + 2, comparedAt := s.clock + 3), s.holder, 4)
  {
    var es2 := es + [Compare(w)] + [WriteStaged(w, |l.body|)];
    ReachesStaged(init, es, s, w, l);
    ReachesReady(init, es2, s, w, l);
    assert es2 + [CheckNameAgain(w)] + [CompareAgain(w)] == es + Replacing(w, |l.body|);
  }

  /** A writer nobody disturbs commits its body. */
  lemma CommitsUndisturbed(init: State, es: seq<Event>, s: State, w: Writer)
    requires Run(init, es) && s == After(init, es)
    requires At(s, w).pc.Opening? && s.lockName.Some? && s.lockName.value !in s.holder
    requires At(s, w).staged == [] && Passes(At(s, w).expected, s.target)
    ensures var es' := es + TakingTheLock(w) + Replacing(w, |At(s, w).body|);
            && Run(init, es' + [Rename(w)])
            && After(init, es' + [Rename(w)]).target == Some(At(s, w).body)
            && Solo(s, After(init, es'), w,
                    At(s, w).(pc := Ready, fd := s.lockName.value, staged := At(s, w).body,
                              namedAt := s.clock + 5, comparedAt := s.clock + 6),
                    s.holder[s.lockName.value := w], 7)
  {
    ReachesLock(init, es, s, w);
    var es1 := es + TakingTheLock(w);
    var s1 := After(init, es1);
    ReachesCommit(init, es1, s1, w, At(s1, w));
    Extend(init, es1 + Replacing(w, |At(s, w).body|), Rename(w));
  }

  lemma Released1(s: State, w: Writer, lock: Inode)
    requires lock !in s.holder
    ensures s.holder[lock := w] - {lock} == s.holder
  {
  }

  /** And then it holds its lock no longer: all else is as it was. */
  lemma CommitsAndReleases(init: State, es: seq<Event>, s: State, w: Writer)
    requires Run(init, es) && s == After(init, es)
    requires At(s, w).pc.Opening? && s.lockName.Some? && s.lockName.value !in s.holder
    requires At(s, w).staged == [] && Passes(At(s, w).expected, s.target)
    ensures var es' := es + TakingTheLock(w) + Replacing(w, |At(s, w).body|) + [Rename(w)];
            var t := After(init, es');
            && Run(init, es')
            && t.target == Some(At(s, w).body) && t.lockName == s.lockName && t.holder == s.holder
            && At(t, w).pc.Idle? && forall v :: v != w ==> At(t, v) == At(s, v)
  {
    CommitsUndisturbed(init, es, s, w);
    var before := es + TakingTheLock(w) + Replacing(w, |At(s, w).body|);
    Extend(init, before, Rename(w));
    Released1(s, w, s.lockName.value);
  }

  /** Two writers, one after the other, both commit. */
  lemma OneAfterTheOther(init: State, es: seq<Event>, s: State, v: Writer, w: Writer)
    requires Run(init, es) && s == After(init, es) && v != w
    requires s.lockName.Some? && s.lockName.value !in s.holder
    requires At(s, v).pc.Opening? && At(s, v).staged == [] && Passes(At(s, v).expected, s.target)
    requires At(s, w).pc.Opening? && At(s, w).staged == [] && Passes(At(s, w).expected, Some(At(s, v).body))
    ensures var es' := es + TakingTheLock(v) + Replacing(v, |At(s, v).body|) + [Rename(v)];
            var es'' := es' + TakingTheLock(w) + Replacing(w, |At(s, w).body|) + [Rename(w)];
            && Run(init, es'')
            && After(init, es').target == Some(At(s, v).body) && After(init, es'').target == Some(At(s, w).body)
  {
    CommitsAndReleases(init, es, s, v);
    var es' := es + TakingTheLock(v) + Replacing(v, |At(s, v).body|) + [Rename(v)];
    CommitsAndReleases(init, es', After(init, es'), w);
  }

  // ------------------------------------------------------- healing and the name

  /** A lock is healed only for a shared record. */
  lemma OnlySharedHeals(init: State, es: seq<Event>, r: nat)
    requires Initial(init) && Run(init, es) && r < |es| && es[r].RenameHeal?
    ensures At(Before(init, es, r), es[r].w).shared
  {
    RunPrefix(init, es, r);
    InvAt(init, es, r);
  }

  /** A writer goes on with a lock only while that is the file at the name. */
  lemma AcquiresItsName(init: State, es: seq<Event>, r: nat)
    requires Run(init, es) && r < |es| && es[r].CheckName?
    ensures At(Before(init, es, r + 1), es[r].w).pc.Acquired? <==>
            Before(init, es, r).lockName == Some(At(Before(init, es, r), es[r].w).fd)
  {
    RunPrefix(init, es, r);
  }

  // ---------------------------------------------------- the first comparison

  /** A writer past its first comparison, and where that was. */
  ghost predicate Compared(s: State, es: seq<Event>, w: Writer, k: nat) {
    && k < |es| && es[k] == Compare(w)
    && forall m :: k < m < |es| && By(es[m], w) ==> !es[m].Begin?
  }

  predicate PastComparing(pc: Pc) {
    pc.Matched? || pc.Staged? || pc.Named? || pc.Ready?
  }

  lemma {:induction false} ComparedBefore(init: State, es: seq<Event>, w: Writer) returns (k: nat)
    requires Run(init, es) && Initial(init) && PastComparing(At(After(init, es), w).pc)
    ensures Compared(After(init, es), es, w, k)
    ensures Passes(At(After(init, es), w).expected, Before(init, es, k).target)
  {
    var n := |es| - 1;
    RunPrefix(init, es, n);
    assert es[..n + 1] == es;
    var s, e := After(init, es[..n]), es[n];
    if e == Compare(w) {
      k := n;
    } else {
      if By(e, w) {
        assert PastComparing(At(s, w).pc) && At(Apply(s, e), w).expected == At(s, w).expected && !e.Begin?;
      } else {
        Stands(s, e, w);
      }
      k := ComparedBefore(init, es[..n], w);
      assert es[..n][..k] == es[..k] && es[..n][k] == es[k];
      assert forall m :: 0 <= m < n ==> es[..n][m] == es[m];
    }
  }

  /** Nothing is staged before the target was found as expected. */
  lemma StagesOnlyAfterComparing(init: State, es: seq<Event>, r: nat) returns (k: nat)
    requires Initial(init) && Run(init, es) && r < |es| && (es[r].WriteStaged? || es[r].Rename?)
    ensures k < r && es[k] == Compare(es[r].w)
    ensures var expected := At(Before(init, es, r), es[r].w).expected;
            expected == None || expected == Some(Before(init, es, k).target)
    ensures forall m :: k < m < r && By(es[m], es[r].w) ==> !es[m].Begin?
  {
    RunPrefix(init, es, r);
    k := ComparedBefore(init, es[..r], es[r].w);
    assert es[..r][..k] == es[..k] && es[..r][k] == es[k];
    assert forall m :: 0 <= m < r ==> es[..r][m] == es[m];
  }

  // ------------------------------------------------------------ what was asked

  /** The update a writer is in the middle of is the one it was last asked for. */
  ghost predicate InHand(s: State, es: seq<Event>, w: Writer, k: nat) {
    && k < |es| && es[k] == Begin(w, At(s, w).shared, At(s, w).expected, At(s, w).body)
    && forall m :: k < m < |es| && By(es[m], w) ==> !es[m].Begin?
  }

  lemma InHandStep(s: State, es: seq<Event>, e: Event, w: Writer, k: nat)
    requires Enabled(s, e) && InHand(s, es, w, k) && !At(s, w).pc.Idle? && !At(Apply(s, e), w).pc.Idle?
    ensures InHand(Apply(s, e), es + [e], w, k)
  {
    var all := es + [e];
    assert all[k] == es[k] && all[|es|] == e;
    assert forall m :: k < m < |es| ==> all[m] == es[m];
  }

  lemma {:induction false} AsAsked(init: State, es: seq<Event>, w: Writer) returns (k: nat)
    requires Initial(init) && Run(init, es) && !At(After(init, es), w).pc.Idle?
    ensures InHand(After(init, es), es, w, k)
    decreases |es|
  {
    var before, e := es[..|es| - 1], es[|es| - 1];
    var s := After(init, before);
    assert es == before + [e];
    if At(s, w).pc.Idle? {
      assert e.Begin? && e.w == w;
      k := |es| - 1;
    } else {
      k := AsAsked(init, before, w);
      InHandStep(s, before, e, w, k);
    }
  }

  /** A commit leaves the body its writer was last asked to write, and what it was
      asked to expect is what it compared. */
  lemma CommitsAsAsked(init: State, es: seq<Event>, r: nat) returns (k: nat)
    requires Initial(init) && Run(init, es) && r < |es| && es[r].Rename?
    ensures k < r && es[k].Begin? && es[k].w == es[r].w
    ensures Before(init, es, r + 1).target == Some(es[k].body)
    ensures At(Before(init, es, r), es[r].w).expected == es[k].expected
    ensures forall m :: k < m < r && By(es[m], es[r].w) ==> !es[m].Begin?
  {
    RunPrefix(init, es, r);
    k := AsAsked(init, es[..r], es[r].w);
    CommitLeaves(init, es, r);
    assert es[..r][k] == es[k];
    assert forall m :: 0 <= m < r ==> es[..r][m] == es[m];
  }

  // ---------------------------------------------- the window healing leaves

  function Healing(w: Writer, body: Bytes): seq<Event> {
    [Begin(w, true, Some(None), body)] + [StageHeal(w)] + [RenameHeal(w)]
  }

  lemma HealStages(init: State, es: seq<Event>, s: State, w: Writer, body: Bytes)
    requires Run(init, es) && s == After(init, es)
    requires At(s, w).pc.Idle? && s.lockName.Some?
    ensures var es' := es + [Begin(w, true, Some(None), body)] + [StageHeal(w)];
            var t := After(init, es');
            && Run(init, es')
            && t.lockName == s.lockName && t.holder == s.holder && t.target == s.target && t.clock == s.clock + 2
            && At(t, w) ==
               Resting.(pc := HealStaged, shared := true, expected := Some(None), body := body, fd := s.nextInode)
            && forall v :: v != w ==> At(t, v) == At(s, v)
  {
    var e := Begin(w, true, Some(None), body);
    Extend(init, es, e);
    Extend(init, es + [e], StageHeal(w));
  }

  lemma Heals(init: State, es: seq<Event>, s: State, w: Writer, body: Bytes)
    requires Run(init, es) && s == After(init, es)
    requires At(s, w).pc.Idle? && s.lockName.Some?
    ensures Run(init, es + Healing(w, body))
    ensures var t := After(init, es + Healing(w, body));
            && t.lockName == Some(s.nextInode) && t.holder == s.holder && t.target == s.target && t.clock == s.clock + 3
            && At(t, w).pc.Opening? && At(t, w).staged == [] && At(t, w).expected == Some(None) && At(t, w).body == body
            && forall v :: v != w ==> At(t, v) == At(s, v)
  {
    var e := Begin(w, true, Some(None), body);
    HealStages(init, es, s, w, body);
    Extend(init, es + [e] + [StageHeal(w)], RenameHeal(w));
    assert es + [e] + [StageHeal(w)] + [RenameHeal(w)] == es + Healing(w, body);
  }

  /** One writer gets as far as its commit; another heals the lock, gets as far
      as its own; then the first commits, and the second after it. */
  function Overlap(first: byte, second: byte): seq<Event> {
    [Begin(0, true, Some(None), [first])] + (TakingTheLock(0) + Replacing(0, 1)) + Healing(1, [second]) +
    (TakingTheLock(1) + Replacing(1, 1)) + [Rename(0)] + [Rename(1)]
  }

  lemma FirstAtItsCommit(init: State, first: byte)
    requires init == State(Some(0), map[], None, map[], 1, 0)
    ensures var es := [Begin(0, true, Some(None), [first])] + (TakingTheLock(0) + Replacing(0, 1));
            var s := After(init, es);
            && Run(init, es)
            && s.lockName == Some(0) && s.holder == map[0 := 0] && s.target == None && s.nextInode == 1
            && At(s, 1).pc.Idle? && At(s, 0).pc.Ready? && At(s, 0).staged == [first]
  {
    var begin := Begin(0, true, Some(None), [first]);
    Extend(init, [], begin);
    var es1 := [] + [begin];
    CommitsUndisturbed(init, es1, After(init, es1), 0);
    assert es1 + TakingTheLock(0) + Replacing(0, 1) == [begin] + (TakingTheLock(0) + Replacing(0, 1));
  }

  lemma SecondAtItsCommit(init: State, es: seq<Event>, s: State, first: byte, second: byte)
    requires Run(init, es) && s == After(init, es)
    requires s.lockName == Some(0) && s.holder == map[0 := 0] && s.target == None && s.nextInode == 1
    requires At(s, 1).pc.Idle? && At(s, 0).pc.Ready? && At(s, 0).staged == [first]
    ensures var es' := es + Healing(1, [second]) + (TakingTheLock(1) + Replacing(1, 1));
            var s' := After(init, es');
            && Run(init, es')
            && At(s', 0).pc.Ready? && At(s', 0).staged == [first]
            && At(s', 1).pc.Ready? && At(s', 1).expected == Some(None)
  {
    Heals(init, es, s, 1, [second]);
    var es1 := es + Healing(1, [second]);
    CommitsUndisturbed(init, es1, After(init, es1), 1);
    Joined(es1, TakingTheLock(1), Replacing(1, 1));
  }

  lemma Joined(a: seq<Event>, b: seq<Event>, c: seq<Event>)
    ensures a + b + c == a + (b + c)
  {
  }

  lemma OverlapRuns(init: State, first: byte, second: byte)
    requires init == State(Some(0), map[], None, map[], 1, 0)
    ensures var es := Overlap(first, second);
            && Run(init, es)
            && Before(init, es, 19).target == Some([first]) && At(Before(init, es, 19), 1).expected == Some(None)
  {
    FirstAtItsCommit(init, first);
    var es2 := [Begin(0, true, Some(None), [first])] + (TakingTheLock(0) + Replacing(0, 1));
    SecondAtItsCommit(init, es2, After(init, es2), first, second);
    var es4 := es2 + Healing(1, [second]) + (TakingTheLock(1) + Replacing(1, 1));
    Extend(init, es4, Rename(0));
    Extend(init, es4 + [Rename(0)], Rename(1));
    assert es4 + [Rename(0)] + [Rename(1)] == Overlap(first, second);
    assert Overlap(first, second)[..19] == es4 + [Rename(0)];
  }

  /** A commit may overwrite what it did not expect although no external write
      and no rebinding fell in its own window: it is the other writer's window
      that the lock was healed in. */
  lemma OwnWindowIsNotEnough(first: byte, second: byte) returns (init: State, es: seq<Event>, r: nat)
    ensures Initial(init) && Run(init, es) && r < |es| && es[r].Rename?
    ensures !CommitsAsExpected(init, es, r)
    ensures forall named, compared :: CommitWindow(es, r, named, compared) ==>
              !Edited(es, compared, r) && !Rebound(es, named, r)
  {
    init := State(Some(0), map[], None, map[], 1, 0);
    es, r := Overlap(first, second), 19;
    OverlapRuns(init, first, second);
    assert es[16] == CheckNameAgain(1) && es[17] == CompareAgain(1) && es[18] == Rename(0) && es[19] == Rename(1);
  }
}
