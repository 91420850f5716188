/** What the loop breaker promises over whole runs: how much a bounded table
    can let through, when it decides exactly as an unbounded one would, and
    what the delay announced by a trip is worth. */
module LoopBreakerRuns {
  import opened LoopBreaker

  // ------------------------------------------------ acceptances in a window

  function CountFrom(times: seq<u64>, start: nat): (n: nat)
    ensures n <= |times|
  {
    if times == [] then 0
    else (if times[0] >= start then 1 else 0) + CountFrom(times[1..], start)
  }

  lemma CountAppend(times: seq<u64>, at: u64, start: nat)
    ensures CountFrom(times + [at], start) == CountFrom(times, start) + (if at >= start then 1 else 0)
  {
    if times == [] {
      assert times + [at] == [at];
    } else {
      assert (times + [at])[1..] == times[1..] + [at];
      CountAppend(times[1..], at, start);
    }
  }

  /** Everything recorded at or after `start` is still live inside the window
      that begins there, even when the clock goes back in between. */
  lemma CountLive(times: seq<u64>, start: nat, now: u64, window: u64)
    requires start <= now < start + window
    ensures CountFrom(Live(times, now, window), start) == CountFrom(times, start)
    ensures !AnyLive(times, now, window) ==> CountFrom(times, start) == 0
  {
    if times != [] {
      var tail := times[1..];
      CountLive(tail, start, now, window);
      assert ([times[0]] + Live(tail, now, window))[1..] == Live(tail, now, window);
      assert [] + Live(tail, now, window) == Live(tail, now, window);
      if AnyLive(tail, now, window) {
        var i :| 0 <= i < |tail| && IsLive(tail[i], now, window);
        assert times[i + 1] == tail[i];
      }
    }
  }

  ghost function AcceptedIn(cfg: Config, calls: seq<Call>, key: Key, lo: nat, hi: nat): nat
    requires lo <= hi <= |calls|
    decreases hi
  {
    if hi == lo then 0
    else AcceptedIn(cfg, calls, key, lo, hi - 1) +
         (if calls[hi - 1].key == key && VerdictAt(cfg, calls, hi - 1).Ok? then 1 else 0)
  }

  function OthersIn(calls: seq<Call>, key: Key, lo: nat, hi: nat): nat
    requires lo <= hi <= |calls|
    decreases hi
  {
    if hi == lo then 0
    else OthersIn(calls, key, lo, hi - 1) + (if calls[hi - 1].key != key then 1 else 0)
  }

  /** The account kept of a window: `forgotten` is how often the call was
      forgotten while live, each time paid for with `Cap` other calls. */
  ghost predicate Charged(cfg: Config, t: Table, key: Key, lo: nat, start: nat,
                          accepted: nat, others: nat, forgotten: nat)
  {
    if key in t.calls && lo < t.calls[key].lastTouch <= t.touches then
      && forgotten * Cap(cfg) + (t.touches - t.calls[key].lastTouch) <= others
      && accepted <= cfg.limit * forgotten + CountFrom(t.calls[key].accepted, start)
    else
      && forgotten * Cap(cfg) <= others
      && accepted <= cfg.limit * forgotten
  }

  lemma ChargeCall(cfg: Config, t: Table, lo: nat, start: nat, accepted: nat, others: nat, forgotten: nat, call: Call)
    requires Bounded(cfg, t) && lo <= t.touches && start <= call.now < start + cfg.window
    requires Charged(cfg, t, call.key, lo, start, accepted, others, forgotten)
    ensures var (after, verdict) := Step(cfg, t, call.key, call.now);
            Charged(cfg, after, call.key, lo, start, accepted + (if verdict.Ok? then 1 else 0), others, forgotten)
  {
    RoomFits(cfg, t, call.key, call.now);
    var held := Held(Room(cfg, t, call.key, call.now), call.key);
    var kept := Live(held, call.now, cfg.window);
    CountLive(held, start, call.now, cfg.window);
    CountAppend(kept, call.now, start);
  }

  /** Making room for this call forgets `key` although it is still live. */
  ghost predicate Forgets(cfg: Config, t: Table, key: Key, call: Call) {
    && key in t.calls && AnyLive(t.calls[key].accepted, call.now, cfg.window)
    && key !in Room(cfg, t, call.key, call.now)
  }

  lemma ChargeOther(cfg: Config, t: Table, key: Key, lo: nat, start: nat,
                    accepted: nat, others: nat, forgotten: nat, call: Call)
    returns (forgotten': nat)
    requires Bounded(cfg, t) && lo <= t.touches && start <= call.now < start + cfg.window && call.key != key
    requires Charged(cfg, t, key, lo, start, accepted, others, forgotten)
    ensures Charged(cfg, Step(cfg, t, call.key, call.now).0, key, lo, start, accepted, others + 1, forgotten')
    ensures !Forgets(cfg, t, key, call) ==> forgotten' == forgotten
  {
    RoomFits(cfg, t, call.key, call.now);
    forgotten' := forgotten;
    if key in t.calls && key !in Room(cfg, t, call.key, call.now) {
      CountLive(t.calls[key].accepted, start, call.now, cfg.window);
      if AnyLive(t.calls[key].accepted, call.now, cfg.window) && lo < t.calls[key].lastTouch {
        EvictionCost(cfg, t, call.key, call.now, key);
        forgotten' := forgotten + 1;
        assert forgotten' * Cap(cfg) == forgotten * Cap(cfg) + Cap(cfg);
        assert cfg.limit * forgotten' == cfg.limit * forgotten + cfg.limit;
      }
    }
  }

  lemma AfterNext(cfg: Config, calls: seq<Call>, hi: nat)
    requires 1 <= hi <= |calls|
    ensures After(cfg, calls[..hi]) == Step(cfg, After(cfg, calls[..hi - 1]), calls[hi - 1].key, calls[hi - 1].now).0
  {
    assert calls[..hi][..hi - 1] == calls[..hi - 1];
  }

  ghost predicate NeverForgotten(cfg: Config, calls: seq<Call>, key: Key, lo: nat, hi: nat)
    requires lo <= hi <= |calls|
  {
    forall m :: lo <= m < hi ==> !Forgets(cfg, After(cfg, calls[..m]), key, calls[m])
  }

  lemma ForgottenBefore(cfg: Config, calls: seq<Call>, key: Key, lo: nat, hi: nat)
    requires lo < hi <= |calls| && NeverForgotten(cfg, calls, key, lo, hi)
    ensures NeverForgotten(cfg, calls, key, lo, hi - 1)
    ensures !Forgets(cfg, After(cfg, calls[..hi - 1]), key, calls[hi - 1])
  {
  }

  lemma {:induction false} WindowAccount(cfg: Config, calls: seq<Call>, key: Key, lo: nat, hi: nat, start: nat)
    returns (forgotten: nat)
    requires lo <= hi <= |calls|
    requires forall m :: lo <= m < hi ==> start <= calls[m].now < start + cfg.window
    ensures Charged(cfg, After(cfg, calls[..hi]), key, lo, start,
                    AcceptedIn(cfg, calls, key, lo, hi), OthersIn(calls, key, lo, hi), forgotten)
    ensures NeverForgotten(cfg, calls, key, lo, hi) ==> forgotten == 0
    decreases hi
  {
    if hi == lo {
      forgotten := 0;
      TableInvariant(cfg, calls[..hi]);
    } else {
      forgotten := WindowAccount(cfg, calls, key, lo, hi - 1, start);
      TableInvariant(cfg, calls[..hi - 1]);
      AfterNext(cfg, calls, hi);
      var t := After(cfg, calls[..hi - 1]);
      if NeverForgotten(cfg, calls, key, lo, hi) {
        ForgottenBefore(cfg, calls, key, lo, hi);
      }
      forgotten := ChargeEither(cfg, t, key, lo, start, AcceptedIn(cfg, calls, key, lo, hi - 1),
                                OthersIn(calls, key, lo, hi - 1), forgotten, calls[hi - 1]);
    }
  }

  lemma ChargeEither(cfg: Config, t: Table, key: Key, lo: nat, start: nat,
                     accepted: nat, others: nat, forgotten: nat, call: Call)
    returns (forgotten': nat)
    requires Bounded(cfg, t) && lo <= t.touches && start <= call.now < start + cfg.window
    requires Charged(cfg, t, key, lo, start, accepted, others, forgotten)
    ensures var (after, verdict) := Step(cfg, t, call.key, call.now);
            Charged(cfg, after, key, lo, start,
                    accepted + (if call.key == key && verdict.Ok? then 1 else 0),
                    others + (if call.key != key then 1 else 0), forgotten')
    ensures !Forgets(cfg, t, key, call) ==> forgotten' == forgotten
  {
    forgotten' := forgotten;
    if call.key == key {
      ChargeCall(cfg, t, lo, start, accepted, others, forgotten, call);
    } else {
      forgotten' := ChargeOther(cfg, t, key, lo, start, accepted, others, forgotten, call);
    }
  }

  lemma QuotientBound(q: nat, c: nat, n: nat)
    requires c >= 1 && q * c <= n
    ensures q <= n / c
  {
    var floor := n / c;
    assert floor * c + n % c == n;
    assert n < (floor + 1) * c;
    MulStrict(q, floor + 1, c);
  }

  lemma MulStrict(p: nat, q: nat, c: nat)
    ensures p * c < q * c ==> p < q
  {
    if p >= q {
      assert p * c == q * c + (p - q) * c;
    }
  }

  lemma ChargedTotal(cfg: Config, t: Table, key: Key, lo: nat, start: nat, accepted: nat, others: nat, forgotten: nat)
    requires Bounded(cfg, t) && Charged(cfg, t, key, lo, start, accepted, others, forgotten)
    ensures forgotten * Cap(cfg) <= others
    ensures accepted <= cfg.limit * forgotten + cfg.limit
    ensures forgotten == 0 ==> accepted <= cfg.limit
  {
    if forgotten == 0 {
      assert cfg.limit * forgotten == 0;
    }
  }

  /** How often one call may be accepted in a window that holds `others` other
      calls: `limit`, and as often again for each time it may be forgotten. */
  function Allowed(cfg: Config, others: nat): nat {
    cfg.limit * (1 + others / Cap(cfg))
  }

  lemma ChargedBound(limit: nat, cap: nat, accepted: nat, others: nat, forgotten: nat)
    requires cap >= 1 && forgotten * cap <= others && accepted <= limit * forgotten + limit
    ensures accepted <= limit * (1 + others / cap)
  {
    QuotientBound(forgotten, cap, others);
    MulMonotone(limit, forgotten, others / cap);
  }

  lemma ChargedAllowed(cfg: Config, t: Table, key: Key, lo: nat, start: nat, accepted: nat, others: nat, forgotten: nat)
    requires Bounded(cfg, t) && Charged(cfg, t, key, lo, start, accepted, others, forgotten)
    ensures accepted <= Allowed(cfg, others)
  {
    ChargedTotal(cfg, t, key, lo, start, accepted, others, forgotten);
    ChargedBound(cfg.limit, Cap(cfg), accepted, others, forgotten);
  }

  /** Among consecutive calls whose clock readings span less than one window,
      one call is accepted at most `limit * (1 + N / Cap)` times, where N counts
      the other calls among them. */
  lemma WindowBound(cfg: Config, calls: seq<Call>, key: Key, lo: nat, hi: nat, start: nat)
    requires lo <= hi <= |calls|
    requires forall m :: lo <= m < hi ==> start <= calls[m].now < start + cfg.window
    ensures AcceptedIn(cfg, calls, key, lo, hi) <= Allowed(cfg, OthersIn(calls, key, lo, hi))
  {
    var forgotten := WindowAccount(cfg, calls, key, lo, hi, start);
    TableInvariant(cfg, calls[..hi]);
    ChargedAllowed(cfg, After(cfg, calls[..hi]), key, lo, start,
                   AcceptedIn(cfg, calls, key, lo, hi), OthersIn(calls, key, lo, hi), forgotten);
  }

  /** A call that is not forgotten in between is accepted at most `limit` times. */
  lemma KeptBound(cfg: Config, calls: seq<Call>, key: Key, lo: nat, hi: nat, start: nat)
    requires lo <= hi <= |calls|
    requires forall m :: lo <= m < hi ==> start <= calls[m].now < start + cfg.window
    requires NeverForgotten(cfg, calls, key, lo, hi)
    ensures AcceptedIn(cfg, calls, key, lo, hi) <= cfg.limit
  {
    var forgotten := WindowAccount(cfg, calls, key, lo, hi, start);
    assert forgotten == 0;
    TableInvariant(cfg, calls[..hi]);
    ChargedTotal(cfg, After(cfg, calls[..hi]), key, lo, start,
                 AcceptedIn(cfg, calls, key, lo, hi), OthersIn(calls, key, lo, hi), 0);
  }

  lemma MulMonotone(l: nat, p: nat, q: nat)
    requires p <= q
    ensures l * p + l <= l * (1 + q)
  {
    assert l * (1 + q) == l + l * p + l * (q - p);
  }

  // ------------------------------------- the breaker that forgets nothing

  /** The reference: every accepted timestamp of a call, kept forever. */
  function RefAccepted(cfg: Config, calls: seq<Call>, key: Key): seq<u64> {
    if calls == [] then []
    else
      var before, last := calls[..|calls| - 1], calls[|calls| - 1];
      var kept := RefAccepted(cfg, before, key);
      if last.key == key && |Live(kept, last.now, cfg.window)| < cfg.limit then kept + [last.now] else kept
  }

  function RefVerdict(cfg: Config, calls: seq<Call>, call: Call): Verdict {
    var kept := Live(RefAccepted(cfg, calls, call.key), call.now, cfg.window);
    if |kept| >= cfg.limit then Tripped(AcceptedAgainIn(cfg, kept, call.now)) else Ok
  }

  predicate RefLive(cfg: Config, calls: seq<Call>, key: Key, now: u64) {
    AnyLive(RefAccepted(cfg, calls, key), now, cfg.window)
  }

  function RefLiveKeys(cfg: Config, calls: seq<Call>, now: u64): set<Key> {
    set m | 0 <= m < |calls| && RefLive(cfg, calls, calls[m].key, now) :: calls[m].key
  }

  /** The call is live already, or fewer than `Cap` calls are. */
  predicate Roomy(cfg: Config, calls: seq<Call>, call: Call) {
    RefLive(cfg, calls, call.key, call.now) || |RefLiveKeys(cfg, calls, call.now)| < Cap(cfg)
  }

  ghost predicate Monotone(calls: seq<Call>) {
    forall i, j :: 0 <= i < j < |calls| ==> calls[i].now <= calls[j].now
  }

  ghost predicate SameLive(cfg: Config, t: Table, calls: seq<Call>, key: Key, now: u64) {
    Live(Held(t.calls, key), now, cfg.window) == Live(RefAccepted(cfg, calls, key), now, cfg.window)
  }

  ghost predicate Agrees(cfg: Config, t: Table, calls: seq<Call>, from: u64) {
    forall key: Key, now: u64 :: from <= now ==> SameLive(cfg, t, calls, key, now)
  }

  lemma RefMentions(cfg: Config, calls: seq<Call>, key: Key)
    ensures RefAccepted(cfg, calls, key) != [] ==> exists m :: 0 <= m < |calls| && calls[m].key == key
  {
    if calls != [] {
      RefMentions(cfg, calls[..|calls| - 1], key);
    }
  }

  lemma AgreeingSurvivors(cfg: Config, t: Table, calls: seq<Call>, from: u64, now: u64)
    requires Agrees(cfg, t, calls, from) && from <= now
    ensures Survivors(cfg, t.calls, now).Keys <= RefLiveKeys(cfg, calls, now)
  {
    forall k | k in Survivors(cfg, t.calls, now)
      ensures k in RefLiveKeys(cfg, calls, now)
    {
      assert SameLive(cfg, t, calls, k, now);
      LiveEmpty(Held(t.calls, k), now, cfg.window);
      LiveEmpty(RefAccepted(cfg, calls, k), now, cfg.window);
      RefMentions(cfg, calls, k);
    }
  }

  /** Making room drops only calls with nothing left in the window. */
  lemma RoomyRoom(cfg: Config, t: Table, calls: seq<Call>, from: u64, call: Call, key: Key, later: u64)
    requires Bounded(cfg, t) && Agrees(cfg, t, calls, from) && from <= call.now <= later
    requires Roomy(cfg, calls, call)
    ensures Live(Held(Room(cfg, t, call.key, call.now), key), later, cfg.window) ==
            Live(Held(t.calls, key), later, cfg.window)
  {
    if call.key !in t.calls && |t.calls| >= Cap(cfg) {
      assert SameLive(cfg, t, calls, call.key, call.now);
      LiveEmpty(RefAccepted(cfg, calls, call.key), call.now, cfg.window);
      AgreeingSurvivors(cfg, t, calls, from, call.now);
      var live := Survivors(cfg, t.calls, call.now);
      SubsetSize(live.Keys, RefLiveKeys(cfg, calls, call.now));
      if key in t.calls && key !in live {
        LiveEmpty(t.calls[key].accepted, call.now, cfg.window);
        LiveTwice(t.calls[key].accepted, call.now, later, cfg.window);
      }
    }
  }

  lemma AgreeingVerdict(cfg: Config, t: Table, calls: seq<Call>, from: u64, call: Call)
    requires Bounded(cfg, t) && Agrees(cfg, t, calls, from) && from <= call.now
    requires Roomy(cfg, calls, call)
    ensures Step(cfg, t, call.key, call.now).1 == RefVerdict(cfg, calls, call)
  {
    RoomyRoom(cfg, t, calls, from, call, call.key, call.now);
    assert SameLive(cfg, t, calls, call.key, call.now);
  }

  lemma AgreementKept(cfg: Config, t: Table, calls: seq<Call>, from: u64, call: Call, key: Key, later: u64)
    requires Bounded(cfg, t) && Agrees(cfg, t, calls, from) && from <= call.now <= later
    requires Roomy(cfg, calls, call)
    ensures SameLive(cfg, Step(cfg, t, call.key, call.now).0, calls + [call], key, later)
  {
    var next := calls + [call];
    assert next[..|next| - 1] == calls;
    RoomyRoom(cfg, t, calls, from, call, key, later);
    assert SameLive(cfg, t, calls, key, later);
    if key == call.key {
      RoomyRoom(cfg, t, calls, from, call, key, call.now);
      assert SameLive(cfg, t, calls, key, call.now);
      var held := Held(Room(cfg, t, key, call.now), key);
      LiveTwice(held, call.now, later, cfg.window);
      LiveAppend(Live(held, call.now, cfg.window), [call.now], later, cfg.window);
      LiveAppend(RefAccepted(cfg, calls, key), [call.now], later, cfg.window);
    }
  }

  lemma AgreesStep(cfg: Config, t: Table, calls: seq<Call>, from: u64, call: Call, until: u64)
    requires Bounded(cfg, t) && Agrees(cfg, t, calls, from) && from <= call.now <= until
    requires Roomy(cfg, calls, call)
    ensures Agrees(cfg, Step(cfg, t, call.key, call.now).0, calls + [call], until)
  {
    forall key: Key, now: u64 | until <= now
      ensures SameLive(cfg, Step(cfg, t, call.key, call.now).0, calls + [call], key, now)
    {
      AgreementKept(cfg, t, calls, from, call, key, now);
    }
  }

  ghost predicate AllRoomy(cfg: Config, calls: seq<Call>) {
    forall i :: 0 <= i < |calls| ==> Roomy(cfg, calls[..i], calls[i])
  }

  lemma AllRoomyPrefix(cfg: Config, calls: seq<Call>, n: nat)
    requires AllRoomy(cfg, calls) && n <= |calls|
    ensures AllRoomy(cfg, calls[..n])
  {
    forall i | 0 <= i < n
      ensures Roomy(cfg, calls[..n][..i], calls[..n][i])
    {
      assert calls[..n][..i] == calls[..i];
    }
  }

  lemma EmptyAgrees(cfg: Config, from: u64)
    ensures Agrees(cfg, Empty, [], from)
  {
    forall key: Key, now: u64 | from <= now
      ensures SameLive(cfg, Empty, [], key, now)
    {
    }
  }

  lemma {:induction false} RunAgrees(cfg: Config, calls: seq<Call>, from: u64)
    requires Monotone(calls) && (forall i :: 0 <= i < |calls| ==> calls[i].now <= from)
    requires AllRoomy(cfg, calls)
    ensures Agrees(cfg, After(cfg, calls), calls, from)
  {
    if calls == [] {
      EmptyAgrees(cfg, from);
    } else {
      var before, last := calls[..|calls| - 1], calls[|calls| - 1];
      AllRoomyPrefix(cfg, calls, |calls| - 1);
      RunAgrees(cfg, before, last.now);
      RunAgreesSnoc(cfg, before, last, from);
      assert calls == before + [last];
    }
  }

  lemma RunAgreesSnoc(cfg: Config, before: seq<Call>, last: Call, from: u64)
    requires Agrees(cfg, After(cfg, before), before, last.now) && Roomy(cfg, before, last) && last.now <= from
    ensures Agrees(cfg, After(cfg, before + [last]), before + [last], from)
  {
    TableInvariant(cfg, before);
    AgreesStep(cfg, After(cfg, before), before, last.now, last, from);
    AfterSnoc(cfg, before, last);
  }

  lemma AfterSnoc(cfg: Config, before: seq<Call>, last: Call)
    ensures After(cfg, before + [last]) == Step(cfg, After(cfg, before), last.key, last.now).0
  {
    assert (before + [last])[..|before|] == before;
  }

  /** With a clock that does not go back, and room for every new call, the
      bounded breaker gives exactly the verdicts, announced delays included,
      of one that keeps every accepted timestamp forever. */
  lemma BoundedMatchesReference(cfg: Config, calls: seq<Call>)
    requires Monotone(calls) && AllRoomy(cfg, calls)
    ensures forall i :: 0 <= i < |calls| ==> VerdictAt(cfg, calls, i) == RefVerdict(cfg, calls[..i], calls[i])
  {
    forall i | 0 <= i < |calls|
      ensures VerdictAt(cfg, calls, i) == RefVerdict(cfg, calls[..i], calls[i])
    {
      AllRoomyPrefix(cfg, calls, i);
      RunAgrees(cfg, calls[..i], calls[i].now);
      TableInvariant(cfg, calls[..i]);
      AgreeingVerdict(cfg, After(cfg, calls[..i]), calls[..i], calls[i].now, calls[i]);
    }
  }

  // -------------------------------------------------- what a trip announces

  ghost predicate Ascending(times: seq<u64>) {
    forall i, j :: 0 <= i < j < |times| ==> times[i] <= times[j]
  }

  /** The call is tracked before, between and after these later calls. */
  ghost predicate Kept(cfg: Config, t: Table, key: Key, later: seq<Call>) {
    forall p :: 0 <= p <= |later| ==> key in AfterFrom(cfg, t, later[..p]).calls
  }

  lemma LiveWhole(times: seq<u64>, now: u64, window: u64)
    requires Ascending(times) && times != [] && IsLive(times[0], now, window)
    ensures Live(times, now, window) == times
  {
    LiveAll(times, now, window);
  }

  lemma LiveIsSuffix(times: seq<u64>, now: u64, window: u64) returns (from: nat)
    requires Ascending(times)
    ensures from <= |times| && Live(times, now, window) == times[from..]
    ensures times != [] && !IsLive(times[0], now, window) ==> from > 0
  {
    if times == [] {
      from := 0;
    } else if IsLive(times[0], now, window) {
      LiveWhole(times, now, window);
      from := 0;
    } else {
      from := LiveIsSuffix(times[1..], now, window);
      from := from + 1;
    }
  }

  ghost predicate Chronicle(times: seq<u64>, now: u64) {
    Ascending(times) && forall i :: 0 <= i < |times| ==> times[i] <= now
  }

  /** In every run whose clock does not go back, each call's timestamps are
      held oldest first, none later than the last call. */
  lemma {:induction false} TimestampsAscend(cfg: Config, calls: seq<Call>, key: Key, now: u64)
    requires Monotone(calls) && (forall i :: 0 <= i < |calls| ==> calls[i].now <= now)
    ensures Chronicle(Held(After(cfg, calls).calls, key), now)
  {
    if calls != [] {
      var before, last := calls[..|calls| - 1], calls[|calls| - 1];
      TimestampsAscend(cfg, before, key, last.now);
      TableInvariant(cfg, before);
      StepKeepsChronicle(cfg, After(cfg, before), last, key);
      ChronicleLater(Held(After(cfg, calls).calls, key), last.now, now);
    }
  }

  lemma ChronicleLater(times: seq<u64>, now: u64, later: u64)
    requires Chronicle(times, now) && now <= later
    ensures Chronicle(times, later)
  {
  }

  lemma StepKeepsChronicle(cfg: Config, t: Table, call: Call, key: Key)
    requires Bounded(cfg, t) && Chronicle(Held(t.calls, key), call.now)
    ensures Chronicle(Held(Step(cfg, t, call.key, call.now).0.calls, key), call.now)
  {
    RoomFits(cfg, t, call.key, call.now);
    var held := Held(Room(cfg, t, call.key, call.now), key);
    LiveKeepsChronicle(held, call.now, cfg.window);
  }

  lemma LiveKeepsChronicle(held: seq<u64>, now: u64, window: u64)
    requires Chronicle(held, now)
    ensures Chronicle(Live(held, now, window), now)
    ensures Chronicle(Live(held, now, window) + [now], now)
  {
    var from := LiveIsSuffix(held, now, window);
  }

  /** A tracked call whose remembered timestamps fill the window. */
  ghost predicate Full(cfg: Config, t: Table, key: Key, kept: seq<u64>) {
    && Bounded(cfg, t)
    && key in t.calls && t.calls[key].accepted == kept
    && |kept| >= cfg.limit > 0 && Ascending(kept)
  }

  lemma FullStep(cfg: Config, t: Table, key: Key, kept: seq<u64>, call: Call)
    requires Full(cfg, t, key, kept) && IsLive(kept[0], call.now, cfg.window)
    requires key in Step(cfg, t, call.key, call.now).0.calls
    ensures Full(cfg, Step(cfg, t, call.key, call.now).0, key, kept)
    ensures call.key == key ==> Step(cfg, t, key, call.now).1 == Tripped(AcceptedAgainIn(cfg, kept, call.now))
  {
    RoomFits(cfg, t, call.key, call.now);
    StepKeepsBounded(cfg, t, call.key, call.now);
    LiveWhole(kept, call.now, cfg.window);
  }

  /** A tripped call keeps tripping while its oldest timestamp is live, and
      what is remembered of it does not change. */
  lemma {:induction false} TrippedStays(cfg: Config, t: Table, key: Key, kept: seq<u64>, later: seq<Call>)
    requires Full(cfg, t, key, kept) && Kept(cfg, t, key, later)
    requires forall i :: 0 <= i < |later| ==> IsLive(kept[0], later[i].now, cfg.window)
    ensures Full(cfg, AfterFrom(cfg, t, later), key, kept)
  {
    if later != [] {
      var n := |later| - 1;
      KeptPrefix(cfg, t, key, later, n);
      TrippedStays(cfg, t, key, kept, later[..n]);
      FullStep(cfg, AfterFrom(cfg, t, later[..n]), key, kept, later[n]);
    }
  }

  lemma KeptPrefix(cfg: Config, t: Table, key: Key, later: seq<Call>, n: nat)
    requires Kept(cfg, t, key, later) && n <= |later|
    ensures Kept(cfg, t, key, later[..n])
    ensures key in AfterFrom(cfg, t, later[..n]).calls && key in AfterFrom(cfg, t, later).calls
  {
    assert forall p :: 0 <= p <= n ==> later[..n][..p] == later[..p];
    assert later[..|later|] == later;
  }

  lemma TrippedAgain(cfg: Config, t: Table, key: Key, kept: seq<u64>, later: seq<Call>, i: nat)
    requires Full(cfg, t, key, kept) && Kept(cfg, t, key, later)
    requires forall j :: 0 <= j < |later| ==> IsLive(kept[0], later[j].now, cfg.window)
    requires i < |later| && later[i].key == key
    ensures VerdictFrom(cfg, t, later, i) == Tripped(AcceptedAgainIn(cfg, kept, later[i].now))
  {
    KeptPrefix(cfg, t, key, later, i);
    KeptPrefix(cfg, t, key, later, i + 1);
    TrippedStays(cfg, t, key, kept, later[..i]);
    assert later[..i + 1][..i] == later[..i];
    FullStep(cfg, AfterFrom(cfg, t, later[..i]), key, kept, later[i]);
  }

  lemma TripFills(cfg: Config, t: Table, key: Key, now: u64) returns (kept: seq<u64>)
    requires Bounded(cfg, t) && Chronicle(Held(t.calls, key), now) && cfg.limit > 0
    requires Step(cfg, t, key, now).1.Tripped?
    ensures Full(cfg, Step(cfg, t, key, now).0, key, kept)
    ensures Chronicle(kept, now) && IsLive(kept[0], now, cfg.window)
    ensures Step(cfg, t, key, now).1 == Tripped(AcceptedAgainIn(cfg, kept, now))
  {
    RoomFits(cfg, t, key, now);
    StepKeepsBounded(cfg, t, key, now);
    var held := Held(Room(cfg, t, key, now), key);
    kept := Live(held, now, cfg.window);
    var from := LiveIsSuffix(held, now, cfg.window);
    assert kept[0] == held[from];
    var again := LiveIsSuffix(held[from..], now, cfg.window);
    LiveTwice(held, now, now, cfg.window);
    LiveEmpty(kept, now, cfg.window);
  }

  /** The verdict on a full call depends on its oldest timestamp alone. */
  lemma FullVerdict(cfg: Config, t: Table, key: Key, kept: seq<u64>, now: u64)
    requires Full(cfg, t, key, kept)
    ensures Step(cfg, t, key, now).1.Ok? <==> !IsLive(kept[0], now, cfg.window)
  {
    if IsLive(kept[0], now, cfg.window) {
      LiveWhole(kept, now, cfg.window);
    } else {
      var from := LiveIsSuffix(kept, now, cfg.window);
    }
  }

  lemma DelayCountsDown(cfg: Config, kept: seq<u64>, now: u64, later: u64)
    requires kept != [] && kept[0] <= now <= later < kept[0] + cfg.window < U64_SIZE
    ensures AcceptedAgainIn(cfg, kept, later) == kept[0] + cfg.window - later
  {
  }

  lemma FullUntilDue(cfg: Config, t: Table, key: Key, kept: seq<u64>, now: u64, due: u64, later: seq<Call>)
    requires Full(cfg, t, key, kept) && Kept(cfg, t, key, later)
    requires kept[0] <= now && due == kept[0] + cfg.window
    requires forall i :: 0 <= i < |later| ==> now <= later[i].now < due
    ensures forall i :: 0 <= i < |later| && later[i].key == key ==>
                          VerdictFrom(cfg, t, later, i) == Tripped(due - later[i].now)
    ensures Step(cfg, AfterFrom(cfg, t, later), key, due).1.Ok?
  {
    TrippedStays(cfg, t, key, kept, later);
    forall i | 0 <= i < |later| && later[i].key == key
      ensures VerdictFrom(cfg, t, later, i) == Tripped(due - later[i].now)
    {
      TrippedAgain(cfg, t, key, kept, later, i);
      DelayCountsDown(cfg, kept, now, later[i].now);
    }
    FullVerdict(cfg, AfterFrom(cfg, t, later), key, kept, due);
  }

  /** A trip's announced delay is exact for a call that stays tracked. Until
      that instant the call keeps tripping, however often it is retried, and
      every trip announces that same instant; at that instant it is accepted. */
  lemma AnnouncedDelayIsExact(cfg: Config, t: Table, key: Key, now: u64, due: u64, later: seq<Call>)
    requires Bounded(cfg, t) && Chronicle(Held(t.calls, key), now)
    requires Step(cfg, t, key, now).1.Tripped? && due == now + Step(cfg, t, key, now).1.again
    requires cfg.limit > 0 && now + cfg.window < U64_SIZE
    requires forall i :: 0 <= i < |later| ==> now <= later[i].now < due
    requires Kept(cfg, Step(cfg, t, key, now).0, key, later)
    ensures forall i :: 0 <= i < |later| && later[i].key == key ==>
                          VerdictFrom(cfg, Step(cfg, t, key, now).0, later, i) == Tripped(due - later[i].now)
    ensures Step(cfg, AfterFrom(cfg, Step(cfg, t, key, now).0, later), key, due).1.Ok?
  {
    var kept := TripFills(cfg, t, key, now);
    DelayCountsDown(cfg, kept, now, now);
    FullUntilDue(cfg, Step(cfg, t, key, now).0, key, kept, now, due, later);
  }

  /** Exactly when the announced instant is honoured: some call is accepted at
      all, and the 64-bit sum of the oldest timestamp and the window does not
      wrap. Both can be read off before the call is retried. */
  lemma AnnouncedDelayHonoured(cfg: Config, t: Table, key: Key, now: u64, due: u64)
    requires Bounded(cfg, t) && Chronicle(Held(t.calls, key), now)
    requires Step(cfg, t, key, now).1.Tripped? && due == now + Step(cfg, t, key, now).1.again
    ensures Step(cfg, Step(cfg, t, key, now).0, key, due).1.Ok? <==>
            cfg.limit > 0 && Live(Held(t.calls, key), now, cfg.window) != [] &&
            Live(Held(t.calls, key), now, cfg.window)[0] + cfg.window < U64_SIZE
  {
    if cfg.limit > 0 {
      var kept := TripFills(cfg, t, key, now);
      RoomFits(cfg, t, key, now);
      assert kept == Live(Held(t.calls, key), now, cfg.window);
      FullVerdict(cfg, Step(cfg, t, key, now).0, key, kept, due);
    }
  }

  // ------------------------------------------------------ a clock that goes back

  lemma LiveEarlier(times: seq<u64>, now: u64, earlier: u64, window: u64)
    requires earlier <= now
    ensures |Live(times, now, window)| <= |Live(times, earlier, window)|
  {
  }

  lemma HeldInRoom(cfg: Config, t: Table, key: Key, now: u64)
    ensures Held(Room(cfg, t, key, now), key) == Held(t.calls, key)
  {
  }

  /** A clock that reads earlier never releases a call: whatever trips at one
      reading trips at every earlier one. */
  lemma EarlierClockTrips(cfg: Config, t: Table, key: Key, now: u64, earlier: u64)
    requires earlier <= now && Step(cfg, t, key, now).1.Tripped?
    ensures Step(cfg, t, key, earlier).1.Tripped?
  {
    HeldInRoom(cfg, t, key, now);
    HeldInRoom(cfg, t, key, earlier);
    LiveEarlier(Held(t.calls, key), now, earlier, cfg.window);
  }

  // ------------------------------------------- announced, and not honoured

  /** With a limit of zero every call trips, each announcing a whole window. */
  lemma ZeroLimitAlwaysTrips(cfg: Config, calls: seq<Call>, i: nat)
    requires cfg.limit == 0 && i < |calls|
    ensures VerdictAt(cfg, calls, i) == Tripped(if cfg.window < 1 then 1 else cfg.window)
  {
    TableInvariant(cfg, calls[..i]);
    var t := After(cfg, calls[..i]);
    var room := Room(cfg, t, calls[i].key, calls[i].now);
    RoomFits(cfg, t, calls[i].key, calls[i].now);
    LiveShorter(Held(room, calls[i].key), calls[i].now, cfg.window);
  }

  /** One call a window, and a clock five seconds before it wraps. */
  const LateConfig: Config := Config(1, 10, 1)

  const Late: u64 := U64_SIZE - 5

  const LateCalls: seq<Call> := [Call(0, Late), Call(0, Late), Call(0, Late + 1)]

  lemma FirstCall(cfg: Config, key: Key, now: u64)
    requires cfg.limit > 0
    ensures Step(cfg, Empty, key, now) == (Table(map[key := Recent([now], 1)], 1), Ok)
  {
    var room := Room(cfg, Empty, key, now);
    assert room == map[];
    LiveShorter(Held(room, key), now, cfg.window);
    assert [] + [now] == [now];
  }

  lemma LateAgain(touches: nat, now: u64)
    requires now == Late || now == Late + 1
    ensures Step(LateConfig, Table(map[0 := Recent([Late], touches)], touches), 0, now) ==
            (Table(map[0 := Recent([Late], touches + 1)], touches + 1), Tripped(1))
  {
    var t := Table(map[0 := Recent([Late], touches)], touches);
    var room := Room(LateConfig, t, 0, now);
    assert room == t.calls && Held(room, 0) == [Late];
    LiveAll([Late], now, 10);
    assert (Late + 10) % U64_SIZE == 5;
    assert AcceptedAgainIn(LateConfig, [Late], now) == 1;
    assert room[0 := Recent([Late], touches + 1)] == map[0 := Recent([Late], touches + 1)];
  }

  /** The sum of timestamp and window wraps, so the second call is told to come
      back in a second; it does, and trips again. */
  lemma RetryStillTrips()
    ensures VerdictAt(LateConfig, LateCalls, 0) == Ok
    ensures VerdictAt(LateConfig, LateCalls, 1) == Tripped(1)
    ensures LateCalls[2].now == LateCalls[1].now + 1 && VerdictAt(LateConfig, LateCalls, 2) == Tripped(1)
  {
    FirstCall(LateConfig, 0, Late);
    var one := Table(map[0 := Recent([Late], 1)], 1);
    LateAgain(1, Late);
    var two := Table(map[0 := Recent([Late], 2)], 2);
    LateAgain(2, Late + 1);
    assert LateCalls[..0] == [] && LateCalls[..1][..0] == [] && LateCalls[..2][..1] == LateCalls[..1];
    assert After(LateConfig, LateCalls[..0]) == Empty;
    assert After(LateConfig, LateCalls[..1]) == one;
    assert After(LateConfig, LateCalls[..2]) == two;
  }
}
