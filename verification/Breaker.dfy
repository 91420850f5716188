/** The identical-call loop breaker of the MCP proxy: a sliding window per call,
    a cap on tracked calls, and least-recently-seen eviction.

    A call is known by the 64-bit hash of its signature, taken to be injective. */
module LoopBreaker {
  import opened Options

  const U64_SIZE: nat := 0x1_0000_0000_0000_0000

  type u64 = x: nat | x < U64_SIZE

  /** The 64-bit hash a call is remembered by. */
  type Key = u64

  datatype Config = Config(limit: nat, window: u64, tracked: nat)

  datatype Recent = Recent(accepted: seq<u64>, lastTouch: nat)

  datatype Table = Table(calls: map<Key, Recent>, touches: nat)

  datatype Verdict = Ok | Tripped(again: nat)

  datatype Call = Call(key: Key, now: u64)

  // ---------------------------------------------------------------- one call

  function Cap(cfg: Config): nat {
    if cfg.tracked < 1 then 1 else cfg.tracked
  }

  /** The subtraction saturates, so a clock that went back keeps a call live. */
  predicate IsLive(at: u64, now: u64, window: u64) {
    (if now < at then 0 else now - at) < window
  }

  function Live(times: seq<u64>, now: u64, window: u64): seq<u64> {
    if times == [] then []
    else (if IsLive(times[0], now, window) then [times[0]] else []) + Live(times[1..], now, window)
  }

  predicate AnyLive(times: seq<u64>, now: u64, window: u64) {
    exists i :: 0 <= i < |times| && IsLive(times[i], now, window)
  }

  function Survivors(cfg: Config, calls: map<Key, Recent>, now: u64): map<Key, Recent> {
    map k | k in calls && AnyLive(calls[k].accepted, now, cfg.window) :: calls[k]
  }

  /** Everything but the least recently seen. */
  ghost function WithoutLeast(calls: map<Key, Recent>): map<Key, Recent> {
    map k | k in calls && exists j :: j in calls && calls[j].lastTouch < calls[k].lastTouch :: calls[k]
  }

  ghost function RoomMade(cfg: Config, calls: map<Key, Recent>, now: u64): map<Key, Recent> {
    if |calls| < Cap(cfg) then calls
    else
      var live := Survivors(cfg, calls, now);
      if |live| < Cap(cfg) then live else WithoutLeast(live)
  }

  /** The delay a trip announces. `oldest + window` is 64-bit addition. */
  function AcceptedAgainIn(cfg: Config, kept: seq<u64>, now: u64): nat {
    var wait :=
      if kept == [] then cfg.window
      else
        var free := (kept[0] + cfg.window) % U64_SIZE;
        if free < now then 0 else free - now;
    if wait < 1 then 1 else wait
  }

  ghost function Room(cfg: Config, t: Table, key: Key, now: u64): map<Key, Recent> {
    if key in t.calls then t.calls else RoomMade(cfg, t.calls, now)
  }

  function Held(calls: map<Key, Recent>, key: Key): seq<u64> {
    if key in calls then calls[key].accepted else []
  }

  ghost function Step(cfg: Config, t: Table, key: Key, now: u64): (r: (Table, Verdict)) {
    var room := Room(cfg, t, key, now);
    var kept := Live(Held(room, key), now, cfg.window);
    if |kept| >= cfg.limit then
      (Table(room[key := Recent(kept, t.touches + 1)], t.touches + 1), Tripped(AcceptedAgainIn(cfg, kept, now)))
    else
      (Table(room[key := Recent(kept + [now], t.touches + 1)], t.touches + 1), Ok)
  }

  // -------------------------------------------------------------- whole runs

  const Empty: Table := Table(map[], 0)

  ghost function AfterFrom(cfg: Config, t: Table, calls: seq<Call>): Table {
    if calls == [] then t
    else
      var last := calls[|calls| - 1];
      Step(cfg, AfterFrom(cfg, t, calls[..|calls| - 1]), last.key, last.now).0
  }

  ghost function After(cfg: Config, calls: seq<Call>): Table {
    AfterFrom(cfg, Empty, calls)
  }

  ghost function VerdictFrom(cfg: Config, t: Table, calls: seq<Call>, i: nat): Verdict
    requires i < |calls|
  {
    Step(cfg, AfterFrom(cfg, t, calls[..i]), calls[i].key, calls[i].now).1
  }

  ghost function VerdictAt(cfg: Config, calls: seq<Call>, i: nat): Verdict
    requires i < |calls|
  {
    VerdictFrom(cfg, Empty, calls, i)
  }

  ghost predicate Distinct(calls: map<Key, Recent>) {
    forall j, k :: j in calls && k in calls && j != k ==> calls[j].lastTouch != calls[k].lastTouch
  }

  ghost predicate Bounded(cfg: Config, t: Table) {
    && |t.calls| <= Cap(cfg)
    && Distinct(t.calls)
    && (forall k :: k in t.calls ==> |t.calls[k].accepted| <= cfg.limit)
    && (forall k :: k in t.calls ==> 1 <= t.calls[k].lastTouch <= t.touches)
  }

  // --------------------------------------------------------- the live filter

  lemma LiveShorter(times: seq<u64>, now: u64, window: u64)
    ensures |Live(times, now, window)| <= |times|
  {
  }

  lemma {:induction false} LiveAppend(a: seq<u64>, b: seq<u64>, now: u64, window: u64)
    ensures Live(a + b, now, window) == Live(a, now, window) + Live(b, now, window)
  {
    if a == [] {
      assert a + b == b;
    } else {
      var head := if IsLive(a[0], now, window) then [a[0]] else [];
      calc {
        Live(a + b, now, window);
        { assert (a + b)[0] == a[0] && (a + b)[1..] == a[1..] + b; }
        head + Live(a[1..] + b, now, window);
        { LiveAppend(a[1..], b, now, window); }
        head + (Live(a[1..], now, window) + Live(b, now, window));
        (head + Live(a[1..], now, window)) + Live(b, now, window);
        Live(a, now, window) + Live(b, now, window);
      }
    }
  }

  lemma {:induction false} LiveEmpty(times: seq<u64>, now: u64, window: u64)
    ensures Live(times, now, window) == [] <==> !AnyLive(times, now, window)
  {
    if times != [] {
      LiveEmpty(times[1..], now, window);
      if AnyLive(times, now, window) {
        var i :| 0 <= i < |times| && IsLive(times[i], now, window);
        if i > 0 { assert times[1..][i - 1] == times[i]; }
      }
      if AnyLive(times[1..], now, window) {
        var i :| 0 <= i < |times[1..]| && IsLive(times[1..][i], now, window);
        assert times[i + 1] == times[1..][i];
      }
    }
  }

  lemma LiveAll(times: seq<u64>, now: u64, window: u64)
    requires forall i :: 0 <= i < |times| ==> IsLive(times[i], now, window)
    ensures Live(times, now, window) == times
  {
  }

  /** Filtering at an earlier instant first changes nothing: with a clock that
      does not go back, what expired stays expired. */
  lemma {:induction false} LiveTwice(times: seq<u64>, earlier: u64, now: u64, window: u64)
    requires earlier <= now
    ensures Live(Live(times, earlier, window), now, window) == Live(times, now, window)
  {
    if times != [] {
      LiveTwice(times[1..], earlier, now, window);
      var head := if IsLive(times[0], earlier, window) then [times[0]] else [];
      LiveAppend(head, Live(times[1..], earlier, window), now, window);
    }
  }

  // ---------------------------------------------------- table-wide invariant

  lemma WithoutLeastDropsOne(calls: map<Key, Recent>) returns (least: Key)
    requires |calls| > 0 && Distinct(calls)
    ensures least in calls && WithoutLeast(calls) == calls - {least}
    ensures forall j :: j in calls && j != least ==> calls[least].lastTouch < calls[j].lastTouch
  {
    least := LeastKey(calls, calls.Keys);
    assert forall j :: j in calls && j != least ==> calls[least].lastTouch < calls[j].lastTouch;
  }

  lemma LeastKey(calls: map<Key, Recent>, keys: set<Key>) returns (least: Key)
    requires keys != {} && keys <= calls.Keys
    ensures least in keys && forall j :: j in keys ==> calls[least].lastTouch <= calls[j].lastTouch
    decreases keys
  {
    var k :| k in keys;
    if keys == {k} {
      least := k;
    } else {
      var rest := LeastKey(calls, keys - {k});
      least := if calls[k].lastTouch < calls[rest].lastTouch then k else rest;
    }
  }

  lemma SubmapSize(a: map<Key, Recent>, b: map<Key, Recent>)
    requires a.Keys <= b.Keys
    ensures |a| <= |b|
  {
    SubsetSize(a.Keys, b.Keys);
  }

  lemma SubsetSize<T>(a: set<T>, b: set<T>)
    requires a <= b
    ensures |a| <= |b|
  {
    if a != {} {
      var x :| x in a;
      SubsetSize(a - {x}, b - {x});
    }
  }

  lemma RoomFits(cfg: Config, t: Table, key: Key, now: u64)
    requires Bounded(cfg, t)
    ensures Room(cfg, t, key, now).Keys <= t.calls.Keys
    ensures forall k :: k in Room(cfg, t, key, now) ==> Room(cfg, t, key, now)[k] == t.calls[k]
    ensures key !in t.calls ==> |Room(cfg, t, key, now)| < Cap(cfg)
  {
    if key !in t.calls && |t.calls| >= Cap(cfg) {
      var live := Survivors(cfg, t.calls, now);
      SubmapSize(live, t.calls);
      if |live| >= Cap(cfg) {
        var least := WithoutLeastDropsOne(live);
        assert (live - {least}).Keys == live.Keys - {least};
      }
    }
  }

  lemma SubtableBounded(cfg: Config, t: Table, room: map<Key, Recent>)
    requires Bounded(cfg, t)
    requires room.Keys <= t.calls.Keys && forall k :: k in room ==> room[k] == t.calls[k]
    ensures Bounded(cfg, Table(room, t.touches))
  {
    SubmapSize(room, t.calls);
  }

  lemma StepKeepsBounded(cfg: Config, t: Table, key: Key, now: u64)
    requires Bounded(cfg, t)
    ensures Bounded(cfg, Step(cfg, t, key, now).0)
  {
    RoomFits(cfg, t, key, now);
    var room := Room(cfg, t, key, now);
    SubtableBounded(cfg, t, room);
    var kept := Live(Held(room, key), now, cfg.window);
    LiveShorter(Held(room, key), now, cfg.window);
    var accepted := if |kept| >= cfg.limit then kept else kept + [now];
    TouchKeepsBounded(cfg, room, t.touches, key, accepted);
    assert Step(cfg, t, key, now).0 == Table(room[key := Recent(accepted, t.touches + 1)], t.touches + 1);
  }

  lemma TouchKeepsBounded(cfg: Config, room: map<Key, Recent>, touches: nat, key: Key, accepted: seq<u64>)
    requires Bounded(cfg, Table(room, touches))
    requires key !in room ==> |room| < Cap(cfg)
    requires |accepted| <= cfg.limit
    ensures Bounded(cfg, Table(room[key := Recent(accepted, touches + 1)], touches + 1))
  {
    var after := room[key := Recent(accepted, touches + 1)];
    assert after.Keys == room.Keys + {key};
    if key in room {
      assert after.Keys == room.Keys;
    } else {
      assert |after.Keys| == |room.Keys| + 1;
    }
  }

  /** The touch of a tracked call is the position of its last occurrence. */
  ghost predicate LastSeen(calls: seq<Call>, key: Key, touch: nat) {
    && 1 <= touch <= |calls|
    && calls[touch - 1].key == key
    && forall m :: touch <= m < |calls| ==> calls[m].key != key
  }

  lemma LastSeenAppend(calls: seq<Call>, key: Key, touch: nat, call: Call)
    ensures call.key != key && LastSeen(calls, key, touch) ==> LastSeen(calls + [call], key, touch)
    ensures LastSeen(calls + [call], call.key, |calls| + 1)
  {
  }

  ghost predicate Traced(cfg: Config, t: Table, calls: seq<Call>) {
    && Bounded(cfg, t)
    && t.touches == |calls|
    && forall k :: k in t.calls ==> LastSeen(calls, k, t.calls[k].lastTouch)
  }

  lemma StepKeepsTraced(cfg: Config, t: Table, calls: seq<Call>, call: Call)
    requires Traced(cfg, t, calls)
    ensures Traced(cfg, Step(cfg, t, call.key, call.now).0, calls + [call])
  {
    StepKeepsBounded(cfg, t, call.key, call.now);
    RoomFits(cfg, t, call.key, call.now);
    TouchKeepsLastSeen(t, Room(cfg, t, call.key, call.now), calls, call, Step(cfg, t, call.key, call.now).0);
  }

  lemma TouchKeepsLastSeen(t: Table, room: map<Key, Recent>, calls: seq<Call>, call: Call, after: Table)
    requires forall k :: k in t.calls ==> LastSeen(calls, k, t.calls[k].lastTouch)
    requires room.Keys <= t.calls.Keys && forall k :: k in room ==> room[k] == t.calls[k]
    requires call.key in after.calls && after.calls == room[call.key := after.calls[call.key]]
    requires after.calls[call.key].lastTouch == |calls| + 1
    ensures forall k :: k in after.calls ==> LastSeen(calls + [call], k, after.calls[k].lastTouch)
  {
    forall k | k in after.calls
      ensures LastSeen(calls + [call], k, after.calls[k].lastTouch)
    {
      LastSeenAppend(calls, k, after.calls[k].lastTouch, call);
    }
  }

  /** Over every run, whatever the clock does: at most as many calls tracked as
      configured, or one if that is none; at most `limit` timestamps each,
      pairwise distinct touch numbers, and the touch of a call is the position of
      its last occurrence in the run. */
  lemma {:induction false} TableInvariant(cfg: Config, calls: seq<Call>)
    ensures Traced(cfg, After(cfg, calls), calls)
    ensures |After(cfg, calls).calls| <= (if cfg.tracked == 0 then 1 else cfg.tracked)
  {
    if calls != [] {
      var before, last := calls[..|calls| - 1], calls[|calls| - 1];
      TableInvariant(cfg, before);
      StepKeepsTraced(cfg, After(cfg, before), before, last);
      assert calls == before + [last];
    }
  }

  // --------------------------------------------------- what an eviction costs

  /** Distinct touches in `(lo, hi]` leave room for `hi - lo` calls. */
  lemma TouchesFit(calls: map<Key, Recent>, keys: set<Key>, lo: nat, hi: nat)
    requires lo <= hi && keys <= calls.Keys
    requires forall j, k :: j in keys && k in keys && j != k ==> calls[j].lastTouch != calls[k].lastTouch
    requires forall k :: k in keys ==> lo < calls[k].lastTouch <= hi
    ensures |keys| <= hi - lo
    decreases hi - lo
  {
    if lo < hi {
      if k :| k in keys && calls[k].lastTouch == hi {
        TouchesFit(calls, keys - {k}, lo, hi - 1);
        assert |keys| == |keys - {k}| + 1;
      } else {
        TouchesFit(calls, keys, lo, hi - 1);
      }
    } else {
      assert forall k :: k !in keys;
      assert keys == {};
    }
  }

  /** The call that making room forgets although it is still live. */
  lemma Victim(cfg: Config, t: Table, key: Key, now: u64, gone: Key)
    requires Bounded(cfg, t)
    requires gone in t.calls && AnyLive(t.calls[gone].accepted, now, cfg.window)
    requires gone !in Room(cfg, t, key, now)
    ensures key !in t.calls
    ensures |Survivors(cfg, t.calls, now)| >= Cap(cfg) && gone in Survivors(cfg, t.calls, now)
    ensures forall j :: j in Survivors(cfg, t.calls, now) && j != gone ==>
            t.calls[gone].lastTouch < t.calls[j].lastTouch
  {
    var live := Survivors(cfg, t.calls, now);
    SubmapSize(live, t.calls);
    assert gone in live;
    var least := WithoutLeastDropsOne(live);
    assert gone == least;
  }

  /** When making room forgets a call that is still live, at least `Cap - 1`
      other tracked calls were seen after it. */
  lemma EvictionCost(cfg: Config, t: Table, key: Key, now: u64, gone: Key)
    requires Bounded(cfg, t)
    requires gone in t.calls && AnyLive(t.calls[gone].accepted, now, cfg.window)
    requires gone !in Room(cfg, t, key, now)
    ensures Cap(cfg) - 1 <= t.touches - t.calls[gone].lastTouch
  {
    Victim(cfg, t, key, now, gone);
    var live := Survivors(cfg, t.calls, now);
    assert |live.Keys - {gone}| == |live| - 1;
    TouchesFit(t.calls, live.Keys - {gone}, t.calls[gone].lastTouch, t.touches);
  }

  ghost function KeysIn(calls: seq<Call>, lo: nat, hi: nat): set<Key>
    requires lo <= hi <= |calls|
  {
    set m | lo <= m < hi :: calls[m].key
  }

  lemma SeenSince(t: Table, calls: seq<Call>, arriving: Call, since: nat, others: set<Key>)
    requires forall k :: k in others ==>
             k in t.calls && LastSeen(calls, k, t.calls[k].lastTouch) && since < t.calls[k].lastTouch
    requires since <= |calls|
    ensures others + {arriving.key} <= KeysIn(calls + [arriving], since, |calls| + 1)
  {
    var all := calls + [arriving];
    assert all[|calls|].key == arriving.key;
    forall k | k in others
      ensures k in KeysIn(all, since, |all|)
    {
      var m := t.calls[k].lastTouch - 1;
      assert all[m].key == k;
    }
  }

  /** Forgetting a live call takes at least as many distinct other calls since it
      was last seen as are tracked, the one that arrives now included. */
  lemma EvictionNeedsDistinctCalls(cfg: Config, t: Table, calls: seq<Call>, arriving: Call, gone: Key)
    requires t == After(cfg, calls)
    requires gone in t.calls && AnyLive(t.calls[gone].accepted, arriving.now, cfg.window)
    requires gone !in Room(cfg, t, arriving.key, arriving.now)
    ensures var since := t.calls[gone].lastTouch;
            && since <= |calls|
            && gone !in KeysIn(calls + [arriving], since, |calls| + 1)
            && |KeysIn(calls + [arriving], since, |calls| + 1)| >= (if cfg.tracked == 0 then 1 else cfg.tracked)
  {
    TableInvariant(cfg, calls);
    Victim(cfg, t, arriving.key, arriving.now, gone);
    SeenCount(t, calls, arriving, gone, Survivors(cfg, t.calls, arriving.now).Keys);
  }

  lemma SeenCount(t: Table, calls: seq<Call>, arriving: Call, gone: Key, live: set<Key>)
    requires gone in live && live <= t.calls.Keys && arriving.key !in live
    requires forall k :: k in live ==> LastSeen(calls, k, t.calls[k].lastTouch)
    requires forall k :: k in live && k != gone ==> t.calls[gone].lastTouch < t.calls[k].lastTouch
    ensures var since := t.calls[gone].lastTouch;
            && since <= |calls|
            && gone !in KeysIn(calls + [arriving], since, |calls| + 1)
            && |KeysIn(calls + [arriving], since, |calls| + 1)| >= |live|
  {
    var since := t.calls[gone].lastTouch;
    assert LastSeen(calls, gone, since);
    var others := live - {gone};
    SeenSince(t, calls, arriving, since, others);
    assert |others + {arriving.key}| == |live|;
    SubsetSize(others + {arriving.key}, KeysIn(calls + [arriving], since, |calls| + 1));
  }

  // ----------------------------------------------------- one pass for the room

  /** The pass so far: of the calls it has seen the live ones are left, and
      `least` is the least recently seen of them. */
  ghost predicate Scanned(cfg: Config, was: map<Key, Recent>, calls: map<Key, Recent>, pending: set<Key>,
                          least: Option<(nat, Key)>, now: u64)
  {
    && pending <= calls.Keys <= was.Keys
    && (forall k :: k in calls ==> calls[k] == was[k])
    && (forall k :: k in was && k !in pending ==> (k in calls <==> AnyLive(was[k].accepted, now, cfg.window)))
    && (least.None? ==> calls.Keys == pending)
    && (least.Some? ==>
          && least.value.1 in calls.Keys - pending
          && calls[least.value.1].lastTouch == least.value.0
          && forall k :: k in calls && k !in pending ==> least.value.0 <= calls[k].lastTouch)
  }

  lemma ScanStep(cfg: Config, was: map<Key, Recent>, calls: map<Key, Recent>, pending: set<Key>,
                 least: Option<(nat, Key)>, now: u64, k: Key, calls': map<Key, Recent>, least': Option<(nat, Key)>)
    requires Scanned(cfg, was, calls, pending, least, now) && k in pending
    requires var live := AnyLive(calls[k].accepted, now, cfg.window);
             && calls' == (if live then calls else calls - {k})
             && least' == if live && (least.None? || calls[k].lastTouch < least.value.0)
                          then Some((calls[k].lastTouch, k)) else least
    ensures Scanned(cfg, was, calls', pending - {k}, least', now)
  {
    assert calls'.Keys == if AnyLive(calls[k].accepted, now, cfg.window) then calls.Keys else calls.Keys - {k};
  }

  lemma ScanEnd(cfg: Config, was: map<Key, Recent>, calls: map<Key, Recent>, least: Option<(nat, Key)>, now: u64)
    requires Scanned(cfg, was, calls, {}, least, now)
    ensures calls == Survivors(cfg, was, now)
    ensures least.None? ==> calls == map[]
    ensures least.Some? ==>
              && least.value.1 in calls
              && (forall k :: k in calls ==> calls[least.value.1].lastTouch <= calls[k].lastTouch)
  {
  }

  // ------------------------------------------------------ the object itself

  class Breaker {
    const config: Config
    var calls: map<Key, Recent>
    var touches: nat
    ghost var history: seq<Call>

    ghost predicate Valid()
      reads this
    {
      Contents() == After(config, history)
    }

    ghost function Contents(): Table
      reads this
    {
      Table(calls, touches)
    }

    constructor (config: Config)
      ensures Valid() && this.config == config && history == []
    {
      this.config := config;
      calls := map[];
      touches := 0;
      history := [];
    }

    /** Records one call. The verdict and the whole new state are those of
        `Step`, and the history grows by exactly this call. */
    method Record(key: Key, now: u64) returns (verdict: Verdict)
      requires Valid()
      modifies this
      ensures Valid() && history == old(history) + [Call(key, now)]
      ensures (Contents(), verdict) == Step(config, old(Contents()), key, now)
      ensures verdict == VerdictAt(config, history, |history| - 1)
    {
      assert (history + [Call(key, now)])[..|history|] == history;
      TableInvariant(config, history);
      if key !in calls {
        MakeRoom(now);
      }
      assert calls == Room(config, old(Contents()), key, now);
      touches := touches + 1;
      var kept := Live(Held(calls, key), now, config.window);
      if |kept| >= config.limit {
        calls := calls[key := Recent(kept, touches)];
        verdict := Tripped(AcceptedAgainIn(config, kept, now));
      } else {
        calls := calls[key := Recent(kept + [now], touches)];
        verdict := Ok;
      }
      history := history + [Call(key, now)];
    }

    /** One pass over the table in whatever order the map yields its keys, here
        any order at all: what is left does not depend on it. */
    method MakeRoom(now: u64)
      requires Distinct(calls)
      modifies this`calls
      ensures calls == RoomMade(config, old(calls), now)
    {
      var cap := Cap(config);
      if |calls| < cap {
        return;
      }
      ghost var was := calls;
      var least: Option<(nat, Key)> := None;
      var pending := calls.Keys;
      while pending != {}
        invariant Scanned(config, was, calls, pending, least, now)
      {
        var k :| k in pending;
        ghost var before, seen, left := calls, least, pending;
        pending := pending - {k};
        if AnyLive(calls[k].accepted, now, config.window) {
          if least.None? || calls[k].lastTouch < least.value.0 {
            least := Some((calls[k].lastTouch, k));
          }
        } else {
          calls := calls - {k};
        }
        ScanStep(config, was, before, left, seen, now, k, calls, least);
      }
      ScanEnd(config, was, calls, least, now);
      if |calls| >= cap {
        ghost var gone := WithoutLeastDropsOne(calls);
        assert gone == least.value.1;
        calls := calls - {least.value.1};
      }
    }
  }
}
