/** The sliding-window limiter, against the log of everything it ever allowed. */
module RateLimiter {
  const MAX_AGE := 3600.0

  function Recent(stamps: seq<real>, cutoff: real): (r: seq<real>)
    ensures forall t :: t in r ==> t > cutoff
  {
    if stamps == [] then [] else if stamps[0] > cutoff then [stamps[0]] + Recent(stamps[1..], cutoff) else Recent(stamps[1..], cutoff)
  }

  lemma RecentStep(stamps: seq<real>, i: nat, cutoff: real)
    requires i <= |stamps|
    ensures Recent(stamps[i..], cutoff) ==
      if i == |stamps| then [] else (if stamps[i] > cutoff then [stamps[i]] else []) + Recent(stamps[i + 1..], cutoff)
  {
    assert i < |stamps| ==> stamps[i..][1..] == stamps[i + 1..];
  }

  function MaxOf(stamps: seq<real>): (m: real)
    requires stamps != []
    ensures m in stamps && forall t :: t in stamps ==> t <= m
  {
    if |stamps| == 1 then stamps[0]
    else
      var rest := MaxOf(stamps[1..]);
      assert stamps == [stamps[0]] + stamps[1..];
      if stamps[0] >= rest then stamps[0] else rest
  }

  /** The limiter's table and the log of all requests it has allowed, per key. */
  datatype Tables = Tables(store: map<string, seq<real>>, log: map<string, seq<real>>)

  function StampsOf(m: map<string, seq<real>>, key: string): seq<real> {
    if key in m then m[key] else []
  }

  /** One check: prune, refuse at the limit, otherwise record. */
  function Check(s: Tables, key: string, max: int, window: real, now: real): (Tables, bool) {
    var recent := Recent(StampsOf(s.store, key), now - window);
    if |recent| >= max then (s.(store := s.store[key := recent]), true)
    else (Tables(s.store[key := recent + [now]], s.log[key := StampsOf(s.log, key) + [now]]), false)
  }

  /** A key whose entries are absent or all older than an hour. */
  predicate Stale(stamps: seq<real>, now: real) {
    stamps == [] || now - MaxOf(stamps) > MAX_AGE
  }

  function Cleaned(s: Tables, now: real): Tables {
    s.(store := map k | k in s.store && !Stale(s.store[k], now) :: s.store[k])
  }

  class Limiter {
    var store: map<string, seq<real>>
    ghost var log: map<string, seq<real>>

    ghost function View(): Tables
      reads this
    {
      Tables(store, log)
    }

    constructor ()
      ensures View() == Tables(map[], map[])
    {
      store, log := map[], map[];
    }

    method IsRateLimited(key: string, max: int, window: real, now: real) returns (limited: bool)
      modifies this
      ensures (View(), limited) == Check(old(View()), key, max, window, now)
      ensures limited <==> |Recent(StampsOf(old(store), key), now - window)| >= max
      ensures key in store && store[key] == Recent(StampsOf(old(store), key), now - window) + (if limited then [] else [now])
      ensures forall k :: k != key ==> StampsOf(store, k) == StampsOf(old(store), k) && StampsOf(log, k) == StampsOf(old(log), k)
      ensures StampsOf(log, key) == StampsOf(old(log), key) + (if limited then [] else [now])
    {
      hide Recent;
      var cutoff := now - window;
      if key !in store {
        store := store[key := []];
      }
      var stamps := store[key];
      var recent: seq<real> := [];
      for i := 0 to |stamps|
        invariant recent + Recent(stamps[i..], cutoff) == Recent(stamps, cutoff)
        invariant store == old(store)[key := stamps] && log == old(log)
      {
        RecentStep(stamps, i, cutoff);
        if stamps[i] > cutoff {
          recent := recent + [stamps[i]];
        }
      }
      RecentStep(stamps, |stamps|, cutoff);
      store := store[key := recent];
      assert store == old(store)[key := recent];
      assert stamps == StampsOf(old(store), key) && stamps[0..] == stamps && recent == Recent(stamps, cutoff);
      if |recent| >= max {
        return true;
      }
      store := store[key := recent + [now]];
      log := log[key := StampsOf(log, key) + [now]];
      assert store == old(store)[key := recent + [now]];
      return false;
    }

    method Cleanup(now: real)
      modifies this`store
      ensures View() == Cleaned(old(View()), now)
      ensures forall k :: k in store <==> k in old(store) && exists t :: t in old(store)[k] && now - t <= 3600.0
      ensures forall k :: k in store ==> store[k] == old(store)[k]
    {
      var stale: set<string> := {};
      var todo := store.Keys;
      while todo != {}
        invariant todo <= store.Keys && store == old(store)
        invariant stale == set k | k in store && k !in todo && Stale(store[k], now)
        decreases todo
      {
        var key :| key in todo;
        if store[key] == [] || now - MaxOf(store[key]) > MAX_AGE {
          stale := stale + {key};
        }
        todo := todo - {key};
      }
      store := store - stale;
    }
  }

  // ----- runs

  datatype Op = Request(key: string, now: real) | Cleanup(now: real)

  /** The fixed limit and window each key is checked with. */
  datatype Config = Config(max: string -> int, window: string -> real)

  function Step(config: Config, s: Tables, op: Op): Tables {
    match op
    case Request(key, now) => Check(s, key, config.max(key), config.window(key), now).0
    case Cleanup(now) => Cleaned(s, now)
  }

  /** The answers of a run, one per request. */
  function Decisions(config: Config, s: Tables, ops: seq<Op>): seq<bool>
    decreases |ops|
  {
    if ops == [] then []
    else
      (if ops[0].Request? then [Check(s, ops[0].key, config.max(ops[0].key), config.window(ops[0].key), ops[0].now).1] else [])
      + Decisions(config, Step(config, s, ops[0]), ops[1..])
  }

  /** The same checks made on the full log, which is never pruned and never cleaned. */
  function LogDecisions(config: Config, log: map<string, seq<real>>, ops: seq<Op>): seq<bool>
    decreases |ops|
  {
    if ops == [] then []
    else match ops[0]
      case Cleanup(_) => LogDecisions(config, log, ops[1..])
      case Request(key, now) =>
        var limited := |Recent(StampsOf(log, key), now - config.window(key))| >= config.max(key);
        [limited] + LogDecisions(config, if limited then log else log[key := StampsOf(log, key) + [now]], ops[1..])
  }

  function Run(config: Config, s: Tables, ops: seq<Op>): Tables
    decreases |ops|
  {
    if ops == [] then s else Run(config, Step(config, s, ops[0]), ops[1..])
  }

  /** The clock starts at `from` and never goes back. */
  ghost predicate Forward(ops: seq<Op>, from: real)
    decreases |ops|
  {
    ops == [] || (from <= ops[0].now && Forward(ops[1..], ops[0].now))
  }

  lemma {:induction false} RecentOfRecent(stamps: seq<real>, early: real, late: real)
    requires early <= late
    ensures Recent(Recent(stamps, early), late) == Recent(stamps, late)
    ensures |Recent(stamps, late)| <= |Recent(stamps, early)|
  {
    if stamps != [] {
      RecentOfRecent(stamps[1..], early, late);
      if stamps[0] > early {
        var r := Recent(stamps, early);
        assert r[1..] == Recent(stamps[1..], early);
      }
    }
  }

  lemma {:induction false} RecentAppend(stamps: seq<real>, t: real, cutoff: real)
    ensures Recent(stamps + [t], cutoff) == Recent(stamps, cutoff) + if t > cutoff then [t] else []
  {
    if stamps == [] {
      assert stamps + [t] == [t] && [t][1..] == [];
    } else {
      assert (stamps + [t])[1..] == stamps[1..] + [t];
      RecentAppend(stamps[1..], t, cutoff);
    }
  }

  lemma {:induction false} RecentNone(stamps: seq<real>, cutoff: real)
    requires forall t :: t in stamps ==> t <= cutoff
    ensures Recent(stamps, cutoff) == []
  {
    if stamps != [] {
      assert stamps[0] in stamps;
      assert forall t :: t in stamps[1..] ==> t in stamps;
      RecentNone(stamps[1..], cutoff);
    }
  }

  /** Table and log agree on everything still inside the key's window at time `now`; a limit below one never looks. */
  predicate KeyInSync(config: Config, s: Tables, key: string, now: real) {
    config.max(key) > 0 ==>
      Recent(StampsOf(s.store, key), now - config.window(key)) == Recent(StampsOf(s.log, key), now - config.window(key))
  }

  ghost predicate InSync(config: Config, s: Tables, now: real) {
    forall key :: KeyInSync(config, s, key, now)
  }

  /** No key that can be allowed anything has a window longer than the hour that cleanup keeps. */
  ghost predicate CleanupSafe(config: Config) {
    forall key :: config.window(key) <= 3600.0 || config.max(key) <= 0
  }

  lemma SyncLater(config: Config, s: Tables, now: real, later: real)
    requires InSync(config, s, now) && now <= later
    ensures InSync(config, s, later)
  {
    forall key ensures KeyInSync(config, s, key, later) {
      assert KeyInSync(config, s, key, now);
      RecentOfRecent(StampsOf(s.store, key), now - config.window(key), later - config.window(key));
      RecentOfRecent(StampsOf(s.log, key), now - config.window(key), later - config.window(key));
    }
  }

  lemma CheckKeepsSync(config: Config, s: Tables, key: string, now: real)
    requires InSync(config, s, now)
    ensures InSync(config, Check(s, key, config.max(key), config.window(key), now).0, now)
    ensures Check(s, key, config.max(key), config.window(key), now).1
      == (|Recent(StampsOf(s.log, key), now - config.window(key))| >= config.max(key))
  {
    assert KeyInSync(config, s, key, now);
    var after := Check(s, key, config.max(key), config.window(key), now).0;
    var cutoff := now - config.window(key);
    var recent := Recent(StampsOf(s.store, key), cutoff);
    RecentOfRecent(StampsOf(s.store, key), cutoff, cutoff);
    RecentAppend(recent, now, cutoff);
    RecentAppend(StampsOf(s.log, key), now, cutoff);
    forall k ensures KeyInSync(config, after, k, now) {
      assert KeyInSync(config, s, k, now);
      if k != key {
        assert StampsOf(after.store, k) == StampsOf(s.store, k) && StampsOf(after.log, k) == StampsOf(s.log, k);
      }
    }
  }

  lemma CleanupKeepsSync(config: Config, s: Tables, now: real)
    requires InSync(config, s, now) && CleanupSafe(config)
    ensures InSync(config, Cleaned(s, now), now)
  {
    var after := Cleaned(s, now);
    forall k ensures KeyInSync(config, after, k, now) {
      assert KeyInSync(config, s, k, now);
      if k in s.store && Stale(s.store[k], now) && config.max(k) > 0 {
        assert config.window(k) <= MAX_AGE;
        RecentNone(s.store[k], now - config.window(k));
      }
    }
  }

  /** Pruning and cleanup change no decision, as long as no window exceeds the hour cleanup keeps. */
  lemma {:induction false} DecisionsMatchLog(config: Config, s: Tables, ops: seq<Op>, from: real)
    requires InSync(config, s, from) && Forward(ops, from)
    requires (exists i :: 0 <= i < |ops| && ops[i].Cleanup?) ==> CleanupSafe(config)
    ensures Decisions(config, s, ops) == LogDecisions(config, s.log, ops)
    decreases |ops|
  {
    if ops != [] {
      var now := ops[0].now;
      SyncLater(config, s, from, now);
      match ops[0] {
        case Cleanup(_) => CleanupKeepsSync(config, s, now);
        case Request(key, _) => CheckKeepsSync(config, s, key, now);
      }
      assert forall i :: 0 <= i < |ops[1..]| ==> ops[1..][i] == ops[i + 1];
      DecisionsMatchLog(config, Step(config, s, ops[0]), ops[1..], now);
    }
  }

  /** With a longer window, cleanup forgets requests that still count. */
  lemma CleanupForgetsLongWindows()
    ensures var config := Config((k: string) => 1, (k: string) => 7200.0);
      var ops := [Request("k", 0.0), Cleanup(3601.0), Request("k", 3601.0)];
      && InSync(config, Tables(map[], map[]), 0.0) && Forward(ops, 0.0)
      && Decisions(config, Tables(map[], map[]), ops) == [false, false]
      && LogDecisions(config, map[], ops) == [false, true]
  {
    var config := Config((k: string) => 1, (k: string) => 7200.0);
    var ops := [Request("k", 0.0), Cleanup(3601.0), Request("k", 3601.0)];
    var s0 := Tables(map[], map[]);
    assert ops[1..] == [Cleanup(3601.0), Request("k", 3601.0)] && ops[1..][1..] == [Request("k", 3601.0)];
    var s1 := Step(config, s0, ops[0]);
    assert s1.store["k"] == [0.0];
    var s2 := Step(config, s1, ops[1]);
    assert "k" !in s2.store;
    assert [0.0][1..] == [];
    assert StampsOf(map["k" := [] + [0.0]], "k") == [0.0];
    assert |Recent([0.0], 3601.0 - 7200.0)| == 1;
    assert Decisions(config, s2, [Request("k", 3601.0)]) == [false];
    assert Decisions(config, s1, ops[1..]) == [false];
  }

  function Zeros(n: nat): (r: seq<real>)
    ensures |r| == n && forall t :: t in r ==> t == 0.0
  {
    if n == 0 then [] else [0.0] + Zeros(n - 1)
  }

  lemma {:induction false} RecentZeros(n: nat, cutoff: real)
    requires cutoff < 0.0
    ensures Recent(Zeros(n), cutoff) == Zeros(n)
  {
    if n > 0 {
      assert Zeros(n)[1..] == Zeros(n - 1);
      RecentZeros(n - 1, cutoff);
    }
  }

  lemma {:induction false} ZerosAppend(n: nat)
    ensures Zeros(n) + [0.0] == Zeros(n + 1)
  {
    if n > 0 {
      ZerosAppend(n - 1);
    }
  }

  /** `n` requests at once, then cleanup and one more request at time `t`. */
  function Burst(key: string, n: nat, t: real): seq<Op> {
    if n == 0 then [Cleanup(t), Request(key, t)] else [Request(key, 0.0)] + Burst(key, n - 1, t)
  }

  lemma {:induction false} BurstForward(key: string, n: nat, t: real)
    requires 0.0 <= t
    ensures Forward(Burst(key, n, t), 0.0)
  {
    if n > 0 {
      BurstForward(key, n - 1, t);
      assert Burst(key, n, t)[1..] == Burst(key, n - 1, t);
    } else {
      assert [Cleanup(t), Request(key, t)][1..] == [Request(key, t)] && [Request(key, t)][1..] == [];
    }
  }

  /** Below the limit, table and log both allow another request at time 0. */
  lemma AllowedAtOnce(config: Config, s: Tables, key: string, n: nat) returns (next: Tables)
    requires n < config.max(key) && 0.0 < config.window(key)
    requires StampsOf(s.store, key) == StampsOf(s.log, key) == Zeros(n)
    ensures Check(s, key, config.max(key), config.window(key), 0.0) == (next, false)
    ensures next.log == s.log[key := StampsOf(s.log, key) + [0.0]]
    ensures |Recent(StampsOf(s.log, key), 0.0 - config.window(key))| < config.max(key)
    ensures StampsOf(next.store, key) == StampsOf(next.log, key) == Zeros(n + 1)
  {
    RecentZeros(n, 0.0 - config.window(key));
    ZerosAppend(n);
    next := Check(s, key, config.max(key), config.window(key), 0.0).0;
  }

  lemma FullWindowForgotten(config: Config, s: Tables, key: string, t: real)
    requires 1 <= config.max(key) && StampsOf(s.store, key) == StampsOf(s.log, key) == Zeros(config.max(key))
    requires MAX_AGE < t < config.window(key)
    ensures Decisions(config, s, Burst(key, 0, t)) != LogDecisions(config, s.log, Burst(key, 0, t))
  {
    var ops := Burst(key, 0, t);
    var next := Step(config, s, ops[0]);
    RecentZeros(config.max(key), t - config.window(key));
    assert Stale(s.store[key], t) && key !in next.store;
    assert ops[1..] == [Request(key, t)];
    assert Decisions(config, next, ops[1..])[0] == false;
    assert LogDecisions(config, s.log, ops[1..])[0] == true;
  }

  /** After a burst up to the limit, cleanup and log part ways. */
  lemma {:induction false} BurstDiffers(config: Config, s: Tables, key: string, n: nat, t: real)
    requires 1 <= config.max(key) && n <= config.max(key)
    requires StampsOf(s.store, key) == StampsOf(s.log, key) == Zeros(config.max(key) - n)
    requires MAX_AGE < t < config.window(key)
    ensures Decisions(config, s, Burst(key, n, t)) != LogDecisions(config, s.log, Burst(key, n, t))
    decreases n
  {
    if n == 0 {
      FullWindowForgotten(config, s, key, t);
    } else {
      hide Recent, Zeros;
      var ops := Burst(key, n, t);
      var next := AllowedAtOnce(config, s, key, config.max(key) - n);
      assert ops[1..] == Burst(key, n - 1, t);
      BurstDiffers(config, next, key, n - 1, t);
      assert Decisions(config, s, ops)[1..] == Decisions(config, next, ops[1..]);
      assert LogDecisions(config, s.log, ops)[1..] == LogDecisions(config, next.log, ops[1..]);
    }
  }

  /** Every run with this configuration, from an empty table, decides as the log does. */
  ghost predicate CleanupHarmless(config: Config) {
    forall ops: seq<Op>, from: real :: Forward(ops, from) ==>
      Decisions(config, Tables(map[], map[]), ops) == LogDecisions(config, map[], ops)
  }

  /** Cleanup never changes a decision exactly when no usable window exceeds an hour. */
  lemma CleanupHarmlessExactly(config: Config)
    ensures CleanupHarmless(config) <==> CleanupSafe(config)
  {
    if CleanupSafe(config) {
      forall ops: seq<Op>, from: real | Forward(ops, from)
        ensures Decisions(config, Tables(map[], map[]), ops) == LogDecisions(config, map[], ops)
      {
        EmptyTables(config, from);
        DecisionsMatchLog(config, Tables(map[], map[]), ops, from);
      }
    } else {
      var key :| config.window(key) > MAX_AGE && config.max(key) > 0;
      var t := (MAX_AGE + config.window(key)) / 2.0;
      var ops := Burst(key, config.max(key), t);
      BurstForward(key, config.max(key), t);
      BurstDiffers(config, Tables(map[], map[]), key, config.max(key), t);
    }
  }

  // ----- no window is ever overfilled

  /** In the half-open interval `[a, b)`, or in `(a, b]`. */
  predicate Inside(closed: bool, t: real, a: real, b: real) {
    if closed then a <= t < b else a < t <= b
  }

  function Between(closed: bool, stamps: seq<real>, a: real, b: real): seq<real> {
    if stamps == [] then []
    else (if Inside(closed, stamps[0], a, b) then [stamps[0]] else []) + Between(closed, stamps[1..], a, b)
  }

  lemma {:induction false} BetweenAppend(closed: bool, stamps: seq<real>, t: real, a: real, b: real)
    ensures Between(closed, stamps + [t], a, b) == Between(closed, stamps, a, b) + if Inside(closed, t, a, b) then [t] else []
  {
    if stamps == [] {
      assert stamps + [t] == [t] && [t][1..] == [];
    } else {
      assert (stamps + [t])[1..] == stamps[1..] + [t];
      BetweenAppend(closed, stamps[1..], t, a, b);
    }
  }

  /** An interval that starts after the cutoff holds only recent stamps. */
  lemma {:induction false} BetweenIsRecent(closed: bool, stamps: seq<real>, a: real, b: real, cutoff: real)
    requires if closed then cutoff < a else cutoff <= a
    ensures |Between(closed, stamps, a, b)| <= |Recent(stamps, cutoff)|
  {
    if stamps != [] {
      BetweenIsRecent(closed, stamps[1..], a, b, cutoff);
    }
  }

  function Capacity(max: int): nat { if max > 0 then max else 0 }

  /** No interval of window length, closed on one side or the other, holds more allowed requests than the limit. */
  ghost predicate WithinLimits(config: Config, log: map<string, seq<real>>) {
    forall closed, key, a: real :: WindowHolds(config, log, closed, key, a)
  }

  predicate WindowHolds(config: Config, log: map<string, seq<real>>, closed: bool, key: string, a: real) {
    |Between(closed, StampsOf(log, key), a, a + config.window(key))| <= Capacity(config.max(key))
  }

  lemma CheckWithinLimits(config: Config, s: Tables, key: string, now: real)
    requires InSync(config, s, now) && WithinLimits(config, s.log)
    ensures WithinLimits(config, Check(s, key, config.max(key), config.window(key), now).0.log)
  {
    CheckKeepsSync(config, s, key, now);
    var after := Check(s, key, config.max(key), config.window(key), now).0.log;
    var w := config.window(key);
    forall closed, k, a: real ensures WindowHolds(config, after, closed, k, a) {
      assert WindowHolds(config, s.log, closed, k, a);
      if k == key && after != s.log {
        BetweenAppend(closed, StampsOf(s.log, key), now, a, a + w);
        if Inside(closed, now, a, a + w) {
          BetweenIsRecent(closed, StampsOf(s.log, key), a, a + w, now - w);
        }
      } else {
        assert StampsOf(after, k) == StampsOf(s.log, k);
      }
    }
  }

  /** In every run from an empty table, each key's every window holds at most its limit of allowed requests. */
  lemma {:induction false} LimitHolds(config: Config, s: Tables, ops: seq<Op>, from: real)
    requires InSync(config, s, from) && WithinLimits(config, s.log) && Forward(ops, from)
    requires (exists i :: 0 <= i < |ops| && ops[i].Cleanup?) ==> CleanupSafe(config)
    ensures WithinLimits(config, Run(config, s, ops).log)
    decreases |ops|
  {
    if ops != [] {
      var now := ops[0].now;
      SyncLater(config, s, from, now);
      match ops[0] {
        case Cleanup(_) => CleanupKeepsSync(config, s, now);
        case Request(key, _) =>
          CheckKeepsSync(config, s, key, now);
          CheckWithinLimits(config, s, key, now);
      }
      assert forall i :: 0 <= i < |ops[1..]| ==> ops[1..][i] == ops[i + 1];
      LimitHolds(config, Step(config, s, ops[0]), ops[1..], now);
    }
  }

  lemma EmptyTables(config: Config, now: real)
    ensures InSync(config, Tables(map[], map[]), now) && WithinLimits(config, map[])
  {
  }
}
