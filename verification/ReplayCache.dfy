/** The in-process replay cache: an ordered dictionary with a time to live and a size limit. */
module ReplayCache {

  // ---------------------------------------------------------------- the ordered dictionary

  /** Keys with the time they were added, oldest touch first. */
  type Entries = seq<(string, int)>

  function KeysOf(entries: Entries): set<string> {
    if entries == [] then {} else {entries[0].0} + KeysOf(entries[1..])
  }

  predicate Distinct(entries: Entries) {
    entries == [] || (entries[0].0 !in KeysOf(entries[1..]) && Distinct(entries[1..]))
  }

  function Without(entries: Entries, key: string): Entries {
    if entries == [] then [] else (if entries[0].0 == key then [] else [entries[0]]) + Without(entries[1..], key)
  }

  function TimeOf(entries: Entries, key: string): int
    requires key in KeysOf(entries)
  {
    if entries[0].0 == key then entries[0].1 else TimeOf(entries[1..], key)
  }

  /** The keys behind `key`: in a run, keys touched after it. */
  function Behind(entries: Entries, key: string): set<string>
    requires key in KeysOf(entries)
  {
    if entries[0].0 == key then KeysOf(entries[1..]) else Behind(entries[1..], key)
  }

  /** `_prune`: drop from the front while the front entry has expired or there are too many. */
  function Prune(entries: Entries, now: int, ttl: int, max: nat): Entries {
    if entries == [] || (entries[0].1 > now - ttl && |entries| <= max) then entries
    else Prune(entries[1..], now, ttl, max)
  }

  function Added(entries: Entries, key: string, now: int): Entries { Without(entries, key) + [(key, now)] }

  /** `move_to_end`, which keeps the time. */
  function Touched(entries: Entries, key: string): Entries
    requires key in KeysOf(entries)
  {
    Without(entries, key) + [(key, TimeOf(entries, key))]
  }

  function MaxOne(n: int): (r: nat)
    ensures r >= 1
  {
    if n > 1 then n else 1
  }

  class Cache {
    const ttl: int
    const max: nat
    var entries: Entries

    constructor (ttlSeconds: int, maxEntries: int)
      ensures ttl == MaxOne(ttlSeconds) && max == MaxOne(maxEntries) && entries == []
      ensures ttl >= 1 && ttl >= ttlSeconds && (ttl > 1 ==> ttl == ttlSeconds)
      ensures max >= 1 && max >= maxEntries && (max > 1 ==> max == maxEntries)
    {
      ttl := MaxOne(ttlSeconds);
      max := MaxOne(maxEntries);
      entries := [];
    }

    method PruneEntries(now: int)
      modifies this
      ensures entries == Prune(old(entries), now, ttl, max)
    {
      var expiry := now - ttl;
      while entries != []
        invariant Prune(entries, now, ttl, max) == Prune(old(entries), now, ttl, max)
        decreases |entries|
      {
        var (key, seenAt) := entries[0];
        if seenAt > expiry && |entries| <= max {
          break;
        }
        entries := entries[1..];
      }
    }

    /** An empty key stands for the missing one: it is never stored. */
    method Contains(key: string, now: int) returns (hit: bool)
      modifies this
      ensures Step(Limits(ttl, max), old(entries), Op.Ask(key, now, hit), entries)
    {
      if key == "" {
        return false;
      }
      PruneEntries(now);
      if key !in KeysOf(entries) {
        return false;
      }
      entries := Touched(entries, key);
      return true;
    }

    method Add(key: string, now: int)
      modifies this
      ensures Step(Limits(ttl, max), old(entries), Op.Add(key, now), entries)
    {
      if key == "" {
        return;
      }
      entries := Added(entries, key, now);
      PruneEntries(now);
    }
  }

  // ---------------------------------------------------------------- runs

  /** One call, with its answer. */
  datatype Op = Add(key: string, time: int) | Ask(key: string, time: int, hit: bool)

  /** An addition or a hit moves its key to the end. */
  predicate Touches(op: Op, key: string) { op.key == key && key != "" && (op.Add? || op.hit) }

  datatype Limits = Limits(ttl: int, max: nat)

  /** The cache after one call; the call's answer must be the one the cache gives. */
  ghost predicate Step(limits: Limits, before: Entries, op: Op, after: Entries) {
    match op
    case Add(key, now) =>
      after == if key == "" then before else Prune(Added(before, key, now), now, limits.ttl, limits.max)
    case Ask(key, now, hit) =>
      if key == "" then !hit && after == before
      else
        var pruned := Prune(before, now, limits.ttl, limits.max);
        hit == (key in KeysOf(pruned)) && after == if hit then Touched(pruned, key) else pruned
  }

  /** `states[i]` is the cache after the first i calls of `log`, on a clock that never goes back. */
  ghost predicate IsRun(limits: Limits, log: seq<Op>, states: seq<Entries>) {
    && limits.ttl >= 1 && limits.max >= 1
    && |states| == |log| + 1 && states[0] == []
    && (forall i :: 0 <= i < |log| ==> Step(limits, states[i], log[i], states[i + 1]))
    && (forall i :: 0 <= i < |log| - 1 ==> log[i].time <= log[i + 1].time)
  }

  /** Whether `key` was ever added, and when last. */
  ghost predicate WasAdded(log: seq<Op>, key: string) { exists i :: 0 <= i < |log| && log[i].Add? && log[i].key == key }

  ghost function LastAdd(log: seq<Op>, key: string): int
    requires WasAdded(log, key)
  {
    var last := log[|log| - 1];
    if last.Add? && last.key == key then last.time else LastAdd(log[..|log| - 1], key)
  }

  /** The other keys touched since the last touch of `key`. */
  ghost function Since(log: seq<Op>, key: string): set<string> {
    if log == [] then {}
    else
      var last := log[|log| - 1];
      if Touches(last, key) then {}
      else Since(log[..|log| - 1], key) + (if Touches(last, last.key) then {last.key} else {})
  }

  // ---------------------------------------------------------------- the dictionary operations

  lemma {:induction false} KeysCount(entries: Entries)
    requires Distinct(entries)
    ensures |KeysOf(entries)| == |entries|
  {
    if entries != [] {
      KeysCount(entries[1..]);
    }
  }

  lemma {:induction false} WithoutKeys(entries: Entries, key: string)
    requires Distinct(entries)
    ensures KeysOf(Without(entries, key)) == KeysOf(entries) - {key}
    ensures Distinct(Without(entries, key))
    ensures |Without(entries, key)| == |entries| - if key in KeysOf(entries) then 1 else 0
  {
    if entries != [] {
      WithoutKeys(entries[1..], key);
      if entries[0].0 != key {
        assert Without(entries, key)[1..] == Without(entries[1..], key);
      } else {
        assert Without(entries, key) == Without(entries[1..], key);
      }
    }
  }

  /** Putting a key at the end: the others keep their time and now have it behind them. */
  lemma {:induction false} MovedToEnd(entries: Entries, key: string, time: int, other: string)
    requires Distinct(entries)
    ensures var moved := Without(entries, key) + [(key, time)];
      && KeysOf(moved) == KeysOf(entries) + {key} && Distinct(moved)
      && Behind(moved, key) == {} && TimeOf(moved, key) == time
      && (other in KeysOf(entries) && other != key ==>
           TimeOf(moved, other) == TimeOf(entries, other) && Behind(moved, other) == Behind(entries, other) + {key})
  {
    var moved := Without(entries, key) + [(key, time)];
    if entries == [] {
      assert moved[1..] == [];
    } else {
      MovedToEnd(entries[1..], key, time, other);
      WithoutKeys(entries[1..], key);
      var rest := Without(entries[1..], key) + [(key, time)];
      if entries[0].0 != key {
        assert moved[1..] == rest && moved[0] == entries[0];
      } else {
        assert moved == rest;
        AlreadyWithout(entries[1..], key);
      }
    }
  }

  lemma {:induction false} AlreadyWithout(entries: Entries, key: string)
    requires key !in KeysOf(entries)
    ensures Without(entries, key) == entries
  {
    if entries != [] {
      AlreadyWithout(entries[1..], key);
    }
  }

  /** Pruning leaves a suffix within the limit. */
  lemma {:induction false} PruneShape(entries: Entries, now: int, limits: Limits)
    requires Distinct(entries)
    ensures var pruned := Prune(entries, now, limits.ttl, limits.max);
      && Distinct(pruned) && |pruned| <= limits.max && KeysOf(pruned) <= KeysOf(entries)
      && forall key :: key in KeysOf(pruned) ==>
           TimeOf(pruned, key) == TimeOf(entries, key) && Behind(pruned, key) == Behind(entries, key)
  {
    if entries != [] && !(entries[0].1 > now - limits.ttl && |entries| <= limits.max) {
      PruneShape(entries[1..], now, limits);
    }
  }

  /** Pruning spares a young key with fewer than `max` keys behind it. */
  lemma {:induction false} PruneSpares(entries: Entries, now: int, limits: Limits, key: string)
    requires Distinct(entries) && key in KeysOf(entries)
    requires TimeOf(entries, key) > now - limits.ttl && |Behind(entries, key)| < limits.max
    ensures key in KeysOf(Prune(entries, now, limits.ttl, limits.max))
  {
    if !(entries[0].1 > now - limits.ttl && |entries| <= limits.max) {
      if entries[0].0 == key {
        KeysCount(entries[1..]);
      } else {
        PruneSpares(entries[1..], now, limits, key);
      }
    }
  }

  // ---------------------------------------------------------------- what every run keeps

  /** The log explains the cache: times are last additions, and behind a key stand exactly the keys touched since. */
  ghost predicate Explains(limits: Limits, log: seq<Op>, entries: Entries, now: int) {
    && Distinct(entries) && |entries| <= limits.max
    && (forall key :: key in KeysOf(entries) ==> Known(log, entries, key))
    && (forall key :: Young(limits, log, key, now) ==> key in KeysOf(entries))
  }

  ghost predicate Known(log: seq<Op>, entries: Entries, key: string)
    requires key in KeysOf(entries)
  {
    key != "" && WasAdded(log, key) && TimeOf(entries, key) == LastAdd(log, key)
      && Behind(entries, key) == Since(log, key)
  }

  /** Added less than `ttl` ago, and fewer than `max` other keys touched since its last touch. */
  ghost predicate Young(limits: Limits, log: seq<Op>, key: string, now: int) {
    key != "" && WasAdded(log, key) && LastAdd(log, key) > now - limits.ttl && |Since(log, key)| < limits.max
  }

  lemma LogStep(log: seq<Op>, op: Op, key: string)
    ensures WasAdded(log + [op], key) <==> WasAdded(log, key) || (op.Add? && op.key == key)
    ensures WasAdded(log + [op], key) ==>
      LastAdd(log + [op], key) == if op.Add? && op.key == key then op.time else LastAdd(log, key)
    ensures Since(log + [op], key)
      == if Touches(op, key) then {} else Since(log, key) + (if Touches(op, op.key) then {op.key} else {})
  {
    var longer := log + [op];
    assert longer[..|log|] == log && longer[|log|] == op;
    if WasAdded(log, key) {
      var i :| 0 <= i < |log| && log[i].Add? && log[i].key == key;
      assert longer[i] == log[i];
    }
    if op.Add? && op.key == key {
      assert longer[|log|].Add?;
    }
    if WasAdded(longer, key) && !(op.Add? && op.key == key) {
      var i :| 0 <= i < |longer| && longer[i].Add? && longer[i].key == key;
      assert log[i] == longer[i];
    }
  }

  /** A key that a pruning drops was not young: the pruned cache is still explained. */
  lemma PruneExplains(limits: Limits, log: seq<Op>, entries: Entries, now: int, later: int)
    requires Explains(limits, log, entries, now) && now <= later
    ensures Explains(limits, log, Prune(entries, later, limits.ttl, limits.max), later)
  {
    hide WasAdded, LastAdd, Since;
    PruneShape(entries, later, limits);
    forall key | Young(limits, log, key, later) ensures key in KeysOf(Prune(entries, later, limits.ttl, limits.max)) {
      assert Young(limits, log, key, now);
      assert Known(log, entries, key);
      Subset(Behind(entries, key), Since(log, key));
      PruneSpares(entries, later, limits, key);
    }
  }

  lemma {:induction false} Subset(a: set<string>, b: set<string>)
    requires a <= b
    ensures |a| <= |b|
  {
    if a != {} {
      var x :| x in a;
      Subset(a - {x}, b - {x});
    }
  }

  lemma HitExplains(limits: Limits, log: seq<Op>, entries: Entries, key: string, now: int)
    requires key != "" && key in KeysOf(entries) && Explains(limits, log, entries, now)
    ensures Explains(limits, log + [Ask(key, now, true)], Touched(entries, key), now)
  {
    hide WasAdded, LastAdd, Since, Without, Behind;
    var op := Ask(key, now, true);
    var moved := Touched(entries, key);
    WithoutKeys(entries, key);
    MovedToEnd(entries, key, TimeOf(entries, key), key);
    forall k ensures k in KeysOf(moved) ==> Known(log + [op], moved, k) {
      LogStep(log, op, k);
      MovedToEnd(entries, key, TimeOf(entries, key), k);
      if k in KeysOf(moved) {
        assert Known(log, entries, k);
      }
    }
    forall k | Young(limits, log + [op], k, now) ensures k in KeysOf(moved) {
      LogStep(log, op, k);
      if k != key {
        Subset(Since(log, k), Since(log + [op], k));
        assert Young(limits, log, k, now);
      }
    }
  }

  lemma MissExplains(limits: Limits, log: seq<Op>, entries: Entries, op: Op, now: int)
    requires Explains(limits, log, entries, now)
    requires !Touches(op, op.key) && (op.Add? ==> op.key == "")
    ensures Explains(limits, log + [op], entries, now)
  {
    hide WasAdded, LastAdd, Since, Behind;
    forall k ensures k in KeysOf(entries) ==> Known(log + [op], entries, k) {
      LogStep(log, op, k);
      assert k in KeysOf(entries) ==> Known(log, entries, k);
    }
    forall k | Young(limits, log + [op], k, now) ensures k in KeysOf(entries) {
      LogStep(log, op, k);
      assert Young(limits, log, k, now);
    }
  }

  lemma AddExplains(limits: Limits, log: seq<Op>, entries: Entries, key: string, now: int)
    requires key != "" && Explains(limits, log, entries, now) && limits.ttl >= 1 && limits.max >= 1
    ensures Explains(limits, log + [Add(key, now)], Prune(Added(entries, key, now), now, limits.ttl, limits.max), now)
  {
    hide WasAdded, LastAdd, Since, Without, Behind;
    var op := Add(key, now);
    var moved := Added(entries, key, now);
    var pruned := Prune(moved, now, limits.ttl, limits.max);
    MovedToEnd(entries, key, now, key);
    PruneShape(moved, now, limits);
    forall k ensures k in KeysOf(moved) ==> Known(log + [op], moved, k) {
      LogStep(log, op, k);
      MovedToEnd(entries, key, now, k);
      if k in KeysOf(entries) {
        assert Known(log, entries, k);
      }
    }
    forall k | k in KeysOf(pruned) ensures Known(log + [op], pruned, k) {
      assert Known(log + [op], moved, k);
    }
    forall k | Young(limits, log + [op], k, now) ensures k in KeysOf(pruned) {
      LogStep(log, op, k);
      if k != key {
        Subset(Since(log, k), Since(log + [op], k));
        assert Young(limits, log, k, now);
      }
      assert Known(log + [op], moved, k);
      Subset(Behind(moved, k), Since(log + [op], k));
      PruneSpares(moved, now, limits, k);
    }
  }

  lemma LaterExplains(limits: Limits, log: seq<Op>, entries: Entries, now: int, later: int)
    requires Explains(limits, log, entries, now) && now <= later
    ensures Explains(limits, log, entries, later)
  {
    hide WasAdded, LastAdd, Since, Behind;
    forall key | Young(limits, log, key, later) ensures key in KeysOf(entries) {
      assert Young(limits, log, key, now);
    }
  }

  lemma StepExplains(limits: Limits, log: seq<Op>, before: Entries, op: Op, after: Entries, now: int)
    requires limits.ttl >= 1 && limits.max >= 1
    requires Explains(limits, log, before, now) && now <= op.time && Step(limits, before, op, after)
    ensures Explains(limits, log + [op], after, op.time)
  {
    hide Explains, Prune, Added, Touched, KeysOf;
    LaterExplains(limits, log, before, now, op.time);
    match op
    case Add(key, time) =>
      if key == "" {
        MissExplains(limits, log, before, op, time);
      } else {
        AddExplains(limits, log, before, key, time);
      }
    case Ask(key, time, hit) =>
      if key == "" {
        MissExplains(limits, log, before, op, time);
      } else {
        PruneExplains(limits, log, before, time, time);
        var pruned := Prune(before, time, limits.ttl, limits.max);
        if hit {
          HitExplains(limits, log, pruned, key, time);
        } else {
          MissExplains(limits, log, pruned, op, time);
        }
      }
  }

  lemma EmptyExplains(limits: Limits, now: int)
    ensures Explains(limits, [], [], now)
  {
    assert forall key :: !WasAdded([], key);
  }

  lemma RunStep(limits: Limits, log: seq<Op>, states: seq<Entries>, i: nat)
    requires IsRun(limits, log, states) && i < |log|
    ensures Step(limits, states[i], log[i], states[i + 1]) && (i > 0 ==> log[i - 1].time <= log[i].time)
    ensures states[0] == [] && limits.ttl >= 1 && limits.max >= 1
  {
    hide Step;
  }

  /** The state before call i is explained, on the clock of the call before it. */
  lemma {:induction false} RunExplains(limits: Limits, log: seq<Op>, states: seq<Entries>, i: nat) returns (now: int)
    requires IsRun(limits, log, states) && i <= |log|
    ensures Explains(limits, log[..i], states[i], now)
    ensures i < |log| ==> now <= log[i].time
  {
    hide Step, Explains;
    if i == 0 {
      now := if |log| > 0 then log[0].time else 0;
      EmptyExplains(limits, now);
      assert log[..0] == [];
    } else {
      var before := RunExplains(limits, log, states, i - 1);
      now := log[i - 1].time;
      assert log[..i] == log[..i - 1] + [log[i - 1]];
      RunStep(limits, log, states, i - 1);
      if i < |log| {
        RunStep(limits, log, states, i);
      }
      StepExplains(limits, log[..i - 1], states[i - 1], log[i - 1], states[i], before);
    }
  }

  // ---------------------------------------------------------------- the guarantees

  /**
   * Over every run: the cache never exceeds its limit; a hit means the key was added; and a key added
   * less than `ttl` ago is reported unless at least `max` other keys were touched since its last touch.
   */
  lemma CacheGuarantees(limits: Limits, log: seq<Op>, states: seq<Entries>, i: nat)
    requires IsRun(limits, log, states) && i < |log|
    ensures |states[i + 1]| <= limits.max
    ensures log[i].Ask? && log[i].hit ==> WasAdded(log[..i], log[i].key)
    ensures log[i].Ask? && Young(limits, log[..i], log[i].key, log[i].time) ==> log[i].hit
  {
    hide WasAdded, LastAdd, Since, Behind, KeysOf, Prune;
    var after := RunExplains(limits, log, states, i + 1);
    var now := RunExplains(limits, log, states, i);
    RunStep(limits, log, states, i);
    if log[i].Ask? && log[i].key != "" {
      PruneExplains(limits, log[..i], states[i], now, log[i].time);
      var pruned := Prune(states[i], log[i].time, limits.ttl, limits.max);
      if log[i].hit {
        assert Known(log[..i], pruned, log[i].key);
      }
    }
  }

  // ---------------------------------------------------------------- which keys are reported, exactly

  /** How many entries stand before the key. */
  function Position(entries: Entries, key: string): (p: nat)
    requires key in KeysOf(entries)
    ensures p < |entries|
  {
    if entries[0].0 == key then 0 else 1 + Position(entries[1..], key)
  }

  /** Pruning stops at this entry at the latest: it is young, and from it on the entries fit. */
  predicate Stops(entries: Entries, j: nat, now: int, ttl: int, max: nat)
    requires j < |entries|
  {
    entries[j].1 > now - ttl && |entries| - j <= max
  }

  /** A key survives pruning exactly if pruning stops at it or at an entry before it. */
  lemma {:induction false} PruneExactly(entries: Entries, key: string, now: int, ttl: int, max: nat)
    requires Distinct(entries) && key in KeysOf(entries)
    ensures key in KeysOf(Prune(entries, now, ttl, max))
      <==> exists j :: 0 <= j <= Position(entries, key) && Stops(entries, j, now, ttl, max)
  {
    var p := Position(entries, key);
    if Stops(entries, 0, now, ttl, max) {
      assert Prune(entries, now, ttl, max) == entries;
    } else if p == 0 {
      PrunedKeys(entries[1..], now, ttl, max);
    } else {
      PruneExactly(entries[1..], key, now, ttl, max);
      forall j | 0 < j <= p ensures Stops(entries, j, now, ttl, max) == Stops(entries[1..], j - 1, now, ttl, max) {
      }
      if exists j :: 0 <= j <= p - 1 && Stops(entries[1..], j, now, ttl, max) {
        var j :| 0 <= j <= p - 1 && Stops(entries[1..], j, now, ttl, max);
        assert Stops(entries, j + 1, now, ttl, max);
      }
    }
  }

  lemma {:induction false} PrunedKeys(entries: Entries, now: int, ttl: int, max: nat)
    ensures KeysOf(Prune(entries, now, ttl, max)) <= KeysOf(entries)
  {
    if entries != [] {
      PrunedKeys(entries[1..], now, ttl, max);
    }
  }

  /** The index of the last touch of a key, or -1. */
  function LastTouch(log: seq<Op>, key: string): (i: int)
    ensures -1 <= i < |log|
    ensures i >= 0 ==> Touches(log[i], key)
  {
    if log == [] then -1
    else if Touches(log[|log| - 1], key) then |log| - 1
    else LastTouch(log[..|log| - 1], key)
  }

  /** The entries stand in the order of their last touches. */
  ghost predicate Lined(log: seq<Op>, entries: Entries) {
    entries == []
    || (Lined(log, entries[1..]) && forall k :: k in KeysOf(entries[1..]) ==>
      LastTouch(log, entries[0].0) < LastTouch(log, k))
  }

  lemma {:induction false} LinedPruned(log: seq<Op>, entries: Entries, now: int, ttl: int, max: nat)
    requires Lined(log, entries)
    ensures Lined(log, Prune(entries, now, ttl, max))
  {
    if entries != [] {
      LinedPruned(log, entries[1..], now, ttl, max);
    }
  }

  lemma TouchStep(log: seq<Op>, op: Op, key: string)
    ensures LastTouch(log + [op], key) == if Touches(op, key) then |log| else LastTouch(log, key)
  {
    assert (log + [op])[..|log|] == log;
  }

  /** A call that touches none of the entries leaves them lined up. */
  lemma {:induction false} LinedStill(log: seq<Op>, op: Op, entries: Entries)
    requires Lined(log, entries) && forall k :: k in KeysOf(entries) ==> !Touches(op, k)
    ensures Lined(log + [op], entries)
  {
    hide Touches;
    if entries != [] {
      LinedStill(log, op, entries[1..]);
      TouchStep(log, op, entries[0].0);
      forall k | k in KeysOf(entries[1..]) ensures LastTouch(log + [op], entries[0].0) < LastTouch(log + [op], k) {
        TouchStep(log, op, k);
      }
    }
  }

  /** The touched key goes to the end. */
  lemma {:induction false} LinedMoved(log: seq<Op>, op: Op, entries: Entries, time: int)
    requires Lined(log, entries) && Distinct(entries) && Touches(op, op.key)
    ensures Lined(log + [op], Without(entries, op.key) + [(op.key, time)])
  {
    var moved := Without(entries, op.key) + [(op.key, time)];
    TouchStep(log, op, op.key);
    if entries == [] {
      assert moved[1..] == [];
    } else {
      LinedMoved(log, op, entries[1..], time);
      WithoutKeys(entries[1..], op.key);
      var rest := Without(entries[1..], op.key) + [(op.key, time)];
      MovedToEnd(entries[1..], op.key, time, op.key);
      if entries[0].0 == op.key {
        assert moved == rest;
      } else {
        assert moved[1..] == rest && moved[0] == entries[0];
        TouchStep(log, op, entries[0].0);
        forall k | k in KeysOf(rest) ensures LastTouch(log + [op], entries[0].0) < LastTouch(log + [op], k) {
          TouchStep(log, op, k);
        }
      }
    }
  }

  lemma LinedStep(limits: Limits, log: seq<Op>, before: Entries, op: Op, after: Entries)
    requires Lined(log, before) && Distinct(before) && Step(limits, before, op, after)
    ensures Lined(log + [op], after)
  {
    hide Lined, KeysOf, Distinct, Prune;
    match op
    case Add(key, now) =>
      if key == "" {
        LinedStill(log, op, before);
      } else {
        LinedMoved(log, op, before, now);
        LinedPruned(log + [op], Added(before, key, now), now, limits.ttl, limits.max);
      }
    case Ask(key, now, hit) =>
      if key == "" {
        LinedStill(log, op, before);
      } else {
        var pruned := Prune(before, now, limits.ttl, limits.max);
        LinedPruned(log, before, now, limits.ttl, limits.max);
        PruneShape(before, now, limits);
        if hit {
          LinedMoved(log, op, pruned, TimeOf(pruned, key));
        } else {
          LinedStill(log, op, pruned);
        }
      }
  }

  lemma {:induction false} RunLined(limits: Limits, log: seq<Op>, states: seq<Entries>, i: nat)
    requires IsRun(limits, log, states) && i <= |log|
    ensures Lined(log[..i], states[i])
  {
    hide Step, Explains, Lined;
    RunLength(limits, log, states);
    if i == 0 {
      NothingLined(log[..0]);
    } else {
      RunLined(limits, log, states, i - 1);
      RunDistinct(limits, log, states, i - 1);
      assert log[..i] == log[..i - 1] + [log[i - 1]];
      RunStep(limits, log, states, i - 1);
      LinedStep(limits, log[..i - 1], states[i - 1], log[i - 1], states[i]);
    }
  }

  lemma RunLength(limits: Limits, log: seq<Op>, states: seq<Entries>)
    requires IsRun(limits, log, states)
    ensures |states| == |log| + 1 && states[0] == []
  {
    hide Step;
  }

  lemma NothingLined(log: seq<Op>)
    ensures Lined(log, [])
  {
  }

  lemma RunDistinct(limits: Limits, log: seq<Op>, states: seq<Entries>, i: nat)
    requires IsRun(limits, log, states) && i <= |log|
    ensures Distinct(states[i]) && |states[i]| <= limits.max
  {
    hide Step, Known, Young, IsRun;
    var now := RunExplains(limits, log, states, i);
  }

  lemma {:induction false} KeyAt(entries: Entries, j: nat)
    requires Distinct(entries) && j < |entries|
    ensures entries[j].0 in KeysOf(entries) && Position(entries, entries[j].0) == j
    ensures TimeOf(entries, entries[j].0) == entries[j].1
  {
    if j > 0 {
      KeyAt(entries[1..], j - 1);
    }
  }

  lemma {:induction false} AtPosition(entries: Entries, key: string)
    requires key in KeysOf(entries)
    ensures entries[Position(entries, key)].0 == key && entries[Position(entries, key)].1 == TimeOf(entries, key)
  {
    if entries[0].0 != key {
      AtPosition(entries[1..], key);
    }
  }

  /** Standing before is having been touched last before. */
  lemma {:induction false} LinedOrder(log: seq<Op>, entries: Entries, e: string, key: string)
    requires Lined(log, entries) && e in KeysOf(entries) && key in KeysOf(entries)
    ensures Position(entries, e) <= Position(entries, key) <==> LastTouch(log, e) <= LastTouch(log, key)
  {
    if entries[0].0 != e && entries[0].0 != key {
      LinedOrder(log, entries[1..], e, key);
    }
  }

  /** A stored key that was added less than `ttl` ago and touched no later than `key`. */
  ghost predicate YoungBefore(limits: Limits, log: seq<Op>, entries: Entries, key: string, e: string, now: int) {
    && e in KeysOf(entries) && WasAdded(log, e) && LastAdd(log, e) > now - limits.ttl
    && LastTouch(log, e) <= LastTouch(log, key)
  }

  lemma StandsBefore(limits: Limits, log: seq<Op>, entries: Entries, key: string, now: int)
    requires Distinct(entries) && |entries| <= limits.max && Lined(log, entries) && key in KeysOf(entries)
    requires forall k :: k in KeysOf(entries) ==> Known(log, entries, k)
    ensures (exists j :: 0 <= j <= Position(entries, key) && Stops(entries, j, now, limits.ttl, limits.max))
      <==> exists e :: YoungBefore(limits, log, entries, key, e, now)
  {
    hide Lined, KeysOf, Distinct, WasAdded, LastAdd, LastTouch, TimeOf;
    if j :| 0 <= j <= Position(entries, key) && Stops(entries, j, now, limits.ttl, limits.max) {
      KeyAt(entries, j);
      var e := entries[j].0;
      assert Known(log, entries, e);
      LinedOrder(log, entries, e, key);
      assert YoungBefore(limits, log, entries, key, e, now);
    }
    if e :| YoungBefore(limits, log, entries, key, e, now) {
      assert Known(log, entries, e);
      LinedOrder(log, entries, e, key);
      AtPosition(entries, e);
      assert Stops(entries, Position(entries, e), now, limits.ttl, limits.max);
    }
  }

  /**
   * A key is reported exactly if it is still stored and some stored key touched no later was added less than
   * `ttl` ago: the key itself, or, for a key added longer ago, a younger one that stands before it.
   */
  lemma ReportedExactly(limits: Limits, log: seq<Op>, states: seq<Entries>, i: nat)
    requires IsRun(limits, log, states) && i < |log| && log[i].Ask? && log[i].key != ""
    ensures var key, now := log[i].key, log[i].time;
      log[i].hit <==> key in KeysOf(states[i]) && exists e :: YoungBefore(limits, log[..i], states[i], key, e, now)
  {
    hide WasAdded, LastAdd, Since, Behind, Lined, Young, YoungBefore, KeysOf, Distinct, Prune;
    var key, now := log[i].key, log[i].time;
    var before := RunExplains(limits, log, states, i);
    RunLined(limits, log, states, i);
    RunStep(limits, log, states, i);
    if key in KeysOf(states[i]) {
      PruneExactly(states[i], key, now, limits.ttl, limits.max);
      StandsBefore(limits, log[..i], states[i], key, now);
    } else {
      PrunedKeys(states[i], now, limits.ttl, limits.max);
    }
  }

  // ---------------------------------------------------------------- runs without hits

  ghost predicate NoHits(log: seq<Op>) { forall j :: 0 <= j < |log| && log[j].Ask? ==> !log[j].hit }

  lemma {:induction false} RunInTime(limits: Limits, log: seq<Op>, states: seq<Entries>, j: nat, k: nat)
    requires IsRun(limits, log, states) && j <= k < |log|
    ensures log[j].time <= log[k].time
    decreases k
  {
    hide Step;
    if j < k {
      RunInTime(limits, log, states, j, k - 1);
      RunStep(limits, log, states, k - 1);
      RunStep(limits, log, states, k);
    }
  }

  /** Without hits the last touch is the last addition. */
  lemma {:induction false} TouchIsAdd(log: seq<Op>, key: string)
    requires NoHits(log) && WasAdded(log, key) && key != ""
    ensures 0 <= LastTouch(log, key) && log[LastTouch(log, key)].time == LastAdd(log, key)
  {
    var front, last := log[..|log| - 1], log[|log| - 1];
    assert log == front + [last];
    LogStep(front, last, key);
    if !(last.Add? && last.key == key) {
      TouchIsAdd(front, key);
    }
  }

  lemma {:induction false} BehindCount(entries: Entries, key: string)
    requires Distinct(entries) && key in KeysOf(entries)
    ensures |Behind(entries, key)| < |entries|
  {
    if entries[0].0 == key {
      KeysCount(entries[1..]);
    } else {
      BehindCount(entries[1..], key);
    }
  }

  /**
   * As long as nothing was reported, expiry is exact: a key is reported if and only if it was added less than
   * `ttl` ago and fewer than `max` other keys were added since.
   */
  lemma ExactWithoutHits(limits: Limits, log: seq<Op>, states: seq<Entries>, i: nat)
    requires IsRun(limits, log, states) && i < |log| && log[i].Ask? && NoHits(log[..i])
    ensures log[i].hit <==> Young(limits, log[..i], log[i].key, log[i].time)
  {
    hide WasAdded, LastAdd, Since, Behind, KeysOf, Distinct, LastTouch, Prune, NoHits, Lined;
    var key, now := log[i].key, log[i].time;
    CacheGuarantees(limits, log, states, i);
    RunStep(limits, log, states, i);
    if log[i].hit {
      ReportedExactly(limits, log, states, i);
      var e :| YoungBefore(limits, log[..i], states[i], key, e, now);
      var before := RunExplains(limits, log, states, i);
      assert Known(log[..i], states[i], key) && Known(log[..i], states[i], e);
      BehindCount(states[i], key);
      TouchIsAdd(log[..i], e);
      TouchIsAdd(log[..i], key);
      RunInTime(limits, log, states, LastTouch(log[..i], e), LastTouch(log[..i], key));
    }
  }

  /**
   * A hit does not renew the time but does move the key back, so an expired key can still be
   * reported while a younger one stands before it: there is no exact expiry. Here `a`, added at 0
   * with a time to live of 10, is reported at time 12.
   */
  lemma ExpiredKeyReported(a: string, b: string)
    requires a != b && a != "" && b != ""
    ensures var limits := Limits(10, 5);
      var log := [Add(a, 0), Add(b, 5), Ask(a, 6, true), Ask(a, 12, true)];
      IsRun(limits, log, [[], [(a, 0)], [(a, 0), (b, 5)], [(b, 5), (a, 0)], [(b, 5), (a, 0)]])
  {
    hide KeysOf, Without, TimeOf, Prune;
    var ea, eb := (a, 0), (b, 5);
    TwoEntries(ea, eb);
    TwoEntries(eb, ea);
    AddToNothing(ea);
    NothingPruned([ea], 0);
    NothingPruned([ea, eb], 5);
    NothingPruned([ea, eb], 6);
    NothingPruned([eb, ea], 12);
    assert [ea] + [eb] == [ea, eb] && [eb] + [ea] == [eb, ea];
  }

  lemma AddToNothing(e: (string, int))
    ensures Without([], e.0) + [e] == [e]
    ensures forall other :: other != e.0 ==> Without([e], other) == [e]
  {
    var none: Entries := [];
    assert [e][1..] == none;
  }

  lemma NothingPruned(entries: Entries, now: int)
    requires 0 < |entries| <= 5 && entries[0].1 > now - 10
    ensures Prune(entries, now, 10, 5) == entries
  {
  }

  lemma TwoEntries(e: (string, int), f: (string, int))
    requires e.0 != f.0
    ensures KeysOf([e, f]) == {e.0, f.0} && TimeOf([e, f], e.0) == e.1 && TimeOf([e, f], f.0) == f.1
    ensures Without([e, f], e.0) == [f] && Without([e, f], f.0) == [e]
  {
    var none: Entries := [];
    assert [e, f][1..] == [f] && [f][1..] == none;
    assert KeysOf([f]) == {f.0} + KeysOf(none);
    assert Without([f], f.0) == [] && Without([f], e.0) == [f];
  }
}
