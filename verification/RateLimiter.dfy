/**
 * Per-source rate limiting with eviction of idle sources (internal/core/ratelimit.go). The token bucket is the
 * documented one of golang.org/x/time/rate, counted in billionths of a token so that it stays in the integers.
 */
module RateLimiting {
  import opened Time

  datatype Identity = Identity(didKey: string, peerId: string)

  /** `tokens` were there at time `last`. */
  datatype Bucket = Bucket(rps: int, tokens: int, last: int)

  function Capacity(rps: int): int {
    rps * SECOND
  }

  function FullBucket(rps: int, now: int): Bucket {
    Bucket(rps, Capacity(rps), now)
  }

  function Min(a: int, b: int): int {
    if a < b then a else b
  }

  /** Tokens at `now`: refilled at rate rps, never above the burst, which is rps too. */
  function Level(b: Bucket, now: int): int {
    Min(Capacity(b.rps), b.tokens + (now - b.last) * b.rps)
  }

  predicate Grants(b: Bucket, now: int) {
    b.rps > 0 && Level(b, now) >= SECOND
  }

  /** A refused request leaves the bucket as it was. */
  function Taken(b: Bucket, now: int): Bucket {
    if Grants(b, now) then Bucket(b.rps, Level(b, now) - SECOND, now) else b
  }

  datatype Entry = Entry(bucket: Bucket, lastSeen: int)

  type Limiters = map<string, Entry>

  datatype Config = Config(defaultRps: int, overrides: map<string, int>)

  function RpsOf(c: Config, id: string): int {
    if id in c.overrides then c.overrides[id] else c.defaultRps
  }

  function BucketFor(c: Config, l: Limiters, id: string, now: int): Bucket {
    if id in l then l[id].bucket else FullBucket(RpsOf(c, id), now)
  }

  predicate Allowed(c: Config, l: Limiters, id: string, now: int) {
    id == "" || Grants(BucketFor(c, l, id, now), now)
  }

  function Seen(c: Config, l: Limiters, id: string, now: int): Limiters {
    if id == "" then l else l[id := Entry(Taken(BucketFor(c, l, id, now), now), now)]
  }

  const IDLE_LIMIT: int := 10 * MINUTE

  predicate Idle(e: Entry, now: int) {
    e.lastSeen < now - IDLE_LIMIT
  }

  function Cleaned(l: Limiters, now: int): Limiters {
    map id | id in l && !Idle(l[id], now) :: l[id]
  }

  class RateLimiter {
    var limiters: Limiters
    const config: Config

    /** A configured default of 0 or less means 100. */
    constructor (defaultRps: int, overrides: map<string, int>)
      ensures limiters == map[]
      ensures config == Config(if defaultRps <= 0 then 100 else defaultRps, overrides)
    {
      limiters := map[];
      config := Config(if defaultRps <= 0 then 100 else defaultRps, overrides);
    }

    method Allow(source: Identity, now: int) returns (ok: bool)
      modifies this
      ensures var id := if source.didKey != "" then source.didKey else source.peerId;
              && ok == Allowed(config, old(limiters), id, now)
              && limiters == Seen(config, old(limiters), id, now)
    {
      var id := source.didKey;
      if id == "" {
        id := source.peerId;
      }
      if id == "" {
        return true;
      }
      if id !in limiters {
        var rps := config.defaultRps;
        if id in config.overrides {
          rps := config.overrides[id];
        }
        limiters := limiters[id := Entry(FullBucket(rps, now), now)];
      }
      var bucket := limiters[id].bucket;
      ok := Grants(bucket, now);
      limiters := limiters[id := Entry(Taken(bucket, now), now)];
    }

    method Cleanup(now: int)
      modifies this
      ensures limiters == Cleaned(old(limiters), now)
    {
      var left := limiters.Keys;
      while left != {}
        invariant left <= old(limiters).Keys
        invariant limiters == map id | id in old(limiters) && (id in left || !Idle(old(limiters)[id], now)) ::
            old(limiters)[id]
      {
        var id :| id in left;
        left := left - {id};
        if Idle(limiters[id], now) {
          limiters := limiters - {id};
        }
      }
    }
  }

  // ---- Runs ----

  datatype Op = Request(id: string, at: int) | Clean(at: int)

  datatype Decision = Decision(id: string, ok: bool)

  /** Times never go back, start no earlier than `from` and end no later than `to`. */
  predicate Within(ops: seq<Op>, from: int, to: int) {
    if ops == [] then from <= to else from <= ops[0].at && Within(ops[1..], ops[0].at, to)
  }

  function After(c: Config, l: Limiters, op: Op): Limiters {
    match op
    case Request(id, at) => Seen(c, l, id, at)
    case Clean(at) => Cleaned(l, at)
  }

  function AfterAll(c: Config, l: Limiters, ops: seq<Op>): Limiters
    decreases |ops|
  {
    if ops == [] then l else AfterAll(c, After(c, l, ops[0]), ops[1..])
  }

  function Decide(c: Config, l: Limiters, op: Op): seq<Decision> {
    if op.Request? then [Decision(op.id, Allowed(c, l, op.id, op.at))] else []
  }

  /** The decisions of a run with its cleanups. */
  function Run(c: Config, l: Limiters, ops: seq<Op>): seq<Decision>
    decreases |ops|
  {
    if ops == [] then [] else Decide(c, l, ops[0]) + Run(c, After(c, l, ops[0]), ops[1..])
  }

  /** The decisions on the same requests when nothing is ever evicted. */
  function RunKeeping(c: Config, l: Limiters, ops: seq<Op>): seq<Decision>
    decreases |ops|
  {
    if ops == [] then []
    else Decide(c, l, ops[0]) + RunKeeping(c, if ops[0].Clean? then l else After(c, l, ops[0]), ops[1..])
  }

  function Granted(ds: seq<Decision>, id: string): nat {
    if ds == [] then 0 else (if ds[0] == Decision(id, true) then 1 else 0) + Granted(ds[1..], id)
  }

  // ---- Eviction cannot be noticed ----

  predicate EntryFits(rps: int, e: Entry, now: int) {
    && e.bucket.rps == rps
    && (rps > 0 ==> 0 <= e.bucket.tokens <= Capacity(rps))
    && e.bucket.last <= e.lastSeen <= now
  }

  /** What every reachable table satisfies at time `now`. */
  ghost predicate Valid(c: Config, l: Limiters, now: int) {
    forall id <- l :: EntryFits(RpsOf(c, id), l[id], now)
  }

  /** Entries that decide alike: with no rate at all the bucket's contents do not matter. */
  predicate Alike(e: Entry, f: Entry) {
    e.lastSeen == f.lastSeen && (e.bucket.rps > 0 ==> e.bucket == f.bucket)
  }

  /** The evicting table against the keeping one: what is missing has long been idle. */
  ghost predicate Hides(c: Config, l: Limiters, k: Limiters, now: int) {
    && Valid(c, l, now) && Valid(c, k, now)
    && (forall id <- l :: id in k && Alike(l[id], k[id]))
    && (forall id <- k :: id in l || Idle(k[id], now))
  }

  lemma RefillMonotone(rps: int, d: int, e: int)
    requires rps >= 0 && d <= e
    ensures d * rps <= e * rps
  {
  }

  /** A bucket idle for a second is full again; ten minutes are more than that. */
  lemma IdleIsFull(e: Entry, rps: int, now: int)
    requires EntryFits(rps, e, now) && rps > 0 && Idle(e, now)
    ensures Level(e.bucket, now) == Capacity(rps)
    ensures Taken(e.bucket, now) == Taken(FullBucket(rps, now), now)
  {
    RefillMonotone(rps, SECOND, now - e.bucket.last);
    assert (now - now) * rps == 0;
  }

  lemma TakenFits(b: Bucket, now: int)
    requires b.rps > 0 ==> 0 <= b.tokens <= Capacity(b.rps)
    requires b.last <= now
    ensures Taken(b, now).rps == b.rps && Taken(b, now).last <= now
    ensures b.rps > 0 ==> 0 <= Taken(b, now).tokens <= Capacity(b.rps)
  {
  }

  lemma RequestKeepsValid(c: Config, l: Limiters, id: string, at: int, now: int)
    requires Valid(c, l, now) && now <= at
    ensures Valid(c, Seen(c, l, id, at), at)
  {
    TakenFits(BucketFor(c, l, id, at), at);
    hide Taken, Capacity;
  }

  lemma RequestHides(c: Config, l: Limiters, k: Limiters, id: string, at: int, now: int)
    requires Hides(c, l, k, now) && now <= at
    ensures Allowed(c, l, id, at) == Allowed(c, k, id, at)
    ensures Hides(c, Seen(c, l, id, at), Seen(c, k, id, at), at)
  {
    RequestKeepsValid(c, l, id, at, now);
    RequestKeepsValid(c, k, id, at, now);
    var rps := RpsOf(c, id);
    if id in k && id !in l && rps > 0 {
      IdleIsFull(k[id], rps, at);
      assert Level(FullBucket(rps, at), at) == Capacity(rps) by { assert (at - at) * rps == 0; }
    }
    hide Level, Valid;
  }

  lemma CleanHides(c: Config, l: Limiters, k: Limiters, at: int, now: int)
    requires Hides(c, l, k, now) && now <= at
    ensures Hides(c, Cleaned(l, at), k, at)
  {
  }

  lemma {:induction false} RunsAgree(c: Config, l: Limiters, k: Limiters, ops: seq<Op>, now: int, to: int)
    requires Hides(c, l, k, now) && Within(ops, now, to)
    ensures Run(c, l, ops) == RunKeeping(c, k, ops)
    decreases |ops|
  {
    if ops != [] {
      match ops[0]
      case Request(id, at) =>
        RequestHides(c, l, k, id, at, now);
        RunsAgree(c, Seen(c, l, id, at), Seen(c, k, id, at), ops[1..], at, to);
      case Clean(at) =>
        CleanHides(c, l, k, at, now);
        RunsAgree(c, Cleaned(l, at), k, ops[1..], at, to);
    }
  }

  lemma {:induction false} ReachableValid(c: Config, l: Limiters, ops: seq<Op>, now: int, to: int)
    requires Valid(c, l, now) && Within(ops, now, to)
    ensures Valid(c, AfterAll(c, l, ops), to)
    decreases |ops|
  {
    if ops != [] {
      if ops[0].Request? {
        RequestKeepsValid(c, l, ops[0].id, ops[0].at, now);
      }
      ReachableValid(c, After(c, l, ops[0]), ops[1..], ops[0].at, to);
    }
  }

  /** From any reachable table on, whatever the rates, no run can tell that idle sources are evicted. */
  lemma EvictionInvisible(c: Config, before: seq<Op>, ops: seq<Op>, start: int, from: int, to: int)
    requires Within(before, start, from) && Within(ops, from, to)
    ensures var l := AfterAll(c, map[], before);
            Run(c, l, ops) == RunKeeping(c, l, ops)
    ensures Run(c, map[], ops) == RunKeeping(c, map[], ops)
  {
    ReachableValid(c, map[], before, start, from);
    var l := AfterAll(c, map[], before);
    RunsAgree(c, l, l, ops, from, to);
    RunsAgree(c, map[], map[], ops, from, to);
  }

  // ---- How much a source can get ----

  function LevelOf(c: Config, l: Limiters, id: string, now: int): int {
    Level(BucketFor(c, l, id, now), now)
  }

  lemma LevelGrows(c: Config, l: Limiters, id: string, now: int, at: int)
    requires Valid(c, l, now) && now <= at && RpsOf(c, id) > 0
    ensures 0 <= LevelOf(c, l, id, now) <= Capacity(RpsOf(c, id))
    ensures LevelOf(c, l, id, at) <= LevelOf(c, l, id, now) + (at - now) * RpsOf(c, id)
  {
    var rps := RpsOf(c, id);
    var last := BucketFor(c, l, id, now).last;
    RefillMonotone(rps, 0, now - last);
    RefillMonotone(rps, 0, at - now);
    assert (at - last) * rps == (at - now) * rps + (now - last) * rps;
    assert (at - at) * rps == 0 && (now - now) * rps == 0;
  }

  lemma RequestLevel(c: Config, l: Limiters, other: string, id: string, at: int)
    requires Valid(c, l, at) && RpsOf(c, id) > 0 && id != ""
    ensures LevelOf(c, Seen(c, l, other, at), id, at) ==
            LevelOf(c, l, id, at) - if other == id && Allowed(c, l, id, at) then SECOND else 0
  {
    var b := BucketFor(c, l, id, at);
    assert (at - at) * b.rps == 0;
    hide Valid;
  }

  lemma {:induction false} GrantsBounded(c: Config, l: Limiters, ops: seq<Op>, id: string, now: int, to: int)
    requires Valid(c, l, now) && Within(ops, now, to) && RpsOf(c, id) > 0 && id != ""
    ensures SECOND * Granted(RunKeeping(c, l, ops), id) <= LevelOf(c, l, id, now) + (to - now) * RpsOf(c, id)
    decreases |ops|
  {
    var rps := RpsOf(c, id);
    if ops == [] {
      LevelGrows(c, l, id, now, now);
      RefillMonotone(rps, 0, to - now);
    } else {
      var at := ops[0].at;
      LevelGrows(c, l, id, now, at);
      var l' := if ops[0].Clean? then l else After(c, l, ops[0]);
      if ops[0].Request? {
        RequestKeepsValid(c, l, ops[0].id, at, now);
        RequestLevel(c, l, ops[0].id, id, at);
      }
      GrantsBounded(c, l', ops[1..], id, at, to);
      assert (to - now) * rps == (to - at) * rps + (at - now) * rps;
      GrantedSplit(c, l, ops[0], RunKeeping(c, l', ops[1..]), id);
      hide LevelOf, Within, Valid, Seen, Allowed;
    }
  }

  lemma GrantedSplit(c: Config, l: Limiters, op: Op, later: seq<Decision>, id: string)
    ensures Granted(Decide(c, l, op) + later, id) ==
            Granted(later, id) + if op.Request? && op.id == id && Allowed(c, l, id, op.at) then 1 else 0
  {
    var ds := Decide(c, l, op) + later;
    if op.Request? {
      assert ds[1..] == later;
    } else {
      assert ds == later;
    }
  }

  /**
   * A named source is granted at most rps * (1 + T) requests in any T seconds of any run, evictions included
   * (times are in nanoseconds, so both sides are scaled by SECOND).
   */
  lemma GrantsPerWindow(c: Config, before: seq<Op>, ops: seq<Op>, id: string, start: int, from: int, to: int)
    requires Within(before, start, from) && Within(ops, from, to)
    requires RpsOf(c, id) > 0 && id != ""
    ensures var granted := Granted(Run(c, AfterAll(c, map[], before), ops), id);
            SECOND * granted <= RpsOf(c, id) * (SECOND + (to - from))
  {
    var l := AfterAll(c, map[], before);
    ReachableValid(c, map[], before, start, from);
    EvictionInvisible(c, before, ops, start, from, to);
    GrantsBounded(c, l, ops, id, from, to);
    LevelGrows(c, l, id, from, from);
    assert RpsOf(c, id) * (SECOND + (to - from)) == Capacity(RpsOf(c, id)) + (to - from) * RpsOf(c, id);
    hide LevelOf;
  }

  // ---- When exactly a request is granted ----

  /** The table after a run when nothing is ever evicted. */
  function KeptAfter(c: Config, l: Limiters, ops: seq<Op>): Limiters
    decreases |ops|
  {
    if ops == [] then l else KeptAfter(c, if ops[0].Clean? then l else After(c, l, ops[0]), ops[1..])
  }

  /** Between two moments without requests a bucket fills at its rate, or is full at the end. */
  lemma LevelStep(c: Config, l: Limiters, id: string, now: int, at: int)
    requires Valid(c, l, now) && now <= at && RpsOf(c, id) > 0
    ensures LevelOf(c, l, id, at) == Capacity(RpsOf(c, id))
            || LevelOf(c, l, id, at) == LevelOf(c, l, id, now) + (at - now) * RpsOf(c, id)
    ensures LevelOf(c, l, id, at) <= LevelOf(c, l, id, now) + (at - now) * RpsOf(c, id)
  {
    LevelGrows(c, l, id, now, at);
    var rps, last := RpsOf(c, id), BucketFor(c, l, id, now).last;
    RefillMonotone(rps, 0, at - now);
    assert (at - last) * rps == (at - now) * rps + (now - last) * rps;
    assert (at - at) * rps == 0 && (now - now) * rps == 0;
  }

  /** What one operation does to the level. */
  lemma OpLevel(c: Config, l: Limiters, op: Op, id: string, now: int)
    requires Valid(c, l, now) && now <= op.at && RpsOf(c, id) > 0 && id != ""
    ensures var l' := if op.Clean? then l else After(c, l, op);
            && Valid(c, l', op.at)
            && LevelOf(c, l', id, op.at) ==
               LevelOf(c, l, id, op.at)
               - if op.Request? && op.id == id && Allowed(c, l, id, op.at) then SECOND else 0
  {
    assert Valid(c, l, op.at);
    if op.Request? {
      RequestKeepsValid(c, l, op.id, op.at, op.at);
      RequestLevel(c, l, op.id, id, op.at);
    }
    hide LevelOf, Valid, Seen, Allowed;
  }

  /** No run leaves a bucket fuller than its rate allows for. */
  lemma {:induction false} LevelBelow(c: Config, l: Limiters, ops: seq<Op>, id: string, now: int, to: int)
    requires Valid(c, l, now) && Within(ops, now, to) && RpsOf(c, id) > 0 && id != ""
    ensures LevelOf(c, KeptAfter(c, l, ops), id, to) + SECOND * Granted(RunKeeping(c, l, ops), id)
            <= LevelOf(c, l, id, now) + (to - now) * RpsOf(c, id)
    decreases |ops|
  {
    if ops == [] {
      LevelStep(c, l, id, now, to);
    } else {
      var at, rps := ops[0].at, RpsOf(c, id);
      var l' := if ops[0].Clean? then l else After(c, l, ops[0]);
      LevelStep(c, l, id, now, at);
      OpLevel(c, l, ops[0], id, now);
      LevelBelow(c, l', ops[1..], id, at, to);
      GrantedSplit(c, l, ops[0], RunKeeping(c, l', ops[1..]), id);
      assert (to - now) * rps == (to - at) * rps + (at - now) * rps;
      hide LevelOf, Valid, Seen, Allowed;
    }
  }

  /** A moment of a run from which on the level is explained by refilling and grants alone. */
  ghost predicate Explains(c: Config, l: Limiters, ops: seq<Op>, id: string, now: int, to: int, k: nat, from: int)
    requires k <= |ops|
  {
    && Within(ops[..k], now, from) && Within(ops[k..], from, to)
    && var then' := KeptAfter(c, l, ops[..k]);
       && (LevelOf(c, then', id, from) == Capacity(RpsOf(c, id)) || (k == 0 && from == now))
       && LevelOf(c, KeptAfter(c, l, ops), id, to) ==
          LevelOf(c, then', id, from) + (to - from) * RpsOf(c, id) - SECOND * Granted(RunKeeping(c, then',
              ops[k..]), id)
  }

  /** A moment that explains the rest of a run explains the whole, if the bucket was full then. */
  lemma ExplainsLater(c: Config, l: Limiters, ops: seq<Op>, id: string, now: int, to: int, k: nat, from: int)
    requires ops != [] && k < |ops| && now <= ops[0].at
    requires var l' := if ops[0].Clean? then l else After(c, l, ops[0]);
             && Explains(c, l', ops[1..], id, ops[0].at, to, k, from)
             && LevelOf(c, KeptAfter(c, l', ops[1..][..k]), id, from) == Capacity(RpsOf(c, id))
    ensures Explains(c, l, ops, id, now, to, k + 1, from)
  {
    assert ops[..k + 1][1..] == ops[1..][..k] && ops[k + 1..] == ops[1..][k..];
    hide LevelOf, Seen;
  }

  lemma RefillSplit(rps: int, now: int, at: int, to: int)
    ensures (to - now) * rps == (to - at) * rps + (at - now) * rps
  {
  }

  /** If the level since the first operation is refilling and grants alone, so it is since the start,
      or the bucket was full. */
  lemma ExplainsFromStart(c: Config, l: Limiters, ops: seq<Op>, id: string, now: int, to: int) returns (from: int)
    requires ops != [] && Valid(c, l, now) && Within(ops, now, to) && RpsOf(c, id) > 0 && id != ""
    requires var l' := if ops[0].Clean? then l else After(c, l, ops[0]);
             LevelOf(c, KeptAfter(c, l', ops[1..]), id, to) ==
             LevelOf(c, l', id, ops[0].at) + (to - ops[0].at) * RpsOf(c, id)
             - SECOND * Granted(RunKeeping(c, l', ops[1..]), id)
    ensures Explains(c, l, ops, id, now, to, 0, from)
  {
    var at, rps := ops[0].at, RpsOf(c, id);
    LevelStep(c, l, id, now, at);
    LevelSinceFirst(c, l, ops, id, now, to);
    RefillSplit(rps, now, at, to);
    from := if LevelOf(c, l, id, at) == Capacity(rps) then at else now;
    assert LevelOf(c, KeptAfter(c, l, ops), id, to) ==
        LevelOf(c, l, id, from) + (to - from) * rps - SECOND * Granted(RunKeeping(c, l, ops), id);
    assert Within(ops, from, to) && Within([], now, from) && KeptAfter(c, l, []) == l;
    hide LevelOf, Valid, Seen, Allowed, Granted, RunKeeping, KeptAfter, Within, Capacity;
    assert ops[..0] == [] && ops[0..] == ops;
  }

  lemma LevelSinceFirst(c: Config, l: Limiters, ops: seq<Op>, id: string, now: int, to: int)
    requires ops != [] && Valid(c, l, now) && Within(ops, now, to) && RpsOf(c, id) > 0 && id != ""
    requires var l' := if ops[0].Clean? then l else After(c, l, ops[0]);
             LevelOf(c, KeptAfter(c, l', ops[1..]), id, to) ==
             LevelOf(c, l', id, ops[0].at) + (to - ops[0].at) * RpsOf(c, id)
             - SECOND * Granted(RunKeeping(c, l', ops[1..]), id)
    ensures LevelOf(c, KeptAfter(c, l, ops), id, to) ==
            LevelOf(c, l, id, ops[0].at) + (to - ops[0].at) * RpsOf(c, id) - SECOND * Granted(RunKeeping(c, l, ops), id)
  {
    var l' := if ops[0].Clean? then l else After(c, l, ops[0]);
    OpLevel(c, l, ops[0], id, now);
    GrantedSplit(c, l, ops[0], RunKeeping(c, l', ops[1..]), id);
    assert RunKeeping(c, l, ops) == Decide(c, l, ops[0]) + RunKeeping(c, l', ops[1..]);
    assert KeptAfter(c, l, ops) == KeptAfter(c, l', ops[1..]);
    hide LevelOf, Valid, Seen, Allowed, Granted, RunKeeping, KeptAfter, Decide, Within;
  }

  lemma ExplainsNothing(c: Config, l: Limiters, id: string, now: int, to: int) returns (from: int)
    requires Valid(c, l, now) && now <= to && RpsOf(c, id) > 0
    ensures Explains(c, l, [], id, now, to, 0, from)
  {
    LevelStep(c, l, id, now, to);
    from := if LevelOf(c, l, id, to) == Capacity(RpsOf(c, id)) then to else now;
    assert (to - to) * RpsOf(c, id) == 0;
    var none: seq<Op> := [];
    assert none[..0] == none && none[0..] == none;
    hide LevelOf, Valid;
  }

  /** There is one: the last moment at which the bucket was full, or the start. */
  lemma {:induction false} LevelExplained(c: Config, l: Limiters, ops: seq<Op>, id: string, now: int, to: int)
      returns (k: nat, from: int)
    requires Valid(c, l, now) && Within(ops, now, to) && RpsOf(c, id) > 0 && id != ""
    ensures k <= |ops| && Explains(c, l, ops, id, now, to, k, from)
    decreases |ops|
  {
    hide LevelOf, Valid, Seen, Allowed, KeptAfter, RunKeeping;
    k := 0;
    if ops == [] {
      from := ExplainsNothing(c, l, id, now, to);
    } else {
      var at := ops[0].at;
      var l' := if ops[0].Clean? then l else After(c, l, ops[0]);
      OpLevel(c, l, ops[0], id, now);
      var k', from' := LevelExplained(c, l', ops[1..], id, at, to);
      if LevelOf(c, KeptAfter(c, l', ops[1..][..k']), id, from') == Capacity(RpsOf(c, id)) {
        ExplainsLater(c, l, ops, id, now, to, k', from');
        k, from := k' + 1, from';
      } else {
        AtTheStart(c, l', ops[1..], id, at, to);
        from := ExplainsFromStart(c, l, ops, id, now, to);
      }
    }
  }

  /** Spelled out for the start of a run. */
  lemma AtTheStart(c: Config, l: Limiters, ops: seq<Op>, id: string, now: int, to: int)
    requires Explains(c, l, ops, id, now, to, 0, now)
    ensures LevelOf(c, KeptAfter(c, l, ops), id, to) ==
            LevelOf(c, l, id, now) + (to - now) * RpsOf(c, id) - SECOND * Granted(RunKeeping(c, l, ops), id)
  {
    assert ops[..0] == [] && ops[0..] == ops;
  }

  /** One more grant at the end of the window from `from` on still fits the rate. */
  ghost predicate Fits(c: Config, ops: seq<Op>, id: string, start: int, at: int, k: nat, from: int)
    requires k <= |ops|
  {
    Within(ops[..k], start, from) && Within(ops[k..], from, at) ==>
      var granted := Granted(RunKeeping(c, KeptAfter(c, map[], ops[..k]), ops[k..]), id);
      SECOND * (granted + 1) <= RpsOf(c, id) * (SECOND + (at - from))
  }

  lemma LevelOfNothing(c: Config, id: string, now: int)
    requires RpsOf(c, id) > 0
    ensures LevelOf(c, map[], id, now) == Capacity(RpsOf(c, id))
  {
    assert (now - now) * RpsOf(c, id) == 0;
  }

  lemma {:induction false} KeptValid(c: Config, l: Limiters, ops: seq<Op>, now: int, to: int)
    requires Valid(c, l, now) && Within(ops, now, to)
    ensures Valid(c, KeptAfter(c, l, ops), to)
    decreases |ops|
  {
    if ops != [] {
      if ops[0].Request? {
        RequestKeepsValid(c, l, ops[0].id, ops[0].at, now);
      }
      KeptValid(c, if ops[0].Clean? then l else After(c, l, ops[0]), ops[1..], ops[0].at, to);
    }
  }

  lemma {:induction false} KeptSplit(c: Config, l: Limiters, ops: seq<Op>, k: nat)
    requires k <= |ops|
    ensures KeptAfter(c, l, ops) == KeptAfter(c, KeptAfter(c, l, ops[..k]), ops[k..])
    decreases k
  {
    if k == 0 {
      assert ops[..0] == [] && ops[0..] == ops;
    } else {
      KeptSplit(c, if ops[0].Clean? then l else After(c, l, ops[0]), ops[1..], k - 1);
      assert ops[..k][1..] == ops[1..][..k - 1] && ops[k..] == ops[1..][k - 1..];
    }
  }

  lemma {:induction false} HidesAfter(c: Config, l: Limiters, k: Limiters, ops: seq<Op>, now: int, to: int)
    requires Hides(c, l, k, now) && Within(ops, now, to)
    ensures Hides(c, AfterAll(c, l, ops), KeptAfter(c, k, ops), to)
    decreases |ops|
  {
    if ops != [] {
      match ops[0]
      case Request(id, at) =>
        RequestHides(c, l, k, id, at, now);
        HidesAfter(c, Seen(c, l, id, at), Seen(c, k, id, at), ops[1..], at, to);
      case Clean(at) =>
        CleanHides(c, l, k, at, now);
        HidesAfter(c, Cleaned(l, at), k, ops[1..], at, to);
    }
  }

  /** The decision without evictions, from the levels. */
  lemma GrantedExactlyKept(c: Config, ops: seq<Op>, id: string, start: int, at: int)
    requires Within(ops, start, at) && RpsOf(c, id) > 0 && id != ""
    ensures Allowed(c, KeptAfter(c, map[], ops), id, at)
            <==> forall k: nat, from | k <= |ops| :: Fits(c, ops, id, start, at, k, from)
  {
    var rps, last := RpsOf(c, id), KeptAfter(c, map[], ops);
    assert Allowed(c, last, id, at) <==> LevelOf(c, last, id, at) >= SECOND by {
      KeptValid(c, map[], ops, start, at);
    }
    if LevelOf(c, last, id, at) >= SECOND {
      forall k: nat, from | k <= |ops| ensures Fits(c, ops, id, start, at, k, from) {
        GrantFits(c, ops, id, start, at, k, from);
      }
    } else {
      var k, from := LevelExplained(c, map[], ops, id, start, at);
      assert ops[..0] == [];
      LevelOfNothing(c, id, start);
      assert rps * (SECOND + (at - from)) == Capacity(rps) + (at - from) * rps;
      assert !Fits(c, ops, id, start, at, k, from);
    }
  }

  lemma GrantFits(c: Config, ops: seq<Op>, id: string, start: int, at: int, k: nat, from: int)
    requires Within(ops, start, at) && RpsOf(c, id) > 0 && id != "" && k <= |ops|
    requires LevelOf(c, KeptAfter(c, map[], ops), id, at) >= SECOND
    ensures Fits(c, ops, id, start, at, k, from)
  {
    if Within(ops[..k], start, from) && Within(ops[k..], from, at) {
      var rps, then' := RpsOf(c, id), KeptAfter(c, map[], ops[..k]);
      KeptValid(c, map[], ops[..k], start, from);
      KeptSplit(c, map[], ops, k);
      LevelBelow(c, then', ops[k..], id, from, at);
      LevelGrows(c, then', id, from, from);
      assert rps * (SECOND + (at - from)) == Capacity(rps) + (at - from) * rps;
    }
    hide LevelOf, Valid;
  }

  /** In the stretch of the run from `from` on, the grants and one more are at most rps * (1 + T). */
  ghost predicate StretchFits(
    c: Config, ops: seq<Op>, id: string, rps: int, start: int, at: int, k: nat, from: int)
    requires k <= |ops|
  {
    Within(ops[..k], start, from) && Within(ops[k..], from, at) ==>
      var granted := Granted(Run(c, AfterAll(c, map[], ops[..k]), ops[k..]), id);
      1_000_000_000 * (granted + 1) <= rps * (1_000_000_000 + (at - from))
  }

  lemma StretchesAgree(c: Config, ops: seq<Op>, id: string, start: int, at: int, k: nat, from: int)
    requires k <= |ops|
    ensures Fits(c, ops, id, start, at, k, from) <==> StretchFits(c, ops, id, RpsOf(c, id), start, at, k, from)
  {
    if Within(ops[..k], start, from) && Within(ops[k..], from, at) {
      HidesAfter(c, map[], map[], ops[..k], start, from);
      RunsAgree(c, AfterAll(c, map[], ops[..k]), KeptAfter(c, map[], ops[..k]), ops[k..], from, at);
    }
    hide Hides, Run, RunKeeping, AfterAll, KeptAfter;
  }

  /**
   * The law of the limiter. After any run, evictions included, a request of a named source is granted if and only if,
   * looking back from it over any stretch of T seconds of the run, the grants in it and this one are at most
   * rps * (1 + T), where rps is the source's override or the default. A rate of 0 or less grants nothing, and nameless
   * sources are never refused.
   */
  lemma GrantedExactly(c: Config, ops: seq<Op>, id: string, start: int, at: int)
    requires Within(ops, start, at)
    ensures var rps := if id in c.overrides then c.overrides[id] else c.defaultRps;
            Allowed(c, AfterAll(c, map[], ops), id, at) <==>
              id == "" || (rps > 0 && forall k: nat, from | k <= |ops| ::
                  StretchFits(c, ops, id, rps, start, at, k, from))
  {
    if id != "" {
      HidesAfter(c, map[], map[], ops, start, at);
      RequestHides(c, AfterAll(c, map[], ops), KeptAfter(c, map[], ops), id, at, at);
      if RpsOf(c, id) <= 0 {
        NoRateNoGrant(c, ops, id, start, at);
      }
      hide Hides, AfterAll, KeptAfter, StretchFits, Fits;
      if RpsOf(c, id) > 0 {
        hide Allowed;
        GrantedExactlyKept(c, ops, id, start, at);
        forall k: nat, from | k <= |ops|
          ensures Fits(c, ops, id, start, at, k, from) <==> StretchFits(c, ops, id, RpsOf(c, id), start, at, k, from) {
          StretchesAgree(c, ops, id, start, at, k, from);
        }
      }
    }
  }

  lemma NoRateNoGrant(c: Config, ops: seq<Op>, id: string, start: int, at: int)
    requires Within(ops, start, at) && id != "" && RpsOf(c, id) <= 0
    ensures !Allowed(c, AfterAll(c, map[], ops), id, at)
  {
    ReachableValid(c, map[], ops, start, at);
    hide AfterAll, Level;
  }

  /** Cleanup keeps exactly the sources seen in the last ten minutes, with their buckets. */
  lemma CleanedExactly(l: Limiters, now: int)
    ensures forall id :: id in Cleaned(l, now) <==> id in l && l[id].lastSeen >= now - 600_000_000_000
    ensures forall id <- Cleaned(l, now) :: Cleaned(l, now)[id] == l[id]
  {
  }
}
