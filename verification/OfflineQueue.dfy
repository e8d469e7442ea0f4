/**
 * Messages kept for disconnected peers, stamped for expiry and flushed on reconnect (internal/a2a/offline_queue.go).
 */
module OfflineQueueing {
  import opened BigEndian
  import opened Storage
  import opened Time

  type Bytes = seq<Byte>
  type Queue = map<string, Bytes>

  const UINT64_RANGE: int := 0x1_0000_0000_0000_0000

  /** The zero time.Time in Unix seconds; an entry with this stamp, or without a stamp, never expires. */
  const ZERO_TIME: int := -62135596800

  type Seconds = s: int | -INT64_MAX - 1 <= s <= INT64_MAX

  function Stamp(sec: Seconds, data: Bytes): Bytes {
    Encode(if sec < 0 then sec + UINT64_RANGE else sec, 8) + data
  }

  function ToInt64(n: nat): (s: Seconds)
    requires n < UINT64_RANGE
  {
    if n > INT64_MAX then n - UINT64_RANGE else n
  }

  function Unstamp(raw: Bytes): (Seconds, Bytes) {
    if |raw| < 8 then (ZERO_TIME, raw)
    else
      EncodeDecode(raw[..8]);
      Widths();
      (ToInt64(Decode(raw[..8])), raw[8..])
  }

  /** time.Since in nanoseconds, saturated at the ends of the 64-bit duration. */
  function Since(ts: Seconds, now: int): int {
    var d := now - ts * SECOND;
    if d > INT64_MAX then INT64_MAX else if d < -INT64_MAX - 1 then -INT64_MAX - 1 else d
  }

  predicate IsExpired(ttl: int, ts: Seconds, now: int) {
    ttl != 0 && ts != ZERO_TIME && Since(ts, now) > ttl
  }

  function Key(peer: string, envelope: string): string {
    peer + "/" + envelope
  }

  predicate Belongs(key: string, peer: string) {
    peer + "/" <= key
  }

  predicate SlashFree(peer: string) {
    '/' !in peer
  }

  function NowSeconds(now: int): Seconds
    requires 0 <= now <= INT64_MAX
  {
    now / SECOND
  }

  function Enqueued(q: Queue, peer: string, envelope: string, data: Bytes, now: int): Queue
    requires 0 <= now <= INT64_MAX
  {
    q[Key(peer, envelope) := Stamp(NowSeconds(now), data)]
  }

  predicate Stale(q: Queue, key: string, ttl: int, now: int)
    requires key in q
  {
    IsExpired(ttl, Unstamp(q[key]).0, now)
  }

  /** The peer's and not expired: what a flush of the peer tries to send. */
  predicate IsLive(q: Queue, key: string, peer: string, ttl: int, now: int)
    requires key in q
  {
    Belongs(key, peer) && !Stale(q, key, ttl, now)
  }

  function Live(q: Queue, peer: string, ttl: int, now: int): set<string> {
    set key | key in q && IsLive(q, key, peer, ttl, now)
  }

  /** `sends` and `deletes` tell which sends and which store deletes succeed. */
  predicate Removed(q: Queue, key: string, peer: string, ttl: int, now: int, sends: string -> bool,
      deletes: string -> bool)
    requires key in q
  {
    Belongs(key, peer) && deletes(key) && (Stale(q, key, ttl, now) || sends(key))
  }

  /** What a flush leaves behind. */
  function Flushed(q: Queue, peer: string, ttl: int, now: int, sends: string -> bool, deletes: string -> bool): Queue {
    map key | key in q && !Removed(q, key, peer, ttl, now, sends, deletes) :: q[key]
  }

  datatype Attempt = Attempt(key: string, data: Bytes)

  class OfflineQueue {
    const store: Store
    const ttl: int

    constructor (store: Store, ttl: int)
      ensures this.store == store && this.ttl == ttl
    {
      this.store, this.ttl := store, ttl;
    }

    method StampData(sec: Seconds, data: Bytes) returns (buf: array<Byte>)
      ensures fresh(buf) && buf[..] == Stamp(sec, data)
    {
      buf := new Byte[8 + |data|];
      var header := Encode(if sec < 0 then sec + UINT64_RANGE else sec, 8);
      for i := 0 to 8
        invariant buf[..i] == header[..i]
      {
        buf[i] := header[i];
      }
      for i := 0 to |data|
        invariant buf[..8] == header && buf[8..8 + i] == data[..i]
      {
        buf[8 + i] := data[i];
        assert buf[8..8 + i + 1] == buf[8..8 + i] + [data[i]];
      }
      assert buf[..] == buf[..8] + buf[8..8 + |data|];
    }

    method Enqueue(peer: string, envelope: string, data: Bytes, now: int, ok: bool) returns (stored: bool)
      requires 0 <= now <= INT64_MAX
      modifies store`queue
      ensures stored == ok
      ensures store.queue == if ok then Enqueued(old(store.queue), peer, envelope, data, now) else old(store.queue)
    {
      var stamped := StampData(NowSeconds(now), data);
      store.EnqueueMessage(Key(peer, envelope), stamped[..], ok);
      stored := ok;
    }

    /** `listOk`, `sends` and `deletes` are how the store and the network answer; `now` is the clock throughout. */
    method FlushQueue(peer: string, now: int, listOk: bool, sends: string -> bool, deletes: string -> bool)
        returns (noError: bool, attempts: seq<Attempt>)
      modifies store`queue
      ensures !listOk ==> !noError && attempts == [] && store.queue == old(store.queue)
      ensures listOk ==> store.queue == Flushed(old(store.queue), peer, ttl, now, sends, deletes)
      ensures listOk ==> Lists(attempts, old(store.queue), Live(old(store.queue), peer, ttl, now))
      ensures listOk ==> (noError
          <==> forall key <- Live(old(store.queue), peer, ttl, now) :: sends(key) && deletes(key))
    {
      attempts := [];
      if !listOk {
        return false, [];
      }
      noError := true;
      var all := store.queue;
      var left := all.Keys;
      while left != {}
        invariant left <= all.Keys
        invariant store.queue == all - (set key | key in all && key !in left
            && Removed(all, key, peer, ttl, now, sends, deletes))
        invariant Lists(attempts, all, set key | key in all && key !in left && IsLive(all, key, peer, ttl, now))
        invariant noError <==>
          forall key | key in all && key !in left :: IsLive(all, key, peer, ttl, now) ==> sends(key) && deletes(key)
      {
        var key :| key in left;
        hide Lists, IsLive, Removed;
        var attempt, ok := FlushOne(peer, all, key, now, sends, deletes);
        ghost var before := set k | k in all && k !in left && IsLive(all, k, peer, ttl, now);
        ghost var after := set k | k in all && k !in left - {key} && IsLive(all, k, peer, ttl, now);
        if IsLive(all, key, peer, ttl, now) {
          ListsMore(attempts, all, before, key);
          assert after == before + {key};
        } else {
          assert after == before && attempts + attempt == attempts;
        }
        attempts, noError, left := attempts + attempt, noError && ok, left - {key};
      }
      assert Live(all, peer, ttl, now) == set key | key in all && key !in left && IsLive(all, key, peer, ttl, now);
    }

    /** The loop's body for one listed entry; `ok` is false when it leaves an error behind. */
    method FlushOne(peer: string, all: Queue, key: string, now: int, sends: string -> bool, deletes: string -> bool)
        returns (attempt: seq<Attempt>, ok: bool)
      requires key in all
      modifies store`queue
      ensures store.queue ==
              if Removed(all, key, peer, ttl, now, sends, deletes) then old(store.queue) - {key} else old(store.queue)
      ensures attempt == if IsLive(all, key, peer, ttl, now) then [Attempt(key, Unstamp(all[key]).1)] else []
      ensures ok <==> (IsLive(all, key, peer, ttl, now) ==> sends(key) && deletes(key))
    {
      attempt, ok := [], true;
      if !Belongs(key, peer) {
        return;
      }
      var (ts, data) := Unstamp(all[key]);
      if IsExpired(ttl, ts, now) {
        store.DequeueMessage(key, deletes(key));
        return;
      }
      attempt := [Attempt(key, data)];
      if !sends(key) {
        return attempt, false;
      }
      store.DequeueMessage(key, deletes(key));
      ok := deletes(key);
    }

    method QueuedCount(peer: string, now: int, listOk: bool) returns (count: nat, ok: bool)
      ensures ok == listOk
      ensures count == if listOk then |Live(store.queue, peer, ttl, now)| else 0
    {
      if !listOk {
        return 0, false;
      }
      count, ok := 0, true;
      var all := store.queue;
      var left := all.Keys;
      while left != {}
        invariant left <= all.Keys
        invariant count == |Live(all - left, peer, ttl, now)|
      {
        var key :| key in left;
        ghost var done := all - left;
        left := left - {key};
        assert Live(all - left, peer, ttl, now) ==
               Live(done, peer, ttl, now) + if Belongs(key, peer) && !Stale(all, key, ttl, now) then {key} else {};
        if Belongs(key, peer) && !IsExpired(ttl, Unstamp(all[key]).0, now) {
          count := count + 1;
        }
      }
      assert all - {} == all;
    }
  }

  /** Each of `keys` attempted exactly once, with its own unstamped payload, and nothing else attempted. */
  ghost predicate Lists(attempts: seq<Attempt>, q: Queue, keys: set<string>) {
    && (forall i, j | 0 <= i < j < |attempts| :: attempts[i].key != attempts[j].key)
    && (forall i | 0 <= i < |attempts| ::
        var a := attempts[i]; a.key in q && a.key in keys && a.data == Unstamp(q[a.key]).1)
    && (forall key <- keys :: exists i :: 0 <= i < |attempts| && attempts[i].key == key)
  }

  lemma ListsMore(attempts: seq<Attempt>, q: Queue, keys: set<string>, key: string)
    requires Lists(attempts, q, keys) && key in q && key !in keys
    ensures Lists(attempts + [Attempt(key, Unstamp(q[key]).1)], q, keys + {key})
  {
    var longer := attempts + [Attempt(key, Unstamp(q[key]).1)];
    forall k <- keys + {key} ensures exists i :: 0 <= i < |longer| && longer[i].key == k {
      if k in keys {
        var i :| 0 <= i < |attempts| && attempts[i].key == k;
        assert longer[i].key == k;
      } else {
        assert longer[|attempts|].key == k;
      }
    }
  }

  // ---- The stamp ----

  /** Every payload and every second count, negative ones included, survive the stamp. */
  lemma UnstampStamp(sec: Seconds, data: Bytes)
    ensures Unstamp(Stamp(sec, data)) == (sec, data)
  {
    var n := if sec < 0 then sec + UINT64_RANGE else sec;
    Widths();
    DecodeEncode(n, 8);
    assert Stamp(sec, data)[..8] == Encode(n, 8);
  }

  /**
   * An entry stored at `stored` is expired exactly when its age, counted from the start of the second it was
   * stored in, exceeds the TTL: never before its true age exceeds ttl - 1 s, and always once it exceeds ttl.
   */
  lemma ExpiryBound(data: Bytes, stored: int, now: int, ttl: int)
    requires 0 <= stored <= now <= INT64_MAX && -INT64_MAX <= ttl <= INT64_MAX && ttl != 0
    ensures var expired := IsExpired(ttl, Unstamp(Stamp(NowSeconds(stored), data)).0, now);
            && (expired <==> now - stored + stored % SECOND > ttl)
            && (expired ==> now - stored > ttl - SECOND)
            && (now - stored > ttl ==> expired)
  {
    UnstampStamp(NowSeconds(stored), data);
  }

  /**
   * What Enqueue leaves: under "peer/envelope", and nowhere else, the seconds of the clock, most significant byte
   * first, followed by the payload.
   */
  lemma EnqueuedEntry(q: Queue, peer: string, envelope: string, data: Bytes, now: int)
    requires 0 <= now <= INT64_MAX
    ensures var q', key, sec := Enqueued(q, peer, envelope, data, now), peer + "/" + envelope, now / 1_000_000_000;
            && q'.Keys == q.Keys + {key}
            && (forall other <- q | other != key :: q'[other] == q[other])
            && q'[key] == LowBytes(sec / 0x1_0000_0000) + LowBytes(sec) + data
  {
    BigEndianBytes(now / 1_000_000_000);
  }

  /**
   * The entry that Enqueue stores is treated as expired by a flush or a count exactly when its age, counted from the
   * start of the second it was stored in, exceeds the TTL; with a TTL of 0 it never is.
   */
  lemma StoredEntryExpires(
    q: Queue, peer: string, envelope: string, data: Bytes, stored: int, now: int, ttl: int, sends: string -> bool)
    requires 0 <= stored <= now <= INT64_MAX && -INT64_MAX <= ttl <= INT64_MAX
    ensures var q', key := Enqueued(q, peer, envelope, data, stored), peer + "/" + envelope;
            var old' := ttl != 0 && now - stored + stored % 1_000_000_000 > ttl;
            && (key in Live(q', peer, ttl, now) <==> !old')
            && (key in Flushed(q', peer, ttl, now, sends, _ => true) <==> !old' && !sends(key))
            && Unstamp(q'[key]).1 == data
  {
    UnstampStamp(NowSeconds(stored), data);
    if ttl != 0 {
      ExpiryBound(data, stored, now, ttl);
    }
    hide Stamp, Unstamp;
  }

  /** An entry too short to hold a stamp is all payload and never expires, whatever the TTL; nor does year 1. */
  lemma UnstampedNeverExpires(raw: Bytes, ttl: int, now: int)
    ensures |raw| < 8 ==> Unstamp(raw).1 == raw && !IsExpired(ttl, Unstamp(raw).0, now)
    ensures |raw| >= 8 ==> Unstamp(raw).1 == raw[8..]
    ensures !IsExpired(ttl, -62_135_596_800, now)
  {
  }

  // ---- Keys ----

  function PeerOf(key: string): string {
    if key == "" || key[0] == '/' then "" else [key[0]] + PeerOf(key[1..])
  }

  lemma {:induction false} PeerOfKey(peer: string, envelope: string)
    requires SlashFree(peer)
    ensures PeerOf(Key(peer, envelope)) == peer
  {
    if peer != "" {
      assert Key(peer, envelope)[1..] == Key(peer[1..], envelope);
      PeerOfKey(peer[1..], envelope);
    }
  }

  /** Peer ids hold no slash, so a key's prefix tells its peer even when one peer id is a prefix of another. */
  lemma KeyTellsPeer(peer: string, other: string, envelope: string)
    requires SlashFree(peer) && SlashFree(other)
    ensures Belongs(Key(other, envelope), peer) <==> peer == other
  {
    var key := Key(other, envelope);
    PeerOfKey(other, envelope);
    if Belongs(key, peer) {
      PeerOfKey(peer, key[|peer| + 1..]);
      assert key == Key(peer, key[|peer| + 1..]);
    }
  }

  lemma KeyInjective(peer: string, envelope: string, peer': string, envelope': string)
    requires SlashFree(peer) && SlashFree(peer') && Key(peer, envelope) == Key(peer', envelope')
    ensures peer == peer' && envelope == envelope'
  {
    PeerOfKey(peer, envelope);
    PeerOfKey(peer', envelope');
    assert Key(peer, envelope)[|peer| + 1..] == envelope;
    assert Key(peer', envelope')[|peer'| + 1..] == envelope';
  }

  /** Made for a peer, whose id holds no slash. */
  ghost predicate IsKeyed(key: string) {
    exists peer, envelope :: SlashFree(peer) && key == Key(peer, envelope)
  }

  /** Every entry of the queue was. */
  ghost predicate WellKeyed(q: Queue) {
    forall key <- q :: IsKeyed(key)
  }

  lemma EnqueueKeepsWellKeyed(q: Queue, peer: string, envelope: string, data: Bytes, now: int)
    requires WellKeyed(q) && SlashFree(peer) && 0 <= now <= INT64_MAX
    ensures WellKeyed(Enqueued(q, peer, envelope, data, now))
  {
    hide Stamp;
  }

  /** A key made for a peer tells which one. */
  lemma BelongsToItsPeer(key: string, peer: string)
    requires IsKeyed(key) && SlashFree(peer)
    ensures Belongs(key, peer) <==> PeerOf(key) == peer
  {
    var owner, envelope :| SlashFree(owner) && key == Key(owner, envelope);
    PeerOfKey(owner, envelope);
    KeyTellsPeer(peer, owner, envelope);
  }

  // ---- What one flush does ----

  /**
   * Over every entry made for some peer, which in a well-keyed queue are all of them: one flush removes exactly the
   * flushed peer's entries that are expired or were sent, provided their delete succeeds, and changes no other. What
   * QueuedCount then counts are the live entries still there.
   */
  lemma FlushEffect(q: Queue, peer: string, ttl: int, now: int, sends: string -> bool, deletes: string -> bool)
    requires SlashFree(peer)
    ensures var q' := Flushed(q, peer, ttl, now, sends, deletes);
            && (WellKeyed(q) ==> WellKeyed(q'))
            && (forall key | IsKeyed(key) :: key in q' <==>
                  key in q && !(PeerOf(key) == peer && (Stale(q, key, ttl, now) || sends(key)) && deletes(key)))
            && (forall key <- q' :: q'[key] == q[key])
            && Live(q', peer, ttl, now) == set key | key in Live(q, peer, ttl, now) && !(sends(key) && deletes(key))
  {
    forall key | IsKeyed(key) ensures Belongs(key, peer) <==> PeerOf(key) == peer {
      BelongsToItsPeer(key, peer);
    }
    hide PeerOf, IsExpired, IsKeyed;
  }

  /** A second flush whose sends all succeed empties what the first one left, and touches nothing else. */
  lemma FlushTwice(q: Queue, peer: string, ttl: int, now: int, sends: string -> bool)
    ensures var q' := Flushed(q, peer, ttl, now, sends, _ => true);
            var q'' := Flushed(q', peer, ttl, now, _ => true, _ => true);
            Live(q'', peer, ttl, now) == {} && q'' == map key | key in q && !Belongs(key, peer) :: q[key]
  {
  }
}
