/** Outgoing messages that wait for an ACK, and one retry pass over them (internal/a2a/ack_tracker.go). */
module AckTracking {
  import opened BigEndian
  import opened Time

  const BASE_INTERVAL: int := 2 * SECOND
  const MAX_RETRIES: nat := 3

  datatype Pending = Pending(target: string, data: seq<Byte>, retries: nat, nextRetry: int)

  type Table = map<string, Pending>

  /** What a retry pass carries outside the lock. */
  datatype Item = Item(id: string, target: string, data: seq<Byte>)

  function Shl(k: nat): (p: nat)
    ensures p >= 1
  {
    if k == 0 then 1 else 2 * Shl(k - 1)
  }

  predicate Due(pm: Pending, now: int) {
    now >= pm.nextRetry
  }

  predicate Expires(pm: Pending, now: int) {
    Due(pm, now) && pm.retries >= MAX_RETRIES
  }

  predicate Retries(pm: Pending, now: int) {
    Due(pm, now) && pm.retries < MAX_RETRIES
  }

  function ItemOf(t: Table, id: string): Item
    requires id in t
  {
    Item(id, t[id].target, t[id].data)
  }

  function Tracked(t: Table, id: string, target: string, data: seq<Byte>, now: int): Table {
    t[id := Pending(target, data, 0, now + BASE_INTERVAL)]
  }

  function Bumped(pm: Pending, now: int): Pending {
    pm.(retries := pm.retries + 1, nextRetry := now + BASE_INTERVAL * Shl(pm.retries + 1))
  }

  /** The locked update after a resend; it does nothing when the message was acknowledged meanwhile. */
  function Resent(t: Table, id: string, now: int): Table {
    if id in t then t[id := Bumped(t[id], now)] else t
  }

  ghost predicate Distinct(items: seq<Item>) {
    forall i, j | 0 <= i < j < |items| :: items[i].id != items[j].id
  }

  ghost function Ids(items: seq<Item>): set<string> {
    set item | item in items :: item.id
  }

  lemma IdsAppend(items: seq<Item>, item: Item)
    ensures Ids(items + [item]) == Ids(items) + {item.id}
    ensures Distinct(items) && item.id !in Ids(items) ==> Distinct(items + [item])
  {
    var longer := items + [item];
    assert longer[|items|] == item;
    forall other | other in items ensures other in longer {
    }
    if Distinct(items) && item.id !in Ids(items) {
      forall i, j | 0 <= i < j < |longer| ensures longer[i].id != longer[j].id {
        assert items[i] in items;
      }
    }
  }

  /** The first locked section of a pass: what is due, split by retries left, in any order. */
  ghost predicate IsCollection(t: Table, now: int, toRetry: seq<Item>, expired: seq<Item>) {
    && Distinct(toRetry) && Distinct(expired)
    && Ids(toRetry) == (set id | id in t && Retries(t[id], now))
    && Ids(expired) == (set id | id in t && Expires(t[id], now))
    && (forall item | item in toRetry || item in expired :: item.id in t && item == ItemOf(t, item.id))
  }

  /** A pass takes up exactly the messages whose time has come: with three resends behind them they expire. */
  lemma CollectedExactly(t: Table, now: int, toRetry: seq<Item>, expired: seq<Item>, id: string)
    requires IsCollection(t, now, toRetry, expired)
    ensures id in Ids(toRetry) <==> id in t && now >= t[id].nextRetry && t[id].retries < 3
    ensures id in Ids(expired) <==> id in t && now >= t[id].nextRetry && t[id].retries >= 3
  {
  }

  /**
   * A whole pass when `acked` arrived during its unlocked gaps and nothing new was tracked; `at` gives the
   * time of each update.
   */
  ghost predicate IsPass(t: Table, now: int, acked: set<string>, at: string -> int, t': Table) {
    && t'.Keys == (set id | id in t && !Expires(t[id], now)) - acked
    && (forall id <- t' :: t'[id] == if Retries(t[id], now) then Bumped(t[id], at(id)) else t[id])
  }

  class AckTracker {
    var pending: Table

    constructor ()
      ensures fresh(this) && pending == map[]
    {
      pending := map[];
    }

    method Track(target: string, id: string, data: seq<Byte>, now: int)
      modifies this
      ensures pending == Tracked(old(pending), id, target, data, now)
    {
      pending := pending[id := Pending(target, data, 0, now + BASE_INTERVAL)];
    }

    method Acknowledge(id: string) returns (found: bool)
      modifies this
      ensures found == (id in old(pending))
      ensures pending == old(pending) - {id}
    {
      if id in pending {
        pending := pending - {id};
        return true;
      }
      return false;
    }

    method Collect(now: int) returns (toRetry: seq<Item>, expired: seq<Item>)
      modifies this
      ensures IsCollection(old(pending), now, toRetry, expired)
      ensures pending == old(pending) - Ids(expired)
    {
      toRetry, expired := [], [];
      var left := pending.Keys;
      while left != {}
        invariant left <= pending.Keys && pending == old(pending)
        invariant Distinct(toRetry) && Distinct(expired)
        invariant Ids(toRetry) == (set id | id in pending && id !in left && Retries(pending[id], now))
        invariant Ids(expired) == (set id | id in pending && id !in left && Expires(pending[id], now))
        invariant forall item | item in toRetry || item in expired ::
            item.id in pending && item == ItemOf(pending, item.id)
      {
        var id :| id in left;
        left := left - {id};
        var pm := pending[id];
        var item := ItemOf(pending, id);
        if now < pm.nextRetry {
          // Not due yet.
        } else if pm.retries >= MAX_RETRIES {
          IdsAppend(expired, item);
          expired := expired + [item];
        } else {
          IdsAppend(toRetry, item);
          toRetry := toRetry + [item];
        }
      }
      for i := 0 to |expired|
        invariant pending == old(pending) - Ids(expired[..i])
      {
        assert expired[..i + 1] == expired[..i] + [expired[i]];
        IdsAppend(expired[..i], expired[i]);
        pending := pending - {expired[i].id};
      }
      assert expired[..|expired|] == expired;
    }

    /** While the send is outside the lock others acknowledge `acks`, then track `tracks`; then the locked update. */
    method ResendOne(id: string, acks: set<string>, tracks: Table, now: int)
      modifies this
      ensures pending == Resent(old(pending) - acks + tracks, id, now)
    {
      pending := pending - acks + tracks;
      if id in pending {
        pending := pending[id := Bumped(pending[id], now)];
      }
    }

    /**
     * One tick of the retry loop. `acks(i)` are the ids acknowledged and `tracks(i)` the messages newly tracked while
     * the i-th resend is outside the lock, `clock(i)` is the time at its update. Returns the callback calls and the
     * sends, in order.
     */
    method ProcessRetries(now: int, acks: nat -> set<string>, tracks: nat -> Table, clock: nat -> int)
        returns (handed: seq<Item>, sends: seq<Item>)
      requires forall i: nat :: tracks(i).Keys !! pending.Keys
      modifies this
      ensures IsCollection(old(pending), now, sends, handed)
      ensures var more := NewIn(acks, tracks, |sends|);
              && more.Keys !! old(pending).Keys && more.Keys <= pending.Keys
              && (forall id <- more :: pending[id] == more[id])
              && IsPass(old(pending), now, AckedBy(acks, |sends|), UpdateTime(sends, clock), pending - more.Keys)
    {
      sends, handed := Collect(now);
      ghost var kept := pending;
      ghost var mine := pending;
      for i := 0 to |sends|
        invariant PartWay(kept, sends, i, acks, clock, mine)
        invariant NewIn(acks, tracks, i).Keys !! old(pending).Keys
        invariant pending == mine + NewIn(acks, tracks, i)
      {
        PartWayStep(kept, sends, i, acks, clock, mine);
        GapSplit(mine, NewIn(acks, tracks, i), acks(i), tracks(i), sends[i].id, clock(i));
        ResendOne(sends[i].id, acks(i), tracks(i), clock(i));
        mine := Resent(mine - acks(i), sends[i].id, clock(i));
      }
      PassDone(old(pending), now, sends, handed, acks, clock, mine);
      assert pending - NewIn(acks, tracks, |sends|).Keys == mine;
    }
  }

  ghost function AckedBy(acks: nat -> set<string>, n: nat): set<string> {
    if n == 0 then {} else AckedBy(acks, n - 1) + acks(n - 1)
  }

  /** The messages tracked in the first n gaps and not acknowledged in a later one of them. */
  ghost function NewIn(acks: nat -> set<string>, tracks: nat -> Table, n: nat): Table {
    if n == 0 then map[] else NewIn(acks, tracks, n - 1) - acks(n - 1) + tracks(n - 1)
  }

  lemma GapSplit(mine: Table, more: Table, acks: set<string>, tracks: Table, id: string, now: int)
    requires mine.Keys !! more.Keys && mine.Keys !! tracks.Keys && id !in more && id !in tracks
    ensures Resent(mine + more - acks + tracks, id, now) == Resent(mine - acks, id, now) + (more - acks + tracks)
  {
  }

  /** The position of an id among the items of a pass. */
  ghost function IndexOf(items: seq<Item>, id: string): (k: nat)
    requires id in Ids(items)
    ensures k < |items| && items[k].id == id
  {
    var item :| item in items && item.id == id;
    var k :| 0 <= k < |items| && items[k] == item;
    k
  }

  ghost function UpdateTime(sends: seq<Item>, clock: nat -> int): string -> int {
    id => if id in Ids(sends) then clock(IndexOf(sends, id)) else 0
  }

  /** Where a pass stands after its first `i` resends, when `kept` was left by the collection. */
  ghost predicate PartWay(
    kept: Table, sends: seq<Item>, i: nat, acks: nat -> set<string>, clock: nat -> int, t: Table)
    requires i <= |sends|
  {
    && t.Keys == kept.Keys - AckedBy(acks, i)
    && (forall id <- t :: (forall j | 0 <= j < i :: sends[j].id != id) ==> t[id] == kept[id])
    && (forall j | 0 <= j < i :: sends[j].id in t ==> t[sends[j].id] == Bumped(kept[sends[j].id], clock(j)))
  }

  lemma PartWayStep(
    kept: Table, sends: seq<Item>, i: nat, acks: nat -> set<string>, clock: nat -> int, t: Table)
    requires i < |sends| && Distinct(sends) && PartWay(kept, sends, i, acks, clock, t)
    ensures PartWay(kept, sends, i + 1, acks, clock, Resent(t - acks(i), sends[i].id, clock(i)))
  {
    hide Bumped;
    var t' := Resent(t - acks(i), sends[i].id, clock(i));
    assert sends[i].id in t ==> t[sends[i].id] == kept[sends[i].id];
    forall j | 0 <= j < i + 1 ensures sends[j].id in t' ==> t'[sends[j].id] == Bumped(kept[sends[j].id], clock(j)) {
      assert j < i ==> sends[j].id != sends[i].id;
    }
  }

  lemma PassDone(
    t: Table, now: int, sends: seq<Item>, handed: seq<Item>, acks: nat -> set<string>, clock: nat -> int, t': Table)
    requires IsCollection(t, now, sends, handed)
    requires PartWay(t - Ids(handed), sends, |sends|, acks, clock, t')
    ensures IsPass(t, now, AckedBy(acks, |sends|), UpdateTime(sends, clock), t')
  {
    assert sends[..|sends|] == sends;
    forall id <- t' ensures t'[id] ==
        if Retries(t[id], now) then Bumped(t[id], UpdateTime(sends, clock)(id)) else t[id] {
      if id in Ids(sends) {
        assert sends[IndexOf(sends, id)].id == id;
      }
    }
  }

  // ---- Termination of retrying ----

  predicate AllDue(t: Table, now: int) {
    forall id <- t :: now >= t[id].nextRetry
  }

  predicate WithinBudget(t: Table) {
    forall id <- t :: t[id].retries <= MAX_RETRIES
  }

  /** How many more passes the pending messages can take part in, all told. */
  ghost function Budget(t: Table): nat
    requires WithinBudget(t)
  {
    if t == map[] then 0
    else
      var id :| id in t;
      MAX_RETRIES + 1 - t[id].retries + Budget(t - {id})
  }

  lemma {:induction false} BudgetSplit(t: Table, id: string)
    requires WithinBudget(t) && id in t
    ensures Budget(t) == MAX_RETRIES + 1 - t[id].retries + Budget(t - {id})
    decreases |t|
  {
    var k :| k in t && Budget(t) == MAX_RETRIES + 1 - t[k].retries + Budget(t - {k});
    if k != id {
      BudgetSplit(t - {k}, id);
      BudgetSplit(t - {id}, k);
      assert t - {k} - {id} == t - {id} - {k};
    }
  }

  lemma PassWithout(t: Table, now: int, acked: set<string>, at: string -> int, t': Table, id: string)
    requires WithinBudget(t) && AllDue(t, now) && IsPass(t, now, acked, at, t') && id in t
    ensures WithinBudget(t') && WithinBudget(t - {id}) && AllDue(t - {id}, now)
    ensures IsPass(t - {id}, now, acked, at, t' - {id})
    ensures id in t' ==> t'[id].retries == t[id].retries + 1
  {
    forall k <- t' ensures t'[k].retries == t[k].retries + 1 {
    }
  }

  /** A pass at or after every nextRetry uses up budget for each message that was pending. */
  lemma {:induction false} DuePassSpendsBudget(t: Table, now: int, acked: set<string>, at: string -> int, t': Table)
    requires WithinBudget(t) && AllDue(t, now) && IsPass(t, now, acked, at, t')
    ensures WithinBudget(t')
    ensures Budget(t') + |t| <= Budget(t)
    decreases |t|
  {
    assert forall id <- t :: t[id].retries <= MAX_RETRIES;
    hide IsPass, Budget, AllDue, WithinBudget;
    if t == map[] {
      PassOfNothing(now, acked, at, t');
    } else {
      var id :| id in t;
      PassWithout(t, now, acked, at, t', id);
      DuePassSpendsBudget(t - {id}, now, acked, at, t' - {id});
      Without(t, id);
      Without(t', id);
      BudgetSplit(t, id);
      if id in t' {
        BudgetSplit(t', id);
      }
    }
  }

  lemma Without(t: Table, id: string)
    ensures if id in t then |t - {id}| == |t| - 1 else t - {id} == t
  {
    if id in t {
      assert (t - {id}).Keys == t.Keys - {id};
      assert |t| == |t.Keys| && |t - {id}| == |(t - {id}).Keys|;
    }
  }

  lemma PassOfNothing(now: int, acked: set<string>, at: string -> int, t': Table)
    requires IsPass(map[], now, acked, at, t')
    ensures t' == map[] && WithinBudget(t') && Budget(t') == 0
  {
  }

  /** The k-th of a series of passes. */
  datatype PassRun = PassRun(table: Table, now: int, acked: set<string>, at: string -> int)

  ghost predicate IsDueRun(run: seq<PassRun>) {
    && (forall k | 0 <= k < |run| :: AllDue(run[k].table, run[k].now))
    && (forall k | 0 <= k < |run| - 1 ::
          IsPass(run[k].table, run[k].now, run[k].acked, run[k].at, run[k + 1].table))
  }

  lemma {:induction false} RetriesCountPasses(run: seq<PassRun>, k: nat, id: string)
    requires IsDueRun(run) && k < |run| && id in run[k].table
    ensures id in run[0].table && run[k].table[id].retries == run[0].table[id].retries + k
  {
    if k > 0 {
      assert IsPass(run[k - 1].table, run[k - 1].now, run[k - 1].acked, run[k - 1].at, run[k].table);
      RetriesCountPasses(run, k - 1, id);
    }
  }

  lemma NothingAfterFour(run: seq<PassRun>, id: string)
    requires IsDueRun(run) && |run| == MAX_RETRIES + 2
    ensures id !in run[MAX_RETRIES + 1].table
  {
    var last := run[MAX_RETRIES];
    assert IsPass(last.table, last.now, last.acked, last.at, run[MAX_RETRIES + 1].table);
    if id in last.table {
      RetriesCountPasses(run, MAX_RETRIES, id);
    }
  }

  /**
   * With nothing new tracked, four passes at or after every nextRetry leave nothing pending, and each message
   * was either acknowledged during one of them or handed to the callback by one of them.
   */
  lemma FourPassesSettle(run: seq<PassRun>, id: string) returns (k: nat)
    requires IsDueRun(run) && |run| == MAX_RETRIES + 2
    requires id in run[0].table
    ensures run[MAX_RETRIES + 1].table == map[]
    ensures k <= MAX_RETRIES && id in run[k].table
    ensures id in run[k].acked || (run[k].now >= run[k].table[id].nextRetry && run[k].table[id].retries >= 3)
  {
    var left := run[MAX_RETRIES + 1].table;
    if left != map[] {
      var other :| other in left;
      NothingAfterFour(run, other);
    }
    k := 0;
    while id in run[k + 1].table
      invariant k <= MAX_RETRIES && id in run[k].table
      decreases MAX_RETRIES - k
    {
      k := k + 1;
    }
    assert IsPass(run[k].table, run[k].now, run[k].acked, run[k].at, run[k + 1].table);
  }
}
