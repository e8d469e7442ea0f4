/**
 * The ACK tracker under every interleaving: Track and Acknowledge may run in each unlocked gap of the one
 * retry loop (internal/a2a/ack_tracker.go:69-99, 128-199).
 */
module RetrySystem {
  import opened BigEndian
  import opened AckTracking
  import opened Time

  /** A message as it was given to Track, and when. */
  datatype Msg = Msg(target: string, data: seq<Byte>, at: int)

  /** Where the retry loop is: waiting for a tick, or between two of its locked sections. */
  datatype Phase =
    | Idle
    | Busy(expired: seq<Item>, toRetry: seq<Item>, headSent: bool)

  datatype Resend = Resend(id: string, k: nat, at: int)
  datatype GiveUp = GiveUp(item: Item, at: int)

  /** `clock`, `table` and `phase` are the program's; the rest records what has happened so far. */
  datatype State = State(
    clock: int,
    table: Table,
    phase: Phase,
    tracked: map<string, Msg>,
    acked: set<string>,
    sendLog: seq<Resend>,
    handed: seq<GiveUp>)

  datatype Step =
    | Tick(dt: nat)
    | TrackMsg(id: string, target: string, data: seq<Byte>)
    | AckMsg(id: string)
    | Collect(now: int, expired: seq<Item>, toRetry: seq<Item>)
    | Callback
    | Send
    | Update
    | Finish

  function Start(clock: int): State {
    State(clock, map[], Idle, map[], {}, [], [])
  }

  ghost predicate Enabled(s: State, step: Step) {
    match step
    case Tick(_) => true
    case TrackMsg(id, _, _) => id !in s.tracked
    case AckMsg(_) => true
    // The tick may have waited in the ticker's channel, so its time can lie behind the clock.
    case Collect(now, expired, toRetry) => s.phase.Idle? && now <= s.clock
        && IsCollection(s.table, now, toRetry, expired)
    case Callback => s.phase.Busy? && s.phase.expired != []
    case Send => s.phase.Busy? && s.phase.expired == [] && s.phase.toRetry != [] && !s.phase.headSent
    case Update => s.phase.Busy? && s.phase.expired == [] && s.phase.toRetry != [] && s.phase.headSent
    case Finish => s.phase.Busy? && s.phase.expired == [] && s.phase.toRetry == []
  }

  /** How often an id was sent again. */
  function Sends(log: seq<Resend>, id: string): nat {
    if log == [] then 0
    else Sends(log[..|log| - 1], id) + if log[|log| - 1].id == id then 1 else 0
  }

  function Count(s: State, id: string): nat {
    Sends(s.sendLog, id)
  }

  ghost function Next(s: State, step: Step): State
    requires Enabled(s, step)
  {
    match step
    case Tick(dt) => s.(clock := s.clock + dt)
    case TrackMsg(id, target, data) =>
      s.(table := Tracked(s.table, id, target, data, s.clock),
         tracked := s.tracked[id := Msg(target, data, s.clock)])
    case AckMsg(id) =>
      if id in s.table then s.(table := s.table - {id}, acked := s.acked + {id}) else s
    case Collect(now, expired, toRetry) =>
      s.(table := s.table - Ids(expired), phase := Busy(expired, toRetry, false))
    case Callback =>
      s.(phase := s.phase.(expired := s.phase.expired[1..]),
         handed := s.handed + [GiveUp(s.phase.expired[0], s.clock)])
    case Send =>
      var id := s.phase.toRetry[0].id;
      s.(phase := s.phase.(headSent := true),
         sendLog := s.sendLog + [Resend(id, Count(s, id) + 1, s.clock)])
    case Update =>
      s.(table := Resent(s.table, s.phase.toRetry[0].id, s.clock),
         phase := s.phase.(toRetry := s.phase.toRetry[1..], headSent := false))
    case Finish => s.(phase := Idle)
  }

  /** The least time from Track to the k-th send; k = 4 stands for giving up. */
  function Delay(k: nat): int {
    BASE_INTERVAL * (Shl(k) - 1)
  }

  function Expiring(s: State): seq<Item> {
    if s.phase.Busy? then s.phase.expired else []
  }

  function ToRetry(s: State): seq<Item> {
    if s.phase.Busy? then s.phase.toRetry else []
  }

  /** Sent again, with the update under the lock still to come. */
  predicate InGap(s: State, id: string) {
    s.phase.Busy? && s.phase.headSent && s.phase.toRetry != [] && s.phase.toRetry[0].id == id
  }

  ghost predicate Has(items: seq<Item>, id: string) {
    exists i :: 0 <= i < |items| && items[i].id == id
  }

  ghost predicate HandedOver(s: State, id: string) {
    exists i :: 0 <= i < |s.handed| && s.handed[i].item.id == id
  }

  predicate Matches(m: Msg, target: string, data: seq<Byte>) {
    m.target == target && m.data == data
  }

  /** A tracked id is in exactly one place; an untracked one is nowhere. */
  ghost predicate OnePlace(s: State, id: string) {
    var pending, acked, expiring, handed := id in s.table, id in s.acked, Has(Expiring(s), id), HandedOver(s, id);
    if id !in s.tracked then !pending && !acked && !expiring && !handed
    else
      || (pending && !acked && !expiring && !handed)
      || (!pending && acked && !expiring && !handed)
      || (!pending && !acked && expiring && !handed)
      || (!pending && !acked && !expiring && handed)
  }

  /** Retries and times of one tracked id. */
  ghost predicate Counted(s: State, id: string)
    requires id in s.tracked
  {
    var m, n := s.tracked[id], Count(s, id);
    && n <= MAX_RETRIES
    && (id in s.table ==>
          && Matches(m, s.table[id].target, s.table[id].data)
          && n == s.table[id].retries + (if InGap(s, id) then 1 else 0)
          && s.table[id].retries <= MAX_RETRIES
          && s.table[id].nextRetry >= m.at + Delay(s.table[id].retries + 1))
    && (Has(ToRetry(s), id) ==>
          && (id in s.table || id in s.acked)
          && (InGap(s, id) || n < MAX_RETRIES)
          && s.clock >= m.at + Delay(if InGap(s, id) then n else n + 1))
    && (Has(Expiring(s), id) ==> n == MAX_RETRIES && s.clock >= m.at + Delay(MAX_RETRIES + 1))
    && (HandedOver(s, id) ==> n == MAX_RETRIES)
  }

  ghost predicate Good(s: State, id: string) {
    && OnePlace(s, id)
    && (id in s.tracked ==> Counted(s, id))
    && (id !in s.tracked ==> !Has(ToRetry(s), id) && Count(s, id) == 0)
  }

  ghost predicate Shape(s: State) {
    && Distinct(Expiring(s)) && Distinct(ToRetry(s))
    && (s.phase.Busy? && s.phase.headSent ==> s.phase.expired == [] && s.phase.toRetry != [])
  }

  ghost predicate ItemFits(s: State, item: Item) {
    item.id in s.tracked && Matches(s.tracked[item.id], item.target, item.data)
  }

  ghost predicate ItemsFit(s: State) {
    && (forall i | 0 <= i < |Expiring(s)| :: ItemFits(s, Expiring(s)[i]))
    && (forall i | 0 <= i < |ToRetry(s)| :: ItemFits(s, ToRetry(s)[i]))
  }

  /** One callback call: the message as tracked, and not before 30 s. */
  ghost predicate HandedFits(s: State, g: GiveUp) {
    ItemFits(s, g.item) && g.at >= s.tracked[g.item.id].at + Delay(MAX_RETRIES + 1)
  }

  ghost predicate HandedInv(s: State) {
    && (forall i | 0 <= i < |s.handed| :: HandedFits(s, s.handed[i]))
    && (forall i, j | 0 <= i < j < |s.handed| :: s.handed[i].item.id != s.handed[j].item.id)
  }

  ghost predicate SentFits(s: State, e: Resend) {
    e.id in s.tracked && 1 <= e.k <= Count(s, e.id) && e.at >= s.tracked[e.id].at + Delay(e.k)
  }

  ghost predicate SentInv(s: State) {
    && (forall i | 0 <= i < |s.sendLog| :: SentFits(s, s.sendLog[i]))
    && (forall i, j | 0 <= i < j < |s.sendLog| :: s.sendLog[i].id == s.sendLog[j].id ==>
        s.sendLog[i].k < s.sendLog[j].k)
  }

  ghost predicate Inv(s: State) {
    && (forall id {:trigger Good(s, id)} :: Good(s, id))
    && Shape(s) && ItemsFit(s) && HandedInv(s) && SentInv(s)
  }

  // ---- Every step keeps the invariant ----

  lemma DelayGrows(r: nat)
    ensures Delay(r + 2) == Delay(r + 1) + BASE_INTERVAL * Shl(r + 1)
  {
  }

  lemma HasTail(items: seq<Item>, id: string)
    requires items != [] && Distinct(items)
    ensures Distinct(items[1..])
    ensures Has(items, id) <==> items[0].id == id || Has(items[1..], id)
    ensures Has(items[1..], id) ==> items[0].id != id
  {
    if Has(items, id) {
      var k :| 0 <= k < |items| && items[k].id == id;
      if k > 0 {
        assert items[1..][k - 1].id == id;
      }
    }
  }

  lemma HasIds(items: seq<Item>, id: string)
    ensures Has(items, id) <==> id in Ids(items)
  {
    if Has(items, id) {
      var k :| 0 <= k < |items| && items[k].id == id;
      assert items[k] in items;
    }
  }

  lemma SendsMore(s: State, id: string)
    requires Enabled(s, Send)
    ensures Count(Next(s, Send), id) == Count(s, id) + if s.phase.toRetry[0].id == id then 1 else 0
  {
    var s' := Next(s, Send);
    assert s'.sendLog[..|s.sendLog|] == s.sendLog;
  }

  lemma HandedMore(s: State, g: GiveUp, id: string)
    ensures HandedOver(s.(handed := s.handed + [g]), id) <==> HandedOver(s, id) || g.item.id == id
  {
    var s' := s.(handed := s.handed + [g]);
    assert s'.handed[|s.handed|] == g;
    if HandedOver(s, id) {
      var k :| 0 <= k < |s.handed| && s.handed[k].item.id == id;
      assert s'.handed[k].item.id == id;
    }
  }

  lemma TickGood(s: State, dt: nat, id: string)
    requires Inv(s)
    ensures Good(Next(s, Tick(dt)), id)
  {
    assert Good(s, id);
    hide Delay, Distinct, Has;
  }

  lemma TrackGood(s: State, t: string, target: string, data: seq<Byte>, id: string)
    requires Inv(s) && t !in s.tracked
    ensures Good(Next(s, TrackMsg(t, target, data)), id)
  {
    assert Good(s, id);
    assert Delay(0) == 0 && Delay(1) == BASE_INTERVAL;
    hide Delay, Distinct, Has;
  }

  lemma AckGood(s: State, a: string, id: string)
    requires Inv(s)
    ensures Good(Next(s, AckMsg(a)), id)
  {
    assert Good(s, id);
    hide Delay, Distinct, Has;
  }

  lemma CollectGood(s: State, step: Step, id: string)
    requires Inv(s) && step.Collect? && Enabled(s, step)
    ensures Good(Next(s, step), id)
  {
    assert Good(s, id);
    HasIds(step.expired, id);
    HasIds(step.toRetry, id);
    hide Delay, Distinct, Has, Ids;
  }

  lemma CallbackGood(s: State, id: string)
    requires Inv(s) && Enabled(s, Callback)
    ensures Good(Next(s, Callback), id)
  {
    assert Good(s, id);
    HasTail(s.phase.expired, id);
    HandedMore(s, GiveUp(s.phase.expired[0], s.clock), id);
    var s' := Next(s, Callback);
    assert HandedOver(s', id) <==> HandedOver(s, id) || s.phase.expired[0].id == id by {
      assert s' == s.(phase := s'.phase).(handed := s'.handed);
    }
    hide Inv, Delay, Distinct, Has, HandedOver, Sends;
  }

  lemma SendGood(s: State, id: string)
    requires Inv(s) && Enabled(s, Send)
    ensures Good(Next(s, Send), id)
  {
    assert Good(s, id);
    HasTail(s.phase.toRetry, id);
    SendsMore(s, id);
    hide Delay, Distinct, Has, Sends;
  }

  lemma UpdateGood(s: State, id: string)
    requires Inv(s) && Enabled(s, Update)
    ensures Good(Next(s, Update), id)
  {
    assert Good(s, id);
    HasTail(s.phase.toRetry, id);
    if id in s.table {
      DelayGrows(s.table[id].retries);
    }
    hide Delay, Distinct, Has;
  }

  lemma FinishGood(s: State, id: string)
    requires Inv(s) && Enabled(s, Finish)
    ensures Good(Next(s, Finish), id)
  {
    assert Good(s, id);
    hide Delay, Distinct;
  }

  lemma StepGood(s: State, step: Step, id: string)
    requires Inv(s) && Enabled(s, step)
    ensures Good(Next(s, step), id)
  {
    hide Inv, Good, Next;
    match step
    case Tick(dt) => TickGood(s, dt, id);
    case TrackMsg(t, target, data) => TrackGood(s, t, target, data, id);
    case AckMsg(a) => AckGood(s, a, id);
    case Collect(_, _, _) => CollectGood(s, step, id);
    case Callback => CallbackGood(s, id);
    case Send => SendGood(s, id);
    case Update => UpdateGood(s, id);
    case Finish => FinishGood(s, id);
  }

  lemma StepShape(s: State, step: Step)
    requires Inv(s) && Enabled(s, step)
    ensures Shape(Next(s, step))
  {
    hide Good, ItemsFit, HandedInv, SentInv;
  }

  lemma StepItemsFit(s: State, step: Step)
    requires Inv(s) && Enabled(s, step)
    ensures ItemsFit(Next(s, step))
  {
    var s' := Next(s, step);
    if step.Collect? {
      forall i | 0 <= i < |step.expired| ensures ItemFits(s, step.expired[i]) {
        assert step.expired[i] in step.expired && Good(s, step.expired[i].id);
      }
      forall i | 0 <= i < |step.toRetry| ensures ItemFits(s, step.toRetry[i]) {
        assert step.toRetry[i] in step.toRetry && Good(s, step.toRetry[i].id);
      }
    }
    hide Delay, Good, HandedInv, SentInv, Shape, IsCollection, Sends, Bumped;
  }

  lemma StepHandedInv(s: State, step: Step)
    requires Inv(s) && Enabled(s, step)
    ensures HandedInv(Next(s, step))
  {
    if step.Callback? {
      var item := s.phase.expired[0];
      assert Good(s, item.id);
      assert Has(Expiring(s), item.id);
      assert !HandedOver(s, item.id);
      assert HandedFits(s, GiveUp(item, s.clock));
    }
    hide Delay, Good, ItemsFit, SentInv;
  }

  lemma StepSentInv(s: State, step: Step)
    requires Inv(s) && Enabled(s, step)
    ensures SentInv(Next(s, step))
  {
    if step.Send? {
      var id := s.phase.toRetry[0].id;
      assert Good(s, id);
      assert Has(ToRetry(s), id);
      forall other ensures Count(Next(s, step), other) >= Count(s, other) {
        SendsMore(s, other);
      }
      SendsMore(s, id);
    }
    if step.TrackMsg? {
      assert Good(s, step.id);
    }
    hide Sends, Delay, Good, ItemsFit, HandedInv;
  }

  lemma StepInv(s: State, step: Step)
    requires Inv(s) && Enabled(s, step)
    ensures Inv(Next(s, step))
  {
    StepShape(s, step);
    StepItemsFit(s, step);
    StepHandedInv(s, step);
    StepSentInv(s, step);
    forall id ensures Good(Next(s, step), id) {
      StepGood(s, step, id);
    }
  }

  // ---- Whole runs ----

  /** A run: the k-th step is enabled in the k-th state and leads to the next. */
  ghost predicate IsRun(states: seq<State>, steps: seq<Step>) {
    && |states| == |steps| + 1
    && states[0] == Start(states[0].clock)
    && (forall k | 0 <= k < |steps| :: Enabled(states[k], steps[k]) && states[k + 1] == Next(states[k], steps[k]))
  }

  lemma {:induction false} RunInv(states: seq<State>, steps: seq<Step>, k: nat)
    requires IsRun(states, steps) && k < |states|
    ensures Inv(states[k])
  {
    if k == 0 {
      assert forall id :: Good(states[0], id);
    } else {
      RunInv(states, steps, k - 1);
      StepInv(states[k - 1], steps[k - 1]);
    }
  }

  /**
   * Under every interleaving, each tracked id is in exactly one of pending, acknowledged or expired; while
   * pending its retry counter equals the resends already recorded; there are never more than three resends.
   */
  lemma TrackerLifecycle(states: seq<State>, steps: seq<Step>, k: nat, id: string)
    requires IsRun(states, steps) && k < |states| && id in states[k].tracked
    ensures OnePlace(states[k], id)
    ensures Count(states[k], id) <= MAX_RETRIES
    ensures id in states[k].table && !InGap(states[k], id) ==> states[k].table[id].retries == Count(states[k], id)
    ensures forall i, j | 0 <= i < j < |states[k].handed| :: states[k].handed[i].item.id != states[k].handed[j].item.id
    ensures HandedOver(states[k], id) ==> Count(states[k], id) == MAX_RETRIES
  {
    RunInv(states, steps, k);
    assert Good(states[k], id);
  }

  /** The k-th resend comes no earlier than 2(2^k - 1) s after Track, and giving up no earlier than 30 s. */
  lemma BackoffBound(states: seq<State>, steps: seq<Step>, k: nat)
    requires IsRun(states, steps) && k < |states|
    ensures var s := states[k];
            && (forall id <- s.table :: id in s.tracked &&
                  s.table[id].nextRetry >= s.tracked[id].at + 2 * SECOND * (Shl(s.table[id].retries + 1) - 1))
            && (forall i | 0 <= i < |s.sendLog| :: var e := s.sendLog[i];
                  e.id in s.tracked && 1 <= e.k <= 3 && e.at >= s.tracked[e.id].at + 2 * SECOND * (Shl(e.k) - 1))
            && (forall i | 0 <= i < |s.handed| :: var g := s.handed[i];
                  g.item.id in s.tracked && g.at >= s.tracked[g.item.id].at + 30 * SECOND)
  {
    RunInv(states, steps, k);
    var s := states[k];
    assert Shl(4) == 16;
    forall id <- s.table ensures id in s.tracked &&
        s.table[id].nextRetry >= s.tracked[id].at + 2 * SECOND * (Shl(s.table[id].retries + 1) - 1) {
      assert Good(s, id);
    }
    forall i | 0 <= i < |s.sendLog| ensures SentFits(s, s.sendLog[i]) && s.sendLog[i].k <= 3 {
      assert Good(s, s.sendLog[i].id);
    }
    forall i | 0 <= i < |s.handed| ensures HandedFits(s, s.handed[i]) {
    }
  }

  /** The step is an ACK that finds its message pending. */
  predicate AckCounts(s: State, step: Step, id: string) {
    step == AckMsg(id) && id in s.table
  }

  lemma AckedStep(s: State, step: Step, id: string)
    requires Enabled(s, step)
    ensures id in Next(s, step).acked <==> id in s.acked || AckCounts(s, step, id)
  {
    hide IsCollection, Tracked, Resent;
  }

  /**
   * In every run a message is acknowledged if and only if some ACK found it pending; otherwise, once tracked, it is
   * pending, in the loop's hands or handed over.
   */
  lemma {:induction false} AckedExactly(states: seq<State>, steps: seq<Step>, k: nat, id: string)
    requires IsRun(states, steps) && k < |states|
    ensures id in states[k].acked <==> exists j :: 0 <= j < k && AckCounts(states[j], steps[j], id)
    ensures id in states[k].tracked && id !in states[k].acked ==>
              id in states[k].table || Has(Expiring(states[k]), id) || HandedOver(states[k], id)
  {
    RunInv(states, steps, k);
    assert Good(states[k], id);
    if k > 0 {
      AckedExactly(states, steps, k - 1, id);
      AckedStep(states[k - 1], steps[k - 1], id);
    }
    hide Next, Enabled, AckCounts, Inv;
  }

  /** A tracked message that is no longer pending never is again. */
  lemma GoneStays(s: State, step: Step, id: string)
    requires Enabled(s, step) && id in s.tracked && id !in s.table
    ensures id in Next(s, step).tracked && id !in Next(s, step).table
  {
    hide IsCollection;
  }

  /** An ACK that overtakes Track, as it can between the send and the tracking, leaves its message pending. */
  lemma EarlyAckIsLost(clock: int, id: string, target: string, data: seq<Byte>)
      returns (states: seq<State>, steps: seq<Step>)
    ensures steps == [AckMsg(id), TrackMsg(id, target, data)] && IsRun(states, steps)
    ensures states[0] == Start(clock) && id in states[2].table && id !in states[2].acked
  {
    var s := Start(clock);
    steps := [AckMsg(id), TrackMsg(id, target, data)];
    states := [s, s, Next(s, steps[1])];
  }

  // ---- The schedule, to the nanosecond ----

  /** The pause that follows Track or a resend, in nanoseconds: 2, 4, 8 and 16 s. */
  function PauseAfter(resends: nat): int {
    if resends == 0 then 2_000_000_000
    else if resends == 1 then 4_000_000_000
    else if resends == 2 then 8_000_000_000
    else 16_000_000_000
  }

  /** The step sets the message's time: it tracks it, or updates it after a resend. */
  predicate SetsTime(s: State, step: Step, id: string) {
    || (step.TrackMsg? && step.id == id)
    || (step.Update? && s.phase.Busy? && s.phase.toRetry != [] && s.phase.toRetry[0].id == id && id in s.table)
  }

  /** What the step leaves of a pending message: the old record, or one set at the present time. */
  lemma TimeStep(s: State, step: Step, id: string)
    requires Inv(s) && Enabled(s, step) && id in Next(s, step).table
    ensures var t, t' := s.table, Next(s, step).table;
            if SetsTime(s, step, id) then
              && t'[id].retries == (if step.TrackMsg? then 0 else t[id].retries + 1)
              && t'[id].nextRetry == s.clock + PauseAfter(t'[id].retries)
              && t'[id].retries <= 3
              && (step.TrackMsg? ==> t'[id].target == step.target && t'[id].data == step.data)
            else id in t && t'[id] == t[id]
  {
    assert Good(s, id);
    if step.Update? && s.phase.toRetry[0].id == id {
      assert Has(ToRetry(s), id);
      assert Shl(1) == 2 && Shl(2) == 4 && Shl(3) == 8;
    }
    assert Shl(0) == 1;
    hide IsCollection, Distinct, Delay, Sends;
  }

  /**
   * In every run a pending message is due exactly its pause after the step that tracked it or last resent it, and so
   * never more than 16 s from now.
   */
  lemma {:induction false} DueExactly(states: seq<State>, steps: seq<Step>, k: nat, id: string) returns (j: nat)
    requires IsRun(states, steps) && k < |states| && id in states[k].table
    ensures j < k && SetsTime(states[j], steps[j], id)
    ensures states[k].table[id].nextRetry == states[j].clock + PauseAfter(states[k].table[id].retries)
    ensures states[k].table[id].nextRetry <= states[k].clock + 16_000_000_000
  {
    j := k - 1;
    RunInv(states, steps, k - 1);
    TimeStep(states[k - 1], steps[k - 1], id);
    ClockStep(states[k - 1], steps[k - 1]);
    hide Inv, Next, Enabled;
    if !SetsTime(states[k - 1], steps[k - 1], id) {
      j := DueExactly(states, steps, k - 1, id);
    }
  }

  lemma ClockStep(s: State, step: Step)
    requires Enabled(s, step)
    ensures s.clock <= Next(s, step).clock
  {
    hide IsCollection;
  }
}
