/**
 * The sending side wired together (cmd/agentanycastd/main.go:220-235, 329-334; internal/a2a/router.go:452-458):
 * failed sends and exhausted retries go to the offline queue, a reconnecting peer flushes it.
 */
module Delivery {
  import opened BigEndian
  import opened Time
  import opened AckTracking
  import R = RetrySystem
  import opened OfflineQueueing

  datatype Given = Given(peer: string, data: Bytes)

  /**
   * `retry` and `queue` are the program's tracker and store bucket. `given` are the messages the Send* methods
   * passed to the send function, `waiting` those sent but not yet tracked; `flushed` and `dropped` record what
   * flushes handed over and what they found expired.
   */
  datatype State = State(
    retry: R.State,
    queue: Queue,
    given: map<string, Given>,
    waiting: set<string>,
    flushed: set<string>,
    dropped: set<string>)

  /** `sendOk`, `putOk`, `listOk`, `sends` and `deletes` are how the network and the store answer. */
  datatype Step =
    | Submit(id: string, peer: string, data: Bytes, sendOk: bool, putOk: bool)
    | TrackSent(id: string)
    | AckSendFailed(id: string, peer: string, data: Bytes, putOk: bool)
    | Retry(step: R.Step, sendOk: bool, putOk: bool)
    | Flush(peer: string, listOk: bool, sends: string -> bool, deletes: string -> bool)

  function Start(clock: int): State {
    State(R.Start(clock), map[], map[], {}, {}, {})
  }

  predicate ClockFits(clock: int) {
    0 <= clock <= INT64_MAX
  }

  ghost predicate Enabled(s: State, step: Step) {
    && ClockFits(s.retry.clock)
    && match step
       // Identifiers are fresh, so nothing is queued under one yet.
       case Submit(id, peer, _, _, _) => id !in s.given && SlashFree(peer) && Key(peer, id) !in s.queue
       case TrackSent(id) => id in s.waiting && id in s.given
       case AckSendFailed(id, peer, _, _) => id !in s.given && SlashFree(peer)
       case Retry(r, _, _) =>
         && R.Enabled(s.retry, r) && !r.TrackMsg?
         && (r.Tick? ==> ClockFits(s.retry.clock + r.dt))
       case Flush(peer, _, _, _) => SlashFree(peer)
  }

  /** A write that fails is logged and the message is not in the queue. */
  function Put(s: State, id: string, peer: string, data: Bytes, putOk: bool): State
    requires ClockFits(s.retry.clock)
  {
    if putOk then s.(queue := Enqueued(s.queue, peer, id, data, s.retry.clock)) else s
  }

  function KeyOf(s: State, id: string): string
    requires id in s.given
  {
    Key(s.given[id].peer, id)
  }

  /** In the offline queue under its own key, with its own payload. */
  ghost predicate Queued(s: State, id: string)
    requires id in s.given
  {
    KeyOf(s, id) in s.queue && Unstamp(s.queue[KeyOf(s, id)]).1 == s.given[id].data
  }

  ghost function Next(s: State, ttl: int, step: Step): State
    requires Enabled(s, step)
  {
    match step
    case Submit(id, peer, data, sendOk, putOk) =>
      var s' := s.(given := s.given[id := Given(peer, data)]);
      if sendOk then s'.(waiting := s.waiting + {id}) else Put(s', id, peer, data, putOk)
    case TrackSent(id) =>
      s.(waiting := s.waiting - {id},
         retry := s.retry.(
           table := Tracked(s.retry.table, id, s.given[id].peer, s.given[id].data, s.retry.clock),
           tracked := s.retry.tracked[id := R.Msg(s.given[id].peer, s.given[id].data, s.retry.clock)]))
    case AckSendFailed(id, peer, data, putOk) => Put(s, id, peer, data, putOk)
    case Retry(r, sendOk, putOk) =>
      var s' := s.(retry := R.Next(s.retry, r));
      if r.Callback? then
        var item := s.retry.phase.expired[0];
        Put(s', item.id, item.target, item.data, putOk)
      else if r.Send? && !sendOk then
        var item := s.retry.phase.toRetry[0];
        Put(s', item.id, item.target, item.data, putOk)
      else s'
    case Flush(peer, listOk, sends, deletes) =>
      var now := s.retry.clock;
      var sent := set id | id in s.given && Queued(s, id)
                           && IsLive(s.queue, KeyOf(s, id), peer, ttl, now) && sends(KeyOf(s, id));
      var expired := set id | id in s.given && Queued(s, id)
                              && Belongs(KeyOf(s, id), peer) && Stale(s.queue, KeyOf(s, id), ttl, now)
                                  && deletes(KeyOf(s, id));
      if !listOk then s
      else s.(queue := Flushed(s.queue, peer, ttl, now, sends, deletes),
              flushed := s.flushed + sent,
              dropped := s.dropped + expired)
  }

  /** On its way by the tracker, or acknowledged. */
  ghost predicate InHand(s: State, id: string) {
    id in s.waiting || id in s.retry.table || R.Has(R.Expiring(s.retry), id) || id in s.retry.acked
  }

  /** In the queue, or taken from it by a flush or the TTL. */
  ghost predicate Settled(s: State, id: string)
    requires id in s.given
  {
    Queued(s, id) || id in s.flushed || id in s.dropped
  }

  /** After this step only the queue can hold the message: its first send fails, or it is out of retries. */
  ghost predicate LastChance(s: State, step: Step, id: string)
    requires Enabled(s, step)
  {
    match step
    case Submit(submitted, _, _, sendOk, _) => submitted == id && !sendOk
    case Retry(r, _, _) => r.Callback? && s.retry.phase.expired[0].id == id
    case _ => false
  }

  /** The step writes the message to the queue, and the write succeeds. */
  ghost predicate Writes(s: State, step: Step, id: string)
    requires Enabled(s, step)
  {
    match step
    case Submit(submitted, _, _, sendOk, putOk) => submitted == id && !sendOk && putOk
    case Retry(r, sendOk, putOk) =>
      && putOk
      && ((r.Callback? && s.retry.phase.expired[0].id == id)
          || (r.Send? && !sendOk && s.retry.phase.toRetry[0].id == id))
    case _ => false
  }

  predicate WriteSucceeds(step: Step) {
    match step
    case Submit(_, _, _, _, putOk) => putOk
    case Retry(_, _, putOk) => putOk
    case _ => true
  }

  /** The records of one message agree. */
  ghost predicate Consistent(s: State, id: string) {
    && (id in s.given ==> SlashFree(s.given[id].peer))
    && (id in s.waiting ==> id in s.given && id !in s.retry.tracked)
    && (id in s.retry.tracked ==> id in s.given && R.Matches(s.retry.tracked[id], s.given[id].peer, s.given[id].data))
    && (id in s.flushed || id in s.dropped ==> id in s.given)
  }

  ghost predicate Inv(s: State, ttl: int) {
    && R.Inv(s.retry)
    && WellKeyed(s.queue)
    && (forall id {:trigger Consistent(s, id)} :: Consistent(s, id))
    && (ttl == 0 ==> s.dropped == {})
  }

  /** The closures that connect tracker, queue and network. `sendOk` is whether the peer could be reached. */
  class Wiring {
    const offline: OfflineQueue

    constructor (offline: OfflineQueue)
      ensures this.offline == offline
    {
      this.offline := offline;
    }

    method SendFn(peer: string, envelope: string, data: Bytes, sendOk: bool, putOk: bool, now: int) returns (sent: bool)
      requires ClockFits(now)
      modifies offline.store`queue
      ensures sent == sendOk
      ensures offline.store.queue ==
              if sendOk || !putOk then old(offline.store.queue)
              else Enqueued(old(offline.store.queue), peer, envelope, data, now)
    {
      if !sendOk {
        var _ := offline.Enqueue(peer, envelope, data, now, putOk);
        return false;
      }
      return true;
    }

    method OnMaxRetries(item: Item, putOk: bool, now: int)
      requires ClockFits(now)
      modifies offline.store`queue
      ensures offline.store.queue ==
              if putOk then Enqueued(old(offline.store.queue), item.target, item.id, item.data, now)
              else old(offline.store.queue)
    {
      var _ := offline.Enqueue(item.target, item.id, item.data, now, putOk);
    }

    method OnPeerConnected(peer: string, now: int, listOk: bool, sends: string -> bool, deletes: string -> bool)
      modifies offline.store`queue
      ensures offline.store.queue ==
              if listOk then Flushed(old(offline.store.queue), peer, offline.ttl, now, sends, deletes)
              else old(offline.store.queue)
    {
      var _, _ := offline.FlushQueue(peer, now, listOk, sends, deletes);
    }
  }

  // ---- What every step does to every message ----

  lemma PutQueues(s: State, id: string, peer: string, data: Bytes, putOk: bool, other: string)
    requires ClockFits(s.retry.clock) && SlashFree(peer)
    requires other in s.given && SlashFree(s.given[other].peer)
    requires id == other ==> s.given[other] == Given(peer, data)
    ensures Queued(Put(s, id, peer, data, putOk), other) <==> Queued(s, other) || (id == other && putOk)
  {
    UnstampStamp(NowSeconds(s.retry.clock), data);
    if Key(peer, id) == KeyOf(s, other) {
      KeyInjective(peer, id, s.given[other].peer, other);
    }
  }

  lemma TrackIsRetryStep(s: State, ttl: int, id: string)
    requires Inv(s, ttl) && Enabled(s, TrackSent(id))
    ensures var r := R.TrackMsg(id, s.given[id].peer, s.given[id].data);
            R.Enabled(s.retry, r) && Next(s, ttl, TrackSent(id)).retry == R.Next(s.retry, r)
  {
    assert Consistent(s, id);
  }

  lemma FlushConsistent(s: State, ttl: int, step: Step, id: string)
    requires Inv(s, ttl) && Enabled(s, step) && step.Flush?
    ensures Consistent(Next(s, ttl, step), id)
  {
    assert Consistent(s, id);
    hide R.Inv, Queued, Flushed, Stale;
  }

  lemma StepConsistent(s: State, ttl: int, step: Step, id: string)
    requires Inv(s, ttl) && Enabled(s, step)
    ensures Consistent(Next(s, ttl, step), id)
  {
    assert Consistent(s, id);
    if step.Flush? {
      FlushConsistent(s, ttl, step, id);
      hide Next;
    } else if step.Retry? {
      assert R.Next(s.retry, step.step).tracked == s.retry.tracked;
      hide R.Next;
    }
    hide R.Inv, R.Enabled, Queued, Enqueued, Flushed;
  }

  /** A step takes a message out of hand exactly at its last chance, and settles it exactly by a write that succeeds. */
  ghost predicate StepTells(s: State, s': State, step: Step, id: string)
    requires Enabled(s, step) && id in s'.given
  {
    && (InHand(s', id) <==> (id in s.given ==> InHand(s, id)) && !LastChance(s, step, id))
    && (Settled(s', id) <==> (id in s.given && Settled(s, id)) || Writes(s, step, id))
  }

  lemma SubmitTells(s: State, ttl: int, step: Step, id: string)
    requires Inv(s, ttl) && Enabled(s, step) && step.Submit? && id in Next(s, ttl, step).given
    ensures StepTells(s, Next(s, ttl, step), step, id)
  {
    assert Consistent(s, id);
    assert R.Good(s.retry, id);
    var s' := s.(given := s.given[step.id := Given(step.peer, step.data)]);
    PutQueues(s', step.id, step.peer, step.data, step.putOk, id);
    hide R.Inv, Unstamp, Enqueued;
  }

  lemma AckFailureTells(s: State, ttl: int, step: Step, id: string)
    requires Inv(s, ttl) && Enabled(s, step) && step.AckSendFailed? && id in s.given
    ensures StepTells(s, Next(s, ttl, step), step, id)
  {
    assert Consistent(s, id);
    PutQueues(s, step.id, step.peer, step.data, step.putOk, id);
    hide R.Inv, Unstamp, Enqueued;
  }

  lemma TrackTells(s: State, ttl: int, step: Step, id: string)
    requires Inv(s, ttl) && Enabled(s, step) && step.TrackSent? && id in s.given
    ensures StepTells(s, Next(s, ttl, step), step, id)
  {
    assert Consistent(s, id);
    hide R.Inv, Unstamp;
  }

  /** What the retry loop hands to the send function or the callback is the message as given. */
  lemma HeadAsGiven(s: State, ttl: int, item: Item)
    requires Inv(s, ttl) && R.ItemFits(s.retry, item)
    ensures item.id in s.given && s.given[item.id] == Given(item.target, item.data) && SlashFree(item.target)
  {
    assert Consistent(s, item.id);
  }

  lemma CallbackTells(s: State, ttl: int, step: Step, id: string)
    requires Inv(s, ttl) && Enabled(s, step) && step.Retry? && step.step.Callback? && id in s.given
    ensures StepTells(s, Next(s, ttl, step), step, id)
  {
    assert Consistent(s, id);
    assert R.Good(s.retry, id);
    var item := s.retry.phase.expired[0];
    HeadAsGiven(s, ttl, item);
    PutQueues(s.(retry := R.Next(s.retry, step.step)), item.id, item.target, item.data, step.putOk, id);
    R.HasTail(s.retry.phase.expired, id);
    hide R.Inv, R.Has, R.Counted, Unstamp, Enqueued;
  }

  lemma ResendTells(s: State, ttl: int, step: Step, id: string)
    requires Inv(s, ttl) && Enabled(s, step) && step.Retry? && step.step.Send? && id in s.given
    ensures StepTells(s, Next(s, ttl, step), step, id)
  {
    var item := s.retry.phase.toRetry[0];
    HeadAsGiven(s, ttl, item);
    assert Consistent(s, id);
    PutQueues(s.(retry := R.Next(s.retry, step.step)), item.id, item.target, item.data, step.putOk, id);
    hide R.Inv, R.Has, Unstamp, Enqueued;
  }

  lemma RetryTells(s: State, ttl: int, step: Step, id: string)
    requires Inv(s, ttl) && Enabled(s, step) && step.Retry? && id in s.given
    ensures StepTells(s, Next(s, ttl, step), step, id)
  {
    if step.step.Callback? {
      CallbackTells(s, ttl, step, id);
      hide Next, StepTells;
    } else if step.step.Send? {
      ResendTells(s, ttl, step, id);
      hide Next, StepTells;
    } else if step.step.Collect? {
      R.HasIds(step.step.expired, id);
    }
    hide R.Inv, R.Has, R.Sends, R.Delay, Unstamp, Enqueued;
  }

  lemma FlushTells(s: State, ttl: int, step: Step, id: string)
    requires Inv(s, ttl) && Enabled(s, step) && step.Flush? && id in s.given
    ensures StepTells(s, Next(s, ttl, step), step, id)
  {
    hide R.Inv, IsExpired;
  }

  lemma StepTellsAll(s: State, ttl: int, step: Step, id: string)
    requires Inv(s, ttl) && Enabled(s, step) && id in Next(s, ttl, step).given
    ensures StepTells(s, Next(s, ttl, step), step, id)
  {
    assert !step.Submit? ==> id in s.given;
    hide Inv, StepTells, Next, Enabled;
    match step
    case Submit(_, _, _, _, _) => SubmitTells(s, ttl, step, id);
    case TrackSent(_) => TrackTells(s, ttl, step, id);
    case AckSendFailed(_, _, _, _) => AckFailureTells(s, ttl, step, id);
    case Retry(_, _, _) => RetryTells(s, ttl, step, id);
    case Flush(_, _, _, _) => FlushTells(s, ttl, step, id);
  }

  lemma StepRetryInv(s: State, ttl: int, step: Step)
    requires Inv(s, ttl) && Enabled(s, step)
    ensures R.Inv(Next(s, ttl, step).retry)
  {
    if step.TrackSent? {
      TrackIsRetryStep(s, ttl, step.id);
      R.StepInv(s.retry, R.TrackMsg(step.id, s.given[step.id].peer, s.given[step.id].data));
    }
    if step.Retry? {
      R.StepInv(s.retry, step.step);
    }
    hide R.Inv, R.Next, R.Enabled;
  }

  lemma PutWellKeyed(s: State, id: string, peer: string, data: Bytes, putOk: bool)
    requires WellKeyed(s.queue) && SlashFree(peer) && ClockFits(s.retry.clock)
    ensures WellKeyed(Put(s, id, peer, data, putOk).queue)
  {
    EnqueueKeepsWellKeyed(s.queue, peer, id, data, s.retry.clock);
  }

  lemma StepWellKeyed(s: State, ttl: int, step: Step)
    requires Inv(s, ttl) && Enabled(s, step)
    ensures WellKeyed(Next(s, ttl, step).queue)
  {
    match step
    case Submit(id, peer, data, _, putOk) => PutWellKeyed(s, id, peer, data, putOk);
    case AckSendFailed(id, peer, data, putOk) => PutWellKeyed(s, id, peer, data, putOk);
    case Retry(r, _, putOk) =>
      if r.Callback? || r.Send? {
        var item := if r.Callback? then s.retry.phase.expired[0] else s.retry.phase.toRetry[0];
        HeadAsGiven(s, ttl, item);
        PutWellKeyed(s.(retry := R.Next(s.retry, r)), item.id, item.target, item.data, putOk);
      }
    case Flush(peer, _, sends, deletes) => FlushEffect(s.queue, peer, ttl, s.retry.clock, sends, deletes);
    case _ =>
    hide R.Inv, R.Good, WellKeyed, Enqueued;
  }

  lemma StepInv(s: State, ttl: int, step: Step)
    requires Inv(s, ttl) && Enabled(s, step)
    ensures Inv(Next(s, ttl, step), ttl)
  {
    StepRetryInv(s, ttl, step);
    StepWellKeyed(s, ttl, step);
    forall id ensures Consistent(Next(s, ttl, step), id) {
      StepConsistent(s, ttl, step, id);
    }
    hide R.Inv, R.Next, R.Enabled, Consistent, WellKeyed;
  }

  lemma GoneStays(s: State, ttl: int, step: Step, id: string)
    requires Inv(s, ttl) && Enabled(s, step) && id in s.retry.tracked && id !in s.retry.table
    ensures id in Next(s, ttl, step).retry.tracked && id !in Next(s, ttl, step).retry.table
  {
    if step.Retry? {
      R.GoneStays(s.retry, step.step, id);
    }
    if step.TrackSent? {
      assert Consistent(s, step.id);
    }
    hide R.Inv, R.Next, R.Enabled, Queued, Enqueued, Flushed;
  }

  // ---- Whole runs ----

  ghost predicate IsRun(states: seq<State>, steps: seq<Step>, ttl: int) {
    && |states| == |steps| + 1
    && states[0] == Start(states[0].retry.clock)
    && (forall k | 0 <= k < |steps| :: Enabled(states[k], steps[k]) && states[k + 1] == Next(states[k], ttl, steps[k]))
  }

  lemma {:induction false} RunInv(states: seq<State>, steps: seq<Step>, ttl: int, k: nat)
    requires IsRun(states, steps, ttl) && k < |states|
    ensures Inv(states[k], ttl)
  {
    if k == 0 {
      assert forall id :: R.Good(states[0].retry, id);
    } else {
      RunInv(states, steps, ttl, k - 1);
      StepInv(states[k - 1], ttl, steps[k - 1]);
    }
  }

  /** Before a message is given nothing happens to it. */
  lemma {:induction false} NothingBefore(states: seq<State>, steps: seq<Step>, ttl: int, k: nat, id: string)
    requires IsRun(states, steps, ttl) && k < |states| && id !in states[k].given
    ensures forall j | 0 <= j < k :: !LastChance(states[j], steps[j], id) && !Writes(states[j], steps[j], id)
  {
    hide Inv, Next, Enabled, LastChance, Writes;
    if k > 0 {
      RunInv(states, steps, ttl, k - 1);
      assert states[k] == Next(states[k - 1], ttl, steps[k - 1]);
      NotYetTouched(states[k - 1], ttl, steps[k - 1], id);
      NothingBefore(states, steps, ttl, k - 1, id);
    }
  }

  lemma NotYetTouched(s: State, ttl: int, step: Step, id: string)
    requires Inv(s, ttl) && Enabled(s, step) && id !in Next(s, ttl, step).given
    ensures id !in s.given && !LastChance(s, step, id) && !Writes(s, step, id)
  {
    if step.Retry? && step.step.Callback? {
      HeadAsGiven(s, ttl, s.retry.phase.expired[0]);
    }
    if step.Retry? && step.step.Send? {
      HeadAsGiven(s, ttl, s.retry.phase.toRetry[0]);
    }
    hide R.Inv, R.Next;
  }

  lemma {:induction false} InHandExactly(states: seq<State>, steps: seq<Step>, ttl: int, k: nat, id: string)
    requires IsRun(states, steps, ttl) && k < |states| && id in states[k].given
    ensures InHand(states[k], id) <==> forall j | 0 <= j < k :: !LastChance(states[j], steps[j], id)
  {
    hide Inv, Next, Enabled, InHand, Settled, LastChance, Writes;
    if k > 0 {
      RunInv(states, steps, ttl, k - 1);
      StepTellsAll(states[k - 1], ttl, steps[k - 1], id);
      if id in states[k - 1].given {
        InHandExactly(states, steps, ttl, k - 1, id);
      } else {
        NothingBefore(states, steps, ttl, k - 1, id);
      }
    }
  }

  lemma {:induction false} SettledExactly(states: seq<State>, steps: seq<Step>, ttl: int, k: nat, id: string)
    requires IsRun(states, steps, ttl) && k < |states| && id in states[k].given
    ensures Settled(states[k], id) <==> exists j :: 0 <= j < k && Writes(states[j], steps[j], id)
  {
    hide Inv, Next, Enabled, InHand, Settled, LastChance, Writes;
    if k > 0 {
      RunInv(states, steps, ttl, k - 1);
      StepTellsAll(states[k - 1], ttl, steps[k - 1], id);
      if id in states[k - 1].given {
        SettledExactly(states, steps, ttl, k - 1, id);
      } else {
        NothingBefore(states, steps, ttl, k - 1, id);
      }
    }
  }

  /**
   * In every run, a message given to the send function is waiting to be tracked, pending, in the loop's hands,
   * acknowledged, queued with its own payload, handed over by a flush, or dropped by TTL, unless its last chance is
   * past and no queue write of it has ever succeeded, and exactly then it is nowhere. So with successful queue writes
   * no message is lost, and without a TTL none is dropped.
   */
  lemma NoMessageLost(states: seq<State>, steps: seq<Step>, ttl: int, k: nat, id: string)
    requires IsRun(states, steps, ttl) && k < |states| && id in states[k].given
    ensures var s := states[k];
            || id in s.waiting || id in s.retry.table || R.Has(R.Expiring(s.retry), id) || id in s.retry.acked
            || Queued(s, id) || id in s.flushed || id in s.dropped
            <==> || (forall j | 0 <= j < k :: !LastChance(states[j], steps[j], id))
                 || (exists j :: 0 <= j < k && Writes(states[j], steps[j], id))
    ensures (forall j | 0 <= j < k :: WriteSucceeds(steps[j])) ==> InHand(states[k], id) || Settled(states[k], id)
    ensures ttl == 0 ==> id !in states[k].dropped
  {
    RunInv(states, steps, ttl, k);
    InHandExactly(states, steps, ttl, k, id);
    SettledExactly(states, steps, ttl, k, id);
    if (forall j | 0 <= j < k :: WriteSucceeds(steps[j])) && !InHand(states[k], id) {
      var j :| 0 <= j < k && LastChance(states[j], steps[j], id);
      assert Writes(states[j], steps[j], id);
    }
    hide Inv, Next, Enabled;
  }

  // ---- What the TTL drops ----

  ghost predicate StampedAt(s: State, id: string, clock: int)
    requires id in s.given && ClockFits(clock)
  {
    KeyOf(s, id) in s.queue && s.queue[KeyOf(s, id)] == Stamp(NowSeconds(clock), s.given[id].data)
  }

  lemma PutStamps(s: State, id: string, peer: string, data: Bytes, putOk: bool, other: string)
    requires ClockFits(s.retry.clock) && SlashFree(peer)
    requires other in s.given && SlashFree(s.given[other].peer)
    requires id == other ==> s.given[other] == Given(peer, data)
    ensures var s' := Put(s, id, peer, data, putOk);
            if id == other && putOk then StampedAt(s', other, s.retry.clock)
            else (KeyOf(s, other) in s'.queue <==> KeyOf(s, other) in s.queue)
                 && (KeyOf(s, other) in s.queue ==> s'.queue[KeyOf(s, other)] == s.queue[KeyOf(s, other)])
  {
    if Key(peer, id) == KeyOf(s, other) {
      KeyInjective(peer, id, s.given[other].peer, other);
    }
    hide Stamp;
  }

  /** The entry of a message was written in this step, or is the one that was there. */
  ghost predicate EntryFrom(s: State, s': State, step: Step, id: string)
    requires Enabled(s, step) && id in s'.given
  {
    KeyOf(s', id) in s'.queue ==>
      || (Writes(s, step, id) && StampedAt(s', id, s.retry.clock))
      || (id in s.given && s'.given[id] == s.given[id]
          && KeyOf(s, id) in s.queue && s'.queue[KeyOf(s, id)] == s.queue[KeyOf(s, id)])
  }

  lemma StepEntry(s: State, ttl: int, step: Step, id: string)
    requires Inv(s, ttl) && Enabled(s, step) && id in Next(s, ttl, step).given
    ensures EntryFrom(s, Next(s, ttl, step), step, id)
  {
    assert Consistent(s, id);
    match step
    case Submit(i, peer, data, _, putOk) =>
      PutStamps(s.(given := s.given[i := Given(peer, data)]), i, peer, data, putOk, id);
    case AckSendFailed(i, peer, data, putOk) => PutStamps(s, i, peer, data, putOk, id);
    case Retry(r, sendOk, putOk) =>
      if r.Callback? || r.Send? {
        var item := if r.Callback? then s.retry.phase.expired[0] else s.retry.phase.toRetry[0];
        HeadAsGiven(s, ttl, item);
        PutStamps(s.(retry := R.Next(s.retry, r)), item.id, item.target, item.data, putOk, id);
      }
    case _ =>
    hide R.Inv, R.Good, Unstamp, Enqueued, Stamp;
  }

  lemma {:induction false} ClockGrows(states: seq<State>, steps: seq<Step>, ttl: int, j: nat, k: nat)
    requires IsRun(states, steps, ttl) && j <= k < |states|
    ensures states[j].retry.clock <= states[k].retry.clock
    decreases k
  {
    if j < k {
      ClockGrows(states, steps, ttl, j, k - 1);
      ClockStep(states[k - 1], ttl, steps[k - 1]);
      hide Next, Enabled;
    }
  }

  lemma ClockStep(s: State, ttl: int, step: Step)
    requires Enabled(s, step)
    ensures s.retry.clock <= Next(s, ttl, step).retry.clock
  {
    hide Queued, Enqueued, Flushed, IsCollection;
  }

  /** A message in the queue was written there by an earlier step, and carries the time of that step. */
  lemma {:induction false} EntryWritten(states: seq<State>, steps: seq<Step>, ttl: int, k: nat, id: string)
      returns (j: nat)
    requires IsRun(states, steps, ttl) && k < |states| && id in states[k].given
    requires KeyOf(states[k], id) in states[k].queue
    ensures j < k && Enabled(states[j], steps[j]) && Writes(states[j], steps[j], id)
    ensures StampedAt(states[k], id, states[j].retry.clock)
  {
    j := 0;
    RunInv(states, steps, ttl, k - 1);
    StepEntry(states[k - 1], ttl, steps[k - 1], id);
    hide Inv, Next, Writes, Stamp;
    if Writes(states[k - 1], steps[k - 1], id) && StampedAt(states[k], id, states[k - 1].retry.clock) {
      j := k - 1;
    } else {
      j := EntryWritten(states, steps, ttl, k - 1, id);
    }
  }

  lemma {:induction false} DroppedBy(states: seq<State>, steps: seq<Step>, ttl: int, k: nat, id: string)
      returns (i: nat)
    requires IsRun(states, steps, ttl) && k < |states| && id in states[k].dropped
    ensures i < k && steps[i].Flush? && id in states[i].given && Queued(states[i], id)
    ensures Stale(states[i].queue, KeyOf(states[i], id), ttl, states[i].retry.clock)
  {
    i := k - 1;
    if id in states[k - 1].dropped {
      i := DroppedBy(states, steps, ttl, k - 1, id);
    }
    hide Stale, R.Next, R.Enabled;
  }

  /** In every run, what the TTL has dropped was written to the queue more than ttl - 1 s before it was dropped. */
  lemma DroppedWasOld(states: seq<State>, steps: seq<Step>, ttl: int, k: nat, id: string) returns (j: nat, i: nat)
    requires IsRun(states, steps, ttl) && k < |states| && id in states[k].dropped && 0 < ttl <= INT64_MAX
    ensures j < i < k && Enabled(states[j], steps[j]) && Writes(states[j], steps[j], id) && steps[i].Flush?
    ensures states[i].retry.clock - states[j].retry.clock > ttl - 1_000_000_000
  {
    i := DroppedBy(states, steps, ttl, k, id);
    j := EntryWritten(states, steps, ttl, i, id);
    ClockGrows(states, steps, ttl, j, i);
    assert Enabled(states[i], steps[i]);
    ExpiryBound(states[i].given[id].data, states[j].retry.clock, states[i].retry.clock, ttl);
    hide Next, Writes, Stamp, Unstamp, IsExpired;
  }
}
