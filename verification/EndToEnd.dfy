/**
 * A sender and the peers it sends to, joined by a network that may lose, repeat, delay and reorder: the only ACKs are
 * those that HandleMessage gives (internal/a2a/router.go:194-222, 350-361, internal/a2a/ack_tracker.go:89-99).
 */
module EndToEnd {
  import opened Storage
  import opened Dedup
  import opened Routing
  import opened OfflineQueueing
  import E = TaskEngine
  import R = RetrySystem
  import D = Delivery

  /**
   * `accepted` and `engine` are the sender's own filter and tasks, which with its pending table make it a node like its
   * peers. `wire` are the messages, as peer and envelope id, of which a copy has been sent; `acks` the ids that peers
   * have acknowledged to this sender. Copies and ACKs may arrive any number of times, or never.
   */
  datatype World = World(
    sender: D.State,
    accepted: seq<string>,
    engine: E.State,
    peers: map<string, Node>,
    wire: set<(string, string)>,
    acks: set<string>)

  function Home(w: World): Node {
    Node(w.accepted, w.engine, w.sender.retry.table)
  }

  datatype Step =
    | AtSender(step: D.Step)
    | Receive(peer: string, id: string, d: Delivery)
    | OtherAtPeer(peer: string, d: Delivery)
    | PeerMoves(peer: string, op: E.Op)
    | AckArrives(d: Delivery)
    | OtherAtSender(d: Delivery)
    | SenderMoves(op: E.Op)

  predicate IsAck(d: Delivery) {
    d.msg.Some? && d.msg.value.kind.AckKind? && d.msg.value.payload.AckPayload?
  }

  function AckedId(d: Delivery): string
    requires IsAck(d)
  {
    d.msg.value.payload.acknowledgedId
  }

  function AckOf(id: string): D.Step {
    D.Retry(R.AckMsg(id), true, true)
  }

  ghost predicate Enabled(w: World, step: Step) {
    match step
    case AtSender(step) => D.Enabled(w.sender, step) && !(step.Retry? && step.step.AckMsg?)
    case Receive(peer, id, d) =>
      (peer, id) in w.wire && peer in w.peers && E.Inv(w.peers[peer].engine) && d.msg.Some? && d.msg.value.id == id
    case OtherAtPeer(peer, d) => peer in w.peers && E.Inv(w.peers[peer].engine)
    case PeerMoves(peer, op) => peer in w.peers && E.Inv(w.peers[peer].engine)
    case AckArrives(d) => E.Inv(w.engine) && IsAck(d) && AckedId(d) in w.acks && D.Enabled(w.sender, AckOf(AckedId(d)))
    case OtherAtSender(d) => E.Inv(w.engine) && !IsAck(d)
    case SenderMoves(op) => E.Inv(w.engine)
  }

  /** The messages a step of the sender puts on the wire. */
  ghost function SentBy(s: D.State, ttl: int, step: D.Step): set<(string, string)>
    requires D.Enabled(s, step)
  {
    match step
    case Submit(id, peer, _, sendOk, _) => if sendOk then {(peer, id)} else {}
    case Retry(r, sendOk, _) =>
      if r.Send? && sendOk then {(s.retry.phase.toRetry[0].target, s.retry.phase.toRetry[0].id)} else {}
    case Flush(peer, listOk, sends, _) =>
      set id | id in s.given && listOk && D.Queued(s, id)
               && IsLive(s.queue, D.KeyOf(s, id), peer, ttl, s.retry.clock) && sends(D.KeyOf(s, id)) :: (peer, id)
    case _ => {}
  }

  /** The sender handles a message itself; what it takes off its pending table counts as acknowledged. */
  function AtHome(w: World, d: Delivery): World
    requires IdsAgree(w.engine)
  {
    var n := Handle(Home(w), d).0;
    var r := w.sender.retry;
    w.(accepted := n.accepted, engine := n.engine,
       sender := w.sender.(retry := r.(table := n.pending, acked := r.acked + (r.table.Keys - n.pending.Keys))))
  }

  ghost function Next(w: World, ttl: int, step: Step): World
    requires Enabled(w, step)
  {
    match step
    case AtSender(step) => w.(sender := D.Next(w.sender, ttl, step), wire := w.wire + SentBy(w.sender, ttl, step))
    case Receive(peer, id, d) =>
      var (n, ack) := Handle(w.peers[peer], d);
      w.(peers := w.peers[peer := n], acks := if ack.Some? then w.acks + {ack.value} else w.acks)
    case OtherAtPeer(peer, d) => w.(peers := w.peers[peer := Handle(w.peers[peer], d).0])
    case PeerMoves(peer, op) =>
      var n := w.peers[peer];
      w.(peers := w.peers[peer := n.(engine := E.Apply(n.engine, op))])
    case AckArrives(d) => AtHome(w, d)
    case OtherAtSender(d) => AtHome(w, d)
    case SenderMoves(op) => w.(engine := E.Apply(w.engine, op))
  }

  /** The step of the sender's own system that a step is, if it is one. */
  function SenderStep(step: Step): Option<D.Step> {
    match step
    case AtSender(step) => Some(step)
    case AckArrives(d) => if IsAck(d) then Some(AckOf(AckedId(d))) else None
    case _ => None
  }

  /** The peer the message was meant for takes it past its policy and its filter and runs the handler. */
  ghost predicate Dispatches(w: World, step: Step, id: string)
    requires Enabled(w, step)
  {
    && step.Receive? && step.id == id
    && id in w.sender.given && w.sender.given[id].peer == step.peer
    && Admitted(step.d) && !IsRepeat(w.peers[step.peer], step.d)
    && !step.d.msg.value.kind.AckKind? && !step.d.msg.value.kind.UnknownKind?
  }

  lemma DispatchesMeans(w: World, ttl: int, step: Step, id: string)
    requires Enabled(w, step) && Dispatches(w, step, id)
    ensures Next(w, ttl, step).peers[step.peer].engine == Dispatch(w.peers[step.peer].engine, step.d.msg.value, step.d)
  {
    HandleStep(w.peers[step.peer], step.d);
    hide E.Inv, Handle, Dispatch;
  }

  /** An ACK that the sender's own handler takes in is the tracker's Acknowledge, and any other message is none. */
  lemma AckIsTrackerStep(w: World, ttl: int, d: Delivery)
    requires E.Inv(w.engine)
    ensures IsAck(d) && D.Enabled(w.sender, AckOf(AckedId(d))) ==>
              AtHome(w, d).sender == D.Next(w.sender, ttl, AckOf(AckedId(d)))
    ensures !IsAck(d) ==> AtHome(w, d).sender == w.sender
  {
    AckTakesPending(Home(w), d);
    var r, n := w.sender.retry, Handle(Home(w), d).0;
    if IsAck(d) {
      var id := AckedId(d);
      assert n.pending == r.table - {id};
      assert r.table.Keys - n.pending.Keys == if id in r.table then {id} else {};
      assert id !in r.table ==> r.table - {id} == r.table;
    } else {
      assert r.table.Keys - r.table.Keys == {};
    }
    assert r.acked + {} == r.acked;
    hide E.Inv, Handle;
  }

  lemma SenderPart(w: World, ttl: int, step: Step)
    requires Enabled(w, step)
    ensures match SenderStep(step)
            case Some(own) => D.Enabled(w.sender, own) && Next(w, ttl, step).sender == D.Next(w.sender, ttl, own)
            case None => Next(w, ttl, step).sender == w.sender
  {
    if step.AckArrives? || step.OtherAtSender? {
      AckIsTrackerStep(w, ttl, step.d);
    }
    hide D.Next, D.Enabled, E.Inv, E.Apply, AtHome, Handle, SentBy;
  }

  // ---- Invariant ----

  ghost predicate OnWire(w: World) {
    forall e <- w.wire :: e.1 in w.sender.given && w.sender.given[e.1].peer == e.0
  }

  ghost predicate Inv(w: World, ttl: int) {
    D.Inv(w.sender, ttl) && OnWire(w) && w.sender.retry.acked <= w.acks
  }

  /** What a step of the sender sends goes to the peer the message was given for. */
  lemma SentToTarget(s: D.State, ttl: int, step: D.Step)
    requires D.Inv(s, ttl) && D.Enabled(s, step)
    ensures var s' := D.Next(s, ttl, step);
            && (forall id <- s.given :: id in s'.given && s'.given[id] == s.given[id])
            && forall e <- SentBy(s, ttl, step) :: e.1 in s'.given && s'.given[e.1].peer == e.0
  {
    match step
    case Retry(r, _, _) =>
      if r.Send? {
        D.HeadAsGiven(s, ttl, s.retry.phase.toRetry[0]);
      }
    case Flush(peer, _, _, _) =>
      forall id | id in s.given && D.Queued(s, id) && Belongs(D.KeyOf(s, id), peer) ensures s.given[id].peer == peer {
        assert D.Consistent(s, id);
        KeyTellsPeer(peer, s.given[id].peer, id);
      }
    case _ =>
    hide R.Inv, R.Next, D.Queued, IsExpired, Unstamp;
  }

  lemma AckedBySender(s: D.State, ttl: int, step: D.Step)
    requires D.Enabled(s, step)
    ensures forall id | id in D.Next(s, ttl, step).retry.acked ::
              id in s.retry.acked || (step.Retry? && step.step == R.AckMsg(id))
  {
    if step.Retry? {
      forall id | id in R.Next(s.retry, step.step).acked ensures id in s.retry.acked || step.step == R.AckMsg(id) {
        R.AckedStep(s.retry, step.step, id);
      }
    }
    hide R.Next, R.Enabled;
  }

  lemma StepInv(w: World, ttl: int, step: Step)
    requires Inv(w, ttl) && Enabled(w, step)
    ensures Inv(Next(w, ttl, step), ttl)
  {
    SenderPart(w, ttl, step);
    if SenderStep(step).Some? {
      D.StepInv(w.sender, ttl, SenderStep(step).value);
      SentToTarget(w.sender, ttl, SenderStep(step).value);
      AckedBySender(w.sender, ttl, SenderStep(step).value);
    }
    hide D.Inv, D.Next, D.Enabled, E.Inv, Handle, SentBy;
  }

  // ---- Whole runs ----

  ghost predicate IsRun(worlds: seq<World>, steps: seq<Step>, ttl: int) {
    && |worlds| == |steps| + 1
    && worlds[0].sender == D.Start(worlds[0].sender.retry.clock) && worlds[0].wire == {} && worlds[0].acks == {}
    && (forall k | 0 <= k < |steps| :: Enabled(worlds[k], steps[k]) && worlds[k + 1] == Next(worlds[k], ttl, steps[k]))
  }

  lemma {:induction false} RunInv(worlds: seq<World>, steps: seq<Step>, ttl: int, k: nat)
    requires IsRun(worlds, steps, ttl) && k < |worlds|
    ensures Inv(worlds[k], ttl)
  {
    if k == 0 {
      assert forall id :: R.Good(worlds[0].sender.retry, id);
    } else {
      RunInv(worlds, steps, ttl, k - 1);
      StepInv(worlds[k - 1], ttl, steps[k - 1]);
    }
  }

  ghost predicate DispatchedBefore(worlds: seq<World>, steps: seq<Step>, ttl: int, k: nat, id: string)
    requires IsRun(worlds, steps, ttl) && k <= |steps|
  {
    exists j :: 0 <= j < k && Dispatches(worlds[j], steps[j], id)
  }

  lemma AckStep(w: World, ttl: int, step: Step, id: string)
    requires Inv(w, ttl) && Enabled(w, step) && id in Next(w, ttl, step).acks
    ensures id in w.acks || Dispatches(w, step, id)
  {
    hide D.Inv, D.Next, D.Enabled, E.Inv, Dispatch, SentBy;
  }

  lemma {:induction false} AckMeansDispatched(worlds: seq<World>, steps: seq<Step>, ttl: int, k: nat, id: string)
    requires IsRun(worlds, steps, ttl) && k <= |steps| && id in worlds[k].acks
    ensures DispatchedBefore(worlds, steps, ttl, k, id)
  {
    RunInv(worlds, steps, ttl, k - 1);
    AckStep(worlds[k - 1], ttl, steps[k - 1], id);
    if id in worlds[k - 1].acks {
      AckMeansDispatched(worlds, steps, ttl, k - 1, id);
    }
    hide Inv, Next, Enabled, Dispatches;
  }

  /** Whatever the network does, an acknowledged message was dispatched by the very peer it was given for. */
  lemma AckedWasDispatched(worlds: seq<World>, steps: seq<Step>, ttl: int, k: nat, id: string) returns (j: nat)
    requires IsRun(worlds, steps, ttl) && k <= |steps| && id in worlds[k].sender.retry.acked
    ensures j < k && Dispatches(worlds[j], steps[j], id)
    ensures var peer, d := steps[j].peer, steps[j].d;
            worlds[j + 1].peers[peer].engine == Dispatch(worlds[j].peers[peer].engine, d.msg.value, d)
  {
    RunInv(worlds, steps, ttl, k);
    AckMeansDispatched(worlds, steps, ttl, k, id);
    hide Inv, Next, Enabled, Dispatches, Dispatch;
    j :| 0 <= j < k && Dispatches(worlds[j], steps[j], id);
    DispatchesMeans(worlds[j], ttl, steps[j], id);
  }

  // ---- Every message, end to end ----

  function SenderSteps(steps: seq<Step>): seq<D.Step> {
    if steps == [] then []
    else
      SenderSteps(steps[..|steps| - 1])
      + match SenderStep(steps[|steps| - 1]) case Some(step) => [step] case None => []
  }

  lemma SenderStepsMore(steps: seq<Step>, k: nat)
    requires k < |steps|
    ensures SenderSteps(steps[..k + 1]) ==
            if SenderStep(steps[k]).Some? then SenderSteps(steps[..k]) + [SenderStep(steps[k]).value]
                else SenderSteps(steps[..k])
  {
    assert steps[..k + 1][..k] == steps[..k];
  }

  lemma RunMore(states: seq<D.State>, steps: seq<D.Step>, ttl: int, step: D.Step)
    requires D.IsRun(states, steps, ttl) && D.Enabled(states[|steps|], step)
    ensures D.IsRun(states + [D.Next(states[|steps|], ttl, step)], steps + [step], ttl)
  {
    hide D.Next, D.Enabled;
  }

  /** Seen from the sender alone, a run of the whole system is a run of its own. */
  lemma {:induction false} SenderRun(worlds: seq<World>, steps: seq<Step>, ttl: int, k: nat)
      returns (states: seq<D.State>)
    requires IsRun(worlds, steps, ttl) && k <= |steps|
    ensures D.IsRun(states, SenderSteps(steps[..k]), ttl)
    ensures states[|states| - 1] == worlds[k].sender
  {
    hide D.Next, D.Enabled, Next, Enabled;
    if k == 0 {
      states := [worlds[0].sender];
    } else {
      states := SenderRun(worlds, steps, ttl, k - 1);
      SenderStepsMore(steps, k - 1);
      SenderPart(worlds[k - 1], ttl, steps[k - 1]);
      hide SenderSteps;
      if SenderStep(steps[k - 1]).Some? {
        RunMore(states, SenderSteps(steps[..k - 1]), ttl, SenderStep(steps[k - 1]).value);
        states := states + [worlds[k].sender];
      }
    }
  }

  /**
   * In every run of the whole system each message given to the send function has been dispatched by its target, or is
   * still in the sender's hands, or left them by a flush or the TTL, or its last chance is past and no queue write of
   * it has succeeded.
   */
  lemma DispatchedOrAccountedFor(worlds: seq<World>, steps: seq<Step>, ttl: int, k: nat, id: string)
      returns (states: seq<D.State>)
    requires IsRun(worlds, steps, ttl) && k <= |steps| && id in worlds[k].sender.given
    ensures D.IsRun(states, SenderSteps(steps[..k]), ttl)
    ensures var s, own := worlds[k].sender, SenderSteps(steps[..k]);
            || DispatchedBefore(worlds, steps, ttl, k, id)
            || id in s.waiting || id in s.retry.table || R.Has(R.Expiring(s.retry), id) || D.Queued(s, id)
            || id in s.flushed || id in s.dropped
            || ((exists j :: 0 <= j < |own| && D.LastChance(states[j], own[j], id))
                && forall j | 0 <= j < |own| :: !D.Writes(states[j], own[j], id))
  {
    states := SenderRun(worlds, steps, ttl, k);
    D.NoMessageLost(states, SenderSteps(steps[..k]), ttl, |states| - 1, id);
    if id in worlds[k].sender.retry.acked {
      var _ := AckedWasDispatched(worlds, steps, ttl, k, id);
    }
    hide Enabled, Next, Dispatches, D.LastChance, D.Writes, D.Next, D.Enabled;
  }

  // ---- What an ACK does at the sender ----

  lemma {:induction false} GoneForGood(worlds: seq<World>, steps: seq<Step>, ttl: int, j: nat, k: nat, id: string)
    requires IsRun(worlds, steps, ttl) && j <= k <= |steps|
    requires id in worlds[j].sender.retry.tracked && id !in worlds[j].sender.retry.table
    ensures id in worlds[k].sender.retry.tracked && id !in worlds[k].sender.retry.table
    decreases k
  {
    hide Enabled, Next;
    if j < k {
      GoneForGood(worlds, steps, ttl, j, k - 1, id);
      RunInv(worlds, steps, ttl, k - 1);
      GoneStep(worlds[k - 1], ttl, steps[k - 1], id);
    }
  }

  lemma GoneStep(w: World, ttl: int, step: Step, id: string)
    requires Inv(w, ttl) && Enabled(w, step) && id in w.sender.retry.tracked && id !in w.sender.retry.table
    ensures id in Next(w, ttl, step).sender.retry.tracked && id !in Next(w, ttl, step).sender.retry.table
  {
    SenderPart(w, ttl, step);
    if SenderStep(step).Some? {
      D.GoneStays(w.sender, ttl, SenderStep(step).value, id);
    }
    hide D.Inv, D.Next, D.Enabled, E.Inv, Handle, SentBy;
  }

  /** Once an ACK for a tracked message has reached the sender's own handler, the message is never pending again. */
  lemma AckedNeverPendingAgain(worlds: seq<World>, steps: seq<Step>, ttl: int, j: nat, k: nat)
    requires IsRun(worlds, steps, ttl) && j < k <= |steps| && steps[j].AckArrives?
    requires AckedId(steps[j].d) in worlds[j].sender.retry.tracked
    ensures AckedId(steps[j].d) !in worlds[k].sender.retry.table
    ensures AckedId(steps[j].d) in worlds[j].sender.retry.table ==>
              AckedId(steps[j].d) in worlds[j + 1].sender.retry.acked
  {
    var w, d := worlds[j], steps[j].d;
    AckTakesPending(Home(w), d);
    assert worlds[j + 1] == AtHome(w, d);
    hide Enabled, Next, Handle;
    GoneForGood(worlds, steps, ttl, j + 1, k, AckedId(d));
  }

  // ---- How often a target dispatches ----

  /** Every peer's filter is as its cache keeps it. */
  ghost predicate PeersSound(w: World) {
    forall peer <- w.peers :: Sliding(w.peers[peer].accepted)
  }

  lemma StepGiven(w: World, ttl: int, step: Step, id: string)
    requires Inv(w, ttl) && Enabled(w, step) && id in w.sender.given
    ensures var w' := Next(w, ttl, step); id in w'.sender.given && w'.sender.given[id] == w.sender.given[id]
  {
    SenderPart(w, ttl, step);
    if SenderStep(step).Some? {
      SentToTarget(w.sender, ttl, SenderStep(step).value);
    }
    hide D.Inv, D.Next, D.Enabled, E.Inv, E.Apply, AtHome, Handle, SentBy;
  }

  lemma {:induction false} GivenStays(worlds: seq<World>, steps: seq<Step>, ttl: int, a: nat, b: nat, id: string)
    requires IsRun(worlds, steps, ttl) && a <= b <= |steps| && id in worlds[a].sender.given
    ensures id in worlds[b].sender.given && worlds[b].sender.given[id] == worlds[a].sender.given[id]
    decreases b
  {
    hide Inv, Enabled, Next;
    if a < b {
      GivenStays(worlds, steps, ttl, a, b - 1, id);
      RunInv(worlds, steps, ttl, b - 1);
      StepGiven(worlds[b - 1], ttl, steps[b - 1], id);
    }
  }

  /** The peer accepts an id in this step. */
  ghost predicate Accepts(w: World, ttl: int, step: Step, peer: string, id: string)
    requires Enabled(w, step)
  {
    var w' := Next(w, ttl, step);
    peer in w.peers && peer in w'.peers && w'.peers[peer].accepted == w.peers[peer].accepted + [id]
  }

  /** A peer's filter either stays as it is or accepts one more id. */
  lemma FilterStep(w: World, ttl: int, step: Step, peer: string)
    requires Enabled(w, step) && peer in w.peers
    ensures peer in Next(w, ttl, step).peers
    ensures var h, h' := w.peers[peer].accepted, Next(w, ttl, step).peers[peer].accepted;
            && (h' == h || (h' != [] && Accepts(w, ttl, step, peer, h'[|h'| - 1])))
            && (Sliding(h) ==> Sliding(h'))
  {
    if (step.Receive? || step.OtherAtPeer?) && step.peer == peer {
      HandleStep(w.peers[peer], step.d);
      if step.d.msg.Some? && Sliding(w.peers[peer].accepted) {
        NoteKeepsSliding(w.peers[peer].accepted, step.d.msg.value.id);
      }
    }
    hide D.Next, D.Enabled, E.Inv, E.Apply, Handle, Dispatch, SentBy, Seen, Sliding;
  }

  ghost predicate AcceptedBetween(
    worlds: seq<World>, steps: seq<Step>, ttl: int, a: nat, b: nat, peer: string, id: string)
    requires IsRun(worlds, steps, ttl) && b <= |steps|
  {
    exists j :: a <= j < b && Accepts(worlds[j], ttl, steps[j], peer, id)
  }

  lemma {:induction false} FilterGrows(worlds: seq<World>, steps: seq<Step>, ttl: int, a: nat, b: nat, peer: string)
    requires IsRun(worlds, steps, ttl) && a <= b <= |steps| && peer in worlds[a].peers
    requires Sliding(worlds[a].peers[peer].accepted)
    ensures peer in worlds[b].peers && Sliding(worlds[b].peers[peer].accepted)
    ensures var from, to := worlds[a].peers[peer].accepted, worlds[b].peers[peer].accepted;
            from <= to && forall p | |from| <= p < |to| :: AcceptedBetween(worlds, steps, ttl, a, b, peer, to[p])
    decreases b
  {
    hide Enabled, Next, Sliding;
    if a < b {
      FilterGrows(worlds, steps, ttl, a, b - 1, peer);
      FilterStep(worlds[b - 1], ttl, steps[b - 1], peer);
      var from, to, more :=
        worlds[a].peers[peer].accepted, worlds[b - 1].peers[peer].accepted, worlds[b].peers[peer].accepted;
      assert to <= more;
      PrefixOfPrefix(from, to, more);
      forall p | |from| <= p < |more| ensures AcceptedBetween(worlds, steps, ttl, a, b, peer, more[p]) {
        if p < |to| {
          assert AcceptedBetween(worlds, steps, ttl, a, b - 1, peer, to[p]);
        }
      }
      hide Accepts;
    }
  }

  /**
   * However often a message is sent, resent and flushed, its target dispatches it twice only if it accepted 1024
   * pairwise distinct other ids in between.
   */
  lemma DispatchedTwiceNeedsFullWindow(worlds: seq<World>, steps: seq<Step>, ttl: int, a: nat, b: nat, id: string)
      returns (others: set<string>)
    requires IsRun(worlds, steps, ttl) && a < b < |steps| && id != "" && PeersSound(worlds[a])
    requires Dispatches(worlds[a], steps[a], id) && Dispatches(worlds[b], steps[b], id)
    ensures |others| == 1024 && id !in others
    ensures forall other <- others :: AcceptedBetween(worlds, steps, ttl, a + 1, b, steps[a].peer, other)
  {
    var peer := steps[a].peer;
    AfterDispatch(worlds[a], ttl, steps[a], id);
    GivenStays(worlds, steps, ttl, a, b, id);
    assert steps[b].peer == peer && peer in worlds[b].peers && !Seen(worlds[b].peers[peer].accepted, id);
    hide Enabled, Next, Dispatches, Sliding, Seen;
    FilterGrows(worlds, steps, ttl, a + 1, b, peer);
    var from, to := worlds[a + 1].peers[peer].accepted, worlds[b].peers[peer].accepted;
    others := FullWindowBetween(from, to, id);
    forall other <- others ensures AcceptedBetween(worlds, steps, ttl, a + 1, b, peer, other) {
      var p :| 0 <= p < |to[|from|..]| && to[|from|..][p] == other;
      assert to[|from| + p] == other;
    }
  }

  /** After dispatching a message its peer has accepted the id last. */
  lemma AfterDispatch(w: World, ttl: int, step: Step, id: string)
    requires Enabled(w, step) && Dispatches(w, step, id) && id != "" && PeersSound(w)
    ensures step.peer in Next(w, ttl, step).peers
    ensures var to := Next(w, ttl, step).peers[step.peer].accepted;
            to != [] && to[|to| - 1] == id && Sliding(to)
  {
    HandleStep(w.peers[step.peer], step.d);
    FilterStep(w, ttl, step, step.peer);
    hide E.Inv, Handle, Dispatch, Seen, Sliding;
  }
}
