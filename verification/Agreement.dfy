/**
 * Two nodes and one task: the originator that sent it and the worker that drives it through the RPCs.
 * Everything else the two nodes do, locally or with other peers, runs in between.
 */
module Agreement {
  import opened Tasks
  import opened Storage
  import opened Dedup
  import opened Routing
  import E = TaskEngine

  /** What stays fixed: the task, the id of its SEND_TASK envelope, and the originator's peer id. */
  datatype Deal = Deal(taskId: string, contextId: string, skillId: string, openerId: string, originPeer: string)

  /**
   * `sent` are the worker's updates for the task in the order it made them, `arrived` how many first copies the
   * originator has taken in, `used` every envelope id that has existed.
   */
  datatype System = System(origin: Node, worker: Node, sent: seq<Envelope>, arrived: nat, used: set<string>)

  datatype Step =
    | DeliverOpener(d: Delivery)
    | CallWorker(rpc: Rpc, envelopeId: string, now: int, putOk: bool)
    | DeliverUpdate(k: nat, d: Delivery)
    | OtherAtOrigin(d: Delivery)
    | OtherAtWorker(d: Delivery)
    | LocalAtOrigin(op: E.Op)
    | LocalAtWorker(op: E.Op)

  function Opener(deal: Deal): Envelope {
    Envelope(deal.openerId, SendTaskKind, SendTaskPayload(deal.taskId, deal.contextId, deal.skillId))
  }

  predicate IsOurs(s: System, deal: Deal, id: string) {
    id == deal.openerId || exists k :: 0 <= k < |s.sent| && s.sent[k].id == id
  }

  /** A message that may register or move the task. */
  predicate Touches(d: Delivery, taskId: string) {
    d.msg.Some? &&
    var env := d.msg.value;
    || (env.payload.SendTaskPayload? && IncomingTask(env.payload, d).id == taskId)
    || (Asks(env).Some? && Asks(env).value.0 == taskId)
  }

  predicate OpTouches(op: E.Op, taskId: string) {
    match op
    case RegisterOp(task, _) => task.id == taskId
    case TransitionOp(id, _, _, _) => id == taskId
  }

  predicate Foreign(s: System, deal: Deal, d: Delivery) {
    !Touches(d, deal.taskId) && (d.msg.Some? ==> !IsOurs(s, deal, d.msg.value.id))
  }

  ghost predicate Ready(s: System) {
    E.Inv(s.origin.engine) && E.Inv(s.worker.engine)
  }

  /**
   * Copies may repeat while their id is still in the receiver's window, and first copies arrive in send order;
   * nothing else is asked of the network.
   */
  ghost predicate Enabled(s: System, deal: Deal, step: Step) {
    && Ready(s)
    && match step
       case DeliverOpener(d) =>
         && d.msg == Some(Opener(deal)) && d.remote == deal.originPeer
         && (deal.taskId in s.worker.engine.tasks ==> Seen(s.worker.accepted, deal.openerId))
       case CallWorker(_, envelopeId, _, _) => envelopeId !in s.used && envelopeId != ""
       case DeliverUpdate(k, d) =>
         && k < |s.sent| && d.msg == Some(s.sent[k])
         && k <= s.arrived
         && (k < s.arrived ==> Seen(s.origin.accepted, s.sent[k].id))
       case OtherAtOrigin(d) => Foreign(s, deal, d)
       case OtherAtWorker(d) => Foreign(s, deal, d)
       case LocalAtOrigin(op) => !OpTouches(op, deal.taskId)
       case LocalAtWorker(op) => !OpTouches(op, deal.taskId)
  }

  function IdOf(d: Delivery): set<string> {
    if d.msg.Some? then {d.msg.value.id} else {}
  }

  function CallWorkerStep(s: System, deal: Deal, rpc: Rpc, envelopeId: string, now: int, putOk: bool): System
    requires IdsAgree(s.worker.engine)
  {
    var (engine, _, news) := CallRpc(s.worker.engine, rpc, deal.taskId, envelopeId, now, putOk);
    s.(worker := s.worker.(engine := engine),
       sent := if news.Some? then s.sent + [news.value] else s.sent,
       used := s.used + {envelopeId})
  }

  ghost function Next(s: System, deal: Deal, step: Step): System
    requires Enabled(s, deal, step)
  {
    match step
    case DeliverOpener(d) => s.(worker := Handle(s.worker, d).0)
    case CallWorker(rpc, envelopeId, now, putOk) => CallWorkerStep(s, deal, rpc, envelopeId, now, putOk)
    case DeliverUpdate(k, d) =>
      s.(origin := Handle(s.origin, d).0,
         arrived := if k == s.arrived && Admitted(d) then s.arrived + 1 else s.arrived)
    case OtherAtOrigin(d) => s.(origin := Handle(s.origin, d).0, used := s.used + IdOf(d))
    case OtherAtWorker(d) => s.(worker := Handle(s.worker, d).0, used := s.used + IdOf(d))
    case LocalAtOrigin(op) => s.(origin := s.origin.(engine := E.Apply(s.origin.engine, op)))
    case LocalAtWorker(op) => s.(worker := s.worker.(engine := E.Apply(s.worker.engine, op)))
  }

  function StatusAsked(env: Envelope): Status {
    if Asks(env).Some? then Asks(env).value.1 else Unspecified
  }

  /** The statuses a task goes through under a list of updates. */
  function Course(updates: seq<Envelope>): seq<Status> {
    [Submitted] + seq(|updates|, i requires 0 <= i < |updates| => StatusAsked(updates[i]))
  }

  /** The originator has just sent the task; the worker has not heard of it. */
  ghost predicate Init(s: System, deal: Deal) {
    && Ready(s)
    && deal.openerId != "" && deal.taskId != "" && deal.originPeer != "local"
    && deal.taskId in s.origin.engine.tasks && s.origin.engine.trail[deal.taskId] == [Submitted]
    && deal.taskId !in s.worker.engine.tasks
    && s.sent == [] && s.arrived == 0
    && deal.openerId in s.used && deal.openerId !in s.worker.accepted
    && (forall id <- s.origin.accepted :: id in s.used)
    && (forall id <- s.worker.accepted :: id in s.used)
  }

  ghost predicate UpdateFits(s: System, deal: Deal, k: nat)
    requires k < |s.sent|
  {
    var env := s.sent[k];
    && Asks(env).Some? && Asks(env).value.0 == deal.taskId
    && env.id != "" && env.id in s.used && env.id != deal.openerId
    && (k >= s.arrived ==> env.id !in s.origin.accepted)
  }

  ghost predicate Network(s: System, deal: Deal) {
    && s.arrived <= |s.sent|
    && deal.openerId != "" && deal.taskId != "" && deal.originPeer != "local" && deal.openerId in s.used
    && (forall id <- s.origin.accepted :: id in s.used)
    && (forall id <- s.worker.accepted :: id in s.used)
    && (forall k | 0 <= k < |s.sent| :: UpdateFits(s, deal, k))
    && (forall j, k | 0 <= j < k < |s.sent| :: s.sent[j].id != s.sent[k].id)
    && (deal.taskId !in s.worker.engine.tasks ==> deal.openerId !in s.worker.accepted)
  }

  ghost predicate OriginAt(s: System, deal: Deal) {
    && s.arrived <= |s.sent|
    && deal.taskId in s.origin.engine.tasks && deal.taskId in s.origin.engine.trail
    && s.origin.engine.trail[deal.taskId] == Course(s.sent[..s.arrived])
  }

  ghost predicate WorkerAt(s: System, deal: Deal) {
    if deal.taskId in s.worker.engine.tasks then
      && s.worker.engine.tasks[deal.taskId].originatorPeerId == deal.originPeer
      && deal.taskId in s.worker.engine.trail
      && s.worker.engine.trail[deal.taskId] == Course(s.sent)
    else s.sent == []
  }

  ghost predicate Inv(s: System, deal: Deal) {
    Ready(s) && Network(s, deal) && OriginAt(s, deal) && WorkerAt(s, deal)
  }

  // ---- Single effects ----

  lemma DispatchLeaves(s: E.State, d: Delivery, taskId: string)
    requires E.Inv(s) && d.msg.Some? && !Touches(d, taskId)
    ensures taskId in s.tasks ==> E.SameAt(s, Dispatch(s, d.msg.value, d), taskId)
    ensures taskId !in s.tasks ==> taskId !in Dispatch(s, d.msg.value, d).tasks
  {
    var env := d.msg.value;
    if taskId in s.tasks {
      if env.payload.SendTaskPayload? {
        E.RegisterLeavesOthers(s, IncomingTask(env.payload, d), d.putOk, taskId);
      }
      if Asks(env).Some? {
        E.TransitionLeavesOthers(s, Asks(env).value.0, Asks(env).value.1, d.now, d.putOk, taskId);
      }
    }
  }

  lemma ApplyLeaves(s: E.State, op: E.Op, taskId: string)
    requires E.Inv(s) && !OpTouches(op, taskId)
    ensures taskId in s.tasks ==> E.SameAt(s, E.Apply(s, op), taskId)
    ensures taskId !in s.tasks ==> taskId !in E.Apply(s, op).tasks
  {
    if taskId in s.tasks {
      match op
      case RegisterOp(task, putOk) => E.RegisterLeavesOthers(s, task, putOk, taskId);
      case TransitionOp(id, next, now, putOk) => E.TransitionLeavesOthers(s, id, next, now, putOk, taskId);
    }
  }

  lemma CourseMore(updates: seq<Envelope>, env: Envelope)
    ensures Course(updates + [env]) == Course(updates) + [StatusAsked(env)]
  {
  }

  lemma CoursePrefix(updates: seq<Envelope>, k: nat)
    requires k <= |updates|
    ensures Course(updates[..k]) == Course(updates)[..k + 1]
  {
  }

  /** The next update is one the originator's engine must accept. */
  lemma NextUpdateAllowed(s: System, deal: Deal)
    requires Inv(s, deal) && s.arrived < |s.sent|
    ensures E.Judge(s.origin.engine.tasks, deal.taskId, StatusAsked(s.sent[s.arrived])).Moved?
  {
    var trail := s.worker.engine.trail[deal.taskId];
    CoursePrefix(s.sent, s.arrived);
    assert Course(s.sent)[s.arrived + 1] == StatusAsked(s.sent[s.arrived]);
    assert Allowed(trail[s.arrived], trail[s.arrived + 1]);
    var at := s.origin.engine.tasks[deal.taskId].status;
    assert at == Course(s.sent[..s.arrived])[s.arrived];
  }

  lemma SeenIsAccepted(accepted: seq<string>, id: string)
    ensures Seen(accepted, id) ==> id in accepted
  {
  }

  // ---- Every step keeps the two nodes in agreement ----

  lemma OpenerInv(s: System, deal: Deal, step: Step)
    requires Inv(s, deal) && step.DeliverOpener? && Enabled(s, deal, step)
    ensures Inv(Next(s, deal, step), deal)
  {
    var d := step.d;
    HandleReady(s.worker, d);
    HandleStep(s.worker, d);
    SeenIsAccepted(s.worker.accepted, deal.openerId);
    if Admitted(d) && !IsRepeat(s.worker, d) {
      assert Course([]) == [Submitted];
      assert s.sent == [];
    }
    hide E.Inv, Handle, Seen;
  }

  /** An RPC either changes nothing, or moves the task and leaves the matching update. */
  ghost predicate Called(s: System, s': System, deal: Deal, env: Envelope) {
    && E.Inv(s'.worker.engine)
    && s'.origin == s.origin && s'.worker.accepted == s.worker.accepted && s'.arrived == s.arrived
    && s'.used == s.used + {env.id}
    && ((s'.worker.engine == s.worker.engine && s'.sent == s.sent)
        || (s'.sent == s.sent + [env] && E.MovedOn(s.worker.engine, s'.worker.engine, deal.taskId, StatusAsked(env))))
  }

  lemma CallEffect(s: System, deal: Deal, rpc: Rpc, envelopeId: string, now: int, putOk: bool)
    requires E.Inv(s.worker.engine) && WorkerAt(s, deal) && deal.originPeer != "local"
    ensures Called(s, CallWorkerStep(s, deal, rpc, envelopeId, now, putOk), deal,
                   RpcEnvelope(rpc, deal.taskId, envelopeId))
  {
    CallRpcEffect(s.worker.engine, rpc, deal.taskId, envelopeId, now, putOk);
    NewsAsksSameMove(rpc, deal.taskId, envelopeId);
    hide E.Inv, CallRpc, RpcTarget, Asks, Course;
  }

  lemma CalledNetwork(s: System, s': System, deal: Deal, env: Envelope)
    requires Network(s, deal) && Called(s, s', deal, env)
    requires env.id !in s.used && env.id != "" && Asks(env).Some? && Asks(env).value.0 == deal.taskId
    ensures Network(s', deal)
  {
    forall k | 0 <= k < |s'.sent| ensures UpdateFits(s', deal, k) {
      if k < |s.sent| {
        assert UpdateFits(s, deal, k);
      }
    }
    forall j, k | 0 <= j < k < |s'.sent| ensures s'.sent[j].id != s'.sent[k].id {
      assert UpdateFits(s, deal, j);
    }
    hide E.Inv;
  }

  lemma CallInv(s: System, deal: Deal, step: Step)
    requires Inv(s, deal) && step.CallWorker? && Enabled(s, deal, step)
    ensures Inv(Next(s, deal, step), deal)
  {
    CallEffect(s, deal, step.rpc, step.envelopeId, step.now, step.putOk);
    var s', env := Next(s, deal, step), RpcEnvelope(step.rpc, deal.taskId, step.envelopeId);
    CalledNetwork(s, s', deal, env);
    CalledCourse(s, s', deal, env);
    hide Next, Called, E.Inv, Network, OriginAt, WorkerAt;
  }

  lemma CalledCourse(s: System, s': System, deal: Deal, env: Envelope)
    requires Inv(s, deal) && Called(s, s', deal, env)
    ensures Ready(s') && OriginAt(s', deal) && WorkerAt(s', deal)
  {
    hide E.Inv, Course, Network;
    CourseMore(s.sent, env);
    assert s.arrived <= |s.sent|;
    assert s'.sent[..s.arrived] == s.sent[..s.arrived];
  }

  /** New ids in the filters that are not ours, and nothing forgotten, leave the network's facts alone. */
  lemma NetworkKept(s: System, s': System, deal: Deal)
    requires Network(s, deal)
    requires s'.sent == s.sent && s'.arrived == s.arrived && s.used <= s'.used
    requires forall id <- s'.origin.accepted :: id in s.origin.accepted || (id in s'.used && !IsOurs(s, deal, id))
    requires forall id <- s'.worker.accepted :: id in s.worker.accepted || (id in s'.used && !IsOurs(s, deal, id))
    requires deal.taskId in s.worker.engine.tasks ==> deal.taskId in s'.worker.engine.tasks
    ensures Network(s', deal)
  {
    forall k | 0 <= k < |s'.sent| ensures UpdateFits(s', deal, k) {
      assert UpdateFits(s, deal, k);
    }
  }

  lemma RepeatedUpdateInv(s: System, deal: Deal, step: Step)
    requires Inv(s, deal) && step.DeliverUpdate? && Enabled(s, deal, step)
    requires step.k < s.arrived || !Admitted(step.d)
    ensures Next(s, deal, step) == s
  {
    HandleStep(s.origin, step.d);
    assert UpdateFits(s, deal, step.k);
    hide E.Inv, Handle, Seen;
  }

  lemma FirstUpdateNetwork(s: System, deal: Deal, step: Step)
    requires Inv(s, deal) && step.DeliverUpdate? && Enabled(s, deal, step)
    requires step.k == s.arrived && Admitted(step.d)
    ensures !IsRepeat(s.origin, step.d)
    ensures Network(Next(s, deal, step), deal)
  {
    HandleStep(s.origin, step.d);
    assert UpdateFits(s, deal, step.k);
    SeenIsAccepted(s.origin.accepted, step.d.msg.value.id);
    var s' := Next(s, deal, step);
    forall k | 0 <= k < |s'.sent| ensures UpdateFits(s', deal, k) {
      assert UpdateFits(s, deal, k);
    }
    hide E.Inv, Handle, Seen, Dispatch, Course;
  }

  /** The originator took in the next update. */
  ghost predicate TookIn(s: System, s': System, deal: Deal) {
    && s.arrived < |s.sent|
    && s'.worker == s.worker && s'.sent == s.sent && s'.arrived == s.arrived + 1
    && E.Inv(s'.origin.engine)
    && E.MovedOn(s.origin.engine, s'.origin.engine, deal.taskId, StatusAsked(s.sent[s.arrived]))
  }

  lemma FirstUpdateEffect(s: System, deal: Deal, step: Step)
    requires Inv(s, deal) && step.DeliverUpdate? && Enabled(s, deal, step)
    requires step.k == s.arrived && Admitted(step.d)
    ensures TookIn(s, Next(s, deal, step), deal)
  {
    var asked := StatusAsked(s.sent[s.arrived]);
    FirstUpdateNetwork(s, deal, step);
    NextUpdateAllowed(s, deal);
    E.TransitionEffect(s.origin.engine, deal.taskId, asked, step.d.now, step.d.putOk);
    HandleStep(s.origin, step.d);
    assert UpdateFits(s, deal, step.k);
    hide E.Inv, E.Judge, E.Transition, Handle, Seen, Course, Network, OriginAt, WorkerAt;
  }

  lemma TookInCourse(s: System, s': System, deal: Deal)
    requires Inv(s, deal) && TookIn(s, s', deal)
    ensures Ready(s') && OriginAt(s', deal) && WorkerAt(s', deal)
  {
    hide E.Inv, Course, Network;
    CourseMore(s.sent[..s.arrived], s.sent[s.arrived]);
    assert s.sent[..s.arrived + 1] == s.sent[..s.arrived] + [s.sent[s.arrived]];
  }

  lemma FirstUpdateInv(s: System, deal: Deal, step: Step)
    requires Inv(s, deal) && step.DeliverUpdate? && Enabled(s, deal, step)
    requires step.k == s.arrived && Admitted(step.d)
    ensures Inv(Next(s, deal, step), deal)
  {
    FirstUpdateNetwork(s, deal, step);
    FirstUpdateEffect(s, deal, step);
    TookInCourse(s, Next(s, deal, step), deal);
    hide Next, TookIn, E.Inv, Network, OriginAt, WorkerAt;
  }

  /** One node's engine left the task alone. */
  ghost predicate LeftAlone(e: E.State, e': E.State, taskId: string) {
    && E.Inv(e')
    && (if taskId in e.tasks then E.SameAt(e, e', taskId) else taskId !in e'.tasks)
  }

  lemma LeftAloneInv(s: System, s': System, deal: Deal)
    requires Inv(s, deal) && Network(s', deal)
    requires s'.sent == s.sent && s'.arrived == s.arrived
    requires LeftAlone(s.origin.engine, s'.origin.engine, deal.taskId)
    requires LeftAlone(s.worker.engine, s'.worker.engine, deal.taskId)
    ensures Inv(s', deal)
  {
    hide E.Inv, Course, Network;
  }

  lemma OtherHandled(n: Node, d: Delivery, taskId: string)
    requires E.Inv(n.engine) && !Touches(d, taskId)
    ensures var n' := Handle(n, d).0;
            && LeftAlone(n.engine, n'.engine, taskId)
            && forall id <- n'.accepted :: id in n.accepted || id in IdOf(d)
  {
    HandleReady(n, d);
    HandleStep(n, d);
    if d.msg.Some? {
      DispatchLeaves(n.engine, d, taskId);
    }
    if taskId in n.engine.tasks {
      assert taskId in n.engine.trail;
    }
    hide E.Inv, Handle, Dispatch, Seen, Touches;
  }

  lemma OtherInv(s: System, deal: Deal, step: Step)
    requires Inv(s, deal) && (step.OtherAtOrigin? || step.OtherAtWorker?) && Enabled(s, deal, step)
    ensures Inv(Next(s, deal, step), deal)
  {
    var n := if step.OtherAtOrigin? then s.origin else s.worker;
    var s' := Next(s, deal, step);
    OtherHandled(n, step.d, deal.taskId);
    Unchanged(s, deal);
    hide E.Inv, E.SameAt, Handle, Touches, Network, OriginAt, WorkerAt, IsOurs;
    NetworkKept(s, s', deal);
    LeftAloneInv(s, s', deal);
  }

  lemma Unchanged(s: System, deal: Deal)
    requires Ready(s)
    ensures LeftAlone(s.origin.engine, s.origin.engine, deal.taskId)
    ensures LeftAlone(s.worker.engine, s.worker.engine, deal.taskId)
  {
  }

  lemma LocalInv(s: System, deal: Deal, step: Step)
    requires Inv(s, deal) && (step.LocalAtOrigin? || step.LocalAtWorker?) && Enabled(s, deal, step)
    ensures Inv(Next(s, deal, step), deal)
  {
    var n := if step.LocalAtOrigin? then s.origin else s.worker;
    ApplyLeaves(n.engine, step.op, deal.taskId);
    Unchanged(s, deal);
    hide E.Inv, E.SameAt, E.Apply, OpTouches, Network, OriginAt, WorkerAt;
    NetworkKept(s, Next(s, deal, step), deal);
    LeftAloneInv(s, Next(s, deal, step), deal);
  }

  lemma StepInv(s: System, deal: Deal, step: Step)
    requires Inv(s, deal) && Enabled(s, deal, step)
    ensures Inv(Next(s, deal, step), deal)
  {
    hide Inv, Next, Enabled;
    match step
    case DeliverOpener(_) => OpenerInv(s, deal, step);
    case CallWorker(_, _, _, _) => CallInv(s, deal, step);
    case DeliverUpdate(k, d) => UpdateInv(s, deal, step);
    case OtherAtOrigin(_) => OtherInv(s, deal, step);
    case OtherAtWorker(_) => OtherInv(s, deal, step);
    case LocalAtOrigin(_) => LocalInv(s, deal, step);
    case LocalAtWorker(_) => LocalInv(s, deal, step);
  }

  lemma UpdateInv(s: System, deal: Deal, step: Step)
    requires Inv(s, deal) && step.DeliverUpdate? && Enabled(s, deal, step)
    ensures Inv(Next(s, deal, step), deal)
  {
    if step.k < s.arrived || !Admitted(step.d) {
      RepeatedUpdateInv(s, deal, step);
    } else {
      FirstUpdateInv(s, deal, step);
    }
    hide Inv, Next;
  }

  // ---- Whole runs ----

  ghost predicate IsRun(states: seq<System>, steps: seq<Step>, deal: Deal) {
    && |states| == |steps| + 1
    && Init(states[0], deal)
    && (forall k | 0 <= k < |steps| ::
          Enabled(states[k], deal, steps[k]) && states[k + 1] == Next(states[k], deal, steps[k]))
  }

  lemma {:induction false} RunInv(states: seq<System>, steps: seq<Step>, deal: Deal, k: nat)
    requires IsRun(states, steps, deal) && k < |states|
    ensures Inv(states[k], deal)
  {
    if k > 0 {
      RunInv(states, steps, deal, k - 1);
      StepInv(states[k - 1], deal, steps[k - 1]);
      hide Inv, Next;
    } else {
      hide E.Inv;
    }
  }

  /**
   * In every run the originator's history of the task is a prefix of the worker's (until the worker has the
   * task it is just SUBMITTED), and once every update has arrived the two histories and statuses are equal.
   */
  lemma HistoriesAgree(states: seq<System>, steps: seq<Step>, deal: Deal, k: nat)
    requires IsRun(states, steps, deal) && k < |states|
    ensures var s, t := states[k], deal.taskId;
            var mine := E.Trail(s.origin.engine, t);
            var theirs := E.Trail(s.worker.engine, t);
            && (t !in s.worker.engine.tasks ==> mine == [Submitted])
            && (t in s.worker.engine.tasks ==> mine <= theirs)
            && (t in s.worker.engine.tasks && s.arrived == |s.sent| ==>
                  mine == theirs && t in s.origin.engine.tasks
                  && s.origin.engine.tasks[t].status == s.worker.engine.tasks[t].status)
  {
    RunInv(states, steps, deal, k);
    var s := states[k];
    CoursePrefix(s.sent, s.arrived);
    assert s.sent[..|s.sent|] == s.sent;
    assert Course([]) == [Submitted];
    hide Network;
  }

  /** Every first copy that the policy lets through is accepted and moves the originator's task as asked. */
  lemma FirstCopyAccepted(states: seq<System>, steps: seq<Step>, deal: Deal, k: nat)
    requires IsRun(states, steps, deal) && k < |steps|
    requires steps[k].DeliverUpdate? && steps[k].k == states[k].arrived && Admitted(steps[k].d)
    ensures var s, s', t := states[k], states[k + 1], deal.taskId;
            var asked := StatusAsked(steps[k].d.msg.value);
            && E.Judge(s.origin.engine.tasks, t, asked).Moved?
            && t in s'.origin.engine.tasks && s'.origin.engine.tasks[t].status == asked
            && E.Trail(s'.origin.engine, t) == E.Trail(s.origin.engine, t) + [asked]
  {
    RunInv(states, steps, deal, k);
    var s, d := states[k], steps[k].d;
    NextUpdateAllowed(s, deal);
    FirstUpdateNetwork(s, deal, steps[k]);
    HandleStep(s.origin, d);
    assert UpdateFits(s, deal, s.arrived);
    hide E.Judge, Handle, Network;
  }

  // ---- What acknowledgements tell ----

  /** The originator acknowledges the update of this id to the worker. */
  predicate Acks(s: System, step: Step, id: string)
    requires IdsAgree(s.origin.engine)
  {
    step.DeliverUpdate? && Handle(s.origin, step.d).1 == Some(id)
  }

  ghost predicate Grown(s: System, s': System) {
    s.arrived <= s'.arrived && s.sent <= s'.sent
  }

  lemma StepGrows(s: System, deal: Deal, step: Step)
    requires Inv(s, deal) && Enabled(s, deal, step)
    ensures Grown(s, Next(s, deal, step))
  {
    if step.CallWorker? {
      CallEffect(s, deal, step.rpc, step.envelopeId, step.now, step.putOk);
    }
    hide E.Inv, Handle, Network, OriginAt, CallWorkerStep;
  }

  lemma GrownTwice(a: System, b: System, c: System)
    requires Grown(a, b) && Grown(b, c)
    ensures Grown(a, c)
  {
  }

  lemma {:induction false} RunGrows(states: seq<System>, steps: seq<Step>, deal: Deal, j: nat, k: nat)
    requires IsRun(states, steps, deal) && j <= k < |states|
    ensures Grown(states[j], states[k])
    decreases k
  {
    hide Inv, Next, Enabled, Init, Ready;
    if j < k {
      RunGrows(states, steps, deal, j, k - 1);
      RunInv(states, steps, deal, k - 1);
      StepGrows(states[k - 1], deal, steps[k - 1]);
      GrownTwice(states[j], states[k - 1], states[k]);
      hide Grown;
    }
  }

  lemma AckMeansArrived(s: System, deal: Deal, step: Step, id: string)
    requires Inv(s, deal) && Enabled(s, deal, step) && Acks(s, step, id)
    ensures step.k < |s.sent| && s.sent[step.k].id == id
    ensures Next(s, deal, step).arrived > step.k
  {
    hide E.Inv, Dispatch, Seen, Network, OriginAt, WorkerAt;
  }

  lemma AckedHasArrived(states: seq<System>, steps: seq<Step>, deal: Deal, j: nat, k: nat, u: nat)
    requires IsRun(states, steps, deal) && j < k < |states| && u < |states[k].sent|
    requires IdsAgree(states[j].origin.engine) && Acks(states[j], steps[j], states[k].sent[u].id)
    ensures states[k].arrived > u
  {
    RunInv(states, steps, deal, j);
    RunInv(states, steps, deal, k);
    RunGrows(states, steps, deal, j, k);
    RunGrows(states, steps, deal, j + 1, k);
    var s, t, step := states[j], states[k], steps[j];
    assert Enabled(s, deal, step) && states[j + 1] == Next(s, deal, step);
    hide Acks, Next, Enabled, IsRun, Ready, OriginAt, WorkerAt;
    AckMeansArrived(s, deal, step, t.sent[u].id);
    SameUpdate(t, deal, step.k, u);
  }

  /**
   * Once the originator has acknowledged every update the worker has sent, in a run with first copies in order, the two
   * agree.
   */
  lemma AllAcknowledgedAgree(states: seq<System>, steps: seq<Step>, deal: Deal, k: nat)
    requires IsRun(states, steps, deal) && k < |states| && deal.taskId in states[k].worker.engine.tasks
    requires forall u | 0 <= u < |states[k].sent| ::
               exists j :: 0 <= j < k && IdsAgree(states[j].origin.engine)
                   && Acks(states[j], steps[j], states[k].sent[u].id)
    ensures E.Trail(states[k].origin.engine, deal.taskId) == E.Trail(states[k].worker.engine, deal.taskId)
  {
    var s := states[k];
    RunInv(states, steps, deal, k);
    HistoriesAgree(states, steps, deal, k);
    assert s.arrived <= |s.sent|;
    hide Inv, IsRun, Acks;
    if s.sent != [] {
      var last := |s.sent| - 1;
      var j :| 0 <= j < k && IdsAgree(states[j].origin.engine) && Acks(states[j], steps[j], s.sent[last].id);
      AckedHasArrived(states, steps, deal, j, k, last);
    }
  }

  lemma SameUpdate(s: System, deal: Deal, i: nat, j: nat)
    requires Network(s, deal) && i < |s.sent| && j < |s.sent| && s.sent[i].id == s.sent[j].id
    ensures i == j
  {
  }

  /**
   * The window is what agreement rests on: one more copy of SEND_TASK keeps the agreement invariant if and only if its
   * id is in the worker's window, or the worker has made no move yet; otherwise it starts the worker's task over. If an
   * update had arrived, the histories disagree at once.
   */
  lemma LateOpenerBreaksAgreement(s: System, deal: Deal, d: Delivery)
    requires Inv(s, deal) && deal.taskId in s.worker.engine.tasks
    requires d.msg == Some(Opener(deal)) && Admitted(d)
    ensures d.remote == deal.originPeer ==>
              (Inv(s.(worker := Handle(s.worker, d).0), deal)
               <==> Seen(s.worker.accepted, deal.openerId) || s.sent == [])
    ensures s.arrived > 0 ==>
              (E.Trail(s.origin.engine, deal.taskId) <= E.Trail(Handle(s.worker, d).0.engine, deal.taskId)
               <==> Seen(s.worker.accepted, deal.openerId))
  {
    Trails(s, deal);
    HandleStep(s.worker, d);
    assert s.(worker := s.worker) == s;
    assert |Course(s.sent)| == |s.sent| + 1;
    if Seen(s.worker.accepted, deal.openerId) {
      hide Inv, E.Inv, Handle, Seen, Course;
      assert Course(s.sent)[..s.arrived + 1] <= Course(s.sent);
    } else {
      Restarted(s, deal, d);
      RestartKeepsInv(s, deal, d);
      hide Inv, E.Inv, E.Trail, Handle, Seen, Course;
    }
  }

  lemma Restarted(s: System, deal: Deal, d: Delivery)
    requires Ready(s) && d.msg == Some(Opener(deal)) && Admitted(d) && deal.openerId != "" && deal.taskId != ""
    requires !Seen(s.worker.accepted, deal.openerId)
    ensures var worker := Handle(s.worker, d).0;
            && E.Inv(worker.engine) && deal.taskId in worker.engine.tasks && deal.taskId in worker.engine.trail
            && E.Trail(worker.engine, deal.taskId) == [Submitted]
            && worker.engine.tasks[deal.taskId].originatorPeerId == d.remote
            && worker.accepted == s.worker.accepted + [deal.openerId]
  {
    HandleReady(s.worker, d);
    HandleStep(s.worker, d);
    hide E.Inv, Handle, Seen;
  }

  /** A restart of the worker's task fits the invariant exactly if the worker had made no move. */
  lemma RestartKeepsInv(s: System, deal: Deal, d: Delivery)
    requires Inv(s, deal) && deal.taskId in s.worker.engine.tasks
    requires d.msg == Some(Opener(deal)) && Admitted(d) && !Seen(s.worker.accepted, deal.openerId)
    ensures d.remote == deal.originPeer ==> (Inv(s.(worker := Handle(s.worker, d).0), deal) <==> s.sent == [])
  {
    Restarted(s, deal, d);
    var s' := s.(worker := Handle(s.worker, d).0);
    hide E.Inv, Handle, Seen;
    assert |Course(s.sent)| == |s.sent| + 1;
    assert s.sent == [] ==> Course(s.sent) == [Submitted];
    forall k | 0 <= k < |s.sent| ensures UpdateFits(s', deal, k) {
      assert UpdateFits(s, deal, k);
    }
    hide Course, UpdateFits;
  }

  /** If none had arrived, they disagree as soon as the next one does, in order as it may be. */
  lemma LateOpenerBreaksNextUpdate(s: System, deal: Deal, d: Delivery, update: Delivery)
    requires Inv(s, deal) && deal.taskId in s.worker.engine.tasks && s.arrived == 0 && s.sent != []
    requires d.msg == Some(Opener(deal)) && Admitted(d) && !Seen(s.worker.accepted, deal.openerId)
    requires update.msg == Some(s.sent[0]) && Admitted(update)
    ensures var origin, worker := Handle(s.origin, update).0, Handle(s.worker, d).0;
            !(E.Trail(origin.engine, deal.taskId) <= E.Trail(worker.engine, deal.taskId))
  {
    HandleStep(s.worker, d);
    FirstUpdateEffect(s, deal, DeliverUpdate(0, update));
    hide E.Inv, Handle, Seen, Network;
  }

  /** What one more copy of an update does to the originator's engine. */
  lemma CopyEffect(s: System, deal: Deal, k: nat, d: Delivery)
    requires Inv(s, deal) && k < |s.sent| && d.msg == Some(s.sent[k]) && Admitted(d)
    ensures Handle(s.origin, d).0.engine ==
            if Seen(s.origin.accepted, s.sent[k].id) then s.origin.engine
            else E.Transition(s.origin.engine, deal.taskId, StatusAsked(s.sent[k]), d.now, d.putOk)
  {
    assert UpdateFits(s, deal, k);
    HandleStep(s.origin, d);
    hide E.Inv, E.Transition, Handle, Seen, OriginAt, WorkerAt;
  }

  /** The two histories as the invariant has them. */
  lemma {:induction false} Trails(s: System, deal: Deal)
    requires Inv(s, deal) && deal.taskId in s.worker.engine.tasks
    ensures deal.taskId in s.origin.engine.tasks && deal.taskId in s.worker.engine.trail
    ensures E.Trail(s.origin.engine, deal.taskId) == Course(s.sent)[..s.arrived + 1]
    ensures E.Trail(s.worker.engine, deal.taskId) == Course(s.sent)
    ensures s.arrived < |s.sent| ==> Course(s.sent)[s.arrived + 1] == StatusAsked(s.sent[s.arrived])
  {
    CoursePrefix(s.sent, s.arrived);
    hide E.Inv, Network;
  }

  lemma {:induction false} PrefixMore(course: seq<Status>, n: nat, x: Status)
    requires n <= |course|
    ensures course[..n] + [x] <= course <==> n < |course| && course[n] == x
  {
    if course[..n] + [x] <= course {
      assert (course[..n] + [x])[n] == x;
    }
  }

  /** A move attempted on a task that is `n` statuses into a course keeps it on the course, or does not. */
  lemma {:induction false} MoveKeepsCourse(e: E.State, taskId: string, asked: Status, now: int, putOk: bool,
      course: seq<Status>, n: nat)
    requires E.Inv(e) && n <= |course| && E.Trail(e, taskId) == course[..n]
    ensures E.Trail(E.Transition(e, taskId, asked, now, putOk), taskId) <= course
            <==> E.Judge(e.tasks, taskId, asked).Refused? || (n < |course| && course[n] == asked)
  {
    E.TransitionEffect(e, taskId, asked, now, putOk);
    PrefixMore(course, n, asked);
    hide E.Inv, E.Judge, E.Transition;
  }

  /**
   * What send order and the window are for. Let any copy of any update arrive, early, late or in order: the
   * originator's history stays a prefix of the worker's if and only if the copy's id is in the window, the engine
   * refuses the move, or the move happens to be the next one.
   */
  lemma {:induction false} CopyKeepsAgreement(s: System, deal: Deal, k: nat, d: Delivery)
    requires Inv(s, deal) && deal.taskId in s.worker.engine.tasks
    requires k < |s.sent| && d.msg == Some(s.sent[k]) && Admitted(d)
    ensures var engine := Handle(s.origin, d).0.engine;
            E.Trail(engine, deal.taskId) <= E.Trail(s.worker.engine, deal.taskId)
            <==> || Seen(s.origin.accepted, s.sent[k].id)
                 || E.Judge(s.origin.engine.tasks, deal.taskId, StatusAsked(s.sent[k])).Refused?
                 || (s.arrived < |s.sent| && StatusAsked(s.sent[k]) == StatusAsked(s.sent[s.arrived]))
  {
    var asked := StatusAsked(s.sent[k]);
    CopyEffect(s, deal, k, d);
    Trails(s, deal);
    MoveKeepsCourse(s.origin.engine, deal.taskId, asked, d.now, d.putOk, Course(s.sent), s.arrived + 1);
    hide Inv, E.Inv, E.Judge, E.Transition, E.Trail, Handle, Seen, StatusAsked;
  }

  /**
   * An update that overtakes an earlier one and is refused is lost although it is acknowledged: its id is in the window
   * from then on, so every further copy is dropped and unanswered.
   */
  lemma {:induction false} OvertakingUpdateIsLost(s: System, deal: Deal, k: nat, d: Delivery, again: Delivery)
    requires Inv(s, deal) && s.arrived <= k < |s.sent|
    requires d.msg == Some(s.sent[k]) && again.msg == d.msg && Admitted(d) && Admitted(again)
    requires E.Judge(s.origin.engine.tasks, deal.taskId, StatusAsked(s.sent[k])).Refused?
    ensures var (n, ack) := Handle(s.origin, d);
            n.engine == s.origin.engine && ack == Some(s.sent[k].id) && Handle(n, again) == (n, None)
  {
    assert UpdateFits(s, deal, k);
    SeenIsAccepted(s.origin.accepted, s.sent[k].id);
    CopyEffect(s, deal, k, d);
    HandleStep(s.origin, d);
    RepeatIsSilent(s.origin, d);
    var n := Handle(s.origin, d).0;
    assert n.accepted[|n.accepted| - 1] == s.sent[k].id;
    RepeatDropped(n.accepted, |n.accepted| - 1);
    RepeatIsSilent(n, again);
    hide E.Inv, E.Judge, Handle, Seen, Course, OriginAt, WorkerAt;
  }

  // ---- The order of first copies ----

  /** First copies of every update still to arrive, in some order. */
  ghost predicate IsArrival(s: System, order: seq<nat>, ds: seq<Delivery>) {
    && |order| == |ds| && s.arrived + |ds| == |s.sent|
    && (forall i | 0 <= i < |ds| ::
        s.arrived <= order[i] < |s.sent| && ds[i].msg == Some(s.sent[order[i]]) && Admitted(ds[i]))
    && (forall i, j | 0 <= i < j < |ds| :: order[i] != order[j])
  }

  /** The status asked for by the i-th arrival. */
  function AskedAt(s: System, order: seq<nat>, i: nat): Status
    requires i < |order| && order[i] < |s.sent|
  {
    StatusAsked(s.sent[order[i]])
  }

  /** The moves that the first i arrivals ask the originator's engine for. */
  function MovesAsked(s: System, deal: Deal, order: seq<nat>, ds: seq<Delivery>): seq<E.Op>
    requires |order| == |ds| && forall i | 0 <= i < |order| :: order[i] < |s.sent|
  {
    seq(|ds|, i requires 0 <= i < |ds| => E.TransitionOp(deal.taskId, AskedAt(s, order, i), ds[i].now, ds[i].putOk))
  }

  lemma {:induction false} ArrivalStep(s: System, deal: Deal, order: seq<nat>, ds: seq<Delivery>, i: nat)
    requires Inv(s, deal) && IsArrival(s, order, ds) && i < |ds|
    ensures HandleAll(s.origin, ds[..i + 1]).engine ==
            E.Apply(HandleAll(s.origin, ds[..i]).engine, MovesAsked(s, deal, order, ds)[i])
  {
    var env := s.sent[order[i]];
    assert UpdateFits(s, deal, order[i]);
    var n := HandleAll(s.origin, ds[..i]);
    InHistory(s.origin, ds[..i], env.id);
    forall j | 0 <= j < i ensures !Carries(ds[..i][j], env.id) {
      assert ds[j].msg == Some(s.sent[order[j]]);
    }
    SeenIsAccepted(n.accepted, env.id);
    assert ds[..i + 1][..i] == ds[..i];
    HandleStep(n, ds[i]);
    hide E.Inv, Handle, Seen, E.Transition, OriginAt, WorkerAt;
  }

  lemma {:induction false} ArrivalRun(n: Node, e: E.State, ds: seq<Delivery>, ops: seq<E.Op>, i: nat)
    requires E.Inv(n.engine) && e == n.engine && |ops| == |ds| && i <= |ds|
    requires forall j | 0 <= j < |ds| ::
        HandleAll(n, ds[..j + 1]).engine == E.Apply(HandleAll(n, ds[..j]).engine, ops[j])
    ensures HandleAll(n, ds[..i]).engine == E.Run(e, ops[..i])
  {
    hide E.Inv, E.Apply;
    if i > 0 {
      ArrivalRun(n, e, ds, ops, i - 1);
      hide HandleAll, E.Run;
      E.RunMore(e, ops, i - 1);
      assert HandleAll(n, ds[..i - 1 + 1]).engine == E.Apply(HandleAll(n, ds[..i - 1]).engine, ops[i - 1]);
    }
  }

  lemma {:induction false} TailMatches(course: seq<Status>, n: nat, rest: seq<Status>)
    requires n + |rest| == |course|
    ensures course[..n] + rest == course <==> rest == course[n..]
  {
    assert course[..n] + course[n..] == course;
    assert (course[..n] + rest)[n..] == rest;
  }

  /** The worker's history is a walk, so moves that take the originator's to its end are all accepted. */
  lemma {:induction false} CourseTaken(s: System, deal: Deal, ops: seq<E.Op>)
    requires Inv(s, deal) && deal.taskId in s.worker.engine.tasks && E.AreMovesOf(ops, deal.taskId)
    requires s.arrived + |ops| == |s.sent|
    ensures E.Trail(E.Run(s.origin.engine, ops), deal.taskId) == E.Trail(s.worker.engine, deal.taskId)
            <==> E.Nexts(ops) == Course(s.sent)[s.arrived + 1..]
  {
    Trails(s, deal);
    assert IsPath(s.worker.engine.trail[deal.taskId]);
    assert |Course(s.sent)| == |s.sent| + 1 && E.Inv(s.origin.engine) && |E.Nexts(ops)| == |ops|;
    E.MovesTakenExactly(s.origin.engine, ops, deal.taskId);
    hide Inv, E.Inv, E.Run, E.Nexts, E.AreMovesOf, Course, IsPath, Network;
    TailMatches(Course(s.sent), s.arrived + 1, E.Nexts(ops));
  }

  lemma {:induction false} ArrivalEngine(s: System, deal: Deal, order: seq<nat>, ds: seq<Delivery>)
    requires Inv(s, deal) && IsArrival(s, order, ds)
    ensures HandleAll(s.origin, ds).engine == E.Run(s.origin.engine, MovesAsked(s, deal, order, ds))
  {
    var ops := MovesAsked(s, deal, order, ds);
    forall j | 0 <= j < |ds| ensures HandleAll(s.origin, ds[..j + 1]).engine ==
        E.Apply(HandleAll(s.origin, ds[..j]).engine, ops[j]) {
      ArrivalStep(s, deal, order, ds, j);
    }
    assert ds[..|ds|] == ds && ops[..|ds|] == ops;
    hide E.Inv, Network, OriginAt, WorkerAt, E.Apply, HandleAll, E.Run, MovesAsked, IsArrival;
    ArrivalRun(s.origin, s.origin.engine, ds, ops, |ds|);
  }

  lemma {:induction false} AskedInPlace(s: System, deal: Deal, order: seq<nat>, ds: seq<Delivery>)
    requires IsArrival(s, order, ds)
    ensures E.AreMovesOf(MovesAsked(s, deal, order, ds), deal.taskId)
    ensures E.Nexts(MovesAsked(s, deal, order, ds)) == Course(s.sent)[s.arrived + 1..]
            <==> forall i | 0 <= i < |ds| :: AskedAt(s, order, i) == StatusAsked(s.sent[s.arrived + i])
  {
    var nexts, rest := E.Nexts(MovesAsked(s, deal, order, ds)), Course(s.sent)[s.arrived + 1..];
    assert |nexts| == |rest| == |ds|;
    assert forall i | 0 <= i < |ds| :: nexts[i] == AskedAt(s, order, i);
    assert forall i | 0 <= i < |ds| :: rest[i] == StatusAsked(s.sent[s.arrived + i]);
    hide AskedAt, StatusAsked, Course, E.Nexts, MovesAsked;
  }

  /**
   * Whatever order the first copies arrive in, the two histories end up equal if and only if, place by place, they ask
   * for the moves the worker made; so an order that swaps two different moves breaks agreement.
   */
  lemma {:induction false} ArrivalOrderDecides(s: System, deal: Deal, order: seq<nat>, ds: seq<Delivery>)
    requires Inv(s, deal) && deal.taskId in s.worker.engine.tasks && IsArrival(s, order, ds)
    ensures E.Trail(HandleAll(s.origin, ds).engine, deal.taskId) == E.Trail(s.worker.engine, deal.taskId)
            <==> forall i | 0 <= i < |ds| :: AskedAt(s, order, i) == StatusAsked(s.sent[s.arrived + i])
  {
    ArrivalEngine(s, deal, order, ds);
    AskedInPlace(s, deal, order, ds);
    CourseTaken(s, deal, MovesAsked(s, deal, order, ds));
    hide Inv, HandleAll, E.Run, AskedAt, StatusAsked, Course, E.Nexts, MovesAsked;
  }

  /** Sending a task under fresh identifiers is a way into such a run. */
  lemma SendTaskStartsDeal(origin: Node, worker: Node, deal: Deal, used: set<string>, now: int, putOk: bool)
    requires E.Inv(origin.engine) && E.Inv(worker.engine)
    requires deal.openerId != "" && deal.taskId != "" && deal.originPeer != "local"
    requires deal.taskId !in worker.engine.tasks && deal.openerId !in used
    requires (forall id <- origin.accepted :: id in used) && (forall id <- worker.accepted :: id in used)
    ensures var task := Task(deal.taskId, deal.contextId, Submitted, deal.skillId, "local", now, now);
            var origin' := origin.(engine := E.Register(origin.engine, task, putOk));
            Init(System(origin', worker, [], 0, used + {deal.openerId}), deal)
  {
    var task := Task(deal.taskId, deal.contextId, Submitted, deal.skillId, "local", now, now);
    E.RegisterKeepsInv(origin.engine, task, putOk);
    hide E.Inv;
  }

  // ---- Two paths that bypass the worker RPCs ----

  /** A first copy asks the engine of a node for its move and does nothing else to the task. */
  lemma FirstCopyAsks(n: Node, d: Delivery)
    requires E.Inv(n.engine) && Admitted(d) && Asks(d.msg.value).Some?
    requires Filtered(d.msg.value) && !Seen(n.accepted, d.msg.value.id)
    ensures Handle(n, d).0.engine ==
            E.Transition(n.engine, Asks(d.msg.value).value.0, Asks(d.msg.value).value.1, d.now, d.putOk)
  {
    HandleStep(n, d);
    hide E.Inv, E.Transition, Handle, Seen;
  }

  /** A FAIL for the task under an id that the originator has not seen, as CancelTask sends it. */
  predicate IsCancelNews(s: System, deal: Deal, d: Delivery) {
    && Admitted(d) && Filtered(d.msg.value) && !Seen(s.origin.accepted, d.msg.value.id)
    && d.msg.value.kind.FailKind? && d.msg.value.payload == FailPayload(deal.taskId)
  }

  /**
   * CancelTask tells the originator FAIL before it tries to move its own task to CANCELED. Afterwards the
   * originator's history is still a prefix of the worker's if and only if the originator refuses FAIL or was about to
   * hear it anyway.
   */
  lemma CancelKeepsAgreement(s: System, deal: Deal, d: Delivery, now: int, putOk: bool)
    requires Inv(s, deal) && deal.taskId in s.worker.engine.tasks && IsCancelNews(s, deal, d)
    ensures var worker := E.Transition(s.worker.engine, deal.taskId, Canceled, now, putOk);
            E.Trail(Handle(s.origin, d).0.engine, deal.taskId) <= E.Trail(worker, deal.taskId)
            <==> || E.Judge(s.origin.engine.tasks, deal.taskId, Failed).Refused?
                 || (s.arrived < |s.sent| && StatusAsked(s.sent[s.arrived]) == Failed)
  {
    FirstCopyAsks(s.origin, d);
    Trails(s, deal);
    var course, n := Course(s.sent), s.arrived + 1;
    var more := E.Trail(E.Transition(s.worker.engine, deal.taskId, Canceled, now, putOk), deal.taskId);
    assert |course| == |s.sent| + 1;
    hide Inv, Handle, Seen, Course, E.Inv, E.Transition, E.Trail, E.Judge, Allowed, StatusAsked;
    AttemptedMove(s.worker.engine, deal.taskId, Canceled, now, putOk);
    CanceledCourse(course, more, n);
    MoveKeepsCourse(s.origin.engine, deal.taskId, Failed, d.now, d.putOk, more, n);
  }

  /** A CANCELED at the end of a course changes nothing about FAILED on it. */
  lemma CanceledCourse(course: seq<Status>, more: seq<Status>, n: nat)
    requires n <= |course| && (more == course + [Canceled] || more == course + [])
    ensures n <= |more| && more[..n] == course[..n]
    ensures n < |more| && more[n] == Failed <==> n < |course| && course[n] == Failed
  {
  }

  /** From a drained state the histories are equal afterwards if and only if the task had already ended. */
  lemma CancelAgreesOnlyIfRefused(s: System, deal: Deal, d: Delivery, now: int, putOk: bool)
    requires Inv(s, deal) && deal.taskId in s.worker.engine.tasks && s.arrived == |s.sent| && IsCancelNews(s, deal, d)
    ensures var worker := E.Transition(s.worker.engine, deal.taskId, Canceled, now, putOk);
            E.Trail(Handle(s.origin, d).0.engine, deal.taskId) == E.Trail(worker, deal.taskId)
            <==> s.worker.engine.tasks[deal.taskId].status.IsTerminal()
  {
    FirstCopyAsks(s.origin, d);
    Trails(s, deal);
    SameStatus(s, deal);
    assert Course(s.sent)[..s.arrived + 1] == Course(s.sent);
    hide Inv, Handle, Seen, Course, E.Inv, E.Transition, E.Trail, E.Judge, Allowed;
    CancelAndFailDiffer(E.Trail(s.worker.engine, deal.taskId), s.worker.engine.tasks[deal.taskId].status);
    AttemptedMove(s.worker.engine, deal.taskId, Canceled, now, putOk);
    AttemptedMove(s.origin.engine, deal.taskId, Failed, d.now, d.putOk);
  }

  /**
   * A refused cancel can still break agreement: with COMPLETE under way the worker's task has ended and stays as it is,
   * but the originator, still at WORKING, takes the FAIL.
   */
  lemma RefusedCancelOvertakesResult(s: System, deal: Deal, d: Delivery, now: int, putOk: bool)
    requires Inv(s, deal) && deal.taskId in s.worker.engine.tasks && IsCancelNews(s, deal, d)
    requires s.arrived + 1 == |s.sent| && StatusAsked(s.sent[s.arrived]) == Completed
    ensures E.Judge(s.worker.engine.tasks, deal.taskId, Canceled).Refused?
    ensures E.Transition(s.worker.engine, deal.taskId, Canceled, now, putOk) == s.worker.engine
    ensures !(E.Trail(Handle(s.origin, d).0.engine, deal.taskId) <= E.Trail(s.worker.engine, deal.taskId))
  {
    BeforeResult(s, deal);
    CancelKeepsAgreement(s, deal, d, now, putOk);
    hide Inv, E.Inv, E.Trail, Handle, Seen, StatusAsked, IsCancelNews;
  }

  /** With COMPLETE alone under way the worker's task is COMPLETED and the originator's is WORKING. */
  lemma BeforeResult(s: System, deal: Deal)
    requires Inv(s, deal) && deal.taskId in s.worker.engine.tasks
    requires s.arrived + 1 == |s.sent| && StatusAsked(s.sent[s.arrived]) == Completed
    ensures deal.taskId in s.origin.engine.tasks && s.origin.engine.tasks[deal.taskId].status == Working
    ensures s.worker.engine.tasks[deal.taskId].status == Completed
  {
    Trails(s, deal);
    var trail := s.worker.engine.trail[deal.taskId];
    assert IsPath(trail) && trail[s.arrived + 1] == Completed;
    E.PathShape(trail, s.arrived + 1);
    hide Network, Course, StatusAsked, IsPath;
    assert E.Trail(s.origin.engine, deal.taskId) == trail[..s.arrived + 1];
  }

  // ---- A run to that state ----

  lemma OpenerTaken(s: System, deal: Deal, d: Delivery)
    requires Inv(s, deal) && deal.taskId !in s.worker.engine.tasks
    requires d.msg == Some(Opener(deal)) && d.remote == deal.originPeer && Admitted(d)
    ensures Enabled(s, deal, DeliverOpener(d))
    ensures var s' := Next(s, deal, DeliverOpener(d));
            && Inv(s', deal) && s' == s.(worker := s'.worker) && deal.taskId in s'.worker.engine.tasks
            && s'.worker.engine.tasks[deal.taskId].status == Submitted
  {
    OpenerInv(s, deal, DeliverOpener(d));
    HandleStep(s.worker, d);
    SeenIsAccepted(s.worker.accepted, deal.openerId);
    hide E.Inv, Handle, Seen, OriginAt, WorkerAt;
  }

  lemma WorkerMoves(s: System, deal: Deal, rpc: Rpc, id: string, now: int, putOk: bool)
    requires Inv(s, deal) && deal.taskId in s.worker.engine.tasks && id !in s.used && id != ""
    requires Allowed(s.worker.engine.tasks[deal.taskId].status, RpcTarget(rpc))
    ensures Enabled(s, deal, CallWorker(rpc, id, now, putOk))
    ensures var s' := Next(s, deal, CallWorker(rpc, id, now, putOk));
            && Inv(s', deal) && deal.taskId in s'.worker.engine.tasks
            && s'.worker.engine.tasks[deal.taskId].status == RpcTarget(rpc)
            && s'.sent == s.sent + [RpcEnvelope(rpc, deal.taskId, id)] && s'.used == s.used + {id}
            && s'.origin == s.origin && s'.arrived == s.arrived
  {
    CallInv(s, deal, CallWorker(rpc, id, now, putOk));
    CallRpcEffect(s.worker.engine, rpc, deal.taskId, id, now, putOk);
    hide E.Inv, Network, OriginAt, Course, Allowed, RpcTarget, E.Transition;
  }

  lemma NextUpdateTaken(s: System, deal: Deal, d: Delivery)
    requires Inv(s, deal) && s.arrived < |s.sent| && d.msg == Some(s.sent[s.arrived]) && Admitted(d)
    ensures Enabled(s, deal, DeliverUpdate(s.arrived, d))
    ensures var s' := Next(s, deal, DeliverUpdate(s.arrived, d));
            Inv(s', deal) && s' == s.(origin := s'.origin, arrived := s.arrived + 1)
  {
    FirstUpdateInv(s, deal, DeliverUpdate(s.arrived, d));
    hide Inv, Handle, E.Inv;
  }

  /** The worker has the task and has said WORKING, the update is still under way. */
  lemma WorkReported(s: System, deal: Deal, opener: Delivery, working: string, now: int, putOk: bool)
      returns (states: seq<System>, steps: seq<Step>)
    requires Init(s, deal)
    requires opener.msg == Some(Opener(deal)) && opener.remote == deal.originPeer && Admitted(opener)
    requires working !in s.used && working != ""
    ensures IsRun(states, steps, deal) && states[0] == s && |steps| == 2
    ensures var t := states[2];
            && Inv(t, deal) && deal.taskId in t.worker.engine.tasks
            && t.worker.engine.tasks[deal.taskId].status == Working
            && t.arrived == 0 && t.used == s.used + {working}
            && t.sent == [RpcEnvelope(UpdateTaskStatus(TASK_STATUS_WORKING), deal.taskId, working)]
  {
    var work := UpdateTaskStatus(TASK_STATUS_WORKING);
    states, steps := [s], [];
    RunInv(states, steps, deal, 0);
    assert s.sent == [] && s.arrived == 0 && deal.taskId !in s.worker.engine.tasks;
    hide Inv, Init, Handle, E.Inv, Next, Enabled, IsRun, Opener, Admitted, RpcEnvelope;
    OpenerTaken(s, deal, opener);
    states, steps := Extended(states, steps, deal, DeliverOpener(opener));
    WorkerMoves(states[1], deal, work, working, now, putOk);
    states, steps := Extended(states, steps, deal, CallWorker(work, working, now, putOk));
  }

  /** And from there: the update arrives, the worker completes the task, and COMPLETE is under way. */
  lemma CompleteUnderWay(states2: seq<System>, steps2: seq<Step>, deal: Deal, update: Delivery, complete: string,
                         now: int, putOk: bool)
      returns (states: seq<System>, steps: seq<Step>)
    requires IsRun(states2, steps2, deal) && |steps2| == 2
    requires var t := states2[2];
             && Inv(t, deal) && deal.taskId in t.worker.engine.tasks
             && t.worker.engine.tasks[deal.taskId].status == Working
             && t.arrived == 0 && |t.sent| == 1 && update.msg == Some(t.sent[0]) && Admitted(update)
             && complete !in t.used && complete != ""
    ensures IsRun(states, steps, deal) && states[0] == states2[0] && |steps| == 4
    ensures var t := states[4];
            && Inv(t, deal) && deal.taskId in t.worker.engine.tasks
            && t.arrived + 1 == |t.sent| && StatusAsked(t.sent[t.arrived]) == Completed
  {
    assert |states2| == 3;
    hide Inv, Handle, E.Inv, StatusAsked, Next, Enabled, IsRun, Admitted, RpcEnvelope;
    NextUpdateTaken(states2[2], deal, update);
    states, steps := Extended(states2, steps2, deal, DeliverUpdate(0, update));
    WorkerMoves(states[3], deal, CompleteTask, complete, now, putOk);
    states, steps := Extended(states, steps, deal, CallWorker(CompleteTask, complete, now, putOk));
    AsksIs(CompleteTask, deal.taskId, complete);
  }

  /** So from every start a run leads to a completed task whose COMPLETE is under way. */
  lemma ResultUnderWay(s: System, deal: Deal, opener: Delivery, working: string, update: Delivery, complete: string,
                       now: int, putOk: bool)
      returns (states: seq<System>, steps: seq<Step>)
    requires Init(s, deal)
    requires opener.msg == Some(Opener(deal)) && opener.remote == deal.originPeer && Admitted(opener)
    requires working !in s.used && complete !in s.used && working != complete && working != "" && complete != ""
    requires update.msg == Some(RpcEnvelope(UpdateTaskStatus(TASK_STATUS_WORKING), deal.taskId, working))
        && Admitted(update)
    ensures IsRun(states, steps, deal) && states[0] == s && |steps| == 4
    ensures var t := states[4];
            && Inv(t, deal) && deal.taskId in t.worker.engine.tasks
            && t.arrived + 1 == |t.sent| && StatusAsked(t.sent[t.arrived]) == Completed
  {
    states, steps := WorkReported(s, deal, opener, working, now, putOk);
    hide Inv, Init, E.Inv, StatusAsked, Next, Enabled, Opener, Admitted, RpcEnvelope;
    states, steps := CompleteUnderWay(states, steps, deal, update, complete, now, putOk);
  }

  lemma AsksIs(rpc: Rpc, taskId: string, id: string)
    ensures StatusAsked(RpcEnvelope(rpc, taskId, id)) == RpcTarget(rpc)
  {
  }

  lemma Extended(states: seq<System>, steps: seq<Step>, deal: Deal, step: Step)
      returns (states': seq<System>, steps': seq<Step>)
    requires IsRun(states, steps, deal) && Enabled(states[|steps|], deal, step)
    ensures |states'| == |states| + 1 && states'[..|states|] == states
    ensures states'[|states|] == Next(states[|steps|], deal, step)
    ensures |steps'| == |steps| + 1 && IsRun(states', steps', deal) && |states'| == |steps'| + 1
    ensures states'[0] == states[0]
  {
    states', steps' := states + [Next(states[|steps|], deal, step)], steps + [step];
    hide Next, Enabled, Init;
  }

  lemma CancelAndFailDiffer(trail: seq<Status>, at: Status)
    requires at != Unspecified
    ensures var canceled := if Allowed(at, Canceled) then [Canceled] else [];
            var failed := if Allowed(at, Failed) then [Failed] else [];
            trail + canceled == trail + failed <==> at.IsTerminal()
  {
    var canceled := if Allowed(at, Canceled) then [Canceled] else [];
    var failed := if Allowed(at, Failed) then [Failed] else [];
    assert Allowed(at, Canceled) <==> !at.IsTerminal();
    assert (trail + canceled)[|trail|..] == canceled && (trail + failed)[|trail|..] == failed;
  }

  lemma AttemptedMove(e: E.State, taskId: string, next: Status, now: int, putOk: bool)
    requires E.Inv(e) && taskId in e.tasks
    ensures E.Trail(E.Transition(e, taskId, next, now, putOk), taskId) ==
            E.Trail(e, taskId) + if Allowed(e.tasks[taskId].status, next) then [next] else []
  {
    E.TransitionEffect(e, taskId, next, now, putOk);
    assert E.Trail(e, taskId) + [] == E.Trail(e, taskId);
    hide E.Inv, E.Transition;
  }

  /** Drained nodes hold the task at the same status, one of those a task can be in. */
  lemma SameStatus(s: System, deal: Deal)
    requires Inv(s, deal) && deal.taskId in s.worker.engine.tasks && s.arrived == |s.sent|
    ensures s.origin.engine.tasks[deal.taskId].status == s.worker.engine.tasks[deal.taskId].status
    ensures s.worker.engine.tasks[deal.taskId].status != Unspecified
  {
    Trails(s, deal);
    var trail := s.worker.engine.trail[deal.taskId];
    assert Course(s.sent)[..s.arrived + 1] == Course(s.sent);
    assert trail[0] == Submitted;
    if |trail| > 1 {
      E.PathShape(trail, |trail| - 1);
    }
    hide Network, Course;
  }

  /**
   * The MCP proxy path moves a new task to WORKING without a word. Its result, COMPLETE or FAIL, is then refused by the
   * originator, which stays at SUBMITTED while the worker's task has ended.
   */
  lemma SilentWorkLosesResult(s: System, deal: Deal, d: Delivery, now: int, putOk: bool, later: int, putOk': bool)
    requires Inv(s, deal) && deal.taskId in s.worker.engine.tasks && s.sent == []
    requires Admitted(d) && Filtered(d.msg.value) && !Seen(s.origin.accepted, d.msg.value.id)
    requires Asks(d.msg.value).Some? && Asks(d.msg.value).value.0 == deal.taskId
    requires Asks(d.msg.value).value.1 in {Completed, Failed}
    ensures var ops := [E.TransitionOp(deal.taskId, Working, now, putOk),
                        E.TransitionOp(deal.taskId, Asks(d.msg.value).value.1, later, putOk')];
            && E.Trail(E.Run(s.worker.engine, ops), deal.taskId) == [Submitted, Working, Asks(d.msg.value).value.1]
            && Handle(s.origin, d).0.engine == s.origin.engine
            && E.Trail(s.origin.engine, deal.taskId) == [Submitted]
  {
    var result := Asks(d.msg.value).value.1;
    FirstCopyAsks(s.origin, d);
    ResultRefused(s, deal, result, d.now, d.putOk);
    WorksThrough(s.worker.engine, deal.taskId, result, now, putOk, later, putOk');
    hide E.Inv, Network, OriginAt, WorkerAt, Handle, Seen, E.Run, E.Transition, E.Trail;
  }

  lemma WorksThrough(e: E.State, taskId: string, result: Status, now: int, putOk: bool, later: int, putOk': bool)
    requires E.Inv(e) && taskId in e.tasks && E.Trail(e, taskId) == [Submitted] && result in {Completed, Failed}
    ensures var ops := [E.TransitionOp(taskId, Working, now, putOk), E.TransitionOp(taskId, result, later, putOk')];
            E.Trail(E.Run(e, ops), taskId) == [Submitted, Working, result]
  {
    var ops := [E.TransitionOp(taskId, Working, now, putOk), E.TransitionOp(taskId, result, later, putOk')];
    hide E.Inv, E.Run, E.Trail, IsPath;
    E.MovesTakenExactly(e, ops, taskId);
    assert E.Nexts(ops) == [Working, result];
    hide E.Nexts;
    EndedPath(result);
  }

  lemma {:induction false} EndedPath(result: Status)
    requires result in {Completed, Failed}
    ensures [Submitted] + [Working, result] == [Submitted, Working, result]
    ensures IsPath([Submitted, Working, result])
  {
    assert Allowed(Submitted, Working) && Allowed(Working, result);
    hide Allowed;
  }

  lemma ResultRefused(s: System, deal: Deal, result: Status, now: int, putOk: bool)
    requires Inv(s, deal) && deal.taskId in s.worker.engine.tasks && s.sent == [] && result in {Completed, Failed}
    ensures E.Trail(s.origin.engine, deal.taskId) == E.Trail(s.worker.engine, deal.taskId) == [Submitted]
    ensures E.Transition(s.origin.engine, deal.taskId, result, now, putOk) == s.origin.engine
  {
    Trails(s, deal);
    assert Course(s.sent) == [Submitted];
    assert s.origin.engine.tasks[deal.taskId].status == Submitted;
    hide E.Inv, Network;
  }
}
