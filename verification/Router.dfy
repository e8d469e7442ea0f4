/**
 * Routing of envelopes between nodes (internal/a2a/router.go) and the worker-side RPCs that produce them
 * (pkg/grpcserver/server.go:789-869). Marshalling is taken to be lossless, identifiers to be fresh.
 */
module Routing {
  import opened BigEndian
  import opened Tasks
  import opened Storage
  import opened Dedup
  import opened AckTracking
  import E = TaskEngine

  // ---- Envelopes ----

  datatype ProtoStatus =
    | TASK_STATUS_UNSPECIFIED
    | TASK_STATUS_SUBMITTED
    | TASK_STATUS_WORKING
    | TASK_STATUS_INPUT_REQUIRED
    | TASK_STATUS_COMPLETED
    | TASK_STATUS_FAILED
    | TASK_STATUS_CANCELED
    | TASK_STATUS_REJECTED
    | Unrecognized(n: int)

  /** The name of a wire status; those without one are unknown to this version. */
  function ProtoName(s: ProtoStatus): string {
    match s
    case TASK_STATUS_UNSPECIFIED => "TASK_STATUS_UNSPECIFIED"
    case TASK_STATUS_SUBMITTED => "TASK_STATUS_SUBMITTED"
    case TASK_STATUS_WORKING => "TASK_STATUS_WORKING"
    case TASK_STATUS_INPUT_REQUIRED => "TASK_STATUS_INPUT_REQUIRED"
    case TASK_STATUS_COMPLETED => "TASK_STATUS_COMPLETED"
    case TASK_STATUS_FAILED => "TASK_STATUS_FAILED"
    case TASK_STATUS_CANCELED => "TASK_STATUS_CANCELED"
    case TASK_STATUS_REJECTED => "TASK_STATUS_REJECTED"
    case Unrecognized(_) => ""
  }

  function TaskStatusToProto(s: Status): ProtoStatus {
    match s
    case Submitted => TASK_STATUS_SUBMITTED
    case Working => TASK_STATUS_WORKING
    case InputRequired => TASK_STATUS_INPUT_REQUIRED
    case Completed => TASK_STATUS_COMPLETED
    case Failed => TASK_STATUS_FAILED
    case Canceled => TASK_STATUS_CANCELED
    case Rejected => TASK_STATUS_REJECTED
    case Unspecified => TASK_STATUS_UNSPECIFIED
  }

  function ProtoToTaskStatus(s: ProtoStatus): Status {
    match s
    case TASK_STATUS_SUBMITTED => Submitted
    case TASK_STATUS_WORKING => Working
    case TASK_STATUS_INPUT_REQUIRED => InputRequired
    case TASK_STATUS_COMPLETED => Completed
    case TASK_STATUS_FAILED => Failed
    case TASK_STATUS_CANCELED => Canceled
    case TASK_STATUS_REJECTED => Rejected
    case _ => Unspecified
  }

  datatype Kind = SendTaskKind | StatusUpdateKind | CompleteKind | FailKind | CancelKind | AckKind | UnknownKind

  datatype Payload =
    | NoPayload
    | SendTaskPayload(taskId: string, contextId: string, targetSkillId: string)
    | StatusUpdatePayload(taskId: string, status: ProtoStatus)
    | CompletePayload(taskId: string)
    | FailPayload(taskId: string)
    | CancelPayload(taskId: string)
    | AckPayload(acknowledgedId: string)

  /** The type tag and the payload travel separately, so they can disagree. */
  datatype Envelope = Envelope(id: string, kind: Kind, payload: Payload)

  /** One call of HandleMessage: an undecodable message is `None`; the rest is what the call asks its surroundings. */
  datatype Delivery = Delivery(
    remote: string,
    msg: Option<Envelope>,
    policyOk: bool,
    freshId: string,
    now: int,
    putOk: bool)

  // ---- What one message does ----

  datatype Node = Node(accepted: seq<string>, engine: E.State, pending: Table)

  predicate IdsAgree(s: E.State) {
    forall id <- s.tasks :: s.tasks[id].id == id
  }

  function IncomingTask(p: Payload, d: Delivery): Task
    requires p.SendTaskPayload?
  {
    var id := if p.taskId == "" then d.freshId else p.taskId;
    Task(id, p.contextId, Submitted, p.targetSkillId, d.remote, d.now, d.now)
  }

  /** The status a message asks a known task to move to, if it is well formed. */
  function Asks(env: Envelope): Option<(string, Status)> {
    match env.payload
    case StatusUpdatePayload(id, status) =>
      if env.kind.StatusUpdateKind? then Some((id, ProtoToTaskStatus(status))) else None
    case CompletePayload(id) => if env.kind.CompleteKind? then Some((id, Completed)) else None
    case FailPayload(id) => if env.kind.FailKind? then Some((id, Failed)) else None
    case CancelPayload(id) => if env.kind.CancelKind? then Some((id, Canceled)) else None
    case _ => None
  }

  /** The handlers, without the duplicate filter. */
  function Dispatch(s: E.State, env: Envelope, d: Delivery): E.State
    requires IdsAgree(s)
  {
    if env.kind.SendTaskKind? && env.payload.SendTaskPayload? then E.Register(s, IncomingTask(env.payload, d), d.putOk)
    else
      match Asks(env)
      case Some((id, next)) => E.Transition(s, id, next, d.now, d.putOk)
      case None => s
  }

  predicate Filtered(env: Envelope) {
    env.id != "" && !env.kind.AckKind?
  }

  /** Decoded and let through by the policy, which does not look at ACKs. */
  predicate Admitted(d: Delivery) {
    d.msg.Some? && (d.msg.value.kind.AckKind? || d.policyOk)
  }

  predicate IsRepeat(n: Node, d: Delivery)
    requires d.msg.Some?
  {
    Filtered(d.msg.value) && Seen(n.accepted, d.msg.value.id)
  }

  /** The node after a message, and the envelope id it acknowledges to the sender, if any. */
  function Handle(n: Node, d: Delivery): (Node, Option<string>)
    requires IdsAgree(n.engine)
  {
    if !Admitted(d) || IsRepeat(n, d) then (n, None)
    else
      var env := d.msg.value;
      var n' := n.(accepted := if Filtered(env) then Note(n.accepted, env.id) else n.accepted);
      if env.kind.AckKind? then
        ((if env.payload.AckPayload? then n'.(pending := n.pending - {env.payload.acknowledgedId}) else n'), None)
      else if env.kind.UnknownKind? then (n', None)
      else (n'.(engine := Dispatch(n.engine, env, d)), Some(env.id))
  }

  // ---- The router as it runs ----

  class Router {
    const engine: E.Engine
    const tracker: AckTracker
    const dedup: DedupCache

    ghost predicate Valid()
      reads engine, engine.Disk(), dedup
    {
      dedup.Valid() && E.Inv(engine.View())
    }

    ghost function View(): Node
      reads engine, engine.Disk(), tracker, dedup
    {
      Node(dedup.accepted, engine.View(), tracker.pending)
    }

    /** Whether a write reaches the disk: one must be attached. */
    ghost predicate Stored(putOk: bool)
      reads engine`store
    {
      putOk && engine.store != null
    }

    constructor (engine: E.Engine)
      requires E.Inv(engine.View())
      ensures this.engine == engine && fresh(tracker) && fresh(dedup)
      ensures Valid() && View() == Node([], engine.View(), map[])
    {
      this.engine := engine;
      tracker := new AckTracker();
      dedup := new DedupCache();
    }

    method HandleSendTask(env: Envelope, d: Delivery)
      requires env.kind.SendTaskKind? && E.Inv(engine.View())
      modifies engine`tasks, engine`trail, engine`unsaved, engine.Disk()
      ensures engine.OnlyTasksOnDisk()
      ensures engine.View() == Dispatch(old(engine.View()), env, d.(putOk := Stored(d.putOk)))
    {
      if env.payload.SendTaskPayload? {
        engine.RegisterTask(IncomingTask(env.payload, d), d.putOk);
      }
    }

    method HandleMove(env: Envelope, d: Delivery)
      requires !env.kind.SendTaskKind? && E.Inv(engine.View())
      modifies engine`tasks, engine`trail, engine`unsaved, engine.Disk()
      ensures engine.OnlyTasksOnDisk()
      ensures engine.View() == Dispatch(old(engine.View()), env, d.(putOk := Stored(d.putOk)))
    {
      var asked := Asks(env);
      if asked.Some? {
        var _ := engine.TransitionTask(asked.value.0, asked.value.1, d.now, d.putOk);
      }
    }

    /** Returns the id to acknowledge; sending that ACK may fail, which changes nothing here. */
    method HandleMessage(d: Delivery) returns (ack: Option<string>)
      requires Valid()
      modifies engine`tasks, engine`trail, engine`unsaved, engine.Disk(), tracker, dedup
      ensures Valid()
      ensures engine.OnlyTasksOnDisk()
      ensures View() == Handle(old(View()), d.(putOk := Stored(d.putOk))).0
      ensures ack == Handle(old(View()), d.(putOk := Stored(d.putOk))).1
    {
      DispatchKeepsInv(engine.View(), d.(putOk := Stored(d.putOk)));
      assert IdsAgree(engine.View());
      hide E.Inv, Dispatch, Asks, E.Register, E.Transition, Seen, Note, Sliding, NoDup, LastN;
      if d.msg.None? {
        return None;
      }
      var env := d.msg.value;
      if !d.policyOk && !env.kind.AckKind? {
        return None;
      }
      if env.id != "" && !env.kind.AckKind? {
        var dup := dedup.IsDuplicate(env.id);
        if dup {
          return None;
        }
      }
      if env.kind.AckKind? {
        if env.payload.AckPayload? {
          var _ := tracker.Acknowledge(env.payload.acknowledgedId);
        }
        return None;
      }
      if env.kind.UnknownKind? {
        return None;
      }
      if env.kind.SendTaskKind? {
        HandleSendTask(env, d);
      } else {
        HandleMove(env, d);
      }
      ack := Some(env.id);
    }

    /** The task stays registered here even when the send fails; only a sent message is tracked. */
    method SendTask(target: string, contextId: string, skillId: string, taskId: string, envelopeId: string,
                    data: seq<Byte>, now: int, putOk: bool, sendOk: bool)
        returns (task: Option<Task>, env: Envelope)
      requires Valid()
      modifies engine`tasks, engine`trail, engine`unsaved, engine.Disk(), tracker
      ensures Valid() && engine.OnlyTasksOnDisk()
      ensures var created := Task(taskId, contextId, Submitted, skillId, "local", now, now);
              && engine.View() == E.Register(old(engine.View()), created, Stored(putOk))
              && task == if sendOk then Some(created) else None
      ensures env == Envelope(envelopeId, SendTaskKind, SendTaskPayload(taskId, contextId, skillId))
      ensures tracker.pending ==
              if sendOk then Tracked(old(tracker.pending), envelopeId, target, data, now) else old(tracker.pending)
    {
      E.RegisterKeepsInv(engine.View(), Task(taskId, contextId, Submitted, skillId, "local", now, now), Stored(putOk));
      var created := engine.CreateTask(taskId, contextId, skillId, "local", now, putOk);
      env := Envelope(envelopeId, SendTaskKind, SendTaskPayload(taskId, contextId, skillId));
      if !sendOk {
        return None, env;
      }
      tracker.Track(target, envelopeId, data, now);
      task := Some(created);
    }

    /** SendStatusUpdate, SendComplete and SendFail differ only in the envelope they build. */
    method SendUpdate(target: string, env: Envelope, data: seq<Byte>, now: int, sendOk: bool)
      modifies tracker
      ensures tracker.pending ==
              if sendOk then Tracked(old(tracker.pending), env.id, target, data, now) else old(tracker.pending)
    {
      if sendOk {
        tracker.Track(target, env.id, data, now);
      }
    }
  }

  lemma DispatchKeepsInv(s: E.State, d: Delivery)
    requires E.Inv(s)
    ensures d.msg.Some? ==> E.Inv(Dispatch(s, d.msg.value, d))
  {
    if d.msg.Some? {
      var env := d.msg.value;
      if env.payload.SendTaskPayload? {
        E.RegisterKeepsInv(s, IncomingTask(env.payload, d), d.putOk);
      }
      if Asks(env).Some? {
        E.TransitionKeepsInv(s, Asks(env).value.0, Asks(env).value.1, d.now, d.putOk);
      }
    }
    hide E.Inv, E.Register, E.Transition;
  }

  // ---- What handling one message does, case by case ----

  /**
   * A message is acknowledged, under its own id, exactly if it decodes, the policy lets it through, it is of one of
   * the five kinds with a handler, and its id, if any, is not among the last 1024 accepted. What is neither
   * acknowledged nor an ACK leaves tasks and pending messages alone.
   */
  lemma AcknowledgedExactly(n: Node, d: Delivery)
    requires IdsAgree(n.engine)
    ensures var (n', ack) := Handle(n, d);
            && (ack.Some? <==>
                  && d.msg.Some? && d.policyOk
                  && d.msg.value.kind in {SendTaskKind, StatusUpdateKind, CompleteKind, FailKind, CancelKind}
                  && (d.msg.value.id == "" || !Seen(n.accepted, d.msg.value.id)))
            && (ack.Some? ==> ack.value == d.msg.value.id)
            && (ack.None? && (d.msg.Some? ==> !d.msg.value.kind.AckKind?) ==>
                  n'.engine == n.engine && n'.pending == n.pending)
  {
    hide Dispatch, Seen, Note;
  }

  /** Policy-refused messages, other than ACKs, and undecodable ones leave no trace at all. */
  lemma RefusedLeavesNoTrace(n: Node, d: Delivery)
    requires IdsAgree(n.engine)
    requires d.msg.Some? ==> !d.policyOk && !d.msg.value.kind.AckKind?
    ensures Handle(n, d) == (n, None)
  {
  }

  /**
   * An ACK, which no policy or filter looks at, takes the message it names off the pending table and does nothing else;
   * no other message touches that table.
   */
  lemma AckTakesPending(n: Node, d: Delivery)
    requires IdsAgree(n.engine)
    ensures var (n', ack) := Handle(n, d);
            if d.msg.Some? && d.msg.value.kind.AckKind? then
              && ack == None && n'.accepted == n.accepted && n'.engine == n.engine
              && (d.msg.value.payload.AckPayload? ==>
                    var id := d.msg.value.payload.acknowledgedId;
                    && id !in n'.pending
                    && (forall other | other != id :: other in n'.pending <==> other in n.pending)
                    && (forall other <- n'.pending :: n'.pending[other] == n.pending[other]))
              && (!d.msg.value.payload.AckPayload? ==> n' == n)
            else n'.pending == n.pending
  {
    hide Dispatch, Seen, Note;
  }

  /**
   * The first copy of a SEND_TASK that is let through leaves exactly the task it describes, SUBMITTED, for the peer it
   * came from, under its own id or a fresh one; every other task stays.
   */
  lemma SendTaskLeavesTask(n: Node, d: Delivery, other: string)
    requires IdsAgree(n.engine) && Handle(n, d).1.Some?
    requires d.msg.value.kind.SendTaskKind? && d.msg.value.payload.SendTaskPayload?
    ensures var before, after, p := n.engine, Handle(n, d).0.engine, d.msg.value.payload;
            var id := if p.taskId == "" then d.freshId else p.taskId;
            && id in after.tasks
            && after.tasks[id] == Task(id, p.contextId, Submitted, p.targetSkillId, d.remote, d.now, d.now)
            && (d.putOk ==> id in after.bucket && after.bucket[id] == after.tasks[id])
            && (other != id ==> (other in after.tasks <==> other in before.tasks)
                                && (other in before.tasks ==> after.tasks[other] == before.tasks[other]))
  {
    hide Seen, Note;
  }

  /** The first copy of any other message that is let through attempts the one move its kind and payload name,
      or none. */
  lemma MessageMoves(n: Node, d: Delivery)
    requires IdsAgree(n.engine) && Handle(n, d).1.Some? && !d.msg.value.kind.SendTaskKind?
    ensures var env, after := d.msg.value, Handle(n, d).0.engine;
            match (env.kind, env.payload)
            case (StatusUpdateKind, StatusUpdatePayload(id, status)) =>
              after == E.Transition(n.engine, id, ProtoToTaskStatus(status), d.now, d.putOk)
            case (CompleteKind, CompletePayload(id)) => after == E.Transition(n.engine, id, Completed, d.now, d.putOk)
            case (FailKind, FailPayload(id)) => after == E.Transition(n.engine, id, Failed, d.now, d.putOk)
            case (CancelKind, CancelPayload(id)) => after == E.Transition(n.engine, id, Canceled, d.now, d.putOk)
            case _ => after == n.engine
  {
    hide E.Transition, Seen, Note;
  }

  // ---- Worker RPCs ----

  datatype Rpc = UpdateTaskStatus(status: ProtoStatus) | CompleteTask | FailTask

  datatype RpcReply = RpcOk | InvalidArgument | FailedPrecondition(why: E.Refusal)

  function RpcTarget(rpc: Rpc): Status {
    match rpc
    case UpdateTaskStatus(status) => ProtoToTaskStatus(status)
    case CompleteTask => Completed
    case FailTask => Failed
  }

  /** What the originator is told. */
  function RpcEnvelope(rpc: Rpc, taskId: string, envelopeId: string): Envelope {
    match rpc
    case UpdateTaskStatus(status) => Envelope(envelopeId, StatusUpdateKind, StatusUpdatePayload(taskId, status))
    case CompleteTask => Envelope(envelopeId, CompleteKind, CompletePayload(taskId))
    case FailTask => Envelope(envelopeId, FailKind, FailPayload(taskId))
  }

  /** The engine after an RPC, its reply, and the envelope left to send to the originator. */
  function CallRpc(s: E.State, rpc: Rpc, taskId: string, envelopeId: string, now: int, putOk: bool)
      : (E.State, RpcReply, Option<Envelope>)
    requires IdsAgree(s)
  {
    if taskId == "" then (s, InvalidArgument, None)
    else
      match E.Judge(s.tasks, taskId, RpcTarget(rpc))
      case Refused(why) => (s, FailedPrecondition(why), None)
      case Moved =>
        (E.Transition(s, taskId, RpcTarget(rpc), now, putOk), RpcOk,
         if s.tasks[taskId].originatorPeerId == "local" then None else Some(RpcEnvelope(rpc, taskId, envelopeId)))
  }

  /** An RPC either changes nothing and says nothing, or moves the task one status on. */
  lemma CallRpcEffect(s: E.State, rpc: Rpc, taskId: string, envelopeId: string, now: int, putOk: bool)
    requires E.Inv(s)
    ensures var (s', reply, news) := CallRpc(s, rpc, taskId, envelopeId, now, putOk);
            && E.Inv(s')
            && (if reply.RpcOk? then
                  && E.MovedOn(s, s', taskId, RpcTarget(rpc))
                  && news == if s.tasks[taskId].originatorPeerId == "local" then None
                             else Some(RpcEnvelope(rpc, taskId, envelopeId))
                else s' == s && news == None)
            && (reply == InvalidArgument <==> taskId == "")
            && (reply.RpcOk? <==> taskId != "" && E.Judge(s.tasks, taskId, RpcTarget(rpc)).Moved?)
            && (taskId != "" && E.Judge(s.tasks, taskId, RpcTarget(rpc)).Refused? ==>
                  reply == FailedPrecondition(E.Judge(s.tasks, taskId, RpcTarget(rpc)).why))
  {
    E.TransitionEffect(s, taskId, RpcTarget(rpc), now, putOk);
    hide E.Inv, E.Transition;
  }

  class Server {
    const router: Router

    constructor (router: Router)
      ensures this.router == router
    {
      this.router := router;
    }

    /** UpdateTaskStatus, CompleteTask and FailTask: move the task first, then leave the news for the originator. */
    method Call(rpc: Rpc, taskId: string, envelopeId: string, now: int, putOk: bool)
        returns (reply: RpcReply, news: Option<Envelope>)
      requires router.Valid()
      modifies router.engine`tasks, router.engine`trail, router.engine`unsaved, router.engine.Disk()
      ensures router.Valid() && router.engine.OnlyTasksOnDisk()
      ensures (router.engine.View(), reply, news) ==
              CallRpc(old(router.engine.View()), rpc, taskId, envelopeId, now, router.Stored(putOk))
    {
      if taskId == "" {
        return InvalidArgument, None;
      }
      E.TransitionKeepsInv(router.engine.View(), taskId, RpcTarget(rpc), now, router.Stored(putOk));
      var outcome := router.engine.TransitionTask(taskId, RpcTarget(rpc), now, putOk);
      if outcome.Refused? {
        return FailedPrecondition(outcome.why), None;
      }
      var task := router.engine.tasks[taskId];
      reply := RpcOk;
      news := if task.originatorPeerId == "local" then None else Some(RpcEnvelope(rpc, taskId, envelopeId));
    }
  }

  // ---- What routing promises ----

  /** The conversions keep a status's name, so they are inverse; what has no name becomes UNSPECIFIED. */
  lemma StatusRoundTrip(s: Status, p: ProtoStatus)
    ensures ProtoName(TaskStatusToProto(s)) == "TASK_STATUS_" + s.String()
    ensures ProtoToTaskStatus(TaskStatusToProto(s)) == s
    ensures p.Unrecognized? ==> ProtoToTaskStatus(p) == Unspecified
    ensures !p.Unrecognized? ==> TaskStatusToProto(ProtoToTaskStatus(p)) == p
  {
  }

  /** The envelope an RPC emits asks the originator for the very move the worker made. */
  lemma NewsAsksSameMove(rpc: Rpc, taskId: string, envelopeId: string)
    ensures RpcTarget(CompleteTask) == Completed && RpcTarget(FailTask) == Failed
    ensures RpcTarget(UpdateTaskStatus(TASK_STATUS_WORKING)) == Working
    ensures RpcTarget(UpdateTaskStatus(TASK_STATUS_INPUT_REQUIRED)) == InputRequired
    ensures RpcTarget(UpdateTaskStatus(TASK_STATUS_REJECTED)) == Rejected
    ensures Asks(RpcEnvelope(rpc, taskId, envelopeId)) == Some((taskId, RpcTarget(rpc)))
  {
  }

  /**
   * A repeat within the window changes nothing and, unlike the first copy, is not acknowledged; outside the
   * window it runs the handler again.
   */
  lemma RepeatIsSilent(n: Node, d: Delivery)
    requires IdsAgree(n.engine) && Admitted(d)
    requires !d.msg.value.kind.UnknownKind? && Filtered(d.msg.value)
    ensures Handle(n, d) == (n, None) <==> Seen(n.accepted, d.msg.value.id)
    ensures Handle(n, d).1 == None <==> Seen(n.accepted, d.msg.value.id)
  {
  }

  // ---- Runs of deliveries at one node ----

  lemma HandleStep(n: Node, d: Delivery)
    requires IdsAgree(n.engine)
    ensures var n' := Handle(n, d).0;
            if !Admitted(d) || IsRepeat(n, d) then n' == n
            else
              && n'.engine == Dispatch(n.engine, d.msg.value, d)
              && n'.accepted == if Filtered(d.msg.value) then Note(n.accepted, d.msg.value.id) else n.accepted
  {
    hide E.Register, E.Transition, Seen, Note;
  }

  lemma HandleReady(n: Node, d: Delivery)
    requires E.Inv(n.engine)
    ensures E.Inv(Handle(n, d).0.engine)
  {
    DispatchKeepsInv(n.engine, d);
    HandleStep(n, d);
    hide E.Inv, Dispatch, Handle;
  }

  function Before(ds: seq<Delivery>): seq<Delivery>
    requires ds != []
  {
    ds[..|ds| - 1]
  }

  function Last(ds: seq<Delivery>): Delivery
    requires ds != []
  {
    ds[|ds| - 1]
  }

  ghost function HandleAll(n: Node, ds: seq<Delivery>): (n': Node)
    requires E.Inv(n.engine)
    ensures E.Inv(n'.engine)
  {
    if ds == [] then n
    else
      HandleReady(HandleAll(n, Before(ds)), Last(ds));
      Handle(HandleAll(n, Before(ds)), Last(ds)).0
  }

  /** What a node without any filter makes of deliveries: the handlers in order. */
  ghost function DispatchAll(s: E.State, ds: seq<Delivery>): (s': E.State)
    requires E.Inv(s)
    ensures E.Inv(s')
  {
    if ds == [] then s
    else
      DispatchKeepsInv(DispatchAll(s, Before(ds)), Last(ds));
      if Admitted(Last(ds)) then Dispatch(DispatchAll(s, Before(ds)), Last(ds).msg.value, Last(ds))
      else DispatchAll(s, Before(ds))
  }

  /** Subject to the duplicate filter, under this id. */
  predicate Carries(d: Delivery, id: string) {
    Admitted(d) && Filtered(d.msg.value) && d.msg.value.id == id
  }

  /** The ids that reach the filter, in order. */
  function Arrivals(ds: seq<Delivery>): seq<string> {
    if ds == [] then []
    else
      Arrivals(Before(ds))
      + if Admitted(Last(ds)) && Filtered(Last(ds).msg.value) then [Last(ds).msg.value.id] else []
  }

  /** The i-th delivery gets past the policy and the filter. */
  ghost predicate Passes(n: Node, ds: seq<Delivery>, i: nat)
    requires E.Inv(n.engine) && i < |ds|
  {
    Admitted(ds[i]) && !IsRepeat(HandleAll(n, ds[..i]), ds[i])
  }

  /** An admitted delivery whose id, if it has one to be filtered by, never came before; no window is involved. */
  ghost predicate IsOriginal(known: seq<string>, ds: seq<Delivery>, i: nat)
    requires i < |ds|
  {
    Admitted(ds[i]) &&
    (Filtered(ds[i].msg.value) ==>
      ds[i].msg.value.id !in known && forall j | 0 <= j < i :: !Carries(ds[j], ds[i].msg.value.id))
  }

  ghost function Originals(known: seq<string>, ds: seq<Delivery>): seq<Delivery> {
    if ds == [] then []
    else Originals(known, Before(ds)) + if IsOriginal(known, ds, |ds| - 1) then [Last(ds)] else []
  }

  ghost function Passing(n: Node, ds: seq<Delivery>): seq<Delivery>
    requires E.Inv(n.engine)
  {
    if ds == [] then []
    else Passing(n, Before(ds)) + if Passes(n, ds, |ds| - 1) then [Last(ds)] else []
  }

  /** It repeats an id that has left the window, so the filter lets it through again. */
  ghost predicate IsLateRepeat(n: Node, ds: seq<Delivery>, i: nat)
    requires E.Inv(n.engine) && i < |ds|
  {
    Admitted(ds[i]) && !IsOriginal(n.accepted, ds, i) && !Seen(HandleAll(n, ds[..i]).accepted, ds[i].msg.value.id)
  }

  ghost predicate RepeatsInWindow(n: Node, ds: seq<Delivery>)
    requires E.Inv(n.engine)
  {
    forall i | 0 <= i < |ds| :: !IsLateRepeat(n, ds, i)
  }

  lemma ArrivalsMore(ds: seq<Delivery>)
    requires ds != []
    ensures Arrivals(ds) == if Admitted(Last(ds)) && Filtered(Last(ds).msg.value)
                            then Arrivals(Before(ds)) + [Last(ds).msg.value.id] else Arrivals(Before(ds))
  {
  }

  /** The filter's memory after a run is the ids that arrived, each noted unless it was in the window. */
  lemma {:induction false} AcceptedInRun(n: Node, ds: seq<Delivery>)
    requires E.Inv(n.engine)
    ensures HandleAll(n, ds).accepted == Accepted(n.accepted, Arrivals(ds))
  {
    if ds != [] {
      AcceptedInRun(n, Before(ds));
      HandleStep(HandleAll(n, Before(ds)), Last(ds));
      ArrivalsMore(ds);
      var ids := Arrivals(ds);
      if Admitted(Last(ds)) && Filtered(Last(ds).msg.value) {
        assert ids[..|ids| - 1] == Arrivals(Before(ds));
      }
      hide E.Inv, Handle, Seen, Arrivals;
    }
  }

  /** Every id that ever came is in the filter's history. */
  lemma {:induction false} InHistory(n: Node, ds: seq<Delivery>, id: string)
    requires E.Inv(n.engine)
    ensures id in HandleAll(n, ds).accepted <==> id in n.accepted || exists j :: 0 <= j < |ds| && Carries(ds[j], id)
  {
    if ds != [] {
      InHistory(n, Before(ds), id);
      HandleStep(HandleAll(n, Before(ds)), Last(ds));
      assert ds == Before(ds) + [Last(ds)];
      assert Seen(HandleAll(n, Before(ds)).accepted, id) ==> id in HandleAll(n, Before(ds)).accepted;
      hide E.Inv, Handle, Seen;
    }
  }

  /** What comes for the first time passes, and what passes again is a late repeat. */
  lemma OriginalPasses(n: Node, ds: seq<Delivery>, i: nat)
    requires E.Inv(n.engine) && i < |ds|
    ensures Passes(n, ds, i) <==> IsOriginal(n.accepted, ds, i) || IsLateRepeat(n, ds, i)
  {
    if Admitted(ds[i]) {
      InHistory(n, ds[..i], ds[i].msg.value.id);
      assert forall j | 0 <= j < i :: ds[..i][j] == ds[j];
    }
    hide E.Inv, HandleAll;
  }

  lemma RepeatsMore(n: Node, ds: seq<Delivery>)
    requires E.Inv(n.engine) && ds != []
    ensures RepeatsInWindow(n, ds) <==> RepeatsInWindow(n, Before(ds)) && !IsLateRepeat(n, ds, |ds| - 1)
  {
    forall i | 0 <= i < |ds| - 1 ensures IsLateRepeat(n, Before(ds), i) == IsLateRepeat(n, ds, i) {
      assert Before(ds)[..i] == ds[..i];
    }
    hide IsLateRepeat, E.Inv;
  }

  lemma {:induction false} PassingCount(n: Node, ds: seq<Delivery>)
    requires E.Inv(n.engine)
    ensures |Originals(n.accepted, ds)| <= |Passing(n, ds)|
    ensures |Originals(n.accepted, ds)| == |Passing(n, ds)| <==> RepeatsInWindow(n, ds)
    ensures RepeatsInWindow(n, ds) ==> Originals(n.accepted, ds) == Passing(n, ds)
  {
    if ds != [] {
      PassingCount(n, Before(ds));
      OriginalPasses(n, ds, |ds| - 1);
      RepeatsMore(n, ds);
      assert IsOriginal(n.accepted, ds, |ds| - 1) ==> !IsLateRepeat(n, ds, |ds| - 1);
      hide RepeatsInWindow, IsLateRepeat, IsOriginal, Passes, E.Inv, HandleAll;
    }
  }

  lemma DispatchMore(s: E.State, ds: seq<Delivery>, d: Delivery)
    requires E.Inv(s) && Admitted(d)
    ensures DispatchAll(s, ds + [d]) == Dispatch(DispatchAll(s, ds), d.msg.value, d)
  {
    assert Before(ds + [d]) == ds;
    hide E.Inv, Dispatch;
  }

  lemma {:induction false} PassingIsDispatched(n: Node, ds: seq<Delivery>)
    requires E.Inv(n.engine)
    ensures HandleAll(n, ds).engine == DispatchAll(n.engine, Passing(n, ds))
  {
    if ds != [] {
      PassingIsDispatched(n, Before(ds));
      HandleStep(HandleAll(n, Before(ds)), Last(ds));
      if Passes(n, ds, |ds| - 1) {
        DispatchMore(n.engine, Passing(n, Before(ds)), Last(ds));
      } else {
        assert Passing(n, ds) == Passing(n, Before(ds));
      }
      hide E.Inv, Handle, Dispatch, IsRepeat, DispatchAll;
    }
  }

  /**
   * At-least-once becomes effectively-once: as long as every repeat comes while its id is in the window, the engine
   * ends up as if a node without any filter had received each message once, at its first arrival. Without that
   * condition, and only then, some message gets through again.
   */
  lemma EffectivelyOnce(n: Node, ds: seq<Delivery>)
    requires E.Inv(n.engine)
    ensures RepeatsInWindow(n, ds) ==> HandleAll(n, ds).engine == DispatchAll(n.engine, Originals(n.accepted, ds))
    ensures Passing(n, ds) == Originals(n.accepted, ds) <==> RepeatsInWindow(n, ds)
    ensures HandleAll(n, ds).engine == DispatchAll(n.engine, Passing(n, ds))
  {
    PassingIsDispatched(n, ds);
    PassingCount(n, ds);
    hide E.Inv, HandleAll, DispatchAll, Passing, Originals, RepeatsInWindow;
  }

  /** Accepted by a delivery of its own from place a on and before place b. */
  ghost predicate PassedBetween(n: Node, ds: seq<Delivery>, a: nat, b: nat, id: string)
    requires E.Inv(n.engine) && b <= |ds|
  {
    exists j :: a <= j < b && Passes(n, ds, j) && Carries(ds[j], id)
  }

  lemma PrefixOfPrefix(from: seq<string>, to: seq<string>, more: seq<string>)
    requires from <= to <= more
    ensures from <= more
  {
  }

  lemma {:induction false} AcceptedBetween(n: Node, ds: seq<Delivery>, a: nat, b: nat)
    requires E.Inv(n.engine) && a <= b <= |ds|
    ensures var from, to := HandleAll(n, ds[..a]).accepted, HandleAll(n, ds[..b]).accepted;
            from <= to && forall p | |from| <= p < |to| :: PassedBetween(n, ds, a, b, to[p])
  {
    hide E.Inv, HandleAll, Passes, Carries;
    if a < b {
      AcceptedBetween(n, ds, a, b - 1);
      OneMoreAccepted(n, ds, b - 1);
      var from, to, more :=
        HandleAll(n, ds[..a]).accepted, HandleAll(n, ds[..b - 1]).accepted, HandleAll(n, ds[..b]).accepted;
      PrefixOfPrefix(from, to, more);
      forall p | |from| <= p < |more| ensures PassedBetween(n, ds, a, b, more[p]) {
        if p < |to| {
          assert PassedBetween(n, ds, a, b - 1, to[p]);
        }
      }
    }
  }

  lemma OneMoreAccepted(n: Node, ds: seq<Delivery>, i: nat)
    requires E.Inv(n.engine) && i < |ds|
    ensures var h, h' := HandleAll(n, ds[..i]).accepted, HandleAll(n, ds[..i + 1]).accepted;
            && h <= h'
            && (h' == h || (Passes(n, ds, i) && Carries(ds[i], ds[i].msg.value.id) && h' == h + [ds[i].msg.value.id]))
  {
    assert Before(ds[..i + 1]) == ds[..i] && Last(ds[..i + 1]) == ds[i];
    HandleStep(HandleAll(n, ds[..i]), ds[i]);
    hide E.Inv, Handle, Seen;
  }

  /**
   * A handler runs twice for one non-empty id only if 1024 pairwise distinct other ids were accepted strictly
   * in between, each by a delivery of its own.
   */
  lemma HandledTwiceNeedsFullWindow(n: Node, ds: seq<Delivery>, a: nat, b: nat, id: string)
      returns (others: set<string>)
    requires E.Inv(n.engine) && Sliding(n.accepted)
    requires a < b < |ds| && Carries(ds[a], id) && Carries(ds[b], id)
    requires Passes(n, ds, a) && Passes(n, ds, b)
    ensures |others| == 1024 && id !in others
    ensures forall other <- others :: PassedBetween(n, ds, a + 1, b, other)
  {
    var from, to := HandleAll(n, ds[..a + 1]).accepted, HandleAll(n, ds[..b]).accepted;
    assert Before(ds[..a + 1]) == ds[..a] && Last(ds[..a + 1]) == ds[a];
    HandleStep(HandleAll(n, ds[..a]), ds[a]);
    AcceptedBetween(n, ds, a + 1, b);
    AcceptedInRun(n, ds[..b]);
    AcceptedIsSliding(n.accepted, Arrivals(ds[..b]));
    hide E.Inv, Handle, Seen, Arrivals, Sliding;
    others := FullWindowBetween(from, to, id);
    forall other <- others ensures PassedBetween(n, ds, a + 1, b, other) {
      var p :| 0 <= p < |to[|from|..]| && to[|from|..][p] == other;
      assert to[|from| + p] == other;
    }
  }

  /** The ids that reach the filter strictly between two places. */
  function IdsBetween(ds: seq<Delivery>, a: nat, b: nat): set<string>
    requires b <= |ds|
  {
    set j | a < j < b && Admitted(ds[j]) && Filtered(ds[j].msg.value) :: ds[j].msg.value.id
  }

  /** Copies of one message have fewer than 1024 other ids between them, however the copies are spread. */
  ghost predicate RepeatsAreClose(ds: seq<Delivery>) {
    forall a, b, id | 0 <= a < b < |ds| && Carries(ds[a], id) && Carries(ds[b], id) ::
        |IdsBetween(ds, a, b) - {id}| < 1024
  }

  lemma SubsetCount(a: set<string>, b: set<string>)
    requires a <= b
    ensures |a| <= |b|
    decreases |a|
  {
    if a != {} {
      var x :| x in a;
      SubsetCount(a - {x}, b - {x});
    }
  }

  /** The first delivery that carries an id, and it passes. */
  lemma FirstCarrier(n: Node, ds: seq<Delivery>, b: nat, id: string) returns (a: nat)
    requires E.Inv(n.engine) && b < |ds| && id !in n.accepted && Carries(ds[b], id)
    ensures a <= b && Carries(ds[a], id) && IsOriginal(n.accepted, ds, a) && Passes(n, ds, a)
    decreases b
  {
    if j :| 0 <= j < b && Carries(ds[j], id) {
      a := FirstCarrier(n, ds, j, id);
    } else {
      a := b;
      OriginalPasses(n, ds, a);
    }
  }

  /**
   * A condition on the deliveries alone: if a node that knows none of their ids gets copies that are close together, no
   * matter how many and in what order, its engine ends up as if it had received each message once.
   */
  lemma CloseRepeatsHandledOnce(n: Node, ds: seq<Delivery>)
    requires E.Inv(n.engine) && Sliding(n.accepted) && RepeatsAreClose(ds)
    requires forall i | 0 <= i < |ds| && Admitted(ds[i]) && Filtered(ds[i].msg.value) ::
        ds[i].msg.value.id !in n.accepted
    ensures RepeatsInWindow(n, ds)
    ensures HandleAll(n, ds).engine == DispatchAll(n.engine, Originals(n.accepted, ds))
  {
    forall b | 0 <= b < |ds| ensures !IsLateRepeat(n, ds, b) {
      if IsLateRepeat(n, ds, b) {
        NoLateRepeat(n, ds, b);
        assert false;
      }
    }
    EffectivelyOnce(n, ds);
    hide E.Inv, HandleAll, DispatchAll, Originals, IsLateRepeat;
  }

  lemma NoLateRepeat(n: Node, ds: seq<Delivery>, b: nat)
    requires E.Inv(n.engine) && Sliding(n.accepted) && RepeatsAreClose(ds)
    requires forall i | 0 <= i < |ds| && Admitted(ds[i]) && Filtered(ds[i].msg.value) ::
        ds[i].msg.value.id !in n.accepted
    requires b < |ds|
    ensures !IsLateRepeat(n, ds, b)
  {
    if IsLateRepeat(n, ds, b) {
      var id := ds[b].msg.value.id;
      var a := FirstCarrier(n, ds, b, id);
      OriginalPasses(n, ds, b);
      assert Carries(ds[b], id) && a != b;
      hide E.Inv, HandleAll, Passes, IsLateRepeat, IsOriginal, Sliding;
      var others := HandledTwiceNeedsFullWindow(n, ds, a, b, id);
      forall other <- others ensures other in IdsBetween(ds, a, b) - {id} {
        assert PassedBetween(n, ds, a + 1, b, other);
      }
      SubsetCount(others, IdsBetween(ds, a, b) - {id});
      assert false;
    }
  }
}
