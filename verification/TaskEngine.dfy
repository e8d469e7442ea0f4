/** The task engine: in-memory tasks, the write-through store and recovery (internal/a2a/engine.go). */
module TaskEngine {
  import opened Tasks
  import opened Storage

  datatype Refusal =
    | NotFound
    | AlreadyTerminal(at: Status)
    | NoTransitions(at: Status)
    | InvalidTransition(from: Status, to: Status)

  datatype Outcome = Moved | Refused(why: Refusal)

  /**
   * What an engine and its store hold. `trail` and `unsaved` are bookkeeping for the specification: the
   * statuses of each task since its last registration, and the tasks whose last change was not stored.
   */
  datatype State = State(
    tasks: map<string, Task>,
    bucket: map<string, Task>,
    trail: map<string, seq<Status>>,
    unsaved: set<string>)

  const EMPTY := State(map[], map[], map[], {})

  function Judge(tasks: map<string, Task>, id: string, next: Status): Outcome {
    if id !in tasks then Refused(NotFound)
    else
      var at := tasks[id].status;
      if at.IsTerminal() then Refused(AlreadyTerminal(at))
      else if at !in VALID_TRANSITIONS then Refused(NoTransitions(at))
      else if next !in VALID_TRANSITIONS[at] then Refused(InvalidTransition(at, next))
      else Moved
  }

  function Save(s: State, task: Task, ok: bool): State {
    if ok then s.(bucket := s.bucket[task.id := task], unsaved := s.unsaved - {task.id})
    else s.(unsaved := s.unsaved + {task.id})
  }

  function Register(s: State, task: Task, putOk: bool): State {
    Save(s.(tasks := s.tasks[task.id := task], trail := s.trail[task.id := [task.status]]), task, putOk)
  }

  function Trail(s: State, id: string): seq<Status> {
    if id in s.trail then s.trail[id] else []
  }

  function Transition(s: State, id: string, next: Status, now: int, putOk: bool): State
    requires forall k <- s.tasks :: s.tasks[k].id == k
  {
    if Judge(s.tasks, id, next).Moved? then
      var task := s.tasks[id].(status := next, updatedAt := now);
      Save(s.(tasks := s.tasks[id := task], trail := s.trail[id := Trail(s, id) + [next]]), task, putOk)
    else s
  }

  /** The stored tasks that can be read back and decoded. */
  function Readable(bucket: map<string, Task>, loads: string -> bool): map<string, Task> {
    map id | id in bucket && loads(id) :: bucket[id]
  }

  /** Memory after loading what can be read; the trail of a loaded task starts over at its stored status. */
  function Recovered(s: State, loads: string -> bool): State {
    var found := Readable(s.bucket, loads);
    s.(tasks := s.tasks + found,
       trail := s.trail + map id | id in found :: [found[id].status])
  }

  /** What every operation keeps. */
  ghost predicate Inv(s: State) {
    && s.trail.Keys == s.tasks.Keys
    && (forall id <- s.tasks :: s.tasks[id].id == id)
    && (forall id <- s.trail :: IsPath(s.trail[id]) && s.trail[id][|s.trail[id]| - 1] == s.tasks[id].status)
    && (forall id <- s.bucket :: id in s.tasks)
    && (forall id <- s.bucket :: s.bucket[id].id == id)
    && (forall id <- s.tasks :: id !in s.unsaved ==> id in s.bucket && s.bucket[id] == s.tasks[id])
  }

  // ---- The engine as it runs ----

  class Engine {
    var tasks: map<string, Task>
    var store: Store?
    ghost var trail: map<string, seq<Status>>
    ghost var unsaved: set<string>

    ghost function View(): State
      reads this, store
    {
      State(tasks, if store == null then map[] else store.tasks, trail, unsaved)
    }

    /** The store, if one is attached; attaching none turns persistence off. */
    ghost function Disk(): set<object>
      reads this`store
    {
      if store == null then {} else {store}
    }

    twostate predicate OnlyTasksOnDisk()
      reads this, Disk()
    {
      store == old(store) && (store != null ==> store.queue == old(store.queue))
    }

    constructor (store: Store?)
      ensures fresh(this) && this.store == store
      ensures tasks == map[] && trail == map[] && unsaved == {}
    {
      tasks, trail, unsaved := map[], map[], {};
      this.store := store;
    }

    method PersistTask(task: Task, putOk: bool)
      modifies this`unsaved, Disk()
      ensures View() == Save(old(View()), task, putOk && store != null)
      ensures OnlyTasksOnDisk()
    {
      if store == null {
        unsaved := unsaved + {task.id};
        return;
      }
      store.PutTask(task.id, task, putOk);
      unsaved := if putOk then unsaved - {task.id} else unsaved + {task.id};
    }

    /** `id` is the fresh identifier and `now` the clock reading the engine asks for. */
    method CreateTask(id: string, contextId: string, targetSkillId: string, originator: string, now: int, putOk: bool)
        returns (task: Task)
      modifies this`tasks, this`trail, this`unsaved, Disk()
      ensures task == Task(id, contextId, Submitted, targetSkillId, originator, now, now)
      ensures View() == Register(old(View()), task, putOk && store != null)
      ensures OnlyTasksOnDisk()
    {
      task := Task(id, contextId, Submitted, targetSkillId, originator, now, now);
      tasks := tasks[task.id := task];
      trail := trail[task.id := [task.status]];
      PersistTask(task, putOk);
    }

    method RegisterTask(task: Task, putOk: bool)
      modifies this`tasks, this`trail, this`unsaved, Disk()
      ensures View() == Register(old(View()), task, putOk && store != null)
      ensures OnlyTasksOnDisk()
    {
      tasks := tasks[task.id := task];
      trail := trail[task.id := [task.status]];
      PersistTask(task, putOk);
    }

    method TransitionTask(taskId: string, newStatus: Status, now: int, putOk: bool) returns (r: Outcome)
      requires forall k <- tasks :: tasks[k].id == k
      modifies this`tasks, this`trail, this`unsaved, Disk()
      ensures r == Judge(old(tasks), taskId, newStatus)
      ensures View() == Transition(old(View()), taskId, newStatus, now, putOk && store != null)
      ensures OnlyTasksOnDisk()
    {
      if taskId !in tasks {
        return Refused(NotFound);
      }
      var task := tasks[taskId];
      if task.status.IsTerminal() {
        return Refused(AlreadyTerminal(task.status));
      }
      if task.status !in VALID_TRANSITIONS {
        return Refused(NoTransitions(task.status));
      }
      var allowed := VALID_TRANSITIONS[task.status];
      var valid := false;
      for i := 0 to |allowed|
        invariant valid <==> newStatus in allowed[..i]
      {
        if allowed[i] == newStatus {
          valid := true;
          break;
        }
      }
      if !valid {
        return Refused(InvalidTransition(task.status, newStatus));
      }
      task := task.(status := newStatus, updatedAt := now);
      tasks := tasks[taskId := task];
      trail := trail[taskId := (if taskId in trail then trail[taskId] else []) + [newStatus]];
      PersistTask(task, putOk);
      r := Moved;
    }

    /**
     * Loads every stored task that `loads` lets through; each is filed under its own id field. `listOk` is whether
     * the store can list its tasks at all.
     */
    method RecoverTasks(listOk: bool, loads: string -> bool) returns (ok: bool)
      requires store != null ==> forall id <- store.tasks :: store.tasks[id].id == id
      modifies this`tasks, this`trail
      ensures ok <==> store == null || listOk
      ensures store == null || !listOk ==> View() == old(View())
      ensures store != null && listOk ==> View() == Recovered(old(View()), loads)
    {
      if store == null {
        return true;
      }
      if !listOk {
        return false;
      }
      LoadTasks(store, loads);
      trail := Recovered(old(View()), loads).trail;
      ok := true;
    }

    method LoadTasks(store: Store, loads: string -> bool)
      requires forall id <- store.tasks :: store.tasks[id].id == id
      modifies this`tasks
      ensures tasks == old(tasks) + Readable(store.tasks, loads)
    {
      var ids := store.ListTasks();
      for i := 0 to |ids|
        invariant tasks.Keys == old(tasks).Keys + set id | id in ids[..i] && loads(id)
        invariant forall id <- tasks ::
            tasks[id] == if id in ids[..i] && loads(id) then store.tasks[id] else old(tasks)[id]
      {
        var found := store.GetTask(ids[i]);
        if found.None? || !loads(ids[i]) {
          continue;
        }
        tasks := tasks[found.value.id := found.value];
      }
      assert ids[..|ids|] == ids;
    }
  }

  // ---- Whole runs ----

  datatype Op =
    | RegisterOp(task: Task, putOk: bool)
    | TransitionOp(id: string, next: Status, now: int, putOk: bool)

  predicate Registers(op: Op, id: string) {
    op.RegisterOp? && op.task.id == id
  }

  lemma PathExtends(p: seq<Status>, next: Status)
    requires IsPath(p) && Allowed(p[|p| - 1], next)
    ensures IsPath(p + [next])
  {
  }

  lemma ChangeKeepsInv(s: State, task: Task, p: seq<Status>, putOk: bool)
    requires Inv(s) && IsPath(p) && p[|p| - 1] == task.status
    ensures Inv(Save(s.(tasks := s.tasks[task.id := task], trail := s.trail[task.id := p]), task, putOk))
  {
    assert p != [];
    hide IsPath;
  }

  lemma RegisterKeepsInv(s: State, task: Task, putOk: bool)
    requires Inv(s)
    ensures Inv(Register(s, task, putOk))
  {
    assert IsPath([task.status]);
    ChangeKeepsInv(s, task, [task.status], putOk);
    hide Inv;
  }

  lemma TransitionKeepsInv(s: State, id: string, next: Status, now: int, putOk: bool)
    requires Inv(s)
    ensures Inv(Transition(s, id, next, now, putOk))
  {
    if Judge(s.tasks, id, next).Moved? {
      PathExtends(s.trail[id], next);
      ChangeKeepsInv(s, s.tasks[id].(status := next, updatedAt := now), s.trail[id] + [next], putOk);
      assert Trail(s, id) == s.trail[id];
    }
    hide Inv, IsPath;
  }

  /**
   * The outcome of a move, with the moves written out: it is made exactly if the task is known and the pair is one of
   * these, and the refusal tells why.
   */
  lemma OutcomeExactly(tasks: map<string, Task>, id: string, next: Status)
    ensures id !in tasks ==> Judge(tasks, id, next) == Refused(NotFound)
    ensures id in tasks ==>
              var at := tasks[id].status;
              && (Judge(tasks, id, next).Moved? <==>
                    || (at == Submitted && (next == Working || next == Rejected || next == Canceled))
                    || (at == Working
                        && (next == Completed || next == Failed || next == Canceled || next == InputRequired))
                    || (at == InputRequired && (next == Working || next == Canceled)))
              && (Judge(tasks, id, next) == Refused(AlreadyTerminal(at)) <==>
                    at == Completed || at == Failed || at == Canceled || at == Rejected)
              && (Judge(tasks, id, next) == Refused(NoTransitions(at)) <==> at == Unspecified)
              && (Judge(tasks, id, next).Refused? && !at.IsTerminal() && at != Unspecified ==>
                    Judge(tasks, id, next) == Refused(InvalidTransition(at, next)))
  {
    if id in tasks {
      MovesExactly(tasks[id].status, next);
    }
  }

  /**
   * A move changes a task's status and its time and nothing else about it, in memory as in the store, and no other
   * task; a refused one changes nothing at all.
   */
  lemma MoveChangesOnly(s: State, id: string, next: Status, now: int, putOk: bool, other: string)
    requires Inv(s)
    ensures var s' := Transition(s, id, next, now, putOk);
            if Judge(s.tasks, id, next).Refused? then s' == s
            else
              && s'.tasks.Keys == s.tasks.Keys
              && s'.tasks[id] == Task(id, s.tasks[id].contextId, next, s.tasks[id].targetSkillId,
                                      s.tasks[id].originatorPeerId, s.tasks[id].createdAt, now)
              && (putOk ==> id in s'.bucket && s'.bucket[id] == s'.tasks[id])
              && (!putOk ==> s'.bucket == s.bucket)
              && (other != id && other in s.tasks ==> s'.tasks[other] == s.tasks[other])
              && (other != id ==> (other in s'.bucket <==> other in s.bucket)
                                  && (other in s.bucket ==> s'.bucket[other] == s.bucket[other]))
  {
  }

  /** One task moved one status on; who sent it stays the same. */
  ghost predicate MovedOn(s: State, s': State, id: string, next: Status) {
    && id in s.tasks && id in s'.tasks && id in s.trail && id in s'.trail
    && s'.tasks[id].status == next
    && s'.tasks[id].originatorPeerId == s.tasks[id].originatorPeerId
    && s'.trail[id] == s.trail[id] + [next]
  }

  lemma TransitionEffect(s: State, id: string, next: Status, now: int, putOk: bool)
    requires Inv(s)
    ensures Inv(Transition(s, id, next, now, putOk))
    ensures if Judge(s.tasks, id, next).Moved? then MovedOn(s, Transition(s, id, next, now, putOk), id, next)
            else Transition(s, id, next, now, putOk) == s
  {
    TransitionKeepsInv(s, id, next, now, putOk);
    hide IsPath;
  }

  ghost function Apply(s: State, op: Op): (s': State)
    requires Inv(s)
    ensures Inv(s')
  {
    match op
    case RegisterOp(task, putOk) =>
      RegisterKeepsInv(s, task, putOk);
      Register(s, task, putOk)
    case TransitionOp(id, next, now, putOk) =>
      TransitionKeepsInv(s, id, next, now, putOk);
      Transition(s, id, next, now, putOk)
  }

  ghost function Run(s: State, ops: seq<Op>): (s': State)
    requires Inv(s)
    ensures Inv(s')
    decreases |ops|
  {
    if ops == [] then s else Run(Apply(s, ops[0]), ops[1..])
  }

  lemma PathShape(p: seq<Status>, i: nat)
    requires IsPath(p) && 0 < i < |p|
    ensures p[i] != Submitted && p[i] != Unspecified
    ensures p[i] in {Completed, Failed} ==> p[i - 1] == Working
    ensures p[i] == Rejected ==> i == 1 && p[0] == Submitted
    ensures p[i].IsTerminal() ==> i == |p| - 1
  {
    assert Allowed(p[i - 1], p[i]);
    if 1 < i {
      assert Allowed(p[i - 2], p[i - 1]);
    }
    if i < |p| - 1 {
      assert Allowed(p[i], p[i + 1]);
    }
  }

  /**
   * Between two registrations of an id, whatever else runs, its statuses walk the transition table:
   * SUBMITTED is never re-entered, COMPLETED and FAILED come straight from WORKING, REJECTED only from the
   * initial SUBMITTED, and nothing follows a terminal status.
   */
  lemma TaskHistoryIsPath(s: State, ops: seq<Op>, id: string, i: nat)
    requires Inv(s) && id in Run(s, ops).trail
    requires 0 < i < |Run(s, ops).trail[id]|
    ensures var p := Run(s, ops).trail[id];
            && IsPath(p) && p[|p| - 1] == Run(s, ops).tasks[id].status
            && p[i] != Submitted && p[i] != Unspecified
            && (p[i] in {Completed, Failed} ==> p[i - 1] == Working)
            && (p[i] == Rejected ==> i == 1 && p[0] == Submitted)
            && (p[i].IsTerminal() ==> i == |p| - 1)
  {
    PathShape(Run(s, ops).trail[id], i);
    hide Run, IsPath;
  }

  /** Nothing about one task differs, in memory, in the store or in its history. */
  ghost predicate SameAt(s: State, s': State, id: string) {
    && id in s.tasks && id in s'.tasks && s'.tasks[id] == s.tasks[id]
    && id in s.trail && id in s'.trail && s'.trail[id] == s.trail[id]
    && (id in s'.bucket <==> id in s.bucket)
    && (id in s.bucket ==> s'.bucket[id] == s.bucket[id])
  }

  lemma RegisterLeavesOthers(s: State, task: Task, putOk: bool, id: string)
    requires id in s.tasks && id in s.trail && id != task.id
    ensures SameAt(s, Register(s, task, putOk), id)
  {
  }

  lemma TransitionLeavesOthers(s: State, t: string, next: Status, now: int, putOk: bool, id: string)
    requires forall k <- s.tasks :: s.tasks[k].id == k
    requires id in s.tasks && id in s.trail
    requires id != t || s.tasks[id].status.IsTerminal()
    ensures SameAt(s, Transition(s, t, next, now, putOk), id)
  {
  }

  lemma TerminalStays(s: State, op: Op, id: string)
    requires Inv(s) && id in s.tasks && s.tasks[id].status.IsTerminal()
    requires !Registers(op, id)
    ensures SameAt(s, Apply(s, op), id)
  {
    hide SameAt, IsPath, Register, Transition;
    match op
    case RegisterOp(task, putOk) => RegisterLeavesOthers(s, task, putOk, id);
    case TransitionOp(t, next, now, putOk) => TransitionLeavesOthers(s, t, next, now, putOk, id);
  }

  /** A finished task stays exactly as it is, in memory and in the store, until its id is registered again. */
  lemma {:induction false} TerminalUntilRegistered(s: State, ops: seq<Op>, id: string)
    requires Inv(s) && id in s.tasks && s.tasks[id].status.IsTerminal()
    requires forall op <- ops :: !Registers(op, id)
    ensures SameAt(s, Run(s, ops), id)
    decreases |ops|
  {
    assert id in s.trail;
    hide Inv, Apply;
    if ops != [] {
      TerminalStays(s, ops[0], id);
      TerminalUntilRegistered(Apply(s, ops[0]), ops[1..], id);
    }
  }

  lemma {:induction false} RunMore(s: State, ops: seq<Op>, k: nat)
    requires Inv(s) && k < |ops|
    ensures Run(s, ops[..k + 1]) == Apply(Run(s, ops[..k]), ops[k])
    decreases k
  {
    hide Inv, Apply;
    if k > 0 {
      RunMore(Apply(s, ops[0]), ops[1..], k - 1);
      assert ops[..k][1..] == ops[1..][..k - 1] && ops[..k + 1][1..] == ops[1..][..k];
    } else {
      assert ops[..1] == [ops[0]];
    }
  }

  // ---- Attempted moves of one task ----

  predicate AreMovesOf(ops: seq<Op>, id: string) {
    forall op <- ops :: op.TransitionOp? && op.id == id
  }

  function Nexts(ops: seq<Op>): seq<Status>
    requires forall op <- ops :: op.TransitionOp?
  {
    seq(|ops|, i requires 0 <= i < |ops| => ops[i].next)
  }

  lemma NextsHead(ops: seq<Op>)
    requires ops != [] && forall op <- ops :: op.TransitionOp?
    ensures Nexts(ops) == [ops[0].next] + Nexts(ops[1..])
  {
  }

  lemma MoveStep(s: State, op: Op)
    requires Inv(s) && op.TransitionOp? && op.id in s.tasks
    ensures var p, s' := Trail(s, op.id), Apply(s, op);
            && op.id in s'.tasks && IsPath(p)
            && Trail(s', op.id) == if Allowed(p[|p| - 1], op.next) then p + [op.next] else p
  {
    TransitionEffect(s, op.id, op.next, op.now, op.putOk);
    assert IsPath(s.trail[op.id]);
    hide Transition, IsPath;
  }

  lemma PathSplit(p: seq<Status>, x: Status, rest: seq<Status>)
    requires IsPath(p)
    ensures p + ([x] + rest) == (p + [x]) + rest
    ensures IsPath(p + ([x] + rest)) ==> Allowed(p[|p| - 1], x)
  {
    var all := p + ([x] + rest);
    if IsPath(all) {
      assert Allowed(all[|p| - 1], all[|p|]);
    }
  }

  /**
   * A series of attempted moves is taken up completely exactly when, put after the task's history, it continues the
   * walk along the transition table; the history reaches full length in no other way.
   */
  lemma {:induction false} MovesTakenExactly(s: State, ops: seq<Op>, id: string)
    requires Inv(s) && id in s.tasks && AreMovesOf(ops, id)
    ensures var p, q := Trail(s, id), Trail(Run(s, ops), id);
            && |q| <= |p| + |ops|
            && (|q| == |p| + |ops| ==> q == p + Nexts(ops))
            && (q == p + Nexts(ops) <==> IsPath(p + Nexts(ops)))
    decreases |ops|
  {
    var p := Trail(s, id);
    assert IsPath(s.trail[id]);
    if ops == [] {
      assert p + Nexts(ops) == p;
    } else {
      NextsHead(ops);
      MoveStep(s, ops[0]);
      MovesTakenExactly(Apply(s, ops[0]), ops[1..], id);
      PathSplit(p, ops[0].next, Nexts(ops[1..]));
      assert |Nexts(ops[1..])| == |ops| - 1;
      hide Inv, Apply, Nexts, IsPath, Allowed, Trail;
    }
  }

  predicate StaysFinished(s: State, id: string) {
    id in s.tasks && s.tasks[id].status.IsTerminal()
  }

  lemma FinishedStep(s: State, op: Op, id: string)
    requires Inv(s) && StaysFinished(s, id)
    ensures StaysFinished(Apply(s, op), id) <==> (Registers(op, id) ==> op.task.status.IsTerminal())
    ensures Judge(Apply(s, op).tasks, id, Working).Moved? <==> Registers(op, id) && Allowed(op.task.status, Working)
  {
    if Registers(op, id) {
      assert Apply(s, op).tasks[id] == op.task;
    } else {
      TerminalStays(s, op, id);
      assert Judge(Apply(s, op).tasks, id, Working) == Judge(s.tasks, id, Working);
    }
    hide Inv, Apply;
  }

  /**
   * Registration overwrites whatever status the task has: a finished task stays finished throughout a run exactly when
   * every registration of its id in the run brings a terminal status.
   */
  lemma FinishedUnlessReopened(s: State, ops: seq<Op>, id: string)
    requires Inv(s) && StaysFinished(s, id)
    ensures (forall k | 0 <= k <= |ops| :: StaysFinished(Run(s, ops[..k]), id))
            <==> (forall k | 0 <= k < |ops| :: Registers(ops[k], id) ==> ops[k].task.status.IsTerminal())
  {
    hide Inv, Apply, Run, StaysFinished;
    var fine := forall k | 0 <= k < |ops| :: Registers(ops[k], id) ==> ops[k].task.status.IsTerminal();
    if fine {
      forall k | 0 <= k <= |ops| ensures StaysFinished(Run(s, ops[..k]), id) {
        FinishedUntil(s, ops, id, k);
      }
    } else if forall k | 0 <= k <= |ops| :: StaysFinished(Run(s, ops[..k]), id) {
      var k :| 0 <= k < |ops| && Registers(ops[k], id) && !ops[k].task.status.IsTerminal();
      assert StaysFinished(Run(s, ops[..k]), id) && StaysFinished(Run(s, ops[..k + 1]), id);
      RunMore(s, ops, k);
      FinishedStep(Run(s, ops[..k]), ops[k], id);
      assert false;
    }
  }

  lemma {:induction false} FinishedUntil(s: State, ops: seq<Op>, id: string, k: nat)
    requires Inv(s) && StaysFinished(s, id) && k <= |ops|
    requires forall k | 0 <= k < |ops| :: Registers(ops[k], id) ==> ops[k].task.status.IsTerminal()
    ensures StaysFinished(Run(s, ops[..k]), id)
  {
    hide Inv, Apply, StaysFinished;
    if k > 0 {
      FinishedUntil(s, ops, id, k - 1);
      RunMore(s, ops, k - 1);
      FinishedStep(Run(s, ops[..k - 1]), ops[k - 1], id);
    }
  }

  predicate AllStored(ops: seq<Op>) {
    forall op <- ops :: op.putOk
  }

  lemma {:induction false} StoredRunHasNoUnsaved(s: State, ops: seq<Op>)
    requires Inv(s) && s.unsaved == {} && AllStored(ops)
    ensures Run(s, ops).unsaved == {}
    decreases |ops|
  {
    if ops != [] {
      assert ops[0].putOk;
      StoredRunHasNoUnsaved(Apply(s, ops[0]), ops[1..]);
    }
  }

  lemma RecoveredInv(s: State, loads: string -> bool)
    requires Inv(s)
    ensures Recovered(EMPTY.(bucket := s.bucket), loads).tasks == Readable(s.bucket, loads)
    ensures (forall id <- s.bucket :: loads(id)) ==>
              Inv(Recovered(EMPTY.(bucket := s.bucket), loads)) && Readable(s.bucket, loads) == s.bucket
  {
    var s' := Recovered(EMPTY.(bucket := s.bucket), loads);
    assert s'.tasks == Readable(s.bucket, loads);
    if forall id <- s.bucket :: loads(id) {
      assert s'.tasks == s.bucket;
      assert s'.trail == map id | id in s.bucket :: [s.bucket[id].status];
    }
    hide Readable;
  }

  /**
   * After any run whose writes all succeed, a fresh engine on the same store recovers exactly the tasks in
   * memory that can be read back, so all of them if all can; with failed writes, it still recovers every readable task
   * whose last change was stored.
   */
  lemma {:induction false} RecoveryRebuildsMemory(ops: seq<Op>, loads: string -> bool)
    ensures var s := Run(EMPTY, ops);
            var fresh' := Recovered(EMPTY.(bucket := s.bucket), loads);
            && (AllStored(ops) ==> fresh'.tasks == Readable(s.tasks, loads))
            && (AllStored(ops) && (forall id <- s.tasks :: loads(id)) ==> fresh'.tasks == s.tasks && Inv(fresh'))
            && (forall id <- s.tasks :: id !in s.unsaved ==>
                  (id in fresh'.tasks <==> loads(id)) && (loads(id) ==> fresh'.tasks[id] == s.tasks[id]))
  {
    hide Run, IsPath, Recovered;
    var s := Run(EMPTY, ops);
    RecoveredInv(s, loads);
    if AllStored(ops) {
      StoredRunHasNoUnsaved(EMPTY, ops);
      assert s.bucket == s.tasks;
    }
  }

  // ---- The late write of CreateTask and RegisterTask ----

  /** Moves of the task come later than `at`; nothing registers it again. */
  predicate MovesLater(ops: seq<Op>, id: string, at: int) {
    forall op <- ops :: !Registers(op, id) && (op.TransitionOp? && op.id == id ==> op.now > at)
  }

  /** The operation asks for a move of the task that is legal from this status. */
  predicate MovesFrom(op: Op, id: string, status: Status) {
    op.TransitionOp? && op.id == id && Allowed(status, op.next)
  }

  /** An operation changes the task exactly if it moves it on, and then its time is later. */
  lemma MovesTask(s: State, op: Op, id: string, at: int)
    requires Inv(s) && id in s.tasks && MovesLater([op], id, at)
    ensures var s' := Apply(s, op);
            && id in s'.tasks
            && if MovesFrom(op, id, s.tasks[id].status) then s'.tasks[id].updatedAt > at
               else s'.tasks[id] == s.tasks[id]
  {
    assert op in [op] && id in s.trail;
    match op
    case RegisterOp(task, putOk) => RegisterLeavesOthers(s, task, putOk, id);
    case TransitionOp(t, next, now, putOk) =>
      if t != id {
        TransitionLeavesOthers(s, t, next, now, putOk, id);
      }
    hide Inv;
  }

  lemma {:induction false} StaysLater(s: State, ops: seq<Op>, id: string, at: int)
    requires Inv(s) && id in s.tasks && s.tasks[id].updatedAt > at && MovesLater(ops, id, at)
    ensures id in Run(s, ops).tasks && Run(s, ops).tasks[id].updatedAt > at
    decreases |ops|
  {
    hide Inv, Apply;
    if ops != [] {
      assert MovesLater([ops[0]], id, at) && MovesLater(ops[1..], id, at);
      MovesTask(s, ops[0], id, at);
      StaysLater(Apply(s, ops[0]), ops[1..], id, at);
    }
  }

  /** A run leaves the task as it is exactly if none of its operations asks for a move legal from its status. */
  lemma {:induction false} UntouchedExactly(s: State, ops: seq<Op>, id: string)
    requires Inv(s) && id in s.tasks && MovesLater(ops, id, s.tasks[id].updatedAt)
    ensures id in Run(s, ops).tasks
    ensures Run(s, ops).tasks[id] == s.tasks[id] <==> forall op <- ops :: !MovesFrom(op, id, s.tasks[id].status)
    decreases |ops|
  {
    hide Inv, Apply;
    if ops != [] {
      var at := s.tasks[id].updatedAt;
      assert MovesLater([ops[0]], id, at) && MovesLater(ops[1..], id, at);
      MovesTask(s, ops[0], id, at);
      hide MovesFrom, MovesLater;
      if MovesFrom(ops[0], id, s.tasks[id].status) {
        StaysLater(Apply(s, ops[0]), ops[1..], id, at);
      } else {
        UntouchedExactly(Apply(s, ops[0]), ops[1..], id);
      }
    }
  }

  lemma SavedIsRecovered(s: State, task: Task, loads: string -> bool)
    requires loads(task.id)
    ensures var fresh' := Recovered(EMPTY.(bucket := Save(s, task, true).bucket), loads);
            task.id in fresh'.tasks && fresh'.tasks[task.id] == task
  {
  }

  /**
   * CreateTask and RegisterTask encode and write the task after releasing the lock, so it may have moved before it is
   * encoded, in the state `s`, and other operations may run before the write lands. Recovery then gives back the task
   * in memory if and only if none of these asks for a move legal from the status that was encoded.
   */
  lemma LateWriteInStep(s: State, id: string, between: seq<Op>, loads: string -> bool)
    requires Inv(s) && id in s.tasks && MovesLater(between, id, s.tasks[id].updatedAt) && loads(id)
    ensures var t := Run(s, between);
            var fresh' := Recovered(EMPTY.(bucket := Save(t, s.tasks[id], true).bucket), loads);
            && id in t.tasks && id in fresh'.tasks
            && (fresh'.tasks[id] == t.tasks[id] <==> forall op <- between :: !MovesFrom(op, id, s.tasks[id].status))
  {
    assert s.tasks[id].id == id;
    UntouchedExactly(s, between, id);
    SavedIsRecovered(Run(s, between), s.tasks[id], loads);
    hide Inv, Run, Recovered, Save, MovesFrom, MovesLater;
  }
}
