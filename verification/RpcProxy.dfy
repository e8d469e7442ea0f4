/**
 * JSON-RPC correlation with an MCP subprocess (internal/mcpproxy/process.go): any number of concurrent Calls and
 * one read loop, interleaved at their locks and channel operations (section 5 of the JSON-RPC 2.0 specification).
 */
module RpcProxy {

  const INT64_RANGE: nat := 0x1_0000_0000_0000_0000

  /** A member of a response that may be missing. */
  datatype Field = Absent | Present(text: string)

  /** A line from the server: nothing makes it carry a result or an error. */
  datatype Response = Response(id: int, result: Field, error: Field)

  /** A Go channel of capacity 1. */
  datatype Chan = Chan(buffer: seq<Response>, closed: bool)

  /** The n-th value of the atomic 64-bit counter. */
  function IdOf(n: nat): int {
    var m := n % INT64_RANGE;
    if m < INT64_RANGE / 2 then m else m - INT64_RANGE
  }

  /** What the goroutines share. Calls are numbered in the order they take their ids; each has its own channel. */
  datatype Shared = Shared(nextId: nat, pending: map<int, nat>, chans: map<nat, Chan>)

  function Registered(sh: Shared, n: nat): Shared {
    sh.(pending := sh.pending[IdOf(n) := n], chans := sh.chans[n := Chan([], false)])
  }

  function Forgotten(sh: Shared, n: nat): Shared {
    sh.(pending := sh.pending - {IdOf(n)})
  }

  function Close(c: Chan): Chan {
    c.(closed := true)
  }

  function AllClosed(sh: Shared): Shared {
    sh.(pending := map[], chans := ClosedOnly(sh.chans, sh.pending.Values))
  }

  function ClosedOnly(chans: map<nat, Chan>, which: set<nat>): map<nat, Chan> {
    map n | n in chans :: if n in which then Close(chans[n]) else chans[n]
  }

  lemma CloseOneMore(chans: map<nat, Chan>, which: set<nat>, n: nat)
    requires n in chans
    ensures var now := ClosedOnly(chans, which);
            now[n := Close(now[n])] == ClosedOnly(chans, which + {n})
  {
  }

  lemma ValuesWithout<K, V>(m: map<K, V>, id: K)
    requires id in m
    ensures m.Values == (m - {id}).Values + {m[id]}
  {
    forall v | v in m.Values ensures v in (m - {id}).Values + {m[id]} {
      var k :| k in m && m[k] == v;
      assert k != id ==> k in (m - {id}) && (m - {id})[k] == v;
    }
  }

  method AnyOf<K>(keys: set<K>) returns (k: K)
    requires keys != {}
    ensures k in keys
  {
    k :| k in keys;
  }

  /** The sections run under the lock. */
  class Process {
    var nextId: nat
    var pending: map<int, nat>
    var chans: map<nat, Chan>

    constructor ()
      ensures View() == Shared(0, map[], map[])
    {
      nextId, pending, chans := 0, map[], map[];
    }

    function View(): Shared
      reads this
    {
      Shared(nextId, pending, chans)
    }

    method TakeId() returns (n: nat)
      modifies this`nextId
      ensures n == old(nextId) + 1 && nextId == n
    {
      nextId := nextId + 1;
      n := nextId;
    }

    method Register(n: nat)
      modifies this`pending, this`chans
      ensures View() == Registered(old(View()), n)
    {
      chans := chans[n := Chan([], false)];
      pending := pending[IdOf(n) := n];
    }

    method Forget(n: nat)
      modifies this`pending
      ensures View() == Forgotten(old(View()), n)
    {
      pending := pending - {IdOf(n)};
    }

    /** The loop on exit: close every waiting caller's channel and drop it. */
    method CloseAll()
      requires pending.Values <= chans.Keys
      modifies this`pending, this`chans
      ensures View() == AllClosed(old(View()))
    {
      ghost var gone: set<nat> := {};
      while pending.Keys != {}
        invariant pending.Values + gone == old(pending).Values
        invariant chans == ClosedOnly(old(chans), gone)
        decreases |pending|
      {
        var id := AnyOf(pending.Keys);
        var n := pending[id];
        ValuesWithout(pending, id);
        CloseOneMore(old(chans), gone, n);
        chans := chans[n := Close(chans[n])];
        pending := pending - {id};
        gone := gone + {n};
      }
    }
  }

  // ---- Interleaved steps ----

  datatype Outcome =
    | WriteFailed
    | Cancelled
    | Exited
    | Got(resp: Response)
    | ClosedRead  // received from a closed channel: a zero response

  /** What Call gives back. */
  datatype Reply = Value(result: string) | Failure | NilWithoutError

  predicate IsBare(resp: Response) {
    resp.result.Absent? && resp.error.Absent?
  }

  function ReplyOf(out: Outcome): Reply {
    match out
    case Got(resp) =>
      if resp.error.Present? then Failure else if resp.result.Present? then Value(resp.result.text) else NilWithoutError
    case ClosedRead => NilWithoutError
    case _ => Failure
  }

  datatype CallPhase = TookId | Writing | Waiting | Leaving(out: Outcome) | Returned(out: Outcome)

  datatype LoopPhase = Reading | Sending(resp: Response, to: nat) | Closed | Done

  /** `answers` counts the lines the server wrote for each id. */
  datatype State = State(sh: Shared, calls: map<nat, CallPhase>, loop: LoopPhase, answers: map<int, nat>)

  datatype Step =
    | Begin
    | Register(n: nat)
    | Write(n: nat, ok: bool)
    | Cancel(n: nat)
    | SeeDone(n: nat)
    | Receive(n: nat)
    | Leave(n: nat)
    | Lookup(resp: Response)
    | Send
    | Stop
    | SignalDone

  const START := State(Shared(0, map[], map[]), map[], Reading, map[])

  predicate At(s: State, n: nat, phase: CallPhase) {
    n in s.calls && s.calls[n] == phase
  }

  predicate Enabled(s: State, step: Step) {
    match step
    // The counter is used for fewer than 2^64 - 1 calls; after that it would hand out 0.
    case Begin => s.sh.nextId + 1 < INT64_RANGE
    case Register(n) => At(s, n, TookId)
    case Write(n, _) => At(s, n, Writing)
    case Cancel(n) => At(s, n, Waiting)
    case SeeDone(n) => At(s, n, Waiting) && s.loop.Done?
    case Receive(n) => At(s, n, Waiting) && n in s.sh.chans && (s.sh.chans[n].buffer != [] || s.sh.chans[n].closed)
    case Leave(n) => n in s.calls && s.calls[n].Leaving?
    case Lookup(resp) => s.loop.Reading? && resp.id != 0
    case Send => CanSend(s)
    case Stop => s.loop.Reading?
    case SignalDone => s.loop.Closed?
  }

  /** A send on a full channel blocks. */
  predicate CanSend(s: State) {
    s.loop.Sending? && s.loop.to in s.sh.chans && |s.sh.chans[s.loop.to].buffer| < 1
  }

  function Answers(s: State, id: int): nat {
    if id in s.answers then s.answers[id] else 0
  }

  function Next(s: State, step: Step): State
    requires Enabled(s, step)
  {
    match step
    case Begin =>
      s.(sh := s.sh.(nextId := s.sh.nextId + 1), calls := s.calls[s.sh.nextId + 1 := TookId])
    case Register(n) => s.(sh := Registered(s.sh, n), calls := s.calls[n := Writing])
    case Write(n, ok) => s.(calls := s.calls[n := if ok then Waiting else Leaving(WriteFailed)])
    case Cancel(n) => s.(calls := s.calls[n := Leaving(Cancelled)])
    case SeeDone(n) => s.(calls := s.calls[n := Leaving(Exited)])
    case Receive(n) =>
      var c := s.sh.chans[n];
      if c.buffer == [] then s.(calls := s.calls[n := Leaving(ClosedRead)])
      else
        s.(calls := s.calls[n := Leaving(Got(c.buffer[0]))],
           sh := s.sh.(chans := s.sh.chans[n := c.(buffer := c.buffer[1..])]))
    case Leave(n) => s.(sh := Forgotten(s.sh, n), calls := s.calls[n := Returned(s.calls[n].out)])
    case Lookup(resp) =>
      s.(answers := s.answers[resp.id := Answers(s, resp.id) + 1],
         loop := if resp.id in s.sh.pending then Sending(resp, s.sh.pending[resp.id]) else Reading)
    case Send =>
      var c := s.sh.chans[s.loop.to];
      s.(sh := s.sh.(chans := s.sh.chans[s.loop.to := c.(buffer := c.buffer + [s.loop.resp])]), loop := Reading)
    case Stop => s.(sh := AllClosed(s.sh), loop := Closed)
    case SignalDone => s.(loop := Done)
  }

  // ---- Invariant, call by call ----

  predicate IsIn(phase: CallPhase, out: Outcome) {
    (phase.Leaving? || phase.Returned?) && phase.out == out
  }

  /** The answers to a call that have got as far as its channel. */
  function Reached(s: State, n: nat): nat {
    (if n in s.sh.chans then |s.sh.chans[n].buffer| else 0)
    + (if s.loop.Sending? && s.loop.to == n then 1 else 0)
    + (if n in s.calls && (s.calls[n].Leaving? || s.calls[n].Returned?) && s.calls[n].out.Got? then 1 else 0)
  }

  ghost predicate Good(s: State, n: nat) {
    && (n in s.calls <==> 1 <= n <= s.sh.nextId)
    && (n in s.sh.chans <==> n in s.calls && !s.calls[n].TookId?)
    && Reached(s, n) <= Answers(s, IdOf(n))
    && (n in s.sh.chans ==>
          var c := s.sh.chans[n];
          && |c.buffer| <= 1
          && (c.buffer != [] ==> c.buffer[0].id == IdOf(n))
          && (c.closed ==> (s.loop.Closed? || s.loop.Done?) && IdOf(n) !in s.sh.pending))
    && (s.loop.Sending? && s.loop.to == n ==> n in s.sh.chans && s.loop.resp.id == IdOf(n))
    && (n in s.calls && (s.calls[n].Leaving? || s.calls[n].Returned?) ==>
          && (s.calls[n].out.Got? ==> s.calls[n].out.resp.id == IdOf(n))
          && (s.calls[n].out.ClosedRead? ==> n in s.sh.chans && s.sh.chans[n].closed))
    && (IdOf(n) in s.sh.pending && 1 <= n < INT64_RANGE ==>
          s.sh.pending[IdOf(n)] == n && n in s.sh.chans
          && (s.calls[n].Writing? || s.calls[n].Waiting? || s.calls[n].Leaving?))
    && (n in s.calls && (s.calls[n].Writing? || s.calls[n].Waiting?) && IdOf(n) !in s.sh.pending ==>
          s.sh.chans[n].closed)
  }

  ghost predicate PendingFits(s: State) {
    forall id <- s.sh.pending :: var n := s.sh.pending[id]; 1 <= n < INT64_RANGE && n <= s.sh.nextId && IdOf(n) == id
  }

  ghost predicate Inv(s: State) {
    && s.sh.nextId < INT64_RANGE
    && PendingFits(s)
    && (forall n {:trigger Good(s, n)} :: Good(s, n))
  }

  /** Ids of different calls differ, and none is 0, which marks notifications. */
  lemma IdsDiffer(m: nat, n: nat)
    requires 1 <= m < INT64_RANGE && 1 <= n < INT64_RANGE
    ensures IdOf(m) == IdOf(n) ==> m == n
    ensures IdOf(n) != 0
  {
  }

  lemma StepGood(s: State, step: Step, n: nat)
    requires Inv(s) && Enabled(s, step)
    ensures Good(Next(s, step), n)
  {
    assert Good(s, n);
    if step.Register? || step.Leave? {
      assert Good(s, step.n);
      if 1 <= n < INT64_RANGE {
        IdsDiffer(step.n, n);
      }
    }
  }

  lemma StepPendingFits(s: State, step: Step)
    requires Inv(s) && Enabled(s, step)
    ensures PendingFits(Next(s, step))
  {
    if step.Register? {
      assert Good(s, step.n);
    }
  }

  lemma StepInv(s: State, step: Step)
    requires Inv(s) && Enabled(s, step)
    ensures Inv(Next(s, step))
  {
    StepPendingFits(s, step);
    forall n: nat ensures Good(Next(s, step), n) {
      StepGood(s, step, n);
    }
  }

  // ---- Whole runs ----

  /** The k-th step is enabled in the k-th state and leads to the next. */
  ghost predicate IsPath(states: seq<State>, steps: seq<Step>) {
    && |states| == |steps| + 1
    && (forall k | 0 <= k < |steps| :: Enabled(states[k], steps[k]) && states[k + 1] == Next(states[k], steps[k]))
  }

  ghost predicate IsRun(states: seq<State>, steps: seq<Step>) {
    IsPath(states, steps) && states[0] == START
  }

  lemma {:induction false} RunInv(states: seq<State>, steps: seq<Step>, k: nat)
    requires IsRun(states, steps) && k < |states|
    ensures Inv(states[k])
  {
    if k > 0 {
      RunInv(states, steps, k - 1);
      StepInv(states[k - 1], steps[k - 1]);
    }
  }

  /** A Call that returns a dispatched value returns the response that bears its own id. */
  lemma CallGetsItsOwnAnswer(states: seq<State>, steps: seq<Step>, k: nat, n: nat, resp: Response)
    requires IsRun(states, steps) && k < |states|
    requires n in states[k].calls && IsIn(states[k].calls[n], Got(resp))
    ensures resp.id == IdOf(n)
  {
    RunInv(states, steps, k);
    assert Good(states[k], n);
  }

  /** Calls in flight have different ids, none of them 0. */
  lemma InFlightIdsDiffer(states: seq<State>, steps: seq<Step>, k: nat, m: nat, n: nat)
    requires IsRun(states, steps) && k < |states|
    requires m in states[k].calls && n in states[k].calls && m != n
    ensures IdOf(m) != IdOf(n) && IdOf(n) != 0
  {
    RunInv(states, steps, k);
    assert Good(states[k], m) && Good(states[k], n);
    IdsDiffer(m, n);
  }

  /** The loop never sends to a closed channel, and on exit never closes one twice. */
  lemma NoSendOrCloseAfterClose(states: seq<State>, steps: seq<Step>, k: nat)
    requires IsRun(states, steps) && k < |steps|
    ensures steps[k].Send? ==> !states[k].sh.chans[states[k].loop.to].closed
    ensures steps[k].Stop? ==>
              forall id <- states[k].sh.pending :: var n := states[k].sh.pending[id];
                n in states[k].sh.chans && !states[k].sh.chans[n].closed
  {
    RunInv(states, steps, k);
    var s := states[k];
    if steps[k].Send? {
      assert Good(s, s.loop.to);
    }
    forall id <- s.sh.pending ensures s.sh.pending[id] in s.sh.chans && !s.sh.chans[s.sh.pending[id]].closed {
      assert Good(s, s.sh.pending[id]);
    }
  }

  /** As long as the server answers each id at most once, the read loop never blocks on a send. */
  lemma ReadLoopNeverBlocks(states: seq<State>, steps: seq<Step>, k: nat)
    requires IsRun(states, steps) && k < |states| && states[k].loop.Sending?
    requires Answers(states[k], states[k].loop.resp.id) <= 1
    ensures CanSend(states[k])
  {
    RunInv(states, steps, k);
    assert Good(states[k], states[k].loop.to);
  }

  // ---- When the read loop blocks, and for how long ----

  predicate Blocked(s: State) {
    s.loop.Sending? && !CanSend(s)
  }

  /** A send blocks exactly while an earlier answer to the same call lies unread in its channel. */
  lemma BlockedExactly(states: seq<State>, steps: seq<Step>, k: nat)
    requires IsRun(states, steps) && k < |states| && states[k].loop.Sending?
    ensures var s := states[k];
            && s.loop.to in s.sh.chans && s.loop.resp.id == IdOf(s.loop.to)
            && (Blocked(s) <==>
                 exists earlier :: s.sh.chans[s.loop.to].buffer == [earlier] && earlier.id == s.loop.resp.id)
            && (Blocked(s) ==> Answers(s, s.loop.resp.id) >= 2)
  {
    RunInv(states, steps, k);
    var s := states[k];
    assert Good(s, s.loop.to);
    if Blocked(s) {
      var buffer := s.sh.chans[s.loop.to].buffer;
      assert buffer == [buffer[0]];
    }
  }

  /** Some continuation lets the loop's send happen. */
  ghost predicate CanProceed(s: State) {
    exists states, steps :: IsPath(states, steps) && states[0] == s && CanSend(states[|steps|])
  }

  /** The caller whose channel is full has stopped reading it. */
  predicate Abandoned(s: State) {
    && s.loop.Sending? && s.loop.to in s.sh.chans && s.sh.chans[s.loop.to].buffer != []
    && s.loop.to in s.calls && (s.calls[s.loop.to].Leaving? || s.calls[s.loop.to].Returned?)
  }

  lemma AbandonedStays(s: State, step: Step)
    requires Inv(s) && Abandoned(s) && Enabled(s, step)
    ensures Abandoned(Next(s, step)) && Next(s, step).loop == s.loop
  {
    assert Good(s, s.loop.to);
  }

  lemma {:induction false} AbandonedForGood(states: seq<State>, steps: seq<Step>, k: nat)
    requires IsPath(states, steps) && k < |states| && Inv(states[0]) && Abandoned(states[0])
    ensures Inv(states[k]) && Abandoned(states[k])
  {
    if k > 0 {
      AbandonedForGood(states, steps, k - 1);
      AbandonedStays(states[k - 1], steps[k - 1]);
      StepInv(states[k - 1], steps[k - 1]);
      hide Inv, Abandoned, Next;
    }
  }

  /** A caller that still waits, or will once its request is written, can empty its channel. */
  lemma ReaderUnblocks(s: State) returns (states: seq<State>, steps: seq<Step>)
    requires Inv(s) && Blocked(s)
    requires s.loop.to in s.calls && (s.calls[s.loop.to].Writing? || s.calls[s.loop.to].Waiting?)
    ensures IsPath(states, steps) && states[0] == s && CanSend(states[|steps|])
  {
    var n := s.loop.to;
    assert Good(s, n);
    if s.calls[n].Waiting? {
      states, steps := [s, Next(s, Receive(n))], [Receive(n)];
    } else {
      var s' := Next(s, Write(n, true));
      states, steps := [s, s', Next(s', Receive(n))], [Write(n, true), Receive(n)];
    }
  }

  /**
   * A blocked send can still happen if and only if its caller is writing or waiting; otherwise every continuation
   * finds the loop at the same send, blocked.
   */
  lemma BlockedForGood(states: seq<State>, steps: seq<Step>, k: nat)
    requires IsRun(states, steps) && k < |states| && Blocked(states[k])
    ensures var s := states[k];
            s.loop.to in s.calls
            && (CanProceed(s) <==> s.calls[s.loop.to].Writing? || s.calls[s.loop.to].Waiting?)
  {
    RunInv(states, steps, k);
    var s := states[k];
    assert Good(s, s.loop.to);
    if s.calls[s.loop.to].Writing? || s.calls[s.loop.to].Waiting? {
      var onStates, onSteps := ReaderUnblocks(s);
    } else if CanProceed(s) {
      var onStates, onSteps :| IsPath(onStates, onSteps) && onStates[0] == s && CanSend(onStates[|onSteps|]);
      AbandonedForGood(onStates, onSteps, |onSteps|);
      assert false;
    }
  }

  lemma Extended(states: seq<State>, steps: seq<Step>, step: Step, next: State)
      returns (states': seq<State>, steps': seq<Step>)
    requires IsRun(states, steps) && Enabled(states[|steps|], step) && Next(states[|steps|], step) == next
    ensures states' == states + [next] && steps' == steps + [step] && IsRun(states', steps')
  {
    states', steps' := states + [next], steps + [step];
  }

  /** One call has written its request and waits. */
  lemma OneCallWaiting() returns (states: seq<State>, steps: seq<Step>)
    ensures IsRun(states, steps) && |steps| == 3
    ensures states[3] == State(Shared(1, map[1 := 1], map[1 := Chan([], false)]), map[1 := Waiting], Reading, map[])
  {
    assert IdOf(1) == 1;
    var sh := Shared(1, map[1 := 1], map[1 := Chan([], false)]);
    states, steps := [START], [];
    states, steps := Extended(states, steps, Begin, State(Shared(1, map[], map[]), map[1 := TookId], Reading, map[]));
    states, steps := Extended(states, steps, Register(1), State(sh, map[1 := Writing], Reading, map[]));
    states, steps := Extended(states, steps, Write(1, true), State(sh, map[1 := Waiting], Reading, map[]));
  }

  /**
   * Two answers to one id can block the loop for good: the caller is cancelled with the first answer unread, and no
   * continuation lets the second be sent.
   */
  lemma TwoAnswersBlock(resp: Response) returns (states: seq<State>, steps: seq<Step>)
    requires resp.id == 1
    ensures IsRun(states, steps)
    ensures Blocked(states[|steps|]) && !CanProceed(states[|steps|])
  {
    states, steps := OneCallWaiting();
    var sh := states[3].sh;
    var filled := sh.(chans := map[1 := Chan([resp], false)]);
    states, steps := Extended(states, steps, Lookup(resp), State(sh, map[1 := Waiting], Sending(resp, 1), map[1 := 1]));
    assert sh.chans[1].buffer + [resp] == [resp];
    states, steps := Extended(states, steps, Send, State(filled, map[1 := Waiting], Reading, map[1 := 1]));
    states, steps := Extended(states, steps, Lookup(resp),
                              State(filled, map[1 := Waiting], Sending(resp, 1), map[1 := 2]));
    states, steps := Extended(states, steps, Cancel(1),
                              State(filled, map[1 := Leaving(Cancelled)], Sending(resp, 1), map[1 := 2]));
    states, steps := Extended(states, steps, Leave(1),
                              State(filled.(pending := map[]), map[1 := Returned(Cancelled)],
                                    Sending(resp, 1), map[1 := 2]));
    BlockedForGood(states, steps, |steps|);
  }

  /** After the subprocess exits, a waiting Call can return nil without any error. */
  lemma ExitCanLookLikeSuccess() returns (states: seq<State>, steps: seq<Step>)
    ensures IsRun(states, steps)
    ensures TookNil(states[|steps|], 1) && At(states[|steps|], 1, Returned(ClosedRead))
    ensures states[|steps|].answers == map[]
  {
    states, steps := OneCallWaiting();
    var sh := states[3].sh;
    assert sh.pending[1] == 1;
    var closed := Shared(1, map[], map[1 := Chan([], true)]);
    states, steps := Extended(states, steps, Stop, State(closed, map[1 := Waiting], Closed, map[]));
    states, steps := Extended(states, steps, Receive(1), State(closed, map[1 := Leaving(ClosedRead)], Closed, map[]));
    states, steps := Extended(states, steps, Leave(1), State(closed, map[1 := Returned(ClosedRead)], Closed, map[]));
  }

  /**
   * So can a Call whose server answers its id with neither a result nor an error, or sends a request of its own under
   * that id, while the read loop goes on.
   */
  lemma BareAnswerLooksLikeSuccess(resp: Response) returns (states: seq<State>, steps: seq<Step>)
    requires resp.id == 1 && IsBare(resp)
    ensures IsRun(states, steps)
    ensures TookNil(states[|steps|], 1) && At(states[|steps|], 1, Returned(Got(resp))) && states[|steps|].loop.Reading?
  {
    states, steps := OneCallWaiting();
    var sh := states[3].sh;
    var filled := sh.(chans := map[1 := Chan([resp], false)]);
    states, steps := Extended(states, steps, Lookup(resp), State(sh, map[1 := Waiting], Sending(resp, 1), map[1 := 1]));
    assert sh.chans[1].buffer + [resp] == [resp];
    states, steps := Extended(states, steps, Send, State(filled, map[1 := Waiting], Reading, map[1 := 1]));
    assert [resp][1..] == [];
    states, steps := Extended(states, steps, Receive(1), State(sh, map[1 := Leaving(Got(resp))], Reading, map[1 := 1]));
    states, steps := Extended(states, steps, Leave(1),
                              State(sh.(pending := map[]), map[1 := Returned(Got(resp))], Reading, map[1 := 1]));
  }

  // ---- What a Call returns ----

  /**
   * In every run a Call that is done returns a value exactly if it received, under its own id, an answer with that
   * result and no error; it fails exactly if its answer had an error, it could not write, it was cancelled or it saw
   * the subprocess exit.
   */
  lemma ReplyExactly(states: seq<State>, steps: seq<Step>, k: nat, n: nat)
    requires IsRun(states, steps) && k < |states| && n in states[k].calls
    requires states[k].calls[n].Leaving? || states[k].calls[n].Returned?
    ensures var out := states[k].calls[n].out;
            && (forall v :: ReplyOf(out) == Value(v) <==>
                  out.Got? && out.resp.id == IdOf(n) && out.resp.error.Absent? && out.resp.result == Present(v))
            && (ReplyOf(out) == Failure <==>
                  out == WriteFailed || out == Cancelled || out == Exited || (out.Got? && out.resp.error.Present?))
  {
    RunInv(states, steps, k);
    assert Good(states[k], n);
  }

  /** The n-th call has the id n, as far as 64 bits go. */
  lemma IdsCountUp(n: nat)
    requires n < 0x8000_0000_0000_0000
    ensures IdOf(n) == n
  {
  }

  // ---- When a Call returns nil ----

  predicate TookNil(s: State, n: nat) {
    n in s.calls && (s.calls[n].Leaving? || s.calls[n].Returned?) && ReplyOf(s.calls[n].out).NilWithoutError?
  }

  /** The loop has dropped the call and left its channel empty, or what lies there first is a bare answer. */
  predicate NilLies(s: State, n: nat) {
    n in s.sh.chans &&
    var buffer := s.sh.chans[n].buffer;
    if buffer == [] then IdOf(n) !in s.sh.pending else IsBare(buffer[0])
  }

  predicate ReadsNil(s: State, step: Step, n: nat) {
    step == Receive(n) && At(s, n, Waiting) && NilLies(s, n)
  }

  /** For a waiting call that is exactly when nil is there to be taken. */
  lemma NilTakenExactly(states: seq<State>, steps: seq<Step>, k: nat, n: nat)
    requires IsRun(states, steps) && k < |states| && At(states[k], n, Waiting)
    ensures Enabled(states[k], Receive(n)) && TookNil(Next(states[k], Receive(n)), n) <==> NilLies(states[k], n)
    ensures IdOf(n) !in states[k].sh.pending ==> states[k].loop.Closed? || states[k].loop.Done?
  {
    RunInv(states, steps, k);
    assert Good(states[k], n);
  }

  lemma NilStep(s: State, step: Step, n: nat)
    requires Inv(s) && Enabled(s, step)
    ensures TookNil(Next(s, step), n) <==> TookNil(s, n) || ReadsNil(s, step, n)
  {
    assert Good(s, n);
  }

  /**
   * In every run a Call has nil for its result, without an error, exactly if it once read its channel after the loop
   * had dropped it empty, or when a bare answer lay first in it.
   */
  lemma {:induction false} NilResultExactly(states: seq<State>, steps: seq<Step>, k: nat, n: nat)
    requires IsRun(states, steps) && k < |states|
    ensures TookNil(states[k], n) <==> exists j :: 0 <= j < k && ReadsNil(states[j], steps[j], n)
  {
    if k > 0 {
      NilResultExactly(states, steps, k - 1, n);
      RunInv(states, steps, k - 1);
      NilStep(states[k - 1], steps[k - 1], n);
      hide Inv, Next, Enabled, ReadsNil, TookNil;
    }
  }

  /** So nil means that the read loop has ended, or that a bare answer bearing the call's own id was received. */
  lemma NilMeansExitOrBareAnswer(states: seq<State>, steps: seq<Step>, k: nat, n: nat)
    requires IsRun(states, steps) && k < |states| && TookNil(states[k], n)
    ensures var out := states[k].calls[n].out;
            if out.Got? then IsBare(out.resp) && out.resp.id == IdOf(n)
            else (states[k].loop.Closed? || states[k].loop.Done?) && IdOf(n) !in states[k].sh.pending
  {
    RunInv(states, steps, k);
    assert Good(states[k], n);
  }
}
