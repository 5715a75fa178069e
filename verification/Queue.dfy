/**
 The two-lane send queue of internal/queue/queue.go as a state machine. Pushers, the
 closer and the worker interleave freely; every flag check, channel operand, send and
 receive that Go performs separately is a step of its own.
 */
module Queue {

  type Task = nat

  /**
   The worker: at the outer select, between its default branch and the inner select,
   blocked in the inner select (with a live or a nil tasks channel), running, or gone.
   */
  datatype Worker = Poll | Entering | Inner(live: bool) | Running(task: Task) | Exited

  /** A Push past its flag check: about to evaluate its channel, or waiting to send on it. */
  datatype Push = Checked(jump: bool, task: Task) | Sending(jump: bool, task: Task, live: bool)

  const JUMPS: nat := 5

  datatype State = State(
    capacity: nat,
    jumps: seq<Task>, tasks: seq<Task>,
    closed: bool, jumpsClosed: bool, tasksNil: bool,
    worker: Worker, pushes: map<nat, Push>,
    acceptedJumps: seq<Task>, acceptedTasks: seq<Task>,
    startedJumps: seq<Task>, startedTasks: seq<Task>)

  datatype Action =
    | PushCheck(id: nat, jump: bool, task: Task)
    | PushEnter(id: nat)
    | PushSend(id: nat)
    | PushCancel(id: nat)
    | CloseFlag
    | CloseJumps
    | CloseTasks
    | WorkerPoll
    | WorkerEnter
    | WorkerJump
    | WorkerTask
    | WorkerFinish

  ghost predicate Init(s: State) {
    s.capacity >= 1 && s == State(s.capacity, [], [], false, false, false, Poll, map[], [], [], [], [])
  }

  /** The worker takes the first jump, or exits when the lane is closed and drained. */
  function TakeJump(s: State): State
    requires s.jumps != [] || s.jumpsClosed
  {
    if s.jumps != [] then
      s.(jumps := s.jumps[1..], worker := Running(s.jumps[0]), startedJumps := s.startedJumps + [s.jumps[0]])
    else s.(worker := Exited)
  }

  /** The worker takes the first ordinary task. */
  function TakeTask(s: State): State
    requires s.tasks != []
  {
    s.(tasks := s.tasks[1..], worker := Running(s.tasks[0]), startedTasks := s.startedTasks + [s.tasks[0]])
  }

  /** The send can go ahead: the lane has room, or it is closed and the send panics. */
  predicate HasRoom(s: State, jump: bool) {
    if jump then s.jumpsClosed || |s.jumps| < JUMPS else |s.tasks| < s.capacity
  }

  /** The lanes after the send; a send on the closed jump channel is not accepted. */
  function Sent(s: State, p: Push): State {
    if !p.jump then s.(tasks := s.tasks + [p.task], acceptedTasks := s.acceptedTasks + [p.task])
    else if s.jumpsClosed then s
    else s.(jumps := s.jumps + [p.task], acceptedJumps := s.acceptedJumps + [p.task])
  }

  ghost predicate Next(s: State, a: Action, s': State) {
    match a
    case PushCheck(id, jump, task) =>
      id !in s.pushes && s' == if s.closed then s else s.(pushes := s.pushes[id := Checked(jump, task)])
    case PushEnter(id) =>
      && id in s.pushes && s.pushes[id].Checked?
      && var p := s.pushes[id];
         s' == s.(pushes := s.pushes[id := Sending(p.jump, p.task, p.jump || !s.tasksNil)])
    case PushSend(id) =>
      && id in s.pushes && s.pushes[id].Sending? && s.pushes[id].live
      && HasRoom(s, s.pushes[id].jump)
      && s' == Sent(s.(pushes := s.pushes - {id}), s.pushes[id])
    case PushCancel(id) =>
      id in s.pushes && s.pushes[id].Sending? && s' == s.(pushes := s.pushes - {id})
    case CloseFlag => !s.closed && s' == s.(closed := true)
    case CloseJumps => s.closed && !s.jumpsClosed && s' == s.(jumpsClosed := true)
    case CloseTasks => s.jumpsClosed && !s.tasksNil && s' == s.(tasksNil := true)
    case WorkerPoll =>
      s.worker.Poll? && s' == if s.jumps != [] || s.jumpsClosed then TakeJump(s) else s.(worker := Entering)
    case WorkerEnter => s.worker.Entering? && s' == s.(worker := Inner(!s.tasksNil))
    case WorkerJump => s.worker.Inner? && (s.jumps != [] || s.jumpsClosed) && s' == TakeJump(s)
    case WorkerTask =>
      s.worker.Inner? && s.worker.live && s.tasks != [] && s' == TakeTask(s)
    case WorkerFinish => s.worker.Running? && s' == s.(worker := Poll)
  }

  ghost predicate Inv(s: State) {
    && s.acceptedJumps == s.startedJumps + s.jumps
    && s.acceptedTasks == s.startedTasks + s.tasks
    && |s.jumps| <= JUMPS && |s.tasks| <= s.capacity
    && (s.tasksNil ==> s.jumpsClosed) && (s.jumpsClosed ==> s.closed)
    && (s.worker.Exited? ==> s.jumpsClosed && s.jumps == [])
    && (s.worker == Inner(false) ==> s.tasksNil)
  }

  /** Later states of a run extend earlier ones: nothing accepted or started is taken back. */
  ghost predicate Extends(s: State, s': State) {
    && s.acceptedJumps <= s'.acceptedJumps && s.acceptedTasks <= s'.acceptedTasks
    && s.startedJumps <= s'.startedJumps && s.startedTasks <= s'.startedTasks
    && (s.jumpsClosed ==> s'.jumpsClosed && s'.acceptedJumps == s.acceptedJumps)
  }

  lemma TakeJumpInv(s: State)
    requires Inv(s) && (s.jumps != [] || s.jumpsClosed)
    ensures Inv(TakeJump(s)) && Extends(s, TakeJump(s))
  {
    if s.jumps != [] {
      assert s.startedJumps + s.jumps == s.startedJumps + [s.jumps[0]] + s.jumps[1..];
    }
  }

  lemma TakeTaskInv(s: State)
    requires Inv(s) && s.tasks != []
    ensures Inv(TakeTask(s)) && Extends(s, TakeTask(s))
  {
    assert s.startedTasks + s.tasks == s.startedTasks + [s.tasks[0]] + s.tasks[1..];
  }

  lemma SentInv(s: State, p: Push)
    requires Inv(s) && HasRoom(s, p.jump)
    ensures Inv(Sent(s, p)) && Extends(s, Sent(s, p))
  {
    assert s.startedJumps + s.jumps + [p.task] == s.startedJumps + (s.jumps + [p.task]);
    assert s.startedTasks + s.tasks + [p.task] == s.startedTasks + (s.tasks + [p.task]);
  }

  /** A step that leaves lanes, flags and worker alone keeps the invariant. */
  lemma PushesInv(s: State, pushes: map<nat, Push>)
    requires Inv(s)
    ensures Inv(s.(pushes := pushes)) && Extends(s, s.(pushes := pushes))
  {}

  /** A closing step, taken in order. */
  lemma ClosingInv(s: State, a: Action, s': State)
    requires Inv(s) && Next(s, a, s') && (a.CloseFlag? || a.CloseJumps? || a.CloseTasks?)
    ensures Inv(s') && Extends(s, s')
  {}

  /** A move of the worker that takes nothing. */
  lemma MovesInv(s: State, w: Worker)
    requires Inv(s) && !w.Exited? && (w == Inner(false) ==> s.tasksNil)
    ensures Inv(s.(worker := w)) && Extends(s, s.(worker := w))
  {}

  /** Every step keeps the invariant and takes back nothing accepted or started. */
  lemma NextInv(s: State, a: Action, s': State)
    requires Inv(s) && Next(s, a, s')
    ensures Inv(s') && Extends(s, s')
  {
    hide Inv, Extends, TakeJump, TakeTask, Sent;
    match a
    case PushCheck(_, _, _) => PushesInv(s, s'.pushes);
    case PushEnter(_) => PushesInv(s, s'.pushes);
    case PushCancel(_) => PushesInv(s, s'.pushes);
    case PushSend(id) =>
      var s1 := s.(pushes := s.pushes - {id});
      PushesInv(s, s1.pushes);
      SentInv(s1, s.pushes[id]);
      ExtendsOn(s, s1, s');
    case CloseFlag => ClosingInv(s, a, s');
    case CloseJumps => ClosingInv(s, a, s');
    case CloseTasks => ClosingInv(s, a, s');
    case WorkerPoll =>
      if s.jumps != [] || s.jumpsClosed { TakeJumpInv(s); } else { MovesInv(s, Entering); }
    case WorkerEnter => MovesInv(s, Inner(!s.tasksNil));
    case WorkerJump => TakeJumpInv(s);
    case WorkerTask => TakeTaskInv(s);
    case WorkerFinish => MovesInv(s, Poll);
  }

  lemma ExtendsOn(s: State, mid: State, s': State)
    requires Extends(s, mid) && Extends(mid, s')
    ensures Extends(s, s')
  {}

  ghost predicate Run(states: seq<State>, actions: seq<Action>) {
    && |states| == |actions| + 1
    && Init(states[0])
    && forall i :: 0 <= i < |actions| ==> Next(states[i], actions[i], states[i + 1])
  }

  lemma {:induction false} RunsKeepOrder(states: seq<State>, actions: seq<Action>, i: nat, j: nat)
    requires Run(states, actions) && i <= j < |states|
    ensures Inv(states[j]) && Extends(states[i], states[j])
    decreases j
  {
    hide Next, Inv;
    if j == 0 {
      InitInv(states[0]);
    } else {
      RunsKeepOrder(states, actions, if i < j then i else j - 1, j - 1);
      NextInv(states[j - 1], actions[j - 1], states[j]);
    }
  }

  lemma InitInv(s: State)
    requires Init(s)
    ensures Inv(s)
  {}

  /** In every run each lane starts its accepted tasks in order, skipping none, and its buffer stays within capacity. */
  lemma LanesAreFifo(states: seq<State>, actions: seq<Action>, j: nat)
    requires Run(states, actions) && j < |states|
    ensures states[j].startedJumps <= states[j].acceptedJumps && states[j].startedTasks <= states[j].acceptedTasks
    ensures |states[j].jumps| <= 5 && |states[j].tasks| <= states[j].capacity
  {
    RunsKeepOrder(states, actions, j, j);
  }

  // ------------------------------------------------------------- overtaking

  /** The jump lane has something for the worker: a task, or the news that it is closed. */
  ghost predicate Ready(s: State) { s.jumps != [] || s.jumpsClosed }

  /** Whether the worker is where it may still take an ordinary task without polling again. */
  function Committed(s: State): nat { if s.worker.Entering? || s.worker.Inner? then 1 else 0 }

  /** While the jump lane is ready, no step raises the ordinary tasks started or committed to. */
  lemma ReadyStep(s: State, a: Action, s': State)
    requires Next(s, a, s') && Ready(s)
    ensures |s'.startedTasks| + Committed(s') <= |s.startedTasks| + Committed(s)
  {}

  lemma {:induction false} ReadyBound(states: seq<State>, actions: seq<Action>, i: nat, j: nat)
    requires Run(states, actions) && i <= j < |states|
    requires forall m :: i <= m < j ==> Ready(states[m])
    ensures |states[j].startedTasks| + Committed(states[j]) <= |states[i].startedTasks| + Committed(states[i])
    decreases j
  {
    hide Next, Ready, Committed;
    if i == j {
    } else {
      ReadyBound(states, actions, i, j - 1);
      ReadyStep(states[j - 1], actions[j - 1], states[j]);
    }
  }

  /**
   Bounded overtaking: take the jump accepted as number `a` (counting from 0), at some
   moment i of any run after its acceptance. As long as it has not been started, at
   most one ordinary task is started.
   */
  lemma BoundedOvertaking(states: seq<State>, actions: seq<Action>, i: nat, j: nat, a: nat)
    requires Run(states, actions) && i <= j < |states|
    requires a < |states[i].acceptedJumps| && |states[j].startedJumps| <= a
    ensures |states[j].startedTasks| <= |states[i].startedTasks| + 1
  {
    forall m | i <= m < j ensures Ready(states[m]) {
      RunsKeepOrder(states, actions, i, m);
      RunsKeepOrder(states, actions, m, j);
      hide Run, Next;
      assert |states[m].startedJumps| <= |states[j].startedJumps| <= a < |states[m].acceptedJumps|;
    }
    hide Run, Next;
    ReadyBound(states, actions, i, j);
  }

  /** After the jump channel is closed at most one more ordinary task is started, however long the run goes on. */
  lemma BoundedShutdown(states: seq<State>, actions: seq<Action>, i: nat, j: nat)
    requires Run(states, actions) && i <= j < |states| && states[i].jumpsClosed
    ensures |states[j].startedTasks| <= |states[i].startedTasks| + 1
  {
    forall m | i <= m < j ensures Ready(states[m]) {
      RunsKeepOrder(states, actions, i, m);
    }
    hide Run, Next;
    ReadyBound(states, actions, i, j);
  }

  /** When the worker has exited every jump accepted so far has run, and none will be accepted any more. */
  lemma ExitDrainsJumps(states: seq<State>, actions: seq<Action>, i: nat, j: nat)
    requires Run(states, actions) && i <= j < |states| && states[i].worker.Exited?
    ensures states[i].startedJumps == states[i].acceptedJumps == states[j].acceptedJumps
  {
    RunsKeepOrder(states, actions, i, i);
    RunsKeepOrder(states, actions, i, j);
  }

  // --------------------------------------- what the actions alone say was accepted

  /** The position of the latest flag check of the push, or -1. */
  function LatestCheck(past: seq<Action>, id: nat): int {
    if past == [] then -1
    else if past[|past| - 1].PushCheck? && past[|past| - 1].id == id then |past| - 1
    else LatestCheck(past[..|past| - 1], id)
  }

  /** The position at which the push latest evaluated its channel, or -1. */
  function LatestEnter(past: seq<Action>, id: nat): int {
    if past == [] then -1
    else if past[|past| - 1] == PushEnter(id) then |past| - 1
    else LatestEnter(past[..|past| - 1], id)
  }

  /** The push has, by its latest check, offered this task to this lane, before the queue was closed. */
  ghost predicate Offered(past: seq<Action>, id: nat, jump: bool, task: Task) {
    var c := LatestCheck(past, id);
    0 <= c < |past| && past[c] == PushCheck(id, jump, task) && CloseFlag !in past[..c]
  }

  /** The push has since evaluated its channel, for an ordinary task before that was discarded. */
  ghost predicate Entered(past: seq<Action>, id: nat, jump: bool) {
    var e := LatestEnter(past, id);
    LatestCheck(past, id) < e && 0 <= e < |past| && (jump || CloseTasks !in past[..e])
  }

  /** What an action adds to a lane: the task of a send, on the jump lane only while that is open. */
  ghost function AcceptedBy(past: seq<Action>, a: Action, jump: bool): seq<Task> {
    if a.PushSend? && Entered(past, a.id, jump) && !(jump && CloseJumps in past)
       && exists task :: Offered(past, a.id, jump, task)
    then var task :| Offered(past, a.id, jump, task); [task]
    else []
  }

  /** The tasks accepted on a lane, in the order of their sends. */
  ghost function Accepted(actions: seq<Action>, jump: bool): seq<Task> {
    if actions == [] then []
    else
      var past := actions[..|actions| - 1];
      Accepted(past, jump) + AcceptedBy(past, actions[|actions| - 1], jump)
  }

  /** How many ordinary tasks the actions start. */
  function TaskStarts(actions: seq<Action>): nat {
    if actions == [] then 0
    else TaskStarts(actions[..|actions| - 1]) + (if actions[|actions| - 1].WorkerTask? then 1 else 0)
  }

  /** How many jumps the actions start: receives from the lane while it has tasks. */
  ghost function JumpStarts(actions: seq<Action>): nat {
    if actions == [] then 0
    else
      var past, a := actions[..|actions| - 1], actions[|actions| - 1];
      var before := JumpStarts(past);
      if (a.WorkerPoll? || a.WorkerJump?) && before < |Accepted(past, true)| then before + 1 else before
  }

  /** A push in the state is the one the actions tell of. */
  ghost predicate Traced(p: Push, past: seq<Action>, id: nat) {
    && Offered(past, id, p.jump, p.task)
    && (p.Sending? ==> (Entered(past, id, p.jump) <==> p.live))
    && (p.Sending? && p.jump ==> p.live)
  }

  ghost predicate FlagsTraced(s: State, past: seq<Action>) {
    && (s.closed <==> CloseFlag in past)
    && (s.jumpsClosed <==> CloseJumps in past)
    && (s.tasksNil <==> CloseTasks in past)
  }

  lemma LatestSnoc(past: seq<Action>, a: Action, id: nat)
    ensures LatestCheck(past + [a], id) == if a.PushCheck? && a.id == id then |past| else LatestCheck(past, id)
    ensures LatestEnter(past + [a], id) == if a == PushEnter(id) then |past| else LatestEnter(past, id)
    ensures LatestCheck(past, id) < |past| && LatestEnter(past, id) < |past|
  {
    assert (past + [a])[..|past|] == past;
    LatestBelow(past, id);
  }

  lemma {:induction false} LatestBelow(past: seq<Action>, id: nat)
    ensures -1 <= LatestCheck(past, id) < |past| && -1 <= LatestEnter(past, id) < |past|
  {
    if past == [] {
    } else {
      LatestBelow(past[..|past| - 1], id);
    }
  }

  lemma Prefix(past: seq<Action>, a: Action, i: int)
    requires 0 <= i <= |past|
    ensures (past + [a])[..i] == past[..i]
  {}

  /** What the actions say of a push does not change by an action of another kind or of another push. */
  lemma TracedStays(p: Push, past: seq<Action>, a: Action, id: nat)
    requires Traced(p, past, id)
    requires !(a.PushCheck? && a.id == id) && a != PushEnter(id)
    ensures Traced(p, past + [a], id)
  {
    LatestSnoc(past, a, id);
    hide LatestCheck, LatestEnter;
    Prefix(past, a, LatestCheck(past, id));
    if LatestEnter(past, id) >= 0 {
      Prefix(past, a, LatestEnter(past, id));
    }
  }

  lemma TracedCheck(past: seq<Action>, id: nat, jump: bool, task: Task)
    requires CloseFlag !in past
    ensures Traced(Checked(jump, task), past + [PushCheck(id, jump, task)], id)
  {
    var a := PushCheck(id, jump, task);
    LatestSnoc(past, a, id);
    Prefix(past, a, |past|);
  }

  lemma TracedEnter(p: Push, past: seq<Action>, id: nat)
    requires Traced(p, past, id) && p.Checked?
    ensures Traced(Sending(p.jump, p.task, p.jump || CloseTasks !in past), past + [PushEnter(id)], id)
  {
    var a := PushEnter(id);
    LatestSnoc(past, a, id);
    hide LatestCheck, LatestEnter;
    Prefix(past, a, |past|);
    Prefix(past, a, LatestCheck(past, id));
  }

  lemma FlagsNext(s: State, a: Action, s': State, past: seq<Action>)
    requires FlagsTraced(s, past) && Next(s, a, s')
    ensures FlagsTraced(s', past + [a])
  {}

  lemma PushesNext(s: State, a: Action, s': State, past: seq<Action>, id: nat)
    requires FlagsTraced(s, past) && Next(s, a, s')
    requires id in s.pushes ==> Traced(s.pushes[id], past, id)
    ensures id in s'.pushes ==> Traced(s'.pushes[id], past + [a], id)
  {
    hide Traced, LatestCheck, LatestEnter;
    if a.PushCheck? && a.id == id {
      if !s.closed { TracedCheck(past, id, a.jump, a.task); }
    } else if a == PushEnter(id) {
      TracedEnter(s.pushes[id], past, id);
    } else if id in s'.pushes {
      TracedStays(s.pushes[id], past, a, id);
    }
  }

  /** One step accepts exactly what the actions say it does. */
  lemma AcceptedNext(s: State, a: Action, s': State, past: seq<Action>)
    requires FlagsTraced(s, past) && Next(s, a, s')
    requires a.PushSend? && a.id in s.pushes ==> Traced(s.pushes[a.id], past, a.id)
    ensures s'.acceptedTasks == s.acceptedTasks + AcceptedBy(past, a, false)
    ensures s'.acceptedJumps == s.acceptedJumps + AcceptedBy(past, a, true)
  {
    hide Entered, LatestCheck, LatestEnter;
    if a.PushSend? {
      var p := s.pushes[a.id];
      assert Offered(past, a.id, p.jump, p.task);
      assert forall jump, task :: Offered(past, a.id, jump, task) ==> jump == p.jump && task == p.task;
    }
  }

  lemma StartsNext(s: State, a: Action, s': State, past: seq<Action>)
    requires Inv(s) && Next(s, a, s')
    requires |s.startedTasks| == TaskStarts(past) && |s.startedJumps| == JumpStarts(past)
    requires s.acceptedJumps == Accepted(past, true)
    ensures |s'.startedTasks| == TaskStarts(past + [a]) && |s'.startedJumps| == JumpStarts(past + [a])
  {
    hide Accepted;
    assert (past + [a])[..|past|] == past;
    assert |s.acceptedJumps| == |s.startedJumps| + |s.jumps|;
  }

  lemma AcceptedSnoc(past: seq<Action>, a: Action, jump: bool)
    ensures Accepted(past + [a], jump) == Accepted(past, jump) + AcceptedBy(past, a, jump)
  {
    hide AcceptedBy;
    assert (past + [a])[..|past|] == past;
  }

  ghost predicate IsTraced(s: State, past: seq<Action>) {
    && FlagsTraced(s, past)
    && (forall id :: id in s.pushes ==> Traced(s.pushes[id], past, id))
    && s.acceptedTasks == Accepted(past, false) && s.acceptedJumps == Accepted(past, true)
    && |s.startedTasks| == TaskStarts(past) && |s.startedJumps| == JumpStarts(past)
  }

  lemma TracedNext(s: State, a: Action, s': State, past: seq<Action>)
    requires Inv(s) && IsTraced(s, past) && Next(s, a, s')
    ensures IsTraced(s', past + [a])
  {
    FlagsNext(s, a, s', past);
    AcceptedNext(s, a, s', past);
    StartsNext(s, a, s', past);
    forall id | id in s'.pushes ensures Traced(s'.pushes[id], past + [a], id) {
      PushesNext(s, a, s', past, id);
    }
    hide Next, Inv, FlagsTraced, Traced, TaskStarts, JumpStarts;
    AcceptedSnoc(past, a, false);
    AcceptedSnoc(past, a, true);
  }

  lemma InitTraced(s: State, past: seq<Action>)
    requires Init(s) && past == []
    ensures IsTraced(s, past)
  {}

  lemma {:induction false} RunsAreTraced(states: seq<State>, actions: seq<Action>, j: nat)
    requires Run(states, actions) && j < |states|
    ensures IsTraced(states[j], actions[..j])
  {
    hide IsTraced, Next, Inv, Extends;
    if j == 0 {
      InitTraced(states[0], actions[..0]);
    } else {
      RunsAreTraced(states, actions, j - 1);
      RunsKeepOrder(states, actions, j - 1, j - 1);
      TracedNext(states[j - 1], actions[j - 1], states[j], actions[..j - 1]);
      assert actions[..j - 1] + [actions[j - 1]] == actions[..j];
    }
  }

  /**
   The lanes follow the actions: in every run each lane has accepted exactly the tasks
   of its sends, in their order, leaving out what was sent after the close, and it has
   started as many of them, from the front, as the worker has received.
   */
  lemma LanesAreHistory(states: seq<State>, actions: seq<Action>, j: nat)
    requires Run(states, actions) && j < |states|
    ensures states[j].acceptedTasks == Accepted(actions[..j], false)
    ensures states[j].acceptedJumps == Accepted(actions[..j], true)
    ensures TaskStarts(actions[..j]) <= |states[j].acceptedTasks|
    ensures JumpStarts(actions[..j]) <= |states[j].acceptedJumps|
    ensures states[j].startedTasks == states[j].acceptedTasks[..TaskStarts(actions[..j])]
    ensures states[j].startedJumps == states[j].acceptedJumps[..JumpStarts(actions[..j])]
    ensures states[j].tasks == states[j].acceptedTasks[TaskStarts(actions[..j])..]
    ensures states[j].jumps == states[j].acceptedJumps[JumpStarts(actions[..j])..]
  {
    RunsAreTraced(states, actions, j);
    RunsKeepOrder(states, actions, j, j);
    hide Run, FlagsTraced, Traced, Accepted, TaskStarts, JumpStarts;
  }

  // ------------------------------------------------------------------ progress

  /** The actions lead from one state to the other. */
  ghost predicate Leads(s: State, actions: seq<Action>, s': State)
    decreases |actions|
  {
    if actions == [] then s' == s
    else exists mid :: Next(s, actions[0], mid) && Leads(mid, actions[1..], s')
  }

  lemma LeadsOn(s: State, a: Action, mid: State, rest: seq<Action>, s': State)
    requires Next(s, a, mid) && Leads(mid, rest, s')
    ensures Leads(s, [a] + rest, s')
  {
    hide Next;
    assert ([a] + rest)[1..] == rest;
  }

  predicate ByWorker(a: Action) {
    a.WorkerPoll? || a.WorkerEnter? || a.WorkerJump? || a.WorkerTask? || a.WorkerFinish?
  }

  /** The worker is stuck exactly when it has exited or waits in the inner select with nothing to receive. */
  lemma WorkerWaitsIff(s: State)
    ensures (forall a, s' :: ByWorker(a) ==> !Next(s, a, s'))
       <==> s.worker.Exited? || (s.worker.Inner? && !Ready(s) && (s.tasks == [] || !s.worker.live))
  {
    match s.worker
    case Poll =>
      assert Next(s, WorkerPoll, if s.jumps != [] || s.jumpsClosed then TakeJump(s) else s.(worker := Entering));
    case Entering => assert Next(s, WorkerEnter, s.(worker := Inner(!s.tasksNil)));
    case Inner(live) =>
      if Ready(s) {
        assert Next(s, WorkerJump, TakeJump(s));
      } else if live && s.tasks != [] {
        assert Next(s, WorkerTask, TakeTask(s));
      }
    case Running(_) => assert Next(s, WorkerFinish, s.(worker := Poll));
    case Exited =>
  }

  /** In the inner select with an empty open jump lane, the worker's only step starts the first ordinary task. */
  lemma OrdinaryTaskStarts(s: State, a: Action, s': State)
    requires s.worker == Inner(true) && s.jumps == [] && !s.jumpsClosed && s.tasks != []
    requires ByWorker(a)
    ensures Next(s, a, s') <==>
              && a == WorkerTask
              && s' == s.(tasks := s.tasks[1..], worker := Running(s.tasks[0]),
                          startedTasks := s.startedTasks + [s.tasks[0]])
  {}

  /** At the outer select a waiting jump is always the next to start. */
  lemma JumpStartsFirst(s: State, a: Action, s': State)
    requires s.worker == Poll && s.jumps != [] && ByWorker(a)
    ensures Next(s, a, s') <==>
              && a == WorkerPoll
              && s' == s.(jumps := s.jumps[1..], worker := Running(s.jumps[0]),
                          startedJumps := s.startedJumps + [s.jumps[0]])
  {}

  /**
   While the queue is open no buffered task is stuck: from every reachable state the
   worker alone can go on to start the first jump, or if there is none the first
   ordinary task.
   */
  lemma WorkerServes(s: State) returns (actions: seq<Action>, s': State)
    requires Inv(s) && !s.jumpsClosed && (s.jumps != [] || s.tasks != [])
    ensures Leads(s, actions, s') && forall a :: a in actions ==> ByWorker(a)
    ensures s.jumps != [] ==> s'.startedJumps == s.startedJumps + [s.jumps[0]] && s'.startedTasks == s.startedTasks
    ensures s.jumps == [] ==> s'.startedTasks == s.startedTasks + [s.tasks[0]] && s'.startedJumps == s.startedJumps
  {
    match s.worker
    case Running(_) =>
      var mid := s.(worker := Poll);
      var rest;
      rest, s' := ServesFrom(mid);
      actions := [WorkerFinish] + rest;
      LeadsOn(s, WorkerFinish, mid, rest, s');
    case _ => actions, s' := ServesFrom(s);
  }

  lemma ServesFrom(s: State) returns (actions: seq<Action>, s': State)
    requires Inv(s) && !s.jumpsClosed && (s.jumps != [] || s.tasks != []) && !s.worker.Running?
    ensures Leads(s, actions, s') && forall a :: a in actions ==> ByWorker(a)
    ensures s.jumps != [] ==> s'.startedJumps == s.startedJumps + [s.jumps[0]] && s'.startedTasks == s.startedTasks
    ensures s.jumps == [] ==> s'.startedTasks == s.startedTasks + [s.tasks[0]] && s'.startedJumps == s.startedJumps
    decreases if s.worker.Poll? then 2 else if s.worker.Entering? then 1 else 0
  {
    match s.worker
    case Poll =>
      if s.jumps != [] {
        actions, s' := [WorkerPoll], TakeJump(s);
        LeadsOn(s, WorkerPoll, s', [], s');
      } else {
        var mid := s.(worker := Entering);
        var rest;
        rest, s' := ServesFrom(mid);
        actions := [WorkerPoll] + rest;
        LeadsOn(s, WorkerPoll, mid, rest, s');
      }
    case Entering =>
      var mid := s.(worker := Inner(!s.tasksNil));
      var rest;
      rest, s' := ServesFrom(mid);
      actions := [WorkerEnter] + rest;
      LeadsOn(s, WorkerEnter, mid, rest, s');
    case Inner(live) =>
      if s.jumps != [] {
        actions, s' := [WorkerJump], TakeJump(s);
        LeadsOn(s, WorkerJump, s', [], s');
      } else {
        actions, s' := [WorkerTask], TakeTask(s);
        LeadsOn(s, WorkerTask, s', [], s');
      }
  }

  /** After the close the worker alone can go on to start all jumps left and exit. */
  lemma WorkerDrains(s: State) returns (actions: seq<Action>, s': State)
    requires Inv(s) && s.jumpsClosed
    ensures Leads(s, actions, s') && forall a :: a in actions ==> ByWorker(a)
    ensures s'.worker.Exited? && s'.startedJumps == s.acceptedJumps && s'.startedTasks == s.startedTasks
    decreases |s.jumps|, if s.worker.Exited? then 0 else if s.worker.Poll? || s.worker.Inner? then 1 else 2
  {
    if s.worker.Exited? {
      actions, s' := [], s;
    } else {
      var a, mid;
      match s.worker {
        case Running(_) => a, mid := WorkerFinish, s.(worker := Poll);
        case Entering => a, mid := WorkerEnter, s.(worker := Inner(!s.tasksNil));
        case Poll => a, mid := WorkerPoll, TakeJump(s);
        case Inner(_) => a, mid := WorkerJump, TakeJump(s);
      }
      NextInv(s, a, mid);
      var rest;
      rest, s' := WorkerDrains(mid);
      actions := [a] + rest;
      LeadsOn(s, a, mid, rest, s');
    }
  }

  /** On an open queue with room in its lane, a push goes through: check, channel and send, and the task is accepted. */
  lemma PushProceeds(s: State, id: nat, jump: bool, task: Task) returns (s': State)
    requires Inv(s) && !s.closed && id !in s.pushes
    requires if jump then |s.jumps| < 5 else |s.tasks| < s.capacity
    ensures Leads(s, [PushCheck(id, jump, task), PushEnter(id), PushSend(id)], s')
    ensures jump ==> s' == s.(jumps := s.jumps + [task], acceptedJumps := s.acceptedJumps + [task])
    ensures !jump ==> s' == s.(tasks := s.tasks + [task], acceptedTasks := s.acceptedTasks + [task])
  {
    var s1 := s.(pushes := s.pushes[id := Checked(jump, task)]);
    var s2 := s.(pushes := s.pushes[id := Sending(jump, task, true)]);
    assert s2.pushes - {id} == s.pushes;
    s' := Sent(s, Sending(jump, task, true));
    assert Next(s, PushCheck(id, jump, task), s1);
    assert s2 == s1.(pushes := s1.pushes[id := Sending(jump, task, true)]);
    assert Next(s1, PushEnter(id), s2);
    assert s2.(pushes := s2.pushes - {id}) == s;
    assert Next(s2, PushSend(id), s');
    hide Next;
    LeadsOn(s2, PushSend(id), s', [], s');
    LeadsOn(s1, PushEnter(id), s2, [PushSend(id)], s');
    LeadsOn(s, PushCheck(id, jump, task), s1, [PushEnter(id)] + [PushSend(id)], s');
    assert [PushCheck(id, jump, task)] + ([PushEnter(id)] + [PushSend(id)])
        == [PushCheck(id, jump, task), PushEnter(id), PushSend(id)];
  }

  /** An open queue can be closed: the flag, the jump channel and the tasks channel, and nothing else changes. */
  lemma CloseProceeds(s: State)
    requires Inv(s) && !s.closed
    ensures Leads(s, [CloseFlag, CloseJumps, CloseTasks],
                  s.(closed := true, jumpsClosed := true, tasksNil := true))
  {
    var s1, s2 := s.(closed := true), s.(closed := true, jumpsClosed := true);
    var s' := s.(closed := true, jumpsClosed := true, tasksNil := true);
    assert Next(s, CloseFlag, s1) && Next(s1, CloseJumps, s2) && Next(s2, CloseTasks, s');
    hide Next;
    LeadsOn(s2, CloseTasks, s', [], s');
    LeadsOn(s1, CloseJumps, s2, [CloseTasks], s');
    LeadsOn(s, CloseFlag, s1, [CloseJumps] + [CloseTasks], s');
    assert [CloseFlag] + ([CloseJumps] + [CloseTasks]) == [CloseFlag, CloseJumps, CloseTasks];
  }
}
