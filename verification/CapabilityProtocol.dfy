/** The hand-off protocol of rts/Capability.c as a state machine: one step for each critical section. */
module CapabilityProtocol {
  import opened Options
  import opened Sequences

  type TaskId = nat
  type CapNo = nat

  const MAX_SPARE_WORKERS := 6

  // ----- One capability -----

  /** What cap->lock protects: the owner, the queue of returning tasks, and the stack of spare workers. */
  datatype Cap<T> = Cap(running: Option<T>, returning: seq<T>, spare: seq<T>)

  /** What releaseCapability_ finds around it: a pending sync that claims the capability, the task bound to the
      thread at the head of the run queue, whether a new worker may be started, whether there is work to do. */
  datatype Env<T> = Env(sync: bool, bound: Option<T>, mayStart: bool, work: bool)

  datatype Handoff<T> = LeftFree | Given(task: T) | NewWorker

  /** Whom releaseCapability_ picks. */
  function Choose<T>(c: Cap<T>, env: Env<T>): Handoff<T> {
    if c.returning != [] then Given(c.returning[0])
    else if env.sync then LeftFree
    else if env.bound.Some? then Given(env.bound.value)
    else if c.spare == [] && env.mayStart then NewWorker
    else if env.work && c.spare != [] then Given(c.spare[0])
    else LeftFree
  }

  // ----- Tasks -----

  /** isWorker; isBoundTask; neither. It changes only while the task is not waiting. */
  datatype Kind = Worker | Bound | Plain

  /** Where a task is in the code of rts/Capability.c. */
  datatype Pc =
    | Outside                  // anywhere else
    | Wanting(cap: CapNo)      // in waitForCapability, about to take the lock
    | ReturnSleep              // in waitForReturnCapability, about to wait on its condition
    | ReturnWoken(cap: CapNo)  // has consumed a wakeup there, about to take the lock
    | Yielding(cap: CapNo)     // in yieldCapability, about to take the lock
    | WorkerSleep              // in waitForWorkerCapability, about to wait
    | WorkerWoken(cap: CapNo)  // has consumed a wakeup there, about to take the lock
    | Stopped                  // an excess worker that has exited

  datatype Task = Task(pc: Pc, wakeup: bool, cap: CapNo, kind: Kind, owned: set<CapNo>)

  datatype State = State(caps: map<CapNo, Cap<TaskId>>, tasks: map<TaskId, Task>)

  // ----- Updates -----

  function SetCap(s: State, c: CapNo, v: Cap<TaskId>): State {
    s.(caps := s.caps[c := v])
  }

  function SetTask(s: State, t: TaskId, v: Task): State {
    s.(tasks := s.tasks[t := v])
  }

  /** giveCapabilityToTask: only the wakeup flag changes hands. */
  function Give(s: State, t: TaskId): State
    requires t in s.tasks
  {
    SetTask(s, t, s.tasks[t].(wakeup := true))
  }

  function Free(s: State, t: TaskId, c: CapNo): State
    requires t in s.tasks && c in s.caps
  {
    SetTask(SetCap(s, c, s.caps[c].(running := None)), t, s.tasks[t].(owned := s.tasks[t].owned - {c}))
  }

  /** startWorkerTask: the new worker gets the capability directly. */
  function Start(s: State, c: CapNo, w: TaskId): State
    requires c in s.caps
  {
    SetTask(SetCap(s, c, s.caps[c].(running := Some(w))), w, Task(Outside, false, c, Worker, {c}))
  }

  function Dispatch(s: State, c: CapNo, h: Handoff<TaskId>, newTask: TaskId): State
    requires c in s.caps
  {
    match h
    case LeftFree => s
    case Given(u) => if u in s.tasks then Give(s, u) else s
    case NewWorker => Start(s, c, newTask)
  }

  /** releaseCapability_, called by the owner `t`; `newTask` names the worker that may be started. */
  function Release(s: State, t: TaskId, c: CapNo, env: Env<TaskId>, newTask: TaskId): State
    requires t in s.tasks && c in s.caps
  {
    Dispatch(Free(s, t, c), c, Choose(s.caps[c], env), newTask)
  }

  function Grab(s: State, t: TaskId, c: CapNo): State
    requires t in s.tasks && c in s.caps
  {
    SetTask(SetCap(s, c, s.caps[c].(running := Some(t))), t,
            s.tasks[t].(pc := Outside, owned := s.tasks[t].owned + {c}))
  }

  function Goto(s: State, t: TaskId, pc: Pc): State
    requires t in s.tasks
  {
    SetTask(s, t, s.tasks[t].(pc := pc))
  }

  // ----- Steps -----

  datatype Event =
    | Want(t: TaskId, c: CapNo)                                     // waitForCapability picks a capability
    | Enter(t: TaskId)                                              // and takes its lock
    | WakeReturn(t: TaskId, spurious: bool)
    | CheckReturn(t: TaskId)
    | ReleaseCap(t: TaskId, c: CapNo, env: Env<TaskId>, newTask: TaskId)
    | Yield(t: TaskId, c: CapNo)
    | YieldLocked(t: TaskId, env: Env<TaskId>, newTask: TaskId)
    | WakeWorker(t: TaskId, spurious: bool)
    | CheckWorker(t: TaskId)
    | Prod(t: TaskId, c: CapNo, env: Env<TaskId>, newTask: TaskId)    // prodCapability, sendMessage
    | TryGrab(t: TaskId, c: CapNo)
    | Assign(t: TaskId, c: CapNo)                                   // task->cap is set, perhaps by a migration
    | BecomeKind(t: TaskId, kind: Kind)                             // in-calls are entered and left

  /** The thread at the head of the run queue, if bound, is bound to the in-call its task is now in. */
  predicate EnvOk(s: State, t: TaskId, env: Env<TaskId>, newTask: TaskId) {
    newTask !in s.tasks && (env.bound.Some? ==> env.bound.value in s.tasks && s.tasks[env.bound.value].kind == Bound)
  }

  predicate Enabled(s: State, e: Event) {
    && e.t in s.tasks
    && var k := s.tasks[e.t];
    match e
    case Want(t, c) => k.pc == Outside && c in s.caps
    case Enter(t) => k.pc.Wanting? && k.pc.cap in s.caps
    case WakeReturn(t, spurious) => k.pc == ReturnSleep && (k.wakeup || spurious)
    case CheckReturn(t) => k.pc.ReturnWoken? && k.pc.cap in s.caps
    case ReleaseCap(t, c, env, newTask) => k.pc == Outside && c in k.owned && c in s.caps && EnvOk(s, t, env, newTask)
    case Yield(t, c) => k.pc == Outside && c in k.owned && c in s.caps && (k.kind != Bound ==> k.cap == c)
    case YieldLocked(t, env, newTask) =>
      && k.pc.Yielding? && k.pc.cap in s.caps && EnvOk(s, t, env, newTask)
      && (k.kind == Plain ==> SureToBeWoken(s.caps[k.pc.cap], env))
    case WakeWorker(t, spurious) => k.pc == WorkerSleep && (k.wakeup || spurious)
    case CheckWorker(t) => k.pc.WorkerWoken? && k.pc.cap in s.caps
    case Prod(t, c, env, newTask) => k.pc == Outside && c in s.caps && EnvOk(s, t, env, newTask)
    case TryGrab(t, c) => k.pc == Outside && c in s.caps
    case Assign(t, c) =>
      c in s.caps && (k.pc.Outside? || (k.kind == Bound && (k.pc.Yielding? || k.pc.WorkerSleep? || k.pc.WorkerWoken?)))
    case BecomeKind(t, kind) => k.pc == Outside
  }

  /** A task that is neither a worker nor bound queues itself after releasing: somebody must already be on the way. */
  predicate SureToBeWoken<T(==)>(c: Cap<T>, env: Env<T>) {
    c.returning != [] || Choose(c, env).NewWorker?
  }

  /** newReturningTask and the wait that follows. */
  function Queue(s: State, t: TaskId, c: CapNo): State
    requires t in s.tasks && c in s.caps
  {
    SetTask(SetCap(s, c, s.caps[c].(returning := s.caps[c].returning + [t])), t, s.tasks[t].(pc := ReturnSleep))
  }

  /** The critical section of waitForCapability. */
  function EnterStep(s: State, t: TaskId): State
    requires t in s.tasks && s.tasks[t].pc.Wanting? && s.tasks[t].pc.cap in s.caps
  {
    var c := s.tasks[t].pc.cap;
    if s.caps[c].running == None then Grab(s, t, c) else Queue(s, t, c)
  }

  /** The critical section of waitForReturnCapability. */
  function CheckReturnStep(s: State, t: TaskId): State
    requires t in s.tasks && s.tasks[t].pc.ReturnWoken? && s.tasks[t].pc.cap in s.caps
  {
    var c := s.tasks[t].pc.cap;
    var cap := s.caps[c];
    if cap.running != None || cap.returning == [] then Goto(s, t, ReturnSleep)
    else if cap.returning[0] != t then
      var s1 := Goto(s, t, ReturnSleep);
      if cap.returning[0] in s1.tasks then Give(s1, cap.returning[0]) else s1
    else
      Grab(SetCap(s, c, cap.(returning := cap.returning[1..])), t, c)
  }

  /** The critical section of waitForWorkerCapability. */
  function CheckWorkerStep(s: State, t: TaskId): State
    requires t in s.tasks && s.tasks[t].pc.WorkerWoken? && s.tasks[t].pc.cap in s.caps
  {
    var c := s.tasks[t].pc.cap;
    var cap := s.caps[c];
    if cap.running != None then Goto(s, t, WorkerSleep)
    else if s.tasks[t].cap != c then Goto(s, t, WorkerSleep)   // migrated bound thread
    else if s.tasks[t].kind == Bound then Grab(s, t, c)
    else if cap.spare == [] then Goto(s, t, WorkerSleep)
    else if cap.spare[0] != t then
      var s1 := Goto(s, t, WorkerSleep);
      if cap.spare[0] in s1.tasks then Give(s1, cap.spare[0]) else s1
    else
      Grab(SetCap(s, c, cap.(spare := cap.spare[1..])), t, c)
  }

  /** The critical section of yieldCapability. */
  function YieldStep(s: State, t: TaskId, env: Env<TaskId>, newTask: TaskId): State
    requires t in s.tasks && s.tasks[t].pc.Yielding? && s.tasks[t].pc.cap in s.caps && newTask !in s.tasks
  {
    var c := s.tasks[t].pc.cap;
    match s.tasks[t].kind
    case Worker =>
      if |s.caps[c].spare| < MAX_SPARE_WORKERS then
        Release(Goto(SetCap(s, c, s.caps[c].(spare := [t] + s.caps[c].spare)), t, WorkerSleep), t, c, env, newTask)
      else
        Release(Goto(s, t, Stopped), t, c, env, newTask)
    case Bound => Release(Goto(s, t, WorkerSleep), t, c, env, newTask)
    case Plain => Queue(Release(Goto(s, t, Outside), t, c, env, newTask), t, c)
  }

  /** prodCapability and sendMessage: the caller borrows an idle capability to run releaseCapability_ on it. */
  function ProdStep(s: State, t: TaskId, c: CapNo, env: Env<TaskId>, newTask: TaskId): State
    requires t in s.tasks && c in s.caps
  {
    if s.caps[c].running == None then
      Release(SetCap(s, c, s.caps[c].(running := Some(t))), t, c, env, newTask)
    else s
  }

  function Step(s: State, e: Event): State
    requires Enabled(s, e)
  {
    var k := s.tasks[e.t];
    match e
    case Want(t, c) => SetTask(s, t, k.(pc := Wanting(c), cap := c))
    case Enter(t) => EnterStep(s, t)
    case WakeReturn(t, _) => SetTask(s, t, k.(wakeup := false, pc := ReturnWoken(k.cap)))
    case CheckReturn(t) => CheckReturnStep(s, t)
    case ReleaseCap(t, c, env, newTask) => Release(s, t, c, env, newTask)
    case Yield(t, c) => SetTask(s, t, k.(wakeup := false, pc := Yielding(c)))
    case YieldLocked(t, env, newTask) => YieldStep(s, t, env, newTask)
    case WakeWorker(t, _) => SetTask(s, t, k.(wakeup := false, pc := WorkerWoken(k.cap)))
    case CheckWorker(t) => CheckWorkerStep(s, t)
    case Prod(t, c, env, newTask) => ProdStep(s, t, c, env, newTask)
    case TryGrab(t, c) =>
      if s.caps[c].running == None then Grab(SetTask(s, t, k.(cap := c)), t, c) else s
    case Assign(t, c) => SetTask(s, t, k.(cap := c))
    case BecomeKind(t, kind) => SetTask(s, t, k.(kind := kind))
  }

  // ----- Invariants -----

  predicate AwaitsReturn(k: Task) {
    k.pc == ReturnSleep || k.pc == ReturnWoken(k.cap)
  }

  predicate AwaitsWork(k: Task) {
    k.pc == WorkerSleep || k.pc == WorkerWoken(k.cap)
  }

  /** The running_task of a capability believes that it owns it. */
  ghost predicate OwnerOk(s: State, c: CapNo)
    requires c in s.caps
  {
    s.caps[c].running.Some? ==> var t := s.caps[c].running.value; t in s.tasks && c in s.tasks[t].owned
  }

  /** The returning queue holds, once each, tasks that wait to return on this capability. */
  ghost predicate QueueOk(s: State, c: CapNo)
    requires c in s.caps
  {
    Distinct(s.caps[c].returning) && forall i | 0 <= i < |s.caps[c].returning| ::
        WaitsToReturn(s, s.caps[c].returning[i], c)
  }

  ghost predicate WaitsToReturn(s: State, t: TaskId, c: CapNo) {
    t in s.tasks && s.tasks[t].cap == c && AwaitsReturn(s.tasks[t])
  }

  /** The spare stack holds, once each, workers that wait for work here, and no more than fit. */
  ghost predicate SpareOk(s: State, c: CapNo)
    requires c in s.caps
  {
    && |s.caps[c].spare| <= MAX_SPARE_WORKERS && Distinct(s.caps[c].spare)
    && forall i | 0 <= i < |s.caps[c].spare| :: WaitsForWork(s, s.caps[c].spare[i], c)
  }

  ghost predicate WaitsForWork(s: State, t: TaskId, c: CapNo) {
    t in s.tasks && s.tasks[t].cap == c && s.tasks[t].kind == Worker && AwaitsWork(s.tasks[t])
  }

  ghost predicate CapOk(s: State, c: CapNo)
    requires c in s.caps
  {
    OwnerOk(s, c) && QueueOk(s, c) && SpareOk(s, c)
  }

  /** Whatever the task believes it owns, it does own. */
  ghost predicate OwnsOk(s: State, t: TaskId)
    requires t in s.tasks
  {
    forall c | c in s.tasks[t].owned :: c in s.caps && s.caps[c].running == Some(t)
  }

  /** A task that waits is on the queue it waits on. */
  ghost predicate ListedOk(s: State, k: Task, t: TaskId) {
    && k.cap in s.caps
    && match At(k)
       case OnReturning => AwaitsReturn(k) && t in s.caps[k.cap].returning
       case OnSpare => k.kind == Worker && AwaitsWork(k) && t in s.caps[k.cap].spare
       case Nowhere => true
  }

  ghost predicate PlaceOk(s: State, k: Task) {
    && (k.pc.Wanting? ==> k.pc.cap == k.cap)
    && (k.pc.Yielding? ==> k.pc.cap in k.owned && k.pc.cap in s.caps && (k.kind != Bound ==> k.cap == k.pc.cap))
    && (k.pc.Yielding? && k.kind == Plain ==> !k.wakeup)
    && (k.pc.WorkerWoken? ==> k.pc.cap in s.caps)
  }

  ghost predicate TaskOk(s: State, t: TaskId)
    requires t in s.tasks
  {
    OwnsOk(s, t) && ListedOk(s, s.tasks[t], t) && PlaceOk(s, s.tasks[t])
  }

  /** Which queue a task is on. */
  datatype Station = Nowhere | OnReturning | OnSpare

  function At(k: Task): Station {
    if k.pc.ReturnSleep? || k.pc.ReturnWoken? then OnReturning
    else if (k.pc.WorkerSleep? || k.pc.WorkerWoken?) && k.kind != Bound then OnSpare
    else Nowhere
  }

  /** A free capability with tasks waiting to return has already told the first of them. */
  ghost predicate NoLostWakeup(s: State) {
    forall c | c in s.caps :: HeadTold(s, c)
  }

  ghost predicate HeadTold(s: State, c: CapNo)
    requires c in s.caps
  {
    s.caps[c].running == None && s.caps[c].returning != [] ==> Told(s, c, s.caps[c].returning[0])
  }

  /** The same while capability `c` is between being freed and being handed on. */
  ghost predicate OthersTold(s: State, c: CapNo) {
    forall d | d in s.caps && d != c :: HeadTold(s, d)
  }

  ghost predicate Told(s: State, c: CapNo, t: TaskId) {
    t in s.tasks && (s.tasks[t].wakeup || s.tasks[t].pc == ReturnWoken(c))
  }

  /** Everything but the wakeups. */
  ghost predicate Shape(s: State) {
    (forall c | c in s.caps :: CapOk(s, c)) && (forall t | t in s.tasks :: TaskOk(s, t))
  }

  ghost predicate Inv(s: State) {
    Shape(s) && NoLostWakeup(s)
  }

  // ----- The shape under each kind of update -----

  /** The task record changes but the task stays where it is. */
  predicate Stays(k: Task, k': Task) {
    && k'.owned == k.owned && At(k') == At(k)
    && (At(k).Nowhere? || (k'.cap == k.cap && k'.kind == k.kind))
    && (At(k).OnReturning? ==> AwaitsReturn(k'))
    && (At(k).OnSpare? ==> AwaitsWork(k'))
  }

  /** A capability is as sound as it was if neither it nor the tasks it lists have changed. */
  lemma CapFrame(s: State, r: State, t: TaskId, d: CapNo)
    requires d in s.caps && CapOk(s, d) && d in r.caps && r.caps[d] == s.caps[d]
    requires forall u | u in s.tasks && u != t :: u in r.tasks && r.tasks[u] == s.tasks[u]
    requires t !in s.caps[d].returning && t !in s.caps[d].spare
    requires s.caps[d].running == Some(t) ==> t in r.tasks && d in r.tasks[t].owned
    ensures CapOk(r, d)
  {
  }

  /** A task is as sound as it was if only capability `c` has changed, and still has what it had there. */
  lemma TaskFrame(s: State, r: State, c: CapNo, u: TaskId)
    requires u in s.tasks && TaskOk(s, u) && u in r.tasks && r.tasks[u] == s.tasks[u]
    requires c in s.caps && r.caps.Keys == s.caps.Keys && forall d | d in s.caps && d != c :: r.caps[d] == s.caps[d]
    requires s.caps[c].running == Some(u) ==> r.caps[c].running == Some(u)
    requires u in s.caps[c].returning ==> u in r.caps[c].returning
    requires u in s.caps[c].spare ==> u in r.caps[c].spare
    ensures TaskOk(r, u)
  {
  }

  /** A task is on no queue but the one its record names. */
  lemma NotListed(s: State, t: TaskId, d: CapNo)
    requires Shape(s) && d in s.caps && (t !in s.tasks || At(s.tasks[t]).Nowhere? || s.tasks[t].cap != d)
    ensures t !in s.caps[d].returning && t !in s.caps[d].spare
  {
    assert CapOk(s, d);
  }

  /** Frame for an update of capability `c` and task `t`: what is left to show is about the two of them. */
  lemma ShapeFrame(s: State, r: State, t: TaskId, c: CapNo)
    requires Shape(s) && c in s.caps && (t in s.tasks && !At(s.tasks[t]).Nowhere? ==> s.tasks[t].cap == c)
    requires r.caps.Keys == s.caps.Keys && forall d | d in s.caps && d != c :: r.caps[d] == s.caps[d]
    requires r.tasks.Keys == s.tasks.Keys + {t} && forall u | u in s.tasks && u != t :: r.tasks[u] == s.tasks[u]
    requires t in s.tasks ==> s.tasks[t].owned - {c} <= r.tasks[t].owned
    requires forall u | u in s.tasks && u != t ::
               && (s.caps[c].running == Some(u) ==> r.caps[c].running == Some(u))
               && (u in s.caps[c].returning ==> u in r.caps[c].returning)
               && (u in s.caps[c].spare ==> u in r.caps[c].spare)
    requires CapOk(r, c) && TaskOk(r, t)
    ensures Shape(r)
  {
    forall d | d in r.caps ensures CapOk(r, d) {
      if d != c {
        assert CapOk(s, d) && OwnerOk(s, d);
        NotListed(s, t, d);
        CapFrame(s, r, t, d);
      }
    }
    forall u | u in r.tasks ensures TaskOk(r, u) {
      if u != t {
        assert TaskOk(s, u);
        TaskFrame(s, r, c, u);
      }
    }
  }

  lemma ShapeRetask(s: State, t: TaskId, k': Task)
    requires Shape(s) && t in s.tasks && Stays(s.tasks[t], k') && PlaceOk(s, k') && k'.cap in s.caps
    ensures Shape(SetTask(s, t, k'))
  {
    var c := s.tasks[t].cap;
    assert TaskOk(s, t) && CapOk(s, c);
    ShapeFrame(s, SetTask(s, t, k'), t, c);
  }

  lemma ShapeFree(s: State, t: TaskId, c: CapNo)
    requires Shape(s) && t in s.tasks && c in s.caps && s.caps[c].running == Some(t)
    requires !s.tasks[t].pc.Yielding?
    ensures Shape(Free(s, t, c))
  {
    assert TaskOk(s, t) && CapOk(s, c);
    var r := Free(s, t, c);
    forall d | d in r.caps ensures CapOk(r, d) { FreeCap(s, t, c, d); }
    forall u | u in r.tasks ensures TaskOk(r, u) { FreeTask(s, t, c, u); }
  }

  lemma FreeCap(s: State, t: TaskId, c: CapNo, d: CapNo)
    requires Shape(s) && t in s.tasks && c in s.caps && s.caps[c].running == Some(t) && d in s.caps
    ensures CapOk(Free(s, t, c), d)
  {
    hide TaskOk, At;
    assert CapOk(s, d);
  }

  lemma FreeTask(s: State, t: TaskId, c: CapNo, u: TaskId)
    requires Shape(s) && t in s.tasks && c in s.caps && s.caps[c].running == Some(t) && u in s.tasks
    requires !s.tasks[t].pc.Yielding?
    ensures TaskOk(Free(s, t, c), u)
  {
    hide QueueOk, SpareOk;
    assert TaskOk(s, u) && CapOk(s, c);
  }

  lemma ShapeGrab(s: State, t: TaskId, c: CapNo)
    requires Shape(s) && t in s.tasks && c in s.caps && s.caps[c].running == None && At(s.tasks[t]).Nowhere?
    ensures Shape(Grab(s, t, c))
  {
    assert TaskOk(s, t) && CapOk(s, c);
    NotListed(s, t, c);
    ShapeFrame(s, Grab(s, t, c), t, c);
  }

  lemma ShapeStart(s: State, c: CapNo, w: TaskId)
    requires Shape(s) && w !in s.tasks && c in s.caps && s.caps[c].running == None
    ensures Shape(Start(s, c, w))
  {
    assert CapOk(s, c);
    NotListed(s, w, c);
    ShapeFrame(s, Start(s, c, w), w, c);
  }

  lemma ShapeQueue(s: State, t: TaskId, c: CapNo)
    requires Shape(s) && t in s.tasks && c in s.caps && At(s.tasks[t]).Nowhere? && s.tasks[t].cap == c
    ensures Shape(Queue(s, t, c))
  {
    assert TaskOk(s, t) && CapOk(s, c);
    NotListed(s, t, c);
    ShapeFrame(s, Queue(s, t, c), t, c);
  }

  lemma TailOf<T>(q: seq<T>)
    requires q != [] && Distinct(q)
    ensures Distinct(q[1..]) && q[0] !in q[1..]
    ensures forall x | x in q && x != q[0] :: x in q[1..]
  {
    assert q == [q[0]] + q[1..];
  }

  lemma ShapePopReturning(s: State, t: TaskId, c: CapNo)
    requires Shape(s) && t in s.tasks && c in s.caps && s.caps[c].running == None
    requires s.caps[c].returning != [] && s.caps[c].returning[0] == t
    ensures Shape(Grab(SetCap(s, c, s.caps[c].(returning := s.caps[c].returning[1..])), t, c))
  {
    assert TaskOk(s, t) && CapOk(s, c);
    assert WaitsToReturn(s, t, c) && t !in s.caps[c].spare;
    TailOf(s.caps[c].returning);
    ShapeFrame(s, Grab(SetCap(s, c, s.caps[c].(returning := s.caps[c].returning[1..])), t, c), t, c);
  }

  lemma ShapePopSpare(s: State, t: TaskId, c: CapNo)
    requires Shape(s) && t in s.tasks && c in s.caps && s.caps[c].running == None
    requires s.caps[c].spare != [] && s.caps[c].spare[0] == t
    ensures Shape(Grab(SetCap(s, c, s.caps[c].(spare := s.caps[c].spare[1..])), t, c))
  {
    assert TaskOk(s, t) && CapOk(s, c);
    assert WaitsForWork(s, t, c) && t !in s.caps[c].returning;
    TailOf(s.caps[c].spare);
    ShapeFrame(s, Grab(SetCap(s, c, s.caps[c].(spare := s.caps[c].spare[1..])), t, c), t, c);
  }

  lemma ShapePushSpare(s: State, t: TaskId, c: CapNo)
    requires Shape(s) && t in s.tasks && c in s.caps && At(s.tasks[t]).Nowhere?
    requires s.tasks[t].kind == Worker && s.tasks[t].cap == c && |s.caps[c].spare| < MAX_SPARE_WORKERS
    ensures Shape(Goto(SetCap(s, c, s.caps[c].(spare := [t] + s.caps[c].spare)), t, WorkerSleep))
  {
    assert TaskOk(s, t) && CapOk(s, c);
    NotListed(s, t, c);
    ShapeFrame(s, Goto(SetCap(s, c, s.caps[c].(spare := [t] + s.caps[c].spare)), t, WorkerSleep), t, c);
  }

  // ----- Every step keeps the invariants -----

  /** The first task of a queue waits to return there. */
  lemma HeadWaits(s: State, c: CapNo)
    requires Shape(s) && c in s.caps && s.caps[c].returning != []
    ensures WaitsToReturn(s, s.caps[c].returning[0], c)
  {
    assert CapOk(s, c);
  }

  /** A change to one task keeps the wakeups if that task, should it be first in a queue, has been told. */
  lemma ToldRetask(s: State, t: TaskId, k': Task)
    requires Inv(s) && t in s.tasks
    requires AwaitsReturn(s.tasks[t]) && s.tasks[t].cap in s.caps && s.caps[s.tasks[t].cap].running == None ==>
               k'.wakeup || k'.pc == ReturnWoken(s.tasks[t].cap) || s.caps[s.tasks[t].cap].returning == []
               || s.caps[s.tasks[t].cap].returning[0] != t
    ensures NoLostWakeup(SetTask(s, t, k'))
  {
    hide CapOk, TaskOk;
    var r := SetTask(s, t, k');
    forall c | c in r.caps ensures HeadTold(r, c) {
      assert HeadTold(s, c);
      if s.caps[c].returning != [] { HeadWaits(s, c); }
    }
  }

  /** releaseCapability_ once the capability is free: whoever is first in the queue gets told. */
  lemma DispatchKeeps(s: State, c: CapNo, env: Env<TaskId>, w: TaskId)
    requires Shape(s) && OthersTold(s, c) && c in s.caps && s.caps[c].running == None
    requires EnvOk(s, c, env, w)
    ensures Inv(Dispatch(s, c, Choose(s.caps[c], env), w))
    ensures Dispatch(s, c, Choose(s.caps[c], env), w).caps[c].running != None <==> Choose(s.caps[c], env).NewWorker?
  {
    var h := Choose(s.caps[c], env);
    var r := Dispatch(s, c, h, w);
    assert CapOk(s, c);
    if h.Given? {
      assert h.task in s.tasks && TaskOk(s, h.task);
      ShapeRetask(s, h.task, s.tasks[h.task].(wakeup := true));
    } else if h.NewWorker? {
      ShapeStart(s, c, w);
    }
    forall d | d in r.caps ensures HeadTold(r, d) { assert d != c ==> HeadTold(s, d); }
  }

  lemma ReleaseKeeps(s: State, t: TaskId, c: CapNo, env: Env<TaskId>, w: TaskId)
    requires Shape(s) && OthersTold(s, c) && t in s.tasks && c in s.caps && s.caps[c].running == Some(t)
    requires !s.tasks[t].pc.Yielding? && EnvOk(s, t, env, w)
    ensures Inv(Release(s, t, c, env, w))
  {
    ShapeFree(s, t, c);
    var r := Free(s, t, c);
    forall d | d in r.caps && d != c ensures HeadTold(r, d) { assert HeadTold(s, d); }
    DispatchKeeps(r, c, env, w);
    assert Choose(s.caps[c], env) == Choose(r.caps[c], env);
  }

  lemma EnterKeeps(s: State, t: TaskId)
    requires Inv(s) && Enabled(s, Enter(t))
    ensures Inv(EnterStep(s, t))
  {
    var c, r := s.tasks[t].pc.cap, EnterStep(s, t);
    assert TaskOk(s, t);
    if s.caps[c].running == None {
      ShapeGrab(s, t, c);
    } else {
      ShapeQueue(s, t, c);
    }
    forall d | d in r.caps ensures HeadTold(r, d) { assert HeadTold(s, d) && CapOk(s, d); }
  }

  lemma CheckReturnKeeps(s: State, t: TaskId)
    requires Inv(s) && Enabled(s, CheckReturn(t))
    ensures Inv(CheckReturnStep(s, t))
  {
    hide CapOk;
    var c, k := s.tasks[t].pc.cap, s.tasks[t];
    var cap, k' := s.caps[c], k.(pc := ReturnSleep);
    assert TaskOk(s, t);
    HeadWaits(s, c);
    var hd := cap.returning[0];
    if cap.running == None && hd == t {
      ShapePopReturning(s, t, c);
      GrabTold(s, SetCap(s, c, cap.(returning := cap.returning[1..])), t, c);
    } else {
      ShapeRetask(s, t, k');
      ToldRetask(s, t, k');
      if cap.running == None {
        GiveKeeps(SetTask(s, t, k'), hd);
      }
    }
  }

  lemma GiveKeeps(s: State, u: TaskId)
    requires Inv(s) && u in s.tasks && !s.tasks[u].pc.Yielding?
    ensures Inv(Give(s, u))
  {
    hide CapOk;
    assert TaskOk(s, u);
    ShapeRetask(s, u, s.tasks[u].(wakeup := true));
    ToldRetask(s, u, s.tasks[u].(wakeup := true));
  }

  /** Taking a free capability, after a change to that capability alone, loses nobody's wakeup. */
  lemma GrabTold(s: State, s1: State, t: TaskId, c: CapNo)
    requires Inv(s) && t in s.tasks && c in s.caps && c in s1.caps && s1 == SetCap(s, c, s1.caps[c])
    requires AwaitsReturn(s.tasks[t]) ==> s.tasks[t].cap == c
    ensures NoLostWakeup(Grab(s1, t, c))
  {
    hide CapOk;
    var r := Grab(s1, t, c);
    forall d | d in r.caps ensures HeadTold(r, d) {
      assert HeadTold(s, d);
      if s.caps[d].returning != [] { HeadWaits(s, d); }
    }
  }

  lemma CheckWorkerKeeps(s: State, t: TaskId)
    requires Inv(s) && Enabled(s, CheckWorker(t))
    ensures Inv(CheckWorkerStep(s, t))
  {
    hide CapOk;
    var c, k := s.tasks[t].pc.cap, s.tasks[t];
    var cap, k' := s.caps[c], k.(pc := WorkerSleep);
    assert TaskOk(s, t);
    if cap.running == None && k.cap == c && k.kind == Bound {
      ShapeGrab(s, t, c);
      GrabTold(s, s, t, c);
    } else if cap.running == None && k.cap == c && cap.spare[0] == t {
      ShapePopSpare(s, t, c);
      GrabTold(s, SetCap(s, c, cap.(spare := cap.spare[1..])), t, c);
    } else {
      ShapeRetask(s, t, k');
      ToldRetask(s, t, k');
      if cap.running == None && k.cap == c {
        SpareWaits(s, c, 0);
        GiveKeeps(SetTask(s, t, k'), cap.spare[0]);
      }
    }
  }

  lemma SpareWaits(s: State, c: CapNo, i: nat)
    requires Shape(s) && c in s.caps && i < |s.caps[c].spare|
    ensures WaitsForWork(s, s.caps[c].spare[i], c)
  {
    assert CapOk(s, c);
  }

  lemma YieldKeeps(s: State, t: TaskId, env: Env<TaskId>, w: TaskId)
    requires Inv(s) && Enabled(s, YieldLocked(t, env, w))
    ensures Inv(YieldStep(s, t, env, w))
  {
    hide CapOk;
    var c, k := s.tasks[t].pc.cap, s.tasks[t];
    assert TaskOk(s, t) && s.caps[c].running == Some(t);
    match k.kind
    case Worker =>
      if |s.caps[c].spare| < MAX_SPARE_WORKERS {
        ShapePushSpare(s, t, c);
        var s1 := Goto(SetCap(s, c, s.caps[c].(spare := [t] + s.caps[c].spare)), t, WorkerSleep);
        MovedTold(s, s1, t, c);
        ReleaseKeeps(s1, t, c, env, w);
      } else {
        LeaveKeeps(s, t, c, Stopped, env, w);
      }
    case Bound =>
      LeaveKeeps(s, t, c, WorkerSleep, env, w);
    case Plain =>
      LeaveKeeps(s, t, c, Outside, env, w);
      QueueKeeps(Release(Goto(s, t, Outside), t, c, env, w), t, c);
  }

  /** Changing capability `c` and a task that is on no returning queue. */
  lemma MovedTold(s: State, s1: State, t: TaskId, c: CapNo)
    requires Inv(s) && t in s.tasks && c in s.caps && !At(s.tasks[t]).OnReturning?
    requires c in s1.caps && t in s1.tasks && s1 == SetTask(SetCap(s, c, s1.caps[c]), t, s1.tasks[t])
    ensures OthersTold(s1, c)
  {
    hide CapOk;
    forall d | d in s1.caps && d != c ensures HeadTold(s1, d) {
      assert HeadTold(s, d);
      if s.caps[d].returning != [] { HeadWaits(s, d); }
    }
  }

  lemma LeaveKeeps(s: State, t: TaskId, c: CapNo, pc: Pc, env: Env<TaskId>, w: TaskId)
    requires Inv(s) && t in s.tasks && c in s.caps && s.caps[c].running == Some(t) && EnvOk(s, t, env, w)
    requires At(s.tasks[t]).Nowhere? && (pc.Outside? || pc.Stopped? || (pc.WorkerSleep? && s.tasks[t].kind == Bound))
    ensures Inv(Release(Goto(s, t, pc), t, c, env, w))
  {
    hide CapOk;
    var k' := s.tasks[t].(pc := pc);
    assert TaskOk(s, t);
    ShapeRetask(s, t, k');
    MovedTold(s, SetTask(s, t, k'), t, c);
    ReleaseKeeps(SetTask(s, t, k'), t, c, env, w);
  }

  lemma QueueKeeps(s: State, t: TaskId, c: CapNo)
    requires Inv(s) && t in s.tasks && c in s.caps && At(s.tasks[t]).Nowhere? && s.tasks[t].cap == c
    requires s.caps[c].running != None || s.caps[c].returning != []
    ensures Inv(Queue(s, t, c))
  {
    hide CapOk;
    var r := Queue(s, t, c);
    ShapeQueue(s, t, c);
    forall d | d in r.caps ensures HeadTold(r, d) {
      assert HeadTold(s, d);
      if s.caps[d].returning != [] { HeadWaits(s, d); }
    }
  }

  lemma ProdKeeps(s: State, t: TaskId, c: CapNo, env: Env<TaskId>, w: TaskId)
    requires Inv(s) && Enabled(s, Prod(t, c, env, w))
    ensures Inv(ProdStep(s, t, c, env, w))
  {
    hide CapOk, Dispatch;
    if s.caps[c].running == None {
      BorrowFree(s, t, c);
      DispatchKeeps(s, c, env, w);
    }
  }

  /** Borrowing an idle capability and freeing it again changes nothing. */
  lemma BorrowFree(s: State, t: TaskId, c: CapNo)
    requires Inv(s) && t in s.tasks && c in s.caps && s.caps[c].running == None
    ensures Free(SetCap(s, c, s.caps[c].(running := Some(t))), t, c) == s
  {
    hide CapOk;
    assert TaskOk(s, t);
    assert s.tasks[t].owned - {c} == s.tasks[t].owned;
    assert s.caps[c := s.caps[c]] == s.caps && s.tasks[t := s.tasks[t]] == s.tasks;
  }

  lemma TryGrabKeeps(s: State, t: TaskId, c: CapNo)
    requires Inv(s) && Enabled(s, TryGrab(t, c))
    ensures Inv(Step(s, TryGrab(t, c)))
  {
    hide CapOk;
    if s.caps[c].running == None {
      var k' := s.tasks[t].(cap := c);
      assert TaskOk(s, t);
      ShapeRetask(s, t, k');
      ToldRetask(s, t, k');
      ShapeGrab(SetTask(s, t, k'), t, c);
      GrabTold(SetTask(s, t, k'), SetTask(s, t, k'), t, c);
    }
  }

  /** Every step keeps the invariants. */
  lemma StepKeeps(s: State, e: Event)
    requires Inv(s) && Enabled(s, e)
    ensures Inv(Step(s, e))
  {
    hide CapOk, NoLostWakeup, EnterStep, CheckReturnStep, CheckWorkerStep, YieldStep, ProdStep, Dispatch, Choose;
    assert TaskOk(s, e.t);
    match e
    case Enter(t) => EnterKeeps(s, t);
    case CheckReturn(t) => CheckReturnKeeps(s, t);
    case ReleaseCap(t, c, env, newTask) => PlainRelease(s, t, c, env, newTask);
    case YieldLocked(t, env, newTask) => YieldKeeps(s, t, env, newTask);
    case CheckWorker(t) => CheckWorkerKeeps(s, t);
    case Prod(t, c, env, newTask) => ProdKeeps(s, t, c, env, newTask);
    case TryGrab(t, c) => TryGrabKeeps(s, t, c);
    case Want(t, c) => RetaskKeeps(s, t, s.tasks[t].(pc := Wanting(c), cap := c));
    case WakeReturn(t, _) => RetaskKeeps(s, t, s.tasks[t].(wakeup := false, pc := ReturnWoken(s.tasks[t].cap)));
    case Yield(t, c) => RetaskKeeps(s, t, s.tasks[t].(wakeup := false, pc := Yielding(c)));
    case WakeWorker(t, _) => RetaskKeeps(s, t, s.tasks[t].(wakeup := false, pc := WorkerWoken(s.tasks[t].cap)));
    case Assign(t, c) => RetaskKeeps(s, t, s.tasks[t].(cap := c));
    case BecomeKind(t, kind) => RetaskKeeps(s, t, s.tasks[t].(kind := kind));
  }

  lemma PlainRelease(s: State, t: TaskId, c: CapNo, env: Env<TaskId>, w: TaskId)
    requires Inv(s) && Enabled(s, ReleaseCap(t, c, env, w))
    ensures Inv(Release(s, t, c, env, w))
  {
    hide CapOk;
    assert TaskOk(s, t);
    ReleaseKeeps(s, t, c, env, w);
  }

  lemma RetaskKeeps(s: State, t: TaskId, k': Task)
    requires Inv(s) && t in s.tasks && Stays(s.tasks[t], k') && PlaceOk(s, k') && k'.cap in s.caps
    requires At(s.tasks[t]).OnReturning? ==> k'.pc == ReturnWoken(s.tasks[t].cap)
    ensures Inv(SetTask(s, t, k'))
  {
    hide CapOk;
    ShapeRetask(s, t, k');
    ToldRetask(s, t, k');
  }

  // ----- Whole runs -----

  /** Before any task has asked for anything. */
  ghost predicate Initial(s: State) {
    && (forall c | c in s.caps :: s.caps[c] == Cap(None, [], []))
    && (forall t | t in s.tasks :: s.tasks[t].pc == Outside && s.tasks[t].owned == {} && s.tasks[t].cap in s.caps)
  }

  ghost predicate Legal(s: State, es: seq<Event>)
    decreases |es|
  {
    es == [] || (Enabled(s, es[0]) && Legal(Step(s, es[0]), es[1..]))
  }

  ghost function Run(s: State, es: seq<Event>): State
    requires Legal(s, es)
    decreases |es|
  {
    if es == [] then s else Run(Step(s, es[0]), es[1..])
  }

  lemma InitialInv(s: State)
    requires Initial(s)
    ensures Inv(s)
  {
    forall c | c in s.caps ensures CapOk(s, c) && HeadTold(s, c) {}
    forall t | t in s.tasks ensures TaskOk(s, t) {}
  }

  lemma {:induction false} RunKeeps(s: State, es: seq<Event>)
    requires Inv(s) && Legal(s, es)
    ensures Inv(Run(s, es))
    decreases |es|
  {
    hide Inv, Step, Enabled;
    if es != [] {
      StepKeeps(s, es[0]);
      RunKeeps(Step(s, es[0]), es[1..]);
    }
  }

  /** Safety over every run: no wakeup is lost, a capability has one owner, who knows it, and the queues are sound. */
  lemma RunsAreSafe(s0: State, es: seq<Event>)
    requires Initial(s0) && Legal(s0, es)
    ensures var s := Run(s0, es);
            && (forall c | c in s.caps && s.caps[c].running == None && s.caps[c].returning != [] ::
                  Told(s, c, s.caps[c].returning[0]))
            && (forall t, c | t in s.tasks && c in s.tasks[t].owned :: c in s.caps && s.caps[c].running == Some(t))
            && (forall t, u | t in s.tasks && u in s.tasks && t != u :: s.tasks[t].owned !! s.tasks[u].owned)
            && (forall c | c in s.caps :: Distinct(s.caps[c].returning) && Distinct(s.caps[c].spare))
  {
    hide Initial;
    InitialInv(s0);
    RunKeeps(s0, es);
    var s := Run(s0, es);
    forall c | c in s.caps ensures HeadTold(s, c) && CapOk(s, c) {}
    forall t | t in s.tasks ensures TaskOk(s, t) {}
  }

  // ----- Who is told -----

  /** Releasing capability `c`, yielding it and prodding it: the first returning task is told; without one, and without
      a sync, the task of the bound thread that is next; without that, a new worker starts if there is no spare one,
      and the top spare worker is told if there is work. Otherwise nobody is told anything. */
  lemma HandOverTells(s: State, e: Event, c: CapNo, env: Env<TaskId>, w: TaskId)
    requires Inv(s) && Enabled(s, e) && c in s.caps
    requires e == ReleaseCap(e.t, c, env, w) || (e == YieldLocked(e.t, env, w) && s.tasks[e.t].pc.cap == c)
             || (e == Prod(e.t, c, env, w) && s.caps[c].running == None)
    ensures var r, q := Step(s, e), s.caps[c].returning;
            var joins := e.YieldLocked? && s.tasks[e.t].kind == Worker && |s.caps[c].spare| < MAX_SPARE_WORKERS;
            var spare := if joins then [e.t] + s.caps[c].spare else s.caps[c].spare;
            && c in r.caps && s.tasks.Keys <= r.tasks.Keys
            && (q != [] ==> q[0] in s.tasks && r.tasks[q[0]].wakeup && r.caps[c].running == None)
            && (q == [] && !env.sync && env.bound.Some? ==>
                  r.tasks[env.bound.value].wakeup && r.caps[c].running == None)
            && (q == [] && !env.sync && env.bound.None? && spare == [] && env.mayStart ==>
                  r.caps[c].running == Some(w) && w in r.tasks && r.tasks[w] == Task(Outside, false, c, Worker, {c}))
            && (q == [] && !env.sync && env.bound.None? && spare != [] && env.work ==>
                  spare[0] in s.tasks && r.tasks[spare[0]].wakeup && r.caps[c].running == None)
            && (q == [] && (env.sync || (env.bound.None? && if spare == [] then !env.mayStart else !env.work)) ==>
                  r.caps[c].running == None && forall u | u in s.tasks :: r.tasks[u].wakeup == s.tasks[u].wakeup)
  {
    hide NoLostWakeup, PlaceOk, Release, OwnsOk, CapOk;
    assert TaskOk(s, e.t);
    if s.caps[c].returning != [] { HeadWaits(s, c); }
    if s.caps[c].spare != [] { SpareWaits(s, c, 0); }
    var t, k := e.t, s.tasks[e.t];
    if e.ReleaseCap? {
      ReleaseTells(s, t, c, env, w);
    } else if e.Prod? {
      ReleaseTells(SetCap(s, c, s.caps[c].(running := Some(t))), t, c, env, w);
    } else if k.kind == Worker && |s.caps[c].spare| < MAX_SPARE_WORKERS {
      ReleaseTells(Goto(SetCap(s, c, s.caps[c].(spare := [t] + s.caps[c].spare)), t, WorkerSleep), t, c, env, w);
    } else {
      ReleaseTells(Goto(s, t, if k.kind == Worker then Stopped else if k.kind == Bound then WorkerSleep else Outside),
          t, c, env, w);
    }
  }

  lemma ReleaseTells(s: State, t: TaskId, c: CapNo, env: Env<TaskId>, w: TaskId)
    requires t in s.tasks && c in s.caps && EnvOk(s, t, env, w)
    requires s.caps[c].returning != [] ==> s.caps[c].returning[0] in s.tasks
    requires s.caps[c].spare != [] ==> s.caps[c].spare[0] in s.tasks
    ensures var r, q, spare := Release(s, t, c, env, w), s.caps[c].returning, s.caps[c].spare;
            && c in r.caps && s.tasks.Keys <= r.tasks.Keys
            && (q != [] ==> r.tasks[q[0]].wakeup && r.caps[c].running == None)
            && (q == [] && !env.sync && env.bound.Some? ==>
                  r.tasks[env.bound.value].wakeup && r.caps[c].running == None)
            && (q == [] && !env.sync && env.bound.None? && spare == [] && env.mayStart ==>
                  r.caps[c].running == Some(w) && w in r.tasks && r.tasks[w] == Task(Outside, false, c, Worker, {c}))
            && (q == [] && !env.sync && env.bound.None? && spare != [] && env.work ==>
                  r.tasks[spare[0]].wakeup && r.caps[c].running == None)
            && (q == [] && (env.sync || (env.bound.None? && if spare == [] then !env.mayStart else !env.work)) ==>
                  r.caps[c].running == None && forall u | u in s.tasks :: r.tasks[u].wakeup == s.tasks[u].wakeup)
  {
  }

  /** Where a task waits after it has yielded: a worker on top of the spare ones, or nowhere if these are enough, since
      it exits; a bound task until its thread is next; any other task at the end of the returning queue. */
  lemma YieldWaits(s: State, t: TaskId, env: Env<TaskId>, w: TaskId)
    requires Inv(s) && Enabled(s, YieldLocked(t, env, w))
    ensures var r, c, k := Step(s, YieldLocked(t, env, w)), s.tasks[t].pc.cap, s.tasks[t];
            && c in r.caps && t in r.tasks && c !in r.tasks[t].owned
            && r.caps[c].spare == (if k.kind == Worker && |s.caps[c].spare| < MAX_SPARE_WORKERS
                                   then [t] + s.caps[c].spare else s.caps[c].spare)
            && r.caps[c].returning == (if k.kind == Plain then s.caps[c].returning + [t] else s.caps[c].returning)
            && r.tasks[t].pc == (match k.kind
                                 case Worker => if |s.caps[c].spare| < MAX_SPARE_WORKERS then WorkerSleep else Stopped
                                 case Bound => WorkerSleep
                                 case Plain => ReturnSleep)
  {
    hide Inv, Release;
    var c, k := s.tasks[t].pc.cap, s.tasks[t];
    if k.kind == Worker && |s.caps[c].spare| < MAX_SPARE_WORKERS {
      ReleaseLeaves(Goto(SetCap(s, c, s.caps[c].(spare := [t] + s.caps[c].spare)), t, WorkerSleep), t, c, env, w);
    } else {
      ReleaseLeaves(Goto(s, t, if k.kind == Worker then Stopped else if k.kind == Bound then WorkerSleep else Outside),
          t, c, env, w);
    }
  }

  lemma ReleaseLeaves(s: State, t: TaskId, c: CapNo, env: Env<TaskId>, w: TaskId)
    requires t in s.tasks && c in s.caps && w !in s.tasks
    ensures var r := Release(s, t, c, env, w);
            && c in r.caps && t in r.tasks && c !in r.tasks[t].owned && r.tasks[t].pc == s.tasks[t].pc
            && r.caps[c].spare == s.caps[c].spare && r.caps[c].returning == s.caps[c].returning
  {
  }

  /** A wakeup is consumed by the task that was waiting, which then looks at the capability it is assigned to; a yield
      forgets an old wakeup; a task that finds a capability free has it. */
  lemma StepsTake(s: State, e: Event)
    requires Inv(s) && Enabled(s, e)
    ensures var r := Step(s, e);
            && e.t in r.tasks
            && (e.WakeReturn? ==> !r.tasks[e.t].wakeup && r.tasks[e.t].pc == ReturnWoken(s.tasks[e.t].cap))
            && (e.WakeWorker? ==> !r.tasks[e.t].wakeup && r.tasks[e.t].pc == WorkerWoken(s.tasks[e.t].cap))
            && (e.Yield? ==> !r.tasks[e.t].wakeup && r.tasks[e.t].pc == Yielding(e.c))
            && (e.TryGrab? && s.caps[e.c].running == None ==>
                  e.c in r.caps && r.caps[e.c].running == Some(e.t) && r.tasks[e.t].cap == e.c)
            && (e.Enter? && s.caps[s.tasks[e.t].pc.cap].running == None ==>
                  s.tasks[e.t].pc.cap in r.caps && r.caps[s.tasks[e.t].pc.cap].running == Some(e.t))
  {
    hide NoLostWakeup, Shape, YieldStep, CheckReturnStep, CheckWorkerStep, ProdStep, Release;
    StepKnows(s, e);
  }

  lemma StepKnows(s: State, e: Event)
    requires Inv(s) && Enabled(s, e)
    ensures e.t in Step(s, e).tasks
  {
    hide NoLostWakeup, Shape;
  }

  /** A task that has been told to work on a free capability, and is still assigned to it, takes it in its own next
      steps if it is bound or the top spare worker. */
  lemma WorkerCanTake(s: State, c: CapNo, t: TaskId)
    requires Inv(s) && c in s.caps && s.caps[c].running == None && t in s.tasks && s.tasks[t].cap == c
    requires s.tasks[t].pc == WorkerSleep && s.tasks[t].wakeup
    requires s.tasks[t].kind != Bound ==> s.caps[c].spare != [] && s.caps[c].spare[0] == t
    ensures Enabled(s, WakeWorker(t, false))
    ensures var s1 := Step(s, WakeWorker(t, false));
            Enabled(s1, CheckWorker(t)) && c in Step(s1, CheckWorker(t)).caps
            && var cap := Step(s1, CheckWorker(t)).caps[c];
               && cap.running == Some(t)
               && cap.spare == if s.tasks[t].kind == Bound then s.caps[c].spare else s.caps[c].spare[1..]
  {
    hide NoLostWakeup;
  }

  /** A spare worker that is woken out of turn passes the wakeup on to the top one, and so does a returning task that
      is not first. */
  lemma WakeupPassedOn(s: State, e: Event, t: TaskId, c: CapNo, u: TaskId)
    requires Inv(s) && Enabled(s, e) && t in s.tasks && c in s.caps && s.caps[c].running == None
    requires (e == CheckWorker(t) && s.tasks[t].pc == WorkerWoken(c) && s.tasks[t].cap == c && s.tasks[t].kind != Bound
              && s.caps[c].spare != [] && s.caps[c].spare[0] == u)
             || (e == CheckReturn(t) && s.tasks[t].pc == ReturnWoken(c)
                 && s.caps[c].returning != [] && s.caps[c].returning[0] == u)
    requires t != u
    ensures var r := Step(s, e); u in r.tasks && r.tasks[u].wakeup && r.caps == s.caps
  {
    hide NoLostWakeup;
    assert CapOk(s, c);
    if e.CheckWorker? { SpareWaits(s, c, 0); } else { HeadWaits(s, c); }
  }

  /** The first task of the queue of a free capability needs no one else: its own next steps take the capability,
      without a spurious wakeup. */
  lemma HeadCanTake(s: State, c: CapNo) returns (es: seq<Event>)
    requires Inv(s) && c in s.caps && s.caps[c].running == None && s.caps[c].returning != []
    ensures |es| <= 2
    ensures forall e | e in es ::
              e == CheckReturn(s.caps[c].returning[0]) || e == WakeReturn(s.caps[c].returning[0], false)
    ensures Legal(s, es) && c in Run(s, es).caps
    ensures Run(s, es).caps[c].running == Some(s.caps[c].returning[0])
    ensures Run(s, es).caps[c].returning == s.caps[c].returning[1..]
  {
    hide CapOk, TaskOk, NoLostWakeup, CheckReturnStep, Legal, Run;
    var t := s.caps[c].returning[0];
    HeadIsTold(s, c);
    var last := CheckReturn(t);
    if s.tasks[t].pc == ReturnWoken(c) {
      HeadTakes(s, t, c);
      RunOne(s, last);
      es := [last];
    } else {
      var first := WakeReturn(t, false);
      HeadTakes(Step(s, first), t, c);
      RunOne(Step(s, first), last);
      RunMore(s, first, [last]);
      es := [first] + [last];
    }
  }

  lemma RunOne(s: State, e: Event)
    requires Enabled(s, e)
    ensures Legal(s, [e]) && Run(s, [e]) == Step(s, e)
  {
    assert [e][1..] == [] && Legal(Step(s, e), []) && Run(Step(s, e), []) == Step(s, e);
  }

  lemma RunMore(s: State, e: Event, es: seq<Event>)
    requires Enabled(s, e) && Legal(Step(s, e), es)
    ensures Legal(s, [e] + es) && Run(s, [e] + es) == Run(Step(s, e), es)
  {
    assert ([e] + es)[1..] == es;
  }

  lemma HeadIsTold(s: State, c: CapNo)
    requires Inv(s) && c in s.caps && s.caps[c].running == None && s.caps[c].returning != []
    ensures WaitsToReturn(s, s.caps[c].returning[0], c) && Told(s, c, s.caps[c].returning[0])
  {
    hide CapOk, TaskOk;
    HeadWaits(s, c);
    assert HeadTold(s, c);
  }

  lemma HeadTakes(s: State, t: TaskId, c: CapNo)
    requires c in s.caps && s.caps[c].running == None && s.caps[c].returning != [] && s.caps[c].returning[0] == t
    requires t in s.tasks && s.tasks[t].pc == ReturnWoken(c)
    ensures Enabled(s, CheckReturn(t)) && c in Step(s, CheckReturn(t)).caps
    ensures Step(s, CheckReturn(t)).caps[c].running == Some(t)
    ensures Step(s, CheckReturn(t)).caps[c].returning == s.caps[c].returning[1..]
  {
  }

  /** The queue is first in, first out: a step appends to it, or takes its head, who becomes the owner. */
  lemma QueueIsFifo(s: State, e: Event, c: CapNo)
    requires Enabled(s, e) && c in s.caps
    ensures c in Step(s, e).caps
    ensures var q, q' := s.caps[c].returning, Step(s, e).caps[c].returning;
            || q' == q
            || q' == q + [e.t]
            || (q != [] && q' == q[1..] && q[0] == e.t && Step(s, e).caps[c].running == Some(e.t))
  {
    hide Dispatch, Choose, YieldStep, ProdStep;
    match e
    case ReleaseCap(t, d, env, w) => ReleaseQueues(s, t, d, env, w, c);
    case YieldLocked(t, env, w) => YieldQueues(s, t, env, w, c);
    case Prod(t, d, env, w) => ProdQueues(s, t, d, env, w, c);
    case _ =>
  }

  lemma ReleaseQueues(s: State, t: TaskId, d: CapNo, env: Env<TaskId>, w: TaskId, c: CapNo)
    requires t in s.tasks && d in s.caps && c in s.caps
    ensures Release(s, t, d, env, w).caps.Keys == s.caps.Keys
    ensures Release(s, t, d, env, w).caps[c].returning == s.caps[c].returning
    ensures t in Release(s, t, d, env, w).tasks
  {
  }

  lemma ProdQueues(s: State, t: TaskId, d: CapNo, env: Env<TaskId>, w: TaskId, c: CapNo)
    requires t in s.tasks && d in s.caps && c in s.caps
    ensures c in ProdStep(s, t, d, env, w).caps && ProdStep(s, t, d, env, w).caps[c].returning == s.caps[c].returning
  {
    hide Release;
    if s.caps[d].running == None {
      ReleaseQueues(SetCap(s, d, s.caps[d].(running := Some(t))), t, d, env, w, c);
    }
  }

  lemma YieldQueues(s: State, t: TaskId, env: Env<TaskId>, w: TaskId, c: CapNo)
    requires t in s.tasks && s.tasks[t].pc.Yielding? && s.tasks[t].pc.cap in s.caps && w !in s.tasks && c in s.caps
    ensures var s' := YieldStep(s, t, env, w);
            c in s'.caps && (s'.caps[c].returning == s.caps[c].returning
                || s'.caps[c].returning == s.caps[c].returning + [t])
  {
    hide Release;
    var d := s.tasks[t].pc.cap;
    ReleaseQueues(Goto(SetCap(s, d, s.caps[d].(spare := [t] + s.caps[d].spare)), t, WorkerSleep), t, d, env, w, c);
    ReleaseQueues(Goto(s, t, Stopped), t, d, env, w, c);
    ReleaseQueues(Goto(s, t, WorkerSleep), t, d, env, w, c);
    ReleaseQueues(Goto(s, t, Outside), t, d, env, w, c);
  }

  /** The yield of a task that is neither a worker nor bound is safe exactly when someone is already on the way:
      another task is queued, or the release starts a worker. */
  lemma PlainYieldExact(s: State, t: TaskId, env: Env<TaskId>, w: TaskId)
    requires Inv(s) && t in s.tasks && s.tasks[t].pc.Yielding? && s.tasks[t].kind == Plain && EnvOk(s, t, env, w)
    ensures s.tasks[t].pc.cap in s.caps
    ensures NoLostWakeup(YieldStep(s, t, env, w)) <==> SureToBeWoken(s.caps[s.tasks[t].pc.cap], env)
  {
    hide CapOk;
    var c := s.tasks[t].pc.cap;
    assert TaskOk(s, t);
    var r := Release(Goto(s, t, Outside), t, c, env, w);
    if SureToBeWoken(s.caps[c], env) {
      YieldKeeps(s, t, env, w);
    } else {
      if s.caps[c].spare != [] { SpareWaits(s, c, 0); }
      assert r.caps[c].running == None && r.caps[c].returning == [] && !r.tasks[t].wakeup;
      assert !HeadTold(YieldStep(s, t, env, w), c);
    }
  }

  /** It does lose a wakeup when nobody is: after a run that takes the capability and yields it while a sync is
      pending, the task waits on the queue of a free capability, told nothing. */
  lemma PlainYieldCanStrand()
    ensures var s0 := State(map[0 := Cap(None, [], [])], map[0 := Task(Outside, false, 0, Plain, {})]);
            var es := [Want(0, 0), Enter(0), Yield(0, 0)];
            var env := Env(true, None, false, false);
            && Initial(s0) && Legal(s0, es)
            && var s := Run(s0, es);
               && 0 in s.tasks && s.tasks[0].pc == Yielding(0) && s.tasks[0].kind == Plain
               && 0 in s.caps && EnvOk(s, 0, env, 1)
               && !NoLostWakeup(YieldStep(s, 0, env, 1))
  {
    var s0 := State(map[0 := Cap(None, [], [])], map[0 := Task(Outside, false, 0, Plain, {})]);
    var es := [Want(0, 0), Enter(0), Yield(0, 0)];
    var s1 := Step(s0, es[0]);
    var s2 := Step(s1, es[1]);
    var s := Step(s2, es[2]);
    assert es[1..] == [Enter(0), Yield(0, 0)] && es[1..][1..] == [Yield(0, 0)] && es[1..][1..][1..] == [];
    assert Legal(s2, [Yield(0, 0)]) && Run(s2, [Yield(0, 0)]) == s;
    assert Legal(s1, [Enter(0), Yield(0, 0)]) && Run(s1, [Enter(0), Yield(0, 0)]) == s;
    assert !HeadTold(YieldStep(s, 0, Env(true, None, false, false), 1), 0);
  }
}
