/** The queues of a capability (rts/Capability.c): the linked lists behind each critical section of the protocol. */
module Capability {
  import opened CapabilityProtocol
  import opened LinkedLists
  import opened Options

  /** The part of a Task that the capability code touches. */
  class TaskRecord {
    var next: TaskRecord?
    var wakeup: bool
    var cap: Capability?
    var bound: bool        // incall->tso != NULL
    var stopped: bool

    constructor (cap: Capability?, bound: bool)
      ensures next == null && !wakeup && this.cap == cap && this.bound == bound && !stopped
    {
      next, wakeup, stopped := null, false, false;
      this.cap, this.bound := cap, bound;
    }
  }

  function OptTask(t: TaskRecord?): Option<TaskRecord> {
    if t == null then None else Some(t)
  }

  // ----- Singly linked task lists -----

  /** Following `next` from `h` visits exactly `ts` and then stops at `stop`. */
  ghost predicate Listed(h: TaskRecord?, ts: seq<TaskRecord>, stop: TaskRecord?)
    reads ts`next
    decreases |ts|
  {
    if ts == [] then h == stop else h == ts[0] && Listed(ts[0].next, ts[1..], stop)
  }

  lemma {:induction false} ListedSplit(h: TaskRecord?, a: seq<TaskRecord>, b: seq<TaskRecord>, stop: TaskRecord?)
    ensures Listed(h, a + b, stop) <==>
            Listed(h, a, if b == [] then stop else b[0]) && Listed(if b == [] then stop else b[0], b, stop)
    decreases |a|
  {
    if a == [] {
      assert a + b == b;
    } else {
      assert (a + b)[1..] == a[1..] + b;
      ListedSplit(a[0].next, a[1..], b, stop);
    }
  }

  /** Appending a task at the tail of a list. */
  method Append(h: TaskRecord, tl: TaskRecord, task: TaskRecord, ghost q: seq<TaskRecord>)
    requires Listed(h, q, null) && NoDup(q) && q != [] && tl == q[|q| - 1] && task !in q && task.next == null
    modifies tl`next
    ensures Listed(h, q + [task], null)
  {
    ghost var init := q[..|q| - 1];
    assert q == init + [tl];
    ListedSplit(h, init, [tl], null);
    NotBefore(init, tl);
    tl.next := task;
    assert [tl, task][1..] == [task] && [task][1..] == [];
    ListedSplit(h, init, [tl, task], null);
    assert q + [task] == init + [tl, task];
  }

  lemma {:induction false} NotBefore<T>(a: seq<T>, x: T)
    requires NoDup(a + [x])
    ensures x !in a
    decreases a
  {
    if a != [] {
      assert (a + [x])[1..] == a[1..] + [x];
      assert (a + [x])[1..][|a| - 1] == x;
      NotBefore(a[1..], x);
    }
  }

  class Capability {
    var runningTask: TaskRecord?
    var returningHd: TaskRecord?
    var returningTl: TaskRecord?
    var nReturningTasks: int
    var spareWorkers: TaskRecord?
    var nSpareWorkers: int

    ghost var returning: seq<TaskRecord>
    ghost var spare: seq<TaskRecord>

    /** The two lists are well-formed and share no task, and the counters are their lengths. */
    ghost predicate Valid()
      reads this, returning`next, spare`next
    {
      && Listed(returningHd, returning, null) && nReturningTasks == |returning|
      && returningTl == (if returning == [] then null else returning[|returning| - 1])
      && Listed(spareWorkers, spare, null) && nSpareWorkers == |spare|
      && NoDup(returning) && NoDup(spare) && forall t | t in returning :: t !in spare
    }

    ghost function View(): Cap<TaskRecord>
      reads this
    {
      Cap(OptTask(runningTask), returning, spare)
    }

    constructor ()
      ensures Valid() && View() == Cap(None, [], [])
    {
      runningTask, returningHd, returningTl, spareWorkers := null, null, null, null;
      nReturningTasks, nSpareWorkers := 0, 0;
      returning, spare := [], [];
    }

    // ----- The returning queue -----

    method NewReturningTask(task: TaskRecord)
      requires Valid() && task.next == null && task !in returning && task !in spare
      modifies this`returningHd, this`returningTl, this`nReturningTasks, this`returning
      modifies if returningTl == null then {} else {returningTl}`next
      ensures Valid() && View() == old(View()).(returning := old(returning) + [task])
    {
      ghost var q := returning;
      NoDupSnoc(q, task);
      assert q != [] ==> q[|q| - 1] in q;
      if returningHd != null {
        Append(returningHd, returningTl, task, q);
      } else {
        returningHd := task;
        assert q + [task] == [task];
      }
      returningTl := task;
      nReturningTasks := nReturningTasks + 1;
      returning := q + [task];
    }

    method PopReturningTask() returns (task: TaskRecord)
      requires Valid() && returningHd != null
      modifies this`returningHd, this`returningTl, this`nReturningTasks, this`returning, returningHd`next
      ensures Valid() && old(returning) == [task] + returning && task.next == null
      ensures View() == old(View()).(returning := returning)
    {
      task := returningHd;
      assert task == returning[0] && task in returning;
      ListTail(returning);
      returningHd := task.next;
      if returningHd == null {
        returningTl := null;
      }
      task.next := null;
      nReturningTasks := nReturningTasks - 1;
      returning := returning[1..];
    }

    // ----- Handing over -----

    /** giveCapabilityToTask: the wakeup flag is sticky. */
    method GiveCapabilityToTask(task: TaskRecord)
      modifies task`wakeup
      ensures task.wakeup
    {
      if !task.wakeup {
        task.wakeup := true;
      }
    }

    /** releaseCapability_. The environment is what the code reads besides the capability; `worker` is the record
        that startWorkerTask would make. */
    method ReleaseCapability(env: Env<TaskRecord>, alwaysWakeup: bool,
        worker: TaskRecord) returns (ghost h: Handoff<TaskRecord>)
      requires Valid()
      modifies this`runningTask, (Candidates(View(), env))`wakeup, worker`cap, worker`stopped
      ensures h == Choose(old(View()), env.(work := alwaysWakeup || env.work))
      ensures Valid() && View() == old(View()).(running := if h.NewWorker? then Some(worker) else None)
      ensures h.Given? ==> h.task.wakeup
      ensures forall t | t in Candidates(old(View()), env) && (h.Given? ==> t != h.task) :: t.wakeup == old(t.wakeup)
      ensures h.NewWorker? ==> worker.cap == this && !worker.stopped
      ensures old(returning) != [] ==> old(returning)[0].wakeup && runningTask == null
      ensures old(returning) == [] && env.sync ==>
                runningTask == null && forall t | t in Candidates(old(View()), env) :: t.wakeup == old(t.wakeup)
      ensures old(returning) == [] && !env.sync && env.bound.Some? ==> env.bound.value.wakeup && runningTask == null
      ensures old(returning) == [] && !env.sync && env.bound.None? && old(spare) == [] ==>
                if env.mayStart then runningTask == worker && worker.cap == this && !worker.stopped
                else runningTask == null
      ensures old(returning) == [] && !env.sync && env.bound.None? && old(spare) != [] ==>
                && runningTask == null
                && (if alwaysWakeup || env.work then old(spare)[0].wakeup
                    else old(spare)[0].wakeup == old(spare[0].wakeup))
    {
      ListedHead(returningHd, returning);
      ListedHead(spareWorkers, spare);
      h := LeftFree;
      runningTask := null;
      if nReturningTasks != 0 {
        GiveCapabilityToTask(returningHd);
        return Given(returning[0]);
      }
      if env.sync {
        return;
      }
      if env.bound.Some? {
        GiveCapabilityToTask(env.bound.value);
        return Given(env.bound.value);
      }
      if spareWorkers == null {
        if env.mayStart {
          worker.stopped := false;
          worker.cap := this;
          runningTask := worker;
          return NewWorker;
        }
      }
      if alwaysWakeup || env.work {
        if spareWorkers != null {
          GiveCapabilityToTask(spareWorkers);
          return Given(spare[0]);
        }
      }
    }

    /** The worker that runs gives up: it joins the spare workers, unless there are enough of them already. */
    method EnqueueWorker(env: Env<TaskRecord>, worker: TaskRecord) returns (queued: bool)
      requires Valid() && runningTask != null && runningTask !in returning && runningTask !in spare
               && runningTask.next == null
      modifies this, runningTask`next, runningTask`stopped, (Candidates(View(), env))`wakeup, worker`cap, worker`stopped
      ensures Valid() && queued == (old(|spare|) < MAX_SPARE_WORKERS)
      ensures queued ==> View() == old(View()).(spare := [old(runningTask)] + old(spare))
      ensures !queued ==>
                && View() == old(View()).(running := if Choose(old(View()), env).NewWorker? then Some(worker) else None)
                && old(runningTask).stopped
    {
      var task := runningTask;
      if nSpareWorkers < MAX_SPARE_WORKERS {
        task.next := spareWorkers;
        spareWorkers := task;
        nSpareWorkers := nSpareWorkers + 1;
        spare := [task] + spare;
        assert spare[1..] == old(spare);
        return true;
      } else {
        ghost var h := ReleaseCapability(env, false, worker);
        task.stopped := true;   // workerTaskStop; the thread then exits
        return false;
      }
    }

    // ----- Critical sections -----

    /** The critical section of waitForCapability. */
    method Enter(task: TaskRecord) returns (took: bool)
      requires Valid() && task.next == null && task !in returning && task !in spare
      modifies this`runningTask, this`returningHd, this`returningTl, this`nReturningTasks, this`returning,
               returning`next
      ensures Valid() && (View(), if took then Took else Queued) == EnterCap(old(View()), task)
      ensures if old(runningTask) == null then took && runningTask == task && returning == old(returning)
              else !took && runningTask == old(runningTask) && returning == old(returning) + [task]
    {
      if runningTask == null {
        runningTask := task;
        return true;
      }
      assert returning != [] ==> returning[|returning| - 1] in returning;
      NewReturningTask(task);
      return false;
    }

    /** The critical section of waitForReturnCapability. */
    method CheckReturn(task: TaskRecord) returns (took: bool, ghost told: Option<TaskRecord>)
      requires Valid() && task in returning
      modifies this`runningTask, this`returningHd, this`returningTl, this`nReturningTasks, this`returning
      modifies task`next, {returning[0]}`wakeup
      ensures Valid() && (View(), if took then Took else if told.Some? then Passed(told.value) else Retry)
              == CheckReturnCap(old(View()), task)
      ensures told.Some? ==> told.value.wakeup
      ensures took <==> old(runningTask) == null && old(returning)[0] == task
      ensures took ==> runningTask == task && returning == old(returning)[1..]
      ensures !took ==> View() == old(View())
      ensures old(runningTask) == null && !took ==> old(returning)[0].wakeup
    {
      ListedHead(returningHd, returning);
      told := None;
      if runningTask == null {
        if returningHd != task {
          GiveCapabilityToTask(returningHd);
          return false, Some(returning[0]);
        }
        runningTask := task;
        var popped := PopReturningTask();
        return true, None;
      }
      return false, None;
    }

    /** The critical section of waitForWorkerCapability. */
    method CheckWorker(task: TaskRecord) returns (took: bool, ghost told: Option<TaskRecord>)
      requires Valid() && (!task.bound && task.cap == this ==> task in spare)
      modifies this`runningTask, this`spareWorkers, this`nSpareWorkers, this`spare
      modifies task`next, (if spare == [] then {} else {spare[0]})`wakeup
      ensures Valid()
      ensures (View(), if took then Took else if told.Some? then Passed(told.value) else Retry)
              == CheckWorkerCap(old(View()), task, old(task.cap) == this, task.bound)
      ensures told.Some? ==> told.value.wakeup
      ensures took <==> old(runningTask) == null && task.cap == this && (task.bound || old(spare)[0] == task)
      ensures took ==> runningTask == task && spare == if task.bound then old(spare) else old(spare)[1..]
      ensures !took ==> View() == old(View())
      ensures old(runningTask) == null && task.cap == this && !took ==> old(spare)[0].wakeup
    {
      ListedHead(spareWorkers, spare);
      told := None;
      if runningTask != null {
        return false, None;
      }
      if task.cap != this {
        return false, None;
      }
      if !task.bound {
        if spareWorkers != task {
          GiveCapabilityToTask(spareWorkers);
          return false, Some(spare[0]);
        }
        ListTail(spare);
        assert task in spare;
        spareWorkers := task.next;
        task.next := null;
        nSpareWorkers := nSpareWorkers - 1;
        spare := spare[1..];
      }
      runningTask := task;
      return true, None;
    }

    /** tryGrabCapability, when its try at the lock succeeds. */
    method TryGrabCapability(task: TaskRecord) returns (r: bool)
      requires Valid()
      modifies this`runningTask, task`cap
      ensures Valid() && r == (old(runningTask) == null) && (r ==> task.cap == this)
      ensures View() == if r then old(View()).(running := Some(task)) else old(View())
    {
      if runningTask != null {
        return false;
      }
      task.cap := this;
      runningTask := task;
      return true;
    }

    /** prodCapability (which always wakes someone) and the hand-off of sendMessage (which need not). */
    method Prod(task: TaskRecord, env: Env<TaskRecord>, alwaysWakeup: bool, worker: TaskRecord)
      requires Valid()
      modifies this`runningTask, (Candidates(View(), env))`wakeup, worker`cap, worker`stopped
      ensures Valid()
      ensures old(runningTask) != null ==> View() == old(View())
      ensures old(runningTask) == null ==>
                var h := Choose(old(View()), env.(work := alwaysWakeup || env.work));
                View() == old(View()).(running := if h.NewWorker? then Some(worker) else None)
                && (h.Given? ==> h.task.wakeup)
    {
      if runningTask == null {
        runningTask := task;
        ghost var h := ReleaseCapability(env, alwaysWakeup, worker);
      }
    }
  }

  // ----- What the critical sections do to a capability, and how the protocol sees it -----

  datatype Outcome<T> = Took | Queued | Passed(to: T) | Retry

  function EnterCap<T>(c: Cap<T>, t: T): (Cap<T>, Outcome<T>) {
    if c.running == None then (c.(running := Some(t)), Took) else (c.(returning := c.returning + [t]), Queued)
  }

  function CheckReturnCap<T(==)>(c: Cap<T>, t: T): (Cap<T>, Outcome<T>) {
    if c.running != None || c.returning == [] then (c, Retry)
    else if c.returning[0] != t then (c, Passed(c.returning[0]))
    else (c.(running := Some(t), returning := c.returning[1..]), Took)
  }

  /** `here`: the task is still assigned to this capability; `bound`: it is not on the spare stack. */
  function CheckWorkerCap<T(==)>(c: Cap<T>, t: T, here: bool, bound: bool): (Cap<T>, Outcome<T>) {
    if c.running != None || !here then (c, Retry)
    else if bound then (c.(running := Some(t)), Took)
    else if c.spare == [] then (c, Retry)
    else if c.spare[0] != t then (c, Passed(c.spare[0]))
    else (c.(running := Some(t), spare := c.spare[1..]), Took)
  }

  /** The state after a critical section of `t` on `c` that leaves the capability as `v`. */
  function After(s: State, t: TaskId, c: CapNo, v: Cap<TaskId>, o: Outcome<TaskId>, sleep: Pc): State
    requires t in s.tasks && c in s.caps
  {
    var k := s.tasks[t];
    var s1 := SetCap(s, c, v);
    match o
    case Took => SetTask(s1, t, k.(pc := Outside, owned := k.owned + {c}))
    case Queued => Goto(s1, t, sleep)
    case Retry => Goto(s1, t, sleep)
    case Passed(u) => var s2 := Goto(s1, t, sleep); if u in s2.tasks then Give(s2, u) else s2
  }

  /** The steps of the protocol are these critical sections. */
  lemma EnterAgrees(s: State, t: TaskId)
    requires t in s.tasks && s.tasks[t].pc.Wanting? && s.tasks[t].pc.cap in s.caps
    ensures var c := s.tasks[t].pc.cap; var (v, o) := EnterCap(s.caps[c], t);
            EnterStep(s, t) == After(s, t, c, v, o, ReturnSleep)
  {
  }

  lemma CheckReturnAgrees(s: State, t: TaskId)
    requires t in s.tasks && s.tasks[t].pc.ReturnWoken? && s.tasks[t].pc.cap in s.caps
    ensures var c := s.tasks[t].pc.cap; var (v, o) := CheckReturnCap(s.caps[c], t);
            CheckReturnStep(s, t) == After(s, t, c, v, o, ReturnSleep)
  {
    SetCapSame(s, s.tasks[t].pc.cap);
    SetCapTwice(s, s.tasks[t].pc.cap);
  }

  lemma CheckWorkerAgrees(s: State, t: TaskId)
    requires t in s.tasks && s.tasks[t].pc.WorkerWoken? && s.tasks[t].pc.cap in s.caps
    ensures var c, k := s.tasks[t].pc.cap, s.tasks[t]; var (v, o) := CheckWorkerCap(s.caps[c], t, k.cap == c,
            k.kind == Bound);
            CheckWorkerStep(s, t) == After(s, t, c, v, o, WorkerSleep)
  {
    SetCapSame(s, s.tasks[t].pc.cap);
    SetCapTwice(s, s.tasks[t].pc.cap);
  }

  lemma SetCapSame(s: State, c: CapNo)
    requires c in s.caps
    ensures SetCap(s, c, s.caps[c]) == s
  {
    assert s.caps[c := s.caps[c]] == s.caps;
  }

  lemma SetCapTwice(s: State, c: CapNo)
    ensures forall v, w :: SetCap(SetCap(s, c, v), c, w) == SetCap(s, c, w)
  {
    forall v, w ensures SetCap(SetCap(s, c, v), c, w) == SetCap(s, c, w) {
      assert s.caps[c := v][c := w] == s.caps[c := w];
    }
  }

  /** The tasks that a release might wake. */
  ghost function Candidates(c: Cap<TaskRecord>, env: Env<TaskRecord>): set<TaskRecord> {
    (if c.returning == [] then {} else {c.returning[0]})
    + (if env.bound.Some? then {env.bound.value} else {})
    + (if c.spare == [] then {} else {c.spare[0]})
  }

  lemma ListedHead(h: TaskRecord?, ts: seq<TaskRecord>)
    requires Listed(h, ts, null)
    ensures h == if ts == [] then null else ts[0]
  {
  }

  lemma {:induction false} NoDupSnoc<T>(s: seq<T>, x: T)
    requires NoDup(s) && x !in s
    ensures NoDup(s + [x])
    decreases s
  {
    if s != [] {
      NoDupSnoc(s[1..], x);
      assert (s + [x])[1..] == s[1..] + [x];
    }
  }

  lemma ListTail<T>(q: seq<T>)
    requires NoDup(q)
    ensures q != [] ==> q == [q[0]] + q[1..] && q[0] !in q[1..] && NoDup(q[1..])
  {
  }
}
