/** Exceptions thrown between threads of several capabilities (rts/RaiseAsync.c, rts/Messages.c): a step for each lock
    that is taken or given back and for each message that moves. */
module ThrowTo {
  import opened Options
  import opened Sequences

  type CapId = nat
  type Tid = nat

  /** A message is named by its address. */
  type Mid = nat

  datatype Header = MSG_THROWTO | MSG_NULL

  /** Where a message is. This is what the queues and the local variables say; see AtPlace. */
  datatype Place = InInbox(cap: CapId) | InQueue(thread: Tid) | InHand(cap: CapId) | Gone

  /** `lock` is the capability that has the WHITEHOLE in the header; `raised` counts how often the exception was
      raised. */
  datatype Msg = Msg(source: Tid, target: Tid, header: Header, lock: Option<CapId>, raised: nat, place: Place)

  datatype Why = NotBlocked | OnThrowTo(msg: Mid) | Interruptible | OnBlackHole | InCCall | Migrating

  datatype Thread = Thread(cap: CapId, dead: bool, blockex: bool, interruptible: bool, why: Why, queue: seq<Mid>)

  /** What a capability is doing. `exec` tells executeMessage from throwTo. */
  datatype Pc =
    | Idle
    | Handling(m: Mid)                                // executeMessage, before it locks the message
    | Looking(m: Mid)                                 // executeMessage, with the message locked
    | Throwing(m: Mid, exec: bool)                    // throwToMsg
    | Spinning(m: Mid, other: Mid, exec: bool)        // throwToMsg: waits for the target's own message
    | Claimed(m: Mid, other: Mid, exec: bool)         // throwToMsg: has locked both
    | Waking(m: Mid, other: Mid, exec: bool)          // throwToMsg: tryWakeupThread waits for the target's own message
    | Placed(m: Mid, exec: bool)                      // throwToMsg has returned THROWTO_BLOCKED
    | Returning(m: Mid)                               // the source is blocked on the message, which is still locked
    | Performing(t: Tid, held: Option<Mid>)           // maybePerformBlockedException, perhaps from threadPaused
    | Awakening(t: Tid)                               // awakenBlockedExceptionQueue

  datatype Cap = Cap(inbox: seq<Mid>, pc: Pc)

  datatype State = State(caps: map<CapId, Cap>, threads: map<Tid, Thread>, msgs: map<Mid, Msg>)

  // ----- What a capability holds, waits for and has in hand -----

  function Holds(pc: Pc): set<Mid> {
    match pc
    case Idle | Handling(_) | Awakening(_) => {}
    case Looking(m) => {m}
    case Throwing(m, _) => {m}
    case Spinning(m, _, _) => {m}
    case Claimed(m, other, _) => {m, other}
    case Waking(m, _, _) => {m}
    case Placed(m, _) => {m}
    case Returning(m) => {m}
    case Performing(_, held) => if held.Some? then {held.value} else {}
  }

  function Wants(s: State, pc: Pc): Option<Mid> {
    match pc
    case Handling(m) => Some(m)
    case Spinning(_, other, _) => Some(other)
    case Waking(_, other, _) => Some(other)
    case Performing(t, _) => FirstBlocked(s, t)
    case Awakening(t) => FirstBlocked(s, t)
    case _ => None
  }

  function FirstBlocked(s: State, t: Tid): Option<Mid> {
    if t in s.threads && s.threads[t].queue != [] then Some(s.threads[t].queue[0]) else None
  }

  function Hand(pc: Pc): Option<Mid> {
    match pc
    case Handling(m) => Some(m)
    case Looking(m) => Some(m)
    case Throwing(m, _) => Some(m)
    case Spinning(m, _, _) => Some(m)
    case Claimed(m, _, _) => Some(m)
    case Waking(m, _, _) => Some(m)
    case _ => None
  }

  /** A message really is at a place. */
  predicate AtPlace(s: State, m: Mid, p: Place) {
    match p
    case InInbox(c) => c in s.caps && m in s.caps[c].inbox
    case InQueue(t) => t in s.threads && m in s.threads[t].queue
    case InHand(c) => c in s.caps && Hand(s.caps[c].pc) == Some(m)
    case Gone => false
  }

  // ----- The invariant -----

  predicate Locked(s: State, m: Mid, c: CapId) {
    m in s.msgs && s.msgs[m].lock == Some(c)
  }

  /** `c` has locked the message and has yet to raise its exception or to pass it on. */
  predicate Mine(s: State, m: Mid, c: CapId) {
    Locked(s, m, c) && s.msgs[m].place == InHand(c) && s.msgs[m].header == MSG_THROWTO
  }

  /** `c` has passed the message on, but has not unlocked it yet. */
  predicate Passed(s: State, m: Mid, c: CapId) {
    && Locked(s, m, c) && s.msgs[m].place != InHand(c) && s.msgs[m].header == MSG_THROWTO && s.msgs[m].place != Gone
    && (s.msgs[m].place.InQueue? ==> s.msgs[m].place.thread in s.threads && s.threads[s.msgs[m].place.thread].cap == c)
  }

  /** The target of `m` belongs to `c`, is alive, and is itself blocked on `other`. */
  predicate TargetBlockedOn(s: State, m: Mid, other: Mid, c: CapId) {
    && m in s.msgs && other in s.msgs && s.msgs[m].target in s.threads
    && s.threads[s.msgs[m].target].cap == c && s.threads[s.msgs[m].target].why == OnThrowTo(other)
    && !s.threads[s.msgs[m].target].dead
  }

  predicate Owns(s: State, t: Tid, c: CapId) {
    t in s.threads && s.threads[t].cap == c
  }

  /** throwTo runs on the capability of the source, which is not blocked yet. */
  predicate SourceHere(s: State, m: Mid, exec: bool, c: CapId)
    requires m in s.msgs
  {
    !exec ==> Owns(s, s.msgs[m].source, c) && s.threads[s.msgs[m].source].why == NotBlocked
  }

  /** Exceptions may be raised in the thread: it is alive, and unmasked or interruptible and in an operation that can be
      interrupted. */
  predicate CanTake(th: Thread) {
    !th.dead && (!th.blockex || (th.interruptible && (th.why == Interruptible || th.why.OnThrowTo?)))
  }

  predicate PcOk(s: State, c: CapId, pc: Pc) {
    match pc
    case Idle => true
    case Handling(m) => m in s.msgs && s.msgs[m].place == InHand(c)
    case Looking(m) => Locked(s, m, c) && s.msgs[m].place == InHand(c)
    case Throwing(m, exec) => Mine(s, m, c) && SourceHere(s, m, exec, c)
    case Spinning(m, other, exec) => Mine(s, m, c) && SourceHere(s, m, exec, c) && other < m
        && TargetBlockedOn(s, m, other, c)
    case Claimed(m, other, exec) => Mine(s, m, c) && SourceHere(s, m, exec, c) && Locked(s, other, c)
        && TargetBlockedOn(s, m, other, c)
    case Waking(m, other, exec) =>
      Mine(s, m, c) && SourceHere(s, m, exec, c) && TargetBlockedOn(s, m, other, c) && s.msgs[other].header == MSG_NULL
    case Placed(m, exec) => Passed(s, m, c) && SourceHere(s, m, exec, c)
    case Returning(m) => Passed(s, m, c) && Owns(s, s.msgs[m].source, c)
        && s.threads[s.msgs[m].source].why == OnThrowTo(m)
    case Performing(t, held) =>
      && Owns(s, t, c) && CanTake(s.threads[t]) && (held.None? ==> !s.threads[t].why.OnThrowTo?)
      && (held.Some? ==>
                Passed(s, held.value, c) && s.msgs[held.value].source == t && s.threads[t].why == OnThrowTo(held.value))
    case Awakening(t) => Owns(s, t, c)
  }

  predicate CapOk(s: State, c: CapId)
    requires c in s.caps
  {
    InboxOk(s, c, s.caps[c].inbox) && PcOk(s, c, s.caps[c].pc)
  }

  predicate InboxOk(s: State, c: CapId, inbox: seq<Mid>) {
    Distinct(inbox) && forall m | m in inbox :: m in s.msgs && s.msgs[m].place == InInbox(c)
  }

  predicate ThreadOk(s: State, t: Tid)
    requires t in s.threads
  {
    var th := s.threads[t];
    && th.cap in s.caps && Distinct(th.queue)
    && (forall m | m in th.queue :: m in s.msgs && s.msgs[m].place == InQueue(t) && s.msgs[m].target == t)
    && (th.why.OnThrowTo? ==> th.why.msg in s.msgs && s.msgs[th.why.msg].source == t && s.msgs[th.why.msg].target != t)
  }

  predicate MsgOk(s: State, m: Mid)
    requires m in s.msgs
  {
    var msg := s.msgs[m];
    && msg.source in s.threads && msg.target in s.threads && msg.raised <= 1
    && (msg.header == MSG_THROWTO && msg.place != Gone ==> msg.raised == 0)
    && (msg.lock.Some? ==> msg.lock.value in s.caps && m in Holds(s.caps[msg.lock.value].pc))
  }

  predicate Inv(s: State) {
    && (forall c | c in s.caps :: CapOk(s, c))
    && (forall t | t in s.threads :: ThreadOk(s, t))
    && (forall m | m in s.msgs :: MsgOk(s, m))
  }

  // ----- Updates -----

  function SetPc(s: State, c: CapId, pc: Pc): State
    requires c in s.caps
  {
    s.(caps := s.caps[c := s.caps[c].(pc := pc)])
  }

  function SetInbox(s: State, c: CapId, inbox: seq<Mid>): State
    requires c in s.caps
  {
    s.(caps := s.caps[c := s.caps[c].(inbox := inbox)])
  }

  function SetMsg(s: State, m: Mid, v: Msg): State {
    s.(msgs := s.msgs[m := v])
  }

  function SetThread(s: State, t: Tid, v: Thread): State {
    s.(threads := s.threads[t := v])
  }

  // ----- Steps -----

  datatype Action =
    | Create(m: Mid, source: Tid, target: Tid)          // throwTo allocates the message, locked
    | TargetDead
    | Send(to: CapId)                                   // throwToSendMsg
    | RaiseNow(dies: bool)                              // the target can take the exception
    | BlockOnTarget                                     // blockedThrowTo
    | Spin | TryLock                                    // the target is blocked on its own message
    | SpinLock                                          // the spinning ends
    | Revoked                                           // that message was MSG_NULL
    | Wake                                              // and its source is woken
    | ClaimedMasked                                     // the target is masked uninterruptibly
    | ClaimedRaise(dies: bool)                          // the target's message is revoked, and the exception raised
    | Migrated                                          // the target was migrating
    | BlockSource                                       // the source blocks on its message
    | Unlock                                            // the message can be received
    | Receive                                           // executeMessage gets a message
    | LockReceived | DropNull | ExecuteThrowTo
    | Perform(t: Tid) | PerformFromPause                // maybePerformBlockedException
    | PerformNull | PerformRaise(dies: bool) | PerformEnd
    | Awaken(t: Tid) | AwakenOne | AwakenEnd            // awakenBlockedExceptionQueue
    | SetFlags(t: Tid, blockex: bool, interruptible: bool) | Block(t: Tid, why: Why) | TryWakeup(t: Tid)
    | Migrate(t: Tid, to: CapId) | Finish(t: Tid)

  predicate Uninterruptible(th: Thread) { th.blockex && !th.interruptible }

  /** throwToMsg raises the exception right away. */
  predicate TakesException(th: Thread) {
    match th.why
    case NotBlocked | OnBlackHole => !th.blockex
    case Interruptible => !Uninterruptible(th)
    case _ => false
  }

  /** throwToMsg blocks the message on the target. */
  predicate BlocksException(th: Thread) {
    match th.why
    case NotBlocked | OnBlackHole => th.blockex
    case Interruptible => Uninterruptible(th)
    case InCCall => true
    case _ => false
  }

  /** THROWTO_SUCCESS: throwTo unlocks the message and drops it; executeMessage overwrites it. */
  function Finished(v: Msg, exec: bool, raised: bool): Msg {
    v.(header := if exec then MSG_NULL else v.header, lock := None, raised := v.raised + (if raised then 1 else 0),
        place := Gone)
  }

  /** raiseAsync, as far as it matters here */
  function Raised(th: Thread, dies: bool): Thread {
    th.(why := NotBlocked, dead := th.dead || dies)
  }

  function SendTo(s: State, c: CapId, m: Mid, to: CapId, exec: bool): State
    requires c in s.caps && to in s.caps && m in s.msgs
  {
    SetPc(SetInbox(SetMsg(s, m, s.msgs[m].(place := InInbox(to))), to, [m] + s.caps[to].inbox), c, Placed(m, exec))
  }

  function BlockOn(s: State, c: CapId, m: Mid, t: Tid, exec: bool): State
    requires c in s.caps && t in s.threads && m in s.msgs
  {
    SetPc(SetThread(SetMsg(s, m, s.msgs[m].(place := InQueue(t))), t,
        s.threads[t].(queue := [m] + s.threads[t].queue)), c, Placed(m, exec))
  }

  function LockMsg(s: State, m: Mid, lock: Option<CapId>): State
    requires m in s.msgs
  {
    SetMsg(s, m, s.msgs[m].(lock := lock))
  }

  function PopQueue(s: State, t: Tid): State
    requires t in s.threads && s.threads[t].queue != []
  {
    SetThread(s, t, s.threads[t].(queue := s.threads[t].queue[1..]))
  }

  /** The state after a step of `c`, if it can take that step. */
  function Step(s: State, c: CapId, a: Action): Option<State> {
    if c !in s.caps then None else
    match s.caps[c].pc
    case Idle => StepIdle(s, c, a)
    case Handling(m) =>
      if a == LockReceived && m in s.msgs && s.msgs[m].lock == None
          then Some(SetPc(LockMsg(s, m, Some(c)), c, Looking(m))) else None
    case Looking(m) => if m in s.msgs then StepLooking(s, c, a, m) else None
    case Throwing(m, exec) => if m in s.msgs && s.msgs[m].target in s.threads
        then StepThrowing(s, c, a, m, s.msgs[m].target, exec) else None
    case Spinning(m, other, exec) =>
      if a == SpinLock && other in s.msgs && s.msgs[other].lock == None
      then Some(SetPc(LockMsg(s, other, Some(c)), c, Claimed(m, other, exec))) else None
    case Claimed(m, other, exec) =>
      if m in s.msgs && other in s.msgs && s.msgs[m].target in s.threads
      then StepClaimed(s, c, a, m, other, s.msgs[m].target, exec) else None
    case Waking(m, other, exec) =>
      if a == Wake && m in s.msgs && other in s.msgs && s.msgs[other].lock == None && s.msgs[m].target in s.threads
      then Some(SetPc(SetThread(s, s.msgs[m].target, s.threads[s.msgs[m].target].(why := NotBlocked)), c,
          Throwing(m, exec)))
      else None
    case Placed(m, exec) => if m in s.msgs then StepPlaced(s, c, a, m, exec) else None
    case Returning(m) => if m in s.msgs then StepReturning(s, c, a, m) else None
    case Performing(t, held) => if t in s.threads then StepPerforming(s, c, a, t, held) else None
    case Awakening(t) => if t in s.threads then StepAwakening(s, c, a, t) else None
  }

  function StepIdle(s: State, c: CapId, a: Action): Option<State>
    requires c in s.caps
  {
    match a
    case Create(m, source, target) =>
      if m !in s.msgs && Owns(s, source, c) && target in s.threads && s.threads[source].why == NotBlocked
          && !s.threads[source].dead
      then Some(SetPc(SetMsg(s, m, Msg(source, target, MSG_THROWTO, Some(c), 0, InHand(c))), c, Throwing(m, false)))
          else None
    case Receive =>
      var inbox := s.caps[c].inbox;
      if inbox != [] && inbox[0] in s.msgs
      then Some(SetPc(SetInbox(SetMsg(s, inbox[0], s.msgs[inbox[0]].(place := InHand(c))), c, inbox[1..]), c,
          Handling(inbox[0]))) else None
    case Perform(t) =>
      if Owns(s, t, c) && s.threads[t].queue != [] && !s.threads[t].dead && !s.threads[t].why.OnThrowTo?
         && (!s.threads[t].blockex || (s.threads[t].interruptible && s.threads[t].why == Interruptible))
      then Some(SetPc(s, c, Performing(t, None))) else None
    case Awaken(t) => if Owns(s, t, c) && s.threads[t].dead then Some(SetPc(s, c, Awakening(t))) else None
    case SetFlags(t, b, i) =>
      if Owns(s, t, c) then Some(SetThread(s, t, s.threads[t].(blockex := b, interruptible := i))) else None
    case Block(t, why) =>
      if Owns(s, t, c) && s.threads[t].why == NotBlocked && !why.OnThrowTo?
          then Some(SetThread(s, t, s.threads[t].(why := why))) else None
    case TryWakeup(t) =>
      if Owns(s, t, c)
         && (s.threads[t].why.OnThrowTo? ==>
               s.threads[t].why.msg in s.msgs && s.msgs[s.threads[t].why.msg].lock == None
                   && s.msgs[s.threads[t].why.msg].header == MSG_NULL)
      then Some(SetThread(s, t, s.threads[t].(why := NotBlocked))) else None
    case Migrate(t, to) =>
      if Owns(s, t, c) && to in s.caps && s.threads[t].why == NotBlocked
      then Some(SetThread(s, t, s.threads[t].(cap := to, why := Migrating))) else None
    case Finish(t) =>
      if Owns(s, t, c) && s.threads[t].why == NotBlocked then Some(SetThread(s, t, s.threads[t].(dead := true)))
          else None
    case _ => None
  }

  function StepLooking(s: State, c: CapId, a: Action, m: Mid): Option<State>
    requires c in s.caps && m in s.msgs
  {
    if a == DropNull && s.msgs[m].header == MSG_NULL then Some(SetPc(SetMsg(s, m,
        s.msgs[m].(lock := None, place := Gone)), c, Idle))
    else if a == ExecuteThrowTo && s.msgs[m].header == MSG_THROWTO then Some(SetPc(s, c, Throwing(m, true)))
    else None
  }

  /** throwToMsg */
  function StepThrowing(s: State, c: CapId, a: Action, m: Mid, t: Tid, exec: bool): Option<State>
    requires c in s.caps && m in s.msgs && t in s.threads
  {
    var th := s.threads[t];
    if th.dead then
      if a == TargetDead then Some(SetPc(SetMsg(s, m, Finished(s.msgs[m], exec, false)), c, Idle)) else None
    else if th.cap != c then
      // the target may have moved on since its capability was read
      if a.Send? && a.to in s.caps && a.to != c then Some(SendTo(s, c, m, a.to, exec)) else None
    else if TakesException(th) then
      if a.RaiseNow? then Some(SetPc(SetThread(SetMsg(s, m, Finished(s.msgs[m], exec, true)), t, Raised(th, a.dies)),
          c, Idle)) else None
    else if BlocksException(th) then
      if a == BlockOnTarget then Some(BlockOn(s, c, m, t, exec)) else None
    else if th.why.OnThrowTo? then
      var other := th.why.msg;
      if other < m then if a == Spin then Some(SetPc(s, c, Spinning(m, other, exec))) else None
      else if a == TryLock && other in s.msgs then
        if s.msgs[other].lock == None then Some(SetPc(LockMsg(s, other, Some(c)), c, Claimed(m, other, exec)))
        else Some(SendTo(s, c, m, c, exec))
      else None
    else if a == Migrated then Some(SetThread(s, t, th.(why := NotBlocked)))
    else None
  }

  function StepClaimed(s: State, c: CapId, a: Action, m: Mid, other: Mid, t: Tid, exec: bool): Option<State>
    requires c in s.caps && m in s.msgs && other in s.msgs && t in s.threads
  {
    var th := s.threads[t];
    if s.msgs[other].header == MSG_NULL then
      if a == Revoked then Some(SetPc(LockMsg(s, other, None), c, Waking(m, other, exec))) else None
    else if Uninterruptible(th) then
      if a == ClaimedMasked then Some(BlockOn(LockMsg(s, other, None), c, m, t, exec)) else None
    else if a.ClaimedRaise? then
      var s1 := SetMsg(s, other, s.msgs[other].(header := MSG_NULL, lock := None));
      Some(SetPc(SetThread(SetMsg(s1, m, Finished(s1.msgs[m], exec, true)), t, Raised(th, a.dies)), c, Idle))
    else None
  }

  function StepPlaced(s: State, c: CapId, a: Action, m: Mid, exec: bool): Option<State>
    requires c in s.caps && m in s.msgs
  {
    var source := s.msgs[m].source;
    if exec || source == s.msgs[m].target then
      if a == Unlock then Some(SetPc(LockMsg(s, m, None), c, Idle)) else None
    else if a == BlockSource && source in s.threads then
      Some(SetPc(SetThread(s, source, s.threads[source].(why := OnThrowTo(m))), c, Returning(m)))
    else None
  }

  function StepReturning(s: State, c: CapId, a: Action, m: Mid): Option<State>
    requires c in s.caps && m in s.msgs
  {
    var t := s.msgs[m].source;
    if a == Unlock then Some(SetPc(LockMsg(s, m, None), c, Idle))
    else if a == PerformFromPause && t in s.threads && s.threads[t].queue != [] && !s.threads[t].dead
        && !Uninterruptible(s.threads[t])
    then Some(SetPc(s, c, Performing(t, Some(m))))
    else None
  }

  function StepPerforming(s: State, c: CapId, a: Action, t: Tid, held: Option<Mid>): Option<State>
    requires c in s.caps && t in s.threads
  {
    var q := s.threads[t].queue;
    if q == [] then
      if a == PerformEnd then Some(SetPc(s, c, if held.Some? then Returning(held.value) else Idle)) else None
    else if q[0] !in s.msgs || s.msgs[q[0]].lock != None || (held.Some?
        && (held.value !in s.msgs || held.value == q[0])) then None
    else if s.msgs[q[0]].header == MSG_NULL then
      if a == PerformNull then Some(PopQueue(SetMsg(s, q[0], s.msgs[q[0]].(place := Gone)), t)) else None
    else if a.PerformRaise? then
      var s1 := if held.Some? then SetMsg(s, held.value, s.msgs[held.value].(header := MSG_NULL, lock := None)) else s;
      var s2 := PopQueue(SetMsg(s1, q[0], Finished(s1.msgs[q[0]], true, true)), t);
      Some(SetPc(SetThread(s2, t, Raised(s2.threads[t], a.dies)), c, Idle))
    else None
  }

  function StepAwakening(s: State, c: CapId, a: Action, t: Tid): Option<State>
    requires c in s.caps && t in s.threads
  {
    var q := s.threads[t].queue;
    if q == [] then
      if a == AwakenEnd then Some(SetPc(s, c, Idle)) else None
    else if a == AwakenOne && q[0] in s.msgs && s.msgs[q[0]].lock == None then
      Some(PopQueue(SetMsg(s, q[0], Finished(s.msgs[q[0]], true, false)), t))
    else None
  }

  // ----- What one capability's step leaves alone -----

  /** A step of `c` as the others see it: it changes its own threads, and messages that no other capability has locked;
      of those it may take one out of its inbox. Messages are never forgotten, and MSG_NULL stays. */
  ghost predicate Frame(s: State, s': State, c: CapId) {
    && s'.caps.Keys == s.caps.Keys && s'.threads.Keys == s.threads.Keys && s.msgs.Keys <= s'.msgs.Keys
    && (forall d | d in s.caps && d != c :: s'.caps[d].pc == s.caps[d].pc)
    && (forall t | t in s.threads && s.threads[t].cap != c :: s'.threads[t] == s.threads[t])
    && (forall m | m in s.msgs :: MsgFrame(s, s.msgs[m], s'.msgs[m], c))
  }

  ghost predicate MsgFrame(s: State, v: Msg, v': Msg, c: CapId) {
    && v'.source == v.source && v'.target == v.target && (v.header == MSG_NULL ==>
        v'.header == MSG_NULL && v'.raised == v.raised)
    && (v.lock.Some? && v.lock.value != c ==> v' == v.(place := v'.place))
    && (v'.lock.Some? && v'.lock.value != c ==> v'.lock == v.lock)
    && (v'.place == v.place || v.place == InHand(c) || v.place == InInbox(c)
        || (v.place.InQueue? && v.place.thread in s.threads && s.threads[v.place.thread].cap == c))
    && (v'.place == v.place || v'.place == InHand(c) || v.lock == Some(c) || v'.lock == None)
  }

  /** Each inbox of the others has what it had, and perhaps one more message that `c` had in hand. */
  ghost predicate InboxFrame(s: State, s': State, c: CapId) {
    forall d | d in s.caps && d in s'.caps && d != c ::
      || s'.caps[d].inbox == s.caps[d].inbox
      || exists m :: s'.caps[d].inbox == [m] + s.caps[d].inbox && m in s.msgs && m in s'.msgs
                     && s.msgs[m].place == InHand(c) && s'.msgs[m].place == InInbox(d)
  }

  lemma OtherLocked(s: State, s': State, c: CapId, d: CapId, m: Mid)
    requires Frame(s, s', c) && d != c && Locked(s, m, d)
    ensures Locked(s', m, d) && s'.msgs[m] == s.msgs[m].(place := s'.msgs[m].place)
    ensures s'.msgs[m].place == s.msgs[m].place || s'.msgs[m].place == InHand(c)
    ensures s.msgs[m].place == InHand(d) ==> s'.msgs[m].place == InHand(d)
    ensures Mine(s, m, d) ==> Mine(s', m, d)
  {
    assert MsgFrame(s, s.msgs[m], s'.msgs[m], c);
  }

  lemma OtherPassed(s: State, s': State, c: CapId, d: CapId, m: Mid)
    requires Frame(s, s', c) && d != c && Passed(s, m, d)
    ensures Passed(s', m, d)
  {
    OtherLocked(s, s', c, d, m);
  }

  lemma OtherHand(s: State, s': State, c: CapId, d: CapId, m: Mid)
    requires Frame(s, s', c) && d != c && m in s.msgs && s.msgs[m].place == InHand(d)
    ensures m in s'.msgs && s'.msgs[m].place == InHand(d)
  {
    assert MsgFrame(s, s.msgs[m], s'.msgs[m], c);
  }

  lemma OtherBlocked(s: State, s': State, c: CapId, d: CapId, m: Mid, other: Mid)
    requires Frame(s, s', c) && d != c && TargetBlockedOn(s, m, other, d)
    ensures TargetBlockedOn(s', m, other, d) && (s.msgs[other].header == MSG_NULL ==> s'.msgs[other].header == MSG_NULL)
  {
    assert MsgFrame(s, s.msgs[m], s'.msgs[m], c) && MsgFrame(s, s.msgs[other], s'.msgs[other], c);
  }

  lemma OtherOwns(s: State, s': State, c: CapId, d: CapId, t: Tid)
    requires Frame(s, s', c) && d != c && Owns(s, t, d)
    ensures Owns(s', t, d) && s'.threads[t] == s.threads[t]
  {
  }

  lemma OtherSource(s: State, s': State, c: CapId, d: CapId, m: Mid, exec: bool)
    requires Frame(s, s', c) && d != c && Locked(s, m, d) && SourceHere(s, m, exec, d)
    ensures m in s'.msgs && SourceHere(s', m, exec, d)
  {
    OtherLocked(s, s', c, d, m);
  }

  lemma OtherPcOk(s: State, s': State, c: CapId, d: CapId)
    requires Frame(s, s', c) && d in s.caps && d != c && PcOk(s, d, s.caps[d].pc)
    ensures d in s'.caps && PcOk(s', d, s'.caps[d].pc)
  {
    OtherPcKept(s, s', c, d, s.caps[d].pc);
  }

  lemma OtherPcKept(s: State, s': State, c: CapId, d: CapId, pc: Pc)
    requires Frame(s, s', c) && d != c && PcOk(s, d, pc)
    ensures PcOk(s', d, pc)
  {
    hide Frame, Mine, Passed, TargetBlockedOn, Owns, SourceHere;
    match pc
    case Idle =>
    case Handling(m) => OtherHand(s, s', c, d, m);
    case Looking(m) => OtherLocked(s, s', c, d, m);
    case Throwing(m, exec) =>
      MineLocked(s, m, d);
      OtherLocked(s, s', c, d, m);
      OtherSource(s, s', c, d, m, exec);
    case Spinning(m, other, exec) =>
      MineLocked(s, m, d);
      OtherLocked(s, s', c, d, m);
      OtherSource(s, s', c, d, m, exec);
      OtherBlocked(s, s', c, d, m, other);
    case Claimed(m, other, exec) =>
      MineLocked(s, m, d);
      OtherLocked(s, s', c, d, m);
      OtherSource(s, s', c, d, m, exec);
      OtherLocked(s, s', c, d, other);
      OtherBlocked(s, s', c, d, m, other);
    case Waking(m, other, exec) =>
      MineLocked(s, m, d);
      OtherLocked(s, s', c, d, m);
      OtherSource(s, s', c, d, m, exec);
      OtherBlocked(s, s', c, d, m, other);
    case Placed(m, exec) =>
      OtherPassed(s, s', c, d, m);
      MineLocked(s, m, d);
      OtherLocked(s, s', c, d, m);
      OtherSource(s, s', c, d, m, exec);
    case Returning(m) =>
      OtherPassed(s, s', c, d, m);
      MineLocked(s, m, d);
      OtherLocked(s, s', c, d, m);
      OtherOwns(s, s', c, d, s.msgs[m].source);
    case Performing(t, held) =>
      OtherOwns(s, s', c, d, t);
      if held.Some? {
        OtherPassed(s, s', c, d, held.value);
        MineLocked(s, held.value, d);
        OtherLocked(s, s', c, d, held.value);
      }
    case Awakening(t) => OtherOwns(s, s', c, d, t);
  }

  lemma MineLocked(s: State, m: Mid, c: CapId)
    ensures Mine(s, m, c) || Passed(s, m, c) ==> Locked(s, m, c)
  {
  }

  lemma OtherInbox(s: State, s': State, c: CapId, d: CapId, inbox: seq<Mid>)
    requires Frame(s, s', c) && d != c && InboxOk(s, d, inbox)
    ensures InboxOk(s', d, inbox)
  {
    forall m | m in inbox ensures m in s'.msgs && s'.msgs[m].place == InInbox(d) {
      assert MsgFrame(s, s.msgs[m], s'.msgs[m], c);
    }
  }

  lemma OtherCap(s: State, s': State, c: CapId, d: CapId)
    requires Inv(s) && Frame(s, s', c) && InboxFrame(s, s', c) && d in s.caps && d != c
    ensures d in s'.caps && CapOk(s', d)
  {
    hide PcOk, ThreadOk, MsgOk, MsgFrame;
    assert CapOk(s, d);
    OtherPcOk(s, s', c, d);
    OtherInbox(s, s', c, d, s.caps[d].inbox);
  }

  lemma OtherThread(s: State, s': State, c: CapId, t: Tid)
    requires Inv(s) && Frame(s, s', c) && t in s.threads && s.threads[t].cap != c
    ensures ThreadOk(s', t)
  {
    hide PcOk, MsgOk, CapOk;
    assert ThreadOk(s, t);
    var th := s.threads[t];
    forall m | m in th.queue ensures m in s'.msgs && s'.msgs[m].place == InQueue(t) && s'.msgs[m].target == t {
      assert MsgFrame(s, s.msgs[m], s'.msgs[m], c);
    }
    if th.why.OnThrowTo? {
      assert MsgFrame(s, s.msgs[th.why.msg], s'.msgs[th.why.msg], c);
    }
  }

  /** What a step has to show of the messages that it changes. */
  predicate MsgLocal(s: State, m: Mid)
    requires m in s.msgs
  {
    var msg := s.msgs[m];
    && msg.source in s.threads && msg.target in s.threads && msg.raised <= 1
    && (msg.header == MSG_THROWTO && msg.place != Gone ==> msg.raised == 0)
  }

  ghost predicate MsgsOk(s: State, s': State, c: CapId)
    requires c in s'.caps
  {
    && (forall m | m in s'.msgs && !(m in s.msgs && s'.msgs[m] == s.msgs[m]) :: MsgLocal(s', m))
    && (forall m | m in s'.msgs && m !in s.msgs :: s'.msgs[m].lock == None || s'.msgs[m].lock == Some(c))
    && (forall m | m in s'.msgs && s'.msgs[m].lock == Some(c) :: m in Holds(s'.caps[c].pc))
  }

  lemma AnyMsg(s: State, s': State, c: CapId, m: Mid)
    requires Inv(s) && c in s.caps && Frame(s, s', c) && MsgsOk(s, s', c) && m in s'.msgs
    ensures MsgOk(s', m)
  {
    hide PcOk, CapOk, ThreadOk, Holds, MsgFrame;
    if m in s.msgs {
      assert MsgOk(s, m) && MsgFrame(s, s.msgs[m], s'.msgs[m], c);
      OldMsg(s, s', c, m);
    }
  }

  lemma OldMsg(s: State, s': State, c: CapId, m: Mid)
    requires c in s.caps && Frame(s, s', c) && MsgsOk(s, s', c) && m in s.msgs && MsgOk(s, m)
    ensures MsgOk(s', m)
  {
    hide Holds;
    assert MsgFrame(s, s.msgs[m], s'.msgs[m], c);
  }

  lemma Preserved(s: State, s': State, c: CapId)
    requires Inv(s) && c in s.caps && Frame(s, s', c) && InboxFrame(s, s', c) && MsgsOk(s, s', c)
    requires CapOk(s', c) && forall t | t in s.threads && s.threads[t].cap == c :: ThreadOk(s', t)
    ensures Inv(s')
  {
    hide CapOk, ThreadOk, MsgOk, Inv, InboxFrame, MsgsOk;
    forall d | d in s'.caps ensures CapOk(s', d) {
      if d != c { OtherCap(s, s', c, d); }
    }
    forall t | t in s'.threads ensures ThreadOk(s', t) {
      if s.threads[t].cap != c { OtherThread(s, s', c, t); }
    }
    forall m | m in s'.msgs ensures MsgOk(s', m) {
      AnyMsg(s, s', c, m);
    }
    assert Inv(s') by { IsInv(s'); }
  }

  lemma IsInv(s: State)
    requires (forall c | c in s.caps :: CapOk(s, c)) && (forall t | t in s.threads :: ThreadOk(s, t))
             && (forall m | m in s.msgs :: MsgOk(s, m))
    ensures Inv(s)
  {
  }

  // ----- Each step keeps the invariant -----

  ghost predicate Kept(s: State, s': State, c: CapId) {
    Frame(s, s', c) && Inv(s')
  }

  /** The messages `m` and `other` and the thread `t` of `c` change, and nothing else but `c` itself and inboxes. */
  ghost predicate Change(s: State, s': State, c: CapId, m: Mid, other: Mid, t: Tid) {
    && s'.caps.Keys == s.caps.Keys && (forall d | d in s.caps && d != c :: s'.caps[d].pc == s.caps[d].pc)
    && s'.threads.Keys == s.threads.Keys && (forall u | u in s.threads && u != t :: s'.threads[u] == s.threads[u])
    && (t in s.threads ==> s'.threads[t] == s.threads[t] || s.threads[t].cap == c)
    && s'.msgs.Keys == s.msgs.Keys + {m, other} && (forall n | n in s.msgs && n != m && n != other ::
        s'.msgs[n] == s.msgs[n])
    && (m in s.msgs ==> MsgFrame(s, s.msgs[m], s'.msgs[m], c))
    && (other in s.msgs ==> MsgFrame(s, s.msgs[other], s'.msgs[other], c))
    && (m != other ==> other in s.msgs && s'.msgs[other].place == s.msgs[other].place)
  }

  lemma IsChange(s: State, s': State, c: CapId, m: Mid, other: Mid, t: Tid)
    requires s'.caps.Keys == s.caps.Keys && (forall d | d in s.caps && d != c :: s'.caps[d].pc == s.caps[d].pc)
    requires s'.threads.Keys == s.threads.Keys && (forall u | u in s.threads && u != t :: s'.threads[u] == s.threads[u])
    requires (t in s.threads ==> s'.threads[t] == s.threads[t] || s.threads[t].cap == c)
    requires s'.msgs.Keys == s.msgs.Keys + {m, other} && (forall n | n in s.msgs && n != m && n != other ::
             s'.msgs[n] == s.msgs[n])
    requires (m in s.msgs ==> MsgFrame(s, s.msgs[m], s'.msgs[m], c))
    requires (other in s.msgs ==> MsgFrame(s, s.msgs[other], s'.msgs[other], c))
    requires (m != other ==> other in s.msgs && s'.msgs[other].place == s.msgs[other].place)
    ensures Change(s, s', c, m, other, t)
  {
  }

  lemma ChangeFrame(s: State, s': State, c: CapId, m: Mid, other: Mid, t: Tid)
    requires Change(s, s', c, m, other, t)
    ensures Frame(s, s', c)
  {
  }

  /** The other threads of `c` do not notice, as they have neither message in their queues unless it stays there. */
  lemma ChangeThreads(s: State, s': State, c: CapId, m: Mid, other: Mid, t: Tid)
    requires Inv(s) && Change(s, s', c, m, other, t)
    requires m in s.msgs ==>
              s.msgs[m].place == InHand(c) || s.msgs[m].place == InInbox(c) || s.msgs[m].place == InQueue(t)
                             || s'.msgs[m].place == s.msgs[m].place
    ensures forall u | u in s.threads && u != t :: ThreadOk(s', u)
  {
    hide CapOk, MsgOk, MsgFrame;
    forall u | u in s.threads && u != t ensures ThreadOk(s', u) {
      assert ThreadOk(s, u);
      ChangeThread(s, s', c, m, other, t, u);
    }
  }

  lemma ChangeThread(s: State, s': State, c: CapId, m: Mid, other: Mid, t: Tid, u: Tid)
    requires u in s.threads && ThreadOk(s, u) && Change(s, s', c, m, other, t) && u != t
    requires m in s.msgs ==>
              s.msgs[m].place == InHand(c) || s.msgs[m].place == InInbox(c) || s.msgs[m].place == InQueue(t)
                             || s'.msgs[m].place == s.msgs[m].place
    ensures u in s'.threads && ThreadOk(s', u)
  {
  }

  /** All that is left to show of a step. */
  lemma ChangeKeeps(s: State, s': State, c: CapId, m: Mid, other: Mid, t: Tid)
    requires Inv(s) && c in s.caps && Change(s, s', c, m, other, t)
    requires m in s.msgs ==>
              s.msgs[m].place == InHand(c) || s.msgs[m].place == InInbox(c) || s.msgs[m].place == InQueue(t)
                             || s'.msgs[m].place == s.msgs[m].place
    requires InboxFrame(s, s', c) && CapOk(s', c) && (t in s.threads ==> ThreadOk(s', t))
    requires MsgLocal(s', m) && MsgLocal(s', other)
    requires m !in s.msgs ==> s'.msgs[m].lock == Some(c)
    requires forall n | n in s'.msgs && s'.msgs[n].lock == Some(c) :: n in Holds(s'.caps[c].pc)
    ensures Kept(s, s', c)
  {
    hide CapOk, ThreadOk, MsgOk, MsgFrame, Inv, InboxFrame, Frame, MsgLocal, Holds;
    ChangeFrame(s, s', c, m, other, t);
    ChangeThreads(s, s', c, m, other, t);
    Preserved(s, s', c);
  }

  /** The messages that `c` has locked are those that it holds. */
  lemma LocksHeld(s: State, c: CapId)
    requires Inv(s) && c in s.caps
    ensures forall n | n in s.msgs && s.msgs[n].lock == Some(c) :: n in Holds(s.caps[c].pc)
  {
    hide CapOk, ThreadOk;
    forall n | n in s.msgs && s.msgs[n].lock == Some(c) ensures n in Holds(s.caps[c].pc) {
      assert MsgOk(s, n);
    }
  }

  lemma InboxKept(s: State, s': State, c: CapId, m: Mid, other: Mid, t: Tid, inbox: seq<Mid>)
    requires InboxOk(s, c, inbox) && Change(s, s', c, m, other, t)
    requires m in s.msgs ==> s.msgs[m].place != InInbox(c) || s'.msgs[m].place == s.msgs[m].place
    ensures InboxOk(s', c, inbox)
  {
  }

  /** The thread has the same queue, and is not blocked on a message that it was not blocked on before. */
  lemma ThreadKept(s: State, s': State, c: CapId, m: Mid, other: Mid, t: Tid)
    requires t in s.threads && ThreadOk(s, t) && Change(s, s', c, m, other, t)
    requires var th, th' := s.threads[t], s'.threads[t];
             th'.queue == th.queue && th'.cap in s.caps && (th'.why.OnThrowTo? ==> th'.why == th.why)
    requires m in s.msgs ==> s.msgs[m].place != InQueue(t) || s'.msgs[m].place == s.msgs[m].place
    ensures ThreadOk(s', t)
  {
  }

  lemma ThreadQueues(s: State, s': State, c: CapId, m: Mid, other: Mid, t: Tid)
    requires t in s.threads && ThreadOk(s, t) && Change(s, s', c, m, other, t) && m in s.msgs
             && s.msgs[m].place == InHand(c)
    requires s'.threads[t] == s.threads[t].(queue := [m] + s.threads[t].queue)
    requires s'.msgs[m].place == InQueue(t) && s'.msgs[m].target == t
    ensures ThreadOk(s', t)
  {
  }

  /** What the invariant says of a message that `c` has in hand and of its target. */
  lemma InHandFacts(s: State, c: CapId, m: Mid)
    requires Inv(s) && c in s.caps && Hand(s.caps[c].pc) == Some(m)
    ensures m in s.msgs && s.msgs[m].place == InHand(c) && s.msgs[m].target in s.threads
            && s.msgs[m].source in s.threads
    ensures s.msgs[m].header == MSG_THROWTO ==> s.msgs[m].raised == 0
    ensures s.msgs[m].raised <= 1
    ensures ThreadOk(s, s.msgs[m].target) && s.threads[s.msgs[m].target].cap in s.caps
    ensures PcOk(s, c, s.caps[c].pc) && InboxOk(s, c, s.caps[c].inbox)
    ensures forall n | n in s.msgs && s.msgs[n].lock == Some(c) :: n in Holds(s.caps[c].pc)
  {
    hide ThreadOk, MsgLocal, InboxOk;
    LocksHeld(s, c);
    assert CapOk(s, c);
    assert MsgOk(s, m);
    OwnerIsCap(s, s.msgs[m].target);
  }

  lemma OtherFacts(s: State, c: CapId, m: Mid, other: Mid)
    requires Inv(s) && TargetBlockedOn(s, m, other, c)
    ensures other != m && MsgLocal(s, other) && s.msgs[other].source == s.msgs[m].target
  {
    assert MsgOk(s, other) && ThreadOk(s, s.msgs[m].target);
  }

  // --- steps that change no message

  ghost predicate Quiet(s: State, s': State, c: CapId, t: Tid) {
    && c in s.caps && s'.msgs == s.msgs && s'.caps.Keys == s.caps.Keys && s'.caps[c].inbox == s.caps[c].inbox
    && (forall d | d in s.caps && d != c :: s'.caps[d] == s.caps[d])
    && s'.threads.Keys == s.threads.Keys && (forall u | u in s.threads && u != t :: s'.threads[u] == s.threads[u])
    && (t in s.threads ==> s'.threads[t] == s.threads[t] || s.threads[t].cap == c)
  }

  lemma IsQuiet(s: State, s': State, c: CapId, t: Tid)
    requires c in s.caps && s'.msgs == s.msgs && s'.caps.Keys == s.caps.Keys && s'.caps[c].inbox == s.caps[c].inbox
    requires (forall d | d in s.caps && d != c :: s'.caps[d] == s.caps[d])
    requires s'.threads.Keys == s.threads.Keys && (forall u | u in s.threads && u != t :: s'.threads[u] == s.threads[u])
    requires (t in s.threads ==> s'.threads[t] == s.threads[t] || s.threads[t].cap == c)
    ensures Quiet(s, s', c, t)
  {
  }

  lemma QuietKeeps(s: State, s': State, c: CapId, t: Tid)
    requires Inv(s) && Quiet(s, s', c, t) && PcOk(s', c, s'.caps[c].pc) && (t in s.threads ==> ThreadOk(s', t))
    requires forall n | n in s.msgs && s.msgs[n].lock == Some(c) :: n in Holds(s'.caps[c].pc)
    ensures Kept(s, s', c)
  {
    hide PcOk, Holds, Frame, MsgOk, ThreadOk, Inv, InboxOk, InboxFrame;
    CapFacts(s, c, t);
    QuietFrame(s, s', c, t);
    QuietInbox(s, s', c, t);
    forall u | u in s.threads && s.threads[u].cap == c ensures ThreadOk(s', u) {
      if u != t {
        CapFacts(s, c, u);
        QuietOther(s, s', c, t, u);
      }
    }
    Preserved(s, s', c);
  }

  lemma QuietInbox(s: State, s': State, c: CapId, t: Tid)
    requires Quiet(s, s', c, t) && InboxOk(s, c, s.caps[c].inbox)
    ensures InboxOk(s', c, s'.caps[c].inbox)
  {
  }

  lemma QuietOther(s: State, s': State, c: CapId, t: Tid, u: Tid)
    requires Quiet(s, s', c, t) && u in s.threads && u != t && ThreadOk(s, u)
    ensures ThreadOk(s', u)
  {
  }

  lemma QuietFrame(s: State, s': State, c: CapId, t: Tid)
    requires Quiet(s, s', c, t)
    ensures Frame(s, s', c) && InboxFrame(s, s', c)
  {
    forall m | m in s.msgs ensures MsgFrame(s, s.msgs[m], s'.msgs[m], c) {}
  }

  lemma QuietThread(s: State, s': State, c: CapId, t: Tid)
    requires t in s.threads && ThreadOk(s, t) && Quiet(s, s', c, t)
    requires var th, th' := s.threads[t], s'.threads[t];
             th'.queue == th.queue && th'.cap in s.caps && (th'.why.OnThrowTo? ==> th'.why == th.why)
    ensures ThreadOk(s', t)
  {
  }

  /** What the invariant says of `c` and of one thread. */
  lemma CapFacts(s: State, c: CapId, t: Tid)
    requires Inv(s) && c in s.caps
    ensures PcOk(s, c, s.caps[c].pc) && InboxOk(s, c, s.caps[c].inbox) && (t in s.threads ==> ThreadOk(s, t))
    ensures forall n | n in s.msgs && s.msgs[n].lock == Some(c) :: n in Holds(s.caps[c].pc)
  {
    hide ThreadOk, InboxOk, PcOk, Holds;
    LocksHeld(s, c);
    assert CapOk(s, c);
  }

  // --- throwToMsg

  lemma TargetDeadKeeps(s: State, c: CapId, m: Mid, exec: bool)
    requires Inv(s) && c in s.caps && s.caps[c].pc == Throwing(m, exec) && m in s.msgs
    ensures Kept(s, SetPc(SetMsg(s, m, Finished(s.msgs[m], exec, false)), c, Idle), c)
  {
    hide Inv, ThreadOk, MsgOk, InboxOk, Kept, Change;
    InHandFacts(s, c, m);
    var s', t := SetPc(SetMsg(s, m, Finished(s.msgs[m], exec, false)), c, Idle), s.msgs[m].target;
    IsChange(s, s', c, m, m, t);
    InboxKept(s, s', c, m, m, t, s.caps[c].inbox);
    ThreadKept(s, s', c, m, m, t);
    ChangeKeeps(s, s', c, m, m, t);
  }

  lemma SendKeeps(s: State, c: CapId, m: Mid, to: CapId, exec: bool)
    requires Inv(s) && c in s.caps && s.caps[c].pc == Throwing(m, exec) && m in s.msgs && to in s.caps
    ensures Kept(s, SendTo(s, c, m, to, exec), c)
  {
    hide Inv, ThreadOk, MsgOk, Kept, Change, InboxOk, InboxFrame, PcOk, Holds;
    InHandFacts(s, c, m);
    ThrowingFacts(s, c, m, exec);
    var s', t := SendTo(s, c, m, to, exec), s.msgs[m].target;
    IsChange(s, s', c, m, m, t);
    ThreadKept(s, s', c, m, m, t);
    if to != c {
      InboxKept(s, s', c, m, m, t, s.caps[c].inbox);
    }
    SentOk(s, c, m, to, exec);
    ChangeKeeps(s, s', c, m, m, t);
  }

  lemma ThrowingFacts(s: State, c: CapId, m: Mid, exec: bool)
    requires c in s.caps && PcOk(s, c, Throwing(m, exec))
    ensures Mine(s, m, c) && SourceHere(s, m, exec, c) && Holds(Throwing(m, exec)) == {m}
  {
  }

  lemma SentOk(s: State, c: CapId, m: Mid, to: CapId, exec: bool)
    requires c in s.caps && to in s.caps && Mine(s, m, c) && SourceHere(s, m, exec, c) && InboxOk(s, c, s.caps[c].inbox)
    requires forall n | n in s.msgs && s.msgs[n].lock == Some(c) :: n == m
    ensures var s' := SendTo(s, c, m, to, exec);
            && c in s'.caps && PcOk(s', c, s'.caps[c].pc) && InboxFrame(s, s', c)
                && (to == c ==> InboxOk(s', c, s'.caps[c].inbox))
            && forall n | n in s'.msgs && s'.msgs[n].lock == Some(c) :: n in Holds(s'.caps[c].pc)
  {
  }

  lemma RaiseNowKeeps(s: State, c: CapId, m: Mid, exec: bool, dies: bool)
    requires Inv(s) && c in s.caps && s.caps[c].pc == Throwing(m, exec) && m in s.msgs && Owns(s, s.msgs[m].target, c)
    ensures var t := s.msgs[m].target;
            Kept(s, SetPc(SetThread(SetMsg(s, m, Finished(s.msgs[m], exec, true)), t, Raised(s.threads[t], dies)), c,
                Idle), c)
  {
    hide Inv, ThreadOk, MsgOk, InboxOk, Kept, Change;
    InHandFacts(s, c, m);
    var t := s.msgs[m].target;
    var s' := SetPc(SetThread(SetMsg(s, m, Finished(s.msgs[m], exec, true)), t, Raised(s.threads[t], dies)), c, Idle);
    CapFacts(s, c, t);
    OwnerIsCap(s, t);
    IsChange(s, s', c, m, m, t);
    InboxKept(s, s', c, m, m, t, s.caps[c].inbox);
    ThreadKept(s, s', c, m, m, t);
    ChangeKeeps(s, s', c, m, m, t);
  }

  lemma OwnerIsCap(s: State, t: Tid)
    requires Inv(s) && t in s.threads
    ensures s.threads[t].cap in s.caps
  {
    assert ThreadOk(s, t);
  }

  lemma BlockOnKeeps(s: State, c: CapId, m: Mid, exec: bool)
    requires Inv(s) && c in s.caps && s.caps[c].pc == Throwing(m, exec) && m in s.msgs && Owns(s, s.msgs[m].target, c)
    ensures Kept(s, BlockOn(s, c, m, s.msgs[m].target, exec), c)
  {
    hide Inv, ThreadOk, MsgOk, InboxOk, Kept, Change;
    InHandFacts(s, c, m);
    var t := s.msgs[m].target;
    var s' := BlockOn(s, c, m, t, exec);
    IsChange(s, s', c, m, m, t);
    InboxKept(s, s', c, m, m, t, s.caps[c].inbox);
    ThreadQueues(s, s', c, m, m, t);
    ChangeKeeps(s, s', c, m, m, t);
  }

  lemma LockOtherKeeps(s: State, c: CapId, m: Mid, other: Mid, exec: bool)
    requires Inv(s) && c in s.caps && (s.caps[c].pc == Throwing(m, exec) || s.caps[c].pc == Spinning(m, other, exec))
    requires TargetBlockedOn(s, m, other, c) && s.msgs[other].lock == None
    ensures Kept(s, SetPc(LockMsg(s, other, Some(c)), c, Claimed(m, other, exec)), c)
  {
    hide Inv, ThreadOk, MsgOk, InboxOk, Kept, Change;
    InHandFacts(s, c, m);
    var s', t := SetPc(LockMsg(s, other, Some(c)), c, Claimed(m, other, exec)), s.msgs[m].target;
    IsChange(s, s', c, m, other, t);
    InboxKept(s, s', c, m, other, t, s.caps[c].inbox);
    ThreadKept(s, s', c, m, other, t);
    OtherFacts(s, c, m, other);
    ChangeKeeps(s, s', c, m, other, t);
  }

  lemma SpinKeeps(s: State, c: CapId, m: Mid, other: Mid, exec: bool)
    requires Inv(s) && c in s.caps && s.caps[c].pc == Throwing(m, exec) && TargetBlockedOn(s, m, other, c) && other < m
    ensures Kept(s, SetPc(s, c, Spinning(m, other, exec)), c)
  {
    hide Inv, ThreadOk, MsgOk, InboxOk, Kept, Quiet;
    CapFacts(s, c, s.msgs[m].target);
    var s' := SetPc(s, c, Spinning(m, other, exec));
    IsQuiet(s, s', c, s.msgs[m].target);
    QuietThread(s, s', c, s.msgs[m].target);
    QuietKeeps(s, s', c, s.msgs[m].target);
  }

  lemma UnblockedKeeps(s: State, c: CapId, m: Mid, exec: bool)
    requires Inv(s) && c in s.caps && Hand(s.caps[c].pc) == Some(m) && !s.caps[c].pc.Claimed? && Mine(s, m, c)
             && Owns(s, s.msgs[m].target, c)
    requires SourceHere(s, m, exec, c)
    ensures var t := s.msgs[m].target;
            Kept(s, SetPc(SetThread(s, t, s.threads[t].(why := NotBlocked)), c, Throwing(m, exec)), c)
  {
    hide Inv, ThreadOk, MsgOk, InboxOk, Kept, Quiet;
    var t := s.msgs[m].target;
    CapFacts(s, c, t);
    var s' := SetPc(SetThread(s, t, s.threads[t].(why := NotBlocked)), c, Throwing(m, exec));
    IsQuiet(s, s', c, t);
    QuietThread(s, s', c, t);
    QuietKeeps(s, s', c, t);
  }

  lemma ClaimedMaskedKeeps(s: State, c: CapId, m: Mid, other: Mid, exec: bool)
    requires Inv(s) && c in s.caps && s.caps[c].pc == Claimed(m, other, exec) && m in s.msgs && other in s.msgs
    requires s.msgs[m].target in s.threads
    ensures Kept(s, BlockOn(LockMsg(s, other, None), c, m, s.msgs[m].target, exec), c)
  {
    hide Inv, ThreadOk, MsgOk, InboxOk, Kept, Change, PcOk, Holds;
    ClaimedFacts(s, c, m, other, exec);
    var t := s.msgs[m].target;
    var s' := BlockOn(LockMsg(s, other, None), c, m, t, exec);
    IsChange(s, s', c, m, other, t);
    InboxKept(s, s', c, m, other, t, s.caps[c].inbox);
    ThreadQueues(s, s', c, m, other, t);
    MaskedPcOk(s, c, m, other, exec);
    ChangeKeeps(s, s', c, m, other, t);
  }

  lemma ClaimedFacts(s: State, c: CapId, m: Mid, other: Mid, exec: bool)
    requires Inv(s) && c in s.caps && s.caps[c].pc == Claimed(m, other, exec)
    ensures Mine(s, m, c) && SourceHere(s, m, exec, c) && Locked(s, other, c) && TargetBlockedOn(s, m, other, c)
            && other != m
    ensures MsgLocal(s, other) && MsgLocal(s, m) && ThreadOk(s, s.msgs[m].target) && InboxOk(s, c, s.caps[c].inbox)
    ensures forall n | n in s.msgs && s.msgs[n].lock == Some(c) :: n == m || n == other
  {
    hide Inv, ThreadOk, InboxOk;
    InHandFacts(s, c, m);
    OtherFacts(s, c, m, other);
  }

  lemma MaskedPcOk(s: State, c: CapId, m: Mid, other: Mid, exec: bool)
    requires c in s.caps && Mine(s, m, c) && SourceHere(s, m, exec, c) && TargetBlockedOn(s, m, other, c) && other != m
    requires forall n | n in s.msgs && s.msgs[n].lock == Some(c) :: n == m || n == other
    ensures var s' := BlockOn(LockMsg(s, other, None), c, m, s.msgs[m].target, exec);
            && c in s'.caps && PcOk(s', c, s'.caps[c].pc)
            && forall n | n in s'.msgs && s'.msgs[n].lock == Some(c) :: n in Holds(s'.caps[c].pc)
  {
  }

  lemma ClaimedRaiseKeeps(s: State, c: CapId, m: Mid, other: Mid, exec: bool, dies: bool)
    requires Inv(s) && c in s.caps && s.caps[c].pc == Claimed(m, other, exec) && m in s.msgs && other in s.msgs
    requires s.msgs[m].target in s.threads
    ensures var s1, t := SetMsg(s, other, s.msgs[other].(header := MSG_NULL, lock := None)), s.msgs[m].target;
            Kept(s, SetPc(SetThread(SetMsg(s1, m, Finished(s1.msgs[m], exec, true)), t, Raised(s.threads[t], dies)),
                c, Idle), c)
  {
    hide Inv, ThreadOk, MsgOk, InboxOk, Kept, Change;
    InHandFacts(s, c, m);
    OtherFacts(s, c, m, other);
    var s1, t := SetMsg(s, other, s.msgs[other].(header := MSG_NULL, lock := None)), s.msgs[m].target;
    var s' := SetPc(SetThread(SetMsg(s1, m, Finished(s1.msgs[m], exec, true)), t, Raised(s.threads[t], dies)), c, Idle);
    IsChange(s, s', c, m, other, t);
    InboxKept(s, s', c, m, other, t, s.caps[c].inbox);
    ThreadKept(s, s', c, m, other, t);
    ChangeKeeps(s, s', c, m, other, t);
  }

  lemma RevokedKeeps(s: State, c: CapId, m: Mid, other: Mid, exec: bool)
    requires Inv(s) && c in s.caps && s.caps[c].pc == Claimed(m, other, exec) && other in s.msgs
             && s.msgs[other].header == MSG_NULL
    ensures Kept(s, SetPc(LockMsg(s, other, None), c, Waking(m, other, exec)), c)
  {
    hide Inv, ThreadOk, MsgOk, InboxOk, Kept, Change;
    InHandFacts(s, c, m);
    var s', t := SetPc(LockMsg(s, other, None), c, Waking(m, other, exec)), s.msgs[m].target;
    IsChange(s, s', c, m, other, t);
    InboxKept(s, s', c, m, other, t, s.caps[c].inbox);
    ThreadKept(s, s', c, m, other, t);
    OtherFacts(s, c, m, other);
    ChangeKeeps(s, s', c, m, other, t);
  }

  // --- after THROWTO_BLOCKED

  /** What the invariant says of a message that `c` has passed on. */
  lemma PassedFacts(s: State, c: CapId, m: Mid)
    requires Inv(s) && c in s.caps && Passed(s, m, c)
    ensures MsgLocal(s, m) && s.msgs[m].raised == 0
  {
    assert MsgOk(s, m);
  }

  lemma UnlockKeeps(s: State, c: CapId, m: Mid)
    requires Inv(s) && c in s.caps && (s.caps[c].pc.Placed? || s.caps[c].pc.Returning?) && Holds(s.caps[c].pc) == {m}
    requires Passed(s, m, c)
    ensures Kept(s, SetPc(LockMsg(s, m, None), c, Idle), c)
  {
    hide Inv, ThreadOk, MsgOk, InboxOk, Kept, Change;
    var s', t := SetPc(LockMsg(s, m, None), c, Idle), s.msgs[m].target;
    CapFacts(s, c, t);
    PassedFacts(s, c, m);
    IsChange(s, s', c, m, m, t);
    InboxKept(s, s', c, m, m, t, s.caps[c].inbox);
    OwnerIsCap(s, t);
    ThreadKept(s, s', c, m, m, t);
    ChangeKeeps(s, s', c, m, m, t);
  }

  lemma BlockSourceKeeps(s: State, c: CapId, m: Mid)
    requires Inv(s) && c in s.caps && s.caps[c].pc == Placed(m, false) && Passed(s, m, c)
             && Owns(s, s.msgs[m].source, c)
    requires s.msgs[m].source != s.msgs[m].target
    ensures var t := s.msgs[m].source;
            Kept(s, SetPc(SetThread(s, t, s.threads[t].(why := OnThrowTo(m))), c, Returning(m)), c)
  {
    hide Inv, MsgOk, InboxOk, Kept, Quiet;
    var t := s.msgs[m].source;
    var s' := SetPc(SetThread(s, t, s.threads[t].(why := OnThrowTo(m))), c, Returning(m));
    CapFacts(s, c, t);
    IsQuiet(s, s', c, t);
    QuietKeeps(s, s', c, t);
  }

  // --- executeMessage

  lemma ReceiveKeeps(s: State, c: CapId, m: Mid)
    requires Inv(s) && c in s.caps && s.caps[c].pc == Idle && s.caps[c].inbox != [] && s.caps[c].inbox[0] == m
             && m in s.msgs
    ensures Kept(s, SetPc(SetInbox(SetMsg(s, m, s.msgs[m].(place := InHand(c))), c, s.caps[c].inbox[1..]), c,
            Handling(m)), c)
  {
    hide Inv, ThreadOk, Kept, Change;
    var inbox, t := s.caps[c].inbox, s.msgs[m].target;
    var s' := SetPc(SetInbox(SetMsg(s, m, s.msgs[m].(place := InHand(c))), c, inbox[1..]), c, Handling(m));
    CapFacts(s, c, t);
    MsgFacts(s, m);
    IsChange(s, s', c, m, m, t);
    OwnerIsCap(s, t);
    ThreadKept(s, s', c, m, m, t);
    ChangeKeeps(s, s', c, m, m, t);
  }

  lemma MsgFacts(s: State, m: Mid)
    requires Inv(s) && m in s.msgs
    ensures MsgLocal(s, m)
  {
    assert MsgOk(s, m);
  }

  lemma LockReceivedKeeps(s: State, c: CapId, m: Mid)
    requires Inv(s) && c in s.caps && s.caps[c].pc == Handling(m) && m in s.msgs && s.msgs[m].lock == None
    ensures Kept(s, SetPc(LockMsg(s, m, Some(c)), c, Looking(m)), c)
  {
    hide Inv, ThreadOk, MsgOk, InboxOk, Kept, Change;
    InHandFacts(s, c, m);
    var s', t := SetPc(LockMsg(s, m, Some(c)), c, Looking(m)), s.msgs[m].target;
    IsChange(s, s', c, m, m, t);
    InboxKept(s, s', c, m, m, t, s.caps[c].inbox);
    ThreadKept(s, s', c, m, m, t);
    ChangeKeeps(s, s', c, m, m, t);
  }

  lemma DropNullKeeps(s: State, c: CapId, m: Mid)
    requires Inv(s) && c in s.caps && s.caps[c].pc == Looking(m) && m in s.msgs && s.msgs[m].header == MSG_NULL
    ensures Kept(s, SetPc(SetMsg(s, m, s.msgs[m].(lock := None, place := Gone)), c, Idle), c)
  {
    hide Inv, ThreadOk, MsgOk, InboxOk, Kept, Change;
    InHandFacts(s, c, m);
    var s', t := SetPc(SetMsg(s, m, s.msgs[m].(lock := None, place := Gone)), c, Idle), s.msgs[m].target;
    IsChange(s, s', c, m, m, t);
    InboxKept(s, s', c, m, m, t, s.caps[c].inbox);
    ThreadKept(s, s', c, m, m, t);
    ChangeKeeps(s, s', c, m, m, t);
  }

  /** Only the control state of `c` changes. */
  lemma PcKeeps(s: State, c: CapId, pc: Pc, t: Tid)
    requires Inv(s) && c in s.caps && PcOk(SetPc(s, c, pc), c, pc) && Holds(s.caps[c].pc) <= Holds(pc)
    ensures Kept(s, SetPc(s, c, pc), c)
  {
    hide Inv, MsgOk, InboxOk, Kept, Quiet, PcOk, Holds, ThreadOk;
    CapFacts(s, c, t);
    var s' := SetPc(s, c, pc);
    IsQuiet(s, s', c, t);
    if t in s.threads {
      OwnerIsCap(s, t);
      QuietThread(s, s', c, t);
    }
    QuietKeeps(s, s', c, t);
  }

  // --- idle

  lemma CreateKeeps(s: State, c: CapId, m: Mid, source: Tid, target: Tid)
    requires Inv(s) && c in s.caps && s.caps[c].pc == Idle && m !in s.msgs && Owns(s, source, c) && target in s.threads
    requires source in s.threads && s.threads[source].why == NotBlocked
    ensures Kept(s, SetPc(SetMsg(s, m, Msg(source, target, MSG_THROWTO, Some(c), 0, InHand(c))), c,
            Throwing(m, false)), c)
  {
    hide Inv, ThreadOk, MsgOk, InboxOk, Kept, Change;
    var s' := SetPc(SetMsg(s, m, Msg(source, target, MSG_THROWTO, Some(c), 0, InHand(c))), c, Throwing(m, false));
    CapFacts(s, c, target);
    IsChange(s, s', c, m, m, target);
    InboxKept(s, s', c, m, m, target, s.caps[c].inbox);
    OwnerIsCap(s, target);
    ThreadKept(s, s', c, m, m, target);
    ChangeKeeps(s, s', c, m, m, target);
  }

  /** A thread of an idle capability changes, but not its queue, and it does not become blocked on a message. */
  lemma OwnThreadKeeps(s: State, c: CapId, t: Tid, v: Thread)
    requires Inv(s) && c in s.caps && s.caps[c].pc == Idle && Owns(s, t, c)
    requires v.queue == s.threads[t].queue && v.cap in s.caps && (v.why.OnThrowTo? ==> v.why == s.threads[t].why)
    ensures Kept(s, SetThread(s, t, v), c)
  {
    hide Inv, MsgOk, InboxOk, Kept, Quiet, ThreadOk;
    CapFacts(s, c, t);
    var s' := SetThread(s, t, v);
    IsQuiet(s, s', c, t);
    QuietThread(s, s', c, t);
    QuietKeeps(s, s', c, t);
  }

  // --- blocked exceptions

  /** The head of a queue is taken off it. */
  lemma ThreadPops(s: State, s': State, c: CapId, m: Mid, other: Mid, t: Tid)
    requires t in s.threads && ThreadOk(s, t) && Change(s, s', c, m, other, t) && s.threads[t].queue != []
             && s.threads[t].queue[0] == m
    requires s'.threads[t].queue == s.threads[t].queue[1..] && s'.threads[t].cap == s.threads[t].cap
             && s.threads[t].cap in s.caps
    requires s'.threads[t].why == s.threads[t].why || s'.threads[t].why == NotBlocked
    ensures ThreadOk(s', t)
  {
  }

  lemma QueueFacts(s: State, c: CapId, t: Tid)
    requires Inv(s) && c in s.caps && Owns(s, t, c) && s.threads[t].queue != []
    ensures var m := s.threads[t].queue[0];
            m in s.msgs && s.msgs[m].place == InQueue(t) && s.msgs[m].target == t && MsgLocal(s, m)
    ensures ThreadOk(s, t)
  {
    assert ThreadOk(s, t);
    assert MsgOk(s, s.threads[t].queue[0]);
  }

  /** The first blocked message is dropped or, for awakenBlockedExceptionQueue, overwritten. */
  lemma PopKeeps(s: State, c: CapId, t: Tid, m: Mid, v: Msg)
    requires Inv(s) && c in s.caps && Owns(s, t, c) && s.threads[t].queue != [] && s.threads[t].queue[0] == m
             && m in s.msgs
    requires (s.caps[c].pc.Performing? || s.caps[c].pc.Awakening?) && s.caps[c].pc.t == t && m !in Holds(s.caps[c].pc)
    requires s.msgs[m].lock == None && v == s.msgs[m].(header := MSG_NULL, place := Gone)
    ensures Kept(s, PopQueue(SetMsg(s, m, v), t), c)
  {
    hide Inv, ThreadOk, MsgOk, InboxOk, Kept, Change;
    CapFacts(s, c, t);
    QueueFacts(s, c, t);
    var s' := PopQueue(SetMsg(s, m, v), t);
    IsChange(s, s', c, m, m, t);
    InboxKept(s, s', c, m, m, t, s.caps[c].inbox);
    ThreadPops(s, s', c, m, m, t);
    ChangeKeeps(s, s', c, m, m, t);
  }

  lemma PerformRaiseKeeps(s: State, c: CapId, t: Tid, m: Mid, dies: bool)
    requires Inv(s) && c in s.caps && s.caps[c].pc == Performing(t, None) && Owns(s, t, c) && s.threads[t].queue != []
    requires s.threads[t].queue[0] == m && m in s.msgs && s.msgs[m].lock == None && s.msgs[m].header == MSG_THROWTO
    ensures var s2 := PopQueue(SetMsg(s, m, Finished(s.msgs[m], true, true)), t);
            Kept(s, SetPc(SetThread(s2, t, Raised(s2.threads[t], dies)), c, Idle), c)
  {
    hide Inv, ThreadOk, MsgOk, InboxOk, Kept, Change;
    CapFacts(s, c, t);
    QueueFacts(s, c, t);
    var s2 := PopQueue(SetMsg(s, m, Finished(s.msgs[m], true, true)), t);
    var s' := SetPc(SetThread(s2, t, Raised(s2.threads[t], dies)), c, Idle);
    IsChange(s, s', c, m, m, t);
    InboxKept(s, s', c, m, m, t, s.caps[c].inbox);
    ThreadPops(s, s', c, m, m, t);
    ChangeKeeps(s, s', c, m, m, t);
  }

  lemma PauseRaiseKeeps(s: State, c: CapId, t: Tid, m: Mid, held: Mid, dies: bool)
    requires Inv(s) && c in s.caps && s.caps[c].pc == Performing(t, Some(held)) && Owns(s, t, c)
             && s.threads[t].queue != []
    requires s.threads[t].queue[0] == m && m in s.msgs && s.msgs[m].lock == None && s.msgs[m].header == MSG_THROWTO
    requires held in s.msgs && held != m
    ensures var s1 := SetMsg(s, held, s.msgs[held].(header := MSG_NULL, lock := None));
            var s2 := PopQueue(SetMsg(s1, m, Finished(s1.msgs[m], true, true)), t);
            Kept(s, SetPc(SetThread(s2, t, Raised(s2.threads[t], dies)), c, Idle), c)
  {
    hide Inv, ThreadOk, MsgOk, InboxOk, Kept, Change;
    CapFacts(s, c, t);
    QueueFacts(s, c, t);
    PassedFacts(s, c, held);
    var s1 := SetMsg(s, held, s.msgs[held].(header := MSG_NULL, lock := None));
    var s2 := PopQueue(SetMsg(s1, m, Finished(s1.msgs[m], true, true)), t);
    var s' := SetPc(SetThread(s2, t, Raised(s2.threads[t], dies)), c, Idle);
    IsChange(s, s', c, m, held, t);
    InboxKept(s, s', c, m, held, t, s.caps[c].inbox);
    ThreadPops(s, s', c, m, held, t);
    ChangeKeeps(s, s', c, m, held, t);
  }

  // ----- Every step keeps the invariant -----

  lemma StepIdleKeeps(s: State, c: CapId, a: Action)
    requires Inv(s) && c in s.caps && s.caps[c].pc == Idle && StepIdle(s, c, a).Some?
    ensures Kept(s, StepIdle(s, c, a).value, c)
  {
    hide Inv, Kept;
    match a
    case Create(m, source, target) => CreateKeeps(s, c, m, source, target);
    case Receive => ReceiveKeeps(s, c, s.caps[c].inbox[0]);
    case Perform(t) => PcKeeps(s, c, Performing(t, None), t);
    case Awaken(t) => PcKeeps(s, c, Awakening(t), t);
    case SetFlags(t, b, i) => OwnerIsCap(s, t); OwnThreadKeeps(s, c, t,
        s.threads[t].(blockex := b, interruptible := i));
    case Block(t, why) => OwnerIsCap(s, t); OwnThreadKeeps(s, c, t, s.threads[t].(why := why));
    case TryWakeup(t) => OwnerIsCap(s, t); OwnThreadKeeps(s, c, t, s.threads[t].(why := NotBlocked));
    case Migrate(t, to) => OwnThreadKeeps(s, c, t, s.threads[t].(cap := to, why := Migrating));
    case Finish(t) => OwnerIsCap(s, t); OwnThreadKeeps(s, c, t, s.threads[t].(dead := true));
    case _ =>
  }

  lemma StepThrowingKeeps(s: State, c: CapId, a: Action, m: Mid, t: Tid, exec: bool)
    requires Inv(s) && c in s.caps && s.caps[c].pc == Throwing(m, exec) && m in s.msgs && s.msgs[m].target == t
             && t in s.threads
    requires StepThrowing(s, c, a, m, t, exec).Some?
    ensures Kept(s, StepThrowing(s, c, a, m, t, exec).value, c)
  {
    hide Inv, Kept, ThreadOk;
    InHandFacts(s, c, m);
    var th := s.threads[t];
    if th.dead {
      TargetDeadKeeps(s, c, m, exec);
    } else if th.cap != c {
      SendKeeps(s, c, m, a.to, exec);
    } else if TakesException(th) {
      RaiseNowKeeps(s, c, m, exec, a.dies);
    } else if BlocksException(th) {
      BlockOnKeeps(s, c, m, exec);
    } else if th.why.OnThrowTo? {
      BlockedOnKnown(s, t);
      if th.why.msg < m {
        SpinKeeps(s, c, m, th.why.msg, exec);
      } else if s.msgs[th.why.msg].lock == None {
        LockOtherKeeps(s, c, m, th.why.msg, exec);
      } else {
        SendKeeps(s, c, m, c, exec);
      }
    } else {
      UnblockedKeeps(s, c, m, exec);
      SamePc(s, c);
      assert SetThread(s, t, th.(why := NotBlocked)) == SetPc(SetThread(s, t, th.(why := NotBlocked)), c,
          Throwing(m, exec));
    }
  }

  lemma SamePc(s: State, c: CapId)
    requires c in s.caps
    ensures SetPc(s, c, s.caps[c].pc) == s
  {
    assert s.caps[c := s.caps[c]] == s.caps;
  }

  lemma BlockedOnKnown(s: State, t: Tid)
    requires Inv(s) && t in s.threads && s.threads[t].why.OnThrowTo?
    ensures s.threads[t].why.msg in s.msgs
  {
    assert ThreadOk(s, t);
  }

  lemma StepPerformingKeeps(s: State, c: CapId, a: Action, t: Tid, held: Option<Mid>)
    requires Inv(s) && c in s.caps && s.caps[c].pc == Performing(t, held) && t in s.threads
             && StepPerforming(s, c, a, t, held).Some?
    ensures Kept(s, StepPerforming(s, c, a, t, held).value, c)
  {
    hide Inv, Kept, ThreadOk, InboxOk;
    CapFacts(s, c, t);
    var q := s.threads[t].queue;
    if q == [] {
      PcKeeps(s, c, if held.Some? then Returning(held.value) else Idle, t);
    } else if s.msgs[q[0]].header == MSG_NULL {
      PopKeeps(s, c, t, q[0], s.msgs[q[0]].(place := Gone));
    } else if held.Some? {
      PauseRaiseKeeps(s, c, t, q[0], held.value, a.dies);
    } else {
      PerformRaiseKeeps(s, c, t, q[0], a.dies);
    }
  }

  lemma StepKeeps(s: State, c: CapId, a: Action)
    requires Inv(s) && Step(s, c, a).Some?
    ensures Kept(s, Step(s, c, a).value, c)
  {
    hide Inv, Kept, ThreadOk, InboxOk, StepIdle, StepThrowing, StepPerforming, PopQueue;
    CapFacts(s, c, 0);
    match s.caps[c].pc
    case Idle => StepIdleKeeps(s, c, a);
    case Handling(m) => LockReceivedKeeps(s, c, m);
    case Looking(m) => StepLookingKeeps(s, c, a, m);
    case Throwing(m, exec) => StepThrowingKeeps(s, c, a, m, s.msgs[m].target, exec);
    case Spinning(m, other, exec) => LockOtherKeeps(s, c, m, other, exec);
    case Claimed(m, other, exec) => StepClaimedKeeps(s, c, a, m, other, exec);
    case Waking(m, other, exec) => UnblockedKeeps(s, c, m, exec);
    case Placed(m, exec) => StepPlacedKeeps(s, c, a, m, exec);
    case Returning(m) => StepReturningKeeps(s, c, a, m);
    case Performing(t, held) => StepPerformingKeeps(s, c, a, t, held);
    case Awakening(t) => StepAwakeningKeeps(s, c, a, t);
  }

  lemma StepLookingKeeps(s: State, c: CapId, a: Action, m: Mid)
    requires Inv(s) && c in s.caps && s.caps[c].pc == Looking(m) && m in s.msgs && StepLooking(s, c, a, m).Some?
    ensures Kept(s, StepLooking(s, c, a, m).value, c)
  {
    hide Inv, Kept, ThreadOk, InboxOk;
    InHandFacts(s, c, m);
    if a == DropNull {
      DropNullKeeps(s, c, m);
    } else {
      PcKeeps(s, c, Throwing(m, true), s.msgs[m].target);
    }
  }

  lemma StepClaimedKeeps(s: State, c: CapId, a: Action, m: Mid, other: Mid, exec: bool)
    requires Inv(s) && c in s.caps && s.caps[c].pc == Claimed(m, other, exec) && m in s.msgs && other in s.msgs
             && s.msgs[m].target in s.threads
    requires StepClaimed(s, c, a, m, other, s.msgs[m].target, exec).Some?
    ensures Kept(s, StepClaimed(s, c, a, m, other, s.msgs[m].target, exec).value, c)
  {
    hide Inv, Kept;
    if s.msgs[other].header == MSG_NULL {
      RevokedKeeps(s, c, m, other, exec);
    } else if Uninterruptible(s.threads[s.msgs[m].target]) {
      ClaimedMaskedKeeps(s, c, m, other, exec);
    } else {
      ClaimedRaiseKeeps(s, c, m, other, exec, a.dies);
    }
  }

  lemma StepPlacedKeeps(s: State, c: CapId, a: Action, m: Mid, exec: bool)
    requires Inv(s) && c in s.caps && s.caps[c].pc == Placed(m, exec) && m in s.msgs
             && StepPlaced(s, c, a, m, exec).Some?
    ensures Kept(s, StepPlaced(s, c, a, m, exec).value, c)
  {
    hide Inv, Kept, ThreadOk, InboxOk;
    CapFacts(s, c, 0);
    if a == Unlock {
      UnlockKeeps(s, c, m);
    } else {
      BlockSourceKeeps(s, c, m);
    }
  }

  lemma StepReturningKeeps(s: State, c: CapId, a: Action, m: Mid)
    requires Inv(s) && c in s.caps && s.caps[c].pc == Returning(m) && m in s.msgs && StepReturning(s, c, a, m).Some?
    ensures Kept(s, StepReturning(s, c, a, m).value, c)
  {
    hide Inv, Kept, ThreadOk, InboxOk;
    CapFacts(s, c, 0);
    if a == Unlock {
      UnlockKeeps(s, c, m);
    } else {
      PcKeeps(s, c, Performing(s.msgs[m].source, Some(m)), s.msgs[m].source);
    }
  }

  lemma StepAwakeningKeeps(s: State, c: CapId, a: Action, t: Tid)
    requires Inv(s) && c in s.caps && s.caps[c].pc == Awakening(t) && t in s.threads && StepAwakening(s, c, a, t).Some?
    ensures Kept(s, StepAwakening(s, c, a, t).value, c)
  {
    hide Inv, Kept, ThreadOk, InboxOk;
    CapFacts(s, c, t);
    var q := s.threads[t].queue;
    if q == [] {
      PcKeeps(s, c, Idle, t);
    } else {
      PopKeeps(s, c, t, q[0], Finished(s.msgs[q[0]], true, false));
    }
  }

  // ----- Runs -----

  predicate Initial(s: State) {
    && s.msgs == map[]
    && (forall c | c in s.caps :: s.caps[c] == Cap([], Idle))
    && (forall t | t in s.threads ::
              s.threads[t].cap in s.caps && s.threads[t].queue == [] && !s.threads[t].why.OnThrowTo?)
  }

  /** Each state comes from the one before by a step of some capability. */
  ghost predicate Run(states: seq<State>) {
    && states != [] && Initial(states[0])
    && forall i | 0 <= i < |states| - 1 :: exists c, a :: Step(states[i], c, a) == Some(states[i + 1])
  }

  lemma InitialInv(s: State)
    requires Initial(s)
    ensures Inv(s)
  {
  }

  lemma {:induction false} RunKeeps(states: seq<State>, i: nat)
    requires Run(states) && i < |states|
    ensures Inv(states[i])
    decreases i
  {
    hide Inv, Step, Initial;
    if i == 0 {
      InitialInv(states[0]);
    } else {
      RunKeeps(states, i - 1);
      var c, a :| Step(states[i - 1], c, a) == Some(states[i - 1 + 1]);
      StepKeeps(states[i - 1], c, a);
    }
  }

  // ----- What the invariant says -----

  /** A message is in at most one place, once. */
  lemma AtMostOnePlace(s: State, m: Mid, p: Place, q: Place)
    requires Inv(s) && AtPlace(s, m, p) && AtPlace(s, m, q)
    ensures p == q && m in s.msgs && s.msgs[m].place == p
    ensures p.InInbox? ==> Distinct(s.caps[p.cap].inbox)
    ensures p.InQueue? ==> Distinct(s.threads[p.thread].queue) && s.msgs[m].target == p.thread
  {
    PlaceKnown(s, m, p);
    PlaceKnown(s, m, q);
  }

  lemma PlaceKnown(s: State, m: Mid, p: Place)
    requires Inv(s) && AtPlace(s, m, p)
    ensures m in s.msgs && s.msgs[m].place == p
    ensures p.InInbox? ==> Distinct(s.caps[p.cap].inbox)
    ensures p.InQueue? ==> Distinct(s.threads[p.thread].queue) && s.msgs[m].target == p.thread
  {
    match p
    case InInbox(c) => assert CapOk(s, c);
    case InHand(c) => assert CapOk(s, c);
    case InQueue(t) => assert ThreadOk(s, t);
    case Gone =>
  }

  /** A message that can still be received has not been raised. */
  lemma NotYetRaised(s: State, m: Mid, p: Place)
    requires Inv(s) && AtPlace(s, m, p)
    ensures s.msgs[m].raised <= 1 && (s.msgs[m].header == MSG_THROWTO ==> s.msgs[m].raised == 0)
  {
    hide CapOk, ThreadOk;
    PlaceKnown(s, m, p);
    assert MsgOk(s, m);
  }

  /** In every run the exception of a message is raised at most once, and never after the message was revoked. */
  lemma RaisedAtMostOnce(states: seq<State>, i: nat, j: nat, m: Mid)
    requires Run(states) && i <= j < |states| && m in states[i].msgs
    ensures m in states[j].msgs && states[j].msgs[m].raised <= 1
    ensures states[i].msgs[m].header == MSG_NULL ==>
              states[j].msgs[m].header == MSG_NULL && states[j].msgs[m].raised == states[i].msgs[m].raised
  {
    hide Inv;
    StaysRevoked(states, i, j, m);
    RunKeeps(states, j);
    MsgFacts(states[j], m);
  }

  lemma {:induction false} StaysRevoked(states: seq<State>, i: nat, j: nat, m: Mid)
    requires Run(states) && i <= j < |states| && m in states[i].msgs
    ensures m in states[j].msgs
    ensures states[i].msgs[m].header == MSG_NULL ==>
              states[j].msgs[m].header == MSG_NULL && states[j].msgs[m].raised == states[i].msgs[m].raised
    decreases j
  {
    hide Inv, Step, Initial;
    if i < j {
      StaysRevoked(states, i, j - 1, m);
      RunKeeps(states, j - 1);
      var c, a :| Step(states[j - 1], c, a) == Some(states[j - 1 + 1]);
      StepKeeps(states[j - 1], c, a);
    }
  }

  // ----- Whom exceptions are raised in -----

  /** An exception is only raised by the capability that owns the target, in a thread that is alive and either unmasked,
      or interruptible and blocked in an operation that can be interrupted. New messages have not been raised. */
  lemma RaisedOnlyIfAllowed(s: State, c: CapId, a: Action, m: Mid)
    requires Inv(s) && Raises(s, c, a, m)
    ensures m in s.msgs && s.msgs[m].header == MSG_THROWTO && s.msgs[m].target in s.threads
    ensures var th := s.threads[s.msgs[m].target];
            && th.cap == c && !th.dead
            && (!th.blockex || (th.interruptible && (th.why == Interruptible || th.why.OnThrowTo?)))
  {
    hide Distinct, InboxOk, StepIdle, StepLooking, StepThrowing, StepClaimed, StepPlaced, StepReturning, StepPerforming,
         StepAwakening, Holds, FirstBlocked;
    assert c in s.caps && CapOk(s, c);
    match s.caps[c].pc
    case Throwing(_, _) => ThrowingRaises(s, c, a, m);
    case Claimed(_, _, _) => ClaimedRaises(s, c, a, m);
    case Performing(t, _) => QueueKnown(s, t); PerformingRaises(s, c, a, m);
    case _ => NothingRaised(s, c, a, m);
  }

  ghost predicate Raises(s: State, c: CapId, a: Action, m: Mid) {
    Step(s, c, a).Some? && m in Step(s, c, a).value.msgs
    && Step(s, c, a).value.msgs[m].raised > if m in s.msgs then s.msgs[m].raised else 0
  }

  lemma NothingRaised(s: State, c: CapId, a: Action, m: Mid)
    requires c in s.caps && Raises(s, c, a, m)
    ensures s.caps[c].pc.Throwing? || s.caps[c].pc.Claimed? || s.caps[c].pc.Performing?
  {
    hide StepThrowing, StepClaimed, StepPerforming, StepIdle, StepReturning, StepAwakening;
    match s.caps[c].pc
    case Idle => IdleRaisesNothing(s, c, a, m);
    case Returning(x) => if x in s.msgs { ReturningRaisesNothing(s, c, a, x, m); }
    case Awakening(t) => if t in s.threads { AwakeningRaisesNothing(s, c, a, t, m); }
    case _ =>
  }

  lemma ReturningRaisesNothing(s: State, c: CapId, a: Action, x: Mid, m: Mid)
    requires c in s.caps && x in s.msgs && StepReturning(s, c, a, x).Some?
    ensures m in StepReturning(s, c, a, x).value.msgs ==>
              m in s.msgs && StepReturning(s, c, a, x).value.msgs[m].raised == s.msgs[m].raised
  {
  }

  lemma AwakeningRaisesNothing(s: State, c: CapId, a: Action, t: Tid, m: Mid)
    requires c in s.caps && t in s.threads && StepAwakening(s, c, a, t).Some?
    ensures m in StepAwakening(s, c, a, t).value.msgs ==>
              m in s.msgs && StepAwakening(s, c, a, t).value.msgs[m].raised == s.msgs[m].raised
  {
  }

  lemma IdleRaisesNothing(s: State, c: CapId, a: Action, m: Mid)
    requires c in s.caps && StepIdle(s, c, a).Some?
    ensures m in StepIdle(s, c, a).value.msgs ==>
              StepIdle(s, c, a).value.msgs[m].raised == if m in s.msgs then s.msgs[m].raised else 0
  {
    hide Owns;
  }

  /** `c` raises the exception of `m` in a thread of its own. */
  ghost predicate Allowed(s: State, c: CapId, m: Mid) {
    && m in s.msgs && s.msgs[m].header == MSG_THROWTO && Owns(s, s.msgs[m].target, c)
    && CanTake(s.threads[s.msgs[m].target])
  }

  lemma ThrowingRaises(s: State, c: CapId, a: Action, m: Mid)
    requires c in s.caps && s.caps[c].pc.Throwing? && CapOk(s, c) && Raises(s, c, a, m)
    ensures Allowed(s, c, m)
  {
    hide Distinct, InboxOk, StepIdle, StepClaimed, StepPerforming;
  }

  lemma ClaimedRaises(s: State, c: CapId, a: Action, m: Mid)
    requires c in s.caps && s.caps[c].pc.Claimed? && PcOk(s, c, s.caps[c].pc) && Raises(s, c, a, m)
    ensures Allowed(s, c, m)
  {
    hide StepIdle, StepThrowing, StepPerforming, SourceHere;
  }

  lemma PerformingRaises(s: State, c: CapId, a: Action, m: Mid)
    requires c in s.caps && s.caps[c].pc.Performing? && PcOk(s, c, s.caps[c].pc) && Raises(s, c, a, m)
    requires QueueTargets(s, s.caps[c].pc.t)
    ensures Allowed(s, c, m)
  {
    hide StepIdle, StepThrowing, StepClaimed, Passed;
  }

  ghost predicate QueueTargets(s: State, t: Tid) {
    t in s.threads && forall m | m in s.threads[t].queue :: m in s.msgs && s.msgs[m].target == t
  }

  lemma QueueKnown(s: State, t: Tid)
    requires Inv(s) && t in s.threads
    ensures QueueTargets(s, t)
  {
    hide Distinct, CapOk, MsgOk;
    assert ThreadOk(s, t);
  }

  /** The message waits in the queue of the thread, first, and nothing else has happened to the thread. */
  ghost predicate QueuedOn(s: State, s': State, m: Mid, t: Tid) {
    && m in s.msgs && m in s'.msgs && t in s.threads && t in s'.threads
    && s'.threads[t] == s.threads[t].(queue := [m] + s.threads[t].queue)
    && s'.msgs[m] == s.msgs[m].(place := InQueue(t))
  }

  /** The exception has been raised in the thread, which runs, or dies, and the message is done with. */
  ghost predicate RaisedIn(s: State, s': State, m: Mid, t: Tid) {
    && m in s.msgs && m in s'.msgs && t in s.threads && t in s'.threads
    && s'.msgs[m].raised == s.msgs[m].raised + 1 && s'.msgs[m].place == Gone && s'.msgs[m].lock == None
    && s'.threads[t].why == NotBlocked && (s.threads[t].dead ==> s'.threads[t].dead)
  }

  /** What throwToMsg does with a target, whatever its state. */
  lemma ThrowDecides(s: State, c: CapId, m: Mid, exec: bool, a: Action)
    requires Inv(s) && c in s.caps && s.caps[c].pc == Throwing(m, exec) && Step(s, c, a).Some?
    ensures m in s.msgs && s.msgs[m].target in s.threads && m in Step(s, c, a).value.msgs
    ensures var s', t := Step(s, c, a).value, s.msgs[m].target; var th := s.threads[t];
            && (s'.msgs[m].place == Gone ==> s'.msgs[m].header == if exec then MSG_NULL else MSG_THROWTO)
            && (th.dead ==>
                  s'.msgs[m].raised == s.msgs[m].raised && s'.msgs[m].place == Gone && s'.threads == s.threads)
            && (!th.dead && th.cap != c ==>
                  a.Send? && a.to in s.caps && a.to in s'.caps && s'.caps[a.to].inbox == [m] + s.caps[a.to].inbox
                  && s'.msgs[m] == s.msgs[m].(place := InInbox(a.to)) && s'.threads == s.threads)
            && (!th.dead && th.cap == c && (th.why == NotBlocked || th.why == OnBlackHole) ==>
                  if th.blockex then QueuedOn(s, s', m, t) else RaisedIn(s, s', m, t))
            && (!th.dead && th.cap == c && th.why == Interruptible ==>
                  if th.blockex && !th.interruptible then QueuedOn(s, s', m, t) else RaisedIn(s, s', m, t))
            && (!th.dead && th.cap == c && th.why == InCCall ==> QueuedOn(s, s', m, t))
            && (!th.dead && th.cap == c && (th.why.OnThrowTo? || th.why == Migrating) ==>
                  s'.msgs[m].raised == s.msgs[m].raised)
  {
    hide CapOk, ThreadOk, Distinct, StepIdle, StepClaimed, StepPerforming, StepLooking, StepPlaced, StepReturning,
         StepAwakening, SourceHere, Holds, Inv;
    assert PcOk(s, c, s.caps[c].pc) by { CapKnown(s, c); }
    MsgFacts(s, m);
  }

  /** It can always do something, except wait for a lock. */
  lemma ThrowGoesOn(s: State, c: CapId, m: Mid, exec: bool) returns (a: Action)
    requires Inv(s) && c in s.caps && s.caps[c].pc == Throwing(m, exec)
    ensures Step(s, c, a).Some?
  {
    hide Distinct, InboxOk;
    assert CapOk(s, c);
    assert MsgOk(s, m) && ThreadOk(s, s.msgs[m].target);
    var th := s.threads[s.msgs[m].target];
    a := if th.dead then TargetDead
         else if th.cap != c then Send(th.cap)
         else match th.why
              case NotBlocked | OnBlackHole => if th.blockex then BlockOnTarget else RaiseNow(false)
              case Interruptible => if th.blockex && !th.interruptible then BlockOnTarget else RaiseNow(false)
              case InCCall => BlockOnTarget
              case OnThrowTo(other) => if other < m then Spin else TryLock
              case Migrating => Migrated;
  }

  /** The target is blocked on a message of its own, which is locked too: if that message was revoked, the target is
      woken first; otherwise it is revoked now and the exception raised, unless the target is masked. */
  lemma ClaimDecides(s: State, c: CapId, m: Mid, other: Mid, exec: bool, a: Action)
    requires Inv(s) && c in s.caps && s.caps[c].pc == Claimed(m, other, exec) && Step(s, c, a).Some?
    ensures m in s.msgs && other in s.msgs && s.msgs[m].target in s.threads && other in Step(s, c, a).value.msgs
    ensures var s', t := Step(s, c, a).value, s.msgs[m].target; var th := s.threads[t];
            && s'.msgs[other].lock == None && s'.msgs[other].raised == s.msgs[other].raised
            && (s.msgs[other].header == MSG_NULL ==>
                  s'.threads == s.threads && s'.msgs == s.msgs[other := s'.msgs[other]])
            && (s.msgs[other].header == MSG_THROWTO && th.blockex && !th.interruptible ==>
                  QueuedOn(s, s', m, t) && s'.msgs[other].header == MSG_THROWTO)
            && (s.msgs[other].header == MSG_THROWTO && !(th.blockex && !th.interruptible) ==>
                  RaisedIn(s, s', m, t) && s'.msgs[other].header == MSG_NULL)
  {
    hide CapOk, MsgOk, Distinct, StepIdle, StepThrowing, StepPerforming;
    assert PcOk(s, c, s.caps[c].pc) by { CapKnown(s, c); }
    assert ThreadOk(s, s.msgs[m].target);
  }

  /** maybePerformBlockedException takes the first message of the queue; it drops it if it was revoked, and otherwise
      raises its exception, after revoking the message that the thread itself is blocked on. */
  lemma PerformDecides(s: State, c: CapId, t: Tid, held: Option<Mid>, a: Action)
    requires Inv(s) && c in s.caps && s.caps[c].pc == Performing(t, held) && Step(s, c, a).Some?
    ensures t in s.threads && t in Step(s, c, a).value.threads
    ensures var s', q := Step(s, c, a).value, s.threads[t].queue;
            && (q == [] ==> s'.threads == s.threads && s'.msgs == s.msgs)
            && (q != [] ==>
                  && q[0] in s.msgs && q[0] in s'.msgs && s.msgs[q[0]].target == t && s'.threads[t].queue == q[1..]
                  && (if s.msgs[q[0]].header == MSG_NULL
                      then s'.msgs[q[0]] == s.msgs[q[0]].(place := Gone) && s'.caps == s.caps
                      else RaisedIn(s, s', q[0], t)
                           && (held.Some? ==> held.value in s'.msgs && s'.msgs[held.value].header == MSG_NULL
                                              && s'.msgs[held.value].lock == None)))
  {
    hide CapOk, ThreadOk, MsgOk, Distinct, StepIdle, StepThrowing, StepClaimed;
    assert PcOk(s, c, s.caps[c].pc) by { CapKnown(s, c); }
    QueueKnown(s, t);
  }

  lemma CapKnown(s: State, c: CapId)
    requires Inv(s) && c in s.caps
    ensures PcOk(s, c, s.caps[c].pc)
  {
    assert CapOk(s, c);
  }

  /** It starts as soon as the thread may take an exception, and only then. */
  lemma PerformStarts(s: State, c: CapId, t: Tid)
    requires Inv(s) && c in s.caps && t in s.threads && s.threads[t].cap == c && s.threads[t].queue != []
    requires !s.threads[t].dead
    ensures s.caps[c].pc == Idle && !s.threads[t].why.OnThrowTo? ==>
              (Step(s, c, Perform(t)).Some? <==>
                 !s.threads[t].blockex || (s.threads[t].interruptible && s.threads[t].why == Interruptible))
    ensures s.caps[c].pc.Returning? && s.caps[c].pc.m in s.msgs && s.msgs[s.caps[c].pc.m].source == t ==>
              (Step(s, c, PerformFromPause).Some? <==> !s.threads[t].blockex || s.threads[t].interruptible)
  {
    hide CapOk, ThreadOk, MsgOk;
  }

  /** When a thread has died, what is left in its queue is dropped without being raised. */
  lemma AwakenDecides(s: State, c: CapId, t: Tid, a: Action)
    requires Inv(s) && c in s.caps && s.caps[c].pc == Awakening(t) && Step(s, c, a).Some?
    ensures t in s.threads && t in Step(s, c, a).value.threads
    ensures var s', q := Step(s, c, a).value, s.threads[t].queue;
            && (q == [] ==> s'.threads == s.threads && s'.msgs == s.msgs)
            && (q != [] ==>
                  && q[0] in s.msgs && q[0] in s'.msgs && s'.threads[t].queue == q[1..]
                  && s'.msgs[q[0]].raised == s.msgs[q[0]].raised && s'.msgs[q[0]].header == MSG_NULL
                  && s'.msgs[q[0]].place == Gone)
  {
    hide Distinct, InboxOk;
    assert CapOk(s, c);
    assert ThreadOk(s, t);
  }

  // ----- When the source goes on -----

  /** throwTo blocks its source until the exception has been raised or the message has been revoked. */
  lemma SourceWaits(s: State, c: CapId, a: Action, t: Tid)
    requires Inv(s) && Step(s, c, a).Some? && t in s.threads && s.threads[t].why.OnThrowTo?
    requires t in Step(s, c, a).value.threads && Step(s, c, a).value.threads[t].why != s.threads[t].why
    ensures var m, s' := s.threads[t].why.msg, Step(s, c, a).value; m in s'.msgs && s'.msgs[m].header == MSG_NULL
  {
    hide Distinct, InboxOk, StepIdle, StepLooking, StepThrowing, StepClaimed, StepPlaced, StepReturning, StepPerforming,
         StepAwakening, Holds, FirstBlocked;
    assert CapOk(s, c) && ThreadOk(s, t);
    match s.caps[c].pc
    case Idle => IdleWakes(s, c, a, t);
    case Throwing(m, exec) => ThrowingWakesNone(s, c, a, m, s.msgs[m].target, exec, t);
    case Claimed(m, other, exec) => ClaimedWakes(s, c, a, m, other, exec, t);
    case Placed(m, exec) => PlacedWakesNone(s, c, a, m, exec, t);
    case Performing(u, held) => PerformingWakes(s, c, a, u, held, t);
    case _ => OthersWakeNone(s, c, a, t);
  }

  lemma IdleWakes(s: State, c: CapId, a: Action, t: Tid)
    requires c in s.caps && StepIdle(s, c, a).Some? && t in s.threads && s.threads[t].why.OnThrowTo?
    requires s.threads[t].why.msg in s.msgs
    ensures var s' := StepIdle(s, c, a).value;
            && t in s'.threads && s.threads[t].why.msg in s'.msgs
            && (s'.threads[t].why != s.threads[t].why ==> s'.msgs[s.threads[t].why.msg].header == MSG_NULL)
  {
  }

  lemma ThrowingWakesNone(s: State, c: CapId, a: Action, m: Mid, u: Tid, exec: bool, t: Tid)
    requires c in s.caps && m in s.msgs && u in s.threads && StepThrowing(s, c, a, m, u, exec).Some?
    requires t in s.threads && s.threads[t].why.OnThrowTo?
    ensures var s' := StepThrowing(s, c, a, m, u, exec).value;
            t in s'.threads && s'.threads[t].why == s.threads[t].why
  {
  }

  lemma ClaimedWakes(s: State, c: CapId, a: Action, m: Mid, other: Mid, exec: bool, t: Tid)
    requires Inv(s) && c in s.caps && s.caps[c].pc == Claimed(m, other, exec) && Step(s, c, a).Some?
    requires t in s.threads && s.threads[t].why.OnThrowTo?
    ensures var s' := Step(s, c, a).value;
            && t in s'.threads
            && (s'.threads[t].why != s.threads[t].why ==>
                  s.threads[t].why.msg == other && other in s'.msgs && s'.msgs[other].header == MSG_NULL)
  {
    hide CapOk, MsgOk, ThreadOk, Distinct, StepIdle, StepThrowing, StepPerforming;
    assert PcOk(s, c, s.caps[c].pc) by { CapKnown(s, c); }
    NotSelfBlocked(s, m, other);
  }

  lemma NotSelfBlocked(s: State, m: Mid, other: Mid)
    requires Inv(s) && m in s.msgs && s.msgs[m].target in s.threads
    requires s.threads[s.msgs[m].target].why == OnThrowTo(other)
    ensures m != other
  {
    assert ThreadOk(s, s.msgs[m].target);
  }

  lemma PlacedWakesNone(s: State, c: CapId, a: Action, m: Mid, exec: bool, t: Tid)
    requires Inv(s) && c in s.caps && s.caps[c].pc == Placed(m, exec) && Step(s, c, a).Some?
    requires t in s.threads && s.threads[t].why.OnThrowTo?
    ensures var s' := Step(s, c, a).value; t in s'.threads && s'.threads[t].why == s.threads[t].why
  {
    hide CapOk, MsgOk, ThreadOk, Distinct, StepIdle, StepThrowing, StepPerforming, StepClaimed;
    assert PcOk(s, c, s.caps[c].pc) by { CapKnown(s, c); }
  }

  lemma PerformingWakes(s: State, c: CapId, a: Action, u: Tid, held: Option<Mid>, t: Tid)
    requires Inv(s) && c in s.caps && s.caps[c].pc == Performing(u, held) && Step(s, c, a).Some?
    requires t in s.threads && s.threads[t].why.OnThrowTo?
    ensures var s' := Step(s, c, a).value;
            && t in s'.threads
            && (s'.threads[t].why != s.threads[t].why ==>
                  held == Some(s.threads[t].why.msg) && held.value in s'.msgs && s'.msgs[held.value].header == MSG_NULL)
  {
    hide CapOk, MsgOk, ThreadOk, Distinct, StepIdle, StepThrowing, StepClaimed;
    assert PcOk(s, c, s.caps[c].pc) by { CapKnown(s, c); }
    if s.threads[u].queue != [] { PerformDecides(s, c, u, held, a); }
  }

  lemma OthersWakeNone(s: State, c: CapId, a: Action, t: Tid)
    requires Inv(s) && c in s.caps && Step(s, c, a).Some? && t in s.threads && s.threads[t].why.OnThrowTo?
    requires s.caps[c].pc.Handling? || s.caps[c].pc.Looking? || s.caps[c].pc.Spinning? || s.caps[c].pc.Waking?
             || s.caps[c].pc.Returning? || s.caps[c].pc.Awakening?
    ensures var s' := Step(s, c, a).value;
            && t in s'.threads
            && (s'.threads[t].why != s.threads[t].why ==>
                  s.threads[t].why.msg in s'.msgs && s'.msgs[s.threads[t].why.msg].header == MSG_NULL)
  {
    hide CapOk, MsgOk, ThreadOk, Distinct, StepIdle, StepThrowing, StepClaimed, StepPerforming;
    assert PcOk(s, c, s.caps[c].pc) by { CapKnown(s, c); }
  }

  /** What an idle capability can do: start a throwTo of a thread that runs, receive the message that has come last, and
      wake a thread whose message has been finished or revoked, and no other one that is blocked on a message. */
  lemma IdleCan(s: State, c: CapId, t: Tid)
    requires Inv(s) && c in s.caps && s.caps[c].pc == Idle && t in s.threads && s.threads[t].cap == c
    ensures forall m, u | m !in s.msgs && u in s.threads && s.threads[t].why == NotBlocked && !s.threads[t].dead ::
              && Step(s, c, Create(m, t, u)).Some?
              && var s' := Step(s, c, Create(m, t, u)).value;
                 c in s'.caps && s'.caps[c].pc == Throwing(m, false) && m in s'.msgs && s'.msgs[m].lock == Some(c)
                 && s'.msgs[m].source == t && s'.msgs[m].target == u && s'.threads == s.threads
    ensures s.caps[c].inbox != [] ==>
              && Step(s, c, Receive).Some? && c in Step(s, c, Receive).value.caps
              && Step(s, c, Receive).value.caps[c] == Cap(s.caps[c].inbox[1..], Handling(s.caps[c].inbox[0]))
    ensures var why := s.threads[t].why;
            Step(s, c, TryWakeup(t)).Some? <==>
              (why.OnThrowTo? ==>
                 why.msg in s.msgs && s.msgs[why.msg].lock == None && s.msgs[why.msg].header == MSG_NULL)
    ensures Step(s, c, Awaken(t)).Some? <==> s.threads[t].dead
  {
    hide Distinct, ThreadOk, MsgOk;
    assert CapOk(s, c);
  }

  // ----- Waiting for locks -----

  /** `c` spins on a message that `d` has locked. */
  predicate WaitsFor(s: State, c: CapId, d: CapId) {
    && c in s.caps && Wants(s, s.caps[c].pc).Some? && Wants(s, s.caps[c].pc).value in s.msgs
    && s.msgs[Wants(s, s.caps[c].pc).value].lock == Some(d)
  }

  /** What a waiting capability holds. */
  lemma HeldWhileWaiting(s: State, c: CapId, pc: Pc, x: Mid)
    requires PcOk(s, c, pc) && Wants(s, pc).Some? && x in Holds(pc)
    ensures x in s.msgs && s.msgs[x].header == MSG_THROWTO
    ensures (pc.Spinning? && pc.m == x) || (pc.Waking? && pc.m == x) || (pc.Performing? && pc.held == Some(x))
    ensures pc.Performing? || s.msgs[x].place == InHand(c)
    ensures pc.Performing? ==>
              Passed(s, x, c) && s.msgs[x].source == pc.t && pc.t in s.threads && s.threads[pc.t].why == OnThrowTo(x)
  {
  }

  /** Where the message is that a capability waits for. */
  lemma WaitFacts(s: State, c: CapId, d: CapId)
    requires Inv(s) && WaitsFor(s, c, d)
    ensures c in s.caps && d in s.caps && PcOk(s, c, s.caps[c].pc) && PcOk(s, d, s.caps[d].pc)
    ensures var x := Wants(s, s.caps[c].pc).value;
            && x in s.msgs && x in Holds(s.caps[d].pc)
            && (s.caps[c].pc.Performing? ==>
                  Owns(s, s.caps[c].pc.t, c) && s.msgs[x].place == InQueue(s.caps[c].pc.t)
                      && s.msgs[x].target == s.caps[c].pc.t
                  && ThreadOk(s, s.caps[c].pc.t))
  {
    hide PcOk, Holds, Passed;
    var x := Wants(s, s.caps[c].pc).value;
    CapFacts(s, c, 0);
    assert MsgOk(s, x);
    CapFacts(s, d, 0);
    if s.caps[c].pc.Performing? {
      PerformingOwns(s, c);
      assert ThreadOk(s, s.caps[c].pc.t);
    }
  }

  lemma PerformingOwns(s: State, c: CapId)
    requires c in s.caps && PcOk(s, c, s.caps[c].pc) && s.caps[c].pc.Performing?
    ensures Owns(s, s.caps[c].pc.t, c)
  {
  }

  /** A capability that waits and is waited for, as the one that it waits for, spins for the target's message, from a
      greater to a smaller address. */
  lemma WaitsDownwards(s: State, b: CapId, c: CapId, d: CapId)
    requires Inv(s) && WaitsFor(s, b, c) && WaitsFor(s, c, d) && d in s.caps && Wants(s, s.caps[d].pc).Some?
    ensures c in s.caps && s.caps[c].pc.Spinning? && s.caps[c].pc.other < s.caps[c].pc.m
    ensures s.caps[d].pc.Spinning? ==> s.caps[d].pc.m == s.caps[c].pc.other
  {
    hide Inv, ThreadOk, PcOk, Holds;
    WaitFacts(s, b, c);
    WaitFacts(s, c, d);
    var x, y := Wants(s, s.caps[b].pc).value, Wants(s, s.caps[c].pc).value;
    HeldWhileWaiting(s, c, s.caps[c].pc, x);
    HeldWhileWaiting(s, d, s.caps[d].pc, y);
    WakingOrSpinning(s, c);
    if s.caps[c].pc.Performing? {
      NotOwnMessage(s, s.caps[c].pc.t, y);
    }
  }

  lemma WakingOrSpinning(s: State, c: CapId)
    requires c in s.caps && PcOk(s, c, s.caps[c].pc)
    ensures s.caps[c].pc.Waking? ==> s.caps[c].pc.other in s.msgs && s.msgs[s.caps[c].pc.other].header == MSG_NULL
    ensures s.caps[c].pc.Spinning? ==> s.caps[c].pc.other < s.caps[c].pc.m
  {
  }

  lemma NotOwnMessage(s: State, t: Tid, y: Mid)
    requires t in s.threads && ThreadOk(s, t) && y in s.msgs && s.msgs[y].target == t
    ensures s.threads[t].why != OnThrowTo(y)
  {
  }

  function Next(cs: seq<CapId>, i: nat): CapId
    requires i < |cs|
  {
    if i + 1 < |cs| then cs[i + 1] else cs[0]
  }

  /** Capabilities that wait for one another in a ring. */
  predicate Ring(s: State, cs: seq<CapId>) {
    cs != [] && forall i | 0 <= i < |cs| :: WaitsFor(s, cs[i], Next(cs, i))
  }

  /** There is no deadlock among the spinning capabilities. */
  lemma NoRing(s: State, cs: seq<CapId>)
    requires Inv(s)
    ensures !Ring(s, cs)
  {
    hide Inv;
    if Ring(s, cs) {
      var n: nat := |cs| - 1;
      Descends(s, cs, n);
      RingStep(s, cs, n);
    }
  }

  lemma RingStep(s: State, cs: seq<CapId>, i: nat)
    requires Inv(s) && Ring(s, cs) && i < |cs|
    ensures var c, d := cs[i], Next(cs, i);
            && c in s.caps && d in s.caps && s.caps[c].pc.Spinning? && s.caps[d].pc.Spinning?
            && s.caps[d].pc.m == s.caps[c].pc.other < s.caps[c].pc.m
  {
    hide Inv, WaitsFor;
    var h: nat := if i > 0 then i - 1 else |cs| - 1;
    var j: nat := if i + 1 < |cs| then i + 1 else 0;
    RingAt(s, cs, h);
    RingAt(s, cs, i);
    RingAt(s, cs, j);
    RingAt(s, cs, if j + 1 < |cs| then j + 1 else 0);
    WaitsDownwards(s, cs[h], cs[i], cs[j]);
    WaitsDownwards(s, cs[i], cs[j], Next(cs, j));
  }

  lemma RingAt(s: State, cs: seq<CapId>, i: nat)
    requires Ring(s, cs) && i < |cs|
    ensures WaitsFor(s, cs[i], Next(cs, i)) && cs[i] in s.caps && Wants(s, s.caps[cs[i]].pc).Some?
  {
  }

  lemma {:induction false} Descends(s: State, cs: seq<CapId>, k: nat)
    requires Inv(s) && Ring(s, cs) && k < |cs|
    ensures cs[0] in s.caps && cs[k] in s.caps && s.caps[cs[0]].pc.Spinning? && s.caps[cs[k]].pc.Spinning?
    ensures s.caps[cs[k]].pc.m <= s.caps[cs[0]].pc.m
    decreases k
  {
    hide Inv, Ring;
    if k > 0 {
      Descends(s, cs, k - 1);
      RingStep(s, cs, k - 1);
    } else {
      RingStep(s, cs, 0);
    }
  }

  // ----- Somebody can always go on -----

  ghost predicate CanStep(s: State, c: CapId) {
    exists a :: Step(s, c, a).Some?
  }

  /** A capability that is in the middle of something can go on, or waits for a message that another has locked. */
  lemma GoesOn(s: State, c: CapId) returns (d: CapId)
    requires Inv(s) && c in s.caps && s.caps[c].pc != Idle
    ensures CanStep(s, c) || WaitsFor(s, c, d)
  {
    hide Distinct, InboxOk, ThreadOk, MsgOk, CapOk;
    d := c;
    assert PcOk(s, c, s.caps[c].pc) by { CapKnown(s, c); }
    match s.caps[c].pc
    case Handling(m) =>
      if s.msgs[m].lock == None { assert Step(s, c, LockReceived).Some?; } else { d := s.msgs[m].lock.value; }
    case Looking(m) =>
      assert Step(s, c, if s.msgs[m].header == MSG_NULL then DropNull else ExecuteThrowTo).Some?;
    case Throwing(m, exec) =>
      var a := ThrowGoesOn(s, c, m, exec);
    case Spinning(m, other, exec) =>
      if s.msgs[other].lock == None { assert Step(s, c, SpinLock).Some?; } else { d := s.msgs[other].lock.value; }
    case Claimed(m, other, exec) =>
      var th := s.threads[s.msgs[m].target];
      assert Step(s, c, if s.msgs[other].header == MSG_NULL then Revoked
                        else if th.blockex && !th.interruptible then ClaimedMasked else ClaimedRaise(false)).Some?;
    case Waking(m, other, exec) =>
      if s.msgs[other].lock == None { assert Step(s, c, Wake).Some?; } else { d := s.msgs[other].lock.value; }
    case Placed(m, exec) =>
      MsgFacts(s, m);
      assert Step(s, c, if exec || s.msgs[m].source == s.msgs[m].target then Unlock else BlockSource).Some?;
    case Returning(m) =>
      assert Step(s, c, Unlock).Some?;
    case Performing(t, held) => d := PerformGoesOn(s, c, t, held);
    case Awakening(t) => d := AwakenGoesOn(s, c, t);
  }

  lemma PerformGoesOn(s: State, c: CapId, t: Tid, held: Option<Mid>) returns (d: CapId)
    requires Inv(s) && c in s.caps && s.caps[c].pc == Performing(t, held)
    ensures CanStep(s, c) || WaitsFor(s, c, d)
  {
    hide Distinct, InboxOk, CapOk;
    d := c;
    assert PcOk(s, c, s.caps[c].pc) by { CapKnown(s, c); }
    assert ThreadOk(s, t);
    var q := s.threads[t].queue;
    if q == [] {
      assert Step(s, c, PerformEnd).Some?;
    } else if s.msgs[q[0]].lock != None {
      d := s.msgs[q[0]].lock.value;
    } else {
      assert Step(s, c, if s.msgs[q[0]].header == MSG_NULL then PerformNull else PerformRaise(false)).Some?;
    }
  }

  lemma AwakenGoesOn(s: State, c: CapId, t: Tid) returns (d: CapId)
    requires Inv(s) && c in s.caps && s.caps[c].pc == Awakening(t)
    ensures CanStep(s, c) || WaitsFor(s, c, d)
  {
    hide Distinct, InboxOk, CapOk;
    d := c;
    assert PcOk(s, c, s.caps[c].pc) by { CapKnown(s, c); }
    assert ThreadOk(s, t);
    var q := s.threads[t].queue;
    if q == [] {
      assert Step(s, c, AwakenEnd).Some?;
    } else if s.msgs[q[0]].lock != None {
      d := s.msgs[q[0]].lock.value;
    } else {
      assert Step(s, c, AwakenOne).Some?;
    }
  }

  /** A capability that is waited for is in the middle of something. */
  lemma Holder(s: State, c: CapId, d: CapId)
    requires Inv(s) && WaitsFor(s, c, d)
    ensures d in s.caps && s.caps[d].pc != Idle && Wants(s, s.caps[c].pc).Some?
  {
    hide Inv, PcOk, Passed;
    WaitFacts(s, c, d);
  }

  /** There is no deadlock: as long as a capability is in the middle of something, it or another one can go on. */
  lemma NoDeadlock(s: State, c: CapId) returns (d: CapId)
    requires Inv(s) && c in s.caps && s.caps[c].pc != Idle
    ensures CanStep(s, d)
  {
    hide Inv, CanStep, WaitsFor;
    d := c;
    if !CanStep(s, c) {
      var c1 := GoesOn(s, c);
      Holder(s, c, c1);
      d := FollowWaits(s, c, c1);
    }
  }

  /** The chain of waits from `b` over `c` ends. */
  lemma FollowWaits(s: State, b: CapId, c: CapId) returns (d: CapId)
    requires Inv(s) && WaitsFor(s, b, c) && c in s.caps
    ensures CanStep(s, d)
    decreases if s.caps[c].pc.Spinning? then 0 else 1, if s.caps[c].pc.Spinning? then s.caps[c].pc.m else 0
  {
    hide Inv, CanStep, WaitsFor, Wants;
    d := c;
    Holder(s, b, c);
    if !CanStep(s, c) {
      var c1 := GoesOn(s, c);
      Holder(s, c, c1);
      d := c1;
      if !CanStep(s, c1) {
        var c2 := GoesOn(s, c1);
        Holder(s, c1, c2);
        WaitsDownwards(s, b, c, c1);
        d := c2;
        if !CanStep(s, c2) {
          var c3 := GoesOn(s, c2);
          Holder(s, c2, c3);
          WaitsDownwards(s, c, c1, c2);
          d := FollowWaits(s, c, c1);
        }
      }
    }
  }
}
