// Thread placement: scheduler.c and the waiting half of mutex.c as interleaved atomic steps.  Every
// label is one atomic action of the source: an atomic operation on a thread's flags, or a list edit
// under its lock.  Any number of resume, timer and notify calls may be in progress at once.
module Scheduler {
  import opened Lists

  type Tid = nat
  type Cpu = nat
  type Mutex = nat
  type Actor = nat

  datatype Flags = Flags(running: bool, exiting: bool, detached: bool, kernel: bool, privileged: bool,
                         startNow: bool, suspending: bool, ksuspend: bool, exited: bool, blocked: bool)

  // The lists a thread's node can be linked into.
  datatype Loc = Queue(cpu: Cpu) | Incoming(cpu: Cpu) | Waiting(mutex: Mutex) | DeadList

  datatype Holder = ByCpu(cpu: Cpu) | ByWaiter(cpu: Cpu) | ByResume(actor: Actor) | ByWaker(actor: Actor)

  datatype Place = Parked | On(loc: Loc) | Held(holder: Holder) | Lost | Freed

  // place, claim, begun and ended are history: no step consults them.  claim is the last timer or
  // notify call that cleared BLOCKED; begun and ended count mutex waits and the hand-offs ending them.
  datatype Thread = Thread(flags: Flags, mutex: Mutex, place: Place, claim: Actor, begun: nat, ended: nat)

  // What a CPU is doing: running thread or idle code, or somewhere in sched_request_switch_from_isr.
  datatype CpuPc =
    | Running(t: Tid) | Idle | Off
    | Entry
    | DrainConcat | DrainLoop | DrainTry(t: Tid)
    | BalanceLoop | BalanceTry(t: Tid)
    | IncomingLoop
    | PickLoop | Picked(t: Tid, flags: Flags)
    | Suspend(t: Tid, flags: Flags)
    | Dying(t: Tid, stage: nat)
    | Blocking(t: Tid, m: Mutex)

  datatype Op = Resume(now: bool) | SuspendOther(kernel: bool)

  datatype ActorPc =
    | Loaded(t: Tid, cur: Flags, op: Op)
    | Resumed(t: Tid)
    | TimerWon(t: Tid, m: Mutex)
    | NotifyScan(m: Mutex, i: nat)
    | NotifyWon(t: Tid, m: Mutex)
    | Woken(t: Tid)

  datatype State = State(threads: map<Tid, Thread>, lists: map<Loc, seq<Tid>>, cpus: map<Cpu, CpuPc>,
                         actors: map<Actor, ActorPc>, locked: map<Mutex, Actor>)

  const NO_FLAGS := Flags(false, false, false, false, false, false, false, false, false, false)

  function At(s: State, l: Loc): seq<Tid> {
    if l in s.lists then s.lists[l] else []
  }

  function Thr(s: State, t: Tid): Thread {
    if t in s.threads then s.threads[t] else Thread(NO_FLAGS, 0, Parked, 0, 0, 0)
  }

  function SetThread(s: State, t: Tid, th: Thread): State { s.(threads := s.threads[t := th]) }

  function SetFlags(s: State, t: Tid, f: Flags): State { SetThread(s, t, Thr(s, t).(flags := f)) }

  function SetPlace(s: State, t: Tid, p: Place): State { SetThread(s, t, Thr(s, t).(place := p)) }

  function SetCpu(s: State, c: Cpu, pc: CpuPc): State { s.(cpus := s.cpus[c := pc]) }

  function SetActor(s: State, a: Actor, pc: ActorPc): State { s.(actors := s.actors[a := pc]) }

  function EndActor(s: State, a: Actor): State { s.(actors := s.actors - {a}) }

  // dlist_append, dlist_prepend and dlist_remove of a thread's node.
  function Link(s: State, t: Tid, l: Loc, front: bool): State {
    SetPlace(s.(lists := s.lists[l := if front then [t] + At(s, l) else At(s, l) + [t]]), t, On(l))
  }

  function Unlink(s: State, t: Tid, l: Loc, p: Place): State {
    SetPlace(s.(lists := s.lists[l := Without(At(s, l), t)]), t, p)
  }

  // thread_handoff: forced hand-offs always append; others only to a running CPU with space.
  function HandOff(s: State, t: Tid, cpu: Cpu, space: bool): State {
    if space then Link(s, t, Incoming(cpu), false) else SetPlace(s, t, Lost)
  }

  predicate MayResume(f: Flags) { !f.exited && !f.exiting && !f.running }

  function MarkRunning(f: Flags, now: bool): Flags {
    f.(running := true, suspending := false, startNow := f.startNow || now)
  }

  predicate Suspendable(f: Flags) { (f.ksuspend || !f.privileged) && f.suspending }

  function MarkSuspended(f: Flags): Flags { f.(running := false, ksuspend := false, suspending := false) }

  predicate Kills(f: Flags, procExiting: bool) { f.exiting || (procExiting && !f.privileged) }

  predicate Allowed(f: Flags, op: Op) {
    match op
    case Resume(_) => MayResume(f)
    case SuspendOther(_) => f.running
  }

  function Marked(f: Flags, op: Op): Flags {
    match op
    case Resume(now) => MarkRunning(f, now)
    case SuspendOther(kernel) => f.(suspending := true, ksuspend := f.ksuspend || kernel)
  }

  // thread_dequeue_self and THREAD_BLOCKED.
  function Block(s: State, t: Tid, c: Cpu, m: Mutex): State {
    var th := Thr(s, t);
    Unlink(SetThread(s, t, th.(flags := th.flags.(blocked := true), mutex := m, begun := th.begun + 1)),
           t, Queue(c), Held(ByWaiter(c)))
  }

  function Front(s: State, l: Loc): Tid {
    if At(s, l) == [] then 0 else At(s, l)[0]
  }

  // dlist_pop_front by a CPU.
  function Pop(s: State, c: Cpu, l: Loc): State { Unlink(s, Front(s, l), l, Held(ByCpu(c))) }

  // Creation, detaching and reaping of a thread.
  datatype LifeStep = NewThread(kernel: bool) | Detach | Reap

  predicate LifeEnabled(s: State, t: Tid, e: LifeStep) {
    match e
    case NewThread(_) => t !in s.threads
    case Detach => t in s.threads
    case Reap => t in At(s, DeadList) && Thr(s, t).flags.detached
  }

  function LifeApply(s: State, t: Tid, e: LifeStep): State {
    match e
    case NewThread(kernel) =>
      SetThread(s, t, Thread(NO_FLAGS.(kernel := kernel, privileged := kernel), 0, Parked, 0, 0, 0))
    case Detach => SetFlags(s, t, Thr(s, t).flags.(detached := true))
    case Reap => Unlink(s, t, DeadList, Freed)
  }

  // Code of the thread t that a CPU runs: an interrupt or yield, thread_exit, a change of privilege
  // level, and the first half of mutex_wait, up to the locking of the waiting list.
  datatype CodeStep = Interrupt | ThreadExit | SetPrivilege(on: bool) | WaitBlock(m: Mutex)

  function CodeApply(s: State, c: Cpu, t: Tid, e: CodeStep): State {
    match e
    case Interrupt => SetCpu(s, c, Entry)
    case ThreadExit => SetCpu(SetFlags(s, t, Thr(s, t).flags.(exiting := true)), c, Entry)
    case SetPrivilege(on) => SetFlags(s, t, Thr(s, t).flags.(privileged := on))
    case WaitBlock(m) => SetCpu(Block(s, t, c, m), c, Blocking(t, m))
  }

  // The second half of mutex_wait, and the loops of sched_request_switch_from_isr that move threads
  // between lists.
  datatype ListStep = WakeIdle | WaitLink
    | StopCpu | DrainTake | DrainStart | DrainPop | DrainOffer(cpu: Cpu, isRunning: bool) | DrainEnd
    | StartBalance | BalancePop | BalanceOffer(cpu: Cpu, isRunning: bool, space: bool) | BalanceKeep | BalanceEnd
    | StartIncoming | TakeIncoming | IncomingEnd

  predicate ListEnabled(s: State, c: Cpu, pc: CpuPc, e: ListStep) {
    match e
    case WakeIdle => pc.Idle?
    case WaitLink => pc.Blocking? && pc.m !in s.locked
    case StopCpu => pc.Entry?
    case DrainTake => pc.DrainConcat? && At(s, Incoming(c)) != []
    case DrainStart => pc.DrainConcat? && At(s, Incoming(c)) == []
    case DrainPop => pc.DrainLoop? && At(s, Queue(c)) != []
    case DrainOffer(cpu, _) => pc.DrainTry? && cpu != c
    case DrainEnd => pc.DrainLoop? && At(s, Queue(c)) == []
    case StartBalance => pc.Entry?
    case BalancePop => pc.BalanceLoop? && At(s, Queue(c)) != []
    case BalanceOffer(cpu, _, _) => pc.BalanceTry? && cpu != c
    case BalanceKeep => pc.BalanceTry?
    case BalanceEnd => pc.BalanceLoop?
    case StartIncoming => pc.Entry?
    case TakeIncoming => pc.IncomingLoop? && At(s, Incoming(c)) != []
    case IncomingEnd => pc.IncomingLoop? && At(s, Incoming(c)) == []
  }

  function ListApply(s: State, c: Cpu, pc: CpuPc, e: ListStep): State
    requires ListEnabled(s, c, pc, e)
  {
    var queued, arrived := Front(s, Queue(c)), Front(s, Incoming(c));
    match e
    case WakeIdle => SetCpu(s, c, Entry)
    case WaitLink => SetCpu(Link(s, pc.t, Waiting(pc.m), false), c, Entry)
    case StopCpu => SetCpu(s, c, DrainConcat)
    case DrainTake => Link(Pop(s, c, Incoming(c)), arrived, Queue(c), false)
    case DrainStart => SetCpu(s, c, DrainLoop)
    case DrainPop => SetCpu(Pop(s, c, Queue(c)), c, DrainTry(queued))
    case DrainOffer(cpu, isRunning) => if isRunning then SetCpu(HandOff(s, pc.t, cpu, true), c, DrainLoop) else s
    case DrainEnd => SetCpu(s, c, Off)
    case StartBalance => SetCpu(s, c, BalanceLoop)
    case BalancePop => SetCpu(Pop(s, c, Queue(c)), c, BalanceTry(queued))
    case BalanceOffer(cpu, isRunning, space) =>
      if isRunning then SetCpu(HandOff(s, pc.t, cpu, space), c, BalanceLoop) else s
    case BalanceKeep => SetCpu(Link(s, pc.t, Queue(c), false), c, BalanceLoop)
    case BalanceEnd => SetCpu(s, c, IncomingLoop)
    case StartIncoming => SetCpu(s, c, IncomingLoop)
    case TakeIncoming => Link(Pop(s, c, Incoming(c)), arrived, Queue(c), Thr(s, arrived).flags.startNow)
    case IncomingEnd => SetCpu(s, c, PickLoop)
  }

  // The loop that looks for a runnable thread, killing and suspending on the way.
  datatype PickStep = Pick | PickIdle | SwitchTo(procExiting: bool)
    | KillBegin(procExiting: bool) | KillMark | KillClear | KillAppend
    | SuspendBegin(procExiting: bool) | SuspendDone | SuspendRetry | SuspendCancelled

  predicate PickEnabled(s: State, c: Cpu, pc: CpuPc, e: PickStep) {
    match e
    case Pick => pc.PickLoop? && At(s, Queue(c)) != []
    case PickIdle => pc.PickLoop? && At(s, Queue(c)) == []
    case SwitchTo(p) => pc.Picked? && !Kills(pc.flags, p) && !Suspendable(pc.flags)
    case KillBegin(p) => pc.Picked? && Kills(pc.flags, p)
    case KillMark => pc.Dying? && pc.stage == 0
    case KillClear => pc.Dying? && pc.stage == 1
    case KillAppend => pc.Dying? && pc.stage == 2
    case SuspendBegin(p) => pc.Picked? && !Kills(pc.flags, p) && Suspendable(pc.flags)
    case SuspendDone => pc.Suspend? && Suspendable(pc.flags) && Thr(s, pc.t).flags == pc.flags
    case SuspendRetry => pc.Suspend? && Suspendable(pc.flags) && Thr(s, pc.t).flags != pc.flags
    case SuspendCancelled => pc.Suspend? && !Suspendable(pc.flags)
  }

  function PickApply(s: State, c: Cpu, pc: CpuPc, e: PickStep): State
    requires PickEnabled(s, c, pc, e)
  {
    match e
    case Pick => var t := Front(s, Queue(c)); SetCpu(Pop(s, c, Queue(c)), c, Picked(t, Thr(s, t).flags))
    case PickIdle => SetCpu(s, c, Idle)
    case SwitchTo(_) => SetCpu(Link(s, pc.t, Queue(c), false), c, Running(pc.t))
    case KillBegin(_) => SetCpu(s, c, Dying(pc.t, 0))
    case KillMark => SetCpu(SetFlags(s, pc.t, Thr(s, pc.t).flags.(exited := true)), c, Dying(pc.t, 1))
    case KillClear =>
      SetCpu(SetFlags(s, pc.t, Thr(s, pc.t).flags.(running := false, exiting := false)), c, Dying(pc.t, 2))
    case KillAppend => SetCpu(Link(s, pc.t, DeadList, false), c, PickLoop)
    case SuspendBegin(_) => SetCpu(s, c, Suspend(pc.t, pc.flags))
    case SuspendDone => SetCpu(SetPlace(SetFlags(s, pc.t, MarkSuspended(pc.flags)), pc.t, Parked), c, PickLoop)
    case SuspendRetry => SetCpu(s, c, Suspend(pc.t, Thr(s, pc.t).flags))
    case SuspendCancelled => SetCpu(s, c, Running(pc.t))
  }

  // The first atomic action of a call: the load of a compare-and-swap loop, the timer's or notify's.
  datatype StartStep = Load(t: Tid, op: Op) | TimerClear(t: Tid) | NotifyBegin(m: Mutex)

  predicate StartEnabled(s: State, e: StartStep) {
    match e
    case Load(t, op) => t in s.threads && (op.SuspendOther? && !op.kernel ==> !Thr(s, t).flags.kernel)
    case TimerClear(t) => t in s.threads
    case NotifyBegin(m) => m !in s.locked
  }

  function StartApply(s: State, a: Actor, e: StartStep): State {
    match e
    case Load(t, op) => SetActor(s, a, Loaded(t, Thr(s, t).flags, op))
    case TimerClear(t) =>
      if Thr(s, t).flags.blocked then SetActor(Unblock(s, t, a), a, TimerWon(t, Thr(s, t).mutex)) else s
    case NotifyBegin(m) => SetActor(s.(locked := s.locked[m := a]), a, NotifyScan(m, 0))
  }

  function Unblock(s: State, t: Tid, a: Actor): State {
    var th := Thr(s, t);
    SetThread(s, t, th.(flags := th.flags.(blocked := false), claim := a))
  }

  // The later ones.
  datatype CallStep = CasFails | CasWins | GiveUp | ResumeHandOff(cpu: Cpu)
    | TimerRemove | NotifyClear | NotifyRemove | NotifyEnd | WakerHandOff(cpu: Cpu)

  predicate CallEnabled(s: State, pc: ActorPc, e: CallStep) {
    match e
    case CasFails => pc.Loaded? && Allowed(pc.cur, pc.op) && Thr(s, pc.t).flags != pc.cur
    case CasWins => pc.Loaded? && Allowed(pc.cur, pc.op) && Thr(s, pc.t).flags == pc.cur
    case GiveUp => pc.Loaded? && !Allowed(pc.cur, pc.op)
    case ResumeHandOff(_) => pc.Resumed?
    case TimerRemove => pc.TimerWon? && pc.m !in s.locked
    case NotifyClear => pc.NotifyScan? && pc.i < |At(s, Waiting(pc.m))|
    case NotifyRemove => pc.NotifyWon?
    case NotifyEnd => pc.NotifyScan? && pc.i >= |At(s, Waiting(pc.m))|
    case WakerHandOff(_) => pc.Woken?
  }

  function CallApply(s: State, a: Actor, pc: ActorPc, e: CallStep): State
    requires CallEnabled(s, pc, e)
  {
    match e
    case CasFails => SetActor(s, a, Loaded(pc.t, Thr(s, pc.t).flags, pc.op))
    case CasWins =>
      var n := SetFlags(s, pc.t, Marked(pc.cur, pc.op));
      if pc.op.Resume? then SetActor(SetPlace(n, pc.t, Held(ByResume(a))), a, Resumed(pc.t)) else EndActor(n, a)
    case GiveUp => EndActor(s, a)
    case ResumeHandOff(cpu) => EndActor(HandOff(s, pc.t, cpu, true), a)
    case TimerRemove => SetActor(Unlink(s, pc.t, Waiting(pc.m), Held(ByWaker(a))), a, Woken(pc.t))
    case NotifyClear =>
      var t := At(s, Waiting(pc.m))[pc.i];
      if Thr(s, t).flags.blocked then SetActor(Unblock(s, t, a), a, NotifyWon(t, pc.m))
      else SetActor(s, a, NotifyScan(pc.m, pc.i + 1))
    case NotifyRemove =>
      SetActor(Unlink(s, pc.t, Waiting(pc.m), Held(ByWaker(a))).(locked := s.locked - {pc.m}), a, Woken(pc.t))
    case NotifyEnd => EndActor(s.(locked := s.locked - {pc.m}), a)
    case WakerHandOff(cpu) =>
      var th := Thr(s, pc.t);
      EndActor(HandOff(SetThread(s, pc.t, th.(ended := th.ended + 1)), pc.t, cpu, true), a)
  }

  datatype Step =
    | Life(t: Tid, life: LifeStep)
    | Code(c: Cpu, code: CodeStep)
    | Lists(c: Cpu, move: ListStep)
    | Picks(c: Cpu, pick: PickStep)
    | Starts(a: Actor, start: StartStep)
    | Calls(a: Actor, call: CallStep)

  // The guard of a step, over the state the source can see.
  predicate Enabled(s: State, e: Step) {
    match e
    case Life(t, k) => LifeEnabled(s, t, k)
    case Code(c, _) => c in s.cpus && s.cpus[c].Running?
    case Lists(c, k) => c in s.cpus && ListEnabled(s, c, s.cpus[c], k)
    case Picks(c, k) => c in s.cpus && PickEnabled(s, c, s.cpus[c], k)
    case Starts(a, k) => a !in s.actors && StartEnabled(s, k)
    case Calls(a, k) => a in s.actors && CallEnabled(s, s.actors[a], k)
  }

  function Apply(s: State, e: Step): State
    requires Enabled(s, e)
  {
    match e
    case Life(t, k) => LifeApply(s, t, k)
    case Code(c, k) => CodeApply(s, c, s.cpus[c].t, k)
    case Lists(c, k) => ListApply(s, c, s.cpus[c], k)
    case Picks(c, k) => PickApply(s, c, s.cpus[c], k)
    case Starts(a, k) => StartApply(s, a, k)
    case Calls(a, k) => CallApply(s, a, s.actors[a], k)
  }

  // ---------------------------------------------------------------- the invariant

  ghost predicate ListsOk(s: State) {
    && (forall l :: NoDup(At(s, l)))
    && (forall l, t :: t in At(s, l) <==> IsOn(s, t, l))
  }

  predicate IsOn(s: State, t: Tid, l: Loc) { t in s.threads && s.threads[t].place == On(l) }

  predicate Awaited(p: Place) {
    (p.On? && p.loc.Waiting?) || (p.Held? && (p.holder.ByWaiter? || p.holder.ByWaker?))
  }

  predicate ThreadOk(th: Thread) {
    && th.begun == th.ended + (if Awaited(th.place) then 1 else 0)
    && match th.place
       case Parked => !th.flags.running && !th.flags.exited && !th.flags.blocked
       case On(DeadList) => th.flags.exited && !th.flags.running && !th.flags.blocked
       case Freed => th.flags.exited && !th.flags.running && !th.flags.blocked
       case On(Waiting(m)) => th.flags.running && !th.flags.exited && th.mutex == m
       case Held(ByWaiter(_)) => th.flags.running && !th.flags.exited && th.flags.blocked
       case Held(ByCpu(_)) => (th.flags.running || th.flags.exited) && !th.flags.blocked
       case _ => th.flags.running && !th.flags.exited && !th.flags.blocked
  }

  // What a loaded copy of the flags still says about the flags: nobody else clears a suspend request.
  predicate Tracks(f: Flags, g: Flags) {
    && f.privileged == g.privileged && f.exiting == g.exiting
    && (f.suspending ==> g.suspending) && (f.ksuspend ==> g.ksuspend)
  }

  predicate CpuOk(s: State, c: Cpu, pc: CpuPc) {
    match pc
    case Running(t) => t in s.threads && s.threads[t].place == On(Queue(c))
    case BalanceTry(t) => Carries(s, t, c)
    case DrainTry(t) => Carries(s, t, c)
    case Picked(t, f) => Carries(s, t, c) && f.running && Tracks(f, s.threads[t].flags)
    case Suspend(t, f) => Carries(s, t, c) && Suspendable(f) && Tracks(f, s.threads[t].flags)
    case Dying(t, stage) =>
      && t in s.threads && s.threads[t].place == Held(ByCpu(c)) && stage <= 2
      && s.threads[t].flags.exited == (stage > 0) && s.threads[t].flags.running == (stage < 2)
    case Blocking(t, m) => t in s.threads && s.threads[t].place == Held(ByWaiter(c)) && s.threads[t].mutex == m
    case _ => true
  }

  predicate Carries(s: State, t: Tid, c: Cpu) {
    t in s.threads && s.threads[t].place == Held(ByCpu(c)) && s.threads[t].flags.running && !s.threads[t].flags.exited
  }

  predicate Claims(s: State, t: Tid, m: Mutex, a: Actor) {
    t in s.threads && s.threads[t].place == On(Waiting(m)) && !s.threads[t].flags.blocked && s.threads[t].claim == a
  }

  predicate ActorOk(s: State, a: Actor, pc: ActorPc) {
    match pc
    case Loaded(t, _, _) => t in s.threads
    case Resumed(t) => t in s.threads && s.threads[t].place == Held(ByResume(a))
    case TimerWon(t, m) => Claims(s, t, m, a)
    case NotifyScan(m, i) => m in s.locked && s.locked[m] == a && i <= |At(s, Waiting(m))|
    case NotifyWon(t, m) => Claims(s, t, m, a) && m in s.locked && s.locked[m] == a
    case Woken(t) => t in s.threads && s.threads[t].place == Held(ByWaker(a))
  }

  ghost predicate ThreadsOk(s: State) { forall t :: t in s.threads ==> ThreadOk(s.threads[t]) }

  ghost predicate CpusOk(s: State) { forall c :: c in s.cpus ==> CpuOk(s, c, s.cpus[c]) }

  ghost predicate ActorsOk(s: State) { forall a :: a in s.actors ==> ActorOk(s, a, s.actors[a]) }

  // CPU c is inside mutex_wait with t: blocked, out of the run queue and not yet on the waiting list.
  predicate Window(s: State, t: Tid, c: Cpu) { c in s.cpus && s.cpus[c].Blocking? && s.cpus[c].t == t }

  predicate WaiterOk(s: State, t: Tid, p: Place) { p.Held? && p.holder.ByWaiter? ==> Window(s, t, p.holder.cpu) }

  ghost predicate WaitersOk(s: State) { forall t :: t in s.threads ==> WaiterOk(s, t, s.threads[t].place) }

  ghost predicate Inv(s: State) { ListsOk(s) && ThreadsOk(s) && CpusOk(s) && ActorsOk(s) && WaitersOk(s) }

  ghost predicate InWindow(s: State, t: Tid) { exists c :: Window(s, t, c) }

  // No timer fires on a thread in that window.
  ghost predicate Quiet(s: State, e: Step) { e.Starts? && e.start.TimerClear? ==> !InWindow(s, e.start.t) }

  // ---------------------------------------------------------------- list edits

  lemma NoDupLink(l: seq<Tid>, t: Tid)
    requires NoDup(l) && t !in l
    ensures NoDup([t] + l) && NoDup(l + [t])
  {
  }

  lemma LinkLists(s: State, t: Tid, l: Loc, front: bool)
    requires ListsOk(s) && t in s.threads && !s.threads[t].place.On?
    ensures ListsOk(Link(s, t, l, front))
  {
    hide NoDup;
    var n := Link(s, t, l, front);
    assert t in At(s, l) <==> IsOn(s, t, l);
    NoDupLink(At(s, l), t);
    assert At(n, l) == if front then [t] + At(s, l) else At(s, l) + [t];
    forall k, u ensures u in At(n, k) <==> IsOn(n, u, k) {
      assert u in At(s, k) <==> IsOn(s, u, k);
    }
    forall k ensures NoDup(At(n, k)) {
      assert NoDup(At(s, k));
    }
  }

  lemma UnlinkLists(s: State, t: Tid, l: Loc, p: Place)
    requires ListsOk(s) && IsOn(s, t, l) && !p.On?
    ensures ListsOk(Unlink(s, t, l, p))
  {
    var n := Unlink(s, t, l, p);
    WithoutFacts(At(s, l), t);
    assert At(n, l) == Without(At(s, l), t);
    forall k, u ensures u in At(n, k) <==> IsOn(n, u, k) {
      assert u in At(s, k) <==> IsOn(s, u, k);
    }
    forall k ensures NoDup(At(n, k)) {
      assert NoDup(At(s, k));
    }
  }

  // Steps that move no node.
  lemma SameLists(s: State, n: State)
    requires ListsOk(s) && n.lists == s.lists && forall t, l :: IsOn(s, t, l) <==> IsOn(n, t, l)
    ensures ListsOk(n)
  {
    forall k, u ensures u in At(n, k) <==> IsOn(n, u, k) {
      assert u in At(s, k) <==> IsOn(s, u, k);
    }
    forall k ensures NoDup(At(n, k)) {
      assert NoDup(At(s, k));
    }
  }

  lemma FrontIsOn(s: State, l: Loc)
    requires ListsOk(s) && At(s, l) != []
    ensures IsOn(s, At(s, l)[0], l)
  {
    hide IsOn;
    assert At(s, l)[0] in At(s, l);
  }

  // ---------------------------------------------------------------- frames

  predicate CpuMentions(pc: CpuPc, t: Tid) {
    (pc.Running? || pc.DrainTry? || pc.BalanceTry? || pc.Picked? || pc.Suspend? || pc.Dying? || pc.Blocking?) && pc.t == t
  }

  predicate ActorMentions(pc: ActorPc, t: Tid) {
    (pc.Resumed? || pc.TimerWon? || pc.NotifyWon? || pc.Woken?) && pc.t == t
  }

  // Nobody but the CPUs in cs and the calls in acts is working on t.
  ghost predicate Free(s: State, t: Tid, cs: set<Cpu>, acts: set<Actor>) {
    && (forall c :: c in s.cpus && c !in cs ==> !CpuMentions(s.cpus[c], t))
    && (forall a :: a in s.actors && a !in acts ==> !ActorMentions(s.actors[a], t))
  }

  // n differs from s only in thread t, the CPUs in cs, the calls in acts, and lists and locks they own.
  ghost predicate Differs(s: State, n: State, t: Tid, cs: set<Cpu>, acts: set<Actor>) {
    && (forall u :: u != t ==> (u in s.threads <==> u in n.threads) && (u in s.threads ==> n.threads[u] == s.threads[u]))
    && (forall c :: c !in cs ==> (c in s.cpus <==> c in n.cpus) && (c in s.cpus ==> n.cpus[c] == s.cpus[c]))
    && (forall a :: a !in acts ==> (a in s.actors <==> a in n.actors) && (a in s.actors ==> n.actors[a] == s.actors[a]))
    && (t in s.threads ==> t in n.threads)
    && (forall m :: m in s.locked && s.locked[m] !in acts ==>
          m in n.locked && n.locked[m] == s.locked[m] && At(n, Waiting(m)) == At(s, Waiting(m)))
  }

  lemma Frame(s: State, n: State, t: Tid, cs: set<Cpu>, acts: set<Actor>)
    requires Inv(s) && ListsOk(n) && Differs(s, n, t, cs, acts) && Free(s, t, cs, acts)
    requires t in n.threads ==> ThreadOk(n.threads[t]) && WaiterOk(n, t, n.threads[t].place)
    requires forall c :: c in cs && c in s.cpus && s.cpus[c].Blocking? ==> s.cpus[c].t == t
    requires forall c :: c in cs && c in n.cpus ==> CpuOk(n, c, n.cpus[c])
    requires forall a :: a in acts && a in n.actors ==> ActorOk(n, a, n.actors[a])
    ensures Inv(n)
  {
    hide ListsOk, At, ThreadOk, Tracks, Suspendable;
    FrameWaiters(s, n, t, cs, acts);
    FrameThreads(s, n, t, cs, acts);
    FrameCpus(s, n, t, cs, acts);
    FrameActors(s, n, t, cs, acts);
  }

  lemma FrameWaiters(s: State, n: State, t: Tid, cs: set<Cpu>, acts: set<Actor>)
    requires WaitersOk(s) && Differs(s, n, t, cs, acts) && (t in n.threads ==> WaiterOk(n, t, n.threads[t].place))
    requires forall c :: c in cs && c in s.cpus && s.cpus[c].Blocking? ==> s.cpus[c].t == t
    ensures WaitersOk(n)
  {
    hide At;
    forall u | u in n.threads && u != t ensures WaiterOk(n, u, n.threads[u].place) {
      assert WaiterOk(s, u, s.threads[u].place);
    }
  }

  // Steps that touch neither places nor CPUs.
  lemma SameWaiters(s: State, n: State)
    requires WaitersOk(s) && n.cpus == s.cpus
    requires forall t :: t in n.threads ==> t in s.threads && n.threads[t].place == s.threads[t].place
    ensures WaitersOk(n)
  {
    forall t | t in n.threads ensures WaiterOk(n, t, n.threads[t].place) {
      assert WaiterOk(s, t, s.threads[t].place);
    }
  }

  lemma FrameThreads(s: State, n: State, t: Tid, cs: set<Cpu>, acts: set<Actor>)
    requires ThreadsOk(s) && Differs(s, n, t, cs, acts) && (t in n.threads ==> ThreadOk(n.threads[t]))
    ensures ThreadsOk(n)
  {
    hide ThreadOk, At;
  }

  lemma FrameCpus(s: State, n: State, t: Tid, cs: set<Cpu>, acts: set<Actor>)
    requires CpusOk(s) && Differs(s, n, t, cs, acts) && Free(s, t, cs, acts)
    requires forall c :: c in cs && c in n.cpus ==> CpuOk(n, c, n.cpus[c])
    ensures CpusOk(n)
  {
    hide At, Tracks, Suspendable;
    forall c | c in n.cpus && c !in cs ensures CpuOk(n, c, n.cpus[c]) {
      assert CpuOk(s, c, s.cpus[c]) && !CpuMentions(s.cpus[c], t);
    }
  }

  lemma FrameActors(s: State, n: State, t: Tid, cs: set<Cpu>, acts: set<Actor>)
    requires ActorsOk(s) && Differs(s, n, t, cs, acts) && Free(s, t, cs, acts)
    requires forall a :: a in acts && a in n.actors ==> ActorOk(n, a, n.actors[a])
    ensures ActorsOk(n)
  {
    hide At;
    forall a | a in n.actors && a !in acts ensures ActorOk(n, a, n.actors[a]) {
      assert ActorOk(s, a, s.actors[a]) && !ActorMentions(s.actors[a], t);
    }
  }

  // A thread in a CPU's hands or run queue is nobody else's.
  lemma OwnedByCpu(s: State, t: Tid, c: Cpu)
    requires CpusOk(s) && ActorsOk(s) && t in s.threads
    requires var p := s.threads[t].place; p == Held(ByCpu(c)) || p == Held(ByWaiter(c)) || p == On(Queue(c))
    ensures Free(s, t, {c}, {})
  {
    hide At, Tracks, Suspendable;
    forall d | d in s.cpus && d != c ensures !CpuMentions(s.cpus[d], t) { assert CpuOk(s, d, s.cpus[d]); }
    forall a | a in s.actors ensures !ActorMentions(s.actors[a], t) { assert ActorOk(s, a, s.actors[a]); }
  }

  // Nobody works on a thread that is parked, arriving, dead or new.
  lemma Unowned(s: State, t: Tid)
    requires CpusOk(s) && ActorsOk(s)
    requires t in s.threads ==> s.threads[t].place.Parked? || s.threads[t].place.Lost? || s.threads[t].place.Freed?
                                || (s.threads[t].place.On? && (s.threads[t].place.loc.Incoming? || s.threads[t].place.loc.DeadList?))
    ensures Free(s, t, {}, {})
  {
    hide At, Tracks, Suspendable;
    forall d | d in s.cpus ensures !CpuMentions(s.cpus[d], t) { assert CpuOk(s, d, s.cpus[d]); }
    forall a | a in s.actors ensures !ActorMentions(s.actors[a], t) { assert ActorOk(s, a, s.actors[a]); }
  }

  // A waiting or claimed thread belongs to the call that claims it.
  lemma OwnedByActor(s: State, t: Tid, a: Actor)
    requires CpusOk(s) && ActorsOk(s) && t in s.threads
    requires var p := s.threads[t].place;
             || p == Held(ByResume(a)) || p == Held(ByWaker(a))
             || (p.On? && p.loc.Waiting? && (s.threads[t].flags.blocked || s.threads[t].claim == a))
    ensures Free(s, t, {}, {a})
  {
    hide At, Tracks, Suspendable;
    forall d | d in s.cpus ensures !CpuMentions(s.cpus[d], t) { assert CpuOk(s, d, s.cpus[d]); }
    forall b | b in s.actors && b != a ensures !ActorMentions(s.actors[b], t) { assert ActorOk(s, b, s.actors[b]); }
  }

  // n is s with a new record for t and a new program counter for c.
  ghost predicate CpuEdit(s: State, n: State, t: Tid, c: Cpu) {
    && t in s.threads && t in n.threads && n.threads == s.threads[t := n.threads[t]]
    && c in s.cpus && c in n.cpus && n.cpus == s.cpus[c := n.cpus[c]]
    && n.actors == s.actors && n.locked == s.locked
    && forall m :: m in s.locked ==> At(n, Waiting(m)) == At(s, Waiting(m))
  }

  predicate CpuOwns(c: Cpu, p: Place) {
    p == Held(ByCpu(c)) || p == Held(ByWaiter(c)) || p == On(Queue(c)) || p == On(Incoming(c))
  }

  lemma CpuFrame(s: State, n: State, t: Tid, c: Cpu)
    requires Inv(s) && ListsOk(n) && CpuEdit(s, n, t, c) && CpuOwns(c, s.threads[t].place)
    requires ThreadOk(n.threads[t]) && CpuOk(n, c, n.cpus[c]) && WaiterOk(n, t, n.threads[t].place)
    requires s.cpus[c].Blocking? ==> s.cpus[c].t == t
    ensures Inv(n)
  {
    hide ListsOk, At, ThreadOk, CpuOk, ActorOk;
    if s.threads[t].place == On(Incoming(c)) {
      Unowned(s, t);
    } else {
      OwnedByCpu(s, t, c);
    }
    Frame(s, n, t, {c}, {});
  }

  // Flag changes anyone may make: detaching and requests to suspend.
  predicate Mild(f: Flags, g: Flags) {
    Tracks(f, g) && f.running == g.running && f.exited == g.exited && f.blocked == g.blocked
  }

  lemma FlagFrame(s: State, n: State, t: Tid, f: Flags)
    requires Inv(s) && t in s.threads && n == SetFlags(s, t, f) && Mild(s.threads[t].flags, f)
    ensures Inv(n)
  {
    hide ListsOk, At, CpuOk, ActorOk;
    SameLists(s, n);
    SameWaiters(s, n);
    forall c | c in n.cpus ensures CpuOk(n, c, n.cpus[c]) { MildCpu(s, n, t, f, c); }
    forall a | a in n.actors ensures ActorOk(n, a, n.actors[a]) { MildActor(s, n, t, f, a); }
  }

  lemma MildCpu(s: State, n: State, t: Tid, f: Flags, c: Cpu)
    requires t in s.threads && n == SetFlags(s, t, f) && Mild(s.threads[t].flags, f) && c in s.cpus && CpuOk(s, c, s.cpus[c])
    ensures CpuOk(n, c, s.cpus[c])
  {
  }

  lemma MildActor(s: State, n: State, t: Tid, f: Flags, a: Actor)
    requires t in s.threads && n == SetFlags(s, t, f) && Mild(s.threads[t].flags, f) && a in s.actors && ActorOk(s, a, s.actors[a])
    ensures ActorOk(n, a, s.actors[a])
  {
  }

  // ---------------------------------------------------------------- every step keeps the invariant

  lemma LifeKeeps(s: State, t: Tid, e: LifeStep)
    requires Inv(s) && LifeEnabled(s, t, e)
    ensures Inv(LifeApply(s, t, e))
  {
    hide ListsOk, NoDup, Without, CpuOk, ActorOk, CpusOk, ActorsOk, Free, Differs;
    LifeLists(s, t, e);
    if e.Detach? {
      FlagFrame(s, LifeApply(s, t, e), t, Thr(s, t).flags.(detached := true));
    } else {
      LifeFree(s, t, e);
      Frame(s, LifeApply(s, t, e), t, {}, {});
    }
  }

  lemma LifeFree(s: State, t: Tid, e: LifeStep)
    requires Inv(s) && LifeEnabled(s, t, e) && !e.Detach? && (e.Reap? ==> IsOn(s, t, DeadList))
    ensures Free(s, t, {}, {}) && Differs(s, LifeApply(s, t, e), t, {}, {})
  {
    hide ListsOk, CpusOk, ActorsOk, ThreadsOk, Without, Free;
    Unowned(s, t);
  }

  lemma LifeLists(s: State, t: Tid, e: LifeStep)
    requires Inv(s) && LifeEnabled(s, t, e)
    ensures ListsOk(LifeApply(s, t, e))
    ensures e.Reap? ==> IsOn(s, t, DeadList)
  {
    hide CpusOk, ActorsOk, ThreadsOk, NoDup;
    if e.Reap? {
      UnlinkLists(s, t, DeadList, Freed);
    } else {
      SameLists(s, LifeApply(s, t, e));
    }
  }

  // A CPU goes to a point where it holds no thread.
  lemma PcKeeps(s: State, c: Cpu, pc: CpuPc)
    requires Inv(s) && c in s.cpus && !s.cpus[c].Blocking? && !pc.Running? && !pc.DrainTry? && !pc.BalanceTry? && !pc.Picked? && !pc.Suspend?
             && !pc.Dying? && !pc.Blocking?
    ensures Inv(SetCpu(s, c, pc))
  {
    hide ListsOk, ThreadOk;
    var n := SetCpu(s, c, pc);
    SameLists(s, n);
    forall t | t in n.threads ensures WaiterOk(n, t, n.threads[t].place) {
      assert WaiterOk(s, t, s.threads[t].place);
    }
    forall d | d in n.cpus ensures CpuOk(n, d, n.cpus[d]) {
      if d != c {
        SameThreads(s, n, d);
      }
    }
    forall a | a in n.actors ensures ActorOk(n, a, n.actors[a]) {
      assert ActorOk(s, a, s.actors[a]);
    }
  }

  lemma SameThreads(s: State, n: State, c: Cpu)
    requires n.threads == s.threads && c in s.cpus && CpuOk(s, c, s.cpus[c])
    ensures CpuOk(n, c, s.cpus[c])
  {
  }

  // A new record for a thread that stays where it is, with the CPU that owns it.
  lemma RecordKeeps(s: State, c: Cpu, t: Tid, th: Thread, pc: CpuPc)
    requires Inv(s) && c in s.cpus && t in s.threads && CpuOwns(c, s.threads[t].place)
    requires th.place == s.threads[t].place || (!th.place.On? && !s.threads[t].place.On?)
    requires ThreadOk(th) && CpuOk(SetCpu(SetThread(s, t, th), c, pc), c, pc)
    requires !s.cpus[c].Blocking? && !(th.place.Held? && th.place.holder.ByWaiter?)
    ensures Inv(SetCpu(SetThread(s, t, th), c, pc))
  {
    hide ListsOk, NoDup, Without, ActorOk, CpuOk, ThreadOk;
    var n := SetCpu(SetThread(s, t, th), c, pc);
    SameLists(s, n);
    CpuFrame(s, n, t, c);
  }

  // mutex_wait takes its thread off the run queue and blocks it.
  lemma BlockKeeps(s: State, c: Cpu, t: Tid, m: Mutex)
    requires Inv(s) && c in s.cpus && s.cpus[c] == Running(t)
    ensures Inv(CodeApply(s, c, t, WaitBlock(m)))
  {
    hide ListsOk, NoDup, Without, ActorOk;
    assert CpuOk(s, c, s.cpus[c]);
    BlockLists(s, c, t, m);
    CpuFrame(s, CodeApply(s, c, t, WaitBlock(m)), t, c);
  }

  lemma CodeKeeps(s: State, c: Cpu, t: Tid, e: CodeStep)
    requires Inv(s) && c in s.cpus && s.cpus[c] == Running(t)
    ensures Inv(CodeApply(s, c, t, e))
  {
    hide ListsOk, NoDup, Without, ActorOk, ActorsOk;
    assert CpuOk(s, c, s.cpus[c]);
    var th := Thr(s, t);
    match e
    case Interrupt => PcKeeps(s, c, Entry);
    case ThreadExit => RecordKeeps(s, c, t, th.(flags := th.flags.(exiting := true)), Entry);
    case SetPrivilege(on) =>
      RecordKeeps(s, c, t, th.(flags := th.flags.(privileged := on)), Running(t));
      assert s.cpus[c := Running(t)] == s.cpus;
    case WaitBlock(m) => BlockKeeps(s, c, t, m);
  }

  lemma BlockLists(s: State, c: Cpu, t: Tid, m: Mutex)
    requires ListsOk(s) && IsOn(s, t, Queue(c))
    ensures ListsOk(CodeApply(s, c, t, WaitBlock(m)))
  {
    hide NoDup, ListsOk, Without;
    var th := Thr(s, t);
    var s1 := SetThread(s, t, th.(flags := th.flags.(blocked := true), mutex := m, begun := th.begun + 1));
    SameLists(s, s1);
    UnlinkLists(s1, t, Queue(c), Held(ByWaiter(c)));
    SameLists(Block(s, t, c, m), CodeApply(s, c, t, WaitBlock(m)));
  }

  // mutex_wait links its thread into the waiting list.
  lemma WaitLinkKeeps(s: State, c: Cpu)
    requires Inv(s) && c in s.cpus && ListEnabled(s, c, s.cpus[c], WaitLink)
    ensures Inv(ListApply(s, c, s.cpus[c], WaitLink))
  {
    hide ListsOk, NoDup, Without, ActorOk, ActorsOk;
    var pc := s.cpus[c];
    assert CpuOk(s, c, pc);
    assert ThreadOk(s.threads[pc.t]);
    LinkLists(s, pc.t, Waiting(pc.m), false);
    var n := ListApply(s, c, pc, WaitLink);
    SameLists(Link(s, pc.t, Waiting(pc.m), false), n);
    CpuFrame(s, n, pc.t, c);
  }

  // A CPU takes the first thread of its run queue.
  lemma PopKeeps(s: State, c: Cpu, pc: CpuPc)
    requires Inv(s) && c in s.cpus && !s.cpus[c].Blocking? && At(s, Queue(c)) != []
    requires var t := Front(s, Queue(c)); pc == DrainTry(t) || pc == BalanceTry(t) || pc == Picked(t, Thr(s, t).flags)
    ensures Inv(SetCpu(Pop(s, c, Queue(c)), c, pc))
  {
    hide ListsOk, NoDup, Without, ActorOk, ActorsOk;
    var t := Front(s, Queue(c));
    FrontIsOn(s, Queue(c));
    UnlinkLists(s, t, Queue(c), Held(ByCpu(c)));
    var p, n := Pop(s, c, Queue(c)), SetCpu(Pop(s, c, Queue(c)), c, pc);
    SameLists(p, n);
    CpuFrame(s, n, t, c);
  }

  // A CPU moves the first arriving thread to its run queue.
  lemma ArriveKeeps(s: State, c: Cpu, front: bool)
    requires Inv(s) && c in s.cpus && At(s, Incoming(c)) != [] && (s.cpus[c].IncomingLoop? || s.cpus[c].DrainConcat?)
    ensures Inv(Link(Pop(s, c, Incoming(c)), Front(s, Incoming(c)), Queue(c), front))
    ensures Thr(s, Front(s, Incoming(c))).flags.running
  {
    hide ListsOk, NoDup, Without, ActorOk, ActorsOk;
    var t := Front(s, Incoming(c));
    FrontIsOn(s, Incoming(c));
    UnlinkLists(s, t, Incoming(c), Held(ByCpu(c)));
    var p, n := Pop(s, c, Incoming(c)), Link(Pop(s, c, Incoming(c)), t, Queue(c), front);
    LinkLists(p, t, Queue(c), front);
    CpuFrame(s, n, t, c);
  }

  // A CPU links a thread it holds.
  lemma LinkKeeps(s: State, c: Cpu, t: Tid, l: Loc, pc: CpuPc)
    requires Inv(s) && c in s.cpus && !s.cpus[c].Blocking? && t in s.threads && s.threads[t].place == Held(ByCpu(c)) && !l.Waiting?
    requires ThreadOk(s.threads[t].(place := On(l)))
    requires pc.DrainLoop? || pc.BalanceLoop? || pc.PickLoop? || (pc == Running(t) && l == Queue(c))
    ensures Inv(SetCpu(Link(s, t, l, false), c, pc))
  {
    hide ListsOk, NoDup, Without, ActorOk, ActorsOk, ThreadOk;
    LinkLists(s, t, l, false);
    var p, n := Link(s, t, l, false), SetCpu(Link(s, t, l, false), c, pc);
    SameLists(p, n);
    CpuFrame(s, n, t, c);
  }

  lemma CarriedOk(s: State, c: Cpu, t: Tid, l: Loc)
    requires Inv(s) && Carries(s, t, c) && (l.Queue? || l.Incoming?)
    ensures ThreadOk(s.threads[t].(place := On(l)))
    ensures ThreadOk(s.threads[t].(place := Lost))
  {
    hide ListsOk, CpusOk, ActorsOk;
    assert ThreadOk(s.threads[t]);
  }

  lemma OfferKeeps(s: State, c: Cpu, t: Tid, cpu: Cpu, space: bool, pc: CpuPc)
    requires Inv(s) && c in s.cpus && !s.cpus[c].Blocking? && Carries(s, t, c) && (pc.DrainLoop? || pc.BalanceLoop?)
    ensures Inv(SetCpu(HandOff(s, t, cpu, space), c, pc))
  {
    hide ListsOk, Inv, ThreadOk;
    CarriedOk(s, c, t, Incoming(cpu));
    if space {
      LinkKeeps(s, c, t, Incoming(cpu), pc);
    } else {
      RecordKeeps(s, c, t, s.threads[t].(place := Lost), pc);
    }
  }

  lemma ListKeeps(s: State, c: Cpu, e: ListStep)
    requires Inv(s) && c in s.cpus && ListEnabled(s, c, s.cpus[c], e)
    ensures Inv(ListApply(s, c, s.cpus[c], e))
  {
    hide Inv, ListsOk, At, Front, Pop, Link, HandOff, SetCpu;
    var pc := s.cpus[c];
    CpuHolds(s, c);
    match e
    case WakeIdle => PcKeeps(s, c, Entry);
    case WaitLink => WaitLinkKeeps(s, c);
    case StopCpu => PcKeeps(s, c, DrainConcat);
    case DrainTake => ArriveKeeps(s, c, false);
    case DrainStart => PcKeeps(s, c, DrainLoop);
    case DrainPop => PopKeeps(s, c, DrainTry(Front(s, Queue(c))));
    case DrainOffer(cpu, isRunning) => if isRunning { OfferKeeps(s, c, pc.t, cpu, true, DrainLoop); }
    case DrainEnd => PcKeeps(s, c, Off);
    case StartBalance => PcKeeps(s, c, BalanceLoop);
    case BalancePop => PopKeeps(s, c, BalanceTry(Front(s, Queue(c))));
    case BalanceOffer(cpu, isRunning, space) => if isRunning { OfferKeeps(s, c, pc.t, cpu, space, BalanceLoop); }
    case BalanceKeep => CarriedOk(s, c, pc.t, Queue(c)); LinkKeeps(s, c, pc.t, Queue(c), BalanceLoop);
    case BalanceEnd => PcKeeps(s, c, IncomingLoop);
    case StartIncoming => PcKeeps(s, c, IncomingLoop);
    case TakeIncoming => ArriveKeeps(s, c, Thr(s, Front(s, Incoming(c))).flags.startNow);
    case IncomingEnd => PcKeeps(s, c, PickLoop);
  }

  lemma CpuHolds(s: State, c: Cpu)
    requires Inv(s) && c in s.cpus
    ensures CpuOk(s, c, s.cpus[c])
  {
    hide ListsOk, CpuOk;
  }

  // A suspend request is never withdrawn, so the compare-and-swap loop never sees it cancelled.
  lemma NeverCancelled(s: State, c: Cpu)
    requires Inv(s) && c in s.cpus
    ensures !PickEnabled(s, c, s.cpus[c], SuspendCancelled)
  {
    hide Inv, ListsOk;
    CpuHolds(s, c);
  }

  lemma KillKeeps(s: State, c: Cpu, e: PickStep)
    requires Inv(s) && c in s.cpus && PickEnabled(s, c, s.cpus[c], e) && (e.KillMark? || e.KillClear? || e.KillAppend?)
    ensures Inv(PickApply(s, c, s.cpus[c], e))
  {
    hide ListsOk, CpusOk, ActorsOk;
    var t := s.cpus[c].t;
    CpuHolds(s, c);
    var th := Thr(s, t);
    assert ThreadOk(th);
    match e
    case KillMark => RecordKeeps(s, c, t, th.(flags := th.flags.(exited := true)), Dying(t, 1));
    case KillClear => RecordKeeps(s, c, t, th.(flags := th.flags.(running := false, exiting := false)), Dying(t, 2));
    case KillAppend => LinkKeeps(s, c, t, DeadList, PickLoop);
  }

  lemma HoldKeeps(s: State, c: Cpu, pc: CpuPc)
    requires pc.Dying? || pc.Suspend?
    requires Inv(s) && c in s.cpus && !s.cpus[c].Blocking? && CpuOk(SetCpu(s, c, pc), c, pc)
    requires pc.t in s.threads && s.threads[pc.t].place == Held(ByCpu(c))
    ensures Inv(SetCpu(s, c, pc))
  {
    hide ListsOk, ActorsOk;
    RecordKeeps(s, c, pc.t, s.threads[pc.t], pc);
    assert s.threads[pc.t := s.threads[pc.t]] == s.threads;
  }

  lemma SuspendKeeps(s: State, c: Cpu)
    requires Inv(s) && c in s.cpus && PickEnabled(s, c, s.cpus[c], SuspendDone)
    ensures Inv(PickApply(s, c, s.cpus[c], SuspendDone))
  {
    hide ListsOk, CpusOk, ActorsOk;
    var pc := s.cpus[c];
    CpuHolds(s, c);
    var th := Thr(s, pc.t);
    assert ThreadOk(th);
    RecordKeeps(s, c, pc.t, th.(flags := MarkSuspended(pc.flags), place := Parked), PickLoop);
    var s1 := SetFlags(s, pc.t, MarkSuspended(pc.flags));
    assert SetPlace(s1, pc.t, Parked).threads == s.threads[pc.t := th.(flags := MarkSuspended(pc.flags), place := Parked)];
  }

  lemma PickKeeps(s: State, c: Cpu, e: PickStep)
    requires Inv(s) && c in s.cpus && PickEnabled(s, c, s.cpus[c], e)
    ensures Inv(PickApply(s, c, s.cpus[c], e))
  {
    hide Inv, ListsOk, At, Front, Pop, Link;
    var pc := s.cpus[c];
    CpuHolds(s, c);
    NeverCancelled(s, c);
    match e
    case Pick => PopKeeps(s, c, Picked(Front(s, Queue(c)), Thr(s, Front(s, Queue(c))).flags));
    case PickIdle => PcKeeps(s, c, Idle);
    case SwitchTo(_) => CarriedOk(s, c, pc.t, Queue(c)); LinkKeeps(s, c, pc.t, Queue(c), Running(pc.t));
    case KillBegin(_) => HoldKeeps(s, c, Dying(pc.t, 0));
    case KillMark => KillKeeps(s, c, e);
    case KillClear => KillKeeps(s, c, e);
    case KillAppend => KillKeeps(s, c, e);
    case SuspendBegin(_) => HoldKeeps(s, c, Suspend(pc.t, pc.flags));
    case SuspendDone => SuspendKeeps(s, c);
    case SuspendRetry => HoldKeeps(s, c, Suspend(pc.t, Thr(s, pc.t).flags));
    case SuspendCancelled => assert false;
  }

  // ---------------------------------------------------------------- calls

  // n is s with a new record for t, and call a started, moved on or ended.
  ghost predicate ActorEdit(s: State, n: State, t: Tid, a: Actor) {
    && t in s.threads && t in n.threads && n.threads == s.threads[t := n.threads[t]]
    && n.cpus == s.cpus
    && n.actors - {a} == s.actors - {a}
    && forall m :: m in s.locked && s.locked[m] != a ==>
         m in n.locked && n.locked[m] == s.locked[m] && At(n, Waiting(m)) == At(s, Waiting(m))
  }

  lemma ActorFrame(s: State, n: State, t: Tid, a: Actor)
    requires Inv(s) && ListsOk(n) && ActorEdit(s, n, t, a) && Free(s, t, {}, {a})
    requires ThreadOk(n.threads[t]) && (a in n.actors ==> ActorOk(n, a, n.actors[a]))
    requires !(n.threads[t].place.Held? && n.threads[t].place.holder.ByWaiter?)
    ensures Inv(n)
  {
    hide ListsOk, At, ThreadOk, CpuOk, ActorOk, Free;
    forall b | b != a ensures b in s.actors <==> b in n.actors {
      assert b in n.actors - {a} <==> b in s.actors - {a};
    }
    forall b | b != a && b in s.actors ensures n.actors[b] == s.actors[b] {
      assert (n.actors - {a})[b] == (s.actors - {a})[b];
    }
    Frame(s, n, t, {}, {a});
  }

  lemma ActorHolds(s: State, a: Actor)
    requires Inv(s) && a in s.actors
    ensures ActorOk(s, a, s.actors[a])
  {
    hide ListsOk, ActorOk;
  }

  // A call starts or moves on without touching a thread.
  lemma CallPcKeeps(s: State, a: Actor, t: Tid, op: Op)
    requires Inv(s) && t in s.threads && (a in s.actors ==> s.actors[a].Loaded?)
    ensures Inv(SetActor(s, a, Loaded(t, Thr(s, t).flags, op)))
  {
    hide ListsOk, ThreadOk, CpuOk;
    var n := SetActor(s, a, Loaded(t, Thr(s, t).flags, op));
    SameLists(s, n);
    SameWaiters(s, n);
    forall c | c in n.cpus ensures CpuOk(n, c, n.cpus[c]) { SameThreads(s, n, c); }
    forall b | b in n.actors ensures ActorOk(n, b, n.actors[b]) {
      if b != a { assert ActorOk(s, b, s.actors[b]); }
    }
  }

  // A call ends and gives its lock back.
  lemma EndKeeps(s: State, n: State, a: Actor)
    requires Inv(s) && a in s.actors
    requires n == EndActor(s, a)
          || (s.actors[a].NotifyScan? && n == EndActor(s.(locked := s.locked - {s.actors[a].m}), a))
    ensures Inv(n)
  {
    hide ListsOk, ThreadOk, CpuOk;
    SameLists(s, n);
    SameWaiters(s, n);
    assert ActorOk(s, a, s.actors[a]);
    forall c | c in n.cpus ensures CpuOk(n, c, n.cpus[c]) { SameThreads(s, n, c); }
    forall b | b in n.actors ensures ActorOk(n, b, n.actors[b]) { assert ActorOk(s, b, s.actors[b]); }
  }

  lemma ScanKeeps(s: State, n: State, a: Actor, m: Mutex, i: nat)
    requires Inv(s) && n == SetActor(s.(locked := s.locked[m := a]), a, NotifyScan(m, i)) && i <= |At(s, Waiting(m))|
    requires if a in s.actors then m in s.locked && s.locked[m] == a else m !in s.locked
    ensures Inv(n)
  {
    hide ListsOk, ThreadOk, CpuOk;
    SameLists(s, n);
    SameWaiters(s, n);
    forall c | c in n.cpus ensures CpuOk(n, c, n.cpus[c]) { SameThreads(s, n, c); }
    forall b | b in n.actors ensures ActorOk(n, b, n.actors[b]) {
      if b != a { assert ActorOk(s, b, s.actors[b]); }
    }
  }

  // The timer or notify clears THREAD_BLOCKED of a waiting thread: it claims it, alone.
  lemma ClaimKeeps(s: State, a: Actor, t: Tid, pc: ActorPc)
    requires Inv(s) && t in s.threads && s.threads[t].flags.blocked && !InWindow(s, t)
    requires
      || (a !in s.actors && pc == TimerWon(t, s.threads[t].mutex))
      || (a in s.actors && s.actors[a].NotifyScan? && pc == NotifyWon(t, s.actors[a].m) && IsOn(s, t, Waiting(s.actors[a].m)))
    ensures Inv(SetActor(Unblock(s, t, a), a, pc))
  {
    hide ListsOk, CpuOk, CpusOk;
    assert ThreadOk(s.threads[t]) && WaiterOk(s, t, s.threads[t].place);
    var n := SetActor(Unblock(s, t, a), a, pc);
    SameLists(s, n);
    OwnedByActor(s, t, a);
    ActorFrame(s, n, t, a);
  }

  lemma ThreadHolds(s: State, t: Tid)
    requires Inv(s) && t in s.threads
    ensures ThreadOk(s.threads[t])
  {
    hide ListsOk, ThreadOk;
  }

  lemma RemoveLists(s: State, n: State, t: Tid, l: Loc, p: Place)
    requires ListsOk(s) && IsOn(s, t, l) && !p.On?
    requires var u := Unlink(s, t, l, p); n.lists == u.lists && n.threads == u.threads
    ensures ListsOk(n)
  {
    hide ListsOk, Without;
    UnlinkLists(s, t, l, p);
    SameLists(Unlink(s, t, l, p), n);
  }

  // The winner takes the thread off the waiting list, under the list's lock.
  lemma RemoveKeeps(s: State, n: State, a: Actor)
    requires Inv(s) && a in s.actors
    requires
      var pc := s.actors[a];
      || (pc.TimerWon? && pc.m !in s.locked && n == CallApply(s, a, pc, TimerRemove))
      || (pc.NotifyWon? && n == CallApply(s, a, pc, NotifyRemove))
    ensures Inv(n)
  {
    hide ListsOk, CpusOk, ActorsOk, ThreadsOk, Without, Free;
    var pc := s.actors[a];
    ActorHolds(s, a);
    ThreadHolds(s, pc.t);
    RemoveLists(s, n, pc.t, Waiting(pc.m), Held(ByWaker(a)));
    OwnedByActor(s, pc.t, a);
    ActorFrame(s, n, pc.t, a);
  }

  lemma HandOffLists(s: State, n: State, t: Tid, cpu: Cpu, ended: nat)
    requires ListsOk(s) && t in s.threads && !s.threads[t].place.On?
    requires var u := HandOff(SetThread(s, t, s.threads[t].(ended := ended)), t, cpu, true);
             n.lists == u.lists && n.threads == u.threads
    ensures ListsOk(n)
  {
    hide ListsOk;
    var s1 := SetThread(s, t, s.threads[t].(ended := ended));
    SameLists(s, s1);
    LinkLists(s1, t, Incoming(cpu), false);
    SameLists(HandOff(s1, t, cpu, true), n);
  }

  lemma HandOffEdit(s: State, a: Actor, cpu: Cpu, e: CallStep)
    requires a in s.actors && (e == ResumeHandOff(cpu) || e == WakerHandOff(cpu)) && CallEnabled(s, s.actors[a], e)
    requires ActorOk(s, a, s.actors[a])
    ensures ActorEdit(s, CallApply(s, a, s.actors[a], e), s.actors[a].t, a)
  {
  }

  // The forced hand-off that ends a resume or a wait.
  lemma HandOffKeeps(s: State, a: Actor, cpu: Cpu, e: CallStep)
    requires Inv(s) && a in s.actors
    requires (s.actors[a].Resumed? && e == ResumeHandOff(cpu)) || (s.actors[a].Woken? && e == WakerHandOff(cpu))
    ensures Inv(CallApply(s, a, s.actors[a], e))
  {
    hide ListsOk, CpusOk, ActorsOk, ThreadsOk, Free, ActorEdit;
    var pc, n := s.actors[a], CallApply(s, a, s.actors[a], e);
    ActorHolds(s, a);
    ThreadHolds(s, pc.t);
    HandOffEdit(s, a, cpu, e);
    HandOffLists(s, n, pc.t, cpu, if pc.Woken? then s.threads[pc.t].ended + 1 else s.threads[pc.t].ended);
    OwnedByActor(s, pc.t, a);
    ActorFrame(s, n, pc.t, a);
  }

  lemma ResumeKeeps(s: State, a: Actor)
    requires Inv(s) && a in s.actors && CallEnabled(s, s.actors[a], CasWins) && s.actors[a].op.Resume?
    ensures Inv(CallApply(s, a, s.actors[a], CasWins))
    ensures Thr(s, s.actors[a].t).place == Parked
  {
    hide ListsOk, CpuOk, CpusOk;
    var pc, n := s.actors[a], CallApply(s, a, s.actors[a], CasWins);
    assert ActorOk(s, a, pc);
    assert ThreadOk(s.threads[pc.t]);
    SameLists(s, n);
    Unowned(s, pc.t);
    ActorFrame(s, n, pc.t, a);
  }

  lemma StartKeeps(s: State, a: Actor, e: StartStep)
    requires Inv(s) && a !in s.actors && StartEnabled(s, e) && (e.TimerClear? ==> !InWindow(s, e.t))
    ensures Inv(StartApply(s, a, e))
  {
    hide Inv, ListsOk, At, InWindow;
    match e
    case Load(t, op) => CallPcKeeps(s, a, t, op);
    case TimerClear(t) => if s.threads[t].flags.blocked { ClaimKeeps(s, a, t, TimerWon(t, s.threads[t].mutex)); }
    case NotifyBegin(m) => ScanKeeps(s, StartApply(s, a, e), a, m, 0);
  }

  lemma CallKeeps(s: State, a: Actor, e: CallStep)
    requires Inv(s) && a in s.actors && CallEnabled(s, s.actors[a], e)
    ensures Inv(CallApply(s, a, s.actors[a], e))
  {
    hide Inv, ListsOk, At;
    var pc, n := s.actors[a], CallApply(s, a, s.actors[a], e);
    ActorHolds(s, a);
    match e
    case CasFails => CallPcKeeps(s, a, pc.t, pc.op);
    case CasWins => CasKeeps(s, a);
    case GiveUp => EndKeeps(s, n, a);
    case ResumeHandOff(cpu) => HandOffKeeps(s, a, cpu, e);
    case TimerRemove => RemoveKeeps(s, n, a);
    case NotifyClear => NotifyKeeps(s, a);
    case NotifyRemove => RemoveKeeps(s, n, a);
    case NotifyEnd => EndKeeps(s, n, a);
    case WakerHandOff(cpu) => HandOffKeeps(s, a, cpu, e);
  }

  lemma CasKeeps(s: State, a: Actor)
    requires Inv(s) && a in s.actors && CallEnabled(s, s.actors[a], CasWins)
    ensures Inv(CallApply(s, a, s.actors[a], CasWins))
  {
    hide Inv, ListsOk, At;
    var pc := s.actors[a];
    ActorHolds(s, a);
    if pc.op.Resume? {
      ResumeKeeps(s, a);
    } else {
      var n := SetFlags(s, pc.t, Marked(pc.cur, pc.op));
      FlagFrame(s, n, pc.t, Marked(pc.cur, pc.op));
      EndKeeps(n, EndActor(n, a), a);
    }
  }

  lemma NotifyKeeps(s: State, a: Actor)
    requires Inv(s) && a in s.actors && CallEnabled(s, s.actors[a], NotifyClear)
    ensures Inv(CallApply(s, a, s.actors[a], NotifyClear))
  {
    hide ListsOk, CpuOk, NoDup, ThreadOk;
    var pc := s.actors[a];
    ActorHolds(s, a);
    var t := At(s, Waiting(pc.m))[pc.i];
    ElementIsOn(s, Waiting(pc.m), pc.i);
    if s.threads[t].flags.blocked {
      ListedNotInWindow(s, t, Waiting(pc.m));
      ClaimKeeps(s, a, t, NotifyWon(t, pc.m));
    } else {
      assert s.locked[pc.m := a] == s.locked;
      ScanKeeps(s, CallApply(s, a, pc, NotifyClear), a, pc.m, pc.i + 1);
    }
  }

  lemma ElementIsOn(s: State, l: Loc, i: nat)
    requires ListsOk(s) && i < |At(s, l)|
    ensures IsOn(s, At(s, l)[i], l)
  {
    hide IsOn;
    assert At(s, l)[i] in At(s, l);
  }

  lemma ListedNotInWindow(s: State, t: Tid, l: Loc)
    requires Inv(s) && IsOn(s, t, l)
    ensures !InWindow(s, t)
  {
    hide ListsOk, ThreadsOk, ActorsOk;
    forall c | c in s.cpus ensures !Window(s, t, c) {
      assert CpuOk(s, c, s.cpus[c]);
    }
  }

  lemma StepKeeps(s: State, e: Step)
    requires Inv(s) && Enabled(s, e) && Quiet(s, e)
    ensures Inv(Apply(s, e))
  {
    hide Inv, InWindow, ListEnabled, PickEnabled, CallEnabled, LifeEnabled, StartEnabled;
    match e
    case Life(t, k) => LifeKeeps(s, t, k);
    case Code(c, k) => CodeKeeps(s, c, s.cpus[c].t, k);
    case Lists(c, k) => ListKeeps(s, c, k);
    case Picks(c, k) => PickKeeps(s, c, k);
    case Starts(a, k) => StartKeeps(s, a, k);
    case Calls(a, k) => CallKeeps(s, a, k);
  }

  // A timer that fires in the window claims a thread that is on no waiting list.
  lemma WindowBreaks(s: State, a: Actor, t: Tid)
    requires Inv(s) && a !in s.actors && t in s.threads && InWindow(s, t)
    ensures !Inv(StartApply(s, a, TimerClear(t)))
  {
    hide ListsOk, ActorsOk;
    var c :| Window(s, t, c);
    assert CpuOk(s, c, s.cpus[c]);
    assert ThreadOk(s.threads[t]);
    var n := StartApply(s, a, TimerClear(t));
    assert !ThreadOk(n.threads[t]);
  }

  // A step keeps the invariant if and only if it is not a timer that fires in the window.
  lemma StepExact(s: State, e: Step)
    requires Inv(s) && Enabled(s, e)
    ensures Inv(Apply(s, e)) <==> Quiet(s, e)
  {
    hide Inv, InWindow;
    if Quiet(s, e) {
      StepKeeps(s, e);
    } else {
      WindowBreaks(s, e.a, e.start.t);
    }
  }

  // ---------------------------------------------------------------- runs

  ghost predicate Initial(s: State) {
    && s.threads == map[] && s.actors == map[] && s.locked == map[]
    && (forall l :: At(s, l) == [])
    && (forall c :: c in s.cpus ==> s.cpus[c] == Idle)
  }

  // Steps that can be taken one after the other, whatever the interleaving.
  ghost predicate Legal(s: State, steps: seq<Step>)
    decreases |steps|
  {
    steps == [] || (Enabled(s, steps[0]) && Legal(Apply(s, steps[0]), steps[1..]))
  }

  ghost predicate AllQuiet(s: State, steps: seq<Step>)
    requires Legal(s, steps)
    decreases |steps|
  {
    steps == [] || (Quiet(s, steps[0]) && AllQuiet(Apply(s, steps[0]), steps[1..]))
  }

  // The invariant holds in every state of the run.
  ghost predicate AllInv(s: State, steps: seq<Step>)
    requires Legal(s, steps)
    decreases |steps|
  {
    Inv(s) && (steps == [] || AllInv(Apply(s, steps[0]), steps[1..]))
  }

  // A run keeps the invariant throughout if and only if no timer ever fires in the window.
  lemma {:induction false} RunExact(s: State, steps: seq<Step>)
    requires Inv(s) && Legal(s, steps)
    ensures AllInv(s, steps) <==> AllQuiet(s, steps)
    decreases |steps|
  {
    hide Inv, Enabled, Apply, Quiet;
    if steps != [] {
      StepExact(s, steps[0]);
      var n := Apply(s, steps[0]);
      if Quiet(s, steps[0]) {
        RunExact(n, steps[1..]);
      } else {
        FirstState(n, steps[1..]);
      }
    }
  }

  lemma FirstState(s: State, steps: seq<Step>)
    requires Legal(s, steps)
    ensures AllInv(s, steps) ==> Inv(s)
  {
    hide Inv, Enabled, Apply;
  }

  // Quiet steps lead from s to n.
  ghost predicate Run(s: State, steps: seq<Step>, n: State)
    decreases |steps|
  {
    if steps == [] then s == n
    else Enabled(s, steps[0]) && Quiet(s, steps[0]) && Run(Apply(s, steps[0]), steps[1..], n)
  }

  lemma {:induction false} RunKeeps(s: State, steps: seq<Step>, n: State)
    requires Inv(s) && Run(s, steps, n)
    ensures Inv(n)
    decreases |steps|
  {
    hide Inv, Enabled, Apply, Quiet;
    if steps != [] {
      StepKeeps(s, steps[0]);
      RunKeeps(Apply(s, steps[0]), steps[1..], n);
    }
  }

  lemma InitialInv(s: State)
    requires Initial(s)
    ensures Inv(s)
  {
    hide ThreadOk, ActorOk;
  }

  // In every reachable state a thread's node is linked at most once, over all lists; queued and
  // arriving threads are RUNNING and not EXITED; and every mutex wait but the one in progress has
  // been ended by exactly one hand-off.
  lemma Placement(s: State, steps: seq<Step>, n: State)
    requires Initial(s) && Run(s, steps, n)
    ensures forall l :: NoDup(At(n, l))
    ensures forall l, k, t :: t in At(n, l) && t in At(n, k) ==> l == k
    ensures forall c: Cpu, t :: t in At(n, Queue(c)) || t in At(n, Incoming(c)) ==> Thr(n, t).flags.running && !Thr(n, t).flags.exited
    ensures forall t :: t in n.threads ==> n.threads[t].ended <= n.threads[t].begun <= n.threads[t].ended + 1
  {
    InitialInv(s);
    RunKeeps(s, steps, n);
    ListedOnce(n);
  }

  lemma ListedOnce(s: State)
    requires Inv(s)
    ensures forall l, k, t :: t in At(s, l) && t in At(s, k) ==> l == k
    ensures forall c: Cpu, t :: t in At(s, Queue(c)) || t in At(s, Incoming(c)) ==> Thr(s, t).flags.running && !Thr(s, t).flags.exited
    ensures forall t :: t in s.threads ==> s.threads[t].ended <= s.threads[t].begun <= s.threads[t].ended + 1
  {
    hide CpusOk, ActorsOk, NoDup, At;
    forall l, k, t | t in At(s, l) && t in At(s, k) ensures l == k {
      assert IsOn(s, t, l) && IsOn(s, t, k);
    }
    forall c: Cpu, t | t in At(s, Queue(c)) || t in At(s, Incoming(c))
      ensures Thr(s, t).flags.running && !Thr(s, t).flags.exited
    {
      assert IsOn(s, t, Queue(c)) || IsOn(s, t, Incoming(c));
      assert ThreadOk(s.threads[t]);
    }
    forall t | t in s.threads ensures s.threads[t].ended <= s.threads[t].begun <= s.threads[t].ended + 1 {
      assert ThreadOk(s.threads[t]);
    }
  }

  // ---------------------------------------------------------------- consequences

  // The assertions on THREAD_RUNNING hold: for each arriving thread and for each thread switched to.
  lemma AssertionsHold(s: State, c: Cpu)
    requires Inv(s) && c in s.cpus
    ensures At(s, Incoming(c)) != [] ==> Thr(s, Front(s, Incoming(c))).flags.running
    ensures s.cpus[c].Picked? ==> s.cpus[c].flags.running
  {
    hide ListsOk, ActorsOk;
    if At(s, Incoming(c)) != [] {
      FrontIsOn(s, Incoming(c));
      ThreadHolds(s, Front(s, Incoming(c)));
    }
    CpuHolds(s, c);
  }

  // dlist_remove is only called on nodes of that list.
  lemma RemovesMembers(s: State, c: Cpu, a: Actor)
    requires Inv(s)
    ensures c in s.cpus && s.cpus[c].Running? ==> s.cpus[c].t in At(s, Queue(c))
    ensures a in s.actors && (s.actors[a].TimerWon? || s.actors[a].NotifyWon?) ==>
              s.actors[a].t in At(s, Waiting(s.actors[a].m))
  {
    hide NoDup, ThreadsOk;
    if c in s.cpus && s.cpus[c].Running? {
      CpuHolds(s, c);
      assert IsOn(s, s.cpus[c].t, Queue(c));
    }
    if a in s.actors && (s.actors[a].TimerWon? || s.actors[a].NotifyWon?) {
      ActorHolds(s, a);
      assert IsOn(s, s.actors[a].t, Waiting(s.actors[a].m));
    }
  }

  predicate Winner(s: State, a: Actor, t: Tid) {
    a in s.actors && (s.actors[a].TimerWon? || s.actors[a].NotifyWon? || s.actors[a].Woken?) && s.actors[a].t == t
  }

  // A wait is won by the timer or by one notify, never by two of them.
  lemma OneWinner(s: State, a: Actor, b: Actor, t: Tid)
    requires Inv(s) && Winner(s, a, t) && Winner(s, b, t)
    ensures a == b
  {
    hide ListsOk, ThreadsOk, CpusOk;
    assert ActorOk(s, a, s.actors[a]) && ActorOk(s, b, s.actors[b]);
  }

  predicate Exited(s: State, t: Tid) { t in s.threads && s.threads[t].flags.exited }

  lemma LinkExited(s: State, u: Tid, l: Loc, front: bool, t: Tid)
    requires Exited(s, t)
    ensures Exited(Link(s, u, l, front), t) && Exited(SetPlace(s, u, Lost), t)
  {
  }

  lemma UnlinkExited(s: State, u: Tid, l: Loc, p: Place, t: Tid)
    requires Exited(s, t)
    ensures Exited(Unlink(s, u, l, p), t)
  {
  }

  lemma CodeExited(s: State, c: Cpu, u: Tid, e: CodeStep, t: Tid)
    requires Exited(s, t)
    ensures Exited(CodeApply(s, c, u, e), t)
  {
    hide Link, Unlink;
    if e.WaitBlock? {
      var th := Thr(s, u);
      var s1 := SetThread(s, u, th.(flags := th.flags.(blocked := true), mutex := e.m, begun := th.begun + 1));
      UnlinkExited(s1, u, Queue(c), Held(ByWaiter(c)), t);
    }
  }

  lemma ListExited(s: State, c: Cpu, pc: CpuPc, e: ListStep, t: Tid)
    requires Exited(s, t) && ListEnabled(s, c, pc, e)
    ensures Exited(ListApply(s, c, pc, e), t)
  {
    hide Link, Unlink, SetPlace, At, Front, Thr;
    var queued, arrived := Front(s, Queue(c)), Front(s, Incoming(c));
    UnlinkExited(s, queued, Queue(c), Held(ByCpu(c)), t);
    UnlinkExited(s, arrived, Incoming(c), Held(ByCpu(c)), t);
    match e
    case WaitLink => LinkExited(s, pc.t, Waiting(pc.m), false, t);
    case DrainTake => LinkExited(Pop(s, c, Incoming(c)), arrived, Queue(c), false, t);
    case DrainOffer(cpu, _) => LinkExited(s, pc.t, Incoming(cpu), false, t);
    case BalanceOffer(cpu, _, _) => LinkExited(s, pc.t, Incoming(cpu), false, t);
    case BalanceKeep => LinkExited(s, pc.t, Queue(c), false, t);
    case TakeIncoming => LinkExited(Pop(s, c, Incoming(c)), arrived, Queue(c), Thr(s, arrived).flags.startNow, t);
    case _ =>
  }

  lemma PickExited(s: State, c: Cpu, pc: CpuPc, e: PickStep, t: Tid)
    requires Exited(s, t) && PickEnabled(s, c, pc, e)
    ensures Exited(PickApply(s, c, pc, e), t)
  {
    hide Link, Unlink, At, Front;
    match e
    case Pick => UnlinkExited(s, Front(s, Queue(c)), Queue(c), Held(ByCpu(c)), t);
    case SwitchTo(_) => LinkExited(s, pc.t, Queue(c), false, t);
    case KillAppend => LinkExited(s, pc.t, DeadList, false, t);
    case _ =>
  }

  lemma CallExited(s: State, a: Actor, pc: ActorPc, e: CallStep, t: Tid)
    requires Exited(s, t) && CallEnabled(s, pc, e)
    ensures Exited(CallApply(s, a, pc, e), t)
  {
    hide Link, Unlink, At;
    match e
    case ResumeHandOff(cpu) => LinkExited(s, pc.t, Incoming(cpu), false, t);
    case TimerRemove => UnlinkExited(s, pc.t, Waiting(pc.m), Held(ByWaker(a)), t);
    case NotifyRemove => UnlinkExited(s, pc.t, Waiting(pc.m), Held(ByWaker(a)), t);
    case WakerHandOff(cpu) =>
      var th := Thr(s, pc.t);
      LinkExited(SetThread(s, pc.t, th.(ended := th.ended + 1)), pc.t, Incoming(cpu), false, t);
    case _ =>
  }

  lemma LifeExited(s: State, u: Tid, e: LifeStep, t: Tid)
    requires Exited(s, t) && LifeEnabled(s, u, e)
    ensures Exited(LifeApply(s, u, e), t)
  {
    hide At, Without;
  }

  lemma StartExited(s: State, a: Actor, e: StartStep, t: Tid)
    requires Exited(s, t) && StartEnabled(s, e)
    ensures Exited(StartApply(s, a, e), t)
  {
  }

  // Once EXITED, a thread is never linked into a run queue, an incoming list or a waiting list again.
  lemma {:induction false} ExitedForever(s: State, steps: seq<Step>, n: State, t: Tid, l: Loc)
    requires Inv(s) && Run(s, steps, n) && Exited(s, t)
    ensures Exited(n, t)
    ensures t in At(n, l) ==> l == DeadList
    decreases |steps|
  {
    hide Enabled, Apply, Quiet, CpusOk, ActorsOk, NoDup, WaitersOk;
    if steps == [] {
      assert t in At(n, l) <==> IsOn(n, t, l);
      assert ThreadOk(n.threads[t]);
    } else {
      StepKeeps(s, steps[0]);
      StepKeepsExited(s, steps[0], t);
      ExitedForever(Apply(s, steps[0]), steps[1..], n, t, l);
    }
  }

  lemma StepKeepsExited(s: State, e: Step, t: Tid)
    requires Enabled(s, e) && Exited(s, t)
    ensures Exited(Apply(s, e), t)
  {
    hide Exited, LifeEnabled, ListEnabled, PickEnabled, StartEnabled, CallEnabled;
    match e
    case Life(u, k) => LifeExited(s, u, k, t);
    case Code(c, k) => CodeExited(s, c, s.cpus[c].t, k, t);
    case Lists(c, k) => ListExited(s, c, s.cpus[c], k, t);
    case Picks(c, k) => PickExited(s, c, s.cpus[c], k, t);
    case Starts(a, k) => StartExited(s, a, k, t);
    case Calls(a, k) => CallExited(s, a, s.actors[a], k, t);
  }

  predicate Leads(s: State, e: Step, n: State) { Enabled(s, e) && n == Apply(s, e) }

  lemma WindowOpens(s: State, c: Cpu, m: Mutex, a: Actor) returns (s1: State, s2: State)
    requires c in s.cpus && s.cpus[c].Running? && s.cpus[c].t in s.threads && m !in s.locked && a !in s.actors
    ensures Leads(s, Code(c, WaitBlock(m)), s1) && Leads(s1, Starts(a, TimerClear(s.cpus[c].t)), s2)
    ensures s2.cpus == s.cpus[c := Blocking(s.cpus[c].t, m)] && s2.locked == s.locked
    ensures s2.actors == s.actors[a := TimerWon(s.cpus[c].t, m)]
  {
    hide Without, At;
    s1 := Apply(s, Code(c, WaitBlock(m)));
    s2 := Apply(s1, Starts(a, TimerClear(s.cpus[c].t)));
  }

  lemma TimerEnds(s: State, c: Cpu, t: Tid, m: Mutex, a: Actor) returns (s1: State, s2: State)
    requires a in s.actors && s.actors[a] == TimerWon(t, m) && m !in s.locked
    ensures Leads(s, Calls(a, TimerRemove), s1) && Leads(s1, Calls(a, WakerHandOff(c)), s2)
    ensures s2.cpus == s.cpus && s2.locked == s.locked && t in At(s2, Incoming(c))
  {
    hide Without;
    s1 := Apply(s, Calls(a, TimerRemove));
    assert s1.actors[a] == Woken(t);
    s2 := Apply(s1, Calls(a, WakerHandOff(c)));
    assert At(s2, Incoming(c)) == At(s1, Incoming(c)) + [t];
  }

  // From every state in which a CPU c runs a thread, a timer that fires in the window on another CPU d goes
  // on to link the thread into an incoming list and a waiting list at once.
  lemma WindowLinksTwice(s: State, c: Cpu, d: Cpu, m: Mutex, a: Actor) returns (s1: State, s2: State, s3: State, s4: State, n: State)
    requires c in s.cpus && d in s.cpus && c != d && s.cpus[c].Running? && s.cpus[c].t in s.threads && m !in s.locked && a !in s.actors
    ensures Leads(s, Code(c, WaitBlock(m)), s1) && Leads(s1, Starts(a, TimerClear(s.cpus[c].t)), s2)
    ensures Leads(s2, Calls(a, TimerRemove), s3) && Leads(s3, Calls(a, WakerHandOff(d)), s4)
    ensures Leads(s4, Lists(c, WaitLink), n)
    ensures s.cpus[c].t in At(n, Incoming(d)) && s.cpus[c].t in At(n, Waiting(m))
  {
    hide Without, Leads;
    var t := s.cpus[c].t;
    s1, s2 := WindowOpens(s, c, m, a);
    s3, s4 := TimerEnds(s2, d, t, m, a);
    n := WindowCloses(s4, c, d, t, m);
  }

  lemma WindowCloses(s: State, c: Cpu, d: Cpu, t: Tid, m: Mutex) returns (n: State)
    requires c in s.cpus && s.cpus[c] == Blocking(t, m) && m !in s.locked && t in At(s, Incoming(d))
    ensures Leads(s, Lists(c, WaitLink), n) && t in At(n, Incoming(d)) && t in At(n, Waiting(m))
  {
    n := Apply(s, Lists(c, WaitLink));
    assert At(n, Waiting(m)) == At(s, Waiting(m)) + [t];
  }
}
