// What the steps of the scheduler decide: who may set or clear each flag, who runs, dies, stops or
// waits, in which order, and that nothing is ever stuck.  Stated over flags and lists, for every step.
module ThreadSteps {
  import opened Lists
  import opened Scheduler

  function FlagsOf(s: State, t: Tid): Flags { Thr(s, t).flags }

  // ---------------------------------------------------------------- effects of the edits

  ghost predicate SameButLists(s: State, n: State) {
    n.cpus == s.cpus && n.actors == s.actors && n.locked == s.locked && forall u :: FlagsOf(n, u) == FlagsOf(s, u)
  }

  ghost predicate OnlyList(s: State, n: State, l: Loc, list: seq<Tid>) {
    At(n, l) == list && forall k :: k != l ==> At(n, k) == At(s, k)
  }

  lemma LinkEffect(s: State, t: Tid, l: Loc, front: bool)
    ensures var n := Link(s, t, l, front);
      SameButLists(s, n) && OnlyList(s, n, l, if front then [t] + At(s, l) else At(s, l) + [t])
  {
  }

  lemma UnlinkEffect(s: State, t: Tid, l: Loc, p: Place)
    ensures var n := Unlink(s, t, l, p); SameButLists(s, n) && OnlyList(s, n, l, Without(At(s, l), t))
  {
    hide Without;
  }

  lemma PlaceEffect(s: State, t: Tid, p: Place)
    ensures var n := SetPlace(s, t, p); SameButLists(s, n) && n.lists == s.lists
  {
  }

  lemma FlagsEffect(s: State, t: Tid, f: Flags)
    ensures var n := SetFlags(s, t, f);
      && n.cpus == s.cpus && n.actors == s.actors && n.locked == s.locked && n.lists == s.lists
      && forall u :: FlagsOf(n, u) == if u == t then f else FlagsOf(s, u)
  {
  }

  lemma PopEffect(s: State, c: Cpu, l: Loc)
    requires At(s, l) != []
    ensures var n := Pop(s, c, l); SameButLists(s, n) && OnlyList(s, n, l, At(s, l)[1..])
  {
    hide Unlink, At;
    UnlinkEffect(s, Front(s, l), l, Held(ByCpu(c)));
  }

  // A node that moves from the front of one list to an end of another.
  lemma MoveEffect(s: State, c: Cpu, l: Loc, k: Loc, front: bool)
    requires At(s, l) != [] && l != k
    ensures var t := Front(s, l); var n := Link(Pop(s, c, l), t, k, front);
      && SameButLists(s, n) && At(n, l) == At(s, l)[1..]
      && At(n, k) == (if front then [t] + At(s, k) else At(s, k) + [t])
      && forall j :: j != l && j != k ==> At(n, j) == At(s, j)
  {
    hide Link, Pop, At, Front;
    PopEffect(s, c, l);
    LinkEffect(Pop(s, c, l), Front(s, l), k, front);
  }

  // ---------------------------------------------------------------- who sets and clears each flag

  predicate RunsOn(s: State, c: Cpu, t: Tid) { c in s.cpus && s.cpus[c] == Running(t) }

  predicate DiesOn(s: State, c: Cpu, t: Tid, stage: nat) { c in s.cpus && s.cpus[c] == Dying(t, stage) }

  predicate Exits(s: State, e: Step, t: Tid) { e.Code? && e.code.ThreadExit? && RunsOn(s, e.c, t) }

  predicate Waits(s: State, e: Step, t: Tid) { e.Code? && e.code.WaitBlock? && RunsOn(s, e.c, t) }

  predicate Kills(s: State, e: Step, t: Tid) { e.Picks? && e.pick.KillMark? && DiesOn(s, e.c, t, 0) }

  predicate Buries(s: State, e: Step, t: Tid) { e.Picks? && e.pick.KillClear? && DiesOn(s, e.c, t, 1) }

  predicate Stops(s: State, e: Step, t: Tid) {
    e.Picks? && e.pick.SuspendDone? && e.c in s.cpus && s.cpus[e.c].Suspend? && s.cpus[e.c].t == t
  }

  // A call by another thread that asks t to resume, or to stop, succeeds.
  predicate Resumes(s: State, e: Step, t: Tid, now: bool) {
    e.Calls? && e.call.CasWins? && e.a in s.actors && s.actors[e.a].Loaded? && s.actors[e.a].t == t && s.actors[e.a].op == Resume(now)
  }

  predicate AsksToStop(s: State, e: Step, t: Tid, kernel: bool) {
    e.Calls? && e.call.CasWins? && e.a in s.actors && s.actors[e.a].Loaded? && s.actors[e.a].t == t && s.actors[e.a].op == SuspendOther(kernel)
  }

  // The timer of t fires, or notify has come to t in the waiting list.
  predicate Wakes(s: State, e: Step, t: Tid) {
    || (e.Starts? && e.start == TimerClear(t))
    || (e.Calls? && e.call.NotifyClear? && e.a in s.actors && s.actors[e.a].NotifyScan? && Scanned(s, s.actors[e.a].m, s.actors[e.a].i) == t)
  }

  function Scanned(s: State, m: Mutex, i: nat): Tid { if i < |At(s, Waiting(m))| then At(s, Waiting(m))[i] else 0 }

  // Each flag of a thread, after any step.
  ghost predicate FlagLaw(s: State, e: Step, t: Tid, f: Flags, g: Flags) {
    && (g.exited <==> f.exited || Kills(s, e, t))
    && (g.exiting <==> (f.exiting || Exits(s, e, t)) && !Buries(s, e, t))
    && (g.running <==> (f.running || Resumes(s, e, t, true) || Resumes(s, e, t, false)) && !Buries(s, e, t) && !Stops(s, e, t))
    && (g.suspending <==> (f.suspending || AsksToStop(s, e, t, true) || AsksToStop(s, e, t, false))
                          && !Resumes(s, e, t, true) && !Resumes(s, e, t, false) && !Stops(s, e, t))
    && (g.ksuspend <==> (f.ksuspend || AsksToStop(s, e, t, true)) && !Stops(s, e, t))
    && (g.startNow <==> f.startNow || Resumes(s, e, t, true))
    && (g.blocked <==> (f.blocked || Waits(s, e, t)) && !Wakes(s, e, t))
    && (g.privileged <==> if e.Code? && e.code.SetPrivilege? && RunsOn(s, e.c, t) then e.code.on else f.privileged)
    && (g.detached <==> f.detached || e == Life(t, Detach))
    && g.kernel == f.kernel
  }

  lemma FlagSteps(s: State, e: Step, t: Tid)
    requires Enabled(s, e) && t in s.threads
    ensures FlagLaw(s, e, t, FlagsOf(s, t), FlagsOf(Apply(s, e), t))
  {
    hide FlagLaw, FlagsOf, LifeApply, CodeApply, ListApply, PickApply, StartApply, CallApply,
         LifeEnabled, ListEnabled, PickEnabled, StartEnabled, CallEnabled;
    match e
    case Life(u, k) => LifeFlags(s, u, k, t); LifeFlagLaw(s, u, k, t);
    case Code(c, k) => CodeFlags(s, c, k, t); CodeFlagLaw(s, c, k, t);
    case Lists(c, k) => ListFlags(s, c, k, t); ListFlagLaw(s, c, k, t);
    case Picks(c, k) => PickFlags(s, c, k, t); PickFlagLaw(s, c, k, t);
    case Starts(a, k) => StartFlags(s, a, k, t); StartFlagLaw(s, a, k, t);
    case Calls(a, k) => CallFlags(s, a, k, t); CallFlagLaw(s, a, k, t);
  }

  lemma LifeFlagLaw(s: State, u: Tid, k: LifeStep, t: Tid)
    ensures var f := FlagsOf(s, t);
      FlagLaw(s, Life(u, k), t, f, if k.Detach? && u == t then f.(detached := true) else f)
  {
    hide FlagsOf;
  }

  lemma StartFlagLaw(s: State, a: Actor, k: StartStep, t: Tid)
    ensures var f := FlagsOf(s, t);
      FlagLaw(s, Starts(a, k), t, f, if k == TimerClear(t) then f.(blocked := false) else f)
  {
    hide FlagsOf;
  }

  lemma ListFlagLaw(s: State, c: Cpu, k: ListStep, t: Tid)
    ensures FlagLaw(s, Lists(c, k), t, FlagsOf(s, t), FlagsOf(s, t))
  {
    hide FlagsOf;
  }

  lemma CodeFlagLaw(s: State, c: Cpu, k: CodeStep, t: Tid)
    requires c in s.cpus && s.cpus[c].Running?
    ensures FlagLaw(s, Code(c, k), t, FlagsOf(s, t), CodeFlagsAre(s, c, k, t))
  {
    hide FlagsOf, FlagLaw;
    var f := FlagsOf(s, t);
    if s.cpus[c].t != t {
      OtherCodeLaw(s, c, k, t, f);
    } else {
      match k
      case Interrupt => OtherCodeLaw(s, c, k, t, f);
      case ThreadExit => ExitLaw(s, c, t, f);
      case SetPrivilege(on) => PrivilegeLaw(s, c, on, t, f);
      case WaitBlock(m) => WaitLaw(s, c, m, t, f);
    }
  }

  // The flags of t after a step of the code of the thread that c runs.
  function CodeFlagsAre(s: State, c: Cpu, k: CodeStep, t: Tid): Flags
    requires c in s.cpus && s.cpus[c].Running?
  {
    var f := FlagsOf(s, t);
    if s.cpus[c].t != t then f
    else
      match k
      case Interrupt => f
      case ThreadExit => f.(exiting := true)
      case SetPrivilege(on) => f.(privileged := on)
      case WaitBlock(_) => f.(blocked := true)
  }

  lemma OtherCodeLaw(s: State, c: Cpu, k: CodeStep, t: Tid, f: Flags)
    requires c in s.cpus && s.cpus[c].Running? && (s.cpus[c].t != t || k.Interrupt?)
    ensures FlagLaw(s, Code(c, k), t, f, f)
  {
  }

  lemma ExitLaw(s: State, c: Cpu, t: Tid, f: Flags)
    requires RunsOn(s, c, t)
    ensures FlagLaw(s, Code(c, ThreadExit), t, f, f.(exiting := true))
  {
    hide At, Scanned;
  }

  lemma PrivilegeLaw(s: State, c: Cpu, on: bool, t: Tid, f: Flags)
    requires RunsOn(s, c, t)
    ensures FlagLaw(s, Code(c, SetPrivilege(on)), t, f, f.(privileged := on))
  {
  }

  lemma WaitLaw(s: State, c: Cpu, m: Mutex, t: Tid, f: Flags)
    requires RunsOn(s, c, t)
    ensures FlagLaw(s, Code(c, WaitBlock(m)), t, f, f.(blocked := true))
  {
  }

  lemma PickFlagLaw(s: State, c: Cpu, k: PickStep, t: Tid)
    requires c in s.cpus && PickEnabled(s, c, s.cpus[c], k)
    ensures FlagLaw(s, Picks(c, k), t, FlagsOf(s, t), PickFlagsAre(s, c, k, t))
  {
    hide FlagsOf, At, Suspendable, FlagLaw;
    var f, pc := FlagsOf(s, t), s.cpus[c];
    if k.KillMark? && pc.t == t {
      KillMarkLaw(s, c, t, f);
    } else if k.KillClear? && pc.t == t {
      KillClearLaw(s, c, t, f);
    } else if k.SuspendDone? && pc.t == t {
      SuspendDoneLaw(s, c, t, f);
    } else {
      OtherPickLaw(s, c, k, t, f);
    }
  }

  // The flags of t after a step of the pick loop.
  function PickFlagsAre(s: State, c: Cpu, k: PickStep, t: Tid): Flags
    requires c in s.cpus && PickEnabled(s, c, s.cpus[c], k)
  {
    var f := FlagsOf(s, t);
    if k.KillMark? && s.cpus[c].t == t then f.(exited := true)
    else if k.KillClear? && s.cpus[c].t == t then f.(running := false, exiting := false)
    else if k.SuspendDone? && s.cpus[c].t == t then f.(running := false, suspending := false, ksuspend := false)
    else f
  }

  lemma KillMarkLaw(s: State, c: Cpu, t: Tid, f: Flags)
    requires DiesOn(s, c, t, 0)
    ensures FlagLaw(s, Picks(c, KillMark), t, f, f.(exited := true))
  {
  }

  lemma KillClearLaw(s: State, c: Cpu, t: Tid, f: Flags)
    requires DiesOn(s, c, t, 1)
    ensures FlagLaw(s, Picks(c, KillClear), t, f, f.(running := false, exiting := false))
  {
  }

  lemma SuspendDoneLaw(s: State, c: Cpu, t: Tid, f: Flags)
    requires c in s.cpus && s.cpus[c].Suspend? && s.cpus[c].t == t
    ensures FlagLaw(s, Picks(c, SuspendDone), t, f, f.(running := false, suspending := false, ksuspend := false))
  {
  }

  lemma OtherPickLaw(s: State, c: Cpu, k: PickStep, t: Tid, f: Flags)
    requires c in s.cpus && PickEnabled(s, c, s.cpus[c], k)
    requires (k.KillMark? || k.KillClear? || k.SuspendDone?) ==> s.cpus[c].t != t
    ensures FlagLaw(s, Picks(c, k), t, f, f)
  {
    hide At, Suspendable;
  }

  lemma CallFlagLaw(s: State, a: Actor, k: CallStep, t: Tid)
    requires a in s.actors && CallEnabled(s, s.actors[a], k)
    ensures FlagLaw(s, Calls(a, k), t, FlagsOf(s, t), CallFlagsAre(s, s.actors[a], k, t))
  {
    hide FlagsOf, At, Scanned, Allowed;
    var f, pc := FlagsOf(s, t), s.actors[a];
    if k.CasWins? && pc.t == t {
      CasFlagLaw(s, a, t, f);
    } else {
      OtherCallLaw(s, a, k, t, f);
    }
  }

  // The flags of t after a step of a call.
  function CallFlagsAre(s: State, pc: ActorPc, k: CallStep, t: Tid): Flags
    requires CallEnabled(s, pc, k)
  {
    var f := FlagsOf(s, t);
    if k.CasWins? && pc.t == t then
      (match pc.op
       case Resume(now) => f.(running := true, suspending := false, startNow := f.startNow || now)
       case SuspendOther(kernel) => f.(suspending := true, ksuspend := f.ksuspend || kernel))
    else if k.NotifyClear? && Scanned(s, pc.m, pc.i) == t then f.(blocked := false)
    else f
  }

  lemma CasFlagLaw(s: State, a: Actor, t: Tid, f: Flags)
    requires a in s.actors && s.actors[a].Loaded? && s.actors[a].t == t
    ensures FlagLaw(s, Calls(a, CasWins), t, f,
                    match s.actors[a].op
                    case Resume(now) => f.(running := true, suspending := false, startNow := f.startNow || now)
                    case SuspendOther(kernel) => f.(suspending := true, ksuspend := f.ksuspend || kernel))
  {
  }

  lemma OtherCallLaw(s: State, a: Actor, k: CallStep, t: Tid, f: Flags)
    requires a in s.actors && CallEnabled(s, s.actors[a], k) && !(k.CasWins? && s.actors[a].t == t)
    ensures FlagLaw(s, Calls(a, k), t, f,
                    if k.NotifyClear? && Scanned(s, s.actors[a].m, s.actors[a].i) == t then f.(blocked := false) else f)
  {
    hide At, Scanned, Allowed;
  }

  lemma LifeFlags(s: State, u: Tid, e: LifeStep, t: Tid)
    requires LifeEnabled(s, u, e) && t in s.threads
    ensures FlagsOf(LifeApply(s, u, e), t) == if e.Detach? && u == t then FlagsOf(s, t).(detached := true) else FlagsOf(s, t)
  {
    hide Unlink, SetFlags, At;
    match e
    case NewThread(_) =>
    case Detach => FlagsEffect(s, u, Thr(s, u).flags.(detached := true));
    case Reap => UnlinkEffect(s, u, DeadList, Freed);
  }

  lemma CodeFlags(s: State, c: Cpu, e: CodeStep, t: Tid)
    requires c in s.cpus && s.cpus[c].Running? && t in s.threads
    ensures FlagsOf(CodeApply(s, c, s.cpus[c].t, e), t) == CodeFlagsAre(s, c, e, t)
  {
    hide Unlink, At;
    var u := s.cpus[c].t;
    if e.WaitBlock? {
      var th := Thr(s, u);
      var s1 := SetThread(s, u, th.(flags := th.flags.(blocked := true), mutex := e.m, begun := th.begun + 1));
      UnlinkEffect(s1, u, Queue(c), Held(ByWaiter(c)));
      assert FlagsOf(Block(s, u, c, e.m), t) == FlagsOf(s1, t);
    }
  }

  lemma ListFlags(s: State, c: Cpu, e: ListStep, t: Tid)
    requires c in s.cpus && ListEnabled(s, c, s.cpus[c], e)
    ensures FlagsOf(ListApply(s, c, s.cpus[c], e), t) == FlagsOf(s, t)
  {
    hide Link, Pop, SetPlace, At, Front;
    var pc := s.cpus[c];
    match e
    case WaitLink => LinkEffect(s, pc.t, Waiting(pc.m), false);
    case DrainTake => MoveEffect(s, c, Incoming(c), Queue(c), false);
    case DrainPop => PopEffect(s, c, Queue(c));
    case DrainOffer(cpu, _) => LinkEffect(s, pc.t, Incoming(cpu), false);
    case BalancePop => PopEffect(s, c, Queue(c));
    case BalanceOffer(cpu, _, _) => LinkEffect(s, pc.t, Incoming(cpu), false); PlaceEffect(s, pc.t, Lost);
    case BalanceKeep => LinkEffect(s, pc.t, Queue(c), false);
    case TakeIncoming => MoveEffect(s, c, Incoming(c), Queue(c), Thr(s, Front(s, Incoming(c))).flags.startNow);
    case _ =>
  }

  lemma PickFlags(s: State, c: Cpu, e: PickStep, t: Tid)
    requires c in s.cpus && PickEnabled(s, c, s.cpus[c], e)
    ensures FlagsOf(PickApply(s, c, s.cpus[c], e), t) == PickFlagsAre(s, c, e, t)
  {
    hide Link, Pop, SetPlace, SetFlags, At, Front;
    var pc := s.cpus[c];
    match e
    case Pick => PopEffect(s, c, Queue(c));
    case SwitchTo(_) => LinkEffect(s, pc.t, Queue(c), false);
    case KillMark => FlagsEffect(s, pc.t, Thr(s, pc.t).flags.(exited := true));
    case KillClear => FlagsEffect(s, pc.t, Thr(s, pc.t).flags.(running := false, exiting := false));
    case KillAppend => LinkEffect(s, pc.t, DeadList, false);
    case SuspendDone =>
      FlagsEffect(s, pc.t, MarkSuspended(pc.flags));
      PlaceEffect(SetFlags(s, pc.t, MarkSuspended(pc.flags)), pc.t, Parked);
    case _ =>
  }

  lemma StartFlags(s: State, a: Actor, e: StartStep, t: Tid)
    requires StartEnabled(s, e) && t in s.threads
    ensures FlagsOf(StartApply(s, a, e), t) == if e == TimerClear(t) then FlagsOf(s, t).(blocked := false) else FlagsOf(s, t)
  {
    hide Unblock;
    if e.TimerClear? {
      UnblockEffect(s, e.t, a);
    }
  }

  lemma UnblockEffect(s: State, t: Tid, a: Actor)
    ensures var n := Unblock(s, t, a);
      && n.cpus == s.cpus && n.actors == s.actors && n.locked == s.locked && n.lists == s.lists
      && forall u :: FlagsOf(n, u) == if u == t then FlagsOf(s, t).(blocked := false) else FlagsOf(s, u)
  {
  }

  lemma CasFlags(s: State, a: Actor, t: Tid)
    requires a in s.actors && CallEnabled(s, s.actors[a], CasWins)
    ensures FlagsOf(CallApply(s, a, s.actors[a], CasWins), t) == CallFlagsAre(s, s.actors[a], CasWins, t)
  {
    hide SetPlace, SetFlags, At, Marked, Allowed;
    var pc := s.actors[a];
    var n := SetFlags(s, pc.t, Marked(pc.cur, pc.op));
    FlagsEffect(s, pc.t, Marked(pc.cur, pc.op));
    PlaceEffect(n, pc.t, Held(ByResume(a)));
    MarkedIs(pc.cur, pc.op);
    assert FlagsOf(CallApply(s, a, pc, CasWins), t) == FlagsOf(n, t);
  }

  lemma MarkedIs(f: Flags, op: Op)
    ensures Marked(f, op) ==
            match op
            case Resume(now) => f.(running := true, suspending := false, startNow := f.startNow || now)
            case SuspendOther(kernel) => f.(suspending := true, ksuspend := f.ksuspend || kernel)
  {
  }

  lemma CallFlags(s: State, a: Actor, e: CallStep, t: Tid)
    requires a in s.actors && CallEnabled(s, s.actors[a], e)
    ensures FlagsOf(CallApply(s, a, s.actors[a], e), t) == CallFlagsAre(s, s.actors[a], e, t)
  {
    hide Link, Unlink, SetPlace, SetFlags, At, Unblock;
    var pc := s.actors[a];
    match e
    case NotifyClear => UnblockEffect(s, At(s, Waiting(pc.m))[pc.i], a);
    case CasWins => CasFlags(s, a, t);
    case ResumeHandOff(cpu) => LinkEffect(s, pc.t, Incoming(cpu), false);
    case TimerRemove => UnlinkEffect(s, pc.t, Waiting(pc.m), Held(ByWaker(a)));
    case NotifyRemove => UnlinkEffect(s, pc.t, Waiting(pc.m), Held(ByWaker(a)));
    case WakerHandOff(cpu) =>
      var th := Thr(s, pc.t);
      var s1 := SetThread(s, pc.t, th.(ended := th.ended + 1));
      LinkEffect(s1, pc.t, Incoming(cpu), false);
      assert FlagsOf(Link(s1, pc.t, Incoming(cpu), false), t) == FlagsOf(s1, t);
    case _ =>
  }

  // ---------------------------------------------------------------- what a CPU does next

  predicate ByCpuStep(e: Step) { e.Code? || e.Lists? || e.Picks? }

  lemma CodePc(s: State, c: Cpu, e: CodeStep) returns (p: CpuPc)
    requires c in s.cpus && s.cpus[c].Running?
    ensures CodeApply(s, c, s.cpus[c].t, e).cpus == s.cpus[c := p]
    ensures p == match e
                 case Interrupt => Entry
                 case ThreadExit => Entry
                 case SetPrivilege(_) => s.cpus[c]
                 case WaitBlock(m) => Blocking(s.cpus[c].t, m)
  {
    hide Without, At;
    p := match e
         case Interrupt => Entry
         case ThreadExit => Entry
         case SetPrivilege(_) => s.cpus[c]
         case WaitBlock(m) => Blocking(s.cpus[c].t, m);
  }

  lemma ListPc(s: State, c: Cpu, e: ListStep) returns (p: CpuPc)
    requires c in s.cpus && ListEnabled(s, c, s.cpus[c], e)
    ensures ListApply(s, c, s.cpus[c], e).cpus == s.cpus[c := p]
    ensures p == s.cpus[c] || !(p.Running? || p.Idle? || p.Picked? || p.Suspend? || p.Dying? || p.Blocking?)
  {
    hide Link, Pop, SetPlace, At, Front, FlagsOf;
    var pc := s.cpus[c];
    var queued := Front(s, Queue(c));
    p := pc;
    match e
    case WakeIdle => p := Entry;
    case WaitLink => LinkEffect(s, pc.t, Waiting(pc.m), false); p := Entry;
    case StopCpu => p := DrainConcat;
    case DrainTake => MoveEffect(s, c, Incoming(c), Queue(c), false);
    case DrainStart => p := DrainLoop;
    case DrainPop => PopEffect(s, c, Queue(c)); p := DrainTry(queued);
    case DrainOffer(cpu, isRunning) => LinkEffect(s, pc.t, Incoming(cpu), false); p := if isRunning then DrainLoop else pc;
    case DrainEnd => p := Off;
    case StartBalance => p := BalanceLoop;
    case BalancePop => PopEffect(s, c, Queue(c)); p := BalanceTry(queued);
    case BalanceOffer(cpu, isRunning, _) =>
      LinkEffect(s, pc.t, Incoming(cpu), false);
      PlaceEffect(s, pc.t, Lost);
      p := if isRunning then BalanceLoop else pc;
    case BalanceKeep => LinkEffect(s, pc.t, Queue(c), false); p := BalanceLoop;
    case BalanceEnd => p := IncomingLoop;
    case StartIncoming => p := IncomingLoop;
    case TakeIncoming => MoveEffect(s, c, Incoming(c), Queue(c), Thr(s, Front(s, Incoming(c))).flags.startNow);
    case IncomingEnd => p := PickLoop;
  }

  // A picked thread is the first of the queue; it then dies, stops or runs.
  lemma PickPc(s: State, c: Cpu, e: PickStep) returns (p: CpuPc)
    requires c in s.cpus && PickEnabled(s, c, s.cpus[c], e)
    ensures PickApply(s, c, s.cpus[c], e).cpus == s.cpus[c := p]
    ensures p.Picked? ==> e.Pick? && At(s, Queue(c)) != [] && p == Picked(At(s, Queue(c))[0], FlagsOf(s, At(s, Queue(c))[0]))
    ensures p.Idle? ==> e.PickIdle?
    ensures p.Running? ==> (e.SwitchTo? || e.SuspendCancelled?) && s.cpus[c].t == p.t
    ensures p.Suspend? ==> (e.SuspendBegin? || e.SuspendRetry?) && s.cpus[c].t == p.t
    ensures p.Dying? && p.stage == 0 ==> e.KillBegin? && s.cpus[c].t == p.t
    ensures p.Dying? && p.stage > 0 ==> s.cpus[c] == Dying(p.t, p.stage - 1)
    ensures !p.Entry? && !p.Blocking? && !p.Off?
  {
    hide Link, Pop, SetPlace, SetFlags, At;
    var pc := s.cpus[c];
    match e
    case Pick => PopEffect(s, c, Queue(c)); p := Picked(Front(s, Queue(c)), Thr(s, Front(s, Queue(c))).flags);
    case PickIdle => p := Idle;
    case SwitchTo(_) => LinkEffect(s, pc.t, Queue(c), false); p := Running(pc.t);
    case KillBegin(_) => p := Dying(pc.t, 0);
    case KillMark => FlagsEffect(s, pc.t, Thr(s, pc.t).flags.(exited := true)); p := Dying(pc.t, 1);
    case KillClear => FlagsEffect(s, pc.t, Thr(s, pc.t).flags.(running := false, exiting := false)); p := Dying(pc.t, 2);
    case KillAppend => LinkEffect(s, pc.t, DeadList, false); p := PickLoop;
    case SuspendBegin(_) => p := Suspend(pc.t, pc.flags);
    case SuspendDone =>
      FlagsEffect(s, pc.t, MarkSuspended(pc.flags));
      PlaceEffect(SetFlags(s, pc.t, MarkSuspended(pc.flags)), pc.t, Parked);
      p := PickLoop;
    case SuspendRetry => p := Suspend(pc.t, Thr(s, pc.t).flags);
    case SuspendCancelled => p := Running(pc.t);
  }

  lemma ActorCpus(s: State, e: Step)
    requires Enabled(s, e) && !ByCpuStep(e)
    ensures Apply(s, e).cpus == s.cpus
  {
    hide Unlink, SetFlags, Unblock, At, CallApply;
    match e
    case Life(t, k) =>
      UnlinkEffect(s, t, DeadList, Freed);
      FlagsEffect(s, t, Thr(s, t).flags.(detached := true));
    case Starts(a, k) => if k.TimerClear? { UnblockEffect(s, k.t, a); }
    case Calls(a, k) => CallCpus(s, a, s.actors[a], k);
  }

  lemma CallCpus(s: State, a: Actor, pc: ActorPc, e: CallStep)
    requires CallEnabled(s, pc, e)
    ensures CallApply(s, a, pc, e).cpus == s.cpus
  {
    hide Link, Unlink, SetPlace, SetFlags, Unblock, At, Marked, Allowed;
    match e
    case NotifyClear => UnblockEffect(s, At(s, Waiting(pc.m))[pc.i], a);
    case CasWins =>
      FlagsEffect(s, pc.t, Marked(pc.cur, pc.op));
      PlaceEffect(SetFlags(s, pc.t, Marked(pc.cur, pc.op)), pc.t, Held(ByResume(a)));
    case ResumeHandOff(cpu) => LinkEffect(s, pc.t, Incoming(cpu), false);
    case TimerRemove => UnlinkEffect(s, pc.t, Waiting(pc.m), Held(ByWaker(a)));
    case NotifyRemove => UnlinkEffect(s, pc.t, Waiting(pc.m), Held(ByWaker(a)));
    case WakerHandOff(cpu) =>
      var th := Thr(s, pc.t);
      LinkEffect(SetThread(s, pc.t, th.(ended := th.ended + 1)), pc.t, Incoming(cpu), false);
    case _ =>
  }

  // A step of a CPU leaves the others where they are.
  lemma CpuAfter(s: State, e: Step, c: Cpu)
    requires Enabled(s, e) && c in s.cpus && !(ByCpuStep(e) && e.c == c)
    ensures c in Apply(s, e).cpus && Apply(s, e).cpus[c] == s.cpus[c]
  {
    hide CodeApply, ListApply, PickApply, LifeApply, StartApply, CallApply, ListEnabled, PickEnabled;
    if e.Code? {
      var p := CodePc(s, e.c, e.code);
    } else if e.Lists? {
      var p := ListPc(s, e.c, e.move);
    } else if e.Picks? {
      var p := PickPc(s, e.c, e.pick);
    } else {
      ActorCpus(s, e);
    }
  }

  lemma CpuExists(s: State, e: Step, c: Cpu)
    requires Enabled(s, e) && c in Apply(s, e).cpus
    ensures c in s.cpus
  {
    hide CodeApply, ListApply, PickApply, LifeApply, StartApply, CallApply, ListEnabled, PickEnabled;
    if e.Code? {
      var p := CodePc(s, e.c, e.code);
    } else if e.Lists? {
      var p := ListPc(s, e.c, e.move);
    } else if e.Picks? {
      var p := PickPc(s, e.c, e.pick);
    } else {
      ActorCpus(s, e);
    }
  }

  // ---------------------------------------------------------------- who runs, dies or stops

  // The thread picked has been told to exit, or is in user mode of a process that exits.
  predicate MustDie(f: Flags, procExiting: bool) { f.exiting || (procExiting && !f.privileged) }

  // It has been told to stop, and is in user mode or may stop in the kernel.
  predicate MustStop(f: Flags) { f.suspending && (f.ksuspend || !f.privileged) }

  // A picked thread dies, stops or runs, exactly one of these; and so does one that is being stopped.
  lemma PickDecides(s: State, c: Cpu, p: bool)
    requires c in s.cpus
    ensures s.cpus[c].Picked? ==>
      var f := s.cpus[c].flags;
      && (Enabled(s, Picks(c, KillBegin(p))) <==> MustDie(f, p))
      && (Enabled(s, Picks(c, SuspendBegin(p))) <==> !MustDie(f, p) && MustStop(f))
      && (Enabled(s, Picks(c, SwitchTo(p))) <==> !MustDie(f, p) && !MustStop(f))
    ensures s.cpus[c].Suspend? ==>
      var f := s.cpus[c].flags;
      && (Enabled(s, Picks(c, SuspendCancelled)) <==> !MustStop(f))
      && (Enabled(s, Picks(c, SuspendDone)) <==> MustStop(f) && FlagsOf(s, s.cpus[c].t) == f)
      && (Enabled(s, Picks(c, SuspendRetry)) <==> MustStop(f) && FlagsOf(s, s.cpus[c].t) != f)
  {
    hide At;
  }

  // A thread that becomes EXITED was picked with flags that say it must die.
  lemma DiesOnlyIf(s: State, e: Step, c: Cpu, t: Tid)
    requires Enabled(s, e) && c in s.cpus && c in Apply(s, e).cpus
    requires Apply(s, e).cpus[c] == Dying(t, 0) && s.cpus[c] != Dying(t, 0)
    ensures e.Picks? && e.c == c && e.pick.KillBegin? && s.cpus[c].Picked? && s.cpus[c].t == t
    ensures MustDie(s.cpus[c].flags, e.pick.procExiting)
  {
    hide CodeApply, ListApply, PickApply, LifeApply, StartApply, CallApply, ListEnabled, At;
    if !(ByCpuStep(e) && e.c == c) {
      CpuAfter(s, e, c);
    } else if e.Code? {
      var p := CodePc(s, c, e.code);
    } else if e.Lists? {
      var p := ListPc(s, c, e.move);
    } else {
      var p := PickPc(s, c, e.pick);
    }
  }

  // A thread that starts to run was picked with flags that say neither; it has not been told to exit.
  lemma RunsOnlyIf(s: State, e: Step, c: Cpu, t: Tid)
    requires Inv(s) && Enabled(s, e) && c in s.cpus && c in Apply(s, e).cpus
    requires Apply(s, e).cpus[c] == Running(t) && s.cpus[c] != Running(t)
    ensures e.Picks? && e.c == c && e.pick.SwitchTo? && s.cpus[c].Picked? && s.cpus[c].t == t
    ensures !MustDie(s.cpus[c].flags, e.pick.procExiting) && !MustStop(s.cpus[c].flags)
    ensures t in s.threads && !FlagsOf(s, t).exiting && !FlagsOf(s, t).exited && FlagsOf(s, t).running
  {
    hide Inv, CodeApply, ListApply, PickApply, LifeApply, StartApply, CallApply, ListEnabled, At;
    if !(ByCpuStep(e) && e.c == c) {
      CpuAfter(s, e, c);
    } else if e.Code? {
      var p := CodePc(s, c, e.code);
    } else if e.Lists? {
      var p := ListPc(s, c, e.move);
    } else {
      var p := PickPc(s, c, e.pick);
      NeverCancelled(s, c);
      CpuHolds(s, c);
    }
  }

  // ---------------------------------------------------------------- exit is final

  predicate Told(s: State, t: Tid) { FlagsOf(s, t).exiting || FlagsOf(s, t).exited }

  ghost predicate RunsNowhere(s: State, t: Tid) { forall c :: !RunsOn(s, c, t) }

  lemma ToldStays(s: State, e: Step, t: Tid)
    requires Inv(s) && Enabled(s, e) && Told(s, t) && RunsNowhere(s, t)
    ensures Told(Apply(s, e), t) && RunsNowhere(Apply(s, e), t)
  {
    hide Inv, Enabled, Apply;
    FlagSteps(s, e, t);
    forall c ensures !RunsOn(Apply(s, e), c, t) {
      assert !RunsOn(s, c, t);
      if RunsOn(Apply(s, e), c, t) {
        CpuExists(s, e, c);
        RunsOnlyIf(s, e, c, t);
        assert false;
      }
    }
    if Buries(s, e, t) {
      CpuHolds(s, e.c);
    }
  }

  lemma {:induction false} ExitIsFinal(s: State, steps: seq<Step>, n: State, t: Tid)
    requires Inv(s) && Told(s, t) && RunsNowhere(s, t) && Run(s, steps, n)
    ensures Told(n, t) && RunsNowhere(n, t)
    decreases |steps|
  {
    hide Inv, Enabled, Apply, Quiet, Told, RunsNowhere;
    if steps != [] {
      ToldStays(s, steps[0], t);
      StepKeeps(s, steps[0]);
      ExitIsFinal(Apply(s, steps[0]), steps[1..], n, t);
    }
  }

  lemma ExitTells(s: State, c: Cpu)
    requires Inv(s) && c in s.cpus && s.cpus[c].Running?
    ensures Told(Apply(s, Code(c, ThreadExit)), s.cpus[c].t) && RunsNowhere(Apply(s, Code(c, ThreadExit)), s.cpus[c].t)
  {
    hide Inv;
    var t, e := s.cpus[c].t, Code(c, ThreadExit);
    CpuHolds(s, c);
    FlagSteps(s, e, t);
    forall d ensures !RunsOn(Apply(s, e), d, t) {
      if d in s.cpus && d != c {
        CpuHolds(s, d);
      }
    }
  }

  // In no run does a thread that calls thread_exit run again after that.
  lemma NeverRunsAgain(s: State, c: Cpu, steps: seq<Step>, n: State)
    requires Inv(s) && c in s.cpus && s.cpus[c].Running? && Run(Apply(s, Code(c, ThreadExit)), steps, n)
    ensures RunsNowhere(n, s.cpus[c].t)
  {
    hide Inv, Run, Told, RunsNowhere, CodeApply;
    ExitTells(s, c);
    StepKeeps(s, Code(c, ThreadExit));
    ExitIsFinal(Apply(s, Code(c, ThreadExit)), steps, n, s.cpus[c].t);
  }

  // ---------------------------------------------------------------- lists

  function ThreadAt(s: State, c: Cpu): Tid {
    if c !in s.cpus then 0
    else
      match s.cpus[c]
      case Running(t) => t
      case DrainTry(t) => t
      case BalanceTry(t) => t
      case Picked(t, _) => t
      case Suspend(t, _) => t
      case Dying(t, _) => t
      case Blocking(t, _) => t
      case _ => 0
  }

  function CalledFor(s: State, a: Actor): Tid {
    if a !in s.actors || s.actors[a].NotifyScan? then 0 else s.actors[a].t
  }

  function MutexAt(s: State, c: Cpu): Mutex { if c in s.cpus && s.cpus[c].Blocking? then s.cpus[c].m else 0 }

  function MutexFor(s: State, a: Actor): Mutex {
    if a in s.actors && (s.actors[a].TimerWon? || s.actors[a].NotifyWon?) then s.actors[a].m else 0
  }

  function First(s: State, l: Loc): Tid { if At(s, l) == [] then 0 else At(s, l)[0] }

  // The thread whose node a step moves.
  function Moved(s: State, e: Step): Tid {
    match e
    case Life(t, _) => t
    case Code(c, _) => ThreadAt(s, c)
    case Lists(c, k) => if k.TakeIncoming? || k.DrainTake? then First(s, Incoming(c)) else ThreadAt(s, c)
    case Picks(c, _) => ThreadAt(s, c)
    case Starts(_, _) => 0
    case Calls(a, _) => CalledFor(s, a)
  }

  // The list it comes to.
  predicate Arrives(s: State, e: Step, l: Loc) {
    match e
    case Lists(c, TakeIncoming) => l == Queue(c)
    case Lists(c, DrainTake) => l == Queue(c)
    case Lists(c, BalanceKeep) => l == Queue(c)
    case Lists(c, DrainOffer(cpu, true)) => l == Incoming(cpu)
    case Lists(c, BalanceOffer(cpu, true, true)) => l == Incoming(cpu)
    case Lists(c, WaitLink) => l == Waiting(MutexAt(s, c))
    case Picks(c, SwitchTo(_)) => l == Queue(c)
    case Picks(c, KillAppend) => l == DeadList
    case Calls(a, ResumeHandOff(cpu)) => l == Incoming(cpu)
    case Calls(a, WakerHandOff(cpu)) => l == Incoming(cpu)
    case _ => false
  }

  // A thread that must start at once goes to the front of the queue.
  predicate Overtakes(s: State, e: Step) { e.Lists? && e.move.TakeIncoming? && FlagsOf(s, Moved(s, e)).startNow }

  // The steps that take the first node of a list.
  predicate TakesFirst(e: Step, l: Loc) {
    match e
    case Lists(c, k) => (l == Incoming(c) && (k.TakeIncoming? || k.DrainTake?)) || (l == Queue(c) && (k.DrainPop? || k.BalancePop?))
    case Picks(c, k) => l == Queue(c) && k.Pick?
    case _ => false
  }

  // The ones that take a node from anywhere: a running thread that waits, a waiting one that was woken,
  // a dead one that is reaped.
  predicate Leaves(s: State, e: Step, l: Loc) {
    match e
    case Code(c, WaitBlock(_)) => l == Queue(c)
    case Calls(a, TimerRemove) => l == Waiting(MutexFor(s, a))
    case Calls(a, NotifyRemove) => l == Waiting(MutexFor(s, a))
    case Life(_, Reap) => l == DeadList
    case _ => false
  }

  // A list after any step: arrivals go to the end, but for those that overtake; nothing else moves.
  ghost predicate ListLaw(s: State, e: Step, n: State, l: Loc) {
    At(n, l) ==
    if Arrives(s, e, l) then (if Overtakes(s, e) then [Moved(s, e)] + At(s, l) else At(s, l) + [Moved(s, e)])
    else if TakesFirst(e, l) then At(s, l)[if At(s, l) == [] then 0 else 1..]
    else if Leaves(s, e, l) then Without(At(s, l), Moved(s, e))
    else At(s, l)
  }

  lemma ListSteps(s: State, e: Step, l: Loc)
    requires Enabled(s, e)
    ensures ListLaw(s, e, Apply(s, e), l)
  {
    hide ListLaw, LifeApply, CodeApply, ListApply, PickApply, StartApply, CallApply,
         LifeEnabled, ListEnabled, PickEnabled, StartEnabled, CallEnabled;
    match e
    case Life(u, k) => LifeLists(s, u, k, l);
    case Code(c, k) => CodeLists(s, c, k, l);
    case Lists(c, k) => MoveLists(s, c, k, l);
    case Picks(c, k) => PickLists(s, c, k, l);
    case Starts(a, k) => StartLists(s, a, k, l);
    case Calls(a, k) => CallLists(s, a, k, l);
  }

  lemma LifeLists(s: State, u: Tid, e: LifeStep, l: Loc)
    requires LifeEnabled(s, u, e)
    ensures ListLaw(s, Life(u, e), LifeApply(s, u, e), l)
  {
    hide Unlink, Without;
    if e.Reap? {
      UnlinkEffect(s, u, DeadList, Freed);
    }
  }

  lemma CodeLists(s: State, c: Cpu, e: CodeStep, l: Loc)
    requires c in s.cpus && s.cpus[c].Running?
    ensures ListLaw(s, Code(c, e), CodeApply(s, c, s.cpus[c].t, e), l)
  {
    hide Unlink, Without, FlagsOf;
    var u := s.cpus[c].t;
    if e.WaitBlock? {
      var th := Thr(s, u);
      var s1 := SetThread(s, u, th.(flags := th.flags.(blocked := true), mutex := e.m, begun := th.begun + 1));
      UnlinkEffect(s1, u, Queue(c), Held(ByWaiter(c)));
      assert At(Block(s, u, c, e.m), l) == if l == Queue(c) then Without(At(s, l), u) else At(s, l);
    }
  }

  lemma StartLists(s: State, a: Actor, e: StartStep, l: Loc)
    requires StartEnabled(s, e)
    ensures ListLaw(s, Starts(a, e), StartApply(s, a, e), l)
  {
  }

  lemma CallLists(s: State, a: Actor, e: CallStep, l: Loc)
    requires a in s.actors && CallEnabled(s, s.actors[a], e)
    ensures ListLaw(s, Calls(a, e), CallApply(s, a, s.actors[a], e), l)
  {
    hide Link, Unlink, SetPlace, SetFlags, Unblock, Without, FlagsOf, Marked, Allowed;
    var pc := s.actors[a];
    match e
    case CasWins =>
      FlagsEffect(s, pc.t, Marked(pc.cur, pc.op));
      PlaceEffect(SetFlags(s, pc.t, Marked(pc.cur, pc.op)), pc.t, Held(ByResume(a)));
    case ResumeHandOff(cpu) => LinkEffect(s, pc.t, Incoming(cpu), false);
    case TimerRemove => UnlinkEffect(s, pc.t, Waiting(pc.m), Held(ByWaker(a)));
    case NotifyClear => UnblockEffect(s, At(s, Waiting(pc.m))[pc.i], a);
    case NotifyRemove => UnlinkEffect(s, pc.t, Waiting(pc.m), Held(ByWaker(a)));
    case WakerHandOff(cpu) =>
      var th := Thr(s, pc.t);
      var s1 := SetThread(s, pc.t, th.(ended := th.ended + 1));
      LinkEffect(s1, pc.t, Incoming(cpu), false);
      assert At(Link(s1, pc.t, Incoming(cpu), false), l) == if l == Incoming(cpu) then At(s, l) + [pc.t] else At(s, l);
    case _ =>
  }

  lemma PickLists(s: State, c: Cpu, e: PickStep, l: Loc)
    requires c in s.cpus && PickEnabled(s, c, s.cpus[c], e)
    ensures ListLaw(s, Picks(c, e), PickApply(s, c, s.cpus[c], e), l)
  {
    hide Link, Pop, SetPlace, SetFlags, FlagsOf, Suspendable;
    var pc := s.cpus[c];
    match e
    case Pick => PopEffect(s, c, Queue(c));
    case SwitchTo(_) => LinkEffect(s, pc.t, Queue(c), false);
    case KillMark => FlagsEffect(s, pc.t, Thr(s, pc.t).flags.(exited := true));
    case KillClear => FlagsEffect(s, pc.t, Thr(s, pc.t).flags.(running := false, exiting := false));
    case KillAppend => LinkEffect(s, pc.t, DeadList, false);
    case SuspendDone =>
      FlagsEffect(s, pc.t, MarkSuspended(pc.flags));
      PlaceEffect(SetFlags(s, pc.t, MarkSuspended(pc.flags)), pc.t, Parked);
    case _ =>
  }

  lemma MoveLists(s: State, c: Cpu, e: ListStep, l: Loc)
    requires c in s.cpus && ListEnabled(s, c, s.cpus[c], e)
    ensures ListLaw(s, Lists(c, e), ListApply(s, c, s.cpus[c], e), l)
  {
    hide ListLaw, ListEnabled, ListApply;
    if e.DrainOffer? || e.BalanceOffer? {
      OfferLists(s, c, e, l);
    } else if e.DrainTake? || e.TakeIncoming? {
      ArrivalLists(s, c, e, l);
    } else {
      OwnLists(s, c, e, l);
    }
  }

  lemma OfferLists(s: State, c: Cpu, e: ListStep, l: Loc)
    requires c in s.cpus && ListEnabled(s, c, s.cpus[c], e) && (e.DrainOffer? || e.BalanceOffer?)
    ensures ListLaw(s, Lists(c, e), ListApply(s, c, s.cpus[c], e), l)
  {
    hide Link, SetPlace, FlagsOf;
    LinkEffect(s, s.cpus[c].t, Incoming(e.cpu), false);
    PlaceEffect(s, s.cpus[c].t, Lost);
  }

  lemma ArrivalLists(s: State, c: Cpu, e: ListStep, l: Loc)
    requires c in s.cpus && ListEnabled(s, c, s.cpus[c], e) && (e.DrainTake? || e.TakeIncoming?)
    ensures ListLaw(s, Lists(c, e), ListApply(s, c, s.cpus[c], e), l)
  {
    hide Link, Pop, Front;
    MoveEffect(s, c, Incoming(c), Queue(c), e.TakeIncoming? && Thr(s, Front(s, Incoming(c))).flags.startNow);
    FirstIs(s, Incoming(c));
  }

  lemma OwnLists(s: State, c: Cpu, e: ListStep, l: Loc)
    requires c in s.cpus && ListEnabled(s, c, s.cpus[c], e)
    requires !e.DrainOffer? && !e.BalanceOffer? && !e.DrainTake? && !e.TakeIncoming?
    ensures ListLaw(s, Lists(c, e), ListApply(s, c, s.cpus[c], e), l)
  {
    hide Link, Pop, Front, FlagsOf;
    var pc := s.cpus[c];
    match e
    case WaitLink => LinkEffect(s, pc.t, Waiting(pc.m), false);
    case DrainPop => PopEffect(s, c, Queue(c));
    case BalancePop => PopEffect(s, c, Queue(c));
    case BalanceKeep => LinkEffect(s, pc.t, Queue(c), false);
    case _ =>
  }

  lemma FirstIs(s: State, l: Loc)
    ensures First(s, l) == Front(s, l)
  {
  }

  // ---------------------------------------------------------------- notify wakes the first waiter

  // The waiters that notify has passed were woken by timers already.
  ghost predicate ScanOk(s: State, a: Actor) {
    a in s.actors && s.actors[a].NotifyScan? ==>
      forall j: nat :: j < s.actors[a].i ==> !FlagsOf(s, Scanned(s, s.actors[a].m, j)).blocked
  }

  ghost predicate ScansOk(s: State) { forall a :: ScanOk(s, a) }

  // While notify holds the lock of a waiting list, nobody else changes the list.
  lemma LockedListSame(s: State, e: Step, m: Mutex)
    requires Inv(s) && Enabled(s, e) && m in s.locked && !(e.Calls? && e.a == s.locked[m])
    ensures At(Apply(s, e), Waiting(m)) == At(s, Waiting(m))
  {
    hide Inv, Apply, Without;
    ListSteps(s, e, Waiting(m));
    if e.Calls? && e.call.NotifyRemove? {
      ActorHolds(s, e.a);
    }
  }

  // What a call is about after a step.
  lemma ActorAfter(s: State, e: Step, a: Actor)
    requires Enabled(s, e) && !(e.Starts? && e.a == a) && !(e.Calls? && e.a == a)
    ensures a in Apply(s, e).actors <==> a in s.actors
    ensures a in s.actors ==> Apply(s, e).actors[a] == s.actors[a]
  {
    hide Link, Unlink, Pop, SetPlace, SetFlags, Unblock, At, Front, FlagsOf, CodeApply, ListApply, PickApply, ListEnabled, PickEnabled, CallApply;
    match e
    case Life(t, k) => UnlinkEffect(s, t, DeadList, Freed); FlagsEffect(s, t, Thr(s, t).flags.(detached := true));
    case Code(c, k) => CodeActors(s, c, k);
    case Lists(c, k) => ListActors(s, c, k);
    case Picks(c, k) => PickActors(s, c, k);
    case Starts(b, k) => if k.TimerClear? { UnblockEffect(s, k.t, b); }
    case Calls(b, k) => CallActors(s, b, k, a);
  }

  lemma CodeActors(s: State, c: Cpu, e: CodeStep)
    requires c in s.cpus && s.cpus[c].Running?
    ensures CodeApply(s, c, s.cpus[c].t, e).actors == s.actors
  {
    hide Without, At;
  }

  lemma ListActors(s: State, c: Cpu, e: ListStep)
    requires c in s.cpus && ListEnabled(s, c, s.cpus[c], e)
    ensures ListApply(s, c, s.cpus[c], e).actors == s.actors
  {
    hide Link, Pop, SetPlace, At, Front, FlagsOf;
    var pc := s.cpus[c];
    match e
    case WaitLink => LinkEffect(s, pc.t, Waiting(pc.m), false);
    case DrainTake => MoveEffect(s, c, Incoming(c), Queue(c), false);
    case DrainPop => PopEffect(s, c, Queue(c));
    case DrainOffer(cpu, _) => LinkEffect(s, pc.t, Incoming(cpu), false);
    case BalancePop => PopEffect(s, c, Queue(c));
    case BalanceOffer(cpu, _, _) => LinkEffect(s, pc.t, Incoming(cpu), false); PlaceEffect(s, pc.t, Lost);
    case BalanceKeep => LinkEffect(s, pc.t, Queue(c), false);
    case TakeIncoming => MoveEffect(s, c, Incoming(c), Queue(c), Thr(s, Front(s, Incoming(c))).flags.startNow);
    case _ =>
  }

  lemma PickActors(s: State, c: Cpu, e: PickStep)
    requires c in s.cpus && PickEnabled(s, c, s.cpus[c], e)
    ensures PickApply(s, c, s.cpus[c], e).actors == s.actors
  {
    hide Link, Pop, SetPlace, SetFlags, At, FlagsOf, Suspendable;
    var pc := s.cpus[c];
    match e
    case Pick => PopEffect(s, c, Queue(c));
    case SwitchTo(_) => LinkEffect(s, pc.t, Queue(c), false);
    case KillMark => FlagsEffect(s, pc.t, Thr(s, pc.t).flags.(exited := true));
    case KillClear => FlagsEffect(s, pc.t, Thr(s, pc.t).flags.(running := false, exiting := false));
    case KillAppend => LinkEffect(s, pc.t, DeadList, false);
    case SuspendDone =>
      FlagsEffect(s, pc.t, MarkSuspended(pc.flags));
      PlaceEffect(SetFlags(s, pc.t, MarkSuspended(pc.flags)), pc.t, Parked);
    case _ =>
  }

  lemma CallActors(s: State, b: Actor, e: CallStep, a: Actor)
    requires b in s.actors && CallEnabled(s, s.actors[b], e) && a != b
    ensures var n := CallApply(s, b, s.actors[b], e);
      (a in n.actors <==> a in s.actors) && (a in s.actors ==> n.actors[a] == s.actors[a])
  {
    hide Link, Unlink, SetPlace, SetFlags, Unblock, At, FlagsOf, Marked, Allowed;
    var pc := s.actors[b];
    match e
    case CasWins =>
      FlagsEffect(s, pc.t, Marked(pc.cur, pc.op));
      PlaceEffect(SetFlags(s, pc.t, Marked(pc.cur, pc.op)), pc.t, Held(ByResume(b)));
    case ResumeHandOff(cpu) => LinkEffect(s, pc.t, Incoming(cpu), false);
    case TimerRemove => UnlinkEffect(s, pc.t, Waiting(pc.m), Held(ByWaker(b)));
    case NotifyClear => UnblockEffect(s, At(s, Waiting(pc.m))[pc.i], b);
    case NotifyRemove => UnlinkEffect(s, pc.t, Waiting(pc.m), Held(ByWaker(b)));
    case WakerHandOff(cpu) =>
      var th := Thr(s, pc.t);
      LinkEffect(SetThread(s, pc.t, th.(ended := th.ended + 1)), pc.t, Incoming(cpu), false);
    case _ =>
  }

  // Notify starts at the head of the list, and goes on by one waiter when it finds one already woken.
  lemma ScanMoves(s: State, e: Step, a: Actor)
    requires Enabled(s, e) && ((e.Starts? && e.a == a) || (e.Calls? && e.a == a))
    ensures e.Calls? ==> a in s.actors
    ensures var n := Apply(s, e);
      a in n.actors && n.actors[a].NotifyScan? ==>
        && (e.Starts? ==> n.actors[a].i == 0)
        && (e.Calls? ==> e.call.NotifyClear? && s.actors[a].NotifyScan? && n.actors[a] == NotifyScan(s.actors[a].m, s.actors[a].i + 1)
                         && s.actors[a].i < |At(s, Waiting(s.actors[a].m))| && n.lists == s.lists
                         && !FlagsOf(s, Scanned(s, s.actors[a].m, s.actors[a].i)).blocked)
  {
    hide Link, Unlink, SetPlace, SetFlags, Unblock, At, Marked, Allowed;
  }

  lemma ScanStep(s: State, e: Step, a: Actor)
    requires Inv(s) && Enabled(s, e) && ScansOk(s)
    ensures ScanOk(Apply(s, e), a)
  {
    hide Inv, Enabled, Apply;
    var n := Apply(s, e);
    if a in n.actors && n.actors[a].NotifyScan? {
      if (e.Starts? && e.a == a) || (e.Calls? && e.a == a) {
        ScanMoves(s, e, a);
        assert ScanOk(s, a);
        if e.Calls? {
          var m, i := s.actors[a].m, s.actors[a].i;
          assert forall j: nat :: j < i ==> !FlagsOf(s, Scanned(s, m, j)).blocked;
          forall j: nat | j < n.actors[a].i ensures !FlagsOf(n, Scanned(n, n.actors[a].m, j)).blocked {
            ScannedStaysWoken(s, e, n.actors[a].m, j);
          }
        }
      } else {
        ActorAfter(s, e, a);
        assert ScanOk(s, a);
        ActorHolds(s, a);
        LockedListSame(s, e, n.actors[a].m);
        forall j: nat | j < n.actors[a].i ensures !FlagsOf(n, Scanned(n, n.actors[a].m, j)).blocked {
          ScannedStaysWoken(s, e, n.actors[a].m, j);
        }
      }
    }
  }

  // A waiter that has been woken stays so while it is on the list: only a running thread blocks.
  lemma ScannedStaysWoken(s: State, e: Step, m: Mutex, j: nat)
    requires Inv(s) && Enabled(s, e) && j < |At(s, Waiting(m))| && At(Apply(s, e), Waiting(m)) == At(s, Waiting(m))
    requires !FlagsOf(s, Scanned(s, m, j)).blocked
    ensures !FlagsOf(Apply(s, e), Scanned(Apply(s, e), m, j)).blocked
  {
    hide Enabled, Apply, ActorsOk, WaitersOk, NoDup;
    var t := At(s, Waiting(m))[j];
    assert t in At(s, Waiting(m));
    assert IsOn(s, t, Waiting(m));
    FlagSteps(s, e, t);
    if e.Code? && e.c in s.cpus {
      assert CpuOk(s, e.c, s.cpus[e.c]);
    }
  }

  // In every run notify wakes the first waiter that no timer has woken.
  lemma {:induction false} ScansRun(s: State, steps: seq<Step>, n: State)
    requires Inv(s) && ScansOk(s) && Run(s, steps, n)
    ensures Inv(n) && ScansOk(n)
    decreases |steps|
  {
    hide Inv, Enabled, Apply, Quiet, ScanOk;
    if steps != [] {
      forall a ensures ScanOk(Apply(s, steps[0]), a) {
        ScanStep(s, steps[0], a);
      }
      StepKeeps(s, steps[0]);
      ScansRun(Apply(s, steps[0]), steps[1..], n);
    }
  }

  lemma NotifiesFirst(s: State, a: Actor)
    requires Inv(s) && ScansOk(s) && Enabled(s, Calls(a, NotifyClear))
    ensures var m, i, n := s.actors[a].m, s.actors[a].i, Apply(s, Calls(a, NotifyClear));
      && (forall j: nat :: j < i ==> !FlagsOf(s, Scanned(s, m, j)).blocked)
      && a in n.actors
      && n.actors[a] == (if FlagsOf(s, Scanned(s, m, i)).blocked then NotifyWon(Scanned(s, m, i), m) else NotifyScan(m, i + 1))
  {
    hide Inv, At, Unblock;
    assert ScanOk(s, a);
  }

  // ---------------------------------------------------------------- nothing is stuck

  // A step that CPU c can make, whatever it is doing; other is a CPU that takes over its threads.
  function Onward(s: State, c: Cpu, other: Cpu): Step
    requires c in s.cpus
  {
    match s.cpus[c]
    case Running(_) => Code(c, Interrupt)
    case Entry => Lists(c, StartIncoming)
    case DrainConcat => Lists(c, if At(s, Incoming(c)) == [] then DrainStart else DrainTake)
    case DrainLoop => Lists(c, if At(s, Queue(c)) == [] then DrainEnd else DrainPop)
    case DrainTry(_) => Lists(c, DrainOffer(other, true))
    case BalanceLoop => Lists(c, if At(s, Queue(c)) == [] then BalanceEnd else BalancePop)
    case BalanceTry(_) => Lists(c, BalanceOffer(other, true, true))
    case IncomingLoop => Lists(c, if At(s, Incoming(c)) == [] then IncomingEnd else TakeIncoming)
    case PickLoop => Picks(c, if At(s, Queue(c)) == [] then PickIdle else Pick)
    case Picked(_, f) =>
      Picks(c, if MustDie(f, false) then KillBegin(false) else if MustStop(f) then SuspendBegin(false) else SwitchTo(false))
    case Suspend(t, f) => Picks(c, if Thr(s, t).flags == f then SuspendDone else SuspendRetry)
    case Dying(_, stage) => Picks(c, if stage == 0 then KillMark else if stage == 1 then KillClear else KillAppend)
    case Blocking(_, _) => Lists(c, WaitLink)
    case _ => Lists(c, WakeIdle)
  }

  // Every CPU that is not switched off can go on, except that mutex_wait waits for the lock of the list.
  lemma CpuGoesOn(s: State, c: Cpu, other: Cpu)
    requires Inv(s) && c in s.cpus && !s.cpus[c].Off? && c != other && (s.cpus[c].Blocking? ==> s.cpus[c].m !in s.locked)
    ensures Enabled(s, Onward(s, c, other))
  {
    hide Inv, At, Thr, CpuOk, Suspendable, MustStop;
    PcHolds(s, c);
  }

  lemma PcHolds(s: State, c: Cpu)
    requires Inv(s) && c in s.cpus
    ensures s.cpus[c].Suspend? ==> Suspendable(s.cpus[c].flags)
    ensures s.cpus[c].Dying? ==> s.cpus[c].stage <= 2
    ensures s.cpus[c].Picked? ==> (Suspendable(s.cpus[c].flags) <==> MustStop(s.cpus[c].flags))
  {
    hide Inv;
    CpuHolds(s, c);
  }

  // Load measurement, stopping and failed offers are open to it as well.
  lemma CpuChoices(s: State, c: Cpu, other: Cpu, space: bool)
    requires c in s.cpus && c != other
    ensures s.cpus[c].Entry? ==> Enabled(s, Lists(c, StartBalance)) && Enabled(s, Lists(c, StopCpu))
    ensures s.cpus[c].BalanceLoop? ==> Enabled(s, Lists(c, BalanceEnd))
    ensures s.cpus[c].BalanceTry? ==> Enabled(s, Lists(c, BalanceKeep)) && Enabled(s, Lists(c, BalanceOffer(other, true, space)))
    ensures !Enabled(s, Lists(c, BalanceOffer(c, true, space))) && !Enabled(s, Lists(c, DrainOffer(c, true)))
  {
    hide At;
  }

  // Every call can go on, except that a timer waits for the lock of the list.
  lemma CallGoesOn(s: State, a: Actor, cpu: Cpu)
    requires a in s.actors && (s.actors[a].TimerWon? ==> s.actors[a].m !in s.locked)
    ensures exists k :: Enabled(s, Calls(a, k))
  {
    hide At, Thr;
    var pc := s.actors[a];
    var k := match pc
      case Loaded(t, cur, op) => if !Allowed(cur, op) then GiveUp else if Thr(s, t).flags == cur then CasWins else CasFails
      case Resumed(_) => ResumeHandOff(cpu)
      case TimerWon(_, _) => TimerRemove
      case NotifyScan(m, i) => if i < |At(s, Waiting(m))| then NotifyClear else NotifyEnd
      case NotifyWon(_, _) => NotifyRemove
      case Woken(_) => WakerHandOff(cpu);
    assert Enabled(s, Calls(a, k));
  }

  // A resume succeeds exactly on a thread that is not RUNNING, EXITING or EXITED, a request to stop
  // exactly on a RUNNING one, and a user's request never on a kernel thread.
  lemma RequestsAllowed(s: State, a: Actor, t: Tid, f: Flags, now: bool, kernel: bool)
    requires t in s.threads
    ensures Allowed(f, Resume(now)) <==> !f.running && !f.exiting && !f.exited
    ensures Allowed(f, SuspendOther(kernel)) <==> f.running
    ensures StartEnabled(s, Load(t, Resume(now)))
    ensures StartEnabled(s, Load(t, SuspendOther(kernel))) <==> kernel || !FlagsOf(s, t).kernel
    ensures StartApply(s, a, Load(t, Resume(now))).actors == s.actors[a := Loaded(t, FlagsOf(s, t), Resume(now))]
  {
  }

  // A new thread is not running, has no requests pending, and starts in the kernel exactly if it is a
  // kernel thread.
  lemma BornIdle(s: State, t: Tid, kernel: bool)
    requires Enabled(s, Life(t, NewThread(kernel)))
    ensures var f := FlagsOf(Apply(s, Life(t, NewThread(kernel))), t);
      && !f.running && !f.exiting && !f.exited && !f.suspending && !f.ksuspend && !f.startNow && !f.blocked && !f.detached
      && f.kernel == kernel && f.privileged == kernel
  {
  }

  // A thread is reaped only if it is dead and detached.
  lemma ReapsOnlyIf(s: State, t: Tid)
    ensures Enabled(s, Life(t, Reap)) <==> t in At(s, DeadList) && FlagsOf(s, t).detached
    ensures Enabled(s, Life(t, Detach)) <==> t in s.threads
  {
  }
}
