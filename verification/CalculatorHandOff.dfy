/** One call of the calculator service: the caller sets up a heap structure, starts a detached worker on it, waits
    on a condition variable until it is done, and frees the structure. Every system call that sets something
    up may be refused. */
module CalculatorHandOff {
  import opened Common

  const ADD: int := 0
  const SUB: int := 1
  const MUL: int := 2
  const DIV: int := 3

  datatype WorkerPc =
    | NotStarted
    | Compute    // 21-41
    | WLock      // 43
    | SetDone    // 44
    | Signal     // 45
    | WUnlock    // 46
    | Returned   // 48

  datatype CallerPc =
    | Malloc       // 57-68
    | InitMutex    // 70
    | InitCond     // 76
    | InitAttr     // 83-84
    | CreateThread // 86
    | DestroyAttr  // 94
    | CLock        // 96
    | TestDone     // 97
    | WaitCond     // 98: release the mutex and fall asleep, in one step
    | Sleeping
    | Woken        // wants the mutex back, still inside pthread_cond_wait
    | CUnlock      // 100
    | ReadResult   // 102
    | DestroyMutex // 104
    | DestroyCond  // 105
    | FreeData     // 106
    | UndoMutex(condToo: bool) // 77, or 87 with the condition variable to follow
    | UndoCond     // 88
    | UndoData     // 71, 78 or 89
    | ReplyZero    // 59, 72, 79 or 90
    | Finished     // 60, 73, 80, 91 or 109

  datatype Thread = Worker | Caller

  /** What a set-up call may refuse. */
  datatype Resource = Memory | Mutex | Cond | Attr | NewThread

  datatype Args = Args(op: int, arg1: real, arg2: real)

  /** The heap structure, with the state of its mutex and condition variable. */
  datatype Data = Data(args: Args, result: real, isDone: bool, holder: Option<Thread>,
                       mutexLive: bool, condLive: bool, dataLive: bool)

  /** `reply` is the static variable whose address the service returns, `attrLive` says whether the caller's
      attribute object is initialised, and `refused` is the history of refusals. */
  datatype State = State(args: Args, data: Data, attrLive: bool, worker: WorkerPc, caller: CallerPc, reply: real,
                         refused: set<Resource>)

  datatype Action = WorkerStep | CallerStep | Refuse | SpuriousWakeup

  /** The operation, over the reals; a division by zero and an unknown operation give 0. */
  function Calc(args: Args): real {
    if args.op == ADD then args.arg1 + args.arg2
    else if args.op == SUB then args.arg1 - args.arg2
    else if args.op == MUL then args.arg1 * args.arg2
    else if args.op == DIV then (if args.arg2 != 0.0 then args.arg1 / args.arg2 else 0.0)
    else 0.0
  }

  /** At the start of calculate_1_svc; the static reply still holds the result of the call before. */
  function Init(args: Args, lastReply: real): State {
    State(args, Data(Args(0, 0.0, 0.0), 0.0, false, None, false, false, false), false, NotStarted, Malloc, lastReply,
          {})
  }

  predicate Acquires(pc: CallerPc) {
    pc.Malloc? || pc.InitMutex? || pc.InitCond? || pc.InitAttr? || pc.CreateThread?
  }

  predicate Enabled(s: State, act: Action) {
    match act
    case WorkerStep => !s.worker.NotStarted? && !s.worker.Returned? && (s.worker.WLock? ==> s.data.holder == None)
    case CallerStep =>
      && !s.caller.Finished? && !s.caller.Sleeping?
      && (s.caller.CLock? || s.caller.Woken? ==> s.data.holder == None)
    case Refuse => Acquires(s.caller)
    case SpuriousWakeup => s.caller.Sleeping?
  }

  function StepWorker(s: State): State {
    var d := s.data;
    match s.worker
    case NotStarted => s
    case Compute => s.(worker := WLock, data := d.(result := Calc(d.args)))
    case WLock => s.(worker := SetDone, data := d.(holder := Some(Worker)))
    case SetDone => s.(worker := Signal, data := d.(isDone := true))
    case Signal => s.(worker := WUnlock, caller := if s.caller.Sleeping? then Woken else s.caller)
    case WUnlock => s.(worker := Returned, data := d.(holder := None))
    case Returned => s
  }

  function StepCaller(s: State): State {
    var d := s.data;
    match s.caller
    case Malloc => s.(caller := InitMutex, data := Data(s.args, 0.0, false, None, false, false, true))
    case InitMutex => s.(caller := InitCond, data := d.(mutexLive := true))
    case InitCond => s.(caller := InitAttr, data := d.(condLive := true))
    case InitAttr => s.(caller := CreateThread, attrLive := true)
    case CreateThread => s.(caller := DestroyAttr, worker := Compute)
    case DestroyAttr => s.(caller := CLock, attrLive := false)
    case CLock => s.(caller := TestDone, data := d.(holder := Some(Caller)))
    case TestDone => s.(caller := if d.isDone then CUnlock else WaitCond)
    case WaitCond => s.(caller := Sleeping, data := d.(holder := None))
    case Sleeping => s
    case Woken => s.(caller := TestDone, data := d.(holder := Some(Caller)))
    case CUnlock => s.(caller := ReadResult, data := d.(holder := None))
    case ReadResult => s.(caller := DestroyMutex, reply := d.result)
    case DestroyMutex => s.(caller := DestroyCond, data := d.(mutexLive := false))
    case DestroyCond => s.(caller := FreeData, data := d.(condLive := false))
    case FreeData => s.(caller := Finished, data := d.(dataLive := false))
    case UndoMutex(condToo) => s.(caller := if condToo then UndoCond else UndoData, data := d.(mutexLive := false))
    case UndoCond => s.(caller := UndoData, data := d.(condLive := false))
    case UndoData => s.(caller := ReplyZero, data := d.(dataLive := false))
    case ReplyZero => s.(caller := Finished, reply := 0.0)
    case Finished => s
  }

  /** A set-up call that is refused: the code cleans up, but for pthread_attr_init, whose result it ignores. */
  function RefuseCaller(s: State): State {
    match s.caller
    case Malloc => s.(caller := ReplyZero, refused := s.refused + {Memory})
    case InitMutex => s.(caller := UndoData, refused := s.refused + {Mutex})
    case InitCond => s.(caller := UndoMutex(false), refused := s.refused + {Cond})
    case InitAttr => s.(caller := CreateThread, refused := s.refused + {Attr})
    case CreateThread => s.(caller := UndoMutex(true), refused := s.refused + {NewThread})
    case _ => s
  }

  function Apply(s: State, act: Action): State {
    if !Enabled(s, act) then s
    else match act
      case WorkerStep => StepWorker(s)
      case CallerStep => StepCaller(s)
      case Refuse => RefuseCaller(s)
      case SpuriousWakeup => s.(caller := Woken)
  }

  function Run(s: State, actions: seq<Action>): State
    decreases |actions|
  {
    if actions == [] then s else Run(Apply(s, actions[0]), actions[1..])
  }

  // ---------- The invariant ----------

  predicate CallerHolds(pc: CallerPc) { pc.TestDone? || pc.WaitCond? || pc.CUnlock? }
  predicate WorkerHolds(pc: WorkerPc) { pc.SetDone? || pc.Signal? || pc.WUnlock? }

  predicate Undoes(pc: CallerPc) { pc.UndoMutex? || pc.UndoCond? || pc.UndoData? || pc.ReplyZero? }

  /** The caller waits for the worker. */
  predicate InLoop(pc: CallerPc) {
    pc.CLock? || pc.TestDone? || pc.WaitCond? || pc.Sleeping? || pc.Woken?
  }

  /** The caller has left its waiting loop. */
  predicate PastLoop(pc: CallerPc) {
    pc.CUnlock? || pc.ReadResult? || pc.DestroyMutex? || pc.DestroyCond? || pc.FreeData?
  }

  /** A refusal after which the code gives up. */
  predicate GivesUp(s: State) {
    Memory in s.refused || Mutex in s.refused || Cond in s.refused || NewThread in s.refused
  }

  /** The call is over and has been carried out. */
  predicate Done(s: State) { s.caller.Finished? && !GivesUp(s) }

  ghost predicate HandOffInv(s: State) {
    var d := s.data;
    && (d.holder == Some(Caller) <==> CallerHolds(s.caller))
    && (d.holder == Some(Worker) <==> WorkerHolds(s.worker))
    && (!s.worker.NotStarted? ==> d.args == s.args)
    && (!s.worker.NotStarted? && !s.worker.Compute? ==> d.result == Calc(s.args))
    && (d.isDone <==> s.worker.Signal? || s.worker.WUnlock? || s.worker.Returned?)
    && (PastLoop(s.caller) || Done(s) ==> d.isDone && s.worker.Returned?)
    && (s.caller.WaitCond? ==> !d.isDone)
    && (s.caller.Sleeping? && d.isDone ==> s.worker.Signal?)
    && (s.caller.DestroyMutex? || s.caller.DestroyCond? || s.caller.FreeData? || Done(s) ==> s.reply == d.result)
  }

  /** Who has refused what, and where that leads. */
  ghost predicate SetUpInv(s: State) {
    && (Acquires(s.caller) ==> !GivesUp(s) && (!s.caller.CreateThread? ==> s.refused == {}))
    && (Undoes(s.caller) ==> GivesUp(s))
    && (s.caller.DestroyAttr? || InLoop(s.caller) || PastLoop(s.caller) ==> !GivesUp(s))
    && (s.worker.NotStarted? <==> Acquires(s.caller) || GivesUp(s))
    && (s.caller.InitMutex? || s.caller.InitCond? || s.caller.InitAttr? || s.caller.CreateThread? ==>
          s.data.args == s.args)
    && (s.caller.UndoMutex? ==> (s.caller.condToo <==> NewThread in s.refused))
    && (s.caller.UndoCond? ==> NewThread in s.refused)
    && (s.caller.Finished? && GivesUp(s) ==> s.reply == 0.0)
  }

  /** What is alive, place by place. */
  ghost predicate LiveInv(s: State) {
    var d, c := s.data, s.caller;
    && (d.dataLive <==> !(c.Malloc? || c.ReplyZero? || c.Finished?))
    && (d.mutexLive <==> d.dataLive && !(c.InitMutex? || c.DestroyCond? || c.FreeData? || c.UndoCond? || c.UndoData?))
    && (d.condLive <==> d.dataLive && !(c.InitMutex? || c.InitCond? || c.FreeData? || c.UndoData?
                                       || c == UndoMutex(false)))
    && (s.attrLive <==> Attr !in s.refused && (c.CreateThread? || c.DestroyAttr? || NewThread in s.refused))
  }

  ghost predicate Inv(s: State) {
    HandOffInv(s) && SetUpInv(s) && LiveInv(s)
  }

  lemma InitInv(args: Args, lastReply: real)
    ensures Inv(Init(args, lastReply))
  {
  }

  lemma WorkerKeepsInv(s: State)
    requires Inv(s) && Enabled(s, WorkerStep)
    ensures Inv(StepWorker(s))
  {
  }

  lemma CallerKeepsHandOff(s: State)
    requires Inv(s) && Enabled(s, CallerStep)
    ensures HandOffInv(StepCaller(s))
  {
  }

  lemma CallerKeepsSetUp(s: State)
    requires SetUpInv(s)
    ensures SetUpInv(StepCaller(s))
  {
  }

  lemma CallerKeepsLive(s: State)
    requires SetUpInv(s) && LiveInv(s)
    ensures LiveInv(StepCaller(s))
  {
  }

  lemma RefusalKeepsInv(s: State)
    requires Inv(s)
    ensures Inv(RefuseCaller(s))
  {
  }

  lemma ApplyKeepsInv(s: State, act: Action)
    requires Inv(s)
    ensures Inv(Apply(s, act)) && Apply(s, act).args == s.args
  {
    if Enabled(s, act) {
      match act
      case WorkerStep => WorkerKeepsInv(s);
      case CallerStep =>
        CallerKeepsHandOff(s);
        CallerKeepsSetUp(s);
        CallerKeepsLive(s);
      case Refuse => RefusalKeepsInv(s);
      case SpuriousWakeup =>
    }
  }

  lemma {:induction false} RunKeepsInv(s: State, actions: seq<Action>)
    requires Inv(s)
    ensures Inv(Run(s, actions)) && Run(s, actions).args == s.args
    decreases |actions|
  {
    if actions == [] {
    } else {
      ApplyKeepsInv(s, actions[0]);
      RunKeepsInv(Apply(s, actions[0]), actions[1..]);
    }
  }

  lemma InvAlways(args: Args, lastReply: real, actions: seq<Action>)
    ensures Inv(Run(Init(args, lastReply), actions)) && Run(Init(args, lastReply), actions).args == args
  {
    InitInv(args, lastReply);
    RunKeepsInv(Init(args, lastReply), actions);
  }

  lemma NoneOrOne(holder: Option<Thread>)
    ensures holder == None || holder == Some(Worker) || holder == Some(Caller)
  {
    match holder
    case None =>
    case Some(who) => assert who == Worker || who == Caller;
  }

  lemma MutexIsFree(s: State)
    requires Inv(s) && !CallerHolds(s.caller) && !WorkerHolds(s.worker)
    ensures s.data.holder == None
  {
    NoneOrOne(s.data.holder);
  }

  // ---------- What every interleaving does ----------

  /** The caller leaves its loop only when the result is there, and replies with the result of the operation;
      where it had to give up it replies 0. */
  lemma ReplyIsResult(args: Args, lastReply: real, actions: seq<Action>)
    ensures var s := Run(Init(args, lastReply), actions);
            && (PastLoop(s.caller) ==> s.data.isDone && s.data.result == Calc(args))
            && (s.caller.Finished? ==> s.reply == if GivesUp(s) then 0.0 else Calc(args))
  {
    InvAlways(args, lastReply, actions);
  }

  /** What the result is, by the operation codes 0 to 3 of the interface: sum, difference, product and
      quotient; a division by 0 and any other code give 0. */
  lemma ReplyMeaning(args: Args, lastReply: real, actions: seq<Action>)
    requires var s := Run(Init(args, lastReply), actions);
      s.caller.Finished? && !GivesUp(s)
    ensures var reply := Run(Init(args, lastReply), actions).reply;
            && (args.op == 0 ==> reply == args.arg1 + args.arg2)
            && (args.op == 1 ==> reply + args.arg2 == args.arg1)
            && (args.op == 2 ==> reply == args.arg1 * args.arg2)
            && (args.op == 3 && args.arg2 != 0.0 ==> reply * args.arg2 == args.arg1)
            && (args.op == 3 && args.arg2 == 0.0 ==> reply == 0.0)
            && (args.op < 0 || args.op > 3 ==> reply == 0.0)
  {
    ReplyIsResult(args, lastReply, actions);
  }

  /** A spurious wakeup does no more than have the caller test the flag again: nothing being done yet, it
      takes the mutex, finds that, and sleeps as before. */
  lemma WakeupRetests(s: State)
    requires s.caller.Sleeping? && !s.data.isDone && s.data.holder == None
    ensures Run(s, [SpuriousWakeup]).caller.Woken?
    ensures Run(s, [SpuriousWakeup, CallerStep]).caller.TestDone?
    ensures Run(s, [SpuriousWakeup, CallerStep, CallerStep, CallerStep]) == s
  {
    var s1 := Apply(s, SpuriousWakeup);
    var s2 := Apply(s1, CallerStep);
    var actions := [SpuriousWakeup, CallerStep, CallerStep, CallerStep];
    RunFour(s, actions, Apply(Apply(s2, CallerStep), CallerStep));
    assert [SpuriousWakeup][1..] == [];
    assert [SpuriousWakeup, CallerStep][1..] == [CallerStep] && [CallerStep][1..] == [];
    assert Run(s1, [CallerStep]) == Run(s2, []);
  }

  /** The structure is only given back when nobody will touch it again: before its mutex is destroyed the
      worker has returned or was never started, and whoever has a step to take finds what it uses, or gives
      back, alive. */
  lemma NoUseAfterFree(args: Args, lastReply: real, actions: seq<Action>)
    ensures var s := Run(Init(args, lastReply), actions);
            var c := s.caller;
            && (!s.worker.Returned? && !s.worker.NotStarted? ==>
                  s.data.dataLive && s.data.mutexLive && s.data.condLive)
            && (!c.Malloc? && !c.ReplyZero? && !c.Finished? ==> s.data.dataLive)
            && (InLoop(c) || c.CUnlock? ==> s.data.mutexLive && s.data.condLive)
            && (c.DestroyMutex? || c.UndoMutex? ==> s.data.mutexLive && s.data.holder == None)
            && (c.DestroyCond? || c.UndoCond? ==> s.data.condLive)
  {
    InvAlways(args, lastReply, actions);
    var s := Run(Init(args, lastReply), actions);
    if s.caller.DestroyMutex? || s.caller.UndoMutex? { MutexIsFree(s); }
  }

  /** Whichever call is refused, what was acquired until then is given back and nothing else; with one
      exception: the attribute object is still alive at the end exactly when it was initialised and the
      thread was refused. */
  lemma LeftAliveIff(args: Args, lastReply: real, actions: seq<Action>)
    requires Run(Init(args, lastReply), actions).caller.Finished?
    ensures var s := Run(Init(args, lastReply), actions);
            && !s.data.dataLive && !s.data.mutexLive && !s.data.condLive
            && (s.attrLive <==> NewThread in s.refused && Attr !in s.refused)
            && (GivesUp(s) <==> s.worker.NotStarted?)
  {
    InvAlways(args, lastReply, actions);
  }

  /** The result of pthread_attr_init is ignored: pthread_create and pthread_attr_destroy find the attribute
      object initialised exactly when that call was not refused. */
  lemma AttrIsReadyIff(args: Args, lastReply: real, actions: seq<Action>)
    ensures var s := Run(Init(args, lastReply), actions);
            s.caller.CreateThread? || s.caller.DestroyAttr? ==> (s.attrLive <==> Attr !in s.refused)
  {
    InvAlways(args, lastReply, actions);
  }

  /** Both happen: the thread is refused and the attribute object is left behind; or the attribute object
      is refused and pthread_create comes next all the same. */
  lemma AttrGoesWrong(args: Args, lastReply: real) returns (left: seq<Action>, missing: seq<Action>)
    ensures Run(Init(args, lastReply), left).caller.Finished? && Run(Init(args, lastReply), left).attrLive
    ensures Run(Init(args, lastReply), missing).caller.CreateThread? && !Run(Init(args, lastReply), missing).attrLive
  {
    var s0 := Init(args, lastReply);
    var s3 := Apply(Apply(Apply(s0, CallerStep), CallerStep), CallerStep);
    var s4, r4 := Apply(s3, CallerStep), Apply(s3, Refuse);
    var s5 := Apply(s4, Refuse);
    var s9 := Apply(Apply(Apply(Apply(s5, CallerStep), CallerStep), CallerStep), CallerStep);
    var back := [CallerStep, CallerStep, CallerStep, CallerStep];
    assert s9.caller.Finished? && s9.attrLive && r4.caller.CreateThread? && !r4.attrLive;
    RunFour(s0, [CallerStep, CallerStep, CallerStep, Refuse], r4);
    RunFour(s0, back, s4);
    RunFour(s5, back, s9);
    missing := [CallerStep, CallerStep, CallerStep, Refuse];
    left := back + ([Refuse] + back);
    RunSplit(s0, back, [Refuse] + back);
    assert ([Refuse] + back)[1..] == back;
  }

  lemma RunFour(s: State, actions: seq<Action>, t: State)
    requires |actions| == 4
    requires t == Apply(Apply(Apply(Apply(s, actions[0]), actions[1]), actions[2]), actions[3])
    ensures Run(s, actions) == t
  {
    assert actions[1..][1..] == actions[2..] && actions[2..][1..] == actions[3..] && actions[3..][1..] == [];
    var s1 := Apply(s, actions[0]);
    var s2 := Apply(s1, actions[1]);
    var s3 := Apply(s2, actions[2]);
    assert Run(s, actions) == Run(s1, actions[1..]) == Run(s2, actions[2..]);
    assert Run(s2, actions[2..]) == Run(s3, actions[3..]) == Run(t, []);
  }

  lemma {:induction false} RunSplit(s: State, xs: seq<Action>, ys: seq<Action>)
    ensures Run(s, xs + ys) == Run(Run(s, xs), ys)
    decreases |xs|
  {
    if xs == [] {
      assert xs + ys == ys;
    } else {
      assert (xs + ys)[1..] == xs[1..] + ys;
      RunSplit(Apply(s, xs[0]), xs[1..], ys);
    }
  }

  /** The signal is not missed: once the worker has returned the caller does not sleep. */
  lemma NoLostWakeup(args: Args, lastReply: real, actions: seq<Action>)
    ensures var s := Run(Init(args, lastReply), actions);
            s.worker.WUnlock? || s.worker.Returned? ==> !s.caller.Sleeping? && !s.caller.WaitCond?
  {
    InvAlways(args, lastReply, actions);
  }

  /** Until the call has returned some thread can take a step, without relying on spurious wakeups. */
  lemma SomebodyCanStep(args: Args, lastReply: real, actions: seq<Action>)
    ensures var s := Run(Init(args, lastReply), actions);
            s.caller.Finished? || Enabled(s, WorkerStep) || Enabled(s, CallerStep)
  {
    InvAlways(args, lastReply, actions);
    var s := Run(Init(args, lastReply), actions);
    if !CallerHolds(s.caller) && !WorkerHolds(s.worker) { MutexIsFree(s); }
  }

  ghost function WorkerLeft(pc: WorkerPc): nat {
    match pc
    case NotStarted => 8
    case Compute => 8
    case WLock => 7
    case SetDone => 6
    case Signal => 5
    case WUnlock => 1
    case Returned => 0
  }

  ghost function CallerLeft(pc: CallerPc): nat {
    match pc
    case Malloc => 15
    case InitMutex => 14
    case InitCond => 13
    case InitAttr => 12
    case CreateThread => 11
    case DestroyAttr => 10
    case CLock => 9
    case Woken => 9
    case TestDone => 8
    case WaitCond => 7
    case Sleeping => 6
    case CUnlock => 5
    case ReadResult => 4
    case DestroyMutex => 3
    case DestroyCond => 2
    case FreeData => 1
    case UndoMutex(_) => 4
    case UndoCond => 3
    case UndoData => 2
    case ReplyZero => 1
    case Finished => 0
  }

  ghost function StepsLeft(s: State): nat { WorkerLeft(s.worker) + CallerLeft(s.caller) }

  /** How many actions of the run are enabled steps, and how many are spurious wakeups that happen. */
  ghost function StepsTaken(s: State, actions: seq<Action>): nat
    decreases |actions|
  {
    if actions == [] then 0
    else One(Enabled(s, actions[0]) && !actions[0].SpuriousWakeup?) + StepsTaken(Apply(s, actions[0]), actions[1..])
  }

  ghost function Wakeups(s: State, actions: seq<Action>): nat
    decreases |actions|
  {
    if actions == [] then 0
    else One(Enabled(s, actions[0]) && actions[0].SpuriousWakeup?) + Wakeups(Apply(s, actions[0]), actions[1..])
  }

  lemma CallerCosts(s: State)
    requires s.caller.CreateThread? ==> s.worker.NotStarted?
    requires !s.caller.Sleeping? && !s.caller.Finished?
    ensures StepsLeft(StepCaller(s)) < StepsLeft(s)
  {
  }

  lemma ActionCosts(s: State, act: Action)
    requires SetUpInv(s)
    ensures StepsLeft(Apply(s, act)) + One(Enabled(s, act) && !act.SpuriousWakeup?)
         <= StepsLeft(s) + 3 * One(Enabled(s, act) && act.SpuriousWakeup?)
  {
    if Enabled(s, act) && act.CallerStep? { CallerCosts(s); }
  }

  /** Every step brings the end nearer, and a spurious wakeup costs at most three steps more. */
  lemma {:induction false} CallIsBounded(s: State, actions: seq<Action>)
    requires Inv(s)
    ensures StepsTaken(s, actions) + StepsLeft(Run(s, actions)) <= StepsLeft(s) + 3 * Wakeups(s, actions)
    decreases |actions|
  {
    if actions == [] {
    } else {
      var t := Apply(s, actions[0]);
      ActionCosts(s, actions[0]);
      ApplyKeepsInv(s, actions[0]);
      CallIsBounded(t, actions[1..]);
    }
  }

  lemma CallEnds(args: Args, lastReply: real, actions: seq<Action>)
    ensures var s := Init(args, lastReply);
            var t := Run(s, actions);
            && StepsTaken(s, actions) <= 23 + 3 * Wakeups(s, actions)
            && (!Enabled(t, WorkerStep) && !Enabled(t, CallerStep) ==>
                  t.caller.Finished? && t.reply == if GivesUp(t) then 0.0 else Calc(args))
  {
    InitInv(args, lastReply);
    CallIsBounded(Init(args, lastReply), actions);
    SomebodyCanStep(args, lastReply, actions);
    ReplyIsResult(args, lastReply, actions);
  }

  // ---------- In place ----------

  class Call {
    const args: Args
    var op: int
    var arg1: real
    var arg2: real
    var result: real
    var isDone: bool
    var holder: Option<Thread>
    var mutexLive: bool
    var condLive: bool
    var dataLive: bool
    var attrLive: bool
    var worker: WorkerPc
    var caller: CallerPc
    var reply: real
    ghost var refused: set<Resource>

    ghost function Abs(): State
      reads this
    {
      State(args, Data(Args(op, arg1, arg2), result, isDone, holder, mutexLive, condLive, dataLive), attrLive,
            worker, caller, reply, refused)
    }

    constructor (args: Args, lastReply: real)
      ensures Abs() == Init(args, lastReply) && Inv(Abs())
    {
      this.args := args;
      op, arg1, arg2, result, isDone, holder := 0, 0.0, 0.0, 0.0, false, None;
      mutexLive, condLive, dataLive, attrLive := false, false, false, false;
      worker, caller, reply, refused := NotStarted, Malloc, lastReply, {};
    }

    /** One step of calculate_thread. */
    method StepThread()
      requires Inv(Abs()) && Enabled(Abs(), WorkerStep)
      modifies this
      ensures Inv(Abs()) && Abs() == Apply(old(Abs()), WorkerStep)
    {
      ApplyKeepsInv(Abs(), WorkerStep);
      match worker {
        case Compute =>
          match op {
            case 0 => result := arg1 + arg2;
            case 1 => result := arg1 - arg2;
            case 2 => result := arg1 * arg2;
            case 3 =>
              if arg2 != 0.0 { result := arg1 / arg2; } else { result := 0.0; }
            case _ => result := 0.0;
          }
          worker := WLock;
        case WLock => holder, worker := Some(Worker), SetDone;
        case SetDone => isDone, worker := true, Signal;
        case Signal =>
          if caller.Sleeping? { caller := Woken; }
          worker := WUnlock;
        case WUnlock => holder, worker := None, Returned;
      }
    }

    /** malloc, and on success the initial values. */
    method Allocate(granted: bool)
      requires caller.Malloc?
      modifies this
      ensures Abs() == Apply(old(Abs()), if granted then CallerStep else Refuse)
    {
      if granted {
        op, arg1, arg2, result, isDone := args.op, args.arg1, args.arg2, 0.0, false;
        holder, mutexLive, condLive, dataLive, caller := None, false, false, true, InitMutex;
      } else {
        caller, refused := ReplyZero, refused + {Memory};
      }
    }

    /** One set-up call of calculate_1_svc; `granted` is what the system answers. */
    method SetUp(granted: bool)
      requires Inv(Abs()) && Acquires(caller)
      modifies this
      ensures Inv(Abs()) && Abs() == Apply(old(Abs()), if granted then CallerStep else Refuse)
    {
      ApplyKeepsInv(Abs(), if granted then CallerStep else Refuse);
      if caller.Malloc? {
        Allocate(granted);
      } else {
        Initialise(granted);
      }
    }

    /** The set-up calls after malloc. */
    method Initialise(granted: bool)
      requires Acquires(caller) && !caller.Malloc?
      modifies this
      ensures Abs() == Apply(old(Abs()), if granted then CallerStep else Refuse)
    {
      match caller {
        case InitMutex =>
          if granted { mutexLive, caller := true, InitCond; }
          else { caller, refused := UndoData, refused + {Mutex}; }
        case InitCond =>
          if granted { condLive, caller := true, InitAttr; }
          else { caller, refused := UndoMutex(false), refused + {Cond}; }
        case InitAttr =>
          if granted { attrLive := true; } else { refused := refused + {Attr}; }
          caller := CreateThread;
        case CreateThread =>
          if granted { worker, caller := Compute, DestroyAttr; }
          else { caller, refused := UndoMutex(true), refused + {NewThread}; }
      }
    }

    /** One step of calculate_1_svc from the start of the thread to the reading of its result. */
    method StepService()
      requires Inv(Abs()) && Enabled(Abs(), CallerStep)
      requires caller.DestroyAttr? || InLoop(caller) || caller.CUnlock? || caller.ReadResult?
      modifies this
      ensures Inv(Abs()) && Abs() == Apply(old(Abs()), CallerStep)
    {
      ApplyKeepsInv(Abs(), CallerStep);
      match caller {
        case DestroyAttr => attrLive, caller := false, CLock;
        case CLock => holder, caller := Some(Caller), TestDone;
        case TestDone => caller := if isDone then CUnlock else WaitCond;
        case WaitCond => holder, caller := None, Sleeping;
        case Woken => holder, caller := Some(Caller), TestDone;
        case CUnlock => holder, caller := None, ReadResult;
        case ReadResult => reply, caller := result, DestroyMutex;
      }
    }

    /** One step of giving back what was acquired, after the call or after a refusal. */
    method GiveBack()
      requires Inv(Abs()) && Enabled(Abs(), CallerStep)
      requires caller.DestroyMutex? || caller.DestroyCond? || caller.FreeData? || Undoes(caller)
      modifies this
      ensures Inv(Abs()) && Abs() == Apply(old(Abs()), CallerStep)
    {
      ApplyKeepsInv(Abs(), CallerStep);
      match caller {
        case DestroyMutex => mutexLive, caller := false, DestroyCond;
        case DestroyCond => condLive, caller := false, FreeData;
        case FreeData => dataLive, caller := false, Finished;
        case UndoMutex(condToo) => mutexLive, caller := false, if condToo then UndoCond else UndoData;
        case UndoCond => condLive, caller := false, UndoData;
        case UndoData => dataLive, caller := false, ReplyZero;
        case ReplyZero => reply, caller := 0.0, Finished;
      }
    }
  }
}
