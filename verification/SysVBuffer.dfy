/** prod_cons.c: producers and consumers that enter and leave the critical section with one atomic
    group of System V semaphore operations. */
module SysVBuffer {
  import opened Common
  import opened Semaphores
  import opened RingBody

  const EMPTY: nat := 0
  const FULL: nat := 1
  const BINARY: nat := 2

  const START_CONSUME: seq<SemBuf> := [SemBuf(FULL, -1), SemBuf(BINARY, -1)]
  const END_CONSUME: seq<SemBuf> := [SemBuf(BINARY, 1), SemBuf(EMPTY, 1)]
  const START_PRODUCE: seq<SemBuf> := [SemBuf(EMPTY, -1), SemBuf(BINARY, -1)]
  const END_PRODUCE: seq<SemBuf> := [SemBuf(BINARY, 1), SemBuf(FULL, 1)]

  /** Body(Finished) stands before the group that leaves the section. */
  datatype Pc =
    | TestFlag             // while (flag)
    | Enter                // semop on the start group
    | Body(at: RingBody.Pc)

  /** A child process. One that has left, by return, by exit or killed, keeps the pc it had then. */
  datatype Proc = Proc(role: Role, pc: Pc, flag: bool, running: bool)

  datatype State = State(sems: seq<nat>, ring: Ring, procs: seq<Proc>)

  datatype Action =
    | Step(proc: nat)
    | Sigint(proc: nat)   // the handler clears flag, nothing was blocked
    | Eintr(proc: nat)    // a signal breaks off a blocked semop, and the process exits
    | Kill(proc: nat)     // SIGALRM: no handler

  function StartGroup(role: Role): (g: seq<SemBuf>)
    ensures InRange(g, 3)
  {
    if role.Producer? then START_PRODUCE else START_CONSUME
  }

  function EndGroup(role: Role): (g: seq<SemBuf>)
    ensures InRange(g, 3)
  {
    if role.Producer? then END_PRODUCE else END_CONSUME
  }

  function Init(roles: seq<Role>): State {
    State([ELEMENTS, 0, 1], Fresh(), seq(|roles|, i requires 0 <= i < |roles| => Proc(roles[i], TestFlag, true, true)))
  }

  predicate Inside(p: Proc) { p.pc.Body? }

  function Gone(p: Proc): Proc { p.(running := false, flag := false) }

  function Put(s: State, k: nat, p: Proc): State
    requires k < |s.procs|
  {
    s.(procs := s.procs[k := p])
  }

  /** One step of process k. A group that would have to wait leaves everything as it is. */
  function StepProc(s: State, k: nat): (t: State)
    requires |s.sems| == 3 && k < |s.procs|
    ensures |t.sems| == 3 && |t.procs| == |s.procs|
  {
    var p := s.procs[k];
    match p.pc
    case TestFlag => Put(s, k, if p.flag then p.(pc := Enter) else Gone(p))
    case Enter =>
      (match SemOp(s.sems, StartGroup(p.role))
       case Done(sems) => Put(s, k, p.(pc := Body(First(p.role)))).(sems := sems)
       case Blocked => s)
    case Body(at) =>
      if at.Finished? then
        match SemOp(s.sems, EndGroup(p.role))
        case Done(sems) => Put(s, k, p.(pc := TestFlag)).(sems := sems)
        case Blocked => s
      else
        Put(s, k, p.(pc := Body(Next(p.role, at)))).(ring := RingBody.Body(s.ring, p.role, at))
  }

  predicate WouldBlock(s: State, p: Proc)
    requires |s.sems| == 3
  {
    p.pc.Enter? && SemOp(s.sems, StartGroup(p.role)).Blocked?
  }

  predicate Enabled(s: State, a: Action)
    requires |s.sems| == 3
  {
    && a.proc < |s.procs|
    && s.procs[a.proc].running
    && (a.Step? ==> !WouldBlock(s, s.procs[a.proc]))
    && (a.Eintr? ==> WouldBlock(s, s.procs[a.proc]))
  }

  function Apply(s: State, a: Action): (t: State)
    requires |s.sems| == 3
    ensures |t.sems| == 3
  {
    if !Enabled(s, a) then s
    else match a
      case Step(k) => StepProc(s, k)
      case Sigint(k) => Put(s, k, s.procs[k].(flag := false))
      case Eintr(k) => Put(s, k, Gone(s.procs[k]))
      case Kill(k) => Put(s, k, Gone(s.procs[k]))
  }

  /** What the groups of this program amount to: each start group is one guarded decrement of two
      semaphores, and each end group an increment of two that never waits. */
  lemma StartMeaning(sems: seq<nat>, role: Role, g: seq<SemBuf>)
    requires |sems| == 3 && g == StartGroup(role)
    ensures var first := if role.Producer? then EMPTY else FULL;
            SemOp(sems, g) ==
            if sems[first] > 0 && sems[BINARY] > 0 then
              Done(sems[first := sems[first] - 1][BINARY := sems[BINARY] - 1])
            else Blocked
  {
    Pair(sems, g);
  }

  lemma EndMeaning(sems: seq<nat>, role: Role, g: seq<SemBuf>)
    requires |sems| == 3 && g == EndGroup(role)
    ensures var second := if role.Producer? then FULL else EMPTY;
            SemOp(sems, g) == Done(sems[BINARY := sems[BINARY] + 1][second := sems[second] + 1])
  {
    Pair(sems, g);
  }

  lemma Pair(sems: seq<nat>, g: seq<SemBuf>)
    requires |sems| == 3 && |g| == 2 && InRange(g, 3)
    ensures !Allows(sems[g[0].num], g[0].op) ==> SemOp(sems, g) == Blocked
    ensures Allows(sems[g[0].num], g[0].op) ==>
              var next: seq<nat> := sems[g[0].num := sems[g[0].num] + g[0].op];
              SemOp(sems, g) ==
              if Allows(next[g[1].num], g[1].op) then Done(next[g[1].num := next[g[1].num] + g[1].op]) else Blocked
  {
    GroupStep(sems, g, g[0], g[1..]);
    if Allows(sems[g[0].num], g[0].op) {
      var next: seq<nat> := sems[g[0].num := sems[g[0].num] + g[0].op];
      GroupStep(next, g[1..], g[1], []);
    }
  }

  // ---------- The invariant ----------

  /** A process inside that accounts for a letter which FULL does not count: it has put it and not
      yet said so, or has announced to read it and not yet done so. */
  predicate Pending(p: Proc) {
    p.pc.Body? && (if p.role.Producer? then !p.pc.at.Store? else p.pc.at.Get?)
  }

  ghost predicate SemInv(s: State) {
    && |s.sems| == 3
    && s.sems[EMPTY] + s.sems[FULL] + Count(s.procs, Inside) == ELEMENTS
    && s.sems[BINARY] + Count(s.procs, Inside) == 1
  }

  ghost predicate RingInv(s: State)
    requires |s.sems| == 3
  {
    && |s.ring.produced| == |s.ring.consumed| + s.sems[FULL] + Count(s.procs, Pending)
    && (forall k :: 0 <= k < |s.procs| && Inside(s.procs[k]) ==>
          Belongs(s.procs[k].role, s.procs[k].pc.at) && Consistent(s.ring, s.procs[k].role, s.procs[k].pc.at))
    && ((forall k :: 0 <= k < |s.procs| ==> !Inside(s.procs[k])) ==> Consistent(s.ring, Producer, Finished))
  }

  ghost predicate Inv(s: State) {
    SemInv(s) && RingInv(s)
  }

  lemma InitInv(roles: seq<Role>)
    ensures Inv(Init(roles))
  {
    CountZero(Init(roles).procs, Inside);
    CountZero(Init(roles).procs, Pending);
    FreshConsistent();
  }

  /** Nobody else is inside, so nobody else is pending. */
  lemma OnlyInsider(s: State, k: nat)
    requires SemInv(s) && k < |s.procs| && Inside(s.procs[k])
    ensures Count(s.procs, Inside) == 1
    ensures Count(s.procs, Pending) == One(Pending(s.procs[k]))
    ensures forall j :: 0 <= j < |s.procs| && Inside(s.procs[j]) ==> j == k
  {
    CountZero(s.procs, Inside);
    var out := s.procs[k].(pc := TestFlag);
    var others := s.procs[k := out];
    CountUpdate(s.procs, k, out, Inside);
    CountUpdate(s.procs, k, out, Pending);
    CountZero(others, Inside);
    CountZero(others, Pending);
    forall j | 0 <= j < |s.procs| && j != k ensures !Inside(s.procs[j]) {
      assert others[j] == s.procs[j];
    }
  }

  lemma NobodyInside(s: State)
    requires SemInv(s) && s.sems[BINARY] == 1
    ensures Count(s.procs, Inside) == 0 == Count(s.procs, Pending)
    ensures forall k :: 0 <= k < |s.procs| ==> !Inside(s.procs[k])
  {
    CountZero(s.procs, Inside);
    CountZero(s.procs, Pending);
  }

  /** A move of process k that stays on its side of the section's border and leaves semaphores and memory alone. */
  lemma OutsideMove(s: State, k: nat, p: Proc)
    requires Inv(s) && k < |s.procs|
    requires p.role == s.procs[k].role && (p.pc == s.procs[k].pc || (!Inside(p) && !Inside(s.procs[k])))
    ensures Inv(Put(s, k, p))
  {
    var t := Put(s, k, p);
    CountUpdate(s.procs, k, p, Inside);
    CountUpdate(s.procs, k, p, Pending);
    forall j | 0 <= j < |t.procs| && Inside(t.procs[j])
      ensures Belongs(t.procs[j].role, t.procs[j].pc.at) && Consistent(t.ring, t.procs[j].role, t.procs[j].pc.at)
    {
      assert Inside(s.procs[j]);
    }
    if forall j :: 0 <= j < |t.procs| ==> !Inside(t.procs[j]) {
      forall j | 0 <= j < |s.procs| ensures !Inside(s.procs[j]) {
        assert !Inside(t.procs[j]);
      }
    }
  }

  lemma EnterKeepsInv(s: State, k: nat)
    requires Inv(s) && k < |s.procs| && s.procs[k].pc.Enter?
    ensures Inv(StepProc(s, k))
  {
    var p, t := s.procs[k], StepProc(s, k);
    StartMeaning(s.sems, p.role, StartGroup(p.role));
    if t != s {
      NobodyInside(s);
      CountUpdate(s.procs, k, t.procs[k], Inside);
      CountUpdate(s.procs, k, t.procs[k], Pending);
      RestIsRest(s.ring, Producer, p.role);
      assert Inside(t.procs[k]);
    }
  }

  lemma LeaveKeepsInv(s: State, k: nat)
    requires Inv(s) && k < |s.procs| && s.procs[k].pc == Body(Finished)
    ensures Inv(StepProc(s, k))
  {
    var p, t := s.procs[k], StepProc(s, k);
    EndMeaning(s.sems, p.role, EndGroup(p.role));
    OnlyInsider(s, k);
    CountUpdate(s.procs, k, t.procs[k], Inside);
    CountUpdate(s.procs, k, t.procs[k], Pending);
    RestIsRest(s.ring, p.role, Producer);
  }

  /** The process inside finds a free slot before it stores, and an unread letter before it reads. */
  lemma InsiderHasRoom(s: State, k: nat)
    requires Inv(s) && k < |s.procs| && Inside(s.procs[k])
    ensures Room(s.ring, s.procs[k].pc.at)
  {
    OnlyInsider(s, k);
  }

  lemma BodyKeepsInv(s: State, k: nat)
    requires Inv(s) && k < |s.procs| && Inside(s.procs[k]) && !s.procs[k].pc.at.Finished?
    ensures Inv(StepProc(s, k))
  {
    var p, t := s.procs[k], StepProc(s, k);
    OnlyInsider(s, k);
    InsiderHasRoom(s, k);
    BodyKeeps(s.ring, p.role, p.pc.at);
    CountUpdate(s.procs, k, t.procs[k], Inside);
    CountUpdate(s.procs, k, t.procs[k], Pending);
    assert Inside(t.procs[k]);
    forall j | 0 <= j < |t.procs| && j != k ensures !Inside(t.procs[j]) {
      assert t.procs[j] == s.procs[j];
    }
  }

  lemma ApplyKeepsInv(s: State, a: Action)
    requires Inv(s)
    ensures Inv(Apply(s, a))
  {
    if Enabled(s, a) {
      var k, p := a.proc, s.procs[a.proc];
      if a.Step? {
        if p.pc.TestFlag? { OutsideMove(s, k, if p.flag then p.(pc := Enter) else Gone(p)); }
        else if p.pc.Enter? { EnterKeepsInv(s, k); }
        else if p.pc.at.Finished? { LeaveKeepsInv(s, k); }
        else { BodyKeepsInv(s, k); }
      } else {
        OutsideMove(s, k, if a.Sigint? then p.(flag := false) else Gone(p));
      }
    }
  }

  function Run(s: State, actions: seq<Action>): (t: State)
    requires |s.sems| == 3
    ensures |t.sems| == 3
    decreases |actions|
  {
    if actions == [] then s else Run(Apply(s, actions[0]), actions[1..])
  }

  lemma {:induction false} RunKeepsInv(s: State, actions: seq<Action>)
    requires Inv(s)
    ensures Inv(Run(s, actions))
    decreases |actions|
  {
    if actions == [] {
    } else {
      ApplyKeepsInv(s, actions[0]);
      RunKeepsInv(Apply(s, actions[0]), actions[1..]);
    }
  }

  /** The states of all runs, with any number of producers and consumers, signals and kills. */
  ghost predicate Reachable(s: State) {
    exists roles: seq<Role>, actions: seq<Action> :: s == Run(Init(roles), actions)
  }

  lemma ReachableInv(s: State)
    requires Reachable(s)
    ensures Inv(s)
  {
    var roles: seq<Role>, actions: seq<Action> :| s == Run(Init(roles), actions);
    InitInv(roles);
    RunKeepsInv(Init(roles), actions);
  }
}
