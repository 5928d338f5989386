/** prod_cons_mac.c: the same producers and consumers over three POSIX semaphores, waited for and
    posted one at a time. */
module PosixBuffer {
  import opened RingBody

  /** Body(Finished) stands before sem_post(sem_binary). */
  datatype Pc =
    | TestFlag      // 41 or 78
    | WaitFirst     // 42 or 79: sem_wait on FULL or EMPTY
    | WaitBinary    // 50 or 87: sem_wait on BINARY, holding a unit of the first
    | Body(at: RingBody.Pc)
    | PostSecond    // 70 or 111: BINARY is posted, EMPTY or FULL is not yet

  /** `asleep`: the wait it stands at found the semaphore at 0 and has put it to sleep. */
  datatype Proc = Proc(role: Role, pc: Pc, flag: bool, running: bool, asleep: bool)

  /** `interrupted` counts the processes that left by EINTR while waiting for sem_binary. */
  datatype State = State(empty: nat, full: nat, binary: nat, ring: Ring, procs: seq<Proc>, interrupted: nat)

  datatype Action =
    | Step(proc: nat)
    | Sleep(proc: nat)    // sem_wait finds 0
    | Sigint(proc: nat)
    | Eintr(proc: nat)    // a signal breaks off the sleep, whatever the semaphore is by then
    | Kill(proc: nat)

  function Init(roles: seq<Role>): State {
    State(ELEMENTS, 0, 1, Fresh(),
          seq(|roles|, i requires 0 <= i < |roles| => Proc(roles[i], TestFlag, true, true, false)), 0)
  }

  function Gone(p: Proc): Proc { p.(running := false, flag := false) }

  function Put(s: State, k: nat, p: Proc): State
    requires k < |s.procs|
  {
    s.(procs := s.procs[k := p])
  }

  predicate AtWait(p: Proc) { p.pc.WaitFirst? || p.pc.WaitBinary? }

  /** A process in sem_wait whose semaphore is 0. */
  predicate WouldBlock(s: State, p: Proc) {
    || (p.pc.WaitFirst? && (if p.role.Producer? then s.empty else s.full) == 0)
    || (p.pc.WaitBinary? && s.binary == 0)
  }

  function StepProc(s: State, k: nat): State
    requires k < |s.procs| && !WouldBlock(s, s.procs[k])
  {
    var p := s.procs[k];
    match p.pc
    case TestFlag => Put(s, k, if p.flag then p.(pc := WaitFirst) else Gone(p))
    case WaitFirst =>
      var t := Put(s, k, p.(pc := WaitBinary, asleep := false));
      if p.role.Producer? then t.(empty := s.empty - 1) else t.(full := s.full - 1)
    case WaitBinary => Put(s, k, p.(pc := Body(First(p.role)), asleep := false)).(binary := s.binary - 1)
    case Body(at) =>
      if at.Finished? then Put(s, k, p.(pc := PostSecond)).(binary := s.binary + 1)
      else Put(s, k, p.(pc := Body(Next(p.role, at)))).(ring := RingBody.Body(s.ring, p.role, at))
    case PostSecond =>
      var t := Put(s, k, p.(pc := TestFlag));
      if p.role.Producer? then t.(full := s.full + 1) else t.(empty := s.empty + 1)
  }

  predicate Enabled(s: State, a: Action) {
    && a.proc < |s.procs|
    && s.procs[a.proc].running
    && (a.Step? ==> !WouldBlock(s, s.procs[a.proc]))
    && (a.Sleep? ==> WouldBlock(s, s.procs[a.proc]))
    && (a.Eintr? ==> AtWait(s.procs[a.proc]) && s.procs[a.proc].asleep)
  }

  function Apply(s: State, a: Action): State {
    if !Enabled(s, a) then s
    else match a
      case Step(k) => StepProc(s, k)
      case Sleep(k) => Put(s, k, s.procs[k].(asleep := true))
      case Sigint(k) => Put(s, k, s.procs[k].(flag := false))
      case Eintr(k) =>
        Put(s, k, Gone(s.procs[k])).(interrupted := s.interrupted + if s.procs[k].pc.WaitBinary? then 1 else 0)
      case Kill(k) => Put(s, k, Gone(s.procs[k]))
  }

  function Run(s: State, actions: seq<Action>): State
    decreases |actions|
  {
    if actions == [] then s else Run(Apply(s, actions[0]), actions[1..])
  }
}
