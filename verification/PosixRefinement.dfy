/** Every run of the POSIX version is, step by step, a run of the System V version with the same
    letters put and read. A step maps to one step of the abstract program, or to none. */
module PosixRefinement {
  import opened Common
  import opened RingBody
  import P = PosixBuffer
  import V = SysVBuffer

  /** Holds a unit of EMPTY that it has not spent (a producer waiting for BINARY), or not yet posted. */
  predicate HoldsEmpty(p: P.Proc) {
    if p.role.Producer? then p.pc.WaitBinary? else p.pc.PostSecond?
  }

  predicate HoldsFull(p: P.Proc) {
    if p.role.Producer? then p.pc.PostSecond? else p.pc.WaitBinary?
  }

  function AbsPc(pc: P.Pc): V.Pc {
    match pc
    case TestFlag => V.TestFlag
    case WaitFirst => V.Enter
    case WaitBinary => V.Enter
    case Body(at) => V.Body(at)
    case PostSecond => V.TestFlag
  }

  function AbsProc(p: P.Proc): V.Proc {
    V.Proc(p.role, AbsPc(p.pc), p.flag, p.running)
  }

  ghost function AbsProcs(ps: seq<P.Proc>): seq<V.Proc> {
    seq(|ps|, i requires 0 <= i < |ps| => AbsProc(ps[i]))
  }

  /** EMPTY and FULL count the units in the semaphores and those in the hands of processes, dead or alive. */
  ghost function Abs(s: P.State): V.State {
    V.State([s.empty + Count(s.procs, HoldsEmpty), s.full + Count(s.procs, HoldsFull), s.binary],
            s.ring, AbsProcs(s.procs))
  }

  /** The abstract action that a concrete one stands for, None for a stutter. An EINTR is an abstract EINTR
      where the abstract group would block too. Where it would not, because the unit that is missing is in
      the hands of another process or has come back since, it is a death at the door. */
  ghost function AbsAction(s: P.State, a: P.Action): Option<V.Action>
    requires P.Enabled(s, a)
  {
    match a
    case Step(k) =>
      var pc := s.procs[k].pc;
      if pc.WaitFirst? || pc.PostSecond? then None else Some(V.Step(k))
    case Sleep(k) => None
    case Sigint(k) => Some(V.Sigint(k))
    case Eintr(k) =>
      if V.WouldBlock(Abs(s), AbsProc(s.procs[k])) then Some(V.Eintr(k)) else Some(V.Kill(k))
    case Kill(k) => Some(V.Kill(k))
  }

  lemma AbsPut(s: P.State, k: nat, p: P.Proc)
    requires k < |s.procs|
    ensures AbsProcs(s.procs[k := p]) == AbsProcs(s.procs)[k := AbsProc(p)]
    ensures Count(s.procs[k := p], HoldsEmpty) + One(HoldsEmpty(s.procs[k]))
         == Count(s.procs, HoldsEmpty) + One(HoldsEmpty(p))
    ensures Count(s.procs[k := p], HoldsFull) + One(HoldsFull(s.procs[k]))
         == Count(s.procs, HoldsFull) + One(HoldsFull(p))
  {
    CountUpdate(s.procs, k, p, HoldsEmpty);
    CountUpdate(s.procs, k, p, HoldsFull);
  }

  /** Waiting for the first semaphore and posting the second only move a unit between the semaphore
      and the process: the abstract state stays. */
  lemma Stutters(s: P.State, k: nat)
    requires k < |s.procs| && s.procs[k].running && !P.WouldBlock(s, s.procs[k])
    requires s.procs[k].pc.WaitFirst? || s.procs[k].pc.PostSecond?
    ensures Abs(P.StepProc(s, k)) == Abs(s)
  {
    var t := P.StepProc(s, k);
    AbsPut(s, k, t.procs[k]);
    assert AbsProcs(s.procs)[k := AbsProc(s.procs[k])] == AbsProcs(s.procs);
  }

  /** Getting BINARY is the abstract group on entry: the process already holds its first unit. */
  lemma EntersAsGroup(s: P.State, k: nat)
    requires k < |s.procs| && s.procs[k].running && s.procs[k].pc.WaitBinary? && s.binary > 0
    ensures V.Enabled(Abs(s), V.Step(k)) && V.Apply(Abs(s), V.Step(k)) == Abs(P.StepProc(s, k))
  {
    var t, p := P.StepProc(s, k), s.procs[k];
    AbsPut(s, k, t.procs[k]);
    CountZero(s.procs, HoldsEmpty);
    CountZero(s.procs, HoldsFull);
    V.StartMeaning(Abs(s).sems, p.role, V.StartGroup(p.role));
    assert V.Apply(Abs(s), V.Step(k)).sems == Abs(t).sems;
  }

  /** The abstract step that leaves the section. */
  lemma AbstractLeave(s: V.State, k: nat)
    requires |s.sems| == 3 && k < |s.procs| && s.procs[k].running && s.procs[k].pc == V.Body(Finished)
    ensures var p := s.procs[k];
            var second := if p.role.Producer? then V.FULL else V.EMPTY;
            && V.Enabled(s, V.Step(k))
            && V.Apply(s, V.Step(k)) ==
               V.Put(s, k, p.(pc := V.TestFlag)).(
                 sems := s.sems[V.BINARY := s.sems[V.BINARY] + 1][second := s.sems[second] + 1])
  {
    V.EndMeaning(s.sems, s.procs[k].role, V.EndGroup(s.procs[k].role));
  }

  /** Posting BINARY is the abstract group on leaving: the unit still to be posted counts already. */
  lemma LeavesAsGroup(s: P.State, k: nat)
    requires k < |s.procs| && s.procs[k].running && s.procs[k].pc == P.Body(Finished)
    ensures V.Enabled(Abs(s), V.Step(k)) && V.Apply(Abs(s), V.Step(k)) == Abs(P.StepProc(s, k))
  {
    var t := P.StepProc(s, k);
    AbsPut(s, k, t.procs[k]);
    AbstractLeave(Abs(s), k);
    assert V.Apply(Abs(s), V.Step(k)).sems == Abs(t).sems;
  }

  lemma MovesAlike(s: P.State, k: nat)
    requires k < |s.procs| && s.procs[k].running
    requires s.procs[k].pc.TestFlag? || (s.procs[k].pc.Body? && !s.procs[k].pc.at.Finished?)
    ensures V.Enabled(Abs(s), V.Step(k)) && V.Apply(Abs(s), V.Step(k)) == Abs(P.StepProc(s, k))
  {
    var t := P.StepProc(s, k);
    AbsPut(s, k, t.procs[k]);
    assert V.Apply(Abs(s), V.Step(k)).sems == Abs(t).sems;
  }

  lemma SleepStutters(s: P.State, k: nat)
    requires P.Enabled(s, P.Sleep(k))
    ensures Abs(P.Apply(s, P.Sleep(k))) == Abs(s)
  {
    var t := P.Apply(s, P.Sleep(k));
    AbsPut(s, k, t.procs[k]);
    assert AbsProcs(s.procs)[k := AbsProc(s.procs[k])] == AbsProcs(s.procs);
  }

  /** Signals and kills. */
  lemma FaultsAlike(s: P.State, a: P.Action)
    requires P.Enabled(s, a) && !a.Step? && !a.Sleep?
    ensures AbsAction(s, a).Some?
    ensures V.Enabled(Abs(s), AbsAction(s, a).value)
    ensures V.Apply(Abs(s), AbsAction(s, a).value) == Abs(P.Apply(s, a))
  {
    var t, k := P.Apply(s, a), a.proc;
    AbsPut(s, k, t.procs[k]);
    assert V.Apply(Abs(s), AbsAction(s, a).value).sems == Abs(t).sems;
  }

  /** One step: a stutter, or an enabled abstract step to the abstraction of the new state. */
  lemma StepRefines(s: P.State, a: P.Action)
    requires P.Enabled(s, a)
    ensures AbsAction(s, a).None? ==> Abs(P.Apply(s, a)) == Abs(s)
    ensures AbsAction(s, a).Some? ==>
              && V.Enabled(Abs(s), AbsAction(s, a).value)
              && V.Apply(Abs(s), AbsAction(s, a).value) == Abs(P.Apply(s, a))
  {
    if a.Step? {
      var pc := s.procs[a.proc].pc;
      if pc.WaitFirst? || pc.PostSecond? { Stutters(s, a.proc); }
      else if pc.WaitBinary? { EntersAsGroup(s, a.proc); }
      else if pc == P.Body(Finished) { LeavesAsGroup(s, a.proc); }
      else { MovesAlike(s, a.proc); }
    } else if a.Sleep? {
      SleepStutters(s, a.proc);
    } else {
      FaultsAlike(s, a);
    }
  }

  /** Through the refinement, every action of the POSIX program keeps the System V invariant. */
  lemma ApplyKeepsInv(s: P.State, a: P.Action)
    requires V.Inv(Abs(s))
    ensures V.Inv(Abs(P.Apply(s, a)))
  {
    if P.Enabled(s, a) {
      StepRefines(s, a);
      if AbsAction(s, a).Some? {
        V.ApplyKeepsInv(Abs(s), AbsAction(s, a).value);
      }
    }
  }

  // ---------- Whole runs ----------

  /** Every action of the run is enabled where it is taken. */
  ghost predicate IsRun(s: V.State, actions: seq<V.Action>)
    requires |s.sems| == 3
    decreases |actions|
  {
    actions == [] || (V.Enabled(s, actions[0]) && IsRun(V.Apply(s, actions[0]), actions[1..]))
  }

  /** The abstract run of a concrete one: stutters and disabled actions drop out. */
  ghost function AbsRun(s: P.State, actions: seq<P.Action>): seq<V.Action>
    decreases |actions|
  {
    if actions == [] then []
    else
      var rest := AbsRun(P.Apply(s, actions[0]), actions[1..]);
      if !P.Enabled(s, actions[0]) || AbsAction(s, actions[0]).None? then rest
      else [AbsAction(s, actions[0]).value] + rest
  }

  /** The refinement: the abstract actions form a run of the System V program that ends in the
      abstraction of where the POSIX program ends, with the same letters put and read. */
  lemma {:induction false} RunRefines(s: P.State, actions: seq<P.Action>)
    ensures IsRun(Abs(s), AbsRun(s, actions))
    ensures V.Run(Abs(s), AbsRun(s, actions)) == Abs(P.Run(s, actions))
    ensures V.Run(Abs(s), AbsRun(s, actions)).ring == P.Run(s, actions).ring
    decreases |actions|
  {
    if actions == [] {
    } else {
      var a, t := actions[0], P.Apply(s, actions[0]);
      RunRefines(t, actions[1..]);
      if P.Enabled(s, a) {
        StepRefines(s, a);
        if AbsAction(s, a).Some? {
          assert AbsRun(s, actions)[1..] == AbsRun(t, actions[1..]);
        }
      }
    }
  }

  lemma InitRefines(roles: seq<Role>)
    ensures Abs(P.Init(roles)) == V.Init(roles)
  {
    var s := P.Init(roles);
    CountZero(s.procs, HoldsEmpty);
    CountZero(s.procs, HoldsFull);
    assert AbsProcs(s.procs) == V.Init(roles).procs;
  }

  ghost predicate Reachable(s: P.State) {
    exists roles: seq<Role>, actions: seq<P.Action> :: s == P.Run(P.Init(roles), actions)
  }

  /** So whatever holds in all reachable states of the System V program holds of the abstraction of
      all reachable states of the POSIX program. */
  lemma ReachableRefines(s: P.State)
    requires Reachable(s)
    ensures V.Reachable(Abs(s)) && V.Inv(Abs(s))
  {
    var roles: seq<Role>, actions: seq<P.Action> :| s == P.Run(P.Init(roles), actions);
    InitRefines(roles);
    RunRefines(P.Init(roles), actions);
    assert Abs(s) == V.Run(V.Init(roles), AbsRun(P.Init(roles), actions));
    V.ReachableInv(Abs(s));
  }
}
