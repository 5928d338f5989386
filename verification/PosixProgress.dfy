/** prod_cons_mac.c over whole runs: what a death inside does for good, how a shutdown ends, and how often
    a letter is put or read. */
module PosixProgress {
  import opened Common
  import opened RingBody
  import opened PosixBuffer
  import opened PosixRefinement
  import opened PosixTheorems
  import V = SysVBuffer
  import SysVProgress
  import SysVTheorems

  // ---------- What signals do ----------

  /** A signal or a kill changes nothing but the process it hits and the count of interrupts, and does not move
      that one. A kill and an interrupted call end it; SIGINT by itself only lowers its flag. */
  lemma FaultEffect(s: State, a: Action)
    requires Enabled(s, a) && !a.Step? && !a.Sleep?
    ensures var t, p, q := Apply(s, a), s.procs[a.proc], Apply(s, a).procs[a.proc];
            && t == s.(procs := s.procs[a.proc := q],
                    interrupted := s.interrupted + One(a.Eintr? && p.pc.WaitBinary?))
            && q == p.(flag := false, running := a.Sigint?)
  {
  }

  /** Who has left does nothing any more. */
  lemma {:induction false} TheDeadStay(s: State, k: nat, actions: seq<Action>)
    requires k < |s.procs| && !s.procs[k].running
    ensures k < |Run(s, actions).procs| && Run(s, actions).procs[k] == s.procs[k]
    decreases |actions|
  {
    if actions == [] {
    } else {
      TheDeadStay(Apply(s, actions[0]), k, actions[1..]);
    }
  }

  lemma DownStep(s: State, k: nat, a: Action)
    requires k < |s.procs| && !s.procs[k].flag
    ensures var t := Apply(s, a);
            && k < |t.procs| && !t.procs[k].flag
            && (!s.procs[k].pc.WaitFirst? ==> !t.procs[k].pc.WaitFirst?)
  {
  }

  /** A flag that is down stays down, and once the process is not before its entry it never is again. */
  lemma {:induction false} NeverEntersAgain(s: State, k: nat, actions: seq<Action>)
    requires k < |s.procs| && !s.procs[k].flag
    ensures var t := Run(s, actions);
            && k < |t.procs| && !t.procs[k].flag
            && (!s.procs[k].pc.WaitFirst? ==> !t.procs[k].pc.WaitFirst?)
    decreases |actions|
  {
    if actions == [] {
    } else {
      DownStep(s, k, actions[0]);
      NeverEntersAgain(Apply(s, actions[0]), k, actions[1..]);
    }
  }

  /** Its next test of the flag ends it. */
  lemma LeavesAtTest(s: State, k: nat)
    requires k < |s.procs| && s.procs[k].running && s.procs[k].pc.TestFlag? && !s.procs[k].flag
    ensures !Apply(s, Step(k)).procs[k].running
  {
  }

  /** Only a wait puts a process to sleep, and only until that wait is through: who is asleep is at a wait. */
  ghost predicate SleepsAtWaits(s: State) {
    forall k :: 0 <= k < |s.procs| && s.procs[k].asleep ==> AtWait(s.procs[k])
  }

  lemma {:induction false} SleepersWait(s: State, actions: seq<Action>)
    requires SleepsAtWaits(s)
    ensures SleepsAtWaits(Run(s, actions))
    decreases |actions|
  {
    if actions == [] {
    } else {
      var a := actions[0];
      if Enabled(s, a) {
        OneMoves(s, a);
        SleeperWaits(s, a);
      }
      SleepersWait(Apply(s, a), actions[1..]);
    }
  }

  lemma SleeperWaits(s: State, a: Action)
    requires Enabled(s, a) && (s.procs[a.proc].asleep ==> AtWait(s.procs[a.proc]))
    ensures var p, q := s.procs[a.proc], Apply(s, a).procs[a.proc];
            && (q.asleep ==> AtWait(q))
            && (q.asleep ==> q.pc == p.pc)
            && (q.asleep && !p.asleep ==> a.Sleep? && WouldBlock(s, p))
  {
  }

  /** Who can be hit: any running process by SIGINT or a kill, and by an interrupt exactly one that sleeps. */
  lemma FaultPossibleIff(s: State, k: nat)
    requires Reachable(s) && k < |s.procs|
    ensures Enabled(s, Sigint(k)) <==> s.procs[k].running
    ensures Enabled(s, Kill(k)) <==> s.procs[k].running
    ensures Enabled(s, Eintr(k)) <==> s.procs[k].running && s.procs[k].asleep
    ensures s.procs[k].asleep ==> AtWait(s.procs[k])
  {
    var roles: seq<Role>, actions: seq<Action> :| s == Run(Init(roles), actions);
    SleepersWait(Init(roles), actions);
  }

  /** An interrupted sleep: the process is gone for good and never gets inside. */
  lemma InterruptedLeaves(s: State, k: nat, actions: seq<Action>)
    requires Enabled(s, Eintr(k))
    ensures var t := Run(Apply(s, Eintr(k)), actions);
            k < |t.procs| && !t.procs[k].running && !Inside(t.procs[k])
  {
    FaultEffect(s, Eintr(k));
    TheDeadStay(Apply(s, Eintr(k)), k, actions);
  }

  // ---------- After a death inside ----------

  lemma InsideIsInside(s: State)
    ensures SysVTheorems.DiedInside(Abs(s)) <==> DiedInside(s)
    ensures forall k :: 0 <= k < |s.procs| ==> (V.Inside(Abs(s).procs[k]) <==> Inside(s.procs[k]))
  {
    if DiedInside(s) {
      var d :| 0 <= d < |s.procs| && !s.procs[d].running && Inside(s.procs[d]);
      assert !Abs(s).procs[d].running && V.Inside(Abs(s).procs[d]);
    }
  }

  /** A child that dies inside keeps all others out for good, as in the System V program. */
  lemma ShutOut(s: State, actions: seq<Action>)
    requires Reachable(s) && DiedInside(s)
    ensures var t := Run(s, actions);
            && t.ring == s.ring && DiedInside(t) && |t.procs| == |s.procs|
            && forall k :: 0 <= k < |s.procs| ==> (Inside(t.procs[k]) <==> Inside(s.procs[k]))
  {
    var t := Run(s, actions);
    ReachableRefines(s);
    RunRefines(s, actions);
    InsideIsInside(s);
    InsideIsInside(t);
    SysVProgress.ShutOut(Abs(s), AbsRun(s, actions));
    assert |Abs(t).procs| == |t.procs| && |Abs(s).procs| == |s.procs|;
  }

  // ---------- How a shutdown ends ----------

  /** How many steps of the processes happen in a run; falling asleep is none. */
  ghost function Moves(s: State, actions: seq<Action>): nat
    decreases |actions|
  {
    if actions == [] then 0
    else One(actions[0].Step? && Enabled(s, actions[0])) + Moves(Apply(s, actions[0]), actions[1..])
  }

  ghost predicate FlagsDown(s: State) {
    forall k :: 0 <= k < |s.procs| && s.procs[k].running ==> !s.procs[k].flag
  }

  /** The steps a process takes until it leaves, once its flag is down. */
  ghost function StepsLeft(p: Proc): nat { if p.running then StepsToLeave(p.pc) + 1 else 0 }

  /** Where a step takes a process. */
  lemma StepEffect(s: State, k: nat)
    requires Enabled(s, Step(k))
    ensures var p, q := s.procs[k], Apply(s, Step(k)).procs[k];
            && q.role == p.role && q.flag == (p.flag && q.running)
            && (q.running <==> !p.pc.TestFlag? || p.flag)
            && q.pc == (match p.pc
                        case TestFlag => if p.flag then WaitFirst else TestFlag
                        case WaitFirst => WaitBinary
                        case WaitBinary => Body(First(p.role))
                        case Body(at) => if at.Finished? then PostSecond else Body(Next(p.role, at))
                        case PostSecond => TestFlag)
  {
  }

  lemma StepLeavesSooner(s: State, a: Action)
    requires FlagsDown(s)
    ensures FlagsDown(Apply(s, a))
    ensures Sum(Apply(s, a).procs, StepsLeft) + One(a.Step? && Enabled(s, a)) <= Sum(s.procs, StepsLeft)
  {
    if Enabled(s, a) {
      OneMoves(s, a);
      if a.Step? { StepEffect(s, a.proc); } else if !a.Sleep? { FaultEffect(s, a); }
      SumUpdate(s.procs, a.proc, Apply(s, a).procs[a.proc], StepsLeft);
    }
  }

  lemma {:induction false} MovesAreFew(s: State, actions: seq<Action>)
    requires FlagsDown(s)
    ensures Moves(s, actions) + Sum(Run(s, actions).procs, StepsLeft) <= Sum(s.procs, StepsLeft)
    decreases |actions|
  {
    if actions == [] {
    } else {
      StepLeavesSooner(s, actions[0]);
      MovesAreFew(Apply(s, actions[0]), actions[1..]);
    }
  }

  ghost predicate OnlyRun(s: State, role: Role) {
    forall k :: 0 <= k < |s.procs| && s.procs[k].running ==> s.procs[k].role == role
  }

  /** All who run are of one role and want a first unit, and there is none. */
  ghost predicate Hangs(s: State) {
    AllAtFirstDoor(s) && ((OnlyRun(s, Producer) && s.empty == 0) || (OnlyRun(s, Consumer) && s.full == 0))
  }

  /** Shutdown without kills: once every flag is down, at most 10 steps of each process happen, and when no
      more can happen all have left, with just one exception: processes of one role are at the first wait
      and wait for ever. */
  lemma ShutdownEnds(roles: seq<Role>, before: seq<Action>, after: seq<Action>)
    requires forall a :: 0 <= a < |before| ==> !before[a].Kill?
    requires forall a :: 0 <= a < |after| ==> !after[a].Kill?
    requires FlagsDown(Run(Init(roles), before))
    ensures var s := Run(Init(roles), before);
            var t := Run(s, after);
            && Moves(s, after) <= |s.procs| * 10
            && (Stuck(t) <==> AllGone(t) || Hangs(t))
  {
    var s := Run(Init(roles), before);
    MovesAreFew(s, after);
    SumBound(s.procs, 10, StepsLeft);
    RunSplit(Init(roles), before, after);
    StuckWithoutKills(roles, before + after);
  }

  lemma StuckWithoutKills(roles: seq<Role>, actions: seq<Action>)
    requires forall a :: 0 <= a < |actions| ==> !actions[a].Kill?
    ensures var t := Run(Init(roles), actions);
            Stuck(t) <==> AllGone(t) || Hangs(t)
  {
    var t := Run(Init(roles), actions);
    NoKillIsClean(roles, actions);
    StuckIff(t);
    if Stuck(t) && !AllGone(t) {
      assert AllAtFirstDoor(t);
      var i :| 0 <= i < |t.procs| && t.procs[i].running;
      forall k | 0 <= k < |t.procs| && t.procs[k].running ensures t.procs[k].role == t.procs[i].role {
        BothDoNotWait(roles, actions, i, k);
      }
    }
  }

  lemma BothDoNotWait(roles: seq<Role>, actions: seq<Action>, i: nat, k: nat)
    requires forall a :: 0 <= a < |actions| ==> !actions[a].Kill?
    requires var t := Run(Init(roles), actions);
      Stuck(t) && i < |t.procs| && k < |t.procs| && t.procs[i].running && t.procs[k].running
    ensures var t := Run(Init(roles), actions);
      t.procs[k].role == t.procs[i].role
  {
    var t := Run(Init(roles), actions);
    if t.procs[i].role.Producer? && t.procs[k].role.Consumer? { NoDeadlock(roles, actions, i, k); }
    if t.procs[i].role.Consumer? && t.procs[k].role.Producer? { NoDeadlock(roles, actions, k, i); }
  }

  // ---------- Throughput ----------

  /** Letters put and letters read. */
  ghost function Letters(s: State): nat { |s.ring.produced| + |s.ring.consumed| }

  /** The steps a process takes until it puts or reads a letter, or leaves. */
  ghost function StepsToLetter(p: Proc): nat {
    if !p.running then 0
    else match p.pc
      case TestFlag => 3
      case WaitFirst => 2
      case WaitBinary => 1
      case Body(at) =>
        (match at
         case Store => 0
         case Get => 0
         case Advance => 9
         case BumpLetter => 8
         case WrapLetter => 7
         case WrapPointer => 6
         case Finished => 5)
      case PostSecond => 4
  }

  lemma LetterEffect(s: State, a: Action)
    ensures Letters(Apply(s, a)) == Letters(s)
            + One(a.Step? && Enabled(s, a) && (s.procs[a.proc].pc == Body(Store) || s.procs[a.proc].pc == Body(Get)))
  {
  }

  lemma StepComesNearer(s: State, a: Action)
    ensures Sum(Apply(s, a).procs, StepsToLetter) + One(a.Step? && Enabled(s, a)) + 10 * Letters(s)
         <= Sum(s.procs, StepsToLetter) + 10 * Letters(Apply(s, a))
  {
    LetterEffect(s, a);
    if Enabled(s, a) {
      OneMoves(s, a);
      if a.Step? { StepEffect(s, a.proc); } else if !a.Sleep? { FaultEffect(s, a); }
      SumUpdate(s.procs, a.proc, Apply(s, a).procs[a.proc], StepsToLetter);
    }
  }

  lemma {:induction false} MovesBringLetters(s: State, actions: seq<Action>)
    ensures var t := Run(s, actions);
            && Letters(t) >= Letters(s)
            && Sum(t.procs, StepsToLetter) + Moves(s, actions) + 10 * Letters(s)
            <= Sum(s.procs, StepsToLetter) + 10 * Letters(t)
    decreases |actions|
  {
    if actions == [] {
    } else {
      LetterEffect(s, actions[0]);
      StepComesNearer(s, actions[0]);
      MovesBringLetters(Apply(s, actions[0]), actions[1..]);
    }
  }

  /** Steps are not wasted: with n processes, in every run with any signals and kills, all but 9n of the steps
      that happen come at 10 a letter put or read. So among any 9n + 1 steps there is a letter. */
  lemma Throughput(s: State, actions: seq<Action>)
    ensures var t := Run(s, actions);
            && Letters(t) >= Letters(s)
            && Moves(s, actions) <= |s.procs| * 9 + 10 * (Letters(t) - Letters(s))
            && (Moves(s, actions) > |s.procs| * 9 ==> Letters(t) > Letters(s))
  {
    MovesBringLetters(s, actions);
    SumBound(s.procs, 9, StepsToLetter);
  }
}
