/** prod_cons.c over whole runs: what a death inside does for good, how a shutdown ends, and how often a
    letter is put or read. */
module SysVProgress {
  import opened Common
  import opened RingBody
  import opened SysVBuffer
  import opened SysVTheorems

  // ---------- What signals do ----------

  /** A signal or a kill changes nothing but the process it hits, and does not move
      that one. A kill and an interrupted call end it; SIGINT by itself only lowers its flag. */
  lemma FaultEffect(s: State, a: Action)
    requires |s.sems| == 3 && Enabled(s, a) && !a.Step?
    ensures var t, p, q := Apply(s, a), s.procs[a.proc], Apply(s, a).procs[a.proc];
            && t == s.(procs := s.procs[a.proc := q])
            && q == p.(flag := false, running := a.Sigint?)
  {
  }

  /** Who has left does nothing any more. */
  lemma {:induction false} TheDeadStay(s: State, k: nat, actions: seq<Action>)
    requires |s.sems| == 3 && k < |s.procs| && !s.procs[k].running
    ensures k < |Run(s, actions).procs| && Run(s, actions).procs[k] == s.procs[k]
    decreases |actions|
  {
    if actions == [] {
    } else {
      TheDeadStay(Apply(s, actions[0]), k, actions[1..]);
    }
  }

  lemma DownStep(s: State, k: nat, a: Action)
    requires |s.sems| == 3 && k < |s.procs| && !s.procs[k].flag
    ensures var t := Apply(s, a);
            && k < |t.procs| && !t.procs[k].flag
            && (!s.procs[k].pc.Enter? ==> !t.procs[k].pc.Enter?)
  {
  }

  /** A flag that is down stays down, and once the process is not before its entry it never is again. */
  lemma {:induction false} NeverEntersAgain(s: State, k: nat, actions: seq<Action>)
    requires |s.sems| == 3 && k < |s.procs| && !s.procs[k].flag
    ensures var t := Run(s, actions);
            && k < |t.procs| && !t.procs[k].flag
            && (!s.procs[k].pc.Enter? ==> !t.procs[k].pc.Enter?)
    decreases |actions|
  {
    if actions == [] {
    } else {
      DownStep(s, k, actions[0]);
      NeverEntersAgain(Apply(s, actions[0]), k, actions[1..]);
    }
  }

  /** Its next test of the flag ends it. */
  lemma LeavesAtTest(s: State, k: nat)
    requires |s.sems| == 3 && k < |s.procs| && s.procs[k].running && s.procs[k].pc.TestFlag? && !s.procs[k].flag
    ensures !Apply(s, Step(k)).procs[k].running
  {
  }

  /** Who can be hit: any running process by SIGINT or a kill, and by an interrupt exactly one that waits at
      its entry, because somebody is inside or the ring is full or empty for it. */
  lemma FaultPossibleIff(s: State, k: nat)
    requires Reachable(s) && k < |s.procs|
    ensures |s.sems| == 3
    ensures Enabled(s, Sigint(k)) <==> s.procs[k].running
    ensures Enabled(s, Kill(k)) <==> s.procs[k].running
    ensures Enabled(s, Eintr(k)) <==>
            && s.procs[k].running && s.procs[k].pc.Enter?
            && (Count(s.procs, Inside) == 1 || s.sems[if s.procs[k].role.Producer? then EMPTY else FULL] == 0)
  {
    ReachableInv(s);
    if s.procs[k].pc.Enter? { EntryBlockedIff(s, k); }
  }

  /** An interrupt at the entry: the process is gone for good and never gets inside. */
  lemma InterruptedLeaves(s: State, k: nat, actions: seq<Action>)
    requires |s.sems| == 3 && Enabled(s, Eintr(k))
    ensures var t := Run(Apply(s, Eintr(k)), actions);
            k < |t.procs| && !t.procs[k].running && !Inside(t.procs[k])
  {
    FaultEffect(s, Eintr(k));
    TheDeadStay(Apply(s, Eintr(k)), k, actions);
  }

  // ---------- After a death inside ----------

  /** While somebody is dead inside, an action moves nobody in or out and leaves the shared memory alone. */
  lemma ShutOutStep(s: State, a: Action)
    requires Inv(s) && DiedInside(s)
    ensures var t := Apply(s, a);
            && t.ring == s.ring && DiedInside(t) && |t.procs| == |s.procs|
            && forall k :: 0 <= k < |s.procs| ==> (Inside(t.procs[k]) <==> Inside(s.procs[k]))
  {
    var d :| 0 <= d < |s.procs| && !s.procs[d].running && Inside(s.procs[d]);
    OnlyInsider(s, d);
    if Enabled(s, a) {
      if s.procs[a.proc].pc.Enter? { EntryBlockedIff(s, a.proc); }
      assert Apply(s, a).procs[d] == s.procs[d];
    }
  }

  /** A child that dies inside keeps all others out for good: in every run from there on the shared memory
      stays as it is, and nobody enters. */
  lemma {:induction false} ShutOut(s: State, actions: seq<Action>)
    requires Inv(s) && DiedInside(s)
    ensures var t := Run(s, actions);
            && t.ring == s.ring && DiedInside(t) && |t.procs| == |s.procs|
            && forall k :: 0 <= k < |s.procs| ==> (Inside(t.procs[k]) <==> Inside(s.procs[k]))
    decreases |actions|
  {
    if actions == [] {
    } else {
      ShutOutStep(s, actions[0]);
      ApplyKeepsInv(s, actions[0]);
      ShutOut(Apply(s, actions[0]), actions[1..]);
    }
  }

  // ---------- How a shutdown ends ----------

  /** How many steps of the processes happen in a run. */
  ghost function Moves(s: State, actions: seq<Action>): nat
    requires |s.sems| == 3
    decreases |actions|
  {
    if actions == [] then 0
    else One(actions[0].Step? && Enabled(s, actions[0])) + Moves(Apply(s, actions[0]), actions[1..])
  }

  ghost predicate FlagsDown(s: State) {
    forall k :: 0 <= k < |s.procs| && s.procs[k].running ==> !s.procs[k].flag
  }

  /** The steps a process takes until it leaves, once its flag is down. */
  ghost function StepsToLeave(p: Proc): nat {
    if !p.running then 0
    else match p.pc
      case TestFlag => 1
      case Enter => 8
      case Body(at) =>
        (match at
         case Store => 7
         case Get => 7
         case Advance => 6
         case BumpLetter => 5
         case WrapLetter => 4
         case WrapPointer => 3
         case Finished => 2)
  }

  /** An action changes one process, and a step that happens takes it from one place to the next. */
  lemma OneMoves(s: State, a: Action)
    requires |s.sems| == 3 && Enabled(s, a)
    ensures var t, p, q := Apply(s, a), s.procs[a.proc], Apply(s, a).procs[a.proc];
            && t.procs == s.procs[a.proc := q]
            && (a.Step? ==> q == (match p.pc
                                  case TestFlag => if p.flag then p.(pc := Enter) else Gone(p)
                                  case Enter => p.(pc := Body(First(p.role)))
                                  case Body(at) =>
                                    if at.Finished? then p.(pc := TestFlag) else p.(pc := Body(Next(p.role, at)))))
  {
    if a.Step? && s.procs[a.proc].pc == Body(Finished) {
      EndMeaning(s.sems, s.procs[a.proc].role, EndGroup(s.procs[a.proc].role));
    }
  }

  lemma StepLeavesSooner(s: State, a: Action)
    requires |s.sems| == 3 && FlagsDown(s)
    ensures FlagsDown(Apply(s, a))
    ensures Sum(Apply(s, a).procs, StepsToLeave) + One(a.Step? && Enabled(s, a)) <= Sum(s.procs, StepsToLeave)
  {
    if Enabled(s, a) {
      OneMoves(s, a);
      SumUpdate(s.procs, a.proc, Apply(s, a).procs[a.proc], StepsToLeave);
    }
  }

  lemma {:induction false} MovesAreFew(s: State, actions: seq<Action>)
    requires |s.sems| == 3 && FlagsDown(s)
    ensures Moves(s, actions) + Sum(Run(s, actions).procs, StepsToLeave) <= Sum(s.procs, StepsToLeave)
    decreases |actions|
  {
    if actions == [] {
    } else {
      StepLeavesSooner(s, actions[0]);
      MovesAreFew(Apply(s, actions[0]), actions[1..]);
    }
  }

  lemma {:induction false} RunStaysReachable(s: State, actions: seq<Action>)
    requires |s.sems| == 3 && Reachable(s)
    ensures Reachable(Run(s, actions))
    decreases |actions|
  {
    if actions == [] {
    } else {
      ReachableNext(s, actions[0]);
      RunStaysReachable(Apply(s, actions[0]), actions[1..]);
    }
  }

  /** Shutdown without kills: once every flag is down, at most 8 steps of each process happen, and when no
      more can happen all have left, with just one exception: processes of one role want in, producers
      with the ring full or consumers with the ring empty, and wait for ever. */
  lemma ShutdownEnds(roles: seq<Role>, before: seq<Action>, after: seq<Action>)
    requires forall a :: 0 <= a < |before| ==> !before[a].Kill?
    requires forall a :: 0 <= a < |after| ==> !after[a].Kill?
    requires FlagsDown(Run(Init(roles), before))
    ensures var s := Run(Init(roles), before);
            var t := Run(s, after);
            && Moves(s, after) <= |s.procs| * 8
            && (Stuck(t) <==> AllGone(t) || Hangs(t))
  {
    var s := Run(Init(roles), before);
    var t := Run(s, after);
    assert Reachable(s);
    MovesAreFew(s, after);
    SumBound(s.procs, 8, StepsToLeave);
    RunStaysReachable(s, after);
    NoKillNoDeathInside(Init(roles), before);
    NoKillNoDeathInside(s, after);
    if !AllGone(t) {
      var i :| 0 <= i < |t.procs| && t.procs[i].running;
      StuckIff(t, i);
    }
  }

  // ---------- Throughput ----------

  /** Letters put and letters read. */
  ghost function Letters(s: State): nat { |s.ring.produced| + |s.ring.consumed| }

  /** The steps a process takes until it puts or reads a letter, or leaves. */
  ghost function StepsToLetter(p: Proc): nat {
    if !p.running then 0
    else match p.pc
      case TestFlag => 2
      case Enter => 1
      case Body(at) =>
        (match at
         case Store => 0
         case Get => 0
         case Advance => 7
         case BumpLetter => 6
         case WrapLetter => 5
         case WrapPointer => 4
         case Finished => 3)
  }

  lemma LetterEffect(s: State, a: Action)
    requires |s.sems| == 3
    ensures Letters(Apply(s, a)) == Letters(s)
            + One(a.Step? && Enabled(s, a) && (s.procs[a.proc].pc == Body(Store) || s.procs[a.proc].pc == Body(Get)))
  {
  }

  lemma StepComesNearer(s: State, a: Action)
    requires |s.sems| == 3
    ensures Sum(Apply(s, a).procs, StepsToLetter) + One(a.Step? && Enabled(s, a)) + 8 * Letters(s)
         <= Sum(s.procs, StepsToLetter) + 8 * Letters(Apply(s, a))
  {
    LetterEffect(s, a);
    if Enabled(s, a) {
      OneMoves(s, a);
      SumUpdate(s.procs, a.proc, Apply(s, a).procs[a.proc], StepsToLetter);
    }
  }

  lemma {:induction false} MovesBringLetters(s: State, actions: seq<Action>)
    requires |s.sems| == 3
    ensures var t := Run(s, actions);
            && Letters(t) >= Letters(s)
            && Sum(t.procs, StepsToLetter) + Moves(s, actions) + 8 * Letters(s)
            <= Sum(s.procs, StepsToLetter) + 8 * Letters(t)
    decreases |actions|
  {
    if actions == [] {
    } else {
      LetterEffect(s, actions[0]);
      StepComesNearer(s, actions[0]);
      MovesBringLetters(Apply(s, actions[0]), actions[1..]);
    }
  }

  /** Steps are not wasted: with n processes, in every run with any signals and kills, all but 7n of the steps
      that happen come at 8 a letter put or read. So among any 7n + 1 steps there is a letter. */
  lemma Throughput(s: State, actions: seq<Action>)
    requires |s.sems| == 3
    ensures var t := Run(s, actions);
            && Letters(t) >= Letters(s)
            && Moves(s, actions) <= |s.procs| * 7 + 8 * (Letters(t) - Letters(s))
            && (Moves(s, actions) > |s.procs| * 7 ==> Letters(t) > Letters(s))
  {
    MovesBringLetters(s, actions);
    SumBound(s.procs, 7, StepsToLetter);
  }
}
