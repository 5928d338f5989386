/** writer_reader.c over whole runs: what a death inside does for good, and how a shutdown ends. */
module ReadersWritersProgress {
  import opened Common
  import opened ReadersWriters
  import opened ReadersWritersTheorems

  // ---------- What signals do ----------

  /** A signal or a kill changes nothing but the process it hits, and does not move
      that one. A kill and an interrupted call end it; SIGINT by itself only lowers its flag. */
  lemma FaultEffect(s: State, a: Action)
    requires |s.sems| == 4 && Enabled(s, a) && !a.Step?
    ensures var t, p, q := Apply(s, a), s.procs[a.proc], Apply(s, a).procs[a.proc];
            && t == s.(procs := s.procs[a.proc := q])
            && q == p.(flag := false, running := a.Sigint?)
  {
  }

  /** Who has left does nothing any more. */
  lemma {:induction false} TheDeadStay(s: State, k: nat, actions: seq<Action>)
    requires |s.sems| == 4 && k < |s.procs| && !s.procs[k].running
    ensures k < |Run(s, actions).procs| && Run(s, actions).procs[k] == s.procs[k]
    decreases |actions|
  {
    if actions == [] {
    } else {
      TheDeadStay(Apply(s, actions[0]), k, actions[1..]);
    }
  }

  lemma DownStep(s: State, k: nat, a: Action)
    requires |s.sems| == 4 && k < |s.procs| && !s.procs[k].flag
    ensures var t := Apply(s, a);
            && k < |t.procs| && !t.procs[k].flag
            && (!s.procs[k].pc.Enter? ==> !t.procs[k].pc.Enter?)
  {
  }

  /** A flag that is down stays down, and once the process is not before its entry it never is again. */
  lemma {:induction false} NeverEntersAgain(s: State, k: nat, actions: seq<Action>)
    requires |s.sems| == 4 && k < |s.procs| && !s.procs[k].flag
    ensures var t := Run(s, actions);
            && k < |t.procs| && !t.procs[k].flag
            && (!s.procs[k].pc.Enter? ==> !t.procs[k].pc.Enter?)
    decreases |actions|
  {
    if actions == [] {
    } else {
      DownStep(s, k, actions[0]);
      NeverEntersAgain(Apply(s, actions[0]), k, actions[1..]);
    }
  }

  /** Its next test of the flag ends it. */
  lemma LeavesAtTest(s: State, k: nat)
    requires |s.sems| == 4 && k < |s.procs| && s.procs[k].running && s.procs[k].pc.TestFlag? && !s.procs[k].flag
    ensures !Apply(s, Step(k)).procs[k].running
  {
  }

  /** Who can be hit: any running process by SIGINT or a kill, and by an interrupt exactly one that is kept
      waiting at its entry by somebody inside. */
  lemma FaultPossibleIff(s: State, k: nat)
    requires Reachable(s) && k < |s.procs|
    ensures |s.sems| == 4
    ensures Enabled(s, Sigint(k)) <==> s.procs[k].running
    ensures Enabled(s, Kill(k)) <==> s.procs[k].running
    ensures Enabled(s, Eintr(k)) <==>
            && s.procs[k].running && s.procs[k].pc.Enter?
            && (if s.procs[k].role.Reader? then Count(s.procs, WriterInside) else Count(s.procs, Inside)) > 0
  {
    ReachableInv(s);
    if s.procs[k].pc.Enter? { EntryIff(s, k); }
    if s.procs[k].pc.Leave? { LeaveSem(s, k); }
  }

  /** An interrupt at the entry: the process is gone for good and never gets inside. */
  lemma InterruptedLeaves(s: State, k: nat, actions: seq<Action>)
    requires Reachable(s) && |s.sems| == 4 && Enabled(s, Eintr(k))
    ensures var t := Run(Apply(s, Eintr(k)), actions);
            k < |t.procs| && !t.procs[k].running && !Inside(t.procs[k])
  {
    FaultPossibleIff(s, k);
    FaultEffect(s, Eintr(k));
    TheDeadStay(Apply(s, Eintr(k)), k, actions);
  }

  // ---------- After a death inside ----------

  /** An action changes one process, and only a step of an insider that is running changes letter and log. */
  lemma OneMoves(s: State, a: Action)
    requires SemInv(s) && Enabled(s, a)
    ensures var t, p, q := Apply(s, a), s.procs[a.proc], Apply(s, a).procs[a.proc];
            && t.procs == s.procs[a.proc := q] && q.role == p.role
            && (!(a.Step? && Inside(p)) ==> t.letter == s.letter && t.writes == s.writes && t.log == s.log)
            && (a.Step? && ReaderInside(p) && !p.pc.Increment? && !p.pc.Wrap? ==>
                  t.letter == s.letter && t.writes == s.writes)
            && (!a.Step? ==> q.pc == p.pc && (q.flag ==> p.flag))
            && (a.Step? ==> q == (match p.pc
                                  case TestFlag => if p.flag then p.(pc := Enter) else Gone(p)
                                  case Enter => p.(pc := if p.role.Reader? then Print else Increment)
                                  case Print => p.(pc := Leave)
                                  case Increment => p.(pc := Wrap)
                                  case Wrap => p.(pc := Leave)
                                  case Leave => p.(pc := TestFlag)))
  {
    if a.Step? && s.procs[a.proc].pc.Leave? { LeaveSem(s, a.proc); }
  }

  /** A writer that dies inside keeps everybody out for good: letter and log never change again. */
  lemma WriterShutsOutStep(s: State, a: Action)
    requires Inv(s) && DiedInside(s, Writer)
    ensures var t := Apply(s, a);
            && t.letter == s.letter && t.writes == s.writes && t.log == s.log && DiedInside(t, Writer)
            && |t.procs| == |s.procs|
            && forall k :: 0 <= k < |s.procs| ==> (Inside(t.procs[k]) <==> Inside(s.procs[k]))
  {
    var d :| 0 <= d < |s.procs| && !s.procs[d].running && s.procs[d].role == Writer && Inside(s.procs[d]);
    WriterIsAlone(s, d);
    if Enabled(s, a) {
      OneMoves(s, a);
      if a.Step? && s.procs[a.proc].pc.Enter? { NobodyEnters(s, a.proc); }
      assert Apply(s, a).procs[d] == s.procs[d];
    }
  }

  lemma NobodyEnters(s: State, k: nat)
    requires |s.sems| == 4 && s.sems[ACTIVE_WRITER] > 0 && k < |s.procs| && s.procs[k].pc.Enter?
    ensures WouldBlock(s, s.procs[k])
  {
    StartReadMeaning(s.sems, StartGroup(Reader));
    StartWriteMeaning(s.sems, StartGroup(Writer));
  }

  lemma {:induction false} WriterShutsOut(s: State, actions: seq<Action>)
    requires Inv(s) && DiedInside(s, Writer)
    ensures var t := Run(s, actions);
            && t.letter == s.letter && t.writes == s.writes && t.log == s.log && DiedInside(t, Writer)
            && |t.procs| == |s.procs|
            && forall k :: 0 <= k < |s.procs| ==> (Inside(t.procs[k]) <==> Inside(s.procs[k]))
    decreases |actions|
  {
    if actions == [] {
    } else {
      WriterShutsOutStep(s, actions[0]);
      ApplyKeepsInv(s, actions[0]);
      WriterShutsOut(Apply(s, actions[0]), actions[1..]);
    }
  }

  /** A reader that dies inside keeps the writers out for good: the letter never changes again. */
  lemma ReaderShutsOutStep(s: State, a: Action)
    requires Inv(s) && DiedInside(s, Reader)
    ensures var t := Apply(s, a);
            && t.letter == s.letter && t.writes == s.writes && DiedInside(t, Reader)
            && forall k :: 0 <= k < |t.procs| ==> !WriterInside(t.procs[k])
  {
    var d :| 0 <= d < |s.procs| && !s.procs[d].running && s.procs[d].role == Reader && Inside(s.procs[d]);
    ReaderExcludesWriters(s, d);
    if Enabled(s, a) {
      assert !WriterInside(s.procs[a.proc]);
      OneMoves(s, a);
      assert Apply(s, a).procs[d] == s.procs[d];
    }
    ApplyKeepsInv(s, a);
    ReaderExcludesWriters(Apply(s, a), d);
  }

  lemma {:induction false} ReaderShutsOut(s: State, actions: seq<Action>)
    requires Inv(s) && DiedInside(s, Reader)
    ensures var t := Run(s, actions);
            && t.letter == s.letter && t.writes == s.writes && DiedInside(t, Reader)
            && forall k :: 0 <= k < |t.procs| ==> !WriterInside(t.procs[k])
    decreases |actions|
  {
    if actions == [] {
      var d :| 0 <= d < |s.procs| && !s.procs[d].running && s.procs[d].role == Reader && Inside(s.procs[d]);
      ReaderExcludesWriters(s, d);
    } else {
      ReaderShutsOutStep(s, actions[0]);
      ApplyKeepsInv(s, actions[0]);
      ReaderShutsOut(Apply(s, actions[0]), actions[1..]);
    }
  }

  // ---------- How a shutdown ends ----------

  /** How many steps of the processes happen in a run. */
  ghost function Moves(s: State, actions: seq<Action>): nat
    requires |s.sems| == 4
    decreases |actions|
  {
    if actions == [] then 0
    else One(actions[0].Step? && Enabled(s, actions[0])) + Moves(Apply(s, actions[0]), actions[1..])
  }

  ghost predicate FlagsDown(s: State) {
    forall k :: 0 <= k < |s.procs| && s.procs[k].running ==> !s.procs[k].flag
  }

  /** The steps a process takes until it leaves, once its flag is down. */
  ghost function StepsToLeave(p: Proc): nat {
    if !p.running then 0
    else match p.pc
      case TestFlag => 1
      case Leave => 2
      case Print => 3
      case Wrap => 3
      case Increment => 4
      case Enter => 5
  }

  lemma StepLeavesSooner(s: State, a: Action)
    requires SemInv(s) && FlagsDown(s)
    ensures FlagsDown(Apply(s, a))
    ensures Sum(Apply(s, a).procs, StepsToLeave) + One(a.Step? && Enabled(s, a)) <= Sum(s.procs, StepsToLeave)
  {
    if Enabled(s, a) {
      OneMoves(s, a);
      SumUpdate(s.procs, a.proc, Apply(s, a).procs[a.proc], StepsToLeave);
    }
  }

  lemma {:induction false} MovesAreFew(s: State, actions: seq<Action>)
    requires Inv(s) && FlagsDown(s)
    ensures Moves(s, actions) + Sum(Run(s, actions).procs, StepsToLeave) <= Sum(s.procs, StepsToLeave)
    decreases |actions|
  {
    if actions == [] {
    } else {
      StepLeavesSooner(s, actions[0]);
      ApplyKeepsInv(s, actions[0]);
      MovesAreFew(Apply(s, actions[0]), actions[1..]);
    }
  }

  lemma {:induction false} RunStaysReachable(s: State, actions: seq<Action>)
    requires |s.sems| == 4 && Reachable(s)
    ensures Reachable(Run(s, actions))
    decreases |actions|
  {
    if actions == [] {
    } else {
      ReachableNext(s, actions[0]);
      RunStaysReachable(Apply(s, actions[0]), actions[1..]);
    }
  }

  /** Shutdown without kills always ends: once every flag is down at most 5 steps of each process happen,
      and as long as somebody has not left some process can take one. */
  lemma ShutdownEnds(roles: seq<Role>, before: seq<Action>, after: seq<Action>)
    requires forall a :: 0 <= a < |before| ==> !before[a].Kill?
    requires forall a :: 0 <= a < |after| ==> !after[a].Kill?
    requires FlagsDown(Run(Init(roles), before))
    ensures var s := Run(Init(roles), before);
            var t := Run(s, after);
            && Moves(s, after) <= |s.procs| * 5
            && (Stuck(t) <==> AllGone(t))
  {
    var s := Run(Init(roles), before);
    var t := Run(s, after);
    assert Reachable(s);
    ReachableInv(s);
    MovesAreFew(s, after);
    SumBound(s.procs, 5, StepsToLeave);
    RunStaysReachable(s, after);
    InitInv(roles);
    NoKillNoDeathInside(Init(roles), before);
    NoKillNoDeathInside(s, after);
    if !AllGone(t) {
      var i :| 0 <= i < |t.procs| && t.procs[i].running;
      StuckIff(t, i);
    }
  }
}
