/** What the refinement gives for the POSIX version, and where it differs: a unit can get lost. */
module PosixTheorems {
  import opened Common
  import opened RingBody
  import opened PosixBuffer
  import opened PosixRefinement
  import V = SysVBuffer
  import SysVTheorems

  predicate Inside(p: Proc) { p.pc.Body? }

  lemma InsideAlike(s: State)
    ensures Count(Abs(s).procs, V.Inside) == Count(s.procs, Inside)
  {
    InsideCount(s.procs);
  }

  lemma {:induction false} InsideCount(ps: seq<Proc>)
    ensures Count(AbsProcs(ps), V.Inside) == Count(ps, Inside)
  {
    if ps == [] {
    } else {
      var last := |ps| - 1;
      assert AbsProcs(ps)[..last] == AbsProcs(ps[..last]);
      InsideCount(ps[..last]);
    }
  }

  /** The order of letters carries over from the System V version. */
  lemma ConsumedInOrder(s: State)
    requires Reachable(s)
    ensures s.ring.consumed <= s.ring.produced
    ensures forall n :: 0 <= n < |s.ring.consumed| ==> s.ring.consumed[n] == 'a' as int + n % 26 <= 'z' as int
  {
    ReachableRefines(s);
    SysVTheorems.ConsumedInOrder(Abs(s));
  }

  /** Every unit of the 32 is in a semaphore, in the hands of a process at the doors, or with the process inside. */
  lemma Conservation(s: State)
    requires Reachable(s)
    ensures s.empty + s.full + Count(s.procs, HoldsEmpty) + Count(s.procs, HoldsFull) + Count(s.procs, Inside)
         == 32
    ensures s.binary + Count(s.procs, Inside) == 1
  {
    ReachableRefines(s);
    UnitsAddUp(s);
  }

  lemma UnitsAddUp(s: State)
    requires V.Inv(Abs(s))
    ensures s.empty + s.full + Count(s.procs, HoldsEmpty) + Count(s.procs, HoldsFull) + Count(s.procs, Inside)
         == ELEMENTS
    ensures s.binary + Count(s.procs, Inside) == 1
  {
    InsideAlike(s);
  }

  // ---------- Shutdown ----------

  /** Left with the first unit in hand, while waiting for BINARY. */
  predicate Lost(p: Proc) { !p.running && p.pc.WaitBinary? }

  /** Sleeps in the wait for BINARY, or has left from there. */
  predicate SleptForBinary(p: Proc) { p.pc.WaitBinary? && p.asleep }

  ghost predicate LeftAtDoors(s: State) {
    forall k :: 0 <= k < |s.procs| && !s.procs[k].running ==> !s.procs[k].pc.Body? && !s.procs[k].pc.PostSecond?
  }

  ghost predicate CleanInv(s: State) {
    && LeftAtDoors(s)
    && Count(s.procs, Lost) == s.interrupted
    && forall k :: 0 <= k < |s.procs| && Lost(s.procs[k]) ==> SleptForBinary(s.procs[k])
  }

  /** An action moves one process. */
  lemma OneMoves(s: State, a: Action)
    requires Enabled(s, a)
    ensures Apply(s, a).procs == s.procs[a.proc := Apply(s, a).procs[a.proc]]
  {
  }

  /** What an action other than a kill does to a process that has been running until then. */
  lemma LeavesClean(s: State, a: Action)
    requires Enabled(s, a) && !a.Kill?
    ensures var t, p := Apply(s, a), Apply(s, a).procs[a.proc];
            && (!p.running ==> !p.pc.Body? && !p.pc.PostSecond?)
            && (Lost(p) ==> SleptForBinary(p))
            && t.interrupted == s.interrupted + One(Lost(p))
  {
  }

  lemma ApplyKeepsClean(s: State, a: Action)
    requires CleanInv(s) && !a.Kill?
    ensures CleanInv(Apply(s, a))
  {
    if Enabled(s, a) {
      OneMoves(s, a);
      LeavesClean(s, a);
      CountUpdate(s.procs, a.proc, Apply(s, a).procs[a.proc], Lost);
    }
  }

  lemma {:induction false} RunKeepsClean(s: State, actions: seq<Action>)
    requires CleanInv(s) && forall i :: 0 <= i < |actions| ==> !actions[i].Kill?
    ensures CleanInv(Run(s, actions))
    decreases |actions|
  {
    if actions == [] {
    } else {
      ApplyKeepsClean(s, actions[0]);
      RunKeepsClean(Apply(s, actions[0]), actions[1..]);
    }
  }

  lemma NoKillIsClean(roles: seq<Role>, actions: seq<Action>)
    requires forall i :: 0 <= i < |actions| ==> !actions[i].Kill?
    ensures CleanInv(Run(Init(roles), actions)) && Reachable(Run(Init(roles), actions))
  {
    CountZero(Init(roles).procs, Lost);
    RunKeepsClean(Init(roles), actions);
  }

  lemma FallsAsleep(s: State, a: Action)
    requires Enabled(s, a)
    requires SleptForBinary(Apply(s, a).procs[a.proc]) && !SleptForBinary(s.procs[a.proc])
    ensures a.Sleep? && Apply(s, a).binary == 0
  {
  }

  /** Falling asleep before BINARY takes somebody inside, who has a unit of its own. So one unit of the 32
      is always out of the reach of those who sleep there, or did when they were interrupted or killed. */
  lemma ApplyKeepsSleepersFew(s: State, a: Action)
    requires V.Inv(Abs(s)) && Count(s.procs, SleptForBinary) < ELEMENTS
    ensures V.Inv(Abs(Apply(s, a))) && Count(Apply(s, a).procs, SleptForBinary) < ELEMENTS
  {
    var t := Apply(s, a);
    ApplyKeepsInv(s, a);
    if Enabled(s, a) {
      OneMoves(s, a);
      CountUpdate(s.procs, a.proc, t.procs[a.proc], SleptForBinary);
      if SleptForBinary(t.procs[a.proc]) && !SleptForBinary(s.procs[a.proc]) {
        FallsAsleep(s, a);
        UnitsAddUp(t);
        CountCovered(t.procs, SleptForBinary, HoldsEmpty, HoldsFull);
      }
    }
  }

  lemma {:induction false} SleepersStayFew(s: State, actions: seq<Action>)
    requires V.Inv(Abs(s)) && Count(s.procs, SleptForBinary) < ELEMENTS
    ensures Count(Run(s, actions).procs, SleptForBinary) < ELEMENTS
    decreases |actions|
  {
    if actions == [] {
    } else {
      ApplyKeepsSleepersFew(s, actions[0]);
      SleepersStayFew(Apply(s, actions[0]), actions[1..]);
    }
  }

  /** However many processes an interrupt takes out of the wait for BINARY, they never take all 32 units with them. */
  lemma LossIsBounded(roles: seq<Role>, actions: seq<Action>)
    requires forall i :: 0 <= i < |actions| ==> !actions[i].Kill?
    ensures Run(Init(roles), actions).interrupted < 32
  {
    var s := Run(Init(roles), actions);
    NoKillIsClean(roles, actions);
    InitRefines(roles);
    V.InitInv(roles);
    CountZero(Init(roles).procs, SleptForBinary);
    SleepersStayFew(Init(roles), actions);
    CountBelow(s.procs, Lost, SleptForBinary);
  }

  ghost predicate AllGone(s: State) {
    forall k :: 0 <= k < |s.procs| ==> !s.procs[k].running
  }

  /** Once all children have left, none killed, BINARY is 1 again, and what is missing from the 32 units
      is exactly one for each process that an interrupt took out of the wait for BINARY. */
  lemma ShutdownAccounting(roles: seq<Role>, actions: seq<Action>)
    requires forall i :: 0 <= i < |actions| ==> !actions[i].Kill?
    requires AllGone(Run(Init(roles), actions))
    ensures var s := Run(Init(roles), actions);
            && s.binary == 1
            && s.empty + s.full + s.interrupted == 32
            && (s.empty + s.full == 32 <==> s.interrupted == 0)
  {
    var s := Run(Init(roles), actions);
    NoKillIsClean(roles, actions);
    Conservation(s);
    CountZero(s.procs, Inside);
    CountSplit(s.procs, HoldsEmpty, HoldsFull, Lost);
  }

  lemma RunCons(s: State, a: Action, rest: seq<Action>)
    ensures Run(s, [a] + rest) == Run(Apply(s, a), rest)
  {
    assert ([a] + rest)[1..] == rest;
  }

  ghost function StepsToLeave(pc: PosixBuffer.Pc): nat {
    match pc
    case TestFlag => 0
    case PostSecond => 1
    case Body(at) =>
      (match at
       case Store => 7
       case Get => 7
       case Advance => 6
       case BumpLetter => 5
       case WrapLetter => 4
       case WrapPointer => 3
       case Finished => 2)
    case WaitBinary => 8
    case WaitFirst => 9
  }

  /** A process inside whose flag has been cleared leaves by its own steps alone. */
  lemma {:induction false} Leaves(s: State, k: nat) returns (actions: seq<Action>)
    requires k < |s.procs| && s.procs[k].running && !s.procs[k].flag
    requires s.procs[k].pc.TestFlag? || s.procs[k].pc.PostSecond? || s.procs[k].pc.Body?
    ensures forall i :: 0 <= i < |actions| ==> actions[i].Step?
    ensures |Run(s, actions).procs| == |s.procs| && !Run(s, actions).procs[k].running
    ensures forall j :: 0 <= j < |s.procs| && j != k ==> Run(s, actions).procs[j] == s.procs[j]
    ensures Run(s, actions).interrupted == s.interrupted
    decreases StepsToLeave(s.procs[k].pc)
  {
    var t := Apply(s, Step(k));
    var rest: seq<Action> := [];
    if !s.procs[k].pc.TestFlag? {
      rest := Leaves(t, k);
    }
    actions := [Step(k)] + rest;
    RunCons(s, Step(k), rest);
  }

  lemma {:induction false} RunSnoc(s: State, actions: seq<Action>, a: Action)
    ensures Run(s, actions + [a]) == Apply(Run(s, actions), a)
    decreases |actions|
  {
    if actions == [] {
      assert [] + [a] == [a] && [a][1..] == [];
    } else {
      assert (actions + [a])[1..] == actions[1..] + [a];
      RunSnoc(Apply(s, actions[0]), actions[1..], a);
    }
  }

  lemma {:induction false} RunSplit(s: State, xs: seq<Action>, ys: seq<Action>)
    ensures Run(s, xs + ys) == Run(Run(s, xs), ys)
    decreases |xs|
  {
    if xs == [] {
      assert xs + ys == ys;
    } else {
      assert (xs + ys)[1..] == xs[1..] + ys;
      RunSplit(Apply(s, xs[0]), xs[1..], ys);
    }
  }

  /** A producer has gone inside by three steps. */
  lemma FirstGoesIn(roles: seq<Role>) returns (actions: seq<Action>, s: State)
    requires |roles| > 0 && roles[0].Producer?
    ensures s == Run(Init(roles), actions) && forall i :: 0 <= i < |actions| ==> actions[i] == Step(0)
    ensures s.empty == ELEMENTS - 1 && s.full == 0 && s.binary == 0 && s.interrupted == 0
    ensures s.procs == Init(roles).procs[0 := Proc(Producer, Body(Store), true, true, false)]
  {
    actions := [Step(0), Step(0), Step(0)];
    var s0 := Init(roles);
    RunSnoc(s0, [], Step(0));
    RunSnoc(s0, [Step(0)], Step(0));
    RunSnoc(s0, [Step(0), Step(0)], Step(0));
    assert [] + [Step(0)] == [Step(0)];
    assert [Step(0)] + [Step(0)] == [Step(0), Step(0)];
    assert [Step(0), Step(0)] + [Step(0)] == actions;
    s := Run(s0, actions);
  }

  /** Such a loss does happen: of two producers one is inside when the other, asleep behind it with a
      unit of EMPTY, is interrupted. When both have left only 31 units are there. */
  lemma UnitCanBeLost() returns (roles: seq<Role>, actions: seq<Action>)
    ensures forall i :: 0 <= i < |actions| ==> !actions[i].Kill?
    ensures AllGone(Run(Init(roles), actions))
    ensures Run(Init(roles), actions).empty + Run(Init(roles), actions).full == 31
  {
    roles := [Producer, Producer];
    var go, s := FirstGoesIn(roles);
    var rest := InterruptSecond(s);
    actions := go + rest;
    RunSplit(Init(roles), go, rest);
    ShutdownAccounting(roles, actions);
  }

  lemma InterruptSecond(s: State) returns (actions: seq<Action>)
    requires s.binary == 0 && s.empty > 0 && s.interrupted == 0 && |s.procs| == 2
    requires s.procs[0] == Proc(Producer, Body(Store), true, true, false)
    requires s.procs[1] == Proc(Producer, TestFlag, true, true, false)
    ensures forall i :: 0 <= i < |actions| ==> !actions[i].Kill?
    ensures Run(s, actions).interrupted == 1 && AllGone(Run(s, actions))
  {
    var s1 := Apply(s, Step(1));
    var s2 := Apply(s1, Step(1));
    var s3 := Apply(s2, Sleep(1));
    var s4 := Apply(s3, Eintr(1));
    var s5 := Apply(s4, Sigint(0));
    assert s5.procs[0] == Proc(Producer, Body(Store), false, true, false);
    var rest := Leaves(s5, 0);
    RunCons(s4, Sigint(0), rest);
    RunCons(s3, Eintr(1), [Sigint(0)] + rest);
    RunCons(s2, Sleep(1), [Eintr(1)] + ([Sigint(0)] + rest));
    RunCons(s1, Step(1), [Sleep(1)] + ([Eintr(1)] + ([Sigint(0)] + rest)));
    RunCons(s, Step(1), [Step(1)] + ([Sleep(1)] + ([Eintr(1)] + ([Sigint(0)] + rest))));
    actions := [Step(1)] + ([Step(1)] + ([Sleep(1)] + ([Eintr(1)] + ([Sigint(0)] + rest))));
  }

  // ---------- Deadlock ----------

  /** Nobody who is still running can take a step. */
  ghost predicate Stuck(s: State) {
    forall k :: 0 <= k < |s.procs| && s.procs[k].running ==> WouldBlock(s, s.procs[k])
  }

  ghost predicate AllAtWaits(s: State) {
    forall k :: 0 <= k < |s.procs| && s.procs[k].running ==> AtWait(s.procs[k])
  }

  ghost predicate AllAtFirstDoor(s: State) {
    forall k :: 0 <= k < |s.procs| && s.procs[k].running ==> s.procs[k].pc.WaitFirst?
  }

  ghost predicate DiedInside(s: State) {
    exists k :: 0 <= k < |s.procs| && !s.procs[k].running && Inside(s.procs[k])
  }

  /** Whoever waits for a first unit finds none. */
  ghost predicate FirstDry(s: State) {
    forall k :: 0 <= k < |s.procs| && s.procs[k].running && s.procs[k].pc.WaitFirst? ==>
      (if s.procs[k].role.Producer? then s.empty else s.full) == 0
  }

  /** Dead with a unit in hand: before BINARY, or before the second post. */
  predicate DeadHolder(p: Proc) { !p.running && (p.pc.WaitBinary? || p.pc.PostSecond?) }

  /** Deaths at any point included, and whoever is still running: the program is stuck exactly when all who
      run are in a wait, those who want a first unit find none, and somebody died inside or nobody has got
      further than the first wait. In that last case the dead hold what is missing from the 32 units. */
  lemma StuckIff(s: State)
    requires Reachable(s)
    ensures Stuck(s) <==> AllAtWaits(s) && FirstDry(s) && (DiedInside(s) || AllAtFirstDoor(s))
    ensures !DiedInside(s) && AllAtFirstDoor(s) ==> s.empty + s.full + Count(s.procs, DeadHolder) == ELEMENTS
  {
    Conservation(s);
    CountZero(s.procs, Inside);
    if AllAtWaits(s) && !DiedInside(s) {
      forall k | 0 <= k < |s.procs| ensures !Inside(s.procs[k]) {
        assert s.procs[k].running ==> AtWait(s.procs[k]);
      }
      if AllAtFirstDoor(s) { CountSplit(s.procs, HoldsEmpty, HoldsFull, DeadHolder); }
    }
    if Stuck(s) { assert AllAtWaits(s); }
  }

  /** With a producer and a consumer still running: either somebody died inside, or the dead hold all 32
      units. This covers states in which several processes hold a unit and wait for BINARY. */
  lemma StuckWithBothIff(s: State, i: nat, j: nat)
    requires Reachable(s) && i < |s.procs| && j < |s.procs|
    requires s.procs[i].running && s.procs[i].role.Producer? && s.procs[j].running && s.procs[j].role.Consumer?
    ensures Stuck(s) <==>
            && AllAtWaits(s)
            && (if DiedInside(s) then FirstDry(s) else AllAtFirstDoor(s) && Count(s.procs, DeadHolder) == ELEMENTS)
  {
    StuckIff(s);
    if !DiedInside(s) && AllAtFirstDoor(s) {
      assert s.procs[i].pc.WaitFirst? && s.procs[j].pc.WaitFirst?;
    }
  }

  /** With nobody dead beyond the waits that leaves one way: all 32 units went with processes that left
      the wait for BINARY. */
  lemma StuckAtDoorsIff(s: State, i: nat, j: nat)
    requires Reachable(s) && LeftAtDoors(s) && i < |s.procs| && j < |s.procs|
    requires s.procs[i].running && s.procs[i].role.Producer? && s.procs[j].running && s.procs[j].role.Consumer?
    ensures Stuck(s) <==> Count(s.procs, Lost) == ELEMENTS && AllAtFirstDoor(s)
  {
    StuckWithBothIff(s, i, j);
    assert forall k :: 0 <= k < |s.procs| ==> DeadHolder(s.procs[k]) == Lost(s.procs[k]);
    CountBelow(s.procs, DeadHolder, Lost);
    CountBelow(s.procs, Lost, DeadHolder);
  }

  /** Without kills some process can take a step as long as a producer and a consumer are still running,
      however many others have been interrupted. */
  lemma NoDeadlock(roles: seq<Role>, actions: seq<Action>, i: nat, j: nat)
    requires forall a :: 0 <= a < |actions| ==> !actions[a].Kill?
    requires var s := Run(Init(roles), actions);
      && i < |s.procs| && j < |s.procs|
      && s.procs[i].running && s.procs[i].role.Producer? && s.procs[j].running && s.procs[j].role.Consumer?
    ensures exists k: nat :: Enabled(Run(Init(roles), actions), Step(k))
  {
    var s := Run(Init(roles), actions);
    NoKillIsClean(roles, actions);
    LossIsBounded(roles, actions);
    StuckAtDoorsIff(s, i, j);
    var k :| 0 <= k < |s.procs| && s.procs[k].running && !WouldBlock(s, s.procs[k]);
    assert Enabled(s, Step(k));
  }

  /** Without kills it can still hang, when SIGINT comes at the wrong time: the consumer has tested its flag and
      waits for a letter, and the only producer leaves by its own. */
  lemma ShutdownCanHang() returns (roles: seq<Role>, actions: seq<Action>)
    ensures forall a :: 0 <= a < |actions| ==> actions[a].Step? || actions[a].Sigint?
    ensures var s := Run(Init(roles), actions);
            && Stuck(s) && |s.procs| == 2 && !s.procs[0].running
            && s.procs[1].running && !s.procs[1].flag && s.procs[1].role.Consumer?
  {
    roles := [Producer, Consumer];
    var s0 := Init(roles);
    assert s0 == Run(s0, []);
    var s1 := Apply(s0, Step(1));
    var s2 := Apply(s1, Sigint(1));
    var s3 := Apply(s2, Sigint(0));
    var s := Apply(s3, Step(0));
    RunSnoc(s0, [], Step(1));
    RunSnoc(s0, [] + [Step(1)], Sigint(1));
    RunSnoc(s0, [] + [Step(1)] + [Sigint(1)], Sigint(0));
    RunSnoc(s0, [] + [Step(1)] + [Sigint(1)] + [Sigint(0)], Step(0));
    actions := [] + [Step(1)] + [Sigint(1)] + [Sigint(0)] + [Step(0)];
    assert s.procs == [Proc(Producer, TestFlag, false, false, false), Proc(Consumer, WaitFirst, false, true, false)];
    assert s.full == 0;
  }

  /** With kills it does get stuck: a producer dies inside, another waits behind it, and there is nothing to read. */
  lemma StuckIsReached() returns (roles: seq<Role>, actions: seq<Action>)
    ensures var s := Run(Init(roles), actions);
            && Reachable(s) && Stuck(s) && |s.procs| == 3
            && s.procs[1].running && s.procs[1].role.Producer? && s.procs[2].running && s.procs[2].role.Consumer?
  {
    roles := [Producer, Producer, Consumer];
    var go, s := FirstGoesIn(roles);
    var s1 := Apply(s, Kill(0));
    var s2 := Apply(s1, Step(1));
    var s3 := Apply(s2, Step(1));
    var s4 := Apply(s3, Step(2));
    assert s4.procs == [Proc(Producer, Body(Store), false, false, false), Proc(Producer, WaitBinary, true, true, false),
                        Proc(Consumer, WaitFirst, true, true, false)];
    RunSnoc(Init(roles), go, Kill(0));
    RunSnoc(Init(roles), go + [Kill(0)], Step(1));
    RunSnoc(Init(roles), go + [Kill(0)] + [Step(1)], Step(1));
    RunSnoc(Init(roles), go + [Kill(0)] + [Step(1)] + [Step(1)], Step(2));
    actions := go + [Kill(0)] + [Step(1)] + [Step(1)] + [Step(2)];
  }
}
