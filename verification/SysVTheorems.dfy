/** What holds in every run of prod_cons.c, with kills and interrupts at any point. */
module SysVTheorems {
  import opened Common
  import opened RingBody
  import opened SysVBuffer

  /** Units are conserved: a process inside, alive or dead, accounts for exactly one unit of EMPTY or
      FULL and for BINARY. So at most one process is inside. */
  lemma Conservation(s: State)
    requires Reachable(s)
    ensures |s.sems| == 3
    ensures s.sems[EMPTY] + s.sems[FULL] + Count(s.procs, Inside) == 32
    ensures s.sems[BINARY] + Count(s.procs, Inside) == 1
    ensures forall j, k :: 0 <= j < |s.procs| && 0 <= k < |s.procs| && Inside(s.procs[j]) && Inside(s.procs[k])
                           ==> j == k
  {
    ReachableInv(s);
    forall j, k | 0 <= j < |s.procs| && 0 <= k < |s.procs| && Inside(s.procs[j]) && Inside(s.procs[k])
      ensures j == k
    {
      OnlyInsider(s, k);
    }
  }

  /** Some phase of the section describes the memory. */
  lemma SomePhase(s: State) returns (role: Role, pc: RingBody.Pc)
    requires Inv(s)
    ensures Consistent(s.ring, role, pc)
  {
    if k :| 0 <= k < |s.procs| && Inside(s.procs[k]) {
      role, pc := s.procs[k].role, s.procs[k].pc.at;
    } else {
      role, pc := Producer, Finished;
    }
  }

  /** End to end: what has been consumed is a prefix of what has been produced, and the letter read at
      position n is 'a' + n mod 26, however often the ring has wrapped. */
  lemma ConsumedInOrder(s: State)
    requires Reachable(s)
    ensures s.ring.consumed <= s.ring.produced
    ensures forall n :: 0 <= n < |s.ring.produced| ==> s.ring.produced[n] == 'a' as int + n % 26 <= 'z' as int
    ensures forall n :: 0 <= n < |s.ring.consumed| ==> s.ring.consumed[n] == 'a' as int + n % 26 <= 'z' as int
  {
    ReachableInv(s);
    var role, pc := SomePhase(s);
  }

  /** The first n letters that a reader finds from consumep on, going round the ring. */
  ghost function FromSlots(r: Ring, n: nat): seq<int>
    requires |r.buf| == ELEMENTS
  {
    seq(n, i requires 0 <= i < n => r.buf[(r.consumep + i) % ELEMENTS])
  }

  lemma SlotsAreUnread(r: Ring)
    requires Consistent(r, Producer, Finished)
    ensures FromSlots(r, |r.produced| - |r.consumed|) == r.produced[|r.consumed|..]
    ensures r.producep == (r.consumep + |r.produced| - |r.consumed|) % ELEMENTS
  {
    var put, got := |r.produced|, |r.consumed|;
    var slots := FromSlots(r, put - got);
    forall i | 0 <= i < put - got ensures slots[i] == r.produced[got..][i] {
      SlotShift(got, i);
      assert r.buf[(got + i) % ELEMENTS] == r.produced[got + i];
    }
    SlotShift(got, put - got);
  }

  lemma SlotShift(got: nat, i: nat)
    ensures (got % ELEMENTS + i) % ELEMENTS == (got + i) % ELEMENTS
  {
    var r := (got % ELEMENTS + i) % ELEMENTS;
    ModUnique(got + i, ELEMENTS, got / ELEMENTS + (got % ELEMENTS + i) / ELEMENTS, r);
  }

  /** With nobody inside, both pointers are in the ring, FULL counts the unread letters, and the
      slots from consumep on hold exactly these, in order. */
  lemma RingAtRest(s: State)
    requires Reachable(s) && forall k :: 0 <= k < |s.procs| ==> !Inside(s.procs[k])
    ensures |s.sems| == 3 && |s.ring.buf| == ELEMENTS
    ensures s.ring.producep < ELEMENTS && s.ring.consumep < ELEMENTS
    ensures |s.ring.produced| == |s.ring.consumed| + s.sems[FULL]
    ensures s.ring.producep == (s.ring.consumep + s.sems[FULL]) % ELEMENTS
    ensures FromSlots(s.ring, s.sems[FULL]) == s.ring.produced[|s.ring.consumed|..]
  {
    ReachableInv(s);
    CountZero(s.procs, Inside);
    CountZero(s.procs, Pending);
    SlotsAreUnread(s.ring);
  }

  /** A process about to store has a free slot in the ring in front of it, and one about to read has
      the oldest unread letter in front of it, even if others have died at any point. */
  lemma AccessesAreSafe(s: State, k: nat)
    requires Reachable(s) && k < |s.procs| && Inside(s.procs[k])
    ensures s.procs[k].pc.at.Store? ==>
              && s.ring.producep < ELEMENTS
              && forall n :: |s.ring.consumed| <= n < |s.ring.produced| ==> n % ELEMENTS != s.ring.producep
    ensures s.procs[k].pc.at.Get? ==>
              && s.ring.consumep < |s.ring.buf| && |s.ring.consumed| < |s.ring.produced|
              && s.ring.buf[s.ring.consumep] == s.ring.produced[|s.ring.consumed|]
  {
    ReachableInv(s);
    InsiderHasRoom(s, k);
    PointersInRing(s.ring, s.procs[k].role, s.procs[k].pc.at);
  }

  // ---------- Deadlock ----------

  /** Nobody who is still running can take a step. */
  ghost predicate Stuck(s: State)
    requires |s.sems| == 3
  {
    forall k :: 0 <= k < |s.procs| && s.procs[k].running ==> WouldBlock(s, s.procs[k])
  }

  ghost predicate DiedInside(s: State) {
    exists k :: 0 <= k < |s.procs| && !s.procs[k].running && Inside(s.procs[k])
  }

  ghost predicate AllWantIn(s: State) {
    forall k :: 0 <= k < |s.procs| && s.procs[k].running ==> s.procs[k].pc.Enter?
  }

  ghost predicate OnlyRun(s: State, role: Role) {
    forall k :: 0 <= k < |s.procs| && s.procs[k].running ==> s.procs[k].role == role
  }

  /** All who run are of one role and want in, and the ring has nothing for them. */
  ghost predicate Hangs(s: State) {
    && AllWantIn(s)
    && ((OnlyRun(s, Producer) && |s.ring.produced| == |s.ring.consumed| + ELEMENTS)
        || (OnlyRun(s, Consumer) && |s.ring.produced| == |s.ring.consumed|))
  }

  lemma EntryBlockedIff(s: State, k: nat)
    requires |s.sems| == 3 && k < |s.procs| && s.procs[k].pc.Enter?
    ensures WouldBlock(s, s.procs[k]) <==>
            s.sems[BINARY] == 0 || s.sems[if s.procs[k].role.Producer? then EMPTY else FULL] == 0
  {
    StartMeaning(s.sems, s.procs[k].role, StartGroup(s.procs[k].role));
  }

  /** With nobody inside, dead or alive, EMPTY and FULL say how many letters are unread. */
  lemma NobodyInsideCounts(s: State)
    requires Inv(s) && AllWantIn(s) && !DiedInside(s)
    ensures s.sems[BINARY] == 1 && s.sems[FULL] == |s.ring.produced| - |s.ring.consumed|
    ensures s.sems[EMPTY] == ELEMENTS - s.sems[FULL]
  {
    CountZero(s.procs, Inside);
    CountZero(s.procs, Pending);
  }

  /** As long as somebody is running, deaths at any point included, the program is stuck exactly when all
      want in and somebody died inside, or only producers run and the ring is full of unread letters, or
      only consumers do and there is none. */
  lemma StuckIff(s: State, i: nat)
    requires Reachable(s) && i < |s.procs| && s.procs[i].running
    ensures |s.sems| == 3
    ensures Stuck(s) <==> AllWantIn(s) && (DiedInside(s) || Hangs(s))
  {
    ReachableInv(s);
    forall k | 0 <= k < |s.procs| && s.procs[k].pc.Enter?
      ensures WouldBlock(s, s.procs[k]) <==>
              s.sems[BINARY] == 0 || s.sems[if s.procs[k].role.Producer? then EMPTY else FULL] == 0
    {
      EntryBlockedIff(s, k);
    }
    if AllWantIn(s) && !DiedInside(s) { NobodyInsideCounts(s); }
    if DiedInside(s) {
      var d :| 0 <= d < |s.procs| && !s.procs[d].running && Inside(s.procs[d]);
      OnlyInsider(s, d);
    }
    if Stuck(s) && !DiedInside(s) { OneRoleRuns(s, i); }
  }

  lemma OneRoleRuns(s: State, i: nat)
    requires Inv(s) && Stuck(s) && !DiedInside(s) && i < |s.procs| && s.procs[i].running
    ensures OnlyRun(s, s.procs[i].role)
  {
    assert AllWantIn(s);
    NobodyInsideCounts(s);
    forall k | 0 <= k < |s.procs| && s.procs[k].running ensures s.procs[k].role == s.procs[i].role {
      EntryBlockedIff(s, k);
      EntryBlockedIff(s, i);
    }
  }

  /** With a producer and a consumer still running only a death inside is left. */
  lemma StuckWithBothIff(s: State, i: nat, j: nat)
    requires Reachable(s) && i < |s.procs| && j < |s.procs|
    requires s.procs[i].running && s.procs[i].role.Producer? && s.procs[j].running && s.procs[j].role.Consumer?
    ensures |s.sems| == 3
    ensures Stuck(s) <==> DiedInside(s) && AllWantIn(s)
  {
    StuckIff(s, i);
  }

  lemma {:induction false} RunSnoc(s: State, actions: seq<Action>, a: Action)
    requires |s.sems| == 3
    ensures Run(s, actions + [a]) == Apply(Run(s, actions), a)
    decreases |actions|
  {
    if actions == [] {
      assert [] + [a] == [a] && [a][1..] == [];
    } else {
      assert (actions + [a])[1..] == actions[1..] + [a];
      RunSnoc(Apply(s, actions[0]), actions[1..], a);
    }
  }

  lemma ReachableNext(s: State, a: Action)
    requires Reachable(s)
    ensures |s.sems| == 3 && Reachable(Apply(s, a))
  {
    ReachableInv(s);
    var roles: seq<Role>, actions: seq<Action> :| s == Run(Init(roles), actions);
    RunSnoc(Init(roles), actions, a);
  }

  lemma FlagStep(s: State, k: nat, p: Proc)
    requires |s.sems| == 3 && k < |s.procs| && s.procs[k] == p && p == Proc(p.role, TestFlag, true, true)
    ensures Apply(s, Step(k)) == Put(s, k, p.(pc := Enter))
  {
  }

  lemma EnterStep(s: State, k: nat)
    requires |s.sems| == 3 && k < |s.procs| && s.procs[k] == Proc(Producer, Enter, true, true)
    requires s.sems[EMPTY] > 0 && s.sems[BINARY] > 0
    ensures Apply(s, Step(k)).procs == s.procs[k := Proc(Producer, Body(Store), true, true)]
  {
    StartMeaning(s.sems, Producer, StartGroup(Producer));
  }

  lemma KillStep(s: State, k: nat)
    requires |s.sems| == 3 && k < |s.procs| && s.procs[k].running
    ensures Apply(s, Kill(k)) == Put(s, k, Gone(s.procs[k]))
  {
  }

  /** A producer enters and is killed, another and a consumer want in. */
  lemma FiveActions(s0: State) returns (s: State)
    requires Reachable(s0) && s0.sems == [ELEMENTS, 0, 1]
    requires s0.procs == [Proc(Producer, TestFlag, true, true), Proc(Producer, TestFlag, true, true),
                          Proc(Consumer, TestFlag, true, true)]
    ensures Reachable(s)
    ensures s.procs == [Proc(Producer, Body(Store), false, false), Proc(Producer, Enter, true, true),
                        Proc(Consumer, Enter, true, true)]
  {
    FlagStep(s0, 0, s0.procs[0]);
    ReachableNext(s0, Step(0));
    var s1 := Apply(s0, Step(0));
    EnterStep(s1, 0);
    ReachableNext(s1, Step(0));
    var s2 := Apply(s1, Step(0));
    KillStep(s2, 0);
    ReachableNext(s2, Kill(0));
    var s3 := Apply(s2, Kill(0));
    FlagStep(s3, 1, s3.procs[1]);
    ReachableNext(s3, Step(1));
    var s4 := Apply(s3, Step(1));
    FlagStep(s4, 2, s4.procs[2]);
    ReachableNext(s4, Step(2));
    s := Apply(s4, Step(2));
  }

  /** So the program does get stuck, and five actions are enough. */
  lemma StuckIsReached() returns (s: State)
    ensures Reachable(s) && |s.sems| == 3 && Stuck(s) && |s.procs| == 3
    ensures s.procs[1].running && s.procs[1].role.Producer? && s.procs[2].running && s.procs[2].role.Consumer?
  {
    var s0 := Init([Producer, Producer, Consumer]);
    assert s0 == Run(s0, []);
    s := FiveActions(s0);
    assert !s.procs[0].running && Inside(s.procs[0]);
    StuckWithBothIff(s, 1, 2);
  }

  /** And it hangs without any kill when SIGINT comes at the wrong time: the consumer has tested its flag and
      goes to sleep before the empty ring with its flag down, and the only producer leaves by its own. */
  lemma ShutdownCanHang() returns (roles: seq<Role>, actions: seq<Action>)
    ensures forall a :: 0 <= a < |actions| ==> actions[a].Step? || actions[a].Sigint?
    ensures var s := Run(Init(roles), actions);
            && Stuck(s) && |s.procs| == 2 && !s.procs[0].running
            && s.procs[1].running && !s.procs[1].flag && s.procs[1].role.Consumer?
  {
    roles := [Producer, Consumer];
    var s0 := Init(roles);
    assert s0 == Run(s0, []);
    FlagStep(s0, 1, s0.procs[1]);
    var s1 := Apply(s0, Step(1));
    var s2 := Apply(s1, Sigint(1));
    var s3 := Apply(s2, Sigint(0));
    var s := Apply(s3, Step(0));
    RunSnoc(s0, [], Step(1));
    RunSnoc(s0, [] + [Step(1)], Sigint(1));
    RunSnoc(s0, [] + [Step(1)] + [Sigint(1)], Sigint(0));
    RunSnoc(s0, [] + [Step(1)] + [Sigint(1)] + [Sigint(0)], Step(0));
    actions := [] + [Step(1)] + [Sigint(1)] + [Sigint(0)] + [Step(0)];
    assert s.procs == [Proc(Producer, TestFlag, false, false), Proc(Consumer, Enter, false, true)];
    EntryBlockedIff(s, 1);
  }

  /** Without kills and interrupts there is no deadlock, for any numbers of producers and consumers. */
  lemma NoDeadlock(roles: seq<Role>, actions: seq<Action>, i: nat, j: nat)
    requires i < |roles| && j < |roles| && roles[i].Producer? && roles[j].Consumer?
    requires forall a :: 0 <= a < |actions| ==> actions[a].Step?
    ensures exists k: nat :: Enabled(Run(Init(roles), actions), Step(k))
  {
    var s := Run(Init(roles), actions);
    StepsKeepRunning(Init(roles), actions);
    assert s.procs[i].running && s.procs[j].running;
    assert Reachable(s);
    StuckWithBothIff(s, i, j);
    var k :| 0 <= k < |s.procs| && !WouldBlock(s, s.procs[k]);
    assert Enabled(s, Step(k));
  }

  ghost predicate AllRunning(s: State) {
    forall k :: 0 <= k < |s.procs| ==> s.procs[k].running && s.procs[k].flag
  }

  lemma {:induction false} StepsKeepRunning(s: State, actions: seq<Action>)
    requires |s.sems| == 3 && AllRunning(s) && forall a :: 0 <= a < |actions| ==> actions[a].Step?
    ensures AllRunning(Run(s, actions)) && |Run(s, actions).procs| == |s.procs|
    ensures forall k :: 0 <= k < |s.procs| ==> Run(s, actions).procs[k].role == s.procs[k].role
    decreases |actions|
  {
    if actions == [] {
    } else {
      StepsKeepRunning(Apply(s, actions[0]), actions[1..]);
    }
  }

  // ---------- Shutdown ----------

  ghost predicate AllGone(s: State) {
    forall k :: 0 <= k < |s.procs| ==> !s.procs[k].running
  }

  /** When all children have left, BINARY is back at 1 exactly when none of them died inside; then all
      32 units are back and FULL is the number of letters put but not read. */
  lemma ShutdownIff(s: State)
    requires Reachable(s) && AllGone(s)
    ensures |s.sems| == 3
    ensures s.sems[BINARY] == 1 <==> !DiedInside(s)
    ensures s.sems[EMPTY] + s.sems[FULL] == ELEMENTS <==> !DiedInside(s)
    ensures !DiedInside(s) ==> s.sems[FULL] == |s.ring.produced| - |s.ring.consumed|
  {
    ReachableInv(s);
    CountZero(s.procs, Inside);
    CountZero(s.procs, Pending);
  }

  ghost predicate LeftOutside(s: State) {
    forall k :: 0 <= k < |s.procs| && !s.procs[k].running ==> !Inside(s.procs[k])
  }

  lemma {:induction false} NoKillNoDeathInside(s: State, actions: seq<Action>)
    requires |s.sems| == 3 && LeftOutside(s) && forall a :: 0 <= a < |actions| ==> !actions[a].Kill?
    ensures LeftOutside(Run(s, actions))
    decreases |actions|
  {
    if actions == [] {
    } else {
      NoKillNoDeathInside(Apply(s, actions[0]), actions[1..]);
    }
  }

  /** Leaving by the flag or by EINTR, without kills, never loses a unit. */
  lemma ShutdownAccounting(roles: seq<Role>, actions: seq<Action>)
    requires forall a :: 0 <= a < |actions| ==> !actions[a].Kill?
    requires AllGone(Run(Init(roles), actions))
    ensures var s := Run(Init(roles), actions);
            && s.sems[BINARY] == 1
            && s.sems[EMPTY] + s.sems[FULL] == ELEMENTS
            && s.sems[FULL] == |s.ring.produced| - |s.ring.consumed|
  {
    var s := Run(Init(roles), actions);
    assert Reachable(s);
    NoKillNoDeathInside(Init(roles), actions);
    ShutdownIff(s);
  }
}
