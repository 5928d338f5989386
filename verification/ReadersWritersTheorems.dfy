/** What holds in every run of writer_reader.c, with kills and interrupts at any point. */
module ReadersWritersTheorems {
  import opened Common
  import opened Semaphores
  import opened ReadersWriters

  /** The two active semaphores count exactly who is inside, alive or dead; one writer alone, or readers only. */
  lemma Exclusion(s: State)
    requires Reachable(s)
    ensures |s.sems| == 4
    ensures s.sems[ACTIVE_WRITER] == Count(s.procs, WriterInside) <= 1
    ensures s.sems[ACTIVE_READERS] == Count(s.procs, ReaderInside)
    ensures forall j, k :: 0 <= j < |s.procs| && 0 <= k < |s.procs| && WriterInside(s.procs[j]) && Inside(s.procs[k])
                           ==> j == k
    ensures s.sems[WRITE_QUEUE] == 0 && s.sems[READ_QUEUE] == 0
  {
    ReachableInv(s);
    forall j, k | 0 <= j < |s.procs| && 0 <= k < |s.procs| && WriterInside(s.procs[j]) && Inside(s.procs[k])
      ensures j == k
    {
      WriterIsAlone(s, j);
    }
  }

  /** Every reader prints the letter after a whole number of writes, never the 'z' + 1 in between; and
      later readers never see an older letter. */
  lemma ReadersSeeWholeWrites(s: State, i: nat, j: nat)
    requires Reachable(s) && i <= j < |s.log|
    ensures s.log[i].letter == 'a' as int + s.log[i].writes % 26 <= 'z' as int
    ensures s.log[i].writes <= s.log[j].writes <= s.writes
  {
    ReachableInv(s);
  }

  /** With a reader about to print, the shared letter belongs to the number of complete writes. */
  lemma LetterIsStableForReaders(s: State, k: nat)
    requires Reachable(s) && k < |s.procs| && s.procs[k].pc.Print?
    ensures s.letter == 'a' as int + s.writes % 26
  {
    ReachableInv(s);
    assert ReaderInside(s.procs[k]);
    ReaderExcludesWriters(s, k);
    forall j | 0 <= j < |s.procs| ensures !s.procs[j].pc.Wrap? {
      assert !WriterInside(s.procs[j]);
    }
  }

  // ---------- Entry ----------

  /** In every reachable state a reader gets in exactly when no writer is inside, and a writer exactly
      when nobody is; the operations on the two queue semaphores never make a difference. */
  lemma EntryIff(s: State, k: nat)
    requires Reachable(s) && k < |s.procs| && s.procs[k].pc.Enter?
    ensures |s.sems| == 4
    ensures s.procs[k].role.Reader? ==> (WouldBlock(s, s.procs[k]) <==> Count(s.procs, WriterInside) > 0)
    ensures s.procs[k].role.Writer? ==> (WouldBlock(s, s.procs[k]) <==> Count(s.procs, Inside) > 0)
  {
    ReachableInv(s);
    StartReadMeaning(s.sems, START_READ);
    StartWriteMeaning(s.sems, START_WRITE);
    CountSplit(s.procs, WriterInside, ReaderInside, Inside);
  }

  /** Nobody who is still running can take a step. */
  ghost predicate Stuck(s: State)
    requires |s.sems| == 4
  {
    forall k :: 0 <= k < |s.procs| && s.procs[k].running ==> WouldBlock(s, s.procs[k])
  }

  ghost predicate DiedInside(s: State, role: Role) {
    exists k :: 0 <= k < |s.procs| && !s.procs[k].running && s.procs[k].role == role && Inside(s.procs[k])
  }

  ghost predicate AllWantIn(s: State) {
    forall k :: 0 <= k < |s.procs| && s.procs[k].running ==> s.procs[k].pc.Enter?
  }

  ghost predicate OnlyWritersRun(s: State) {
    forall k :: 0 <= k < |s.procs| && s.procs[k].running ==> s.procs[k].role.Writer?
  }

  /** While somebody is running, the program is stuck exactly when all of them want to enter and a
      writer died inside, or a reader did and only writers are left. */
  lemma StuckIff(s: State, i: nat)
    requires Reachable(s) && i < |s.procs| && s.procs[i].running
    ensures |s.sems| == 4
    ensures Stuck(s) <==> AllWantIn(s) && (DiedInside(s, Writer) || (DiedInside(s, Reader) && OnlyWritersRun(s)))
  {
    ReachableInv(s);
    CountZero(s.procs, WriterInside);
    CountZero(s.procs, Inside);
    if Stuck(s) {
      forall k | 0 <= k < |s.procs| && s.procs[k].running ensures s.procs[k].pc.Enter? {
        assert WouldBlock(s, s.procs[k]);
        if s.procs[k].pc.Leave? { LeaveSem(s, k); }
      }
      EntryIff(s, i);
      assert WouldBlock(s, s.procs[i]);
      if !OnlyWritersRun(s) {
        var r :| 0 <= r < |s.procs| && s.procs[r].running && s.procs[r].role.Reader?;
        assert WouldBlock(s, s.procs[r]);
        EntryIff(s, r);
      }
    } else {
      var k :| 0 <= k < |s.procs| && s.procs[k].running && !WouldBlock(s, s.procs[k]);
      if s.procs[k].pc.Enter? { EntryIff(s, k); }
    }
  }

  // ---------- Shutdown ----------

  ghost predicate AllGone(s: State) {
    forall k :: 0 <= k < |s.procs| ==> !s.procs[k].running
  }

  /** When all have left, the four semaphores are all 0 exactly when nobody died inside. */
  lemma ShutdownIff(s: State)
    requires Reachable(s) && AllGone(s)
    ensures s.sems == [0, 0, 0, 0] <==> !DiedInside(s, Reader) && !DiedInside(s, Writer)
  {
    ReachableInv(s);
    CountZero(s.procs, WriterInside);
    CountZero(s.procs, ReaderInside);
  }

  ghost predicate LeftOutside(s: State) {
    forall k :: 0 <= k < |s.procs| && !s.procs[k].running ==> !Inside(s.procs[k])
  }

  lemma ApplyLeavesOutside(s: State, a: Action)
    requires Inv(s) && LeftOutside(s) && !a.Kill?
    ensures LeftOutside(Apply(s, a))
  {
    if Enabled(s, a) && s.procs[a.proc].pc.Leave? { LeaveSem(s, a.proc); }
  }

  lemma {:induction false} NoKillNoDeathInside(s: State, actions: seq<Action>)
    requires Inv(s) && LeftOutside(s) && forall a :: 0 <= a < |actions| ==> !actions[a].Kill?
    ensures LeftOutside(Run(s, actions))
    decreases |actions|
  {
    if actions == [] {
    } else {
      var a := actions[0];
      ApplyLeavesOutside(s, a);
      ApplyKeepsInv(s, a);
      NoKillNoDeathInside(Apply(s, a), actions[1..]);
    }
  }

  /** Leaving by the flag or by EINTR, without kills, leaves all four semaphores at 0. */
  lemma {:induction false} CleanShutdown(roles: seq<Role>, actions: seq<Action>)
    requires forall a :: 0 <= a < |actions| ==> !actions[a].Kill?
    requires AllGone(Run(Init(roles), actions))
    ensures Run(Init(roles), actions).sems == [0, 0, 0, 0]
  {
    InitInv(roles);
    NoKillNoDeathInside(Init(roles), actions);
    ShutdownIff(Run(Init(roles), actions));
  }

  // ---------- Being stuck does happen ----------

  lemma {:induction false} RunSnoc(s: State, actions: seq<Action>, a: Action)
    requires |s.sems| == 4
    ensures Run(s, actions + [a]) == Apply(Run(s, actions), a)
    decreases |actions|
  {
    if actions == [] {
      assert [] + [a] == [a] && [a][1..] == [];
    } else {
      assert (actions + [a])[1..] == actions[1..] + [a];
      RunSnoc(Apply(s, actions[0]), actions[1..], a);
    }
  }

  lemma ReachableNext(s: State, a: Action)
    requires Reachable(s)
    ensures |s.sems| == 4 && Reachable(Apply(s, a))
  {
    ReachableInv(s);
    var roles: seq<Role>, actions: seq<Action> :| s == Run(Init(roles), actions);
    RunSnoc(Init(roles), actions, a);
  }

  lemma InitReachable(roles: seq<Role>)
    ensures Reachable(Init(roles))
  {
    assert Init(roles) == Run(Init(roles), []);
  }

  lemma FlagStep(s: State, k: nat, p: Proc)
    requires |s.sems| == 4 && k < |s.procs| && s.procs[k] == p && p == Proc(p.role, TestFlag, true, true)
    ensures Apply(s, Step(k)) == Put(s, k, p.(pc := Enter))
  {
  }

  lemma KillStep(s: State, k: nat)
    requires |s.sems| == 4 && k < |s.procs| && s.procs[k].running
    ensures Apply(s, Kill(k)) == Put(s, k, Gone(s.procs[k]))
  {
  }

  /** A reader enters. */
  lemma ReaderEnters(s: State, k: nat) returns (t: State)
    requires |s.sems| == 4 && s.sems[WRITE_QUEUE] == 0 && s.sems[ACTIVE_WRITER] == 0 && k < |s.procs|
    requires s.procs[k] == Proc(Reader, Enter, true, true)
    ensures t == Apply(s, Step(k)) == s.(sems := s.sems[ACTIVE_READERS := s.sems[ACTIVE_READERS] + 1],
                                         procs := s.procs[k := Proc(Reader, Print, true, true)])
  {
    StartReadMeaning(s.sems, StartGroup(Reader));
    t := Apply(s, Step(k));
  }

  lemma ReaderDies(s0: State) returns (s: State)
    requires Reachable(s0) && s0.sems == [0, 0, 0, 0]
    requires s0.procs == [Proc(Writer, TestFlag, true, true), Proc(Reader, TestFlag, true, true)]
    ensures Reachable(s)
    ensures s.procs == [Proc(Writer, Enter, true, true), Proc(Reader, Print, false, false)]
  {
    FlagStep(s0, 0, s0.procs[0]);
    ReachableNext(s0, Step(0));
    var s1 := Apply(s0, Step(0));
    FlagStep(s1, 1, s1.procs[1]);
    ReachableNext(s1, Step(1));
    var s2 := Apply(s1, Step(1));
    var s3 := ReaderEnters(s2, 1);
    ReachableNext(s2, Step(1));
    KillStep(s3, 1);
    ReachableNext(s3, Kill(1));
    s := Apply(s3, Kill(1));
  }

  /** So the program does get stuck: a reader that is killed while it prints keeps the only writer out. */
  lemma StuckIsReached() returns (s: State)
    ensures Reachable(s) && |s.sems| == 4 && Stuck(s)
    ensures |s.procs| == 2 && s.procs[0].running && s.procs[0].role.Writer?
  {
    InitReachable([Writer, Reader]);
    s := ReaderDies(Init([Writer, Reader]));
    assert !s.procs[1].running && Inside(s.procs[1]);
    StuckIff(s, 0);
  }
}
