/** When a waiting writer can be kept out of writer_reader.c for ever: exactly when there are two readers. */
module ReadersWritersStarvation {
  import opened Common
  import opened ReadersWriters
  import opened ReadersWritersTheorems

  /** Writer w is running and blocked at its entry. */
  ghost predicate Held(s: State, w: nat)
    requires |s.sems| == 4
  {
    && w < |s.procs| && s.procs[w].running && s.procs[w].role.Writer? && s.procs[w].pc.Enter?
    && WouldBlock(s, s.procs[w])
  }

  /** Before each action of the run, writer w is blocked at its entry. */
  ghost predicate WriterWaits(s: State, w: nat, actions: seq<Action>)
    requires |s.sems| == 4
    decreases |actions|
  {
    actions == [] || (Held(s, w) && WriterWaits(Apply(s, actions[0]), w, actions[1..]))
  }

  // ---------- With one reader at most, hardly anybody gets past ----------

  ghost predicate TwoReaders(procs: seq<Proc>) {
    exists i, j :: 0 <= i < j < |procs| && procs[i].role.Reader? && procs[j].role.Reader?
  }

  /** Inside and not yet done with its letter. */
  predicate Busy(p: Proc) { p.pc.Print? || p.pc.Increment? || p.pc.Wrap? }

  /** Letters printed by readers, writes completed, and those under way. */
  ghost function Passages(s: State): nat { |s.log| + s.writes + Count(s.procs, Busy) }

  lemma OneBusy(s: State)
    requires SemInv(s) && !TwoReaders(s.procs)
    ensures Count(s.procs, Busy) <= 1
  {
    forall j, k | 0 <= j < k < |s.procs| ensures !(Busy(s.procs[j]) && Busy(s.procs[k])) {
      if Inside(s.procs[j]) && Inside(s.procs[k]) {
        if s.procs[j].role.Writer? { WriterIsAlone(s, j); }
        else if s.procs[k].role.Writer? { WriterIsAlone(s, k); }
      }
    }
    CountAtMostOne(s.procs, Busy);
  }

  /** While w is held and no two readers exist, everybody who wants in is held. */
  lemma AllHeld(s: State, w: nat, k: nat)
    requires SemInv(s) && Held(s, w) && !TwoReaders(s.procs) && k < |s.procs| && s.procs[k].pc.Enter?
    ensures WouldBlock(s, s.procs[k])
  {
    StartWriteMeaning(s.sems, StartGroup(Writer));
    StartReadMeaning(s.sems, StartGroup(Reader));
    if s.procs[k].role.Reader? {
      forall j | 0 <= j < |s.procs| ensures !ReaderInside(s.procs[j]) {
        assert !(j < k && s.procs[j].role.Reader?) && !(k < j && s.procs[j].role.Reader?);
      }
      CountZero(s.procs, ReaderInside);
    }
  }

  /** Then no action brings anybody new inside, so the passages that will ever be made do not become more. */
  lemma ActionAddsNone(s: State, w: nat, a: Action)
    requires Inv(s) && Held(s, w) && !TwoReaders(s.procs)
    ensures Passages(Apply(s, a)) <= Passages(s)
    ensures !TwoReaders(Apply(s, a).procs)
  {
    if Enabled(s, a) {
      var k, t := a.proc, Apply(s, a);
      if a.Step? && s.procs[k].pc.Enter? { AllHeld(s, w, k); }
      OneMoves(s, a);
      CountUpdate(s.procs, k, t.procs[k], Busy);
      assert forall j :: 0 <= j < |s.procs| ==> t.procs[j].role == s.procs[j].role;
    }
  }

  /** What an action does to the process it moves, and to the numbers of prints and writes. */
  lemma OneMoves(s: State, a: Action)
    requires |s.sems| == 4 && Enabled(s, a)
    ensures var t, k := Apply(s, a), a.proc;
            && t.procs == s.procs[k := t.procs[k]] && t.procs[k].role == s.procs[k].role
            && ((a.Step? && s.procs[k].pc.Enter?)
                || |t.log| + t.writes + One(Busy(t.procs[k])) == |s.log| + s.writes + One(Busy(s.procs[k])))
  {
  }

  lemma {:induction false} RunAddsNone(s: State, w: nat, actions: seq<Action>)
    requires Inv(s) && WriterWaits(s, w, actions) && !TwoReaders(s.procs)
    ensures Passages(Run(s, actions)) <= Passages(s)
    decreases |actions|
  {
    if actions == [] {
    } else {
      ActionAddsNone(s, w, actions[0]);
      ApplyKeepsInv(s, actions[0]);
      RunAddsNone(Apply(s, actions[0]), w, actions[1..]);
    }
  }

  /** With at most one reader in the table a writer that waits lets one other process past at most: from
      where it is blocked until it could enter, one letter is printed or one write completed, or neither.
      Kills and interrupts make no difference. */
  lemma AtMostOnePasses(s: State, w: nat, actions: seq<Action>)
    requires Reachable(s) && !TwoReaders(s.procs)
    ensures |s.sems| == 4
    ensures WriterWaits(s, w, actions) ==>
              |Run(s, actions).log| + Run(s, actions).writes <= |s.log| + s.writes + 1
  {
    ReachableInv(s);
    OneBusy(s);
    if WriterWaits(s, w, actions) { RunAddsNone(s, w, actions); }
  }

  // ---------- With two readers, any number of letters ----------

  lemma RunCons(s: State, a: Action, rest: seq<Action>)
    requires |s.sems| == 4
    ensures Run(s, [a] + rest) == Run(Apply(s, a), rest)
  {
    assert ([a] + rest)[1..] == rest;
  }

  /** Writer w waits; of two readers one is about to print and the other starts its loop. All the others
      may be anywhere. */
  ghost predicate Relay(s: State, w: nat, inside: nat, outside: nat) {
    && |s.sems| == 4 && s.sems[WRITE_QUEUE] == 0 && s.sems[ACTIVE_WRITER] == 0 && s.sems[ACTIVE_READERS] == 1
    && w < |s.procs| && inside < |s.procs| && outside < |s.procs| && inside != outside
    && s.procs[w] == Proc(Writer, Enter, true, true)
    && s.procs[inside] == Proc(Reader, Print, true, true)
    && s.procs[outside] == Proc(Reader, TestFlag, true, true)
  }

  lemma StaysHeld(s: State, w: nat)
    requires |s.sems| == 4 && s.sems[ACTIVE_READERS] > 0
    requires w < |s.procs| && s.procs[w] == Proc(Writer, Enter, true, true)
    ensures Held(s, w)
  {
    StartWriteMeaning(s.sems, StartGroup(Writer));
  }

  lemma WaitCons(s: State, w: nat, a: Action, rest: seq<Action>)
    requires |s.sems| == 4 && Held(s, w) && WriterWaits(Apply(s, a), w, rest)
    ensures WriterWaits(s, w, [a] + rest) && Run(s, [a] + rest) == Run(Apply(s, a), rest)
  {
    assert ([a] + rest)[1..] == rest;
  }

  /** In four steps the readers take over from each other and another letter is printed; the writer's
      entry is blocked before every step on the way. */
  lemma HandOver(s: State, w: nat, inside: nat, outside: nat) returns (s1: State, s2: State, s3: State, t: State)
    requires Relay(s, w, inside, outside)
    ensures s1 == Apply(s, Step(outside)) && s2 == Apply(s1, Step(outside))
    ensures s3 == Apply(s2, Step(inside)) && t == Apply(s3, Step(inside))
    ensures Relay(t, w, outside, inside) && |t.log| == |s.log| + 1
    ensures Held(s, w) && Held(s1, w) && Held(s2, w) && Held(s3, w)
  {
    s1 := Apply(s, Step(outside));
    StaysHeld(s, w);
    StaysHeld(s1, w);
    s2 := ReaderEnters(s1, outside);
    StaysHeld(s2, w);
    s3 := Apply(s2, Step(inside));
    StaysHeld(s3, w);
    t := ReaderLeaves(s3, inside);
  }

  lemma ReaderLeaves(s: State, k: nat) returns (t: State)
    requires |s.sems| == 4 && s.sems[ACTIVE_READERS] > 0 && k < |s.procs|
    requires s.procs[k] == Proc(Reader, Leave, true, true)
    ensures t == Apply(s, Step(k)) == s.(sems := s.sems[ACTIVE_READERS := s.sems[ACTIVE_READERS] - 1],
                                         procs := s.procs[k := Proc(Reader, TestFlag, true, true)])
  {
    EndMeaning(s.sems, Reader, EndGroup(Reader));
    t := Apply(s, Step(k));
  }

  /** The queue semaphores give writers no priority: two readers alone can keep a waiting writer out
      while they print any number of letters. */
  lemma {:induction false} ReadersCanStarveWriter(s: State, w: nat, inside: nat, outside: nat, n: nat)
    returns (actions: seq<Action>)
    requires Relay(s, w, inside, outside)
    ensures forall a :: 0 <= a < |actions| ==> actions[a].Step?
    ensures WriterWaits(s, w, actions)
    ensures |Run(s, actions).log| == |s.log| + n
    decreases n
  {
    if n == 0 {
      actions := [];
    } else {
      var s1, s2, s3, t := HandOver(s, w, inside, outside);
      var rest := ReadersCanStarveWriter(t, w, outside, inside, n - 1);
      WaitCons(s3, w, Step(inside), rest);
      WaitCons(s2, w, Step(inside), [Step(inside)] + rest);
      WaitCons(s1, w, Step(outside), [Step(inside)] + ([Step(inside)] + rest));
      WaitCons(s, w, Step(outside), [Step(outside)] + ([Step(inside)] + ([Step(inside)] + rest)));
      actions := [Step(outside)] + ([Step(outside)] + ([Step(inside)] + ([Step(inside)] + rest)));
    }
  }

  /** Such a state is reached in every program that starts writer w and two readers. */
  lemma RelayIsReached(roles: seq<Role>, w: nat, i: nat, j: nat) returns (s: State, before: seq<Action>)
    requires w < |roles| && i < |roles| && j < |roles| && i != j
    requires roles[w].Writer? && roles[i].Reader? && roles[j].Reader?
    ensures s == Run(Init(roles), before) && Relay(s, w, i, j)
  {
    var s0 := Init(roles);
    FlagStep(s0, w, s0.procs[w]);
    var s1 := Apply(s0, Step(w));
    FlagStep(s1, i, s1.procs[i]);
    var s2 := Apply(s1, Step(i));
    s := ReaderEnters(s2, i);
    RunCons(s2, Step(i), []);
    RunCons(s1, Step(i), [Step(i)] + []);
    RunCons(s0, Step(w), [Step(i)] + ([Step(i)] + []));
    before := [Step(w)] + ([Step(i)] + ([Step(i)] + []));
  }

  // ---------- Both halves ----------

  /** After some run, while w waits, at least n letters are printed or writes completed. */
  ghost predicate Passed(roles: seq<Role>, w: nat, n: nat, before: seq<Action>, actions: seq<Action>) {
    var s := Run(Init(roles), before);
    && WriterWaits(s, w, actions)
    && |Run(s, actions).log| + Run(s, actions).writes >= |s.log| + s.writes + n
  }

  ghost predicate CanBePassed(roles: seq<Role>, w: nat, n: nat) {
    exists before: seq<Action>, actions: seq<Action> :: Passed(roles, w, n, before, actions)
  }

  ghost predicate HasTwoReaders(roles: seq<Role>) {
    exists i, j :: 0 <= i < j < |roles| && roles[i].Reader? && roles[j].Reader?
  }

  lemma {:induction false} RolesStay(s: State, actions: seq<Action>)
    requires |s.sems| == 4
    ensures |Run(s, actions).procs| == |s.procs|
    ensures forall k :: 0 <= k < |s.procs| ==> Run(s, actions).procs[k].role == s.procs[k].role
    decreases |actions|
  {
    if actions == [] {
    } else {
      var t := Apply(s, actions[0]);
      if Enabled(s, actions[0]) { OneMoves(s, actions[0]); }
      assert |t.procs| == |s.procs| && forall k :: 0 <= k < |s.procs| ==> t.procs[k].role == s.procs[k].role;
      RolesStay(t, actions[1..]);
    }
  }

  /** A waiting writer can be passed by any number of prints and writes exactly when the program has two
      readers; otherwise two are already too many. */
  lemma StarvationIff(roles: seq<Role>, w: nat)
    requires w < |roles| && roles[w].Writer?
    ensures HasTwoReaders(roles) <==> forall n: nat :: CanBePassed(roles, w, n)
    ensures HasTwoReaders(roles) <==> CanBePassed(roles, w, 2)
  {
    if HasTwoReaders(roles) {
      var i, j :| 0 <= i < j < |roles| && roles[i].Reader? && roles[j].Reader?;
      var s, before := RelayIsReached(roles, w, i, j);
      forall n: nat ensures CanBePassed(roles, w, n) {
        var actions := ReadersCanStarveWriter(s, w, i, j, n);
        WritesGrow(s, actions);
        assert Passed(roles, w, n, before, actions);
      }
    } else if CanBePassed(roles, w, 2) {
      var before: seq<Action>, actions: seq<Action> :| Passed(roles, w, 2, before, actions);
      RolesStay(Init(roles), before);
      AtMostOnePasses(Run(Init(roles), before), w, actions);
    }
  }

  lemma {:induction false} WritesGrow(s: State, actions: seq<Action>)
    requires |s.sems| == 4
    ensures Run(s, actions).writes >= s.writes
    decreases |actions|
  {
    if actions == [] {
    } else {
      WritesGrow(Apply(s, actions[0]), actions[1..]);
    }
  }
}
