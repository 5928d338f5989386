/** The scan of get_ticket and the two nested tests of wait_for_turn: what an iteration computes or decides,
    how long it holds a client, and what the loop on choosing[i] is needed for. */
module BakeryLoops {
  import opened Common
  import opened BakeryProtocol
  import opened BakeryInvariant

  // ---------- The loop on choosing[i] ----------

  ghost predicate Chooses(s: State, i: nat) { i < |s.choosing| && s.choosing[i] }

  /** Client k stands at the test of choosing[i]. */
  ghost predicate AtChooserTest(s: State, k: nat, i: nat) {
    Shape(s) && k < |s.clients| && s.clients[k].pc.TestChoosing? && s.clients[k].i == i
  }

  /** Nobody but client k itself moves it on, and it does not move while the flag is up. */
  lemma StandsStill(s: State, k: nat, i: nat, a: Action)
    requires AtChooserTest(s, k, i)
    ensures Apply(s, a).clients[k] == s.clients[k] || (a == Step(k) && !Chooses(s, i))
  {
  }

  /** If client k has got past the test of choosing[i] in a run, then by a step of its own from a state in
      which that flag was down. */
  lemma {:induction false} PassesWhenLowered(s: State, k: nat, i: nat, actions: seq<Action>) returns (m: nat)
    requires AtChooserTest(s, k, i) && Run(s, actions).clients[k] != s.clients[k]
    ensures m < |actions| && actions[m] == Step(k)
    ensures AtChooserTest(Run(s, actions[..m]), k, i) && !Chooses(Run(s, actions[..m]), i)
    decreases |actions|
  {
    var t := Apply(s, actions[0]);
    StandsStill(s, k, i, actions[0]);
    if t.clients[k] != s.clients[k] {
      m := 0;
    } else {
      var rest := PassesWhenLowered(t, k, i, actions[1..]);
      m := rest + 1;
      assert actions[..m][1..] == actions[1..][..rest];
    }
  }

  /** A client waits for whoever is choosing: it stands at its test as long as the flag stays up. */
  lemma WaitsForChooser(s: State, k: nat, i: nat, actions: seq<Action>)
    requires AtChooserTest(s, k, i)
    requires forall m :: 0 <= m < |actions| ==> Chooses(Run(s, actions[..m]), i)
    ensures Run(s, actions).clients[k] == s.clients[k]
  {
    if Run(s, actions).clients[k] != s.clients[k] {
      var m := PassesWhenLowered(s, k, i, actions);
      assert false;
    }
  }

  /** With the flag down, its next step takes it to the test of number[i]. */
  lemma PassesLowered(s: State, k: nat, i: nat)
    requires AtChooserTest(s, k, i) && !Chooses(s, i)
    ensures Apply(s, Step(k)).clients[k] == s.clients[k].(pc := TestNonzero)
  {
  }

  // ---------- The test of number[i] ----------

  ghost function StepTimes(s: State, k: nat, m: nat): (t: State)
    requires Shape(s) && k < |s.clients|
    ensures Shape(t) && |t.clients| == |s.clients|
    decreases m
  {
    if m == 0 then s else StepTimes(StepClient(s, k), k, m - 1)
  }

  /** The condition of lines 44-46, read in one go. */
  ghost predicate MustWait(s: State, k: nat, i: nat)
    requires k < |s.number| && i < |s.number|
  {
    s.number[i] != 0 && (s.number[i] < s.number[k] || (s.number[i] == s.number[k] && i < k))
  }

  /** Without interference the five reads decide just that condition: client k tests the same index again,
      or goes on to the next one, or leaves the loop after the last. */
  lemma TestDecides(s: State, k: nat) returns (m: nat)
    requires Shape(s) && k < |s.clients| && s.clients[k].pc.TestNonzero?
    ensures 1 <= m <= 5
    ensures var t, i := StepTimes(s, k, m), s.clients[k].i;
            && t == Put(s, k, t.clients[k])
            && (MustWait(s, k, i) ==> t.clients[k].pc.TestNonzero? && t.clients[k].i == i)
            && (!MustWait(s, k, i) ==> GoesOn(s, t, k))
  {
    var s1 := StepClient(s, k);
    assert StepTimes(s, k, 1) == StepTimes(s1, k, 0);
    if s.number[s.clients[k].i] == 0 {
      m := 1;
    } else {
      var rest := ComparisonDecides(s1, k);
      m := rest + 1;
    }
  }

  /** Client k goes on to the next index, or leaves the loop. */
  ghost predicate GoesOn(s: State, t: State, k: nat)
    requires Shape(s) && k < |s.clients| == |t.clients|
  {
    var i := s.clients[k].i;
    && t.clients[k].i == i + 1
    && (if i + 1 < |s.number| then t.clients[k].pc.TestChoosing? else t.clients[k].pc.ReplyClient?)
  }

  lemma ComparisonDecides(s: State, k: nat) returns (m: nat)
    requires Shape(s) && k < |s.clients| && s.clients[k].pc.ReadLess? && s.number[s.clients[k].i] != 0
    ensures m == 2 || m == 4
    ensures var t, i := StepTimes(s, k, m), s.clients[k].i;
            && t == Put(s, k, t.clients[k])
            && (MustWait(s, k, i) ==> t.clients[k].pc.TestNonzero? && t.clients[k].i == i)
            && (!MustWait(s, k, i) ==> GoesOn(s, t, k))
  {
    var s1 := StepClient(s, k);
    var s2 := StepClient(s1, k);
    TwoSteps(s, k, 0);
    if s.number[s.clients[k].i] < s.number[k] {
      m := 2;
    } else {
      m := 4;
      TwoSteps(s, k, 2);
      TwoSteps(s2, k, 0);
    }
  }

  lemma TwoSteps(s: State, k: nat, m: nat)
    requires Shape(s) && k < |s.clients|
    ensures StepTimes(s, k, m + 2) == StepTimes(StepClient(StepClient(s, k), k), k, m)
    ensures StepTimes(s, k, 0) == s
  {
    assert StepTimes(s, k, m + 2) == StepTimes(StepClient(s, k), k, m + 1);
  }

  // ---------- The scan ----------

  /** Without interference an iteration of the scan takes the larger of the maximum so far and number[i], and
      goes on to the next index, the client's own included, or to the assignment after the last. */
  lemma ScanDecides(s: State, k: nat) returns (m: nat)
    requires Shape(s) && k < |s.clients| && s.clients[k].pc.ScanRead?
    ensures 1 <= m <= 2
    ensures var t, c := StepTimes(s, k, m), s.clients[k];
            && t == Put(s, k, t.clients[k])
            && t.clients[k].maxNum == (if s.number[c.i] > c.maxNum then s.number[c.i] else c.maxNum)
            && t.clients[k].i == c.i + 1
            && (if c.i + 1 < |s.number| then t.clients[k].pc.ScanRead? else t.clients[k].pc.Assign?)
  {
    var s1 := StepClient(s, k);
    assert StepTimes(s, k, 1) == StepTimes(s1, k, 0);
    TwoSteps(s, k, 0);
    m := if s1.clients[k].pc.ScanTake? then 2 else 1;
  }

  // ---------- What the loop on choosing[i] is needed for ----------

  /** An action, or a waiting client that goes past line 40 without looking at the flag. */
  datatype Move = Act(action: Action) | Skip(client: nat)

  function ApplyMove(s: State, m: Move): (t: State)
    requires Shape(s)
    ensures Shape(t) && |t.clients| == |s.clients|
  {
    match m
    case Act(a) => Apply(s, a)
    case Skip(k) =>
      if k < |s.clients| && s.clients[k].pc.TestChoosing? then Put(s, k, s.clients[k].(pc := TestNonzero)) else s
  }

  function RunMoves(s: State, moves: seq<Move>): (t: State)
    requires Shape(s)
    ensures Shape(t) && |t.clients| == |s.clients|
    decreases |moves|
  {
    if moves == [] then s else RunMoves(ApplyMove(s, moves[0]), moves[1..])
  }

  lemma SkipKeepsInv(s: State, k: nat)
    requires Inv(s) && k < |s.clients| && s.clients[k].pc.TestChoosing?
    ensures Inv(ApplyMove(s, Skip(k)))
  {
    assert ClientInv(s, k);
    WaitPut(s, k, s.clients[k].(pc := TestNonzero));
    LocalMove(s, k, s.clients[k].(pc := TestNonzero));
  }

  lemma {:induction false} MovesKeepInv(s: State, moves: seq<Move>)
    requires Inv(s)
    ensures Inv(RunMoves(s, moves))
    decreases |moves|
  {
    if moves == [] {
    } else {
      var m := moves[0];
      if m.Act? { ApplyKeepsInv(s, m.action); }
      else if ApplyMove(s, m) != s { SkipKeepsInv(s, m.client); }
      MovesKeepInv(ApplyMove(s, m), moves[1..]);
    }
  }

  /** For nothing that safety depends on: tickets are taken under the mutex, so even if every client may skip
      the loop at any time, at most one is in service and service goes by the order of the tickets. */
  lemma ChoosingIsNotNeeded(n: nat, moves: seq<Move>, j: nat, k: nat)
    ensures var t := RunMoves(Init(n), moves);
            && t.cleared <= t.issued
            && (j < n && k < n && InService(t.clients[j].pc) && InService(t.clients[k].pc) ==> j == k)
  {
    InitInv(n);
    MovesKeepInv(Init(n), moves);
    var t := RunMoves(Init(n), moves);
    if j < n && k < n && InService(t.clients[j].pc) && InService(t.clients[k].pc) { MutualExclusion(t, j, k); }
  }
}
