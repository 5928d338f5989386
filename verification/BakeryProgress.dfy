/** Progress of the ticket server: without new arrivals every request completes under every schedule
    that keeps giving each client a few steps, however the steps are interleaved. */
module BakeryProgress {
  import opened Common
  import opened BakeryProtocol
  import opened BakeryInvariant
  import BakerySafety

  ghost predicate InFlight(s: State, k: nat) {
    k < |s.clients| && !s.clients[k].pc.Idle?
  }

  ghost function Left(n: nat, i: nat): nat { if i <= n then n - i else 0 }

  /** An upper bound on what a handler still has to do. Every step lowers it by at least one, but for
      a lock that is held and a waiting loop's test that is repeated for the same index. */
  ghost function Work(n: nat, c: Client): nat {
    match c.pc
    case Idle => 0
    case UnlockClear => 1
    case Clear => 2
    case LockClear => 3
    case ReplyPosition => 4
    case ReplyTicket => 5
    case ReplyClient => 6
    case TestNonzero => 5 + 2 * Left(n, c.i)
    case ReadLess => 5 + 2 * Left(n, c.i)
    case CompareLess => 5 + 2 * Left(n, c.i)
    case ReadEqual => 5 + 2 * Left(n, c.i)
    case CompareEqual => 5 + 2 * Left(n, c.i)
    case TestChoosing => 6 + 2 * Left(n, c.i)
    case Reread => 7 + 2 * n
    case UnlockTicket => 8 + 2 * n
    case LowerChoosing => 9 + 2 * n
    case Assign => 10 + 2 * n
    case ScanTake => 9 + 2 * n + 2 * Left(n, c.i)
    case ScanRead => 10 + 2 * n + 2 * Left(n, c.i)
    case RaiseChoosing => 11 + 4 * n
    case LockTicket => 12 + 4 * n
  }

  ghost function WorkOf(n: nat): Client -> nat { (c: Client) => Work(n, c) }

  ghost function TotalWork(s: State): nat { Sum(s.clients, WorkOf(|s.number|)) }

  lemma WorkUpdate(n: nat, cs: seq<Client>, k: nat, c: Client)
    requires k < |cs|
    ensures Sum(cs[k := c], WorkOf(n)) + Work(n, cs[k]) == Sum(cs, WorkOf(n)) + Work(n, c)
  {
    SumUpdate(cs, k, c, WorkOf(n));
  }

  lemma WorkBound(n: nat, c: Client)
    ensures Work(n, c) <= 12 + 4 * n
  {
  }

  /** At most 12 + 4n per client: what a client needs that has just arrived. */
  lemma WorkIsBounded(s: State)
    ensures TotalWork(s) <= |s.clients| * (12 + 4 * |s.number|)
  {
    forall k | 0 <= k < |s.clients| ensures WorkOf(|s.number|)(s.clients[k]) <= 12 + 4 * |s.number| {
      WorkBound(|s.number|, s.clients[k]);
    }
    SumBound(s.clients, 12 + 4 * |s.number|, WorkOf(|s.number|));
  }

  /** Without any work left nobody has a request in flight. */
  lemma NoWorkNoFlight(s: State)
    requires TotalWork(s) == 0
    ensures forall k :: 0 <= k < |s.clients| ==> s.clients[k].pc.Idle?
  {
    forall k | 0 <= k < |s.clients| ensures s.clients[k].pc.Idle? {
      SumAtLeast(s.clients, k, WorkOf(|s.number|));
      assert WorkOf(|s.number|)(s.clients[k]) == Work(|s.number|, s.clients[k]);
    }
  }

  /** The step moved nothing but the operands of a waiting test that is tried again for the same index. */
  ghost predicate Spin(s: State, t: State, k: nat)
    requires k < |s.clients| == |t.clients|
  {
    && t == Put(s, k, t.clients[k])
    && (t.clients[k] == s.clients[k]
        || (TestingNumber(s.clients[k].pc) && TestingNumber(t.clients[k].pc) && t.clients[k].i == s.clients[k].i))
  }

  /** Client k's own variables are the only ones that move, and its work decreases or it spins. */
  ghost predicate Works(s: State, t: State, k: nat)
    requires k < |s.clients|
  {
    && |t.number| == |s.number| && |t.clients| == |s.clients| && t.clients == s.clients[k := t.clients[k]]
    && (Work(|s.number|, t.clients[k]) < Work(|s.number|, s.clients[k])
        || (Work(|s.number|, t.clients[k]) == Work(|s.number|, s.clients[k]) && Spin(s, t, k)))
  }

  lemma TicketWork(s: State, k: nat)
    requires Shape(s) && k < |s.clients| && InGetTicket(s.clients[k].pc)
    ensures Works(s, TicketStep(s, k), k)
  {
    assert s.clients == s.clients[k := s.clients[k]];
  }

  lemma WaitWork(s: State, k: nat)
    requires Shape(s) && k < |s.clients| && Waiting(s.clients[k].pc)
    ensures Works(s, WaitStep(s, k), k)
  {
    assert s.clients == s.clients[k := s.clients[k]];
  }

  lemma ServeWork(s: State, k: nat)
    requires Shape(s) && k < |s.clients| && (InService(s.clients[k].pc) || s.clients[k].pc.UnlockClear?)
    ensures Works(s, ServeStep(s, k), k)
  {
    assert s.clients == s.clients[k := s.clients[k]];
  }

  lemma StepWork(s: State, k: nat)
    requires Shape(s) && k < |s.clients|
    ensures Works(s, StepClient(s, k), k)
  {
    var pc := s.clients[k].pc;
    if InGetTicket(pc) { TicketWork(s, k); }
    else if Waiting(pc) { WaitWork(s, k); }
    else if pc.Idle? { assert s.clients == s.clients[k := s.clients[k]]; }
    else { ServeWork(s, k); }
  }

  /** No step outside an arrival adds work, and one that takes none away is a repeated test or a blocked lock. */
  lemma StepTotal(s: State, k: nat)
    requires Shape(s) && k < |s.clients|
    ensures TotalWork(StepClient(s, k)) <= TotalWork(s)
    ensures TotalWork(StepClient(s, k)) == TotalWork(s) ==> Spin(s, StepClient(s, k), k)
  {
    StepWork(s, k);
    WorkUpdate(|s.number|, s.clients, k, StepClient(s, k).clients[k]);
  }

  // ---------- Somebody can always move on ----------

  ghost predicate IsHead(s: State, d: nat) {
    Queue(s) != [] && Queue(s)[0] == d
  }

  /** Client d is not held up: it owns the mutex, or the mutex is free and d is not waiting, or it
      is waiting with the oldest ticket. */
  ghost predicate Ready(s: State, d: nat) {
    && InFlight(s, d)
    && (s.holder == Some(d) || (s.holder == None && (Waiting(s.clients[d].pc) ==> IsHead(s, d))))
  }

  /** Whenever a request is in flight, some client is not held up. */
  lemma SomebodyIsReady(s: State, k: nat) returns (d: nat)
    requires Inv(s) && InFlight(s, k)
    ensures Ready(s, d) && (d == k || s.holder == Some(d) || IsHead(s, d))
  {
    assert ClientInv(s, k);
    if s.holder.Some? {
      d := s.holder.value;
      assert ClientInv(s, d);
    } else if Waiting(s.clients[k].pc) {
      assert HasTicket(s, k);
      d := Queue(s)[0];
      assert s.number[d] == Low(s);
      assert ClientInv(s, d);
    } else {
      d := k;
    }
  }

  /** How many of its own steps a ready client may spend before its work decreases: the rest of the
      current test, and one more test if an operand was read before another client left. */
  ghost function Effort(s: State, d: nat): nat
    requires Shape(s) && d < |s.clients|
  {
    var c := s.clients[d];
    if c.pc.TestNonzero? then (if s.number[c.i] == 0 then 0 else 4)
    else if c.pc.ReadLess? then (if s.number[c.i] == 0 then 2 else 3)
    else if c.pc.CompareLess? then
      (if c.seen >= s.number[d] then 2 else if s.number[c.i] == 0 then 1 else 5)
    else if c.pc.ReadEqual? then 1
    else 0
  }

  /** Against the oldest ticket no other number wins a comparison. */
  lemma HeadIsSmallest(s: State, d: nat, i: nat)
    requires Inv(s) && IsHead(s, d) && i < |s.number| && s.number[i] != 0
    ensures d < |s.number| && s.number[d] <= s.number[i]
  {
    assert s.number[Queue(s)[0]] == Low(s);
    assert HasTicket(s, i);
  }

  lemma SpinKeepsQueue(s: State, t: State, k: nat)
    requires Inv(s) && k < |s.clients| == |t.clients| && Spin(s, t, k)
    ensures Queue(t) == Queue(s)
  {
  }

  /** The waiting head's own step: it moves on, or comes closer to doing so. */
  lemma HeadStep(s: State, d: nat)
    requires Inv(s) && d < |s.clients| && Waiting(s.clients[d].pc) && IsHead(s, d) && s.holder == None
    ensures var t := WaitStep(s, d);
            Work(|s.number|, t.clients[d]) < Work(|s.number|, s.clients[d]) || Effort(t, d) < Effort(s, d)
  {
    var c := s.clients[d];
    assert ClientInv(s, d) && ClientInv(s, c.i);
    if s.number[c.i] != 0 {
      HeadIsSmallest(s, d, c.i);
    }
  }

  /** A ready client that is not waiting gets work done with its next step. */
  lemma MoverWorks(s: State, d: nat)
    requires Inv(s) && Ready(s, d) && !Waiting(s.clients[d].pc)
    ensures TotalWork(StepClient(s, d)) < TotalWork(s)
  {
    assert ClientInv(s, d);
    MoverMoves(s, d);
    StepTotal(s, d);
  }

  lemma MoverMoves(s: State, d: nat)
    requires Shape(s) && d < |s.clients| && !s.clients[d].pc.Idle? && !Waiting(s.clients[d].pc)
    requires s.clients[d].pc.LockTicket? || s.clients[d].pc.LockClear? ==> s.holder == None
    ensures !Spin(s, StepClient(s, d), d)
  {
  }

  lemma ReadyStep(s: State, d: nat)
    requires Inv(s) && Ready(s, d) && TotalWork(StepClient(s, d)) == TotalWork(s)
    ensures Ready(StepClient(s, d), d) && Effort(StepClient(s, d), d) < Effort(s, d)
  {
    if Waiting(s.clients[d].pc) {
      assert ClientInv(s, d);
      HeadStep(s, d);
      StepTotal(s, d);
      WorkUpdate(|s.number|, s.clients, d, WaitStep(s, d).clients[d]);
      SpinKeepsQueue(s, WaitStep(s, d), d);
    } else {
      MoverWorks(s, d);
    }
  }

  lemma OtherStep(s: State, d: nat, k: nat)
    requires Inv(s) && Ready(s, d) && k < |s.clients| && k != d && TotalWork(StepClient(s, k)) == TotalWork(s)
    ensures Ready(StepClient(s, k), d) && Effort(StepClient(s, k), d) == Effort(s, d)
  {
    StepTotal(s, k);
    SpinKeepsQueue(s, StepClient(s, k), k);
  }

  // ---------- Schedules ----------

  ghost predicate NoArrivals(actions: seq<Action>) {
    forall i :: 0 <= i < |actions| ==> actions[i].Step?
  }

  ghost function StepsOf(actions: seq<Action>, k: nat): nat {
    if actions == [] then 0 else One(actions[0] == Step(k)) + StepsOf(actions[1..], k)
  }

  /** A stretch of a schedule in which every one of n clients gets at least six steps, in any order. */
  ghost predicate FairRound(actions: seq<Action>, n: nat) {
    NoArrivals(actions) && forall k: nat :: k < n ==> StepsOf(actions, k) >= 6
  }

  lemma {:induction false} RunTotal(s: State, actions: seq<Action>)
    requires Inv(s) && NoArrivals(actions)
    ensures TotalWork(Run(s, actions)) <= TotalWork(s)
    decreases |actions|
  {
    if actions == [] {
    } else {
      var k := actions[0].client;
      if k < |s.clients| { StepTotal(s, k); }
      ApplyKeepsInv(s, actions[0]);
      RunTotal(Apply(s, actions[0]), actions[1..]);
    }
  }

  /** As long as no work gets done, a ready client stays ready and uses up its effort step by step. */
  lemma {:induction false} IdleStretch(s: State, d: nat, actions: seq<Action>)
    requires Inv(s) && NoArrivals(actions) && Ready(s, d)
    requires TotalWork(Run(s, actions)) == TotalWork(s)
    ensures StepsOf(actions, d) <= Effort(s, d)
    decreases |actions|
  {
    if actions == [] {
    } else {
      var k, t := actions[0].client, Apply(s, actions[0]);
      ApplyKeepsInv(s, actions[0]);
      RunTotal(t, actions[1..]);
      if k < |s.clients| {
        StepTotal(s, k);
        if k == d { ReadyStep(s, d); } else { OtherStep(s, d, k); }
      }
      IdleStretch(t, d, actions[1..]);
    }
  }

  /** In every fair round some work gets done, unless there was none left. */
  lemma FairRoundProgress(s: State, actions: seq<Action>)
    requires Inv(s) && FairRound(actions, |s.clients|)
    ensures TotalWork(Run(s, actions)) < TotalWork(s) || TotalWork(s) == 0
  {
    RunTotal(s, actions);
    if TotalWork(Run(s, actions)) == TotalWork(s) && exists k: nat :: InFlight(s, k) {
      var k: nat :| InFlight(s, k);
      var d := SomebodyIsReady(s, k);
      IdleStretch(s, d, actions);
    } else if forall k: nat :: !InFlight(s, k) {
      NothingInFlight(s);
    }
  }

  lemma NothingInFlight(s: State)
    requires forall k: nat :: !InFlight(s, k)
    ensures TotalWork(s) == 0
  {
    forall k | 0 <= k < |s.clients| ensures s.clients[k].pc.Idle? {
      assert !InFlight(s, k);
    }
    SumBound(s.clients, 0, WorkOf(|s.number|));
  }

  function RunRounds(s: State, rounds: seq<seq<Action>>): (t: State)
    requires Shape(s)
    ensures Shape(t) && |t.clients| == |s.clients|
    decreases |rounds|
  {
    if rounds == [] then s else RunRounds(Run(s, rounds[0]), rounds[1..])
  }

  lemma {:induction false} RoundsFinishWork(s: State, rounds: seq<seq<Action>>)
    requires Inv(s) && |rounds| >= TotalWork(s)
    requires forall r :: 0 <= r < |rounds| ==> FairRound(rounds[r], |s.clients|)
    ensures Inv(RunRounds(s, rounds)) && TotalWork(RunRounds(s, rounds)) == 0
    decreases |rounds|
  {
    if rounds == [] {
    } else {
      var t := Run(s, rounds[0]);
      RunKeepsInv(s, rounds[0]);
      FairRoundProgress(s, rounds[0]);
      RunTotal(s, rounds[0]);
      RoundsFinishWork(t, rounds[1..]);
    }
  }

  /** Client k's request has still to be served. */
  ghost predicate Unserved(s: State, k: nat) {
    InFlight(s, k) && !s.clients[k].pc.UnlockClear?
  }

  /** Between s and t the history of service only grew, and k was served if it no longer waits for it. */
  ghost predicate ServedSince(s: State, t: State, k: nat) {
    && s.cleared <= t.cleared
    && (Unserved(s, k) && !Unserved(t, k) ==> k in t.cleared[|s.cleared|..])
  }

  lemma StepServes(s: State, a: Action, k: nat)
    requires Shape(s)
    ensures ServedSince(s, Apply(s, a), k)
  {
    var t := Apply(s, a);
    if t.cleared != s.cleared {
      assert t.cleared[|s.cleared|..] == [a.client];
    }
  }

  lemma ServedTransitive(s: State, t: State, u: State, k: nat)
    requires ServedSince(s, t, k) && ServedSince(t, u, k)
    ensures ServedSince(s, u, k)
  {
    if Unserved(s, k) && !Unserved(u, k) {
      assert u.cleared[|s.cleared|..] == t.cleared[|s.cleared|..] + u.cleared[|t.cleared|..];
    }
  }

  lemma {:induction false} RunServes(s: State, actions: seq<Action>, k: nat)
    requires Shape(s)
    ensures ServedSince(s, Run(s, actions), k)
    decreases |actions|
  {
    if actions == [] {
    } else {
      StepServes(s, actions[0], k);
      RunServes(Apply(s, actions[0]), actions[1..], k);
      ServedTransitive(s, Apply(s, actions[0]), Run(s, actions), k);
    }
  }

  lemma {:induction false} RoundsServe(s: State, rounds: seq<seq<Action>>, k: nat)
    requires Shape(s)
    ensures ServedSince(s, RunRounds(s, rounds), k)
    decreases |rounds|
  {
    if rounds == [] {
    } else {
      RunServes(s, rounds[0], k);
      RoundsServe(Run(s, rounds[0]), rounds[1..], k);
      ServedTransitive(s, Run(s, rounds[0]), RunRounds(s, rounds), k);
    }
  }

  lemma HeadHasTicket(s: State)
    requires QueueInv(s) && Queue(s) != []
    ensures HasTicket(s, Queue(s)[0])
  {
  }

  /** Every request completes: from any reachable state, after at most n * (12 + 4n) fair rounds without
      arrivals all handlers have returned, every client whose request was in flight has been served since,
      everyone who got a ticket has been served in ticket order, and mutex, numbers and choosing flags are as
      they were at the start. */
  lemma EveryRequestCompletes(s: State, rounds: seq<seq<Action>>)
    requires BakerySafety.Reachable(s)
    requires |rounds| >= |s.clients| * (12 + 4 * |s.clients|)
    requires forall r :: 0 <= r < |rounds| ==> FairRound(rounds[r], |s.clients|)
    ensures Shape(s)
    ensures var t := RunRounds(s, rounds);
            && s.cleared <= t.cleared
            && (forall k :: 0 <= k < |t.clients| ==> t.clients[k].pc.Idle? && t.number[k] == 0 && !t.choosing[k])
            && t.holder == None
            && t.cleared == t.issued
            && forall k: nat :: Unserved(s, k) ==> k in t.cleared[|s.cleared|..]
  {
    BakerySafety.ReachableInv(s);
    WorkIsBounded(s);
    RoundsFinishWork(s, rounds);
    var t := RunRounds(s, rounds);
    NoWorkNoFlight(t);
    forall k | 0 <= k < |t.clients| ensures t.number[k] == 0 && !t.choosing[k] && t.holder != Some(k) {
      assert ClientInv(t, k);
    }
    if Queue(t) != [] { HeadHasTicket(t); }
    RoundsServe(s, rounds, 0);
    forall k: nat | Unserved(s, k) ensures k in t.cleared[|s.cleared|..] {
      RoundsServe(s, rounds, k);
    }
  }
}
