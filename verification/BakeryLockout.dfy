/** Exactly which requests are served within a bound while new ones keep arriving and the mutex is not
    fair: all but those that still stand before the mutex of get_ticket with another client about. */
module BakeryLockout {
  import opened Common
  import opened BakeryProtocol
  import opened BakeryInvariant
  import opened BakeryProgress
  import opened BakeryBoundedWait
  import BakerySafety

  // ---------- Past the lock: a ticket comes by one's own steps ----------

  /** Client k has no ticket yet, and nobody can keep the mutex from it: it owns it, or is alone. */
  ghost predicate OnItsWay(s: State, k: nat) {
    && Inv(s) && k < |s.clients|
    && (s.clients[k].pc.RaiseChoosing? || Scanning(s.clients[k].pc) || s.clients[k].pc.Assign?
        || (s.clients[k].pc.LockTicket? && |s.clients| == 1))
  }

  /** Its own step brings it nearer to its ticket, or gives it the ticket. */
  lemma OwnStepComesNearer(s: State, k: nat)
    requires OnItsWay(s, k)
    ensures var t := StepClient(s, k);
            Holds(t, k) || (OnItsWay(t, k) && Work(|t.number|, t.clients[k]) < Work(|s.number|, s.clients[k]))
  {
    assert ClientInv(s, k);
    StepKeepsInv(s, k);
    StepWork(s, k);
    if s.clients[k].pc.LockTicket? { AloneMutexIsFree(s, k); }
    OwnStepPc(s, k);
  }

  lemma AloneMutexIsFree(s: State, k: nat)
    requires Shape(s) && k < |s.clients| && ClientInv(s, k) && s.clients[k].pc.LockTicket?
    requires s.holder.Some? ==> s.holder.value == k
    ensures s.holder == None
  {
    assert s.holder != Some(k);
  }

  lemma OwnStepPc(s: State, k: nat)
    requires Shape(s) && k < |s.clients|
    requires s.clients[k].pc.LockTicket? ==> s.holder == None
    requires s.clients[k].pc.LockTicket? || s.clients[k].pc.RaiseChoosing? || Scanning(s.clients[k].pc)
          || s.clients[k].pc.Assign?
    ensures var t := StepClient(s, k);
            && (s.clients[k].pc.Assign? ==> HasTicket(t, k))
            && (!s.clients[k].pc.Assign? ==>
                  && !Spin(s, t, k)
                  && (t.clients[k].pc.RaiseChoosing? || Scanning(t.clients[k].pc) || t.clients[k].pc.Assign?))
  {
  }

  /** Any other action leaves it where it is. */
  lemma OthersLeaveIt(s: State, k: nat, a: Action)
    requires OnItsWay(s, k) && a != Step(k)
    ensures OnItsWay(Apply(s, a), k) && Apply(s, a).clients[k] == s.clients[k]
  {
    ApplyKeepsInv(s, a);
    MoversOwn(s, k, a);
  }

  /** A client in flight is moved by its own steps only. */
  lemma MoversOwn(s: State, k: nat, a: Action)
    requires Shape(s) && InFlight(s, k) && a != Step(k)
    ensures Apply(s, a).clients[k] == s.clients[k]
  {
  }

  /** Any actions at all, arrivals included: client k is served, or holds its ticket, or has come
      nearer to it by each of its steps. */
  lemma {:induction false} RunToTicket(s: State, k: nat, actions: seq<Action>)
    requires OnItsWay(s, k)
    ensures var t := Run(s, actions);
            || Served(s, t, k) || Holds(t, k)
            || (OnItsWay(t, k)
                && Work(|t.number|, t.clients[k]) + StepsOf(actions, k) <= Work(|s.number|, s.clients[k]))
    decreases |actions|
  {
    if actions == [] {
    } else {
      var a, t, rest := actions[0], Apply(s, actions[0]), actions[1..];
      StepServes(s, a, k);
      RunServes(t, rest, k);
      if a == Step(k) { OwnStepComesNearer(s, k); } else { OthersLeaveIt(s, k, a); }
      if Holds(t, k) { RunPays(t, k, rest); } else { RunToTicket(t, k, rest); }
      if Served(t, Run(t, rest), k) { ServedLater(s, t, Run(t, rest), k); }
    }
  }

  /** So many rounds are enough for a ticket holder in every state. */
  ghost predicate Covers(wait: nat, n: nat, k: nat) {
    forall s: State :: Shape(s) && |s.clients| == n && k < n ==> Total(Debts(s, k)) <= wait
  }

  lemma DebtIsCovered(n: nat, k: nat)
    ensures Covers(n * (25 + 8 * n), n, k)
  {
    forall s: State | Shape(s) && |s.clients| == n && k < n ensures Total(Debts(s, k)) <= n * (25 + 8 * n) {
      DebtBound(s, k);
    }
  }

  lemma {:induction false} RoundsToService(s: State, k: nat, rounds: seq<seq<Action>>, wait: nat)
    requires OnItsWay(s, k) && Covers(wait, |s.clients|, k)
    requires |rounds| >= Work(|s.number|, s.clients[k]) + wait
    requires forall r :: 0 <= r < |rounds| ==> SteadyRound(rounds[r], |s.clients|)
    ensures Served(s, RunRounds(s, rounds), k)
    decreases |rounds|
  {
    WayIsLeft(s, k);
    var t, rest := Run(s, rounds[0]), rounds[1..];
    RoundToTicket(s, k, rounds[0]);
    RoundsServe(t, rest, k);
    if Served(s, t, k) {
    } else if Holds(t, k) {
      RoundsServeTicket(t, k, rest);
    } else {
      RoundsToService(t, k, rest, wait);
    }
    ServedLater(s, t, RunRounds(t, rest), k);
  }

  lemma RoundToTicket(s: State, k: nat, actions: seq<Action>)
    requires OnItsWay(s, k) && SteadyRound(actions, |s.clients|)
    ensures var t := Run(s, actions);
            && s.cleared <= t.cleared
            && (Served(s, t, k) || Holds(t, k)
                || (OnItsWay(t, k) && Work(|t.number|, t.clients[k]) < Work(|s.number|, s.clients[k])))
  {
    RunToTicket(s, k, actions);
    assert StepsOf(actions, k) >= 6;
    RunServes(s, actions, k);
  }

  lemma WayIsLeft(s: State, k: nat)
    requires OnItsWay(s, k)
    ensures Work(|s.number|, s.clients[k]) > 0
  {
  }

  // ---------- Before the lock: others can always have the mutex first ----------

  /** Client k stands before the mutex in both states, and has got and given back nothing in between. */
  ghost predicate KeptOut(s: State, t: State, k: nat) {
    && Inv(t) && |t.clients| == |s.clients| && k < |t.clients| && t.clients[k].pc.LockTicket?
    && s.issued <= t.issued && s.cleared <= t.cleared
    && k !in t.issued[|s.issued|..] && k !in t.cleared[|s.cleared|..]
  }

  lemma KeptOutOn(s: State, t: State, u: State, k: nat)
    requires KeptOut(s, t, k) && KeptOut(t, u, k)
    ensures KeptOut(s, u, k)
  {
    NotAmongNew(s.issued, t.issued, u.issued, k);
    NotAmongNew(s.cleared, t.cleared, u.cleared, k);
  }

  lemma NotAmongNew(a: seq<nat>, b: seq<nat>, c: seq<nat>, k: nat)
    requires a <= b <= c && k !in b[|a|..] && k !in c[|b|..]
    ensures a <= c && k !in c[|a|..]
  {
    assert c[|a|..] == b[|a|..] + c[|b|..];
  }

  lemma HistoriesGrow(s: State, a: Action)
    requires Shape(s)
    ensures Apply(s, a).issued == s.issued || Apply(s, a).issued == s.issued + [a.client]
    ensures Apply(s, a).cleared == s.cleared || Apply(s, a).cleared == s.cleared + [a.client]
  {
  }

  /** What others do keeps it out. */
  lemma OthersKeepOut(s: State, k: nat, a: Action)
    requires Inv(s) && k < |s.clients| && s.clients[k].pc.LockTicket? && a.client != k
    ensures KeptOut(s, Apply(s, a), k)
  {
    ApplyKeepsInv(s, a);
    MoversOwn(s, k, a);
    HistoriesGrow(s, a);
  }

  lemma {:induction false} OthersRun(s: State, k: nat, actions: seq<Action>)
    requires Inv(s) && k < |s.clients| && s.clients[k].pc.LockTicket?
    requires forall i :: 0 <= i < |actions| ==> actions[i].client != k
    ensures KeptOut(s, Run(s, actions), k)
    decreases |actions|
  {
    if actions == [] {
    } else {
      OthersKeepOut(s, k, actions[0]);
      OthersRun(Apply(s, actions[0]), k, actions[1..]);
      KeptOutOn(s, Apply(s, actions[0]), Run(s, actions), k);
    }
  }

  lemma RunCons(s: State, a: Action, rest: seq<Action>)
    requires Shape(s)
    ensures Run(s, [a] + rest) == Run(Apply(s, a), rest)
    ensures forall k :: StepsOf([a] + rest, k) == One(a == Step(k)) + StepsOf(rest, k)
  {
    assert ([a] + rest)[1..] == rest;
  }

  /** Others take steps until one of them owns the mutex; if they have nothing to do, one comes back. */
  lemma {:induction false} OthersTakeMutex(s: State, k: nat) returns (actions: seq<Action>)
    requires Inv(s) && k < |s.clients| && s.clients[k].pc.LockTicket? && |s.clients| > 1
    ensures forall i :: 0 <= i < |actions| ==> actions[i].client != k
    ensures Run(s, actions).holder.Some?
    decreases TotalWork(s), 1, 0
  {
    if s.holder.Some? {
      actions := [];
    } else if exists e: nat :: e != k && InFlight(s, e) {
      var e: nat :| e != k && InFlight(s, e);
      var d := SomebodyIsReady(s, e);
      HeadIsAnother(s, k);
      actions := PushOn(s, k, d);
    } else {
      var e: nat := if k == 0 then 1 else 0;
      assert !InFlight(s, e);
      actions := [Arrive(e), Step(e)];
      ComesAndLocks(s, e);
    }
  }

  /** Client d, which nothing holds up, gets some work done or the mutex. */
  lemma {:induction false} PushOn(s: State, k: nat, d: nat) returns (actions: seq<Action>)
    requires Inv(s) && k < |s.clients| && s.clients[k].pc.LockTicket? && |s.clients| > 1
    requires s.holder == None && Ready(s, d) && d != k
    ensures forall i :: 0 <= i < |actions| ==> actions[i].client != k
    ensures Run(s, actions).holder.Some?
    decreases TotalWork(s), 0, Effort(s, d)
  {
    var t := StepClient(s, d);
    StepTotal(s, d);
    OthersKeepOut(s, k, Step(d));
    var rest: seq<Action>;
    if TotalWork(t) < TotalWork(s) {
      rest := OthersTakeMutex(t, k);
    } else {
      ReadyStep(s, d);
      rest := PushOn(t, k, d);
    }
    RunCons(s, Step(d), rest);
    actions := [Step(d)] + rest;
  }

  /** Who has no ticket is not the head of the queue. */
  lemma HeadIsAnother(s: State, k: nat)
    requires Inv(s) && k < |s.clients| && s.clients[k].pc.LockTicket?
    ensures !IsHead(s, k)
  {
    assert ClientInv(s, k);
    if IsHead(s, k) { HeadHasTicket(s); }
  }

  lemma ComesAndLocks(s: State, e: nat)
    requires Shape(s) && e < |s.clients| && s.clients[e].pc.Idle? && s.holder == None
    ensures Run(s, [Arrive(e), Step(e)]).holder == Some(e)
  {
    RunCons(s, Arrive(e), [Step(e)]);
    RunCons(Apply(s, Arrive(e)), Step(e), []);
    assert [Arrive(e)] + [Step(e)] == [Arrive(e), Step(e)] && [Step(e)] + [] == [Step(e)];
  }

  /** One step of each of the first m clients but k. */
  ghost function StepOfOthers(m: nat, k: nat): (actions: seq<Action>)
    ensures forall i :: 0 <= i < |actions| ==> actions[i].client != k
  {
    if m == 0 then []
    else if m - 1 == k then StepOfOthers(m - 1, k)
    else [Step(m - 1)] + StepOfOthers(m - 1, k)
  }

  lemma {:induction false} EverybodySteps(m: nat, k: nat, e: nat)
    requires e < m && e != k
    ensures StepsOf(StepOfOthers(m, k), e) >= 1
  {
    if m - 1 == k {
      EverybodySteps(m - 1, k, e);
    } else {
      var rest := StepOfOthers(m - 1, k);
      assert ([Step(m - 1)] + rest)[1..] == rest;
      if e < m - 1 { EverybodySteps(m - 1, k, e); }
    }
  }

  lemma {:induction false} StepsSplit(xs: seq<Action>, ys: seq<Action>, k: nat)
    ensures StepsOf(xs + ys, k) == StepsOf(xs, k) + StepsOf(ys, k)
  {
    if xs == [] {
      assert xs + ys == ys;
    } else {
      assert (xs + ys)[1..] == xs[1..] + ys;
      StepsSplit(xs[1..], ys, k);
    }
  }

  /** While another owns the mutex, client k's try changes nothing. */
  lemma TriesInVain(s: State, k: nat)
    requires Inv(s) && k < |s.clients| && s.clients[k].pc.LockTicket? && s.holder.Some?
    ensures Apply(s, Step(k)) == s
  {
  }

  /** Everybody takes a step, client k in vain. */
  lemma Cycle(s: State, k: nat) returns (actions: seq<Action>)
    requires Inv(s) && k < |s.clients| && s.clients[k].pc.LockTicket? && |s.clients| > 1
    ensures KeptOut(s, Run(s, actions), k)
    ensures forall e: nat :: e < |s.clients| ==> StepsOf(actions, e) >= 1
  {
    var take := OthersTakeMutex(s, k);
    var t, others := Run(s, take), StepOfOthers(|s.clients|, k);
    OthersRun(s, k, take);
    TriesInVain(t, k);
    OthersRun(t, k, others);
    KeptOutOn(s, t, Run(t, others), k);
    RunCons(t, Step(k), others);
    BakerySafety.RunSplit(s, take, [Step(k)] + others);
    actions := take + ([Step(k)] + others);
    forall e: nat | e < |s.clients| ensures StepsOf(actions, e) >= 1 {
      StepsSplit(take, [Step(k)] + others, e);
      if e != k { EverybodySteps(|s.clients|, k, e); }
    }
  }

  lemma {:induction false} Cycles(s: State, k: nat, m: nat) returns (actions: seq<Action>)
    requires Inv(s) && k < |s.clients| && s.clients[k].pc.LockTicket? && |s.clients| > 1
    ensures KeptOut(s, Run(s, actions), k)
    ensures forall e: nat :: e < |s.clients| ==> StepsOf(actions, e) >= m
    decreases m
  {
    if m == 0 {
      actions := [];
    } else {
      var first := Cycle(s, k);
      var t := Run(s, first);
      var rest := Cycles(t, k, m - 1);
      BakerySafety.RunSplit(s, first, rest);
      KeptOutOn(s, t, Run(t, rest), k);
      actions := first + rest;
      forall e: nat | e < |s.clients| ensures StepsOf(actions, e) >= m {
        StepsSplit(first, rest, e);
      }
    }
  }

  /** From every state in which client k stands before the mutex, and not alone, any number of rounds that
      give each client its six steps can go by without client k getting anywhere. */
  lemma {:induction false} CanBeLockedOut(s: State, k: nat, r: nat) returns (rounds: seq<seq<Action>>)
    requires Inv(s) && k < |s.clients| && s.clients[k].pc.LockTicket? && |s.clients| > 1
    ensures |rounds| == r && forall i :: 0 <= i < r ==> SteadyRound(rounds[i], |s.clients|)
    ensures KeptOut(s, RunRounds(s, rounds), k)
    decreases r
  {
    if r == 0 {
      rounds := [];
    } else {
      var first := Cycles(s, k, 6);
      var t := Run(s, first);
      var rest := CanBeLockedOut(t, k, r - 1);
      rounds := [first] + rest;
      RoundsCons(s, first, rest);
      KeptOutOn(s, t, RunRounds(t, rest), k);
    }
  }

  lemma RoundsCons(s: State, first: seq<Action>, rest: seq<seq<Action>>)
    requires Shape(s)
    ensures RunRounds(s, [first] + rest) == RunRounds(Run(s, first), rest)
  {
    assert ([first] + rest)[1..] == rest;
  }

  // ---------- Both halves ----------

  /** Whatever b or more rounds are run, with any arrivals, client k has been served after them. */
  ghost predicate ServedWithin(s: State, k: nat, b: nat)
    requires Shape(s)
  {
    forall rounds: seq<seq<Action>> ::
      |rounds| >= b && (forall r :: 0 <= r < |rounds| ==> SteadyRound(rounds[r], |s.clients|)) ==>
        Served(s, RunRounds(s, rounds), k)
  }

  /** Rounds for the way to a ticket, and for the wait with it. */
  ghost function Bound(n: nat): nat { 12 + 4 * n + n * (25 + 8 * n) }

  lemma PastTheLock(s: State, k: nat)
    requires BakerySafety.Reachable(s) && Unserved(s, k)
    ensures Shape(s)
    ensures !s.clients[k].pc.LockTicket? || |s.clients| == 1 ==> ServedWithin(s, k, Bound(|s.clients|))
  {
    BakerySafety.ReachableInv(s);
    if !s.clients[k].pc.LockTicket? || |s.clients| == 1 {
      TicketOrOnItsWay(s, k);
      BoundIsEnough(s, k, |s.clients|);
    }
  }

  lemma BoundIsEnough(s: State, k: nat, n: nat)
    requires (Holds(s, k) || OnItsWay(s, k)) && n == |s.clients|
    ensures ServedWithin(s, k, Bound(n))
  {
    DebtIsCovered(n, k);
    ServiceIsSure(s, k, n * (25 + 8 * n), Bound(n));
  }

  lemma ServiceIsSure(s: State, k: nat, wait: nat, b: nat)
    requires Holds(s, k) || OnItsWay(s, k)
    requires Covers(wait, |s.clients|, k) && b == 12 + 4 * |s.clients| + wait
    ensures ServedWithin(s, k, b)
  {
    forall rounds: seq<seq<Action>> |
      |rounds| >= b && forall r :: 0 <= r < |rounds| ==> SteadyRound(rounds[r], |s.clients|)
      ensures Served(s, RunRounds(s, rounds), k)
    {
      ServedAfter(s, k, rounds, wait);
    }
  }

  lemma TicketOrOnItsWay(s: State, k: nat)
    requires Inv(s) && Unserved(s, k) && (!s.clients[k].pc.LockTicket? || |s.clients| == 1)
    ensures Holds(s, k) || OnItsWay(s, k)
  {
    assert ClientInv(s, k);
  }

  lemma ServedAfter(s: State, k: nat, rounds: seq<seq<Action>>, wait: nat)
    requires Holds(s, k) || OnItsWay(s, k)
    requires |rounds| >= 12 + 4 * |s.clients| + wait && Covers(wait, |s.clients|, k)
    requires forall r :: 0 <= r < |rounds| ==> SteadyRound(rounds[r], |s.clients|)
    ensures Served(s, RunRounds(s, rounds), k)
  {
    if Holds(s, k) {
      RoundsServeTicket(s, k, rounds);
    } else {
      WorkBound(|s.number|, s.clients[k]);
      RoundsToService(s, k, rounds, wait);
    }
  }

  lemma BeforeTheLock(s: State, k: nat, b: nat)
    requires BakerySafety.Reachable(s) && Unserved(s, k) && s.clients[k].pc.LockTicket? && |s.clients| > 1
    ensures Shape(s) && !ServedWithin(s, k, b)
  {
    BakerySafety.ReachableInv(s);
    var rounds := CanBeLockedOut(s, k, b);
    assert !Served(s, RunRounds(s, rounds), k);
  }

  /** Arrivals may go on for ever and the mutex need not be fair. Then a request in any reachable state
      is sure to be served within some number of rounds exactly when it is past the lock of get_ticket,
      or its client is the only one; and the same number of rounds is enough for all of these. */
  lemma ServedWithinIff(s: State, k: nat)
    requires BakerySafety.Reachable(s) && Unserved(s, k)
    ensures Shape(s)
    ensures (exists b: nat :: ServedWithin(s, k, b)) <==> !s.clients[k].pc.LockTicket? || |s.clients| == 1
    ensures (exists b: nat :: ServedWithin(s, k, b)) <==> ServedWithin(s, k, Bound(|s.clients|))
  {
    PastTheLock(s, k);
    if s.clients[k].pc.LockTicket? && |s.clients| != 1 {
      forall b: nat ensures !ServedWithin(s, k, b) {
        BeforeTheLock(s, k, b);
      }
    }
  }

  /** Lockout is possible from the start, for every number of clients but one and for each of them. */
  lemma TicketlessCanStarve(n: nat, k: nat, r: nat) returns (s: State, rounds: seq<seq<Action>>)
    requires n > 1 && k < n
    ensures BakerySafety.Reachable(s) && |s.clients| == n && s.clients[k].pc.LockTicket?
    ensures |rounds| == r && forall i :: 0 <= i < r ==> SteadyRound(rounds[i], n)
    ensures var t := RunRounds(s, rounds);
            t.clients[k].pc.LockTicket? && k !in t.issued
  {
    InitInv(n);
    s := Apply(Init(n), Arrive(k));
    ApplyKeepsInv(Init(n), Arrive(k));
    RunCons(Init(n), Arrive(k), []);
    assert s == Run(Init(n), [Arrive(k)] + []);
    rounds := CanBeLockedOut(s, k, r);
  }
}
