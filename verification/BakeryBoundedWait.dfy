/** Who holds a ticket is served within a bounded number of rounds, even if new requests never stop
    arriving and the mutex is not fair. */
module BakeryBoundedWait {
  import opened Common
  import opened BakeryProtocol
  import opened BakeryInvariant
  import opened BakeryProgress
  import BakerySafety

  /** Client j can still come back with a new request before it has to queue behind k's ticket: it has no
      request in flight or is about to return, or it will be served before k. */
  ghost predicate MayReturn(s: State, k: nat, j: nat)
    requires k < |s.number| && j < |s.number| == |s.clients|
  {
    j != k && (s.clients[j].pc.Idle? || s.clients[j].pc.UnlockClear? || 0 < s.number[j] < s.number[k])
  }

  /** The work of a request that has still to arrive, and its arrival. */
  ghost function Visit(n: nat): nat { 13 + 4 * n }

  /** An upper bound on what client j may do until k is served: its work in flight, and one more visit. */
  ghost function Debt(s: State, k: nat, j: nat): nat
    requires k < |s.number| && j < |s.number| == |s.clients|
  {
    Work(|s.number|, s.clients[j]) + if MayReturn(s, k, j) then Visit(|s.number|) else 0
  }

  ghost function Debts(s: State, k: nat): seq<nat>
    requires k < |s.number| == |s.clients|
  {
    seq(|s.clients|, j requires 0 <= j < |s.clients| => Debt(s, k, j))
  }

  ghost function Itself(x: nat): nat { x }

  ghost function Total(xs: seq<nat>): nat { Sum(xs, Itself) }

  // ---------- One action ----------

  /** Client k waits with its ticket. */
  ghost predicate Holds(s: State, k: nat) {
    Inv(s) && HasTicket(s, k)
  }

  lemma NumberKept(s: State, k: nat, a: Action)
    requires Shape(s) && k < |s.number|
    requires a == Step(k) ==> !s.clients[k].pc.Clear? && !s.clients[k].pc.Assign?
    ensures Apply(s, a).number[k] == s.number[k]
  {
  }

  /** Only the client that clears its number loses its ticket. */
  lemma TicketStays(s: State, k: nat, a: Action)
    requires Holds(s, k) && !(a == Step(k) && s.clients[k].pc.Clear?)
    ensures Apply(s, a).number[k] == s.number[k] && Holds(Apply(s, a), k)
  {
    ApplyKeepsInv(s, a);
    assert ClientInv(s, k);
    NumberKept(s, k, a);
  }

  /** A client that has just become able to return was able to before: when it clears its number it goes
      in front of k, and a new ticket is behind k's. */
  lemma NoNewReturn(s: State, k: nat, j: nat)
    requires Holds(s, k) && j < |s.clients| && !(j == k && s.clients[k].pc.Clear?)
    requires MayReturn(StepClient(s, j), k, j)
    ensures MayReturn(s, k, j)
  {
    TicketStays(s, k, Step(j));
    assert ClientInv(s, j);
    var pc := s.clients[j].pc;
    if pc.Clear? {
      ServedIsHead(s, j);
      TicketsDistinct(s, j, k);
    } else if pc.Assign? {
      FreshTicket(s, j);
    } else {
      NumberStays(s, j);
    }
  }

  lemma NumberStays(s: State, j: nat)
    requires Shape(s) && j < |s.clients| && !s.clients[j].pc.Clear? && !s.clients[j].pc.Assign?
    ensures StepClient(s, j).number == s.number
    ensures StepClient(s, j).clients[j].pc.Idle? ==> s.clients[j].pc.UnlockClear? || s.clients[j].pc.Idle?
    ensures !StepClient(s, j).clients[j].pc.UnlockClear? || s.clients[j].pc.UnlockClear?
  {
  }

  /** The debts of the clients that do not move stay. */
  lemma DebtFrame(s: State, t: State, k: nat, j: nat)
    requires Shape(s) && Shape(t) && |s.clients| == |t.clients| && k < |s.clients| && j < |s.clients|
    requires t.clients == s.clients[j := t.clients[j]] && t.number == s.number[j := t.number[j]]
    requires t.number[k] == s.number[k]
    ensures Debts(t, k) == Debts(s, k)[j := Debt(t, k, j)]
    ensures Total(Debts(t, k)) + Debt(s, k, j) == Total(Debts(s, k)) + Debt(t, k, j)
  {
    assert Debts(t, k) == Debts(s, k)[j := Debt(t, k, j)];
    SumUpdate(Debts(s, k), j, Debt(t, k, j), Itself);
  }

  lemma StepEffect(s: State, j: nat)
    requires Shape(s) && j < |s.clients|
    ensures var t := StepClient(s, j);
            t.clients == s.clients[j := t.clients[j]] && t.number == s.number[j := t.number[j]]
  {
    assert s.clients == s.clients[j := s.clients[j]];
    assert s.number == s.number[j := s.number[j]];
  }

  /** A step pays off some debt, or it leaves the work undone. */
  lemma StepPays(s: State, k: nat, j: nat)
    requires Holds(s, k) && j < |s.clients| && !(j == k && s.clients[k].pc.Clear?)
    ensures var t := StepClient(s, j);
            && Total(Debts(t, k)) <= Total(Debts(s, k))
            && (Total(Debts(t, k)) == Total(Debts(s, k)) ==> TotalWork(t) == TotalWork(s))
  {
    var t := StepClient(s, j);
    TicketStays(s, k, Step(j));
    StepEffect(s, j);
    DebtFrame(s, t, k, j);
    StepWork(s, j);
    WorkUpdate(|s.number|, s.clients, j, t.clients[j]);
    if MayReturn(t, k, j) { NoNewReturn(s, k, j); }
  }

  /** An arrival uses up the one visit that its client still has. */
  lemma ArrivalPays(s: State, k: nat, j: nat)
    requires Holds(s, k) && j < |s.clients|
    ensures var t := ArriveClient(s, j);
            && Total(Debts(t, k)) <= Total(Debts(s, k))
            && (Total(Debts(t, k)) == Total(Debts(s, k)) ==> t == s)
  {
    assert ClientInv(s, k) && ClientInv(s, j);
    var t := ArriveClient(s, j);
    if t != s {
      assert s.number == s.number[j := s.number[j]];
      DebtFrame(s, t, k, j);
    }
  }

  // ---------- One round ----------

  /** Between s and t client k has cleared a number. */
  ghost predicate Served(s: State, t: State, k: nat) {
    |s.cleared| <= |t.cleared| && k in t.cleared[|s.cleared|..]
  }

  lemma ActionServes(s: State, a: Action, k: nat)
    requires Holds(s, k) && a == Step(k) && s.clients[k].pc.Clear?
    ensures Served(s, Apply(s, a), k)
  {
    assert Apply(s, a).cleared[|s.cleared|..] == [k];
  }

  lemma ServedLater(s: State, t: State, u: State, k: nat)
    requires s.cleared <= t.cleared <= u.cleared
    requires Served(s, t, k) || Served(t, u, k)
    ensures Served(s, u, k)
  {
    assert u.cleared[|s.cleared|..] == t.cleared[|s.cleared|..] + u.cleared[|t.cleared|..];
  }

  /** Any actions at all, arrivals included: either k is served, or it keeps its ticket and no debt is added. */
  lemma {:induction false} RunPays(s: State, k: nat, actions: seq<Action>)
    requires Holds(s, k)
    ensures s.cleared <= Run(s, actions).cleared
    ensures Served(s, Run(s, actions), k)
         || (Holds(Run(s, actions), k) && Total(Debts(Run(s, actions), k)) <= Total(Debts(s, k)))
    decreases |actions|
  {
    RunServes(s, actions, k);
    if actions == [] {
    } else {
      var a, t, u := actions[0], Apply(s, actions[0]), Run(s, actions);
      StepServes(s, a, k);
      RunServes(t, actions[1..], k);
      if a == Step(k) && s.clients[k].pc.Clear? {
        ActionServes(s, a, k);
        ServedLater(s, t, u, k);
      } else {
        TicketStays(s, k, a);
        ActionPays(s, k, a);
        RunPays(t, k, actions[1..]);
        if Served(t, u, k) { ServedLater(s, t, u, k); }
      }
    }
  }

  lemma ActionPays(s: State, k: nat, a: Action)
    requires Holds(s, k) && !(a == Step(k) && s.clients[k].pc.Clear?)
    ensures var t := Apply(s, a);
            && |t.number| == |t.clients| && k < |t.number|
            && Total(Debts(t, k)) <= Total(Debts(s, k))
            && (Total(Debts(t, k)) == Total(Debts(s, k)) ==>
                  if a.Step? && a.client < |s.clients| then TotalWork(t) == TotalWork(s) else t == s)
  {
    if a.client < |s.clients| {
      if a.Step? { StepPays(s, k, a.client); } else { ArrivalPays(s, k, a.client); }
    }
  }

  /** As long as no debt is paid, a ready client stays ready and uses up its effort step by step. */
  lemma {:induction false} IdleRound(s: State, k: nat, d: nat, actions: seq<Action>)
    requires Holds(s, k) && Ready(s, d)
    requires !Served(s, Run(s, actions), k)
    requires Holds(Run(s, actions), k) && Total(Debts(Run(s, actions), k)) == Total(Debts(s, k))
    ensures StepsOf(actions, d) <= Effort(s, d)
    decreases |actions|
  {
    if actions == [] {
    } else {
      var a, t, u := actions[0], Apply(s, actions[0]), Run(s, actions);
      StepServes(s, a, k);
      RunServes(t, actions[1..], k);
      if a == Step(k) && s.clients[k].pc.Clear? {
        ActionServes(s, a, k);
        ServedLater(s, t, u, k);
        assert false;
      }
      TicketStays(s, k, a);
      ActionPays(s, k, a);
      RunPays(t, k, actions[1..]);
      if Served(t, u, k) { ServedLater(s, t, u, k); assert false; }
      ReadyStays(s, a, d);
      IdleRound(t, k, d, actions[1..]);
    }
  }

  lemma ReadyStays(s: State, a: Action, d: nat)
    requires Inv(s) && Ready(s, d)
    requires if a.Step? && a.client < |s.clients| then TotalWork(Apply(s, a)) == TotalWork(s) else Apply(s, a) == s
    ensures Ready(Apply(s, a), d)
    ensures Effort(Apply(s, a), d) + One(a == Step(d)) <= Effort(s, d)
  {
    if a.Step? && a.client < |s.clients| {
      if a.client == d { ReadyStep(s, d); } else { OtherStep(s, d, a.client); }
    }
  }

  /** A stretch of a schedule that gives each of n clients six steps, with any arrivals in between. */
  ghost predicate SteadyRound(actions: seq<Action>, n: nat) {
    forall k: nat :: k < n ==> StepsOf(actions, k) >= 6
  }

  lemma RoundPays(s: State, k: nat, actions: seq<Action>)
    requires Holds(s, k) && SteadyRound(actions, |s.clients|)
    ensures Served(s, Run(s, actions), k)
         || (Holds(Run(s, actions), k) && Total(Debts(Run(s, actions), k)) < Total(Debts(s, k)))
  {
    RunPays(s, k, actions);
    var d := ReadyWithin(s, k);
    assert StepsOf(actions, d) >= 6;
    if !Served(s, Run(s, actions), k) && Total(Debts(Run(s, actions), k)) == Total(Debts(s, k)) {
      IdleRound(s, k, d, actions);
    }
  }

  lemma ReadyWithin(s: State, k: nat) returns (d: nat)
    requires Holds(s, k)
    ensures Ready(s, d) && d < |s.clients| && Effort(s, d) < 6
  {
    assert ClientInv(s, k);
    d := SomebodyIsReady(s, k);
  }

  // ---------- All rounds ----------

  /** Its own work is among the debts. */
  lemma DebtIsLeft(s: State, k: nat)
    requires Holds(s, k)
    ensures Total(Debts(s, k)) > 0
  {
    assert ClientInv(s, k);
    SumAtLeast(Debts(s, k), k, Itself);
  }

  lemma {:induction false} RoundsServeTicket(s: State, k: nat, rounds: seq<seq<Action>>)
    requires Holds(s, k) && |rounds| >= Total(Debts(s, k))
    requires forall r :: 0 <= r < |rounds| ==> SteadyRound(rounds[r], |s.clients|)
    ensures Served(s, RunRounds(s, rounds), k)
    decreases |rounds|
  {
    DebtIsLeft(s, k);
    if rounds == [] {
    } else {
      var t := Run(s, rounds[0]);
      RoundPays(s, k, rounds[0]);
      RunServes(s, rounds[0], k);
      RoundsServe(t, rounds[1..], k);
      if !Served(s, t, k) { RoundsServeTicket(t, k, rounds[1..]); }
      ServedLater(s, t, RunRounds(s, rounds), k);
    }
  }

  lemma DebtBound(s: State, k: nat)
    requires Shape(s) && k < |s.clients|
    ensures Total(Debts(s, k)) <= |s.clients| * (25 + 8 * |s.clients|)
  {
    forall j | 0 <= j < |s.clients| ensures Debts(s, k)[j] <= 25 + 8 * |s.clients| {
      WorkBound(|s.number|, s.clients[j]);
    }
    SumBound(Debts(s, k), 25 + 8 * |s.clients|, Itself);
  }

  /** Bounded waiting: from any reachable state, whoever holds a ticket is served within n * (25 + 8n) rounds
      that give each client six steps, in any order and with any number of arrivals among them. */
  lemma TicketIsServed(s: State, k: nat, rounds: seq<seq<Action>>)
    requires BakerySafety.Reachable(s) && k in BakerySafety.Outstanding(s)
    requires |rounds| >= |s.clients| * (25 + 8 * |s.clients|)
    requires forall r :: 0 <= r < |rounds| ==> SteadyRound(rounds[r], |s.clients|)
    ensures Shape(s)
    ensures var t := RunRounds(s, rounds);
            s.cleared <= t.cleared && k in t.cleared[|s.cleared|..]
  {
    BakerySafety.ReachableInv(s);
    assert HasTicket(s, k);
    DebtBound(s, k);
    RoundsServeTicket(s, k, rounds);
    RoundsServe(s, rounds, k);
  }
}
