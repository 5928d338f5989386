/** The safety theorems of the ticket server, over every run from the initial state. */
module BakerySafety {
  import opened Common
  import opened BakeryProtocol
  import opened BakeryInvariant

  ghost predicate Reachable(s: State) {
    exists n: nat, actions: seq<Action> :: s == Run(Init(n), actions)
  }

  lemma ReachableInv(s: State)
    requires Reachable(s)
    ensures Inv(s)
  {
    var n: nat, actions: seq<Action> :| s == Run(Init(n), actions);
    InitInv(n);
    RunKeepsInv(Init(n), actions);
  }

  /** Of any two clients between leaving wait_for_turn and clearing their number, both are the same. */
  lemma ServiceIsExclusive(s: State, j: nat, k: nat)
    requires Reachable(s) && j < |s.clients| && k < |s.clients|
    requires InService(s.clients[j].pc) && InService(s.clients[k].pc)
    ensures j == k
  {
    ReachableInv(s);
    MutualExclusion(s, j, k);
  }

  // ---------- Outstanding tickets ----------

  ghost function Outstanding(s: State): set<nat> {
    set k: nat | k < |s.number| && s.number[k] != 0
  }

  ghost function Tickets(s: State): set<nat> {
    set k: nat | k < |s.number| && s.number[k] != 0 :: s.number[k]
  }

  /** The hi - lo numbers from lo up to but excluding hi. */
  ghost function Interval(lo: nat, hi: nat): (r: set<nat>)
    ensures forall v :: v in r <==> lo <= v < hi
    ensures |r| == if lo < hi then hi - lo else 0
    decreases hi - lo
  {
    if lo < hi then {lo} + Interval(lo + 1, hi) else {}
  }

  ghost function Members(q: seq<nat>): (r: set<nat>)
    ensures forall x :: x in r <==> x in q
  {
    if q == [] then {} else {q[0]} + Members(q[1..])
  }

  /** A duplicate-free queue has as many members as entries. */
  lemma {:induction false} QueueSize(q: seq<nat>)
    requires forall i, j :: 0 <= i < j < |q| ==> q[i] != q[j]
    ensures |Members(q)| == |q|
  {
    if q == [] {
    } else {
      var rest := q[1..];
      assert forall i :: 0 <= i < |rest| ==> rest[i] == q[i + 1];
      QueueSize(rest);
      assert q[0] !in Members(rest);
    }
  }

  /** The queue lists exactly the clients with a ticket, each once. */
  lemma OutstandingIsQueue(s: State)
    requires QueueInv(s)
    ensures Outstanding(s) == Members(Queue(s))
    ensures |Outstanding(s)| == |Queue(s)|
  {
    var q, low := Queue(s), Low(s);
    assert forall j :: 0 <= j < |q| ==> s.number[q[j]] == low + j;
    forall i, j | 0 <= i < j < |q| ensures q[i] != q[j] {
      assert s.number[q[i]] != s.number[q[j]];
    }
    QueueSize(q);
    forall k | k in Outstanding(s) ensures k in q {
      assert HasTicket(s, k);
    }
  }

  /** The outstanding tickets are the numbers Low, Low + 1, ... */
  lemma TicketsAreInterval(s: State)
    requires QueueInv(s)
    ensures Tickets(s) == Interval(Low(s), Low(s) + |Queue(s)|)
  {
    var q, low := Queue(s), Low(s);
    forall v | v in Interval(low, low + |q|) ensures v in Tickets(s) {
      assert s.number[q[v - low]] == low + (v - low);
    }
    forall v | v in Tickets(s) ensures v in Interval(low, low + |q|) {
      var k :| k in Outstanding(s) && s.number[k] == v;
      assert HasTicket(s, k);
    }
  }

  /** Outstanding tickets are exactly the numbers from Low on, one for each ticketed client, without
      gap or duplicate; their spread stays below the number of client ids. */
  lemma TicketsFormInterval(s: State)
    requires Reachable(s)
    ensures Tickets(s) == Interval(Low(s), Low(s) + |Outstanding(s)|)
    ensures |Tickets(s)| == |Outstanding(s)| == |Queue(s)| <= |s.clients|
  {
    ReachableInv(s);
    OutstandingIsQueue(s);
    TicketsAreInterval(s);
    SubsetSize(Outstanding(s), Interval(0, |s.number|));
  }

  lemma {:induction false} SubsetSize(a: set<nat>, b: set<nat>)
    requires a <= b
    ensures |a| <= |b|
  {
    if a != {} {
      var x :| x in a;
      SubsetSize(a - {x}, b - {x});
    }
  }

  // ---------- Order of service ----------

  /** First come, first served: the clients served so far are a prefix of the clients that got a
      ticket, and the rest of that history is exactly the queue of clients holding one. */
  lemma ServedInTicketOrder(s: State)
    requires Reachable(s)
    ensures s.cleared <= s.issued
    ensures s.issued == s.cleared + Queue(s)
    ensures forall j :: 0 <= j < |Queue(s)| ==> Queue(s)[j] in Outstanding(s)
    ensures forall k :: k in Outstanding(s) ==> k in Queue(s)
  {
    ReachableInv(s);
    forall k | k in Outstanding(s) ensures k in Queue(s) {
      assert HasTicket(s, k);
    }
  }

  /** The clients whose tickets come before client k's. */
  ghost function Ahead(s: State, k: nat): set<nat>
    requires k < |s.number|
  {
    set j: nat | j < |s.number| && 0 < s.number[j] < s.number[k]
  }

  /** What a step does to the numbers: nothing, a fresh largest one, or a clearing of the oldest. */
  lemma NumberEffect(s: State, a: Action)
    requires Inv(s)
    ensures var t, k := Apply(s, a), a.client;
      || t.number == s.number
      || (a.Step? && k < |s.number| && s.number[k] == 0 && t.number == s.number[k := t.number[k]]
          && forall j :: 0 <= j < |s.number| ==> s.number[j] < t.number[k])
      || (a.Step? && k < |s.number| && InService(s.clients[k].pc) && t.number == s.number[k := 0])
  {
    if a.Step? && a.client < |s.clients| && s.clients[a.client].pc.Assign? {
      FreshTicket(s, a.client);
    }
  }

  /** Zero bypass: while client k holds its ticket no step puts anybody in front of it, and its
      ticket does not change. */
  lemma NobodyOvertakes(s: State, a: Action, k: nat)
    requires Reachable(s) && k < |s.number|
    requires k in Outstanding(s) && k in Outstanding(Apply(s, a))
    ensures Apply(s, a).number[k] == s.number[k]
    ensures Ahead(Apply(s, a), k) <= Ahead(s, k)
  {
    ReachableInv(s);
    NumberEffect(s, a);
  }

  /** The clients ahead of k at any later time were ahead of it all along, as long as k stays ticketed. */
  lemma {:induction false} NobodyOvertakesInRun(s: State, actions: seq<Action>, k: nat)
    requires Reachable(s) && k < |s.number|
    requires forall m :: 0 <= m <= |actions| ==> k in Outstanding(Run(s, actions[..m]))
    ensures Run(s, actions).number[k] == s.number[k]
    ensures Ahead(Run(s, actions), k) <= Ahead(s, k)
    decreases |actions|
  {
    assert actions[..|actions|] == actions;
    if actions == [] {
    } else {
      var last := |actions| - 1;
      var mid := Run(s, actions[..last]);
      assert actions[..last] + [actions[last]] == actions;
      RunSplit(s, actions[..last], [actions[last]]);
      forall m | 0 <= m <= last ensures k in Outstanding(Run(s, actions[..last][..m])) {
        assert actions[..last][..m] == actions[..m];
      }
      NobodyOvertakesInRun(s, actions[..last], k);
      RunStaysReachable(s, actions[..last]);
      assert [actions[last]][1..] == [];
      assert Run(s, actions) == Apply(mid, actions[last]);
      assert k in Outstanding(mid);
      NobodyOvertakes(mid, actions[last], k);
    }
  }

  lemma {:induction false} RunSplit(s: State, xs: seq<Action>, ys: seq<Action>)
    requires Shape(s)
    ensures Run(s, xs + ys) == Run(Run(s, xs), ys)
    decreases |xs|
  {
    if xs == [] {
      assert xs + ys == ys;
    } else {
      assert (xs + ys)[0] == xs[0] && (xs + ys)[1..] == xs[1..] + ys;
      RunSplit(Apply(s, xs[0]), xs[1..], ys);
    }
  }

  lemma RunStaysReachable(s: State, actions: seq<Action>)
    requires Reachable(s)
    ensures Shape(s) && Reachable(Run(s, actions))
  {
    ReachableInv(s);
    var n: nat, before: seq<Action> :| s == Run(Init(n), before);
    RunSplit(Init(n), before, actions);
    assert Run(s, actions) == Run(Init(n), before + actions);
  }

  // ---------- What a handler sees ----------

  /** The ticket a handler works with is the one line 29 assigned; while it fills the shared reply
      nobody else writes there, so at the clearing of the number the reply is its own. */
  lemma ReplyIsOwn(s: State, k: nat)
    requires Reachable(s) && k < |s.clients|
    ensures Waiting(s.clients[k].pc) || InService(s.clients[k].pc) ==> s.clients[k].ticket == s.number[k] > 0
    ensures s.clients[k].pc.LockClear? || s.clients[k].pc.Clear? ==> s.reply == Reply(k, s.number[k], s.number[k])
  {
    ReachableInv(s);
    assert ClientInv(s, k);
  }

  /** At most one choosing flag is up, and its owner holds the mutex. */
  lemma OneChooser(s: State, k: nat)
    requires Reachable(s) && k < |s.choosing| && s.choosing[k]
    ensures s.holder == Some(k)
    ensures forall j :: 0 <= j < |s.choosing| && s.choosing[j] ==> j == k
  {
    ReachableInv(s);
    assert ClientInv(s, k);
    forall j | 0 <= j < |s.choosing| && s.choosing[j] ensures j == k {
      assert ClientInv(s, j);
    }
  }

  /** The tie-break on line 46 never decides anything: equal tickets are compared only with oneself. */
  lemma TieBreakNeverFires(s: State, k: nat)
    requires Reachable(s) && k < |s.clients| && s.clients[k].pc.CompareEqual?
    ensures !(s.clients[k].seen == s.number[k] && s.clients[k].i < k)
  {
    ReachableInv(s);
    assert ClientInv(s, k);
  }

  /** Although other clients move between the scan's iterations, the ticket assigned on line 29 exceeds every
      outstanding one, follows the largest directly, and is 1 exactly when nobody holds one. */
  lemma TicketIsFresh(s: State, k: nat)
    requires Reachable(s) && k < |s.clients| && s.clients[k].pc.Assign?
    ensures var ticket := Apply(s, Step(k)).number[k];
            && (forall j :: 0 <= j < |s.number| ==> s.number[j] < ticket)
            && (ticket == 1 <==> Outstanding(s) == {})
            && (ticket > 1 ==> exists j :: 0 <= j < |s.number| && s.number[j] == ticket - 1)
  {
    ReachableInv(s);
    FreshTicket(s, k);
    NoneOutstandingIff(s);
    var q := Queue(s);
    if q != [] {
      assert s.number[q[|q| - 1]] == Low(s) + |q| - 1;
    }
  }

  lemma NoneOutstandingIff(s: State)
    requires QueueInv(s)
    ensures Outstanding(s) == {} <==> Queue(s) == []
    ensures Low(s) >= 1
  {
    OutstandingIsQueue(s);
  }
}
