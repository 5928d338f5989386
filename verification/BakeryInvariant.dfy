/** What every step of every interleaving keeps, and the safety theorems that follow. */
module BakeryInvariant {
  import opened Common
  import opened BakeryProtocol

  /** The largest ticket among `xs`, 0 when there is none: what the scan loop computes. */
  ghost function MaxOf(xs: seq<nat>): (m: nat)
    ensures forall i :: 0 <= i < |xs| ==> xs[i] <= m
    ensures m == 0 || m in xs
  {
    if xs == [] then 0
    else
      var m := MaxOf(xs[..|xs| - 1]);
      assert forall i :: 0 <= i < |xs| - 1 ==> xs[..|xs| - 1][i] == xs[i];
      if xs[|xs| - 1] > m then xs[|xs| - 1] else m
  }

  /** The clients that hold a ticket, oldest first: issued but not yet cleared. */
  ghost function Queue(s: State): seq<nat> {
    if |s.cleared| <= |s.issued| then s.issued[|s.cleared|..] else []
  }

  /** The smallest outstanding ticket (1 when none is outstanding). */
  ghost function Low(s: State): nat {
    var q := Queue(s);
    if q != [] && q[0] < |s.number| then s.number[q[0]] else 1
  }

  ghost predicate HasTicket(s: State, k: int) {
    0 <= k < |s.number| && s.number[k] != 0
  }

  /** Outstanding tickets are Low, Low + 1, ... in the order in which they were issued. */
  ghost predicate QueueInv(s: State) {
    var q, low := Queue(s), Low(s);
    && s.cleared <= s.issued
    && low >= 1
    && (forall j :: 0 <= j < |q| ==> q[j] < |s.number| && s.number[q[j]] == low + j)
    && (forall k {:trigger HasTicket(s, k)} :: HasTicket(s, k) ==>
          low <= s.number[k] < low + |q| && q[s.number[k] - low] == k)
  }

  /** Client k has nothing more to wait for at index i. */
  ghost predicate Passed(s: State, k: nat, i: nat)
    requires k < |s.number| && i < |s.number|
  {
    i == k || s.number[i] == 0 || s.number[i] > s.number[k]
  }

  ghost predicate ScanInv(s: State, c: Client)
    requires c.i <= |s.number|
  {
    && c.maxNum == MaxOf(s.number[..c.i])
    && (c.pc.ScanTake? ==> c.i < |s.number| && s.number[c.i] > c.maxNum)
  }

  ghost predicate WaitInv(s: State, k: nat, c: Client)
    requires k < |s.number| && c.i < |s.number|
  {
    && (forall j :: 0 <= j < c.i ==> Passed(s, k, j))
    && (c.pc.CompareLess? && c.seen >= s.number[k] ==> Passed(s, k, c.i))
    && (c.pc.ReadEqual? || c.pc.CompareEqual? ==> Passed(s, k, c.i))
    && (c.pc.CompareEqual? && c.seen == s.number[k] ==> c.i == k)
  }

  ghost predicate ReplyInv(s: State, k: nat, c: Client) {
    && (c.pc.ReplyTicket? || c.pc.ReplyPosition? || c.pc.LockClear? || c.pc.Clear? ==> s.reply.client == k)
    && (c.pc.ReplyPosition? || c.pc.LockClear? || c.pc.Clear? ==> s.reply.ticket == c.ticket)
    && (c.pc.LockClear? || c.pc.Clear? ==> s.reply.position == c.ticket)
  }

  ghost predicate ClientInv(s: State, k: nat)
    requires Shape(s) && k < |s.clients|
  {
    var c := s.clients[k];
    && (Ticketed(c.pc) <==> s.number[k] != 0)
    && (s.choosing[k] <==> (Scanning(c.pc) || c.pc.Assign? || c.pc.LowerChoosing?))
    && (HoldsMutex(c.pc) <==> s.holder == Some(k))
    && (c.pc.Assign? ==> c.i == |s.number|)
    && (Scanning(c.pc) || c.pc.Assign? ==> ScanInv(s, c))
    && (Waiting(c.pc) || InService(c.pc) ==> c.ticket == s.number[k])
    && (Waiting(c.pc) ==> WaitInv(s, k, c))
    && (InService(c.pc) ==> forall j :: 0 <= j < |s.number| ==> Passed(s, k, j))
    && ReplyInv(s, k, c)
  }

  /** Shape and every client's invariant: all of Inv but the queue. */
  ghost predicate ClientsInv(s: State) {
    && Shape(s)
    && (s.holder.Some? ==> s.holder.value < |s.clients|)
    && forall k :: 0 <= k < |s.clients| ==> ClientInv(s, k)
  }

  ghost predicate Inv(s: State) {
    ClientsInv(s) && QueueInv(s)
  }

  lemma InitInv(n: nat)
    ensures Inv(Init(n))
  {
  }

  // ---------- Consequences of the invariant in one state ----------

  /** No two outstanding tickets are equal. */
  lemma TicketsDistinct(s: State, j: nat, k: nat)
    requires QueueInv(s) && j < |s.number| && k < |s.number| && j != k && s.number[j] != 0
    ensures s.number[j] != s.number[k]
  {
    assert HasTicket(s, j);
    assert s.number[k] != 0 ==> HasTicket(s, k);
  }

  /** Mutual exclusion: at most one client is between leaving wait_for_turn and clearing its number. */
  lemma MutualExclusion(s: State, j: nat, k: nat)
    requires ClientsInv(s) && j < |s.clients| && k < |s.clients|
    requires InService(s.clients[j].pc) && InService(s.clients[k].pc)
    ensures j == k
  {
    assert ClientInv(s, j) && ClientInv(s, k);
    var both := Passed(s, j, k) && Passed(s, k, j);
  }

  /** The client in service is the one that has held its ticket longest. */
  lemma ServedIsHead(s: State, k: nat)
    requires Inv(s) && k < |s.clients| && InService(s.clients[k].pc)
    ensures Queue(s) != [] && Queue(s)[0] == k && s.number[k] == Low(s)
  {
    assert ClientInv(s, k) && HasTicket(s, k);
    var h := Queue(s)[0];
    assert s.number[h] == Low(s);
    assert Passed(s, k, h);
  }

  /** The maximum of all numbers is the ticket issued last, or 0 when the bakery is empty. */
  lemma MaxIsLast(s: State)
    requires QueueInv(s)
    ensures MaxOf(s.number) == if Queue(s) == [] then 0 else Low(s) + |Queue(s)| - 1
  {
    var q, m := Queue(s), MaxOf(s.number);
    if q != [] {
      var last := q[|q| - 1];
      assert s.number[last] <= m;
    }
    if m != 0 {
      var k :| 0 <= k < |s.number| && s.number[k] == m;
      assert HasTicket(s, k);
    }
  }

  // ---------- Every step keeps the invariant ----------

  /** Client j does not move. Client k may change its own number to 0 or to something larger than
      j's, while j is not in the scan. Then j's invariant survives. */
  lemma FrameClient(s: State, t: State, k: nat, j: nat)
    requires Shape(s) && Shape(t) && |s.clients| == |t.clients| && j < |s.clients| && k < |s.clients| && j != k
    requires t.clients[j] == s.clients[j] && t.choosing[j] == s.choosing[j]
    requires t.number == s.number[k := t.number[k]]
    requires t.number == s.number || (t.number[k] == 0 || t.number[k] > s.number[j])
    requires t.number == s.number || !(Scanning(s.clients[j].pc) || s.clients[j].pc.Assign?)
    requires (s.holder == Some(j)) == (t.holder == Some(j))
    requires s.reply == t.reply || !InService(s.clients[j].pc)
    requires ClientInv(s, j)
    ensures ClientInv(t, j)
  {
    var c := s.clients[j];
    forall i | 0 <= i < |s.number| && Passed(s, j, i) ensures Passed(t, j, i) {
    }
    if InService(c.pc) {
      forall i | 0 <= i < |t.number| ensures Passed(t, j, i) {
        assert Passed(s, j, i);
      }
    }
  }

  lemma QueueFrame(s: State, t: State)
    requires QueueInv(s) && t.number == s.number && t.issued == s.issued && t.cleared == s.cleared
    ensures QueueInv(t) && Queue(t) == Queue(s) && Low(t) == Low(s)
  {
    forall k {:trigger HasTicket(t, k)} | HasTicket(t, k)
      ensures Low(t) <= t.number[k] < Low(t) + |Queue(t)| && Queue(t)[t.number[k] - Low(t)] == k
    {
      assert HasTicket(s, k);
    }
  }

  /** The mutex stays as it is, is taken by k, or given back by k. */
  ghost predicate HolderMove(s: State, t: State, k: nat) {
    t.holder == s.holder || (s.holder == None && t.holder == Some(k)) || (s.holder == Some(k) && t.holder == None)
  }

  /** Numbers and histories stay, and of the clients and the flags only k's may change. */
  ghost predicate SharedEffect(s: State, t: State, k: nat)
    requires Shape(s) && |s.clients| == |t.clients| == |t.choosing| && k < |s.clients|
  {
    t == Put(s, k, t.clients[k]).(
           holder := t.holder, reply := t.reply, choosing := s.choosing[k := t.choosing[k]])
  }

  /** Putting it together: the mover's own invariant and the frame of everybody else. */
  lemma AllClients(s: State, t: State, k: nat)
    requires ClientsInv(s) && Shape(t) && |s.clients| == |t.clients| && k < |s.clients|
    requires t.clients == s.clients[k := t.clients[k]] && t.choosing == s.choosing[k := t.choosing[k]]
    requires t.number == s.number[k := t.number[k]]
    requires t.number == s.number || s.holder == Some(k)
    requires t.number == s.number || t.number[k] == 0 || forall j :: 0 <= j < |s.number| ==> s.number[j] < t.number[k]
    requires HolderMove(s, t, k)
    requires t.reply == s.reply || InService(s.clients[k].pc)
    requires ClientInv(t, k)
    ensures ClientsInv(t)
  {
    forall j | 0 <= j < |t.clients| ensures ClientInv(t, j) {
      if j != k {
        assert ClientInv(s, j) && ClientInv(s, k);
        if InService(s.clients[j].pc) && InService(s.clients[k].pc) { MutualExclusion(s, j, k); }
        FrameClient(s, t, k, j);
      }
    }
  }

  lemma MaxOfSnoc(xs: seq<nat>, i: nat)
    requires i < |xs|
    ensures MaxOf(xs[..i + 1]) == if xs[i] > MaxOf(xs[..i]) then xs[i] else MaxOf(xs[..i])
  {
    assert xs[..i + 1][..i] == xs[..i];
  }

  /** A step that changes only client k's own variables keeps everything, if it keeps k's invariant. */
  lemma LocalMove(s: State, k: nat, d: Client)
    requires Inv(s) && k < |s.clients| && Shape(Put(s, k, d)) && ClientInv(Put(s, k, d), k)
    ensures Inv(Put(s, k, d))
  {
    QueueFrame(s, Put(s, k, d));
    AllClients(s, Put(s, k, d), k);
  }

  lemma ArriveKeepsInv(s: State, k: nat)
    requires Inv(s) && k < |s.clients|
    ensures Inv(ArriveClient(s, k))
  {
    var t := ArriveClient(s, k);
    assert ClientInv(s, k);
    QueueFrame(s, t);
    AllClients(s, t, k);
  }

  lemma ScanStepOwn(s: State, k: nat)
    requires Shape(s) && k < |s.clients| && Scanning(s.clients[k].pc) && ClientInv(s, k)
    ensures ClientInv(TicketStep(s, k), k)
  {
    var c := s.clients[k];
    MaxOfSnoc(s.number, c.i);
    var d := TicketStep(s, k).clients[k];
    assert TicketStep(s, k) == Put(s, k, d);
    ScanPut(s, k, d);
  }

  lemma ChoosingStepOwn(s: State, k: nat)
    requires Shape(s) && k < |s.clients| && ClientInv(s, k)
    requires s.clients[k].pc.RaiseChoosing? || s.clients[k].pc.LowerChoosing?
    ensures ClientInv(TicketStep(s, k), k)
  {
  }

  lemma MutexStepOwn(s: State, k: nat)
    requires Shape(s) && k < |s.clients| && ClientInv(s, k)
    requires s.clients[k].pc.LockTicket? || s.clients[k].pc.UnlockTicket? || s.clients[k].pc.Reread?
    ensures ClientInv(TicketStep(s, k), k)
  {
  }

  lemma ScanPut(s: State, k: nat, d: Client)
    requires Shape(s) && k < |s.clients| && Scanning(s.clients[k].pc) && ClientInv(s, k)
    requires Scanning(d.pc) || d.pc.Assign?
    requires d.i <= |s.number| && ScanInv(s, d)
    requires if d.pc.Assign? then d.i == |s.number| else d.i < |s.number|
    ensures Shape(Put(s, k, d)) && ClientInv(Put(s, k, d), k)
  {
  }

  lemma ScanStepKeepsInv(s: State, k: nat)
    requires Inv(s) && k < |s.clients| && Scanning(s.clients[k].pc)
    ensures Inv(TicketStep(s, k))
  {
    ScanStepOwn(s, k);
    assert TicketStep(s, k) == Put(s, k, TicketStep(s, k).clients[k]);
    LocalMove(s, k, TicketStep(s, k).clients[k]);
  }

  /** Any other step that leaves the numbers and the histories alone. */
  lemma SharedMove(s: State, t: State, k: nat)
    requires Inv(s) && Shape(t) && |s.clients| == |t.clients| && k < |s.clients|
    requires SharedEffect(s, t, k)
    requires HolderMove(s, t, k)
    requires t.reply == s.reply || InService(s.clients[k].pc)
    requires ClientInv(t, k)
    ensures Inv(t)
  {
    QueueFrame(s, t);
    AllClients(s, t, k);
  }

  lemma LockStepKeepsInv(s: State, k: nat)
    requires Inv(s) && k < |s.clients| && InGetTicket(s.clients[k].pc)
    requires !Scanning(s.clients[k].pc) && !s.clients[k].pc.Assign?
    ensures Inv(TicketStep(s, k))
  {
    if s.clients[k].pc.RaiseChoosing? || s.clients[k].pc.LowerChoosing? { ChoosingStepOwn(s, k); }
    else { MutexStepOwn(s, k); }
    SharedMove(s, TicketStep(s, k), k);
  }

  /** Ticket freshness: at line 29 the scanned maximum is the true one, so the new ticket follows
      the last outstanding one directly, exceeds all of them, and is 1 in an empty bakery. */
  lemma FreshTicket(s: State, k: nat)
    requires Inv(s) && k < |s.clients| && s.clients[k].pc.Assign?
    ensures s.clients[k].maxNum == MaxOf(s.number)
    ensures s.number[k] == 0
    ensures TicketStep(s, k).number[k] == if Queue(s) == [] then 1 else Low(s) + |Queue(s)|
    ensures forall j :: 0 <= j < |s.number| ==> s.number[j] < TicketStep(s, k).number[k]
  {
    assert ClientInv(s, k);
    assert s.number[..|s.number|] == s.number;
    MaxIsLast(s);
  }

  lemma AssignKeepsQueue(s: State, k: nat)
    requires Inv(s) && k < |s.clients| && s.clients[k].pc.Assign?
    ensures QueueInv(TicketStep(s, k))
    ensures Queue(TicketStep(s, k)) == Queue(s) + [k]
    ensures Low(TicketStep(s, k)) == if Queue(s) == [] then 1 else Low(s)
  {
    var t, q := TicketStep(s, k), Queue(s);
    FreshTicket(s, k);
    AppendTicket(s, t, k);
  }

  /** A queue grows at its end by a client without a ticket that gets the next number. */
  lemma AppendTicket(s: State, t: State, k: nat)
    requires QueueInv(s) && k < |s.number| && s.number[k] == 0
    requires t.number == s.number[k := if Queue(s) == [] then 1 else Low(s) + |Queue(s)|]
    requires t.issued == s.issued + [k] && t.cleared == s.cleared
    ensures QueueInv(t)
    ensures Queue(t) == Queue(s) + [k]
    ensures Low(t) == if Queue(s) == [] then 1 else Low(s)
  {
    var q, low := Queue(s), if Queue(s) == [] then 1 else Low(s);
    assert t.issued[|t.cleared|..] == q + [k];
    assert forall j :: 0 <= j < |q| ==> q[j] != k;
    assert Low(t) == low;
    forall i {:trigger HasTicket(t, i)} | HasTicket(t, i)
      ensures low <= t.number[i] < low + |q| + 1 && (q + [k])[t.number[i] - low] == i
    {
      if i != k { assert HasTicket(s, i); }
    }
  }

  lemma AssignKeepsInv(s: State, k: nat)
    requires Inv(s) && k < |s.clients| && s.clients[k].pc.Assign?
    ensures Inv(TicketStep(s, k))
  {
    AssignKeepsQueue(s, k);
    FreshTicket(s, k);
    assert ClientInv(s, k);
    AllClients(s, TicketStep(s, k), k);
  }

  lemma WaitPut(s: State, k: nat, d: Client)
    requires Shape(s) && k < |s.clients| && Waiting(s.clients[k].pc) && ClientInv(s, k)
    requires d.ticket == s.clients[k].ticket
    requires Waiting(d.pc) ==> d.i < |s.number| && WaitInv(s, k, d)
    requires !Waiting(d.pc) ==> d.pc.ReplyClient? && forall j :: 0 <= j < |s.number| ==> Passed(s, k, j)
    ensures Shape(Put(s, k, d)) && ClientInv(Put(s, k, d), k)
  {
    var t := Put(s, k, d);
    assert forall i :: 0 <= i < |s.number| ==> Passed(t, k, i) == Passed(s, k, i);
  }

  /** With the current index passed, the loop goes on to the next, or out. */
  lemma NextWaitOwn(s: State, k: nat)
    requires Shape(s) && k < |s.clients| && Waiting(s.clients[k].pc) && ClientInv(s, k)
    requires Passed(s, k, s.clients[k].i)
    ensures var t := Put(s, k, NextWait(s.clients[k], |s.number|));
            Shape(t) && ClientInv(t, k)
  {
    var c := s.clients[k];
    forall j | 0 <= j <= c.i ensures Passed(s, k, j) {
    }
    WaitPut(s, k, NextWait(c, |s.number|));
  }

  lemma WaitStepOwn(s: State, k: nat)
    requires Shape(s) && k < |s.clients| && Waiting(s.clients[k].pc) && ClientInv(s, k)
    requires s.clients[k].i == k || s.number[s.clients[k].i] != s.number[k]
    ensures ClientInv(WaitStep(s, k), k)
  {
    var c, t := s.clients[k], WaitStep(s, k);
    if t == Put(s, k, NextWait(c, |s.number|)) {
      NextWaitOwn(s, k);
    } else if t != s {
      assert t == Put(s, k, t.clients[k]);
      WaitPut(s, k, t.clients[k]);
    }
  }

  lemma WaitIsLocal(s: State, k: nat)
    requires Shape(s) && k < |s.clients| && Waiting(s.clients[k].pc)
    ensures WaitStep(s, k) == Put(s, k, WaitStep(s, k).clients[k])
  {
    assert s.clients == s.clients[k := s.clients[k]];
  }

  lemma WaitStepKeepsInv(s: State, k: nat)
    requires Inv(s) && k < |s.clients| && Waiting(s.clients[k].pc)
    ensures Inv(WaitStep(s, k))
  {
    assert ClientInv(s, k);
    if s.clients[k].i != k {
      TicketsDistinct(s, k, s.clients[k].i);
    }
    WaitStepOwn(s, k);
    WaitIsLocal(s, k);
    LocalMove(s, k, WaitStep(s, k).clients[k]);
  }

  lemma ReplyStepOwn(s: State, k: nat)
    requires Shape(s) && k < |s.clients| && !s.clients[k].pc.Clear? && ClientInv(s, k)
    requires InService(s.clients[k].pc) || s.clients[k].pc.UnlockClear?
    ensures ClientInv(ServeStep(s, k), k)
  {
    var t := ServeStep(s, k);
    assert forall i :: 0 <= i < |s.number| ==> Passed(t, k, i) == Passed(s, k, i);
  }

  lemma ReplyEffect(s: State, k: nat)
    requires Shape(s) && k < |s.clients| && !s.clients[k].pc.Clear?
    requires InService(s.clients[k].pc) || s.clients[k].pc.UnlockClear?
    ensures SharedEffect(s, ServeStep(s, k), k)
  {
    assert s.clients == s.clients[k := s.clients[k]];
    assert s.choosing == s.choosing[k := s.choosing[k]];
  }

  lemma ReplyStepKeepsInv(s: State, k: nat)
    requires Inv(s) && k < |s.clients| && !s.clients[k].pc.Clear?
    requires InService(s.clients[k].pc) || s.clients[k].pc.UnlockClear?
    ensures Inv(ServeStep(s, k))
  {
    ReplyStepOwn(s, k);
    ReplyEffect(s, k);
    assert ClientInv(s, k);
    SharedMove(s, ServeStep(s, k), k);
  }

  /** A queue shrinks at its front by the client whose number becomes 0. */
  lemma RemoveTicket(s: State, t: State, k: nat)
    requires QueueInv(s) && Queue(s) != [] && k == Queue(s)[0]
    requires t.number == s.number[k := 0] && t.issued == s.issued && t.cleared == s.cleared + [k]
    ensures QueueInv(t) && Queue(t) == Queue(s)[1..]
  {
    var q, low := Queue(s), Low(s);
    assert t.issued[|t.cleared|..] == q[1..];
    assert s.issued[|s.cleared|] == k;
    assert forall j :: 0 < j < |q| ==> q[j] != k;
    assert |q| > 1 ==> q[1..][0] == q[1];
    assert Low(t) == if |q| > 1 then low + 1 else 1;
    forall i {:trigger HasTicket(t, i)} | HasTicket(t, i)
      ensures low + 1 <= t.number[i] < low + |q| && q[1..][t.number[i] - low - 1] == i
    {
      assert HasTicket(s, i);
    }
  }

  lemma ClearKeepsInv(s: State, k: nat)
    requires Inv(s) && k < |s.clients| && s.clients[k].pc.Clear?
    ensures Inv(ServeStep(s, k))
    ensures Queue(s) != [] && Queue(s)[0] == k && Queue(ServeStep(s, k)) == Queue(s)[1..]
  {
    ServedIsHead(s, k);
    RemoveTicket(s, ServeStep(s, k), k);
    assert ClientInv(s, k);
    AllClients(s, ServeStep(s, k), k);
  }

  lemma StepKeepsInv(s: State, k: nat)
    requires Inv(s) && k < |s.clients|
    ensures Inv(StepClient(s, k))
  {
    var pc := s.clients[k].pc;
    if pc.Assign? { AssignKeepsInv(s, k); }
    else if Scanning(pc) { ScanStepKeepsInv(s, k); }
    else if InGetTicket(pc) { LockStepKeepsInv(s, k); }
    else if Waiting(pc) { WaitStepKeepsInv(s, k); }
    else if pc.Clear? { ClearKeepsInv(s, k); }
    else if !pc.Idle? { ReplyStepKeepsInv(s, k); }
  }

  lemma ApplyKeepsInv(s: State, a: Action)
    requires Inv(s)
    ensures Inv(Apply(s, a))
  {
    if a.client < |s.clients| {
      match a
      case Arrive(k) => ArriveKeepsInv(s, k);
      case Step(k) => StepKeepsInv(s, k);
    }
  }

  lemma {:induction false} RunKeepsInv(s: State, actions: seq<Action>)
    requires Inv(s)
    ensures Inv(Run(s, actions))
    decreases |actions|
  {
    if actions == [] {
    } else {
      ApplyKeepsInv(s, actions[0]);
      RunKeepsInv(Apply(s, actions[0]), actions[1..]);
    }
  }
}
