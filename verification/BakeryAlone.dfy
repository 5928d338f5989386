/** The generated dispatcher calls one handler at a time. That schedule is the special case in which
    every other client is idle while the handler runs from its arrival to its return. */
module BakeryAlone {
  import opened Common
  import opened BakeryProtocol
  import opened BakeryInvariant
  import opened BakeryProgress
  import opened BakeryServer

  ghost predicate AllIdle(s: State) {
    forall j :: 0 <= j < |s.clients| ==> s.clients[j].pc.Idle?
  }

  /** Where client k's request stands, when it was the only one since state s0. */
  ghost predicate Phase(s0: State, s: State, k: nat) {
    && |s.number| == |s.clients| && k < |s.clients|
    && (forall j :: 0 <= j < |s.clients| && j != k ==> s.clients[j].pc.Idle?)
    && s0.cleared == s0.issued
    && var pc := s.clients[k].pc;
       if Ticketed(pc) then
         s.issued == s0.issued + [k] && s.cleared == s0.cleared && s.number[k] == 1
       else if InGetTicket(pc) then
         s.issued == s0.issued && s.cleared == s0.cleared
       else
         s.issued == s0.issued + [k] && s.cleared == s0.cleared + [k] && s.reply == Reply(k, 1, 1)
  }

  ghost predicate Alone(s0: State, s: State, k: nat) {
    Inv(s) && Phase(s0, s, k)
  }

  lemma AloneIsReady(s0: State, s: State, k: nat)
    requires Alone(s0, s, k) && !s.clients[k].pc.Idle?
    ensures Ready(s, k)
  {
    if s.holder.Some? {
      assert ClientInv(s, s.holder.value);
    }
    if Ticketed(s.clients[k].pc) {
      assert Queue(s) == [k];
    }
  }

  lemma TicketPhase(s0: State, s: State, k: nat)
    requires Shape(s) && Phase(s0, s, k) && InGetTicket(s.clients[k].pc)
    requires s.clients[k].pc.Assign? ==> s.clients[k].maxNum == 0
    ensures Phase(s0, TicketStep(s, k), k)
  {
  }

  lemma ServePhase(s0: State, s: State, k: nat)
    requires Shape(s) && Phase(s0, s, k) && (InService(s.clients[k].pc) || s.clients[k].pc.UnlockClear?)
    requires s.clients[k].pc.Clear? ==> s.reply == Reply(k, 1, 1)
    ensures Phase(s0, ServeStep(s, k), k)
  {
  }

  /** Nobody else has a ticket, so the scan finds 0. */
  lemma ScanFindsNone(s0: State, s: State, k: nat)
    requires Alone(s0, s, k) && s.clients[k].pc.Assign?
    ensures s.clients[k].maxNum == 0
  {
    assert Queue(s) == [];
    FreshTicket(s, k);
    MaxIsLast(s);
  }

  /** The reply a client leaves behind when it clears its number. */
  lemma ReplyAtClear(s: State, k: nat)
    requires Inv(s) && k < |s.clients| && s.clients[k].pc.Clear?
    ensures s.reply == Reply(k, s.number[k], s.number[k])
  {
    assert ClientInv(s, k);
  }

  lemma WaitPhase(s0: State, s: State, k: nat)
    requires Shape(s) && Phase(s0, s, k) && Waiting(s.clients[k].pc)
    ensures Phase(s0, WaitStep(s, k), k)
  {
    WaitIsLocal(s, k);
  }

  lemma GetTicketAlone(s0: State, s: State, k: nat)
    requires Alone(s0, s, k) && InGetTicket(s.clients[k].pc)
    ensures Phase(s0, TicketStep(s, k), k)
  {
    if s.clients[k].pc.Assign? { ScanFindsNone(s0, s, k); }
    TicketPhase(s0, s, k);
  }

  lemma ServeAlone(s0: State, s: State, k: nat)
    requires Alone(s0, s, k) && (InService(s.clients[k].pc) || s.clients[k].pc.UnlockClear?)
    ensures Phase(s0, ServeStep(s, k), k)
  {
    if s.clients[k].pc.Clear? { ReplyAtClear(s, k); }
    ServePhase(s0, s, k);
  }

  lemma AloneStep(s0: State, s: State, k: nat)
    requires Alone(s0, s, k) && !s.clients[k].pc.Idle?
    ensures Alone(s0, StepClient(s, k), k)
  {
    var pc := s.clients[k].pc;
    StepKeepsInv(s, k);
    if InGetTicket(pc) { GetTicketAlone(s0, s, k); }
    else if Waiting(pc) { WaitPhase(s0, s, k); }
    else { ServeAlone(s0, s, k); }
  }

  lemma AloneMeasure(s0: State, s: State, k: nat)
    requires Alone(s0, s, k) && !s.clients[k].pc.Idle?
    ensures TotalWork(StepClient(s, k)) < TotalWork(s)
            || (TotalWork(StepClient(s, k)) == TotalWork(s) && Effort(StepClient(s, k), k) < Effort(s, k))
  {
    AloneIsReady(s0, s, k);
    StepTotal(s, k);
    if TotalWork(StepClient(s, k)) == TotalWork(s) { ReadyStep(s, k); }
  }

  lemma IdleNumbers(s: State)
    requires Inv(s) && AllIdle(s)
    ensures s.number == seq(|s.clients|, _ => 0) && s.choosing == seq(|s.clients|, _ => false)
    ensures s.holder == None && s.cleared == s.issued
  {
    forall j | 0 <= j < |s.clients| ensures s.number[j] == 0 && !s.choosing[j] && s.holder != Some(j) {
      assert ClientInv(s, j);
    }
    if Queue(s) != [] { HeadHasTicket(s); }
  }

  /** submit_request_1_svc dispatched alone: it always returns, with ticket 1 for its own client,
      and leaves numbers, flags and mutex as it found them. */
  method SubmitRequest(server: Server, k: nat) returns (reply: Reply)
    requires server.Valid() && k < server.clients.Length && AllIdle(server.Abs())
    modifies server, server.choosing, server.number, server.clients
    ensures server.Valid() && AllIdle(server.Abs())
    ensures reply == Reply(k, 1, 1)
    ensures server.number[..] == old(server.number[..]) && server.choosing[..] == old(server.choosing[..])
    ensures server.holder == old(server.holder) == None
    ensures server.issued == old(server.issued) + [k] && server.cleared == old(server.cleared) + [k]
  {
    ghost var s0 := server.Abs();
    IdleNumbers(s0);
    server.Arrive(k);
    while !server.clients[k].pc.Idle?
      invariant Alone(s0, server.Abs(), k) && |server.Abs().clients| == |s0.clients|
      decreases TotalWork(server.Abs()), Effort(server.Abs(), k)
    {
      AloneStep(s0, server.Abs(), k);
      AloneMeasure(s0, server.Abs(), k);
      server.HandlerStep(k);
    }
    reply := server.reply;
    IdleNumbers(server.Abs());
  }
}
