/** The server's global variables and the handlers' local ones, updated in place. */
module BakeryServer {
  import opened Common
  import opened BakeryProtocol
  import opened BakeryInvariant
  import opened BakeryProgress

  class Server {
    const choosing: array<bool>
    const number: array<nat>
    const clients: array<Client>
    var holder: Option<nat>
    var reply: Reply
    ghost var issued: seq<nat>
    ghost var cleared: seq<nat>

    /** The abstract state. */
    ghost function Abs(): State
      reads this, choosing, number, clients
    {
      State(choosing[..], number[..], holder, clients[..], reply, issued, cleared)
    }

    ghost predicate Valid()
      reads this, choosing, number, clients
    {
      Inv(Abs())
    }

    /** All numbers and flags are 0 and the mutex is free, as the static initialisers say. */
    constructor (maxClients: nat)
      ensures Valid() && Abs() == Init(maxClients)
      ensures fresh(choosing) && fresh(number) && fresh(clients)
    {
      choosing := new bool[maxClients](_ => false);
      number := new nat[maxClients](_ => 0);
      clients := new Client[maxClients](_ => Client(Idle, 0, 0, 0, 0));
      holder, reply, issued, cleared := None, Reply(0, 0, 0), [], [];
      new;
      assert Abs() == Init(maxClients);
      InitInv(maxClients);
    }

    /** A request of client k arrives. */
    method Arrive(k: nat)
      requires Valid() && k < clients.Length
      modifies clients
      ensures Valid() && Abs() == ArriveClient(old(Abs()), k)
    {
      ArriveKeepsInv(Abs(), k);
      if clients[k].pc.Idle? {
        clients[k] := clients[k].(pc := LockTicket);
      }
      assert Abs() == ArriveClient(old(Abs()), k);
    }

    /** The scan loop's increment. */
    method AdvanceScan(k: nat)
      requires k < clients.Length
      modifies clients
      ensures clients[..] == old(clients[..])[k := NextScan(old(clients[k]), number.Length)]
    {
      var i := clients[k].i + 1;
      clients[k] := clients[k].(i := i, pc := if i < number.Length then ScanRead else Assign);
    }

    /** The waiting loop's increment. */
    method AdvanceWait(k: nat)
      requires k < clients.Length
      modifies clients
      ensures clients[..] == old(clients[..])[k := NextWait(old(clients[k]), number.Length)]
    {
      var i := clients[k].i + 1;
      clients[k] := clients[k].(i := i, pc := if i < number.Length then TestChoosing else ReplyClient);
    }

    /** One step of get_ticket. */
    method GetTicketStep(k: nat)
      requires Valid() && k < clients.Length && InGetTicket(clients[k].pc)
      modifies this, choosing, number, clients
      ensures Valid() && Abs() == TicketStep(old(Abs()), k)
    {
      StepKeepsInv(Abs(), k);
      var c := clients[k];
      match c.pc {
        case LockTicket =>
          if holder.None? {
            holder := Some(k);
            clients[k] := c.(pc := RaiseChoosing);
          }
        case RaiseChoosing =>
          choosing[k] := true;
          clients[k] := c.(pc := ScanRead, i := 0, maxNum := 0);
        case ScanRead =>
          if number[c.i] > c.maxNum {
            clients[k] := c.(pc := ScanTake);
          } else {
            AdvanceScan(k);
          }
        case ScanTake =>
          clients[k] := c.(maxNum := number[c.i]);
          AdvanceScan(k);
        case Assign =>
          number[k] := c.maxNum + 1;
          issued := issued + [k];
          clients[k] := c.(pc := LowerChoosing);
        case LowerChoosing =>
          choosing[k] := false;
          clients[k] := c.(pc := UnlockTicket);
        case UnlockTicket =>
          holder := None;
          clients[k] := c.(pc := Reread);
        case Reread =>
          clients[k] := c.(pc := TestChoosing, i := 0, ticket := number[k]);
      }
      assert clients[..] == TicketStep(old(Abs()), k).clients;
      assert Abs() == TicketStep(old(Abs()), k);
    }

    /** One step of wait_for_turn. */
    method WaitForTurnStep(k: nat)
      requires Valid() && k < clients.Length && Waiting(clients[k].pc)
      modifies clients
      ensures Valid() && Abs() == WaitStep(old(Abs()), k)
    {
      StepKeepsInv(Abs(), k);
      var c := clients[k];
      match c.pc {
        case TestChoosing =>
          if !choosing[c.i] { clients[k] := c.(pc := TestNonzero); }
        case TestNonzero =>
          if number[c.i] != 0 {
            clients[k] := c.(pc := ReadLess);
          } else {
            AdvanceWait(k);
          }
        case ReadLess =>
          clients[k] := c.(pc := CompareLess, seen := number[c.i]);
        case CompareLess =>
          clients[k] := c.(pc := if c.seen < number[k] then TestNonzero else ReadEqual);
        case ReadEqual =>
          clients[k] := c.(pc := CompareEqual, seen := number[c.i]);
        case CompareEqual =>
          if c.seen == number[k] && c.i < k {
            clients[k] := c.(pc := TestNonzero);
          } else {
            AdvanceWait(k);
          }
      }
      assert clients[..] == WaitStep(old(Abs()), k).clients;
    }

    /** One step of the reply and of the clearing of the number. */
    method ServeRequestStep(k: nat)
      requires Valid() && k < clients.Length && (InService(clients[k].pc) || clients[k].pc.UnlockClear?)
      modifies this, number, clients
      ensures Valid() && Abs() == ServeStep(old(Abs()), k)
    {
      StepKeepsInv(Abs(), k);
      var c := clients[k];
      match c.pc {
        case ReplyClient =>
          reply := reply.(client := k);
          clients[k] := c.(pc := ReplyTicket);
        case ReplyTicket =>
          reply := reply.(ticket := c.ticket);
          clients[k] := c.(pc := ReplyPosition);
        case ReplyPosition =>
          reply := reply.(position := c.ticket);
          clients[k] := c.(pc := LockClear);
        case LockClear =>
          if holder.None? {
            holder := Some(k);
            clients[k] := c.(pc := Clear);
          }
        case Clear =>
          number[k] := 0;
          cleared := cleared + [k];
          clients[k] := c.(pc := UnlockClear);
        case UnlockClear =>
          holder := None;
          clients[k] := c.(pc := Idle);
      }
      assert clients[..] == ServeStep(old(Abs()), k).clients;
      assert Abs() == ServeStep(old(Abs()), k);
    }

    /** One step of client k's handler, whatever it is. */
    method HandlerStep(k: nat)
      requires Valid() && k < clients.Length
      modifies this, choosing, number, clients
      ensures Valid() && Abs() == StepClient(old(Abs()), k)
    {
      var pc := clients[k].pc;
      if InGetTicket(pc) {
        GetTicketStep(k);
      } else if Waiting(pc) {
        WaitForTurnStep(k);
      } else if !pc.Idle? {
        ServeRequestStep(k);
      }
    }
  }
}
