/** The ticket server as a transition system: shared arrays, one mutex, and one handler per client
    id that moves by atomic steps. Every read or write of a shared variable is a step of its own. */
module BakeryProtocol {
  import opened Common

  /** Where a handler is; the comments give the line of bakery_server.c that it executes next. */
  datatype Pc =
    | Idle            // no request of this client is in flight
    | LockTicket      // 18
    | RaiseChoosing   // 20
    | ScanRead        // 24: read number[i], compare with max_num
    | ScanTake        // 25: read number[i] again, into max_num
    | Assign          // 29
    | LowerChoosing   // 30
    | UnlockTicket    // 32
    | Reread          // 34
    | TestChoosing    // 40
    | TestNonzero     // 44: number[i] != 0
    | ReadLess        // 45: left operand of <
    | CompareLess     // 45: right operand of <, and the comparison
    | ReadEqual       // 46: left operand of ==
    | CompareEqual    // 46: right operand of ==, and i < client_id
    | ReplyClient     // 73
    | ReplyTicket     // 74
    | ReplyPosition   // 75
    | LockClear       // 83
    | Clear           // 84
    | UnlockClear     // 85

  /** A handler's own variables: `seen` is the left operand read last, `ticket` what get_ticket returned. */
  datatype Client = Client(pc: Pc, i: nat, maxNum: nat, seen: nat, ticket: nat)

  /** The static reply structure that all handlers share. */
  datatype Reply = Reply(client: nat, ticket: nat, position: nat)

  /** `issued` and `cleared` are histories: the clients in the order in which line 29 gave them a
      ticket, and in the order in which line 84 took it back. */
  datatype State = State(
    choosing: seq<bool>, number: seq<nat>, holder: Option<nat>, clients: seq<Client>, reply: Reply,
    issued: seq<nat>, cleared: seq<nat>)

  datatype Action = Arrive(client: nat) | Step(client: nat)

  predicate Scanning(pc: Pc) { pc.ScanRead? || pc.ScanTake? }

  predicate TestingNumber(pc: Pc) {
    pc.TestNonzero? || pc.ReadLess? || pc.CompareLess? || pc.ReadEqual? || pc.CompareEqual?
  }

  predicate Waiting(pc: Pc) { pc.TestChoosing? || TestingNumber(pc) }

  predicate InGetTicket(pc: Pc) {
    pc.LockTicket? || pc.RaiseChoosing? || Scanning(pc) || pc.Assign? || pc.LowerChoosing?
    || pc.UnlockTicket? || pc.Reread?
  }

  /** From leaving wait_for_turn up to and including the write that clears the number. */
  predicate InService(pc: Pc) {
    pc.ReplyClient? || pc.ReplyTicket? || pc.ReplyPosition? || pc.LockClear? || pc.Clear?
  }

  predicate HoldsMutex(pc: Pc) {
    pc.RaiseChoosing? || Scanning(pc) || pc.Assign? || pc.LowerChoosing? || pc.UnlockTicket?
    || pc.Clear? || pc.UnlockClear?
  }

  predicate Ticketed(pc: Pc) {
    pc.LowerChoosing? || pc.UnlockTicket? || pc.Reread? || Waiting(pc) || InService(pc)
  }

  /** Array lengths agree, and a loop variable that is about to be used as an index is in range. */
  predicate Shape(s: State) {
    && |s.choosing| == |s.number| == |s.clients|
    && forall k :: 0 <= k < |s.clients| && (Scanning(s.clients[k].pc) || Waiting(s.clients[k].pc)) ==>
         s.clients[k].i < |s.number|
  }

  function Init(n: nat): State {
    State(seq(n, _ => false), seq(n, _ => 0), None, seq(n, _ => Client(Idle, 0, 0, 0, 0)), Reply(0, 0, 0), [], [])
  }

  function Put(s: State, k: nat, c: Client): State
    requires k < |s.clients|
  {
    s.(clients := s.clients[k := c])
  }

  /** The scan loop's increment and test. */
  function NextScan(c: Client, n: nat): Client {
    if c.i + 1 < n then c.(pc := ScanRead, i := c.i + 1) else c.(pc := Assign, i := c.i + 1)
  }

  /** The waiting loop's increment and test. */
  function NextWait(c: Client, n: nat): Client {
    if c.i + 1 < n then c.(pc := TestChoosing, i := c.i + 1) else c.(pc := ReplyClient, i := c.i + 1)
  }

  /** get_ticket: one step of client k. A lock that is held blocks: the step changes nothing. */
  function TicketStep(s: State, k: nat): State
    requires Shape(s) && k < |s.clients| && InGetTicket(s.clients[k].pc)
  {
    var c, n := s.clients[k], |s.number|;
    match c.pc
    case LockTicket =>
      if s.holder.None? then Put(s, k, c.(pc := RaiseChoosing)).(holder := Some(k)) else s
    case RaiseChoosing =>
      Put(s, k, c.(pc := ScanRead, i := 0, maxNum := 0)).(choosing := s.choosing[k := true])
    case ScanRead =>
      Put(s, k, if s.number[c.i] > c.maxNum then c.(pc := ScanTake) else NextScan(c, n))
    case ScanTake =>
      Put(s, k, NextScan(c.(maxNum := s.number[c.i]), n))
    case Assign =>
      Put(s, k, c.(pc := LowerChoosing)).(number := s.number[k := c.maxNum + 1], issued := s.issued + [k])
    case LowerChoosing =>
      Put(s, k, c.(pc := UnlockTicket)).(choosing := s.choosing[k := false])
    case UnlockTicket =>
      Put(s, k, c.(pc := Reread)).(holder := None)
    case Reread =>
      Put(s, k, c.(pc := TestChoosing, i := 0, ticket := s.number[k]))
  }

  /** wait_for_turn: one step of client k. */
  function WaitStep(s: State, k: nat): State
    requires Shape(s) && k < |s.clients| && Waiting(s.clients[k].pc)
  {
    var c, n := s.clients[k], |s.number|;
    match c.pc
    case TestChoosing => if s.choosing[c.i] then s else Put(s, k, c.(pc := TestNonzero))
    case TestNonzero => Put(s, k, if s.number[c.i] == 0 then NextWait(c, n) else c.(pc := ReadLess))
    case ReadLess => Put(s, k, c.(pc := CompareLess, seen := s.number[c.i]))
    case CompareLess => Put(s, k, c.(pc := if c.seen < s.number[k] then TestNonzero else ReadEqual))
    case ReadEqual => Put(s, k, c.(pc := CompareEqual, seen := s.number[c.i]))
    case CompareEqual =>
      Put(s, k, if c.seen == s.number[k] && c.i < k then c.(pc := TestNonzero) else NextWait(c, n))
  }

  /** The tail of submit_request_1_svc: fill the reply, then clear the number under the mutex. */
  function ServeStep(s: State, k: nat): State
    requires Shape(s) && k < |s.clients| && (InService(s.clients[k].pc) || s.clients[k].pc.UnlockClear?)
  {
    var c := s.clients[k];
    match c.pc
    case ReplyClient => Put(s, k, c.(pc := ReplyTicket)).(reply := s.reply.(client := k))
    case ReplyTicket => Put(s, k, c.(pc := ReplyPosition)).(reply := s.reply.(ticket := c.ticket))
    case ReplyPosition => Put(s, k, c.(pc := LockClear)).(reply := s.reply.(position := c.ticket))
    case LockClear => if s.holder.None? then Put(s, k, c.(pc := Clear)).(holder := Some(k)) else s
    case Clear => Put(s, k, c.(pc := UnlockClear)).(number := s.number[k := 0], cleared := s.cleared + [k])
    case UnlockClear => Put(s, k, c.(pc := Idle)).(holder := None)
  }

  /** One step of client k's handler; without a request in flight there is nothing to do. */
  function StepClient(s: State, k: nat): (t: State)
    requires Shape(s) && k < |s.clients|
    ensures Shape(t) && |t.clients| == |s.clients|
  {
    var pc := s.clients[k].pc;
    if InGetTicket(pc) then TicketStep(s, k)
    else if Waiting(pc) then WaitStep(s, k)
    else if pc.Idle? then s
    else ServeStep(s, k)
  }

  /** A request of client k arrives. The server's callers have one request in flight per id. */
  function ArriveClient(s: State, k: nat): (t: State)
    requires Shape(s) && k < |s.clients|
    ensures Shape(t) && |t.clients| == |s.clients|
  {
    if s.clients[k].pc.Idle? then Put(s, k, s.clients[k].(pc := LockTicket)) else s
  }

  function Apply(s: State, a: Action): (t: State)
    requires Shape(s)
    ensures Shape(t) && |t.clients| == |s.clients|
  {
    if a.client >= |s.clients| then s
    else match a
      case Arrive(k) => ArriveClient(s, k)
      case Step(k) => StepClient(s, k)
  }

  /** The state after a whole interleaving of arrivals and steps. */
  function Run(s: State, actions: seq<Action>): (t: State)
    requires Shape(s)
    ensures Shape(t) && |t.clients| == |s.clients|
    decreases |actions|
  {
    if actions == [] then s else Run(Apply(s, actions[0]), actions[1..])
  }
}
